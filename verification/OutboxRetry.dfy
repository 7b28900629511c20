/** How often a reply is sent and how long it waits, for every run of any number of workers, however late
    they read their tokens back. */
module OutboxRetry {
  import opened OutboxModel
  import opened OutboxSafety

  // ----- attempts and re-queues -----

  function LastRequeue(h: History): nat {
    if h.requeues == [] then 0 else h.requeues[|h.requeues| - 1].attempts
  }

  /** Each re-queue after a failed send carries its own attempt number, a later one than before. */
  predicate RequeuesOk(h: History) {
    && (forall k :: 0 <= k < |h.requeues| ==>
          && k + 1 <= h.requeues[k].attempts <= MAX_SEND_ATTEMPTS - 1
          && h.requeues[k].attempts <= k + 1 + h.reclaims
          && h.requeues[k].delay == SMTP_RETRY_BACKOFF_MS[h.requeues[k].attempts - 1])
    && |h.requeues| <= LastRequeue(h)
  }

  /** A worker that has marked an attempt under the row's lease did so after the last re-queue. */
  predicate MarkedLater(s: System, pc: Worker) {
    PostMark(pc) && s.row.lastAttemptAt == Token(pc) ==>
      LastRequeue(s.history) < s.row.attempts && (pc.RecordingFailure? ==> LastRequeue(s.history) < pc.attemptsRead)
  }

  /** Workers that never marked an attempt: those on their way to it, and those that deferred. */
  function Unmarked(workers: map<WorkerId, Worker>): set<WorkerId> {
    set w | w in workers && IsUnmarked(workers[w])
  }

  predicate IsUnmarked(pc: Worker) {
    (Token(pc).Some? && !PostMark(pc)) || IsDeferred(pc)
  }

  function Deferred(workers: map<WorkerId, Worker>): set<WorkerId> {
    set w | w in workers && IsDeferred(workers[w])
  }

  predicate IsDeferred(pc: Worker) {
    pc == Finished(DeferredRow)
  }

  /** Every claim is a worker, which marks once at most; and every claim from QUEUED but the first needs a
      deferral or a re-queue before it. */
  predicate CountsOk(s: System) {
    && s.row.attempts + |Unmarked(s.workers)| <= |s.history.claims|
    && |s.history.claims| + (if s.row.status.Queued? then 1 else 0)
       <= 1 + |Deferred(s.workers)| + |s.history.requeues| + s.history.reclaims
  }

  lemma OneElement(was: set<WorkerId>, now: set<WorkerId>, w: WorkerId)
    requires was - {w} == now - {w}
    ensures |now| - (if w in now then 1 else 0) == |was| - (if w in was then 1 else 0)
  {
    assert |was - {w}| == |was| - if w in was then 1 else 0;
    assert |now - {w}| == |now| - if w in now then 1 else 0;
  }

  lemma UnmarkedUpdate(workers: map<WorkerId, Worker>, w: WorkerId, pc: Worker)
    ensures var was, now := Unmarked(workers), Unmarked(workers[w := pc]);
      |now| - (if IsUnmarked(pc) then 1 else 0) == |was| - (if w in workers && IsUnmarked(workers[w]) then 1 else 0)
    ensures var was, now := Deferred(workers), Deferred(workers[w := pc]);
      |now| - (if IsDeferred(pc) then 1 else 0) == |was| - (if w in workers && IsDeferred(workers[w]) then 1 else 0)
  {
    hide IsUnmarked, IsDeferred;
    OneElement(Unmarked(workers), Unmarked(workers[w := pc]), w);
    OneElement(Deferred(workers), Deferred(workers[w := pc]), w);
  }

  lemma DeferredAreUnmarked(workers: map<WorkerId, Worker>)
    ensures |Deferred(workers)| <= |Unmarked(workers)|
  {
    var d, u := Deferred(workers), Unmarked(workers);
    assert d + (u - d) == u;
  }

  lemma AttemptsBounded(s: System)
    requires CountsOk(s)
    ensures s.row.attempts <= |s.history.requeues| + s.history.reclaims + 1
    ensures s.row.status.Queued? ==> s.row.attempts <= |s.history.requeues| + s.history.reclaims
  {
    DeferredAreUnmarked(s.workers);
  }

  lemma StepCounts(s: System, a: Action)
    requires CountsOk(s)
    ensures CountsOk(Step(s, a))
  {
    hide Unmarked, Deferred, Backoff, EvaluateEligibility;
    var s' := Step(s, a);
    if a.w in s'.workers {
      UnmarkedUpdate(s.workers, a.w, s'.workers[a.w]);
      assert s'.workers == s.workers || s'.workers == s.workers[a.w := s'.workers[a.w]];
    }
  }

  // ----- one lemma a step, for the re-queues -----

  predicate RequeueInv(s: System) {
    && RequeuesOk(s.history) && LastRequeue(s.history) <= s.row.attempts
    && (s.row.status.Processing? ==> forall w :: w in s.workers ==> MarkedLater(s, s.workers[w]))
  }

  lemma ClaimRequeues(s: System, w: WorkerId, now: Time)
    requires Inv(s) && RequeueInv(s) && w !in s.workers
    ensures RequeueInv(ClaimStep(s, w, now))
  {
    if Claimable(s.row, now) {
      assert s.history.claims != [] ==> LastLease(s).stamp < now;
      forall v | v in s.workers ensures Token(s.workers[v]).None? || Token(s.workers[v]).value < now {
        assert WorkerOk(s, s.workers[v]);
      }
    }
  }

  /** Steps that leave attempts and re-queues alone and mark nothing. */
  lemma MoveRequeues(s: System, t: System, w: WorkerId, pc: Worker)
    requires RequeueInv(s) && t.workers == s.workers[w := pc]
    requires t.row.attempts == s.row.attempts && t.row.lastAttemptAt == s.row.lastAttemptAt
    requires t.row.status.Processing? ==> s.row.status.Processing?
    requires t.history.requeues == s.history.requeues && t.history.reclaims == s.history.reclaims
    requires t.row.status.Processing? ==> MarkedLater(t, pc)
    ensures RequeueInv(t)
  {
    forall v | v in t.workers && t.row.status.Processing? ensures MarkedLater(t, t.workers[v]) {
      if v != w { assert MarkedLater(s, s.workers[v]); }
    }
  }

  lemma MarkRequeues(s: System, w: WorkerId)
    requires RequeueInv(s) && w in s.workers && s.workers[w].Marking?
    ensures RequeueInv(MarkStep(s, w, s.workers[w]))
  {
    var t := MarkStep(s, w, s.workers[w]);
    forall v | v in t.workers && t.row.status.Processing? ensures MarkedLater(t, t.workers[v]) {
      if v != w { assert MarkedLater(s, s.workers[v]); }
    }
  }

  lemma RecordFailureRequeues(s: System, w: WorkerId)
    requires Inv(s) && RequeueInv(s) && CountsOk(s) && w in s.workers && s.workers[w].RecordingFailure?
    ensures RequeueInv(RecordFailureStep(s, w, s.workers[w]))
  {
    var pc, t := s.workers[w], RecordFailureStep(s, w, s.workers[w]);
    assert WorkerOk(s, pc);
    AttemptsBounded(s);
    hide CountsOk;
    if Holds(s.row, pc.token) && !pc.terminal && pc.attemptsRead < MAX_SEND_ATTEMPTS {
      assert MarkedLater(s, pc);
      BackoffInRange(pc.attemptsRead);
      assert t.history.requeues[|s.history.requeues|] == Requeue(pc.attemptsRead, Backoff(pc.attemptsRead));
      assert t.row.status.Queued?;
    } else {
      MoveRequeues(s, t, w, t.workers[w]);
    }
  }

  lemma {:induction false} StepRequeues(s: System, a: Action)
    requires Inv(s) && RequeueInv(s) && CountsOk(s)
    ensures RequeueInv(Step(s, a))
  {
    hide Inv, CountsOk, RequeueInv, EvaluateEligibility, Backoff;
    var w, s' := a.w, Step(s, a);
    if w !in s.workers {
      if a.Claim? { ClaimRequeues(s, w, a.now); }
    } else if a.MarkAttempt? && s.workers[w].Marking? {
      MarkRequeues(s, w);
    } else if a.RecordFailure? && s.workers[w].RecordingFailure? {
      RecordFailureRequeues(s, w);
    } else if s' != s {
      assert s.row.status.Processing? ==> MarkedLater(s, s.workers[w]) by { Current(s, w); }
      MoveRequeues(s, s', w, s'.workers[w]);
    }
  }

  lemma Current(s: System, w: WorkerId)
    requires RequeueInv(s) && w in s.workers
    ensures s.row.status.Processing? ==> MarkedLater(s, s.workers[w])
  {
  }

  // ----- transmissions -----

  /** Workers that have marked an attempt and not yet called the mail server. */
  function InFlight(workers: map<WorkerId, Worker>): set<WorkerId> {
    set w | w in workers && workers[w].Transmitting?
  }

  predicate SendsOk(s: System) {
    |s.history.sent| + |InFlight(s.workers)| <= s.row.attempts
  }

  lemma InFlightUpdate(workers: map<WorkerId, Worker>, w: WorkerId, pc: Worker)
    ensures var was, now := InFlight(workers), InFlight(workers[w := pc]);
      && |now| <= |was| + (if pc.Transmitting? then 1 else 0)
      && (w in workers && workers[w].Transmitting? && !pc.Transmitting? ==> |now| == |was| - 1)
  {
    var was, now := InFlight(workers), InFlight(workers[w := pc]);
    if pc.Transmitting? {
      assert now == was + {w};
    } else {
      assert now == was - {w};
    }
  }

  lemma StepSends(s: System, a: Action)
    requires SendsOk(s)
    ensures SendsOk(Step(s, a))
  {
    var s' := Step(s, a);
    if a.w in s'.workers {
      InFlightUpdate(s.workers, a.w, s'.workers[a.w]);
      hide InFlight;
      assert s'.workers == s.workers || s'.workers == s.workers[a.w := s'.workers[a.w]];
    }
  }

  lemma {:induction false} RunRetry(origin: System, run: seq<Action>)
    requires Fresh(origin)
    ensures Inv(Exec(origin, run)) && RequeueInv(Exec(origin, run)) && CountsOk(Exec(origin, run)) && SendsOk(Exec(origin, run))
    decreases |run|
  {
    RunInv(origin, run);
    if run == [] {
      assert InFlight(origin.workers) == {} && Unmarked(origin.workers) == {} && Deferred(origin.workers) == {};
    } else {
      var init := run[..|run| - 1];
      RunRetry(origin, init);
      hide Inv, RequeueInv, CountsOk, SendsOk, Fresh;
      StepRequeues(Exec(origin, init), run[|run| - 1]);
      StepCounts(Exec(origin, init), run[|run| - 1]);
      StepSends(Exec(origin, init), run[|run| - 1]);
    }
  }

  // ----- the promises -----

  /** A failed send re-queues a row at most four times, with attempts in 1..4 and the delay of exactly
      that attempt, 1, 5, 15 or 30 minutes; it never reads past the end of the backoff table. The k-th re-queue carries attempt
      k, or a later one by at most the number of leases taken over. */
  lemma {:induction false} AtMostFourRequeues(origin: System, run: seq<Action>)
    requires Fresh(origin)
    ensures var h := Exec(origin, run).history;
      && |h.requeues| <= 4
      && forall k :: 0 <= k < |h.requeues| ==>
           && 1 <= h.requeues[k].attempts <= 4
           && h.requeues[k].delay == [60_000, 300_000, 900_000, 1_800_000][h.requeues[k].attempts - 1]
           && k + 1 <= h.requeues[k].attempts <= k + 1 + h.reclaims
  {
    hide CountsOk, SendsOk, Inv, Fresh, Exec;
    RunRetry(origin, run);
  }

  /** Transmissions never exceed the attempts counter, which crashed leases alone can push past five:
      by one for each lease taken over as stale. */
  lemma {:induction false} SendsBounded(origin: System, run: seq<Action>)
    requires Fresh(origin)
    ensures var s := Exec(origin, run); |s.history.sent| <= s.row.attempts <= 5 + s.history.reclaims
  {
    hide CountsOk, Inv, Fresh, Exec;
    RunRetry(origin, run);
    AttemptsBounded(Exec(origin, run));
  }

  /** When no lease goes stale a reply is sent at most five times, and the waits after its failures
      are 1, 5, 15 and 30 minutes in that order, whatever deferrals come between them. */
  lemma {:induction false} NoStaleLeaseSchedule(origin: System, run: seq<Action>)
    requires Fresh(origin) && Exec(origin, run).history.reclaims == 0
    ensures var s := Exec(origin, run);
      && |s.history.sent| <= s.row.attempts <= 5
      && |s.history.requeues| <= 4
      && forall k :: 0 <= k < |s.history.requeues| ==>
           s.history.requeues[k] == Requeue(k + 1, [60_000, 300_000, 900_000, 1_800_000][k])
  {
    hide Exec, Fresh;
    AtMostFourRequeues(origin, run);
    SendsBounded(origin, run);
  }
}
