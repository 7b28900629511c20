/** What every run of the outbox keeps, however late the workers read their tokens back: increasing
    tokens, retry times past them, and marked attempts behind every send. */
module OutboxSafety {
  import opened Options
  import opened OutboxModel

  // ----- the inductive invariant -----

  predicate Increasing(claims: seq<Lease>) {
    forall i, j :: 0 <= i < j < |claims| ==> claims[i].stamp < claims[j].stamp
  }

  /** The lease token a worker holds; its own stamp until it has read the token back. */
  function Token(pc: Worker): Option<Time> {
    match pc
    case Stamped(t) => Some(t)
    case Claimed(t) => Some(t)
    case Loaded(t, _) => Some(t)
    case Deferring(t, _) => Some(t)
    case Cancelling(t, _) => Some(t)
    case Rebinding(t, _) => Some(t)
    case Marking(t, _) => Some(t)
    case Transmitting(t, _) => Some(t)
    case RecordingSuccess(t) => Some(t)
    case ReadingAttempts(t, _, _) => Some(t)
    case RecordingFailure(t, _, _, _) => Some(t)
    case Finished(_) => None
    case Crashed => None
  }

  predicate Terminal(status: OutboxStatus) {
    status.Delivered? || status.Failed? || status.Cancelled?
  }

  function LastLease(s: System): Lease
    requires s.history.claims != []
  {
    s.history.claims[|s.history.claims| - 1]
  }

  predicate TokensOk(s: System) {
    && Increasing(s.history.claims)
    && s.row.lastAttemptAt == (if s.history.claims == [] then None else Some(LastLease(s).stamp))
    && (s.history.claims == [] ==> s.row.status.Queued?)
  }

  /** A row waits in QUEUED either untouched, or with a retry time at least 60 s past its last token. */
  predicate QueueOk(s: System) {
    && (s.row.status.Queued? && s.history.claims == [] ==> s.row.nextAttemptAt.None? && s.row.attempts == 0)
    && (s.row.status.Queued? && s.row.lastAttemptAt.Some? ==>
          s.row.nextAttemptAt.Some? && s.row.nextAttemptAt.value >= s.row.lastAttemptAt.value + DEFER_RETRY_DELAY_MS)
  }

  predicate HasAccepted(sent: seq<Transmission>) {
    exists i :: 0 <= i < |sent| && sent[i].accepted
  }

  predicate PostMark(pc: Worker) {
    pc.Transmitting? || pc.RecordingSuccess? || pc.ReadingAttempts? || pc.RecordingFailure?
  }

  /** What holds of a worker at any time: no token newer than the last claim, an attempt marked before
      any send, an accepted send before any success. */
  predicate WorkerOk(s: System, pc: Worker) {
    && (Token(pc).Some? ==> s.history.claims != [] && Token(pc).value <= LastLease(s).stamp)
    && (PostMark(pc) ==> s.row.attempts >= 1)
    && (pc.RecordingFailure? ==> 1 <= pc.attemptsRead <= s.row.attempts)
    && (pc.RecordingSuccess? ==> HasAccepted(s.history.sent))
  }

  predicate RowOk(s: System) {
    TokensOk(s) && QueueOk(s) && (s.row.status.Delivered? ==> HasAccepted(s.history.sent))
  }

  predicate Inv(s: System) {
    RowOk(s) && forall w :: w in s.workers ==> WorkerOk(s, s.workers[w])
  }

  lemma FreshInv(s: System)
    requires Fresh(s)
    ensures Inv(s)
  {
  }

  // ----- what never goes back -----

  predicate Onwards(s: System, t: System) {
    && s.row.attempts <= t.row.attempts
    && s.history.claims <= t.history.claims
    && (Increasing(t.history.claims) && s.history.claims != [] ==> LastLease(s).stamp <= LastLease(t).stamp)
    && s.history.sent <= t.history.sent
  }

  lemma WorkerStays(s: System, t: System, pc: Worker)
    requires WorkerOk(s, pc) && Onwards(s, t) && Increasing(t.history.claims)
    ensures WorkerOk(t, pc)
  {
    if HasAccepted(s.history.sent) {
      var i :| 0 <= i < |s.history.sent| && s.history.sent[i].accepted;
      assert t.history.sent[i].accepted;
    }
  }

  /** A step onto right rows that moves one worker, rightly. */
  lemma Moved(s: System, t: System, w: WorkerId, pc: Worker)
    requires Inv(s) && RowOk(t) && Onwards(s, t) && WorkerOk(t, pc) && t.workers == s.workers[w := pc]
    ensures Inv(t)
  {
    forall v | v in t.workers ensures WorkerOk(t, t.workers[v]) {
      if v != w { WorkerStays(s, t, s.workers[v]); }
    }
  }

  // ----- one lemma a step -----

  lemma ClaimInv(s: System, w: WorkerId, now: Time)
    requires Inv(s) && w !in s.workers
    ensures Inv(ClaimStep(s, w, now))
  {
    if Claimable(s.row, now) {
      assert s.history.claims != [] ==> LastLease(s).stamp < now;
    }
    var t := ClaimStep(s, w, now);
    Moved(s, t, w, t.workers[w]);
  }

  /** A step that leaves the row and the history alone. */
  lemma MoveInv(s: System, w: WorkerId, pc: Worker)
    requires Inv(s) && WorkerOk(s, pc)
    ensures Inv(Put(s, w, pc))
  {
    Moved(s, Put(s, w, pc), w, pc);
  }

  /** A failure after a marked attempt always finds a delay of at least a minute in the table. */
  lemma BackoffInRange(attempts: int)
    requires 1 <= attempts
    ensures 0 <= BackoffIndex(attempts) < |SMTP_RETRY_BACKOFF_MS|
    ensures Backoff(attempts) == SMTP_RETRY_BACKOFF_MS[BackoffIndex(attempts)] >= DEFER_RETRY_DELAY_MS
  {
  }

  lemma DeferInv(s: System, w: WorkerId)
    requires Inv(s) && w in s.workers && s.workers[w].Deferring?
    ensures Inv(DeferStep(s, w, s.workers[w]))
  {
    var pc, t := s.workers[w], DeferStep(s, w, s.workers[w]);
    assert WorkerOk(s, pc);
    hide HasAccepted;
    Moved(s, t, w, t.workers[w]);
  }

  lemma CancelInv(s: System, w: WorkerId)
    requires Inv(s) && w in s.workers && s.workers[w].Cancelling?
    ensures Inv(CancelStep(s, w, s.workers[w]))
  {
    var pc, t := s.workers[w], CancelStep(s, w, s.workers[w]);
    assert WorkerOk(s, pc);
    hide HasAccepted;
    Moved(s, t, w, t.workers[w]);
  }

  lemma RebindInv(s: System, w: WorkerId)
    requires Inv(s) && w in s.workers && s.workers[w].Rebinding?
    ensures Inv(RebindStep(s, w, s.workers[w]))
  {
    var pc, t := s.workers[w], RebindStep(s, w, s.workers[w]);
    assert WorkerOk(s, pc);
    hide HasAccepted;
    Moved(s, t, w, t.workers[w]);
  }

  lemma MarkInv(s: System, w: WorkerId)
    requires Inv(s) && w in s.workers && s.workers[w].Marking?
    ensures Inv(MarkStep(s, w, s.workers[w]))
  {
    var pc, t := s.workers[w], MarkStep(s, w, s.workers[w]);
    assert WorkerOk(s, pc);
    hide HasAccepted;
    Moved(s, t, w, t.workers[w]);
  }

  lemma TransmitInv(s: System, w: WorkerId, result: SmtpResult)
    requires Inv(s) && w in s.workers && s.workers[w].Transmitting?
    ensures Inv(TransmitStep(s, w, s.workers[w], result))
  {
    var pc, t := s.workers[w], TransmitStep(s, w, s.workers[w], result);
    assert WorkerOk(s, pc);
    assert t.history.sent[|s.history.sent|] == Transmission(pc.recipient, result.Accepted?);
    if HasAccepted(s.history.sent) {
      var i :| 0 <= i < |s.history.sent| && s.history.sent[i].accepted;
      assert t.history.sent[i].accepted;
    }
    Moved(s, t, w, t.workers[w]);
  }

  lemma RecordInv(s: System, w: WorkerId)
    requires Inv(s) && w in s.workers
    ensures s.workers[w].RecordingSuccess? ==> Inv(RecordSuccessStep(s, w, s.workers[w]))
    ensures s.workers[w].RecordingFailure? ==> Inv(RecordFailureStep(s, w, s.workers[w]))
  {
    var pc := s.workers[w];
    assert WorkerOk(s, pc);
    hide HasAccepted;
    if pc.RecordingSuccess? {
      Moved(s, RecordSuccessStep(s, w, pc), w, RecordSuccessStep(s, w, pc).workers[w]);
    } else if pc.RecordingFailure? {
      BackoffInRange(pc.attemptsRead);
      hide Backoff, BackoffIndex;
      Moved(s, RecordFailureStep(s, w, pc), w, RecordFailureStep(s, w, pc).workers[w]);
    }
  }

  lemma EvaluateOk(s: System, pc: Worker, facts: Facts)
    requires pc.Loaded? && WorkerOk(s, pc)
    ensures WorkerOk(s, Judged(pc.token, EvaluateEligibility(pc.seen, facts)))
  {
  }

  /** Every action of every worker keeps the invariant, read-backs of any lateness included. */
  lemma StepInv(s: System, a: Action)
    requires Inv(s)
    ensures Inv(Step(s, a))
  {
    var w := a.w;
    if w in s.workers { assert WorkerOk(s, s.workers[w]); }
    assert TokensOk(s);
    hide Inv, RowOk, QueueOk, HasAccepted, EvaluateEligibility, Judged;
    if w !in s.workers {
      if a.Claim? { ClaimInv(s, w, a.now); }
    } else {
      var pc := s.workers[w];
      match a
      case Claim(_, _) =>
      case ReadBack(_) =>
        if pc.Stamped? && s.row.lastAttemptAt.Some? { MoveInv(s, w, Claimed(s.row.lastAttemptAt.value)); }
      case Load(_) => if pc.Claimed? { MoveInv(s, w, Loaded(pc.token, s.row)); }
      case Evaluate(_, facts) =>
        if pc.Loaded? {
          EvaluateOk(s, pc, facts);
          MoveInv(s, w, Judged(pc.token, EvaluateEligibility(pc.seen, facts)));
        }
      case DeferToQueued(_) => if pc.Deferring? { DeferInv(s, w); }
      case Cancel(_) => if pc.Cancelling? { CancelInv(s, w); }
      case RebindRecipient(_) => if pc.Rebinding? { RebindInv(s, w); }
      case MarkAttempt(_) => if pc.Marking? { MarkInv(s, w); }
      case Transmit(_, result) => if pc.Transmitting? { TransmitInv(s, w, result); }
      case RecordSuccess(_) => RecordInv(s, w);
      case ReadAttempts(_) =>
        if pc.ReadingAttempts? { MoveInv(s, w, RecordingFailure(pc.token, pc.terminal, pc.error, s.row.attempts)); }
      case RecordFailure(_) => RecordInv(s, w);
      case Crash(_) => if !pc.Finished? { MoveInv(s, w, Crashed); }
    }
  }

  lemma {:induction false} RunInv(origin: System, run: seq<Action>)
    requires Fresh(origin)
    ensures Inv(Exec(origin, run))
    decreases |run|
  {
    if run == [] {
      FreshInv(origin);
    } else {
      RunInv(origin, run[..|run| - 1]);
      StepInv(Exec(origin, run[..|run| - 1]), run[|run| - 1]);
    }
  }
}
