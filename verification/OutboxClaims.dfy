/** When a row is claimed: the first time, after a deferral, after a failed send, and from a worker that
    never came back. Times are in milliseconds. */
module OutboxClaims {
  import opened Options
  import opened OutboxModel
  import opened OutboxSafety

  /** A worker that claims at `now` gets the lease. */
  predicate GetsLease(s: System, w: WorkerId, now: Time) {
    var t := Step(s, Claim(w, now));
    && t.workers == s.workers[w := Stamped(now)]
    && t.row == s.row.(status := Processing, lastAttemptAt := Some(now))
    && t.history.claims == s.history.claims + [Lease(now, w)]
  }

  predicate IsTurnedAway(s: System, w: WorkerId, now: Time) {
    Step(s, Claim(w, now)) == s.(workers := s.workers[w := Finished(NotClaimed)])
  }

  /** In every run a new worker gets the lease exactly when the row waits and its retry time, if it has
      one, has come, or when the row is leased under a token more than ten minutes old. */
  lemma {:induction false} ClaimedExactlyWhenDue(origin: System, run: seq<Action>, w: WorkerId, now: Time)
    requires Fresh(origin) && w !in Exec(origin, run).workers
    ensures var s := Exec(origin, run);
      && (s.row.status.Processing? ==> s.row.lastAttemptAt.Some?)
      && (GetsLease(s, w, now) <==>
            || (s.row.status.Queued? && (s.row.nextAttemptAt.None? || s.row.nextAttemptAt.value <= now))
            || (s.row.status.Processing? && s.row.lastAttemptAt.value < now - 600_000))
      && (GetsLease(s, w, now) || IsTurnedAway(s, w, now))
  {
    RunInv(origin, run);
    hide Exec, Fresh;
    var s := Exec(origin, run);
    assert |s.history.claims| < |s.history.claims + [Lease(now, w)]|;
  }

  // ----- what waits stays as it is -----

  lemma {:induction false} ClaimsGrow(s: System, more: seq<Action>)
    ensures s.history.claims <= Exec(s, more).history.claims
    decreases |more|
  {
    if more != [] {
      ClaimsGrow(s, more[..|more| - 1]);
    }
  }

  lemma StepWaits(s: System, a: Action)
    requires s.row.status.Queued?
    ensures Step(s, a).row == s.row || |Step(s, a).history.claims| > |s.history.claims|
  {
  }

  /** Nothing but a claim changes a row that waits. */
  lemma {:induction false} WaitsUnchanged(s: System, more: seq<Action>)
    requires s.row.status.Queued? && Exec(s, more).history.claims == s.history.claims
    ensures Exec(s, more).row == s.row
    decreases |more|
  {
    if more != [] {
      var init, last := more[..|more| - 1], more[|more| - 1];
      ClaimsGrow(s, init);
      ClaimsGrow(Exec(s, init), [last]);
      assert [last][..0] == [];
      assert Exec(Exec(s, init), [last]) == Step(Exec(s, init), last);
      WaitsUnchanged(s, init);
      StepWaits(Exec(s, init), last);
    }
  }

  /** Until somebody claims it, a row that waits for `at` is claimed exactly from then on. */
  lemma {:induction false} ClaimedFrom(origin: System, run: seq<Action>, more: seq<Action>, v: WorkerId, now: Time, at: Time)
    requires Fresh(origin)
    requires var t := Exec(origin, run);
      t.row.status.Queued? && t.row.nextAttemptAt == Some(at) && Exec(t, more).history.claims == t.history.claims
    requires v !in Exec(Exec(origin, run), more).workers
    ensures GetsLease(Exec(Exec(origin, run), more), v, now) <==> now >= at
  {
    WaitsUnchanged(Exec(origin, run), more);
    ExecPlus(origin, run, more);
    ClaimedExactlyWhenDue(origin, run + more, v, now);
  }

  /** A deferred row is back in the queue, and the next worker gets it exactly from a minute after the
      token it was deferred under. */
  lemma {:induction false} DeferredIsClaimedAfterAMinute(origin: System, run: seq<Action>, w: WorkerId, more: seq<Action>, v: WorkerId, now: Time)
    requires Fresh(origin)
    requires var s := Exec(origin, run);
      w in s.workers && s.workers[w].Deferring? && s.row.status.Processing? && s.row.lastAttemptAt == Some(s.workers[w].token)
    ensures var s := Exec(origin, run); var t := Step(s, DeferToQueued(w));
      && t.row.status.Queued? && t.workers == s.workers[w := Finished(DeferredRow)]
      && (Exec(t, more).history.claims == t.history.claims && v !in Exec(t, more).workers ==>
            (GetsLease(Exec(t, more), v, now) <==> now >= s.workers[w].token + 60_000))
  {
    var s := Exec(origin, run);
    var t := Step(s, DeferToQueued(w));
    OneMore(origin, run, DeferToQueued(w));
    if Exec(t, more).history.claims == t.history.claims && v !in Exec(t, more).workers {
      ClaimedFrom(origin, run + [DeferToQueued(w)], more, v, now, s.workers[w].token + 60_000);
    }
  }

  /** A refused send fails for good exactly when the refusal is terminal or the attempt is the fifth or a
      later one; after attempt 1, 2, 3 or 4 the row is back in the queue, and the next worker gets it
      exactly from 1, 5, 15 or 30 minutes after that attempt's token. */
  lemma {:induction false} RequeuedIsClaimedAfterItsDelay(origin: System, run: seq<Action>, w: WorkerId, more: seq<Action>, v: WorkerId, now: Time)
    requires Fresh(origin)
    requires var s := Exec(origin, run);
      w in s.workers && s.workers[w].RecordingFailure? && s.row.status.Processing? && s.row.lastAttemptAt == Some(s.workers[w].token)
    ensures var s := Exec(origin, run); var t := Step(s, RecordFailure(w));
      var k := s.workers[w].attemptsRead;
      && 1 <= k && t.workers == s.workers[w := Finished(SendFailed)]
      && (if s.workers[w].terminal || k >= 5 then t.row.status.Failed?
          else
            && t.row.status.Queued?
            && (Exec(t, more).history.claims == t.history.claims && v !in Exec(t, more).workers ==>
                  (GetsLease(Exec(t, more), v, now) <==>
                     now >= s.workers[w].token + [60_000, 300_000, 900_000, 1_800_000][k - 1])))
  {
    var s := Exec(origin, run);
    var t := Step(s, RecordFailure(w));
    var pc := s.workers[w];
    RunInv(origin, run);
    assert WorkerOk(s, pc);
    OneMore(origin, run, RecordFailure(w));
    if !pc.terminal && pc.attemptsRead < 5 && Exec(t, more).history.claims == t.history.claims && v !in Exec(t, more).workers {
      ClaimedFrom(origin, run + [RecordFailure(w)], more, v, now, t.row.nextAttemptAt.value);
    }
  }
}
