/** Why `attempts` has no bound of its own: a lease that crashes after the mail server has answered is
    taken over and sends again, as often as workers crash. */
module OutboxCrashes {
  import opened Options
  import opened OutboxModel

  const ADDRESS: Address := "a"

  /** One lease from claim to transmission, lost before anything is recorded. */
  function LostLease(w: WorkerId, now: Time): seq<Action> {
    [Action.Claim(w, now), ReadBack(w), Load(w), Evaluate(w, Facts(None, true, Some(ADDRESS))), MarkAttempt(w),
     Transmit(w, Accepted), Crash(w)]
  }

  /** Nobody is working on the row, it may be claimed at `now`, and it still has its one address. */
  predicate Idle(s: System, now: Time) {
    Claimable(s.row, now) && s.row.recipient == ADDRESS
  }

  /** What a lost lease leaves behind. */
  function Lost(s: System, w: WorkerId, now: Time): System {
    System(s.row.(status := Processing, lastAttemptAt := Some(now), attempts := s.row.attempts + 1),
           s.toAddresses,
           s.workers[w := Crashed],
           History(s.history.claims + [Lease(now, w)],
                   s.history.reclaims + if s.row.status.Processing? then 1 else 0,
                   s.history.sent + [Transmission(ADDRESS, true)],
                   s.history.requeues))
  }

  /** The lease with its read-back done, and with its attempt marked. */
  function Leased(s: System, w: WorkerId, now: Time, pc: Worker): System {
    Lost(s, w, now).(row := s.row.(status := Processing, lastAttemptAt := Some(now)),
                     workers := s.workers[w := pc],
                     history := Lost(s, w, now).history.(sent := s.history.sent))
  }

  lemma LeaseLoads(s: System, w: WorkerId, now: Time)
    requires Idle(s, now) && w !in s.workers
    ensures var run := LostLease(w, now)[..3];
      && Exec(s, run) == Leased(s, w, now, Loaded(now, s.row.(status := Processing, lastAttemptAt := Some(now))))
      && Harmless(s, run)
  {
    var l := LostLease(w, now);
    OneMore(s, [], l[0]);
    OneMore(s, [l[0]], l[1]);
    OneMore(s, [l[0], l[1]], l[2]);
    assert [] + [l[0]] == [l[0]] && [l[0]] + [l[1]] == [l[0], l[1]] && [l[0], l[1]] + [l[2]] == l[..3];
    var s1 := Step(s, l[0]);
    assert s1 == Leased(s, w, now, Stamped(now));
    var s2 := Step(s1, l[1]);
    assert s2.workers == s.workers[w := Claimed(now)];
    assert Step(s2, l[2]).workers == s.workers[w := Loaded(now, s1.row)];
  }

  lemma LeaseEnds(s: System, w: WorkerId, now: Time)
    requires Idle(s, now)
    ensures var l := LostLease(w, now);
      var t := Leased(s, w, now, Loaded(now, s.row.(status := Processing, lastAttemptAt := Some(now))));
      && Step(Step(Step(Step(t, l[3]), l[4]), l[5]), l[6]) == Lost(s, w, now)
      && HarmlessStep(t, l[3]) && HarmlessStep(Step(t, l[3]), l[4]) && HarmlessStep(Step(Step(t, l[3]), l[4]), l[5])
      && HarmlessStep(Step(Step(Step(t, l[3]), l[4]), l[5]), l[6])
  {
    var l := LostLease(w, now);
    var s3 := Leased(s, w, now, Loaded(now, s.row.(status := Processing, lastAttemptAt := Some(now))));
    var s4 := Step(s3, l[3]);
    assert s4.workers == s.workers[w := Marking(now, ADDRESS)];
    var s5 := Step(s4, l[4]);
    assert s5.workers == s.workers[w := Transmitting(now, ADDRESS)];
    var s6 := Step(s5, l[5]);
    assert s6.workers == s.workers[w := RecordingSuccess(now)];
    assert Step(s6, l[6]).workers == s.workers[w := Crashed];
  }

  lemma LeaseSends(s: System, w: WorkerId, now: Time)
    requires Idle(s, now) && w !in s.workers
    ensures Exec(s, LostLease(w, now)) == Lost(s, w, now) && Harmless(s, LostLease(w, now))
  {
    hide Exec, Harmless, Step, HarmlessStep, Leased, Lost, Idle;
    var l := LostLease(w, now);
    LeaseLoads(s, w, now);
    LeaseEnds(s, w, now);
    OneMore(s, l[..3], l[3]);
    OneMore(s, l[..4], l[4]);
    OneMore(s, l[..5], l[5]);
    OneMore(s, l[..6], l[6]);
    assert l[..3] + [l[3]] == l[..4] && l[..4] + [l[4]] == l[..5] && l[..5] + [l[5]] == l[..6] && l[..6] + [l[6]] == l;
  }

  /** For every n there is a run with n transmissions of one reply, each accepted by the mail server and
      none recorded. */
  lemma {:induction false} CrashesSendWithoutBound(n: nat) returns (origin: System, run: seq<Action>, now: Time)
    ensures ReachedBy(origin, run) && Idle(Exec(origin, run), now)
    ensures forall i :: 0 <= i < |Exec(origin, run).history.sent| ==> Exec(origin, run).history.sent[i].accepted
    ensures |Exec(origin, run).history.sent| == Exec(origin, run).row.attempts == n
    ensures forall w :: w in Exec(origin, run).workers ==> w < n
  {
    if n == 0 {
      origin := System(OutboxRow(Queued, ADDRESS, 0, None, None, None), [ADDRESS], map[], History([], 0, [], []));
      run, now := [], 0;
    } else {
      var before, last;
      origin, before, last := CrashesSendWithoutBound(n - 1);
      hide Exec, Harmless, Fresh, LostLease;
      LeaseSends(Exec(origin, before), n - 1, last);
      run := before + LostLease(n - 1, last);
      now := last + STALE_PROCESSING_LEASE_MS + 1;
      ExecPlus(origin, before, LostLease(n - 1, last));
    }
  }
}
