/** The promises of the outbox, for every run of any number of workers. */
module OutboxTheorems {
  import opened Options
  import opened OutboxModel
  import opened OutboxSafety
  import opened OutboxAddresses

  /** All SMTP transmissions of a row go to one address, the one the row and the message still name, as
      long as every token read-back is harmless. */
  lemma OneAddress(origin: System, run: seq<Action>)
    requires ReachedBy(origin, run)
    ensures var s := Exec(origin, run);
      && s.toAddresses == [s.row.recipient]
      && forall i :: 0 <= i < |s.history.sent| ==> s.history.sent[i].to == s.row.recipient
  {
    RunAddress(origin, run);
  }

  /** The first marked attempt freezes the recipient of the row and of its message. */
  lemma {:induction false} RecipientFrozen(s: System, more: seq<Action>)
    requires s.row.attempts > 0
    ensures var s' := Exec(s, more);
      s'.row.attempts >= s.row.attempts && s'.row.recipient == s.row.recipient && s'.toAddresses == s.toAddresses
    decreases |more|
  {
    if more != [] {
      RecipientFrozen(s, more[..|more| - 1]);
      StepFreezes(Exec(s, more[..|more| - 1]), more[|more| - 1]);
    }
  }

  lemma StepFreezes(s: System, a: Action)
    requires s.row.attempts > 0
    ensures var s' := Step(s, a);
      s'.row.attempts >= s.row.attempts && s'.row.recipient == s.row.recipient && s'.toAddresses == s.toAddresses
  {
  }

  /** Successive claims carry strictly increasing tokens, whatever the workers' clocks show. */
  lemma {:induction false} TokensIncrease(origin: System, run: seq<Action>, i: nat, j: nat)
    requires Fresh(origin)
    requires i < j < |Exec(origin, run).history.claims|
    ensures Exec(origin, run).history.claims[i].stamp < Exec(origin, run).history.claims[j].stamp
  {
    RunInv(origin, run);
  }

  /** The row and its message are written only by a claim with a newer token, or under the latest token
      while its lease lasts. */
  lemma {:induction false} OnlyHolderWrites(origin: System, run: seq<Action>, a: Action)
    requires Fresh(origin)
    requires var s := Exec(origin, run); Step(s, a).row != s.row || Step(s, a).toAddresses != s.toAddresses
    ensures var s := Exec(origin, run);
      || (a.Claim? && a.w !in s.workers && Claimable(s.row, a.now) && (s.history.claims != [] ==> LastLease(s).stamp < a.now))
      || (&& s.history.claims != [] && a.w in s.workers && s.row.status.Processing?
          && Token(s.workers[a.w]) == Some(LastLease(s).stamp))
  {
    RunInv(origin, run);
    var s := Exec(origin, run);
    if a.w in s.workers {
      WriterHolds(s, a);
    } else {
      assert a.Claim? && Claimable(s.row, a.now);
    }
  }

  lemma WriterHolds(s: System, a: Action)
    requires a.w in s.workers && (Step(s, a).row != s.row || Step(s, a).toAddresses != s.toAddresses)
    ensures Token(s.workers[a.w]).Some? && Holds(s.row, Token(s.workers[a.w]).value)
  {
  }

  /** DELIVERED, FAILED and CANCELLED are never left: the row and the message stay as they are. */
  lemma {:induction false} FinalStays(s: System, more: seq<Action>)
    requires Terminal(s.row.status)
    ensures Exec(s, more).row == s.row && Exec(s, more).toAddresses == s.toAddresses
    decreases |more|
  {
    if more != [] {
      FinalStays(s, more[..|more| - 1]);
      StepFinal(Exec(s, more[..|more| - 1]), more[|more| - 1]);
    }
  }

  lemma StepFinal(s: System, a: Action)
    requires Terminal(s.row.status)
    ensures Step(s, a).row == s.row && Step(s, a).toAddresses == s.toAddresses
  {
  }

  /** A row says DELIVERED only when the mail server accepted a transmission, and as long as every token
      read-back is harmless, one to the row's recipient. */
  lemma {:induction false} DeliveredWasAccepted(origin: System, run: seq<Action>)
    requires Fresh(origin) && Exec(origin, run).row.status.Delivered?
    ensures HasAccepted(Exec(origin, run).history.sent)
    ensures Harmless(origin, run) ==> Transmission(Exec(origin, run).row.recipient, true) in Exec(origin, run).history.sent
  {
    hide Exec, Fresh, Harmless, AddressInv;
    RunInv(origin, run);
    var s := Exec(origin, run);
    if Harmless(origin, run) {
      var i :| 0 <= i < |s.history.sent| && s.history.sent[i].accepted;
      OneAddress(origin, run);
      assert s.history.sent[i] == Transmission(s.row.recipient, true);
    }
  }

  // ----- eligibility -----

  /** An eligible row goes to the customer's primary address. After a marked attempt that is the row's own
      address; a new one is offered only before. A row is cancelled only after an attempt, and after one it
      is deferred only for its mailbox. */
  lemma EligibleRowsKeepTheirAddress(seen: OutboxRow, facts: Facts)
    ensures var e := EvaluateEligibility(seen, facts);
      && (e.Eligible? <==>
            && facts.mailboxProblem.None? && facts.hasCustomer && facts.primaryRecipient.Some?
            && (seen.attempts == 0 || facts.primaryRecipient == Some(seen.recipient)))
      && (e.Eligible? ==>
            && facts.primaryRecipient == Some(e.recipient)
            && (e.recipientChanged <==> e.recipient != seen.recipient)
            && (e.recipientChanged ==> seen.attempts == 0))
      && (e.CancelRow? ==> seen.attempts > 0 && facts.mailboxProblem.None?)
      && (e.DeferRow? <==> facts.mailboxProblem.Some? || (seen.attempts == 0 && !e.Eligible?))
  {
  }

  /** The reason kept with a row that is not sent: the mailbox, the customer, or the address, with whether an
      attempt came before. */
  predicate ReasonIs(seen: OutboxRow, facts: Facts, reason: string) {
    || (facts.mailboxProblem.Some? && reason == "mail_configuration_unusable:" + facts.mailboxProblem.value)
    || (facts.mailboxProblem.None? && !facts.hasCustomer && reason == "no_customer_attributed")
    || (&& facts.mailboxProblem.None? && facts.hasCustomer && facts.primaryRecipient.None?
        && reason == if seen.attempts == 0 then "no_current_recipient" else "recipient_unavailable_after_attempt")
    || (&& facts.mailboxProblem.None? && facts.hasCustomer && facts.primaryRecipient.Some?
        && facts.primaryRecipient.value != seen.recipient && reason == "recipient_changed_after_attempt")
  }

  /** Where a judgement sends its worker: to the address of the row, to a new one before any attempt, or to
      the deferral or cancellation of a row that cannot be sent. */
  lemma WorkerGoesAsJudged(s: System, w: WorkerId, facts: Facts)
    requires w in s.workers && s.workers[w].Loaded?
    ensures var seen, token := s.workers[w].seen, s.workers[w].token;
      var t := Step(s, Evaluate(w, facts));
      var usable := facts.mailboxProblem.None? && facts.hasCustomer && facts.primaryRecipient.Some?;
      && t == s.(workers := s.workers[w := t.workers[w]])
      && (t.workers[w] == Marking(token, seen.recipient) <==> usable && facts.primaryRecipient.value == seen.recipient)
      && (t.workers[w].Rebinding? <==> usable && facts.primaryRecipient.value != seen.recipient && seen.attempts == 0)
      && (t.workers[w].Rebinding? ==> t.workers[w] == Rebinding(token, facts.primaryRecipient.value))
      && (t.workers[w].Cancelling? <==>
            && facts.mailboxProblem.None? && seen.attempts > 0
            && !(usable && facts.primaryRecipient.value == seen.recipient))
      && (t.workers[w].Deferring? <==> facts.mailboxProblem.Some? || (seen.attempts == 0 && !usable))
      && (t.workers[w].Deferring? || t.workers[w].Cancelling? ==> ReasonIs(seen, facts, t.workers[w].reason))
      && Token(t.workers[w]) == Some(token)
  {
  }

  // ----- calls to the mail server -----

  /** How often worker `w` has called the mail server in the run. */
  function Calls(origin: System, run: seq<Action>, w: WorkerId): nat
    decreases |run|
  {
    if run == [] then 0
    else
      var s, a := Exec(origin, run[..|run| - 1]), run[|run| - 1];
      Calls(origin, run[..|run| - 1], w)
      + if a.Transmit? && a.w == w && w in s.workers && s.workers[w].Transmitting? then 1 else 0
  }

  predicate HasSent(pc: Worker) {
    || pc.RecordingSuccess? || pc.ReadingAttempts? || pc.RecordingFailure?
    || (pc.Finished? && (pc.outcome.Sent? || pc.outcome.SendFailed? || pc.outcome.OwnershipLostAfterSend?))
  }

  /** A worker calls the mail server once at most, and has done so exactly when it is past its call. */
  lemma {:induction false} OneCallEach(origin: System, run: seq<Action>, w: WorkerId)
    requires Fresh(origin)
    ensures var s := Exec(origin, run);
      if w !in s.workers then Calls(origin, run, w) == 0
      else if s.workers[w].Crashed? then Calls(origin, run, w) <= 1
      else Calls(origin, run, w) == if HasSent(s.workers[w]) then 1 else 0
    decreases |run|
  {
    if run != [] {
      OneCallEach(origin, run[..|run| - 1], w);
      hide Exec;
      StepCalls(Exec(origin, run[..|run| - 1]), run[|run| - 1], w);
      assert Exec(origin, run) == Step(Exec(origin, run[..|run| - 1]), run[|run| - 1]) by { LastStep(origin, run); }
    }
  }

  lemma LastStep(origin: System, run: seq<Action>)
    requires run != []
    ensures Exec(origin, run) == Step(Exec(origin, run[..|run| - 1]), run[|run| - 1])
  {
  }

  lemma StepCalls(s: System, a: Action, w: WorkerId)
    ensures var s' := Step(s, a);
      if w !in s.workers then w !in s'.workers || !HasSent(s'.workers[w])
      else
        && w in s'.workers
        && (s'.workers[w].Crashed? ||
             (HasSent(s'.workers[w]) <==> HasSent(s.workers[w]) || (a.Transmit? && a.w == w && s.workers[w].Transmitting?)))
        && (s.workers[w].Crashed? ==> s'.workers[w].Crashed?)
  {
    hide EvaluateEligibility, Backoff, Claimable;
  }

  // ----- a late read-back that does harm -----

  /** Worker 0 stalls between stamping its claim and reading the token back, is taken over as stale
      by worker 1, and then reads worker 1's token. */
  function BothClaim(): seq<Action> {
    [Claim(0, 0), Claim(1, 600_001), ReadBack(0), ReadBack(1)]
  }

  function BothPrepare(): seq<Action> {
    [Load(0), Load(1), Evaluate(0, Facts(None, true, Some("a"))), Evaluate(1, Facts(None, true, Some("b"))), RebindRecipient(1)]
  }

  function BothSend(): seq<Action> {
    [MarkAttempt(0), Transmit(0, Accepted), MarkAttempt(1), Transmit(1, Accepted)]
  }

  function StalledStart(): System {
    System(OutboxRow(Queued, "a", 0, None, None, None), ["a"], map[], History([], 0, [], []))
  }

  function StalledClaimed(): System {
    System(OutboxRow(Processing, "a", 0, Some(600_001), None, None), ["a"],
           map[0 := Claimed(600_001), 1 := Claimed(600_001)], History([Lease(0, 0), Lease(600_001, 1)], 1, [], []))
  }

  function StalledPrepared(): System {
    StalledClaimed().(row := StalledClaimed().row.(recipient := "b"), toAddresses := ["b"],
                      workers := map[0 := Marking(600_001, "a"), 1 := Marking(600_001, "b")])
  }

  lemma {:induction false} ExecThrough(states: seq<System>, run: seq<Action>)
    requires |states| == |run| + 1
    requires forall i :: 0 <= i < |run| ==> states[i + 1] == Step(states[i], run[i])
    ensures Exec(states[0], run) == states[|run|]
    decreases |run|
  {
    if run != [] {
      ExecThrough(states[..|run|], run[..|run| - 1]);
    }
  }

  lemma StalledClaims()
    ensures Exec(StalledStart(), BothClaim()) == StalledClaimed()
  {
    var o, r := StalledStart(), BothClaim();
    var s1 := Step(o, r[0]);
    var s2 := Step(s1, r[1]);
    var s3 := Step(s2, r[2]);
    var s4 := Step(s3, r[3]);
    assert s2.workers == map[0 := Stamped(0), 1 := Stamped(600_001)];
    assert s4 == StalledClaimed();
    ExecThrough([o, s1, s2, s3, s4], r);
  }

  lemma StalledPrepares()
    ensures Exec(StalledClaimed(), BothPrepare()) == StalledPrepared()
  {
    var o, r := StalledClaimed(), BothPrepare();
    var s1 := Step(o, r[0]);
    var s2 := Step(s1, r[1]);
    assert s2.workers == map[0 := Loaded(600_001, o.row), 1 := Loaded(600_001, o.row)];
    var s3 := Step(s2, r[2]);
    var s4 := Step(s3, r[3]);
    assert s4.workers == map[0 := Marking(600_001, "a"), 1 := Rebinding(600_001, "b")];
    var s5 := Step(s4, r[4]);
    assert s5 == StalledPrepared();
    ExecThrough([o, s1, s2, s3, s4, s5], r);
  }

  lemma StalledSends()
    ensures Exec(StalledPrepared(), BothSend()).history.sent == [Transmission("a", true), Transmission("b", true)]
  {
    var o, r := StalledPrepared(), BothSend();
    var s1 := Step(o, r[0]);
    var s2 := Step(s1, r[1]);
    assert s2.row == o.row.(attempts := 1) && s2.history.sent == [Transmission("a", true)];
    var s3 := Step(s2, r[2]);
    var s4 := Step(s3, r[3]);
    ExecThrough([o, s1, s2, s3, s4], r);
  }

  /** After it two workers work under one token, and one reply goes to two addresses. */
  lemma StalledReadBackSendsTwice()
    ensures var run := BothClaim() + BothPrepare() + BothSend();
      && Fresh(StalledStart()) && !Harmless(StalledStart(), run)
      && Exec(StalledStart(), run).history.sent == [Transmission("a", true), Transmission("b", true)]
  {
    var run := BothClaim() + BothPrepare() + BothSend();
    StalledClaims();
    StalledPrepares();
    StalledSends();
    ExecPlus(StalledStart(), BothClaim(), BothPrepare());
    ExecPlus(StalledStart(), BothClaim() + BothPrepare(), BothSend());
    var sent := Exec(StalledStart(), run).history.sent;
    assert sent[0].to != sent[1].to;
    if Harmless(StalledStart(), run) {
      OneAddress(StalledStart(), run);
    }
  }
}
