/** One address for every transmission, for every run whose token read-backs are harmless. */
module OutboxAddresses {
  import opened OutboxModel
  import opened OutboxSafety

  /** The row and its message name one address, and every transmission went there; none was made before
      an attempt was marked. */
  predicate RecipientOk(s: System) {
    && s.toAddresses == [s.row.recipient]
    && (forall i :: 0 <= i < |s.history.sent| ==> s.history.sent[i].to == s.row.recipient)
    && (s.history.sent != [] ==> s.row.attempts > 0)
  }

  predicate SenderOk(s: System, pc: Worker) {
    pc.Transmitting? ==> pc.recipient == s.row.recipient && s.row.attempts > 0
  }

  /** A worker that may still send under the row's lease knows the row's recipient. */
  predicate KnowsRow(s: System, pc: Worker) {
    s.row.lastAttemptAt.Some? && MayStillSend(pc, s.row.lastAttemptAt.value) ==>
      match pc
      case Loaded(_, seen) => seen.recipient == s.row.recipient
      case Marking(_, recipient) => recipient == s.row.recipient
      case _ => true
  }

  /** Until the first attempt one worker at most may still send. */
  predicate OneSender(s: System) {
    s.row.status.Processing? && s.row.attempts == 0 && s.row.lastAttemptAt.Some? ==>
      forall v, w :: v in s.workers && w in s.workers
        && MayStillSend(s.workers[v], s.row.lastAttemptAt.value) && MayStillSend(s.workers[w], s.row.lastAttemptAt.value)
        ==> v == w
  }

  predicate AddressInv(s: System) {
    && RecipientOk(s) && OneSender(s)
    && (forall w :: w in s.workers ==> SenderOk(s, s.workers[w]))
    && (s.row.status.Processing? ==> forall w :: w in s.workers ==> KnowsRow(s, s.workers[w]))
  }

  /** A claim takes a newer token than any worker holds, so its claimant is the only one under it. */
  lemma ClaimAddress(s: System, w: WorkerId, now: Time)
    requires Inv(s) && AddressInv(s) && w !in s.workers
    ensures AddressInv(ClaimStep(s, w, now))
  {
    var t := ClaimStep(s, w, now);
    if Claimable(s.row, now) {
      assert s.history.claims != [] ==> LastLease(s).stamp < now;
      forall v | v in s.workers ensures !MayStillSend(s.workers[v], now) {
        assert WorkerOk(s, s.workers[v]);
      }
    }
    hide Inv, Claimable;
    assert OneSender(t);
  }

  /** A step that leaves the row and the history alone. */
  lemma MoveAddress(s: System, w: WorkerId, pc: Worker)
    requires AddressInv(s) && w in s.workers
    requires SenderOk(s, pc) && (s.row.status.Processing? ==> KnowsRow(s, pc))
    requires s.row.lastAttemptAt.Some? && MayStillSend(pc, s.row.lastAttemptAt.value) ==>
      MayStillSend(s.workers[w], s.row.lastAttemptAt.value) || !Contested(s, w)
    ensures AddressInv(Put(s, w, pc))
  {
  }

  lemma ReadBackAddress(s: System, w: WorkerId)
    requires AddressInv(s) && HarmlessStep(s, ReadBack(w))
    requires w in s.workers && s.workers[w].Stamped? && s.row.lastAttemptAt.Some?
    ensures AddressInv(Put(s, w, Claimed(s.row.lastAttemptAt.value)))
  {
    MoveAddress(s, w, Claimed(s.row.lastAttemptAt.value));
  }

  lemma EvaluateAddress(s: System, w: WorkerId, facts: Facts)
    requires AddressInv(s) && w in s.workers && s.workers[w].Loaded?
    ensures AddressInv(EvaluateStep(s, w, s.workers[w], facts))
  {
    var pc := s.workers[w];
    assert s.row.status.Processing? ==> KnowsRow(s, pc);
    var next := Judged(pc.token, EvaluateEligibility(pc.seen, facts));
    assert next.Marking? ==> next.recipient == pc.seen.recipient;
    hide EvaluateEligibility;
    MoveAddress(s, w, next);
  }

  /** Before the first attempt nobody else may still send, so a new recipient leaves nobody with the old. */
  lemma RebindAddress(s: System, w: WorkerId)
    requires AddressInv(s) && w in s.workers && s.workers[w].Rebinding?
    ensures AddressInv(RebindStep(s, w, s.workers[w]))
  {
    var pc := s.workers[w];
    if Holds(s.row, pc.token) && s.row.attempts == 0 {
      assert MayStillSend(pc, pc.token);
      forall v | v in s.workers && v != w ensures !MayStillSend(s.workers[v], pc.token) {
        assert OneSender(s);
      }
    }
  }

  lemma MarkAddress(s: System, w: WorkerId)
    requires AddressInv(s) && w in s.workers && s.workers[w].Marking?
    ensures AddressInv(MarkStep(s, w, s.workers[w]))
  {
    assert s.row.status.Processing? ==> KnowsRow(s, s.workers[w]);
  }

  lemma TransmitAddress(s: System, w: WorkerId, result: SmtpResult)
    requires AddressInv(s) && w in s.workers && s.workers[w].Transmitting?
    ensures AddressInv(TransmitStep(s, w, s.workers[w], result))
  {
    assert SenderOk(s, s.workers[w]);
  }

  /** A step that ends the lease or leaves the row alone, and sends nothing. */
  lemma EndAddress(s: System, w: WorkerId)
    requires AddressInv(s) && w in s.workers
    ensures var pc := s.workers[w];
      && (pc.Deferring? ==> AddressInv(DeferStep(s, w, pc)))
      && (pc.Cancelling? ==> AddressInv(CancelStep(s, w, pc)))
      && (pc.RecordingSuccess? ==> AddressInv(RecordSuccessStep(s, w, pc)))
      && (pc.RecordingFailure? ==> AddressInv(RecordFailureStep(s, w, pc)))
  {
    hide Backoff;
  }

  /** Every harmless action keeps one address. */
  lemma StepAddress(s: System, a: Action)
    requires Inv(s) && AddressInv(s) && HarmlessStep(s, a)
    ensures AddressInv(Step(s, a))
  {
    hide Inv, AddressInv, HarmlessStep, EvaluateEligibility;
    var w := a.w;
    if w !in s.workers {
      if a.Claim? { ClaimAddress(s, w, a.now); }
    } else {
      var pc := s.workers[w];
      EndAddress(s, w);
      match a
      case Claim(_, _) =>
      case ReadBack(_) => if pc.Stamped? && s.row.lastAttemptAt.Some? { ReadBackAddress(s, w); }
      case Load(_) => if pc.Claimed? { MoveAddress(s, w, Loaded(pc.token, s.row)); }
      case Evaluate(_, facts) => if pc.Loaded? { EvaluateAddress(s, w, facts); }
      case DeferToQueued(_) =>
      case Cancel(_) =>
      case RebindRecipient(_) => if pc.Rebinding? { RebindAddress(s, w); }
      case MarkAttempt(_) => if pc.Marking? { MarkAddress(s, w); }
      case Transmit(_, result) => if pc.Transmitting? { TransmitAddress(s, w, result); }
      case RecordSuccess(_) =>
      case ReadAttempts(_) =>
        if pc.ReadingAttempts? { MoveAddress(s, w, RecordingFailure(pc.token, pc.terminal, pc.error, s.row.attempts)); }
      case RecordFailure(_) =>
      case Crash(_) => if !pc.Finished? { MoveAddress(s, w, Crashed); }
    }
  }

  lemma {:induction false} RunAddress(origin: System, run: seq<Action>)
    requires ReachedBy(origin, run)
    ensures Inv(Exec(origin, run)) && AddressInv(Exec(origin, run))
    decreases |run|
  {
    RunInv(origin, run);
    if run != [] {
      RunAddress(origin, run[..|run| - 1]);
      hide Inv, AddressInv;
      StepAddress(Exec(origin, run[..|run| - 1]), run[|run| - 1]);
    }
  }
}
