/** The outbound service on one outbox row: the methods write the row in place, one database statement
    or transaction each, and `ProcessOne` strings them together while other workers write the same row
    between any two of them, the two queries of the claim included. The object is always in a state
    that some run of the outbox machine leads to; `ProcessOne` says what the theorems about runs then
    say of its result. */
module OutboxService {
  import opened Options
  import opened OutboxModel
  import opened OutboxSafety
  import opened OutboxRetry
  import opened OutboxTheorems

  predicate SameWorker(w: WorkerId, was: map<WorkerId, Worker>, now: map<WorkerId, Worker>) {
    if w in was then w in now && now[w] == was[w] else w !in now
  }

  lemma OthersKeepOut(s: System, a: Action, w: WorkerId)
    requires a.w != w
    ensures SameWorker(w, s.workers, Step(s, a).workers)
  {
  }

  lemma SentGrows(s: System, a: Action)
    ensures s.history.sent <= Step(s, a).history.sent
  {
  }

  /** What a worker's outcome says of the facts it judged by and of the mail server's answer. */
  predicate Explained(outcome: Outcome, facts: Facts, result: SmtpResult) {
    match outcome
    case Sent => Sendable(facts) && result.Accepted?
    case SendFailed => Sendable(facts) && result.Refused?
    case OwnershipLostAfterSend => Sendable(facts)
    case DeferredRow => !Sendable(facts)
    case CancelledRow => facts.mailboxProblem.None?
    case _ => true
  }

  /** The mailbox works, and the customer has a primary address. */
  predicate Sendable(facts: Facts) {
    facts.mailboxProblem.None? && facts.hasCustomer && facts.primaryRecipient.Some?
  }

  class OperatorReplyOutbound {
    var row: OutboxRow
    var toAddresses: seq<Address>
    var workers: map<WorkerId, Worker>
    var history: History
    ghost const origin: System
    ghost var run: seq<Action>

    function State(): System
      reads this
    {
      System(row, toAddresses, workers, history)
    }

    ghost predicate Valid()
      reads this
    {
      Fresh(origin) && State() == Exec(origin, run)
    }

    constructor (recipient: Address)
      ensures Valid() && run == [] && Fresh(State()) && row.recipient == recipient
    {
      row := OutboxRow(Queued, recipient, 0, None, None, None);
      toAddresses := [recipient];
      workers := map[];
      history := History([], 0, [], []);
      origin := System(OutboxRow(Queued, recipient, 0, None, None, None), [recipient], map[], History([], 0, [], []));
      run := [];
    }

    ghost method Note(a: Action)
      requires Fresh(origin) && State() == Step(Exec(origin, run), a)
      modifies this`run
      ensures Valid() && run == old(run) + [a]
    {
      OneMore(origin, run, a);
      run := run + [a];
    }

    /** The first query of the claim: stamp the row if it is due or its lease is ten minutes old. */
    method Stamp(w: WorkerId, now: Time) returns (ok: bool)
      requires Valid() && w !in workers
      modifies this
      ensures Valid() && run == old(run) + [Action.Claim(w, now)]
      ensures ok <==>
        || (old(row).status.Queued? && (old(row).nextAttemptAt.None? || old(row).nextAttemptAt.value <= now))
        || (old(row).status.Processing? && old(row).lastAttemptAt.Some? && old(row).lastAttemptAt.value < now - 600_000)
      ensures row == if ok then old(row).(status := Processing, lastAttemptAt := Some(now)) else old(row)
      ensures workers == old(workers)[w := if ok then Stamped(now) else Finished(NotClaimed)]
    {
      ok := Claimable(row, now);
      if ok {
        var takenOver := row.status.Processing?;
        row := row.(status := Processing, lastAttemptAt := Some(now));
        history := history.(claims := history.claims + [Lease(now, w)],
                            reclaims := history.reclaims + if takenOver then 1 else 0);
      }
      workers := workers[w := if ok then Stamped(now) else Finished(NotClaimed)];
      Note(Action.Claim(w, now));
    }

    /** The second query of the claim: the token the row shows by now, never one older than the stamp. */
    method ReadTokenBack(w: WorkerId, stamp: Time) returns (token: Time)
      requires Valid() && w in workers && workers[w] == Stamped(stamp)
      modifies this
      ensures Valid() && run == old(run) + [ReadBack(w)]
      ensures row == old(row) && row.lastAttemptAt == Some(token) && stamp <= token
      ensures workers == old(workers)[w := Claimed(token)]
    {
      RunInv(origin, run);
      assert WorkerOk(State(), workers[w]);
      token := row.lastAttemptAt.value;
      workers := workers[w := Claimed(token)];
      Note(ReadBack(w));
    }

    /** The claim, with other workers between its two queries. Undisturbed, its token is its own stamp. */
    method Claim(w: WorkerId, now: Time, others: seq<Action>) returns (token: Option<Time>)
      requires Valid() && w !in workers
      modifies this
      ensures Valid() && old(run) <= run && w in workers
      ensures token.Some? <==>
        || (old(row).status.Queued? && (old(row).nextAttemptAt.None? || old(row).nextAttemptAt.value <= now))
        || (old(row).status.Processing? && old(row).lastAttemptAt.Some? && old(row).lastAttemptAt.value < now - 600_000)
      ensures if token.Some? then workers[w] == Claimed(token.value) && row.lastAttemptAt == token && now <= token.value
              else workers[w] == Finished(NotClaimed) && row == old(row)
      ensures token.Some? && others == [] ==>
        token == Some(now) && row == old(row).(status := Processing, lastAttemptAt := Some(now))
    {
      hide Valid;
      var ok := Stamp(w, now);
      if !ok { return None; }
      Interleave(w, others);
      var found := ReadTokenBack(w, now);
      token := Some(found);
    }

    method LoadContext(w: WorkerId, token: Time) returns (seen: OutboxRow)
      requires Valid() && w in workers && workers[w] == Claimed(token)
      modifies this
      ensures Valid() && run == old(run) + [Load(w)]
      ensures row == old(row) && seen == row
      ensures workers == old(workers)[w := Loaded(token, seen)]
    {
      seen := row;
      workers := workers[w := Loaded(token, seen)];
      Note(Load(w));
    }

    method Judge(w: WorkerId, token: Time, seen: OutboxRow, facts: Facts) returns (e: Eligibility)
      requires Valid() && w in workers && workers[w] == Loaded(token, seen)
      modifies this
      ensures Valid() && run == old(run) + [Evaluate(w, facts)]
      ensures row == old(row) && e == EvaluateEligibility(seen, facts)
      ensures workers == old(workers)[w := Judged(token, e)]
    {
      e := EvaluateEligibility(seen, facts);
      workers := workers[w := Judged(token, e)];
      Note(Evaluate(w, facts));
    }

    method DeferRowToQueued(w: WorkerId, token: Time, reason: string) returns (ok: bool)
      requires Valid() && w in workers && workers[w] == Deferring(token, reason)
      modifies this
      ensures Valid() && run == old(run) + [DeferToQueued(w)]
      ensures ok == Holds(old(row), token)
      ensures row == if !ok then old(row) else
        old(row).(status := Queued, lastError := Some(reason), nextAttemptAt := Some(token + 60_000))
      ensures workers == old(workers)[w := Finished(if ok then DeferredRow else Conflict)]
    {
      ok := Holds(row, token);
      if ok {
        row := row.(status := Queued, lastError := Some(reason), nextAttemptAt := Some(token + DEFER_RETRY_DELAY_MS));
      }
      workers := workers[w := Finished(if ok then DeferredRow else Conflict)];
      Note(DeferToQueued(w));
    }

    method CancelRowFor(w: WorkerId, token: Time, reason: string) returns (ok: bool)
      requires Valid() && w in workers && workers[w] == Cancelling(token, reason)
      modifies this
      ensures Valid() && run == old(run) + [Action.Cancel(w)]
      ensures ok == Holds(old(row), token)
      ensures row == if ok then old(row).(status := Cancelled, lastError := Some(reason)) else old(row)
      ensures workers == old(workers)[w := Finished(if ok then CancelledRow else Conflict)]
    {
      ok := Holds(row, token);
      if ok {
        row := row.(status := Cancelled, lastError := Some(reason));
      }
      workers := workers[w := Finished(if ok then CancelledRow else Conflict)];
      Note(Action.Cancel(w));
    }

    /** The row and the message change address together or not at all. */
    method Rebind(w: WorkerId, token: Time, recipient: Address) returns (ok: bool)
      requires Valid() && w in workers && workers[w] == Rebinding(token, recipient)
      modifies this
      ensures Valid() && run == old(run) + [RebindRecipient(w)]
      ensures ok == (Holds(old(row), token) && old(row).attempts == 0)
      ensures row == if ok then old(row).(recipient := recipient) else old(row)
      ensures toAddresses == if ok then [recipient] else old(toAddresses)
      ensures workers == old(workers)[w := if ok then Marking(token, recipient) else Finished(Conflict)]
    {
      ok := Holds(row, token) && row.attempts == 0;
      if ok {
        row := row.(recipient := recipient);
        toAddresses := [recipient];
      }
      workers := workers[w := if ok then Marking(token, recipient) else Finished(Conflict)];
      Note(RebindRecipient(w));
    }

    method Mark(w: WorkerId, token: Time, recipient: Address) returns (ok: bool)
      requires Valid() && w in workers && workers[w] == Marking(token, recipient)
      modifies this
      ensures Valid() && run == old(run) + [MarkAttempt(w)]
      ensures ok == Holds(old(row), token)
      ensures row == if ok then old(row).(attempts := old(row).attempts + 1) else old(row)
      ensures workers == old(workers)[w := if ok then Transmitting(token, recipient) else Finished(Conflict)]
    {
      ok := Holds(row, token);
      if ok {
        row := row.(attempts := row.attempts + 1);
      }
      workers := workers[w := if ok then Transmitting(token, recipient) else Finished(Conflict)];
      Note(MarkAttempt(w));
    }

    /** The call to the mail server, with whatever it answers. */
    method Send(w: WorkerId, token: Time, recipient: Address, result: SmtpResult)
      requires Valid() && w in workers && workers[w] == Transmitting(token, recipient)
      modifies this
      ensures Valid() && run == old(run) + [Transmit(w, result)]
      ensures row == old(row)
      ensures history == old(history).(sent := old(history).sent + [Transmission(recipient, result.Accepted?)])
      ensures workers == old(workers)[w :=
        if result.Accepted? then RecordingSuccess(token) else ReadingAttempts(token, result.terminal, result.error)]
    {
      history := history.(sent := history.sent + [Transmission(recipient, result.Accepted?)]);
      workers := workers[w :=
        if result.Accepted? then RecordingSuccess(token) else ReadingAttempts(token, result.terminal, result.error)];
      Note(Transmit(w, result));
    }

    lemma AcceptedHere(w: WorkerId)
      requires Valid() && w in workers && workers[w].RecordingSuccess?
      ensures HasAccepted(history.sent)
    {
      RunInv(origin, run);
      assert WorkerOk(State(), workers[w]);
    }

    method RecordSent(w: WorkerId, token: Time) returns (ok: bool)
      requires Valid() && w in workers && workers[w] == RecordingSuccess(token)
      modifies this
      ensures Valid() && run == old(run) + [RecordSuccess(w)]
      ensures ok == Holds(old(row), token)
      ensures row == if ok then old(row).(status := Delivered, lastError := None, nextAttemptAt := None) else old(row)
      ensures ok ==> HasAccepted(history.sent)
      ensures history == old(history)
      ensures workers == old(workers)[w := Finished(if ok then Sent else OwnershipLostAfterSend)]
    {
      AcceptedHere(w);
      ok := Holds(row, token);
      if ok {
        row := row.(status := Delivered, lastError := None, nextAttemptAt := None);
      }
      workers := workers[w := Finished(if ok then Sent else OwnershipLostAfterSend)];
      Note(RecordSuccess(w));
    }

    method CurrentAttempts(w: WorkerId, token: Time, terminal: bool, error: string) returns (attempts: nat)
      requires Valid() && w in workers && workers[w] == ReadingAttempts(token, terminal, error)
      modifies this
      ensures Valid() && run == old(run) + [ReadAttempts(w)]
      ensures row == old(row) && history == old(history) && attempts == row.attempts
      ensures workers == old(workers)[w := RecordingFailure(token, terminal, error, attempts)]
    {
      attempts := row.attempts;
      workers := workers[w := RecordingFailure(token, terminal, error, attempts)];
      Note(ReadAttempts(w));
    }

    /** FAILED for good, or back to QUEUED for the delay of this attempt. */
    method RecordRefused(w: WorkerId, token: Time, terminal: bool, error: string, attempts: nat) returns (ok: bool)
      requires Valid() && w in workers && workers[w] == RecordingFailure(token, terminal, error, attempts)
      modifies this
      ensures Valid() && run == old(run) + [RecordFailure(w)]
      ensures ok == Holds(old(row), token)
      ensures row ==
        if !ok then old(row)
        else if terminal || attempts >= 5 then
          old(row).(status := Failed, lastError := Some(error), nextAttemptAt := None)
        else old(row).(status := Queued, lastError := Some(error), nextAttemptAt := Some(token + Backoff(attempts)))
      ensures ok && row.status.Queued? ==> Backoffed()
      ensures history.sent == old(history).sent
      ensures workers == old(workers)[w := Finished(if ok then SendFailed else OwnershipLostAfterSend)]
    {
      ok := Holds(row, token);
      if ok {
        if terminal || attempts >= MAX_SEND_ATTEMPTS {
          row := row.(status := Failed, lastError := Some(error), nextAttemptAt := None);
        } else {
          var delay := Backoff(attempts);
          row := row.(status := Queued, lastError := Some(error), nextAttemptAt := Some(token + delay));
          history := history.(requeues := history.requeues + [Requeue(attempts, delay)]);
        }
      }
      workers := workers[w := Finished(if ok then SendFailed else OwnershipLostAfterSend)];
      Note(RecordFailure(w));
      if ok && row.status.Queued? { BackoffHere(attempts); }
    }

    /** The re-queue just recorded is one of the four the table has a delay for. */
    lemma BackoffHere(attempts: nat)
      requires Valid() && row.lastAttemptAt.Some? && history.requeues != []
      requires history.requeues[|history.requeues| - 1] == Requeue(attempts, Backoff(attempts))
      requires row.nextAttemptAt == Some(row.lastAttemptAt.value + Backoff(attempts))
      ensures Backoffed()
    {
      hide Exec, Fresh, Backoff;
      AtMostFourRequeues(origin, run);
    }

    /** One action of another worker. */
    method Other(w: WorkerId, a: Action)
      requires Valid() && a.w != w
      modifies this
      ensures Valid() && old(run) <= run && SameWorker(w, old(workers), workers)
      ensures old(history).sent <= history.sent
    {
      OthersKeepOut(State(), a, w);
      SentGrows(State(), a);
      var next := Step(State(), a);
      row, toAddresses, workers, history := next.row, next.toAddresses, next.workers, next.history;
      Note(a);
    }

    /** Other workers run between two awaits of `w`: any actions of theirs, in any order. */
    method Interleave(w: WorkerId, script: seq<Action>)
      requires Valid()
      modifies this
      ensures Valid() && old(run) <= run && SameWorker(w, old(workers), workers)
      ensures old(history).sent <= history.sent
      ensures script == [] ==> row == old(row)
    {
      hide Valid;
      for i := 0 to |script|
        invariant Valid() && old(run) <= run && SameWorker(w, old(workers), workers) && old(history).sent <= history.sent
        invariant script == [] ==> row == old(row)
      {
        if script[i].w != w {
          Other(w, script[i]);
        }
      }
    }

    /** What a returned outcome says about the row and the history at that moment. */
    predicate Truthful(outcome: Outcome)
      reads this
    {
      match outcome
      case Sent => row.status.Delivered? && HasAccepted(history.sent)
      case DeferredRow =>
        row.status.Queued? && row.lastAttemptAt.Some?
        && row.nextAttemptAt == Some(row.lastAttemptAt.value + 60_000)
      case CancelledRow => row.status.Cancelled?
      case SendFailed => row.status.Failed? || (row.status.Queued? && Backoffed())
      case _ => true
    }

    /** The row waits for the delay of the attempt that its last re-queue recorded, one of the first four. */
    predicate Backoffed()
      reads this
    {
      && history.requeues != [] && row.lastAttemptAt.Some?
      && var last := history.requeues[|history.requeues| - 1];
        && 1 <= last.attempts <= 4
        && row.nextAttemptAt == Some(row.lastAttemptAt.value + [60_000, 300_000, 900_000, 1_800_000][last.attempts - 1])
    }

    /** One worker, from claim to result, with `others` running at its awaits. The outcome is true of the
        row; the worker has called the mail server once if the outcome is one after a send, and never
        otherwise; and unless some token read-back did harm, every transmission so far went to the
        address that row and message name, the accepted one of a delivery among them. */
    method ProcessOne(w: WorkerId, now: Time, facts: Facts, result: SmtpResult, others: seq<seq<Action>>)
      returns (outcome: Outcome)
      requires Valid() && w !in workers && |others| == 8
      modifies this
      ensures Valid() && old(run) <= run
      ensures w in workers && workers[w] == Finished(outcome) && Truthful(outcome)
      ensures Explained(outcome, facts, result)
      ensures HasSent(Finished(outcome)) ==> Transmission(facts.primaryRecipient.value, result.Accepted?) in history.sent
      ensures outcome.SendFailed? && result.terminal ==> row.status.Failed?
      ensures Calls(origin, run, w) == if outcome.Sent? || outcome.SendFailed? || outcome.OwnershipLostAfterSend? then 1 else 0
      ensures Harmless(origin, run) ==>
        && toAddresses == [row.recipient]
        && (forall i :: 0 <= i < |history.sent| ==> history.sent[i].to == row.recipient)
        && (outcome.Sent? ==> Transmission(row.recipient, true) in history.sent)
    {
      hide Valid, Truthful, Fresh;
      var token := Claim(w, now, others[0]);
      if token.None? {
        outcome := NotClaimed;
        assert Truthful(outcome) by { NothingClaimed(outcome); }
      } else {
        outcome := Work(w, token.value, facts, result, others[1..]);
      }
      Consequences(w, outcome);
    }

    lemma NothingClaimed(outcome: Outcome)
      requires outcome.NotClaimed? || outcome.Conflict? || outcome.OwnershipLostAfterSend?
      ensures Truthful(outcome)
    {
    }

    lemma Consequences(w: WorkerId, outcome: Outcome)
      requires Valid() && w in workers && workers[w] == Finished(outcome) && Truthful(outcome)
      ensures Calls(origin, run, w) == if outcome.Sent? || outcome.SendFailed? || outcome.OwnershipLostAfterSend? then 1 else 0
      ensures Harmless(origin, run) ==>
        && toAddresses == [row.recipient]
        && (forall i :: 0 <= i < |history.sent| ==> history.sent[i].to == row.recipient)
        && (outcome.Sent? ==> Transmission(row.recipient, true) in history.sent)
    {
      hide Exec, Harmless, Fresh, Calls, Backoffed;
      OneCallEach(origin, run, w);
      if Harmless(origin, run) {
        OneAddress(origin, run);
        if outcome.Sent? { DeliveredWasAccepted(origin, run); }
      }
    }

    /** The part of `ProcessOne` under a lease. */
    method Work(w: WorkerId, token: Time, facts: Facts, result: SmtpResult, others: seq<seq<Action>>)
      returns (outcome: Outcome)
      requires Valid() && w in workers && workers[w] == Claimed(token) && |others| == 7
      modifies this
      ensures Valid() && old(run) <= run
      ensures w in workers && workers[w] == Finished(outcome) && Truthful(outcome)
      ensures Explained(outcome, facts, result)
      ensures HasSent(Finished(outcome)) ==> Transmission(facts.primaryRecipient.value, result.Accepted?) in history.sent
      ensures outcome.SendFailed? && result.terminal ==> row.status.Failed?
    {
      hide Valid, EvaluateEligibility, Truthful;
      Interleave(w, others[0]);
      var seen := LoadContext(w, token);
      Interleave(w, others[1]);
      var eligibility := Judge(w, token, seen, facts);
      EligibleRowsKeepTheirAddress(seen, facts);
      outcome := Resolve(w, token, eligibility, facts, result, others[2..]);
    }

    method Resolve(w: WorkerId, token: Time, eligibility: Eligibility, facts: Facts, result: SmtpResult, others: seq<seq<Action>>)
      returns (outcome: Outcome)
      requires Valid() && w in workers && |others| == 5
      requires workers[w] == Judged(token, eligibility)
      requires eligibility.Eligible? ==> Sendable(facts) && facts.primaryRecipient == Some(eligibility.recipient)
      requires eligibility.CancelRow? ==> facts.mailboxProblem.None?
      requires eligibility.DeferRow? ==> !Sendable(facts)
      modifies this
      ensures Valid() && old(run) <= run
      ensures w in workers && workers[w] == Finished(outcome) && Truthful(outcome)
      ensures Explained(outcome, facts, result)
      ensures HasSent(Finished(outcome)) ==> Transmission(facts.primaryRecipient.value, result.Accepted?) in history.sent
      ensures outcome.SendFailed? && result.terminal ==> row.status.Failed?
    {
      hide Valid;
      Interleave(w, others[0]);
      match eligibility {
        case DeferRow(reason) =>
          var ok := DeferRowToQueued(w, token, reason);
          return if ok then DeferredRow else Conflict;
        case CancelRow(reason) =>
          var ok := CancelRowFor(w, token, reason);
          return if ok then CancelledRow else Conflict;
        case Eligible(recipient, changed) =>
          outcome := Attempt(w, token, recipient, changed, result, others[1..]);
      }
    }

    method Attempt(w: WorkerId, token: Time, recipient: Address, changed: bool, result: SmtpResult, others: seq<seq<Action>>)
      returns (outcome: Outcome)
      requires Valid() && w in workers && |others| == 4
      requires workers[w] == if changed then Rebinding(token, recipient) else Marking(token, recipient)
      modifies this
      ensures Valid() && old(run) <= run
      ensures w in workers && workers[w] == Finished(outcome) && Truthful(outcome)
      ensures !outcome.DeferredRow? && !outcome.CancelledRow?
      ensures outcome.Sent? ==> result.Accepted?
      ensures outcome.SendFailed? ==> result.Refused?
      ensures HasSent(Finished(outcome)) ==> Transmission(recipient, result.Accepted?) in history.sent
      ensures outcome.SendFailed? && result.terminal ==> row.status.Failed?
    {
      hide Valid, Backoffed, HasAccepted;
      if changed {
        var rebound := Rebind(w, token, recipient);
        if !rebound { return Conflict; }
      }
      Interleave(w, others[0]);
      var marked := Mark(w, token, recipient);
      if !marked { return Conflict; }
      outcome := SendAndRecord(w, token, recipient, result, others[1..]);
    }

    method SendAndRecord(w: WorkerId, token: Time, recipient: Address, result: SmtpResult, others: seq<seq<Action>>)
      returns (outcome: Outcome)
      requires Valid() && w in workers && |others| == 3
      requires workers[w] == Transmitting(token, recipient)
      modifies this
      ensures Valid() && old(run) <= run
      ensures w in workers && workers[w] == Finished(outcome) && Truthful(outcome)
      ensures if result.Accepted? then outcome.Sent? || outcome.OwnershipLostAfterSend?
              else outcome.SendFailed? || outcome.OwnershipLostAfterSend?
      ensures Transmission(recipient, result.Accepted?) in history.sent
      ensures outcome.SendFailed? && result.terminal ==> row.status.Failed?
    {
      hide Valid, Truthful;
      Interleave(w, others[0]);
      Send(w, token, recipient, result);
      ghost var sent := history.sent;
      assert sent[|sent| - 1] == Transmission(recipient, result.Accepted?);
      Interleave(w, others[1]);
      outcome := Record(w, token, result, others[2]);
    }

    method Record(w: WorkerId, token: Time, result: SmtpResult, others: seq<Action>) returns (outcome: Outcome)
      requires Valid() && w in workers
      requires workers[w] ==
        if result.Accepted? then RecordingSuccess(token) else ReadingAttempts(token, result.terminal, result.error)
      modifies this
      ensures Valid() && old(run) <= run
      ensures w in workers && workers[w] == Finished(outcome) && Truthful(outcome)
      ensures old(history).sent <= history.sent
      ensures if result.Accepted? then outcome.Sent? || outcome.OwnershipLostAfterSend?
              else outcome.SendFailed? || outcome.OwnershipLostAfterSend?
      ensures outcome.SendFailed? && result.terminal ==> row.status.Failed?
    {
      hide Valid, Backoffed, HasAccepted;
      match result {
        case Accepted =>
          var recorded := RecordSent(w, token);
          return if recorded then Sent else OwnershipLostAfterSend;
        case Refused(terminal, error) =>
          var attempts := CurrentAttempts(w, token, terminal, error);
          Interleave(w, others);
          var recorded := RecordRefused(w, token, terminal, error, attempts);
          return if recorded then SendFailed else OwnershipLostAfterSend;
      }
    }
  }
}
