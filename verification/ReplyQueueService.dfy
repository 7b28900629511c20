/** The reply service over its tables: the methods write them in place, one query or transaction each,
    and `QueueReply` strings them together, with its one retry, while other calls and writers run
    between any two of them. Every method leaves the tables in a state that a run of the queue machine
    reaches. */
module ReplyQueueService {
  import opened Options
  import opened ReplyQueueModel
  import opened ReplyQueueSafety
  import opened ReplyQueueTheorems
  import opened ReplyQueueContents
  import opened ReplyQueueEnds

  /** What one attempt meets outside the tables, and what runs at its awaits. */
  datatype Circumstances = Circumstances(
    facts: Outbox.Facts,
    messageId: MessageId,
    outboxId: OutboxId,
    now: Outbox.Time,
    outcome: DbOutcome,
    others: seq<seq<Action>>)

  lemma {:induction false} RunStep(origin: System, run: seq<Action>, a: Action)
    ensures Exec(origin, run + [a]) == Step(Exec(origin, run), a)
  {
    assert (run + [a])[..|run + [a]| - 1] == run;
  }

  lemma ProblemMeans(facts: Outbox.Facts)
    ensures RecipientProblem(facts).None? <==> facts.mailboxProblem.None? && facts.hasCustomer && facts.primaryRecipient.Some?
  {
  }

  class OperatorReply {
    const weigh: string -> Weight
    var threads: map<Weight, Thread>
    var messages: map<MessageId, Message>
    var outbox: map<OutboxId, Row>
    var calls: map<CallId, Call>
    ghost const origin: System
    ghost var run: seq<Action>

    function State(): System
      reads this
    {
      System(weigh, threads, messages, outbox, calls)
    }

    ghost predicate Valid()
      reads this
    {
      Initial(origin) && State() == Exec(origin, run)
    }

    constructor (weigh: string -> Weight, threads: map<Weight, Thread>, messages: map<MessageId, Message>)
      requires forall t :: t in threads ==> weigh(threads[t].id) == t
      requires forall m :: m in messages ==> weigh(messages[m].threadId) in threads && messages[m].source.None?
      ensures Valid() && run == [] && State() == System(weigh, threads, messages, map[], map[])
    {
      this.weigh := weigh;
      this.threads, this.messages, outbox, calls := threads, messages, map[], map[];
      origin := System(weigh, threads, messages, map[], map[]);
      run := [];
    }

    ghost method Note(a: Action)
      requires Initial(origin) && State() == Step(Exec(origin, run), a)
      modifies this`run
      ensures Valid() && run == old(run) + [a]
    {
      RunStep(origin, run, a);
      run := run + [a];
    }

    method Submit(c: CallId, request: Request)
      requires Valid() && c !in calls
      modifies this
      ensures Valid() && run == old(run) + [Action.Submit(c, request)]
      ensures calls == old(calls)[c := Call(request, 0, "", [], ReadingThread)]
    {
      calls := calls[c := Call(request, 0, "", [], ReadingThread)];
      Note(Action.Submit(c, request));
    }

    /** None is the 404; otherwise the stored thread, found by any spelling of its id. */
    method LoadThread(c: CallId) returns (thread: Option<Thread>)
      requires Valid() && c in calls && calls[c].progress.ReadingThread?
      modifies this
      ensures Valid() && run == old(run) + [ReadThread(c)]
      ensures var t := weigh(old(calls[c]).request.threadId);
        thread == if t in old(threads) then Some(old(threads)[t]) else None
      ensures calls == old(calls)[c := if thread.Some?
        then old(calls[c]).(thread := thread.value.id,
                            subject := EffectiveSubject(old(calls[c]).request, thread.value.subject), progress := LookingUp)
        else old(calls[c]).(progress := Done(NotFound))]
    {
      hide EffectiveSubject;
      var call := calls[c];
      var t := weigh(call.request.threadId);
      thread := if t in threads then Some(threads[t]) else None;
      calls := calls[c := if thread.Some?
        then call.(thread := thread.value.id, subject := EffectiveSubject(call.request, thread.value.subject),
                   progress := LookingUp)
        else call.(progress := Done(NotFound))];
      Note(ReadThread(c));
    }

    /** The composite-key lookup with the message it includes. */
    method FindExistingForActor(request: Request) returns (found: Option<OutboxId>)
      requires Valid()
      ensures Looks(State(), request, found)
    {
      RunInv(origin, run);
      found := None;
      if o :| o in outbox && Matches(weigh, outbox[o], request.actor, request.key) {
        found := Some(o);
        assert RowOk(State(), o);
      }
    }

    /** The short-circuit: the result of a row that is already there. */
    method ShortCircuit(c: CallId) returns (result: Option<Result>)
      requires Valid() && c in calls && calls[c].progress.LookingUp?
      modifies this
      ensures Valid() && old(run) <= run && |run| == |old(run)| + 1
      ensures calls == old(calls)[c := old(calls[c]).(progress := if result.Some? then Done(result.value) else Resolving)]
    {
      hide ResolveExisting, Looks;
      var call := calls[c];
      var found := FindExistingForActor(call.request);
      result := match found
        case Some(o) => LookedUp(call, found)
        case None => None;
      calls := calls[c := call.(progress := if result.Some? then Done(result.value) else Resolving)];
      Note(FindExisting(c, found));
    }

    function LookedUp(call: Call, found: Option<OutboxId>): Option<Result>
      requires Looks(State(), call.request, found)
      reads this
    {
      match found
      case Some(o) => Some(ResolveExisting(State(), o, call.request, call.subject))
      case None => None
    }

    /** The pinned mailbox, the customer and the primary address, in that order. */
    method Recipient(c: CallId, facts: Outbox.Facts) returns (problem: Option<string>)
      requires Valid() && c in calls && calls[c].progress.Resolving?
      modifies this
      ensures Valid() && run == old(run) + [ResolveRecipient(c, facts)]
      ensures problem.None? <==> facts.mailboxProblem.None? && facts.hasCustomer && facts.primaryRecipient.Some?
      ensures calls == old(calls)[c := old(calls[c]).(progress :=
        if problem.Some? then Done(Unprocessable(problem.value)) else Inserting(facts.primaryRecipient.value))]
    {
      ProblemMeans(facts);
      hide RecipientProblem;
      problem := RecipientProblem(facts);
      calls := calls[c := calls[c].(progress :=
        if problem.Some? then Done(Unprocessable(problem.value)) else Inserting(facts.primaryRecipient.value))];
      Note(ResolveRecipient(c, facts));
    }

    /** The body of the transaction: the three writes, all of them or, on a violated constraint, none. */
    method WriteReply(c: CallId, call: Call, messageId: MessageId, outboxId: OutboxId, now: Outbox.Time) returns (ok: bool)
      requires call.progress.Inserting? && ThreadExists(State(), call.thread)
      modifies this`threads, this`messages, this`outbox
      ensures ok == !Violates(old(State()), call.request, messageId, outboxId)
      ensures State() == if ok then Written(old(State()), c, call, messageId, outboxId, now) else old(State())
    {
      var beforeMessages := messages;
      var t, to := call.thread, call.progress.recipient;
      if messageId in messages { return false; }
      messages := messages[messageId := Message(t, call.subject, call.request.body, [to], Some(outboxId))];
      if outboxId in outbox || KeyTaken(State(), call.request.actor, call.request.key) {
        messages := beforeMessages;
        return false;
      }
      outbox := outbox[outboxId := Row(t, messageId, call.request.actor, call.request.key, c, FreshDelivery(to))];
      threads := threads[weigh(t) := threads[weigh(t)].(lastMessageAt := now)];
      ok := true;
    }

    /** The transaction: committed, rolled back by a constraint, or rolled back by the database. */
    method Transact(c: CallId, messageId: MessageId, outboxId: OutboxId, now: Outbox.Time, outcome: DbOutcome)
      returns (next: Progress)
      requires Valid() && c in calls && calls[c].progress.Inserting?
      modifies this
      ensures Valid() && run == old(run) + [Insert(c, messageId, outboxId, now, outcome)]
      ensures c in calls && calls[c] == if next.ReadingThread? then old(calls[c]).(attempt := old(calls[c]).attempt + 1, progress := next)
                                        else old(calls[c]).(progress := next)
      ensures next.ReadingThread? ==> old(calls[c]).attempt < 1
      ensures next.ReadingThread? || next.FindingWinner? || next.Done?
    {
      var call := calls[c];
      next := FindingWinner;
      if outcome.Deadlock? {
        next := if call.attempt < 1 then ReadingThread else Done(Raised(WriteConflict));
      } else if outcome.Failure? {
        next := Done(Raised(OtherFailure));
      } else if !ThreadExists(State(), call.thread) {
        next := Done(Raised(ForeignKey));
      } else {
        hide Violates, Written;
        var ok := WriteReply(c, call, messageId, outboxId, now);
        if ok {
          next := if outcome.Commit? then Done(Returned(outboxId, messageId, call.thread, Outbox.Queued))
                  else Done(Raised(ConnectionLost));
        }
      }
      calls := calls[c := if next.ReadingThread? then call.(attempt := call.attempt + 1, progress := next)
                          else call.(progress := next)];
      Note(Insert(c, messageId, outboxId, now, outcome));
    }

    /** The loser of the race looks for the winner's row. */
    method ResolveWinner(c: CallId) returns (result: Result)
      requires Valid() && c in calls && calls[c].progress.FindingWinner?
      modifies this
      ensures Valid() && old(run) <= run && |run| == |old(run)| + 1
      ensures calls == old(calls)[c := old(calls[c]).(progress := Done(result))]
    {
      hide ResolveExisting, Looks;
      var call := calls[c];
      var found := FindExistingForActor(call.request);
      var winner := LookedUp(call, found);
      result := if winner.Some? then winner.value else Raised(UniqueViolation);
      calls := calls[c := call.(progress := Done(result))];
      Note(FindWinner(c, found));
    }

    /** One action of another call or another writer. */
    method Other(c: CallId, a: Action)
      requires Valid() && c in calls && Caller(a) != Some(c)
      modifies this
      ensures Valid() && run == old(run) + [a]
      ensures c in calls && calls[c] == old(calls[c])
    {
      hide Step;
      OthersLeaveCall(State(), a, c);
      KeepsStep(State(), a);
      var next := Step(State(), a);
      threads, messages, outbox, calls := next.threads, next.messages, next.outbox, next.calls;
      Note(a);
    }

    method Interleave(c: CallId, script: seq<Action>)
      requires Valid() && c in calls
      modifies this
      ensures Valid() && old(run) <= run
      ensures c in calls && calls[c] == old(calls[c])
    {
      hide Valid;
      for i := 0 to |script|
        invariant Valid() && old(run) <= run
        invariant c in calls && calls[c] == old(calls[c])
      {
        if Caller(script[i]) != Some(c) {
          Other(c, script[i]);
        }
      }
    }

    /** One attempt; a deadlock in the first one starts the second, and last, over. */
    method AttemptQueueReply(c: CallId, weather: seq<Circumstances>) returns (result: Result)
      requires Valid() && c in calls && calls[c].progress.ReadingThread?
      requires calls[c].attempt <= 1 && |weather| == 2 - calls[c].attempt
      requires forall i :: 0 <= i < |weather| ==> |weather[i].others| == 5
      modifies this
      ensures Valid() && old(run) <= run
      ensures c in calls && calls[c].progress == Done(result) && calls[c].request == old(calls[c]).request
      decreases |weather|, 1
    {
      hide Valid;
      var now := weather[0];
      Interleave(c, now.others[0]);
      var thread := LoadThread(c);
      if thread.None? { return NotFound; }
      Interleave(c, now.others[1]);
      var existing := ShortCircuit(c);
      if existing.Some? { return existing.value; }
      Interleave(c, now.others[2]);
      var problem := Recipient(c, now.facts);
      if problem.Some? { return Unprocessable(problem.value); }
      result := StoreReply(c, weather);
    }

    /** The attempt from its transaction on. */
    method StoreReply(c: CallId, weather: seq<Circumstances>) returns (result: Result)
      requires Valid() && c in calls && calls[c].progress.Inserting?
      requires calls[c].attempt <= 1 && |weather| == 2 - calls[c].attempt
      requires forall i :: 0 <= i < |weather| ==> |weather[i].others| == 5
      modifies this
      ensures Valid() && old(run) <= run
      ensures c in calls && calls[c].progress == Done(result) && calls[c].request == old(calls[c]).request
      decreases |weather|, 0
    {
      hide Valid;
      var now := weather[0];
      Interleave(c, now.others[3]);
      var next := Transact(c, now.messageId, now.outboxId, now.now, now.outcome);
      if next.Done? {
        result := next.result;
      } else if next.ReadingThread? {
        result := AttemptQueueReply(c, weather[1..]);
      } else {
        Interleave(c, now.others[4]);
        result := ResolveWinner(c);
      }
    }

    /** What a result says about the tables: an answer names the one row of the call's actor and key, up to
        collation, which holds what was asked, in the spelling of the thread it gave unless the call
        inserted it; a refusal names a row of that key that does not; and any other end but a connection
        lost at the commit has inserted nothing. */
    ghost predicate Settled(c: CallId, result: Result)
      requires c in calls
      reads this
    {
      var call := calls[c];
      match result
      case Returned(o, m, t, _) =>
        && o in outbox && m in messages && outbox[o].emailMessageId == m && outbox[o].threadId == t
        && HoldsReply(State(), c, call, outbox[o], messages[m])
        && forall p :: p in outbox && Matches(weigh, outbox[p], call.request.actor, call.request.key) <==> p == o
      case KeyConflict(o) =>
        && o in outbox && outbox[o].emailMessageId in messages && outbox[o].insertedBy != c
        && Matches(weigh, outbox[o], call.request.actor, call.request.key)
        && !SameReply(outbox[o], messages[outbox[o].emailMessageId], call.request, call.subject)
      case Raised(error) =>
        !error.ForeignKey? && (!error.ConnectionLost? ==> forall o :: o in outbox ==> outbox[o].insertedBy != c)
      case _ => forall o :: o in outbox ==> outbox[o].insertedBy != c
    }

    /** The message of an answer: the body asked for, under the operator's own trimmed subject or, without
        one, the normalized subject of the thread. */
    ghost predicate Says(request: Request, m: MessageId)
      reads this
    {
      && m in messages && weigh(request.threadId) in threads && messages[m].body == request.body
      && IsSubjectFor(request, threads[weigh(request.threadId)].subject, messages[m].subject)
    }

    /** The whole call, with other calls and writers at its awaits. Whatever it ends with, some action of its
        met the cause of that. */
    method QueueReply(c: CallId, request: Request, weather: seq<Circumstances>) returns (result: Result)
      requires Valid() && c !in calls && |weather| == 2
      requires forall i :: 0 <= i < |weather| ==> |weather[i].others| == 5
      modifies this
      ensures Valid() && old(run) <= run
      ensures c in calls && calls[c].progress == Done(result) && calls[c].request == request && Settled(c, result)
      ensures result.Returned? ==> Says(request, result.emailMessageId)
      ensures Ended(origin, run, c, result)
    {
      hide Valid, Settled, Says, Ended;
      Submit(c, request);
      result := AttemptQueueReply(c, weather);
      EndsSettled(c, result);
      EndsForItsCause(c, result);
    }

    lemma EndsForItsCause(c: CallId, result: Result)
      requires Valid() && c in calls && calls[c].progress == Done(result)
      ensures Ended(origin, run, c, result)
      ensures result.Returned? ==> Says(calls[c].request, result.emailMessageId)
    {
      hide Ended, Exec, Initial, IsSubjectFor;
      EndsExactlyForItsCause(origin, run, c, result);
      if result.Returned? { AnswersSayWhatWasAsked(origin, run, c); }
    }

    lemma EndsSettled(c: CallId, result: Result)
      requires Valid() && c in calls && calls[c].progress == Done(result)
      ensures Settled(c, result)
    {
      hide EffectiveSubject, Exec, Initial;
      RunInv(origin, run);
      assert CallOk(State(), c);
      assert InsertersOk(State());
    }
  }
}
