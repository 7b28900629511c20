/** How every `queueReply` call ends, and why: each end has its cause in the run, and each cause its end. */
module ReplyQueueEnds {
  import opened JsText
  import opened Options
  import opened ReplyQueueModel
  import opened ReplyQueueSafety
  import opened ReplyQueueTheorems
  import opened ReplyQueueContents
  import Outbox = OutboxModel

  // ----- what ends a call -----

  /** The row found under the call's actor and key, up to collation. */
  predicate Finds(s: System, call: Call, a: Action, c: CallId, o: OutboxId) {
    && ((a == FindExisting(c, Some(o)) && call.progress.LookingUp?) || (a == FindWinner(c, Some(o)) && call.progress.FindingWinner?))
    && o in s.outbox && s.outbox[o].actor == call.request.actor && s.weigh(s.outbox[o].key) == s.weigh(call.request.key)
    && s.outbox[o].emailMessageId in s.messages
  }

  /** What the row sends is what the call asks for: body, effective subject, and thread by spelling. */
  predicate AsksForIt(s: System, call: Call, o: OutboxId)
    requires o in s.outbox && s.outbox[o].emailMessageId in s.messages
  {
    var row := s.outbox[o];
    var message := s.messages[row.emailMessageId];
    row.threadId == call.request.threadId && message.body == call.request.body && message.subject == call.subject
  }

  predicate NoRowOfKey(s: System, request: Request) {
    forall o :: o in s.outbox ==> !(s.outbox[o].actor == request.actor && s.weigh(s.outbox[o].key) == s.weigh(request.key))
  }

  /** The transaction of call `c` meets its thread, free ids and no row of its key. */
  predicate Unhindered(s: System, call: Call, a: Action) {
    && a.Insert? && call.progress.Inserting? && s.weigh(call.thread) in s.threads
    && a.messageId !in s.messages && a.outboxId !in s.outbox && NoRowOfKey(s, call.request)
  }

  predicate ProblemIs(facts: Outbox.Facts, reason: string) {
    || (facts.mailboxProblem.Some? && reason == "Reply mailbox is unavailable (" + facts.mailboxProblem.value + ").")
    || (&& facts.mailboxProblem.None? && !facts.hasCustomer
        && reason == "This thread has no attributed customer; no authoritative recipient is available.")
    || (&& facts.mailboxProblem.None? && facts.hasCustomer && facts.primaryRecipient.None?
        && reason == "No active primary email address is on file for this customer.")
  }

  /** Action `a` ends call `c` with this result. */
  predicate Ends(s: System, a: Action, c: CallId, result: Result) {
    c in s.calls && Caller(a) == Some(c) && !a.Submit? &&
    var call := s.calls[c];
    match result
    case NotFound => a.ReadThread? && call.progress.ReadingThread? && s.weigh(call.request.threadId) !in s.threads
    case Unprocessable(reason) => a.ResolveRecipient? && call.progress.Resolving? && ProblemIs(a.facts, reason)
    case KeyConflict(o) => Finds(s, call, a, c, o) && !AsksForIt(s, call, o)
    case Returned(o, m, t, status) =>
      || (Finds(s, call, a, c, o) && AsksForIt(s, call, o)
          && m == s.outbox[o].emailMessageId && t == s.outbox[o].threadId && status == s.outbox[o].delivery.status)
      || (Unhindered(s, call, a) && a.outcome.Commit? && o == a.outboxId && m == a.messageId && t == call.thread && status.Queued?)
    case Raised(WriteConflict) => a.Insert? && call.progress.Inserting? && a.outcome.Deadlock? && call.attempt >= 1
    case Raised(OtherFailure) => a.Insert? && call.progress.Inserting? && a.outcome.Failure?
    case Raised(ConnectionLost) => Unhindered(s, call, a) && a.outcome.CommitUnheard?
    case Raised(UniqueViolation) => a == FindWinner(c, None) && call.progress.FindingWinner? && NoRowOfKey(s, call.request)
    case Raised(ForeignKey) =>
      && a.Insert? && call.progress.Inserting? && (a.outcome.Commit? || a.outcome.CommitUnheard?)
      && s.weigh(call.thread) !in s.threads
  }

  predicate Ended(origin: System, run: seq<Action>, c: CallId, result: Result) {
    exists k :: 0 <= k < |run| && Ends(Exec(origin, run[..k]), run[k], c, result)
  }

  lemma EndedGrows(origin: System, run: seq<Action>, c: CallId, result: Result)
    requires run != []
    ensures var init, a := run[..|run| - 1], run[|run| - 1];
      Ended(origin, run, c, result) <==> Ended(origin, init, c, result) || Ends(Exec(origin, init), a, c, result)
  {
    hide Ends, Exec;
    var init, n := run[..|run| - 1], |run| - 1;
    assert forall k :: 0 <= k <= n ==> init[..k] == run[..k];
    if k :| 0 <= k < n && Ends(Exec(origin, run[..k]), run[k], c, result) {
      assert Ends(Exec(origin, init[..k]), init[k], c, result);
    }
    if k :| 0 <= k < n && Ends(Exec(origin, init[..k]), init[k], c, result) {
      assert Ends(Exec(origin, run[..k]), run[k], c, result);
    }
  }

  lemma ProblemsAre(facts: Outbox.Facts, reason: string)
    ensures RecipientProblem(facts) == Some(reason) <==> ProblemIs(facts, reason)
  {
  }

  lemma RecipientEnds(s: System, a: Action, c: CallId, result: Result)
    requires c in s.calls && a.ResolveRecipient? && a.c == c
    ensures AfterQuery(s, s.calls[c], a).progress == Done(result)
       <==> s.calls[c].progress == Done(result) || Ends(s, a, c, result)
  {
    hide Looks, RecipientProblem, ProblemIs;
    var problem := RecipientProblem(a.facts);
    if problem.Some? { ProblemsAre(a.facts, problem.value); }
    if result.Unprocessable? { ProblemsAre(a.facts, result.reason); }
  }

  lemma LookupEnds(s: System, a: Action, c: CallId, result: Result)
    requires c in s.calls && (a.FindExisting? || a.FindWinner?) && a.c == c
    ensures AfterQuery(s, s.calls[c], a).progress == Done(result)
       <==> s.calls[c].progress == Done(result) || Ends(s, a, c, result)
  {
    hide RecipientProblem, ProblemIs;
  }

  lemma QueryEnds(s: System, a: Action, c: CallId, result: Result)
    requires c in s.calls && Caller(a) == Some(c) && (a.ReadThread? || a.Stop?)
    ensures AfterQuery(s, s.calls[c], a).progress == Done(result)
       <==> s.calls[c].progress == Done(result) || Ends(s, a, c, result)
  {
    hide EffectiveSubject, Looks, RecipientProblem, ProblemIs;
  }

  lemma InsertEnds(s: System, a: Action, c: CallId, result: Result)
    requires c in s.calls && a.Insert? && a.c == c && s.calls[c].progress.Inserting?
    ensures AfterInsert(s, s.calls[c], a.messageId, a.outboxId, a.outcome).progress == Done(result) <==> Ends(s, a, c, result)
  {
  }

  lemma StepEnds(s: System, a: Action, c: CallId, result: Result)
    ensures var t := Step(s, a);
      c in t.calls && t.calls[c].progress == Done(result)
      <==> (c in s.calls && s.calls[c].progress == Done(result)) || Ends(s, a, c, result)
  {
    hide AfterQuery, AfterInsert, Written, EffectiveSubject, Commits;
    if Caller(a) != Some(c) {
      OthersLeaveCall(s, a, c);
    } else if c in s.calls && a.Insert? && s.calls[c].progress.Inserting? {
      InsertEnds(s, a, c, result);
    } else if c in s.calls && a.ResolveRecipient? {
      RecipientEnds(s, a, c, result);
    } else if c in s.calls && (a.FindExisting? || a.FindWinner?) {
      LookupEnds(s, a, c, result);
    } else if c in s.calls && (a.ReadThread? || a.Stop?) {
      QueryEnds(s, a, c, result);
    }
  }

  /** In every run a call has ended with a result exactly when some action of its met the cause of it. */
  lemma {:induction false} EndsExactlyForItsCause(origin: System, run: seq<Action>, c: CallId, result: Result)
    requires Initial(origin)
    ensures var s := Exec(origin, run);
      c in s.calls && s.calls[c].progress == Done(result) <==> Ended(origin, run, c, result)
    decreases |run|
  {
    if run != [] {
      EndsExactlyForItsCause(origin, run[..|run| - 1], c, result);
      EndedGrows(origin, run, c, result);
      hide Step, Ended, Ends;
      StepEnds(Exec(origin, run[..|run| - 1]), run[|run| - 1], c, result);
    }
  }

  // ----- starting over -----

  /** A call's first attempt deadlocks in its transaction. */
  predicate FirstDeadlock(s: System, a: Action, c: CallId) {
    && a.Insert? && a.c == c && c in s.calls && s.calls[c].progress.Inserting?
    && a.outcome.Deadlock? && s.calls[c].attempt == 0
  }

  /** A call goes back to its start exactly for its first deadlock, with every table as it was. */
  lemma {:induction false} StartsOverExactlyOnFirstDeadlock(s: System, a: Action, c: CallId)
    requires c in s.calls && !s.calls[c].progress.ReadingThread?
    ensures Step(s, a).calls[c].progress.ReadingThread? <==> FirstDeadlock(s, a, c)
    ensures FirstDeadlock(s, a, c) ==>
      Step(s, a) == s.(calls := s.calls[c := s.calls[c].(attempt := 1, progress := ReadingThread)])
  {
    hide EffectiveSubject, Looks, RecipientProblem, Written, Violates;
    if Caller(a) != Some(c) { OthersLeaveCall(s, a, c); }
  }

  // ----- where a reply goes -----

  /** The call found a usable mailbox, and a customer whose primary address is `to`. */
  predicate Resolves(s: System, a: Action, c: CallId, to: Outbox.Address) {
    && a.ResolveRecipient? && a.c == c && c in s.calls && s.calls[c].progress.Resolving?
    && a.facts.mailboxProblem.None? && a.facts.hasCustomer && a.facts.primaryRecipient == Some(to)
  }

  predicate Resolved(origin: System, run: seq<Action>, c: CallId, to: Outbox.Address) {
    exists k :: 0 <= k < |run| && Resolves(Exec(origin, run[..k]), run[k], c, to)
  }

  lemma ResolvedGrows(origin: System, run: seq<Action>, c: CallId, to: Outbox.Address)
    requires run != []
    ensures Resolved(origin, run[..|run| - 1], c, to) || Resolves(Exec(origin, run[..|run| - 1]), run[|run| - 1], c, to)
        ==> Resolved(origin, run, c, to)
  {
    hide Resolves, Exec;
    var init := run[..|run| - 1];
    if k :| 0 <= k < |init| && Resolves(Exec(origin, init[..k]), init[k], c, to) {
      assert init[..k] == run[..k];
      assert Resolves(Exec(origin, run[..k]), run[k], c, to);
    }
  }

  lemma StepResolves(s: System, a: Action, c: CallId)
    requires c in Step(s, a).calls && Step(s, a).calls[c].progress.Inserting?
    ensures var to := Step(s, a).calls[c].progress.recipient;
      (c in s.calls && s.calls[c].progress == Inserting(to)) || Resolves(s, a, c, to)
  {
    hide EffectiveSubject, Looks, Written, Violates;
    if Caller(a) != Some(c) { OthersLeaveCall(s, a, c); }
  }

  lemma {:induction false} InsertingWasResolved(origin: System, run: seq<Action>, c: CallId)
    requires Initial(origin) && c in Exec(origin, run).calls && Exec(origin, run).calls[c].progress.Inserting?
    ensures Resolved(origin, run, c, Exec(origin, run).calls[c].progress.recipient)
    decreases |run|
  {
    if run != [] {
      var init := run[..|run| - 1];
      var to := Exec(origin, run).calls[c].progress.recipient;
      StepResolves(Exec(origin, init), run[|run| - 1], c);
      ResolvedGrows(origin, run, c, to);
      if c in Exec(origin, init).calls && Exec(origin, init).calls[c].progress.Inserting? { InsertingWasResolved(origin, init, c); }
    }
  }

  /** A row is inserted for the primary address that its call has resolved, its message goes there, and its
      thread's activity moves to the time of the insertion. */
  lemma {:induction false} InsertedGoesToResolvedAddress(origin: System, run: seq<Action>, a: Action, o: OutboxId)
    requires Initial(origin) && o !in Exec(origin, run).outbox && o in Step(Exec(origin, run), a).outbox
    ensures var t := Step(Exec(origin, run), a);
      && t.outbox[o].emailMessageId in t.messages
      && a.Insert? && t.weigh(t.outbox[o].threadId) in t.threads
      && t.threads[t.weigh(t.outbox[o].threadId)].lastMessageAt == a.now
      && t.messages[t.outbox[o].emailMessageId].toAddresses == [t.outbox[o].delivery.recipient]
      && Resolved(origin, run, t.outbox[o].insertedBy, t.outbox[o].delivery.recipient)
  {
    var s := Exec(origin, run);
    RunInv(origin, run);
    NewRow(s, a, o);
    InsertingWasResolved(origin, run, a.c);
    hide Exec, Resolved, Inv, Initial;
    InsertedRowIsFresh(s, a, o);
  }
}
