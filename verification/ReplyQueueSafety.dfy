/** What every interleaving of `queueReply` calls keeps: one row and one message for each (actor, key),
    and one answer for all calls that return. */
module ReplyQueueSafety {
  import opened Options
  import opened ReplyQueueModel

  // ----- the inductive invariant -----

  /** Every row has its message, made with it; both belong to one existing thread. */
  predicate RowOk(s: System, o: OutboxId)
    requires o in s.outbox
  {
    var row := s.outbox[o];
    && row.emailMessageId in s.messages
    && s.messages[row.emailMessageId].source == Some(o)
    && s.messages[row.emailMessageId].threadId == row.threadId
    && IsStored(s, row.threadId)
  }

  /** The id is spelled as the thread it names is stored. */
  predicate IsStored(s: System, t: ThreadId) {
    ThreadExists(s, t) && s.threads[s.weigh(t)].id == t
  }

  /** Every message made by the queue belongs to the row it was made with. */
  predicate MessageOk(s: System, m: MessageId)
    requires m in s.messages
  {
    var message := s.messages[m];
    && ThreadExists(s, message.threadId)
    && (message.source.Some? ==> message.source.value in s.outbox && s.outbox[message.source.value].emailMessageId == m)
  }

  predicate SameIndexEntry(weigh: string -> Weight, a: Row, b: Row) {
    Matches(weigh, b, a.actor, a.key)
  }

  predicate KeysUnique(s: System) {
    forall o, p :: o in s.outbox && p in s.outbox && SameIndexEntry(s.weigh, s.outbox[o], s.outbox[p]) ==> o == p
  }

  predicate ThreadsOk(s: System) {
    forall t :: t in s.threads ==> s.weigh(s.threads[t].id) == t
  }

  /** The row was inserted by a call for its own actor and key, which then answered with it, unless the
      answer of the database was lost. */
  predicate InserterOk(s: System, o: OutboxId)
    requires o in s.outbox
  {
    var row := s.outbox[o];
    && row.insertedBy in s.calls
    && row.actor == s.calls[row.insertedBy].request.actor && row.key == s.calls[row.insertedBy].request.key
    && s.calls[row.insertedBy].progress.Done?
    && (s.calls[row.insertedBy].progress.result == Raised(ConnectionLost)
        || (s.calls[row.insertedBy].progress.result.Returned? && s.calls[row.insertedBy].progress.result.outboxId == o))
  }

  /** The row holds the call's reply, in the thread it meant: in the very spelling it gave, unless the call
      inserted the row itself. */
  predicate HoldsReply(s: System, c: CallId, call: Call, row: Row, message: Message) {
    && message.body == call.request.body && message.subject == call.subject
    && s.weigh(row.threadId) == s.weigh(call.request.threadId)
    && (row.insertedBy == c || row.threadId == call.request.threadId)
  }

  /** An answer names a row of the caller's own key that holds what the caller sent; a refusal names one
      that holds something else, or the same under another spelling of the thread. */
  predicate AnswerOk(s: System, c: CallId, call: Call) {
    match call.progress
    case Done(Returned(o, m, t, _)) =>
      && o in s.outbox && m in s.messages
      && Matches(s.weigh, s.outbox[o], call.request.actor, call.request.key)
      && s.outbox[o].emailMessageId == m && s.outbox[o].threadId == t
      && HoldsReply(s, c, call, s.outbox[o], s.messages[m])
    case Done(KeyConflict(o)) =>
      && o in s.outbox && s.outbox[o].emailMessageId in s.messages
      && Matches(s.weigh, s.outbox[o], call.request.actor, call.request.key)
      && !SameReply(s.outbox[o], s.messages[s.outbox[o].emailMessageId], call.request, call.subject)
    case _ => true
  }

  /** Once the thread has been read, the call works with the stored id and the subject of that thread. */
  predicate SubjectOk(s: System, call: Call) {
    match call.progress
    case ReadingThread => true
    case Stopped => true
    case Done(NotFound) => true
    case Done(Raised(ForeignKey)) => false
    case _ =>
      var t := s.weigh(call.request.threadId);
      && t in s.threads
      && call.thread == s.threads[t].id && s.weigh(call.thread) == t
      && call.subject == EffectiveSubject(call.request, s.threads[t].subject)
  }

  predicate CallFits(s: System, c: CallId, call: Call) {
    call.attempt <= 1 && AnswerOk(s, c, call) && SubjectOk(s, call)
  }

  predicate CallOk(s: System, c: CallId)
    requires c in s.calls
  {
    CallFits(s, c, s.calls[c])
  }

  predicate RowsOk(s: System) {
    forall o :: o in s.outbox ==> RowOk(s, o)
  }

  predicate MessagesOk(s: System) {
    forall m :: m in s.messages ==> MessageOk(s, m)
  }

  predicate InsertersOk(s: System) {
    forall o :: o in s.outbox ==> InserterOk(s, o)
  }

  predicate CallsOk(s: System) {
    forall c :: c in s.calls ==> CallOk(s, c)
  }

  predicate Inv(s: System) {
    ThreadsOk(s) && RowsOk(s) && MessagesOk(s) && KeysUnique(s) && InsertersOk(s) && CallsOk(s)
  }

  // ----- nothing a call was told changes afterwards -----

  predicate SameIdentity(a: Row, b: Row) {
    a.(delivery := b.delivery) == b
  }

  predicate SameContent(a: Message, b: Message) {
    a.(toAddresses := b.toAddresses) == b
  }

  predicate SameThread(a: Thread, b: Thread) {
    a.(lastMessageAt := b.lastMessageAt) == b
  }

  ghost predicate Keeps(s: System, t: System) {
    && (forall h :: h in s.threads ==> h in t.threads && SameThread(s.threads[h], t.threads[h]))
    && t.weigh == s.weigh
    && (forall o :: o in s.outbox ==> o in t.outbox && SameIdentity(s.outbox[o], t.outbox[o]))
    && (forall m :: m in s.messages ==> m in t.messages && SameContent(s.messages[m], t.messages[m]))
    && (forall c :: c in s.calls ==> c in t.calls && t.calls[c].request == s.calls[c].request)
    && (forall c :: c in s.calls && s.calls[c].progress.Done? ==> t.calls[c] == s.calls[c])
  }

  lemma CallFitsStays(s: System, t: System, c: CallId, call: Call)
    requires CallFits(s, c, call) && Keeps(s, t)
    ensures CallFits(t, c, call)
  {
    hide EffectiveSubject;
  }

  /** Nothing moves a finished call, and nothing changes what a call was asked. */
  predicate MayMove(s: System, c: CallId, call: Call) {
    c in s.calls ==> call.request == s.calls[c].request && (s.calls[c].progress.Done? ==> call == s.calls[c])
  }

  /** A step of a call that leaves the tables alone. */
  lemma GoKeeps(s: System, c: CallId, call: Call)
    requires MayMove(s, c, call)
    ensures Keeps(s, Go(s, c, call))
  {
  }

  lemma CommitKeeps(s: System, c: CallId, call: Call, m: MessageId, o: OutboxId, now: Outbox.Time, done: Call)
    requires c in s.calls && s.calls[c] == call && call.progress.Inserting? && done.request == call.request
    requires ThreadExists(s, call.thread) && !Violates(s, call.request, m, o)
    ensures Keeps(s, Go(Written(s, c, call, m, o, now), c, done))
  {
    hide KeyTaken, FreshDelivery;
  }

  lemma QueriesMove(s: System, c: CallId, a: Action)
    requires c in s.calls
    ensures MayMove(s, c, AfterQuery(s, s.calls[c], a))
  {
    hide EffectiveSubject, Looks, ResolveExisting, RecipientProblem;
  }

  lemma CallKeeps(s: System, c: CallId, a: Action)
    requires c in s.calls
    ensures Keeps(s, CallStep(s, c, a))
  {
    hide Keeps, Violates, Written, AfterQuery;
    var call := s.calls[c];
    if !a.Insert? {
      QueriesMove(s, c, a);
      GoKeeps(s, c, AfterQuery(s, call, a));
    } else if call.progress.Inserting? {
      var done := AfterInsert(s, call, a.messageId, a.outboxId, a.outcome);
      if Commits(s, call, a.messageId, a.outboxId, a.outcome) {
        CommitKeeps(s, c, call, a.messageId, a.outboxId, a.now, done);
      } else {
        GoKeeps(s, c, done);
      }
    } else {
      StayKeeps(s);
    }
  }

  lemma StayKeeps(s: System)
    ensures Keeps(s, s)
  {
  }

  lemma WorkerKeeps(s: System, o: OutboxId, delivery: Outbox.OutboxRow, to: seq<Outbox.Address>)
    requires o in s.outbox && s.outbox[o].emailMessageId in s.messages
    ensures Keeps(s, WorkerWritesStep(s, o, delivery, to))
  {
  }

  lemma OtherKeeps(s: System, a: Action)
    ensures Keeps(s, OtherStep(s, a))
  {
    hide WorkerWritesStep;
    if a.WorkerWrites? && a.o in s.outbox && s.outbox[a.o].emailMessageId in s.messages {
      WorkerKeeps(s, a.o, a.delivery, a.to);
    }
  }

  /** No step takes back a row, a message's content or a finished call. */
  lemma KeepsStep(s: System, a: Action)
    ensures Keeps(s, Step(s, a))
  {
    hide Keeps, CallStep, OtherStep;
    if a.Submit? {
      if a.c !in s.calls { GoKeeps(s, a.c, Call(a.request, 0, "", [], ReadingThread)); } else { StayKeeps(s); }
    } else if Caller(a).None? {
      OtherKeeps(s, a);
    } else if Caller(a).value in s.calls {
      CallKeeps(s, Caller(a).value, a);
    } else {
      StayKeeps(s);
    }
  }

  // ----- the invariant, one kind of step at a time -----

  /** When a step keeps what was there and moves at most call `c`, the other calls are as right as before. */
  lemma CallsStay(s: System, t: System, c: CallId)
    requires CallsOk(s) && Keeps(s, t)
    requires forall d :: d in t.calls && d != c ==> d in s.calls && t.calls[d] == s.calls[d]
    requires c in t.calls ==> CallFits(t, c, t.calls[c])
    ensures CallsOk(t)
  {
    forall d | d in t.calls ensures CallOk(t, d) {
      if d != c {
        assert CallOk(s, d);
        CallFitsStays(s, t, d, s.calls[d]);
      }
    }
  }

  /** A step that moves one call and writes no table. */
  lemma GoKeepsInv(s: System, c: CallId, call: Call)
    requires Inv(s) && CallFits(s, c, call) && MayMove(s, c, call)
    ensures Inv(Go(s, c, call))
  {
    var t := Go(s, c, call);
    GoKeeps(s, c, call);
    CallFitsStays(s, t, c, call);
    hide Keeps, CallFits;
    CallsStay(s, t, c);
    forall o | o in t.outbox ensures RowOk(t, o) && InserterOk(t, o) {
      assert RowOk(s, o) && InserterOk(s, o);
    }
    forall m | m in t.messages ensures MessageOk(t, m) {
      assert MessageOk(s, m);
    }
  }

  predicate Finishes(call: Call, m: MessageId, o: OutboxId, done: Call) {
    || done == call.(progress := Done(Returned(o, m, call.thread, Outbox.Queued)))
    || done == call.(progress := Done(Raised(ConnectionLost)))
  }

  lemma CommitKeepsCalls(s: System, c: CallId, call: Call, m: MessageId, o: OutboxId, now: Outbox.Time, done: Call)
    requires CallsOk(s) && c in s.calls && s.calls[c] == call && call.progress.Inserting?
    requires ThreadExists(s, call.thread) && !Violates(s, call.request, m, o) && Finishes(call, m, o, done)
    ensures CallsOk(Go(Written(s, c, call, m, o, now), c, done))
  {
    hide KeyTaken, EffectiveSubject, FreshDelivery, Keeps;
    assert CallOk(s, c);
    CommitKeeps(s, c, call, m, o, now, done);
    CallsStay(s, Go(Written(s, c, call, m, o, now), c, done), c);
  }

  lemma CommitKeepsKeys(s: System, c: CallId, call: Call, m: MessageId, o: OutboxId, now: Outbox.Time)
    requires ThreadsOk(s) && KeysUnique(s) && call.progress.Inserting?
    requires ThreadExists(s, call.thread) && !Violates(s, call.request, m, o)
    ensures ThreadsOk(Written(s, c, call, m, o, now)) && KeysUnique(Written(s, c, call, m, o, now))
  {
  }

  lemma CommitKeepsRows(s: System, c: CallId, call: Call, m: MessageId, o: OutboxId, now: Outbox.Time, done: Call)
    requires RowsOk(s) && MessagesOk(s) && InsertersOk(s)
    requires c in s.calls && s.calls[c] == call && call.progress.Inserting?
    requires ThreadExists(s, call.thread) && !Violates(s, call.request, m, o) && Finishes(call, m, o, done)
    requires IsStored(s, call.thread)
    ensures var t := Go(Written(s, c, call, m, o, now), c, done); RowsOk(t) && MessagesOk(t) && InsertersOk(t)
  {
    hide KeyTaken, FreshDelivery;
    var t := Go(Written(s, c, call, m, o, now), c, done);
    forall p | p in t.outbox ensures RowOk(t, p) && InserterOk(t, p) {
      if p != o { assert RowOk(s, p) && InserterOk(s, p); }
    }
    forall n | n in t.messages ensures MessageOk(t, n) {
      if n != m { assert MessageOk(s, n); }
    }
  }

  lemma CommitKeepsInv(s: System, c: CallId, call: Call, m: MessageId, o: OutboxId, now: Outbox.Time, done: Call)
    requires Inv(s) && c in s.calls && s.calls[c] == call && call.progress.Inserting?
    requires ThreadExists(s, call.thread) && !Violates(s, call.request, m, o) && Finishes(call, m, o, done)
    ensures Inv(Go(Written(s, c, call, m, o, now), c, done))
  {
    assert IsStored(s, call.thread) by { assert CallOk(s, c); }
    hide RowsOk, MessagesOk, InsertersOk, CallsOk, Violates, Written, Finishes;
    CommitKeepsCalls(s, c, call, m, o, now, done);
    CommitKeepsKeys(s, c, call, m, o, now);
    CommitKeepsRows(s, c, call, m, o, now, done);
  }

  lemma InsertKeepsInv(s: System, c: CallId, m: MessageId, o: OutboxId, now: Outbox.Time, outcome: DbOutcome)
    requires Inv(s) && c in s.calls && s.calls[c].progress.Inserting?
    ensures Inv(InsertStep(s, c, s.calls[c], m, o, now, outcome))
  {
    hide EffectiveSubject, Violates, Written;
    var call := s.calls[c];
    var done := AfterInsert(s, call, m, o, outcome);
    assert CallOk(s, c);
    hide Inv;
    if Commits(s, call, m, o, outcome) {
      CommitKeepsInv(s, c, call, m, o, now, done);
    } else {
      GoKeepsInv(s, c, done);
    }
  }

  lemma QueriesFit(s: System, c: CallId, a: Action)
    requires Inv(s) && c in s.calls
    ensures CallFits(s, c, AfterQuery(s, s.calls[c], a))
  {
    hide EffectiveSubject, RecipientProblem, KeyTaken, MessagesOk, KeysUnique, InsertersOk;
    assert CallOk(s, c);
  }

  lemma CallKeepsInv(s: System, c: CallId, a: Action)
    requires Inv(s) && c in s.calls
    ensures Inv(CallStep(s, c, a))
  {
    hide Inv, AfterQuery, InsertStep, CallFits, MayMove;
    if !a.Insert? {
      QueriesMove(s, c, a);
      QueriesFit(s, c, a);
      GoKeepsInv(s, c, AfterQuery(s, s.calls[c], a));
    } else if s.calls[c].progress.Inserting? {
      InsertKeepsInv(s, c, a.messageId, a.outboxId, a.now, a.outcome);
    }
  }

  lemma WorkerKeepsInv(s: System, o: OutboxId, delivery: Outbox.OutboxRow, to: seq<Outbox.Address>)
    requires Inv(s) && o in s.outbox && s.outbox[o].emailMessageId in s.messages
    ensures var t := WorkerWritesStep(s, o, delivery, to); RowsOk(t) && MessagesOk(t) && InsertersOk(t) && KeysUnique(t)
  {
    hide CallsOk;
    var t := WorkerWritesStep(s, o, delivery, to);
    assert RowOk(s, o);
    forall p | p in t.outbox ensures RowOk(t, p) && InserterOk(t, p) {
      assert RowOk(s, p) && InserterOk(s, p);
    }
    forall m | m in t.messages ensures MessageOk(t, m) {
      assert MessageOk(s, m);
    }
    assert KeysUnique(t) by {
      hide RowOk, InserterOk, MessageOk;
    }
  }

  lemma ArrivalKeepsInv(s: System, a: Action)
    requires Inv(s) && !a.WorkerWrites?
    ensures var t := OtherStep(s, a); RowsOk(t) && MessagesOk(t) && InsertersOk(t) && KeysUnique(t)
  {
    hide CallsOk;
    var t := OtherStep(s, a);
    forall m | m in t.messages ensures MessageOk(t, m) {
      if m in s.messages { assert MessageOk(s, m); }
    }
    forall o | o in t.outbox ensures RowOk(t, o) && InserterOk(t, o) {
      assert RowOk(s, o) && InserterOk(s, o);
    }
  }

  lemma OtherKeepsInv(s: System, a: Action)
    requires Inv(s)
    ensures Inv(OtherStep(s, a))
  {
    hide RowsOk, MessagesOk, InsertersOk, KeysUnique, Keeps, CallFits;
    OtherKeeps(s, a);
    var t := OtherStep(s, a);
    if a.WorkerWrites? && a.o in s.outbox && s.outbox[a.o].emailMessageId in s.messages {
      WorkerKeepsInv(s, a.o, a.delivery, a.to);
      assert t.calls == s.calls;
    } else if !a.WorkerWrites? {
      ArrivalKeepsInv(s, a);
    }
    SameCalls(s, t);
  }

  lemma SameCalls(s: System, t: System)
    requires CallsOk(s) && Keeps(s, t) && t.calls == s.calls
    ensures CallsOk(t)
  {
    hide Keeps;
    forall d | d in t.calls ensures CallOk(t, d) {
      assert CallOk(s, d);
      CallFitsStays(s, t, d, s.calls[d]);
    }
  }

  lemma {:induction false} StepInv(s: System, a: Action)
    requires Inv(s)
    ensures Inv(Step(s, a))
  {
    hide Inv, OtherStep, CallStep, EffectiveSubject;
    if a.Submit? {
      if a.c !in s.calls { GoKeepsInv(s, a.c, Call(a.request, 0, "", [], ReadingThread)); }
    } else if Caller(a).None? {
      OtherKeepsInv(s, a);
    } else if Caller(a).value in s.calls {
      CallKeepsInv(s, Caller(a).value, a);
    }
  }

  lemma {:induction false} RunInv(s: System, run: seq<Action>)
    requires Initial(s)
    ensures Inv(Exec(s, run))
    decreases |run|
  {
    if run != [] {
      RunInv(s, run[..|run| - 1]);
      StepInv(Exec(s, run[..|run| - 1]), run[|run| - 1]);
    }
  }
}
