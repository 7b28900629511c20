/** The promises of `queueReply` over every run: idempotency for each actor and key up to collation, no
    answer taken back, and a bounded number of steps for every call. */
module ReplyQueueTheorems {
  import opened JsText
  import opened Options
  import opened ReplyQueueModel
  import opened ReplyQueueSafety

  // ----- one reply for each (actor, key) -----

  lemma {:induction false} OneRowPerKey(origin: System, run: seq<Action>, o: OutboxId, p: OutboxId)
    requires Initial(origin) && o in Exec(origin, run).outbox && p in Exec(origin, run).outbox
    requires var s := Exec(origin, run); Matches(s.weigh, s.outbox[p], s.outbox[o].actor, s.outbox[o].key)
    ensures o == p
  {
    RunInv(origin, run);
  }

  /** The message was made by a call for this actor and key, up to collation. */
  predicate MadeFor(s: System, m: MessageId, actor: ActorId, key: Key) {
    && m in s.messages && s.messages[m].source.Some? && s.messages[m].source.value in s.outbox
    && Matches(s.weigh, s.outbox[s.messages[m].source.value], actor, key)
  }

  /** A call that loses the race leaves no message behind. */
  lemma OneMessagePerKey(origin: System, run: seq<Action>, m: MessageId, n: MessageId, actor: ActorId, key: Key)
    requires Initial(origin)
    requires MadeFor(Exec(origin, run), m, actor, key) && MadeFor(Exec(origin, run), n, actor, key)
    ensures m == n
  {
    var s := Exec(origin, run);
    RunInv(origin, run);
    assert MessageOk(s, m) && MessageOk(s, n);
  }

  /** The same actor, and keys that the index cannot tell apart. */
  predicate SameKey(s: System, c: Call, d: Call) {
    c.request.actor == d.request.actor && s.weigh(c.request.key) == s.weigh(d.request.key)
  }

  predicate Answered(call: Call) {
    call.progress.Done? && call.progress.result.Returned?
  }

  predicate Refused(call: Call) {
    call.progress.Done? && call.progress.result.KeyConflict?
  }

  predicate SameIds(r: Result, q: Result)
    requires r.Returned? && q.Returned?
  {
    r.outboxId == q.outboxId && r.emailMessageId == q.emailMessageId && r.threadId == q.threadId
  }

  /** Calls that return share their row, and their message, exactly when their actor is one and their keys
      collate as equal; then all their ids are the same, and they asked for the same body and effective
      subject in the same thread. */
  lemma {:induction false} OneAnswerPerKey(origin: System, run: seq<Action>, c: CallId, d: CallId)
    requires Initial(origin) && c in Exec(origin, run).calls && d in Exec(origin, run).calls
    requires Answered(Exec(origin, run).calls[c]) && Answered(Exec(origin, run).calls[d])
    ensures var s := Exec(origin, run); var (a, b) := (s.calls[c], s.calls[d]);
      && (SameKey(s, a, b) <==> a.progress.result.outboxId == b.progress.result.outboxId)
      && (SameKey(s, a, b) <==> a.progress.result.emailMessageId == b.progress.result.emailMessageId)
      && (SameKey(s, a, b) ==>
            && SameIds(a.progress.result, b.progress.result)
            && a.request.body == b.request.body && a.subject == b.subject
            && s.weigh(a.request.threadId) == s.weigh(b.request.threadId))
  {
    hide EffectiveSubject, Exec, Initial, SubjectOk;
    var s := Exec(origin, run);
    RunInv(origin, run);
    assert CallOk(s, c) && CallOk(s, d);
    assert RowOk(s, s.calls[c].progress.result.outboxId) && RowOk(s, s.calls[d].progress.result.outboxId);
  }

  /** The call inserted row `o` itself. */
  predicate Inserted(s: System, d: CallId, o: OutboxId)
    requires o in s.outbox
  {
    s.outbox[o].insertedBy == d
  }

  /** Next to a call that returned, another one of its actor and key, up to collation, returns exactly when
      it inserted the row or asks for the same body and effective subject in the thread spelled as it is
      stored; any other is refused. */
  lemma {:induction false} ReturnsOnlySameReply(origin: System, run: seq<Action>, c: CallId, d: CallId)
    requires Initial(origin) && c in Exec(origin, run).calls && d in Exec(origin, run).calls
    requires var s := Exec(origin, run);
      SameKey(s, s.calls[c], s.calls[d]) && Answered(s.calls[c]) && (Answered(s.calls[d]) || Refused(s.calls[d]))
    ensures var s := Exec(origin, run); var (a, b) := (s.calls[c], s.calls[d]);
      && a.progress.result.outboxId in s.outbox
      && (Answered(b) <==>
            || Inserted(s, d, a.progress.result.outboxId)
            || (b.request.threadId == a.progress.result.threadId && b.request.body == a.request.body && b.subject == a.subject))
  {
    hide EffectiveSubject, Exec, Initial, SubjectOk;
    var s := Exec(origin, run);
    RunInv(origin, run);
    assert CallOk(s, c) && CallOk(s, d);
    var o := s.calls[c].progress.result.outboxId;
    assert InserterOk(s, o);
  }

  /** Of two identical requests the second agrees with the first exactly when the request spells the thread
      id as it is stored, which no run changes: the subject derived for it cannot drift, but the spelling
      is compared. */
  lemma {:induction false} IdenticalRequestsAgree(origin: System, run: seq<Action>, c: CallId, d: CallId)
    requires Initial(origin) && c in Exec(origin, run).calls && d in Exec(origin, run).calls && c != d
    requires var s := Exec(origin, run);
      && s.calls[c].request == s.calls[d].request
      && Answered(s.calls[c]) && (Answered(s.calls[d]) || Refused(s.calls[d]))
    ensures var s := Exec(origin, run); var (a, b) := (s.calls[c], s.calls[d]);
      && (Answered(b) <==> IsStored(s, a.request.threadId))
      && (Answered(b) ==> SameIds(a.progress.result, b.progress.result))
  {
    hide EffectiveSubject, Exec, Initial;
    var s := Exec(origin, run);
    RunInv(origin, run);
    assert CallOk(s, c) && CallOk(s, d);
    ReturnsOnlySameReply(origin, run, c, d);
    assert RowOk(s, s.calls[c].progress.result.outboxId);
    if Answered(s.calls[d]) { OneAnswerPerKey(origin, run, c, d); }
  }

  // ----- two calls in a row -----

  function Start(weigh: string -> Weight, thread: Thread): System {
    System(weigh, map[weigh(thread.id) := thread], map[], map[], map[])
  }

  function FirstCall(r: Request): seq<Action> {
    [Submit(0, r), ReadThread(0), FindExisting(0, None), ResolveRecipient(0, Outbox.Facts(None, true, Some("a"))),
     Insert(0, 0, 0, 0, Commit)]
  }

  function SecondCall(r: Request): seq<Action> {
    [Submit(1, r), ReadThread(1), FindExisting(1, Some(0))]
  }

  /** After the first call: its message, its row and its answer. */
  function Queued(weigh: string -> Weight, thread: Thread, r: Request): System {
    var subject := EffectiveSubject(r, thread.subject);
    System(weigh, map[weigh(thread.id) := thread.(lastMessageAt := 0)],
           map[0 := Message(thread.id, subject, r.body, ["a"], Some(0))],
           map[0 := Row(thread.id, 0, r.actor, r.key, 0, FreshDelivery("a"))],
           map[0 := Call(r, 0, thread.id, subject, Done(Returned(0, 0, thread.id, Outbox.Queued)))])
  }

  lemma OneMore(s: System, run: seq<Action>, a: Action)
    ensures Exec(s, run + [a]) == Step(Exec(s, run), a)
  {
    assert (run + [a])[..|run + [a]| - 1] == run;
  }

  lemma FirstIsInserting(weigh: string -> Weight, thread: Thread, r: Request)
    requires weigh(r.threadId) == weigh(thread.id)
    ensures var call := Call(r, 0, thread.id, EffectiveSubject(r, thread.subject), Inserting("a"));
      Exec(Start(weigh, thread), FirstCall(r)[..4]) == Start(weigh, thread).(calls := map[0 := call])
  {
    hide EffectiveSubject;
    var s, l := Start(weigh, thread), FirstCall(r);
    OneMore(s, [], l[0]);
    OneMore(s, l[..1], l[1]);
    OneMore(s, l[..2], l[2]);
    OneMore(s, l[..3], l[3]);
    assert [] + [l[0]] == l[..1] && l[..1] + [l[1]] == l[..2] && l[..2] + [l[2]] == l[..3] && l[..3] + [l[3]] == l[..4];
    hide Exec;
    var s2 := Step(Step(s, l[0]), l[1]);
    assert s2.calls == map[0 := Call(r, 0, thread.id, EffectiveSubject(r, thread.subject), LookingUp)];
    var s4 := Step(Step(s2, l[2]), l[3]);
    assert s4.calls == map[0 := Call(r, 0, thread.id, EffectiveSubject(r, thread.subject), Inserting("a"))];
  }

  lemma FirstIsQueued(weigh: string -> Weight, thread: Thread, r: Request)
    requires weigh(r.threadId) == weigh(thread.id)
    ensures Exec(Start(weigh, thread), FirstCall(r)) == Queued(weigh, thread, r)
  {
    hide EffectiveSubject;
    var s, l := Start(weigh, thread), FirstCall(r);
    FirstIsInserting(weigh, thread, r);
    OneMore(s, l[..4], l[4]);
    assert l[..4] + [l[4]] == l;
    hide Exec;
    var s5 := Step(Exec(s, l[..4]), l[4]);
    assert s5.messages == Queued(weigh, thread, r).messages && s5.outbox == Queued(weigh, thread, r).outbox;
    assert s5.calls == Queued(weigh, thread, r).calls && s5.threads == Queued(weigh, thread, r).threads;
  }

  /** What a second call with a key that collates as the first one's is told. */
  lemma SecondIsTold(weigh: string -> Weight, thread: Thread, r: Request, q: Request)
    requires weigh(q.threadId) == weigh(thread.id) && q.actor == r.actor && weigh(q.key) == weigh(r.key)
    ensures var s := Exec(Queued(weigh, thread, r), SecondCall(q));
      && 0 in s.calls && s.calls[0] == Queued(weigh, thread, r).calls[0]
      && 1 in s.calls && s.calls[1].request == q
      && s.calls[1].progress == Done(
           if q.threadId == thread.id && q.body == r.body
              && EffectiveSubject(q, thread.subject) == EffectiveSubject(r, thread.subject)
           then Returned(0, 0, thread.id, Outbox.Queued) else KeyConflict(0))
  {
    var s, l := Queued(weigh, thread, r), SecondCall(q);
    OneMore(s, [], l[0]);
    OneMore(s, l[..1], l[1]);
    OneMore(s, l[..2], l[2]);
    assert [] + [l[0]] == l[..1] && l[..1] + [l[1]] == l[..2] && l[..2] + [l[2]] == l;
    hide Exec, EffectiveSubject;
    var s2 := Exec(s, l[..2]);
    assert s2.calls[1] == Call(q, 0, thread.id, EffectiveSubject(q, thread.subject), LookingUp);
    assert s2.outbox == s.outbox && s2.messages == s.messages;
  }

  /** Both calls, one after the other. */
  lemma {:induction false} BothCalls(weigh: string -> Weight, thread: Thread, r: Request, q: Request)
    requires weigh(r.threadId) == weigh(q.threadId) == weigh(thread.id) && q.actor == r.actor && weigh(q.key) == weigh(r.key)
    ensures var s := Exec(Start(weigh, thread), FirstCall(r) + SecondCall(q));
      && 0 in s.calls && 1 in s.calls && s.calls[0].request == r && s.calls[1].request == q
      && s.calls[0].progress == Done(Returned(0, 0, thread.id, Outbox.Queued))
      && s.calls[1].progress == Done(
           if q.threadId == thread.id && q.body == r.body
              && EffectiveSubject(q, thread.subject) == EffectiveSubject(r, thread.subject)
           then Returned(0, 0, thread.id, Outbox.Queued) else KeyConflict(0))
  {
    hide EffectiveSubject, Step;
    FirstIsQueued(weigh, thread, r);
    SecondIsTold(weigh, thread, r, q);
    ExecPlus(Start(weigh, thread), FirstCall(r), SecondCall(q));
  }

  lemma {:induction false} ExecPlus(s: System, run: seq<Action>, more: seq<Action>)
    ensures Exec(s, run + more) == Exec(Exec(s, run), more)
    decreases |more|
  {
    if more == [] {
      assert run + more == run;
    } else {
      var init := more[..|more| - 1];
      ExecPlus(s, run, init);
      assert (run + more)[..|run + more| - 1] == run + init;
    }
  }

  /** Whenever the collation cannot tell two different keys apart, the second of two calls gets the
      first one's reply under its own, different key. */
  lemma DifferentKeysShare(weigh: string -> Weight, thread: Thread, actor: ActorId, j: Key, k: Key, body: Text)
    requires j != k && weigh(j) == weigh(k)
    ensures var r, q := Request(thread.id, actor, j, None, body), Request(thread.id, actor, k, None, body);
      var s := Exec(Start(weigh, thread), FirstCall(r) + SecondCall(q));
      && Initial(Start(weigh, thread)) && 0 in s.calls && 1 in s.calls
      && s.calls[0].request == r && s.calls[1].request == q
      && Answered(s.calls[0]) && Answered(s.calls[1])
      && SameIds(s.calls[0].progress.result, s.calls[1].progress.result)
  {
    hide Step, Exec;
    BothCalls(weigh, thread, Request(thread.id, actor, j, None, body), Request(thread.id, actor, k, None, body));
  }

  /** Whenever the collation cannot tell another spelling of a thread id from the stored one, a request
      under that spelling is queued the first time and refused when it is sent again unchanged. */
  lemma RespelledThreadRefused(weigh: string -> Weight, thread: Thread, actor: ActorId, key: Key, spelling: string, body: Text)
    requires spelling != thread.id && weigh(spelling) == weigh(thread.id)
    ensures var r := Request(spelling, actor, key, None, body);
      var s := Exec(Start(weigh, thread), FirstCall(r) + SecondCall(r));
      && Initial(Start(weigh, thread)) && 0 in s.calls && 1 in s.calls
      && s.calls[0].request == r && s.calls[1].request == r
      && Answered(s.calls[0]) && Refused(s.calls[1])
  {
    hide Step, Exec;
    BothCalls(weigh, thread, Request(spelling, actor, key, None, body), Request(spelling, actor, key, None, body));
  }

  // ----- who inserts -----

  /** A call that ends in any error but a lost connection has written nothing; no call writes twice. */
  lemma OnlyAnsweredCallsInsert(origin: System, run: seq<Action>, c: CallId, o: OutboxId, p: OutboxId)
    requires Initial(origin) && c in Exec(origin, run).calls
    requires o in Exec(origin, run).outbox && p in Exec(origin, run).outbox
    requires Exec(origin, run).outbox[o].insertedBy == c == Exec(origin, run).outbox[p].insertedBy
    ensures o == p
    ensures var call := Exec(origin, run).calls[c];
      call.progress == Done(Raised(ConnectionLost)) || (Answered(call) && call.progress.result.outboxId == o)
  {
    var s := Exec(origin, run);
    RunInv(origin, run);
    assert InserterOk(s, o) && InserterOk(s, p);
  }

  /** The row a call inserts, with its message, is a fresh row of the outbox machine. */
  lemma {:induction false} InsertedRowIsFresh(s: System, a: Action, o: OutboxId)
    requires Inv(s) && o !in s.outbox && o in Step(s, a).outbox
    ensures var t := Step(s, a);
      && t.outbox[o].emailMessageId in t.messages
      && Outbox.Fresh(Outbox.System(t.outbox[o].delivery, t.messages[t.outbox[o].emailMessageId].toAddresses, map[],
                                    Outbox.History([], 0, [], [])))
  {
    hide EffectiveSubject, RowOk, MessageOk, InserterOk, CallOk, KeysUnique, KeyTaken, RecipientProblem;
  }

  // ----- answers stand -----

  lemma {:induction false} RunKeeps(s: System, run: seq<Action>)
    ensures Keeps(s, Exec(s, run))
    decreases |run|
  {
    if run != [] {
      var before := Exec(s, run[..|run| - 1]);
      RunKeeps(s, run[..|run| - 1]);
      KeepsStep(before, run[|run| - 1]);
      KeepsTwice(s, before, Exec(s, run));
    }
  }

  lemma KeepsTwice(s: System, t: System, u: System)
    requires Keeps(s, t) && Keeps(t, u)
    ensures Keeps(s, u)
  {
  }

  // ----- every call ends -----

  function Rank(call: Call): int {
    (match call.progress
     case ReadingThread => 5 * (2 - call.attempt)
     case LookingUp => 5 * (2 - call.attempt) - 1
     case Resolving => 5 * (2 - call.attempt) - 2
     case Inserting(_) => 5 * (2 - call.attempt) - 3
     case FindingWinner => 5 * (2 - call.attempt) - 4
     case Done(_) => 0
     case Stopped => 0)
  }

  lemma QueryLowersRank(s: System, call: Call, a: Action)
    requires call.attempt <= 1
    ensures var next := AfterQuery(s, call, a); next == call || 0 <= Rank(next) < Rank(call)
  {
    hide EffectiveSubject, Looks, ResolveExisting, RecipientProblem;
  }

  lemma InsertLowersRank(s: System, call: Call, m: MessageId, o: OutboxId, outcome: DbOutcome)
    requires call.progress.Inserting? && call.attempt <= 1
    ensures 0 <= Rank(AfterInsert(s, call, m, o, outcome)) < Rank(call)
  {
    hide Violates;
  }

  lemma CallLowersRank(s: System, c: CallId, a: Action)
    requires c in s.calls && s.calls[c].attempt <= 1
    ensures var t := CallStep(s, c, a);
      c in t.calls && (t.calls[c] == s.calls[c] || 0 <= Rank(t.calls[c]) < Rank(s.calls[c]))
  {
    hide Rank, AfterInsert, AfterQuery, Commits;
    QueryLowersRank(s, s.calls[c], a);
    if a.Insert? && s.calls[c].progress.Inserting? {
      InsertLowersRank(s, s.calls[c], a.messageId, a.outboxId, a.outcome);
    }
  }

  /** A step moves a call forward or leaves it alone. */
  lemma StepLowersRank(s: System, a: Action, c: CallId)
    requires c in s.calls && s.calls[c].attempt <= 1
    ensures c in Step(s, a).calls
    ensures Step(s, a).calls[c] == s.calls[c] || 0 <= Rank(Step(s, a).calls[c]) < Rank(s.calls[c])
  {
    hide CallStep, OtherStep, Rank;
    if Caller(a) != Some(c) {
      OthersLeaveCall(s, a, c);
    } else {
      CallLowersRank(s, c, a);
    }
  }

  lemma CallsAreApart(s: System, d: CallId, a: Action, c: CallId)
    requires d in s.calls && d != c
    ensures var t := CallStep(s, d, a); (c in t.calls <==> c in s.calls) && (c in s.calls ==> t.calls[c] == s.calls[c])
  {
    hide AfterQuery, AfterInsert, Commits;
  }

  lemma OthersLeaveCall(s: System, a: Action, c: CallId)
    requires Caller(a) != Some(c)
    ensures c in Step(s, a).calls <==> c in s.calls
    ensures c in s.calls ==> Step(s, a).calls[c] == s.calls[c]
  {
    hide CallStep;
    if Caller(a).Some? && Caller(a).value in s.calls {
      CallsAreApart(s, Caller(a).value, a, c);
    }
  }

  /** How often the run moved call `c` after its submission. */
  function Turns(origin: System, run: seq<Action>, c: CallId): nat
    decreases |run|
  {
    if run == [] then 0
    else
      var s, t := Exec(origin, run[..|run| - 1]), Exec(origin, run);
      Turns(origin, run[..|run| - 1], c) + if c in s.calls && c in t.calls && s.calls[c] != t.calls[c] then 1 else 0
  }

  /** No run takes more than ten turns of one call: five for each of its two attempts. */
  lemma {:induction false} TurnsBounded(origin: System, run: seq<Action>, c: CallId)
    requires Initial(origin)
    ensures c !in Exec(origin, run).calls ==> Turns(origin, run, c) == 0
    ensures c in Exec(origin, run).calls ==> Turns(origin, run, c) + Rank(Exec(origin, run).calls[c]) <= 10
    ensures Turns(origin, run, c) <= 10
    decreases |run|
  {
    hide CallStep, OtherStep;
    RunInv(origin, run);
    if run != [] {
      var init, a := run[..|run| - 1], run[|run| - 1];
      var s := Exec(origin, init);
      TurnsBounded(origin, init, c);
      RunInv(origin, init);
      if c in s.calls {
        assert CallOk(s, c);
        StepLowersRank(s, a, c);
      } else if Caller(a) != Some(c) {
        OthersLeaveCall(s, a, c);
      }
    }
    if c in Exec(origin, run).calls {
      assert CallOk(Exec(origin, run), c);
    }
  }

  /** The lookup by (actor, key) always has an answer: the row found has its message. */
  lemma LookUp(s: System, request: Request) returns (found: Option<OutboxId>)
    requires RowsOk(s)
    ensures Looks(s, request, found)
  {
    found := None;
    if o :| o in s.outbox && Matches(s.weigh, s.outbox[o], request.actor, request.key) {
      found := Some(o);
      assert RowOk(s, o);
    }
  }

  lemma CallTakes(s: System, c: CallId, a: Action)
    requires c in s.calls && Caller(a) == Some(c) && !a.Submit?
    ensures Step(s, a) == CallStep(s, c, a)
  {
    hide CallStep, OtherStep, SubmitStep;
  }

  /** The query with which a call moves on; `found` answers its lookup. */
  function NextQuery(c: CallId, call: Call, found: Option<OutboxId>): Action {
    match call.progress
    case ReadingThread => ReadThread(c)
    case LookingUp => FindExisting(c, found)
    case Resolving => ResolveRecipient(c, Outbox.Facts(None, false, None))
    case Inserting(_) => Insert(c, 0, 0, 0, Failure)
    case FindingWinner => FindWinner(c, found)
    case _ => Stop(c)
  }

  lemma NextQueryMoves(s: System, c: CallId, found: Option<OutboxId>)
    requires c in s.calls && Looks(s, s.calls[c].request, found)
    requires !s.calls[c].progress.Done? && !s.calls[c].progress.Stopped?
    ensures var t := CallStep(s, c, NextQuery(c, s.calls[c], found)); c in t.calls && t.calls[c] != s.calls[c]
  {
    hide Looks, EffectiveSubject, ResolveExisting, Violates, RecipientProblem;
  }

  /** An unfinished call always has a query of its own that moves it on. */
  lemma NeverStuck(s: System, c: CallId) returns (a: Action)
    requires Inv(s) && c in s.calls && !s.calls[c].progress.Done? && !s.calls[c].progress.Stopped?
    ensures Caller(a) == Some(c) && !a.Submit? && !a.Stop?
    ensures var t := Step(s, a); c in t.calls && t.calls[c] != s.calls[c]
  {
    hide CallStep;
    var found := LookUp(s, s.calls[c].request);
    a := NextQuery(c, s.calls[c], found);
    NextQueryMoves(s, c, found);
    CallTakes(s, c, a);
  }
}
