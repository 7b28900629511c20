/** The AI services on the rows of one message: transactions write the rows in place and restore them
    when they abort; jobs and workers string queries and transactions together while others run in
    between. Every method leaves the object in a state that a run of the routing machine reaches. */
module RoutingService {
  import opened Options
  import opened RoutingModel
  import opened RoutingSafety
  import opened RoutingTheorems
  import opened RoutingHistory
  import opened RoutingAttempts
  import opened RoutingReasons

  predicate SameWorkers(mine: set<WorkerId>, was: map<WorkerId, Worker>, now: map<WorkerId, Worker>) {
    forall w :: w in mine ==> if w in was then w in now && now[w] == was[w] else w !in now
  }

  lemma OthersKeepAll(s: System, a: Action, mine: set<WorkerId>)
    requires a.w !in mine
    ensures SameWorkers(mine, s.workers, Step(s, a).workers)
  {
    hide Step;
    forall w | w in mine ensures if w in s.workers then w in Step(s, a).workers && Step(s, a).workers[w] == s.workers[w]
                                 else w !in Step(s, a).workers {
      if w in s.workers { OthersKeepOut(s, a, w); } else { NobodyAppears(s, a, w); }
    }
  }

  lemma ExecStep(s: System, run: seq<Action>, a: Action)
    ensures Exec(s, run + [a]) == Step(Exec(s, run), a)
  {
    assert (run + [a])[..|run + [a]| - 1] == run;
  }

  lemma FinalizeStepIs(s: System, w: WorkerId, now: Time)
    requires w in s.workers && s.workers[w].Finalizing? && s.workers[w].d < |s.db.decisions|
    ensures Step(s, Finalize(w, now)) == FinalizeStep(s, w, s.workers[w], now)
  {
    hide FinalizeStep;
  }

  lemma FallbackStepIs(s: System, w: WorkerId, now: Time)
    requires w in s.workers && s.workers[w].FallingBack? && s.workers[w].d < |s.db.decisions|
    ensures Step(s, FallBack(w, now)) == FallbackStep(s, w, s.workers[w], now)
  {
    hide FallbackStep;
  }

  datatype TxStatus = TxCommitted | TxAborted(reason: AbortReason) | TxRaised

  function Status(r: TxResult): TxStatus {
    match r
    case Committed(_) => TxCommitted
    case Aborted(reason) => TxAborted(reason)
    case Raised => TxRaised
  }

  /** The rows after a transaction: its own when it committed, else the ones before it. */
  function After(before: Db, r: TxResult): Db {
    if r.Committed? then r.db else before
  }

  /** Where a worker goes after its AUTO_ACCEPT transaction. */
  function AfterAccept(d: nat, token: Time, status: TxStatus): Worker {
    match status
    case TxCommitted => RouteDone(Succeeded)
    case TxRaised => RouteDone(Threw)
    case TxAborted(EmailMessageChanged) => Finalizing(d, token, RoutingSkipped, SkippedHumanAlreadyReviewed)
    case TxAborted(CaseChanged) => CaseLost(d, token)
    case TxAborted(OwnershipLost) => RouteDone(Conflict)
  }

  function HumanOutcome(r: TxResult, d: nat): RouteOutcome {
    if !r.Committed? || d >= |r.db.decisions| then Conflict
    else if r.db.decisions[d].status.RoutingSucceeded? then Succeeded else Skipped
  }

  lemma AcceptStepIs(s: System, w: WorkerId, now: Time)
    requires w in s.workers && s.workers[w].Accepting? && s.workers[w].d < |s.db.decisions|
    ensures var pc := s.workers[w]; var r := AcceptTx(s.db, pc.d, pc.token, pc.seenCase, now);
      Step(s, CommitAccept(w, now)) == System(After(s.db, r), s.workers[w := AfterAccept(pc.d, pc.token, Status(r))])
  {
    assert Step(s, CommitAccept(w, now)) == AcceptStep(s, w, s.workers[w], now) by { hide AcceptStep; }
    hide Step, AcceptTx;
  }

  lemma HumanStepIs(s: System, w: WorkerId, now: Time)
    requires w in s.workers && s.workers[w].RoutingHuman? && s.workers[w].d < |s.db.decisions|
    ensures var pc := s.workers[w]; var r := HumanTx(s.db, pc.d, pc.token, now);
      && (r.Committed? ==> pc.d < |r.db.decisions|)
      && Step(s, RouteHuman(w, now)) == System(After(s.db, r), s.workers[w := RouteDone(HumanOutcome(r, pc.d))])
  {
    assert Step(s, RouteHuman(w, now)) == HumanStep(s, w, s.workers[w], now) by { hide HumanStep; }
    hide Step;
  }

  /** What other workers do at the awaits of one attempt. */
  datatype Others = Others(beforeLoad: seq<Action>, beforeCall: seq<Action>, beforeWrite: seq<Action>)

  /** One attempt of a classification job: settings, provider answer and clocks as it finds them. */
  datatype Try = Try(settings: Settings, answer: Answer, now: Time, createdAt: Time, others: Others, delay: seq<Action>)

  /** The attempts a job is given; its last attempt is the one that finds attemptsMade + 1 there. */
  function Limit(budget: Option<nat>): nat {
    if budget.None? || budget.value == 0 then 1 else budget.value
  }

  /** Worker `w` holds the lease of decision `d`. */
  predicate HoldsLease(s: System, w: WorkerId, d: nat) {
    && w in s.workers && HeldToken(s.workers[w]).Some? && s.workers[w].d == d && d < |s.db.decisions|
    && HoldsDecision(s.db.decisions[d], HeldToken(s.workers[w]).value)
  }

  /** What an outcome says of the state before the worker's last action and of the rows after it.
      `Skipped` finished the decision as SKIPPED exactly when the lease was still held; otherwise, and for
      every outcome but `Succeeded`, the action changed no row. */
  predicate OutcomeTrue(outcome: RouteOutcome, w: WorkerId, d: nat, before: System, after: Db) {
    match outcome
    case Succeeded =>
      && HoldsLease(before, w, d) && d < |after.decisions|
      && (after.decisions[d].resultCode == Some(RoutedToHumanReview)
          || (after.decisions[d].resultCode == Some(AutoAccepted) && after.renewalCase == Some(Accepted)))
    case Skipped =>
      && d < |before.db.decisions| && d < |after.decisions|
      && (HoldsLease(before, w, d) <==> after.decisions[d] != before.db.decisions[d])
      && (if HoldsLease(before, w, d) then !Finished(before.db.decisions[d]) && after.decisions[d].status.RoutingSkipped?
          else after == before.db)
    case Failed => false
    case Conflict => !HoldsLease(before, w, d) && after == before.db
    case NotClaimed => after == before.db
    case Paused => after == before.db
    case Threw => after == before.db
  }

  class AiServices {
    var message: Message
    var thread: ThreadStatus
    var renewalCase: Option<CaseStatus>
    var classifications: seq<Classification>
    var decisions: seq<Decision>
    var reviews: seq<Review>
    var audit: seq<Event>
    var workers: map<WorkerId, Worker>
    ghost const origin: System
    ghost var run: seq<Action>

    function Rows(): Db
      reads this
    {
      Db(message, thread, renewalCase, classifications, decisions, reviews, audit)
    }

    ghost predicate Valid()
      reads this
    {
      Fresh(origin) && System(Rows(), workers) == Exec(origin, run)
    }

    constructor (ingested: Message, onThread: ThreadStatus, ofCase: Option<CaseStatus>)
      requires if ingested.direction.Inbound? then ingested.status in {Some(Pending), Some(HumanReview)} else ingested.status.None?
      ensures Valid() && run == [] && message == ingested && renewalCase == ofCase
    {
      message, thread, renewalCase := ingested, onThread, ofCase;
      classifications, decisions, reviews, audit := [], [], [], [];
      workers := map[];
      origin := System(Db(ingested, onThread, ofCase, [], [], [], []), map[]);
      run := [];
    }

    ghost method Note(a: Action)
      requires Fresh(origin) && System(Rows(), workers) == Step(Exec(origin, run), a)
      modifies this`run
      ensures Valid() && run == old(run) + [a]
    {
      ExecStep(origin, run, a);
      run := run + [a];
    }

    // ----- transactions -----

    /** What the database puts back when a transaction aborts. */
    method Rollback(before: Db)
      modifies this`message, this`thread, this`renewalCase, this`classifications, this`decisions, this`reviews, this`audit
      ensures Rows() == before
    {
      message, thread, renewalCase := before.message, before.thread, before.renewalCase;
      classifications, decisions, reviews, audit := before.classifications, before.decisions, before.reviews, before.audit;
    }

    method AcceptTransaction(d: nat, token: Time, seenCase: CaseStatus, now: Time) returns (status: TxStatus)
      requires d < |decisions|
      modifies this`message, this`thread, this`renewalCase, this`classifications, this`decisions, this`reviews, this`audit
      ensures status == Status(AcceptTx(old(Rows()), d, token, seenCase, now))
      ensures Rows() == After(old(Rows()), AcceptTx(old(Rows()), d, token, seenCase, now))
      ensures if status.TxCommitted?
        then d < |decisions| && decisions[d].resultCode == Some(AutoAccepted) && renewalCase == Some(Accepted)
        else Rows() == old(Rows())
    {
      var before := Rows();
      if message.status != Some(Classified) { return TxAborted(EmailMessageChanged); }
      message := message.(status := Some(Classified));
      if renewalCase.None? {
        Rollback(before);
        return TxRaised;
      }
      if renewalCase.value != seenCase {
        Rollback(before);
        return TxAborted(CaseChanged);
      }
      renewalCase := Some(Accepted);
      audit := audit + [AutoAcceptedCase(d, seenCase)];
      if !HoldsDecision(decisions[d], token) {
        Rollback(before);
        return TxAborted(OwnershipLost);
      }
      decisions := decisions[d := Finish(decisions[d], RoutingSucceeded, AutoAccepted, now)];
      status := TxCommitted;
    }

    method TryRouteEmailAndThread() returns (routing: Routing)
      modifies this`message, this`thread
      ensures (Rows(), routing) == TryRoute(old(Rows()))
    {
      if message.status == Some(Resolved) { return AlreadyResolved; }
      if message.status != Some(Classified) { return AlreadyHumanReview; }
      message := message.(status := Some(HumanReview));
      if !thread.ThreadResolved? { thread := InHumanReview; }
      routing := Routed;
    }

    method HumanTransaction(d: nat, token: Time, now: Time) returns (status: TxStatus)
      requires d < |decisions|
      modifies this`message, this`thread, this`renewalCase, this`classifications, this`decisions, this`reviews, this`audit
      ensures status == Status(HumanTx(old(Rows()), d, token, now))
      ensures Rows() == After(old(Rows()), HumanTx(old(Rows()), d, token, now))
      ensures if status.TxCommitted?
        then d < |decisions| && (decisions[d].status.RoutingSucceeded? ==> decisions[d].resultCode == Some(RoutedToHumanReview))
        else Rows() == old(Rows())
    {
      var before := Rows();
      var routing := TryRouteEmailAndThread();
      if !HoldsDecision(decisions[d], token) {
        Rollback(before);
        return TxAborted(OwnershipLost);
      }
      if routing.AlreadyResolved? {
        decisions := decisions[d := Finish(decisions[d], RoutingSkipped, SkippedHumanAlreadyReviewed, now)];
      } else {
        decisions := decisions[d := Finish(decisions[d], RoutingSucceeded, RoutedToHumanReview, now)];
        audit := audit + [HumanReviewRouted(d)];
      }
      status := TxCommitted;
    }

    method FallbackTransaction(d: nat, token: Time, code: ResultCode, now: Time) returns (status: TxStatus)
      requires d < |decisions|
      modifies this`message, this`thread, this`renewalCase, this`classifications, this`decisions, this`reviews, this`audit
      ensures status == Status(FallbackTx(old(Rows()), d, token, code, now))
      ensures Rows() == After(old(Rows()), FallbackTx(old(Rows()), d, token, code, now))
    {
      var before := Rows();
      var routing := TryRouteEmailAndThread();
      var finalCode := if routing.AlreadyResolved? then SkippedHumanAlreadyReviewed else code;
      if !HoldsDecision(decisions[d], token) {
        Rollback(before);
        return TxAborted(OwnershipLost);
      }
      decisions := decisions[d := Finish(decisions[d], RoutingSkipped, finalCode, now)];
      if routing.Routed? {
        audit := audit + [HumanReviewRouted(d)];
      } else {
        assert audit + [] == audit;
      }
      status := TxCommitted;
    }

    method FinalizeDecisionOnly(d: nat, token: Time, status: RoutingStatus, code: ResultCode, now: Time)
      requires d < |decisions|
      modifies this`decisions
      ensures Rows() == FinalizeDb(old(Rows()), d, token, status, code, now)
    {
      if HoldsDecision(decisions[d], token) {
        decisions := decisions[d := Finish(decisions[d], status, code, now)];
      }
    }

    method PersistTransaction(linked: bool, seen: Message, result: Normalized, settings: Settings, now: Time, createdAt: Time)
      returns (status: TxStatus)
      modifies this`message, this`thread, this`renewalCase, this`classifications, this`decisions, this`reviews, this`audit
      ensures status == Status(PersistTx(old(Rows()), linked, seen, result, settings, now, createdAt))
      ensures Rows() == After(old(Rows()), PersistTx(old(Rows()), linked, seen, result, settings, now, createdAt))
    {
      var before := Rows();
      if !message.direction.Inbound? || message.status != Some(Pending) { return TxAborted(EmailMessageChanged); }
      var review := RequiresReview(result, settings);
      message := message.(status := Some(if review then HumanReview else Classified));
      var cid := |classifications|;
      classifications := classifications + [Classification(result, settings, now, createdAt)];
      audit := audit + [if review then HumanReviewRequired(cid) else ClassificationCreated(cid)];
      if linked && renewalCase.None? {
        Rollback(before);
        return TxRaised;
      }
      if review {
        decisions := decisions + [Decision(cid, RouteToHuman, RoutingSucceeded, Some(ClassifierRequiredHumanReview), 0, None, Some(now))];
      } else {
        var action := DecideAction(result.intent, linked, settings, now, seen);
        decisions := decisions + [Decision(cid, action, RoutingPending, None, 0, None, None)];
      }
      status := TxCommitted;
    }

    method TransitionToHumanReview()
      modifies this`message, this`audit
      ensures Rows() == HandOverDb(old(Rows()))
    {
      if message.direction.Inbound? && message.status == Some(Pending) {
        message := message.(status := Some(HumanReview));
        audit := audit + [ClassificationFailed];
      }
    }

    /** The human side: always RESOLVED and one more review, or not found and nothing at all. */
    method CreateReview(reviewer: WorkerId, cid: nat, intent: Intent, createdAt: Time, id: nat) returns (found: bool)
      requires Valid()
      modifies this
      ensures Valid() && run == old(run) + [Action.CreateReview(reviewer, cid, intent, createdAt, id)]
      ensures found == (cid < |old(classifications)|)
      ensures Rows() ==
        if !found then old(Rows())
        else old(Rows()).(message := old(message).(status := Some(Resolved)),
                          reviews := old(reviews) + [Review(cid, intent, createdAt, id)],
                          audit := old(audit) + [ReviewCreated(cid)])
      ensures workers == old(workers)
    {
      found := cid < |classifications|;
      if found {
        message := message.(status := Some(Resolved));
        reviews := reviews + [Review(cid, intent, createdAt, id)];
        audit := audit + [ReviewCreated(cid)];
      }
      Note(Action.CreateReview(reviewer, cid, intent, createdAt, id));
    }

    // ----- other workers -----

    method Other(mine: set<WorkerId>, a: Action)
      requires Valid() && a.w !in mine
      modifies this
      ensures Valid() && old(run) <= run && SameWorkers(mine, old(workers), workers)
    {
      var next := Step(System(Rows(), workers), a);
      OthersKeepAll(System(Rows(), workers), a, mine);
      Rollback(next.db);
      workers := next.workers;
      Note(a);
    }

    /** Any actions of workers outside `mine`, in any order. */
    method Interleave(mine: set<WorkerId>, script: seq<Action>)
      requires Valid()
      modifies this
      ensures Valid() && old(run) <= run && SameWorkers(mine, old(workers), workers)
    {
      hide Valid;
      for i := 0 to |script|
        invariant Valid() && old(run) <= run && SameWorkers(mine, old(workers), workers)
      {
        if script[i].w !in mine {
          Other(mine, script[i]);
        }
      }
    }

    lemma InvHere()
      requires Valid()
      ensures Inv(System(Rows(), workers))
    {
      FreshInv(origin);
      RunInv(origin, run);
    }

    lemma DecisionHere(w: WorkerId)
      requires Valid() && w in workers && DecisionOf(workers[w]).Some?
      ensures var d := DecisionOf(workers[w]).value;
        && d < |decisions|
        && (workers[w].Stamped? ==> decisions[d].lastAttemptAt.Some?)
        && (workers[w].Finalizing? ==> workers[w].status.RoutingSkipped?)
    {
      InvHere();
      assert WorkerOk(Rows(), workers[w]);
    }

    lemma WorkerHere(w: WorkerId)
      requires Valid() && w in workers
      ensures DbInv(Rows()) && WorkerOk(Rows(), workers[w])
      ensures DecisionOf(workers[w]).Some? ==> DecisionOf(workers[w]).value < |decisions|
    {
      InvHere();
    }

    // ----- routing: one decision, from the kill switch to the result -----

    /** What a returned outcome says about the rows at that moment, and about the worker's last action,
        which is the latest of the run. */
    ghost predicate Truthful(outcome: RouteOutcome, w: WorkerId, d: nat)
      reads this
    {
      run != [] && run[|run| - 1].w == w && OutcomeTrue(outcome, w, d, Exec(origin, run[..|run| - 1]), Rows())
    }

    lemma Conclude(outcome: RouteOutcome, d: nat, before: System, was: seq<Action>, a: Action)
      requires run == was + [a] && before == Exec(origin, was) && OutcomeTrue(outcome, a.w, d, before, Rows())
      ensures Truthful(outcome, a.w, d)
    {
      assert run[..|run| - 1] == was;
    }

    method PeekAt(w: WorkerId, d: nat, autoAcceptEnabled: bool) returns (next: Worker)
      requires Valid() && w !in workers
      modifies this
      ensures Valid() && run == old(run) + [Peek(w, d, autoAcceptEnabled)] && Rows() == old(Rows())
      ensures workers == old(workers)[w := next]
      ensures next ==
        if d >= |decisions| then RouteDone(NotClaimed)
        else if decisions[d].action.AutoAccept? && !autoAcceptEnabled then RouteDone(Paused)
        else Peeked(d)
      ensures next.RouteDone? ==> Truthful(next.routed, w, d)
    {
      ghost var before, was := System(Rows(), workers), run;
      if d >= |decisions| {
        next := RouteDone(NotClaimed);
      } else if decisions[d].action.AutoAccept? && !autoAcceptEnabled {
        next := RouteDone(Paused);
      } else {
        next := Peeked(d);
      }
      workers := workers[w := next];
      Note(Peek(w, d, autoAcceptEnabled));
      if next.RouteDone? { Conclude(next.routed, d, before, was, Peek(w, d, autoAcceptEnabled)); }
    }

    /** The guarded update of `claim`; the token is read back by `ReadLease`. */
    method Claim(w: WorkerId, d: nat, now: Time) returns (ok: bool)
      requires Valid() && w in workers && workers[w] == Peeked(d)
      modifies this
      ensures Valid() && run == old(run) + [ClaimDecision(w, now)]
      ensures workers == old(workers)[w := if ok then Stamped(d) else RouteDone(NotClaimed)]
      ensures d < |old(decisions)|
      ensures ok <==>
        || old(decisions)[d].status.RoutingPending?
        || (&& old(decisions)[d].status.RoutingProcessing? && old(decisions)[d].lastAttemptAt.Some?
            && old(decisions)[d].lastAttemptAt.value < now - 120_000)
      ensures decisions == if !ok then old(decisions) else old(decisions)[d :=
        old(decisions)[d].(status := RoutingProcessing, lastAttemptAt := Some(now), attempts := old(decisions)[d].attempts + 1)]
      ensures !ok ==> Truthful(NotClaimed, w, d)
    {
      ghost var before, was := System(Rows(), workers), run;
      hide AcceptTx, HumanTx, FallbackTx, FinalizeDb, PersistTx, ReviewTx;
      DecisionHere(w);
      var row := decisions[d];
      ok := DecisionClaimable(row, now);
      if ok {
        decisions := decisions[d := row.(status := RoutingProcessing, lastAttemptAt := Some(now), attempts := row.attempts + 1)];
      }
      workers := workers[w := if ok then Stamped(d) else RouteDone(NotClaimed)];
      Note(ClaimDecision(w, now));
      if !ok { Conclude(NotClaimed, d, before, was, ClaimDecision(w, now)); }
    }

    /** The second query of `claim`: whatever token the row shows by now; it always shows one. */
    method ReadLease(w: WorkerId, d: nat) returns (token: Time)
      requires Valid() && w in workers && workers[w] == Stamped(d)
      modifies this
      ensures Valid() && old(run) <= run && Rows() == old(Rows())
      ensures d < |decisions| && decisions[d].lastAttemptAt == Some(token)
      ensures workers == old(workers)[w := Leased(d, token)]
    {
      hide AcceptTx, HumanTx, FallbackTx, FinalizeDb, PersistTx, ReviewTx;
      DecisionHere(w);
      token := decisions[d].lastAttemptAt.value;
      workers := workers[w := Leased(d, token)];
      Note(ReadToken(w));
    }

    method ReadAction(w: WorkerId, d: nat, token: Time) returns (action: RoutingAction)
      requires Valid() && w in workers && workers[w] == Leased(d, token)
      modifies this
      ensures Valid() && old(run) <= run && Rows() == old(Rows())
      ensures d < |decisions| && action == decisions[d].action
      ensures workers == old(workers)[w := if action.AutoAccept? then ReadingClassification(d, token) else RoutingHuman(d, token)]
    {
      hide AcceptTx, HumanTx, FallbackTx, FinalizeDb, PersistTx, ReviewTx;
      DecisionHere(w);
      action := decisions[d].action;
      workers := workers[w := if action.AutoAccept? then ReadingClassification(d, token) else RoutingHuman(d, token)];
      Note(ReadDecision(w));
    }

    method ReadClassificationRow(w: WorkerId, d: nat, token: Time) returns (next: Worker)
      requires Valid() && w in workers && workers[w] == ReadingClassification(d, token)
      modifies this
      ensures Valid() && old(run) <= run && Rows() == old(Rows())
      ensures next.ReadingLatest? && next.d == d && next.token == token
      ensures workers == old(workers)[w := next]
    {
      hide AcceptTx, HumanTx, FallbackTx, FinalizeDb, PersistTx, ReviewTx, Inv, DbInv;
      assert DbInv(Rows()) && WorkerOk(Rows(), workers[w]) by { WorkerHere(w); }
      ReadClassificationOk(Rows(), workers[w]);
      next := ReadClassificationNext(Rows(), workers[w]);
      workers := workers[w := next];
      Note(ReadClassification(w));
    }

    method ReadLatestRow(w: WorkerId, d: nat, token: Time, linked: bool) returns (next: Worker)
      requires Valid() && w in workers && workers[w] == ReadingLatest(d, token, linked)
      modifies this
      ensures Valid() && old(run) <= run && Rows() == old(Rows())
      ensures next == ReadingCase(d, token, linked) && workers == old(workers)[w := next]
    {
      hide AcceptTx, HumanTx, FallbackTx, FinalizeDb, PersistTx, ReviewTx, Inv, DbInv;
      assert DbInv(Rows()) && WorkerOk(Rows(), workers[w]) by { WorkerHere(w); }
      ReadLatestOk(Rows(), workers[w]);
      next := ReadLatestNext(Rows(), workers[w]);
      workers := workers[w := next];
      Note(ReadLatest(w));
    }

    method ReadCaseRow(w: WorkerId, d: nat, token: Time, linked: bool) returns (next: Worker)
      requires Valid() && w in workers && workers[w] == ReadingCase(d, token, linked)
      modifies this
      ensures Valid() && old(run) <= run && Rows() == old(Rows())
      ensures next == ReadCaseNext(Rows(), old(workers)[w]) && workers == old(workers)[w := next]
    {
      hide AcceptTx, HumanTx, FallbackTx, FinalizeDb, PersistTx, ReviewTx;
      DecisionHere(w);
      next := ReadCaseNext(Rows(), workers[w]);
      workers := workers[w := next];
      Note(ReadCase(w));
    }

    method ReadReviewRow(w: WorkerId, d: nat, token: Time, seenCase: CaseStatus) returns (next: Worker)
      requires Valid() && w in workers && workers[w] == ReadingReview(d, token, seenCase)
      modifies this
      ensures Valid() && old(run) <= run && Rows() == old(Rows())
      ensures d < |decisions| && next == ReadReviewNext(Rows(), old(workers)[w]) && workers == old(workers)[w := next]
    {
      hide AcceptTx, HumanTx, FallbackTx, FinalizeDb, PersistTx, ReviewTx;
      DecisionHere(w);
      next := ReadReviewNext(Rows(), workers[w]);
      workers := workers[w := next];
      Note(ReadReview(w));
    }

    method CommitAcceptance(w: WorkerId, d: nat, token: Time, seenCase: CaseStatus, now: Time) returns (next: Worker)
      requires Valid() && w in workers && workers[w] == Accepting(d, token, seenCase)
      modifies this
      ensures Valid() && old(run) <= run && workers == old(workers)[w := next]
      ensures exists status :: next == AfterAccept(d, token, status)
      ensures next != RouteDone(Succeeded) ==> Rows() == old(Rows())
      ensures next.RouteDone? ==> Truthful(next.routed, w, d)
    {
      hide AcceptTx, Step, OutcomeTrue, Truthful;
      ghost var before, was := System(Rows(), workers), run;
      DecisionHere(w);
      AcceptStepIs(before, w, now);
      AcceptIsTrue(before, w, now);
      var status := AcceptTransaction(d, token, seenCase, now);
      next := AfterAccept(d, token, status);
      workers := workers[w := next];
      Note(CommitAccept(w, now));
      if next.RouteDone? { Conclude(next.routed, d, before, was, CommitAccept(w, now)); }
    }

    method ReadLostCaseRow(w: WorkerId, d: nat, token: Time) returns (next: Worker)
      requires Valid() && w in workers && workers[w] == CaseLost(d, token)
      modifies this
      ensures Valid() && old(run) <= run && Rows() == old(Rows())
      ensures next == LostCaseNext(Rows(), old(workers)[w]) && workers == old(workers)[w := next]
      ensures next.RouteDone? ==> Truthful(next.routed, w, d)
    {
      ghost var before, was := System(Rows(), workers), run;
      DecisionHere(w);
      next := LostCaseNext(Rows(), workers[w]);
      workers := workers[w := next];
      Note(ReadLostCase(w));
      if next.RouteDone? { Conclude(next.routed, d, before, was, ReadLostCase(w)); }
    }

    /** The end of every skipped AUTO_ACCEPT: finalize the decision alone, or fall back to a human. The
        result of either is ignored, so the outcome is the same when the lease is lost. */
    method EndSkipped(w: WorkerId, now: Time) returns (outcome: RouteOutcome)
      requires Valid() && w in workers && (workers[w].Finalizing? || workers[w].FallingBack?)
      modifies this
      ensures Valid() && old(run) <= run && outcome.Skipped? && Truthful(outcome, w, old(workers)[w].d)
      ensures workers == old(workers)[w := RouteDone(outcome)]
    {
      hide Valid, Truthful;
      if workers[w].Finalizing? { EndFinalizing(w, now); } else { EndFallingBack(w, now); }
      outcome := Skipped;
    }

    method EndFinalizing(w: WorkerId, now: Time)
      requires Valid() && w in workers && workers[w].Finalizing?
      modifies this
      ensures Valid() && old(run) <= run && Truthful(Skipped, w, old(workers)[w].d)
      ensures workers == old(workers)[w := RouteDone(Skipped)]
    {
      ghost var before, was := System(Rows(), workers), run;
      DecisionHere(w);
      FinalizeStepIs(before, w, now);
      FinalizeIsTrue(before, w, now);
      hide FinalizeDb, Step, OutcomeTrue, Truthful;
      var pc := workers[w];
      FinalizeDecisionOnly(pc.d, pc.token, pc.status, pc.code, now);
      workers := workers[w := RouteDone(Skipped)];
      Note(Finalize(w, now));
      Conclude(Skipped, pc.d, before, was, Finalize(w, now));
    }

    method EndFallingBack(w: WorkerId, now: Time)
      requires Valid() && w in workers && workers[w].FallingBack?
      modifies this
      ensures Valid() && old(run) <= run && Truthful(Skipped, w, old(workers)[w].d)
      ensures workers == old(workers)[w := RouteDone(Skipped)]
    {
      ghost var before, was := System(Rows(), workers), run;
      DecisionHere(w);
      FallbackStepIs(before, w, now);
      FallbackIsTrue(before, w, now);
      hide FallbackTx, Step, OutcomeTrue, Truthful;
      var pc := workers[w];
      var _ := FallbackTransaction(pc.d, pc.token, pc.code, now);
      workers := workers[w := RouteDone(Skipped)];
      Note(FallBack(w, now));
      Conclude(Skipped, pc.d, before, was, FallBack(w, now));
    }

    method ExecuteHumanReviewRouting(w: WorkerId, d: nat, token: Time, now: Time) returns (outcome: RouteOutcome)
      requires Valid() && w in workers && workers[w] == RoutingHuman(d, token)
      modifies this
      ensures Valid() && old(run) <= run && workers == old(workers)[w := RouteDone(outcome)]
      ensures outcome in {Succeeded, Skipped, Conflict} && Truthful(outcome, w, d)
    {
      hide HumanTx, Step, OutcomeTrue, Truthful;
      ghost var before, was := System(Rows(), workers), run;
      DecisionHere(w);
      HumanStepIs(before, w, now);
      HumanIsTrue(before, w, now);
      var status := HumanTransaction(d, token, now);
      outcome := if !status.TxCommitted? then Conflict else if decisions[d].status.RoutingSucceeded? then Succeeded else Skipped;
      workers := workers[w := RouteDone(outcome)];
      Note(RouteHuman(w, now));
      Conclude(outcome, d, before, was, RouteHuman(w, now));
    }

    /** The AUTO_ACCEPT path up to its transaction. */
    method ExecuteAutoAccept(w: WorkerId, d: nat, token: Time, now: Time, others: seq<seq<Action>>) returns (outcome: RouteOutcome)
      requires Valid() && w in workers && workers[w] == ReadingClassification(d, token) && |others| == 6
      modifies this
      ensures Valid() && old(run) <= run && w in workers && workers[w] == RouteDone(outcome) && Truthful(outcome, w, d)
    {
      hide Valid, Truthful;
      Interleave({w}, others[0]);
      var next := ReadClassificationRow(w, d, token);
      Interleave({w}, others[1]);
      next := ReadLatestRow(w, d, token, next.linked);
      outcome := CheckCaseAndAccept(w, d, token, next.linked, now, others[2..]);
    }

    method CheckCaseAndAccept(w: WorkerId, d: nat, token: Time, linked: bool, now: Time, others: seq<seq<Action>>)
      returns (outcome: RouteOutcome)
      requires Valid() && w in workers && workers[w] == ReadingCase(d, token, linked) && |others| == 4
      modifies this
      ensures Valid() && old(run) <= run && w in workers && workers[w] == RouteDone(outcome) && Truthful(outcome, w, d)
    {
      hide Valid, Truthful, ReadCaseNext;
      Interleave({w}, others[0]);
      var next := ReadCaseRow(w, d, token, linked);
      CaseReadGoes(Rows(), ReadingCase(d, token, linked));
      if next.ReadingReview? {
        outcome := CheckReviewAndAccept(w, d, token, next.seenCase, now, others[1..]);
      } else {
        Interleave({w}, others[1]);
        outcome := EndSkipped(w, now);
      }
    }

    method CheckReviewAndAccept(w: WorkerId, d: nat, token: Time, seenCase: CaseStatus, now: Time, others: seq<seq<Action>>)
      returns (outcome: RouteOutcome)
      requires Valid() && w in workers && workers[w] == ReadingReview(d, token, seenCase) && |others| == 3
      modifies this
      ensures Valid() && old(run) <= run && w in workers && workers[w] == RouteDone(outcome) && Truthful(outcome, w, d)
    {
      hide Valid, Truthful;
      Interleave({w}, others[0]);
      var next := ReadReviewRow(w, d, token, seenCase);
      Interleave({w}, others[1]);
      if next.Finalizing? {
        outcome := EndSkipped(w, now);
      } else {
        next := CommitAcceptance(w, d, token, seenCase, now);
        outcome := ResolveAbort(w, d, token, next, now, others[2]);
      }
    }

    /** `resolveAutoAcceptAbort`, after the transaction rolled back entirely. */
    method ResolveAbort(w: WorkerId, d: nat, token: Time, next: Worker, now: Time, others: seq<Action>) returns (outcome: RouteOutcome)
      requires Valid() && w in workers && workers[w] == next
      requires exists status :: next == AfterAccept(d, token, status)
      requires next.RouteDone? ==> Truthful(next.routed, w, d)
      modifies this
      ensures Valid() && old(run) <= run && w in workers && workers[w] == RouteDone(outcome) && Truthful(outcome, w, d)
    {
      hide Valid, Truthful;
      if next.RouteDone? { return next.routed; }
      Interleave({w}, others);
      if next.CaseLost? {
        var again := ReadLostCaseRow(w, d, token);
        if again.RouteDone? { return again.routed; }
      }
      outcome := EndSkipped(w, now);
    }

    /** One routing worker on one decision, with others running at its awaits. */
    method ProcessOne(w: WorkerId, d: nat, autoAcceptEnabled: bool, claimedAt: Time, now: Time, others: seq<seq<Action>>)
      returns (outcome: RouteOutcome)
      requires Valid() && w !in workers && |others| == 10
      modifies this
      ensures Valid() && old(run) <= run && w in workers && workers[w] == RouteDone(outcome) && Truthful(outcome, w, d)
      ensures outcome.NotClaimed? || outcome.Paused? ==> NeverWrote(origin, run, w)
      ensures Explained(d)
    {
      hide Valid, Truthful, Explained;
      outcome := PeekClaimExecute(w, d, autoAcceptEnabled, claimedAt, now, others);
      WroteNothing(w);
      IsExplained(d);
    }

    /** A finished decision has the status of its label, its message has gone to a human unless the case was
        accepted, and the worker that wrote the label had seen the cause of it. */
    ghost predicate Explained(d: nat)
      reads this
    {
      d < |decisions| ==>
        && EndsWell(Rows(), d)
        && (decisions[d].resultCode.Some? && !decisions[d].resultCode.value.ClassifierRequiredHumanReview? ==>
              LabelHasCause(origin, run, d, decisions[d].resultCode.value))
    }

    lemma IsExplained(d: nat)
      requires Valid()
      ensures Explained(d)
    {
      hide Exec, Fresh, EndsWell, LabelHasCause;
      if d < |decisions| {
        FinishedEndsWell(origin, run, d);
        if decisions[d].resultCode.Some? && !decisions[d].resultCode.value.ClassifierRequiredHumanReview? {
          LabelsHaveCauses(origin, run, d);
        }
      }
    }

    lemma WroteNothing(w: WorkerId)
      requires Valid() && w in workers
      ensures IsQuiet(workers[w]) ==> NeverWrote(origin, run, w)
    {
      hide Exec, Fresh, IsQuiet, NeverWrote;
      QuietNeverWrote(origin, run, w);
    }

    method PeekClaimExecute(w: WorkerId, d: nat, autoAcceptEnabled: bool, claimedAt: Time, now: Time, others: seq<seq<Action>>)
      returns (outcome: RouteOutcome)
      requires Valid() && w !in workers && |others| == 10
      modifies this
      ensures Valid() && old(run) <= run && w in workers && workers[w] == RouteDone(outcome) && Truthful(outcome, w, d)
    {
      hide Valid, Truthful;
      var next := PeekAt(w, d, autoAcceptEnabled);
      if next.RouteDone? { return next.routed; }
      Interleave({w}, others[0]);
      var claimed := Claim(w, d, claimedAt);
      if !claimed { return NotClaimed; }
      outcome := Execute(w, d, now, others[1..]);
    }

    /** The part of `processOne` after its claim. */
    method Execute(w: WorkerId, d: nat, now: Time, others: seq<seq<Action>>) returns (outcome: RouteOutcome)
      requires Valid() && w in workers && workers[w] == Stamped(d) && |others| == 9
      modifies this
      ensures Valid() && old(run) <= run && w in workers && workers[w] == RouteDone(outcome) && Truthful(outcome, w, d)
    {
      hide Valid, Truthful;
      Interleave({w}, others[0]);
      var token := ReadLease(w, d);
      Interleave({w}, others[1]);
      var action := ReadAction(w, d, token);
      if action.AutoAccept? {
        outcome := ExecuteAutoAccept(w, d, token, now, others[2..8]);
      } else {
        Interleave({w}, others[8]);
        outcome := ExecuteHumanReviewRouting(w, d, token, now);
      }
    }

    // ----- classification: one attempt, and the job around it -----

    method BeginClassify(w: WorkerId, settings: Settings, isLast: bool)
      requires Valid() && w !in workers
      modifies this
      ensures Valid() && run == old(run) + [StartClassify(w, settings, isLast)] && Rows() == old(Rows())
      ensures workers == old(workers)[w :=
        if settings.enabled then ClassifyStarted(settings, isLast) else ClassifyDone(SkippedDisabled)]
      ensures RowsBefore() == Rows()
    {
      ghost var was := run;
      workers := workers[w := if settings.enabled then ClassifyStarted(settings, isLast) else ClassifyDone(SkippedDisabled)];
      Note(StartClassify(w, settings, isLast));
      OneBefore(was, StartClassify(w, settings, isLast), Rows());
    }

    method LoadInbound(w: WorkerId, settings: Settings, isLast: bool) returns (eligible: bool)
      requires Valid() && w in workers && workers[w] == ClassifyStarted(settings, isLast)
      modifies this
      ensures Valid() && run == old(run) + [LoadMessage(w)] && Rows() == old(Rows())
      ensures eligible == (message.direction.Inbound? && message.status == Some(Pending))
      ensures workers == old(workers)[w :=
        if eligible then ClassifyLoaded(settings, isLast, renewalCase.Some?, message) else ClassifyDone(SkippedIneligible)]
    {
      eligible := message.direction.Inbound? && message.status == Some(Pending);
      workers := workers[w :=
        if eligible then ClassifyLoaded(settings, isLast, renewalCase.Some?, message) else ClassifyDone(SkippedIneligible)];
      Note(LoadMessage(w));
    }

    /** The one call to the provider in an attempt, with whatever it answers. */
    method AskProvider(w: WorkerId, answer: Answer) returns (next: Worker)
      requires Valid() && w in workers && workers[w].ClassifyLoaded?
      modifies this
      ensures Valid() && run == old(run) + [AskGateway(w, answer)] && Rows() == old(Rows())
      ensures next == AfterAnswer(old(workers)[w], answer) && workers == old(workers)[w := next]
      ensures RowsBefore() == Rows()
    {
      ghost var was := run;
      next := AfterAnswer(workers[w], answer);
      workers := workers[w := next];
      Note(AskGateway(w, answer));
      OneBefore(was, AskGateway(w, answer), Rows());
    }

    method PersistClassification(w: WorkerId, now: Time, createdAt: Time) returns (outcome: ClassifyOutcome)
      requires Valid() && w in workers && workers[w].ClassifyAnswered?
      modifies this
      ensures Valid() && run == old(run) + [Persist(w, now, createdAt)]
      ensures workers == old(workers)[w := ClassifyDone(outcome)]
      ensures outcome in {ClassifiedOutcome, HumanReviewOutcome, LostCas, TransactionError}
      ensures if outcome.TransactionError? then Rows() == old(Rows()) && StillPending() && renewalCase.None? else !StillPending()
    {
      var pc := workers[w];
      var status := PersistTransaction(pc.linked, pc.seen, pc.result, pc.settings, now, createdAt);
      outcome := match status
        case TxCommitted => if RequiresReview(pc.result, pc.settings) then HumanReviewOutcome else ClassifiedOutcome
        case TxAborted(_) => LostCas
        case TxRaised => TransactionError;
      workers := workers[w := ClassifyDone(outcome)];
      Note(Persist(w, now, createdAt));
    }

    method HandOverMessage(w: WorkerId)
      requires Valid() && w in workers && workers[w].HandingOver?
      modifies this
      ensures Valid() && run == old(run) + [HandOver(w)] && !StillPending()
      ensures workers == old(workers)[w := ClassifyDone(FailedHumanReview)]
    {
      TransitionToHumanReview();
      workers := workers[w := ClassifyDone(FailedHumanReview)];
      Note(HandOver(w));
    }

    predicate StillPending()
      reads this
    {
      IsPending(Rows())
    }

    /** The rows before the latest action of the run. */
    ghost function RowsBefore(): Db
      requires run != []
      reads this
    {
      Exec(origin, run[..|run| - 1]).db
    }

    lemma OneBefore(was: seq<Action>, a: Action, rows: Db)
      requires run == was + [a] && Exec(origin, was).db == rows
      ensures run != [] && RowsBefore() == rows
    {
      assert run[..|run| - 1] == was;
    }

    /** One attempt. It calls the gateway once if it got that far, and never otherwise; an attempt that is
        skipped, rethrown, or loses its guard or its case has changed no row, whatever ran beside it. It is
        rethrown exactly after a failure worth retrying on an attempt that is not the last; any other failure
        of the provider hands the message over. The message is PENDING at the end exactly when the attempt went to store its result and found the case
        gone, or when it rethrew, or found AI disabled, with the message PENDING by then. */
    method ClassifyMessage(w: WorkerId, mine: set<WorkerId>, t: Try, isLast: bool) returns (outcome: ClassifyOutcome)
      requires Valid() && w in mine && w !in workers
      modifies this
      ensures Valid() && old(run) <= run && SameWorkers(mine - {w}, old(workers), workers)
      ensures w in workers && workers[w] == ClassifyDone(outcome)
      ensures GatewayCalls(origin, run, w) == if outcome.SkippedDisabled? || outcome.SkippedIneligible? then 0 else 1
      ensures IsQuiet(ClassifyDone(outcome)) ==> NeverWrote(origin, run, w)
      ensures outcome.Rethrown? <==> GatewayCalls(origin, run, w) == 1 && !isLast && WorthRetrying(t.answer)
      ensures outcome.FailedHumanReview? <==>
        && GatewayCalls(origin, run, w) == 1
        && (t.answer.Permanent? || t.answer.Malformed? || (isLast && WorthRetrying(t.answer)))
      ensures outcome.SkippedDisabled? <==> !t.settings.enabled
      ensures outcome.TransactionError? <==> WasStuck(origin, run, w)
      ensures Once(origin, run, Ends(w, outcome))
      ensures run != []
      ensures StillPending() <==>
        WasStuck(origin, run, w) || ((outcome.Rethrown? || !t.settings.enabled) && IsPending(RowsBefore()))
    {
      hide Valid, GatewayCalls, NeverWrote, WasStuck, RowsBefore, Once;
      outcome := AttemptClassification(w, mine, t, isLast);
      CallsAndWrites(w);
      EndedForItsCause(w, outcome);
    }

    lemma EndedForItsCause(w: WorkerId, outcome: ClassifyOutcome)
      requires Valid() && w in workers && workers[w] == ClassifyDone(outcome)
      ensures Once(origin, run, Ends(w, outcome))
    {
      hide Exec, Fresh, Once, Ends;
      EndsExactlyForItsCause(origin, run, w, outcome);
    }

    lemma CallsAndWrites(w: WorkerId)
      requires Valid()
      ensures GatewayCalls(origin, run, w) == if w in workers && HasAsked(workers[w]) then 1 else 0
      ensures w in workers && IsQuiet(workers[w]) ==> NeverWrote(origin, run, w)
      ensures w in workers && workers[w] == ClassifyDone(TransactionError) <==> WasStuck(origin, run, w)
    {
      hide Exec, Fresh, IsQuiet, NeverWrote, GatewayCalls, WasStuck;
      FailsExactlyWhenStuck(origin, run, w);
      OneGatewayCall(origin, run, w);
      QuietNeverWrote(origin, run, w);
    }

    method AttemptClassification(w: WorkerId, mine: set<WorkerId>, t: Try, isLast: bool) returns (outcome: ClassifyOutcome)
      requires Valid() && w in mine && w !in workers
      modifies this
      ensures Valid() && old(run) <= run && SameWorkers(mine - {w}, old(workers), workers)
      ensures w in workers && workers[w] == ClassifyDone(outcome)
      ensures outcome.Rethrown? <==> HasAsked(ClassifyDone(outcome)) && !isLast && WorthRetrying(t.answer)
      ensures outcome.FailedHumanReview? <==> HasAsked(ClassifyDone(outcome)) && !t.answer.Answered? && !outcome.Rethrown?
      ensures StillPending() ==> outcome.Rethrown? || outcome.SkippedDisabled? || outcome.TransactionError?
      ensures outcome.TransactionError? ==> StillPending()
      ensures outcome.SkippedDisabled? <==> !t.settings.enabled
      ensures run != [] && (outcome.Rethrown? || outcome.SkippedDisabled? ==> Rows() == RowsBefore())
    {
      hide Valid, RowsBefore;
      BeginClassify(w, t.settings, isLast);
      if !t.settings.enabled { return SkippedDisabled; }
      Interleave(mine, t.others.beforeLoad);
      var eligible := LoadInbound(w, t.settings, isLast);
      if !eligible { return SkippedIneligible; }
      outcome := AskAndStore(w, mine, t, isLast);
    }

    /** The attempt from the provider call on. */
    method AskAndStore(w: WorkerId, mine: set<WorkerId>, t: Try, isLast: bool) returns (outcome: ClassifyOutcome)
      requires Valid() && w in mine && w in workers
      requires workers[w].ClassifyLoaded? && workers[w].isLast == isLast
      modifies this
      ensures Valid() && old(run) <= run && SameWorkers(mine - {w}, old(workers), workers)
      ensures w in workers && workers[w] == ClassifyDone(outcome) && HasAsked(ClassifyDone(outcome))
      ensures outcome.Rethrown? <==> !isLast && WorthRetrying(t.answer)
      ensures outcome.FailedHumanReview? <==> !t.answer.Answered? && !outcome.Rethrown?
      ensures StillPending() ==> outcome.Rethrown? || outcome.TransactionError?
      ensures outcome.TransactionError? ==> StillPending()
      ensures run != [] && (outcome.Rethrown? ==> Rows() == RowsBefore())
    {
      hide Valid, StillPending, RowsBefore;
      Interleave(mine, t.others.beforeCall);
      var next := AskProvider(w, t.answer);
      if next.ClassifyDone? { return Rethrown; }
      Interleave(mine, t.others.beforeWrite);
      if next.ClassifyAnswered? {
        outcome := PersistClassification(w, t.now, t.createdAt);
      } else {
        HandOverMessage(w);
        outcome := FailedHumanReview;
      }
    }

    /** A classification job with its attempt budget (1 when the job carries none): it is tried again
        after a thrown attempt while the budget lasts. All its attempts together call the gateway at most
        once each. It goes on to another attempt exactly when attempts are left and the one before called the
        gateway and heard of a failure worth retrying, or was stuck. The message is PENDING at the end exactly when the ending attempt went to store a result
        for a linked case that was gone by then, or found AI disabled with the message still PENDING. */
    method RunJob(ids: seq<WorkerId>, tries: seq<Try>, budget: Option<nat>) returns (last: ClassifyOutcome, attempts: nat)
      requires Valid()
      requires |ids| == |tries| && Limit(budget) <= |tries|
      requires forall i :: 0 <= i < |ids| ==> ids[i] !in workers
      requires forall i, j :: 0 <= i < j < |ids| ==> ids[i] != ids[j]
      modifies this
      ensures Valid() && old(run) <= run
      ensures 1 <= attempts <= Limit(budget)
      ensures forall i :: 0 <= i < |ids| ==> GatewayCalls(origin, run, ids[i]) <= if i < attempts then 1 else 0
      ensures JobCalls(origin, run, ids) <= attempts
      ensures forall i :: 0 <= i < attempts ==>
        (attempts > i + 1 <==>
           && i + 1 < Limit(budget)
           && ((GatewayCalls(origin, run, ids[i]) == 1 && WorthRetrying(tries[i].answer)) || WasStuck(origin, run, ids[i])))
      ensures !last.Rethrown? && (last.TransactionError? ==> attempts == Limit(budget))
      ensures last.SkippedDisabled? <==> !tries[attempts - 1].settings.enabled
      ensures last.TransactionError? <==> WasStuck(origin, run, ids[attempts - 1])
      ensures run != []
      ensures StillPending() <==>
        if tries[attempts - 1].settings.enabled then WasStuck(origin, run, ids[attempts - 1]) else IsPending(RowsBefore())
    {
      hide Valid, StillPending, GatewayCalls, NeverWrote, WasStuck, RowsBefore;
      last, attempts := TryWhileThrown(ids, tries, budget);
      forall i | 0 <= i < |ids| ensures GatewayCalls(origin, run, ids[i]) <= if i < attempts then 1 else 0 {
        CallsAndWrites(ids[i]);
      }
      CallsAddUp(origin, run, ids, attempts);
      forall i | 0 <= i < attempts
        ensures attempts > i + 1 <==>
          && i + 1 < Limit(budget)
          && ((GatewayCalls(origin, run, ids[i]) == 1 && WorthRetrying(tries[i].answer)) || WasStuck(origin, run, ids[i]))
      {
        CallsAndWrites(ids[i]);
        assert i < attempts - 1 ==> Thrown(workers[ids[i]], tries[i]);
      }
    }

    /** The attempt was rethrown after a failure worth retrying, or its transaction failed. */
    predicate Thrown(pc: Worker, t: Try) {
      (pc == ClassifyDone(Rethrown) && WorthRetrying(t.answer)) || pc == ClassifyDone(TransactionError)
    }

    method TryWhileThrown(ids: seq<WorkerId>, tries: seq<Try>, budget: Option<nat>)
      returns (last: ClassifyOutcome, attempts: nat)
      requires Valid()
      requires |ids| == |tries| && Limit(budget) <= |tries|
      requires forall i :: 0 <= i < |ids| ==> ids[i] !in workers
      requires forall i, j :: 0 <= i < j < |ids| ==> ids[i] != ids[j]
      modifies this
      ensures Valid() && old(run) <= run
      ensures 1 <= attempts <= Limit(budget)
      ensures forall i :: attempts <= i < |ids| ==> ids[i] !in workers
      ensures forall i :: 0 <= i < attempts - 1 ==> ids[i] in workers && Thrown(workers[ids[i]], tries[i])
      ensures ids[attempts - 1] in workers && workers[ids[attempts - 1]] == ClassifyDone(last)
      ensures attempts < Limit(budget) ==>
        !last.TransactionError? && !(HasAsked(ClassifyDone(last)) && WorthRetrying(tries[attempts - 1].answer))
      ensures !last.Rethrown? && (last.TransactionError? ==> attempts == Limit(budget))
      ensures last.SkippedDisabled? <==> !tries[attempts - 1].settings.enabled
      ensures last.TransactionError? <==> WasStuck(origin, run, ids[attempts - 1])
      ensures run != []
      ensures StillPending() <==>
        if tries[attempts - 1].settings.enabled then WasStuck(origin, run, ids[attempts - 1]) else IsPending(RowsBefore())
    {
      hide Valid, StillPending, GatewayCalls, NeverWrote, WasStuck, RowsBefore, Once;
      var mine := set i | 0 <= i < |ids| :: ids[i];
      attempts := 0;
      while true
        invariant Valid() && old(run) <= run
        invariant attempts < Limit(budget)
        invariant forall i :: attempts <= i < |ids| ==> ids[i] !in workers
        invariant forall i :: 0 <= i < attempts ==> ids[i] in workers && Thrown(workers[ids[i]], tries[i])
        decreases Limit(budget) - attempts
      {
        var isLast := attempts + 1 >= Limit(budget);
        last := ClassifyMessage(ids[attempts], mine, tries[attempts], isLast);
        CallsAndWrites(ids[attempts]);
        assert forall i :: attempts < i < |ids| ==> ids[i] in mine - {ids[attempts]};
        attempts := attempts + 1;
        if (!last.Rethrown? && !last.TransactionError?) || isLast { return; }
        Interleave(mine, tries[attempts].delay);
      }
    }
  }

  /** The gateway calls of all attempts of a job. */
  function JobCalls(origin: System, run: seq<Action>, ids: seq<WorkerId>): nat {
    if ids == [] then 0 else JobCalls(origin, run, ids[..|ids| - 1]) + GatewayCalls(origin, run, ids[|ids| - 1])
  }

  lemma {:induction false} CallsAddUp(origin: System, run: seq<Action>, ids: seq<WorkerId>, attempts: nat)
    requires forall i :: 0 <= i < |ids| ==> GatewayCalls(origin, run, ids[i]) <= if i < attempts then 1 else 0
    ensures JobCalls(origin, run, ids) <= if |ids| <= attempts then |ids| else attempts
    decreases |ids|
  {
    hide GatewayCalls;
    if ids != [] {
      CallsAddUp(origin, run, ids[..|ids| - 1], attempts);
    }
  }

  lemma CaseReadGoes(db: Db, pc: Worker)
    requires pc.ReadingCase?
    ensures var next := ReadCaseNext(db, pc);
      next.d == pc.d && (next.Finalizing? || next.FallingBack? || (next.ReadingReview? && next.token == pc.token))
  {
  }

  // ----- what the last transactions say of the lease -----

  lemma AcceptIsTrue(s: System, w: WorkerId, now: Time)
    requires w in s.workers && s.workers[w].Accepting? && s.workers[w].d < |s.db.decisions|
    ensures var pc := s.workers[w]; var r := AcceptTx(s.db, pc.d, pc.token, pc.seenCase, now);
      && (AfterAccept(pc.d, pc.token, Status(r)).RouteDone? ==>
            OutcomeTrue(AfterAccept(pc.d, pc.token, Status(r)).routed, w, pc.d, s, After(s.db, r)))
  {
  }

  lemma HumanIsTrue(s: System, w: WorkerId, now: Time)
    requires w in s.workers && s.workers[w].RoutingHuman? && s.workers[w].d < |s.db.decisions|
    ensures var pc := s.workers[w]; var r := HumanTx(s.db, pc.d, pc.token, now);
      && (!r.Committed? ==> OutcomeTrue(Conflict, w, pc.d, s, s.db))
      && (r.Committed? ==>
            && pc.d < |r.db.decisions|
            && OutcomeTrue(if r.db.decisions[pc.d].status.RoutingSucceeded? then Succeeded else Skipped, w, pc.d, s, r.db))
  {
  }

  lemma FinalizeIsTrue(s: System, w: WorkerId, now: Time)
    requires w in s.workers && s.workers[w].Finalizing? && s.workers[w].status.RoutingSkipped?
    requires s.workers[w].d < |s.db.decisions|
    ensures var pc := s.workers[w];
      OutcomeTrue(Skipped, w, pc.d, s, FinalizeDb(s.db, pc.d, pc.token, pc.status, pc.code, now))
  {
  }

  lemma FallbackIsTrue(s: System, w: WorkerId, now: Time)
    requires w in s.workers && s.workers[w].FallingBack? && s.workers[w].d < |s.db.decisions|
    ensures var pc := s.workers[w];
      OutcomeTrue(Skipped, w, pc.d, s, After(s.db, FallbackTx(s.db, pc.d, pc.token, pc.code, now)))
  {
  }
}
