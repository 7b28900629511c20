/** Two runs that end otherwise than one would expect: a classification job whose message stays PENDING,
    and a routing worker that returns `skipped` after its lease was lost. */
module RoutingWitnesses {
  import opened Options
  import opened RoutingModel

  lemma {:induction false} ExecThrough(states: seq<System>, run: seq<Action>)
    requires |states| == |run| + 1
    requires forall i :: 0 <= i < |run| ==> states[i + 1] == Step(states[i], run[i])
    ensures Exec(states[0], run) == states[|run|]
    decreases |run|
  {
    if run != [] {
      ExecThrough(states[..|run|], run[..|run| - 1]);
    }
  }

  function Arrived(): Message {
    Message(Inbound, Some(Pending), 0, 0)
  }

  function Eager(): Settings {
    Settings(true, 0.5, true, Some(0))
  }

  function Sure(): Normalized {
    Normalized(AcceptRenewal, 1.0, false)
  }

  function Ingested(): System {
    System(Db(Arrived(), Open, Some(Upcoming), [], [], [], []), map[])
  }

  /** A last attempt loads the message with its case, which is then closed and deleted. */
  function CaseGoneRun(): seq<Action> {
    [StartClassify(0, Eager(), true), LoadMessage(0), SetCase(1, Closed), DeleteCase(1)]
  }

  function CaseGone(): System {
    System(Ingested().db.(renewalCase := None), map[0 := ClassifyLoaded(Eager(), true, true, Arrived())])
  }

  lemma CaseGoes()
    ensures Exec(Ingested(), CaseGoneRun()) == CaseGone()
  {
    hide RouteMove, PersistTx, ReviewTx, HandOverDb;
    var o, r := Ingested(), CaseGoneRun();
    var s1 := Step(o, r[0]);
    var s2 := Step(s1, r[1]);
    assert s2.workers == CaseGone().workers;
    var s3 := Step(s2, r[2]);
    var s4 := Step(s3, r[3]);
    assert s4 == CaseGone();
    ExecThrough([o, s1, s2, s3, s4], r);
  }

  /** The attempt that then stores its result ends with the message still PENDING. */
  lemma DeletedCaseLeavesPending()
    ensures Fresh(Ingested())
    ensures var s := Exec(Ingested(), CaseGoneRun() + [AskGateway(0, Answered(Sure())), Persist(0, 0, 0)]);
      && 0 in s.workers && s.workers[0] == ClassifyDone(TransactionError) && s.db.message.status == Some(Pending)
  {
    hide RouteMove, ReviewTx, HandOverDb, DecideAction, RequiresReview, OutsideStep;
    var r := [AskGateway(0, Answered(Sure())), Persist(0, 0, 0)];
    var s1 := Step(CaseGone(), r[0]);
    assert s1.workers[0] == ClassifyAnswered(Eager(), true, Arrived(), Sure());
    var s2 := Step(s1, r[1]);
    hide Step;
    CaseGoes();
    ExecThrough([CaseGone(), s1, s2], r);
    ExecPlus(Ingested(), CaseGoneRun(), r);
  }

  /** The deletion alone is not enough: when the provider's answer is malformed, the same attempt hands the
      message to a human. */
  lemma DeletedCaseMayBeHandedOver()
    ensures var s := Exec(Ingested(), CaseGoneRun() + [AskGateway(0, Malformed), HandOver(0)]);
      s.db.renewalCase.None? && s.db.message.status == Some(HumanReview)
  {
    hide RouteMove;
    var r := [AskGateway(0, Malformed), HandOver(0)];
    var s1 := Step(CaseGone(), r[0]);
    assert s1.workers[0] == HandingOver(MalformedOutput);
    var s2 := Step(s1, r[1]);
    hide Step;
    CaseGoes();
    ExecThrough([CaseGone(), s1, s2], r);
    ExecPlus(Ingested(), CaseGoneRun(), r);
  }

  function ClassifiedRun(): seq<Action> {
    [StartClassify(0, Eager(), true), LoadMessage(0), AskGateway(0, Answered(Sure())), Persist(0, 0, 0)]
  }

  /** The rows once that message is classified. */
  function ClassifiedDb(): Db {
    Db(Arrived().(status := Some(Classified)), Open, Some(Upcoming), [Classification(Sure(), Eager(), 0, 0)],
       [Decision(0, AutoAccept, RoutingPending, None, 0, None, None)], [], [ClassificationCreated(0)])
  }

  lemma ClassifiedRunClassifies()
    ensures Exec(Ingested(), ClassifiedRun()) == System(ClassifiedDb(), map[0 := ClassifyDone(ClassifiedOutcome)])
  {
    hide RouteMove;
    var o, r := Ingested(), ClassifiedRun();
    var s1 := Step(o, r[0]);
    var s2 := Step(s1, r[1]);
    assert s2.workers == map[0 := ClassifyLoaded(Eager(), true, true, Arrived())];
    var s3 := Step(s2, r[2]);
    assert s3.workers == map[0 := ClassifyAnswered(Eager(), true, Arrived(), Sure())];
    var s4 := Step(s3, r[3]);
    assert s4.db == ClassifiedDb() && s4.workers == map[0 := ClassifyDone(ClassifiedOutcome)];
    ExecThrough([o, s1, s2, s3, s4], r);
  }

  /** Worker 1 routes the decision while worker 0 is done classifying. */
  function Routing(db: Db, pc: Worker): System {
    System(db, map[0 := ClassifyDone(ClassifiedOutcome), 1 := pc])
  }

  /** The rows while worker 1 holds the lease of the decision. */
  function LeasedDb(): Db {
    ClassifiedDb().(decisions := [Decision(0, AutoAccept, RoutingProcessing, None, 1, Some(0), None)])
  }

  /** Another part of the system has accepted the case by then. */
  function AcceptedDb(): Db {
    LeasedDb().(renewalCase := Some(Accepted))
  }

  /** A step of worker 1 that reads and moves on. */
  lemma Reads(db: Db, pc: Worker, a: Action, next: Worker)
    requires a.w == 1 && !Outside(a) && !OfClassifier(a) && DecisionOf(pc).Some? && DecisionOf(pc).value < |db.decisions|
    requires RouteMove(Routing(db, pc), a, pc) == Put(Routing(db, pc), 1, next)
    ensures Step(Routing(db, pc), a) == Routing(db, next)
  {
    hide RouteMove;
    assert Routing(db, pc).workers[1 := next] == Routing(db, next).workers;
  }

  lemma Claims()
    ensures Step(Routing(ClassifiedDb(), Peeked(0)), ClaimDecision(1, 0)) == Routing(LeasedDb(), Stamped(0))
  {
    var s := Step(Routing(ClassifiedDb(), Peeked(0)), ClaimDecision(1, 0));
    assert s.db.decisions == LeasedDb().decisions && s.workers == Routing(LeasedDb(), Stamped(0)).workers;
  }

  function LeaseRun(): seq<Action> {
    [Peek(1, 0, true), ClaimDecision(1, 0), ReadToken(1), ReadDecision(1)]
  }

  lemma Leases()
    ensures Exec(System(ClassifiedDb(), map[0 := ClassifyDone(ClassifiedOutcome)]), LeaseRun())
         == Routing(LeasedDb(), ReadingClassification(0, 0))
  {
    var o, r := System(ClassifiedDb(), map[0 := ClassifyDone(ClassifiedOutcome)]), LeaseRun();
    assert Step(o, r[0]) == Routing(ClassifiedDb(), Peeked(0));
    Claims();
    Reads(LeasedDb(), Stamped(0), r[2], Worker.Leased(0, 0));
    Reads(LeasedDb(), Worker.Leased(0, 0), r[3], ReadingClassification(0, 0));
    hide Step, ClassifiedDb, LeasedDb, RouteMove;
    ExecThrough([o, Routing(ClassifiedDb(), Peeked(0)), Routing(LeasedDb(), Stamped(0)),
                 Routing(LeasedDb(), Worker.Leased(0, 0)), Routing(LeasedDb(), ReadingClassification(0, 0))], r);
  }

  function FindsAcceptedRun(): seq<Action> {
    [ReadClassification(1), ReadLatest(1), SetCase(9, Accepted), ReadCase(1)]
  }

  lemma FindsAccepted()
    ensures Exec(Routing(LeasedDb(), ReadingClassification(0, 0)), FindsAcceptedRun())
         == Routing(AcceptedDb(), Finalizing(0, 0, RoutingSkipped, SkippedAlreadyAccepted))
  {
    var o, r := Routing(LeasedDb(), ReadingClassification(0, 0)), FindsAcceptedRun();
    Reads(LeasedDb(), ReadingClassification(0, 0), r[0], ReadingLatest(0, 0, true));
    Reads(LeasedDb(), ReadingLatest(0, 0, true), r[1], ReadingCase(0, 0, true));
    assert Step(Routing(LeasedDb(), ReadingCase(0, 0, true)), r[2]) == Routing(AcceptedDb(), ReadingCase(0, 0, true));
    Reads(AcceptedDb(), ReadingCase(0, 0, true), r[3], Finalizing(0, 0, RoutingSkipped, SkippedAlreadyAccepted));
    hide Step, LeasedDb, AcceptedDb, RouteMove;
    ExecThrough([o, Routing(LeasedDb(), ReadingLatest(0, 0, true)), Routing(LeasedDb(), ReadingCase(0, 0, true)),
                 Routing(AcceptedDb(), ReadingCase(0, 0, true)),
                 Routing(AcceptedDb(), Finalizing(0, 0, RoutingSkipped, SkippedAlreadyAccepted))], r);
  }

  function TakenOverRun(): seq<Action> {
    [Peek(2, 0, true), ClaimDecision(2, 120_001), Finalize(1, 0)]
  }

  /** Worker 2 finds the lease stale. */
  lemma TakesOver()
    ensures var s := Step(Step(Routing(AcceptedDb(), Finalizing(0, 0, RoutingSkipped, SkippedAlreadyAccepted)),
                               Peek(2, 0, true)), ClaimDecision(2, 120_001));
      && 1 in s.workers && s.workers[1] == Finalizing(0, 0, RoutingSkipped, SkippedAlreadyAccepted)
      && s.db.decisions == [Decision(0, AutoAccept, RoutingProcessing, None, 2, Some(120_001), None)]
  {
    hide AcceptTx, HumanTx, FallbackTx, FinalizeDb, PersistTx, ReviewTx;
    var o := Routing(AcceptedDb(), Finalizing(0, 0, RoutingSkipped, SkippedAlreadyAccepted));
    var s1 := Step(o, Peek(2, 0, true));
    assert s1 == Put(o, 2, Peeked(0));
  }

  lemma TakenOver()
    ensures var s := Exec(Routing(AcceptedDb(), Finalizing(0, 0, RoutingSkipped, SkippedAlreadyAccepted)), TakenOverRun());
      && 1 in s.workers && s.workers[1] == RouteDone(Skipped)
      && |s.db.decisions| == 1 && s.db.decisions[0].status.RoutingProcessing?
  {
    var o, r := Routing(AcceptedDb(), Finalizing(0, 0, RoutingSkipped, SkippedAlreadyAccepted)), TakenOverRun();
    TakesOver();
    var s1 := Step(o, r[0]);
    var s2 := Step(s1, r[1]);
    var s3 := Step(s2, r[2]);
    FinalizesNothing(s2);
    hide Step, AcceptedDb;
    ExecThrough([o, s1, s2, s3], r);
  }

  lemma FinalizesNothing(s: System)
    requires 1 in s.workers && s.workers[1] == Finalizing(0, 0, RoutingSkipped, SkippedAlreadyAccepted)
    requires s.db.decisions == [Decision(0, AutoAccept, RoutingProcessing, None, 2, Some(120_001), None)]
    ensures Step(s, Finalize(1, 0)) == Put(s, 1, RouteDone(Skipped))
  {
  }

  /** A worker that has lost its lease still returns `skipped`, while the decision is being worked on by
      another. */
  lemma SkippedWithoutLease()
    ensures Fresh(Ingested())
    ensures var s := Exec(Ingested(), ClassifiedRun() + LeaseRun() + FindsAcceptedRun() + TakenOverRun());
      && 1 in s.workers && s.workers[1] == RouteDone(Skipped)
      && |s.db.decisions| == 1 && s.db.decisions[0].status.RoutingProcessing?
  {
    ClassifiedRunClassifies();
    Leases();
    FindsAccepted();
    TakenOver();
    hide Step, Exec;
    ExecPlus(Ingested(), ClassifiedRun(), LeaseRun());
    ExecPlus(Ingested(), ClassifiedRun() + LeaseRun(), FindsAcceptedRun());
    ExecPlus(Ingested(), ClassifiedRun() + LeaseRun() + FindsAcceptedRun(), TakenOverRun());
  }

  lemma {:induction false} ExecPlus(s: System, run: seq<Action>, more: seq<Action>)
    ensures Exec(s, run + more) == Exec(Exec(s, run), more)
    decreases |more|
  {
    if more == [] {
      assert run + more == run;
    } else {
      var init := more[..|more| - 1];
      ExecPlus(s, run, init);
      assert (run + more)[..|run + more| - 1] == run + init;
    }
  }
}
