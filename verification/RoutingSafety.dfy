/** What every run of classification, routing and review keeps. */
module RoutingSafety {
  import opened Options
  import opened RoutingModel

  // ----- the inductive invariant of the rows -----

  predicate Finished(d: Decision) {
    d.status.RoutingSucceeded? || d.status.RoutingSkipped? || d.status.RoutingFailed?
  }

  /** The facts that the AUTO_ACCEPT snapshot was taken from. */
  predicate EligibleForAutoAccept(c: Classification, message: Message) {
    && c.result.intent.AcceptRenewal? && !c.result.requiresHumanReview
    && c.result.confidence >= c.settings.threshold
    && c.settings.autoAccept && c.settings.cutoverAt.Some?
    && c.decidedAt >= c.settings.cutoverAt.value
    && message.createdAt >= c.settings.cutoverAt.value
    && message.occurredAt >= c.settings.cutoverAt.value
  }

  function CountAccepts(audit: seq<Event>, d: nat): nat {
    if audit == [] then 0
    else
      var last := audit[|audit| - 1];
      CountAccepts(audit[..|audit| - 1], d) + if last.AutoAcceptedCase? && last.decisionId == d then 1 else 0
  }

  lemma CountAppend(audit: seq<Event>, e: Event, d: nat)
    ensures CountAccepts(audit + [e], d) == CountAccepts(audit, d) + if e.AutoAcceptedCase? && e.decisionId == d then 1 else 0
  {
    assert (audit + [e])[..|audit + [e]| - 1] == audit;
  }

  predicate RowsOk(db: Db) {
    && |db.decisions| == |db.classifications| <= 1
    && (db.decisions != [] ==> db.decisions[0].classificationId == 0)
    && (db.message.direction.Outbound? ==> db.message.status.None? && db.classifications == [])
    && (db.message.direction.Inbound? ==> db.message.status.Some?)
    && (db.classifications != [] ==> db.message.status != Some(Pending))
    && (db.reviews != [] <==> db.message.status == Some(Resolved))
    && (db.reviews != [] ==> db.classifications != [])
    && (forall i :: 0 <= i < |db.reviews| ==> db.reviews[i].classificationId < |db.classifications|)
  }

  predicate DecisionOk(db: Db, d: nat)
    requires d < |db.decisions| && d < |db.classifications|
  {
    var row := db.decisions[d];
    && (Finished(row) <==> row.completedAt.Some?)
    && (Finished(row) <==> row.resultCode.Some?)
    && (row.status.RoutingPending? ==> row.lastAttemptAt.None?)
    && (row.status.RoutingProcessing? ==> row.lastAttemptAt.Some?)
    && (!Finished(row) ==> db.message.status in {Some(Classified), Some(Resolved)})
    && !row.status.RoutingFailed?
    && row.resultCode != Some(InvariantViolation) && row.resultCode != Some(SkippedClassificationSuperseded)
    && (row.resultCode == Some(SkippedHumanAlreadyReviewed) ==> db.reviews != [])
    && (row.action.AutoAccept? ==> EligibleForAutoAccept(db.classifications[d], db.message))
    && (row.resultCode == Some(AutoAccepted) ==> row.action.AutoAccept? && row.status.RoutingSucceeded?)
    && CountAccepts(db.audit, d) == if row.resultCode == Some(AutoAccepted) then 1 else 0
  }

  predicate AuditOk(db: Db) {
    && (forall i :: 0 <= i < |db.audit| && db.audit[i].AutoAcceptedCase? ==>
          LegalForAccepted(db.audit[i].from) && db.audit[i].decisionId < |db.decisions|)
    && (forall i :: 0 <= i < |db.audit| && db.audit[i].ReviewCreated? ==> db.reviews != [])
    && (forall i, j :: 0 <= i < j < |db.audit| && db.audit[i].ReviewCreated? ==> !db.audit[j].AutoAcceptedCase?)
  }

  predicate DbInv(db: Db) {
    && RowsOk(db)
    && (db.decisions != [] ==> DecisionOk(db, 0))
    && AuditOk(db)
  }

  // ----- the inductive invariant of the workers -----

  predicate Late(status: Option<MessageStatus>) {
    status == Some(HumanReview) || status == Some(Resolved)
  }

  predicate AutoWorker(pc: Worker) {
    || pc.ReadingClassification? || pc.ReadingLatest? || pc.ReadingCase? || pc.ReadingReview? || pc.Accepting?
    || pc.CaseLost? || pc.Finalizing? || pc.FallingBack?
  }

  predicate WorkerOk(db: Db, pc: Worker) {
    && (pc.ClassifyLoaded? || pc.ClassifyAnswered? ==>
          pc.seen.createdAt == db.message.createdAt && pc.seen.occurredAt == db.message.occurredAt)
    && (DecisionOf(pc).Some? ==> DecisionOf(pc).value < |db.decisions|)
    && (pc.Stamped? ==> db.decisions[pc.d].lastAttemptAt.Some?)
    && (AutoWorker(pc) ==> db.decisions[DecisionOf(pc).value].action.AutoAccept?)
    && (pc.ReadingReview? || pc.Accepting? ==> LegalForAccepted(pc.seenCase))
    && (pc.Finalizing? ==> pc.status.RoutingSkipped? && pc.code in {SkippedAlreadyAccepted, SkippedHumanAlreadyReviewed})
    && (pc.Finalizing? && pc.code.SkippedHumanAlreadyReviewed? ==> Late(db.message.status))
    && (pc.FallingBack? ==> pc.code in {SkippedNoRenewalCase, SkippedConcurrentBusinessDecision})
  }

  predicate Inv(s: System) {
    DbInv(s.db) && forall w :: w in s.workers ==> WorkerOk(s.db, s.workers[w])
  }

  function Rank(status: MessageStatus): nat {
    match status
    case Pending => 0
    case Classified => 1
    case HumanReview => 2
    case Resolved => 3
  }

  /** How the rows may change: forwards only. */
  predicate Grows(db: Db, db': Db) {
    && db'.message.direction == db.message.direction
    && db'.message.createdAt == db.message.createdAt && db'.message.occurredAt == db.message.occurredAt
    && (db.message.status.Some? ==> db'.message.status.Some? && Rank(db'.message.status.value) >= Rank(db.message.status.value))
    && |db'.decisions| >= |db.decisions|
    && (forall d :: 0 <= d < |db.decisions| ==>
          && db'.decisions[d].action == db.decisions[d].action
          && (db.decisions[d].lastAttemptAt.Some? ==> db'.decisions[d].lastAttemptAt.Some?))
    && db.classifications <= db'.classifications
    && db.reviews <= db'.reviews
    && db.audit <= db'.audit
  }

  // ----- transactions keep the rows right -----

  lemma AcceptKeeps(db: Db, d: nat, token: Time, seenCase: CaseStatus, now: Time)
    requires DbInv(db) && d < |db.decisions| && db.decisions[d].action.AutoAccept? && LegalForAccepted(seenCase)
    ensures var r := AcceptTx(db, d, token, seenCase, now); r.Committed? ==> DbInv(r.db) && Grows(db, r.db)
  {
    CountAppend(db.audit, AutoAcceptedCase(d, seenCase), d);
  }

  function RoutedAndFinished(db: Db, d: nat, status: RoutingStatus, code: ResultCode, logged: bool, now: Time): Db
    requires d < |db.decisions|
  {
    TryRoute(db).0.(decisions := db.decisions[d := Finish(db.decisions[d], status, code, now)],
                    audit := db.audit + if logged then [HumanReviewRouted(d)] else [])
  }

  lemma RoutedKeeps(db: Db, d: nat, status: RoutingStatus, code: ResultCode, logged: bool, now: Time)
    requires DbInv(db) && d < |db.decisions| && db.decisions[d].status.RoutingProcessing?
    requires status.RoutingSucceeded? || status.RoutingSkipped?
    requires code in {RoutedToHumanReview, SkippedNoRenewalCase, SkippedConcurrentBusinessDecision}
          || (code.SkippedHumanAlreadyReviewed? && TryRoute(db).1.AlreadyResolved?)
    ensures DbInv(RoutedAndFinished(db, d, status, code, logged, now))
    ensures Grows(db, RoutedAndFinished(db, d, status, code, logged, now))
  {
    CountAppend(db.audit, HumanReviewRouted(d), d);
    assert db.audit + [] == db.audit;
  }

  lemma HumanKeeps(db: Db, d: nat, token: Time, now: Time)
    requires DbInv(db) && d < |db.decisions|
    ensures var r := HumanTx(db, d, token, now); r.Committed? ==> DbInv(r.db) && Grows(db, r.db)
  {
    if HoldsDecision(db.decisions[d], token) {
      var resolved := TryRoute(db).1.AlreadyResolved?;
      var status := if resolved then RoutingSkipped else RoutingSucceeded;
      var code := if resolved then SkippedHumanAlreadyReviewed else RoutedToHumanReview;
      RoutedKeeps(db, d, status, code, !resolved, now);
      hide DbInv, Grows;
      assert db.audit + [] == db.audit;
      assert HumanTx(db, d, token, now).db == RoutedAndFinished(db, d, status, code, !resolved, now);
    }
  }

  lemma FallbackKeeps(db: Db, d: nat, token: Time, code: ResultCode, now: Time)
    requires DbInv(db) && d < |db.decisions| && code in {SkippedNoRenewalCase, SkippedConcurrentBusinessDecision}
    ensures var r := FallbackTx(db, d, token, code, now); r.Committed? ==> DbInv(r.db) && Grows(db, r.db)
  {
    if HoldsDecision(db.decisions[d], token) {
      var routing := TryRoute(db).1;
      var finalCode := if routing.AlreadyResolved? then SkippedHumanAlreadyReviewed else code;
      RoutedKeeps(db, d, RoutingSkipped, finalCode, routing.Routed?, now);
      hide DbInv, Grows;
      assert FallbackTx(db, d, token, code, now).db == RoutedAndFinished(db, d, RoutingSkipped, finalCode, routing.Routed?, now);
    }
  }

  lemma FinalizeKeeps(db: Db, d: nat, token: Time, code: ResultCode, now: Time)
    requires DbInv(db) && d < |db.decisions| && code in {SkippedAlreadyAccepted, SkippedHumanAlreadyReviewed}
    requires code.SkippedHumanAlreadyReviewed? ==> Late(db.message.status)
    ensures DbInv(FinalizeDb(db, d, token, RoutingSkipped, code, now))
    ensures Grows(db, FinalizeDb(db, d, token, RoutingSkipped, code, now))
  {
  }

  lemma PersistKeeps(db: Db, linked: bool, seen: Message, result: Normalized, settings: Settings, now: Time, createdAt: Time)
    requires DbInv(db) && seen.createdAt == db.message.createdAt && seen.occurredAt == db.message.occurredAt
    ensures var r := PersistTx(db, linked, seen, result, settings, now, createdAt);
      r.Committed? ==> DbInv(r.db) && Grows(db, r.db)
  {
    var r := PersistTx(db, linked, seen, result, settings, now, createdAt);
    if r.Committed? {
      assert db.decisions == [];
      NoDecisionNoAccept(db.audit, 0);
      CountAppend(db.audit, r.db.audit[|db.audit|], 0);
      assert r.db.audit == db.audit + [r.db.audit[|db.audit|]];
    }
  }

  lemma NoDecisionNoAccept(audit: seq<Event>, d: nat)
    requires forall i :: 0 <= i < |audit| ==> !audit[i].AutoAcceptedCase?
    ensures CountAccepts(audit, d) == 0
  {
  }

  lemma ReviewKeeps(db: Db, cid: nat, intent: Intent, createdAt: Time, id: nat)
    requires DbInv(db)
    ensures DbInv(ReviewTx(db, cid, intent, createdAt, id)) && Grows(db, ReviewTx(db, cid, intent, createdAt, id))
  {
    if cid < |db.classifications| {
      CountAppend(db.audit, ReviewCreated(cid), 0);
      var db' := ReviewTx(db, cid, intent, createdAt, id);
      assert db'.reviews[|db.reviews|] == Review(cid, intent, createdAt, id);
    }
  }

  lemma HandOverKeeps(db: Db)
    requires DbInv(db)
    ensures DbInv(HandOverDb(db)) && Grows(db, HandOverDb(db))
  {
    CountAppend(db.audit, ClassificationFailed, 0);
  }

  lemma ClaimKeeps(db: Db, d: nat, now: Time)
    requires DbInv(db) && d < |db.decisions| && DecisionClaimable(db.decisions[d], now)
    ensures var row := db.decisions[d];
      var db' := db.(decisions := db.decisions[d :=
        row.(status := RoutingProcessing, lastAttemptAt := Some(now), attempts := row.attempts + 1)]);
      DbInv(db') && Grows(db, db')
  {
  }

  lemma ElsewhereKeeps(db: Db, renewalCase: Option<CaseStatus>, thread: ThreadStatus)
    requires DbInv(db)
    ensures var db' := db.(renewalCase := renewalCase, thread := thread); DbInv(db') && Grows(db, db')
  {
  }

  // ----- steps -----

  lemma WorkersStay(workers: map<WorkerId, Worker>, db: Db, db': Db)
    requires forall w :: w in workers ==> WorkerOk(db, workers[w])
    requires Grows(db, db')
    ensures forall w :: w in workers ==> WorkerOk(db', workers[w])
  {
  }

  lemma Unchanged(db: Db)
    ensures Grows(db, db)
  {
  }

  predicate Next(s: System, s': System) {
    Inv(s') && Grows(s.db, s'.db)
  }

  lemma Stay(s: System)
    requires Inv(s)
    ensures Next(s, s)
  {
  }

  /** The rows move forwards. */
  lemma Written(s: System, db: Db)
    requires Inv(s) && DbInv(db) && Grows(s.db, db)
    ensures Next(s, s.(db := db))
  {
    WorkersStay(s.workers, s.db, db);
  }

  /** The rows move forwards and the acting worker lands where it may be. */
  lemma Landed(s: System, db: Db, w: WorkerId, pc: Worker)
    requires Inv(s) && DbInv(db) && Grows(s.db, db) && WorkerOk(db, pc)
    ensures Next(s, Put(s.(db := db), w, pc))
  {
    WorkersStay(s.workers, s.db, db);
  }

  lemma Moved(s: System, w: WorkerId, pc: Worker)
    requires Inv(s) && WorkerOk(s.db, pc)
    ensures Next(s, Put(s, w, pc))
  {
    Unchanged(s.db);
  }

  lemma ElsewhereInv(s: System, renewalCase: Option<CaseStatus>, thread: ThreadStatus)
    requires Inv(s)
    ensures Next(s, s.(db := s.db.(renewalCase := renewalCase, thread := thread)))
  {
    ElsewhereKeeps(s.db, renewalCase, thread);
    hide DbInv, Grows;
    Written(s, s.db.(renewalCase := renewalCase, thread := thread));
  }

  lemma StartInv(s: System, w: WorkerId, settings: Settings, isLast: bool)
    requires Inv(s)
    ensures Next(s, Put(s, w, if settings.enabled then ClassifyStarted(settings, isLast) else ClassifyDone(SkippedDisabled)))
  {
    hide DbInv;
    Moved(s, w, if settings.enabled then ClassifyStarted(settings, isLast) else ClassifyDone(SkippedDisabled));
  }

  lemma PeekInv(s: System, w: WorkerId, d: nat, enabled: bool)
    requires Inv(s)
    ensures Next(s, PeekStep(s, w, d, enabled))
  {
    hide DbInv;
    Moved(s, w, PeekStep(s, w, d, enabled).workers[w]);
  }

  lemma OutsideInv(s: System, a: Action)
    requires Inv(s) && Outside(a)
    ensures Next(s, OutsideStep(s, a))
  {
    Stay(s);
    assert DbInv(s.db);
    hide Next, Inv, DbInv;
    match a
    case StartClassify(w, settings, isLast) => StartInv(s, w, settings, isLast);
    case Peek(w, d, enabled) => PeekInv(s, w, d, enabled);
    case CreateReview(_, cid, intent, createdAt, id) =>
      ReviewKeeps(s.db, cid, intent, createdAt, id);
      hide Grows, ReviewTx;
      Written(s, ReviewTx(s.db, cid, intent, createdAt, id));
    case SetCase(_, status) => ElsewhereInv(s, Some(status), s.db.thread);
    case DeleteCase(_) => if Deletable(s.db.renewalCase) { ElsewhereInv(s, None, s.db.thread); }
    case SetThread(_, status) => ElsewhereInv(s, s.db.renewalCase, status);
  }

  lemma PersistInv(s: System, w: WorkerId, pc: Worker, now: Time, createdAt: Time)
    requires Inv(s) && pc.ClassifyAnswered? && WorkerOk(s.db, pc)
    ensures Next(s, PersistStep(s, w, pc, now, createdAt))
  {
    PersistKeeps(s.db, pc.linked, pc.seen, pc.result, pc.settings, now, createdAt);
    var r := PersistTx(s.db, pc.linked, pc.seen, pc.result, pc.settings, now, createdAt);
    var done := PersistStep(s, w, pc, now, createdAt).workers[w];
    assert done.ClassifyDone?;
    hide DbInv, Grows, PersistTx;
    if r.Committed? { Landed(s, r.db, w, done); } else { Moved(s, w, done); }
  }

  lemma ClassifierInv(s: System, a: Action)
    requires Inv(s) && OfClassifier(a) && a.w in s.workers
    ensures Next(s, ClassifyMove(s, a, s.workers[a.w]))
  {
    Stay(s);
    var w, pc := a.w, s.workers[a.w];
    match a
    case LoadMessage(_) =>
      if pc.ClassifyStarted? { Moved(s, w, ClassifyMove(s, a, pc).workers[w]); }
    case AskGateway(_, answer) => if pc.ClassifyLoaded? { Moved(s, w, AfterAnswer(pc, answer)); }
    case Persist(_, now, createdAt) => if pc.ClassifyAnswered? { PersistInv(s, w, pc, now, createdAt); }
    case HandOver(_) =>
      if pc.HandingOver? {
        HandOverKeeps(s.db);
        hide DbInv, Grows;
        Landed(s, HandOverDb(s.db), w, ClassifyDone(FailedHumanReview));
      }
  }

  // where the reads of a routing worker take it

  lemma ReadDecisionOk(db: Db, pc: Worker)
    requires DbInv(db) && WorkerOk(db, pc) && pc.Leased?
    ensures WorkerOk(db, if db.decisions[pc.d].action.AutoAccept? then ReadingClassification(pc.d, pc.token) else RoutingHuman(pc.d, pc.token))
  {
  }

  lemma ReadClassificationOk(db: Db, pc: Worker)
    requires DbInv(db) && WorkerOk(db, pc) && pc.ReadingClassification?
    ensures db.decisions[pc.d].classificationId < |db.classifications|
    ensures WorkerOk(db, ReadClassificationNext(db, pc)) && ReadClassificationNext(db, pc).ReadingLatest?
  {
    assert EligibleForAutoAccept(db.classifications[0], db.message);
  }

  lemma ReadLatestOk(db: Db, pc: Worker)
    requires DbInv(db) && WorkerOk(db, pc) && pc.ReadingLatest?
    ensures WorkerOk(db, ReadLatestNext(db, pc)) && ReadLatestNext(db, pc).ReadingCase?
  {
  }

  lemma ReadCaseOk(db: Db, pc: Worker)
    requires DbInv(db) && WorkerOk(db, pc) && pc.ReadingCase?
    ensures WorkerOk(db, ReadCaseNext(db, pc))
  {
  }

  lemma ReadReviewOk(db: Db, pc: Worker)
    requires DbInv(db) && WorkerOk(db, pc) && pc.ReadingReview?
    ensures WorkerOk(db, ReadReviewNext(db, pc))
  {
  }

  lemma LostCaseOk(db: Db, pc: Worker)
    requires DbInv(db) && WorkerOk(db, pc) && pc.CaseLost?
    ensures WorkerOk(db, LostCaseNext(db, pc))
  {
  }

  /** A failed touch of a classified message means it has left CLASSIFIED forwards. */
  lemma TouchLost(db: Db)
    requires DbInv(db) && db.decisions != [] && db.message.status != Some(Classified)
    ensures Late(db.message.status)
  {
    assert db.classifications != [] && db.message.status.Some?;
    match db.message.status.value
    case Pending =>
    case Classified =>
    case HumanReview =>
    case Resolved =>
  }

  lemma AcceptInv(s: System, w: WorkerId, pc: Worker, now: Time)
    requires Inv(s) && WorkerOk(s.db, pc) && pc.Accepting?
    ensures Next(s, AcceptStep(s, w, pc, now))
  {
    hide Grows, RowsOk, DecisionOk, AuditOk;
    AcceptKeeps(s.db, pc.d, pc.token, pc.seenCase, now);
    var r := AcceptTx(s.db, pc.d, pc.token, pc.seenCase, now);
    var next := AcceptStep(s, w, pc, now).workers[w];
    if r.Committed? {
      assert next == RouteDone(Succeeded);
      hide DbInv, Grows, AcceptTx;
      Landed(s, r.db, w, next);
    } else {
      if s.db.message.status != Some(Classified) { TouchLost(s.db); }
      assert WorkerOk(s.db, next);
      hide DbInv, WorkerOk;
      Moved(s, w, next);
    }
  }

  lemma FinalizeInv(s: System, w: WorkerId, pc: Worker, now: Time)
    requires Inv(s) && WorkerOk(s.db, pc) && pc.Finalizing?
    ensures Next(s, FinalizeStep(s, w, pc, now))
  {
    FinalizeKeeps(s.db, pc.d, pc.token, pc.code, now);
    hide DbInv, Grows, FinalizeDb;
    Landed(s, FinalizeDb(s.db, pc.d, pc.token, pc.status, pc.code, now), w, RouteDone(Skipped));
  }

  lemma FallbackInv(s: System, w: WorkerId, pc: Worker, now: Time)
    requires Inv(s) && WorkerOk(s.db, pc) && pc.FallingBack?
    ensures Next(s, FallbackStep(s, w, pc, now))
  {
    FallbackKeeps(s.db, pc.d, pc.token, pc.code, now);
    hide DbInv, Grows, FallbackTx;
    var r := FallbackTx(s.db, pc.d, pc.token, pc.code, now);
    if r.Committed? { Landed(s, r.db, w, RouteDone(Skipped)); } else { Moved(s, w, RouteDone(Skipped)); }
  }

  lemma HumanInv(s: System, w: WorkerId, pc: Worker, now: Time)
    requires Inv(s) && WorkerOk(s.db, pc) && pc.RoutingHuman?
    ensures Next(s, HumanStep(s, w, pc, now))
  {
    hide DbInv, Grows, HumanTx;
    HumanKeeps(s.db, pc.d, pc.token, now);
    var r := HumanTx(s.db, pc.d, pc.token, now);
    var next := HumanStep(s, w, pc, now).workers[w];
    assert next.RouteDone?;
    if r.Committed? { Landed(s, r.db, w, next); } else { Moved(s, w, next); }
  }

  lemma ClaimInv(s: System, w: WorkerId, d: nat, now: Time)
    requires Inv(s) && d < |s.db.decisions|
    ensures Next(s, ClaimStep(s, w, d, now))
  {
    var next := ClaimStep(s, w, d, now);
    if DecisionClaimable(s.db.decisions[d], now) {
      ClaimKeeps(s.db, d, now);
      hide DbInv, Grows;
      Landed(s, next.db, w, Stamped(d));
    } else {
      Moved(s, w, RouteDone(NotClaimed));
    }
  }

  lemma RouteInv(s: System, a: Action)
    requires Inv(s) && a.w in s.workers && DecisionOf(s.workers[a.w]).Some?
    requires DecisionOf(s.workers[a.w]).value < |s.db.decisions|
    ensures Next(s, RouteMove(s, a, s.workers[a.w]))
  {
    Stay(s);
    var w, pc := a.w, s.workers[a.w];
    assert DbInv(s.db) && WorkerOk(s.db, pc);
    hide DbInv, Inv, Next;
    match a
    case ClaimDecision(_, now) => if pc.Peeked? { ClaimInv(s, w, pc.d, now); }
    case ReadToken(_) =>
      if pc.Stamped? && s.db.decisions[pc.d].lastAttemptAt.Some? {
        Moved(s, w, Leased(pc.d, s.db.decisions[pc.d].lastAttemptAt.value));
      }
    case ReadDecision(_) => if pc.Leased? { ReadDecisionOk(s.db, pc); Moved(s, w, RouteMove(s, a, pc).workers[w]); }
    case ReadClassification(_) =>
      if pc.ReadingClassification? { ReadClassificationOk(s.db, pc); Moved(s, w, ReadClassificationNext(s.db, pc)); }
    case ReadLatest(_) => if pc.ReadingLatest? { ReadLatestOk(s.db, pc); Moved(s, w, ReadLatestNext(s.db, pc)); }
    case ReadCase(_) => if pc.ReadingCase? { ReadCaseOk(s.db, pc); Moved(s, w, ReadCaseNext(s.db, pc)); }
    case ReadReview(_) => if pc.ReadingReview? { ReadReviewOk(s.db, pc); Moved(s, w, ReadReviewNext(s.db, pc)); }
    case CommitAccept(_, now) => if pc.Accepting? { AcceptInv(s, w, pc, now); }
    case ReadLostCase(_) => if pc.CaseLost? { LostCaseOk(s.db, pc); Moved(s, w, LostCaseNext(s.db, pc)); }
    case Finalize(_, now) => if pc.Finalizing? { FinalizeInv(s, w, pc, now); }
    case FallBack(_, now) => if pc.FallingBack? { FallbackInv(s, w, pc, now); }
    case RouteHuman(_, now) => if pc.RoutingHuman? { HumanInv(s, w, pc, now); }
    case _ =>
  }

  lemma {:induction false} StepInv(s: System, a: Action)
    requires Inv(s)
    ensures Inv(Step(s, a)) && Grows(s.db, Step(s, a).db)
  {
    Stay(s);
    if Outside(a) {
      OutsideInv(s, a);
    } else if a.w in s.workers {
      if OfClassifier(a) {
        ClassifierInv(s, a);
      } else if DecisionOf(s.workers[a.w]).Some? {
        assert WorkerOk(s.db, s.workers[a.w]);
        RouteInv(s, a);
      }
    }
  }

  lemma GrowsOn(db: Db, db': Db, db'': Db)
    requires Grows(db, db') && Grows(db', db'')
    ensures Grows(db, db'')
  {
  }

  lemma {:induction false} RunInv(s: System, run: seq<Action>)
    requires Inv(s)
    ensures Inv(Exec(s, run)) && Grows(s.db, Exec(s, run).db)
    decreases |run|
  {
    if run == [] {
      Unchanged(s.db);
    } else {
      var init := run[..|run| - 1];
      RunInv(s, init);
      hide Inv, Grows;
      StepInv(Exec(s, init), run[|run| - 1]);
      GrowsOn(s.db, Exec(s, init).db, Exec(s, run).db);
    }
  }

  lemma FreshInv(s: System)
    requires Fresh(s)
    ensures Inv(s)
  {
  }
}
