/** The promises of classification, routing and review, for every run. */
module RoutingTheorems {
  import opened Options
  import opened RoutingModel
  import opened RoutingSafety

  lemma Reached(origin: System, run: seq<Action>)
    requires Fresh(origin)
    ensures Inv(Exec(origin, run)) && DbInv(Exec(origin, run).db)
    ensures forall w :: w in Exec(origin, run).workers ==> WorkerOk(Exec(origin, run).db, Exec(origin, run).workers[w])
  {
    FreshInv(origin);
    RunInv(origin, run);
  }

  // ----- labels -----

  /** A decision labelled as already reviewed has a review of its message, whichever path wrote the label. */
  lemma {:induction false} LabelIsTruthful(origin: System, run: seq<Action>, d: nat)
    requires Fresh(origin)
    requires var db := Exec(origin, run).db;
      d < |db.decisions| && db.decisions[d].resultCode == Some(SkippedHumanAlreadyReviewed)
    ensures var db := Exec(origin, run).db;
      exists i :: 0 <= i < |db.reviews| && db.reviews[i].classificationId == db.decisions[d].classificationId
  {
    Reached(origin, run);
    hide Exec, Fresh, Inv, DbInv;
    LabelledIsReviewed(Exec(origin, run).db, d);
  }

  lemma LabelledIsReviewed(db: Db, d: nat)
    requires DbInv(db) && d < |db.decisions| && db.decisions[d].resultCode == Some(SkippedHumanAlreadyReviewed)
    ensures exists i :: 0 <= i < |db.reviews| && db.reviews[i].classificationId == db.decisions[d].classificationId
  {
    assert db.reviews[0].classificationId == db.decisions[d].classificationId;
  }

  /** Review beats auto-accept: no automatic acceptance of the message is ever recorded after a review
      of it. */
  lemma {:induction false} ReviewBeatsAutoAccept(origin: System, run: seq<Action>, i: nat, j: nat)
    requires Fresh(origin)
    requires var audit := Exec(origin, run).db.audit;
      i < |audit| && j < |audit| && audit[i].ReviewCreated? && audit[j].AutoAcceptedCase?
    ensures j < i
  {
    hide Exec, Fresh, WorkerOk, RowsOk, DecisionOk;
    Reached(origin, run);
  }

  // ----- automatic acceptances -----

  /** Every automatic acceptance belongs to exactly one decision, one that SUCCEEDED as AUTO_ACCEPTED,
      and such a decision made exactly one. */
  lemma {:induction false} AcceptancesMatchDecisions(origin: System, run: seq<Action>)
    requires Fresh(origin)
    ensures var db := Exec(origin, run).db;
      && (forall i :: 0 <= i < |db.audit| && db.audit[i].AutoAcceptedCase? ==> AcceptedBy(db, db.audit[i].decisionId))
      && (forall d :: 0 <= d < |db.decisions| ==>
            CountAccepts(db.audit, d) == if db.decisions[d].resultCode == Some(AutoAccepted) then 1 else 0)
  {
    Reached(origin, run);
    hide Exec, Fresh, Inv;
    var db := Exec(origin, run).db;
    assert DbInv(db);
    hide Inv, Exec, DbInv;
    forall i | 0 <= i < |db.audit| && db.audit[i].AutoAcceptedCase?
      ensures AcceptedBy(db, db.audit[i].decisionId)
    {
      AcceptanceHasDecision(db, i);
    }
    OneAcceptanceEach(db);
  }

  predicate AcceptedBy(db: Db, d: nat) {
    d < |db.decisions| && db.decisions[d].status.RoutingSucceeded? && db.decisions[d].resultCode == Some(AutoAccepted)
  }

  lemma AcceptanceHasDecision(db: Db, i: nat)
    requires DbInv(db) && i < |db.audit| && db.audit[i].AutoAcceptedCase?
    ensures AcceptedBy(db, db.audit[i].decisionId)
  {
    CountPositive(db.audit, i);
  }

  lemma OneAcceptanceEach(db: Db)
    requires DbInv(db)
    ensures forall d :: 0 <= d < |db.decisions| ==>
      CountAccepts(db.audit, d) == if db.decisions[d].resultCode == Some(AutoAccepted) then 1 else 0
  {
  }

  lemma {:induction false} CountPositive(audit: seq<Event>, i: nat)
    requires i < |audit| && audit[i].AutoAcceptedCase?
    ensures CountAccepts(audit, audit[i].decisionId) > 0
    decreases |audit|
  {
    if i < |audit| - 1 {
      CountPositive(audit[..|audit| - 1], i);
    }
  }

  /** Every automatic acceptance starts from a status legal for ACCEPTED, and comes from a classification
      that met its own snapshot: the intent, the threshold, the switch and the cutover. */
  lemma {:induction false} AcceptancesWereEligible(origin: System, run: seq<Action>, i: nat)
    requires Fresh(origin)
    requires var audit := Exec(origin, run).db.audit; i < |audit| && audit[i].AutoAcceptedCase?
    ensures var db := Exec(origin, run).db;
      && LegalForAccepted(db.audit[i].from)
      && db.audit[i].decisionId < |db.decisions|
      && db.decisions[db.audit[i].decisionId].action.AutoAccept?
      && db.decisions[db.audit[i].decisionId].classificationId < |db.classifications|
      && EligibleForAutoAccept(db.classifications[db.decisions[db.audit[i].decisionId].classificationId], db.message)
  {
    hide Exec, Fresh, DbInv, WorkerOk, EligibleForAutoAccept;
    Reached(origin, run);
    AcceptanceWasEligible(Exec(origin, run).db, i);
  }

  lemma AcceptanceWasEligible(db: Db, i: nat)
    requires DbInv(db) && i < |db.audit| && db.audit[i].AutoAcceptedCase?
    ensures LegalForAccepted(db.audit[i].from) && db.audit[i].decisionId < |db.decisions|
    ensures var row := db.decisions[db.audit[i].decisionId];
      && row.action.AutoAccept? && row.classificationId < |db.classifications|
      && EligibleForAutoAccept(db.classifications[row.classificationId], db.message)
  {
    AcceptanceHasDecision(db, i);
    hide EligibleForAutoAccept;
  }

  /** A row of the newest-first order (createdAt, then id) used for reviews. */
  predicate NoNewer(a: Review, b: Review) {
    a.createdAt < b.createdAt || (a.createdAt == b.createdAt && a.id <= b.id)
  }

  function NewestReview(rs: seq<Review>): (r: Review)
    requires rs != []
    ensures r in rs && forall x :: x in rs ==> NoNewer(x, r)
  {
    if |rs| == 1 then rs[0]
    else
      var r := NewestReview(rs[..|rs| - 1]);
      assert forall x :: x in rs ==> x in rs[..|rs| - 1] || x == rs[|rs| - 1];
      if NoNewer(r, rs[|rs| - 1]) then rs[|rs| - 1] else r
  }

  datatype Effective = FromReview(intent: Intent, classificationId: nat) | FromAi(intent: Intent, classificationId: nat) | NotFound

  /** The effective classification: the newest review of the message, else its newest classification. */
  function EffectiveClassification(db: Db): Effective {
    if db.reviews != [] then
      var r := NewestReview(db.reviews);
      FromReview(r.correctedIntent, r.classificationId)
    else if db.classifications != [] then
      var i := NewestClassification(db.classifications);
      FromAi(db.classifications[i].result.intent, i)
    else NotFound
  }

  /** At the commit of an automatic acceptance the effective classification is the AI's own, with the
      intent to renew, and no review exists. */
  lemma {:induction false} AcceptanceIsEffective(origin: System, run: seq<Action>, a: Action)
    requires Fresh(origin)
    requires var s := Exec(origin, run);
      exists j :: |s.db.audit| <= j < |Step(s, a).db.audit| && Step(s, a).db.audit[j].AutoAcceptedCase?
    ensures var s := Exec(origin, run);
      && s.db.message.status == Some(Classified) && s.db.reviews == []
      && EffectiveClassification(s.db) == FromAi(AcceptRenewal, 0)
      && EffectiveClassification(Step(s, a).db) == FromAi(AcceptRenewal, 0)
      && s.db.renewalCase.Some? && LegalForAccepted(s.db.renewalCase.value)
      && Step(s, a).db.renewalCase == Some(Accepted)
  {
    hide Exec, Fresh, Step, DbInv, WorkerOk, EffectiveClassification, AcceptTx;
    Reached(origin, run);
    var s := Exec(origin, run);
    OnlyAcceptAccepts(s, a);
    CommittedAcceptIsEffective(s.db, s.workers[a.w], a.now);
  }

  lemma CommittedAcceptIsEffective(db: Db, pc: Worker, now: Time)
    requires DbInv(db) && WorkerOk(db, pc) && pc.Accepting? && pc.d < |db.decisions|
    requires AcceptTx(db, pc.d, pc.token, pc.seenCase, now).Committed?
    ensures var next := AcceptTx(db, pc.d, pc.token, pc.seenCase, now).db;
      && db.message.status == Some(Classified) && db.reviews == []
      && EffectiveClassification(db) == EffectiveClassification(next) == FromAi(AcceptRenewal, 0)
      && db.renewalCase.Some? && LegalForAccepted(db.renewalCase.value) && next.renewalCase == Some(Accepted)
  {
    hide AuditOk;
    assert EligibleForAutoAccept(db.classifications[0], db.message);
  }

  lemma OnlyAcceptAccepts(s: System, a: Action)
    requires exists j :: |s.db.audit| <= j < |Step(s, a).db.audit| && Step(s, a).db.audit[j].AutoAcceptedCase?
    ensures a.CommitAccept? && a.w in s.workers && s.workers[a.w].Accepting? && s.workers[a.w].d < |s.db.decisions|
    ensures var pc := s.workers[a.w]; var r := AcceptTx(s.db, pc.d, pc.token, pc.seenCase, a.now);
      r.Committed? && Step(s, a).db == r.db
  {
  }

  /** Once a review exists the human determination stays the effective one. */
  lemma {:induction false} ReviewStaysEffective(origin: System, run: seq<Action>, more: seq<Action>)
    requires Fresh(origin) && EffectiveClassification(Exec(origin, run).db).FromReview?
    ensures EffectiveClassification(Exec(Exec(origin, run), more).db).FromReview?
  {
    Reached(origin, run);
    hide Exec, Fresh, Inv;
    RunInv(Exec(origin, run), more);
  }

  // ----- one classification, one decision, statuses forwards -----

  /** Each message gets at most one classification and each classification exactly one decision. */
  lemma OneClassificationOneDecision(origin: System, run: seq<Action>)
    requires Fresh(origin)
    ensures var db := Exec(origin, run).db;
      && |db.classifications| <= 1 && |db.decisions| == |db.classifications|
      && forall d :: 0 <= d < |db.decisions| ==> db.decisions[d].classificationId == d
  {
    hide Exec, Fresh, WorkerOk, DecisionOk, AuditOk;
    Reached(origin, run);
  }

  /** PENDING < CLASSIFIED < HUMAN_REVIEW < RESOLVED: no run moves a message back. */
  lemma {:induction false} StatusMovesForward(origin: System, run: seq<Action>, more: seq<Action>)
    requires Fresh(origin) && Exec(origin, run).db.message.status.Some?
    ensures var s, s' := Exec(origin, run), Exec(Exec(origin, run), more);
      s'.db.message.status.Some? && Rank(s.db.message.status.value) <= Rank(s'.db.message.status.value)
  {
    Reached(origin, run);
    hide Exec, Fresh, Inv;
    RunInv(Exec(origin, run), more);
  }

  /** The defensive outcomes FAILED/INVARIANT_VIOLATION and SKIPPED_CLASSIFICATION_SUPERSEDED never occur. */
  lemma DefensiveBranchesUnreachable(origin: System, run: seq<Action>)
    requires Fresh(origin)
    ensures var s := Exec(origin, run);
      && (forall d :: 0 <= d < |s.db.decisions| ==>
            && !s.db.decisions[d].status.RoutingFailed?
            && s.db.decisions[d].resultCode != Some(InvariantViolation)
            && s.db.decisions[d].resultCode != Some(SkippedClassificationSuperseded))
      && (forall w :: w in s.workers && s.workers[w].Finalizing? ==>
            s.workers[w].code != InvariantViolation && s.workers[w].code != SkippedClassificationSuperseded)
  {
    hide Exec, Fresh, DbInv, WorkerOk;
    Reached(origin, run);
    var s := Exec(origin, run);
    NoDefensiveDecision(s.db);
    forall w | w in s.workers && s.workers[w].Finalizing?
      ensures s.workers[w].code != InvariantViolation && s.workers[w].code != SkippedClassificationSuperseded
    {
      NoDefensiveWorker(s.db, s.workers[w]);
    }
  }

  lemma NoDefensiveDecision(db: Db)
    requires DbInv(db)
    ensures forall d :: 0 <= d < |db.decisions| ==>
      && !db.decisions[d].status.RoutingFailed?
      && db.decisions[d].resultCode != Some(InvariantViolation)
      && db.decisions[d].resultCode != Some(SkippedClassificationSuperseded)
  {
    hide AuditOk;
  }

  lemma NoDefensiveWorker(db: Db, pc: Worker)
    requires WorkerOk(db, pc) && pc.Finalizing?
    ensures pc.code != InvariantViolation && pc.code != SkippedClassificationSuperseded
  {
  }

  /** completedAt and resultCode are set exactly on finished decisions. */
  lemma CompletedExactlyWhenFinished(origin: System, run: seq<Action>, d: nat)
    requires Fresh(origin) && d < |Exec(origin, run).db.decisions|
    ensures var row := Exec(origin, run).db.decisions[d];
      (Finished(row) <==> row.completedAt.Some?) && (Finished(row) <==> row.resultCode.Some?)
  {
    hide Exec, Fresh, DbInv, WorkerOk, Finished;
    Reached(origin, run);
    CompletedInRows(Exec(origin, run).db, d);
  }

  lemma CompletedInRows(db: Db, d: nat)
    requires DbInv(db) && d < |db.decisions|
    ensures var row := db.decisions[d];
      (Finished(row) <==> row.completedAt.Some?) && (Finished(row) <==> row.resultCode.Some?)
  {
    hide AuditOk, Finished;
  }

  // ----- stale workers -----

  /** The token a routing worker has read back. */
  function HeldToken(pc: Worker): Option<Time> {
    match pc
    case Leased(_, t) => Some(t)
    case ReadingClassification(_, t) => Some(t)
    case ReadingLatest(_, t, _) => Some(t)
    case ReadingCase(_, t, _) => Some(t)
    case ReadingReview(_, t, _) => Some(t)
    case Accepting(_, t, _) => Some(t)
    case CaseLost(_, t) => Some(t)
    case Finalizing(_, t, _, _) => Some(t)
    case FallingBack(_, t, _) => Some(t)
    case RoutingHuman(_, t) => Some(t)
    case _ => None
  }

  /** Without the lease a routing worker's transaction leaves every row as it was, although the check
      comes after its writes to case, message and thread. */
  lemma {:induction false} NoLeaseNoWrite(s: System, a: Action)
    requires !Outside(a) && a.w in s.workers && HeldToken(s.workers[a.w]).Some?
    requires var pc := s.workers[a.w];
      pc.d < |s.db.decisions| && !HoldsDecision(s.db.decisions[pc.d], HeldToken(pc).value)
    ensures Step(s, a).db == s.db
  {
  }

  /** `w` holds token `t` of decision `d`, or its invocation is over. */
  predicate Behind(s: System, w: WorkerId, d: nat, t: Time) {
    && d < |s.db.decisions|
    && s.db.decisions[d].lastAttemptAt.Some? && t < s.db.decisions[d].lastAttemptAt.value
    && w in s.workers
    && (s.workers[w].RouteDone? || (HeldToken(s.workers[w]) == Some(t) && s.workers[w].d == d))
  }

  /** Lease tokens of a decision only grow, and every takeover takes a strictly later one. */
  lemma {:induction false} StepLeases(s: System, a: Action, d: nat)
    requires d < |s.db.decisions| && s.db.decisions[d].lastAttemptAt.Some?
    requires s.db.decisions[d].status.RoutingPending? ==> s.db.decisions[d].lastAttemptAt.None?
    ensures var s' := Step(s, a);
      && d < |s'.db.decisions| && s'.db.decisions[d].lastAttemptAt.Some?
      && s'.db.decisions[d].lastAttemptAt.value >= s.db.decisions[d].lastAttemptAt.value
      && (s'.db.decisions[d].attempts != s.db.decisions[d].attempts ==>
            s'.db.decisions[d].lastAttemptAt.value > s.db.decisions[d].lastAttemptAt.value)
  {
    hide AfterAnswer, ReadClassificationNext, ReadLatestNext, ReadCaseNext, ReadReviewNext, LostCaseNext, DecideAction;
  }

  lemma OthersKeepOut(s: System, a: Action, w: WorkerId)
    requires a.w != w && w in s.workers
    ensures w in Step(s, a).workers && Step(s, a).workers[w] == s.workers[w]
  {
  }

  /** A routing step keeps its worker on its decision and token, or ends the invocation. */
  lemma RouteMoveKeepsToken(s: System, a: Action, t: Time)
    requires a.w in s.workers && HeldToken(s.workers[a.w]) == Some(t)
    requires DecisionOf(s.workers[a.w]).Some? && DecisionOf(s.workers[a.w]).value < |s.db.decisions|
    ensures var s' := RouteMove(s, a, s.workers[a.w]);
      && a.w in s'.workers
      && (s'.workers[a.w].RouteDone? || (HeldToken(s'.workers[a.w]) == Some(t) && s'.workers[a.w].d == s.workers[a.w].d))
  {
    hide AcceptTx, HumanTx, FallbackTx, FinalizeDb, LegalForAccepted;
  }

  lemma OwnSteps(s: System, a: Action, t: Time)
    requires a.w in s.workers
    requires s.workers[a.w].RouteDone? || HeldToken(s.workers[a.w]) == Some(t)
    ensures a.w in Step(s, a).workers
    ensures var pc, pc' := s.workers[a.w], Step(s, a).workers[a.w];
      pc'.RouteDone? || (HeldToken(pc') == Some(t) && HeldToken(pc) == Some(t) && pc'.d == pc.d)
  {
    hide RouteMove, ReviewTx, PersistTx, AfterAnswer;
    var d := DecisionOf(s.workers[a.w]);
    if !Outside(a) && d.Some? && d.value < |s.db.decisions| { RouteMoveKeepsToken(s, a, t); }
  }

  lemma StepBehind(s: System, a: Action, w: WorkerId, d: nat, t: Time)
    requires Inv(s) && Behind(s, w, d, t)
    ensures Behind(Step(s, a), w, d, t)
    ensures a.w == w && !Outside(a) ==> Step(s, a).db == s.db
  {
    assert DecisionOk(s.db, 0);
    StepLeases(s, a, d);
    if a.w == w { OwnSteps(s, a, t); } else { OthersKeepOut(s, a, w); }
    if a.w == w && !Outside(a) && HeldToken(s.workers[w]).Some? { NoLeaseNoWrite(s, a); }
    if a.w == w && !Outside(a) && s.workers[w].RouteDone? { DoneIsDone(s, a); }
    hide Step, Inv, HeldToken;
    assert Behind(Step(s, a), w, d, t);
  }

  lemma DoneIsDone(s: System, a: Action)
    requires !Outside(a) && a.w in s.workers && s.workers[a.w].RouteDone?
    ensures Step(s, a) == s
  {
  }

  /** A worker whose token has been superseded never commits anything again: no change of case, message,
      thread, decision, review or audit, in any continuation. */
  lemma {:induction false} SupersededCommitsNothing(origin: System, run: seq<Action>, more: seq<Action>, w: WorkerId, d: nat, t: Time, a: Action)
    requires Fresh(origin) && Behind(Exec(origin, run), w, d, t)
    requires a.w == w && !Outside(a)
    ensures var s := Exec(Exec(origin, run), more); Behind(s, w, d, t) && Step(s, a).db == s.db
    decreases |more|
  {
    Reached(origin, run);
    hide Exec, Fresh, Inv;
    RunInv(Exec(origin, run), more);
    hide Inv, Behind, Fresh;
    var s := Exec(Exec(origin, run), more);
    if more != [] {
      var init := more[..|more| - 1];
      RunInv(Exec(origin, run), init);
      SupersededCommitsNothing(origin, run, init, w, d, t, a);
      StepBehind(Exec(Exec(origin, run), init), more[|more| - 1], w, d, t);
    }
    StepBehind(s, a, w, d, t);
  }

  /** A finished decision is never rewritten. */
  lemma {:induction false} FinishedStays(s: System, more: seq<Action>, d: nat)
    requires d < |s.db.decisions| && Finished(s.db.decisions[d])
    ensures d < |Exec(s, more).db.decisions| && Exec(s, more).db.decisions[d] == s.db.decisions[d]
    decreases |more|
  {
    if more != [] {
      FinishedStays(s, more[..|more| - 1], d);
      StepFinished(Exec(s, more[..|more| - 1]), more[|more| - 1], d);
    }
  }

  lemma StepFinished(s: System, a: Action, d: nat)
    requires d < |s.db.decisions| && Finished(s.db.decisions[d])
    ensures d < |Step(s, a).db.decisions| && Step(s, a).db.decisions[d] == s.db.decisions[d]
  {
    hide AfterAnswer, ReadClassificationNext, ReadLatestNext, ReadCaseNext, ReadReviewNext, LostCaseNext, DecideAction;
  }

  // ----- gateway calls and writes of one worker -----

  /** How often worker `w` has called the gateway in the run. */
  function GatewayCalls(origin: System, run: seq<Action>, w: WorkerId): nat
    decreases |run|
  {
    if run == [] then 0
    else
      var s, a := Exec(origin, run[..|run| - 1]), run[|run| - 1];
      GatewayCalls(origin, run[..|run| - 1], w)
      + if a.AskGateway? && a.w == w && w in s.workers && s.workers[w].ClassifyLoaded? then 1 else 0
  }

  /** The attempt is past its gateway call. */
  predicate HasAsked(pc: Worker) {
    || pc.ClassifyAnswered? || pc.HandingOver?
    || (pc.ClassifyDone? && !pc.classified.SkippedDisabled? && !pc.classified.SkippedIneligible?)
  }

  /** An attempt calls the gateway once at most, and has done so exactly when it is past its call. */
  lemma {:induction false} OneGatewayCall(origin: System, run: seq<Action>, w: WorkerId)
    requires Fresh(origin)
    ensures var s := Exec(origin, run);
      GatewayCalls(origin, run, w) == if w in s.workers && HasAsked(s.workers[w]) then 1 else 0
    decreases |run|
  {
    if run != [] {
      OneGatewayCall(origin, run[..|run| - 1], w);
      hide Exec, Step, HasAsked;
      LastStep(origin, run);
      StepAsks(Exec(origin, run[..|run| - 1]), run[|run| - 1], w);
    }
  }

  lemma LastStep(origin: System, run: seq<Action>)
    requires run != []
    ensures Exec(origin, run) == Step(Exec(origin, run[..|run| - 1]), run[|run| - 1])
  {
  }

  lemma StepAsks(s: System, a: Action, w: WorkerId)
    ensures var s' := Step(s, a);
      var asks := a.AskGateway? && a.w == w && w in s.workers && s.workers[w].ClassifyLoaded?;
      (w in s'.workers && HasAsked(s'.workers[w])) <==> (asks || (w in s.workers && HasAsked(s.workers[w])))
  {
    hide RouteMove, PersistTx, ReviewTx, RequiresReview, HandOverDb;
    if w in s.workers && a.w == w && !Outside(a) && !OfClassifier(a) { RoutersAskNothing(s, a); }
    if a.w != w && w in s.workers { OthersKeepOut(s, a, w); }
    if a.w != w && w !in s.workers { NobodyAppears(s, a, w); }
  }

  lemma NobodyAppears(s: System, a: Action, w: WorkerId)
    requires a.w != w && w !in s.workers
    ensures w !in Step(s, a).workers
  {
  }

  lemma RoutersAskNothing(s: System, a: Action)
    requires a.w in s.workers && !Outside(a) && !OfClassifier(a)
    ensures var s' := Step(s, a); a.w in s'.workers && (HasAsked(s'.workers[a.w]) <==> HasAsked(s.workers[a.w]))
  {
    hide AcceptTx, HumanTx, FallbackTx, FinalizeDb, LegalForAccepted;
  }

  /** No step of worker `w` in the run has changed any row. */
  predicate NeverWrote(origin: System, run: seq<Action>, w: WorkerId)
    decreases |run|
  {
    run == [] ||
    (var s, a := Exec(origin, run[..|run| - 1]), run[|run| - 1];
     NeverWrote(origin, run[..|run| - 1], w) && (a.w == w && !Outside(a) ==> Step(s, a).db == s.db))
  }

  /** Where a worker can stand that has written nothing: before its write, or ended without one. */
  predicate IsQuiet(pc: Worker) {
    || pc.ClassifyStarted? || pc.ClassifyLoaded? || pc.ClassifyAnswered? || pc.HandingOver? || pc.Peeked?
    || (pc.ClassifyDone? && !pc.classified.ClassifiedOutcome? && !pc.classified.HumanReviewOutcome?
        && !pc.classified.FailedHumanReview?)
    || (pc.RouteDone? && (pc.routed.NotClaimed? || pc.routed.Paused?))
  }

  /** An attempt that was skipped, rethrown, or lost its guard or its case, and a routing that was not
      claimed or paused, has changed no row, whatever ran beside it. */
  lemma {:induction false} QuietNeverWrote(origin: System, run: seq<Action>, w: WorkerId)
    requires Fresh(origin)
    ensures var s := Exec(origin, run); w !in s.workers || IsQuiet(s.workers[w]) ==> NeverWrote(origin, run, w)
    decreases |run|
  {
    if run != [] {
      QuietNeverWrote(origin, run[..|run| - 1], w);
      hide Exec, Step, IsQuiet;
      LastStep(origin, run);
      var s := Exec(origin, run);
      if w !in s.workers || IsQuiet(s.workers[w]) { StepQuiet(Exec(origin, run[..|run| - 1]), run[|run| - 1], w); }
    }
  }

  lemma StepQuiet(s: System, a: Action, w: WorkerId)
    requires var s' := Step(s, a); w !in s'.workers || IsQuiet(s'.workers[w])
    ensures w !in s.workers || IsQuiet(s.workers[w])
    ensures a.w == w && !Outside(a) ==> Step(s, a).db == s.db
  {
    hide RouteMove, PersistTx, ReviewTx, RequiresReview, HandOverDb;
    if w in s.workers && a.w == w && !Outside(a) && !OfClassifier(a) { RouterStepQuiet(s, a); }
    if a.w != w && w in s.workers { OthersKeepOut(s, a, w); }
  }

  lemma RouterStepQuiet(s: System, a: Action)
    requires a.w in s.workers && !Outside(a) && !OfClassifier(a)
    requires var s' := Step(s, a); a.w !in s'.workers || IsQuiet(s'.workers[a.w])
    ensures IsQuiet(s.workers[a.w]) && Step(s, a).db == s.db
  {
    hide AcceptTx, HumanTx, FallbackTx, FinalizeDb, LegalForAccepted;
  }

  // ----- when an attempt ends with its transaction failed -----

  /** An inbound message waiting for classification. */
  predicate IsPending(db: Db) {
    db.message.direction.Inbound? && db.message.status == Some(Pending)
  }

  /** The guard of the failing branch: an attempt that loaded the message with a case goes to store its
      result, and finds the message still PENDING and the case gone. */
  predicate StuckAt(s: System, a: Action) {
    && a.Persist? && a.w in s.workers && s.workers[a.w].ClassifyAnswered? && s.workers[a.w].linked
    && s.db.renewalCase.None? && IsPending(s.db)
  }

  /** Worker `w` met that guard somewhere in the run. */
  predicate WasStuck(origin: System, run: seq<Action>, w: WorkerId) {
    exists k :: 0 <= k < |run| && run[k].w == w && StuckAt(Exec(origin, run[..k]), run[k])
  }

  lemma WasStuckGrows(origin: System, run: seq<Action>, w: WorkerId)
    requires run != []
    ensures var init, a := run[..|run| - 1], run[|run| - 1];
      WasStuck(origin, run, w) <==> WasStuck(origin, init, w) || (a.w == w && StuckAt(Exec(origin, init), a))
  {
    hide StuckAt, Exec;
    var init, n := run[..|run| - 1], |run| - 1;
    assert forall k :: 0 <= k <= n ==> init[..k] == run[..k];
    if k :| 0 <= k < n && run[k].w == w && StuckAt(Exec(origin, run[..k]), run[k]) {
      assert init[k].w == w && StuckAt(Exec(origin, init[..k]), init[k]);
    }
    if k :| 0 <= k < n && init[k].w == w && StuckAt(Exec(origin, init[..k]), init[k]) {
      assert run[k].w == w && StuckAt(Exec(origin, run[..k]), run[k]);
    }
  }

  /** In every run an attempt has ended with its transaction failed exactly when it met the guard. */
  lemma {:induction false} FailsExactlyWhenStuck(origin: System, run: seq<Action>, w: WorkerId)
    requires Fresh(origin)
    ensures var s := Exec(origin, run);
      w in s.workers && s.workers[w] == ClassifyDone(TransactionError) <==> WasStuck(origin, run, w)
    decreases |run|
  {
    if run != [] {
      FailsExactlyWhenStuck(origin, run[..|run| - 1], w);
      WasStuckGrows(origin, run, w);
      hide Exec, Step, WasStuck;
      LastStep(origin, run);
      StepFails(Exec(origin, run[..|run| - 1]), run[|run| - 1], w);
    }
  }

  lemma StepFails(s: System, a: Action, w: WorkerId)
    ensures var s' := Step(s, a);
      w in s'.workers && s'.workers[w] == ClassifyDone(TransactionError)
      <==> (w in s.workers && s.workers[w] == ClassifyDone(TransactionError)) || (a.w == w && StuckAt(s, a))
  {
    hide RouteMove, ReviewTx, RequiresReview, HandOverDb, DecideAction;
    if w in s.workers && a.w == w && !Outside(a) && !OfClassifier(a) { RoutersFailNothing(s, a); }
    if a.w != w && w in s.workers { OthersKeepOut(s, a, w); }
    if a.w != w && w !in s.workers { NobodyAppears(s, a, w); }
  }

  lemma RoutersFailNothing(s: System, a: Action)
    requires a.w in s.workers && !Outside(a) && !OfClassifier(a)
    ensures var s' := Step(s, a);
      a.w in s'.workers && (s'.workers[a.w] == ClassifyDone(TransactionError) <==> s.workers[a.w] == ClassifyDone(TransactionError))
  {
    hide AcceptTx, HumanTx, FallbackTx, FinalizeDb, LegalForAccepted;
  }
}
