/** What is stored with a classification: which answer, under which settings, and which action and status
    its decision is born with. */
module RoutingSnapshot {
  import opened Options
  import opened RoutingModel
  import opened RoutingSafety
  import opened RoutingTheorems
  import opened RoutingHistory
  import opened RoutingAttempts

  // ----- what an attempt knows -----

  function Starts(w: WorkerId, settings: Settings, isLast: bool): (System, Action) -> bool {
    (s: System, a: Action) => a == StartClassify(w, settings, isLast) && w !in s.workers && settings.enabled
  }

  /** The attempt read the message as `seen`, inbound and PENDING, while its case existed or not. */
  function Loads(w: WorkerId, linked: bool, seen: Message): (System, Action) -> bool {
    (s: System, a: Action) => && a == LoadMessage(w) && w in s.workers && s.workers[w].ClassifyStarted?
              && IsPending(s.db) && s.db.message == seen && (linked <==> s.db.renewalCase.Some?)
  }

  function Hears(w: WorkerId, result: Normalized): (System, Action) -> bool {
    (s: System, a: Action) => Asks(s, a, w) && a.answer == Answered(result)
  }

  predicate Knows(origin: System, run: seq<Action>, w: WorkerId, pc: Worker) {
    match pc
    case ClassifyStarted(settings, isLast) => Once(origin, run, Starts(w, settings, isLast))
    case ClassifyLoaded(settings, isLast, linked, seen) =>
      Once(origin, run, Starts(w, settings, isLast)) && Once(origin, run, Loads(w, linked, seen))
    case ClassifyAnswered(settings, linked, seen, result) =>
      && (Once(origin, run, Starts(w, settings, true)) || Once(origin, run, Starts(w, settings, false)))
      && Once(origin, run, Loads(w, linked, seen)) && Once(origin, run, Hears(w, result))
    case _ => true
  }

  lemma OnceStays(origin: System, run: seq<Action>, p: (System, Action) -> bool)
    requires run != []
    ensures Once(origin, run[..|run| - 1], p) ==> Once(origin, run, p)
    ensures p(Exec(origin, run[..|run| - 1]), run[|run| - 1]) ==> Once(origin, run, p)
  {
    hide Once, Exec;
    OnceGrows(origin, run, p);
  }

  lemma KnowsStays(origin: System, run: seq<Action>, w: WorkerId, pc: Worker)
    requires run != [] && Knows(origin, run[..|run| - 1], w, pc)
    ensures Knows(origin, run, w, pc)
  {
    hide Once, Exec;
    match pc
    case ClassifyStarted(settings, isLast) => OnceStays(origin, run, Starts(w, settings, isLast));
    case ClassifyLoaded(settings, isLast, linked, seen) =>
      OnceStays(origin, run, Starts(w, settings, isLast));
      OnceStays(origin, run, Loads(w, linked, seen));
    case ClassifyAnswered(settings, linked, seen, result) =>
      OnceStays(origin, run, Starts(w, settings, true));
      OnceStays(origin, run, Starts(w, settings, false));
      OnceStays(origin, run, Loads(w, linked, seen));
      OnceStays(origin, run, Hears(w, result));
    case _ =>
  }

  predicate BeforeStoring(pc: Worker) {
    pc.ClassifyStarted? || pc.ClassifyLoaded? || pc.ClassifyAnswered?
  }

  /** How a worker gets where it is before storing. */
  lemma StepKnows(s: System, a: Action, w: WorkerId)
    requires w in Step(s, a).workers && BeforeStoring(Step(s, a).workers[w])
    ensures var pc := Step(s, a).workers[w];
      || (w in s.workers && s.workers[w] == pc)
      || (pc.ClassifyStarted? && Starts(w, pc.settings, pc.isLast)(s, a))
      || (pc.ClassifyLoaded? && w in s.workers && s.workers[w] == ClassifyStarted(pc.settings, pc.isLast) && Loads(w, pc.linked, pc.seen)(s, a))
      || (pc.ClassifyAnswered? && w in s.workers && s.workers[w].ClassifyLoaded? && s.workers[w].settings == pc.settings
          && s.workers[w].linked == pc.linked && s.workers[w].seen == pc.seen && Hears(w, pc.result)(s, a))
  {
    hide RouteMove, PersistTx, ReviewTx, RequiresReview, HandOverDb;
    if a.w != w {
      if w in s.workers { OthersKeepOut(s, a, w); } else { NobodyAppears(s, a, w); }
    } else if w in s.workers && !Outside(a) && !OfClassifier(a) {
      RoutersStartNothing(s, a);
    }
  }

  lemma RoutersStartNothing(s: System, a: Action)
    requires a.w in s.workers && !Outside(a) && !OfClassifier(a)
    requires a.w in Step(s, a).workers && BeforeStoring(Step(s, a).workers[a.w])
    ensures Step(s, a).workers[a.w] == s.workers[a.w]
  {
    hide AcceptTx, HumanTx, FallbackTx, FinalizeDb, LegalForAccepted;
  }

  /** In every run the settings, the link, the message and the answer that an attempt carries are those it
      was started with, read and heard. */
  lemma {:induction false} AttemptsKnowTheirPast(origin: System, run: seq<Action>, w: WorkerId)
    requires Fresh(origin) && w in Exec(origin, run).workers
    ensures Knows(origin, run, w, Exec(origin, run).workers[w])
    decreases |run|
  {
    hide Once, Step, Starts, Loads, Hears;
    var pc := Exec(origin, run).workers[w];
    if run != [] && BeforeStoring(pc) {
      var init, a := run[..|run| - 1], run[|run| - 1];
      var s := Exec(origin, init);
      LastStep(origin, run);
      StepKnows(s, a, w);
      hide Exec;
      if w in s.workers {
        AttemptsKnowTheirPast(origin, init, w);
        KnowsStays(origin, run, w, s.workers[w]);
      }
      match pc
      case ClassifyStarted(settings, isLast) => OnceStays(origin, run, Starts(w, settings, isLast));
      case ClassifyLoaded(_, _, linked, seen) => OnceStays(origin, run, Loads(w, linked, seen));
      case ClassifyAnswered(_, _, _, result) => OnceStays(origin, run, Hears(w, result));
      case _ =>
    }
  }

  // ----- what is stored -----

  /** The snapshot that lets a decision accept by itself. */
  predicate MayAutoAccept(result: Normalized, settings: Settings, now: Time, linked: bool, seen: Message) {
    && !NeedsHuman(result, settings.threshold) && result.intent.AcceptRenewal? && linked
    && settings.autoAccept && settings.cutoverAt.Some?
    && settings.cutoverAt.value <= now
    && settings.cutoverAt.value <= seen.createdAt
    && settings.cutoverAt.value <= seen.occurredAt
  }

  /** An attempt stores this classification, with this action frozen onto its decision. */
  function StoresAs(c: Classification, action: RoutingAction): (System, Action) -> bool {
    (s: System, a: Action) => && Stores(s, a, a.w)
              && var pc := s.workers[a.w];
                 && c == Classification(pc.result, pc.settings, a.now, a.createdAt)
                 && (action.AutoAccept? <==> MayAutoAccept(pc.result, pc.settings, a.now, pc.linked, pc.seen))
  }

  lemma StoredAt(s: System, a: Action)
    requires |Step(s, a).db.decisions| != |s.db.decisions| && |s.db.decisions| == |s.db.classifications| == 0
    ensures var t := Step(s, a).db;
      && |t.decisions| == |t.classifications| == 1 && StoresAs(t.classifications[0], t.decisions[0].action)(s, a)
      && (NeedsHuman(t.classifications[0].result, t.classifications[0].settings.threshold) ==>
            && t.message.status == Some(HumanReview) && t.audit == s.db.audit + [HumanReviewRequired(0)]
            && t.decisions == [Decision(0, RouteToHuman, RoutingSucceeded, Some(ClassifierRequiredHumanReview), 0, None, Some(a.now))])
      && (!NeedsHuman(t.classifications[0].result, t.classifications[0].settings.threshold) ==>
            && t.message.status == Some(Classified) && t.audit == s.db.audit + [ClassificationCreated(0)]
            && t.decisions == [Decision(0, t.decisions[0].action, RoutingPending, None, 0, None, None)])
  {
    OnlyPersistStores(s, a);
    hide Step;
  }

  lemma OnlyPersistStores(s: System, a: Action)
    requires |Step(s, a).db.decisions| != |s.db.decisions|
    ensures a.Persist? && a.w in s.workers && s.workers[a.w].ClassifyAnswered?
    ensures var pc := s.workers[a.w]; var r := PersistTx(s.db, pc.linked, pc.seen, pc.result, pc.settings, a.now, a.createdAt);
      r.Committed? && Step(s, a).db == r.db
  {
    hide RouteMove, PersistTx, RequiresReview;
    if a.w in s.workers && !Outside(a) && !OfClassifier(a) { RoutersStoreNothing(s, a); }
  }

  lemma RoutersStoreNothing(s: System, a: Action)
    requires a.w in s.workers && !Outside(a) && !OfClassifier(a)
    ensures |Step(s, a).db.decisions| == |s.db.decisions| && Step(s, a).db.classifications == s.db.classifications
  {
    hide LegalForAccepted;
  }
}
