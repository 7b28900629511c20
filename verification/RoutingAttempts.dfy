/** How classification attempts end, and why: every outcome has its cause in the run, and every cause its
    outcome. */
module RoutingAttempts {
  import opened Options
  import opened RoutingModel
  import opened RoutingSafety
  import opened RoutingTheorems
  import opened RoutingHistory

  // ----- causes -----

  /** Attempt `w` calls the gateway. */
  predicate Asks(s: System, a: Action, w: WorkerId) {
    a.AskGateway? && a.w == w && w in s.workers && s.workers[w].ClassifyLoaded?
  }

  /** An answer after which another attempt may help: a transient failure or one of unknown kind. */
  predicate WorthRetrying(answer: Answer) {
    answer.Transient? || answer.Unrecognized?
  }

  /** Attempt `w` goes to store the answer it has, and finds the message inbound and PENDING with the case
      it was loaded with still there. */
  predicate Stores(s: System, a: Action, w: WorkerId) {
    && a.Persist? && a.w == w && w in s.workers && s.workers[w].ClassifyAnswered?
    && IsPending(s.db) && (s.workers[w].linked ==> s.db.renewalCase.Some?)
  }

  /** The answer has to be seen by a human. */
  predicate NeedsHuman(result: Normalized, threshold: real) {
    result.confidence < threshold || result.requiresHumanReview || result.intent.Unclear?
  }

  predicate EndsAttempt(s: System, a: Action, w: WorkerId, outcome: ClassifyOutcome) {
    a.w == w &&
    match outcome
    case SkippedDisabled => a.StartClassify? && w !in s.workers && !a.settings.enabled
    case SkippedIneligible => a.LoadMessage? && w in s.workers && s.workers[w].ClassifyStarted? && !IsPending(s.db)
    case Rethrown => Asks(s, a, w) && !s.workers[w].isLast && WorthRetrying(a.answer)
    case FailedHumanReview => a.HandOver? && w in s.workers && s.workers[w].HandingOver?
    case LostCas => a.Persist? && w in s.workers && s.workers[w].ClassifyAnswered? && !IsPending(s.db)
    case TransactionError => StuckAt(s, a)
    case HumanReviewOutcome => Stores(s, a, w) && NeedsHuman(s.workers[w].result, s.workers[w].settings.threshold)
    case ClassifiedOutcome => Stores(s, a, w) && !NeedsHuman(s.workers[w].result, s.workers[w].settings.threshold)
  }

  function Ends(w: WorkerId, outcome: ClassifyOutcome): (System, Action) -> bool {
    (s: System, a: Action) => EndsAttempt(s, a, w, outcome)
  }

  lemma ClassifierEnds(s: System, a: Action, w: WorkerId, outcome: ClassifyOutcome)
    requires w in s.workers && a.w == w && OfClassifier(a)
    ensures var t := ClassifyMove(s, a, s.workers[w]);
      && w in t.workers
      && (t.workers[w] == ClassifyDone(outcome) <==> s.workers[w] == ClassifyDone(outcome) || EndsAttempt(s, a, w, outcome))
  {
    hide DecideAction;
  }

  lemma RoutersEndNothing(s: System, a: Action, outcome: ClassifyOutcome)
    requires a.w in s.workers && !Outside(a) && !OfClassifier(a)
    ensures var s' := Step(s, a);
      a.w in s'.workers && (s'.workers[a.w] == ClassifyDone(outcome) <==> s.workers[a.w] == ClassifyDone(outcome))
  {
    hide AcceptTx, HumanTx, FallbackTx, FinalizeDb, LegalForAccepted;
  }

  lemma OutsideEnds(s: System, a: Action, outcome: ClassifyOutcome)
    requires Outside(a)
    ensures var w, t := a.w, Step(s, a);
      w in t.workers && t.workers[w] == ClassifyDone(outcome)
      <==> (w in s.workers && s.workers[w] == ClassifyDone(outcome)) || EndsAttempt(s, a, w, outcome)
  {
    hide ReviewTx, IsPending, NeedsHuman;
  }

  lemma StepEnds(s: System, a: Action, w: WorkerId, outcome: ClassifyOutcome)
    ensures var t := Step(s, a);
      w in t.workers && t.workers[w] == ClassifyDone(outcome)
      <==> (w in s.workers && s.workers[w] == ClassifyDone(outcome)) || EndsAttempt(s, a, w, outcome)
  {
    hide RouteMove, OutsideStep, ClassifyMove, NeedsHuman, WorthRetrying;
    if a.w != w {
      if w in s.workers { OthersKeepOut(s, a, w); } else { NobodyAppears(s, a, w); }
    } else if Outside(a) {
      OutsideEnds(s, a, outcome);
    } else if w in s.workers {
      if OfClassifier(a) { ClassifierEnds(s, a, w, outcome); } else { RoutersEndNothing(s, a, outcome); }
    }
  }

  /** In every run an attempt has ended with an outcome exactly when an action of its met the cause of it. */
  lemma {:induction false} EndsExactlyForItsCause(origin: System, run: seq<Action>, w: WorkerId, outcome: ClassifyOutcome)
    requires Fresh(origin)
    ensures var s := Exec(origin, run);
      w in s.workers && s.workers[w] == ClassifyDone(outcome) <==> Once(origin, run, Ends(w, outcome))
    decreases |run|
  {
    if run != [] {
      EndsExactlyForItsCause(origin, run[..|run| - 1], w, outcome);
      OnceGrows(origin, run, Ends(w, outcome));
      hide Step, Once, EndsAttempt;
      StepEnds(Exec(origin, run[..|run| - 1]), run[|run| - 1], w, outcome);
    }
  }

  // ----- handing over -----

  /** The answer that sends attempt `w` to hand its message over for this reason: a permanent failure or an
      unreadable answer on any attempt, a failure worth retrying on the last one only. */
  predicate GivesUpFor(s: System, a: Action, w: WorkerId, reason: FailureReason) {
    Asks(s, a, w) &&
    match reason
    case RetryBudgetExhausted => a.answer.Transient? && s.workers[w].isLast
    case ProviderPermanentError => a.answer.Permanent?
    case MalformedOutput => a.answer.Malformed?
    case UnknownError => a.answer.Unrecognized? && s.workers[w].isLast
  }

  function GivesUp(w: WorkerId): (System, Action) -> bool {
    (s: System, a: Action) => exists reason :: GivesUpFor(s, a, w, reason)
  }

  predicate HasGivenUp(pc: Worker) {
    pc.HandingOver? || pc == ClassifyDone(FailedHumanReview)
  }

  lemma RoutersGiveUpNothing(s: System, a: Action)
    requires a.w in s.workers && !Outside(a) && !OfClassifier(a)
    ensures var s' := Step(s, a); a.w in s'.workers && (HasGivenUp(s'.workers[a.w]) <==> HasGivenUp(s.workers[a.w]))
  {
    hide AcceptTx, HumanTx, FallbackTx, FinalizeDb, LegalForAccepted;
  }

  lemma ClassifierGivesUp(s: System, a: Action, w: WorkerId)
    requires w in s.workers && a.w == w && OfClassifier(a)
    ensures var t := ClassifyMove(s, a, s.workers[w]);
      && w in t.workers
      && (HasGivenUp(t.workers[w]) <==> HasGivenUp(s.workers[w]) || GivesUp(w)(s, a))
      && (t.workers[w].HandingOver? && !s.workers[w].HandingOver? ==> GivesUpFor(s, a, w, t.workers[w].reason))
  {
    hide PersistTx, RequiresReview;
    if a.AskGateway? && s.workers[w].ClassifyLoaded? {
      var t := ClassifyMove(s, a, s.workers[w]);
      assert t.workers[w] == AfterAnswer(s.workers[w], a.answer);
      if t.workers[w].HandingOver? { assert GivesUpFor(s, a, w, t.workers[w].reason); }
    }
  }

  lemma StepGivesUp(s: System, a: Action, w: WorkerId)
    ensures var t := Step(s, a);
      w in t.workers && HasGivenUp(t.workers[w]) <==> (w in s.workers && HasGivenUp(s.workers[w])) || GivesUp(w)(s, a)
  {
    hide RouteMove, OutsideStep, ClassifyMove;
    if a.w != w {
      if w in s.workers { OthersKeepOut(s, a, w); } else { NobodyAppears(s, a, w); }
    } else if Outside(a) {
      OutsideEnds(s, a, FailedHumanReview);
      OutsideHandsNothingOver(s, a);
    } else if w in s.workers {
      if OfClassifier(a) { ClassifierGivesUp(s, a, w); } else { RoutersGiveUpNothing(s, a); }
    }
  }

  lemma OutsideHandsNothingOver(s: System, a: Action)
    requires Outside(a)
    ensures var t := Step(s, a); a.w in t.workers && t.workers[a.w].HandingOver? <==> a.w in s.workers && s.workers[a.w].HandingOver?
  {
    hide ReviewTx;
  }

  /** In every run an attempt hands its message over, or has done so, exactly when the provider's answer was
      a permanent failure or unreadable, or a failure worth retrying on the last attempt. */
  lemma {:induction false} HandsOverExactlyWhenGivenUp(origin: System, run: seq<Action>, w: WorkerId)
    requires Fresh(origin)
    ensures var s := Exec(origin, run); w in s.workers && HasGivenUp(s.workers[w]) <==> Once(origin, run, GivesUp(w))
    decreases |run|
  {
    if run != [] {
      HandsOverExactlyWhenGivenUp(origin, run[..|run| - 1], w);
      OnceGrows(origin, run, GivesUp(w));
      hide Step, Once, GivesUp, HasGivenUp;
      StepGivesUp(Exec(origin, run[..|run| - 1]), run[|run| - 1], w);
    }
  }

  /** A hand-over writes only for an attempt that was so answered, and only a PENDING inbound message, which
      it leaves HUMAN_REVIEW with one audit entry. */
  lemma {:induction false} HandOverWritesOnlyThen(origin: System, run: seq<Action>, w: WorkerId)
    requires Fresh(origin)
    ensures var s := Exec(origin, run); var t := Step(s, HandOver(w));
      && (t.db != s.db <==> w in s.workers && s.workers[w].HandingOver? && IsPending(s.db))
      && (t.db != s.db ==>
            && Once(origin, run, GivesUp(w))
            && t.db == s.db.(message := s.db.message.(status := Some(HumanReview)), audit := s.db.audit + [ClassificationFailed]))
  {
    HandsOverExactlyWhenGivenUp(origin, run, w);
    hide Exec, Once, GivesUp;
    var s := Exec(origin, run);
    assert s.db.audit != s.db.audit + [ClassificationFailed];
  }
}
