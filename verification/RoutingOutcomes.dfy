/** What the rows say at any time: the stored snapshot, the effective classification, the case and the
    thread; and when a decision is claimed or paused. */
module RoutingOutcomes {
  import opened Options
  import opened RoutingModel
  import opened RoutingSafety
  import opened RoutingTheorems
  import opened RoutingHistory
  import opened RoutingAttempts
  import opened RoutingSnapshot
  import opened RoutingReasons

  // ----- the snapshot -----

  /** The decision is the classifier's own exactly when its answer has to be seen by a human. */
  predicate BornRight(db: Db, d: nat)
    requires d < |db.decisions| && d < |db.classifications|
  {
    db.decisions[d].resultCode == Some(ClassifierRequiredHumanReview)
    <==> NeedsHuman(db.classifications[d].result, db.classifications[d].settings.threshold)
  }

  lemma BornRightStays(s: System, a: Action, d: nat)
    requires Inv(s) && DbInv(s.db) && d < |s.db.decisions| && d < |s.db.classifications| && BornRight(s.db, d)
    ensures d < |Step(s, a).db.decisions| && Step(s, a).db.decisions[d].action == s.db.decisions[d].action
    ensures d < |Step(s, a).db.classifications| && Step(s, a).db.classifications[d] == s.db.classifications[d]
    ensures BornRight(Step(s, a).db, d)
  {
    StepInv(s, a);
    if a.w in s.workers { assert WorkerOk(s.db, s.workers[a.w]); }
    hide Step, Inv, DbInv, WorkerOk, Writes;
    if s.db.decisions[d].resultCode.Some? {
      LabelStays(s, a, d);
    } else if Step(s, a).db.decisions[d].resultCode.Some? {
      var code := Step(s, a).db.decisions[d].resultCode.value;
      LabelWriter(s, a, d, code);
      NotTheClassifiersOwn(s.db, s.workers[a.w], d, code);
    }
  }

  lemma NotTheClassifiersOwn(db: Db, pc: Worker, d: nat, code: ResultCode)
    requires WorkerOk(db, pc) && Writes(db, pc, d, code)
    ensures !code.ClassifierRequiredHumanReview?
  {
  }

  /** In every run each classification was stored by an attempt with the answer and the settings it carried,
      and the action frozen onto the decision is AUTO_ACCEPT exactly when that answer needs no human, means
      to accept, belongs to a linked message, and the switch is on and its cutover past for clock, creation
      and occurrence. The decision is the classifier's own exactly when the answer is under the threshold,
      asks for a human or is unclear. */
  lemma {:induction false} SnapshotIsExact(origin: System, run: seq<Action>, d: nat)
    requires Fresh(origin) && d < |Exec(origin, run).db.decisions|
    ensures var db := Exec(origin, run).db;
      && d < |db.classifications| && db.decisions[d].classificationId == d
      && Once(origin, run, StoresAs(db.classifications[d], db.decisions[d].action))
      && BornRight(db, d)
    decreases |run|
  {
    OneClassificationOneDecision(origin, run);
    if run != [] {
      var init, a := run[..|run| - 1], run[|run| - 1];
      var s := Exec(origin, init);
      LastStep(origin, run);
      Reached(origin, init);
      OneClassificationOneDecision(origin, init);
      hide Step, Exec, Fresh, Once, StoresAs, Inv, DbInv, BornRight;
      var db := Exec(origin, run).db;
      OnceStays(origin, run, StoresAs(db.classifications[d], db.decisions[d].action));
      if d < |s.db.decisions| {
        SnapshotIsExact(origin, init, d);
        BornRightStays(s, a, d);
      } else {
        StoredAt(s, a);
        StoredIsBornRight(s, a);
      }
    }
  }

  lemma StoredIsBornRight(s: System, a: Action)
    requires |Step(s, a).db.decisions| != |s.db.decisions| && |s.db.decisions| == |s.db.classifications| == 0
    ensures var t := Step(s, a).db; |t.decisions| == |t.classifications| == 1 && BornRight(t, 0)
  {
    StoredAt(s, a);
    hide Step;
  }

  // ----- the effective classification -----

  /** In every run the effective intent is that of a review than which none is newer, if there is a review,
      and else that of the one classification, if there is one. */
  lemma {:induction false} EffectiveIsNewest(origin: System, run: seq<Action>)
    requires Fresh(origin)
    ensures var db := Exec(origin, run).db; var e := EffectiveClassification(db);
      && (db.reviews != [] ==> exists r :: r in db.reviews && (forall x :: x in db.reviews ==> NoNewer(x, r))
                                           && e == FromReview(r.correctedIntent, r.classificationId))
      && (db.reviews == [] && db.classifications != [] ==>
            |db.classifications| == 1 && e == FromAi(db.classifications[0].result.intent, 0))
      && (db.reviews == [] && db.classifications == [] ==> e == NotFound)
  {
    OneClassificationOneDecision(origin, run);
    hide Exec, Fresh;
    var db := Exec(origin, run).db;
    if db.reviews != [] {
      var r := NewestReview(db.reviews);
      assert r in db.reviews;
    }
  }

  // ----- the case and the thread -----

  /** A routing step changes the case only by an automatic acceptance, which goes from the status its worker
      read to ACCEPTED and leaves one audit entry for it. */
  lemma {:induction false} OnlyAcceptanceMovesTheCase(s: System, a: Action)
    requires !Outside(a)
    ensures var t := Step(s, a).db;
      t.renewalCase != s.db.renewalCase || (exists j :: |s.db.audit| <= j < |t.audit| && t.audit[j].AutoAcceptedCase?) ==>
        && a.w in s.workers && TriesToAccept(s, a, a.w, s.workers[a.w].d)
        && s.db.renewalCase == Some(s.workers[a.w].seenCase) && t.renewalCase == Some(Accepted)
        && t.audit == s.db.audit + [AutoAcceptedCase(s.workers[a.w].d, s.workers[a.w].seenCase)]
  {
    hide AfterAnswer, ReadClassificationNext, ReadLatestNext, ReadCaseNext, ReadReviewNext, LostCaseNext, DecideAction, RequiresReview;
  }

  predicate Routes(s: System, a: Action) {
    !Outside(a) && !OfClassifier(a) && Step(s, a).db.message.status != s.db.message.status
  }

  /** Classifiers and routing workers never touch a resolved thread; a routing step that moves the message
      takes it from CLASSIFIED to HUMAN_REVIEW, and an unresolved thread with it; no other step of theirs
      changes the thread. */
  lemma {:induction false} ResolvedThreadsStay(s: System, a: Action)
    requires !Outside(a)
    ensures var t := Step(s, a).db;
      && (s.db.thread.ThreadResolved? ==> t.thread.ThreadResolved?)
      && (Routes(s, a) ==>
            && s.db.message.status == Some(Classified) && t.message.status == Some(HumanReview)
            && (s.db.thread.ThreadResolved? || t.thread.InHumanReview?))
      && (!Routes(s, a) ==> t.thread == s.db.thread)
  {
    hide AfterAnswer, ReadClassificationNext, ReadLatestNext, ReadCaseNext, ReadReviewNext, LostCaseNext, DecideAction, RequiresReview;
  }

  /** A routing step leaves an audit entry exactly when it moves the message to a human, finishes a decision
      as routed to one, or accepts: one entry, for its own decision. */
  lemma {:induction false} AuditFollowsTheStep(origin: System, run: seq<Action>, a: Action)
    requires Fresh(origin) && !Outside(a) && !OfClassifier(a)
    ensures var s := Exec(origin, run); var t := Step(s, a).db;
      && (t.audit != s.db.audit ==> a.w in s.workers && DecisionOf(s.workers[a.w]).Some?)
      && (t.audit != s.db.audit <==>
            || Routes(s, a)
            || (a.w in s.workers && DecisionOf(s.workers[a.w]).Some?
                && (Labels(s, a, DecisionOf(s.workers[a.w]).value, RoutedToHumanReview)
                    || Labels(s, a, DecisionOf(s.workers[a.w]).value, AutoAccepted))))
      && (t.audit != s.db.audit ==>
            t.audit == s.db.audit + [if s.workers[a.w].Accepting?
                                     then AutoAcceptedCase(s.workers[a.w].d, s.workers[a.w].seenCase)
                                     else HumanReviewRouted(DecisionOf(s.workers[a.w]).value)])
  {
    var s := Exec(origin, run);
    Reached(origin, run);
    hide Exec, Fresh;
    if a.w in s.workers && DecisionOf(s.workers[a.w]).Some? {
      var d := DecisionOf(s.workers[a.w]).value;
      assert WorkerOk(s.db, s.workers[a.w]);
      hide Inv, WorkerOk;
      if !Finished(s.db.decisions[d]) { Unlabelled(s.db, d); }
      hide DbInv;
      StepAudits(s, a, d);
    }
  }

  lemma StepAudits(s: System, a: Action, d: nat)
    requires !Outside(a) && !OfClassifier(a) && a.w in s.workers && DecisionOf(s.workers[a.w]) == Some(d) && d < |s.db.decisions|
    requires !Finished(s.db.decisions[d]) ==> s.db.decisions[d].resultCode.None?
    requires WorkerOk(s.db, s.workers[a.w])
    ensures var t := Step(s, a).db;
      && (t.audit != s.db.audit <==> Routes(s, a) || Labels(s, a, d, RoutedToHumanReview) || Labels(s, a, d, AutoAccepted))
      && (t.audit != s.db.audit ==>
            t.audit == s.db.audit + [if s.workers[a.w].Accepting? then AutoAcceptedCase(d, s.workers[a.w].seenCase)
                                     else HumanReviewRouted(d)])
  {
    hide ReadClassificationNext, ReadLatestNext, ReadCaseNext, ReadReviewNext, LostCaseNext;
    assert forall e :: s.db.audit + [e] != s.db.audit;
    assert s.db.audit + [] == s.db.audit;
  }

  // ----- claiming and pausing -----

  predicate GetsLease(s: System, w: WorkerId, d: nat, now: Time)
    requires d < |s.db.decisions|
  {
    var row := s.db.decisions[d];
    Step(s, ClaimDecision(w, now)) ==
      s.(db := s.db.(decisions := s.db.decisions[d :=
           row.(status := RoutingProcessing, lastAttemptAt := Some(now), attempts := row.attempts + 1)]),
         workers := s.workers[w := Stamped(d)])
  }

  /** In every run a worker at its claim gets the lease exactly when the decision is PENDING, or PROCESSING
      under a token more than two minutes old, and changes nothing else or nothing at all. */
  lemma {:induction false} ClaimedExactlyWhenPendingOrStale(origin: System, run: seq<Action>, w: WorkerId, now: Time)
    requires Fresh(origin) && w in Exec(origin, run).workers && Exec(origin, run).workers[w].Peeked?
    ensures var s := Exec(origin, run); var d := s.workers[w].d;
      && d < |s.db.decisions|
      && (s.db.decisions[d].status.RoutingProcessing? ==> s.db.decisions[d].lastAttemptAt.Some?)
      && (GetsLease(s, w, d, now) <==>
            || s.db.decisions[d].status.RoutingPending?
            || (s.db.decisions[d].status.RoutingProcessing? && s.db.decisions[d].lastAttemptAt.value < now - 120_000))
      && (GetsLease(s, w, d, now) || Step(s, ClaimDecision(w, now)) == s.(workers := s.workers[w := RouteDone(NotClaimed)]))
  {
    Reached(origin, run);
    hide Exec, Fresh, Inv, AcceptTx, HumanTx, FallbackTx, FinalizeDb;
    var s := Exec(origin, run);
    assert WorkerOk(s.db, s.workers[w]) && DecisionOk(s.db, s.workers[w].d);
  }

  /** A new worker is paused exactly for an AUTO_ACCEPT decision while the switch is off. */
  lemma PausedExactlyWhenSwitchedOff(s: System, w: WorkerId, d: nat, enabled: bool)
    requires w !in s.workers
    ensures var t := Step(s, Peek(w, d, enabled));
      && t.db == s.db && w in t.workers && t.workers == s.workers[w := t.workers[w]]
      && (t.workers[w] == RouteDone(Paused) <==> d < |s.db.decisions| && s.db.decisions[d].action.AutoAccept? && !enabled)
      && (t.workers[w] == Peeked(d) <==> d < |s.db.decisions| && (s.db.decisions[d].action.RouteToHuman? || enabled))
      && (t.workers[w] == RouteDone(NotClaimed) <==> d >= |s.db.decisions|)
  {
  }
}
