/** Why a routing decision ends as it does: every label is traced to a read of the worker that wrote it, and
    whatever is not accepted reaches a human. */
module RoutingReasons {
  import opened Options
  import opened RoutingModel
  import opened RoutingSafety
  import opened RoutingTheorems
  import opened RoutingHistory
  import opened RoutingSnapshot

  // ----- reads and failed writes of one worker on one decision -----

  /** Worker `w` reads decision `d`, and the action frozen onto it. */
  function ReadsAction(w: WorkerId, d: nat, action: RoutingAction): (System, Action) -> bool {
    (s: System, a: Action) =>
      && a == ReadDecision(w) && w in s.workers && s.workers[w].Leased? && s.workers[w].d == d
      && d < |s.db.decisions| && s.db.decisions[d].action == action
  }

  predicate ReadsCase(s: System, a: Action, w: WorkerId, d: nat) {
    a == ReadCase(w) && w in s.workers && s.workers[w].ReadingCase? && s.workers[w].d == d
  }

  /** The second look at the case, after the guarded update of it failed. */
  predicate ReadsCaseAgain(s: System, a: Action, w: WorkerId, d: nat) {
    a == ReadLostCase(w) && w in s.workers && s.workers[w].CaseLost? && s.workers[w].d == d
  }

  /** The commit of an automatic acceptance is tried. */
  predicate TriesToAccept(s: System, a: Action, w: WorkerId, d: nat) {
    a.CommitAccept? && a.w == w && w in s.workers && s.workers[w].Accepting? && s.workers[w].d == d
  }

  function SeesCase(w: WorkerId, d: nat, status: CaseStatus): (System, Action) -> bool {
    (s: System, a: Action) => ReadsCase(s, a, w, d) && s.db.renewalCase == Some(status)
  }

  function SeesAccepted(w: WorkerId, d: nat): (System, Action) -> bool {
    (s: System, a: Action) => (ReadsCase(s, a, w, d) || ReadsCaseAgain(s, a, w, d)) && s.db.renewalCase == Some(Accepted)
  }

  /** The message is read without a link to a case, or its case is not there when it is read. */
  function SeesNoCase(w: WorkerId, d: nat): (System, Action) -> bool {
    (s: System, a: Action) =>
      && s.db.renewalCase.None?
      && (ReadsCase(s, a, w, d)
          || (a == ReadClassification(w) && w in s.workers && s.workers[w].ReadingClassification? && s.workers[w].d == d))
  }

  /** The message is read with its link to a case. */
  function SeesLink(w: WorkerId, d: nat): (System, Action) -> bool {
    (s: System, a: Action) =>
      && s.db.renewalCase.Some? && a == ReadClassification(w)
      && w in s.workers && s.workers[w].ReadingClassification? && s.workers[w].d == d
  }

  /** The case stands in a status that neither is ACCEPTED nor leads to it. */
  function SeesBusinessDecision(w: WorkerId, d: nat): (System, Action) -> bool {
    (s: System, a: Action) =>
      && ReadsCase(s, a, w, d) && s.db.renewalCase.Some?
      && s.db.renewalCase.value !in {Upcoming, ReminderCycle, AwaitingCustomer, CaseHumanReview, Accepted}
  }

  /** The case has another status at the commit than when the worker read it. */
  function FindsCaseMoved(w: WorkerId, d: nat): (System, Action) -> bool {
    (s: System, a: Action) =>
      TriesToAccept(s, a, w, d) && s.db.renewalCase.Some? && s.db.renewalCase.value != s.workers[w].seenCase
  }

  function SeesCaseElsewhere(w: WorkerId, d: nat): (System, Action) -> bool {
    (s: System, a: Action) =>
      ReadsCaseAgain(s, a, w, d) && s.db.renewalCase.Some? && !s.db.renewalCase.value.Accepted?
  }

  function SeesNoReview(w: WorkerId, d: nat): (System, Action) -> bool {
    (s: System, a: Action) => ReadsReviews(s, a, w, d) && !HasReview(s.db, d)
  }

  /** A review of the classification, or a message that has left CLASSIFIED by the commit. */
  function SeesHuman(w: WorkerId, d: nat): (System, Action) -> bool {
    (s: System, a: Action) =>
      || (ReadsReviews(s, a, w, d) && HasReview(s.db, d))
      || (TriesToAccept(s, a, w, d) && s.db.message.status != Some(Classified))
  }

  predicate ReadsReviews(s: System, a: Action, w: WorkerId, d: nat) {
    a == ReadReview(w) && w in s.workers && s.workers[w].ReadingReview? && s.workers[w].d == d
  }

  predicate HasReview(db: Db, d: nat) {
    d < |db.decisions| && exists i :: 0 <= i < |db.reviews| && db.reviews[i].classificationId == db.decisions[d].classificationId
  }

  // ----- what a worker has seen by the time it stands where it does -----

  predicate Seen(origin: System, run: seq<Action>, w: WorkerId, pc: Worker) {
    match pc
    case RoutingHuman(d, _) => Once(origin, run, ReadsAction(w, d, RouteToHuman))
    case ReadingLatest(d, _, linked) => Once(origin, run, if linked then SeesLink(w, d) else SeesNoCase(w, d))
    case ReadingCase(d, _, linked) => Once(origin, run, if linked then SeesLink(w, d) else SeesNoCase(w, d))
    case ReadingReview(d, _, status) => Once(origin, run, SeesCase(w, d, status))
    case Accepting(d, _, status) => Once(origin, run, SeesCase(w, d, status)) && Once(origin, run, SeesNoReview(w, d))
    case CaseLost(d, _) => Once(origin, run, FindsCaseMoved(w, d))
    case Finalizing(d, _, _, SkippedAlreadyAccepted) => Once(origin, run, SeesAccepted(w, d))
    case Finalizing(d, _, _, SkippedHumanAlreadyReviewed) => Once(origin, run, SeesHuman(w, d))
    case FallingBack(d, _, SkippedNoRenewalCase) => Once(origin, run, SeesNoCase(w, d))
    case FallingBack(d, _, SkippedConcurrentBusinessDecision) =>
      || Once(origin, run, SeesBusinessDecision(w, d))
      || (Once(origin, run, FindsCaseMoved(w, d)) && Once(origin, run, SeesCaseElsewhere(w, d)))
    case _ => true
  }

  lemma SeenStays(origin: System, run: seq<Action>, w: WorkerId, pc: Worker)
    requires run != [] && Seen(origin, run[..|run| - 1], w, pc)
    ensures Seen(origin, run, w, pc)
  {
    hide Once, Exec;
    match pc
    case RoutingHuman(d, _) => OnceStays(origin, run, ReadsAction(w, d, RouteToHuman));
    case ReadingLatest(d, _, linked) => OnceStays(origin, run, if linked then SeesLink(w, d) else SeesNoCase(w, d));
    case ReadingCase(d, _, linked) => OnceStays(origin, run, if linked then SeesLink(w, d) else SeesNoCase(w, d));
    case ReadingReview(d, _, status) => OnceStays(origin, run, SeesCase(w, d, status));
    case Accepting(d, _, status) =>
      OnceStays(origin, run, SeesCase(w, d, status));
      OnceStays(origin, run, SeesNoReview(w, d));
    case CaseLost(d, _) => OnceStays(origin, run, FindsCaseMoved(w, d));
    case Finalizing(d, _, _, _) =>
      OnceStays(origin, run, SeesAccepted(w, d));
      OnceStays(origin, run, SeesHuman(w, d));
    case FallingBack(d, _, _) =>
      OnceStays(origin, run, SeesNoCase(w, d));
      OnceStays(origin, run, SeesBusinessDecision(w, d));
      OnceStays(origin, run, FindsCaseMoved(w, d));
      OnceStays(origin, run, SeesCaseElsewhere(w, d));
    case _ =>
  }

  // ----- one lemma a read -----

  /** A read takes the worker where what it has seen by then is true. */
  lemma ReadDecisionSees(origin: System, run: seq<Action>, w: WorkerId, s: System)
    requires run != [] && run[|run| - 1] == ReadDecision(w) && s == Exec(origin, run[..|run| - 1])
    requires w in s.workers && s.workers[w].Leased? && s.workers[w].d < |s.db.decisions|
    requires s.db.decisions[s.workers[w].d].action.RouteToHuman?
    ensures Seen(origin, run, w, RoutingHuman(s.workers[w].d, s.workers[w].token))
  {
    hide Exec, Once;
    OnceStays(origin, run, ReadsAction(w, s.workers[w].d, RouteToHuman));
  }

  lemma ReadClassificationSees(origin: System, run: seq<Action>, w: WorkerId, s: System)
    requires run != [] && run[|run| - 1] == ReadClassification(w) && s == Exec(origin, run[..|run| - 1])
    requires w in s.workers && s.workers[w].ReadingClassification? && s.workers[w].d < |s.db.decisions|
    requires s.db.decisions[s.workers[w].d].classificationId < |s.db.classifications|
    ensures Seen(origin, run, w, ReadClassificationNext(s.db, s.workers[w]))
  {
    hide Exec, Once;
    OnceStays(origin, run, SeesLink(w, s.workers[w].d));
    OnceStays(origin, run, SeesNoCase(w, s.workers[w].d));
  }

  lemma ReadCaseSees(origin: System, run: seq<Action>, w: WorkerId, s: System)
    requires run != [] && run[|run| - 1] == ReadCase(w) && s == Exec(origin, run[..|run| - 1])
    requires w in s.workers && s.workers[w].ReadingCase? && Seen(origin, run[..|run| - 1], w, s.workers[w])
    ensures Seen(origin, run, w, ReadCaseNext(s.db, s.workers[w]))
  {
    hide Exec, Once;
    var d := s.workers[w].d;
    OnceStays(origin, run, SeesNoCase(w, d));
    OnceStays(origin, run, SeesAccepted(w, d));
    OnceStays(origin, run, SeesBusinessDecision(w, d));
    if s.db.renewalCase.Some? { OnceStays(origin, run, SeesCase(w, d, s.db.renewalCase.value)); }
  }

  lemma ReadReviewSees(origin: System, run: seq<Action>, w: WorkerId, s: System)
    requires run != [] && run[|run| - 1] == ReadReview(w) && s == Exec(origin, run[..|run| - 1])
    requires w in s.workers && s.workers[w].ReadingReview? && s.workers[w].d < |s.db.decisions|
    requires Seen(origin, run[..|run| - 1], w, s.workers[w])
    ensures Seen(origin, run, w, ReadReviewNext(s.db, s.workers[w]))
  {
    hide Exec, Once;
    var d := s.workers[w].d;
    OnceStays(origin, run, SeesCase(w, d, s.workers[w].seenCase));
    var reviewed := HasReview(s.db, d);
    assert reviewed <==> ReadReviewNext(s.db, s.workers[w]).Finalizing?;
    hide HasReview;
    OnceStays(origin, run, SeesNoReview(w, d));
    OnceStays(origin, run, SeesHuman(w, d));
  }

  lemma TryToAcceptSees(origin: System, run: seq<Action>, w: WorkerId, s: System)
    requires run != [] && run[|run| - 1].CommitAccept? && run[|run| - 1].w == w && s == Exec(origin, run[..|run| - 1])
    requires w in s.workers && s.workers[w].Accepting? && s.workers[w].d < |s.db.decisions|
    ensures w in AcceptStep(s, w, s.workers[w], run[|run| - 1].now).workers
    ensures Seen(origin, run, w, AcceptStep(s, w, s.workers[w], run[|run| - 1].now).workers[w])
  {
    hide Exec, Once;
    var d := s.workers[w].d;
    OnceStays(origin, run, SeesHuman(w, d));
    OnceStays(origin, run, FindsCaseMoved(w, d));
  }

  lemma ReadCaseAgainSees(origin: System, run: seq<Action>, w: WorkerId, s: System)
    requires run != [] && run[|run| - 1] == ReadLostCase(w) && s == Exec(origin, run[..|run| - 1])
    requires w in s.workers && s.workers[w].CaseLost? && Seen(origin, run[..|run| - 1], w, s.workers[w])
    ensures Seen(origin, run, w, LostCaseNext(s.db, s.workers[w]))
  {
    hide Exec, Once;
    var d := s.workers[w].d;
    OnceStays(origin, run, SeesAccepted(w, d));
    OnceStays(origin, run, FindsCaseMoved(w, d));
    OnceStays(origin, run, SeesCaseElsewhere(w, d));
  }

  lemma ReadLatestSees(origin: System, run: seq<Action>, w: WorkerId, s: System)
    requires run != [] && w in s.workers && s.workers[w].ReadingLatest? && s.workers[w].d < |s.db.decisions|
    requires Seen(origin, run[..|run| - 1], w, s.workers[w])
    ensures Seen(origin, run, w, ReadLatestNext(s.db, s.workers[w]))
  {
    hide Exec, Once;
    var d := s.workers[w].d;
    OnceStays(origin, run, if s.workers[w].linked then SeesLink(w, d) else SeesNoCase(w, d));
  }

  // ----- every run -----

  lemma NothingToSee(origin: System, run: seq<Action>, w: WorkerId, pc: Worker)
    requires pc.Stamped? || pc.Leased? || pc.ReadingClassification? || pc.RouteDone? || DecisionOf(pc).None?
    ensures Seen(origin, run, w, pc)
  {
  }

  predicate IsRead(a: Action) {
    || a.ReadDecision? || a.ReadClassification? || a.ReadLatest? || a.ReadCase? || a.ReadReview? || a.CommitAccept?
    || a.ReadLostCase?
  }

  lemma WritersSeeNothing(origin: System, run: seq<Action>, s: System, a: Action, pc: Worker)
    requires DecisionOf(pc).Some? && DecisionOf(pc).value < |s.db.decisions| && !IsRead(a)
    ensures RouteMove(s, a, pc) == s
         || (a.w in RouteMove(s, a, pc).workers && Seen(origin, run, a.w, RouteMove(s, a, pc).workers[a.w]))
  {
    hide Once, Exec, AcceptTx, HumanTx, FallbackTx, FinalizeDb;
  }

  /** A routing step of a worker takes it where what it has seen by then is true. */
  lemma RouteSees(origin: System, run: seq<Action>, s: System, pc: Worker)
    requires run != [] && s == Exec(origin, run[..|run| - 1]) && run[|run| - 1].w in s.workers && pc == s.workers[run[|run| - 1].w]
    requires DecisionOf(pc).Some? && DecisionOf(pc).value < |s.db.decisions|
    requires Seen(origin, run[..|run| - 1], run[|run| - 1].w, pc)
    ensures var a := run[|run| - 1]; var t := RouteMove(s, a, pc); a.w in t.workers && Seen(origin, run, a.w, t.workers[a.w])
  {
    var a, w := run[|run| - 1], run[|run| - 1].w;
    SeenStays(origin, run, w, pc);
    if !IsRead(a) {
      hide Seen, Exec, RouteMove;
      WritersSeeNothing(origin, run, s, a, pc);
    } else {
      ReadSees(origin, run, s, pc);
    }
  }

  lemma ReadSees(origin: System, run: seq<Action>, s: System, pc: Worker)
    requires run != [] && s == Exec(origin, run[..|run| - 1]) && run[|run| - 1].w in s.workers && pc == s.workers[run[|run| - 1].w]
    requires DecisionOf(pc).Some? && DecisionOf(pc).value < |s.db.decisions| && IsRead(run[|run| - 1])
    requires Seen(origin, run[..|run| - 1], run[|run| - 1].w, pc) && Seen(origin, run, run[|run| - 1].w, pc)
    ensures var a := run[|run| - 1]; var t := RouteMove(s, a, pc); a.w in t.workers && Seen(origin, run, a.w, t.workers[a.w])
  {
    var a, w := run[|run| - 1], run[|run| - 1].w;
    hide Seen, Exec, ReadClassificationNext, ReadLatestNext, ReadCaseNext, ReadReviewNext, LostCaseNext, AcceptStep;
    match a
    case ReadDecision(_) =>
      if pc.Leased? {
        if s.db.decisions[pc.d].action.AutoAccept? { NothingToSee(origin, run, w, ReadingClassification(pc.d, pc.token)); }
        else { ReadDecisionSees(origin, run, w, s); }
      }
    case ReadClassification(_) =>
      if pc.ReadingClassification? && s.db.decisions[pc.d].classificationId < |s.db.classifications| {
        ReadClassificationSees(origin, run, w, s);
      }
    case ReadLatest(_) => if pc.ReadingLatest? { ReadLatestSees(origin, run, w, s); }
    case ReadCase(_) => if pc.ReadingCase? { ReadCaseSees(origin, run, w, s); }
    case ReadReview(_) => if pc.ReadingReview? { ReadReviewSees(origin, run, w, s); }
    case CommitAccept(_, now) => if pc.Accepting? { TryToAcceptSees(origin, run, w, s); }
    case ReadLostCase(_) => if pc.CaseLost? { ReadCaseAgainSees(origin, run, w, s); }
  }

  /** Any other step leaves a worker alone, or where it has nothing to have seen. */
  lemma OtherStepsSeeNothing(origin: System, run: seq<Action>, s: System, a: Action, w: WorkerId)
    requires a.w != w || Outside(a) || OfClassifier(a) || w !in s.workers || DecisionOf(s.workers[w]).None?
    requires w in Step(s, a).workers
    ensures (w in s.workers && Step(s, a).workers[w] == s.workers[w]) || Seen(origin, run, w, Step(s, a).workers[w])
  {
    hide ReviewTx, PersistTx, RequiresReview, HandOverDb, RouteMove, Once, Exec;
    if a.w != w {
      if w in s.workers { OthersKeepOut(s, a, w); } else { NobodyAppears(s, a, w); }
    }
  }

  /** In every run what a routing worker is about to do follows from what it has read. */
  lemma {:induction false} WorkersActOnWhatTheySaw(origin: System, run: seq<Action>, w: WorkerId)
    requires Fresh(origin) && w in Exec(origin, run).workers
    ensures Seen(origin, run, w, Exec(origin, run).workers[w])
    decreases |run|
  {
    if run != [] {
      var init, a := run[..|run| - 1], run[|run| - 1];
      var s := Exec(origin, init);
      LastStep(origin, run);
      hide Exec, Seen;
      if w in s.workers {
        WorkersActOnWhatTheySaw(origin, init, w);
        SeenStays(origin, run, w, s.workers[w]);
      }
      if a.w == w && w in s.workers && !Outside(a) && !OfClassifier(a) && DecisionOf(s.workers[w]).Some? {
        if DecisionOf(s.workers[w]).value < |s.db.decisions| { RouteSees(origin, run, s, s.workers[w]); }
        hide RouteMove, OutsideStep, ClassifyMove;
      } else {
        hide RouteMove, OutsideStep, ClassifyMove;
        OtherStepsSeeNothing(origin, run, s, a, w);
      }
    }
  }

  // ----- labels and their causes -----

  /** The action gives decision `d`, which had no label, this one. */
  predicate Labels(s: System, a: Action, d: nat, code: ResultCode) {
    && d < |s.db.decisions| && s.db.decisions[d].resultCode.None?
    && d < |Step(s, a).db.decisions| && Step(s, a).db.decisions[d].resultCode == Some(code)
  }

  /** What worker `w` has seen of decision `d` before it wrote the label; `db` is what it wrote it onto. */
  predicate Caused(origin: System, run: seq<Action>, w: WorkerId, d: nat, code: ResultCode, db: Db) {
    match code
    case AutoAccepted =>
      && Once(origin, run, SeesNoReview(w, d))
      && db.renewalCase.Some? && db.renewalCase.value in {Upcoming, ReminderCycle, AwaitingCustomer, CaseHumanReview}
      && Once(origin, run, SeesCase(w, d, db.renewalCase.value))
    case RoutedToHumanReview => Once(origin, run, ReadsAction(w, d, RouteToHuman))
    case SkippedAlreadyAccepted => Once(origin, run, SeesAccepted(w, d))
    case SkippedHumanAlreadyReviewed => db.message.status == Some(Resolved) || Once(origin, run, SeesHuman(w, d))
    case SkippedNoRenewalCase => Once(origin, run, SeesNoCase(w, d))
    case SkippedConcurrentBusinessDecision =>
      || Once(origin, run, SeesBusinessDecision(w, d))
      || (Once(origin, run, FindsCaseMoved(w, d)) && Once(origin, run, SeesCaseElsewhere(w, d)))
    case _ => false
  }

  /** The worker, and where it stood when it wrote a label onto these rows. */
  predicate Writes(db: Db, pc: Worker, d: nat, code: ResultCode) {
    && HeldToken(pc).Some? && pc.d == d
    && (|| (pc.Accepting? && code.AutoAccepted? && db.renewalCase == Some(pc.seenCase))
        || (pc.RoutingHuman? && (code.RoutedToHumanReview? || (code.SkippedHumanAlreadyReviewed? && db.message.status == Some(Resolved))))
        || (pc.Finalizing? && code == pc.code)
        || (pc.FallingBack? && (code == pc.code || (code.SkippedHumanAlreadyReviewed? && db.message.status == Some(Resolved)))))
  }

  lemma LabelWriter(s: System, a: Action, d: nat, code: ResultCode)
    requires Labels(s, a, d, code)
    ensures !Outside(a) && !OfClassifier(a) && a.w in s.workers && Writes(s.db, s.workers[a.w], d, code)
  {
    hide ReadClassificationNext, ReadLatestNext, ReadCaseNext, ReadReviewNext, LostCaseNext, AfterAnswer, DecideAction, RequiresReview;
  }

  lemma SeenIsCause(origin: System, run: seq<Action>, db: Db, w: WorkerId, pc: Worker, d: nat, code: ResultCode)
    requires Seen(origin, run, w, pc) && WorkerOk(db, pc) && Writes(db, pc, d, code)
    ensures Caused(origin, run, w, d, code, db)
  {
    hide Exec, Once;
  }

  lemma LabelIsCaused(origin: System, run: seq<Action>, a: Action, d: nat, code: ResultCode)
    requires Fresh(origin) && Labels(Exec(origin, run), a, d, code)
    ensures Caused(origin, run, a.w, d, code, Exec(origin, run).db)
  {
    var s := Exec(origin, run);
    LabelWriter(s, a, d, code);
    WorkersActOnWhatTheySaw(origin, run, a.w);
    Reached(origin, run);
    hide Exec, Fresh, Labels, DbInv, Inv, WorkerOk, Seen, Writes, Caused;
    SeenIsCause(origin, run, s.db, a.w, s.workers[a.w], d, code);
  }

  /** The label was written by a worker that had seen the cause of it by then. */
  predicate LabelHasCause(origin: System, run: seq<Action>, d: nat, code: ResultCode) {
    exists j :: 0 <= j < |run|
      && Labels(Exec(origin, run[..j]), run[j], d, code)
      && Caused(origin, run[..j], run[j].w, d, code, Exec(origin, run[..j]).db)
  }

  lemma CauseGrows(origin: System, run: seq<Action>, d: nat, code: ResultCode)
    requires run != []
    ensures LabelHasCause(origin, run[..|run| - 1], d, code) ==> LabelHasCause(origin, run, d, code)
    ensures var init, a := run[..|run| - 1], run[|run| - 1];
      Labels(Exec(origin, init), a, d, code) && Caused(origin, init, a.w, d, code, Exec(origin, init).db) ==>
        LabelHasCause(origin, run, d, code)
  {
    hide Labels, Caused, Exec;
    var init, n := run[..|run| - 1], |run| - 1;
    assert forall k :: 0 <= k <= n ==> init[..k] == run[..k];
    if LabelHasCause(origin, init, d, code) {
      var j :| 0 <= j < n && Labels(Exec(origin, init[..j]), init[j], d, code)
        && Caused(origin, init[..j], init[j].w, d, code, Exec(origin, init[..j]).db);
      assert Labels(Exec(origin, run[..j]), run[j], d, code);
    }
  }

  /** In every run a decision's label was written by a worker that had seen the cause of it, unless it was
      born with the classifier's own. */
  lemma {:induction false} LabelsHaveCauses(origin: System, run: seq<Action>, d: nat)
    requires Fresh(origin) && d < |Exec(origin, run).db.decisions|
    requires Exec(origin, run).db.decisions[d].resultCode.Some?
    requires !Exec(origin, run).db.decisions[d].resultCode.value.ClassifierRequiredHumanReview?
    ensures LabelHasCause(origin, run, d, Exec(origin, run).db.decisions[d].resultCode.value)
    decreases |run|
  {
    if run != [] {
      var init, a := run[..|run| - 1], run[|run| - 1];
      var s := Exec(origin, init);
      LastStep(origin, run);
      Reached(origin, init);
      hide LabelHasCause, Caused, Step, Exec, Fresh;
      var code := Exec(origin, run).db.decisions[d].resultCode.value;
      CauseGrows(origin, run, d, code);
      if d < |s.db.decisions| && s.db.decisions[d].resultCode.Some? {
        LabelStays(s, a, d);
        LabelsHaveCauses(origin, init, d);
      } else {
        BornLabel(s, a, d);
        LabelIsCaused(origin, init, a, d, code);
      }
    }
  }

  lemma LabelStays(s: System, a: Action, d: nat)
    requires Inv(s) && DbInv(s.db) && d < |s.db.decisions| && s.db.decisions[d].resultCode.Some?
    ensures d < |Step(s, a).db.decisions| && Step(s, a).db.decisions[d].resultCode == s.db.decisions[d].resultCode
  {
    CompletedInRows(s.db, d);
    hide Step, Inv, DbInv;
    StepFinished(s, a, d);
  }

  /** A decision without a label before the step gets it there, or is born with the classifier's own. */
  lemma BornLabel(s: System, a: Action, d: nat)
    requires Inv(s) && (d < |s.db.decisions| ==> s.db.decisions[d].resultCode.None?)
    requires d < |Step(s, a).db.decisions| && Step(s, a).db.decisions[d].resultCode.Some?
    ensures Labels(s, a, d, Step(s, a).db.decisions[d].resultCode.value)
         || Step(s, a).db.decisions[d].resultCode == Some(ClassifierRequiredHumanReview)
  {
    if d >= |s.db.decisions| {
      assert |s.db.decisions| == |s.db.classifications|;
      hide Step, Inv;
      if |s.db.decisions| != |Step(s, a).db.decisions| {
        OnlyPersistStores(s, a);
      }
    }
  }

  // ----- whatever is not accepted reaches a human -----

  /** A finished decision has the status that belongs to its label, and its message has gone to a human
      unless the case was accepted: by this decision, or by somebody else before it. */
  predicate EndsWell(db: Db, d: nat)
    requires d < |db.decisions|
  {
    var row := db.decisions[d];
    Finished(row) ==>
      && row.resultCode.Some?
      && (row.status.RoutingSucceeded? <==>
            row.resultCode.value in {ClassifierRequiredHumanReview, AutoAccepted, RoutedToHumanReview})
      && (row.status.RoutingSkipped? <==>
            row.resultCode.value in {SkippedAlreadyAccepted, SkippedHumanAlreadyReviewed, SkippedNoRenewalCase,
                                     SkippedConcurrentBusinessDecision})
      && (row.resultCode.value in {AutoAccepted, SkippedAlreadyAccepted}
          || db.message.status == Some(HumanReview) || db.message.status == Some(Resolved))
  }

  lemma FinishedKeepsWell(s: System, a: Action, d: nat)
    requires Inv(s) && d < |s.db.decisions| && Finished(s.db.decisions[d]) && EndsWell(s.db, d)
    ensures d < |Step(s, a).db.decisions| && EndsWell(Step(s, a).db, d)
  {
    StepFinished(s, a, d);
    StepInv(s, a);
    hide Step, Inv, DbInv, Grows;
    LateStays(s.db, Step(s, a).db);
  }

  lemma LateStays(db: Db, db': Db)
    requires Grows(db, db')
    ensures Late(db.message.status) ==> Late(db'.message.status)
  {
  }

  /** The transaction that finishes a decision gives it the right status and hands the message on. */
  lemma WriterEndsWell(s: System, a: Action, d: nat, code: ResultCode)
    requires Labels(s, a, d, code) && a.w in s.workers && WorkerOk(s.db, s.workers[a.w]) && Writes(s.db, s.workers[a.w], d, code)
    requires !Outside(a) && !OfClassifier(a)
    requires s.db.message.status in {Some(Classified), Some(HumanReview), Some(Resolved)}
    ensures EndsWell(Step(s, a).db, d)
  {
    hide ReadClassificationNext, ReadLatestNext, ReadCaseNext, ReadReviewNext, LostCaseNext, LegalForAccepted;
  }

  lemma FinishingEndsWell(s: System, a: Action, d: nat)
    requires Inv(s) && d < |s.db.decisions| && !Finished(s.db.decisions[d])
    ensures d < |Step(s, a).db.decisions| && EndsWell(Step(s, a).db, d)
  {
    StepInv(s, a);
    Unlabelled(s.db, d);
    CompletedInRows(Step(s, a).db, d);
    hide Step, DbInv, WorkerOk, Writes;
    var code := Step(s, a).db.decisions[d].resultCode;
    if code.Some? {
      LabelWriter(s, a, d, code.value);
      WriterEndsWell(s, a, d, code.value);
    }
  }

  lemma Unlabelled(db: Db, d: nat)
    requires DbInv(db) && d < |db.decisions| && !Finished(db.decisions[d])
    ensures db.decisions[d].resultCode.None? && db.message.status in {Some(Classified), Some(Resolved)}
  {
    hide AuditOk;
  }

  lemma {:induction false} FinishedEndsWell(origin: System, run: seq<Action>, d: nat)
    requires Fresh(origin) && d < |Exec(origin, run).db.decisions|
    ensures EndsWell(Exec(origin, run).db, d)
    decreases |run|
  {
    if run != [] {
      var init, a := run[..|run| - 1], run[|run| - 1];
      var s := Exec(origin, init);
      LastStep(origin, run);
      Reached(origin, init);
      hide EndsWell, Step, Exec, Fresh;
      if d < |s.db.decisions| {
        FinishedEndsWell(origin, init, d);
        if Finished(s.db.decisions[d]) { FinishedKeepsWell(s, a, d); } else { FinishingEndsWell(s, a, d); }
      } else {
        BornEndsWell(s, a, d);
      }
    }
  }

  lemma BornEndsWell(s: System, a: Action, d: nat)
    requires Inv(s) && d >= |s.db.decisions| && d < |Step(s, a).db.decisions|
    ensures EndsWell(Step(s, a).db, d)
  {
    assert |s.db.decisions| == |s.db.classifications|;
    hide Inv;
    OnlyPersistStores(s, a);
    hide Step;
  }
}
