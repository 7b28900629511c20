/** AI classification, routing and human review of one inbound message as a state machine: the rows
    of the message, its thread, its renewal case, its classifications, routing decisions and reviews,
    and any number of classification jobs and routing workers. One action is one query or one
    transaction. Other parts of the system may change the case and the thread at any time. */
module RoutingModel {
  import opened Options

  type Time = int // milliseconds
  type WorkerId = nat

  const AI_ROUTING_STALE_PROCESSING_LEASE_MS: Time := 120_000

  // ----- rows -----

  datatype Direction = Inbound | Outbound
  datatype MessageStatus = Pending | Classified | HumanReview | Resolved
  datatype ThreadStatus = Open | InHumanReview | ThreadResolved

  datatype CaseStatus =
    | Upcoming | ReminderCycle | AwaitingCustomer | CaseHumanReview | Accepted
    | InvoiceDraft | InvoicePendingPublication | InvoicePublished | Collecting
    | PaymentReported | PaymentConfirmed | Fulfilled | Rejected | Retention | DoNotRenew
    | SuspensionDue | SuspensionPendingApproval | SuspensionInProgress | Suspended
    | ReactivationPending | Closed | CaseError

  datatype Intent =
    | AcceptRenewal | RejectRenewal | RequestInvoice | IntentPaymentReported | RequestUpgrade | RequestDowngrade
    | RequestClarification | PriceDispute | Complaint | OtherIntent | Unclear

  datatype Message = Message(direction: Direction, status: Option<MessageStatus>, createdAt: Time, occurredAt: Time)

  datatype Settings = Settings(enabled: bool, threshold: real, autoAccept: bool, cutoverAt: Option<Time>)

  datatype Normalized = Normalized(intent: Intent, confidence: real, requiresHumanReview: bool)

  /** A classification row, with the settings snapshot and the instant it was decided under. */
  datatype Classification = Classification(result: Normalized, settings: Settings, decidedAt: Time, createdAt: Time)

  datatype RoutingAction = AutoAccept | RouteToHuman
  datatype RoutingStatus = RoutingPending | RoutingProcessing | RoutingSucceeded | RoutingSkipped | RoutingFailed

  datatype ResultCode =
    | ClassifierRequiredHumanReview | AutoAccepted | RoutedToHumanReview | SkippedAlreadyAccepted
    | SkippedHumanAlreadyReviewed | SkippedConcurrentBusinessDecision | SkippedClassificationSuperseded
    | SkippedNoRenewalCase | InvariantViolation

  datatype Decision = Decision(
    classificationId: nat,
    action: RoutingAction,
    status: RoutingStatus,
    resultCode: Option<ResultCode>,
    attempts: nat,
    lastAttemptAt: Option<Time>,
    completedAt: Option<Time>)

  datatype Review = Review(classificationId: nat, correctedIntent: Intent, createdAt: Time, id: nat)

  datatype Event =
    | ClassificationCreated(classificationId: nat)
    | HumanReviewRequired(classificationId: nat)
    | ClassificationFailed
    | ReviewCreated(classificationId: nat)
    | AutoAcceptedCase(decisionId: nat, from: CaseStatus)
    | HumanReviewRouted(decisionId: nat)

  /** The message refers to a renewal case exactly while that case exists: deleting it clears the link. */
  datatype Db = Db(
    message: Message,
    thread: ThreadStatus,
    renewalCase: Option<CaseStatus>,
    classifications: seq<Classification>,
    decisions: seq<Decision>,
    reviews: seq<Review>,
    audit: seq<Event>)

  // ----- workers -----

  datatype ClassifyOutcome =
    | SkippedDisabled | SkippedIneligible | ClassifiedOutcome | HumanReviewOutcome | FailedHumanReview | LostCas
    | Rethrown | TransactionError

  datatype RouteOutcome = Succeeded | Skipped | Failed | NotClaimed | Conflict | Paused | Threw

  datatype FailureReason = RetryBudgetExhausted | ProviderPermanentError | MalformedOutput | UnknownError

  datatype Answer = Answered(result: Normalized) | Transient | Permanent | Malformed | Unrecognized

  datatype Worker =
    | ClassifyStarted(settings: Settings, isLast: bool)
    | ClassifyLoaded(settings: Settings, isLast: bool, linked: bool, seen: Message)
    | ClassifyAnswered(settings: Settings, linked: bool, seen: Message, result: Normalized)
    | HandingOver(reason: FailureReason)
    | ClassifyDone(classified: ClassifyOutcome)
    | Peeked(d: nat)
    | Stamped(d: nat)
    | Leased(d: nat, token: Time)
    | ReadingClassification(d: nat, token: Time)
    | ReadingLatest(d: nat, token: Time, linked: bool)
    | ReadingCase(d: nat, token: Time, linked: bool)
    | ReadingReview(d: nat, token: Time, seenCase: CaseStatus)
    | Accepting(d: nat, token: Time, seenCase: CaseStatus)
    | CaseLost(d: nat, token: Time)
    | Finalizing(d: nat, token: Time, status: RoutingStatus, code: ResultCode)
    | FallingBack(d: nat, token: Time, code: ResultCode)
    | RoutingHuman(d: nat, token: Time)
    | RouteDone(routed: RouteOutcome)

  datatype System = System(db: Db, workers: map<WorkerId, Worker>)

  datatype Action =
    | StartClassify(w: WorkerId, settings: Settings, isLast: bool)
    | LoadMessage(w: WorkerId)
    | AskGateway(w: WorkerId, answer: Answer)
    | Persist(w: WorkerId, now: Time, createdAt: Time)
    | HandOver(w: WorkerId)
    | Peek(w: WorkerId, d: nat, autoAcceptEnabled: bool)
    | ClaimDecision(w: WorkerId, now: Time)
    | ReadToken(w: WorkerId)
    | ReadDecision(w: WorkerId)
    | ReadClassification(w: WorkerId)
    | ReadLatest(w: WorkerId)
    | ReadCase(w: WorkerId)
    | ReadReview(w: WorkerId)
    | CommitAccept(w: WorkerId, now: Time)
    | ReadLostCase(w: WorkerId)
    | Finalize(w: WorkerId, now: Time)
    | FallBack(w: WorkerId, now: Time)
    | RouteHuman(w: WorkerId, now: Time)
    | CreateReview(w: WorkerId, classificationId: nat, intent: Intent, createdAt: Time, id: nat)
    | SetCase(w: WorkerId, caseStatus: CaseStatus)
    | DeleteCase(w: WorkerId)
    | SetThread(w: WorkerId, threadStatus: ThreadStatus)

  // ----- decisions in the code -----

  predicate LegalForAccepted(from: CaseStatus) {
    from in {Upcoming, ReminderCycle, AwaitingCustomer, CaseHumanReview}
  }

  predicate RequiresReview(result: Normalized, settings: Settings) {
    result.confidence < settings.threshold || result.requiresHumanReview || result.intent.Unclear?
  }

  /** The action frozen onto the decision when the classification is stored. */
  function DecideAction(intent: Intent, linked: bool, settings: Settings, now: Time, message: Message): RoutingAction {
    if && intent.AcceptRenewal?
       && settings.autoAccept
       && settings.cutoverAt.Some?
       && now >= settings.cutoverAt.value
       && message.createdAt >= settings.cutoverAt.value
       && message.occurredAt >= settings.cutoverAt.value
       && linked
    then AutoAccept else RouteToHuman
  }

  predicate DecisionClaimable(d: Decision, now: Time) {
    || d.status.RoutingPending?
    || (d.status.RoutingProcessing? && d.lastAttemptAt.Some? && d.lastAttemptAt.value < now - AI_ROUTING_STALE_PROCESSING_LEASE_MS)
  }

  predicate HoldsDecision(d: Decision, token: Time) {
    d.status.RoutingProcessing? && d.lastAttemptAt == Some(token)
  }

  function Finish(d: Decision, status: RoutingStatus, code: ResultCode, now: Time): Decision {
    d.(status := status, resultCode := Some(code), completedAt := Some(now))
  }

  /** The newest classification by (createdAt, id); ids are positions. */
  function NewestClassification(cs: seq<Classification>): (i: int)
    requires cs != []
    ensures 0 <= i < |cs|
    ensures forall j :: 0 <= j < |cs| ==> cs[j].createdAt < cs[i].createdAt || (cs[j].createdAt == cs[i].createdAt && j <= i)
  {
    if |cs| == 1 then 0
    else
      var i := NewestClassification(cs[..|cs| - 1]);
      if cs[|cs| - 1].createdAt >= cs[i].createdAt then |cs| - 1 else i
  }

  // ----- transactions -----

  datatype AbortReason = EmailMessageChanged | CaseChanged | OwnershipLost
  datatype TxResult = Committed(db: Db) | Aborted(reason: AbortReason) | Raised

  /** The AUTO_ACCEPT transaction: message touch, case transition, then the ownership check. */
  function AcceptTx(db: Db, d: nat, token: Time, seenCase: CaseStatus, now: Time): TxResult
    requires d < |db.decisions|
  {
    if db.message.status != Some(Classified) then Aborted(EmailMessageChanged)
    else if db.renewalCase.None? then Raised
    else if db.renewalCase.value != seenCase then Aborted(CaseChanged)
    else
      var moved := db.(renewalCase := Some(Accepted), audit := db.audit + [AutoAcceptedCase(d, seenCase)]);
      if !HoldsDecision(moved.decisions[d], token) then Aborted(OwnershipLost)
      else Committed(moved.(decisions := moved.decisions[d := Finish(moved.decisions[d], RoutingSucceeded, AutoAccepted, now)]))
  }

  datatype Routing = Routed | AlreadyHumanReview | AlreadyResolved

  function TryRoute(db: Db): (Db, Routing) {
    if db.message.status == Some(Resolved) then (db, AlreadyResolved)
    else if db.message.status != Some(Classified) then (db, AlreadyHumanReview)
    else
      var thread := if db.thread.ThreadResolved? then db.thread else InHumanReview;
      (db.(message := db.message.(status := Some(HumanReview)), thread := thread), Routed)
  }

  /** The normal execution of a HUMAN_REVIEW decision. */
  function HumanTx(db: Db, d: nat, token: Time, now: Time): TxResult
    requires d < |db.decisions|
  {
    var (routed, routing) := TryRoute(db);
    if !HoldsDecision(routed.decisions[d], token) then Aborted(OwnershipLost)
    else if routing.AlreadyResolved? then
      Committed(routed.(decisions := routed.decisions[d := Finish(routed.decisions[d], RoutingSkipped, SkippedHumanAlreadyReviewed, now)]))
    else
      Committed(routed.(decisions := routed.decisions[d := Finish(routed.decisions[d], RoutingSucceeded, RoutedToHumanReview, now)],
                        audit := routed.audit + [HumanReviewRouted(d)]))
  }

  /** SKIPPED with a reason, while the message still goes to a human unless one already resolved it. */
  function FallbackTx(db: Db, d: nat, token: Time, code: ResultCode, now: Time): TxResult
    requires d < |db.decisions|
  {
    var (routed, routing) := TryRoute(db);
    var finalCode := if routing.AlreadyResolved? then SkippedHumanAlreadyReviewed else code;
    if !HoldsDecision(routed.decisions[d], token) then Aborted(OwnershipLost)
    else
      Committed(routed.(decisions := routed.decisions[d := Finish(routed.decisions[d], RoutingSkipped, finalCode, now)],
                        audit := routed.audit + if routing.Routed? then [HumanReviewRouted(d)] else []))
  }

  function FinalizeDb(db: Db, d: nat, token: Time, status: RoutingStatus, code: ResultCode, now: Time): Db
    requires d < |db.decisions|
  {
    if HoldsDecision(db.decisions[d], token)
    then db.(decisions := db.decisions[d := Finish(db.decisions[d], status, code, now)])
    else db
  }

  /** Classification and routing decision are created together, under the PENDING compare-and-swap.
      A decision for a case deleted since the message was loaded violates its foreign key. */
  function PersistTx(db: Db, linked: bool, seen: Message, result: Normalized, settings: Settings, now: Time, createdAt: Time): TxResult
  {
    if !(db.message.direction.Inbound? && db.message.status == Some(Pending)) then Aborted(EmailMessageChanged)
    else if linked && db.renewalCase.None? then Raised
    else
      var cid := |db.classifications|;
      var review := RequiresReview(result, settings);
      var decision :=
        if review then Decision(cid, RouteToHuman, RoutingSucceeded, Some(ClassifierRequiredHumanReview), 0, None, Some(now))
        else Decision(cid, DecideAction(result.intent, linked, settings, now, seen), RoutingPending, None, 0, None, None);
      Committed(db.(message := db.message.(status := Some(if review then HumanReview else Classified)),
                    classifications := db.classifications + [Classification(result, settings, now, createdAt)],
                    decisions := db.decisions + [decision],
                    audit := db.audit + [if review then HumanReviewRequired(cid) else ClassificationCreated(cid)]))
  }

  /** `createReview`: RESOLVED first, then the appended review; refused when the classification does not exist. */
  function ReviewTx(db: Db, classificationId: nat, intent: Intent, createdAt: Time, id: nat): Db {
    if classificationId >= |db.classifications| then db
    else db.(message := db.message.(status := Some(Resolved)),
             reviews := db.reviews + [Review(classificationId, intent, createdAt, id)],
             audit := db.audit + [ReviewCreated(classificationId)])
  }

  function HandOverDb(db: Db): Db {
    if db.message.direction.Inbound? && db.message.status == Some(Pending)
    then db.(message := db.message.(status := Some(HumanReview)), audit := db.audit + [ClassificationFailed])
    else db
  }

  // ----- steps -----

  function Put(s: System, w: WorkerId, pc: Worker): System {
    s.(workers := s.workers[w := pc])
  }

  function AfterAnswer(pc: Worker, answer: Answer): Worker
    requires pc.ClassifyLoaded?
  {
    match answer
    case Answered(result) => ClassifyAnswered(pc.settings, pc.linked, pc.seen, result)
    case Transient => if pc.isLast then HandingOver(RetryBudgetExhausted) else ClassifyDone(Rethrown)
    case Permanent => HandingOver(ProviderPermanentError)
    case Malformed => HandingOver(MalformedOutput)
    case Unrecognized => if pc.isLast then HandingOver(UnknownError) else ClassifyDone(Rethrown)
  }

  function PersistStep(s: System, w: WorkerId, pc: Worker, now: Time, createdAt: Time): System
    requires pc.ClassifyAnswered?
  {
    match PersistTx(s.db, pc.linked, pc.seen, pc.result, pc.settings, now, createdAt)
    case Aborted(_) => Put(s, w, ClassifyDone(LostCas))
    case Raised => Put(s, w, ClassifyDone(TransactionError))
    case Committed(db) =>
      Put(s.(db := db), w,
          ClassifyDone(if RequiresReview(pc.result, pc.settings) then HumanReviewOutcome else ClassifiedOutcome))
  }

  function PeekStep(s: System, w: WorkerId, d: nat, autoAcceptEnabled: bool): System {
    if d >= |s.db.decisions| then Put(s, w, RouteDone(NotClaimed))
    else if s.db.decisions[d].action.AutoAccept? && !autoAcceptEnabled then Put(s, w, RouteDone(Paused))
    else Put(s, w, Peeked(d))
  }

  function ClaimStep(s: System, w: WorkerId, d: nat, now: Time): System
    requires d < |s.db.decisions|
  {
    var row := s.db.decisions[d];
    if DecisionClaimable(row, now) then
      Put(s.(db := s.db.(decisions := s.db.decisions[d :=
            row.(status := RoutingProcessing, lastAttemptAt := Some(now), attempts := row.attempts + 1)])),
          w, Stamped(d))
    else Put(s, w, RouteDone(NotClaimed))
  }

  function ReadClassificationNext(db: Db, pc: Worker): Worker
    requires pc.ReadingClassification? && pc.d < |db.decisions|
    requires db.decisions[pc.d].classificationId < |db.classifications|
  {
    var c := db.classifications[db.decisions[pc.d].classificationId];
    if !db.message.direction.Inbound? || c.result.requiresHumanReview || !c.result.intent.AcceptRenewal?
    then Finalizing(pc.d, pc.token, RoutingFailed, InvariantViolation)
    else ReadingLatest(pc.d, pc.token, db.renewalCase.Some?)
  }

  function ReadLatestNext(db: Db, pc: Worker): Worker
    requires pc.ReadingLatest? && pc.d < |db.decisions|
  {
    if db.classifications == [] || NewestClassification(db.classifications) != db.decisions[pc.d].classificationId
    then Finalizing(pc.d, pc.token, RoutingSkipped, SkippedClassificationSuperseded)
    else ReadingCase(pc.d, pc.token, pc.linked)
  }

  function ReadCaseNext(db: Db, pc: Worker): Worker
    requires pc.ReadingCase?
  {
    if !pc.linked || db.renewalCase.None? then FallingBack(pc.d, pc.token, SkippedNoRenewalCase)
    else if db.renewalCase.value.Accepted? then Finalizing(pc.d, pc.token, RoutingSkipped, SkippedAlreadyAccepted)
    else if !LegalForAccepted(db.renewalCase.value) then FallingBack(pc.d, pc.token, SkippedConcurrentBusinessDecision)
    else ReadingReview(pc.d, pc.token, db.renewalCase.value)
  }

  function ReadReviewNext(db: Db, pc: Worker): Worker
    requires pc.ReadingReview? && pc.d < |db.decisions|
  {
    if exists i :: 0 <= i < |db.reviews| && db.reviews[i].classificationId == db.decisions[pc.d].classificationId
    then Finalizing(pc.d, pc.token, RoutingSkipped, SkippedHumanAlreadyReviewed)
    else Accepting(pc.d, pc.token, pc.seenCase)
  }

  function AcceptStep(s: System, w: WorkerId, pc: Worker, now: Time): System
    requires pc.Accepting? && pc.d < |s.db.decisions|
  {
    match AcceptTx(s.db, pc.d, pc.token, pc.seenCase, now)
    case Committed(db) => Put(s.(db := db), w, RouteDone(Succeeded))
    case Raised => Put(s, w, RouteDone(Threw))
    case Aborted(EmailMessageChanged) =>
      Put(s, w, Finalizing(pc.d, pc.token, RoutingSkipped, SkippedHumanAlreadyReviewed))
    case Aborted(CaseChanged) => Put(s, w, CaseLost(pc.d, pc.token))
    case Aborted(OwnershipLost) => Put(s, w, RouteDone(Conflict))
  }

  function LostCaseNext(db: Db, pc: Worker): Worker
    requires pc.CaseLost?
  {
    if db.renewalCase.None? then RouteDone(Threw)
    else if db.renewalCase.value.Accepted? then Finalizing(pc.d, pc.token, RoutingSkipped, SkippedAlreadyAccepted)
    else FallingBack(pc.d, pc.token, SkippedConcurrentBusinessDecision)
  }

  function FinalizeStep(s: System, w: WorkerId, pc: Worker, now: Time): System
    requires pc.Finalizing? && pc.d < |s.db.decisions|
  {
    Put(s.(db := FinalizeDb(s.db, pc.d, pc.token, pc.status, pc.code, now)), w,
        RouteDone(if pc.status.RoutingFailed? then Failed else Skipped))
  }

  function FallbackStep(s: System, w: WorkerId, pc: Worker, now: Time): System
    requires pc.FallingBack? && pc.d < |s.db.decisions|
  {
    var r := FallbackTx(s.db, pc.d, pc.token, pc.code, now);
    Put(s.(db := if r.Committed? then r.db else s.db), w, RouteDone(Skipped))
  }

  function HumanStep(s: System, w: WorkerId, pc: Worker, now: Time): System
    requires pc.RoutingHuman? && pc.d < |s.db.decisions|
  {
    var r := HumanTx(s.db, pc.d, pc.token, now);
    if r.Committed? then
      Put(s.(db := r.db), w, RouteDone(if r.db.decisions[pc.d].status.RoutingSucceeded? then Succeeded else Skipped))
    else Put(s, w, RouteDone(Conflict))
  }

  /** A case goes with its subscription or customer, which are only deleted while it is closed or in error. */
  predicate Deletable(renewalCase: Option<CaseStatus>) {
    renewalCase == Some(Closed) || renewalCase == Some(CaseError)
  }

  /** Actions that are not steps of a worker already running. */
  function OutsideStep(s: System, a: Action): System {
    match a
    case StartClassify(w, settings, isLast) =>
      if w in s.workers then s
      else Put(s, w, if settings.enabled then ClassifyStarted(settings, isLast) else ClassifyDone(SkippedDisabled))
    case Peek(w, d, enabled) => if w in s.workers then s else PeekStep(s, w, d, enabled)
    case CreateReview(_, cid, intent, createdAt, id) => s.(db := ReviewTx(s.db, cid, intent, createdAt, id))
    case SetCase(_, status) => if s.db.renewalCase.None? then s else s.(db := s.db.(renewalCase := Some(status)))
    case DeleteCase(_) => if Deletable(s.db.renewalCase) then s.(db := s.db.(renewalCase := None)) else s
    case SetThread(_, status) => s.(db := s.db.(thread := status))
    case _ => s
  }

  function ClassifyMove(s: System, a: Action, pc: Worker): System {
    var w := a.w;
    match a
    case LoadMessage(_) =>
      if !pc.ClassifyStarted? then s
      else if s.db.message.direction.Inbound? && s.db.message.status == Some(Pending)
      then Put(s, w, ClassifyLoaded(pc.settings, pc.isLast, s.db.renewalCase.Some?, s.db.message))
      else Put(s, w, ClassifyDone(SkippedIneligible))
    case AskGateway(_, answer) => if pc.ClassifyLoaded? then Put(s, w, AfterAnswer(pc, answer)) else s
    case Persist(_, now, createdAt) => if pc.ClassifyAnswered? then PersistStep(s, w, pc, now, createdAt) else s
    case HandOver(_) =>
      if pc.HandingOver? then Put(s.(db := HandOverDb(s.db)), w, ClassifyDone(FailedHumanReview)) else s
    case _ => s
  }

  /** A routing step of a worker whose decision exists. */
  function RouteMove(s: System, a: Action, pc: Worker): System
    requires DecisionOf(pc).Some? ==> DecisionOf(pc).value < |s.db.decisions|
  {
    var w := a.w;
    match a
    case ClaimDecision(_, now) => if pc.Peeked? then ClaimStep(s, w, pc.d, now) else s
    case ReadToken(_) =>
      if pc.Stamped? && s.db.decisions[pc.d].lastAttemptAt.Some?
      then Put(s, w, Leased(pc.d, s.db.decisions[pc.d].lastAttemptAt.value)) else s
    case ReadDecision(_) =>
      if pc.Leased?
      then Put(s, w, if s.db.decisions[pc.d].action.AutoAccept? then ReadingClassification(pc.d, pc.token) else RoutingHuman(pc.d, pc.token))
      else s
    case ReadClassification(_) =>
      if pc.ReadingClassification? && s.db.decisions[pc.d].classificationId < |s.db.classifications|
      then Put(s, w, ReadClassificationNext(s.db, pc)) else s
    case ReadLatest(_) => if pc.ReadingLatest? then Put(s, w, ReadLatestNext(s.db, pc)) else s
    case ReadCase(_) => if pc.ReadingCase? then Put(s, w, ReadCaseNext(s.db, pc)) else s
    case ReadReview(_) => if pc.ReadingReview? then Put(s, w, ReadReviewNext(s.db, pc)) else s
    case CommitAccept(_, now) => if pc.Accepting? then AcceptStep(s, w, pc, now) else s
    case ReadLostCase(_) => if pc.CaseLost? then Put(s, w, LostCaseNext(s.db, pc)) else s
    case Finalize(_, now) => if pc.Finalizing? then FinalizeStep(s, w, pc, now) else s
    case FallBack(_, now) => if pc.FallingBack? then FallbackStep(s, w, pc, now) else s
    case RouteHuman(_, now) => if pc.RoutingHuman? then HumanStep(s, w, pc, now) else s
    case _ => s
  }

  /** The decision a routing worker is on. */
  function DecisionOf(pc: Worker): Option<nat> {
    match pc
    case Peeked(d) => Some(d)
    case Stamped(d) => Some(d)
    case Leased(d, _) => Some(d)
    case ReadingClassification(d, _) => Some(d)
    case ReadingLatest(d, _, _) => Some(d)
    case ReadingCase(d, _, _) => Some(d)
    case ReadingReview(d, _, _) => Some(d)
    case Accepting(d, _, _) => Some(d)
    case CaseLost(d, _) => Some(d)
    case Finalizing(d, _, _, _) => Some(d)
    case FallingBack(d, _, _) => Some(d)
    case RoutingHuman(d, _) => Some(d)
    case _ => None
  }

  predicate Outside(a: Action) {
    a.StartClassify? || a.Peek? || a.CreateReview? || a.SetCase? || a.DeleteCase? || a.SetThread?
  }

  predicate OfClassifier(a: Action) {
    a.LoadMessage? || a.AskGateway? || a.Persist? || a.HandOver?
  }

  /** One action. An action that does not fit where its worker stands changes nothing. */
  function Step(s: System, a: Action): System {
    if Outside(a) then OutsideStep(s, a)
    else if a.w !in s.workers then s
    else if OfClassifier(a) then ClassifyMove(s, a, s.workers[a.w])
    else
      var d := DecisionOf(s.workers[a.w]);
      if d.None? || d.value >= |s.db.decisions| then s else RouteMove(s, a, s.workers[a.w])
  }

  // ----- runs -----

  /** A message as it is ingested: inbound, waiting for classification or already sent to a human. */
  predicate Fresh(s: System) {
    && s.workers == map[]
    && s.db.classifications == [] && s.db.decisions == [] && s.db.reviews == [] && s.db.audit == []
    && (if s.db.message.direction.Inbound? then s.db.message.status in {Some(Pending), Some(HumanReview)}
        else s.db.message.status.None?)
  }

  function Exec(s: System, run: seq<Action>): System
    decreases |run|
  {
    if run == [] then s else Step(Exec(s, run[..|run| - 1]), run[|run| - 1])
  }
}
