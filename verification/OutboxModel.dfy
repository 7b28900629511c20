/** The operator-reply outbox as a state machine: one outbox row, the EmailMessage it sends, and any
    number of workers running `processOne` on it. One action is one database statement, one
    transaction or one SMTP call; between two actions of a worker any other worker may run, with a
    clock of its own, and a worker may stop for ever. */
module OutboxModel {
  import opened Options

  type Time = int // milliseconds
  type Address = string
  type WorkerId = nat

  const STALE_PROCESSING_LEASE_MS: Time := 600_000
  const DEFER_RETRY_DELAY_MS: Time := 60_000
  const SMTP_RETRY_BACKOFF_MS: seq<Time> := [60_000, 300_000, 900_000, 1_800_000]
  const MAX_SEND_ATTEMPTS: nat := 5

  datatype OutboxStatus = Queued | Processing | Delivered | Failed | Cancelled

  datatype OutboxRow = OutboxRow(
    status: OutboxStatus,
    recipient: Address,
    attempts: nat,
    lastAttemptAt: Option<Time>,
    nextAttemptAt: Option<Time>,
    lastError: Option<string>)

  /** What a worker reads outside the row while it judges eligibility; any values, at any time. */
  datatype Facts = Facts(mailboxProblem: Option<string>, hasCustomer: bool, primaryRecipient: Option<Address>)

  datatype SmtpResult = Accepted | Refused(terminal: bool, error: string)

  datatype Eligibility =
    | Eligible(recipient: Address, recipientChanged: bool)
    | DeferRow(reason: string)
    | CancelRow(reason: string)

  datatype Outcome = Sent | DeferredRow | CancelledRow | SendFailed | NotClaimed | Conflict | OwnershipLostAfterSend

  /** Where a worker stands in `processOne`, with its local variables. */
  datatype Worker =
    | Stamped(stamp: Time)
    | Claimed(token: Time)
    | Loaded(token: Time, seen: OutboxRow)
    | Deferring(token: Time, reason: string)
    | Cancelling(token: Time, reason: string)
    | Rebinding(token: Time, recipient: Address)
    | Marking(token: Time, recipient: Address)
    | Transmitting(token: Time, recipient: Address)
    | RecordingSuccess(token: Time)
    | ReadingAttempts(token: Time, terminal: bool, error: string)
    | RecordingFailure(token: Time, terminal: bool, error: string, attemptsRead: nat)
    | Finished(outcome: Outcome)
    | Crashed

  datatype Lease = Lease(stamp: Time, worker: WorkerId)
  datatype Transmission = Transmission(to: Address, accepted: bool)
  datatype Requeue = Requeue(attempts: nat, delay: Time)

  /** What has happened so far: the successful claims, how many of them took over a stale lease, the SMTP
      calls made, and the returns to QUEUED caused by a failed send. */
  datatype History = History(
    claims: seq<Lease>,
    reclaims: nat,
    sent: seq<Transmission>,
    requeues: seq<Requeue>)

  datatype System = System(
    row: OutboxRow,
    toAddresses: seq<Address>,
    workers: map<WorkerId, Worker>,
    history: History)

  datatype Action =
    | Claim(w: WorkerId, now: Time)
    | ReadBack(w: WorkerId)
    | Load(w: WorkerId)
    | Evaluate(w: WorkerId, facts: Facts)
    | DeferToQueued(w: WorkerId)
    | Cancel(w: WorkerId)
    | RebindRecipient(w: WorkerId)
    | MarkAttempt(w: WorkerId)
    | Transmit(w: WorkerId, result: SmtpResult)
    | RecordSuccess(w: WorkerId)
    | ReadAttempts(w: WorkerId)
    | RecordFailure(w: WorkerId)
    | Crash(w: WorkerId)

  // ----- the decisions of one worker -----

  predicate Claimable(row: OutboxRow, now: Time) {
    || (row.status.Queued? && (row.nextAttemptAt.None? || row.nextAttemptAt.value <= now))
    || (row.status.Processing? && row.lastAttemptAt.Some? && row.lastAttemptAt.value < now - STALE_PROCESSING_LEASE_MS)
  }

  /** The compare-and-swap guard on every write after the claim. */
  predicate Holds(row: OutboxRow, token: Time) {
    row.status.Processing? && row.lastAttemptAt == Some(token)
  }

  function EvaluateEligibility(seen: OutboxRow, facts: Facts): Eligibility {
    var attempted := seen.attempts > 0;
    if facts.mailboxProblem.Some? then DeferRow("mail_configuration_unusable:" + facts.mailboxProblem.value)
    else if !facts.hasCustomer then
      if attempted then CancelRow("no_customer_attributed") else DeferRow("no_customer_attributed")
    else if facts.primaryRecipient.None? then
      if attempted then CancelRow("recipient_unavailable_after_attempt") else DeferRow("no_current_recipient")
    else if facts.primaryRecipient.value != seen.recipient then
      if attempted then CancelRow("recipient_changed_after_attempt")
      else Eligible(facts.primaryRecipient.value, true)
    else Eligible(facts.primaryRecipient.value, false)
  }

  function BackoffIndex(attempts: int): int {
    if attempts - 1 < |SMTP_RETRY_BACKOFF_MS| - 1 then attempts - 1 else |SMTP_RETRY_BACKOFF_MS| - 1
  }

  /** The array read in `recordFailure`; an index outside the array would read `undefined`. */
  function Backoff(attempts: int): Time {
    var i := BackoffIndex(attempts);
    if 0 <= i < |SMTP_RETRY_BACKOFF_MS| then SMTP_RETRY_BACKOFF_MS[i] else 0
  }

  // ----- the steps -----

  function Put(s: System, w: WorkerId, pc: Worker): System {
    s.(workers := s.workers[w := pc])
  }

  function ClaimStep(s: System, w: WorkerId, now: Time): System {
    if Claimable(s.row, now) then
      Put(s.(row := s.row.(status := Processing, lastAttemptAt := Some(now)),
             history := s.history.(claims := s.history.claims + [Lease(now, w)],
                                   reclaims := s.history.reclaims + if s.row.status.Processing? then 1 else 0)),
          w, Stamped(now))
    else Put(s, w, Finished(NotClaimed))
  }

  /** Where a worker goes after judging eligibility. */
  function Judged(token: Time, e: Eligibility): Worker {
    match e
    case DeferRow(reason) => Deferring(token, reason)
    case CancelRow(reason) => Cancelling(token, reason)
    case Eligible(recipient, changed) => if changed then Rebinding(token, recipient) else Marking(token, recipient)
  }

  function EvaluateStep(s: System, w: WorkerId, pc: Worker, facts: Facts): System
    requires pc.Loaded?
  {
    Put(s, w, Judged(pc.token, EvaluateEligibility(pc.seen, facts)))
  }

  function DeferStep(s: System, w: WorkerId, pc: Worker): System
    requires pc.Deferring?
  {
    if Holds(s.row, pc.token) then
      Put(s.(row := s.row.(status := Queued, lastError := Some(pc.reason),
                           nextAttemptAt := Some(pc.token + DEFER_RETRY_DELAY_MS))),
          w, Finished(DeferredRow))
    else Put(s, w, Finished(Conflict))
  }

  function CancelStep(s: System, w: WorkerId, pc: Worker): System
    requires pc.Cancelling?
  {
    if Holds(s.row, pc.token) then
      Put(s.(row := s.row.(status := Cancelled, lastError := Some(pc.reason))), w, Finished(CancelledRow))
    else Put(s, w, Finished(Conflict))
  }

  function RebindStep(s: System, w: WorkerId, pc: Worker): System
    requires pc.Rebinding?
  {
    if Holds(s.row, pc.token) && s.row.attempts == 0 then
      Put(s.(row := s.row.(recipient := pc.recipient), toAddresses := [pc.recipient]),
          w, Marking(pc.token, pc.recipient))
    else Put(s, w, Finished(Conflict))
  }

  function MarkStep(s: System, w: WorkerId, pc: Worker): System
    requires pc.Marking?
  {
    if Holds(s.row, pc.token) then
      Put(s.(row := s.row.(attempts := s.row.attempts + 1)), w, Transmitting(pc.token, pc.recipient))
    else Put(s, w, Finished(Conflict))
  }

  function TransmitStep(s: System, w: WorkerId, pc: Worker, result: SmtpResult): System
    requires pc.Transmitting?
  {
    var logged := s.(history := s.history.(sent := s.history.sent + [Transmission(pc.recipient, result.Accepted?)]));
    match result
    case Accepted => Put(logged, w, RecordingSuccess(pc.token))
    case Refused(terminal, error) => Put(logged, w, ReadingAttempts(pc.token, terminal, error))
  }

  function RecordSuccessStep(s: System, w: WorkerId, pc: Worker): System
    requires pc.RecordingSuccess?
  {
    if Holds(s.row, pc.token) then
      Put(s.(row := s.row.(status := Delivered, lastError := None, nextAttemptAt := None)), w, Finished(Sent))
    else Put(s, w, Finished(OwnershipLostAfterSend))
  }

  function RecordFailureStep(s: System, w: WorkerId, pc: Worker): System
    requires pc.RecordingFailure?
  {
    if !Holds(s.row, pc.token) then Put(s, w, Finished(OwnershipLostAfterSend))
    else if pc.terminal || pc.attemptsRead >= MAX_SEND_ATTEMPTS then
      Put(s.(row := s.row.(status := Failed, lastError := Some(pc.error), nextAttemptAt := None)),
          w, Finished(SendFailed))
    else
      var delay := Backoff(pc.attemptsRead);
      Put(s.(row := s.row.(status := Queued, lastError := Some(pc.error), nextAttemptAt := Some(pc.token + delay)),
             history := s.history.(requeues := s.history.requeues + [Requeue(pc.attemptsRead, delay)])),
          w, Finished(SendFailed))
  }

  /** One action. An action that does not fit where its worker stands changes nothing. */
  function Step(s: System, a: Action): System {
    var w := a.w;
    if w !in s.workers then
      if a.Claim? then ClaimStep(s, w, a.now) else s
    else
      var pc := s.workers[w];
      match a
      case Claim(_, _) => s
      case ReadBack(_) =>
        if pc.Stamped? && s.row.lastAttemptAt.Some? then Put(s, w, Claimed(s.row.lastAttemptAt.value)) else s
      case Load(_) => if pc.Claimed? then Put(s, w, Loaded(pc.token, s.row)) else s
      case Evaluate(_, facts) => if pc.Loaded? then EvaluateStep(s, w, pc, facts) else s
      case DeferToQueued(_) => if pc.Deferring? then DeferStep(s, w, pc) else s
      case Cancel(_) => if pc.Cancelling? then CancelStep(s, w, pc) else s
      case RebindRecipient(_) => if pc.Rebinding? then RebindStep(s, w, pc) else s
      case MarkAttempt(_) => if pc.Marking? then MarkStep(s, w, pc) else s
      case Transmit(_, result) => if pc.Transmitting? then TransmitStep(s, w, pc, result) else s
      case RecordSuccess(_) => if pc.RecordingSuccess? then RecordSuccessStep(s, w, pc) else s
      case ReadAttempts(_) =>
        if pc.ReadingAttempts? then Put(s, w, RecordingFailure(pc.token, pc.terminal, pc.error, s.row.attempts)) else s
      case RecordFailure(_) => if pc.RecordingFailure? then RecordFailureStep(s, w, pc) else s
      case Crash(_) => if pc.Finished? then s else Put(s, w, Crashed)
  }

  // ----- runs -----

  /** The row as `queueReply` creates it, before any worker has seen it. */
  predicate Fresh(s: System) {
    && s.row.status.Queued? && s.row.attempts == 0
    && s.row.lastAttemptAt.None? && s.row.nextAttemptAt.None?
    && s.toAddresses == [s.row.recipient]
    && s.workers == map[]
    && s.history == History([], 0, [], [])
  }

  function Exec(s: System, run: seq<Action>): System
    decreases |run|
  {
    if run == [] then s else Step(Exec(s, run[..|run| - 1]), run[|run| - 1])
  }

  /** A worker that works under this token, or is about to read it back as its own, and may yet mark an
      attempt and send. */
  predicate MayStillSend(pc: Worker, token: Time) {
    match pc
    case Stamped(t) => t == token
    case Claimed(t) => t == token
    case Loaded(t, _) => t == token
    case Rebinding(t, _) => t == token
    case Marking(t, _) => t == token
    case _ => false
  }

  /** The row is leased, no attempt has ever been marked, and some worker other than `w` may still send
      under the lease. */
  predicate Contested(s: System, w: WorkerId) {
    && s.row.status.Processing? && s.row.attempts == 0 && s.row.lastAttemptAt.Some?
    && exists v :: v in s.workers && v != w && MayStillSend(s.workers[v], s.row.lastAttemptAt.value)
  }

  /** `claim` writes its stamp in one query and reads the token back in a second one. Reading back is
      harmless when the stamp is still the worker's own, or when nobody else may still send under the
      lease it now finds. */
  predicate HarmlessStep(s: System, a: Action) {
    a.ReadBack? && a.w in s.workers && s.workers[a.w].Stamped? ==>
      s.row.lastAttemptAt == Some(s.workers[a.w].stamp) || !Contested(s, a.w)
  }

  predicate Harmless(s: System, run: seq<Action>)
    decreases |run|
  {
    run == [] || (Harmless(s, run[..|run| - 1]) && HarmlessStep(Exec(s, run[..|run| - 1]), run[|run| - 1]))
  }

  /** The state that the run leads to is reached from a fresh row, with harmless read-backs. */
  predicate ReachedBy(origin: System, run: seq<Action>) {
    Fresh(origin) && Harmless(origin, run)
  }

  lemma OneMore(s: System, run: seq<Action>, a: Action)
    ensures Exec(s, run + [a]) == Step(Exec(s, run), a)
    ensures Harmless(s, run + [a]) <==> Harmless(s, run) && HarmlessStep(Exec(s, run), a)
  {
    assert (run + [a])[..|run + [a]| - 1] == run;
  }

  lemma {:induction false} ExecPlus(s: System, run: seq<Action>, more: seq<Action>)
    ensures Exec(s, run + more) == Exec(Exec(s, run), more)
    ensures Harmless(s, run + more) <==> Harmless(s, run) && Harmless(Exec(s, run), more)
    decreases |more|
  {
    if more == [] {
      assert run + more == run;
    } else {
      var init := more[..|more| - 1];
      ExecPlus(s, run, init);
      assert (run + more)[..|run + more| - 1] == run + init;
    }
  }
}
