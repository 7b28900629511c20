/** The producer of outbox rows as a state machine: any number of `queueReply` calls over the thread,
    message and outbox tables, with the unique index on (actor, idempotency key), the transaction that
    may lose to it or to a deadlock, and other writers of the same tables. One action is one query or
    one transaction. The text columns compare by a collation that ignores case, accents and trailing
    spaces, while the code compares by spelling: `weigh` gives the weight by which the database compares. */
module ReplyQueueModel {
  import opened JsText
  import opened Options
  import opened ReplySubject
  import Outbox = OutboxModel

  type ThreadId = string
  type ActorId = nat
  type MessageId = nat
  type OutboxId = nat
  type CallId = nat
  type Key = string
  type Weight = nat

  datatype Thread = Thread(id: ThreadId, subject: Text, lastMessageAt: Outbox.Time)

  /** `source` is the outbox row whose transaction created the message, if one did. */
  datatype Message = Message(
    threadId: ThreadId,
    subject: Text,
    body: Text,
    toAddresses: seq<Outbox.Address>,
    source: Option<OutboxId>)

  /** An outbox row: its identity, the call that inserted it, and the columns the workers write. */
  datatype Row = Row(
    threadId: ThreadId,
    emailMessageId: MessageId,
    actor: ActorId,
    key: Key,
    insertedBy: CallId,
    delivery: Outbox.OutboxRow)

  datatype Request = Request(threadId: ThreadId, actor: ActorId, key: Key, subject: Option<Text>, body: Text)

  datatype DbError = UniqueViolation | WriteConflict | ForeignKey | ConnectionLost | OtherFailure

  /** How a call ends. `existing` is the row it was compared with. */
  datatype Result =
    | Returned(outboxId: OutboxId, emailMessageId: MessageId, threadId: ThreadId, status: Outbox.OutboxStatus)
    | NotFound
    | KeyConflict(existing: OutboxId)
    | Unprocessable(reason: string)
    | Raised(error: DbError)

  datatype Progress =
    | ReadingThread
    | LookingUp
    | Resolving
    | Inserting(recipient: Outbox.Address)
    | FindingWinner
    | Done(result: Result)
    | Stopped

  /** One `queueReply` call; `thread` and `subject` are the stored thread id and the effective subject of
      its latest attempt. */
  datatype Call = Call(request: Request, attempt: nat, thread: ThreadId, subject: Text, progress: Progress)

  /** The primary key of the threads admits one for each weight. */
  datatype System = System(
    weigh: string -> Weight,
    threads: map<Weight, Thread>,
    messages: map<MessageId, Message>,
    outbox: map<OutboxId, Row>,
    calls: map<CallId, Call>)

  /** How the transaction ends, apart from the constraints it may violate. */
  datatype DbOutcome = Commit | CommitUnheard | Deadlock | Failure

  datatype Action =
    | Submit(c: CallId, request: Request)
    | ReadThread(c: CallId)
    | FindExisting(c: CallId, found: Option<OutboxId>)
    | ResolveRecipient(c: CallId, facts: Outbox.Facts)
    | Insert(c: CallId, messageId: MessageId, outboxId: OutboxId, now: Outbox.Time, outcome: DbOutcome)
    | FindWinner(c: CallId, found: Option<OutboxId>)
    | Stop(c: CallId)
    | CreateThread(thread: Thread)
    | TouchThread(t: ThreadId, at: Outbox.Time)
    | Arrive(m: MessageId, message: Message)
    | WorkerWrites(o: OutboxId, delivery: Outbox.OutboxRow, to: seq<Outbox.Address>)

  // ----- the decisions of one call -----

  function EffectiveSubject(request: Request, threadSubject: Text): Text {
    if request.subject.Some? && Trim(request.subject.value) != [] then Trim(request.subject.value)
    else NormalizeReplySubject(threadSubject)
  }

  /** The unique index: the actor, and the key up to collation. */
  predicate Matches(weigh: string -> Weight, row: Row, actor: ActorId, key: Key) {
    row.actor == actor && weigh(row.key) == weigh(key)
  }

  predicate KeyTaken(s: System, actor: ActorId, key: Key) {
    exists o :: o in s.outbox && Matches(s.weigh, s.outbox[o], actor, key)
  }

  /** What the lookup by (actor, key), joined with the message, may answer. */
  predicate Looks(s: System, request: Request, found: Option<OutboxId>) {
    match found
    case Some(o) =>
      && o in s.outbox && Matches(s.weigh, s.outbox[o], request.actor, request.key)
      && s.outbox[o].emailMessageId in s.messages
    case None => !KeyTaken(s, request.actor, request.key)
  }

  /** The row and its message are what this call asks for, letter by letter. */
  predicate SameReply(row: Row, message: Message, request: Request, subject: Text) {
    row.threadId == request.threadId && message.body == request.body && message.subject == subject
  }

  function ResolveExisting(s: System, o: OutboxId, request: Request, subject: Text): Result
    requires o in s.outbox && s.outbox[o].emailMessageId in s.messages
  {
    var row := s.outbox[o];
    if SameReply(row, s.messages[row.emailMessageId], request, subject)
    then Returned(o, row.emailMessageId, row.threadId, row.delivery.status)
    else KeyConflict(o)
  }

  function RecipientProblem(facts: Outbox.Facts): Option<string> {
    if facts.mailboxProblem.Some? then Some("Reply mailbox is unavailable (" + facts.mailboxProblem.value + ").")
    else if !facts.hasCustomer then
      Some("This thread has no attributed customer; no authoritative recipient is available.")
    else if facts.primaryRecipient.None? then
      Some("No active primary email address is on file for this customer.")
    else None
  }

  /** The row's delivery columns as the insert leaves them to their defaults. */
  function FreshDelivery(recipient: Outbox.Address): Outbox.OutboxRow {
    Outbox.OutboxRow(Outbox.Queued, recipient, 0, None, None, None)
  }

  // ----- the steps -----

  function Go(s: System, c: CallId, call: Call): System {
    s.(calls := s.calls[c := call])
  }

  function AfterThread(s: System, call: Call): Call {
    var t := s.weigh(call.request.threadId);
    if t !in s.threads then call.(progress := Done(NotFound))
    else call.(thread := s.threads[t].id, subject := EffectiveSubject(call.request, s.threads[t].subject),
               progress := LookingUp)
  }

  function AfterLookUp(s: System, call: Call, found: Option<OutboxId>, absent: Progress): Call
    requires Looks(s, call.request, found)
  {
    call.(progress := match found
      case Some(o) => Done(ResolveExisting(s, o, call.request, call.subject))
      case None => absent)
  }

  function AfterRecipient(call: Call, facts: Outbox.Facts): Call {
    var problem := RecipientProblem(facts);
    call.(progress := if problem.Some? then Done(Unprocessable(problem.value)) else Inserting(facts.primaryRecipient.value))
  }

  /** A query of a call. One that does not fit where the call stands changes nothing. */
  function AfterQuery(s: System, call: Call, a: Action): Call {
    match a
    case ReadThread(_) => if call.progress.ReadingThread? then AfterThread(s, call) else call
    case FindExisting(_, found) =>
      if call.progress.LookingUp? && Looks(s, call.request, found) then AfterLookUp(s, call, found, Resolving) else call
    case ResolveRecipient(_, facts) => if call.progress.Resolving? then AfterRecipient(call, facts) else call
    case FindWinner(_, found) =>
      if call.progress.FindingWinner? && Looks(s, call.request, found)
      then AfterLookUp(s, call, found, Done(Raised(UniqueViolation))) else call
    case Stop(_) => if call.progress.Done? then call else call.(progress := Stopped)
    case _ => call
  }

  predicate ThreadExists(s: System, t: ThreadId) {
    s.weigh(t) in s.threads
  }

  predicate Violates(s: System, request: Request, messageId: MessageId, outboxId: OutboxId) {
    messageId in s.messages || outboxId in s.outbox || KeyTaken(s, request.actor, request.key)
  }

  predicate Commits(s: System, call: Call, messageId: MessageId, outboxId: OutboxId, outcome: DbOutcome) {
    && (outcome.Commit? || outcome.CommitUnheard?)
    && ThreadExists(s, call.thread) && !Violates(s, call.request, messageId, outboxId)
  }

  /** The message, the row that sends it and the thread's new activity, written together. */
  function Written(s: System, c: CallId, call: Call, messageId: MessageId, outboxId: OutboxId, now: Outbox.Time): System
    requires call.progress.Inserting? && ThreadExists(s, call.thread)
  {
    var t, to := call.thread, call.progress.recipient;
    s.(messages := s.messages[messageId := Message(t, call.subject, call.request.body, [to], Some(outboxId))],
       outbox := s.outbox[outboxId :=
         Row(t, messageId, call.request.actor, call.request.key, c, FreshDelivery(to))],
       threads := s.threads[s.weigh(t) := s.threads[s.weigh(t)].(lastMessageAt := now)])
  }

  /** Where the transaction leaves the call: a unique violation sends it to look for the winner, a first
      deadlock back to the start, and anything else ends it. */
  function AfterInsert(s: System, call: Call, messageId: MessageId, outboxId: OutboxId, outcome: DbOutcome): Call {
    match outcome
    case Deadlock =>
      if call.attempt < 1 then call.(attempt := call.attempt + 1, progress := ReadingThread)
      else call.(progress := Done(Raised(WriteConflict)))
    case Failure => call.(progress := Done(Raised(OtherFailure)))
    case _ =>
      if !ThreadExists(s, call.thread) then call.(progress := Done(Raised(ForeignKey)))
      else if Violates(s, call.request, messageId, outboxId) then call.(progress := FindingWinner)
      else if outcome.Commit? then call.(progress := Done(Returned(outboxId, messageId, call.thread, Outbox.Queued)))
      else call.(progress := Done(Raised(ConnectionLost)))
  }

  function InsertStep(s: System, c: CallId, call: Call, messageId: MessageId, outboxId: OutboxId, now: Outbox.Time,
                      outcome: DbOutcome): System
    requires call.progress.Inserting?
  {
    Go(if Commits(s, call, messageId, outboxId, outcome) then Written(s, c, call, messageId, outboxId, now) else s,
       c, AfterInsert(s, call, messageId, outboxId, outcome))
  }

  function CallStep(s: System, c: CallId, a: Action): System
    requires c in s.calls
  {
    var call := s.calls[c];
    if a.Insert? then
      if call.progress.Inserting? then InsertStep(s, c, call, a.messageId, a.outboxId, a.now, a.outcome) else s
    else Go(s, c, AfterQuery(s, call, a))
  }

  /** The outbound workers write the delivery columns of a row and the recipients of its message. */
  function WorkerWritesStep(s: System, o: OutboxId, delivery: Outbox.OutboxRow, to: seq<Outbox.Address>): System
    requires o in s.outbox && s.outbox[o].emailMessageId in s.messages
  {
    var m := s.outbox[o].emailMessageId;
    s.(outbox := s.outbox[o := s.outbox[o].(delivery := delivery)],
       messages := s.messages[m := s.messages[m].(toAddresses := to)])
  }

  /** The other writers create threads and messages and move a thread's activity; none of them edits the
      subject of a thread or what a message says, and none deletes. */
  function OtherStep(s: System, a: Action): System {
    match a
    case CreateThread(thread) =>
      if ThreadExists(s, thread.id) then s else s.(threads := s.threads[s.weigh(thread.id) := thread])
    case TouchThread(t, at) =>
      if ThreadExists(s, t)
      then s.(threads := s.threads[s.weigh(t) := s.threads[s.weigh(t)].(lastMessageAt := at)]) else s
    case Arrive(m, message) =>
      if m in s.messages || !ThreadExists(s, message.threadId) || message.source.Some? then s
      else s.(messages := s.messages[m := message])
    case WorkerWrites(o, delivery, to) =>
      if o in s.outbox && s.outbox[o].emailMessageId in s.messages then WorkerWritesStep(s, o, delivery, to) else s
    case _ => s
  }

  function SubmitStep(s: System, c: CallId, request: Request): System {
    if c in s.calls then s else Go(s, c, Call(request, 0, "", [], ReadingThread))
  }

  /** The call an action belongs to; None for the other writers. */
  function Caller(a: Action): Option<CallId> {
    match a
    case Submit(c, _) => Some(c)
    case ReadThread(c) => Some(c)
    case FindExisting(c, _) => Some(c)
    case ResolveRecipient(c, _) => Some(c)
    case Insert(c, _, _, _, _) => Some(c)
    case FindWinner(c, _) => Some(c)
    case Stop(c) => Some(c)
    case _ => None
  }

  function Step(s: System, a: Action): System {
    if a.Submit? then SubmitStep(s, a.c, a.request)
    else match Caller(a)
      case Some(c) => if c in s.calls then CallStep(s, c, a) else s
      case None => OtherStep(s, a)
  }

  // ----- runs -----

  /** Before any reply is queued: any threads, any messages of theirs, no outbox row, no call. */
  predicate Initial(s: System) {
    && s.outbox == map[] && s.calls == map[]
    && (forall t :: t in s.threads ==> s.weigh(s.threads[t].id) == t)
    && (forall m :: m in s.messages ==> ThreadExists(s, s.messages[m].threadId) && s.messages[m].source.None?)
  }

  function Exec(s: System, run: seq<Action>): System
    decreases |run|
  {
    if run == [] then s else Step(Exec(s, run[..|run| - 1]), run[|run| - 1])
  }
}
