# Verification of the renewal platform's core

This project models the parts of the backend whose correctness is hardest to see by reading one function: three
concurrent protocols over database rows, the calendar arithmetic, and the encoders and text transforms. Everything is
proved with Dafny 4.11; `dafny verify dfyconfig.toml` checks the whole project.

**The operator-reply outbox** (`Outbox*.dfy`). One outbox row, the message it sends, and any number of workers. A worker
has a program counter and its local variables; one action is one query, one transaction or one SMTP call, and between
two actions any other worker may act, with any clock, or crash for ever. The lease claim is its two queries.
`OutboxModel` is the machine; `OutboxSafety` is the invariant of every run, `OutboxAddresses` that of the runs whose
token read-backs do no harm, and `OutboxReadBack` says exactly which those are; `OutboxTheorems`, `OutboxClaims` (when a
row is claimed, and claimed again) and `OutboxRetry` hold the promises, and `OutboxCrashes` shows why the attempts
counter has no bound of its own. `OutboxService` is the service in its own form, a class that writes the row in place
and is always in a state that a run leads to, with what the theorems then say of its result.

**Queueing a reply** (`ReplyQueue*.dfy`). The producer of those rows: any number of `queueReply` calls with the unique
index on (actor, idempotency key), losers that recover the winner's row, the one retry after a deadlock, and a commit
whose acknowledgement is lost. The tables compare text by a collation that ignores case and trailing spaces, the code by
spelling; the collation is any function to weights. `ReplyQueueContents` says what a queued reply holds, told by the
request, and `ReplyQueueEnds` why each call ends as it does. `ReplyQueueService` is the class, with the transaction's
writes made in place and undone.

**Classification, routing and review** (`Routing*.dfy`). Classifier jobs, routing workers and human reviewers race on
one message, its thread, its renewal case, its classification, its routing decision and its reviews. The lease claim is
modelled in its two queries, with no assumption on how much happens between them. `RoutingAttempts`, `RoutingSnapshot`
and `RoutingReasons` trace every outcome of an attempt, every stored snapshot and every label of a decision to its cause
in the run (`RoutingHistory` has the words for it), and `RoutingOutcomes` says what the rows hold. `RoutingService` is
the class, with transactions that roll back, and `RoutingWitnesses` holds three runs that end otherwise than one would
expect.

**Dates** (`CivilDates`, `CalendarMonths`, `Decimals`, `DateKeys`, `JsDates`). The proleptic Gregorian calendar of section
21.4.1 of ECMA-262 as a bijection between day numbers and civil dates, and on it `addCalendarMonths`, the importer's second
implementation on a mutable `Date`, and business-day arithmetic through printed and parsed date keys.

**Encoders and texts** (`JsText`, `Utf8`, `ImapIdentity`, `CanonicalJson`, `CanonicalJsonText`, `CanonicalJsonTheorems`,
`ReplySubject`, `NameLanguage`). Text is a sequence of UTF-16 code units where the code works on those.

Where the code does not keep what its documentation says, the code is modelled and the difference is a lemma:

- The claim of an outbox row is two queries. A token read back late lets one reply go to two addresses exactly when the row
  is leased, was never attempted, and another worker may still send under the lease
  (`OutboxReadBack.HarmlessExactlyWhenOneAddress`; `OutboxTheorems.StalledReadBackSendsTwice` is such a run). Tokens, retry
  limits, delays and final statuses hold of every run, however late its read-backs; routing needs no such condition at all.
- The idempotency key is compared by the database's collation and never again by the code, so two keys that differ in case
  share one reply (`ReplyQueueTheorems.DifferentKeysShare`); the thread id is found by collation and then compared by
  spelling, so an identical request under another spelling is refused with 409 the second time
  (`ReplyQueueTheorems.RespelledThreadRefused`, with the exact condition in `ReplyQueueTheorems.IdenticalRequestsAgree`).
- A routing worker that lost its lease can still return `skipped` (`RoutingWitnesses.SkippedWithoutLease`;
  `RoutingService.AiServices.ProcessOne` says when the outcome is true).
- A classification job can end with its message PENDING: exactly when the attempt that ended it went to store its result
  for a message loaded with a case and found the case gone and the message still PENDING, or found AI disabled with the
  message PENDING (`RoutingService.AiServices.RunJob`; `RoutingTheorems.FailsExactlyWhenStuck` says so of every run).
  `RoutingWitnesses.DeletedCaseLeavesPending` is such a run, with the case closed first, as deletion demands; the deletion
  alone is not enough (`RoutingWitnesses.DeletedCaseMayBeHandedOver`).
- The schema says that INBOX is compared by the rule of RFC 3501, which is ASCII-only; `toUpperCase` also turns a dotless i
  into I (`ImapIdentity.InboxBeyondAscii` says exactly which names, `ImapIdentity.DotlessInbox` gives one).
- Normalizing a reply subject twice can differ from normalizing it once, exactly when what is left of it without
  prefixes is longer than 496 code units and the 496th is white space (`ReplySubject.FixedUnlessCutAfterSpace`).
- `Date.UTC` reads the years 0 to 99 as 1900 to 1999, so `addCalendarMonths` moves by the months asked for exactly outside
  those years (`CalendarMonths.MovesExactly`, with a date in `CalendarMonths.EarlyYearMoves`). The importer's own month
  arithmetic uses `Date.UTC` only for the length of a month; the two agree exactly when the end date is outside those years
  and the term does not reach the February of the year 0 from a 29th, 30th or 31st (`JsDates.TermStartIsAddition`).
- The canonical JSON text depends on the order of entries exactly when two keys of one object collate as equal
  (`CanonicalJsonTheorems.OrderIrrelevantExactlyWhenNoTies`, with values in `CanonicalJsonTheorems.TiedKeysGiveTwoTexts`).
- Two folder names that are not well-formed Unicode can share a deduplication key
  (`ImapIdentity.LoneSurrogateCollides`).

## Model

| member | source | states |
|---|---|---|
| `OutboxTheorems.OneAddress` | apps/api/src/modules/communications/operator-reply-outbound.service.ts:147-201 | in every run with harmless read-backs all transmissions of a row go to one address, and the row and its message name it |
| `OutboxReadBack.HarmlessExactlyWhenOneAddress` | apps/api/src/modules/communications/operator-reply-outbound.service.ts:212-233 | a read-back leaves every harmless continuation with one address exactly when its stamp is still the row's, or the row is not leased, or was attempted, or nobody else may still send under the lease |
| `OutboxReadBack.ContestedSendsTwice` | apps/api/src/modules/communications/operator-reply-outbound.service.ts:212-233 | any other read-back has a continuation that transmits to two addresses |
| `OutboxTheorems.RecipientFrozen` | apps/api/src/modules/communications/operator-reply-outbound.service.ts:341-374 | once an attempt is marked no continuation changes the recipient of the row or of the message |
| `OutboxTheorems.TokensIncrease` | apps/api/src/modules/communications/operator-reply-outbound.service.ts:211-234 | in every run later claims carry strictly greater tokens whatever the clocks show |
| `OutboxTheorems.OnlyHolderWrites` | apps/api/src/modules/communications/operator-reply-outbound.service.ts:304-422 | in every run a row changes only by a claim with a newer token or under its latest token while PROCESSING |
| `OutboxTheorems.FinalStays` | apps/api/src/modules/communications/operator-reply-outbound.service.ts:316-335 | DELIVERED, FAILED and CANCELLED rows and their messages never change again |
| `OutboxClaims.ClaimedExactlyWhenDue` | apps/api/src/modules/communications/operator-reply-outbound.service.ts:211-234 | in every run a new worker gets the lease at `now` exactly when the row is QUEUED with no retry time or one at or before `now`, or PROCESSING under a token older than `now` minus 600,000 ms; otherwise nothing changes |
| `OutboxClaims.DeferredIsClaimedAfterAMinute` | apps/api/src/modules/communications/operator-reply-outbound.service.ts:304-314 | a row deferred under token t is, until somebody claims it and whatever else happens, claimed exactly from t + 60,000 ms on |
| `OutboxClaims.RequeuedIsClaimedAfterItsDelay` | apps/api/src/modules/communications/operator-reply-outbound.service.ts:399-422 | a refused send is FAILED exactly when terminal or at attempt 5 or later; after attempt 1, 2, 3 or 4 under token t the row is, until somebody claims it, claimed exactly from t + 1, 5, 15 or 30 minutes on |
| `OutboxClaims.WaitsUnchanged` | apps/api/src/modules/communications/operator-reply-outbound.service.ts:211-234 | nothing but a claim changes a row that waits in QUEUED |
| `OutboxTheorems.DeliveredWasAccepted` | apps/api/src/modules/communications/operator-reply-outbound.service.ts:376-397 | DELIVERED implies that the mail server accepted a transmission, to the row's recipient when read-backs are harmless |
| `OutboxTheorems.OneCallEach` | apps/api/src/modules/communications/operator-reply-outbound.service.ts:147-201 | in every run a worker calls the mail server at most once, exactly when it got past its call |
| `OutboxTheorems.StalledReadBackSendsTwice` | apps/api/src/modules/communications/operator-reply-outbound.service.ts:212-233 | a run with a late token read-back sends one reply to two addresses |
| `OutboxSafety.StepInv` | apps/api/src/modules/communications/operator-reply-outbound.service.ts:147-446 | every action of every worker, late read-backs included, keeps tokens, retry times and marked attempts right |
| `OutboxAddresses.StepAddress` | apps/api/src/modules/communications/operator-reply-outbound.service.ts:341-374 | every harmless action keeps one address for row, message, transmissions and the workers that may still send |
| `OutboxRetry.AtMostFourRequeues` | apps/api/src/modules/communications/operator-reply-outbound.service.ts:399-422 | in every run a failed send re-queues at most four times, with attempts 1 to 4 and delays of 1, 5, 15 or 30 minutes by attempt, and attempt k at the k-th up to the number of takeovers |
| `OutboxRetry.SendsBounded` | apps/api/src/modules/communications/operator-reply-outbound.service.ts:368-374 | in every run transmissions never exceed attempts, and attempts exceed five only by the number of leases taken over |
| `OutboxRetry.NoStaleLeaseSchedule` | apps/api/src/modules/communications/operator-reply-timing.constants.ts:10-16 | in every run without stale leases there are at most five sends and the delays are a prefix of 1, 5, 15, 30 minutes, deferrals between them or not |
| `OutboxCrashes.CrashesSendWithoutBound` | apps/api/src/modules/communications/operator-reply-outbound.service.ts:211-234 | for every n some run with crashes after the send transmits n times, all accepted, none recorded |
| `OutboxService.OperatorReplyOutbound.Claim` | apps/api/src/modules/communications/operator-reply-outbound.service.ts:211-234 | stamps the row exactly when it is due or its lease is older than 600,000 ms and, with others between the two queries, returns the token the row then shows, never older than the stamp |
| `OutboxService.OperatorReplyOutbound.Judge` | apps/api/src/modules/communications/operator-reply-outbound.service.ts:240-284 | the eligibility of the loaded row, without writing it |
| `OutboxTheorems.EligibleRowsKeepTheirAddress` | apps/api/src/modules/communications/operator-reply-outbound.service.ts:240-284 | a row is eligible exactly when mailbox, customer and primary address exist and, after an attempt, that address is its own; a changed recipient is offered only before the first attempt, and a cancellation only after one |
| `OutboxTheorems.WorkerGoesAsJudged` | apps/api/src/modules/communications/operator-reply-outbound.service.ts:240-284 | a worker goes on to send exactly when mailbox, customer and address allow it, by a rebind exactly when the address is new and nothing was attempted; it cancels exactly after an attempt, defers for the mailbox or before one, and keeps the reason |
| `OutboxService.OperatorReplyOutbound.DeferRowToQueued` | apps/api/src/modules/communications/operator-reply-outbound.service.ts:304-314 | back to QUEUED with a retry 60,000 ms after the token, only for the holder |
| `OutboxService.OperatorReplyOutbound.CancelRowFor` | apps/api/src/modules/communications/operator-reply-outbound.service.ts:316-335 | CANCELLED with the reason, only for the holder |
| `OutboxService.OperatorReplyOutbound.Rebind` | apps/api/src/modules/communications/operator-reply-outbound.service.ts:341-366 | row and message change address together, only for the holder and only before the first attempt |
| `OutboxService.OperatorReplyOutbound.Mark` | apps/api/src/modules/communications/operator-reply-outbound.service.ts:368-374 | counts the attempt, only for the holder |
| `OutboxService.OperatorReplyOutbound.RecordSent` | apps/api/src/modules/communications/operator-reply-outbound.service.ts:376-397 | DELIVERED with error and retry time cleared, only for the holder |
| `OutboxService.OperatorReplyOutbound.RecordRefused` | apps/api/src/modules/communications/operator-reply-outbound.service.ts:399-446 | FAILED when terminal or out of attempts, else QUEUED after this attempt's delay, only for the holder |
| `OutboxService.OperatorReplyOutbound.ProcessOne` | apps/api/src/modules/communications/operator-reply-outbound.service.ts:147-201 | with others at every await the outcome is true of row, retry time and delay, and explained by the facts judged and the mail server's answer; the worker called the mail server once exactly for outcomes after a send, to the address it was given; a terminal refusal ends FAILED; and with harmless read-backs all transmissions went to the row's recipient |
| `ReplyQueueTheorems.OneRowPerKey` | apps/api/prisma/schema.prisma:963 | in every run each actor and key, up to collation, has at most one outbox row |
| `ReplyQueueTheorems.OneMessagePerKey` | apps/api/src/modules/communications/operator-reply.service.ts:109-165 | in every run each actor and key, up to collation, has at most one message: a loser's message is rolled back |
| `ReplyQueueTheorems.OneAnswerPerKey` | apps/api/src/modules/communications/operator-reply.service.ts:167-225 | calls that return share row and message exactly when their actor is one and their keys collate as equal, and then carried the same body and effective subject in the same thread |
| `ReplyQueueTheorems.ReturnsOnlySameReply` | apps/api/src/modules/communications/operator-reply.service.ts:209-225 | next to a call that returned, another of its key returns exactly when it inserted the row or asks for the same body and subject in the thread as it is stored, and is refused otherwise |
| `ReplyQueueTheorems.IdenticalRequestsAgree` | apps/api/src/modules/communications/operator-reply.service.ts:71-86 | of two identical requests the second gets the first one's ids exactly when the request spells the thread id as the thread found for it has it stored, which no run changes; derived subjects included |
| `ReplyQueueTheorems.DifferentKeysShare` | apps/api/prisma/migrations/20260917000000_phase3_slice_e_operator_reply_outbox/migration.sql:43 | two calls with different keys that collate as equal get one reply |
| `ReplyQueueTheorems.RespelledThreadRefused` | apps/api/prisma/migrations/20260910000000_phase3_slice_a_communication_domain/migration.sql:48 | a request under another spelling of its thread id is queued the first time and refused when repeated |
| `ReplyQueueTheorems.OnlyAnsweredCallsInsert` | apps/api/src/modules/communications/operator-reply.service.ts:109-185 | a call inserts at most one row, and one that ends in any error but a lost acknowledgement inserts none |
| `ReplyQueueTheorems.InsertedRowIsFresh` | apps/api/src/modules/communications/operator-reply.service.ts:130-139 | an inserted row with its message is a fresh row of the outbox machine |
| `ReplyQueueContents.InsertedReplySaysWhatWasAsked` | apps/api/src/modules/communications/operator-reply.service.ts:71-139 | in every run each row's message has the body of the request that inserted it, in its thread, under the operator's subject without surrounding white space or, when that is empty or absent, the normalized subject of the stored thread |
| `ReplyQueueContents.AnswersSayWhatWasAsked` | apps/api/src/modules/communications/operator-reply.service.ts:209-225 | in every run a call that returned names a message with its own body and its own subject, trimmed or derived in the same way |
| `ReplyQueueContents.DifferentSubjectsShareNothing` | apps/api/src/modules/communications/operator-reply.service.ts:209-225 | of two calls of one actor and key whose own subjects differ once trimmed, at most one returns |
| `ReplyQueueEnds.EndsExactlyForItsCause` | apps/api/src/modules/communications/operator-reply.service.ts:59-225 | in every run a call has ended with a result exactly when some action of its met the cause: each answer, with the row's current status, each refusal, each 404 and 422 with its text, and each error |
| `ReplyQueueEnds.StartsOverExactlyOnFirstDeadlock` | apps/api/src/modules/communications/operator-reply.service.ts:174-180 | a call goes back to its start exactly for the deadlock of its first attempt, with every table as it was |
| `ReplyQueueEnds.InsertedGoesToResolvedAddress` | apps/api/src/modules/communications/operator-reply.service.ts:81-143 | a row is inserted for the primary address its call resolved under a usable mailbox and a known customer, the message goes there, and the thread's activity moves |
| `ReplyQueueTheorems.RunKeeps` | apps/api/src/modules/communications/operator-reply.service.ts:59-225 | no run takes back a row's identity, what a message says, a thread's subject or a finished call |
| `ReplyQueueTheorems.TurnsBounded` | apps/api/src/modules/communications/operator-reply.service.ts:59-180 | no call takes more than ten turns: five in each of at most two attempts |
| `ReplyQueueTheorems.NeverStuck` | apps/api/src/modules/communications/operator-reply.service.ts:59-180 | an unfinished call always has a query that moves it on |
| `ReplyQueueSafety.StepInv` | apps/api/src/modules/communications/operator-reply.service.ts:59-225 | every action of calls and other writers keeps unique keys, rows paired with messages, and right answers |
| `ReplyQueueService.OperatorReply.WriteReply` | apps/api/src/modules/communications/operator-reply.service.ts:110-164 | all three writes of the transaction, or none when a constraint is violated |
| `ReplyQueueService.OperatorReply.FindExistingForActor` | apps/api/src/modules/communications/operator-reply.service.ts:187-192 | the row whose actor is equal and whose key collates as equal, joined with its message, or none when there is none |
| `ReplyQueueService.OperatorReply.QueueReply` | apps/api/src/modules/communications/operator-reply.service.ts:43-180 | a returned result is the only row of its actor and key, up to collation, and holds what was asked, the operator's own trimmed subject included, the thread in the spelling given unless the call inserted it; a refusal names one that does not; other ends but a lost acknowledgement inserted nothing; and every end has met its cause in the run |
| `RoutingTheorems.LabelIsTruthful` | apps/api/src/modules/ai/ai-routing.service.ts:226-404 | a decision labelled SKIPPED_HUMAN_ALREADY_REVIEWED has a review, whichever path wrote the label |
| `RoutingTheorems.ReviewBeatsAutoAccept` | apps/api/src/modules/ai/classification-review.service.ts:51-76 | no automatic acceptance is ever recorded after a review of the message |
| `RoutingTheorems.AcceptancesMatchDecisions` | apps/api/src/modules/ai/ai-routing.service.ts:237-283 | automatic acceptances and SUCCEEDED/AUTO_ACCEPTED decisions correspond one to one |
| `RoutingTheorems.AcceptancesWereEligible` | apps/api/src/modules/ai/ai-routing-eligibility.util.ts:34-46 | every automatic acceptance started from a legal status and from a classification that met its own snapshot |
| `RoutingOutcomes.SnapshotIsExact` | apps/api/src/modules/ai/ai-routing-eligibility.util.ts:34-46 | in every run a classification was stored with the answer and settings of its attempt; its decision is AUTO_ACCEPT exactly when that answer needs no human and means to accept, the message was linked when loaded, and switch and cutover allow it for clock, creation and occurrence; and it is the classifier's own exactly when the answer is under the threshold, asks for a human or is unclear |
| `RoutingSnapshot.AttemptsKnowTheirPast` | apps/api/src/modules/ai/ai-classification.service.ts:61-136 | in every run the settings, link, message and answer an attempt carries are those it was started with, read and heard |
| `RoutingTheorems.AcceptanceIsEffective` | apps/api/src/modules/ai/effective-classification.service.ts:34-80 | at an automatic acceptance no review exists and the effective classification is the AI's, with the intent to renew |
| `RoutingTheorems.ReviewStaysEffective` | apps/api/src/modules/ai/effective-classification.service.ts:34-80 | once a human determination is effective it stays the effective kind in every continuation |
| `RoutingTheorems.NewestReview` | apps/api/src/modules/ai/effective-classification.service.ts:34-58 | the review chosen is one of the message's and none is newer by time and id |
| `RoutingOutcomes.EffectiveIsNewest` | apps/api/src/modules/ai/effective-classification.service.ts:34-80 | in every run the effective intent is that of a review than which none is newer, else that of the one classification, else there is none |
| `RoutingTheorems.OneClassificationOneDecision` | apps/api/src/modules/ai/ai-classification.service.ts:229-298 | at most one classification for a message, and exactly one decision for each classification |
| `RoutingTheorems.StatusMovesForward` | apps/api/src/modules/ai/ai-classification.service.ts:187-201 | PENDING, CLASSIFIED, HUMAN_REVIEW, RESOLVED: no run moves a message back |
| `RoutingTheorems.DefensiveBranchesUnreachable` | apps/api/src/modules/ai/ai-routing.service.ts:184-202 | FAILED/INVARIANT_VIOLATION and SKIPPED_CLASSIFICATION_SUPERSEDED never occur, in a row or in a worker |
| `RoutingTheorems.CompletedExactlyWhenFinished` | apps/api/prisma/schema.prisma:1192-1227 | completedAt and the result code are set exactly on finished decisions |
| `RoutingTheorems.NoLeaseNoWrite` | apps/api/src/modules/ai/ai-routing.service.ts:237-283 | without the lease a routing step leaves every table as it was, although the check comes after the writes |
| `RoutingTheorems.StepLeases` | apps/api/src/modules/ai/ai-routing.service.ts:144-161 | a decision's token never goes back, and every takeover takes a strictly later one |
| `RoutingTheorems.SupersededCommitsNothing` | apps/api/src/modules/ai/ai-routing.service.ts:317-431 | a routing worker whose token was superseded commits nothing in any continuation |
| `RoutingTheorems.FinishedStays` | apps/api/src/modules/ai/ai-routing.service.ts:425-431 | a finished decision is never rewritten |
| `RoutingReasons.LabelsHaveCauses` | apps/api/src/modules/ai/ai-routing.service.ts:166-306 | in every run a label was written by a worker that had seen its cause: ACCEPTED read for SKIPPED_ALREADY_ACCEPTED, no link or no case for SKIPPED_NO_RENEWAL_CASE, a status neither ACCEPTED nor leading there, or a case moved since it was read, for SKIPPED_CONCURRENT_BUSINESS_DECISION, no review and the case still as read for AUTO_ACCEPTED, a HUMAN_REVIEW action for ROUTED_TO_HUMAN_REVIEW |
| `RoutingReasons.WorkersActOnWhatTheySaw` | apps/api/src/modules/ai/ai-routing.service.ts:166-306 | in every run what a routing worker is about to do follows from what it has read |
| `RoutingReasons.FinishedEndsWell` | apps/api/src/modules/ai/ai-routing.service.ts:310-431 | in every run a finished decision has the status of its label, and unless the label is AUTO_ACCEPTED or SKIPPED_ALREADY_ACCEPTED its message is HUMAN_REVIEW or RESOLVED |
| `RoutingOutcomes.OnlyAcceptanceMovesTheCase` | apps/api/src/modules/ai/ai-routing.service.ts:237-283 | a routing step changes the case only by an acceptance, from the status its worker read to ACCEPTED, with one audit entry |
| `RoutingOutcomes.ResolvedThreadsStay` | apps/api/src/modules/ai/ai-routing.service.ts:362-385 | no classifier or routing step reopens a resolved thread; a step that moves the message takes it from CLASSIFIED to HUMAN_REVIEW and an unresolved thread with it |
| `RoutingOutcomes.AuditFollowsTheStep` | apps/api/src/modules/ai/ai-routing.service.ts:318-423 | a routing step leaves an audit entry exactly when it moves the message, routes or accepts, one entry for its own decision |
| `RoutingOutcomes.ClaimedExactlyWhenPendingOrStale` | apps/api/src/modules/ai/ai-routing.service.ts:144-161 | in every run a worker gets the lease at `now` exactly when the decision is PENDING, or PROCESSING under a token older than `now` minus 120,000 ms; otherwise nothing changes |
| `RoutingOutcomes.PausedExactlyWhenSwitchedOff` | apps/api/src/modules/ai/ai-routing.service.ts:116-136 | a worker pauses exactly for an AUTO_ACCEPT decision while the switch is off, and changes nothing |
| `RoutingTheorems.OneGatewayCall` | apps/api/src/modules/ai/ai-classification.service.ts:61-136 | in every run an attempt calls the gateway at most once, exactly when it is past its call |
| `RoutingAttempts.EndsExactlyForItsCause` | apps/api/src/modules/ai/ai-classification.service.ts:61-183 | in every run an attempt has ended with an outcome exactly when some action of its met the cause; it is rethrown exactly when the gateway answered with a transient or unknown failure and it was not the last |
| `RoutingAttempts.HandsOverExactlyWhenGivenUp` | apps/api/src/modules/ai/ai-classification.service.ts:151-183 | in every run an attempt hands its message over exactly when the answer was a permanent failure or unreadable, or a transient or unknown failure on the last attempt |
| `RoutingAttempts.HandOverWritesOnlyThen` | apps/api/src/modules/ai/ai-classification.service.ts:187-201 | a hand-over writes only for such an attempt and only a PENDING inbound message, which becomes HUMAN_REVIEW with one audit entry |
| `RoutingTheorems.QuietNeverWrote` | apps/api/src/modules/ai/ai-classification.service.ts:151-201 | in every run a skipped, rethrown or lost attempt and an unclaimed or paused routing changed no row |
| `RoutingSafety.StepInv` | apps/api/src/modules/ai/ai-routing.service.ts:116-431 | every action of classifiers, routers, reviewers and other writers keeps the invariant and moves the rows forwards |
| `RoutingService.AiServices.AcceptTransaction` | apps/api/src/modules/ai/ai-routing.service.ts:237-283 | message touch, case transition, audit and decision together, or the old rows after an abort |
| `RoutingService.AiServices.HumanTransaction` | apps/api/src/modules/ai/ai-routing.service.ts:310-358 | message, thread, decision and audit together, or the old rows when the lease is lost |
| `RoutingService.AiServices.FallbackTransaction` | apps/api/src/modules/ai/ai-routing.service.ts:389-423 | the skip with its reason and the hand-over to a human together, or nothing without the lease |
| `RoutingService.AiServices.FinalizeDecisionOnly` | apps/api/src/modules/ai/ai-routing.service.ts:425-431 | finishes the decision for the holder of its lease and touches nothing else |
| `RoutingService.AiServices.Claim` | apps/api/src/modules/ai/ai-routing.service.ts:144-161 | leases the decision and counts the attempt exactly when it is pending or its lease is older than 120,000 ms, else changes nothing |
| `RoutingService.AiServices.ProcessOne` | apps/api/src/modules/ai/ai-routing.service.ts:116-136 | with others at every await: `succeeded` and `skipped` finished the decision under the lease, `skipped` exactly when the lease was still held; every other outcome's last step changed no row, and a paused or unclaimed call none at all; a finished decision has the status of its label, a worker had seen the label's cause, and the message has gone to a human unless the case was accepted |
| `RoutingWitnesses.SkippedWithoutLease` | apps/api/src/modules/ai/ai-routing.service.ts:184-227 | a run in which a worker without its lease returns `skipped` while the decision is PROCESSING |
| `RoutingService.AiServices.PersistTransaction` | apps/api/src/modules/ai/ai-classification.service.ts:210-301 | classification, decision, status and audit together under the PENDING guard, or nothing |
| `RoutingService.AiServices.CreateReview` | apps/api/src/modules/ai/classification-review.service.ts:30-97 | always RESOLVED, one more review and its audit entry and nothing else, or not found and nothing changed |
| `RoutingService.AiServices.ClassifyMessage` | apps/api/src/modules/ai/ai-classification.service.ts:61-183 | one attempt calls the gateway once or, when skipped, never; it is rethrown exactly after a transient or unknown failure when it is not the last, and hands over exactly after any other failure; a skipped, rethrown or lost attempt has changed no row, whatever ran beside it; it raises exactly when it went to store its result for a case that was gone with the message PENDING, and the message is PENDING after it exactly then, or when the attempt was rethrown or found AI disabled and the message was PENDING |
| `RoutingService.AiServices.RunJob` | apps/api/src/modules/ai/ai.worker.ts:39-44 | a job stops within its budget and its attempts together call the gateway at most once each; it goes on to the next attempt exactly when attempts are left and the last one called the gateway and heard of a transient or unknown failure, or was stuck; the message is PENDING at its end exactly when the ending attempt went to store its result for a case that was gone with the message PENDING, or found AI disabled and the message PENDING |
| `RoutingTheorems.FailsExactlyWhenStuck` | apps/api/src/modules/ai/ai-classification.service.ts:229-298 | in every run an attempt has ended with its transaction failed exactly when it came to store its result for a message loaded with a case and found the case gone and the message PENDING |
| `RoutingWitnesses.DeletedCaseLeavesPending` | apps/api/src/modules/ai/ai-classification.service.ts:210-301 | a run whose case is closed and deleted before a last attempt stores its answer, and whose message stays PENDING |
| `RoutingWitnesses.DeletedCaseMayBeHandedOver` | apps/api/src/modules/ai/ai-classification.service.ts:151-201 | the same deletion with a malformed answer: the message goes to a human |
| `CivilDates.CivilRoundTrip` | packages/shared/src/index.ts:36-47 | the day number of a civil date has that month and day |
| `CivilDates.GregorianMonths` | packages/shared/src/index.ts:36-47 | the calendar has the Gregorian month lengths in every year and counts from 1 January 1970 |
| `CivilDates.DayRoundTrip` | packages/shared/src/index.ts:36-47 | the civil date of a day number has that day number, by MakeDay too |
| `CivilDates.CivilOrder` | packages/shared/src/index.ts:36-47 | days compare as their civil dates |
| `CalendarMonths.MovesExactly` | packages/shared/src/index.ts:36-47 | the month index moves by the given amount exactly outside the years 0 to 99, and the day is kept or becomes the month's last |
| `CalendarMonths.MonotoneInDate` | packages/shared/src/index.ts:36-47 | monotone in the date, exactly unless an earlier date of the years 0 to 99 is moved past a later one |
| `CalendarMonths.StrictInMonths` | packages/shared/src/index.ts:36-47 | strictly monotone in the months, for every date |
| `CalendarMonths.AddInTwoSteps` | packages/shared/src/index.ts:36-47 | two steps are never later than one exactly when the middle date is outside the years 0 to 99, and then equal exactly when the middle month does not clamp harder than the last |
| `CalendarMonths.ThereAndBack` | packages/shared/src/index.ts:36-47 | there and back is at most three days before the day of the start and never after, exactly when both dates are outside the years 0 to 99, and then that day exactly when its date exists in between |
| `CalendarMonths.EarlyYearMoves` | packages/shared/src/index.ts:36-47 | a date of the year 50 is moved to 1950 |
| `DateKeys.KeyParses` | apps/api/src/time/business-time.service.ts:26-32 | every printed date key parses back to midnight of its day |
| `DateKeys.ImpossibleDayRollsOver` | apps/api/src/modules/legacy-import/legacy-workbook.parser.ts:641-642 | a day its month does not have rolls over to the next month |
| `DateKeys.KeyOrder` | apps/api/src/modules/legacy-import/legacy-workbook.parser.ts:630 | date keys compare as strings the way their days compare |
| `JsDates.AddBusinessDays` | apps/api/src/time/business-time.service.ts:26-38 | the mutated date is the parsed business date plus that many days, for every count |
| `JsDates.DaysUntilIsDifference` | apps/api/src/time/business-time.service.ts:14-46 | the difference taken through print, slice and parse of both keys is the difference of the day numbers |
| `JsDates.BusinessDaysRoundTrip` | apps/api/src/time/business-time.service.ts:26-46 | daysUntil of addBusinessDays n is n, for every instant and every n in range |
| `JsDates.InclusiveTermStart` | apps/api/src/modules/legacy-import/legacy-workbook.parser.ts:641-649 | the date mutated in place prints as the term start, which is addCalendarMonths of the end plus one day outside the years 0 to 99; an unreadable end raises |
| `JsDates.TermForm` | apps/api/src/modules/legacy-import/legacy-workbook.parser.ts:641-649 | the importer's start is the day after the end day, or after the last one taken for the month's, in the month reached, for every midnight and m |
| `JsDates.TermStartIsAddition` | apps/api/src/modules/legacy-import/legacy-workbook.parser.ts:641-649 | the importer's start equals addCalendarMonths(end, -m) plus one day exactly when the end is outside the years 0 to 99 and the month reached is not the February of the year 0 for one of the days 29 to 31 |
| `JsDates.TermAddsBack` | apps/api/src/modules/legacy-import/legacy-workbook.parser.ts:641-649 | adding the months back gives the end plus one day exactly when the start is outside the years 0 to 99 and the end day has a successor in both months or in neither |
| `JsDates.EarlyTermAddsBack` | apps/api/src/modules/legacy-import/legacy-workbook.parser.ts:641-649 | for end days up to 27 it does exactly when the start is outside the years 0 to 99 |
| `JsDates.ValidateSourceDates` | apps/api/src/modules/legacy-import/legacy-workbook.parser.ts:616-639 | a missing start and a missing end are named and end the matter; for four-digit-year keys of days a and b the only issue is that a is not before b, or else, exactly when the row has an interval and a is not the start of the term that ends on b, the mismatch; for any other strings exactly what the comparison and the parse say |
| `JsDates.IssuesMean` | apps/api/src/modules/legacy-import/legacy-workbook.parser.ts:616-639 | for days with four-digit years the string tests behind the issues are comparisons of days and of the term start of the interval, whatever year that falls in |
| `CanonicalJsonText.PrintInjective` | apps/api/src/modules/legacy-import/legacy-workbook.parser.ts:778-787 | a printed value and what follows it are determined by their text |
| `CanonicalJson.QuotedInjective` | apps/api/src/modules/legacy-import/legacy-workbook.parser.ts:783 | a quoted string, all escapes included, and what follows it are determined by their text |
| `CanonicalJson.QuotedReadsBack` | apps/api/src/modules/legacy-import/legacy-workbook.parser.ts:783 | a reader of RFC 8259 strings gives a quoted string and what follows it back |
| `CanonicalJson.EscapesOnlyWhatItMust` | apps/api/src/modules/legacy-import/legacy-workbook.parser.ts:783 | escaped are exactly quotation mark, backslash, control characters and lone surrogates, in the short form where there is one |
| `CanonicalJsonText.PrintReadsBack` | apps/api/src/modules/legacy-import/legacy-workbook.parser.ts:778-787 | a reader of RFC 8259 values gives a printed value and what follows it back |
| `CanonicalJsonTheorems.TextReadsBackSorted` | apps/api/src/modules/legacy-import/legacy-workbook.parser.ts:778-787 | the text is JSON that reads back to its end as the same value up to entry order, with the keys of every object at every depth in ascending order |
| `CanonicalJson.StringifyPrintsCanonical` | apps/api/src/modules/legacy-import/legacy-workbook.parser.ts:778-787 | the text is the plain print of the value sorted at every depth |
| `CanonicalJsonTheorems.SortIsStable` | apps/api/src/modules/legacy-import/legacy-workbook.parser.ts:782 | entries that collate as equal keep their order |
| `CanonicalJsonTheorems.TextDeterminesValue` | apps/api/src/modules/legacy-import/legacy-workbook.parser.ts:778-787 | equal texts come from values equal up to entry order, for any collation |
| `CanonicalJsonTheorems.SameTextSameValue` | apps/api/src/modules/legacy-import/legacy-workbook.parser.ts:778-787 | without collation ties texts are equal exactly when values are equal up to entry order at every depth |
| `CanonicalJsonTheorems.OrderIrrelevantExactlyWhenNoTies` | apps/api/src/modules/legacy-import/legacy-workbook.parser.ts:780-785 | the text is the same for every entry order exactly when no object has two keys that collate as equal |
| `CanonicalJsonTheorems.TiedKeysGiveTwoTexts` | apps/api/src/modules/legacy-import/legacy-workbook.parser.ts:782 | two different keys that collate as equal give one value two texts |
| `CanonicalJsonTheorems.TotalOrderNeverTies` | apps/api/src/modules/legacy-import/legacy-workbook.parser.ts:782 | a collation that is a total order has no ties in any value |
| `ImapIdentity.CanonicalTwice` | apps/api/src/modules/mail/imap-identity.util.ts:15-17 | folder canonicalisation is idempotent |
| `ImapIdentity.SameFolder` | apps/api/src/modules/mail/imap-identity.util.ts:15-17 | two folders become one exactly when equal or both INBOX |
| `ImapIdentity.InboxBeyondAscii` | apps/api/src/modules/mail/imap-identity.util.ts:15-17 | the names taken for INBOX are those of RFC 3501 and those with a dotless i, no others |
| `ImapIdentity.DotlessInbox` | apps/api/src/modules/mail/imap-identity.util.ts:15-17 | a concrete name that is taken for INBOX against the documented rule |
| `ImapIdentity.ComponentRoundTrip` | apps/api/src/modules/mail/imap-identity.util.ts:26-28 | decoding an encoded component followed by anything gives both back |
| `ImapIdentity.RoundTrip` | apps/api/src/modules/mail/imap-identity.util.ts:38-45 | decoding four encoded components followed by anything gives all back, over all byte strings |
| `ImapIdentity.PrefixFree` | apps/api/src/modules/mail/imap-identity.util.ts:38-45 | no encoding of four components continues another |
| `ImapIdentity.HashedBytesAreNetstrings` | apps/api/src/modules/mail/imap-identity.util.ts:26-28 | the UTF-8 bytes of the encoding are the four components with their own byte lengths |
| `ImapIdentity.SameBytesSameIdentity` | apps/api/src/modules/mail/imap-identity.util.ts:52-55 | the digested bytes are equal exactly when the tuples read as the same Unicode text and numbers |
| `ImapIdentity.WellFormedTuplesNeverCollide` | apps/api/src/modules/mail/imap-identity.util.ts:38-55 | for well-formed text the digested bytes determine the tuple |
| `ImapIdentity.LoneSurrogateCollides` | apps/api/src/modules/mail/imap-identity.util.ts:52-55 | two different tuples with a lone surrogate have the same digested bytes |
| `ImapIdentity.SameMessageSameBytes` | apps/api/src/modules/mail/mail-inbound-ingest.service.ts:374-379 | two ingested messages digest the same bytes exactly when mailbox, numbers and canonical folder agree |
| `ImapIdentity.EncodingDeterminesTuple` | apps/api/src/modules/mail/imap-identity.util.ts:38-45 | the encoding as text determines the tuple for all text, lone surrogates included |
| `Utf8.SameBytes` | apps/api/src/modules/mail/imap-identity.util.ts:26-28 | two texts have the same UTF-8 bytes exactly when they read as the same scalar values |
| `Utf8.WellFormedInjective` | apps/api/src/modules/mail/imap-identity.util.ts:26-28 | well-formed text is determined by its scalar values |
| `Utf8.ScalarReadsBack` | apps/api/src/modules/mail/imap-identity.util.ts:26-28 | a UTF-8 reader gives each encoded scalar value and what follows it back |
| `Utf8.PairsSpellScalars` | apps/api/src/modules/mail/imap-identity.util.ts:26-28 | a surrogate pair spells its scalar value by the rule of UTF-16 |
| `ReplySubject.StripsLongest` | apps/api/src/modules/communications/reply-threading.util.ts:18-22 | stripping leaves no more than any other run of reply prefixes would |
| `ReplySubject.StrippedIsLanguage` | apps/api/src/modules/communications/reply-threading.util.ts:18-22 | what is stripped is a run of reply prefixes and what is left starts with none |
| `ReplySubject.ReplyOfReply` | apps/api/src/modules/communications/reply-threading.util.ts:18-22 | N("Re: " + s) = N(s) |
| `ReplySubject.BoundedAndSinglePrefix` | apps/api/src/modules/communications/reply-threading.util.ts:18-22 | at most 500 code units, and no reply prefix after the first |
| `ReplySubject.NormalizedKeepsTheText` | apps/api/src/modules/communications/reply-threading.util.ts:18-22 | behind a run of reply prefixes and white space lies the kept text, which has neither at its ends; N is "Re: " and its first 496 code units, or "Re:" when nothing is kept |
| `ReplySubject.FixedUnlessCutAfterSpace` | apps/api/src/modules/communications/reply-threading.util.ts:18-22 | N(N(s)) differs from N(s) exactly when s, stripped and trimmed, is longer than 496 code units and its 496th is white space |
| `ReplySubject.ThirdTimeIsSecond` | apps/api/src/modules/communications/reply-threading.util.ts:18-22 | N(N(N(s))) = N(N(s)) for every subject |
| `ReplySubject.CutAfterSpaceOccurs` | apps/api/src/modules/communications/reply-threading.util.ts:18-22 | a concrete subject on which a second normalization changes the result |
| `NameLanguage.TrySplitMixedName` | apps/api/src/modules/legacy-import/name-language.util.ts:46-78 | the loop finds the first and last Arabic characters and splits around them |
| `NameLanguage.SplitShape` | apps/api/src/modules/legacy-import/name-language.util.ts:46-78 | the Arabic name is exactly the first-to-last Arabic span; only separators at its ends are dropped from the other side |
| `NameLanguage.SplitLosesNoLetters` | apps/api/src/modules/legacy-import/name-language.util.ts:46-78 | every letter of either script is kept in order and neither field has the other script |
| `NameLanguage.SplitExactlyWhen` | apps/api/src/modules/legacy-import/name-language.util.ts:61-77 | a value is split exactly when one side is blank, the other has Latin letters and the span has none |
| `NameLanguage.WholeOrSplit` | apps/api/src/modules/legacy-import/name-language.util.ts:21-36 | any cell gives nothing, both names of a split, or its whole trimmed value in exactly one field |

## Left out

- One outbox row, and one message with its case, is modelled at a time: every guard of the source is on one row's id, and what
  workers on other rows do to a shared case, thread or customer enters as arbitrary actions.
- The batch loops with their summary counters, the queue transport and the schedules: one-branch facts.
- That each `$transaction` is one atomic step is an assumption. MariaDB's repeatable read does not promise it: a plain read
  inside a transaction sees the snapshot taken at the first one, so a re-read such as that of
  `tryRouteEmailAndThreadToHumanReview` can miss what another transaction has committed since.
- Exactly-once sending is not claimed: the service documents at-least-once, and `OutboxCrashes` shows that it is no more.
- The kill switch is read before the work it guards, so nothing is claimed about acceptances after it is switched off.
- SMTP, IMAP and model adapters are arbitrary outcomes; mailbox configuration, customer lookup and SMTP error
  classification are arbitrary values.
- The renewal transition table beyond the statuses from which ACCEPTED is legal, and the audit and health events
  beyond the acceptance, review, classification and routing entries, whose metadata is not modelled.
- The rounding of the stored confidence, and the classification status FAILED, which nothing writes.
- A routing decision whose case is deleted while a worker runs may raise; the next lease takes it over.
- `deriveReplyThreadingHeaders`, message ids and the REPLY_QUEUED audit entry: no property spans them.
- The digest itself (SHA-256), encryption and spreadsheet reading; the models stop at the bytes that are hashed.
- JsDates.BusinessDaysRoundTrip: for business dates of the years 1000 to 9999, whose key has four digits; other keys do not
  parse and give an invalid date.
- Database errors other than the constraint violations, deadlocks and lost acknowledgements modelled.
- The time zone: the business date is an arbitrary function of the instant, given as its date key.
- Dates outside the range of JavaScript's time values, and date strings not of the form YYYY-MM-DD. A day that its month
  does not have is read as the V8 engine reads it, by rolling over; the language leaves it to the engine.
- Actor ids are those of signed-in users and compared as identities; stored text is the text given.
- In `CanonicalJson`, numbers are the texts JavaScript prints for them, so negative zero is zero, and undefined, NaN and
  the infinities print as null; objects without own entries, such as a `Date`, are empty objects.
- `localeCompare` is any total preorder on keys. The entry orders quantified over include ones no JavaScript object has, as
  keys that are array indices always come first there; row labels, which begin with the letters of
  the column, are never such keys.
- `toUpperCase` is modelled as far as INBOX needs it: the code units whose upper case is one of its letters are the letter's
  two cases and, for I, the dotless i.
