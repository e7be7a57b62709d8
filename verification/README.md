# Verified model of the local agent, media and metrics runtime

This project models the leased, fenced and idempotent queues of the runtime, the workers that drive
them, and the smaller components with a law of their own, and proves what they guarantee over every
run. `dafny verify dfyconfig.toml` checks all of it.

| component | modules |
|---|---|
| Agent task queue: entities, transitions as functions, invariant, runs | TaskModel, ProposalKey, TaskSpec, TaskTimeline, TaskInvariant, TaskRuns |
| What each of its calls does, column by column, and when | TaskEffects, TaskProposals, TaskOutcomes |
| Its guarantees: fencing, completion, budget, isolation, SQL twin | TaskTheorems, TaskBudget, TaskIsolation, TaskSql, TaskSqlExample, TaskSqlCompletion, NoFactsExample |
| The in-memory repository and the worker, updated in place | TaskRepository, AgentWorker, AgentRunner, InvocationLog |
| Materialization outbox and its delivery protocol | Materializer, ProposalBundle, TaskBundles, TaskBundleExample, Outbox, OutboxEffects, OutboxTable, MaterializationProtocol, MaterializationTheorems, BlockedSiteExample |
| Media queue, pipeline and worker | MediaQueue, MediaEffects, MediaRepository, MediaPipeline, MediaWorker, MediaOutcomes, MediaRunner |
| Governed metrics: project, promote, append, query | MetricModel, MetricProjector, MetricGate, MetricStore, MetricLookup, MetricEffects, MetricService, MetricPipeline |
| Paging, polling, transcripts, payloads | DraftCursor, DraftPaging, Polling, Transcript, PayloadCodec |

Conventions. A datetime is an integer number of microseconds and no clock is assumed to be monotone.
A Decimal is an exact real. A SHA-256 digest is the document it hashes, or an injective function given
as a parameter. One database transaction is one atomic step. A source exception is an error value. A
class method is proved to make exactly the transition of its specification function, and the whole-run
theorems are about those functions. The modules named after effects and outcomes say what those functions
do in the terms of stored columns and plain comparisons alone, which pins down the definitions that the other modules
share. Iterating a dictionary takes its keys in an arbitrary order.

What the proofs turned up, each with its exact condition:

- For a non-empty site the claims for execution of the two task repositories leave different tables exactly
  when the next payload does not parse and some lease of the site is exhausted: the database rolls the reap back,
  the in-memory repository keeps it (`ClaimsForExecutionAgreeIff`, reachable instance `ClaimsForExecutionDisagree`).
  An empty site is refused by the database only (`ClaimsAgree`).
- The two completions agree exactly when the result has fact references or the in-memory completion writes
  nothing: a result without any is completed in memory and refused by a CHECK of the database
  (`CompletionsAgreeIff`, reachable instance `CompletionsDisagree`).
- The in-memory and PostgreSQL metric checkpoints agree after an append exactly when the new batch is
  newer than everything stored for its site and mode, although the in-memory store is documented as having
  the same semantics (`CheckpointsAgreeIff`, `OutOfOrderExample`).
- The draft service refuses a cursor it issued exactly when the proposal id is empty or the cursor document
  exceeds 1536 bytes; neither is excluded when a proposal is stored (`CursorRoundTripIff`, `LongIdExample`).
- A completion whose invocations ran on different models, whose policy version is not a text or whose
  proposal id is empty or longer than 256 characters is accepted, but its outbox row can never be claimed, and
  while it is due and first in its site no other row of the site can be claimed either. `ReadableIffDeliverable`
  says exactly which completions, `ClaimRollsBackIff` exactly which claims, `MixedModelsAreAcceptedButUnreadable`
  and `MixedModelsBlockTheSite` give a reachable instance, and `UnreadableHeadBlocksSite` covers every run.
- Once the server has written a draft, an attempt that shapes another intent can never be acknowledged
  (`ReceiptedIff`, `OtherIntentsNeverDeliver`), and a first answer that does not match its request can never be
  repaired (`BadFirstAnswerNeverDelivers`).

The transition trigger would refuse a heartbeat that extends a lease at a clock reading before the row's last
update (`HeartbeatRefusedIff`). No worker produces one, because it renews with the duration it claimed with
(`TriggerNeverRefusesHeartbeat`).

## Model

| member | source | states |
|---|---|---|
| `TaskModel.BeforeIsTotalOrder` | services/agent_runtime/repository.py:252-260 | the claim's selection key (priority, due, created, task id) orders tasks totally and ties only on the task id |
| `Ordering.StrLeIs` | services/agent_runtime/repository.py:252-260 | ids are in order iff one is a prefix of the other or smaller at their first difference |
| `TaskEffects.ClaimEffect` | services/agent_runtime/repository.py:206-277 | a claim hands out an open task g of the site such that every other open task has a lower priority, or the same and is due later, or was created later, or has the greater id; g is leased at its next attempt with one event, exhausted leases of the site are dead-lettered with all their traces, no other task, log or dead letter changes; no task is returned iff none is open |
| `TaskEffects.ClaimForExecutionEffect` | services/agent_runtime/repository.py:279-333 | the same task, started, with its payload; an error only when that task's payload does not parse |
| `TaskEffects.EnqueueEffect` | services/agent_runtime/repository.py:136-204 | a used idempotency key replays the same submission and refuses another; otherwise the parent must exist and the id be new, and a queued task, its payload and one event are stored |
| `TaskEffects.StartEffect` | services/agent_runtime/repository.py:335-364 | iff the worker holds the live lease of a leased task, the task runs, with one event; otherwise nothing changes and the error says why |
| `TaskEffects.HeartbeatEffect` | services/agent_runtime/repository.py:366-393 | iff the worker holds the live lease, it ends the duration after now; nothing else changes |
| `TaskEffects.SucceedEffect` | services/agent_runtime/repository.py:395-432 | iff the outputs are distinct and the worker holds the live lease, the task succeeds with them, with one event |
| `TaskEffects.FailEffect` | services/agent_runtime/repository.py:434-482 | under the live lease a task with attempts left waits for exactly the retry time with its classification, one without is dead-lettered with all its traces; otherwise nothing changes |
| `TaskOutcomes.WaitsUntilDue` | services/agent_runtime/repository.py:242-251 | over any run of calls a queued or rechecked task stays exactly as it is until a claim of its site reads a clock at or after its due time |
| `TaskOutcomes.FailedTaskWaits` | services/agent_runtime/repository.py:434-482 | a task that failed with attempts left keeps its retry time, classification and attempt in every continuation whose claims come before that time |
| `TaskProposals.MadeIffAcceptable` | services/agent_runtime/proposals.py:150-227 | a proposal is made iff the document is of the task's site and subject, proposed, digested as it is, of an allowed action and with distinct evidence; its id, action, revision, evidence, facts and creation time are the document's, its subject the task's, its invocation ids the result's |
| `TaskProposals.CompleteEffect` | services/agent_runtime/repository.py:484-573 | a completion that changes anything held the live lease, stored exactly that proposal, a pending outbox row with 0 of 5 attempts, the invocations and the succeeded task, and changed nothing else; a rejection changes nothing |
| `TaskOutcomes.CompletesIff` | services/agent_runtime/repository.py:484-573 | a completion is accepted iff its document is acceptable and either its attempt has the same proposal already, or the worker runs the task under a live lease, every invocation belongs to the task and is stored or shares no id and no key with another, and no proposal of the site has the id |
| `TaskProposals.ProposalsRecordTheirDocuments` | services/agent_runtime/proposals.py:150-299 | in every reachable state each stored proposal records its own document for its task, and its outbox row is the pending AI draft of it |
| `ProposalKey.KeyTextIsInjective` | services/agent_runtime/proposals.py:210 | the proposal idempotency key's text determines task id, colons included, and attempt, so that table is keyed by the pair |
| `TaskTimeline.LegalLogIsBounded` | services/agent_runtime/repository.py:616-639 | the attempt a legal timeline folds to is its number of leased events, and each attempt accounts for at most three events |
| `TaskTimeline.TerminalEventIsLast` | services/agent_runtime/repository.py:395-482 | in a legal timeline a succeeded or dead-lettered event is the last one |
| `TaskInvariant.EnqueueKeepsInv` | services/agent_runtime/repository.py:136-204 | enqueue keeps the coupled invariant of all ten tables, parents included |
| `TaskInvariant.CandidatesHaveAttemptsLeft` | services/agent_runtime/repository.py:662-699 | after a reap every candidate is untouched by it and still has an attempt left, though the filter does not ask |
| `TaskInvariant.ClaimKeepsInv` | services/agent_runtime/repository.py:206-333 | both claims keep the invariant |
| `TaskInvariant.FailKeepsInv` | services/agent_runtime/repository.py:434-482 | fail keeps the invariant on the recheck and the dead-letter branch |
| `TaskInvariant.CompleteKeepsInv` | services/agent_runtime/repository.py:484-573 | completion keeps the invariant |
| `TaskRuns.RunKeepsInv` | services/agent_runtime/repository.py:136-573 | the invariant holds after every sequence of calls, with any clock readings |
| `TaskRuns.TimelineIsFaithful` | services/agent_runtime/repository.py:612-639 | in every reachable state folding a task's timeline gives its status, attempt and lease owner; sequences are 0..n-1; a terminal event is last; the length is at most 1 + 3 * max_attempts |
| `TaskRuns.RunIsForward` | services/agent_runtime/repository.py:136-573 | over any run attempts never drop, timelines only grow, terminal tasks, proposals, outbox rows and invocations never change |
| `TaskTheorems.StaleCallChangesNothing` | services/agent_runtime/repository.py:641-660 | once attempt k is over, no call carrying an attempt at most k changes any table |
| `TaskTheorems.StaleCallsAreInvisible` | services/agent_runtime/repository.py:366-573 | all such calls can be deleted from a run without changing where it ends |
| `TaskTheorems.AtMostOneProposal` | services/agent_runtime/repository.py:729-744 | across all attempts and workers a task has at most one proposal and one outbox row |
| `TaskTheorems.DerivedTablesAgree` | services/agent_runtime/repository.py:757-792 | a task is dead-lettered iff it is in the dead-letter table, then with attempts = attempt = max_attempts and the same classification; the idempotency index holds exactly the current versions |
| `TaskTheorems.CompletionIsAllOrNothing` | services/agent_runtime/repository.py:484-573 | completion writes invocations, proposal, outbox row, task, index and timeline together or leaves the state equal to the pre-state |
| `TaskTheorems.ReplayFindsItsFence` | services/agent_runtime/repository.py:503-520 | a stored proposal with the same bundle always has its completed task, so the branch that reports the contrary is unreachable |
| `TaskTheorems.CompletionIsIdempotentForever` | services/agent_runtime/repository.py:484-573 | resubmitting an accepted result after any later run, by any worker at any time, returns the same task and changes nothing |
| `TaskBudget.CallConservesBudget` | services/agent_runtime/repository.py:206-333 | attempts left plus attempts granted equals attempts left before plus those a fresh submission brings |
| `TaskBudget.RunConservesBudget` | services/agent_runtime/repository.py:206-333 | over any run the books balance, so a fixed task set admits at most the sum of its remaining attempts as claims |
| `TaskIsolation.CallStaysInSite` | services/agent_runtime/repository.py:136-573 | no call on one site changes anything keyed by another |
| `TaskIsolation.ParentPathsEnd` | services/agent_runtime/repository.py:152-161 | following parents visits each task at most once, stays in one site and ends |
| `TaskSql.ClaimsAgree` | services/agent_runtime/postgres.py:156-223 | on every reachable state the in-memory claim makes exactly the transition of the SQL claim with its attempt filter, MAX + 1 sequences and insert-or-nothing dead letters, and replies alike, iff the site is not empty or both refuse the arguments |
| `TaskSql.NoTaskIffNoneEligible` | services/agent_runtime/postgres.py:169-223 | no task is returned exactly when no task of the site is eligible with an attempt left |
| `TaskSql.ReapsAgree` | services/agent_runtime/postgres.py:1291-1351 | the SQL reap and the in-memory reap leave the same tables |
| `TaskSql.ClaimsForExecutionAgreeIff` | services/agent_runtime/postgres.py:225-306 | for all arguments, exactly when the claims for execution reply alike and exactly when they leave the same tables; for a non-empty site: always, and iff the next payload parses or nothing is exhausted |
| `TaskSqlExample.ClaimsForExecutionDisagree` | services/agent_runtime/repository.py:279-333 | a reachable state on which the two claims for execution leave different tables |
| `TaskSqlCompletion.CompletionsAgreeIff` | services/agent_runtime/postgres.py:544-700 | on every reachable state both completions return the same task or both raise, and leave the same tables, iff the result has fact references or the in-memory completion writes nothing; a raising SQL completion changes nothing |
| `TaskSqlCompletion.ReplaysAgree` | services/agent_runtime/postgres.py:1225-1285 | on a succeeded task the in-memory replay is accepted iff SQL's replay check passes |
| `NoFactsExample.CompletionsDisagree` | services/agent_runtime/migrations/003_local_pilot_agent_worker.sql:41 | a reachable state and a result without fact references that only the in-memory completion accepts |
| `TaskRepository.AgentTaskRepository.constructor` | services/agent_runtime/repository.py:123-134 | the empty repository satisfies the invariant |
| `TaskRepository.AgentTaskRepository.Enqueue` | services/agent_runtime/repository.py:136-204 | the dictionaries change exactly as the enqueue function says |
| `TaskRepository.AgentTaskRepository.ReapExpired` | services/agent_runtime/repository.py:682-699 | the loop, one dead letter at a time and in any order, is the all-at-once reap |
| `TaskRepository.AgentTaskRepository.First` | services/agent_runtime/repository.py:252-260 | the minimum over the candidates is the one least task |
| `TaskRepository.AgentTaskRepository.Claim` | services/agent_runtime/repository.py:206-277 | reap, select, store and log make exactly the claim transition |
| `TaskRepository.AgentTaskRepository.ClaimForExecution` | services/agent_runtime/repository.py:279-333 | the same with the payload check and the running event |
| `TaskRepository.AgentTaskRepository.Start` | services/agent_runtime/repository.py:335-364 | exactly the start transition |
| `TaskRepository.AgentTaskRepository.Heartbeat` | services/agent_runtime/repository.py:366-393 | exactly the heartbeat transition |
| `TaskRepository.AgentTaskRepository.Succeed` | services/agent_runtime/repository.py:395-432 | exactly the success transition |
| `TaskRepository.AgentTaskRepository.Fail` | services/agent_runtime/repository.py:434-482 | exactly the failure transition |
| `TaskRepository.AgentTaskRepository.WriteOrRollBack` | services/agent_runtime/repository.py:530-573 | a failed part of the bundle restores every dictionary |
| `TaskRepository.AgentTaskRepository.CompleteWithProposal` | services/agent_runtime/repository.py:484-573 | exactly the completion transition, replay included |
| `AgentWorker.ReportIsTrue` | services/agent_runtime/worker.py:177-270 | whatever happened since the claim and between a refused completion and the failure that follows, the worker's report is true of the queue, and a lost lease means its end wrote nothing |
| `AgentWorker.FailureIsClassified` | services/agent_runtime/worker.py:295-306 | the failure a failed run stores, exception by exception |
| `AgentWorker.LateWorkersCannotClaimCredit` | services/agent_runtime/worker.py:229-270 | once its attempt is over a worker writes nothing, at the completion or at the later failure, and can report success only for the result already stored |
| `AgentWorker.ReportedSuccessStands` | services/agent_runtime/worker.py:177-270 | claim, any calls of anyone, completion, any later calls: a reported success is stored for good |
| `AgentRunner.Runner.FinishRun` | services/agent_runtime/worker.py:187-270 | the run's end on the repository object is exactly the modelled one |
| `InvocationLog.AppendAllKeepsMirror` | services/agent_runtime/invocations.py:365-379 | the two indexes mirror each other and nothing recorded is lost or changed |
| `InvocationLog.BundleIsIdempotentForever` | services/agent_runtime/invocations.py:361-418 | a bundle recorded once is found under both keys and replays without effect after any later bundles |
| `InvocationLog.InvocationRepository.AppendOne` | services/agent_runtime/invocations.py:365-379 | one append on both dictionaries, or none |
| `InvocationLog.InvocationRepository.RecordBundle` | services/agent_runtime/invocations.py:395-406 | a bundle is recorded whole or, on any exception, not at all |
| `Materializer.IntentsAreReversible` | services/agent_runtime/proposals.py:374-555 | every intent is an AI draft bound to its own proposal, or the submission of one for review; never an official metric |
| `Materializer.MaterializesIffMeant` | services/agent_runtime/proposals.py:374-555 | an envelope materializes to an intent iff it fits, and then every value of the intent is, by action: heading and summary the stripped texts of their own fields, team and reviewer those of the trusted context, evidence the stripped references in order, reference and submission names those of the subject and the payload's target |
| `Materializer.StripIs` | services/agent_runtime/proposals.py:558-564 | stripping removes exactly the longest whitespace at both ends |
| `Outbox.UpdatesAreLegal` | services/agent_runtime/proposals.py:254-273 | reap, claim, acknowledge and fail keep the record invariant and the identity columns and pass the transition trigger |
| `OutboxEffects.ClaimEffect` | services/agent_runtime/postgres.py:703-869 | a claim concerns the open row of the site that is due first, then created first, then has the smaller id: it is leased at its next attempt and read, exhausted rows are dead-lettered, no other row changes; or its bundle cannot be read and nothing changes; none is returned iff no row is open |
| `OutboxEffects.AcknowledgeEffect` | services/agent_runtime/postgres.py:871-951 | under the live lease the receipt is stored and the row succeeds; a succeeded row accepts only the same receipt; otherwise nothing changes and the error says why |
| `OutboxEffects.HeartbeatEffect` | services/agent_runtime/postgres.py:953-1014 | a live lease that would grow ends the duration after now; one that would not is left, and an update before the row's last is refused |
| `OutboxEffects.FailEffect` | services/agent_runtime/postgres.py:1016-1074 | under the live lease the row is retried at exactly the given time, or dead-lettered after its last attempt, with the error code |
| `OutboxEffects.WaitsUntilDue` | services/agent_runtime/postgres.py:735-755 | over any run of the protocol a pending or retried row stays exactly as it is until a claim of its site reads a clock at or after its due time |
| `OutboxEffects.FailedRowWaits` | services/agent_runtime/postgres.py:1016-1074 | a row that failed with attempts left keeps its attempt, retry time and error in every continuation whose claims come before that time |
| `Outbox.HeartbeatRefusedIff` | services/agent_runtime/migrations/006_local_pilot_materialization_heartbeat.sql:1-46 | the trigger refuses a live heartbeat iff it extends the lease at a clock before the row's last update |
| `Outbox.ClaimIsLegal` | services/agent_runtime/postgres.py:703-780 | a claim moves every row forward as the trigger allows, terminal rows not at all, and names the row's own proposal and next attempt |
| `ProposalBundle.ReadIffReadable` | services/agent_runtime/postgres.py:803-845 | reading the stored bundle succeeds iff every invocation row is there, all name one model, the policy version is a text if present and the ids fit |
| `ProposalBundle.EnvelopeIs` | services/agent_runtime/postgres.py:784-869 | what is read, column by column: the proposal's own ids, subject, revision, evidence and document, and the one model and version of its invocations |
| `TaskBundles.ReadableIffDeliverable` | services/agent_runtime/proposals.py:150-227 | in every reachable state no invocation row is missing, and the row of a completed attempt is readable iff its result used one model, a textual policy version and a fitting id |
| `TaskBundles.BundleTellsTheDocument` | services/agent_runtime/postgres.py:784-869 | over any run, what a claim reads for a completed attempt is the document that was completed, for its task |
| `TaskBundles.BundleIsFixed` | services/agent_runtime/postgres.py:784-845 | what a claim will read is fixed at completion; no later call changes it |
| `TaskBundleExample.MixedModelsAreAcceptedButUnreadable` | services/agent_runtime/repository.py:701-727 | a run whose completion with two models is accepted and leaves a pending row that cannot be read |
| `Outbox.ClaimRollsBackIff` | services/agent_runtime/postgres.py:719-869 | a claim raises and changes nothing iff a claimable row that sorts before every claimable row of the site has a bundle that is not readable |
| `Outbox.AcknowledgeIsLegal` | services/agent_runtime/postgres.py:871-951 | acknowledging keeps the invariant; terminal rows are absorbing |
| `Outbox.HeartbeatIsLegal` | services/agent_runtime/postgres.py:953-1014 | so does a heartbeat |
| `Outbox.FailIsLegal` | services/agent_runtime/postgres.py:1016-1074 | so does a failure |
| `OutboxTable.MaterializationOutbox.Claim` | services/agent_runtime/postgres.py:703-869 | the transaction on the table is exactly the claim transition, rollback included |
| `OutboxTable.MaterializationOutbox.Acknowledge` | services/agent_runtime/postgres.py:871-951 | exactly the acknowledge transition |
| `OutboxTable.MaterializationOutbox.Heartbeat` | services/agent_runtime/postgres.py:953-1014 | exactly the heartbeat transition |
| `OutboxTable.MaterializationOutbox.Fail` | services/agent_runtime/postgres.py:1016-1074 | exactly the failure transition |
| `MaterializationProtocol.ExactlyOnceEffect` | services/agent_runtime/materialization.py:268-410 | for any number of processes, interleavings, crashes, zombies and requests that arrive late or repeatedly after their sender gave up, at most one draft is written per materialization, every value of which is what the row's own proposal means in some trusted context, and a succeeded row holds exactly that draft's receipt, which names the request and the draft |
| `MaterializationProtocol.ReplayConflictIsUnreachable` | services/agent_runtime/postgres.py:871-951 | a worker that reaches the acknowledgement never meets a conflicting receipt |
| `MaterializationProtocol.ReportsAreTrue` | services/agent_runtime/materialization.py:268-382 | a reported delivery means a succeeded row, giving up a dead-lettered one, and no two processes hold the same attempt |
| `MaterializationProtocol.SettledForever` | services/agent_runtime/materialization.py:268-382 | terminal rows, their receipts and written drafts never change again |
| `MaterializationProtocol.RunKeepsInv` | services/agent_runtime/materialization.py:268-382 | the protocol's invariant holds over every run |
| `MaterializationTheorems.UnreadableRowsNeverStart` | services/agent_runtime/postgres.py:703-869 | in every reachable world an unreadable row is still pending and was never attempted |
| `MaterializationTheorems.UnreadableHeadBlocksSite` | services/agent_runtime/postgres.py:703-869 | over every run in which such a row is due and first whenever its site is asked for work, no row of the site is claimed |
| `MaterializationTheorems.ClaimsNeverPassTheHead` | services/agent_runtime/postgres.py:735-780 | if it sorts first in its site, any claims at clocks where it is due claim nothing of the site |
| `BlockedSiteExample.MixedModelsBlockTheSite` | services/agent_runtime/postgres.py:814-834 | the mixed-model completion's row keeps a readable row behind it from ever being attempted |
| `MaterializationTheorems.TriggerNeverRefusesHeartbeat` | services/agent_runtime/materialization.py:268-326 | over every run the transition trigger never refuses a worker's heartbeat |
| `MaterializationTheorems.LeaseNeverShortens` | services/agent_runtime/postgres.py:953-1014 | over every run, while a row is running at the same attempt its lease never becomes shorter and keeps its owner |
| `MaterializationTheorems.ReceiptedIff` | services/agent_runtime/materialization.py:85-95 | after a draft was written, an answered request brings a receipt iff it asks for the written intent and the first answer matched; otherwise a body conflict |
| `MaterializationTheorems.FirstSendEffect` | services/agent_runtime/materialization.py:315-382 | a first request is written as asked unless it is late; its sender gets a receipt iff it is answered with one that names the request, the body and its doctype, otherwise a body conflict, and a failure when the answer is lost or late |
| `MaterializationTheorems.OtherIntentsNeverDeliver` | services/agent_runtime/materialization.py:268-410 | as long as no attempt shapes the written intent again, the row never succeeds and the draft stays |
| `MaterializationTheorems.BadFirstAnswerNeverDelivers` | services/agent_runtime/materialization.py:398-410 | if the first answer did not match its request, the row never succeeds after any run |
| `MediaQueue.EnqueueKeepsInv` | services/media_runtime/repository.py:183-219 | enqueue keeps one job per request, found by its digest id |
| `MediaEffects.EnqueueEffect` | services/media_runtime/repository.py:183-219 | a request that has a job replays the same submission, replay stamp aside, and refuses another; a new one gets a queued job due now with nothing done |
| `MediaEffects.ClaimEffect` | services/media_runtime/repository.py:233-274 | a claim hands out the open job of the site that is due first, then created first, then has the smaller id, at its next attempt and token; exhausted jobs are dead-lettered, no other job changes; none is returned iff none is open |
| `MediaEffects.HeartbeatEffect` | services/media_runtime/repository.py:276-301 | iff the worker holds the live lease with this token, it ends the duration after now |
| `MediaEffects.CompleteEffect` | services/media_runtime/repository.py:303-343 | iff the status is terminal, the reasons are valid and the lease is held, the job ends with them, the reference and the proof |
| `MediaEffects.RetryEffect` | services/media_runtime/repository.py:345-384 | under the live lease a job with attempts left waits for exactly the retry time, one without becomes a dead letter and keeps its due time |
| `MediaEffects.WaitsUntilDue` | services/media_runtime/repository.py:246-256 | over any run of calls a queued or retried job stays exactly as it is until a claim of its site reads a clock at or after its due time |
| `MediaEffects.RetriedJobWaits` | services/media_runtime/repository.py:345-384 | a job sent back with attempts left keeps its token, retry time and reasons in every continuation whose claims come before that time |
| `MediaQueue.ClaimKeepsInv` | services/media_runtime/repository.py:233-274 | a claim keeps token = attempt, moves jobs only forward and hands out the next attempt |
| `MediaQueue.LeaseCallsKeepInv` | services/media_runtime/repository.py:276-384 | heartbeat, complete and retry keep the invariant and move jobs only forward |
| `MediaQueue.StaleTokenIsRefused` | services/media_runtime/repository.py:386-405 | a token older than the job's, or any token on a terminal job, changes nothing |
| `MediaRepository.MediaJobRepository.constructor` | services/media_runtime/repository.py:178-181 | the empty repository satisfies the invariant |
| `MediaRepository.MediaJobRepository.Enqueue` | services/media_runtime/repository.py:183-219 | exactly the enqueue transition on both dictionaries |
| `MediaRepository.MediaJobRepository.ReapExhausted` | services/media_runtime/repository.py:407-423 | the loop over a copy of the items is the all-at-once reap |
| `MediaRepository.MediaJobRepository.Claim` | services/media_runtime/repository.py:233-274 | exactly the claim transition, minimum by (due, created, job id) |
| `MediaRepository.MediaJobRepository.Heartbeat` | services/media_runtime/repository.py:276-301 | exactly the heartbeat transition |
| `MediaRepository.MediaJobRepository.Complete` | services/media_runtime/repository.py:303-343 | exactly the completion transition |
| `MediaRepository.MediaJobRepository.RetryLater` | services/media_runtime/repository.py:345-384 | exactly the retry transition |
| `MediaPipeline.Run` | services/media_runtime/pipeline.py:68-209 | the outcome is that of the first stage that does not pass: ready iff all pass; retry iff it is transient with an attempt left; dead letter iff it is the last attempt or inspection said so; its reasons, and one stage key per entered stage |
| `MediaWorker.ReportMatchesQueue` | services/media_runtime/worker.py:134-299 | the worker always reports, what it reports is the status then stored whatever came between recording and the retry that replaces it, and a lost lease means nothing was written |
| `MediaOutcomes.JobBecomes` | services/media_runtime/worker.py:134-252 | what a live claim's job has become, from the answers of the three stages, the bridge and the proof provider alone: status, reasons, retry time, reference and proof in every case, and exactly when recording raises and the job is retried for a runtime error |
| `MediaOutcomes.ReadyIff` | services/media_runtime/worker.py:175-252 | a job becomes ready iff every stage it needs passed, the bridge accepted, and an audio transcript is about the job's evidence and proved to come from its model |
| `MediaWorker.PipelineRetryIsNeverDeadLettered` | services/media_runtime/worker.py:175-181 | whatever happened since the claim, a retry that the pipeline's outcome for the claimed attempt decides on never becomes a dead letter in the queue |
| `MediaWorker.StaleClaimWritesNothing` | services/media_runtime/worker.py:254-299 | whatever a worker with an overtaken claim decides is not written, neither at once nor in its fallback |
| `MediaWorker.ReadyJobsAreProved` | services/media_runtime/worker.py:175-252 | in every reachable world token = attempt, and a ready audio job carries a published transcript reference for its own evidence and a proof of the same model |
| `MediaRunner.Runner.RecordOutcome` | services/media_runtime/worker.py:175-252 | the method on the repository makes exactly the decided call and publishes exactly what it decided |
| `MediaRunner.Runner.Finish` | services/media_runtime/worker.py:159-173 | what raises becomes a retry |
| `MediaRunner.Runner.RunOnce` | services/media_runtime/worker.py:134-173 | claim, pipeline on the claimed attempt and recording in sequence: the report matches the queue, and a retry outcome ends as a retry or a lost lease |
| `MetricGate.Promote` | services/metrics/exceptions.py:83-113 | a batch is promoted whole iff every row passes, otherwise exactly the failing rows are reported, in order; an unregistered metric raises; for rows and definitions as their constructors leave them, promoted iff every row is governed, of the registered version and enabled mode, has included at least the minimum share of total, a variance within the tolerance either way, was checked by now, and is not from the future nor older than the objective |
| `MetricGate.RowPassesInCounts` | services/metrics/exceptions.py:141-165 | the promoter's verdict on a row in counts and instants, without ratio, ceiling or absolute value |
| `MetricGate.FailuresTell` | services/metrics/exceptions.py:83-113 | every exception names a failing row with its reason, batch, counts, variance and time |
| `MetricGate.EvaluateAnswers` | services/metrics/service.py:73-120 | every member of an answer in counts and instants: the reason is the first thing wrong, the value is given iff nothing is, and each status says what it measures |
| `MetricGate.AgeIs` | services/metrics/service.py:140-238 | the reported age is the least number of whole seconds not below the row's age, and never negative |
| `MetricGate.GatesAgree` | services/metrics/service.py:73-120 | promoter and query evaluator agree on every row at every instant, reason by reason up to the version mismatch's name |
| `MetricGate.StatusesExplainTheVerdict` | services/metrics/service.py:140-238 | a value is answered iff sources are governed, fresh, sufficient and reconciled as the response reports them |
| `MetricGate.AvailableExactlyWithin` | services/metrics/service.py:73-120 | despite the ceiling, a row is available exactly on [max(as_of, checked_at), as_of + freshness objective] |
| `MetricGate.PromotedRowsStayAvailable` | services/metrics/exceptions.py:141-165 | a promoted row stays available until its freshness runs out |
| `MetricProjector.ValidateResponse` | services/metrics/projector.py:217-315 | the row loop with its observed references accepts iff every row has the recipe's shape and references are unique |
| `MetricProjector.RowOrderDoesNotMatter` | services/metrics/projector.py:123-214 | any permutation of the response rows gives the identical batch, names included, or the same error |
| `MetricProjector.IncludedFitsTotal` | services/metrics/models.py:268-271 | for a validated response the row constructor's included <= total check never fails |
| `MetricProjector.ProjectionFailsOnlyOnText` | services/metrics/projector.py:186-214 | a validated response is projected iff its site id and references match their patterns |
| `MetricEffects.ProjectsIff` | services/metrics/projector.py:123-315 | exactly which deliveries are projected, member by member: registered metric and version, enabled mode, its own object and tool, available, verified and read only, a consistent page, and 1 to 50 rows with exactly its fields, a numeric amount and unique well-formed references |
| `MetricEffects.ProjectionStores` | services/metrics/projector.py:146-214 | what is stored, column by column: the inputs' own columns, the exact sum and number of the rows with a counterpart, all references in order, and governed iff the counterparts are one to one |
| `MetricProjector.GovernedValueIsTheWholeSum` | services/metrics/projector.py:147-164 | one row with one reference per record; when governed, its value is the exact sum of the recipe field over all records |
| `MetricStore.AppendKeepsInv` | services/metrics/repository.py:62-91 | an append keeps indexes, one mode per site and checkpoints consistent |
| `MetricEffects.AppendEffect` | services/metrics/repository.py:62-91 | an append replays a stored batch, conflicts with another under its id, another mode of its site, a batch of the same checkpoint or a stored row id, and is stored otherwise |
| `MetricStore.IndexesMirrorBatches` | services/metrics/repository.py:62-91 | in every reachable store the row and checkpoint indexes hold exactly what the batches contain, and each site has one mode |
| `MetricStore.ReplayIsNoOp` | services/metrics/repository.py:66-71 | a rejected append changes nothing, and an accepted batch replays without effect after any later run |
| `MetricLookup.RejectionIsFinal` | services/metrics/repository.py:66-86 | a batch rejected once is rejected after every later run |
| `MetricLookup.LatestIsUnique` | services/metrics/repository.py:103-117 | the maximum by (retrieved_at, batch_id, row_id) has no ties |
| `MetricEffects.FindEffect` | services/metrics/repository.py:93-117 | the row found answers the question and no other stored row that does was retrieved later, or has the greater batch id, or the greater row id; none is found iff none does |
| `MetricEffects.SqlCheckpointEffect` | services/metrics/postgres.py:300-315 | the PostgreSQL checkpoint is the greatest one of the batches of its site and mode retrieved last |
| `MetricLookup.AnswersNeverGetOlder` | services/metrics/repository.py:93-117 | over any run the key found for a fixed query never decreases and never disappears |
| `MetricLookup.CheckpointIsLastAccepted` | services/metrics/repository.py:88-121 | over every run of appends the in-memory checkpoint is that of the last batch accepted for its site and mode, and there is none iff none was accepted |
| `MetricLookup.CheckpointsAgreeIff` | services/metrics/postgres.py:300-315 | after an accepted append the in-memory and the PostgreSQL checkpoint agree iff the batch is newer than all stored ones |
| `MetricLookup.ChronologicalRunsAgree` | services/metrics/repository.py:119-121 | when retrieved_at strictly increases per site and mode, replays aside, they agree after every run |
| `MetricLookup.OutOfOrderExample` | services/metrics/repository.py:88-90 | two batches out of order after which they differ |
| `MetricService.MetricsRepository.AppendBatch` | services/metrics/repository.py:62-91 | the dictionaries change exactly as the append function says, with both row loops |
| `MetricService.MetricsRepository.FindProjection` | services/metrics/repository.py:93-117 | returns the latest matching row |
| `MetricService.MetricsRepository.Checkpoint` | services/metrics/repository.py:119-121 | the checkpoint of the last batch accepted for the site and mode among those appended so far, or none iff none was |
| `MetricService.MetricsRepository.AppendAudit` | services/metrics/repository.py:123-161 | audits are append-only: the same replays, another under the same id conflicts |
| `MetricService.Service.Query` | services/metrics/service.py:44-71 | each answer says in counts and instants what the latest matching row is worth, and leaves exactly one audit with the same verdict; errors leave none |
| `MetricPipeline.AnswersAreWholeSums` | services/metrics/service.py:44-120 | fed only through project and promote, every available answer is the float of the exact field sum over all rows of one delivered response |
| `MetricPipeline.PromotedAnswers` | services/metrics/exceptions.py:83-113 | a promoted delivery answers from its evaluation until as_of plus the freshness objective |
| `DraftCursor.PaddingRoundTrip` | services/agent_runtime/read_service.py:317-331 | stripping and restoring base64url padding is a round trip |
| `DraftCursor.Base64RoundTrip` | services/agent_runtime/read_service.py:323-332 | decoding an encoding returns the bytes |
| `DraftCursor.CursorRoundTripIff` | services/agent_runtime/read_service.py:317-346 | a cursor decodes to what was encoded iff the id is not empty and the document has at most 1536 bytes |
| `DraftCursor.LongIdExample` | services/agent_runtime/read_service.py:326-328 | an id of 1536 characters yields a cursor that is refused |
| `DraftPaging.OrderedIs` | services/agent_runtime/read_service.py:192-224 | the query's rows are exactly the drafts of the site, one of the three kinds and the status asked for that are strictly older than the cursor, newest first: later created, and of two created together the greater id |
| `DraftPaging.PageShows` | services/agent_runtime/read_service.py:174-235 | a page is the first rows of that order, and it has a next cursor iff there are more |
| `DraftPaging.FinishedWalkShowsAll` | services/agent_runtime/read_service.py:174-235 | a walk that finishes, with inserts in between, shows every draft asked for that was there at its start, newest first and each once |
| `DraftPaging.WalkShowsOnlyAsked` | services/agent_runtime/read_service.py:202-224 | and nothing that was not asked for |
| `DraftPaging.ListingIsUnique` | services/agent_runtime/read_service.py:217-222 | the descending order by (created_at, proposal_id) determines the listing |
| `DraftPaging.FixedWalk` | services/agent_runtime/read_service.py:174-235 | on a fixed table following next_cursor returns the whole listing in exactly the pages it needs iff every page boundary can be resumed from |
| `DraftPaging.InsertsDoNotHideDrafts` | services/agent_runtime/read_service.py:174-235 | with inserts between pages a finished walk is strictly descending, so free of duplicates, and holds every draft present at its start |
| `Polling.PollingState.RunLeased` | services/local_pilot_runtime/pollers.py:139-191 | a round's result, acceptances, checkpoint and health are determined; a failed round leaves the checkpoint; nothing is skipped |
| `Polling.PollingNeverSkips` | services/local_pilot_runtime/pollers.py:139-191 | from the start, over any run of competing pollers with failures, every eligible delivery before the stored checkpoint was durably accepted and the checkpoint never moves back |
| `Polling.RoundIsARun` | services/local_pilot_runtime/pollers.py:139-191 | a round, failed or not, moves the step system exactly as the method moves the stored state |
| `Transcript.RoundIsNearest` | services/media_runtime/speech.py:321-322 | milliseconds are the nearest integer, halves to even |
| `Transcript.ValidateOutput` | services/media_runtime/speech.py:299-354 | accepted iff every segment passes against its predecessor, then each is a non-empty range in nearest milliseconds inside the audio and after its predecessor, with its own text, confidence and a speaker named with confidence; otherwise the first failing segment decides |
| `Transcript.PassesIffAccepted` | services/media_runtime/speech.py:309-354 | a segment passes iff its times round to a non-empty range inside the audio and after its predecessor, its confidences are fractions and its text has 1 to 4000 characters |
| `Transcript.RejectionIsTrue` | services/media_runtime/speech.py:309-354 | a rejection names something that is wrong with the segment |
| `Transcript.SpeechFitsAudio` | services/media_runtime/speech.py:309-354 | segment count and total speech time are at most the duration in milliseconds |
| `Transcript.BuildSegments` | services/media_runtime/speech.py:227-259 | the built segments keep the validated ranges, in order, with the stores' references |
| `Transcript.CheckRanges` | services/media_runtime/observer_bridge.py:138-166 | the bridge's loop accepts iff every range and reference is in order |
| `Transcript.TranscribeThenPublish` | services/media_runtime/observer_bridge.py:125-176 | whatever engine and stores return, the bridge never refuses a time range the adapter let through |
| `PayloadCodec.FreezeIsIdempotent` | services/agent_runtime/models.py:67-72 | freezing twice is freezing once |
| `PayloadCodec.RoundTripIffListsOnly` | services/agent_runtime/models.py:67-80 | freeze then thaw is the identity iff the tree has no tuple |
| `PayloadCodec.FreezeIsPlacewise` | services/agent_runtime/models.py:67-80 | frozen and thawed trees have the same places, keys, lengths and leaves, with tuples only and lists only |
| `PayloadCodec.ScanFindsAnyDepth` | services/agent_runtime/models.py:371-392 | the scan objects iff some place of the tree, however deep, holds a matching text or an object with a forbidden key |
| `PayloadCodec.MappingHasNoPii` | services/agent_runtime/models.py:371-392 | every valid payload's mapping passes the recursive scan, and no place in it offends |
| `PayloadCodec.ParseFacts` | services/agent_runtime/models.py:175-183 | the loop accepts iff every item is a fact reference, and returns exactly those |
| `PayloadCodec.FromMapping` | services/agent_runtime/models.py:153-205 | accepted: a valid payload whose mapping is the input up to tuple form; refused: no valid payload has that mapping |
| `PayloadCodec.RoundTrip` | services/agent_runtime/models.py:207-222 | reading back a valid payload's mapping returns the payload |

## Left out

- The PostgreSQL engine: row-level security, SKIP LOCKED, JSON columns and collations. Strings are ordered by code point everywhere, and a guarded update is one atomic step.
- SQL twins other than the task claims, the completion, the outbox transitions, the draft query and the checkpoint query. Which exception class a refused completion raises, which differs between the two, is not compared.
- Digests are injective also where the source truncates them; JSON serialisation, the PII pattern, the forbidden-key normalisation and the language pattern are parameters or flags.
- Naive datetimes cannot be written in the model, so the checks that refuse them are absent.
- Float and Decimal rounding: the age of a row is exact also beyond the 2^53 microseconds that total_seconds represents, sums and ratios do not round to 28 digits, and seconds times 1000 is exact before rounding. The conversion of an answer to float is a parameter.
- The JSON shape checks and the content scan of a proposal document are the flags `shaped` and `safe`; its fact references arrive parsed.
- The JSON type checks on the stored evidence references, invocation ids and document of a claim, which completion writes itself, and the length of the digest-derived materialization id.
- MaterializationProtocol.Next: inserts arbitrary fresh rows, of which the rows of completed tasks are a part.
- MaterializationProtocol: the Frappe server is the idempotent-client contract of services/agent_runtime/materialization.py:85-95; run_once is a program counter, and health counters are absent. A dead-lettered row may still have a draft.
- Heartbeat threads and the worker loops are interleaved steps; the text of exceptions is not modelled beyond whether it mentions a policy.
- MediaRunner.Runner.RunOnce: one thread; what others do between its calls is covered by the lemmas of MediaWorker about any later queue.
- AgentRunner.Runner.FinishRun: one thread; calls of others in between are covered by AgentWorker.ReportIsTrue.
- AgentWorker: how an executor or a resolver comes to its outcome is a parameter.
- Polling.PollingState.RunLeased: the scheduler's base class is not part of this model; recording a failure sets the health and returns the code, and a connector's batch is required to carry every eligible delivery between its cursors.
- DraftCursor.Decode: refuses characters outside the alphabet, which Python's decoder skips.
- MetricProjector.RowOrderDoesNotMatter: errors are compared by reason, not by message text.
- Model usage aggregation, budgets and periods of the read service; listing and lookup methods; HTTP, configuration, manifests, connectors, the Kingdee adapter and the observer packages.
