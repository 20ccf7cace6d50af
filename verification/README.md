# A verified model of the event pipeline

The system ingests marketing events over HTTP, stores each one in PostgreSQL together with an outbox row, publishes
outbox rows to a Redis stream, and lets workers fold the events into per-customer engagement scores, consent flags
and activity. Events that keep failing end in a dead-letter table, from which an operator can replay them. Previews
rank the customers by their decayed score; language-model summaries pass a circuit breaker and a number guard.

The project models that pipeline and its neighbours, and proves what they promise.

| file | what it holds |
|---|---|
| Types, Decay, Scoring, Confluence | rows and facts; decay over whole microseconds; the accumulator and its closed form; order independence |
| Database, Broker, Pipeline | transactions as functions of the tables; the stream and its pending list; the state machine with all its faults |
| Effects, Safety, Accounting, Runs | the parts of the invariant, step by step, and what follows for whole runs |
| Recovery, Decisions, Witnesses | what brings a pending event back; acknowledgements and dead letters that part from their events, with reachable states |
| Progress, Quiescence | fault-free continuations: nothing is ever stuck |
| Locks | the transactions again, statement by statement under row locks, and their refinement to atomic ones |
| Ingestion, Store, Queue, Worker, Refinement | batches; the tables, the queue adapter and the worker as objects and loops; the link back to the machine |
| Ranking, TopK, Audience | sort-and-take-K, the heap and its two streaming loops, eligibility over runs |
| Columns | every transaction and stream operation column by column, with its constants |
| Breaker, RateLimit, Grounding, GroundingLaws | the circuit breaker, the sliding-window limiter, the two number scanners and the verdict, and what its numbers and words amount to |

`dafny verify dfyconfig.toml` checks everything.

## Assumptions

- Row locks behave as in PostgreSQL under READ COMMITTED: a transaction that has waited reads the latest committed row.
- Stream ids are never reused, also after a loss of Redis. XACK and XDEL are one step, as in the source's transaction.
- The clock does not go back. The engagement table starts empty; customers may exist beforehand.
- WORKER_MAX_RETRIES is not negative, OUTBOX_BATCH_SIZE and the breaker threshold are at least 1, the cooldown is
  positive. Apart from the first, configuration enforces these bounds.
- Real numbers stand for floats. The decay of one microsecond is an arbitrary positive real; nothing else about the
  exponential is used.

## Where the code and its documentation differ

- The guard says that a percentage is judged once and not again as a plain number (backend/app/ai/grounding_guard.py:113-114).
  That fails for a numeral directly behind a point, such as `.3,4%`; `Grounding.DigitsJudgedOnce` gives the exact condition.
- The guard's header accepts a small percentage that a directional verb and "by" introduce, and exempts no goal
  (backend/app/ai/grounding_guard.py:16-20). The code looks for a verb and a `by N%` phrase anywhere in the text, so in
  `lift to 9% by 5%` the goal passes too; `Grounding.DeltaRuleExactly` says when the two accept the same.
- The header's item counts are never attached to a percent sign (backend/app/ai/grounding_guard.py:21-22). The `5` of
  `.5%` is; `Grounding.PercentageUnlessPointed` says exactly which numerals are judged as percentages.
- A message can be acknowledged while its event is pending again, for instance when a replay comes between the
  dead-letter commit and the acknowledgement. `Decisions.AcknowledgedWhilePending` gives the exact condition, and module
  Witnesses a reachable state under every configuration.
- After a loss of Redis a pending event need have neither an unpublished row nor a message. What it has, and when the
  message of its newest row is there, is `Recovery.PendingHasRowOrMessage`.
- A dead-letter row can exist for an id that is ingested only later, from a message without an event, or because the
  failing transaction looked before the event was stored. Such an orphan may be the row that is replayed, exactly when
  `Decisions.OrphanReplayable` says; the counts in `Runs.DeadLettersBalance` hold all the same.
- An event dated in the future holds its customer's displayed score still until that time, so waiting can then change
  the displayed order. `Confluence.OrderKeptExactly` says for which clocks it cannot.

## Model

| member | source | states |
|---|---|---|
| Runs.InvStep | backend/app/workers/event_worker.py:18-127 | Every step of the pipeline keeps the one invariant: row integrity, exact customer tables, no lost event, exclusive reconcile locks, own messages, balanced dead letters, bounded duplicates |
| Runs.ReachableInv | backend/app/workers/event_worker.py:76-127 | Every state reached from any base of customers by any legal sequence of steps satisfies that invariant |
| Runs.ExactlyOnceEffects | backend/app/workers/event_worker.py:18-47 | In every reachable state a customer's clock, score and channel tallies are the closed form over exactly the set of its processed events; there is an engagement row exactly when that set is not empty; consent, conversion and last activity are the starting profile changed by exactly that set |
| Runs.RunsAgree | backend/app/domain/scoring/engagement_score.py:38-45 | Two runs, with any order, batching and failures, that have processed the same events of a customer end with identical score, clock, breakdown, consent, conversion and last activity |
| Runs.NoEventLost | backend/app/queue/outbox.py:24-28 | In every reachable state a pending event has an outbox row that no cleanup in flight has chosen from its earlier snapshot |
| Runs.DeadLettersBalance | backend/app/api/system.py:90-112 | For every durable event: dead letters written by its pending-to-failed steps minus replayed rows is 1 if it is failed and 0 otherwise; outbox rows ever written are 1 plus its replays; a failed event always has a dead letter that replay accepts, orphan rows with its id or not |
| Runs.DuplicationBounded | backend/app/workers/event_worker.py:53-62 | Live stream entries made from one outbox row never exceed 1 plus the number of rolled-back reconciles that had published it |
| Runs.NeverRepublishedWhileLive | backend/app/workers/event_worker.py:54-60 | A published entry appears only when a reconcile reaches a row whose recorded message is gone from the stream, and carries that row's event |
| Runs.ProcessedIsFinal | backend/app/workers/event_worker.py:26-27 | Over any continuation no event vanishes or changes identity, and a processed event stays processed with the same completion time |
| Runs.StampsExact | backend/app/workers/event_worker.py:45-46 | From the start, and from any state where it holds, at the end of any run a completion time stands on exactly the processed events, replayed and failed ones included, and no stamp lies in the future |
| Quiescence.NothingStuck | backend/app/workers/event_worker.py:49-74 | From every reachable state some finite continuation without faults or new input makes every event terminal and empties the stream |
| Quiescence.ReconcileOnce | backend/app/queue/outbox.py:12-22 | A reconcile can run alone to its commit, and takes exactly the first batch-size rows off the list of claimable rows; if every row of a pending event was claimable or had its message in the stream, that stays so |
| Quiescence.ReconcileRounds | backend/app/queue/outbox.py:12-18 | The same for k rounds with the clock held: exactly the first k times batch-size claimable rows are gone from the list |
| Quiescence.PublishAllDue | backend/app/queue/outbox.py:12-22 | With the clock held a fault-free continuation leaves no row claimable; if every row of a pending event was claimable or had its message in the stream, every pending event then has a message there |
| Refinement.CallsTakeFirst | backend/app/workers/event_worker.py:49-63 | k successful calls of the reconcile method at one clock take exactly the first k times batch-size claimable rows |
| Refinement.CallsHandleAll | backend/app/workers/event_worker.py:49-63 | n claimable rows are all handled after k such calls if and only if k is at least n divided by the batch size, rounded up |
| Quiescence.HandleOne | backend/app/workers/event_worker.py:101-112 | A worker that holds a message, without transient faults, ends with it settled: processed, or dead-lettered after the last attempt, and nothing else changed |
| Quiescence.DrainStream | backend/app/queue/redis_streams.py:48-67 | With all deliveries idle and a message in the stream for every pending event, one worker empties the stream, and no event is left pending |
| Refinement.ReconcileIsRun | backend/app/workers/event_worker.py:49-63 | What the reconcile method does when nothing fails is the machine's run of a claim, each row in turn, the cleanup's snapshot and the commit |
| Refinement.FailedReconcileIsRun | backend/app/workers/event_worker.py:49-63 | What it does when any row, the cleanup or the commit raises is the run of a claim, the rows before, and a rollback |
| Refinement.MessageIsRun | backend/app/workers/event_worker.py:101-112 | The retry loop, for every pattern of transient faults, is a run of the worker's attempts, ended by one that succeeds or by the dead letter |
| Refinement.HandleBatchIsRun | backend/app/workers/event_worker.py:100-115 | The batch loop, for every pattern of faults and every lost acknowledgement, is a run of attempts, dead letters and acknowledgements, ended by abandoning the rest when an acknowledgement is lost |
| Refinement.BatchIsRun | backend/app/api/events.py:145-157 | A committed batch is the run that ingests its surviving items one after the other |
| Recovery.PendingHasRowOrMessage | backend/app/workers/event_worker.py:53-60 | In every reachable state the newest outbox row of a pending event is there and safe from cleanups; it is unpublished, or the message it records is in the stream if and only if Redis has not been lost since |
| Recovery.RecoverableStep | backend/app/workers/event_worker.py:49-74 | Every step keeps the invariant behind it: among others, a message a worker is done with never comes from the newest row of a pending event |
| Decisions.AcknowledgedWhilePending | backend/app/workers/event_worker.py:107-115 | A message is acknowledged while its event is pending if and only if a replay, or the event's ingestion, has come between the worker's decision on the message and the acknowledgement, and nothing has settled the event since |
| Decisions.OrphansCounted | backend/app/workers/event_worker.py:65-74 | Unreplayed dead letters of an id that no failure of its event wrote: as many as failing transactions whose read found no event, less the replays that took one |
| Decisions.OrphanReplayable | backend/app/api/system.py:94-105 | Such an orphan can be the row by which a replay requeues the event if and only if the event has failed and that count is positive |
| Decisions.OrphanTakenInstead | backend/app/api/system.py:94-105 | A replay that takes an orphan leaves behind, unreplayed, a dead letter that a failure of the event wrote |
| Decisions.BlindHasLooked | backend/app/workers/event_worker.py:67-72 | A dead letter written although its event is there by now goes back to a read of the same transaction that found none |
| Decisions.RunHasStates | backend/app/workers/event_worker.py:76-127 | Every run of the machine is a sequence of states and steps, as these statements take it |
| Witnesses.AcknowledgedAlthoughPending | backend/app/workers/event_worker.py:113-115 | Under every configuration a state is reachable in which a worker may acknowledge a message whose event is pending |
| Witnesses.PendingWithoutRowOrMessage | backend/app/queue/outbox.py:12-18 | From every reachable state with a pending event one is reachable in which it is pending, all its rows are published and the stream is empty |
| Witnesses.OrphanCanBeReplayed | backend/app/api/system.py:94-105 | Under every configuration a state is reachable in which a replay requeues an event by an orphan dead letter |
| Safety.NothingLostStep | backend/app/queue/outbox.py:24-28 | Every step keeps: each pending event has an outbox row outside every doomed set, also when cleanup decided before a concurrent replay |
| Safety.NewlyPendingHasRow | backend/app/api/system.py:106-110 | Ingestion and replay, the only ways an event becomes pending, write its row in the same transaction |
| Safety.LocksValidStep | backend/app/queue/outbox.py:14-17 | Reconcile transactions never hold the same outbox row (skip locked), and no commit deletes a row another one holds |
| Safety.MessagesValidStep | backend/app/workers/event_worker.py:53-60 | A message id recorded on a row, committed or not, is never that of some other row's entry, across Redis loss and rollbacks |
| Accounting.BalancedStep | backend/app/workers/event_worker.py:65-74 | Every step keeps the dead-letter and outbox-row counts of every event in balance |
| Accounting.FailedIsReplayable | backend/app/api/system.py:95-105 | A failed event has an unreplayed dead letter that replay accepts |
| Accounting.RollbackKeepsBounds | backend/app/workers/event_worker.py:51-62 | A rolled-back reconcile leaves its entries in the stream and raises the duplicate allowance of exactly the rows it had published |
| Accounting.RepublishKeepsBounds | backend/app/workers/event_worker.py:54-60 | Publishing a row again while its recorded message is gone keeps the duplicate bound |
| Accounting.DuplicatesBoundedStep | backend/app/workers/event_worker.py:49-63 | Every step keeps the bound on live entries per outbox row |
| Broker.DeliverValid | backend/app/queue/redis_streams.py:55-57 | Delivering the oldest undelivered entries keeps the pending list exactly the delivered, unacknowledged entries |
| Database.ClaimIsOldestFirst | backend/app/queue/outbox.py:12-18 | A claim is ascending, within the limit, of claimable unlocked rows, and leaves a claimable row out only when full of older ones |
| Columns.PersistColumns | backend/app/api/events.py:66-94 | A new customer has no consent, activity or conversion; a new event is pending, with one unpublished row created now; existing rows stay |
| Columns.ProcessOutcomes | backend/app/workers/event_worker.py:18-29 | Which payloads are refused, and for what; an event processed or failed already is passed over |
| Columns.ProcessColumns | backend/app/workers/event_worker.py:38-47 | After a pending event: status and time of the event, the customer's consent per channel, conversion and latest activity; every other row as before |
| Columns.FirstEventScores | backend/app/domain/scoring/engagement_score.py:12-45 | A customer's first event stores its base weight times its channel's factor as score and as that channel's total, for each of the nine kinds and five channels |
| Columns.FailColumns | backend/app/workers/event_worker.py:65-74 | An event that is neither processed nor failed fails, with one dead letter under the payload's id or under unknown, counting the retries |
| Columns.ReplayOutcomes | backend/app/api/system.py:95-105 | Each of the four answers to a replay, exactly when it is given |
| Columns.ReplayColumns | backend/app/api/system.py:106-112 | A requeued event is pending with no completion time, its dead letter stamped, one row written; otherwise nothing changes |
| Columns.ClaimableColumns | backend/app/queue/outbox.py:13-17 | A row is claimable exactly while its event is pending, if it was never published or more than two minutes ago |
| Columns.CommitColumns | backend/app/queue/outbox.py:20-28 | A commit deletes the chosen rows, sets time and message of the marked ones, and changes nothing else |
| Columns.ExpiredColumns | backend/app/queue/outbox.py:25-28 | The cleanup chooses exactly the rows created before the cutoff whose event has been processed or has failed |
| Columns.DecodeColumns | backend/app/queue/redis_streams.py:34-45 | Objects are passed on; all else cannot validate, and is filed under unknown or under its own malformed id |
| Columns.PoisonIdentity | backend/app/queue/redis_streams.py:44-44 | Two poison messages are filed under the same id only if they are the same message |
| Columns.OldestColumns | backend/app/queue/redis_streams.py:55-57 | A read hands out the oldest undelivered entries in order, and fewer than asked only if no more are waiting |
| Columns.StreamColumns | backend/app/queue/redis_streams.py:48-67 | What delivering, delivering again and acknowledging do to the entries, the pending list and its times; when an entry counts as idle |
| Columns.SettledColumns | backend/app/workers/event_worker.py:101-112 | A pending event's message ends with it processed if a single attempt is spared, and else failed with a dead letter that counts the retries |
| Runs.YoungRowsKept | backend/app/queue/outbox.py:25-28 | Over any continuation of any reachable state an outbox row is there, for its event, as long as it is no older than the retention |
| Effects.ApplyKeepsEffects | backend/app/workers/event_worker.py:29-46 | Processing a pending event keeps every customer's engagement and profile rows exact for the enlarged set of processed events |
| Effects.ReplayKeepsEffects | backend/app/api/system.py:106-111 | Replay leaves the customer tables exact |
| Effects.SameEventsSameRows | backend/app/workers/event_worker.py:29-46 | Databases that have processed the same events of a customer agree on all its derived columns |
| Scoring.AbsorbSummarizes | backend/app/domain/scoring/engagement_score.py:32-48 | Adding one event to a row that sums up a set of events gives the row that sums up the larger set: latest time, decayed sum, tallies per channel |
| Scoring.SummaryUnique | backend/app/domain/scoring/engagement_score.py:1-5 | The row is determined by the set of events |
| Confluence.AbsorbCommutes | backend/app/domain/scoring/engagement_score.py:38-45 | Two events commute from any accumulator whatever, on the early and the late branch |
| Confluence.DeliveryOrderIrrelevant | backend/app/domain/scoring/engagement_score.py:1-5 | All arrival orders of the same events end in the same score, clock and breakdown |
| Confluence.DisplayedScore | backend/app/domain/scoring/engagement_score.py:26-29 | At or after the clock the displayed score is the clamp of the sum of weight times decay over the processed events; before it, that sum at the clock |
| Confluence.OrderKeptExactly | backend/app/domain/scoring/engagement_score.py:26-29 | Without new events, waiting keeps the displayed order of any two scores on two given clocks if and only if one of the rows has no clock, or there is no decay, or equal time elapses for both, none of it before a clock |
| Confluence.WaitingKeepsOrder | backend/app/domain/scoring/engagement_score.py:26-29 | In particular two customers whose clocks have passed are never strictly inverted by waiting |
| Confluence.FutureClockInverts | backend/app/domain/scoring/engagement_score.py:27-28 | An instance of the other case: two concrete rows, one dated in the future, change places |
| Scoring.WeightTable | backend/app/domain/scoring/engagement_score.py:12-15 | The weight of every kind and channel is the table's base times the table's factor |
| Confluence.AddsInOrder | backend/app/domain/scoring/engagement_score.py:12-14 | On one channel and at one time an event adds less to the score the further its kind is down the list from purchase to complaint; down to a send it adds, from a bounce on it takes away |
| Confluence.ChannelScales | backend/app/domain/scoring/engagement_score.py:15-15 | What an event adds on a channel is what it would add by email, times the channel's factor |
| Confluence.DisplayedWithin | backend/app/domain/scoring/engagement_score.py:26-29 | What is shown is the decayed score, cut off at -50 and at 200 |
| Decay.PowInjective | backend/app/domain/scoring/engagement_score.py:39-45 | Unless there is no decay, different times decay differently |
| Decay.PowAdd | backend/app/domain/scoring/engagement_score.py:39-45 | Decay over a+b is decay over a times decay over b |
| Locks.StepRefines | backend/app/workers/event_worker.py:18-47 | Every statement of every interleaved process, fail or replay transaction changes the database as its atomic transaction does, at its commit, and not otherwise |
| Locks.ValidStep | backend/app/workers/event_worker.py:20-30 | No two transactions hold one lock, and what each has read under a lock is still what is committed |
| Locks.InterleavingsSerialize | backend/app/workers/event_worker.py:18-74 | Every interleaving, with crashes anywhere, leaves the database of the serial history of its commits |
| Locks.InterleavedEffectsExact | backend/app/workers/event_worker.py:20-30 | No update of a shared customer is lost under any interleaving: its rows stay exact for its processed events |
| Locks.InterleavedProcessedIsFinal | backend/app/workers/event_worker.py:26-27 | Under any interleaving a processed event is never failed, reopened or processed again |
| Locks.AppliedOnce | backend/app/workers/event_worker.py:22-27 | When a transaction writes an event as processed, the event is pending for everybody and no other transaction is about to write it |
| Locks.InterleavedBalance | backend/app/api/system.py:90-112 | Under any interleaving every event's dead letters written by failures, its replayed rows and its outbox rows ever written stay in balance |
| Locks.RowWithEveryRaise | backend/app/api/system.py:106-111 | Whatever statement makes an event pending commits a new outbox row for it at once |
| Locks.SomebodyAdvances | backend/app/api/system.py:92-100 | With events locked before customers and before dead-letter rows, some unfinished transaction can always take its next statement |
| Store.Tables.Persist | backend/app/api/events.py:58-94 | Inserts customer, event and outbox row as one function of the tables; duplicate exactly when the id was there |
| Store.Tables.IngestBatch | backend/app/api/events.py:126-163 | With any items failing: exactly the failing indices are rejected, in order; accepted, duplicates and rejected add up to the batch; accepted is the growth of the event table; the tables hold the surviving items; a failed commit changes nothing |
| Store.Tables.ProcessOneEvent | backend/app/workers/event_worker.py:18-47 | Ends in the specified state on success; on every exception the tables are untouched |
| Store.Tables.FailEvent | backend/app/workers/event_worker.py:65-74 | A terminal event is left alone; otherwise one dead letter, and the event, if there is one, failed |
| Store.Tables.ReplayDlq | backend/app/api/system.py:90-112 | The four outcomes and the new tables, including the refusal of orphan and already replayed rows |
| Store.Tables.Claim | backend/app/queue/outbox.py:12-18 | Scanning in id order up to the limit returns the first claimable rows |
| Store.Tables.MarkPublished | backend/app/queue/outbox.py:20-22 | Sets both publication columns of the one row, if it exists |
| Store.Tables.CleanupOutbox | backend/app/queue/outbox.py:24-28 | A row is gone afterwards exactly if it was created before the cutoff and its event has been processed or has failed; the others are unchanged |
| Scoring.TalliesGrow | backend/app/domain/scoring/engagement_score.py:51-58 | If the tallies are the counts and weight totals per channel of a set of events, then after the update for one more event they are those of the larger set, on every channel |
| Queue.RedisStreamsQueue.Publish | backend/app/queue/redis_streams.py:21-22 | Appends under an id that a valid stream does not hold, and keeps it valid |
| Queue.RedisStreamsQueue.Acknowledge | backend/app/queue/redis_streams.py:62-67 | Removes the entry from the pending list and the stream together |
| Queue.RedisStreamsQueue.DecodeMessages | backend/app/queue/redis_streams.py:31-46 | Every entry yields a message in order; poison entries get the identity under which they are dead-lettered |
| Queue.RedisStreamsQueue.Consume | backend/app/queue/redis_streams.py:48-57 | Idle entries first; only if there are none, the oldest undelivered ones; the stream's integrity is kept |
| Worker.PublishRow | backend/app/workers/event_worker.py:54-60 | A row whose message is in the stream is refreshed, otherwise published again |
| Worker.ReconcileOutbox | backend/app/workers/event_worker.py:49-63 | On success the marks and the cleanup are committed, and no row past the retention belongs to a processed or failed event any more; after an exception at any row the tables are as before but what was sent stays in the stream |
| Worker.HandleMessage | backend/app/workers/event_worker.py:101-112 | The retry loop, for every pattern of transient faults, processes the message in the first attempt that runs or dead-letters it after the last |
| Worker.HandledIsTerminal | backend/app/workers/event_worker.py:101-112 | After it the event the message is filed under is not pending, and no other event has changed |
| Worker.RedeliveryIsNoOp | backend/app/workers/event_worker.py:113-115 | Handling a message whose event is terminal changes nothing, whatever faults occur |
| Worker.HandleBatch | backend/app/workers/event_worker.py:100-115 | Messages are settled before they are acknowledged; a lost acknowledgement leaves its message settled but pending and abandons the rest |
| Worker.SettleAllSettles | backend/app/workers/event_worker.py:100-112 | After a batch no event that one of its messages is filed under is pending, none has become pending, and all other events are unchanged |
| Worker.AckAllRemoves | backend/app/queue/redis_streams.py:62-67 | Acknowledging a batch takes exactly its entries out of the stream and the pending list |
| Ingestion.BatchKeys | backend/app/api/events.py:145-157 | Stored ids are the old ones plus the surviving batch's; old events are untouched |
| Ingestion.BatchFirstWins | backend/app/api/events.py:86-91 | A new id stands for its first surviving occurrence |
| Ingestion.BatchRows | backend/app/api/events.py:93-94 | Each new event, and nothing else, gets exactly one new unpublished outbox row |
| Ingestion.SurvivorsExactly | backend/app/api/events.py:154-156 | The surviving items are those at the indices that did not fail |
| Ingestion.SurvivorsSize | backend/app/api/events.py:154-156 | Surviving and failed items together are the batch |
| Ranking.TextLessExactly | backend/app/domain/audience/topk.py:39-44 | Identifiers compare at their first difference: the smaller character, or the end of the text, is less |
| Ranking.TopKIsBest | backend/app/domain/audience/topk.py:69-74 | The K best as a caller sees them: scores never increase, of equal scores the greater identifier comes first, and nothing left behind is better than the last |
| Ranking.DescendingUnique | backend/app/domain/audience/topk.py:73-74 | A descending arrangement of given keys is unique |
| Ranking.TopKOfSame | backend/app/domain/audience/topk.py:60-74 | The K best keys do not depend on the order of arrival |
| Ranking.KeptIsTop | backend/app/domain/audience/topk.py:60-74 | If nothing kept is below anything let go, the sorted kept keys are the sorted keys of all, cut at K |
| TopK.MinHeap.SiftUp | backend/app/domain/audience/topk.py:68-68 | Restores the heap order from a leaf that is too small, keeping the members |
| TopK.MinHeap.SiftDown | backend/app/domain/audience/topk.py:69-71 | Restores the heap order from a root that is too large, keeping the members |
| TopK.MinHeap.PushPop | backend/app/domain/audience/topk.py:69-71 | heappushpop: the least of root and newcomer leaves, the rest stays, in heap order |
| TopK.MinHeap.Replace | backend/app/api/audience.py:56-57 | heapreplace: the root leaves whatever comes in, in heap order |
| TopK.SelectTopK | backend/app/domain/audience/topk.py:47-74 | For every candidate sequence and every K, K <= 0 included, returns the best K by score, and by identifier for equal scores: the keys of sorting all by score and id descending and taking K, out of entries that were offered; the heap never holds more than K |
| Audience.RecommendAudience | backend/app/api/audience.py:40-58 | For every split into batches the same result, the best K by score of the rows that pass the score filter; the heap never holds more than K |
| Audience.EligibleColumns | backend/app/db/repositories.py:44-59 | The candidate query column by column: the consent flag of each channel, the 24 hours, the activity and conversion filters |
| Audience.RankedExactly | backend/app/api/audience.py:49-53 | Ranked are exactly the streamed rows whose displayed score is no less than the asked minimum |
| Audience.PreviewIsEligible | backend/app/db/repositories.py:38-64 | Everybody returned satisfies the query's conditions, and has at least the asked minimum score |
| Audience.ConsentIsFinal | backend/app/db/repositories.py:44-55 | Once an unsubscribe or complaint is processed, no later state lets a preview on that channel return the customer; for email nor one on web |
| Audience.SendsAreCapped | backend/app/db/repositories.py:47-51 | A processed send keeps its customer out of previews on its channel for the 24 hours after its time, over any continuation |
| Audience.KeptOut | backend/app/api/audience.py:40-58 | Put together: no entry of a list that a later preview returns on the channel is a customer with a processed revocation, or with a processed send in the last 24 hours |
| Audience.DisplayIsExact | backend/app/api/audience.py:49-53 | In every reachable state the score a preview shows is the clamped decayed sum over exactly the processed events |
| Breaker.ValidStep | backend/app/ai/service.py:22-58 | Every step of every concurrent call keeps: open exactly at the threshold, probing exactly while one unfinished probe exists |
| Breaker.BreakerState | backend/app/ai/service.py:22-26 | In every reached state opened_at is set exactly when failures >= threshold; the number of unfinished probes is 1 if probing and 0 if not |
| Breaker.ClosedCounts | backend/app/ai/service.py:42-53 | While the circuit is closed the counter is the number of failures recorded since the latest recorded success, or since the start |
| Breaker.OpensAtThreshold | backend/app/ai/service.py:44-46 | A closed circuit opens exactly at the recorded failure that is the threshold-th since the latest recorded success |
| Breaker.OpenedAtLatestFailure | backend/app/ai/service.py:42-46 | While open, opened_at is the time of the latest recorded failure, late failures of earlier calls included |
| Breaker.OpenCircuitAdmitsOneProbe | backend/app/ai/service.py:23-26 | A call admitted by an open circuit is the sole probe, and starts at least the cooldown after that failure |
| Breaker.OnlyProbeCloses | backend/app/ai/service.py:48-53 | An open circuit closes only by the success of a probe; a late success does not close it |
| Breaker.NobodyLockedOut | backend/app/ai/service.py:55-58 | Whatever is cancelled, with no unfinished probe the gate admits when closed or past the cooldown |
| Breaker.AnalysisService.PassGate | backend/app/ai/service.py:22-26 | The locked gate section changes the object's fields as the machine's step does |
| Breaker.AnalysisService.NoteFailure | backend/app/ai/service.py:42-47 | Likewise the failure section |
| Breaker.AnalysisService.NoteSuccess | backend/app/ai/service.py:48-54 | Likewise the success section |
| Breaker.AnalysisService.EndProbe | backend/app/ai/service.py:55-58 | Likewise the section that ends a probe |
| RateLimit.EveryWindowBounded | backend/app/core/rate_limit.py:9-17 | If every admission was within the limit when made, every window of 60 seconds ending at any real time holds at most the limit |
| RateLimit.UnitsAreAMinute | backend/app/core/rate_limit.py:12-12 | The window is the 60 seconds up to and at a time, without its first instant |
| RateLimit.PruneMembers | backend/app/core/rate_limit.py:12-12 | Pruning at later and later cutoffs leaves what pruning the full history at the last one would leave |
| RateLimit.Limiter.ExpireKey | backend/app/core/rate_limit.py:15-15 | Key expiry removes only what the next pruning would remove |
| RateLimit.Limiter.RunScript | backend/app/core/rate_limit.py:9-17 | Allowed exactly when the units admitted in the window ending now plus the cost are within the limit; the sorted set agrees with the full history |
| RateLimit.Limiter.Admit | backend/app/core/rate_limit.py:19-31 | The same for the whole call, the early refusal of oversized batches included; and afterwards every window, at any time, is within the limit |
| Grounding.NumeralIsLongest | backend/app/ai/grounding_guard.py:45-46 | The numeral found is a match of the pattern, and none from the same digit is longer |
| Grounding.PercentMatchUnique | backend/app/ai/grounding_guard.py:45-45 | A percentage can match at a place in one way only, so backtracking cannot change it |
| Grounding.PlainMatchStartsAtNextDigit | backend/app/ai/grounding_guard.py:46-46 | The leftmost plain match has its numeral at the next digit, whatever currency sign and spaces precede |
| Grounding.PercentagesComplete | backend/app/ai/grounding_guard.py:116-118 | Wherever a percentage can match, the numeral it would end is found as a percentage |
| Grounding.SkippedIsPercentage | backend/app/ai/grounding_guard.py:134-136 | A plain match is skipped exactly when it is, from end to end, a percentage |
| Grounding.DigitJudged | backend/app/ai/grounding_guard.py:112-136 | Every digit is judged, once, or twice exactly when a percentage around it is only the tail of the plain numeral around it |
| Grounding.DigitsJudgedOnce | backend/app/ai/grounding_guard.py:113-114 | The two scanners judge every digit exactly once if and only if no plain numeral stands behind a point, has a comma and digit inside and a percent sign after it |
| Grounding.SomeDigitJudgedTwice | backend/app/ai/grounding_guard.py:113-114 | The text .3,4% is such a case: its 4 is judged as 4% and again in 3,4 |
| Grounding.PercentageUnlessPointed | backend/app/ai/grounding_guard.py:21-22 | A plain numeral before a percent sign is judged as a percentage if and only if no point stands right before it |
| Grounding.PointedCountPasses | backend/app/ai/grounding_guard.py:21-22 | So an integer attached to a percent sign can pass as an item count: the text .5% passes with nothing known |
| Grounding.DeltaRuleExactly | backend/app/ai/grounding_guard.py:16-20 | The code accepts the same percentages of a text as the header describes if and only if, should the text hold a verb and a by-phrase anywhere, each small percentage unknown to the context is itself such a delta |
| Grounding.GoalPassesByDelta | backend/app/ai/grounding_guard.py:18-20 | A case where it does not: lift to 9% by 5% passes with nothing known, though its 9% is a goal and no delta |
| Grounding.ExtractContextNumbers | backend/app/ai/grounding_guard.py:60-81 | The dictionary is the context's numbers stored in order, percentage forms included |
| Grounding.StoredFrom | backend/app/ai/grounding_guard.py:60-81 | Everything known is a number of the context under that name |
| Grounding.StoredUnlessReplaced | backend/app/ai/grounding_guard.py:60-81 | A number of the context is known unless a later one has taken its name |
| Grounding.WithinAbs | backend/app/ai/grounding_guard.py:89-95 | True exactly when some known number is within 0.5 percent of itself, or 0.01 |
| Grounding.SupportedNumerals | backend/app/ai/grounding_guard.py:112-153 | A text passes if and only if every plain numeral is accepted, as a percentage when it is one and as a figure otherwise, and so are the tails of pointed groups |
| Grounding.SupportedDigits | backend/app/ai/grounding_guard.py:3-7 | In a text that passes, every digit belongs to a number accepted in its class |
| GroundingLaws.ValueOfDigits | backend/app/ai/grounding_guard.py:137-138 | The decimal digits of a number are worth the number |
| GroundingLaws.CommasDoNotCount | backend/app/ai/grounding_guard.py:137-137 | A comma anywhere changes nothing, and nothing else is taken out |
| GroundingLaws.ValueOfFraction | backend/app/ai/grounding_guard.py:138-138 | Behind a point m digits are worth their number divided by ten to the power of m |
| GroundingLaws.WordExactly | backend/app/ai/grounding_guard.py:48-52 | A word follows a number exactly if only spaces and hyphens stand between, and no word character behind it |
| GroundingLaws.TimeUnitExactly | backend/app/ai/grounding_guard.py:48-52 | The words are the fourteen time units, in any case |
| GroundingLaws.DirectionalVerbExactly | backend/app/ai/grounding_guard.py:53-57 | A text has a directional verb exactly if it reads one of the sixteen anywhere, in any case |
| GroundingLaws.DeltaExactly | backend/app/ai/grounding_guard.py:47-47 | A by-phrase is found exactly where the pattern matches |
| GroundingLaws.Characters | backend/app/ai/grounding_guard.py:45-52 | The character classes, at their boundaries |
| GroundingLaws.LoneNumberAccepted | backend/app/ai/grounding_guard.py:140-148 | An integer that stands alone is accepted as a figure exactly if a time unit follows, or it is from 1 to 12, or within 0.01 or half a percent of a known number |
| GroundingLaws.LoneNumberRefused | backend/app/ai/grounding_guard.py:137-153 | An integer above 12 that stands alone, with no percent sign or time unit behind it, makes its text unsupported unless a known number is that near |
| GroundingLaws.LonePercentageRefused | backend/app/ai/grounding_guard.py:116-132 | So does an integer above 10 before a percent sign unless a known number is within one point |
| GroundingLaws.TwentyFiveLeads | backend/app/ai/grounding_guard.py:137-153 | For instance 25 leads, with nothing known |
| GroundingLaws.ContextNumbersExactly | backend/app/ai/grounding_guard.py:60-81 | Which numbers of the context are known, and under which names |
| GroundingLaws.NotesExactly | backend/app/ai/grounding_guard.py:129-153 | A text's notes are the value of each refused percentage and the words of each refused plain numeral |
| Grounding.VerifyGrounding | backend/app/ai/grounding_guard.py:103-158 | Grounded exactly when every text passes; otherwise the notes are one per refused numeral, in scanning order |

## Left out

- Weights for event types and channels outside the two enumerations: validation rejects them before they are stored.
- Lower-casing of stored names, rounding of tallies, percentage forms and displayed scores, floating-point error, NaN: names are enumeration values and numbers are reals.
- Event metadata, customer attributes in the tables, failure reasons, payload texts of dead letters: carried along unread. A payload is its event id and whether it validates.
- Worker.ReconcileOutbox: one transaction run by itself; concurrent reconcilers and cleanups, with locks skipped and snapshots ageing, are in Pipeline.
- Store.Tables.Restore: a rollback gives the row ids back too, where a database sequence would leave a gap; nothing depends on ids but their order.
- Queue.RedisStreamsQueue.Consume: the scan cursor and scan count of XAUTOCLAIM are the server's; its answer is a parameter, any idle entries.
- Quiescence.NothingStuck: states that a continuation exists in which components work, not that every schedule is fair.
- Locks.SomebodyAdvances: process, fail and replay only; the lock order of batch ingestion, and of two concurrent reconciles or cleanups, is not fixed by the code.
- Recovery of Redis from an old snapshot: a loss is total in the model.
- TopK.MinHeap.PushPop: the library's own sift routines are modelled by the standard loops with the same contract; the list is a sequence field.
- TopK.SelectTopK: pins the order of the keys; entries that tie on score and id may carry either one's attributes.
- Breaker.ValidStep: a second cancellation of one call while it waits for the lock to clear its probe is not modelled.
- RateLimit.Limiter.Admit: one client key, and Redis reachable; when it is not, the source admits everything.
- Grounding.VerifyGrounding: ASCII digits and white space; note texts are a value or the numeral, not the sentence around it.
- Confidence, rule-based fallback, ranking reasons, filters' parsing, campaign metrics, timeline and health queries: straight-line formulas and text that would add only easy members.
- HTTP routing, authentication, request validation itself, SQL text, sessions, migrations, seeding, language-model adapters, heartbeats, back-off and sleeping: foreign calls, input and output, or scheduling.
