# Verified model of nexo-rs

A Dafny 4.11 model of the parts of nexo-rs whose behaviour is not obvious from
any single function: the durable broker queue under concurrency, the agent
registry and its mirror in a store, CDP request correlation, the in-process
fan-out, and a handful of algorithms with real laws. `dafny verify
dfyconfig.toml` checks everything.

Code that updates state in place is a `class` whose methods are proved equal to
a function on values; the theorems are lemmas about those functions. Code that
runs concurrently is a step machine: one action is what happens between two
awaits, and every interleaving of actions is a run.

| files | models |
|---|---|
| `disk_tables`, `disk_queue`, `drain_progress`, `nats_broker` | the two tables, each statement on them, the queue's operations, how fast it drains, the NATS fall-back |
| `queue_protocol`, `queue_capacity`, `queue_safety`, `queue_duplicates`, `queue_refinement` | publishers, drainers, replays, purges and crashes interleaved; the cap, exactly when an event is lost, how often one is repeated; the undisturbed operations as runs of the same machine |
| `agent_types`, `registry_spec`, `registry_effects`, `registry_store`, `registry`, `reattach`, `admission`, `admission_refinement`, `mirror_race` | the registry, what each operation leaves behind, its store, boot-time rebuild, concurrent admission and its undisturbed runs, and the store's rows under concurrent writers |
| `cdp_client` | callers, writer, reader, timeouts and the pending map |
| `topic`, `channels`, `local_broker`, `stdio_bridge` | topic matching and the bounded fan-out |
| `rate_limit`, `anti_loop`, `luhn` | token bucket, sliding window, check digits |
| `deep_merge`, `placeholders`, `resolver` | configuration merge, placeholder scan, credential resolution |
| `sets`, `options` | shared facts about sets and maps, the optional value |

## What was found

- The overview (README.md:119-121 of the repository) promises no duplicates.
  The code delivers at least once: an event whose delete fails or whose process
  stops after the publish is sent again (crates/broker/src/disk_queue.rs:174-182).
  The model follows the code. `QueueDuplicates.CrashSendsAnEventTwice` is a run
  that publishes one event twice, and `QueueDuplicates.CrashBeforeDeleteSendsTwice`
  the general form. `QueueDuplicates.DuplicatesAreBoundedByInterruptions` bounds
  the repeats by the interruptions that can cause one,
  `QueueDuplicates.StaysUnexposedExactlyWhen` says exactly which those are, and
  `QueueDuplicates.NoEventIsPublishedTwice` is the case of none.
- An accepted event can be lost. `replay_dead_letter` inserts into the pending
  table and deletes the dead letter in two statements. If drains refuse the
  event three times in between, its dead-letter insert is ignored because the
  old letter is still there, the pending row is deleted, and the replay then
  deletes the letter. The replay command runs in its own process
  (src/main.rs:15333), so nothing keeps the two apart.
  `QueueSafety.ReplayRacingDrainsLosesAnEvent` is the run.
  `QueueSafety.EventSurvivesExactlyWhenNeverDropped` gives the exact condition
  for one event over a whole run, `QueueSafety.NothingIsLostExactlyWhenNothingIsDropped`
  the one for all events, and `QueueSafety.NoSilentLoss` a guard on the collision
  alone, again for one event whatever happens to the others.
- With T publishers the hard cap can be passed by T - 1 rows and, replays aside,
  by no more; both are proved, a zero `max_pending` included (it still admits one
  row). Each replay can add one row more.
- A late upsert can leave a stale row in the registry's store for good: `admit`
  drops its lock before it stores, and nothing orders the upserts of two
  operations on one goal (crates/agent-registry/src/registry.rs:198-199, 566-572).
  `MirrorRace.LateUpsertLeavesAStaleRow` is the run,
  `MirrorRace.MirrorHoldsExactlyWhenTheLastUpsertIsFresh` the exact condition.
- The registry's documentation tells the caller of `release` to promote the goal
  it returns. `release` has already popped it, so `promote_queued` refuses
  (crates/agent-registry/src/registry.rs:206-213, 249), exactly unless the goal
  stood in the queue twice: `RegistrySpec.PromoteAfterReleaseIsRefusedExactlyWhen`.
- The placeholder scanner never returns on a `${` outside comments that nothing
  closes: `Placeholders.LoopsForeverExactlyWhenUnclosed`; the text `${` alone is
  enough, `Placeholders.OpenerAloneLoopsForever`.
- Deep merge is not associative in general. It fails exactly where the middle
  layer has a non-mapping between two mappings and the top one does not hide the
  bottom one: `DeepMerge.MergeIsAssociativeExactlyWhen`, with three layers that
  disagree in `DeepMerge.LeafBetweenMappingsBreaksAssociativity`.
- Topic matching is not transitive in general; the exact guard on two patterns
  is `Topic.MatchIsTransitiveExactlyWhen`, and `Topic.StarDoesNotCoverRest` a case
  that fails it.

## Assumptions

- Event ids, goal ids and subscription ids are fresh where the code draws random ones.
- Clock readings are inputs. The rate limiter and the anti-loop window state their
  results for times that do not decrease; a clock that goes backwards counts as
  no time elapsed. Queue rows take arbitrary stamps.
- Pending rows with equal stamps are listed in insertion order.
- `f64` is modelled by `real`; integers are unbounded.
- A broker handed to `drain` answers Ok only for an event it has passed on. The NATS
  broker over the same queue would not (its fall-back insert is ignored for a row that
  is still pending); nothing in the repository drains a queue into it.
- Broker answers, the circuit breaker, secret lookup, Unicode tables and the
  order in which a concurrent map is walked are arbitrary.

## Model

| member | source | states |
|---|---|---|
| `DiskTables.InsertOrIgnoreKeeps` | crates/broker/src/disk_queue.rs:138-147 | inserting a row keeps the key, the listing order and the retry bound, adds just that id, and does not grow the table for a known id |
| `DiskTables.InsertOrReplaceKeeps` | crates/broker/src/disk_queue.rs:287-296 | a replayed row adds just its id and keeps key, order and retry bound |
| `DiskTables.DeleteOldestKeeps` | crates/broker/src/disk_queue.rs:112-116 | the eviction takes one id, the one of an oldest row, and keeps key, order and retry bound |
| `DiskTables.MoveToDlqKeeps` | crates/broker/src/disk_queue.rs:223-248 | dead-lettering moves the id from the pending ones to the dead ones |
| `DiskTables.InsertsTouchOnlyTheirRow` | crates/broker/src/disk_queue.rs:138-147 | an ignored insert changes no row, a replacing one exchanges at most the row with its id |
| `DiskTables.PlaceInOrderSplits` | crates/broker/src/disk_queue.rs:157-166 | a row stands behind all rows with the same or an earlier stamp and before all later ones; the others keep their order |
| `DiskTables.DeadLetteringKeepsTheFirstLetter` | crates/broker/src/disk_queue.rs:223-248 | every other row stays, no letter is overwritten, a new letter carries the row's topic, payload and reason |
| `DiskTables.DeleteTakesOnlyItsRow` | crates/broker/src/disk_queue.rs:183-186 | deleting a delivered row takes nothing else along |
| `DiskTables.UpdateAttemptsKeeps` | crates/broker/src/disk_queue.rs:204-208 | the named row carries the new count, no id changes, and key, order and the retry bound below three are kept |
| `DiskTables.UpdateCountsOneRow` | crates/broker/src/disk_queue.rs:204-208 | row by row: only the named one changes, and only in its count |
| `DiskQueueModel.BackpressureIsMonotone` | crates/broker/src/disk_queue.rs:94-136 | the fuller the queue the longer the producer sleeps, never above 500 ms |
| `DiskQueueModel.BackpressureIsProportional` | crates/broker/src/disk_queue.rs:94-136 | no sleep up to half full, 500 ms at the cap, in between that share of the upper half, rounded down |
| `DiskQueueModel.EnqueueRespectsTheCap` | crates/broker/src/disk_queue.rs:87-150 | the event is pending afterwards, the cap holds (or the excess does not grow), and a row is given up only at the cap and only an oldest one |
| `DiskQueueModel.EnqueueStoresTheEvent` | crates/broker/src/disk_queue.rs:112-147 | the stored row is the event itself under the given topic and stamp with zero attempts; every other row is an old one, and at most one is missing, at the cap, an oldest one |
| `DiskQueueModel.EnqueuedIsHandedOver` | crates/broker/src/disk_queue.rs:157-175 | round trip: a drain that fetches an enqueued row hands the broker that very event under that very topic, at its place in the order |
| `DiskQueueModel.NextDrainHandsItOver` | crates/broker/src/disk_queue.rs:136-175 | so the next drain hands over an event enqueued into fewer than a hundred rows |
| `DiskQueueModel.DrainEffect` | crates/broker/src/disk_queue.rs:153-216 | a drain leaves the refused rows of the oldest hundred, in order and counted up, before the untouched rest, and dead-letters exactly the condemned ones |
| `DiskQueueModel.DrainBalances` | crates/broker/src/disk_queue.rs:153-248 | from any table rows before = published + pending + dead after + letters that were there already; key, order, bound and disjointness are kept |
| `DiskQueueModel.DrainConserves` | crates/broker/src/disk_queue.rs:153-248 | from disjoint tables rows before = published + pending + dead after |
| `DiskQueueModel.ReplayMovesOneEvent` | crates/broker/src/disk_queue.rs:277-304 | an undisturbed replay leaves exactly one row for the id: the letter's topic and payload, the time of the replay, zero attempts; every other row and letter stays, a row left by a torn replay is taken over |
| `DiskQueueModel.CondemnThenReplay` | crates/broker/src/disk_queue.rs:223-304 | dead-lettering an event and replaying it restores both tables' ids |
| `DiskQueueModel.DiskQueue.Enqueue` | crates/broker/src/disk_queue.rs:87-150 | the row stored is the event itself, under the given topic and stamp, untried; every other row is an old one, at most one is missing, only at the cap and only an oldest; the cap holds; the sleep is the specified one |
| `DiskQueueModel.DiskQueue.Drain` | crates/broker/src/disk_queue.rs:153-216 | the row loop hands the broker the events of the oldest hundred rows in order, returns how many it took, and the two tables balance against that count |
| `DiskQueueModel.DiskQueue.HandleRow` | crates/broker/src/disk_queue.rs:168-214 | one row: unparsable is dead-lettered unsent; otherwise its event goes out under its topic, and the row is deleted on yes, counted up on the first two refusals, dead-lettered with the broker's error on the third |
| `DiskQueueModel.DiskQueue.DrainNats` | crates/broker/src/disk_queue.rs:314-379 | with the guard taken nothing happens, otherwise one drain; the flag is down again afterwards |
| `DiskQueueModel.DiskQueue.ReplayDeadLetter` | crates/broker/src/disk_queue.rs:277-304 | says whether the id was dead-lettered, and moves it if so |
| `DiskQueueModel.DiskQueue.PurgeDeadLetters` | crates/broker/src/disk_queue.rs:306-311 | counts and removes every dead letter, pending rows untouched |
| `DrainProgress.ThreeDrainsClearABatch` | crates/broker/src/disk_queue.rs:153-216 | any three drains remove at least the first batch, whatever the broker answers |
| `DrainProgress.DrainsConserve` | crates/broker/src/disk_queue.rs:153-216 | over any number of drains the returned counts and the two tables balance |
| `DrainProgress.QueueEmpties` | crates/broker/src/disk_queue.rs:153-216 | without new enqueues the queue is empty after 3 * ceil(n / 100) drains; the counts sum to the rows published and the rest are dead-lettered |
| `DrainProgress.TheBoundIsAttained` | crates/broker/src/disk_queue.rs:153-216 | one drain fewer is not enough when the broker refuses everything |
| `QueueProtocol.SoundStep` | crates/broker/src/disk_queue.rs:87-379 | every action, failures and crashes included, keeps key, order and `attempts` in 0..2, also for the rows drainers hold |
| `QueueProtocol.LockHeldOnceStep` | crates/broker/src/disk_queue.rs:97-129 | whoever recounts or evicts holds the cap lock, alone |
| `QueueProtocol.GuardHeldOnceStep` | crates/broker/src/disk_queue.rs:314-334 | the drain flag is up exactly while one drainer is past the guard |
| `QueueCapacity.CapacityBound` | crates/broker/src/disk_queue.rs:87-150 | in every run pending rows plus publishers past the check stay within max_pending + T - 1, or within what the opened file held, plus one per row a replay inserted |
| `QueueCapacity.OvershootIsAttained` | crates/broker/src/disk_queue.rs:87-150 | some interleaving of n publishers reaches exactly that bound, for every cap, zero included |
| `QueueCapacity.EvictionTakesOneRow` | crates/broker/src/disk_queue.rs:97-124 | while no drain writes, no eviction takes the queue below max_pending - 1 |
| `QueueSafety.EventSurvivesExactlyWhenNeverDropped` | crates/broker/src/disk_queue.rs:153-311 | for each event, over every run with crashes and in every state: it is sent, pending, dead-lettered, evicted or purged if and only if no replay deletes its letter after a drain gave up on its row again and before it was ever published, evicted or purged |
| `QueueSafety.NothingIsLostExactlyWhenNothingIsDropped` | crates/broker/src/disk_queue.rs:153-311 | a run never loses an accepted event if and only if this holds of every event |
| `QueueSafety.AccountedStep` | crates/broker/src/disk_queue.rs:153-311 | one action keeps an event accounted for exactly unless it takes that branch |
| `QueueSafety.NoSilentLoss` | crates/broker/src/disk_queue.rs:153-311 | an event on which no drain gives up in the middle of its own replay is never lost, whatever happens to others |
| `QueueSafety.ReplayRacingDrainsLosesAnEvent` | crates/broker/src/disk_queue.rs:223-304 | a concrete run in which an accepted event disappears |
| `QueueSafety.TablesStayDisjoint` | crates/broker/src/disk_queue.rs:153-311 | over every run the retry bound holds, and the tables are disjoint unless a replay is under way or was torn |
| `QueueDuplicates.DuplicatesAreBoundedByInterruptions` | crates/broker/src/disk_queue.rs:153-379 | over every run without overlapping drains the broker is sent at most as many repeats as there were interruptions between its yes and the delete of a pending row, or replays of a published event |
| `QueueDuplicates.StaysUnexposedExactlyWhen` | crates/broker/src/disk_queue.rs:172-196 | a crash, a failed drain or a failed delete exposes an event to a repeat if and only if the drainer's published row is still pending; a replay if and only if its event was published |
| `QueueDuplicates.NoEventIsPublishedTwice` | crates/broker/src/disk_queue.rs:314-379 | with no such interruption no id is published twice, other failures and replays allowed |
| `QueueDuplicates.CrashBeforeDeleteSendsTwice` | crates/broker/src/disk_queue.rs:172-195 | whenever the process stops between the broker's yes and the delete of the oldest row, the next drain sends it again |
| `QueueDuplicates.CrashSendsAnEventTwice` | crates/broker/src/disk_queue.rs:314-379 | a concrete run that publishes event 7 twice |
| `QueueSafety.OneDrainerPastTheGuard` | crates/broker/src/disk_queue.rs:314-334 | over every run at most one drainer is past the guard, and the flag is up when one is |
| `QueueDuplicates.OverlappingDrainsSendTwice` | crates/broker/src/disk_queue.rs:153-196 | two overlapping plain drains send the oldest row twice with nothing going wrong |
| `QueueRefinement.LoneEnqueue` | crates/broker/src/disk_queue.rs:87-150 | run alone, the interleaved enqueue is the sequential one |
| `QueueRefinement.LoneDrainNats` | crates/broker/src/disk_queue.rs:314-379 | run alone, guard and fetch included, the interleaved drain leaves the sequential tables, sends as many events as it counts and drops the flag |
| `QueueRefinement.LoneDrain` | crates/broker/src/disk_queue.rs:160-216 | its row loop on its own, from any row on |
| `QueueRefinement.LoneReplay` | crates/broker/src/disk_queue.rs:277-304 | run alone, the interleaved replay ends in the sequential tables |
| `QueueRefinement.LonePublish` | crates/broker/src/nats.rs:144-185 | run alone, the interleaved publish is sent when allowed and taken, and otherwise ends in the sequential enqueue; it is accepted either way |
| `QueueRefinement.FailedDeleteGoesOn` | crates/broker/src/disk_queue.rs:172-196 | in a plain drain a failed delete leaves the sent row pending and the next row is handled |
| `QueueRefinement.FailuresLetGo` | crates/broker/src/disk_queue.rs:87-379 | a failing statement changes no table and lets go of lock and flag |
| `QueueRefinement.PurgeAndCrash` | crates/broker/src/disk_queue.rs:306-311 | a purge empties the dead letters alone; a crash changes no table and leaves lock, flag and every task at rest |
| `NatsBrokerModel.NatsBroker.Publish` | crates/broker/src/nats.rs:144-185 | the event is on the wire or in the queue and not both; the circuit hears of success or of a trip only when the client was tried |
| `RegistrySpec.OperationsKeepTheMirror` | crates/agent-registry/src/registry.rs:110-326 | each operation keeps every stored row equal to memory in status, start, finish, sleep and pending question; sleep data implies Sleeping, terminal implies a finish time |
| `RegistrySpec.RunsKeepTheMirror` | crates/agent-registry/src/registry.rs:110-585 | so does every sequence of operations |
| `RegistrySpec.RepeatedAttemptOnlyRestamps` | crates/agent-registry/src/registry.rs:508-540 | applying a turn again at a later reading moves the time of the last event, in memory and store, and nothing else |
| `RegistrySpec.OlderAttemptsAreIgnored` | crates/agent-registry/src/registry.rs:508-540 | an older turn after a newer one changes nothing |
| `RegistrySpec.AdmitRespectsTheCap` | crates/agent-registry/src/registry.rs:150-201 | admission never takes the running count past the cap |
| `RegistrySpec.ReleaseFreesASlot` | crates/agent-registry/src/registry.rs:219-251 | a release removes just its goal from the active ones and just the head from the queue |
| `RegistrySpec.PromoteAfterReleaseIsRefusedExactlyWhen` | crates/agent-registry/src/registry.rs:206-251 | promoting the goal that `release` handed out changes nothing if and only if it stood in the queue once; its status is untouched by the release |
| `RegistryEffects.AdmitEffect` | crates/agent-registry/src/registry.rs:150-201 | with fewer Running and Sleeping goals than the cap a goal becomes Running, otherwise Queued and last in the queue, or nothing changes; every field of its entry and row |
| `RegistryEffects.ReleaseEffect` | crates/agent-registry/src/registry.rs:219-251 | the goal ends in the status given, stamped now, awake, in memory and store; the queue loses its head; every other goal and field is as before |
| `RegistryEffects.SetStatusEffect` | crates/agent-registry/src/registry.rs:256-279 | the status given, a finish stamp only for a terminal status without one, sleep data kept only under Sleeping |
| `RegistryEffects.SetSleepingEffect` | crates/agent-registry/src/registry.rs:281-310 | Sleeping with the given sleep data and time of the last event, all else as before |
| `RegistryEffects.ClearSleepingEffect` | crates/agent-registry/src/registry.rs:312-327 | Sleeping becomes Running, other statuses stay, the sleep data goes |
| `RegistryEffects.SetAskPendingEffect` | crates/agent-registry/src/registry.rs:414-431 | the pending question and nothing else |
| `RegistryEffects.ApplyAttemptEffect` | crates/agent-registry/src/registry.rs:508-540 | each snapshot field after a turn that is not older: taken from the turn, kept when it reports none, or kept always |
| `RegistryEffects.UnsavedEffects` | crates/agent-registry/src/registry.rs:543-564 | budget and acceptance change in memory only |
| `RegistryEffects.PromoteEffect` | crates/agent-registry/src/registry.rs:206-217 | every entry of the goal leaves the queue, the rest keep their order, and the goal runs |
| `RegistryEffects.FlushEffect` | crates/agent-registry/src/registry.rs:110-123 | a goal is Cancelled if and only if it stands in the queue before the first unknown one |
| `RegistryEffects.EvictEffect` | crates/agent-registry/src/registry.rs:127-146 | a goal goes if and only if it is terminal and finished before the cutoff; at the cutoff it stays |
| `RegistryStore.MemoryAgentRegistryStore.List` | crates/agent-registry/src/store.rs:69-73 | lists every stored row once, newest start first |
| `RegistryStore.MemoryAgentRegistryStore.EvictTerminalOlderThan` | crates/agent-registry/src/store.rs:94-113 | removes exactly the terminal rows that finished before the cutoff |
| `Registry.AgentRegistry.Admit` | crates/agent-registry/src/registry.rs:150-201 | admits below the cap, queues or rejects at it; memory, queue and store end as specified |
| `Registry.AgentRegistry.Release` | crates/agent-registry/src/registry.rs:219-251 | refuses a non-terminal status and an unknown goal; otherwise the goal has the very status given, finished now and awake, in memory and store, all others are as before, and the head of the queue is handed out |
| `Registry.AgentRegistry.PromoteQueued` | crates/agent-registry/src/registry.rs:206-217 | false and no change when the goal is not queued; otherwise it leaves the queue and turns Running |
| `Registry.AgentRegistry.SetStatus` | crates/agent-registry/src/registry.rs:256-279 | the new status in memory and store, finish time and sleep data adjusted |
| `Registry.AgentRegistry.SetSleeping` | crates/agent-registry/src/registry.rs:281-310 | status and sleep data in memory and store |
| `Registry.AgentRegistry.ClearSleeping` | crates/agent-registry/src/registry.rs:312-327 | wakes the goal in memory and store |
| `Registry.AgentRegistry.ApplyAttempt` | crates/agent-registry/src/registry.rs:508-540 | a newer turn replaces the snapshot, a replay is dropped |
| `Registry.AgentRegistry.FlushQueue` | crates/agent-registry/src/registry.rs:110-123 | the queue is empty afterwards, its goals are cancelled in order up to the first unknown one; that one is the error, and without one the count is returned |
| `Registry.AgentRegistry.EvictTerminalOlderThan` | crates/agent-registry/src/registry.rs:127-146 | old terminal goals leave memory and store; returns the larger of the two counts |
| `Reattach.Reattach` | crates/agent-registry/src/reattach.rs:81-180 | the loop over the listed rows ends in the specified registry, store and outcomes |
| `Reattach.ReattachRebuildsTheRegistry` | crates/agent-registry/src/reattach.rs:81-180 | from an empty registry the goals in memory and store are the stored ones minus the expired; each status and sleep record comes back as specified; the mirror holds |
| `Reattach.ReattachHonoursTheCap` | crates/agent-registry/src/reattach.rs:81-180 | at most `cap` goals resume, running ones stay within cap plus stored sleepers, and only Running rows resume |
| `Reattach.OutcomesMatchRows` | crates/agent-registry/src/reattach.rs:81-180 | one outcome per row, in order: expired is skipped, Running resumed, requeued or lost, Sleeping a sleeper, Queued requeued, anything else recorded |
| `Reattach.ResumedExactlyWithinTheCap` | crates/agent-registry/src/reattach.rs:96-117 | a Running row resumes if and only if fewer goals than the cap run by then, and is requeued otherwise |
| `Reattach.RunningWithoutResumeIsLost` | crates/agent-registry/src/reattach.rs:81-180 | without resume a Running row ends LostOnRestart and finished now, in memory and store, and takes no slot |
| `Admission.CapIsNeverOvershot` | crates/agent-registry/src/registry.rs:150-201 | in every interleaving with a count that is not atomic, active goals stay within the larger of the starting count and the highest cap so far |
| `Admission.QueueIsFifoAndExact` | crates/agent-registry/src/registry.rs:150-251 | racing releases hand out tickets in admission order, and each ticket ends in exactly one of queue, release, promotion or flush |
| `AdmissionRefinement.LoneAdmit` | crates/agent-registry/src/registry.rs:150-201 | undisturbed, the interleaved admit ends where the sequential one does, whatever the order of its count, and frees the lock |
| `AdmissionRefinement.LoneRelease` | crates/agent-registry/src/registry.rs:219-251 | so does release, and the ticket it hands out is that of the head |
| `AdmissionRefinement.LonePromote` | crates/agent-registry/src/registry.rs:206-217 | so does promotion |
| `AdmissionRefinement.LoneFlush` | crates/agent-registry/src/registry.rs:110-123 | so does the flush with its cancelling loop |
| `AdmissionRefinement.LoneEvictTerminal` | crates/agent-registry/src/registry.rs:127-146 | so does the eviction, in whatever order it removes the expired goals |
| `AdmissionRefinement.LoneSingleSteps` | crates/agent-registry/src/registry.rs:103-108 | cap and status changes are one step of both |
| `MirrorRace.MirrorHoldsExactlyWhenTheLastUpsertIsFresh` | crates/agent-registry/src/registry.rs:566-572 | after any interleaving of changes, reads and upserts a goal's row equals memory if and only if the last upsert to land carries a handle read after the last change |
| `MirrorRace.SerialOperationsKeepTheMirror` | crates/agent-registry/src/registry.rs:566-572 | when operations on a goal do not overlap, its row equals memory whenever none is under way |
| `MirrorRace.LateUpsertLeavesAStaleRow` | crates/agent-registry/src/registry.rs:195-200 | `admit`'s late upsert overwrites a flush's cancellation: everyone has finished and the store still says Queued |
| `CdpClient.ResponsesAreCorrelated` | crates/cdp/src/client.rs:54-296 | over all interleavings a request completes at most once, a success is the frame with the call's own id, and a returned call's id is not pending |
| `CdpClient.SendersAreNeverDropped` | crates/cdp/src/client.rs:252-296 | no two calls share an id and the "response channel dropped" branch is never taken |
| `CdpClient.CallsReturnWhatWasDelivered` | crates/cdp/src/client.rs:280-292 | in every run a call that ends by receiving returns the outcome delivered to it, one that ends otherwise the closed-channel or timeout failure |
| `CdpClient.HowCallsEnd` | crates/cdp/src/client.rs:258-293 | each way a call can end, and the result it adds |
| `CdpClient.AnsweredCallsReturnTheirAnswer` | crates/cdp/src/client.rs:54-293 | a call that is asked, written and answered returns its answer and leaves nothing pending |
| `CdpClient.FirstCallSucceeds` | crates/cdp/src/client.rs:54-293 | the first call of a fresh client, answered "v", returns "v" |
| `CdpClient.LostSocketFailsThePending` | crates/cdp/src/client.rs:54-180 | a task that lost its socket fails a pending call with its own message |
| `CdpClient.WriterChannelIsBounded` | crates/cdp/src/client.rs:49-80 | in every run the writer's channel holds at most 64 requests, and a caller can submit if and only if it holds fewer and the writer is there |
| `Topic.MatchMeansAgreement` | crates/broker/src/topic.rs:32-40 | the recursive matcher accepts exactly the subjects that agree segment by segment up to the first `>` and have the right length |
| `Topic.JoinOfSplit` | crates/broker/src/topic.rs:16-17 | splitting at dots loses nothing |
| `Topic.SplitOfJoin` | crates/broker/src/topic.rs:16-17 | and finds the segments again |
| `Topic.ValidMeans` | crates/broker/src/topic.rs:25-30 | refused are the empty text, a dot at an end and two dots in a row, and nothing else |
| `Topic.StarMeans` | crates/broker/src/topic.rs:32-40 | `*` takes exactly one segment, a plain segment itself |
| `Topic.RestMeans` | crates/broker/src/topic.rs:32-40 | `>` takes one or more segments |
| `Topic.MatchIsTransitive` | crates/broker/src/topic.rs:7-40 | matching is transitive through a middle pattern without `>` |
| `Topic.StarDoesNotCoverRest` | crates/broker/src/topic.rs:7-40 | `*` matches `>`, `>` matches `a.b`, `*` does not match `a.b` |
| `Topic.MatchIsTransitiveExactlyWhen` | crates/broker/src/topic.rs:7-40 | a pattern that matches another covers all its subjects if and only if it has a `>` no later; plain subjects decide it |
| `LocalBrokerModel.LocalBroker.Publish` | crates/broker/src/local.rs:41-76 | whatever the walk order: closed matching subscriptions go, the others stay; each matching one with fewer than 256 events waiting has this one last, nobody else changes; the counter rises by the full ones |
| `LocalBrokerModel.LiveSubscribersAreServedInOrder` | crates/broker/src/local.rs:41-84 | in every interleaving received then buffered events and the shed ones interleave to the matching offers, in order; counts add up; the buffer holds at most 256 |
| `LocalBrokerModel.SheddingIsCountedAndJustified` | crates/broker/src/local.rs:53-65 | the counter equals the number of sheds, and an offer is shed if and only if it matches a live subscriber with 256 events waiting |
| `LocalBrokerModel.SubscribersAreIsolated` | crates/broker/src/local.rs:41-84 | what one subscriber gets, and what it is shed, does not depend on the others |
| `LocalBrokerModel.PublishIsOneOfferEach` | crates/broker/src/local.rs:41-76 | an undisturbed publish is one offer per subscriber in any order, then the removals |
| `LocalBrokerModel.PublishedMeans` | crates/broker/src/local.rs:41-76 | a subscription goes if and only if it matches and is closed; who stays and matches with fewer than 256 waiting has the event last; full are the open matching ones with 256 waiting |
| `LocalBrokerModel.ReceivesDrainTheBuffer` | crates/broker/src/local.rs:78-84 | a live subscriber that keeps receiving gets its buffer, oldest first, and nobody else notices |
| `LocalBrokerModel.PublishedEventArrives` | crates/broker/src/local.rs:41-84 | subscribed, published, received: the event arrives if and only if the pattern takes the topic |
| `LocalBrokerModel.LeftSubscribersGo` | crates/broker/src/local.rs:41-76 | a subscriber that left is removed by a publish its pattern takes and by no other |
| `StdioBridge.StdioBridgeBroker.DispatchEvent` | crates/broker/src/stdio_bridge.rs:187-211 | afterwards each channel occurs as often as there were open or non-matching subscribers that became it, matching ones with fewer than 256 events by one more event |
| `StdioBridge.StdioBridgeBroker.Prune` | crates/broker/src/stdio_bridge.rs:208-210 | removing by index from the last one down with `swap_remove` takes out exactly the listed elements |
| `StdioBridge.ListedAreTheClosed` | crates/broker/src/stdio_bridge.rs:189-207 | the collected indices point at exactly the closed matching subscribers |
| `StdioBridge.SurvivorsMean` | crates/broker/src/stdio_bridge.rs:187-211 | the offered, unpruned subscribers counted channel by channel |
| `RateLimit.RateLimitPerUser.TryAcquireAt` | crates/compliance-primitives/src/rate_limit.rs:70-97 | refill, cap, spend or deny with the wait; other users' buckets untouched; tokens stay in [0, max]; a new user is allowed with max - 1 left |
| `RateLimit.RefillComposes` | crates/compliance-primitives/src/rate_limit.rs:70-83 | refilling in two steps is refilling once, cap included |
| `RateLimit.RunBound` | crates/compliance-primitives/src/rate_limit.rs:49-97 | a user's allowed calls in any interval number at most max + rate * length |
| `RateLimit.RunBoundFrom` | crates/compliance-primitives/src/rate_limit.rs:49-97 | the same from any healthy state of the buckets |
| `RateLimit.UsersAreIndependent` | crates/compliance-primitives/src/rate_limit.rs:70-97 | a user's verdicts are those of a run with that user's calls alone |
| `RateLimit.RetryAfterIsExact` | crates/compliance-primitives/src/rate_limit.rs:84-97 | after a denial a later call is allowed if and only if the announced wait has passed, whatever was denied in between |
| `RateLimit.DeniedCallsLeaveNoTrace` | crates/compliance-primitives/src/rate_limit.rs:70-97 | deleting every denied call changes no other verdict |
| `RateLimit.SettingsMean` | crates/compliance-primitives/src/rate_limit.rs:49-74 | the cap is the larger of the two parameters and `tokens_per_window` flow in per window |
| `RateLimit.FreshUserBurst` | crates/compliance-primitives/src/rate_limit.rs:70-97 | a new user is allowed exactly that many calls at one instant, the remaining count falling by one each time; the next is told to wait window / tokens |
| `RateLimit.EarlierReadingAddsNothing` | crates/compliance-primitives/src/rate_limit.rs:80-83 | a reading before the last call counts as no time passed |
| `DeepMerge.YamlDeepMerge` | crates/config/src/lib.rs:455-471 | the in-place loop over the override's entries computes the merge |
| `DeepMerge.LookupOfMerge` | crates/config/src/lib.rs:455-471 | at every path: what the override says wins, what it is silent about falls through, what it cuts is gone |
| `DeepMerge.OverrideMeans` | crates/config/src/lib.rs:455-471 | a leaf of the override wins whatever the base holds, a mapping wins over anything but a mapping, and two mappings meet under the union of their keys |
| `DeepMerge.SilenceKeepsTheBase` | crates/config/src/lib.rs:455-471 | below a key that an override mapping leaves out the base is unchanged |
| `DeepMerge.MergeIsIdempotent` | crates/config/src/lib.rs:455-471 | merging the same override twice equals merging it once |
| `DeepMerge.HidesExactlyWhenOverWins` | crates/config/src/lib.rs:455-471 | the structural test for an override that swallows a layer is exact |
| `DeepMerge.MergeIsAssociativeExactlyWhen` | crates/config/src/lib.rs:455-471 | three layers may be grouped either way if and only if, wherever a middle leaf stands between two mappings, the top one hides the bottom one |
| `DeepMerge.LeafBetweenMappingsBreaksAssociativity` | crates/config/src/lib.rs:455-471 | three layers whose two groupings differ |
| `DeepMerge.MergeIsAssociative` | crates/config/src/lib.rs:455-471 | in particular when the middle layer has no non-mapping where both outer ones have mappings |
| `DeepMerge.MergeAgentsDropIn` | crates/config/src/lib.rs:277-322 | the nested loops replace or append, file by file |
| `DeepMerge.DropInsOverrideById` | crates/config/src/lib.rs:277-322 | each id occurs once with its last definition, and earlier ids keep their positions |
| `DeepMerge.LastDefinitionMeans` | crates/config/src/lib.rs:309-314 | the definition kept for an id is the one after which no other has it |
| `DeepMerge.LastFileWins` | crates/config/src/lib.rs:277-322 | the last file decides the ids it names, by the last definition in it, and leaves all others as the earlier files had them |
| `Luhn.IsLuhnValid` | crates/compliance-primitives/src/pii_redactor.rs:174-193 | the reverse loop with its alternating flag is the weighted-sum formula on 13 to 19 digits |
| `Luhn.ValidMeans` | crates/compliance-primitives/src/pii_redactor.rs:174-193 | accepted are 13 to 19 digits whose sum is a multiple of ten: check digit as it stands, the one before it doubled and reduced past nine, and so on leftwards |
| `Luhn.DigitsMean` | crates/compliance-primitives/src/pii_redactor.rs:175 | each of the ten characters has its value, every other one is skipped |
| `Luhn.KnownNumberIsAccepted` | crates/compliance-primitives/src/pii_redactor.rs:254-257 | 4111111111111111 is accepted |
| `Luhn.OneWrongDigitIsCaught` | crates/compliance-primitives/src/pii_redactor.rs:174-193 | changing one digit of an accepted number makes it rejected |
| `Luhn.AdjacentSwapIsCaughtExactly` | crates/compliance-primitives/src/pii_redactor.rs:174-193 | swapping two adjacent digits goes unnoticed if and only if they are equal or 0 and 9 |
| `Luhn.OneMistypedCharacterIsCaught` | crates/compliance-primitives/src/pii_redactor.rs:174-193 | the same in the raw text with its separators |
| `Resolver.Build` | crates/auth/src/resolver.rs:139-247 | a resolver exactly when there is no error, with all bindings and warnings; otherwise all errors in order |
| `Resolver.BuildPair` | crates/auth/src/resolver.rs:150-231 | one turn of the loop; it never reports a failed issue |
| `Resolver.IssueCannotFail` | crates/auth/src/resolver.rs:304-320 | an account that is listed and not excluded is always issued, in all four stores |
| `Resolver.LenientSucceedsExactlyWhenResolvable` | crates/auth/src/resolver.rs:139-247 | a lenient build succeeds if and only if every request names one existing account that permits the agent |
| `Resolver.StrictIsLenientWithoutWarnings` | crates/auth/src/resolver.rs:200-215 | strict succeeds if and only if lenient succeeds without a warning |
| `Resolver.BindsExactlyWhatIsPermitted` | crates/auth/src/resolver.rs:148-235 | for distinct agents, a pair is bound if and only if it was requested and permitted, to the requested account |
| `Resolver.NoStrangerIsBound` | crates/auth/src/resolver.rs:148-235 | every handle belongs to a listed agent whom the account permits |
| `Resolver.EveryFaultIsReported` | crates/auth/src/resolver.rs:135-239 | the error list is exactly the faults of all pairs |
| `Resolver.AgentCredentialResolver.Rebuild` | crates/auth/src/resolver.rs:252-265 | a failed rebuild changes nothing; a successful one replaces the state and raises the version by one |
| `Resolver.ResolveAnswersExactlyThePermitted` | crates/auth/src/resolver.rs:91-105 | after a successful build over distinct agents `resolve` answers, per agent and channel, the requested account exactly if it permits the agent, and nothing for anybody else |
| `Resolver.PermitsMeans` | crates/auth/src/resolver.rs:183-198 | what each store means by permitting: an empty list or a listed agent, for Google the owner |
| `Resolver.SuccessfulBuildBindsTheDeclared` | crates/auth/src/resolver.rs:139-247 | after a successful build over distinct agents: the declared outbound account is the one bound, without one the single inbound instance, without either nothing |
| `Resolver.PermittedOutboundIsBound` | crates/auth/src/resolver.rs:148-235 | a declared account that permits the agent is bound, whatever the inbound list |
| `Resolver.LaterEntryReplaces` | crates/auth/src/resolver.rs:232-235 | an agent listed again replaces its earlier entry if and only if it binds anything |
| `Resolver.AmbiguityIsReported` | crates/auth/src/resolver.rs:163-171 | no outbound and two or more inbound instances always give that error |
| `Resolver.RefusalIsReported` | crates/auth/src/resolver.rs:177-198 | a requested account, declared or inferred, that is missing or excludes the agent always gives that error |
| `Resolver.AsymmetryIsReportedExactly` | crates/auth/src/resolver.rs:200-215 | the asymmetry reports are exactly the permitted outbound accounts outside a non-empty inbound list without an opt-out |
| `Placeholders.FindPlaceholders` | crates/config/src/env.rs:19-82 | the index loop with its flags and brace counter terminates and finds the specified spans |
| `Placeholders.LoopsForeverExactlyWhenUnclosed` | crates/config/src/env.rs:59-76 | the loop never ends if and only if it reaches an unclosed `${` outside comments |
| `Placeholders.OpenerAloneLoopsForever` | crates/config/src/env.rs:59-76 | the text `${` is one |
| `Placeholders.ClosedTextIsScanned` | crates/config/src/env.rs:19-82 | it ends on every text whose every `${` has a closing brace |
| `Placeholders.SpansAreDisjointPlaceholders` | crates/config/src/env.rs:19-82 | the spans are in bounds, increasing, disjoint and brace-balanced |
| `Placeholders.SpansAreExactlyTheUncommentedOnes` | crates/config/src/env.rs:31-58 | no span starts in a comment of the text around the spans, and every other `${` does |
| `Placeholders.PlaceholdersAreExactlyTheUncommented` | crates/config/src/env.rs:31-58 | no span starts in a comment and every other `${` does, where a comment is read off the positions: on the line, placeholders cut out, an earlier `#` before which every opened quote is closed by the next of its kind |
| `Placeholders.InCommentIsCommented` | crates/config/src/env.rs:33-58 | the flags of the scan say the same as the positions |
| `Placeholders.HashInQuotesHidesNothing` | crates/config/src/env.rs:40-44 | `"#${X}"` and `'#${X}'` are found, `# ${X}` is not, the next line is |
| `Placeholders.CloseOfIsFirst` | crates/config/src/env.rs:60-76 | the brace search stops at the first return to depth zero and misses none |
| `Placeholders.ResolvePlaceholders` | crates/config/src/env.rs:5-17 | the splice loop equals its specification, errors included |
| `Placeholders.ResolveReplacesExactlyTheSpans` | crates/config/src/env.rs:5-17 | input and result share every piece between the spans; each span is exchanged for its value |
| `Placeholders.ResolveFailsAtTheFirst` | crates/config/src/env.rs:9-13 | it fails if and only if some span does, with the first one's error |
| `AntiLoop.Normalise` | crates/compliance-primitives/src/anti_loop.rs:126-141 | the character loop yields the lowercased words joined by single blanks |
| `AntiLoop.SameNormalFormExactlyWhenSameWords` | crates/compliance-primitives/src/anti_loop.rs:126-141 | two bodies share a normal form if and only if their lowercased word lists are equal |
| `AntiLoop.WordsMean` | crates/compliance-primitives/src/anti_loop.rs:126-141 | words are what stands between white space: a leading word, its gap and the words of the rest |
| `AntiLoop.CaseIsIgnored` | crates/compliance-primitives/src/anti_loop.rs:129 | bodies whose characters lowercase alike have the same normal form |
| `AntiLoop.AntiLoopDetector.EvaluateAt` | crates/compliance-primitives/src/anti_loop.rs:81-116 | the first matching signature, leaving the history alone; else trim, record and count |
| `AntiLoop.WindowRefinesTheLog` | crates/compliance-primitives/src/anti_loop.rs:81-116 | after such a call the deque is the whole log filtered to the window, and a repetition is reported if and only if the log count reaches the threshold |
| `AntiLoop.AnnouncementsLeaveNoTrace` | crates/compliance-primitives/src/anti_loop.rs:84-93 | a call that matched a signature may be deleted from any run |
| `AntiLoop.PhraseInMidTextIsFound` | crates/compliance-primitives/src/anti_loop.rs:86-93 | a listed phrase anywhere in the text is found in any letter case, and the first such phrase of the list is the one named |
| `AntiLoop.AsciiLowerMeans` | crates/compliance-primitives/src/anti_loop.rs:86 | the 26 capital letters become small, every other character stays |
| `AntiLoop.SecondAlikeIsCountedWithinTheWindow` | crates/compliance-primitives/src/anti_loop.rs:95-116 | the second of two like messages is a repetition if and only if at most the window has passed; exactly the window still counts |
| `AntiLoop.FrontDecides` | crates/compliance-primitives/src/anti_loop.rs:95-101 | trimming leaves the deque alone if and only if its front is no older than the window; a front stamped later counts as new |
| `AntiLoop.CountMeans` | crates/compliance-primitives/src/anti_loop.rs:105-109 | the count is the number of entries that hold the body |
| `AntiLoop.AntiLoopDetector.WithSignatures` | crates/compliance-primitives/src/anti_loop.rs:66-72 | the phrases replace the default list, each in lower case |

## Left out

- QueueDuplicates.DuplicatesAreBoundedByInterruptions: assumes that no drain starts while another one is at work; `drain_nats` guarantees that among its own calls, plain `drain` has no guard, and `QueueDuplicates.OverlappingDrainsSendTwice` shows that the assumption is needed. Only the repository's tests call it.
- QueueCapacity.EvictionTakesOneRow: excludes drain writes while the evicting publisher sleeps; a drain may empty the table meanwhile.
- QueueProtocol.SoundStep: a dead-letter move and a single statement are atomic; partial failure inside SQLite is not modelled.
- MirrorRace.MirrorHoldsExactlyWhenTheLastUpsertIsFresh: a handle is read in one step, and eviction takes no part.
- Admission.CapIsNeverOvershot: excludes status changes that give a goal a slot it did not have, which check no cap in the code.
- Registry.AgentRegistry.Admit: sequential, with the store as the in-memory one shared with the caller; interleaved admission is the separate machine in `Admission`, interleaved stores the one in `MirrorRace`.
- RegistrySpec.OperationsKeepTheMirror: `set_max_turns` and `set_acceptance` do not persist, so their own two snapshot fields may be stale; `plan_mode` and `kind` are not mirrored by the code either.
- CdpClient.ResponsesAreCorrelated: calls whose future an outer timeout drops keep their slot; only calls that return are covered.
- LocalBrokerModel.LocalBroker.Publish: the 64-bit counter does not wrap; `request` and its inbox are left out.
- StdioBridge.StdioBridgeBroker.DispatchEvent: JSON framing and the outbound channel are left out.
- RateLimit.RunBound: a zero window or zero tokens per window, and `reset_user`, are left out; rounding of `f64` is not modelled.
- Placeholders.ResolvePlaceholders: what one placeholder resolves to (environment, defaults, secret files) is an arbitrary function of its text.
- AntiLoop.AntiLoopDetector.EvaluateAt: Unicode lowercasing and white space are arbitrary functions.
- Resolver.Build: errors carry their data, not their rendered text; account files, permissions and fingerprints are left out.
- Registry reads that only render (`list`, `find_paused_by_origin`, `find_paused_by_question_id`, summaries): easy members.
- SQL text, WAL and pool settings, serde encodings, tracing, telemetry, CLI and sockets: I/O and libraries.
- The SQLite registry store: it truncates times to seconds on eviction, so the in-memory store is the model.
- NATS subscribe and request loops, the reconnect monitor and the circuit breaker: unseen libraries.
- Regex redaction, phrase lists, credential file loading: library or file system behaviour.
