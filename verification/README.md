# Verified model of the scx_agent control path

A Dafny model of the parts of scx_agent where several programs must agree on shared state, with proofs over every
run, every input or every stream.

* **Rules and scheduler** (`Rules`, `Scheduler`, `Campaign`, `SeqLock`). The rule store with its file, the
  compare-and-set request of the scheduler with publication, rollback and reconciliation, a whole
  apply/restore/apply campaign, and the sequence lock between the publisher and the classifying tasks.
* **Rule provider** (`Journal`, `Provider`, `ProviderSafety`, `ProviderAnswers`, `ProviderRetry`, `LateRequests`, `HostCrashes`). The MCP
  provider as a machine of small steps: callers, journal writes that may fail or stay unsynced, the control socket as
  the queue it is, abandoned requests, crashes of the provider, the scheduler and the host, other writers.
* **Activations** (`Activation`, `Notifier`). The batcher of rule misses and its two bounded channels.
* **Benchmark host** (`ResourcePool`, `PairScheduler`, `GuestExecutor`). The core and memory pool, the parallel work
  loop over it, and the executor of one run inside a guest.
* **Redis scenario** (`RedisWeight`, `RedisMeasurement`). A second provider, whose resource has no compare-and-set,
  and the sampling of a rolling workload.
* **Formats** (`Frames`, `WorkloadDigest`, `CpuList`, `CpuMask`, with `Text`). Line framing, the bytes behind the
  workload digest, CPU lists and masks.

`Ordering`, `Pieces` and `Runs` hold what these share: sorting, cutting and joining, and the inductions over runs of a
machine.

Code that updates state is modelled by classes and methods with loops; each is proved against a function or
predicate, about which the results below are then proved. Protocols are machines over their steps. What the operating
system does (a map call failing, a rename that is not synced, how bytes arrive, when a scheduler dies, what a
benchmark returns) is a parameter, and every result holds for all its values.

## Results that are not what one would hope

* A record the provider relies on need not be durable. When a save renames the journal into place and then fails to
  sync, the call fails, but its retry finds the record and goes on without saving. A crash of the host can then leave a
  moved rule that no record explains (`MoveCanLoseItsRecord`), or take back a completion that a caller was told of
  (`ReceiptCanBeTakenBack`). What was synced is permanent, through any number of crashes (`DurableIsPermanent`): a record
  is kept in all continuations exactly when some save since its last change was synced (`RecordOutlivesIffSynced`).
* A journal whose encoding has exactly the maximal length is saved, and then refused by every load, because the file has
  a newline more (`SavedLoadsIff`, `FullJournalIsReached`). From then on the provider can do nothing
  (`UnloadableIsStuck`). Retrying converges exactly when the journal has room for the operation (`RetryConverges`,
  `NoRoomNeverDone`).
* A caller who gets an error instead of an answer does not know that the matter is closed: an abandoned request may still
  be served (`GivingUpLeavesDoubt`); `MovesByItselfIff` says exactly when a rule can still move. Any later answer closes
  the matter (`AnswerSettles`), and a completion is final (`CompletedRuleStays`).
* The Redis provider can destroy a weight that another program wrote, because it reads and then writes
  (`OutsideWriteCanBeLost`); `WhatAWriteReplaces` says exactly what a write replaces.
* A task that was never classified is taken for an up-to-date one during one publication in the life of a scheduler,
  the one after 2^63 - 2 others (`FastPathIsSound`, `UnclassifiedNumberOccurs`).
* A negative CPU mask, such as "-1", would keep its parser busy for ever (`NegativeNeverEnds`, `MinusOneIsRead`). A CPU list survives formatting and
  parsing exactly when it is not empty and repeats no CPU (`CpuList.RoundTrip`).

## Model

| member | source | states |
|---|---|---|
| Rules.RuleStore.Open | schedule/scx_agent_classed/src/rules/store.rs:24-36 | opens exactly when base and learned rules are disjoint and fit the table; memory and file then agree |
| Rules.RuleStore.CompareAndSet | schedule/scx_agent_classed/src/rules/store.rs:74-119 | only a replaced file changes anything, memory and file change together, conflict and no-op are told apart exactly, and an unsynced rename is an error that leaves the store uncertain |
| Scheduler.Server.LoadMap | schedule/scx_agent_classed/src/scheduler.rs:185-190 | the map equals the effective table exactly when no update fails |
| Scheduler.Server.Start | schedule/scx_agent_classed/src/scheduler.rs:185-225 | a scheduler starts exactly when the rules can be merged and no map update fails, and then with map, store and file in agreement and the sequence at 2 |
| Scheduler.Server.PublishRule | schedule/scx_agent_classed/src/scheduler.rs:312-352 | the sequence moves to the next even number even on failure; the map changes in that one rule exactly when the calls it makes succeed |
| Scheduler.Server.GetRule | schedule/scx_agent_classed/src/scheduler.rs:374-422 | changes nothing, answers exactly when the name is valid and the observation works, and reports the learned, effective, active and persisted rule |
| Scheduler.Server.Recover | schedule/scx_agent_classed/src/scheduler.rs:586-603 | after a failed publication everything is back, two revisions and two sequence steps later, exactly when the rollback lasts and can be republished; otherwise the server is fatal with map and other rules untouched and the file equal to the store |
| Scheduler.Server.Reconcile | schedule/scx_agent_classed/src/scheduler.rs:563-571 | a no-op leaves the map entry equal to the effective rule, or the server is fatal |
| Scheduler.Server.CompareAndSet | schedule/scx_agent_classed/src/scheduler.rs:475-617 | the answer, whether the scheduler must stop, and what is left behind are determined by the rule as it was and by which calls failed; a fatal end touches only its own rule and leaves the file equal to the store |
| Scheduler.AnswersWhenNothingFails | schedule/scx_agent_classed/src/scheduler.rs:517-614 | when nothing fails the answer is conflict, nothing to do or applied, by the rule alone, and the scheduler goes on |
| Scheduler.OnlyChangesTouch | schedule/scx_agent_classed/src/scheduler.rs:517-614 | in an agreeing scheduler a refused, conflicting or idle request touches nothing and never stops it; a change is answered as applied unless the final look fails; a stop is answered as a failure |
| Scheduler.SuccessIsVisible | schedule/scx_agent_classed/src/scheduler.rs:563-614 | what is answered as applied or as in place is in the map |
| Scheduler.CasStepKeepsHealth | schedule/scx_agent_classed/src/scheduler.rs:475-617 | every non-fatal request keeps map = effective table = persisted table, with any answer and any effect |
| Scheduler.EveryStateAgrees | schedule/scx_agent_classed/src/scheduler.rs:475-617 | in every run of requests, until one is fatal, every state has the map equal to the effective rules, the file equal to the store, and an even sequence |
| Scheduler.RestartIsHealthy | schedule/scx_agent_classed/src/scheduler.rs:185-225 | a scheduler restarted from the file that a fatal end leaves finds everything in agreement, with the rule at one of the two states |
| Scheduler.IntegrityIsOwnership | schedule/scx_agent_classed_mcp/src/provider.rs:625-631 | in an agreeing scheduler the provider's integrity check of a rule against its learned state holds exactly when no base rule owns the name |
| Scheduler.ObservationMatchesIff | schedule/scx_agent_classed/src/scheduler.rs:389-422 | in any scheduler an observation matches a state exactly when map, file and effective rules have its class and the file is the store's |
| Rules.KeyRoundTrip | schedule/scx_agent_classed/src/policy.rs:130-137 | a valid name comes back from its map key, a key gives a name exactly if it starts with it and a zero byte, and different names have different keys |
| Campaign.PhaseCost | bench/integrations/tuning_agent/scx_perf_treatment.py:375-391 | a pass over n rules costs exactly n revisions and 2n sequence steps and keeps agreement |
| Campaign.PhaseEffect | bench/integrations/tuning_agent/scx_perf_treatment.py:375-391 | a pass found the old state and leaves the new one on each named rule, and leaves every other rule alone |
| Campaign.ThereAndBack | bench/integrations/tuning_agent/scx_perf_treatment.py:375-391 | a pass and the pass back, in any two orders, restore the whole table |
| Campaign.GroupEpisode | bench/integrations/tuning_agent/scx_perf_treatment.py:375-391 | apply, restore, apply again: the baseline table comes back, then the candidate table, for exactly 3n revisions and 6n sequence steps |
| SeqLock.PublishedRuleIsSeen | schedule/scx_agent_classed/src/bpf/main.bpf.c:485-502 | publishing a rule gives the name its class, or the default again, and classifies no other name differently |
| SeqLock.SeqOfRepeats | schedule/scx_agent_classed/src/scheduler.rs:312-352 | two map versions share a 64-bit sequence number exactly when a multiple of 2^63 publications separates them |
| SeqLock.RunsKeepInv | schedule/scx_agent_classed/src/bpf/main.bpf.c:758-806 | in every interleaving of the publisher with any number of tasks, what a task has read is from one version while the sequence stands |
| SeqLock.PublicationIsThreeSteps | schedule/scx_agent_classed/src/scheduler.rs:312-352 | the three interleaved steps of a publication together do what PublishRule does |
| SeqLock.MapChangesOnlyWhileOdd | schedule/scx_agent_classed/src/scheduler.rs:312-352 | the map changes only while the sequence is odd; an even sequence counts all publications, failed ones included |
| SeqLock.ConfirmedClassIsOfOneVersion | schedule/scx_agent_classed/src/bpf/main.bpf.c:758-806 | a class a task confirmed is the class of its name in the one version its recorded sequence names |
| SeqLock.FastPathIsSound | schedule/scx_agent_classed/src/bpf/main.bpf.c:758-772 | a task that skips the lookup because its recorded sequence equals the current one has the class a new lookup would give, except an unclassified one during the update after exactly 2^63 - 2 publications |
| SeqLock.UnclassifiedNumberOccurs | schedule/scx_agent_classed/src/bpf/main.bpf.c:2179-2188 | below 2^63 publications the sequence is the number that stands for no classification during exactly that one update |
| Journal.Journal.Get | schedule/scx_agent_classed_mcp/src/journal.rs:254-256 | returns the stored record, and fails exactly when the journal cannot be read, is too long or is inconsistent |
| Journal.Journal.Begin | schedule/scx_agent_classed_mcp/src/journal.rs:258-274 | adds a started record under a new id and succeeds only when it is synced; under a known id it returns the record without saving, and only for the same kind and input |
| Journal.Journal.Complete | schedule/scx_agent_classed_mcp/src/journal.rs:276-291 | completes a started record once; a completed one is confirmed only with its own result |
| Journal.Journal.Replace | schedule/scx_agent_classed_mcp/src/journal.rs:320-366 | a journal over the limit is not written; otherwise the new contents are durable, visible or absent as the system calls end |
| Journal.SavedLoadsIff | schedule/scx_agent_classed_mcp/src/journal.rs:293-366 | what was saved loads again exactly when its encoding is shorter than the limit |
| Provider.StepKeepsInv | schedule/scx_agent_classed_mcp/src/provider.rs:310-474 | every step of calls, journal writes, connections, answers, crashes and other writers keeps the invariant, and every step but a crash of the host keeps records and completions |
| Provider.RunsKeepInv | schedule/scx_agent_classed_mcp/src/provider.rs:310-474 | hence every run does: versions of the file only grow, the socket is in order, and before the provider sends, reads back or completes it has heard of the end of everything sent before |
| ProviderSafety.EveryRuleChangeIsExplained | schedule/scx_agent_classed_mcp/src/provider.rs:394-474 | whenever a rule changes, another writer did it, or a journaled uncompleted operation moved it between exactly its two prepared states, from the state it was prepared against |
| ProviderSafety.DurableIsPermanent | schedule/scx_agent_classed_mcp/src/journal.rs:320-366 | whatever a synced save has recorded, kind, input and completion, is in the journal of every later state, through any crashes |
| ProviderSafety.InputOutlivesIffDurable | schedule/scx_agent_classed_mcp/src/journal.rs:258-274 | an operation keeps kind and input in all continuations exactly when some save since it was journaled was synced |
| ProviderSafety.RecordOutlivesIffSynced | schedule/scx_agent_classed_mcp/src/journal.rs:258-366 | a record, completion included, is kept in all continuations exactly when some save since its last change was synced |
| ProviderSafety.ChangeIsDurableIffSynced | schedule/scx_agent_classed_mcp/src/journal.rs:258-274 | a rule change stays explained by the journal in all continuations exactly when some save since its operation was journaled was synced |
| HostCrashes.MoveCanLoseItsRecord | schedule/scx_agent_classed_mcp/src/journal.rs:258-274 | a run: an unsynced start, its retry, a moved rule, a crash, and no record of who moved it |
| HostCrashes.ReceiptCanBeTakenBack | schedule/scx_agent_classed_mcp/src/journal.rs:276-291 | a run: an unsynced completion, a replay that confirms it to the caller, a crash, and the operation merely started |
| ProviderSafety.InputStays | schedule/scx_agent_classed_mcp/src/journal.rs:258-274 | between any two states of a run an operation keeps kind and input, if the host does not crash while it is journaled and not durable |
| ProviderSafety.JournalOnlyGrows | schedule/scx_agent_classed_mcp/src/journal.rs:258-291 | and, once completed, its whole record, if the host does not crash while that record is unsynced |
| ProviderSafety.CompletionNeverConflicts | schedule/scx_agent_classed_mcp/src/journal.rs:276-291 | no run reaches the error that an operation was completed differently |
| ProviderSafety.CompletedNeverSends | schedule/scx_agent_classed_mcp/src/provider.rs:394-474 | in every run, no compare-and-set of an operation the journal has as completed is under way |
| ProviderAnswers.StatusIsTruthful | schedule/scx_agent_classed_mcp/src/journal.rs:206-226 | the inferred state is unknown exactly without integrity or with the rule elsewhere, otherwise tells where the rule is, and is the completion exactly at the target |
| ProviderAnswers.FinishingWasSeen | schedule/scx_agent_classed_mcp/src/provider.rs:310-474 | in every step, an operation goes on to its completion only on a heard reading, with integrity, of its rule at the target |
| ProviderAnswers.SendingWasSeen | schedule/scx_agent_classed_mcp/src/provider.rs:430-452 | a request is prepared only on a preflight that showed the rule where the operation starts from |
| ProviderAnswers.ReadbackFollowsSuccess | schedule/scx_agent_classed_mcp/src/provider.rs:446-464 | the read-back begins only when the request was answered applied or no-op, with the rule at the target at that moment |
| ProviderAnswers.RefusalEndsCall | schedule/scx_agent_classed_mcp/src/provider.rs:446-457 | a failed or conflicting request ends the call without a receipt |
| ProviderAnswers.TargetIsAccepted | schedule/scx_agent_classed_mcp/src/provider.rs:310-474 | a reading that shows the target confirms a completed operation and takes any other on to its completion |
| ProviderAnswers.EveryReceiptIsHonest | schedule/scx_agent_classed_mcp/src/provider.rs:310-474 | in every run each step tells callers one thing at most: a verdict its reading shows, a completion just recorded, or unknown, about an operation not journaled or on a reading that does not show its target |
| ProviderAnswers.ReceiptsAreBacked | schedule/scx_agent_classed_mcp/src/provider.rs:310-474 | in every run a caller is told an operation took place only after a reading, with integrity, of its rule at the target since when nothing else was done; the journal then has it completed, and in all continuations exactly when some save since was synced |
| ProviderSafety.SchedulerServesAsAllowed | schedule/scx_agent_classed/src/scheduler.rs:475-617 | the scheduler's own compare-and-set is one of the ways of serving that the provider's machine allows |
| ProviderSafety.FatalEndServesAsAllowed | schedule/scx_agent_classed/src/scheduler.rs:475-617 | so is a fatal end, answered as a failure, with the rules a restarted scheduler finds |
| ProviderRetry.AttemptCompletes | schedule/scx_agent_classed_mcp/src/provider.rs:394-474 | from every state failed attempts can leave, with room in the journal, there is a run of the machine in which nothing fails and that completes |
| ProviderRetry.RetryConverges | schedule/scx_agent_classed_mcp/src/provider.rs:394-474 | through any run of failed, crashed and late attempts and host crashes the rule moves at most once, and whenever the provider is free and the journal has room a run leads on to completion after exactly one move in all |
| ProviderRetry.StatusConverges | schedule/scx_agent_classed_mcp/src/provider.rs:350-370 | after any such run that has moved the rule, a status call alone leads on to the completed operation and a told caller, whenever the journal has the operation and room |
| ProviderRetry.NoRoomNeverDone | schedule/scx_agent_classed_mcp/src/journal.rs:320-366 | and only then: without room, and with nothing else journaled, no run completes the operation |
| ProviderRetry.UnloadableIsStuck | schedule/scx_agent_classed_mcp/src/journal.rs:293-318 | with a journal that does not load, no run without a host crash adds a record, a connection or a receipt |
| ProviderRetry.FullJournalIsReached | schedule/scx_agent_classed_mcp/src/journal.rs:320-366 | from every reachable state in which the next record brings the journal to exactly the limit, a run leads there |
| LateRequests.SettledRuleStays | schedule/scx_agent_classed_mcp/src/provider.rs:394-474 | with the socket empty and no request in preparation, a rule stays through every run without calls for it or outside writes |
| LateRequests.CompletedRuleStays | schedule/scx_agent_classed_mcp/src/provider.rs:394-474 | from a completion on, every rule stays until the next call for it or the next outside write, whatever was abandoned before |
| LateRequests.AnswerSettles | schedule/scx_agent_classed_mcp/src/control.rs:42-97 | any answer heard settles every rule the provider is not about to send for |
| LateRequests.MovesByItselfIff | schedule/scx_agent_classed_mcp/src/control.rs:42-97 | while the provider is free, a rule can still move with nobody asking exactly when the oldest connection is an abandoned request for it that expects its present state |
| LateRequests.GivingUpLeavesDoubt | schedule/scx_agent_classed_mcp/src/control.rs:42-97 | giving up on an unserved request leaves such a rule |
| LateRequests.OneMoveUnderWay | schedule/scx_agent_classed/src/control.rs:93-114 | at most one compare-and-set is in the socket in any state of any run, and it is next |
| LateRequests.HearingEmptiesSocket | schedule/scx_agent_classed/src/control.rs:93-114 | when the provider hears an answer, nothing it sent before is left in the socket |
| Activation.BatchIsTheSmallest | schedule/scx_agent_classed/src/activation.rs:70-96 | a batch is the smallest pending names, as many as fit, in order; the rest stays |
| Activation.NothingIsLostOrStarved | schedule/scx_agent_classed/src/activation.rs:46-100 | in every run pending and in-flight names are disjoint and are exactly those still owed an activation, and a free batcher hands out a batch once any has waited long enough or a full batch is there |
| Activation.BatchLeavesExactlyWhenDue | schedule/scx_agent_classed/src/activation.rs:70-96 | in every run a batch leaves exactly when nothing is in flight, something is pending, and it fills a batch or the coalescing time has passed since the pending set last stopped being empty |
| Activation.ActivationBatcher.Observe | schedule/scx_agent_classed/src/activation.rs:46-57 | the new state is the specified one |
| Activation.ActivationBatcher.RemovePending | schedule/scx_agent_classed/src/activation.rs:59-64 | the new state is the specified one |
| Activation.ActivationBatcher.TakeReady | schedule/scx_agent_classed/src/activation.rs:70-96 | the batch and the new state are the specified ones |
| Activation.ActivationBatcher.Finish | schedule/scx_agent_classed/src/activation.rs:98-100 | returns and clears the in-flight batch |
| Notifier.OneActivationAtATime | schedule/scx_agent_classed/src/activation.rs:129-182 | in every interleaving at most one activation is outstanding, it is the in-flight batch, neither channel is full when it is sent to, and no completion comes unasked |
| Notifier.EveryActivationCanFinish | schedule/scx_agent_classed/src/scheduler.rs:689-730 | wherever an activation is, a run leads to its end with the batcher free and nothing pending lost |
| Notifier.ReadyBatchIsSent | schedule/scx_agent_classed/src/scheduler.rs:732-779 | collecting sends a ready batch and nothing else |
| ResourcePool.SelectGroups | bench/scripts/run.py:347-393 | the fewest groups from the front that reach the request, and their width |
| ResourcePool.DropSelected | bench/scripts/run.py:347-393 | filtering by membership leaves exactly the rest of the list |
| ResourcePool.UniformGroupsAlwaysFit | bench/scripts/run.py:347-393 | with groups of one width and a multiple of it asked for, the answer depends on the amounts alone |
| ResourcePool.HostResourcePool.Allocate | bench/scripts/run.py:347-393 | grants exactly the CPUs and memory asked for from the front, or changes nothing and tells busy from impossible |
| ResourcePool.HostResourcePool.Release | bench/scripts/run.py:395-406 | puts the groups and memory back, sorted, with the multiset restored |
| PairScheduler.ConservedIsApart | bench/scripts/run.py:457-506 | when free and running resources add up to the host, running pairs share no core group and fit the memory |
| PairScheduler.IdlePoolIsFull | bench/scripts/run.py:395-406 | a pool with nothing running is the very list it started as |
| PairScheduler.UniformHostNeverMismatches | bench/scripts/run.py:347-393 | on a host of one group width no reachable state refuses a multiple of it for a mismatch |
| PairScheduler.PopAllocatable | bench/scripts/run.py:509-520 | takes the first pending pair that fits; finding none means every one is too big for what is free, or the pool refused one |
| PairScheduler.RunPairsParallel | bench/scripts/run.py:457-506 | the loop ends; on success every pair ran exactly once, none failed, and the pool is as before; it stops at the first failed pair; it gives up for lack of resources only with the whole host free and every waiting pair too big for it, and for a mismatch only when the pool refuses a waiting pair, never on a host of one width; its boards lead from start to end by single launches and finishes, with the running pairs apart, on the host's own groups, on every one, and it waits only when no waiting pair could be started |
| PairScheduler.RanWasRunning | bench/scripts/run.py:457-506 | whatever is recorded as having run was running on an earlier board |
| GuestExecutor.Executor.CheckScheduler | bench/core/guest_executor.py:615-635 | fails exactly when the scheduler died by this look |
| GuestExecutor.Executor.RunCommand | bench/core/guest_executor.py:679-746 | pass, failure and timeout and the recorded return code, for every behaviour of the command |
| GuestExecutor.Executor.StopScheduler | bench/core/guest_executor.py:637-677 | succeeds exactly when there is nothing to stop or it stopped cleanly and had not died unnoticed, and records which |
| GuestExecutor.Executor.Phases | bench/core/guest_executor.py:389-436 | reports the first failure in the order of the phases; the measurement starts only after a good treatment and warm-up with the scheduler alive |
| GuestExecutor.Executor.Finalize | bench/core/guest_executor.py:901-927 | a bad stop spoils a pass and nothing else; an unwritable result spoils everything |
| GuestExecutor.Executor.Run | bench/core/guest_executor.py:389-449 | the one status that explains the run, for every plan and every guest; exit code zero exactly for a successful run, 124 for timeouts, the failed command's own code, else 125; waiting stays within the host's allowance |
| GuestExecutor.StatusMeans | bench/core/guest_executor.py:389-531 | each status is reported exactly when its part failed and every part before it went well |
| GuestExecutor.ExplanationsExclude | bench/core/guest_executor.py:389-531 | no run has two explanations |
| GuestExecutor.PassIffSuccessful | bench/core/guest_executor.py:389-449 | the ordered verdict is a pass exactly when every planned part, taken in no order, succeeded |
| GuestExecutor.CodeOf | bench/core/guest_executor.py:981-994 | the code fits a byte, is zero exactly for a pass, 124 for timeouts, and otherwise the recorded code or 125 |
| GuestExecutor.AllowanceIsEnough | bench/core/guest_plan.py:103-120 | no run waits longer than the host timeout, and the timeout is reached exactly when every command uses its limit |
| RedisWeight.OperationStore.Begin | bench/scenarios/redis_cpu/mcp_server.py:646-675 | a new id is recorded as started; a known one is returned only for the same kind and change |
| RedisWeight.OperationStore.Complete | bench/scenarios/redis_cpu/mcp_server.py:677-690 | completes once, and confirms only the same result |
| RedisWeight.RunsKeepInv | bench/scenarios/redis_cpu/mcp_server.py:406-491 | every run of requests, readings, writes, crashes and other writers keeps each call backed by a started record |
| RedisWeight.OperationsOnlyGrow | bench/scenarios/redis_cpu/mcp_server.py:638-690 | through crashes of the process, records are never lost or rewritten and a result is given once |
| RedisWeight.EveryWriteIsBacked | bench/scenarios/redis_cpu/mcp_server.py:406-491 | the provider writes only for a recorded, uncompleted apply or restore, after reading that change's other value |
| RedisWeight.CompletedWasInPlace | bench/scenarios/redis_cpu/mcp_server.py:406-491 | a result is recorded only by a call whose target was found in place |
| RedisWeight.InPlaceWasSeen | bench/scenarios/redis_cpu/common.py:152-160 | which means by its first reading, or by reading its own write back |
| RedisWeight.WhatAWriteReplaces | bench/scenarios/redis_cpu/mcp_server.py:406-420 | a write replaces what was read, or else the last value another program wrote since |
| RedisWeight.OutsideWriteCanBeLost | bench/scenarios/redis_cpu/mcp_server.py:406-420 | any foreign weight written between reading and writing is lost without an error |
| RedisWeight.StatusIsTruthful | bench/scenarios/redis_cpu/mcp_server.py:422-445 | a status call says what is true of the record and the weight |
| RedisWeight.EveryReceiptIsHonest | bench/scenarios/redis_cpu/mcp_server.py:406-548 | in every run each step tells one thing at most: a true status, a completed operation whose weight is still in place, or a completion found in place |
| RedisWeight.AttemptEnds | bench/scenarios/redis_cpu/mcp_server.py:406-491 | one undisturbed attempt at a proper operation, from any reachable state, completes and confirms it at the target, or leaves the weight alone, the operation begun and the caller without a receipt, exactly by the weight it finds and the injected failure; a completed operation is confirmed exactly while its weight is in place |
| RedisWeight.TrialIsTruthful | bench/scenarios/redis_cpu/mcp_server.py:406-491 | undisturbed, with any retries and crashes, the weight is always one of the two values, and the record of a completed apply or restore tells which |
| RedisWeight.RestoreEndsAtBaseline | bench/scenarios/redis_cpu/mcp_server.py:461-477 | after any such history one full restore attempt ends at the baseline, recorded, exactly when restores are not set to fail |
| RedisWeight.ApplyEndsAtDesired | bench/scenarios/redis_cpu/mcp_server.py:406-420 | and before any restore, one full apply attempt ends at the desired weight, recorded and confirmed |
| RedisMeasurement.LoadGenerator.RunRound | bench/scenarios/redis_cpu/loadgen.py:83-107 | the ring holds the last 32 rounds without gaps, each sample carries what the last sound round up to it measured, and the generator is ready exactly when three sound rounds have come in a row |
| RedisMeasurement.Borrow | bench/scenarios/redis_cpu/loadgen.py:92-97 | borrowed metrics only ever reach the newest sample, which stays invalid |
| RedisMeasurement.Session.Poll | bench/scenarios/redis_cpu/mcp_server.py:271-289 | serves the oldest new sample that began after the session was opened, or shows there is none |
| RedisMeasurement.Session.TakeSample | bench/scenarios/redis_cpu/mcp_server.py:251-333 | serves the first offer whenever there is one; a batch is valid exactly when that sample counts and is complete; sequence numbers of valid batches strictly increase; the exact cases of failure |
| RedisMeasurement.OfferedIffHeld | bench/scenarios/redis_cpu/mcp_server.py:271-289 | with one load generator behind all polls, there is an offer exactly when some poll, all before it readable, holds a new sample begun after the opening |
| RedisMeasurement.CountsIff | bench/scenarios/redis_cpu/mcp_server.py:293-333 | a sample counts exactly when its round was sound, at the session's weight and workload, and is not too old |
| RedisMeasurement.Fallback | bench/scenarios/redis_cpu/mcp_server.py:335-370 | serves the newest valid complete sample as an invalid batch, and fails exactly when there is none |
| RedisMeasurement.ValidBatchIsGenuine | bench/scenarios/redis_cpu/mcp_server.py:293-333 | a valid batch is one whole round, begun after the opening, at the session's weight and workload at both ends, with its own metrics |
| RedisMeasurement.NextRoundIsServedIffKept | bench/scenarios/redis_cpu/mcp_server.py:271-289 | the next eligible round is the one served exactly when the ring still holds it |
| RedisMeasurement.NoneIsPassedOverLater | bench/scenarios/redis_cpu/mcp_server.py:284-288 | rounds are passed over only at the start of a session |
| Pieces.JoinOfSplit | schedule/scx_agent_classed_mcp/src/rpc.rs:72-112 | cutting a stream at newlines loses nothing |
| Pieces.SplitOfJoin | schedule/scx_agent_classed_mcp/src/rpc.rs:72-112 | and is the only such cutting |
| Frames.FirstFrame | schedule/scx_agent_classed_mcp/src/rpc.rs:72-112 | one read takes exactly the first frame off the stream's frames |
| Frames.ReadBoundedFrame | schedule/scx_agent_classed_mcp/src/rpc.rs:72-112 | the first frame of what is left, or too large, however the bytes arrive; the rest stays |
| Frames.ReadAll | schedule/scx_agent_classed_mcp/src/rpc.rs:13-44 | repeated reads give all frames of the stream in order, independent of arrival, or a prefix if it breaks |
| Frames.LinesComeBack | schedule/scx_agent_classed_mcp/src/rpc.rs:72-112 | what is sent line by line comes back line by line without its endings, with lines over the limit marked in their place |
| WorkloadDigest.CanonicalTargets | schedule/scx_agent_classed_mcp/src/provider.rs:684-696 | accepts exactly the lists of valid, different names in range, and returns their sorted arrangement |
| WorkloadDigest.CanonicalWorkload | schedule/scx_agent_classed_mcp/src/workload.rs:192-223 | feeds the hasher the preimage, update by update |
| WorkloadDigest.SameBytesIffSameWorkload | schedule/scx_agent_classed_mcp/src/workload.rs:192-223 | two workloads hash the same bytes exactly when targets with classes and tasks are the same, in any order |
| WorkloadDigest.Fingerprint | schedule/scx_agent_classed_mcp/src/workload.rs:32-140 | a scan succeeds exactly when everything is readable, within limits and every target is alive; it then covers each live matching task once |
| WorkloadDigest.SameFingerprintIffSameTasks | schedule/scx_agent_classed_mcp/src/workload.rs:32-140 | two scans hash the same bytes exactly when they were for the same targets and saw the same tasks |
| CpuList.FormatCpuList | bench/core/runner.py:1575-1587 | writes the unique decomposition into maximal runs |
| CpuList.MaximalIsUnique | bench/core/runner.py:1575-1587 | a list has one such decomposition |
| CpuList.ParseCpuList | bench/core/config.py:752-774 | computes the meaning of the text, with every malformed part and every repetition refused |
| CpuList.SpacesAreIgnored | bench/core/config.py:754-756 | white space around a part does not matter |
| CpuList.RoundTrip | bench/core/config.py:752-774 | a formatted list parses to itself, in its own order, exactly when it is not empty and repeats nothing, and is refused otherwise |
| CpuList.Reformat | bench/core/runner.py:1575-1587 | reformatting any accepted text keeps its meaning |
| CpuMask.FormatCpuMask | bench/env/isolation.py:389-400 | writes the mask of the list in groups of eight digits |
| CpuMask.ParseCpuMask | bench/core/runner.py:1500-1515 | returns exactly the bit positions of the number the text stands for, unless that number is negative |
| CpuMask.PrefixIsIgnored | bench/core/runner.py:1500-1507 | a hexadecimal prefix changes nothing |
| CpuMask.SignIsRead | bench/core/runner.py:1500-1507 | a sign is read and a minus negates |
| CpuMask.UnderscoresAreIgnored | bench/core/runner.py:1500-1507 | underscores do not count |
| CpuMask.NegativeNeverEnds | bench/core/runner.py:1508-1514 | shifting never brings a negative number to zero, so on such a text the loop does not end |
| CpuMask.MinusOneIsRead | bench/core/runner.py:1500-1507 | such a text exists |
| CpuMask.NumberOfFormat | bench/env/isolation.py:389-400 | a formatted mask reads back as the same number, of any size |
| CpuMask.RoundTrip | bench/core/runner.py:1500-1515 | what is read back from a formatted list is exactly the set of its CPUs |
| CpuMask.SameTextIffSameCpus | bench/env/isolation.py:389-400 | two lists are written alike exactly when they have the same CPUs |

## Left out

- The scheduling policy of the BPF program beyond classification, and its statistics.
- The tuning agent: model dialogue, decision engine, transaction kernel and its journal.
- JSON, JSON-RPC and MCP message formats, schema checks and SHA-256; the digest is modelled up to the bytes hashed.
- Checks of a prepared mutation's identifiers, pins and digests are one flag, and a change that fails them has no effect.
- More than one provider process on one journal or socket: the source does not lock against that, and neither does the model.
- What a host crash does to the scheduler's own rule file: a rule it takes back is an outside write in the provider's model.
- UTF-8: names are bytes; Unicode digits and white space beyond ASCII are not modelled in the CPU formats.
- Building and booting guests, perf collection, report rendering and statistics.
- Rules.RuleStore.Open: the document's syntax and the creation of directories are not modelled; a missing file is an empty document.
- Scheduler.Server.PublishRule: a BPF call that reports an error is taken to have changed nothing.
- Scheduler.Server.CompareAndSet: at a fatal end it is not said which of the two states the store holds. Dropping the recorded miss of a rule after the change is not modelled, since no answer depends on it.
- SeqLock.ConfirmedClassIsOfOneVersion: stands for fewer than 2^63 publications in one scheduler's life; `SeqOfRepeats` shows why.
- Activation.NothingIsLostOrStarved: is about times that do not decrease, as a monotonic clock gives; a backward step counts as no time elapsed.
- PairScheduler.RunPairsParallel: threads are modelled by the order in which pairs finish, and which pairs fail is a parameter; the dry-run path without a pool is not modelled.
- ResourcePool.HostResourcePool.Allocate: reading the topology and parsing memory sizes are not modelled.
- GuestExecutor.Executor.Run: the seconds spent killing process groups are not counted; the host's extra seconds are there for them. Preparing the output and collecting metadata are one step, and what the snapshots contain is not modelled.
- RedisWeight.EveryWriteIsBacked: the live-workload and inode checks are not modelled; a request that fails them has no effect.
- RedisMeasurement.Session.TakeSample: the age of a sample is compared in whole nanoseconds rather than as a floating-point number of milliseconds.
- WorkloadDigest.Fingerprint: whether the time limit passed during a scan is a parameter.
- RedisWeight.OperationsOnlyGrow: the operation store is replaced without any sync, so a crash of the host may lose records; only crashes of the process are modelled.
- CpuMask.ParseCpuMask: a loop that never ends is modelled as a result of its own; digits beyond ASCII are not modelled.
- ProviderRetry.NoRoomNeverDone: with other operations journaled in between, room may be gained or lost, depending on the encoding, which is a parameter.
- Journal.SavedLoadsIff: the encoding's length is any function of the journal; that a journal of exactly the limit exists is not shown for JSON.
