# Verified models of the Brioche runtime

This project models the stateful core of Brioche in Dafny and proves what it
guarantees over every input, every run and every interleaving. `dafny verify
dfyconfig.toml` checks all of it.

| file | component |
|---|---|
| `ExtensionModel.dfy` | value semantics of the typed extension storage, the three copy-on-write guards and the hook driver |
| `ExtensionObjects.dfy` | the same components as objects that update their fields in place, each method proved equal to the value semantics |
| `StorageViews.dfy` | what a type reads as after each storage operation and over runs of them |
| `RollbackTheorems.dfy` | what rollback guarantees over every sequence of storage operations, for all three guards at once |
| `GuardBudgets.dfy` | which thresholds the guards obey, and the adaptive guard against the plain one |
| `UiComposer.dfy` | the frame scheduler and the UI performance policy |
| `RateLimiter.dfy`, `StreamBatch.dfy` | the lock-free rate limiter as an interleaving state machine, and the batch emitter |
| `Sse.dfy`, `Utf8.dfy`, `SseBytes.dfy` | the incremental server-sent-events parser on text, lossy UTF-8 decoding, and the parser on byte chunks |
| `Settings.dfy` | the dotted-path settings tree |
| `SessionHead.dfy` | session head conversion, and what a reload reads after any run of storage operations or hooks |
| `Broker.dfy` | the lexicographic aggregator and the negotiation broker |
| `SaveProtocol.dfy` | background saves and shutdown as an interleaving state machine |
| `Telemetry.dfy`, `TelemetryPlugin.dfy`, `TelemetryLedger.dfy`, `TelemetryHooks.dfy` | rollback telemetry over its event stream, the plugin on the storage, the books it keeps, and telemetry run inside driven hooks |
| `Watchdog.dfy` | watchdog backoff arithmetic and the recovery loop |

Modelling decisions. The type parameter of a storage access is a `TypeId`, and
what the derive macro generates for a type is a `VTable` of total functions; a
mutable reference handed to a plugin is represented by the value finally
written through it. Clocks, JSON parsing, blob codecs and the delays of the
environment are parameters. A chain of `&mut` borrows into the settings tree is
a path into it. Relaxed atomic loads may return any earlier value of the
modification order. `u8` and `u32` counters wrap where a run can reach their
end (broker phase, watchdog recoveries); in a build with overflow checks those
points panic instead.

Where the code and its documentation disagree, the model follows the code:

- Rollback on budget overrun (`docs/SPECS.md:1225`). A guard drops a snapshot
  that would pass the budget without charging it, so the driver rolls back
  exactly when the charged weight equals the budget
  (`DriverRollsBackExactlyWhenFull`, `OverBudgetHookCommits`). It follows that a
  rollback event always reports an exceeded budget and telemetry never counts a
  restoration (`RestoredCountStaysZero`). The `PluginFault` promised after a
  rollback (`docs/SPECS.md:1225`) is not emitted by the driver, and the model's
  driver emits none either.
- "Sort pending effects by priority" before costs accumulate
  (`crates/runtime/brioche-shell-projection/src/ui_composer.rs:137`). Costs
  accumulate in arrival order, so a frame can show a cosmetic effect while a
  navigation effect waits (`CosmeticBeforeNavigation`); it cannot exactly when the
  queue already stands in priority order (`NeverInvertsIff`).
- "At most one event per frame budget window"
  (`crates/runtime/brioche-shell-projection/src/ipc_command.rs:197`). A task
  that loses the exchange still emits, so two events can go out at the same time
  (`TwoTasksEmitInOneWindow`). An interleaving keeps the promise, as a distance
  in time, under all clock readings exactly when it can lose no exchange
  (`ScheduleKeepsPromiseIff`), which callers can see from the interleaving alone:
  every load is fresh and no other exchange comes between a call's load and its
  exchange (`PromiseIffIsolated`).
- Each chunk of a stream is decoded on its own, so a chunk boundary inside a
  multi-byte character changes the text (`AllReadersAgreeIff`,
  `CutCharacterIsLost`).
- A shutdown that runs beside another can return before saves it should wait
  for are finished, exactly when the other one took them first
  (`ShutdownWaitsIff`, `SecondShutdownDoesNotWait`).
- Telemetry drains the event log inside a hook that may itself be rolled back;
  exactly when the budget splits the two values it touches, events are counted
  twice or lost (`EveryEventBookedOnceIff`, `EventsCanBeCountedTwice`,
  `EventsCanBeLost`).
- Rollback does not reach persisted blobs: a value inserted in a rolled-back
  hook comes back with the next reload (`InsertOutlivesRollback`,
  `HookIsInvisibleToReloadIff`).

## Model

| member | source | states |
|---|---|---|
| `RollbackTheorems.HookInvariant` | crates/kernel/brioche-governance-default/src/rollback.rs:94-130 | At every point of every hook the guard's frame, weights and seen-set are determined by the first accesses made so far, and the storage's and the guard's snapshotted sets agree |
| `RollbackTheorems.TouchIsFirstAccess` | crates/kernel/brioche-core/src/extension.rs:554-569 | The touch recorded for a type is its view just before its first notified access in the hook; types never notified have none |
| `RollbackTheorems.FrameInvariant` | crates/kernel/brioche-governance-default/src/rollback.rs:94-130 | In every reachable frame each type occurs at most once, each bucket's running weight is the weight of its snapshots and never passes the budget |
| `RollbackTheorems.CriticalIsKept` | crates/kernel/brioche-governance-default/src/rollback.rs:94-130 | Critical touches are always in the frame, whatever the budget |
| `RollbackTheorems.AllKeptWhenFitting` | crates/kernel/brioche-governance-default/src/rollback.rs:239-283 | A touched type is in the frame if its own bucket has room for everything charged to it, however full the other bucket is |
| `RollbackTheorems.RestoreLookup` | crates/kernel/brioche-governance-default/src/rollback.rs:145-162 | Writing the frame back gives each type its snapshot and leaves all other hot values alone |
| `RollbackTheorems.RollbackOutcome` | crates/kernel/brioche-governance-default/src/rollback.rs:145-162 | For any operations, inserts, hydration and eviction included: after rollback every kept type has its snapshot, every other type and the whole cold map are as the body left them |
| `RollbackTheorems.CommitOutcome` | crates/kernel/brioche-governance-default/src/rollback.rs:132-143 | Commit keeps every view and the cold map the body produced |
| `RollbackTheorems.CriticalTypesRollBack` | crates/kernel/brioche-governance-default/src/rollback.rs:300-320 | A critical type returns to the view it had just before its first notified access, whatever else the hook did |
| `RollbackTheorems.RollbackRestoresHookStart` | crates/kernel/brioche-core/src/extension.rs:389-454 | For hooks that use only the notifying accessors: untouched types, critical types, and every snapshot type whose own bucket has room for what is charged to it return to their hook-start view, cold or default ones included; the cold map is unchanged |
| `RollbackTheorems.RollbackIsBestEffort` | crates/kernel/brioche-governance-default/src/rollback.rs:461-479 | Otherwise each type ends at exactly its hook-start view (if kept) or the last value written |
| `RollbackTheorems.DriverRollsBackExactlyWhenFull` | crates/kernel/brioche-core/src/engine/transition_support.rs:160-189 | The driver rolls back if and only if a bucket in use is charged up to exactly its budget |
| `RollbackTheorems.OverBudgetHookCommits` | crates/kernel/brioche-governance-default/src/rollback.rs:164-166 | A hook whose only touch outweighs a positive budget is committed |
| `RollbackTheorems.DrivenHookLogsOneEvent` | crates/kernel/brioche-governance-default/src/rollback.rs:132-162 | Every driven hook appends exactly one event, with its charged weight; it reports a rollback if and only if it reports an exceeded budget |
| `RollbackTheorems.DrivenHookKeepsValid` | crates/kernel/brioche-core/src/engine/transition_support.rs:160-189 | Hot types stay registered from hook to hook |
| `GuardBudgets.KeptByThreshold` | crates/kernel/brioche-governance-default/src/rollback.rs:94-130 | Written out for the three guards: one more touch is kept exactly if its type is critical or its weight fits what is left of the flat, adaptive, standard or best-effort threshold for its strategy |
| `GuardBudgets.GuardsObeyThresholds` | crates/kernel/brioche-governance-default/src/rollback.rs:239-283 | At the end of every hook no threshold is passed, and the driver rolls back exactly if one is met: full plus incremental clones against the flat or adaptive budget, each against its own in the tiered guard |
| `GuardBudgets.AdaptiveIsPlain` | crates/kernel/brioche-governance-default/src/rollback.rs:385-391 | For every storage, hook and operations an adaptive guard without a policy ends the hook as the plain guard with the fallback as threshold, and one with a policy as the plain guard with the policy's budget for the hook |
| `StorageViews.ColdReads` | crates/kernel/brioche-core/src/extension.rs:424-440 | A type that is not hot reads as its decoded blob, or as its default without one that decodes |
| `StorageViews.InsertReads` | crates/kernel/brioche-core/src/extension.rs:339-363 | After a successful insert the type reads as the inserted value, hot before or not; a failed one changes nothing it reads; an insert fails exactly when a persisted type does not serialize |
| `StorageViews.InsertFrames` | crates/kernel/brioche-core/src/extension.rs:339-363 | Types with another extension id read as before |
| `StorageViews.InsertPersists` | crates/kernel/brioche-core/src/extension.rs:348-351 | The blob left is the value's serialization, except for types that are not persisted |
| `StorageViews.RegisterMakesKnown` | crates/kernel/brioche-core/src/extension.rs:312-321 | A registered type's extension id leads to it |
| `StorageViews.HydrateReads` | crates/kernel/brioche-core/src/extension.rs:471-485 | The type of a known extension id reads as the decoded blob or the default, hot before or not; an unknown id changes nothing |
| `StorageViews.EvictReads` | crates/kernel/brioche-core/src/extension.rs:581-587 | An evicted type falls back to its blob or default; nothing else changes |
| `StorageViews.AccessReads` | crates/kernel/brioche-core/src/extension.rs:389-454 | A write through either mutable accessor is what the type then reads as; get_mut reaches only hot types |
| `StorageViews.RunReadsLastGiven` | crates/kernel/brioche-core/src/extension.rs:339-454 | Read your writes: over every run of inserts and accesses a type reads as the last value inserted or written |
| `ExtensionObjects.UndoFrameGuard.constructor` | crates/kernel/brioche-governance-default/src/rollback.rs:67-74 | A guard with its thresholds and no frame |
| `ExtensionObjects.UndoFrameGuard.BeginHook` | crates/kernel/brioche-governance-default/src/rollback.rs:88-92 | Opens an empty frame with zero weights and an empty seen-set |
| `ExtensionObjects.UndoFrameGuard.OnMutation` | crates/kernel/brioche-governance-default/src/rollback.rs:94-130 | Updates frame, weights and seen-set in place as the value semantics does, for each strategy and budget |
| `ExtensionObjects.UndoFrameGuard.IsBudgetExceeded` | crates/kernel/brioche-governance-default/src/rollback.rs:164-166 | True exactly when a bucket's charged weight has reached its budget |
| `ExtensionObjects.UndoFrameGuard.CommitHook` | crates/kernel/brioche-governance-default/src/rollback.rs:132-143 | Logs the commit event and discards the frame |
| `ExtensionObjects.UndoFrameGuard.RollbackHook` | crates/kernel/brioche-governance-default/src/rollback.rs:145-162 | Writes every snapshot back, logs the rollback event and discards the frame |
| `ExtensionObjects.TieredUndoFrameGuard.constructor` | crates/kernel/brioche-governance-default/src/rollback.rs:209-218 | A guard with its thresholds and no frame |
| `ExtensionObjects.TieredUndoFrameGuard.BeginHook` | crates/kernel/brioche-governance-default/src/rollback.rs:232-237 | Opens an empty frame with zero weights and an empty seen-set |
| `ExtensionObjects.TieredUndoFrameGuard.OnMutation` | crates/kernel/brioche-governance-default/src/rollback.rs:239-283 | Updates frame, weights and seen-set in place as the value semantics does, for each strategy and budget |
| `ExtensionObjects.TieredUndoFrameGuard.IsBudgetExceeded` | crates/kernel/brioche-governance-default/src/rollback.rs:322-325 | True exactly when a bucket's charged weight has reached its budget |
| `ExtensionObjects.TieredUndoFrameGuard.CommitHook` | crates/kernel/brioche-governance-default/src/rollback.rs:285-298 | Logs the commit event and discards the frame |
| `ExtensionObjects.TieredUndoFrameGuard.RollbackHook` | crates/kernel/brioche-governance-default/src/rollback.rs:300-320 | Writes every snapshot back, logs the rollback event and discards the frame |
| `ExtensionObjects.AdaptiveUndoFrameGuard.constructor` | crates/kernel/brioche-governance-default/src/rollback.rs:366-383 | A guard with its thresholds and no frame |
| `ExtensionObjects.AdaptiveUndoFrameGuard.BeginHook` | crates/kernel/brioche-governance-default/src/rollback.rs:404-409 | Opens an empty frame with zero weights and an empty seen-set |
| `ExtensionObjects.AdaptiveUndoFrameGuard.EffectiveMax` | crates/kernel/brioche-governance-default/src/rollback.rs:385-390 | The policy's budget for the current hook if there is a policy, else the fallback |
| `ExtensionObjects.AdaptiveUndoFrameGuard.OnMutation` | crates/kernel/brioche-governance-default/src/rollback.rs:411-446 | Updates frame, weights and seen-set in place as the value semantics does, for each strategy and budget |
| `ExtensionObjects.AdaptiveUndoFrameGuard.IsBudgetExceeded` | crates/kernel/brioche-governance-default/src/rollback.rs:481-483 | True exactly when a bucket's charged weight has reached its budget |
| `ExtensionObjects.AdaptiveUndoFrameGuard.CommitHook` | crates/kernel/brioche-governance-default/src/rollback.rs:448-459 | Logs the commit event and discards the frame |
| `ExtensionObjects.AdaptiveUndoFrameGuard.RollbackHook` | crates/kernel/brioche-governance-default/src/rollback.rs:461-479 | Writes every snapshot back, logs the rollback event and discards the frame |
| `ExtensionObjects.ExtensionStorage.Register` | crates/kernel/brioche-core/src/extension.rs:312-321 | Adds the vtable and the extension-id index entry |
| `ExtensionObjects.ExtensionStorage.Insert` | crates/kernel/brioche-core/src/extension.rs:339-363 | Persists the blob and then the hot value, or neither after a serialization error; does not notify the policy |
| `ExtensionObjects.ExtensionStorage.Get` | crates/kernel/brioche-core/src/extension.rs:372-380 | An answer is the type's view; there is none exactly when the view would first have to be decoded or defaulted into memory |
| `ExtensionObjects.ExtensionStorage.NotifyCowOnFirstMutation` | crates/kernel/brioche-core/src/extension.rs:554-569 | Hands the current value to the attached policy once per hook and type |
| `ExtensionObjects.ExtensionStorage.GetMut` | crates/kernel/brioche-core/src/extension.rs:389-398 | Notifies, then reaches the value only if it is hot |
| `ExtensionObjects.ExtensionStorage.GetOrInsertDefault` | crates/kernel/brioche-core/src/extension.rs:415-454 | Registers, materialises from blob or default, then notifies |
| `ExtensionObjects.ExtensionStorage.HydratePlugin` | crates/kernel/brioche-core/src/extension.rs:471-485 | Installs blob and decoded (or default) value for a known extension id, else changes nothing |
| `ExtensionObjects.ExtensionStorage.RestoreColdSnapshot` | crates/kernel/brioche-core/src/extension.rs:511-513 | Replaces the cold map and nothing else |
| `ExtensionObjects.ExtensionStorage.AttachRollbackPolicy` | crates/kernel/brioche-core/src/extension.rs:522-525 | Attaches the policy and clears the hook's seen-set |
| `ExtensionObjects.ExtensionStorage.DetachRollbackPolicy` | crates/kernel/brioche-core/src/extension.rs:534-537 | Returns the attached policy and clears the seen-set |
| `ExtensionObjects.ExtensionStorage.RestoreBoxed` | crates/kernel/brioche-core/src/extension.rs:549-551 | Overwrites the hot value without notification and without touching blobs |
| `ExtensionObjects.ExtensionStorage.EvictFromHot` | crates/kernel/brioche-core/src/extension.rs:581-587 | Removes the hot value and reports whether there was one |
| `ExtensionObjects.WithRollback` | crates/kernel/brioche-core/src/engine/transition_support.rs:160-189 | The driver in place, with or without a policy of its own and whatever guard is attached already: the body runs under the policy (or the attached guard), which is then taken back and rolls back or commits |
| `UiComposer.Composer.WithBudget` | crates/runtime/brioche-shell-projection/src/ui_composer.rs:88-94 | An empty composer with the standard costs |
| `UiComposer.Composer.SetFrameBudget` | crates/runtime/brioche-shell-projection/src/ui_composer.rs:102-104 | Changes the budget and nothing else |
| `UiComposer.Composer.Enqueue` | crates/runtime/brioche-shell-projection/src/ui_composer.rs:121-130 | Appends a UI effect with its tier and age 0; other effects are ignored |
| `UiComposer.Composer.ComposeFrame` | crates/runtime/brioche-shell-projection/src/ui_composer.rs:145-190 | The draining loop and the sort: returns the sorted chosen effects and leaves the retained ones |
| `UiComposer.ProcessEffects` | crates/runtime/brioche-shell-projection/src/ui_performance_policy.rs:71-85 | Queues UI effects, composes one frame, and returns the other effects in order followed by the frame |
| `UiComposer.BatchOfOne` | crates/runtime/brioche-shell-projection/src/ui_performance_policy.rs:74-80 | An effect of a batch either passes through or joins the end of the queue at age 0 |
| `UiComposer.BatchAppend` | crates/runtime/brioche-shell-projection/src/ui_performance_policy.rs:74-80 | Batches are taken in order: other effects keep their order, UI effects join the queue one after the other |
| `UiComposer.TiersWrittenOut` | crates/runtime/brioche-shell-projection/src/ui_composer.rs:230-269 | Which widgets make up the text, navigation and semantic tiers; the rest is cosmetic |
| `UiComposer.StandardFrame` | crates/runtime/brioche-shell-projection/src/ui_composer.rs:145-190 | A standard frame has text before navigation before semantic before cosmetic effects, and one, two and three units for the last three add up to at most the budget |
| `UiComposer.StandardWait` | crates/runtime/brioche-shell-projection/src/ui_composer.rs:153-168 | An entry waits exactly if it is no text, not an over-aged cosmetic one, and its one, two or three units on top of what was spent before it pass the budget |
| `UiComposer.SortIsStable` | crates/runtime/brioche-shell-projection/src/ui_composer.rs:173-189 | The frame keeps the order of effects within each tier |
| `UiComposer.StableSortIsUnique` | crates/runtime/brioche-shell-projection/src/ui_composer.rs:173-189 | A tier-sorted sequence with the same per-tier subsequences is the frame: the sort is determined |
| `UiComposer.FrameIsGood` | crates/runtime/brioche-shell-projection/src/ui_composer.rs:145-190 | Every frame is tier-sorted and costs at most the budget, and the queue stays well formed |
| `UiComposer.FrameSplitsTier` | crates/runtime/brioche-shell-projection/src/ui_composer.rs:145-171 | In one frame, the chosen effects of a non-cosmetic tier followed by the retained ones are exactly the queued ones in order |
| `UiComposer.RunConserves` | crates/runtime/brioche-shell-projection/src/ui_composer.rs:121-190 | Over every run of enqueues, budget changes and frames: emitted then pending equals enqueued for text, navigation and semantic; for cosmetic only effects aged more than 3 frames are missing |
| `UiComposer.MovedTracksEntry` | crates/runtime/brioche-shell-projection/src/ui_composer.rs:145-171 | The place function follows one queue entry through a frame: it is the retained entry at that place, one frame older, or the chosen effect or dropped entry at that place |
| `UiComposer.MovedKeepsOrder` | crates/runtime/brioche-shell-projection/src/ui_composer.rs:145-171 | Different entries get different places, in queue order, so a copy is never taken for the entry |
| `UiComposer.StuckMeansUnaffordable` | crates/runtime/brioche-shell-projection/src/ui_composer.rs:145-171 | An entry that keeps its place in a frame had a cost above the budget |
| `UiComposer.NoStarvation` | crates/runtime/brioche-shell-projection/src/ui_composer.rs:145-171 | An effect with k entries ahead whose cost fits every later budget leaves within k+1 frames, whatever is enqueued |
| `UiComposer.CosmeticGoneByFifthFrame` | crates/runtime/brioche-shell-projection/src/ui_composer.rs:145-171 | Every cosmetic effect is gone by its fifth frame under any budgets |
| `UiComposer.CosmeticHasFourFrames` | crates/runtime/brioche-shell-projection/src/ui_composer.rs:155-166 | Counting frames since it was enqueued, a cosmetic effect is never dropped in its first four and is dropped in its fifth exactly if none of the four showed it |
| `UiComposer.OthersAreNeverDropped` | crates/runtime/brioche-shell-projection/src/ui_composer.rs:155-158 | Effects of the other tiers are never dropped |
| `UiComposer.NeverInvertsIff` | crates/runtime/brioche-shell-projection/src/ui_composer.rs:137-145 | No frame shows an effect while a more important one waits, under any budget, if and only if the queue already stands in priority order (expired and text effects aside) |
| `UiComposer.CosmeticBeforeNavigation` | crates/runtime/brioche-shell-projection/src/ui_composer.rs:162-168 | With budget 3 a cosmetic effect goes out and the navigation effect behind it waits |
| `RateLimiter.InstalledTimestampsAreSpaced` | crates/runtime/brioche-shell-projection/src/ipc_command.rs:250-266 | In every interleaving with stale loads, installed timestamps rise by at least the budget each time |
| `RateLimiter.CallEmitsIff` | crates/runtime/brioche-shell-projection/src/ipc_command.rs:250-266 | In every interleaving a call returns true exactly if the value it loaded says "never emitted" or lies at least the budget before its clock reading |
| `RateLimiter.LoserHasOneWinner` | crates/runtime/brioche-shell-projection/src/ipc_command.rs:250-266 | A task that emits after losing the exchange loaded the value that exactly one successful exchange replaced |
| `RateLimiter.OnlyLosersCrowd` | crates/runtime/brioche-shell-projection/src/ipc_command.rs:250-266 | Two emitting calls whose clock readings are less than a budget apart: one of them lost its exchange |
| `RateLimiter.ScheduleKeepsPromiseIff` | crates/runtime/brioche-shell-projection/src/ipc_command.rs:250-266 | An interleaving has any two emitting calls read the clock at least a budget apart, under all clock readings and at every point, if and only if no exchange of it is lost under any |
| `RateLimiter.IsolatedKeepsPromise` | crates/runtime/brioche-shell-projection/src/ipc_command.rs:250-266 | It does whenever each call that gets to its exchange loaded the newest value with no other exchange in between: a condition on the interleaving alone |
| `RateLimiter.PromiseIffIsolated` | crates/runtime/brioche-shell-projection/src/ipc_command.rs:197-198 | And, where the clock's range holds a budget for every step, only then |
| `RateLimiter.SerialCallsKeepPromise` | crates/runtime/brioche-shell-projection/src/ipc_command.rs:250-266 | If spans from load to exchange do not overlap and loads are fresh, no exchange is lost and the promise holds, whatever the clocks read |
| `RateLimiter.LossCanBeHarmless` | crates/runtime/brioche-shell-projection/src/ipc_command.rs:250-266 | A run with a lost exchange in which the promise still holds |
| `RateLimiter.TwoTasksEmitInOneWindow` | crates/runtime/brioche-shell-projection/src/ipc_command.rs:250-266 | A run that breaks the promise: two calls emit with the same clock reading |
| `RateLimiter.UninterruptedCall` | crates/runtime/brioche-shell-projection/src/ipc_command.rs:250-266 | A call that is not interleaved and loads the newest value is the sequential call and loses no exchange |
| `RateLimiter.IpcRateLimiter.TryEmit` | crates/runtime/brioche-shell-projection/src/ipc_command.rs:250-266 | The sequential call: emits exactly when nothing was emitted yet or the budget has elapsed, and then stores the time |
| `RateLimiter.IpcRateLimiter.ForceEmit` | crates/runtime/brioche-shell-projection/src/ipc_command.rs:276-279 | Stores the time unconditionally |
| `StreamBatch.StreamBatchEmitter.Accumulate` | crates/runtime/brioche-shell-projection/src/stream_batch.rs:121-123 | Appends the fragment to its trace and to no other |
| `StreamBatch.StreamBatchEmitter.TryEmit` | crates/runtime/brioche-shell-projection/src/stream_batch.rs:134-140 | Emits the whole batch or nothing, by emptiness and rate limit |
| `StreamBatch.StreamBatchEmitter.ForceEmit` | crates/runtime/brioche-shell-projection/src/stream_batch.rs:156-164 | Takes a non-empty batch, stamps the limiter and returns the payload; an empty batch or one that does not encode stays as it is |
| `StreamBatch.TextIsConserved` | crates/runtime/brioche-shell-projection/src/stream_batch.rs:121-164 | Over every mix of calls and every trace: emitted texts then pending text equal all accumulated fragments |
| `StreamBatch.PayloadIff` | crates/runtime/brioche-shell-projection/src/stream_batch.rs:134-164 | A call returns a payload exactly if it is forced or due, something is pending and the encoding succeeds; the payload is the whole batch, nothing stays pending and the stamp is stored; otherwise the batch stays |
| `StreamBatch.AskingEmitsEverything` | crates/runtime/brioche-shell-projection/src/stream_batch.rs:134-164 | After every run such a call leaves nothing pending: for every trace the emitted texts alone are all its fragments |
| `StreamBatch.ForcedSilentIff` | crates/runtime/brioche-shell-projection/src/stream_batch.rs:156-159 | A forced call that encodes stays silent exactly if nothing was accumulated since the last payload |
| `StreamBatch.TriedPayloadsAreSpaced` | crates/runtime/brioche-shell-projection/src/stream_batch.rs:134-140 | Under a monotone clock, successive payloads of try_emit are at least the budget apart |
| `Sse.SseParser.WithThreshold` | crates/providers/brioche-provider-openai/src/sse.rs:78-84 | An empty parser with its threshold |
| `Sse.SseParser.Feed` | crates/providers/brioche-provider-openai/src/sse.rs:104-143 | Decodes the chunk, then the draining loop handles exactly the complete lines of buffer and text |
| `Sse.ReadIgnoresPadding` | crates/providers/brioche-provider-openai/src/sse.rs:113-141 | A data line is read the same whatever white space surrounds it; the terminator is skipped, bad JSON is malformed with a preview of at most 200 characters |
| `Sse.WhiteSpaceIs` | crates/providers/brioche-provider-openai/src/sse.rs:114-114 | The 25 characters that trimming removes |
| `Sse.ReadIff` | crates/providers/brioche-provider-openai/src/sse.rs:113-140 | A line is a data value or malformed exactly if, white space around it aside, it is `data: ` followed by a payload that is not the terminator; every other line is skipped |
| `Sse.DataLineReads` | crates/providers/brioche-provider-openai/src/sse.rs:115-140 | What a data line yields: nothing for the terminator, the parsed value, or a malformed event with at most 200 characters of preview |
| `Sse.LineEndings` | crates/providers/brioche-provider-openai/src/sse.rs:113-140 | The same for lines ending in a line feed and in a carriage return with a line feed |
| `Sse.FeedOneLine` | crates/providers/brioche-provider-openai/src/sse.rs:111-142 | One data line fed between lines: a value resets the counter, a malformed payload raises it and aborts at the threshold, the terminator does neither |
| `Sse.FindIsFirst` | crates/providers/brioche-provider-openai/src/sse.rs:111-112 | The search returns the first newline and misses none |
| `Sse.LinesRejoin` | crates/providers/brioche-provider-openai/src/sse.rs:111-112 | Complete lines and leftover put together are the text |
| `Sse.DrainIsHandle` | crates/providers/brioche-provider-openai/src/sse.rs:104-143 | Taking lines off one newline at a time is handling all lines of the buffer |
| `Sse.FeedTwice` | crates/providers/brioche-provider-openai/src/sse.rs:104-143 | Feeding a text in two pieces against feeding it whole, errors included |
| `Sse.SplitInvariance` | crates/providers/brioche-provider-openai/src/sse.rs:104-143 | For every cut into chunks: same values or same error with the same count, same failure counter, and without error the same leftover |
| `Sse.FeedsMeetThreshold` | crates/providers/brioche-provider-openai/src/sse.rs:111-142 | Across any number of feeds the parser aborts exactly when the run of malformed data lines first reaches max(1, threshold); otherwise values, counter and newline-free buffer are those of the text |
| `Utf8.DecodeEncode` | crates/providers/brioche-provider-openai/src/sse.rs:108-109 | Lossy decoding inverts UTF-8 encoding |
| `Utf8.WellFormedIsEncoded` | crates/providers/brioche-provider-openai/src/sse.rs:108-108 | Only encodings of characters are well formed: no overlong forms, surrogates or numbers past U+10FFFF |
| `Utf8.UnitStartsCharacter` | crates/providers/brioche-provider-openai/src/sse.rs:108-108 | The first unit is the front of some character's encoding, unless its first byte can start none |
| `Utf8.UnitIsLongest` | crates/providers/brioche-provider-openai/src/sse.rs:108-108 | It is the longest such front |
| `Utf8.IllFormedIsReplaced` | crates/providers/brioche-provider-openai/src/sse.rs:108-108 | A first unit that is no whole encoding becomes one U+FFFD |
| `Utf8.DecodeCommutesIff` | crates/providers/brioche-provider-openai/src/sse.rs:108-109 | Decoding commutes with a cut exactly when the cut does not fall inside a character |
| `SseBytes.DecodeEachCommutesIff` | crates/providers/brioche-provider-openai/src/sse.rs:108-109 | Decoding chunk by chunk gives the decoded whole exactly when no boundary cuts a character |
| `SseBytes.ByteSplitInvariance` | crates/providers/brioche-provider-openai/src/sse.rs:104-143 | Byte chunks that cut no character give what one feed of all bytes gives |
| `SseBytes.AllReadersAgreeIff` | crates/providers/brioche-provider-openai/src/sse.rs:104-143 | For any byte stream: chunked feeding agrees with one feed under every line reader if and only if no chunk boundary cuts a character |
| `SseBytes.AllParsersAgreeIff` | crates/providers/brioche-provider-openai/src/sse.rs:104-143 | For the parser's own readers: it agrees whatever the JSON parser if and only if decoding chunk by chunk leaves the payloads of the data lines and the leftover as they are |
| `SseBytes.CutCharacterIsLost` | crates/providers/brioche-provider-openai/src/sse.rs:108-109 | The two bytes of one character in two chunks become two replacement characters |
| `Settings.SplitRejoins` | crates/runtime/brioche-shell-persistence/src/settings.rs:228-228 | Splitting a key at its dots loses nothing and leaves dotless parts |
| `Settings.PrefixOfKeys` | crates/runtime/brioche-shell-persistence/src/settings.rs:117-125 | One path is a prefix of another exactly when the keys are equal or one continues the other after a dot |
| `Settings.Settings.Get` | crates/runtime/brioche-shell-persistence/src/settings.rs:117-125 | The walk returns the value at the path |
| `Settings.Settings.GetWithSchemaDefault` | crates/runtime/brioche-shell-persistence/src/settings.rs:256-259 | The own value, else the default's |
| `Settings.GetOneFurther` | crates/runtime/brioche-shell-persistence/src/settings.rs:117-125 | Reading one part further is looking it up in the object read so far |
| `Settings.Settings.Set` | crates/runtime/brioche-shell-persistence/src/settings.rs:227-251 | The in-place descent that creates missing objects has exactly the effect of setting the path, and leaves the whole tree unchanged on every error |
| `Settings.Settings.Merge` | crates/runtime/brioche-shell-persistence/src/settings.rs:149-153 | Adds exactly the missing default modules, in whatever order they come |
| `Settings.SchemaDefaults` | crates/runtime/brioche-shell-persistence/src/settings.rs:98-115 | Builds the defaults by setting each field in order, skipping those that fail |
| `Settings.GetAfterSet` | crates/runtime/brioche-shell-persistence/src/settings.rs:227-251 | After a set, the key and every extension of it read the new value |
| `Settings.PrefixHoldsObject` | crates/runtime/brioche-shell-persistence/src/settings.rs:232-247 | After a set, every proper prefix of the key holds an object |
| `Settings.SetFrames` | crates/runtime/brioche-shell-persistence/src/settings.rs:227-251 | A set changes no answer for keys neither prefix nor extension of its own |
| `Settings.SetsCommute` | crates/runtime/brioche-shell-persistence/src/settings.rs:227-251 | Successful sets on incomparable paths commute to the same tree |
| `Settings.LastSetWins` | crates/runtime/brioche-shell-persistence/src/settings.rs:227-251 | Of two sets on one key only the second shows |
| `Settings.SetSame` | crates/runtime/brioche-shell-persistence/src/settings.rs:227-251 | Setting what is there changes nothing |
| `Settings.SetSucceedsIff` | crates/runtime/brioche-shell-persistence/src/settings.rs:232-247 | A set succeeds if and only if no proper prefix holds a value that is not an object |
| `Settings.SetKeySucceedsIff` | crates/runtime/brioche-shell-persistence/src/settings.rs:227-251 | For whole keys: if and only if the key has a dot and is not blocked |
| `Settings.SetKeyErrors` | crates/runtime/brioche-shell-persistence/src/settings.rs:227-247 | Which error: no dot, the module is no object, or the named part is none |
| `Settings.KeyLaws` | crates/runtime/brioche-shell-persistence/src/settings.rs:214-251 | get after set, and the frame law, on whole keys |
| `Settings.KeySetsCommute` | crates/runtime/brioche-shell-persistence/src/settings.rs:227-251 | Sets on unrelated keys commute |
| `Settings.DefaultsReadBack` | crates/runtime/brioche-shell-persistence/src/settings.rs:98-115 | With independent keys every declared default reads back from the built defaults |
| `Settings.UnsetFieldIsSkipped` | crates/runtime/brioche-shell-persistence/src/settings.rs:106-112 | A field without a default, or with a key that cannot be set, leaves the others alone |
| `Settings.MergeIsInvisible` | crates/runtime/brioche-shell-persistence/src/settings.rs:256-259 | The load-time merge changes no answer of get_with_schema_default |
| `Settings.OwnValueWins` | crates/runtime/brioche-shell-persistence/src/settings.rs:256-259 | A set or present value wins over the default; a key without one reads the default |
| `SessionHead.SessionRoundTrip` | crates/runtime/brioche-shell-persistence/src/dto.rs:132-167 | Save and load keep id, history, message count and blobs; state and stack exactly when no state is of an unnamed variant; runtime-only fields are reset |
| `SessionHead.StatesKeepTheirNames` | crates/runtime/brioche-shell-persistence/src/dto.rs:54-68 | Each named state is saved as the variant of its name with its payload; a later variant as idle |
| `SessionHead.HeadSays` | crates/runtime/brioche-shell-persistence/src/dto.rs:132-149 | A head field by field: id, count, blobs, states and stack from the session; first version, no parent, no compaction mark, no checksum |
| `SessionHead.HeadRoundTripIff` | crates/runtime/brioche-shell-persistence/src/dto.rs:132-167 | Load and save give the same head exactly when it had no parent, compaction mark or checksum |
| `SessionHead.BuildSession` | crates/runtime/brioche-shell-persistence/src/dto.rs:156-167 | Assigning the fields of a fresh session gives the loaded session |
| `SessionHead.ColdHoldsLastPersisted` | crates/kernel/brioche-core/src/extension.rs:339-363 | After any run the blob of a type decodes to the last value persisted for it |
| `SessionHead.ReloadReadsLastPersisted` | crates/kernel/brioche-core/src/extension.rs:415-454 | The first access after a reload reads the last persisted value; the view survives exactly when the hot value, if any, is that value |
| `SessionHead.RollbackDoesNotReachBlobs` | crates/kernel/brioche-governance-default/src/rollback.rs:145-162 | Commit and rollback leave the same blobs |
| `SessionHead.ReloadAfterHook` | crates/kernel/brioche-core/src/engine/transition_support.rs:160-189 | After a driven hook a reload reads the last value its operations persisted, whether it committed or not |
| `SessionHead.HookIsInvisibleToReloadIff` | crates/kernel/brioche-core/src/extension.rs:339-363 | A driven hook, committed or rolled back, changes nothing a reload reads of a type exactly when what it last persisted for it, if anything, is what a reload read before |
| `SessionHead.InsertOutlivesRollback` | crates/kernel/brioche-core/src/extension.rs:339-363 | A hook the driver rolls back after a critical type was inserted: the type reads as before in memory and as the inserted value after a reload |
| `Broker.Aggregate` | crates/kernel/brioche-governance-default/src/aggregators.rs:31-65 | Returns the first Block or Override, else all edits in order, else the first effect, else Allow |
| `Broker.LexicographicIsUnique` | crates/kernel/brioche-governance-default/src/aggregators.rs:31-65 | The aggregation result is determined by the decisions |
| `Broker.LexicographicSays` | crates/kernel/brioche-governance-default/src/aggregators.rs:31-65 | The result written out: the first Block or Override, else all edits, else the first requested effect, else Allow |
| `Broker.EditsInOrder` | crates/kernel/brioche-governance-default/src/aggregators.rs:48-50 | Edits are collected in the order of the decisions |
| `Broker.EffectsInOrder` | crates/kernel/brioche-governance-default/src/aggregators.rs:51-53 | Effects are collected in the order of the decisions |
| `Broker.CollectedFromOne` | crates/kernel/brioche-governance-default/src/aggregators.rs:41-58 | Only mutations give edits and only requests give effects |
| `Broker.SettlesSays` | crates/kernel/brioche-governance-default/src/negotiation_broker.rs:89-99 | When a call settles: enough calls since the last reset, a call whose decisions all allow, or a Block or Override received since then |
| `Broker.NegotiationBroker.AggregateDecisions` | crates/kernel/brioche-governance-default/src/negotiation_broker.rs:74-142 | One call of the broker on its state, u8 phase included |
| `Broker.NegotiationBroker.Settle` | crates/kernel/brioche-governance-default/src/negotiation_broker.rs:101-138 | The final pass aggregates everything accumulated and resets the state unless it met a Block or Override |
| `Broker.BrokerRefinesAggregator` | crates/kernel/brioche-governance-default/src/negotiation_broker.rs:74-142 | On every run each settling call returns the lexicographic result on all decisions since the last reset, every other call asks for another LLM round |
| `Broker.DecisionIsSticky` | crates/kernel/brioche-governance-default/src/negotiation_broker.rs:101-121 | Once a call returns Block or Override every later call returns the same |
| `Broker.SettlesInTime` | crates/kernel/brioche-governance-default/src/negotiation_broker.rs:79-100 | Without Block or Override the broker settles in any max(1, max_phases) consecutive calls |
| `Broker.PhaseNeverOverflows` | crates/kernel/brioche-governance-default/src/negotiation_broker.rs:86-86 | Without Block or Override the u8 phase never overflows |
| `Broker.PhaseOverflowsIff` | crates/kernel/brioche-governance-default/src/negotiation_broker.rs:86-86 | A call overflows the phase exactly when its segment is already decided and holds 255 calls modulo 256 |
| `Broker.BlockedRunOverflows` | crates/kernel/brioche-governance-default/src/negotiation_broker.rs:86-86 | A run that starts with Block or Override overflows the phase in its 256th call |
| `SaveProtocol.ReachableLosesNone` | crates/runtime/brioche-shell-runtime/src/effect_executor.rs:563-586 | In every interleaving each unfinished recorded save is in the list or held by a shutdown, and each save a shutdown owes is held once it took the list |
| `SaveProtocol.ShutdownWaitsIff` | crates/runtime/brioche-shell-runtime/src/effect_executor.rs:686-700 | At the moment a shutdown takes the list: some continuation lets it return before the saves it owes are finished if and only if another shutdown then holds an unfinished one of them |
| `SaveProtocol.SingleShutdownWaits` | crates/runtime/brioche-shell-runtime/src/effect_executor.rs:686-700 | With one shutdown, every save whose call returned before it began is finished when it returns |
| `SaveProtocol.AwaitedOnce` | crates/runtime/brioche-shell-runtime/src/effect_executor.rs:687-699 | However many clones shut down, no handle is awaited twice |
| `SaveProtocol.SecondShutdownDoesNotWait` | crates/runtime/brioche-shell-runtime/src/effect_executor.rs:686-700 | A run in which a second shutdown returns while an owed save is unfinished |
| `TelemetryPlugin.AfterPrediction` | crates/kernel/brioche-governance-default/src/telemetry.rs:170-236 | On the storage: superseded transitions are summarised and cleared, rollback events taken off the log and counted, exactly as the listed accesses say |
| `TelemetryPlugin.Summarise` | crates/kernel/brioche-governance-default/src/telemetry.rs:181-186 | The loop over drained transitions counts the different preempting plugins and finds the last |
| `TelemetryHooks.PredictionDrains` | crates/kernel/brioche-governance-default/src/telemetry.rs:189-233 | After the call both logs are empty and the counters have absorbed the drained events |
| `TelemetryHooks.PredictionSummarises` | crates/kernel/brioche-governance-default/src/telemetry.rs:171-187 | And the conflict summary is brought up to date exactly if there were superseded transitions |
| `Telemetry.TelemetryState.CountEvents` | crates/kernel/brioche-governance-default/src/telemetry.rs:197-233 | The counting loop with its in-place row updates |
| `Telemetry.CallsReportStream` | crates/kernel/brioche-governance-default/src/telemetry.rs:189-233 | Over every sequence of calls the state is the report of the whole drained stream |
| `Telemetry.TelemetryInvariant` | crates/kernel/brioche-governance-default/src/telemetry.rs:189-233 | Names distinct and exactly those seen, each row the counts of its hook in the whole stream, columns summing to the totals, total abandoned weight exact |
| `Telemetry.TotalsCountPositions` | crates/kernel/brioche-governance-default/src/telemetry.rs:198-205 | The totals count the stream's rollbacks with the budget exceeded, and those without |
| `Telemetry.WeightAddsUp` | crates/kernel/brioche-governance-default/src/telemetry.rs:200-201 | The abandoned weight adds up over the stream |
| `Telemetry.SummaryCountsAll` | crates/kernel/brioche-governance-default/src/telemetry.rs:177-187 | Over every sequence of batches the conflict summary's total counts every entry, its last plugin is the last entry's, and its number of plugins is that of the last batch that was not empty |
| `TelemetryLedger.ExactIffNeverSplits` | crates/kernel/brioche-governance-default/src/telemetry.rs:189-206 | On numbered events: each is counted once or still pending, in order, if and only if no drain had only one side put back |
| `TelemetryHooks.ActBooks` | crates/kernel/brioche-core/src/engine/hooks.rs:82-125 | One driven hook on log and counters: a plugin's hook appends one event; a drain moves the events except where the guard put a side back; the event reports a rollback exactly if the charged weight reached the budget |
| `TelemetryHooks.RunKeepsBooks` | crates/kernel/brioche-core/src/engine/hooks.rs:136-165 | At every point of every run of plugin hooks and drains, log and counters in storage are the books kept by the hooks' entries |
| `TelemetryHooks.RestoredCountStaysZero` | crates/kernel/brioche-governance-default/src/telemetry.rs:197-217 | At every point of every such run: each logged event reports a rollback if and only if it reports an exceeded budget, and the counters show no restoration, in total or in any row |
| `TelemetryHooks.EveryEventBookedOnceIff` | crates/kernel/brioche-governance-default/src/telemetry.rs:189-206 | Over every such run, each event ever logged is counted once or still in the log if and only if no drain splits |
| `TelemetryHooks.StorageReportsEveryEvent` | crates/kernel/brioche-governance-default/src/telemetry.rs:189-233 | If no drain splits, the counters with the log absorbed report the whole stream |
| `TelemetryHooks.EventsCanBeCountedTwice` | crates/kernel/brioche-governance-default/src/telemetry.rs:189-206 | Two drains under one guard whose budget is the log's first weight: abandoned count and weight exceed the stream's by exactly the events first in the log |
| `TelemetryHooks.EventsCanBeLost` | crates/kernel/brioche-governance-default/src/telemetry.rs:189-206 | A drain under a budget equal to the counters' weight: the log is emptied and the counters are put back |
| `Watchdog.BackoffIsExact` | crates/runtime/brioche-shell-runtime/src/engine_watchdog.rs:258-267 | Saturation and shift cap are invisible: the backoff is min(100 * 2^(n-1), cap) for every n |
| `Watchdog.BackoffSays` | crates/runtime/brioche-shell-runtime/src/engine_watchdog.rs:258-267 | The backoff in milliseconds: 100 doubled for each recovery after the first, at most the larger of the response delay and eight heartbeats |
| `Watchdog.BackoffDoubles` | crates/runtime/brioche-shell-runtime/src/engine_watchdog.rs:258-267 | Each backoff is twice the last, up to the cap |
| `Watchdog.BackoffMonotone` | crates/runtime/brioche-shell-runtime/src/engine_watchdog.rs:258-267 | The backoff never falls and lies between min(100, cap) and the cap |
| `Watchdog.BackoffReachesCap` | crates/runtime/brioche-shell-runtime/src/engine_watchdog.rs:258-267 | From the 59th recovery on it is the cap, whatever the settings |
| `Watchdog.EngineWatchdog.Run` | crates/runtime/brioche-shell-runtime/src/engine_watchdog.rs:203-256 | The loop on a virtual clock with its wrapping recovery counter |
| `Watchdog.RoundTakes` | crates/runtime/brioche-shell-runtime/src/engine_watchdog.rs:212-256 | A round takes its tick and answer, or its tick, timeout, recovery and the backoff for the raised counter |
| `Watchdog.MissesTakeTime` | crates/runtime/brioche-shell-runtime/src/engine_watchdog.rs:203-256 | k consecutive misses take at least k timeouts and the first k-1 backoffs |
| `Watchdog.BackoffsAtLeast` | crates/runtime/brioche-shell-runtime/src/engine_watchdog.rs:191-198 | n backoffs take at least n times the smaller of 100 and the cap: no tight recovery loop |
| `Watchdog.BackoffsBelowCap` | crates/runtime/brioche-shell-runtime/src/engine_watchdog.rs:258-267 | Below the cap n backoffs add up to 100 (2^n - 1) milliseconds |

## Left out

- Engine transition, dispatch, routing and finalisation: only the driver that wraps one hook is modelled.
- Redb storage, garbage collection, sub-routine cache, HTTP client, retry transport, terminal and desktop applications, macros and lint tools.
- Serialization bytes: codecs are parameters, assumed to be an inverse pair only where a statement says so; `clone_box` is the identity.
- Encryption of API keys on load and save of settings.
- Historical budgets: the floating-point budget of `HistoricalCowBudgetPolicy` is a function of the hook name that is constant during a hook.
- Overflow of `usize` weights and `u64` counters, which are unbounded naturals here; the `u8` composer age does saturate.
- A body that calls the driver again or detaches the policy itself: a hook body is a sequence of storage operations.
- Of a superseded transition only the plugin that preempted it is kept.
- RateLimiter.InstalledTimestampsAreSpaced: runs without `force_emit`, a positive budget, and clock values below the `u64::MAX` sentinel.
- RateLimiter.PromiseIffIsolated: its only-if half assumes that a budget for every step fits the `u64` clock; near the end of that range no second window may be reachable at all. Clock readings of different calls are unrelated, not monotone.
- UiComposer.NeverInvertsIff: budgets are unbounded, where the code's are `u8`; the budget that shows an inversion is the cost of the effects in front.
- Orderings weaker than "a load returns some value of the modification order".
- `UiComposer::clear` and the derived `Default` with zero costs; costs are a parameter of every lemma.
- Background saves: a poisoned lock and the synchronous persistence mode, in which a save is finished when its call returns.
- Watchdog.EngineWatchdog.Run: recovery procedures and closed channels other than as the end of the run.
- `Settings::load` from disk, typed accessors and validation.
- The warnings the stream parser logs for malformed lines.
- The mask check of `FastHookEffectConstraint`, `StreamBatch::remove` and other thin map operations, which would add only easy members.
