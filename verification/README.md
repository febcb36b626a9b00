# Verified model of the feature engine and its control plane

This Dafny project models the part of the trading platform that turns market events into features and
serves them, and the control plane beside it. Its theme is that every fast or bounded form must agree
with a simple one:

- the streaming engine with its bounded queues against the full-history batch executor;
- any order of arrival against a sorted replay, and a bounded log of recent events against all events;
- a run that was saved and resumed against one that was not interrupted;
- a bounded cache and a pruned table against unbounded ones;
- a read model built by a process that keeps dying against one that never does;
- pages against the list they were cut from.

`dafny verify dfyconfig.toml` checks the whole project.

## How it is laid out

Specifications are functions on values. The source's loops and objects are methods and classes proved
to refine them, and the theorems are lemmas about the functions. What the specifications themselves say
is fixed by statements in terms of inputs and results alone: what each node leaves in a vector (Vectors),
what each telemetry line leaves in the tables (Rows), and the postconditions of the methods.

| modules | what they hold |
|---|---|
| Sequences, Sorting, TopK, KeyedTables | vocabulary: bounded queues, the stable sort, ranked lists, tables and the writes to their rows |
| FeatureModel, Nodes, PlanOrder, Dag, DagOrder, DagSort, Definitions | events and feature sets, the eleven node kinds, the topological sort, legacy feature sets |
| State, ScopeRuntime, Isolation, LateEvents, Lookbacks, RejectPolicy, Ema, TruncatedLog, TruncatedError, Vectors | the six dictionaries of the runtime, one step of it, what holds over whole runs, and what each node's value in an answer is |
| Snapshot, StateStore, Runtime, Recovery | saving and restoring, the engine and its journal, the recovery smoke test |
| Batch, BatchExecutor, AsofJoin, Materialization, OfflineStore, Parity | the batch executor, point-in-time joins, materialization runs, the parity check |
| Cache, OnlineStore, OnlineStoreMemory | the bounded cache, the pruned store, the in-memory store |
| ReadModel, Rows, SyncCrashes, SyncReads, SyncShapes, Builder | what telemetry lines write and the rows they leave, runs with dying syncs, what every complete sync has read, which deaths are harmless whatever the lines say, the read-model builder |
| CommandQueue, CommandRuns, Worker | the command queue as a state machine, what its runs can do, its tables and one pass of the worker |
| Backfill, CircuitBreaker (module Breaking) | the pagers against a server that holds a fixed list, the breaker |

Prices are real numbers and times integers. A scope is a string. `log` and `sqrt` are functions of which
only that roots of positive numbers are positive is known. A SQLite table is a map, or a list without
repeated keys where the order of rows could matter.

## What was found

Each of these is a property one would expect, the input that breaks it, and a proof of exactly when it
holds.

- A sync that dies can be forgotten only if it died no later than in the summaries. When it dies in a file
  read after them, in the alerts or in `recovery_command_audit.jsonl`, the summaries are committed
  already, and a health report appended before the next sync is applied after them instead of before.
  `SyncCrashes.LateHealth` has the run, `SyncCrashes.HarmlessUpToSummaries` says which files are safe to
  die in, and `SyncShapes.HarmlessShapeIff` exactly which sequences of appends, syncs and deaths are
  harmless whatever the lines say. In general a
  dead sync has exactly the effect of the files it finished (`SyncCrashes.DeadSyncsOnlyFinishFiles`).
- The whole state comes back from its snapshot exactly when no scope in a joined key contains a bar
  (`Snapshot.SnapshotRoundTrip`). An EMA kept for a scope with one makes the snapshot unreadable, so that
  every scope is lost (`StateStore.ReadableIff`); a history kept for one comes back under another scope
  (`Snapshot.HistoryParsesIff`). One event of such a scope is enough (`Snapshot.BarredScopeReached`,
  `Recovery.BarredScopeUnreadable`).
- Redelivering a journaled event is harmless only when it is older than the watermark: the newest event
  is logged a second time (`LateEvents.RedeliveryHarmless`).
- The kline pager returns a bar that opens exactly at the end of the range, although its documentation
  calls the end exclusive, unless a full page happens to end right before it (`Backfill.EndExclusiveIff`,
  with two bars that show it in `Backfill.EndReturned`).
- `get_recent_history(limit=0)` returns the whole history from the in-memory store and nothing from the
  SQLite one (`OnlineStoreMemory.RecentHistoriesAgreeIff`).
- The API writes the queued audit row after the command can already be claimed, so the worker may record
  the start first (`CommandRuns.TrailInOrderIff`, with the run in `CommandRuns.RaceBreaksTrail`).
- A result that is not JSON turns a command that has succeeded into one that has failed, unless the
  worker dies in between (`CommandRuns.StatusesInOrderIff`, with the run in
  `CommandRuns.SuccessThenFailure`).
- Request times are taken before the command is in the queue, so a command may arrive there after one
  requested later has been claimed (`CommandRuns.ClaimedInOrderIff`, with the run in
  `CommandRuns.OvertakenClaim`).
- The two executors differ on a rolling window larger than the runtime's and on a volatility window of
  one (`Batch.RollingAgreesIff`, `Batch.VolatilityAgreesIff`); a parity check with a negative tolerance
  fails on equal values (`Parity.ParityPasses`).
- Histories hold 512 values, so a lag, z-score or volatility gives what was emitted so far back exactly when
  it looks back no further than that and enough was emitted (`Lookbacks.LookbackExact`).
- A servable latest vector need not be the newest one known: it is exactly when no known vector of its group
  is newer and pruning has kept it (`OnlineStore.LatestServableIff`, `OnlineStoreMemory.MemoryLatestIff`);
  vectors that come in order are always so (`OnlineStore.LatestServableIsSnapshot`).

## Model

| member | source | states |
|---|---|---|
| Batch.StreamingEqualsBatch | app/features/runtime.py:109-145 | On a well-formed plan, for every stream whose scopes arrive in order of availability, under every late-event policy, the engine with its bounded price queue yields for each event exactly the vector the full-history executor yields |
| Batch.NodesAgree | app/features/batch_executor.py:115-177 | A node of a supported kind, with a window the queue can hold, computes the same value and the same EMA states from the bounded queue as from the whole price history |
| Batch.RollingAgreesIff | app/features/batch_executor.py:124-139 | A rolling node agrees exactly when its window fits the runtime's or is not yet full |
| Batch.VolatilityAgreesIff | app/features/batch_executor.py:161-170 | A volatility node agrees exactly when its window is at least two or nothing was emitted yet; with a window of one the batch executor then gives the root of zero and the runtime nothing (it has a guard the other lacks) |
| Batch.RollingAgree | app/features/nodes.py:42-63 | The average, EMA, maximum or minimum over the end of the bounded queue is the one over the end of the whole history |
| BatchExecutor.Execute | app/features/batch_executor.py:48-101 | The loops fail on a cycle, or on a difference, ratio or clip when there are events, and otherwise return one vector per event by symbol, available time and event time, each that of the full history of its scope |
| BatchExecutor.ExecuteEvent | app/features/batch_executor.py:56-100 | One turn of the event loop changes the dictionaries of its scope as specified and those of no other |
| Parity.RunParityCheck | app/features/parity.py:60-163 | The check stores its run and reports exactly the mismatches between what it read back, the batch vectors and the streamed ones, or raises what the executor raises |
| Parity.CompareKey | app/features/parity.py:87-162 | The mismatches reported for a key are exactly its faults, spelled out: no batch or online vector, values that differ from the batch, a value on one side only, a difference beyond the feature's tolerance |
| Parity.ParityPasses | app/features/parity.py:60-163 | On a well-formed set the check passes exactly when no emitted feature has a negative tolerance |
| Parity.StoredBack | app/features/parity.py:72-85 | Reading a fresh run back from the offline table, in any row order, gives what was materialized, the last vector of each key |
| Parity.ByKeyIs | app/features/parity.py:80-82 | Vectors are looked up by scope and time, of several with the same ones the last |
| Definitions.BuildLegacyFeatureSet | app/features/definitions.py:121-210 | The nested loops build one return and, for each distinct window and listed aggregator, a rolling node, with names and tolerances spelled out |
| Definitions.LegacyPlannable | app/features/definitions.py:156-199 | A legacy set can be planned exactly when no aggregator is listed twice, or there are no windows |
| Definitions.LegacyWellFormed | app/features/definitions.py:121-210 | A plannable legacy set meets every premise of the agreement of the executors and of the independence of plan order |
| Definitions.LegacyParityPasses | app/features/definitions.py:121-210 | The parity check of a plannable legacy set reports nothing, under any default tolerance, on any events whose scopes belong to one symbol each |
| Definitions.TopologicalOrdersAgree | app/features/runtime.py:122-128 | Any two topological orders of nodes that declare what they read give the same values and EMA states |
| LateEvents.ArrivalsConverge | app/features/runtime.py:147-183 | With a journal and policy recompute, after every arrival order the whole state of each scope is that of one in-order replay of the distinct events seen |
| LateEvents.AnswersConverge | app/features/runtime.py:147-183 | Every such arrival, late, repeated or not, is answered with the newest vector of the in-order replay of the distinct events seen |
| LateEvents.DeliveryOrderIrrelevant | app/features/runtime.py:163-191 | Two deliveries of the same events, late, repeated or in order, leave every scope in the same state |
| LateEvents.RedeliveryHarmless | app/features/runtime.py:168-183 | Delivering a journaled event again leaves the state unchanged exactly when it is older than the watermark |
| LateEvents.InOrderRun | app/features/runtime.py:184-191 | Events in order are taken as they come under every policy |
| Runtime.FeatureEventJournal.Append | app/features/event_journal.py:65-87 | Insert or ignore: an event already in the journal is not added again |
| Runtime.FeatureEventJournal.LoadScopeEvents | app/features/event_journal.py:111-122 | By available time, then event time, each event of the scope as often as it is journaled and no event of another scope |
| Runtime.FeatureRuntimeEngine.Create | app/features/runtime.py:57-77 | An engine exists exactly when its nodes can be planned, and starts with empty dictionaries and a largest window as its own, or five when there is none |
| Runtime.FeatureRuntimeEngine.ComputeFromEvent | app/features/runtime.py:109-145 | The step-by-step writes to the six dictionaries amount to the specified new state of the event's scope, and the vector is the one computed on the state before |
| Runtime.FeatureRuntimeEngine.TruncateRecentEvents | app/features/runtime.py:79-86 | The log of a scope keeps its last max(4 * window, 32) events, and is left alone while it has no more |
| Runtime.FeatureRuntimeEngine.RecomputeScope | app/features/runtime.py:147-161 | Reset and replay leave the scope as rebuilt from its journaled or recent events, other scopes untouched, and the last vector is that of the newest event |
| Runtime.FeatureRuntimeEngine.Update | app/features/runtime.py:163-191 | One update makes the specified step of the engine and counts it: taken, rejected, or recomputed when late |
| Runtime.FeatureRuntimeEngine.UpdateBatch | app/features/runtime.py:193-199 | The final state and the vectors, in order, of the run over all events |
| Runtime.FeatureRuntimeEngine.RestoreState | app/features/runtime.py:201-202 | The restored store becomes the engine's state |
| TruncatedLog.TruncatedWindowsExact | app/features/runtime.py:79-86 | Without a journal, under policy recompute, in every reachable state the log is the tail of all of the scope's events in order and the price queue the tail of their prices |
| TruncatedError.ReplyWindowsExact | app/features/runtime.py:172-183 | What an update answers has the averages, maxima and minima of the full in-order replay |
| TruncatedError.TruncatedEmaError | app/features/runtime.py:147-182 | In every reachable state without a journal an EMA is within the bound of the EMA of the full sorted replay |
| TruncatedError.BoundIsPower | app/features/runtime.py:79-80 | The bound is (1 - 2/(w+1))^(M-w) times the price range, M the larger of 32 and four times the window |
| TruncatedError.ReferenceEma | app/features/nodes.py:52-59 | The reference of the error bound is the EMA state of an in-order replay of all events |
| Ema.FedDifference | app/features/nodes.py:52-59 | Two EMA states fed the same n prices differ by exactly (1 - 2/(w+1))^n times their starting difference |
| Ema.EmaClosed | app/features/nodes.py:52-59 | An EMA is the w-th price and the later ones with weights: the first 1 times ((w-1)/(w+1))^n, each later one 2/(w+1) times ((w-1)/(w+1))^age |
| Ema.EmaInRange | app/features/nodes.py:52-59 | An EMA stays within the range of the prices seen |
| Vectors.InOrderAnswers | app/features/runtime.py:109-145 | Events in order are each answered with the vector of the events up to then, under every policy |
| Vectors.StampedByEvent | app/features/runtime.py:136-145 | A vector bears the scope, symbol and times of its event, and the name and version of its feature set |
| Vectors.PriceInVector | app/features/nodes.py:28-31 | A price node emits the price of the newest event |
| Vectors.ReturnInVector | app/features/nodes.py:34-38 | A return is emitted for a positive price after another one, and is the logarithm of the price over the last positive one before it |
| Vectors.AverageInVector | app/features/nodes.py:41-63 | From the w-th event on, if the queue can hold w prices, an average is emitted, and w times it is the sum of the last w prices |
| Vectors.ExtremeInVector | app/features/nodes.py:41-63 | A maximum or minimum is one of the last w prices, and none of them is beyond it |
| Vectors.EmaInVector | app/features/nodes.py:52-59 | From the w-th event on an EMA is emitted, the weighted sum of all prices with explicit weights |
| Vectors.EmaOfThree | app/features/nodes.py:55-57 | Of the prices 3, 6 and 9 an EMA of two is 8 |
| Vectors.ConstantInVector | app/features/nodes.py:73-75 | A constant is emitted with every vector |
| Vectors.JoinInVector | app/features/nodes.py:124-132 | A metadata join emits what was joined to the newest event under its alias and field, if anything |
| Vectors.DifferenceInVector | app/features/nodes.py:135-143 | A difference emits left minus right exactly when both are in the vector |
| Vectors.RatioInVector | app/features/nodes.py:146-156 | A ratio is emitted exactly when both sides are and the denominator is beyond epsilon, and times the denominator it is the numerator |
| Vectors.ClipInVector | app/features/nodes.py:158-166 | A clip emits its source when between the bounds, and otherwise the bound it passes, the upper one when they are crossed |
| Vectors.LookbackInVector | app/features/nodes.py:78-122 | In every reachable state the answer to an event in time holds the lags, volatilities and z-scores of the values last emitted |
| Dag.PlanCorrect | app/features/dag.py:13-35 | A plan exists exactly when names are distinct and dependencies have no cycle; it has the same nodes, each once, every known dependency before its users |
| DagOrder.PlanIsFirstReadyFirst | app/features/dag.py:24-32 | Of two nodes the one whose dependencies were all out earlier comes first, and the smaller name if they became ready together: this fixes the plan |
| Dag.StuckCycle | app/features/dag.py:33-34 | If the queue runs dry before some node, there is a real cycle of dependencies |
| Dag.KahnEnds | app/features/dag.py:26-32 | The loop ends with its queue empty, no name ever queued twice and every released node after its dependencies |
| DagSort.TopologicalSort | app/features/dag.py:13-35 | The loops over nodes, dependencies and the queue compute the plan, or nothing when there is none |
| DagSort.InputOrderIrrelevant | app/features/dag.py:24-32 | Every ordering of the input list gives the same plan, or none |
| PlanOrder.PlanOrderIrrelevant | app/features/runtime.py:122-130 | Two arrangements of the same nodes that put what is read before its readers emit the same values and leave the same EMA states |
| Isolation.ScopeIsolation | app/features/runtime.py:109-191 | Over any interleaving and under every policy a scope ends up with, and answers, what running only its events gives |
| Isolation.RunSound | app/features/state.py:21-28 | Every reachable state keeps its price queues and histories within bounds, and everything under its own scope |
| Isolation.RunLogsBounded | app/features/runtime.py:79-86 | No scope's log of recent events ever holds more than max(4 * window, 32) of them |
| ScopeRuntime.RejectedIff | app/features/runtime.py:163-191 | An event goes unanswered exactly when its scope's watermark has passed it and the policy is reject; the state is then as it was |
| ScopeRuntime.StepJournals | app/features/runtime.py:168-169 | Under every policy the journal, if there is one, has the event once, answered or not |
| ScopeRuntime.TakenWrites | app/features/runtime.py:109-145 | An event in time, or late and accepted, sets the watermark of its scope to its available time, back as well as forth, the previous price if its own is positive, and is put at the end of the price queue and of the log, bounded by the window and max(4 * window, 32) |
| RejectPolicy.RejectViews | app/features/runtime.py:163-191 | Under policy reject, whatever the order of arrival, a scope holds what its accepted events leave when taken in turn: those not older than the one accepted before |
| RejectPolicy.TakenKeys | app/features/nodes.py:42-63 | An EMA state exists exactly from the event on that fills its window, and only if the price queue can hold that many |
| Lookbacks.HistoryIsTail | app/features/runtime.py:130-141 | In every reachable state, under every policy, the history of a name is the end, up to 512 values, of all that was emitted under it |
| Lookbacks.EmissionsAreAnswers | app/features/runtime.py:130-145 | Unless late events are replayed, what was emitted under a name is what the answers to the scope's events show under it, in order |
| Lookbacks.LookbackExact | app/features/nodes.py:78-122 | In every reachable state a lag of n gives the n-th last emitted value, and a volatility or z-score of n is the root of the mean square of the last n around their mean, or the last one's distance from it over that root, exactly when n is at most 512 and n values were emitted; otherwise nothing |
| Lookbacks.VariancePositiveIff | app/features/nodes.py:90-122 | The variance a z-score or volatility looks at is never negative, and zero exactly when all the values are the same |
| State.ViewDrop | app/features/state.py:51-59 | A reset forgets one scope entirely and touches no other |
| StateStore.RuntimeStateStore.ResetScope | app/features/state.py:51-59 | The six dictionaries lose the entries of the scope and no others |
| StateStore.RuntimeStateStore.Snapshot | app/features/state.py:61-88 | The payload is a snapshot of the dictionaries, with joined keys as text |
| Snapshot.SnapshotSpelled | app/features/state.py:66-82 | Each EMA is saved under kind, scope and the decimal digits of its window with bars in between, each history under scope, bar and name, and nothing else is |
| StateStore.RuntimeStateStore.FromSnapshot | app/features/state.py:90-124 | Nothing comes back when a joined key does not split; otherwise a store the payload restores to |
| Snapshot.SnapshotRoundTrip | app/features/state.py:61-124 | The whole of a reachable state comes back from its snapshot exactly when no scope in a joined key contains a bar |
| StateStore.ReadableIff | app/features/state.py:97-124 | The snapshot of a reachable state is read without an error exactly when no scope with an EMA contains a bar; one that does makes the whole snapshot unreadable |
| Snapshot.HistoryParsesIff | app/features/state.py:118-124 | The key of a history is always split, and into the scope and name it was joined from exactly when that scope contains no bar |
| Snapshot.BarredScopeReached | app/features/runtime.py:109-145 | In any sound state, an event in time of a scope with a bar that yields a value leaves the scope in a joined key, so the state no longer comes back |
| Recovery.BarredScopeUnreadable | app/features/state.py:97-116 | With an EMA over one price, one event of a scope with a bar leads to a state whose snapshot cannot be read |
| Snapshot.RestoreUnique | app/features/state.py:90-124 | Without bars the payload is read as the state it came from and as nothing else |
| Snapshot.PayloadRestored | app/features/state.py:90-124 | Any payload that can be read, reachable or not, gives the last `effective_window` prices of each scope, the EMA of each key of three parts that ends in digits, and the last 512 values of each key split at its first bar |
| Snapshot.ResumeEqualsContinuous | app/features/recovery.py:42-63 | Saving after any prefix, restoring and going on gives the state and outputs of one uninterrupted run, late events included |
| Recovery.RunRecoverySmokeTest | app/features/recovery.py:42-63 | The test crashes exactly when the nodes cannot be planned, or an EMA that the price queue can hold is planned and a scope with a bar accepts enough events of the first half to fill it; for scopes without bars it passes exactly when an event of the second half is answered, never fails because the restored state diverged, and with a scope per symbol it passes exactly on two events or more |
| RejectPolicy.BarredEmaKept | app/features/state.py:97-116 | After any events, an EMA state is kept for a scope with a bar exactly when such an EMA is planned and such a scope accepted that many events |
| Recovery.SmokeTestPasses | app/features/recovery.py:42-63 | When a scope belongs to one symbol, the outcome specified for scopes without bars is a pass exactly on two events or more |
| Recovery.RestoredBounded | app/features/state.py:90-124 | What is read back of a reachable state is within its bounds, bars or not |
| Nodes.ClipIsNearest | app/features/nodes.py:158-166 | With either bound, both or none, a clipped value lies between them and nothing between them is nearer; of crossed bounds the upper one is returned |
| AsofJoin.PrepareEvents | app/features/materialization.py:52-99 | The loops over aliases and events join each event in turn: under each alias it then has the price of a newest record of its symbol and keys available by its own availability, or what it had if there is none, and everything else about it is unchanged |
| AsofJoin.AsofPick | app/features/asof_join.py:9-17 | The bisection picks the last of the matching records available by the event's availability, or none |
| AsofJoin.JoinedIsNewest | app/features/asof_join.py:9-29 | The joined record is a newest matching one available in time, and nothing is joined only if there is none |
| AsofJoin.JoinsNeverLookAhead | app/features/materialization.py:79-98 | However many joins are made, the cutoff stays the event's own availability and only the joined fields change |
| AsofJoin.LaterRecordsChangeNothing | app/features/materialization.py:52-99 | An event is joined alike from any two lists whose records available by then sort alike: whatever becomes available later may differ and stand anywhere |
| AsofJoin.LaterRecordInserted | app/features/asof_join.py:9-29 | A record available only after an event, inserted at any position, leaves what is known at the event as it was |
| AsofJoin.RecordsReordered | app/features/materialization.py:60-66 | Without ties in (available_ts, event_ts, symbol), the order in which the records are listed leaves what is known as it was |
| Materialization.Materialize | app/features/materialization.py:101-152 | A run stores and returns the specified vectors, each cut off at its availability and with the run's lineage, or nothing when the nodes cannot be planned |
| Materialization.MaterializedCutoffs | app/features/materialization.py:122-126 | Every materialized vector is cut off at its own availability |
| Materialization.MaterializedAre | app/features/materialization.py:118-133 | The vectors of a run are, in order, what a fresh engine answers to the joined events, the lineage of the run aside |
| Materialization.LaterRecordsChangeNoVector | app/features/materialization.py:101-133 | A run materializes the same vectors from any auxiliary records that differ only in what becomes available after each event, wherever it is listed |
| OfflineStore.OfflineFeatureStore.PutMany | app/features/offline_store.py:95-126 | The rows are then those old ones that no vector overwrites and each vector that no later one does, by scope, time, set, version and lineage |
| OfflineStore.OfflineFeatureStore.GetRunVectors | app/features/offline_store.py:190-206 | Exactly the vectors of the run, by symbol, time and available time |
| OfflineStore.PutKeepsDistinct | app/features/offline_store.py:42-56 | No two rows ever share the declared primary key |
| OfflineStore.PointInTimeIsGreatest | app/features/offline_store.py:208-236 | The answer is a greatest row by (ts, available_ts) among those known at the decision time, and there is none only if none was known |
| OfflineStore.LaterRowsKeepAnswer | app/features/offline_store.py:208-236 | Storing any sequence of vectors not known at the decision time changes the answer exactly when one of them overwrites the answer's own key, ties of several runs included |
| OfflineStore.OfflineFeatureStore.GetPointInTime | app/features/offline_store.py:208-236 | The query returns a greatest row by (ts, available_ts) of those known at the decision time, and nothing only if none was known |
| OnlineStoreMemory.MemoryOnlineFeatureStore.Upsert | app/features/online_store_memory.py:29-40 | The vector becomes the latest of its group, the group's history has one more and is sorted again, stably, and no other group changes |
| OnlineStoreMemory.MemoryOnlineFeatureStore.GetRecentHistory | app/features/online_store_memory.py:59-70 | The newest rows of the group, newest first: as many as there are up to a limit of at least one, all for zero, and all but the oldest n for minus n |
| OnlineStoreMemory.MemoryOnlineFeatureStore.GetSnapshotBefore | app/features/online_store_memory.py:85-97 | A newest vector of the group with both times by the cutoff, or nothing if there is none |
| OnlineStoreMemory.MemoryOnlineFeatureStore.GetLatestServable | app/features/online_store_memory.py:53-57 | The latest of the group exactly when both its times are by the decision time |
| OnlineStoreMemory.HistoryIsSorted | app/features/online_store_memory.py:36-40 | After any upserts a group's history is everything upserted to it in order of time, ties in order of arrival |
| Sorting.SortStable | app/features/online_store_memory.py:40 | What ties under the order of a sort keeps its order, as with Python's `sort` |
| OnlineStoreMemory.MemorySnapshotIsGreatest | app/features/online_store_memory.py:85-97 | The answer before a cutoff is a greatest vector known by it, and there is none only if none was known |
| OnlineStoreMemory.LaterVectorsKeepSnapshot | app/features/online_store_memory.py:96-97 | Vectors not yet known at the cutoff never change the answer |
| OnlineStoreMemory.MemoryLatestIff | app/features/online_store_memory.py:53-57 | After any upserts, a servable latest vector of any group is the answer before the decision time exactly when no vector of the group known by then is newer |
| OnlineStoreMemory.MemoryLatestIsSnapshot | app/features/online_store_memory.py:53-57 | So it is for every group whose vectors came in order, whatever came to the others |
| OnlineStoreMemory.RecentHistoriesAgreeIff | app/features/online_store_memory.py:70 | On rows never rewritten the two stores agree about recent history exactly for limits of at least one, or an empty history |
| OnlineStore.OnlineFeatureStore.Upsert | app/features/online_store.py:88-138 | Both tables take the vector, a row of the same key goes, and the history of its group, and no other, is pruned |
| OnlineStore.OnlineFeatureStore.GetRecentHistory | app/features/online_store.py:192-215 | For limits of at least one: the newest rows of the group, as many as there are up to the limit, newest first; for zero none, and below zero all |
| OnlineStore.OnlineFeatureStore.GetSnapshotBefore | app/features/online_store.py:242-265 | A newest row of the group with both times by the cutoff, or nothing if there is none |
| OnlineStore.OnlineFeatureStore.GetLatestServable | app/features/online_store.py:173-190 | The latest of the group exactly when both its times are by the decision time |
| OnlineStore.OnlineFeatureStore.PruneHistory | app/features/online_store.py:267-329 | Collecting per group and deleting by key leaves exactly the rows that are not too many in a selected group |
| OnlineStore.RankedPruned | app/features/online_store.py:302-327 | Pruning, for one group or for all, leaves a selected group exactly its newest rows up to the cap, on rows that are consistent |
| OnlineStore.RankedPrunedElsewhere | app/features/online_store.py:278-290 | Pruning one group leaves every other as it was |
| OnlineStore.PrunedIsTopK | app/features/online_store.py:302-327 | After any upserts a group capped at k holds exactly the k newest rows of an unpruned store |
| OnlineStore.RecentHistorySurvivesPruning | app/features/online_store.py:192-215 | Recent history up to the cap is that of a store that never prunes |
| OnlineStore.SnapshotSurvivesPruning | app/features/online_store.py:242-265 | A pruned store's answer before a cutoff is the unpruned one, and it has one exactly when that is among the k newest rows |
| OnlineStore.LatestIsLast | app/features/online_store.py:91-120 | After any upserts the latest table holds, of each group, the vector upserted last to it |
| OnlineStore.LatestServableIff | app/features/online_store.py:173-190 | After any upserts under any cap, a servable latest vector of any group is the answer before the decision time exactly when no vector of the group known by then is newer and pruning has kept it |
| OnlineStore.LatestServableIsSnapshot | app/features/online_store.py:173-190 | So it is for every group whose vectors came in order, whatever came to the others |
| OnlineStore.LaterUpsertsKeepSnapshot | app/features/online_store.py:242-265 | Without pruning, vectors not yet known at the cutoff never change the answer |
| Cache.FeatureCache.Put | app/features/cache.py:17-32 | Set in place or append, sort when out of order, drop the oldest when over capacity: the new vector and those kept at other times, less the oldest when that is one too many, and no other symbol touched |
| Cache.CacheIsTopK | app/features/cache.py:17-32 | After any puts in any order of time a symbol has, sorted, the entries of an unbounded cache at the `capacity` greatest times |
| Cache.UnboundedIsLastPut | app/features/cache.py:22-29 | The unbounded cache holds, for each time, what was put there last |
| Cache.GetAtRefinesUnbounded | app/features/cache.py:40-52 | A hit is what was last put for the greatest time not after the target; a miss means everything kept is later |
| Cache.FeatureCache.GetAt | app/features/cache.py:40-52 | The bisection finds a vector of the symbol with the greatest time not after the target, and nothing exactly when the nearest is further away than the tolerance or all are later |
| TopK.KeptIsTopK | app/features/cache.py:31-32 | Forgetting all but the k greatest after every put is forgetting them once at the end |
| SyncCrashes.DeadSyncsOnlyFinishFiles | app/controlplane/builder.py:30-51 | After any run with syncs that died anywhere, a complete sync leaves what it would have left had each of them stopped cleanly before the file it died in |
| SyncCrashes.DeadSyncsAreHarmless | app/controlplane/builder.py:30-51 | If no health report is appended between a death behind newly committed summaries and the next complete sync, a complete sync leaves what it would have left had the dead syncs never been begun |
| SyncCrashes.HarmlessUpToSummaries | app/controlplane/builder.py:30-51 | Removing the syncs that die in a file never shows exactly when the file is not read after the summaries: behind them, committed summaries and later health reports change places |
| SyncShapes.HarmlessShapeIff | app/controlplane/builder.py:30-51 | For a given sequence of appends, syncs and deaths, removing the dead syncs never shows, whatever the lines say and wherever in its file each sync died, exactly when no health report comes between a death behind newly committed summaries and the next complete sync |
| SyncCrashes.LateHealth | app/controlplane/builder.py:66-138 | For each file read after the summaries, a run in which the health report has the last word with the dead sync and the summary without it |
| SyncCrashes.AlertsKept | app/controlplane/sqlite_store.py:202-228 | No step of the builder, crashed or not, changes an alert that is already there, so an acknowledgement is never lost |
| SyncReads.EveryLineRead | app/controlplane/builder.py:30-51 | After any run with syncs that died anywhere, a complete sync leaves a run and a stream for exactly the names the logs ever gave, one alert for each payload, for each key the checkpoint of its last line, and all offsets at the ends |
| ReadModel.ReadByName | app/controlplane/builder.py:33 | The logs are read in the order of their file names |
| Rows.SummaryWrites | app/controlplane/builder.py:66-101 | A summary writes the run it names and, under each of its labels, the last metric's stream: degraded exactly when one of seven named counters is positive, every field spelled out, nothing else touched |
| Rows.HealthWrites | app/controlplane/builder.py:103-138 | A health report writes the run it names, degrades the streams it lists and creates those unknown with a label of three parts, every field spelled out, nothing else touched |
| Rows.AlertWritten | app/controlplane/builder.py:140-158 | A payload not yet known gets an open alert, every field spelled out, and a known one nothing |
| Rows.CheckpointWritten | app/controlplane/builder.py:160-176 | The checkpoint under a key, every field spelled out; none for an empty key or a star |
| ReadModel.SummaryRunsMakeUp | app/controlplane/builder.py:66-82 | Summaries applied too early leave no trace in a run once health reports and all the summaries were applied |
| ReadModel.HealthRunsMakeUp | app/controlplane/builder.py:103-118 | Health reports applied twice over leave a run as applied once, results they do not name included |
| ReadModel.HealthStreamsMakeUp | app/controlplane/builder.py:119-138 | Health reports applied twice over leave a stream as applied once, whether it existed, was created, or has no three-part label |
| ReadModel.SummaryStreamsMakeUp | app/controlplane/builder.py:83-101 | Summaries applied too early leave no trace in a stream |
| ReadModel.AlertsMakeUp | app/controlplane/builder.py:140-158 | Alerts inserted twice over are inserted once |
| ReadModel.CheckpointsMakeUp | app/controlplane/builder.py:160-176 | Checkpoint references applied twice over count once |
| ReadModel.LinesLeftBehind | app/controlplane/builder.py:40-49 | Dying after any line leaves each row with the first of its pending writes |
| Builder.ReadModelBuilder.ApplySummary | app/controlplane/builder.py:66-101 | The run of the summary and the stream of each label, that of its last metric, are written and no others, field by field; so the step of the model says |
| Builder.ReadModelBuilder.ApplyHealth | app/controlplane/builder.py:103-138 | The run of the report is written, the streams it lists are degraded or created, and no others, field by field; so the step of the model says |
| Builder.ReadModelBuilder.ApplyAlert | app/controlplane/builder.py:140-158 | One open alert per payload, field by field, the first insertion kept |
| Builder.ReadModelBuilder.ApplyCheckpointRef | app/controlplane/builder.py:160-176 | The checkpoint of a stream key, field by field, none for an empty key or a star |
| Builder.ReadModelBuilder.SyncFile | app/controlplane/builder.py:36-51 | The lines after the offset are applied once and the offset is stored last; dying before that keeps the old offset |
| Builder.ReadModelBuilder.SyncOnce | app/controlplane/builder.py:30-34 | The five logs in sorted order: a sync is one step of the crash model, complete or dead in a file with what it left behind |
| Builder.ControlPlaneStore.AckAlert | app/controlplane/sqlite_store.py:230-241 | An open alert is acknowledged once; later acknowledgements change nothing |
| Builder.ControlPlaneStore.InsertAlertRow | app/controlplane/sqlite_store.py:202-228 | Insert or ignore |
| CommandQueue.ExecutorStartsOnce | app/controlplane/worker.py:55-80 | In every run with crashes an executor starts at most once per command |
| CommandQueue.RunTracks | app/controlplane/worker.py:55-116 | In every reachable state each command's statuses, starts and audit rows fit together |
| CommandRuns.StatusesInOrderIff | app/controlplane/worker.py:55-116 | In every run with crashes, a command is pending, running, then succeeded or failed for good exactly when the worker makes no uninterrupted pass on it that executes with an unwritable result and completes it again |
| CommandRuns.StatusFollows | app/controlplane/sqlite_store.py:313-351 | So it is for every command when every executed result can be written to the audit table |
| CommandRuns.SuccessThenFailure | app/controlplane/worker.py:73-102 | A run of one command, from an empty queue, whose status goes from succeeded to failed |
| CommandRuns.UnwritableResultFailsLater | app/controlplane/worker.py:73-102 | A result that the audit table cannot hold makes its command fail after it has succeeded |
| CommandRuns.ClaimedInOrderIff | app/controlplane/sqlite_store.py:315-331 | Commands are claimed in order of their request times exactly when none of them was put into the queue after one requested later had been claimed |
| CommandRuns.OvertakenClaim | app/controlplane/sqlite_store.py:315-331 | A run in which the command requested first is claimed last |
| CommandRuns.TrailInOrderIff | app/controlplane/api.py:665-702 | An audit trail is a beginning of queued, started, outcome exactly when the worker did not record the start before the API had recorded the request |
| CommandRuns.RaceBreaksTrail | app/controlplane/worker.py:55-72 | A run in which it did, between the two writes of the API |
| Worker.CommandTables.ClaimNextCommand | app/controlplane/sqlite_store.py:313-331 | A pending row with the earliest request time becomes running, or no row is pending |
| Worker.CommandTables.UpdateStatus | app/controlplane/sqlite_store.py:333-351 | One row changes its status and no other row changes |
| Worker.CommandTables.EnqueueCommand | app/controlplane/sqlite_store.py:275-298 | A new pending row with its request time, and nothing else |
| Worker.ProcessNextCommand | app/controlplane/worker.py:55-116 | One pass claims a pending row requested earliest, leaves it succeeded exactly when its execution succeeded with a writable result and failed otherwise, and appends its start and that outcome to the audit; it makes exactly the steps of the queue model |
| Backfill.FetchTrades | app/ingestion/backfill.py:186-236 | For every page limit, against a server whose ids increase and times never decrease, the pager ends with exactly the trades of the half-open range, once each and in order |
| Backfill.FetchKlines | app/ingestion/backfill.py:151-183 | Against non-overlapping bars the pager ends with every bar opening in the half-open range, and the bar opening exactly at its end unless a full last page ends right before it |
| Backfill.FetchedBars | app/ingestion/backfill.py:151-183 | The bars returned are those from the start on, before the end, and the one at the end when the rule says so, all in order and once each |
| Backfill.EndExclusiveIff | app/ingestion/backfill.py:151-183 | The end of the range is exclusive exactly when no bar opens there or a full last page ends right before it |
| Backfill.EndReturned | app/ingestion/backfill.py:151-183 | Two bars for which the one at the end comes back with pages of two and not with pages of one |
| Breaking.AlwaysSound | app/ingestion/circuit_breaker.py:21-52 | In every run half-open means that one probe is out, and an open breaker knows since when |
| Breaking.GrantedIff | app/ingestion/circuit_breaker.py:21-52 | In every run a request is let through exactly when since the last success there were no failures or fewer than the threshold, or else when the timeout has passed since the last failure and no request came before it that late |
| Breaking.GrantsAreSpaced | app/ingestion/circuit_breaker.py:21-39 | Until a success, requests let through by a breaker that is not closed are at least the reset timeout apart |
| Breaking.FirstGrantWaits | app/ingestion/circuit_breaker.py:25-33 | After an opening nothing is let through before the reset timeout has passed |
| Breaking.GrantRateBound | app/ingestion/circuit_breaker.py:21-52 | A span T without a success holds at most floor(T / reset) + 1 requests let through |
| Breaking.CircuitBreaker.AllowRequest | app/ingestion/circuit_breaker.py:21-39 | The answer and the new state, as the model's step says, whose grants over whole runs are characterised above |
| Breaking.CircuitBreaker.RecordFailure | app/ingestion/circuit_breaker.py:47-52 | A failure while half-open or at the threshold opens the breaker from now on |

## Left out

- Prices that are not finite, which only the runtime drops, and floating-point rounding: prices are real numbers.
- Strict temporal modes, missing entity keys and their error, the normalization of symbols and keys, stale `feature_entity_scope` metadata: an event carries its scope, and its available time is given.
- Processing, publishing and observation times, sources and other metadata of events, which no computation reads.
- Custom aggregators and transformers, which are arbitrary plug-in functions; an aggregator is one of the four built-in ones.
- Node parameters the source rejects or that mean nothing there: windows below one, lag periods below one, a negative epsilon.
- Nodes with several outputs: each node has the one output its `compute` writes.
- Reading a missing entry of a `defaultdict` inserts the default; the model treats an absent entry and a default one as the same.
- The engine's call of `cache.put` and its latency figures; the cache is modelled on its own.
- JSON, ISO dates and hashes: encoding is identity and digests tell payloads apart. Only the joining and splitting of keys at bars is modelled.
- `append_many` of the journal, which is a loop of `append`, and `reset` of all scopes.
- Declared and required auxiliary inputs, quality flags and the record of a materialization run.
- Auxiliary metadata other than the joined price, and `allow_exact=False` of `asof_pick`, which nothing uses.
- Lookups by symbol alone instead of by scope, range queries, and the store's `reconstruct_run`.
- Retention by age in `prune_history`: the theorems are about a cap on rows.
- OnlineStore.PrunedIsTopK: assumes distinct (ts, available_ts) per group and no (ts, lineage) rewritten with another available_ts; without that SQLite's own order of ties decides which row is pruned.
- Recovery.RunRecoverySmokeTest: when histories, but no EMA of the first half, belong to scopes with bars, only that the test does not crash is stated; which of two clashing histories survives depends on the order of a dictionary.
- The second, operational recovery test, which adds serving to the first.
- Details of the logs: lines that do not parse as JSON, metrics that are not dictionaries, and files with names other than the five that the system writes into the telemetry directory; the builder would only move their offsets, and dying in one is like dying in `recovery_command_audit.jsonl` when it is read after the summaries.
- Writes of one telemetry line are in the order in which the line lists them; the theorems about dying syncs hold for every order, since they look at one row at a time.
- Acknowledgements between a dying sync and the next one: the theorems about dead syncs assume none, and `SyncCrashes.AlertsKept` says what holds of them.
- Two builders or two workers on one database, and store writes that fail, except the audit row of a result that is not JSON.
- HTTP, retries and sleeps of the pagers, the normalization of rows and the count of gaps between bars.
- Release registry, rollout, serving contracts, docs generation, configuration and sinks: mostly one-branch decisions.
