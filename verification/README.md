# Verified model of the graphify daemon

The daemon watches a vault of Markdown and Python files, compiles changes to them in batches, and serves
queries over the graph it builds. This project models its incremental compiler and what surrounds it, and
proves what every run keeps.

Each source file has a module of its own, in the form the source has: classes whose methods update fields,
loops over a batch, an array that is stamped in place. Every method is tied to a function on values, and the
theorems are about those functions and about five machines built from them.

| modules | what they describe |
|---|---|
| `Batching`, `SlowCadence`, `Extraction`, `VaultIndex`, `Snapshot`, `ColdStart`, `QueryCache` | one source file each: its state, its operations, what they guarantee |
| `Protocol`, `ProtocolLocks`, `ProtocolShutdown`, `ProtocolConservation`, `ProtocolTimers`, `ProtocolCadence`, `ProtocolRuns`, `ProtocolTracker`, `ProtocolOrder`, `ProtocolBound` | the threads of the daemon (observer, debounce timers, idle timers, any number of `shutdown` callers) as one machine with a step for each critical section; theorems in the last four |
| `Merging` | merging a cache into nodes and edges, and when two caches merge alike |
| `Compiler`, `CompilerRuns`, `RaisingBatches`, `Crashes` | what runs under the writer lock, with every place where it can raise, and the sequences of such runs |
| `Consistency`, `ConsistencyRuns` | the vault changing while earlier changes to it are compiled, in any order |
| `Restarts` | what a cold start can trust of a cache that stopped at any moment |
| `QueryApi` | concurrent `query_graph` requests that share the cache while snapshots are published |
| `Handoff` | the clustering subprocess, its parent and the bounded pipe between them |
| `Truncation` | cutting lines to a token budget |
| `Collections` | Python's ordered dictionary and a few sequence functions |

In a machine every finite sequence of steps is a run: a step that is not enabled leaves the state alone. So a
lemma over all step sequences is a statement about every interleaving, and no fairness is assumed.

The libraries are parameters: the extractors, the graph builder, the query, the clustering result and the
renaming of communities are arbitrary functions, and the clock and file-system answers are inputs. Three
hypotheses hold throughout: a file change raises one event, every path resolves inside the vault (a rename
is not checked for that, batching.py:97-110), and the vault stands still while cold start walks it. Further
hypotheses are `requires` clauses.

## Where the code does less than it says

- Shutdown (daemon.py:243-254) promises to compile whatever is pending before it persists. A debounce thread
  that has taken its batch, and has not yet taken the writer lock, is missed: `persist` can run first.
  `PersistSeesEverythingButTheGap` shows that this is the only way, `ShutdownCanMissABatch` gives the run.
- A stale debounce timer forgets a newer one, so two can be armed: `TwoDebounceTimersCanBeArmed`. Such a stale
  flush is the only step that does it (`OrphanStep`), and in a run without one a single timer is armed at any
  moment (`StaleFlushesArmASecondTimer`). No pending change is lost by it: `NothingPendingIsAbandoned`.
- `threading.Lock` does not promise that batches compile in the order they were flushed, and threads do overtake:
  `OvertakenBatch`. They do not exactly when each acquire is by the thread with the earliest batch
  (`InOrderExactlyWhenNobodyOvertakes`), and then changes reach the compiler as they arrived
  (`ChangesEnterInArrivalOrder`). Whatever the order, a settled path is wrong exactly when its file is there,
  extracts, and was last compiled for a removal: `InStepUnlessLost`. `OutOfOrderLosesAFile` gives a run, and
  compiling each path's changes in arrival order is one way to exclude it: `OrderedRunsLoseNothing`.
- A batch that raises in extraction gives up the changes that it had not reached, and nothing brings them back:
  `DroppedChangeIsMissed`. At every path that they do not touch all of the above still holds.
- A cycle that raises leaves the changes counted so far without an idle timer: `RaisingCycleStrandsTheCount`. The
  next batch that gets past its cycle has them watched again (`NextBatchRestoresTheWatch`); an exception before the
  batch is recorded disturbs nothing (`CadenceStrandsNothing`).
- The observer starts after cold start has walked the vault (daemon.py:336-338), and a change in between raises no
  event. The path stays out of step until another change to it is compiled: `UnwatchedChangeStays`,
  `UnwatchedWriteIsMissed`.
- A restart believes an entry whose mtime is the file's. Two things can make it believe a wrong one while a change
  to the path has not been compiled. `extract_batch` reads a file and only then asks for its mtime, so a write in
  between files the old content under the new mtime: `TornEntryMisleads`. And a path may show one mtime with two
  contents, as when a file is moved over another of the same mtime: `SharedMtimeMisleads`. At a path that does
  not, only a torn entry can mislead: `OnlyTornEntriesMislead`.
- The first cold start fills the cache and writes no row (`FirstStartWritesNoRow`), and no cold start looks at the
  table. Row and entry fit exactly where a batch has touched the path since, or they fitted at the start:
  `IndexAgreesWithCache`.
- A batch that raises between extraction and publication can leave the cache ahead of the graph:
  `RaisingLeavesReadersBehind`. `RaisingBatchIsInvisible` says from the batch and the cache before it exactly when
  it does; the next successful batch repairs it (`PublishedGraphIsRebuild`).
- An empty filter list shares its cache key with no filter (tools.py:417). `CachingIsInvisible` gives the exact
  condition under which no client can notice.
- Draining before joining still hangs when the child dies in the middle of its message, since the `get`
  timeout does not cover the rest of a message that has begun: `OrphanIsReached`; and in no other way:
  `DrainFirstNeverDeadlocks`.
- With a warning threshold below 1 the backpressure flag is wrong from the start: `BackpressureIsExact`.

`_cut_lines_to_budget` on its own miscounts lines that contain newlines (`MiscountsExactly`). Both of its callers
(tools.py:237-285) put every text that could hold one through the library's `sanitize_label`, so a client sees
that only if `sanitize_label` keeps newlines; that function is not part of this model.

## Model

| member | source | states |
|---|---|---|
| Batching.VaultWatcher.QueueChange | src/graphify_daemon/vault_compiler/batching.py:224-244 | a rejected change leaves everything alone; otherwise it is appended, the old timer is cancelled and replaced, and the episode warns once |
| Batching.VaultWatcher.Flush | src/graphify_daemon/vault_compiler/batching.py:246-256 | hands over all that is pending and forgets the timer in the slot; with nothing pending it changes nothing, the slot included |
| Batching.VaultWatcher.DrainPendingBatch | src/graphify_daemon/vault_compiler/batching.py:197-222 | cancels both timers and takes all that is pending |
| Batching.VaultWatcher.RejectNewEvents | src/graphify_daemon/vault_compiler/batching.py:185-195 | closes the watcher to new changes and keeps what is pending |
| Batching.VaultWatcher.ScheduleIdle | src/graphify_daemon/vault_compiler/batching.py:159-176 | replaces the idle timer and cancels the one before |
| Batching.VaultWatcher.CancelIdle | src/graphify_daemon/vault_compiler/batching.py:178-183 | clears the idle timer and cancels it |
| Batching.VaultWatcher.Stop | src/graphify_daemon/vault_compiler/batching.py:148-155 | cancels both timers and keeps what is pending |
| Batching.OnAnyEvent | src/graphify_daemon/vault_compiler/batching.py:88-111 | a change comes of an event exactly when it is about a file and reports a move, or a creation, modification or deletion at an observed path inside the vault; its kind is the event's, and its paths are the event's |
| ProtocolRuns.RunIsSafe | src/graphify_daemon/daemon.py:138-192 | every run keeps the lock, shutdown, conservation, timer-slot and liveness invariants together |
| ProtocolRuns.WriterExcludes | src/graphify_daemon/artifact_lifecycle/shutdown.py:17-36 | batches, idle cycles and `persist` never overlap |
| ProtocolRuns.LifecycleMovesForward | src/graphify_daemon/daemon.py:255-268 | the state only moves forward between any two moments of a run; `persist` starts at most once, whoever calls `shutdown` and however often, and has started exactly once when STOPPED |
| ProtocolRuns.ChangesAreConserved | src/graphify_daemon/vault_compiler/batching.py:197-256 | accepted changes, in arrival order, are the batches taken so far followed by what is pending; a batch is settled iff no thread holds it, and no two threads hold the same one |
| ProtocolRuns.PersistSeesEverythingButTheGap | src/graphify_daemon/daemon.py:259-265 | while `persist` runs nothing is pending and every unsettled batch is between `_flush` and the writer lock; so all accepted changes went through the compiler iff no thread is in that gap |
| ProtocolRuns.OnlyRaisingFails | src/graphify_daemon/daemon.py:138-171 | when nothing has raised, every settled batch was compiled |
| ProtocolRuns.ShutdownCanMissABatch | src/graphify_daemon/daemon.py:243-268 | a run in which `persist` starts while an accepted change has been compiled by nobody and nothing raised |
| ProtocolRuns.LateCallersReturn | src/graphify_daemon/daemon.py:255-258 | the first caller moves RUNNING to STOPPING; every other returns at once and changes nothing |
| ProtocolRuns.ShutdownQuietsTheWatcher | src/graphify_daemon/daemon.py:259-265 | the drain and the stop leave no idle timer armed; from the drain on nothing is pending and the debounce slot is empty; the observer has stopped before `persist` |
| ProtocolRuns.ShutdownIsNeverStuck | src/graphify_daemon/daemon.py:255-268 | while a caller shuts the daemon down, it or the holder of the writer lock it waits for has a step that changes the system |
| ProtocolBound.ThreadsComeToRest | src/graphify_daemon/daemon.py:138-192 | between any two moments of a run, the steps in which a thread does something are bounded by the work left at the first, 15 for each change accepted since and 21 for each call of `shutdown` since |
| ProtocolBound.RejectingAcceptsNothing | src/graphify_daemon/vault_compiler/batching.py:185-195 | once the watcher rejects, nothing more is accepted, and that bound is the work left and what further calls bring |
| ProtocolOrder.UnsettledIsOnItsWay | src/graphify_daemon/artifact_lifecycle/shutdown.py:30-32 | while nobody holds the writer lock, every batch that is not settled is being brought to it by a thread |
| ProtocolOrder.InOrderExactlyWhenNobodyOvertakes | src/graphify_daemon/artifact_lifecycle/shutdown.py:30-32 | batches enter the compiler in the order they were taken iff no acquire is by a thread while another brings an earlier batch |
| ProtocolOrder.ChangesEnterInArrivalOrder | src/graphify_daemon/vault_compiler/batching.py:224-256 | and then the changes that have entered it are a prefix of the accepted ones |
| ProtocolOrder.OvertakenBatch | src/graphify_daemon/artifact_lifecycle/shutdown.py:30-32 | a run in which the second batch is compiled while a thread still brings the first |
| ProtocolRuns.NothingPendingIsAbandoned | src/graphify_daemon/vault_compiler/batching.py:224-256 | whatever is pending has a debounce timer that is armed, or has fired and is about to flush |
| ProtocolRuns.OneIdleTimerArmed | src/graphify_daemon/vault_compiler/batching.py:159-183 | at most one idle timer is armed, in every run |
| ProtocolRuns.TwoDebounceTimersCanBeArmed | src/graphify_daemon/vault_compiler/batching.py:246-256 | a run with two armed debounce timers |
| ProtocolTimers.OneArmedAfterObserve | src/graphify_daemon/vault_compiler/batching.py:240-244 | after an accepted change at most one debounce timer is armed iff before it every armed one was in the slot |
| ProtocolTimers.OrphanStep | src/graphify_daemon/vault_compiler/batching.py:246-256 | of all steps of all threads only a stale flush, while another armed timer is in the slot, takes an armed timer out of it, and it always does |
| ProtocolRuns.StaleFlushesArmASecondTimer | src/graphify_daemon/vault_compiler/batching.py:224-256 | in every run without a stale flush at most one debounce timer is armed throughout, and a change accepted after one more step keeps it so iff that step is not a stale flush |
| ProtocolRuns.BackpressureHolds | src/graphify_daemon/vault_compiler/batching.py:228-239 | for a threshold of at least 1: the flag is set iff the queue has reached it, the gauge is the queue's length, and the warnings are the batches taken at or above it plus the current crossing |
| ProtocolRuns.BackpressureIsExact | src/graphify_daemon/vault_compiler/batching.py:215-239 | that accounting holds in every run iff the threshold is at least 1 |
| ProtocolRuns.CadenceStrandsNothing | src/graphify_daemon/daemon.py:155-192 | recorded changes are those consumed by cycles plus the count, for any threshold and whatever raised; and until shutdown drains, when the writer lock is free a non-zero count is below the threshold and has an idle timer armed or waiting, unless an exception after the recording of a batch or in a cycle stranded it |
| ProtocolRuns.NextBatchRestoresTheWatch | src/graphify_daemon/daemon.py:155-171 | whatever raised before, a batch that gets past its cycle leaves the count below the threshold with an idle timer, or at zero |
| ProtocolRuns.RaisingCycleStrandsTheCount | src/graphify_daemon/artifact_lifecycle/cadence.py:53-65 | a run after which one change is counted, the writer lock is free and no idle timer exists |
| ProtocolRuns.IdleTimerTriggers | src/graphify_daemon/vault_compiler/slow_cadence.py:35-42 | an idle timer that runs with no batch after it finds its quiet time elapsed and consumes the whole count, unless the count was stranded |
| ProtocolTracker.TrackerIs | src/graphify_daemon/vault_compiler/slow_cadence.py:31-42 | in every run the tracker holds the number of changes in the batches recorded since the last completed cycle, and the time of the last record or completed cycle |
| ProtocolTracker.CyclesExactlyWhenDue | src/graphify_daemon/artifact_lifecycle/cadence.py:53-54 | in every run a thread goes into a cycle iff that number has reached the threshold or the quiet time has passed since that time |
| ProtocolTracker.BatchBelowBoundsWaits | src/graphify_daemon/daemon.py:163-171 | a batch below both bounds consumes nothing and arms the idle timer for exactly one quiet time from then |
| ProtocolTracker.TriggeredBatchDisarms | src/graphify_daemon/daemon.py:165-169 | a batch whose cycle completed leaves no idle timer armed |
| ProtocolCadence.CadenceStep | src/graphify_daemon/daemon.py:155-192 | every step, raising ones included, keeps the cadence invariant: its accounts always, and until shutdown drains its coverage by an idle timer except while a late exception has the count stranded |
| ProtocolConservation.ConservationStep | src/graphify_daemon/vault_compiler/batching.py:224-256 | every step keeps the ledger of changes and batches: one thread passes its batch on, takes everything pending, or settles what it holds |
| ProtocolShutdown.ShutdownInvStep | src/graphify_daemon/daemon.py:255-268 | every step keeps what the winning caller has settled so far: events rejected, queue empty, `persist` at most once |
| SlowCadence.SlowCadenceTracker.Triggers | src/graphify_daemon/vault_compiler/slow_cadence.py:35-38 | triggers iff the count or the quiet time has reached its bound; `ProtocolTracker.CyclesExactlyWhenDue` says the same of runs |
| SlowCadence.SlowCadenceTracker.RecordBatch | src/graphify_daemon/vault_compiler/slow_cadence.py:31-33 | adds to the count and restarts the quiet time |
| Extraction.StampInPlace | src/graphify_daemon/vault_compiler/extraction.py:45-49 | every node and edge is given the path as its source and keeps its other attributes |
| Extraction.Isolated | src/graphify_daemon/vault_compiler/extraction.py:53-91 | there is a result exactly when the file is there and the extractor answers, and then it is the answer, item by item, with the path as the source throughout |
| Extraction.ExtractionCache.Set | src/graphify_daemon/vault_compiler/extraction.py:111-115 | replaces the entry, and the mtime only when one is given |
| Extraction.ExtractionCache.Remove | src/graphify_daemon/vault_compiler/extraction.py:125-130 | drops entry and mtime together |
| Extraction.ExtractBatch | src/graphify_daemon/vault_compiler/extraction.py:178-200 | the loop makes of the cache what the fold over the batch's changes makes of it |
| Extraction.ExtractAllAt | src/graphify_daemon/vault_compiler/extraction.py:179-200 | what a batch does at a path is decided by the last change that touches it: nothing, no entry, the extraction with its mtime, or what was there before a failed extraction |
| Extraction.ExtractAllKeeps | src/graphify_daemon/vault_compiler/extraction.py:189-199 | a successful extraction is in the cache after the batch, with its mtime, or the one recorded before when the file had gone, unless a later change touched its path |
| Extraction.FailureKeepsEntry | src/graphify_daemon/vault_compiler/extraction.py:189-193 | a failed extraction leaves the path with the entry and mtime it had before |
| Extraction.ExtractAllProvenance | src/graphify_daemon/vault_compiler/extraction.py:179-200 | entries keep carrying their own path, and mtimes stay a subset of entries |
| VaultIndex.SyncBatch | src/graphify_daemon/artifact_lifecycle/vault_index.py:85-116 | all of the batch's rows are written in one transaction, or on a closed connection none |
| VaultIndex.SyncAllAt | src/graphify_daemon/artifact_lifecycle/vault_index.py:85-116 | after the batch a path's row is as the last change that touches it asks, with the counts of the cache as it is |
| VaultIndex.SyncAllStats | src/graphify_daemon/artifact_lifecycle/vault_index.py:100-115 | a row has its file's mtime and size as of the last change that touches it, or zeros for a file that had gone |
| VaultIndex.FoldsAgree | src/graphify_daemon/artifact_lifecycle/vault_index.py:85-116 | extraction and index, folding over the same batch, meet at every path: both untouched, both gone, or a row with the counts of the entry |
| Snapshot.BuildGraph | src/graphify_daemon/vault_compiler/snapshot.py:31-44 | the builder gets the nodes and edges of all entries, in the order of the cache |
| Snapshot.MergedNodesAreSourced | src/graphify_daemon/vault_compiler/snapshot.py:39-42 | every merged node names a cached path |
| Snapshot.MergedEdgesAreSourced | src/graphify_daemon/vault_compiler/snapshot.py:39-43 | every merged edge names a cached path |
| Merging.GatheredEqualExactly | src/graphify_daemon/vault_compiler/snapshot.py:39-43 | for blocks that name their own key, two merges are equal iff every key has the same block and the keys that have one come in the same order |
| Snapshot.MergedEqualExactly | src/graphify_daemon/vault_compiler/snapshot.py:39-44 | two caches give the builder the same nodes and edges iff they agree path by path and in that order |
| Snapshot.SnapshotHolder.Publish | src/graphify_daemon/vault_compiler/snapshot.py:59-69 | the snapshot becomes current under the next version, all at once |
| ColdStart.WalkVault | src/graphify_daemon/artifact_lifecycle/cold_start.py:57-76 | returns the observed files and extracts exactly those whose mtime is not the recorded one |
| ColdStart.DropUnobserved | src/graphify_daemon/artifact_lifecycle/cold_start.py:78-80 | drops the listed entries that were not observed |
| ColdStart.ColdStart | src/graphify_daemon/artifact_lifecycle/cold_start.py:25-83 | publishes the rebuild of the reconciled cache with no communities, and extracts exactly the stale files |
| ColdStart.ReconciledAt | src/graphify_daemon/artifact_lifecycle/cold_start.py:57-80 | no key outside the observed files survives, and each observed file is as its own visit left it |
| ColdStart.ColdStartTakesWhatExtracts | src/graphify_daemon/artifact_lifecycle/cold_start.py:68-76 | a file with its recorded mtime, or that the extractor answers with nothing, keeps entry and mtime; any other gets the answer, item by item, with its own source and mtime |
| ColdStart.ColdStartIsASoundSpeedUp | src/graphify_daemon/artifact_lifecycle/cold_start.py:68-83 | starting from a cache agrees with starting from nothing, on all files that extract, iff the entries trusted by mtime are extractions of their files |
| ColdStart.RestartChangesNothing | src/graphify_daemon/artifact_lifecycle/cold_start.py:57-80 | nothing is extracted and nothing changes iff every observed file has its mtime recorded and every entry is an observed file |
| Consistency.RunKeepsWorldInv | src/graphify_daemon/vault_compiler/batching.py:88-111 | from any cache, with writes, deletes, renames and compiles in any order: at each path that no dropped change touches, one that is gone has a removal to come or has left the cache, and one that is there and settled is as its last compiled change left it |
| ConsistencyRuns.InStepExactlyWhenCaughtUp | src/graphify_daemon/vault_compiler/extraction.py:179-200 | at every moment, a path that no waiting or dropped change touches and that is not in work is in step with the vault, mtime included, iff its last compiled change installs it, or takes away what does not extract, or there is none and it started in step |
| ConsistencyRuns.InStepUnlessLost | src/graphify_daemon/vault_compiler/extraction.py:179-200 | after a cold start such a path is in step iff it is not a file that extracts and was last compiled for a removal |
| ConsistencyRuns.QuietCacheEqualsRebuild | src/graphify_daemon/vault_compiler/extraction.py:179-200 | with nothing uncompiled the cache is at each path that is absent, excluded or extracts, and that no dropped change touches, what a full rebuild gives, iff the path is not lost |
| ConsistencyRuns.QuietRestartChangesNothing | src/graphify_daemon/artifact_lifecycle/cold_start.py:68-80 | and a restart then extracts nothing and changes nothing, when every observed file extracts and nothing observed was dropped, iff no observed path is lost |
| ConsistencyRuns.OrderedRunsLoseNothing | src/graphify_daemon/vault_compiler/batching.py:224-256 | when the changes of each path compile in arrival order, every observed path is at every moment touched by a waiting or dropped change, in work, or in step |
| ConsistencyRuns.ArrivalOrderIsOrdered | src/graphify_daemon/vault_compiler/batching.py:224-256 | compiling all changes in arrival order is such an order |
| ConsistencyRuns.OutOfOrderLosesAFile | src/graphify_daemon/artifact_lifecycle/shutdown.py:30-32 | a run that compiles two changes to one path the other way round, as two overtaking batches do, and ends with a file missing from the cache |
| ConsistencyRuns.DroppedChangeIsMissed | src/graphify_daemon/vault_compiler/extraction.py:179-198 | a run in which an exception drops a change and that ends with the path out of step, nothing waiting and nothing lost by order |
| ConsistencyRuns.BeginThenFinishIsExtractOne | src/graphify_daemon/vault_compiler/extraction.py:189-198 | the machine's two moves for a change are one turn of `extract_batch`, whatever happens to the vault between reading and `stat` |
| ConsistencyRuns.NoiseChangesNothing | src/graphify_daemon/vault_compiler/batching.py:88-106 | an event of another type, about a directory, or in an excluded place that is not a move queues nothing |
| ConsistencyRuns.NothingExtractedKeepsEntry | src/graphify_daemon/vault_compiler/extraction.py:189-193 | compiling a change whose file is gone, or that the extractor answers with nothing, keeps the file's entry and mtime, whatever the vault does meanwhile |
| ConsistencyRuns.ColdStartStarts | src/graphify_daemon/artifact_lifecycle/cold_start.py:57-83 | a cold start, from nothing or from any cache whose mtime-trusted entries are right, puts the cache in step with the vault it walked |
| ConsistencyRuns.UnwatchedChangeStays | src/graphify_daemon/daemon.py:336-338 | until a change to it is compiled, a path is in step iff cold start saw it as it was when the observer started |
| ConsistencyRuns.UnwatchedWriteIsMissed | src/graphify_daemon/daemon.py:336-338 | a file written between the walk and the observer's start leaves the cache out of step with nothing waiting |
| Restarts.UntornEntriesAreStamped | src/graphify_daemon/vault_compiler/extraction.py:189-198 | at a path that never shows one mtime with two contents, an entry whose file did not change between its extraction and its `stat` is the extraction of the content its mtime names |
| Restarts.ColdStartKeepsStamps | src/graphify_daemon/artifact_lifecycle/cold_start.py:57-80 | cold start keeps such an entry so, from one daemon to the next |
| Restarts.OnlyTornEntriesMislead | src/graphify_daemon/artifact_lifecycle/cold_start.py:68-76 | stopped at any moment of any run, at such a path a wrong entry is trusted only if it is torn and a change to the path is waiting, in work or dropped |
| Restarts.RestartRecovers | src/graphify_daemon/artifact_lifecycle/cold_start.py:57-80 | a restart brings a file that extracts up to date iff it trusts no wrong entry there |
| Restarts.TornEntryMisleads | src/graphify_daemon/vault_compiler/extraction.py:189-198 | a run that ends with one change waiting and an entry that a restart would trust and that is wrong |
| Restarts.SharedMtimeMisleads | src/graphify_daemon/artifact_lifecycle/cold_start.py:68-70 | a run, with no torn entry, that moves a file over another of the same mtime and ends with an entry that a restart would trust and that is wrong |
| Compiler.Daemon.RunClusteringCycle | src/graphify_daemon/vault_compiler/clustering.py:112-125 | republishes the captured graph with renamed communities, or leaves the holder alone |
| Compiler.Daemon.RunSlowCadenceCycle | src/graphify_daemon/artifact_lifecycle/cadence.py:53-65 | the whole state after the cycle, whether it triggered, and how far it got when it raises |
| Compiler.Daemon.CompileBatch | src/graphify_daemon/daemon.py:144-171 | the whole state after a batch, stopped where it raises, in the middle of a rename too; provenance is kept even then |
| Compiler.Daemon.PersistOnShutdown | src/graphify_daemon/daemon.py:232-241 | both files hold what the daemon held, and the index is closed |
| Compiler.Daemon.Start | src/graphify_daemon/daemon.py:124-136 | the saved cache, when there is one, is reconciled with the vault and its rebuild is published |
| Compiler.BatchReports | src/graphify_daemon/daemon.py:144-171 | a batch goes well exactly when it is committed and published and nothing raises in a cycle that is due; and reports a cycle exactly when that cycle was due and completed |
| CompilerRuns.RunHolds | src/graphify_daemon/daemon.py:144-171 | every sequence of batches and idle cycles, raising anywhere, from any `files` table, keeps the run invariant |
| CompilerRuns.PublishedGraphIsRebuild | src/graphify_daemon/vault_compiler/snapshot.py:31-44 | whenever the last batch was published the current graph is the rebuild of the whole cache, clustering republications and earlier failures included |
| CompilerRuns.ReadersSeeTheLastPublication | src/graphify_daemon/daemon.py:145-153 | in every run, whatever raised, readers see the graph of what was merged for the last publication: the rebuild, iff merging the cache would now give the same nodes and edges (for a builder that tells its inputs apart) |
| RaisingBatches.RaisingBatchIsInvisible | src/graphify_daemon/daemon.py:145-153 | a batch that raises before publishing leaves readers with the rebuild when its changes and readings leave the nodes and edges of each path, and the order of the paths that have any, as they were; only then, for a builder that tells its inputs apart; and the order matters only when an entry is taken away |
| RaisingBatches.MergeKeptExactly | src/graphify_daemon/vault_compiler/extraction.py:179-200 | a batch leaves the merged nodes and edges alone iff, judged from the cache before it, it keeps them path by path and in order |
| RaisingBatches.RaisingLeavesReadersBehind | src/graphify_daemon/daemon.py:145-153 | a started daemon and a batch whose index update raises after one file was extracted, which leave readers without that file |
| CompilerRuns.IndexAgreesWithCache | src/graphify_daemon/artifact_lifecycle/vault_index.py:97-115 | from any table, at a path whose last touching batch the index took over: there is a row iff that batch installed it, or none touched it and there was one; row and entry fit iff a batch touched it or they fitted at the start; a removed path is in neither |
| CompilerRuns.FirstStartWritesNoRow | src/graphify_daemon/daemon.py:113-136 | a first cold start after which a cached path has no row |
| CompilerRuns.RemovedPathIsNeverMentioned | src/graphify_daemon/vault_compiler/extraction.py:43-50 | in every run, whatever raised, a path whose last change to reach the cache took it away has no entry, and no node or edge of the graph's input mentions it |
| CompilerRuns.FilesAreOfTheLastCycle | src/graphify_daemon/artifact_lifecycle/cadence.py:56-65 | in every run `graph_cache.json` is the cache as of the last completed cycle and `graph.json` the graph and communities current after the clustering of the last cycle that wrote them, each as found before the first; and the tracker counts what was published since |
| Crashes.CrashAndRestart | src/graphify_daemon/daemon.py:124-136 | after a crash at any moment of any run, and a restart on whatever the vault has become: the cache of the last completed cycle is loaded, only observed files survive, a file that extracts is up to date iff no wrong entry is trusted there, and exactly the files whose saved mtime is not theirs are extracted |
| Crashes.CrashLosesNoStampedEntry | src/graphify_daemon/artifact_lifecycle/cold_start.py:57-83 | where a saved entry is the extraction of the content its mtime names, the restarted entry is that of the file as it is |
| CompilerRuns.CommunitiesAreTheLastClustering | src/graphify_daemon/vault_compiler/clustering.py:112-125 | the current communities are those of the last clustering that succeeded, none if none did |
| CompilerRuns.VersionsOnlyGrow | src/graphify_daemon/vault_compiler/snapshot.py:59-72 | between two moments of a run the version never falls, and the same version is the same snapshot |
| CompilerRuns.StopAndRestart | src/graphify_daemon/daemon.py:232-241 | stopping writes the current graph, communities and cache and closes the index; loading and cold-starting against an unchanged vault then extracts nothing and publishes the graph that was written |
| CompilerRuns.Restart | src/graphify_daemon/daemon.py:124-136 | the same for two daemon objects, one stopping and one starting from its file |
| QueryCache.QueryCache.Get | src/graphify_daemon/graph_query_api/query_cache.py:61-68 | a hit answers and becomes most recent, a miss only counts |
| QueryCache.QueryCache.Set | src/graphify_daemon/graph_query_api/query_cache.py:81-86 | the key becomes most recent, and at most the oldest entry leaves |
| QueryCache.QueryCache.HitRate | src/graphify_daemon/graph_query_api/query_cache.py:35-38 | hits over lookups, and zero before the first |
| QueryCache.HoldsLastTouched | src/graphify_daemon/graph_query_api/query_cache.py:61-86 | after any operations the cache holds exactly the last `maxsize` distinct touched keys, in last-touch order |
| QueryCache.AnswersWithLastStored | src/graphify_daemon/graph_query_api/query_cache.py:51-86 | a present key answers with what was last stored under it, and every lookup is counted once |
| QueryCache.HitsAreCounted | src/graphify_daemon/graph_query_api/query_cache.py:61-68 | a lookup is a hit exactly when its key is among the last `maxsize` distinct ones touched before, and otherwise a miss |
| QueryCache.LargerCacheServesNoWorse | src/graphify_daemon/graph_query_api/tools.py:419-423 | when requests are handled one after the other, a larger cache holds all that a smaller one holds and never has fewer hits |
| QueryApi.Dispatch | src/graphify_daemon/graph_query_api/tools.py:399-430 | not ready without a snapshot, refused when validation fails; otherwise the cached text, or the computed one, which is then cached unless it raised |
| QueryApi.AsksWhatWasSent | src/graphify_daemon/graph_query_api/tools.py:203-211 | a mode, depth or budget that was sent is what the library is asked for and what the key holds; one left out is "bfs", 3 or 2000 |
| QueryApi.KeySharedExactly | src/graphify_daemon/graph_query_api/tools.py:411-418 | two requests share a key iff version, question, mode, depth, budget and filters agree, after the defaults and with an empty list read as none |
| QueryApi.ValidExactly | src/graphify_daemon/graph_query_api/tools.py:40-72 | validation lets through either mode, depths 1 to 6, budgets 1 to 20000 and at most 50 filters, each sent or left out, and nothing else |
| QueryApi.RepliesFit | src/graphify_daemon/graph_query_api/tools.py:399-428 | over every interleaving a finished request is told "not ready" iff it captured no snapshot, "invalid" iff validation fails, and "failed" only when its own query raises |
| QueryApi.CachingIsInvisible | src/graphify_daemon/graph_query_api/tools.py:402-423 | over every interleaving each successful reply is the query on the snapshot its request captured, iff nothing is ever cached or the query treats an empty filter list as no filter on all valid arguments |
| QueryApi.SharedKeyConfuses | src/graphify_daemon/graph_query_api/tools.py:411-418 | two requests that share a key and differ in answer give a run with a wrong reply |
| QueryApi.ReadersNeverGoBack | src/graphify_daemon/vault_compiler/snapshot.py:59-72 | a later request never captures an older snapshot, and one version is one snapshot |
| Handoff.LinkHolds | src/graphify_daemon/vault_compiler/clustering.py:56-86 | in every run, drain-first or join-first, no byte of the message is lost or reordered and the pipe stays within its capacity |
| Handoff.DrainFirstNeverDeadlocks | docs/adr/0003-drain-clustering-queue-before-join.md:7-9 | for every message and capacity of at least 1 the handoff can go on until it has returned, except after a crash inside the message; with no crash it needs no timeout |
| Handoff.OrphanIsReached | src/graphify_daemon/vault_compiler/clustering.py:65-71 | a run in which the child dies inside a message of at least two bytes and the parent reads on |
| Handoff.GivesUpOnlyInVain | src/graphify_daemon/vault_compiler/clustering.py:65-80 | the parent gives up on the message only while none of it has arrived, and terminates a child after reading only if it is still alive |
| Handoff.EveryRunEnds | src/graphify_daemon/vault_compiler/clustering.py:56-86 | the actions of a run are bounded by the work there was at its start |
| Handoff.ReturnsTheWorkersPayload | src/graphify_daemon/vault_compiler/clustering.py:65-86 | on every return the child is dead, and the value is the worker's own "ok" payload, or nothing |
| Handoff.JoinFirstDeadlocksOnLargeResults | src/graphify_daemon/vault_compiler/clustering.py:48-55 | joining first gets stuck, with no crash and no timeout, iff the message exceeds the capacity |
| Truncation.KeepsAPrefix | src/graphify_daemon/graph_query_api/tools.py:167-192 | nothing is cut iff the text fits; what is kept is a non-empty prefix of the join within the character budget |
| Truncation.CutsAtALineBoundary | src/graphify_daemon/graph_query_api/tools.py:175-179 | a cut at a newline keeps exactly the first `shown` lines, and one more would reach the limit; otherwise exactly the limit is kept |
| Truncation.NeverSaysZeroLinesCut | src/graphify_daemon/graph_query_api/tools.py:178-192 | the counts add up to the total with at least one line cut; the other message is given iff as many lines are shown as there are |
| Truncation.MiscountsExactly | src/graphify_daemon/graph_query_api/tools.py:175-181 | for any lines, the count of cut lines is below one iff the kept text has as many newlines as there are lines |
| Truncation.NewlinesInsideALineMiscount | src/graphify_daemon/graph_query_api/tools.py:178-186 | lines for which that happens |

## Left out

- Protocol: the threads are a machine on values and not classes with locks; `Batching.VaultWatcher` and the machine share one set of functions for what each critical section does. Memory effects below a critical section are not modelled.
- Protocol: that a shutdown completes depends on a scheduler that lets threads go on and on compiles that end; `ShutdownIsNeverStuck` and `RejectingAcceptsNothing` prove the rest. Debounce intervals are not timed: an armed debounce timer may fire at any moment.
- CadenceStrandsNothing: says nothing once shutdown has drained, which cancels the idle timer, and while a count is stranded. BackpressureHolds takes a threshold of at least 1, which is exact.
- OneIdleTimerArmed: says nothing about timers after shutdown; a batch that is still running can arm one after `stop`.
- QuietCacheEqualsRebuild: is about the entries of paths that extract or are absent; a file that no longer extracts keeps its previous entry, as the code intends.
- ReturnsTheWorkersPayload: takes pickling to be inverted by unpickling.
- StopAndRestart: takes the vault to be unchanged, and its mtimes to be those in the cache.
- IndexAgreesWithCache: says nothing at a path whose last touching batch raised before its index transaction committed: the row is then that of an earlier batch.
- LargerCacheServesNoWorse: takes requests one after the other; the handler also lets them interleave between `get` and `set`.
- InStepExactlyWhenCaughtUp: says nothing at a path that a dropped change touches.
- Changes of the vault while cold start walks it; a change after the walk is in `ConsistencyRuns.UnwatchedChangeStays`.
- Consistency compiles change by change and in any order; `ProtocolOrder` says which orders the threads and their lock produce.
- A file that vanishes between the walk and the `stat` of a cold start, which raises.
- Extraction results without "nodes" or "edges" keys, which the index and the graph treat differently.
- Communities that name nodes which are no longer in the graph.
- Exclusion rules, confinement to the vault, permissions, logging, metrics other than the queue gauge and its warning counter, health, configuration.
- The trigram index, `KNOWLEDGE.md`, and how `graph.json` is written: the file holds the snapshot's graph and communities.
- The inversion of a community map (clustering.py:89-91), which only feeds the renaming and is part of that parameter.
- Types in argument validation (the model's arguments have the right types already), the other six tools, HTTP transport, the migration comparator and the benchmarks.
- The wording of the truncation messages: `Truncation.Cut` holds the values that go into them.
