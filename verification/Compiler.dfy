/** The part of src/graphify_daemon/daemon.py that runs under the writer lock, with
    src/graphify_daemon/artifact_lifecycle/cadence.py and the cycle of
    src/graphify_daemon/vault_compiler/clustering.py: compiling a batch, the slow-cadence cycle, persisting. */
module Compiler {
  import opened Collections
  import opened Batching
  import opened Extraction
  import opened VaultIndex
  import opened Snapshot
  import opened SlowCadence
  import opened ColdStart

  /** The clustering library's renaming of fresh communities after the previous ones. */
  type Remap = (Communities, Communities) -> Communities

  datatype Settings = Settings(build: Builder, remap: Remap, excluded: Path -> bool)

  /** Everything the writer owns, and what it last wrote to disk. */
  datatype State = State(
    cache: Cache,
    rows: Rows,
    open: bool,
    holder: Holder,
    tracker: Tracker,
    graphJson: Option<(Graph, Communities)>,
    cacheJson: Option<Cache>)

  datatype CycleFault = CycleFine | ClusteringRaises | GraphWriteRaises | CacheWriteRaises

  /** The clock when the cycle asks and when it resets, what the subprocess returned, and where it raises. */
  datatype CycleInput = CycleInput(checkAt: real, resetAt: real, clustered: Option<Communities>, fault: CycleFault)

  /** `ExtractRaises` stops in change number `done`; `removed` says that it is a rename that had already taken
      its previous path out of the cache. */
  datatype BatchFault = BatchFine | ExtractRaises(done: nat, removed: bool) | SyncRaises | BuildRaises

  datatype BatchInput = BatchInput(
    changes: Batch,
    readings: seq<Reading>,
    stats: seq<Option<Stat>>,
    recordAt: real,
    cycle: CycleInput,
    fault: BatchFault)

  predicate WellFormed(b: BatchInput) {
    && |b.changes| == |b.readings| == |b.stats|
    && (b.fault.ExtractRaises? ==>
          b.fault.done < |b.changes| && (b.fault.removed ==> b.changes[b.fault.done].Renamed?))
  }

  /** The changes that the extraction of a batch applied: all of them, or those before the exception and then the
      removing half of the rename it stopped in. */
  function Applied(b: BatchInput): Batch
    requires WellFormed(b)
  {
    if !b.fault.ExtractRaises? then b.changes
    else b.changes[..b.fault.done] + if b.fault.removed then [Deleted(b.changes[b.fault.done].previous)] else []
  }

  function AppliedReadings(b: BatchInput): (r: seq<Reading>)
    requires WellFormed(b)
    ensures |r| == |Applied(b)|
  {
    if !b.fault.ExtractRaises? then b.readings
    else b.readings[..b.fault.done] + if b.fault.removed then [Reading(None, None)] else []
  }

  datatype Outcome = Outcome(state: State, ok: bool, triggered: bool)

  /** `run_clustering_cycle`: republish the captured graph with renamed communities, or nothing at all. */
  function Clustered(remap: Remap, h: Holder, clustered: Option<Communities>): Holder {
    if h.current.None? || clustered.None? then h
    else Published(h, h.current.value.graph, remap(clustered.value, h.current.value.communities))
  }

  function Written(h: Holder, before: Option<(Graph, Communities)>): Option<(Graph, Communities)> {
    match h.current
    case None => before
    case Some(snapshot) => Some((snapshot.graph, snapshot.communities))
  }

  /** `run_slow_cadence_cycle`. */
  function Cycle(e: Settings, s: State, i: CycleInput): Outcome {
    if !ShouldTrigger(s.tracker, i.checkAt) then Outcome(s, true, false)
    else if i.fault.ClusteringRaises? then Outcome(s, false, false)
    else
      var clustered := s.(holder := Clustered(e.remap, s.holder, i.clustered));
      if i.fault.GraphWriteRaises? then Outcome(clustered, false, false)
      else
        var written := clustered.(graphJson := Written(clustered.holder, s.graphJson));
        if i.fault.CacheWriteRaises? then Outcome(written, false, false)
        else Outcome(written.(cacheJson := Some(s.cache), tracker := Reset(s.tracker, i.resetAt)), true, true)
  }

  function CurrentCommunities(h: Holder): Communities {
    if h.current.Some? then h.current.value.communities else map[]
  }

  predicate Commits(s: State, b: BatchInput) {
    s.open && !b.fault.ExtractRaises? && !b.fault.SyncRaises?
  }

  predicate Publishes(s: State, b: BatchInput) { Commits(s, b) && !b.fault.BuildRaises? }

  /** The cache after the extraction of a batch, or of as much of it as came before the exception. */
  function ExtractedCache(e: Settings, s: State, b: BatchInput): (c: Cache)
    requires WellFormed(b)
  {
    ExtractAll(s.cache, Applied(b), AppliedReadings(b), e.excluded)
  }

  lemma ExtractedProvenance(e: Settings, s: State, b: BatchInput)
    requires WellFormed(b) && Provenance(s.cache) && ReadingsSourced(b.changes, b.readings)
    ensures Provenance(ExtractedCache(e, s, b))
  {
    ExtractAllProvenance(s.cache, Applied(b), AppliedReadings(b), e.excluded);
  }

  lemma StoppedInRename(e: Settings, now: State, s: State, b: BatchInput)
    requires WellFormed(b) && b.fault.ExtractRaises? && b.fault.removed
    requires now.cache == ExtractAll(s.cache, b.changes[..b.fault.done], b.readings[..b.fault.done], e.excluded)
    ensures ExtractedCache(e, s, b) == DeleteEntry(now.cache, b.changes[b.fault.done].previous)
  {
    ExtractLast(s.cache, Applied(b), AppliedReadings(b), e.excluded);
    assert Applied(b)[..b.fault.done] == b.changes[..b.fault.done];
    assert AppliedReadings(b)[..b.fault.done] == b.readings[..b.fault.done];
  }

  /** `_compile_batch` up to the slow-cadence cycle, stopped where it raises. */
  ghost function BeforeCycle(e: Settings, s: State, b: BatchInput): State
    requires WellFormed(b) && Provenance(s.cache) && ReadingsSourced(b.changes, b.readings)
  {
    ExtractedProvenance(e, s, b);
    var cache := ExtractedCache(e, s, b);
    if !Commits(s, b) then s.(cache := cache)
    else
      var synced := s.(cache := cache, rows := SyncAll(s.rows, cache, b.changes, b.stats, e.excluded));
      if !Publishes(s, b) then synced
      else synced.(holder := Published(s.holder, Rebuilt(e.build, cache), CurrentCommunities(s.holder)),
                   tracker := Record(s.tracker, |b.changes|, b.recordAt))
  }

  ghost function Compile(e: Settings, s: State, b: BatchInput): Outcome
    requires WellFormed(b) && Provenance(s.cache) && ReadingsSourced(b.changes, b.readings)
  {
    if Publishes(s, b) then Cycle(e, BeforeCycle(e, s, b), b.cycle)
    else Outcome(BeforeCycle(e, s, b), false, false)
  }

  /** What the caller is told: a cycle triggered exactly when it was due and nothing raised, and it went well unless it
      was due and something raised. */
  lemma CycleReports(e: Settings, s: State, i: CycleInput)
    ensures var o := Cycle(e, s, i);
      var due := s.tracker.accumulated >= s.tracker.threshold || i.checkAt - s.tracker.lastBatchAt >= s.tracker.quiet;
      && (o.triggered <==> due && i.fault.CycleFine?)
      && (o.ok <==> !due || i.fault.CycleFine?)
  {
  }

  /** And a batch went well exactly when it was committed and published and nothing raised in a cycle that was due. */
  lemma BatchReports(e: Settings, s: State, b: BatchInput)
    requires WellFormed(b) && Provenance(s.cache) && ReadingsSourced(b.changes, b.readings)
    ensures var o := Compile(e, s, b);
      var due := s.tracker.accumulated + |b.changes| >= s.tracker.threshold
                 || b.cycle.checkAt - b.recordAt >= s.tracker.quiet;
      && (o.ok <==> s.open && b.fault.BatchFine? && (!due || b.cycle.fault.CycleFine?))
      && (o.triggered <==> s.open && b.fault.BatchFine? && due && b.cycle.fault.CycleFine?)
  {
    if Publishes(s, b) {
      CycleReports(e, BeforeCycle(e, s, b), b.cycle);
    }
  }

  lemma CycleLeavesCache(e: Settings, s: State, i: CycleInput)
    ensures Cycle(e, s, i).state.cache == s.cache
  {
  }

  /** A cycle writes the cache to disk and leaves it alone, so a batch's extraction decides it. */
  lemma CompiledCache(e: Settings, s: State, b: BatchInput)
    requires WellFormed(b) && Provenance(s.cache) && ReadingsSourced(b.changes, b.readings)
    ensures Compile(e, s, b).state.cache == ExtractedCache(e, s, b) && Provenance(ExtractedCache(e, s, b))
  {
    ExtractedProvenance(e, s, b);
    CycleLeavesCache(e, BeforeCycle(e, s, b), b.cycle);
  }

  /** `persist_on_shutdown`. */
  function Persist(s: State): State {
    s.(graphJson := Written(s.holder, s.graphJson), cacheJson := Some(s.cache), open := false)
  }

  class Daemon {
    const cache: ExtractionCache
    const conn: Connection
    const holder: SnapshotHolder
    const tracker: SlowCadenceTracker
    var graphJson: Option<(Graph, Communities)>
    var cacheJson: Option<Cache>

    ghost function View(): State
      reads this, cache, conn, holder, tracker
    {
      State(cache.View(), conn.files, conn.open, holder.View(), tracker.View(), graphJson, cacheJson)
    }

    constructor (rows: Rows, quiet: real, threshold: int, now: real, cacheJson: Option<Cache>)
      ensures fresh(cache) && fresh(conn) && fresh(holder) && fresh(tracker)
      ensures View() ==
              State(EmptyCache(), rows, true, EMPTY_HOLDER, Tracker(quiet, threshold, 0, now), None, cacheJson)
    {
      cache := new ExtractionCache();
      conn := new Connection(rows);
      holder := new SnapshotHolder();
      tracker := new SlowCadenceTracker(quiet, threshold, now);
      graphJson, this.cacheJson := None, cacheJson;
    }

    method RunClusteringCycle(remap: Remap, clustered: Option<Communities>)
      modifies holder
      ensures holder.View() == Clustered(remap, old(holder.View()), clustered)
    {
      var current := holder.current;
      if current.None? || clustered.None? {
        return;
      }
      var renamed := remap(clustered.value, current.value.communities);
      var _ := holder.Publish(current.value.graph, renamed);
    }

    method RunSlowCadenceCycle(e: Settings, i: CycleInput) returns (ok: bool, triggered: bool)
      modifies this, holder, tracker
      ensures Outcome(View(), ok, triggered) == Cycle(e, old(View()), i)
    {
      var due := tracker.Triggers(i.checkAt);
      if !due {
        return true, false;
      }
      if i.fault.ClusteringRaises? {
        return false, false;
      }
      RunClusteringCycle(e.remap, i.clustered);
      if i.fault.GraphWriteRaises? {
        return false, false;
      }
      if holder.current.Some? {
        graphJson := Some((holder.current.value.graph, holder.current.value.communities));
      }
      if i.fault.CacheWriteRaises? {
        return false, false;
      }
      var file := cache.Save();
      cacheJson := Some(file);
      tracker.ResetAt(i.resetAt);
      return true, true;
    }

    method CompileBatch(e: Settings, b: BatchInput) returns (ok: bool, triggered: bool)
      requires WellFormed(b) && Provenance(cache.View()) && ReadingsSourced(b.changes, b.readings)
      modifies this, cache, conn`files, holder, tracker
      ensures Outcome(View(), ok, triggered) == Compile(e, old(View()), b)
      ensures Provenance(cache.View())
    {
      ExtractedProvenance(e, View(), b);
      if b.fault.ExtractRaises? {
        ExtractBatch(cache, b.changes[..b.fault.done], b.readings[..b.fault.done], e.excluded);
        if b.fault.removed {
          StoppedInRename(e, View(), old(View()), b);
          cache.Remove(b.changes[b.fault.done].previous);
        } else {
          assert Applied(b) == b.changes[..b.fault.done] && AppliedReadings(b) == b.readings[..b.fault.done];
        }
        return false, false;
      }
      ExtractBatch(cache, b.changes, b.readings, e.excluded);
      if b.fault.SyncRaises? {
        return false, false;
      }
      var synced := SyncBatch(conn, cache, b.changes, b.stats, e.excluded);
      if !synced || b.fault.BuildRaises? {
        return false, false;
      }
      var graph := BuildGraph(e.build, cache);
      var communities := if holder.current.Some? then holder.current.value.communities else map[];
      var _ := holder.Publish(graph, communities);
      tracker.RecordBatch(|b.changes|, b.recordAt);
      ok, triggered := RunSlowCadenceCycle(e, b.cycle);
    }

    method PersistOnShutdown()
      modifies this, conn
      ensures View() == Persist(old(View()))
      ensures !conn.open && cacheJson == Some(cache.View())
      ensures holder.current.Some? ==>
                graphJson == Some((holder.current.value.graph, holder.current.value.communities))
    {
      if holder.current.Some? {
        graphJson := Some((holder.current.value.graph, holder.current.value.communities));
      }
      var file := cache.Save();
      cacheJson := Some(file);
      conn.Close();
    }

    /** `cold_start`: load the persisted cache when there is one, reconcile, publish. */
    method Start(e: Settings, extract: Extractor, vault: Vault, walk: seq<Path>) returns (extracted: set<Path>)
      requires Walks(walk, vault)
      requires Provenance(if cacheJson.Some? then cacheJson.value else cache.View())
      modifies cache, holder
      ensures var loaded := if cacheJson.Some? then cacheJson.value else old(cache.View());
        && View() == old(View()).(cache := cache.View(), holder := holder.View())
        && cache.View() == Reconciled(extract, vault, loaded, walk, e.excluded) && Provenance(cache.View())
        && holder.View() == Published(old(holder.View()), Rebuilt(e.build, cache.View()), map[])
        && extracted == Stale(vault, loaded, walk, e.excluded)
    {
      if cacheJson.Some? {
        cache.Load(cacheJson.value);
      }
      extracted := ColdStart.ColdStart(extract, e.build, vault, walk, e.excluded, cache, holder);
    }
  }
}
