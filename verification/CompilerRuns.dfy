/** What every sequence of batches and idle cycles keeps, whatever raises on the way. The writer lock makes
    each of them one step here. */
module CompilerRuns {
  import opened Collections
  import opened Batching
  import opened Extraction
  import opened VaultIndex
  import opened Snapshot
  import opened SlowCadence
  import opened ColdStart
  import opened Compiler

  datatype Op = BatchOp(batch: BatchInput) | IdleOp(cycle: CycleInput)

  ghost predicate Legal(op: Op) {
    op.BatchOp? ==> WellFormed(op.batch) && ReadingsSourced(op.batch.changes, op.batch.readings)
  }

  /** What a batch did to the cache, and whether the index took it over. */
  datatype Touch = Touch(changes: Batch, indexed: bool)

  /** History, kept from the inputs of the run. What each batch so far touched; whether the last one was published; the
      outcome of the last successful clustering; what the builder was last given for a publication; the number of
      changes published since the last completed cycle, and when the quiet time began; and what the files hold: the
      cache of the last completed cycle, and the graph and communities of the last one that wrote them. */
  datatype Past = Past(
    touches: seq<Touch>,
    published: bool,
    communities: Communities,
    shown: (seq<Node>, seq<Edge>),
    since: nat,
    quietFrom: real,
    saved: Option<Cache>,
    wrote: Option<(Graph, Communities)>)

  /** The last batch that touched `x`. */
  function LastTouch(touches: seq<Touch>, x: Path, excluded: Path -> bool): Option<Touch> {
    if |touches| == 0 then None
    else
      var last := touches[|touches| - 1];
      if LastEffect(last.changes, x, excluded).Untouched? then LastTouch(touches[..|touches| - 1], x, excluded)
      else Some(last)
  }

  /** The last change to reach the cache at `x` took it away. */
  predicate LastTakenAway(touches: seq<Touch>, x: Path, excluded: Path -> bool) {
    var last := LastTouch(touches, x, excluded);
    last.Some? && LastEffect(last.value.changes, x, excluded).Remove?
  }

  datatype Run = Run(state: State, past: Past)

  /** What a cycle makes of the past, when it comes upon the cache `c`. */
  function CyclePast(e: Settings, past: Past, c: Cache, quiet: real, threshold: int, i: CycleInput): Past {
    if (past.since < threshold && i.checkAt - past.quietFrom < quiet) || i.fault.ClusteringRaises? then past
    else
      var communities := if i.clustered.Some? then e.remap(i.clustered.value, past.communities) else past.communities;
      var clustered := past.(communities := communities);
      if i.fault.GraphWriteRaises? then clustered
      else
        var wrote := clustered.(wrote := Some((e.build(past.shown.0, past.shown.1), communities)));
        if i.fault.CacheWriteRaises? then wrote
        else wrote.(saved := Some(c), since := 0, quietFrom := i.resetAt)
  }

  /** What a batch makes of the past before its cycle. */
  function BatchPast(e: Settings, r: Run, b: BatchInput): Past
    requires WellFormed(b)
  {
    var touched := r.past.(touches := r.past.touches + [Touch(Applied(b), Commits(r.state, b))],
                           published := Publishes(r.state, b));
    if !Publishes(r.state, b) then touched
    else touched.(shown := Merged(ExtractedCache(e, r.state, b)), since := r.past.since + |b.changes|,
                  quietFrom := b.recordAt)
  }

  ghost function After(e: Settings, r: Run, op: Op): (r': Run)
    requires Provenance(r.state.cache) && Legal(op)
    ensures Provenance(r'.state.cache)
  {
    var Tracker(quiet, threshold, _, _) := r.state.tracker;
    match op
    case IdleOp(i) =>
      CycleLeavesCache(e, r.state, i);
      Run(Cycle(e, r.state, i).state, CyclePast(e, r.past, r.state.cache, quiet, threshold, i))
    case BatchOp(b) =>
      CompiledCache(e, r.state, b);
      var past := BatchPast(e, r, b);
      Run(Compile(e, r.state, b).state,
          if Publishes(r.state, b)
          then CyclePast(e, past, ExtractedCache(e, r.state, b), quiet, threshold, b.cycle) else past)
  }

  ghost function AfterAll(e: Settings, r: Run, ops: seq<Op>): (r': Run)
    requires Provenance(r.state.cache) && forall i :: 0 <= i < |ops| ==> Legal(ops[i])
    ensures Provenance(r'.state.cache)
  {
    if |ops| == 0 then r else After(e, AfterAll(e, r, ops[..|ops| - 1]), ops[|ops| - 1])
  }

  /** A daemon that has cold-started and compiled nothing yet. Its `files` table is as an earlier one left it. */
  ghost predicate JustStarted(e: Settings, r: Run) {
    && Provenance(r.state.cache)
    && r.state.holder == Published(EMPTY_HOLDER, Rebuilt(e.build, r.state.cache), map[])
    && (r.state.cacheJson.Some? ==> Provenance(r.state.cacheJson.value))
    && r.past == Past([], true, map[], Merged(r.state.cache), r.state.tracker.accumulated, r.state.tracker.lastBatchAt,
                      r.state.cacheJson, r.state.graphJson)
  }

  /** The current snapshot's graph is what rebuilding the whole cache gives. */
  ghost predicate GraphIsRebuild(e: Settings, s: State)
    requires ValidDict(s.cache.entries)
  {
    s.holder.current.Some? && s.holder.current.value.graph == Rebuilt(e.build, s.cache)
  }

  /** Entry and row of `x` after the run from `r0`: as they were if no batch has touched it; gone from the cache if its
      last change took it away; and, if the index took over the last batch that touched it, in agreement. */
  ghost predicate StandsAt(e: Settings, r0: Run, r: Run, x: Path) {
    var c, rows := r.state.cache, r.state.rows;
    match LastTouch(r.past.touches, x, e.excluded)
    case None => SameAt(c, r0.state.cache, x) && Lookup(rows, x) == Lookup(r0.state.rows, x)
    case Some(touch) =>
      var effect := LastEffect(touch.changes, x, e.excluded);
      && (effect.Remove? ==> x !in c.entries.vals)
      && (touch.indexed ==> if effect.Remove? then x !in rows else x in rows && CountsOf(rows[x], Get(c, x)))
  }

  /** The snapshot, the tracker and the files are what the past says. */
  ghost predicate KeptBooks(e: Settings, r0: Run, r: Run) {
    && r.state.holder.current.Some?
    && r.state.holder.current.value.version + 1 == r.state.holder.nextVersion
    && r.state.holder.current.value.communities == r.past.communities
    && r.state.holder.current.value.graph == e.build(r.past.shown.0, r.past.shown.1)
    && r.state.tracker == r0.state.tracker.(accumulated := r.past.since, lastBatchAt := r.past.quietFrom)
    && r.state.cacheJson == r.past.saved && r.state.graphJson == r.past.wrote
  }

  ghost predicate RunInv(e: Settings, r0: Run, r: Run) {
    && Provenance(r.state.cache)
    && KeptBooks(e, r0, r)
    && (r.past.published ==> Merged(r.state.cache) == r.past.shown)
    && (r.past.saved.Some? ==> Provenance(r.past.saved.value))
    && (forall x :: StandsAt(e, r0, r, x))
  }

  lemma CycleKeepsBooks(e: Settings, r0: Run, r: Run, i: CycleInput)
    requires KeptBooks(e, r0, r) && Provenance(r.state.cache)
    ensures KeptBooks(e, r0, After(e, r, IdleOp(i)))
  {
    var k := r.state.tracker;
    if k.accumulated < k.threshold && i.checkAt - k.lastBatchAt < k.quiet {
    } else if i.fault.ClusteringRaises? {
    } else if i.fault.GraphWriteRaises? {
    } else if i.fault.CacheWriteRaises? {
    } else {
    }
  }

  lemma CycleKeepsPaths(e: Settings, r0: Run, r: Run, i: CycleInput, x: Path)
    requires StandsAt(e, r0, r, x) && Provenance(r.state.cache)
    ensures StandsAt(e, r0, After(e, r, IdleOp(i)), x)
  {
    CycleLeavesTable(e, r, i);
  }

  lemma CycleLeavesTable(e: Settings, r: Run, i: CycleInput)
    requires Provenance(r.state.cache)
    ensures var r' := After(e, r, IdleOp(i));
      && r'.state.cache == r.state.cache && r'.state.rows == r.state.rows
      && r'.past.touches == r.past.touches && r'.past.published == r.past.published && r'.past.shown == r.past.shown
      && r'.past.saved in {r.past.saved, Some(r.state.cache)}
  {
  }

  /** A cycle leaves cache and index alone, and republishes the current graph or nothing. */
  lemma CycleKeeps(e: Settings, r0: Run, r: Run, i: CycleInput)
    requires RunInv(e, r0, r)
    ensures RunInv(e, r0, After(e, r, IdleOp(i)))
  {
    CycleKeepsBooks(e, r0, r, i);
    CycleLeavesTable(e, r, i);
    forall x
      ensures StandsAt(e, r0, After(e, r, IdleOp(i)), x)
    {
      CycleKeepsPaths(e, r0, r, i, x);
    }
  }

  ghost function BeforeCycleRun(e: Settings, r: Run, b: BatchInput): Run
    requires Provenance(r.state.cache) && Legal(BatchOp(b))
  {
    ExtractedProvenance(e, r.state, b);
    Run(BeforeCycle(e, r.state, b), BatchPast(e, r, b))
  }

  lemma TouchedKeeps(e: Settings, r0: Run, r: Run, b: BatchInput, x: Path)
    requires StandsAt(e, r0, r, x) && Provenance(r.state.cache) && Legal(BatchOp(b))
    ensures StandsAt(e, r0, BeforeCycleRun(e, r, b), x)
  {
    var touches, touch := r.past.touches, Touch(Applied(b), Commits(r.state, b));
    assert (touches + [touch])[..|touches|] == touches;
    UntouchedOrRemoved(r.state.cache, Applied(b), AppliedReadings(b), e.excluded, x);
    if Commits(r.state, b) {
      FoldsAgree(r.state.cache, r.state.rows, b.changes, b.readings, b.stats, e.excluded, x);
    }
  }

  lemma BeforeCycleKeeps(e: Settings, r0: Run, r: Run, b: BatchInput)
    requires RunInv(e, r0, r) && Legal(BatchOp(b))
    ensures RunInv(e, r0, BeforeCycleRun(e, r, b))
  {
    ExtractedProvenance(e, r.state, b);
    forall x
      ensures StandsAt(e, r0, BeforeCycleRun(e, r, b), x)
    {
      assert StandsAt(e, r0, r, x);
      TouchedKeeps(e, r0, r, b, x);
    }
  }

  lemma {:induction false} BatchKeeps(e: Settings, r0: Run, r: Run, b: BatchInput)
    requires RunInv(e, r0, r) && Legal(BatchOp(b))
    ensures RunInv(e, r0, After(e, r, BatchOp(b)))
  {
    BeforeCycleKeeps(e, r0, r, b);
    if Publishes(r.state, b) {
      CycleKeeps(e, r0, BeforeCycleRun(e, r, b), b.cycle);
    }
  }

  lemma {:induction false} RunHolds(e: Settings, r: Run, ops: seq<Op>)
    requires JustStarted(e, r) && forall i :: 0 <= i < |ops| ==> Legal(ops[i])
    ensures RunInv(e, r, AfterAll(e, r, ops))
  {
    if |ops| > 0 {
      var op := ops[|ops| - 1];
      RunHolds(e, r, ops[..|ops| - 1]);
      if op.IdleOp? {
        CycleKeeps(e, r, AfterAll(e, r, ops[..|ops| - 1]), op.cycle);
      } else {
        BatchKeeps(e, r, AfterAll(e, r, ops[..|ops| - 1]), op.batch);
      }
    }
  }

  /** In every run whose last batch was published - whatever idle cycles came after it, and whatever raised
      before it - readers see the rebuild of the whole cache. */
  lemma {:induction false} PublishedGraphIsRebuild(e: Settings, r: Run, ops: seq<Op>)
    requires JustStarted(e, r) && forall i :: 0 <= i < |ops| ==> Legal(ops[i])
    ensures AfterAll(e, r, ops).past.published ==> GraphIsRebuild(e, AfterAll(e, r, ops).state)
  {
    RunHolds(e, r, ops);
  }

  /** In every run, whatever raised: readers see the graph of what was merged for the last publication. So, for a
      builder that tells its inputs apart, they see the rebuild exactly when merging the cache would now give the
      same nodes and edges. */
  lemma {:induction false} ReadersSeeTheLastPublication(e: Settings, r: Run, ops: seq<Op>)
    requires JustStarted(e, r) && forall i :: 0 <= i < |ops| ==> Legal(ops[i])
    ensures var r' := AfterAll(e, r, ops);
      && (Merged(r'.state.cache) == r'.past.shown ==> GraphIsRebuild(e, r'.state))
      && (Injective(e.build) ==> (GraphIsRebuild(e, r'.state) <==> Merged(r'.state.cache) == r'.past.shown))
  {
    RunHolds(e, r, ops);
  }

  /** Index and cache at one path, after any run from any table, wherever the index took over the last batch that
      touched the path: there is a row iff that batch installed the path, or nothing touched it and there was one; and
      row and entry fit iff a batch touched the path or they fitted at the start. */
  lemma {:induction false} IndexAgreesWithCache(e: Settings, r: Run, ops: seq<Op>, x: Path)
    requires JustStarted(e, r) && forall i :: 0 <= i < |ops| ==> Legal(ops[i])
    requires var last := LastTouch(AfterAll(e, r, ops).past.touches, x, e.excluded); last.Some? ==> last.value.indexed
    ensures var r' := AfterAll(e, r, ops);
      var last := LastTouch(r'.past.touches, x, e.excluded);
      && (x in r'.state.rows <==>
            if last.Some? then LastEffect(last.value.changes, x, e.excluded).Install? else x in r.state.rows)
      && (Fits(r'.state.cache, r'.state.rows, x) <==> last.Some? || Fits(r.state.cache, r.state.rows, x))
      && (LastTakenAway(r'.past.touches, x, e.excluded) ==> x !in r'.state.cache.entries.vals && x !in r'.state.rows)
  {
    RunHolds(e, r, ops);
    TouchTouches(AfterAll(e, r, ops).past.touches, x, e.excluded);
    assert StandsAt(e, r, AfterAll(e, r, ops), x);
  }

  lemma {:induction false} TouchTouches(touches: seq<Touch>, x: Path, excluded: Path -> bool)
    ensures var last := LastTouch(touches, x, excluded);
      last.Some? ==> !LastEffect(last.value.changes, x, excluded).Untouched?
  {
    if |touches| > 0 {
      TouchTouches(touches[..|touches| - 1], x, excluded);
    }
  }

  /** They need not fit at the start: the first cold start fills the cache and writes no row. */
  lemma FirstStartWritesNoRow(e: Settings, extract: Extractor, vault: Vault, walk: seq<Path>, k: Tracker, p: Path)
    returns (r: Run)
    requires Walks(walk, vault) && !e.excluded(p) && ExtractionOf(extract, vault, p).Some?
    ensures JustStarted(e, r) && r.state.rows == map[]
    ensures r.state.cache == Reconciled(extract, vault, EmptyCache(), walk, e.excluded)
    ensures !Fits(r.state.cache, r.state.rows, p)
  {
    var c := Reconciled(extract, vault, EmptyCache(), walk, e.excluded);
    ReconciledProvenance(extract, vault, EmptyCache(), walk, e.excluded);
    ReconciledAt(extract, vault, EmptyCache(), walk, e.excluded, p);
    var s := State(c, map[], true, Published(EMPTY_HOLDER, Rebuilt(e.build, c), map[]), k, None, None);
    r := Run(s, Past([], true, map[], Merged(c), k.accumulated, k.lastBatchAt, None, None));
  }

  /** In every run, whatever raised: a path whose last change to reach the cache took it away has no entry, and no
      node or edge that goes into the graph mentions it. */
  lemma {:induction false} RemovedPathIsNeverMentioned(e: Settings, r: Run, ops: seq<Op>, x: Path)
    requires JustStarted(e, r) && forall i :: 0 <= i < |ops| ==> Legal(ops[i])
    requires LastTakenAway(AfterAll(e, r, ops).past.touches, x, e.excluded)
    ensures var c := AfterAll(e, r, ops).state.cache;
      && x !in c.entries.vals
      && (forall n :: n in Merged(c).0 ==> n.sourceFile != x)
      && (forall n :: n in Merged(c).1 ==> n.sourceFile != x)
  {
    RunHolds(e, r, ops);
    assert StandsAt(e, r, AfterAll(e, r, ops), x);
    var c := AfterAll(e, r, ops).state.cache;
    forall n | n in Merged(c).0
      ensures n.sourceFile != x
    {
      MergedNodesAreSourced(c, c.entries.keys, n);
    }
    forall n | n in Merged(c).1
      ensures n.sourceFile != x
    {
      MergedEdgesAreSourced(c, c.entries.keys, n);
    }
  }

  /** What is on disk, after any run: `graph_cache.json` is the cache as of the last cycle that completed, and
      `graph.json` the graph and the communities that were current after the clustering of the last one that wrote them;
      before the first, both are as they were found. The tracker counts the changes published since that cycle. */
  lemma {:induction false} FilesAreOfTheLastCycle(e: Settings, r: Run, ops: seq<Op>)
    requires JustStarted(e, r) && forall i :: 0 <= i < |ops| ==> Legal(ops[i])
    ensures var r' := AfterAll(e, r, ops);
      && r'.state.cacheJson == r'.past.saved && r'.state.graphJson == r'.past.wrote
      && (r'.past.saved.Some? ==> Provenance(r'.past.saved.value))
      && r'.state.tracker.accumulated == r'.past.since && r'.state.tracker.lastBatchAt == r'.past.quietFrom
  {
    RunHolds(e, r, ops);
  }

  /** The communities that readers see are those of the last clustering that succeeded in this run. */
  lemma {:induction false} CommunitiesAreTheLastClustering(e: Settings, r: Run, ops: seq<Op>)
    requires JustStarted(e, r) && forall i :: 0 <= i < |ops| ==> Legal(ops[i])
    ensures CurrentCommunities(AfterAll(e, r, ops).state.holder) == AfterAll(e, r, ops).past.communities
  {
    RunHolds(e, r, ops);
  }

  /** Versions never go back, and one version names one snapshot, between any two moments of a run. */
  lemma {:induction false} VersionsOnlyGrow(e: Settings, r: Run, ops: seq<Op>, n: nat)
    requires JustStarted(e, r) && (forall i :: 0 <= i < |ops| ==> Legal(ops[i])) && n <= |ops|
    ensures var before := AfterAll(e, r, ops[..n]).state.holder;
      var after := AfterAll(e, r, ops).state.holder;
      && before.current.Some? && after.current.Some?
      && before.current.value.version <= after.current.value.version
      && (before.current.value.version == after.current.value.version ==> before == after)
    decreases |ops|
  {
    RunHolds(e, r, ops);
    RunHolds(e, r, ops[..n]);
    if n == |ops| {
      assert ops[..n] == ops;
    } else {
      var init := ops[..|ops| - 1];
      VersionsOnlyGrow(e, r, init, n);
      assert init[..n] == ops[..n];
      RunHolds(e, r, init);
      HolderGrows(e, AfterAll(e, r, init), ops[|ops| - 1]);
    }
  }

  lemma HolderGrows(e: Settings, r: Run, op: Op)
    requires r.state.holder.current.Some? && Provenance(r.state.cache) && Legal(op)
    ensures var h, h' := r.state.holder, After(e, r, op).state.holder;
      h' == h || h'.nextVersion > h.nextVersion
  {
    if op.IdleOp? {
      CycleGrows(e, r.state, op.cycle);
    } else if Publishes(r.state, op.batch) {
      CycleGrows(e, BeforeCycle(e, r.state, op.batch), op.batch.cycle);
    }
  }

  lemma CycleGrows(e: Settings, s: State, i: CycleInput)
    ensures var h' := Cycle(e, s, i).state.holder; h' == s.holder || h'.nextVersion > s.holder.nextVersion
  {
  }

  /** Stop and restart: the cache is in step with the vault, its mtimes included, and readers see its rebuild.
      Persisting, loading and cold-starting extracts nothing and publishes the graph that was written. */
  lemma StopAndRestart(e: Settings, s: State, extract: Extractor, vault: Vault, walk: seq<Path>)
    requires Provenance(s.cache) && GraphIsRebuild(e, s) && Walks(walk, vault)
    requires forall x :: x in vault && !e.excluded(x) ==> Lookup(s.cache.mtimes, x) == Some(vault[x].mtime)
    requires forall x :: x in s.cache.entries.vals ==> x in vault && !e.excluded(x)
    ensures var p := Persist(s);
      && !p.open && p.cacheJson == Some(s.cache) && p.rows == s.rows
      && p.graphJson == Some((s.holder.current.value.graph, s.holder.current.value.communities))
      && p.cacheJson.Some? && p.graphJson.Some? && Provenance(p.cacheJson.value)
      && Stale(vault, p.cacheJson.value, walk, e.excluded) == {}
      && var restarted := Reconciled(extract, vault, p.cacheJson.value, walk, e.excluded);
      && Provenance(restarted)
      && Published(EMPTY_HOLDER, Rebuilt(e.build, restarted), map[]).current.value.graph == p.graphJson.value.0
  {
    RestartChangesNothing(extract, vault, s.cache, walk, e.excluded);
  }

  /** The same through the daemons themselves: `first` stops, `second` starts from the file it left. */
  method Restart(first: Daemon, e: Settings, extract: Extractor, vault: Vault, walk: seq<Path>, quiet: real,
                 threshold: int, now: real)
    returns (second: Daemon, extracted: set<Path>)
    requires Provenance(first.cache.View()) && GraphIsRebuild(e, first.View()) && Walks(walk, vault)
    requires forall x :: x in vault && !e.excluded(x) ==> Lookup(first.cache.mtimes, x) == Some(vault[x].mtime)
    requires forall x :: x in first.cache.entries.vals ==> x in vault && !e.excluded(x)
    modifies first, first.conn
    ensures extracted == {} && second.cache.View() == first.cache.View()
    ensures first.graphJson.Some? && second.holder.current.Some?
    ensures second.holder.current.value.graph == first.graphJson.value.0
  {
    StopAndRestart(e, first.View(), extract, vault, walk);
    RestartChangesNothing(extract, vault, first.cache.View(), walk, e.excluded);
    first.PersistOnShutdown();
    second := new Daemon(first.conn.files, quiet, threshold, now, first.cacheJson);
    extracted := second.Start(e, extract, vault, walk);
  }
}
