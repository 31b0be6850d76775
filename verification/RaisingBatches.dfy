/** A batch that raises before it publishes leaves readers with the graph they had. When that is still the rebuild of
    the cache is decided by the cache before the batch, its changes, and what was read for them. */
module RaisingBatches {
  import opened Collections
  import opened Batching
  import opened Extraction
  import opened Merging
  import opened Snapshot
  import opened SlowCadence
  import opened Compiler
  import opened CompilerRuns

  /** The change asks for nothing that the cache `c` does not have already: its extraction fails, and what it takes
      away has no entry. */
  predicate Inert(c: Cache, change: FileChange, reading: Reading, excluded: Path -> bool) {
    && (Extracts(change, excluded) ==> reading.result.None?)
    && (change.Deleted? ==> change.path !in c.entries.vals)
    && (change.Renamed? ==> change.previous !in c.entries.vals)
  }

  lemma {:induction false} InertChangesDoNothing(c: Cache, changes: Batch, readings: seq<Reading>,
                                                 excluded: Path -> bool)
    requires Provenance(c) && |changes| == |readings|
    requires forall i :: 0 <= i < |changes| ==> Inert(c, changes[i], readings[i], excluded)
    ensures ExtractAll(c, changes, readings, excluded) == c
  {
    if |changes| > 0 {
      var n := |changes| - 1;
      InertChangesDoNothing(c, changes[..n], readings[..n], excluded);
      assert Inert(c, changes[n], readings[n], excluded);
      InertChangeDoesNothing(c, changes[n], readings[n], excluded);
    }
  }

  lemma InertChangeDoesNothing(c: Cache, change: FileChange, reading: Reading, excluded: Path -> bool)
    requires Provenance(c) && Inert(c, change, reading, excluded)
    ensures ExtractOne(c, change, reading, excluded) == c
  {
    if change.Deleted? || change.Renamed? {
      var p := if change.Deleted? then change.path else change.previous;
      assert p !in c.entries.keys && c.entries.vals - {p} == c.entries.vals && c.mtimes - {p} == c.mtimes;
    }
  }

  /** What a change takes out of the cache. */
  function TakenBy(change: FileChange): Option<Path> {
    match change
    case Deleted(p) => Some(p)
    case Renamed(_, previous) => Some(previous)
    case _ => None
  }

  predicate Puts(change: FileChange, reading: Reading, excluded: Path -> bool) {
    Extracts(change, excluded) && reading.result.Some?
  }

  /** The entry at `x` after the changes, when it was `before`: nothing but the changes at `x` matters. */
  function EntryAfter(before: Option<Result>, changes: Batch, readings: seq<Reading>, excluded: Path -> bool,
                      x: Path): Option<Result>
    requires |changes| == |readings|
  {
    if |changes| == 0 then before
    else
      var n := |changes| - 1;
      if Puts(changes[n], readings[n], excluded) && changes[n].path == x then readings[n].result
      else if TakenBy(changes[n]) == Some(x) then None
      else EntryAfter(before, changes[..n], readings[..n], excluded, x)
  }

  /** The order of the keys after the changes, when it was `keys`. */
  function KeysAfter(keys: seq<Path>, changes: Batch, readings: seq<Reading>, excluded: Path -> bool): seq<Path>
    requires |changes| == |readings|
  {
    if |changes| == 0 then keys
    else
      var n := |changes| - 1;
      var before := KeysAfter(keys, changes[..n], readings[..n], excluded);
      var left := if TakenBy(changes[n]).Some? then Without(before, TakenBy(changes[n]).value) else before;
      if Puts(changes[n], readings[n], excluded) && changes[n].path !in left then left + [changes[n].path] else left
  }

  lemma {:induction false} EntryIs(c: Cache, changes: Batch, readings: seq<Reading>, excluded: Path -> bool, x: Path)
    requires |changes| == |readings|
    ensures Get(ExtractAll(c, changes, readings, excluded), x) == EntryAfter(Get(c, x), changes, readings, excluded, x)
  {
    if |changes| > 0 {
      EntryIs(c, changes[..|changes| - 1], readings[..|changes| - 1], excluded, x);
    }
  }

  lemma {:induction false} KeysAre(c: Cache, changes: Batch, readings: seq<Reading>, excluded: Path -> bool)
    requires |changes| == |readings| && ValidDict(c.entries)
    ensures ValidDict(ExtractAll(c, changes, readings, excluded).entries)
    ensures ExtractAll(c, changes, readings, excluded).entries.keys ==
            KeysAfter(c.entries.keys, changes, readings, excluded)
  {
    if |changes| > 0 {
      KeysAre(c, changes[..|changes| - 1], readings[..|changes| - 1], excluded);
    }
  }

  function NodesOf(entry: Option<Result>): seq<Node> { if entry.Some? then entry.value.nodes else [] }

  function EdgesOf(entry: Option<Result>): seq<Edge> { if entry.Some? then entry.value.edges else [] }

  /** Path by path, the changes leave the nodes and the edges that were there. */
  ghost predicate KeepsBlocks(c: Cache, changes: Batch, readings: seq<Reading>, excluded: Path -> bool)
    requires |changes| == |readings|
  {
    forall x ::
      && NodesOf(EntryAfter(Get(c, x), changes, readings, excluded, x)) == NodesOf(Get(c, x))
      && EdgesOf(EntryAfter(Get(c, x), changes, readings, excluded, x)) == EdgesOf(Get(c, x))
  }

  /** And the paths that have any stay in the order they were in. */
  ghost predicate KeepsOrder(c: Cache, changes: Batch, readings: seq<Reading>, excluded: Path -> bool)
    requires |changes| == |readings|
  {
    SameOrder(c, KeysAfter(c.entries.keys, changes, readings, excluded))
  }

  /** No change takes away an entry of `c`. */
  ghost predicate TakesNothingAway(c: Cache, changes: Batch) {
    forall i :: 0 <= i < |changes| && TakenBy(changes[i]).Some? ==> TakenBy(changes[i]).value !in c.entries.vals
  }

  lemma KeepsBlocksIs(c: Cache, changes: Batch, readings: seq<Reading>, excluded: Path -> bool)
    requires |changes| == |readings|
    ensures KeepsBlocks(c, changes, readings, excluded) <==> SameBlocks(c, ExtractAll(c, changes, readings, excluded))
  {
    var c' := ExtractAll(c, changes, readings, excluded);
    forall x
      ensures NodesAt(c'.entries.vals)(x) == NodesOf(EntryAfter(Get(c, x), changes, readings, excluded, x))
      ensures EdgesAt(c'.entries.vals)(x) == EdgesOf(EntryAfter(Get(c, x), changes, readings, excluded, x))
      ensures NodesAt(c.entries.vals)(x) == NodesOf(Get(c, x)) && EdgesAt(c.entries.vals)(x) == EdgesOf(Get(c, x))
    {
      EntryIs(c, changes, readings, excluded, x);
    }
  }

  lemma {:induction false} KeysOnlyGrow(c: Cache, changes: Batch, readings: seq<Reading>, excluded: Path -> bool)
    returns (more: seq<Path>)
    requires |changes| == |readings| && ValidDict(c.entries) && TakesNothingAway(c, changes)
    ensures KeysAfter(c.entries.keys, changes, readings, excluded) == c.entries.keys + more
    ensures forall x :: x in more ==> x !in c.entries.keys
  {
    if |changes| == 0 {
      more := [];
    } else {
      var n := |changes| - 1;
      more := KeysOnlyGrow(c, changes[..n], readings[..n], excluded);
      if TakenBy(changes[n]).Some? {
        var p := TakenBy(changes[n]).value;
        assert p !in c.entries.keys;
        WithoutConcat(c.entries.keys, more, p);
        more := Without(more, p);
      }
      if Puts(changes[n], readings[n], excluded) && changes[n].path !in c.entries.keys + more {
        assert c.entries.keys + more + [changes[n].path] == c.entries.keys + (more + [changes[n].path]);
        more := more + [changes[n].path];
      }
    }
  }

  /** So a batch that takes no entry away keeps the order whenever it keeps the blocks. */
  lemma GrowingKeepsOrder(c: Cache, changes: Batch, readings: seq<Reading>, excluded: Path -> bool)
    requires |changes| == |readings| && ValidDict(c.entries) && TakesNothingAway(c, changes)
    ensures KeepsOrder(c, changes, readings, excluded)
  {
    var more := KeysOnlyGrow(c, changes, readings, excluded);
    BusyGrows(c.entries.keys, more, NodesAt(c.entries.vals), NodesAt(c.entries.vals));
    BusyGrows(c.entries.keys, more, EdgesAt(c.entries.vals), EdgesAt(c.entries.vals));
  }

  /** Merging gives the same before and after the changes exactly when they keep blocks and order. */
  lemma {:induction false} MergeKeptExactly(c: Cache, changes: Batch, readings: seq<Reading>, excluded: Path -> bool)
    requires Provenance(c) && ReadingsSourced(changes, readings)
    ensures var c' := ExtractAll(c, changes, readings, excluded);
      Merged(c) == Merged(c') <==>
      KeepsBlocks(c, changes, readings, excluded) && KeepsOrder(c, changes, readings, excluded)
  {
    ExtractAllProvenance(c, changes, readings, excluded);
    MergedEqualExactly(c, ExtractAll(c, changes, readings, excluded));
    KeepsBlocksIs(c, changes, readings, excluded);
    KeysAre(c, changes, readings, excluded);
  }

  /** A batch that raises before it publishes, after a run whose last batch was published: readers still see the rebuild
      when it leaves each path's nodes and edges, and the order of the paths that have any, as they were; and, for a
      builder that tells its inputs apart, only then. A batch that takes no entry away keeps the order, and an inert
      one keeps everything. */
  lemma {:induction false} RaisingBatchIsInvisible(e: Settings, r: Run, ops: seq<Op>, b: BatchInput)
    requires JustStarted(e, r) && (forall i :: 0 <= i < |ops| ==> Legal(ops[i])) && Legal(BatchOp(b))
    requires AfterAll(e, r, ops).past.published && !Publishes(AfterAll(e, r, ops).state, b)
    ensures var c := AfterAll(e, r, ops).state.cache;
      var s' := After(e, AfterAll(e, r, ops), BatchOp(b)).state;
      var keeps := KeepsBlocks(c, Applied(b), AppliedReadings(b), e.excluded);
      var orders := KeepsOrder(c, Applied(b), AppliedReadings(b), e.excluded);
      && (keeps && orders ==> GraphIsRebuild(e, s'))
      && (Injective(e.build) ==> (GraphIsRebuild(e, s') <==> keeps && orders))
      && (TakesNothingAway(c, Applied(b)) ==> orders)
      && ((forall i :: 0 <= i < |Applied(b)| ==> Inert(c, Applied(b)[i], AppliedReadings(b)[i], e.excluded)) ==>
            keeps && orders)
  {
    RunHolds(e, r, ops);
    var r' := AfterAll(e, r, ops);
    RaisedRun(e, r, r', b);
    InertKeeps(r'.state.cache, Applied(b), AppliedReadings(b), e.excluded);
    if TakesNothingAway(r'.state.cache, Applied(b)) {
      GrowingKeepsOrder(r'.state.cache, Applied(b), AppliedReadings(b), e.excluded);
    }
  }

  lemma {:induction false} RaisedRun(e: Settings, r0: Run, r: Run, b: BatchInput)
    requires RunInv(e, r0, r) && Legal(BatchOp(b)) && r.past.published && !Publishes(r.state, b)
    ensures var c, s' := r.state.cache, After(e, r, BatchOp(b)).state;
      var kept := KeepsBlocks(c, Applied(b), AppliedReadings(b), e.excluded) &&
                  KeepsOrder(c, Applied(b), AppliedReadings(b), e.excluded);
      && (kept ==> GraphIsRebuild(e, s'))
      && (Injective(e.build) ==> (GraphIsRebuild(e, s') <==> kept))
  {
    AppliedSourced(b);
    MergeKeptExactly(r.state.cache, Applied(b), AppliedReadings(b), e.excluded);
  }

  lemma AppliedSourced(b: BatchInput)
    requires Legal(BatchOp(b))
    ensures ReadingsSourced(Applied(b), AppliedReadings(b))
  {
  }

  lemma {:induction false} InertKeeps(c: Cache, changes: Batch, readings: seq<Reading>, excluded: Path -> bool)
    requires Provenance(c) && ReadingsSourced(changes, readings)
    ensures (forall i :: 0 <= i < |changes| ==> Inert(c, changes[i], readings[i], excluded)) ==>
              KeepsBlocks(c, changes, readings, excluded) && KeepsOrder(c, changes, readings, excluded)
  {
    if forall i :: 0 <= i < |changes| ==> Inert(c, changes[i], readings[i], excluded) {
      InertChangesDoNothing(c, changes, readings, excluded);
      MergeKeptExactly(c, changes, readings, excluded);
    }
  }

  /** And readers can be left behind: the first file of an empty vault is extracted, and the index raises. */
  lemma RaisingLeavesReadersBehind(e: Settings, p: Path, raw: Result, k: Tracker, cycle: CycleInput)
    returns (r: Run, b: BatchInput)
    requires e.build([], []) != e.build(Stamped(raw, p).nodes, Stamped(raw, p).edges)
    ensures JustStarted(e, r) && Legal(BatchOp(b)) && b.fault.SyncRaises? && b.changes == [Created(p)]
    ensures !GraphIsRebuild(e, After(e, r, BatchOp(b)).state)
  {
    r := EmptyStart(e, k);
    b := OneFileBatch(p, raw, cycle);
    OneFileMerged(e, r.state, b, p, raw);
    StoppedRun(e, r, b);
  }

  lemma OneFileBatch(p: Path, raw: Result, cycle: CycleInput) returns (b: BatchInput)
    ensures Legal(BatchOp(b)) && b.fault.SyncRaises? && b.changes == [Created(p)]
    ensures b.readings == [Reading(Some(Stamped(raw, p)), None)]
  {
    b := BatchInput([Created(p)], [Reading(Some(Stamped(raw, p)), None)], [None], 0.0, cycle, SyncRaises);
  }

  lemma OneFileMerged(e: Settings, s: State, b: BatchInput, p: Path, raw: Result)
    requires WellFormed(b) && b.fault.SyncRaises? && s.cache == EmptyCache()
    requires b.changes == [Created(p)] && b.readings == [Reading(Some(Stamped(raw, p)), None)]
    ensures Rebuilt(e.build, ExtractedCache(e, s, b)) == e.build(Stamped(raw, p).nodes, Stamped(raw, p).edges)
  {
    OneExtracted(e, s, b, b.readings[0]);
    MergedOfOne(ExtractedCache(e, s, b), p);
  }

  lemma EmptyStart(e: Settings, k: Tracker) returns (r: Run)
    ensures JustStarted(e, r) && r.state.cache == EmptyCache()
    ensures r.state.holder.current.Some? && r.state.holder.current.value.graph == e.build([], [])
  {
    var s := State(EmptyCache(), map[], true, Published(EMPTY_HOLDER, e.build([], []), map[]), k, None, None);
    r := Run(s, Past([], true, map[], ([], []), k.accumulated, k.lastBatchAt, None, None));
  }

  lemma StoppedRun(e: Settings, r: Run, b: BatchInput)
    requires Provenance(r.state.cache) && Legal(BatchOp(b)) && !Commits(r.state, b)
    requires r.state.holder.current.Some?
    ensures GraphIsRebuild(e, After(e, r, BatchOp(b)).state) <==>
            r.state.holder.current.value.graph == Rebuilt(e.build, ExtractedCache(e, r.state, b))
  {
    StoppedBeforeIndex(e, r.state, b);
  }

  lemma StoppedBeforeIndex(e: Settings, s: State, b: BatchInput)
    requires WellFormed(b) && Provenance(s.cache) && ReadingsSourced(b.changes, b.readings) && !Commits(s, b)
    ensures Compile(e, s, b).state == s.(cache := ExtractedCache(e, s, b))
  {
  }

  lemma OneExtracted(e: Settings, s: State, b: BatchInput, reading: Reading)
    requires WellFormed(b) && |b.changes| == 1 && b.readings == [reading] && b.fault.SyncRaises?
    ensures ExtractedCache(e, s, b) == ExtractOne(s.cache, b.changes[0], reading, e.excluded)
  {
    ExtractLast(s.cache, b.changes, b.readings, e.excluded);
  }

  lemma MergedOfOne(c: Cache, p: Path)
    requires ValidDict(c.entries) && c.entries.keys == [p]
    ensures p in c.entries.vals
    ensures Merged(c).0 == c.entries.vals[p].nodes && Merged(c).1 == c.entries.vals[p].edges
  {
    assert p in c.entries.keys;
    var nodes, edges := NodesAt(c.entries.vals), EdgesAt(c.entries.vals);
    assert Gathered(c.entries.keys, nodes) == Gathered(c.entries.keys[..0], nodes) + nodes(p);
    assert Gathered(c.entries.keys, edges) == Gathered(c.entries.keys[..0], edges) + edges(p);
  }
}
