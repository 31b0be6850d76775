/** src/graphify_daemon/vault_compiler/extraction.py: stamping, the extraction cache, and one batch's extraction. */
module Extraction {
  import opened Collections
  import opened Batching

  type Content = string

  /** File modification times are only ever compared for equality. */
  type Mtime = int

  datatype Node = Node(attributes: string, sourceFile: Path)
  datatype Edge = Edge(attributes: string, sourceFile: Path)
  datatype Result = Result(nodes: seq<Node>, edges: seq<Edge>)

  /** The extractor library: nothing when it raises or answers with an "error" key. */
  type Extractor = (Path, Content) -> Option<Result>

  ghost predicate Sourced(p: Path, r: Result) {
    && (forall i :: 0 <= i < |r.nodes| ==> r.nodes[i].sourceFile == p)
    && (forall i :: 0 <= i < |r.edges| ==> r.edges[i].sourceFile == p)
  }

  function Stamped(raw: Result, p: Path): (r: Result)
    ensures Sourced(p, r) && |r.nodes| == |raw.nodes| && |r.edges| == |raw.edges|
    ensures forall i :: 0 <= i < |r.nodes| ==> r.nodes[i].attributes == raw.nodes[i].attributes
    ensures forall i :: 0 <= i < |r.edges| ==> r.edges[i].attributes == raw.edges[i].attributes
  {
    Result(seq(|raw.nodes|, i requires 0 <= i < |raw.nodes| => raw.nodes[i].(sourceFile := p)),
           seq(|raw.edges|, i requires 0 <= i < |raw.edges| => raw.edges[i].(sourceFile := p)))
  }

  /** The same nodes and edges, item by item, apart from the source. */
  ghost predicate SameItems(a: Result, b: Result) {
    && |a.nodes| == |b.nodes| && |a.edges| == |b.edges|
    && (forall i :: 0 <= i < |a.nodes| ==> a.nodes[i].attributes == b.nodes[i].attributes)
    && (forall i :: 0 <= i < |a.edges| ==> a.edges[i].attributes == b.edges[i].attributes)
  }

  /** `extract_file_with_failure_isolation` on a file whose content is `content`, or that is not there. */
  function Isolated(extract: Extractor, p: Path, content: Option<Content>): (r: Option<Result>)
    ensures r.Some? <==> content.Some? && extract(p, content.value).Some?
    ensures r.Some? ==> Sourced(p, r.value) && SameItems(r.value, extract(p, content.value).value)
  {
    if content.None? then None
    else
      match extract(p, content.value)
      case None => None
      case Some(raw) => Some(Stamped(raw, p))
  }

  /** The stamping loops of `extract_file`, which overwrite `source_file` in the extractor's own lists. */
  method StampInPlace(nodes: array<Node>, edges: array<Edge>, p: Path)
    modifies nodes, edges
    ensures Result(nodes[..], edges[..]) == Stamped(Result(old(nodes[..]), old(edges[..])), p)
  {
    for i := 0 to nodes.Length
      invariant forall k :: 0 <= k < i ==> nodes[k] == old(nodes[k]).(sourceFile := p)
      invariant forall k :: i <= k < nodes.Length ==> nodes[k] == old(nodes[k])
      invariant edges[..] == old(edges[..])
    {
      nodes[i] := nodes[i].(sourceFile := p);
    }
    for i := 0 to edges.Length
      invariant forall k :: 0 <= k < nodes.Length ==> nodes[k] == old(nodes[k]).(sourceFile := p)
      invariant forall k :: 0 <= k < i ==> edges[k] == old(edges[k]).(sourceFile := p)
      invariant forall k :: i <= k < edges.Length ==> edges[k] == old(edges[k])
    {
      edges[i] := edges[i].(sourceFile := p);
    }
  }

  datatype Cache = Cache(entries: Dict<Path, Result>, mtimes: map<Path, Mtime>)

  function EmptyCache(): Cache { Cache(EmptyDict(), map[]) }

  /** `set`: without an mtime, one recorded earlier stays. */
  function SetEntry(c: Cache, p: Path, r: Result, mtime: Option<Mtime>): Cache {
    Cache(Put(c.entries, p, r), if mtime.Some? then c.mtimes[p := mtime.value] else c.mtimes)
  }

  function DeleteEntry(c: Cache, p: Path): Cache {
    Cache(Delete(c.entries, p), c.mtimes - {p})
  }

  function Get(c: Cache, p: Path): Option<Result> { Lookup(c.entries.vals, p) }

  class ExtractionCache {
    var entries: Dict<Path, Result>
    var mtimes: map<Path, Mtime>

    ghost function View(): Cache
      reads this
    {
      Cache(entries, mtimes)
    }

    constructor ()
      ensures View() == EmptyCache()
    {
      entries, mtimes := EmptyDict(), map[];
    }

    method Set(p: Path, r: Result, mtime: Option<Mtime>)
      modifies this
      ensures View() == SetEntry(old(View()), p, r, mtime)
    {
      entries := Put(entries, p, r);
      if mtime.Some? {
        mtimes := mtimes[p := mtime.value];
      }
    }

    method Remove(p: Path)
      modifies this
      ensures View() == DeleteEntry(old(View()), p)
    {
      entries := Delete(entries, p);
      mtimes := mtimes - {p};
    }

    /** `save`: JSON keeps the keys in order and the numbers as they are. */
    method Save() returns (file: Cache)
      ensures file == View()
    {
      file := Cache(entries, mtimes);
    }

    method Load(file: Cache)
      modifies this
      ensures View() == file
    {
      entries, mtimes := file.entries, file.mtimes;
    }
  }

  /** What the file system answers while one change is compiled: the isolated extraction of its path, and
      then the mtime that `stat` finds, or none when the file has gone. */
  datatype Reading = Reading(result: Option<Result>, mtime: Option<Mtime>)

  /** The removing half of a change. */
  function RemovedBy(c: Cache, change: FileChange): Cache {
    match change
    case Deleted(p) => DeleteEntry(c, p)
    case Renamed(_, previous) => DeleteEntry(c, previous)
    case _ => c
  }

  predicate Extracts(change: FileChange, excluded: Path -> bool) {
    !change.Deleted? && !(change.Renamed? && excluded(change.path))
  }

  /** One turn of the loop of `extract_batch`. */
  function ExtractOne(c: Cache, change: FileChange, reading: Reading, excluded: Path -> bool): Cache {
    var removed := RemovedBy(c, change);
    if Extracts(change, excluded) && reading.result.Some?
    then SetEntry(removed, change.path, reading.result.value, reading.mtime)
    else removed
  }

  function ExtractAll(c: Cache, changes: Batch, readings: seq<Reading>, excluded: Path -> bool): Cache
    requires |changes| == |readings|
  {
    if |changes| == 0 then c
    else
      var n := |changes| - 1;
      ExtractOne(ExtractAll(c, changes[..n], readings[..n], excluded), changes[n], readings[n], excluded)
  }

  method ExtractBatch(cache: ExtractionCache, changes: Batch, readings: seq<Reading>, excluded: Path -> bool)
    requires |changes| == |readings|
    modifies cache
    ensures cache.View() == ExtractAll(old(cache.View()), changes, readings, excluded)
  {
    for i := 0 to |changes|
      invariant cache.View() == ExtractAll(old(cache.View()), changes[..i], readings[..i], excluded)
    {
      assert changes[..i + 1][..i] == changes[..i] && readings[..i + 1][..i] == readings[..i];
      var change := changes[i];
      if change.Deleted? {
        cache.Remove(change.path);
      } else {
        if change.Renamed? {
          cache.Remove(change.previous);
        }
        if !(change.Renamed? && excluded(change.path)) && readings[i].result.Some? {
          cache.Set(change.path, readings[i].result.value, readings[i].mtime);
        }
      }
    }
    assert changes[..|changes|] == changes && readings[..|changes|] == readings;
  }

  ghost predicate SameAt(a: Cache, b: Cache, x: Path) {
    Get(a, x) == Get(b, x) && Lookup(a.mtimes, x) == Lookup(b.mtimes, x)
  }

  /** A batch leaves a path alone that no change touches, and clears one whose last change takes it away. */
  lemma {:induction false} UntouchedOrRemoved(c: Cache, changes: Batch, readings: seq<Reading>,
                                              excluded: Path -> bool, x: Path)
    requires |changes| == |readings|
    ensures var r := ExtractAll(c, changes, readings, excluded);
      match LastEffect(changes, x, excluded)
      case Untouched => SameAt(r, c, x)
      case Remove => x !in r.entries.vals && x !in r.mtimes
      case Install => true
  {
    if |changes| > 0 {
      var n := |changes| - 1;
      UntouchedOrRemoved(c, changes[..n], readings[..n], excluded, x);
    }
  }

  /** The changes after the `i`th leave its path alone. */
  ghost predicate LastAt(changes: Batch, i: nat, excluded: Path -> bool)
    requires i < |changes|
  {
    forall j :: i < j < |changes| ==> EffectOn(changes[j], changes[i].path, excluded).Untouched?
  }

  lemma {:induction false} DecidedAt(c: Cache, changes: Batch, readings: seq<Reading>, excluded: Path -> bool, i: nat)
    requires |changes| == |readings| && i < |changes| && LastAt(changes, i, excluded)
    ensures SameAt(ExtractAll(c, changes, readings, excluded),
                   ExtractAll(c, changes[..i + 1], readings[..i + 1], excluded), changes[i].path)
  {
    var n := |changes| - 1;
    if i < n {
      assert LastAt(changes[..n], i, excluded);
      DecidedAt(c, changes[..n], readings[..n], excluded, i);
      assert changes[..n][..i + 1] == changes[..i + 1] && readings[..n][..i + 1] == readings[..i + 1];
      ExtractLast(c, changes, readings, excluded);
      var before := ExtractAll(c, changes[..n], readings[..n], excluded);
      KeptByOne(before, changes[n], readings[n], excluded, changes[i].path);
    } else {
      assert changes[..i + 1] == changes && readings[..i + 1] == readings;
    }
  }

  lemma ExtractLast(c: Cache, changes: Batch, readings: seq<Reading>, excluded: Path -> bool)
    requires |changes| == |readings| > 0
    ensures var n := |changes| - 1;
      ExtractAll(c, changes, readings, excluded) ==
      ExtractOne(ExtractAll(c, changes[..n], readings[..n], excluded), changes[n], readings[n], excluded)
  {
  }

  /** A successful extraction is in the cache after the batch, with the mtime that was read after it, when no
      later change touches its path; when the file had gone by then, the mtime recorded before stays. */
  lemma {:induction false} ExtractAllKeeps(c: Cache, changes: Batch, readings: seq<Reading>, excluded: Path -> bool,
                                           i: nat)
    requires |changes| == |readings| && i < |changes| && LastAt(changes, i, excluded)
    requires Extracts(changes[i], excluded) && readings[i].result.Some?
    ensures var r := ExtractAll(c, changes, readings, excluded);
      && Get(r, changes[i].path) == readings[i].result
      && (readings[i].mtime.Some? ==> Lookup(r.mtimes, changes[i].path) == readings[i].mtime)
      && (readings[i].mtime.None? && !(changes[i].Renamed? && changes[i].previous == changes[i].path) ==>
            var before := ExtractAll(c, changes[..i], readings[..i], excluded);
            Lookup(r.mtimes, changes[i].path) == Lookup(before.mtimes, changes[i].path))
  {
    DecidedAt(c, changes, readings, excluded, i);
    ExtractLast(c, changes[..i + 1], readings[..i + 1], excluded);
    assert changes[..i + 1][..i] == changes[..i] && readings[..i + 1][..i] == readings[..i];
  }

  /** A failed extraction leaves the entry that was there before it, and its mtime. */
  lemma {:induction false} FailureKeepsEntry(c: Cache, changes: Batch, readings: seq<Reading>,
                                             excluded: Path -> bool, i: nat)
    requires |changes| == |readings| && i < |changes| && LastAt(changes, i, excluded)
    requires Extracts(changes[i], excluded) && readings[i].result.None?
    requires changes[i].Renamed? ==> changes[i].previous != changes[i].path
    ensures SameAt(ExtractAll(c, changes, readings, excluded),
                   ExtractAll(c, changes[..i], readings[..i], excluded), changes[i].path)
  {
    DecidedAt(c, changes, readings, excluded, i);
    ExtractLast(c, changes[..i + 1], readings[..i + 1], excluded);
    assert changes[..i + 1][..i] == changes[..i] && readings[..i + 1][..i] == readings[..i];
  }

  lemma KeptByOne(c: Cache, change: FileChange, reading: Reading, excluded: Path -> bool, x: Path)
    requires EffectOn(change, x, excluded).Untouched?
    ensures SameAt(ExtractOne(c, change, reading, excluded), c, x)
  {
  }

  /** The cache `r` is at `x` as change number `i`, the last to touch `x`, left it: the extraction and the mtime that
      were read; or, when the extraction failed, what was there before. */
  ghost predicate InstalledBy(c: Cache, changes: Batch, readings: seq<Reading>, excluded: Path -> bool, r: Cache,
                              i: nat, x: Path)
    requires i < |changes| == |readings|
  {
    && changes[i].path == x && Extracts(changes[i], excluded) && LastAt(changes, i, excluded)
    && (readings[i].result.Some? ==>
          && Get(r, x) == readings[i].result
          && (readings[i].mtime.Some? ==> Lookup(r.mtimes, x) == readings[i].mtime))
    && (readings[i].result.None? && !(changes[i].Renamed? && changes[i].previous == x) ==>
          SameAt(r, ExtractAll(c, changes[..i], readings[..i], excluded), x))
  }

  lemma {:induction false} LastInstall(changes: Batch, excluded: Path -> bool, x: Path) returns (i: nat)
    requires LastEffect(changes, x, excluded).Install?
    ensures i < |changes| && changes[i].path == x && Extracts(changes[i], excluded) && LastAt(changes, i, excluded)
  {
    i := |changes| - 1;
    if EffectOn(changes[i], x, excluded).Untouched? {
      var init := changes[..i];
      i := LastInstall(init, excluded, x);
      assert forall j :: i < j < |init| ==> init[j] == changes[j];
    }
  }

  /** What a batch does at one path is decided by the last change that touches it. */
  lemma {:induction false} ExtractAllAt(c: Cache, changes: Batch, readings: seq<Reading>, excluded: Path -> bool,
                                        x: Path)
    requires |changes| == |readings|
    ensures var r := ExtractAll(c, changes, readings, excluded);
      match LastEffect(changes, x, excluded)
      case Untouched => SameAt(r, c, x)
      case Remove => x !in r.entries.vals && x !in r.mtimes
      case Install => exists i :: 0 <= i < |changes| && InstalledBy(c, changes, readings, excluded, r, i, x)
  {
    UntouchedOrRemoved(c, changes, readings, excluded, x);
    if LastEffect(changes, x, excluded).Install? {
      var i := LastInstall(changes, excluded, x);
      if readings[i].result.Some? {
        ExtractAllKeeps(c, changes, readings, excluded, i);
      } else if !(changes[i].Renamed? && changes[i].previous == x) {
        FailureKeepsEntry(c, changes, readings, excluded, i);
      }
      assert InstalledBy(c, changes, readings, excluded, ExtractAll(c, changes, readings, excluded), i, x);
    }
  }

  /** Every entry carries its own path, and mtimes are recorded only for entries. */
  ghost predicate Provenance(c: Cache) {
    && ValidDict(c.entries)
    && (forall p :: p in c.entries.vals ==> Sourced(p, c.entries.vals[p]))
    && (forall p :: p in c.mtimes ==> p in c.entries.vals)
  }

  ghost predicate ReadingsSourced(changes: Batch, readings: seq<Reading>) {
    && |changes| == |readings|
    && (forall i :: 0 <= i < |changes| && readings[i].result.Some? ==>
          Sourced(changes[i].path, readings[i].result.value))
  }

  lemma {:induction false} ExtractAllProvenance(c: Cache, changes: Batch, readings: seq<Reading>,
                                                excluded: Path -> bool)
    requires Provenance(c) && ReadingsSourced(changes, readings)
    ensures Provenance(ExtractAll(c, changes, readings, excluded))
  {
    if |changes| > 0 {
      var n := |changes| - 1;
      ExtractAllProvenance(c, changes[..n], readings[..n], excluded);
    }
  }
}
