/** src/graphify_daemon/vault_compiler/snapshot.py: merging the cache into a graph, and publishing snapshots. */
module Snapshot {
  import opened Collections
  import opened Batching
  import opened Extraction
  import opened Merging

  /** The graph library's graph, and its way of building one. */
  type Graph(==, !new)
  type Builder = (seq<Node>, seq<Edge>) -> Graph

  type Communities = map<int, seq<string>>

  datatype GraphSnapshot = GraphSnapshot(graph: Graph, communities: Communities, version: nat)

  function MergedNodes(keys: seq<Path>, vals: map<Path, Result>): seq<Node> {
    Gathered(keys, NodesAt(vals))
  }

  function MergedEdges(keys: seq<Path>, vals: map<Path, Result>): seq<Edge> {
    Gathered(keys, EdgesAt(vals))
  }

  /** What a rebuild of the whole cache hands to the builder. */
  function Merged(c: Cache): (seq<Node>, seq<Edge>) {
    (MergedNodes(c.entries.keys, c.entries.vals), MergedEdges(c.entries.keys, c.entries.vals))
  }

  /** The graph that a rebuild of the whole cache gives. */
  function Rebuilt(build: Builder, c: Cache): Graph
  {
    build(Merged(c).0, Merged(c).1)
  }

  /** The builder makes different graphs of different nodes and edges. */
  ghost predicate Injective(build: Builder) {
    forall nodes, edges, nodes', edges' ::
      build(nodes, edges) == build(nodes', edges') ==> nodes == nodes' && edges == edges'
  }

  method BuildGraph(build: Builder, cache: ExtractionCache) returns (g: Graph)
    requires ValidDict(cache.entries)
    ensures g == Rebuilt(build, cache.View())
  {
    var nodes, edges := [], [];
    var keys, vals := cache.entries.keys, cache.entries.vals;
    for i := 0 to |keys|
      invariant nodes == MergedNodes(keys[..i], vals) && edges == MergedEdges(keys[..i], vals)
    {
      assert keys[..i + 1][..i] == keys[..i];
      nodes := nodes + vals[keys[i]].nodes;
      edges := edges + vals[keys[i]].edges;
    }
    assert keys[..|keys|] == keys;
    g := build(nodes, edges);
  }

  /** Every node of the merged input comes from a cached path, and names it. */
  lemma {:induction false} MergedNodesAreSourced(c: Cache, keys: seq<Path>, n: Node)
    requires Provenance(c) && n in MergedNodes(keys, c.entries.vals)
    ensures n.sourceFile in keys
  {
    var init, last := keys[..|keys| - 1], keys[|keys| - 1];
    assert keys == init + [last];
    if n in MergedNodes(init, c.entries.vals) {
      MergedNodesAreSourced(c, init, n);
    } else {
      assert last in c.entries.vals && Sourced(last, c.entries.vals[last]);
    }
  }

  lemma {:induction false} MergedEdgesAreSourced(c: Cache, keys: seq<Path>, e: Edge)
    requires Provenance(c) && e in MergedEdges(keys, c.entries.vals)
    ensures e.sourceFile in keys
  {
    var init, last := keys[..|keys| - 1], keys[|keys| - 1];
    assert keys == init + [last];
    if e in MergedEdges(init, c.entries.vals) {
      MergedEdgesAreSourced(c, init, e);
    } else {
      assert last in c.entries.vals && Sourced(last, c.entries.vals[last]);
    }
  }

  /** The same blocks everywhere, and the paths that have one in the same order. */
  ghost predicate SameBlocks(c: Cache, c': Cache) {
    forall x :: NodesAt(c.entries.vals)(x) == NodesAt(c'.entries.vals)(x) &&
                EdgesAt(c.entries.vals)(x) == EdgesAt(c'.entries.vals)(x)
  }

  ghost predicate SameOrder(c: Cache, keys: seq<Path>) {
    && Busy(keys, NodesAt(c.entries.vals)) == Busy(c.entries.keys, NodesAt(c.entries.vals))
    && Busy(keys, EdgesAt(c.entries.vals)) == Busy(c.entries.keys, EdgesAt(c.entries.vals))
  }

  /** Two caches merge to the same nodes and edges exactly when they agree path by path and in order. */
  lemma {:induction false} MergedEqualExactly(c: Cache, c': Cache)
    requires Provenance(c) && Provenance(c')
    ensures Merged(c) == Merged(c') <==> SameBlocks(c, c') && SameOrder(c, c'.entries.keys)
  {
    var nodes, nodes' := NodesAt(c.entries.vals), NodesAt(c'.entries.vals);
    var edges, edges' := EdgesAt(c.entries.vals), EdgesAt(c'.entries.vals);
    BlocksMarked(c);
    BlocksMarked(c');
    GatheredEqualExactly(c.entries.keys, nodes, c'.entries.keys, nodes', NodeSource);
    GatheredEqualExactly(c.entries.keys, edges, c'.entries.keys, edges', EdgeSource);
  }

  function NodeSource(n: Node): Path { n.sourceFile }

  function EdgeSource(e: Edge): Path { e.sourceFile }

  lemma BlocksMarked(c: Cache)
    requires Provenance(c)
    ensures Marked(NodesAt(c.entries.vals), NodeSource) && Marked(EdgesAt(c.entries.vals), EdgeSource)
    ensures forall x :: x !in c.entries.keys ==> NodesAt(c.entries.vals)(x) == []
    ensures forall x :: x !in c.entries.keys ==> EdgesAt(c.entries.vals)(x) == []
  {
    forall p, i | 0 <= i < |NodesAt(c.entries.vals)(p)|
      ensures NodeSource(NodesAt(c.entries.vals)(p)[i]) == p
    {
      assert Sourced(p, c.entries.vals[p]);
    }
    forall p, i | 0 <= i < |EdgesAt(c.entries.vals)(p)|
      ensures EdgeSource(EdgesAt(c.entries.vals)(p)[i]) == p
    {
      assert Sourced(p, c.entries.vals[p]);
    }
  }

  datatype Holder = Holder(current: Option<GraphSnapshot>, nextVersion: nat)

  const EMPTY_HOLDER := Holder(None, 1)

  function Published(h: Holder, g: Graph, communities: Communities): Holder {
    Holder(Some(GraphSnapshot(g, communities, h.nextVersion)), h.nextVersion + 1)
  }

  class SnapshotHolder {
    var current: Option<GraphSnapshot>
    var nextVersion: nat

    ghost function View(): Holder
      reads this
    {
      Holder(current, nextVersion)
    }

    constructor ()
      ensures View() == EMPTY_HOLDER
    {
      current, nextVersion := None, 1;
    }

    method Publish(g: Graph, communities: Communities) returns (snapshot: GraphSnapshot)
      modifies this
      ensures View() == Published(old(View()), g, communities) && current == Some(snapshot)
    {
      snapshot := GraphSnapshot(g, communities, nextVersion);
      nextVersion := nextVersion + 1;
      current := Some(snapshot);
    }
  }
}
