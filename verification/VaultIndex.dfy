/** src/graphify_daemon/artifact_lifecycle/vault_index.py: the `files` table, and its agreement with the cache. */
module VaultIndex {
  import opened Collections
  import opened Batching
  import opened Extraction

  datatype Row = Row(mtime: Mtime, size: nat, nodeCount: nat, edgeCount: nat)

  /** `stat` of a file that is there. */
  datatype Stat = Stat(mtime: Mtime, size: nat)

  type Rows = map<Path, Row>

  function RowFor(cache: Cache, p: Path, stat: Option<Stat>): Row {
    var (mtime, size) := if stat.Some? then (stat.value.mtime, stat.value.size) else (0, 0);
    match Get(cache, p)
    case None => Row(mtime, size, 0, 0)
    case Some(r) => Row(mtime, size, |r.nodes|, |r.edges|)
  }

  function SyncOne(rows: Rows, cache: Cache, change: FileChange, stat: Option<Stat>, excluded: Path -> bool): Rows {
    match change
    case Deleted(p) => rows - {p}
    case Renamed(p, previous) =>
      if excluded(p) then rows - {previous} else (rows - {previous})[p := RowFor(cache, p, stat)]
    case _ => rows[change.path := RowFor(cache, change.path, stat)]
  }

  function SyncAll(rows: Rows, cache: Cache, changes: Batch, stats: seq<Option<Stat>>, excluded: Path -> bool): Rows
    requires |changes| == |stats|
  {
    if |changes| == 0 then rows
    else
      var n := |changes| - 1;
      SyncOne(SyncAll(rows, cache, changes[..n], stats[..n], excluded), cache, changes[n], stats[n], excluded)
  }

  /** The connection: the committed table, replaced as a whole when a transaction commits. */
  class Connection {
    var files: Rows
    var open: bool

    constructor (files: Rows)
      ensures this.files == files && open
    {
      this.files, open := files, true;
    }

    method Close()
      modifies this`open
      ensures !open
    {
      open := false;
    }
  }

  /** On a closed connection the first statement raises: the transaction leaves the table as it was. */
  method SyncBatch(conn: Connection, cache: ExtractionCache, changes: Batch, stats: seq<Option<Stat>>,
                   excluded: Path -> bool)
    returns (ok: bool)
    requires |changes| == |stats|
    modifies conn`files
    ensures ok == conn.open
    ensures conn.files ==
            if ok then SyncAll(old(conn.files), cache.View(), changes, stats, excluded) else old(conn.files)
  {
    if !conn.open {
      return false;
    }
    var rows := conn.files;
    for i := 0 to |changes|
      invariant rows == SyncAll(old(conn.files), cache.View(), changes[..i], stats[..i], excluded)
    {
      assert changes[..i + 1][..i] == changes[..i] && stats[..i + 1][..i] == stats[..i];
      var change := changes[i];
      if change.Deleted? {
        rows := rows - {change.path};
      } else {
        if change.Renamed? {
          rows := rows - {change.previous};
        }
        if !(change.Renamed? && excluded(change.path)) {
          var r := cache.entries.vals;
          var nodeCount := if change.path in r then |r[change.path].nodes| else 0;
          var edgeCount := if change.path in r then |r[change.path].edges| else 0;
          var stat := if stats[i].Some? then stats[i].value else Stat(0, 0);
          rows := rows[change.path := Row(stat.mtime, stat.size, nodeCount, edgeCount)];
        }
      }
    }
    assert changes[..|changes|] == changes && stats[..|changes|] == stats;
    conn.files := rows;
    ok := true;
  }

  predicate CountsOf(row: Row, r: Option<Result>) {
    match r
    case None => row.nodeCount == 0 && row.edgeCount == 0
    case Some(result) => row.nodeCount == |result.nodes| && row.edgeCount == |result.edges|
  }

  lemma {:induction false} SyncAllAt(rows: Rows, cache: Cache, changes: Batch, stats: seq<Option<Stat>>,
                                    excluded: Path -> bool, x: Path)
    requires |changes| == |stats|
    ensures var r := SyncAll(rows, cache, changes, stats, excluded);
      match LastEffect(changes, x, excluded)
      case Untouched => Lookup(r, x) == Lookup(rows, x)
      case Remove => x !in r
      case Install => x in r && CountsOf(r[x], Get(cache, x))
  {
    if |changes| > 0 {
      var n := |changes| - 1;
      SyncAllAt(rows, cache, changes[..n], stats[..n], excluded, x);
    }
  }

  /** A row has the mtime and the size of its file when the last change that touches it was synced, or zeros
      when the file had gone. */
  lemma {:induction false} SyncAllStats(rows: Rows, cache: Cache, changes: Batch, stats: seq<Option<Stat>>,
                                        excluded: Path -> bool, i: nat)
    requires |changes| == |stats| && i < |changes| && LastAt(changes, i, excluded) && Extracts(changes[i], excluded)
    ensures var r, p := SyncAll(rows, cache, changes, stats, excluded), changes[i].path;
      p in r && Stat(r[p].mtime, r[p].size) == if stats[i].Some? then stats[i].value else Stat(0, 0)
  {
    var n := |changes| - 1;
    if i < n {
      assert LastAt(changes[..n], i, excluded);
      SyncAllStats(rows, cache, changes[..n], stats[..n], excluded, i);
    }
  }

  lemma {:induction false} LastEffectConcat(a: Batch, b: Batch, x: Path, excluded: Path -> bool)
    ensures LastEffect(a + b, x, excluded) ==
            if LastEffect(b, x, excluded).Untouched? then LastEffect(a, x, excluded) else LastEffect(b, x, excluded)
  {
    if |b| == 0 {
      assert a + b == a;
    } else {
      var n := |b| - 1;
      assert (a + b)[..|a| + n] == a + b[..n];
      LastEffectConcat(a, b[..n], x, excluded);
    }
  }

  /** A row has the counts of the cache entry, and there is none where there is no row. */
  predicate Fits(cache: Cache, rows: Rows, x: Path) {
    if x in rows then CountsOf(rows[x], Get(cache, x)) else Get(cache, x).None?
  }

  /** The two folds over a batch meet at every path: the batch leaves row and entry alone, takes both away, or leaves
      a row that has the counts of the entry. */
  lemma FoldsAgree(cache: Cache, rows: Rows, changes: Batch, readings: seq<Reading>, stats: seq<Option<Stat>>,
                   excluded: Path -> bool, x: Path)
    requires |changes| == |readings| == |stats|
    ensures var cache' := ExtractAll(cache, changes, readings, excluded);
      var rows' := SyncAll(rows, cache', changes, stats, excluded);
      match LastEffect(changes, x, excluded)
      case Untouched => SameAt(cache', cache, x) && Lookup(rows', x) == Lookup(rows, x)
      case Remove => x !in rows' && x !in cache'.entries.vals
      case Install => x in rows' && CountsOf(rows'[x], Get(cache', x))
  {
    UntouchedOrRemoved(cache, changes, readings, excluded, x);
    SyncAllAt(rows, ExtractAll(cache, changes, readings, excluded), changes, stats, excluded, x);
  }
}
