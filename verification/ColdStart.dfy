/** src/graphify_daemon/artifact_lifecycle/cold_start.py: reconciling a loaded cache with the vault. */
module ColdStart {
  import opened Collections
  import opened Batching
  import opened Extraction
  import opened Snapshot

  datatype File = File(content: Content, mtime: Mtime)
  type Vault = map<Path, File>

  /** `rglob` in the order it yields the files; each file once. */
  ghost predicate Walks(walk: seq<Path>, vault: Vault) {
    Distinct(walk) && (forall p :: p in walk <==> p in vault)
  }

  function ExtractionOf(extract: Extractor, vault: Vault, p: Path): (r: Option<Result>)
    ensures r.Some? ==> p in vault && Sourced(p, r.value)
  {
    Isolated(extract, p, if p in vault then Some(vault[p].content) else None)
  }

  /** One file of the walk. */
  function Visit(extract: Extractor, vault: Vault, c: Cache, p: Path): Cache
    requires p in vault
  {
    if Lookup(c.mtimes, p) == Some(vault[p].mtime) then c
    else
      match ExtractionOf(extract, vault, p)
      case None => c
      case Some(r) => SetEntry(c, p, r, Some(vault[p].mtime))
  }

  function Walked(extract: Extractor, vault: Vault, c: Cache, walk: seq<Path>, excluded: Path -> bool): Cache
    requires forall p :: p in walk ==> p in vault
  {
    if |walk| == 0 then c
    else
      var before, p := Walked(extract, vault, c, walk[..|walk| - 1], excluded), walk[|walk| - 1];
      if excluded(p) then before else Visit(extract, vault, before, p)
  }

  /** The second loop: drop, one by one, the listed paths that were not observed. */
  function Pruned(c: Cache, listed: seq<Path>, observed: set<Path>): Cache {
    if |listed| == 0 then c
    else
      var before, p := Pruned(c, listed[..|listed| - 1], observed), listed[|listed| - 1];
      if p in observed then before else DeleteEntry(before, p)
  }

  function Observed(walk: seq<Path>, excluded: Path -> bool): set<Path> {
    set p | p in walk && !excluded(p)
  }

  function Reconciled(extract: Extractor, vault: Vault, c: Cache, walk: seq<Path>, excluded: Path -> bool): Cache
    requires forall p :: p in walk ==> p in vault
  {
    var walked := Walked(extract, vault, c, walk, excluded);
    Pruned(walked, walked.entries.keys, Observed(walk, excluded))
  }

  /** The files whose recorded mtime differs, which are the ones cold start extracts. */
  function Stale(vault: Vault, c: Cache, walk: seq<Path>, excluded: Path -> bool): set<Path>
    requires forall p :: p in walk ==> p in vault
  {
    set p | p in walk && !excluded(p) && Lookup(c.mtimes, p) != Some(vault[p].mtime)
  }

  lemma ScopeGrows(vault: Vault, c: Cache, walk: seq<Path>, i: nat, excluded: Path -> bool)
    requires (forall p :: p in walk ==> p in vault) && i < |walk|
    ensures Observed(walk[..i + 1], excluded) ==
            Observed(walk[..i], excluded) + if excluded(walk[i]) then {} else {walk[i]}
    ensures Stale(vault, c, walk[..i + 1], excluded) ==
            Stale(vault, c, walk[..i], excluded) +
            if excluded(walk[i]) || Lookup(c.mtimes, walk[i]) == Some(vault[walk[i]].mtime) then {} else {walk[i]}
  {
    assert walk[..i + 1] == walk[..i] + [walk[i]];
  }

  method VisitFile(extract: Extractor, vault: Vault, p: Path, cache: ExtractionCache) returns (extracted: bool)
    requires p in vault
    modifies cache
    ensures cache.View() == Visit(extract, vault, old(cache.View()), p)
    ensures extracted <==> Lookup(old(cache.mtimes), p) != Some(vault[p].mtime)
  {
    if p in cache.mtimes && cache.mtimes[p] == vault[p].mtime {
      return false;
    }
    var result := Isolated(extract, p, Some(vault[p].content));
    if result.Some? {
      cache.Set(p, result.value, Some(vault[p].mtime));
    }
    extracted := true;
  }

  method WalkVault(extract: Extractor, vault: Vault, walk: seq<Path>, excluded: Path -> bool, cache: ExtractionCache)
    returns (observed: set<Path>, extracted: set<Path>)
    requires Walks(walk, vault)
    modifies cache
    ensures observed == Observed(walk, excluded)
    ensures cache.View() == Walked(extract, vault, old(cache.View()), walk, excluded)
    ensures extracted == Stale(vault, old(cache.View()), walk, excluded)
  {
    observed, extracted := {}, {};
    for i := 0 to |walk|
      invariant observed == Observed(walk[..i], excluded)
      invariant cache.View() == Walked(extract, vault, old(cache.View()), walk[..i], excluded)
      invariant extracted == Stale(vault, old(cache.View()), walk[..i], excluded)
    {
      assert walk[..i + 1][..i] == walk[..i];
      ScopeGrows(vault, old(cache.View()), walk, i, excluded);
      if !excluded(walk[i]) {
        WalkedAt(extract, vault, old(cache.View()), walk[..i], excluded, walk[i]);
        observed := observed + {walk[i]};
        var read := VisitFile(extract, vault, walk[i], cache);
        extracted := extracted + if read then {walk[i]} else {};
      }
    }
    assert walk[..|walk|] == walk;
  }

  method DropUnobserved(cache: ExtractionCache, observed: set<Path>)
    modifies cache
    ensures cache.View() == Pruned(old(cache.View()), old(cache.entries.keys), observed)
  {
    var listed := cache.entries.keys;
    for i := 0 to |listed|
      invariant cache.View() == Pruned(old(cache.View()), listed[..i], observed)
    {
      assert listed[..i + 1][..i] == listed[..i];
      if listed[i] !in observed {
        cache.Remove(listed[i]);
      }
    }
    assert listed[..|listed|] == listed;
  }

  method ColdStart(extract: Extractor, build: Builder, vault: Vault, walk: seq<Path>, excluded: Path -> bool,
                   cache: ExtractionCache, holder: SnapshotHolder)
    returns (extracted: set<Path>)
    requires Walks(walk, vault) && Provenance(cache.View())
    modifies cache, holder
    ensures cache.View() == Reconciled(extract, vault, old(cache.View()), walk, excluded)
    ensures Provenance(cache.View())
    ensures holder.View() == Published(old(holder.View()), Rebuilt(build, cache.View()), map[])
    ensures extracted == Stale(vault, old(cache.View()), walk, excluded)
  {
    var observed;
    observed, extracted := WalkVault(extract, vault, walk, excluded, cache);
    DropUnobserved(cache, observed);
    ReconciledProvenance(extract, vault, old(cache.View()), walk, excluded);
    var g := BuildGraph(build, cache);
    var _ := holder.Publish(g, map[]);
  }

  lemma {:induction false} WalkedProvenance(extract: Extractor, vault: Vault, c: Cache, walk: seq<Path>,
                                            excluded: Path -> bool)
    requires (forall p :: p in walk ==> p in vault) && Provenance(c)
    ensures Provenance(Walked(extract, vault, c, walk, excluded))
  {
    if |walk| > 0 {
      WalkedProvenance(extract, vault, c, walk[..|walk| - 1], excluded);
    }
  }

  lemma {:induction false} PrunedProvenance(c: Cache, listed: seq<Path>, observed: set<Path>)
    requires Provenance(c)
    ensures Provenance(Pruned(c, listed, observed))
  {
    if |listed| > 0 {
      PrunedProvenance(c, listed[..|listed| - 1], observed);
    }
  }

  lemma ReconciledProvenance(extract: Extractor, vault: Vault, c: Cache, walk: seq<Path>, excluded: Path -> bool)
    requires (forall p :: p in walk ==> p in vault) && Provenance(c)
    ensures Provenance(Reconciled(extract, vault, c, walk, excluded))
  {
    WalkedProvenance(extract, vault, c, walk, excluded);
    var walked := Walked(extract, vault, c, walk, excluded);
    PrunedProvenance(walked, walked.entries.keys, Observed(walk, excluded));
  }

  /** A visit decides its own path and no other. */
  lemma {:induction false} WalkedAt(extract: Extractor, vault: Vault, c: Cache, walk: seq<Path>,
                                    excluded: Path -> bool, x: Path)
    requires Distinct(walk) && forall p :: p in walk ==> p in vault
    ensures var r := Walked(extract, vault, c, walk, excluded);
      var expected := if x in walk && !excluded(x) then Visit(extract, vault, c, x) else c;
      Get(r, x) == Get(expected, x) && Lookup(r.mtimes, x) == Lookup(expected.mtimes, x)
  {
    if |walk| > 0 {
      var init, last := walk[..|walk| - 1], walk[|walk| - 1];
      assert walk == init + [last];
      WalkedAt(extract, vault, c, init, excluded, x);
    }
  }

  lemma {:induction false} PrunedAt(c: Cache, listed: seq<Path>, observed: set<Path>, x: Path)
    ensures var r := Pruned(c, listed, observed);
      if x in listed && x !in observed then x !in r.entries.vals
      else Get(r, x) == Get(c, x) && Lookup(r.mtimes, x) == Lookup(c.mtimes, x)
  {
    if |listed| > 0 {
      assert listed == listed[..|listed| - 1] + [listed[|listed| - 1]];
      PrunedAt(c, listed[..|listed| - 1], observed, x);
    }
  }

  /** The reconciled cache at one path: nothing unobserved survives, and an observed path is as visited. */
  lemma ReconciledAt(extract: Extractor, vault: Vault, c: Cache, walk: seq<Path>, excluded: Path -> bool, x: Path)
    requires Walks(walk, vault) && Provenance(c)
    ensures var r := Reconciled(extract, vault, c, walk, excluded);
      if x in vault && !excluded(x) then
        Get(r, x) == Get(Visit(extract, vault, c, x), x)
        && Lookup(r.mtimes, x) == Lookup(Visit(extract, vault, c, x).mtimes, x)
      else x !in r.entries.vals && x !in r.mtimes
  {
    ReconciledProvenance(extract, vault, c, walk, excluded);
    var walked := Walked(extract, vault, c, walk, excluded);
    WalkedProvenance(extract, vault, c, walk, excluded);
    WalkedAt(extract, vault, c, walk, excluded, x);
    PrunedAt(walked, walked.entries.keys, Observed(walk, excluded), x);
  }

  /** A file that the extractor answers with nothing, or whose recorded mtime is the file's, keeps the entry and the
      mtime it had; any other gets the answer, with its own source and mtime. */
  lemma ColdStartTakesWhatExtracts(extract: Extractor, vault: Vault, c: Cache, walk: seq<Path>, excluded: Path -> bool,
                                   p: Path)
    requires Walks(walk, vault) && Provenance(c) && p in vault && !excluded(p)
    ensures var r, answer := Reconciled(extract, vault, c, walk, excluded), extract(p, vault[p].content);
      && (answer.None? || Lookup(c.mtimes, p) == Some(vault[p].mtime) ==> SameAt(r, c, p))
      && (answer.Some? && Lookup(c.mtimes, p) != Some(vault[p].mtime) ==>
            && p in r.entries.vals && Lookup(r.mtimes, p) == Some(vault[p].mtime)
            && Sourced(p, r.entries.vals[p]) && SameItems(r.entries.vals[p], answer.value))
  {
    ReconciledAt(extract, vault, c, walk, excluded, p);
  }

  /** A cached result that cold start would trust is the extraction of the file it stands for. */
  ghost predicate TrustedAt(extract: Extractor, vault: Vault, c: Cache, x: Path) {
    x in vault && Lookup(c.mtimes, x) == Some(vault[x].mtime) && ExtractionOf(extract, vault, x).Some? ==>
      Get(c, x) == ExtractionOf(extract, vault, x)
  }

  ghost predicate TrustedEntriesAreRight(extract: Extractor, vault: Vault, c: Cache, excluded: Path -> bool) {
    forall x :: !excluded(x) ==> TrustedAt(extract, vault, c, x)
  }

  /** Cold start from a cache agrees with cold start from nothing on every file that extracts. */
  ghost predicate AgreesWithFullRebuild(extract: Extractor, vault: Vault, c: Cache, walk: seq<Path>,
                                        excluded: Path -> bool)
    requires Walks(walk, vault)
  {
    forall x :: x in vault && !excluded(x) && ExtractionOf(extract, vault, x).Some? ==>
      Get(Reconciled(extract, vault, c, walk, excluded), x) ==
      Get(Reconciled(extract, vault, EmptyCache(), walk, excluded), x)
  }

  /** Skipping files by mtime is a sound speed-up exactly when the entries it trusts are right. */
  lemma ColdStartIsASoundSpeedUp(extract: Extractor, vault: Vault, c: Cache, walk: seq<Path>, excluded: Path -> bool)
    requires Walks(walk, vault) && Provenance(c)
    ensures AgreesWithFullRebuild(extract, vault, c, walk, excluded) <==>
            TrustedEntriesAreRight(extract, vault, c, excluded)
    ensures forall x :: x in Reconciled(extract, vault, c, walk, excluded).entries.vals ==> x in vault && !excluded(x)
  {
    forall x
      ensures x in Reconciled(extract, vault, c, walk, excluded).entries.vals ==> x in vault && !excluded(x)
      ensures x in vault && !excluded(x) ==>
        && Get(Reconciled(extract, vault, c, walk, excluded), x) == Get(Visit(extract, vault, c, x), x)
        && Get(Reconciled(extract, vault, EmptyCache(), walk, excluded), x) == ExtractionOf(extract, vault, x)
    {
      ReconciledAt(extract, vault, c, walk, excluded, x);
      ReconciledAt(extract, vault, EmptyCache(), walk, excluded, x);
    }
  }

  /** Nothing is extracted and nothing changes on a restart exactly when every observed file has its current
      mtime recorded and every entry is an observed file. */
  lemma RestartChangesNothing(extract: Extractor, vault: Vault, c: Cache, walk: seq<Path>, excluded: Path -> bool)
    requires Walks(walk, vault) && Provenance(c)
    ensures (Stale(vault, c, walk, excluded) == {} && Reconciled(extract, vault, c, walk, excluded) == c) <==>
            && (forall x :: x in vault && !excluded(x) ==> Lookup(c.mtimes, x) == Some(vault[x].mtime))
            && (forall x :: x in c.entries.vals ==> x in vault && !excluded(x))
  {
    if && (forall x :: x in vault && !excluded(x) ==> Lookup(c.mtimes, x) == Some(vault[x].mtime))
       && (forall x :: x in c.entries.vals ==> x in vault && !excluded(x))
    {
      WalkSkipsAll(extract, vault, c, walk, excluded);
      PruneKeepsAll(c, c.entries.keys, Observed(walk, excluded));
    }
    forall x | x in vault && !excluded(x) && Lookup(c.mtimes, x) != Some(vault[x].mtime)
      ensures x in Stale(vault, c, walk, excluded)
    {
    }
    forall x | x in c.entries.vals && !(x in vault && !excluded(x))
      ensures x !in Reconciled(extract, vault, c, walk, excluded).entries.vals
    {
      ReconciledAt(extract, vault, c, walk, excluded, x);
    }
  }

  lemma {:induction false} WalkSkipsAll(extract: Extractor, vault: Vault, c: Cache, walk: seq<Path>,
                                        excluded: Path -> bool)
    requires forall p :: p in walk ==> p in vault && (!excluded(p) ==> Lookup(c.mtimes, p) == Some(vault[p].mtime))
    ensures Walked(extract, vault, c, walk, excluded) == c
  {
    if |walk| > 0 {
      WalkSkipsAll(extract, vault, c, walk[..|walk| - 1], excluded);
    }
  }

  lemma {:induction false} PruneKeepsAll(c: Cache, listed: seq<Path>, observed: set<Path>)
    requires forall p :: p in listed ==> p in observed
    ensures Pruned(c, listed, observed) == c
  {
    if |listed| > 0 {
      PruneKeepsAll(c, listed[..|listed| - 1], observed);
    }
  }
}
