/** What a restart can trust. src/graphify_daemon/vault_compiler/extraction.py reads a file and afterwards its
    mtime; src/graphify_daemon/artifact_lifecycle/cold_start.py believes an entry whose mtime is the file's. */
module Restarts {
  import opened Collections
  import opened Batching
  import opened Extraction
  import opened ColdStart
  import opened Consistency
  import opened ConsistencyRuns

  /** The content that a path had when it showed an mtime. */
  type Contents = (Path, Mtime) -> Content

  ghost predicate NamedAt(contents: Contents, vault: Vault, x: Path) {
    x in vault ==> contents(x, vault[x].mtime) == vault[x].content
  }

  /** At no two moments of the run does `x` show one mtime with two contents. Other paths may share its mtimes. */
  ghost predicate AlwaysNamed(extract: Extractor, excluded: Path -> bool, contents: Contents, w0: World,
                              moves: seq<Move>, x: Path)
  {
    && NamedAt(contents, After(extract, excluded, w0, moves).vault, x)
    && (|moves| > 0 ==> AlwaysNamed(extract, excluded, contents, w0, moves[..|moves| - 1], x))
  }

  /** The entry at `x` is the extraction of the content that its mtime names. */
  ghost predicate StampedAt(extract: Extractor, contents: Contents, c: Cache, x: Path) {
    x in c.mtimes ==> Get(c, x) == Isolated(extract, x, Some(contents(x, c.mtimes[x])))
  }

  /** The entry at `x` is from a compile that found, at its `stat`, a file that no longer gives what was read. */
  ghost predicate Torn(extract: Extractor, excluded: Path -> bool, w0: World, moves: seq<Move>, x: Path) {
    |moves| > 0 &&
    var init, last := moves[..|moves| - 1], moves[|moves| - 1];
    var w := After(extract, excluded, w0, init);
    if last.Finish? && WorkingAt(w, x) && w.working.value.result.Some? then
      w.working.value.result != ExtractionOf(extract, w.vault, x)
    else
      !Absent(After(extract, excluded, w0, moves).cache, x) && Torn(extract, excluded, w0, init, x)
  }

  lemma StampStep(extract: Extractor, excluded: Path -> bool, contents: Contents, w: World, move: Move, x: Path)
    requires NamedAt(contents, w.vault, x) && OnlyObserved(excluded, w)
    requires StampedAt(extract, contents, w.cache, x)
    requires move.Finish? && WorkingAt(w, x) && w.working.value.result.Some? ==>
               w.working.value.result == ExtractionOf(extract, w.vault, x)
    ensures StampedAt(extract, contents, Next(extract, excluded, w, move).cache, x)
  {
  }

  lemma StampAgain(extract: Extractor, excluded: Path -> bool, contents: Contents, w: World, x: Path)
    requires NamedAt(contents, w.vault, x)
    requires WorkingAt(w, x) && w.working.value.result.Some?
    requires w.working.value.result == ExtractionOf(extract, w.vault, x)
    ensures StampedAt(extract, contents, Next(extract, excluded, w, Finish).cache, x)
  {
  }

  /** Entries that are not torn keep an mtime that names what they were extracted from. */
  lemma {:induction false} UntornEntriesAreStamped(extract: Extractor, excluded: Path -> bool, contents: Contents,
                                                   w0: World, moves: seq<Move>, x: Path)
    requires Idle(excluded, w0) && AlwaysNamed(extract, excluded, contents, w0, moves, x)
    requires StampedAt(extract, contents, w0.cache, x)
    ensures !Torn(extract, excluded, w0, moves, x) ==>
              StampedAt(extract, contents, After(extract, excluded, w0, moves).cache, x)
  {
    if |moves| > 0 && !Torn(extract, excluded, w0, moves, x) {
      var init, last := moves[..|moves| - 1], moves[|moves| - 1];
      var w := After(extract, excluded, w0, init);
      RunKeepsWorldInv(extract, excluded, w0, init);
      if last.Finish? && WorkingAt(w, x) && w.working.value.result.Some? {
        StampAgain(extract, excluded, contents, w, x);
      } else if !Absent(After(extract, excluded, w0, moves).cache, x) {
        UntornEntriesAreStamped(extract, excluded, contents, w0, init, x);
        StampStep(extract, excluded, contents, w, last, x);
      }
    }
  }

  /** A stamped entry that cold start would trust is right, whenever cold start may come. */
  lemma StampedIsTrusted(extract: Extractor, contents: Contents, vault: Vault, c: Cache, x: Path)
    requires NamedAt(contents, vault, x) && StampedAt(extract, contents, c, x)
    ensures TrustedAt(extract, vault, c, x)
  {
  }

  /** And cold start keeps every entry stamped, so this carries over from one daemon to the next. */
  lemma ColdStartKeepsStamps(extract: Extractor, excluded: Path -> bool, contents: Contents, vault: Vault, c: Cache,
                             walk: seq<Path>, x: Path)
    requires Walks(walk, vault) && Provenance(c) && NamedAt(contents, vault, x) && StampedAt(extract, contents, c, x)
    ensures StampedAt(extract, contents, Reconciled(extract, vault, c, walk, excluded), x)
  {
    ReconciledAt(extract, vault, c, walk, excluded, x);
  }

  /** Stop the daemon at any moment of any run, with changes uncompiled or missed. At an observed path that never
      shows one mtime with two contents, a restart trusts a wrong entry only if that entry is torn and a change that
      touches the path is waiting, in work or dropped. */
  lemma {:induction false} OnlyTornEntriesMislead(extract: Extractor, excluded: Path -> bool, contents: Contents,
                                                  w0: World, moves: seq<Move>, x: Path)
    requires Idle(excluded, w0) && AlwaysNamed(extract, excluded, contents, w0, moves, x)
    requires StampedAt(extract, contents, w0.cache, x) && !excluded(x)
    ensures var w := After(extract, excluded, w0, moves);
      TrustedAt(extract, w.vault, w.cache, x) ||
      (Torn(extract, excluded, w0, moves, x) &&
       (Waits(w, x, excluded) || WorkingAt(w, x) || Dropped(w, x, excluded)))
  {
    var w := After(extract, excluded, w0, moves);
    UntornEntriesAreStamped(extract, excluded, contents, w0, moves, x);
    if !Torn(extract, excluded, w0, moves, x) {
      StampedIsTrusted(extract, contents, w.vault, w.cache, x);
    } else if !Waits(w, x, excluded) && !WorkingAt(w, x) && !Dropped(w, x, excluded) {
      StartedNamed(extract, excluded, contents, w0, moves, x);
      RunKeepsWorldInv(extract, excluded, w0, moves);
      StampedIsTrusted(extract, contents, w0.vault, w0.cache, x);
      SettledIsTrusted(extract, excluded, w0, w, x);
    }
  }

  lemma {:induction false} StartedNamed(extract: Extractor, excluded: Path -> bool, contents: Contents, w0: World,
                                        moves: seq<Move>, x: Path)
    requires AlwaysNamed(extract, excluded, contents, w0, moves, x)
    ensures NamedAt(contents, w0.vault, x)
  {
    if |moves| > 0 {
      StartedNamed(extract, excluded, contents, w0, moves[..|moves| - 1], x);
    }
  }

  lemma SettledIsTrusted(extract: Extractor, excluded: Path -> bool, w0: World, w: World, x: Path)
    requires PathInv(extract, excluded, w0, w, x) && !Waits(w, x, excluded) && !WorkingAt(w, x)
    requires !Dropped(w, x, excluded) && TrustedAt(extract, w0.vault, w0.cache, x)
    ensures TrustedAt(extract, w.vault, w.cache, x)
  {
    if LastEffect(w.begun, x, excluded).Untouched? {
      assert ExtractionOf(extract, w.vault, x) == ExtractionOf(extract, w0.vault, x);
    }
  }

  /** A restart brings an observed file that extracts up to date exactly when it does not trust a wrong entry. */
  lemma RestartRecovers(extract: Extractor, excluded: Path -> bool, vault: Vault, c: Cache, walk: seq<Path>, x: Path)
    requires Walks(walk, vault) && Provenance(c) && !excluded(x) && ExtractionOf(extract, vault, x).Some?
    ensures Get(Reconciled(extract, vault, c, walk, excluded), x) == ExtractionOf(extract, vault, x) <==>
            TrustedAt(extract, vault, c, x)
  {
    ReconciledAt(extract, vault, c, walk, excluded, x);
  }

  /** An entry can be torn: a file is written, read, written again and then asked for its mtime. If the second
      change is never compiled, a restart trusts the first content under the second one's mtime. */
  lemma TornEntryMisleads(extract: Extractor, excluded: Path -> bool, p: Path, first: File, second: File)
    returns (w0: World, moves: seq<Move>)
    requires !excluded(p) && extract(p, first.content).Some? && extract(p, second.content).Some?
    requires Isolated(extract, p, Some(first.content)) != Isolated(extract, p, Some(second.content))
    ensures Started(extract, excluded, w0)
    ensures var w := After(extract, excluded, w0, moves);
      w.queue == [Modified(p)] && w.working.None? && !TrustedAt(extract, w.vault, w.cache, p)
  {
    w0 := World(map[], EmptyCache(), [], None, [], []);
    var now;
    moves, now := ReadOnce(extract, excluded, w0, p, first);
    moves, now := Extend(extract, excluded, w0, moves, now, Write(p, second));
    assert now.queue == [Modified(p)] && now.vault == map[p := second];
    moves, now := Extend(extract, excluded, w0, moves, now, Finish);
  }

  lemma ReadOnce(extract: Extractor, excluded: Path -> bool, w0: World, p: Path, file: File)
    returns (moves: seq<Move>, now: World)
    requires w0 == World(map[], EmptyCache(), [], None, [], []) && !excluded(p)
    ensures now == After(extract, excluded, w0, moves)
    ensures now.vault == map[p := file] && now.cache == EmptyCache() && now.queue == []
    ensures now.working == Some(Working(p, Isolated(extract, p, Some(file.content))))
  {
    moves, now := WrittenOnce(extract, excluded, w0, p, file);
    moves, now := Extend(extract, excluded, w0, moves, now, Begin(0));
  }

  /** And without any torn entry a path that shows one mtime with two contents can mislead: a file is moved over
      another one with the same mtime, and the change is not compiled. */
  lemma SharedMtimeMisleads(extract: Extractor, excluded: Path -> bool, p: Path, q: Path, moved: File, replaced: File)
    returns (w0: World, moves: seq<Move>)
    requires !excluded(p) && !excluded(q) && p != q && moved.mtime == replaced.mtime
    requires extract(p, moved.content).Some? && extract(q, replaced.content).Some? && extract(q, moved.content).Some?
    requires Isolated(extract, q, Some(moved.content)) != Isolated(extract, q, Some(replaced.content))
    ensures Started(extract, excluded, w0)
    ensures var w := After(extract, excluded, w0, moves);
      && w.queue == [Renamed(q, p)] && w.working.None?
      && !Torn(extract, excluded, w0, moves, q) && !TrustedAt(extract, w.vault, w.cache, q)
  {
    w0 := InStepWithBoth(extract, excluded, p, q, moved, replaced);
    moves := [Rename(p, q)];
    assert moves[..0] == [] && After(extract, excluded, w0, []) == w0;
  }

  lemma InStepWithBoth(extract: Extractor, excluded: Path -> bool, p: Path, q: Path, f: File, g: File)
    returns (w: World)
    requires !excluded(p) && !excluded(q) && p != q && extract(p, f.content).Some? && extract(q, g.content).Some?
    ensures Started(extract, excluded, w) && w.vault == map[p := f, q := g]
    ensures Get(w.cache, q) == Isolated(extract, q, Some(g.content)) && Lookup(w.cache.mtimes, q) == Some(g.mtime)
  {
    var vault := map[p := f, q := g];
    w := Opened(extract, excluded, vault, EmptyCache(), [p, q], vault);
    ColdStartStarts(extract, excluded, vault, EmptyCache(), [p, q]);
    assert InStep(extract, w.vault, w.cache, q);
  }
}
