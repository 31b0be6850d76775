/** When the cache has caught up with the vault: exactly, whatever the order in which changes were compiled. */
module ConsistencyRuns {
  import opened Collections
  import opened Batching
  import opened Extraction
  import opened ColdStart
  import opened VaultIndex
  import opened Consistency

  /** What decides a path that nothing is on its way to: untouched, it is as it started; compiled last for an
      installation, it is right; compiled last for a removal, it is right unless there is a file to extract. */
  ghost predicate CaughtUp(extract: Extractor, excluded: Path -> bool, w0: World, w: World, x: Path) {
    match LastEffect(w.begun, x, excluded)
    case Untouched => InStep(extract, w0.vault, w0.cache, x)
    case Install => true
    case Remove => ExtractionOf(extract, w.vault, x).None?
  }

  /** At every moment of every run, whatever it started from: an observed path that no waiting change touches and
      that is not in work is in step with the vault if and only if it has caught up. */
  lemma {:induction false} InStepExactlyWhenCaughtUp(extract: Extractor, excluded: Path -> bool, w0: World,
                                                     moves: seq<Move>, x: Path)
    requires Idle(excluded, w0) && !excluded(x)
    ensures var w := After(extract, excluded, w0, moves);
      Waits(w, x, excluded) || WorkingAt(w, x) || Dropped(w, x, excluded) ||
      (InStep(extract, w.vault, w.cache, x) <==> CaughtUp(extract, excluded, w0, w, x))
  {
    RunKeepsWorldInv(extract, excluded, w0, moves);
    var w := After(extract, excluded, w0, moves);
    if !Waits(w, x, excluded) && !WorkingAt(w, x) && !Dropped(w, x, excluded) {
      SettledPath(extract, excluded, w0, w, x);
    }
  }

  lemma SettledPath(extract: Extractor, excluded: Path -> bool, w0: World, w: World, x: Path)
    requires PathInv(extract, excluded, w0, w, x) && !Waits(w, x, excluded) && !WorkingAt(w, x)
    requires !Dropped(w, x, excluded)
    ensures InStep(extract, w.vault, w.cache, x) <==> CaughtUp(extract, excluded, w0, w, x)
  {
    if LastEffect(w.begun, x, excluded).Untouched? {
      assert ExtractionOf(extract, w.vault, x) == ExtractionOf(extract, w0.vault, x);
    } else if x !in w.vault {
      NoRemovalWaits(w.queue, x, excluded);
    }
  }

  lemma {:induction false} NoRemovalWaits(queue: Batch, x: Path, excluded: Path -> bool)
    requires LastEffect(queue, x, excluded).Untouched?
    ensures !RemovalWaits(queue, x, excluded)
  {
    if |queue| > 0 {
      NoRemovalWaits(queue[..|queue| - 1], x, excluded);
      assert forall i :: 0 <= i < |queue| - 1 ==> queue[..|queue| - 1][i] == queue[i];
    }
  }

  /** The daemon after cold start: nothing queued, and the cache in step with the vault. */
  ghost predicate Started(extract: Extractor, excluded: Path -> bool, w: World) {
    Idle(excluded, w) && forall x :: !excluded(x) ==> InStep(extract, w.vault, w.cache, x)
  }

  /** A file that is there and extracts, and whose last compiled change took it away. */
  ghost predicate Lost(extract: Extractor, excluded: Path -> bool, w: World, x: Path) {
    LastEffect(w.begun, x, excluded).Remove? && ExtractionOf(extract, w.vault, x).Some?
  }

  /** From a started daemon, a path that is settled is in step unless it is lost. */
  lemma {:induction false} InStepUnlessLost(extract: Extractor, excluded: Path -> bool, w0: World, moves: seq<Move>,
                                            x: Path)
    requires Started(extract, excluded, w0) && !excluded(x)
    ensures var w := After(extract, excluded, w0, moves);
      Waits(w, x, excluded) || WorkingAt(w, x) || Dropped(w, x, excluded) ||
      (InStep(extract, w.vault, w.cache, x) <==> !Lost(extract, excluded, w, x))
  {
    InStepExactlyWhenCaughtUp(extract, excluded, w0, moves, x);
  }

  ghost predicate Quiet(w: World) { w.queue == [] && w.working.None? }

  /** Once nothing is uncompiled, the cache holds at a path that is absent, or that extracts, what a cold start
      from nothing would make of the vault - exactly when the path is not lost. */
  lemma {:induction false} QuietCacheEqualsRebuild(extract: Extractor, excluded: Path -> bool, w0: World,
                                                   moves: seq<Move>, walk: seq<Path>, x: Path)
    requires Started(extract, excluded, w0)
    requires var w := After(extract, excluded, w0, moves); Quiet(w) && Walks(walk, w.vault)
    ensures var w := After(extract, excluded, w0, moves);
      excluded(x) || (!Dropped(w, x, excluded) && (x !in w.vault || ExtractionOf(extract, w.vault, x).Some?)) ==>
        (Get(w.cache, x) == Get(Reconciled(extract, w.vault, EmptyCache(), walk, excluded), x) <==>
         excluded(x) || !Lost(extract, excluded, w, x))
  {
    var w := After(extract, excluded, w0, moves);
    RunKeepsWorldInv(extract, excluded, w0, moves);
    ReconciledAt(extract, w.vault, EmptyCache(), walk, excluded, x);
    if !excluded(x) && !Dropped(w, x, excluded) {
      InStepUnlessLost(extract, excluded, w0, moves, x);
      LostIsAbsent(extract, excluded, w0, w, x);
    }
  }

  lemma LostIsAbsent(extract: Extractor, excluded: Path -> bool, w0: World, w: World, x: Path)
    requires WorldInv(extract, excluded, w0, w) && Quiet(w) && !excluded(x) && !Dropped(w, x, excluded)
    ensures Lost(extract, excluded, w, x) ==> Absent(w.cache, x)
  {
    assert PathInv(extract, excluded, w0, w, x);
  }

  /** And then, when every observed file extracts, a restart extracts nothing and changes nothing - exactly when
      no observed path is lost. */
  lemma {:induction false} QuietRestartChangesNothing(extract: Extractor, excluded: Path -> bool, w0: World,
                                                      moves: seq<Move>, walk: seq<Path>)
    requires Started(extract, excluded, w0)
    requires var w := After(extract, excluded, w0, moves);
      && Quiet(w) && Walks(walk, w.vault)
      && (forall x :: !excluded(x) ==> !Dropped(w, x, excluded))
      && (forall x :: x in w.vault && !excluded(x) ==> ExtractionOf(extract, w.vault, x).Some?)
    ensures var w := After(extract, excluded, w0, moves);
      Provenance(w.cache) &&
      ((Stale(w.vault, w.cache, walk, excluded) == {} &&
        Reconciled(extract, w.vault, w.cache, walk, excluded) == w.cache) <==>
       forall x :: !excluded(x) ==> !Lost(extract, excluded, w, x))
  {
    var w := After(extract, excluded, w0, moves);
    RunKeepsWorldInv(extract, excluded, w0, moves);
    forall x | !excluded(x)
      ensures InStep(extract, w.vault, w.cache, x) <==> !Lost(extract, excluded, w, x)
      ensures Lost(extract, excluded, w, x) ==> Absent(w.cache, x)
    {
      InStepUnlessLost(extract, excluded, w0, moves, x);
      LostIsAbsent(extract, excluded, w0, w, x);
    }
    InStepRestarts(extract, excluded, w, walk);
  }

  lemma {:induction false} InStepRestarts(extract: Extractor, excluded: Path -> bool, w: World, walk: seq<Path>)
    requires OnlyObserved(excluded, w) && Walks(walk, w.vault)
    requires forall x :: x in w.vault && !excluded(x) ==> ExtractionOf(extract, w.vault, x).Some?
    requires forall x :: !excluded(x) ==> (InStep(extract, w.vault, w.cache, x) <==> !Lost(extract, excluded, w, x))
    requires forall x :: !excluded(x) && Lost(extract, excluded, w, x) ==> Absent(w.cache, x)
    ensures (Stale(w.vault, w.cache, walk, excluded) == {} &&
             Reconciled(extract, w.vault, w.cache, walk, excluded) == w.cache) <==>
            forall x :: !excluded(x) ==> !Lost(extract, excluded, w, x)
  {
    RestartChangesNothing(extract, w.vault, w.cache, walk, excluded);
    forall x | !excluded(x) && Lost(extract, excluded, w, x)
      ensures x in w.vault && Lookup(w.cache.mtimes, x) != Some(w.vault[x].mtime)
    {
    }
  }

  /** A compile reaches a change only after every earlier change that touches one of its observed paths. */
  ghost predicate InOrder(w: World, move: Move, excluded: Path -> bool) {
    move.Begin? && move.index < |w.queue| ==>
      forall x :: !excluded(x) && !EffectOn(w.queue[move.index], x, excluded).Untouched? ==>
        LastEffect(w.queue[..move.index], x, excluded).Untouched?
  }

  ghost predicate Ordered(extract: Extractor, excluded: Path -> bool, w: World, moves: seq<Move>) {
    |moves| > 0 ==>
      && Ordered(extract, excluded, w, moves[..|moves| - 1])
      && InOrder(After(extract, excluded, w, moves[..|moves| - 1]), moves[|moves| - 1], excluded)
  }

  /** Taking changes in the order they arrived is in order. */
  lemma {:induction false} ArrivalOrderIsOrdered(extract: Extractor, excluded: Path -> bool, w: World, moves: seq<Move>)
    requires forall i :: 0 <= i < |moves| && moves[i].Begin? ==> moves[i].index == 0
    ensures Ordered(extract, excluded, w, moves)
  {
    if |moves| > 0 {
      ArrivalOrderIsOrdered(extract, excluded, w, moves[..|moves| - 1]);
    }
  }

  /** The last change that arrived for `x`, compiled or not, says whether the file is there. */
  ghost predicate Latest(excluded: Path -> bool, w: World, x: Path) {
    Dropped(w, x, excluded) ||
    match LastEffect(w.begun + w.queue, x, excluded)
    case Untouched => true
    case Install => x in w.vault
    case Remove => x !in w.vault
  }

  lemma LatestStep(extract: Extractor, excluded: Path -> bool, w: World, move: Move, x: Path)
    requires Latest(excluded, w, x) && InOrder(w, move, excluded) && !excluded(x)
    ensures Latest(excluded, Next(extract, excluded, w, move), x)
  {
    if move.Finish? {
    } else if move.GiveUp? {
      if w.working.Some? {
        Appended(w.dropped, Modified(w.working.value.path), x, excluded);
      }
    } else if move.Drop? {
      if move.index < |w.queue| {
        LatestDrop(excluded, w, move.index, x);
      }
    } else if !move.Begin? {
      LatestVault(extract, excluded, w, move, x);
    } else if w.working.None? && move.index < |w.queue| {
      LatestBegin(w.begun, w.queue, move.index, x, excluded);
    }
  }

  lemma LatestDrop(excluded: Path -> bool, w: World, i: nat, x: Path)
    requires i < |w.queue|
    ensures var rest := w.queue[..i] + w.queue[i + 1..];
      || !LastEffect(w.dropped + [w.queue[i]], x, excluded).Untouched?
      || LastEffect(w.begun + rest, x, excluded) == LastEffect(w.begun + w.queue, x, excluded)
  {
    Appended(w.dropped, w.queue[i], x, excluded);
    QueueWithout(w.queue, i, x, excluded);
    LastEffectConcat(w.begun, w.queue, x, excluded);
    LastEffectConcat(w.begun, w.queue[..i] + w.queue[i + 1..], x, excluded);
  }

  lemma {:induction false} LatestVault(extract: Extractor, excluded: Path -> bool, w: World, move: Move, x: Path)
    requires Latest(excluded, w, x) && ByVault(move) && !excluded(x)
    ensures Latest(excluded, Next(extract, excluded, w, move), x)
  {
    var w' := Next(extract, excluded, w, move);
    NotifiedRight(extract, excluded, w, move, x);
    if |w'.queue| > |w.queue| {
      var c := w'.queue[|w.queue|];
      assert w'.begun + w'.queue == (w.begun + w.queue) + [c];
      Appended(w.begun + w.queue, c, x, excluded);
    }
  }

  /** What the vault does at an observed path is what the change that is queued for it says. */
  lemma {:induction false} NotifiedRight(extract: Extractor, excluded: Path -> bool, w: World, move: Move, x: Path)
    requires ByVault(move) && !excluded(x)
    ensures var w' := Next(extract, excluded, w, move);
      && w'.begun == w.begun
      && if |w'.queue| > |w.queue| then
           && w'.queue == w.queue + [w'.queue[|w.queue|]]
           && var effect := EffectOn(w'.queue[|w.queue|], x, excluded);
           if effect.Untouched? then x in w'.vault <==> x in w.vault else effect.Install? <==> x in w'.vault
         else w'.queue == w.queue && (x in w'.vault <==> x in w.vault)
  {
  }

  lemma LatestBegin(begun: Batch, queue: Batch, i: nat, x: Path, excluded: Path -> bool)
    requires i < |queue|
    requires EffectOn(queue[i], x, excluded).Untouched? || LastEffect(queue[..i], x, excluded).Untouched?
    ensures LastEffect((begun + [queue[i]]) + (queue[..i] + queue[i + 1..]), x, excluded) ==
            LastEffect(begun + queue, x, excluded)
  {
    QueueWithout(queue, i, x, excluded);
    LastEffectConcat(begun, queue, x, excluded);
    LastEffectConcat(begun + [queue[i]], queue[..i] + queue[i + 1..], x, excluded);
    Appended(begun, queue[i], x, excluded);
  }

  lemma {:induction false} OrderedRunsAreLatest(extract: Extractor, excluded: Path -> bool, w0: World,
                                                moves: seq<Move>, x: Path)
    requires Idle(excluded, w0) && Ordered(extract, excluded, w0, moves) && !excluded(x)
    ensures Latest(excluded, After(extract, excluded, w0, moves), x)
  {
    if |moves| > 0 {
      var init := moves[..|moves| - 1];
      OrderedRunsAreLatest(extract, excluded, w0, init, x);
      LatestStep(extract, excluded, After(extract, excluded, w0, init), moves[|moves| - 1], x);
    }
  }

  /** Compiling the changes of each path in the order they arrived loses nothing, so at every moment an observed
      path is touched by a waiting change, or in work, or in step. */
  lemma {:induction false} OrderedRunsLoseNothing(extract: Extractor, excluded: Path -> bool, w0: World,
                                                  moves: seq<Move>, x: Path)
    requires Started(extract, excluded, w0) && Ordered(extract, excluded, w0, moves) && !excluded(x)
    ensures var w := After(extract, excluded, w0, moves);
      Waits(w, x, excluded) || WorkingAt(w, x) || Dropped(w, x, excluded) ||
      (!Lost(extract, excluded, w, x) && InStep(extract, w.vault, w.cache, x))
  {
    var w := After(extract, excluded, w0, moves);
    OrderedRunsAreLatest(extract, excluded, w0, moves, x);
    LastEffectConcat(w.begun, w.queue, x, excluded);
    InStepUnlessLost(extract, excluded, w0, moves, x);
  }

  /** The two moves that compile a change are one turn of `extract_batch`, whatever the vault does in between. */
  lemma BeginThenFinishIsExtractOne(extract: Extractor, excluded: Path -> bool, w: World, later: Vault, i: nat)
    requires w.working.None? && i < |w.queue|
    ensures var change := w.queue[i];
      var mtime := if change.path in later then Some(later[change.path].mtime) else None;
      var begun := Next(extract, excluded, w, Begin(i)).(vault := later);
      (if begun.working.Some? then Next(extract, excluded, begun, Finish) else begun).cache ==
      ExtractOne(w.cache, change, Reading(ExtractionOf(extract, w.vault, change.path), mtime), excluded)
  {
  }

  /** An event that reports no change of an observed file leaves all as it is: the watcher queues nothing for it. */
  lemma NoiseChangesNothing(extract: Extractor, excluded: Path -> bool, w: World, e: FsEvent)
    ensures Next(extract, excluded, w, Noise(e)) == w
  {
  }

  /** Compiling a change whose file is gone, or that the extractor answers with nothing, keeps the entry and the mtime
      that the file had, whatever the vault does between the two moves. */
  lemma NothingExtractedKeepsEntry(extract: Extractor, excluded: Path -> bool, w: World, later: Vault, i: nat)
    requires w.working.None? && i < |w.queue| && !w.queue[i].Deleted?
    requires w.queue[i].Renamed? ==> w.queue[i].previous != w.queue[i].path
    requires var p := w.queue[i].path; p in w.vault ==> extract(p, w.vault[p].content).None?
    ensures var begun := Next(extract, excluded, w, Begin(i)).(vault := later);
      SameAt(Next(extract, excluded, begun, Finish).cache, w.cache, w.queue[i].path)
  {
  }

  lemma Extend(extract: Extractor, excluded: Path -> bool, w: World, moves: seq<Move>, now: World, move: Move)
    returns (moves': seq<Move>, now': World)
    requires now == After(extract, excluded, w, moves)
    ensures now' == After(extract, excluded, w, moves') && now' == Next(extract, excluded, now, move)
  {
    moves', now' := moves + [move], Next(extract, excluded, now, move);
    assert moves'[..|moves|] == moves;
  }

  /** A path can be lost: a file is erased and written again, and the two changes are compiled the other way
      round. Nothing is left to compile, and the file is missing from the cache. */
  lemma OutOfOrderLosesAFile(extract: Extractor, excluded: Path -> bool, p: Path, file: File)
    returns (w0: World, moves: seq<Move>)
    requires !excluded(p) && extract(p, file.content).Some?
    ensures Started(extract, excluded, w0)
    ensures var w := After(extract, excluded, w0, moves);
      Quiet(w) && Lost(extract, excluded, w, p) && p !in w.cache.entries.vals
  {
    var now;
    w0, moves, now := Rewritten(extract, excluded, p, file);
    moves, now := Extend(extract, excluded, w0, moves, now, Begin(1));
    assert now.queue == [Deleted(p)] && now.begun == [Created(p)];
    moves, now := Extend(extract, excluded, w0, moves, now, Finish);
    assert now.vault == map[p := file] && now.queue == [Deleted(p)] && now.begun == [Created(p)];
    moves, now := Extend(extract, excluded, w0, moves, now, Begin(0));
    assert now.begun == [Created(p), Deleted(p)];
  }

  lemma Rewritten(extract: Extractor, excluded: Path -> bool, p: Path, file: File)
    returns (w0: World, moves: seq<Move>, now: World)
    requires !excluded(p) && extract(p, file.content).Some?
    ensures Started(extract, excluded, w0) && now == After(extract, excluded, w0, moves)
    ensures now.vault == map[p := file] && now.queue == [Deleted(p), Created(p)]
    ensures now.working.None? && now.begun == []
  {
    w0 := InStepWith(extract, excluded, p, file);
    moves, now := [], w0;
    moves, now := Extend(extract, excluded, w0, moves, now, Erase(p));
    assert now.queue == [Deleted(p)];
    moves, now := Extend(extract, excluded, w0, moves, now, Write(p, file));
  }

  lemma InStepWith(extract: Extractor, excluded: Path -> bool, p: Path, file: File) returns (w: World)
    requires !excluded(p) && extract(p, file.content).Some?
    ensures Started(extract, excluded, w) && w.vault == map[p := file] && p in w.cache.entries.vals
  {
    var r := Stamped(extract(p, file.content).value, p);
    w := World(map[p := file], SetEntry(EmptyCache(), p, r, Some(file.mtime)), [], None, [], []);
  }

  /** The daemon as the observer starts. Cold start saw `walked`; what changed since then raised no event. */
  function Opened(extract: Extractor, excluded: Path -> bool, walked: Vault, loaded: Cache, walk: seq<Path>,
                  vault: Vault): World
    requires Walks(walk, walked)
  {
    World(vault, Reconciled(extract, walked, loaded, walk, excluded), [], None, [], [])
  }

  /** A cold start brings the daemon in step, from nothing or from any cache whose trusted entries are right, when
      nothing changes before the observer starts. */
  lemma {:induction false} ColdStartStarts(extract: Extractor, excluded: Path -> bool, vault: Vault, loaded: Cache,
                                           walk: seq<Path>)
    requires Walks(walk, vault) && Provenance(loaded) && TrustedEntriesAreRight(extract, vault, loaded, excluded)
    ensures Started(extract, excluded, Opened(extract, excluded, vault, loaded, walk, vault))
  {
    OpenedIsIdle(extract, excluded, vault, loaded, walk, vault);
    forall x | !excluded(x)
      ensures InStep(extract, vault, Reconciled(extract, vault, loaded, walk, excluded), x)
    {
      ReconciledAt(extract, vault, loaded, walk, excluded, x);
    }
  }

  lemma OpenedIsIdle(extract: Extractor, excluded: Path -> bool, walked: Vault, loaded: Cache, walk: seq<Path>,
                     vault: Vault)
    requires Walks(walk, walked) && Provenance(loaded)
    ensures Idle(excluded, Opened(extract, excluded, walked, loaded, walk, vault))
  {
    ReconciledProvenance(extract, walked, loaded, walk, excluded);
    forall x | x in Reconciled(extract, walked, loaded, walk, excluded).entries.vals
      ensures !excluded(x)
    {
      ReconciledAt(extract, walked, loaded, walk, excluded, x);
    }
  }

  /** What cold start saw of `x` is what is there when the observer starts, as far as extraction can tell; a file
      that it could not extract kept the entry it had. */
  ghost predicate SeenAsItIs(extract: Extractor, walked: Vault, loaded: Cache, vault: Vault, x: Path) {
    if x in walked && ExtractionOf(extract, walked, x).None? then InStep(extract, vault, loaded, x)
    else if x !in vault then x !in walked
    else ExtractionOf(extract, vault, x).Some? ==>
           && x in walked && walked[x].mtime == vault[x].mtime
           && ExtractionOf(extract, walked, x) == ExtractionOf(extract, vault, x)
  }

  /** A change between the walk and the start of the observer is never caught up by itself: until a change to the
      same path is compiled, the path is in step exactly when cold start saw it as it is. */
  lemma {:induction false} UnwatchedChangeStays(extract: Extractor, excluded: Path -> bool, walked: Vault,
                                                loaded: Cache, walk: seq<Path>, vault: Vault, moves: seq<Move>, x: Path)
    requires Walks(walk, walked) && Provenance(loaded)
    requires TrustedEntriesAreRight(extract, walked, loaded, excluded)
    requires !excluded(x)
    requires var w := After(extract, excluded, Opened(extract, excluded, walked, loaded, walk, vault), moves);
      !Waits(w, x, excluded) && !Dropped(w, x, excluded) && LastEffect(w.begun, x, excluded).Untouched?
    ensures var w := After(extract, excluded, Opened(extract, excluded, walked, loaded, walk, vault), moves);
      InStep(extract, w.vault, w.cache, x) <==> SeenAsItIs(extract, walked, loaded, vault, x)
  {
    var w0 := Opened(extract, excluded, walked, loaded, walk, vault);
    OpenedIsIdle(extract, excluded, walked, loaded, walk, vault);
    RunKeepsWorldInv(extract, excluded, w0, moves);
    var w := After(extract, excluded, w0, moves);
    assert PathInv(extract, excluded, w0, w, x);
    SettledPath(extract, excluded, w0, w, x);
    SeenWhenOpened(extract, excluded, walked, loaded, walk, vault, x);
  }

  lemma SeenWhenOpened(extract: Extractor, excluded: Path -> bool, walked: Vault, loaded: Cache, walk: seq<Path>,
                       vault: Vault, x: Path)
    requires Walks(walk, walked) && Provenance(loaded) && !excluded(x)
    requires TrustedEntriesAreRight(extract, walked, loaded, excluded)
    ensures InStep(extract, vault, Reconciled(extract, walked, loaded, walk, excluded), x) <==>
            SeenAsItIs(extract, walked, loaded, vault, x)
  {
    ReconciledAt(extract, walked, loaded, walk, excluded, x);
    assert TrustedAt(extract, walked, loaded, x);
  }

  /** A file written in that window is lost: nothing waits, and the cache is out of step. */
  lemma UnwatchedWriteIsMissed(extract: Extractor, excluded: Path -> bool, walked: Vault, walk: seq<Path>, p: Path,
                               file: File)
    requires Walks(walk, walked) && !excluded(p) && extract(p, file.content).Some?
    requires p in walked ==> walked[p].mtime != file.mtime
    ensures var w := Opened(extract, excluded, walked, EmptyCache(), walk, walked[p := file]);
      Idle(excluded, w) && Quiet(w) && !InStep(extract, w.vault, w.cache, p)
  {
    OpenedIsIdle(extract, excluded, walked, EmptyCache(), walk, walked[p := file]);
    ReconciledAt(extract, walked, EmptyCache(), walk, excluded, p);
  }

  lemma WrittenOnce(extract: Extractor, excluded: Path -> bool, w0: World, p: Path, file: File)
    returns (moves: seq<Move>, now: World)
    requires w0 == World(map[], EmptyCache(), [], None, [], []) && !excluded(p)
    ensures now == After(extract, excluded, w0, moves)
    ensures now == w0.(vault := map[p := file], queue := [Created(p)])
  {
    moves, now := [], w0;
    moves, now := Extend(extract, excluded, w0, moves, now, Write(p, file));
  }

  /** A change that an exception drops is lost: a file is written and its change dropped. Nothing is left to compile,
      no removal was compiled, and the cache is out of step. */
  lemma DroppedChangeIsMissed(extract: Extractor, excluded: Path -> bool, p: Path, file: File)
    returns (w0: World, moves: seq<Move>)
    requires !excluded(p) && extract(p, file.content).Some?
    ensures Started(extract, excluded, w0)
    ensures var w := After(extract, excluded, w0, moves);
      && Quiet(w) && Dropped(w, p, excluded) && !Lost(extract, excluded, w, p)
      && !InStep(extract, w.vault, w.cache, p)
  {
    w0 := World(map[], EmptyCache(), [], None, [], []);
    var now;
    moves, now := WrittenOnce(extract, excluded, w0, p, file);
    moves, now := Extend(extract, excluded, w0, moves, now, Drop(0));
    assert now.dropped == [Created(p)] && now.queue == [];
  }
}
