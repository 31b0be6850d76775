/** The cache catches up with the vault: file changes interleaved with the compilation of earlier ones.

    src/graphify_daemon/vault_compiler/extraction.py reads a file and then its mtime, and the vault may change
    before, between and after; src/graphify_daemon/vault_compiler/batching.py queues one change for each file
    event. Every path is taken to resolve inside the vault. Waiting changes may be compiled in any order, and an
    exception may drop the one in work and any that wait. */
module Consistency {
  import opened Collections
  import opened Batching
  import opened Extraction
  import opened ColdStart
  import opened VaultIndex

  /** A change between the extraction of its file and the `stat` that follows. */
  datatype Working = Working(path: Path, result: Option<Result>)

  /** `queue` holds the accepted changes that no compile has reached, in arrival order. `begun` is history: the
      changes that a compile has reached, in the order it did; and so is `dropped`: those that an exception has
      made it give up. */
  datatype World = World(
    vault: Vault,
    cache: Cache,
    queue: Batch,
    working: Option<Working>,
    begun: Batch,
    dropped: Batch)

  datatype Move =
    | Write(path: Path, file: File)
    | Erase(path: Path)
    | Rename(path: Path, target: Path)
    | Noise(event: FsEvent)
    | Begin(index: nat)
    | Finish
    | GiveUp
    | Drop(index: nat)

  /** An event that reports no change of an observed file: about a directory, of a type that changes nothing, as when a
      file is opened, or in an excluded place. */
  predicate ReportsNothing(e: FsEvent, excluded: Path -> bool) {
    || e.isDirectory
    || e.eventType !in {"created", "modified", "deleted", "moved"}
    || (e.eventType != "moved" && excluded(e.src))
  }

  function Notify(w: World, e: FsEvent, excluded: Path -> bool): Batch {
    match OnAnyEvent(e, excluded, p => true)
    case None => w.queue
    case Some(change) => w.queue + [change]
  }

  function Next(extract: Extractor, excluded: Path -> bool, w: World, move: Move): World {
    match move
    case Write(p, file) =>
      w.(vault := w.vault[p := file],
         queue := Notify(w, FsEvent(false, if p in w.vault then "modified" else "created", p, ""), excluded))
    case Erase(p) =>
      if p !in w.vault then w
      else w.(vault := w.vault - {p}, queue := Notify(w, FsEvent(false, "deleted", p, ""), excluded))
    case Rename(p, target) =>
      if p !in w.vault then w
      else w.(vault := (w.vault - {p})[target := w.vault[p]],
              queue := Notify(w, FsEvent(false, "moved", p, target), excluded))
    case Noise(e) => if ReportsNothing(e, excluded) then w.(queue := Notify(w, e, excluded)) else w
    case Begin(i) =>
      if w.working.Some? || i >= |w.queue| then w
      else
        var change := w.queue[i];
        w.(cache := RemovedBy(w.cache, change),
           queue := w.queue[..i] + w.queue[i + 1..],
           begun := w.begun + [change],
           working := if Extracts(change, excluded)
                      then Some(Working(change.path, ExtractionOf(extract, w.vault, change.path))) else None)
    case Finish =>
      if w.working.None? then w
      else
        var Working(p, result) := w.working.value;
        w.(working := None,
           cache := if result.None? then w.cache
                    else SetEntry(w.cache, p, result.value, if p in w.vault then Some(w.vault[p].mtime) else None))
    case GiveUp =>
      if w.working.None? then w
      else w.(working := None, dropped := w.dropped + [Modified(w.working.value.path)])
    case Drop(i) =>
      if i >= |w.queue| then w
      else w.(queue := w.queue[..i] + w.queue[i + 1..], dropped := w.dropped + [w.queue[i]])
  }

  function After(extract: Extractor, excluded: Path -> bool, w: World, moves: seq<Move>): World {
    if |moves| == 0 then w
    else Next(extract, excluded, After(extract, excluded, w, moves[..|moves| - 1]), moves[|moves| - 1])
  }

  /** The moves that the watcher hears of. */
  predicate ByVault(move: Move) { move.Write? || move.Erase? || move.Rename? || move.Noise? }

  /** The cache holds at `x` what a full rebuild would put there, with the file's mtime; a file that does not
      extract keeps whatever entry it has. */
  ghost predicate InStep(extract: Extractor, vault: Vault, c: Cache, x: Path) {
    if x !in vault then x !in c.entries.vals && x !in c.mtimes
    else ExtractionOf(extract, vault, x).Some? ==>
           Get(c, x) == ExtractionOf(extract, vault, x) && Lookup(c.mtimes, x) == Some(vault[x].mtime)
  }

  ghost predicate OnlyObserved(excluded: Path -> bool, w: World) {
    && Provenance(w.cache)
    && (w.working.Some? && w.working.value.result.Some? ==> Sourced(w.working.value.path, w.working.value.result.value))
    && (forall k :: k in w.cache.entries.vals ==> !excluded(k))
    && (w.working.Some? ==> !excluded(w.working.value.path))
    && (forall i :: 0 <= i < |w.queue| && !w.queue[i].Renamed? ==> !excluded(w.queue[i].path))
  }

  /** Nothing waits, and nothing has been compiled yet; the cache may be in step with the vault or not. */
  ghost predicate Idle(excluded: Path -> bool, w: World) {
    w.queue == [] && w.begun == [] && w.dropped == [] && w.working.None? && OnlyObserved(excluded, w)
  }

  predicate WorkingAt(w: World, x: Path) { w.working.Some? && w.working.value.path == x }

  ghost predicate Waits(w: World, x: Path, excluded: Path -> bool) {
    !LastEffect(w.queue, x, excluded).Untouched?
  }

  /** An exception made a compile give up a change that touches `x`. */
  ghost predicate Dropped(w: World, x: Path, excluded: Path -> bool) {
    !LastEffect(w.dropped, x, excluded).Untouched?
  }

  ghost predicate RemovalWaits(queue: Batch, x: Path, excluded: Path -> bool) {
    exists i :: 0 <= i < |queue| && EffectOn(queue[i], x, excluded).Remove?
  }

  ghost predicate Absent(c: Cache, x: Path) { x !in c.entries.vals && x !in c.mtimes }

  /** Where an observed path stands that no dropped change touches. One that is gone has a removal to come, or has
      left the cache; one that is there and that no waiting change touches is as the last change compiled for it left
      it. */
  ghost predicate PathInv(extract: Extractor, excluded: Path -> bool, w0: World, w: World, x: Path) {
    var compiled := LastEffect(w.begun, x, excluded);
    if Dropped(w, x, excluded) then true
    else if compiled.Untouched? && !Waits(w, x, excluded) then
      Lookup(w.vault, x) == Lookup(w0.vault, x) && SameAt(w.cache, w0.cache, x) && !WorkingAt(w, x)
    else if x !in w.vault then
      || RemovalWaits(w.queue, x, excluded)
      || (Absent(w.cache, x) && (WorkingAt(w, x) ==> w.working.value.result.None?))
    else if Waits(w, x, excluded) then true
    else if compiled.Remove? then Absent(w.cache, x) && !WorkingAt(w, x)
    else if WorkingAt(w, x) then
      ExtractionOf(extract, w.vault, x).Some? ==> w.working.value.result == ExtractionOf(extract, w.vault, x)
    else InStep(extract, w.vault, w.cache, x)
  }

  ghost predicate WorldInv(extract: Extractor, excluded: Path -> bool, w0: World, w: World) {
    OnlyObserved(excluded, w) && forall x :: !excluded(x) ==> PathInv(extract, excluded, w0, w, x)
  }

  lemma Appended(queue: Batch, c: FileChange, x: Path, excluded: Path -> bool)
    ensures LastEffect(queue + [c], x, excluded) ==
            if EffectOn(c, x, excluded).Untouched? then LastEffect(queue, x, excluded) else EffectOn(c, x, excluded)
  {
    assert (queue + [c])[..|queue|] == queue;
  }

  lemma RemovalStillWaits(queue: Batch, i: nat, x: Path, excluded: Path -> bool)
    requires i < |queue| && RemovalWaits(queue, x, excluded) && !EffectOn(queue[i], x, excluded).Remove?
    ensures RemovalWaits(queue[..i] + queue[i + 1..], x, excluded)
  {
    var j :| 0 <= j < |queue| && EffectOn(queue[j], x, excluded).Remove?;
    var rest := queue[..i] + queue[i + 1..];
    assert rest[if j < i then j else j - 1] == queue[j];
  }

  /** A path that the vault did not change, and that no new change touches, stays where it stood. */
  lemma PathKept(extract: Extractor, excluded: Path -> bool, w0: World, w: World, w': World, x: Path)
    requires PathInv(extract, excluded, w0, w, x)
    requires w'.cache == w.cache && w'.working == w.working && w'.begun == w.begun && w'.dropped == w.dropped
    requires Lookup(w'.vault, x) == Lookup(w.vault, x) && w.queue <= w'.queue
    requires LastEffect(w'.queue, x, excluded) == LastEffect(w.queue, x, excluded)
    ensures PathInv(extract, excluded, w0, w', x)
  {
    assert ExtractionOf(extract, w'.vault, x) == ExtractionOf(extract, w.vault, x);
    if RemovalWaits(w.queue, x, excluded) {
      var i :| 0 <= i < |w.queue| && EffectOn(w.queue[i], x, excluded).Remove?;
      assert w'.queue[i] == w.queue[i];
    }
  }

  lemma VaultMove(extract: Extractor, excluded: Path -> bool, w0: World, w: World, move: Move, x: Path)
    requires PathInv(extract, excluded, w0, w, x) && ByVault(move) && !excluded(x)
    ensures PathInv(extract, excluded, w0, Next(extract, excluded, w, move), x)
  {
    var w' := Next(extract, excluded, w, move);
    if |w'.queue| > |w.queue| {
      var c := w'.queue[|w.queue|];
      assert w'.queue == w.queue + [c];
      Appended(w.queue, c, x, excluded);
      if EffectOn(c, x, excluded).Untouched? {
        PathKept(extract, excluded, w0, w, w', x);
      } else if x !in w'.vault {
        assert EffectOn(w'.queue[|w.queue|], x, excluded).Remove?;
      }
    } else if w' != w {
      PathKept(extract, excluded, w0, w, w', x);
    }
  }

  lemma QueueWithout(queue: Batch, i: nat, x: Path, excluded: Path -> bool)
    requires i < |queue|
    ensures var rest := LastEffect(queue[i + 1..], x, excluded);
      var own := EffectOn(queue[i], x, excluded);
      && LastEffect(queue[..i] + queue[i + 1..], x, excluded) ==
         (if rest.Untouched? then LastEffect(queue[..i], x, excluded) else rest)
      && LastEffect(queue, x, excluded) ==
         (if !rest.Untouched? then rest else if !own.Untouched? then own else LastEffect(queue[..i], x, excluded))
  {
    LastEffectConcat(queue[..i], queue[i + 1..], x, excluded);
    LastEffectConcat(queue[..i + 1], queue[i + 1..], x, excluded);
    assert queue == queue[..i + 1] + queue[i + 1..];
    assert queue[..i + 1][..i] == queue[..i];
  }

  /** A change that does not touch `x` takes nothing out of the cache there. */
  lemma RemovesElsewhere(c: Cache, change: FileChange, x: Path, excluded: Path -> bool)
    requires !excluded(x) && EffectOn(change, x, excluded).Untouched?
    ensures SameAt(RemovedBy(c, change), c, x)
  {
  }

  lemma BeginElsewhere(extract: Extractor, excluded: Path -> bool, w0: World, w: World, i: nat, x: Path)
    requires PathInv(extract, excluded, w0, w, x) && !excluded(x) && w.working.None? && i < |w.queue|
    requires EffectOn(w.queue[i], x, excluded).Untouched?
    ensures PathInv(extract, excluded, w0, Next(extract, excluded, w, Begin(i)), x)
  {
    QueueWithout(w.queue, i, x, excluded);
    Appended(w.begun, w.queue[i], x, excluded);
    RemovesElsewhere(w.cache, w.queue[i], x, excluded);
    if RemovalWaits(w.queue, x, excluded) {
      RemovalStillWaits(w.queue, i, x, excluded);
    }
  }

  lemma BeginRemove(extract: Extractor, excluded: Path -> bool, w0: World, w: World, i: nat, x: Path)
    requires !excluded(x) && w.working.None? && i < |w.queue| && EffectOn(w.queue[i], x, excluded).Remove?
    ensures PathInv(extract, excluded, w0, Next(extract, excluded, w, Begin(i)), x)
  {
    Appended(w.begun, w.queue[i], x, excluded);
  }

  lemma BeginInstall(extract: Extractor, excluded: Path -> bool, w0: World, w: World, i: nat, x: Path)
    requires PathInv(extract, excluded, w0, w, x) && !excluded(x) && w.working.None? && i < |w.queue|
    requires EffectOn(w.queue[i], x, excluded).Install?
    ensures PathInv(extract, excluded, w0, Next(extract, excluded, w, Begin(i)), x)
  {
    QueueWithout(w.queue, i, x, excluded);
    Appended(w.begun, w.queue[i], x, excluded);
    if RemovalWaits(w.queue, x, excluded) {
      RemovalStillWaits(w.queue, i, x, excluded);
    }
  }

  lemma DropMove(extract: Extractor, excluded: Path -> bool, w0: World, w: World, i: nat, x: Path)
    requires PathInv(extract, excluded, w0, w, x) && i < |w.queue|
    ensures PathInv(extract, excluded, w0, Next(extract, excluded, w, Drop(i)), x)
  {
    QueueWithout(w.queue, i, x, excluded);
    Appended(w.dropped, w.queue[i], x, excluded);
    if EffectOn(w.queue[i], x, excluded).Untouched? && RemovalWaits(w.queue, x, excluded) {
      RemovalStillWaits(w.queue, i, x, excluded);
    }
  }

  lemma GiveUpMove(extract: Extractor, excluded: Path -> bool, w0: World, w: World, x: Path)
    requires PathInv(extract, excluded, w0, w, x) && w.working.Some?
    ensures PathInv(extract, excluded, w0, Next(extract, excluded, w, GiveUp), x)
  {
    Appended(w.dropped, Modified(w.working.value.path), x, excluded);
  }

  lemma FinishMove(extract: Extractor, excluded: Path -> bool, w0: World, w: World, x: Path)
    requires PathInv(extract, excluded, w0, w, x)
    ensures PathInv(extract, excluded, w0, Next(extract, excluded, w, Finish), x)
  {
  }

  lemma {:induction false} WorldStep(extract: Extractor, excluded: Path -> bool, w0: World, w: World, move: Move)
    requires WorldInv(extract, excluded, w0, w)
    ensures WorldInv(extract, excluded, w0, Next(extract, excluded, w, move))
  {
    var w' := Next(extract, excluded, w, move);
    forall x | !excluded(x)
      ensures PathInv(extract, excluded, w0, w', x)
    {
      assert PathInv(extract, excluded, w0, w, x);
      if move.Finish? {
        FinishMove(extract, excluded, w0, w, x);
      } else if move.GiveUp? {
        if w.working.Some? {
          GiveUpMove(extract, excluded, w0, w, x);
        }
      } else if move.Drop? {
        if move.index < |w.queue| {
          DropMove(extract, excluded, w0, w, move.index, x);
        }
      } else if !move.Begin? {
        VaultMove(extract, excluded, w0, w, move, x);
      } else if w.working.None? && move.index < |w.queue| {
        BeginMove(extract, excluded, w0, w, move.index, x);
      }
    }
    ObservedStep(extract, excluded, w, move);
  }

  lemma BeginMove(extract: Extractor, excluded: Path -> bool, w0: World, w: World, i: nat, x: Path)
    requires PathInv(extract, excluded, w0, w, x) && !excluded(x) && w.working.None? && i < |w.queue|
    ensures PathInv(extract, excluded, w0, Next(extract, excluded, w, Begin(i)), x)
  {
    var effect := EffectOn(w.queue[i], x, excluded);
    if effect.Untouched? {
      BeginElsewhere(extract, excluded, w0, w, i, x);
    } else if effect.Remove? {
      BeginRemove(extract, excluded, w0, w, i, x);
    } else {
      BeginInstall(extract, excluded, w0, w, i, x);
    }
  }

  lemma ObservedStep(extract: Extractor, excluded: Path -> bool, w: World, move: Move)
    requires OnlyObserved(excluded, w)
    ensures OnlyObserved(excluded, Next(extract, excluded, w, move))
  {
    if move.Begin? {
      ObservedBegin(extract, excluded, w, move.index);
    } else if move.Finish? {
      ObservedFinish(extract, excluded, w);
    } else if move.GiveUp? || move.Drop? {
    } else {
      ObservedVault(extract, excluded, w, move);
    }
  }

  lemma ObservedVault(extract: Extractor, excluded: Path -> bool, w: World, move: Move)
    requires OnlyObserved(excluded, w) && ByVault(move)
    ensures OnlyObserved(excluded, Next(extract, excluded, w, move))
  {
  }

  lemma ObservedBegin(extract: Extractor, excluded: Path -> bool, w: World, i: nat)
    requires OnlyObserved(excluded, w)
    ensures OnlyObserved(excluded, Next(extract, excluded, w, Begin(i)))
  {
  }

  lemma ObservedFinish(extract: Extractor, excluded: Path -> bool, w: World)
    requires OnlyObserved(excluded, w)
    ensures OnlyObserved(excluded, Next(extract, excluded, w, Finish))
  {
  }

  lemma {:induction false} RunKeepsWorldInv(extract: Extractor, excluded: Path -> bool, w: World, moves: seq<Move>)
    requires Idle(excluded, w)
    ensures WorldInv(extract, excluded, w, After(extract, excluded, w, moves))
  {
    if |moves| > 0 {
      RunKeepsWorldInv(extract, excluded, w, moves[..|moves| - 1]);
      WorldStep(extract, excluded, w, After(extract, excluded, w, moves[..|moves| - 1]), moves[|moves| - 1]);
    }
  }
}
