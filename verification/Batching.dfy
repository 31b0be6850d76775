/** src/graphify_daemon/vault_compiler/batching.py: file changes, and the watcher that batches them. */
module Batching {
  import opened Collections

  /** A path relative to the vault root. */
  type Path = string

  /** A change carries a previous path exactly when it is a rename, which `__post_init__` enforces. */
  datatype FileChange =
    | Created(path: Path)
    | Modified(path: Path)
    | Deleted(path: Path)
    | Renamed(path: Path, previous: Path)

  type Batch = seq<FileChange>

  datatype FsEvent = FsEvent(isDirectory: bool, eventType: string, src: Path, dest: Path)

  /** `on_any_event`: a rename is let through even into an excluded place, so that its source is cleaned up. */
  function OnAnyEvent(e: FsEvent, excluded: Path -> bool, inside: Path -> bool): (r: Option<FileChange>)
    ensures e.isDirectory ==> r.None?
    ensures !e.isDirectory && e.eventType == "moved" ==> r == Some(Renamed(e.dest, e.src))
    ensures e.eventType != "moved" ==>
              (r.Some? <==> && !e.isDirectory && e.eventType in {"created", "modified", "deleted"}
                            && !excluded(e.src) && inside(e.src))
    ensures r.Some? ==>
              && (r.value.Created? <==> e.eventType == "created") && (r.value.Modified? <==> e.eventType == "modified")
              && (r.value.Deleted? <==> e.eventType == "deleted") && (r.value.Renamed? <==> e.eventType == "moved")
    ensures r.Some? && e.eventType != "moved" ==> r.value.path == e.src
  {
    if e.isDirectory then None
    else if e.eventType == "moved" then Some(Renamed(e.dest, e.src))
    else if e.eventType !in {"created", "modified", "deleted"} then None
    else if excluded(e.src) || !inside(e.src) then None
    else if e.eventType == "created" then Some(Created(e.src))
    else if e.eventType == "modified" then Some(Modified(e.src))
    else Some(Deleted(e.src))
  }

  /** What one change asks for at one path. */
  datatype Effect = Install | Remove | Untouched

  function EffectOn(c: FileChange, x: Path, excluded: Path -> bool): Effect {
    match c
    case Created(p) => if x == p then Install else Untouched
    case Modified(p) => if x == p then Install else Untouched
    case Deleted(p) => if x == p then Remove else Untouched
    case Renamed(p, previous) =>
      if x == p && !excluded(p) then Install else if x == previous then Remove else Untouched
  }

  /** The effect of the last change in `cs` that touches `x`. */
  function LastEffect(cs: seq<FileChange>, x: Path, excluded: Path -> bool): Effect {
    if |cs| == 0 then Untouched
    else
      var e := EffectOn(cs[|cs| - 1], x, excluded);
      if e.Untouched? then LastEffect(cs[..|cs| - 1], x, excluded) else e
  }

  /** The fields that `VaultWatcher` guards with its lock, with the gauge and the counter it feeds. */
  datatype Watcher = Watcher(
    pending: Batch,
    timer: Option<nat>,
    idleTimer: Option<nat>,
    warned: bool,
    rejecting: bool,
    gauge: Option<nat>,
    warnings: nat)

  const INITIAL_WATCHER := Watcher([], None, None, false, false, None, 0)

  /** `_queue_change`; `id` names the debounce timer it starts. */
  function Queued(w: Watcher, threshold: int, c: FileChange, id: nat): Watcher {
    if w.rejecting then w
    else
      var pending := w.pending + [c];
      var crossed := |pending| >= threshold && !w.warned;
      w.(pending := pending, timer := Some(id), gauge := Some(|pending|), warned := w.warned || crossed,
         warnings := w.warnings + if crossed then 1 else 0)
  }

  /** The part of `_flush` and `drain_pending_batch` that takes everything pending as one batch. */
  function Taken(w: Watcher): Watcher {
    w.(pending := [], warned := false, gauge := Some(0))
  }

  function Flushed(w: Watcher): Watcher {
    if w.pending == [] then w else Taken(w).(timer := None)
  }

  function TimersCleared(w: Watcher): Watcher {
    w.(timer := None, idleTimer := None)
  }

  function Drained(w: Watcher): Watcher {
    if w.pending == [] then TimersCleared(w) else Taken(TimersCleared(w))
  }

  /** `VaultWatcher`: one method per critical section. A timer is named by a number; `cancelled` and
      `started` report the calls made on the timer library. */
  class VaultWatcher {
    const threshold: int
    var pending: Batch
    var timer: Option<nat>
    var idleTimer: Option<nat>
    var warned: bool
    var rejecting: bool
    var gauge: Option<nat>
    var warnings: nat

    ghost function View(): Watcher
      reads this
    {
      Watcher(pending, timer, idleTimer, warned, rejecting, gauge, warnings)
    }

    constructor (threshold: int)
      ensures View() == INITIAL_WATCHER && this.threshold == threshold
    {
      this.threshold := threshold;
      pending, timer, idleTimer, warned, rejecting := [], None, None, false, false;
      gauge, warnings := None, 0;
    }

    method QueueChange(change: FileChange, id: nat) returns (cancelled: Option<nat>, started: Option<nat>)
      modifies this
      ensures View() == Queued(old(View()), threshold, change, id)
      ensures old(rejecting) ==> cancelled == started == None
      ensures !old(rejecting) ==> cancelled == old(timer) && started == Some(id)
    {
      if rejecting {
        return None, None;
      }
      pending := pending + [change];
      gauge := Some(|pending|);
      if |pending| >= threshold && !warned {
        warnings := warnings + 1;
        warned := true;
      }
      cancelled := timer;
      timer := Some(id);
      started := timer;
    }

    method Flush() returns (batch: Option<Batch>)
      modifies this
      ensures View() == Flushed(old(View()))
      ensures batch == if old(pending) == [] then None else Some(old(pending))
    {
      if pending == [] {
        return None;
      }
      batch := Some(pending);
      pending, warned, gauge := [], false, Some(0);
      timer := None;
    }

    method DrainPendingBatch() returns (batch: Option<Batch>, cancelled: Option<nat>, cancelledIdle: Option<nat>)
      modifies this
      ensures View() == Drained(old(View()))
      ensures batch == if old(pending) == [] then None else Some(old(pending))
      ensures cancelled == old(timer) && cancelledIdle == old(idleTimer)
    {
      cancelled, cancelledIdle := timer, idleTimer;
      timer, idleTimer := None, None;
      if pending == [] {
        batch := None;
        return;
      }
      batch := Some(pending);
      pending, warned, gauge := [], false, Some(0);
    }

    method RejectNewEvents()
      modifies this`rejecting
      ensures View() == old(View()).(rejecting := true)
    {
      rejecting := true;
    }

    method ScheduleIdle(id: nat) returns (cancelled: Option<nat>)
      modifies this`idleTimer
      ensures View() == old(View()).(idleTimer := Some(id)) && cancelled == old(idleTimer)
    {
      cancelled := idleTimer;
      idleTimer := Some(id);
    }

    method CancelIdle() returns (cancelled: Option<nat>)
      modifies this`idleTimer
      ensures View() == old(View()).(idleTimer := None) && cancelled == old(idleTimer)
    {
      cancelled := idleTimer;
      idleTimer := None;
    }

    method Stop() returns (cancelled: Option<nat>, cancelledIdle: Option<nat>)
      modifies this`timer, this`idleTimer
      ensures View() == TimersCleared(old(View())) && cancelled == old(timer) && cancelledIdle == old(idleTimer)
    {
      cancelled, cancelledIdle := timer, idleTimer;
      timer, idleTimer := None, None;
    }
  }
}
