/** The threads of a running daemon and every way they can interleave.

    src/graphify_daemon/daemon.py, src/graphify_daemon/vault_compiler/batching.py and
    src/graphify_daemon/artifact_lifecycle/shutdown.py meet at three locks. Each step below is one
    critical section of the watcher lock or of the lifecycle lock, or one visible action of the
    thread that holds the writer lock. A step that is not enabled leaves the system as it is, so
    every sequence of steps is a run. */
module Protocol {
  import opened Collections
  import opened Batching
  import opened SlowCadence

  datatype Config = Config(warnThreshold: int, quiet: real, changeThreshold: int)

  datatype Lifecycle = Running | Stopping | Stopped

  /** What runs under the writer lock: a batch (handed over by a debounce timer, or drained by
      `shutdown`) or the idle timer's slow-cadence cycle. */
  datatype Job = BatchJob(batch: nat, drained: bool) | IdleJob(deadline: real)

  /** Where a job is: `Begun` has not yet recorded its batch, `Recorded` is about to ask whether the
      cadence triggers, `Cycling` is inside a triggered cycle, `Passed` has still to settle the idle
      timer, `Leaving` is about to give the lock back. */
  datatype Phase = Begun | Recorded | Cycling | Passed(triggered: bool) | Leaving

  /** Timers are the threads they start. `Armed`, `Due` and `InHand` belong to debounce timers, `InHand`
      being the gap between `_flush` releasing the watcher lock and `run_batch` taking the writer lock. */
  datatype Thread =
    | Armed
    | Due
    | InHand(batch: nat)
    | IdleArmed(deadline: real)
    | IdleDue(deadline: real)
    | Writing(job: Job, phase: Phase)
    | Entered
    | Won
    | Rejected
    | Holding(batch: nat)
    | ToStop
    | ToJoin
    | ToPersist
    | Persisting
    | Persisted
    | Over
    | Raised
    | Cancelled

  /** What has happened so far. It is written and never consulted. `winner` is the caller that moved the
      lifecycle out of `Running`; `entered` lists the batches in the order they took the writer lock; `recorded`
      and `consumed` count changes seen by the tracker and changes taken by a triggered cycle; `stranded` says
      that an exception has come after a batch was recorded or inside a cycle, and that since then no cycle has
      reset the tracker and no batch has settled the idle timer. */
  datatype History = History(
    accepted: Batch,
    compiled: set<nat>,
    failed: set<nat>,
    entered: seq<nat>,
    winner: Option<nat>,
    persists: nat,
    recorded: nat,
    consumed: nat,
    raised: bool,
    stranded: bool)

  /** `log` lists the `Batch` objects in the order they were taken; threads hold indices into it. */
  datatype System = System(
    w: Watcher,
    threads: seq<Thread>,
    writer: Option<nat>,
    lifecycle: Lifecycle,
    observing: bool,
    tracker: Tracker,
    now: real,
    log: seq<Batch>,
    h: History)

  function Init(cfg: Config, start: real): System {
    System(INITIAL_WATCHER, [], None, Running, true, Tracker(cfg.quiet, cfg.changeThreshold, 0, start), start,
           [], History([], {}, {}, [], None, 0, 0, 0, false, false))
  }

  datatype Step =
    | Observe(change: FileChange)
    | Tick(elapsed: real)
    | CallShutdown
    | Run(thread: nat)
    | Raise(thread: nat)

  /** `Timer.cancel()`: it stops an armed timer and does nothing to one that has fired. */
  function Cancel(threads: seq<Thread>, timer: Option<nat>): (r: seq<Thread>)
    ensures |r| == |threads|
  {
    if timer.Some? && timer.value < |threads| && (threads[timer.value].Armed? || threads[timer.value].IdleArmed?)
    then threads[timer.value := Cancelled]
    else threads
  }

  function CancelBoth(s: System): (r: seq<Thread>)
    ensures |r| == |s.threads|
  {
    Cancel(Cancel(s.threads, s.w.timer), s.w.idleTimer)
  }

  function Go(s: System, t: nat, thread: Thread): System
    requires t < |s.threads|
  {
    s.(threads := s.threads[t := thread])
  }

  /** Wait for the writer lock, and take it as `thread`. */
  function Acquire(s: System, t: nat, thread: Thread): System
    requires t < |s.threads|
  {
    if s.writer.None? then Go(s, t, thread).(writer := Some(t)) else s
  }

  /** Wait for the writer lock with batch `b`. */
  function AcquireFor(s: System, t: nat, b: nat, drained: bool): System
    requires t < |s.threads|
  {
    if s.writer.None?
    then Acquire(s, t, Writing(BatchJob(b, drained), Begun)).(h := s.h.(entered := s.h.entered + [b]))
    else s
  }

  function FlushStep(s: System, t: nat): System
    requires t < |s.threads|
  {
    if s.w.pending == [] then Go(s, t, Over)
    else Go(s, t, InHand(|s.log|)).(w := Flushed(s.w), log := s.log + [s.w.pending])
  }

  function DrainStep(s: System, t: nat): System
    requires t < |s.threads|
  {
    var cleared := s.(threads := CancelBoth(s), w := Drained(s.w));
    if s.w.pending == [] then Go(cleared, t, ToStop)
    else Go(cleared, t, Holding(|s.log|)).(log := s.log + [s.w.pending])
  }

  function BatchSize(s: System, b: nat): nat {
    if b < |s.log| then |s.log[b]| else 0
  }

  function RecordStep(s: System, t: nat, job: Job): System
    requires t < |s.threads|
  {
    match job
    case IdleJob(_) => Go(s, t, Writing(job, Recorded))
    case BatchJob(b, _) =>
      Go(s, t, Writing(job, Recorded)).(tracker := Record(s.tracker, BatchSize(s, b), s.now),
                                        h := s.h.(recorded := s.h.recorded + BatchSize(s, b)))
  }

  function CheckStep(s: System, t: nat, job: Job): System
    requires t < |s.threads|
  {
    Go(s, t, Writing(job, if ShouldTrigger(s.tracker, s.now) then Cycling else Passed(false)))
  }

  function ResetStep(s: System, t: nat, job: Job): System
    requires t < |s.threads|
  {
    Go(s, t, Writing(job, Passed(true))).(tracker := Reset(s.tracker, s.now),
                                          h := s.h.(consumed := s.h.consumed + s.tracker.accumulated,
                                                    stranded := false))
  }

  /** A batch cancels the idle timer when its cycle ran, and otherwise replaces it. */
  function SettleStep(s: System, t: nat, job: Job, triggered: bool): System
    requires t < |s.threads|
  {
    match job
    case IdleJob(_) => Go(s, t, Writing(job, Leaving))
    case BatchJob(_, _) =>
      var cleared := Go(s.(threads := Cancel(s.threads, s.w.idleTimer), h := s.h.(stranded := false)),
                        t, Writing(job, Leaving));
      if triggered then cleared.(w := s.w.(idleTimer := None))
      else cleared.(threads := cleared.threads + [IdleArmed(s.now + s.tracker.quiet)],
                    w := s.w.(idleTimer := Some(|s.threads|)))
  }

  function ReleaseStep(s: System, t: nat, job: Job): System
    requires t < |s.threads|
  {
    match job
    case IdleJob(_) => Go(s, t, Over).(writer := None)
    case BatchJob(b, drained) =>
      Go(s, t, if drained then ToStop else Over).(writer := None, h := s.h.(compiled := s.h.compiled + {b}))
  }

  function WorkStep(s: System, t: nat, job: Job, phase: Phase): System
    requires t < |s.threads|
  {
    match phase
    case Begun => RecordStep(s, t, job)
    case Recorded => CheckStep(s, t, job)
    case Cycling => ResetStep(s, t, job)
    case Passed(triggered) => SettleStep(s, t, job, triggered)
    case Leaving => ReleaseStep(s, t, job)
  }

  /** The next action of the caller of `shutdown` that is thread `t`. */
  function ShutdownStep(s: System, t: nat): System
    requires t < |s.threads|
  {
    match s.threads[t]
    case Entered =>
      if s.lifecycle.Running? then Go(s, t, Won).(lifecycle := Stopping, h := s.h.(winner := Some(t)))
      else Go(s, t, Over)
    case Won => Go(s, t, Rejected).(w := s.w.(rejecting := true))
    case Rejected => DrainStep(s, t)
    case Holding(b) => AcquireFor(s, t, b, true)
    case ToStop => Go(s.(threads := CancelBoth(s), w := TimersCleared(s.w)), t, ToJoin)
    case ToJoin => Go(s, t, ToPersist).(observing := false)
    case ToPersist =>
      if s.writer.None? then Acquire(s, t, Persisting).(h := s.h.(persists := s.h.persists + 1)) else s
    case Persisting => Go(s, t, Persisted).(writer := None)
    case Persisted => Go(s, t, Over).(lifecycle := Stopped)
    case _ => s
  }

  function RunStep(s: System, t: nat): System
    requires t < |s.threads|
  {
    match s.threads[t]
    case Armed => Go(s, t, Due)
    case Due => FlushStep(s, t)
    case InHand(b) => AcquireFor(s, t, b, false)
    case IdleArmed(d) => if s.now >= d then Go(s, t, IdleDue(d)) else s
    case IdleDue(d) => Acquire(s, t, Writing(IdleJob(d), Recorded))
    case Writing(job, phase) => WorkStep(s, t, job, phase)
    case _ => ShutdownStep(s, t)
  }

  /** An exception inside a compile, a cycle or `persist`: it gives the lock back and ends the thread. */
  function RaiseStep(s: System, t: nat): System
    requires t < |s.threads|
  {
    match s.threads[t]
    case Persisting => Go(s, t, Raised).(writer := None, h := s.h.(raised := true))
    case Writing(job, phase) =>
      if phase.Passed? || phase.Leaving? then s
      else
        Go(s, t, Raised).(writer := None,
                          h := s.h.(raised := true, stranded := s.h.stranded || !phase.Begun?,
                                    failed := s.h.failed + if job.BatchJob? then {job.batch} else {}))
    case _ => s
  }

  function Apply(cfg: Config, s: System, step: Step): System {
    match step
    case Observe(c) =>
      if s.observing && !s.w.rejecting then
        s.(w := Queued(s.w, cfg.warnThreshold, c, |s.threads|),
           threads := Cancel(s.threads, s.w.timer) + [Armed],
           h := s.h.(accepted := s.h.accepted + [c]))
      else s
    case Tick(elapsed) => if elapsed > 0.0 then s.(now := s.now + elapsed) else s
    case CallShutdown => s.(threads := s.threads + [Entered])
    case Run(t) => if t < |s.threads| then RunStep(s, t) else s
    case Raise(t) => if t < |s.threads| then RaiseStep(s, t) else s
  }

  /** The state that a run reaches. */
  function Exec(cfg: Config, start: real, steps: seq<Step>): System {
    if |steps| == 0 then Init(cfg, start)
    else Apply(cfg, Exec(cfg, start, steps[..|steps| - 1]), steps[|steps| - 1])
  }
}
