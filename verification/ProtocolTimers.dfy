/** Timers: no pending change is without a timer that will flush it, at most one idle timer is armed, and
    the backpressure warning is exact. */
module ProtocolTimers {
  import opened Collections
  import opened Batching
  import opened Protocol
  import opened ProtocolShutdown

  /** A debounce slot never names an idle timer or the other way round, and an armed idle timer is the one
      in the slot. */
  ghost predicate SlotInv(s: System) {
    && (s.w.timer.Some? ==> s.w.timer.value < |s.threads| && !s.threads[s.w.timer.value].IdleArmed?)
    && (s.w.idleTimer.Some? ==> s.w.idleTimer.value < |s.threads| && !s.threads[s.w.idleTimer.value].Armed?)
    && (forall k :: 0 <= k < |s.threads| && s.threads[k].IdleArmed? ==> s.w.idleTimer == Some(k))
  }

  lemma SlotWork(s: System, t: nat, job: Job, phase: Phase)
    requires SlotInv(s) && t < |s.threads| && s.threads[t] == Writing(job, phase)
    ensures SlotInv(WorkStep(s, t, job, phase))
  {
  }

  lemma SlotDrain(s: System, t: nat)
    requires SlotInv(s) && t < |s.threads| && s.threads[t].Rejected?
    ensures SlotInv(DrainStep(s, t))
  {
  }

  lemma SlotStop(s: System, t: nat)
    requires SlotInv(s) && t < |s.threads| && s.threads[t].ToStop?
    ensures SlotInv(ShutdownStep(s, t))
  {
  }

  /** The drain of `shutdown`, and its stop, leave no idle timer armed and none in either slot. */
  lemma DisarmsTimers(s: System, t: nat)
    requires SlotInv(s) && t < |s.threads| && (s.threads[t].Rejected? || s.threads[t].ToStop?)
    ensures var s' := RunStep(s, t);
      && s'.w.timer.None? && s'.w.idleTimer.None?
      && forall k :: 0 <= k < |s'.threads| ==> !s'.threads[k].IdleArmed?
  {
  }

  /** A step that touches no thread but its own and leaves the slots alone, or only forgets the debounce timer. */
  ghost predicate Plain(s: System, s': System, t: nat)
    requires t < |s.threads|
  {
    && |s'.threads| == |s.threads|
    && s'.threads == s.threads[t := s'.threads[t]]
    && s'.w.timer in {None, s.w.timer} && s'.w.idleTimer == s.w.idleTimer
    && !s'.threads[t].Armed? && (s'.threads[t].IdleArmed? ==> s'.threads[t] == s.threads[t])
  }

  lemma PlainRun(s: System, t: nat)
    requires t < |s.threads| && !s.threads[t].Writing? && !s.threads[t].Rejected? && !s.threads[t].ToStop?
    ensures Plain(s, RunStep(s, t), t)
  {
    match s.threads[t]
    case Armed =>
    case Due =>
    case InHand(b) =>
    case IdleArmed(d) =>
    case IdleDue(d) =>
    case Holding(b) =>
    case _ =>
  }

  lemma SlotKept(s: System, s': System, t: nat)
    requires SlotInv(s) && t < |s.threads| && Plain(s, s', t)
    ensures SlotInv(s')
  {
  }

  lemma {:induction false} SlotRun(s: System, t: nat)
    requires SlotInv(s) && t < |s.threads|
    ensures SlotInv(RunStep(s, t))
  {
    match s.threads[t]
    case Writing(job, phase) => SlotWork(s, t, job, phase);
    case Rejected => SlotDrain(s, t);
    case ToStop => SlotStop(s, t);
    case _ =>
      PlainRun(s, t);
      SlotKept(s, RunStep(s, t), t);
  }

  lemma {:induction false} SlotStep(cfg: Config, s: System, step: Step)
    requires SlotInv(s)
    ensures SlotInv(Apply(cfg, s, step))
  {
    if step.Run? && step.thread < |s.threads| {
      SlotRun(s, step.thread);
    }
  }

  ghost predicate AtMostOneArmed(s: System) {
    forall j, k :: 0 <= j < |s.threads| && 0 <= k < |s.threads| && s.threads[j].Armed? && s.threads[k].Armed? ==> j == k
  }

  /** Every armed debounce timer is the one in the slot. */
  ghost predicate NoOrphan(s: System) {
    forall k :: 0 <= k < |s.threads| && s.threads[k].Armed? ==> s.w.timer == Some(k)
  }

  /** A timer that has fired flushes while the slot names another one, still armed: `_flush` forgets that one. */
  predicate StaleFlush(s: System, step: Step) {
    && step.Run? && step.thread < |s.threads| && s.threads[step.thread].Due? && s.w.pending != []
    && s.w.timer.Some? && s.w.timer.value < |s.threads| && s.threads[s.w.timer.value].Armed?
  }

  /** An accepted change leaves one debounce timer armed exactly when none was orphaned before it. */
  lemma OneArmedAfterObserve(cfg: Config, s: System, c: FileChange)
    requires SlotInv(s) && s.observing && !s.w.rejecting
    ensures AtMostOneArmed(Apply(cfg, s, Observe(c))) <==> NoOrphan(s)
  {
    var s' := Apply(cfg, s, Observe(c));
    assert s'.threads[|s.threads|].Armed?;
    forall k | 0 <= k < |s.threads|
      ensures s'.threads[k].Armed? <==> s.threads[k].Armed? && s.w.timer != Some(k)
    {
    }
  }

  lemma OrphanRun(s: System, t: nat)
    requires SlotInv(s) && NoOrphan(s) && t < |s.threads|
    ensures NoOrphan(RunStep(s, t)) <==> !StaleFlush(s, Run(t))
  {
    var th, s' := s.threads[t], RunStep(s, t);
    if th.Writing? {
      OrphanWork(s, t, th.job, th.phase);
    } else if th.Rejected? {
      OrphanDrain(s, t);
    } else if th.ToStop? {
    } else if th.Due? {
      OrphanFlush(s, t);
    } else {
      OrphanPlain(s, t);
    }
  }

  lemma OrphanWork(s: System, t: nat, job: Job, phase: Phase)
    requires SlotInv(s) && NoOrphan(s) && t < |s.threads| && s.threads[t] == Writing(job, phase)
    ensures NoOrphan(WorkStep(s, t, job, phase))
  {
  }

  lemma OrphanDrain(s: System, t: nat)
    requires SlotInv(s) && NoOrphan(s) && t < |s.threads| && s.threads[t].Rejected?
    ensures NoOrphan(DrainStep(s, t))
  {
  }

  lemma OrphanFlush(s: System, t: nat)
    requires NoOrphan(s) && t < |s.threads| && s.threads[t].Due?
    ensures NoOrphan(FlushStep(s, t)) <==> !StaleFlush(s, Run(t))
  {
    if StaleFlush(s, Run(t)) {
      assert FlushStep(s, t).threads[s.w.timer.value].Armed?;
    }
  }

  lemma OrphanPlain(s: System, t: nat)
    requires NoOrphan(s) && t < |s.threads|
    requires var th := s.threads[t]; !th.Writing? && !th.Rejected? && !th.ToStop? && !th.Due?
    ensures NoOrphan(RunStep(s, t))
  {
    PlainRun(s, t);
    SlotUntouched(s, t);
  }

  lemma SlotUntouched(s: System, t: nat)
    requires t < |s.threads|
    requires var th := s.threads[t]; !th.Writing? && !th.Rejected? && !th.ToStop? && !th.Due?
    ensures RunStep(s, t).w.timer == s.w.timer
  {
  }

  /** A stale flush, and nothing else, orphans an armed timer. */
  lemma OrphanStep(cfg: Config, s: System, step: Step)
    requires SlotInv(s) && NoOrphan(s)
    ensures NoOrphan(Apply(cfg, s, step)) <==> !StaleFlush(s, step)
  {
    if step.Run? && step.thread < |s.threads| {
      OrphanRun(s, step.thread);
    } else {
      OrphanOutside(cfg, s, step);
    }
  }

  lemma OrphanOutside(cfg: Config, s: System, step: Step)
    requires NoOrphan(s) && !(step.Run? && step.thread < |s.threads|)
    ensures NoOrphan(Apply(cfg, s, step))
  {
  }

  /** Only `Observe` adds to what is pending: a thread takes all of it or leaves it alone. */
  ghost predicate QueueTurn(s: System, s': System) {
    || (s'.log == s.log && s'.w == s.w.(timer := s'.w.timer, idleTimer := s'.w.idleTimer, rejecting := s'.w.rejecting))
    || (&& s.w.pending != [] && s'.log == s.log + [s.w.pending] && s'.w.pending == []
        && !s'.w.warned && s'.w.gauge == Some(0) && s'.w.warnings == s.w.warnings)
  }

  lemma QueueRun(s: System, t: nat)
    requires t < |s.threads|
    ensures QueueTurn(s, RunStep(s, t))
  {
    var th := s.threads[t];
    if th.Writing? {
      QueueWork(s, t, th.job, th.phase);
    } else if th.Armed? || th.Due? || th.InHand? || th.IdleArmed? || th.IdleDue? {
    } else {
      QueueShutdown(s, t);
    }
  }

  lemma QueueWork(s: System, t: nat, job: Job, phase: Phase)
    requires t < |s.threads|
    ensures QueueTurn(s, WorkStep(s, t, job, phase))
  {
  }

  lemma QueueShutdown(s: System, t: nat)
    requires t < |s.threads|
    ensures QueueTurn(s, ShutdownStep(s, t))
  {
  }

  predicate WillFlush(th: Thread) { th.Armed? || th.Due? }

  /** Something pending has a debounce timer that is armed, or has fired and is about to flush. */
  ghost predicate LiveInv(s: System) {
    s.w.pending != [] ==> exists k :: 0 <= k < |s.threads| && WillFlush(s.threads[k])
  }

  lemma FlusherWork(s: System, t: nat, k: nat, job: Job, phase: Phase)
    requires SlotInv(s) && t < |s.threads| && s.threads[t] == Writing(job, phase)
    requires k < |s.threads| && WillFlush(s.threads[k])
    ensures WillFlush(WorkStep(s, t, job, phase).threads[k])
  {
  }

  lemma FlusherFires(s: System, t: nat)
    requires t < |s.threads| && WillFlush(s.threads[t])
    ensures var s' := RunStep(s, t); s'.w.pending == [] || WillFlush(s'.threads[t])
  {
  }

  lemma DrainEmpties(s: System, t: nat)
    requires t < |s.threads| && s.threads[t].Rejected?
    ensures RunStep(s, t).w.pending == []
  {
  }

  /** A debounce timer that will flush survives every step that leaves something pending. */
  lemma {:induction false} FlusherKept(s: System, t: nat, k: nat)
    requires SlotInv(s) && ShutdownInv(s) && t < |s.threads| && k < |s.threads| && WillFlush(s.threads[k])
    requires s.w.pending != []
    ensures var s' := RunStep(s, t); s'.w.pending == [] || (k < |s'.threads| && WillFlush(s'.threads[k]))
  {
    assert !s.threads[t].ToStop?;
    if t == k {
      FlusherFires(s, t);
    } else if s.threads[t].Writing? {
      FlusherWork(s, t, k, s.threads[t].job, s.threads[t].phase);
    } else if s.threads[t].Rejected? {
      DrainEmpties(s, t);
    } else {
      PlainRun(s, t);
    }
  }

  lemma LiveStep(cfg: Config, s: System, step: Step)
    requires SlotInv(s) && ShutdownInv(s) && LiveInv(s)
    ensures LiveInv(Apply(cfg, s, step))
  {
    var s' := Apply(cfg, s, step);
    if step.Observe? && s.observing && !s.w.rejecting {
      assert WillFlush(s'.threads[|s.threads|]);
    } else if step.Run? && step.thread < |s.threads| {
      QueueRun(s, step.thread);
      if s'.w.pending != [] {
        var k :| 0 <= k < |s.threads| && WillFlush(s.threads[k]);
        FlusherKept(s, step.thread, k);
      }
    } else if s.w.pending != [] {
      var k :| 0 <= k < |s.threads| && WillFlush(s.threads[k]);
      assert WillFlush(s'.threads[k]);
    }
  }

  function CountLarge(log: seq<Batch>, threshold: int): nat {
    if |log| == 0 then 0
    else CountLarge(log[..|log| - 1], threshold) + if |log[|log| - 1]| >= threshold then 1 else 0
  }

  ghost predicate BackpressureInv(s: System, threshold: int) {
    && (s.w.warned <==> |s.w.pending| >= threshold)
    && (s.w.gauge.Some? ==> s.w.gauge.value == |s.w.pending|)
    && s.w.warnings == CountLarge(s.log, threshold) + if |s.w.pending| >= threshold then 1 else 0
  }

  lemma {:induction false} BackpressureStep(cfg: Config, s: System, step: Step)
    requires cfg.warnThreshold >= 1 && BackpressureInv(s, cfg.warnThreshold)
    ensures BackpressureInv(Apply(cfg, s, step), cfg.warnThreshold)
  {
    if step.Run? && step.thread < |s.threads| {
      QueueRun(s, step.thread);
      BackpressureTurn(s, RunStep(s, step.thread), cfg.warnThreshold);
    } else if step.Raise? && step.thread < |s.threads| {
      assert RaiseStep(s, step.thread).w == s.w && RaiseStep(s, step.thread).log == s.log;
    }
  }

  lemma {:induction false} BackpressureTurn(s: System, s': System, threshold: int)
    requires threshold >= 1 && BackpressureInv(s, threshold) && QueueTurn(s, s')
    ensures BackpressureInv(s', threshold)
  {
    if s'.log != s.log {
      assert s'.log[..|s.log|] == s.log;
    }
  }
}
