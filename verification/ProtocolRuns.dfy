/** What every run of the daemon keeps, whatever the interleaving and however many callers shut it down. */
module ProtocolRuns {
  import opened Collections
  import opened Batching
  import opened SlowCadence
  import opened Protocol
  import opened ProtocolLocks
  import opened ProtocolShutdown
  import opened ProtocolConservation
  import opened ProtocolTimers
  import opened ProtocolCadence

  ghost predicate SafeInv(s: System) {
    LockInv(s) && ShutdownInv(s) && ConservationInv(s) && SlotInv(s) && LiveInv(s)
  }

  lemma {:induction false} RunIsSafe(cfg: Config, start: real, steps: seq<Step>)
    ensures SafeInv(Exec(cfg, start, steps))
  {
    if |steps| > 0 {
      var init, step := steps[..|steps| - 1], steps[|steps| - 1];
      RunIsSafe(cfg, start, init);
      var s := Exec(cfg, start, init);
      LockStep(cfg, s, step);
      ShutdownInvStep(cfg, s, step);
      ConservationStep(cfg, s, step);
      SlotStep(cfg, s, step);
      LiveStep(cfg, s, step);
    }
  }

  /** Batches, idle cycles and `persist` exclude one another. */
  lemma {:induction false} WriterExcludes(cfg: Config, start: real, steps: seq<Step>, t: nat, u: nat)
    ensures var s := Exec(cfg, start, steps);
      t < |s.threads| && u < |s.threads| && Critical(s.threads[t]) && Critical(s.threads[u]) ==> t == u
  {
    RunIsSafe(cfg, start, steps);
  }

  function Rank(l: Lifecycle): nat {
    match l case Running => 0 case Stopping => 1 case Stopped => 2
  }

  lemma RankStep(cfg: Config, s: System, step: Step)
    requires ShutdownInv(s)
    ensures Rank(s.lifecycle) <= Rank(Apply(cfg, s, step).lifecycle)
  {
    var t := Actor(s, step);
    if step.Run? && t < |s.threads| {
      if ShuttingDown(s.threads[t]) {
        WinnerSettles(s, t);
      } else if !(s.threads[t].Entered? && s.lifecycle.Running?) {
        OthersStandBy(s, t);
      }
    }
  }

  /** RUNNING, STOPPING, STOPPED, and never back; `persist` starts at most once, and has when STOPPED. */
  lemma {:induction false} LifecycleMovesForward(cfg: Config, start: real, steps: seq<Step>, n: nat)
    requires n <= |steps|
    ensures var s := Exec(cfg, start, steps);
      && Rank(Exec(cfg, start, steps[..n]).lifecycle) <= Rank(s.lifecycle)
      && Exec(cfg, start, steps[..n]).h.persists <= 1 && s.h.persists <= 1
      && (s.lifecycle.Stopped? ==> s.h.persists == 1) && (s.lifecycle.Running? ==> s.h.persists == 0)
    decreases |steps| - n
  {
    RunIsSafe(cfg, start, steps);
    RunIsSafe(cfg, start, steps[..n]);
    if n == |steps| {
      assert steps[..n] == steps;
    } else {
      LifecycleMovesForward(cfg, start, steps, n + 1);
      assert steps[..n + 1][..n] == steps[..n];
      RankStep(cfg, Exec(cfg, start, steps[..n]), steps[n]);
    }
  }

  /** Accepted changes are split, in arrival order, into the batches taken so far and what is pending; each
      batch is compiled, failed, or held by one thread. */
  lemma ChangesAreConserved(cfg: Config, start: real, steps: seq<Step>)
    ensures var s := Exec(cfg, start, steps);
      && Flatten(s.log) + s.w.pending == s.h.accepted
      && s.h.compiled !! s.h.failed
      && (forall b :: b in s.h.compiled + s.h.failed ==> b < |s.log|)
      && (forall b :: 0 <= b < |s.log| ==>
            (b in s.h.compiled + s.h.failed <==> !exists t :: 0 <= t < |s.threads| && Held(s.threads[t]) == Some(b)))
      && (forall t, u :: 0 <= t < u < |s.threads| && Held(s.threads[t]).Some? ==>
            Held(s.threads[t]).value < |s.log| && Held(s.threads[t]) != Held(s.threads[u]))
  {
    RunIsSafe(cfg, start, steps);
  }

  /** While `persist` runs nothing is pending, and every accepted change is in a batch that was compiled,
      that raised, or that a debounce thread took but has not brought to the writer lock. So everything
      accepted has been through the compiler exactly when no thread is in that gap. */
  lemma {:induction false} PersistSeesEverythingButTheGap(cfg: Config, start: real, steps: seq<Step>, t: nat)
    requires t < |Exec(cfg, start, steps).threads| && Exec(cfg, start, steps).threads[t].Persisting?
    ensures var s := Exec(cfg, start, steps);
      && s.w.pending == [] && s.w.rejecting && Flatten(s.log) == s.h.accepted
      && (forall b :: 0 <= b < |s.log| && b !in s.h.compiled + s.h.failed ==>
            exists u :: 0 <= u < |s.threads| && s.threads[u] == InHand(b))
      && ((forall b :: 0 <= b < |s.log| ==> b in s.h.compiled + s.h.failed) <==>
          !exists u :: 0 <= u < |s.threads| && s.threads[u].InHand?)
  {
    RunIsSafe(cfg, start, steps);
    var s := Exec(cfg, start, steps);
    assert s.w.pending == [];
    forall b | 0 <= b < |s.log| && b !in s.h.compiled + s.h.failed
      ensures exists u :: 0 <= u < |s.threads| && s.threads[u] == InHand(b)
    {
      var u :| 0 <= u < |s.threads| && Held(s.threads[u]) == Some(b);
      assert s.threads[u] == InHand(b);
    }
    forall u | 0 <= u < |s.threads| && s.threads[u].InHand?
      ensures s.threads[u].batch < |s.log| && s.threads[u].batch !in s.h.compiled + s.h.failed
    {
      assert Held(s.threads[u]) == Some(s.threads[u].batch);
    }
  }

  lemma {:induction false} OnlyRaisingFails(cfg: Config, start: real, steps: seq<Step>)
    ensures var s := Exec(cfg, start, steps); !s.h.raised ==> s.h.failed == {}
  {
    if |steps| > 0 {
      OnlyRaisingFails(cfg, start, steps[..|steps| - 1]);
      FailedStep(cfg, Exec(cfg, start, steps[..|steps| - 1]), steps[|steps| - 1]);
    }
  }

  lemma FailedStep(cfg: Config, s: System, step: Step)
    requires !s.h.raised ==> s.h.failed == {}
    ensures var s' := Apply(cfg, s, step); !s'.h.raised ==> s'.h.failed == {}
  {
    if step.Run? && step.thread < |s.threads| {
      NoneFails(s, step.thread);
    }
  }

  lemma NoneFails(s: System, t: nat)
    requires t < |s.threads|
    ensures RunStep(s, t).h.failed == s.h.failed && RunStep(s, t).h.raised == s.h.raised
  {
    var th := s.threads[t];
    if th.Writing? {
    } else if th.Armed? || th.Due? || th.InHand? || th.IdleArmed? || th.IdleDue? {
    } else {
    }
  }

  /** Whatever is pending has a debounce timer that will flush it, up to and after the shutdown drain. */
  lemma NothingPendingIsAbandoned(cfg: Config, start: real, steps: seq<Step>)
    ensures var s := Exec(cfg, start, steps);
      s.w.pending != [] ==> exists k :: 0 <= k < |s.threads| && WillFlush(s.threads[k])
  {
    RunIsSafe(cfg, start, steps);
  }

  lemma {:induction false} OneIdleTimerArmed(cfg: Config, start: real, steps: seq<Step>, j: nat, k: nat)
    ensures var s := Exec(cfg, start, steps);
      j < |s.threads| && k < |s.threads| && s.threads[j].IdleArmed? && s.threads[k].IdleArmed? ==> j == k
  {
    RunIsSafe(cfg, start, steps);
  }

  /** One caller shuts the daemon down; every other one returns at once and changes nothing. */
  lemma {:induction false} LateCallersReturn(cfg: Config, start: real, steps: seq<Step>, t: nat)
    requires t < |Exec(cfg, start, steps).threads| && Exec(cfg, start, steps).threads[t].Entered?
    ensures var s := Exec(cfg, start, steps);
      var s' := Apply(cfg, s, Run(t));
      if s.h.winner.Some? then s' == s.(threads := s.threads[t := Over])
      else s'.h.winner == Some(t) && s'.lifecycle.Stopping? && s'.threads == s.threads[t := Won]
  {
    RunIsSafe(cfg, start, steps);
  }

  /** What `shutdown` has done to the watcher. Its drain and its stop leave no idle timer armed; from the drain on
      nothing is pending and the debounce slot is empty; and before it persists the observer has stopped. */
  lemma {:induction false} ShutdownQuietsTheWatcher(cfg: Config, start: real, steps: seq<Step>, t: nat)
    requires t < |Exec(cfg, start, steps).threads|
    ensures var s := Exec(cfg, start, steps);
      var th, s' := s.threads[t], Apply(cfg, s, Run(t));
      && (th.Rejected? || th.ToStop? ==>
            && s'.w.timer.None? && s'.w.idleTimer.None?
            && forall k :: 0 <= k < |s'.threads| ==> !s'.threads[k].IdleArmed?)
      && (ShuttingDown(th) && !th.Won? && !th.Rejected? ==> s.w.rejecting && s.w.pending == [] && s.w.timer.None?)
      && (th.ToPersist? || th.Persisting? || th.Persisted? ==> !s.observing)
  {
    RunIsSafe(cfg, start, steps);
    var s := Exec(cfg, start, steps);
    if s.threads[t].Rejected? || s.threads[t].ToStop? {
      DisarmsTimers(s, t);
    }
  }

  ghost predicate BackpressureAfter(cfg: Config, start: real, steps: seq<Step>) {
    BackpressureInv(Exec(cfg, start, steps), cfg.warnThreshold)
  }

  lemma {:induction false} BackpressureHolds(cfg: Config, start: real, steps: seq<Step>)
    requires cfg.warnThreshold >= 1
    ensures BackpressureInv(Exec(cfg, start, steps), cfg.warnThreshold)
  {
    if |steps| > 0 {
      BackpressureHolds(cfg, start, steps[..|steps| - 1]);
      BackpressureStep(cfg, Exec(cfg, start, steps[..|steps| - 1]), steps[|steps| - 1]);
    }
  }

  /** The warning flag, the gauge and the warning count are exact in every run iff the threshold is at least 1. */
  lemma BackpressureIsExact(cfg: Config, start: real)
    ensures (forall steps :: BackpressureAfter(cfg, start, steps)) <==> cfg.warnThreshold >= 1
  {
    if cfg.warnThreshold >= 1 {
      forall steps
        ensures BackpressureAfter(cfg, start, steps)
      {
        BackpressureHolds(cfg, start, steps);
      }
    } else {
      assert !BackpressureAfter(cfg, start, []);
    }
  }

  lemma {:induction false} CadenceHolds(cfg: Config, start: real, steps: seq<Step>)
    ensures CadenceInv(Exec(cfg, start, steps))
  {
    if |steps| > 0 {
      var init := steps[..|steps| - 1];
      CadenceHolds(cfg, start, init);
      RunIsSafe(cfg, start, init);
      CadenceStep(cfg, Exec(cfg, start, init), steps[|steps| - 1]);
    }
  }

  /** A non-zero count is below the threshold, and an idle timer is armed, or has fired and waits. */
  ghost predicate CountIsWatched(s: System) {
    s.tracker.accumulated > 0 ==>
      && s.tracker.accumulated < s.tracker.threshold
      && exists k :: 0 <= k < |s.threads| && (s.threads[k].IdleArmed? || s.threads[k].IdleDue?)
  }

  /** Every recorded change was consumed by a triggered cycle or is still counted; and, until `shutdown` drains, the
      count is watched whenever the writer lock is free, unless an exception after the recording of a batch or in a
      cycle has stranded it. */
  lemma {:induction false} CadenceStrandsNothing(cfg: Config, start: real, steps: seq<Step>)
    ensures var s := Exec(cfg, start, steps);
      && s.h.recorded == s.h.consumed + s.tracker.accumulated
      && (!s.h.stranded && !DrainBegun(s) && s.writer.None? ==> CountIsWatched(s))
  {
    CadenceHolds(cfg, start, steps);
  }

  /** A stranded count lasts only until the next batch that gets past its cycle: it leaves the count watched. */
  lemma {:induction false} NextBatchRestoresTheWatch(cfg: Config, start: real, steps: seq<Step>, t: nat)
    requires var s := Exec(cfg, start, steps);
      && !DrainBegun(s) && t < |s.threads|
      && s.threads[t].Writing? && s.threads[t].job.BatchJob? && s.threads[t].phase.Passed?
    ensures var s' := Apply(cfg, Exec(cfg, start, steps), Run(t)); !s'.h.stranded && CountIsWatched(s')
  {
    CadenceHolds(cfg, start, steps);
    RunIsSafe(cfg, start, steps);
    var s := Exec(cfg, start, steps);
    WorkCadence(s, t, s.threads[t].job, s.threads[t].phase);
  }

  /** An idle timer that reaches the writer lock with no batch recorded after it consumes whatever is counted. */
  lemma {:induction false} IdleTimerTriggers(cfg: Config, start: real, steps: seq<Step>, t: nat)
    requires var s := Exec(cfg, start, steps);
      && !s.h.stranded && !DrainBegun(s) && s.w.idleTimer == Some(t) && t < |s.threads|
      && s.threads[t].Writing? && s.threads[t].job.IdleJob? && s.threads[t].phase.Recorded?
    ensures var s := Exec(cfg, start, steps);
      s.tracker.accumulated > 0 ==>
        && ShouldTrigger(s.tracker, s.now)
        && Apply(cfg, Apply(cfg, s, Run(t)), Run(t)).tracker.accumulated == 0
  {
    CadenceHolds(cfg, start, steps);
    RunIsSafe(cfg, start, steps);
  }

  /** `steps` reaches `s`. */
  ghost predicate Reaches(cfg: Config, start: real, steps: seq<Step>, s: System) {
    Exec(cfg, start, steps) == s
  }

  lemma Extend(cfg: Config, start: real, steps: seq<Step>, s: System, step: Step)
    returns (steps': seq<Step>, s': System)
    requires Reaches(cfg, start, steps, s)
    ensures Reaches(cfg, start, steps', s') && s' == Apply(cfg, s, step)
  {
    steps', s' := steps + [step], Apply(cfg, s, step);
    assert steps'[..|steps|] == steps;
  }

  /** A debounce timer has flushed the change `c` and not yet reached the writer lock. */
  lemma Flush(cfg: Config, start: real, c: FileChange) returns (steps: seq<Step>, s: System)
    ensures Reaches(cfg, start, steps, s)
    ensures s.threads == [InHand(0)] && s.w.pending == [] && s.w.timer == s.w.idleTimer == None
    ensures s.writer.None? && s.lifecycle.Running? && s.h.accepted == [c] && s.h.compiled == {} && !s.h.raised
    ensures s.log == [[c]] && s.h.entered == [] && s.observing && !s.w.rejecting && s.h.winner.None?
    ensures s.tracker == Tracker(cfg.quiet, cfg.changeThreshold, 0, start) && s.now == start
  {
    steps, s := [], Init(cfg, start);
    steps, s := Extend(cfg, start, steps, s, Observe(c));
    assert s.threads == [Armed] && s.w.pending == [c];
    steps, s := Extend(cfg, start, steps, s, Run(0));
    assert s.threads == [Due];
    steps, s := Extend(cfg, start, steps, s, Run(0));
  }

  /** The gap is real: a run in which `persist` starts while an accepted change has been compiled by nobody. */
  lemma ShutdownCanMissABatch(cfg: Config, start: real, c: FileChange) returns (steps: seq<Step>)
    ensures var s := Exec(cfg, start, steps);
      |s.threads| == 2 && s.threads[1].Persisting? && s.h.accepted == [c] && s.h.compiled == {} && !s.h.raised
  {
    var s;
    steps, s := Flush(cfg, start, c);
    steps, s := Extend(cfg, start, steps, s, CallShutdown);
    for k := 0 to 6
      invariant Reaches(cfg, start, steps, s) && ShutsDownAlone(s, k)
      invariant s.h.accepted == [c] && s.h.compiled == {} && !s.h.raised
    {
      ShutdownAdvancesAlone(s, k);
      steps, s := Extend(cfg, start, steps, s, Run(1));
    }
  }

  const LONELY_SHUTDOWN := [Entered, Won, Rejected, ToStop, ToJoin, ToPersist, Persisting]

  /** A caller is `k` actions into `shutdown`, while a debounce thread stays in the gap. */
  ghost predicate ShutsDownAlone(s: System, k: nat) {
    && k < |LONELY_SHUTDOWN| && s.threads == [InHand(0), LONELY_SHUTDOWN[k]]
    && s.w.pending == [] && s.w.timer == s.w.idleTimer == None
    && s.writer == (if k < 6 then None else Some(1))
    && (k == 0 ==> s.lifecycle.Running?)
  }

  lemma ShutdownAdvancesAlone(s: System, k: nat)
    requires k < 6 && ShutsDownAlone(s, k)
    ensures var s' := RunStep(s, 1);
      && ShutsDownAlone(s', k + 1)
      && s'.h == s.h.(winner := s'.h.winner, persists := s'.h.persists)
  {
  }

  /** A count can be stranded: the cycle of the first batch raises. One change is counted, the writer lock is free,
      and no idle timer will come. */
  lemma RaisingCycleStrandsTheCount(cfg: Config, start: real, c: FileChange) returns (steps: seq<Step>)
    requires cfg.changeThreshold <= 1
    ensures var s := Exec(cfg, start, steps);
      && s.writer.None? && s.h.winner.None? && s.tracker.accumulated == 1 && s.h.stranded
      && s.threads == [Raised] && !CountIsWatched(s)
  {
    var s;
    steps, s := Flush(cfg, start, c);
    steps, s := Extend(cfg, start, steps, s, Run(0));
    assert s.threads == [Writing(BatchJob(0, false), Begun)];
    steps, s := Extend(cfg, start, steps, s, Run(0));
    assert s.threads == [Writing(BatchJob(0, false), Recorded)] && s.tracker.accumulated == 1;
    steps, s := Extend(cfg, start, steps, s, Run(0));
    assert s.threads == [Writing(BatchJob(0, false), Cycling)];
    steps, s := Extend(cfg, start, steps, s, Raise(0));
  }

  /** No timer flushes while another one is armed in the slot. */
  ghost predicate NoStaleFlush(cfg: Config, start: real, steps: seq<Step>) {
    forall i :: 0 <= i < |steps| ==> !StaleFlush(Exec(cfg, start, steps[..i]), steps[i])
  }

  lemma {:induction false} NoStaleFlushNoOrphan(cfg: Config, start: real, steps: seq<Step>)
    requires NoStaleFlush(cfg, start, steps)
    ensures NoOrphan(Exec(cfg, start, steps))
  {
    if |steps| > 0 {
      var init := steps[..|steps| - 1];
      forall i | 0 <= i < |init|
        ensures !StaleFlush(Exec(cfg, start, init[..i]), init[i])
      {
        assert init[..i] == steps[..i];
      }
      NoStaleFlushNoOrphan(cfg, start, init);
      RunIsSafe(cfg, start, init);
      OrphanStep(cfg, Exec(cfg, start, init), steps[|steps| - 1]);
    }
  }

  /** Without a stale flush at most one debounce timer is armed, at every moment of a run; and the first stale flush
      orphans one, which a further accepted change then leaves armed beside its own. */
  lemma {:induction false} StaleFlushesArmASecondTimer(cfg: Config, start: real, steps: seq<Step>, step: Step,
                                                       c: FileChange)
    requires NoStaleFlush(cfg, start, steps)
    ensures var s := Exec(cfg, start, steps);
      && AtMostOneArmed(s)
      && var s' := Apply(cfg, s, step);
      s'.observing && !s'.w.rejecting ==>
        (AtMostOneArmed(Apply(cfg, s', Observe(c))) <==> !StaleFlush(s, step))
  {
    NoStaleFlushNoOrphan(cfg, start, steps);
    RunIsSafe(cfg, start, steps);
    var s := Exec(cfg, start, steps);
    OrphanStep(cfg, s, step);
    SlotStep(cfg, s, step);
    if Apply(cfg, s, step).observing && !Apply(cfg, s, step).w.rejecting {
      OneArmedAfterObserve(cfg, Apply(cfg, s, step), c);
    }
  }

  /** "One live debounce timer" is not an invariant: after a timer fires, an event arrives and the fired timer
      flushes both changes, a third event leaves two timers armed. */
  lemma {:induction false} TwoDebounceTimersCanBeArmed(cfg: Config, start: real, c: FileChange)
    returns (steps: seq<Step>)
    ensures var s := Exec(cfg, start, steps);
      |s.threads| == 3 && s.threads[1].Armed? && s.threads[2].Armed? && s.w.pending == [c]
  {
    var s := Init(cfg, start);
    steps := [];
    steps, s := Extend(cfg, start, steps, s, Observe(c));
    steps, s := Extend(cfg, start, steps, s, Run(0));
    steps, s := Extend(cfg, start, steps, s, Observe(c));
    steps, s := Extend(cfg, start, steps, s, Run(0));
    assert s.threads == [InHand(0), Armed];
    steps, s := Extend(cfg, start, steps, s, Observe(c));
  }

  lemma WriterCanStep(s: System, u: nat)
    requires u < |s.threads| && Critical(s.threads[u])
    ensures RunStep(s, u).threads[u] != s.threads[u]
  {
    match s.threads[u]
    case Persisting =>
    case Writing(job, phase) =>
  }

  lemma CallerCanStep(s: System, t: nat)
    requires t < |s.threads| && ShuttingDown(s.threads[t]) && !Critical(s.threads[t])
    requires s.threads[t].Holding? || s.threads[t].ToPersist? ==> s.writer.None?
    ensures RunStep(s, t).threads[t] != s.threads[t]
  {
    match s.threads[t]
    case Won =>
    case Rejected =>
    case Holding(b) =>
    case ToStop =>
    case ToJoin =>
    case ToPersist =>
    case Persisted =>
  }

  /** While a caller is shutting the daemon down, it or the thread it waits for can always take a step. */
  lemma {:induction false} ShutdownIsNeverStuck(cfg: Config, start: real, steps: seq<Step>, t: nat) returns (u: nat)
    requires t < |Exec(cfg, start, steps).threads| && ShuttingDown(Exec(cfg, start, steps).threads[t])
    ensures var s := Exec(cfg, start, steps);
      (u == t || s.writer == Some(u)) && Apply(cfg, s, Run(u)).threads != s.threads
  {
    RunIsSafe(cfg, start, steps);
    var s := Exec(cfg, start, steps);
    if (s.threads[t].Holding? || s.threads[t].ToPersist?) && s.writer.Some? {
      u := s.writer.value;
      WriterCanStep(s, u);
    } else if Critical(s.threads[t]) {
      u := t;
      WriterCanStep(s, u);
    } else {
      u := t;
      CallerCanStep(s, u);
    }
  }
}
