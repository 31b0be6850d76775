/** How long the threads can go on: each step that does something uses up work, and only accepted changes and calls
    of `shutdown` bring more. */
module ProtocolBound {
  import opened Collections
  import opened Protocol

  /** How many steps a job has still to take, those of the idle timer that it may leave behind included. */
  function JobSteps(job: Job, phase: Phase): nat {
    var after := if job.BatchJob? && job.drained then 5 else 0;
    var timer := if job.BatchJob? then 7 else 0;
    match phase
    case Begun => after + timer + 5
    case Recorded => after + timer + 4
    case Cycling => after + timer + 3
    case Passed(_) => after + timer + 2
    case Leaving => after + 1
  }

  function StepsLeft(th: Thread): nat {
    match th
    case Armed => 15
    case Due => 14
    case InHand(_) => 13
    case IdleArmed(_) => 7
    case IdleDue(_) => 6
    case Writing(job, phase) => JobSteps(job, phase)
    case Entered => 21
    case Won => 20
    case Rejected => 19
    case Holding(_) => 18
    case ToStop => 5
    case ToJoin => 4
    case ToPersist => 3
    case Persisting => 2
    case Persisted => 1
    case _ => 0
  }

  function Work(threads: seq<Thread>): nat {
    if |threads| == 0 then 0 else Work(threads[..|threads| - 1]) + StepsLeft(threads[|threads| - 1])
  }

  lemma {:induction false} WorkOfUpdate(threads: seq<Thread>, t: nat, th: Thread)
    requires t < |threads|
    ensures Work(threads[t := th]) == Work(threads) - StepsLeft(threads[t]) + StepsLeft(th)
  {
    var n := |threads| - 1;
    if t < n {
      WorkOfUpdate(threads[..n], t, th);
      assert threads[t := th][..n] == threads[..n][t := th];
    } else {
      assert threads[t := th][..n] == threads[..n];
    }
  }

  lemma WorkOfNew(threads: seq<Thread>, th: Thread)
    ensures Work(threads + [th]) == Work(threads) + StepsLeft(th)
  {
    assert (threads + [th])[..|threads|] == threads;
  }

  lemma CancelSavesWork(threads: seq<Thread>, timer: Option<nat>)
    ensures Work(Cancel(threads, timer)) <= Work(threads)
  {
    if timer.Some? && timer.value < |threads| {
      WorkOfUpdate(threads, timer.value, Cancelled);
    }
  }

  /** Cancelling leaves thread `t`, which is no waiting timer, where it is. */
  lemma CancelThenGo(s: System, t: nat, th: Thread)
    requires t < |s.threads| && !s.threads[t].Armed? && !s.threads[t].IdleArmed?
    ensures Work(CancelBoth(s)[t := th]) <= Work(s.threads) - StepsLeft(s.threads[t]) + StepsLeft(th)
    ensures Work(Cancel(s.threads, s.w.idleTimer)[t := th]) <= Work(s.threads) - StepsLeft(s.threads[t]) + StepsLeft(th)
  {
    CancelSavesWork(s.threads, s.w.timer);
    CancelSavesWork(s.threads, s.w.idleTimer);
    CancelSavesWork(Cancel(s.threads, s.w.timer), s.w.idleTimer);
    WorkOfUpdate(CancelBoth(s), t, th);
    WorkOfUpdate(Cancel(s.threads, s.w.idleTimer), t, th);
  }

  lemma WorkUsed(s: System, t: nat, job: Job, phase: Phase)
    requires t < |s.threads| && s.threads[t] == Writing(job, phase)
    ensures Work(WorkStep(s, t, job, phase).threads) < Work(s.threads)
  {
    if phase.Passed? && job.BatchJob? {
      SettlingUsesWork(s, t, job, phase);
    } else {
      JobGoesOn(s, t, job, phase);
      WorkOfUpdate(s.threads, t, WorkStep(s, t, job, phase).threads[t]);
    }
  }

  lemma SettlingUsesWork(s: System, t: nat, job: Job, phase: Phase)
    requires t < |s.threads| && s.threads[t] == Writing(job, phase) && phase.Passed? && job.BatchJob?
    ensures Work(SettleStep(s, t, job, phase.triggered).threads) < Work(s.threads)
  {
    CancelThenGo(s, t, Writing(job, Leaving));
    WorkOfNew(Cancel(s.threads, s.w.idleTimer)[t := Writing(job, Leaving)], IdleArmed(s.now + s.tracker.quiet));
  }

  lemma JobGoesOn(s: System, t: nat, job: Job, phase: Phase)
    requires t < |s.threads| && s.threads[t] == Writing(job, phase) && !(phase.Passed? && job.BatchJob?)
    ensures var s' := WorkStep(s, t, job, phase);
      s'.threads == s.threads[t := s'.threads[t]] && StepsLeft(s'.threads[t]) < StepsLeft(s.threads[t])
  {
  }

  lemma ShutdownUsesWork(s: System, t: nat)
    requires t < |s.threads|
    ensures ShutdownStep(s, t) == s || Work(ShutdownStep(s, t).threads) < Work(s.threads)
  {
    var s' := ShutdownStep(s, t);
    if s.threads[t].Rejected? || s.threads[t].ToStop? {
      CancelsTimers(s, t);
      CancelThenGo(s, t, s'.threads[t]);
    } else {
      GoesAlone(s, t);
      WorkOfUpdate(s.threads, t, s'.threads[t]);
    }
  }

  lemma CancelsTimers(s: System, t: nat)
    requires t < |s.threads| && (s.threads[t].Rejected? || s.threads[t].ToStop?)
    ensures var s' := ShutdownStep(s, t);
      s'.threads == CancelBoth(s)[t := s'.threads[t]] && StepsLeft(s'.threads[t]) < StepsLeft(s.threads[t])
  {
  }

  lemma GoesAlone(s: System, t: nat)
    requires t < |s.threads| && !s.threads[t].Rejected? && !s.threads[t].ToStop?
    ensures var s' := ShutdownStep(s, t);
      s' == s || (s'.threads == s.threads[t := s'.threads[t]] && StepsLeft(s'.threads[t]) < StepsLeft(s.threads[t]))
  {
    var th := s.threads[t];
    if th.Entered? || th.Won? || th.Holding? {
    } else {
    }
  }

  lemma RunUsesWork(s: System, t: nat)
    requires t < |s.threads|
    ensures RunStep(s, t) == s || Work(RunStep(s, t).threads) < Work(s.threads)
  {
    var th, s' := s.threads[t], RunStep(s, t);
    if th.Writing? {
      WorkUsed(s, t, th.job, th.phase);
    } else if th.Armed? || th.Due? || th.InHand? || th.IdleArmed? || th.IdleDue? {
      WorkOfUpdate(s.threads, t, s'.threads[t]);
    } else {
      ShutdownUsesWork(s, t);
    }
  }

  lemma RaiseUsesWork(s: System, t: nat)
    requires t < |s.threads|
    ensures RaiseStep(s, t) == s || Work(RaiseStep(s, t).threads) < Work(s.threads)
  {
    WorkOfUpdate(s.threads, t, Raised);
  }

  /** A thread did something. */
  predicate Effective(cfg: Config, s: System, step: Step) {
    (step.Run? || step.Raise?) && Apply(cfg, s, step) != s
  }

  function EffectiveSteps(cfg: Config, start: real, steps: seq<Step>): nat {
    if |steps| == 0 then 0
    else
      var init, last := steps[..|steps| - 1], steps[|steps| - 1];
      EffectiveSteps(cfg, start, init) + if Effective(cfg, Exec(cfg, start, init), last) then 1 else 0
  }

  function Calls(steps: seq<Step>): nat {
    if |steps| == 0 then 0 else Calls(steps[..|steps| - 1]) + if steps[|steps| - 1].CallShutdown? then 1 else 0
  }

  lemma {:induction false} StepUsesWork(cfg: Config, s: System, step: Step)
    ensures var s' := Apply(cfg, s, step);
      && |s.h.accepted| <= |s'.h.accepted|
      && Work(s'.threads) + (if Effective(cfg, s, step) then 1 else 0) <=
         Work(s.threads) + 15 * (|s'.h.accepted| - |s.h.accepted|) + if step.CallShutdown? then 21 else 0
  {
    if step.Observe? {
      CancelSavesWork(s.threads, s.w.timer);
      WorkOfNew(Cancel(s.threads, s.w.timer), Armed);
    } else if step.CallShutdown? {
      WorkOfNew(s.threads, Entered);
    } else if step.Run? && step.thread < |s.threads| {
      RunUsesWork(s, step.thread);
      RunAcceptsNothing(s, step.thread);
    } else if step.Raise? && step.thread < |s.threads| {
      RaiseUsesWork(s, step.thread);
    }
  }

  lemma RunAcceptsNothing(s: System, t: nat)
    requires t < |s.threads|
    ensures RunStep(s, t).h.accepted == s.h.accepted && (s.w.rejecting ==> RunStep(s, t).w.rejecting)
  {
    var th := s.threads[t];
    if th.Writing? {
    } else if th.Armed? || th.Due? || th.InHand? || th.IdleArmed? || th.IdleDue? {
    } else {
    }
  }

  /** From any moment of a run on, the steps in which a thread does something are bounded by the work that there was,
      15 for each change accepted since and 21 for each call of `shutdown` since. */
  lemma {:induction false} ThreadsComeToRest(cfg: Config, start: real, steps: seq<Step>, n: nat)
    requires n <= |steps|
    ensures var before, now := Exec(cfg, start, steps[..n]), Exec(cfg, start, steps);
      && |before.h.accepted| <= |now.h.accepted| && Calls(steps[..n]) <= Calls(steps)
      && EffectiveSteps(cfg, start, steps) - EffectiveSteps(cfg, start, steps[..n]) + Work(now.threads) <=
         Work(before.threads) + 15 * (|now.h.accepted| - |before.h.accepted|) + 21 * (Calls(steps) - Calls(steps[..n]))
    decreases |steps|
  {
    if n == |steps| {
      assert steps[..n] == steps;
    } else {
      var init := steps[..|steps| - 1];
      assert init[..n] == steps[..n];
      ThreadsComeToRest(cfg, start, init, n);
      StepUsesWork(cfg, Exec(cfg, start, init), steps[|steps| - 1]);
    }
  }

  /** Once the watcher rejects events it accepts no more, so from there on the bound is the work that is left and what
      further calls bring. With `ShutdownIsNeverStuck`, a scheduler that lets threads go on brings a shutdown to its
      end. */
  lemma {:induction false} RejectingAcceptsNothing(cfg: Config, start: real, steps: seq<Step>, n: nat)
    requires n <= |steps| && Exec(cfg, start, steps[..n]).w.rejecting
    ensures var before, now := Exec(cfg, start, steps[..n]), Exec(cfg, start, steps);
      && now.w.rejecting && now.h.accepted == before.h.accepted
      && EffectiveSteps(cfg, start, steps) - EffectiveSteps(cfg, start, steps[..n]) + Work(now.threads) <=
         Work(before.threads) + 21 * (Calls(steps) - Calls(steps[..n]))
    decreases |steps|
  {
    ThreadsComeToRest(cfg, start, steps, n);
    if n == |steps| {
      assert steps[..n] == steps;
    } else {
      var init, last := steps[..|steps| - 1], steps[|steps| - 1];
      assert init[..n] == steps[..n];
      RejectingAcceptsNothing(cfg, start, init, n);
      var s := Exec(cfg, start, init);
      if last.Run? && last.thread < |s.threads| {
        RunAcceptsNothing(s, last.thread);
      }
    }
  }
}
