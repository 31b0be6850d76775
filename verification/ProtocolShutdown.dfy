/** What the one caller that shuts the daemon down has settled at each point of `shutdown`. */
module ProtocolShutdown {
  import opened Collections
  import opened Protocol
  import opened ProtocolLocks

  /** The caller that won `RUNNING -> STOPPING` and has not returned. */
  predicate ShuttingDown(th: Thread) {
    || th.Won? || th.Rejected? || th.Holding? || th.ToStop? || th.ToJoin? || th.ToPersist?
    || th.Persisting? || th.Persisted? || (th.Writing? && th.job.BatchJob? && th.job.drained)
  }

  /** What is settled once the winning caller is at `th`. */
  ghost predicate SettledAt(s: System, th: Thread) {
    && (ShuttingDown(th) || th.Over? || th.Raised?)
    && (!th.Won? ==> s.w.rejecting)
    && (!th.Won? && !th.Rejected? ==> s.w.pending == [] && s.w.timer == None)
    && (th.ToPersist? || th.Persisting? || th.Persisted? || th.Over? ==> !s.observing)
    && (if th.Persisting? || th.Persisted? || th.Over? then s.h.persists == 1
        else if th.Raised? then s.h.persists <= 1 else s.h.persists == 0)
    && (s.lifecycle.Stopped? <==> th.Over?)
  }

  ghost predicate ShutdownInv(s: System) {
    && (s.lifecycle.Running? <==> s.h.winner.None?)
    && (forall t :: 0 <= t < |s.threads| && ShuttingDown(s.threads[t]) ==> s.h.winner == Some(t))
    && (s.h.winner.None? ==> !s.w.rejecting && s.h.persists == 0)
    && (s.h.winner.Some? ==>
          s.h.winner.value < |s.threads| && SettledAt(s, s.threads[s.h.winner.value]))
  }

  /** A step by a thread that is not the winning caller leaves what the winner relies on alone. */
  ghost predicate Bystander(s: System, s': System) {
    && s'.lifecycle == s.lifecycle
    && s'.h.winner == s.h.winner
    && s'.h.persists == s.h.persists
    && s'.w.rejecting == s.w.rejecting
    && s'.observing == s.observing
    && (s.w.pending == [] && s.w.rejecting ==> s'.w.pending == [])
    && (s.w.timer == None && s.w.rejecting ==> s'.w.timer == None)
  }

  lemma ShutdownKept(s: System, s': System, t: nat)
    requires ShutdownInv(s) && Moved(s.threads, s'.threads, t)
    requires Bystander(s, s')
    requires t < |s.threads| ==> !ShuttingDown(s'.threads[t]) && s.h.winner != Some(t)
    ensures ShutdownInv(s')
  {
  }

  lemma ShutdownAdvanced(s: System, s': System, t: nat)
    requires ShutdownInv(s) && Moved(s.threads, s'.threads, t) && t < |s.threads|
    requires s.h.winner in {None, Some(t)} && s'.h.winner == Some(t) && !s'.lifecycle.Running?
    requires SettledAt(s', s'.threads[t])
    ensures ShutdownInv(s')
  {
  }

  lemma WinnerSettles(s: System, t: nat)
    requires ShutdownInv(s) && t < |s.threads| && ShuttingDown(s.threads[t])
    ensures var s' := RunStep(s, t);
      s'.h.winner == Some(t) && !s'.lifecycle.Running? && SettledAt(s', s'.threads[t])
  {
    var th := s.threads[t];
    if th.Writing? {
      WinnerCompiles(s, t, th.job, th.phase);
    } else if th.Rejected? {
      WinnerDrains(s, t);
    } else if th.Holding? || th.ToStop? {
    } else {
    }
  }

  lemma WinnerDrains(s: System, t: nat)
    requires ShutdownInv(s) && t < |s.threads| && s.threads[t].Rejected?
    ensures var s' := DrainStep(s, t);
      s'.h.winner == Some(t) && !s'.lifecycle.Running? && SettledAt(s', s'.threads[t])
  {
  }

  lemma WinnerCompiles(s: System, t: nat, job: Job, phase: Phase)
    requires ShutdownInv(s) && t < |s.threads| && s.threads[t] == Writing(job, phase) && ShuttingDown(s.threads[t])
    ensures var s' := WorkStep(s, t, job, phase);
      s'.h.winner == Some(t) && !s'.lifecycle.Running? && SettledAt(s', s'.threads[t])
  {
  }

  lemma OthersStandBy(s: System, t: nat)
    requires t < |s.threads| && !ShuttingDown(s.threads[t]) && !(s.threads[t].Entered? && s.lifecycle.Running?)
    ensures var s' := RunStep(s, t); Bystander(s, s') && !ShuttingDown(s'.threads[t])
  {
    var th := s.threads[t];
    if th.Writing? {
      OthersCompile(s, t, th.job, th.phase);
    } else if th.Due? || th.InHand? || th.IdleDue? {
    } else {
    }
  }

  lemma OthersCompile(s: System, t: nat, job: Job, phase: Phase)
    requires t < |s.threads| && !(job.BatchJob? && job.drained)
    ensures var s' := WorkStep(s, t, job, phase); Bystander(s, s') && !ShuttingDown(s'.threads[t])
  {
  }

  lemma {:induction false} ShutdownRun(s: System, t: nat)
    requires ShutdownInv(s) && t < |s.threads|
    ensures ShutdownInv(RunStep(s, t))
  {
    RunMoves(s, t);
    if ShuttingDown(s.threads[t]) {
      WinnerSettles(s, t);
      ShutdownAdvanced(s, RunStep(s, t), t);
    } else if s.threads[t].Entered? && s.lifecycle.Running? {
      ShutdownAdvanced(s, RunStep(s, t), t);
    } else if s.h.winner != Some(t) {
      OthersStandBy(s, t);
      ShutdownKept(s, RunStep(s, t), t);
    }
  }

  lemma {:induction false} ShutdownInvStep(cfg: Config, s: System, step: Step)
    requires ShutdownInv(s)
    ensures ShutdownInv(Apply(cfg, s, step))
  {
    Moves(cfg, s, step);
    var t, s' := Actor(s, step), Apply(cfg, s, step);
    if t < |s.threads| && step.Run? {
      ShutdownRun(s, t);
    } else if t < |s.threads| && ShuttingDown(s.threads[t]) {
      ShutdownAdvanced(s, s', t);
    } else if s.h.winner != Some(t) {
      ShutdownKept(s, s', t);
    }
  }
}
