/** When the slow cadence triggers, told from the steps of a run alone. */
module ProtocolTracker {
  import opened Collections
  import opened SlowCadence
  import opened Protocol
  import opened ProtocolConservation
  import opened ProtocolTimers
  import opened ProtocolRuns

  /** Thread `t` is about to record a batch, which it then does. */
  predicate Records(s: System, step: Step) {
    && step.Run? && step.thread < |s.threads|
    && s.threads[step.thread].Writing? && s.threads[step.thread].job.BatchJob? && s.threads[step.thread].phase.Begun?
  }

  /** Thread `t` completes a cycle. */
  predicate Completes(s: System, step: Step) {
    && step.Run? && step.thread < |s.threads|
    && s.threads[step.thread].Writing? && s.threads[step.thread].phase.Cycling?
  }

  /** The number of changes in the batches recorded since the last completed cycle. */
  function CountSince(cfg: Config, start: real, steps: seq<Step>): nat {
    if |steps| == 0 then 0
    else
      var before, last := Exec(cfg, start, steps[..|steps| - 1]), steps[|steps| - 1];
      if Completes(before, last) then 0
      else if !Records(before, last) then CountSince(cfg, start, steps[..|steps| - 1])
      else
        var b := before.threads[last.thread].job.batch;
        CountSince(cfg, start, steps[..|steps| - 1]) + if b < |before.log| then |before.log[b]| else 0
  }

  /** When a batch was last recorded or a cycle completed, or else when the daemon started. */
  function QuietFrom(cfg: Config, start: real, steps: seq<Step>): real {
    if |steps| == 0 then start
    else
      var before, last := Exec(cfg, start, steps[..|steps| - 1]), steps[|steps| - 1];
      if Records(before, last) || Completes(before, last) then before.now
      else QuietFrom(cfg, start, steps[..|steps| - 1])
  }

  lemma TrackerMoves(cfg: Config, s: System, step: Step)
    ensures !Records(s, step) && !Completes(s, step) ==> Apply(cfg, s, step).tracker == s.tracker
  {
    if step.Run? && step.thread < |s.threads| {
      RunTracks(s, step.thread);
    }
  }

  lemma RunTracks(s: System, t: nat)
    requires t < |s.threads|
    ensures !Records(s, Run(t)) && !Completes(s, Run(t)) ==> RunStep(s, t).tracker == s.tracker
  {
    var th := s.threads[t];
    if th.Writing? {
    } else if th.Armed? || th.Due? || th.InHand? || th.IdleArmed? || th.IdleDue? {
    } else {
    }
  }

  /** The tracker holds that count and that time. */
  lemma {:induction false} TrackerIs(cfg: Config, start: real, steps: seq<Step>)
    ensures Exec(cfg, start, steps).tracker ==
            Tracker(cfg.quiet, cfg.changeThreshold, CountSince(cfg, start, steps), QuietFrom(cfg, start, steps))
  {
    if |steps| > 0 {
      TrackerIs(cfg, start, steps[..|steps| - 1]);
      TrackerMoves(cfg, Exec(cfg, start, steps[..|steps| - 1]), steps[|steps| - 1]);
    }
  }

  /** A batch that is compiled was taken from the watcher, so its size is counted. */
  lemma {:induction false} RecordedBatchExists(cfg: Config, start: real, steps: seq<Step>, t: nat)
    requires var s := Exec(cfg, start, steps);
      t < |s.threads| && s.threads[t].Writing? && s.threads[t].job.BatchJob?
    ensures var s := Exec(cfg, start, steps); s.threads[t].job.batch < |s.log|
  {
    RunIsSafe(cfg, start, steps);
    assert Held(Exec(cfg, start, steps).threads[t]).Some?;
  }

  /** A cycle is run exactly when it is due: when a batch has been recorded, or the idle timer has come, the thread goes
      into a cycle if and only if the changes recorded since the last completed cycle have reached the threshold, or the
      quiet time has passed since the last recorded batch or completed cycle. */
  lemma {:induction false} CyclesExactlyWhenDue(cfg: Config, start: real, steps: seq<Step>, t: nat)
    requires var s := Exec(cfg, start, steps);
      t < |s.threads| && s.threads[t].Writing? && s.threads[t].phase.Recorded?
    ensures var s := Exec(cfg, start, steps);
      var due := CountSince(cfg, start, steps) >= cfg.changeThreshold
                 || s.now - QuietFrom(cfg, start, steps) >= cfg.quiet;
      Apply(cfg, s, Run(t)).threads[t] == Writing(s.threads[t].job, if due then Cycling else Passed(false))
  {
    TrackerIs(cfg, start, steps);
  }

  /** A batch below both bounds consumes nothing, and arms the idle timer for one quiet time from then. */
  lemma {:induction false} BatchBelowBoundsWaits(cfg: Config, start: real, steps: seq<Step>, t: nat)
    requires var s := Exec(cfg, start, steps);
      && t < |s.threads| && s.threads[t].Writing? && s.threads[t].job.BatchJob? && s.threads[t].phase.Recorded?
      && CountSince(cfg, start, steps) < cfg.changeThreshold
      && s.now - QuietFrom(cfg, start, steps) < cfg.quiet
    ensures var s := Exec(cfg, start, steps);
      var s' := Apply(cfg, Apply(cfg, s, Run(t)), Run(t));
      && s'.h.consumed == s.h.consumed && s'.tracker.accumulated == CountSince(cfg, start, steps)
      && s'.w.idleTimer == Some(|s.threads|)
      && |s'.threads| == |s.threads| + 1 && s'.threads[|s.threads|] == IdleArmed(s.now + cfg.quiet)
  {
    TrackerIs(cfg, start, steps);
  }

  /** A batch whose cycle completed leaves no idle timer armed, so that no second cycle follows it by itself. */
  lemma {:induction false} TriggeredBatchDisarms(cfg: Config, start: real, steps: seq<Step>, t: nat)
    requires var s := Exec(cfg, start, steps);
      t < |s.threads| && s.threads[t].Writing? && s.threads[t].job.BatchJob? && s.threads[t].phase == Passed(true)
    ensures var s' := Apply(cfg, Exec(cfg, start, steps), Run(t));
      && s'.threads[t] == Writing(Exec(cfg, start, steps).threads[t].job, Leaving) && s'.w.idleTimer.None?
      && forall k :: 0 <= k < |s'.threads| ==> !s'.threads[k].IdleArmed?
  {
    RunIsSafe(cfg, start, steps);
    SettledDisarms(Exec(cfg, start, steps), t);
  }

  lemma SettledDisarms(s: System, t: nat)
    requires SlotInv(s) && t < |s.threads|
    requires s.threads[t].Writing? && s.threads[t].job.BatchJob? && s.threads[t].phase == Passed(true)
    ensures var s' := RunStep(s, t);
      && s'.threads[t] == Writing(s.threads[t].job, Leaving) && s'.w.idleTimer.None?
      && forall k :: 0 <= k < |s'.threads| ==> !s'.threads[k].IdleArmed?
  {
  }
}
