/** The slow cadence strands nothing: recorded changes are consumed by a cycle or watched by an idle timer. */
module ProtocolCadence {
  import opened Collections
  import opened Batching
  import opened Protocol
  import opened ProtocolLocks
  import opened ProtocolShutdown
  import opened ProtocolTimers

  /** `shutdown` has drained the watcher, which cancels the idle timer. */
  ghost predicate DrainBegun(s: System) {
    && s.h.winner.Some? && s.h.winner.value < |s.threads|
    && !s.threads[s.h.winner.value].Won? && !s.threads[s.h.winner.value].Rejected?
  }

  /** The idle timer in the slot is armed, or has fired and waits for the writer lock, and is not due
      before the quiet time that follows the last batch. */
  ghost predicate Covered(s: System) {
    && s.w.idleTimer.Some? && s.w.idleTimer.value < |s.threads|
    && var th := s.threads[s.w.idleTimer.value];
    && (th.IdleArmed? || th.IdleDue?) && th.deadline >= s.tracker.lastBatchAt + s.tracker.quiet
  }

  /** What holds whenever nobody is between recording a batch and settling the idle timer. */
  ghost predicate Steady(s: System) {
    s.h.stranded || (s.tracker.accumulated > 0 ==> s.tracker.accumulated < s.tracker.threshold && Covered(s))
  }

  /** The idle timer whose cycle thread `t` is running is the one in the slot: no batch came after it. */
  ghost predicate OwnTurn(s: System, t: nat, deadline: real) {
    s.w.idleTimer == Some(t) && deadline >= s.tracker.lastBatchAt + s.tracker.quiet
  }

  ghost predicate JobInv(s: System, t: nat, job: Job, phase: Phase) {
    match phase
    case Begun => job.BatchJob? && Steady(s)
    case Recorded =>
      job.IdleJob? ==>
        && s.now >= job.deadline
        && (s.h.stranded ||
            (s.tracker.accumulated > 0 ==>
               s.tracker.accumulated < s.tracker.threshold && (Covered(s) || OwnTurn(s, t, job.deadline))))
    case Cycling => true
    case Passed(triggered) =>
      if triggered then s.tracker.accumulated == 0
      else s.tracker.accumulated < s.tracker.threshold && (job.IdleJob? ==> Steady(s))
    case Leaving => Steady(s)
  }

  ghost predicate PhaseInv(s: System) {
    match s.writer
    case None => Steady(s)
    case Some(t) =>
      t < |s.threads| && (s.threads[t].Writing? ==> JobInv(s, t, s.threads[t].job, s.threads[t].phase))
  }

  /** The clock and the accounts, which no thread can disturb. */
  ghost predicate Accounts(s: System) {
    && s.now >= s.tracker.lastBatchAt
    && s.h.recorded == s.h.consumed + s.tracker.accumulated
  }

  ghost predicate CadenceInv(s: System) {
    && Accounts(s)
    && DueInv(s)
    && (!DrainBegun(s) ==> PhaseInv(s))
  }

  lemma WorkCadence(s: System, t: nat, job: Job, phase: Phase)
    requires CadenceInv(s) && LockInv(s) && SlotInv(s) && PhaseInv(s)
    requires t < |s.threads| && s.threads[t] == Writing(job, phase)
    ensures PhaseInv(WorkStep(s, t, job, phase))
  {
    match phase
    case Begun =>
    case Recorded =>
    case Cycling =>
    case Passed(triggered) =>
    case Leaving =>
  }

  lemma AcquireCadence(s: System, t: nat)
    requires CadenceInv(s) && PhaseInv(s) && s.writer.None?
    requires t < |s.threads| && (s.threads[t].InHand? || s.threads[t].IdleDue?)
    ensures PhaseInv(RunStep(s, t))
  {
  }

  /** Steps away from the writer lock: they move no idle timer except to let an armed one fire. */
  ghost predicate Aside(s: System, s': System, t: nat) {
    && |s'.threads| == |s.threads|
    && (forall u :: 0 <= u < |s.threads| && u != t ==> s'.threads[u] == s.threads[u])
    && s'.writer == s.writer && s.writer != Some(t)
    && s'.tracker == s.tracker && s'.h.stranded == s.h.stranded && s'.w.idleTimer == s.w.idleTimer && s'.now >= s.now
    && (t < |s.threads| && s'.threads[t] != s.threads[t] && (s.threads[t].IdleArmed? || s.threads[t].IdleDue?) ==>
          s'.threads[t] == IdleDue(s.threads[t].deadline))
  }

  lemma PhaseKept(s: System, s': System, t: nat)
    requires PhaseInv(s) && Aside(s, s', t)
    ensures PhaseInv(s')
  {
  }

  lemma PlainAside(s: System, t: nat)
    requires LockInv(s) && t < |s.threads| && !s.threads[t].Writing?
    requires ShuttingDown(s.threads[t]) ==> s.threads[t].Won?
    requires s.writer.None? ==> !s.threads[t].InHand? && !s.threads[t].IdleDue?
    ensures Aside(s, RunStep(s, t), t)
  {
    match s.threads[t]
    case Armed =>
    case Due =>
    case InHand(b) =>
    case IdleArmed(d) =>
    case IdleDue(d) =>
    case Entered =>
    case Won =>
    case _ =>
  }

  lemma {:induction false} RunCadence(s: System, t: nat)
    requires CadenceInv(s) && LockInv(s) && SlotInv(s) && ShutdownInv(s) && PhaseInv(s) && t < |s.threads|
    requires ShuttingDown(s.threads[t]) ==> s.threads[t].Won? || s.threads[t].Writing?
    ensures PhaseInv(RunStep(s, t))
  {
    if s.threads[t].Writing? {
      WorkCadence(s, t, s.threads[t].job, s.threads[t].phase);
    } else if s.writer.None? && (s.threads[t].InHand? || s.threads[t].IdleDue?) {
      AcquireCadence(s, t);
    } else {
      PlainAside(s, t);
      PhaseKept(s, RunStep(s, t), t);
    }
  }

  lemma {:induction false} DrainStays(cfg: Config, s: System, step: Step)
    requires ShutdownInv(s) && DrainBegun(s)
    ensures DrainBegun(Apply(cfg, s, step))
  {
    Moves(cfg, s, step);
    var t := Actor(s, step);
    if step.Run? && t < |s.threads| {
      if ShuttingDown(s.threads[t]) {
        WinnerSettles(s, t);
        DrainPassed(s, t);
      } else if s.h.winner != Some(t) {
        OthersStandBy(s, t);
      }
    }
  }

  lemma DrainPassed(s: System, t: nat)
    requires t < |s.threads| && ShuttingDown(s.threads[t]) && !s.threads[t].Won?
    ensures !RunStep(s, t).threads[t].Won? && !RunStep(s, t).threads[t].Rejected?
  {
    match s.threads[t]
    case Writing(job, phase) =>
    case Rejected =>
    case Holding(b) =>
    case _ =>
  }

  lemma DueRun(s: System, t: nat)
    requires t < |s.threads|
    ensures RunStep(s, t).now == s.now
    ensures var th := RunStep(s, t).threads[t];
      th.IdleDue? ==> th == s.threads[t] || th.deadline <= s.now
  {
    match s.threads[t]
    case Writing(job, phase) =>
    case Due =>
    case InHand(b) =>
    case Rejected =>
    case _ =>
  }

  lemma {:induction false} AccountsRun(s: System, t: nat)
    requires t < |s.threads| && Accounts(s)
    ensures Accounts(RunStep(s, t))
  {
    if s.threads[t].Writing? {
      AccountsWork(s, t, s.threads[t].job, s.threads[t].phase);
    } else {
      NothingRecorded(s, t);
    }
  }

  lemma AccountsWork(s: System, t: nat, job: Job, phase: Phase)
    requires t < |s.threads| && Accounts(s)
    ensures Accounts(WorkStep(s, t, job, phase))
  {
  }

  lemma NothingRecorded(s: System, t: nat)
    requires t < |s.threads| && !s.threads[t].Writing?
    ensures var s' := RunStep(s, t);
      s'.tracker == s.tracker && s'.now == s.now && s'.h.recorded == s.h.recorded && s'.h.consumed == s.h.consumed
  {
    var th := s.threads[t];
    if th.Armed? || th.Due? || th.InHand? || th.IdleArmed? || th.IdleDue? {
    } else if th.Rejected? || th.ToStop? || th.Holding? || th.ToPersist? {
    } else {
    }
  }

  ghost predicate DueInv(s: System) {
    forall k :: 0 <= k < |s.threads| && s.threads[k].IdleDue? ==> s.now >= s.threads[k].deadline
  }

  lemma {:induction false} AccountsStep(cfg: Config, s: System, step: Step)
    requires Accounts(s) && DueInv(s)
    ensures Accounts(Apply(cfg, s, step)) && DueInv(Apply(cfg, s, step))
  {
    Moves(cfg, s, step);
    if step.Run? && step.thread < |s.threads| {
      AccountsRun(s, step.thread);
      DueRun(s, step.thread);
    }
  }

  lemma ObserveCadence(cfg: Config, s: System, c: FileChange)
    requires PhaseInv(s) && SlotInv(s)
    ensures PhaseInv(Apply(cfg, s, Observe(c)))
  {
  }

  lemma {:induction false} PhaseStep(cfg: Config, s: System, step: Step)
    requires CadenceInv(s) && LockInv(s) && SlotInv(s) && ShutdownInv(s)
    requires !DrainBegun(s)
    ensures var s' := Apply(cfg, s, step); DrainBegun(s') || PhaseInv(s')
  {
    var t := Actor(s, step);
    if step.Observe? {
      ObserveCadence(cfg, s, step.change);
    } else if step.Run? && t < |s.threads| {
      if s.threads[t].Rejected? {
        WinnerSettles(s, t);
        DrainPassed(s, t);
        RunMoves(s, t);
      } else {
        RunCadence(s, t);
      }
    } else if step.Raise? && t < |s.threads| {
      RaiseCadence(s, t);
    }
  }

  /** An exception before the batch is recorded disturbs nothing, and a later one is noted. */
  lemma RaiseCadence(s: System, t: nat)
    requires CadenceInv(s) && LockInv(s) && ShutdownInv(s) && PhaseInv(s) && !DrainBegun(s) && t < |s.threads|
    ensures PhaseInv(RaiseStep(s, t))
  {
    assert !s.threads[t].Persisting?;
  }

  lemma {:induction false} CadenceStep(cfg: Config, s: System, step: Step)
    requires CadenceInv(s) && LockInv(s) && SlotInv(s) && ShutdownInv(s)
    ensures CadenceInv(Apply(cfg, s, step))
  {
    AccountsStep(cfg, s, step);
    if DrainBegun(s) {
      DrainStays(cfg, s, step);
    } else {
      PhaseStep(cfg, s, step);
    }
  }
}
