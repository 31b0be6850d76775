/** The order in which batches reach the compiler. `threading.Lock` hands the writer lock to any thread that waits
    for it, so a batch can be overtaken on its way from the watcher. */
module ProtocolOrder {
  import opened Collections
  import opened Batching
  import opened Protocol
  import opened ProtocolLocks
  import opened ProtocolConservation
  import opened ProtocolRuns

  /** The batch that a thread is bringing to the writer lock. */
  function Bringing(th: Thread): Option<nat> {
    match th
    case InHand(b) => Some(b)
    case Holding(b) => Some(b)
    case _ => None
  }

  function Elements(s: seq<nat>): (r: set<nat>)
    ensures forall b :: b in r <==> b in s
  {
    set b | b in s
  }

  /** Each batch has been given the writer lock once, or is being brought there by one thread. */
  ghost predicate EntryInv(s: System) {
    && Distinct(s.h.entered)
    && Ledger(Bringing, s.threads, |s.log|, Elements(s.h.entered))
  }

  /** What one step of thread `t` may do: take everything pending, enter with its batch, or neither. */
  ghost predicate EntryTurn(s: System, s': System, t: nat)
    requires t < |s.threads| <= |s'.threads|
  {
    var x, y := Bringing(s.threads[t]), Bringing(s'.threads[t]);
    if x.None? && y.Some? then y == Some(|s.log|) && |s'.log| == |s.log| + 1 && s'.h.entered == s.h.entered
    else
      && |s'.log| == |s.log|
      && if x.Some? && y.None? then s'.h.entered == s.h.entered + [x.value]
         else x == y && s'.h.entered == s.h.entered
  }

  lemma EntryKept(s: System, s': System, t: nat)
    requires EntryInv(s) && Moved(s.threads, s'.threads, t) && t < |s.threads| && EntryTurn(s, s', t)
    ensures EntryInv(s')
  {
    var entered := Elements(s.h.entered);
    var x, y := Bringing(s.threads[t]), Bringing(s'.threads[t]);
    if x.None? && y.Some? {
      LedgerTaken(Bringing, s.threads, s'.threads, t, |s.log|, entered);
    } else if x.Some? && y.None? {
      LedgerSettled(Bringing, s.threads, s'.threads, t, |s.log|, entered);
      assert x.value !in entered;
      assert Elements(s'.h.entered) == entered + {x.value};
    } else {
      LedgerKept(Bringing, s.threads, s'.threads, t, |s.log|, entered);
    }
  }

  lemma EntryWork(s: System, t: nat, job: Job, phase: Phase)
    requires t < |s.threads| && s.threads[t] == Writing(job, phase)
    ensures |s.threads| <= |WorkStep(s, t, job, phase).threads| && EntryTurn(s, WorkStep(s, t, job, phase), t)
  {
  }

  lemma EntryShutdown(s: System, t: nat)
    requires t < |s.threads|
    ensures |s.threads| <= |ShutdownStep(s, t).threads| && EntryTurn(s, ShutdownStep(s, t), t)
  {
    var th := s.threads[t];
    if th.Rejected? || th.Holding? {
    } else if th.ToStop? || th.ToPersist? {
    } else {
    }
  }

  lemma EntryRun(s: System, t: nat)
    requires t < |s.threads|
    ensures |s.threads| <= |RunStep(s, t).threads| && EntryTurn(s, RunStep(s, t), t)
  {
    var th := s.threads[t];
    if th.Writing? {
      EntryWork(s, t, th.job, th.phase);
    } else if th.Armed? || th.Due? || th.InHand? || th.IdleArmed? || th.IdleDue? {
    } else {
      EntryShutdown(s, t);
    }
  }

  lemma EntryRaise(s: System, t: nat)
    requires t < |s.threads|
    ensures |s.threads| <= |RaiseStep(s, t).threads| && EntryTurn(s, RaiseStep(s, t), t)
  {
  }

  lemma EntryOutside(cfg: Config, s: System, step: Step)
    requires Actor(s, step) >= |s.threads|
    ensures var s' := Apply(cfg, s, step); s'.log == s.log && s'.h.entered == s.h.entered
  {
  }

  lemma {:induction false} EntryStep(cfg: Config, s: System, step: Step)
    requires EntryInv(s)
    ensures EntryInv(Apply(cfg, s, step))
  {
    Moves(cfg, s, step);
    var t, s' := Actor(s, step), Apply(cfg, s, step);
    if t < |s.threads| {
      if step.Run? {
        EntryRun(s, t);
      } else {
        EntryRaise(s, t);
      }
      EntryKept(s, s', t);
    } else {
      EntryOutside(cfg, s, step);
      LedgerKept(Bringing, s.threads, s'.threads, t, |s.log|, Elements(s.h.entered));
    }
  }

  lemma {:induction false} EntryHolds(cfg: Config, start: real, steps: seq<Step>)
    ensures EntryInv(Exec(cfg, start, steps))
  {
    if |steps| > 0 {
      EntryHolds(cfg, start, steps[..|steps| - 1]);
      EntryStep(cfg, Exec(cfg, start, steps[..|steps| - 1]), steps[|steps| - 1]);
    }
  }

  /** While nobody holds the writer lock, a batch that is not settled is on its way there. */
  lemma {:induction false} UnsettledIsOnItsWay(cfg: Config, start: real, steps: seq<Step>, b: nat)
    requires var s := Exec(cfg, start, steps); s.writer.None? && b < |s.log| && b !in s.h.compiled + s.h.failed
    ensures var s := Exec(cfg, start, steps);
      exists t :: 0 <= t < |s.threads| && Bringing(s.threads[t]) == Some(b)
  {
    RunIsSafe(cfg, start, steps);
    var s := Exec(cfg, start, steps);
    var t :| 0 <= t < |s.threads| && Held(s.threads[t]) == Some(b);
    assert !Critical(s.threads[t]);
    assert Bringing(s.threads[t]) == Some(b);
  }

  ghost predicate InLogOrder(entered: seq<nat>) {
    forall i :: 0 <= i < |entered| ==> entered[i] == i
  }

  /** A thread takes the writer lock with a batch while another is bringing an earlier one. */
  ghost predicate Overtakes(s: System, step: Step) {
    && step.Run? && step.thread < |s.threads| && s.writer.None?
    && var mine := Bringing(s.threads[step.thread]);
    && mine.Some?
    && exists u :: 0 <= u < |s.threads| && Bringing(s.threads[u]).Some? && Bringing(s.threads[u]).value < mine.value
  }

  lemma LogOrderCovers(entered: seq<nat>)
    requires InLogOrder(entered)
    ensures forall b: nat :: b in entered <==> b < |entered|
  {
    forall b: nat | b < |entered|
      ensures b in entered
    {
      assert entered[b] == b;
    }
  }

  /** With `k` batches entered in log order, the smallest that is on its way is number `k`. */
  lemma NextInLine(s: System, t: nat)
    requires EntryInv(s) && InLogOrder(s.h.entered) && t < |s.threads| && Bringing(s.threads[t]).Some? && s.writer.None?
    ensures Bringing(s.threads[t]).value == |s.h.entered| <==> !Overtakes(s, Run(t))
  {
    var b, k := Bringing(s.threads[t]).value, |s.h.entered|;
    LogOrderCovers(s.h.entered);
    forall u | 0 <= u < |s.threads| && Bringing(s.threads[u]).Some?
      ensures Bringing(s.threads[u]).value >= k
    {
      assert Bringing(s.threads[u]).value !in s.h.entered;
    }
    if b > k {
      var u :| 0 <= u < |s.threads| && Bringing(s.threads[u]) == Some(k);
      assert Overtakes(s, Run(t));
    }
  }

  lemma EnteredGrows(cfg: Config, s: System, step: Step)
    ensures var s' := Apply(cfg, s, step);
      s'.h.entered ==
        if step.Run? && step.thread < |s.threads| && s.writer.None? && Bringing(s.threads[step.thread]).Some?
        then s.h.entered + [Bringing(s.threads[step.thread]).value] else s.h.entered
  {
    if step.Run? && step.thread < |s.threads| {
      EnteredByRun(s, step.thread);
    }
  }

  lemma EnteredByRun(s: System, t: nat)
    requires t < |s.threads|
    ensures RunStep(s, t).h.entered ==
            if s.writer.None? && Bringing(s.threads[t]).Some? then s.h.entered + [Bringing(s.threads[t]).value]
            else s.h.entered
  {
    var th := s.threads[t];
    if th.Writing? {
    } else if th.Armed? || th.Due? || th.InHand? || th.IdleArmed? || th.IdleDue? {
    } else {
    }
  }

  lemma OvertakingStep(cfg: Config, s: System, step: Step)
    requires EntryInv(s)
    ensures InLogOrder(Apply(cfg, s, step).h.entered) <==> InLogOrder(s.h.entered) && !Overtakes(s, step)
  {
    EnteredGrows(cfg, s, step);
    var s' := Apply(cfg, s, step);
    if s'.h.entered != s.h.entered {
      assert s'.h.entered[..|s.h.entered|] == s.h.entered;
      assert InLogOrder(s'.h.entered) ==> InLogOrder(s.h.entered) by {
        assert forall i :: 0 <= i < |s.h.entered| ==> s'.h.entered[i] == s.h.entered[i];
      }
      if InLogOrder(s.h.entered) {
        NextInLine(s, step.thread);
        assert s'.h.entered[|s.h.entered|] == Bringing(s.threads[step.thread]).value;
      }
    }
  }

  ghost predicate NobodyOvertakes(cfg: Config, start: real, steps: seq<Step>) {
    |steps| > 0 ==>
      && NobodyOvertakes(cfg, start, steps[..|steps| - 1])
      && !Overtakes(Exec(cfg, start, steps[..|steps| - 1]), steps[|steps| - 1])
  }

  /** Batches enter the compiler in the order they were taken exactly when each acquire of the writer lock is by the
      thread with the earliest batch. */
  lemma {:induction false} InOrderExactlyWhenNobodyOvertakes(cfg: Config, start: real, steps: seq<Step>)
    ensures InLogOrder(Exec(cfg, start, steps).h.entered) <==> NobodyOvertakes(cfg, start, steps)
  {
    if |steps| > 0 {
      var init := steps[..|steps| - 1];
      InOrderExactlyWhenNobodyOvertakes(cfg, start, init);
      EntryHolds(cfg, start, init);
      OvertakingStep(cfg, Exec(cfg, start, init), steps[|steps| - 1]);
    }
  }

  ghost predicate Within(entered: seq<nat>, n: nat) {
    forall i :: 0 <= i < |entered| ==> entered[i] < n
  }

  /** The changes of the batches that have entered, in the order they did. */
  ghost function EnteredChanges(log: seq<Batch>, entered: seq<nat>): Batch
    requires Within(entered, |log|)
  {
    if |entered| == 0 then []
    else EnteredChanges(log, entered[..|entered| - 1]) + log[entered[|entered| - 1]]
  }

  /** And then changes reach the compiler in the order the watcher accepted them. */
  lemma {:induction false} ChangesEnterInArrivalOrder(cfg: Config, start: real, steps: seq<Step>)
    requires NobodyOvertakes(cfg, start, steps)
    ensures var s := Exec(cfg, start, steps);
      Within(s.h.entered, |s.log|) && EnteredChanges(s.log, s.h.entered) <= s.h.accepted
  {
    InOrderExactlyWhenNobodyOvertakes(cfg, start, steps);
    EntryHolds(cfg, start, steps);
    RunIsSafe(cfg, start, steps);
    var s := Exec(cfg, start, steps);
    EnteredExist(s);
    EntersAPrefix(s.log, s.h.entered);
    FlattenSplit(s.log, |s.h.entered|);
  }

  lemma EnteredExist(s: System)
    requires EntryInv(s)
    ensures Within(s.h.entered, |s.log|)
  {
    forall i | 0 <= i < |s.h.entered|
      ensures s.h.entered[i] < |s.log|
    {
      assert s.h.entered[i] in Elements(s.h.entered);
    }
  }

  lemma {:induction false} EntersAPrefix(log: seq<Batch>, entered: seq<nat>)
    requires InLogOrder(entered) && Within(entered, |log|)
    ensures |entered| <= |log| && EnteredChanges(log, entered) == Flatten(log[..|entered|])
  {
    var n := |entered| - 1;
    if n >= 0 {
      assert entered[n] == n;
      EntersAPrefix(log, entered[..n]);
      assert log[..n + 1][..n] == log[..n];
    }
  }

  /** Threads do overtake: the second batch is compiled while the first waits for the writer lock. */
  lemma OvertakenBatch(cfg: Config, start: real, c: FileChange, d: FileChange) returns (steps: seq<Step>)
    ensures var s := Exec(cfg, start, steps);
      && s.log == [[c], [d]] && s.h.entered == [1] && s.h.compiled == {1} && s.writer.None?
      && |s.threads| > 0 && s.threads[0] == InHand(0)
  {
    var s;
    steps, s := SecondInHand(cfg, start, c, d);
    SecondEnters(s, c, d);
    steps, s := Extend(cfg, start, steps, s, Run(1));
    for k := 0 to 5
      invariant Reaches(cfg, start, steps, s) && CompilesSecond(s, c, d)
      invariant k <= Progress(s.threads[1].phase)
    {
      if !s.threads[1].phase.Leaving? {
        SecondAdvances(s, c, d);
        steps, s := Extend(cfg, start, steps, s, Run(1));
      }
    }
    steps, s := Extend(cfg, start, steps, s, Run(1));
  }

  function Progress(phase: Phase): nat {
    match phase
    case Begun => 0
    case Recorded => 1
    case Cycling => 2
    case Passed(_) => 3
    case Leaving => 5
  }

  /** Thread 1 is compiling the second batch, and thread 0 has the first one in hand. */
  ghost predicate CompilesSecond(s: System, c: FileChange, d: FileChange) {
    && |s.threads| >= 2 && s.threads[0] == InHand(0) && s.writer == Some(1)
    && s.threads[1].Writing? && s.threads[1].job == BatchJob(1, false)
    && (s.w.idleTimer.None? || s.threads[1].phase.Leaving?)
    && s.log == [[c], [d]] && s.h.entered == [1] && s.h.compiled == {}
  }

  lemma SecondEnters(s: System, c: FileChange, d: FileChange)
    requires s.threads == [InHand(0), InHand(1)] && s.w.idleTimer.None? && s.writer.None?
    requires s.log == [[c], [d]] && s.h.entered == [] && s.h.compiled == {}
    ensures CompilesSecond(RunStep(s, 1), c, d)
  {
  }

  lemma SecondAdvances(s: System, c: FileChange, d: FileChange)
    requires CompilesSecond(s, c, d) && !s.threads[1].phase.Leaving?
    ensures CompilesSecond(RunStep(s, 1), c, d)
    ensures Progress(RunStep(s, 1).threads[1].phase) > Progress(s.threads[1].phase)
  {
  }

  lemma SecondInHand(cfg: Config, start: real, c: FileChange, d: FileChange) returns (steps: seq<Step>, s: System)
    ensures Reaches(cfg, start, steps, s)
    ensures s.threads == [InHand(0), InHand(1)] && s.w.idleTimer.None? && s.writer.None?
    ensures s.log == [[c], [d]] && s.h.entered == [] && s.h.compiled == {}
  {
    steps, s := Flush(cfg, start, c);
    steps, s := Extend(cfg, start, steps, s, Observe(d));
    assert s.threads == [InHand(0), Armed] && s.w.pending == [d];
    steps, s := Extend(cfg, start, steps, s, Run(1));
    assert s.threads == [InHand(0), Due];
    steps, s := Extend(cfg, start, steps, s, Run(1));
  }
}
