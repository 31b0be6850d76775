/** Which threads a step can move, and mutual exclusion under the writer lock. */
module ProtocolLocks {
  import opened Collections
  import opened Protocol

  /** The thread a step moves, or an index past the end when the step belongs to no thread. */
  function Actor(s: System, step: Step): nat {
    if step.Run? || step.Raise? then step.thread else |s.threads|
  }

  /** From `a` to `b` only thread `t` acts: the others stay put or are cancelled timers, and new threads
      are waiting timers or callers. */
  ghost predicate Moved(a: seq<Thread>, b: seq<Thread>, t: nat) {
    && |a| <= |b|
    && (forall u :: 0 <= u < |a| && u != t ==> b[u] == a[u] || (b[u].Cancelled? && (a[u].Armed? || a[u].IdleArmed?)))
    && (forall u :: |a| <= u < |b| ==> b[u].Armed? || b[u].IdleArmed? || b[u].Entered?)
  }

  lemma WorkMoves(s: System, t: nat, job: Job, phase: Phase)
    requires t < |s.threads|
    ensures Moved(s.threads, WorkStep(s, t, job, phase).threads, t)
  {
  }

  lemma ShutdownMoves(s: System, t: nat)
    requires t < |s.threads|
    ensures Moved(s.threads, ShutdownStep(s, t).threads, t)
  {
    match s.threads[t]
    case Rejected =>
    case ToStop =>
    case _ =>
  }

  lemma {:induction false} RunMoves(s: System, t: nat)
    requires t < |s.threads|
    ensures Moved(s.threads, RunStep(s, t).threads, t)
  {
    match s.threads[t]
    case Writing(job, phase) => WorkMoves(s, t, job, phase);
    case Armed =>
    case Due =>
    case InHand(b) =>
    case IdleArmed(d) =>
    case IdleDue(d) =>
    case _ => ShutdownMoves(s, t);
  }

  lemma {:induction false} Moves(cfg: Config, s: System, step: Step)
    ensures Moved(s.threads, Apply(cfg, s, step).threads, Actor(s, step))
  {
    if step.Run? && step.thread < |s.threads| {
      RunMoves(s, step.thread);
    }
  }

  predicate Critical(th: Thread) { th.Writing? || th.Persisting? }

  /** The writer lock is held by exactly the thread that is inside its critical section. */
  ghost predicate LockInv(s: System) {
    && (s.writer.Some? ==> s.writer.value < |s.threads|)
    && forall t :: 0 <= t < |s.threads| ==> (Critical(s.threads[t]) <==> s.writer == Some(t))
  }

  /** Thread `t` takes the lock only when it is free, and holds it exactly while it is critical. */
  ghost predicate LockHanded(s: System, s': System, t: nat)
    requires t < |s.threads| <= |s'.threads|
  {
    if s.writer == Some(t) || s.writer.None?
    then s'.writer == if Critical(s'.threads[t]) then Some(t) else None
    else s'.writer == s.writer && !Critical(s'.threads[t])
  }

  lemma LockKept(s: System, s': System, t: nat)
    requires LockInv(s) && Moved(s.threads, s'.threads, t)
    requires if t < |s.threads| then LockHanded(s, s', t) else s'.writer == s.writer
    ensures LockInv(s')
  {
  }

  lemma LockShutdown(s: System, t: nat)
    requires LockInv(s) && t < |s.threads| && !s.threads[t].Writing?
    ensures LockHanded(s, ShutdownStep(s, t), t)
  {
    match s.threads[t]
    case Entered =>
    case Won =>
    case Rejected =>
    case Holding(b) =>
    case _ =>
  }

  lemma LockRun(s: System, t: nat)
    requires LockInv(s) && t < |s.threads|
    ensures LockHanded(s, RunStep(s, t), t)
  {
    match s.threads[t]
    case Armed =>
    case Due =>
    case InHand(b) =>
    case IdleArmed(d) =>
    case IdleDue(d) =>
    case Writing(job, phase) =>
    case _ => LockShutdown(s, t);
  }

  lemma {:induction false} LockStep(cfg: Config, s: System, step: Step)
    requires LockInv(s)
    ensures LockInv(Apply(cfg, s, step))
  {
    Moves(cfg, s, step);
    if step.Run? && step.thread < |s.threads| {
      LockRun(s, step.thread);
    }
    LockKept(s, Apply(cfg, s, step), Actor(s, step));
  }
}
