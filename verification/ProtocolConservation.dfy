/** Every accepted change is pending or in exactly one batch, and every batch is in exactly one place. */
module ProtocolConservation {
  import opened Collections
  import opened Protocol
  import opened ProtocolLocks

  /** The batch a thread is responsible for. */
  function Held(th: Thread): Option<nat> {
    match th
    case InHand(b) => Some(b)
    case Holding(b) => Some(b)
    case Writing(BatchJob(b, _), _) => Some(b)
    case _ => None
  }

  /** A batch that a thread answers for, by some way of telling; new and cancelled threads answer for none. */
  type Answers = Thread -> Option<nat>

  ghost predicate Passive(held: Answers) {
    held(Armed).None? && held(Entered).None? && held(Cancelled).None? && forall d :: held(IdleArmed(d)).None?
  }

  /** Each of the `n` batches is settled, or held by exactly one thread, and never both. */
  ghost predicate Ledger(held: Answers, threads: seq<Thread>, n: nat, settled: set<nat>) {
    && (forall b :: b in settled ==> b < n)
    && (forall t :: 0 <= t < |threads| && held(threads[t]).Some? ==>
          held(threads[t]).value < n && held(threads[t]).value !in settled)
    && (forall t, u :: 0 <= t < u < |threads| && held(threads[t]).Some? ==> held(threads[t]) != held(threads[u]))
    && (forall b :: 0 <= b < n && b !in settled ==> exists t :: 0 <= t < |threads| && held(threads[t]) == Some(b))
  }

  lemma LedgerKept(held: Answers, a: seq<Thread>, b: seq<Thread>, t: nat, n: nat, settled: set<nat>)
    requires Passive(held) && Ledger(held, a, n, settled) && Moved(a, b, t)
    requires t < |a| ==> held(b[t]) == held(a[t])
    ensures Ledger(held, b, n, settled)
  {
    HeldElsewhere(held, a, b, t, n, settled);
    forall x | 0 <= x < n && x !in settled
      ensures exists u :: 0 <= u < |b| && held(b[u]) == Some(x)
    {
      var u :| 0 <= u < |a| && held(a[u]) == Some(x);
      assert held(b[u]) == Some(x);
    }
  }

  /** Thread `t`, which held nothing, holds batch `n`, and no other thread does. */
  lemma LedgerTaken(held: Answers, a: seq<Thread>, b: seq<Thread>, t: nat, n: nat, settled: set<nat>)
    requires Passive(held) && Ledger(held, a, n, settled) && Moved(a, b, t) && t < |a|
    requires held(a[t]).None? && held(b[t]) == Some(n)
    ensures Ledger(held, b, n + 1, settled)
  {
    HeldElsewhere(held, a, b, t, n, settled);
    forall x | 0 <= x < n + 1 && x !in settled
      ensures exists u :: 0 <= u < |b| && held(b[u]) == Some(x)
    {
      if x < n {
        var u :| 0 <= u < |a| && held(a[u]) == Some(x);
        assert held(b[u]) == Some(x);
      } else {
        assert held(b[t]) == Some(x);
      }
    }
  }

  lemma HeldElsewhere(held: Answers, a: seq<Thread>, b: seq<Thread>, t: nat, n: nat, settled: set<nat>)
    requires Passive(held) && Ledger(held, a, n, settled) && Moved(a, b, t)
    ensures forall u :: 0 <= u < |b| && u != t && held(b[u]).Some? ==>
              u < |a| && held(b[u]) == held(a[u]) && held(b[u]).value < n && held(b[u]).value !in settled
    ensures forall u :: 0 <= u < |a| && u != t && held(a[u]).Some? ==> b[u] == a[u]
  {
  }

  lemma LedgerSettled(held: Answers, a: seq<Thread>, b: seq<Thread>, t: nat, n: nat, settled: set<nat>)
    requires Passive(held) && Ledger(held, a, n, settled) && Moved(a, b, t) && t < |a|
    requires held(a[t]).Some? && held(b[t]).None?
    ensures Ledger(held, b, n, settled + {held(a[t]).value})
  {
    HeldElsewhere(held, a, b, t, n, settled);
    forall x | 0 <= x < n && x !in settled && x != held(a[t]).value
      ensures exists u :: 0 <= u < |b| && held(b[u]) == Some(x)
    {
      var u :| 0 <= u < |a| && held(a[u]) == Some(x);
      assert held(b[u]) == Some(x);
    }
  }

  ghost predicate ConservationInv(s: System) {
    && Flatten(s.log) + s.w.pending == s.h.accepted
    && s.h.compiled !! s.h.failed
    && Ledger(Held, s.threads, |s.log|, s.h.compiled + s.h.failed)
  }

  /** What one step of thread `t` may do to the batches: pass its own along, take everything pending, or
      settle the one it holds. */
  ghost predicate BatchTurn(s: System, s': System, t: nat)
    requires t < |s.threads| <= |s'.threads|
  {
    var x, y := Held(s.threads[t]), Held(s'.threads[t]);
    && s'.h.accepted == s.h.accepted
    && if x.None? && y.Some? then
         && y == Some(|s.log|) && s'.log == s.log + [s.w.pending] && s'.w.pending == []
         && s'.h.compiled == s.h.compiled && s'.h.failed == s.h.failed
       else
         && s'.log == s.log && s'.w.pending == s.w.pending
         && if x.Some? && y.None? then
              || (s'.h.compiled == s.h.compiled + {x.value} && s'.h.failed == s.h.failed)
              || (s'.h.failed == s.h.failed + {x.value} && s'.h.compiled == s.h.compiled)
            else x == y && s'.h.compiled == s.h.compiled && s'.h.failed == s.h.failed
  }

  lemma BatchKept(s: System, s': System, t: nat)
    requires ConservationInv(s) && Moved(s.threads, s'.threads, t) && t < |s.threads| && BatchTurn(s, s', t)
    ensures ConservationInv(s')
  {
    var settled, x, y := s.h.compiled + s.h.failed, Held(s.threads[t]), Held(s'.threads[t]);
    if x.None? && y.Some? {
      LedgerTaken(Held, s.threads, s'.threads, t, |s.log|, settled);
      assert s'.log[..|s.log|] == s.log;
    } else if x.Some? && y.None? {
      LedgerSettled(Held, s.threads, s'.threads, t, |s.log|, settled);
      assert s'.h.compiled + s'.h.failed == settled + {x.value};
    } else {
      LedgerKept(Held, s.threads, s'.threads, t, |s.log|, settled);
    }
  }

  lemma BatchWork(s: System, t: nat, job: Job, phase: Phase)
    requires t < |s.threads| && s.threads[t] == Writing(job, phase)
    ensures |s.threads| <= |WorkStep(s, t, job, phase).threads| && BatchTurn(s, WorkStep(s, t, job, phase), t)
  {
  }

  lemma {:induction false} BatchShutdown(s: System, t: nat)
    requires t < |s.threads|
    ensures |s.threads| <= |ShutdownStep(s, t).threads| && BatchTurn(s, ShutdownStep(s, t), t)
  {
    var th := s.threads[t];
    if th.Rejected? {
      BatchDrain(s, t);
    } else if th.ToStop? {
    } else if th.Holding? || th.ToPersist? {
    } else {
    }
  }

  lemma BatchDrain(s: System, t: nat)
    requires t < |s.threads| && s.threads[t].Rejected?
    ensures |s.threads| <= |DrainStep(s, t).threads| && BatchTurn(s, DrainStep(s, t), t)
  {
  }

  lemma {:induction false} BatchRun(s: System, t: nat)
    requires t < |s.threads|
    ensures |s.threads| <= |RunStep(s, t).threads| && BatchTurn(s, RunStep(s, t), t)
  {
    var th := s.threads[t];
    if th.Writing? {
      BatchWork(s, t, th.job, th.phase);
    } else if th.Armed? || th.Due? || th.InHand? || th.IdleArmed? || th.IdleDue? {
    } else {
      BatchShutdown(s, t);
    }
  }

  lemma RaiseTurn(s: System, t: nat)
    requires t < |s.threads|
    ensures |s.threads| <= |RaiseStep(s, t).threads| && BatchTurn(s, RaiseStep(s, t), t)
  {
  }

  lemma BatchOutside(cfg: Config, s: System, step: Step)
    requires Actor(s, step) >= |s.threads| && Flatten(s.log) + s.w.pending == s.h.accepted
    ensures var s' := Apply(cfg, s, step);
      && s'.log == s.log && s'.h.compiled == s.h.compiled && s'.h.failed == s.h.failed
      && Flatten(s'.log) + s'.w.pending == s'.h.accepted
  {
  }

  lemma ConservationStep(cfg: Config, s: System, step: Step)
    requires ConservationInv(s)
    ensures ConservationInv(Apply(cfg, s, step))
  {
    Moves(cfg, s, step);
    var t, s' := Actor(s, step), Apply(cfg, s, step);
    if t < |s.threads| {
      if step.Run? {
        BatchRun(s, t);
      } else {
        RaiseTurn(s, t);
      }
      BatchKept(s, s', t);
    } else {
      BatchOutside(cfg, s, step);
      LedgerKept(Held, s.threads, s'.threads, t, |s.log|, s.h.compiled + s.h.failed);
    }
  }
}
