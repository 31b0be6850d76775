/** src/graphify_daemon/vault_compiler/slow_cadence.py: the quiet-time-or-change-count trigger. */
module SlowCadence {

  datatype Tracker = Tracker(quiet: real, threshold: int, accumulated: nat, lastBatchAt: real)

  function Record(k: Tracker, count: nat, now: real): Tracker {
    k.(accumulated := k.accumulated + count, lastBatchAt := now)
  }

  predicate ShouldTrigger(k: Tracker, now: real) {
    k.accumulated >= k.threshold || now - k.lastBatchAt >= k.quiet
  }

  function Reset(k: Tracker, now: real): Tracker {
    k.(accumulated := 0, lastBatchAt := now)
  }

  /** The clock is read by the caller: `now` stands for each call of `time.monotonic()`. */
  class SlowCadenceTracker {
    const quiet: real
    const threshold: int
    var accumulated: nat
    var lastBatchAt: real

    ghost function View(): Tracker
      reads this
    {
      Tracker(quiet, threshold, accumulated, lastBatchAt)
    }

    constructor (quiet: real, threshold: int, now: real)
      ensures View() == Tracker(quiet, threshold, 0, now)
    {
      this.quiet, this.threshold := quiet, threshold;
      accumulated, lastBatchAt := 0, now;
    }

    method RecordBatch(count: nat, now: real)
      modifies this
      ensures View() == Record(old(View()), count, now)
    {
      accumulated, lastBatchAt := accumulated + count, now;
    }

    method Triggers(now: real) returns (b: bool)
      ensures b == ShouldTrigger(View(), now)
      ensures b <==> accumulated >= threshold || now - lastBatchAt >= quiet
    {
      if accumulated >= threshold {
        return true;
      }
      b := now - lastBatchAt >= quiet;
    }

    method ResetAt(now: real)
      modifies this
      ensures View() == Reset(old(View()), now)
    {
      accumulated, lastBatchAt := 0, now;
    }
  }
}
