/** src/graphify_daemon/graph_query_api/query_cache.py: a bounded cache that forgets the key touched longest ago. */
module QueryCache {
  import opened Collections

  /** A request is cached under the version of the snapshot it captured and its arguments. */
  datatype Key = Key(
    version: nat,
    question: string,
    mode: string,
    depth: int,
    tokenBudget: int,
    filters: Option<seq<string>>)

  /** `_entries`, the size limit as configured, and the two counters. */
  datatype Lru = Lru(entries: Dict<Key, string>, maxsize: int, hits: nat, misses: nat)

  function EmptyLru(maxsize: int): Lru { Lru(EmptyDict(), maxsize, 0, 0) }

  function Looked(c: Lru, k: Key): Lru {
    if k !in c.entries.vals then c.(misses := c.misses + 1)
    else c.(hits := c.hits + 1, entries := MoveToEnd(c.entries, k))
  }

  /** `set`: one entry at most is evicted. */
  function Stored(c: Lru, k: Key, v: string): Lru {
    var moved := MoveToEnd(Put(c.entries, k, v), k);
    c.(entries := if |moved.keys| > c.maxsize then PopFirst(moved) else moved)
  }

  class QueryCache {
    const maxsize: int
    var entries: Dict<Key, string>
    var hits: nat
    var misses: nat

    ghost function View(): Lru
      reads this
    {
      Lru(entries, maxsize, hits, misses)
    }

    constructor (maxsize: int)
      ensures View() == EmptyLru(maxsize)
    {
      this.maxsize := maxsize;
      entries, hits, misses := EmptyDict(), 0, 0;
    }

    method Get(k: Key) returns (v: Option<string>)
      modifies this
      ensures View() == Looked(old(View()), k) && v == Lookup(old(entries).vals, k)
    {
      if k !in entries.vals {
        misses := misses + 1;
        return None;
      }
      hits := hits + 1;
      entries := MoveToEnd(entries, k);
      v := Some(entries.vals[k]);
    }

    method Set(k: Key, v: string)
      modifies this
      ensures View() == Stored(old(View()), k, v)
    {
      entries := MoveToEnd(Put(entries, k, v), k);
      if |entries.keys| > maxsize {
        entries := PopFirst(entries);
      }
    }

    method HitRate() returns (r: real)
      ensures hits + misses == 0 ==> r == 0.0
      ensures hits + misses > 0 ==> r * (hits + misses) as real == hits as real
    {
      var total := hits + misses;
      r := if total == 0 then 0.0 else hits as real / total as real;
    }
  }

  datatype Op = Look(key: Key) | Store(key: Key, value: string)

  function Apply(c: Lru, op: Op): Lru {
    match op case Look(k) => Looked(c, k) case Store(k, v) => Stored(c, k, v)
  }

  function AfterOps(maxsize: int, ops: seq<Op>): Lru {
    if |ops| == 0 then EmptyLru(maxsize)
    else Apply(AfterOps(maxsize, ops[..|ops| - 1]), ops[|ops| - 1])
  }

  /** Every distinct key of `touches`, in the order of its last occurrence. */
  function ByLastTouch(touches: seq<Key>): (r: seq<Key>)
    ensures Distinct(r) && forall k :: k in r <==> k in touches
  {
    if |touches| == 0 then []
    else
      assert touches == touches[..|touches| - 1] + [touches[|touches| - 1]];
      Without(ByLastTouch(touches[..|touches| - 1]), touches[|touches| - 1]) + [touches[|touches| - 1]]
  }

  /** The keys that a run touches: by every `set`, and by a `get` that hits. */
  function Touches(maxsize: int, ops: seq<Op>): seq<Key> {
    if |ops| == 0 then []
    else
      var before, op := ops[..|ops| - 1], ops[|ops| - 1];
      if op.Store? || op.key in AfterOps(maxsize, before).entries.vals
      then Touches(maxsize, before) + [op.key] else Touches(maxsize, before)
  }

  function Capacity(maxsize: int): nat { if maxsize < 0 then 0 else maxsize }

  /** Touching a key commutes with keeping the last `n`: either the key is among them and only moves, or it
      enters and, when they are `n` already, the oldest leaves. */
  lemma TouchLastN(s: seq<Key>, k: Key, n: nat)
    requires Distinct(s) && n > 0
    ensures LastN(Without(s, k) + [k], n) ==
            if k in LastN(s, n) then Without(LastN(s, n), k) + [k]
            else if |LastN(s, n)| < n then LastN(s, n) + [k] else LastN(s, n)[1..] + [k]
  {
    var kept := LastN(s, n);
    var older := s[..|s| - |kept|];
    assert s == older + kept;
    WithoutConcat(older, kept, k);
    if k in kept {
      KeptMoves(older, kept, k, n);
    } else if |kept| < n {
      assert older == [];
    } else {
      OldestLeaves(Without(older, k), kept, k);
    }
  }

  lemma OldestLeaves(older: seq<Key>, kept: seq<Key>, k: Key)
    requires |kept| > 0
    ensures LastN(older + kept + [k], |kept|) == kept[1..] + [k]
  {
    assert older + kept + [k] == (older + [kept[0]]) + (kept[1..] + [k]);
    LastNOfConcat(older + [kept[0]], kept[1..] + [k], |kept|);
  }

  lemma {:induction false} KeptMoves(older: seq<Key>, kept: seq<Key>, k: Key, n: nat)
    requires Distinct(older + kept) && k in kept && (|kept| == n || (older == [] && |kept| <= n))
    ensures LastN(Without(older, k) + Without(kept, k) + [k], n) == Without(kept, k) + [k]
  {
    assert k !in older && Distinct(kept) by {
      assert forall i :: 0 <= i < |older| ==> (older + kept)[i] == older[i];
      assert forall i :: 0 <= i < |kept| ==> (older + kept)[|older| + i] == kept[i];
    }
    assert Without(older, k) + Without(kept, k) + [k] == older + (Without(kept, k) + [k]);
    LastNOfConcat(older, Without(kept, k) + [k], n);
  }

  ghost predicate LruInv(c: Lru, touches: seq<Key>) {
    ValidDict(c.entries) && c.entries.keys == LastN(ByLastTouch(touches), Capacity(c.maxsize))
  }

  lemma OneMoreTouch(touches: seq<Key>, k: Key)
    ensures ByLastTouch(touches + [k]) == Without(ByLastTouch(touches), k) + [k]
  {
    assert (touches + [k])[..|touches|] == touches;
  }

  lemma {:induction false} LookKeeps(c: Lru, k: Key, touches: seq<Key>)
    requires LruInv(c, touches) && k in c.entries.vals
    ensures LruInv(Looked(c, k), touches + [k])
  {
    TouchLastN(ByLastTouch(touches), k, Capacity(c.maxsize));
    OneMoreTouch(touches, k);
  }

  lemma StoredKeys(c: Lru, k: Key, v: string)
    requires ValidDict(c.entries)
    ensures ValidDict(Stored(c, k, v).entries)
    ensures var moved := Without(c.entries.keys, k) + [k];
      Stored(c, k, v).entries.keys == if |moved| > c.maxsize then moved[1..] else moved
  {
    if k !in c.entries.vals {
      WithoutConcat(c.entries.keys, [k], k);
    }
  }

  lemma {:induction false} TouchTruncated(order: seq<Key>, k: Key, maxsize: int)
    requires Distinct(order)
    ensures var moved := Without(LastN(order, Capacity(maxsize)), k) + [k];
      (if |moved| > maxsize then moved[1..] else moved) == LastN(Without(order, k) + [k], Capacity(maxsize))
  {
    var n := Capacity(maxsize);
    var kept := LastN(order, n);
    if n == 0 {
      assert kept == [];
    } else {
      assert Distinct(kept);
      TouchLastN(order, k, n);
      if k !in kept && |kept| == n {
        assert Without(kept, k) == kept;
        assert (kept + [k])[1..] == kept[1..] + [k];
      }
    }
  }

  lemma {:induction false} StoreKeeps(c: Lru, k: Key, v: string, touches: seq<Key>)
    requires LruInv(c, touches)
    ensures LruInv(Stored(c, k, v), touches + [k])
  {
    StoredKeys(c, k, v);
    TouchTruncated(ByLastTouch(touches), k, c.maxsize);
    OneMoreTouch(touches, k);
  }

  /** After any operations the cache holds exactly the last `maxsize` distinct keys touched, oldest first. */
  lemma {:induction false} HoldsLastTouched(maxsize: int, ops: seq<Op>)
    ensures var c := AfterOps(maxsize, ops);
      && c.maxsize == maxsize && ValidDict(c.entries)
      && c.entries.keys == LastN(ByLastTouch(Touches(maxsize, ops)), Capacity(maxsize))
  {
    if |ops| > 0 {
      var before, op := ops[..|ops| - 1], ops[|ops| - 1];
      HoldsLastTouched(maxsize, before);
      var c := AfterOps(maxsize, before);
      if op.Store? {
        StoreKeeps(c, op.key, op.value, Touches(maxsize, before));
      } else if op.key in c.entries.vals {
        LookKeeps(c, op.key, Touches(maxsize, before));
      }
    }
  }

  /** The value last stored under `k`. */
  function LastStored(ops: seq<Op>, k: Key): Option<string> {
    if |ops| == 0 then None
    else if ops[|ops| - 1].Store? && ops[|ops| - 1].key == k then Some(ops[|ops| - 1].value)
    else LastStored(ops[..|ops| - 1], k)
  }

  /** A key that is present answers with the value last stored under it; and lookups are counted once each. */
  lemma {:induction false} AnswersWithLastStored(maxsize: int, ops: seq<Op>, k: Key)
    ensures var c := AfterOps(maxsize, ops);
      && (k in c.entries.vals ==> Some(c.entries.vals[k]) == LastStored(ops, k))
      && c.hits + c.misses == CountLooks(ops)
  {
    if |ops| > 0 {
      AnswersWithLastStored(maxsize, ops[..|ops| - 1], k);
    }
  }

  /** Lookups of a key that is among the last `maxsize` distinct ones touched before. */
  function CountHits(maxsize: int, ops: seq<Op>): nat {
    if |ops| == 0 then 0
    else
      var before, op := ops[..|ops| - 1], ops[|ops| - 1];
      CountHits(maxsize, before) +
      if op.Look? && op.key in LastN(ByLastTouch(Touches(maxsize, before)), Capacity(maxsize)) then 1 else 0
  }

  /** A lookup is counted as a hit exactly when its key is among them, and as a miss otherwise. */
  lemma {:induction false} HitsAreCounted(maxsize: int, ops: seq<Op>)
    ensures var c := AfterOps(maxsize, ops);
      c.hits == CountHits(maxsize, ops) && c.hits + c.misses == CountLooks(ops)
  {
    if |ops| > 0 {
      HitsAreCounted(maxsize, ops[..|ops| - 1]);
      HoldsLastTouched(maxsize, ops[..|ops| - 1]);
    }
  }

  function CountLooks(ops: seq<Op>): nat {
    if |ops| == 0 then 0 else CountLooks(ops[..|ops| - 1]) + if ops[|ops| - 1].Look? then 1 else 0
  }

  /** The handler's use: look a key up and, on a miss, compute its answer and store it, unless that raises. */
  function Served(c: Lru, k: Key, answer: Key -> Option<string>): Lru {
    var looked := Looked(c, k);
    if k in c.entries.vals || answer(k).None? then looked else Stored(looked, k, answer(k).value)
  }

  function ServedAll(maxsize: int, requests: seq<Key>, answer: Key -> Option<string>): Lru {
    if |requests| == 0 then EmptyLru(maxsize)
    else Served(ServedAll(maxsize, requests[..|requests| - 1], answer), requests[|requests| - 1], answer)
  }

  /** The requests whose answer does not raise. */
  function Answered(requests: seq<Key>, answer: Key -> Option<string>): seq<Key> {
    if |requests| == 0 then []
    else
      var before := Answered(requests[..|requests| - 1], answer);
      if answer(requests[|requests| - 1]).Some? then before + [requests[|requests| - 1]] else before
  }

  lemma {:induction false} ServedHoldsLastRequested(maxsize: int, requests: seq<Key>, answer: Key -> Option<string>)
    ensures var c := ServedAll(maxsize, requests, answer);
      c.maxsize == maxsize && LruInv(c, Answered(requests, answer))
  {
    if |requests| > 0 {
      var before, k := requests[..|requests| - 1], requests[|requests| - 1];
      ServedHoldsLastRequested(maxsize, before, answer);
      var c := ServedAll(maxsize, before, answer);
      if k in c.entries.vals {
        assert k in Answered(before, answer);
        AnsweredOnly(before, answer, k);
        LookKeeps(c, k, Answered(before, answer));
      } else if answer(k).Some? {
        StoreKeeps(Looked(c, k), k, answer(k).value, Answered(before, answer));
      }
    }
  }

  lemma {:induction false} AnsweredOnly(requests: seq<Key>, answer: Key -> Option<string>, k: Key)
    requires k in Answered(requests, answer)
    ensures answer(k).Some?
  {
    if k != requests[|requests| - 1] || answer(k).None? {
      AnsweredOnly(requests[..|requests| - 1], answer, k);
    }
  }

  /** Of two caches with the same touches the larger one holds what the smaller one does. */
  lemma SmallerIsNested(s: Lru, l: Lru, touches: seq<Key>)
    requires LruInv(s, touches) && LruInv(l, touches) && s.maxsize <= l.maxsize
    ensures s.entries.keys == LastN(l.entries.keys, Capacity(s.maxsize))
    ensures forall k :: k in s.entries.vals ==> k in l.entries.vals
  {
    assert forall k :: k in s.entries.keys ==> k in l.entries.keys;
  }

  lemma ServedCounts(c: Lru, k: Key, answer: Key -> Option<string>)
    ensures var c' := Served(c, k, answer);
      if k in c.entries.vals then c'.hits == c.hits + 1 && c'.misses == c.misses
      else c'.hits == c.hits && c'.misses == c.misses + 1
  {
  }

  /** Under the handler's use a larger cache holds everything a smaller one does, the smaller one's keys being
      its most recent, and never has fewer hits. */
  lemma {:induction false} LargerCacheServesNoWorse(small: int, large: int, requests: seq<Key>,
                                                    answer: Key -> Option<string>)
    requires small <= large
    ensures var s, l := ServedAll(small, requests, answer), ServedAll(large, requests, answer);
      && (forall k :: k in s.entries.vals ==> k in l.entries.vals)
      && s.entries.keys == LastN(l.entries.keys, Capacity(small))
      && s.hits <= l.hits && s.hits + s.misses == l.hits + l.misses == |requests|
  {
    ServedHoldsLastRequested(small, requests, answer);
    ServedHoldsLastRequested(large, requests, answer);
    SmallerIsNested(ServedAll(small, requests, answer), ServedAll(large, requests, answer), Answered(requests, answer));
    if |requests| > 0 {
      var before, k := requests[..|requests| - 1], requests[|requests| - 1];
      LargerCacheServesNoWorse(small, large, before, answer);
      ServedCounts(ServedAll(small, before, answer), k, answer);
      ServedCounts(ServedAll(large, before, answer), k, answer);
    }
  }
}
