/** Merging the cache: the blocks of all its entries, one after the other. */
module Merging {
  import opened Collections
  import opened Batching
  import opened Extraction

  function NodesAt(vals: map<Path, Result>): Path -> seq<Node> {
    p => if p in vals then vals[p].nodes else []
  }

  function EdgesAt(vals: map<Path, Result>): Path -> seq<Edge> {
    p => if p in vals then vals[p].edges else []
  }

  function Gathered<T>(keys: seq<Path>, block: Path -> seq<T>): seq<T> {
    if |keys| == 0 then [] else Gathered(keys[..|keys| - 1], block) + block(keys[|keys| - 1])
  }

  /** The keys whose block is not empty, in order. */
  function Busy<T(==)>(keys: seq<Path>, block: Path -> seq<T>): (r: seq<Path>)
    ensures forall k :: k in r ==> k in keys
  {
    if |keys| == 0 then []
    else
      var init, last := keys[..|keys| - 1], keys[|keys| - 1];
      if block(last) == [] then Busy(init, block) else Busy(init, block) + [last]
  }

  /** Every item of a block names the block's key. */
  ghost predicate Marked<T>(block: Path -> seq<T>, source: T -> Path) {
    forall p, i :: 0 <= i < |block(p)| ==> source(block(p)[i]) == p
  }

  /** The items that name `x`. */
  function Naming<T>(items: seq<T>, source: T -> Path, x: Path): seq<T> {
    if |items| == 0 then []
    else
      var init, last := items[..|items| - 1], items[|items| - 1];
      if source(last) == x then Naming(init, source, x) + [last] else Naming(init, source, x)
  }

  lemma {:induction false} NamingConcat<T>(a: seq<T>, b: seq<T>, source: T -> Path, x: Path)
    ensures Naming(a + b, source, x) == Naming(a, source, x) + Naming(b, source, x)
  {
    if |b| == 0 {
      assert a + b == a;
    } else {
      assert (a + b)[..|a + b| - 1] == a + b[..|b| - 1];
      NamingConcat(a, b[..|b| - 1], source, x);
    }
  }

  lemma {:induction false} NamingBlock<T>(items: seq<T>, source: T -> Path, p: Path, x: Path)
    requires forall i :: 0 <= i < |items| ==> source(items[i]) == p
    ensures Naming(items, source, x) == if p == x then items else []
  {
    if |items| > 0 {
      NamingBlock(items[..|items| - 1], source, p, x);
    }
  }

  lemma {:induction false} NamingGathered<T>(keys: seq<Path>, block: Path -> seq<T>, source: T -> Path, x: Path)
    requires Distinct(keys) && Marked(block, source)
    ensures Naming(Gathered(keys, block), source, x) == if x in keys then block(x) else []
  {
    if |keys| > 0 {
      var init, last := keys[..|keys| - 1], keys[|keys| - 1];
      assert keys == init + [last];
      NamingGathered(init, block, source, x);
      NamingConcat(Gathered(init, block), block(last), source, x);
      NamingBlock(block(last), source, last, x);
    }
  }

  /** The keys that items name, each stretch of one key counted once. */
  function Named<T>(items: seq<T>, source: T -> Path): (r: seq<Path>)
    ensures |items| > 0 ==> |r| > 0 && r[|r| - 1] == source(items[|items| - 1])
    ensures |items| == 0 ==> r == []
  {
    if |items| == 0 then []
    else
      var before, last := Named(items[..|items| - 1], source), source(items[|items| - 1]);
      if before != [] && before[|before| - 1] == last then before else before + [last]
  }

  lemma {:induction false} NamedWithBlock<T>(a: seq<T>, items: seq<T>, source: T -> Path, p: Path)
    requires forall i :: 0 <= i < |items| ==> source(items[i]) == p
    requires a == [] || source(a[|a| - 1]) != p
    ensures Named(a + items, source) == if items == [] then Named(a, source) else Named(a, source) + [p]
  {
    if items == [] {
      assert a + items == a;
    } else {
      var init := items[..|items| - 1];
      assert (a + items)[..|a + items| - 1] == a + init;
      NamedWithBlock(a, init, source, p);
    }
  }

  lemma {:induction false} GatheredFromBusy<T>(keys: seq<Path>, block: Path -> seq<T>, source: T -> Path)
    requires Marked(block, source)
    ensures var r := Gathered(keys, block); r != [] ==> source(r[|r| - 1]) in keys
  {
    if |keys| > 0 {
      var init, last := keys[..|keys| - 1], keys[|keys| - 1];
      GatheredFromBusy(init, block, source);
      assert forall k :: k in init ==> k in keys;
      if block(last) == [] {
        assert Gathered(keys, block) == Gathered(init, block);
      } else {
        assert source(block(last)[|block(last)| - 1]) == last;
      }
    }
  }

  lemma {:induction false} NamedGathered<T>(keys: seq<Path>, block: Path -> seq<T>, source: T -> Path)
    requires Distinct(keys) && Marked(block, source)
    ensures Named(Gathered(keys, block), source) == Busy(keys, block)
  {
    if |keys| > 0 {
      var init, last := keys[..|keys| - 1], keys[|keys| - 1];
      NamedGathered(init, block, source);
      GatheredFromBusy(init, block, source);
      assert last !in init;
      NamedWithBlock(Gathered(init, block), block(last), source, last);
    }
  }

  lemma {:induction false} GatheredByBusy<T>(keys: seq<Path>, block: Path -> seq<T>, other: Path -> seq<T>)
    requires forall x :: block(x) == other(x)
    ensures Gathered(keys, block) == Gathered(Busy(keys, block), other)
  {
    if |keys| > 0 {
      var init, last := keys[..|keys| - 1], keys[|keys| - 1];
      GatheredByBusy(init, block, other);
      if block(last) != [] {
        assert Busy(keys, block)[..|Busy(init, block)|] == Busy(init, block);
      }
    }
  }

  /** Two merges are equal exactly when every key has the same block and the keys that have one come in the same
      order. */
  lemma {:induction false} GatheredEqualExactly<T>(keys: seq<Path>, block: Path -> seq<T>,
                                                   keys': seq<Path>, block': Path -> seq<T>, source: T -> Path)
    requires Distinct(keys) && Distinct(keys') && Marked(block, source) && Marked(block', source)
    requires forall x :: (x !in keys ==> block(x) == []) && (x !in keys' ==> block'(x) == [])
    ensures Gathered(keys, block) == Gathered(keys', block') <==>
            (forall x :: block(x) == block'(x)) && Busy(keys', block) == Busy(keys, block)
  {
    if forall x :: block(x) == block'(x) {
      BusySame(keys', block, block');
    }
    if Gathered(keys, block) == Gathered(keys', block') {
      forall x
        ensures block(x) == block'(x)
      {
        NamingGathered(keys, block, source, x);
        NamingGathered(keys', block', source, x);
      }
      NamedGathered(keys, block, source);
      NamedGathered(keys', block', source);
    }
    if (forall x :: block(x) == block'(x)) && Busy(keys', block) == Busy(keys, block) {
      GatheredByBusy(keys, block, block);
      GatheredByBusy(keys', block', block);
    }
  }

  /** New keys at the end, with nothing in their blocks, do not change the order. */
  lemma {:induction false} BusyGrows<T>(keys: seq<Path>, more: seq<Path>, block: Path -> seq<T>, block': Path -> seq<T>)
    requires forall x :: block(x) == block'(x)
    requires forall x :: x in more ==> block'(x) == []
    ensures Busy(keys + more, block') == Busy(keys, block)
  {
    if |more| == 0 {
      assert keys + more == keys;
      BusySame(keys, block, block');
    } else {
      var n := |more| - 1;
      assert (keys + more)[..|keys| + n] == keys + more[..n];
      BusyGrows(keys, more[..n], block, block');
    }
  }

  lemma {:induction false} BusySame<T>(keys: seq<Path>, block: Path -> seq<T>, block': Path -> seq<T>)
    requires forall x :: block(x) == block'(x)
    ensures Busy(keys, block) == Busy(keys, block')
  {
    if |keys| > 0 {
      BusySame(keys[..|keys| - 1], block, block');
    }
  }
}
