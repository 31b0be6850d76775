/** Options, and the few sequence operations the rest of the model shares. */
module Collections {

  datatype Option<+T> = None | Some(value: T)

  ghost predicate Distinct<T(!new)>(s: seq<T>) {
    forall i, j :: 0 <= i < j < |s| ==> s[i] != s[j]
  }

  /** `s` with every occurrence of `x` taken out, the rest in order. */
  function Without<T(==, !new)>(s: seq<T>, x: T): (r: seq<T>)
    ensures forall y :: y in r <==> y in s && y != x
    ensures x !in s ==> r == s
    ensures |r| <= |s|
    ensures Distinct(s) ==> Distinct(r)
    ensures Distinct(s) && x in s ==> |r| == |s| - 1
  {
    if |s| == 0 then []
    else
      var init, last := s[..|s| - 1], s[|s| - 1];
      assert s == init + [last];
      var rest := Without(init, x);
      assert Distinct(s) ==> last !in init;
      assert forall i :: 0 <= i < |rest| ==> rest[i] in init;
      if last == x then rest else rest + [last]
  }

  /** The last `n` elements of `s`, or all of it when it is shorter. */
  function LastN<T>(s: seq<T>, n: nat): seq<T> {
    if |s| <= n then s else s[|s| - n..]
  }

  lemma LastNOfConcat<T>(a: seq<T>, b: seq<T>, n: nat)
    requires |b| == n || (a == [] && |b| <= n)
    ensures LastN(a + b, n) == b
  {
  }

  lemma {:induction false} WithoutConcat<T(!new)>(a: seq<T>, b: seq<T>, x: T)
    ensures Without(a + b, x) == Without(a, x) + Without(b, x)
  {
    if |b| == 0 {
      assert a + b == a;
    } else {
      var init, last := b[..|b| - 1], b[|b| - 1];
      assert (a + b)[..|a + b| - 1] == a + init && (a + b)[|a + b| - 1] == last;
      WithoutConcat(a, init, x);
      assert Without(a, x) + Without(init, x) + [last] == Without(a, x) + (Without(init, x) + [last]);
    }
  }

  function Flatten<T>(ss: seq<seq<T>>): seq<T> {
    if |ss| == 0 then [] else Flatten(ss[..|ss| - 1]) + ss[|ss| - 1]
  }

  lemma {:induction false} FlattenSplit<T>(ss: seq<seq<T>>, k: nat)
    requires k <= |ss|
    ensures Flatten(ss) == Flatten(ss[..k]) + Flatten(ss[k..])
  {
    if k == |ss| {
      assert ss[..k] == ss;
    } else {
      var n := |ss| - 1;
      FlattenSplit(ss[..n], k);
      assert ss[..n][..k] == ss[..k] && ss[..n][k..] == ss[k..][..n - k];
    }
  }

  /** Python's `dict`: a map that remembers the order in which its keys were first inserted. */
  datatype Dict<K, V> = Dict(keys: seq<K>, vals: map<K, V>)

  function EmptyDict<K, V>(): Dict<K, V> { Dict([], map[]) }

  ghost predicate ValidDict<K(!new), V>(d: Dict<K, V>) {
    && Distinct(d.keys)
    && (forall k :: k in d.keys <==> k in d.vals)
  }

  function Lookup<K, V>(m: map<K, V>, k: K): Option<V> {
    if k in m then Some(m[k]) else None
  }

  function Put<K(==, !new), V>(d: Dict<K, V>, k: K, v: V): (r: Dict<K, V>)
    ensures ValidDict(d) ==> ValidDict(r)
  {
    Dict(if k in d.vals then d.keys else d.keys + [k], d.vals[k := v])
  }

  function Delete<K(==, !new), V>(d: Dict<K, V>, k: K): (r: Dict<K, V>)
    ensures ValidDict(d) ==> ValidDict(r)
  {
    Dict(Without(d.keys, k), d.vals - {k})
  }

  /** `OrderedDict.move_to_end`. */
  function MoveToEnd<K(==, !new), V>(d: Dict<K, V>, k: K): (r: Dict<K, V>)
    requires k in d.vals
    ensures ValidDict(d) ==> ValidDict(r)
  {
    Dict(Without(d.keys, k) + [k], d.vals)
  }

  /** `OrderedDict.popitem(last=False)`. */
  function PopFirst<K(==, !new), V>(d: Dict<K, V>): (r: Dict<K, V>)
    requires |d.keys| > 0
    ensures ValidDict(d) ==> ValidDict(r)
  {
    Dict(d.keys[1..], d.vals - {d.keys[0]})
  }
}
