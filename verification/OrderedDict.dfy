/** `collections.OrderedDict` with string keys, as a value: the keys in order, and the
    mapping. */
module OrderedDict {
  import opened Wrappers

  datatype ODict<V> = ODict(keys: seq<string>, vals: map<string, V>)

  function Empty<V>(): ODict<V> {
    ODict([], map[])
  }

  ghost predicate Distinct(keys: seq<string>) {
    forall i, j :: 0 <= i < j < |keys| ==> keys[i] != keys[j]
  }

  ghost predicate Valid<V>(d: ODict<V>) {
    && Distinct(d.keys)
    && (forall k :: k in d.keys <==> k in d.vals)
  }

  function Get<V>(d: ODict<V>, k: string): Option<V> {
    if k in d.vals then Some(d.vals[k]) else None
  }

  function Without(keys: seq<string>, k: string): seq<string> {
    if keys == [] then []
    else if keys[0] == k then Without(keys[1..], k)
    else [keys[0]] + Without(keys[1..], k)
  }

  /** `d.pop(k, None)`. */
  function Pop<V>(d: ODict<V>, k: string): ODict<V> {
    ODict(Without(d.keys, k), d.vals - {k})
  }

  /** `d[k] = v; d.move_to_end(k)`, which is also pop-then-insert. */
  function PutLast<V>(d: ODict<V>, k: string, v: V): ODict<V> {
    ODict(Without(d.keys, k) + [k], d.vals[k := v])
  }

  /** `d.popitem(last=False)`. */
  function PopFirst<V>(d: ODict<V>): ODict<V>
    requires d.keys != []
  {
    ODict(d.keys[1..], d.vals - {d.keys[0]})
  }

  /** `while len(d) > max: d.popitem(last=False)`. */
  function Evict<V>(d: ODict<V>, max: nat): ODict<V>
    decreases |d.keys|
  {
    if |d.keys| > max then Evict(PopFirst(d), max) else d
  }

  lemma {:induction false} WithoutIs(keys: seq<string>, k: string)
    ensures k !in Without(keys, k)
    ensures forall x :: x in Without(keys, k) <==> x in keys && x != k
    ensures Distinct(keys) ==> Distinct(Without(keys, k))
    ensures |Without(keys, k)| <= |keys| && (k in keys ==> |Without(keys, k)| < |keys|)
    ensures k !in keys ==> Without(keys, k) == keys
  {
    if keys != [] {
      WithoutIs(keys[1..], k);
      assert keys == [keys[0]] + keys[1..];
      var w := Without(keys[1..], k);
      assert Distinct(keys) ==> Distinct(keys[1..]);
      assert keys[0] !in keys[1..] ==> keys[0] !in w;
    }
  }

  lemma PopValid<V>(d: ODict<V>, k: string)
    requires Valid(d)
    ensures Valid(Pop(d, k)) && |Pop(d, k).keys| <= |d.keys|
  {
    WithoutIs(d.keys, k);
  }

  lemma PutLastValid<V>(d: ODict<V>, k: string, v: V)
    requires Valid(d)
    ensures Valid(PutLast(d, k, v))
  {
    WithoutIs(d.keys, k);
  }

  lemma PopFirstValid<V>(d: ODict<V>)
    requires Valid(d) && d.keys != []
    ensures Valid(PopFirst(d))
  {
    assert d.keys == [d.keys[0]] + d.keys[1..];
  }

  lemma {:induction false} EvictValid<V>(d: ODict<V>, max: nat)
    requires Valid(d)
    ensures Valid(Evict(d, max)) && |Evict(d, max).keys| <= max
    ensures forall k :: k in Evict(d, max).vals ==> k in d.vals && Evict(d, max).vals[k] == d.vals[k]
    decreases |d.keys|
  {
    if |d.keys| > max {
      PopFirstValid(d);
      EvictValid(PopFirst(d), max);
    }
  }

  // ---- recency ---------------------------------------------------------------------------------

  /** The keys that come after `k`. */
  function After(keys: seq<string>, k: string): set<string> {
    if keys == [] then {}
    else if keys[0] == k then set x | x in keys[1..]
    else After(keys[1..], k)
  }

  lemma {:induction false} AfterWithout(keys: seq<string>, k: string, other: string)
    requires k != other
    ensures After(Without(keys, other), k) <= After(keys, k)
  {
    if keys != [] {
      AfterWithout(keys[1..], k, other);
      WithoutIs(keys[1..], other);
    }
  }

  lemma {:induction false} AfterSnoc(keys: seq<string>, k: string, x: string)
    requires k in keys
    ensures After(keys + [x], k) == After(keys, k) + {x}
  {
    assert (keys + [x])[1..] == keys[1..] + [x];
    if keys[0] != k {
      AfterSnoc(keys[1..], k, x);
    }
  }

  lemma {:induction false} AfterLast(keys: seq<string>, k: string)
    requires k !in keys
    ensures After(keys + [k], k) == {}
  {
    if keys != [] {
      assert (keys + [k])[1..] == keys[1..] + [k];
      AfterLast(keys[1..], k);
    }
  }

  lemma {:induction false} DistinctCard(keys: seq<string>)
    requires Distinct(keys)
    ensures |set x | x in keys| == |keys|
  {
    if keys != [] {
      DistinctCard(keys[1..]);
      assert (set x | x in keys) == {keys[0]} + set x | x in keys[1..];
    }
  }

  /** A key survives eviction if fewer than `max` keys come after it. */
  lemma {:induction false} EvictKeeps<V>(d: ODict<V>, k: string, max: nat)
    requires Valid(d) && k in d.keys && |After(d.keys, k)| < max
    ensures k in Evict(d, max).keys && After(Evict(d, max).keys, k) == After(d.keys, k)
    decreases |d.keys|
  {
    if |d.keys| > max {
      if d.keys[0] == k {
        DistinctCard(d.keys[1..]);
        assert false;
      }
      PopFirstValid(d);
      EvictKeeps(PopFirst(d), k, max);
    }
  }

  // ---- removing while walking --------------------------------------------------------------------

  /** Walks a list of keys and pops those whose entry is bad. */
  function PopIf<V>(d: ODict<V>, keys: seq<string>, bad: (string, V) -> bool): ODict<V> {
    if keys == [] then d
    else
      var rest, k := PopIf(d, keys[..|keys| - 1], bad), keys[|keys| - 1];
      if k in rest.vals && bad(k, rest.vals[k]) then Pop(rest, k) else rest
  }

  lemma {:induction false} PopIfIs<V>(d: ODict<V>, keys: seq<string>, bad: (string, V) -> bool)
    requires Valid(d)
    ensures var r := PopIf(d, keys, bad);
      && Valid(r) && |r.keys| <= |d.keys|
      && forall k :: k in r.vals <==> k in d.vals && !(k in keys && bad(k, d.vals[k]))
    ensures var r := PopIf(d, keys, bad); forall k :: k in r.vals ==> r.vals[k] == d.vals[k]
  {
    if keys != [] {
      var front, k := keys[..|keys| - 1], keys[|keys| - 1];
      PopIfIs(d, front, bad);
      PopValid(PopIf(d, front, bad), k);
      assert keys == front + [k];
    }
  }

  lemma PopIfNone<V>(d: ODict<V>, bad: (string, V) -> bool)
    ensures PopIf(d, [], bad) == d
  {
  }

  lemma PopIfStep<V>(d: ODict<V>, keys: seq<string>, k: nat, bad: (string, V) -> bool)
    requires k < |keys|
    ensures var rest := PopIf(d, keys[..k], bad);
      PopIf(d, keys[..k + 1], bad) ==
      if keys[k] in rest.vals && bad(keys[k], rest.vals[keys[k]]) then Pop(rest, keys[k]) else rest
  {
    assert keys[..k + 1][..k] == keys[..k];
  }
}
