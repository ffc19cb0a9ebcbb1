/**
 Insertion-ordered dictionaries, as Python's `dict` behaves: a new key is
 appended to the key order, assigning to an existing key keeps its place.
 The ledger replay depends on that order (the year roll-up keeps the last
 weekly entry of each year, and the first year is the earliest inserted).
 */
module OrderedMaps {

  /** Keys in insertion order plus the key-value mapping. */
  datatype OMap<K, V> = OMap(keys: seq<K>, m: map<K, V>)

  predicate Distinct<T(==)>(s: seq<T>)
  {
    forall i, j :: 0 <= i < j < |s| ==> s[i] != s[j]
  }

  /** The key order lists every key of the mapping exactly once. */
  ghost predicate Valid<K(!new), V>(om: OMap<K, V>)
  {
    Distinct(om.keys) && forall k :: k in om.m <==> k in om.keys
  }

  function Empty<K(==,!new), V>(): (r: OMap<K, V>)
    ensures Valid(r)
  {
    OMap([], map[])
  }

  /** Assign `v` to `k`: a new key goes to the end, an existing key keeps its place. */
  function Put<K(==,!new), V>(om: OMap<K, V>, k: K, v: V): (r: OMap<K, V>)
    ensures Valid(om) ==> Valid(r)
  {
    OMap(if k in om.m then om.keys else om.keys + [k], om.m[k := v])
  }

  /** The value at `k`, or `default` when `k` has none. */
  function Get<K(==,!new), V>(om: OMap<K, V>, k: K, default: V): V
  {
    if k in om.m then om.m[k] else default
  }

  /** Sum of the values at `keys`, in order; a key the mapping lacks adds nothing. */
  function SumOver<K(==,!new)>(keys: seq<K>, m: map<K, real>): real
  {
    if |keys| == 0 then 0.0
    else
      var k := keys[|keys| - 1];
      SumOver(keys[..|keys| - 1], m) + (if k in m then m[k] else 0.0)
  }

  /** The sum of all values. */
  function SumValues<K(==,!new)>(om: OMap<K, real>): real
  {
    SumOver(om.keys, om.m)
  }

  /** Changing the value at one listed key moves the sum by the difference. */
  lemma {:induction false} SumOverUpdate<K(!new)>(keys: seq<K>, m: map<K, real>, k: K, v: real)
    requires Distinct(keys)
    requires forall x :: x in keys ==> x in m
    ensures SumOver(keys, m[k := v]) == SumOver(keys, m) + (if k in keys then v - m[k] else 0.0)
  {
    if |keys| > 0 {
      var init := keys[..|keys| - 1];
      var last := keys[|keys| - 1];
      assert forall i :: 0 <= i < |init| ==> init[i] == keys[i];
      assert Distinct(init);
      assert k in keys <==> k in init || k == last;
      assert k == last ==> k !in init;
      SumOverUpdate(init, m, k, v);
    }
  }

  /** The sum over an extended key list adds the new key's value. */
  lemma SumOverAppend<K(!new)>(keys: seq<K>, m: map<K, real>, k: K)
    requires k in m
    ensures SumOver(keys + [k], m) == SumOver(keys, m) + m[k]
  {
    assert (keys + [k])[..|keys|] == keys;
  }

  /** Adding `d` to a key's value (0 if absent) adds `d` to the sum of all values. */
  lemma AddToSum<K(!new)>(om: OMap<K, real>, k: K, d: real)
    requires Valid(om)
    ensures SumValues(Put(om, k, Get(om, k, 0.0) + d)) == SumValues(om) + d
  {
    var r := Put(om, k, Get(om, k, 0.0) + d);
    if k in om.m {
      SumOverUpdate(om.keys, om.m, k, om.m[k] + d);
    } else {
      SumOverUpdate(om.keys, om.m, k, d);
      SumOverAppend(om.keys, r.m, k);
    }
  }

  /** The distinct elements of `s` in order of first occurrence. */
  function FirstSightings<T(==,!new)>(s: seq<T>): seq<T>
  {
    if |s| == 0 then []
    else
      var init := FirstSightings(s[..|s| - 1]);
      if s[|s| - 1] in init then init else init + [s[|s| - 1]]
  }

  /** First sightings list each element of `s` exactly once. */
  lemma {:induction false} FirstSightingsSpec<T(!new)>(s: seq<T>)
    ensures Distinct(FirstSightings(s))
    ensures forall x :: x in FirstSightings(s) <==> x in s
  {
    if |s| > 0 {
      FirstSightingsSpec(s[..|s| - 1]);
      assert forall x :: x in s <==> x in s[..|s| - 1] || x == s[|s| - 1];
    }
  }
}
