/**
 * Iteration over a map of messages. Neither Rust's `HashMap::values` nor
 * Hazelcast's `IMap.values` promises an order, so a read of all values is
 * modelled over an explicit `order`: any sequence listing every key exactly
 * once.
 */
module MapOrder {
  import opened Text

  /** `order` lists every key of `m` exactly once, and nothing else. */
  predicate IsEnumeration<K>(order: seq<K>, m: map<K, string>)
  {
    && (forall i, j :: 0 <= i < j < |order| ==> order[i] != order[j])
    && (forall i :: 0 <= i < |order| ==> order[i] in m)
    && (forall k :: k in m ==> k in order)
  }

  /** The values of `m` in the iteration order `order`. */
  function ValuesInOrder<K>(m: map<K, string>, order: seq<K>): (vs: seq<string>)
    requires forall i :: 0 <= i < |order| ==> order[i] in m
    ensures |vs| == |order|
    ensures forall i :: 0 <= i < |order| ==> vs[i] == m[order[i]]
  {
    seq(|order|, i requires 0 <= i < |order| => m[order[i]])
  }

  /** The total length of all values of `m`, whatever the iteration order. */
  ghost function SumLengths<K>(m: map<K, string>): nat
    decreases |m|
  {
    if m == map[] then 0
    else
      var k :| k in m;
      |m[k]| + SumLengths(m - {k})
  }

  /** Removing a present key shrinks the map by one. */
  lemma RemoveSize<K>(m: map<K, string>, k: K)
    requires k in m
    ensures |m - {k}| == |m| - 1
  {
    assert (m - {k}).Keys == m.Keys - {k};
  }

  /** `SumLengths` may peel off any key, not just the one it happens to choose. */
  lemma {:induction false} SumLengthsRemove<K>(m: map<K, string>, k: K)
    requires k in m
    ensures SumLengths(m) == |m[k]| + SumLengths(m - {k})
    decreases |m|
  {
    var c :| c in m && SumLengths(m) == |m[c]| + SumLengths(m - {c});
    if c != k {
      RemoveSize(m, c);
      RemoveSize(m, k);
      SumLengthsRemove(m - {c}, k);
      SumLengthsRemove(m - {k}, c);
      assert m - {c} - {k} == m - {k} - {c};
    }
  }

  /** Some iteration order always exists, so reading every value is always possible. */
  ghost function SomeEnumeration<K>(m: map<K, string>): (order: seq<K>)
    ensures IsEnumeration(order, m)
    decreases |m|
  {
    if m == map[] then []
    else
      var k :| k in m;
      RemoveSize(m, k);
      var rest := SomeEnumeration(m - {k});
      rest + [k]
  }

  /** The prefix of an enumeration without its last key enumerates the rest of the map. */
  lemma EnumerationDropLast<K>(order: seq<K>, m: map<K, string>)
    requires IsEnumeration(order, m)
    requires |order| > 0
    ensures IsEnumeration(order[..|order| - 1], m - {order[|order| - 1]})
  {
    var n := |order|;
    var pre := order[..n - 1];
    var k := order[n - 1];
    forall x | x in m - {k}
      ensures x in pre
    {
      var i :| 0 <= i < n && order[i] == x;
      assert i != n - 1;
      assert pre[i] == x;
    }
  }

  /** An enumeration has exactly one entry per key. */
  lemma {:induction false} EnumerationSize<K>(order: seq<K>, m: map<K, string>)
    requires IsEnumeration(order, m)
    ensures |order| == |m|
  {
    if |order| > 0 {
      var k := order[|order| - 1];
      EnumerationDropLast(order, m);
      EnumerationSize(order[..|order| - 1], m - {k});
      RemoveSize(m, k);
    }
  }

  /** The values listed in any iteration order have the same total length. */
  lemma {:induction false} EnumerationTotalLength<K>(order: seq<K>, m: map<K, string>)
    requires IsEnumeration(order, m)
    ensures TotalLength(ValuesInOrder(m, order)) == SumLengths(m)
  {
    if |order| > 0 {
      var n := |order|;
      var k := order[n - 1];
      var pre := order[..n - 1];
      EnumerationDropLast(order, m);
      EnumerationTotalLength(pre, m - {k});
      var vs := ValuesInOrder(m, order);
      assert vs[..n - 1] == ValuesInOrder(m - {k}, pre);
      SumLengthsRemove(m, k);
    }
  }
}
