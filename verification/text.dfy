/**
 * Joining sequences of strings: Rust's `collect::<String>()` over string
 * values (no separator), Rust's `[String]::join(sep)` and Java's
 * `String.join(sep, values)`.
 */
module Text {

  /** Sum of the lengths of the strings in `xs`. */
  function TotalLength(xs: seq<string>): nat
  {
    if |xs| == 0 then 0 else TotalLength(xs[..|xs| - 1]) + |xs[|xs| - 1]|
  }

  /** The strings of `xs` one after the other, with nothing in between. */
  function Concat(xs: seq<string>): string
  {
    if |xs| == 0 then "" else Concat(xs[..|xs| - 1]) + xs[|xs| - 1]
  }

  /**
   * The strings of `xs` with `sep` between each adjacent pair; the empty
   * sequence joins to the empty string.
   */
  function Join(xs: seq<string>, sep: string): string
  {
    if |xs| == 0 then ""
    else if |xs| == 1 then xs[0]
    else Join(xs[..|xs| - 1], sep) + sep + xs[|xs| - 1]
  }

  /** Everything before position `i` of `xs`, separators included, has this length. */
  function JoinOffset(xs: seq<string>, sep: string, i: nat): nat
    requires i <= |xs|
  {
    TotalLength(xs[..i]) + i * |sep|
  }

  lemma {:induction false} TotalLengthAppend(xs: seq<string>, ys: seq<string>)
    ensures TotalLength(xs + ys) == TotalLength(xs) + TotalLength(ys)
    decreases |ys|
  {
    if |ys| == 0 {
      assert xs + ys == xs;
    } else {
      var zs := xs + ys;
      assert zs[..|zs| - 1] == xs + ys[..|ys| - 1];
      TotalLengthAppend(xs, ys[..|ys| - 1]);
    }
  }

  /** Concatenation distributes over sequence append. */
  lemma {:induction false} ConcatAppend(xs: seq<string>, ys: seq<string>)
    ensures Concat(xs + ys) == Concat(xs) + Concat(ys)
    decreases |ys|
  {
    if |ys| == 0 {
      assert xs + ys == xs;
    } else {
      var zs := xs + ys;
      assert zs[..|zs| - 1] == xs + ys[..|ys| - 1];
      ConcatAppend(xs, ys[..|ys| - 1]);
    }
  }

  /** The concatenation is exactly as long as all the parts together. */
  lemma {:induction false} ConcatLength(xs: seq<string>)
    ensures |Concat(xs)| == TotalLength(xs)
  {
    if |xs| > 0 {
      ConcatLength(xs[..|xs| - 1]);
    }
  }

  /**
   * Every part occurs in the concatenation, verbatim, right after all the
   * parts that precede it.
   */
  lemma {:induction false} ConcatContains(xs: seq<string>, i: nat)
    requires i < |xs|
    ensures TotalLength(xs[..i]) + |xs[i]| <= |Concat(xs)|
    ensures Concat(xs)[TotalLength(xs[..i])..TotalLength(xs[..i]) + |xs[i]|] == xs[i]
  {
    assert xs == xs[..i] + [xs[i]] + xs[i + 1..];
    ConcatAppend(xs[..i] + [xs[i]], xs[i + 1..]);
    ConcatAppend(xs[..i], [xs[i]]);
    assert Concat([xs[i]]) == xs[i] by {
      assert [xs[i]][..0] == [];
    }
    ConcatLength(xs[..i]);
  }

  /** Joining with a trailing element: `join(xs + [x]) == join(xs) + sep + x` for non-empty `xs`. */
  lemma JoinSnoc(xs: seq<string>, x: string, sep: string)
    requires |xs| > 0
    ensures Join(xs + [x], sep) == Join(xs, sep) + sep + x
  {
    assert (xs + [x])[..|xs|] == xs;
  }

  /** A join of `n > 0` strings is as long as the strings plus `n - 1` separators. */
  lemma {:induction false} JoinLength(xs: seq<string>, sep: string)
    ensures |xs| == 0 ==> |Join(xs, sep)| == 0
    ensures |xs| > 0 ==> |Join(xs, sep)| == TotalLength(xs) + (|xs| - 1) * |sep|
  {
    if |xs| == 1 {
      assert xs[..0] == [];
    } else if |xs| > 1 {
      JoinLength(xs[..|xs| - 1], sep);
    }
  }

  /** A slice that lies within the first part of a concatenation is a slice of that part. */
  lemma SliceOfPrefix(a: string, b: string, lo: nat, hi: nat)
    requires lo <= hi <= |a|
    ensures (a + b)[lo..hi] == a[lo..hi]
  {
  }

  /** A slice of a string found inside another is a slice of the other, shifted. */
  lemma SliceWithin(a: string, m: string, start: nat, lo: nat, hi: nat)
    requires start + |m| <= |a| && a[start..start + |m|] == m
    requires lo <= hi <= |m|
    ensures a[start + lo..start + hi] == m[lo..hi]
  {
    var x := a[start + lo..start + hi];
    forall k | 0 <= k < |x|
      ensures x[k] == m[lo..hi][k]
    {
      assert x[k] == a[start..start + |m|][lo + k];
    }
  }

  /** The last part of a join of two or more sits right after the join of the others and a separator. */
  lemma JoinContainsLast(xs: seq<string>, sep: string)
    requires |xs| > 1
    ensures JoinOffset(xs, sep, |xs| - 1) + |xs[|xs| - 1]| == |Join(xs, sep)|
    ensures Join(xs, sep)[JoinOffset(xs, sep, |xs| - 1)..] == xs[|xs| - 1]
  {
    var n := |xs|;
    var pre := xs[..n - 1];
    JoinLength(pre, sep);
    assert xs[..n - 1] == pre;
    var head := Join(pre, sep) + sep;
    JoinUnfold(xs, sep);
    assert JoinOffset(xs, sep, n - 1) == |head|;
  }

  /** A join of two or more is the join of all but the last, a separator, and the last. */
  lemma JoinUnfold(xs: seq<string>, sep: string)
    requires |xs| > 1
    ensures Join(xs, sep) == Join(xs[..|xs| - 1], sep) + sep + xs[|xs| - 1]
  {
  }

  /**
   * Every part occurs in the join, verbatim, after the parts before it and
   * one separator per part before it.
   */
  lemma {:induction false} JoinContains(xs: seq<string>, sep: string, i: nat)
    requires i < |xs|
    ensures JoinOffset(xs, sep, i) + |xs[i]| <= |Join(xs, sep)|
    ensures Join(xs, sep)[JoinOffset(xs, sep, i)..JoinOffset(xs, sep, i) + |xs[i]|] == xs[i]
    decreases |xs|
  {
    var n := |xs|;
    if n == 1 {
      assert xs[..0] == [];
    } else if i == n - 1 {
      JoinContainsLast(xs, sep);
    } else {
      var pre := xs[..n - 1];
      assert pre[..i] == xs[..i];
      JoinContains(pre, sep, i);
      var at := JoinOffset(xs, sep, i);
      assert JoinOffset(pre, sep, i) == at;
      assert Join(xs, sep) == Join(pre, sep) + (sep + xs[n - 1]);
      SliceOfPrefix(Join(pre, sep), sep + xs[n - 1], at, at + |xs[i]|);
    }
  }

  /** With an empty separator, joining is plain concatenation. */
  lemma {:induction false} JoinEmptySeparator(xs: seq<string>)
    ensures Join(xs, "") == Concat(xs)
  {
    if |xs| == 1 {
      assert xs[..0] == [];
    } else if |xs| > 1 {
      JoinEmptySeparator(xs[..|xs| - 1]);
    }
  }
}
