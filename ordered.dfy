/** Sorted, duplicate-free sequences and maxima: the shape of what pandas'
    `groupby(...)` (sorted keys), `unique()` followed by `sorted(...)` and
    `max()` produce. */
module Ordered {
  import opened Text

  /** No value occurs twice in `xs`. */
  predicate Distinct<T(==)>(xs: seq<T>) {
    forall i, j :: 0 <= i < j < |xs| ==> xs[i] != xs[j]
  }

  /** The set of values of `xs`. */
  function Elements<T>(xs: seq<T>): set<T> {
    set x | x in xs
  }

  /** A duplicate-free sequence has as many distinct values as entries. */
  lemma {:induction false} DistinctCard<T>(xs: seq<T>)
    requires Distinct(xs)
    ensures |Elements(xs)| == |xs|
  {
    if |xs| > 0 {
      DistinctCard(xs[1..]);
      assert Elements(xs) == {xs[0]} + Elements(xs[1..]);
      assert xs[0] !in Elements(xs[1..]);
    }
  }

  // ---------------------------------------------------------------- integers

  predicate IntsAscending(xs: seq<int>) {
    forall i, j :: 0 <= i < j < |xs| ==> xs[i] < xs[j]
  }

  /** Insert `x` into a strictly ascending sequence, keeping it strictly
      ascending; an `x` already present is not added twice. */
  function InsertInt(xs: seq<int>, x: int): (r: seq<int>)
    requires IntsAscending(xs)
    ensures IntsAscending(r)
    ensures forall y :: y in r <==> y in xs || y == x
  {
    if |xs| == 0 then [x]
    else if x < xs[0] then
      var r := [x] + xs;
      assert forall j :: 0 < j < |r| ==> r[j] == xs[j - 1];
      r
    else if x == xs[0] then xs
    else
      var rest := InsertInt(xs[1..], x);
      assert forall y :: y in xs[1..] ==> xs[0] < y;
      assert forall j :: 0 <= j < |rest| ==> xs[0] < rest[j] by {
        forall j | 0 <= j < |rest| ensures xs[0] < rest[j] {
          assert rest[j] in rest;
        }
      }
      var r := [xs[0]] + rest;
      assert forall j :: 0 < j < |r| ==> r[j] == rest[j - 1];
      r
  }

  /** The distinct values of `xs` in ascending order. */
  function SortedDistinctInts(xs: seq<int>): (r: seq<int>)
    ensures IntsAscending(r)
    ensures forall y :: y in r <==> y in xs
  {
    if |xs| == 0 then []
    else InsertInt(SortedDistinctInts(xs[..|xs| - 1]), xs[|xs| - 1])
  }

  // ----------------------------------------------------------------- strings

  predicate StrsAscending(xs: seq<string>) {
    forall i, j :: 0 <= i < j < |xs| ==> LexLess(xs[i], xs[j])
  }

  lemma StrsAscendingDistinct(xs: seq<string>)
    requires StrsAscending(xs)
    ensures Distinct(xs)
  {
    forall i, j | 0 <= i < j < |xs| ensures xs[i] != xs[j] {
      LexIrreflexive(xs[i]);
    }
  }

  /** Insert `x` into a strictly ascending sequence of strings, keeping it
      strictly ascending; an `x` already present is not added twice. */
  function InsertStr(xs: seq<string>, x: string): (r: seq<string>)
    requires StrsAscending(xs)
    ensures StrsAscending(r)
    ensures forall y :: y in r <==> y in xs || y == x
  {
    if |xs| == 0 then [x]
    else if x == xs[0] then xs
    else if LexLess(x, xs[0]) then
      var r := [x] + xs;
      assert forall j :: 0 < j < |r| ==> LexLess(x, r[j]) by {
        forall j | 0 < j < |r| ensures LexLess(x, r[j]) {
          if j > 1 { LexTransitive(x, xs[0], xs[j - 1]); }
        }
      }
      r
    else
      var rest := InsertStr(xs[1..], x);
      LexTotal(x, xs[0]);
      assert forall y :: y in rest ==> LexLess(xs[0], y);
      [xs[0]] + rest
  }

  /** The distinct values of `xs` in Python's string order. */
  function SortedDistinctStrs(xs: seq<string>): (r: seq<string>)
    ensures StrsAscending(r)
    ensures forall y :: y in r <==> y in xs
  {
    if |xs| == 0 then []
    else InsertStr(SortedDistinctStrs(xs[..|xs| - 1]), xs[|xs| - 1])
  }

  /** Every value of a strictly ascending sequence other than its first comes
      after the first. */
  lemma FirstIsLeast(xs: seq<string>, y: string)
    requires StrsAscending(xs) && y in xs
    ensures y == xs[0] || LexLess(xs[0], y)
  {
  }

  /** A strictly ascending sequence is determined by its values: sorting the
      same values twice gives the same sequence. */
  lemma {:induction false} StrsAscendingUnique(a: seq<string>, b: seq<string>)
    requires StrsAscending(a) && StrsAscending(b)
    requires forall y :: y in a <==> y in b
    ensures a == b
  {
    assert |a| > 0 ==> a[0] in b;
    assert |b| > 0 ==> b[0] in a;
    if |a| > 0 && |b| > 0 {
      // a[0] and b[0] are both the least value
      FirstIsLeast(b, a[0]);
      FirstIsLeast(a, b[0]);
      if LexLess(a[0], b[0]) { LexAsymmetric(a[0], b[0]); }
      forall y ensures y in a[1..] <==> y in b[1..] {
        if y in a[1..] {
          var j :| 1 <= j < |a| && a[j] == y;
          LexIrreflexive(a[0]);
          FirstIsLeast(b, y);
        }
        if y in b[1..] {
          var j :| 1 <= j < |b| && b[j] == y;
          LexIrreflexive(b[0]);
          FirstIsLeast(a, y);
        }
      }
      StrsAscendingUnique(a[1..], b[1..]);
      assert a == [a[0]] + a[1..] && b == [b[0]] + b[1..];
    }
  }

  // ------------------------------------------------------------------ maxima

  /** The largest value of a non-empty sequence (Python's `max`, pandas'
      `max()` on a column without missing values). */
  function MaxOf(xs: seq<real>): (m: real)
    requires |xs| > 0
    ensures m in xs
    ensures forall i :: 0 <= i < |xs| ==> xs[i] <= m
  {
    if |xs| == 1 then xs[0]
    else
      var m := MaxOf(xs[..|xs| - 1]);
      if xs[|xs| - 1] > m then xs[|xs| - 1] else m
  }

  /** Some value exceeds `x` exactly when the maximum does. */
  lemma MaxOfExceeds(xs: seq<real>, x: real)
    requires |xs| > 0
    ensures (exists i :: 0 <= i < |xs| && x < xs[i]) <==> x < MaxOf(xs)
  {
    var m := MaxOf(xs);
    if x < m {
      var i :| 0 <= i < |xs| && xs[i] == m;
      assert x < xs[i];
    }
  }
}
