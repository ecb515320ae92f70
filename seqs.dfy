/** Column arithmetic over sequences: the pandas `sum` and `mean` of a column,
    taken over mathematical reals. */
module Seqs {

  /** The sum of `f` over `xs`; the sum of an empty column is 0. */
  function Total<T>(xs: seq<T>, f: T -> real): real
  {
    if |xs| == 0 then 0.0 else f(xs[0]) + Total(xs[1..], f)
  }

  lemma {:induction false} TotalAppend<T>(a: seq<T>, b: seq<T>, f: T -> real)
    ensures Total(a + b, f) == Total(a, f) + Total(b, f)
  {
    if |a| == 0 {
      assert a + b == b;
    } else {
      assert (a + b)[1..] == a[1..] + b;
      TotalAppend(a[1..], b, f);
    }
  }

  /** A column whose every value is at most `hi` sums to at most n * hi. */
  lemma {:induction false} TotalAtMost<T>(xs: seq<T>, f: T -> real, hi: real)
    requires forall x :: x in xs ==> f(x) <= hi
    ensures Total(xs, f) <= hi * |xs| as real
  {
    if |xs| > 0 {
      var rest := xs[1..];
      assert xs[0] in xs;
      TotalAtMost(rest, f, hi);
      assert hi * |xs| as real == hi * |rest| as real + hi;
    }
  }

  /** A column whose every value is at least `lo` sums to at least n * lo. */
  lemma {:induction false} TotalAtLeast<T>(xs: seq<T>, f: T -> real, lo: real)
    requires forall x :: x in xs ==> lo <= f(x)
    ensures lo * |xs| as real <= Total(xs, f)
  {
    if |xs| > 0 {
      var rest := xs[1..];
      assert xs[0] in xs;
      TotalAtLeast(rest, f, lo);
      assert lo * |xs| as real == lo * |rest| as real + lo;
    }
  }

  /** A column of positive values has a positive sum. */
  lemma {:induction false} TotalPositive<T>(xs: seq<T>, f: T -> real)
    requires |xs| > 0
    requires forall x :: x in xs ==> f(x) > 0.0
    ensures Total(xs, f) > 0.0
  {
    assert xs[0] in xs;
    assert forall x :: x in xs[1..] ==> x in xs;
    if |xs| > 1 {
      TotalPositive(xs[1..], f);
    } else {
      assert xs[1..] == [];
    }
  }

  /** A column of values at most zero has a sum at most zero. */
  lemma {:induction false} TotalNonPositive<T>(xs: seq<T>, f: T -> real)
    requires forall x :: x in xs ==> f(x) <= 0.0
    ensures Total(xs, f) <= 0.0
  {
    if |xs| > 0 {
      assert xs[0] in xs;
      assert forall x :: x in xs[1..] ==> x in xs;
      TotalNonPositive(xs[1..], f);
    }
  }

  /** The mean of a non-empty column: the value that, taken n times, gives the sum. */
  function Mean<T>(xs: seq<T>, f: T -> real): (m: real)
    requires |xs| > 0
    ensures m * |xs| as real == Total(xs, f)
  {
    Total(xs, f) / |xs| as real
  }

  /** The mean lies between any bounds of the column. */
  lemma MeanBounds<T>(xs: seq<T>, f: T -> real, lo: real, hi: real)
    requires |xs| > 0
    requires forall x :: x in xs ==> lo <= f(x) <= hi
    ensures lo <= Mean(xs, f) <= hi
  {
    TotalAtLeast(xs, f, lo);
    TotalAtMost(xs, f, hi);
    var n := |xs| as real;
    var m := Mean(xs, f);
    assert m * n == Total(xs, f);
    assert m * n >= lo * n;
    assert m * n <= hi * n;
  }

  /** No value occurs twice. */
  predicate Distinct<T(==)>(xs: seq<T>)
  {
    forall i, j :: 0 <= i < j < |xs| ==> xs[i] != xs[j]
  }
}
