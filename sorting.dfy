/** Ordering the rows of a rollup by one numeric column: a stable sort, so
    rows whose ranks tie keep the order they came in. */
module Sorting {
  import opened Seqs

  /** The ranks never decrease from left to right. */
  predicate Ascending<T>(xs: seq<T>, rank: T -> real)
  {
    forall i, j :: 0 <= i < j < |xs| ==> rank(xs[i]) <= rank(xs[j])
  }

  /** The ranks strictly increase from left to right. */
  predicate StrictlyAscending<T>(xs: seq<T>, rank: T -> real)
  {
    forall i, j :: 0 <= i < j < |xs| ==> rank(xs[i]) < rank(xs[j])
  }

  /** Putting an element in front of a strictly rising sequence, below all
      of it, keeps it strictly rising. */
  lemma ConsStrictlyAscending<T>(y: T, t: seq<T>, rank: T -> real)
    requires StrictlyAscending(t, rank)
    requires forall z :: z in t ==> rank(y) < rank(z)
    ensures StrictlyAscending([y] + t, rank)
  {
    var r := [y] + t;
    forall i, j | 0 <= i < j < |r|
      ensures rank(r[i]) < rank(r[j])
    {
      assert r[j] == t[j - 1];
      if i == 0 {
        assert t[j - 1] in t;
      } else {
        assert r[i] == t[i - 1];
      }
    }
  }

  /** The tail of a strictly rising sequence rises strictly, above its head. */
  lemma TailStrictlyAscending<T>(xs: seq<T>, rank: T -> real)
    requires |xs| > 0 && StrictlyAscending(xs, rank)
    ensures StrictlyAscending(xs[1..], rank)
    ensures forall z :: z in xs[1..] ==> rank(xs[0]) < rank(z)
  {
    var t := xs[1..];
    forall i, j | 0 <= i < j < |t|
      ensures rank(t[i]) < rank(t[j])
    {
      assert t[i] == xs[i + 1] && t[j] == xs[j + 1];
    }
    forall z | z in t
      ensures rank(xs[0]) < rank(z)
    {
      var k :| 0 <= k < |t| && t[k] == z;
      assert xs[k + 1] == z;
    }
  }

  /** Elements of equal rank appear in rising `pos` order. */
  predicate TiesOrdered<T>(xs: seq<T>, rank: T -> real, pos: T -> real)
  {
    forall i, j :: 0 <= i < j < |xs| && rank(xs[i]) == rank(xs[j]) ==> pos(xs[i]) < pos(xs[j])
  }

  /** Puts `x` into the ascending `ys` before the first element that ranks
      at least as high. */
  function Insert<T>(x: T, ys: seq<T>, rank: T -> real): (r: seq<T>)
    requires Ascending(ys, rank)
    ensures |r| == |ys| + 1
    ensures multiset(r) == multiset(ys) + multiset{x}
    ensures forall z :: z in r ==> z == x || z in ys
    ensures Ascending(r, rank)
  {
    if |ys| == 0 || rank(x) <= rank(ys[0]) then
      [x] + ys
    else
      var tail := Insert(x, ys[1..], rank);
      assert ys == [ys[0]] + ys[1..];
      HeadRanksLowest(ys, rank);
      ConsAscending(ys[0], tail, rank);
      [ys[0]] + tail
  }

  lemma HeadRanksLowest<T>(ys: seq<T>, rank: T -> real)
    requires |ys| > 0 && Ascending(ys, rank)
    ensures forall z :: z in ys ==> rank(ys[0]) <= rank(z)
  {
  }

  lemma ConsAscending<T>(y: T, t: seq<T>, rank: T -> real)
    requires Ascending(t, rank)
    requires forall z :: z in t ==> rank(y) <= rank(z)
    ensures Ascending([y] + t, rank)
  {
    var r := [y] + t;
    forall i, j | 0 <= i < j < |r|
      ensures rank(r[i]) <= rank(r[j])
    {
      assert r[j] == t[j - 1];
      if i == 0 {
        assert t[j - 1] in t;
      } else {
        assert r[i] == t[i - 1];
      }
    }
  }

  /** Sorts `xs` by ascending rank; of two rows with the same rank, the one
      that came first stays first. */
  function SortBy<T>(xs: seq<T>, rank: T -> real): (r: seq<T>)
    ensures |r| == |xs|
    ensures multiset(r) == multiset(xs)
    ensures Ascending(r, rank)
  {
    if |xs| == 0 then
      []
    else
      assert xs == [xs[0]] + xs[1..];
      Insert(xs[0], SortBy(xs[1..], rank), rank)
  }

  /** Sorting keeps exactly the same elements. */
  lemma SortByMembers<T>(xs: seq<T>, rank: T -> real)
    ensures forall z :: z in SortBy(xs, rank) <==> z in xs
  {
    var r := SortBy(xs, rank);
    forall z
      ensures z in r <==> z in xs
    {
      assert z in r <==> z in multiset(r);
      assert z in xs <==> z in multiset(xs);
    }
  }

  lemma {:induction false} InsertTotal<T>(x: T, ys: seq<T>, rank: T -> real, f: T -> real)
    requires Ascending(ys, rank)
    ensures Total(Insert(x, ys, rank), f) == f(x) + Total(ys, f)
  {
    if |ys| == 0 || rank(x) <= rank(ys[0]) {
      assert ([x] + ys)[1..] == ys;
    } else {
      var tail := Insert(x, ys[1..], rank);
      assert ([ys[0]] + tail)[1..] == tail;
      InsertTotal(x, ys[1..], rank, f);
    }
  }

  /** Sorting the rows does not change the sum of any column. */
  lemma {:induction false} SortByTotal<T>(xs: seq<T>, rank: T -> real, f: T -> real)
    ensures Total(SortBy(xs, rank), f) == Total(xs, f)
  {
    if |xs| > 0 {
      SortByTotal(xs[1..], rank, f);
      InsertTotal(xs[0], SortBy(xs[1..], rank), rank, f);
    }
  }

  /** Sorting a sequence without repeated values gives one without repeated values. */
  lemma SortByKeepsDistinct<T>(ids: seq<T>, rank: T -> real)
    requires Distinct(ids)
    ensures Distinct(SortBy(ids, rank))
  {
    var r := SortBy(ids, rank);
    forall i, j | 0 <= i < j < |r|
      ensures r[i] != r[j]
    {
      if r[i] == r[j] {
        DistinctCount(ids, r[i]);
        TwoOccurrences(r, i, j);
        assert false;
      }
    }
  }

  lemma {:induction false} DistinctCount<T>(xs: seq<T>, x: T)
    requires Distinct(xs)
    ensures multiset(xs)[x] <= 1
  {
    if |xs| > 0 {
      var rest := xs[1..];
      assert xs == [xs[0]] + rest;
      forall i, j | 0 <= i < j < |rest|
        ensures rest[i] != rest[j]
      {
        assert rest[i] == xs[i + 1] && rest[j] == xs[j + 1];
      }
      DistinctCount(rest, x);
      if xs[0] == x {
        assert x !in rest;
        assert multiset(rest)[x] == 0;
      }
    }
  }

  lemma {:induction false} TwoOccurrences<T>(xs: seq<T>, i: nat, j: nat)
    requires i < j < |xs| && xs[i] == xs[j]
    ensures multiset(xs)[xs[i]] >= 2
  {
    var x := xs[i];
    assert xs == xs[..j] + [x] + xs[j + 1..];
    assert xs[..j] == xs[..i] + [x] + xs[i + 1..j];
    assert multiset(xs) == multiset(xs[..i]) + multiset{x} + multiset(xs[i + 1..j]) + multiset{x} + multiset(xs[j + 1..]);
  }

  /** The tail of an ascending sequence whose ties are in `pos` order is
      again both. */
  lemma TailOrdered<T>(ys: seq<T>, rank: T -> real, pos: T -> real)
    requires |ys| > 0 && Ascending(ys, rank) && TiesOrdered(ys, rank, pos)
    ensures Ascending(ys[1..], rank) && TiesOrdered(ys[1..], rank, pos)
  {
    var t := ys[1..];
    forall i, j | 0 <= i < j < |t|
      ensures rank(t[i]) <= rank(t[j])
      ensures rank(t[i]) == rank(t[j]) ==> pos(t[i]) < pos(t[j])
    {
      assert t[i] == ys[i + 1] && t[j] == ys[j + 1];
    }
  }

  /** Putting `y` in front keeps ties in `pos` order when `y` comes before
      every element it ties with. */
  lemma ConsTies<T>(y: T, t: seq<T>, rank: T -> real, pos: T -> real)
    requires TiesOrdered(t, rank, pos)
    requires forall z :: z in t && rank(y) == rank(z) ==> pos(y) < pos(z)
    ensures TiesOrdered([y] + t, rank, pos)
  {
    var r := [y] + t;
    forall i, j | 0 <= i < j < |r| && rank(r[i]) == rank(r[j])
      ensures pos(r[i]) < pos(r[j])
    {
      assert r[j] == t[j - 1];
      if i == 0 {
        assert t[j - 1] in t;
      } else {
        assert r[i] == t[i - 1];
      }
    }
  }

  /** The head of a sequence whose ties are in `pos` order comes before
      every later element it ties with. */
  lemma HeadTies<T>(ys: seq<T>, rank: T -> real, pos: T -> real)
    requires |ys| > 0 && TiesOrdered(ys, rank, pos)
    ensures forall z :: z in ys[1..] && rank(ys[0]) == rank(z) ==> pos(ys[0]) < pos(z)
  {
    forall z | z in ys[1..] && rank(ys[0]) == rank(z)
      ensures pos(ys[0]) < pos(z)
    {
      var k :| 0 <= k < |ys[1..]| && ys[1..][k] == z;
      assert ys[k + 1] == z;
    }
  }

  /** Inserting an element that comes before every other in `pos` order puts
      it ahead of the elements it ties with. */
  lemma {:induction false} InsertKeepsTies<T>(x: T, ys: seq<T>, rank: T -> real, pos: T -> real)
    requires Ascending(ys, rank) && TiesOrdered(ys, rank, pos)
    requires forall z :: z in ys ==> pos(x) < pos(z)
    ensures TiesOrdered(Insert(x, ys, rank), rank, pos)
  {
    if |ys| == 0 || rank(x) <= rank(ys[0]) {
      ConsTies(x, ys, rank, pos);
    } else {
      var rest := ys[1..];
      TailOrdered(ys, rank, pos);
      assert forall z :: z in rest ==> z in ys;
      InsertKeepsTies(x, rest, rank, pos);
      HeadTies(ys, rank, pos);
      ConsTies(ys[0], Insert(x, rest, rank), rank, pos);
    }
  }

  /** The sort is stable: when the input is in strictly rising `pos` order,
      elements of equal rank keep that order. */
  lemma {:induction false} SortByKeepsTies<T>(xs: seq<T>, rank: T -> real, pos: T -> real)
    requires StrictlyAscending(xs, pos)
    ensures TiesOrdered(SortBy(xs, rank), rank, pos)
  {
    if |xs| > 0 {
      var rest := xs[1..];
      forall i, j | 0 <= i < j < |rest|
        ensures pos(rest[i]) < pos(rest[j])
      {
        assert rest[i] == xs[i + 1] && rest[j] == xs[j + 1];
      }
      SortByKeepsTies(rest, rank, pos);
      forall z | z in SortBy(rest, rank)
        ensures pos(xs[0]) < pos(z)
      {
        assert z in multiset(SortBy(rest, rank));
        assert z in multiset(rest);
        var k :| 0 <= k < |rest| && rest[k] == z;
        assert xs[k + 1] == z;
      }
      InsertKeepsTies(xs[0], SortBy(rest, rank), rank, pos);
    }
  }
}
