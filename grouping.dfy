/** The `groupby` step shared by every rollup: the orders that share a key
    value form one group, and only keys that some order has get a group. */
module Grouping {
  import opened Seqs
  import opened Orders
  import opened Sorting

  datatype Bucket<K> = Bucket(key: K, members: seq<Order>)

  /** The orders whose key is `k`, in table order. */
  function Members<K(==)>(os: seq<Order>, key: Order -> K, k: K): (g: seq<Order>)
    ensures |g| <= |os|
    ensures forall o :: o in g <==> o in os && key(o) == k
  {
    if |os| == 0 then []
    else
      assert os == [os[0]] + os[1..];
      if key(os[0]) == k then [os[0]] + Members(os[1..], key, k)
      else Members(os[1..], key, k)
  }

  /** The orders whose key is not `k`, in table order. */
  function Others<K(==)>(os: seq<Order>, key: Order -> K, k: K): (g: seq<Order>)
    ensures |g| <= |os|
    ensures forall o :: o in g <==> o in os && key(o) != k
  {
    if |os| == 0 then []
    else
      assert os == [os[0]] + os[1..];
      if key(os[0]) != k then [os[0]] + Others(os[1..], key, k)
      else Others(os[1..], key, k)
  }

  /** The key values that occur in the table, each once. */
  function Keys<K(==)>(os: seq<Order>, key: Order -> K): (ks: seq<K>)
    ensures Distinct(ks)
    ensures forall o :: o in os ==> key(o) in ks
    ensures forall k :: k in ks ==> |Members(os, key, k)| > 0
  {
    if |os| == 0 then []
    else
      var rest := Keys(os[1..], key);
      assert os == [os[0]] + os[1..];
      if key(os[0]) in rest then rest else [key(os[0])] + rest
  }

  /** One group per key of `ks` that some order has, in the order of `ks`. */
  function GroupBy<K(==)>(os: seq<Order>, key: Order -> K, ks: seq<K>): (gs: seq<Bucket<K>>)
    ensures |gs| <= |ks|
    ensures forall g :: g in gs ==> g.key in ks && g.members == Members(os, key, g.key) && |g.members| > 0
    ensures forall o :: o in os && key(o) in ks ==> exists g :: g in gs && g.key == key(o)
    ensures Distinct(ks) ==> forall i, j :: 0 <= i < j < |gs| ==> gs[i].key != gs[j].key
  {
    if |ks| == 0 then []
    else
      var m := Members(os, key, ks[0]);
      var rest := GroupBy(os, key, ks[1..]);
      assert ks == [ks[0]] + ks[1..];
      (if |m| == 0 then [] else [Bucket(ks[0], m)]) + rest
  }

  /** The number of orders over all groups. */
  function TotalCount<K>(gs: seq<Bucket<K>>): nat
  {
    if |gs| == 0 then 0 else |gs[0].members| + TotalCount(gs[1..])
  }

  /** The sum of column `f` over all groups. */
  function TotalOf<K>(gs: seq<Bucket<K>>, f: Order -> real): real
  {
    if |gs| == 0 then 0.0 else Total(gs[0].members, f) + TotalOf(gs[1..], f)
  }

  /** Splitting on one key value loses no order and no amount. */
  lemma {:induction false} MembersOthersSplit<K>(os: seq<Order>, key: Order -> K, k: K, f: Order -> real)
    ensures |Members(os, key, k)| + |Others(os, key, k)| == |os|
    ensures Total(Members(os, key, k), f) + Total(Others(os, key, k), f) == Total(os, f)
  {
    if |os| > 0 {
      MembersOthersSplit(os[1..], key, k, f);
      if key(os[0]) == k {
        assert ([os[0]] + Members(os[1..], key, k))[1..] == Members(os[1..], key, k);
      } else {
        assert ([os[0]] + Others(os[1..], key, k))[1..] == Others(os[1..], key, k);
      }
    }
  }

  /** Removing the orders of key `k` does not change the group of any other key. */
  lemma {:induction false} MembersOfOthers<K>(os: seq<Order>, key: Order -> K, k: K, k': K)
    requires k != k'
    ensures Members(Others(os, key, k), key, k') == Members(os, key, k')
  {
    if |os| > 0 {
      MembersOfOthers(os[1..], key, k, k');
      if key(os[0]) != k {
        assert ([os[0]] + Others(os[1..], key, k))[1..] == Others(os[1..], key, k);
      }
    }
  }

  lemma {:induction false} GroupByOthers<K>(os: seq<Order>, key: Order -> K, k: K, ks: seq<K>)
    requires k !in ks
    ensures GroupBy(Others(os, key, k), key, ks) == GroupBy(os, key, ks)
  {
    if |ks| > 0 {
      assert ks == [ks[0]] + ks[1..];
      MembersOfOthers(os, key, k, ks[0]);
      GroupByOthers(os, key, k, ks[1..]);
    }
  }

  /** A non-empty table holds its first order. */
  lemma HeadInTable(os: seq<Order>)
    ensures |os| > 0 ==> os[0] in os
  {
  }

  /** When `ks` lists every key of the table once, the groups partition the
      table: their sizes add up to the number of orders, and their sums of
      any column add up to the column's sum. */
  lemma {:induction false} GroupByPartitions<K>(os: seq<Order>, key: Order -> K, ks: seq<K>, f: Order -> real)
    requires Distinct(ks)
    requires forall o :: o in os ==> key(o) in ks
    ensures TotalCount(GroupBy(os, key, ks)) == |os|
    ensures TotalOf(GroupBy(os, key, ks), f) == Total(os, f)
    decreases |ks|
  {
    if |ks| > 0 {
      var k := ks[0];
      var rest := ks[1..];
      assert ks == [k] + rest;
      assert k !in rest;
      var others := Others(os, key, k);
      forall o | o in others
        ensures key(o) in rest
      {
      }
      forall i, j | 0 <= i < j < |rest|
        ensures rest[i] != rest[j]
      {
        assert rest[i] == ks[i + 1] && rest[j] == ks[j + 1];
      }
      GroupByPartitions(others, key, rest, f);
      GroupByOthers(os, key, k, rest);
      MembersOthersSplit(os, key, k, f);
      var m := Members(os, key, k);
      var gs := GroupBy(os, key, rest);
      if |m| == 0 {
        assert GroupBy(os, key, ks) == gs;
      } else {
        assert GroupBy(os, key, ks) == [Bucket(k, m)] + gs;
        assert ([Bucket(k, m)] + gs)[1..] == gs;
      }
    } else if |os| > 0 {
      HeadInTable(os);
      assert false;
    }
  }

  /** The group keys rise strictly by `pos`. */
  predicate KeysAscending<K>(gs: seq<Bucket<K>>, pos: K -> real)
  {
    forall i, j :: 0 <= i < j < |gs| ==> pos(gs[i].key) < pos(gs[j].key)
  }

  /** The groups come out in the order of the key list: when the keys rise
      strictly by `pos`, so do the group keys. */
  lemma {:induction false} GroupByAscending<K>(os: seq<Order>, key: Order -> K, ks: seq<K>, pos: K -> real)
    requires StrictlyAscending(ks, pos)
    ensures KeysAscending(GroupBy(os, key, ks), pos)
    decreases |ks|
  {
    if |ks| > 0 {
      var rest := ks[1..];
      TailStrictlyAscending(ks, pos);
      GroupByAscending(os, key, rest, pos);
      var gs := GroupBy(os, key, rest);
      GroupKeysAbove(os, key, rest, pos(ks[0]), pos);
      var m := Members(os, key, ks[0]);
      if |m| > 0 {
        ConsKeysAscending(Bucket(ks[0], m), gs, pos);
        assert GroupBy(os, key, ks) == [Bucket(ks[0], m)] + gs;
      } else {
        assert GroupBy(os, key, ks) == gs;
      }
    }
  }

  /** Every group key is one of the listed keys, so a bound on the keys
      bounds the group keys. */
  lemma GroupKeysAbove<K>(os: seq<Order>, key: Order -> K, ks: seq<K>, lo: real, pos: K -> real)
    requires forall k :: k in ks ==> lo < pos(k)
    ensures forall g :: g in GroupBy(os, key, ks) ==> lo < pos(g.key)
  {
  }

  lemma ConsKeysAscending<K>(b: Bucket<K>, gs: seq<Bucket<K>>, pos: K -> real)
    requires KeysAscending(gs, pos)
    requires forall g :: g in gs ==> pos(b.key) < pos(g.key)
    ensures KeysAscending([b] + gs, pos)
  {
    var all := [b] + gs;
    forall i, j | 0 <= i < j < |all|
      ensures pos(all[i].key) < pos(all[j].key)
    {
      assert all[j] == gs[j - 1];
      if i == 0 {
        assert gs[j - 1] in gs;
      } else {
        assert all[i] == gs[i - 1];
      }
    }
  }

  /** One summary row per group, in group order. */
  function Summarise<K, R>(gs: seq<Bucket<K>>, rowOf: Bucket<K> --> R): (rows: seq<R>)
    requires forall g :: g in gs ==> rowOf.requires(g)
    ensures |rows| == |gs|
    ensures forall i :: 0 <= i < |gs| ==> rows[i] == rowOf(gs[i])
    ensures forall g :: g in gs ==> rowOf(g) in rows
    ensures forall r :: r in rows ==> exists g :: g in gs && r == rowOf(g)
  {
    if |gs| == 0 then []
    else
      assert gs == [gs[0]] + gs[1..];
      [rowOf(gs[0])] + Summarise(gs[1..], rowOf)
  }

  /** A row column that holds each group's sum of `f` sums to the groups' total of `f`. */
  lemma {:induction false} SummariseTotal<K, R>(gs: seq<Bucket<K>>, rowOf: Bucket<K> --> R, col: R -> real, f: Order -> real)
    requires forall g :: g in gs ==> rowOf.requires(g)
    requires forall g :: g in gs ==> col(rowOf(g)) == Total(g.members, f)
    ensures Total(Summarise(gs, rowOf), col) == TotalOf(gs, f)
  {
    if |gs| > 0 {
      assert gs[0] in gs;
      assert forall g :: g in gs[1..] ==> g in gs;
      SummariseTotal(gs[1..], rowOf, col, f);
    }
  }

  /** A row column that holds each group's size sums to the number of grouped orders. */
  lemma {:induction false} SummariseCount<K, R>(gs: seq<Bucket<K>>, rowOf: Bucket<K> --> R, col: R -> real)
    requires forall g :: g in gs ==> rowOf.requires(g)
    requires forall g :: g in gs ==> col(rowOf(g)) == |g.members| as real
    ensures Total(Summarise(gs, rowOf), col) == TotalCount(gs) as real
  {
    if |gs| > 0 {
      assert gs[0] in gs;
      assert forall g :: g in gs[1..] ==> g in gs;
      SummariseCount(gs[1..], rowOf, col);
    }
  }

  /** The sizes of the groups of the keys `ks`, empty groups included. */
  function GroupSizes<K(==)>(os: seq<Order>, key: Order -> K, ks: seq<K>): nat
  {
    if |ks| == 0 then 0 else |Members(os, key, ks[0])| + GroupSizes(os, key, ks[1..])
  }

  /** Dropping the empty groups does not change the number of grouped orders. */
  lemma {:induction false} GroupByCount<K>(os: seq<Order>, key: Order -> K, ks: seq<K>)
    ensures TotalCount(GroupBy(os, key, ks)) == GroupSizes(os, key, ks)
  {
    if |ks| > 0 {
      GroupByCount(os, key, ks[1..]);
      var m := Members(os, key, ks[0]);
      var gs := GroupBy(os, key, ks[1..]);
      if |m| > 0 {
        assert ([Bucket(ks[0], m)] + gs)[1..] == gs;
      } else {
        assert GroupBy(os, key, ks) == gs;
      }
    }
  }

  /** A rollup over a key list that names every key once: a column holding
      each group's size adds up to the number of orders. */
  lemma RollupCount<K, R>(os: seq<Order>, key: Order -> K, ks: seq<K>, rowOf: Bucket<K> --> R, sizeCol: R -> real)
    requires Distinct(ks)
    requires forall o :: o in os ==> key(o) in ks
    requires forall g: Bucket<K> :: |g.members| > 0 ==> rowOf.requires(g)
    requires forall g: Bucket<K> :: |g.members| > 0 ==> sizeCol(rowOf(g)) == |g.members| as real
    ensures Total(Summarise(GroupBy(os, key, ks), rowOf), sizeCol) == |os| as real
  {
    GroupByPartitions(os, key, ks, OrderValue);
    SummariseCount(GroupBy(os, key, ks), rowOf, sizeCol);
  }

  /** A rollup over a key list that names every key once: a column holding
      each group's sum of `f` adds up to the table's sum of `f`. */
  lemma RollupSum<K, R>(os: seq<Order>, key: Order -> K, ks: seq<K>, rowOf: Bucket<K> --> R,
                        sumCol: R -> real, f: Order -> real)
    requires Distinct(ks)
    requires forall o :: o in os ==> key(o) in ks
    requires forall g: Bucket<K> :: |g.members| > 0 ==> rowOf.requires(g)
    requires forall g: Bucket<K> :: |g.members| > 0 ==> sumCol(rowOf(g)) == Total(g.members, f)
    ensures Total(Summarise(GroupBy(os, key, ks), rowOf), sumCol) == Total(os, f)
  {
    GroupByPartitions(os, key, ks, f);
    SummariseTotal(GroupBy(os, key, ks), rowOf, sumCol, f);
  }

  /** Every row of a rollup is the summary of one non-empty group of a key in `ks`. */
  lemma RollupRowGroup<K, R>(os: seq<Order>, key: Order -> K, ks: seq<K>, rowOf: Bucket<K> --> R, r: R)
    returns (k: K)
    requires forall g: Bucket<K> :: |g.members| > 0 ==> rowOf.requires(g)
    requires r in Summarise(GroupBy(os, key, ks), rowOf)
    ensures k in ks && |Members(os, key, k)| > 0 && r == rowOf(Bucket(k, Members(os, key, k)))
  {
    var gs := GroupBy(os, key, ks);
    var g :| g in gs && r == rowOf(g);
    k := g.key;
    assert g == Bucket(k, Members(os, key, k));
  }

  /** The group of every order whose key is in `ks` has its row in the rollup. */
  lemma RollupCovers<K, R>(os: seq<Order>, key: Order -> K, ks: seq<K>, rowOf: Bucket<K> --> R, o: Order)
    requires forall g: Bucket<K> :: |g.members| > 0 ==> rowOf.requires(g)
    requires o in os && key(o) in ks
    ensures |Members(os, key, key(o))| > 0
    ensures rowOf(Bucket(key(o), Members(os, key, key(o)))) in Summarise(GroupBy(os, key, ks), rowOf)
  {
    var gs := GroupBy(os, key, ks);
    var g :| g in gs && g.key == key(o);
    assert g == Bucket(key(o), Members(os, key, key(o)));
  }
}
