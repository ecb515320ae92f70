/** The table behind the refund-rate chart: per-restaurant refund counts and
    rates, and the ten restaurants with the highest rate among those with at
    least five orders. */
module Refunds {
  import opened Seqs
  import opened Orders
  import opened Sorting
  import opened Grouping

  /** Restaurants need this many orders to enter the ranking. */
  const MIN_ORDERS: nat := 5
  /** The ranking keeps this many restaurants. */
  const TOP_N: nat := 10

  datatype RefundRow = RefundRow(
    restaurantId: nat,
    totalOrders: nat,
    refundOrders: nat,
    totalRefund: real,
    // refundOrders as a percentage of totalOrders
    refundRate: real)

  /** An order counts as refunded when it paid back a positive amount. */
  predicate Refunded(o: Order)
  {
    o.refundsChargebacks > 0.0
  }

  /** The number of refunded orders: none exactly when no order is refunded,
      all exactly when every order is. */
  function RefundOrders(os: seq<Order>): (n: nat)
    ensures n <= |os|
    ensures n == 0 <==> forall o :: o in os ==> !Refunded(o)
    ensures n == |os| <==> forall o :: o in os ==> Refunded(o)
  {
    if |os| == 0 then 0
    else
      assert os == [os[0]] + os[1..];
      (if Refunded(os[0]) then 1 else 0) + RefundOrders(os[1..])
  }

  /** One restaurant's row: its refunded-order count never exceeds its order
      count, so its rate is a percentage between 0 and 100. */
  function RefundRowOf(g: Bucket<nat>): (r: RefundRow)
    requires |g.members| > 0
    ensures r.restaurantId == g.key && r.totalOrders == |g.members|
    ensures r.refundOrders == RefundOrders(g.members) <= r.totalOrders
    ensures r.totalRefund == Total(g.members, RefundsChargebacks)
    ensures r.refundRate == Percent(r.refundOrders, r.totalOrders)
    ensures 0.0 <= r.refundRate <= 100.0
  {
    var total := |g.members|;
    var refunds := RefundOrders(g.members);
    RefundRow(g.key, total, refunds, Total(g.members, RefundsChargebacks), Percent(refunds, total))
  }

  /** `part` as a percentage of `whole`: it scales back to `part`, and a part
      no larger than the whole gives a percentage between 0 and 100. */
  function Percent(part: nat, whole: nat): (p: real)
    requires part <= whole && whole > 0
    ensures p * whole as real == part as real * 100.0
    ensures 0.0 <= p <= 100.0
  {
    var p := part as real * 100.0 / whole as real;
    assert p * whole as real == part as real * 100.0;
    p
  }

  function IdRank(id: nat): real { id as real }
  function RowIdRank(r: RefundRow): real { r.restaurantId as real }
  function RowOrders(r: RefundRow): real { r.totalOrders as real }
  function RowRefund(r: RefundRow): real { r.totalRefund }

  /** One row per restaurant, in rising restaurant order, as `groupby` sorts
      its keys. */
  function RestaurantRefunds(os: seq<Order>): (rows: seq<RefundRow>)
    ensures StrictlyAscending(rows, RowIdRank)
  {
    var keys := Keys(os, RestaurantOf);
    var ids := SortBy(keys, IdRank);
    SortedIdsRise(keys);
    var gs := GroupBy(os, RestaurantOf, ids);
    GroupByAscending(os, RestaurantOf, ids, IdRank);
    var rows := Summarise(gs, RefundRowOf);
    assert forall i :: 0 <= i < |rows| ==> rows[i].restaurantId == gs[i].key;
    rows
  }

  /** Sorting distinct ids by value puts them in strictly rising order. */
  lemma SortedIdsRise(keys: seq<nat>)
    requires Distinct(keys)
    ensures StrictlyAscending(SortBy(keys, IdRank), IdRank)
  {
    var ids := SortBy(keys, IdRank);
    SortByKeepsDistinct(keys, IdRank);
    forall i, j | 0 <= i < j < |ids|
      ensures IdRank(ids[i]) < IdRank(ids[j])
    {
      assert IdRank(ids[i]) <= IdRank(ids[j]) && ids[i] != ids[j];
    }
  }

  /** Each row summarises the orders of one restaurant, and every restaurant
      that has an order has a row. */
  lemma RestaurantRefundsGroups(os: seq<Order>)
    ensures forall r :: r in RestaurantRefunds(os) ==>
              var m := Members(os, RestaurantOf, r.restaurantId);
              |m| > 0 && r.totalOrders == |m| && r.refundOrders == RefundOrders(m)
              && r.totalRefund == Total(m, RefundsChargebacks)
              && 0 <= r.refundOrders <= r.totalOrders && 0.0 <= r.refundRate <= 100.0
    ensures forall o :: o in os ==> exists r :: r in RestaurantRefunds(os) && r.restaurantId == o.restaurantId
  {
    var keys := Keys(os, RestaurantOf);
    var ids := SortBy(keys, IdRank);
    SortByMembers(keys, IdRank);
    var rows := RestaurantRefunds(os);
    forall r | r in rows
      ensures var m := Members(os, RestaurantOf, r.restaurantId);
              |m| > 0 && r.totalOrders == |m| && r.refundOrders == RefundOrders(m)
              && r.totalRefund == Total(m, RefundsChargebacks)
    {
      var k := RollupRowGroup(os, RestaurantOf, ids, RefundRowOf, r);
    }
    forall o | o in os
      ensures exists r :: r in rows && r.restaurantId == o.restaurantId
    {
      assert RestaurantOf(o) in ids;
      RollupCovers(os, RestaurantOf, ids, RefundRowOf, o);
    }
  }

  /** The order counts of the restaurants add up to the number of orders,
      and their refund sums to the table's refund total. */
  lemma RestaurantRefundsPartition(os: seq<Order>)
    ensures Total(RestaurantRefunds(os), RowOrders) == |os| as real
    ensures Total(RestaurantRefunds(os), RowRefund) == Total(os, RefundsChargebacks)
  {
    var keys := Keys(os, RestaurantOf);
    var ids := SortBy(keys, IdRank);
    SortByMembers(keys, IdRank);
    SortByKeepsDistinct(keys, IdRank);
    RollupCount(os, RestaurantOf, ids, RefundRowOf, RowOrders);
    RollupSum(os, RestaurantOf, ids, RefundRowOf, RowRefund, RefundsChargebacks);
  }

  /** Restaurants with at least MIN_ORDERS orders, in row order. */
  function Eligible(rows: seq<RefundRow>): (e: seq<RefundRow>)
    ensures forall r :: r in e <==> r in rows && r.totalOrders >= MIN_ORDERS
  {
    if |rows| == 0 then []
    else
      assert rows == [rows[0]] + rows[1..];
      (if rows[0].totalOrders >= MIN_ORDERS then [rows[0]] else []) + Eligible(rows[1..])
  }

  /** Keeping the eligible rows keeps them in restaurant order. */
  lemma {:induction false} EligibleKeepsOrder(rows: seq<RefundRow>)
    requires StrictlyAscending(rows, RowIdRank)
    ensures StrictlyAscending(Eligible(rows), RowIdRank)
  {
    if |rows| > 0 {
      var rest := rows[1..];
      forall i, j | 0 <= i < j < |rest|
        ensures RowIdRank(rest[i]) < RowIdRank(rest[j])
      {
        assert rest[i] == rows[i + 1] && rest[j] == rows[j + 1];
      }
      EligibleKeepsOrder(rest);
      var e := Eligible(rest);
      if rows[0].totalOrders >= MIN_ORDERS {
        forall z | z in e
          ensures RowIdRank(rows[0]) < RowIdRank(z)
        {
          var k :| 0 <= k < |rest| && rest[k] == z;
          assert rows[k + 1] == z;
        }
        ConsStrictlyAscending(rows[0], e, RowIdRank);
      }
    }
  }

  function RefundRate(r: RefundRow): real { r.refundRate }
  function NegatedRate(r: RefundRow): real { -r.refundRate }

  /** `t` comes before `r` in the order `nlargest` keeps: a higher refund
      rate, or the same rate and an earlier restaurant (keep='first'). */
  predicate Outranks(t: RefundRow, r: RefundRow)
  {
    t.refundRate > r.refundRate || (t.refundRate == r.refundRate && t.restaurantId < r.restaurantId)
  }

  /** `nlargest(10, "refund_rate")` over the eligible restaurants: as many
      rows as there are eligible restaurants, up to ten, each an eligible
      restaurant's row and none twice; in falling rate, ties by restaurant;
      and no eligible restaurant left out outranks one that is in. */
  function TopRefund(os: seq<Order>): (top: seq<RefundRow>)
    ensures var n := |Eligible(RestaurantRefunds(os))|;
            |top| == if n < TOP_N then n else TOP_N
    ensures forall r :: r in top ==> r in RestaurantRefunds(os) && r.totalOrders >= MIN_ORDERS
    ensures Distinct(top)
    ensures forall i, j :: 0 <= i < j < |top| ==> Outranks(top[i], top[j])
    ensures |top| < TOP_N ==>
              forall r :: r in RestaurantRefunds(os) && r.totalOrders >= MIN_ORDERS ==> r in top
    ensures forall r, t :: r in RestaurantRefunds(os) && r.totalOrders >= MIN_ORDERS && r !in top && t in top
              ==> Outranks(t, r)
  {
    var rows := RestaurantRefunds(os);
    var eligible := Eligible(rows);
    EligibleKeepsOrder(rows);
    var ranked := SortBy(eligible, NegatedRate);
    SortByMembers(eligible, NegatedRate);
    SortByKeepsTies(eligible, NegatedRate, RowIdRank);
    var n := if |ranked| < TOP_N then |ranked| else TOP_N;
    PrefixBeatsRest(ranked, n);
    assert |ranked| == |eligible| && |ranked[..n]| == n;
    forall r | r in ranked[..n]
      ensures r in rows && r.totalOrders >= MIN_ORDERS
    {
      assert r in ranked;
      assert r in eligible;
    }
    ranked[..n]
  }

  /** In a ranking by falling rate whose ties are in restaurant order, every
      row of a prefix outranks every row after it. */
  lemma PrefixBeatsRest(ranked: seq<RefundRow>, n: nat)
    requires n <= |ranked|
    requires Ascending(ranked, NegatedRate)
    requires TiesOrdered(ranked, NegatedRate, RowIdRank)
    ensures forall i, j :: 0 <= i < j < n ==> Outranks(ranked[i], ranked[j])
    ensures forall r, t :: r in ranked && r !in ranked[..n] && t in ranked[..n] ==> Outranks(t, r)
    ensures Distinct(ranked[..n])
  {
    assert forall a :: 0 <= a < n ==> ranked[a] == ranked[..n][a];
    forall i, j | 0 <= i < j < |ranked|
      ensures Outranks(ranked[i], ranked[j])
    {
      assert NegatedRate(ranked[i]) <= NegatedRate(ranked[j]);
    }
    forall r, t | r in ranked && r !in ranked[..n] && t in ranked[..n]
      ensures Outranks(t, r)
    {
      var a :| 0 <= a < |ranked| && ranked[a] == r;
      var b :| 0 <= b < n && ranked[..n][b] == t;
      assert b < a;
    }
    forall i, j | 0 <= i < j < n
      ensures ranked[..n][i] != ranked[..n][j]
    {
      assert Outranks(ranked[i], ranked[j]);
    }
  }

  /** The average refund rate drawn across the chart is itself a percentage
      between 0 and 100. */
  lemma TopRefundMeanRate(os: seq<Order>)
    ensures |TopRefund(os)| > 0 ==> 0.0 <= Mean(TopRefund(os), RefundRate) <= 100.0
  {
    var top := TopRefund(os);
    if |top| > 0 {
      RestaurantRefundsGroups(os);
      MeanBounds(top, RefundRate, 0.0, 100.0);
    }
  }
}
