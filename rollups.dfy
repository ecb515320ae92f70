/** The tables behind the first five charts: each groups the orders by one
    derived column and summarises every group. */
module Rollups {
  import opened Seqs
  import opened Orders
  import opened Margin
  import opened Bands
  import opened Sorting
  import opened Grouping

  datatype Option<T> = None | Some(value: T)

  /** The derived `discount_band` column: the interval the order's discount
      falls in. */
  function DiscountBandColumn(o: Order): (b: DiscountBand)
    ensures b == NoDiscount <==> o.discountsAndOffers == 0.0
    ensures b == LowDiscount <==> o.discountsAndOffers < 0.0 || (0.0 < o.discountsAndOffers <= 5.0)
    ensures b == MidDiscount <==> 5.0 < o.discountsAndOffers <= 15.0
    ensures b == HighDiscount <==> o.discountsAndOffers > 15.0
  {
    DiscountBandOf(o.discountsAndOffers)
  }

  /** The derived `order_band` column: the interval the order's value falls in. */
  function OrderBandColumn(o: Order): (b: OrderBand)
    ensures b == LowValue <==> o.orderValue < 15.0
    ensures b == MidValue <==> 15.0 <= o.orderValue < 30.0
    ensures b == HighValue <==> 30.0 <= o.orderValue < 50.0
    ensures b == PremiumValue <==> o.orderValue >= 50.0
  {
    OrderBandOf(o.orderValue)
  }

  // ---------------------------------------------------------------------
  // Average order value by payment method

  datatype PaymentRow = PaymentRow(paymentMethod: string, avgOrderValue: real, totalOrders: nat)

  /** A payment method's row: its order count, and the mean order value,
      which times the count gives the group's order value sum. */
  function PaymentRowOf(g: Bucket<string>): (r: PaymentRow)
    requires |g.members| > 0
    ensures r.paymentMethod == g.key && r.totalOrders == |g.members|
    ensures r.avgOrderValue * r.totalOrders as real == Total(g.members, OrderValue)
  {
    PaymentRow(g.key, Mean(g.members, OrderValue), |g.members|)
  }

  function PaymentAverage(r: PaymentRow): real { r.avgOrderValue }
  function PaymentOrders(r: PaymentRow): real { r.totalOrders as real }

  /** One row per payment method that occurs, ordered by rising average
      order value. */
  function AovByPayment(os: seq<Order>): (rows: seq<PaymentRow>)
    ensures Ascending(rows, PaymentAverage)
    ensures forall r :: r in rows ==>
              var m := Members(os, PaymentMethodOf, r.paymentMethod);
              |m| > 0 && r.totalOrders == |m| && r.avgOrderValue == Mean(m, OrderValue)
    ensures forall o :: o in os ==> exists r :: r in rows && r.paymentMethod == o.paymentMethod
    ensures Total(rows, PaymentOrders) == |os| as real
  {
    var ks := Keys(os, PaymentMethodOf);
    var gs := GroupBy(os, PaymentMethodOf, ks);
    var unsorted := Summarise(gs, PaymentRowOf);
    GroupByPartitions(os, PaymentMethodOf, ks, OrderValue);
    SummariseCount(gs, PaymentRowOf, PaymentOrders);
    SortByTotal(unsorted, PaymentAverage, PaymentOrders);
    SortByMembers(unsorted, PaymentAverage);
    SortBy(unsorted, PaymentAverage)
  }

  // ---------------------------------------------------------------------
  // Monthly order volume and GMV

  datatype MonthRow = MonthRow(orderMonth: nat, totalOrders: nat, totalGmv: real)

  /** A month's row: its order count and GMV; the GMV is not negative when
      no order value is. */
  function MonthRowOf(g: Bucket<nat>): (r: MonthRow)
    ensures r.orderMonth == g.key && r.totalOrders == |g.members|
    ensures r.totalGmv == Total(g.members, OrderValue)
    ensures (forall o :: o in g.members ==> o.orderValue >= 0.0) ==> r.totalGmv >= 0.0
  {
    assert (forall o :: o in g.members ==> o.orderValue >= 0.0) ==> Total(g.members, OrderValue) >= 0.0 by {
      if forall o :: o in g.members ==> o.orderValue >= 0.0 {
        TotalAtLeast(g.members, OrderValue, 0.0);
      }
    }
    MonthRow(g.key, |g.members|, Total(g.members, OrderValue))
  }

  function MonthRank(r: MonthRow): real { r.orderMonth as real }
  function MonthOrders(r: MonthRow): real { r.totalOrders as real }
  function MonthGmv(r: MonthRow): real { r.totalGmv }

  /** One row per month that has orders, in calendar order; the volumes add
      up to the number of orders and the GMVs to the table's total GMV. */
  function MonthlyTrend(os: seq<Order>): (rows: seq<MonthRow>)
    ensures Ascending(rows, MonthRank)
    ensures forall r :: r in rows ==>
              var m := Members(os, MonthOf, r.orderMonth);
              |m| > 0 && r.totalOrders == |m| && r.totalGmv == Total(m, OrderValue)
    ensures forall o :: o in os ==> exists r :: r in rows && r.orderMonth == o.orderMonth
    ensures Total(rows, MonthOrders) == |os| as real
    ensures Total(rows, MonthGmv) == Total(os, OrderValue)
  {
    var ks := Keys(os, MonthOf);
    var gs := GroupBy(os, MonthOf, ks);
    var unsorted := Summarise(gs, MonthRowOf);
    GroupByPartitions(os, MonthOf, ks, OrderValue);
    SummariseCount(gs, MonthRowOf, MonthOrders);
    SummariseTotal(gs, MonthRowOf, MonthGmv, OrderValue);
    SortByTotal(unsorted, MonthRank, MonthOrders);
    SortByTotal(unsorted, MonthRank, MonthGmv);
    SortByMembers(unsorted, MonthRank);
    SortBy(unsorted, MonthRank)
  }

  // ---------------------------------------------------------------------
  // Profitable versus loss-making orders

  datatype ProfitRow = ProfitRow(profitable: Label, orderCount: nat, totalMargin: real, avgOrderValue: real)

  /** A label's row: its order count, margin sum, and the mean order value,
      which times the count gives the group's order value sum. */
  function ProfitRowOf(g: Bucket<Label>): (r: ProfitRow)
    requires |g.members| > 0
    ensures r.profitable == g.key && r.orderCount == |g.members|
    ensures r.totalMargin == Total(g.members, ContributionMargin)
    ensures r.avgOrderValue * r.orderCount as real == Total(g.members, OrderValue)
  {
    ProfitRow(g.key, |g.members|, Total(g.members, ContributionMargin), Mean(g.members, OrderValue))
  }

  function ProfitOrders(r: ProfitRow): real { r.orderCount as real }
  function ProfitMargin(r: ProfitRow): real { r.totalMargin }

  /** The group keys in the order the grouping sorts them: by label name,
      "Loss-Making" before "Profitable". */
  const LABELS: seq<Label> := [LossMaking, Profitable]

  /** The grouping keys name every label once. */
  lemma LabelKeysCover(os: seq<Order>)
    ensures Distinct(LABELS)
    ensures forall o :: o in os ==> LabelOf(o) in LABELS
  {
    forall o | o in os
      ensures LabelOf(o) in LABELS
    {
      match LabelOf(o)
      case LossMaking => assert LABELS[0] == LossMaking;
      case Profitable => assert LABELS[1] == Profitable;
    }
  }

  /** The first character of a label's name, as a sort key. */
  function LabelInitial(l: Label): real
  {
    LabelName(l)[0] as int as real
  }

  /** At most one row per label, in the grouping's order by label name:
      Loss-Making first. */
  function ProfitSummary(os: seq<Order>): (rows: seq<ProfitRow>)
    ensures |rows| <= 2
    ensures forall i, j :: 0 <= i < j < |rows| ==> rows[i].profitable != rows[j].profitable
    ensures forall i, j :: 0 <= i < j < |rows| ==>
              LabelName(rows[i].profitable)[0] < LabelName(rows[j].profitable)[0]
    ensures |rows| == 2 ==> rows[0].profitable == LossMaking && rows[1].profitable == Profitable
  {
    LabelKeysCover(os);
    var gs := GroupBy(os, LabelOf, LABELS);
    assert LabelInitial(LABELS[0]) < LabelInitial(LABELS[1]);
    GroupByAscending(os, LabelOf, LABELS, LabelInitial);
    Summarise(gs, ProfitRowOf)
  }

  /** Each row summarises the orders with its label, and every order's label
      has a row. */
  lemma ProfitSummaryGroups(os: seq<Order>)
    ensures forall r :: r in ProfitSummary(os) ==>
              var m := Members(os, LabelOf, r.profitable);
              |m| > 0 && r.orderCount == |m| && r.totalMargin == Total(m, ContributionMargin)
              && r.avgOrderValue == Mean(m, OrderValue)
    ensures forall o :: o in os ==> exists r :: r in ProfitSummary(os) && r.profitable == LabelOf(o)
  {
    var rows := ProfitSummary(os);
    forall r | r in rows
      ensures var m := Members(os, LabelOf, r.profitable);
              |m| > 0 && r.orderCount == |m| && r.totalMargin == Total(m, ContributionMargin)
              && r.avgOrderValue == Mean(m, OrderValue)
    {
      var k := RollupRowGroup(os, LabelOf, LABELS, ProfitRowOf, r);
    }
    LabelKeysCover(os);
    forall o | o in os
      ensures exists r :: r in rows && r.profitable == LabelOf(o)
    {
      RollupCovers(os, LabelOf, LABELS, ProfitRowOf, o);
    }
  }

  /** The profitable group's margin total is positive and the loss-making
      group's is not. */
  lemma ProfitSummarySigns(os: seq<Order>)
    ensures forall r :: r in ProfitSummary(os) && r.profitable == Profitable ==> r.totalMargin > 0.0
    ensures forall r :: r in ProfitSummary(os) && r.profitable == LossMaking ==> r.totalMargin <= 0.0
  {
    forall r | r in ProfitSummary(os)
      ensures r.profitable == Profitable ==> r.totalMargin > 0.0
      ensures r.profitable == LossMaking ==> r.totalMargin <= 0.0
    {
      var k := RollupRowGroup(os, LabelOf, LABELS, ProfitRowOf, r);
      var m := Members(os, LabelOf, k);
      assert r.profitable == k && r.totalMargin == Total(m, ContributionMargin);
      if k == Profitable {
        TotalPositive(m, ContributionMargin);
      } else {
        TotalNonPositive(m, ContributionMargin);
      }
    }
  }

  /** The two order counts add up to the number of orders, and the two
      margin totals to the overall margin, which is the net platform revenue
      of the column sums. */
  lemma ProfitSummaryPartition(os: seq<Order>)
    ensures Total(ProfitSummary(os), ProfitOrders) == |os| as real
    ensures Total(ProfitSummary(os), ProfitMargin) == Total(os, ContributionMargin)
    ensures Total(ProfitSummary(os), ProfitMargin)
         == Total(os, CommissionFee) + Total(os, DeliveryFee)
          - Total(os, PaymentProcessingFee) - Total(os, DiscountsAndOffers)
          - Total(os, RefundsChargebacks)
  {
    LabelKeysCover(os);
    RollupCount(os, LabelOf, LABELS, ProfitRowOf, ProfitOrders);
    RollupSum(os, LabelOf, LABELS, ProfitRowOf, ProfitMargin, ContributionMargin);
    MarginOfColumnSums(os);
  }

  // ---------------------------------------------------------------------
  // Discount impact on contribution margin

  datatype ImpactRow = ImpactRow(band: DiscountBand, avgOrderValue: real, avgContribution: real, orderCount: nat)

  /** A band's row: its order count, and the mean order value and mean
      margin, which times the count give the group's sums. */
  function ImpactRowOf(g: Bucket<DiscountBand>): (r: ImpactRow)
    requires |g.members| > 0
    ensures r.band == g.key && r.orderCount == |g.members|
    ensures r.avgOrderValue * r.orderCount as real == Total(g.members, OrderValue)
    ensures r.avgContribution * r.orderCount as real == Total(g.members, ContributionMargin)
  {
    ImpactRow(g.key, Mean(g.members, OrderValue), Mean(g.members, ContributionMargin), |g.members|)
  }

  /** The `sort` column: the rank map's value for the row's band label. */
  function ImpactRank(r: ImpactRow): (k: real)
    ensures DiscountLabel(r.band) in DISCOUNT_ORDER && k == DISCOUNT_ORDER[DiscountLabel(r.band)] as real
    ensures 0.0 <= k < 4.0
  {
    DiscountRank(r.band) as real
  }
  function ImpactOrders(r: ImpactRow): real { r.orderCount as real }

  /** The group keys in the order the grouping sorts them: by band label. */
  const DISCOUNT_BANDS_BY_LABEL: seq<DiscountBand> := [HighDiscount, LowDiscount, MidDiscount, NoDiscount]

  /** The discount key list is in the grouping's order: by band label, whose
      first characters already rise ('H', 'L', 'M', 'N'). */
  lemma DiscountKeysByLabel()
    ensures forall i, j :: 0 <= i < j < |DISCOUNT_BANDS_BY_LABEL| ==>
              DiscountLabel(DISCOUNT_BANDS_BY_LABEL[i])[0] < DiscountLabel(DISCOUNT_BANDS_BY_LABEL[j])[0]
  {
  }

  /** One row per discount band that occurs, re-sorted by the band's
      display rank. */
  function DiscountImpact(os: seq<Order>): (rows: seq<ImpactRow>)
    ensures forall i, j :: 0 <= i < j < |rows| ==> DiscountRank(rows[i].band) <= DiscountRank(rows[j].band)
  {
    var rows := SortBy(Summarise(GroupBy(os, DiscountBandColumn, DISCOUNT_BANDS_BY_LABEL), ImpactRowOf), ImpactRank);
    assert forall i, j :: 0 <= i < j < |rows| ==> ImpactRank(rows[i]) <= ImpactRank(rows[j]);
    rows
  }

  /** Each row summarises the orders of its band, every order's band has a
      row, and the counts add up to the number of orders. */
  lemma DiscountImpactGroups(os: seq<Order>)
    ensures forall r :: r in DiscountImpact(os) ==>
              var m := Members(os, DiscountBandColumn, r.band);
              |m| > 0 && r.orderCount == |m| && r.avgOrderValue == Mean(m, OrderValue)
              && r.avgContribution == Mean(m, ContributionMargin)
    ensures forall o :: o in os ==> exists r :: r in DiscountImpact(os) && r.band == DiscountBandColumn(o)
  {
    var unsorted := Summarise(GroupBy(os, DiscountBandColumn, DISCOUNT_BANDS_BY_LABEL), ImpactRowOf);
    var rows := DiscountImpact(os);
    assert rows == SortBy(unsorted, ImpactRank);
    SortByMembers(unsorted, ImpactRank);
    forall r | r in rows
      ensures var m := Members(os, DiscountBandColumn, r.band);
              |m| > 0 && r.orderCount == |m| && r.avgOrderValue == Mean(m, OrderValue)
              && r.avgContribution == Mean(m, ContributionMargin)
    {
      var k := RollupRowGroup(os, DiscountBandColumn, DISCOUNT_BANDS_BY_LABEL, ImpactRowOf, r);
    }
    DiscountKeysCover(os);
    forall o | o in os
      ensures exists r :: r in rows && r.band == DiscountBandColumn(o)
    {
      RollupCovers(os, DiscountBandColumn, DISCOUNT_BANDS_BY_LABEL, ImpactRowOf, o);
    }
  }

  /** The grouping keys name every discount band once. */
  lemma DiscountKeysCover(os: seq<Order>)
    ensures Distinct(DISCOUNT_BANDS_BY_LABEL)
    ensures forall o :: o in os ==> DiscountBandColumn(o) in DISCOUNT_BANDS_BY_LABEL
  {
    forall o | o in os
      ensures DiscountBandColumn(o) in DISCOUNT_BANDS_BY_LABEL
    {
      match DiscountBandColumn(o)
      case HighDiscount => assert DISCOUNT_BANDS_BY_LABEL[0] == HighDiscount;
      case LowDiscount => assert DISCOUNT_BANDS_BY_LABEL[1] == LowDiscount;
      case MidDiscount => assert DISCOUNT_BANDS_BY_LABEL[2] == MidDiscount;
      case NoDiscount => assert DISCOUNT_BANDS_BY_LABEL[3] == NoDiscount;
    }
  }

  /** The counts add up to the number of orders. */
  lemma DiscountImpactPartition(os: seq<Order>)
    ensures Total(DiscountImpact(os), ImpactOrders) == |os| as real
  {
    var unsorted := Summarise(GroupBy(os, DiscountBandColumn, DISCOUNT_BANDS_BY_LABEL), ImpactRowOf);
    assert DiscountImpact(os) == SortBy(unsorted, ImpactRank);
    DiscountKeysCover(os);
    RollupCount(os, DiscountBandColumn, DISCOUNT_BANDS_BY_LABEL, ImpactRowOf, ImpactOrders);
    SortByTotal(unsorted, ImpactRank, ImpactOrders);
  }

  // ---------------------------------------------------------------------
  // Delivery cost to serve by order band

  datatype BandStats = BandStats(deliveryFeePct: real, avgMargin: real, count: nat)

  /** A band's row; a band without orders has no values. */
  datatype BandRow = BandRow(band: OrderBand, stats: Option<BandStats>)

  /** The sum of delivery_fee / order_value over orders with a positive order
      value. An order's delivery fee within [0, order value] gives a share
      within [0, 1], so over such orders the sum lies between 0 and the
      number of orders. */
  function FeeShareTotal(os: seq<Order>): (t: real)
    requires forall o :: o in os ==> o.orderValue > 0.0
    ensures (forall o :: o in os ==> 0.0 <= o.deliveryFee <= o.orderValue) ==> 0.0 <= t <= |os| as real
  {
    if |os| == 0 then 0.0
    else
      var o := os[0];
      assert o in os;
      assert forall q :: q in os[1..] ==> q in os;
      var share := o.deliveryFee / o.orderValue;
      assert 0.0 <= o.deliveryFee <= o.orderValue ==> 0.0 <= share <= 1.0 by {
        if 0.0 <= o.deliveryFee <= o.orderValue {
          ShareWithinOne(o.deliveryFee, o.orderValue);
        }
      }
      share + FeeShareTotal(os[1..])
  }

  /** A fee between zero and a positive value is a share of it between 0 and 1. */
  lemma ShareWithinOne(fee: real, value: real)
    requires value > 0.0 && 0.0 <= fee <= value
    ensures 0.0 <= fee / value <= 1.0
  {
    assert fee / value * value == fee;
  }

  /** A band's row: no values exactly when the band has no orders; otherwise
      the band's order count with its fee share and mean margin. */
  function BandRowOf(os: seq<Order>, b: OrderBand): (r: BandRow)
    requires forall o :: o in os ==> o.orderValue > 0.0
    ensures r.band == b
    ensures r.stats.None? <==> |Members(os, OrderBandColumn, b)| == 0
    ensures r.stats.Some? ==> r.stats.value.count == |Members(os, OrderBandColumn, b)|
  {
    var m := Members(os, OrderBandColumn, b);
    if |m| == 0 then BandRow(b, None)
    else BandRow(b, Some(BandStats(FeeShareTotal(m) / |m| as real * 100.0, Mean(m, ContributionMargin), |m|)))
  }

  function BandOrders(r: BandRow): real
  {
    match r.stats
    case None => 0.0
    case Some(s) => s.count as real
  }

  function BandRowsFor(os: seq<Order>, bs: seq<OrderBand>): (rows: seq<BandRow>)
    requires forall o :: o in os ==> o.orderValue > 0.0
    ensures |rows| == |bs|
    ensures forall i :: 0 <= i < |bs| ==> rows[i] == BandRowOf(os, bs[i])
    ensures Total(rows, BandOrders) == GroupSizes(os, OrderBandColumn, bs) as real
  {
    if |bs| == 0 then []
    else
      var rest := BandRowsFor(os, bs[1..]);
      assert ([BandRowOf(os, bs[0])] + rest)[1..] == rest;
      [BandRowOf(os, bs[0])] + rest
  }

  /** One row for each band in display order, empty for a band without
      orders; the counts add up to the number of orders. The delivery-fee
      share divides by the order value, so every order value must be
      positive. */
  function BandData(os: seq<Order>): (rows: seq<BandRow>)
    requires forall o :: o in os ==> o.orderValue > 0.0
    ensures |rows| == |BAND_ORDER|
    ensures forall i :: 0 <= i < |rows| ==> OrderBandLabel(rows[i].band) == BAND_ORDER[i]
    ensures Total(rows, BandOrders) == |os| as real
  {
    var rows := BandRowsFor(os, BANDS);
    forall i | 0 <= i < |rows|
      ensures OrderBandLabel(rows[i].band) == BAND_ORDER[i]
    {
      assert BandIndex(BANDS[i]) == i;
    }
    BandsCover();
    GroupByPartitions(os, OrderBandColumn, BANDS, OrderValue);
    GroupByCount(os, OrderBandColumn, BANDS);
    rows
  }

  /** A band's row is empty exactly when no order falls in the band;
      otherwise it summarises the band's orders. */
  lemma BandDataRows(os: seq<Order>)
    requires forall o :: o in os ==> o.orderValue > 0.0
    ensures forall r :: r in BandData(os) ==>
              var m := Members(os, OrderBandColumn, r.band);
              match r.stats
              case None => |m| == 0
              case Some(s) => |m| > 0 && s.count == |m| && s.avgMargin == Mean(m, ContributionMargin)
                              && s.deliveryFeePct == FeeShareTotal(m) / |m| as real * 100.0
  {
    var rows := BandData(os);
    forall r | r in rows
      ensures var m := Members(os, OrderBandColumn, r.band);
              match r.stats
              case None => |m| == 0
              case Some(s) => |m| > 0 && s.count == |m| && s.avgMargin == Mean(m, ContributionMargin)
                              && s.deliveryFeePct == FeeShareTotal(m) / |m| as real * 100.0
    {
      var i :| 0 <= i < |rows| && rows[i] == r;
      assert r == BandRowOf(os, BANDS[i]);
    }
  }

  /** When every delivery fee lies between zero and its order value, a band's
      delivery-fee share lies between 0 and 100 percent. */
  lemma BandPctBounds(os: seq<Order>, b: OrderBand)
    requires forall o :: o in os ==> o.orderValue > 0.0
    requires forall o :: o in os ==> 0.0 <= o.deliveryFee <= o.orderValue
    ensures BandRowOf(os, b).stats.Some? ==> 0.0 <= BandRowOf(os, b).stats.value.deliveryFeePct <= 100.0
  {
    var m := Members(os, OrderBandColumn, b);
    if |m| > 0 {
      var n := |m| as real;
      var t := FeeShareTotal(m);
      assert t / n <= 1.0 by {
        assert t / n * n == t;
      }
    }
  }

  /** When every delivery fee lies between zero and its order value, every
      band's delivery-fee share lies between 0 and 100 percent. */
  lemma DeliveryFeePctBounds(os: seq<Order>)
    requires forall o :: o in os ==> o.orderValue > 0.0
    requires forall o :: o in os ==> 0.0 <= o.deliveryFee <= o.orderValue
    ensures forall r :: r in BandData(os) && r.stats.Some? ==>
              0.0 <= r.stats.value.deliveryFeePct <= 100.0
  {
    var rows := BandData(os);
    forall r | r in rows && r.stats.Some?
      ensures 0.0 <= r.stats.value.deliveryFeePct <= 100.0
    {
      var i :| 0 <= i < |rows| && rows[i] == r;
      assert r == BandRowOf(os, BANDS[i]);
      BandPctBounds(os, BANDS[i]);
    }
  }
}
