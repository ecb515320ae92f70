/** The two bucketing rules: discount bands with their display ranks, and
    order-value bands with their display order. */
module Bands {
  import opened Seqs

  // ---------------------------------------------------------------------
  // Discount bands

  datatype DiscountBand = NoDiscount | LowDiscount | MidDiscount | HighDiscount

  /** The band of a discount amount: the first threshold it passes, tested
      in the order of the script's if-chain. Each band is the exact interval
      of amounts the chain sends to it. Nothing rejects a negative discount;
      it passes `d <= 5` and lands in the low band. */
  function DiscountBandOf(d: real): (b: DiscountBand)
    ensures b == NoDiscount <==> d == 0.0
    ensures b == LowDiscount <==> d < 0.0 || (0.0 < d <= 5.0)
    ensures b == MidDiscount <==> 5.0 < d <= 15.0
    ensures b == HighDiscount <==> d > 15.0
  {
    if d == 0.0 then NoDiscount
    else if d <= 5.0 then LowDiscount
    else if d <= 15.0 then MidDiscount
    else HighDiscount
  }

  /** The label shown for a band; every label has a display rank. */
  function DiscountLabel(b: DiscountBand): (s: string)
    ensures s in DISCOUNT_ORDER
  {
    match b
    case NoDiscount => "No Discount"
    case LowDiscount => "Low (1-5)"
    case MidDiscount => "Mid (6-15)"
    case HighDiscount => "High (15+)"
  }

  /** The display rank of each band label. */
  const DISCOUNT_ORDER: map<string, nat> :=
    map["No Discount" := 0, "Low (1-5)" := 1, "Mid (6-15)" := 2, "High (15+)" := 3]

  /** The rank that the display ordering gives a band. */
  function DiscountRank(b: DiscountBand): (r: nat)
    ensures DiscountLabel(b) in DISCOUNT_ORDER && r == DISCOUNT_ORDER[DiscountLabel(b)]
    ensures r < 4
  {
    DISCOUNT_ORDER[DiscountLabel(b)]
  }

  /** Different bands have different labels and different ranks, so sorting
      by rank puts the bands in one fixed order. */
  lemma DiscountRankInjective(a: DiscountBand, b: DiscountBand)
    requires a != b
    ensures DiscountLabel(a) != DiscountLabel(b)
    ensures DiscountRank(a) != DiscountRank(b)
  {
  }

  /** Over non-negative discounts, a larger discount never has a smaller rank. */
  lemma DiscountRankMonotone(d1: real, d2: real)
    requires 0.0 <= d1 <= d2
    ensures DiscountRank(DiscountBandOf(d1)) <= DiscountRank(DiscountBandOf(d2))
  {
  }

  /** Without the non-negativity bound the ordering breaks: a discount of -1
      ranks above a discount of 0. */
  lemma DiscountRankNotMonotoneBelowZero()
    ensures DiscountRank(DiscountBandOf(-1.0)) > DiscountRank(DiscountBandOf(0.0))
  {
  }

  // ---------------------------------------------------------------------
  // Order-value bands

  datatype OrderBand = LowValue | MidValue | HighValue | PremiumValue

  /** The band of an order value, by half-open intervals closed below: each
      band is the exact interval of values the if-chain sends to it. */
  function OrderBandOf(v: real): (b: OrderBand)
    ensures b == LowValue <==> v < 15.0
    ensures b == MidValue <==> 15.0 <= v < 30.0
    ensures b == HighValue <==> 30.0 <= v < 50.0
    ensures b == PremiumValue <==> v >= 50.0
  {
    if v < 15.0 then LowValue
    else if v < 30.0 then MidValue
    else if v < 50.0 then HighValue
    else PremiumValue
  }

  /** The label shown for a band; every label is in the display order. */
  function OrderBandLabel(b: OrderBand): (s: string)
    ensures s in BAND_ORDER
  {
    match b
    case LowValue => "Low (< $15)"
    case MidValue => "Mid ($15-30)"
    case HighValue => "High ($30-50)"
    case PremiumValue => "Premium (> $50)"
  }

  /** The display order of the band labels. */
  const BAND_ORDER: seq<string> :=
    ["Low (< $15)", "Mid ($15-30)", "High ($30-50)", "Premium (> $50)"]

  /** The bands, in the display order. */
  const BANDS: seq<OrderBand> := [LowValue, MidValue, HighValue, PremiumValue]

  /** The position of a band in the display order. */
  function BandIndex(b: OrderBand): (i: nat)
    ensures i < |BAND_ORDER| && BAND_ORDER[i] == OrderBandLabel(b)
    ensures i < |BANDS| && BANDS[i] == b
  {
    match b
    case LowValue => 0
    case MidValue => 1
    case HighValue => 2
    case PremiumValue => 3
  }

  /** BANDS lists every band, and just once. */
  lemma BandsCover()
    ensures Distinct(BANDS)
    ensures forall b :: b in BANDS
  {
    forall b
      ensures b in BANDS
    {
      assert BANDS[BandIndex(b)] == b;
    }
  }

  /** The display order lists every band's label, and just once. */
  lemma BandOrderListsEachBandOnce(b: OrderBand)
    ensures forall i :: 0 <= i < |BAND_ORDER| && BAND_ORDER[i] == OrderBandLabel(b) ==> i == BandIndex(b)
  {
    forall i | 0 <= i < |BAND_ORDER| && BAND_ORDER[i] == OrderBandLabel(b)
      ensures i == BandIndex(b)
    {
      assert BAND_ORDER[i][0] == OrderBandLabel(b)[0];
    }
  }

  /** A larger order value never sits earlier in the display order. */
  lemma BandIndexMonotone(v1: real, v2: real)
    requires v1 <= v2
    ensures BandIndex(OrderBandOf(v1)) <= BandIndex(OrderBandOf(v2))
  {
  }
}
