/** The per-order contribution margin and the profitability label derived
    from it. */
module Margin {
  import opened Seqs
  import opened Orders

  /** What the platform keeps from one order: the fees it charges the
      restaurant and the customer, less its payment costs, the discounts it
      funds and the refunds it pays back. No input is rejected. The order
      makes money exactly when the two fees exceed the three costs. */
  function ContributionMargin(o: Order): (m: real)
    ensures m > 0.0 <==>
              o.commissionFee + o.deliveryFee > o.paymentProcessingFee + o.discountsAndOffers + o.refundsChargebacks
    ensures m == 0.0 <==>
              o.commissionFee + o.deliveryFee == o.paymentProcessingFee + o.discountsAndOffers + o.refundsChargebacks
  {
    o.commissionFee + o.deliveryFee
    - o.paymentProcessingFee
    - o.discountsAndOffers
    - o.refundsChargebacks
  }

  datatype Label = Profitable | LossMaking

  /** The label shown for a label value. The two names start with different
      letters, 'L' before 'P' in character order, so sorting by name puts
      "Loss-Making" before "Profitable". */
  function LabelName(l: Label): (s: string)
    ensures |s| > 0
    ensures l == LossMaking <==> s[0] == 'L'
    ensures l == Profitable <==> s[0] == 'P'
  {
    match l
    case Profitable => "Profitable"
    case LossMaking => "Loss-Making"
  }

  /** An order is profitable exactly when its margin is strictly positive;
      every other order, a zero margin included, is loss-making. */
  function LabelOf(o: Order): (l: Label)
    ensures l == Profitable <==> ContributionMargin(o) > 0.0
    ensures l == LossMaking <==> ContributionMargin(o) <= 0.0
  {
    if ContributionMargin(o) > 0.0 then Profitable else LossMaking
  }

  /** The two labels are told apart by their names. */
  lemma LabelNamesDistinct()
    ensures LabelName(Profitable) != LabelName(LossMaking)
  {
    assert LabelName(Profitable)[0] != LabelName(LossMaking)[0];
  }

  /** Summing the margin column gives the same linear combination of the
      five column sums: the net platform revenue of the whole table. */
  lemma {:induction false} MarginOfColumnSums(os: seq<Order>)
    ensures Total(os, ContributionMargin)
         == Total(os, CommissionFee) + Total(os, DeliveryFee)
          - Total(os, PaymentProcessingFee)
          - Total(os, DiscountsAndOffers)
          - Total(os, RefundsChargebacks)
  {
    if |os| > 0 {
      MarginOfColumnSums(os[1..]);
    }
  }

  /** The boundary cases of the label: worked orders with margins 7, -2 and 0. */
  lemma LabelScenarios()
    ensures var o := Order(1, 1, "Cash", 0, 10.0, 3.0, 5.0, 1.0, 0.0, 0.0);
            ContributionMargin(o) == 7.0 && LabelOf(o) == Profitable
    ensures var o := Order(2, 1, "Cash", 0, 10.0, 2.0, 2.0, 1.0, 5.0, 0.0);
            ContributionMargin(o) == -2.0 && LabelOf(o) == LossMaking
    ensures var o := Order(3, 1, "Cash", 0, 10.0, 2.0, 3.0, 5.0, 0.0, 0.0);
            ContributionMargin(o) == 0.0 && LabelOf(o) == LossMaking
  {
  }
}
