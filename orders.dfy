/** One row of the orders table, after its column names have been normalised
    and its order month derived. */
module Orders {

  datatype Order = Order(
    orderId: nat,
    restaurantId: nat,
    paymentMethod: string,
    // The calendar month of `order_date`, as a running month index; the
    // "YYYY-MM" period string it stands for sorts in the same order.
    orderMonth: nat,
    orderValue: real,
    deliveryFee: real,
    commissionFee: real,
    paymentProcessingFee: real,
    discountsAndOffers: real,
    refundsChargebacks: real)

  // Columns as functions, so that a rollup can take one as its key or its
  // aggregated value.

  function RestaurantOf(o: Order): nat { o.restaurantId }
  function PaymentMethodOf(o: Order): string { o.paymentMethod }
  function MonthOf(o: Order): nat { o.orderMonth }

  function OrderValue(o: Order): real { o.orderValue }
  function DeliveryFee(o: Order): real { o.deliveryFee }
  function CommissionFee(o: Order): real { o.commissionFee }
  function PaymentProcessingFee(o: Order): real { o.paymentProcessingFee }
  function DiscountsAndOffers(o: Order): real { o.discountsAndOffers }
  function RefundsChargebacks(o: Order): real { o.refundsChargebacks }
}
