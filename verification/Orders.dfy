/** Orders and their life cycle (`aiswarm/types/orders.py`). */
module Orders {
  import opened Common

  datatype Side = Buy | Sell

  datatype OrderStatus = Pending | Approved | Rejected | Staged | Submitted | Filled | Cancelled

  datatype Order = Order(
    orderId: string,
    signalId: string,
    symbol: string,
    side: Side,
    quantity: real,
    limitPrice: Option<real>,
    notional: real,
    strategy: string,
    thesis: string,
    mandateId: Option<string>,
    riskToken: Option<string>,
    status: OrderStatus,
    createdAt: int
  )
}
