/** The documents of the payment store and the reporting row built from them.
    Every identifier is held in its string form (the form `$toString` gives
    an ObjectId), and every optional field is an `Option`: `None` stands for
    a field that is missing or null. */
module Schemas {
  import opened Common

  /** An Order document. `createdAt` is the timestamp the store adds. */
  datatype Order = Order(
    id: string,
    school_id: string,
    trustee_id: Option<string>,
    gateway_name: Option<string>,
    createdAt: Option<int>)

  /** An OrderStatus document; `collect_id` references the Order it reports
      on, and `bank_reference` doubles as the public "custom order id". */
  datatype OrderStatus = OrderStatus(
    collect_id: string,
    order_amount: Option<int>,
    transaction_amount: Option<int>,
    payment_mode: Option<string>,
    payment_details: Option<string>,
    bank_reference: Option<string>,
    payment_message: Option<string>,
    status: Option<string>,
    error_message: Option<string>,
    payment_time: Option<int>)

  /** One row of the transaction report: an order joined with one of its
      status records. */
  datatype Row = Row(
    collect_id: string,
    school_id: string,
    gateway: string,
    order_amount: int,
    transaction_amount: int,
    status: string,
    custom_order_id: string,
    createdAt: int)

  /** The `order_info` part of a gateway callback. */
  datatype OrderInfo = OrderInfo(
    order_id: string,
    order_amount: int,
    transaction_amount: int,
    status: string,
    payment_mode: string)

  /** A gateway callback as received; it is logged whole. */
  datatype Webhook = Webhook(status: int, order_info: OrderInfo)
}
