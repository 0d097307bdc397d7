/** Lookups and updates of status records by `bank_reference`, the field
    that serves both as the gateway's reference and as the public order id. */
module Statuses {
  import opened Common
  import opened Schemas

  /** Position of the first record, in store order, whose `bank_reference`
      is `ref`: the record that `findOne` and `findOneAndUpdate` select. */
  function FirstWithReference(statuses: seq<OrderStatus>, ref: string): (r: Option<nat>)
    ensures r.Some? ==> r.value < |statuses| && statuses[r.value].bank_reference == Some(ref)
    ensures r.Some? ==> forall j :: 0 <= j < r.value ==> statuses[j].bank_reference != Some(ref)
    ensures r.None? <==> forall j :: 0 <= j < |statuses| ==> statuses[j].bank_reference != Some(ref)
  {
    if statuses == [] then None
    else if statuses[0].bank_reference == Some(ref) then Some(0)
    else
      match FirstWithReference(statuses[1..], ref)
      case None => None
      case Some(k) => Some(k + 1)
  }

  /** The answer to a status query: the record's status (which may itself be
      missing), or not-found. */
  datatype StatusLookup = Found(status: Option<string>) | NotFound

  /** `getTransactionStatus`: the status of a record whose `bank_reference`
      is the custom order id; not-found exactly when there is none. */
  function GetTransactionStatus(statuses: seq<OrderStatus>, customOrderId: string): (r: StatusLookup)
    ensures r.NotFound? <==> forall s :: s in statuses ==> s.bank_reference != Some(customOrderId)
    ensures r.Found? ==> exists s :: s in statuses && s.bank_reference == Some(customOrderId) && r.status == s.status
  {
    match FirstWithReference(statuses, customOrderId)
    case None => NotFound
    case Some(i) =>
      assert statuses[i] in statuses;
      Found(statuses[i].status)
  }

  /** The `$set` a gateway callback applies: the final status, the settled
      amount and the payment mode; every other modelled field keeps its
      value (the store also bumps `updatedAt`, which is not modelled). */
  function Settle(s: OrderStatus, info: OrderInfo): (r: OrderStatus)
    ensures r.status == Some(info.status)
    ensures r.transaction_amount == Some(info.transaction_amount)
    ensures r.payment_mode == Some(info.payment_mode)
    ensures r.collect_id == s.collect_id && r.order_amount == s.order_amount
    ensures r.payment_details == s.payment_details && r.bank_reference == s.bank_reference
    ensures r.payment_message == s.payment_message && r.error_message == s.error_message
    ensures r.payment_time == s.payment_time
  {
    s.(status := Some(info.status),
       transaction_amount := Some(info.transaction_amount),
       payment_mode := Some(info.payment_mode))
  }

  /** After a callback settled the record for `ref`, a status query for
      `ref` reports the callback's status. */
  lemma StatusQueryAfterSettle(statuses: seq<OrderStatus>, ref: string, info: OrderInfo)
    requires FirstWithReference(statuses, ref).Some?
    ensures var i := FirstWithReference(statuses, ref).value;
            GetTransactionStatus(statuses[i := Settle(statuses[i], info)], ref) == Found(Some(info.status))
  {
    var i := FirstWithReference(statuses, ref).value;
    var updated := statuses[i := Settle(statuses[i], info)];
    assert updated[i].bank_reference == Some(ref);
  }
}
