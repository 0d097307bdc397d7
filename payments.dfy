/** The payment store and the gateway callback that updates it in place. */
module Payments {
  import opened Common
  import opened Schemas
  import opened Statuses
  import opened Reporting
  import opened ReportingProperties

  /** What the callback handler answers: processed, or not-found for an
      order id that no status record carries. */
  datatype WebhookOutcome = Processed | StatusNotFound(orderId: string)

  /** The three collections the service writes: orders, status records and
      the append-only log of raw callbacks. */
  class PaymentStore {
    var orders: seq<Order>
    var statuses: seq<OrderStatus>
    var webhookLog: seq<Webhook>

    constructor (orders: seq<Order>, statuses: seq<OrderStatus>)
      ensures this.orders == orders && this.statuses == statuses && webhookLog == []
    {
      this.orders := orders;
      this.statuses := statuses;
      webhookLog := [];
    }

    /** `updatePaymentStatus`: logs the callback first, then settles the first
        status record whose `bank_reference` is the callback's order id, or
        answers not-found and leaves the records as they were. */
    method UpdatePaymentStatus(w: Webhook) returns (r: WebhookOutcome)
      modifies this
      ensures webhookLog == old(webhookLog) + [w]
      ensures orders == old(orders)
      ensures r.StatusNotFound? <==> FirstWithReference(old(statuses), w.order_info.order_id).None?
      ensures r.StatusNotFound? ==> r.orderId == w.order_info.order_id && statuses == old(statuses)
      ensures r.Processed? ==>
                var i := FirstWithReference(old(statuses), w.order_info.order_id).value;
                statuses == old(statuses)[i := Settle(old(statuses)[i], w.order_info)]
      ensures r.Processed? ==>
                GetTransactionStatus(statuses, w.order_info.order_id) == Found(Some(w.order_info.status))
    {
      webhookLog := webhookLog + [w];
      var found := FirstWithReference(statuses, w.order_info.order_id);
      match found {
        case None =>
          r := StatusNotFound(w.order_info.order_id);
        case Some(i) =>
          StatusQueryAfterSettle(statuses, w.order_info.order_id, w.order_info);
          statuses := statuses[i := Settle(statuses[i], w.order_info)];
          r := Processed;
      }
    }
  }

  lemma {:induction false} SettleKeepsDetailCount(o: Order, statuses: seq<OrderStatus>, i: nat, info: OrderInfo)
    requires i < |statuses|
    ensures |StatusDetails(o, statuses[i := Settle(statuses[i], info)])| == |StatusDetails(o, statuses)|
  {
    var updated := statuses[i := Settle(statuses[i], info)];
    if i > 0 {
      assert updated[1..] == statuses[1..][i - 1 := Settle(statuses[i], info)];
      SettleKeepsDetailCount(o, statuses[1..], i - 1, info);
    } else {
      assert updated[1..] == statuses[1..];
    }
  }

  lemma {:induction false} SettleKeepsPairCount(orders: seq<Order>, statuses: seq<OrderStatus>, i: nat, info: OrderInfo)
    requires i < |statuses|
    ensures |MatchedPairs(orders, statuses[i := Settle(statuses[i], info)])| == |MatchedPairs(orders, statuses)|
  {
    var updated := statuses[i := Settle(statuses[i], info)];
    if orders != [] {
      MatchedPairsHead(orders, statuses);
      MatchedPairsHead(orders, updated);
      SettleKeepsDetailCount(orders[0], statuses, i, info);
      UnwindOneLength(orders[0], StatusDetails(orders[0], statuses));
      UnwindOneLength(orders[0], StatusDetails(orders[0], updated));
      SettleKeepsPairCount(orders[1..], statuses, i, info);
    } else {
      assert MatchedPairs(orders, statuses) == [] && MatchedPairs(orders, updated) == [];
    }
  }

  /** A callback never changes how many rows the report has: it leaves every
      `collect_id`, hence the join, as it was. */
  lemma WebhookKeepsReportTotal(orders: seq<Order>, statuses: seq<OrderStatus>, i: nat, info: OrderInfo, q: Query, now: int)
    requires i < |statuses| && ValidQuery(q)
    ensures GetAllTransactions(orders, statuses[i := Settle(statuses[i], info)], q, now).total
         == GetAllTransactions(orders, statuses, q, now).total
  {
    SettleKeepsPairCount(orders, statuses, i, info);
  }
}
