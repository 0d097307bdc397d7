/** The transaction report: orders joined with their status records,
    flattened, projected with fallbacks, sorted and paged, as the store's
    aggregation pipeline computes it. */
module Reporting {
  import opened Common
  import opened Ordering
  import opened Schemas

  const DefaultGateway := "Default Gateway"
  const UnknownStatus := "UNKNOWN"

  /** The query parameters of a report request; absent ones take their
      defaults (page 1, limit 10, order "desc"). */
  datatype Query = Query(page: Option<int>, limit: Option<int>, sort: Option<string>, order: Option<string>)

  /** Callers pass a page and a limit of at least 1 when they pass them. */
  predicate ValidQuery(q: Query) {
    (q.page.Some? ==> q.page.value >= 1) && (q.limit.Some? ==> q.limit.value >= 1)
  }

  function PageOf(q: Query): int {
    q.page.GetOr(1)
  }

  function LimitOf(q: Query): int {
    q.limit.GetOr(10)
  }

  /** Number of rows before the requested page. */
  function SkipOf(q: Query): (r: int)
    requires ValidQuery(q)
    ensures r >= 0
  {
    var page, limit := PageOf(q), LimitOf(q);
    assert (page - 1) * limit >= 0 by {
      assert page - 1 >= 0 && limit >= 1;
    }
    (page - 1) * limit
  }

  /** The response body: one page of rows and the number of rows on all pages. */
  datatype Report = Report(data: seq<Row>, total: int, page: int, limit: int)

  function EmptyReport(q: Query): Report {
    Report([], 0, PageOf(q), LimitOf(q))
  }

  // ---------------------------------------------------------------------------
  // The stages of the aggregation, in pipeline order.

  /** An order together with the array `$lookup` attaches to it. */
  datatype Joined = Joined(order: Order, statusDetails: seq<OrderStatus>)

  /** The status records that reference order `o`, in store order. */
  function StatusDetails(o: Order, statuses: seq<OrderStatus>): (r: seq<OrderStatus>)
    ensures forall s :: s in r <==> s in statuses && s.collect_id == o.id
  {
    Filter(statuses, (s: OrderStatus) => s.collect_id == o.id)
  }

  /** `$lookup`: every order, with its status records attached; no order is
      dropped, so a count taken right after this stage counts the orders. */
  function Lookup(orders: seq<Order>, statuses: seq<OrderStatus>): (r: seq<Joined>)
    ensures |r| == |orders|
  {
    if orders == [] then []
    else [Joined(orders[0], StatusDetails(orders[0], statuses))] + Lookup(orders[1..], statuses)
  }

  predicate HasStatus(j: Joined) {
    |j.statusDetails| > 0
  }

  /** `$match` on `statusDetails.0`: orders with at least one status record. */
  function DropUnmatched(js: seq<Joined>): (r: seq<Joined>)
    ensures forall j :: j in r <==> j in js && HasStatus(j)
  {
    Filter(js, HasStatus)
  }

  /** An order paired with one of its status records. */
  datatype Pair = Pair(order: Order, status: OrderStatus)

  /** The pairs `$unwind` makes of one order and its array. */
  function UnwindOne(o: Order, details: seq<OrderStatus>): seq<Pair> {
    if details == [] then [] else [Pair(o, details[0])] + UnwindOne(o, details[1..])
  }

  /** `$unwind` without `preserveNullAndEmptyArrays`: one pair per array
      element; an empty array yields nothing. */
  function Unwind(js: seq<Joined>): seq<Pair> {
    if js == [] then [] else UnwindOne(js[0].order, js[0].statusDetails) + Unwind(js[1..])
  }

  /** The pairs that reach the projection stage. */
  function MatchedPairs(orders: seq<Order>, statuses: seq<OrderStatus>): seq<Pair> {
    Unwind(DropUnmatched(Lookup(orders, statuses)))
  }

  /** `$project`: the flat reporting row, with a fallback for every missing
      field; `now` is the time at which the query was built. */
  function Project(p: Pair, now: int): (r: Row)
    ensures r.collect_id == p.order.id && r.school_id == p.order.school_id
    ensures p.order.gateway_name.None? ==> r.gateway == DefaultGateway
    ensures p.order.gateway_name.Some? ==> r.gateway == p.order.gateway_name.value
    ensures p.status.order_amount.None? ==> r.order_amount == 0
    ensures p.status.order_amount.Some? ==> r.order_amount == p.status.order_amount.value
    ensures p.status.transaction_amount.None? ==> r.transaction_amount == 0
    ensures p.status.transaction_amount.Some? ==> r.transaction_amount == p.status.transaction_amount.value
    ensures p.status.status.None? ==> r.status == UnknownStatus
    ensures p.status.status.Some? ==> r.status == p.status.status.value
    ensures p.status.bank_reference.None? ==> r.custom_order_id == ""
    ensures p.status.bank_reference.Some? ==> r.custom_order_id == p.status.bank_reference.value
    ensures p.order.createdAt.None? ==> r.createdAt == now
    ensures p.order.createdAt.Some? ==> r.createdAt == p.order.createdAt.value
  {
    Row(
      collect_id := p.order.id,
      school_id := p.order.school_id,
      gateway := p.order.gateway_name.GetOr(DefaultGateway),
      order_amount := p.status.order_amount.GetOr(0),
      transaction_amount := p.status.transaction_amount.GetOr(0),
      status := p.status.status.GetOr(UnknownStatus),
      custom_order_id := p.status.bank_reference.GetOr(""),
      createdAt := p.order.createdAt.GetOr(now))
  }

  function ProjectAll(ps: seq<Pair>, now: int): seq<Row> {
    seq(|ps|, i requires 0 <= i < |ps| => Project(ps[i], now))
  }

  /** Every row the report ranges over, before sorting and paging. */
  function ReportRows(orders: seq<Order>, statuses: seq<OrderStatus>, now: int): seq<Row> {
    ProjectAll(MatchedPairs(orders, statuses), now)
  }

  /** The fields of a reporting row, and `NotARowField` for any other valid
      field path (such as `_id`): on such a path every row has the same
      (missing) key. Names the store rejects as field paths are not modelled. */
  datatype RowField =
    | CollectIdField | SchoolIdField | GatewayField | OrderAmountField
    | TransactionAmountField | StatusField | CustomOrderIdField | CreatedAtField
    | NotARowField

  function FieldNamed(name: string): RowField {
    match name
    case "collect_id" => CollectIdField
    case "school_id" => SchoolIdField
    case "gateway" => GatewayField
    case "order_amount" => OrderAmountField
    case "transaction_amount" => TransactionAmountField
    case "status" => StatusField
    case "custom_order_id" => CustomOrderIdField
    case "createdAt" => CreatedAtField
    case _ => NotARowField
  }

  /** The value the store compares when sorting rows on field `f`. */
  function RowKey(f: RowField, row: Row): Key {
    match f
    case CollectIdField => Str(row.collect_id)
    case SchoolIdField => Str(row.school_id)
    case GatewayField => Str(row.gateway)
    case OrderAmountField => Num(row.order_amount)
    case TransactionAmountField => Num(row.transaction_amount)
    case StatusField => Str(row.status)
    case CustomOrderIdField => Str(row.custom_order_id)
    case CreatedAtField => Num(row.createdAt)
    case NotARowField => Missing
  }

  function KeyOn(f: RowField): Row -> Key {
    (row: Row) => RowKey(f, row)
  }

  datatype SortSpec = SortSpec(field: RowField, ascending: bool)

  /** `$sort`: on the named field, ascending only for order "asc"; on
      `createdAt` descending when no (or an empty) field name is given. */
  function SortSpecOf(q: Query): (r: SortSpec)
    ensures (q.sort.None? || q.sort == Some("")) ==> r == SortSpec(CreatedAtField, false)
    ensures q.sort.Some? && q.sort.value != "" ==> r.field == FieldNamed(q.sort.value)
    ensures q.sort.Some? && q.sort.value != "" ==> (r.ascending <==> q.order == Some("asc"))
  {
    if q.sort.Some? && q.sort.value != "" then SortSpec(FieldNamed(q.sort.value), q.order == Some("asc"))
    else SortSpec(CreatedAtField, false)
  }

  /** One arrangement `$sort` may produce; the store leaves the order of rows
      with equal keys open, and this one keeps them in input order. */
  function SortRows(rows: seq<Row>, spec: SortSpec): (r: seq<Row>)
    ensures multiset(r) == multiset(rows)
    ensures SortedBy(r, KeyOn(spec.field), spec.ascending)
  {
    SortBy(rows, KeyOn(spec.field), spec.ascending)
  }

  /** `report` is an acceptable answer to query `q` over `rows`: `total` counts
      every row, and `data` is the requested page of SOME arrangement of the
      rows that is sorted as `q` asks (ties may fall either way). */
  ghost predicate IsReportOf(report: Report, rows: seq<Row>, q: Query)
    requires ValidQuery(q)
  {
    var spec := SortSpecOf(q);
    && report.page == PageOf(q)
    && report.limit == LimitOf(q)
    && report.total == |rows|
    && exists sorted: seq<Row> ::
         && multiset(sorted) == multiset(rows)
         && SortedBy(sorted, KeyOn(spec.field), spec.ascending)
         && report.data == Window(sorted, SkipOf(q), LimitOf(q))
  }

  /** Sort, count, skip and limit the projected rows. */
  function Pipeline(orders: seq<Order>, statuses: seq<OrderStatus>, q: Query, now: int): Report
    requires ValidQuery(q)
  {
    var sorted := SortRows(ReportRows(orders, statuses, now), SortSpecOf(q));
    Report(Window(sorted, SkipOf(q), LimitOf(q)), |sorted|, PageOf(q), LimitOf(q))
  }

  /** The pipeline's answer is a correct report over the projected pairs,
      with one row per matched pair and the exact page length. */
  lemma PipelineIsReport(orders: seq<Order>, statuses: seq<OrderStatus>, q: Query, now: int)
    requires ValidQuery(q)
    ensures var r := Pipeline(orders, statuses, q, now);
            && IsReportOf(r, ReportRows(orders, statuses, now), q)
            && r.total == |MatchedPairs(orders, statuses)|
            && |r.data| == Min(LimitOf(q), Max(0, r.total - SkipOf(q)))
  {
  }

  /** The early empty answer is a correct report when no pair matches. */
  lemma EmptyIsReport(orders: seq<Order>, statuses: seq<OrderStatus>, q: Query, now: int)
    requires ValidQuery(q)
    requires DropUnmatched(Lookup(orders, statuses)) == []
    ensures MatchedPairs(orders, statuses) == []
    ensures IsReportOf(EmptyReport(q), ReportRows(orders, statuses, now), q)
  {
    assert MatchedPairs(orders, statuses) == Unwind([]) == [];
    assert ReportRows(orders, statuses, now) == [];
    var spec := SortSpecOf(q);
    assert SortedBy([], KeyOn(spec.field), spec.ascending);
    assert EmptyReport(q).data == Window([], SkipOf(q), LimitOf(q));
  }

  // ---------------------------------------------------------------------------
  // The two report operations.

  /** All transactions. Returns the empty report straight away when there are
      no orders; the second check counts the documents right after `$lookup`,
      which keeps every order, so it can only fire on an empty order store. */
  function GetAllTransactions(orders: seq<Order>, statuses: seq<OrderStatus>, q: Query, now: int): (r: Report)
    requires ValidQuery(q)
    ensures |orders| == 0 ==> r == EmptyReport(q)
    ensures IsReportOf(r, ReportRows(orders, statuses, now), q)
    ensures r.total == |MatchedPairs(orders, statuses)|
    ensures |r.data| <= LimitOf(q)
    ensures |r.data| == Min(LimitOf(q), Max(0, r.total - SkipOf(q)))
  {
    if |orders| == 0 then
      EmptyIsReport(orders, statuses, q, now);
      EmptyReport(q)
    else if |Lookup(orders, statuses)| == 0 then
      EmptyIsReport(orders, statuses, q, now);
      EmptyReport(q)
    else
      PipelineIsReport(orders, statuses, q, now);
      Pipeline(orders, statuses, q, now)
  }

  /** The orders of one school. */
  function OrdersOfSchool(orders: seq<Order>, schoolId: string): seq<Order> {
    Filter(orders, (o: Order) => o.school_id == schoolId)
  }

  /** The school pipeline after its `$match` on `school_id`, over the
      school's orders: empty when there are none, or when none of them has
      a status record; the full pipeline otherwise. */
  function SchoolPipeline(scoped: seq<Order>, statuses: seq<OrderStatus>, q: Query, now: int): (r: Report)
    requires ValidQuery(q)
    ensures scoped == [] ==> r == EmptyReport(q)
    ensures IsReportOf(r, ReportRows(scoped, statuses, now), q)
    ensures r.total == |MatchedPairs(scoped, statuses)|
    ensures |r.data| <= LimitOf(q)
    ensures |r.data| == Min(LimitOf(q), Max(0, r.total - SkipOf(q)))
  {
    if |scoped| == 0 then
      EmptyIsReport(scoped, statuses, q, now);
      EmptyReport(q)
    else if |DropUnmatched(Lookup(scoped, statuses))| == 0 then
      EmptyIsReport(scoped, statuses, q, now);
      EmptyReport(q)
    else
      PipelineIsReport(scoped, statuses, q, now);
      Pipeline(scoped, statuses, q, now)
  }

  /** The transactions of one school: its orders are selected on
      `school_id` before the join. */
  function GetTransactionsBySchool(schoolId: string, orders: seq<Order>, statuses: seq<OrderStatus>, q: Query, now: int): (r: Report)
    requires ValidQuery(q)
    ensures OrdersOfSchool(orders, schoolId) == [] ==> r == EmptyReport(q)
    ensures IsReportOf(r, ReportRows(OrdersOfSchool(orders, schoolId), statuses, now), q)
    ensures r.total == |MatchedPairs(OrdersOfSchool(orders, schoolId), statuses)|
    ensures |r.data| <= LimitOf(q)
    ensures |r.data| == Min(LimitOf(q), Max(0, r.total - SkipOf(q)))
  {
    SchoolPipeline(OrdersOfSchool(orders, schoolId), statuses, q, now)
  }
}
