/** The dashboard's transaction table: the filters, the sort by the string
    form of a column, and the page slice, over a copy of the transactions it
    is given. */
module Table {
  import opened Common
  import opened Text
  import opened Ordering

  /** A transaction as the dashboard receives it. */
  datatype Transaction = Transaction(
    collect_id: string,
    school_id: string,
    gateway: Option<string>,
    order_amount: int,
    transaction_amount: int,
    status: string,
    custom_order_id: string,
    created_at: Option<string>,
    updated_at: Option<string>)

  /** The filter inputs, as typed; the empty string means "no filter". */
  datatype Filters = Filters(
    status: string,
    amount_min: string,
    amount_max: string,
    date_from: string,
    date_to: string,
    search: string)

  /** The columns a transaction can be sorted on. */
  datatype Column =
    | CollectId | SchoolId | Gateway | OrderAmount | TransactionAmount
    | Status | CustomOrderId | CreatedAt | UpdatedAt

  datatype Direction = Asc | Desc

  /** `String(transaction[column])`: numbers in decimal, a missing value as
      "undefined". */
  function ColumnText(t: Transaction, c: Column): string {
    match c
    case CollectId => t.collect_id
    case SchoolId => t.school_id
    case Gateway => t.gateway.GetOr("undefined")
    case OrderAmount => IntToString(t.order_amount)
    case TransactionAmount => IntToString(t.transaction_amount)
    case Status => t.status
    case CustomOrderId => t.custom_order_id
    case CreatedAt => t.created_at.GetOr("undefined")
    case UpdatedAt => t.updated_at.GetOr("undefined")
  }

  /** `new Date(s)` with dates written as integer timestamps; an unreadable
      date is `None` (an invalid date). */
  function DateValue(s: string): Option<int> {
    ParseInt(s)
  }

  /** `x < y` on numbers that may be NaN: false whenever one side is NaN. */
  predicate Below(x: Option<int>, y: Option<int>) {
    x.Some? && y.Some? && x.value < y.value
  }

  /** The transaction has a `created_at` that is not empty. */
  predicate HasDate(t: Transaction) {
    t.created_at.Some? && t.created_at.value != ""
  }

  predicate PassesStatus(t: Transaction, f: Filters) {
    f.status == "" || t.status == f.status
  }

  predicate PassesAmountMin(t: Transaction, f: Filters) {
    f.amount_min == "" || !Below(Some(t.order_amount), ParseInt(f.amount_min))
  }

  predicate PassesAmountMax(t: Transaction, f: Filters) {
    f.amount_max == "" || !Below(ParseInt(f.amount_max), Some(t.order_amount))
  }

  predicate PassesDateFrom(t: Transaction, f: Filters) {
    f.date_from == "" || !HasDate(t) || !Below(DateValue(t.created_at.value), DateValue(f.date_from))
  }

  predicate PassesDateTo(t: Transaction, f: Filters) {
    f.date_to == "" || !HasDate(t) || !Below(DateValue(f.date_to), DateValue(t.created_at.value))
  }

  /** `needle` (already lower-cased) occurs in one of the searched columns,
      each lower-cased; a missing gateway matches nothing. */
  predicate MatchesSearch(t: Transaction, needle: string) {
    || Includes(Lower(t.collect_id), needle)
    || Includes(Lower(t.custom_order_id), needle)
    || Includes(Lower(t.school_id), needle)
    || (t.gateway.Some? && Includes(Lower(t.gateway.value), needle))
    || Includes(Lower(t.status), needle)
  }

  predicate PassesSearch(t: Transaction, f: Filters) {
    f.search == "" || MatchesSearch(t, Lower(f.search))
  }

  /** The filter callback: every filter that is set must let the transaction through. */
  predicate Keep(t: Transaction, f: Filters) {
    && PassesStatus(t, f)
    && PassesAmountMin(t, f)
    && PassesAmountMax(t, f)
    && PassesDateFrom(t, f)
    && PassesDateTo(t, f)
    && PassesSearch(t, f)
  }

  function KeyOfColumn(c: Column): Transaction -> Key {
    (t: Transaction) => Str(ColumnText(t, c))
  }

  /** `filteredAndSortedTransactions`: the kept transactions, each as often as
      it was given, ordered by the text of column `c` in direction `d`. */
  function FilteredAndSorted(transactions: seq<Transaction>, f: Filters, c: Column, d: Direction): (r: seq<Transaction>)
    ensures forall t :: multiset(r)[t] == if Keep(t, f) then multiset(transactions)[t] else 0
    ensures forall t :: t in r ==> Keep(t, f)
    ensures SortedBy(r, KeyOfColumn(c), d == Asc)
  {
    var kept := Filter(transactions, (t: Transaction) => Keep(t, f));
    var r := SortBy(kept, KeyOfColumn(c), d == Asc);
    assert forall t :: t in r ==> t in multiset(kept);
    r
  }

  /** A position for `slice`: a negative one counts from the end, and any
      position is clamped to `0..n`. */
  function ClampIndex(i: int, n: nat): (r: nat)
    ensures r <= n
    ensures 0 <= i <= n ==> r == i
    ensures i < 0 ==> r == Max(n + i, 0)
    ensures i > n ==> r == n
  {
    if i < 0 then Max(n + i, 0) else Min(i, n)
  }

  /** `Array.prototype.slice(begin, end)`. */
  function Slice<T>(s: seq<T>, begin: int, end: int): (r: seq<T>)
    ensures |r| <= |s|
    ensures forall x :: x in r ==> x in s
    ensures var b, e := ClampIndex(begin, |s|), ClampIndex(end, |s|);
            |r| == Max(0, e - b) && forall k :: 0 <= k < |r| ==> r[k] == s[b + k]
  {
    var b, e := ClampIndex(begin, |s|), ClampIndex(end, |s|);
    if b < e then s[b..e] else []
  }

  /** From a non-negative position, `slice` takes the `limit` items there. */
  lemma SliceIsWindow<T>(s: seq<T>, skip: int, limit: int)
    requires skip >= 0 && limit >= 0
    ensures Slice(s, skip, skip + limit) == Window(s, skip, limit)
  {
  }

  /** Where page `page` starts: `(page - 1) * itemsPerPage`, never negative. */
  function PageStart(page: int, itemsPerPage: int): (r: nat)
    requires page >= 1 && itemsPerPage >= 0
    ensures r == (page - 1) * itemsPerPage
  {
    MultiplyMonotone(0, page - 1, itemsPerPage);
    (page - 1) * itemsPerPage
  }

  /** `paginatedTransactions`: the items of page `currentPage`. */
  function Paginate<T>(items: seq<T>, currentPage: int, itemsPerPage: int): (r: seq<T>)
    ensures forall x :: x in r ==> x in items
    ensures currentPage >= 1 && itemsPerPage >= 0 ==>
              r == Window(items, (currentPage - 1) * itemsPerPage, itemsPerPage)
  {
    var start := (currentPage - 1) * itemsPerPage;
    if currentPage >= 1 && itemsPerPage >= 0 then
      assert 0 <= start by {
        MultiplyMonotone(0, currentPage - 1, itemsPerPage);
      }
      SliceIsWindow(items, start, itemsPerPage);
      Slice(items, start, start + itemsPerPage)
    else
      Slice(items, start, start + itemsPerPage)
  }

  /** `totalPages`: `Math.ceil(n / itemsPerPage)`, the least page count whose
      pages hold `n` items. */
  function TotalPages(n: nat, itemsPerPage: int): (r: nat)
    requires itemsPerPage >= 1
    ensures r * itemsPerPage >= n
    ensures r == 0 || (r - 1) * itemsPerPage < n
  {
    var r := (n + itemsPerPage - 1) / itemsPerPage;
    assert r * itemsPerPage >= n by {
      assert (n + itemsPerPage - 1) % itemsPerPage < itemsPerPage;
    }
    r
  }
}
