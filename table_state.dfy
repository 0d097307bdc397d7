/** The table's UI state: the sort column and direction, the filter inputs,
    the current page and the URL search parameters, updated in place by the
    sort, filter and page handlers. */
module TableUi {
  import opened Common
  import opened Text
  import opened Table

  /** The six filter inputs. */
  datatype FilterKey = StatusKey | AmountMinKey | AmountMaxKey | DateFromKey | DateToKey | SearchKey

  /** The URL parameter a filter is mirrored in. */
  function ParamName(k: FilterKey): (r: string)
    ensures r != "page" && r != "sortKey" && r != "sortDirection"
  {
    match k
    case StatusKey => "status"
    case AmountMinKey => "amount_min"
    case AmountMaxKey => "amount_max"
    case DateFromKey => "date_from"
    case DateToKey => "date_to"
    case SearchKey => "search"
  }

  /** No two filters share a URL parameter. */
  lemma ParamNamesDistinct(k: FilterKey, k': FilterKey)
    ensures ParamName(k) == ParamName(k') ==> k == k'
  {
  }

  function Get(f: Filters, k: FilterKey): string {
    match k
    case StatusKey => f.status
    case AmountMinKey => f.amount_min
    case AmountMaxKey => f.amount_max
    case DateFromKey => f.date_from
    case DateToKey => f.date_to
    case SearchKey => f.search
  }

  /** `{...filters, [k]: v}`: filter `k` becomes `v`, the others keep theirs. */
  function With(f: Filters, k: FilterKey, v: string): (r: Filters)
    ensures Get(r, k) == v
    ensures forall k' :: k' != k ==> Get(r, k') == Get(f, k')
  {
    match k
    case StatusKey => f.(status := v)
    case AmountMinKey => f.(amount_min := v)
    case AmountMaxKey => f.(amount_max := v)
    case DateFromKey => f.(date_from := v)
    case DateToKey => f.(date_to := v)
    case SearchKey => f.(search := v)
  }

  /** `searchParams.get(name) || ''`. */
  function ParamOrEmpty(params: map<string, string>, name: string): (r: string)
    ensures name in params ==> r == params[name]
    ensures name !in params ==> r == ""
  {
    if name in params then params[name] else ""
  }

  /** The column name a sort writes to the URL. */
  function ColumnName(c: Column): string {
    match c
    case CollectId => "collect_id"
    case SchoolId => "school_id"
    case Gateway => "gateway"
    case OrderAmount => "order_amount"
    case TransactionAmount => "transaction_amount"
    case Status => "status"
    case CustomOrderId => "custom_order_id"
    case CreatedAt => "created_at"
    case UpdatedAt => "updated_at"
  }

  /** Different columns are written to the URL under different names. */
  lemma ColumnNamesDistinct(c: Column, c': Column)
    ensures ColumnName(c) == ColumnName(c') ==> c == c'
  {
  }

  function DirectionName(d: Direction): string {
    if d == Asc then "asc" else "desc"
  }

  /** The sort after a click on column `k`: descending only when `k` is
      already the sort column in ascending order, ascending otherwise. */
  function NextSort(key: Column, direction: Direction, k: Column): (r: (Column, Direction))
    ensures r.0 == k
    ensures r.1 == Desc <==> key == k && direction == Asc
  {
    (k, if key == k && direction == Asc then Desc else Asc)
  }

  /** The component's state. */
  class TableState {
    var sortKey: Column
    var direction: Direction
    var filters: Filters
    var currentPage: int
    var params: map<string, string>

    /** Every filter shows what its URL parameter holds, or nothing when the
        parameter is absent. */
    ghost predicate Valid()
      reads this
    {
      forall k :: Get(filters, k) == ParamOrEmpty(params, ParamName(k))
    }

    /** The state once the component has mounted: filters read from the URL,
        sorted by `created_at` descending, and on page 1, where the effect
        on `filters` puts it at mount. */
    constructor (initialParams: map<string, string>)
      ensures Valid()
      ensures params == initialParams
      ensures forall k :: Get(filters, k) == ParamOrEmpty(initialParams, ParamName(k))
      ensures sortKey == CreatedAt && direction == Desc && currentPage == 1
    {
      params := initialParams;
      filters := Filters(
        ParamOrEmpty(initialParams, "status"),
        ParamOrEmpty(initialParams, "amount_min"),
        ParamOrEmpty(initialParams, "amount_max"),
        ParamOrEmpty(initialParams, "date_from"),
        ParamOrEmpty(initialParams, "date_to"),
        ParamOrEmpty(initialParams, "search"));
      sortKey := CreatedAt;
      direction := Desc;
      currentPage := 1;
    }

    /** `handleSort`: the new sort, written to `sortKey` and `sortDirection`. */
    method HandleSort(k: Column)
      requires Valid()
      modifies this
      ensures Valid()
      ensures (sortKey, direction) == NextSort(old(sortKey), old(direction), k)
      ensures params == old(params)["sortKey" := ColumnName(k)]["sortDirection" := DirectionName(direction)]
      ensures filters == old(filters) && currentPage == old(currentPage)
    {
      var next := NextSort(sortKey, direction, k);
      sortKey, direction := next.0, next.1;
      params := params["sortKey" := ColumnName(k)]["sortDirection" := DirectionName(direction)];
    }

    /** `handleFilterChange`, followed by the effect on `filters`: filter `k`
        becomes `v`, its URL parameter is set to `v` or removed when `v` is
        empty, and the table goes back to page 1. */
    method HandleFilterChange(k: FilterKey, v: string)
      requires Valid()
      modifies this
      ensures Valid()
      ensures filters == With(old(filters), k, v)
      ensures v != "" ==> params == old(params)[ParamName(k) := v]
      ensures v == "" ==> params == old(params) - {ParamName(k)}
      ensures currentPage == 1
      ensures sortKey == old(sortKey) && direction == old(direction)
    {
      filters := With(filters, k, v);
      if v != "" {
        params := params[ParamName(k) := v];
      } else {
        params := params - {ParamName(k)};
      }
      currentPage := 1;
      forall k' ensures Get(filters, k') == ParamOrEmpty(params, ParamName(k')) {
        ParamNamesDistinct(k, k');
      }
    }

    /** `handlePageChange`: the page, also written in decimal to `page`. */
    method HandlePageChange(page: int)
      requires Valid()
      modifies this
      ensures Valid()
      ensures currentPage == page
      ensures params == old(params)["page" := IntToString(page)]
      ensures ParseInt(params["page"]) == Some(currentPage)
      ensures filters == old(filters) && sortKey == old(sortKey) && direction == old(direction)
    {
      currentPage := page;
      params := params["page" := IntToString(page)];
      IntToStringRoundTrip(page);
    }

    /** The rows on screen for the given transactions: page `currentPage`
        of the filtered and sorted rows, so at most a page of them, each one
        given and let through by the filters. */
    function Shown(transactions: seq<Transaction>, itemsPerPage: int): (r: seq<Transaction>)
      reads this
      ensures currentPage >= 1 && itemsPerPage >= 0 ==>
                |r| <= itemsPerPage && forall t :: t in r ==> t in transactions && Keep(t, filters)
      ensures currentPage >= 1 && itemsPerPage >= 0 ==>
                r == Window(FilteredAndSorted(transactions, filters, sortKey, direction),
                            PageStart(currentPage, itemsPerPage), itemsPerPage)
    {
      var rows := FilteredAndSorted(transactions, filters, sortKey, direction);
      KeptRowsAreGiven(transactions, filters, sortKey, direction);
      Paginate(rows, currentPage, itemsPerPage)
    }
  }

  /** Every kept row is one of the given transactions. */
  lemma KeptRowsAreGiven(transactions: seq<Transaction>, f: Filters, c: Column, d: Direction)
    ensures forall t :: t in FilteredAndSorted(transactions, f, c, d) ==> t in transactions && Keep(t, f)
  {
    var rows := FilteredAndSorted(transactions, f, c, d);
    assert forall t :: t in rows ==> t in multiset(transactions);
  }

  /** A second click on the same column always flips the direction. */
  lemma SecondClickFlips(key: Column, direction: Direction, k: Column)
    ensures var first := NextSort(key, direction, k);
            NextSort(first.0, first.1, k).1 != first.1
  {
  }
}
