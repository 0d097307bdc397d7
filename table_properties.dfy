/** What the dashboard table promises about the rows it shows: what each
    filter lets through, how the two sort directions relate, and how the
    pages cut the sorted rows. */
module TableProperties {
  import opened Common
  import opened Text
  import opened Ordering
  import opened Table

  /** A set status filter keeps only transactions with exactly that status. */
  lemma StatusFilterIsExact(transactions: seq<Transaction>, f: Filters, c: Column, d: Direction, t: Transaction)
    requires f.status != "" && t in FilteredAndSorted(transactions, f, c, d)
    ensures t.status == f.status
  {
  }

  /** Readable amount bounds hold for every kept transaction; an unreadable
      bound (NaN) restricts nothing. */
  lemma AmountBoundsHold(transactions: seq<Transaction>, f: Filters, c: Column, d: Direction, t: Transaction)
    requires t in FilteredAndSorted(transactions, f, c, d)
    ensures f.amount_min != "" && ParseInt(f.amount_min).Some? ==> ParseInt(f.amount_min).value <= t.order_amount
    ensures f.amount_max != "" && ParseInt(f.amount_max).Some? ==> t.order_amount <= ParseInt(f.amount_max).value
  {
  }

  /** The date window only ever excludes dated transactions: for one without
      a `created_at`, the filters decide the same with or without it. */
  lemma UndatedIgnoresDateWindow(t: Transaction, f: Filters)
    requires !HasDate(t)
    ensures Keep(t, f) <==> Keep(t, f.(date_from := "", date_to := ""))
  {
  }

  /** A set search keeps a transaction exactly when the lower-cased search
      text occurs in one of the lower-cased searched columns. */
  lemma SearchIsSubstringMatch(t: Transaction, f: Filters)
    requires f.search != ""
    ensures PassesSearch(t, f) <==>
              var needle := Lower(f.search);
              || Occurs(Lower(t.collect_id), needle)
              || Occurs(Lower(t.custom_order_id), needle)
              || Occurs(Lower(t.school_id), needle)
              || (t.gateway.Some? && Occurs(Lower(t.gateway.value), needle))
              || Occurs(Lower(t.status), needle)
  {
  }

  /** The search ignores the case of what is typed. */
  lemma {:induction false} SearchIgnoresCase(t: Transaction, f: Filters)
    ensures PassesSearch(t, f) <==> PassesSearch(t, f.(search := Lower(f.search)))
  {
    LowerIdempotent(f.search);
    if f.search != "" {
      assert |Lower(f.search)| == |f.search|;
    }
  }

  /** With no two kept transactions showing the same text in the sort
      column, the descending order is the ascending one reversed. */
  lemma DirectionsAreReverses(transactions: seq<Transaction>, f: Filters, c: Column)
    requires NoTies(Filter(transactions, (t: Transaction) => Keep(t, f)), KeyOfColumn(c))
    ensures FilteredAndSorted(transactions, f, c, Desc) == Reverse(FilteredAndSorted(transactions, f, c, Asc))
  {
    DescendingIsReversedAscending(Filter(transactions, (t: Transaction) => Keep(t, f)), KeyOfColumn(c));
  }

  /** A page holds at most `itemsPerPage` items, and it is empty exactly when
      its number lies beyond the page count. */
  lemma {:induction false} PageIsNonEmptyIffInRange<T>(items: seq<T>, page: int, itemsPerPage: int)
    requires page >= 1 && itemsPerPage >= 1
    ensures |Paginate(items, page, itemsPerPage)| <= itemsPerPage
    ensures Paginate(items, page, itemsPerPage) != [] <==> page <= TotalPages(|items|, itemsPerPage)
  {
    var n, total := |items|, TotalPages(|items|, itemsPerPage);
    var skip := (page - 1) * itemsPerPage;
    if page <= total {
      assert skip <= (total - 1) * itemsPerPage by {
        MultiplyMonotone(page - 1, total - 1, itemsPerPage);
      }
    } else {
      assert skip >= total * itemsPerPage by {
        MultiplyMonotone(total, page - 1, itemsPerPage);
      }
    }
  }

  /** Pages 1 to `k`, one after the other. */
  function PagesUpTo<T>(items: seq<T>, itemsPerPage: int, k: nat): (r: seq<T>)
    requires itemsPerPage >= 1
    ensures |r| <= k * itemsPerPage
  {
    if k == 0 then []
    else
      var r := PagesUpTo(items, itemsPerPage, k - 1) + Paginate(items, k, itemsPerPage);
      assert |r| <= (k - 1) * itemsPerPage + itemsPerPage by {
        PageIsNonEmptyIffInRange(items, k, itemsPerPage);
      }
      r
  }

  /** A prefix followed by the window right after it is a longer prefix. */
  lemma PrefixThenWindow<T>(items: seq<T>, skip: int, limit: int)
    requires skip >= 0 && limit >= 0
    ensures items[..Min(|items|, skip)] + Window(items, skip, limit) == items[..Min(|items|, skip + limit)]
  {
  }

  /** The first `k` pages are the first `k * itemsPerPage` items. */
  lemma {:induction false} PagesUpToArePrefix<T>(items: seq<T>, itemsPerPage: int, k: nat)
    requires itemsPerPage >= 1
    ensures PagesUpTo(items, itemsPerPage, k) == items[..Min(|items|, k * itemsPerPage)]
  {
    if k > 0 {
      PagesUpToArePrefix(items, itemsPerPage, k - 1);
      var skip := (k - 1) * itemsPerPage;
      MultiplyMonotone(0, k - 1, itemsPerPage);
      assert k * itemsPerPage == skip + itemsPerPage;
      PrefixThenWindow(items, skip, itemsPerPage);
    }
  }

  /** The pages partition the rows: pages 1 to `totalPages`, in order, are
      exactly the filtered and sorted rows, so each row is on exactly one page. */
  lemma PagesPartitionRows<T>(items: seq<T>, itemsPerPage: int)
    requires itemsPerPage >= 1
    ensures PagesUpTo(items, itemsPerPage, TotalPages(|items|, itemsPerPage)) == items
  {
    PagesUpToArePrefix(items, itemsPerPage, TotalPages(|items|, itemsPerPage));
  }
}
