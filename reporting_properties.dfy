/** What the transaction report promises about its rows: which (order,
    status) pairs it reports, how often, and that no order without a status
    record and no order of another school ever shows up. */
module ReportingProperties {
  import opened Common
  import opened Ordering
  import opened Schemas
  import opened Reporting

  lemma {:induction false} UnwindConcat(a: seq<Joined>, b: seq<Joined>)
    ensures Unwind(a + b) == Unwind(a) + Unwind(b)
  {
    if a == [] {
      assert a + b == b;
    } else {
      assert (a + b)[0] == a[0] && (a + b)[1..] == a[1..] + b;
      UnwindConcat(a[1..], b);
    }
  }

  /** The `$match` on `statusDetails.0` changes nothing downstream: `$unwind`
      drops orders with an empty array anyway. */
  lemma {:induction false} UnwindIgnoresUnmatched(js: seq<Joined>)
    ensures Unwind(DropUnmatched(js)) == Unwind(js)
  {
    if js != [] {
      UnwindIgnoresUnmatched(js[1..]);
      assert js == [js[0]] + js[1..];
      if HasStatus(js[0]) {
        assert DropUnmatched(js) == [js[0]] + DropUnmatched(js[1..]);
        UnwindConcat([js[0]], DropUnmatched(js[1..]));
      } else {
        assert DropUnmatched(js) == DropUnmatched(js[1..]);
        assert js[0].statusDetails == [];
      }
    }
  }

  lemma {:induction false} UnwindOneMembership(o: Order, details: seq<OrderStatus>, p: Pair)
    ensures p in UnwindOne(o, details) <==> p.order == o && p.status in details
  {
    if details != [] {
      UnwindOneMembership(o, details[1..], p);
      assert details == [details[0]] + details[1..];
    }
  }

  /** One row per status record of the order. */
  lemma {:induction false} UnwindOneLength(o: Order, details: seq<OrderStatus>)
    ensures |UnwindOne(o, details)| == |details|
  {
    if details != [] {
      UnwindOneLength(o, details[1..]);
    }
  }

  lemma {:induction false} UnwindOneMultiplicity(o: Order, details: seq<OrderStatus>, p: Pair)
    ensures multiset(UnwindOne(o, details))[p] == if p.order == o then multiset(details)[p.status] else 0
  {
    if details != [] {
      UnwindOneMultiplicity(o, details[1..], p);
      assert details == [details[0]] + details[1..];
      assert multiset(details)[p.status] == multiset([details[0]])[p.status] + multiset(details[1..])[p.status];
    }
  }

  lemma {:induction false} MatchedPairsHead(orders: seq<Order>, statuses: seq<OrderStatus>)
    requires orders != []
    ensures MatchedPairs(orders, statuses)
         == UnwindOne(orders[0], StatusDetails(orders[0], statuses)) + MatchedPairs(orders[1..], statuses)
  {
    var js := Lookup(orders, statuses);
    UnwindIgnoresUnmatched(js);
    UnwindIgnoresUnmatched(Lookup(orders[1..], statuses));
    assert js[1..] == Lookup(orders[1..], statuses);
  }

  /** Membership in a concatenation; stated on its own so the proofs below
      get it without unfolding the concatenation in a large context. */
  lemma ConcatMembership<T>(a: seq<T>, b: seq<T>, x: T)
    ensures x in a + b <==> x in a || x in b
  {
  }

  /** Membership in a non-empty sequence, split at its head; a step the
      inductive proofs below use without splitting the sequence themselves. */
  lemma HeadMembership<T>(xs: seq<T>, x: T)
    requires xs != []
    ensures x in xs <==> x == xs[0] || x in xs[1..]
  {
  }

  /** The pairs one order contributes are that order with each of its status records. */
  lemma HeadPairMembership(head: Order, statuses: seq<OrderStatus>, p: Pair)
    ensures p in UnwindOne(head, StatusDetails(head, statuses))
        <==> p.order == head && p.status in statuses && p.status.collect_id == head.id
  {
    UnwindOneMembership(head, StatusDetails(head, statuses), p);
  }

  /** The join is an inner join: a pair is reported exactly when its status
      record references its order, both taken from the stores. */
  lemma {:induction false} MatchedPairMembership(orders: seq<Order>, statuses: seq<OrderStatus>, p: Pair)
    ensures p in MatchedPairs(orders, statuses)
        <==> p.order in orders && p.status in statuses && p.status.collect_id == p.order.id
  {
    if orders == [] {
      assert MatchedPairs(orders, statuses) == [];
    } else {
      var head, rest := UnwindOne(orders[0], StatusDetails(orders[0], statuses)), MatchedPairs(orders[1..], statuses);
      MatchedPairsHead(orders, statuses);
      ConcatMembership(head, rest, p);
      MatchedPairMembership(orders[1..], statuses, p);
      HeadPairMembership(orders[0], statuses, p);
      HeadMembership(orders, p.order);
    }
  }

  lemma StatusDetailsCount(o: Order, statuses: seq<OrderStatus>, s: OrderStatus)
    ensures multiset(StatusDetails(o, statuses))[s] == if s.collect_id == o.id then multiset(statuses)[s] else 0
  {
  }

  /** Multiplicity in a non-empty sequence, split at its head. */
  lemma HeadCount<T>(xs: seq<T>, x: T)
    requires xs != []
    ensures multiset(xs)[x] == (if xs[0] == x then 1 else 0) + multiset(xs[1..])[x]
  {
    assert xs == [xs[0]] + xs[1..];
    assert multiset(xs) == multiset([xs[0]]) + multiset(xs[1..]);
  }

  /** The pairs one order contributes: its status records, each as often
      as it is stored. */
  lemma HeadPairCount(head: Order, statuses: seq<OrderStatus>, o: Order, s: OrderStatus)
    ensures multiset(UnwindOne(head, StatusDetails(head, statuses)))[Pair(o, s)]
         == if head == o && s.collect_id == o.id then multiset(statuses)[s] else 0
  {
    UnwindOneMultiplicity(head, StatusDetails(head, statuses), Pair(o, s));
    StatusDetailsCount(head, statuses, s);
  }

  /** Multisets of a concatenation add up; stated on its own so the
      inductive proofs below get it in a small context. */
  lemma ConcatCount<T>(a: seq<T>, b: seq<T>, x: T)
    ensures multiset(a + b)[x] == multiset(a)[x] + multiset(b)[x]
  {
  }

  /** No deduplication: a matching (order, status) pair is reported as many
      times as the order occurs times as the status record occurs, so one
      row per pair when both are stored once. */
  lemma {:induction false} PairMultiplicity(orders: seq<Order>, statuses: seq<OrderStatus>, o: Order, s: OrderStatus)
    ensures multiset(MatchedPairs(orders, statuses))[Pair(o, s)]
         == if s.collect_id == o.id then multiset(orders)[o] * multiset(statuses)[s] else 0
  {
    if orders == [] {
      assert MatchedPairs(orders, statuses) == [];
    } else {
      var p := Pair(o, s);
      var head := UnwindOne(orders[0], StatusDetails(orders[0], statuses));
      var rest := MatchedPairs(orders[1..], statuses);
      MatchedPairsHead(orders, statuses);
      ConcatCount(head, rest, p);
      PairMultiplicity(orders[1..], statuses, o, s);
      HeadPairCount(orders[0], statuses, o, s);
      HeadCount(orders, o);
      if s.collect_id == o.id {
        Distribute(if orders[0] == o then 1 else 0, multiset(orders[1..])[o], multiset(statuses)[s]);
      }
    }
  }

  /** Multiplication distributes over addition; the non-linear step of
      `PairMultiplicity`, stated on its own. */
  lemma Distribute(a: int, b: int, c: int)
    ensures a * c + b * c == (a + b) * c
  {
  }

  /** Every reported row comes from a matching (order, status) pair. */
  lemma RowsComeFromPairs(orders: seq<Order>, statuses: seq<OrderStatus>, now: int, row: Row)
    requires row in ReportRows(orders, statuses, now)
    ensures exists p :: p in MatchedPairs(orders, statuses) && row == Project(p, now)
  {
  }

  lemma PageRowsAreReportRows(report: Report, rows: seq<Row>, q: Query, row: Row)
    requires ValidQuery(q) && IsReportOf(report, rows, q)
    requires row in report.data
    ensures row in rows
  {
    var spec := SortSpecOf(q);
    var sorted: seq<Row> :| multiset(sorted) == multiset(rows)
      && SortedBy(sorted, KeyOn(spec.field), spec.ascending)
      && report.data == Window(sorted, SkipOf(q), LimitOf(q));
    WindowMembers(sorted, SkipOf(q), LimitOf(q), row);
  }

  /** Every row of every page names an order that has a status record; so an
      order that no status record references never appears. */
  lemma ReportedOrdersHaveStatus(orders: seq<Order>, statuses: seq<OrderStatus>, q: Query, now: int, row: Row)
    requires ValidQuery(q)
    requires row in GetAllTransactions(orders, statuses, q, now).data
    ensures exists o, s :: o in orders && s in statuses && s.collect_id == o.id && row.collect_id == o.id
  {
    PageRowsAreReportRows(GetAllTransactions(orders, statuses, q, now), ReportRows(orders, statuses, now), q, row);
    RowsComeFromPairs(orders, statuses, now, row);
    var p :| p in MatchedPairs(orders, statuses) && row == Project(p, now);
    MatchedPairMembership(orders, statuses, p);
  }

  lemma UnmatchedOrderNeverReported(orders: seq<Order>, statuses: seq<OrderStatus>, q: Query, now: int, id: string)
    requires ValidQuery(q)
    requires forall s :: s in statuses ==> s.collect_id != id
    ensures forall row :: row in GetAllTransactions(orders, statuses, q, now).data ==> row.collect_id != id
  {
    forall row | row in GetAllTransactions(orders, statuses, q, now).data
      ensures row.collect_id != id
    {
      ReportedOrdersHaveStatus(orders, statuses, q, now, row);
    }
  }

  /** A school's report holds only that school's rows. */
  lemma SchoolReportIsScoped(schoolId: string, orders: seq<Order>, statuses: seq<OrderStatus>, q: Query, now: int)
    requires ValidQuery(q)
    ensures forall row :: row in GetTransactionsBySchool(schoolId, orders, statuses, q, now).data
              ==> row.school_id == schoolId
  {
    var scoped := OrdersOfSchool(orders, schoolId);
    forall row | row in GetTransactionsBySchool(schoolId, orders, statuses, q, now).data
      ensures row.school_id == schoolId
    {
      PageRowsAreReportRows(GetTransactionsBySchool(schoolId, orders, statuses, q, now),
        ReportRows(scoped, statuses, now), q, row);
      RowsComeFromPairs(scoped, statuses, now, row);
      var p :| p in MatchedPairs(scoped, statuses) && row == Project(p, now);
      MatchedPairMembership(scoped, statuses, p);
    }
  }

  /** The total depends on the stores only, not on page, limit or sort. */
  lemma TotalIgnoresPaging(orders: seq<Order>, statuses: seq<OrderStatus>, q1: Query, q2: Query, now: int)
    requires ValidQuery(q1) && ValidQuery(q2)
    ensures GetAllTransactions(orders, statuses, q1, now).total
         == GetAllTransactions(orders, statuses, q2, now).total
  {
  }

  /** With no ties on the sort field, order "asc" and order "desc" list the
      same rows in exactly reversed order. */
  lemma AscendingDescendingReverse(rows: seq<Row>, f: RowField)
    requires NoTies(rows, KeyOn(f))
    ensures SortRows(rows, SortSpec(f, false)) == Reverse(SortRows(rows, SortSpec(f, true)))
  {
    DescendingIsReversedAscending(rows, KeyOn(f));
  }
}
