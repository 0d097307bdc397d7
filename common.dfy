/** Small value wrappers and sequence operations shared by the backend and
    the dashboard models. */
module Common {

  /** A value that may be absent: a missing document field, `undefined`, or
      a string that `Number` reads as NaN. */
  datatype Option<T> = None | Some(value: T) {
    /** `$ifNull` / `??`: the value, or `fallback` when it is missing. */
    function GetOr(fallback: T): T {
      match this
      case Some(v) => v
      case None => fallback
    }
  }

  function Min(a: int, b: int): int {
    if a <= b then a else b
  }

  function Max(a: int, b: int): int {
    if a >= b then a else b
  }

  /** The elements of `s` that satisfy `keep`, in their original order
      (`FilterConcat`): each kept element occurs as often as in `s`, every
      other one not at all. */
  function Filter<T(!new)>(s: seq<T>, keep: T -> bool): (r: seq<T>)
    ensures forall x :: multiset(r)[x] == if keep(x) then multiset(s)[x] else 0
    ensures forall x :: x in r <==> x in s && keep(x)
  {
    if s == [] then []
    else
      assert s == [s[0]] + s[1..];
      var rest := Filter(s[1..], keep);
      var r := if keep(s[0]) then [s[0]] + rest else rest;
      assert forall x :: multiset(r)[x] == (if keep(x) then multiset(s)[x] else 0) by {
        forall x ensures multiset(r)[x] == (if keep(x) then multiset(s)[x] else 0) {
          assert multiset(s)[x] == multiset([s[0]])[x] + multiset(s[1..])[x];
          if keep(s[0]) {
            assert multiset(r)[x] == multiset([s[0]])[x] + multiset(rest)[x];
          }
        }
      }
      assert forall x :: x in r <==> multiset(r)[x] > 0;
      r
  }

  /** Filtering a non-empty sequence: its head, if kept, then the rest filtered. */
  lemma FilterHead<T(!new)>(a: seq<T>, keep: T -> bool)
    requires a != []
    ensures Filter(a, keep) == (if keep(a[0]) then [a[0]] else []) + Filter(a[1..], keep)
  {
  }

  /** Filtering keeps the order: filtering two pieces one after the other
      is filtering their concatenation. */
  lemma {:induction false} FilterConcat<T(!new)>(a: seq<T>, b: seq<T>, keep: T -> bool)
    ensures Filter(a + b, keep) == Filter(a, keep) + Filter(b, keep)
  {
    if a == [] {
      assert a + b == b;
    } else {
      ConcatTail(a, b);
      FilterConcat(a[1..], b, keep);
      FilterHead(a + b, keep);
      FilterHead(a, keep);
      ConcatAssociates(if keep(a[0]) then [a[0]] else [], Filter(a[1..], keep), Filter(b, keep));
    }
  }

  /** The head and tail of a concatenation whose first part is non-empty. */
  lemma ConcatTail<T>(a: seq<T>, b: seq<T>)
    requires a != []
    ensures (a + b)[0] == a[0] && (a + b)[1..] == a[1..] + b
  {
  }

  /** Concatenation associates; stated on its own so that the proof above
      gets it without the filter's contracts in scope. */
  lemma ConcatAssociates<T>(a: seq<T>, b: seq<T>, c: seq<T>)
    ensures a + (b + c) == (a + b) + c
  {
  }

  /** `$skip` then `$limit`: at most `limit` elements of `s`, starting at
      position `skip`. */
  function Window<T>(s: seq<T>, skip: int, limit: int): (r: seq<T>)
    requires skip >= 0 && limit >= 0
    ensures |r| == Min(limit, Max(0, |s| - skip))
    ensures forall i :: 0 <= i < |r| ==> r[i] == s[skip + i]
  {
    if skip >= |s| then [] else s[skip..Min(|s|, skip + limit)]
  }

  /** A window holds only elements of the sequence it is taken from. */
  lemma WindowMembers<T>(s: seq<T>, skip: int, limit: int, x: T)
    requires skip >= 0 && limit >= 0 && x in Window(s, skip, limit)
    ensures x in multiset(s)
  {
    var i :| 0 <= i < |Window(s, skip, limit)| && Window(s, skip, limit)[i] == x;
    assert s[skip + i] == x;
  }

  /** Multiplying by a non-negative number keeps the order. Stated on its
      own so that callers get this non-linear fact without the solver having
      to search for it in a large context. */
  lemma MultiplyMonotone(a: int, b: int, c: int)
    requires 0 <= a <= b && c >= 0
    ensures a * c <= b * c
  {
  }
}
