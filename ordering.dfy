/** Sort keys and sorting by key, shared by the store's `$sort` stage and the
    dashboard's `Array.prototype.sort`. */
module Ordering {
  import opened Text

  /** A sort key as the store compares values of one field: a missing field
      sorts before every number and numbers sort before strings; the
      dashboard only ever uses `Str` keys. */
  datatype Key = Missing | Num(n: int) | Str(s: string)

  predicate KeyLe(a: Key, b: Key) {
    match a
    case Missing => true
    case Num(x) => b.Str? || (b.Num? && x <= b.n)
    case Str(x) => b.Str? && StrLe(x, b.s)
  }

  lemma KeyLeReflexive(a: Key)
    ensures KeyLe(a, a)
  {
    if a.Str? {
      StrLeReflexive(a.s);
    }
  }

  lemma KeyLeTotal(a: Key, b: Key)
    ensures KeyLe(a, b) || KeyLe(b, a)
  {
    if a.Str? && b.Str? {
      StrLeTotal(a.s, b.s);
    }
  }

  lemma KeyLeTransitive(a: Key, b: Key, c: Key)
    requires KeyLe(a, b) && KeyLe(b, c)
    ensures KeyLe(a, c)
  {
    if a.Str? {
      StrLeTransitive(a.s, b.s, c.s);
    }
  }

  lemma KeyLeAntisymmetric(a: Key, b: Key)
    requires KeyLe(a, b) && KeyLe(b, a)
    ensures a == b
  {
    if a.Str? {
      StrLeAntisymmetric(a.s, b.s);
    }
  }

  /** Key `a` may stand before key `b` in a sort that is ascending when `asc`
      holds and descending otherwise. */
  predicate InOrder(a: Key, b: Key, asc: bool) {
    if asc then KeyLe(a, b) else KeyLe(b, a)
  }

  lemma InOrderTotal(a: Key, b: Key, asc: bool)
    ensures InOrder(a, b, asc) || InOrder(b, a, asc)
  {
    KeyLeTotal(a, b);
  }

  lemma InOrderTransitive(a: Key, b: Key, c: Key, asc: bool)
    requires InOrder(a, b, asc) && InOrder(b, c, asc)
    ensures InOrder(a, c, asc)
  {
    if asc {
      KeyLeTransitive(a, b, c);
    } else {
      KeyLeTransitive(c, b, a);
    }
  }

  /** Every element's key is in order with the key of every later element. */
  ghost predicate SortedBy<T>(s: seq<T>, key: T -> Key, asc: bool) {
    forall i, j :: 0 <= i < j < |s| ==> InOrder(key(s[i]), key(s[j]), asc)
  }

  /** Places `x` before the first element whose key it may precede, so that
      `x` stays ahead of the elements whose key equals its own. */
  function Insert<T(==)>(x: T, s: seq<T>, key: T -> Key, asc: bool): (r: seq<T>)
    requires SortedBy(s, key, asc)
    ensures SortedBy(r, key, asc)
    ensures multiset(r) == multiset(s) + multiset{x}
  {
    if s == [] then [x]
    else if InOrder(key(x), key(s[0]), asc) then
      PrependSorted(x, s, key, asc);
      [x] + s
    else
      InOrderTotal(key(x), key(s[0]), asc);
      var tail := Insert(x, s[1..], key, asc);
      SplitHead(s);
      forall y | y in tail ensures InOrder(key(s[0]), key(y), asc) {
        assert y in multiset(tail);
        if y != x {
          assert y in s[1..];
        }
      }
      PrependSorted(s[0], tail, key, asc);
      [s[0]] + tail
  }

  /** An element whose key may precede the first key of a sorted sequence,
      and so every key of it, may stand in front of it. */
  lemma PrependSorted<T>(x: T, s: seq<T>, key: T -> Key, asc: bool)
    requires SortedBy(s, key, asc)
    requires s == [] || InOrder(key(x), key(s[0]), asc) || forall y :: y in s ==> InOrder(key(x), key(y), asc)
    ensures SortedBy([x] + s, key, asc)
  {
    forall j | 0 <= j < |s| ensures InOrder(key(x), key(s[j]), asc) {
      if !(forall y :: y in s ==> InOrder(key(x), key(y), asc)) && j > 0 {
        InOrderTransitive(key(x), key(s[0]), key(s[j]), asc);
      }
    }
    assert forall i :: 0 < i < |[x] + s| ==> ([x] + s)[i] == s[i - 1];
  }

  /** A non-empty sequence is its head followed by its tail. */
  lemma SplitHead<T>(s: seq<T>)
    requires s != []
    ensures s == [s[0]] + s[1..]
    ensures multiset(s) == multiset{s[0]} + multiset(s[1..])
  {
    assert s == [s[0]] + s[1..];
  }

  /** A stable insertion sort: a permutation of `s` ordered by `key`. */
  function SortBy<T(==)>(s: seq<T>, key: T -> Key, asc: bool): (r: seq<T>)
    ensures SortedBy(r, key, asc)
    ensures multiset(r) == multiset(s)
  {
    if s == [] then []
    else
      assert s == [s[0]] + s[1..];
      Insert(s[0], SortBy(s[1..], key, asc), key, asc)
  }

  function Reverse<T>(s: seq<T>): (r: seq<T>)
    ensures |r| == |s|
    ensures forall i :: 0 <= i < |s| ==> r[i] == s[|s| - 1 - i]
  {
    if s == [] then [] else Reverse(s[1..]) + [s[0]]
  }

  lemma {:induction false} ReversePermutes<T>(s: seq<T>)
    ensures multiset(Reverse(s)) == multiset(s)
  {
    if s != [] {
      ReversePermutes(s[1..]);
      assert s == [s[0]] + s[1..];
    }
  }

  lemma ReverseFlipsDirection<T>(s: seq<T>, key: T -> Key, asc: bool)
    requires SortedBy(s, key, asc)
    ensures SortedBy(Reverse(s), key, !asc)
  {
  }

  /** No two different elements of `s` share a key: the sort has no ties. */
  ghost predicate NoTies<T>(s: seq<T>, key: T -> Key) {
    forall x, y :: x in s && y in s && key(x) == key(y) ==> x == y
  }

  lemma SameHeadSameTail<T>(a: seq<T>, b: seq<T>)
    requires a != [] && b != [] && a[0] == b[0]
    requires multiset(a) == multiset(b)
    ensures multiset(a[1..]) == multiset(b[1..])
  {
    assert a == [a[0]] + a[1..] && b == [b[0]] + b[1..];
    assert multiset(a) == multiset{a[0]} + multiset(a[1..]);
    assert multiset(b) == multiset{a[0]} + multiset(b[1..]);
    forall z ensures multiset(a[1..])[z] == multiset(b[1..])[z] {
      assert multiset(a)[z] == multiset(b)[z];
    }
  }

  /** Without ties there is only one sorted arrangement of a multiset. */
  lemma {:induction false} SortedPermutationUnique<T>(a: seq<T>, b: seq<T>, key: T -> Key, asc: bool)
    requires multiset(a) == multiset(b)
    requires SortedBy(a, key, asc) && SortedBy(b, key, asc)
    requires NoTies(a, key)
    ensures a == b
    decreases |a|
  {
    if a != [] {
      assert |b| == |multiset(b)| == |multiset(a)| == |a|;
      assert b[0] in multiset(a) && a[0] in multiset(b);
      var k :| 0 <= k < |a| && a[k] == b[0];
      var m :| 0 <= m < |b| && b[m] == a[0];
      KeyLeReflexive(key(a[0]));
      KeyLeReflexive(key(b[0]));
      assert InOrder(key(a[0]), key(a[k]), asc);
      assert InOrder(key(b[0]), key(b[m]), asc);
      if asc {
        KeyLeAntisymmetric(key(a[0]), key(b[0]));
      } else {
        KeyLeAntisymmetric(key(b[0]), key(a[0]));
      }
      assert a[0] == b[0];
      SameHeadSameTail(a, b);
      SortedPermutationUnique(a[1..], b[1..], key, asc);
    }
  }

  /** Sorting descending gives the ascending result reversed, when no two
      different elements tie on the key. */
  lemma DescendingIsReversedAscending<T>(s: seq<T>, key: T -> Key)
    requires NoTies(s, key)
    ensures SortBy(s, key, false) == Reverse(SortBy(s, key, true))
  {
    var down, up := SortBy(s, key, false), SortBy(s, key, true);
    ReversePermutes(up);
    ReverseFlipsDirection(up, key, true);
    forall x | x in down ensures x in s {
      assert x in multiset(down);
    }
    SortedPermutationUnique(down, Reverse(up), key, false);
  }
}
