/** Stable sorting, as the standard libraries and ORDER BY promise it. */
module Sorting {

  ghost predicate TotalPreorder<T(!new)>(le: (T, T) -> bool) {
    && (forall a, b :: le(a, b) || le(b, a))
    && (forall a, b, c :: le(a, b) && le(b, c) ==> le(a, c))
  }

  ghost predicate Sorted<T>(s: seq<T>, le: (T, T) -> bool) {
    forall i, j | 0 <= i < j < |s| :: le(s[i], s[j])
  }

  ghost predicate Distinct<T>(s: seq<T>) {
    forall i, j | 0 <= i < j < |s| :: s[i] != s[j]
  }

  /** Elements differ only if ordered one way: no ties between different elements. */
  ghost predicate NoTies<T>(s: seq<T>, le: (T, T) -> bool) {
    forall x, y | x in s && y in s && le(x, y) && le(y, x) :: x == y
  }

  function Insert<T>(x: T, s: seq<T>, le: (T, T) -> bool): (r: seq<T>)
    ensures |r| == |s| + 1
    ensures multiset(r) == multiset{x} + multiset(s)
  {
    if s == [] || le(x, s[0]) then [x] + s
    else
      assert s == [s[0]] + s[1..];
      [s[0]] + Insert(x, s[1..], le)
  }

  /** Stable: an element stays before later ones it ties with. */
  function Sort<T>(xs: seq<T>, le: (T, T) -> bool): (r: seq<T>)
    ensures |r| == |xs|
    ensures multiset(r) == multiset(xs)
  {
    if xs == [] then []
    else
      assert xs == [xs[0]] + xs[1..];
      Insert(xs[0], Sort(xs[1..], le), le)
  }

  lemma SameElements<T>(a: seq<T>, b: seq<T>)
    requires multiset(a) == multiset(b)
    ensures forall x :: x in a <==> x in b
  {
    forall x ensures x in a <==> x in b {
      assert x in a <==> x in multiset(a);
      assert x in b <==> x in multiset(b);
    }
  }

  lemma {:induction false} InsertSorted<T(!new)>(x: T, s: seq<T>, le: (T, T) -> bool)
    requires TotalPreorder(le) && Sorted(s, le)
    ensures Sorted(Insert(x, s, le), le)
  {
    if s != [] && !le(x, s[0]) {
      var tail := s[1..];
      InsertSorted(x, tail, le);
      var r := Insert(x, tail, le);
      SameElements(r, [x] + tail);
      forall y | y in r ensures le(s[0], y) {
        assert y in [x] + tail;
      }
    }
  }

  lemma {:induction false} SortSorts<T(!new)>(xs: seq<T>, le: (T, T) -> bool)
    requires TotalPreorder(le)
    ensures Sorted(Sort(xs, le), le)
    ensures forall x :: x in Sort(xs, le) <==> x in xs
  {
    if xs != [] {
      SortSorts(xs[1..], le);
      InsertSorted(xs[0], Sort(xs[1..], le), le);
    }
    SameElements(Sort(xs, le), xs);
  }

  /** Sorting what is already sorted changes nothing. */
  lemma {:induction false} SortIsIdempotent<T(!new)>(s: seq<T>, le: (T, T) -> bool)
    requires Sorted(s, le)
    ensures Sort(s, le) == s
  {
    if |s| > 1 {
      SortIsIdempotent(s[1..], le);
      assert le(s[0], s[1]) && s == [s[0]] + s[1..];
    }
  }

  /** The elements that tie with `x`, in order. */
  function Tied<T>(s: seq<T>, le: (T, T) -> bool, x: T): seq<T> {
    if s == [] then [] else (if le(s[0], x) && le(x, s[0]) then [s[0]] else []) + Tied(s[1..], le, x)
  }

  lemma TiedCons<T>(y: T, s: seq<T>, le: (T, T) -> bool, x: T)
    ensures Tied([y] + s, le, x) == (if le(y, x) && le(x, y) then [y] else []) + Tied(s, le, x)
  {
    assert ([y] + s)[1..] == s;
  }

  lemma TiedSwap<T>(y: T, z: T, rest: seq<T>, r: seq<T>, le: (T, T) -> bool, x: T)
    requires Tied(r, le, x) == Tied([y] + rest, le, x) && !(le(y, x) && le(x, z))
    ensures Tied([z] + r, le, x) == Tied([y] + ([z] + rest), le, x)
  {
    hide Tied;
    TiedCons(z, r, le, x);
    TiedCons(y, rest, le, x);
    TiedCons(y, [z] + rest, le, x);
    TiedCons(z, rest, le, x);
  }

  lemma {:induction false} InsertKeepsTies<T(!new)>(y: T, s: seq<T>, le: (T, T) -> bool, x: T)
    requires TotalPreorder(le)
    ensures Tied(Insert(y, s, le), le, x) == Tied([y] + s, le, x)
  {
    hide Tied, TotalPreorder;
    if s != [] && !le(y, s[0]) {
      InsertKeepsTies(y, s[1..], le, x);
      NotBothTied(y, s[0], le, x);
      TiedSwap(y, s[0], s[1..], Insert(y, s[1..], le), le, x);
      assert s == [s[0]] + s[1..];
    }
  }

  lemma NotBothTied<T(!new)>(y: T, z: T, le: (T, T) -> bool, x: T)
    requires TotalPreorder(le) && !le(y, z)
    ensures !(le(y, x) && le(x, z))
  {
  }

  /** Elements that tie stay in the order they came in. */
  lemma {:induction false} SortIsStable<T(!new)>(xs: seq<T>, le: (T, T) -> bool, x: T)
    requires TotalPreorder(le)
    ensures Tied(Sort(xs, le), le, x) == Tied(xs, le, x)
  {
    if xs != [] {
      SortIsStable(xs[1..], le, x);
      InsertKeepsTies(xs[0], Sort(xs[1..], le), le, x);
      TiedCons(xs[0], Sort(xs[1..], le), le, x);
      TiedCons(xs[0], xs[1..], le, x);
      assert xs == [xs[0]] + xs[1..];
    }
  }

  /** Distinctness survives a permutation. */
  lemma DistinctPermutes<T>(a: seq<T>, b: seq<T>)
    requires multiset(a) == multiset(b) && Distinct(a)
    ensures Distinct(b)
  {
    forall i, j | 0 <= i < j < |b| ensures b[i] != b[j] {
      DistinctCountsOne(a, b[i]);
      assert b == b[..i] + [b[i]] + b[i + 1..j] + [b[j]] + b[j + 1..];
      assert b[i] == b[j] ==> multiset(b)[b[i]] >= 2;
    }
  }

  lemma {:induction false} DistinctCountsOne<T>(a: seq<T>, x: T)
    requires Distinct(a)
    ensures multiset(a)[x] <= 1
  {
    if a != [] {
      assert a == [a[0]] + a[1..];
      DistinctCountsOne(a[1..], x);
      if a[0] == x {
        assert x !in a[1..];
        assert multiset(a[1..])[x] == 0;
      }
    }
  }

  /** A set has one ascending enumeration. */
  lemma {:induction false} AscendingIsUnique<T>(a: seq<T>, b: seq<T>, le: (T, T) -> bool)
    requires Sorted(a, le) && Sorted(b, le) && Distinct(a) && Distinct(b)
    requires NoTies(a, le)
    requires forall x :: x in a <==> x in b
    ensures a == b
  {
    assert (a == [] || a[0] in b) && (b == [] || b[0] in a);
    if a != [] {
      var i :| 0 <= i < |b| && b[i] == a[0];
      var j :| 0 <= j < |a| && a[j] == b[0];
      assert le(b[0], a[0]) || i == 0;
      assert le(a[0], b[0]) || j == 0;
      forall x ensures x in a[1..] <==> x in b[1..] {
        if x in a[1..] { assert x in b && x != a[0]; }
        if x in b[1..] { assert x in a && x != b[0]; }
      }
      AscendingIsUnique(a[1..], b[1..], le);
    }
  }
}
