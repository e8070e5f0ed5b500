/**
 * `Array.prototype.sort` with a comparator. The language requires the sort to be
 * stable, and a stable sort under a consistent comparator has exactly one result;
 * it is written here as a stable insertion sort. `before(a, b)` stands for
 * "the comparator returns a negative number for (a, b)".
 */
module Sorting {

  /** No element is strictly before an element to its left. */
  predicate SortedBy<T>(s: seq<T>, before: (T, T) -> bool) {
    forall i, j :: 0 <= i < j < |s| ==> !before(s[j], s[i])
  }

  /** What makes a comparator consistent: asymmetric, and "not before" is transitive. */
  ghost predicate StrictWeakOrder<T(!new)>(before: (T, T) -> bool) {
    && (forall a, b :: before(a, b) ==> !before(b, a))
    && (forall a, b, c :: !before(a, b) && !before(b, c) ==> !before(a, c))
  }

  /** A comparator under which only equal values tie. */
  ghost predicate StrictTotalOrder<T(!new)>(before: (T, T) -> bool) {
    && StrictWeakOrder(before)
    && (forall a, b :: !before(a, b) && !before(b, a) ==> a == b)
  }

  /** Places `x` after every element of `s` that is strictly before it. */
  function Insert<T>(x: T, s: seq<T>, before: (T, T) -> bool): (r: seq<T>)
    ensures multiset(r) == multiset(s) + multiset{x}
    ensures |r| == |s| + 1
  {
    if s == [] || !before(s[0], x) then [x] + s
    else
      assert s == [s[0]] + s[1..];
      [s[0]] + Insert(x, s[1..], before)
  }

  /** The sorted copy; a permutation of its input. */
  function SortBy<T>(s: seq<T>, before: (T, T) -> bool): (r: seq<T>)
    ensures multiset(r) == multiset(s)
    ensures |r| == |s|
  {
    if s == [] then []
    else
      assert s == [s[0]] + s[1..];
      Insert(s[0], SortBy(s[1..], before), before)
  }

  lemma {:induction false} InsertSorted<T(!new)>(x: T, s: seq<T>, before: (T, T) -> bool)
    requires StrictWeakOrder(before)
    requires SortedBy(s, before)
    ensures SortedBy(Insert(x, s, before), before)
  {
    var r := Insert(x, s, before);
    if s == [] || !before(s[0], x) {
      forall j | 1 <= j < |r| ensures !before(r[j], x) {
        if j > 1 {
          assert !before(s[j - 1], s[0]);
        }
      }
    } else {
      InsertSorted(x, s[1..], before);
      var t := Insert(x, s[1..], before);
      assert r == [s[0]] + t;
      forall j | 0 <= j < |t| ensures !before(t[j], s[0]) {
        assert t[j] in multiset(t);
        assert t[j] == x || t[j] in multiset(s[1..]);
        if t[j] != x {
          var k :| 0 <= k < |s[1..]| && s[1..][k] == t[j];
          assert s[k + 1] == t[j];
        }
      }
    }
  }

  /** With a consistent comparator the result is sorted. */
  lemma {:induction false} SortBySorted<T(!new)>(s: seq<T>, before: (T, T) -> bool)
    requires StrictWeakOrder(before)
    ensures SortedBy(SortBy(s, before), before)
  {
    if s != [] {
      SortBySorted(s[1..], before);
      InsertSorted(s[0], SortBy(s[1..], before), before);
    }
  }

  /** The first element of a sorted list is not after any of its elements. */
  lemma SortedHeadLeast<T(!new)>(a: seq<T>, before: (T, T) -> bool, x: T)
    requires StrictWeakOrder(before)
    requires SortedBy(a, before) && x in a
    ensures !before(x, a[0])
  {
    var k :| 0 <= k < |a| && a[k] == x;
    if k > 0 {
      assert !before(a[k], a[0]);
    }
  }

  /** The tail of a sorted list is sorted. */
  lemma SortedTail<T>(a: seq<T>, before: (T, T) -> bool)
    requires SortedBy(a, before) && a != []
    ensures SortedBy(a[1..], before)
  {
    forall i, j | 0 <= i < j < |a| - 1 ensures !before(a[1..][j], a[1..][i]) {
      assert a[1..][j] == a[j + 1] && a[1..][i] == a[i + 1];
    }
  }

  lemma MultisetTail<T>(a: seq<T>)
    requires a != []
    ensures multiset(a[1..]) == multiset(a) - multiset{a[0]}
  {
    assert a == [a[0]] + a[1..];
  }

  /** Under a total order, a sorted arrangement of a multiset is unique. */
  lemma {:induction false} SortedUnique<T(!new)>(a: seq<T>, b: seq<T>, before: (T, T) -> bool)
    requires StrictTotalOrder(before)
    requires SortedBy(a, before) && SortedBy(b, before)
    requires multiset(a) == multiset(b)
    ensures a == b
  {
    if a != [] {
      assert |b| == |a| by {
        assert |multiset(a)| == |a| && |multiset(b)| == |b|;
      }
      assert a[0] in multiset(b) && b[0] in multiset(a);
      SortedHeadLeast(b, before, a[0]);
      SortedHeadLeast(a, before, b[0]);
      assert a[0] == b[0];
      SortedTail(a, before);
      SortedTail(b, before);
      MultisetTail(a);
      MultisetTail(b);
      SortedUnique(a[1..], b[1..], before);
    }
  }

  /** Under a total order, two lists sort to the same list exactly when they hold the same elements. */
  lemma SortEqualIff<T(!new)>(a: seq<T>, b: seq<T>, before: (T, T) -> bool)
    requires StrictTotalOrder(before)
    ensures SortBy(a, before) == SortBy(b, before) <==> multiset(a) == multiset(b)
  {
    if multiset(a) == multiset(b) {
      SortBySorted(a, before);
      SortBySorted(b, before);
      SortedUnique(SortBy(a, before), SortBy(b, before), before);
    }
  }

  /** Neither of `a` and `b` is before the other. */
  predicate Tie<T>(a: T, b: T, before: (T, T) -> bool) {
    !before(a, b) && !before(b, a)
  }

  /** The elements of `s` that tie with `e`, in their order in `s`. */
  function TiedWith<T>(s: seq<T>, e: T, before: (T, T) -> bool): seq<T> {
    if s == [] then [] else (if Tie(s[0], e, before) then [s[0]] else []) + TiedWith(s[1..], e, before)
  }

  lemma TiedWithCons<T>(x: T, s: seq<T>, e: T, before: (T, T) -> bool)
    ensures TiedWith([x] + s, e, before) == (if Tie(x, e, before) then [x] else []) + TiedWith(s, e, before)
  {
    assert ([x] + s)[1..] == s;
  }

  lemma NotBeforeTrans<T(!new)>(a: T, b: T, c: T, before: (T, T) -> bool)
    requires StrictWeakOrder(before)
    ensures !before(a, b) && !before(b, c) ==> !before(a, c)
  {
  }

  /** Inserting `x` puts it in front of every element that ties with it. */
  lemma {:induction false} InsertTied<T(!new)>(x: T, s: seq<T>, e: T, before: (T, T) -> bool)
    requires StrictWeakOrder(before)
    ensures TiedWith(Insert(x, s, before), e, before) ==
            if Tie(x, e, before) then [x] + TiedWith(s, e, before) else TiedWith(s, e, before)
  {
    if s == [] || !before(s[0], x) {
      TiedWithCons(x, s, e, before);
    } else {
      var ins := Insert(x, s[1..], before);
      assert Insert(x, s, before) == [s[0]] + ins;
      InsertTied(x, s[1..], e, before);
      TiedWithCons(s[0], ins, e, before);
      assert TiedWith(s, e, before) == (if Tie(s[0], e, before) then [s[0]] else []) + TiedWith(s[1..], e, before);
      if Tie(x, e, before) {
        NotBeforeTrans(s[0], e, x, before);
        assert !Tie(s[0], e, before);
      }
    }
  }

  /**
   * Stability: the sort keeps the input order of elements that tie. For every `e`, the elements
   * tying with `e` come out in the order they went in.
   */
  lemma {:induction false} SortStable<T(!new)>(s: seq<T>, e: T, before: (T, T) -> bool)
    requires StrictWeakOrder(before)
    ensures TiedWith(SortBy(s, before), e, before) == TiedWith(s, e, before)
  {
    if s != [] {
      SortStable(s[1..], e, before);
      InsertTied(s[0], SortBy(s[1..], before), e, before);
      TiedWithCons(s[0], s[1..], e, before);
      assert [s[0]] + s[1..] == s;
    }
  }

  /** An input that is already sorted comes back unchanged. */
  lemma {:induction false} SortBySortedInput<T(!new)>(s: seq<T>, before: (T, T) -> bool)
    requires StrictWeakOrder(before)
    requires SortedBy(s, before)
    ensures SortBy(s, before) == s
  {
    if s != [] {
      SortBySortedInput(s[1..], before);
      assert SortBy(s[1..], before) == s[1..];
      if s[1..] != [] {
        assert !before(s[1], s[0]);
      }
    }
  }

  /** `s.slice(0, n)` with `n >= 0`. */
  function Take<T>(s: seq<T>, n: nat): (r: seq<T>)
    ensures |r| == if n <= |s| then n else |s|
    ensures r == s[..|r|]
  {
    if n <= |s| then s[..n] else s
  }

  /** The first `n` of a sorted copy: elements of the input, in order. */
  lemma TakeSorted<T(!new)>(s: seq<T>, before: (T, T) -> bool, n: nat)
    requires StrictWeakOrder(before)
    ensures var r := Take(SortBy(s, before), n);
      && (forall x :: x in r ==> x in s)
      && SortedBy(r, before)
  {
    var sorted := SortBy(s, before);
    var r := Take(sorted, n);
    SortBySorted(s, before);
    forall x | x in r ensures x in s {
      assert x in multiset(sorted);
    }
  }

  /** An element left out of the first `n` of a sorted copy is not before any element kept. */
  lemma TakeSortedBest<T(!new)>(s: seq<T>, before: (T, T) -> bool, n: nat, x: T)
    requires StrictWeakOrder(before)
    requires x in s && x !in Take(SortBy(s, before), n)
    ensures forall t :: t in Take(SortBy(s, before), n) ==> !before(x, t)
  {
    var sorted := SortBy(s, before);
    var r := Take(sorted, n);
    SortBySorted(s, before);
    assert x in multiset(s);
    var k :| 0 <= k < |sorted| && sorted[k] == x;
    assert k >= |r|;
    forall t | t in r ensures !before(x, t) {
      var i :| 0 <= i < |r| && r[i] == t;
      assert sorted[i] == t;
    }
  }

  // ---------------------------------------------------------------------------
  // The default string order (code-point order, lexicographic).

  /** `a` sorts strictly before `b`. */
  predicate StrLt(a: string, b: string) {
    if a == [] then b != []
    else if b == [] then false
    else if a[0] != b[0] then a[0] < b[0]
    else StrLt(a[1..], b[1..])
  }

  lemma {:induction false} StrLtAsym(a: string, b: string)
    ensures StrLt(a, b) ==> !StrLt(b, a)
  {
    if a != [] && b != [] && a[0] == b[0] {
      StrLtAsym(a[1..], b[1..]);
    }
  }

  lemma {:induction false} StrLtTotal(a: string, b: string)
    ensures !StrLt(a, b) && !StrLt(b, a) ==> a == b
  {
    if a != [] && b != [] && a[0] == b[0] {
      StrLtTotal(a[1..], b[1..]);
      assert a == [a[0]] + a[1..];
      assert b == [b[0]] + b[1..];
    }
  }

  lemma {:induction false} StrLeTrans(a: string, b: string, c: string)
    ensures !StrLt(a, b) && !StrLt(b, c) ==> !StrLt(a, c)
  {
    if a != [] && b != [] && c != [] && a[0] == b[0] && b[0] == c[0] {
      StrLeTrans(a[1..], b[1..], c[1..]);
    }
  }

  lemma StrLtIsTotalOrder()
    ensures StrictTotalOrder(StrLt)
  {
    forall a, b ensures StrLt(a, b) ==> !StrLt(b, a) {
      StrLtAsym(a, b);
    }
    forall a, b, c ensures !StrLt(a, b) && !StrLt(b, c) ==> !StrLt(a, c) {
      StrLeTrans(a, b, c);
    }
    forall a, b ensures !StrLt(a, b) && !StrLt(b, a) ==> a == b {
      StrLtTotal(a, b);
    }
  }

  /** `[...ids].sort()`: the code-point-ordered copy. */
  function SortStrings(s: seq<string>): (r: seq<string>)
    ensures multiset(r) == multiset(s)
  {
    SortBy(s, StrLt)
  }

  /** Two id lists sort to the same list exactly when they hold the same ids, counting repeats. */
  lemma SortStringsEqualIff(a: seq<string>, b: seq<string>)
    ensures SortStrings(a) == SortStrings(b) <==> multiset(a) == multiset(b)
  {
    StrLtIsTotalOrder();
    SortEqualIff(a, b, StrLt);
  }

  lemma SortStringsSorted(s: seq<string>)
    ensures SortedBy(SortStrings(s), StrLt)
  {
    StrLtIsTotalOrder();
    SortBySorted(s, StrLt);
  }
}
