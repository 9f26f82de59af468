/**
 * `Array.prototype.sort`, which the code calls with and without a comparator.
 * The language only fixes what the result is (sorted, stable, a permutation);
 * an insertion sort, proved stable, is used as the reference definition, and the
 * uniqueness lemma shows that any correct sort gives the same list whenever
 * no two distinct elements compare equal.
 */
module Sorting {
  import opened Lists

  /** A comparator `le(a, b)` ("a may come before b") that totally preorders `T`. */
  ghost predicate IsTotalPreorder<T(!new)>(le: (T, T) -> bool) {
    && (forall a, b :: le(a, b) || le(b, a))
    && (forall a, b, c :: le(a, b) && le(b, c) ==> le(a, c))
  }

  /** Every element may come before every later one. */
  predicate SortedBy<T>(s: seq<T>, le: (T, T) -> bool) {
    forall i, j :: 0 <= i < j < |s| ==> le(s[i], s[j])
  }

  /** Puts `x` before the first element it may precede. */
  function Insert<T>(x: T, s: seq<T>, le: (T, T) -> bool): seq<T> {
    if s == [] then [x]
    else if le(x, s[0]) then [x] + s
    else [s[0]] + Insert(x, s[1..], le)
  }

  /** The reference sort: insert the head into the sorted tail. */
  function InsertionSort<T>(s: seq<T>, le: (T, T) -> bool): seq<T> {
    if s == [] then [] else Insert(s[0], InsertionSort(s[1..], le), le)
  }

  lemma {:induction false} InsertPermutes<T>(x: T, s: seq<T>, le: (T, T) -> bool)
    ensures multiset(Insert(x, s, le)) == multiset(s) + multiset{x}
    decreases |s|
  {
    if s != [] && !le(x, s[0]) {
      InsertPermutes(x, s[1..], le);
      assert s == [s[0]] + s[1..];
    }
  }

  lemma {:induction false} InsertSorted<T(!new)>(x: T, s: seq<T>, le: (T, T) -> bool)
    requires IsTotalPreorder(le)
    requires SortedBy(s, le)
    ensures SortedBy(Insert(x, s, le), le)
    decreases |s|
  {
    if s != [] && !le(x, s[0]) {
      var tail := Insert(x, s[1..], le);
      InsertSorted(x, s[1..], le);
      InsertPermutes(x, s[1..], le);
      assert le(s[0], x);
      forall j | 0 <= j < |tail| ensures le(s[0], tail[j]) {
        assert tail[j] in multiset(s[1..]) + multiset{x};
      }
    }
  }

  /** The reference sort returns a permutation of its input. */
  lemma {:induction false} SortPermutes<T>(s: seq<T>, le: (T, T) -> bool)
    ensures multiset(InsertionSort(s, le)) == multiset(s)
    decreases |s|
  {
    if s != [] {
      SortPermutes(s[1..], le);
      InsertPermutes(s[0], InsertionSort(s[1..], le), le);
      assert s == [s[0]] + s[1..];
    }
  }

  /** The reference sort returns a sorted list when the comparator is a total preorder. */
  lemma {:induction false} SortSorts<T(!new)>(s: seq<T>, le: (T, T) -> bool)
    requires IsTotalPreorder(le)
    ensures SortedBy(InsertionSort(s, le), le)
    decreases |s|
  {
    if s != [] {
      SortSorts(s[1..], le);
      InsertSorted(s[0], InsertionSort(s[1..], le), le);
    }
  }

  /**
   * Two sorted permutations of the same values are the same list when no two
   * distinct values among them compare equal both ways.
   */
  lemma {:induction false} SortedUnique<T>(a: seq<T>, b: seq<T>, le: (T, T) -> bool)
    requires SortedBy(a, le) && SortedBy(b, le)
    requires multiset(a) == multiset(b)
    requires forall x, y :: x in a && y in a && le(x, y) && le(y, x) ==> x == y
    ensures a == b
    decreases |a|
  {
    assert |b| == |a| by { assert |multiset(a)| == |multiset(b)|; }
    if a != [] {
      assert b[0] in a by { assert b[0] in multiset(a); }
      assert a[0] in b by { assert a[0] in multiset(b); }
      FirstPrecedes(b, a[0], le);
      FirstPrecedes(a, b[0], le);
      assert a[0] == b[0];
      TailsPermute(a, b);
      assert forall x :: x in a[1..] ==> x in a;
      SortedUnique(a[1..], b[1..], le);
      assert a == [a[0]] + a[1..] && b == [b[0]] + b[1..];
    }
  }

  /** Permutations that agree on their first element are permutations after it. */
  lemma TailsPermute<T>(a: seq<T>, b: seq<T>)
    requires a != [] && b != [] && a[0] == b[0]
    requires multiset(a) == multiset(b)
    ensures multiset(a[1..]) == multiset(b[1..])
  {
    assert a == [a[0]] + a[1..] && b == [b[0]] + b[1..];
    assert multiset(a) == multiset{a[0]} + multiset(a[1..]);
    assert multiset(b) == multiset{a[0]} + multiset(b[1..]);
    forall z ensures multiset(a[1..])[z] == multiset(b[1..])[z] {
      assert multiset(a)[z] == multiset{a[0]}[z] + multiset(a[1..])[z];
      assert multiset(b)[z] == multiset{a[0]}[z] + multiset(b[1..])[z];
    }
  }

  /** `x` and `y` compare equal both ways: neither has to come first. */
  predicate Tied<T>(le: (T, T) -> bool, x: T, y: T) {
    le(x, y) && le(y, x)
  }

  /** The elements of `s` tied with `p`, in the order `s` has them. */
  function TiedWith<T>(s: seq<T>, le: (T, T) -> bool, p: T): seq<T> {
    if s == [] then [] else (if Tied(le, s[0], p) then [s[0]] else []) + TiedWith(s[1..], le, p)
  }

  /** Inserting `x` puts it before every element it is tied with. */
  lemma {:induction false} InsertKeepsTies<T(!new)>(x: T, s: seq<T>, le: (T, T) -> bool, p: T)
    requires IsTotalPreorder(le)
    ensures TiedWith(Insert(x, s, le), le, p) == (if Tied(le, x, p) then [x] else []) + TiedWith(s, le, p)
    decreases |s|
  {
    if s != [] && !le(x, s[0]) {
      var r := Insert(x, s, le);
      var rest := Insert(x, s[1..], le);
      assert r == [s[0]] + rest;
      assert r[0] == s[0] && r[1..] == rest;
      InsertKeepsTies(x, s[1..], le, p);
      NotBothTied(le, x, s[0], p);
      var head := if Tied(le, s[0], p) then [s[0]] else [];
      assert TiedWith(r, le, p) == head + TiedWith(rest, le, p);
      assert TiedWith(s, le, p) == head + TiedWith(s[1..], le, p);
    } else if s != [] {
      var r := Insert(x, s, le);
      assert r[0] == x && r[1..] == s;
    }
  }

  /** Two elements tied with the same `p` may each come before the other, so an element that may not precede another is not tied with the same `p`. */
  lemma NotBothTied<T(!new)>(le: (T, T) -> bool, x: T, y: T, p: T)
    requires IsTotalPreorder(le)
    requires !le(x, y)
    ensures !(Tied(le, x, p) && Tied(le, y, p))
  {
  }

  /**
   * The reference sort is stable: the elements tied with any `p` come out in
   * the order they went in.
   */
  lemma {:induction false} SortStable<T(!new)>(s: seq<T>, le: (T, T) -> bool, p: T)
    requires IsTotalPreorder(le)
    ensures TiedWith(InsertionSort(s, le), le, p) == TiedWith(s, le, p)
    decreases |s|
  {
    if s != [] {
      SortStable(s[1..], le, p);
      InsertKeepsTies(s[0], InsertionSort(s[1..], le), le, p);
    }
  }

  /** A list sorted one way, read backwards, is sorted the opposite way. */
  lemma ReverseSortedBy<T>(s: seq<T>, le: (T, T) -> bool, ge: (T, T) -> bool)
    requires SortedBy(s, le)
    requires forall x, y :: le(x, y) ==> ge(y, x)
    ensures SortedBy(Reverse(s), ge)
  {
    var r := Reverse(s);
    forall i, j | 0 <= i < j < |r| ensures ge(r[i], r[j]) {
      assert le(s[|s| - 1 - j], s[|s| - 1 - i]);
    }
  }

  lemma FirstPrecedes<T>(s: seq<T>, x: T, le: (T, T) -> bool)
    requires SortedBy(s, le) && x in s
    ensures le(s[0], x) || s[0] == x
  {
  }
}
