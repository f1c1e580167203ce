/** The comparator sort of the host language, and uniqueness of sorted listings. */
module Sorting {

  ghost predicate TotalPreorder<T(!new)>(le: (T, T) -> bool) {
    && (forall a, b :: le(a, b) || le(b, a))
    && (forall a, b, c :: le(a, b) && le(b, c) ==> le(a, c))
  }

  ghost predicate StrictOrder<T(!new)>(lt: (T, T) -> bool) {
    && (forall a :: !lt(a, a))
    && (forall a, b, c :: lt(a, b) && lt(b, c) ==> lt(a, c))
  }

  /** Every earlier element is related to every later one. */
  ghost predicate Ordered<T>(s: seq<T>, rel: (T, T) -> bool) {
    forall i, j :: 0 <= i < j < |s| ==> rel(s[i], s[j])
  }

  ghost predicate Distinct<T>(s: seq<T>) {
    forall i, j :: 0 <= i < j < |s| ==> s[i] != s[j]
  }

  ghost predicate SameElements<T>(a: seq<T>, b: seq<T>) {
    && (forall x :: x in a ==> x in b)
    && (forall x :: x in b ==> x in a)
  }

  /** A list used as a set in insertion order. */
  function AddOnce<T(==, !new)>(xs: seq<T>, x: T): (r: seq<T>)
    ensures Distinct(xs) ==> Distinct(r)
    ensures forall y :: y in r <==> y in xs || y == x
  {
    if x in xs then xs else xs + [x]
  }

  function Insert<T(!new)>(x: T, s: seq<T>, le: (T, T) -> bool): (r: seq<T>)
    requires TotalPreorder(le) && Ordered(s, le)
    ensures Ordered(r, le)
    ensures multiset(r) == multiset(s) + multiset{x}
    ensures SameElements(r, [x] + s)
  {
    if s == [] then [x]
    else if le(x, s[0]) then [x] + s
    else
      var t := Insert(x, s[1..], le);
      assert s == [s[0]] + s[1..];
      assert forall y :: y in t ==> le(s[0], y) by {
        assert forall y :: y in t ==> y == x || y in s[1..];
      }
      [s[0]] + t
  }

  /** Insertion from the right, so elements that compare equal keep their order. */
  function Sort<T(!new)>(s: seq<T>, le: (T, T) -> bool): (r: seq<T>)
    requires TotalPreorder(le)
    ensures Ordered(r, le)
    ensures multiset(r) == multiset(s)
    ensures SameElements(r, s) && |r| == |s|
  {
    if s == [] then []
    else
      assert s == [s[0]] + s[1..];
      Insert(s[0], Sort(s[1..], le), le)
  }

  lemma AdjacentOrdered<T(!new)>(s: seq<T>, lt: (T, T) -> bool)
    requires forall a, b, c :: lt(a, b) && lt(b, c) ==> lt(a, c)
    requires forall i :: 0 < i < |s| ==> lt(s[i - 1], s[i])
    ensures Ordered(s, lt)
  {
    forall i, j | 0 <= i < j < |s|
      ensures lt(s[i], s[j])
    {
      ChainOrdered(s, lt, i, j);
    }
  }

  lemma {:induction false} ChainOrdered<T(!new)>(s: seq<T>, lt: (T, T) -> bool, i: nat, j: nat)
    requires forall a, b, c :: lt(a, b) && lt(b, c) ==> lt(a, c)
    requires forall i :: 0 < i < |s| ==> lt(s[i - 1], s[i])
    requires i < j < |s|
    ensures lt(s[i], s[j])
    decreases j
  {
    assert lt(s[j - 1], s[j]);
    if i < j - 1 { ChainOrdered(s, lt, i, j - 1); }
  }

  lemma SortKeepsDistinct<T(!new)>(s: seq<T>, le: (T, T) -> bool)
    requires TotalPreorder(le) && Distinct(s)
    ensures Distinct(Sort(s, le))
  {
    DistinctOnce(s);
    OnceDistinct(Sort(s, le));
  }

  lemma {:induction false} DistinctOnce<T>(s: seq<T>)
    requires Distinct(s)
    ensures forall x :: multiset(s)[x] <= 1
  {
    if s != [] {
      DistinctOnce(s[1..]);
      assert s == [s[0]] + s[1..];
      assert s[0] !in s[1..];
    }
  }

  lemma OnceDistinct<T>(s: seq<T>)
    requires forall x :: multiset(s)[x] <= 1
    ensures Distinct(s)
  {
    forall i, j | 0 <= i < j < |s|
      ensures s[i] != s[j]
    {
      assert s == s[..j] + s[j..];
      assert s[i] == s[..j][i] && s[i] in s[..j];
      assert s[j] == s[j..][0] && s[j] in s[j..];
      assert multiset(s) == multiset(s[..j]) + multiset(s[j..]);
      assert multiset(s)[s[i]] == multiset(s[..j])[s[i]] + multiset(s[j..])[s[i]];
    }
  }

  /** Keys that are pairwise different stay so in any other order. */
  lemma KeysReordered<T(!new), K(!new)>(xs: seq<T>, ys: seq<T>, key: T -> K)
    requires multiset(xs) == multiset(ys)
    requires forall i, j :: 0 <= i < j < |xs| ==> key(xs[i]) != key(xs[j])
    ensures forall i, j :: 0 <= i < j < |ys| ==> key(ys[i]) != key(ys[j])
  {
    assert Distinct(xs);
    DistinctOnce(xs);
    OnceDistinct(ys);
    forall i, j | 0 <= i < j < |ys|
      ensures key(ys[i]) != key(ys[j])
    {
      assert ys[i] in multiset(ys) && ys[j] in multiset(ys) && ys[i] != ys[j];
      assert ys[i] in xs && ys[j] in xs;
    }
  }

  lemma Reordered<T(!new)>(xs: seq<T>, ys: seq<T>)
    requires multiset(xs) == multiset(ys)
    ensures SameElements(xs, ys) && |xs| == |ys|
  {
    forall x
      ensures x in xs <==> x in ys
    {
      assert x in xs <==> x in multiset(xs);
      assert x in ys <==> x in multiset(ys);
    }
    assert |multiset(xs)| == |xs| && |multiset(ys)| == |ys|;
  }

  /** A set has at most one strictly increasing listing. */
  lemma {:induction false} OrderedListingUnique<T(!new)>(a: seq<T>, b: seq<T>, lt: (T, T) -> bool)
    requires StrictOrder(lt)
    requires Ordered(a, lt) && Ordered(b, lt) && SameElements(a, b)
    ensures a == b
  {
    if a == [] {
      assert forall i :: 0 <= i < |b| ==> b[i] in a;
    } else {
      assert a[0] in b && b[0] in a;
      assert a[0] == b[0];
      forall x | x in a[1..]
        ensures x in b[1..]
      {
        assert lt(a[0], x) && x in b;
        assert b == [b[0]] + b[1..];
      }
      forall x | x in b[1..]
        ensures x in a[1..]
      {
        assert lt(b[0], x) && x in a;
        assert a == [a[0]] + a[1..];
      }
      OrderedListingUnique(a[1..], b[1..], lt);
      assert a == [a[0]] + a[1..] && b == [b[0]] + b[1..];
    }
  }
}
