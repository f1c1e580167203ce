/** Finite sums over seconds and over lists, and floor division. */
module Sums {

  /** f(a) + ... + f(b - 1). */
  function Sum(f: int -> int, a: int, b: int): int
    decreases b - a
  {
    if b <= a then 0 else Sum(f, a, b - 1) + f(b - 1)
  }

  lemma {:induction false} SumSplit(f: int -> int, a: int, m: int, b: int)
    requires a <= m <= b
    ensures Sum(f, a, b) == Sum(f, a, m) + Sum(f, m, b)
    decreases b - m
  {
    if m < b { SumSplit(f, a, m, b - 1); }
  }

  lemma {:induction false} SumConstant(f: int -> int, a: int, b: int, c: int)
    requires a <= b
    requires forall t :: a <= t < b ==> f(t) == c
    ensures Sum(f, a, b) == c * (b - a)
    decreases b - a
  {
    if a < b {
      SumConstant(f, a, b - 1, c);
      assert c * (b - 1 - a) + c == c * (b - a);
    }
  }

  lemma {:induction false} SumAgree(f: int -> int, g: int -> int, a: int, b: int)
    requires forall t :: a <= t < b ==> f(t) == g(t)
    ensures Sum(f, a, b) == Sum(g, a, b)
    decreases b - a
  {
    if a < b { SumAgree(f, g, a, b - 1); }
  }

  /** One summand raised by d raises the sum by d. */
  lemma {:induction false} SumRaised(f: int -> int, g: int -> int, a: int, b: int, at: int, d: int)
    requires forall t :: a <= t < b ==> g(t) == f(t) + if t == at then d else 0
    ensures Sum(g, a, b) == Sum(f, a, b) + if a <= at < b then d else 0
    decreases b - a
  {
    if a < b { SumRaised(f, g, a, b - 1, at, d); }
  }

  lemma {:induction false} SumNonNegative(f: int -> int, a: int, b: int)
    requires forall t :: a <= t < b ==> f(t) >= 0
    ensures Sum(f, a, b) >= 0
    decreases b - a
  {
    if a < b { SumNonNegative(f, a, b - 1); }
  }

  /** f summed over the elements of a list. */
  function Total<T>(xs: seq<T>, f: T -> int): int {
    if xs == [] then 0 else Total(xs[..|xs| - 1], f) + f(xs[|xs| - 1])
  }

  lemma TotalStep<T>(xs: seq<T>, i: nat, f: T -> int)
    requires i < |xs|
    ensures Total(xs[..i + 1], f) == Total(xs[..i], f) + f(xs[i])
  {
    assert xs[..i + 1][..i] == xs[..i];
  }

  lemma {:induction false} TotalConcat<T>(xs: seq<T>, ys: seq<T>, f: T -> int)
    ensures Total(xs + ys, f) == Total(xs, f) + Total(ys, f)
    decreases |ys|
  {
    if ys == [] {
      assert xs + ys == xs;
    } else {
      var front := ys[..|ys| - 1];
      assert (xs + ys)[..|xs + ys| - 1] == xs + front;
      TotalConcat(xs, front, f);
    }
  }

  lemma {:induction false} TotalAgree<T>(xs: seq<T>, f: T -> int, g: T -> int)
    requires forall x :: x in xs ==> f(x) == g(x)
    ensures Total(xs, f) == Total(xs, g)
  {
    if xs != [] { TotalAgree(xs[..|xs| - 1], f, g); }
  }

  lemma {:induction false} TotalNonNegative<T>(xs: seq<T>, f: T -> int)
    requires forall x :: x in xs ==> f(x) >= 0
    ensures Total(xs, f) >= 0
  {
    if xs != [] { TotalNonNegative(xs[..|xs| - 1], f); }
  }

  lemma {:induction false} TotalOfPair<T>(xs: seq<T>, f: T -> int, g: T -> int, h: T -> int)
    requires forall x :: x in xs ==> h(x) == f(x) + g(x)
    ensures Total(xs, h) == Total(xs, f) + Total(xs, g)
  {
    if xs != [] { TotalOfPair(xs[..|xs| - 1], f, g, h); }
  }

  lemma {:induction false} TotalConstant<T>(xs: seq<T>, f: T -> int, c: int)
    requires forall x :: x in xs ==> f(x) == c
    ensures Total(xs, f) == c * |xs|
  {
    if xs != [] {
      TotalConstant(xs[..|xs| - 1], f, c);
      assert c * (|xs| - 1) + c == c * |xs|;
    }
  }

  /** Summing floors loses less than one unit per summand. */
  lemma {:induction false} TotalOfFloors<T>(xs: seq<T>, f: T -> int, g: T -> int, d: int)
    requires d > 0 && forall x :: x in xs ==> g(x) == f(x) / d
    ensures Total(xs, g) * d <= Total(xs, f) <= Total(xs, g) * d + |xs| * (d - 1)
  {
    if xs != [] {
      var front, last := xs[..|xs| - 1], xs[|xs| - 1];
      TotalOfFloors(front, f, g, d);
      FloorBounds(f(last), d);
      assert Total(xs, g) * d == Total(front, g) * d + g(last) * d;
      assert |xs| * (d - 1) == |front| * (d - 1) + (d - 1);
    }
  }

  /** A list whose elements (with multiplicity) all occur in another weighs no more. */
  lemma {:induction false} TotalMonotone<T>(xs: seq<T>, ys: seq<T>, f: T -> int)
    requires multiset(xs) <= multiset(ys)
    requires forall y :: y in ys ==> f(y) >= 0
    ensures Total(xs, f) <= Total(ys, f)
  {
    if xs == [] {
      TotalNonNegative(ys, f);
    } else {
      var front, x := xs[..|xs| - 1], xs[|xs| - 1];
      assert xs == front + [x];
      var j := TotalRemove(x, ys, f);
      var rest := ys[..j] + ys[j + 1..];
      assert multiset(front) == multiset(xs) - multiset{x};
      assert multiset(rest) == multiset(ys) - multiset{x};
      TotalMonotone(front, rest, f);
    }
  }

  lemma TotalRemove<T>(x: T, ys: seq<T>, f: T -> int) returns (j: nat)
    requires x in multiset(ys)
    ensures j < |ys| && ys[j] == x
    ensures multiset(ys) == multiset(ys[..j] + ys[j + 1..]) + multiset{x}
    ensures Total(ys, f) == Total(ys[..j] + ys[j + 1..], f) + f(x)
  {
    assert x in ys;
    j :| 0 <= j < |ys| && ys[j] == x;
    assert ys == ys[..j] + ([x] + ys[j + 1..]);
    TotalConcat(ys[..j], [x] + ys[j + 1..], f);
    TotalConcat([x], ys[j + 1..], f);
    TotalConcat(ys[..j], ys[j + 1..], f);
    assert Total([x], f) == Total([x][..0], f) + f(x);
  }

  /** A sum does not depend on the order of its list. */
  lemma {:induction false} TotalSameMultiset<T>(xs: seq<T>, ys: seq<T>, f: T -> int)
    requires multiset(xs) == multiset(ys)
    ensures Total(xs, f) == Total(ys, f)
  {
    if xs == [] {
      assert |multiset(ys)| == 0;
    } else {
      var front, x := xs[..|xs| - 1], xs[|xs| - 1];
      assert xs == front + [x];
      var j := TotalRemove(x, ys, f);
      var rest := ys[..j] + ys[j + 1..];
      assert multiset(front) == multiset(xs) - multiset{x};
      assert multiset(rest) == multiset(ys) - multiset{x};
      TotalSameMultiset(front, rest, f);
    }
  }

  /** The lists that f gives for the elements, one after the other. */
  function Flat<S, T>(xs: seq<S>, f: S -> seq<T>): seq<T> {
    if xs == [] then [] else Flat(xs[..|xs| - 1], f) + f(xs[|xs| - 1])
  }

  lemma {:induction false} FlatJoins<S, T>(xs: seq<S>, ys: seq<S>, f: S -> seq<T>)
    ensures Flat(xs + ys, f) == Flat(xs, f) + Flat(ys, f)
    decreases |ys|
  {
    if ys == [] {
      assert xs + ys == xs;
    } else {
      var front := ys[..|ys| - 1];
      assert (xs + ys)[..|xs + ys| - 1] == xs + front;
      FlatJoins(xs, front, f);
    }
  }

  lemma FlatStep<S, T>(xs: seq<S>, x: S, f: S -> seq<T>)
    ensures Flat(xs + [x], f) == Flat(xs, f) + f(x)
  {
    assert (xs + [x])[..|xs|] == xs;
  }

  /** q is n divided by d, rounded down. */
  predicate IsFloor(q: int, n: int, d: int) {
    q * d <= n < (q + 1) * d
  }

  lemma FloorUnique(q: int, n: int, d: int)
    requires d > 0
    ensures IsFloor(q, n, d) <==> q == n / d
  {
    FloorBounds(n, d);
    FloorGreatest(n, d, q);
    FloorGreatest(n, d, q + 1);
  }

  /** The largest value of a 256-bit word. */
  const MAX_UINT256: int := 0xFFFF_FFFF_FFFF_FFFF_FFFF_FFFF_FFFF_FFFF_FFFF_FFFF_FFFF_FFFF_FFFF_FFFF_FFFF_FFFF

  /** Integer division as the host language does it: toward zero. */
  function TruncDiv(a: int, b: int): int
    requires b > 0
  {
    if a >= 0 then a / b else -(-a / b)
  }

  /** Division rounds down: n / d is the greatest q with q * d <= n. */
  lemma FloorBounds(n: int, d: int)
    requires d > 0
    ensures n / d * d <= n < n / d * d + d
  {
  }

  lemma FloorGreatest(n: int, d: int, q: int)
    requires d > 0
    ensures q <= n / d <==> q * d <= n
  {
    if q <= n / d {
      MulMonotone(q, n / d, d);
    } else {
      MulMonotone(n / d + 1, q, d);
    }
  }

  lemma MulMonotone(a: int, b: int, c: int)
    requires a <= b && c >= 0
    ensures a * c <= b * c && c * a <= c * b
  {
    assert (b - a) * c >= 0;
  }

  lemma MulCancel(a: int, b: int, c: int)
    requires c > 0
    ensures a * c <= b * c ==> a <= b
    ensures a * c < b * c ==> a < b
  {
    if b < a { MulMonotone(b + 1, a, c); }
  }

  lemma FloorMonotone(m: int, n: int, d: int)
    requires d > 0 && m <= n
    ensures m / d <= n / d
  {
    FloorGreatest(n, d, m / d);
  }
}
