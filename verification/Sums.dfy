/** Optional values, division, and finite sums: over the indices below a bound, and over the elements of
    a sequence. */
module Sums {

  datatype Option<+T> = None | Some(value: T)

  /** Integer division that drops the fraction. */
  function Quotient(a: int, b: int): int
    requires b > 0
  {
    if a >= 0 then a / b else -((-a) / b)
  }

  /** f(0) + ... + f(n - 1) */
  function SumTo(n: nat, f: nat -> int): int {
    if n == 0 then 0 else SumTo(n - 1, f) + f(n - 1)
  }

  lemma {:induction false} SumToSame(n: nat, f: nat -> int, g: nat -> int)
    requires forall i: nat | i < n :: f(i) == g(i)
    ensures SumTo(n, f) == SumTo(n, g)
  {
    if n > 0 {
      SumToSame(n - 1, f, g);
    }
  }

  /** Two summands that differ at one index only. */
  lemma {:induction false} SumToUpdate(n: nat, f: nat -> int, g: nat -> int, k: nat)
    requires k < n
    requires forall i: nat | i < n && i != k :: f(i) == g(i)
    ensures SumTo(n, g) == SumTo(n, f) - f(k) + g(k)
  {
    if k == n - 1 {
      SumToSame(n - 1, f, g);
    } else {
      SumToUpdate(n - 1, f, g, k);
    }
  }

  lemma {:induction false} SumToNonNegative(n: nat, f: nat -> int)
    requires forall i: nat | i < n :: f(i) >= 0
    ensures SumTo(n, f) >= 0
  {
    if n > 0 {
      SumToNonNegative(n - 1, f);
    }
  }

  lemma {:induction false} SumToZero(n: nat, f: nat -> int)
    requires forall i: nat | i < n :: f(i) == 0
    ensures SumTo(n, f) == 0
  {
    if n > 0 {
      SumToZero(n - 1, f);
    }
  }

  lemma {:induction false} SumToAtLeast(n: nat, k: nat, f: nat -> int)
    requires k < n && forall i: nat | i < n :: f(i) >= 0
    ensures SumTo(n, f) >= f(k)
  {
    if k == n - 1 {
      SumToNonNegative(n - 1, f);
    } else {
      SumToAtLeast(n - 1, k, f);
    }
  }

  lemma {:induction false} SumToDifference(n: nat, f: nat -> int, g: nat -> int, h: nat -> int)
    requires forall i: nat | i < n :: f(i) == g(i) - h(i)
    ensures SumTo(n, f) == SumTo(n, g) - SumTo(n, h)
  {
    if n > 0 {
      SumToDifference(n - 1, f, g, h);
    }
  }

  /** Summands that only rise, with non-negative ones added. */
  lemma {:induction false} SumToRises(n: nat, n': nat, f: nat -> int, g: nat -> int)
    requires n <= n'
    requires forall i: nat | i < n :: f(i) <= g(i)
    requires forall i: nat | n <= i < n' :: g(i) >= 0
    ensures SumTo(n, f) <= SumTo(n', g)
  {
    if n' > n {
      SumToRises(n, n' - 1, f, g);
    } else if n > 0 {
      SumToRises(n - 1, n - 1, f, g);
    }
  }

  /** f(s[0]) + ... + f(s[|s| - 1]) */
  function SumBy<T>(s: seq<T>, f: T -> int): int {
    if s == [] then 0 else SumBy(s[..|s| - 1], f) + f(s[|s| - 1])
  }

  lemma SumByPush<T>(s: seq<T>, x: T, f: T -> int)
    ensures SumBy(s + [x], f) == SumBy(s, f) + f(x)
  {
  }

  lemma {:induction false} SumBySame<T>(s: seq<T>, f: T -> int, g: T -> int)
    requires forall x | x in s :: f(x) == g(x)
    ensures SumBy(s, f) == SumBy(s, g)
  {
    if s != [] {
      SumBySame(s[..|s| - 1], f, g);
    }
  }

  lemma {:induction false} SumByNonNegative<T>(s: seq<T>, f: T -> int)
    requires forall x | x in s :: f(x) >= 0
    ensures SumBy(s, f) >= 0
  {
    if s != [] {
      SumByNonNegative(s[..|s| - 1], f);
    }
  }

  lemma {:induction false} SumByUpdate<T>(s: seq<T>, i: nat, x: T, f: T -> int)
    requires i < |s|
    ensures SumBy(s[i := x], f) == SumBy(s, f) - f(s[i]) + f(x)
  {
    var rest := s[..|s| - 1];
    if i == |s| - 1 {
      assert s[i := x][..i] == rest;
    } else {
      SumByUpdate(rest, i, x, f);
      assert s[i := x][..|s| - 1] == rest[i := x];
    }
  }

  lemma {:induction false} SumByAtLeast<T>(s: seq<T>, i: nat, f: T -> int)
    requires i < |s|
    requires forall x | x in s :: f(x) >= 0
    ensures SumBy(s, f) >= f(s[i])
  {
    var rest := s[..|s| - 1];
    assert forall x | x in rest :: x in s;
    if i == |s| - 1 {
      SumByNonNegative(rest, f);
    } else {
      SumByAtLeast(rest, i, f);
    }
  }
}
