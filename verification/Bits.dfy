/** Bits of unbounded numbers: powers of two, masks and disjoint unions. */
module Bits {

  predicate PowerOfTwo(n: nat) { n == 1 || (n > 1 && n % 2 == 0 && PowerOfTwo(n / 2)) }

  /** Bitwise and. */
  function And(x: nat, y: nat): nat {
    if x == 0 || y == 0 then 0 else 2 * And(x / 2, y / 2) + (if x % 2 == 1 && y % 2 == 1 then 1 else 0)
  }

  /** Bitwise or. */
  function Or(x: nat, y: nat): nat {
    if x == 0 && y == 0 then 0 else 2 * Or(x / 2, y / 2) + (if x % 2 == 1 || y % 2 == 1 then 1 else 0)
  }

  function TwoTo(n: nat): (t: nat)
    ensures t > 0
  {
    if n == 0 then 1 else 2 * TwoTo(n - 1)
  }

  lemma {:induction false} HalfRemainder(x: nat, m: nat)
    requires m > 0
    ensures x % (2 * m) == 2 * (x / 2 % m) + x % 2
  {
    var q, a, b := x / 2, x / 2 / m, x / 2 % m;
    assert x == 2 * q + x % 2 && q == m * a + b;
    assert x == (2 * m) * a + (2 * b + x % 2);
    Remainder(x, 2 * m, a, 2 * b + x % 2);
  }

  lemma {:induction false} Multiple(n: nat, d: int)
    ensures d > 0 ==> n * d >= n
    ensures d < 0 ==> n * d + n <= 0
  {
    if d > 0 { assert n * d == n * (d - 1) + n; }
    if d < 0 { assert n * d == -(n * (-d - 1)) - n; }
  }

  lemma {:induction false} Remainder(x: nat, n: nat, a: int, r: nat)
    requires r < n && x == n * a + r
    ensures x % n == r
  {
    var d := a - x / n;
    assert n * d == x % n - r by { assert n * a == n * (x / n) + n * d; }
    Multiple(n, d);
  }

  lemma {:induction false} QuotientIs(x: nat, n: nat, a: int, r: nat)
    requires r < n && x == n * a + r
    ensures x / n == a
  {
    Remainder(x, n, a, r);
    var d := a - x / n;
    assert n * d == 0 by { assert n * a == n * (x / n) + n * d; }
    Multiple(n, d);
  }

  lemma {:induction false} AndMask(x: nat, n: nat)
    requires n > 1 && n % 2 == 0
    ensures And(x, n - 1) == 2 * And(x / 2, n / 2 - 1) + x % 2
  {
    var y := n - 1;
    assert y / 2 == n / 2 - 1 && y % 2 == 1;
    if x == 0 { assert And(x / 2, n / 2 - 1) == 0; }
  }

  lemma {:induction false} Halved(n: nat)
    requires PowerOfTwo(n) && n > 1
    ensures n % 2 == 0 && PowerOfTwo(n / 2) && 2 * (n / 2) == n
  {
  }

  lemma {:induction false} Twice(n: nat)
    requires PowerOfTwo(n)
    ensures PowerOfTwo(2 * n)
  {
  }

  lemma {:induction false} PowerProduct(a: nat, b: nat)
    requires PowerOfTwo(a) && PowerOfTwo(b)
    ensures PowerOfTwo(a * b)
    decreases a
  {
    if a > 1 {
      hide PowerOfTwo;
      Halved(a);
      PowerProduct(a / 2, b);
      Twice(a / 2 * b);
      assert a * b == 2 * (a / 2 * b) by { assert a == 2 * (a / 2); }
    }
  }

  /** With a power of two as capacity the mask takes the remainder. */
  lemma {:induction false} MaskIsRemainder(x: nat, n: nat)
    requires PowerOfTwo(n)
    ensures And(x, n - 1) == x % n
    decreases n
  {
    if n > 1 {
      hide And, PowerOfTwo;
      Halved(n);
      AndMask(x, n);
      MaskIsRemainder(x / 2, n / 2);
      HalfRemainder(x, n / 2);
    }
  }

  lemma {:induction false} OrHalved(x: nat, y: nat)
    ensures Or(x, y) == 2 * Or(x / 2, y / 2) + (if x % 2 == 1 || y % 2 == 1 then 1 else 0)
  {
  }

  lemma {:induction false} OrNothing(x: nat)
    ensures Or(x, 0) == x
  {
    if x > 0 { OrNothing(x / 2); }
  }

  /** A number below a power of two has no bit in common with a multiple of it:
      their union is their sum. */
  lemma {:induction false} OrIsSum(x: nat, h: nat, y: nat)
    requires PowerOfTwo(h) && y < h
    ensures Or(x * h, y) == x * h + y
    decreases h
  {
    if h == 1 {
      OrNothing(x);
    } else {
      hide Or, PowerOfTwo;
      Halved(h);
      var k := h / 2;
      assert x * h == 2 * (x * k);
      OrHalved(x * h, y);
      OrIsSum(x, k, y / 2);
    }
  }
}
