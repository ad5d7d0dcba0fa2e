/** The portable 64-bit by 64-bit multiplication of xxhash.h. */
module Multiply {
  import opened Words
  import opened Bits

  const MAX_PRODUCT := (WORD32 - 1) * (WORD32 - 1)

  type U64 = x: nat | x < WORD64 witness 0

  /** Arithmetic of 64-bit words: what does not fit is dropped. */
  function Wrap(x: nat): U64 { if x < WORD64 then x else x % WORD64 }

  function Low(x: nat): nat { x % WORD32 }
  function High(x: nat): nat { x / WORD32 }

  /** The low half of a word, as the program masks it. */
  function Masked(x: U64): nat { And(x, WORD32 - 1) }

  /** XXH_mult64to128, portable branch: the high and the low word. */
  function Mult64To128(lhs: U64, rhs: U64): (nat, nat) {
    var loLo := Wrap(Masked(lhs) * Masked(rhs));
    var hiLo := Wrap(High(lhs) * Masked(rhs));
    var loHi := Wrap(Masked(lhs) * High(rhs));
    var hiHi := Wrap(High(lhs) * High(rhs));
    Assembled(loLo, hiLo, loHi, hiHi)
  }

  /** Adds the four products up. */
  function Assembled(loLo: U64, hiLo: U64, loHi: U64, hiHi: U64): (nat, nat) {
    var cross := Wrap(Wrap(High(loLo) + Masked(hiLo)) + loHi);
    var upper := Wrap(Wrap(High(hiLo) + High(cross)) + hiHi);
    (upper, Or(Wrap(cross * WORD32), Masked(loLo)))
  }

  lemma {:induction false} HalfPower()
    ensures PowerOfTwo(WORD32)
  {
    assert PowerOfTwo(1);
    PowerProduct(2, 2);
    PowerProduct(4, 4);
    PowerProduct(16, 16);
    PowerProduct(0x100, 0x100);
    PowerProduct(0x1_0000, 0x1_0000);
  }

  lemma {:induction false} MaskedLow(x: U64)
    ensures Masked(x) == Low(x)
  {
    HalfPower();
    MaskIsRemainder(x, WORD32);
  }

  lemma {:induction false} Product(a: nat, b: nat, m: nat)
    requires a <= m && b <= m
    ensures a * b <= m * m
  {
    assert a * b <= m * b by { assert (m - a) * b >= 0; }
    assert m * b <= m * m by { assert m * (m - b) >= 0; }
  }

  lemma {:induction false} Halves(x: U64, y: U64)
    ensures x * y == High(x) * High(y) * WORD64 + (High(x) * Low(y) + Low(x) * High(y)) * WORD32 + Low(x) * Low(y)
  {
    var a, b, c, d := High(x), Low(x), High(y), Low(y);
    assert x == a * WORD32 + b && y == c * WORD32 + d;
    Expand(a, b, c, d);
  }

  lemma {:induction false} Expand(a: nat, b: nat, c: nat, d: nat)
    ensures (a * WORD32 + b) * (c * WORD32 + d) == a * c * WORD64 + (a * d + b * c) * WORD32 + b * d
  {
    assert (a * WORD32 + b) * (c * WORD32 + d) == a * WORD32 * (c * WORD32) + a * WORD32 * d + b * (c * WORD32) + b * d;
    assert a * WORD32 * (c * WORD32) == a * c * WORD64;
    assert a * WORD32 * d == a * d * WORD32 && b * (c * WORD32) == b * c * WORD32;
  }

  // -------------------------------------------------------------------
  // The sums without dropping anything.
  // -------------------------------------------------------------------

  function Cross(loLo: nat, hiLo: nat, loHi: nat): nat { High(loLo) + Low(hiLo) + loHi }
  function Upper(hiLo: nat, cross: nat, hiHi: nat): nat { High(hiLo) + High(cross) + hiHi }

  lemma {:induction false} Sums(loLo: nat, hiLo: nat, loHi: nat, hiHi: nat)
    requires loLo <= MAX_PRODUCT && hiLo <= MAX_PRODUCT && loHi <= MAX_PRODUCT && hiHi <= MAX_PRODUCT
    ensures var cross := Cross(loLo, hiLo, loHi);
            var upper := Upper(hiLo, cross, hiHi);
            && cross < WORD64 && upper < WORD64 && Low(cross) * WORD32 + Low(loLo) < WORD64
            && upper * WORD64 + Low(cross) * WORD32 + Low(loLo) == hiHi * WORD64 + (hiLo + loHi) * WORD32 + loLo
  {
  }

  lemma {:induction false} WrapFits(x: nat)
    requires x < WORD64
    ensures Wrap(x) == x
  {
  }

  lemma {:induction false} WrapSum(x: nat, y: nat)
    requires x + y < WORD64
    ensures Wrap(Wrap(x) + y) == x + y
  {
  }

  lemma {:induction false} AssembledSums(loLo: U64, hiLo: U64, loHi: U64, hiHi: U64)
    requires loLo <= MAX_PRODUCT && hiLo <= MAX_PRODUCT && loHi <= MAX_PRODUCT && hiHi <= MAX_PRODUCT
    ensures var cross := Cross(loLo, hiLo, loHi);
            Assembled(loLo, hiLo, loHi, hiHi) == (Upper(hiLo, cross, hiHi), Low(cross) * WORD32 + Low(loLo))
  {
    hide High, Low, Wrap, Masked, Or, PowerOfTwo;
    Sums(loLo, hiLo, loHi, hiHi);
    var cross := Cross(loLo, hiLo, loHi);
    MaskedLow(hiLo);
    MaskedLow(loLo);
    WrapSum(High(loLo) + Low(hiLo), loHi);
    WrapSum(High(hiLo) + High(cross), hiHi);
    Shifted(cross);
    HalfPower();
    LowFits(loLo);
    OrIsSum(Low(cross), WORD32, Low(loLo));
  }

  lemma {:induction false} LowFits(x: nat)
    ensures Low(x) < WORD32
  {
  }

  lemma {:induction false} Products(lhs: U64, rhs: U64)
    ensures Low(lhs) * Low(rhs) <= MAX_PRODUCT && High(lhs) * Low(rhs) <= MAX_PRODUCT
    ensures Low(lhs) * High(rhs) <= MAX_PRODUCT && High(lhs) * High(rhs) <= MAX_PRODUCT
  {
    Product(Low(lhs), Low(rhs), WORD32 - 1);
    Product(High(lhs), Low(rhs), WORD32 - 1);
    Product(Low(lhs), High(rhs), WORD32 - 1);
    Product(High(lhs), High(rhs), WORD32 - 1);
  }

  /** No product and no partial sum overflows a word, and the two words are
      the exact product. */
  lemma {:induction false} MultExact(lhs: U64, rhs: U64)
    ensures High(lhs) * High(rhs) < WORD64 && High(lhs) * Low(rhs) < WORD64
    ensures Low(lhs) * High(rhs) < WORD64 && Low(lhs) * Low(rhs) < WORD64
    ensures var cross := Cross(Low(lhs) * Low(rhs), High(lhs) * Low(rhs), Low(lhs) * High(rhs));
            cross < WORD64 && Upper(High(lhs) * Low(rhs), cross, High(lhs) * High(rhs)) < WORD64
    ensures var (high, low) := Mult64To128(lhs, rhs);
            high < WORD64 && low < WORD64 && high * WORD64 + low == lhs * rhs
  {
    hide High, Low, Wrap, Masked, Assembled, Cross, Upper;
    Products(lhs, rhs);
    MaskedLow(lhs);
    MaskedLow(rhs);
    var loLo, hiLo, loHi, hiHi := Low(lhs) * Low(rhs), High(lhs) * Low(rhs), Low(lhs) * High(rhs),
        High(lhs) * High(rhs);
    WrapFits(loLo);
    WrapFits(hiLo);
    WrapFits(loHi);
    WrapFits(hiHi);
    Sums(loLo, hiLo, loHi, hiHi);
    AssembledSums(loLo, hiLo, loHi, hiHi);
    Halves(lhs, rhs);
  }

  /** Shifting left by half a word keeps the low half. */
  lemma {:induction false} Shifted(x: U64)
    ensures Wrap(x * WORD32) == Low(x) * WORD32
  {
    assert x * WORD32 == High(x) * WORD64 + Low(x) * WORD32;
  }
}
