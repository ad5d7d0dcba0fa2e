/** What the operators of #if give, said of integers and of single bits. */
module CondOperators {
  import opened Words
  import opened Bits
  import opened CondGrammar
  import opened CondEval

  /** The integer that the pattern of v stands for, read with or without sign. */
  predicate Denotes(x: int, v: Val, unsigned: bool) {
    (x - v.bits) % WORD64 == 0 && if unsigned then 0 <= x < WORD64 else -(WORD64 / 2) <= x < WORD64 / 2
  }

  function Mixed(l: Val, r: Val): bool { l.unsigned || r.unsigned }

  /** The operands as the usual conversions make them. */
  predicate Operands(l: Val, r: Val, x: int, y: int) { Denotes(x, l, Mixed(l, r)) && Denotes(y, r, Mixed(l, r)) }

  lemma {:induction false} DenotesIs(x: int, v: Val, unsigned: bool)
    requires Denotes(x, v, unsigned)
    ensures x == if unsigned then v.bits else Signed(v.bits)
  {
    var k := (x - v.bits) / WORD64;
    assert x - v.bits == k * WORD64;
  }

  lemma {:induction false} OperandsAre(l: Val, r: Val, x: int, y: int)
    requires Operands(l, r, x, y)
    ensures x == if Mixed(l, r) then l.bits else Signed(l.bits)
    ensures y == if Mixed(l, r) then r.bits else Signed(r.bits)
  {
    DenotesIs(x, l, Mixed(l, r));
    DenotesIs(y, r, Mixed(l, r));
  }

  function Truth01(b: bool): Result { V(Val(if b then 1 else 0, true)) }

  /** Comparisons are those of the integers, and give an unsigned 0 or 1. */
  lemma {:induction false} Comparisons(l: Val, r: Val, x: int, y: int)
    requires Operands(l, r, x, y)
    ensures EvalBin(Lt, l, r) == Truth01(x < y) && EvalBin(Gt, l, r) == Truth01(x > y)
    ensures EvalBin(Le, l, r) == Truth01(x <= y) && EvalBin(Ge, l, r) == Truth01(x >= y)
    ensures EvalBin(Eq, l, r) == Truth01(x == y) && EvalBin(Ne, l, r) == Truth01(x != y)
  {
    OperandsAre(l, r, x, y);
  }

  /** Because their results count as unsigned, -1 < (1 < 2) does not hold. */
  lemma {:induction false} ComparisonUnsigned()
    ensures var one := Leaf(Val(1, false));
            Eval(Bin(Lt, Un(Neg, one), Bin(Lt, one, Leaf(Val(2, false))))) == V(Val(0, true))
  {
    var minus := EvalUn(Neg, Val(1, false));
    assert minus.bits == WORD64 - 1;
    assert EvalBin(Lt, Val(1, false), Val(2, false)) == V(Val(1, true));
    assert EvalBin(Lt, minus, Val(1, true)) == V(Val(0, true));
  }

  // -------------------------------------------------------------------
  // Quotient and remainder.
  // -------------------------------------------------------------------

  function Abs(x: int): nat { if x < 0 then -x else x }

  lemma {:induction false} TruncFacts(a: int, b: int)
    requires b != 0
    ensures a == TruncDiv(a, b) * b + TruncMod(a, b)
    ensures Abs(TruncMod(a, b)) < Abs(b) && (TruncMod(a, b) == 0 || (TruncMod(a, b) < 0 <==> a < 0))
    ensures Abs(TruncDiv(a, b)) <= Abs(a) && (Abs(b) > 1 && a != 0 ==> Abs(TruncDiv(a, b)) < Abs(a))
    ensures a >= 0 && b > 0 ==> TruncDiv(a, b) >= 0
  {
    hide TruncDiv, TruncMod;
    TruncParts(a, b);
    QuotientSmall(Abs(a), Abs(b));
    TruncSigns(a, b, Abs(a) / Abs(b), Abs(a) % Abs(b), TruncDiv(a, b), TruncMod(a, b));
  }

  lemma {:induction false} TruncParts(a: int, b: int)
    requires b != 0
    ensures var q: int, r: int := Abs(a) / Abs(b), Abs(a) % Abs(b);
            TruncDiv(a, b) == (if (a >= 0) == (b > 0) then q else -q) && TruncMod(a, b) == (if a >= 0 then r else -r)
  {
  }

  lemma {:induction false} TruncSigns(a: int, b: int, q: int, r: int, x: int, y: int)
    requires Abs(a) == q * Abs(b) + r && q >= 0
    requires x == (if (a >= 0) == (b > 0) then q else -q) && y == (if a >= 0 then r else -r)
    ensures a == x * b + y
  {
    SignedProduct(q, Abs(b), x, b);
  }

  lemma {:induction false} SignedProduct(q: int, n: int, x: int, y: int)
    requires (x == q || x == -q) && (y == n || y == -n)
    ensures (x == q && y == n) || (x == -q && y == -n) ==> x * y == q * n
    ensures (x == -q && y == n) || (x == q && y == -n) ==> x * y == -(q * n)
  {
  }

  lemma {:induction false} QuotientSmall(m: nat, n: nat)
    requires n > 0
    ensures m == m / n * n + m % n && 0 <= m % n < n
    ensures 0 <= m / n <= m && (n > 1 && m > 0 ==> m / n < m)
  {
    var q := m / n;
    if q > 0 {
      Multiple(q, n - 1);
      assert q * n == q * (n - 1) + q;
    }
  }

  /** The operands for which there is a quotient: not refused, and not the least
      number by -1. */
  lemma {:induction false} Divisible(l: Val, r: Val, x: int, y: int)
    requires Operands(l, r, x, y)
    ensures EvalBin(Div, l, r).V? <==>
              y != 0 && (r.unsigned || x != 0) && (Mixed(l, r) || x != -(WORD64 / 2) || y != -1)
    ensures EvalBin(Mod, l, r).V? <==> EvalBin(Div, l, r).V?
  {
    OperandsAre(l, r, x, y);
  }

  /** They are the truncated quotient and its remainder. */
  lemma {:induction false} Quotient(l: Val, r: Val, x: int, y: int, q: int, m: int)
    requires Operands(l, r, x, y) && EvalBin(Div, l, r).V? && EvalBin(Mod, l, r).V?
    requires Denotes(q, EvalBin(Div, l, r).v, Mixed(l, r)) && Denotes(m, EvalBin(Mod, l, r).v, Mixed(l, r))
    ensures x == q * y + m && Abs(m) < Abs(y) && (m == 0 || (m < 0 <==> x < 0))
    ensures EvalBin(Div, l, r).v.unsigned == EvalBin(Mod, l, r).v.unsigned == Mixed(l, r)
  {
    hide TruncDiv, TruncMod;
    OperandsAre(l, r, x, y);
    TruncFacts(x, y);
    DenotesIs(q, EvalBin(Div, l, r).v, Mixed(l, r));
    DenotesIs(m, EvalBin(Mod, l, r).v, Mixed(l, r));
    InRange(TruncDiv(x, y), Mixed(l, r));
    InRange(TruncMod(x, y), Mixed(l, r));
  }

  /** A number in range is read back from its pattern. */
  lemma {:induction false} InRange(x: int, unsigned: bool)
    ensures unsigned && 0 <= x < WORD64 ==> Pattern(x) == x
    ensures !unsigned && -(WORD64 / 2) <= x < WORD64 / 2 ==> Signed(Pattern(x)) == x
  {
  }

  // -------------------------------------------------------------------
  // Shifts.
  // -------------------------------------------------------------------

  /** A left shift multiplies by a power of two, modulo 2^64. */
  lemma {:induction false} ShiftLeft(l: Val, r: Val, x: int, y: int)
    requires Operands(l, r, x, y)
    ensures EvalBin(Shl, l, r).V? <==> 0 <= y < 64
    ensures 0 <= y < 64 ==>
              var v := EvalBin(Shl, l, r).v; (x * TwoTo(y) - v.bits) % WORD64 == 0 && v.unsigned == Mixed(l, r)
  {
    hide TwoTo;
    OperandsAre(l, r, x, y);
    if 0 <= y < 64 {
      PatternCongruent(x * TwoTo(y));
    }
  }

  lemma {:induction false} PatternCongruent(x: int)
    ensures (x - Pattern(x)) % WORD64 == 0
  {
    var k := x / WORD64;
    assert x - Pattern(x) == k * WORD64;
  }

  lemma {:induction false} ShiftDownIs(a: int, n: nat)
    ensures var z := ShiftDown(a, n); z * TwoTo(n) <= a < (z + 1) * TwoTo(n)
    ensures 0 <= a ==> 0 <= ShiftDown(a, n) <= a
    ensures a < 0 ==> a <= ShiftDown(a, n) < 0
  {
    if n > 0 {
      ShiftDownIs(a, n - 1);
      var w, t := ShiftDown(a, n - 1), TwoTo(n - 1);
      Doubled(a, w / 2, w, t);
    }
  }

  lemma {:induction false} Doubled(a: int, z: int, w: int, t: nat)
    requires (w == 2 * z || w == 2 * z + 1) && w * t <= a < (w + 1) * t
    ensures z * (2 * t) <= a < (z + 1) * (2 * t)
  {
    assert z * (2 * t) == 2 * z * t && (z + 1) * (2 * t) == (2 * z + 2) * t;
    if w == 2 * z {
      assert (2 * z + 2) * t == (w + 1) * t + t;
    } else {
      assert w * t == 2 * z * t + t && w + 1 == 2 * z + 2;
    }
  }

  /** A right shift divides by a power of two, rounding down. */
  lemma {:induction false} ShiftRight(l: Val, r: Val, x: int, y: int, z: int)
    requires Operands(l, r, x, y) && 0 <= y < 64
    requires EvalBin(Shr, l, r).V? ==> Denotes(z, EvalBin(Shr, l, r).v, Mixed(l, r))
    ensures EvalBin(Shr, l, r).V? && EvalBin(Shr, l, r).v.unsigned == Mixed(l, r)
    ensures z * TwoTo(y) <= x < (z + 1) * TwoTo(y)
  {
    hide ShiftDown;
    OperandsAre(l, r, x, y);
    ShiftDownIs(x, y);
    DenotesIs(z, EvalBin(Shr, l, r).v, Mixed(l, r));
    InRange(ShiftDown(x, y), Mixed(l, r));
  }

  // -------------------------------------------------------------------
  // Single bits.
  // -------------------------------------------------------------------

  predicate Bit(n: nat, i: nat) { n / TwoTo(i) % 2 == 1 }

  lemma {:induction false} HalfQuotient(n: nat, t: nat)
    requires t > 0
    ensures n / (2 * t) == n / 2 / t
  {
    var m := n / 2;
    var q, r := m / t, m % t;
    assert n == 2 * m + n % 2 && m == t * q + r;
    assert n == (2 * t) * q + (2 * r + n % 2);
    QuotientIs(n, 2 * t, q, 2 * r + n % 2);
  }

  lemma {:induction false} BitAbove(n: nat, i: nat)
    requires i > 0
    ensures Bit(n, i) == Bit(n / 2, i - 1)
  {
    HalfQuotient(n, TwoTo(i - 1));
  }

  /** What the operator makes of two bits. */
  function OfBits(op: BinOp, a: bool, b: bool): bool {
    if op == BAnd then a && b else if op == BOr then a || b else a != b
  }

  lemma {:induction false} BitwiseBit(op: BinOp, a: nat, b: nat, i: nat)
    requires op in {BAnd, BOr, BXor}
    ensures Bit(Bitwise(op, a, b), i) == OfBits(op, Bit(a, i), Bit(b, i))
    decreases i
  {
    hide Bitwise, TwoTo;
    BitwiseParts(op, a, b);
    if i == 0 {
      BitLowest(a);
      BitLowest(b);
      BitLowest(Bitwise(op, a, b));
    } else {
      hide Bit;
      BitAbove(a, i);
      BitAbove(b, i);
      BitAbove(Bitwise(op, a, b), i);
      BitwiseBit(op, a / 2, b / 2, i - 1);
    }
  }

  lemma {:induction false} BitLowest(n: nat)
    ensures Bit(n, 0) == (n % 2 == 1)
  {
  }

  lemma {:induction false} BitwiseParts(op: BinOp, a: nat, b: nat)
    requires op in {BAnd, BOr, BXor}
    ensures Bitwise(op, a, b) / 2 == Bitwise(op, a / 2, b / 2)
    ensures (Bitwise(op, a, b) % 2 == 1) == OfBits(op, a % 2 == 1, b % 2 == 1)
  {
  }

  lemma {:induction false} BitwiseBound(op: BinOp, a: nat, b: nat, k: nat)
    requires a < TwoTo(k) && b < TwoTo(k)
    ensures Bitwise(op, a, b) < TwoTo(k)
    decreases k
  {
    if k > 0 {
      BitwiseBound(op, a / 2, b / 2, k - 1);
    }
  }

  lemma {:induction false} DoubleProduct(x: nat, y: nat)
    ensures (2 * x) * y == 2 * (x * y)
  {
  }

  lemma {:induction false} TwoToSum(a: nat, b: nat)
    ensures TwoTo(a + b) == TwoTo(a) * TwoTo(b)
    decreases a
  {
    if a > 0 {
      assert TwoTo(a) == 2 * TwoTo(a - 1) && TwoTo(a + b) == 2 * TwoTo(a - 1 + b);
      hide TwoTo;
      TwoToSum(a - 1, b);
      DoubleProduct(TwoTo(a - 1), TwoTo(b));
    }
  }

  lemma {:induction false} TwoTo64()
    ensures TwoTo(64) == WORD64
  {
    TwoTo16();
    hide TwoTo;
    TwoToSum(16, 16);
    assert TwoTo(32) == 0x1_0000_0000;
    TwoToSum(32, 32);
  }

  lemma {:induction false} TwoTo16()
    ensures TwoTo(16) == 0x1_0000
  {
    assert TwoTo(4) == 16;
    hide TwoTo;
    TwoToSum(4, 4);
    TwoToSum(8, 8);
  }

  /** & | and ^ work on every bit by itself. */
  lemma {:induction false} BitByBit(op: BinOp, l: Val, r: Val, i: nat)
    requires op in {BAnd, BOr, BXor} && i < 64
    ensures EvalBin(op, l, r).V? && EvalBin(op, l, r).v.unsigned == Mixed(l, r)
    ensures Bit(EvalBin(op, l, r).v.bits, i) == OfBits(op, Bit(l.bits, i), Bit(r.bits, i))
  {
    hide Bitwise, TwoTo, Bit, OfBits;
    TwoTo64();
    BitwiseBound(op, l.bits, r.bits, 64);
    BitwiseBit(op, l.bits, r.bits, i);
  }

  // -------------------------------------------------------------------
  // Logic: what is evaluated, and what comes of it.
  // -------------------------------------------------------------------

  /** The left operand of && decides alone when it is zero, whatever the right
      one would give; otherwise the right one decides, or fails. */
  lemma {:induction false} Conjunction(l: Tree, r: Tree)
    requires Eval(l).V?
    ensures Eval(Bin(LAnd, l, r)) ==
            if Eval(l).v.bits == 0 then Truth01(false)
            else if Eval(r).V? then Truth01(Eval(r).v.bits != 0)
            else Eval(r)
  {
  }

  lemma {:induction false} Disjunction(l: Tree, r: Tree)
    requires Eval(l).V?
    ensures Eval(Bin(LOr, l, r)) ==
            if Eval(l).v.bits != 0 then Truth01(true)
            else if Eval(r).V? then Truth01(Eval(r).v.bits != 0)
            else Eval(r)
  {
  }

  /** Only one branch of ?: is evaluated. */
  lemma {:induction false} Choice(c: Tree, t: Tree, f: Tree)
    requires Eval(c).V?
    ensures Eval(Cond(c, t, f)) == if Eval(c).v.bits != 0 then Eval(t) else Eval(f)
  {
  }

  /** ! gives 1 exactly for zero, and keeps the flag. */
  lemma {:induction false} Negation(e: Tree)
    requires Eval(e).V?
    ensures Eval(Un(Not, e)) == V(Val(if Eval(e).v.bits == 0 then 1 else 0, Eval(e).v.unsigned))
  {
  }

  /** An operand that fails, where it is evaluated, fails the whole. */
  lemma {:induction false} Failing(op: BinOp, l: Tree, r: Tree)
    requires !Eval(l).V? || (op != LAnd && op != LOr && !Eval(r).V?)
    ensures Eval(Bin(op, l, r)) == if Eval(l).V? then Eval(r) else Eval(l)
  {
  }
}
