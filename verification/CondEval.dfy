/** Evaluation of #if expressions on 64-bit patterns, with the program's own
    rules for signs, truth values and division. */
module CondEval {
  import opened Words
  import opened Bits
  import opened CondGrammar
  import opened CondExpr

  /** A value, the diagnosed division by zero, or an operation C leaves undefined. */
  datatype Result = V(v: Val) | DivByZero | Undefined

  function Signed(x: u64): int { if x < WORD64 / 2 then x else x - WORD64 }

  function Pattern(x: int): u64 { x % WORD64 }

  function Bool(b: bool): u64 { if b then 1 else 0 }

  predicate Truth(v: Val) { v.bits != 0 }

  function TruncDiv(a: int, b: int): int
    requires b != 0
  {
    if (a >= 0) == (b > 0) then (if a >= 0 then a else -a) / (if b >= 0 then b else -b)
    else -((if a >= 0 then a else -a) / (if b >= 0 then b else -b))
  }

  function EvalUn(u: UnOp, v: Val): Val {
    match u
    case Pos => v
    case Neg => v.(bits := if v.unsigned then Pattern(0 - v.bits) else Pattern(-Signed(v.bits)))
    case Compl => v.(bits := WORD64 - 1 - v.bits)
    case Not => v.(bits := Bool(v.bits == 0))
  }

  /** The check before / and % : the divisor, or, when the divisor is signed,
      the dividend, is zero. */
  predicate Refused(l: Val, r: Val) { (!r.unsigned && Signed(l.bits) == 0) || r.bits == 0 }

  function Compare(op: BinOp, a: int, b: int): bool {
    match op
    case Lt => a < b
    case Gt => a > b
    case Le => a <= b
    case Ge => a >= b
    case Eq => a == b
    case _ => a != b
  }

  /** &, ^ and | , bit by bit from the lowest. */
  function Bitwise(op: BinOp, a: nat, b: nat): nat {
    if a == 0 && b == 0 then 0
    else
      var x, y := a % 2 == 1, b % 2 == 1;
      var bit := if op == BAnd then x && y else if op == BXor then x != y else x || y;
      2 * Bitwise(op, a / 2, b / 2) + (if bit then 1 else 0)
  }

  /** % with the sign of the dividend. */
  function TruncMod(a: int, b: int): int
    requires b != 0
  {
    var m := (if a >= 0 then a else -a) % (if b >= 0 then b else -b);
    if a >= 0 then m else -m
  }

  /** Every binary operator but && and ||. */
  function EvalBin(op: BinOp, l: Val, r: Val): Result {
    var un := l.unsigned || r.unsigned;
    var a := if un then l.bits else Signed(l.bits);
    var b := if un then r.bits else Signed(r.bits);
    match op
    case Mul => V(Val(Pattern(a * b), un))
    case Add => V(Val(Pattern(a + b), un))
    case Sub => V(Val(Pattern(a - b), un))
    case Div =>
      if Refused(l, r) then DivByZero
      else if !un && a == -(WORD64 / 2) && b == -1 then Undefined
      else V(Val(Pattern(TruncDiv(a, b)), un))
    case Mod =>
      if Refused(l, r) then DivByZero
      else if !un && a == -(WORD64 / 2) && b == -1 then Undefined
      else V(Val(Pattern(TruncMod(a, b)), un))
    case Shl => if 0 <= b < 64 then V(Val(Pattern(a * TwoTo(b)), un)) else Undefined
    case Shr => if 0 <= b < 64 then V(Val(Pattern(ShiftDown(a, b)), un)) else Undefined
    case BAnd => V(Val(Pattern(Bitwise(op, l.bits, r.bits)), un))
    case BXor => V(Val(Pattern(Bitwise(op, l.bits, r.bits)), un))
    case BOr => V(Val(Pattern(Bitwise(op, l.bits, r.bits)), un))
    case LAnd => V(Val(Bool(Truth(l) && Truth(r)), true))
    case LOr => V(Val(Bool(Truth(l) || Truth(r)), true))
    case _ => V(Val(Bool(Compare(op, a, b)), true))
  }

  function ShiftDown(a: int, n: nat): int {
    if n == 0 then a else ShiftDown(a, n - 1) / 2
  }

  /** The value of a tree; && , || and ?: evaluate only what they need. */
  function Eval(t: Tree): Result {
    match t
    case Leaf(v) => V(v)
    case Un(u, e) =>
      (match Eval(e)
       case V(v) => V(EvalUn(u, v))
       case err => err)
    case Bin(op, l, r) =>
      (match Eval(l)
       case V(a) =>
         if (op == LAnd && !Truth(a)) || (op == LOr && Truth(a)) then V(Val(Bool(Truth(a)), true))
         else
           (match Eval(r)
            case V(b) => EvalBin(op, a, b)
            case err => err)
       case err => err)
    case Cond(c, a, b) =>
      (match Eval(c)
       case V(v) => if Truth(v) then Eval(a) else Eval(b)
       case err => err)
  }

  /** Unary plus leaves every outcome as it is. */
  lemma {:induction false} PlusKeeps(t: Tree)
    ensures Eval(Un(Pos, t)) == Eval(t)
  {
  }

  /** cond_expr_eval2 on the arena. */
  method EvalNode(ns: seq<Node>, i0: nat) returns (r: Result)
    requires Backward(ns) && i0 < |ns|
    ensures r == Eval(TreeAt(ns, i0))
    decreases i0
  {
    var i: nat := i0;
    while ns[i].NUnary? && ns[i].u == Pos
      invariant i <= i0 < |ns| && Before(ns[i], i) && Eval(TreeAt(ns, i)) == Eval(TreeAt(ns, i0))
      decreases i
    {
      PlusKeeps(TreeAt(ns, ns[i].t));
      i := ns[i].t;
      assert Before(ns[i], i);
    }
    match ns[i]
    case NValue(v) => return V(v);
    case NUnary(u, t) =>
      r := EvalNode(ns, t);
      if r.V? {
        r := V(EvalUn(u, r.v));
      }
    case NBinary(op, l, rr) =>
      r := EvalNode(ns, l);
      if !r.V? {
        return;
      }
      var a := r.v;
      if op == LAnd || op == LOr {
        var v := Val(Bool(Truth(a)), true);
        if Truth(v) == (op == LAnd) {
          r := EvalNode(ns, rr);
          if !r.V? {
            return;
          }
          v := Val(Bool(Truth(r.v)), true);
        }
        return V(v);
      }
      r := EvalNode(ns, rr);
      if r.V? {
        r := EvalBin(op, a, r.v);
      }
    case NTernary(c, t, f) =>
      r := EvalNode(ns, c);
      if r.V? {
        if Truth(r.v) {
          r := EvalNode(ns, t);
        } else {
          r := EvalNode(ns, f);
        }
      }
  }

  /** A diagnosed or undefined line, or the truth of its value. */
  datatype Answer = Rejected | Holds(b: bool)

  /** What a line means: its one tree, which must fit the arena, evaluated. */
  function Meaning(line: seq<Tok>): Answer {
    match Parse(line, 0)
    case Got(t, rest) =>
      if Head(rest) != Eof || Size(t) > ARENA_MAX then Rejected
      else
        (match Eval(t)
         case V(v) => Holds(Truth(v))
         case _ => Rejected)
    case _ => Rejected
  }

  /** cond_expr_eval, on the tokens expand_line has left. */
  method EvalLine(line: seq<Tok>) returns (a: Answer)
    ensures a == Meaning(line)
  {
    var arena := new Arena(line);
    assert arena.From(0) == line;
    var st, end := arena.Parse(0, 0);
    arena.FromStep(end);
    if !st.Found? || arena.At(end) != Eof {
      return Rejected;
    }
    var r := EvalNode(arena.nodes[..arena.count], st.i);
    return if r.V? then Holds(Truth(r.v)) else Rejected;
  }

  /** A line that the grammar derives, with a tree that fits the arena, holds
      exactly when the value of the tree is not zero, and is rejected when it
      has none. */
  lemma {:induction false} DerivedMeaning(d: Deriv)
    requires Produced(d, 1) && Size(Erase(d)) <= ARENA_MAX
    ensures Meaning(Terminals(d) + [Eof]) ==
            if Eval(Erase(d)).V? then Holds(Eval(Erase(d)).v.bits != 0) else Rejected
  {
    GrammarAccepted(d);
  }

  // -------------------------------------------------------------------
  // Arithmetic modulo 2^64, whatever the flags.
  // -------------------------------------------------------------------

  /** Constants under + - * and unary + - ~ . */
  predicate RingTree(t: Tree) {
    match t
    case Leaf(_) => true
    case Un(u, e) => u != Not && RingTree(e)
    case Bin(op, l, r) => op in {Add, Sub, Mul} && RingTree(l) && RingTree(r)
    case Cond(_, _, _) => false
  }

  /** The integer such a tree denotes. */
  function Number(t: Tree): int
    requires RingTree(t)
  {
    match t
    case Leaf(v) => if v.unsigned then v.bits else Signed(v.bits)
    case Un(u, e) => if u == Neg then -Number(e) else if u == Compl then -Number(e) - 1 else Number(e)
    case Bin(op, l, r) =>
      if op == Add then Number(l) + Number(r) else if op == Sub then Number(l) - Number(r) else Number(l) * Number(r)
  }

  lemma {:induction false} SamePattern(x: int, y: int, k: int)
    requires x == y + k * WORD64
    ensures x % WORD64 == y % WORD64
  {
  }

  lemma {:induction false} PatternStep(x: int) returns (k: int)
    ensures x == Pattern(x) + k * WORD64
  {
    k := x / WORD64;
  }

  lemma {:induction false} SignedStep(x: u64) returns (k: int)
    ensures Signed(x) == x + k * WORD64
  {
    k := if x < WORD64 / 2 then 0 else -1;
  }

  /** Products of congruent numbers are congruent. */
  lemma {:induction false} ProductPattern(x: int, i: int, y: int, j: int)
    ensures Pattern((x + i * WORD64) * (y + j * WORD64)) == Pattern(x * y)
  {
    var k := x * j + i * y + i * j * WORD64;
    assert (x + i * WORD64) * (y + j * WORD64) == x * y + k * WORD64;
    SamePattern((x + i * WORD64) * (y + j * WORD64), x * y, k);
  }

  function Combine(op: BinOp, x: int, y: int): int { if op == Add then x + y else if op == Sub then x - y else x * y }

  lemma {:induction false} CombinePattern(op: BinOp, x: int, i: int, y: int, j: int)
    requires op in {Add, Sub, Mul}
    ensures Pattern(Combine(op, x + i * WORD64, y + j * WORD64)) == Pattern(Combine(op, x, y))
  {
    match op
    case Add => SamePattern((x + i * WORD64) + (y + j * WORD64), x + y, i + j);
    case Sub => SamePattern((x + i * WORD64) - (y + j * WORD64), x - y, i - j);
    case Mul => ProductPattern(x, i, y, j);
  }

  /** Whatever the operands' flags, the bits of + - * are those of the integers. */
  lemma {:induction false} BinPattern(op: BinOp, l: Val, r: Val, x: int, y: int)
    requires op in {Add, Sub, Mul} && l.bits == Pattern(x) && r.bits == Pattern(y)
    ensures EvalBin(op, l, r).V? && EvalBin(op, l, r).v.bits == Pattern(Combine(op, x, y))
  {
    var i := PatternStep(x);
    var j := PatternStep(y);
    CombinePattern(op, l.bits, i, r.bits, j);
    var k := SignedStep(l.bits);
    var n := SignedStep(r.bits);
    CombinePattern(op, l.bits, k, r.bits, n);
    EvalBinRing(op, l, r);
  }

  lemma {:induction false} EvalBinRing(op: BinOp, l: Val, r: Val)
    requires op in {Add, Sub, Mul}
    ensures EvalBin(op, l, r).V?
    ensures EvalBin(op, l, r).v.bits ==
            if l.unsigned || r.unsigned then Pattern(Combine(op, l.bits, r.bits))
                else Pattern(Combine(op, Signed(l.bits), Signed(r.bits)))
  {
  }

  lemma {:induction false} UnPattern(u: UnOp, v: Val, x: int)
    requires u != Not && v.bits == Pattern(x)
    ensures EvalUn(u, v).bits == Pattern(if u == Neg then -x else if u == Compl then -x - 1 else x)
  {
    var i := PatternStep(x);
    var k := SignedStep(v.bits);
    SamePattern(-x, 0 - v.bits, -i);
    SamePattern(-Signed(v.bits), 0 - v.bits, -k);
    SamePattern(-x - 1, WORD64 - 1 - v.bits, -i - 1);
  }

  lemma {:induction false} LeafPattern(v: Val)
    requires RingTree(Leaf(v))
    ensures Eval(Leaf(v)) == V(v) && v.bits == Pattern(Number(Leaf(v)))
  {
  }

  /** On such trees evaluation never fails, and its pattern is the integer
      value modulo 2^64 whatever the signedness flags say. */
  lemma {:induction false} RingValue(t: Tree)
    requires RingTree(t)
    ensures Eval(t).V? && Eval(t).v.bits == Pattern(Number(t))
  {
    hide Pattern, EvalBin, EvalUn;
    match t
    case Leaf(v) =>
      LeafPattern(v);
    case Un(u, e) =>
      RingValue(e);
      UnPattern(u, Eval(e).v, Number(e));
    case Bin(op, l, r) =>
      RingValue(l);
      RingValue(r);
      BinPattern(op, Eval(l).v, Eval(r).v, Number(l), Number(r));
  }

  /** Division by zero is not exactly what the diagnostic reports: 0 / 5 is
      refused too, because the check looks at the dividend.  The diagnostic
      comes exactly when the divisor is zero, or the dividend is and the
      divisor is signed. */
  lemma {:induction false} DivisionRefused(l: Val, r: Val)
    ensures EvalBin(Div, l, r) == DivByZero <==> r.bits == 0 || (l.bits == 0 && !r.unsigned)
    ensures EvalBin(Mod, l, r) == DivByZero <==> EvalBin(Div, l, r) == DivByZero
    ensures EvalBin(Div, Val(0, false), Val(5, false)) == DivByZero
  {
  }
}
