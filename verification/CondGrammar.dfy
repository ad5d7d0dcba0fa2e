/** #if expressions: the precedence climber as a function on token lists, and
    the stratified grammar of sections 6.5.5 to 6.5.15 it must agree with. */
module CondGrammar {
  import opened Wrappers
  import opened Words
  import opened Seqs

  type u64 = x: nat | x < WORD64

  /** A 64-bit pattern and whether it is unsigned. */
  datatype Val = Val(bits: u64, unsigned: bool)

  datatype UnOp = Pos | Neg | Compl | Not
  datatype BinOp =
    | Mul | Div | Mod | Add | Sub | Shl | Shr | Lt | Gt | Le | Ge | Eq | Ne | BAnd | BXor | BOr | LAnd | LOr

  /** Tokens as the parser tells them apart.  Tilde and Bang stand in front of an
      operand, Op(Add) and Op(Sub) there as well as between two; Invalid are the
      operators a constant expression may not use, Malformed the constants it
      cannot read, Other everything that ends an expression. */
  datatype Tok =
    | Value(v: Val) | Malformed | LParen | RParen | Quest | Colon
    | Op(op: BinOp) | Tilde | Bang
    | Incr | Invalid | Other | Eof

  datatype Tree = Leaf(v: Val) | Un(u: UnOp, t: Tree) | Bin(op: BinOp, l: Tree, r: Tree)
      | Cond(c: Tree, t: Tree, f: Tree)

  const UNARY_PRIO := 12
  const INVALID_PRIO := 255

  function PrioOf(op: BinOp): (p: nat)
    ensures 2 <= p <= 11
  {
    match op
    case Mul => 11 case Div => 11 case Mod => 11
    case Add => 10 case Sub => 10
    case Shl => 9 case Shr => 9
    case Lt => 8 case Gt => 8 case Le => 8 case Ge => 8
    case Eq => 7 case Ne => 7
    case BAnd => 6
    case BXor => 5
    case BOr => 4
    case LAnd => 3
    case LOr => 2
  }

  /** cond_expr_prio. */
  function Prio(t: Tok): (p: nat)
    ensures t.Op? <==> 2 <= p <= 11
    ensures p == 1 <==> t == Quest
    ensures p <= 11 || p == INVALID_PRIO
  {
    match t
    case Op(op) => PrioOf(op)
    case Quest => 1
    case Incr => INVALID_PRIO
    case Invalid => INVALID_PRIO
    case _ => 0
  }

  function UnTok(u: UnOp): Tok {
    match u case Pos => Op(Add) case Neg => Op(Sub) case Compl => Tilde case Not => Bang
  }

  /** The operator a token is in front of an operand. */
  function Prefix(t: Tok): (u: Option<UnOp>)
    ensures u.Some? ==> t == UnTok(u.value)
  {
    if t == Op(Add) then Some(Pos)
    else if t == Op(Sub) then Some(Neg)
    else if t == Tilde then Some(Compl)
    else if t == Bang then Some(Not)
    else None
  }

  /** An operator that may not stand in front of an operand. */
  predicate BadPrefix(t: Tok) { t == Incr || t == Op(BAnd) || t == Op(Mul) }

  function Head(ts: seq<Tok>): Tok { if ts == [] then Eof else ts[0] }

  /** A diagnosed error, no expression at all, or a tree and what follows it. */
  datatype Parsed = Err | Nothing(rest: seq<Tok>) | Got(tree: Tree, rest: seq<Tok>)

  function Parse(ts: seq<Tok>, prio: nat): (r: Parsed)
    ensures r.Got? ==> |r.rest| < |ts|
    ensures r.Nothing? ==> r.rest == ts
    decreases |ts|, 1
  {
    if ts == [] then Nothing(ts)
    else if ts[0] == LParen then
      var r := Parse(ts[1..], 0);
      if r.Got? && Head(r.rest) == RParen then Climb(r.tree, r.rest[1..], prio) else Err
    else if Prefix(ts[0]).Some? then
      var r := Parse(ts[1..], UNARY_PRIO);
      if r.Got? then Climb(Un(Prefix(ts[0]).value, r.tree), r.rest, prio) else Err
    else if ts[0].Value? then Climb(Leaf(ts[0].v), ts[1..], prio)
    else if ts[0] == Malformed || BadPrefix(ts[0]) then Err
    else Nothing(ts)
  }

  /** Extends the tree lhs by the operators stronger than prio. */
  function Climb(lhs: Tree, ts: seq<Tok>, prio: nat): (r: Parsed)
    ensures !r.Nothing?
    ensures r.Got? ==> |r.rest| <= |ts|
    decreases |ts|, 0
  {
    var k := Prio(Head(ts));
    if Head(ts) == Eof then Got(lhs, ts)
    else if k == INVALID_PRIO then Err
    else if k == 0 || prio >= k then Got(lhs, ts)
    else if ts[0] == Quest then
      var a := Parse(ts[1..], 0);
      if !(a.Got? && Head(a.rest) == Colon) then Err
      else
        var b := Parse(a.rest[1..], 0);
        if b.Got? then Climb(Cond(lhs, a.tree, b.tree), b.rest, prio) else Err
    else
      var a := Parse(ts[1..], k);
      if a.Got? then Climb(Bin(ts[0].op, lhs, a.tree), a.rest, prio) else Err
  }

  // -------------------------------------------------------------------
  // The grammar, as derivations with their parentheses.
  // -------------------------------------------------------------------

  datatype Deriv =
    | DValue(v: Val)
    | DParen(d: Deriv)
    | DUn(u: UnOp, d: Deriv)
    | DBin(op: BinOp, l: Deriv, r: Deriv)
    | DCond(c: Deriv, t: Deriv, f: Deriv)

  /** d derives a phrase of the given level: up to 1 a conditional expression,
      2 to 11 the binary levels from || up to *, 12 a unary expression. */
  predicate Derives(d: Deriv, level: nat) {
    match d
    case DValue(_) => true
    case DParen(e) => Derives(e, 0)
    case DUn(_, e) => level <= 12 && Derives(e, 12)
    case DBin(op, l, r) => level <= PrioOf(op) && Derives(l, PrioOf(op)) && Derives(r, PrioOf(op) + 1)
    case DCond(c, t, f) => level <= 1 && Derives(c, 2) && Derives(t, 0) && Derives(f, 0)
  }

  function Yield(d: Deriv): seq<Tok> {
    match d
    case DValue(v) => [Value(v)]
    case DParen(e) => [LParen] + Yield(e) + [RParen]
    case DUn(u, e) => [UnTok(u)] + Yield(e)
    case DBin(op, l, r) => Yield(l) + [Op(op)] + Yield(r)
    case DCond(c, t, f) => Yield(c) + [Quest] + Yield(t) + [Colon] + Yield(f)
  }

  function Erase(d: Deriv): Tree {
    match d
    case DValue(v) => Leaf(v)
    case DParen(e) => Erase(e)
    case DUn(u, e) => Un(u, Erase(e))
    case DBin(op, l, r) => Bin(op, Erase(l), Erase(r))
    case DCond(c, t, f) => Cond(Erase(c), Erase(t), Erase(f))
  }

  /** How strong an operator may follow d without changing it. */
  function Strength(d: Deriv): nat {
    match d
    case DBin(op, _, _) => PrioOf(op)
    case DCond(_, _, _) => 0
    case _ => 12
  }

  /** The grammar level of what is parsed at a priority. */
  function LevelAt(prio: nat): nat { if prio >= 12 then 12 else prio + 1 }

  predicate Follows(rest: seq<Tok>, k: nat) { Prio(Head(rest)) <= k }

  lemma {:induction false} DerivesWeaker(d: Deriv, k: nat, level: nat)
    requires Derives(d, k) && level <= k
    ensures Derives(d, level)
  {
  }

  lemma {:induction false} DerivesStrength(d: Deriv, k: nat)
    requires Derives(d, k) && 2 <= k <= 12
    ensures Strength(d) >= k
  {
  }

  /** Levels 0 and 1 are the same level. */
  lemma {:induction false} DerivesTop(d: Deriv)
    ensures Derives(d, 0) == Derives(d, 1)
  {
  }

  lemma {:induction false} Regroup3<T>(a: seq<T>, b: seq<T>, c: seq<T>, e: seq<T>)
    ensures (a + b + c) + e == a + (b + (c + e))
  {
  }

  lemma {:induction false} Regroup5<T>(a: seq<T>, b: seq<T>, c: seq<T>, d: seq<T>, f: seq<T>, e: seq<T>)
    ensures (a + b + c + d + f) + e == a + (b + (c + (d + (f + e))))
  {
    Regroup3(a + b + c, d, f, e);
    Regroup3(a, b, c, d + (f + e));
  }

  // One step of the parser each.

  lemma {:induction false} ClimbStops(t: Tree, rest: seq<Tok>, prio: nat)
    requires Follows(rest, prio) && prio <= 12
    ensures Climb(t, rest, prio) == Got(t, rest)
  {
  }

  lemma {:induction false} ClimbBin(lhs: Tree, op: BinOp, ts: seq<Tok>, prio: nat, r: Tree, rest: seq<Tok>)
    requires PrioOf(op) > prio && Parse(ts, PrioOf(op)) == Got(r, rest)
    ensures Climb(lhs, [Op(op)] + ts, prio) == Climb(Bin(op, lhs, r), rest, prio)
  {
    assert ([Op(op)] + ts)[1..] == ts;
  }

  lemma {:induction false} ClimbCond(lhs: Tree, ts: seq<Tok>, a: Tree, ts2: seq<Tok>, b: Tree, rest: seq<Tok>)
    requires Parse(ts, 0) == Got(a, [Colon] + ts2) && Parse(ts2, 0) == Got(b, rest)
    ensures Climb(lhs, [Quest] + ts, 0) == Climb(Cond(lhs, a, b), rest, 0)
  {
    assert ([Quest] + ts)[1..] == ts;
    assert ([Colon] + ts2)[1..] == ts2;
  }

  lemma {:induction false} ParsePrefix(u: UnOp, ts: seq<Tok>, t: Tree, rest: seq<Tok>, prio: nat)
    requires Parse(ts, UNARY_PRIO) == Got(t, rest)
    ensures Parse([UnTok(u)] + ts, prio) == Climb(Un(u, t), rest, prio)
  {
    assert ([UnTok(u)] + ts)[1..] == ts;
  }

  lemma {:induction false} ParseParen(ts: seq<Tok>, t: Tree, rest: seq<Tok>, prio: nat)
    requires Parse(ts, 0) == Got(t, [RParen] + rest)
    ensures Parse([LParen] + ts, prio) == Climb(t, rest, prio)
  {
    assert ([LParen] + ts)[1..] == ts;
    assert ([RParen] + rest)[1..] == rest;
  }

  lemma {:induction false} ParseValue(v: Val, rest: seq<Tok>, prio: nat)
    ensures Parse([Value(v)] + rest, prio) == Climb(Leaf(v), rest, prio)
  {
    assert ([Value(v)] + rest)[1..] == rest;
  }

  /** Every derivation, followed by an operator that is not too strong, is
      parsed to its tree, and the climb goes on behind it. */
  lemma {:induction false} ParseYield(d: Deriv, rest: seq<Tok>, prio: nat)
    requires Derives(d, LevelAt(prio)) && prio <= 12 && Follows(rest, Strength(d))
    ensures Parse(Yield(d) + rest, prio) == Climb(Erase(d), rest, prio)
    decreases d, 1
  {
    hide Climb, Parse;
    match d
    case DValue(v) =>
      ParseValue(v, rest, prio);
    case DParen(e) =>
      ParseNested(e, rest, prio);
    case DUn(u, e) =>
      ParseUn(u, e, rest, prio);
    case DBin(op, l, r) =>
      ParseBin(op, l, r, rest, prio);
    case DCond(c, t, f) =>
      ParseCond(c, t, f, rest);
  }

  /** The same when nothing that follows is strong enough to go on. */
  lemma {:induction false} ParseToEnd(d: Deriv, rest: seq<Tok>, prio: nat)
    requires prio <= 12 && Follows(rest, prio) && Follows(rest, Strength(d))
    requires Derives(d, if prio == 0 then 0 else LevelAt(prio))
    ensures Parse(Yield(d) + rest, prio) == Got(Erase(d), rest)
    decreases d, 2
  {
    DerivesTop(d);
    ParseYield(d, rest, prio);
    ClimbStops(Erase(d), rest, prio);
  }

  lemma {:induction false} ParseNested(e: Deriv, rest: seq<Tok>, prio: nat)
    requires Derives(e, 0)
    ensures Parse(Yield(DParen(e)) + rest, prio) == Climb(Erase(e), rest, prio)
    decreases DParen(e), 0
  {
    ParseToEnd(e, [RParen] + rest, 0);
    ParseParen(Yield(e) + ([RParen] + rest), Erase(e), rest, prio);
    Regroup3([LParen], Yield(e), [RParen], rest);
  }

  lemma {:induction false} ParseUn(u: UnOp, e: Deriv, rest: seq<Tok>, prio: nat)
    requires Derives(e, 12) && Follows(rest, 12)
    ensures Parse(Yield(DUn(u, e)) + rest, prio) == Climb(Un(u, Erase(e)), rest, prio)
    decreases DUn(u, e), 0
  {
    DerivesStrength(e, 12);
    ParseToEnd(e, rest, UNARY_PRIO);
    ParsePrefix(u, Yield(e) + rest, Erase(e), rest, prio);
    Assoc([UnTok(u)], Yield(e), rest);
  }

  lemma {:induction false} ParseBin(op: BinOp, l: Deriv, r: Deriv, rest: seq<Tok>, prio: nat)
    requires var d := DBin(op, l, r); Derives(d, LevelAt(prio)) && prio <= 12 && Follows(rest, PrioOf(op))
    ensures Parse(Yield(DBin(op, l, r)) + rest, prio) == Climb(Bin(op, Erase(l), Erase(r)), rest, prio)
    decreases DBin(op, l, r), 0
  {
    var k := PrioOf(op);
    var tail := Yield(r) + rest;
    DerivesWeaker(l, k, LevelAt(prio));
    DerivesStrength(l, k);
    ParseYield(l, [Op(op)] + tail, prio);
    DerivesStrength(r, k + 1);
    ParseToEnd(r, rest, k);
    ClimbBin(Erase(l), op, tail, prio, Erase(r), rest);
    Regroup3(Yield(l), [Op(op)], Yield(r), rest);
  }

  lemma {:induction false} ParseCond(c: Deriv, t: Deriv, f: Deriv, rest: seq<Tok>)
    requires Derives(DCond(c, t, f), 1) && Follows(rest, 0)
    ensures Parse(Yield(DCond(c, t, f)) + rest, 0) == Climb(Cond(Erase(c), Erase(t), Erase(f)), rest, 0)
    decreases DCond(c, t, f), 0
  {
    var tail2 := Yield(f) + rest;
    var tail := Yield(t) + ([Colon] + tail2);
    DerivesWeaker(c, 2, 1);
    DerivesStrength(c, 2);
    ParseYield(c, [Quest] + tail, 0);
    ParseToEnd(t, [Colon] + tail2, 0);
    ParseToEnd(f, rest, 0);
    ClimbCond(Erase(c), tail, Erase(t), tail2, Erase(f), rest);
    Regroup5(Yield(c), [Quest], Yield(t), [Colon], Yield(f), rest);
  }

  /** Completeness: every derivation of a conditional expression, up to the end
      of the line, is accepted with its tree and leaves nothing over. */
  lemma {:induction false} LeveledAccepted(d: Deriv)
    requires Derives(d, 0)
    ensures Parse(Yield(d) + [Eof], 0) == Got(Erase(d), [Eof])
  {
    ParseToEnd(d, [Eof], 0);
  }

  // -------------------------------------------------------------------
  // Soundness: what is accepted is in the grammar.
  // -------------------------------------------------------------------

  predicate Witnesses(d: Deriv, level: nat, ts: seq<Tok>, tree: Tree, rest: seq<Tok>) {
    Derives(d, level) && Erase(d) == tree && Yield(d) + rest == ts
  }

  /** A tree that was parsed at a priority has a derivation at its level, and
      what follows is too weak to continue it. */
  lemma {:induction false} ParseSound(ts: seq<Tok>, prio: nat) returns (d: Deriv)
    requires prio <= 12 && Parse(ts, prio).Got?
    ensures var r := Parse(ts, prio);
            Witnesses(d, LevelAt(prio), ts, r.tree, r.rest) && Follows(r.rest, prio) && Follows(r.rest, Strength(d))
    decreases |ts|, 2
  {
    var first, more := ParseOperand(ts, prio);
    DerivesWeaker(first, 12, LevelAt(prio));
    d := ClimbSound(first, more, prio);
    Rejoin(first, d, more, Parse(ts, prio).rest, ts);
  }

  /** The operand a parsed text begins with, and what follows it. */
  lemma {:induction false} ParseOperand(ts: seq<Tok>, prio: nat) returns (d: Deriv, more: seq<Tok>)
    requires prio <= 12 && Parse(ts, prio).Got?
    ensures Derives(d, 12) && Strength(d) == 12 && Yield(d) + more == ts && |more| < |ts|
    ensures Parse(ts, prio) == Climb(Erase(d), more, prio)
    decreases |ts|, 1
  {
    if ts[0] == LParen {
      d, more := ParseParenSound(ts, prio);
    } else if Prefix(ts[0]).Some? {
      d, more := ParseUnSound(ts, prio);
    } else {
      d, more := DValue(ts[0].v), ts[1..];
      assert ts == [ts[0]] + ts[1..];
    }
  }

  lemma {:induction false} ParseParenSound(ts: seq<Tok>, prio: nat) returns (d: Deriv, more: seq<Tok>)
    requires prio <= 12 && ts != [] && ts[0] == LParen && Parse(ts, prio).Got?
    ensures Derives(d, 12) && Strength(d) == 12 && Yield(d) + more == ts && |more| < |ts|
    ensures Parse(ts, prio) == Climb(Erase(d), more, prio)
    decreases |ts|, 0
  {
    hide Climb;
    var r := Parse(ts[1..], 0);
    var e := ParseSound(ts[1..], 0);
    DerivesTop(e);
    d, more := DParen(e), r.rest[1..];
    assert r.rest == [RParen] + more;
    Regroup3([LParen], Yield(e), [RParen], more);
    assert ts == [LParen] + ts[1..];
  }

  lemma {:induction false} ParseUnSound(ts: seq<Tok>, prio: nat) returns (d: Deriv, more: seq<Tok>)
    requires prio <= 12 && ts != [] && Prefix(ts[0]).Some? && Parse(ts, prio).Got?
    ensures Derives(d, 12) && Strength(d) == 12 && Yield(d) + more == ts && |more| < |ts|
    ensures Parse(ts, prio) == Climb(Erase(d), more, prio)
    decreases |ts|, 0
  {
    var e := ParseSound(ts[1..], UNARY_PRIO);
    d, more := DUn(Prefix(ts[0]).value, e), Parse(ts[1..], UNARY_PRIO).rest;
    Assoc([ts[0]], Yield(e), more);
    assert ts == [ts[0]] + ts[1..];
  }

  lemma {:induction false} Rejoin(lhs: Deriv, d: Deriv, ts: seq<Tok>, rest: seq<Tok>, all: seq<Tok>)
    requires all == Yield(lhs) + ts && Yield(d) + rest == Yield(lhs) + ts
    ensures Yield(d) + rest == all
  {
  }

  lemma {:induction false} ClimbSound(lhs: Deriv, ts: seq<Tok>, prio: nat) returns (d: Deriv)
    requires prio <= 12 && Climb(Erase(lhs), ts, prio).Got?
    requires Derives(lhs, LevelAt(prio)) && Derives(lhs, Strength(lhs))
    requires Prio(Head(ts)) == INVALID_PRIO || Follows(ts, Strength(lhs))
    ensures var r := Climb(Erase(lhs), ts, prio);
            && Derives(d, LevelAt(prio)) && Erase(d) == r.tree
            && Yield(d) + r.rest == Yield(lhs) + ts
            && Follows(r.rest, prio) && Follows(r.rest, Strength(d))
    decreases |ts|, 1
  {
    var k := Prio(Head(ts));
    if Head(ts) == Eof || k == 0 || prio >= k {
      d := lhs;
    } else if ts[0] == Quest {
      d := ClimbCondSound(lhs, ts);
    } else {
      d := ClimbBinSound(lhs, ts, prio);
    }
  }

  lemma {:induction false} ClimbBinSound(lhs: Deriv, ts: seq<Tok>, prio: nat) returns (d: Deriv)
    requires ts != [] && ts[0].Op? && prio < PrioOf(ts[0].op) <= Strength(lhs)
    requires Climb(Erase(lhs), ts, prio).Got?
    requires Derives(lhs, LevelAt(prio)) && Derives(lhs, Strength(lhs))
    ensures var r := Climb(Erase(lhs), ts, prio);
            && Derives(d, LevelAt(prio)) && Erase(d) == r.tree
            && Yield(d) + r.rest == Yield(lhs) + ts
            && Follows(r.rest, prio) && Follows(r.rest, Strength(d))
    decreases |ts|, 0
  {
    var op, k := ts[0].op, PrioOf(ts[0].op);
    var a := Parse(ts[1..], k);
    var e := ParseSound(ts[1..], k);
    DerivesWeaker(lhs, Strength(lhs), k);
    var b := DBin(op, lhs, e);
    ClimbBin(Erase(lhs), op, ts[1..], prio, a.tree, a.rest);
    assert ts == [Op(op)] + ts[1..];
    Regroup3(Yield(lhs), [Op(op)], Yield(e), a.rest);
    d := ClimbSound(b, a.rest, prio);
  }

  lemma {:induction false} ClimbCondSound(lhs: Deriv, ts: seq<Tok>) returns (d: Deriv)
    requires ts != [] && ts[0] == Quest && 2 <= Strength(lhs)
    requires Climb(Erase(lhs), ts, 0).Got?
    requires Derives(lhs, Strength(lhs))
    ensures var r := Climb(Erase(lhs), ts, 0);
            && Derives(d, 1) && Erase(d) == r.tree
            && Yield(d) + r.rest == Yield(lhs) + ts
            && Follows(r.rest, 0) && Follows(r.rest, Strength(d))
    decreases |ts|, 0
  {
    hide Parse;
    var a := Parse(ts[1..], 0);
    var b := Parse(a.rest[1..], 0);
    var e := ParseSound(ts[1..], 0);
    var f := ParseSound(a.rest[1..], 0);
    DerivesWeaker(lhs, Strength(lhs), 2);
    DerivesTop(e);
    DerivesTop(f);
    d := DCond(lhs, e, f);
    assert ts == [Quest] + ts[1..];
    assert a.rest == [Colon] + a.rest[1..];
    ClimbCond(Erase(lhs), ts[1..], a.tree, a.rest[1..], b.tree, b.rest);
    ClimbStops(Cond(Erase(lhs), a.tree, b.tree), b.rest, 0);
    Regroup5(Yield(lhs), [Quest], Yield(e), [Colon], Yield(f), b.rest);
  }

  /** The parser accepts a line, up to its end, with the tree t exactly when it
      has a derivation with that tree. */
  lemma {:induction false} AcceptedIffLeveled(line: seq<Tok>, t: Tree)
    requires Eof !in line
    ensures Parse(line + [Eof], 0) == Got(t, [Eof]) <==> exists d :: Derives(d, 0) && Yield(d) == line && Erase(d) == t
  {
    if Parse(line + [Eof], 0) == Got(t, [Eof]) {
      var d := ParseSound(line + [Eof], 0);
      DerivesTop(d);
      assert Yield(d) == (Yield(d) + [Eof])[..|Yield(d)|];
      assert line == (line + [Eof])[..|line|];
    }
    if exists d :: Derives(d, 0) && Yield(d) == line && Erase(d) == t {
      var d :| Derives(d, 0) && Yield(d) == line && Erase(d) == t;
      LeveledAccepted(d);
    }
  }

  // -------------------------------------------------------------------
  // The productions of the standard.
  // -------------------------------------------------------------------

  /** The operators of each level, sections 6.5.5 to 6.5.14 from below. */
  function Operators(level: nat): set<BinOp> {
    match level
    case 2 => {LOr}
    case 3 => {LAnd}
    case 4 => {BOr}
    case 5 => {BXor}
    case 6 => {BAnd}
    case 7 => {Eq, Ne}
    case 8 => {Lt, Gt, Le, Ge}
    case 9 => {Shl, Shr}
    case 10 => {Add, Sub}
    case 11 => {Mul, Div, Mod}
    case _ => {}
  }

  /** Level 1 is a conditional expression, 2 to 11 are the binary levels, 12 is a
      unary expression.  A phrase of a level is one of the next level, or for
      the binary levels a phrase of the level, one of its operators, and a
      phrase of the next level. */
  predicate Produced(d: Deriv, level: nat)
    decreases d, if level <= 12 then 12 - level else 0
  {
    if level >= 12 then
      match d
      case DValue(_) => true
      case DParen(e) => Produced(e, 1)
      case DUn(_, e) => Produced(e, 12)
      case _ => false
    else
      || Produced(d, level + 1)
      || (level <= 1 && d.DCond? && Produced(d.c, 2) && Produced(d.t, 1) && Produced(d.f, 1))
      || (d.DBin? && d.op in Operators(level) && Produced(d.l, level) && Produced(d.r, level + 1))
  }

  /** The terminals of a phrase. */
  function Terminals(d: Deriv): seq<Tok> {
    match d
    case DValue(v) => [Value(v)]
    case DParen(e) => [LParen] + Terminals(e) + [RParen]
    case DUn(Pos, e) => [Op(Add)] + Terminals(e)
    case DUn(Neg, e) => [Op(Sub)] + Terminals(e)
    case DUn(Compl, e) => [Tilde] + Terminals(e)
    case DUn(Not, e) => [Bang] + Terminals(e)
    case DBin(op, l, r) => Terminals(l) + [Op(op)] + Terminals(r)
    case DCond(c, t, f) => Terminals(c) + [Quest] + Terminals(t) + [Colon] + Terminals(f)
  }

  lemma {:induction false} TerminalsYield(d: Deriv)
    ensures Terminals(d) == Yield(d)
  {
    match d
    case DValue(_) =>
    case DParen(e) => TerminalsYield(e);
    case DUn(_, e) => TerminalsYield(e);
    case DBin(_, l, r) =>
      TerminalsYield(l);
      TerminalsYield(r);
    case DCond(c, t, f) =>
      TerminalsYield(c);
      TerminalsYield(t);
      TerminalsYield(f);
  }

  /** The priorities of the climber are the levels of the productions. */
  lemma {:induction false} OperatorLevel(op: BinOp, level: nat)
    ensures op in Operators(level) <==> PrioOf(op) == level
  {
  }

  lemma {:induction false} ProducedIff(d: Deriv, level: nat)
    requires 1 <= level <= 12
    ensures Produced(d, level) <==> Derives(d, level)
    decreases d, 12 - level
  {
    match d
    case DValue(_) =>
      if level < 12 { ProducedIff(d, level + 1); }
    case DParen(e) =>
      ProducedIff(e, 1);
      DerivesTop(e);
      if level < 12 { ProducedIff(d, level + 1); }
    case DUn(_, e) =>
      ProducedIff(e, 12);
      if level < 12 { ProducedIff(d, level + 1); }
    case DBin(op, l, r) =>
      OperatorLevel(op, level);
      if level < 12 {
        ProducedIff(d, level + 1);
        ProducedIff(l, level);
        ProducedIff(r, level + 1);
      }
    case DCond(c, t, f) =>
      ProducedIff(c, 2);
      ProducedIff(t, 1);
      ProducedIff(f, 1);
      DerivesTop(t);
      DerivesTop(f);
      if level < 12 { ProducedIff(d, level + 1); }
  }

  /** In the words of the productions. */
  lemma {:induction false} ProducedDerives(d: Deriv)
    ensures (Produced(d, 1) <==> Derives(d, 0)) && Terminals(d) == Yield(d)
  {
    ProducedIff(d, 1);
    DerivesTop(d);
    TerminalsYield(d);
  }

  /** Completeness: every phrase the productions derive, up to the end of the
      line, is accepted with its tree and leaves nothing over. */
  lemma {:induction false} GrammarAccepted(d: Deriv)
    requires Produced(d, 1)
    ensures Parse(Terminals(d) + [Eof], 0) == Got(Erase(d), [Eof])
  {
    ProducedDerives(d);
    LeveledAccepted(d);
  }

  predicate ProducesLine(d: Deriv, line: seq<Tok>, t: Tree) {
    Produced(d, 1) && Terminals(d) == line && Erase(d) == t
  }

  /** The parser accepts a line, up to its end, with the tree t exactly when
      the productions of the standard derive the line with that tree. */
  lemma {:induction false} AcceptedIffDerived(line: seq<Tok>, t: Tree)
    requires Eof !in line
    ensures Parse(line + [Eof], 0) == Got(t, [Eof]) <==> exists d :: ProducesLine(d, line, t)
  {
    AcceptedIffLeveled(line, t);
    if d :| Derives(d, 0) && Yield(d) == line && Erase(d) == t {
      ProducedDerives(d);
      assert ProducesLine(d, line, t);
    }
    if d :| ProducesLine(d, line, t) {
      ProducedDerives(d);
    }
  }

  /** The grammar is unambiguous. */
  lemma {:induction false} Unambiguous(d: Deriv, e: Deriv)
    requires Produced(d, 1) && Produced(e, 1) && Terminals(d) == Terminals(e)
    ensures Erase(d) == Erase(e)
  {
    GrammarAccepted(d);
    GrammarAccepted(e);
  }

  /** The derivation of a tree with parentheses only where the level asks for
      them: binary operators group to the left, ?: to the right, unary
      operators bind tightest. */
  function Minimal(t: Tree, level: nat): (d: Deriv)
    decreases t
  {
    match t
    case Leaf(v) => DValue(v)
    case Un(u, e) => DUn(u, Minimal(e, 12))
    case Bin(op, l, r) =>
      var d := DBin(op, Minimal(l, PrioOf(op)), Minimal(r, PrioOf(op) + 1));
      if level <= PrioOf(op) then d else DParen(d)
    case Cond(c, t, f) =>
      var d := DCond(Minimal(c, 2), Minimal(t, 0), Minimal(f, 0));
      if level <= 1 then d else DParen(d)
  }

  lemma {:induction false} MinimalDerives(t: Tree, level: nat)
    requires level <= 12
    ensures Derives(Minimal(t, level), level) && Erase(Minimal(t, level)) == t
  {
    match t
    case Leaf(v) =>
    case Un(u, e) => MinimalDerives(e, 12);
    case Bin(op, l, r) =>
      MinimalDerives(l, PrioOf(op));
      MinimalDerives(r, PrioOf(op) + 1);
    case Cond(c, a, b) =>
      MinimalDerives(c, 2);
      MinimalDerives(a, 0);
      MinimalDerives(b, 0);
  }

  /** Printing a tree with minimal parentheses and parsing gives it back. */
  lemma {:induction false} PrintParse(t: Tree)
    ensures Produced(Minimal(t, 0), 1) && Parse(Terminals(Minimal(t, 0)) + [Eof], 0) == Got(t, [Eof])
  {
    MinimalDerives(t, 0);
    ProducedDerives(Minimal(t, 0));
    GrammarAccepted(Minimal(t, 0));
  }
}
