/** #if expressions as the program runs them: the parser fills an arena of at
    most 1024 nodes that refer to each other by position, and the evaluator
    walks over it. */
module CondExpr {
  import opened CondGrammar

  const ARENA_MAX := 1024

  datatype Node =
    | NValue(v: Val)
    | NUnary(u: UnOp, t: nat)
    | NBinary(op: BinOp, l: nat, r: nat)
    | NTernary(c: nat, t: nat, f: nat)

  /** A node that refers only to nodes before position k. */
  predicate Before(n: Node, k: nat) {
    match n
    case NValue(_) => true
    case NUnary(_, t) => t < k
    case NBinary(_, l, r) => l < k && r < k
    case NTernary(c, t, f) => c < k && t < k && f < k
  }

  /** Every node refers to earlier nodes only. */
  predicate Backward(ns: seq<Node>) { forall i :: 0 <= i < |ns| ==> Before(ns[i], i) }

  /** The tree a node is the root of. */
  function TreeAt(ns: seq<Node>, i: nat): Tree
    requires Backward(ns) && i < |ns|
    decreases i
  {
    match ns[i]
    case NValue(v) => Leaf(v)
    case NUnary(u, t) => Un(u, TreeAt(ns, t))
    case NBinary(op, l, r) => Bin(op, TreeAt(ns, l), TreeAt(ns, r))
    case NTernary(c, t, f) => Cond(TreeAt(ns, c), TreeAt(ns, t), TreeAt(ns, f))
  }

  /** Number of arena nodes a tree takes. */
  function Size(t: Tree): (n: nat)
    ensures n >= 1
  {
    match t
    case Leaf(_) => 1
    case Un(_, e) => 1 + Size(e)
    case Bin(_, l, r) => 1 + Size(l) + Size(r)
    case Cond(c, a, b) => 1 + Size(c) + Size(a) + Size(b)
  }

  /** Later nodes do not change the trees of earlier ones. */
  lemma {:induction false} TreeAtPrefix(ns: seq<Node>, ms: seq<Node>, i: nat)
    requires Backward(ms) && ns <= ms && i < |ns|
    ensures Backward(ns) && TreeAt(ms, i) == TreeAt(ns, i)
    decreases i
  {
    assert forall k :: 0 <= k < |ns| ==> ns[k] == ms[k];
    match ns[i]
    case NValue(_) =>
    case NUnary(_, t) => TreeAtPrefix(ns, ms, t);
    case NBinary(_, l, r) =>
      TreeAtPrefix(ns, ms, l);
      TreeAtPrefix(ns, ms, r);
    case NTernary(c, t, f) =>
      TreeAtPrefix(ns, ms, c);
      TreeAtPrefix(ns, ms, t);
      TreeAtPrefix(ns, ms, f);
  }

  /** The tree of a node over the nodes ns. */
  function TreeOf(ns: seq<Node>, n: Node): Tree
    requires Backward(ns) && Before(n, |ns|)
  {
    match n
    case NValue(v) => Leaf(v)
    case NUnary(u, t) => Un(u, TreeAt(ns, t))
    case NBinary(op, l, r) => Bin(op, TreeAt(ns, l), TreeAt(ns, r))
    case NTernary(c, t, f) => Cond(TreeAt(ns, c), TreeAt(ns, t), TreeAt(ns, f))
  }

  /** A node added over earlier ones. */
  lemma {:induction false} TreeOver(ns: seq<Node>, n: Node)
    requires Backward(ns) && Before(n, |ns|)
    ensures Backward(ns + [n]) && TreeAt(ns + [n], |ns|) == TreeOf(ns, n)
  {
    var ms := ns + [n];
    match n
    case NValue(v) =>
    case NUnary(u, t) => TreeAtPrefix(ns, ms, t);
    case NBinary(op, l, r) =>
      TreeAtPrefix(ns, ms, l);
      TreeAtPrefix(ns, ms, r);
    case NTernary(c, t, f) =>
      TreeAtPrefix(ns, ms, c);
      TreeAtPrefix(ns, ms, t);
      TreeAtPrefix(ns, ms, f);
  }

  /** The climb only ever adds to the tree it starts with. */
  lemma {:induction false} ClimbGrows(lhs: Tree, ts: seq<Tok>, prio: nat)
    ensures var r := Climb(lhs, ts, prio); r.Got? ==> Size(r.tree) >= Size(lhs)
    decreases |ts|
  {
    var k := Prio(Head(ts));
    if Head(ts) == Eof || k == INVALID_PRIO || k == 0 || prio >= k {
    } else if ts[0] == Quest {
      var a := Parse(ts[1..], 0);
      if a.Got? && Head(a.rest) == Colon {
        var b := Parse(a.rest[1..], 0);
        if b.Got? {
          ClimbGrows(Cond(lhs, a.tree, b.tree), b.rest, prio);
        }
      }
    } else {
      var a := Parse(ts[1..], k);
      if a.Got? {
        ClimbGrows(Bin(ts[0].op, lhs, a.tree), a.rest, prio);
      }
    }
  }

  /** A turn of the climb at a binary operator that binds stronger. */
  lemma {:induction false} InfixTurn(l: Tree, op: BinOp, s: seq<Tok>, prio: nat)
    requires prio < PrioOf(op)
    ensures var a := Parse(s, PrioOf(op));
            var goal := Climb(l, [Op(op)] + s, prio);
            if a.Got? then goal == Climb(Bin(op, l, a.tree), a.rest, prio)
                           && (goal.Got? ==> Size(goal.tree) >= Size(Bin(op, l, a.tree)))
            else goal.Err?
  {
    assert ([Op(op)] + s)[1..] == s;
    var a := Parse(s, PrioOf(op));
    if a.Got? { ClimbGrows(Bin(op, l, a.tree), a.rest, prio); }
  }

  /** A turn at a '?'. */
  lemma {:induction false} TernaryTurn(c: Tree, s: seq<Tok>)
    ensures var a := Parse(s, 0);
            var goal := Climb(c, [Quest] + s, 0);
            if a.Got? && Head(a.rest) == Colon then
              var b := Parse(a.rest[1..], 0);
              if b.Got? then
                goal == Climb(Cond(c, a.tree, b.tree), b.rest, 0)
                && (goal.Got? ==> Size(goal.tree) >= Size(Cond(c, a.tree, b.tree)))
              else goal.Err?
            else goal.Err?
  {
    assert ([Quest] + s)[1..] == s;
    var a := Parse(s, 0);
    if a.Got? && Head(a.rest) == Colon {
      var b := Parse(a.rest[1..], 0);
      if b.Got? { ClimbGrows(Cond(c, a.tree, b.tree), b.rest, 0); }
    }
  }

  /** What a call of the parser returns: a diagnosed error, no expression, or a node. */
  datatype Res = Failed | Null | Found(i: nat)

  class Arena {
    const nodes: array<Node>
    const toks: seq<Tok>
    var count: nat

    constructor (toks: seq<Tok>)
      ensures Valid() && this.toks == toks && count == 0 && fresh(nodes)
    {
      this.toks := toks;
      nodes := new Node[ARENA_MAX](_ => NValue(Val(0, false)));
      count := 0;
    }

    ghost predicate Valid()
      reads this, nodes
    {
      nodes.Length == ARENA_MAX && count <= ARENA_MAX && Backward(nodes[..count])
    }

    /** The token at a place; the list ends with Eof. */
    function At(k: nat): Tok { if k < |toks| then toks[k] else Eof }

    function From(k: nat): seq<Tok> { if k < |toks| then toks[k..] else [] }

    /** cond_expr_new and the filling in of the node. */
    method New(n: Node) returns (r: Res)
      requires Valid() && Backward(nodes[..count] + [n])
      modifies this, nodes
      ensures Valid() && r == if old(count) == ARENA_MAX then Failed else Found(old(count))
      ensures nodes[..count] == old(nodes[..count]) + if r.Failed? then [] else [n]
    {
      if count == ARENA_MAX {
        return Failed;
      }
      nodes[count] := n;
      count := count + 1;
      assert nodes[..count] == old(nodes[..count]) + [n];
      return Found(count - 1);
    }

    /** To the nodes ns the tree t, and nothing else, has been added, and node
        i is its root. */
    ghost predicate Added(ns: seq<Node>, i: nat, t: Tree)
      reads this, nodes
    {
      && Valid() && i < count
      && ns <= nodes[..count]
      && TreeAt(nodes[..count], i) == t
      && count == |ns| + Size(t)
    }

    /** The outcome of a call made with the nodes ns agrees with the reference,
        but for an arena that is too small. */
    ghost predicate Agrees(ns: seq<Node>, st: Res, end: nat, r: Parsed)
      reads this, nodes
    {
      match st
      case Failed => r.Err? || (r.Got? && |ns| + Size(r.tree) > ARENA_MAX)
      case Null => r.Nothing? && From(end) == r.rest && Valid() && nodes[..count] == ns
      case Found(i) => r.Got? && From(end) == r.rest && Added(ns, i, r.tree)
    }

    lemma {:induction false} FromStep(k: nat)
      ensures Head(From(k)) == At(k)
      ensures k < |toks| ==> From(k) == [At(k)] + From(k + 1) && From(k)[1..] == From(k + 1)
    {
    }

    lemma {:induction false} FromOrder(k: nat, j: nat)
      requires |From(k)| <= |From(j)| && k < |toks|
      ensures j <= k
    {
    }

    /** A turn of the climb with the nodes ns has led from goal to a new left
        operand t with the text from end on. */
    ghost predicate Climbed(ns: seq<Node>, st: Res, t: Tree, tok: nat, end: nat, goal: Parsed, prio: nat)
      reads this, nodes
    {
      match st
      case Failed => goal.Err? || (goal.Got? && |ns| + Size(goal.tree) > ARENA_MAX)
      case Null => false
      case Found(i) =>
        end >= tok && Added(ns, i, t) && goal == CondGrammar.Climb(t, From(end), prio)
    }

    /** Adds a node over the trees last added. */
    method Add(n: Node, ghost ns: seq<Node>, ghost t: Tree) returns (r: Res)
      requires Valid() && ns <= nodes[..count]
      requires Backward(nodes[..count] + [n]) && TreeAt(nodes[..count] + [n], count) == t
      requires count + 1 == |ns| + Size(t)
      modifies this, nodes
      ensures if r.Failed? then |ns| + Size(t) > ARENA_MAX else r.Found? && Added(ns, r.i, t)
    {
      r := New(n);
    }

    /** cond_expr_parse: parses from tok on what binds stronger than prio. */
    method Parse(tok: nat, prio: nat) returns (st: Res, end: nat)
      requires Valid() && prio <= 12
      modifies this, nodes
      ensures Agrees(old(nodes[..count]), st, end, CondGrammar.Parse(From(tok), prio))
      decreases |toks| - tok, 1
    {
      ghost var ns := nodes[..count];
      end := tok;
      FromStep(tok);
      var t := At(tok);
      if t == LParen {
        st, end := Paren(tok + 1, prio);
      } else if Prefix(t).Some? {
        st, end := Unary(Prefix(t).value, tok + 1, prio);
      } else if t.Value? {
        TreeOver(ns, NValue(t.v));
        ClimbGrows(Leaf(t.v), From(tok + 1), prio);
        st := Add(NValue(t.v), ns, Leaf(t.v));
        if st.Failed? {
          return;
        }
        st, end := Climb(ns, st.i, Leaf(t.v), tok + 1, prio);
      } else if t == Malformed || BadPrefix(t) {
        return Failed, tok;
      } else {
        return Null, tok;
      }
    }

    /** Behind a '('. */
    method Paren(tok: nat, prio: nat) returns (st: Res, end: nat)
      requires Valid() && prio <= 12
      modifies this, nodes
      ensures !st.Null? && Agrees(old(nodes[..count]), st, end, CondGrammar.Parse([LParen] + From(tok), prio))
      decreases |toks| - tok, 2
    {
      ghost var ns := nodes[..count];
      ghost var a := CondGrammar.Parse(From(tok), 0);
      assert ([LParen] + From(tok))[1..] == From(tok);
      if a.Got? && Head(a.rest) == RParen {
        ClimbGrows(a.tree, a.rest[1..], prio);
      }
      st, end := Parse(tok, 0);
      FromStep(end);
      if !st.Found? || At(end) != RParen {
        return Failed, end;
      }
      st, end := Climb(ns, st.i, a.tree, end + 1, prio);
    }

    /** Behind a unary operator. */
    method Unary(u: UnOp, tok: nat, prio: nat) returns (st: Res, end: nat)
      requires Valid() && prio <= 12
      modifies this, nodes
      ensures !st.Null? && Agrees(old(nodes[..count]), st, end, CondGrammar.Parse([UnTok(u)] + From(tok), prio))
      decreases |toks| - tok, 2
    {
      hide CondGrammar.Climb, TreeAt;
      ghost var ns := nodes[..count];
      ghost var a := CondGrammar.Parse(From(tok), UNARY_PRIO);
      assert ([UnTok(u)] + From(tok))[1..] == From(tok);
      if a.Got? {
        ClimbGrows(Un(u, a.tree), a.rest, prio);
      }
      st, end := Parse(tok, UNARY_PRIO);
      if !st.Found? {
        return Failed, end;
      }
      TreeOver(nodes[..count], NUnary(u, st.i));
      st := Add(NUnary(u, st.i), ns, Un(u, a.tree));
      if st.Failed? {
        return;
      }
      st, end := Climb(ns, st.i, Un(u, a.tree), end, prio);
    }

    /** The loop of cond_expr_parse: the node ce is the left operand so far. */
    method Climb(ghost ns: seq<Node>, ce0: nat, ghost lhs: Tree, tok0: nat, prio: nat) returns (st: Res, end: nat)
      requires prio <= 12 && Added(ns, ce0, lhs)
      modifies this, nodes
      ensures Agrees(ns, st, end, CondGrammar.Climb(lhs, From(tok0), prio))
      decreases |toks| - tok0, 0
    {
      hide CondGrammar.Parse, TreeAt;
      ghost var goal, t := CondGrammar.Climb(lhs, From(tok0), prio), lhs;
      var ce: nat, tok: nat := ce0, tok0;
      while At(tok) != Eof
        invariant tok >= tok0 && Added(ns, ce, t) && goal == CondGrammar.Climb(t, From(tok), prio)
        decreases |toks| - tok
      {
        FromStep(tok);
        var k := Prio(At(tok));
        if k == INVALID_PRIO {
          return Failed, tok;
        } else if k == 0 || prio >= k {
          break;
        }
        if At(tok) == Quest {
          st, end, t := Ternary(ns, ce, t, tok + 1, prio);
        } else {
          st, end, t := Infix(ns, ce, t, At(tok).op, tok + 1, prio);
        }
        if st.Failed? {
          return;
        }
        ce, tok := st.i, end;
      }
      FromStep(tok);
      return Found(ce), tok;
    }

    /** Behind a binary operator. */
    method Infix(ghost ns: seq<Node>, ce: nat, ghost l: Tree, op: BinOp, tok: nat, ghost prio: nat)
      returns (st: Res, end: nat, ghost t: Tree)
      requires Added(ns, ce, l) && prio < PrioOf(op)
      modifies this, nodes
      ensures Climbed(ns, st, t, tok, end, CondGrammar.Climb(l, [Op(op)] + From(tok), prio), prio)
      decreases |toks| - tok, 2
    {
      hide CondGrammar.Parse, CondGrammar.Climb, TreeAt;
      ghost var before := nodes[..count];
      ghost var a := CondGrammar.Parse(From(tok), PrioOf(op));
      t := l;
      InfixTurn(l, op, From(tok), prio);
      st, end := Parse(tok, PrioOf(op));
      if !st.Found? {
        return Failed, end, t;
      }
      t := Bin(op, l, a.tree);
      TreeAtPrefix(before, nodes[..count], ce);
      TreeOver(nodes[..count], NBinary(op, ce, st.i));
      st := Add(NBinary(op, ce, st.i), ns, t);
    }

    /** Behind a '?'. */
    method Ternary(ghost ns: seq<Node>, ce: nat, ghost c: Tree, tok: nat, ghost prio: nat)
      returns (st: Res, end: nat, ghost t: Tree)
      requires Added(ns, ce, c) && prio == 0
      modifies this, nodes
      ensures Climbed(ns, st, t, tok, end, CondGrammar.Climb(c, [Quest] + From(tok), prio), prio)
      decreases |toks| - tok, 2
    {
      hide CondGrammar.Parse, CondGrammar.Climb, TreeAt, Backward, From;
      ghost var before := nodes[..count];
      ghost var a := CondGrammar.Parse(From(tok), 0);
      t := c;
      TernaryTurn(c, From(tok));
      st, end := Parse(tok, 0);
      if !st.Found? {
        return Failed, end, t;
      }
      FromStep(end);
      if At(end) != Colon {
        return Failed, end, t;
      }
      ghost var b := CondGrammar.Parse(From(end + 1), 0);
      FromOrder(end, tok);
      TreeAtPrefix(before, nodes[..count], ce);
      st, end := Third(ns, ce, c, st.i, a.tree, end + 1);
      if b.Got? { t := Cond(c, a.tree, b.tree); }
    }

    /** Behind the ':' of a conditional expression. */
    method Third(ghost ns: seq<Node>, ce: nat, ghost c: Tree, t: nat, ghost a: Tree, tok: nat)
        returns (st: Res, end: nat)
      requires Valid() && ns <= nodes[..count] && ce < count && t < count
      requires TreeAt(nodes[..count], ce) == c && TreeAt(nodes[..count], t) == a && count == |ns| + Size(c) + Size(a)
      modifies this, nodes
      ensures var b := CondGrammar.Parse(From(tok), 0);
              match st
              case Failed => b.Got? ==> |ns| + Size(Cond(c, a, b.tree)) > ARENA_MAX
              case Null => false
              case Found(i) => b.Got? && From(end) == b.rest && end >= tok && Added(ns, i, Cond(c, a, b.tree))
      decreases |toks| - tok, 2
    {
      ghost var middle := nodes[..count];
      st, end := Parse(tok, 0);
      if !st.Found? {
        return Failed, end;
      }
      TreeAtPrefix(middle, nodes[..count], ce);
      TreeAtPrefix(middle, nodes[..count], t);
      TreeOver(nodes[..count], NTernary(ce, t, st.i));
      st := Add(NTernary(ce, t, st.i), ns, Cond(c, a, CondGrammar.Parse(From(tok), 0).tree));
    }
  }
}
