/** The stack of expansion streams over the unread input, and the text it
    still stands for. */
module Stack {
  import opened Wrappers
  import opened Seqs
  import opened Tokens
  import opened MacroArgs
  import opened Substitution
  import opened Expansion
  import opened ExpansionLemmas

  type Stream = seq<Token>

  /** The unread rests of all streams, the top one first, and of the input. */
  datatype Pos = Pos(es: seq<Stream>, input: seq<Token>)

  /** A macro's stream ends with its Eom, an argument's with Eoa; an argument's
      stream whose Eoa has been read is empty. */
  predicate IsMacro(s: Stream) { s != [] && s[|s| - 1].kind == Eom }

  function Owner(s: Stream): Name
    requires s != []
  {
    s[|s| - 1].text
  }

  /** The macros whose Eom is still to be read. */
  function Eoms(es: seq<Stream>): set<Name> {
    if es == [] then {} else (if IsMacro(es[0]) then {Owner(es[0])} else {}) + Eoms(es[1..])
  }

  predicate StreamOk(env: Env, s: Stream) {
    && s != []
    && (forall i :: 0 <= i < |s| - 1 ==> PlainToken(s[i]))
    && (IsMacro(s) ==> Owner(s) in env.table && (ObjectLike(env) || Ahead(s).openers == 0))
    && (!IsMacro(s) ==> s[|s| - 1].kind == Eoa)
  }

  /** Every stream is well formed and no macro has two streams. */
  predicate StackOk(env: Env, es: seq<Stream>) {
    es == [] || (
      && StreamOk(env, es[0])
      && StackOk(env, es[1..])
      && (IsMacro(es[0]) ==> Owner(es[0]) !in Eoms(es[1..])))
  }

  function Top(p: Pos): seq<Token> { if p.es == [] then p.input else p.es[0] }

  function SetTop(p: Pos, s: seq<Token>): Pos {
    if p.es == [] then Pos([], s) else Pos(p.es[0 := s], p.input)
  }

  /** Puts a token back where it was read. */
  function Unget(t: Token, p: Pos): Pos {
    if t.kind == Eof then p else SetTop(p, [t] + Top(p))
  }

  /** Without the macro streams of which only the Eom is left on top. */
  function Norm(p: Pos): Pos
    decreases |p.es|
  {
    if p.es != [] && p.es[0] != [] && p.es[0][0].kind == Eom then Norm(Pos(p.es[1..], p.input)) else p
  }

  function NextToken(p: Pos): Token {
    var s := Top(Norm(p));
    if s == [] then EOF else s[0]
  }

  function NextPos(p: Pos): Pos {
    var s := Top(Norm(p));
    if s == [] then Norm(p) else SetTop(Norm(p), s[1..])
  }

  /** What lies below the nearest argument stream, which nothing above may touch. */
  function Frame(p: Pos): Option<Pos>
    decreases |p.es|
  {
    if p.es == [] then None
    else if !IsMacro(p.es[0]) then Some(Pos(p.es[1..], p.input))
    else Frame(Pos(p.es[1..], p.input))
  }

  /** The expansion of everything that can be read before the nearest end of
      argument, or before the end of the input. */
  ghost function Run(env: Env, p: Pos, dg: Option<Token>): (r: Outcome)
    requires Waiting(env, Eoms(p.es), dg)
    decreases |p.es|, 1
  {
    Cont(env, p, Resume(env, Eoms(p.es), dg, Top(p)))
  }

  /** What follows once the top level has come to r. */
  ghost function Cont(env: Env, p: Pos, r: Outcome): Outcome
    requires Waiting(env, Eoms(p.es), r.dangle)
    decreases |p.es|, 0
  {
    if p.es == [] || !IsMacro(p.es[0]) then Finish(r)
    else Then(r, Run(env, Pos(p.es[1..], p.input), r.dangle))
  }

  /** Two positions that differ at most in what is left of the top level. */
  predicate SameBelow(p: Pos, q: Pos) {
    && (p.es == [] <==> q.es == [])
    && (p.es != [] ==> p.es[1..] == q.es[1..] && p.input == q.input && IsMacro(p.es[0]) == IsMacro(q.es[0]))
  }

  /** a puts out o and then does what b does, in more steps. */
  predicate Leads(a: Outcome, o: seq<Token>, b: Outcome) {
    a.ok == b.ok && a.out == o + b.out && b.steps < a.steps
  }

  predicate Same(a: Outcome, b: Outcome) { a.ok == b.ok && a.out == b.out && b.steps <= a.steps }

  // -------------------------------------------------------------------
  // Streams and frames.
  // -------------------------------------------------------------------

  /** s is what is left of t after some reading. */
  predicate Suffix(s: seq<Token>, t: seq<Token>) { s == t || (t != [] && Suffix(s, t[1..])) }

  lemma {:induction false} SuffixTrans(a: seq<Token>, b: seq<Token>, c: seq<Token>)
    requires Suffix(a, b) && Suffix(b, c)
    ensures Suffix(a, c)
  {
    if b != c {
      SuffixTrans(a, b, c[1..]);
    }
  }

  lemma {:induction false} SkippedSuffix(s: seq<Token>)
    ensures Suffix(SkipNl(s), s)
  {
    if s != [] && s[0].kind == Newline {
      SkippedSuffix(s[1..]);
    }
  }

  lemma {:induction false} InputSuffix(t: seq<Token>, s: seq<Token>)
    requires Suffix(s, t) && NoSentinel(t)
    ensures NoSentinel(s)
  {
    if s != t {
      InputSuffix(t[1..], s);
    }
  }

  lemma {:induction false} StreamTail(env: Env, s: Stream)
    requires StreamOk(env, s) && |s| > 1
    ensures StreamOk(env, s[1..]) && IsMacro(s[1..]) == IsMacro(s) && Owner(s[1..]) == Owner(s)
  {
    assert !AtEnd(s);
  }

  /** A non-empty rest of a stream is a stream of the same kind. */
  lemma {:induction false} StreamSuffix(env: Env, s: Stream, t: Stream)
    requires StreamOk(env, t) && Suffix(s, t) && s != []
    ensures StreamOk(env, s) && IsMacro(s) == IsMacro(t) && Owner(s) == Owner(t)
  {
    if s != t && |t| > 1 {
      StreamTail(env, t);
      StreamSuffix(env, s, t[1..]);
    }
  }

  lemma {:induction false} NormOk(env: Env, p: Pos)
    requires StackOk(env, p.es)
    ensures StackOk(env, Norm(p).es) && Frame(Norm(p)) == Frame(p) && Norm(p).input == p.input
    ensures Norm(p).es != [] ==> Top(Norm(p)) != [] && Top(Norm(p))[0].kind != Eom
    ensures Eoms(Norm(p).es) <= Eoms(p.es)
    decreases |p.es|
  {
    if p.es != [] && p.es[0][0].kind == Eom {
      assert |p.es[0]| == 1;
      NormOk(env, Pos(p.es[1..], p.input));
    }
  }

  lemma {:induction false} SetTopOk(env: Env, p: Pos, s: seq<Token>)
    requires StackOk(env, p.es) && Suffix(s, Top(p)) && (p.es != [] ==> s != [])
    ensures var q := SetTop(p, s);
            && StackOk(env, q.es) && Eoms(q.es) == Eoms(p.es) && SameBelow(p, q) && Top(q) == s
            && Frame(q).Some? == Frame(p).Some? && (Frame(p).Some? ==> Frame(q) == Frame(p))
  {
    if p.es != [] {
      StreamSuffix(env, s, p.es[0]);
      assert p.es[0 := s][1..] == p.es[1..];
    }
  }

  // -------------------------------------------------------------------
  // How single steps of the machine change what is left to put out.
  // -------------------------------------------------------------------

  lemma {:induction false} FinishEmit(o: seq<Token>, r: Outcome)
    ensures Leads(Finish(Emit(o, r)), o, Finish(r))
  {
    if r.ok && r.dangle.Some? {
      assert (o + r.out) + [r.dangle.value] == o + (r.out + [r.dangle.value]);
    }
  }

  lemma {:induction false} ThenEmit(o: seq<Token>, r: Outcome, c: Outcome)
    ensures Leads(Then(Emit(o, r), c), o, Then(r, c))
  {
    assert (o + r.out) + c.out == o + (r.out + c.out);
  }

  lemma {:induction false} ThenThen(a: Outcome, b: Outcome, c: Outcome)
    requires a.ok
    ensures Leads(Then(Then(a, b), c), a.out, Then(b, c))
    ensures Then(Then(a, b), c).steps == a.steps + Then(b, c).steps + 1
    ensures Same(Then(a, Then(b, c)), Then(Then(a, b), c)) && Same(Then(Then(a, b), c), Then(a, Then(b, c)))
  {
    assert (a.out + b.out) + c.out == a.out + (b.out + c.out);
  }

  lemma {:induction false} ContEmit(env: Env, p: Pos, o: seq<Token>, r: Outcome)
    requires Waiting(env, Eoms(p.es), r.dangle)
    ensures Leads(Cont(env, p, Emit(o, r)), o, Cont(env, p, r))
  {
    if p.es == [] || !IsMacro(p.es[0]) {
      FinishEmit(o, r);
    } else {
      ThenEmit(o, r, Run(env, Pos(p.es[1..], p.input), r.dangle));
    }
  }

  lemma {:induction false} ContTick(env: Env, p: Pos, k: nat, r: Outcome)
    requires Waiting(env, Eoms(p.es), r.dangle)
    ensures var a, b := Cont(env, p, Tick(k, r)), Cont(env, p, r);
            a.ok == b.ok && a.out == b.out && a.steps == b.steps + k
  {
  }

  lemma {:induction false} RunNorm(env: Env, p: Pos, dg: Option<Token>)
    requires StackOk(env, p.es) && Waiting(env, Eoms(p.es), dg)
    ensures Waiting(env, Eoms(Norm(p).es), dg)
    ensures Same(Run(env, p, dg), Run(env, Norm(p), dg))
    decreases |p.es|
  {
    if p.es != [] && p.es[0][0].kind == Eom {
      assert |p.es[0]| == 1;
      var below := Pos(p.es[1..], p.input);
      RunNorm(env, below, dg);
      assert SkipNl(p.es[0]) == p.es[0];
      assert AtEnd(p.es[0]) && IsMacro(p.es[0]);
      assert Level(env, Eoms(p.es), p.es[0]) == Outcome(true, [], None, 0);
      assert Resume(env, Eoms(p.es), dg, p.es[0]) == Outcome(true, [], dg, 0);
      assert [] + Run(env, below, dg).out == Run(env, below, dg).out;
    }
  }

  /** On top of a normal stack there is something to read. */
  predicate Normal(p: Pos) { p.es != [] ==> p.es[0] != [] && p.es[0][0].kind != Eom }

  /** Reading at the end of the input or of an argument puts nothing out. */
  lemma {:induction false} RunEnd(env: Env, p: Pos)
    requires StackOk(env, p.es) && Normal(p) && AtEnd(Top(p))
    ensures Run(env, p, None).ok && Run(env, p, None).out == []
  {
    assert Level(env, Eoms(p.es), Top(p)) == Outcome(true, [], None, 0);
  }

  lemma {:induction false} RunInput(env: Env, input: seq<Token>)
    ensures Run(env, Pos([], input), None) == Expanded(env, input)
  {
    assert Resume(env, {}, None, input) == Level(env, {}, input);
    assert Cont(env, Pos([], input), Level(env, {}, input)) == Expanded(env, input);
  }

  lemma {:induction false} RunNothing(env: Env)
    ensures Run(env, Pos([], []), None).steps == 0
  {
    RunInput(env, []);
    assert Level(env, {}, []) == Outcome(true, [], None, 0);
  }

  /** A token that is no name of a macro, or a painted one, or the name of a
      macro whose end is still to be read: it is put out, painted in the last
      case. */
  lemma {:induction false} RunKeep(env: Env, p: Pos, t: Token)
    requires StackOk(env, p.es) && !Sentinel(t)
    requires t.kind != Identifier || t.flags.noexpand || t.text !in env.table || t.text in Eoms(p.es)
    ensures Eoms(Unget(t, p).es) == Eoms(p.es)
    ensures var dead := t.kind == Identifier && t.text in env.table && t.text in Eoms(p.es);
            Leads(Run(env, Unget(t, p), None), [if dead then t.(flags := t.flags.(noexpand := true)) else t],
                  Run(env, p, None))
  {
    var q := Unget(t, p);
    UngetTop(env, t, p);
    var t' := if Judge(env, Eoms(p.es), t).Paint? then Painted(t) else t;
    var r := Level(env, Eoms(p.es), Top(p));
    assert Level(env, Eoms(p.es), Top(q)) == Emit([t'], r);
    ContEmit(env, q, [t'], r);
    ContBelow(env, q, p, r);
  }

  lemma {:induction false} UngetTop(env: Env, t: Token, p: Pos)
    requires StackOk(env, p.es) && !Sentinel(t)
    ensures var q := Unget(t, p);
            && Eoms(q.es) == Eoms(p.es)
            && Top(q) == [t] + Top(p) && Top(q)[1..] == Top(p)
            && SameBelow(p, q)
  {
    var q := Unget(t, p);
    if p.es != [] {
      assert q.es[1..] == p.es[1..];
    }
  }

  lemma {:induction false} ContBelow(env: Env, p: Pos, q: Pos, r: Outcome)
    requires SameBelow(p, q) && Eoms(p.es) == Eoms(q.es) && Waiting(env, Eoms(p.es), r.dangle)
    ensures Cont(env, p, r) == Cont(env, q, r)
  {
  }

  /** Entering a replacement list: a new stream goes on the stack. */
  function Push(n: Name, b: seq<Token>, p: Pos): Pos { Pos([b + [EomOf(n)]] + p.es, p.input) }

  lemma {:induction false} PushOk(env: Env, n: Name, b: seq<Token>, p: Pos)
    requires StackOk(env, p.es) && n in env.table && n !in Eoms(p.es) && Obeys(RuleOf(env), b)
    ensures var q := Push(n, b, p);
            && StackOk(env, q.es) && Frame(q) == Frame(p)
            && Eoms(q.es) == Eoms(p.es) + {n}
  {
    var s := b + [EomOf(n)];
    ProfPlain(b);
    AheadEnded(b, EomOf(n));
    assert Push(n, b, p).es[1..] == p.es;
    assert Pos(p.es, p.input) == p;
    assert StreamOk(env, s);
  }

  lemma {:induction false} ThenFinish(a: Outcome, b: Outcome)
    ensures Same(Finish(Then(a, b)), Then(a, Finish(b)))
  {
    if a.ok && b.ok && b.dangle.Some? {
      assert (a.out + b.out) + [b.dangle.value] == a.out + (b.out + [b.dangle.value]);
    }
  }

  lemma {:induction false} RunInside(env: Env, p: Pos, n: Name, b: seq<Token>, bound: nat)
    requires n in env.table && n !in Eoms(p.es) && |Top(p)| < bound
    ensures Same(Cont(env, p, Inside(env, Eoms(p.es), n, b, Top(p), bound)), Run(env, Push(n, b, p), None))
  {
    hide Level;
    var d, q := Eoms(p.es), Push(n, b, p);
    EnabledDrops(env, d, n);
    var s := b + [EomOf(n)];
    assert q.es[1..] == p.es && Pos(p.es, p.input) == p;
    assert Eoms(q.es) == d + {n};
    var a := Level(env, d + {n}, s);
    var x := Resume(env, d, a.dangle, Top(p));
    assert Resume(env, d + {n}, None, s) == a;
    assert Inside(env, d, n, b, Top(p), bound) == Then(a, x);
    assert Run(env, p, a.dangle) == Cont(env, p, x);
    assert IsMacro(q.es[0]) && Cont(env, q, a) == Then(a, Run(env, p, a.dangle));
    assert Run(env, q, None) == Cont(env, q, a);
    if p.es == [] || !IsMacro(p.es[0]) {
      ThenFinish(a, x);
    } else {
      var c := Run(env, Pos(p.es[1..], p.input), x.dangle);
      if a.ok {
        ThenThen(a, x, c);
      }
      assert Cont(env, p, x) == Then(x, c);
    }
  }

  /** An object-like name in hand: its replacement is entered, or its
      substitution failed. */
  lemma {:induction false} RunOpen(env: Env, p: Pos, t: Token)
    requires StackOk(env, p.es) && Replaceable(env, Eoms(p.es), t) && !env.table[t.text].func
    ensures Eoms(Unget(t, p).es) == Eoms(p.es)
    ensures var m := env.table[t.text];
            var r := Run(env, Unget(t, p), None);
            match Subst(env.lexis, m, t, [])
            case None => !r.ok && r.out == []
            case Some(b) => Leads(r, [], Run(env, Push(t.text, b, p), None))
  {
    var q := Unget(t, p);
    UngetTop(env, t, p);
    var d, m := Eoms(p.es), env.table[t.text];
    match Subst(env.lexis, m, t, [])
    case None =>
      assert Level(env, d, Top(q)) == FAIL;
    case Some(b) =>
      var r := Inside(env, d, t.text, b, Top(p), |Top(q)|);
      assert Level(env, d, Top(q)) == Tick(1, r);
      ContTick(env, q, 1, r);
      ContBelow(env, q, p, r);
      RunInside(env, p, t.text, b, |Top(q)|);
  }

  /** A function-like name in hand: what happens depends on what follows it. */
  lemma {:induction false} RunWait(env: Env, p: Pos, t: Token)
    requires StackOk(env, p.es) && Judge(env, Eoms(p.es), t).Wait?
    ensures Eoms(Unget(t, p).es) == Eoms(p.es)
    ensures Waiting(env, Eoms(Norm(p).es), Some(t))
    ensures Leads(Run(env, Unget(t, p), None), [], Run(env, Norm(p), Some(t)))
  {
    var q := Unget(t, p);
    UngetTop(env, t, p);
    var d := Eoms(p.es);
    var r := Resume(env, d, Some(t), Top(p));
    assert Level(env, d, Top(q)) == Tick(1, r);
    ContBelow(env, q, p, r);
    ContTick(env, q, 1, r);
    RunNorm(env, p, Some(t));
  }

  lemma {:induction false} StreamSkipNl(s: Stream)
    requires s != [] && Sentinel(s[|s| - 1])
    ensures SkipNl(s) != []
  {
    if s[0].kind == Newline {
      StreamSkipNl(s[1..]);
    }
  }

  /** The name is not followed by '(' : it is put out as it is. */
  lemma {:induction false} RunGiveUp(env: Env, p: Pos, f: Token, r: seq<Token>)
    requires StackOk(env, p.es) && Normal(p) && Replaceable(env, Eoms(p.es), f) && env.table[f.text].func
    requires r == SkipNl(Top(p)) && (AtEnd(r) || r[0].kind != LParen)
    ensures Eoms(SetTop(p, r).es) == Eoms(p.es)
    ensures var a, b := Run(env, p, Some(f)), Run(env, SetTop(p, r), None);
            a.ok == b.ok && a.out == [f] + b.out && b.steps <= a.steps
  {
    SkippedSuffix(Top(p));
    if p.es != [] {
      StreamSkipNl(p.es[0]);
    }
    SetTopOk(env, p, r);
    var d, q := Eoms(p.es), SetTop(p, r);
    if AtEnd(r) {
      assert Resume(env, d, Some(f), Top(p)) == Outcome(true, [], Some(f), 0);
      assert p.es != [] ==> !IsMacro(p.es[0]);
      assert Level(env, d, Top(q)) == Outcome(true, [], None, 0);
    } else {
      var x := Level(env, d, r);
      assert Resume(env, d, Some(f), Top(p)) == Emit([f], x);
      ContEmit(env, p, [f], x);
      ContBelow(env, p, q, x);
    }
  }

  // -------------------------------------------------------------------
  // A token in hand, taken from a fixed position.
  // -------------------------------------------------------------------

  function First(s: seq<Token>): Token { if s == [] then EOF else s[0] }

  function Rest(s: seq<Token>): seq<Token> { if s == [] then [] else s[1..] }

  lemma {:induction false} CollectOneSuffix(s: seq<Token>, paren: nat, va: bool)
    requires OffNl(s) && CollectOne(s, paren, va).Some?
    ensures Suffix(CollectOne(s, paren, va).value.rest, s)
    decreases |s|
  {
    if paren == 0 && (s[0].kind == RParen || (!va && s[0].kind == Comma)) {
    } else {
      SkippedSuffix(s[1..]);
      var o := CollectOne(SkipNl(s[1..]), Nest(s[0], paren), va).value;
      CollectOneSuffix(SkipNl(s[1..]), Nest(s[0], paren), va);
      SuffixTrans(o.rest, SkipNl(s[1..]), s[1..]);
    }
  }

  /** What is left after the arguments is what follows a ')' of the text. */
  lemma {:induction false} CollectFromSuffix(params: seq<Name>, i: nat, s: seq<Token>, args: seq<Arg>)
      returns (e: seq<Token>)
    requires i <= |params| && OffNl(s)
    requires CollectFrom(params, i, s, args).Some?
    ensures Suffix(e, s) && e != [] && e[0].kind == RParen && CollectFrom(params, i, s, args).value.rest == e[1..]
    decreases |params| - i
  {
    if i == |params| || (i > 0 && s[0].kind != Comma) {
      e := s;
    } else {
      var s1 := if i > 0 then SkipNl(s[1..]) else s;
      if i > 0 {
        SkippedSuffix(s[1..]);
      }
      CollectOneSuffix(s1, 0, params[i] == VA_ARGS);
      var o := CollectOne(s1, 0, params[i] == VA_ARGS).value;
      e := CollectFromSuffix(params, i + 1, o.rest, args + [Arg(params[i], o.body, [], false)]);
      SuffixTrans(e, o.rest, s1);
      SuffixTrans(e, s1, s);
    }
  }

  /** What is left after a call is still a level of the same stream. */
  lemma {:induction false} RestTop(env: Env, p: Pos, r: seq<Token>, params: seq<Name>)
    requires StackOk(env, p.es) && r == SkipNl(Top(p)) && r != []
    requires Collect(params, r[1..]).Some?
    ensures var rest := Collect(params, r[1..]).value.rest;
            && Suffix(rest, Top(p)) && (p.es != [] ==> rest != [])
            && SameBelow(p, SetTop(p, rest)) && Eoms(SetTop(p, rest).es) == Eoms(p.es) && Top(SetTop(p, rest)) == rest
  {
    var rest := Collect(params, r[1..]).value.rest;
    var e := CollectFromSuffix(params, 0, SkipNl(r[1..]), []);
    SkippedSuffix(r[1..]);
    SkippedSuffix(Top(p));
    SuffixTrans(e, SkipNl(r[1..]), r);
    SuffixTrans(e, r, Top(p));
    SuffixTrans(rest, e, Top(p));
    if p.es != [] {
      StreamSuffix(env, e, p.es[0]);
    }
    SetTopOk(env, p, rest);
  }

  /** The prescan of the arguments of a call whose '(' begins r. */
  ghost function CallScan(env: Env, d: set<Name>, m: Macro, r: seq<Token>): Scanned
    requires r != [] && Collect(m.params, r[1..]).Some?
  {
    CollectBound(m.params, 0, SkipNl(r[1..]), [], |r[1..]|);
    PrescanFrom(env, d, m, Collect(m.params, r[1..]).value.args, 0, |r|)
  }

  /** A call that fails puts nothing out. */
  lemma {:induction false} RunCallFails(env: Env, p: Pos, f: Token, r: seq<Token>)
    requires Judge(env, Eoms(p.es), f).Wait?
    requires r == SkipNl(Top(p)) && !AtEnd(r) && r[0].kind == LParen
    requires var m, c := Judge(env, Eoms(p.es), f).m, Collect(Judge(env, Eoms(p.es), f).m.params, r[1..]);
             c.Some? ==>
               var q := CallScan(env, Eoms(p.es), m, r);
               !q.ok || Subst(env.lexis, m, f, q.args).None?
    ensures !Run(env, p, Some(f)).ok && Run(env, p, Some(f)).out == []
  {
    assert Resume(env, Eoms(p.es), Some(f), Top(p)) == Call(env, Eoms(p.es), f, r);
  }

  lemma {:induction false} CallSteps(env: Env, p: Pos, f: Token, r: seq<Token>)
    requires Judge(env, Eoms(p.es), f).Wait?
    requires r == SkipNl(Top(p)) && !AtEnd(r) && r[0].kind == LParen
    requires Collect(Judge(env, Eoms(p.es), f).m.params, r[1..]).Some?
    ensures CallScan(env, Eoms(p.es), Judge(env, Eoms(p.es), f).m, r).steps < Run(env, p, Some(f)).steps
  {
    assert Resume(env, Eoms(p.es), Some(f), Top(p)) == Call(env, Eoms(p.es), f, r);
    var d, m := Eoms(p.es), Judge(env, Eoms(p.es), f).m;
    var q := CallScan(env, d, m, r);
    assert Call(env, d, f, r).steps > q.steps;
  }

  /** A call that succeeds enters the replacement, on top of what is left. */
  lemma {:induction false} RunCall(env: Env, p: Pos, f: Token, r: seq<Token>, b: seq<Token>)
    requires StackOk(env, p.es) && Replaceable(env, Eoms(p.es), f) && env.table[f.text].func
    requires r == SkipNl(Top(p)) && !AtEnd(r) && r[0].kind == LParen
    requires Collect(env.table[f.text].params, r[1..]).Some?
    requires var m := env.table[f.text];
             var q := CallScan(env, Eoms(p.es), m, r);
             q.ok && Subst(env.lexis, m, f, q.args) == Some(b)
    ensures var rest := Collect(env.table[f.text].params, r[1..]).value.rest;
            Same(Run(env, p, Some(f)), Run(env, Push(f.text, b, SetTop(p, rest)), None))
  {
    var d, m := Eoms(p.es), Judge(env, Eoms(p.es), f).m;
    var rest := Collect(m.params, r[1..]).value.rest;
    var q := CallScan(env, d, m, r);
    var y := Inside(env, d, f.text, b, rest, |r|);
    assert Call(env, d, f, r) == Tick(q.steps + 1, y);
    assert Resume(env, d, Some(f), Top(p)) == Call(env, d, f, r);
    RestTop(env, p, r, m.params);
    ContTick(env, p, q.steps + 1, y);
    ContBelow(env, p, SetTop(p, rest), y);
    RunInside(env, SetTop(p, rest), f.text, b, |r|);
  }

  // -------------------------------------------------------------------
  // Reading one token.
  // -------------------------------------------------------------------

  lemma {:induction false} NextPushedBack(t: Token, p: Pos)
    requires t.kind != Eom && (t.kind == Eof ==> p == Pos([], []) && t == EOF)
    ensures NextToken(Unget(t, p)) == t && NextPos(Unget(t, p)) == p
    ensures t.kind != Eof ==> Eoms(Unget(t, p).es) == Eoms(p.es)
  {
    var q := Unget(t, p);
    if p.es != [] {
      var s := [t] + p.es[0];
      assert s[1..] == p.es[0];
      assert q.es[1..] == p.es[1..];
      assert q.es[0 := s[1..]] == p.es;
    } else if t.kind != Eof {
      assert q.input[1..] == p.input;
    }
  }

  lemma {:induction false} NextPop(env: Env, p: Pos)
    requires StackOk(env, p.es) && p.es != [] && p.es[0][0].kind == Eom
    ensures var q := Pos(p.es[1..], p.input);
            && NextToken(p) == NextToken(q) && NextPos(p) == NextPos(q)
            && Eoms(p.es) - {p.es[0][0].text} == Eoms(q.es)
  {
    assert |p.es[0]| == 1;
  }

  lemma {:induction false} NextTop(env: Env, p: Pos)
    requires StackOk(env, p.es) && p.es != [] && p.es[0][0].kind != Eom
    ensures NextToken(p) == p.es[0][0] && NextPos(p) == Pos(p.es[0 := p.es[0][1..]], p.input)
    ensures Eoms(NextPos(p).es) == Eoms(p.es)
  {
    var s := p.es[0];
    assert p.es[0 := s[1..]][1..] == p.es[1..];
    if |s| > 1 {
      StreamTail(env, s);
    }
  }

  /** An argument collected in part. */
  function After(body: seq<Token>, r: Option<One>): Option<One> {
    match r
    case None => None
    case Some(o) => Some(One(body + o.body, o.rest))
  }

  lemma {:induction false} AfterNothing(r: Option<One>)
    ensures After([], r) == r
  {
    if r.Some? {
      assert [] + r.value.body == r.value.body;
    }
  }

  lemma {:induction false} AfterLast(body: seq<Token>, s: seq<Token>, va: bool)
    requires OffNl(s) && !AtEnd(s) && (s[0].kind == RParen || (!va && s[0].kind == Comma))
    ensures After(body, CollectOne(s, 0, va)) == Some(One(body, s))
  {
    assert body + [] == body;
  }

  lemma {:induction false} AfterEnd(body: seq<Token>, s: seq<Token>, paren: nat, va: bool)
    requires OffNl(s)
    ensures AtEnd(s) ==> After(body, CollectOne(s, paren, va)) == None
  {
  }

  lemma {:induction false} AfterStep(body: seq<Token>, s: seq<Token>, paren: nat, va: bool)
    requires OffNl(s) && !AtEnd(s) && !(paren == 0 && (s[0].kind == RParen || (!va && s[0].kind == Comma)))
    ensures After(body, CollectOne(s, paren, va))
         == After(body + [Settle(s[0])], CollectOne(SkipNl(s[1..]), Nest(s[0], paren), va))
  {
    match CollectOne(SkipNl(s[1..]), Nest(s[0], paren), va)
    case None =>
    case Some(o) => assert body + ([Settle(s[0])] + o.body) == body + [Settle(s[0])] + o.body;
  }

  /** Behind a '(' of a macro stream its ')' is still to come. */
  lemma {:induction false} AfterParen(env: Env, p: Pos, r: seq<Token>)
    requires StackOk(env, p.es) && Suffix(r, Top(p)) && r != [] && r[0].kind == LParen && !ObjectLike(env)
    ensures p.es != [] ==> r[1..] != [] && (IsMacro(p.es[0]) ==> Ahead(r[1..]).closers >= 1)
  {
    if p.es != [] {
      StreamSuffix(env, r, p.es[0]);
      assert |r| > 1 && !AtEnd(r);
    }
  }

  lemma {:induction false} NormalAhead(env: Env, p: Pos)
    requires StackOk(env, p.es)
    requires p.es != [] && IsMacro(p.es[0]) ==> Ahead(p.es[0]).closers >= 1
    ensures Norm(p) == p
  {
  }

  // -------------------------------------------------------------------
  // Argument streams.
  // -------------------------------------------------------------------

  predicate SameFrame(p: Pos, q: Pos) {
    Frame(p).Some? == Frame(q).Some? && (Frame(p).Some? ==> Frame(p) == Frame(q))
  }

  function PushArg(body: seq<Token>, p: Pos): Pos { Pos([body + [EOA]] + p.es, p.input) }

  lemma {:induction false} PushArgOk(env: Env, p: Pos, body: seq<Token>)
    requires StackOk(env, p.es) && Plain(body)
    ensures var q := PushArg(body, p);
            && StackOk(env, q.es) && Eoms(q.es) == Eoms(p.es) && Frame(q) == Some(p)
            && Run(env, q, None) == Finish(Level(env, Eoms(p.es), body + [EOA]))
  {
    var q := PushArg(body, p);
    assert q.es[1..] == p.es;
    assert Eoms(q.es) == Eoms(p.es);
    assert Resume(env, Eoms(q.es), None, Top(q)) == Level(env, Eoms(q.es), Top(q));
  }

  /** Above an argument stream reading never gets past its Eoa. */
  lemma {:induction false} FrameTop(env: Env, q: Pos)
    requires StackOk(env, q.es) && Normal(q)
    ensures q.es != [] && q.es[0][0].kind == Eoa ==> |q.es[0]| == 1 && Frame(q) == Some(Pos(q.es[1..], q.input))
    ensures q.es != [] && q.es[0][0].kind != Eoa ==> PlainToken(q.es[0][0])
    ensures Frame(q).Some? ==> q.es != []
  {
  }

  /** Reading an ordinary token: putting it back restores the position. */
  lemma {:induction false} ReadOk(env: Env, v: Pos)
    requires StackOk(env, v.es) && NoSentinel(v.input) && !Sentinel(NextToken(v))
    ensures var q := NextPos(v);
            && StackOk(env, q.es) && NoSentinel(q.input) && SameFrame(v, q)
            && Unget(NextToken(v), q) == Norm(v) && Eoms(q.es) == Eoms(Norm(v).es)
  {
    NormOk(env, v);
    var n := Norm(v);
    var s := Top(n);
    assert [s[0]] + s[1..] == s;
    if n.es != [] {
      assert |s| > 1;
      assert n.es[0 := s[1..]][0 := s] == n.es;
    } else {
      InputSuffix(n.input, s[1..]);
    }
    SetTopOk(env, n, s[1..]);
  }

  /** goal is what has been put out so far followed by what is left. */
  predicate Gives(goal: Outcome, out: seq<Token>, left: Outcome) { goal.ok == left.ok && goal.out == out + left.out }

  lemma {:induction false} GivesNext(goal: Outcome, out: seq<Token>, a: Outcome, o: seq<Token>, b: Outcome)
    requires Gives(goal, out, a) && Leads(a, o, b)
    ensures Gives(goal, out + o, b) && (o == [] ==> Gives(goal, out, b))
  {
    assert (out + o) + b.out == out + (o + b.out);
  }

  lemma {:induction false} GivesEnd(goal: Outcome, out: seq<Token>, left: Outcome)
    requires Gives(goal, out, left) && left.out == []
    ensures goal.out == out && goal.ok == left.ok
  {
    assert out + [] == out;
  }

  lemma {:induction false} GivesStart(goal: Outcome)
    ensures Gives(goal, [], goal)
  {
  }

  lemma {:induction false} SettledSnoc(s: seq<Token>, t: Token)
    ensures Settled(s + [t]) == Settled(s) + [t.(flags := t.flags.(bol := false))]
  {
  }

  lemma {:induction false} UngetRest(p: Pos, s: seq<Token>)
    requires p.es != [] ==> s != []
    requires s != [] ==> s[0].kind != Eof
    ensures Unget(First(s), SetTop(p, Rest(s))) == SetTop(p, s)
  {
    if s != [] {
      assert [s[0]] + s[1..] == s;
      if p.es != [] {
        assert p.es[0 := s[1..]][0 := s] == p.es[0 := s];
      }
    }
  }

  lemma {:induction false} SetTopTop(p: Pos, s: seq<Token>)
    ensures Top(SetTop(p, s)) == s
    ensures forall t :: SetTop(SetTop(p, s), t) == SetTop(p, t)
  {
    if p.es != [] {
      forall t ensures SetTop(SetTop(p, s), t) == SetTop(p, t) {
        assert p.es[0 := s][0 := t] == p.es[0 := t];
      }
    }
  }

  /** A text without its newlines. */
  function NoNl(s: seq<Token>): seq<Token> {
    if s == [] then [] else (if s[0].kind == Newline then [] else [s[0]]) + NoNl(s[1..])
  }

  predicate OneLine(s: seq<Token>) { forall i :: 0 <= i < |s| ==> s[i].kind != Newline }

  lemma {:induction false} NoNlConcat(a: seq<Token>, b: seq<Token>)
    ensures NoNl(a + b) == NoNl(a) + NoNl(b)
  {
    if a == [] {
      assert a + b == b;
    } else {
      NoNlConcat(a[1..], b);
      assert (a + b)[1..] == a[1..] + b;
      Assoc(if a[0].kind == Newline then [] else [a[0]], NoNl(a[1..]), NoNl(b));
    }
  }

  lemma {:induction false} NoNlSnoc(a: seq<Token>, t: Token)
    ensures NoNl(a + [t]) == NoNl(a) + if t.kind == Newline then [] else [t]
  {
    NoNlConcat(a, [t]);
    assert [t][1..] == [];
  }

  lemma {:induction false} GivesLine(goal: Outcome, out: seq<Token>, left: Outcome)
    requires Gives(goal, out, left)
    ensures goal.ok == left.ok && NoNl(goal.out) == NoNl(out) + NoNl(left.out)
  {
    NoNlConcat(out, left.out);
  }
}
