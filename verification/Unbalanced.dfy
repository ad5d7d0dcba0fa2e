/** Why no '(' may be unmatched in a replacement list when there are function-like
    macros: reading past the end of the list in the middle of an argument
    enables its macro again before the argument is prescanned, and then prescans
    can nest for ever. */
module Unbalanced {
  import opened Wrappers
  import opened Tokens
  import opened MacroArgs
  import opened Substitution
  import opened Prescan
  import opened Expansion
  import opened Stack

  /** The tokens the machine would deliver one after the other, up to the
      nearest end of argument. */
  function Seen(es: seq<Stream>, input: seq<Token>): seq<Token> {
    if es == [] then input
    else if IsMacro(es[0]) then es[0][..|es[0]| - 1] + Seen(es[1..], input)
    else es[0]
  }

  function Skipped(p: Pos, k: nat): Pos
    decreases k
  {
    if k == 0 then p else Skipped(NextPos(p), k - 1)
  }

  /** One turn of the loop of expand_arg: the next position, or the position in
      which the prescan of an argument of a call begins. */
  datatype Turned = To(q: Pos) | Into(q: Pos) | Stopped

  function Turn(env: Env, p: Pos): Turned {
    var t, q := NextToken(p), NextPos(p);
    if Sentinel(t) then Stopped
    else
      match Judge(env, Eoms(q.es), t)
      case Keep => To(q)
      case Paint => To(q)
      case Open(m) => (match Subst(env.lexis, m, t, []) case None => Stopped case Some(b) => To(Push(t.text, b, q)))
      case Wait(m) => Called(env, m, q)
  }

  /** The name of the function-like macro m has just been read. */
  function Called(env: Env, m: Macro, q: Pos): Turned {
    var seen := Seen(q.es, q.input);
    var s := SkipNl(seen);
    if AtEnd(s) || s[0].kind != LParen then To(q)
    else
      match Collect(m.params, s[1..])
      case None => Stopped
      case Some(c) =>
        if c.args == [] || !PreExpandOk(m, c.args[0].param) then Stopped
        else
          var after := Skipped(q, if |c.rest| <= |seen| then |seen| - |c.rest| else 0);
          Into(Pos([c.args[0].body + [EOA]] + after.es, after.input))
  }

  /** The first prescan entered within so many turns. */
  function Entered(env: Env, p: Pos, turns: nat): Option<Pos>
    decreases turns
  {
    if turns == 0 then None
    else
      match Turn(env, p)
      case Stopped => None
      case Into(q) => Some(q)
      case To(q) => Entered(env, q, turns - 1)
  }

  /** The n-th prescan of the chain that starts at p. */
  function Nested(env: Env, p: Pos, n: nat): Option<Pos>
    decreases n
  {
    if n == 0 then Some(p)
    else match Entered(env, p, 4) case None => None case Some(q) => Nested(env, q, n - 1)
  }

  // -------------------------------------------------------------------
  // The macros f(x) = x, m = f ( ( k ) and k = m.
  // -------------------------------------------------------------------

  const LP := Token(LParen, "(", PLAIN)
  const RP := Token(RParen, ")", PLAIN)
  function Id(n: Name): Token { Token(Identifier, n, PLAIN) }

  function OpenBody(): seq<Token> { [Id("f"), LP, LP, Id("k"), RP] }

  function Table(): map<Name, Macro> {
    map["f" := Macro(true, ["x"], [Id("x")]), "m" := Macro(false, [], OpenBody()), "k" := Macro(false, [], [Id("m")])]
  }

  /** These lists miss what is asked of a table by as little as can be: one of
      them leaves one '(' unmatched, and the others match. */
  lemma {:induction false} TableProfiles(lx: Lexis)
    ensures var env := Env(Table(), lx);
            && Clean(Table()["f"].body) && Clean(Table()["k"].body)
            && Prof(Table()["m"].body) == Profile(0, 1, true)
            && Lists(env, Loose) && RuleOf(env) == Shut && !EnvOk(env)
  {
    hide Prof;
    var env := Env(Table(), lx);
    var f, m, k := env.table["f"], env.table["m"], env.table["k"];
    ProfOne(Id("x"));
    ProfOne(Id("m"));
    BodyProfile();
    assert f.func && !ObjectLike(env);
    assert !Obeys(Shut, m.body);
    forall n | n in env.table ensures Obeys(Loose, env.table[n].body) {
      assert n == "f" || n == "m" || n == "k";
    }
  }

  lemma {:induction false} BodyProfile()
    ensures Prof(OpenBody()) == Profile(0, 1, true)
  {
    hide Prof, Prof1, Tail, Join;
    var m := Macro(false, [], OpenBody());
    TailEnds(m);
    forall i | 0 <= i < 5 ensures SingleProfile(m.body[i]) { SingleIs(m.body[i]); }
    var opener, closer := Profile(0, 1, true), Profile(1, 0, true);
    JoinPair(opener, closer);
    JoinUnit(opener);
    JoinUnit(closer);
    TailStep(m, 4);
    TailStep(m, 3);
    TailStep(m, 2);
    TailStep(m, 1);
    TailStep(m, 0);
  }

  predicate SingleProfile(t: Token) {
    && (t.kind == Identifier ==> Prof1(t) == NEUTRAL)
    && (t.kind == LParen ==> Prof1(t) == Profile(0, 1, true))
    && (t.kind == RParen ==> Prof1(t) == Profile(1, 0, true))
  }

  lemma {:induction false} SingleIs(t: Token)
    ensures SingleProfile(t)
  {
  }

  lemma {:induction false} JoinPair(a: Profile, b: Profile)
    requires a.openers == b.closers && a.closers == 0 && b.openers == 0 && a.plain && b.plain
    ensures Join(a, b) == NEUTRAL
  {
  }

  lemma {:induction false} TailEnds(m: Macro)
    ensures Tail(m, 0) == m.body && Prof(Tail(m, |m.body|)) == NEUTRAL
  {
    ProfNone();
  }

  /** The prescan of the argument ( k ) begins. */
  function Start(below: seq<Stream>, input: seq<Token>): Pos { Pos([[LP, Id("k"), RP, EOA]] + below, input) }

  /** A replacement list without operators and without the macro's own name is
      copied as it stands. */
  lemma {:induction false} Copies(lx: Lexis, m: Macro, t: Token, i: nat)
    requires i <= |m.body|
    requires forall j :: 0 <= j < |m.body| ==>
               m.body[j].kind in {Identifier, LParen, RParen} && m.body[j].text != t.text
    ensures SubstFrom(lx, m, t, Scan(i, m.body[..i], [])) == Some(m.body)
    decreases |m.body| - i
  {
    if i < |m.body| {
      assert FindArg([], m.body[i]).None?;
      assert m.body[..i] + [m.body[i]] == m.body[..i + 1];
      assert SubstStep(lx, m, t, Scan(i, m.body[..i], [])) == Some(Scan(i + 1, m.body[..i + 1], []));
      Copies(lx, m, t, i + 1);
    } else {
      assert m.body[..i] == m.body;
    }
  }

  lemma {:induction false} BodyTaken(lx: Lexis, n: Name)
    requires n == "m" || n == "k"
    ensures Subst(lx, Table()[n], Id(n), []) == Some(Table()[n].body)
  {
    var m, t := Table()[n], Id(n);
    Copies(lx, m, t, 0);
    assert Headed(m.body, t) == m.body;
  }

  lemma {:induction false} TakeOne(t: Token, s: seq<Token>, paren: nat, o: One)
    requires t.flags == PLAIN && PlainToken(t) && t.kind != Comma && (t.kind == RParen ==> paren > 0) && OffNl(s)
    requires CollectOne(s, Nest(t, paren), false) == Some(o)
    ensures CollectOne([t] + s, paren, false) == Some(One([t] + o.body, o.rest))
  {
    assert ([t] + s)[1..] == s;
  }

  /** The call f ( ( n ) ) collects the argument ( n ). */
  lemma {:induction false} Argument(n: Name, end: seq<Token>)
    ensures Collect(["x"], [LP, Id(n), RP, RP] + end) == Some(Collected([Arg("x", [LP, Id(n), RP], [], false)], end))
  {
    var rest := [RP] + end;
    assert CollectOne(rest, 0, false) == Some(One([], rest));
    TakeOne(RP, rest, 1, One([], rest));
    TakeOne(Id(n), [RP] + rest, 1, One([RP] + [], rest));
    TakeOne(LP, [Id(n)] + ([RP] + rest), 0, One([Id(n)] + ([RP] + []), rest));
    assert [LP] + ([Id(n)] + ([RP] + rest)) == [LP, Id(n), RP, RP] + end;
    assert [LP] + ([Id(n)] + ([RP] + [])) == [LP, Id(n), RP];
    var args := [Arg("x", [LP, Id(n), RP], [], false)];
    assert rest[1..] == end && [] + args == args;
    assert CollectFrom(["x"], 1, rest, args) == Some(Collected(args, end));
    assert CollectFrom(["x"], 0, [LP, Id(n), RP, RP] + end, []) == Some(Collected(args, end));
  }

  lemma {:induction false} FirstTurn(lx: Lexis, below: seq<Stream>, input: seq<Token>)
    ensures Turn(Env(Table(), lx), Start(below, input)) == To(Pos([[Id("k"), RP, EOA]] + below, input))
  {
    var p := Start(below, input);
    assert NextToken(p) == LP;
  }

  lemma {:induction false} Forward(t: Token, s: Stream, tail: seq<Stream>, input: seq<Token>)
    requires t.kind != Eom
    ensures NextPos(Pos([[t] + s] + tail, input)) == Pos([s] + tail, input)
            && NextToken(Pos([[t] + s] + tail, input)) == t
  {
    var es := [[t] + s] + tail;
    assert es[0][1..] == s && es[0 := s] == [s] + tail;
  }

  lemma {:induction false} ObjectName(lx: Lexis, d: set<Name>, n: Name)
    requires (n == "m" || n == "k") && n !in d
    ensures Judge(Env(Table(), lx), d, Id(n)) == Open(Table()[n])
  {
  }

  lemma {:induction false} TurnOpen(env: Env, p: Pos, n: Name, q: Pos, b: seq<Token>)
    requires NextToken(p) == Id(n) && NextPos(p) == q && Judge(env, Eoms(q.es), Id(n)).Open?
    requires Subst(env.lexis, Judge(env, Eoms(q.es), Id(n)).m, Id(n), []) == Some(b)
    ensures Turn(env, p) == To(Push(n, b, q))
  {
    hide NextToken, NextPos, Judge, Subst, Eoms, Push;
  }

  /** A name before s is replaced by its list. */
  lemma {:induction false} NameTurn(lx: Lexis, n: Name, s: Stream, tail: seq<Stream>, input: seq<Token>)
    requires (n == "m" || n == "k") && n !in Eoms([s] + tail)
    ensures Turn(Env(Table(), lx), Pos([[Id(n)] + s] + tail, input))
         == To(Pos([Table()[n].body + [EomOf(n)]] + ([s] + tail), input))
  {
    hide Turn, Subst, Judge, NextToken, NextPos, Eoms;
    var q := Pos([s] + tail, input);
    BodyTaken(lx, n);
    Forward(Id(n), s, tail, input);
    ObjectName(lx, Eoms(q.es), n);
    TurnOpen(Env(Table(), lx), Pos([[Id(n)] + s] + tail, input), n, q, Table()[n].body);
  }

  lemma {:induction false} SkippedOne(p: Pos, k: nat)
    ensures Skipped(p, k + 1) == Skipped(NextPos(p), k) && Skipped(p, 0) == p
  {
  }

  /** What stands on the stack when the list of m is being read. */
  function Under(below: seq<Stream>): seq<Stream> { [[EomOf("k")]] + ([[RP, EOA]] + below) }

  /** The ends of the replacement lists are passed without notice. */
  lemma {:induction false} PastEnd(below: seq<Stream>, input: seq<Token>)
    ensures NextPos(Pos([[EomOf("m")]] + Under(below), input)) == Pos([[EOA]] + below, input)
  {
    var tail := [[RP, EOA]] + below;
    assert ([[EomOf("m")]] + Under(below))[1..] == Under(below) && Under(below)[1..] == tail;
    assert tail[0 := [EOA]] == [[EOA]] + below;
    assert Norm(Pos(tail, input)) == Pos(tail, input);
    assert Norm(Pos(Under(below), input)) == Pos(tail, input);
    assert Norm(Pos([[EomOf("m")]] + Under(below), input)) == Pos(tail, input);
  }

  lemma {:induction false} SkipForward(t: Token, s: Stream, tail: seq<Stream>, input: seq<Token>, k: nat)
    requires t.kind != Eom
    ensures Skipped(Pos([[t] + s] + tail, input), k + 1) == Skipped(Pos([s] + tail, input), k)
  {
    hide Skipped, NextPos;
    Forward(t, s, tail, input);
    SkippedOne(Pos([[t] + s] + tail, input), k);
  }

  function Rest(): Stream { [LP, LP, Id("k"), RP, EomOf("m")] }

  /** Five tokens on: the rest of the replacement list, two ends, and a ')'. */
  lemma {:induction false} FiveRead(below: seq<Stream>, input: seq<Token>)
    ensures Skipped(Pos([Rest()] + Under(below), input), 5) == Pos([[EOA]] + below, input)
  {
    hide Skipped, NextPos;
    var k, e, tail := Id("k"), EomOf("m"), Under(below);
    SkipForward(LP, [LP, k, RP, e], tail, input, 4);
    SkipForward(LP, [k, RP, e], tail, input, 3);
    SkipForward(k, [RP, e], tail, input, 2);
    SkipForward(RP, [e], tail, input, 1);
    assert [LP] + [LP, k, RP, e] == Rest();
    assert [LP] + [k, RP, e] == [LP, k, RP, e];
    assert [k] + [RP, e] == [k, RP, e];
    assert [RP] + [e] == [RP, e];
    SkippedOne(Pos([[e]] + tail, input), 0);
    PastEnd(below, input);
    SkippedOne(Pos([[EOA]] + below, input), 0);
  }

  lemma {:induction false} EomsUnder(s: Stream, below: seq<Stream>)
    requires s != [] && s[|s| - 1] == EomOf("m")
    ensures Eoms([s] + Under(below)) == {"m", "k"} + Eoms(below)
    ensures Eoms([[RP, EOA]] + below) == Eoms(below) && Eoms(Under(below)) == {"k"} + Eoms(below)
  {
    var tail := [[RP, EOA]] + below;
    assert tail[1..] == below && Under(below)[1..] == tail && ([s] + Under(below))[1..] == Under(below);
    assert Eoms(tail) == Eoms(below);
    assert Eoms(Under(below)) == {"k"} + Eoms(tail);
    assert Eoms([s] + Under(below)) == {"m"} + Eoms(Under(below));
  }

  lemma {:induction false} FunctionName(lx: Lexis, d: set<Name>)
    requires "f" !in d
    ensures Judge(Env(Table(), lx), d, Id("f")) == Wait(Table()["f"])
    ensures Table()["f"].params == ["x"] && PreExpandOk(Table()["f"], "x")
  {
    assert NormalUse(Table()["f"], "x", 0);
  }

  /** After k and m have been replaced, f is called and its argument taken from
      behind both lists. */
  lemma {:induction false} LastTurn(lx: Lexis, below: seq<Stream>, input: seq<Token>)
    requires "f" !in Eoms(below)
    ensures Turn(Env(Table(), lx), Pos([OpenBody() + [EomOf("m")]] + Under(below), input))
         == Into(Start([[EOA]] + below, input))
  {
    hide Subst, Judge, Norm, NextToken, NextPos, Called, Eoms, Under;
    var p, q := Pos([OpenBody() + [EomOf("m")]] + Under(below), input), Pos([Rest()] + Under(below), input);
    assert p.es == [[Id("f")] + Rest()] + Under(below) by { assert OpenBody() + [EomOf("m")] == [Id("f")] + Rest(); }
    Forward(Id("f"), Rest(), Under(below), input);
    EomsUnder(Rest(), below);
    FunctionName(lx, Eoms(q.es));
    CalledArgument(lx, below, input);
  }

  lemma {:induction false} SeenArgument(below: seq<Stream>, input: seq<Token>)
    ensures Seen([Rest()] + Under(below), input) == [LP, LP, Id("k"), RP, RP, EOA]
  {
    var tail := [[RP, EOA]] + below;
    assert ([Rest()] + Under(below))[1..] == Under(below) && Under(below)[1..] == tail;
    assert Seen(tail, input) == [RP, EOA] && [] + [RP, EOA] == [RP, EOA];
    assert Under(below)[0][..0] == [] && Seen(Under(below), input) == [RP, EOA];
    assert Rest()[..4] == [LP, LP, Id("k"), RP];
    assert [LP, LP, Id("k"), RP] + [RP, EOA] == [LP, LP, Id("k"), RP, RP, EOA];
  }

  lemma {:induction false} CalledArgument(lx: Lexis, below: seq<Stream>, input: seq<Token>)
    ensures Called(Env(Table(), lx), Table()["f"], Pos([Rest()] + Under(below), input))
         == Into(Start([[EOA]] + below, input))
  {
    hide Seen, Collect, Skipped, PreExpandOk, Under;
    var seen := [LP, LP, Id("k"), RP, RP, EOA];
    SeenArgument(below, input);
    assert SkipNl(seen) == seen && seen[1..] == [LP, Id("k"), RP, RP, EOA];
    Argument("k", [EOA]);
    assert [LP, Id("k"), RP, RP] + [EOA] == [LP, Id("k"), RP, RP, EOA];
    FiveRead(below, input);
    assert [LP, Id("k"), RP] + [EOA] == [LP, Id("k"), RP, EOA];
    FunctionName(lx, {});
  }

  /** A prescan of ( k ) begins, and no macro is disabled. */
  predicate AtPrescan(p: Pos) { p.es != [] && p.es[0] == [LP, Id("k"), RP, EOA] && Eoms(p.es) == {} }

  /** The turns between one prescan and the next. */
  lemma {:induction false} NextPrescan(lx: Lexis, below: seq<Stream>, input: seq<Token>)
    requires Eoms(below) == {}
    ensures Entered(Env(Table(), lx), Start(below, input), 4) == Some(Start([[EOA]] + below, input))
  {
    hide Turn, Eoms;
    var env, tail := Env(Table(), lx), [[RP, EOA]] + below;
    var p0, p1 := Start(below, input), Pos([[Id("k"), RP, EOA]] + below, input);
    var p2, p3 := Pos([[Id("m"), EomOf("k")]] + tail, input), Pos([OpenBody() + [EomOf("m")]] + Under(below), input);
    EomsUnder(Rest(), below);
    FirstTurn(lx, below, input);
    NameTurn(lx, "k", [RP, EOA], below, input);
    assert [Id("k")] + [RP, EOA] == [Id("k"), RP, EOA] && [Id("m")] + [EomOf("k")] == [Id("m"), EomOf("k")];
    assert Turn(env, p1) == To(p2);
    NameTurn(lx, "m", [EomOf("k")], tail, input);
    assert Turn(env, p2) == To(p3);
    LastTurn(lx, below, input);
    assert Entered(env, p3, 1) == Some(Start([[EOA]] + below, input));
    assert Entered(env, p2, 2) == Entered(env, p3, 1);
    assert Entered(env, p1, 3) == Entered(env, p2, 2);
    assert Entered(env, p0, 4) == Entered(env, p1, 3);
  }

  /** From the prescan of ( k ) on prescans nest without end: after any number of
      them the next one begins, and no macro is disabled. */
  lemma {:induction false} NestsForever(lx: Lexis, below: seq<Stream>, input: seq<Token>, depth: nat)
    requires Eoms(below) == {}
    ensures var q := Nested(Env(Table(), lx), Start(below, input), depth); q.Some? && AtPrescan(q.value)
    decreases depth
  {
    hide Turn, Entered;
    assert Start(below, input).es[1..] == below;
    if depth > 0 {
      NextPrescan(lx, below, input);
      assert ([[EOA]] + below)[1..] == below;
      NestsForever(lx, [[EOA]] + below, input, depth - 1);
    }
  }

  /** The text f ( ( k ) ) . */
  const TEXT := [Id("f"), LP, LP, Id("k"), RP, RP]

  lemma {:induction false} InputForward(t: Token, s: seq<Token>, k: nat)
    ensures NextPos(Pos([], [t] + s)) == Pos([], s) && NextToken(Pos([], [t] + s)) == t
    ensures Skipped(Pos([], [t] + s), k + 1) == Skipped(Pos([], s), k)
  {
    assert ([t] + s)[1..] == s;
  }

  const CALLED := [LP, LP, Id("k"), RP, RP]

  lemma {:induction false} InputRead(s: seq<Token>)
    ensures Skipped(Pos([], s), |s|) == Pos([], [])
  {
    if s == [] {
      SkippedOne(Pos([], s), 0);
    } else {
      hide Skipped, NextPos;
      InputForward(s[0], s[1..], |s| - 1);
      assert [s[0]] + s[1..] == s;
      InputRead(s[1..]);
    }
  }

  lemma {:induction false} TurnWait(env: Env, p: Pos, t: Token, q: Pos, m: Macro)
    requires NextToken(p) == t && !Sentinel(t) && NextPos(p) == q && Judge(env, Eoms(q.es), t) == Wait(m)
    ensures Turn(env, p) == Called(env, m, q)
  {
    hide NextToken, NextPos, Judge, Eoms, Called;
  }

  lemma {:induction false} CalledText(lx: Lexis)
    ensures Called(Env(Table(), lx), Table()["f"], Pos([], CALLED)) == Into(Start([], []))
  {
    hide Collect, Skipped, PreExpandOk;
    FunctionName(lx, {});
    assert SkipNl(CALLED) == CALLED && CALLED[1..] == [LP, Id("k"), RP, RP] + [];
    Argument("k", []);
    InputRead(CALLED);
    assert [LP, Id("k"), RP] + [EOA] == [LP, Id("k"), RP, EOA];
    assert [[LP, Id("k"), RP, EOA]] + [] == [[LP, Id("k"), RP, EOA]];
  }

  /** Expanding the text begins with the prescan of ( k ). */
  lemma {:induction false} TextTurn(lx: Lexis)
    ensures Turn(Env(Table(), lx), Pos([], TEXT)) == Into(Start([], []))
  {
    hide Judge, Called, Skipped, PreExpandOk, Start;
    InputForward(Id("f"), CALLED, 0);
    assert [Id("f")] + CALLED == TEXT;
    FunctionName(lx, {});
    TurnWait(Env(Table(), lx), Pos([], TEXT), Id("f"), Pos([], CALLED), Table()["f"]);
    CalledText(lx);
  }

  /** In the expansion of f ( ( k ) ) prescans nest to every depth. */
  lemma {:induction false} TextNestsForever(lx: Lexis, depth: nat)
    ensures var first := Entered(Env(Table(), lx), Pos([], TEXT), 1);
            && first.Some?
            && var q := Nested(Env(Table(), lx), first.value, depth);
            && q.Some? && AtPrescan(q.value)
  {
    TextTurn(lx);
    NestsForever(lx, [], [], depth);
  }
}
