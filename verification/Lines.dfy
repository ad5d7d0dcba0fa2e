/** Lines of the input: a name at the end of a line may take its arguments from
    the lines behind it, and when it does not the expansion of a line is that of
    its tokens alone. */
module Lines {
  import opened Wrappers
  import opened Seqs
  import opened Tokens
  import opened MacroArgs
  import opened Substitution
  import opened Prescan
  import opened Expansion
  import opened Stack

  /** Where a part of the text ends: with a line, or in front of a directive. */
  datatype Stop = AtNewline | AtDirective

  predicate Ends(stop: Stop, t: Token) {
    match stop
    case AtNewline => t.kind == Newline
    case AtDirective => t.kind == Hash && t.flags.bol
  }

  predicate Inner(stop: Stop, s: seq<Token>) { forall i :: 0 <= i < |s| ==> !Ends(stop, s[i]) }

  /** The tokens in front of the first end. */
  function FirstPart(stop: Stop, s: seq<Token>): (r: seq<Token>)
    ensures Inner(stop, r) && (NoSentinel(s) ==> NoSentinel(r))
  {
    if s == [] || Ends(stop, s[0]) then [] else [s[0]] + FirstPart(stop, s[1..])
  }

  /** The first end and all behind it. */
  function NextParts(stop: Stop, s: seq<Token>): seq<Token> {
    if s == [] || Ends(stop, s[0]) then s else NextParts(stop, s[1..])
  }

  lemma {:induction false} PartSplit(stop: Stop, s: seq<Token>)
    ensures FirstPart(stop, s) + NextParts(stop, s) == s
    ensures NextParts(stop, s) == [] || Ends(stop, NextParts(stop, s)[0])
  {
    if s != [] && !Ends(stop, s[0]) {
      PartSplit(stop, s[1..]);
      Assoc([s[0]], FirstPart(stop, s[1..]), NextParts(stop, s[1..]));
    }
  }

  lemma {:induction false} PartJoined(stop: Stop, x: seq<Token>, rest: seq<Token>)
    requires Inner(stop, x) && (rest == [] || Ends(stop, rest[0]))
    ensures FirstPart(stop, x + rest) == x && NextParts(stop, x + rest) == rest
  {
    if x == [] {
      assert x + rest == rest;
    } else {
      PartJoined(stop, x[1..], rest);
      assert (x + rest)[1..] == x[1..] + rest;
    }
  }

  lemma {:induction false} InnerSuffix(stop: Stop, t: seq<Token>, s: seq<Token>)
    requires Suffix(s, t) && Inner(stop, t)
    ensures Inner(stop, s)
  {
    if s != t {
      InnerSuffix(stop, t[1..], s);
    }
  }

  // -------------------------------------------------------------------
  // More text behind a text that is complete by itself.
  // -------------------------------------------------------------------

  lemma {:induction false} SkipNlAppend(s: seq<Token>, e: seq<Token>)
    ensures SkipNl(s + e) == if SkipNl(s) == [] then SkipNl(e) else SkipNl(s) + e
  {
    if s == [] {
      assert s + e == e;
    } else {
      assert (s + e)[0] == s[0] && (s + e)[1..] == s[1..] + e;
      if s[0].kind == Newline {
        SkipNlAppend(s[1..], e);
      }
    }
  }

  lemma {:induction false} CollectOneAppend(s: seq<Token>, paren: nat, va: bool, e: seq<Token>)
    requires OffNl(s) && CollectOne(s, paren, va).Some?
    ensures var o := CollectOne(s, paren, va).value;
            OffNl(s + e) && CollectOne(s + e, paren, va) == Some(One(o.body, o.rest + e))
    decreases |s|
  {
    assert (s + e)[0] == s[0];
    if paren == 0 && (s[0].kind == RParen || (!va && s[0].kind == Comma)) {
    } else {
      assert (s + e)[1..] == s[1..] + e;
      SkipNlAppend(s[1..], e);
      CollectOneAppend(SkipNl(s[1..]), Nest(s[0], paren), va, e);
    }
  }

  lemma {:induction false} CollectFromAppend(params: seq<Name>, i: nat, s: seq<Token>, args: seq<Arg>, e: seq<Token>)
    requires i <= |params| && OffNl(s) && CollectFrom(params, i, s, args).Some?
    ensures var c := CollectFrom(params, i, s, args).value;
            OffNl(s + e) && CollectFrom(params, i, s + e, args) == Some(Collected(c.args, c.rest + e))
    decreases |params| - i, 1
  {
    hide CollectOne;
    assert (s + e)[0] == s[0] && (s + e)[1..] == s[1..] + e;
    if i < |params| && (i == 0 || s[0].kind == Comma) {
      if i == 0 {
        CollectNextAppend(params, i, s, args, e);
      } else {
        SkipNlAppend(s[1..], e);
        CollectNextAppend(params, i, SkipNl(s[1..]), args, e);
      }
    }
  }

  /** The same from the first token of an argument on. */
  lemma {:induction false} CollectNextAppend(params: seq<Name>, i: nat, s: seq<Token>, args: seq<Arg>, e: seq<Token>)
    requires i < |params| && OffNl(s)
    requires var o := CollectOne(s, 0, params[i] == VA_ARGS);
             && o.Some?
             && CollectFrom(params, i + 1, o.value.rest, args + [Arg(params[i], o.value.body, [], false)]).Some?
    ensures s != [] && OffNl(s + e)
    ensures var o := CollectOne(s, 0, params[i] == VA_ARGS).value;
            var o' := CollectOne(s + e, 0, params[i] == VA_ARGS);
            var args' := args + [Arg(params[i], o.body, [], false)];
            var c := CollectFrom(params, i + 1, o.rest, args').value;
            && o'.Some? && o'.value.body == o.body
            && CollectFrom(params, i + 1, o'.value.rest, args') == Some(Collected(c.args, c.rest + e))
    decreases |params| - i, 0
  {
    hide CollectFrom;
    CollectOneAppend(s, 0, params[i] == VA_ARGS, e);
    var o := CollectOne(s, 0, params[i] == VA_ARGS).value;
    CollectFromAppend(params, i + 1, o.rest, args + [Arg(params[i], o.body, [], false)], e);
  }

  lemma {:induction false} CollectAppend(params: seq<Name>, s: seq<Token>, e: seq<Token>)
    requires Collect(params, s).Some?
    ensures var c := Collect(params, s).value; Collect(params, s + e) == Some(Collected(c.args, c.rest + e))
  {
    SkipNlAppend(s, e);
    CollectFromAppend(params, 0, SkipNl(s), [], e);
    if SkipNl(s) == [] {
      CollectNothing(params);
    }
  }

  lemma {:induction false} CollectNothing(params: seq<Name>)
    ensures Collect(params, []).None?
  {
  }

  /** The end of a part and an open parenthesis, which complete no call. */
  function Closed(stop: Stop): (r: seq<Token>)
    ensures |r| == 2 && NoSentinel(r) && Ends(stop, r[0]) && r[1].kind == LParen
  {
    [if stop.AtNewline? then Token(Newline, "", PLAIN) else Token(Hash, "#", Flags(true, false, false)),
     Token(LParen, "(", PLAIN)]
  }

  lemma {:induction false} ClosedFails(stop: Stop, paren: nat, va: bool)
    ensures var e := SkipNl(Closed(stop));
            && e == (if stop.AtNewline? then Closed(stop)[1..] else Closed(stop))
            && CollectOne(e, paren, va).None? && e[0].kind !in {RParen, Comma}
  {
    var e := Closed(stop);
    assert SkipNl(e[1..]) == e[1..] && SkipNl(e[1..][1..]) == [];
    assert CollectOne([], paren + 1, va).None?;
    assert CollectOne(e[1..], paren, va).None?;
  }

  lemma {:induction false} CollectOneShrink(stop: Stop, s: seq<Token>, paren: nat, va: bool)
    requires OffNl(s) && s != [] && OffNl(s + Closed(stop)) && CollectOne(s + Closed(stop), paren, va).Some?
    ensures CollectOne(s, paren, va).Some?
    decreases |s|
  {
    var e := Closed(stop);
    assert (s + e)[0] == s[0] && (s + e)[1..] == s[1..] + e;
    if paren == 0 && (s[0].kind == RParen || (!va && s[0].kind == Comma)) {
    } else {
      SkipNlAppend(s[1..], e);
      if SkipNl(s[1..]) == [] {
        ClosedFails(stop, Nest(s[0], paren), va);
      } else {
        CollectOneShrink(stop, SkipNl(s[1..]), Nest(s[0], paren), va);
      }
    }
  }

  lemma {:induction false} CollectFromShrink(stop: Stop, params: seq<Name>, i: nat, s: seq<Token>, args: seq<Arg>)
    requires i <= |params| && OffNl(s) && s != [] && OffNl(s + Closed(stop))
    requires CollectFrom(params, i, s + Closed(stop), args).Some?
    ensures CollectFrom(params, i, s, args).Some?
    decreases |params| - i, 1
  {
    hide CollectOne, Closed;
    var e := Closed(stop);
    assert (s + e)[0] == s[0] && (s + e)[1..] == s[1..] + e;
    if i < |params| && (i == 0 || s[0].kind == Comma) {
      if i == 0 {
        CollectNextShrink(stop, params, i, s, args);
      } else {
        SkipNlAppend(s[1..], e);
        if SkipNl(s[1..]) == [] {
          ClosedFails(stop, 0, params[i] == VA_ARGS);
        } else {
          CollectNextShrink(stop, params, i, SkipNl(s[1..]), args);
        }
      }
    }
  }

  /** The same from the first token of an argument on. */
  lemma {:induction false} CollectNextShrink(stop: Stop, params: seq<Name>, i: nat, s: seq<Token>, args: seq<Arg>)
    requires i < |params| && OffNl(s) && s != [] && OffNl(s + Closed(stop))
    requires var o := CollectOne(s + Closed(stop), 0, params[i] == VA_ARGS);
             && o.Some?
             && CollectFrom(params, i + 1, o.value.rest, args + [Arg(params[i], o.value.body, [], false)]).Some?
    ensures var o := CollectOne(s, 0, params[i] == VA_ARGS);
            && o.Some?
            && CollectFrom(params, i + 1, o.value.rest, args + [Arg(params[i], o.value.body, [], false)]).Some?
    decreases |params| - i, 0
  {
    hide CollectOne, CollectFrom, Closed;
    CollectOneShrink(stop, s, 0, params[i] == VA_ARGS);
    CollectOneAppend(s, 0, params[i] == VA_ARGS, Closed(stop));
    var o := CollectOne(s, 0, params[i] == VA_ARGS).value;
    CollectFromShrink(stop, params, i + 1, o.rest, args + [Arg(params[i], o.body, [], false)]);
  }

  lemma {:induction false} CollectShrink(stop: Stop, params: seq<Name>, s: seq<Token>)
    requires Collect(params, s + Closed(stop)).Some?
    ensures Collect(params, s).Some?
  {
    SkipNlAppend(s, Closed(stop));
    if SkipNl(s) == [] {
      ClosedFails(stop, 0, params != [] && params[0] == VA_ARGS);
    } else {
      CollectFromShrink(stop, params, 0, SkipNl(s), []);
    }
  }

  /** The bound of a prescan only bounds it. */
  lemma {:induction false} PrescanBound(env: Env, d: set<Name>, m: Macro, args: seq<Arg>, i: nat, n: nat, k: nat)
    requires i <= |m.params|
    requires forall j :: 0 <= j < |args| ==> |args[j].body| + 1 < n && |args[j].body| + 1 < k
    ensures PrescanFrom(env, d, m, args, i, n) == PrescanFrom(env, d, m, args, i, k)
    decreases |m.params| - i
  {
    hide Level;
    if i < |m.params| {
      if !PreExpandOk(m, m.params[i]) || FindFrom(args, m.params[i], 0).None? {
        PrescanBound(env, d, m, args, i + 1, n, k);
      } else {
        var j := FindFrom(args, m.params[i], 0).value;
        var r := Finish(Level(env, d, args[j].body + [EOA]));
        if r.ok { PrescanBound(env, d, m, WithPrescan(args, j, r.out), i + 1, n, k); }
      }
    }
  }

  lemma {:induction false} ScanAppend(env: Env, d: set<Name>, m: Macro, r: seq<Token>, e: seq<Token>)
    requires r != [] && Collect(m.params, r[1..]).Some?
    ensures (r + e)[1..] == r[1..] + e
    ensures var c := Collect(m.params, r[1..]).value;
            Collect(m.params, (r + e)[1..]) == Some(Collected(c.args, c.rest + e))
    ensures CallScan(env, d, m, r + e) == CallScan(env, d, m, r)
  {
    assert (r + e)[1..] == r[1..] + e;
    CollectAppend(m.params, r[1..], e);
    CollectBound(m.params, 0, SkipNl(r[1..]), [], |r[1..]|);
    PrescanBound(env, d, m, Collect(m.params, r[1..]).value.args, 0, |r + e|, |r|);
  }

  /** What a text comes to when more follows. */
  predicate Continues(a: Outcome, r: Outcome, b: Outcome) {
    a.ok == b.ok && a.out == r.out + b.out && a.dangle == b.dangle
  }

  lemma {:induction false} ContinuesEmit(o: seq<Token>, a: Outcome, r: Outcome, b: Outcome)
    requires Continues(a, r, b)
    ensures Continues(Emit(o, a), Emit(o, r), b)
  {
    Assoc(o, r.out, b.out);
  }

  lemma {:induction false} ContinuesThen(x: Outcome, a: Outcome, r: Outcome, b: Outcome)
    requires x.ok && Continues(a, r, b)
    ensures Continues(Then(x, a), Then(x, r), b)
  {
    Assoc(x.out, r.out, b.out);
  }

  lemma {:induction false} LevelAppend(env: Env, d: set<Name>, s: seq<Token>, e: seq<Token>)
    requires NoSentinel(s) && Level(env, d, s).ok
    ensures var r := Level(env, d, s); Continues(Level(env, d, s + e), r, Resume(env, d, r.dangle, e))
    decreases |s|, 1
  {
    hide Resume, Call, Inside, Subst, SubstFrom;
    if s == [] {
      assert s + e == e;
      ResumeNothing(env, d, e);
    } else {
      assert (s + e)[0] == s[0] && (s + e)[1..] == s[1..] + e;
      match Judge(env, d, s[0])
      case Keep =>
        LevelAppend(env, d, s[1..], e);
        var r := Level(env, d, s[1..]);
        ContinuesEmit([s[0]], Level(env, d, s[1..] + e), r, Resume(env, d, r.dangle, e));
      case Paint =>
        LevelAppend(env, d, s[1..], e);
        var r := Level(env, d, s[1..]);
        ContinuesEmit([Painted(s[0])], Level(env, d, s[1..] + e), r, Resume(env, d, r.dangle, e));
      case Wait(_) =>
        ResumeAppend(env, d, Some(s[0]), s[1..], e);
      case Open(m) =>
        InsideAppend(env, d, s[0].text, Subst(env.lexis, m, s[0], []).value, s[1..], e, |s|, |s + e|);
    }
  }

  lemma {:induction false} ResumeNothing(env: Env, d: set<Name>, e: seq<Token>)
    ensures Resume(env, d, None, e) == Level(env, d, e)
  {
  }

  lemma {:induction false} InsideAppend(env: Env, d: set<Name>, n: Name, b: seq<Token>, rest: seq<Token>, e: seq<Token>,
                                        k: nat, l: nat)
    requires n in env.table && n !in d && |rest| < k && |rest + e| < l
    requires NoSentinel(rest) && Inside(env, d, n, b, rest, k).ok
    ensures var r := Inside(env, d, n, b, rest, k);
            Continues(Inside(env, d, n, b, rest + e, l), r, Resume(env, d, r.dangle, e))
    decreases |rest|, 3
  {
    hide Level, Resume;
    EnabledDrops(env, d, n);
    var a := Level(env, d + {n}, b + [EomOf(n)]);
    ResumeAppend(env, d, a.dangle, rest, e);
    var r := Resume(env, d, a.dangle, rest);
    ContinuesThen(a, Resume(env, d, a.dangle, rest + e), r, Resume(env, d, r.dangle, e));
  }

  lemma {:induction false} ResumeAppend(env: Env, d: set<Name>, dg: Option<Token>, s: seq<Token>, e: seq<Token>)
    requires NoSentinel(s) && Waiting(env, d, dg) && Resume(env, d, dg, s).ok
    ensures var r := Resume(env, d, dg, s); Continues(Resume(env, d, dg, s + e), r, Resume(env, d, r.dangle, e))
    decreases |s|, 2
  {
    hide Level, Inside, Subst, SubstFrom, CollectFrom;
    if dg.None? {
      LevelAppend(env, d, s, e);
    } else {
      var k := SkipNl(s);
      SkipNlAppend(s, e);
      if k == [] {
        assert Resume(env, d, dg, s) == Outcome(true, [], dg, 0);
        assert Resume(env, d, dg, s + e) == Resume(env, d, dg, e);
      } else {
        assert (k + e)[0] == k[0];
        if k[0].kind != LParen {
          LevelAppend(env, d, k, e);
          var r := Level(env, d, k);
          ContinuesEmit([dg.value], Level(env, d, k + e), r, Resume(env, d, r.dangle, e));
        } else {
          CallAppend(env, d, dg.value, k, e);
        }
      }
    }
  }

  lemma {:induction false} CallAppend(env: Env, d: set<Name>, f: Token, s: seq<Token>, e: seq<Token>)
    requires NoSentinel(s) && Judge(env, d, f).Wait? && s != [] && s[0].kind == LParen
    requires Call(env, d, f, s).ok
    ensures !AtEnd(s + e)
    ensures var r := Call(env, d, f, s); Continues(Call(env, d, f, s + e), r, Resume(env, d, r.dangle, e))
    decreases |s|, 1
  {
    hide Level, Inside, Subst, SubstFrom, CollectFrom, Resume, PrescanFrom;
    var m := Judge(env, d, f).m;
    var c := Collect(m.params, s[1..]).value;
    ScanAppend(env, d, m, s, e);
    CollectBound(m.params, 0, SkipNl(s[1..]), [], |s[1..]|);
    CollectBound(m.params, 0, SkipNl((s + e)[1..]), [], |(s + e)[1..]|);
    var p := CallScan(env, d, m, s);
    var b := Subst(env.lexis, m, f, p.args).value;
    RestSuffix(m.params, s);
    InputSuffix(s, c.rest);
    InsideAppend(env, d, f.text, b, c.rest, e, |s|, |s + e|);
  }

  lemma {:induction false} RestSuffix(params: seq<Name>, s: seq<Token>)
    requires s != [] && Collect(params, s[1..]).Some?
    ensures Suffix(Collect(params, s[1..]).value.rest, s)
  {
    var e := CollectFromSuffix(params, 0, SkipNl(s[1..]), []);
    SkippedSuffix(s[1..]);
    SuffixTrans(e, SkipNl(s[1..]), s);
    SuffixTrans(e[1..], e, s);
  }

  /** The text can be expanded without a look at what follows it: no call is
      left open at its end, and no function-like name waits for a parenthesis. */
  ghost predicate EndsAlone(env: Env, s: seq<Token>) { Level(env, {}, s).ok && Level(env, {}, s).dangle.None? }

  /** Then its expansion is what it comes to in front of any other text. */
  lemma {:induction false} AloneAppend(env: Env, s: seq<Token>, e: seq<Token>)
    requires NoSentinel(s) && EndsAlone(env, s)
    ensures Expanded(env, s).ok && Expanded(env, s).out == Level(env, {}, s).out
    ensures Continues(Expanded(env, s + e), Expanded(env, s), Expanded(env, e))
  {
    hide Level, Resume;
    LevelAppend(env, {}, s, e);
    ResumeNothing(env, {}, e);
    var r, x, y := Level(env, {}, s), Level(env, {}, e), Level(env, {}, s + e);
    if y.ok && y.dangle.Some? {
      Assoc(r.out, x.out, [y.dangle.value]);
    }
  }

  /** A part of a text needs nothing of what follows it; in front of a directive
      a waiting name gives up. */
  ghost predicate PartAlone(stop: Stop, env: Env, s: seq<Token>) {
    match stop
    case AtNewline => EndsAlone(env, s)
    case AtDirective => Level(env, {}, s).ok
  }

  // -------------------------------------------------------------------
  // What the machine does with one token.
  // -------------------------------------------------------------------

  /** The tokens put out for a token, and where the machine then stands. */
  datatype Deal = Deal(out: seq<Token>, pos: Pos)

  /** Where a call of the function-like name f, whose '(' begins r at p, leads. */
  ghost function Called(env: Env, p: Pos, f: Token, r: seq<Token>): Option<Pos>
    requires Judge(env, Eoms(p.es), f).Wait? && r != []
  {
    var m := Judge(env, Eoms(p.es), f).m;
    match Collect(m.params, r[1..])
    case None => None
    case Some(c) =>
      var q := CallScan(env, Eoms(p.es), m, r);
      if !q.ok then None
      else
        match Subst(env.lexis, m, f, q.args)
        case None => None
        case Some(b) => Some(Push(f.text, b, SetTop(p, c.rest)))
  }

  /** The same for the function-like name f that waits at p. */
  ghost function Awaited(env: Env, p: Pos, f: Token): Option<Deal>
    requires Judge(env, Eoms(p.es), f).Wait?
  {
    var r := SkipNl(Top(p));
    if AtEnd(r) || r[0].kind != LParen then Some(Deal([f], SetTop(p, r)))
    else match Called(env, p, f, r) case None => None case Some(q) => Some(Deal([], q))
  }

  /** What becomes of the token t that has just been read, p being behind it. */
  ghost function Dealt(env: Env, p: Pos, t: Token): Option<Deal>
    requires StackOk(env, p.es)
  {
    match Judge(env, Eoms(p.es), t)
    case Keep => Some(Deal([t], p))
    case Paint => Some(Deal([Painted(t)], p))
    case Open(m) => (
      match Subst(env.lexis, m, t, [])
      case None => None
      case Some(b) => Some(Deal([], Push(t.text, b, p))))
    case Wait(_) =>
      NormOk(env, p);
      Awaited(env, Norm(p), t)
  }

  /** One step of the machine puts out what the expansion of the rest begins
      with, and leads to where the rest of it is left to put out. */
  lemma {:induction false} DealtRun(env: Env, p: Pos, t: Token)
    requires StackOk(env, p.es) && !Sentinel(t)
    ensures var a := Run(env, Unget(t, p), None);
            match Dealt(env, p, t)
            case None => !a.ok
            case Some(x) => a.ok == Run(env, x.pos, None).ok && a.out == x.out + Run(env, x.pos, None).out
  {
    hide Run, Subst, SubstFrom, SkipNl, Called;
    match Judge(env, Eoms(p.es), t)
    case Keep => RunKeep(env, p, t);
    case Paint => RunKeep(env, p, t);
    case Open(m) => RunOpen(env, p, t);
    case Wait(_) =>
      RunWait(env, p, t);
      NormOk(env, p);
      AwaitedRun(env, Norm(p), t);
  }

  lemma {:induction false} AwaitedRun(env: Env, p: Pos, f: Token)
    requires StackOk(env, p.es) && Normal(p) && Judge(env, Eoms(p.es), f).Wait?
    ensures var a := Run(env, p, Some(f));
            match Awaited(env, p, f)
            case None => !a.ok
            case Some(x) => a.ok == Run(env, x.pos, None).ok && a.out == x.out + Run(env, x.pos, None).out
  {
    hide Run, Subst, SubstFrom, Collect, CallScan;
    var r := SkipNl(Top(p));
    if AtEnd(r) || r[0].kind != LParen {
      RunGiveUp(env, p, f, r);
    } else {
      var m := Judge(env, Eoms(p.es), f).m;
      match Called(env, p, f, r)
      case None => RunCallFails(env, p, f, r);
      case Some(q) => RunCall(env, p, f, r, Subst(env.lexis, m, f, CallScan(env, Eoms(p.es), m, r).args).value);
    }
  }

  // -------------------------------------------------------------------
  // A part of the text with what is behind it cut off.
  // -------------------------------------------------------------------

  /** The same position with the next parts replaced by an open parenthesis. */
  function Cut(stop: Stop, p: Pos): Pos { Pos(p.es, FirstPart(stop, p.input) + Closed(stop)) }

  lemma {:induction false} NormCut(stop: Stop, env: Env, p: Pos)
    requires StackOk(env, p.es)
    ensures Norm(Cut(stop, p)) == Cut(stop, Norm(p)) && Norm(p).input == p.input
    decreases |p.es|
  {
    if p.es != [] && p.es[0][0].kind == Eom {
      NormCut(stop, env, Pos(p.es[1..], p.input));
    }
  }

  /** A step from the cut position is the step from the position, cut. */
  predicate CutFrom(stop: Stop, x: Deal, y: Deal, input: seq<Token>) {
    x.out == y.out && y.pos == Cut(stop, x.pos) && NextParts(stop, x.pos.input) == NextParts(stop, input)
  }

  /** When only newlines are left of a line, a waiting name fails on the open
      parenthesis behind it. */
  lemma {:induction false} AwaitedOpen(env: Env, p: Pos, f: Token)
    requires p.es == [] && Judge(env, {}, f).Wait? && SkipNl(FirstPart(AtNewline, p.input)) == []
    ensures Awaited(env, Cut(AtNewline, p), f).None?
  {
    hide CallScan, Subst, SubstFrom;
    var e := Closed(AtNewline);
    ClosedFails(AtNewline, 0, false);
    SkipNlAppend(FirstPart(AtNewline, p.input), e);
    CollectNothing(Judge(env, {}, f).m.params);
    assert SkipNl(e)[1..] == [];
  }

  lemma {:induction false} DirectiveNext(s: seq<Token>)
    requires s == [] || Ends(AtDirective, s[0])
    ensures SkipNl(s) == s
  {
  }

  /** In front of a directive it gives up. */
  lemma {:induction false} AwaitedNothing(env: Env, p: Pos, f: Token)
    requires p.es == [] && Judge(env, {}, f).Wait? && SkipNl(FirstPart(AtDirective, p.input)) == []
    ensures var x, y := Awaited(env, p, f), Awaited(env, Cut(AtDirective, p), f);
            x.Some? && y.Some? && CutFrom(AtDirective, x.value, y.value, p.input)
  {
    hide Called, SkipNl, StackOk, Norm;
    var y, rest, e := FirstPart(AtDirective, p.input), NextParts(AtDirective, p.input), Closed(AtDirective);
    PartSplit(AtDirective, p.input);
    ClosedFails(AtDirective, 0, false);
    SkipNlAppend(y, e);
    SkipNlAppend(y, rest);
    DirectiveNext(rest);
    assert [] + e == e && [] + rest == rest;
    PartJoined(AtDirective, [], rest);
  }

  lemma {:induction false} AwaitedCut(stop: Stop, env: Env, p: Pos, f: Token)
    requires StackOk(env, p.es) && Normal(p) && NoSentinel(p.input) && Judge(env, Eoms(p.es), f).Wait?
    requires Awaited(env, Cut(stop, p), f).Some?
    ensures Awaited(env, p, f).Some?
    ensures CutFrom(stop, Awaited(env, p, f).value, Awaited(env, Cut(stop, p), f).value, p.input)
  {
    hide CallScan, Collect, Subst, SubstFrom, Closed;
    var y, rest, e := FirstPart(stop, p.input), NextParts(stop, p.input), Closed(stop);
    var k := SkipNl(y);
    if p.es != [] {
      AwaitedAbove(stop, env, p, f);
    } else if k == [] {
      if stop.AtNewline? { AwaitedOpen(env, p, f); } else { AwaitedNothing(env, p, f); }
    } else {
      PartSplit(stop, p.input);
      SkipNlAppend(y, e);
      SkipNlAppend(y, rest);
      SkippedSuffix(y);
      InnerSuffix(stop, y, k);
      assert (k + e)[0] == k[0] == (k + rest)[0];
      if k[0].kind != LParen {
        PartJoined(stop, k, rest);
      } else {
        CalledCut(stop, env, p, f, k, rest);
      }
    }
  }

  lemma {:induction false} AwaitedAbove(stop: Stop, env: Env, p: Pos, f: Token)
    requires StackOk(env, p.es) && p.es != [] && Judge(env, Eoms(p.es), f).Wait?
    requires Awaited(env, Cut(stop, p), f).Some?
    ensures Awaited(env, p, f).Some?
    ensures CutFrom(stop, Awaited(env, p, f).value, Awaited(env, Cut(stop, p), f).value, p.input)
  {
    hide CallScan, Collect, Subst, SubstFrom;
  }

  lemma {:induction false} CalledCut(stop: Stop, env: Env, p: Pos, f: Token, y: seq<Token>, rest: seq<Token>)
    requires p.es == [] && Judge(env, {}, f).Wait? && y != [] && Inner(stop, y)
    requires rest == [] || Ends(stop, rest[0])
    requires Called(env, Cut(stop, p), f, y + Closed(stop)).Some?
    ensures var q := Called(env, p, f, y + rest);
            && q.Some? && Cut(stop, q.value) == Called(env, Cut(stop, p), f, y + Closed(stop)).value
            && NextParts(stop, q.value.input) == rest
  {
    hide CallScan, Collect, Subst, SubstFrom, Closed;
    var m := Judge(env, {}, f).m;
    assert (y + Closed(stop))[1..] == y[1..] + Closed(stop);
    CollectShrink(stop, m.params, y[1..]);
    ScanAppend(env, {}, m, y, Closed(stop));
    ScanAppend(env, {}, m, y, rest);
    RestSuffix(m.params, y);
    InnerSuffix(stop, y, Collect(m.params, y[1..]).value.rest);
    PartJoined(stop, Collect(m.params, y[1..]).value.rest, rest);
  }

  lemma {:induction false} DealtCut(stop: Stop, env: Env, p: Pos, t: Token)
    requires StackOk(env, p.es) && NoSentinel(p.input) && Dealt(env, Cut(stop, p), t).Some?
    ensures Dealt(env, p, t).Some?
    ensures CutFrom(stop, Dealt(env, p, t).value, Dealt(env, Cut(stop, p), t).value, p.input)
  {
    hide Awaited, Subst, SubstFrom, Closed;
    if Judge(env, Eoms(p.es), t).Wait? {
      NormCut(stop, env, p);
      NormOk(env, p);
      AwaitedCut(stop, env, Norm(p), t);
    }
  }

  /** A token of a part that needs nothing of what follows is dealt with without
      a look behind the part. */
  lemma {:induction false} StepAlone(stop: Stop, env: Env, p: Pos, t: Token)
    requires StackOk(env, p.es) && NoSentinel(p.input) && !Sentinel(t) && (p.es == [] ==> !Ends(stop, t))
    requires Run(env, Cut(stop, Unget(t, p)), None).ok
    requires var x := Dealt(env, p, t); x.Some? ==> StackOk(env, x.value.pos.es)
    ensures Dealt(env, p, t).Some?
    ensures var x := Dealt(env, p, t).value;
            && Run(env, Cut(stop, Norm(x.pos)), None).ok
            && Run(env, Cut(stop, Unget(t, p)), None).out == x.out + Run(env, Cut(stop, Norm(x.pos)), None).out
            && NextParts(stop, Norm(x.pos).input) == NextParts(stop, Unget(t, p).input)
  {
    hide Run, Dealt, Closed;
    UngetCut(stop, t, p);
    DealtRun(env, Cut(stop, p), t);
    DealtCut(stop, env, p, t);
    var x := Dealt(env, p, t).value;
    NormCut(stop, env, x.pos);
    RunNorm(env, Cut(stop, x.pos), None);
  }

  lemma {:induction false} UngetCut(stop: Stop, t: Token, p: Pos)
    requires !Sentinel(t) && (p.es == [] ==> !Ends(stop, t))
    ensures Unget(t, Cut(stop, p)) == Cut(stop, Unget(t, p))
    ensures NextParts(stop, Unget(t, p).input) == NextParts(stop, p.input)
  {
    if p.es == [] {
      var s := [t] + p.input;
      assert s[1..] == p.input;
      Assoc([t], FirstPart(stop, p.input), Closed(stop));
    }
  }

  lemma {:induction false} ClosedAlone(stop: Stop, env: Env)
    ensures Level(env, {}, Closed(stop)).ok && Level(env, {}, Closed(stop)).out == Closed(stop)
    ensures Level(env, {}, Closed(stop)).dangle.None? && Expanded(env, Closed(stop)).out == Closed(stop)
  {
    var e := Closed(stop);
    var b := e[1..];
    assert b[1..] == [] && [e[0]] + b == e;
    assert Level(env, {}, []) == Outcome(true, [], None, 0);
    assert Level(env, {}, b) == Emit([b[0]], Level(env, {}, b[1..]));
    assert Level(env, {}, e) == Emit([e[0]], Level(env, {}, b));
  }

  /** What such a part is expanded to, the next parts cut off. */
  lemma {:induction false} PartStart(stop: Stop, env: Env, p: Pos)
    requires p.es == [] && NoSentinel(p.input) && PartAlone(stop, env, FirstPart(stop, p.input))
    ensures var x := Expanded(env, FirstPart(stop, p.input));
            x.ok && Run(env, Cut(stop, p), None).ok && Run(env, Cut(stop, p), None).out == x.out + Closed(stop)
  {
    hide Level, Resume, Closed;
    var part, e := FirstPart(stop, p.input), Closed(stop);
    var r := Level(env, {}, part);
    RunInput(env, part + e);
    ClosedAlone(stop, env);
    LevelAppend(env, {}, part, e);
    ResumeNothing(env, {}, e);
    if r.dangle.Some? {
      GivenUp(env, {}, r.dangle.value, e);
      Assoc(r.out, [r.dangle.value], e);
    }
  }

  lemma {:induction false} GivenUp(env: Env, d: set<Name>, f: Token, e: seq<Token>)
    requires Judge(env, d, f).Wait? && !AtEnd(e) && e[0].kind !in {Newline, LParen}
    ensures Resume(env, d, Some(f), e) == Emit([f], Level(env, d, e))
  {
  }

  /** Of the part of text that comes to all, out has been put out when the
      machine stands at v. */
  ghost predicate Within(stop: Stop, env: Env, v: Pos, out: seq<Token>, all: seq<Token>, text: seq<Token>) {
    && Run(env, Cut(stop, v), None).ok && out + Run(env, Cut(stop, v), None).out == all + Closed(stop)
    && NextParts(stop, v.input) == NextParts(stop, text)
  }

  lemma {:induction false} PartBegun(stop: Stop, env: Env, v: Pos)
    requires v.es == [] && NoSentinel(v.input) && PartAlone(stop, env, FirstPart(stop, v.input))
    ensures Expanded(env, FirstPart(stop, v.input)).ok
    ensures Within(stop, env, v, [], Expanded(env, FirstPart(stop, v.input)).out, v.input)
  {
    hide Run, Level, Closed;
    PartStart(stop, env, v);
    var out := Run(env, Cut(stop, v), None).out;
    assert [] + out == out;
  }

  lemma {:induction false} PartStep(stop: Stop, env: Env, p: Pos, t: Token, out: seq<Token>, all: seq<Token>,
                                    text: seq<Token>)
    requires StackOk(env, p.es) && NoSentinel(p.input) && !Sentinel(t) && (p.es == [] ==> !Ends(stop, t))
    requires Within(stop, env, Unget(t, p), out, all, text)
    requires var x := Dealt(env, p, t); x.Some? ==> StackOk(env, x.value.pos.es)
    ensures Dealt(env, p, t).Some?
    ensures var x := Dealt(env, p, t).value; Within(stop, env, Norm(x.pos), out + x.out, all, text)
  {
    hide Run, Dealt, Closed;
    StepAlone(stop, env, p, t);
    var x := Dealt(env, p, t).value;
    Assoc(out, x.out, Run(env, Cut(stop, Norm(x.pos)), None).out);
  }

  /** At the end of the part all of it has been put out. */
  lemma {:induction false} PartDone(stop: Stop, env: Env, v: Pos, out: seq<Token>, all: seq<Token>, text: seq<Token>)
    requires Within(stop, env, v, out, all, text) && v.es == [] && FirstPart(stop, v.input) == []
    ensures out == all && v.input == NextParts(stop, text)
  {
    hide Run;
    var e := Closed(stop);
    assert Cut(stop, v) == Pos([], e);
    RunInput(env, e);
    ClosedAlone(stop, env);
    PartSplit(stop, v.input);
    assert [] + NextParts(stop, v.input) == NextParts(stop, v.input);
    assert out == (out + e)[..|out|] && all == (all + e)[..|all|];
  }
}
