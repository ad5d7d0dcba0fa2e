/** What Expansion.Level says of each way a text can begin, as laws of texts:
    what is put out first, and as what text expansion goes on
    (sections 6.10.3, 6.10.3.1 and 6.10.3.4). */
module ExpansionLaws {
  import opened Wrappers
  import opened Tokens
  import opened MacroArgs
  import opened Substitution
  import opened Prescan
  import opened Expansion
  import opened Lines

  predicate Newlines(s: seq<Token>) { forall i :: 0 <= i < |s| ==> s[i].kind == Newline }

  /** The text that comes to a puts o out and goes on as the one that comes to b. */
  predicate GoesOn(a: Outcome, o: seq<Token>, b: Outcome) {
    a.ok == b.ok && a.out == o + b.out && a.dangle == b.dangle
  }

  /** The name a replacement list ended with, which still waits for its '('. */
  function Left(a: Outcome): seq<Token> { if a.dangle.None? then [] else [a.dangle.value] }

  /** r is what comes of the replacement b of n in front of rest: the list is
      expanded with n among the macros being expanded, and when it is over n is
      no longer; the name it may have ended with is read again with the rest. */
  ghost predicate Enters(env: Env, d: set<Name>, n: Name, b: seq<Token>, rest: seq<Token>, r: Outcome) {
    var a := Level(env, d + {n}, b + [EomOf(n)]);
    if a.ok then GoesOn(r, a.out, Level(env, d, Left(a) + rest)) else !r.ok && r.out == a.out
  }

  lemma {:induction false} InsideEnters(env: Env, d: set<Name>, n: Name, b: seq<Token>, rest: seq<Token>, bound: nat)
    requires n in env.table && n !in d && |rest| < bound
    ensures Enters(env, d, n, b, rest, Inside(env, d, n, b, rest, bound))
  {
    hide Resume;
    EnabledDrops(env, d, n);
    var a := Level(env, d + {n}, b + [EomOf(n)]);
    if a.dangle.None? {
      assert Left(a) + rest == rest;
      ResumeNothing(env, d, rest);
    } else {
      LevelWaits(env, d, a.dangle.value, rest);
    }
  }

  lemma {:induction false} EntersTick(env: Env, d: set<Name>, n: Name, b: seq<Token>, rest: seq<Token>, k: nat,
                                      r: Outcome)
    requires Enters(env, d, n, b, rest, r)
    ensures Enters(env, d, n, b, rest, Tick(k, r))
  {
    hide Level;
  }

  lemma {:induction false} LevelWaits(env: Env, d: set<Name>, f: Token, s: seq<Token>)
    requires Judge(env, d, f).Wait?
    ensures Level(env, d, [f] + s) == Tick(1, Resume(env, d, Some(f), s))
  {
    assert ([f] + s)[1..] == s;
  }

  /** A token that is no name of a macro, or painted, or the name of a macro that
      is being expanded: it is put out, painted in the last case. */
  lemma {:induction false} TokenLaw(env: Env, d: set<Name>, t: Token, s: seq<Token>)
    requires !Sentinel(t)
    requires t.kind != Identifier || t.flags.noexpand || t.text !in env.table || t.text in d
    ensures var dead := t.kind == Identifier && t.text in env.table && t.text in d;
            GoesOn(Level(env, d, [t] + s), [if dead then t.(flags := t.flags.(noexpand := true)) else t],
                   Level(env, d, s))
  {
    assert ([t] + s)[1..] == s;
  }

  lemma {:induction false} EndLaw(env: Env, d: set<Name>, e: Token, s: seq<Token>)
    requires Sentinel(e)
    ensures Level(env, d, []) == Level(env, d, [e] + s) == Outcome(true, [], None, 0)
  {
  }

  /** The name of an object-like macro. */
  lemma {:induction false} ObjectLaw(env: Env, d: set<Name>, t: Token, s: seq<Token>)
    requires Replaceable(env, d, t) && !env.table[t.text].func
    ensures var r := Level(env, d, [t] + s);
            match Subst(env.lexis, env.table[t.text], t, [])
            case None => !r.ok && r.out == []
            case Some(b) => Enters(env, d, t.text, b, s, r)
  {
    hide Inside, Subst;
    assert ([t] + s)[1..] == s;
    match Subst(env.lexis, env.table[t.text], t, [])
    case None =>
    case Some(b) => InsideEnters(env, d, t.text, b, s, |s| + 1);
  }

  lemma {:induction false} SkipNewlines(nl: seq<Token>, s: seq<Token>)
    requires Newlines(nl)
    ensures SkipNl(nl + s) == SkipNl(s)
  {
    if nl == [] {
      assert nl + s == s;
    } else {
      assert (nl + s)[1..] == nl[1..] + s;
      SkipNewlines(nl[1..], s);
    }
  }

  /** The name of a function-like macro with no '(' behind it: it is put out, and
      the newlines behind it are gone. */
  lemma {:induction false} NameLaw(env: Env, d: set<Name>, f: Token, nl: seq<Token>, t: Token, s: seq<Token>)
    requires Replaceable(env, d, f) && env.table[f.text].func && Newlines(nl)
    requires !Sentinel(t) && t.kind != Newline && t.kind != LParen
    ensures GoesOn(Level(env, d, [f] + (nl + ([t] + s))), [f], Level(env, d, [t] + s))
  {
    hide Level;
    LevelWaits(env, d, f, nl + ([t] + s));
    SkipNewlines(nl, [t] + s);
  }

  /** At the end of its list or text such a name still waits. */
  lemma {:induction false} WaitingLaw(env: Env, d: set<Name>, f: Token, nl: seq<Token>, end: seq<Token>)
    requires Replaceable(env, d, f) && env.table[f.text].func && Newlines(nl) && AtEnd(end)
    ensures var r := Level(env, d, [f] + (nl + end)); r.ok && r.out == [] && r.dangle == Some(f)
  {
    hide Level;
    LevelWaits(env, d, f, nl + end);
    SkipNewlines(nl, end);
  }

  // -------------------------------------------------------------------
  // Calls.
  // -------------------------------------------------------------------

  ghost predicate ScanOk(env: Env, d: set<Name>, m: Macro, a: Arg) {
    PreExpandOk(m, a.param) ==> Level(env, d, a.body + [EOA]).ok
  }

  /** The argument with its prescan: its tokens expanded as if they were the rest
      of the file, a name that waits at their end included, and no line begun. */
  ghost function WithScan(env: Env, d: set<Name>, m: Macro, a: Arg): Arg {
    if PreExpandOk(m, a.param) then a.(expanded := Settled(Finish(Level(env, d, a.body + [EOA])).out)) else a
  }

  ghost function ScansTo(env: Env, d: set<Name>, m: Macro, raw: seq<Arg>, i: nat): (r: seq<Arg>)
    ensures |r| == |raw|
    ensures forall k :: 0 <= k < |raw| ==> r[k] == if k < i then WithScan(env, d, m, raw[k]) else raw[k]
  {
    seq(|raw|, k requires 0 <= k < |raw| => if k < i then WithScan(env, d, m, raw[k]) else raw[k])
  }

  predicate Distinct(names: seq<Name>) { forall j, k :: 0 <= j < k < |names| ==> names[j] != names[k] }

  predicate RawFor(raw: seq<Arg>, params: seq<Name>) {
    |raw| == |params| && forall k :: 0 <= k < |raw| ==> raw[k].param == params[k] && raw[k].expanded == []
  }

  lemma {:induction false} FoundAt(args: seq<Arg>, name: Name, i: nat, k: nat)
    requires i <= k < |args| && args[k].param == name && forall j :: i <= j < k ==> args[j].param != name
    ensures FindFrom(args, name, i) == Some(k)
    decreases k - i
  {
    if i < k { FoundAt(args, name, i + 1, k); }
  }

  lemma {:induction false} PrescanGives(env: Env, d: set<Name>, m: Macro, raw: seq<Arg>, i: nat, n: nat)
    requires Distinct(m.params) && RawFor(raw, m.params) && i <= |raw|
    requires forall k :: 0 <= k < |raw| ==> |raw[k].body| + 1 < n
    ensures var p := PrescanFrom(env, d, m, ScansTo(env, d, m, raw, i), i, n);
            && p.ok == (forall k :: i <= k < |raw| ==> ScanOk(env, d, m, raw[k]))
            && (p.ok ==> p.args == ScansTo(env, d, m, raw, |raw|))
    decreases |raw| - i
  {
    hide Level, PreExpandOk;
    if i < |raw| {
      var args := ScansTo(env, d, m, raw, i);
      FoundAt(args, m.params[i], 0, i);
      PrescanGives(env, d, m, raw, i + 1, n);
      if PreExpandOk(m, m.params[i]) {
        var r := Finish(Level(env, d, raw[i].body + [EOA]));
        assert [] + Settled(r.out) == Settled(r.out);
        assert WithPrescan(args, i, r.out) == ScansTo(env, d, m, raw, i + 1);
      } else {
        assert args == ScansTo(env, d, m, raw, i + 1);
      }
    }
  }

  /** The arguments that these texts are for the parameters of m; a variadic
      parameter may have none. */
  function CallArgs(m: Macro, texts: seq<seq<Token>>): seq<Arg>
    requires |texts| <= |m.params|
  {
    ArgsOf(m.params, texts, 0) + if |texts| == |m.params| then [] else [Arg(VA_ARGS, [], [], true)]
  }

  lemma {:induction false} ArgsRaw(params: seq<Name>, texts: seq<seq<Token>>, i: nat)
    requires i <= |texts| <= |params|
    ensures var a := ArgsOf(params, texts, i);
            && |a| == |texts| - i
            && forall k :: 0 <= k < |a| ==> a[k] == Arg(params[i + k], InArg(texts[i + k]), [], false)
    decreases |texts| - i
  {
    if i < |texts| {
      ArgsRaw(params, texts, i + 1);
      var a, b := ArgsOf(params, texts, i), ArgsOf(params, texts, i + 1);
      forall k | 0 <= k < |a| ensures a[k] == Arg(params[i + k], InArg(texts[i + k]), [], false) {
        if k > 0 { assert a[k] == b[k - 1]; }
      }
    }
  }

  lemma {:induction false} CallArgsFit(m: Macro, texts: seq<seq<Token>>)
    requires |texts| == |m.params| || (|texts| + 1 == |m.params| && m.params[|texts|] == VA_ARGS)
    ensures RawFor(CallArgs(m, texts), m.params)
  {
    hide ArgsOf, InArg;
    ArgsRaw(m.params, texts, 0);
    var raw, a := CallArgs(m, texts), ArgsOf(m.params, texts, 0);
    forall k | 0 <= k < |raw| ensures raw[k].param == m.params[k] && raw[k].expanded == [] {
      if k < |a| { assert raw[k] == a[k]; }
    }
  }

  lemma {:induction false} CallCollects(m: Macro, nl: seq<Token>, texts: seq<seq<Token>>, comma: Token, close: Token,
                                        rest: seq<Token>)
    requires Newlines(nl) && TextsFit(m.params, texts) && comma.kind == Comma && close.kind == RParen
    requires |texts| == |m.params| || (|texts| + 1 == |m.params| && m.params[|texts|] == VA_ARGS && texts != [])
    ensures var t := nl + CallText(texts, 0, comma, close, rest);
            var raw := CallArgs(m, texts);
            Collect(m.params, t) == Some(Collected(raw, rest)) && forall k :: 0 <= k < |raw| ==> |raw[k].body| < |t|
  {
    hide CollectFrom, CallText, ArgsOf, TextsFit, Newlines, SkipNl;
    var s := CallText(texts, 0, comma, close, rest);
    CollectGives(m.params, texts, comma, close, rest);
    SkipNewlines(nl, s);
    CollectBound(m.params, 0, SkipNl(nl + s), [], |nl + s|);
  }

  /** r is what comes of a call of f with the arguments raw in front of rest:
      where every prescan and the substitution succeed the call is replaced. */
  ghost predicate Calls(env: Env, d: set<Name>, f: Token, raw: seq<Arg>, rest: seq<Token>, r: Outcome)
    requires f.text in env.table
  {
    var m := env.table[f.text];
    if forall k :: 0 <= k < |raw| ==> ScanOk(env, d, m, raw[k]) then
      match Subst(env.lexis, m, f, ScansTo(env, d, m, raw, |raw|))
      case None => !r.ok && r.out == []
      case Some(b) => Enters(env, d, f.text, b, rest, r)
    else !r.ok && r.out == []
  }

  lemma {:induction false} CallsTick(env: Env, d: set<Name>, f: Token, raw: seq<Arg>, rest: seq<Token>, k: nat,
                                     r: Outcome)
    requires f.text in env.table && Calls(env, d, f, raw, rest, r)
    ensures Calls(env, d, f, raw, rest, Tick(k, r))
  {
    hide Level, Subst, ScanOk;
  }

  lemma {:induction false} CallGoes(env: Env, d: set<Name>, f: Token, r: seq<Token>, raw: seq<Arg>, rest: seq<Token>)
    requires Judge(env, d, f).Wait? && !AtEnd(r)
    requires var m := env.table[f.text];
             && Distinct(m.params) && RawFor(raw, m.params) && Collect(m.params, r[1..]) == Some(Collected(raw, rest))
             && forall k :: 0 <= k < |raw| ==> |raw[k].body| + 1 < |r|
    ensures Calls(env, d, f, raw, rest, Call(env, d, f, r))
  {
    hide Level, Inside, Subst, PrescanFrom, Enters, Collect, Distinct, RawFor, ScanOk;
    var m := env.table[f.text];
    assert raw == ScansTo(env, d, m, raw, 0);
    PrescanGives(env, d, m, raw, 0, |r|);
    var p := PrescanFrom(env, d, m, raw, 0, |r|);
    if p.ok && Subst(env.lexis, m, f, p.args).Some? {
      var b := Subst(env.lexis, m, f, p.args).value;
      InsideEnters(env, d, f.text, b, rest, |r|);
      EntersTick(env, d, f.text, b, rest, p.steps + 1, Inside(env, d, f.text, b, rest, |r|));
    }
  }

  /** A call with one balanced text for each parameter, the last of which may
      stand for any number of them or be left out, with newlines on both sides of
      the '(': the call is replaced, and its arguments are gone. */
  lemma {:induction false} CallLaw(env: Env, d: set<Name>, f: Token, nl: seq<Token>, open: Token, nl': seq<Token>,
                                   texts: seq<seq<Token>>, comma: Token, close: Token, rest: seq<Token>)
    requires Replaceable(env, d, f) && env.table[f.text].func && Distinct(env.table[f.text].params)
    requires Newlines(nl) && open.kind == LParen && Newlines(nl') && comma.kind == Comma && close.kind == RParen
    requires var params := env.table[f.text].params;
             && TextsFit(params, texts)
             && (|texts| == |params| || (|texts| + 1 == |params| && params[|texts|] == VA_ARGS && texts != []))
    ensures var m := env.table[f.text];
            var s := [f] + (nl + ([open] + (nl' + CallText(texts, 0, comma, close, rest))));
            var r := Level(env, d, s);
            var raw := CallArgs(m, texts);
            Calls(env, d, f, raw, rest, r)
  {
    hide Level, Inside, Subst, PrescanFrom, Enters, Collect, TextsFit, Calls, Distinct, RawFor;
    var m := env.table[f.text];
    var t := nl' + CallText(texts, 0, comma, close, rest);
    var r := [open] + t;
    LevelWaits(env, d, f, nl + r);
    SkipNewlines(nl, r);
    assert SkipNl(r) == r && r[1..] == t;
    CallCollects(m, nl', texts, comma, close, rest);
    CallArgsFit(m, texts);
    assert Resume(env, d, Some(f), nl + r) == Call(env, d, f, r);
    CallGoes(env, d, f, r, CallArgs(m, texts), rest);
    CallsTick(env, d, f, CallArgs(m, texts), rest, 1, Call(env, d, f, r));
  }
}
