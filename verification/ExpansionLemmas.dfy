/** Properties of the recursive definition of macro expansion. */
module ExpansionLemmas {
  import opened Wrappers
  import opened Tokens
  import opened MacroArgs
  import opened Substitution
  import opened Prescan
  import opened Expansion

  // -------------------------------------------------------------------
  // What expansion keeps of parentheses.
  // -------------------------------------------------------------------

  /** The profile of what can still be read. */
  function Ahead(s: seq<Token>): Profile {
    if AtEnd(s) then NEUTRAL else Join(Prof1(s[0]), Ahead(s[1..]))
  }

  lemma {:induction false} AheadSkipNl(s: seq<Token>)
    requires Ahead(s).plain
    ensures SkipNl(s) == s
  {
  }

  lemma {:induction false} AheadEnded(b: seq<Token>, e: Token)
    requires Prof(b).plain && Sentinel(e)
    ensures Ahead(b + [e]) == Prof(b)
  {
    if b != [] {
      AheadEnded(b[1..], e);
      assert (b + [e])[1..] == b[1..] + [e];
    }
  }

  lemma {:induction false} DepthProf(s: seq<Token>, d: nat)
    requires Depth(s, d).Some?
    ensures var p := Prof(s); p.closers <= d && Depth(s, d).value == d - p.closers + p.openers
  {
    if s != [] {
      DepthProf(s[1..], Nest(s[0], d));
    }
  }

  lemma {:induction false} GoodArgClean(rule: Rule, a: Arg, param: Name)
    requires GoodArg(a, param)
    ensures CleanArg(rule, a)
  {
    DepthProf(a.body, 0);
    ProfPlain(a.body);
    var e := Prof(a.expanded);
  }

  lemma {:induction false} CollectClean(rule: Rule, params: seq<Name>, s: seq<Token>)
    requires Collect(params, s).Some?
    ensures CleanArgs(rule, Collect(params, s).value.args)
  {
    CollectPartitions(params, s);
    var c := Collect(params, s).value;
    forall k | 0 <= k < |c.args| ensures CleanArg(rule, c.args[k]) {
      GoodArgClean(rule, c.args[k], params[k]);
    }
  }

  lemma {:induction false} CollectOneAhead(s: seq<Token>, paren: nat, va: bool)
    requires OffNl(s) && CollectOne(s, paren, va).Some? && Ahead(s).plain
    ensures var o := CollectOne(s, paren, va).value; Ahead(s) == Join(Profile(paren, 0, true), Ahead(o.rest))
    decreases |s|
  {
    if paren == 0 && (s[0].kind == RParen || (!va && s[0].kind == Comma)) {
    } else {
      AheadSkipNl(s[1..]);
      CollectOneAhead(s[1..], Nest(s[0], paren), va);
    }
  }

  lemma {:induction false} CollectFromAhead(params: seq<Name>, i: nat, s: seq<Token>, args: seq<Arg>)
    requires i <= |params| && OffNl(s) && Ahead(s).plain
    requires CollectFrom(params, i, s, args).Some?
    ensures Ahead(s) == Join(Profile(1, 0, true), Ahead(CollectFrom(params, i, s, args).value.rest))
    decreases |params| - i
  {
    if i == |params| || (i > 0 && s[0].kind != Comma) {
    } else {
      if i > 0 {
        AheadSkipNl(s[1..]);
      }
      var s1 := if i > 0 then s[1..] else s;
      CollectOneAhead(s1, 0, params[i] == VA_ARGS);
      var o := CollectOne(s1, 0, params[i] == VA_ARGS).value;
      CollectFromAhead(params, i + 1, o.rest, args + [Arg(params[i], o.body, [], false)]);
    }
  }

  /** The profile of a level's output, a waiting name included, is that of its
      text as far as the rule goes. */
  predicate Kept(rule: Rule, r: Outcome, s: seq<Token>) { r.ok ==> Keeps(rule, Prof(Finish(r).out), Ahead(s)) }

  lemma {:induction false} WaitingNeutral(env: Env, d: set<Name>, dg: Option<Token>, out: seq<Token>)
    requires Waiting(env, d, dg)
    ensures Prof(out) == Prof(Finish(Outcome(true, out, dg, 0)).out)
  {
    if dg.Some? {
      ProfSnoc(out, dg.value);
    }
  }

  lemma {:induction false} EmitKept(rule: Rule, o: seq<Token>, r: Outcome, p: Profile, q: Profile)
    requires r.ok ==> Keeps(rule, Prof(Finish(r).out), q)
    requires Prof(o) == p
    ensures Emit(o, r).ok ==> Keeps(rule, Prof(Finish(Emit(o, r)).out), Join(p, q))
  {
    if r.ok {
      ProfConcat(o, Finish(r).out);
      JoinKeeps(rule, p, Prof(Finish(r).out), p, q);
      assert Finish(Emit(o, r)).out == o + Finish(r).out;
    }
  }

  lemma {:induction false} ThenKept(rule: Rule, env: Env, d: set<Name>, a: Outcome, b: Outcome, q: Profile)
    requires Waiting(env, d, a.dangle)
    requires a.ok ==> Keeps(rule, Prof(Finish(a).out), NEUTRAL)
    requires b.ok ==> Keeps(rule, Prof(Finish(b).out), q)
    ensures Then(a, b).ok ==> Keeps(rule, Prof(Finish(Then(a, b)).out), q)
  {
    if a.ok && b.ok {
      WaitingNeutral(env, d, a.dangle, a.out);
      ProfConcat(a.out, Finish(b).out);
      JoinKeeps(rule, Prof(a.out), Prof(Finish(b).out), NEUTRAL, q);
      JoinUnit(q);
      assert Finish(Then(a, b)).out == a.out + Finish(b).out;
    }
  }

  lemma {:induction false} WithPrescanClean(rule: Rule, args: seq<Arg>, j: nat, out: seq<Token>)
    requires j < |args| && CleanArgs(rule, args) && Obeys(rule, out)
    ensures CleanArgs(rule, WithPrescan(args, j, out))
  {
    ProfKinds(out, Settled(out));
    assert CleanArg(rule, args[j]);
    ProfConcat(args[j].expanded, Settled(out));
    JoinKeeps(rule, Prof(args[j].expanded), Prof(Settled(out)), NEUTRAL, NEUTRAL);
  }

  lemma {:induction false} PrescanClean(rule: Rule, env: Env, d: set<Name>, m: Macro, args: seq<Arg>, i: nat, n: nat)
    requires Lists(env, rule) && i <= |m.params| && CleanArgs(rule, args)
    requires forall k :: 0 <= k < |args| ==> |args[k].body| + 1 < n
    ensures var p := PrescanFrom(env, d, m, args, i, n); p.ok ==> CleanArgs(rule, p.args)
    decreases Enabled(env, d), n, 1, |m.params| - i
  {
    if i == |m.params| {
    } else if !PreExpandOk(m, m.params[i]) || FindFrom(args, m.params[i], 0).None? {
      PrescanClean(rule, env, d, m, args, i + 1, n);
    } else {
      var j := FindFrom(args, m.params[i], 0).value;
      AheadEnded(args[j].body, EOA);
      LevelKept(rule, env, d, args[j].body + [EOA]);
      var r := Finish(Level(env, d, args[j].body + [EOA]));
      if r.ok {
        WithPrescanClean(rule, args, j, r.out);
        PrescanClean(rule, env, d, m, WithPrescan(args, j, r.out), i + 1, n);
      }
    }
  }

  /** With replacement lists that obey a rule: when parentheses match in them the
      output has the profile of the text, when they leave no '(' unmatched the
      output leaves no more of them than the text and no fewer ')', and plain
      lists give plain output. */
  lemma {:induction false} LevelKept(rule: Rule, env: Env, d: set<Name>, s: seq<Token>)
    requires Lists(env, rule) && Ahead(s).plain
    ensures Kept(rule, Level(env, d, s), s)
    decreases Enabled(env, d), |s|, 1, 0
  {
    hide Prof, Resume, Inside, Subst;
    ProfNone();
    if !AtEnd(s) {
      match Judge(env, d, s[0])
      case Keep =>
        LevelKept(rule, env, d, s[1..]);
        ProfOne(s[0]);
        EmitKept(rule, [s[0]], Level(env, d, s[1..]), Prof1(s[0]), Ahead(s[1..]));
      case Paint =>
        LevelKept(rule, env, d, s[1..]);
        ProfOne(Painted(s[0]));
        EmitKept(rule, [Painted(s[0])], Level(env, d, s[1..]), Prof1(s[0]), Ahead(s[1..]));
      case Wait(_) =>
        ResumeKept(rule, env, d, Some(s[0]), s[1..]);
      case Open(m) =>
        if Subst(env.lexis, m, s[0], []).Some? {
          SubstBalanced(rule, env.lexis, m, s[0], []);
          InsideKept(rule, env, d, s[0].text, Subst(env.lexis, m, s[0], []).value, s[1..], |s|);
        }
    }
  }

  lemma {:induction false} InsideKept(rule: Rule, env: Env, d: set<Name>, n: Name, b: seq<Token>, rest: seq<Token>,
                                      bound: nat)
    requires Lists(env, rule) && n in env.table && n !in d && |rest| < bound
    requires Obeys(rule, b) && Ahead(rest).plain
    ensures Kept(rule, Inside(env, d, n, b, rest, bound), rest)
    decreases Enabled(env, d), bound, 0, 0
  {
    hide Prof, Level, Resume;
    EnabledDrops(env, d, n);
    AheadEnded(b, EomOf(n));
    LevelKept(rule, env, d + {n}, b + [EomOf(n)]);
    var a := Level(env, d + {n}, b + [EomOf(n)]);
    ResumeKept(rule, env, d, a.dangle, rest);
    ThenKept(rule, env, d, a, Resume(env, d, a.dangle, rest), Ahead(rest));
  }

  lemma {:induction false} GivenUpKept(rule: Rule, f: Token, r: Outcome, q: Profile)
    requires f.kind == Identifier && (r.ok ==> Keeps(rule, Prof(Finish(r).out), q))
    ensures Emit([f], r).ok ==> Keeps(rule, Prof(Finish(Emit([f], r)).out), q)
  {
    ProfOne(f);
    EmitKept(rule, [f], r, Prof1(f), q);
    JoinUnit(q);
  }

  lemma {:induction false} ResumeKept(rule: Rule, env: Env, d: set<Name>, dg: Option<Token>, s: seq<Token>)
    requires Lists(env, rule) && Waiting(env, d, dg) && Ahead(s).plain
    ensures Kept(rule, Resume(env, d, dg, s), s)
    decreases Enabled(env, d), |s|, 3, 0
  {
    hide Prof, Level, Call;
    AheadSkipNl(s);
    if dg.None? {
      LevelKept(rule, env, d, s);
    } else if AtEnd(s) {
      assert Finish(Resume(env, d, dg, s)).out == [dg.value];
      ProfOne(dg.value);
    } else if s[0].kind != LParen {
      LevelKept(rule, env, d, s);
      GivenUpKept(rule, dg.value, Level(env, d, s), Ahead(s));
    } else {
      CallKept(rule, env, d, dg.value, s);
    }
  }

  lemma {:induction false} TickKept(rule: Rule, k: nat, r: Outcome, s: seq<Token>, s': seq<Token>)
    requires r == FAIL || (Kept(rule, r, s') && Ahead(s) == Ahead(s'))
    ensures Kept(rule, Tick(k, r), s) && Kept(rule, FAIL, s)
  {
  }

  /** A call takes one '(' and the ')' that matches it. */
  lemma {:induction false} CallAhead(rule: Rule, params: seq<Name>, r: seq<Token>)
    requires !AtEnd(r) && r[0].kind == LParen && Ahead(r).plain && Collect(params, r[1..]).Some?
    ensures var c := Collect(params, r[1..]).value; Ahead(r) == Ahead(c.rest) && CleanArgs(rule, c.args)
    ensures var c := Collect(params, r[1..]).value; forall k :: 0 <= k < |c.args| ==> |c.args[k].body| + 1 < |r|
  {
    hide Prof;
    AheadSkipNl(r[1..]);
    CollectFromAhead(params, 0, r[1..], []);
    CollectClean(rule, params, r[1..]);
    CollectBound(params, 0, SkipNl(r[1..]), [], |r[1..]|);
  }

  lemma {:induction false} CallKept(rule: Rule, env: Env, d: set<Name>, f: Token, r: seq<Token>)
    requires Lists(env, rule) && Judge(env, d, f).Wait? && !AtEnd(r) && r[0].kind == LParen && Ahead(r).plain
    ensures Kept(rule, Call(env, d, f, r), r)
    decreases Enabled(env, d), |r|, 2, 0
  {
    hide Prof, Level, Inside, PrescanFrom, Resume, Subst, SubstFrom, CollectFrom, CollectOne, Finish, Kept, Ahead, Tick;
    var m := Judge(env, d, f).m;
    TickKept(rule, 0, FAIL, r, r);
    if Collect(m.params, r[1..]).Some? {
      var c := Collect(m.params, r[1..]).value;
      CallAhead(rule, m.params, r);
      PrescanClean(rule, env, d, m, c.args, 0, |r|);
      var p := PrescanFrom(env, d, m, c.args, 0, |r|);
      TickKept(rule, p.steps + 1, FAIL, r, r);
      if p.ok && Subst(env.lexis, m, f, p.args).Some? {
        var b := Subst(env.lexis, m, f, p.args).value;
        SubstBalanced(rule, env.lexis, m, f, p.args);
        InsideKept(rule, env, d, f.text, b, c.rest, |r|);
        TickKept(rule, p.steps + 1, Inside(env, d, f.text, b, c.rest, |r|), r, c.rest);
      }
    }
  }

  // -------------------------------------------------------------------
  // Names of the macros being expanded are left over painted.
  // -------------------------------------------------------------------

  /** Every name of a macro in d, object-like or function-like, is painted. */
  predicate Dead(env: Env, d: set<Name>, s: seq<Token>) {
    forall i :: 0 <= i < |s| ==>
      (s[i].kind == Identifier && s[i].text in env.table && s[i].text in d ==> s[i].flags.noexpand)
  }

  /** Whatever a text becomes while the macros in d are being expanded, their
      names in it are painted for good (section 6.10.3.4). */
  lemma {:induction false} LevelDead(env: Env, d: set<Name>, s: seq<Token>)
    ensures Dead(env, d, Level(env, d, s).out)
    decreases Enabled(env, d), |s|, 1, 0
  {
    if !AtEnd(s) {
      match Judge(env, d, s[0])
      case Keep => LevelDead(env, d, s[1..]);
      case Paint => LevelDead(env, d, s[1..]);
      case Wait(_) => ResumeDead(env, d, Some(s[0]), s[1..]);
      case Open(m) =>
        if Subst(env.lexis, m, s[0], []).Some? {
          InsideDead(env, d, s[0].text, Subst(env.lexis, m, s[0], []).value, s[1..], |s|);
        }
    }
  }

  lemma {:induction false} InsideDead(env: Env, d: set<Name>, n: Name, b: seq<Token>, rest: seq<Token>, bound: nat)
    requires n in env.table && n !in d && |rest| < bound
    ensures Dead(env, d, Inside(env, d, n, b, rest, bound).out)
    decreases Enabled(env, d), bound, 0, 0
  {
    EnabledDrops(env, d, n);
    LevelDead(env, d + {n}, b + [EomOf(n)]);
    ResumeDead(env, d, Level(env, d + {n}, b + [EomOf(n)]).dangle, rest);
  }

  lemma {:induction false} ResumeDead(env: Env, d: set<Name>, dg: Option<Token>, s: seq<Token>)
    requires Waiting(env, d, dg)
    ensures Dead(env, d, Resume(env, d, dg, s).out)
    decreases Enabled(env, d), |s|, 3, 0
  {
    var r := SkipNl(s);
    if dg.None? {
      LevelDead(env, d, s);
    } else if AtEnd(r) {
    } else if r[0].kind != LParen {
      LevelDead(env, d, r);
    } else {
      var f := dg.value;
      var m := Judge(env, d, f).m;
      if Collect(m.params, r[1..]).Some? {
        var c := Collect(m.params, r[1..]).value;
        CollectBound(m.params, 0, SkipNl(r[1..]), [], |r[1..]|);
        var p := PrescanFrom(env, d, m, c.args, 0, |r|);
        if p.ok && Subst(env.lexis, m, f, p.args).Some? {
          InsideDead(env, d, f.text, Subst(env.lexis, m, f, p.args).value, c.rest, |r|);
        }
      }
    }
  }

  // -------------------------------------------------------------------
  // Nothing that can be replaced is left over.
  // -------------------------------------------------------------------

  /** No unpainted name of an object-like macro is among these tokens. */
  predicate Exhausted(env: Env, s: seq<Token>) {
    forall i :: 0 <= i < |s| ==> !Judge(env, {}, s[i]).Open?
  }

  lemma {:induction false} LevelExhausts(env: Env, d: set<Name>, s: seq<Token>)
    ensures Exhausted(env, Level(env, d, s).out)
    decreases Enabled(env, d), |s|, 1, 0
  {
    if !AtEnd(s) {
      match Judge(env, d, s[0])
      case Keep => LevelExhausts(env, d, s[1..]);
      case Paint => LevelExhausts(env, d, s[1..]);
      case Wait(_) => ResumeExhausts(env, d, Some(s[0]), s[1..]);
      case Open(m) =>
        if Subst(env.lexis, m, s[0], []).Some? {
          InsideExhausts(env, d, s[0].text, Subst(env.lexis, m, s[0], []).value, s[1..], |s|);
        }
    }
  }

  lemma {:induction false} InsideExhausts(env: Env, d: set<Name>, n: Name, b: seq<Token>, rest: seq<Token>, bound: nat)
    requires n in env.table && n !in d && |rest| < bound
    ensures Exhausted(env, Inside(env, d, n, b, rest, bound).out)
    decreases Enabled(env, d), bound, 0, 0
  {
    EnabledDrops(env, d, n);
    LevelExhausts(env, d + {n}, b + [EomOf(n)]);
    ResumeExhausts(env, d, Level(env, d + {n}, b + [EomOf(n)]).dangle, rest);
  }

  lemma {:induction false} ResumeExhausts(env: Env, d: set<Name>, dg: Option<Token>, s: seq<Token>)
    requires Waiting(env, d, dg)
    ensures Exhausted(env, Resume(env, d, dg, s).out)
    decreases Enabled(env, d), |s|, 3, 0
  {
    var r := SkipNl(s);
    if dg.None? {
      LevelExhausts(env, d, s);
    } else if AtEnd(r) {
    } else if r[0].kind != LParen {
      LevelExhausts(env, d, r);
    } else {
      var f := dg.value;
      var m := Judge(env, d, f).m;
      if Collect(m.params, r[1..]).Some? {
        var c := Collect(m.params, r[1..]).value;
        CollectBound(m.params, 0, SkipNl(r[1..]), [], |r[1..]|);
        var p := PrescanFrom(env, d, m, c.args, 0, |r|);
        if p.ok && Subst(env.lexis, m, f, p.args).Some? {
          InsideExhausts(env, d, f.text, Subst(env.lexis, m, f, p.args).value, c.rest, |r|);
        }
      }
    }
  }

  /** In the expansion of a text, every object-like macro name that is left
      was met inside that macro's own expansion and is painted for good. */
  lemma {:induction false} ExpandedExhausted(env: Env, text: seq<Token>)
    ensures Exhausted(env, Expanded(env, text).out)
  {
    LevelExhausts(env, {}, text);
  }
}
