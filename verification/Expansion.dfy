/** Macro expansion as a recursive definition: what a level of text becomes
    while a set of macros is being expanded around it
    (sections 6.10.3.1 and 6.10.3.4 of ISO/IEC 9899:2011). */
module Expansion {
  import opened Wrappers
  import opened Tokens
  import opened MacroArgs
  import opened Substitution
  import opened Prescan

  datatype Env = Env(table: map<Name, Macro>, lexis: Lexis)

  /** All replacement lists obey the rule. */
  predicate Lists(env: Env, rule: Rule) {
    forall n :: n in env.table ==> Obeys(rule, env.table[n].body)
  }

  predicate ObjectLike(env: Env) { forall n :: n in env.table ==> !env.table[n].func }

  /** Without function-like macros nothing is asked of parentheses; with them
      no '(' may be unmatched, for the arguments of a call that begins with it
      would be looked for behind the end of the list. */
  function RuleOf(env: Env): Rule { if ObjectLike(env) then Loose else Shut }

  predicate EnvOk(env: Env) { Lists(env, RuleOf(env)) }

  /** What becomes of a token read while the macros in d are being expanded. */
  datatype Verdict = Keep | Paint | Open(m: Macro) | Wait(m: Macro)

  function Judge(env: Env, d: set<Name>, t: Token): Verdict {
    if t.kind != Identifier || t.flags.noexpand || t.text !in env.table then Keep
    else if t.text in d then Paint
    else if env.table[t.text].func then Wait(env.table[t.text])
    else Open(env.table[t.text])
  }

  /** An unpainted name of a macro that is not being expanded. */
  predicate Replaceable(env: Env, d: set<Name>, t: Token) {
    t.kind == Identifier && !t.flags.noexpand && t.text in env.table && t.text !in d
  }

  function Painted(t: Token): Token { t.(flags := t.flags.(noexpand := true)) }

  /** A function-like name that still waits for its '('. */
  predicate Waiting(env: Env, d: set<Name>, dg: Option<Token>) {
    dg.Some? ==> Judge(env, d, dg.value).Wait?
  }

  /** The result of a level: whether no error was diagnosed, the tokens put
      out, the function-like name the level ended with, if any, and how many
      steps it took. */
  datatype Outcome = Outcome(ok: bool, out: seq<Token>, dangle: Option<Token>, steps: nat)

  const FAIL := Outcome(false, [], None, 0)

  function Emit(o: seq<Token>, r: Outcome): Outcome {
    Outcome(r.ok, o + r.out, r.dangle, r.steps + 1)
  }

  function Then(a: Outcome, b: Outcome): Outcome {
    if a.ok then Outcome(b.ok, a.out + b.out, b.dangle, a.steps + b.steps + 1)
    else Outcome(false, a.out, None, a.steps + 1)
  }

  function Tick(k: nat, r: Outcome): Outcome { r.(steps := r.steps + k) }

  /** At the end of the text a waiting name is an ordinary identifier. */
  function Finish(r: Outcome): Outcome {
    if r.ok && r.dangle.Some? then Outcome(true, r.out + [r.dangle.value], None, r.steps) else r.(dangle := None)
  }

  ghost function Enabled(env: Env, d: set<Name>): nat { |env.table.Keys - d| }

  lemma {:induction false} EnabledDrops(env: Env, d: set<Name>, n: Name)
    requires n in env.table && n !in d
    ensures Enabled(env, d + {n}) < Enabled(env, d)
  {
    assert env.table.Keys - (d + {n}) == (env.table.Keys - d) - {n};
  }

  lemma {:induction false} CollectBound(params: seq<Name>, i: nat, s: seq<Token>, args: seq<Arg>, n: nat)
    requires i <= |params| && OffNl(s) && |s| <= n && n > 0
    requires forall k :: 0 <= k < |args| ==> |args[k].body| < n
    requires CollectFrom(params, i, s, args).Some?
    ensures var c := CollectFrom(params, i, s, args).value.args;
            forall k :: 0 <= k < |c| ==> |c[k].body| < n
    decreases |params| - i
  {
    if i == |params| || (i > 0 && s[0].kind != Comma) {
    } else {
      var s1 := if i > 0 then SkipNl(s[1..]) else s;
      var o := CollectOne(s1, 0, params[i] == VA_ARGS).value;
      CollectBound(params, i + 1, o.rest, args + [Arg(params[i], o.body, [], false)], n);
    }
  }

  function Settled(s: seq<Token>): (r: seq<Token>)
    ensures |r| == |s| && forall i :: 0 <= i < |s| ==> r[i] == s[i].(flags := s[i].flags.(bol := false))
  {
    seq(|s|, i requires 0 <= i < |s| => s[i].(flags := s[i].flags.(bol := false)))
  }

  /** Argument j with out appended to its prescan. */
  function WithPrescan(args: seq<Arg>, j: nat, out: seq<Token>): (r: seq<Arg>)
    requires j < |args|
    ensures |r| == |args| && forall k :: 0 <= k < |args| ==> r[k].body == args[k].body
  {
    args[j := args[j].(expanded := args[j].expanded + Settled(out))]
  }

  datatype Scanned = Scanned(ok: bool, args: seq<Arg>, steps: nat)

  /** The arguments with every prescan the replacement list will read. */
  ghost function PrescanFrom(env: Env, d: set<Name>, m: Macro, args: seq<Arg>, i: nat, n: nat): (r: Scanned)
    requires i <= |m.params|
    requires forall k :: 0 <= k < |args| ==> |args[k].body| + 1 < n
    ensures |r.args| == |args| && forall k :: 0 <= k < |args| ==> r.args[k].body == args[k].body
    decreases Enabled(env, d), n, 1, |m.params| - i
  {
    if i == |m.params| then Scanned(true, args, 0)
    else if !PreExpandOk(m, m.params[i]) || FindFrom(args, m.params[i], 0).None? then
      PrescanFrom(env, d, m, args, i + 1, n)
    else
      var j := FindFrom(args, m.params[i], 0).value;
      var r := Finish(Level(env, d, args[j].body + [EOA]));
      if !r.ok then Scanned(false, args, r.steps + 1)
      else
        var p := PrescanFrom(env, d, m, WithPrescan(args, j, r.out), i + 1, n);
        Scanned(p.ok, p.args, r.steps + 1 + p.steps)
  }

  /** Expands s, the unread rest of one level, up to its end. */
  ghost function Level(env: Env, d: set<Name>, s: seq<Token>): (r: Outcome)
    ensures Waiting(env, d, r.dangle)
    decreases Enabled(env, d), |s|, 1, 0
  {
    if AtEnd(s) then Outcome(true, [], None, 0)
    else
      match Judge(env, d, s[0])
      case Keep => Emit([s[0]], Level(env, d, s[1..]))
      case Paint => Emit([Painted(s[0])], Level(env, d, s[1..]))
      case Wait(_) => Tick(1, Resume(env, d, Some(s[0]), s[1..]))
      case Open(m) =>
        match Subst(env.lexis, m, s[0], [])
        case None => FAIL
        case Some(b) => Tick(1, Inside(env, d, s[0].text, b, s[1..], |s|))
  }

  /** Expands the replacement b of n, then goes on with rest. */
  ghost function Inside(env: Env, d: set<Name>, n: Name, b: seq<Token>, rest: seq<Token>, bound: nat): (r: Outcome)
    requires n in env.table && n !in d && |rest| < bound
    ensures Waiting(env, d, r.dangle)
    decreases Enabled(env, d), bound, 0, 0
  {
    EnabledDrops(env, d, n);
    var a := Level(env, d + {n}, b + [EomOf(n)]);
    Then(a, Resume(env, d, a.dangle, rest))
  }

  /** Goes on with s when the name dg, if any, has just been read before it. */
  ghost function Resume(env: Env, d: set<Name>, dg: Option<Token>, s: seq<Token>): (r: Outcome)
    requires Waiting(env, d, dg)
    ensures Waiting(env, d, r.dangle)
    decreases Enabled(env, d), |s|, 3, 0
  {
    if dg.None? then Level(env, d, s)
    else
      var r := SkipNl(s);
      if AtEnd(r) then Outcome(true, [], dg, 0)
      else if r[0].kind != LParen then Emit([dg.value], Level(env, d, r))
      else Call(env, d, dg.value, r)
  }

  /** The call of the function-like macro f whose '(' begins r. */
  ghost function Call(env: Env, d: set<Name>, f: Token, r: seq<Token>): (o: Outcome)
    requires Judge(env, d, f).Wait? && !AtEnd(r)
    ensures Waiting(env, d, o.dangle)
    decreases Enabled(env, d), |r|, 2, 0
  {
    var m := Judge(env, d, f).m;
    match Collect(m.params, r[1..])
    case None => FAIL
    case Some(c) =>
      CollectBound(m.params, 0, SkipNl(r[1..]), [], |r[1..]|);
      var p := PrescanFrom(env, d, m, c.args, 0, |r|);
      if !p.ok then Tick(p.steps + 1, FAIL)
      else
        match Subst(env.lexis, m, f, p.args)
        case None => Tick(p.steps + 1, FAIL)
        case Some(b) => Tick(p.steps + 1, Inside(env, d, f.text, b, c.rest, |r|))
  }

  /** The expansion of a whole text. */
  ghost function Expanded(env: Env, text: seq<Token>): Outcome { Finish(Level(env, {}, text)) }
}
