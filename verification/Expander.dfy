/** The macro expansion engine: a stack of expansion streams, a queue of
    tokens pushed back, and one "disabled" bit per macro, changed in place. */
module Expander {
  import opened Wrappers
  import opened Tokens
  import opened MacroArgs
  import opened Substitution
  import opened Prescan
  import opened Expansion
  import opened ExpansionLemmas
  import opened Stack
  import opened Lines
  import opened ObjectMacros

  class Engine {
    const env: Env
    var pending: seq<Token>
    var es: seq<Stream>
    var disabled: set<Name>
    var input: seq<Token>

    constructor (env: Env, input: seq<Token>)
      requires EnvOk(env) && NoSentinel(input)
      ensures this.env == env && this.input == input && pending == [] && es == [] && disabled == {}
      ensures Valid()
    {
      this.env := env;
      this.input := input;
      pending, es, disabled := [], [], {};
    }

    function Here(): Pos
      reads this
    {
      Pos(es, input)
    }

    /** Where the machine stands once the pushed-back token is put back. */
    function View(): Pos
      reads this
    {
      if pending == [] then Here() else Unget(pending[0], Here())
    }

    /** In every state between two steps a macro is disabled exactly when one
        unread Eom on the stack names it, and no macro has two. */
    ghost predicate Valid()
      reads this
    {
      && EnvOk(env)
      && StackOk(env, View().es)
      && NoSentinel(View().input)
      && disabled == Eoms(View().es)
      && |pending| <= 1
      && (pending != [] ==>
            && pending[0].kind != Eom
            && (pending[0].kind == Eof ==> pending[0] == EOF && Here() == Pos([], [])))
    }

    /** cpp_next: the next token, of the queue, of the top stream, or of the file. */
    method Next() returns (t: Token)
      requires Valid()
      modifies this
      ensures pending == [] && t == NextToken(old(View())) && Here() == NextPos(old(View()))
      ensures disabled == Eoms(es)
    {
      if pending != [] {
        t := pending[0];
        NextPushedBack(t, Here());
        pending := pending[1..];
        return;
      }
      while es != []
        invariant pending == [] && StackOk(env, es) && disabled == Eoms(es)
        invariant NextToken(Here()) == NextToken(old(View())) && NextPos(Here()) == NextPos(old(View()))
        decreases |es|
      {
        t := es[0][0];
        if t.kind == Eom {
          NextPop(env, Here());
          disabled := disabled - {t.text};
          es := es[1..];
        } else {
          NextTop(env, Here());
          es := es[0 := es[0][1..]];
          return;
        }
      }
      if input == [] {
        t := EOF;
      } else {
        t := input[0];
        input := input[1..];
      }
    }

    /** The token t is in hand: of the text that stands at p, s is still to be
        dealt with, t first. */
    ghost predicate Holds(t: Token, p: Pos, s: seq<Token>)
      reads this
    {
      && EnvOk(env)
      && StackOk(env, p.es)
      && NoSentinel(p.input)
      && disabled == Eoms(p.es)
      && pending == []
      && Suffix(s, Top(p)) && (p.es != [] ==> s != [])
      && t == First(s)
      && Here() == SetTop(p, Rest(s))
    }

    lemma {:induction false} HoldsNext(t: Token, p: Pos, s: seq<Token>)
      requires Holds(t, p, s) && s != [] && !Sentinel(t) && (p.es != [] ==> s[1..] != [])
      ensures Valid() && View() == SetTop(p, s[1..]) && Suffix(s[1..], Top(p))
      ensures p.es != [] ==> t.kind != Newline
    {
      SuffixTrans(s[1..], s, Top(p));
      SetTopOk(env, p, s[1..]);
      SetTopOk(env, p, s);
      InputSuffix(p.input, if p.es == [] then s[1..] else p.input);
    }

    /** cpp_next_nonl, when nothing is known of the next token. */
    method NextNonNl() returns (t: Token)
      requires Valid()
      modifies this
      ensures var q := Norm(old(View())); Holds(t, q, SkipNl(Top(q)))
    {
      ghost var q := Norm(View());
      NormOk(env, View());
      t := Next();
      ghost var s := Top(q);
      while t.kind == Newline
        invariant Holds(t, q, s) && SkipNl(s) == SkipNl(Top(q))
        decreases |s|
      {
        HoldsNext(t, q, s);
        t := Next();
        s := s[1..];
      }
    }

    /** cpp_next_nonl, when the next token is known to belong to the same level. */
    method Advance(t: Token, ghost p: Pos, ghost s: seq<Token>) returns (t': Token)
      requires Holds(t, p, s) && !Sentinel(t)
      requires p.es != [] ==> s[1..] != [] && s[1].kind != Eom
      modifies this
      ensures Holds(t', p, SkipNl(s[1..]))
    {
      HoldsNext(t, p, s);
      ghost var v := View();
      t' := NextNonNl();
      SkippedSuffix(s[1..]);
      SuffixTrans(SkipNl(s[1..]), s[1..], s);
      SuffixTrans(SkipNl(s[1..]), s, Top(p));
      if p.es != [] {
        SetTopOk(env, p, s[1..]);
        StreamSkipNl(s[1..]);
      }
    }

    /** In macro streams no '(' is unmatched, so inside an argument list there is
        a ')' still to come. */
    static ghost predicate Closing(p: Pos, s: seq<Token>, k: nat) {
      p.es != [] && IsMacro(p.es[0]) ==> Ahead(s).closers >= k
    }

    lemma {:induction false} HoldsFirst(t: Token, p: Pos, s: seq<Token>)
      requires Holds(t, p, s)
      ensures t == First(s)
    {
    }

    lemma {:induction false} ClosingNext(t: Token, p: Pos, s: seq<Token>, paren: nat)
      requires Holds(t, p, s) && s != [] && !Sentinel(s[0])
      requires s[0].kind == RParen ==> paren > 0
      requires Closing(p, s, paren + 1) && !ObjectLike(env)
      ensures p.es != [] ==> s[1..] != [] && s[1].kind != Eom
      ensures Closing(p, s[1..], Nest(s[0], paren) + 1) && Closing(p, SkipNl(s[1..]), Nest(s[0], paren) + 1)
    {
      if p.es != [] {
        StreamSuffix(env, s, p.es[0]);
        assert |s| > 1;
        StreamTail(env, s);
        assert s[1].kind != Newline;
      }
    }

    lemma {:induction false} ClosingStart(p: Pos)
      requires StackOk(env, p.es)
      requires p.es != [] && IsMacro(p.es[0]) ==> Ahead(p.es[0]).closers >= 1
      ensures Closing(p, SkipNl(Top(p)), 1)
    {
    }

    lemma {:induction false} HoldsEnd(t: Token, p: Pos, s: seq<Token>)
      requires Holds(t, p, s) && Closing(p, s, 1) && AtEnd(s)
      ensures t.kind == Eoa || t.kind == Eof
    {
      if p.es != [] {
        StreamSuffix(env, s, p.es[0]);
      } else {
        InputSuffix(p.input, s);
      }
    }

    /** Collects one argument; t is its first token. */
    method CollectArg(t0: Token, ghost p: Pos, ghost s0: seq<Token>, va: bool)
      returns (ok: bool, t: Token, body: seq<Token>, ghost s: seq<Token>)
      requires Holds(t0, p, s0) && OffNl(s0) && Closing(p, s0, 1) && !ObjectLike(env)
      modifies this
      ensures ok == CollectOne(s0, 0, va).Some?
      ensures ok ==> CollectOne(s0, 0, va) == Some(One(body, s)) && Holds(t, p, s) && Closing(p, s, 1)
    {
      hide CollectOne, Ahead, Holds;
      t, s, body := t0, s0, [];
      var paren: nat := 0;
      AfterNothing(CollectOne(s, 0, va));
      while true
        invariant Holds(t, p, s) && OffNl(s) && Closing(p, s, paren + 1)
        invariant CollectOne(s0, 0, va) == After(body, CollectOne(s, paren, va))
        decreases |s|
      {
        HoldsFirst(t, p, s);
        AfterEnd(body, s, paren, va);
        if t.kind == Eoa {
          return false, t, body, s;
        }
        if paren == 0 && t.kind == RParen {
          break;
        } else if paren == 0 && !va && t.kind == Comma {
          break;
        } else if t.kind == Eof {
          return false, t, body, s;
        }
        if AtEnd(s) {
          HoldsEnd(t, p, s);
        }
        AfterStep(body, s, paren, va);
        ClosingNext(t, p, s, paren);
        if t.kind == LParen {
          paren := paren + 1;
        } else if t.kind == RParen {
          paren := paren - 1;
        }
        body := body + [Settle(t)];
        t := Advance(t, p, s);
        s := SkipNl(s[1..]);
      }
      AfterLast(body, s, va);
      return true, t, body, s;
    }

    /** collect_args: the arguments of a call of m, whose '(' has been read. */
    method CollectArgs(m: Macro) returns (ok: bool, args: seq<Arg>)
      requires Valid() && pending == [] && !ObjectLike(env)
      requires es != [] && IsMacro(es[0]) ==> Ahead(es[0]).closers >= 1
      modifies this
      ensures ok == Collect(m.params, Top(old(Here()))).Some?
      ensures ok ==>
                var c := Collect(m.params, Top(old(Here()))).value;
                args == c.args && pending == [] && Here() == SetTop(old(Here()), c.rest) && disabled == old(disabled)
    {
      hide CollectOne, StackOk, Eoms, Suffix, Ahead;
      ghost var p := Here();
      ghost var s := SkipNl(Top(p));
      NormalAhead(env, p);
      ClosingStart(p);
      var t := NextNonNl();
      var i := 0;
      var emptyVaArg := false;
      args := [];
      while i < |m.params|
        invariant i <= |m.params| && !emptyVaArg
        invariant Holds(t, p, s) && OffNl(s) && Closing(p, s, 1)
        invariant i > 0 ==> t.kind == Comma || t.kind == RParen
        invariant CollectFrom(m.params, 0, SkipNl(Top(p)), []) == CollectFrom(m.params, i, s, args)
      {
        if i != 0 {
          if t.kind != Comma {
            if m.params[i] == VA_ARGS && t.kind == RParen {
              emptyVaArg := true;
              break;
            }
            return false, args;
          }
          ClosingNext(t, p, s, 0);
          t := Advance(t, p, s);
          s := SkipNl(s[1..]);
        }
        var got, t', body;
        ghost var s';
        got, t', body, s' := CollectArg(t, p, s, m.params[i] == VA_ARGS);
        if !got {
          return false, args;
        }
        t, s := t', s';
        args := args + [Arg(m.params[i], body, [], false)];
        i := i + 1;
      }
      if emptyVaArg {
        args := args + [Arg(VA_ARGS, [], [], true)];
      } else if t.kind != RParen {
        return false, args;
      }
      return true, args;
    }

    /** What the machine will still put out before the nearest end. */
    ghost function Left(): Outcome
      reads this
      requires Valid()
    {
      Run(env, View(), None)
    }

    /** Next, seen from what is left to put out. */
    method Read() returns (t: Token)
      requires Valid()
      modifies this
      ensures pending == [] && t.kind != Eom
      ensures t.kind == Eoa ==>
                && old(Left()).ok && old(Left()).out == []
                && es != [] && disabled == Eoms(es[1..])
                && Frame(old(View())) == Some(Pos(es[1..], input))
      ensures t.kind == Eof ==>
                && old(Left()).ok && old(Left()).out == []
                && Valid() && es == [] && input == [] && disabled == {}
                && Frame(old(View())).None? && Norm(old(View())) == Pos([], [])
      ensures !Sentinel(t) ==>
                && Valid()
                && SameFrame(old(View()), Here())
                && Same(old(Left()), Run(env, Unget(t, Here()), None))
                && Unget(t, Here()) == Norm(old(View())) && (t.kind == Newline ==> es == [])
    {
      ghost var v := View();
      ghost var q := Norm(v);
      NormOk(env, v);
      RunNorm(env, v, None);
      FrameTop(env, q);
      if AtEnd(Top(q)) {
        RunEnd(env, q);
      } else {
        ReadOk(env, v);
      }
      t := Next();
      if Sentinel(t) && q.es == [] {
        InputSuffix(q.input, q.input);
      }
    }

    /** One turn of every loop over text: read a token and expand a name. */
    method Turn(ghost budget: nat) returns (ok: bool, replaced: bool, t: Token)
      requires Valid() && Left().steps <= budget
      modifies this
      ensures t.kind != Eom && (!ok ==> !old(Left()).ok && old(Left()).out == [])
      ensures ok && t.kind == Eoa ==>
                && old(Left()).ok && old(Left()).out == [] && pending == []
                && es != [] && disabled == Eoms(es[1..])
                && Frame(old(View())) == Some(Pos(es[1..], input))
      ensures ok && t.kind == Eof ==>
                && old(Left()).ok && old(Left()).out == [] && pending == []
                && Valid() && es == [] && input == [] && disabled == {}
                && Frame(old(View())).None?
      ensures ok && !Sentinel(t) ==>
                && Valid() && SameFrame(old(View()), View())
                && Leads(old(Left()), if replaced then [] else [t], Left())
      decreases budget, 1
    {
      t := Read();
      if Sentinel(t) {
        return true, false, t;
      }
      ok, replaced, t := Take(t, budget);
    }

    /** Expands the token just read if it is a name. */
    method Take(t: Token, ghost budget: nat) returns (ok: bool, replaced: bool, t': Token)
      requires Valid() && pending == [] && !Sentinel(t)
      requires Run(env, Unget(t, Here()), None).steps <= budget
      modifies this
      ensures var before := old(Run(env, Unget(t, Here()), None));
              if !ok then !before.ok && before.out == []
              else
                && Valid()
                && SameFrame(old(Here()), View())
                && Leads(before, if replaced then [] else [t'], Left())
      ensures old(Dealt(env, Here(), t)) == if ok then Some(Deal(if replaced then [] else [t'], View())) else None
      ensures t'.kind == t.kind && (t.kind != Identifier ==> ok && !replaced && t' == t && View() == old(Here()))
      decreases budget, 1, 0
    {
      if t.kind == Identifier {
        ok, replaced, t' := Expand(t, budget);
        return;
      }
      RunKeep(env, Here(), t);
      return true, false, t;
    }

    /** expand_arg: the prescan of one argument, on a stream of its own that it
        pops again, with everything below left as it was. */
    method ExpandArg(body: seq<Token>, ghost budget: nat) returns (ok: bool, out: seq<Token>)
      requires Valid() && pending == [] && Plain(body)
      requires Level(env, Eoms(es), body + [EOA]).steps <= budget
      modifies this
      ensures ok == old(Level(env, Eoms(es), body + [EOA])).ok
      ensures ok ==>
                && out == Settled(Finish(old(Level(env, Eoms(es), body + [EOA]))).out)
                && es == old(es) && input == old(input) && pending == [] && disabled == old(disabled)
      decreases budget, 2
    {
      ghost var p := Here();
      ghost var goal := Finish(Level(env, Eoms(es), body + [EOA]));
      es := [body + [EOA]] + es;
      PushArgOk(env, p, body);
      GivesStart(goal);
      out := [];
      ghost var raw: seq<Token> := [];
      while true
        invariant Valid() && Frame(View()) == Some(p)
        invariant out == Settled(raw)
        invariant Gives(goal, raw, Left()) && Left().steps <= budget
        decreases Left().steps
      {
        ghost var left := Left();
        var replaced, tk;
        ok, replaced, tk := Turn(budget);
        if !ok {
          return false, out;
        }
        if tk.kind == Eoa {
          break;
        }
        GivesNext(goal, raw, left, if replaced then [] else [tk], Left());
        if !replaced {
          SettledSnoc(raw, tk);
          raw := raw + [tk];
          tk := tk.(flags := tk.flags.(bol := false));
          out := out + [tk];
        }
      }
      es := es[1..];
      return true, out;
    }

    /** Puts the replacement of n on the stack and disables n. */
    method Enter(n: Name, b: seq<Token>)
      requires Valid() && pending == [] && n in env.table && n !in disabled && Obeys(RuleOf(env), b)
      modifies this
      ensures Valid() && pending == [] && Here() == Push(n, b, old(Here())) && SameFrame(old(Here()), View())
    {
      PushOk(env, n, b, Here());
      es := [b + [EomOf(n)]] + es;
      disabled := disabled + {n};
    }

    /** expand: what becomes of the identifier t that has just been read.
        Either nothing replaces it, and t' is put out for it, or its
        replacement now stands on the stack. */
    method Expand(t: Token, ghost budget: nat) returns (ok: bool, replaced: bool, t': Token)
      requires Valid() && pending == [] && t.kind == Identifier
      requires Run(env, Unget(t, Here()), None).steps <= budget
      modifies this
      ensures var before := old(Run(env, Unget(t, Here()), None));
              if !ok then !before.ok && before.out == []
              else
                && Valid()
                && SameFrame(old(Here()), View())
                && Leads(before, if replaced then [] else [t'], Left())
      ensures old(Dealt(env, Here(), t)) == if ok then Some(Deal(if replaced then [] else [t'], View())) else None
      ensures t.flags.noexpand || t.text !in env.table ==> ok && !replaced && t' == t && View() == old(Here())
      ensures !t.flags.noexpand && t.text in env.table && t.text in old(disabled) ==>
                ok && !replaced && t' == t.(flags := t.flags.(noexpand := true)) && View() == old(Here())
      ensures ok && Replaceable(env, old(disabled), t) && !env.table[t.text].func ==> replaced
      ensures t'.kind == Identifier
      decreases budget, 0
    {
      ghost var p := Here();
      if t.flags.noexpand || t.text !in env.table {
        RunKeep(env, p, t);
        return true, false, t;
      }
      var m := env.table[t.text];
      if t.text in disabled {
        RunKeep(env, p, t);
        return true, false, Painted(t);
      }
      if !m.func {
        RunOpen(env, p, t);
        var got, b := Substitute(env.lexis, m, t, []);
        if !got {
          return false, false, t;
        }
        SubstBalanced(RuleOf(env), env.lexis, m, t, []);
        Enter(t.text, b);
        return true, true, t;
      }
      ok, replaced, t' := Invoke(m, t, budget);
    }

    /** The part of expand that deals with function-like macros. */
    method Invoke(m: Macro, t: Token, ghost budget: nat) returns (ok: bool, replaced: bool, t': Token)
      requires Valid() && pending == [] && Judge(env, Eoms(es), t) == Wait(m)
      requires Run(env, Unget(t, Here()), None).steps <= budget
      modifies this
      ensures var before := old(Run(env, Unget(t, Here()), None));
              if !ok then !before.ok && before.out == []
              else
                && Valid()
                && SameFrame(old(Here()), View())
                && Leads(before, if replaced then [] else [t'], Left())
      ensures old(Dealt(env, Here(), t)) == if ok then Some(Deal(if replaced then [] else [t'], View())) else None
      ensures t'.kind == Identifier
      decreases budget, 0, 1
    {
      ghost var p := Here();
      ghost var q := Norm(p);
      ghost var r := SkipNl(Top(q));
      RunWait(env, p, t);
      NormOk(env, p);
      var next := NextNonNl();
      if next.kind != LParen {
        GiveUp(t, next, q, r);
        return true, false, t;
      }
      ok, replaced := Call(m, t, next, q, r, budget);
      t' := t;
    }

    /** The name t is put out as it is; the token behind it is read again. */
    method GiveUp(t: Token, next: Token, ghost q: Pos, ghost r: seq<Token>)
      requires Holds(next, q, r) && r == SkipNl(Top(q)) && next.kind != LParen && Normal(q)
      requires Judge(env, Eoms(q.es), t).Wait?
      modifies this`pending
      ensures Valid() && SameFrame(q, View())
      ensures var a := Run(env, q, Some(t));
              a.ok == Left().ok && a.out == [t] + Left().out && Left().steps <= a.steps
      ensures Awaited(env, q, t) == Some(Deal([t], View()))
    {
      RunGiveUp(env, q, t, r);
      PushBack(next, q, r);
    }

    /** Queues the token in hand to be read again. */
    method PushBack(t: Token, ghost p: Pos, ghost s: seq<Token>)
      requires Holds(t, p, s) && (AtEnd(s) ==> t.kind in {Eoa, Eof})
      requires Normal(p)
      modifies this`pending
      ensures Valid() && View() == SetTop(p, s) && SameFrame(p, View())
    {
      SetTopOk(env, p, s);
      InputSuffix(p.input, if p.es == [] then s else p.input);
      UngetRest(p, s);
      pending := pending + [t];
    }

    /** Collects the arguments of a call of m whose '(' is in hand. */
    method CollectCall(m: Macro, paren: Token, ghost q: Pos, ghost r: seq<Token>) returns (ok: bool, args: seq<Arg>)
      requires Holds(paren, q, r) && paren.kind == LParen && !ObjectLike(env)
      modifies this
      ensures ok == Collect(m.params, r[1..]).Some?
      ensures ok ==>
                var c := Collect(m.params, r[1..]).value;
                args == c.args && pending == [] && Here() == SetTop(q, c.rest) && disabled == old(disabled)
    {
      AfterParen(env, q, r);
      HoldsNext(paren, q, r);
      SetTopTop(q, r[1..]);
      ok, args := CollectArgs(m);
    }

    /** The call of m whose name was t and whose '(' is in hand. */
    method Call(m: Macro, t: Token, paren: Token, ghost q: Pos, ghost r: seq<Token>, ghost budget: nat)
      returns (ok: bool, replaced: bool)
      requires Holds(paren, q, r) && Judge(env, Eoms(q.es), t) == Wait(m)
      requires r == SkipNl(Top(q)) && paren.kind == LParen
      requires Run(env, q, Some(t)).steps < budget
      modifies this
      ensures var before := Run(env, q, Some(t));
              if !ok then !before.ok && before.out == []
              else replaced && Valid() && SameFrame(q, View()) && Same(before, Left())
      ensures Called(env, q, t, r) == if ok then Some(View()) else None
      decreases budget, 0, 0
    {
      hide Level, PrescanFrom, CollectFrom, SubstFrom, Run, Cont;
      assert env.table[t.text].func;
      var args;
      ok, args := CollectCall(m, paren, q, r);
      if !ok {
        RunCallFails(env, q, t, r);
        return false, false;
      }
      CallAt(q, t, r);
      ok, args := PrescanArgs(m, args, |r|, budget - 1);
      if !ok {
        RunCallFails(env, q, t, r);
        return false, false;
      }
      var b;
      ok, b := Substitute(env.lexis, m, t, args);
      if !ok {
        RunCallFails(env, q, t, r);
        return false, false;
      }
      SubstBalanced(RuleOf(env), env.lexis, m, t, args);
      RunCall(env, q, t, r, b);
      Enter(t.text, b);
      return true, true;
    }

    /** Facts about a call whose arguments have been collected. */
    lemma {:induction false} CallAt(q: Pos, t: Token, r: seq<Token>)
      requires EnvOk(env) && StackOk(env, q.es) && NoSentinel(q.input) && Judge(env, Eoms(q.es), t).Wait?
      requires r == SkipNl(Top(q)) && r != [] && r[0].kind == LParen
      requires Collect(Judge(env, Eoms(q.es), t).m.params, r[1..]).Some?
      ensures var m := Judge(env, Eoms(q.es), t).m;
              var c := Collect(m.params, r[1..]).value;
              var p := SetTop(q, c.rest);
              && StackOk(env, p.es) && NoSentinel(p.input) && Eoms(p.es) == Eoms(q.es) && SameFrame(q, p)
              && CleanArgs(RuleOf(env), c.args)
              && (forall k :: 0 <= k < |c.args| ==> |c.args[k].body| + 1 < |r|)
              && CallScan(env, Eoms(q.es), m, r).steps < Run(env, q, Some(t)).steps
              && (CallScan(env, Eoms(q.es), m, r).ok ==> CleanArgs(RuleOf(env), CallScan(env, Eoms(q.es), m, r).args))
    {
      var m := Judge(env, Eoms(q.es), t).m;
      var c := Collect(m.params, r[1..]).value;
      RestTop(env, q, r, m.params);
      SetTopOk(env, q, c.rest);
      InputSuffix(q.input, if q.es == [] then c.rest else q.input);
      CollectBound(m.params, 0, SkipNl(r[1..]), [], |r[1..]|);
      CollectClean(RuleOf(env), m.params, r[1..]);
      CallSteps(env, q, t, r);
      PrescanClean(RuleOf(env), env, Eoms(q.es), m, c.args, 0, |r|);
    }

    /** Prescans the arguments the replacement list uses outside # and ## . */
    method PrescanArgs(m: Macro, args0: seq<Arg>, ghost n: nat, ghost budget: nat) returns (ok: bool, args: seq<Arg>)
      requires Valid() && pending == [] && CleanArgs(RuleOf(env), args0)
      requires forall k :: 0 <= k < |args0| ==> |args0[k].body| + 1 < n
      requires PrescanFrom(env, Eoms(es), m, args0, 0, n).steps <= budget
      modifies this
      ensures var p := old(PrescanFrom(env, Eoms(es), m, args0, 0, n)); ok == p.ok && (ok ==> args == p.args)
      ensures ok ==> es == old(es) && input == old(input) && pending == [] && disabled == old(disabled)
      decreases budget, 3
    {
      hide Level, Prof, CleanArgs, Run;
      args := args0;
      var i := 0;
      ghost var goal := PrescanFrom(env, Eoms(es), m, args0, 0, n);
      while i < |m.params|
        invariant i <= |m.params| && |args| == |args0|
        invariant forall k :: 0 <= k < |args| ==> args[k].body == args0[k].body
        invariant Valid() && es == old(es) && input == old(input) && pending == [] && disabled == old(disabled)
        invariant var p := PrescanFrom(env, Eoms(es), m, args, i, n);
                  p.ok == goal.ok && p.args == goal.args && p.steps <= goal.steps
      {
        var wanted := FindNormalUse(m, m.params[i]);
        if wanted {
          var j := FindFrom(args, m.params[i], 0);
          if j.Some? {
            ArgClean(RuleOf(env), args0, j.value);
            var out;
            ok, out := ExpandArg(args[j.value].body, budget);
            if !ok {
              return false, args;
            }
            args := args[j.value := args[j.value].(expanded := args[j.value].expanded + out)];
          }
        }
        i := i + 1;
      }
      return true, args;
    }

    /** The file is being read, not an argument, and t has just been read. */
    ghost predicate InLine(t: Token)
      reads this
    {
      && Valid() && pending == [] && Frame(Here()).None?
      && t.kind !in {Eom, Eoa}
      && (t.kind == Eof ==> Here() == Pos([], []))
    }

    /** What is left to put out when t is in hand. */
    ghost function LeftWith(t: Token): Outcome
      reads this
    {
      Run(env, Unget(t, Here()), None)
    }

    lemma {:induction false} LeftAtEof(t: Token)
      requires InLine(t) && t.kind == Eof
      ensures LeftWith(t).ok && LeftWith(t).out == []
    {
      RunEnd(env, Here());
    }

    /** Deals with the token in hand and reads the next one. */
    method LineStep(t: Token) returns (ok: bool, out: seq<Token>, t': Token)
      requires InLine(t) && t.kind !in {Newline, Eof}
      modifies this
      ensures OneLine(out)
      ensures var before := old(LeftWith(t));
              if !ok then !before.ok && before.out == [] && out == []
              else InLine(t') && Leads(before, out, LeftWith(t'))
      ensures var x := old(Dealt(env, Here(), t));
              if !ok then x.None?
              else
                && x.Some? && x.value.out == out && StackOk(env, x.value.pos.es)
                && Unget(t', Here()) == Norm(x.value.pos) && (t'.kind == Newline ==> es == [])
    {
      var replaced;
      ok, replaced, t' := Take(t, LeftWith(t).steps);
      if !ok {
        return false, [], t';
      }
      out := if replaced then [] else [t'];
      ghost var left := Left();
      t' := Read();
      if t'.kind == Eof {
        LeftAtEof(t');
        RunNothing(env);
      }
    }

    /** The token in hand is of a line of text that ends alone and comes to all. */
    ghost predicate OnLine(t: Token, line: seq<Token>, all: seq<Token>, text: seq<Token>)
      reads this
    {
      Within(AtNewline, env, Unget(t, Here()), line, all, text) && (t.kind in {Newline, Eof} ==> es == [])
    }

    lemma {:induction false} LineBegun(t: Token)
      requires InLine(t) && es == []
      requires var own := FirstPart(AtNewline, Unget(t, Here()).input); EndsAlone(env, own) || ObjectEnv(env)
      ensures var text := Unget(t, Here()).input;
              var own := FirstPart(AtNewline, text);
              var x := Expanded(env, own).out;
              OnLine(t, [], x, text) && (ObjectEnv(env) ==> x == Replaced(env, {}, own))
    {
      hide Run, Level;
      var v := Unget(t, Here());
      if ObjectEnv(env) { ObjectLine(env, FirstPart(AtNewline, v.input)); }
      PartBegun(AtNewline, env, v);
    }

    /** LineStep, and that it stays on a line that ends alone. */
    method LineTurn(t: Token, ghost line: seq<Token>, ghost all: seq<Token>, ghost text: seq<Token>)
      returns (ok: bool, out: seq<Token>, t': Token)
      requires InLine(t) && t.kind !in {Newline, Eof}
      modifies this
      ensures OneLine(out)
      ensures var before := old(LeftWith(t));
              if !ok then !before.ok && before.out == [] && out == []
              else InLine(t') && Leads(before, out, LeftWith(t'))
      ensures old(OnLine(t, line, all, text)) ==> ok && OnLine(t', line + out, all, text)
    {
      hide Run, Dealt, Within;
      ghost var p := Here();
      ghost var on := OnLine(t, line, all, text);
      ok, out, t' := LineStep(t);
      if on {
        PartStep(AtNewline, env, p, t, line, all, text);
      }
    }

    lemma {:induction false} LineDone(t: Token, line: seq<Token>, all: seq<Token>, text: seq<Token>)
      requires InLine(t) && t.kind in {Newline, Eof} && OnLine(t, line, all, text)
      ensures line == all && es == [] && Unget(t, Here()).input == NextParts(AtNewline, text)
    {
      hide Within;
      PartDone(AtNewline, env, Unget(t, Here()), line, all, text);
    }

    /** expand_line: the tokens of a directive line, the first one in hand,
        fully expanded.  A function-like name at the end of the line looks for
        its '(' on the lines that follow, so the line may end later; a line that
        ends alone is expanded by itself, and the next lines are left. */
    method ExpandLine(t0: Token) returns (ok: bool, line: seq<Token>, t: Token)
      requires InLine(t0)
      modifies this
      ensures OneLine(line)
      ensures var before := old(LeftWith(t0));
              if !ok then !before.ok && before.out == line
              else
                && InLine(t) && t.kind in {Newline, Eof}
                && Gives(before, line, LeftWith(t))
                && (t.kind == Eof ==> before.ok && before.out == line)
      ensures var text := old(Unget(t0, Here()).input);
              var own := FirstPart(AtNewline, text);
              old(es) == [] && (EndsAlone(env, own) || ObjectEnv(env)) ==>
                && ok && line == Expanded(env, own).out && (ObjectEnv(env) ==> line == Replaced(env, {}, own))
                && es == [] && Unget(t, Here()).input == NextParts(AtNewline, text)
    {
      hide Run, Level, Within, Norm, StackOk, EnvOk, Eoms, FirstPart, Expanded, Replaced, Valid, InLine;
      ghost var goal, text := LeftWith(t0), Unget(t0, Here()).input;
      ghost var own := FirstPart(AtNewline, text);
      ghost var alone := es == [] && (EndsAlone(env, own) || ObjectEnv(env));
      GivesStart(goal);
      if alone { LineBegun(t0); }
      line, t := [], t0;
      while t.kind != Newline && t.kind != Eof
        invariant InLine(t) && OneLine(line) && Gives(goal, line, LeftWith(t))
        invariant alone ==> OnLine(t, line, Expanded(env, own).out, text)
        decreases LeftWith(t).steps
      {
        ghost var left := LeftWith(t);
        var out;
        ok, out, t := LineTurn(t, line, Expanded(env, own).out, text);
        if !ok {
          GivesEnd(goal, line, left);
          return;
        }
        GivesNext(goal, line, left, out, LeftWith(t));
        line := line + out;
      }
      if t.kind == Eof {
        LeftAtEof(t);
        GivesEnd(goal, line, LeftWith(t));
      }
      if alone { LineDone(t, line, Expanded(env, own).out, text); }
      return true, line, t;
    }

    /** Of the text in front of the first directive, which comes to all, raw has
        been put out. */
    ghost predicate InPart(raw: seq<Token>, all: seq<Token>, text: seq<Token>)
      reads this
    {
      Within(AtDirective, env, Norm(View()), raw, all, text)
    }

    lemma {:induction false} TextBegun()
      requires Valid() && View().es == [] && Level(env, {}, FirstPart(AtDirective, View().input)).ok
      ensures InPart([], Expanded(env, FirstPart(AtDirective, View().input)).out, View().input)
    {
      hide Within;
      PartBegun(AtDirective, env, View());
    }

    /** One turn of cpp_preprocess, and that it stays in front of the directive. */
    method TextTurn(ghost raw: seq<Token>, ghost all: seq<Token>, ghost text: seq<Token>)
      returns (ok: bool, replaced: bool, t: Token)
      requires Valid() && Frame(View()).None?
      modifies this
      ensures t.kind !in {Eom, Eoa}
      ensures var before := old(Left());
              if !ok then !before.ok && before.out == []
              else if t.kind == Eof then
                before.ok && before.out == [] && pending == [] && es == [] && input == [] && disabled == {}
              else
                && Valid() && Frame(View()).None? && Leads(before, if replaced then [] else [t], Left())
                && (!replaced && t.kind == Hash && es == [] ==> disabled == {})
      ensures old(InPart(raw, all, text)) ==>
                && ok
                && if t.kind == Eof then raw == all && NextParts(AtDirective, text) == []
                   else if !replaced && es == [] && Ends(AtDirective, t) then
                     raw == all && View().es == [] && [t] + View().input == NextParts(AtDirective, text)
                   else InPart(if replaced then raw else raw + [t], all, text)
    {
      hide Run, Dealt, Within;
      ghost var on := InPart(raw, all, text);
      t := Read();
      if t.kind == Eof {
        if on { PartDone(AtDirective, env, Pos([], []), raw, all, text); }
        return true, false, t;
      }
      ghost var p := Here();
      if on && es == [] && Ends(AtDirective, t) {
        PartDone(AtDirective, env, Unget(t, p), raw, all, text);
      }
      var t';
      ok, replaced, t' := Take(t, Run(env, Unget(t, p), None).steps);
      if on && !(p.es == [] && Ends(AtDirective, t)) {
        PartStep(AtDirective, env, p, t, raw, all, text);
        assert raw + [] == raw;
      }
      t := t';
    }

    /** cpp_preprocess, called until a directive or the end of the file: what
        stands between is expanded and its newlines are dropped.  Afterwards
        no macro is disabled.  It may start with a token pushed back, as behind
        #endif, or inside a replacement.  The text in front of the first directive
        is expanded by itself, unless a call is open at its end. */
    method ExpandText() returns (ok: bool, out: seq<Token>, hash: bool)
      requires Valid() && Frame(View()).None?
      modifies this
      ensures old(View()).es == [] ==> old(Left()) == Expanded(env, old(View()).input)
      ensures var before := old(Left());
              if !ok then !before.ok && out == NoNl(before.out)
              else if hash then
                && Valid() && es == [] && disabled == {} && out != []
                && before.ok == Left().ok && NoNl(before.out) == out + NoNl(Left().out)
                && out[|out| - 1].kind == Hash && out[|out| - 1].flags.bol
              else
                && before.ok && out == NoNl(before.out)
                && pending == [] && es == [] && input == [] && disabled == {}
      ensures var text := old(View()).input;
              var own, next := FirstPart(AtDirective, text), NextParts(AtDirective, text);
              old(View()).es == [] && Level(env, {}, own).ok ==>
                && ok && hash == (next != []) && out == NoNl(Expanded(env, own).out) + next[..if hash then 1 else 0]
                && (hash ==> View() == Pos([], next[1..]))
    {
      hide Gives, SkipNl, NextParts;
      hide Run, Within, Level, Norm, Frame, StackOk, EnvOk, Eoms, FirstPart, Expanded, Valid, InPart;
      ghost var goal, text := Left(), View().input;
      ghost var own := FirstPart(AtDirective, text);
      ghost var alone := View().es == [] && Level(env, {}, own).ok;
      ghost var all := Expanded(env, own).out;
      RunInput(env, View().input);
      GivesStart(goal);
      ghost var raw: seq<Token> := [];
      out, hash := [], false;
      if alone { TextBegun(); }
      while true
        invariant Valid() && Frame(View()).None?
        invariant Gives(goal, raw, Left()) && out == NoNl(raw)
        invariant alone ==> InPart(raw, all, text)
        decreases Left().steps
      {
        ghost var left := Left();
        var replaced, t;
        ok, replaced, t := TextTurn(raw, all, text);
        if !ok || t.kind == Eof {
          GivesEnd(goal, raw, left);
          return;
        }
        GivesNext(goal, raw, left, if replaced then [] else [t], Left());
        if !replaced {
          NoNlSnoc(raw, t);
          raw := raw + [t];
          if t.kind != Newline {
            out := out + [t];
            if t.kind == Hash && t.flags.bol && es == [] {
              GivesLine(goal, raw, Left());
              return true, out, true;
            }
          }
        }
      }
    }
  }
}
