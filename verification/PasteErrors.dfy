/** Why a substitution fails: on the lists parse_macro_body accepts every step
    of the scan is defined but one, a ## with nothing written before it. */
module PasteErrors {
  import opened Wrappers
  import opened Tokens
  import opened MacroArgs
  import opened Substitution
  import opened Prescan
  import opened Placemarkers

  // -------------------------------------------------------------------
  // The replacement lists a #define may have.
  // -------------------------------------------------------------------

  predicate IsParam(m: Macro, t: Token) { t.kind == Identifier && t.text in m.params }

  /** From i on parse_macro_body accepts the list: # of a function-like macro has
      a parameter behind it, ## a token on both sides. */
  predicate Accepted(m: Macro, i: nat)
    decreases Left(m, i)
  {
    i < |m.body| ==>
      if IsStringize(m, i) then i + 1 < |m.body| && IsParam(m, m.body[i + 1]) && Accepted(m, i + 2)
      else if m.body[i].kind == Paste then 0 < i && i + 1 < |m.body| && Accepted(m, i + 2)
      else Accepted(m, i + 1)
  }

  /** Every parameter has its argument. */
  predicate Covers(m: Macro, args: seq<Arg>) {
    forall p :: p in m.params ==> exists k :: 0 <= k < |args| && args[k].param == p
  }

  lemma {:induction false} AcceptedVisits(m: Macro, from: nat, i: nat)
    requires Accepted(m, from) && Visits(m, from, i)
    ensures Accepted(m, i)
    decreases if from <= i then i - from else 0
  {
    if from != i {
      AcceptedVisits(m, from + Stride(m, from), i);
    }
  }

  lemma {:induction false} ParamFound(m: Macro, args: seq<Arg>, t: Token)
    requires Covers(m, args) && IsParam(m, t)
    ensures FindArg(args, t).Some?
  {
    var k :| 0 <= k < |args| && args[k].param == t.text;
  }

  // -------------------------------------------------------------------
  // The ways in which a step can fail.
  // -------------------------------------------------------------------

  /** A ## whose operand is no parameter comes when nothing is written: the
      program takes the token in front of its array for the left operand. */
  predicate InFront(m: Macro, s: Scan) {
    && s.i + 1 < |m.body| && m.body[s.i].kind == Paste
    && s.os == [] && FindArg(s.args, m.body[s.i + 1]).None?
  }

  /** The argument behind # gives no token. */
  predicate NotQuoted(lx: Lexis, m: Macro, s: Scan) {
    && s.i + 1 < |m.body| && IsStringize(m, s.i)
    && (var j := FindArg(s.args, m.body[s.i + 1]); j.Some? && lx.quote(s.args[j.value].body).None?)
  }

  /** The last token written and the first of the operand make no token. */
  predicate NotGlued(lx: Lexis, m: Macro, s: Scan) {
    && s.i + 1 < |m.body| && m.body[s.i].kind == Paste
    && s.os != [] && Operand(s.args, m.body[s.i + 1]) != []
    && Pasted(lx, s.os[|s.os| - 1], Operand(s.args, m.body[s.i + 1])[0]).None?
  }

  predicate Failing(lx: Lexis, m: Macro, s: Scan) { InFront(m, s) || NotQuoted(lx, m, s) || NotGlued(lx, m, s) }

  lemma {:induction false} StepFailsIff(lx: Lexis, m: Macro, mtk: Token, s: Scan)
    requires Accepted(m, 0) && Visits(m, 0, s.i) && s.i < |m.body| && Covers(m, s.args)
    ensures SubstStep(lx, m, mtk, s).None? <==> Failing(lx, m, s)
  {
    AcceptedVisits(m, 0, s.i);
    if IsStringize(m, s.i) {
      ParamFound(m, s.args, m.body[s.i + 1]);
    } else if NextIs(m, s.i, Paste) && m.body[s.i].kind != Paste {
      assert Accepted(m, s.i + 1);
    }
  }

  /** The scan gets from s to t. */
  predicate Reaches(lx: Lexis, m: Macro, mtk: Token, s: Scan, t: Scan)
    decreases Left(m, s.i)
  {
    s == t || (
      && s.i < |m.body| && SubstStep(lx, m, mtk, s).Some?
      && Reaches(lx, m, mtk, SubstStep(lx, m, mtk, s).value, t))
  }

  lemma {:induction false} StepCovers(lx: Lexis, m: Macro, mtk: Token, s: Scan)
    requires s.i < |m.body| && SubstStep(lx, m, mtk, s).Some? && Covers(m, s.args)
    ensures Covers(m, SubstStep(lx, m, mtk, s).value.args)
  {
    var args := SubstStep(lx, m, mtk, s).value.args;
    forall p | p in m.params ensures exists k :: 0 <= k < |args| && args[k].param == p {
      var k :| 0 <= k < |s.args| && s.args[k].param == p;
      assert args[k].param == p;
    }
  }

  /** A scan fails if and only if it gets to a state where one of the three
      things is so. */
  lemma {:induction false} ScanFailsIff(lx: Lexis, m: Macro, mtk: Token, s: Scan)
    requires Accepted(m, 0) && Visits(m, 0, s.i) && Covers(m, s.args) && (m.func || s.args == [])
    ensures SubstFrom(lx, m, mtk, s).None? <==> exists t :: Reaches(lx, m, mtk, s, t) && Failing(lx, m, t)
    decreases Left(m, s.i)
  {
    hide SubstStep, Failing, Covers;
    if s.i >= |m.body| {
      forall t | Reaches(lx, m, mtk, s, t) ensures !Failing(lx, m, t) { NotAtEnd(lx, m, t); }
    } else {
      StepFailsIff(lx, m, mtk, s);
      var r := SubstStep(lx, m, mtk, s);
      if r.None? {
        assert Reaches(lx, m, mtk, s, s);
      } else {
        StepVisits(lx, m, mtk, s);
        VisitsTrans(m, 0, s.i, r.value.i);
        StepCovers(lx, m, mtk, s);
        ScanFailsIff(lx, m, mtk, r.value);
        if t :| Reaches(lx, m, mtk, r.value, t) && Failing(lx, m, t) {
          assert Reaches(lx, m, mtk, s, t);
        }
      }
    }
  }

  lemma {:induction false} NotAtEnd(lx: Lexis, m: Macro, t: Scan)
    requires t.i >= |m.body|
    ensures !Failing(lx, m, t)
  {
  }

  /** On the lists and arguments there can be, a substitution fails exactly when
      the scan gets to a # or ## that makes no token, which the program
      diagnoses, or to a ## with nothing written before it, which it does not. */
  lemma {:induction false} SubstFailsIff(lx: Lexis, m: Macro, mtk: Token, args: seq<Arg>)
    requires Accepted(m, 0) && Covers(m, args) && (m.func || args == [])
    ensures Subst(lx, m, mtk, args).None?
       <==> exists t :: Reaches(lx, m, mtk, Scan(0, [], args), t) && Failing(lx, m, t)
  {
    ScanFailsIff(lx, m, mtk, Scan(0, [], args));
  }

  // -------------------------------------------------------------------
  // When the scan comes to a ## with nothing written.
  // -------------------------------------------------------------------

  /** Nothing but empty arguments from i up to a ## whose operand is no
      parameter. */
  predicate OnlyEmpty(m: Macro, args: seq<Arg>, i: nat)
    decreases Left(m, i)
  {
    && i < |m.body| && !IsStringize(m, i)
    && if GnuComma(m, args, i).Some? then
         CommaOmitted(m, args[GnuComma(m, args, i).value]) && OnlyEmpty(m, args, i + 3)
       else if m.body[i].kind == Paste then
         i + 1 < |m.body| && (
           || FindArg(args, m.body[i + 1]).None?
           || (Operand(args, m.body[i + 1]) == [] && OnlyEmpty(m, args, i + 2)))
       else
         match FindArg(args, m.body[i])
         case None => false
         case Some(j) =>
           if NextIs(m, i, Paste) then
             && args[j].body == [] && i + 2 < |m.body| && Operand(args, m.body[i + 2]) == []
             && OnlyEmpty(m, args, i + 3)
           else args[j].expanded == [] && OnlyEmpty(m, args, i + 1)
  }

  /** What has been written stays, if only pasted to. */
  lemma {:induction false} WrittenStays(lx: Lexis, m: Macro, mtk: Token, s: Scan)
    requires s.i < |m.body| && s.os != [] && SubstStep(lx, m, mtk, s).Some?
    ensures SubstStep(lx, m, mtk, s).value.os != []
  {
  }

  lemma {:induction false} ReachesWritten(lx: Lexis, m: Macro, mtk: Token, s: Scan, t: Scan)
    requires Reaches(lx, m, mtk, s, t) && s.os != []
    ensures t.os != []
    decreases Left(m, s.i)
  {
    hide SubstStep;
    if s != t {
      WrittenStays(lx, m, mtk, s);
      ReachesWritten(lx, m, mtk, SubstStep(lx, m, mtk, s).value, t);
    }
  }

  /** A step that leaves nothing written has passed an empty operand. */
  lemma {:induction false} EmptyStep(lx: Lexis, m: Macro, mtk: Token, args: seq<Arg>, i: nat)
    requires i < |m.body| && !InFront(m, Scan(i, [], args))
    ensures var r := SubstStep(lx, m, mtk, Scan(i, [], args));
            r.Some? && r.value.os == [] ==>
              r.value.args == args && (OnlyEmpty(m, args, r.value.i) ==> OnlyEmpty(m, args, i))
    ensures OnlyEmpty(m, args, i) ==>
              var r := SubstStep(lx, m, mtk, Scan(i, [], args));
              r.Some? && r.value == Scan(r.value.i, [], args) && OnlyEmpty(m, args, r.value.i)
  {
  }

  lemma {:induction false} FrontEmpty(lx: Lexis, m: Macro, mtk: Token, args: seq<Arg>, i: nat, t: Scan)
    requires Reaches(lx, m, mtk, Scan(i, [], args), t) && InFront(m, t)
    ensures OnlyEmpty(m, args, i)
    decreases Left(m, i)
  {
    hide SubstStep;
    var s := Scan(i, [], args);
    if s == t || InFront(m, s) {
    } else {
      var r := SubstStep(lx, m, mtk, s).value;
      EmptyStep(lx, m, mtk, args, i);
      if r.os != [] {
        ReachesWritten(lx, m, mtk, r, t);
      } else {
        FrontEmpty(lx, m, mtk, args, r.i, t);
      }
    }
  }

  lemma {:induction false} EmptyFront(lx: Lexis, m: Macro, mtk: Token, args: seq<Arg>, i: nat) returns (t: Scan)
    requires OnlyEmpty(m, args, i)
    ensures Reaches(lx, m, mtk, Scan(i, [], args), t) && InFront(m, t)
    decreases Left(m, i)
  {
    hide SubstStep, OnlyEmpty;
    t := Scan(i, [], args);
    if !InFront(m, t) {
      BeyondEnd(m, args, i);
      EmptyStep(lx, m, mtk, args, i);
      t := EmptyFront(lx, m, mtk, args, SubstStep(lx, m, mtk, t).value.i);
    }
  }

  lemma {:induction false} BeyondEnd(m: Macro, args: seq<Arg>, i: nat)
    requires OnlyEmpty(m, args, i)
    ensures i < |m.body|
  {
  }

  /** The scan comes to a ## with nothing written and no parameter behind it
      exactly when only empty arguments stand in front of such a ## . */
  lemma {:induction false} FrontIff(lx: Lexis, m: Macro, mtk: Token, args: seq<Arg>)
    ensures (exists t :: Reaches(lx, m, mtk, Scan(0, [], args), t) && InFront(m, t)) <==> OnlyEmpty(m, args, 0)
  {
    if OnlyEmpty(m, args, 0) {
      var t := EmptyFront(lx, m, mtk, args, 0);
    } else {
      forall t | Reaches(lx, m, mtk, Scan(0, [], args), t) && InFront(m, t) ensures false {
        FrontEmpty(lx, m, mtk, args, 0, t);
      }
    }
  }

  /** Then it is one of the lists and arguments for which an operand is lost. */
  lemma {:induction false} EmptyLoses(m: Macro, args: seq<Arg>, i: nat)
    requires OnlyEmpty(m, args, i)
    ensures if m.body[i].kind == Paste then LosesAt(m, args, i, true, false) else Loses(m, args, i, false)
    decreases Left(m, i)
  {
    hide FindArg;
    if m.body[i].kind == Paste {
      if FindArg(args, m.body[i + 1]).Some? {
        EmptyLoses(m, args, i + 2);
      }
    } else {
      EmptyLoses(m, args, Opening(m, args, i).1);
    }
  }

  /** The list "x ## y ## z", z being no parameter. */
  function FrontMacro(z: Token): Macro { Macro(true, ["x", "y"], [Named("x"), HASHES, Named("y"), HASHES, z]) }

  /** It is accepted, and called with both arguments empty it is such a case. */
  lemma {:induction false} FrontRead(lx: Lexis, mtk: Token, z: Token)
    requires z.kind == Other
    ensures var m, args := FrontMacro(z), [Arg("x", [], [], false), Arg("y", [], [], false)];
            && Accepted(m, 0) && Covers(m, args) && OnlyEmpty(m, args, 0)
            && SubstStep(lx, m, mtk, Scan(0, [], args)) == Some(Scan(3, [], args))
            && InFront(m, Scan(3, [], args))
  {
    var m, args := FrontMacro(z), [Arg("x", [], [], false), Arg("y", [], [], false)];
    assert Accepted(m, 5) && Accepted(m, 3) && Accepted(m, 1);
    assert FindFrom(args, "y", 1) == Some(1);
    assert FindArg(args, Named("x")) == Some(0) && FindArg(args, Named("y")) == Some(1);
    assert args[0].param == "x" && args[1].param == "y";
    assert OnlyEmpty(m, args, 3);
    var none: seq<Token> := [];
    assert none + none == none;
    assert LeftRaw(m, Scan(0, [], args), 0) == Some(Scan(3, [], args));
  }
}
