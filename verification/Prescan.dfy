/** Which arguments are prescanned, and why leaving the others alone does not
    change the result. */
module Prescan {
  import opened Wrappers
  import opened Seqs
  import opened Tokens
  import opened MacroArgs
  import opened Substitution

  /** At i the replacement list uses the parameter outside # and ## . */
  predicate NormalUse(m: Macro, name: Name, i: nat) {
    && i < |m.body|
    && m.body[i].kind == Identifier && m.body[i].text == name
    && (i > 0 ==> m.body[i - 1].kind !in {Hash, Paste})
    && !NextIs(m, i, Paste)
  }

  predicate PreExpandOk(m: Macro, name: Name) {
    exists i :: 0 <= i < |m.body| && NormalUse(m, name, i)
  }

  /** The list is a, then the parameter, then b, and neither neighbour makes the
      parameter an operand. */
  predicate StandsFree(m: Macro, name: Name, a: seq<Token>, t: Token, b: seq<Token>) {
    && m.body == a + [t] + b && t.kind == Identifier && t.text == name
    && (a == [] || (a[|a| - 1].kind != Hash && a[|a| - 1].kind != Paste))
    && (b == [] || b[0].kind != Paste)
  }

  /** An argument is prescanned exactly when its parameter stands somewhere
      without # or ## before it and without ## behind it. */
  lemma {:induction false} PreExpandIff(m: Macro, name: Name)
    ensures PreExpandOk(m, name) <==> exists a, t, b :: StandsFree(m, name, a, t, b)
  {
    if PreExpandOk(m, name) {
      var i :| 0 <= i < |m.body| && NormalUse(m, name, i);
      var a, t, b := m.body[..i], m.body[i], m.body[i + 1..];
      assert m.body == a + [t] + b;
      assert StandsFree(m, name, a, t, b);
    }
    if a, t, b :| StandsFree(m, name, a, t, b) {
      assert m.body[|a|] == t && (a != [] ==> m.body[|a| - 1] == a[|a| - 1]) && (b != [] ==> m.body[|a| + 1] == b[0]);
      assert NormalUse(m, name, |a|);
    }
  }

  method FindNormalUse(m: Macro, name: Name) returns (found: bool)
    ensures found <==> PreExpandOk(m, name)
  {
    var i := 0;
    while i < |m.body|
      invariant i <= |m.body|
      invariant forall k :: 0 <= k < i ==> !NormalUse(m, name, k)
    {
      var t := m.body[i];
      if t.kind == Identifier && t.text == name {
        var prevNoExpand := i > 0 && m.body[i - 1].kind in {Hash, Paste};
        var nextNoExpand := i + 1 < |m.body| && m.body[i + 1].kind == Paste;
        if !prevNoExpand && !nextNoExpand {
          assert NormalUse(m, name, i);
          return true;
        }
      }
      i := i + 1;
    }
    return false;
  }

  /** Two argument lists that differ at most in prescans the program skips. */
  predicate Agree(m: Macro, a: seq<Arg>, b: seq<Arg>) {
    |a| == |b| && forall k :: 0 <= k < |a| ==>
      && a[k].(expanded := []) == b[k].(expanded := [])
      && (PreExpandOk(m, a[k].param) ==> a[k].expanded == b[k].expanded)
  }

  /** A # of a function-like macro without a name behind it is an error. */
  predicate Stuck(m: Macro, i: nat)
    requires i < |m.body|
  {
    m.func && m.body[i].kind == Hash && !NextIs(m, i, Identifier)
  }

  /** An operator takes the token behind it along. */
  function Stride(m: Macro, i: nat): (n: nat)
    requires i < |m.body|
    ensures 1 <= n <= 2
  {
    if m.body[i].kind == Paste || (m.func && m.body[i].kind == Hash) then 2 else 1
  }

  /** Going over the replacement list from a place on, operators with their
      operands, one gets to i.  It depends on the list alone. */
  predicate Visits(m: Macro, from: nat, i: nat)
    decreases if from <= i then i - from else 0
  {
    from == i || (from < i && from < |m.body| && !Stuck(m, from) && Visits(m, from + Stride(m, from), i))
  }

  /** The token at i is a parameter that stands for its prescanned argument. */
  predicate ReadAt(m: Macro, args: seq<Arg>, i: nat) {
    i < |m.body| && FindArg(args, m.body[i]).Some? && !NextIs(m, i, Paste)
  }

  /** One gets to a parameter that is read although none of its uses counts as
      normal, because its neighbour, an operand itself, looks like an operator. */
  predicate ReadsSkipped(m: Macro, args: seq<Arg>) {
    exists i :: 0 <= i < |m.body| && Visits(m, 0, i) && ReadAt(m, args, i) && !PreExpandOk(m, m.body[i].text)
  }

  /** No ## stands directly before # or another ## . */
  predicate SimplePastes(m: Macro) {
    forall i :: 0 <= i < |m.body| && m.body[i].kind == Paste ==> !NextIs(m, i, Hash) && !NextIs(m, i, Paste)
  }

  lemma {:induction false} VisitsTrans(m: Macro, a: nat, b: nat, c: nat)
    requires Visits(m, a, b) && Visits(m, b, c)
    ensures Visits(m, a, c) && a <= b <= c
    decreases if a <= b then b - a else 0
  {
    if a != b {
      VisitsTrans(m, a + Stride(m, a), b, c);
    } else {
      VisitsUp(m, b, c);
    }
  }

  lemma {:induction false} VisitsUp(m: Macro, a: nat, b: nat)
    requires Visits(m, a, b)
    ensures a <= b
  {
  }

  /** With simple pastes what one gets to is never behind an operator. */
  lemma {:induction false} SimpleBehind(m: Macro, from: nat, i: nat)
    requires SimplePastes(m) && Visits(m, from, i) && from <= i <= |m.body|
    requires 0 < from <= |m.body| ==> m.body[from - 1].kind != Paste && !(m.func && m.body[from - 1].kind == Hash)
    ensures 0 < i ==> m.body[i - 1].kind != Paste && !(m.func && m.body[i - 1].kind == Hash)
    decreases i - from
  {
    if from < i {
      VisitsUp(m, from + Stride(m, from), i);
      SimpleBehind(m, from + Stride(m, from), i);
    }
  }

  lemma {:induction false} SimpleReads(m: Macro, args: seq<Arg>)
    requires SimplePastes(m) && (m.func || args == [])
    ensures !ReadsSkipped(m, args)
  {
    forall i | 0 <= i < |m.body| && Visits(m, 0, i) && ReadAt(m, args, i) ensures PreExpandOk(m, m.body[i].text) {
      SimpleBehind(m, 0, i);
      assert NormalUse(m, m.body[i].text, i);
    }
  }

  /** A turn of the scan gets on along the list. */
  lemma {:induction false} StepVisits(lx: Lexis, m: Macro, mtk: Token, s: Scan)
    requires s.i < |m.body| && SubstStep(lx, m, mtk, s).Some? && (m.func || s.args == [])
    ensures Visits(m, s.i, SubstStep(lx, m, mtk, s).value.i)
  {
    var i := s.i;
    assert Visits(m, i + 1, i + 1) && Visits(m, i + 2, i + 2) && Visits(m, i + 3, i + 3);
    if NextIs(m, i, Paste) && Stride(m, i) == 1 {
      assert Visits(m, i + 1, i + 3);
    }
  }

  lemma {:induction false} FindFromAgree(m: Macro, a: seq<Arg>, b: seq<Arg>, name: Name, i: nat)
    requires Agree(m, a, b) && i <= |a|
    ensures FindFrom(a, name, i) == FindFrom(b, name, i)
    decreases |a| - i
  {
    if i < |a| {
      assert a[i].(expanded := []).param == b[i].(expanded := []).param;
      FindFromAgree(m, a, b, name, i + 1);
    }
  }

  lemma {:induction false} FindArgAgree(m: Macro, a: seq<Arg>, b: seq<Arg>, t: Token)
    requires Agree(m, a, b)
    ensures FindArg(a, t) == FindArg(b, t)
    ensures FindArg(a, t).Some? ==>
              var j := FindArg(a, t).value;
              a[j].body == b[j].body && a[j].omitted == b[j].omitted && a[j].param == b[j].param == t.text
  {
    FindFromAgree(m, a, b, t.text, 0);
    if FindArg(a, t).Some? {
      var j := FindArg(a, t).value;
      assert a[j].(expanded := []) == b[j].(expanded := []);
    }
  }

  /** Two turns that went the same way up to skipped prescans. */
  predicate SameTurn(m: Macro, r: Option<Scan>, r': Option<Scan>) {
    && r.Some? == r'.Some?
    && (r.Some? ==> r.value.i == r'.value.i && r.value.os == r'.value.os && Agree(m, r.value.args, r'.value.args))
  }

  /** The same parameters in the same order. */
  predicate SameParams(a: seq<Arg>, b: seq<Arg>) {
    |a| == |b| && forall k :: 0 <= k < |a| ==> a[k].param == b[k].param
  }

  lemma {:induction false} FindFromParams(a: seq<Arg>, b: seq<Arg>, name: Name, i: nat)
    requires SameParams(a, b) && i <= |a|
    ensures FindFrom(a, name, i) == FindFrom(b, name, i)
    decreases |a| - i
  {
    if i < |a| { FindFromParams(a, b, name, i + 1); }
  }

  lemma {:induction false} FindArgParams(a: seq<Arg>, b: seq<Arg>, t: Token)
    requires SameParams(a, b)
    ensures FindArg(a, t) == FindArg(b, t)
  {
    FindFromParams(a, b, t.text, 0);
  }

  lemma {:induction false} LeftRawAgree(m: Macro, s: Scan, s': Scan, j: nat)
    requires s.i == s'.i < |m.body| && s.os == s'.os && Agree(m, s.args, s'.args)
    requires j < |s.args| && s.args[j].body == s'.args[j].body
    ensures SameTurn(m, LeftRaw(m, s, j), LeftRaw(m, s', j))
  {
    if s.i + 2 < |m.body| {
      FindArgAgree(m, s.args, s'.args, m.body[s.i + 2]);
    }
  }

  lemma {:induction false} StringizedAgree(lx: Lexis, m: Macro, s: Scan, s': Scan)
    requires s.i == s'.i < |m.body| && s.os == s'.os && Agree(m, s.args, s'.args)
    ensures SameTurn(m, Stringized(lx, m, s), Stringized(lx, m, s'))
  {
    if s.i + 1 < |m.body| {
      FindArgAgree(m, s.args, s'.args, m.body[s.i + 1]);
    }
  }

  lemma {:induction false} RightPastedAgree(lx: Lexis, m: Macro, s: Scan, s': Scan)
    requires s.i == s'.i < |m.body| && m.body[s.i].kind == Paste && s.os == s'.os && Agree(m, s.args, s'.args)
    ensures SameTurn(m, RightPasted(lx, m, s), RightPasted(lx, m, s'))
  {
    if s.i + 1 < |m.body| {
      FindArgAgree(m, s.args, s'.args, m.body[s.i + 1]);
    }
  }

  lemma {:induction false} CommaAgree(m: Macro, s: Scan, s': Scan)
    requires s.i == s'.i < |m.body| && s.os == s'.os && Agree(m, s.args, s'.args) && GnuComma(m, s.args, s.i).Some?
    ensures GnuComma(m, s'.args, s'.i) == GnuComma(m, s.args, s.i)
    ensures var j := GnuComma(m, s.args, s.i).value;
            SameTurn(m, Some(CommaPasted(m, s, j)), Some(CommaPasted(m, s', j)))
  {
    FindArgAgree(m, s.args, s'.args, m.body[s.i + 2]);
  }

  /** One turn of the scan reads no prescan that was skipped. */
  lemma {:induction false} SubstStepAgree(lx: Lexis, m: Macro, mtk: Token, s: Scan, s': Scan)
    requires s.i == s'.i < |m.body| && s.os == s'.os && Agree(m, s.args, s'.args)
    requires ReadAt(m, s.args, s.i) ==> PreExpandOk(m, m.body[s.i].text)
    ensures SameTurn(m, SubstStep(lx, m, mtk, s), SubstStep(lx, m, mtk, s'))
  {
    hide Stringized, CommaPasted, RightPasted, LeftRaw, PreExpandOk;
    var t := m.body[s.i];
    FindArgAgree(m, s.args, s'.args, t);
    if s.i + 2 < |m.body| {
      FindArgAgree(m, s.args, s'.args, m.body[s.i + 2]);
    }
    assert GnuComma(m, s.args, s.i) == GnuComma(m, s'.args, s'.i);
    if t.kind == Hash && m.func {
      StringizedAgree(lx, m, s, s');
    } else if GnuComma(m, s.args, s.i).Some? {
      CommaAgree(m, s, s');
    } else if t.kind == Paste {
      RightPastedAgree(lx, m, s, s');
    } else if FindArg(s.args, t).Some? && NextIs(m, s.i, Paste) {
      LeftRawAgree(m, s, s', FindArg(s.args, t).value);
    }
  }

  lemma {:induction false} StepParams(lx: Lexis, m: Macro, mtk: Token, s: Scan)
    requires s.i < |m.body| && SubstStep(lx, m, mtk, s).Some?
    ensures SameParams(s.args, SubstStep(lx, m, mtk, s).value.args)
  {
  }

  lemma {:induction false} SubstFromAgree(lx: Lexis, m: Macro, mtk: Token, args: seq<Arg>, s: Scan, s': Scan)
    requires s.i == s'.i && s.os == s'.os && Agree(m, s.args, s'.args) && (m.func || s.args == [])
    requires SameParams(args, s.args) && Visits(m, 0, s.i) && !ReadsSkipped(m, args)
    ensures SubstFrom(lx, m, mtk, s) == SubstFrom(lx, m, mtk, s')
    decreases |m.body| - s.i
  {
    hide SubstStep, PreExpandOk;
    if s.i < |m.body| {
      FindArgParams(args, s.args, m.body[s.i]);
      SubstStepAgree(lx, m, mtk, s, s');
      var r, r' := SubstStep(lx, m, mtk, s), SubstStep(lx, m, mtk, s');
      if r.Some? {
        StepVisits(lx, m, mtk, s);
        StepParams(lx, m, mtk, s);
        VisitsTrans(m, 0, s.i, r.value.i);
        SubstFromAgree(lx, m, mtk, args, r.value, r'.value);
      }
    }
  }

  /** Where one gets to no skipped prescan, whatever the prescans would have
      given makes no difference. */
  lemma {:induction false} SkippedPrescanUnread(lx: Lexis, m: Macro, mtk: Token, a: seq<Arg>, b: seq<Arg>)
    requires Agree(m, a, b) && !ReadsSkipped(m, a) && (m.func || a == [])
    ensures Subst(lx, m, mtk, a) == Subst(lx, m, mtk, b)
  {
    SubstFromAgree(lx, m, mtk, a, Scan(0, [], a), Scan(0, [], b));
  }

  // -------------------------------------------------------------------
  // Where one does, it makes a difference.
  // -------------------------------------------------------------------

  /** The arguments of b are those of a, but for two more tokens in the
      prescan of argument j. */
  predicate Longer(a: seq<Arg>, b: seq<Arg>, j: nat) {
    && |a| == |b| && j < |a|
    && (forall k :: 0 <= k < |a| ==> a[k].(expanded := []) == b[k].(expanded := []))
    && (forall k :: 0 <= k < |a| && k != j ==> a[k].expanded == b[k].expanded)
    && |b[j].expanded| == |a[j].expanded| + 2
  }

  /** What has been written is still the same, or has become longer for good. */
  predicate Apart(os: seq<Token>, os': seq<Token>, gap: bool) {
    if gap then |os'| > |os| && (os == [] ==> |os'| >= 2) else os' == os
  }

  /** A turn from states that lie apart ends apart, or in an error. */
  predicate TurnedApart(r: Option<Scan>, r': Option<Scan>, j: nat, gap: bool) {
    r.Some? && r'.Some? ==>
      r.value.i == r'.value.i && Longer(r.value.args, r'.value.args, j) && Apart(r.value.os, r'.value.os, gap)
  }

  lemma {:induction false} LongerParams(a: seq<Arg>, b: seq<Arg>, j: nat, t: Token)
    requires Longer(a, b, j)
    ensures SameParams(a, b) && FindArg(a, t) == FindArg(b, t)
    ensures FindArg(a, t).Some? ==>
              var k := FindArg(a, t).value;
              a[k].body == b[k].body && a[k].omitted == b[k].omitted && a[k].param == b[k].param
  {
    forall k | 0 <= k < |a| ensures a[k].param == b[k].param && a[k].body == b[k].body && a[k].omitted == b[k].omitted {
      assert a[k].(expanded := []) == b[k].(expanded := []);
    }
    FindArgParams(a, b, t);
  }

  lemma {:induction false} StringizedApart(lx: Lexis, m: Macro, s: Scan, s': Scan, j: nat, gap: bool)
    requires s.i == s'.i < |m.body| && Longer(s.args, s'.args, j) && Apart(s.os, s'.os, gap)
    ensures TurnedApart(Stringized(lx, m, s), Stringized(lx, m, s'), j, gap)
  {
    if s.i + 1 < |m.body| { LongerParams(s.args, s'.args, j, m.body[s.i + 1]); }
  }

  lemma {:induction false} CommaApart(m: Macro, s: Scan, s': Scan, j: nat, gap: bool)
    requires s.i == s'.i < |m.body| && Longer(s.args, s'.args, j) && Apart(s.os, s'.os, gap)
    requires GnuComma(m, s.args, s.i).Some?
    ensures GnuComma(m, s'.args, s'.i) == GnuComma(m, s.args, s.i)
    ensures var k := GnuComma(m, s.args, s.i).value;
            TurnedApart(Some(CommaPasted(m, s, k)), Some(CommaPasted(m, s', k)), j, gap)
  {
    LongerParams(s.args, s'.args, j, m.body[s.i + 2]);
  }

  lemma {:induction false} RightPastedApart(lx: Lexis, m: Macro, s: Scan, s': Scan, j: nat, gap: bool)
    requires s.i == s'.i < |m.body| && Longer(s.args, s'.args, j) && Apart(s.os, s'.os, gap)
    ensures TurnedApart(RightPasted(lx, m, s), RightPasted(lx, m, s'), j, gap)
  {
    if s.i + 1 < |m.body| { LongerParams(s.args, s'.args, j, m.body[s.i + 1]); }
  }

  lemma {:induction false} LeftRawApart(m: Macro, s: Scan, s': Scan, j: nat, gap: bool, k: nat)
    requires s.i == s'.i < |m.body| && Longer(s.args, s'.args, j) && Apart(s.os, s'.os, gap)
    requires k < |s.args| && s.args[k].body == s'.args[k].body
    ensures TurnedApart(LeftRaw(m, s, k), LeftRaw(m, s', k), j, gap)
  {
    if s.i + 2 < |m.body| { LongerParams(s.args, s'.args, j, m.body[s.i + 2]); }
  }

  lemma {:induction false} InsertedApart(m: Macro, s: Scan, s': Scan, j: nat, gap: bool, k: nat)
    requires s.i == s'.i < |m.body| && Longer(s.args, s'.args, j) && Apart(s.os, s'.os, gap) && k < |s.args|
    ensures TurnedApart(Some(Inserted(m, s, k)), Some(Inserted(m, s', k)), j, gap || k == j)
  {
  }

  lemma {:induction false} SubstStepApart(lx: Lexis, m: Macro, mtk: Token, s: Scan, s': Scan, j: nat, gap: bool)
    requires s.i == s'.i < |m.body| && Longer(s.args, s'.args, j) && Apart(s.os, s'.os, gap)
    ensures var read := ReadAt(m, s.args, s.i) && FindArg(s.args, m.body[s.i]) == Some(j);
            TurnedApart(SubstStep(lx, m, mtk, s), SubstStep(lx, m, mtk, s'), j, gap || read)
  {
    hide Stringized, CommaPasted, RightPasted, LeftRaw, Inserted, Longer, Apart;
    var t := m.body[s.i];
    LongerParams(s.args, s'.args, j, t);
    if s.i + 2 < |m.body| { LongerParams(s.args, s'.args, j, m.body[s.i + 2]); }
    if t.kind == Hash && m.func {
      StringizedApart(lx, m, s, s', j, gap);
    } else if GnuComma(m, s.args, s.i).Some? {
      CommaApart(m, s, s', j, gap);
    } else if t.kind == Paste {
      RightPastedApart(lx, m, s, s', j, gap);
    } else if FindArg(s.args, t).Some? {
      var k := FindArg(s.args, t).value;
      if NextIs(m, s.i, Paste) {
        LeftRawApart(m, s, s', j, gap, k);
      } else {
        InsertedApart(m, s, s', j, gap, k);
      }
    } else {
      CopiedApart(m, mtk, s, s', j, gap);
    }
  }

  lemma {:induction false} CopiedApart(m: Macro, mtk: Token, s: Scan, s': Scan, j: nat, gap: bool)
    requires s.i == s'.i < |m.body| && Longer(s.args, s'.args, j) && Apart(s.os, s'.os, gap)
    ensures TurnedApart(Some(Copied(m, mtk, s)), Some(Copied(m, mtk, s')), j, gap)
  {
  }

  /** A turn does not pass a parameter that one gets to. */
  lemma {:induction false} StepPasses(lx: Lexis, m: Macro, mtk: Token, s: Scan, i: nat)
    requires s.i < |m.body| && SubstStep(lx, m, mtk, s).Some? && (m.func || s.args == [])
    requires Visits(m, s.i, i) && s.i != i && i < |m.body| && m.body[i].kind == Identifier
    ensures Visits(m, SubstStep(lx, m, mtk, s).value.i, i)
  {
    assert Visits(m, s.i + Stride(m, s.i), i);
  }

  /** Once the longer prescan has been read, or while one will still get to it,
      the two results cannot be the same. */
  lemma {:induction false} SubstFromApart(lx: Lexis, m: Macro, mtk: Token, args: seq<Arg>, s: Scan, s': Scan, j: nat,
                                          gap: bool, i: nat)
    requires s.i == s'.i && Longer(s.args, s'.args, j) && Apart(s.os, s'.os, gap)
    requires SameParams(args, s.args) && (m.func || s.args == [])
    requires gap || (Visits(m, s.i, i) && ReadAt(m, args, i) && FindArg(args, m.body[i]) == Some(j))
    requires SubstFrom(lx, m, mtk, s).Some?
    ensures var r, r' := SubstFrom(lx, m, mtk, s), SubstFrom(lx, m, mtk, s'); r'.Some? ==> |r'.value| > |r.value|
    decreases |m.body| - s.i
  {
    hide SubstStep, Longer, PreExpandOk;
    if !gap { VisitsUp(m, s.i, i); }
    if s.i < |m.body| {
      FindArgParams(args, s.args, m.body[s.i]);
      var read := ReadAt(m, s.args, s.i) && FindArg(s.args, m.body[s.i]) == Some(j);
      SubstStepApart(lx, m, mtk, s, s', j, gap);
      var r, r' := SubstStep(lx, m, mtk, s), SubstStep(lx, m, mtk, s');
      if r'.Some? {
        if !gap && !read { StepPasses(lx, m, mtk, s, i); }
        StepParams(lx, m, mtk, s);
        SubstFromApart(lx, m, mtk, args, r.value, r'.value, j, gap || read, i);
      }
    }
  }

  const FILLER := Token(Other, "0", PLAIN)

  lemma {:induction false} CleanSnoc(rule: Rule, s: seq<Token>, t: Token)
    requires Obeys(rule, s) && Prof1(t) == NEUTRAL
    ensures Obeys(rule, s + [t])
  {
    hide Prof;
    ProfSnoc(s, t);
    JoinUnit(Prof(s));
  }

  /** Two plain tokens more in a skipped prescan. */
  lemma {:induction false} ReadPrescanMatters(rule: Rule, lx: Lexis, m: Macro, mtk: Token, a: seq<Arg>, i: nat)
      returns (b: seq<Arg>)
    requires Subst(lx, m, mtk, a).Some? && (m.func || a == []) && CleanArgs(rule, a)
    requires Visits(m, 0, i) && ReadAt(m, a, i) && !PreExpandOk(m, m.body[i].text)
    ensures Agree(m, a, b) && CleanArgs(rule, b) && Subst(lx, m, mtk, b) != Subst(lx, m, mtk, a)
  {
    var j := FindArg(a, m.body[i]).value;
    b := a[j := a[j].(expanded := a[j].expanded + [FILLER] + [FILLER])];
    ArgClean(rule, a, j);
    CleanSnoc(rule, a[j].expanded, FILLER);
    CleanSnoc(rule, a[j].expanded + [FILLER], FILLER);
    forall k | 0 <= k < |b| ensures CleanArg(rule, b[k]) { assert CleanArg(rule, a[k]); }
    SubstFromApart(lx, m, mtk, a, Scan(0, [], a), Scan(0, [], b), j, false, i);
  }

  /** Skipping prescans is sound exactly for the replacement lists in which one
      gets to no parameter that is read without a normal use: for every call
      that can be substituted, what the skipped prescans would have given, any
      tokens that obey the rule of the prescans, makes no difference if and only
      if that is so. */
  lemma {:induction false} SkippingSoundIff(rule: Rule, lx: Lexis, m: Macro, mtk: Token, a: seq<Arg>)
    requires Subst(lx, m, mtk, a).Some? && (m.func || a == []) && CleanArgs(rule, a)
    ensures (forall b | Agree(m, a, b) && CleanArgs(rule, b)
             :: Subst(lx, m, mtk, b) == Subst(lx, m, mtk, a)) <==> !ReadsSkipped(m, a)
  {
    if ReadsSkipped(m, a) {
      var i :| 0 <= i < |m.body| && Visits(m, 0, i) && ReadAt(m, a, i) && !PreExpandOk(m, m.body[i].text);
      var b := ReadPrescanMatters(rule, lx, m, mtk, a, i);
    } else {
      forall b | Agree(m, a, b) && CleanArgs(rule, b) ensures Subst(lx, m, mtk, b) == Subst(lx, m, mtk, a) {
        SkippedPrescanUnread(lx, m, mtk, a, b);
      }
    }
  }

  const PARAM_X := Token(Identifier, "x", PLAIN)
  const PARAM_Y := Token(Identifier, "y", PLAIN)

  /** The function-like macro f(x, y) with the list "x ## op y". */
  function TrapMacro(op: Token): Macro {
    Macro(true, ["x", "y"], [PARAM_X, Token(Paste, "##", PLAIN), op, PARAM_Y])
  }

  function TrapArgs(one: Token, prescan: seq<Token>): seq<Arg> {
    [Arg("x", [], [], false), Arg("y", [one], prescan, false)]
  }

  lemma {:induction false} TrapSubst(lx: Lexis, op: Token, mtk: Token, one: Token, prescan: seq<Token>)
    requires op.kind in {Hash, Paste}
    ensures SubstFrom(lx, TrapMacro(op), mtk, Scan(0, [], TrapArgs(one, prescan))).Some?
    ensures |SubstFrom(lx, TrapMacro(op), mtk, Scan(0, [], TrapArgs(one, prescan))).value| == 1 + |prescan|
  {
    var m, args := TrapMacro(op), TrapArgs(one, prescan);
    var s := Scan(0, [], args);
    assert FindFrom(args, "y", 1) == Some(1);
    assert FindArg(args, PARAM_X) == Some(0) && FindArg(args, PARAM_Y) == Some(1);
    assert SubstStep(lx, m, mtk, s) == LeftRaw(m, s, 0);
    assert LeftRaw(m, s, 0).value.i == 3;
    var s3 := LeftRaw(m, s, 0).value;
    assert SubstStep(lx, m, mtk, s3) == Some(Inserted(m, s3, 1));
    assert SubstFrom(lx, m, mtk, s3) == Some(Inserted(m, s3, 1).os);
  }

  /** Such lists are "x ## # y" and "x ## ## y": with x empty the scan lands on
      y just behind the second operator and reads its prescan, which was
      skipped. */
  lemma {:induction false} SkippedPrescanRead(lx: Lexis, op: Token, mtk: Token, one: Token)
    requires op.kind in {Hash, Paste}
    ensures var m, a, b := TrapMacro(op), TrapArgs(one, []), TrapArgs(one, [one]);
            && !SimplePastes(m)
            && Agree(m, a, b)
            && Subst(lx, m, mtk, a) != Subst(lx, m, mtk, b)
  {
    var m := TrapMacro(op);
    assert m.body[1].kind == Paste && (NextIs(m, 1, Hash) || NextIs(m, 1, Paste));
    TrapSubst(lx, op, mtk, one, []);
    TrapSubst(lx, op, mtk, one, [one]);
  }

  // -------------------------------------------------------------------
  // Replacement lists without operators: substitution is simultaneous.
  // -------------------------------------------------------------------

  /** No ## , and no # where that is an operator, in function-like macros. */
  predicate NoOperators(m: Macro) {
    forall i :: 0 <= i < |m.body| ==> m.body[i].kind != Paste && (m.func ==> m.body[i].kind != Hash)
  }

  /** What one token of such a list becomes: a parameter its prescanned
      argument, with the parameter's white space; any other token itself. */
  function Image(m: Macro, mtk: Token, args: seq<Arg>, t: Token): seq<Token> {
    if FindArg(args, t).Some? then
      var ex := args[FindArg(args, t).value].expanded;
      if ex == [] then []
      else
        var f := ex[0].flags;
        [ex[0].(flags := Flags(f.bol || t.flags.bol, f.noexpand || t.flags.noexpand, t.flags.space))] + ex[1..]
    else if t.kind == Identifier && t.text == mtk.text then [t.(flags := t.flags.(noexpand := true))]
    else [t]
  }

  function Images(m: Macro, mtk: Token, args: seq<Arg>, s: seq<Token>): seq<Token> {
    if s == [] then [] else Image(m, mtk, args, s[0]) + Images(m, mtk, args, s[1..])
  }

  lemma {:induction false} StepImage(lx: Lexis, m: Macro, mtk: Token, s: Scan)
    requires NoOperators(m) && s.i < |m.body|
    ensures SubstStep(lx, m, mtk, s) == Some(Scan(s.i + 1, s.os + Image(m, mtk, s.args, m.body[s.i]), s.args))
  {
    var t := m.body[s.i];
    assert !NextIs(m, s.i, Paste);
    if FindArg(s.args, t).Some? {
      var ex := s.args[FindArg(s.args, t).value].expanded;
      if ex == [] {
        assert s.os + [] == s.os;
      } else {
        var f := ex[0].flags;
        Assoc(s.os, [ex[0].(flags := Flags(f.bol || t.flags.bol, f.noexpand || t.flags.noexpand, t.flags.space))],
              ex[1..]);
      }
    }
  }

  lemma {:induction false} SubstFromImages(lx: Lexis, m: Macro, mtk: Token, s: Scan)
    requires NoOperators(m) && s.i <= |m.body|
    ensures SubstFrom(lx, m, mtk, s) == Some(s.os + Images(m, mtk, s.args, m.body[s.i..]))
    decreases |m.body| - s.i
  {
    hide SubstStep, Image;
    if s.i < |m.body| {
      StepImage(lx, m, mtk, s);
      var r := SubstStep(lx, m, mtk, s).value;
      SubstFromImages(lx, m, mtk, r);
      assert m.body[s.i..][1..] == m.body[s.i + 1..];
      Assoc(s.os, Image(m, mtk, s.args, m.body[s.i]), Images(m, mtk, s.args, m.body[s.i + 1..]));
    } else {
      assert m.body[s.i..] == [];
      assert s.os + [] == s.os;
    }
  }

  /** Every parameter is replaced at once, in place, and what is inserted is
      not looked at again for parameters. */
  lemma {:induction false} SubstSimultaneous(lx: Lexis, m: Macro, mtk: Token, args: seq<Arg>)
    requires NoOperators(m)
    ensures Subst(lx, m, mtk, args) == Some(Headed(Images(m, mtk, args, m.body), mtk))
  {
    SubstFromImages(lx, m, mtk, Scan(0, [], args));
    assert m.body[0..] == m.body;
    assert [] + Images(m, mtk, args, m.body) == Images(m, mtk, args, m.body);
  }
}
