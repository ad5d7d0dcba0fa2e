/** What # and ## mean: every operand of ## is a list of tokens, the empty one
    standing for a placemarker (section 6.10.3.3 of ISO/IEC 9899:2011), and the
    replacement is made unit by unit, each for itself.  The program's scan
    pastes onto whatever it has written last instead. */
module Placemarkers {
  import opened Wrappers
  import opened Seqs
  import opened Tokens
  import opened MacroArgs
  import opened Substitution
  import opened Prescan

  // -------------------------------------------------------------------
  // The meaning of a replacement list.
  // -------------------------------------------------------------------

  /** The operand of ## that t stands for: a raw argument, or t itself. */
  function Operand(args: seq<Arg>, t: Token): seq<Token> {
    match FindArg(args, t)
    case Some(j) => args[j].body
    case None => [t]
  }

  /** l ## r: a placemarker gives way to the other operand; otherwise the last
      token of l and the first of r become one. */
  function Glue(lx: Lexis, l: seq<Token>, r: seq<Token>): Option<seq<Token>> {
    if l == [] then Some(r)
    else if r == [] then Some(l)
    else
      match PasteLast(lx, l, r[0])
      case None => None
      case Some(s) => Some(s + r[1..])
  }

  /** The first operand of a unit, the place behind it, and the arguments with
      the white space that a raw one takes over from its parameter. */
  datatype Piece = Piece(image: seq<Token>, next: nat, args: seq<Arg>)

  predicate IsStringize(m: Macro, i: nat)
    requires i < |m.body|
  {
    m.body[i].kind == Hash && m.func
  }

  predicate CommaOmitted(m: Macro, a: Arg) { a.omitted || (|m.params| == 1 && a.body == []) }

  function Adopted(b: seq<Token>, t: Token): seq<Token> {
    if b == [] then [] else b[0 := b[0].(flags := b[0].flags.(space := t.flags.space))]
  }

  /** A unit begins with # and a parameter, a GNU comma, or a single token; a
      parameter before ## stands for its raw argument. */
  function First(lx: Lexis, m: Macro, mtk: Token, args: seq<Arg>, i: nat): (r: Option<Piece>)
    requires i < |m.body|
    ensures r.Some? ==> i < r.value.next
  {
    var t := m.body[i];
    if IsStringize(m, i) then
      if i + 1 == |m.body| || FindArg(args, m.body[i + 1]).None? then None
      else
        match lx.quote(args[FindArg(args, m.body[i + 1]).value].body)
        case None => None
        case Some(text) => Some(Piece([Token(Other, text, PLAIN.(space := t.flags.space))], i + 2, args))
    else if GnuComma(m, args, i).Some? then
      var a := args[GnuComma(m, args, i).value];
      Some(Piece(if CommaOmitted(m, a) then [] else [t] + a.body, i + 3, args))
    else if FindArg(args, t).Some? && NextIs(m, i, Paste) then
      var j := FindArg(args, t).value;
      var raw := Adopted(args[j].body, t);
      Some(Piece(raw, i + 1, args[j := args[j].(body := raw)]))
    else Some(Piece(Image(m, mtk, args, t), i + 1, args))
  }

  function Left(m: Macro, i: nat): nat { if i <= |m.body| then |m.body| - i else 0 }

  /** The units of the list from i on, put one behind the other. */
  function Units(lx: Lexis, m: Macro, mtk: Token, args: seq<Arg>, i: nat): Option<seq<Token>>
    decreases Left(m, i), 0
  {
    if i >= |m.body| then Some([])
    else
      match First(lx, m, mtk, args, i)
      case None => None
      case Some(p) => Pastes(lx, m, mtk, p.args, p.next, p.image)
  }

  /** The rest of a unit, whose operands so far are glued to l, and the units
      behind it. */
  function Pastes(lx: Lexis, m: Macro, mtk: Token, args: seq<Arg>, i: nat, l: seq<Token>): Option<seq<Token>>
    decreases Left(m, i), 1
  {
    if i < |m.body| && m.body[i].kind == Paste then
      if i + 1 == |m.body| then None
      else
        match Glue(lx, l, Operand(args, m.body[i + 1]))
        case None => None
        case Some(l') => Pastes(lx, m, mtk, args, i + 2, l')
    else
      match Units(lx, m, mtk, args, i)
      case None => None
      case Some(rest) => Some(l + rest)
  }

  /** The replacement of a macro call. */
  function Replacement(lx: Lexis, m: Macro, mtk: Token, args: seq<Arg>): Option<seq<Token>> {
    match Units(lx, m, mtk, args, 0)
    case None => None
    case Some(os) => Some(Headed(os, mtk))
  }

  // -------------------------------------------------------------------
  // Where the scan loses an operand.
  // -------------------------------------------------------------------

  /** Whether the unit's operands up to a place are all empty.  The ## behind
      an empty parameter the scan takes along with it. */
  function Opening(m: Macro, args: seq<Arg>, i: nat): (r: (bool, nat))
    requires i < |m.body|
    ensures i < r.1
  {
    var t := m.body[i];
    if IsStringize(m, i) then (false, i + 2)
    else if GnuComma(m, args, i).Some? then (CommaOmitted(m, args[GnuComma(m, args, i).value]), i + 3)
    else
      match FindArg(args, t)
      case None => (false, i + 1)
      case Some(j) =>
        if !NextIs(m, i, Paste) then (args[j].expanded == [], i + 1)
        else if args[j].body != [] then (false, i + 1)
        else (i + 2 < |m.body| && Operand(args, m.body[i + 2]) == [], i + 3)
  }

  /** Somewhere from i on, a ## has only empty operands on its left and one
      that is not empty on its right, and there is a token in front of the
      unit to paste that to, or it is no parameter. */
  predicate Loses(m: Macro, args: seq<Arg>, i: nat, written: bool)
    decreases Left(m, i), 0
  {
    i < |m.body| && LosesAt(m, args, Opening(m, args, i).1, Opening(m, args, i).0, written)
  }

  predicate LosesAt(m: Macro, args: seq<Arg>, i: nat, empty: bool, written: bool)
    decreases Left(m, i), 1
  {
    if i < |m.body| && m.body[i].kind == Paste then
      i + 1 < |m.body| && (
        var none := Operand(args, m.body[i + 1]) == [];
        || (empty && !none && (written || FindArg(args, m.body[i + 1]).None?))
        || LosesAt(m, args, i + 2, empty && none, written))
    else Loses(m, args, i, written || !empty)
  }

  predicate LosesOperand(m: Macro, args: seq<Arg>) { Loses(m, args, 0, false) }

  // -------------------------------------------------------------------
  // Arguments that differ in white space only.
  // -------------------------------------------------------------------

  predicate SameShape(a: seq<Arg>, b: seq<Arg>) {
    |a| == |b| && forall k :: 0 <= k < |a| ==>
      && a[k].param == b[k].param && a[k].omitted == b[k].omitted
      && (a[k].body == [] <==> b[k].body == []) && a[k].expanded == b[k].expanded
  }

  lemma {:induction false} FindFromShape(a: seq<Arg>, b: seq<Arg>, name: Name, i: nat)
    requires SameShape(a, b) && i <= |a|
    ensures FindFrom(a, name, i) == FindFrom(b, name, i)
    decreases |a| - i
  {
    if i < |a| {
      FindFromShape(a, b, name, i + 1);
    }
  }

  lemma {:induction false} FindShape(a: seq<Arg>, b: seq<Arg>, t: Token)
    requires SameShape(a, b)
    ensures FindArg(a, t) == FindArg(b, t) && (Operand(a, t) == [] <==> Operand(b, t) == [])
  {
    FindFromShape(a, b, t.text, 0);
  }

  lemma {:induction false} OpeningShape(m: Macro, a: seq<Arg>, b: seq<Arg>, i: nat)
    requires SameShape(a, b) && i < |m.body|
    ensures Opening(m, a, i) == Opening(m, b, i)
  {
    hide Operand, FindArg;
    FindShape(a, b, m.body[i]);
    if i + 2 < |m.body| {
      FindShape(a, b, m.body[i + 2]);
    }
    assert GnuComma(m, a, i) == GnuComma(m, b, i);
    if IsStringize(m, i) && i + 1 < |m.body| {
      FindShape(a, b, m.body[i + 1]);
    }
  }

  lemma {:induction false} LosesShape(m: Macro, a: seq<Arg>, b: seq<Arg>, i: nat, written: bool)
    requires SameShape(a, b)
    ensures Loses(m, a, i, written) == Loses(m, b, i, written)
    decreases Left(m, i), 0
  {
    hide Opening;
    if i < |m.body| {
      OpeningShape(m, a, b, i);
      LosesAtShape(m, a, b, Opening(m, a, i).1, Opening(m, a, i).0, written);
    }
  }

  lemma {:induction false} LosesAtShape(m: Macro, a: seq<Arg>, b: seq<Arg>, i: nat, empty: bool, written: bool)
    requires SameShape(a, b)
    ensures LosesAt(m, a, i, empty, written) == LosesAt(m, b, i, empty, written)
    decreases Left(m, i), 1
  {
    hide Operand, FindArg, Loses;
    if i < |m.body| && m.body[i].kind == Paste {
      if i + 1 < |m.body| {
        FindShape(a, b, m.body[i + 1]);
        LosesAtShape(m, a, b, i + 2, empty && Operand(a, m.body[i + 1]) == [], written);
      }
    } else {
      LosesShape(m, a, b, i, written || !empty);
    }
  }

  // -------------------------------------------------------------------
  // One turn of the scan.
  // -------------------------------------------------------------------

  /** At a parameter before ## whose argument is empty. */
  predicate EmptyLeft(m: Macro, args: seq<Arg>, i: nat)
    requires i < |m.body|
  {
    && !IsStringize(m, i) && GnuComma(m, args, i).None? && NextIs(m, i, Paste)
    && FindArg(args, m.body[i]).Some? && args[FindArg(args, m.body[i]).value].body == []
  }

  /** At the start of any other unit the scan writes the first operand. */
  lemma {:induction false} FirstStep(lx: Lexis, m: Macro, mtk: Token, args: seq<Arg>, i: nat, os: seq<Token>)
    requires i < |m.body| && m.body[i].kind != Paste && !EmptyLeft(m, args, i)
    ensures SubstStep(lx, m, mtk, Scan(i, os, args)) == match First(lx, m, mtk, args, i)
                                                       case None => None
                                                       case Some(p) => Some(Scan(p.next, os + p.image, p.args))
    ensures First(lx, m, mtk, args, i).Some? ==>
              var p := First(lx, m, mtk, args, i).value;
              SameShape(args, p.args) && Opening(m, args, i) == (p.image == [], p.next)
  {
    var t := m.body[i];
    if IsStringize(m, i) {
    } else if GnuComma(m, args, i).Some? {
      var a := args[GnuComma(m, args, i).value];
      if CommaOmitted(m, a) {
        assert os + [] == os;
      } else {
        Assoc(os, [t], a.body);
      }
    } else if FindArg(args, t).Some? && !NextIs(m, i, Paste) {
      var ex := args[FindArg(args, t).value].expanded;
      if ex == [] {
        assert os + [] == os;
      } else {
        var f := ex[0].flags;
        Assoc(os, [ex[0].(flags := Flags(f.bol || t.flags.bol, f.noexpand || t.flags.noexpand, t.flags.space))],
              ex[1..]);
      }
    }
  }

  /** At an empty one it writes the second operand, and so does the unit. */
  lemma {:induction false} EmptyLeftStep(lx: Lexis, m: Macro, mtk: Token, args: seq<Arg>, i: nat, os: seq<Token>)
    requires i < |m.body| && m.body[i].kind != Paste && EmptyLeft(m, args, i)
    ensures i + 2 >= |m.body| ==>
              SubstStep(lx, m, mtk, Scan(i, os, args)) == None && Units(lx, m, mtk, args, i) == None
    ensures i + 2 < |m.body| ==>
              var r := Operand(args, m.body[i + 2]);
              && SubstStep(lx, m, mtk, Scan(i, os, args)) == Some(Scan(i + 3, os + r, args))
              && Units(lx, m, mtk, args, i) == Pastes(lx, m, mtk, args, i + 3, r)
              && Opening(m, args, i) == (r == [], i + 3)
  {
    hide Image;
    var j := FindArg(args, m.body[i]).value;
    assert args[j := args[j].(body := [])] == args;
    assert First(lx, m, mtk, args, i) == Some(Piece([], i + 1, args));
    assert Units(lx, m, mtk, args, i) == Pastes(lx, m, mtk, args, i + 1, []);
  }

  lemma {:induction false} PasteBehind(lx: Lexis, pre: seq<Token>, l: seq<Token>, t: Token)
    requires l != []
    ensures PasteLast(lx, pre + l, t) == match PasteLast(lx, l, t) case None => None case Some(s) => Some(pre + s)
  {
    var os := pre + l;
    assert os[|os| - 1] == l[|l| - 1] && os[..|os| - 1] == pre + l[..|l| - 1];
    if PasteLast(lx, l, t).Some? {
      Assoc(pre, l[..|l| - 1], [Pasted(lx, l[|l| - 1], t).value]);
    }
  }

  /** At a ## the scan glues the operand to the unit, unless it loses it. */
  lemma {:induction false} PasteStep(lx: Lexis, m: Macro, mtk: Token, args: seq<Arg>, i: nat, pre: seq<Token>,
                                     l: seq<Token>)
    requires i + 1 < |m.body| && m.body[i].kind == Paste
    requires var t := m.body[i + 1];
             !(l == [] && Operand(args, t) != [] && (pre != [] || FindArg(args, t).None?))
    ensures SubstStep(lx, m, mtk, Scan(i, pre + l, args)) == match Glue(lx, l, Operand(args, m.body[i + 1]))
                                                            case None => None
                                                            case Some(l') => Some(Scan(i + 2, pre + l', args))
  {
    hide PasteLast;
    var t := m.body[i + 1];
    var r := Operand(args, t);
    if l != [] && r != [] {
      PasteBehind(lx, pre, l, r[0]);
      if PasteLast(lx, l, r[0]).Some? {
        var s := PasteLast(lx, l, r[0]).value;
        Assoc(pre, s, r[1..]);
        if FindArg(args, t).None? {
          assert s + r[1..] == s;
        }
      }
    } else if l == [] && r != [] {
      assert pre + l == [] && pre + r == r;
    }
  }

  /** Where it does, it stops or writes one token too few. */
  lemma {:induction false} LostStep(lx: Lexis, m: Macro, mtk: Token, args: seq<Arg>, i: nat, pre: seq<Token>)
    requires i + 1 < |m.body| && m.body[i].kind == Paste
    requires var t := m.body[i + 1]; Operand(args, t) != [] && (pre != [] || FindArg(args, t).None?)
    ensures var r := SubstStep(lx, m, mtk, Scan(i, pre, args));
            r.Some? ==>
              && r.value.i == i + 2 && r.value.args == args
              && 0 < |r.value.os| < |pre| + |Operand(args, m.body[i + 1])|
  {
  }

  // -------------------------------------------------------------------
  // Whole scans.
  // -------------------------------------------------------------------

  predicate Shorter(r: Option<seq<Token>>, n: nat) { r.Some? ==> |r.value| < n }

  function Behind(pre: seq<Token>, r: Option<seq<Token>>): Option<seq<Token>> {
    match r case None => None case Some(s) => Some(pre + s)
  }

  /** A scan that has written too little never catches up. */
  lemma {:induction false} UnitsGap(lx: Lexis, m: Macro, mtk: Token, args: seq<Arg>, i: nat, os: seq<Token>, n: nat)
    requires i < |m.body| ==> m.body[i].kind != Paste
    requires 0 < |os| < n && Units(lx, m, mtk, args, i).Some?
    ensures Shorter(SubstFrom(lx, m, mtk, Scan(i, os, args)), n + |Units(lx, m, mtk, args, i).value|)
    decreases Left(m, i), 0
  {
    hide SubstStep, First, Operand, Opening, EmptyLeft;
    if i < |m.body| {
      if EmptyLeft(m, args, i) {
        EmptyLeftStep(lx, m, mtk, args, i, os);
        var r := Operand(args, m.body[i + 2]);
        PastesGap(lx, m, mtk, args, i + 3, os + r, n, r);
      } else {
        FirstStep(lx, m, mtk, args, i, os);
        var p := First(lx, m, mtk, args, i).value;
        PastesGap(lx, m, mtk, p.args, p.next, os + p.image, n, p.image);
      }
    }
  }

  lemma {:induction false} PastesGap(lx: Lexis, m: Macro, mtk: Token, args: seq<Arg>, i: nat, os: seq<Token>, n: nat,
                                     l: seq<Token>)
    requires 0 < |os| < n + |l| && Pastes(lx, m, mtk, args, i, l).Some?
    ensures Shorter(SubstFrom(lx, m, mtk, Scan(i, os, args)), n + |Pastes(lx, m, mtk, args, i, l).value|)
    decreases Left(m, i), 1
  {
    hide SubstStep, Operand;
    if i < |m.body| && m.body[i].kind == Paste {
      var l' := Glue(lx, l, Operand(args, m.body[i + 1])).value;
      GapStep(lx, m, mtk, args, i, os, n, l);
      var s := SubstStep(lx, m, mtk, Scan(i, os, args));
      if s.Some? {
        PastesGap(lx, m, mtk, args, i + 2, s.value.os, n, l');
      }
    } else {
      UnitsGap(lx, m, mtk, args, i, os, n + |l|);
    }
  }

  lemma {:induction false} GapStep(lx: Lexis, m: Macro, mtk: Token, args: seq<Arg>, i: nat, os: seq<Token>, n: nat,
                                   l: seq<Token>)
    requires i + 1 < |m.body| && m.body[i].kind == Paste && 0 < |os| < n + |l|
    requires Glue(lx, l, Operand(args, m.body[i + 1])).Some?
    ensures var s := SubstStep(lx, m, mtk, Scan(i, os, args));
            s.Some? ==>
              && s.value.i == i + 2 && s.value.args == args
              && 0 < |s.value.os| < n + |Glue(lx, l, Operand(args, m.body[i + 1])).value|
  {
  }

  /** Either the scan writes just the units, or it writes fewer tokens. */
  predicate Agrees(pre: seq<Token>, scan: Option<seq<Token>>, units: Option<seq<Token>>, loses: bool) {
    && (!loses ==> scan == Behind(pre, units))
    && (loses && units.Some? ==> Shorter(scan, |pre| + |units.value|))
  }

  lemma {:induction false} UnitsAgree(lx: Lexis, m: Macro, mtk: Token, args: seq<Arg>, i: nat, pre: seq<Token>)
    requires i < |m.body| ==> m.body[i].kind != Paste
    ensures Agrees(pre, SubstFrom(lx, m, mtk, Scan(i, pre, args)), Units(lx, m, mtk, args, i),
                   Loses(m, args, i, pre != []))
    decreases Left(m, i), 0
  {
    hide SubstStep, First, Operand, Opening, EmptyLeft, SameShape;
    if i >= |m.body| {
      assert pre + [] == pre;
    } else if EmptyLeft(m, args, i) {
      EmptyLeftStep(lx, m, mtk, args, i, pre);
      if i + 2 < |m.body| {
        PastesAgree(lx, m, mtk, args, i + 3, pre, Operand(args, m.body[i + 2]));
      }
    } else {
      FirstStep(lx, m, mtk, args, i, pre);
      if First(lx, m, mtk, args, i).Some? {
        var p := First(lx, m, mtk, args, i).value;
        LosesAtShape(m, args, p.args, p.next, p.image == [], pre != []);
        PastesAgree(lx, m, mtk, p.args, p.next, pre, p.image);
      }
    }
  }

  lemma {:induction false} PastesAgree(lx: Lexis, m: Macro, mtk: Token, args: seq<Arg>, i: nat, pre: seq<Token>,
                                       l: seq<Token>)
    ensures Agrees(pre, SubstFrom(lx, m, mtk, Scan(i, pre + l, args)), Pastes(lx, m, mtk, args, i, l),
                   LosesAt(m, args, i, l == [], pre != []))
    decreases Left(m, i), 1
  {
    hide SubstStep, Operand, Opening, FindArg;
    if i < |m.body| && m.body[i].kind == Paste {
      if i + 1 < |m.body| {
        var t := m.body[i + 1];
        if l == [] && Operand(args, t) != [] && (pre != [] || FindArg(args, t).None?) {
          assert pre + l == pre;
          LostStep(lx, m, mtk, args, i, pre);
          var s := SubstStep(lx, m, mtk, Scan(i, pre, args));
          if s.Some? && Pastes(lx, m, mtk, args, i, l).Some? {
            PastesGap(lx, m, mtk, args, i + 2, s.value.os, |pre|, Operand(args, t));
          }
        } else {
          PasteStep(lx, m, mtk, args, i, pre, l);
          if Glue(lx, l, Operand(args, t)).Some? {
            PastesAgree(lx, m, mtk, args, i + 2, pre, Glue(lx, l, Operand(args, t)).value);
          }
        }
      } else {
        NoOperand(lx, m, mtk, Scan(i, pre + l, args));
      }
    } else {
      UnitsAgree(lx, m, mtk, args, i, pre + l);
      if Units(lx, m, mtk, args, i).Some? {
        Assoc(pre, l, Units(lx, m, mtk, args, i).value);
      }
    }
  }

  lemma {:induction false} NoOperand(lx: Lexis, m: Macro, mtk: Token, s: Scan)
    requires s.i + 1 == |m.body| && m.body[s.i].kind == Paste
    ensures SubstStep(lx, m, mtk, s) == None
  {
  }

  /** For every list that does not begin with ##, the scan gives the replacement
      made unit by unit, or the same error, unless it loses an operand; and
      where it loses one it does not give it. */
  lemma {:induction false} SubstUnits(lx: Lexis, m: Macro, mtk: Token, args: seq<Arg>)
    requires m.body != [] ==> m.body[0].kind != Paste
    ensures !LosesOperand(m, args) ==> Subst(lx, m, mtk, args) == Replacement(lx, m, mtk, args)
    ensures Replacement(lx, m, mtk, args).Some? ==>
              (Subst(lx, m, mtk, args) == Replacement(lx, m, mtk, args) <==> !LosesOperand(m, args))
  {
    hide SubstFrom, Units, Loses;
    UnitsAgree(lx, m, mtk, args, 0, []);
    if Units(lx, m, mtk, args, 0).Some? {
      assert [] + Units(lx, m, mtk, args, 0).value == Units(lx, m, mtk, args, 0).value;
    }
  }

  // -------------------------------------------------------------------
  // Lists that lose nothing, and one that does.
  // -------------------------------------------------------------------

  /** The right operand of ## is not the left one of the next. */
  predicate Chainless(m: Macro) {
    forall i :: 0 <= i && i + 2 < |m.body| && m.body[i].kind == Paste ==> m.body[i + 2].kind != Paste
  }

  /** Without chains no operand is lost, whatever the arguments are. */
  lemma {:induction false} ChainlessKeeps(m: Macro, args: seq<Arg>, i: nat, written: bool)
    requires Chainless(m) && (i < |m.body| ==> m.body[i].kind != Paste)
    ensures !Loses(m, args, i, written)
    decreases Left(m, i), 0
  {
    if i < |m.body| {
      var (empty, next) := Opening(m, args, i);
      assert empty && next == i + 3 ==> m.body[i + 1].kind == Paste;
      ChainlessKeepsAt(m, args, next, empty, written);
    }
  }

  lemma {:induction false} ChainlessKeepsAt(m: Macro, args: seq<Arg>, i: nat, empty: bool, written: bool)
    requires Chainless(m) && (empty && i < |m.body| ==> m.body[i].kind != Paste)
    ensures !LosesAt(m, args, i, empty, written)
    decreases Left(m, i), 1
  {
    hide Operand, Opening, FindArg;
    if i < |m.body| && m.body[i].kind == Paste {
      ChainlessKeepsAt(m, args, i + 2, false, written);
    } else {
      ChainlessKeeps(m, args, i, written || !empty);
    }
  }

  /** So without chains the scan is the replacement unit by unit. */
  lemma {:induction false} ChainlessUnits(lx: Lexis, m: Macro, mtk: Token, args: seq<Arg>)
    requires Chainless(m) && (m.body != [] ==> m.body[0].kind != Paste)
    ensures Subst(lx, m, mtk, args) == Replacement(lx, m, mtk, args)
  {
    ChainlessKeeps(m, args, 0, false);
    SubstUnits(lx, m, mtk, args);
  }

  function Named(name: Name): Token { Token(Identifier, name, PLAIN) }

  const HASHES := Token(Paste, "##", PLAIN)

  /** The list "t a ## b ## c". */
  function LossMacro(t: Token): Macro {
    Macro(true, ["a", "b", "c"], [t, Named("a"), HASHES, Named("b"), HASHES, Named("c")])
  }

  /** Arguments of which only the last is not empty. */
  function LossArgs(one: Token): seq<Arg> {
    [Arg("a", [], [], false), Arg("b", [], [], false), Arg("c", [one], [], false)]
  }

  lemma {:induction false} LossArgsFound(one: Token)
    ensures var args := LossArgs(one);
            && FindArg(args, Named("a")) == Some(0) && FindArg(args, Named("b")) == Some(1)
            && FindArg(args, Named("c")) == Some(2)
            && Operand(args, Named("b")) == [] && Operand(args, Named("c")) == [one]
  {
    var args := LossArgs(one);
    assert FindFrom(args, "b", 1) == Some(1);
    assert FindFrom(args, "c", 2) == Some(2) == FindFrom(args, "c", 1);
  }

  /** In "t a ## b ## c" with a and b empty the scan pastes c to t, which is no
      operand: the units are t and c. */
  lemma {:induction false} OperandLost(lx: Lexis, t: Token, mtk: Token, one: Token)
    requires t.kind == Other
    ensures var m, args := LossMacro(t), LossArgs(one);
            && LosesOperand(m, args)
            && Replacement(lx, m, mtk, args) == Some(Headed([t, one], mtk))
            && Subst(lx, m, mtk, args)
                == match Pasted(lx, t, one) case None => None case Some(x) => Some(Headed([x], mtk))
  {
    var m, args := LossMacro(t), LossArgs(one);
    LossArgsFound(one);
    LossUnits(lx, t, mtk, one);
    assert Opening(m, args, 0) == (false, 1);
    assert Opening(m, args, 1) == (true, 4);
    assert LosesAt(m, args, 4, true, true);
    assert Loses(m, args, 1, true);
    assert LosesAt(m, args, 1, false, false);
    LossScan(lx, t, mtk, one);
  }

  lemma {:induction false} LossUnits(lx: Lexis, t: Token, mtk: Token, one: Token)
    requires t.kind == Other
    ensures Units(lx, LossMacro(t), mtk, LossArgs(one), 0) == Some([t, one])
  {
    var m, args := LossMacro(t), LossArgs(one);
    LossArgsFound(one);
    assert args[0 := args[0].(body := [])] == args;
    assert First(lx, m, mtk, args, 1) == Some(Piece([], 2, args));
    assert Units(lx, m, mtk, args, 6) == Some([]) && [one] + [] == [one];
    assert Pastes(lx, m, mtk, args, 6, [one]) == Some([one]);
    assert Pastes(lx, m, mtk, args, 4, []) == Some([one]);
    assert Pastes(lx, m, mtk, args, 2, []) == Some([one]);
    assert Units(lx, m, mtk, args, 1) == Some([one]);
    assert First(lx, m, mtk, args, 0) == Some(Piece([t], 1, args));
    assert Pastes(lx, m, mtk, args, 1, [t]) == Some([t] + [one]) && [t] + [one] == [t, one];
  }

  lemma {:induction false} LossScan(lx: Lexis, t: Token, mtk: Token, one: Token)
    requires t.kind == Other
    ensures SubstFrom(lx, LossMacro(t), mtk, Scan(0, [], LossArgs(one)))
         == match Pasted(lx, t, one) case None => None case Some(x) => Some([x])
  {
    var m, args := LossMacro(t), LossArgs(one);
    LossArgsFound(one);
    assert [] + [t] == [t] && [t] + [] == [t];
    assert SubstStep(lx, m, mtk, Scan(0, [], args)) == Some(Scan(1, [t], args));
    EmptyLeftStep(lx, m, mtk, args, 1, [t]);
    assert SubstStep(lx, m, mtk, Scan(1, [t], args)) == Some(Scan(4, [t], args));
    var r := SubstStep(lx, m, mtk, Scan(4, [t], args));
    assert [t][..0] == [] && [one][1..] == [];
    if Pasted(lx, t, one).Some? {
      var x := Pasted(lx, t, one).value;
      assert [] + [x] == [x] && [x] + [] == [x];
      assert PasteLast(lx, [t], one) == Some([x]);
    }
    assert r == match Pasted(lx, t, one) case None => None case Some(x) => Some(Scan(6, [x], args));
    assert SubstFrom(lx, m, mtk, Scan(4, [t], args)) == match r case None => None case Some(s) => Some(s.os);
  }
}
