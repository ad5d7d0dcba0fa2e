/** Substitution of arguments into a replacement list: #, ##, the GNU comma
    and ordinary parameters. */
module Substitution {
  import opened Wrappers
  import opened Seqs
  import opened Tokens
  import opened MacroArgs

  /** A pasted text lexed again: one identifier, or one token of another kind. */
  datatype Lexed = LexedIdent(text: string) | LexedOther(text: string)

  /** What substitution asks of the lexer: one token for two spellings glued
      together, and the spelling of a stringized argument.  None is a
      diagnosed error. */
  datatype Lexis = Lexis(glue: (string, string) -> Option<Lexed>, quote: seq<Token> -> Option<string>)

  predicate IsParen(t: Token) { t.kind in {LParen, RParen} }

  /** The token lhs ## rhs.  A parenthesis glued to anything is never one token. */
  function Pasted(lx: Lexis, lhs: Token, rhs: Token): Option<Token> {
    if IsParen(lhs) || IsParen(rhs) then None
    else
      var flags := PLAIN.(space := lhs.flags.space);
      match lx.glue(lhs.text, rhs.text)
      case None => None
      case Some(LexedIdent(text)) => Some(Token(Identifier, text, flags))
      case Some(LexedOther(text)) => Some(Token(Other, text, flags))
  }

  /** os with rhs pasted onto its last token. */
  function PasteLast(lx: Lexis, os: seq<Token>, rhs: Token): Option<seq<Token>> {
    if os == [] then None
    else
      match Pasted(lx, os[|os| - 1], rhs)
      case None => None
      case Some(t) => Some(os[..|os| - 1] + [t])
  }

  function FindFrom(args: seq<Arg>, name: Name, i: nat): (r: Option<nat>)
    requires i <= |args|
    ensures r.Some? ==> r.value < |args| && args[r.value].param == name
    ensures r.None? ==> forall k :: i <= k < |args| ==> args[k].param != name
    decreases |args| - i
  {
    if i == |args| then None else if args[i].param == name then Some(i) else FindFrom(args, name, i + 1)
  }

  /** The argument a replacement-list token stands for. */
  function FindArg(args: seq<Arg>, t: Token): (r: Option<nat>)
    ensures r.Some? ==> r.value < |args| && t.kind == Identifier && args[r.value].param == t.text
    ensures r.None? && t.kind == Identifier ==> forall k :: 0 <= k < |args| ==> args[k].param != t.text
  {
    if t.kind != Identifier then None else FindFrom(args, t.text, 0)
  }

  predicate NextIs(m: Macro, i: nat, k: Kind) { i + 1 < |m.body| && m.body[i + 1].kind == k }

  /** The GNU form ", ## __VA_ARGS__" at i: the argument it names. */
  function GnuComma(m: Macro, args: seq<Arg>, i: nat): (r: Option<nat>)
    requires i < |m.body|
    ensures r.Some? ==> r.value < |args| && i + 2 < |m.body|
  {
    if m.body[i].kind == Comma && NextIs(m, i, Paste) && i + 2 < |m.body| then
      match FindArg(args, m.body[i + 2])
      case None => None
      case Some(j) => if args[j].param == VA_ARGS then Some(j) else None
    else None
  }

  /** The state of the scan over a replacement list. */
  datatype Scan = Scan(i: nat, os: seq<Token>, args: seq<Arg>)

  function Stringized(lx: Lexis, m: Macro, s: Scan): Option<Scan>
    requires s.i < |m.body|
  {
    if s.i + 1 == |m.body| then None
    else
      match FindArg(s.args, m.body[s.i + 1])
      case None => None
      case Some(j) =>
        match lx.quote(s.args[j].body)
        case None => None
        case Some(text) =>
          Some(s.(i := s.i + 2, os := s.os + [Token(Other, text, PLAIN.(space := m.body[s.i].flags.space))]))
  }

  function CommaPasted(m: Macro, s: Scan, j: nat): Scan
    requires s.i < |m.body| && j < |s.args|
  {
    var a := s.args[j];
    if a.omitted || (|m.params| == 1 && a.body == []) then s.(i := s.i + 3)
    else s.(i := s.i + 3, os := s.os + [m.body[s.i]] + a.body)
  }

  /** At a ## : the right operand joins the last token written. */
  function RightPasted(lx: Lexis, m: Macro, s: Scan): Option<Scan>
    requires s.i < |m.body|
  {
    if s.i + 1 == |m.body| then None
    else
      match FindArg(s.args, m.body[s.i + 1])
      case None =>
        (match PasteLast(lx, s.os, m.body[s.i + 1])
         case None => None
         case Some(os) => Some(s.(i := s.i + 2, os := os)))
      case Some(j) =>
        var b := s.args[j].body;
        if b == [] then Some(s.(i := s.i + 2))
        else if s.os == [] then Some(s.(i := s.i + 2, os := b))
        else
          match PasteLast(lx, s.os, b[0])
          case None => None
          case Some(os) => Some(s.(i := s.i + 2, os := os + b[1..]))
  }

  /** At a parameter that a ## follows: its raw argument, or, when that is
      empty, the right operand as it stands. */
  function LeftRaw(m: Macro, s: Scan, j: nat): Option<Scan>
    requires s.i < |m.body| && j < |s.args|
  {
    var b := s.args[j].body;
    if b != [] then
      var b' := b[0 := b[0].(flags := b[0].flags.(space := m.body[s.i].flags.space))];
      Some(Scan(s.i + 1, s.os + b', s.args[j := s.args[j].(body := b')]))
    else if s.i + 2 >= |m.body| then None
    else
      var rhs := m.body[s.i + 2];
      match FindArg(s.args, rhs)
      case None => Some(s.(i := s.i + 3, os := s.os + [rhs]))
      case Some(j2) => Some(s.(i := s.i + 3, os := s.os + s.args[j2].body))
  }

  /** At a parameter elsewhere: its argument after the prescan. */
  function Inserted(m: Macro, s: Scan, j: nat): Scan
    requires s.i < |m.body| && j < |s.args|
  {
    var ex := s.args[j].expanded;
    var p := m.body[s.i].flags;
    if ex == [] then s.(i := s.i + 1)
    else
      var f := ex[0].flags;
      var t := ex[0].(flags := Flags(f.bol || p.bol, f.noexpand || p.noexpand, p.space));
      s.(i := s.i + 1, os := s.os + [t] + ex[1..])
  }

  /** Any other token; the macro's own name is painted at once. */
  function Copied(m: Macro, mtk: Token, s: Scan): Scan
    requires s.i < |m.body|
  {
    var t := m.body[s.i];
    var t' := if t.kind == Identifier && t.text == mtk.text then t.(flags := t.flags.(noexpand := true)) else t;
    s.(i := s.i + 1, os := s.os + [t'])
  }

  /** One turn of the scan; None is a diagnosed error. */
  function SubstStep(lx: Lexis, m: Macro, mtk: Token, s: Scan): (r: Option<Scan>)
    requires s.i < |m.body|
    ensures r.Some? ==> r.value.i > s.i && |r.value.args| == |s.args|
  {
    var t := m.body[s.i];
    if t.kind == Hash && m.func then Stringized(lx, m, s)
    else if GnuComma(m, s.args, s.i).Some? then Some(CommaPasted(m, s, GnuComma(m, s.args, s.i).value))
    else if t.kind == Paste then RightPasted(lx, m, s)
    else
      match FindArg(s.args, t)
      case Some(j) => if NextIs(m, s.i, Paste) then LeftRaw(m, s, j) else Some(Inserted(m, s, j))
      case None => Some(Copied(m, mtk, s))
  }

  function SubstFrom(lx: Lexis, m: Macro, mtk: Token, s: Scan): Option<seq<Token>>
    decreases |m.body| - s.i
  {
    if s.i >= |m.body| then Some(s.os)
    else
      match SubstStep(lx, m, mtk, s)
      case None => None
      case Some(s') => SubstFrom(lx, m, mtk, s')
  }

  /** The first token written takes the flags of the macro name as well. */
  function Headed(os: seq<Token>, mtk: Token): (r: seq<Token>)
    ensures |r| == |os| && forall i :: 0 <= i < |os| ==> r[i].kind == os[i].kind && r[i].text == os[i].text
  {
    if os == [] then []
    else
      var f, g := os[0].flags, mtk.flags;
      os[0 := os[0].(flags := Flags(f.bol || g.bol, f.noexpand || g.noexpand, f.space || g.space))]
  }

  /** The replacement of one macro call. */
  function Subst(lx: Lexis, m: Macro, mtk: Token, args: seq<Arg>): Option<seq<Token>> {
    match SubstFrom(lx, m, mtk, Scan(0, [], args))
    case None => None
    case Some(os) => Some(Headed(os, mtk))
  }

  /** The scan as the program runs it. */
  method Substitute(lx: Lexis, m: Macro, mtk: Token, args: seq<Arg>) returns (ok: bool, out: seq<Token>)
    ensures ok == Subst(lx, m, mtk, args).Some?
    ensures ok ==> out == Subst(lx, m, mtk, args).value
  {
    var s := Scan(0, [], args);
    while s.i < |m.body|
      invariant SubstFrom(lx, m, mtk, s) == SubstFrom(lx, m, mtk, Scan(0, [], args))
      decreases |m.body| - s.i
    {
      var next := SubstStep(lx, m, mtk, s);
      if next.None? {
        return false, [];
      }
      s := next.value;
    }
    return true, Headed(s.os, mtk);
  }

  // -------------------------------------------------------------------
  // What substitution preserves.
  // -------------------------------------------------------------------

  /** Arguments whose raw tokens are plain and balanced, and whose prescans obey
      the rule. */
  predicate CleanArg(rule: Rule, a: Arg) { Clean(a.body) && Obeys(rule, a.expanded) }

  predicate CleanArgs(rule: Rule, args: seq<Arg>) { forall k :: 0 <= k < |args| ==> CleanArg(rule, args[k]) }

  lemma {:induction false} ArgClean(rule: Rule, args: seq<Arg>, j: nat)
    requires CleanArgs(rule, args) && j < |args|
    ensures Clean(args[j].body) && Obeys(rule, args[j].expanded) && Plain(args[j].body)
  {
    assert CleanArg(rule, args[j]);
    ProfPlain(args[j].body);
  }

  function Tail(m: Macro, i: nat): seq<Token> { if i <= |m.body| then m.body[i..] else [] }

  /** What is written so far and what is still to read obey the rule together. */
  predicate CleanScan(rule: Rule, m: Macro, s: Scan) {
    CleanArgs(rule, s.args) && Keeps(rule, Join(Prof(s.os), Prof(Tail(m, s.i))), NEUTRAL)
  }

  lemma {:induction false} TailStep(m: Macro, i: nat)
    requires i < |m.body|
    ensures Prof(Tail(m, i)) == Join(Prof1(m.body[i]), Prof(Tail(m, i + 1)))
  {
    assert Tail(m, i)[1..] == Tail(m, i + 1);
  }

  /** Writing x where the list has y, both of the same profile. */
  lemma {:induction false} Moved(os: seq<Token>, x: seq<Token>, y: Profile, rest: Profile)
    requires Prof(x) == y
    ensures Join(Prof(os + x), rest) == Join(Prof(os), Join(y, rest))
  {
    ProfConcat(os, x);
    JoinAssoc(Prof(os), y, rest);
  }

  lemma {:induction false} PasteLastClean(lx: Lexis, os: seq<Token>, rhs: Token)
    requires PasteLast(lx, os, rhs).Some?
    requires Prof(os).plain && PlainToken(rhs)
    ensures Prof(PasteLast(lx, os, rhs).value) == Prof(os) && Prof1(rhs) == NEUTRAL
  {
    hide Prof;
    var init, t := os[..|os| - 1], Pasted(lx, os[|os| - 1], rhs).value;
    ProfSnoc(init, t);
    ProfSnoc(init, os[|os| - 1]);
    assert os == init + [os[|os| - 1]];
  }

  /** Behind ## comes a plain token or an argument, neither a parenthesis. */
  lemma {:induction false} RightTokenClean(rule: Rule, lx: Lexis, m: Macro, s: Scan)
    requires s.i + 1 < |m.body| && CleanScan(rule, m, s) && m.body[s.i].kind == Paste
    requires PasteLast(lx, s.os, m.body[s.i + 1]).Some?
    ensures CleanScan(rule, m, s.(i := s.i + 2, os := PasteLast(lx, s.os, m.body[s.i + 1]).value))
  {
    hide Prof;
    TailStep(m, s.i);
    TailStep(m, s.i + 1);
    PasteLastClean(lx, s.os, m.body[s.i + 1]);
  }

  lemma {:induction false} RightArgClean(rule: Rule, lx: Lexis, m: Macro, s: Scan, b: seq<Token>)
    requires s.i + 1 < |m.body| && CleanScan(rule, m, s) && m.body[s.i].kind == Paste
             && m.body[s.i + 1].kind == Identifier
    requires Clean(b) && b != [] && s.os != [] && PasteLast(lx, s.os, b[0]).Some?
    ensures CleanScan(rule, m, s.(i := s.i + 2, os := PasteLast(lx, s.os, b[0]).value + b[1..]))
  {
    hide Prof;
    TailStep(m, s.i);
    TailStep(m, s.i + 1);
    var os := PasteLast(lx, s.os, b[0]).value;
    ProfPlain(b);
    ProfCons(b[0], b[1..]);
    assert [b[0]] + b[1..] == b;
    PasteLastClean(lx, s.os, b[0]);
    Moved(os, b[1..], NEUTRAL, Prof(Tail(m, s.i + 2)));
  }

  lemma {:induction false} RightPastedClean(rule: Rule, lx: Lexis, m: Macro, s: Scan)
    requires s.i < |m.body| && CleanScan(rule, m, s) && m.body[s.i].kind == Paste
    requires RightPasted(lx, m, s).Some?
    ensures CleanScan(rule, m, RightPasted(lx, m, s).value)
  {
    hide Prof;
    var rhs := m.body[s.i + 1];
    match FindArg(s.args, rhs)
    case None =>
      RightTokenClean(rule, lx, m, s);
    case Some(j) =>
      var b := s.args[j].body;
      assert CleanArg(rule, s.args[j]);
      if b != [] && s.os != [] {
        RightArgClean(rule, lx, m, s, b);
      } else {
        TailStep(m, s.i);
        TailStep(m, s.i + 1);
        assert s.os == [] ==> s.os + b == b;
        Moved(s.os, b, NEUTRAL, Prof(Tail(m, s.i + 2)));
      }
  }

  lemma {:induction false} LeftRawClean(rule: Rule, m: Macro, s: Scan, j: nat)
    requires s.i < |m.body| && j < |s.args| && CleanScan(rule, m, s)
    requires m.body[s.i].kind == Identifier && NextIs(m, s.i, Paste)
    requires LeftRaw(m, s, j).Some?
    ensures CleanScan(rule, m, LeftRaw(m, s, j).value)
  {
    hide Prof;
    TailStep(m, s.i);
    TailStep(m, s.i + 1);
    var b := s.args[j].body;
    if b != [] {
      var b' := b[0 := b[0].(flags := b[0].flags.(space := m.body[s.i].flags.space))];
      ProfKinds(b, b');
      assert CleanArg(rule, s.args[j].(body := b'));
      Moved(s.os, b', NEUTRAL, Prof(Tail(m, s.i + 1)));
    } else {
      TailStep(m, s.i + 2);
      var rhs := m.body[s.i + 2];
      match FindArg(s.args, rhs)
      case None => ProfOne(rhs); Moved(s.os, [rhs], Prof1(rhs), Prof(Tail(m, s.i + 3)));
      case Some(j2) => Moved(s.os, s.args[j2].body, NEUTRAL, Prof(Tail(m, s.i + 3)));
    }
  }

  lemma {:induction false} CommaPastedClean(rule: Rule, m: Macro, s: Scan, j: nat)
    requires s.i < |m.body| && CleanScan(rule, m, s) && GnuComma(m, s.args, s.i) == Some(j)
    ensures CleanScan(rule, m, CommaPasted(m, s, j))
  {
    hide Prof;
    TailStep(m, s.i);
    TailStep(m, s.i + 1);
    TailStep(m, s.i + 2);
    var rest := Prof(Tail(m, s.i + 3));
    assert Prof(Tail(m, s.i)) == rest;
    ProfSnoc(s.os, m.body[s.i]);
    Moved(s.os + [m.body[s.i]], s.args[j].body, NEUTRAL, rest);
  }

  /** Writing what obeys the rule where the list has nothing of a parenthesis. */
  lemma {:induction false} InsertedKeeps(rule: Rule, os: seq<Token>, x: seq<Token>, rest: Profile)
    requires Obeys(rule, x) && Keeps(rule, Join(Prof(os), rest), NEUTRAL)
    ensures Keeps(rule, Join(Prof(os + x), rest), NEUTRAL)
  {
    ProfConcat(os, x);
    JoinUnit(Prof(os));
    JoinKeeps(rule, Prof(os), Prof(x), Prof(os), NEUTRAL);
    JoinKeeps(rule, Prof(os + x), rest, Prof(os), rest);
  }

  lemma {:induction false} InsertedClean(rule: Rule, m: Macro, s: Scan, j: nat)
    requires s.i < |m.body| && j < |s.args| && CleanScan(rule, m, s)
    requires m.body[s.i].kind == Identifier
    ensures CleanScan(rule, m, Inserted(m, s, j))
  {
    hide Prof, CleanArgs;
    TailStep(m, s.i);
    ArgClean(rule, s.args, j);
    JoinUnit(Prof(Tail(m, s.i + 1)));
    var ex := s.args[j].expanded;
    if ex != [] {
      var f, p := ex[0].flags, m.body[s.i].flags;
      var x := [ex[0].(flags := Flags(f.bol || p.bol, f.noexpand || p.noexpand, p.space))] + ex[1..];
      ProfKinds(ex, x);
      InsertedKeeps(rule, s.os, x, Prof(Tail(m, s.i + 1)));
      Assoc(s.os, x[..1], ex[1..]);
      assert Inserted(m, s, j).os == s.os + x;
    }
  }

  lemma {:induction false} StringizedClean(rule: Rule, lx: Lexis, m: Macro, s: Scan)
    requires s.i < |m.body| && CleanScan(rule, m, s) && m.body[s.i].kind == Hash && Stringized(lx, m, s).Some?
    ensures CleanScan(rule, m, Stringized(lx, m, s).value)
  {
    hide Prof;
    TailStep(m, s.i);
    TailStep(m, s.i + 1);
    var j := FindArg(s.args, m.body[s.i + 1]).value;
    ProfSnoc(s.os, Token(Other, lx.quote(s.args[j].body).value, PLAIN.(space := m.body[s.i].flags.space)));
  }

  lemma {:induction false} CopiedClean(rule: Rule, m: Macro, mtk: Token, s: Scan)
    requires s.i < |m.body| && CleanScan(rule, m, s)
    ensures CleanScan(rule, m, Copied(m, mtk, s))
  {
    hide Prof, CleanArgs;
    TailStep(m, s.i);
    var t := m.body[s.i];
    var t' := if t.kind == Identifier && t.text == mtk.text then t.(flags := t.flags.(noexpand := true)) else t;
    ProfOne(t');
    Moved(s.os, [t'], Prof1(t), Prof(Tail(m, s.i + 1)));
  }

  lemma {:induction false} SubstStepClean(rule: Rule, lx: Lexis, m: Macro, mtk: Token, s: Scan)
    requires s.i < |m.body| && CleanScan(rule, m, s)
    requires SubstStep(lx, m, mtk, s).Some?
    ensures CleanScan(rule, m, SubstStep(lx, m, mtk, s).value)
  {
    var t := m.body[s.i];
    if t.kind == Hash && m.func {
      StringizedClean(rule, lx, m, s);
    } else if GnuComma(m, s.args, s.i).Some? {
      CommaPastedClean(rule, m, s, GnuComma(m, s.args, s.i).value);
    } else if t.kind == Paste {
      RightPastedClean(rule, lx, m, s);
    } else {
      match FindArg(s.args, t)
      case Some(j) => if NextIs(m, s.i, Paste) { LeftRawClean(rule, m, s, j); } else { InsertedClean(rule, m, s, j); }
      case None => CopiedClean(rule, m, mtk, s);
    }
  }

  lemma {:induction false} SubstFromClean(rule: Rule, lx: Lexis, m: Macro, mtk: Token, s: Scan)
    requires CleanScan(rule, m, s)
    requires SubstFrom(lx, m, mtk, s).Some?
    ensures Obeys(rule, SubstFrom(lx, m, mtk, s).value)
    decreases |m.body| - s.i
  {
    if s.i < |m.body| {
      SubstStepClean(rule, lx, m, mtk, s);
      SubstFromClean(rule, lx, m, mtk, SubstStep(lx, m, mtk, s).value);
    }
  }

  /** What obeys a rule, replacement list and prescans, obeys it after
      substitution, #, ## and the GNU comma included. */
  lemma {:induction false} SubstBalanced(rule: Rule, lx: Lexis, m: Macro, mtk: Token, args: seq<Arg>)
    requires Obeys(rule, m.body) && CleanArgs(rule, args)
    requires Subst(lx, m, mtk, args).Some?
    ensures Obeys(rule, Subst(lx, m, mtk, args).value)
  {
    assert Tail(m, 0) == m.body;
    SubstFromClean(rule, lx, m, mtk, Scan(0, [], args));
    var os := SubstFrom(lx, m, mtk, Scan(0, [], args)).value;
    ProfKinds(os, Headed(os, mtk));
  }
}
