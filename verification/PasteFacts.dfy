/** What #, ## and the GNU comma give on the lists that consist of them, said of
    the spellings of the arguments. */
module PasteFacts {
  import opened Wrappers
  import opened Tokens
  import opened MacroArgs
  import opened Substitution
  import opened Placemarkers

  function Param(name: Name, space: bool): Token { Token(Identifier, name, PLAIN.(space := space)) }

  /** The token that the lexer makes of a glued spelling. */
  function Made(x: Lexed, space: bool): Token {
    Token(if x.LexedIdent? then Identifier else Other, x.text, Flags(false, false, space))
  }

  /** The list "p ## q". */
  function PasteMacro(p: Name, q: Name, space: bool): Macro {
    Macro(true, [p, q], [Param(p, space), HASHES, Param(q, false)])
  }

  predicate Bracket(t: Token) { t.kind == LParen || t.kind == RParen }

  /** Behind the raw left argument, written, stands a ## . */
  lemma {:induction false} PasteLeft(lx: Lexis, mtk: Token, p: Name, q: Name, space: bool, a: Arg, b: Arg)
    requires p != q && a.param == p && b.param == q && a.body != []
    ensures var m := PasteMacro(p, q, space);
            var l := a.body[0 := a.body[0].(flags := a.body[0].flags.(space := space))];
            SubstFrom(lx, m, mtk, Scan(0, [], [a, b])) == SubstFrom(lx, m, mtk, Scan(1, l, [a.(body := l), b]))
  {
    var m, args := PasteMacro(p, q, space), [a, b];
    assert FindArg(args, m.body[0]) == Some(0);
    var l := a.body[0 := a.body[0].(flags := a.body[0].flags.(space := space))];
    assert args[0 := a.(body := l)] == [a.(body := l), b];
    assert [] + l == l;
    assert SubstStep(lx, m, mtk, Scan(0, [], args)) == LeftRaw(m, Scan(0, [], args), 0);
  }

  lemma {:induction false} PasteRight(lx: Lexis, mtk: Token, p: Name, q: Name, space: bool, a: Arg, b: Arg,
                                      l: seq<Token>)
    requires p != q && a.param == p && b.param == q && l != [] && b.body != []
    requires !Bracket(l[|l| - 1]) && !Bracket(b.body[0])
    ensures var m := PasteMacro(p, q, space);
            var last := l[|l| - 1];
            SubstFrom(lx, m, mtk, Scan(1, l, [a, b]))
            == match lx.glue(last.text, b.body[0].text)
               case None => None
               case Some(x) => Some(l[..|l| - 1] + [Made(x, last.flags.space)] + b.body[1..])
  {
    var m, args := PasteMacro(p, q, space), [a, b];
    assert FindFrom(args, q, 1) == Some(1);
    assert FindArg(args, m.body[2]) == Some(1);
    var r := SubstStep(lx, m, mtk, Scan(1, l, args));
    assert r == RightPasted(lx, m, Scan(1, l, args));
    assert r.Some? ==> r.value.i == 3 && SubstFrom(lx, m, mtk, r.value) == Some(r.value.os);
  }

  /** In "p ## q" with raw arguments that are not empty, the last token of the
      first and the first of the second become the one token that the lexer
      makes of the left spelling followed by the right one, with the white space
      of the left one; the prescans are not looked at. */
  lemma {:induction false} PasteGives(lx: Lexis, mtk: Token, p: Name, q: Name, space: bool, a: Arg, b: Arg)
    requires p != q && a.param == p && b.param == q && a.body != [] && b.body != []
    requires !Bracket(a.body[|a.body| - 1]) && !Bracket(b.body[0])
    ensures var l := a.body[0 := a.body[0].(flags := a.body[0].flags.(space := space))];
            var last := l[|l| - 1];
            Subst(lx, PasteMacro(p, q, space), mtk, [a, b])
            == match lx.glue(a.body[|a.body| - 1].text, b.body[0].text)
               case None => None
               case Some(x) => Some(Headed(l[..|l| - 1] + [Made(x, last.flags.space)] + b.body[1..], mtk))
  {
    hide SubstFrom;
    var l := a.body[0 := a.body[0].(flags := a.body[0].flags.(space := space))];
    assert l[|l| - 1].text == a.body[|a.body| - 1].text && l[|l| - 1].kind == a.body[|a.body| - 1].kind;
    PasteLeft(lx, mtk, p, q, space, a, b);
    PasteRight(lx, mtk, p, q, space, a.(body := l), b, l);
  }

  /** With a lexer that takes any spelling, two tokens come out as one, spelled
      left before right. */
  lemma {:induction false} PasteOrder(quote: seq<Token> -> Option<string>, mtk: Token, p: Name, q: Name, l: Token,
                                      r: Token)
    requires p != q && !Bracket(l) && !Bracket(r)
    ensures var lx := Lexis((x: string, y: string) => Some(LexedOther(x + y)), quote);
            var os := Subst(lx, PasteMacro(p, q, false), mtk, [Arg(p, [l], [], false), Arg(q, [r], [], false)]);
            os.Some? && |os.value| == 1 && os.value[0].text == l.text + r.text
  {
    var lx := Lexis((x: string, y: string) => Some(LexedOther(x + y)), quote);
    var a, b := Arg(p, [l], [], false), Arg(q, [r], [], false);
    PasteGives(lx, mtk, p, q, false, a, b);
    var made := Made(LexedOther(l.text + r.text), false);
    var left := [l][0 := l.(flags := l.flags.(space := false))];
    assert left[..0] + [made] + [r][1..] == [made];
  }

  /** Three operands are pasted from the left. */
  lemma {:induction false} PasteThree(lx: Lexis, mtk: Token, t: Token, u: Token, v: Token)
    requires t.kind == u.kind == v.kind == Other
    ensures var m := Macro(false, [], [t, HASHES, u, HASHES, v]);
            Subst(lx, m, mtk, [])
            == match lx.glue(t.text, u.text)
               case None => None
               case Some(x) => (
                 match lx.glue(x.text, v.text)
                 case None => None
                 case Some(y) => Some(Headed([Made(y, t.flags.space)], mtk)))
  {
    hide SubstStep;
    var m := Macro(false, [], [t, HASHES, u, HASHES, v]);
    PlainFirst(lx, m, mtk);
    ScanGoes(lx, m, mtk, Scan(0, [], []));
    ScanGoes(lx, m, mtk, Scan(1, [t], []));
    OnePasted(lx, m, mtk, 1, t);
    if lx.glue(t.text, u.text).Some? {
      var l := Made(lx.glue(t.text, u.text).value, t.flags.space);
      ScanGoes(lx, m, mtk, Scan(3, [l], []));
      OnePasted(lx, m, mtk, 3, l);
    }
  }

  lemma {:induction false} PlainFirst(lx: Lexis, m: Macro, mtk: Token)
    requires m.body != [] && m.body[0].kind == Other
    ensures SubstStep(lx, m, mtk, Scan(0, [], [])) == Some(Scan(1, [m.body[0]], []))
  {
    assert [] + [m.body[0]] == [m.body[0]];
  }

  /** One turn of the scan, and its end. */
  lemma {:induction false} ScanGoes(lx: Lexis, m: Macro, mtk: Token, s: Scan)
    requires s.i < |m.body|
    ensures SubstFrom(lx, m, mtk, s) ==
            match SubstStep(lx, m, mtk, s)
            case None => None
            case Some(r) => if r.i >= |m.body| then Some(r.os) else SubstFrom(lx, m, mtk, r)
  {
  }

  lemma {:induction false} OnePasted(lx: Lexis, m: Macro, mtk: Token, i: nat, l: Token)
    requires i + 1 < |m.body| && m.body[i].kind == Paste && m.body[i + 1].kind == Other && !Bracket(l)
    ensures SubstStep(lx, m, mtk, Scan(i, [l], []))
         == match lx.glue(l.text, m.body[i + 1].text)
            case None => None
            case Some(x) => Some(Scan(i + 2, [Made(x, l.flags.space)], []))
  {
    assert [l][..0] == [];
    if lx.glue(l.text, m.body[i + 1].text).Some? {
      var made := Made(lx.glue(l.text, m.body[i + 1].text).value, l.flags.space);
      assert [] + [made] == [made];
    }
  }

  // -------------------------------------------------------------------
  // The other operators.
  // -------------------------------------------------------------------

  /** "# p" is one token, spelled from the raw argument, with the white space of
      the operator. */
  lemma {:induction false} StringizeGives(lx: Lexis, mtk: Token, space: bool, a: Arg)
    ensures var m := Macro(true, [a.param], [Token(Hash, "#", PLAIN.(space := space)), Param(a.param, false)]);
            Subst(lx, m, mtk, [a])
            == match lx.quote(a.body)
               case None => None
               case Some(text) => Some(Headed([Token(Other, text, PLAIN.(space := space))], mtk))
  {
    var m := Macro(true, [a.param], [Token(Hash, "#", PLAIN.(space := space)), Param(a.param, false)]);
    assert FindArg([a], m.body[1]) == Some(0);
    var s := Scan(0, [], [a]);
    assert SubstStep(lx, m, mtk, s) == Stringized(lx, m, s);
    ScanGoes(lx, m, mtk, s);
    if lx.quote(a.body).Some? {
      var t := Token(Other, lx.quote(a.body).value, PLAIN.(space := space));
      assert [] + [t] == [t];
    }
  }

  const COMMA_TOKEN := Token(Tokens.Comma, ",", PLAIN)

  /** In ", ## __VA_ARGS__" the comma goes with an argument that was left out, or
      is empty where it is the only one; otherwise comma and raw argument stay,
      and nothing is pasted. */
  lemma {:induction false} GnuCommaGives(lx: Lexis, mtk: Token, others: seq<Name>, args: seq<Arg>, a: Arg)
    requires forall k :: 0 <= k < |args| ==> args[k].param != VA_ARGS
    requires a.param == VA_ARGS
    ensures var m := Macro(true, others + [VA_ARGS], [COMMA_TOKEN, HASHES, Param(VA_ARGS, false)]);
            Subst(lx, m, mtk, args + [a])
            == Some(Headed(if a.omitted || (others == [] && a.body == []) then [] else [COMMA_TOKEN] + a.body, mtk))
  {
    var m := Macro(true, others + [VA_ARGS], [COMMA_TOKEN, HASHES, Param(VA_ARGS, false)]);
    var all := args + [a];
    FindLast(all, VA_ARGS, 0);
    assert FindArg(all, m.body[2]) == Some(|args|);
    assert GnuComma(m, all, 0) == Some(|args|);
    assert [] + [COMMA_TOKEN] == [COMMA_TOKEN];
    var s := Scan(0, [], all);
    assert |m.params| == 1 <==> others == [];
    assert SubstStep(lx, m, mtk, s) == Some(CommaPasted(m, s, |args|));
    ScanGoes(lx, m, mtk, s);
  }

  lemma {:induction false} FindLast(args: seq<Arg>, name: Name, i: nat)
    requires i < |args| && args[|args| - 1].param == name
    requires forall k :: i <= k < |args| - 1 ==> args[k].param != name
    ensures FindFrom(args, name, i) == Some(|args| - 1)
    decreases |args| - i
  {
    if i < |args| - 1 {
      FindLast(args, name, i + 1);
    }
  }

  /** Before any other parameter the comma is an operand of ## like every token. */
  lemma {:induction false} CommaPastes(lx: Lexis, mtk: Token, a: Arg)
    requires a.param != VA_ARGS && a.body != [] && !Bracket(a.body[0])
    ensures var m := Macro(true, [a.param], [COMMA_TOKEN, HASHES, Param(a.param, false)]);
            Subst(lx, m, mtk, [a])
            == match lx.glue(",", a.body[0].text)
               case None => None
               case Some(x) => Some(Headed([Made(x, false)] + a.body[1..], mtk))
  {
    var m := Macro(true, [a.param], [COMMA_TOKEN, HASHES, Param(a.param, false)]);
    assert FindArg([a], m.body[2]) == Some(0);
    assert [] + [COMMA_TOKEN] == [COMMA_TOKEN] && [COMMA_TOKEN][..0] == [];
    var s1 := Scan(1, [COMMA_TOKEN], [a]);
    assert SubstStep(lx, m, mtk, Scan(0, [], [a])) == Some(s1);
    var r := SubstStep(lx, m, mtk, s1);
    assert r == RightPasted(lx, m, s1);
    assert SubstFrom(lx, m, mtk, s1) == match r case None => None case Some(s) => SubstFrom(lx, m, mtk, s);
    if lx.glue(",", a.body[0].text).Some? {
      var made := Made(lx.glue(",", a.body[0].text).value, false);
      assert [] + [made] == [made];
      assert r == Some(Scan(3, [made] + a.body[1..], [a]));
    }
  }

  // -------------------------------------------------------------------
  // The flags of the macro's name.
  // -------------------------------------------------------------------

  lemma {:induction false} FlagsIgnored(lx: Lexis, m: Macro, mtk: Token, s: Scan)
    ensures SubstFrom(lx, m, mtk, s) == SubstFrom(lx, m, mtk.(flags := PLAIN), s)
    decreases |m.body| - s.i
  {
    if s.i < |m.body| {
      var r := SubstStep(lx, m, mtk, s);
      assert r == SubstStep(lx, m, mtk.(flags := PLAIN), s);
      if r.Some? { FlagsIgnored(lx, m, mtk, r.value); }
    }
  }

  /** They go, in addition to its own, to the first token of the replacement,
      and to no other. */
  lemma {:induction false} NameFlags(lx: Lexis, m: Macro, mtk: Token, args: seq<Arg>)
    ensures var os, plain := Subst(lx, m, mtk, args), Subst(lx, m, mtk.(flags := PLAIN), args);
            && os.Some? == plain.Some?
            && (os.Some? ==> |os.value| == |plain.value|)
            && (os.Some? && os.value != [] ==>
                  var x, y, g := os.value[0], plain.value[0], mtk.flags;
                  && x.kind == y.kind && x.text == y.text
                  && x.flags.bol == (y.flags.bol || g.bol) && x.flags.noexpand == (y.flags.noexpand || g.noexpand)
                  && x.flags.space == (y.flags.space || g.space)
                  && os.value[1..] == plain.value[1..])
  {
    FlagsIgnored(lx, m, mtk, Scan(0, [], args));
  }
}
