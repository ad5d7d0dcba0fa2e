/** Macros, and the collection of the arguments of a function-like macro. */
module MacroArgs {
  import opened Wrappers
  import opened Seqs
  import opened Tokens

  const VA_ARGS: Name := "__VA_ARGS__"

  /** A macro; the replacement list is kept without its closing Eom. */
  datatype Macro = Macro(func: bool, params: seq<Name>, body: seq<Token>)

  /** One collected argument: its raw tokens, its tokens after the argument
      prescan, and whether it is a variadic argument left out with its comma. */
  datatype Arg = Arg(param: Name, body: seq<Token>, expanded: seq<Token>, omitted: bool)

  /** A token inside an argument no longer begins a line. */
  function Settle(t: Token): Token {
    if t.flags.bol then t.(flags := t.flags.(bol := false, space := true)) else t
  }

  /** Nesting depth after a token; only called where the depth stays a nat. */
  function Nest(t: Token, paren: nat): nat
    requires t.kind == RParen ==> paren > 0
  {
    if t.kind == LParen then paren + 1 else if t.kind == RParen then paren - 1 else paren
  }

  /** The token in hand is never a newline: the scan skips them. */
  predicate OffNl(s: seq<Token>) { s != [] ==> s[0].kind != Newline }

  datatype One = One(body: seq<Token>, rest: seq<Token>)

  /** Reads one argument; s starts at the token the scan has in hand, and the
      rest starts at the ',' or ')' that ends the argument. */
  function CollectOne(s: seq<Token>, paren: nat, va: bool): (r: Option<One>)
    requires OffNl(s)
    ensures r.Some? ==> !AtEnd(r.value.rest) && |r.value.body| + |r.value.rest| <= |s|
    ensures r.Some? ==> r.value.rest[0].kind == RParen || (!va && r.value.rest[0].kind == Comma)
    decreases |s|
  {
    if AtEnd(s) then None
    else if paren == 0 && (s[0].kind == RParen || (!va && s[0].kind == Comma)) then Some(One([], s))
    else
      match CollectOne(SkipNl(s[1..]), Nest(s[0], paren), va)
      case None => None
      case Some(o) => Some(One([Settle(s[0])] + o.body, o.rest))
  }

  datatype Collected = Collected(args: seq<Arg>, rest: seq<Token>)

  /** Reads the arguments for the parameters from index i on; s starts at the
      token the scan has in hand.  None is a diagnosed arity or end error. */
  function CollectFrom(params: seq<Name>, i: nat, s: seq<Token>, args: seq<Arg>): (r: Option<Collected>)
    requires i <= |params| && OffNl(s)
    ensures r.Some? ==> |r.value.rest| < |s|
    decreases |params| - i
  {
    if i == |params| then
      if !AtEnd(s) && s[0].kind == RParen then Some(Collected(args, s[1..])) else None
    else if i > 0 && (AtEnd(s) || s[0].kind != Comma) then
      if params[i] == VA_ARGS && !AtEnd(s) && s[0].kind == RParen
      then Some(Collected(args + [Arg(VA_ARGS, [], [], true)], s[1..]))
      else None
    else
      var s1 := if i > 0 then SkipNl(s[1..]) else s;
      match CollectOne(s1, 0, params[i] == VA_ARGS)
      case None => None
      case Some(o) => CollectFrom(params, i + 1, o.rest, args + [Arg(params[i], o.body, [], false)])
  }

  /** All arguments; s is what follows the opening parenthesis. */
  function Collect(params: seq<Name>, s: seq<Token>): (r: Option<Collected>)
    ensures r.Some? ==> |r.value.rest| < |s|
  {
    CollectFrom(params, 0, SkipNl(s), [])
  }

  // -------------------------------------------------------------------
  // What a collected argument list looks like.
  // -------------------------------------------------------------------

  /** Depth of nesting after s, starting at depth d; None when a ')' is unmatched. */
  function Depth(s: seq<Token>, d: nat): Option<nat> {
    if s == [] then Some(d)
    else if s[0].kind == RParen && d == 0 then None
    else Depth(s[1..], Nest(s[0], d))
  }

  /** From depth d on, no comma of s stands outside all parentheses. */
  predicate NoTopComma(s: seq<Token>, d: nat) {
    s == [] || (!(d == 0 && s[0].kind in {Comma, RParen}) && NoTopComma(s[1..], Nest(s[0], d)))
  }

  /** What collecting keeps of a token: kind, text, paint, and whether white
      space or the beginning of a line stands before it. */
  datatype Mark = Mark(kind: Kind, text: string, noexpand: bool, white: bool)

  const COMMA := Mark(Comma, "", false, false)
  const CLOSE := Mark(RParen, "", false, false)

  /** A newline vanishes, and a delimiter is like any other of its kind. */
  function Shape1(t: Token): seq<Mark> {
    if t.kind == Newline then []
    else if t.kind == Comma then [COMMA]
    else if t.kind == RParen then [CLOSE]
    else [Mark(t.kind, t.text, t.flags.noexpand, t.flags.space || t.flags.bol)]
  }

  function Shape(s: seq<Token>): seq<Mark> {
    if s == [] then [] else Shape1(s[0]) + Shape(s[1..])
  }

  lemma {:induction false} ShapeCons(t: Token, s: seq<Token>)
    ensures Shape([t] + s) == Shape1(t) + Shape(s)
  {
    assert ([t] + s)[1..] == s;
  }

  lemma {:induction false} ShapeSkipNl(s: seq<Token>)
    ensures Shape(SkipNl(s)) == Shape(s)
  {
    if s != [] && s[0].kind == Newline {
      ShapeSkipNl(s[1..]);
    }
  }

  /** The arguments joined by commas again; an omitted one takes no comma. */
  function Rejoined(args: seq<Arg>): seq<Mark> {
    if args == [] then []
    else
      var last := args[|args| - 1];
      var init := args[..|args| - 1];
      if last.omitted then Rejoined(init)
      else if init == [] then Shape(last.body)
      else Rejoined(init) + [COMMA] + Shape(last.body)
  }

  predicate NoLineStart(s: seq<Token>) { forall i :: 0 <= i < |s| ==> !s[i].flags.bol }

  /** One argument holds no newline, is balanced, and has no top-level comma
      unless it is variadic. */
  lemma {:induction false} CollectOneBalanced(s: seq<Token>, paren: nat, va: bool)
    requires OffNl(s) && CollectOne(s, paren, va).Some?
    ensures var body := CollectOne(s, paren, va).value.body;
            && Plain(body) && NoLineStart(body)
            && Depth(body, paren) == Some(0)
            && (!va ==> NoTopComma(body, paren))
    decreases |s|
  {
    if paren == 0 && (s[0].kind == RParen || (!va && s[0].kind == Comma)) {
    } else {
      var rest := SkipNl(s[1..]);
      CollectOneBalanced(rest, Nest(s[0], paren), va);
      var tail := CollectOne(rest, Nest(s[0], paren), va).value.body;
      var body := [Settle(s[0])] + tail;
      assert body[1..] == tail;
    }
  }

  /** An argument together with what is left is exactly what was read. */
  lemma {:induction false} CollectOneShape(s: seq<Token>, paren: nat, va: bool)
    requires OffNl(s) && CollectOne(s, paren, va).Some?
    ensures var o := CollectOne(s, paren, va).value;
            Shape(s) == Shape(o.body) + Shape(o.rest)
    decreases |s|
  {
    if paren == 0 && (s[0].kind == RParen || (!va && s[0].kind == Comma)) {
    } else {
      var rest := SkipNl(s[1..]);
      CollectOneShape(rest, Nest(s[0], paren), va);
      ShapeSkipNl(s[1..]);
      var o := CollectOne(rest, Nest(s[0], paren), va).value;
      ShapeCons(Settle(s[0]), o.body);
      Assoc(Shape1(s[0]), Shape(o.body), Shape(o.rest));
    }
  }

  /** A collected argument of a list for the given parameters. */
  predicate GoodArg(a: Arg, param: Name) {
    && a.param == param
    && Plain(a.body) && NoLineStart(a.body)
    && Depth(a.body, 0) == Some(0)
    && (param != VA_ARGS ==> NoTopComma(a.body, 0))
    && (a.omitted ==> param == VA_ARGS && a.body == [])
    && a.expanded == []
  }

  predicate GoodArgs(args: seq<Arg>, params: seq<Name>) {
    |args| <= |params| && forall k :: 0 <= k < |args| ==> GoodArg(args[k], params[k])
  }

  lemma {:induction false} RejoinedNone()
    ensures Rejoined([]) == []
  {
  }

  lemma {:induction false} RejoinedSnoc(args: seq<Arg>, a: Arg)
    ensures Rejoined(args + [a]) ==
            if a.omitted then Rejoined(args)
            else if args == [] then Shape(a.body)
            else Rejoined(args) + [COMMA] + Shape(a.body)
  {
    assert (args + [a])[..|args|] == args;
  }

  lemma {:induction false} GoodSnoc(args: seq<Arg>, a: Arg, params: seq<Name>)
    requires GoodArgs(args, params) && |args| < |params| && GoodArg(a, params[|args|])
    ensures GoodArgs(args + [a], params)
  {
    hide GoodArg;
  }

  lemma {:induction false} OmittedGood()
    ensures GoodArg(Arg(VA_ARGS, [], [], true), VA_ARGS)
  {
  }

  lemma {:induction false} CollectFromGood(params: seq<Name>, i: nat, s: seq<Token>, args: seq<Arg>)
    requires |args| == i && GoodArgs(args, params) && OffNl(s)
    requires CollectFrom(params, i, s, args).Some?
    ensures GoodArgs(CollectFrom(params, i, s, args).value.args, params)
    decreases |params| - i
  {
    hide CollectOne, Depth, NoTopComma;
    if i == |params| {
    } else if i > 0 && s[0].kind != Comma {
      OmittedGood();
      GoodSnoc(args, Arg(VA_ARGS, [], [], true), params);
    } else {
      var s1 := if i > 0 then SkipNl(s[1..]) else s;
      var va := params[i] == VA_ARGS;
      CollectOneBalanced(s1, 0, va);
      var o := CollectOne(s1, 0, va).value;
      var a := Arg(params[i], o.body, [], false);
      GoodSnoc(args, a, params);
      CollectFromGood(params, i + 1, o.rest, args + [a]);
    }
  }

  lemma {:induction false} CollectFromShape(params: seq<Name>, i: nat, s: seq<Token>, args: seq<Arg>)
    requires |args| == i <= |params| && OffNl(s)
    requires CollectFrom(params, i, s, args).Some?
    ensures var c := CollectFrom(params, i, s, args).value;
            Rejoined(args) + Shape(s) == Rejoined(c.args) + [CLOSE] + Shape(c.rest)
    decreases |params| - i
  {
    hide CollectOne, Rejoined;
    RejoinedNone();
    if i == |params| {
    } else if i > 0 && s[0].kind != Comma {
      RejoinedSnoc(args, Arg(VA_ARGS, [], [], true));
    } else {
      var s1 := if i > 0 then SkipNl(s[1..]) else s;
      var va := params[i] == VA_ARGS;
      CollectOneShape(s1, 0, va);
      var o := CollectOne(s1, 0, va).value;
      var a := Arg(params[i], o.body, [], false);
      CollectFromShape(params, i + 1, o.rest, args + [a]);
      RejoinedSnoc(args, a);
      if i > 0 {
        ShapeSkipNl(s[1..]);
        var comma := [COMMA];
        assert Shape(s) == comma + (Shape(o.body) + Shape(o.rest));
        Assoc(Rejoined(args) + comma, Shape(o.body), Shape(o.rest));
        Assoc(Rejoined(args), comma, Shape(o.body) + Shape(o.rest));
      } else {
        assert Rejoined(args) + Shape(s) == Shape(s);
      }
    }
  }

  // -------------------------------------------------------------------
  // The tokens of an argument are the tokens read.
  // -------------------------------------------------------------------

  /** b is t as an argument holds it: of its flags the paint stays, and white
      space stands before it where it did or where a line began. */
  predicate Taken(b: Token, t: Token) {
    && b.kind == t.kind && b.text == t.text
    && b.flags.noexpand == t.flags.noexpand && b.flags.space == (t.flags.space || t.flags.bol) && !b.flags.bol
  }

  /** body is what was read, without the newlines. */
  predicate TakenFrom(body: seq<Token>, read: seq<Token>) {
    if read == [] then body == []
    else if read[0].kind == Newline then TakenFrom(body, read[1..])
    else body != [] && Taken(body[0], read[0]) && TakenFrom(body[1..], read[1..])
  }

  lemma {:induction false} TakenAfterNl(s: seq<Token>, k: nat, body: seq<Token>) returns (n: nat)
    requires k <= |SkipNl(s)| && TakenFrom(body, SkipNl(s)[..k])
    ensures n <= |s| && TakenFrom(body, s[..n]) && s[n..] == SkipNl(s)[k..]
  {
    if s != [] && s[0].kind == Newline {
      n := TakenAfterNl(s[1..], k, body);
      n := n + 1;
      assert s[..n][1..] == s[1..][..n - 1];
    } else {
      n := k;
    }
  }

  lemma {:induction false} TakenCons(b: Token, t: Token, body: seq<Token>, read: seq<Token>)
    requires Taken(b, t) && t.kind != Newline && TakenFrom(body, read)
    ensures TakenFrom([b] + body, [t] + read)
  {
    assert ([b] + body)[1..] == body && ([t] + read)[1..] == read;
  }

  /** One argument is taken from the tokens in front of those that are left. */
  lemma {:induction false} CollectOneTakes(s: seq<Token>, paren: nat, va: bool) returns (n: nat)
    requires OffNl(s) && CollectOne(s, paren, va).Some?
    ensures var o := CollectOne(s, paren, va).value; n <= |s| && o.rest == s[n..] && TakenFrom(o.body, s[..n])
    decreases |s|
  {
    hide TakenFrom;
    if paren == 0 && (s[0].kind == RParen || (!va && s[0].kind == Comma)) {
      n := 0;
      TakenNothing();
      assert s[..0] == [] && s[0..] == s;
    } else {
      var rest := SkipNl(s[1..]);
      var o := CollectOne(rest, Nest(s[0], paren), va).value;
      var k := CollectOneTakes(rest, Nest(s[0], paren), va);
      var m := TakenAfterNl(s[1..], k, o.body);
      n := m + 1;
      TakenCons(Settle(s[0]), s[0], o.body, s[1..][..m]);
      assert s[..n] == [s[0]] + s[1..][..m] && s[n..] == s[1..][m..];
    }
  }

  lemma {:induction false} TakenNothing()
    ensures TakenFrom([], [])
  {
  }

  // -------------------------------------------------------------------
  // Arguments that can be collected are collected.
  // -------------------------------------------------------------------

  /** A text that may be written for a parameter. */
  predicate ArgText(s: seq<Token>, param: Name) {
    Plain(s) && Depth(s, 0) == Some(0) && (param != VA_ARGS ==> NoTopComma(s, 0))
  }

  /** The tokens of a text as they lie in an argument. */
  function InArg(s: seq<Token>): seq<Token> { if s == [] then [] else [Settle(s[0])] + InArg(s[1..]) }

  /** What follows the '(' of a call with these texts, from text i on. */
  function CallText(texts: seq<seq<Token>>, i: nat, comma: Token, close: Token, rest: seq<Token>): seq<Token>
    requires i <= |texts|
    decreases |texts| - i
  {
    if i == |texts| then [close] + rest
    else (if i > 0 then [comma] else []) + (texts[i] + CallText(texts, i + 1, comma, close, rest))
  }

  /** The arguments from parameter i on. */
  function ArgsOf(params: seq<Name>, texts: seq<seq<Token>>, i: nat): seq<Arg>
    requires i <= |texts| <= |params|
    decreases |texts| - i
  {
    if i == |texts| then [] else [Arg(params[i], InArg(texts[i]), [], false)] + ArgsOf(params, texts, i + 1)
  }

  lemma {:induction false} CollectOneGives(s: seq<Token>, paren: nat, va: bool, end: seq<Token>)
    requires Plain(s) && Depth(s, paren) == Some(0) && (!va ==> NoTopComma(s, paren))
    requires end != [] && (end[0].kind == RParen || (!va && end[0].kind == Comma))
    ensures CollectOne(s + end, paren, va) == Some(One(InArg(s), end))
    decreases |s|
  {
    if s == [] {
      assert s + end == end;
    } else {
      assert (s + end)[0] == s[0] && (s + end)[1..] == s[1..] + end;
      assert SkipNl(s[1..] + end) == s[1..] + end by { assert (s[1..] + end)[0].kind != Newline; }
      CollectOneGives(s[1..], Nest(s[0], paren), va, end);
    }
  }

  lemma {:induction false} TextStart(texts: seq<seq<Token>>, i: nat, comma: Token, close: Token, rest: seq<Token>)
    requires 0 < i <= |texts| && comma.kind == Comma && close.kind == RParen
    ensures var s := CallText(texts, i, comma, close, rest); s != [] && s[0] == if i == |texts| then close else comma
  {
  }

  predicate TextsFit(params: seq<Name>, texts: seq<seq<Token>>) {
    && |texts| <= |params|
    && (forall k :: 0 <= k < |texts| ==> ArgText(texts[k], params[k]))
    && (forall k :: 0 <= k < |texts| - 1 ==> params[k] != VA_ARGS)
  }

  lemma {:induction false} CollectFromGives(params: seq<Name>, texts: seq<seq<Token>>, i: nat, comma: Token,
                                            close: Token,
                                            rest: seq<Token>, args: seq<Arg>)
    requires i <= |texts| && TextsFit(params, texts) && comma.kind == Comma && close.kind == RParen
    requires |texts| == |params| || (|texts| + 1 == |params| && params[|texts|] == VA_ARGS && texts != [])
    ensures var s := CallText(texts, i, comma, close, rest);
            var omitted := if |texts| == |params| then [] else [Arg(VA_ARGS, [], [], true)];
            OffNl(s) && CollectFrom(params, i, s, args)
                == Some(Collected(args + ArgsOf(params, texts, i) + omitted, rest))
    decreases |texts| - i
  {
    var s := CallText(texts, i, comma, close, rest);
    if i == |texts| {
      assert s[1..] == rest && args + [] == args;
      assert args + [] + [] == args;
    } else {
      var next := CallText(texts, i + 1, comma, close, rest);
      var a := Arg(params[i], InArg(texts[i]), [], false);
      TextStart(texts, i + 1, comma, close, rest);
      CollectOneGives(texts[i], 0, params[i] == VA_ARGS, next);
      CollectFromGives(params, texts, i + 1, comma, close, rest, args + [a]);
      TextBehind(texts, i, comma, close, rest);
      Assoc(args, [a], ArgsOf(params, texts, i + 1));
    }
  }

  /** Behind the comma, if there is one, the text begins, with no newline. */
  lemma {:induction false} TextBehind(texts: seq<seq<Token>>, i: nat, comma: Token, close: Token, rest: seq<Token>)
    requires i < |texts| && Plain(texts[i]) && comma.kind == Comma && close.kind == RParen
    ensures var s, t := CallText(texts, i, comma, close, rest), texts[i] + CallText(texts, i + 1, comma, close, rest);
            OffNl(s) && OffNl(t) && SkipNl(t) == t && (if i > 0 then s[0] == comma && s[1..] == t else s == t)
  {
    TextStart(texts, i + 1, comma, close, rest);
    var t := texts[i] + CallText(texts, i + 1, comma, close, rest);
    if texts[i] != [] {
      assert t[0] == texts[i][0];
    } else {
      assert t == CallText(texts, i + 1, comma, close, rest);
    }
    assert [] + t == t;
  }

  /** A call with one balanced text per parameter is collected into these
      texts; a variadic parameter takes commas too, or may be left out with the
      comma in front of it. */
  lemma {:induction false} CollectGives(params: seq<Name>, texts: seq<seq<Token>>, comma: Token, close: Token,
                                        rest: seq<Token>)
    requires TextsFit(params, texts) && comma.kind == Comma && close.kind == RParen
    requires |texts| == |params| || (|texts| + 1 == |params| && params[|texts|] == VA_ARGS && texts != [])
    ensures var omitted := if |texts| == |params| then [] else [Arg(VA_ARGS, [], [], true)];
            var c := Collect(params, CallText(texts, 0, comma, close, rest));
            c == Some(Collected(ArgsOf(params, texts, 0) + omitted, rest))
  {
    CollectFromGives(params, texts, 0, comma, close, rest, []);
    var s := CallText(texts, 0, comma, close, rest);
    assert SkipNl(s) == s;
    assert [] + ArgsOf(params, texts, 0) == ArgsOf(params, texts, 0);
  }

  /** On success there is one argument per parameter, every argument is
      balanced and non-variadic ones have no top-level comma, and joining the
      arguments with commas gives back exactly the tokens consumed, newlines
      and the comma of an omitted variadic argument aside, with their paint and
      with white space where it was or where a line began. */
  lemma {:induction false} CollectPartitions(params: seq<Name>, s: seq<Token>)
    requires Collect(params, s).Some?
    ensures var c := Collect(params, s).value;
            && GoodArgs(c.args, params)
            && Shape(s) == Rejoined(c.args) + [CLOSE] + Shape(c.rest)
  {
    CollectFromGood(params, 0, SkipNl(s), []);
    CollectFromShape(params, 0, SkipNl(s), []);
    ShapeSkipNl(s);
  }
}
