/** Tokens made from text: stringizing and pasting, with the lexer that reads
    the text again (cpp.cc: stringize and paste). */
module Spelling {
  import opened Wrappers
  import opened Seqs
  import opened LexText

  /** A token of an argument, up to what stringizing needs. */
  datatype Spelt = Spelt(kind: Kind, text: string, space: bool)

  predicate Literal(t: Spelt) { t.kind == Str || t.kind == CharConst }

  predicate NeedsEscape(c: char) { c == '"' || c == '\\' }

  /** A text with a backslash before every quote and backslash. */
  function Escaped(s: string): string {
    if s == [] then [] else (if NeedsEscape(s[0]) then ['\\', s[0]] else [s[0]]) + Escaped(s[1..])
  }

  /** Removes one backslash before every quote and backslash. */
  function Unescaped(s: string): string {
    if s == [] then []
    else if |s| > 1 && s[0] == '\\' && NeedsEscape(s[1]) then [s[1]] + Unescaped(s[2..])
    else [s[0]] + Unescaped(s[1..])
  }

  function Part(t: Spelt, first: bool): string {
    (if !first && t.space then " " else "") + (if Literal(t) then Escaped(t.text) else t.text)
  }

  function Parts(ts: seq<Spelt>, first: bool): string {
    if ts == [] then [] else Part(ts[0], first) + Parts(ts[1..], false)
  }

  /** The spellings joined by single spaces where white space separated them. */
  function Joined(ts: seq<Spelt>, first: bool): string {
    if ts == [] then [] else (if !first && ts[0].space then " " else "") + ts[0].text + Joined(ts[1..], false)
  }

  predicate Clear(s: string) { forall i :: 0 <= i < |s| ==> s[i] != '\n' }

  predicate Bare(s: string) { forall i :: 0 <= i < |s| ==> s[i] != '\n' && !NeedsEscape(s[i]) }

  /** No newline anywhere, and quotes and backslashes only in literals. */
  predicate Stringizable(ts: seq<Spelt>) {
    forall i :: 0 <= i < |ts| ==> Clear(ts[i].text) && (!Literal(ts[i]) ==> Bare(ts[i].text))
  }

  /** The inner loop of stringize, over the characters of a literal. */
  method AppendEscaped(out0: string, text: string) returns (out: string)
    ensures out == out0 + Escaped(text)
  {
    out := out0;
    var i := 0;
    while i < |text|
      invariant i <= |text| && out0 + Escaped(text) == out + Escaped(text[i..])
    {
      assert text[i..][1..] == text[i + 1..];
      ghost var prev := out;
      if text[i] == '"' || text[i] == '\\' {
        out := out + "\\";
      }
      out := out + [text[i]];
      assert out + Escaped(text[i + 1..]) == prev + Escaped(text[i..]);
      i := i + 1;
    }
    assert text[|text|..] == [];
  }

  /** The text stringize builds. */
  method Stringize(ts: seq<Spelt>) returns (out: string)
    ensures out == "\"" + Parts(ts, true) + "\""
  {
    hide Escaped;
    out := "\"";
    var first, k := true, 0;
    while k < |ts|
      invariant k <= |ts| && first == (k == 0)
      invariant "\"" + Parts(ts, true) == out + Parts(ts[k..], first)
    {
      var t := ts[k];
      ghost var before := out;
      assert ts[k..][1..] == ts[k + 1..];
      if !first && t.space {
        out := out + " ";
      }
      if Literal(t) {
        out := AppendEscaped(out, t.text);
      } else {
        out := out + t.text;
      }
      assert out == before + Part(t, first);
      Assoc(before, Part(t, first), Parts(ts[k + 1..], false));
      first := false;
      k := k + 1;
    }
    assert ts[|ts|..] == [];
    out := out + "\"";
  }

  // -------------------------------------------------------------------
  // The round trip.
  // -------------------------------------------------------------------

  /** What is written for one character: the character, or a backslash and it. */
  datatype Cell = Cell(escaped: bool, c: char)

  const BACKSLASH := Cell(false, '\\')

  function Written(cs: seq<Cell>): string {
    if cs == [] then [] else (if cs[0].escaped then ['\\', cs[0].c] else [cs[0].c]) + Written(cs[1..])
  }

  function Chars(cs: seq<Cell>): string {
    if cs == [] then [] else [cs[0].c] + Chars(cs[1..])
  }

  /** Cells as stringizing writes them: quotes always escaped, and behind a
      backslash that is not escaped nothing escaped but a quote. */
  predicate Proper(cs: seq<Cell>) {
    cs == [] || (
      && (if cs[0].escaped then NeedsEscape(cs[0].c) else cs[0].c != '"' && cs[0].c != '\n')
      && (cs[0] == BACKSLASH && |cs| > 1 && cs[1].escaped ==> cs[1].c == '"')
      && Proper(cs[1..]))
  }

  /** Behind every backslash that is not escaped comes a character that is
      not, and is no backslash. */
  predicate Guarded(cs: seq<Cell>) {
    cs == [] || (Guarded(cs[1..]) && (cs[0] == BACKSLASH ==> |cs| > 1 && !cs[1].escaped && cs[1] != BACKSLASH))
  }

  /** The text comes back: the quote behind it closes the string, and without
      the added backslashes it is what was to be written. */
  predicate ComesBack(body: string, chars: string, rest: string) {
    QuoteLen(body + "\"" + rest, '"') == Some(|body| + 1) && Unescaped(body) == chars
  }

  lemma {:induction false} CharsLength(cs: seq<Cell>)
    ensures |Chars(cs)| == |cs|
  {
    if cs != [] {
      CharsLength(cs[1..]);
    }
  }

  /** The cells left when two characters are taken and the first cell has one. */
  function Behind(cs: seq<Cell>): seq<Cell>
    requires |cs| > 1
  {
    if cs[1].escaped then [Cell(false, cs[1].c)] + cs[2..] else cs[2..]
  }

  lemma {:induction false} WrittenCons(a: Cell, cs: seq<Cell>)
    ensures Written([a] + cs) == (if a.escaped then ['\\', a.c] else [a.c]) + Written(cs)
  {
    assert ([a] + cs)[1..] == cs;
  }

  lemma {:induction false} WrittenBehind(cs: seq<Cell>)
    requires |cs| > 1 && !cs[0].escaped
    ensures Written(cs) == [cs[0].c, if cs[1].escaped then '\\' else cs[1].c] + Written(Behind(cs))
  {
    hide Written;
    var more := cs[2..];
    assert cs[1..] == [cs[1]] + more && cs == [cs[0]] + cs[1..];
    WrittenCons(cs[0], cs[1..]);
    WrittenCons(cs[1], more);
    WrittenCons(Cell(false, cs[1].c), more);
  }

  /** Removing backslashes never leaves more characters than there are cells,
      even when it takes the wrong ones. */
  lemma {:induction false} UnescapedLength(cs: seq<Cell>)
    requires forall i :: 0 <= i < |cs| && cs[i].escaped ==> NeedsEscape(cs[i].c)
    ensures |Unescaped(Written(cs))| <= |cs|
    decreases |Written(cs)|
  {
    if cs != [] {
      var s := Written(cs);
      if cs[0].escaped {
        assert s[2..] == Written(cs[1..]);
        UnescapedLength(cs[1..]);
      } else {
        assert s[1..] == Written(cs[1..]);
        UnescapedLength(cs[1..]);
        if |s| > 1 && s[0] == '\\' && NeedsEscape(s[1]) {
          WrittenBehind(cs);
          assert s[2..] == Written(Behind(cs));
          UnescapedLength(Behind(cs));
        }
      }
    }
  }

  /** Reading k characters on, where neither scan ends. */
  predicate Passes(body: string, k: nat, rest: string) {
    && 0 < k <= |body|
    && (var t := body + "\"" + rest;
        QuoteLen(t, '"') == match QuoteLen(t[k..], '"') case None => None case Some(n) => Some(k + n))
    && Unescaped(body) == [body[k - 1]] + Unescaped(body[k..])
  }

  lemma {:induction false} PassedOn(body: string, k: nat, chars: string, rest: string)
    requires Passes(body, k, rest) && chars != [] && chars[0] == body[k - 1]
    ensures ComesBack(body, chars, rest) <==> ComesBack(body[k..], chars[1..], rest)
  {
    hide Unescaped, QuoteLen;
    assert (body + "\"" + rest)[k..] == body[k..] + "\"" + rest;
    assert chars == [chars[0]] + chars[1..];
    var u, v := Unescaped(body), Unescaped(body[k..]);
    assert u[1..] == v && u[0] == chars[0];
  }

  /** A first cell other than a backslash by itself is passed whole. */
  lemma {:induction false} CellPassed(cs: seq<Cell>, rest: string)
    requires cs != [] && Proper(cs) && cs[0] != BACKSLASH
    ensures ComesBack(Written(cs), Chars(cs), rest) <==> ComesBack(Written(cs[1..]), Chars(cs[1..]), rest)
  {
    hide ComesBack;
    var body, k := Written(cs), if cs[0].escaped then 2 else 1;
    var t := body + "\"" + rest;
    assert body[k..] == Written(cs[1..]);
    assert t[0] == body[0] && (cs[0].escaped ==> t[1] == body[1]);
    assert Passes(body, k, rest);
    PassedOn(body, k, Chars(cs), rest);
    assert Chars(cs)[1..] == Chars(cs[1..]);
  }

  /** So is a backslash by itself before a character that is not escaped and
      no backslash. */
  lemma {:induction false} BackslashPassed(cs: seq<Cell>, rest: string)
    requires |cs| > 1 && Proper(cs) && cs[0] == BACKSLASH && !cs[1].escaped && cs[1] != BACKSLASH
    ensures ComesBack(Written(cs), Chars(cs), rest) <==> ComesBack(Written(cs[1..]), Chars(cs[1..]), rest)
  {
    hide ComesBack;
    var body := Written(cs);
    var t := body + "\"" + rest;
    assert body[1..] == Written(cs[1..]) && body[1] == cs[1].c != '\\';
    assert cs[1].c != '"' && cs[1].c != '\n';
    assert t[0] == body[0] == '\\' && t[1] == body[1] && t[1..][1..] == t[2..];
    QuoteBehind(t);
    assert Unescaped(body) == ['\\'] + Unescaped(body[1..]);
    assert Passes(body, 1, rest);
    PassedOn(body, 1, Chars(cs), rest);
    assert Chars(cs)[1..] == Chars(cs[1..]);
  }

  /** A backslash before a character that could not be escaped or end the
      string may be read by itself. */
  lemma {:induction false} QuoteBehind(t: string)
    requires |t| > 1 && t[0] == '\\' && t[1] != '"' && t[1] != '\\' && t[1] != '\n'
    ensures QuoteLen(t, '"') == match QuoteLen(t[1..], '"') case None => None case Some(n) => Some(1 + n)
  {
    assert t[1..][1..] == t[2..];
  }

  /** Any other backslash spoils the text: it escapes the closing quote, or
      makes an escaped quote close the string, or is taken for an escape. */
  lemma {:induction false} BackslashSpoils(cs: seq<Cell>, rest: string)
    requires cs != [] && Proper(cs) && cs[0] == BACKSLASH
    requires |cs| == 1 || cs[1].escaped || cs[1] == BACKSLASH
    ensures !ComesBack(Written(cs), Chars(cs), rest)
  {
    var body := Written(cs);
    var t := body + "\"" + rest;
    if |cs| == 1 {
      assert t[0] == '\\' && t[1] == '"' && |body| == 1;
      EscapeTaken(t);
    } else if cs[1].escaped {
      assert body[1..] == Written(cs[1..]);
      assert t[0] == '\\' && t[1] == '\\' && t[2..][0] == t[2] == body[2] == '"';
      assert QuoteLen(t[2..], '"') == Some(1);
      EscapeTaken(t);
    } else {
      SecondTaken(cs);
    }
  }

  lemma {:induction false} EscapeTaken(t: string)
    requires |t| > 1 && t[0] == '\\' && (t[1] == '"' || t[1] == '\\')
    ensures QuoteLen(t, '"') == match QuoteLen(t[2..], '"') case None => None case Some(n) => Some(2 + n)
  {
  }

  lemma {:induction false} SecondTaken(cs: seq<Cell>)
    requires |cs| > 1 && Proper(cs) && cs[0] == cs[1] == BACKSLASH
    ensures Unescaped(Written(cs)) != Chars(cs)
  {
    var body := Written(cs);
    assert cs[1..][0] == cs[1] && cs[1..][1..] == cs[2..];
    assert Written(cs[1..]) == ['\\'] + Written(cs[2..]);
    assert body == ['\\'] + Written(cs[1..]);
    assert body[2..] == Written(cs[2..]);
    assert Unescaped(body) == ['\\'] + Unescaped(body[2..]);
    ProperEscapes(cs);
    UnescapedLength(cs[2..]);
    CharsLength(cs);
  }

  lemma {:induction false} ProperEscapes(cs: seq<Cell>)
    requires Proper(cs)
    ensures forall i :: 0 <= i < |cs| && cs[i].escaped ==> NeedsEscape(cs[i].c)
  {
    if cs != [] {
      ProperEscapes(cs[1..]);
      forall i | 0 <= i < |cs| && cs[i].escaped ensures NeedsEscape(cs[i].c) {
        assert i > 0 ==> cs[i] == cs[1..][i - 1];
      }
    }
  }

  lemma {:induction false} ComesBackIff(cs: seq<Cell>, rest: string)
    requires Proper(cs)
    ensures ComesBack(Written(cs), Chars(cs), rest) <==> Guarded(cs)
  {
    if cs == [] {
      assert (Written(cs) + "\"" + rest)[0] == '"';
    } else {
      ComesBackIff(cs[1..], rest);
      if cs[0] != BACKSLASH {
        CellPassed(cs, rest);
      } else if |cs| > 1 && !cs[1].escaped && cs[1] != BACKSLASH {
        BackslashPassed(cs, rest);
      } else {
        BackslashSpoils(cs, rest);
      }
    }
  }

  // The cells of an argument.

  function TextCells(s: string, literal: bool): seq<Cell> {
    if s == [] then [] else [Cell(literal && NeedsEscape(s[0]), s[0])] + TextCells(s[1..], literal)
  }

  function GapCells(t: Spelt, first: bool): seq<Cell> { if !first && t.space then [Cell(false, ' ')] else [] }

  function Cells(ts: seq<Spelt>, first: bool): seq<Cell> {
    if ts == [] then []
    else GapCells(ts[0], first) + (TextCells(ts[0].text, Literal(ts[0])) + Cells(ts[1..], false))
  }

  lemma {:induction false} CellsConcat(a: seq<Cell>, b: seq<Cell>)
    ensures Written(a + b) == Written(a) + Written(b) && Chars(a + b) == Chars(a) + Chars(b)
  {
    if a == [] {
      assert a + b == b;
    } else {
      CellsConcat(a[1..], b);
      assert (a + b)[1..] == a[1..] + b;
      Assoc(if a[0].escaped then ['\\', a[0].c] else [a[0].c], Written(a[1..]), Written(b));
      Assoc([a[0].c], Chars(a[1..]), Chars(b));
    }
  }

  lemma {:induction false} TextWritten(s: string, literal: bool)
    ensures Written(TextCells(s, literal)) == (if literal then Escaped(s) else s)
    ensures Chars(TextCells(s, literal)) == s
  {
    if s != [] {
      TextWritten(s[1..], literal);
      assert TextCells(s, literal)[1..] == TextCells(s[1..], literal);
    }
  }

  lemma {:induction false} GapWritten(t: Spelt, first: bool)
    ensures var gap, sp := GapCells(t, first), if !first && t.space then " " else "";
            Written(gap) == sp && Chars(gap) == sp
  {
    if !first && t.space {
      assert GapCells(t, first)[1..] == [];
    }
  }

  lemma {:induction false} CellsWritten(ts: seq<Spelt>, first: bool)
    ensures Written(Cells(ts, first)) == Parts(ts, first) && Chars(Cells(ts, first)) == Joined(ts, first)
  {
    hide TextCells, GapCells, Escaped;
    if ts != [] {
      var gap, text, more := GapCells(ts[0], first), TextCells(ts[0].text, Literal(ts[0])), Cells(ts[1..], false);
      CellsWritten(ts[1..], false);
      TextWritten(ts[0].text, Literal(ts[0]));
      CellsConcat(text, more);
      CellsConcat(gap, text + more);
      GapWritten(ts[0], first);
      Assoc(if !first && ts[0].space then " " else "", ts[0].text, Joined(ts[1..], false));
      Assoc(Written(gap), Written(text), Written(more));
    }
  }

  /** Cells none of which is a backslash by itself come and go in front. */
  lemma {:induction false} NoBackslash(a: seq<Cell>, b: seq<Cell>)
    requires Proper(a) && BACKSLASH !in a
    ensures (Proper(a + b) <==> Proper(b)) && (Guarded(a + b) <==> Guarded(b))
  {
    if a == [] {
      assert a + b == b;
    } else {
      NoBackslash(a[1..], b);
      assert (a + b)[1..] == a[1..] + b;
    }
  }

  lemma {:induction false} TextProper(s: string, literal: bool)
    requires Clear(s) && (!literal ==> Bare(s))
    ensures Proper(TextCells(s, literal)) && BACKSLASH !in TextCells(s, literal)
  {
    if s != [] {
      TextProper(s[1..], literal);
      assert TextCells(s, literal)[1..] == TextCells(s[1..], literal);
    }
  }

  /** The text stringize builds is read back as one string that ends at its last
      quote, and without the added backslashes it is the argument's spelling. */
  predicate RoundTrip(ts: seq<Spelt>, space: bool, rest: string) {
    var body := Parts(ts, true);
    && Scan("\"" + body + "\"" + rest, space) == Lexeme(Str, "\"" + body + "\"", space, rest)
    && Unescaped(body) == Joined(ts, true)
  }

  lemma {:induction false} QuoteScanned(body: string, space: bool, rest: string)
    ensures Scan("\"" + body + "\"" + rest, space) == Lexeme(Str, "\"" + body + "\"", space, rest)
       <==> QuoteLen(body + "\"" + rest, '"') == Some(|body| + 1)
  {
    var t := "\"" + body + "\"" + rest;
    assert t[1..] == body + "\"" + rest;
    assert t[..|body| + 2] == "\"" + body + "\"";
    assert t[|body| + 2..] == rest;
  }

  lemma {:induction false} StringizableGuarded(ts: seq<Spelt>, first: bool)
    requires Stringizable(ts)
    ensures Proper(Cells(ts, first)) && Guarded(Cells(ts, first))
  {
    if ts != [] {
      var gap, text, more := GapCells(ts[0], first), TextCells(ts[0].text, Literal(ts[0])), Cells(ts[1..], false);
      StringizableGuarded(ts[1..], false);
      TextProper(ts[0].text, Literal(ts[0]));
      NoBackslash(text, more);
      NoBackslash(gap, text + more);
    }
  }

  /** A stringized argument without backslashes outside its literals is read
      back as one string that ends at its last quote, and without the added
      backslashes it is the argument's spelling, with one space for white space
      between tokens (section 6.10.3.2). */
  lemma {:induction false} StringizeRoundTrip(ts: seq<Spelt>, space: bool, rest: string)
    requires Stringizable(ts)
    ensures RoundTrip(ts, space, rest)
  {
    hide Scan, QuoteLen, Unescaped, Written;
    StringizableGuarded(ts, true);
    CellsWritten(ts, true);
    ComesBackIff(Cells(ts, true), rest);
    QuoteScanned(Parts(ts, true), space, rest);
  }

  /** The one token with a backslash that is no literal. */
  predicate Lone(t: Spelt) { !Literal(t) && t.text == "\\" }

  /** Spellings of tokens: no newline, literals begin with their quote, and
      elsewhere a quote or backslash is a token of its own. */
  predicate Spellings(ts: seq<Spelt>) {
    forall i :: 0 <= i < |ts| ==> IsSpelling(ts[i])
  }

  predicate IsSpelling(t: Spelt) {
    && t.text != [] && Clear(t.text)
    && (t.kind == Str ==> t.text[0] == '"') && (t.kind == CharConst ==> t.text[0] == '\'')
    && (!Literal(t) ==> Bare(t.text) || Lone(t))
  }

  /** Behind every lone backslash comes white space, or a token that is neither
      a string nor another one. */
  predicate BackslashesFollowed(ts: seq<Spelt>) {
    ts == [] || (
      && BackslashesFollowed(ts[1..])
      && (Lone(ts[0]) ==> |ts| > 1 && (ts[1].space || (ts[1].kind != Str && !Lone(ts[1])))))
  }

  /** Every token the lexer takes has such a spelling. */
  lemma {:induction false} LexemeSpelling(t: string, space: bool)
    requires var r := Scan(t, space); r.Lexeme? && r.kind != End && r.kind != Newline
    ensures var r := Scan(t, space); IsSpelling(Spelt(r.kind, r.text, r.space))
    decreases |t|
  {
    hide IsSpelling, PunctOf, PunctLen;
    if t[0] == '/' && |t| > 1 && t[1] == '/' {
      LexemeSpelling(AfterLine(t[2..]).value, true);
    } else if t[0] == '/' && |t| > 1 && t[1] == '*' {
      LexemeSpelling(AfterBlock(t[2..], false).value, true);
    } else if IsSpace(t[0]) {
      LexemeSpelling(t[1..], true);
    } else if IsAlpha(t[0]) || t[0] == '_' {
      WordBare(t);
      BareSpelling(Ident, t[..WordLen(t)], space);
    } else if IsDigit(t[0]) || (t[0] == '.' && |t| > 1 && IsDigit(t[1])) {
      NumberBare(t);
      BareSpelling(Number, t[..NumberLen(t)], space);
    } else if t[0] == '"' || t[0] == '\'' {
      QuoteSpelling(t, space);
    } else {
      PunctBare(t);
      BareSpelling(Punctuator(PunctOf(t[..PunctLen(t)]).value), t[..PunctLen(t)], space);
    }
  }

  lemma {:induction false} BareSpelling(kind: Kind, text: string, space: bool)
    requires text != [] && (Bare(text) || text == "\\") && kind != Str && kind != CharConst
    ensures IsSpelling(Spelt(kind, text, space))
  {
  }

  lemma {:induction false} QuoteSpelling(t: string, space: bool)
    requires t != [] && (t[0] == '"' || t[0] == '\'') && QuoteLen(t[1..], t[0]).Some?
    ensures var text := t[..1 + QuoteLen(t[1..], t[0]).value];
            IsSpelling(Spelt(if t[0] == '"' then Str else CharConst, text, space))
  {
    QuoteClear(t[1..], t[0]);
    var n := QuoteLen(t[1..], t[0]).value;
    assert t[..1 + n] == [t[0]] + t[1..][..n];
  }

  lemma {:induction false} PunctBare(t: string)
    requires t != [] && IsPunct(t[0]) && t[0] != '"'
    ensures var n := PunctLen(t); Bare(t[..n]) || t[..n] == "\\"
  {
    assert t[..1] == [t[0]];
  }

  lemma {:induction false} WordBare(t: string)
    ensures Bare(t[..WordLen(t)])
  {
    if t != [] && IsWord(t[0]) {
      WordBare(t[1..]);
      assert t[..WordLen(t)] == [t[0]] + t[1..][..WordLen(t[1..])];
    }
  }

  lemma {:induction false} NumberBare(t: string)
    ensures Bare(t[..NumberLen(t)])
  {
    if t == [] {
    } else if IsExponent(t[0]) && |t| > 1 && IsSign(t[1]) {
      NumberBare(t[2..]);
      assert t[..NumberLen(t)] == t[..2] + t[2..][..NumberLen(t[2..])];
    } else if t[0] == '.' || IsWord(t[0]) {
      NumberBare(t[1..]);
      assert t[..NumberLen(t)] == [t[0]] + t[1..][..NumberLen(t[1..])];
    }
  }

  lemma {:induction false} QuoteClear(t: string, q: char)
    requires QuoteLen(t, q).Some? && q != '\n'
    ensures Clear(t[..QuoteLen(t, q).value])
  {
    if t[0] != q {
      var k := if t[0] == '\\' && |t| > 1 && t[1] in {'"', '\\', '\''} then 2 else 1;
      QuoteClear(t[k..], q);
      assert t[..QuoteLen(t, q).value] == t[..k] + t[k..][..QuoteLen(t[k..], q).value];
    }
  }

  lemma {:induction false} SpellingsGuarded(ts: seq<Spelt>, first: bool)
    requires Spellings(ts)
    ensures Proper(Cells(ts, first)) && (Guarded(Cells(ts, first)) <==> BackslashesFollowed(ts))
  {
    if ts != [] {
      var t := ts[0];
      var gap, text, more := GapCells(t, first), TextCells(t.text, Literal(t)), Cells(ts[1..], false);
      SpellingsGuarded(ts[1..], false);
      if Lone(t) {
        assert t.text[1..] == [] && TextCells(t.text[1..], false) == [];
        assert text == [BACKSLASH];
        assert ([BACKSLASH] + more)[1..] == more;
        if |ts| > 1 {
          FirstCell(ts[1..]);
        }
      } else {
        TextProper(t.text, Literal(t));
        NoBackslash(text, more);
      }
      NoBackslash(gap, text + more);
    }
  }

  /** The first cell behind a token. */
  lemma {:induction false} FirstCell(ts: seq<Spelt>)
    requires ts != [] && Spellings(ts)
    ensures var cs, t := Cells(ts, false), ts[0];
            cs != [] && cs[0] == if t.space then Cell(false, ' ')
                else Cell(Literal(t) && NeedsEscape(t.text[0]), t.text[0])
    ensures !ts[0].space ==> (Cells(ts, false)[0] == BACKSLASH <==> Lone(ts[0]))
    ensures !ts[0].space ==> (Cells(ts, false)[0].escaped <==> ts[0].kind == Str)
  {
    assert IsSpelling(ts[0]);
  }

  /** For every argument the lexer can give, stringizing round-trips exactly
      when every backslash that is a token of its own is followed by white space
      or by a token that is neither a string nor another such backslash. */
  lemma {:induction false} StringizeRoundTripIff(ts: seq<Spelt>, space: bool, rest: string)
    requires Spellings(ts)
    ensures RoundTrip(ts, space, rest) <==> BackslashesFollowed(ts)
  {
    hide Scan, QuoteLen, Unescaped, Written;
    SpellingsGuarded(ts, true);
    CellsWritten(ts, true);
    ComesBackIff(Cells(ts, true), rest);
    QuoteScanned(Parts(ts, true), space, rest);
  }

  /** So it fails for the argument \ alone, which gives a text that is no
      complete string. */
  lemma {:induction false} LoneBackslash(space: bool)
    ensures var ts := [Spelt(Punctuator(One('\\')), "\\", false)];
            Spellings(ts) && Scan("\"" + Parts(ts, true) + "\"", space) == Unterminated
  {
    var ts := [Spelt(Punctuator(One('\\')), "\\", false)];
    assert ts[1..] == [];
    assert Parts(ts, true) == "\\";
    var t := "\"\\\"";
    assert "\"" + Parts(ts, true) + "\"" == t;
    assert t[1..] == "\\\"" && t[1..][2..] == [];
  }

  // -------------------------------------------------------------------
  // Pasting.
  // -------------------------------------------------------------------

  /** The one token the glued text consists of, if it is one token. */
  function Glued(lhs: string, rhs: string): Option<Kind> {
    match Scan(lhs + rhs, false)
    case Lexeme(kind, _, _, rest) =>
      (match Scan(rest, false)
       case Lexeme(end, _, _, _) => if kind != End && end == End then Some(kind) else None
       case _ => None)
    case _ => None
  }

  /** s is the whole spelling of one token. */
  predicate WholeToken(s: string) {
    var r := Scan(s, false);
    s != [] && r.Lexeme? && r.kind != End && r.kind != Newline && r.text == s && r.rest == []
  }

  lemma {:induction false} WordLenParen(t: string, p: char)
    requires p == '(' || p == ')'
    ensures WordLen(t + [p]) == WordLen(t)
  {
    if t != [] && IsWord(t[0]) {
      WordLenParen(t[1..], p);
      assert (t + [p])[1..] == t[1..] + [p];
    }
  }

  lemma {:induction false} NumberLenParen(t: string, p: char)
    requires p == '(' || p == ')'
    ensures NumberLen(t + [p]) == NumberLen(t)
  {
    if t != [] {
      assert (t + [p])[1..] == t[1..] + [p];
      NumberLenParen(t[1..], p);
      if |t| > 1 {
        assert (t + [p])[2..] == t[2..] + [p];
        NumberLenParen(t[2..], p);
      }
    } else {
      assert t + [p] == [p];
    }
  }

  lemma {:induction false} QuoteLenParen(t: string, q: char, p: char)
    requires (p == '(' || p == ')') && QuoteLen(t, q).Some?
    ensures QuoteLen(t + [p], q) == QuoteLen(t, q)
  {
    if t[0] != q {
      assert (t + [p])[1..] == t[1..] + [p];
      if |t| > 1 && t[0] == '\\' && t[1] in {'"', '\\', '\''} {
        assert (t + [p])[2..] == t[2..] + [p];
        QuoteLenParen(t[2..], q, p);
      } else {
        QuoteLenParen(t[1..], q, p);
      }
    }
  }

  lemma {:induction false} ScanShort(t: string, space: bool)
    ensures var r := Scan(t, space); r.Lexeme? ==> |r.text| <= |t|
    decreases |t|
  {
    if t != [] {
      if t[0] == '/' && |t| > 1 && t[1] == '/' {
        if AfterLine(t[2..]).Some? {
          ScanShort(AfterLine(t[2..]).value, true);
        }
      } else if t[0] == '/' && |t| > 1 && t[1] == '*' {
        if AfterBlock(t[2..], false).Some? {
          ScanShort(AfterBlock(t[2..], false).value, true);
        }
      } else if t[0] != '\n' && IsSpace(t[0]) {
        ScanShort(t[1..], true);
      }
    }
  }

  /** A token followed by a parenthesis ends where it ended. */
  lemma {:induction false} ScanParen(t: string, p: char)
    requires WholeToken(t) && (p == '(' || p == ')')
    ensures var r := Scan(t + [p], false); r.Lexeme? && r.kind != End && r.rest == [p]
  {
    var u := t + [p];
    assert u[0] == t[0] && u[1..] == t[1..] + [p];
    WordLenParen(t, p);
    NumberLenParen(t, p);
    WholeStart(t);
    if t[0] == '"' || t[0] == '\'' {
      QuoteLenParen(t[1..], t[0], p);
    } else if IsPunct(t[0]) && t[0] != '_' && !(t[0] == '.' && |t| > 1 && IsDigit(t[1])) {
      assert Scan(t, false).text == t[..PunctLen(t)];
      PunctParen(t, p);
      assert u[..|t|] == t;
    }
    assert u[|t|..] == [p];
  }

  /** The spelling of a token begins neither white space nor a comment. */
  lemma {:induction false} WholeStart(t: string)
    requires WholeToken(t)
    ensures t[0] != '\n' && !IsSpace(t[0])
    ensures !(t[0] == '/' && |t| > 1 && (t[1] == '/' || t[1] == '*'))
  {
    if t[0] == '/' && |t| > 1 && t[1] == '/' {
      ScanShort(AfterLine(t[2..]).value, true);
    } else if t[0] == '/' && |t| > 1 && t[1] == '*' {
      ScanShort(AfterBlock(t[2..], false).value, true);
    } else if IsSpace(t[0]) {
      ScanShort(t[1..], true);
    }
  }

  lemma {:induction false} PunctParen(t: string, p: char)
    requires t != [] && PunctLen(t) == |t| && (p == '(' || p == ')')
    ensures PunctLen(t + [p]) == |t|
  {
  }

  /** A text that starts with a parenthesis starts with that token alone. */
  lemma {:induction false} ParenFirst(t: string, p: char)
    requires p == '(' || p == ')'
    ensures Scan([p] + t, false) == Lexeme(Punctuator(One(p)), [p], false, t)
  {
    var u := [p] + t;
    assert u[..1] == [p] && u[1..] == t;
    assert PunctLen(u) == 1;
  }

  lemma {:induction false} ParenGlue(t: string, p: char)
    requires WholeToken(t) && (p == '(' || p == ')')
    ensures Glued(t, [p]) == None && Glued([p], t) == None
  {
    hide Scan;
    ScanParen(t, p);
    ParenFirst(t, p);
    ParenFirst([], p);
    assert [p] + [] == [p];
  }

  /** A parenthesis glued to a token, on either side, is never one token. */
  lemma {:induction false} ParenNeverGlues(t: string)
    requires WholeToken(t)
    ensures forall p | p == '(' || p == ')' :: Glued(t, [p]) == None && Glued([p], t) == None
  {
    hide Glued, WholeToken;
    ParenGlue(t, '(');
    ParenGlue(t, ')');
  }
}
