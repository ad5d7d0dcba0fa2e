/** The lexer: it runs on the raw buffer and skips line continuations wherever
    it looks at a character, inside tokens as well. */
module Lexer {
  import opened Wrappers
  import opened LexText
  import opened Splices

  /** A token of the buffer.  An identifier carries its spelling, any other
      token its place; esc tells that continuations may lie inside it. */
  datatype Token = Token(kind: Kind, start: nat, len: nat, esc: bool, ref: string, space: bool)

  /** text is what t spells once the continuations inside it are deleted. */
  ghost predicate Spells(buf: string, t: Token, text: string) {
    if t.kind == Ident then t.ref == text
    else
      && t.start + t.len <= |buf|
      && Reach(buf, t.start, t.start + t.len)
      && Piece(buf, t.start, t.start + t.len) == text
      && (!t.esc ==> buf[t.start..t.start + t.len] == text)
  }

  lemma {:induction false} SpellsNothing(buf: string)
    ensures Reach(buf, 0, 0) && Piece(buf, 0, 0) == []
  {
  }

  function Plus(k: nat, r: Option<nat>): Option<nat> {
    match r
    case None => None
    case Some(n) => Some(k + n)
  }

  /** The letters of the one-character escape sequences (section 6.4.4.4). */
  predicate IsSimpleEscape(c: char) {
    c == '"' || c == '\\' || c == '\'' || c == '?' || c == 'a' || c == 'b' || c == 'f' || c == 'n' || c == 'r'
    || c == 't' || c == 'v'
  }

  lemma {:induction false} QuoteStep(t: string, q: char)
    requires t != [] && t[0] != q && t[0] != '\n'
    requires t[0] != '\\'
    ensures QuoteLen(t, q) == Plus(1, QuoteLen(t[1..], q))
  {
  }

  predicate IsQuoting(c: char) { c == '"' || c == '\\' || c == '\'' }

  lemma {:induction false} EscapeSteps(t: string, q: char)
    requires |t| > 1 && t[0] == '\\' && q != '\\'
    ensures QuoteLen(t, q) == if IsQuoting(t[1]) then Plus(2, QuoteLen(t[1..][1..], q))
            else Plus(1, QuoteLen(t[1..], q))
  {
    assert t[1..][1..] == t[2..];
  }

  lemma {:induction false} ShortPunct(t: string)
    requires t != [] && IsPunct(t[0]) && (|t| > 1 ==> !IsPunct(t[1]))
    ensures PunctLen(t) == 1 && PunctOf(t[..1]) == Some(One(t[0]))
  {
  }

  /** Two characters that begin no longer punctuator. */
  lemma {:induction false} TwoPunct(t: string, k: Punct)
    requires |t| >= 2 && Punct2(t[0], t[1]) == Some(k)
    requires !(t[0] == '%' && t[1] == ':') && !(t[0] == t[1] && (t[0] == '<' || t[0] == '>'))
    ensures PunctLen(t) == 2 && PunctOf(t[..2]) == Some(k)
  {
  }

  lemma {:induction false} ShiftPunct(t: string, c: char)
    requires |t| >= 2 && t[0] == t[1] == c && (c == '<' || c == '>')
    ensures if |t| > 2 && t[2] == '=' then PunctLen(t) == 3
            && PunctOf(t[..3]) == Some(if c == '<' then AsgLshift else AsgRshift)
            else PunctLen(t) == 2 && PunctOf(t[..2]) == Some(if c == '<' then Lshift else Rshift)
  {
  }

  lemma {:induction false} DotsPunct(t: string)
    requires |t| >= 2 && t[0] == t[1] == '.'
    ensures if |t| > 2 && t[2] == '.' then PunctLen(t) == 3 && PunctOf(t[..3]) == Some(Elipsis)
            else PunctLen(t) == 1 && PunctOf(t[..1]) == Some(One('.'))
  {
  }

  lemma {:induction false} PercentPunct(t: string)
    requires |t| >= 2 && t[0] == '%' && t[1] == ':'
    ensures if |t| > 3 && t[2] == '%' && t[3] == ':' then PunctLen(t) == 4 && PunctOf(t[..4]) == Some(Paste)
            else PunctLen(t) == 2 && PunctOf(t[..2]) == Some(One('#'))
  {
  }

  lemma {:induction false} OnePunct(t: string)
    requires t != [] && IsPunct(t[0]) && (|t| >= 2 ==> Punct2(t[0], t[1]).None? && !(t[0] == '.' && t[1] == '.'))
    ensures PunctLen(t) == 1 && PunctOf(t[..1]) == Some(One(t[0]))
  {
  }

  lemma {:induction false} ScanDot(t: string, space: bool)
    requires t != [] && t[0] == '.'
    ensures if |t| > 1 && IsDigit(t[1]) then LexText.Scan(t, space) == Taken(Number, t, NumberLen(t), space)
            && NumberLen(t) > 0
            else PunctOf(t[..PunctLen(t)]).Some? ==>
                   LexText.Scan(t, space) == Taken(Punctuator(PunctOf(t[..PunctLen(t)]).value), t, PunctLen(t), space)
  {
  }

  /** What the first character decides, where no comment and no white space begins. */
  lemma {:induction false} ScanFirst(t: string, space: bool)
    requires t != [] && (t[0] == '\n' || !IsSpace(t[0])) && t[0] != '.'
    requires t[0] == '/' && |t| > 1 ==> t[1] != '/' && t[1] != '*'
    ensures t[0] == '\n' ==> LexText.Scan(t, space) == Lexeme(Newline, [], space, t[1..])
    ensures IsAlpha(t[0]) || t[0] == '_' ==> LexText.Scan(t, space) == Taken(Ident, t, WordLen(t), space)
    ensures IsDigit(t[0]) ==> LexText.Scan(t, space) == Taken(Number, t, NumberLen(t), space) && NumberLen(t) > 0
    ensures t[0] == '"' || t[0] == '\'' ==>
              LexText.Scan(t, space) ==
              match QuoteLen(t[1..], t[0])
              case None => Unterminated
              case Some(n) => Taken(if t[0] == '"' then Str else CharConst, t, 1 + n, space)
    ensures IsPunct(t[0]) && t[0] !in {'_', '"', '\''} && PunctOf(t[..PunctLen(t)]).Some? ==>
              LexText.Scan(t, space) == Taken(Punctuator(PunctOf(t[..PunctLen(t)]).value), t, PunctLen(t), space)
    ensures !(t[0] == '\n' || IsAlpha(t[0]) || t[0] == '_' || IsDigit(t[0]) || t[0] == '"' || t[0] == '\''
              || IsPunct(t[0])) ==>
              LexText.Scan(t, space) == UnknownChar
  {
  }

  lemma {:induction false} Behind(t: string, c: char, u: string)
    requires t == [c] + u
    ensures t[0] == c && |t| == 1 + |u| && (u != [] ==> t[1] == u[0])
  {
  }

  lemma {:induction false} Cut(a: string, b: string)
    ensures (a + b)[..|a|] == a && (a + b)[|a|..] == b
  {
  }

  class Stream {
    const buf: string
    var p: nat
    var lexbuf: string

    constructor (buf: string)
      requires WellFormed(buf)
      ensures Ready() && p == 0 && this.buf == buf
    {
      this.buf := buf;
      p, lexbuf := 0, [];
    }

    predicate Ready()
      reads this
    {
      WellFormed(buf) && p <= |buf| && lexbuf == []
    }

    /** The character at the current place; NUL at the end of the buffer. */
    function Ch(): (c: char)
      reads this
      ensures WellFormed(buf) ==> (c == '\0' <==> p >= |buf|)
    {
      if p < |buf| then buf[p] else '\0'
    }

    /** The text from the current place on, without its continuations. */
    ghost function Text(): string
      reads this
    {
      Spliced(buf, p)
    }

    /** A token began at start, and esc has been kept up since. */
    ghost predicate At(start: nat, esc: bool)
      reads this
    {
      && Reach(buf, start, p) && start <= p <= |buf|
      && Spliced(buf, start) == Piece(buf, start, p) + Text()
      && (!esc ==> Piece(buf, start, p) == buf[start..p])
    }

    /** How much of the text has been read since start. */
    ghost function Count(start: nat): nat
      reads this
    {
      |Piece(buf, start, p)|
    }

    /** The token read since start spells what the text had there. */
    lemma {:induction false} AtSpells(tk: Token)
      requires tk.kind != Ident && tk.len == p - tk.start && p >= tk.start && At(tk.start, tk.esc)
      ensures var t := Spliced(buf, tk.start);
              && Count(tk.start) <= |t|
              && Spells(buf, tk, t[..Count(tk.start)]) && Text() == t[Count(tk.start)..]
    {
      Cut(Piece(buf, tk.start, p), Text());
    }

    /** skip_line_continuation. */
    method Skip(ghost start: nat, esc0: bool) returns (esc: bool)
      requires WellFormed(buf) && At(start, esc0)
      modifies this`p
      ensures At(start, esc) && p >= old(p) && SpliceAt(buf, p) == 0
      ensures Text() == old(Text()) && Piece(buf, start, p) == Piece(buf, start, old(p))
      ensures if p == old(p) then esc == esc0 else esc && SpliceAt(buf, old(p)) > 0
      ensures old(p) < |buf| ==> p < |buf|
      ensures if p < |buf| then Text() == [buf[p]] + Spliced(buf, p + 1) else Text() == []
    {
      hide Reach, Piece, Spliced;
      esc := esc0;
      while p + 1 < |buf| && buf[p] == '\\'
          && (buf[p + 1] == '\n' || (p + 2 < |buf| && buf[p + 1] == '\r' && buf[p + 2] == '\n'))
        invariant At(start, esc) && p >= old(p)
        invariant Text() == old(Text()) && Piece(buf, start, p) == Piece(buf, start, old(p))
        invariant if p == old(p) then esc == esc0 else esc && SpliceAt(buf, old(p)) > 0
        invariant old(p) < |buf| ==> p < |buf|
        decreases |buf| - p
      {
        ReachSplice(buf, start, p);
        assert Piece(buf, start, p + SpliceAt(buf, p)) == Piece(buf, start, p);
        p := p + (if buf[p + 1] == '\r' then 3 else 2);
        esc := true;
      }
      if p < |buf| {
        ReachChar(buf, start, p);
      } else {
        SplicedEnd(buf, p);
      }
    }

    /** The step s->p++ over a character that begins no continuation. */
    method Bump(ghost start: nat, ghost esc: bool)
      requires At(start, esc) && p < |buf| && SpliceAt(buf, p) == 0
      modifies this`p
      ensures p == old(p) + 1 && At(start, esc)
      ensures Piece(buf, start, p) == Piece(buf, start, old(p)) + [buf[old(p)]]
      ensures old(Text()) == [buf[old(p)]] + Text()
    {
      ReachChar(buf, start, p);
      p := p + 1;
      PieceThenRest(buf, start, p);
    }

    method LexIdent() returns (ref: string)
      requires Ready() && p < |buf| && IsWord(buf[p]) && SpliceAt(buf, p) == 0
      modifies this
      ensures Ready() && p > old(p)
      ensures var t := old(Text()); var n := WordLen(t); ref == t[..n] && Text() == t[n..]
    {
      hide Reach, Piece, Spliced;
      var start := p;
      ghost var t := Text();
      var esc := false;
      AtHere(esc);
      Bump(start, esc);
      while Ch() != '\0'
        invariant WellFormed(buf) && At(start, esc) && start < p && Count(start) > 0
        invariant WordLen(t) == Count(start) + WordLen(Text())
        invariant if esc then lexbuf == Piece(buf, start, p) else lexbuf == []
        decreases |buf| - p
      {
        var prev := p;
        esc := Skip(start, esc);
        if prev != p && lexbuf == [] {
          lexbuf := buf[start..prev];
        }
        if !IsWord(Ch()) {
          break;
        }
        if esc {
          lexbuf := lexbuf + [buf[p]];
        }
        Bump(start, esc);
      }
      if p == |buf| { SplicedEnd(buf, p); }
      assert WordLen(Text()) == 0;
      Cut(Piece(buf, start, p), Text());
      if esc {
        ref := lexbuf;
      } else {
        ref := buf[start..p];
      }
      lexbuf := [];
    }

    /** The part of a number at an exponent letter: the letter and its sign. */
    method LexExponent(ghost start: nat, esc0: bool) returns (esc: bool)
      requires WellFormed(buf) && At(start, esc0) && IsExponent(Ch()) && SpliceAt(buf, p) == 0
      modifies this`p
      ensures At(start, esc) && p > old(p)
      ensures NumberLen(old(Text())) == Count(start) - old(Count(start)) + NumberLen(Text())
    {
      ghost var t := Text();
      Bump(start, esc0);
      esc := Skip(start, esc0);
      if IsSign(Ch()) {
        Bump(start, esc);
        assert t[2..] == Text();
      }
    }

    /** One turn of the loop over a number; more is false at its end. */
    method NumberStep(ghost start: nat, esc0: bool) returns (more: bool, esc: bool)
      requires WellFormed(buf) && At(start, esc0) && p < |buf|
      modifies this`p
      ensures At(start, esc)
      ensures NumberLen(old(Text())) == Count(start) - old(Count(start)) + NumberLen(Text())
      ensures if more then p > old(p) else NumberLen(Text()) == 0
    {
      hide Reach, Piece, Spliced;
      esc := Skip(start, esc0);
      if Ch() == '.' {
        Bump(start, esc);
        return true, esc;
      } else if IsExponent(Ch()) {
        esc := LexExponent(start, esc);
        return true, esc;
      } else if !(IsAlnum(Ch()) || Ch() == '_') {
        return false, esc;
      } else {
        Bump(start, esc);
        return true, esc;
      }
    }

    method LexNumber(space: bool, esc0: bool) returns (tk: Token)
      requires Ready() && p < |buf|
      modifies this`p
      ensures Ready() && p >= old(p)
      ensures tk.kind == Number && tk.space == space
      ensures var t := old(Text()); var n := NumberLen(t); Spells(buf, tk, t[..n]) && Text() == t[n..]
      ensures NumberLen(old(Text())) > 0 ==> p > old(p)
    {
      hide Reach, Piece, Spliced;
      var start := p;
      ghost var t := Text();
      var esc := esc0;
      AtHere(esc);
      while Ch() != '\0'
        invariant WellFormed(buf) && At(start, esc)
        invariant NumberLen(t) == Count(start) + NumberLen(Text())
        decreases |buf| - p
      {
        var more;
        more, esc := NumberStep(start, esc);
        if !more {
          break;
        }
      }
      if p == |buf| { SplicedEnd(buf, p); }
      assert NumberLen(Text()) == 0;
      tk := Token(Number, start, p - start, esc, [], space);
      AtSpells(tk);
    }

    /** Where, counted from start, the closing quote ends. */
    ghost function Ends(start: nat, q: char): Option<nat>
      reads this
    {
      Plus(Count(start), QuoteLen(Text(), q))
    }

    /** Passes one character that neither closes the string nor escapes. */
    method PassChar(ghost start: nat, ghost esc: bool, ghost q: char)
      requires At(start, esc) && p < |buf| && SpliceAt(buf, p) == 0
      requires buf[p] != q && buf[p] != '\n'
      requires buf[p] != '\\'
      modifies this`p
      ensures p == old(p) + 1 && At(start, esc) && Ends(start, q) == old(Ends(start, q))
      ensures old(Text())[1..] == Text()
    {
      ghost var t := Text();
      Bump(start, esc);
      QuoteStep(t, q);
    }

    /** The digits of a numeric escape behind the first one. */
    method LexDigits(ghost start: nat, esc0: bool, hex: bool, ghost q: char) returns (esc: bool)
      requires WellFormed(buf) && At(start, esc0) && q in {'"', '\'', '>'}
      modifies this`p
      ensures At(start, esc) && p >= old(p) && Ends(start, q) == old(Ends(start, q))
    {
      esc := esc0;
      while Ch() != '\0'
        invariant At(start, esc) && p >= old(p) && Ends(start, q) == old(Ends(start, q))
        decreases |buf| - p
      {
        esc := Skip(start, esc);
        if !(if hex then IsHex(Ch()) else IsOctal(Ch())) {
          break;
        }
        PassChar(start, esc, q);
      }
    }

    /** The backslash itself and the continuations behind it. */
    method PassBackslash(ghost start: nat, esc0: bool, ghost q: char) returns (esc: bool)
      requires WellFormed(buf) && At(start, esc0) && q in {'"', '\'', '>'}
      requires Ch() == '\\' && SpliceAt(buf, p) == 0
      modifies this`p
      ensures At(start, esc) && old(p) < p < |buf| && SpliceAt(buf, p) == 0 && Text() == [buf[p]] + Spliced(buf, p + 1)
      ensures if IsQuoting(buf[p]) then old(Ends(start, q)) == Plus(Count(start) + 1, QuoteLen(Spliced(buf, p + 1), q))
              else old(Ends(start, q)) == Ends(start, q)
    {
      hide Reach, Piece, Spliced, QuoteLen;
      ghost var t := Text();
      Bump(start, esc0);
      esc := Skip(start, esc0);
      assert t == ['\\'] + Text() && t[1..] == Text() && Text()[1..] == Spliced(buf, p + 1);
      EscapeSteps(t, q);
    }

    /** A backslash inside a string and what it takes along. */
    method LexEscape(ghost start: nat, esc0: bool, ghost q: char) returns (esc: bool)
      requires WellFormed(buf) && At(start, esc0) && q in {'"', '\'', '>'}
      requires Ch() == '\\' && SpliceAt(buf, p) == 0
      modifies this`p
      ensures At(start, esc) && p > old(p) && Ends(start, q) == old(Ends(start, q))
    {
      hide Reach, Piece, Spliced, QuoteLen;
      esc := PassBackslash(start, esc0, q);
      if IsOctal(Ch()) {
        PassChar(start, esc, q);
        esc := LexDigits(start, esc, false, q);
      } else if Ch() == 'x' {
        PassChar(start, esc, q);
        esc := LexDigits(start, esc, true, q);
      } else if IsSimpleEscape(Ch()) {
        if IsQuoting(Ch()) {
          Bump(start, esc);
        } else {
          PassChar(start, esc, q);
        }
      }
    }

    /** The loop of cpp_lex_string, from behind the opening quote, if any, to
        behind the closing one. */
    method LexQuoted(ghost start: nat, esc0: bool, q: char) returns (ok: bool, esc: bool)
      requires WellFormed(buf) && At(start, esc0) && q in {'"', '\'', '>'}
      modifies this`p
      ensures At(start, esc) && p >= old(p)
      ensures if ok then p > old(p) && old(Ends(start, q)) == Some(Count(start)) else old(Ends(start, q)) == None
    {
      hide Reach, Piece, Spliced;
      esc := esc0;
      while true
        invariant At(start, esc) && p >= old(p) && Ends(start, q) == old(Ends(start, q))
        decreases |buf| - p
      {
        esc := Skip(start, esc);
        if Ch() == q || Ch() == '\0' || Ch() == '\n' {
          break;
        }
        if Ch() == '\\' {
          esc := LexEscape(start, esc, q);
        } else {
          PassChar(start, esc, q);
        }
      }
      if Ch() == '\0' || Ch() == '\n' {
        return false, esc;
      }
      Bump(start, esc);
      return true, esc;
    }

    /** cpp_lex_string: a string, a character constant, or, closed by '>', the
        rest of a header name. */
    method LexString(q: char, space: bool) returns (ok: bool, tk: Token)
      requires Ready() && p < |buf| && q in {'"', '\'', '>'}
      requires q != '>' ==> Ch() == q && SpliceAt(buf, p) == 0
      modifies this`p
      ensures Ready() && p >= old(p)
      ensures var t := old(Text());
              var n := if q == '>' then QuoteLen(t, q) else if t == [] then None else Plus(1, QuoteLen(t[1..], q));
              && ok == n.Some?
              && (ok ==> p > old(p) && n.value <= |t| && Spells(buf, tk, t[..n.value]) && Text() == t[n.value..])
      ensures tk.kind == (if q == '\'' then CharConst else Str) && tk.space == space
    {
      var start := p;
      ghost var t := Text();
      var esc := false;
      if q == '"' || q == '\'' {
        Bump(start, esc);
        assert t[1..] == Text();
      }
      ok, esc := LexQuoted(start, esc, q);
      tk := Token(if q == '\'' then CharConst else Str, start, p - start, esc, [], space);
      AtSpells(tk);
    }

    lemma {:induction false} AtHere(esc: bool)
      requires p <= |buf|
      ensures At(p, esc) && Count(p) == 0 && Piece(buf, p, p) == buf[p..p]
    {
    }

    /** cpp_lex_comment, from the second character of the comment on. */
    method LexComment(kind: char) returns (ok: bool)
      requires Ready() && (kind == '/' || kind == '*') && Ch() == kind && SpliceAt(buf, p) == 0
      modifies this`p
      ensures Ready() && p > old(p)
      ensures var r := if kind == '/' then AfterLine(old(Text())[1..]) else AfterBlock(old(Text())[1..], false);
              ok == r.Some? && (ok ==> Text() == r.value)
    {
      ghost var t := Text();
      AtHere(true);
      Bump(p, true);
      assert t[1..] == Text();
      if kind == '/' {
        while Ch() != '\0'
          invariant WellFormed(buf) && old(p) < p <= |buf| && AfterLine(t[1..]) == AfterLine(Text())
          decreases |buf| - p
        {
          AtHere(true);
          var _ := Skip(p, true);
          if Ch() == '\n' {
            return true;
          }
          AtHere(true);
          Bump(p, true);
        }
      } else {
        var maybeDone := false;
        while Ch() != '\0'
          invariant WellFormed(buf) && old(p) < p <= |buf| && AfterBlock(t[1..], false) == AfterBlock(Text(), maybeDone)
          decreases |buf| - p
        {
          AtHere(true);
          var _ := Skip(p, true);
          AtHere(true);
          if Ch() == '/' && maybeDone {
            Bump(p, true);
            return true;
          }
          maybeDone := Ch() == '*';
          Bump(p, true);
        }
      }
      return false;
    }

    /** cpp_token_spell: the spelling without the continuations inside. */
    method Spell(tk: Token, ghost text: string) returns (out: string)
      requires Spells(buf, tk, text)
      ensures out == text
    {
      hide Piece, Reach;
      if tk.kind == Ident {
        return tk.ref;
      }
      if !tk.esc {
        return buf[tk.start..tk.start + tk.len];
      }
      var i := 0;
      out := [];
      while i < tk.len
        invariant i <= tk.len && Reach(buf, tk.start + i, tk.start + tk.len)
        invariant text == out + Piece(buf, tk.start + i, tk.start + tk.len)
      {
        var k := tk.start + i;
        ReachStep(buf, k, tk.start + tk.len);
        if i + 2 <= tk.len && buf[k] == '\\' && buf[k + 1] == '\n' {
          i := i + 2;
        } else if i + 3 <= tk.len && buf[k] == '\\' && buf[k + 1] == '\r' && buf[k + 2] == '\n' {
          i := i + 3;
        } else {
          out := out + [buf[k]];
          i := i + 1;
        }
      }
      PieceNone(buf, tk.start + i);
    }

    /** The token read since start is the punctuator k. */
    method Finish(start: nat, esc: bool, k: Punct, space: bool) returns (tk: Token)
      requires At(start, esc) && start < p
      requires var t := Spliced(buf, start);
               t != [] && Count(start) == PunctLen(t) && PunctOf(t[..PunctLen(t)]) == Some(k)
      ensures tk.kind == Punctuator(k) && tk.space == space
      ensures var t := Spliced(buf, start); Spells(buf, tk, t[..PunctLen(t)]) && Text() == t[PunctLen(t)..]
    {
      tk := Token(Punctuator(k), start, p - start, esc, [], space);
      AtSpells(tk);
    }

    /** cpp_lex_punct: the longest punctuator, looked for by trying the next
        characters and going back when they do not fit. */
    method LexPunct(space: bool, esc0: bool) returns (tk: Token)
      requires Ready() && p < |buf| && IsPunct(buf[p]) && SpliceAt(buf, p) == 0
      requires esc0 ==> SpliceAt(buf, p + 1) > 0
      modifies this`p
      ensures Ready() && p > old(p) && Took(old(p), tk, space)
    {
      hide Reach, Piece, Spliced, PunctLen, PunctOf, Punct2;
      var start, c := p, buf[p];
      ghost var t := Text();
      AtHere(esc0);
      Bump(start, esc0);
      assert t == [c] + Text() && Count(start) == 1;
      if Ch() != '\\' && !IsPunct(Ch()) {
        if p < |buf| {
          ReachChar(buf, start, p);
        } else {
          SplicedEnd(buf, p);
        }
        Behind(t, c, Text());
        ShortPunct(t);
        tk := Finish(start, false, One(c), space);
        return;
      }
      var esc := Skip(start, esc0);
      Behind(t, c, Text());
      var d := Ch();
      if c == '%' && d == ':' {
        tk := LexPercentColon(start, esc, space);
      } else if c == d && (c == '<' || c == '>') {
        tk := LexShift(start, esc, space, c);
      } else if c == d && c == '.' {
        tk := LexDots(start, esc, space);
      } else {
        assert p < |buf| ==> |t| > 1 && t[1] == d;
        var k, found := Switch(c, d);
        if found {
          Bump(start, esc);
          TwoPunct(t, k);
          tk := Finish(start, esc, k, space);
        } else {
          BackToFirst(start);
          OnePunct(t);
          tk := Finish(start, false, k, space);
        }
      }
    }

    /** The cases of cpp_lex_punct decided by two characters; a digraph becomes
        the one-character punctuator it stands for. */
    static method Switch(c: char, d: char) returns (k: Punct, found: bool)
      requires !(c == '%' && d == ':') && !(c == d && (c == '<' || c == '>' || c == '.'))
      ensures if found then Punct2(c, d) == Some(k) else Punct2(c, d) == None && k == One(c)
    {
      k := One(c);
      var digraph := false;
      match c {
      case '+' =>
        if d == '+' { k := Incr; } else if d == '=' { k := AsgAdd; }
      case '-' =>
        if d == '-' { k := Decr; } else if d == '=' { k := AsgSub; } else if d == '>' { k := Arrow; }
      case '*' =>
        if d == '=' { k := AsgMul; }
      case '/' =>
        if d == '=' { k := AsgDiv; }
      case '%' =>
        if d == '=' { k := AsgMod; } else if d == '>' { k, digraph := One('}'), true; }
      case '&' =>
        if d == '&' { k := And; } else if d == '=' { k := AsgBand; }
      case '|' =>
        if d == '|' { k := Or; } else if d == '=' { k := AsgBor; }
      case '=' =>
        if d == '=' { k := Eq; }
      case '!' =>
        if d == '=' { k := Ne; }
      case '^' =>
        if d == '=' { k := AsgBxor; }
      case '#' =>
        if d == '#' { k := Paste; }
      case ':' =>
        if d == '>' { k, digraph := One(']'), true; }
      case '<' =>
        if d == '=' { k := Le; }
        else if d == ':' { k, digraph := One('['), true; }
        else if d == '%' { k, digraph := One('{'), true; }
      case '>' =>
        if d == '=' { k := Ge; }
      case _ =>
      }
      found := !k.One? || digraph;
    }

    /** Goes back to behind the first character of the token. */
    method BackToFirst(start: nat)
      requires start < |buf| && SpliceAt(buf, start) == 0
      modifies this`p
      ensures p == start + 1 && At(start, false) && Count(start) == 1
    {
      p := start;
      AtHere(false);
      Bump(start, false);
    }

    /** The token read since start is the one the reference takes. */
    ghost predicate Took(start: nat, tk: Token, space: bool)
      reads this
    {
      var t := Spliced(buf, start);
      && t != []
      && PunctOf(t[..PunctLen(t)]).Some?
      && tk.kind == Punctuator(PunctOf(t[..PunctLen(t)]).value) && tk.space == space
      && Spells(buf, tk, t[..PunctLen(t)]) && Text() == t[PunctLen(t)..]
    }

    /** Two characters c, d of a token have been looked at, the first one read. */
    ghost predicate Second(start: nat, esc: bool, c: char, d: char)
      reads this
    {
      && WellFormed(buf) && At(start, esc) && start < p < |buf|
      && Piece(buf, start, p) == [c] && buf[p] == d
      && SpliceAt(buf, p) == 0 && SpliceAt(buf, start) == 0
    }

    /** Reads the second character and looks at the third. */
    method Third(start: nat, esc0: bool, ghost c: char, ghost d: char) returns (esc: bool)
      requires Second(start, esc0, c, d)
      modifies this`p
      ensures At(start, esc) && start < p && Piece(buf, start, p) == [c, d] && SpliceAt(buf, p) == 0
      ensures var t := Spliced(buf, start);
              && |t| >= 2 && t[0] == c && t[1] == d
              && (p < |buf| ==> |t| > 2 && t[2] == buf[p])
              && (p == |buf| ==> |t| == 2)
    {
      hide Reach, Piece, Spliced;
      Bump(start, esc0);
      esc := Skip(start, esc0);
    }

    /** Behind "<<" or ">>": with '=' it is an assignment. */
    method LexShift(start: nat, esc0: bool, space: bool, c: char) returns (tk: Token)
      requires Second(start, esc0, c, c) && (c == '<' || c == '>')
      modifies this`p
      ensures p <= |buf| && p > start && Took(start, tk, space)
    {
      var esc := Third(start, esc0, c, c);
      ShiftPunct(Spliced(buf, start), c);
      if Ch() == '=' {
        Bump(start, esc);
        tk := Finish(start, esc, if c == '<' then AsgLshift else AsgRshift, space);
      } else {
        tk := Finish(start, esc, if c == '<' then Lshift else Rshift, space);
      }
    }

    /** Behind "..": without a third '.' only the first one is taken. */
    method LexDots(start: nat, esc0: bool, space: bool) returns (tk: Token)
      requires Second(start, esc0, '.', '.')
      modifies this`p
      ensures p <= |buf| && p > start && Took(start, tk, space)
    {
      var esc := Third(start, esc0, '.', '.');
      DotsPunct(Spliced(buf, start));
      if Ch() == '.' {
        Bump(start, esc);
        tk := Finish(start, esc, Elipsis, space);
      } else {
        BackToFirst(start);
        tk := Finish(start, false, One('.'), space);
      }
    }

    /** Behind "%:": "%:%:" is taken whole, otherwise the '%' is put back. */
    method LexPercentColon(start: nat, esc0: bool, space: bool) returns (tk: Token)
      requires Second(start, esc0, '%', ':')
      modifies this`p
      ensures p <= |buf| && p > start && Took(start, tk, space)
    {
      hide Reach, Piece, Spliced;
      var esc := Third(start, esc0, '%', ':');
      ghost var t := Spliced(buf, start);
      PercentPunct(t);
      if Ch() == '%' {
        var q := p;
        Bump(start, esc);
        esc := Skip(start, esc);
        assert p < |buf| ==> t[3] == buf[p];
        if Ch() == ':' {
          Bump(start, esc);
          tk := Finish(start, esc, Paste, space);
          return;
        }
        p := q;
        PieceThenRest(buf, start, p);
      }
      tk := Finish(start, esc, One('#'), space);
    }

    /** The token read since old place is the one the reference takes. */
    ghost predicate Agrees(r: Lexeme, ok: bool, tk: Token)
      reads this
    {
      match r
      case Lexeme(kind, text, space, rest) =>
        ok && tk.kind == kind && tk.space == space && Spells(buf, tk, text) && Text() == rest
      case _ => !ok
    }

    /** Whether a comment starts here; if so, it is passed. */
    method SkipComment() returns (comment: bool, ok: bool)
      requires Ready() && Ch() == '/' && SpliceAt(buf, p) == 0
      modifies this`p
      ensures Ready()
      ensures var t := old(Text());
              && comment == (|t| > 1 && (t[1] == '/' || t[1] == '*'))
              && (!comment ==> p == old(p) && ok)
              && (comment ==>
                    var r := if t[1] == '/' then AfterLine(t[2..]) else AfterBlock(t[2..], false);
                    ok == r.Some? && (ok ==> p > old(p) && Text() == r.value))
    {
      hide Reach, Piece, Spliced;
      var q := p;
      ghost var t := Text();
      AtHere(true);
      Bump(p, true);
      AtHere(true);
      var _ := Skip(p, true);
      assert t == "/" + Text();
      if Ch() == '/' || Ch() == '*' {
        assert t[2..] == Text()[1..];
        ok := LexComment(Ch());
        return true, ok;
      }
      p := q;
      return false, true;
    }

    /** A '.' : a number when a digit follows, otherwise a punctuator. */
    method LexDot(space: bool) returns (tk: Token)
      requires Ready() && Ch() == '.' && SpliceAt(buf, p) == 0
      modifies this`p
      ensures Ready() && p > old(p)
      ensures Agrees(LexText.Scan(old(Text()), space), true, tk)
    {
      hide Reach, Piece, Spliced;
      var q := p;
      ghost var t := Text();
      AtHere(false);
      Bump(p, false);
      AtHere(false);
      var esc := Skip(p, false);
      assert t == "." + Text();
      ScanDot(t, space);
      if IsDigit(Ch()) {
        p := q;
        tk := LexNumber(space, esc);
      } else {
        p := q;
        tk := LexPunct(space, esc);
      }
    }

    /** One token that begins here; neither white space nor a comment does. */
    method LexToken(space: bool) returns (ok: bool, tk: Token)
      requires Ready() && p < |buf| && SpliceAt(buf, p) == 0
      requires buf[p] == '/' ==> |Text()| > 1 ==> Text()[1] != '/' && Text()[1] != '*'
      requires buf[p] == '\n' || !IsSpace(buf[p])
      modifies this
      ensures Ready() && (ok ==> p > old(p))
      ensures Agrees(LexText.Scan(old(Text()), space), ok, tk)
    {
      hide Reach, Piece, Spliced, WordLen, NumberLen, QuoteLen, PunctLen, PunctOf, LexText.Scan;
      AtHere(false);
      ReachChar(buf, p, p);
      var c := Ch();
      if c != '.' { ScanFirst(Text(), space); }
      if c == '\n' {
        SpellsNothing(buf);
        Bump(p, false);
        return true, Token(Newline, 0, 0, false, [], space);
      } else if IsAlpha(c) || c == '_' {
        var start := p;
        var ref := LexIdent();
        return true, Token(Ident, start, 0, false, ref, space);
      } else if IsDigit(c) {
        tk := LexNumber(space, false);
        return true, tk;
      } else if c == '"' || c == '\'' {
        ok, tk := LexString(c, space);
      } else if c == '.' {
        tk := LexDot(space);
        return true, tk;
      } else if IsPunct(c) {
        tk := LexPunct(space, false);
        return true, tk;
      } else {
        return false, Token(End, 0, 0, false, [], space);
      }
    }

    /** cpp_lex_scan: the next token, or a diagnosed error. */
    method Scan() returns (ok: bool, tk: Token)
      requires Ready()
      modifies this
      ensures Ready() && (ok && tk.kind != End ==> p > old(p))
      ensures Agrees(LexText.Scan(old(Text()), false), ok, tk)
    {
      hide Reach, Piece, Spliced;
      ghost var goal := LexText.Scan(Text(), false);
      var space := false;
      while Ch() != '\0'
        invariant Ready() && p >= old(p)
        invariant goal == LexText.Scan(Text(), space)
        decreases |buf| - p
      {
        AtHere(true);
        var _ := Skip(p, true);
        if Ch() == '/' {
          var comment, closed := SkipComment();
          if comment {
            if !closed {
              return false, Token(End, 0, 0, false, [], space);
            }
            space := true;
            continue;
          }
        }
        if Ch() != '\n' && IsSpace(Ch()) {
          AtHere(true);
          Bump(p, true);
          space := true;
          continue;
        }
        ok, tk := LexToken(space);
        return;
      }
      SplicedEnd(buf, p);
      SpellsNothing(buf);
      return true, Token(End, 0, 0, false, [], space);
    }
  }

  /** Splice transparency: lexing a buffer and spelling its tokens gives what
      the reference lexer gives on the text with its line continuations
      deleted beforehand. */
  method LexAll(buf: string) returns (ok: bool, tokens: seq<(Kind, string, bool)>)
    requires WellFormed(buf)
    ensures Lexed(ok, tokens) == ScanAll(Spliced(buf, 0))
  {
    hide Reach, Piece, Spliced, LexText.Scan;
    var s := new Stream(buf);
    tokens := [];
    while true
      invariant s.buf == buf && s.Ready() && fresh(s)
      invariant ScanAll(Spliced(buf, 0)) == Lexed(ScanAll(s.Text()).ok, tokens + ScanAll(s.Text()).tokens)
      decreases |buf| - s.p
    {
      ghost var t := s.Text();
      var tk;
      ok, tk := s.Scan();
      if !ok {
        return;
      }
      if tk.kind == End {
        return;
      }
      var text := s.Spell(tk, LexText.Scan(t, false).text);
      tokens := tokens + [(tk.kind, text, tk.space)];
    }
  }
}
