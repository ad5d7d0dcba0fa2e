/** Where the tokens of the reference lexer begin and end, said of the text and
    of the grammars of section 6.4 rather than of the scans. */
module LexFacts {
  import opened Wrappers
  import opened LexText

  // -------------------------------------------------------------------
  // Comments (section 6.4.9).
  // -------------------------------------------------------------------

  /** The closing of a block comment stands at k. */
  predicate Closes(t: string, k: int) { 0 <= k && k + 1 < |t| && t[k] == '*' && t[k + 1] == '/' }

  /** k is the first closing in t. */
  predicate FirstClose(t: string, k: int) { Closes(t, k) && forall j :: 0 <= j < k ==> !Closes(t, j) }

  /** From p on, the character before p remembered by star. */
  lemma {:induction false} AfterBlockFrom(t: string, p: nat, star: bool) returns (k: int)
    requires p <= |t| && star == (p > 0 && t[p - 1] == '*')
    ensures AfterBlock(t[p..], star).None? ==> forall j :: p - 1 <= j ==> !Closes(t, j)
    ensures AfterBlock(t[p..], star).Some? ==>
              && p - 1 <= k && Closes(t, k) && (forall j :: p - 1 <= j < k ==> !Closes(t, j))
              && AfterBlock(t[p..], star) == Some(t[k + 2..])
    decreases |t| - p
  {
    k := p - 1;
    if p < |t| {
      assert t[p..][0] == t[p] && t[p..][1..] == t[p + 1..];
      if !(t[p] == '/' && star) {
        k := AfterBlockFrom(t, p + 1, t[p] == '*');
        assert !Closes(t, p - 1);
      }
    }
  }

  /** A block comment ends with the first closing in the text behind its
      opening, and not at all if there is none. */
  lemma {:induction false} BlockEnds(t: string)
    ensures AfterBlock(t, false).None? <==> forall k :: !Closes(t, k)
    ensures forall k :: FirstClose(t, k) ==> AfterBlock(t, false) == Some(t[k + 2..])
  {
    assert t[0..] == t;
    var k := AfterBlockFrom(t, 0, false);
    if AfterBlock(t, false).Some? {
      assert FirstClose(t, k);
      forall j | FirstClose(t, j) ensures j == k {
        assert !(j < k) && !(k < j);
      }
    }
  }

  predicate FirstNewline(t: string, k: int) { 0 <= k < |t| && t[k] == '\n' && forall j :: 0 <= j < k ==> t[j] != '\n' }

  lemma {:induction false} AfterLineFrom(t: string, p: nat) returns (k: nat)
    requires p <= |t|
    ensures AfterLine(t[p..]).None? ==> forall j :: p <= j < |t| ==> t[j] != '\n'
    ensures AfterLine(t[p..]).Some? ==>
              p <= k < |t| && t[k] == '\n' && (forall j :: p <= j < k ==> t[j] != '\n')
                  && AfterLine(t[p..]) == Some(t[k..])
    decreases |t| - p
  {
    k := p;
    if p < |t| {
      assert t[p..][0] == t[p] && t[p..][1..] == t[p + 1..];
      if t[p] != '\n' {
        k := AfterLineFrom(t, p + 1);
      }
    }
  }

  /** A line comment ends in front of the first newline. */
  lemma {:induction false} LineEnds(t: string)
    ensures AfterLine(t).None? <==> forall k :: !FirstNewline(t, k)
    ensures forall k :: FirstNewline(t, k) ==> AfterLine(t) == Some(t[k..])
  {
    assert t[0..] == t;
    var k := AfterLineFrom(t, 0);
    if AfterLine(t).Some? {
      assert FirstNewline(t, k);
      forall j | FirstNewline(t, j) ensures j == k {
        assert !(j < k) && !(k < j);
      }
    }
  }

  lemma {:induction false} CommentOpened(u: string, space: bool)
    requires |u| > 1 && u[0] == '/' && (u[1] == '*' || u[1] == '/')
    ensures var r := if u[1] == '*' then AfterBlock(u[2..], false) else AfterLine(u[2..]);
            Scan(u, space) == match r case None => Unterminated case Some(t) => Scan(t, true)
  {
    hide AfterBlock, AfterLine, PunctLen, PunctOf, WordLen, NumberLen, QuoteLen;
  }

  /** A comment counts as white space, and the token behind it comes next. */
  lemma {:induction false} CommentScanned(t: string, space: bool)
    ensures forall k :: FirstClose(t, k) ==> Scan("/*" + t, space) == Scan(t[k + 2..], true)
    ensures (forall k :: !Closes(t, k)) ==> Scan("/*" + t, space) == Unterminated
    ensures forall k :: FirstNewline(t, k) ==> Scan("//" + t, space) == Scan(t[k..], true)
    ensures (forall k :: !FirstNewline(t, k)) ==> Scan("//" + t, space) == Unterminated
  {
    var b, l := "/*" + t, "//" + t;
    assert b[2..] == t && l[2..] == t;
    BlockEnds(t);
    LineEnds(t);
    CommentOpened(b, space);
    CommentOpened(l, space);
    hide *;
  }

  // -------------------------------------------------------------------
  // Letters and digits (section 6.4.2.1).
  // -------------------------------------------------------------------

  predicate Nondigit(c: char) { c == '_' || 'a' <= c <= 'z' || 'A' <= c <= 'Z' }

  predicate Digit(c: char) { '0' <= c <= '9' }

  // -------------------------------------------------------------------
  // Words (section 6.4.2).
  // -------------------------------------------------------------------

  /** A word is as long as word characters follow each other. */
  lemma {:induction false} WordEnds(t: string)
    ensures forall i :: 0 <= i < WordLen(t) ==> IsWord(t[i])
    ensures WordLen(t) < |t| ==> !IsWord(t[WordLen(t)])
  {
    if t != [] && IsWord(t[0]) {
      WordEnds(t[1..]);
      forall i | 0 <= i < WordLen(t) ensures IsWord(t[i]) {
        if i > 0 { assert t[i] == t[1..][i - 1]; }
      }
    }
  }

  // -------------------------------------------------------------------
  // Preprocessing numbers (section 6.4.8).
  // -------------------------------------------------------------------

  /** The productions of a preprocessing number: a digit, a point and a digit,
      or a number followed by a digit, a letter, an underscore or a point, or by
      one of e E p P and a sign. */
  predicate PpNumber(s: string) {
    s != [] && (
      var c, init := s[|s| - 1], s[..|s| - 1];
      || (init == [] && Digit(c))
      || (init == "." && Digit(c))
      || ((Digit(c) || Nondigit(c) || c == '.') && PpNumber(init))
      || ((c == '+' || c == '-') && init != [] && init[|init| - 1] in {'e', 'E', 'p', 'P'}
          && PpNumber(init[..|init| - 1])))
  }

  lemma {:induction false} GrowChar(s: string, c: char)
    requires PpNumber(s) && (IsWord(c) || c == '.')
    ensures PpNumber(s + [c])
  {
    assert (s + [c])[..|s|] == s;
  }

  lemma {:induction false} GrowSign(s: string, e: char, c: char)
    requires PpNumber(s) && IsExponent(e) && IsSign(c)
    ensures PpNumber(s + [e, c])
  {
    assert (s + [e, c])[..|s| + 1] == s + [e] && (s + [e])[..|s|] == s;
  }

  lemma {:induction false} Regroup(s: string, t: string, k: nat, n: nat)
    requires k <= n <= |t|
    ensures (s + t[..k]) + t[k..][..n - k] == s + t[..n]
  {
  }

  /** A number and a continuation of it are a number. */
  lemma {:induction false} NumberGrows(s: string, t: string)
    requires PpNumber(s)
    ensures PpNumber(s + t[..NumberLen(t)])
    decreases |t|
  {
    hide PpNumber;
    var n := NumberLen(t);
    if t != [] && IsExponent(t[0]) && |t| > 1 && IsSign(t[1]) {
      GrowSign(s, t[0], t[1]);
      assert t[..2] == [t[0], t[1]] && n == 2 + NumberLen(t[2..]);
      hide NumberLen, IsExponent, IsSign;
      NumberGrows(s + t[..2], t[2..]);
      Regroup(s, t, 2, n);
    } else if t != [] && (t[0] == '.' || IsWord(t[0])) {
      GrowChar(s, t[0]);
      assert t[..1] == [t[0]] && n == 1 + NumberLen(t[1..]);
      hide NumberLen, IsExponent, IsSign, IsWord;
      NumberGrows(s + t[..1], t[1..]);
      Regroup(s, t, 1, n);
    } else {
      assert s + t[..0] == s;
    }
  }

  /** A number without its last characters is one, but for a point alone. */
  lemma {:induction false} NumberParts(s: string, m: nat)
    requires PpNumber(s) && 0 < m < |s| && s[..m] != "."
    ensures PpNumber(s[..m])
  {
    var init := s[..|s| - 1];
    if m < |init| {
      assert init[..m] == s[..m];
      assert init != ".";
      NumberParts(init, m);
    } else {
      assert s[..m] == init;
    }
  }

  /** The scan stops at no character that could go on. */
  lemma {:induction false} NumberStops(t: string)
    ensures var n := NumberLen(t);
            n < |t| ==> !IsWord(t[n]) && t[n] != '.' && !(n > 0 && IsExponent(t[n - 1]) && IsSign(t[n]))
  {
    if t != [] && IsExponent(t[0]) && |t| > 1 && IsSign(t[1]) {
      NumberStops(t[2..]);
    } else if t != [] && (t[0] == '.' || IsWord(t[0])) {
      NumberStops(t[1..]);
    }
  }

  /** The number taken is one, and no longer front part of the text is. */
  lemma {:induction false} NumberLongest(t: string)
    requires t != [] && (Digit(t[0]) || (t[0] == '.' && |t| > 1 && Digit(t[1])))
    ensures var n := NumberLen(t); PpNumber(t[..n]) && forall m :: n < m <= |t| ==> !PpNumber(t[..m])
  {
    var n := NumberLen(t);
    var k := if t[0] == '.' then 2 else 1;
    NumberStart(t, k);
    NumberGrows(t[..k], t[k..]);
    assert t[..k] + t[k..][..n - k] == t[..n];
    NumberStops(t);
    forall m | n < m <= |t| ensures !PpNumber(t[..m]) {
      if PpNumber(t[..m]) {
        NextChar(t, n, m);
      }
    }
  }

  lemma {:induction false} NumberStart(t: string, k: nat)
    requires t != [] && (Digit(t[0]) || (t[0] == '.' && |t| > 1 && Digit(t[1])))
    requires k == if t[0] == '.' then 2 else 1
    ensures PpNumber(t[..k]) && NumberLen(t) == k + NumberLen(t[k..])
  {
    if k == 2 {
      assert t[1..][1..] == t[2..] && t[..2][..1] == ".";
    } else {
      assert t[..1][..0] == [];
    }
  }

  /** A longer number goes on with a character that could go on. */
  lemma {:induction false} NextChar(t: string, n: nat, m: nat)
    requires 0 < n < m <= |t| && PpNumber(t[..m]) && t[..n + 1] != "."
    ensures IsWord(t[n]) || t[n] == '.' || (IsExponent(t[n - 1]) && IsSign(t[n]))
  {
    if n + 1 < m {
      assert t[..m][..n + 1] == t[..n + 1];
      NumberParts(t[..m], n + 1);
    }
    var s := t[..n + 1];
    assert s[|s| - 1] == t[n] && s[..|s| - 1] == t[..n];
  }

  // -------------------------------------------------------------------
  // Strings and character constants (sections 6.4.4.4 and 6.4.5).
  // -------------------------------------------------------------------

  /** How many backslashes stand directly before k. */
  function Slashes(t: string, k: nat): nat
    requires k <= |t|
  {
    if k > 0 && t[k - 1] == '\\' then 1 + Slashes(t, k - 1) else 0
  }

  /** The quote q stands at k with no backslash to itself: those before it pair
      off. */
  predicate OpenQuote(t: string, q: char, k: int) { 0 <= k < |t| && t[k] == q && Slashes(t, k) % 2 == 0 }

  /** The first such quote, with no newline before it. */
  predicate FirstQuote(t: string, q: char, k: int) {
    OpenQuote(t, q, k) && forall j :: 0 <= j < k ==> !OpenQuote(t, q, j) && t[j] != '\n'
  }

  /** At i the scan is not behind a backslash that takes the character along. */
  predicate Fresh(t: string, i: nat)
    requires i <= |t|
  {
    Slashes(t, i) % 2 == 0 || (i < |t| && t[i] !in {'"', '\\', '\''}) || i == |t|
  }

  /** A backslash takes a quote or backslash after it along. */
  function QuoteStride(t: string, i: nat): (n: nat)
    requires i < |t|
    ensures i + n <= |t|
  {
    if t[i] == '\\' && i + 1 < |t| && t[i + 1] in {'"', '\\', '\''} then 2 else 1
  }

  lemma {:induction false} FreshNext(t: string, q: char, i: nat)
    requires i < |t| && Fresh(t, i) && t[i] != q && (q == '"' || q == '\'')
    ensures var n := QuoteStride(t, i);
            Fresh(t, i + n) && forall j :: i <= j < i + n ==> !OpenQuote(t, q, j) && (j > i ==> t[j] != '\n')
  {
    if QuoteStride(t, i) == 2 {
      assert Slashes(t, i + 1) == Slashes(t, i) + 1;
      if t[i + 1] == '\\' {
        assert Slashes(t, i + 2) == Slashes(t, i) + 2;
      }
    }
  }

  /** One turn of the scan. */
  lemma {:induction false} QuoteTurn(t: string, q: char, i: nat)
    requires i <= |t|
    ensures i == |t| || (t[i] == '\n' && q != '\n') ==> QuoteLen(t[i..], q) == None
    ensures i < |t| && t[i] == q ==> QuoteLen(t[i..], q) == Some(1)
    ensures i < |t| && t[i] != q && t[i] != '\n' ==>
              var n := QuoteStride(t, i);
              QuoteLen(t[i..], q) == match QuoteLen(t[i + n..], q) case None => None case Some(k) => Some(n + k)
  {
    if i < |t| {
      var u, n := t[i..], QuoteStride(t, i);
      assert u[0] == t[i] && u[n..] == t[i + n..] && (i + 1 < |t| ==> u[1] == t[i + 1]);
    }
  }

  lemma {:induction false} QuoteFrom(t: string, q: char, i: nat) returns (k: int)
    requires i <= |t| && Fresh(t, i) && (q == '"' || q == '\'')
    ensures QuoteLen(t[i..], q).Some? ==>
              && i <= k && OpenQuote(t, q, k) && QuoteLen(t[i..], q) == Some(k - i + 1)
              && forall j :: i <= j < k ==> !OpenQuote(t, q, j) && t[j] != '\n'
    ensures QuoteLen(t[i..], q).None? ==>
              && i <= k <= |t| && (k < |t| ==> t[k] == '\n')
              && forall j :: i <= j < k ==> !OpenQuote(t, q, j)
    decreases |t| - i
  {
    hide QuoteLen, Slashes;
    k := i;
    QuoteTurn(t, q, i);
    if i < |t| && t[i] != q && t[i] != '\n' {
      FreshNext(t, q, i);
      hide *;
      k := QuoteFrom(t, q, i + QuoteStride(t, i));
    }
  }

  /** A literal ends with the first quote that no backslash takes along, and not
      at all when a newline or the end of the text comes before it. */
  lemma {:induction false} QuoteEnds(t: string, q: char)
    requires q == '"' || q == '\''
    ensures QuoteLen(t, q).None? <==> forall k :: !FirstQuote(t, q, k)
    ensures forall k :: FirstQuote(t, q, k) ==> QuoteLen(t, q) == Some(k + 1)
  {
    assert t[0..] == t;
    var k := QuoteFrom(t, q, 0);
    if QuoteLen(t, q).Some? {
      assert FirstQuote(t, q, k);
      forall j | FirstQuote(t, q, j) ensures j == k {
        assert !(j < k) && !(k < j);
      }
    } else {
      forall j ensures !FirstQuote(t, q, j) {
        if j > k { assert k == |t| || t[k] == '\n'; }
      }
    }
  }

  // -------------------------------------------------------------------
  // Punctuators (section 6.4.6).
  // -------------------------------------------------------------------

  /** The punctuators of more than one character, digraphs among them. */
  predicate Spelled(s: string) {
    s in {"...", "<<", ">>", "++", "--", "->", "&&", "||", "==", "!=", "<=", ">=",
          "+=", "-=", "*=", "/=", "%=", "<<=", ">>=", "&=", "^=", "|=", "##",
          "<:", ":>", "<%", "%>", "%:", "%:%:"}
  }

  lemma {:induction false} PunctuatorsOnly(s: string)
    requires |s| > 1 && PunctOf(s).Some?
    ensures Spelled(s)
  {
    if |s| == 2 {
      assert s == [s[0], s[1]];
    } else if |s| == 3 {
      assert s == [s[0], s[1], s[2]];
    } else {
      assert s == [s[0], s[1], s[2], s[3]];
    }
  }

  /** What each of them stands for, a digraph for what it replaces. */
  lemma {:induction false} Punctuators()
    ensures PunctOf("...") == Some(Elipsis) && PunctOf("->") == Some(Arrow) && PunctOf("##") == Some(Paste)
    ensures PunctOf("<<") == Some(Lshift) && PunctOf(">>") == Some(Rshift)
    ensures PunctOf("++") == Some(Incr) && PunctOf("--") == Some(Decr)
    ensures PunctOf("&&") == Some(And) && PunctOf("||") == Some(Or)
    ensures PunctOf("==") == Some(Eq) && PunctOf("!=") == Some(Ne) && PunctOf("<=") == Some(Le)
            && PunctOf(">=") == Some(Ge)
  {
  }

  lemma {:induction false} Assignments()
    ensures PunctOf("+=") == Some(AsgAdd) && PunctOf("-=") == Some(AsgSub) && PunctOf("*=") == Some(AsgMul)
    ensures PunctOf("/=") == Some(AsgDiv) && PunctOf("%=") == Some(AsgMod)
    ensures PunctOf("<<=") == Some(AsgLshift) && PunctOf(">>=") == Some(AsgRshift)
    ensures PunctOf("&=") == Some(AsgBand) && PunctOf("^=") == Some(AsgBxor) && PunctOf("|=") == Some(AsgBor)
  {
  }

  lemma {:induction false} Digraphs()
    ensures PunctOf("<:") == PunctOf("[") == Some(One('[')) && PunctOf(":>") == PunctOf("]") == Some(One(']'))
    ensures PunctOf("<%") == PunctOf("{") == Some(One('{')) && PunctOf("%>") == PunctOf("}") == Some(One('}'))
    ensures PunctOf("%:") == PunctOf("#") == Some(One('#')) && PunctOf("%:%:") == PunctOf("##")
  {
  }

  // -------------------------------------------------------------------
  // The next token.
  // -------------------------------------------------------------------

  predicate LongestWord(t: string, n: nat) {
    && n <= |t| && (forall i :: 0 <= i < n ==> Nondigit(t[i]) || Digit(t[i]))
    && (n < |t| ==> !Nondigit(t[n]) && !Digit(t[n]))
  }

  predicate LongestNumber(t: string, n: nat) {
    n <= |t| && PpNumber(t[..n]) && forall m :: n < m <= |t| ==> !PpNumber(t[..m])
  }

  /** The graphic characters that begin neither a word nor a number nor a literal. */
  predicate Graphic(c: char) { '!' <= c <= '~' && !Nondigit(c) && !Digit(c) && c != '"' && c != '\'' }

  lemma {:induction false} GraphicPunct(c: char)
    requires Graphic(c)
    ensures IsPunct(c) && !IsSpace(c) && c !in {'_', '"', '\'', '\n'}
  {
  }

  predicate LongestPunct(t: string, n: nat) {
    n <= |t| && PunctOf(t[..n]).Some? && forall m :: n < m <= |t| ==> PunctOf(t[..m]).None?
  }

  /** White space but a newline is passed. */
  lemma {:induction false} WhiteScanned(t: string, space: bool)
    requires t != [] && t[0] in {' ', '\t', 11 as char, 12 as char, '\r'}
    ensures Scan(t, space) == Scan(t[1..], true)
  {
    hide AfterBlock, AfterLine, PunctLen, PunctOf, WordLen, NumberLen, QuoteLen;
  }

  lemma {:induction false} WordScanned(t: string, space: bool, n: nat)
    requires t != [] && Nondigit(t[0]) && LongestWord(t, n)
    ensures Scan(t, space) == Lexeme(Ident, t[..n], space, t[n..])
  {
    WordEnds(t);
    assert !(WordLen(t) < n) && !(n < WordLen(t));
    hide AfterBlock, AfterLine, PunctLen, PunctOf, WordLen, NumberLen, QuoteLen;
  }

  lemma {:induction false} NumberScanned(t: string, space: bool, n: nat)
    requires t != [] && (Digit(t[0]) || (t[0] == '.' && |t| > 1 && Digit(t[1]))) && LongestNumber(t, n)
    ensures Scan(t, space) == Lexeme(Number, t[..n], space, t[n..])
  {
    NumberLongest(t);
    assert !(NumberLen(t) < n) && !(n < NumberLen(t));
    hide AfterBlock, AfterLine, PunctLen, PunctOf, WordLen, NumberLen, QuoteLen, PpNumber;
  }

  lemma {:induction false} LiteralScanned(t: string, space: bool, k: int)
    requires t != [] && (t[0] == '"' || t[0] == '\'')
    ensures FirstQuote(t[1..], t[0], k) ==>
              Scan(t, space) == Lexeme(if t[0] == '"' then Str else CharConst, t[..k + 2], space, t[k + 2..])
    ensures (forall j :: !FirstQuote(t[1..], t[0], j)) ==> Scan(t, space) == Unterminated
  {
    QuoteEnds(t[1..], t[0]);
    hide AfterBlock, AfterLine, PunctLen, PunctOf, WordLen, NumberLen, QuoteLen;
  }

  lemma {:induction false} PunctScanned(t: string, space: bool, n: nat)
    requires t != [] && Graphic(t[0]) && LongestPunct(t, n)
    requires |t| > 1 ==> !(t[0] == '.' && Digit(t[1])) && !(t[0] == '/' && (t[1] == '/' || t[1] == '*'))
    ensures Scan(t, space) == Lexeme(Punctuator(PunctOf(t[..n]).value), t[..n], space, t[n..])
  {
    GraphicPunct(t[0]);
    hide Graphic;
    PunctLongest(t, 1);
    assert t[..1][0] == t[0];
    if n > 0 { PunctLongest(t, n); }
    assert n == PunctLen(t);
    hide AfterBlock, AfterLine, PunctLen, PunctOf, WordLen, NumberLen, QuoteLen;
  }

  lemma {:induction false} NewlineScanned(t: string, space: bool)
    ensures Scan("\n" + t, space) == Lexeme(Newline, [], space, t) && Scan([], space) == Lexeme(End, [], space, [])
  {
    assert ("\n" + t)[1..] == t;
    hide AfterBlock, AfterLine, PunctLen, PunctOf, WordLen, NumberLen, QuoteLen;
  }
}
