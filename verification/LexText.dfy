/** The reference lexer: it runs on a text from which every backslash-newline
    has been deleted beforehand (translation phase 2 of section 5.1.1.2 of
    ISO/IEC 9899:2011), so it knows nothing of line continuations. */
module LexText {
  import opened Wrappers

  // -------------------------------------------------------------------
  // Character classes (ctype.h).
  // -------------------------------------------------------------------

  predicate IsDigit(c: char) { '0' <= c <= '9' }
  predicate IsOctal(c: char) { '0' <= c <= '7' }
  predicate IsHex(c: char) { IsDigit(c) || 'a' <= c <= 'f' || 'A' <= c <= 'F' }
  predicate IsAlpha(c: char) { 'a' <= c <= 'z' || 'A' <= c <= 'Z' }
  predicate IsAlnum(c: char) { IsAlpha(c) || IsDigit(c) }
  predicate IsWord(c: char) { IsAlnum(c) || c == '_' }
  predicate IsSpace(c: char) { c == ' ' || 9 as char <= c <= 13 as char }
  predicate IsPunct(c: char) { 33 as char <= c <= 126 as char && !IsAlnum(c) }
  predicate IsExponent(c: char) { c in {'e', 'E', 'p', 'P'} }
  predicate IsSign(c: char) { c == '+' || c == '-' }

  // -------------------------------------------------------------------
  // Punctuators (section 6.4.6), digraphs with the kind they stand for.
  // -------------------------------------------------------------------

  datatype Punct =
    | One(c: char)
    | Elipsis | Lshift | Rshift | Incr | Decr | Arrow | And | Or | Eq | Ne | Le | Ge
    | AsgAdd | AsgSub | AsgMul | AsgDiv | AsgMod | AsgLshift | AsgRshift | AsgBand | AsgBxor | AsgBor
    | Paste

  function Punct2(a: char, b: char): Option<Punct> {
    match a
    case '+' => if b == '+' then Some(Incr) else if b == '=' then Some(AsgAdd) else None
    case '-' =>
      if b == '-' then Some(Decr) else if b == '=' then Some(AsgSub) else if b == '>' then Some(Arrow) else None
    case '*' => if b == '=' then Some(AsgMul) else None
    case '/' => if b == '=' then Some(AsgDiv) else None
    case '%' =>
      if b == '=' then Some(AsgMod)
      else if b == '>' then Some(One('}'))
      else if b == ':' then Some(One('#'))
      else None
    case '&' => if b == '&' then Some(And) else if b == '=' then Some(AsgBand) else None
    case '|' => if b == '|' then Some(Or) else if b == '=' then Some(AsgBor) else None
    case '=' => if b == '=' then Some(Eq) else None
    case '!' => if b == '=' then Some(Ne) else None
    case '^' => if b == '=' then Some(AsgBxor) else None
    case '#' => if b == '#' then Some(Paste) else None
    case ':' => if b == '>' then Some(One(']')) else None
    case '<' =>
      if b == '<' then Some(Lshift)
      else if b == '=' then Some(Le)
      else if b == ':' then Some(One('['))
      else if b == '%' then Some(One('{'))
      else None
    case '>' => if b == '>' then Some(Rshift) else if b == '=' then Some(Ge) else None
    case _ => None
  }

  function Punct3(a: char, b: char, c: char): Option<Punct> {
    if a == '<' && b == '<' && c == '=' then Some(AsgLshift)
    else if a == '>' && b == '>' && c == '=' then Some(AsgRshift)
    else if a == '.' && b == '.' && c == '.' then Some(Elipsis)
    else None
  }

  function Punct4(a: char, b: char, c: char, d: char): Option<Punct> {
    if a == '%' && b == ':' && c == '%' && d == ':' then Some(Paste) else None
  }

  /** What a whole spelling stands for, if it is a punctuator. */
  function PunctOf(s: string): Option<Punct> {
    if |s| == 1 && IsPunct(s[0]) then Some(One(s[0]))
    else if |s| == 2 then Punct2(s[0], s[1])
    else if |s| == 3 then Punct3(s[0], s[1], s[2])
    else if |s| == 4 then Punct4(s[0], s[1], s[2], s[3])
    else None
  }

  /** Length of the longest punctuator t begins with. */
  function PunctLen(t: string): (n: nat)
    requires t != []
    ensures 1 <= n <= |t|
  {
    if |t| >= 4 && Punct4(t[0], t[1], t[2], t[3]).Some? then 4
    else if |t| >= 3 && Punct3(t[0], t[1], t[2]).Some? then 3
    else if |t| >= 2 && Punct2(t[0], t[1]).Some? then 2
    else 1
  }

  /** Maximal munch, paragraph 4 of section 6.4: a prefix of t that is a
      punctuator is never longer than the one taken. */
  lemma {:induction false} PunctLongest(t: string, n: nat)
    requires t != [] && IsPunct(t[0]) && n <= |t| && PunctOf(t[..n]).Some?
    ensures n <= PunctLen(t) && PunctOf(t[..PunctLen(t)]).Some?
  {
    var k := PunctLen(t);
    assert t[..k][0] == t[0];
  }

  // -------------------------------------------------------------------
  // Lengths of the other tokens.
  // -------------------------------------------------------------------

  /** Number of leading word characters. */
  function WordLen(t: string): (n: nat)
    ensures n <= |t|
  {
    if t != [] && IsWord(t[0]) then 1 + WordLen(t[1..]) else 0
  }

  /** Length of the longest continuation of a pp-number (section 6.4.8). */
  function NumberLen(t: string): (n: nat)
    ensures n <= |t|
  {
    if t == [] then 0
    else if IsExponent(t[0]) && |t| > 1 && IsSign(t[1]) then 2 + NumberLen(t[2..])
    else if t[0] == '.' || IsWord(t[0]) then 1 + NumberLen(t[1..])
    else 0
  }

  /** Length up to and including the closing quote q; a backslash takes the
      quote or backslash after it along. */
  function QuoteLen(t: string, q: char): (n: Option<nat>)
    ensures n.Some? ==> 0 < n.value <= |t|
  {
    if t == [] then None
    else if t[0] == q then Some(1)
    else if t[0] == '\n' then None
    else
      var k := if t[0] == '\\' && |t| > 1 && t[1] in {'"', '\\', '\''} then 2 else 1;
      match QuoteLen(t[k..], q)
      case None => None
      case Some(n) => Some(k + n)
  }

  /** What follows a // comment: its newline. */
  function AfterLine(t: string): (r: Option<string>)
    ensures r.Some? ==> |r.value| <= |t|
  {
    if t == [] then None else if t[0] == '\n' then Some(t) else AfterLine(t[1..])
  }

  /** What follows the end of a block comment; star tells whether a * precedes. */
  function AfterBlock(t: string, star: bool): (r: Option<string>)
    ensures r.Some? ==> |r.value| <= |t|
  {
    if t == [] then None
    else if t[0] == '/' && star then Some(t[1..])
    else AfterBlock(t[1..], t[0] == '*')
  }

  // -------------------------------------------------------------------
  // Tokens.
  // -------------------------------------------------------------------

  datatype Kind = Newline | Ident | Number | Str | CharConst | Punctuator(p: Punct) | End

  /** A token with its spelling, whether white space precedes it, and the text
      behind it; or the diagnosed errors. */
  datatype Lexeme =
    | Lexeme(kind: Kind, text: string, space: bool, rest: string)
    | Unterminated
    | UnknownChar

  function Taken(kind: Kind, t: string, n: nat, space: bool): Lexeme
    requires n <= |t|
  {
    Lexeme(kind, t[..n], space, t[n..])
  }

  /** The next token of a text without line continuations. */
  function Scan(t: string, space: bool): (r: Lexeme)
    ensures r.Lexeme? && r.kind != End ==> |r.rest| < |t|
    decreases |t|
  {
    if t == [] then Lexeme(End, [], space, [])
    else if t[0] == '/' && |t| > 1 && t[1] == '/' then
      match AfterLine(t[2..])
      case None => Unterminated
      case Some(r) => Scan(r, true)
    else if t[0] == '/' && |t| > 1 && t[1] == '*' then
      match AfterBlock(t[2..], false)
      case None => Unterminated
      case Some(r) => Scan(r, true)
    else if t[0] == '\n' then Lexeme(Newline, [], space, t[1..])
    else if IsSpace(t[0]) then Scan(t[1..], true)
    else if IsAlpha(t[0]) || t[0] == '_' then Taken(Ident, t, WordLen(t), space)
    else if IsDigit(t[0]) || (t[0] == '.' && |t| > 1 && IsDigit(t[1])) then Taken(Number, t, NumberLen(t), space)
    else if t[0] == '"' || t[0] == '\'' then
      match QuoteLen(t[1..], t[0])
      case None => Unterminated
      case Some(n) => Taken(if t[0] == '"' then Str else CharConst, t, 1 + n, space)
    else if IsPunct(t[0]) then
      var n := PunctLen(t);
      match PunctOf(t[..n])
      case Some(p) => Taken(Punctuator(p), t, n, space)
      case None => UnknownChar
    else UnknownChar
  }

  /** All tokens up to the end of the text, or up to the first error. */
  datatype Lexed = Lexed(ok: bool, tokens: seq<(Kind, string, bool)>)

  function ScanAll(t: string): Lexed
    decreases |t|
  {
    match Scan(t, false)
    case Unterminated => Lexed(false, [])
    case UnknownChar => Lexed(false, [])
    case Lexeme(kind, text, space, rest) =>
      if kind == End then Lexed(true, [])
      else
        var l := ScanAll(rest);
        Lexed(l.ok, [(kind, text, space)] + l.tokens)
  }
}
