/** Preprocessing tokens as the macro engine sees them, and the parenthesis
    profile of a token list. */
module Tokens {

  type Name = string

  /** The kinds the engine branches on; every other kind of token is Other. */
  datatype Kind =
    | Identifier | LParen | RParen | Comma | Hash | Paste | Newline | Other
    | Eom | Eoa | Eof

  /** The flags the engine reads or changes. */
  datatype Flags = Flags(bol: bool, noexpand: bool, space: bool)

  /** For Identifier the text is the name, for Eom it names the macro whose
      replacement list ends here. */
  datatype Token = Token(kind: Kind, text: string, flags: Flags)

  const PLAIN := Flags(false, false, false)

  function EomOf(m: Name): Token { Token(Eom, m, PLAIN) }

  const EOA := Token(Eoa, "", PLAIN)
  const EOF := Token(Eof, "", PLAIN)

  predicate Sentinel(t: Token) { t.kind in {Eom, Eoa, Eof} }

  predicate NoSentinel(s: seq<Token>) { forall i :: 0 <= i < |s| ==> !Sentinel(s[i]) }

  /** Tokens that may stand in a replacement list or in an argument. */
  predicate PlainToken(t: Token) { !Sentinel(t) && t.kind != Newline }

  predicate Plain(s: seq<Token>) { forall i :: 0 <= i < |s| ==> PlainToken(s[i]) }

  /** Nothing more can be read from this token list. */
  predicate AtEnd(s: seq<Token>) { s == [] || Sentinel(s[0]) }

  function SkipNl(s: seq<Token>): (r: seq<Token>)
    ensures |r| <= |s|
    ensures NoSentinel(s) ==> NoSentinel(r)
    ensures s != [] && s[0].kind != Newline ==> r == s
    ensures r != [] ==> r[0].kind != Newline
  {
    if s != [] && s[0].kind == Newline then SkipNl(s[1..]) else s
  }

  // -------------------------------------------------------------------
  // The profile of a token list: unmatched ')', unmatched '(', and whether
  // every token is plain.
  // -------------------------------------------------------------------

  datatype Profile = Profile(closers: nat, openers: nat, plain: bool)

  const NEUTRAL := Profile(0, 0, true)

  function Join(a: Profile, b: Profile): Profile {
    if a.openers >= b.closers then Profile(a.closers, a.openers - b.closers + b.openers, a.plain && b.plain)
    else Profile(a.closers + b.closers - a.openers, b.openers, a.plain && b.plain)
  }

  function Prof1(t: Token): Profile {
    Profile(if t.kind == RParen then 1 else 0, if t.kind == LParen then 1 else 0, PlainToken(t))
  }

  function Prof(s: seq<Token>): Profile {
    if s == [] then NEUTRAL else Join(Prof1(s[0]), Prof(s[1..]))
  }

  /** Plain tokens only, with every parenthesis matched. */
  predicate Clean(s: seq<Token>) { Prof(s) == NEUTRAL }

  /** What may be asked of lists of plain tokens: that parentheses match, that
      no '(' is left unmatched, or nothing more. */
  datatype Rule = Matched | Shut | Loose

  /** The profile p is q as far as the rule goes; under Shut it may close more. */
  predicate Keeps(rule: Rule, p: Profile, q: Profile) {
    match rule
    case Matched => p == q
    case Shut => p.plain == q.plain && p.closers >= q.closers && p.openers <= q.openers
    case Loose => p.plain == q.plain
  }

  predicate Obeys(rule: Rule, s: seq<Token>) { Keeps(rule, Prof(s), NEUTRAL) }

  lemma {:induction false} JoinKeeps(rule: Rule, a: Profile, b: Profile, p: Profile, q: Profile)
    requires Keeps(rule, a, p) && Keeps(rule, b, q)
    ensures Keeps(rule, Join(a, b), Join(p, q))
  {
  }

  lemma {:induction false} JoinAssoc(a: Profile, b: Profile, c: Profile)
    ensures Join(Join(a, b), c) == Join(a, Join(b, c))
  {
  }

  lemma {:induction false} ProfConcat(a: seq<Token>, b: seq<Token>)
    ensures Prof(a + b) == Join(Prof(a), Prof(b))
  {
    if a == [] {
      assert a + b == b;
    } else {
      ProfConcat(a[1..], b);
      assert (a + b)[1..] == a[1..] + b;
      JoinAssoc(Prof1(a[0]), Prof(a[1..]), Prof(b));
    }
  }

  lemma {:induction false} ProfCons(t: Token, s: seq<Token>)
    ensures Prof([t] + s) == Join(Prof1(t), Prof(s))
  {
    assert ([t] + s)[1..] == s;
  }

  lemma {:induction false} ProfNone()
    ensures Prof([]) == NEUTRAL
  {
  }

  lemma {:induction false} ProfOne(t: Token)
    ensures Prof([t]) == Prof1(t)
  {
    assert [t][1..] == [];
  }

  lemma {:induction false} ProfSnoc(s: seq<Token>, t: Token)
    ensures Prof(s + [t]) == Join(Prof(s), Prof1(t))
  {
    ProfConcat(s, [t]);
    assert [t][1..] == [];
  }

  lemma {:induction false} JoinUnit(a: Profile)
    ensures Join(NEUTRAL, a) == a == Join(a, NEUTRAL)
  {
  }

  /** Changing flags or texts does not change the profile. */
  lemma {:induction false} ProfKinds(a: seq<Token>, b: seq<Token>)
    requires |a| == |b| && forall i :: 0 <= i < |a| ==> a[i].kind == b[i].kind
    ensures Prof(a) == Prof(b)
  {
    if a != [] {
      ProfKinds(a[1..], b[1..]);
    }
  }

  lemma {:induction false} ProfPlain(s: seq<Token>)
    ensures Prof(s).plain <==> Plain(s)
  {
    if s != [] {
      ProfPlain(s[1..]);
      if Plain(s[1..]) && PlainToken(s[0]) {
        forall i | 0 <= i < |s| ensures PlainToken(s[i]) {
          if i > 0 {
            assert s[i] == s[1..][i - 1];
          }
        }
      }
    }
  }
}
