/** Tables of object-like macros without ## : expansion is the textbook
    definition "replace a name that is not hidden by its replacement list,
    expanded with that name hidden". */
module ObjectMacros {
  import opened Wrappers
  import opened Tokens
  import opened MacroArgs
  import opened Substitution
  import opened Prescan
  import opened Expansion
  import opened ExpansionLemmas
  import opened Lines

  predicate ObjectEnv(env: Env) {
    && Lists(env, Loose) && ObjectLike(env)
    && forall n :: n in env.table ==> NoOperators(env.table[n])
  }

  /** The textbook definition. */
  ghost function Replaced(env: Env, hidden: set<Name>, s: seq<Token>): seq<Token>
    decreases Enabled(env, hidden), |s|
  {
    if s == [] then []
    else
      var t := s[0];
      var rest := Replaced(env, hidden, s[1..]);
      if t.kind != Identifier || t.flags.noexpand || t.text !in env.table then [t] + rest
      else if t.text in hidden then [Painted(t)] + rest
      else
        EnabledDrops(env, hidden, t.text);
        Replaced(env, hidden + {t.text}, Headed(env.table[t.text].body, t)) + rest
  }

  /** Painting occurrences of a hidden name in advance makes no difference. */
  lemma {:induction false} ReplacedSelf(env: Env, hidden: set<Name>, a: seq<Token>, b: seq<Token>)
    requires |a| == |b|
    requires forall i :: 0 <= i < |a| ==>
               a[i] == b[i] || (a[i].kind == Identifier && a[i].text in hidden && a[i].text in env.table
                                && b[i] == Painted(a[i]))
    ensures Replaced(env, hidden, a) == Replaced(env, hidden, b)
  {
    if a != [] {
      ReplacedSelf(env, hidden, a[1..], b[1..]);
    }
  }

  function SelfPainted(mtk: Token, t: Token): Token {
    if t.kind == Identifier && t.text == mtk.text then Painted(t) else t
  }

  lemma {:induction false} ImagesNoArgs(m: Macro, mtk: Token, s: seq<Token>)
    ensures |Images(m, mtk, [], s)| == |s|
    ensures forall i :: 0 <= i < |s| ==> Images(m, mtk, [], s)[i] == SelfPainted(mtk, s[i])
  {
    if s != [] {
      ImagesNoArgs(m, mtk, s[1..]);
    }
  }

  lemma {:induction false} LevelReplaces(env: Env, d: set<Name>, x: seq<Token>, end: seq<Token>)
    requires ObjectEnv(env) && NoSentinel(x) && AtEnd(end)
    ensures var r := Level(env, d, x + end); r.ok && r.dangle.None? && r.out == Replaced(env, d, x)
    decreases Enabled(env, d), |x|
  {
    var s := x + end;
    if x == [] {
      assert s == end;
    } else {
      assert s[1..] == x[1..] + end;
      LevelReplaces(env, d, x[1..], end);
      match Judge(env, d, s[0])
      case Keep =>
      case Paint =>
      case Open(m) => OpenReplaces(env, d, x, end, m);
    }
  }

  lemma {:induction false} OpenReplaces(env: Env, d: set<Name>, x: seq<Token>, end: seq<Token>, m: Macro)
    requires ObjectEnv(env) && NoSentinel(x) && AtEnd(end) && x != []
    requires Judge(env, d, x[0]) == Open(m)
    requires var r := Level(env, d, x[1..] + end); r.ok && r.dangle.None? && r.out == Replaced(env, d, x[1..])
    ensures var r := Level(env, d, x + end); r.ok && r.dangle.None? && r.out == Replaced(env, d, x)
    decreases Enabled(env, d), |x|, 0
  {
    var t := x[0];
    var b := Headed(Images(m, t, [], m.body), t);
    OpenBody(env, t, m);
    EnabledDrops(env, d, t.text);
    LevelReplaces(env, d + {t.text}, b, [EomOf(t.text)]);
    BodyReplaced(env, d + {t.text}, t, m);
    OpenJoins(env, d, x, end, m, b);
  }

  lemma {:induction false} OpenJoins(env: Env, d: set<Name>, x: seq<Token>, end: seq<Token>, m: Macro, b: seq<Token>)
    requires NoSentinel(x) && x != [] && Judge(env, d, x[0]) == Open(m) && Subst(env.lexis, m, x[0], []) == Some(b)
    requires var r := Level(env, d, x[1..] + end); r.ok && r.dangle.None? && r.out == Replaced(env, d, x[1..])
    requires var a := Level(env, d + {x[0].text}, b + [EomOf(x[0].text)]);
             a.ok && a.dangle.None? && a.out == Replaced(env, d + {x[0].text}, Headed(m.body, x[0]))
    ensures var r := Level(env, d, x + end); r.ok && r.dangle.None? && r.out == Replaced(env, d, x)
  {
    hide Level, Replaced;
    var s := x + end;
    assert s[0] == x[0] && s[1..] == x[1..] + end;
    LevelOpen(env, d, s, m, b);
    ReplacedOpen(env, d, x);
  }

  lemma {:induction false} BodyReplaced(env: Env, d: set<Name>, t: Token, m: Macro)
    requires ObjectEnv(env) && t.text in env.table && m == env.table[t.text] && t.kind == Identifier
             && !t.flags.noexpand
    requires t.text in d
    ensures Replaced(env, d, Headed(m.body, t)) == Replaced(env, d, Headed(Images(m, t, [], m.body), t))
  {
    OpenBody(env, t, m);
    ReplacedSelf(env, d, Headed(m.body, t), Headed(Images(m, t, [], m.body), t));
  }

  lemma {:induction false} ReplacedOpen(env: Env, d: set<Name>, x: seq<Token>)
    requires x != [] && Judge(env, d, x[0]).Open?
    ensures Replaced(env, d, x)
         == Replaced(env, d + {x[0].text}, Headed(env.table[x[0].text].body, x[0])) + Replaced(env, d, x[1..])
  {
    EnabledDrops(env, d, x[0].text);
  }

  lemma {:induction false} LevelOpen(env: Env, d: set<Name>, s: seq<Token>, m: Macro, b: seq<Token>)
    requires !AtEnd(s) && Judge(env, d, s[0]) == Open(m) && Subst(env.lexis, m, s[0], []) == Some(b)
    requires var a := Level(env, d + {s[0].text}, b + [EomOf(s[0].text)]); a.ok && a.dangle.None?
    ensures Level(env, d, s)
            == Tick(1, Then(Level(env, d + {s[0].text}, b + [EomOf(s[0].text)]), Level(env, d, s[1..])))
  {
    var n := s[0].text;
    EnabledDrops(env, d, n);
    var a := Level(env, d + {n}, b + [EomOf(n)]);
    assert Resume(env, d, a.dangle, s[1..]) == Level(env, d, s[1..]);
    assert Inside(env, d, n, b, s[1..], |s|) == Then(a, Level(env, d, s[1..]));
  }

  lemma {:induction false} OpenBody(env: Env, t: Token, m: Macro)
    requires ObjectEnv(env) && t.text in env.table && m == env.table[t.text] && t.kind == Identifier
             && !t.flags.noexpand
    ensures var b := Headed(Images(m, t, [], m.body), t);
            && Subst(env.lexis, m, t, []) == Some(b)
            && NoSentinel(b)
            && |b| == |m.body|
            && forall i :: 0 <= i < |b| ==> b[i] == SelfPainted(t, Headed(m.body, t)[i])
  {
    SubstSimultaneous(env.lexis, m, t, []);
    ImagesNoArgs(m, t, m.body);
    ProfPlain(m.body);
  }

  /** Expansion of a text agrees with the textbook definition and never fails. */
  lemma {:induction false} ExpandedIsReplaced(env: Env, text: seq<Token>)
    requires ObjectEnv(env) && NoSentinel(text)
    ensures Expanded(env, text).ok && Expanded(env, text).out == Replaced(env, {}, text)
  {
    LevelReplaces(env, {}, text, []);
    assert text + [] == text;
  }

  /** No name ever waits for the next line, so every line ends alone. */
  lemma {:induction false} ObjectLine(env: Env, line: seq<Token>)
    requires ObjectEnv(env) && NoSentinel(line)
    ensures EndsAlone(env, line) && Expanded(env, line).out == Replaced(env, {}, line)
  {
    LevelReplaces(env, {}, line, []);
    assert line + [] == line;
  }

  lemma {:induction false} ReplacedNoSentinel(env: Env, hidden: set<Name>, s: seq<Token>)
    requires ObjectEnv(env) && NoSentinel(s)
    ensures NoSentinel(Replaced(env, hidden, s))
    decreases Enabled(env, hidden), |s|
  {
    if s != [] {
      var t := s[0];
      ReplacedNoSentinel(env, hidden, s[1..]);
      if Judge(env, hidden, t).Open? {
        var m := env.table[t.text];
        EnabledDrops(env, hidden, t.text);
        ProfPlain(m.body);
        ReplacedNoSentinel(env, hidden + {t.text}, Headed(m.body, t));
        ReplacedOpen(env, hidden, s);
      }
    }
  }

  lemma {:induction false} ReplacedFixed(env: Env, s: seq<Token>)
    requires ObjectEnv(env) && Exhausted(env, s)
    ensures Replaced(env, {}, s) == s
  {
    if s != [] {
      assert !Judge(env, {}, s[0]).Open?;
      ReplacedFixed(env, s[1..]);
      assert s == [s[0]] + s[1..];
    }
  }

  /** Expanding an expanded text changes nothing. */
  lemma {:induction false} ExpandedTwice(env: Env, text: seq<Token>)
    requires ObjectEnv(env) && NoSentinel(text)
    ensures var out := Expanded(env, text).out; Expanded(env, out).ok && Expanded(env, out).out == out
  {
    var out := Expanded(env, text).out;
    ExpandedIsReplaced(env, text);
    ReplacedNoSentinel(env, {}, text);
    ExpandedExhausted(env, text);
    ExpandedIsReplaced(env, out);
    ReplacedFixed(env, out);
  }
}
