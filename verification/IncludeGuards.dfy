/** The include-guard shortcut: leaving out a file whose guard is recorded
    changes nothing, and when entries stay tied to live macros. */
module IncludeGuards {
  import opened Wrappers
  import opened Conditionals
  import opened CondMachine

  function Slow(env: Env): Env { env.(fast := false) }
  function Fast(env: Env): Env { env.(fast := true) }

  /** Every entry is for a file of the shape of a guarded file, and names its
      guard. */
  predicate Shaped(env: Env, w: World) {
    forall p :: p in w.guarded ==> p in env.files && GuardOfLines(env.files[p]) == Some(w.guarded[p].0)
  }

  /** Every entry moreover is usable: its guard is a defined macro, flagged, and
      last defined in the very file it guards. */
  predicate GuardsTied(env: Env, w: World) { Shaped(env, w) && forall p :: p in w.guarded ==> Hit(w, p) }

  /** In every recording the macro had last been defined in the file itself. */
  predicate OwnRecords(records: seq<(Path, Path)>) {
    forall i :: 0 <= i < |records| ==> records[i].0 == records[i].1
  }

  // -------------------------------------------------------------------
  // What single directives do to the entries.
  // -------------------------------------------------------------------

  lemma {:induction false} DefinedShaped(env: Env, w: World, n: Name, body: string, file: Path)
    requires Shaped(env, w)
    ensures Shaped(env, Defined(w, n, body, file))
  {
    var w' := Defined(w, n, body, file);
    assert forall p :: p in w'.guarded ==> p in w.guarded && w'.guarded[p] == w.guarded[p];
  }

  lemma {:induction false} UndefinedShaped(env: Env, w: World, n: Name)
    requires Shaped(env, w)
    ensures Shaped(env, Undefined(w, n))
  {
    var w' := Undefined(w, n);
    assert forall p :: p in w'.guarded ==> p in w.guarded && w'.guarded[p] == w.guarded[p];
  }

  lemma {:induction false} DefinedTied(env: Env, w: World, n: Name, body: string, file: Path)
    requires GuardsTied(env, w)
    ensures GuardsTied(env, Defined(w, n, body, file))
  {
    var w' := Defined(w, n, body, file);
    DefinedShaped(env, w, n, body, file);
    forall p | p in w'.guarded ensures Hit(w', p) {
      assert p in w.guarded && Hit(w, p);
    }
  }

  lemma {:induction false} UndefinedTied(env: Env, w: World, n: Name)
    requires GuardsTied(env, w)
    ensures GuardsTied(env, Undefined(w, n))
  {
    var w' := Undefined(w, n);
    UndefinedShaped(env, w, n);
    forall p | p in w'.guarded ensures Hit(w', p) {
      assert p in w.guarded && Hit(w, p);
    }
  }

  lemma {:induction false} RecordedTied(env: Env, w: World, p: Path, n: Name)
    requires Shaped(env, w) && p in env.files && GuardOfLines(env.files[p]) == Some(n)
    ensures Shaped(env, Recorded(w, p, n))
    ensures GuardsTied(env, w) && (n in w.macros ==> w.macros[n].file == p) ==> GuardsTied(env, Recorded(w, p, n))
  {
    var w' := Recorded(w, p, n);
    if GuardsTied(env, w) && (n in w.macros ==> w.macros[n].file == p) {
      forall q | q in w'.guarded ensures Hit(w', q) {
        if q != p {
          assert q in w.guarded && Hit(w, q);
        }
      }
    }
  }

  lemma {:induction false} SameTied(env: Env, w: World, w': World)
    requires w'.macros == w.macros && w'.guarded == w.guarded
    ensures Shaped(env, w) ==> Shaped(env, w')
    ensures GuardsTied(env, w) ==> GuardsTied(env, w')
  {
    if GuardsTied(env, w) {
      forall p | p in w'.guarded ensures Hit(w', p) {
        assert p in w.guarded && Hit(w, p);
      }
    }
  }

  /** After #undef an entry survives exactly when its macro was last defined in
      another file, and then it points to no macro any more. */
  lemma {:induction false} UndefStale(w: World, p: Path)
    requires Live(w, p) && w.macros[w.guarded[p].0].guard
    ensures var n := w.guarded[p].0;
            var w' := Undefined(w, n);
            (p in w'.guarded <==> w.macros[n].file != p) && !Live(w', p)
  {
  }

  /** The same for a redefinition: the entry survives exactly then, without the
      flag that would let it be used. */
  lemma {:induction false} RedefineStale(w: World, p: Path, body: string, file: Path)
    requires Live(w, p) && w.macros[w.guarded[p].0].guard && w.macros[w.guarded[p].0].body != body
    ensures var n := w.guarded[p].0;
            var w' := Defined(w, n, body, file);
            (p in w'.guarded <==> w.macros[n].file != p) && !Hit(w', p)
  {
  }

  // -------------------------------------------------------------------
  // A guarded file read again.
  // -------------------------------------------------------------------

  lemma {:induction false} GuardedNothing(env: Env, file: Path, depth: nat, items: Items, n: Name, w: World)
    requires GuardOf(items) == Some(n) && n in w.macros
    ensures Exec(env, file, depth, items, w) == Some(w)
    decreases items
  {
    if items.Plain? {
      assert ExecLine(env, file, depth, Blank, w) == Some(w);
      GuardedNothing(env, file, depth, items.tail, n, w);
    } else {
      assert ExecParts(env, file, depth, items.parts, false, false, w) == Some(w);
      assert ExecSection(env, file, depth, items, w) == Some(w);
      BlankExec(env, file, depth, items.tail, w);
    }
  }

  /** Where an entry still points to its macro, and so wherever the shortcut
      leaves a file out, reading the file in full puts nothing out and changes
      no macro and no entry, whatever has become of other entries. */
  lemma {:induction false} ShortcutSound(env: Env, p: Path, depth: nat, w: World)
    requires Shaped(env, w) && Live(w, p)
    ensures p in env.files && ExecFile(env, p, depth, w) == Some(w)
  {
    GuardedNothing(env, p, depth, Nest(env.files[p]).value, w.guarded[p].0, w);
  }

  // -------------------------------------------------------------------
  // Whole runs with and without the shortcut.
  // -------------------------------------------------------------------

  /** Recordings are never forgotten. */
  predicate Grows(w: World, r: Option<World>) { r.Some? ==> w.records <= r.value.records }

  lemma {:induction false} ExecGrows(env: Env, file: Path, depth: nat, items: Items, w: World)
    ensures Grows(w, Exec(env, file, depth, items, w))
    decreases Fuel(depth), 1, items, 1
  {
    match items
    case Nil =>
    case Plain(l, tail) =>
      LineGrows(env, file, depth, l, w);
      if ExecLine(env, file, depth, l, w).Some? {
        ExecGrows(env, file, depth, tail, ExecLine(env, file, depth, l, w).value);
      }
    case Section(_, body, parts, _, tail) =>
      SectionGrows(env, file, depth, items, w);
      if ExecSection(env, file, depth, items, w).Some? {
        ExecGrows(env, file, depth, tail, ExecSection(env, file, depth, items, w).value);
      }
  }

  lemma {:induction false} SectionGrows(env: Env, file: Path, depth: nat, sec: Items, w: World)
    requires sec.Section?
    ensures Grows(w, ExecSection(env, file, depth, sec, w))
    decreases Fuel(depth), 1, sec, 0
  {
    if Tested(env, sec.s, w).Some? {
      var (b, w1) := Tested(env, sec.s, w).value;
      ExecGrows(env, file, depth, sec.body, w1);
      var r := if b then Exec(env, file, depth, sec.body, w1) else Some(w1);
      if r.Some? {
        PartsGrows(env, file, depth, sec.parts, b, false, r.value);
      }
    }
  }

  lemma {:induction false} PartsGrows(env: Env, file: Path, depth: nat, parts: Parts, taken: bool, elseTaken: bool,
                                      w: World)
    ensures Grows(w, ExecParts(env, file, depth, parts, taken, elseTaken, w))
    decreases Fuel(depth), 1, parts, 0
  {
    match parts
    case NoPart =>
    case PElif(e, body, rest) =>
      PartsGrows(env, file, depth, rest, true, false, w);
      if TestedExpr(env, e, w).Some? {
        var (b, w1) := TestedExpr(env, e, w).value;
        ExecGrows(env, file, depth, body, w1);
        var r := if b then Exec(env, file, depth, body, w1) else Some(w1);
        if r.Some? {
          PartsGrows(env, file, depth, rest, b, false, r.value);
        }
      }
    case PElse(_, body, rest) =>
      PartsGrows(env, file, depth, rest, true, false, w);
      ExecGrows(env, file, depth, body, w);
      if Exec(env, file, depth, body, w).Some? {
        PartsGrows(env, file, depth, rest, true, true, Exec(env, file, depth, body, w).value);
      }
  }

  lemma {:induction false} LineGrows(env: Env, file: Path, depth: nat, l: Line, w: World)
    ensures Grows(w, ExecLine(env, file, depth, l, w))
    decreases Fuel(depth), 0
  {
    if l.Include? && depth < INCLUDE_MAX && l.p in env.files {
      FileGrows(env, l.p, depth + 1, w);
    }
  }

  lemma {:induction false} FileGrows(env: Env, p: Path, depth: nat, w: World)
    requires p in env.files
    ensures Grows(w, ExecFile(env, p, depth, w))
    decreases Fuel(depth), 2
  {
    var nest := Nest(env.files[p]);
    if nest.Some? { ExecGrows(env, p, depth, nest.value, w); }
  }

  /** A run that ends well, with every guard recorded for a macro of its file. */
  predicate Fine(r: Option<World>) { r.Some? && OwnRecords(r.value.records) }

  /** Two runs from w.  If the one with the shortcut ends well they are the
      same; and they are if the one without it is fine and began with all
      entries tied, which they then still are. */
  predicate Agreed(env: Env, w: World, fast: Option<World>, slow: Option<World>) {
    && (fast.Some? ==> fast == slow && Shaped(env, fast.value))
    && (GuardsTied(env, w) && Fine(slow) ==> fast == slow && GuardsTied(env, slow.value))
  }

  lemma {:induction false} FinePrefix(w: World, r: Option<World>)
    requires Grows(w, r) && Fine(r)
    ensures OwnRecords(w.records)
  {
    forall i | 0 <= i < |w.records| ensures w.records[i].0 == w.records[i].1 {
      assert w.records[i] == r.value.records[i];
    }
  }

  lemma {:induction false} ExecAgreed(env: Env, file: Path, depth: nat, items: Items, w: World)
    requires Shaped(env, w)
    ensures Agreed(env, w, Exec(Fast(env), file, depth, items, w), Exec(Slow(env), file, depth, items, w))
    decreases Fuel(depth), 1, items, 1
  {
    match items
    case Nil =>
    case Plain(l, tail) =>
      LineAgreed(env, file, depth, l, w);
      var fast, slow := ExecLine(Fast(env), file, depth, l, w), ExecLine(Slow(env), file, depth, l, w);
      TailAgreed(env, file, depth, tail, w, fast, slow);
    case Section(_, body, parts, _, tail) =>
      SectionAgreed(env, file, depth, items, w);
      var fast, slow := ExecSection(Fast(env), file, depth, items, w), ExecSection(Slow(env), file, depth, items, w);
      TailAgreed(env, file, depth, tail, w, fast, slow);
  }

  function After(env: Env, file: Path, depth: nat, tail: Items, r: Option<World>): Option<World> {
    match r case None => None case Some(w) => Exec(env, file, depth, tail, w)
  }

  lemma {:induction false} TailAgreed(env: Env, file: Path, depth: nat, tail: Items, w: World,
                                      fast: Option<World>, slow: Option<World>)
    requires Agreed(env, w, fast, slow)
    ensures Agreed(env, w, After(Fast(env), file, depth, tail, fast), After(Slow(env), file, depth, tail, slow))
    decreases Fuel(depth), 1, tail, 2
  {
    var s := After(Slow(env), file, depth, tail, slow);
    if fast.Some? {
      ExecAgreed(env, file, depth, tail, fast.value);
    }
    if GuardsTied(env, w) && Fine(s) {
      ExecGrows(Slow(env), file, depth, tail, slow.value);
      FinePrefix(slow.value, s);
    }
  }

  function Group(env: Env, file: Path, depth: nat, b: bool, body: Items, w: World): Option<World> {
    if b then Exec(env, file, depth, body, w) else Some(w)
  }

  function AfterParts(env: Env, file: Path, depth: nat, parts: Parts, taken: bool, elseTaken: bool,
                      r: Option<World>): Option<World> {
    match r case None => None case Some(w) => ExecParts(env, file, depth, parts, taken, elseTaken, w)
  }

  lemma {:induction false} RestAgreed(env: Env, file: Path, depth: nat, parts: Parts, taken: bool, elseTaken: bool,
                                      w: World, fast: Option<World>, slow: Option<World>)
    requires Agreed(env, w, fast, slow)
    ensures Agreed(env, w, AfterParts(Fast(env), file, depth, parts, taken, elseTaken, fast),
                   AfterParts(Slow(env), file, depth, parts, taken, elseTaken, slow))
    decreases Fuel(depth), 1, parts, 1
  {
    var s := AfterParts(Slow(env), file, depth, parts, taken, elseTaken, slow);
    if fast.Some? {
      PartsAgreed(env, file, depth, parts, taken, elseTaken, fast.value);
    }
    if GuardsTied(env, w) && Fine(s) {
      PartsGrows(Slow(env), file, depth, parts, taken, elseTaken, slow.value);
      FinePrefix(slow.value, s);
    }
  }

  /** A condition is decided alike in both runs and changes no entry. */
  lemma {:induction false} TestedSame(env: Env, s: Start, w: World)
    requires Shaped(env, w)
    ensures Tested(Fast(env), s, w) == Tested(Slow(env), s, w) == Tested(env, s, w)
    ensures Tested(env, s, w).Some? ==>
              var w' := Tested(env, s, w).value.1; Shaped(env, w') && (GuardsTied(env, w) ==> GuardsTied(env, w'))
  {
    if Tested(env, s, w).Some? { SameTied(env, w, Tested(env, s, w).value.1); }
  }

  lemma {:induction false} SectionAgreed(env: Env, file: Path, depth: nat, sec: Items, w: World)
    requires sec.Section? && Shaped(env, w)
    ensures Agreed(env, w, ExecSection(Fast(env), file, depth, sec, w), ExecSection(Slow(env), file, depth, sec, w))
    decreases Fuel(depth), 1, sec, 0
  {
    TestedSame(env, sec.s, w);
    if Tested(env, sec.s, w).Some? {
      var (b, w1) := Tested(env, sec.s, w).value;
      ExecAgreed(env, file, depth, sec.body, w1);
      var fast, slow := Group(Fast(env), file, depth, b, sec.body, w1), Group(Slow(env), file, depth, b, sec.body, w1);
      RestAgreed(env, file, depth, sec.parts, b, false, w1, fast, slow);
    }
  }

  lemma {:induction false} PartsAgreed(env: Env, file: Path, depth: nat, parts: Parts, taken: bool, elseTaken: bool,
                                       w: World)
    requires Shaped(env, w)
    ensures Agreed(env, w, ExecParts(Fast(env), file, depth, parts, taken, elseTaken, w),
                   ExecParts(Slow(env), file, depth, parts, taken, elseTaken, w))
    decreases Fuel(depth), 1, parts, 0
  {
    hide GuardsTied, Shaped;
    match parts
    case NoPart =>
    case PElif(e, body, rest) =>
      PartsAgreed(env, file, depth, rest, true, false, w);
      TestedSame(env, If(e), w);
      if TestedExpr(env, e, w).Some? {
        var (b, w1) := TestedExpr(env, e, w).value;
        ExecAgreed(env, file, depth, body, w1);
        var fast, slow := Group(Fast(env), file, depth, b, body, w1), Group(Slow(env), file, depth, b, body, w1);
        RestAgreed(env, file, depth, rest, b, false, w1, fast, slow);
      }
    case PElse(_, body, rest) =>
      PartsAgreed(env, file, depth, rest, true, false, w);
      ExecAgreed(env, file, depth, body, w);
      var fast, slow := Exec(Fast(env), file, depth, body, w), Exec(Slow(env), file, depth, body, w);
      RestAgreed(env, file, depth, rest, true, true, w, fast, slow);
  }

  lemma {:induction false} LineAgreed(env: Env, file: Path, depth: nat, l: Line, w: World)
    requires Shaped(env, w)
    ensures Agreed(env, w, ExecLine(Fast(env), file, depth, l, w), ExecLine(Slow(env), file, depth, l, w))
    decreases Fuel(depth), 0
  {
    if l.Include? {
      if depth < INCLUDE_MAX && l.p in env.files {
        if Live(w, l.p) {
          ShortcutSound(Slow(env), l.p, depth + 1, w);
          ShortcutSound(Fast(env), l.p, depth + 1, w);
        } else {
          FileAgreed(env, l.p, depth + 1, w);
        }
      }
    } else if l.Define? {
      DefinedShaped(env, w, l.n, l.body, file);
      if GuardsTied(env, w) { DefinedTied(env, w, l.n, l.body, file); }
    } else if l.Undef? {
      UndefinedShaped(env, w, l.n);
      if GuardsTied(env, w) { UndefinedTied(env, w, l.n); }
    } else if l.Text? {
      SameTied(env, w, w.(out := w.out + [l.t]));
    }
  }

  lemma {:induction false} ClosingAgreed(env: Env, p: Path, w: World, fast: Option<World>, slow: Option<World>)
    requires p in env.files && Agreed(env, w, fast, slow)
    ensures Agreed(env, w, Closing(env.files[p], p, w, fast), Closing(env.files[p], p, w, slow))
  {
    var g := GuardOfLines(env.files[p]);
    if g.Some? && g.value !in w.macros {
      if fast.Some? { RecordedTied(env, fast.value, p, g.value); }
      var s := Closing(env.files[p], p, w, slow);
      if GuardsTied(env, w) && Fine(s) {
        FinePrefix(slow.value, s);
        if g.value in slow.value.macros {
          assert s.value.records[|slow.value.records|] == (p, slow.value.macros[g.value].file);
        }
        RecordedTied(env, slow.value, p, g.value);
      }
    }
  }

  lemma {:induction false} FileAgreed(env: Env, p: Path, depth: nat, w: World)
    requires Shaped(env, w) && p in env.files
    ensures Agreed(env, w, ExecFile(Fast(env), p, depth, w), ExecFile(Slow(env), p, depth, w))
    decreases Fuel(depth), 2
  {
    if Nest(env.files[p]).Some? {
      var items := Nest(env.files[p]).value;
      ExecAgreed(env, p, depth, items, w);
      ClosingAgreed(env, p, w, Exec(Fast(env), p, depth, items, w), Exec(Slow(env), p, depth, items, w));
    }
  }

  /** The shortcut is invisible: from any state whose entries have the shape of
      guarded files, as when none is recorded, and at any depth, whenever the run
      with it ends well, the run that reads every file again ends in the same
      macros, the same entries and the same output. */
  lemma {:induction false} ShortcutInvisible(env: Env, p: Path, depth: nat, w: World)
    requires p in env.files && Shaped(env, w) && ExecFile(Fast(env), p, depth, w).Some?
    ensures ExecFile(Fast(env), p, depth, w) == ExecFile(Slow(env), p, depth, w)
  {
    FileAgreed(env, p, depth, w);
  }

  /** And no run fails because of it, which would be for an entry that points to
      a freed macro, when the run without it ends well and every guard is
      recorded for a macro last defined in the guarded file. */
  lemma {:induction false} NoFreedMacro(env: Env, p: Path, depth: nat, w: World)
    requires p in env.files && GuardsTied(env, w) && Fine(ExecFile(Slow(env), p, depth, w))
    ensures ExecFile(Fast(env), p, depth, w) == ExecFile(Slow(env), p, depth, w)
    ensures GuardsTied(env, ExecFile(Fast(env), p, depth, w).value)
  {
    FileAgreed(env, p, depth, w);
  }

  // -------------------------------------------------------------------
  // A run that reaches a stale entry.
  // -------------------------------------------------------------------

  /** a guards itself with G but includes b, which defines G anew; main then
      undefines G and includes a again. */
  const FILE_A: seq<Line> := [Open(Ifndef("G")), Define("G", ""), Include("b"), Endif(false)]
  const FILE_B: seq<Line> := [Undef("G"), Define("G", "1")]
  const FILE_MAIN: seq<Line> := [Include("a"), Undef("G"), Include("a")]

  function StaleEnv(decide: (string, map<Name, Mac>) -> Option<bool>, fast: bool): Env {
    Env(map["a" := FILE_A, "b" := FILE_B, "main" := FILE_MAIN], decide, fast)
  }

  const ITEMS_A := Section(Ifndef("G"), Plain(Define("G", ""), Plain(Include("b"), Nil)), NoPart, false, Nil)
  const ITEMS_B := Plain(Undef("G"), Plain(Define("G", "1"), Nil))
  const ITEMS_MAIN := Plain(Include("a"), Plain(Undef("G"), Plain(Include("a"), Nil)))

  lemma {:induction false} NestA()
    ensures Nest(FILE_A) == Some(ITEMS_A)
  {
    NestIff(FILE_A, ITEMS_A);
    var end := [Endif(false)];
    assert Flat(Nil, []) == [] && end + [] == end;
    assert Flat(Plain(Include("b"), Nil), end) == [Include("b"), Endif(false)];
    assert Flat(ITEMS_A.body, end) == [Define("G", ""), Include("b"), Endif(false)];
  }

  lemma {:induction false} NestB()
    ensures Nest(FILE_B) == Some(ITEMS_B)
  {
    NestIff(FILE_B, ITEMS_B);
    assert Flat(Plain(Define("G", "1"), Nil), []) == [Define("G", "1")];
  }

  lemma {:induction false} NestMain()
    ensures Nest(FILE_MAIN) == Some(ITEMS_MAIN)
  {
    NestIff(FILE_MAIN, ITEMS_MAIN);
    assert Flat(Plain(Include("a"), Nil), []) == [Include("a")];
    assert Flat(Plain(Undef("G"), Plain(Include("a"), Nil)), []) == [Undef("G"), Include("a")];
  }

  function AfterB(w: World): World { Defined(Undefined(w, "G"), "G", "1", "b") }

  lemma {:induction false} ReadB(env: Env, depth: nat, w: World)
    requires "b" in env.files && env.files["b"] == FILE_B
    ensures ExecFile(env, "b", depth, w) == Some(AfterB(w))
  {
    NestB();
    var w1, w2 := Undefined(w, "G"), AfterB(w);
    assert Exec(env, "b", depth, Nil, w2) == Some(w2);
    assert ExecLine(env, "b", depth, Define("G", "1"), w1) == Some(w2);
    assert Exec(env, "b", depth, Plain(Define("G", "1"), Nil), w1) == Some(w2);
    assert ExecLine(env, "b", depth, Undef("G"), w) == Some(w1);
    assert GuardOf(ITEMS_B).None?;
  }

  function AfterA(w: World): World { Recorded(AfterB(Defined(w, "G", "", "a")), "a", "G") }

  predicate HasAB(env: Env) {
    "a" in env.files && env.files["a"] == FILE_A && "b" in env.files && env.files["b"] == FILE_B
  }

  lemma {:induction false} ReadABody(env: Env, depth: nat, w: World)
    requires HasAB(env) && depth < INCLUDE_MAX && "b" !in w.guarded
    ensures Exec(env, "a", depth, ITEMS_A.body, w) == Some(AfterB(Defined(w, "G", "", "a")))
  {
    hide AfterB, Nest;
    var w1 := Defined(w, "G", "", "a");
    var w2 := AfterB(w1);
    ReadB(env, depth + 1, w1);
    assert ExecLine(env, "a", depth, Include("b"), w1) == Some(w2);
    assert Exec(env, "a", depth, Nil, w2) == Some(w2);
    assert Exec(env, "a", depth, Plain(Include("b"), Nil), w1) == Some(w2);
    assert ExecLine(env, "a", depth, Define("G", ""), w) == Some(w1);
  }

  lemma {:induction false} ReadA(env: Env, depth: nat, w: World)
    requires HasAB(env) && depth < INCLUDE_MAX && "G" !in w.macros && "b" !in w.guarded
    ensures ExecFile(env, "a", depth, w) == Some(AfterA(w))
  {
    hide AfterB, Defined, Nest;
    NestA();
    var w2 := AfterB(Defined(w, "G", "", "a"));
    ReadABody(env, depth, w);
    assert ExecParts(env, "a", depth, NoPart, true, false, w2) == Some(w2);
    assert ExecSection(env, "a", depth, ITEMS_A, w) == Some(w2);
    assert Exec(env, "a", depth, ITEMS_A, w) == Some(w2);
    assert GuardOf(ITEMS_A) == Some("G");
  }

  /** On these files, read with no macro defined, the run with the shortcut
      comes to an entry whose macro is freed; the run without it ends well. */
  lemma {:induction false} StaleReached(decide: (string, map<Name, Mac>) -> Option<bool>, depth: nat, w: World)
    requires depth + 1 < INCLUDE_MAX && w.macros == map[] && w.guarded == map[]
    ensures ExecFile(StaleEnv(decide, true), "main", depth, w) == None
    ensures ExecFile(StaleEnv(decide, false), "main", depth, w).Some?
  {
    StaleRun(StaleEnv(decide, true), depth, w);
    StaleRun(StaleEnv(decide, false), depth, w);
  }

  /** Between the two readings of a its entry names G, which is not defined. */
  lemma {:induction false} StaleEntry(w: World)
    requires "G" !in w.macros && "b" !in w.guarded
    ensures var w' := Undefined(AfterA(w), "G");
            "a" in w'.guarded && !Live(w', "a") && "G" !in w'.macros && "b" !in w'.guarded
  {
    var w1 := Defined(w, "G", "", "a");
    var w2 := Undefined(w1, "G");
    var w3 := Defined(w2, "G", "1", "b");
    assert w3 == AfterB(w1) && w3.macros["G"].file == "b" && "b" !in w3.guarded;
    var w4 := Recorded(w3, "a", "G");
    assert w4 == AfterA(w) && w4.macros["G"].file == "b" && w4.guarded["a"].0 == "G";
  }

  lemma {:induction false} StaleRun(env: Env, depth: nat, w: World)
    requires depth + 1 < INCLUDE_MAX && env == StaleEnv(env.decide, env.fast)
    requires w.macros == map[] && w.guarded == map[]
    ensures ExecFile(env, "main", depth, w).Some? <==> !env.fast
  {
    hide AfterA, Undefined;
    StaleEntry(w);
    StaleMain(env, depth, w);
    var w2 := Undefined(AfterA(w), "G");
    ReadA(env, depth + 1, w2);
    assert ExecLine(env, "main", depth, Include("a"), w2).Some? <==> !env.fast;
  }

  lemma {:induction false} StaleMain(env: Env, depth: nat, w: World)
    requires depth + 1 < INCLUDE_MAX && env == StaleEnv(env.decide, env.fast)
    requires w.macros == map[] && w.guarded == map[]
    ensures ExecFile(env, "main", depth, w) == ExecLine(env, "main", depth, Include("a"), Undefined(AfterA(w), "G"))
  {
    hide AfterA, Undefined, Nest;
    NestMain();
    var w1 := AfterA(w);
    var w2 := Undefined(w1, "G");
    ReadA(env, depth + 1, w);
    assert ExecLine(env, "main", depth, Include("a"), w) == Some(w1);
    assert ExecLine(env, "main", depth, Undef("G"), w1) == Some(w2);
    var last := ExecLine(env, "main", depth, Include("a"), w2);
    assert Exec(env, "main", depth, Plain(Include("a"), Nil), w2) == last;
    assert Exec(env, "main", depth, Plain(Undef("G"), Plain(Include("a"), Nil)), w1) == last;
    assert Exec(env, "main", depth, ITEMS_MAIN, w) == last;
    assert GuardOf(ITEMS_MAIN) == None;
  }
}
