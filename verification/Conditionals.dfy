/** Conditional directives: the if-section grammar of section 6.10 of
    ISO/IEC 9899:2011 and its meaning, and the flat program that works on a
    list of lines with a stack of open conditionals. */
module Conditionals {
  import opened Wrappers

  type Name = string
  type Path = string

  /** The directives that open a conditional. */
  datatype Start = If(expr: string) | Ifdef(n: Name) | Ifndef(n: Name)

  /** A line of a file.  Null has no effect, Bad is diagnosed when it is
      processed; stray tells of tokens after #else or #endif. */
  datatype Line =
    | Blank | Text(t: string) | Null | Bad
    | Define(n: Name, body: string) | Undef(n: Name) | Include(p: Path)
    | Open(s: Start) | Elif(expr: string) | Else(stray: bool) | Endif(stray: bool)

  /** A defined macro: the number of its definition object, its replacement
      list, the file it was last defined in, and its guard flag. */
  datatype Mac = Mac(id: nat, body: string, file: Path, guard: bool)

  /** What processing changes: macros, recorded include guards (with the
      object each entry points to) and the text put out.  Two logs say which
      expressions of #if and #elif have been evaluated, and which guards have
      been recorded, each with the file its macro was last defined in. */
  datatype World = World(macros: map<Name, Mac>, guarded: map<Path, (Name, nat)>, next: nat, out: seq<string>,
                         tested: seq<string>, records: seq<(Path, Path)>)

  // -------------------------------------------------------------------
  // Nested structure.
  // -------------------------------------------------------------------

  datatype Items = Nil | Plain(line: Line, tail: Items)
      | Section(s: Start, body: Items, parts: Parts, stray: bool, tail: Items)
  datatype Parts = NoPart | PElif(expr: string, eBody: Items, eRest: Parts)
      | PElse(oStray: bool, oBody: Items, oRest: Parts)

  predicate Simple(l: Line) { !l.Open? && !l.Elif? && !l.Else? && !l.Endif? }

  /** Plain items hold simple lines only. */
  predicate WellNested(items: Items) {
    match items
    case Nil => true
    case Plain(l, tail) => Simple(l) && WellNested(tail)
    case Section(_, body, parts, _, tail) => WellNested(body) && WellNestedParts(parts) && WellNested(tail)
  }

  predicate WellNestedParts(parts: Parts) {
    match parts
    case NoPart => true
    case PElif(_, body, rest) => WellNested(body) && WellNestedParts(rest)
    case PElse(_, body, rest) => WellNested(body) && WellNestedParts(rest)
  }

  /** The lines of a nested text, followed by more. */
  function Flat(items: Items, more: seq<Line>): seq<Line> {
    match items
    case Nil => more
    case Plain(l, tail) => [l] + Flat(tail, more)
    case Section(s, body, parts, stray, tail) =>
      [Open(s)] + Flat(body, FlatParts(parts, [Endif(stray)] + Flat(tail, more)))
  }

  function FlatParts(parts: Parts, more: seq<Line>): seq<Line> {
    match parts
    case NoPart => more
    case PElif(e, body, rest) => [Elif(e)] + Flat(body, FlatParts(rest, more))
    case PElse(stray, body, rest) => [Else(stray)] + Flat(body, FlatParts(rest, more))
  }

  /** Lines that end a group. */
  predicate IsPart(l: Line) { l.Elif? || l.Else? || l.Endif? }

  /** The nested text a list of lines begins with, and the lines behind it;
      None when a conditional is not closed. */
  function ReadItems(lines: seq<Line>): (r: Option<(Items, seq<Line>)>)
    ensures r.Some? ==> |r.value.1| <= |lines|
    decreases |lines|, 1
  {
    if lines == [] || IsPart(lines[0]) then Some((Nil, lines))
    else if lines[0].Open? then
      match ReadItems(lines[1..])
      case None => None
      case Some((body, atParts)) =>
        match ReadParts(atParts)
        case None => None
        case Some((parts, stray, after)) =>
          match ReadItems(after)
          case None => None
          case Some((tail, rest)) => Some((Section(lines[0].s, body, parts, stray, tail), rest))
    else
      match ReadItems(lines[1..])
      case None => None
      case Some((tail, rest)) => Some((Plain(lines[0], tail), rest))
  }

  function ReadParts(lines: seq<Line>): (r: Option<(Parts, bool, seq<Line>)>)
    ensures r.Some? ==> |r.value.2| < |lines|
    decreases |lines|, 0
  {
    if lines == [] || !IsPart(lines[0]) then None
    else if lines[0].Endif? then Some((NoPart, lines[0].stray, lines[1..]))
    else
      match ReadItems(lines[1..])
      case None => None
      case Some((body, atParts)) =>
        match ReadParts(atParts)
        case None => None
        case Some((rest, stray, after)) =>
          Some((if lines[0].Elif? then PElif(lines[0].expr, body, rest)
                else PElse(lines[0].stray, body, rest), stray, after))
  }

  /** The nested text that a whole list of lines is, if it is one. */
  function Nest(lines: seq<Line>): Option<Items> {
    match ReadItems(lines)
    case Some((items, rest)) => if rest == [] then Some(items) else None
    case None => None
  }

  // -------------------------------------------------------------------
  // Effects of single directives.
  // -------------------------------------------------------------------

  /** The depth of a file counts the files that are open, 1 for the main one. */
  const INCLUDE_MAX := 128

  /** The lines of the files, how an #if expression is decided by the macros
      (None when it is diagnosed), and whether the include-guard shortcut is
      taken. */
  datatype Env = Env(files: map<Path, seq<Line>>, decide: (string, map<Name, Mac>) -> Option<bool>, fast: bool)

  function Without<K, V>(m: map<K, V>, k: K): map<K, V> { map x | x in m && x != k :: m[x] }

  /** do_define. */
  function Defined(w: World, n: Name, body: string, file: Path): World {
    if n in w.macros then
      var m := w.macros[n];
      if m.body == body then w
      else
        w.(guarded := if m.guard then Without(w.guarded, m.file) else w.guarded,
           macros := w.macros[n := Mac(m.id, body, file, false)])
    else w.(macros := w.macros[n := Mac(w.next, body, file, false)], next := w.next + 1)
  }

  /** do_undef. */
  function Undefined(w: World, n: Name): World {
    if n in w.macros then
      var m := w.macros[n];
      w.(guarded := if m.guard then Without(w.guarded, m.file) else w.guarded, macros := Without(w.macros, n))
    else w
  }

  /** Decides an opening directive; None when it is diagnosed. */
  function Tested(env: Env, s: Start, w: World): Option<(bool, World)> {
    match s
    case Ifdef(n) => Some((n in w.macros, w))
    case Ifndef(n) => Some((n !in w.macros, w))
    case If(e) => TestedExpr(env, e, w)
  }

  function TestedExpr(env: Env, e: string, w: World): Option<(bool, World)> {
    match env.decide(e, w.macros)
    case None => None
    case Some(b) => Some((b, w.(tested := w.tested + [e])))
  }

  /** The entry of a file points to the macro n, which still is the object it
      was recorded for. */
  predicate Live(w: World, p: Path) {
    p in w.guarded && w.guarded[p].0 in w.macros && w.macros[w.guarded[p].0].id == w.guarded[p].1
  }

  predicate Hit(w: World, p: Path) {
    Live(w, p) && w.macros[w.guarded[p].0].guard && w.macros[w.guarded[p].0].file == p
  }

  /** Records the guard of a file at its closing #endif. */
  function Recorded(w: World, p: Path, n: Name): World {
    if n in w.macros then
      w.(macros := w.macros[n := w.macros[n].(guard := true)], guarded := w.guarded[p := (n, w.macros[n].id)],
         records := w.records + [(p, w.macros[n].file)])
    else w
  }

  // -------------------------------------------------------------------
  // The shape of a guarded file.
  // -------------------------------------------------------------------

  predicate AllBlank(lines: seq<Line>) { forall i :: 0 <= i < |lines| ==> lines[i] == Blank }

  predicate BlankItems(items: Items) { items.Nil? || (items.Plain? && items.line == Blank && BlankItems(items.tail)) }

  /** The lines begin with the definition of n. */
  predicate DefinesFirst(lines: seq<Line>, n: Name) { lines != [] && lines[0].Define? && lines[0].n == n }

  /** The macro n, if the file is nothing but an #ifndef section without #elif
      and #else that begins by defining n. */
  function GuardOf(items: Items): Option<Name> {
    match items
    case Plain(Blank, tail) => GuardOf(tail)
    case Section(Ifndef(n), Plain(Define(d, _), _), NoPart, false, tail) =>
      if n == d && BlankItems(tail) then Some(n) else None
    case _ => None
  }

  // -------------------------------------------------------------------
  // The meaning of nested text.
  // -------------------------------------------------------------------

  function Fuel(depth: nat): nat { if depth < INCLUDE_MAX then INCLUDE_MAX - depth else 0 }

  function Exec(env: Env, file: Path, depth: nat, items: Items, w: World): Option<World>
    decreases Fuel(depth), 1, items, 1
  {
    match items
    case Nil => Some(w)
    case Plain(l, tail) =>
      (match ExecLine(env, file, depth, l, w)
       case None => None
       case Some(w') => Exec(env, file, depth, tail, w'))
    case Section(_, _, _, _, tail) =>
      (match ExecSection(env, file, depth, items, w)
       case None => None
       case Some(w') => Exec(env, file, depth, tail, w'))
  }

  /** An if-section: the first group whose condition holds, else the #else
      group; conditions behind it are not evaluated. */
  function ExecSection(env: Env, file: Path, depth: nat, sec: Items, w: World): Option<World>
    requires sec.Section?
    decreases Fuel(depth), 1, sec, 0
  {
    match Tested(env, sec.s, w)
    case None => None
    case Some((b, w1)) =>
      match if b then Exec(env, file, depth, sec.body, w1) else Some(w1)
      case None => None
      case Some(w2) =>
        match ExecParts(env, file, depth, sec.parts, b, false, w2)
        case None => None
        case Some(w3) => if sec.stray then None else Some(w3)
  }

  /** The rest of an if-section.  elseTaken tells that an #else group has been
      processed, behind which no part may come. */
  function ExecParts(env: Env, file: Path, depth: nat, parts: Parts, taken: bool, elseTaken: bool,
                     w: World): Option<World>
    decreases Fuel(depth), 1, parts, 0
  {
    if parts.NoPart? then Some(w)
    else if elseTaken then None
    else
      match parts
      case PElif(e, body, rest) =>
        if taken then ExecParts(env, file, depth, rest, true, false, w)
        else
          (match TestedExpr(env, e, w)
           case None => None
           case Some((b, w1)) =>
             match if b then Exec(env, file, depth, body, w1) else Some(w1)
             case None => None
             case Some(w2) => ExecParts(env, file, depth, rest, b, false, w2))
      case PElse(stray, body, rest) =>
        if taken then ExecParts(env, file, depth, rest, true, false, w)
        else if stray then None
        else
          match Exec(env, file, depth, body, w)
          case None => None
          case Some(w1) => ExecParts(env, file, depth, rest, true, true, w1)
  }

  function ExecLine(env: Env, file: Path, depth: nat, l: Line, w: World): Option<World>
    decreases Fuel(depth), 0
  {
    match l
    case Text(t) => Some(w.(out := w.out + [t]))
    case Define(n, body) => Some(Defined(w, n, body, file))
    case Undef(n) => Some(Undefined(w, n))
    case Include(p) =>
      if depth >= INCLUDE_MAX || p !in env.files then None
      else if env.fast && p in w.guarded && !Live(w, p) then None  // the program would read a freed macro
      else if env.fast && Hit(w, p) then Some(w)
      else ExecFile(env, p, depth + 1, w)
    case Bad => None
    case _ => Some(w)
  }

  /** The macro that guards a file of these lines, if it has that shape. */
  function GuardOfLines(lines: seq<Line>): Option<Name> {
    match Nest(lines) case None => None case Some(items) => GuardOf(items)
  }

  /** Reads a whole file, and records its guard if it has one that was just
      found undefined.  A file whose conditionals do not match is diagnosed. */
  function ExecFile(env: Env, p: Path, depth: nat, w: World): Option<World>
    requires p in env.files
    decreases Fuel(depth), 2
  {
    match Nest(env.files[p])
    case None => None
    case Some(items) => Closing(env.files[p], p, w, Exec(env, p, depth, items, w))
  }

  /** What the end of a file p of these lines, reached from w, adds to r. */
  function Closing(lines: seq<Line>, p: Path, w: World, r: Option<World>): Option<World> {
    match r
    case None => None
    case Some(w') =>
      var g := GuardOfLines(lines);
      if g.Some? && g.value !in w.macros then Some(Recorded(w', p, g.value)) else Some(w')
  }

  /** #ifdef processes its group exactly when the name is defined, #ifndef when
      it is not; the #else group otherwise, if there is one. */
  lemma {:induction false} IfdefGroup(env: Env, file: Path, depth: nat, n: Name, body: Items, other: Items,
                                      tail: Items, w: World)
    ensures ExecSection(env, file, depth, Section(Ifdef(n), body, NoPart, false, tail), w)
         == if n in w.macros.Keys then Exec(env, file, depth, body, w) else Some(w)
    ensures ExecSection(env, file, depth, Section(Ifndef(n), body, NoPart, false, tail), w)
         == if n in w.macros.Keys then Some(w) else Exec(env, file, depth, body, w)
    ensures ExecSection(env, file, depth, Section(Ifdef(n), body, PElse(false, other, NoPart), false, tail), w)
         == Exec(env, file, depth, if n in w.macros.Keys then body else other, w)
    ensures ExecSection(env, file, depth, Section(Ifndef(n), body, PElse(false, other, NoPart), false, tail), w)
         == Exec(env, file, depth, if n in w.macros.Keys then other else body, w)
  {
    hide Exec;
    ElseParts(env, file, depth, other, w);
    if Exec(env, file, depth, body, w).Some? {
      ElseTaken(env, file, depth, other, Exec(env, file, depth, body, w).value);
    }
  }

  lemma {:induction false} ElseParts(env: Env, file: Path, depth: nat, other: Items, w: World)
    ensures ExecParts(env, file, depth, PElse(false, other, NoPart), false, false, w)
            == Exec(env, file, depth, other, w)
  {
    hide Exec;
    if Exec(env, file, depth, other, w).Some? {
      assert ExecParts(env, file, depth, NoPart, true, true, Exec(env, file, depth, other, w).value).Some?;
    }
  }

  lemma {:induction false} ElseTaken(env: Env, file: Path, depth: nat, other: Items, w: World)
    ensures ExecParts(env, file, depth, PElse(false, other, NoPart), true, false, w) == Some(w)
  {
    assert ExecParts(env, file, depth, NoPart, true, false, w) == Some(w);
  }

  /** After #define the name has the replacement list and every other name what
      it had; nothing is put out. */
  lemma {:induction false} DefinedMeans(w: World, n: Name, body: string, file: Path)
    ensures var w' := Defined(w, n, body, file);
            && n in w'.macros && w'.macros[n].body == body
            && (n in w.macros && w.macros[n].body == body ==> w' == w)
            && (!(n in w.macros && w.macros[n].body == body) ==> w'.macros[n].file == file && !w'.macros[n].guard)
            && w'.macros[n].id == (if n in w.macros then w.macros[n].id else w.next)
            && w'.next == (if n in w.macros then w.next else w.next + 1)
            && (forall x :: x != n ==> (x in w'.macros <==> x in w.macros))
            && (forall x :: x != n && x in w.macros ==> w'.macros[x] == w.macros[x])
            && w'.out == w.out && w'.tested == w.tested
  {
  }

  /** After #undef the name has none, and every other name what it had. */
  lemma {:induction false} UndefinedMeans(w: World, n: Name)
    ensures var w' := Undefined(w, n);
            && n !in w'.macros
            && (forall x :: x != n ==> (x in w'.macros <==> x in w.macros))
            && (forall x :: x != n && x in w.macros ==> w'.macros[x] == w.macros[x])
            && w'.out == w.out && w'.tested == w.tested && w'.next == w.next
  {
  }

  /** Behind a group that was taken nothing more is evaluated or changed. */
  lemma {:induction false} TakenSkipsRest(env: Env, file: Path, depth: nat, parts: Parts, w: World)
    ensures ExecParts(env, file, depth, parts, true, false, w) == Some(w)
    decreases parts
  {
    match parts
    case NoPart =>
    case PElif(_, _, rest) => TakenSkipsRest(env, file, depth, rest, w);
    case PElse(_, _, rest) => TakenSkipsRest(env, file, depth, rest, w);
  }

  /** #elif groups in front of other parts. */
  function Chain(groups: seq<(string, Items)>, last: Parts): Parts {
    if groups == [] then last else PElif(groups[0].0, groups[0].1, Chain(groups[1..], last))
  }

  function Exprs(groups: seq<(string, Items)>): seq<string> {
    if groups == [] then [] else [groups[0].0] + Exprs(groups[1..])
  }

  predicate AllFalse(env: Env, groups: seq<(string, Items)>, w: World) {
    forall i :: 0 <= i < |groups| ==> env.decide(groups[i].0, w.macros) == Some(false)
  }

  /** Groups whose conditions fail only leave their conditions evaluated. */
  lemma {:induction false} FalseGroups(env: Env, file: Path, depth: nat, groups: seq<(string, Items)>, last: Parts,
                                       w: World)
    requires AllFalse(env, groups, w)
    ensures ExecParts(env, file, depth, Chain(groups, last), false, false, w)
         == ExecParts(env, file, depth, last, false, false, w.(tested := w.tested + Exprs(groups)))
    decreases |groups|
  {
    if groups == [] {
      assert w.tested + [] == w.tested;
    } else {
      var w1 := w.(tested := w.tested + [groups[0].0]);
      assert env.decide(groups[0].0, w.macros) == Some(false);
      FalseGroups(env, file, depth, groups[1..], last, w1);
      assert w1.tested + Exprs(groups[1..]) == w.tested + Exprs(groups);
    }
  }

  /** Of the parts after a failed opening condition exactly the first one whose
      condition holds is processed, with the conditions up to it evaluated and
      none behind it. */
  lemma {:induction false} FirstTrueGroup(env: Env, file: Path, depth: nat, groups: seq<(string, Items)>, e: string,
                                          body: Items,
                       rest: Parts, w: World)
    requires AllFalse(env, groups, w) && env.decide(e, w.macros) == Some(true)
    ensures ExecParts(env, file, depth, Chain(groups, PElif(e, body, rest)), false, false, w)
         == Exec(env, file, depth, body, w.(tested := w.tested + Exprs(groups) + [e]))
  {
    FalseGroups(env, file, depth, groups, PElif(e, body, rest), w);
    var w1 := w.(tested := w.tested + Exprs(groups) + [e]);
    match Exec(env, file, depth, body, w1)
    case None =>
    case Some(w2) => TakenSkipsRest(env, file, depth, rest, w2);
  }

  /** When no condition holds, the #else group is processed. */
  lemma {:induction false} ElseGroup(env: Env, file: Path, depth: nat, groups: seq<(string, Items)>, body: Items,
                                     w: World)
    requires AllFalse(env, groups, w)
    ensures ExecParts(env, file, depth, Chain(groups, PElse(false, body, NoPart)), false, false, w)
         == Exec(env, file, depth, body, w.(tested := w.tested + Exprs(groups)))
    ensures ExecParts(env, file, depth, Chain(groups, NoPart), false, false, w)
            == Some(w.(tested := w.tested + Exprs(groups)))
  {
    FalseGroups(env, file, depth, groups, PElse(false, body, NoPart), w);
    FalseGroups(env, file, depth, groups, NoPart, w);
  }
}
