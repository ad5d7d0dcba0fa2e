/** The flat conditional machine: one pass over the lines of a file with a
    stack of open conditionals, skipping by counting nested conditionals. */
module CondMachine {
  import opened Wrappers
  import opened Conditionals

  /** An open conditional: whether a group is still looked for, the guard macro
      it may stand for, and whether its #else group is being processed. */
  datatype Frame = Frame(skip: bool, guard: Option<Name>, inElse: bool)

  /** The lines from the next #elif, #else or #endif of the same nesting on. */
  function Skip(lines: seq<Line>, nested: nat): (r: seq<Line>)
    ensures |r| <= |lines|
    ensures r != [] ==> r[0].Elif? || r[0].Else? || r[0].Endif?
  {
    if lines == [] then []
    else if nested == 0 && (lines[0].Elif? || lines[0].Else? || lines[0].Endif?) then lines
    else
      Skip(lines[1..], if lines[0].Open? then nested + 1 else if lines[0].Endif? then nested - 1 else nested)
  }

  /** The guard an opening directive may stand for: it is the first line of the
      file that is not blank, and the next line defines the macro it tests. */
  function GuardAt(s: Start, bof: bool, more: seq<Line>): Option<Name> {
    if bof && s.Ifndef? && DefinesFirst(more, s.n) then Some(s.n) else None
  }

  /** What the machine makes of the remaining lines. */
  function FlatRun(env: Env, file: Path, depth: nat, lines: seq<Line>, conds: seq<Frame>, bof: bool,
                   w: World): Option<World>
    decreases |lines|
  {
    if lines == [] then (if conds == [] then Some(w) else None)
    else
      var more := lines[1..];
      match lines[0]
      case Open(s) =>
        (match Tested(env, s, w)
         case None => None
         case Some((b, w1)) =>
           var f := Frame(!b, if b then GuardAt(s, bof, more) else None, false);
           FlatRun(env, file, depth, if b then more else Skip(more, 0), conds + [f], false, w1))
      case Elif(e) =>
        if conds == [] || Top(conds).inElse then None
        else
          var f := Top(conds).(guard := None);
          if !f.skip then FlatRun(env, file, depth, Skip(more, 0), Below(conds) + [f], false, w)
          else
            (match TestedExpr(env, e, w)
             case None => None
             case Some((b, w1)) =>
               FlatRun(env, file, depth, if b then more else Skip(more, 0), Below(conds) + [f.(skip := !b)], false, w1))
      case Else(stray) =>
        if conds == [] || Top(conds).inElse then None
        else
          var f := Top(conds).(guard := None);
          if !f.skip then FlatRun(env, file, depth, Skip(more, 0), Below(conds) + [f], false, w)
          else if stray then None
          else FlatRun(env, file, depth, more, Below(conds) + [Frame(false, None, true)], false, w)
      case Endif(stray) =>
        if conds == [] || stray then None
        else FlatRun(env, file, depth, more, Below(conds), false,
                     Closed(file, Top(conds), |conds| == 1 && AllBlank(more), w))
      case l =>
        match ExecLine(env, file, depth, l, w)
        case None => None
        case Some(w1) => FlatRun(env, file, depth, more, conds, bof && l == Blank, w1)
  }

  function Top(conds: seq<Frame>): Frame
    requires conds != []
  {
    conds[|conds| - 1]
  }

  function Below(conds: seq<Frame>): seq<Frame>
    requires conds != []
  {
    conds[..|conds| - 1]
  }

  /** The end of a conditional, where the guard of a whole file is recorded. */
  function Closed(file: Path, f: Frame, whole: bool, w: World): World {
    if whole && f.guard.Some? then Recorded(w, file, f.guard.value) else w
  }

  // -------------------------------------------------------------------
  // The flat machine against the nested meaning.
  // -------------------------------------------------------------------

  lemma {:induction false} SkipItems(items: Items, more: seq<Line>, nested: nat)
    requires WellNested(items)
    ensures Skip(Flat(items, more), nested) == Skip(more, nested)
    decreases items
  {
    hide FlatParts, WellNestedParts;
    match items
    case Nil =>
    case Plain(l, tail) =>
      assert ([l] + Flat(tail, more))[1..] == Flat(tail, more);
      SkipItems(tail, more, nested);
    case Section(s, body, parts, stray, tail) =>
      var after := Flat(tail, more);
      var end := [Endif(stray)] + after;
      var inner := FlatParts(parts, end);
      assert ([Open(s)] + Flat(body, inner))[1..] == Flat(body, inner);
      SkipItems(body, inner, nested + 1);
      SkipParts(parts, end, nested + 1);
      assert end[1..] == after;
      SkipItems(tail, more, nested);
  }

  lemma {:induction false} SkipParts(parts: Parts, more: seq<Line>, nested: nat)
    requires WellNestedParts(parts) && nested > 0
    ensures Skip(FlatParts(parts, more), nested) == Skip(more, nested)
    decreases parts
  {
    match parts
    case NoPart =>
    case PElif(e, body, rest) =>
      var inner := FlatParts(rest, more);
      assert ([Elif(e)] + Flat(body, inner))[1..] == Flat(body, inner);
      SkipItems(body, inner, nested);
      SkipParts(rest, more, nested);
    case PElse(stray, body, rest) =>
      var inner := FlatParts(rest, more);
      assert ([Else(stray)] + Flat(body, inner))[1..] == Flat(body, inner);
      SkipItems(body, inner, nested);
      SkipParts(rest, more, nested);
  }

  /** The frame an if-section leaves on top when its parts have been passed. */
  predicate Inner(f: Frame, taken: bool, elseTaken: bool) {
    f.skip == !taken && f.inElse == elseTaken && (elseTaken ==> taken)
  }

  function AndThen(env: Env, file: Path, depth: nat, lines: seq<Line>, conds: seq<Frame>, bof: bool,
                   w: Option<World>): Option<World> {
    match w
    case None => None
    case Some(w') => FlatRun(env, file, depth, lines, conds, bof, w')
  }

  /** One line that opens no conditional and closes none. */
  lemma {:induction false} FlatSimple(env: Env, file: Path, depth: nat, l: Line, more: seq<Line>, conds: seq<Frame>,
                                      bof: bool, w: World)
    requires Simple(l)
    ensures FlatRun(env, file, depth, [l] + more, conds, bof, w)
         == AndThen(env, file, depth, more, conds, bof && l == Blank, ExecLine(env, file, depth, l, w))
  {
    assert ([l] + more)[1..] == more;
  }

  lemma {:induction false} FlatEndif(env: Env, file: Path, depth: nat, stray: bool, more: seq<Line>,
                                     conds: seq<Frame>, f: Frame, w: World)
    ensures FlatRun(env, file, depth, [Endif(stray)] + more, conds + [f], false, w)
         == if stray then None
            else FlatRun(env, file, depth, more, conds, false, Closed(file, f, conds == [] && AllBlank(more), w))
  {
    assert ([Endif(stray)] + more)[1..] == more;
    assert Below(conds + [f]) == conds;
  }

  lemma {:induction false} FlatElif(env: Env, file: Path, depth: nat, e: string, more: seq<Line>, conds: seq<Frame>,
                                    f: Frame, w: World)
    ensures FlatRun(env, file, depth, [Elif(e)] + more, conds + [f], false, w)
         == if f.inElse then None
            else if !f.skip then FlatRun(env, file, depth, Skip(more, 0), conds + [f.(guard := None)], false, w)
            else
              match TestedExpr(env, e, w)
              case None => None
              case Some((b, w1)) =>
                FlatRun(env, file, depth, if b then more else Skip(more, 0),
                        conds + [f.(guard := None, skip := !b)], false, w1)
  {
    assert ([Elif(e)] + more)[1..] == more;
    assert Below(conds + [f]) == conds;
  }

  lemma {:induction false} FlatElse(env: Env, file: Path, depth: nat, stray: bool, more: seq<Line>, conds: seq<Frame>,
                                    f: Frame, w: World)
    ensures FlatRun(env, file, depth, [Else(stray)] + more, conds + [f], false, w)
         == if f.inElse then None
            else if !f.skip then FlatRun(env, file, depth, Skip(more, 0), conds + [f.(guard := None)], false, w)
            else if stray then None
            else FlatRun(env, file, depth, more, conds + [Frame(false, None, true)], false, w)
  {
    assert ([Else(stray)] + more)[1..] == more;
    assert Below(conds + [f]) == conds;
  }

  /** Skipping stops at the parts or the end of the same section. */
  lemma {:induction false} SkipToParts(parts: Parts, stray: bool, after: seq<Line>)
    ensures Skip(FlatParts(parts, [Endif(stray)] + after), 0) == FlatParts(parts, [Endif(stray)] + after)
  {
  }

  /** Behind a section that has come to w, when f is its frame. */
  function Leave(env: Env, file: Path, depth: nat, stray: bool, after: seq<Line>,
                 conds: seq<Frame>, f: Frame, w: Option<World>): Option<World> {
    match w
    case None => None
    case Some(w') =>
      if stray then None
      else FlatRun(env, file, depth, after, conds, false, Closed(file, f, conds == [] && AllBlank(after), w'))
  }

  /** The guard a frame still stands for behind the parts of its section. */
  function GuardLeft(f: Frame, parts: Parts): Frame { if parts.NoPart? then f else f.(guard := None) }

  /** A section from its parts on. */
  lemma {:induction false} FlatPartsRun(env: Env, file: Path, depth: nat, parts: Parts, stray: bool, after: seq<Line>,
                                        conds: seq<Frame>, f: Frame, taken: bool, elseTaken: bool, w: World)
    requires WellNestedParts(parts) && Inner(f, taken, elseTaken)
    ensures FlatRun(env, file, depth, FlatParts(parts, [Endif(stray)] + after), conds + [f], false, w)
         == Leave(env, file, depth, stray, after, conds, GuardLeft(f, parts),
                  ExecParts(env, file, depth, parts, taken, elseTaken, w))
    decreases parts
  {
    var end := [Endif(stray)] + after;
    match parts
    case NoPart =>
      FlatEndif(env, file, depth, stray, after, conds, f, w);
    case PElif(e, body, rest) =>
      var inner := FlatParts(rest, end);
      FlatElif(env, file, depth, e, Flat(body, inner), conds, f, w);
      SkipItems(body, inner, 0);
      SkipToParts(rest, stray, after);
      if elseTaken {
      } else if taken {
        FlatPartsRun(env, file, depth, rest, stray, after, conds, f.(guard := None), true, false, w);
      } else if TestedExpr(env, e, w).Some? {
        var (b, w1) := TestedExpr(env, e, w).value;
        var g := f.(guard := None, skip := !b);
        if b {
          FlatItems(env, file, depth, body, inner, conds + [g], w1);
          match Exec(env, file, depth, body, w1) {
            case None =>
            case Some(w2) => FlatPartsRun(env, file, depth, rest, stray, after, conds, g, true, false, w2);
          }
        } else {
          FlatPartsRun(env, file, depth, rest, stray, after, conds, g, false, false, w1);
        }
      }
    case PElse(oStray, body, rest) =>
      FlatPElseRun(env, file, depth, parts, stray, after, conds, f, taken, elseTaken, w);
  }

  lemma {:induction false} FlatPElseRun(env: Env, file: Path, depth: nat, parts: Parts, stray: bool, after: seq<Line>,
                                        conds: seq<Frame>, f: Frame, taken: bool, elseTaken: bool, w: World)
    requires parts.PElse? && WellNestedParts(parts) && Inner(f, taken, elseTaken)
    ensures FlatRun(env, file, depth, FlatParts(parts, [Endif(stray)] + after), conds + [f], false, w)
         == Leave(env, file, depth, stray, after, conds, GuardLeft(f, parts),
                  ExecParts(env, file, depth, parts, taken, elseTaken, w))
    decreases parts, 0
  {
    var end := [Endif(stray)] + after;
    var inner := FlatParts(parts.oRest, end);
    FlatElse(env, file, depth, parts.oStray, Flat(parts.oBody, inner), conds, f, w);
    SkipItems(parts.oBody, inner, 0);
    SkipToParts(parts.oRest, stray, after);
    if elseTaken {
    } else if taken {
      FlatPartsRun(env, file, depth, parts.oRest, stray, after, conds, f.(guard := None), true, false, w);
    } else if !parts.oStray {
      var g := Frame(false, None, true);
      FlatItems(env, file, depth, parts.oBody, inner, conds + [g], w);
      match Exec(env, file, depth, parts.oBody, w) {
        case None =>
        case Some(w2) => FlatPartsRun(env, file, depth, parts.oRest, stray, after, conds, g, true, true, w2);
      }
    }
  }

  /** The lines of a section behind its opening one. */
  function Inside(sec: Items, after: seq<Line>): seq<Line>
    requires sec.Section?
  {
    Flat(sec.body, FlatParts(sec.parts, [Endif(sec.stray)] + after))
  }

  /** The guard macro a section stands for when it is closed. */
  function SectionGuard(env: Env, sec: Items, after: seq<Line>, bof: bool, w: World): Option<Name>
    requires sec.Section?
  {
    match Tested(env, sec.s, w)
    case Some((true, _)) => if sec.parts.NoPart? then GuardAt(sec.s, bof, Inside(sec, after)) else None
    case _ => None
  }

  /** A whole section, with the guard its frame may stand for. */
  lemma {:induction false} FlatSection(env: Env, file: Path, depth: nat, sec: Items, after: seq<Line>,
                                       conds: seq<Frame>, bof: bool, w: World)
    requires sec.Section? && WellNested(sec)
    ensures FlatRun(env, file, depth, [Open(sec.s)] + Inside(sec, after), conds, bof, w)
         == Leave(env, file, depth, false, after, conds, Frame(false, SectionGuard(env, sec, after, bof, w), false),
                  ExecSection(env, file, depth, sec, w))
    decreases sec, 0
  {
    var inner := FlatParts(sec.parts, [Endif(sec.stray)] + after);
    var lines := Flat(sec.body, inner);
    assert ([Open(sec.s)] + lines)[1..] == lines;
    if Tested(env, sec.s, w).Some? {
      var (b, w1) := Tested(env, sec.s, w).value;
      var f := Frame(!b, if b then GuardAt(sec.s, bof, lines) else None, false);
      if b {
        FlatItems(env, file, depth, sec.body, inner, conds + [f], w1);
        match Exec(env, file, depth, sec.body, w1) {
          case None =>
          case Some(w2) => FlatPartsRun(env, file, depth, sec.parts, sec.stray, after, conds, f, true, false, w2);
        }
      } else {
        SkipItems(sec.body, inner, 0);
        SkipToParts(sec.parts, sec.stray, after);
        FlatPartsRun(env, file, depth, sec.parts, sec.stray, after, conds, f, false, false, w1);
      }
    }
  }

  /** Nested text in the middle of a file: the flat machine does what the
      nested meaning says and goes on behind it with the same stack. */
  lemma {:induction false} FlatItems(env: Env, file: Path, depth: nat, items: Items, more: seq<Line>,
                                     conds: seq<Frame>, w: World)
    requires WellNested(items)
    ensures FlatRun(env, file, depth, Flat(items, more), conds, false, w)
         == AndThen(env, file, depth, more, conds, false, Exec(env, file, depth, items, w))
    decreases items
  {
    match items
    case Nil =>
    case Plain(l, tail) =>
      FlatSimple(env, file, depth, l, Flat(tail, more), conds, false, w);
      match ExecLine(env, file, depth, l, w) {
        case None =>
        case Some(w1) => FlatItems(env, file, depth, tail, more, conds, w1);
      }
    case Section(_, _, _, _, tail) =>
      FlatSection(env, file, depth, items, Flat(tail, more), conds, false, w);
      match ExecSection(env, file, depth, items, w) {
        case None =>
        case Some(w1) => FlatItems(env, file, depth, tail, more, conds, w1);
      }
  }

  // -------------------------------------------------------------------
  // Whole files.
  // -------------------------------------------------------------------

  lemma {:induction false} AllBlankCons(l: Line, more: seq<Line>)
    ensures AllBlank([l] + more) <==> l == Blank && AllBlank(more)
  {
    var lines := [l] + more;
    assert lines[0] == l;
    assert forall i :: 0 <= i < |more| ==> lines[i + 1] == more[i];
  }

  lemma {:induction false} BlankFlat(items: Items)
    requires WellNested(items)
    ensures AllBlank(Flat(items, [])) == BlankItems(items)
    ensures BlankItems(items) ==> GuardOf(items).None?
    decreases items
  {
    match items
    case Nil =>
    case Plain(l, tail) =>
      BlankFlat(tail);
      AllBlankCons(l, Flat(tail, []));
    case Section(s, _, _, _, _) =>
      assert Flat(items, [])[0] == Open(s);
  }

  lemma {:induction false} BlankExec(env: Env, file: Path, depth: nat, items: Items, w: World)
    requires BlankItems(items)
    ensures Exec(env, file, depth, items, w) == Some(w)
    decreases items
  {
    if items.Plain? {
      assert ExecLine(env, file, depth, Blank, w) == Some(w);
      BlankExec(env, file, depth, items.tail, w);
    }
  }

  /** The guard an outermost section at the beginning of a file stands for is
      the guard of the file, if the rest is blank. */
  lemma {:induction false} SectionGuardOf(env: Env, sec: Items, w: World)
    requires sec.Section? && !sec.stray && WellNested(sec) && Tested(env, sec.s, w).Some?
    ensures var g := GuardOf(sec);
            var f := SectionGuard(env, sec, Flat(sec.tail, []), true, w);
            if g.Some? && g.value !in w.macros then f == g && BlankItems(sec.tail)
            else f.None? || !BlankItems(sec.tail)
  {
    if sec.body.Plain? {
      assert Inside(sec, Flat(sec.tail, []))[0] == sec.body.line;
    }
  }

  /** The flat machine reads a file to the world its nested meaning gives, its
      recorded include guard included, and ends with no open conditional. */
  lemma {:induction false} FlatFile(env: Env, p: Path, depth: nat, items: Items, w: World)
    requires WellNested(items)
    ensures FlatRun(env, p, depth, Flat(items, []), [], true, w)
         == match Exec(env, p, depth, items, w) {
              case None => None
              case Some(w') =>
                var g := GuardOf(items);
                if g.Some? && g.value !in w.macros then Some(Recorded(w', p, g.value)) else Some(w')
            }
    decreases items
  {
    match items
    case Nil =>
    case Plain(l, tail) =>
      FlatSimple(env, p, depth, l, Flat(tail, []), [], true, w);
      if l == Blank {
        FlatFile(env, p, depth, tail, w);
        assert ExecLine(env, p, depth, l, w) == Some(w);
      } else {
        match ExecLine(env, p, depth, l, w) {
          case None =>
          case Some(w1) => FlatItems(env, p, depth, tail, [], [], w1);
        }
      }
    case Section(_, _, _, _, tail) =>
      FlatSection(env, p, depth, items, Flat(tail, []), [], true, w);
      BlankFlat(tail);
      match ExecSection(env, p, depth, items, w) {
        case None =>
        case Some(w1) =>
          SectionGuardOf(env, items, w);
          var g := SectionGuard(env, items, Flat(tail, []), true, w);
          var w2 := Closed(p, Frame(false, g, false), BlankItems(tail), w1);
          FlatItems(env, p, depth, tail, [], [], w2);
          if BlankItems(tail) {
            BlankExec(env, p, depth, tail, w1);
            BlankExec(env, p, depth, tail, w2);
          }
      }
  }

  // -------------------------------------------------------------------
  // Lists of lines that are not nested are rejected.
  // -------------------------------------------------------------------

  /** Depth of open conditionals after the lines; None when a part or an end
      stands outside all conditionals. */
  function Brackets(lines: seq<Line>, d: nat): Option<nat> {
    if lines == [] then Some(d)
    else if lines[0].Open? then Brackets(lines[1..], d + 1)
    else if lines[0].Endif? then (if d == 0 then None else Brackets(lines[1..], d - 1))
    else if (lines[0].Elif? || lines[0].Else?) && d == 0 then None
    else Brackets(lines[1..], d)
  }

  lemma {:induction false} SkipBrackets(lines: seq<Line>, nested: nat, d: nat)
    requires d > 0
    ensures Brackets(lines, d + nested) == Some(0) ==> Brackets(Skip(lines, nested), d) == Some(0)
    ensures Skip(lines, nested) != [] && Brackets(Skip(lines, nested), d) == Some(0)
            ==> Brackets(lines, d + nested) == Some(0)
  {
    if lines == [] {
    } else if nested == 0 && (lines[0].Elif? || lines[0].Else? || lines[0].Endif?) {
    } else {
      SkipBrackets(lines[1..],
                   if lines[0].Open? then nested + 1 else if lines[0].Endif? then nested - 1 else nested, d);
    }
  }

  /** What the machine accepts has its conditionals matched, inside skipped
      groups too. */
  lemma {:induction false} AcceptedMatched(env: Env, file: Path, depth: nat, lines: seq<Line>, conds: seq<Frame>,
                                           bof: bool, w: World)
    requires FlatRun(env, file, depth, lines, conds, bof, w).Some?
    ensures Brackets(lines, |conds|) == Some(0)
    decreases |lines|, 1
  {
    if lines != [] {
      var l, more := lines[0], lines[1..];
      if l.Open? {
        var (b, w1) := Tested(env, l.s, w).value;
        var f := Frame(!b, if b then GuardAt(l.s, bof, more) else None, false);
        AcceptedBehind(env, file, depth, more, b, conds + [f], w1);
      } else if l.Elif? || l.Else? {
        AcceptedPart(env, file, depth, lines, conds, bof, w);
      } else if l.Endif? {
        AcceptedMatched(env, file, depth, more, Below(conds), false,
                        Closed(file, Top(conds), |conds| == 1 && AllBlank(more), w));
      } else {
        assert lines == [l] + more;
        FlatSimple(env, file, depth, l, more, conds, bof, w);
        AcceptedSimple(env, file, depth, more, conds, bof && l == Blank, ExecLine(env, file, depth, l, w));
      }
    }
  }

  lemma {:induction false} AcceptedSimple(env: Env, file: Path, depth: nat, more: seq<Line>, conds: seq<Frame>,
                                          bof: bool, w: Option<World>)
    requires AndThen(env, file, depth, more, conds, bof, w).Some?
    ensures Brackets(more, |conds|) == Some(0)
    decreases |more|, 2
  {
    AcceptedMatched(env, file, depth, more, conds, bof, w.value);
  }

  /** Behind a directive whose group is processed or skipped. */
  lemma {:induction false} AcceptedBehind(env: Env, file: Path, depth: nat, more: seq<Line>, b: bool,
                                          conds: seq<Frame>, w: World)
    requires conds != [] && FlatRun(env, file, depth, if b then more else Skip(more, 0), conds, false, w).Some?
    ensures Brackets(more, |conds|) == Some(0)
    decreases |more|, 2
  {
    AcceptedMatched(env, file, depth, if b then more else Skip(more, 0), conds, false, w);
    SkipBrackets(more, 0, |conds|);
  }

  lemma {:induction false} AcceptedPart(env: Env, file: Path, depth: nat, lines: seq<Line>, conds: seq<Frame>,
                                        bof: bool, w: World)
    requires lines != [] && (lines[0].Elif? || lines[0].Else?)
    requires FlatRun(env, file, depth, lines, conds, bof, w).Some?
    ensures Brackets(lines, |conds|) == Some(0)
    decreases |lines|, 0
  {
    var more := lines[1..];
    var f := Top(conds).(guard := None);
    if !f.skip {
      AcceptedBehind(env, file, depth, more, false, Below(conds) + [f], w);
    } else if lines[0].Elif? {
      var (b, w1) := TestedExpr(env, lines[0].expr, w).value;
      AcceptedBehind(env, file, depth, more, b, Below(conds) + [f.(skip := !b)], w1);
    } else {
      AcceptedBehind(env, file, depth, more, true, Below(conds) + [Frame(false, None, true)], w);
    }
  }

  // -------------------------------------------------------------------
  // Reading the nested text back from its lines.
  // -------------------------------------------------------------------

  predicate Stops(lines: seq<Line>) { lines == [] || IsPart(lines[0]) }

  lemma {:induction false} ReadItemsFlat(lines: seq<Line>)
    requires ReadItems(lines).Some?
    ensures var (items, rest) := ReadItems(lines).value; WellNested(items) && Flat(items, rest) == lines && Stops(rest)
    decreases |lines|, 1
  {
    if Stops(lines) {
    } else if lines[0].Open? {
      var (body, atParts) := ReadItems(lines[1..]).value;
      var (parts, stray, after) := ReadParts(atParts).value;
      ReadItemsFlat(lines[1..]);
      ReadPartsFlat(atParts);
      ReadItemsFlat(after);
      assert [lines[0]] + lines[1..] == lines;
    } else {
      ReadItemsFlat(lines[1..]);
      assert [lines[0]] + lines[1..] == lines;
    }
  }

  lemma {:induction false} ReadPartsFlat(lines: seq<Line>)
    requires ReadParts(lines).Some?
    ensures var (parts, stray, after) := ReadParts(lines).value;
            WellNestedParts(parts) && FlatParts(parts, [Endif(stray)] + after) == lines
    decreases |lines|, 0
  {
    assert [lines[0]] + lines[1..] == lines;
    if !lines[0].Endif? {
      var (body, atParts) := ReadItems(lines[1..]).value;
      ReadItemsFlat(lines[1..]);
      ReadPartsFlat(atParts);
    }
  }

  lemma {:induction false} FlatRead(items: Items, more: seq<Line>)
    requires WellNested(items) && Stops(more)
    ensures ReadItems(Flat(items, more)) == Some((items, more))
    decreases items
  {
    match items
    case Nil =>
    case Plain(l, tail) =>
      FlatRead(tail, more);
      assert ([l] + Flat(tail, more))[1..] == Flat(tail, more);
    case Section(s, body, parts, stray, tail) =>
      var after := Flat(tail, more);
      var inner := FlatParts(parts, [Endif(stray)] + after);
      PartsStop(parts, stray, after);
      FlatRead(body, inner);
      FlatReadParts(parts, stray, after);
      FlatRead(tail, more);
      assert ([Open(s)] + Flat(body, inner))[1..] == Flat(body, inner);
  }

  lemma {:induction false} PartsStop(parts: Parts, stray: bool, after: seq<Line>)
    ensures Stops(FlatParts(parts, [Endif(stray)] + after))
  {
  }

  lemma {:induction false} FlatReadParts(parts: Parts, stray: bool, after: seq<Line>)
    requires WellNestedParts(parts)
    ensures ReadParts(FlatParts(parts, [Endif(stray)] + after)) == Some((parts, stray, after))
    decreases parts
  {
    var lines := FlatParts(parts, [Endif(stray)] + after);
    match parts
    case NoPart =>
      assert lines[1..] == after;
    case PElif(e, body, rest) =>
      var inner := FlatParts(rest, [Endif(stray)] + after);
      assert lines[1..] == Flat(body, inner);
      PartsStop(rest, stray, after);
      FlatRead(body, inner);
      FlatReadParts(rest, stray, after);
    case PElse(_, body, rest) =>
      var inner := FlatParts(rest, [Endif(stray)] + after);
      assert lines[1..] == Flat(body, inner);
      PartsStop(rest, stray, after);
      FlatRead(body, inner);
      FlatReadParts(rest, stray, after);
  }

  /** A list of lines is a nested text exactly when its reading succeeds, and
      then the text read is the only one. */
  lemma {:induction false} NestIff(lines: seq<Line>, items: Items)
    ensures Nest(lines) == Some(items) <==> WellNested(items) && Flat(items, []) == lines
  {
    if ReadItems(lines).Some? { ReadItemsFlat(lines); }
    if WellNested(items) && Flat(items, []) == lines { FlatRead(items, []); }
  }

  /** Matched brackets are enough for the reading to succeed. */
  lemma {:induction false} BracketsRead(lines: seq<Line>, d: nat)
    requires Brackets(lines, d) == Some(0)
    ensures ReadItems(lines).Some?
    ensures var rest := ReadItems(lines).value.1; Stops(rest) && Brackets(rest, d) == Some(0)
    ensures d == 0 ==> ReadItems(lines).value.1 == []
    decreases |lines|, 1
  {
    if Stops(lines) {
    } else if lines[0].Open? {
      BracketsRead(lines[1..], d + 1);
      var atParts := ReadItems(lines[1..]).value.1;
      BracketsParts(atParts, d + 1);
      BracketsRead(ReadParts(atParts).value.2, d);
    } else {
      BracketsRead(lines[1..], d);
    }
  }

  lemma {:induction false} BracketsParts(lines: seq<Line>, d: nat)
    requires d > 0 && Stops(lines) && Brackets(lines, d) == Some(0)
    ensures ReadParts(lines).Some? && Brackets(ReadParts(lines).value.2, d - 1) == Some(0)
    decreases |lines|, 0
  {
    if !lines[0].Endif? {
      BracketsRead(lines[1..], d);
      BracketsParts(ReadItems(lines[1..]).value.1, d);
    }
  }

  /** What the machine accepts as a whole file is the lines of a nested text. */
  lemma {:induction false} AcceptedNested(env: Env, file: Path, depth: nat, lines: seq<Line>, w: World)
    requires FlatRun(env, file, depth, lines, [], true, w).Some?
    ensures Nest(lines).Some?
    ensures exists items :: WellNested(items) && Flat(items, []) == lines
  {
    AcceptedMatched(env, file, depth, lines, [], true, w);
    BracketsRead(lines, 0);
    NestIff(lines, Nest(lines).value);
  }

  /** Whatever lines a file has, the flat machine reads it to the meaning of its
      nested text, and rejects it when it has none. */
  lemma {:induction false} FlatLines(env: Env, p: Path, depth: nat, w: World)
    requires p in env.files
    ensures FlatRun(env, p, depth, env.files[p], [], true, w) == ExecFile(env, p, depth, w)
  {
    var lines := env.files[p];
    if Nest(lines).Some? {
      NestIff(lines, Nest(lines).value);
      FlatFile(env, p, depth, Nest(lines).value, w);
    } else if FlatRun(env, p, depth, lines, [], true, w).Some? {
      AcceptedNested(env, p, depth, lines, w);
    }
  }
}
