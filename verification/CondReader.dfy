/** The conditional machine as the program runs it: a stream per file with its
    place and its stack of open conditionals, over one context of macros and
    recorded guards that all files change in place. */
module CondReader {
  import opened Wrappers
  import opened Conditionals
  import opened CondMachine

  class Context {
    var macros: map<Name, Mac>
    var guarded: map<Path, (Name, nat)>
    var next: nat
    var out: seq<string>
    var tested: seq<string>
    var records: seq<(Path, Path)>

    constructor ()
      ensures Now() == World(map[], map[], 0, [], [], [])
    {
      macros, guarded, next, out, tested, records := map[], map[], 0, [], [], [];
    }

    function Now(): World
      reads this
    {
      World(macros, guarded, next, out, tested, records)
    }

    method DoDefine(n: Name, body: string, file: Path)
      modifies this
      ensures Now() == Defined(old(Now()), n, body, file)
    {
      if n in macros {
        var m := macros[n];
        if m.body == body {
          return;
        }
        if m.guard {
          guarded := Without(guarded, m.file);
        }
        macros := macros[n := Mac(m.id, body, file, false)];
      } else {
        macros := macros[n := Mac(next, body, file, false)];
        next := next + 1;
      }
    }

    method DoUndef(n: Name)
      modifies this
      ensures Now() == Undefined(old(Now()), n)
    {
      if n in macros {
        var m := macros[n];
        macros := Without(macros, n);
        if m.guard {
          guarded := Without(guarded, m.file);
        }
      }
    }

    method Record(p: Path, n: Name)
      modifies this
      ensures Now() == Recorded(old(Now()), p, n)
    {
      if n in macros {
        macros := macros[n := macros[n].(guard := true)];
        guarded := guarded[p := (n, macros[n].id)];
        records := records + [(p, macros[n].file)];
      }
    }
  }

  class Stream {
    const env: Env
    const path: Path
    const depth: nat
    const lines: seq<Line>
    const ctx: Context
    var pos: nat
    var conds: seq<Frame>
    var bof: bool

    constructor (env: Env, path: Path, depth: nat, ctx: Context)
      requires path in env.files
      ensures this.env == env && this.path == path && this.depth == depth && this.ctx == ctx
      ensures lines == env.files[path] && pos == 0 && conds == [] && bof
    {
      this.env, this.path, this.depth, this.ctx := env, path, depth, ctx;
      lines := env.files[path];
      pos, conds, bof := 0, [], true;
    }

    function Left(): seq<Line>
      reads this
    {
      if pos <= |lines| then lines[pos..] else []
    }

    /** What the reading of this file will come to. */
    function Goal(): Option<World>
      reads this, ctx
    {
      FlatRun(env, path, depth, Left(), conds, bof, ctx.Now())
    }

    /** cond_stack_skip. */
    method CondSkip()
      requires pos <= |lines|
      modifies this`pos
      ensures old(pos) <= pos <= |lines| && Left() == Skip(old(Left()), 0)
    {
      var nested: nat := 0;
      while pos < |lines|
        invariant old(pos) <= pos <= |lines| && Skip(Left(), nested) == Skip(old(Left()), 0)
      {
        var l := lines[pos];
        assert Left()[1..] == lines[pos + 1..];
        if nested == 0 && (l.Elif? || l.Else? || l.Endif?) {
          return;
        } else if l.Open? {
          nested := nested + 1;
        } else if l.Endif? {
          nested := nested - 1;
        }
        pos := pos + 1;
      }
    }

    /** Decides an opening directive. */
    method Test(s: Start) returns (ok: bool, b: bool)
      modifies ctx
      ensures var r := Tested(env, s, old(ctx.Now()));
              ok == r.Some? && (ok ==> r.value == (b, ctx.Now()))
    {
      match s
      case Ifdef(n) => return true, n in ctx.macros;
      case Ifndef(n) => return true, n !in ctx.macros;
      case If(e) => ok, b := TestExpr(e);
    }

    method TestExpr(e: string) returns (ok: bool, b: bool)
      modifies ctx
      ensures var r := TestedExpr(env, e, old(ctx.Now()));
              ok == r.Some? && (ok ==> r.value == (b, ctx.Now()))
    {
      match env.decide(e, ctx.macros)
      case None => return false, false;
      case Some(t) =>
        ctx.tested := ctx.tested + [e];
        return true, t;
    }

    /** The line at pos has just been passed. */
    ghost predicate At(l: Line)
      reads this
    {
      pos < |lines| && lines[pos] == l
    }

    /** do_if, do_ifdef and do_ifndef. */
    method DoOpen(s: Start) returns (ok: bool)
      requires At(Open(s))
      modifies this, ctx
      ensures if ok then Goal() == old(Goal()) && old(pos) < pos <= |lines| else old(Goal()) == None
    {
      hide Flat, Skip, Exec;
      assert Left()[1..] == lines[pos + 1..];
      var included;
      ok, included := Test(s);
      if !ok {
        return;
      }
      pos := pos + 1;
      var f := Frame(false, None, false);
      if !included {
        f := f.(skip := true);
        CondSkip();
      } else if s.Ifndef? && bof && pos < |lines| && lines[pos].Define? && lines[pos].n == s.n {
        f := f.(guard := Some(s.n));
      }
      conds := conds + [f];
      bof := false;
    }

    method DoElif(e: string) returns (ok: bool)
      requires At(Elif(e))
      modifies this, ctx
      ensures if ok then Goal() == old(Goal()) && old(pos) < pos <= |lines| else old(Goal()) == None
    {
      hide Flat, Skip, Exec;
      assert Left()[1..] == lines[pos + 1..];
      if conds == [] || Top(conds).inElse {
        return false;
      }
      var f := Top(conds).(guard := None);
      pos := pos + 1;
      bof := false;
      if !f.skip {
        CondSkip();
      } else {
        var included;
        ok, included := TestExpr(e);
        if !ok {
          return;
        }
        if !included {
          CondSkip();
        } else {
          f := f.(skip := false);
        }
      }
      conds := Below(conds) + [f];
      return true;
    }

    method DoElse(stray: bool) returns (ok: bool)
      requires At(Else(stray))
      modifies this, ctx
      ensures if ok then Goal() == old(Goal()) && old(pos) < pos <= |lines| else old(Goal()) == None
    {
      hide Flat, Skip, Exec;
      assert Left()[1..] == lines[pos + 1..];
      if conds == [] || Top(conds).inElse {
        return false;
      }
      var f := Top(conds).(guard := None);
      pos := pos + 1;
      bof := false;
      if !f.skip {
        CondSkip();
      } else {
        f := Frame(false, None, true);
        if stray {
          return false;
        }
      }
      conds := Below(conds) + [f];
      return true;
    }

    method DoEndif(stray: bool) returns (ok: bool)
      requires At(Endif(stray))
      modifies this, ctx
      ensures if ok then Goal() == old(Goal()) && old(pos) < pos <= |lines| else old(Goal()) == None
    {
      assert Left()[1..] == lines[pos + 1..];
      if conds == [] || stray {
        return false;
      }
      pos := pos + 1;
      bof := false;
      var f := Top(conds);
      var blank := RestBlank();
      if blank && |conds| == 1 && f.guard.Some? {
        ctx.Record(path, f.guard.value);
      }
      conds := Below(conds);
      return true;
    }

    /** Whether only blank lines are left. */
    method RestBlank() returns (b: bool)
      requires pos <= |lines|
      ensures b == AllBlank(Left())
    {
      var i := pos;
      while i < |lines|
        invariant pos <= i <= |lines|
        invariant forall k :: pos <= k < i ==> lines[k] == Blank
      {
        if lines[i] != Blank {
          assert Left()[i - pos] == lines[i];
          return false;
        }
        i := i + 1;
      }
      return true;
    }

    /** do_include; the included file is read to its end before this one goes on. */
    method DoInclude(p: Path) returns (ok: bool)
      modifies ctx
      ensures if ok then ExecLine(env, path, depth, Include(p), old(ctx.Now())) == Some(ctx.Now())
              else ExecLine(env, path, depth, Include(p), old(ctx.Now())) == None
      decreases Fuel(depth), 0
    {
      if depth >= INCLUDE_MAX || p !in env.files {
        return false;
      }
      if env.fast && p in ctx.guarded {
        var (n, id) := ctx.guarded[p];
        if n !in ctx.macros || ctx.macros[n].id != id {
          return false;
        }
        if ctx.macros[n].guard && ctx.macros[n].file == p {
          return true;
        }
      }
      var s := new Stream(env, p, depth + 1, ctx);
      ok := s.Read();
    }

    /** A line that opens and closes nothing. */
    method DoSimple(l: Line) returns (ok: bool)
      requires Simple(l)
      modifies ctx
      ensures if ok then ExecLine(env, path, depth, l, old(ctx.Now())) == Some(ctx.Now())
              else ExecLine(env, path, depth, l, old(ctx.Now())) == None
      decreases Fuel(depth), 1
    {
      match l {
        case Text(t) => ctx.out := ctx.out + [t];
        case Define(n, body) => ctx.DoDefine(n, body, path);
        case Undef(n) => ctx.DoUndef(n);
        case Include(p) => ok := DoInclude(p); return;
        case Bad => return false;
        case _ =>
      }
      return true;
    }

    /** Passes a line that opens and closes nothing. */
    method DoOther(l: Line) returns (ok: bool)
      requires At(l) && Simple(l)
      modifies this, ctx
      ensures if ok then Goal() == old(Goal()) && pos == old(pos) + 1 else old(Goal()) == None
      decreases Fuel(depth), 2
    {
      hide Flat;
      FlatSimple(env, path, depth, l, lines[pos + 1..], conds, bof, ctx.Now());
      assert Left() == [l] + lines[pos + 1..];
      ok := DoSimple(l);
      pos := pos + 1;
      bof := bof && l == Blank;
    }

    /** Reads the file: its effect is the meaning of its nested text; lines that
        are none are rejected. */
    method Read() returns (ok: bool)
      requires path in env.files
      requires lines == env.files[path] && pos == 0 && conds == [] && bof
      modifies this, ctx
      ensures if ok then ExecFile(env, path, depth, old(ctx.Now())) == Some(ctx.Now())
              else ExecFile(env, path, depth, old(ctx.Now())) == None
      decreases Fuel(depth), 3
    {
      FlatLines(env, path, depth, ctx.Now());
      assert Left() == lines;
      while pos < |lines|
        invariant pos <= |lines| && Goal() == old(Goal())
        decreases |lines| - pos
      {
        var l := lines[pos];
        match l {
          case Open(s) => ok := DoOpen(s);
          case Elif(e) => ok := DoElif(e);
          case Else(stray) => ok := DoElse(stray);
          case Endif(stray) => ok := DoEndif(stray);
          case _ => ok := DoOther(l);
        }
        if !ok {
          return;
        }
      }
      return conds == [];
    }
  }
}
