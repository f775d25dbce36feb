/** The preflight as the program runs it: two passes over the lines of each file, growing the script's
    names and the report, and a recursive call for every script a line launches
    (core/CommandExecutor.h:843-1105). */
module PreflightWalk {
  import opened Preflight
  import PreflightReport

  /** What preflight_one keeps for one script while it walks the lines. */
  class ScriptCheck {
    const path: Path
    const globals: Scope
    var local: Scope
    var introduced: set<string>
    var problems: seq<Problem>
    var notes: seq<(Path, nat, string)>

    ghost function Reached(): Progress
      reads this
    {
      Progress(local, introduced, problems, notes)
    }

    constructor (path: Path, provided: Scope, globals: Scope)
      ensures this.path == path && this.globals == globals
      ensures Reached() == Progress(provided, {}, [], [])
    {
      this.path, this.globals := path, globals;
      local, introduced, problems, notes := provided, {}, [], [];
    }

    method Lookup(n: string) returns (have: Option<Name>)
      ensures have == Visible(local, globals, n)
    {
      if n in local {
        return Some(local[n]);
      }
      have := if n in globals then Some(globals[n]) else None;
    }

    method Report(p: Problem)
      modifies this`problems
      ensures problems == old(problems) + [p]
    {
      problems := problems + [p];
    }

    method NeedReceiver(n: string, line: nat)
      modifies this`problems
      ensures Reached() == Receiver(old(Reached()), globals, path, line, n)
    {
      var have := Lookup(n);
      if have.None? {
        Report(NeverIntroduced(path, line, n));
      }
    }

    method IntroduceName(n: string, pn: Name, line: nat, quiet: bool, clash: bool)
      modifies this
      ensures Reached() == Introduce(old(Reached()), globals, path, line, n, pn, quiet, clash)
    {
      if n in introduced {
        Report(IntroducedTwice(path, line, n));
        return;
      }
      introduced := introduced + {n};
      if !clash && n in globals && pn.typed && globals[n].typed {
        var differs := Differ(globals[n], pn);
        if differs && !quiet {
          Report(OtherTypeInRoot(path, line, n));
        } else if !differs {
          notes := notes + [(path, line, n)];
        }
      }
      local := local[n := pn];
    }

    method RequireName(n: string, line: nat)
      modifies this
      ensures Reached() == Require(old(Reached()), globals, path, line, n)
    {
      var have := Lookup(n);
      if have.None? {
        Report(RequiresNothing(path, line, n));
      }
      IntroduceName(n, if have.Some? then have.value else Untyped, line, false, false);
    }

    method AcquireName(a: Command, line: nat)
      requires a.Acquire?
      modifies this
      ensures Reached() == CheckAcquire(old(Reached()), globals, path, line, a)
    {
      var pn := Name(a.mod, a.tag, true);
      var have := Lookup(a.name);
      match a.verb {
        case Spawn =>
          if have.Some? { Report(Clobbers(path, line, a.name)); }
        case Attach =>
          if have.None? {
            Report(NothingToAttach(path, line, a.name));
          } else if have.value.typed && Differ(have.value, pn) {
            Report(OtherType(path, line, a.name));
          }
        case Ensure =>
          if have.Some? && have.value.typed && Differ(have.value, pn) { Report(OtherType(path, line, a.name)); }
      }
      hide Visible, Introduce;
      IntroduceName(a.name, pn, line, a.verb != Spawn, a.verb == Spawn);
    }

    method AcquireChild(a: Command, line: nat)
      requires a.ChildAcquire?
      modifies this
      ensures Reached() == CheckChildAcquire(old(Reached()), globals, path, line, a)
    {
      NeedReceiver(a.parent, line);
      var have := Lookup(a.name);
      if a.verb == Spawn && have.Some? {
        Report(Clobbers(path, line, a.name));
      }
      if a.verb == Attach && have.None? {
        Report(NothingToAttach(path, line, a.name));
      }
      hide Visible, Introduce;
      IntroduceName(a.name, Name(a.mod, a.tag, true), line, a.verb != Spawn, a.verb == Spawn);
    }

    /** Checks every binding of a launch line and collects what the launched script is handed. */
    method HandOver(bindings: seq<Binding>, line: nat) returns (provided: Scope)
      modifies this`problems
      ensures Reached() == CheckBindings(old(Reached()), globals, path, line, bindings)
      ensures provided == Handed(local, globals, bindings)
    {
      provided := map[];
      for i := 0 to |bindings|
        invariant Reached() == CheckBindings(old(Reached()), globals, path, line, bindings[..i])
        invariant provided == Handed(local, globals, bindings[..i])
        invariant local == old(local) && introduced == old(introduced) && notes == old(notes)
      {
        assert bindings[..i + 1][..i] == bindings[..i];
        var have := Lookup(bindings[i].parentKey);
        if have.None? {
          Report(BadBinding(path, line, bindings[i].parentKey));
        } else {
          provided := provided[bindings[i].childKey := have.value];
        }
      }
      assert bindings[..|bindings|] == bindings;
    }

    /** One line of pass 2; a launch line also says what the launched script is handed. */
    method WalkLine(line: Line) returns (provided: Scope)
      modifies this
      ensures Reached() == CheckLine(old(Reached()), globals, path, line)
      ensures line.cmd.Launch? ==> provided == Handed(old(local), globals, line.cmd.bindings)
    {
      provided := map[];
      match line.cmd {
        case Malformed(_) => Report(ParseError(path, line.number));
        case Acquire(_, _, _, _) => AcquireName(line.cmd, line.number);
        case ChildAcquire(_, _, _, _, _) => AcquireChild(line.cmd, line.number);
        case Action(receiver, stream, consumer) =>
          NeedReceiver(receiver, line.number);
          if stream {
            NeedReceiver(consumer, line.number);
          }
        case Kill(receiver) => NeedReceiver(receiver, line.number);
        case Unflag(receiver) => NeedReceiver(receiver, line.number);
        case Launch(_, bindings, _) => provided := HandOver(bindings, line.number);
        case Requires(_) =>
        case Exit =>
      }
    }
  }

  method PreflightOne(files: Files, path: Path, provided: Scope, globals: Scope, stack: seq<Path>, isRoot: bool) returns (rep: Report)
    ensures rep == One(files, path, provided, globals, stack, isRoot)
    decreases |Left(files, stack)|
  {
    if path in stack {
      return Report([Cycle(stack, path)], []);
    }
    if path !in files {
      return Report([CannotOpen(path)], []);
    }
    hide CheckLine, Require, Handed;
    var lines := files[path];
    var check := new ScriptCheck(path, provided, if isRoot then map[] else globals);
    ghost var start := check.Reached();
    for i := 0 to |lines|
      invariant check.Reached() == PassOne(start, check.globals, path, lines, i)
    {
      if lines[i].cmd.Requires? {
        check.RequireName(lines[i].cmd.name, lines[i].number);
      }
    }
    for i := 0 to |lines|
      invariant check.Reached() == PassTwo(files, path, provided, globals, stack, isRoot, i)
    {
      var handed := check.WalkLine(lines[i]);
      if lines[i].cmd.Launch? {
        LeftShrinks(files, stack, path);
        var child := PreflightOne(files, lines[i].cmd.script, handed, globals, stack + [path], false);
        check.problems, check.notes := check.problems + child.problems, check.notes + child.notes;
      }
    }
    rep := Report(check.problems, check.notes);
  }

  /** The report has a cycle exactly if the launch graph has one, and its problems and notes are exactly those of
      the places that launches lead to. */
  method PreflightScriptTree(files: Files, root: Path, launch: Scope) returns (rep: Report)
    ensures rep == Tree(files, root, launch)
    ensures HasCycle(rep.problems) <==> exists w :: Returns(files, root, [], w)
    ensures Exact(files, root, launch, rep)
  {
    TreeCycleIff(files, root, launch);
    TreeIsExact(files, root, launch);
    hide HasCycle, Exact;
    if root !in files {
      return Report([CannotOpen(root)], []);
    }
    var lines, globals := files[root], launch;
    for i := 0 to |lines|
      invariant globals == Globals(launch, lines, i)
    {
      match lines[i].cmd {
        case Acquire(_, mod, tag, name) => globals := globals[name := Name(mod, tag, true)];
        case ChildAcquire(_, _, mod, tag, name) => globals := globals[name := Name(mod, tag, true)];
        case Requires(name) =>
          if name !in globals { globals := globals[name := Untyped]; }
        case _ =>
      }
    }
    rep := PreflightOne(files, root, launch, globals, [], true);
  }

  ghost predicate Exact(files: Files, root: Path, launch: Scope, rep: Report) {
    if root !in files then rep == Report([CannotOpen(root)], [])
    else
      var globals, from := RootGlobals(files, root, launch), PreflightReport.Root(root, launch);
      && (forall p :: p in rep.problems <==> PreflightReport.Reported(files, globals, from, p))
      && (forall t :: t in rep.notes <==> PreflightReport.Noted(files, globals, from, t))
  }

  lemma TreeIsExact(files: Files, root: Path, launch: Scope)
    ensures Exact(files, root, launch, Tree(files, root, launch))
  {
    var rep := Tree(files, root, launch);
    if root in files {
      var globals, from := RootGlobals(files, root, launch), PreflightReport.Root(root, launch);
      hide Tree, RootGlobals, PreflightReport.Reported, PreflightReport.Noted;
      forall p ensures p in rep.problems <==> PreflightReport.Reported(files, globals, from, p) {
        PreflightReport.TreeReportsIff(files, root, launch, p, (root, 0, ""));
      }
      forall t ensures t in rep.notes <==> PreflightReport.Noted(files, globals, from, t) {
        PreflightReport.TreeReportsIff(files, root, launch, CannotOpen(root), t);
      }
    }
  }
}
