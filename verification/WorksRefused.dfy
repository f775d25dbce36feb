/** One input for every clause of ScriptWorks.Regular: a tree that the preflight refuses, and a run of it in
    which every script comes to its end (core/CommandExecutor.h:774-777 against 843-1066, 1314-1605). The table
    of globals starts out with what the root is launched with and nothing else; the last input is one for
    ScriptWorks.OthersFit, and there an older name makes the difference. */
module WorksRefused {
  import opened Preflight
  import opened ScriptRuns
  import opened ScriptSafety
  import opened ScriptNames
  import opened ScriptWorks

  /** The preflight refuses the tree, and some run of it works, from a table of globals that holds `before`. */
  ghost predicate RefusedThoughItWorks(files: Files, root: Path, names: Names, before: Names) {
    && root in files && WellFormed(files)
    && Tree(files, root, LaunchScope(names)).problems != []
    && exists w :: Leads(files, RootGlobals(files, root, LaunchScope(names)), Begin(root, names, before), w) && Worked(w)
  }

  // ---- Runs, a line at a time ----------------------------------------------------------------------------

  ghost predicate Leads(files: Files, globals: Scope, o: World, w: World) {
    exists steps :: Reach(files, globals, o, steps) == w
  }

  lemma Stays(files: Files, globals: Scope, o: World)
    ensures Leads(files, globals, o, o)
  {
    assert Reach(files, globals, o, []) == o;
  }

  lemma Goes(files: Files, globals: Scope, o: World, w: World, s: Step)
    requires Leads(files, globals, o, w)
    ensures Leads(files, globals, o, Next(files, globals, w, s))
  {
    var steps :| Reach(files, globals, o, steps) == w;
    assert (steps + [s])[..|steps|] == steps;
    assert Reach(files, globals, o, steps + [s]) == Next(files, globals, w, s);
  }

  const Quiet := Answers(map[], 0, 0, true, false)

  ghost predicate NoRequires(lines: seq<Line>) {
    forall i :: 0 <= i < |lines| ==> !lines[i].cmd.Requires? && !lines[i].cmd.Malformed?
  }

  /** A script without requirements gets to its first line. */
  lemma Begins(files: Files, globals: Scope, o: World, w: World, i: nat)
    requires Leads(files, globals, o, w) && i < |w.acts| && w.acts[i].phase == Starting && w.acts[i].path in files
    requires NoRequires(files[w.acts[i].path])
    ensures Leads(files, globals, o, Turn(w, i, Running(0)))
  {
    hide Leads;
    Goes(files, globals, o, w, Act(i, Quiet));
    var w1 := Turn(w, i, Requiring(0));
    assert Next(files, globals, w, Act(i, Quiet)) == w1;
    BeginsFrom(files, globals, o, w1, i, 0);
    assert Turn(w1, i, Running(0)) == Turn(w, i, Running(0));
  }

  lemma {:induction false} BeginsFrom(files: Files, globals: Scope, o: World, w: World, i: nat, k: nat)
    requires Leads(files, globals, o, w) && i < |w.acts| && w.acts[i].phase == Requiring(k) && w.acts[i].path in files
    requires k <= |files[w.acts[i].path]| && NoRequires(files[w.acts[i].path])
    ensures Leads(files, globals, o, Turn(w, i, Running(0)))
    decreases |files[w.acts[i].path]| - k
  {
    hide Leads;
    Goes(files, globals, o, w, Act(i, Quiet));
    if k < |files[w.acts[i].path]| {
      var w1 := Turn(w, i, Requiring(k + 1));
      assert Next(files, globals, w, Act(i, Quiet)) == w1;
      BeginsFrom(files, globals, o, w1, i, k + 1);
      assert Turn(w1, i, Running(0)) == Turn(w, i, Running(0));
    }
  }

  ghost predicate AtLine(files: Files, w: World, i: nat, k: nat) {
    i < |w.acts| && w.acts[i].path in files && w.acts[i].phase == Running(k)
  }

  lemma Ends(files: Files, globals: Scope, o: World, w: World, i: nat)
    requires Leads(files, globals, o, w) && i < |w.acts| && w.acts[i].path in files
    requires w.acts[i].phase == Running(|files[w.acts[i].path]|)
    ensures Leads(files, globals, o, Turn(w, i, Stopped(Finished)))
  {
    hide Leads;
    Goes(files, globals, o, w, Act(i, Quiet));
  }

  /** A line that binds a name. */
  lemma Naming(files: Files, globals: Scope, o: World, w: World, i: nat, k: nat, a: Answers, n: string, b: Bound)
    requires Leads(files, globals, o, w) && AtLine(files, w, i, k) && k < |files[w.acts[i].path]|
    requires Run(files, w.acts[i].names, w.table, a, files[w.acts[i].path][k].cmd) == Binds(n, b)
    ensures Leads(files, globals, o, Bind(w, i, n, b, Running(k + 1)))
  {
    hide Leads, Run;
    Goes(files, globals, o, w, Act(i, a));
  }

  /** A line that does nothing to the names. */
  lemma Passing(files: Files, globals: Scope, o: World, w: World, i: nat, k: nat, a: Answers)
    requires Leads(files, globals, o, w) && AtLine(files, w, i, k) && k < |files[w.acts[i].path]|
    requires Run(files, w.acts[i].names, w.table, a, files[w.acts[i].path][k].cmd) == Continues
    ensures Leads(files, globals, o, Turn(w, i, Running(k + 1)))
  {
    hide Leads, Run;
    Goes(files, globals, o, w, Act(i, a));
  }

  lemma SpawnBinds(files: Files, names: Names, table: Names, o: Answers, cmd: Command)
    requires cmd.Acquire? && cmd.verb != Attach && cmd.name !in names && o.made != 0
    requires LookupLive(names, table, o.live, cmd.name).None?
    ensures Run(files, names, table, o, cmd) == Binds(cmd.name, Bound(o.made, cmd.mod, cmd.tag))
  {}

  lemma ChildSpawnBinds(files: Files, names: Names, table: Names, o: Answers, cmd: Command)
    requires Respawns(cmd) && o.made != 0
    requires LookupLive(names, table, o.live, cmd.name).None? && LookupLive(names, table, o.live, cmd.parent).Some?
    ensures Run(files, names, table, o, cmd) == Binds(cmd.name, Bound(o.made, cmd.mod, cmd.tag))
  {}

  /** A launch with nothing handed over. */
  lemma PlainLaunch(files: Files, names: Names, table: Names, o: Answers, cmd: Command)
    requires cmd.Launch? && cmd.bindings == [] && cmd.script in files && o.goes && !HasMalformed(files[cmd.script])
    ensures Run(files, names, table, o, cmd) == Starts(cmd.script, map["root" := Bound(o.rootRid, "", "")])
  {}

  ghost function Newcomer(files: Files, globals: Scope, a: Activation, k: nat, names: Names): Activation
    requires a.path in files && k < |files[a.path]| && files[a.path][k].cmd.Launch?
  {
    Activation(files[a.path][k].cmd.script, names, Starting, false,
      Handed(At(files, globals, a, k).local, Against(globals, a.isRoot), files[a.path][k].cmd.bindings), a.stack + [a.path])
  }

  /** A line that launches a script. */
  lemma Launching(files: Files, globals: Scope, o: World, w: World, i: nat, k: nat, a: Answers, names: Names)
    requires Leads(files, globals, o, w) && AtLine(files, w, i, k) && k < |files[w.acts[i].path]|
    requires files[w.acts[i].path][k].cmd.Launch?
    requires Run(files, w.acts[i].names, w.table, a, files[w.acts[i].path][k].cmd) == Starts(files[w.acts[i].path][k].cmd.script, names)
    ensures Leads(files, globals, o,
      World(w.table, Turn(w, i, Running(k + 1)).acts + [Newcomer(files, globals, w.acts[i], k, names)]))
  {
    hide Leads, Run;
    Goes(files, globals, o, w, Act(i, a));
  }

  /** A requirement that is met: bound, or dropped by a race. */
  lemma Meeting(files: Files, globals: Scope, o: World, w: World, i: nat, k: nat, a: Answers)
    requires Leads(files, globals, o, w) && i < |w.acts| && w.acts[i].path in files && w.acts[i].phase == Requiring(k)
    requires k < |files[w.acts[i].path]| && files[w.acts[i].path][k].cmd.Requires?
    ensures Leads(files, globals, o, Require1(w, i, a, files[w.acts[i].path][k].cmd.name, k))
  {
    hide Leads, Require1;
    Goes(files, globals, o, w, Act(i, a));
  }

  /** Any other step. */
  lemma Turning(files: Files, globals: Scope, o: World, w: World, i: nat, next: Phase)
    requires Leads(files, globals, o, w) && i < |w.acts| && w.acts[i].path in files
    requires match w.acts[i].phase
      case Starting => next == Requiring(0) && !HasMalformed(files[w.acts[i].path])
      case Requiring(k) =>
        if k == |files[w.acts[i].path]| then next == Running(0)
        else k < |files[w.acts[i].path]| && !files[w.acts[i].path][k].cmd.Requires? && next == Requiring(k + 1)
      case Running(k) => k < |files[w.acts[i].path]| && files[w.acts[i].path][k].cmd.Exit? && next == Stopped(Exited)
      case _ => false
    ensures Leads(files, globals, o, Turn(w, i, next))
  {
    hide Leads;
    Goes(files, globals, o, w, Act(i, Quiet));
  }

  lemma RequiresPass(files: Files, names: Names, table: Names, o: Answers, cmd: Command)
    requires cmd.Requires?
    ensures Run(files, names, table, o, cmd) == Continues
  {}

  /** A script without requirements starts from what it is handed. */
  lemma {:induction false} FirstLocal(files: Files, globals: Scope, a: Activation, k: nat)
    requires a.path in files && NoRequires(files[a.path]) && k <= |files[a.path]|
    ensures Before(files, globals, a, k).local == a.provided && At(files, globals, a, 0) == Before(files, globals, a, |files[a.path]|)
  {
    if k > 0 { FirstLocal(files, globals, a, k - 1); }
  }

  // ---- What is reported --------------------------------------------------------------------------------------

  lemma TwiceReported(files: Files, globals: Scope, a: Activation, i: nat, j: nat, n: string)
    requires a.path in files && i < |files[a.path]| && j < |files[a.path]| && i != j
    requires Introduces(files[a.path][i].cmd, n) && Introduces(files[a.path][j].cmd, n)
    ensures !Clean(files, globals, a)
  {
    if Clean(files, globals, a) {
      CleanIsOwnClean(files, globals, a);
      IntroducedOnce(files, globals, a, i, j, n);
    }
  }

  lemma SpawnReported(files: Files, globals: Scope, a: Activation, k: nat)
    requires a.path in files && k < |files[a.path]| && files[a.path][k].cmd.Acquire? && files[a.path][k].cmd.verb == Spawn
    requires Visible(At(files, globals, a, k).local, Against(globals, a.isRoot), files[a.path][k].cmd.name).Some?
    ensures !Clean(files, globals, a)
  {
    if Clean(files, globals, a) {
      CleanStep(files, globals, a, k);
      SpawnClean(At(files, globals, a, k), Against(globals, a.isRoot), a.path, files[a.path][k]);
    }
  }

  lemma ChildSpawnReported(files: Files, globals: Scope, a: Activation, k: nat)
    requires a.path in files && k < |files[a.path]| && Respawns(files[a.path][k].cmd)
    requires Visible(At(files, globals, a, k).local, Against(globals, a.isRoot), files[a.path][k].cmd.name).Some?
    ensures !Clean(files, globals, a)
  {
    if Clean(files, globals, a) {
      CleanStep(files, globals, a, k);
      ChildSpawnClean(At(files, globals, a, k), Against(globals, a.isRoot), a.path, files[a.path][k].number, files[a.path][k].cmd);
    }
  }

  lemma ChildSpawnClean(c: Progress, g: Scope, path: Path, line: nat, a: Command)
    requires a.ChildAcquire? && a.verb == Spawn && CheckChildAcquire(c, g, path, line, a).problems == []
    ensures Visible(c.local, g, a.name).None?
  {
    var c1 := Receiver(c, g, path, line, a.parent);
    var have := Visible(c.local, g, a.name);
    IntroduceClean(Complain(c1, have.Some?, Clobbers(path, line, a.name)), g, path, line, a.name, Name(a.mod, a.tag, true), false, true);
  }

  lemma OtherTypeReported(files: Files, globals: Scope, a: Activation, k: nat)
    requires a.path in files && k < |files[a.path]| && files[a.path][k].cmd.Acquire? && files[a.path][k].cmd.verb != Spawn
    requires var cmd, have := files[a.path][k].cmd, Visible(At(files, globals, a, k).local, Against(globals, a.isRoot), files[a.path][k].cmd.name);
      have.Some? && have.value.typed && have.value != Name(cmd.mod, cmd.tag, true)
    ensures !Clean(files, globals, a)
  {
    if Clean(files, globals, a) {
      CleanStep(files, globals, a, k);
      CheckAcquireClean(At(files, globals, a, k), Against(globals, a.isRoot), a.path, files[a.path][k]);
    }
  }

  lemma RequiredTypeReported(files: Files, globals: Scope, a: Activation, k: nat)
    requires a.path in files && k < |files[a.path]| && files[a.path][k].cmd.Requires?
    requires var n, local, g := files[a.path][k].cmd.name, Before(files, globals, a, k).local, Against(globals, a.isRoot);
      n in local && n in g && local[n].typed && g[n].typed && Differ(g[n], local[n])
    ensures !Clean(files, globals, a)
  {
    if Clean(files, globals, a) {
      CleanIsPlaced(files, globals, a);
      assert Before(files, globals, a, k + 1).problems == [];
      RequireTypesClean(Before(files, globals, a, k), Against(globals, a.isRoot), a.path, files[a.path][k].number, files[a.path][k].cmd.name);
    }
  }

  lemma RequireTypesClean(c: Progress, g: Scope, path: Path, line: nat, n: string)
    requires n in c.local && n in g && c.local[n].typed && g[n].typed && Differ(g[n], c.local[n])
    ensures Require(c, g, path, line, n).problems != []
  {}

  /** Whatever is reported of a launched script is reported of its launcher. */
  lemma ChildReported(files: Files, globals: Scope, a: Activation, k: nat, b: Activation)
    requires a.path in files && ChildOf(files, globals, a, k, b) && !Clean(files, globals, b)
    ensures !Clean(files, globals, a)
  {
    if Clean(files, globals, a) {
      CleanStep(files, globals, a, k);
    }
  }

  lemma RootReported(files: Files, root: Path, names: Names)
    requires root in files && !Clean(files, RootGlobals(files, root, LaunchScope(names)), Begin(root, names, names).acts[0])
    ensures Tree(files, root, LaunchScope(names)).problems != []
  {}

  // ---- Something is written after an exit -----------------------------------------------------------------

  const Dead: Files := map["a" := [Line(1, Exit), Line(2, Kill("x"))]]

  lemma ExitHidesALine()
    ensures RefusedThoughItWorks(Dead, "a", map[], map[])
    ensures Tree(Dead, "a", map[]).problems == [NeverIntroduced("a", 2, "x")]
  {
    var lines := Dead["a"];
    var start := Progress(map[], {}, [], []);
    var globals := RootGlobals(Dead, "a", LaunchScope(map[]));
    assert LaunchScope(map[]) == map[];
    assert PassOne(start, map[], "a", lines, 0) == PassOne(start, map[], "a", lines, 1) == PassOne(start, map[], "a", lines, 2) == start;
    assert PassTwo(Dead, "a", map[], globals, [], true, 0) == PassTwo(Dead, "a", map[], globals, [], true, 1) == start;
    DeadWorks(globals);
  }

  /** ... and no run at all executes the line. */
  lemma DeadLineNeverRuns(steps: seq<Step>, i: nat)
    ensures var w := Reach(Dead, map[], Begin("a", map[], map[]), steps);
      i < |w.acts| && w.acts[i].path == "a" ==> !About(Dead, w.acts[i], 1)
  {
    var w := Reach(Dead, map[], Begin("a", map[], map[]), steps);
    NothingRunsAfterExit(Dead, map[], Begin("a", map[], map[]), steps);
    assert i < |w.acts| ==> w.acts[i] in w.acts;
    assert Dead["a"][0].cmd.Exit?;
  }

  lemma DeadWorks(globals: Scope)
    ensures exists w :: Leads(Dead, globals, Begin("a", map[], map[]), w) && Worked(w)
  {
    var o := Begin("a", map[], map[]);
    Stays(Dead, globals, o);
    hide Leads;
    Begins(Dead, globals, o, o, 0);
    var w1 := Turn(o, 0, Running(0));
    Turning(Dead, globals, o, w1, 0, Stopped(Exited));
    assert Worked(Turn(w1, 0, Stopped(Exited)));
  }

  // ---- A second requires ------------------------------------------------------------------------------------

  const Twice: Files := map["a" := [Line(1, Requires("x")), Line(2, Requires("x"))]]
  const X1 := Bound(1, "M", "T")
  const Present := Answers(map[1 := Thing("M", "T", 0)], 0, 0, true, false)

  lemma RequiredTwice()
    ensures RefusedThoughItWorks(Twice, "a", map["x" := X1], map["x" := X1])
  {
    hide WellFormed, Clean, Leads, Tree, Worked, Begin;
    var names: Names := map["x" := X1];
    TwiceParsed();
    TwiceIsReported();
    RootReported(Twice, "a", names);
    TwiceWorks(RootGlobals(Twice, "a", LaunchScope(names)));
  }

  lemma TwiceParsed()
    ensures WellFormed(Twice)
  {}

  lemma TwiceIsReported()
    ensures !Clean(Twice, RootGlobals(Twice, "a", LaunchScope(map["x" := X1])), Begin("a", map["x" := X1], map["x" := X1]).acts[0])
  {
    var names: Names := map["x" := X1];
    var globals := RootGlobals(Twice, "a", LaunchScope(names));
    var r := Begin("a", names, names).acts[0];
    assert Introduces(Twice["a"][0].cmd, "x") && Introduces(Twice["a"][1].cmd, "x");
    TwiceReported(Twice, globals, r, 0, 1, "x");
  }

  lemma TwiceWorks(globals: Scope)
    ensures exists w :: Leads(Twice, globals, Begin("a", map["x" := X1], map["x" := X1]), w) && Worked(w)
  {
    var names: Names := map["x" := X1];
    var o := Begin("a", names, names);
    Stays(Twice, globals, o);
    hide Leads, Run, Own, Handed;
    Turning(Twice, globals, o, o, 0, Requiring(0));
    var w1 := Turn(o, 0, Requiring(0));
    Meeting(Twice, globals, o, w1, 0, 0, Present);
    var w2 := Bind(w1, 0, "x", X1, Requiring(1));
    Meeting(Twice, globals, o, w2, 0, 1, Present);
    var w3 := Bind(w2, 0, "x", X1, Requiring(2));
    Turning(Twice, globals, o, w3, 0, Running(0));
    var w4 := Turn(w3, 0, Running(0));
    RequiresPass(Twice, w4.acts[0].names, w4.table, Present, Twice[w4.acts[0].path][0].cmd);
    Passing(Twice, globals, o, w4, 0, 0, Present);
    var w5 := Turn(w4, 0, Running(1));
    RequiresPass(Twice, w5.acts[0].names, w5.table, Present, Twice[w5.acts[0].path][1].cmd);
    Passing(Twice, globals, o, w5, 0, 1, Present);
    var w6 := Turn(w5, 0, Running(2));
    Ends(Twice, globals, o, w6, 0);
    assert Worked(Turn(w6, 0, Stopped(Finished)));
  }

  // ---- A name is required and acquired ---------------------------------------------------------------------

  const Both: Files := map[
    "a" := [Line(1, Acquire(Spawn, "M", "T", "x")), Line(2, Launch("b", [], true))],
    "b" := [Line(1, Requires("x")), Line(2, Acquire(Ensure, "M", "T", "x"))]]

  /** What the module makes now gets RID 1. */
  const Making := Answers(map[], 1, 9, true, false)

  /** The entity is gone between the two lookups of a requirement. */
  const Racing := Answers(map[1 := Thing("M", "T", 0)], 0, 9, true, true)

  ghost function Child(path: Path, names: Names, phase: Phase, provided: Scope): Activation {
    Activation(path, names["root" := Bound(9, "", "")], phase, false, provided, ["a"])
  }

  lemma RequiredAndAcquired()
    ensures RefusedThoughItWorks(Both, "a", map[], map[])
  {
    hide WellFormed, Clean, Leads, Tree, Worked, Begin;
    var names: Names := map[];
    BothParsed();
    BothReported();
    RootReported(Both, "a", names);
    BothWorks(RootGlobals(Both, "a", LaunchScope(names)));
  }

  lemma BothParsed()
    ensures WellFormed(Both)
  {}

  lemma BothReported()
    ensures !Clean(Both, RootGlobals(Both, "a", LaunchScope(map[])), Begin("a", map[], map[]).acts[0])
  {
    var names: Names := map[];
    var globals := RootGlobals(Both, "a", LaunchScope(names));
    var r, b := Begin("a", map[], map[]).acts[0], Child("b", map[], Starting, map[]);
    assert Introduces(Both["b"][0].cmd, "x") && Introduces(Both["b"][1].cmd, "x");
    hide Own, One, CheckLine, Reach, Run;
    assert [] + ["a"] == ["a"];
    TwiceReported(Both, globals, b, 0, 1, "x");
    assert ChildOf(Both, globals, r, 1, b);
    ChildReported(Both, globals, r, 1, b);
  }

  lemma BothWorks(globals: Scope)
    ensures exists w :: Leads(Both, globals, Begin("a", map[], map[]), w) && Worked(w)
  {
    var o := Begin("a", map[], map[]);
    Stays(Both, globals, o);
    hide Leads, Run, Own, Handed;
    Begins(Both, globals, o, o, 0);
    var w1 := Turn(o, 0, Running(0));
    SpawnBinds(Both, w1.acts[0].names, w1.table, Making, Both[w1.acts[0].path][0].cmd);
    Naming(Both, globals, o, w1, 0, 0, Making, "x", X1);
    var w2 := Bind(w1, 0, "x", X1, Running(1));
    PlainLaunch(Both, w2.acts[0].names, w2.table, Making, Both[w2.acts[0].path][1].cmd);
    Launching(Both, globals, o, w2, 0, 1, Making, map["root" := Bound(9, "", "")]);
    var w3 := World(w2.table, Turn(w2, 0, Running(2)).acts + [Newcomer(Both, globals, w2.acts[0], 1, map["root" := Bound(9, "", "")])]);
    assert |w3.acts| == 2 && w3.acts[1].path == "b" && w3.acts[1].names == map["root" := Bound(9, "", "")];
    Turning(Both, globals, o, w3, 1, Requiring(0));
    var w4 := Turn(w3, 1, Requiring(0));
    Meeting(Both, globals, o, w4, 1, 0, Racing);
    var w5 := Turn(w4, 1, Requiring(1));
    Turning(Both, globals, o, w5, 1, Requiring(2));
    var w6 := Turn(w5, 1, Requiring(2));
    Turning(Both, globals, o, w6, 1, Running(0));
    var w7 := Turn(w6, 1, Running(0));
    RequiresPass(Both, w7.acts[1].names, w7.table, Present, Both[w7.acts[1].path][0].cmd);
    Passing(Both, globals, o, w7, 1, 0, Present);
    var w8 := Turn(w7, 1, Running(1));
    EnsureBinds(Both, w8.acts[1].names, w8.table);
    Naming(Both, globals, o, w8, 1, 1, Present, "x", X1);
    var w9 := Bind(w8, 1, "x", X1, Running(2));
    EndBoth(Both, globals, o, w9);
  }

  lemma EnsureBinds(files: Files, names: Names, table: Names)
    requires "x" !in names && "x" in table && table["x"] == X1
    ensures Run(files, names, table, Present, Acquire(Ensure, "M", "T", "x")) == Binds("x", X1)
  {}

  /** Two scripts that are both past their last line. */
  lemma EndBoth(files: Files, globals: Scope, o: World, w: World)
    requires Leads(files, globals, o, w) && |w.acts| == 2
    requires forall i :: 0 <= i < 2 ==> w.acts[i].path in files && w.acts[i].phase == Running(|files[w.acts[i].path]|)
    ensures exists w' :: Leads(files, globals, o, w') && Worked(w')
  {
    hide Leads;
    Ends(files, globals, o, w, 0);
    var w1 := Turn(w, 0, Stopped(Finished));
    Ends(files, globals, o, w1, 1);
    assert Worked(Turn(w1, 1, Stopped(Finished)));
  }

  // ---- A child is spawned again under a name whose entity has died -----------------------------------------

  const Again: Files := map["a" := [
    Line(1, Acquire(Spawn, "M", "T", "p")), Line(2, ChildAcquire(Spawn, "p", "M", "T", "x")), Line(3, ChildAcquire(Spawn, "p", "M", "T", "x"))]]

  /** Only the parent is there, and the next child is RID 2. */
  const ParentOnly := Answers(map[1 := Thing("M", "T", 0)], 2, 9, true, false)

  lemma RespawnedChild()
    ensures RefusedThoughItWorks(Again, "a", map[], map[])
  {
    hide WellFormed, Clean, Leads, Tree, Worked, Begin;
    var names: Names := map[];
    AgainParsed();
    AgainReported();
    RootReported(Again, "a", names);
    AgainWorks(RootGlobals(Again, "a", LaunchScope(names)));
  }

  lemma AgainParsed()
    ensures WellFormed(Again)
  {}

  lemma AgainReported()
    ensures !Clean(Again, RootGlobals(Again, "a", LaunchScope(map[])), Begin("a", map[], map[]).acts[0])
  {
    var names: Names := map[];
    var globals := RootGlobals(Again, "a", LaunchScope(names));
    var r := Begin("a", map[], map[]).acts[0];
    assert Introduces(Again["a"][1].cmd, "x") && Introduces(Again["a"][2].cmd, "x");
    TwiceReported(Again, globals, r, 1, 2, "x");
  }

  lemma AgainWorks(globals: Scope)
    ensures exists w :: Leads(Again, globals, Begin("a", map[], map[]), w) && Worked(w)
  {
    var o := Begin("a", map[], map[]);
    Stays(Again, globals, o);
    hide Leads, Run, Own, Handed;
    Begins(Again, globals, o, o, 0);
    var w1 := Turn(o, 0, Running(0));
    SpawnBinds(Again, w1.acts[0].names, w1.table, Making, Again[w1.acts[0].path][0].cmd);
    Naming(Again, globals, o, w1, 0, 0, Making, "p", X1);
    var w2 := Bind(w1, 0, "p", X1, Running(1));
    ChildSpawnBinds(Again, w2.acts[0].names, w2.table, ParentOnly, Again[w2.acts[0].path][1].cmd);
    Naming(Again, globals, o, w2, 0, 1, ParentOnly, "x", Bound(2, "M", "T"));
    var w3 := Bind(w2, 0, "x", Bound(2, "M", "T"), Running(2));
    ChildSpawnBinds(Again, w3.acts[0].names, w3.table, ParentOnly, Again[w3.acts[0].path][2].cmd);
    Naming(Again, globals, o, w3, 0, 2, ParentOnly, "x", Bound(2, "M", "T"));
    var w4 := Bind(w3, 0, "x", Bound(2, "M", "T"), Running(3));
    Ends(Again, globals, o, w4, 0);
    assert Worked(Turn(w4, 0, Stopped(Finished)));
  }

  // ---- A launched script spawns a name of the root ----------------------------------------------------------

  const Early: Files := map[
    "a" := [Line(1, Launch("b", [], true)), Line(2, Acquire(Spawn, "M", "T", "x"))],
    "b" := [Line(1, Acquire(Spawn, "M", "T", "x"))]]

  lemma SpawnsARootName()
    ensures RefusedThoughItWorks(Early, "a", map[], map[])
  {
    hide WellFormed, Clean, Leads, Tree, Worked, Begin;
    var names: Names := map[];
    EarlyParsed();
    EarlyReported();
    RootReported(Early, "a", names);
    EarlyWorks(RootGlobals(Early, "a", LaunchScope(names)));
  }

  lemma EarlyParsed()
    ensures WellFormed(Early)
  {}

  lemma EarlyReported()
    ensures !Clean(Early, RootGlobals(Early, "a", LaunchScope(map[])), Begin("a", map[], map[]).acts[0])
  {
    var names: Names := map[];
    var globals := RootGlobals(Early, "a", LaunchScope(names));
    var r, b := Begin("a", map[], map[]).acts[0], Child("b", map[], Starting, map[]);
    GlobalAcquired(LaunchScope(map[]), Early["a"], 2, 1);
    hide One, CheckLine, Reach, Run;
    assert [] + ["a"] == ["a"];
    FirstLocal(Early, globals, b, 1);
    hide Own;
    SpawnReported(Early, globals, b, 0);
    assert ChildOf(Early, globals, r, 0, b);
    ChildReported(Early, globals, r, 0, b);
  }

  lemma EarlyWorks(globals: Scope)
    ensures exists w :: Leads(Early, globals, Begin("a", map[], map[]), w) && Worked(w)
  {
    var o := Begin("a", map[], map[]);
    Stays(Early, globals, o);
    hide Leads, Run, Own, Handed;
    Begins(Early, globals, o, o, 0);
    var w1 := Turn(o, 0, Running(0));
    PlainLaunch(Early, w1.acts[0].names, w1.table, Making, Early[w1.acts[0].path][0].cmd);
    Launching(Early, globals, o, w1, 0, 0, Making, map["root" := Bound(9, "", "")]);
    var w2 := World(w1.table, Turn(w1, 0, Running(1)).acts + [Newcomer(Early, globals, w1.acts[0], 0, map["root" := Bound(9, "", "")])]);
    Begins(Early, globals, o, w2, 1);
    var w3 := Turn(w2, 1, Running(0));
    SpawnBinds(Early, w3.acts[1].names, w3.table, Making, Early[w3.acts[1].path][0].cmd);
    Naming(Early, globals, o, w3, 1, 0, Making, "x", X1);
    var w4 := Bind(w3, 1, "x", X1, Running(1));
    SpawnBinds(Early, w4.acts[0].names, w4.table, Making, Early[w4.acts[0].path][1].cmd);
    Naming(Early, globals, o, w4, 0, 1, Making, "x", X1);
    EndBoth(Early, globals, o, Bind(w4, 0, "x", X1, Running(2)));
  }

  // ---- ... or ensures it as another type ---------------------------------------------------------------------

  const Other: Files := map[
    "a" := [Line(1, Launch("b", [], true)), Line(2, Acquire(Spawn, "M", "T", "x"))],
    "b" := [Line(1, Acquire(Ensure, "M", "U", "x"))]]

  lemma EnsuresARootNameAsAnother()
    ensures RefusedThoughItWorks(Other, "a", map[], map[])
  {
    hide WellFormed, Clean, Leads, Tree, Worked, Begin;
    var names: Names := map[];
    OtherParsed();
    OtherReported();
    RootReported(Other, "a", names);
    OtherWorks(RootGlobals(Other, "a", LaunchScope(names)));
  }

  lemma OtherParsed()
    ensures WellFormed(Other)
  {}

  lemma OtherReported()
    ensures !Clean(Other, RootGlobals(Other, "a", LaunchScope(map[])), Begin("a", map[], map[]).acts[0])
  {
    var names: Names := map[];
    var globals := RootGlobals(Other, "a", LaunchScope(names));
    var r, b := Begin("a", map[], map[]).acts[0], Child("b", map[], Starting, map[]);
    GlobalAcquired(LaunchScope(map[]), Other["a"], 2, 1);
    hide One, CheckLine, Reach, Run;
    assert [] + ["a"] == ["a"];
    FirstLocal(Other, globals, b, 1);
    hide Own;
    assert "T"[0] != "U"[0];
    OtherTypeReported(Other, globals, b, 0);
    assert ChildOf(Other, globals, r, 0, b);
    ChildReported(Other, globals, r, 0, b);
  }

  lemma OtherWorks(globals: Scope)
    ensures exists w :: Leads(Other, globals, Begin("a", map[], map[]), w) && Worked(w)
  {
    var o := Begin("a", map[], map[]);
    Stays(Other, globals, o);
    hide Leads, Run, Own, Handed;
    Begins(Other, globals, o, o, 0);
    var w1 := Turn(o, 0, Running(0));
    PlainLaunch(Other, w1.acts[0].names, w1.table, Making, Other[w1.acts[0].path][0].cmd);
    Launching(Other, globals, o, w1, 0, 0, Making, map["root" := Bound(9, "", "")]);
    var w2 := World(w1.table, Turn(w1, 0, Running(1)).acts + [Newcomer(Other, globals, w1.acts[0], 0, map["root" := Bound(9, "", "")])]);
    Begins(Other, globals, o, w2, 1);
    var w3 := Turn(w2, 1, Running(0));
    SpawnBinds(Other, w3.acts[1].names, w3.table, Making, Other[w3.acts[1].path][0].cmd);
    Naming(Other, globals, o, w3, 1, 0, Making, "x", Bound(1, "M", "U"));
    var w4 := Bind(w3, 1, "x", Bound(1, "M", "U"), Running(1));
    SpawnBinds(Other, w4.acts[0].names, w4.table, Making, Other[w4.acts[0].path][1].cmd);
    Naming(Other, globals, o, w4, 0, 1, Making, "x", X1);
    EndBoth(Other, globals, o, Bind(w4, 0, "x", X1, Running(2)));
  }

  // ---- A child is spawned over a handed name ------------------------------------------------------------------

  const Over: Files := map["a" := [Line(1, Acquire(Spawn, "M", "T", "p")), Line(2, ChildAcquire(Spawn, "p", "M", "T", "x"))]]

  const Held: Names := map["x" := Bound(7, "M", "T")]

  lemma SpawnsOverAHandedName()
    ensures RefusedThoughItWorks(Over, "a", Held, Held)
  {
    hide WellFormed, Clean, Leads, Tree, Worked, Begin;
    var names := Held;
    OverParsed();
    OverReported();
    RootReported(Over, "a", names);
    OverWorks(RootGlobals(Over, "a", LaunchScope(names)));
  }

  lemma OverParsed()
    ensures WellFormed(Over)
  {}

  lemma OverReported()
    ensures !Clean(Over, RootGlobals(Over, "a", LaunchScope(Held)), Begin("a", Held, Held).acts[0])
  {
    var names := Held;
    var globals := RootGlobals(Over, "a", LaunchScope(names));
    var r := Begin("a", names, names).acts[0];
    AtKeys(Over, globals, r, 1);
    ChildSpawnReported(Over, globals, r, 1);
  }

  /** The handed entity is not there, the parent is. */
  lemma OverLine(names: Names, table: Names)
    requires "x" in names && names["x"] == Bound(7, "M", "T") && "p" in names && names["p"] == X1
    ensures Run(Over, names, table, ParentOnly, Over["a"][1].cmd) == Binds("x", Bound(2, "M", "T"))
  {
    ChildSpawnBinds(Over, names, table, ParentOnly, Over["a"][1].cmd);
  }

  lemma OverWorks(globals: Scope)
    ensures exists w :: Leads(Over, globals, Begin("a", Held, Held), w) && Worked(w)
  {
    var o := Begin("a", Held, Held);
    Stays(Over, globals, o);
    hide Leads, Run, Own, Handed;
    Begins(Over, globals, o, o, 0);
    var w1 := Turn(o, 0, Running(0));
    SpawnBinds(Over, w1.acts[0].names, w1.table, Making, Over[w1.acts[0].path][0].cmd);
    Naming(Over, globals, o, w1, 0, 0, Making, "p", X1);
    OverGoesOn(globals, o, Bind(w1, 0, "p", X1, Running(1)));
  }

  lemma OverGoesOn(globals: Scope, o: World, w: World)
    requires Leads(Over, globals, o, w) && |w.acts| == 1 && AtLine(Over, w, 0, 1) && w.acts[0].path == "a"
    requires "x" in w.acts[0].names && w.acts[0].names["x"] == Bound(7, "M", "T") && "p" in w.acts[0].names && w.acts[0].names["p"] == X1
    ensures exists w' :: Leads(Over, globals, o, w') && Worked(w')
  {
    hide Leads, Run;
    OverLine(w.acts[0].names, w.table);
    Naming(Over, globals, o, w, 0, 1, ParentOnly, "x", Bound(2, "M", "T"));
    var w1 := Bind(w, 0, "x", Bound(2, "M", "T"), Running(2));
    Ends(Over, globals, o, w1, 0);
    assert Worked(Turn(w1, 0, Stopped(Finished)));
  }

  // ---- A script requires what it is handed under a root's name of another type --------------------------------

  const Masked: Files := map[
    "a" := [Line(1, Acquire(Spawn, "M", "T", "x")), Line(2, Acquire(Spawn, "M", "U", "y")), Line(3, Launch("b", [Binding("x", "y")], true))],
    "b" := [Line(1, Requires("x"))]]

  const Y1 := Bound(1, "M", "U")
  const PresentY := Answers(map[1 := Thing("M", "U", 0)], 0, 9, true, false)

  lemma HandedUnderAnotherType()
    ensures RefusedThoughItWorks(Masked, "a", map[], map[])
  {
    hide WellFormed, Clean, Leads, Tree, Worked, Begin;
    var names: Names := map[];
    MaskedParsed();
    MaskedReported();
    RootReported(Masked, "a", names);
    MaskedWorks(RootGlobals(Masked, "a", LaunchScope(names)));
  }

  lemma MaskedParsed()
    ensures WellFormed(Masked)
  {}

  lemma MaskedReported()
    ensures !Clean(Masked, RootGlobals(Masked, "a", LaunchScope(map[])), Begin("a", map[], map[]).acts[0])
  {
    var names: Names := map[];
    var globals := RootGlobals(Masked, "a", LaunchScope(names));
    MaskedHanding(globals);
    var r, b := Begin("a", map[], map[]).acts[0], Child("b", map[], Starting, map["x" := Name("M", "U", true)]);
    GlobalAcquired(LaunchScope(map[]), Masked["a"], 3, 0);
    hide One, CheckLine, Reach, Run, Own, Handed;
    assert [] + ["a"] == ["a"];
    RequiredTypeReported(Masked, globals, b, 0);
    assert ChildOf(Masked, globals, r, 2, b);
    ChildReported(Masked, globals, r, 2, b);
  }

  lemma MaskedHanding(globals: Scope)
    ensures Handed(At(Masked, globals, Begin("a", map[], map[]).acts[0], 2).local, map[], Masked["a"][2].cmd.bindings) == map["x" := Name("M", "U", true)]
  {
    var r, bindings := Begin("a", map[], map[]).acts[0], Masked["a"][2].cmd.bindings;
    LineKeys(At(Masked, globals, r, 1), map[], "a", Masked["a"][1]);
    LineKeys(At(Masked, globals, r, 0), map[], "a", Masked["a"][0]);
    BeforeKeys(Masked, globals, r, 3);
    assert At(Masked, globals, r, 0).introduced == {};
    hide CheckLine;
    assert bindings[..0] == [] && Handed(At(Masked, globals, r, 2).local, map[], []) == map[];
  }

  lemma MaskedWorks(globals: Scope)
    ensures exists w :: Leads(Masked, globals, Begin("a", map[], map[]), w) && Worked(w)
  {
    var o := Begin("a", map[], map[]);
    Stays(Masked, globals, o);
    hide Leads, Run, Own, Handed;
    Begins(Masked, globals, o, o, 0);
    var w1 := Turn(o, 0, Running(0));
    SpawnBinds(Masked, w1.acts[0].names, w1.table, Making, Masked[w1.acts[0].path][0].cmd);
    Naming(Masked, globals, o, w1, 0, 0, Making, "x", X1);
    var w2 := Bind(w1, 0, "x", X1, Running(1));
    SpawnBinds(Masked, w2.acts[0].names, w2.table, Making, Masked[w2.acts[0].path][1].cmd);
    Naming(Masked, globals, o, w2, 0, 1, Making, "y", Y1);
    var w3 := Bind(w2, 0, "y", Y1, Running(2));
    var names: Names := map["x" := Y1, "root" := Bound(9, "", "")];
    MaskedLaunch(w3.acts[0].names, w3.table);
    Launching(Masked, globals, o, w3, 0, 2, PresentY, names);
    var w4 := World(w3.table, Turn(w3, 0, Running(3)).acts + [Newcomer(Masked, globals, w3.acts[0], 2, names)]);
    Turning(Masked, globals, o, w4, 1, Requiring(0));
    var w5 := Turn(w4, 1, Requiring(0));
    Meeting(Masked, globals, o, w5, 1, 0, PresentY);
    var w6 := Bind(w5, 1, "x", Y1, Requiring(1));
    Turning(Masked, globals, o, w6, 1, Running(0));
    var w7 := Turn(w6, 1, Running(0));
    RequiresPass(Masked, w7.acts[1].names, w7.table, PresentY, Masked[w7.acts[1].path][0].cmd);
    Passing(Masked, globals, o, w7, 1, 0, PresentY);
    EndBoth(Masked, globals, o, Turn(w7, 1, Running(1)));
  }

  lemma MaskedLaunch(names: Names, table: Names)
    requires "y" in names && names["y"] == Y1
    ensures Run(Masked, names, table, PresentY, Masked["a"][2].cmd) == Starts("b", map["x" := Y1, "root" := Bound(9, "", "")])
  {
    var bindings := Masked["a"][2].cmd.bindings;
    assert bindings[..0] == [];
    assert RunBindings(names, table, PresentY, []) == Starts("", map[]);
    assert RunBindings(names, table, PresentY, bindings) == Starts("", map["x" := Y1]);
    assert map["x" := Y1]["root" := Bound(9, "", "")] == map["x" := Y1, "root" := Bound(9, "", "")];
  }

  // ---- Names that the table held before -----------------------------------------------------------------------

  const Needy: Files := map["a" := [Line(1, Requires("x"))]]

  /** A root that requires a name is refused if it is not launched with it, whatever the table holds; an older
      global of that name meets the requirement. The files are regular: it is OthersFit that is missing. */
  lemma MeetsAnOldRequirement(b: Bound)
    ensures Regular(Needy, "a", map[]) && RefusedThoughItWorks(Needy, "a", map[], map["x" := b])
  {
    assert LaunchScope(map[]) == map[];
    NeedyReported();
    NeedyIsRegular();
    NeedyWorks(RootGlobals(Needy, "a", LaunchScope(map[])), b);
    hide Regular, Tree, Leads, Worked;
  }

  lemma NeedyReported()
    ensures WellFormed(Needy) && Tree(Needy, "a", map[]).problems != []
  {
    var globals := RootGlobals(Needy, "a", map[]);
    var r := Activation("a", map[], Starting, true, map[], []);
    assert Before(Needy, globals, r, 0).local == map[];
    if Clean(Needy, globals, r) { CleanRequire(Needy, globals, r, 0); }
  }

  lemma NeedyIsRegular()
    ensures Regular(Needy, "a", map[])
  {
    assert Needy.Keys == {"a"};
  }

  lemma NeedyWorks(globals: Scope, b: Bound)
    ensures exists w :: Leads(Needy, globals, Begin("a", map[], map["x" := b]), w) && Worked(w)
  {
    var o := Begin("a", map[], map["x" := b]);
    var there := Answers(map[b.rid := Thing(b.mod, b.tag, 0)], 0, 0, true, false);
    Stays(Needy, globals, o);
    hide Leads, Run;
    Turning(Needy, globals, o, o, 0, Requiring(0));
    var w1 := Turn(o, 0, Requiring(0));
    Meeting(Needy, globals, o, w1, 0, 0, there);
    var w2 := Bind(w1, 0, "x", b, Requiring(1));
    assert Require1(w1, 0, there, "x", 0) == w2;
    Turning(Needy, globals, o, w2, 0, Running(0));
    var w3 := Turn(w2, 0, Running(0));
    RequiresPass(Needy, w3.acts[0].names, w3.table, there, Needy["a"][0].cmd);
    Passing(Needy, globals, o, w3, 0, 0, there);
    var w4 := Turn(w3, 0, Running(1));
    Ends(Needy, globals, o, w4, 0);
    assert Worked(Turn(w4, 0, Stopped(Finished)));
  }
}
