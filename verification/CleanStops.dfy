/** Clean trees that stop all the same: over a name that the table of globals held before the run, and over a
    child of another type (core/CommandExecutor.h:998-1016, 1474-1497, 1506-1518, 1568-1586, 2617-2628). */
module CleanStops {
  import opened Preflight
  import opened ScriptRuns
  import opened ScriptSafety
  import opened ScriptNames
  import opened ScriptWorks
  import opened WorksRefused

  // ---- Names that the table held before -----------------------------------------------------------------------

  /** Activation i is about to execute its first line, which stops it as long as the entity lives. */
  ghost predicate StopsWhile(files: Files, w: World, i: nat, r: Rid, why: Why) {
    && i < |w.acts| && About(files, w.acts[i], 0)
    && forall o: Answers :: r in o.live ==> Run(files, w.acts[i].names, w.table, o, files[w.acts[i].path][0].cmd) == Stops(why)
  }

  /** The table is not cleared when a root script ends (core/Command.h:94-96, 135-138 say that it is; only
      shutdown does, core/CommandExecutor.h:2617-2628). So a clean script that spawns a name works once, and
      the next time in the same process its spawn is refused for as long as the first entity lives. */
  lemma WorksOnce()
    ensures Tree(Once, "a", map[]).problems == [] && WellFormed(Once)
    ensures exists w :: Leads(Once, RootGlobals(Once, "a", map[]), Begin("a", map[], map[]), w) && Worked(w) && w.table == map["x" := X1]
    ensures exists w :: Leads(Once, RootGlobals(Once, "a", map[]), Begin("a", map[], map["x" := X1]), w) && StopsWhile(Once, w, 0, 1, Failed)
  {
    OnceIsClean();
    OnceWorks(RootGlobals(Once, "a", map[]));
    OnceStops(RootGlobals(Once, "a", map[]));
    hide Leads, Tree, Run;
  }

  const Once: Files := map["a" := [Line(1, Acquire(Spawn, "M", "T", "x"))]]

  lemma OnceIsClean()
    ensures Tree(Once, "a", map[]).problems == [] && WellFormed(Once)
  {
    var lines := Once["a"];
    var start := Progress(map[], {}, [], []);
    var globals := RootGlobals(Once, "a", map[]);
    assert PassOne(start, map[], "a", lines, 0) == PassOne(start, map[], "a", lines, 1) == start;
    assert PassTwo(Once, "a", map[], globals, [], true, 0) == start;
    assert PassTwo(Once, "a", map[], globals, [], true, 1).problems == [];
  }

  lemma OnceWorks(globals: Scope)
    ensures exists w :: Leads(Once, globals, Begin("a", map[], map[]), w) && Worked(w) && w.table == map["x" := X1]
  {
    var o := Begin("a", map[], map[]);
    Stays(Once, globals, o);
    hide Leads, Run;
    Begins(Once, globals, o, o, 0);
    var w1 := Turn(o, 0, Running(0));
    SpawnBinds(Once, w1.acts[0].names, w1.table, Making, Once[w1.acts[0].path][0].cmd);
    Naming(Once, globals, o, w1, 0, 0, Making, "x", X1);
    var w2 := Bind(w1, 0, "x", X1, Running(1));
    Ends(Once, globals, o, w2, 0);
    assert Worked(Turn(w2, 0, Stopped(Finished)));
  }

  lemma OnceStops(globals: Scope)
    ensures exists w :: Leads(Once, globals, Begin("a", map[], map["x" := X1]), w) && StopsWhile(Once, w, 0, 1, Failed)
  {
    var o := Begin("a", map[], map["x" := X1]);
    Stays(Once, globals, o);
    hide Leads;
    Begins(Once, globals, o, o, 0);
    var w1 := Turn(o, 0, Running(0));
    assert StopsWhile(Once, w1, 0, 1, Failed);
  }

  const Shared: Files := map[
    "a" := [Line(1, Launch("b", [], true)), Line(2, Acquire(Ensure, "M", "T", "x"))],
    "b" := [Line(1, Acquire(Attach, "M", "T", "x"))]]

  /** A clean tree in which a launched script attaches a name of the root, and finds an older one of any other
      type there. */
  lemma MeetsAnOldType(b: Bound)
    requires b.mod != "" && b.tag != "" && (b.mod, b.tag) != ("M", "T")
    ensures Tree(Shared, "a", map[]).problems == [] && WellFormed(Shared)
    ensures exists w ::
      Leads(Shared, RootGlobals(Shared, "a", map[]), Begin("a", map[], map["x" := b]), w) && StopsWhile(Shared, w, 1, b.rid, WrongType("x"))
  {
    SharedIsClean();
    SharedClashes(RootGlobals(Shared, "a", map[]), b);
    hide Leads, Tree, Run;
  }

  lemma SharedIsClean()
    ensures Tree(Shared, "a", map[]).problems == [] && WellFormed(Shared)
  {
    var la, lb := Shared["a"], Shared["b"];
    var start := Progress(map[], {}, [], []);
    var globals := RootGlobals(Shared, "a", map[]);
    GlobalAcquired(map[], la, 2, 1);
    assert globals["x"] == Name("M", "T", true);
    assert PassOne(start, map[], "a", la, 0) == PassOne(start, map[], "a", la, 1) == PassOne(start, map[], "a", la, 2) == start;
    assert PassOne(start, globals, "b", lb, 0) == PassOne(start, globals, "b", lb, 1) == start;
    assert [] + ["a"] == ["a"];
    assert PassTwo(Shared, "b", map[], globals, ["a"], false, 0) == start;
    assert PassTwo(Shared, "b", map[], globals, ["a"], false, 1).problems == [];
    assert One(Shared, "b", map[], globals, ["a"], false).problems == [];
    assert PassTwo(Shared, "a", map[], globals, [], true, 0) == start;
    var c := PassTwo(Shared, "a", map[], globals, [], true, 1);
    assert c.problems == [] && c.local == map[] && c.introduced == {};
    assert PassTwo(Shared, "a", map[], globals, [], true, 2).problems == [];
  }

  lemma SharedClashes(globals: Scope, b: Bound)
    requires b.mod != "" && b.tag != "" && (b.mod, b.tag) != ("M", "T")
    ensures exists w :: Leads(Shared, globals, Begin("a", map[], map["x" := b]), w) && StopsWhile(Shared, w, 1, b.rid, WrongType("x"))
  {
    var o := Begin("a", map[], map["x" := b]);
    Stays(Shared, globals, o);
    hide Leads, Own, Handed;
    Begins(Shared, globals, o, o, 0);
    var w1 := Turn(o, 0, Running(0));
    PlainLaunch(Shared, w1.acts[0].names, w1.table, Making, Shared[w1.acts[0].path][0].cmd);
    var given: Names := map["root" := Bound(9, "", "")];
    Launching(Shared, globals, o, w1, 0, 0, Making, given);
    var w2 := World(w1.table, Turn(w1, 0, Running(1)).acts + [Newcomer(Shared, globals, w1.acts[0], 0, given)]);
    Begins(Shared, globals, o, w2, 1);
    var w3 := Turn(w2, 1, Running(0));
    assert w3.acts[1].names == given;
    forall o': Answers | b.rid in o'.live
      ensures Run(Shared, w3.acts[1].names, w3.table, o', Shared["b"][0].cmd) == Stops(WrongType("x"))
    {
      WrongTypeIff(Shared, given, w3.table, o', Shared["b"][0].cmd);
    }
    assert StopsWhile(Shared, w3, 1, b.rid, WrongType("x"));
  }

  // ---- A child of another type ------------------------------------------------------------------------------------

  const Kin: Files := map[
    "a" := [Line(1, Acquire(Spawn, "M", "T", "p")), Line(2, ChildAcquire(Spawn, "p", "M", "T", "x")), Line(3, Launch("b", [], true))],
    "b" := [Line(1, ChildAcquire(Attach, "p", "M", "U", "x"))]]

  /** Activation i is about to attach the child, which is there, as another type. */
  ghost predicate AttachesAnother(w: World, i: nat) {
    && i < |w.acts| && About(Kin, w.acts[i], 0) && w.acts[i].path == "b"
    && forall o: Answers :: 1 in o.live && 2 in o.live && o.live[2] == Thing("M", "T", 1) ==>
         Run(Kin, w.acts[i].names, w.table, o, Kin["b"][0].cmd) == Stops(Failed)
  }

  /** A clean tree in which a launched script attaches the root's child as another type than the root's. For a
      name of its own the same line would be reported (core/CommandExecutor.h:972-997 against 998-1016). */
  lemma ClashingChildPasses()
    ensures Tree(Kin, "a", map[]).problems == [] && WellFormed(Kin)
    ensures exists w :: Leads(Kin, RootGlobals(Kin, "a", map[]), Begin("a", map[], map[]), w) && AttachesAnother(w, 1)
  {
    KinIsClean();
    KinClashes(RootGlobals(Kin, "a", map[]));
    hide Leads, Tree, AttachesAnother, RootGlobals;
  }

  lemma KinGlobals()
    ensures RootGlobals(Kin, "a", map[]) == map["p" := Name("M", "T", true), "x" := Name("M", "T", true)]
  {
    var la := Kin["a"];
    assert Globals(map[], la, 1) == map["p" := Name("M", "T", true)];
    assert Globals(map[], la, 2) == map["p" := Name("M", "T", true), "x" := Name("M", "T", true)];
    assert Globals(map[], la, 3) == Globals(map[], la, 2);
  }

  lemma KinIsClean()
    ensures Tree(Kin, "a", map[]).problems == [] && WellFormed(Kin)
  {
    var globals := RootGlobals(Kin, "a", map[]);
    KinParsed();
    LaunchedIsClean();
    KinFirstPass();
    assert [] + ["a"] == ["a"];
    hide CheckLine, WellFormed;
    KinSecondPass();
    assert One(Kin, "a", map[], globals, [], true).problems == PassTwo(Kin, "a", map[], globals, [], true, 3).problems;
  }

  lemma KinParsed()
    ensures WellFormed(Kin)
  {}

  lemma KinFirstPass()
    ensures PassOne(Progress(map[], {}, [], []), map[], "a", Kin["a"], 3) == Progress(map[], {}, [], [])
  {
    var start := Progress(map[], {}, [], []);
    assert PassOne(start, map[], "a", Kin["a"], 0) == start;
    assert PassOne(start, map[], "a", Kin["a"], 1) == start;
    assert PassOne(start, map[], "a", Kin["a"], 2) == start;
  }

  lemma KinSecondPass()
    requires One(Kin, "b", map[], RootGlobals(Kin, "a", map[]), ["a"], false).problems == []
    ensures PassTwo(Kin, "a", map[], RootGlobals(Kin, "a", map[]), [], true, 3).problems == []
  {
    var globals, start := RootGlobals(Kin, "a", map[]), Progress(map[], {}, [], []);
    KinFirstPass();
    assert [] + ["a"] == ["a"];
    assert PassTwo(Kin, "a", map[], globals, [], true, 0) == start;
    var c1 := PassTwo(Kin, "a", map[], globals, [], true, 1);
    assert c1.problems == [] && c1.local == map["p" := Name("M", "T", true)] && c1.introduced == {"p"};
    var c2 := PassTwo(Kin, "a", map[], globals, [], true, 2);
    assert c2.problems == [];
    assert Handed(c2.local, map[], []) == map[];
    hide One;
  }

  lemma LaunchedIsClean()
    ensures One(Kin, "b", map[], RootGlobals(Kin, "a", map[]), ["a"], false).problems == []
  {
    var globals, start := RootGlobals(Kin, "a", map[]), Progress(map[], {}, [], []);
    KinGlobals();
    hide RootGlobals;
    assert PassOne(start, globals, "b", Kin["b"], 0) == PassOne(start, globals, "b", Kin["b"], 1) == start;
    assert PassTwo(Kin, "b", map[], globals, ["a"], false, 0) == start;
    assert PassTwo(Kin, "b", map[], globals, ["a"], false, 1).problems == [];
  }

  lemma KinClashes(globals: Scope)
    ensures exists w :: Leads(Kin, globals, Begin("a", map[], map[]), w) && AttachesAnother(w, 1)
  {
    var o := Begin("a", map[], map[]);
    Stays(Kin, globals, o);
    hide Leads, Run, Own, Handed;
    Begins(Kin, globals, o, o, 0);
    var w1 := Turn(o, 0, Running(0));
    SpawnBinds(Kin, w1.acts[0].names, w1.table, Making, Kin[w1.acts[0].path][0].cmd);
    Naming(Kin, globals, o, w1, 0, 0, Making, "p", X1);
    var w2 := Bind(w1, 0, "p", X1, Running(1));
    ChildSpawnBinds(Kin, w2.acts[0].names, w2.table, ParentOnly, Kin[w2.acts[0].path][1].cmd);
    Naming(Kin, globals, o, w2, 0, 1, ParentOnly, "x", Bound(2, "M", "T"));
    KinGoesOn(globals, o, Bind(w2, 0, "x", Bound(2, "M", "T"), Running(2)));
  }

  lemma KinGoesOn(globals: Scope, o: World, w: World)
    requires Leads(Kin, globals, o, w) && |w.acts| == 1 && AtLine(Kin, w, 0, 2) && w.acts[0].path == "a"
    requires "p" in w.table && w.table["p"] == X1 && "x" in w.table && w.table["x"] == Bound(2, "M", "T")
    ensures exists w' :: Leads(Kin, globals, o, w') && AttachesAnother(w', 1)
  {
    hide Leads, Run, Own, Handed;
    var given: Names := map["root" := Bound(9, "", "")];
    PlainLaunch(Kin, w.acts[0].names, w.table, Making, Kin["a"][2].cmd);
    Launching(Kin, globals, o, w, 0, 2, Making, given);
    var w1 := World(w.table, Turn(w, 0, Running(3)).acts + [Newcomer(Kin, globals, w.acts[0], 2, given)]);
    Begins(Kin, globals, o, w1, 1);
    var w2 := Turn(w1, 1, Running(0));
    forall o': Answers | 1 in o'.live && 2 in o'.live && o'.live[2] == Thing("M", "T", 1)
      ensures Run(Kin, w2.acts[1].names, w2.table, o', Kin["b"][0].cmd) == Stops(Failed)
    {
      OtherChild(given, w2.table, o');
    }
    assert AttachesAnother(w2, 1);
  }

  lemma OtherChild(names: Names, table: Names, o: Answers)
    requires "p" !in names && "x" !in names && "p" in table && table["p"] == X1 && "x" in table && table["x"] == Bound(2, "M", "T")
    requires 1 in o.live && 2 in o.live && o.live[2] == Thing("M", "T", 1)
    ensures Run(Kin, names, table, o, Kin["b"][0].cmd) == Stops(Failed)
  {}
}
