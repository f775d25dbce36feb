/** What a clean preflight says about acquisitions: a spawn is refused for its name exactly when others hold
    it, and an attach or ensure is refused as already introduced exactly when it was handed to the script
    (core/CommandExecutor.h:870-930, 964-997 against 1464-1535). */
module ScriptNames {
  import opened Preflight
  import opened ScriptRuns
  import opened ScriptSafety

  /** The names that the preflight has seen the script introduce, as far as the activation has got. */
  ghost function Introduced(files: Files, globals: Scope, a: Activation): set<string>
    requires Placed(files, a)
  {
    match a.phase
    case Requiring(k) => Before(files, globals, a, k).introduced
    case Running(k) => At(files, globals, a, k).introduced
    case _ => {}
  }

  /** A script has no name but those it was handed, those it introduced, and its anchor. */
  ghost predicate Known(files: Files, globals: Scope, a: Activation) {
    Placed(files, a) && (Live(a) ==> a.names.Keys <= a.provided.Keys + Introduced(files, globals, a) + {"root"})
  }

  /** The one root script is the first activation, and it has every name that it publishes; the rest of the
      table is of others. */
  ghost predicate OneRoot(others: set<string>, w: World) {
    && w.acts != [] && w.table.Keys <= w.acts[0].names.Keys + others
    && forall i :: 0 <= i < |w.acts| ==> (w.acts[i].isRoot <==> i == 0)
  }

  ghost predicate AllKnown(files: Files, globals: Scope, others: set<string>, w: World) {
    OneRoot(others, w) && forall i :: 0 <= i < |w.acts| ==> Known(files, globals, w.acts[i])
  }

  /** Nothing is forgotten by a script, and nothing published but by the root, of its own names. */
  ghost predicate Grows(w: World, w': World, i: nat) {
    && |w.acts| <= |w'.acts|
    && (forall j :: 0 <= j < |w.acts| ==> w.acts[j].names.Keys <= w'.acts[j].names.Keys && w'.acts[j].isRoot == w.acts[j].isRoot)
    && (forall j :: |w.acts| <= j < |w'.acts| ==> !w'.acts[j].isRoot)
    && (forall n :: Find(w'.table, n) != Find(w.table, n) ==> i < |w.acts| && w.acts[i].isRoot && n in w'.acts[i].names)
  }

  lemma BindGrows(w: World, i: nat, n: string, b: Bound, next: Phase)
    requires i < |w.acts|
    ensures Grows(w, Bind(w, i, n, b, next), i)
  {}

  lemma TurnGrows(w: World, i: nat, next: Phase)
    requires i < |w.acts|
    ensures Grows(w, Turn(w, i, next), i)
  {}

  lemma ExecuteGrows(files: Files, globals: Scope, w: World, i: nat, o: Answers, k: nat)
    requires i < |w.acts| && Placed(files, w.acts[i]) && w.acts[i].phase == Running(k) && k < |files[w.acts[i].path]|
    ensures Grows(w, Execute(files, globals, w, i, o, k), i)
  {
    var a := w.acts[i];
    match Run(files, a.names, w.table, o, files[a.path][k].cmd) {
      case Continues => TurnGrows(w, i, Running(k + 1));
      case Stops(why) => TurnGrows(w, i, Stopped(why));
      case Binds(n, b) => BindGrows(w, i, n, b, Running(k + 1));
      case Starts(_, _) => TurnGrows(w, i, Running(k + 1));
    }
    hide Run, Local, Turn, Bind;
  }

  lemma NamesGrow(files: Files, globals: Scope, w: World, s: Step)
    requires Moving(s)
    ensures Grows(w, Next(files, globals, w, s), s.i)
  {
    hide Run, Local, LookupLive, Execute;
    if s.Act? && s.i < |w.acts| && Placed(files, w.acts[s.i]) && w.acts[s.i].phase.Running? && w.acts[s.i].phase.k < |files[w.acts[s.i].path]| {
      ExecuteGrows(files, globals, w, s.i, s.answers, w.acts[s.i].phase.k);
    }
  }

  /** What the root does not have, the table has from others, and as they have it. */
  ghost predicate Strangers(w: World, before: Names, steps: seq<Step>) {
    && w.acts != [] && (forall i :: 0 <= i < |w.acts| ==> (w.acts[i].isRoot <==> i == 0))
    && forall n :: n !in w.acts[0].names ==> Find(w.table, n) == Foreign(before, steps, n)
  }

  lemma NextKeepsOneRoot(files: Files, globals: Scope, others: set<string>, w: World, s: Step)
    requires OneRoot(others, w) && (s.Publish? ==> s.name in others)
    ensures OneRoot(others, Next(files, globals, w, s))
  {
    var w' := Next(files, globals, w, s);
    if Moving(s) {
      NamesGrow(files, globals, w, s);
      hide Next;
      forall n | n in w'.table
        ensures n in w'.acts[0].names || n in others
      {
        if Find(w.table, n) == Find(w'.table, n) { assert n in w.table; }
      }
      assert forall i :: 0 <= i < |w'.acts| ==> (w'.acts[i].isRoot <==> i == 0);
    } else {
      OthersPut(files, globals, w, s);
      assert w'.acts == w.acts;
      hide Next;
    }
  }

  lemma NextKeepsStrangers(files: Files, globals: Scope, w: World, before: Names, steps: seq<Step>, s: Step)
    requires Strangers(w, before, steps)
    ensures Strangers(Next(files, globals, w, s), before, steps + [s])
  {
    var w' := Next(files, globals, w, s);
    assert (steps + [s])[..|steps|] == steps;
    if Moving(s) {
      NamesGrow(files, globals, w, s);
      hide Next;
    } else {
      OthersPut(files, globals, w, s);
      assert w'.acts == w.acts;
      hide Next;
    }
  }

  lemma {:induction false} ReachStrangers(files: Files, globals: Scope, o: World, steps: seq<Step>)
    requires o.acts != [] && forall i :: 0 <= i < |o.acts| ==> (o.acts[i].isRoot <==> i == 0)
    ensures Strangers(Reach(files, globals, o, steps), o.table, steps)
    decreases |steps|
  {
    hide Next;
    if steps != [] {
      var init := steps[..|steps| - 1];
      assert steps == init + [steps[|steps| - 1]];
      ReachStrangers(files, globals, o, init);
      NextKeepsStrangers(files, globals, Reach(files, globals, o, init), o.table, init, steps[|steps| - 1]);
    }
  }

  // ---- One step ----------------------------------------------------------------------------------------

  lemma RequireKeepsKnown(files: Files, globals: Scope, w: World, i: nat, o: Answers, k: nat)
    requires WorldOk(files, globals, false, w) && i < |w.acts| && w.acts[i].phase == Requiring(k) && Known(files, globals, w.acts[i])
    requires k < |files[w.acts[i].path]| && files[w.acts[i].path][k].cmd.Requires?
    ensures Known(files, globals, Require1(w, i, o, files[w.acts[i].path][k].cmd.name, k).acts[i])
  {
    hide Covered, Typed, TableOk, LookupLive, PassOne, PassTwo;
    var a := w.acts[i];
    var a' := Require1(w, i, o, files[a.path][k].cmd.name, k).acts[i];
    CleanRequire(files, globals, a, k);
    hide Clean;
    SameProgress(files, globals, a, a');
  }

  /** The preflight's view does not depend on how far the activation has got. */
  lemma SameProgress(files: Files, globals: Scope, a: Activation, a': Activation)
    requires a.path in files && a' == a.(names := a'.names, phase := a'.phase)
    ensures forall k: nat :: k <= |files[a.path]| ==> Before(files, globals, a', k) == Before(files, globals, a, k)
    ensures forall k: nat :: k <= |files[a.path]| ==> At(files, globals, a', k) == At(files, globals, a, k)
  {}

  lemma ExecuteKeepsKnown(files: Files, globals: Scope, w: World, i: nat, o: Answers, k: nat)
    requires WorldOk(files, globals, false, w) && i < |w.acts| && w.acts[i].phase == Running(k) && Known(files, globals, w.acts[i])
    requires k < |files[w.acts[i].path]|
    ensures Known(files, globals, Execute(files, globals, w, i, o, k).acts[i])
  {
    hide Covered, Typed, TableOk, PassOne, PassTwo, CheckLine;
    var a := w.acts[i];
    var line := files[a.path][k];
    var a' := Execute(files, globals, w, i, o, k).acts[i];
    CleanStep(files, globals, a, k);
    LineClean(At(files, globals, a, k), Against(globals, a.isRoot), a.path, line);
    RunBinds(files, a.names, w.table, o, line.cmd);
    hide Clean, Run;
    SameProgress(files, globals, a, a');
  }

  lemma PhaseKeepsKnown(files: Files, globals: Scope, w: World, s: Step)
    requires WorldOk(files, globals, false, w) && s.Act? && s.i < |w.acts| && Known(files, globals, w.acts[s.i])
    requires var a := w.acts[s.i];
      match a.phase
      case Requiring(k) => k == |files[a.path]| || !files[a.path][k].cmd.Requires?
      case Running(k) => k == |files[a.path]|
      case _ => true
    ensures Known(files, globals, Next(files, globals, w, s).acts[s.i])
  {
    hide Covered, Typed, TableOk, HasMalformed;
    var a := w.acts[s.i];
    var a' := Next(files, globals, w, s).acts[s.i];
    if a.phase.Requiring? && a.phase.k < |files[a.path]| {
      CleanRequire(files, globals, a, a.phase.k);
    }
    hide Clean;
    SameProgress(files, globals, a, a');
  }

  lemma ChildIsKnown(files: Files, globals: Scope, w: World, i: nat, o: Answers, k: nat)
    requires WorldOk(files, globals, false, w) && i < |w.acts| && w.acts[i].phase == Running(k) && k < |files[w.acts[i].path]|
    requires |Execute(files, globals, w, i, o, k).acts| > |w.acts|
    ensures Known(files, globals, Execute(files, globals, w, i, o, k).acts[|w.acts|])
  {
    var a := w.acts[i];
    var cmd := files[a.path][k].cmd;
    StartedChild(files, globals, false, w, i, o, k);
    RunBinds(files, a.names, w.table, o, cmd);
    assert Run(files, a.names, w.table, o, cmd) == RunLaunch(files, a.names, w.table, o, cmd);
    CleanStep(files, globals, a, k);
    LineClean(At(files, globals, a, k), Against(globals, a.isRoot), a.path, files[a.path][k]);
    ChildKeys(a.names, w.table, o, At(files, globals, a, k).local, Against(globals, a.isRoot), cmd.bindings);
    hide Covered, Typed, TableOk, Clean, PassTwo, CheckLine, RunBindings, Handed;
  }

  /** A launched script has a name for every binding, and no other. */
  lemma {:induction false} ChildKeys(names: Names, table: Names, o: Answers, local: Scope, g: Scope, bindings: seq<Binding>)
    requires RunBindings(names, table, o, bindings).Starts?
    requires forall b :: b in bindings ==> Visible(local, g, b.parentKey).Some?
    ensures RunBindings(names, table, o, bindings).names.Keys == Handed(local, g, bindings).Keys
  {
    hide LookupLive, Lookup, Filled;
    if bindings != [] {
      var rest, b := bindings[..|bindings| - 1], bindings[|bindings| - 1];
      assert bindings == rest + [b];
      BindingsOnlyStart(names, table, o, rest);
      var before, after := RunBindings(names, table, o, rest), RunBindings(names, table, o, bindings);
      assert before.Starts? && after.names.Keys == before.names.Keys + {b.childKey};
      assert forall c :: c in rest ==> c in bindings;
      ChildKeys(names, table, o, local, g, rest);
      assert Handed(local, g, bindings).Keys == Handed(local, g, rest).Keys + {b.childKey};
    }
  }

  lemma MovedKnown(files: Files, globals: Scope, w: World, s: Step)
    requires WorldOk(files, globals, false, w) && Moving(s) && s.i < |w.acts| && Known(files, globals, w.acts[s.i])
    ensures var w' := Next(files, globals, w, s); s.i < |w'.acts| && Known(files, globals, w'.acts[s.i])
  {
    NextFrame(files, globals, w, s);
    var a := w.acts[s.i];
    assert Placed(files, a);
    if s.Act? && a.phase.Requiring? && a.phase.k < |files[a.path]| && files[a.path][a.phase.k].cmd.Requires? {
      RequireKeepsKnown(files, globals, w, s.i, s.answers, a.phase.k);
      hide Require1, Known;
    } else if s.Act? && a.phase.Running? && a.phase.k < |files[a.path]| {
      ExecuteKeepsKnown(files, globals, w, s.i, s.answers, a.phase.k);
      hide Execute, Known;
    } else if s.Act? {
      PhaseKeepsKnown(files, globals, w, s);
      hide *;
    }
  }

  lemma NextKeepsKnown(files: Files, globals: Scope, others: set<string>, w: World, s: Step)
    requires WorldOk(files, globals, false, w) && AllKnown(files, globals, others, w) && (s.Publish? ==> s.name in others)
    ensures AllKnown(files, globals, others, Next(files, globals, w, s))
  {
    hide Next, Known, OneRoot;
    NextFrame(files, globals, w, s);
    NextKeepsOneRoot(files, globals, others, w, s);
    if Moving(s) && s.i < |w.acts| {
      MovedKnown(files, globals, w, s);
    }
    if |Next(files, globals, w, s).acts| > |w.acts| {
      ChildIsKnown(files, globals, w, s.i, s.answers, w.acts[s.i].phase.k);
    }
  }

  lemma {:induction false} ReachKnown(files: Files, globals: Scope, others: set<string>, w: World, steps: seq<Step>)
    requires WorldOk(files, globals, false, w) && AllKnown(files, globals, others, w)
    requires forall s :: s in steps && s.Publish? ==> s.name in others
    ensures WorldOk(files, globals, false, Reach(files, globals, w, steps)) && AllKnown(files, globals, others, Reach(files, globals, w, steps))
    decreases |steps|
  {
    hide WorldOk, AllKnown, Next;
    if steps != [] {
      var before := Reach(files, globals, w, steps[..|steps| - 1]);
      ReachKnown(files, globals, others, w, steps[..|steps| - 1]);
      NextKeepsOk(files, globals, false, before, steps[|steps| - 1]);
      NextKeepsKnown(files, globals, others, before, steps[|steps| - 1]);
    }
  }

  lemma BeginKnown(files: Files, globals: Scope, root: Path, names: Names, before: Names, steps: seq<Step>)
    requires root in files
    ensures AllKnown(files, globals, Others(before, steps), Begin(root, names, before))
  {}

  /** What the preflight sees as the script's names: what it was handed, and what it has introduced. */
  lemma {:induction false} LocalKeys(files: Files, globals: Scope, a: Activation, k: nat)
    requires Clean(files, globals, a) && a.path in files && a.path !in a.stack && k <= |files[a.path]|
    ensures var c := At(files, globals, a, k); c.local.Keys == a.provided.Keys + c.introduced
  {
    if k == 0 {
      RequiredKeys(files, globals, a, |files[a.path]|);
    } else {
      LocalKeys(files, globals, a, k - 1);
      CleanStep(files, globals, a, k - 1);
      LineClean(At(files, globals, a, k - 1), Against(globals, a.isRoot), a.path, files[a.path][k - 1]);
      hide CheckLine, Clean, PassTwo;
    }
  }

  lemma {:induction false} RequiredKeys(files: Files, globals: Scope, a: Activation, k: nat)
    requires Clean(files, globals, a) && a.path in files && k <= |files[a.path]|
    ensures var c := Before(files, globals, a, k); c.local.Keys == a.provided.Keys + c.introduced
  {
    if k > 0 {
      RequiredKeys(files, globals, a, k - 1);
      CleanRequire(files, globals, a, k - 1);
    }
  }

  // ---- The two results -----------------------------------------------------------------------------------

  /** An executed top-level acquisition of a clean tree, in the state that a run has reached. */
  ghost predicate Acquiring(files: Files, root: Path, names: Names, before: Names, steps: seq<Step>, i: nat, k: nat) {
    Tree(files, root, LaunchScope(names)).problems == [] && root in files && WellFormed(files) &&
    var w := Reach(files, RootGlobals(files, root, LaunchScope(names)), Begin(root, names, before), steps);
    i < |w.acts| && About(files, w.acts[i], k) && files[w.acts[i].path][k].cmd.Acquire?
  }

  lemma RunIsKnown(files: Files, root: Path, names: Names, before: Names, steps: seq<Step>)
    requires Tree(files, root, LaunchScope(names)).problems == [] && root in files
    ensures var globals := RootGlobals(files, root, LaunchScope(names));
      var w := Reach(files, globals, Begin(root, names, before), steps);
      WorldOk(files, globals, false, w) && AllKnown(files, globals, Others(before, steps), w) && Strangers(w, before, steps)
  {
    var globals := RootGlobals(files, root, LaunchScope(names));
    BeginOk(files, root, names, before, false);
    BeginKnown(files, globals, root, names, before, steps);
    ReachKnown(files, globals, Others(before, steps), Begin(root, names, before), steps);
    ReachStrangers(files, globals, Begin(root, names, before), steps);
    hide Reach, WorldOk, AllKnown, Strangers;
  }

  /** A SPAWN IS REFUSED ONLY BY OTHERS. In any run of a clean tree an executed spawn finds under its name,
      of its own and among the globals, what others have there and nothing else; so it is refused for the
      name if and only if others have a live entity there, and otherwise comes to what the module makes. */
  lemma SpawnsFindTheirNameFree(files: Files, root: Path, names: Names, before: Names, steps: seq<Step>, i: nat, k: nat, o: Answers)
    requires Acquiring(files, root, names, before, steps, i, k)
    ensures var w := Reach(files, RootGlobals(files, root, LaunchScope(names)), Begin(root, names, before), steps);
      var cmd := files[w.acts[i].path][k].cmd;
      var f := Foreign(before, steps, cmd.name);
      cmd.verb == Spawn ==>
        && Lookup(w.acts[i].names, w.table, cmd.name) == f
        && Run(files, w.acts[i].names, w.table, o, cmd) ==
             (if f.Some? && f.value.rid in o.live then Stops(Failed) else Spawned(cmd.name, cmd.mod, cmd.tag, o.made))
  {
    var globals := RootGlobals(files, root, LaunchScope(names));
    RunIsKnown(files, root, names, before, steps);
    var w := Reach(files, globals, Begin(root, names, before), steps);
    hide Reach;
    if files[w.acts[i].path][k].cmd.verb == Spawn {
      FreeForSpawn(files, globals, Others(before, steps), w, i, k);
    }
    hide Known, WorldOk, Foreign, RootGlobals, Tree;
  }

  lemma FreeForSpawn(files: Files, globals: Scope, others: set<string>, w: World, i: nat, k: nat)
    requires WorldOk(files, globals, false, w) && AllKnown(files, globals, others, w) && WellFormed(files)
    requires i < |w.acts| && About(files, w.acts[i], k) && files[w.acts[i].path][k].cmd.Acquire?
    requires files[w.acts[i].path][k].cmd.verb == Spawn
    ensures var n := files[w.acts[i].path][k].cmd.name; n !in w.acts[i].names && n !in w.acts[0].names
  {
    var a := w.acts[i];
    var line, g := files[a.path][k], Against(globals, a.isRoot);
    assert Parsed(line.cmd);
    CleanStep(files, globals, a, k);
    SpawnClean(At(files, globals, a, k), g, a.path, line);
    LocalKeys(files, globals, a, k);
    assert Known(files, globals, a);
    assert ActOk(files, globals, false, w.acts[0]);
    hide Clean, CheckLine, PassTwo, Covered, Typed;
  }

  /** What others have under a name was put there before the run or while it went on. */
  lemma {:induction false} ForeignWasPut(before: Names, steps: seq<Step>, n: string)
    requires Foreign(before, steps, n).Some?
    ensures (n in before && before[n] == Foreign(before, steps, n).value) || Publish(n, Foreign(before, steps, n).value) in steps
    ensures n in Others(before, steps)
    decreases |steps|
  {
    if steps != [] {
      var init, s := steps[..|steps| - 1], steps[|steps| - 1];
      assert steps == init + [s];
      if Foreign(before, init, n) == Foreign(before, steps, n) { ForeignWasPut(before, init, n); }
    }
  }

  /** ... and what was there before is there still, unless it has been found dead or published over. */
  lemma {:induction false} ForeignStays(before: Names, steps: seq<Step>, n: string)
    requires n in before && forall s :: s in steps && !Moving(s) ==> s.name != n
    ensures Foreign(before, steps, n) == Some(before[n])
    decreases |steps|
  {
    if steps != [] {
      assert steps == steps[..|steps| - 1] + [steps[|steps| - 1]];
      ForeignStays(before, steps[..|steps| - 1], n);
    }
  }

  /** THE SECOND RUN. As long as nobody else touches the name, the spawns of a name are never refused for it
      if the table did not hold it before the run, and always, while its entity lives, if it did. */
  lemma OldNameRefusesSpawns(files: Files, root: Path, names: Names, before: Names, steps: seq<Step>, i: nat, k: nat, o: Answers)
    requires Acquiring(files, root, names, before, steps, i, k)
    requires var w := Reach(files, RootGlobals(files, root, LaunchScope(names)), Begin(root, names, before), steps);
      var cmd := files[w.acts[i].path][k].cmd; cmd.verb == Spawn && forall s :: s in steps && !Moving(s) ==> s.name != cmd.name
    ensures var w := Reach(files, RootGlobals(files, root, LaunchScope(names)), Begin(root, names, before), steps);
      var cmd := files[w.acts[i].path][k].cmd;
      Run(files, w.acts[i].names, w.table, o, cmd) ==
        (if cmd.name in before && before[cmd.name].rid in o.live then Stops(Failed) else Spawned(cmd.name, cmd.mod, cmd.tag, o.made))
  {
    var w := Reach(files, RootGlobals(files, root, LaunchScope(names)), Begin(root, names, before), steps);
    var n := files[w.acts[i].path][k].cmd.name;
    SpawnsFindTheirNameFree(files, root, names, before, steps, i, k, o);
    if n in before { ForeignStays(before, steps, n); } else if Foreign(before, steps, n).Some? { ForeignWasPut(before, steps, n); }
    hide Reach, Run, Foreign, Acquiring;
  }

  lemma SpawnClean(c: Progress, g: Scope, path: Path, line: Line)
    requires line.cmd.Acquire? && line.cmd.verb == Spawn && CheckLine(c, g, path, line).problems == []
    ensures Visible(c.local, g, line.cmd.name).None?
  {
    var a := line.cmd;
    var have := Visible(c.local, g, a.name);
    var c1 := Complain(c, have.Some?, Clobbers(path, line.number, a.name));
    assert CheckLine(c, g, path, line) == Introduce(c1, g, path, line.number, a.name, Name(a.mod, a.tag, true), false, true);
    IntroduceClean(c1, g, path, line.number, a.name, Name(a.mod, a.tag, true), false, true);
  }

  /** ALREADY INTRODUCED, EXACTLY. In any run of a clean tree an attach or ensure finds its name among the
      script's own, and is refused for it, if and only if the name was handed to the script. */
  lemma RefusedIffHanded(files: Files, root: Path, names: Names, before: Names, steps: seq<Step>, i: nat, k: nat)
    requires Acquiring(files, root, names, before, steps, i, k)
    ensures var w := Reach(files, RootGlobals(files, root, LaunchScope(names)), Begin(root, names, before), steps);
      var cmd := files[w.acts[i].path][k].cmd;
      && (cmd.name in w.acts[i].names <==> cmd.name in w.acts[i].provided)
      && (cmd.name in w.acts[i].provided ==> forall o :: Run(files, w.acts[i].names, w.table, o, cmd) == Stops(Failed))
  {
    var globals := RootGlobals(files, root, LaunchScope(names));
    RunIsKnown(files, root, names, before, steps);
    var w := Reach(files, globals, Begin(root, names, before), steps);
    hide Reach;
    OwnNameIsHanded(files, globals, Others(before, steps), w, i, k);
    hide AllKnown, WorldOk, Strangers, RootGlobals, Tree;
  }

  lemma OwnNameIsHanded(files: Files, globals: Scope, others: set<string>, w: World, i: nat, k: nat)
    requires WorldOk(files, globals, false, w) && AllKnown(files, globals, others, w) && WellFormed(files)
    requires i < |w.acts| && About(files, w.acts[i], k) && files[w.acts[i].path][k].cmd.Acquire?
    ensures var n := files[w.acts[i].path][k].cmd.name; n in w.acts[i].names <==> n in w.acts[i].provided
  {
    var a := w.acts[i];
    var line := files[a.path][k];
    assert Parsed(line.cmd);
    CleanStep(files, globals, a, k);
    LineClean(At(files, globals, a, k), Against(globals, a.isRoot), a.path, line);
    assert Known(files, globals, a);
    hide Clean, CheckLine, PassTwo, Covered, Typed;
  }

  const Handing: Files := map["a" := [Line(1, Acquire(Attach, "M", "T", "x"))]]

  /** Such a line does pass the preflight: the root attaches a name it was launched with, as its own type. */
  lemma PassesAHandedAttach()
    ensures var handed := map["x" := Bound(1, "M", "T")];
      Tree(Handing, "a", LaunchScope(handed)).problems == [] && forall table, o :: Run(Handing, handed, table, o, Handing["a"][0].cmd) == Stops(Failed)
  {
    var launch := LaunchScope(map["x" := Bound(1, "M", "T")]);
    var lines := Handing["a"];
    var globals := RootGlobals(Handing, "a", launch);
    var start := Progress(launch, {}, [], []);
    assert PassOne(start, map[], "a", lines, 0) == PassOne(start, map[], "a", lines, 1) == start;
    assert PassTwo(Handing, "a", launch, globals, [], true, 0) == start;
    assert Visible(launch, map[], "x") == Some(Name("M", "T", true));
    assert PassTwo(Handing, "a", launch, globals, [], true, 1).problems == [];
  }
}
