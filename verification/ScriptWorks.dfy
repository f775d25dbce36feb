/** When the preflight rejects nothing that would have worked (core/CommandExecutor.h:774-777).

    A run has worked when every script that was started has come to its end. In general the preflight does
    reject scripts that can work; `Regular` says of the files, and `OthersFit` of the names that others have
    in the table of globals, that none of the ways to do so is there, and then a single run that works is
    proof that the report is empty. WorksRefused.dfy has one input for every clause. */
module ScriptWorks {
  import opened Preflight
  import opened ScriptRuns
  import opened ScriptSafety
  import opened ScriptNames

  ghost predicate Done(a: Activation) {
    a.phase == Stopped(Finished) || a.phase == Stopped(Exited)
  }

  /** Every script that was started has come to its end, by its last line or by an exit. */
  ghost predicate Worked(w: World) {
    forall i :: 0 <= i < |w.acts| ==> Done(w.acts[i])
  }

  // ---- The condition -----------------------------------------------------------------------------------

  /** Some chain of launches leads from the root to the file. */
  ghost predicate InTree(files: Files, root: Path, p: Path) {
    exists w :: Chain(files, w) && w[0] == root && w[|w| - 1] == p
  }

  /** Nothing is written after an exit. */
  ghost predicate ExitLast(lines: seq<Line>) {
    forall i :: 0 <= i < |lines| && lines[i].cmd.Exit? ==> i == |lines| - 1
  }

  ghost predicate Respawns(cmd: Command) {
    cmd.ChildAcquire? && cmd.verb == Spawn
  }

  /** Where both lines introduce a name, the later one looks at the script's own names: neither of them is
      a `requires`, and the later is not a child spawn. */
  ghost predicate Compatible(earlier: Command, later: Command) {
    (Acquires(earlier) || earlier.Requires?) && (Acquires(later) || later.Requires?) && earlier.name == later.name ==>
      Acquires(earlier) && Acquires(later) && !Respawns(later)
  }

  ghost predicate OnceOnly(lines: seq<Line>) {
    forall i, j :: 0 <= i < j < |lines| ==> Compatible(lines[i].cmd, lines[j].cmd)
  }

  /** A launched script reaches for a name of the root by attach or ensure, and as the root's type. */
  ghost predicate RootNames(lines: seq<Line>, globals: Scope) {
    forall i :: 0 <= i < |lines| && Acquires(lines[i].cmd) && lines[i].cmd.name in globals ==>
      lines[i].cmd.verb != Spawn
      && (globals[lines[i].cmd.name].typed ==> globals[lines[i].cmd.name] == Name(lines[i].cmd.mod, lines[i].cmd.tag, true))
  }

  /** No child spawn takes a name that the script is handed. */
  ghost predicate KeepsHanded(lines: seq<Line>, handed: set<string>) {
    forall i :: 0 <= i < |lines| && Respawns(lines[i].cmd) ==> lines[i].cmd.name !in handed
  }

  /** A name of the root is only handed on as itself, and a handed name is not spawned over. */
  ghost predicate Handing(files: Files, lines: seq<Line>, globals: Scope) {
    forall i :: 0 <= i < |lines| && lines[i].cmd.Launch? ==>
      && (forall b :: b in lines[i].cmd.bindings && b.childKey in globals ==> b.parentKey == b.childKey)
      && (lines[i].cmd.script in files ==> KeepsHanded(files[lines[i].cmd.script], set b | b in lines[i].cmd.bindings :: b.childKey))
  }

  ghost predicate RegularFile(files: Files, root: Path, globals: Scope, p: Path)
    requires p in files
  {
    && ExitLast(files[p]) && OnceOnly(files[p]) && Handing(files, files[p], globals)
    && (p != root ==> RootNames(files[p], globals))
  }

  /** The condition on the files, the root and the names it is launched with. */
  ghost predicate Regular(files: Files, root: Path, launch: Scope) {
    root in files ==>
      && KeepsHanded(files[root], launch.Keys)
      && forall p :: p in files && InTree(files, root, p) ==> RegularFile(files, root, RootGlobals(files, root, launch), p)
  }

  /** The line looks for an entity under the name. */
  ghost predicate Mentions(cmd: Command, n: string) {
    n in Needs(cmd) || (cmd.Requires? && cmd.name == n) || (Acquires(cmd) && cmd.verb == Attach && cmd.name == n)
  }

  /** Wherever the script looks for the name, it has acquired it itself before. */
  ghost predicate TakenFirst(lines: seq<Line>, n: string) {
    forall i :: 0 <= i < |lines| && Mentions(lines[i].cmd, n) ==> AcquiredIn(lines, i, n)
  }

  /** A name that others have in the table means nothing to a script, or what the preflight takes it for: the
      root was launched with it, the root introduces it for the rest of the tree, or the script takes it anew
      before it looks for it. */
  ghost predicate OthersFit(files: Files, root: Path, launch: Scope, others: set<string>) {
    root in files ==> forall n, p :: n in others && p in files && InTree(files, root, p) ==>
      (if p == root then n in launch else n in RootGlobals(files, root, launch)) || TakenFirst(files[p], n)
  }

  // ---- What executed lines say about the report --------------------------------------------------------

  /** The preflight's names are what was handed and what was introduced, reports or no reports. */
  lemma {:induction false} BeforeKeys(files: Files, globals: Scope, a: Activation, k: nat)
    requires a.path in files && k <= |files[a.path]|
    ensures var c := Before(files, globals, a, k);
      && c.local.Keys == a.provided.Keys + c.introduced
      && (forall n :: n in c.introduced ==> RequiredIn(files[a.path], k, n))
  {
    if k > 0 {
      BeforeKeys(files, globals, a, k - 1);
      var line := files[a.path][k - 1];
      if line.cmd.Requires? {
        assert RequiredIn(files[a.path], k, line.cmd.name);
      }
      assert forall n :: RequiredIn(files[a.path], k - 1, n) ==> RequiredIn(files[a.path], k, n);
    }
  }

  ghost predicate RequiredIn(lines: seq<Line>, k: nat, n: string) {
    exists j :: 0 <= j < k && j < |lines| && lines[j].cmd.Requires? && lines[j].cmd.name == n
  }

  ghost predicate AcquiredIn(lines: seq<Line>, k: nat, n: string) {
    exists j :: 0 <= j < k && j < |lines| && Acquires(lines[j].cmd) && lines[j].cmd.name == n
  }

  /** What one line does to the names: nothing, unless it acquires. */
  ghost predicate NamesAfter(c: Progress, c': Progress, cmd: Command) {
    if !Acquires(cmd) then c'.local == c.local && c'.introduced == c.introduced
    else
      && c'.introduced == c.introduced + {cmd.name}
      && c'.local == if cmd.name in c.introduced then c.local else c.local[cmd.name := Name(cmd.mod, cmd.tag, true)]
  }

  lemma AcquireKeys(c: Progress, g: Scope, path: Path, line: nat, a: Command)
    requires a.Acquire?
    ensures NamesAfter(c, CheckAcquire(c, g, path, line, a), a)
  {
    hide Visible;
  }

  lemma ChildAcquireKeys(c: Progress, g: Scope, path: Path, line: nat, a: Command)
    requires a.ChildAcquire?
    ensures NamesAfter(c, CheckChildAcquire(c, g, path, line, a), a)
  {
    hide Visible;
  }

  lemma LineKeys(c: Progress, g: Scope, path: Path, line: Line)
    ensures NamesAfter(c, CheckLine(c, g, path, line), line.cmd)
  {
    hide CheckBindings, CheckAcquire, CheckChildAcquire, Visible;
    match line.cmd {
      case Acquire(_, _, _, _) => AcquireKeys(c, g, path, line.number, line.cmd);
      case ChildAcquire(_, _, _, _, _) => ChildAcquireKeys(c, g, path, line.number, line.cmd);
      case Launch(_, bindings, _) => BindingsAppend(c, g, path, line.number, bindings);
      case _ =>
    }
  }

  lemma {:induction false} AtKeys(files: Files, globals: Scope, a: Activation, k: nat)
    requires a.path in files && k <= |files[a.path]|
    ensures var c := At(files, globals, a, k);
      && c.local.Keys == a.provided.Keys + c.introduced
      && (forall n :: n in c.introduced ==> RequiredIn(files[a.path], |files[a.path]|, n) || AcquiredIn(files[a.path], k, n))
  {
    var lines := files[a.path];
    if k == 0 {
      BeforeKeys(files, globals, a, |lines|);
    } else {
      AtKeys(files, globals, a, k - 1);
      LineKeys(At(files, globals, a, k - 1), Against(globals, a.isRoot), a.path, lines[k - 1]);
      hide CheckLine;
      assert Acquires(lines[k - 1].cmd) ==> AcquiredIn(lines, k, lines[k - 1].cmd.name);
      assert forall n :: AcquiredIn(lines, k - 1, n) ==> AcquiredIn(lines, k, n);
    }
  }

  /** The types that the preflight has for names of the root are the root's. */
  ghost predicate RootTypes(local: Scope, globals: Scope) {
    forall n :: n in local && n in globals && local[n].typed && globals[n].typed ==> local[n] == globals[n]
  }

  /** Everything the line looks for and could find at run time, the preflight sees. */
  ghost predicate Seen(names: Names, table: Names, local: Scope, g: Scope, cmd: Command) {
    && names.Keys <= local.Keys + {"root"}
    && (forall n :: n in table && Mentions(cmd, n) ==> n in names || n in g)
  }

  lemma FoundIsSeen(names: Names, table: Names, local: Scope, g: Scope, cmd: Command, n: string)
    requires Seen(names, table, local, g, cmd) && Mentions(cmd, n) && n != "root" && Lookup(names, table, n).Some?
    ensures Visible(local, g, n).Some?
  {}

  /** A `requires` that is met adds nothing to an empty report. */
  lemma MetIsClean(c: Progress, g: Scope, path: Path, line: nat, n: string)
    requires c.problems == [] && n !in c.introduced && Visible(c.local, g, n).Some? && RootTypes(c.local, g)
    ensures Require(c, g, path, line, n).problems == []
  {}

  /** An acquisition that succeeds adds nothing to an empty report. */
  lemma AcquiredIsClean(c: Progress, g: Scope, path: Path, line: nat, a: Command, names: Names, table: Names, o: Answers)
    requires a.Acquire? && c.problems == [] && Seen(names, table, c.local, g, a) && a.name != "root"
    requires (a.name in c.local ==> a.name in names) && (a.name in c.introduced ==> a.name in c.local)
    requires a.name in g ==> a.verb != Spawn && (g[a.name].typed ==> g[a.name] == Name(a.mod, a.tag, true))
    requires !RunAcquire(names, table, o, a).Stops?
    ensures CheckAcquire(c, g, path, line, a).problems == []
  {}

  lemma ChildAcquiredIsClean(c: Progress, g: Scope, path: Path, line: nat, a: Command, names: Names, table: Names, o: Answers)
    requires a.ChildAcquire? && c.problems == [] && Seen(names, table, c.local, g, a) && a.name != "root" && a.parent != "root"
    requires (a.name in c.local ==> a.name in names && a.verb != Spawn) && (a.name in c.introduced ==> a.name in c.local)
    requires a.name in g ==> a.verb != Spawn
    requires !RunChildAcquire(names, table, o, a).Stops?
    ensures CheckChildAcquire(c, g, path, line, a).problems == []
  {
    FoundIsSeen(names, table, c.local, g, a, a.parent);
    if a.verb == Attach {
      FoundIsSeen(names, table, c.local, g, a, a.name);
    }
  }

  lemma {:induction false} BoundIsClean(c: Progress, g: Scope, path: Path, line: nat, bindings: seq<Binding>, cmd: Command,
                                                names: Names, table: Names, o: Answers)
    requires c.problems == [] && Seen(names, table, c.local, g, cmd) && RunBindings(names, table, o, bindings).Starts?
    requires forall b :: b in bindings ==> b.parentKey != "root" && Mentions(cmd, b.parentKey)
    ensures CheckBindings(c, g, path, line, bindings).problems == []
    ensures forall b :: b in bindings ==> Visible(c.local, g, b.parentKey).Some?
  {
    if bindings != [] {
      var rest, b := bindings[..|bindings| - 1], bindings[|bindings| - 1];
      assert bindings == rest + [b];
      BindingsOnlyStart(names, table, o, rest);
      BoundIsClean(c, g, path, line, rest, cmd, names, table, o);
      FoundIsSeen(names, table, c.local, g, cmd, b.parentKey);
    }
  }

  /** What an acquisition has to know about its name, given that it is executed and succeeds. */
  ghost predicate Apt(cmd: Command, c: Progress, g: Scope, names: Names) {
    Acquires(cmd) ==>
      && (cmd.name in c.local ==> cmd.name in names && !Respawns(cmd))
      && (cmd.name in c.introduced ==> cmd.name in c.local)
      && (cmd.name in g ==> cmd.verb != Spawn && (g[cmd.name].typed ==> g[cmd.name] == Name(cmd.mod, cmd.tag, true)))
  }

  /** A line that is executed and does not stop its script adds nothing to an empty report. */
  lemma ExecutedIsClean(files: Files, c: Progress, g: Scope, path: Path, line: Line, names: Names, table: Names, o: Answers)
    requires c.problems == [] && Seen(names, table, c.local, g, line.cmd) && Parsed(line.cmd) && Apt(line.cmd, c, g, names)
    requires Run(files, names, table, o, line.cmd).Stops? ==> line.cmd.Exit?
    ensures CheckLine(c, g, path, line).problems == []
  {
    hide Seen, CheckAcquire, CheckChildAcquire, CheckBindings, RunAcquire, RunChildAcquire, RunBindings;
    match line.cmd {
      case Acquire(_, _, _, _) => AcquiredIsClean(c, g, path, line.number, line.cmd, names, table, o);
      case ChildAcquire(_, parent, _, _, _) =>
        assert parent in Needs(line.cmd);
        ChildAcquiredIsClean(c, g, path, line.number, line.cmd, names, table, o);
      case Launch(_, bindings, _) =>
        BindingsOnlyStart(names, table, o, bindings);
        BoundIsClean(c, g, path, line.number, bindings, line.cmd, names, table, o);
      case Action(receiver, stream, consumer) =>
        assert receiver in Needs(line.cmd) && (stream ==> consumer in Needs(line.cmd));
        FoundIsSeen(names, table, c.local, g, line.cmd, receiver);
        if stream {
          FoundIsSeen(names, table, c.local, g, line.cmd, consumer);
        }
      case Kill(receiver) =>
        assert receiver in Needs(line.cmd);
        FoundIsSeen(names, table, c.local, g, line.cmd, receiver);
      case Unflag(receiver) =>
        assert receiver in Needs(line.cmd);
        FoundIsSeen(names, table, c.local, g, line.cmd, receiver);
      case _ =>
    }
  }

  // ---- A script on its way to its end --------------------------------------------------------------------

  /** Not stopped for any reason but its own end. */
  ghost predicate Healthy(a: Activation) {
    a.phase.Stopped? ==> Done(a)
  }

  /** The lines the activation has behind it. */
  ghost function Passed(files: Files, a: Activation): nat
    requires Placed(files, a)
  {
    match a.phase
    case Running(k) => k
    case Stopped(_) => |files[a.path]|
    case _ => 0
  }

  /** What the preflight makes of the script as far as it has got. */
  ghost function Reached(files: Files, globals: Scope, a: Activation): Progress
    requires Placed(files, a)
  {
    match a.phase
    case Starting => Before(files, globals, a, 0)
    case Requiring(k) => Before(files, globals, a, k)
    case Running(k) => At(files, globals, a, k)
    case Stopped(_) => At(files, globals, a, |files[a.path]|)
  }

  /** Every acquisition behind the activation has bound its name, which was not handed to it. */
  ghost predicate Had(files: Files, a: Activation)
    requires Placed(files, a)
  {
    forall j :: 0 <= j < Passed(files, a) && j < |files[a.path]| && Acquires(files[a.path][j].cmd) ==>
      files[a.path][j].cmd.name in a.names && files[a.path][j].cmd.name !in a.provided
  }

  /** The preflight has nothing to report of a healthy activation so far. */
  ghost predicate Fine(files: Files, globals: Scope, a: Activation) {
    Placed(files, a) && (Healthy(a) ==>
      var c := Reached(files, globals, a);
      && c.problems == [] && RootTypes(c.local, Against(globals, a.isRoot))
      && a.names.Keys <= c.local.Keys + {"root"} && a.provided.Keys <= a.names.Keys && Had(files, a))
  }

  /** The clauses of the condition that concern one activation. */
  ghost predicate Suited(files: Files, globals: Scope, others: set<string>, a: Activation) {
    && a.path in files && ExitLast(files[a.path]) && OnceOnly(files[a.path]) && KeepsHanded(files[a.path], a.provided.Keys)
    && (!a.isRoot ==> RootNames(files[a.path], globals))
    && (forall i :: 0 <= i < |files[a.path]| ==> Parsed(files[a.path][i].cmd))
    && forall n :: n in others ==> (if a.isRoot then n in a.provided else n in globals) || TakenFirst(files[a.path], n)
  }

  /** The table holds what others have put there, and what the activation, as the root, has published, or what
      the root introduces. */
  ghost predicate TableFits(table: Names, globals: Scope, others: set<string>, a: Activation) {
    forall n :: n in table ==> n in others || if a.isRoot then n in a.names else n in globals
  }

  /** The line that the activation has come to. */
  ghost predicate ComeTo(files: Files, a: Activation, k: nat) {
    a.path in files && k < |files[a.path]| && (a.phase == Running(k) || (a.phase == Requiring(k) && files[a.path][k].cmd.Requires?))
  }

  lemma HealthySees(files: Files, globals: Scope, others: set<string>, a: Activation, table: Names, k: nat)
    requires Fine(files, globals, a) && Healthy(a) && Suited(files, globals, others, a) && TableFits(table, globals, others, a)
    requires ComeTo(files, a, k)
    ensures Seen(a.names, table, Reached(files, globals, a).local, Against(globals, a.isRoot), files[a.path][k].cmd)
  {
    var lines := files[a.path];
    forall n | n in table && Mentions(lines[k].cmd, n)
      ensures n in a.names || n in Against(globals, a.isRoot)
    {
      if n in others && TakenFirst(lines, n) {
        assert AcquiredIn(lines, k, n);
        var j :| 0 <= j < k && j < |lines| && Acquires(lines[j].cmd) && lines[j].cmd.name == n;
        assert Compatible(lines[j].cmd, lines[k].cmd);
      }
    }
    hide Own, RootTypes, Mentions;
  }

  /** The line that is about to be executed knows about its name what it has to. */
  lemma LineIsApt(files: Files, globals: Scope, others: set<string>, a: Activation, k: nat)
    requires Fine(files, globals, a) && Suited(files, globals, others, a) && a.phase == Running(k) && k < |files[a.path]|
    ensures Apt(files[a.path][k].cmd, At(files, globals, a, k), Against(globals, a.isRoot), a.names)
  {
    var lines := files[a.path];
    var cmd, c := lines[k].cmd, At(files, globals, a, k);
    if Acquires(cmd) {
      AtKeys(files, globals, a, k);
      hide Own;
      if cmd.name in c.introduced {
        assert !RequiredIn(lines, |lines|, cmd.name) by {
          NotRequiredToo(lines, k, cmd.name);
        }
        var j :| 0 <= j < k && j < |lines| && Acquires(lines[j].cmd) && lines[j].cmd.name == cmd.name;
        assert Compatible(lines[j].cmd, lines[k].cmd);
      }
    }
  }

  lemma NotRequiredToo(lines: seq<Line>, k: nat, n: string)
    requires OnceOnly(lines) && k < |lines| && Acquires(lines[k].cmd) && lines[k].cmd.name == n
    ensures !RequiredIn(lines, |lines|, n)
  {
    forall j | 0 <= j < |lines| && lines[j].cmd.Requires?
      ensures lines[j].cmd.name != n
    {
      assert j != k;
      assert j < k ==> Compatible(lines[j].cmd, lines[k].cmd);
      assert k < j ==> Compatible(lines[k].cmd, lines[j].cmd);
    }
  }

  lemma RootTypesGrow(c: Progress, c': Progress, cmd: Command, g: Scope, names: Names)
    requires RootTypes(c.local, g) && NamesAfter(c, c', cmd) && Apt(cmd, c, g, names)
    ensures RootTypes(c'.local, g)
  {}

  /** An executed line leaves its activation fine, if it leaves it healthy. */
  lemma ExecuteKeepsFine(files: Files, globals: Scope, others: set<string>, w: World, i: nat, o: Answers, k: nat)
    requires i < |w.acts| && Fine(files, globals, w.acts[i]) && Suited(files, globals, others, w.acts[i])
    requires TableFits(w.table, globals, others, w.acts[i])
    requires w.acts[i].phase == Running(k) && k < |files[w.acts[i].path]|
    ensures Fine(files, globals, Execute(files, globals, w, i, o, k).acts[i])
  {
    var a, a' := w.acts[i], Execute(files, globals, w, i, o, k).acts[i];
    var cmd := files[a.path][k].cmd;
    var e := Run(files, a.names, w.table, o, cmd);
    ExecutedActivation(files, globals, w, i, o, k);
    RunBinds(files, a.names, w.table, o, cmd);
    StopsAtExit(files, a.names, w.table, o, cmd);
    NewNameWasFree(files, a.names, w.table, o, cmd);
    hide Execute, CheckLine, Run, Own, RootTypes, TableFits, Suited;
    if Healthy(a') {
      assert e.Stops? ==> cmd.Exit?;
      LineKeepsClean(files, globals, others, a, w.table, o, k);
      HadMore(files, globals, others, a, a', k, e);
      hide Had, NamesAfter, Acquires;
      NamesInStep(At(files, globals, a, k), At(files, globals, a, k + 1), cmd, a.names, a'.names, e);
      SameProgress(files, globals, a, a');
      assert Reached(files, globals, a') == At(files, globals, a, k + 1);
    }
  }

  lemma NamesInStep(c: Progress, c': Progress, cmd: Command, names: Names, names': Names, e: Effect)
    requires NamesAfter(c, c', cmd) && names.Keys <= c.local.Keys + {"root"}
    requires names' == if e.Binds? then names[e.name := e.bound] else names
    requires e.Binds? ==> Acquires(cmd) && e.name == cmd.name && (cmd.name in c.introduced ==> cmd.name in c.local)
    ensures names'.Keys <= c'.local.Keys + {"root"} && names.Keys <= names'.Keys
  {}

  /** What a line does to the activation that executes it. */
  lemma ExecutedActivation(files: Files, globals: Scope, w: World, i: nat, o: Answers, k: nat)
    requires i < |w.acts| && Placed(files, w.acts[i]) && w.acts[i].phase == Running(k) && k < |files[w.acts[i].path]|
    ensures var a := w.acts[i];
      var e := Run(files, a.names, w.table, o, files[a.path][k].cmd);
      Execute(files, globals, w, i, o, k).acts[i] ==
        a.(names := if e.Binds? then a.names[e.name := e.bound] else a.names,
           phase := if e.Stops? then Stopped(e.why) else Running(k + 1))
  {
    hide Run, Local;
  }

  /** A line that is executed and leaves the script healthy. */
  lemma LineKeepsClean(files: Files, globals: Scope, others: set<string>, a: Activation, table: Names, o: Answers, k: nat)
    requires Fine(files, globals, a) && Suited(files, globals, others, a) && TableFits(table, globals, others, a)
    requires a.phase == Running(k) && k < |files[a.path]|
    requires Run(files, a.names, table, o, files[a.path][k].cmd).Stops? ==> files[a.path][k].cmd.Exit?
    ensures var c := At(files, globals, a, k + 1);
      && c.problems == [] && RootTypes(c.local, Against(globals, a.isRoot))
      && NamesAfter(At(files, globals, a, k), c, files[a.path][k].cmd)
      && At(files, globals, a, k).introduced <= At(files, globals, a, k).local.Keys
      && (files[a.path][k].cmd.Exit? ==> k == |files[a.path]| - 1)
  {
    var c, line, g := At(files, globals, a, k), files[a.path][k], Against(globals, a.isRoot);
    HealthySees(files, globals, others, a, table, k);
    LineIsApt(files, globals, others, a, k);
    LineKeys(c, g, a.path, line);
    AtKeys(files, globals, a, k);
    hide RequiredIn, AcquiredIn, Own;
    hide CheckLine, Run, RootTypes, Apt, Seen, TableFits, OnceOnly, RootNames, Had;
    ExecutedIsClean(files, c, g, a.path, line, a.names, table, o);
    RootTypesGrow(c, At(files, globals, a, k + 1), line.cmd, g, a.names);
  }

  /** A script that is stopped by a line, and still is at its end, was stopped by an exit. */
  lemma StopsAtExit(files: Files, names: Names, table: Names, o: Answers, cmd: Command)
    ensures var e := Run(files, names, table, o, cmd);
      e.Stops? && (e.why == Finished || e.why == Exited) ==> cmd.Exit?
  {
    if cmd.Launch? {
      BindingsStop(names, table, o, cmd.bindings);
    }
  }

  lemma {:induction false} BindingsStop(names: Names, table: Names, o: Answers, bindings: seq<Binding>)
    ensures var e := RunBindings(names, table, o, bindings);
      e.Starts? || (e.Stops? && e.why != Finished && e.why != Exited)
  {
    if bindings != [] {
      BindingsStop(names, table, o, bindings[..|bindings| - 1]);
    }
  }

  /** A top-level acquisition, and a child's attach or ensure, only bind a name the script does not have. */
  lemma NewNameWasFree(files: Files, names: Names, table: Names, o: Answers, cmd: Command)
    ensures Acquires(cmd) && Run(files, names, table, o, cmd).Binds? && !Respawns(cmd) ==> cmd.name !in names
  {}

  lemma HadMore(files: Files, globals: Scope, others: set<string>, a: Activation, a': Activation, k: nat, e: Effect)
    requires Placed(files, a) && a.phase == Running(k) && k < |files[a.path]| && Had(files, a) && Suited(files, globals, others, a)
    requires a.provided.Keys <= a.names.Keys
    requires a'.path == a.path && a'.provided == a.provided && Placed(files, a')
    requires a'.names == if e.Binds? then a.names[e.name := e.bound] else a.names
    requires e.Binds? ==> Acquires(files[a.path][k].cmd) && e.name == files[a.path][k].cmd.name
    requires e.Binds? && !Respawns(files[a.path][k].cmd) ==> e.name !in a.names
    requires Acquires(files[a.path][k].cmd) && !e.Binds? ==> e.Stops?
    requires a'.phase == if e.Stops? then Stopped(e.why) else Running(k + 1)
    requires e.Stops? ==> files[a.path][k].cmd.Exit?
    ensures Had(files, a')
  {
    var lines := files[a.path];
    assert e.Stops? ==> k == |lines| - 1;
    forall j | 0 <= j < Passed(files, a') && j < |lines| && Acquires(lines[j].cmd)
      ensures lines[j].cmd.name in a'.names && lines[j].cmd.name !in a.provided
    {
      assert j <= k;
    }
  }

  /** A `requires` that is met leaves its activation fine. */
  lemma RequireKeepsFine(files: Files, globals: Scope, others: set<string>, w: World, i: nat, o: Answers, k: nat)
    requires i < |w.acts| && Fine(files, globals, w.acts[i]) && Suited(files, globals, others, w.acts[i])
    requires TableFits(w.table, globals, others, w.acts[i])
    requires w.acts[i].phase == Requiring(k) && k < |files[w.acts[i].path]| && files[w.acts[i].path][k].cmd.Requires?
    ensures Fine(files, globals, Require1(w, i, o, files[w.acts[i].path][k].cmd.name, k).acts[i])
  {
    var a := w.acts[i];
    var line, g, c := files[a.path][k], Against(globals, a.isRoot), Before(files, globals, a, k);
    var n := line.cmd.name;
    var a' := Require1(w, i, o, n, k).acts[i];
    SameProgress(files, globals, a, a');
    if Healthy(a') {
      assert Parsed(line.cmd);
      HealthySees(files, globals, others, a, w.table, k);
      assert LookupLive(a.names, w.table, o.live, n).Some?;
      FoundIsSeen(a.names, w.table, c.local, g, line.cmd, n);
      FirstRequire(files, globals, a, k);
      MetIsClean(c, g, a.path, line.number, n);
      RequireNames(c, g, a.path, line.number, n);
      hide Require, Seen, TableFits, Suited;
    }
  }

  lemma FirstRequire(files: Files, globals: Scope, a: Activation, k: nat)
    requires a.path in files && k < |files[a.path]| && files[a.path][k].cmd.Requires? && OnceOnly(files[a.path])
    ensures files[a.path][k].cmd.name !in Before(files, globals, a, k).introduced
  {
    var lines := files[a.path];
    BeforeKeys(files, globals, a, k);
    forall j | 0 <= j < k && lines[j].cmd.Requires?
      ensures lines[j].cmd.name != lines[k].cmd.name
    {
      assert Compatible(lines[j].cmd, lines[k].cmd);
    }
  }

  lemma RequireNames(c: Progress, g: Scope, path: Path, line: nat, n: string)
    requires n !in c.introduced && Visible(c.local, g, n).Some?
    ensures Require(c, g, path, line, n).local == c.local[n := Visible(c.local, g, n).value]
    ensures RootTypes(c.local, g) ==> RootTypes(Require(c, g, path, line, n).local, g)
  {}

  lemma PhaseKeepsFine(files: Files, globals: Scope, w: World, s: Step)
    requires s.Act? && s.i < |w.acts| && Fine(files, globals, w.acts[s.i])
    requires var a := w.acts[s.i];
      match a.phase
      case Requiring(k) => k == |files[a.path]| || !files[a.path][k].cmd.Requires?
      case Running(k) => k == |files[a.path]|
      case _ => true
    ensures Fine(files, globals, Next(files, globals, w, s).acts[s.i])
  {
    var a, a' := w.acts[s.i], Next(files, globals, w, s).acts[s.i];
    SameProgress(files, globals, a, a');
    hide RootTypes, CheckLine, HasMalformed;
  }

  /** One step of any kind, for the activation that takes it. */
  lemma MovedFine(files: Files, globals: Scope, others: set<string>, w: World, s: Step)
    requires Moving(s) && s.i < |w.acts| && Fine(files, globals, w.acts[s.i]) && Suited(files, globals, others, w.acts[s.i])
    requires TableFits(w.table, globals, others, w.acts[s.i])
    ensures s.i < |Next(files, globals, w, s).acts| && Fine(files, globals, Next(files, globals, w, s).acts[s.i])
  {
    NextFrame(files, globals, w, s);
    var a := w.acts[s.i];
    assert Placed(files, a);
    if s.Act? && a.phase.Requiring? && a.phase.k < |files[a.path]| && files[a.path][a.phase.k].cmd.Requires? {
      RequireKeepsFine(files, globals, others, w, s.i, s.answers, a.phase.k);
      hide Require1, Fine;
    } else if s.Act? && a.phase.Running? && a.phase.k < |files[a.path]| {
      ExecuteKeepsFine(files, globals, others, w, s.i, s.answers, a.phase.k);
      hide Execute, Fine;
    } else if s.Act? {
      PhaseKeepsFine(files, globals, w, s);
      hide *;
    }
  }

  // ---- Who launched whom ---------------------------------------------------------------------------------

  /** Activation b is what line k of activation a's file launches. */
  ghost predicate ChildOf(files: Files, globals: Scope, a: Activation, k: nat, b: Activation) {
    && LaunchedAt(files, a.path, k, b.path) && !b.isRoot && b.stack == a.stack + [a.path]
    && b.provided == Handed(At(files, globals, a, k).local, Against(globals, a.isRoot), files[a.path][k].cmd.bindings)
  }

  ghost predicate Parented(files: Files, globals: Scope, acts: seq<Activation>, j: nat)
    requires j < |acts|
  {
    exists i: nat, k: nat :: i < j && ChildOf(files, globals, acts[i], k, acts[j])
  }

  ghost predicate Launched(files: Files, globals: Scope, acts: seq<Activation>, i: nat, k: nat)
    requires i < |acts|
  {
    exists j: nat :: i < j < |acts| && ChildOf(files, globals, acts[i], k, acts[j])
  }

  /** Line k of activation i, a launch, is behind it. */
  ghost predicate LaunchBehind(files: Files, acts: seq<Activation>, i: nat, k: nat)
    requires i < |acts|
  {
    && Placed(files, acts[i]) && Healthy(acts[i]) && k < Passed(files, acts[i]) && k < |files[acts[i].path]|
    && files[acts[i].path][k].cmd.Launch?
  }

  /** Everybody but the root was launched by somebody before, and every launch behind has its activation. */
  ghost predicate Family(files: Files, globals: Scope, others: set<string>, root: Path, launch: Scope, w: World) {
    && OneRoot(others, w) && ("root" in w.table ==> "root" in others)
    && w.acts[0].path == root && w.acts[0].provided == launch && w.acts[0].stack == []
    && (forall j: nat :: 0 < j < |w.acts| ==> Parented(files, globals, w.acts, j))
    && (forall i: nat :: i < |w.acts| ==> Placed(files, w.acts[i]))
    && (forall i: nat, k: nat :: i < |w.acts| && LaunchBehind(files, w.acts, i, k) ==> Launched(files, globals, w.acts, i, k))
  }

  /** The activations' places in the tree never change. */
  ghost predicate SamePlaces(acts: seq<Activation>, acts': seq<Activation>) {
    |acts| <= |acts'| && forall j :: 0 <= j < |acts| ==>
      acts'[j] == acts[j].(names := acts'[j].names, phase := acts'[j].phase)
  }

  lemma NextKeepsPlaces(files: Files, globals: Scope, w: World, s: Step)
    ensures SamePlaces(w.acts, Next(files, globals, w, s).acts)
  {
    NextMoves(files, globals, w, s);
    hide Next;
  }

  lemma ChildOfStays(files: Files, globals: Scope, a: Activation, k: nat, b: Activation, a': Activation, b': Activation)
    requires ChildOf(files, globals, a, k, b)
    requires a' == a.(names := a'.names, phase := a'.phase) && b' == b.(names := b'.names, phase := b'.phase)
    ensures ChildOf(files, globals, a', k, b')
  {
    SameProgress(files, globals, a, a');
  }

  lemma ParentedStays(files: Files, globals: Scope, acts: seq<Activation>, acts': seq<Activation>, j: nat)
    requires j < |acts| && Parented(files, globals, acts, j) && SamePlaces(acts, acts')
    ensures Parented(files, globals, acts', j)
  {
    var i: nat, k: nat :| i < j && ChildOf(files, globals, acts[i], k, acts[j]);
    ChildOfStays(files, globals, acts[i], k, acts[j], acts'[i], acts'[j]);
  }

  lemma LaunchedStays(files: Files, globals: Scope, acts: seq<Activation>, acts': seq<Activation>, i: nat, k: nat)
    requires i < |acts| && Launched(files, globals, acts, i, k) && SamePlaces(acts, acts')
    ensures Launched(files, globals, acts', i, k)
  {
    var j: nat :| i < j < |acts| && ChildOf(files, globals, acts[i], k, acts[j]);
    ChildOfStays(files, globals, acts[i], k, acts[j], acts'[i], acts'[j]);
  }

  /** A launch adds exactly the activation that the line launches. */
  lemma LaunchAdds(files: Files, globals: Scope, w: World, i: nat, o: Answers, k: nat)
    requires i < |w.acts| && Placed(files, w.acts[i]) && w.acts[i].phase == Running(k) && k < |files[w.acts[i].path]|
    ensures var a := w.acts[i];
      var w' := Execute(files, globals, w, i, o, k);
      && SamePlaces(w.acts, w'.acts)
      && (|w'.acts| > |w.acts| ==> ChildOf(files, globals, w'.acts[i], k, w'.acts[|w.acts|]) && Placed(files, w'.acts[|w.acts|]))
      && (files[a.path][k].cmd.Launch? && Healthy(w'.acts[i]) ==> |w'.acts| == |w.acts| + 1)
  {
    var a, w' := w.acts[i], Execute(files, globals, w, i, o, k);
    var cmd := files[a.path][k].cmd;
    RunBinds(files, a.names, w.table, o, cmd);
    StopsAtExit(files, a.names, w.table, o, cmd);
    StartsAFile(files, a.names, w.table, o, cmd);
    LaunchStarts(files, a.names, w.table, o, cmd);
    hide Run, Own, Handed, RunLaunch;
    SameProgress(files, globals, a, w'.acts[i]);
  }

  lemma StartsAFile(files: Files, names: Names, table: Names, o: Answers, cmd: Command)
    ensures var e := Run(files, names, table, o, cmd); e.Starts? ==> cmd.Launch? && e.script == cmd.script && e.script in files
  {
    RunBinds(files, names, table, o, cmd);
  }

  lemma LaunchStarts(files: Files, names: Names, table: Names, o: Answers, cmd: Command)
    ensures var e := Run(files, names, table, o, cmd); cmd.Launch? ==> e.Starts? || e.Stops?
  {
    if cmd.Launch? { LaunchOnlyStarts(files, names, table, o, cmd); }
  }

  /** The newcomer of a step, if there is one, is the child of the activation that took it. */
  lemma NewcomerIsChild(files: Files, globals: Scope, w: World, s: Step)
    requires |Next(files, globals, w, s).acts| > |w.acts|
    ensures var w' := Next(files, globals, w, s);
      && |w'.acts| == |w.acts| + 1 && Executes(files, globals, w, s)
      && ChildOf(files, globals, w'.acts[s.i], w.acts[s.i].phase.k, w'.acts[|w.acts|]) && Placed(files, w'.acts[|w.acts|])
  {
    NextFrame(files, globals, w, s);
    LaunchAdds(files, globals, w, s.i, s.answers, w.acts[s.i].phase.k);
    hide Next, Execute;
  }

  /** What a step puts behind an activation is behind it already, or is a launch that adds one. */
  lemma NewlyBehind(files: Files, globals: Scope, w: World, s: Step, i: nat, k: nat)
    requires i < |w.acts| && Placed(files, w.acts[i]) && ExitLast(files[w.acts[i].path])
    requires |w.acts| <= |Next(files, globals, w, s).acts| && LaunchBehind(files, Next(files, globals, w, s).acts, i, k)
    ensures LaunchBehind(files, w.acts, i, k) ||
      (Executes(files, globals, w, s) && s.i == i && w.acts[i].phase.k == k && |Next(files, globals, w, s).acts| > |w.acts|)
  {
    NextFrame(files, globals, w, s);
    NextKeepsPlaces(files, globals, w, s);
    var a, a' := w.acts[i], Next(files, globals, w, s).acts[i];
    if s.Act? && s.i == i && a.phase.Running? && a.phase.k < |files[a.path]| {
      LaunchAdds(files, globals, w, i, s.answers, a.phase.k);
      RunBinds(files, a.names, w.table, s.answers, files[a.path][a.phase.k].cmd);
      StopsAtExit(files, a.names, w.table, s.answers, files[a.path][a.phase.k].cmd);
      hide Run, ChildOf;
    } else {
      hide Execute, Require1, HasMalformed;
    }
  }

  lemma NextKeepsFamily(files: Files, globals: Scope, others: set<string>, root: Path, launch: Scope, w: World, s: Step)
    requires Family(files, globals, others, root, launch, w) && WellFormed(files) && (s.Publish? ==> s.name in others)
    requires forall i :: 0 <= i < |w.acts| ==> ExitLast(files[w.acts[i].path])
    ensures Family(files, globals, others, root, launch, Next(files, globals, w, s))
  {
    hide Next, WellFormed, ExitLast, ChildOf, OneRoot, Parented, LaunchBehind, Launched, Placed;
    NextKeepsOneRoot(files, globals, others, w, s);
    NextPublishesNoRoot(files, globals, others, w, s);
    FamilyKeepsPlaces(files, globals, others, root, launch, w, s);
    FamilyKeepsParents(files, globals, others, root, launch, w, s);
    FamilyKeepsLaunches(files, globals, others, root, launch, w, s);
  }

  lemma FamilyKeepsPlaces(files: Files, globals: Scope, others: set<string>, root: Path, launch: Scope, w: World, s: Step)
    requires Family(files, globals, others, root, launch, w)
    ensures var w' := Next(files, globals, w, s);
      && w'.acts != [] && w'.acts[0].path == root && w'.acts[0].provided == launch && w'.acts[0].stack == []
      && forall i: nat :: i < |w'.acts| ==> Placed(files, w'.acts[i])
  {
    hide Next;
    NextMoves(files, globals, w, s);
    if |Next(files, globals, w, s).acts| > |w.acts| { NewcomerIsChild(files, globals, w, s); }
  }

  lemma FamilyKeepsParents(files: Files, globals: Scope, others: set<string>, root: Path, launch: Scope, w: World, s: Step)
    requires Family(files, globals, others, root, launch, w)
    ensures var w' := Next(files, globals, w, s); forall j: nat :: 0 < j < |w'.acts| ==> Parented(files, globals, w'.acts, j)
  {
    hide Next, ChildOf;
    var w' := Next(files, globals, w, s);
    NextKeepsPlaces(files, globals, w, s);
    NextFrame(files, globals, w, s);
    if |w'.acts| > |w.acts| { NewcomerIsChild(files, globals, w, s); }
    forall j: nat | 0 < j < |w'.acts|
      ensures Parented(files, globals, w'.acts, j)
    {
      if j < |w.acts| { ParentedStays(files, globals, w.acts, w'.acts, j); }
    }
  }

  lemma FamilyKeepsLaunches(files: Files, globals: Scope, others: set<string>, root: Path, launch: Scope, w: World, s: Step)
    requires Family(files, globals, others, root, launch, w)
    requires forall i :: 0 <= i < |w.acts| ==> ExitLast(files[w.acts[i].path])
    ensures var w' := Next(files, globals, w, s);
      forall i: nat, k: nat :: i < |w'.acts| && LaunchBehind(files, w'.acts, i, k) ==> Launched(files, globals, w'.acts, i, k)
  {
    hide Next, ChildOf, ExitLast;
    var w' := Next(files, globals, w, s);
    NextKeepsPlaces(files, globals, w, s);
    NextFrame(files, globals, w, s);
    if |w'.acts| > |w.acts| { NewcomerIsChild(files, globals, w, s); }
    forall i: nat, k: nat | i < |w.acts| && LaunchBehind(files, w'.acts, i, k)
      ensures Launched(files, globals, w'.acts, i, k)
    {
      NewlyBehind(files, globals, w, s, i, k);
      if LaunchBehind(files, w.acts, i, k) { LaunchedStays(files, globals, w.acts, w'.acts, i, k); }
    }
    NewcomersStart(files, globals, w, s);
    assert forall i: nat, k: nat :: |w.acts| <= i < |w'.acts| ==> !LaunchBehind(files, w'.acts, i, k);
  }

  /** No activation publishes its anchor. */
  lemma NextPublishesNoRoot(files: Files, globals: Scope, others: set<string>, w: World, s: Step)
    requires "root" in w.table ==> "root" in others
    requires WellFormed(files) && (s.Publish? ==> s.name in others) && forall i :: 0 <= i < |w.acts| ==> Placed(files, w.acts[i])
    ensures "root" in Next(files, globals, w, s).table ==> "root" in others
  {
    if s.Act? && s.i < |w.acts| {
      var a := w.acts[s.i];
      if a.phase.Requiring? && a.phase.k < |files[a.path]| {
        assert Parsed(files[a.path][a.phase.k].cmd);
        hide LookupLive, Run;
      } else if a.phase.Running? && a.phase.k < |files[a.path]| {
        assert Parsed(files[a.path][a.phase.k].cmd);
        RunBinds(files, a.names, w.table, s.answers, files[a.path][a.phase.k].cmd);
        hide Run, Local;
      }
    }
    hide WellFormed;
  }

  lemma NewcomersStart(files: Files, globals: Scope, w: World, s: Step)
    ensures var w' := Next(files, globals, w, s);
      forall j :: |w.acts| <= j < |w'.acts| ==> w'.acts[j].phase == Starting
  {
    NextMoves(files, globals, w, s);
    hide Next;
  }

  // ---- No chain of launches comes back -------------------------------------------------------------------

  /** In a run that has worked, a chain of launches that comes back to its first script goes on for ever:
      every activation of one of its scripts has a later one. */
  lemma {:induction false} ChainGoesOn(files: Files, globals: Scope, others: set<string>, root: Path, launch: Scope, w: World, c: seq<Path>, i: nat, m: nat, n: nat)
    requires Family(files, globals, others, root, launch, w) && Worked(w) && Chain(files, c) && |c| >= 2 && c[0] == c[|c| - 1]
    requires i < |w.acts| && m < |c| - 1 && w.acts[i].path == c[m]
    ensures i + n < |w.acts|
    decreases n
  {
    if n > 0 {
      assert Launches(files, c[m], c[m + 1]);
      var k: nat :| LaunchedAt(files, c[m], k, c[m + 1]);
      assert LaunchBehind(files, w.acts, i, k) by { assert Done(w.acts[i]); }
      assert Launched(files, globals, w.acts, i, k);
      var j: nat :| i < j < |w.acts| && ChildOf(files, globals, w.acts[i], k, w.acts[j]);
      hide Family;
      ChainGoesOn(files, globals, others, root, launch, w, c, j, if m + 1 == |c| - 1 then 0 else m + 1, n - 1);
    }
  }

  /** The scripts that an activation was launched through, itself last. */
  ghost function Ancestry(a: Activation): seq<Path> { a.stack + [a.path] }

  lemma {:induction false} LineIsChain(files: Files, globals: Scope, others: set<string>, root: Path, launch: Scope, w: World, i: nat)
    requires Family(files, globals, others, root, launch, w) && i < |w.acts|
    ensures Chain(files, Ancestry(w.acts[i])) && Ancestry(w.acts[i])[0] == root && InTree(files, root, w.acts[i].path)
    ensures forall p :: p in w.acts[i].stack ==> exists j: nat :: j < i && w.acts[j].path == p
  {
    if i == 0 {
      assert Ancestry(w.acts[0]) == [root];
    } else {
      assert Parented(files, globals, w.acts, i);
      var j: nat, k: nat :| j < i && ChildOf(files, globals, w.acts[j], k, w.acts[i]);
      LineIsChain(files, globals, others, root, launch, w, j);
      var c, c' := Ancestry(w.acts[j]), Ancestry(w.acts[i]);
      assert c' == c + [w.acts[i].path] && w.acts[i].stack == c;
      assert Launches(files, w.acts[j].path, w.acts[i].path);
      forall m | 0 <= m < |c'| - 1
        ensures Launches(files, c'[m], c'[m + 1])
      {
        if m < |c| - 1 { assert Launches(files, c[m], c[m + 1]); }
      }
    }
    var c := Ancestry(w.acts[i]);
    assert c[|c| - 1] == w.acts[i].path;
  }

  /** No script in a run that has worked was launched through itself. */
  lemma NeverThroughItself(files: Files, globals: Scope, others: set<string>, root: Path, launch: Scope, w: World, i: nat)
    requires Family(files, globals, others, root, launch, w) && Worked(w) && i < |w.acts|
    ensures w.acts[i].path !in w.acts[i].stack
  {
    var a := w.acts[i];
    if a.path in a.stack {
      var t: nat :| t < |a.stack| && a.stack[t] == a.path;
      LineIsChain(files, globals, others, root, launch, w, i);
      var l := Ancestry(a);
      var c := l[t..];
      forall m | 0 <= m < |c| - 1
        ensures Launches(files, c[m], c[m + 1])
      {
        assert Launches(files, l[t + m], l[t + m + 1]);
      }
      ChainGoesOn(files, globals, others, root, launch, w, c, i, 0, |w.acts|);
    }
  }

  // ---- The root's names, once the root has come to its end -----------------------------------------------

  /** What the preflight has for the root at any line is among the globals, as the global it is. */
  ghost predicate RootAgrees(files: Files, globals: Scope, r: Activation)
    requires r.path in files
  {
    && (forall k: nat, n :: k <= |files[r.path]| && n in At(files, globals, r, k).local ==>
          n in globals && At(files, globals, r, k).local[n] == globals[n])
    && (forall k: nat, n :: k <= |files[r.path]| && n in Before(files, globals, r, k).local ==> n in globals)
  }

  ghost predicate NoneHandedAcquired(files: Files, r: Activation)
    requires r.path in files
  {
    forall j :: 0 <= j < |files[r.path]| && Acquires(files[r.path][j].cmd) ==> files[r.path][j].cmd.name !in r.provided
  }

  lemma LaunchedIsGlobal(files: Files, globals: Scope, r: Activation, n: string)
    requires r.path in files && NoneHandedAcquired(files, r) && globals == RootGlobals(files, r.path, r.provided) && n in r.provided
    ensures n in globals && globals[n] == r.provided[n]
  {
    GlobalLaunched(r.provided, files[r.path], |files[r.path]|, n);
  }

  lemma {:induction false} AtAgrees(files: Files, globals: Scope, r: Activation, k: nat)
    requires IsRoot(files, globals, r) && NoneHandedAcquired(files, r) && k <= |files[r.path]|
    ensures forall n :: n in At(files, globals, r, k).local ==> n in globals && At(files, globals, r, k).local[n] == globals[n]
  {
    if k == 0 {
      RequiredLocal(files, globals, r, |files[r.path]|);
      forall n | n in At(files, globals, r, 0).local
        ensures n in globals && At(files, globals, r, 0).local[n] == globals[n]
      {
        LaunchedIsGlobal(files, globals, r, n);
      }
    } else {
      AtAgrees(files, globals, r, k - 1);
      OwnStep(files, globals, r, k - 1);
      LineKeys(At(files, globals, r, k - 1), Against(globals, true), r.path, files[r.path][k - 1]);
      if Acquires(files[r.path][k - 1].cmd) { RootAcquires(files, globals, r, k - 1); }
      hide CheckLine, IsRoot;
    }
  }

  lemma RootDoneAgrees(files: Files, globals: Scope, r: Activation)
    requires IsRoot(files, globals, r) && NoneHandedAcquired(files, r)
    ensures RootAgrees(files, globals, r)
  {
    forall k: nat | k <= |files[r.path]|
      ensures forall n :: n in At(files, globals, r, k).local ==> n in globals && At(files, globals, r, k).local[n] == globals[n]
      ensures forall n :: n in Before(files, globals, r, k).local ==> n in globals
    {
      AtAgrees(files, globals, r, k);
      RequiredLocal(files, globals, r, k);
      forall n | n in r.provided ensures n in globals { LaunchedIsGlobal(files, globals, r, n); }
    }
  }

  // ---- Everybody is fine all the way -----------------------------------------------------------------------

  ghost predicate AllHealthy(w: World) {
    forall i :: 0 <= i < |w.acts| ==> Healthy(w.acts[i])
  }

  lemma HealthKept(files: Files, globals: Scope, w: World, s: Step)
    ensures Moving(s) && s.i < |w.acts| && !Healthy(w.acts[s.i]) ==> !Healthy(Next(files, globals, w, s).acts[s.i])
  {
    hide Execute, Require1, HasMalformed;
  }

  /** Nobody recovers. */
  lemma HealthyBefore(files: Files, globals: Scope, w: World, s: Step)
    requires AllHealthy(Next(files, globals, w, s))
    ensures AllHealthy(w)
  {
    NextMoves(files, globals, w, s);
    HealthKept(files, globals, w, s);
    var w' := Next(files, globals, w, s);
    hide Next;
    forall i | 0 <= i < |w.acts|
      ensures Healthy(w.acts[i])
    {
      assert Healthy(w'.acts[i]);
    }
  }

  ghost predicate Setting(files: Files, globals: Scope, others: set<string>, root: Path, launch: Scope) {
    root in files && Regular(files, root, launch) && OthersFit(files, root, launch, others) && WellFormed(files)
    && globals == RootGlobals(files, root, launch)
  }

  /** The condition, for an activation of the tree. */
  lemma RegularSuits(files: Files, globals: Scope, others: set<string>, root: Path, launch: Scope, w: World, i: nat)
    requires Setting(files, globals, others, root, launch)
    requires Family(files, globals, others, root, launch, w) && i < |w.acts|
    ensures RegularFile(files, root, globals, w.acts[i].path)
    ensures w.acts[i].path !in w.acts[i].stack && KeepsHanded(files[w.acts[i].path], w.acts[i].provided.Keys) ==>
      Suited(files, globals, others, w.acts[i])
  {
    LineIsChain(files, globals, others, root, launch, w, i);
    assert Placed(files, w.acts[i]);
    assert !w.acts[i].isRoot ==> root in w.acts[i].stack by {
      assert Ancestry(w.acts[i])[0] == root;
      if i > 0 { assert Parented(files, globals, w.acts, i); }
    }
    hide RegularFile, ExitLast, OnceOnly, Handing;
    var a := w.acts[i];
    assert RegularFile(files, root, globals, a.path);
    RegularParts(files, globals, others, root, a);
  }

  lemma RegularParts(files: Files, globals: Scope, others: set<string>, root: Path, a: Activation)
    requires a.path in files && RegularFile(files, root, globals, a.path) && WellFormed(files)
    requires !a.isRoot ==> root in a.stack
    requires forall n :: n in others ==>
      (if a.path == root then a.isRoot ==> n in a.provided else n in globals) || TakenFirst(files[a.path], n)
    requires a.isRoot ==> a.path == root
    ensures a.path !in a.stack && KeepsHanded(files[a.path], a.provided.Keys) ==> Suited(files, globals, others, a)
  {
    hide ExitLast, OnceOnly, Handing, RootNames;
  }

  /** A distinct ancestry: no script in it twice. */
  ghost predicate Simple(a: Activation) {
    forall i, j :: 0 <= i < j < |Ancestry(a)| ==> Ancestry(a)[i] != Ancestry(a)[j]
  }

  /** A launched script of a simple ancestry is fine, and is handed nothing that it spawns over. */
  ghost predicate FineChild(files: Files, globals: Scope, a: Activation) {
    Simple(a) ==> Fine(files, globals, a) && a.path in files && KeepsHanded(files[a.path], a.provided.Keys)
  }

  lemma SimpleIsNew(a: Activation)
    requires Simple(a)
    ensures a.path !in a.stack
  {
    assert Ancestry(a)[|a.stack|] == a.path;
    assert forall i :: 0 <= i < |a.stack| ==> Ancestry(a)[i] == a.stack[i];
  }

  lemma SimpleParent(files: Files, globals: Scope, a: Activation, k: nat, b: Activation)
    requires ChildOf(files, globals, a, k, b) && Simple(b)
    ensures Simple(a)
  {
    assert forall i :: 0 <= i < |Ancestry(a)| ==> Ancestry(a)[i] == Ancestry(b)[i];
  }

  /** What is handed to a script has the root's type wherever it has a name of the root. */
  lemma {:induction false} HandedTypes(local: Scope, g: Scope, globals: Scope, bindings: seq<Binding>)
    requires RootTypes(local, globals) && (forall n :: n in g ==> n in globals && g[n] == globals[n])
    requires forall b :: b in bindings && b.childKey in globals ==> b.parentKey == b.childKey
    ensures RootTypes(Handed(local, g, bindings), globals)
    ensures Handed(local, g, bindings).Keys <= set b | b in bindings :: b.childKey
  {
    if bindings != [] {
      var rest, b := bindings[..|bindings| - 1], bindings[|bindings| - 1];
      assert bindings == rest + [b];
      HandedTypes(local, g, globals, rest);
    }
  }

  /** A script that has just been launched is fine. */
  lemma NewcomerIsFine(files: Files, globals: Scope, others: set<string>, root: Path, r: Activation, w: World, i: nat, o: Answers, k: nat)
    requires i < |w.acts| && Fine(files, globals, w.acts[i]) && Suited(files, globals, others, w.acts[i]) && TableFits(w.table, globals, others, w.acts[i])
    requires w.acts[i].phase == Running(k) && k < |files[w.acts[i].path]|
    requires |Execute(files, globals, w, i, o, k).acts| > |w.acts|
    requires RegularFile(files, root, globals, w.acts[i].path)
    requires w.acts[i].isRoot ==> RootTypes(At(files, globals, w.acts[i], k).local, globals)
    ensures FineChild(files, globals, Execute(files, globals, w, i, o, k).acts[|w.acts|])
  {
    var a := w.acts[i];
    var cmd, c, g := files[a.path][k].cmd, At(files, globals, a, k), Against(globals, a.isRoot);
    var b := Execute(files, globals, w, i, o, k).acts[|w.acts|];
    RunBinds(files, a.names, w.table, o, cmd);
    StartsAFile(files, a.names, w.table, o, cmd);
    assert cmd.Launch? && RunBindings(a.names, w.table, o, cmd.bindings).Starts?;
    HealthySees(files, globals, others, a, w.table, k);
    assert Parsed(cmd);
    BoundIsClean(c, g, a.path, files[a.path][k].number, cmd.bindings, cmd, a.names, w.table, o);
    ChildKeys(a.names, w.table, o, c.local, g, cmd.bindings);
    HandedTypes(c.local, g, globals, cmd.bindings);
    hide Run, Own, RunBindings, Handed, RunLaunch, Seen, Suited, TableFits;
    assert b.names.Keys == b.provided.Keys + {"root"} && b.phase == Starting && !b.isRoot;
    NewIsFine(files, globals, b);
  }

  lemma NewIsFine(files: Files, globals: Scope, b: Activation)
    requires b.path in files && b.phase == Starting && !b.isRoot && RootTypes(b.provided, globals)
    requires b.names.Keys == b.provided.Keys + {"root"}
    ensures Fine(files, globals, b)
  {}

  // ---- Whole runs ------------------------------------------------------------------------------------------

  lemma FamilyGoesOn(files: Files, globals: Scope, others: set<string>, root: Path, launch: Scope, w: World, s: Step)
    requires Setting(files, globals, others, root, launch) && Family(files, globals, others, root, launch, w)
    requires s.Publish? ==> s.name in others
    ensures Family(files, globals, others, root, launch, Next(files, globals, w, s))
  {
    forall i | 0 <= i < |w.acts|
      ensures ExitLast(files[w.acts[i].path])
    {
      RegularSuits(files, globals, others, root, launch, w, i);
    }
    NextKeepsFamily(files, globals, others, root, launch, w, s);
  }

  lemma RootSuits(files: Files, globals: Scope, others: set<string>, root: Path, launch: Scope, w: World)
    requires Setting(files, globals, others, root, launch) && Family(files, globals, others, root, launch, w)
    ensures Suited(files, globals, others, w.acts[0]) && TableFits(w.table, globals, others, w.acts[0])
  {
    RegularSuits(files, globals, others, root, launch, w, 0);
    hide RegularFile, Suited, WellFormed;
  }

  lemma {:induction false} RootStaysFine(files: Files, globals: Scope, others: set<string>, root: Path, names: Names, before: Names, steps: seq<Step>)
    requires Others(before, steps) <= others
    requires Setting(files, globals, others, root, LaunchScope(names)) && AllHealthy(Reach(files, globals, Begin(root, names, before), steps))
    ensures var w := Reach(files, globals, Begin(root, names, before), steps);
      Family(files, globals, others, root, LaunchScope(names), w) && Fine(files, globals, w.acts[0])
    decreases |steps|
  {
    if steps == [] {
      BeginsFine(files, globals, others, root, names, before);
    } else {
      var w, s := Reach(files, globals, Begin(root, names, before), steps[..|steps| - 1]), steps[|steps| - 1];
      HealthyBefore(files, globals, w, s);
      RootStaysFine(files, globals, others, root, names, before, steps[..|steps| - 1]);
      FamilyGoesOn(files, globals, others, root, LaunchScope(names), w, s);
      RootSuits(files, globals, others, root, LaunchScope(names), w);
      NextFrame(files, globals, w, s);
      if Moving(s) && s.i == 0 {
        MovedFine(files, globals, others, w, s);
      }
      hide Next, Fine, Suited, TableFits, Setting, AllHealthy;
    }
  }

  lemma BeginsFine(files: Files, globals: Scope, others: set<string>, root: Path, names: Names, before: Names)
    requires root in files && before.Keys <= others
    ensures Family(files, globals, others, root, LaunchScope(names), Begin(root, names, before)) && Fine(files, globals, Begin(root, names, before).acts[0])
  {}

  lemma TableFitsAll(files: Files, globals: Scope, others: set<string>, root: Path, launch: Scope, w: World, i: nat)
    requires Family(files, globals, others, root, launch, w) && Fine(files, globals, w.acts[0]) && Healthy(w.acts[0]) && i < |w.acts|
    requires RootAgrees(files, globals, w.acts[0])
    ensures TableFits(w.table, globals, others, w.acts[i])
  {
    var r := w.acts[0];
    assert forall n :: n in Reached(files, globals, r).local ==> n in globals;
    hide Own, RootAgrees;
  }

  /** The root's activation, wherever it stands. */
  lemma AgreesThroughout(files: Files, globals: Scope, r: Activation, r': Activation)
    requires r.path in files && RootAgrees(files, globals, r) && r' == r.(names := r'.names, phase := r'.phase)
    ensures RootAgrees(files, globals, r')
  {
    SameProgress(files, globals, r, r');
    hide Own;
  }

  ghost predicate ChildrenFine(files: Files, globals: Scope, w: World) {
    forall j :: 0 < j < |w.acts| ==> FineChild(files, globals, w.acts[j])
  }

  /** Any activation of a simple ancestry is fine and suited. */
  lemma SimpleSuits(files: Files, globals: Scope, others: set<string>, root: Path, launch: Scope, w: World, i: nat)
    requires Setting(files, globals, others, root, launch) && Family(files, globals, others, root, launch, w) && Fine(files, globals, w.acts[0])
    requires ChildrenFine(files, globals, w) && i < |w.acts| && Simple(w.acts[i])
    ensures Fine(files, globals, w.acts[i]) && Suited(files, globals, others, w.acts[i]) && RegularFile(files, root, globals, w.acts[i].path)
  {
    RegularSuits(files, globals, others, root, launch, w, i);
    if i == 0 { RootSuits(files, globals, others, root, launch, w); } else { SimpleIsNew(w.acts[i]); }
    hide Suited, RegularFile, Fine, Setting, Simple, Family;
    assert i > 0 ==> FineChild(files, globals, w.acts[i]);
  }

  lemma ChildrenStayFine(files: Files, globals: Scope, others: set<string>, root: Path, launch: Scope, w: World, s: Step)
    requires Setting(files, globals, others, root, launch) && Family(files, globals, others, root, launch, w) && Fine(files, globals, w.acts[0])
    requires Healthy(w.acts[0]) && RootAgrees(files, globals, w.acts[0]) && ChildrenFine(files, globals, w)
    ensures ChildrenFine(files, globals, Next(files, globals, w, s))
  {
    var w' := Next(files, globals, w, s);
    NextFrame(files, globals, w, s);
    NextKeepsPlaces(files, globals, w, s);
    forall j | 0 < j < |w'.acts|
      ensures FineChild(files, globals, w'.acts[j])
    {
      if j == |w.acts| {
        NewcomerStaysFine(files, globals, others, root, launch, w, s);
      } else if Moving(s) && s.i == j {
        MoverStaysFine(files, globals, others, root, launch, w, s);
      } else {
        assert FineChild(files, globals, w.acts[j]);
      }
    }
    hide *;
  }

  lemma MoverStaysFine(files: Files, globals: Scope, others: set<string>, root: Path, launch: Scope, w: World, s: Step)
    requires Setting(files, globals, others, root, launch) && Family(files, globals, others, root, launch, w) && Fine(files, globals, w.acts[0])
    requires Healthy(w.acts[0]) && RootAgrees(files, globals, w.acts[0]) && ChildrenFine(files, globals, w)
    requires Moving(s) && 0 < s.i < |w.acts|
    ensures s.i < |Next(files, globals, w, s).acts| && FineChild(files, globals, Next(files, globals, w, s).acts[s.i])
  {
    NextKeepsPlaces(files, globals, w, s);
    var a, a' := w.acts[s.i], Next(files, globals, w, s).acts[s.i];
    assert Ancestry(a') == Ancestry(a);
    if Simple(a') {
      SimpleSuits(files, globals, others, root, launch, w, s.i);
      TableFitsAll(files, globals, others, root, launch, w, s.i);
      MovedFine(files, globals, others, w, s);
      assert FineChild(files, globals, a);
    }
    hide Next, Fine, Suited, TableFits, Family, Setting, RootAgrees;
  }

  lemma NewcomerStaysFine(files: Files, globals: Scope, others: set<string>, root: Path, launch: Scope, w: World, s: Step)
    requires Setting(files, globals, others, root, launch) && Family(files, globals, others, root, launch, w) && Fine(files, globals, w.acts[0])
    requires Healthy(w.acts[0]) && RootAgrees(files, globals, w.acts[0]) && ChildrenFine(files, globals, w)
    requires |Next(files, globals, w, s).acts| > |w.acts|
    ensures FineChild(files, globals, Next(files, globals, w, s).acts[|w.acts|])
  {
    NewcomerIsChild(files, globals, w, s);
    var i, k: nat := s.i, w.acts[s.i].phase.k;
    var w' := Next(files, globals, w, s);
    if Simple(w'.acts[|w.acts|]) {
      NextKeepsPlaces(files, globals, w, s);
      SimpleParent(files, globals, w'.acts[i], k, w'.acts[|w.acts|]);
      assert Ancestry(w'.acts[i]) == Ancestry(w.acts[i]);
      SimpleSuits(files, globals, others, root, launch, w, i);
      TableFitsAll(files, globals, others, root, launch, w, i);
      assert w.acts[i].isRoot ==> RootTypes(At(files, globals, w.acts[i], k).local, globals) by {
        assert w.acts[i].isRoot ==> i == 0;
      }
      hide Next, Execute, Own, Suited, Fine, Family, Setting, TableFits, RegularFile;
      NewcomerIsFine(files, globals, others, root, w.acts[0], w, i, s.answers, k);
    }
  }

  lemma {:induction false} AllStayFine(files: Files, globals: Scope, others: set<string>, root: Path, names: Names, before: Names, steps: seq<Step>)
    requires Others(before, steps) <= others
    requires Setting(files, globals, others, root, LaunchScope(names)) && AllHealthy(Reach(files, globals, Begin(root, names, before), steps))
    requires RootAgrees(files, globals, Begin(root, names, before).acts[0])
    ensures var w := Reach(files, globals, Begin(root, names, before), steps);
      Family(files, globals, others, root, LaunchScope(names), w) && Fine(files, globals, w.acts[0]) && ChildrenFine(files, globals, w)
      && RootAgrees(files, globals, w.acts[0])
    decreases |steps|
  {
    RootStaysFine(files, globals, others, root, names, before, steps);
    if steps != [] {
      var w, s := Reach(files, globals, Begin(root, names, before), steps[..|steps| - 1]), steps[|steps| - 1];
      HealthyBefore(files, globals, w, s);
      AllStayFine(files, globals, others, root, names, before, steps[..|steps| - 1]);
      ChildrenStayFine(files, globals, others, root, LaunchScope(names), w, s);
      NextKeepsPlaces(files, globals, w, s);
      assert Healthy(w.acts[0]) && w.acts[0].path in files;
      hide Next, Fine, Setting, ChildrenFine, RootAgrees;
      AgreesThroughout(files, globals, w.acts[0], Next(files, globals, w, s).acts[0]);
    }
  }

  // ---- The result ------------------------------------------------------------------------------------------

  lemma {:induction false} AllSimple(files: Files, globals: Scope, others: set<string>, root: Path, launch: Scope, w: World, i: nat)
    requires Family(files, globals, others, root, launch, w) && Worked(w) && i < |w.acts|
    ensures Simple(w.acts[i])
  {
    NeverThroughItself(files, globals, others, root, launch, w, i);
    if i > 0 {
      assert Parented(files, globals, w.acts, i);
      var j: nat, k: nat :| j < i && ChildOf(files, globals, w.acts[j], k, w.acts[i]);
      hide Family, Worked;
      AllSimple(files, globals, others, root, launch, w, j);
      NewIsSimple(w.acts[j], w.acts[i]);
    }
  }

  lemma NewIsSimple(a: Activation, b: Activation)
    requires Simple(a) && b.stack == Ancestry(a) && b.path !in b.stack
    ensures Simple(b)
  {
    assert forall i :: 0 <= i < |Ancestry(a)| ==> Ancestry(b)[i] == Ancestry(a)[i];
  }

  /** At the end, nothing is to be reported of any script's own lines. */
  ghost predicate AllOwnClean(files: Files, globals: Scope, w: World) {
    forall i :: 0 <= i < |w.acts| ==> OwnClean(files, globals, w.acts[i]) && w.acts[i].path !in w.acts[i].stack
  }

  lemma {:induction false} EverySubtreeClean(files: Files, globals: Scope, others: set<string>, root: Path, launch: Scope, w: World, i: nat)
    requires Family(files, globals, others, root, launch, w) && Worked(w) && AllOwnClean(files, globals, w) && i < |w.acts|
    ensures Clean(files, globals, w.acts[i])
    decreases |w.acts| - i, 1, 0
  {
    assert OwnClean(files, globals, w.acts[i]);
    PrefixClean(files, globals, others, root, launch, w, i, |files[w.acts[i].path]|);
  }

  lemma {:induction false} PrefixClean(files: Files, globals: Scope, others: set<string>, root: Path, launch: Scope, w: World, i: nat, n: nat)
    requires Family(files, globals, others, root, launch, w) && Worked(w) && AllOwnClean(files, globals, w) && i < |w.acts|
    requires w.acts[i].path in files && w.acts[i].path !in w.acts[i].stack && n <= |files[w.acts[i].path]|
    ensures var a := w.acts[i];
      PassTwo(files, a.path, a.provided, globals, a.stack, a.isRoot, n).problems == []
    decreases |w.acts| - i, 0, n
  {
    var a := w.acts[i];
    assert OwnClean(files, globals, a);
    OwnPrefix(files, globals, a, n, |files[a.path]|);
    if n > 0 {
      PrefixClean(files, globals, others, root, launch, w, i, n - 1);
      var before, line := PassTwo(files, a.path, a.provided, globals, a.stack, a.isRoot, n - 1), files[a.path][n - 1];
      OwnIsPassTwo(files, a.path, a.provided, globals, a.stack, a.isRoot, n - 1);
      LinesAlike(before, At(files, globals, a, n - 1), Against(globals, a.isRoot), a.path, line);
      if line.cmd.Launch? {
        assert Done(a) && LaunchBehind(files, w.acts, i, n - 1);
        assert Launched(files, globals, w.acts, i, n - 1);
        var j: nat :| i < j < |w.acts| && ChildOf(files, globals, a, n - 1, w.acts[j]);
        EverySubtreeClean(files, globals, others, root, launch, w, j);
      }
      hide CheckLine, One, Own, Family, Worked, AllOwnClean;
    }
  }

  /** ACCEPTED IF IT CAN WORK. Under the conditions on the files and on the names of others, one run in
      which every script comes to its end is proof that the preflight reports nothing: it rejects nothing that
      would have worked. */
  lemma WorkedIsAccepted(files: Files, root: Path, names: Names, before: Names, steps: seq<Step>)
    requires root in files && WellFormed(files) && Regular(files, root, LaunchScope(names))
    requires OthersFit(files, root, LaunchScope(names), Others(before, steps))
    requires Worked(Reach(files, RootGlobals(files, root, LaunchScope(names)), Begin(root, names, before), steps))
    ensures Tree(files, root, LaunchScope(names)).problems == []
  {
    var launch, others := LaunchScope(names), Others(before, steps);
    var globals := RootGlobals(files, root, launch);
    var w := Reach(files, globals, Begin(root, names, before), steps);
    assert AllHealthy(w);
    RootStaysFine(files, globals, others, root, names, before, steps);
    RootEnds(files, globals, others, root, names, before, steps);
    AllStayFine(files, globals, others, root, names, before, steps);
    AllEndClean(files, globals, others, root, launch, w);
    EverySubtreeClean(files, globals, others, root, launch, w, 0);
    assert w.acts[0].isRoot;
    hide Regular, Reach, One;
  }

  lemma RootEnds(files: Files, globals: Scope, others: set<string>, root: Path, names: Names, before: Names, steps: seq<Step>)
    requires Setting(files, globals, others, root, LaunchScope(names))
    requires var w := Reach(files, globals, Begin(root, names, before), steps);
      Family(files, globals, others, root, LaunchScope(names), w) && Fine(files, globals, w.acts[0]) && Done(w.acts[0])
    ensures RootAgrees(files, globals, Begin(root, names, before).acts[0])
  {
    hide Setting;
    var w := Reach(files, globals, Begin(root, names, before), steps);
    var r, r0 := w.acts[0], Begin(root, names, before).acts[0];
    assert r.isRoot && Had(files, r) && At(files, globals, r, |files[root]|).problems == [];
    SameProgress(files, globals, r, r0);
    hide Own, Family, Reach;
    assert globals == RootGlobals(files, root, LaunchScope(names)) by { GlobalsOf(files, globals, others, root, LaunchScope(names)); }
    assert NoneHandedAcquired(files, r0);
    RootDoneAgrees(files, globals, r0);
  }

  lemma GlobalsOf(files: Files, globals: Scope, others: set<string>, root: Path, launch: Scope)
    requires Setting(files, globals, others, root, launch)
    ensures root in files && globals == RootGlobals(files, root, launch)
  {}

  lemma AllEndClean(files: Files, globals: Scope, others: set<string>, root: Path, launch: Scope, w: World)
    requires Family(files, globals, others, root, launch, w) && Worked(w) && Fine(files, globals, w.acts[0]) && ChildrenFine(files, globals, w)
    ensures AllOwnClean(files, globals, w)
  {
    forall i | 0 <= i < |w.acts|
      ensures OwnClean(files, globals, w.acts[i]) && w.acts[i].path !in w.acts[i].stack
    {
      AllSimple(files, globals, others, root, launch, w, i);
      SimpleIsNew(w.acts[i]);
      assert i > 0 ==> FineChild(files, globals, w.acts[i]);
      assert Done(w.acts[i]) && Fine(files, globals, w.acts[i]);
      hide Own, Family;
    }
  }
}
