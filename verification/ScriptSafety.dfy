/** What a clean preflight promises about every run of the tree: every name an executed line refers to is
    one the script has or one the root introduces, and every type the preflight knew is the type the
    program meets, unless somebody else has another one in the table of globals
    (core/CommandExecutor.h:767-1105 against 1314-1434, 1464-1700, 2190-2420). */
module ScriptSafety {
  import opened Preflight
  import opened ScriptRuns

  // ---- What an empty report says, line by line -------------------------------------------------------

  ghost predicate Clean(files: Files, globals: Scope, a: Activation) {
    One(files, a.path, a.provided, globals, a.stack, a.isRoot).problems == []
  }

  lemma IntroduceClean(c: Progress, globals: Scope, path: Path, line: nat, n: string, pn: Name, quiet: bool, clash: bool)
    requires Introduce(c, globals, path, line, n, pn, quiet, clash).problems == []
    ensures var c' := Introduce(c, globals, path, line, n, pn, quiet, clash);
      c.problems == [] && n !in c.introduced && c'.local == c.local[n := pn] && c'.introduced == c.introduced + {n}
  {
    IntroduceAppends(c, globals, path, line, n, pn, quiet, clash);
  }

  lemma RequireClean(c: Progress, globals: Scope, path: Path, line: nat, n: string)
    requires Require(c, globals, path, line, n).problems == []
    ensures var have, c' := Visible(c.local, globals, n), Require(c, globals, path, line, n);
      && c.problems == [] && have.Some? && n !in c.introduced
      && c'.local == c.local[n := have.value] && c'.introduced == c.introduced + {n}
  {
    var have := Visible(c.local, globals, n);
    var c1 := Complain(c, have.None?, RequiresNothing(path, line, n));
    IntroduceClean(c1, globals, path, line, n, if have.Some? then have.value else Untyped, false, false);
  }

  lemma {:induction false} BindingsClean(c: Progress, globals: Scope, path: Path, line: nat, bindings: seq<Binding>)
    requires CheckBindings(c, globals, path, line, bindings).problems == []
    ensures c.problems == [] && forall b :: b in bindings ==> Visible(c.local, globals, b.parentKey).Some?
  {
    if bindings != [] {
      BindingsClean(c, globals, path, line, bindings[..|bindings| - 1]);
      assert bindings == bindings[..|bindings| - 1] + [bindings[|bindings| - 1]];
    }
  }

  ghost predicate Acquires(cmd: Command) {
    cmd.Acquire? || cmd.ChildAcquire?
  }

  lemma AcquireClean(c: Progress, globals: Scope, path: Path, line: nat, a: Command)
    requires a.Acquire? && CheckAcquire(c, globals, path, line, a).problems == []
    ensures var c', pn := CheckAcquire(c, globals, path, line, a), Name(a.mod, a.tag, true);
      && c.problems == [] && a.name !in c.introduced
      && c'.local == c.local[a.name := pn] && c'.introduced == c.introduced + {a.name}
    ensures var have := Visible(c.local, globals, a.name);
      a.verb != Spawn && have.Some? && have.value.typed ==> have.value == Name(a.mod, a.tag, true)
  {
    var have := Visible(c.local, globals, a.name);
    var pn := Name(a.mod, a.tag, true);
    var mismatch := have.Some? && have.value.typed && Differ(have.value, pn);
    var c1 := match a.verb
      case Spawn => Complain(c, have.Some?, Clobbers(path, line, a.name))
      case Attach => Complain(Complain(c, have.None?, NothingToAttach(path, line, a.name)), mismatch, OtherType(path, line, a.name))
      case Ensure => Complain(c, mismatch, OtherType(path, line, a.name));
    IntroduceClean(c1, globals, path, line, a.name, pn, a.verb != Spawn, a.verb == Spawn);
    hide Introduce;
  }

  lemma ChildAcquireClean(c: Progress, globals: Scope, path: Path, line: nat, a: Command)
    requires a.ChildAcquire? && CheckChildAcquire(c, globals, path, line, a).problems == []
    ensures var c' := CheckChildAcquire(c, globals, path, line, a);
      && c.problems == [] && a.name !in c.introduced && Visible(c.local, globals, a.parent).Some?
      && c'.local == c.local[a.name := Name(a.mod, a.tag, true)] && c'.introduced == c.introduced + {a.name}
  {
    var c1 := Receiver(c, globals, path, line, a.parent);
    var have := Visible(c1.local, globals, a.name);
    var c2 := match a.verb
      case Spawn => Complain(c1, have.Some?, Clobbers(path, line, a.name))
      case Attach => Complain(c1, have.None?, NothingToAttach(path, line, a.name))
      case Ensure => c1;
    IntroduceClean(c2, globals, path, line, a.name, Name(a.mod, a.tag, true), a.verb != Spawn, a.verb == Spawn);
    hide Introduce;
  }

  /** A line that adds nothing to an empty report: it parsed, its names are visible, and it introduces a
      new name if it is an acquisition. */
  lemma LineClean(c: Progress, globals: Scope, path: Path, line: Line)
    requires CheckLine(c, globals, path, line).problems == []
    ensures c.problems == [] && !line.cmd.Malformed?
    ensures forall n :: n in Needs(line.cmd) ==> Visible(c.local, globals, n).Some?
    ensures var c' := CheckLine(c, globals, path, line);
      if Acquires(line.cmd) then
        && line.cmd.name !in c.introduced
        && c'.local == c.local[line.cmd.name := Name(line.cmd.mod, line.cmd.tag, true)]
        && c'.introduced == c.introduced + {line.cmd.name}
      else c'.local == c.local && c'.introduced == c.introduced
  {
    hide CheckAcquire, CheckChildAcquire, CheckBindings, Visible;
    match line.cmd {
      case Acquire(_, _, _, _) => AcquireClean(c, globals, path, line.number, line.cmd);
      case ChildAcquire(_, _, _, _, _) => ChildAcquireClean(c, globals, path, line.number, line.cmd);
      case Launch(_, bindings, _) =>
        BindingsClean(c, globals, path, line.number, bindings);
        BindingsAppend(c, globals, path, line.number, bindings);
      case _ =>
    }
  }

  ghost function At(files: Files, globals: Scope, a: Activation, k: nat): Progress
    requires a.path in files && k <= |files[a.path]|
  {
    Own(files, a.path, a.provided, globals, a.isRoot, k)
  }

  ghost function Before(files: Files, globals: Scope, a: Activation, k: nat): Progress
    requires a.path in files && k <= |files[a.path]|
  {
    PassOne(Progress(a.provided, {}, [], []), Against(globals, a.isRoot), a.path, files[a.path], k)
  }

  /** Nothing is ever taken off a report. */
  lemma {:induction false} CleanPrefix(files: Files, globals: Scope, a: Activation, k: nat, n: nat)
    requires a.path in files && a.path !in a.stack && k <= n <= |files[a.path]|
    requires PassTwo(files, a.path, a.provided, globals, a.stack, a.isRoot, n).problems == []
    ensures PassTwo(files, a.path, a.provided, globals, a.stack, a.isRoot, k).problems == []
    decreases n
  {
    if k < n {
      LineAppends(PassTwo(files, a.path, a.provided, globals, a.stack, a.isRoot, n - 1), Against(globals, a.isRoot), a.path, files[a.path][n - 1]);
      CleanPrefix(files, globals, a, k, n - 1);
    }
  }

  lemma {:induction false} CleanBefore(files: Files, globals: Scope, a: Activation, k: nat, n: nat)
    requires a.path in files && k <= n <= |files[a.path]|
    requires Before(files, globals, a, n).problems == []
    ensures Before(files, globals, a, k).problems == []
    decreases n
  {
    if k < n {
      var line := files[a.path][n - 1];
      if line.cmd.Requires? {
        RequireAppends(Before(files, globals, a, n - 1), Against(globals, a.isRoot), a.path, line.number, line.cmd.name);
      }
      CleanBefore(files, globals, a, k, n - 1);
    }
  }

  lemma CleanIsPlaced(files: Files, globals: Scope, a: Activation)
    requires Clean(files, globals, a)
    ensures a.path in files && a.path !in a.stack
    ensures forall k: nat :: k <= |files[a.path]| ==> At(files, globals, a, k).problems == []
    ensures forall k: nat :: k <= |files[a.path]| ==> Before(files, globals, a, k).problems == []
  {
    var n := |files[a.path]|;
    forall k: nat | k <= n
      ensures At(files, globals, a, k).problems == [] && Before(files, globals, a, k).problems == []
    {
      CleanPrefix(files, globals, a, k, n);
      CleanPrefix(files, globals, a, 0, n);
      OwnIsPassTwo(files, a.path, a.provided, globals, a.stack, a.isRoot, k);
      CleanBefore(files, globals, a, k, n);
    }
  }

  /** Nothing is reported of the script's own lines, whatever it launches. */
  ghost predicate OwnClean(files: Files, globals: Scope, a: Activation) {
    a.path in files && At(files, globals, a, |files[a.path]|).problems == []
  }

  lemma CleanIsOwnClean(files: Files, globals: Scope, a: Activation)
    requires Clean(files, globals, a)
    ensures OwnClean(files, globals, a)
  {
    CleanIsPlaced(files, globals, a);
    assert At(files, globals, a, |files[a.path]|).problems == [];
  }

  lemma {:induction false} OwnPrefix(files: Files, globals: Scope, a: Activation, k: nat, n: nat)
    requires a.path in files && k <= n <= |files[a.path]| && At(files, globals, a, n).problems == []
    ensures At(files, globals, a, k).problems == [] && Before(files, globals, a, |files[a.path]|).problems == []
    decreases n
  {
    if k < n {
      LineAppends(At(files, globals, a, n - 1), Against(globals, a.isRoot), a.path, files[a.path][n - 1]);
      OwnPrefix(files, globals, a, k, n - 1);
    } else if n > 0 {
      LineAppends(At(files, globals, a, n - 1), Against(globals, a.isRoot), a.path, files[a.path][n - 1]);
      OwnPrefix(files, globals, a, n - 1, n - 1);
    }
    hide CheckLine;
  }

  /** Line k of a clean script, seen from pass 2. */
  lemma OwnStep(files: Files, globals: Scope, a: Activation, k: nat)
    requires OwnClean(files, globals, a) && k < |files[a.path]|
    ensures CheckLine(At(files, globals, a, k), Against(globals, a.isRoot), a.path, files[a.path][k]).problems == []
    ensures At(files, globals, a, k + 1) == CheckLine(At(files, globals, a, k), Against(globals, a.isRoot), a.path, files[a.path][k])
  {
    OwnPrefix(files, globals, a, k + 1, |files[a.path]|);
    hide CheckLine;
  }

  /** Line k of a clean script, seen from pass 1. */
  lemma OwnRequire(files: Files, globals: Scope, a: Activation, k: nat)
    requires OwnClean(files, globals, a) && k < |files[a.path]|
    ensures var g, line, c := Against(globals, a.isRoot), files[a.path][k], Before(files, globals, a, k);
      if line.cmd.Requires? then
        && Visible(c.local, g, line.cmd.name).Some? && line.cmd.name !in c.introduced
        && Before(files, globals, a, k + 1).local == c.local[line.cmd.name := Visible(c.local, g, line.cmd.name).value]
        && Before(files, globals, a, k + 1).introduced == c.introduced + {line.cmd.name}
      else Before(files, globals, a, k + 1) == c
  {
    OwnPrefix(files, globals, a, 0, |files[a.path]|);
    CleanBefore(files, globals, a, k + 1, |files[a.path]|);
    var line := files[a.path][k];
    if line.cmd.Requires? {
      RequireClean(Before(files, globals, a, k), Against(globals, a.isRoot), a.path, line.number, line.cmd.name);
    }
  }

  /** ... and if the whole tree under the script is clean, so is the script that line k launches. */
  lemma CleanStep(files: Files, globals: Scope, a: Activation, k: nat)
    requires Clean(files, globals, a) && a.path in files && k < |files[a.path]|
    ensures var g, line := Against(globals, a.isRoot), files[a.path][k];
      && a.path !in a.stack
      && CheckLine(At(files, globals, a, k), g, a.path, line).problems == []
      && At(files, globals, a, k + 1) == CheckLine(At(files, globals, a, k), g, a.path, line)
      && (line.cmd.Launch? ==>
            One(files, line.cmd.script, Handed(At(files, globals, a, k).local, g, line.cmd.bindings), globals, a.stack + [a.path], false).problems == [])
  {
    CleanIsPlaced(files, globals, a);
    CleanIsOwnClean(files, globals, a);
    OwnStep(files, globals, a, k);
    hide CheckLine, One, Clean, Own;
    if files[a.path][k].cmd.Launch? {
      CleanChild(files, globals, a, k);
    }
  }

  lemma CleanChild(files: Files, globals: Scope, a: Activation, k: nat)
    requires Clean(files, globals, a) && a.path in files && k < |files[a.path]| && files[a.path][k].cmd.Launch?
    ensures var cmd := files[a.path][k].cmd;
      One(files, cmd.script, Handed(At(files, globals, a, k).local, Against(globals, a.isRoot), cmd.bindings), globals, a.stack + [a.path], false).problems == []
  {
    CleanIsPlaced(files, globals, a);
    CleanPrefix(files, globals, a, k, |files[a.path]|);
    CleanPrefix(files, globals, a, k + 1, |files[a.path]|);
    OwnIsPassTwo(files, a.path, a.provided, globals, a.stack, a.isRoot, k);
    hide CheckLine, One, CheckBindings;
  }

  lemma CleanRequire(files: Files, globals: Scope, a: Activation, k: nat)
    requires Clean(files, globals, a) && a.path in files && k < |files[a.path]|
    ensures var g, line, c := Against(globals, a.isRoot), files[a.path][k], Before(files, globals, a, k);
      if line.cmd.Requires? then
        && Visible(c.local, g, line.cmd.name).Some? && line.cmd.name !in c.introduced
        && Before(files, globals, a, k + 1).local == c.local[line.cmd.name := Visible(c.local, g, line.cmd.name).value]
        && Before(files, globals, a, k + 1).introduced == c.introduced + {line.cmd.name}
      else Before(files, globals, a, k + 1) == c
  {
    CleanIsOwnClean(files, globals, a);
    OwnRequire(files, globals, a, k);
  }

  // ---- The root's names are the globals ---------------------------------------------------------------

  ghost predicate Introduces(cmd: Command, n: string) {
    (Acquires(cmd) || cmd.Requires?) && cmd.name == n
  }

  lemma {:induction false} RequiredAreIntroduced(files: Files, globals: Scope, a: Activation, i: nat, k: nat)
    requires OwnClean(files, globals, a) && i < k <= |files[a.path]| && files[a.path][i].cmd.Requires?
    ensures files[a.path][i].cmd.name in Before(files, globals, a, k).introduced
    decreases k
  {
    OwnRequire(files, globals, a, k - 1);
    if i < k - 1 {
      RequiredAreIntroduced(files, globals, a, i, k - 1);
    }
  }

  lemma {:induction false} AcquiredAreIntroduced(files: Files, globals: Scope, a: Activation, i: nat, k: nat)
    requires OwnClean(files, globals, a) && i < |files[a.path]| && k <= |files[a.path]|
    requires files[a.path][i].cmd.Requires? || (i < k && Acquires(files[a.path][i].cmd))
    ensures files[a.path][i].cmd.name in At(files, globals, a, k).introduced
    decreases k
  {
    if k == 0 {
      RequiredAreIntroduced(files, globals, a, i, |files[a.path]|);
    } else {
      OwnStep(files, globals, a, k - 1);
      LineClean(At(files, globals, a, k - 1), Against(globals, a.isRoot), a.path, files[a.path][k - 1]);
      if !(i == k - 1 && Acquires(files[a.path][i].cmd)) {
        AcquiredAreIntroduced(files, globals, a, i, k - 1);
      }
    }
  }

  /** No two lines of a clean script introduce the same name. */
  lemma IntroducedOnce(files: Files, globals: Scope, a: Activation, i: nat, j: nat, n: string)
    requires OwnClean(files, globals, a) && i < |files[a.path]| && j < |files[a.path]|
    requires Introduces(files[a.path][i].cmd, n) && Introduces(files[a.path][j].cmd, n)
    ensures i == j
  {
    OneOfTwo(files, globals, a, i, j, n);
    OneOfTwo(files, globals, a, j, i, n);
  }

  lemma OneOfTwo(files: Files, globals: Scope, a: Activation, i: nat, j: nat, n: string)
    requires OwnClean(files, globals, a) && i < |files[a.path]| && j < |files[a.path]|
    requires Introduces(files[a.path][i].cmd, n) && Introduces(files[a.path][j].cmd, n)
    ensures Acquires(files[a.path][j].cmd) ==> i >= j && (i > j ==> Acquires(files[a.path][i].cmd))
    ensures files[a.path][j].cmd.Requires? && files[a.path][i].cmd.Requires? ==> i >= j
  {
    if Acquires(files[a.path][j].cmd) {
      OwnStep(files, globals, a, j);
      LineClean(At(files, globals, a, j), Against(globals, a.isRoot), a.path, files[a.path][j]);
      if files[a.path][i].cmd.Requires? || i < j {
        AcquiredAreIntroduced(files, globals, a, i, j);
      }
    } else if files[a.path][i].cmd.Requires? && i < j {
      OwnRequire(files, globals, a, j);
      RequiredAreIntroduced(files, globals, a, i, j);
    }
  }

  /** The last acquisition of a name decides its global type. */
  lemma {:induction false} GlobalAcquired(launch: Scope, lines: seq<Line>, n: nat, k: nat)
    requires k < n <= |lines| && Acquires(lines[k].cmd)
    requires forall i :: k < i < n ==> !Introduces(lines[i].cmd, lines[k].cmd.name)
    ensures var g, cmd := Globals(launch, lines, n), lines[k].cmd; cmd.name in g && g[cmd.name] == Name(cmd.mod, cmd.tag, true)
    decreases n
  {
    if k < n - 1 {
      GlobalAcquired(launch, lines, n - 1, k);
      assert !Introduces(lines[n - 1].cmd, lines[k].cmd.name);
    }
  }

  lemma {:induction false} GlobalLaunched(launch: Scope, lines: seq<Line>, n: nat, name: string)
    requires n <= |lines| && name in launch
    requires forall i :: 0 <= i < n && Acquires(lines[i].cmd) ==> !Introduces(lines[i].cmd, name)
    ensures var g := Globals(launch, lines, n); name in g && g[name] == launch[name]
  {
    if n > 0 {
      GlobalLaunched(launch, lines, n - 1, name);
      assert Acquires(lines[n - 1].cmd) ==> !Introduces(lines[n - 1].cmd, name);
    }
  }

  ghost predicate IsRoot(files: Files, globals: Scope, a: Activation) {
    a.isRoot && a.path in files && a.stack == [] && globals == RootGlobals(files, a.path, a.provided) && OwnClean(files, globals, a)
  }

  lemma RootAcquires(files: Files, globals: Scope, a: Activation, k: nat)
    requires IsRoot(files, globals, a) && k < |files[a.path]| && Acquires(files[a.path][k].cmd)
    ensures var cmd := files[a.path][k].cmd; cmd.name in globals && globals[cmd.name] == Name(cmd.mod, cmd.tag, true)
  {
    var lines := files[a.path];
    forall i | k < i < |lines|
      ensures !Introduces(lines[i].cmd, lines[k].cmd.name)
    {
      if Introduces(lines[i].cmd, lines[k].cmd.name) {
        IntroducedOnce(files, globals, a, i, k, lines[k].cmd.name);
      }
    }
    GlobalAcquired(a.provided, lines, |lines|, k);
  }

  lemma {:induction false} RequiredLocal(files: Files, globals: Scope, a: Activation, k: nat)
    requires OwnClean(files, globals, a) && k <= |files[a.path]|
    ensures var c := Before(files, globals, a, k);
      && (forall n :: n in a.provided ==> n in c.local && c.local[n] == a.provided[n])
      && (forall n :: n in c.local && n !in a.provided ==> n in Against(globals, a.isRoot) && c.local[n] == Against(globals, a.isRoot)[n])
  {
    if k > 0 {
      RequiredLocal(files, globals, a, k - 1);
      OwnRequire(files, globals, a, k - 1);
    }
  }

  lemma RootRequires(files: Files, globals: Scope, a: Activation, k: nat)
    requires IsRoot(files, globals, a) && k < |files[a.path]| && files[a.path][k].cmd.Requires?
    ensures var n := files[a.path][k].cmd.name;
      n in a.provided && n in globals && globals[n] == a.provided[n]
      && n in Before(files, globals, a, k).local && Before(files, globals, a, k).local[n] == a.provided[n]
  {
    var lines, n := files[a.path], files[a.path][k].cmd.name;
    OwnRequire(files, globals, a, k);
    RequiredLocal(files, globals, a, k);
    forall i | 0 <= i < |lines| && Acquires(lines[i].cmd)
      ensures !Introduces(lines[i].cmd, n)
    {
      if Introduces(lines[i].cmd, n) {
        IntroducedOnce(files, globals, a, i, k, n);
      }
    }
    GlobalLaunched(a.provided, lines, |lines|, n);
  }

  // ---- Names over a run ------------------------------------------------------------------------------

  /** A name the preflight has for the script is the script's own by now, or it is the global it was. */
  ghost predicate Covered(names: Names, local: Scope, globals: Scope) {
    forall n :: n in local ==> n in names || (n in globals && local[n] == globals[n])
  }

  /** The preflight's type for a name, where it has one, is the type the program has. */
  ghost predicate Agrees(pn: Name, b: Bound) {
    pn.typed ==> pn.tag != "" && b.tag == pn.tag && (pn.mod != "" ==> b.mod == pn.mod)
  }

  ghost predicate Typed(names: Names, local: Scope, g: Scope) {
    forall n :: n in names && n != "root" && Visible(local, g, n).Some? ==> Agrees(Visible(local, g, n).value, names[n])
  }

  /** The types that the table has for names of the root are the root's -- if those that others have put
      there are (`agreed`); what the root puts there is in any case. */
  ghost predicate TableOk(files: Files, table: Names, globals: Scope, agreed: bool) {
    agreed && WellFormed(files) ==> forall n :: n in table && n in globals ==> Agrees(globals[n], table[n])
  }

  /** What is in the table is what was in it, or a name of the root as the type that the root has for it. */
  ghost predicate PutOk(files: Files, table: Names, table': Names, globals: Scope) {
    WellFormed(files) ==> forall n :: n in table' ==>
      (n in table && table'[n] == table[n]) || (n in globals && Agrees(globals[n], table'[n]))
  }

  /** What the parser guarantees of a line (core/Command.h:456-489, 632-684, 861-924): a type has both its
      parts, and "root", which is each script's own anchor, is nobody's name to give or to hand on. */
  ghost predicate Parsed(cmd: Command) {
    && (Acquires(cmd) ==> cmd.mod != "" && cmd.tag != "" && cmd.name != "root")
    && (cmd.Requires? ==> cmd.name != "root")
    && "root" !in Needs(cmd)
    && (cmd.Launch? ==> forall b :: b in cmd.bindings ==> b.childKey != "root" && b.parentKey != "root")
  }

  ghost predicate WellFormed(files: Files) {
    forall p, i :: p in files && 0 <= i < |files[p]| ==> Parsed(files[p][i].cmd)
  }

  ghost predicate Live(a: Activation) {
    !a.phase.Stopped?
  }

  /** The launches that led here are of different files, none of them this one. */
  ghost predicate StackOk(files: Files, a: Activation) {
    && (forall p :: p in a.stack ==> p in files)
    && (forall i, j :: 0 <= i < j < |a.stack| ==> a.stack[i] != a.stack[j])
  }

  ghost predicate ActOk(files: Files, globals: Scope, agreed: bool, a: Activation) {
    && Clean(files, globals, a) && Placed(files, a) && StackOk(files, a)
    && a.provided.Keys <= a.names.Keys
    && (a.isRoot ==> IsRoot(files, globals, a) && a.names.Keys <= globals.Keys)
    && (Live(a) ==> Covered(a.names, Local(files, globals, a), globals))
    && (Live(a) && WellFormed(files) && (agreed || a.isRoot) ==> Typed(a.names, Local(files, globals, a), Against(globals, a.isRoot)))
  }

  ghost predicate WorldOk(files: Files, globals: Scope, agreed: bool, w: World) {
    TableOk(files, w.table, globals, agreed) && forall i :: 0 <= i < |w.acts| ==> ActOk(files, globals, agreed, w.acts[i])
  }

  lemma LookupAgrees(files: Files, names: Names, table: Names, local: Scope, globals: Scope, agreed: bool, isRoot: bool, n: string)
    requires Covered(names, local, globals) && Typed(names, local, Against(globals, isRoot))
    requires n !in names ==> agreed && TableOk(files, table, globals, agreed) && WellFormed(files)
    requires Lookup(names, table, n).Some? && n != "root"
    ensures var v := Visible(local, Against(globals, isRoot), n);
      v.Some? ==> Agrees(v.value, Lookup(names, table, n).value)
  {}

  /** A name that is visible to the preflight is in scope when the line runs. */
  lemma VisibleIsCovered(names: Names, local: Scope, globals: Scope, isRoot: bool, n: string)
    requires Covered(names, local, globals) && Visible(local, Against(globals, isRoot), n).Some?
    ensures n in names || n in globals
  {}

  /** The names and the preflight's view of them grow together, by a `requires` ... */
  lemma RequireCovers(names: Names, local: Scope, globals: Scope, isRoot: bool, n: string, b: Bound)
    requires Covered(names, local, globals) && Visible(local, Against(globals, isRoot), n).Some?
    ensures var l := local[n := Visible(local, Against(globals, isRoot), n).value];
      Covered(names, l, globals) && Covered(names[n := b], l, globals)
  {}

  lemma RequireTypes(names: Names, local: Scope, g: Scope, n: string, b: Bound)
    requires Typed(names, local, g)
    requires Visible(local, g, n).Some? && Agrees(Visible(local, g, n).value, b)
    ensures var l := local[n := Visible(local, g, n).value];
      Typed(names, l, g) && Typed(names[n := b], l, g)
  {}

  /** ... or by an acquisition. */
  lemma AcquireGrows(names: Names, local: Scope, globals: Scope, g: Scope, n: string, pn: Name, b: Bound)
    ensures Covered(names, local, globals) ==> Covered(names[n := b], local[n := pn], globals)
    ensures Typed(names, local, g) && Agrees(pn, b) ==> Typed(names[n := b], local[n := pn], g)
  {}

  /** What a `requires` line does to its activation, and to the table. */
  lemma RequireKeepsOk(files: Files, globals: Scope, agreed: bool, w: World, i: nat, o: Answers, k: nat)
    requires WorldOk(files, globals, agreed, w) && i < |w.acts| && w.acts[i].phase == Requiring(k)
    requires k < |files[w.acts[i].path]| && files[w.acts[i].path][k].cmd.Requires?
    ensures var w' := Require1(w, i, o, files[w.acts[i].path][k].cmd.name, k);
      ActOk(files, globals, agreed, w'.acts[i]) && PutOk(files, w.table, w'.table, globals)
  {
    RequireKeepsAct(files, globals, agreed, w, i, o, k);
    RequireKeepsTable(files, globals, agreed, w, i, o, k);
    hide Require1, ActOk, TableOk, PutOk;
  }

  lemma RequireKeepsAct(files: Files, globals: Scope, agreed: bool, w: World, i: nat, o: Answers, k: nat)
    requires WorldOk(files, globals, agreed, w) && i < |w.acts| && w.acts[i].phase == Requiring(k)
    requires k < |files[w.acts[i].path]| && files[w.acts[i].path][k].cmd.Requires?
    ensures ActOk(files, globals, agreed, Require1(w, i, o, files[w.acts[i].path][k].cmd.name, k).acts[i])
  {
    var a := w.acts[i];
    var a' := Require1(w, i, o, files[a.path][k].cmd.name, k).acts[i];
    RequireKeepsNames(files, globals, agreed, a, w.table, o, k);
    if a.isRoot { RootRequires(files, globals, a, k); }
    hide Covered, Typed, Clean, TableOk, WellFormed;
    assert Before(files, globals, a', k + 1) == Before(files, globals, a, k + 1);
  }

  /** ... and what it does to the names, bound or dropped by a race. */
  lemma RequireKeepsNames(files: Files, globals: Scope, agreed: bool, a: Activation, table: Names, o: Answers, k: nat)
    requires ActOk(files, globals, agreed, a) && TableOk(files, table, globals, agreed) && a.phase == Requiring(k)
    requires k < |files[a.path]| && files[a.path][k].cmd.Requires?
    ensures var n := files[a.path][k].cmd.name;
      var b := LookupLive(a.names, table, o.live, n);
      var local, g := Before(files, globals, a, k + 1).local, Against(globals, a.isRoot);
      b.Some? ==>
        && Covered(a.names, local, globals) && Covered(a.names[n := b.value], local, globals)
        && (WellFormed(files) && (agreed || a.isRoot) ==> Typed(a.names, local, g) && Typed(a.names[n := b.value], local, g))
  {
    var n := files[a.path][k].cmd.name;
    CleanRequire(files, globals, a, k);
    if LookupLive(a.names, table, o.live, n).Some? {
      var b := Lookup(a.names, table, n).value;
      var c, g := Before(files, globals, a, k), Against(globals, a.isRoot);
      RequireCovers(a.names, c.local, globals, a.isRoot, n, b);
      if WellFormed(files) && (agreed || a.isRoot) {
        assert Parsed(files[a.path][k].cmd);
        if a.isRoot { RootRequires(files, globals, a, k); }
        LookupAgrees(files, a.names, table, c.local, globals, agreed, a.isRoot, n);
        RequireTypes(a.names, c.local, g, n, b);
      }
      hide Covered, Typed, Clean, TableOk;
    }
  }

  /** What a required name publishes, if the root requires it, is the global it was launched with. */
  lemma RequireKeepsTable(files: Files, globals: Scope, agreed: bool, w: World, i: nat, o: Answers, k: nat)
    requires WorldOk(files, globals, agreed, w) && i < |w.acts| && w.acts[i].phase == Requiring(k)
    requires k < |files[w.acts[i].path]| && files[w.acts[i].path][k].cmd.Requires?
    ensures PutOk(files, w.table, Require1(w, i, o, files[w.acts[i].path][k].cmd.name, k).table, globals)
  {
    var a := w.acts[i];
    var n := files[a.path][k].cmd.name;
    if a.isRoot && LookupLive(a.names, w.table, o.live, n).Some? {
      RootRequires(files, globals, a, k);
      if WellFormed(files) {
        assert Parsed(files[a.path][k].cmd);
        LookupAgrees(files, a.names, w.table, Before(files, globals, a, k).local, globals, agreed, a.isRoot, n);
      }
    }
    hide Covered, Typed, Clean, WellFormed;
  }

  // ---- Executing a line --------------------------------------------------------------------------------

  lemma RunBinds(files: Files, names: Names, table: Names, o: Answers, cmd: Command)
    ensures var e := Run(files, names, table, o, cmd);
      && (e.Binds? ==> Acquires(cmd) && e.name == cmd.name && e.bound.mod == cmd.mod && e.bound.tag == cmd.tag)
      && (e.Continues? ==> !Acquires(cmd))
      && (e.Starts? ==> cmd.Launch? && e == RunLaunch(files, names, table, o, cmd))
  {
    match cmd {
      case Launch(_, _, _) => LaunchOnlyStarts(files, names, table, o, cmd);
      case _ =>
    }
  }

  lemma {:induction false} BindingsOnlyStart(names: Names, table: Names, o: Answers, bindings: seq<Binding>)
    ensures var e := RunBindings(names, table, o, bindings);
      e.Starts? || e.Stops?
  {
    if bindings != [] {
      BindingsOnlyStart(names, table, o, bindings[..|bindings| - 1]);
    }
  }

  lemma LaunchOnlyStarts(files: Files, names: Names, table: Names, o: Answers, cmd: Command)
    requires cmd.Launch?
    ensures var e := RunLaunch(files, names, table, o, cmd); e.Starts? || e.Stops?
  {
    BindingsOnlyStart(names, table, o, cmd.bindings);
  }

  /** The names a launched script gets are the ones the preflight handed it, with the same types. */
  lemma {:induction false} HandedAgrees(files: Files, a: Activation, table: Names, o: Answers, local: Scope, globals: Scope, agreed: bool, bindings: seq<Binding>)
    requires Covered(a.names, local, globals) && TableOk(files, table, globals, agreed)
    requires WellFormed(files) && agreed ==> Typed(a.names, local, Against(globals, a.isRoot))
    requires RunBindings(a.names, table, o, bindings).Starts?
    requires forall b :: b in bindings ==> Visible(local, Against(globals, a.isRoot), b.parentKey).Some?
    requires WellFormed(files) ==> forall b :: b in bindings ==> b.parentKey != "root"
    ensures var out, handed := RunBindings(a.names, table, o, bindings).names, Handed(local, Against(globals, a.isRoot), bindings);
      && out.Keys == handed.Keys && "root" !in out
      && (WellFormed(files) && agreed ==> forall n :: n in out ==> Agrees(handed[n], out[n]))
  {
    if bindings != [] {
      var rest, b := bindings[..|bindings| - 1], bindings[|bindings| - 1];
      assert bindings == rest + [b];
      HandedAgrees(files, a, table, o, local, globals, agreed, rest);
      if WellFormed(files) && agreed {
        LookupAgrees(files, a.names, table, local, globals, agreed, a.isRoot, b.parentKey);
      }
    }
  }

  /** A launched script starts out as its preflight assumed. */
  lemma ChildStartsOk(files: Files, globals: Scope, agreed: bool, w: World, i: nat, o: Answers, k: nat)
    requires WorldOk(files, globals, agreed, w) && i < |w.acts| && w.acts[i].phase == Running(k)
    requires k < |files[w.acts[i].path]| && files[w.acts[i].path][k].cmd.Launch?
    requires RunLaunch(files, w.acts[i].names, w.table, o, files[w.acts[i].path][k].cmd).Starts?
    ensures var a := w.acts[i];
      var cmd := files[a.path][k].cmd;
      ActOk(files, globals, agreed, Activation(cmd.script, RunLaunch(files, a.names, w.table, o, cmd).names, Starting, false,
          Handed(At(files, globals, a, k).local, Against(globals, a.isRoot), cmd.bindings), a.stack + [a.path]))
  {
    var a := w.acts[i];
    var cmd := files[a.path][k].cmd;
    var local, g := At(files, globals, a, k).local, Against(globals, a.isRoot);
    CleanStep(files, globals, a, k);
    LineClean(At(files, globals, a, k), g, a.path, files[a.path][k]);
    assert WellFormed(files) ==> Parsed(files[a.path][k].cmd);
    var handed, names := Handed(local, g, cmd.bindings), RunLaunch(files, a.names, w.table, o, cmd).names;
    ChildNames(files, a, w.table, o, local, globals, agreed, cmd);
    var child := Activation(cmd.script, names, Starting, false, handed, a.stack + [a.path]);
    hide CheckLine, PassTwo, PassOne, Handed, RunBindings, RunLaunch, Covered, Typed;
    assert Clean(files, globals, child);
    CleanIsPlaced(files, globals, child);
    hide Clean;
  }

  lemma ChildNames(files: Files, a: Activation, table: Names, o: Answers, local: Scope, globals: Scope, agreed: bool, cmd: Command)
    requires cmd.Launch? && Covered(a.names, local, globals) && TableOk(files, table, globals, agreed)
    requires WellFormed(files) ==> Parsed(cmd)
    requires WellFormed(files) && agreed ==> Typed(a.names, local, Against(globals, a.isRoot))
    requires RunLaunch(files, a.names, table, o, cmd).Starts?
    requires forall b :: b in cmd.bindings ==> Visible(local, Against(globals, a.isRoot), b.parentKey).Some?
    ensures var handed := Handed(local, Against(globals, a.isRoot), cmd.bindings);
      var names := RunLaunch(files, a.names, table, o, cmd).names;
      && handed.Keys <= names.Keys && Covered(names, handed, globals)
      && (WellFormed(files) && agreed ==> Typed(names, handed, globals))
  {
    HandedAgrees(files, a, table, o, local, globals, agreed, cmd.bindings);
    hide Handed, RunBindings, TableOk;
  }

  /** An acquisition that succeeds: the name is bound, and published if the script is the root. */
  lemma BindKeepsOk(files: Files, globals: Scope, agreed: bool, w: World, i: nat, k: nat, b: Bound)
    requires WorldOk(files, globals, agreed, w) && i < |w.acts| && w.acts[i].phase == Running(k) && k < |files[w.acts[i].path]|
    requires var cmd := files[w.acts[i].path][k].cmd; Acquires(cmd) && b.mod == cmd.mod && b.tag == cmd.tag
    ensures var w' := Bind(w, i, files[w.acts[i].path][k].cmd.name, b, Running(k + 1));
      PutOk(files, w.table, w'.table, globals) && ActOk(files, globals, agreed, w'.acts[i])
  {
    var a := w.acts[i];
    var line := files[a.path][k];
    var a' := a.(names := a.names[line.cmd.name := b], phase := Running(k + 1));
    var c, g := At(files, globals, a, k), Against(globals, a.isRoot);
    CleanStep(files, globals, a, k);
    LineClean(c, g, a.path, line);
    assert At(files, globals, a', k + 1) == At(files, globals, a, k + 1);
    AcquireGrows(a.names, c.local, globals, g, line.cmd.name, Name(line.cmd.mod, line.cmd.tag, true), b);
    if a.isRoot {
      RootAcquires(files, globals, a, k);
    }
    hide Covered, Typed, Clean, CheckLine, One, Own, PassOne;
  }

  /** A line that binds nothing: the activation moves on, or stops. */
  lemma TurnKeepsOk(files: Files, globals: Scope, agreed: bool, w: World, i: nat, k: nat, next: Phase)
    requires WorldOk(files, globals, agreed, w) && i < |w.acts| && w.acts[i].phase == Running(k) && k < |files[w.acts[i].path]|
    requires next.Stopped? || (next == Running(k + 1) && !Acquires(files[w.acts[i].path][k].cmd))
    ensures ActOk(files, globals, agreed, Turn(w, i, next).acts[i])
  {
    var a := w.acts[i];
    var a' := a.(phase := next);
    CleanStep(files, globals, a, k);
    LineClean(At(files, globals, a, k), Against(globals, a.isRoot), a.path, files[a.path][k]);
    assert At(files, globals, a', k + 1) == At(files, globals, a, k + 1);
    assert Clean(files, globals, a');
    hide Covered, Typed, Clean, CheckLine, One;
  }

  /** What an executed line does to its activation, and to the table. */
  lemma ExecuteKeepsOk(files: Files, globals: Scope, agreed: bool, w: World, i: nat, o: Answers, k: nat)
    requires WorldOk(files, globals, agreed, w) && i < |w.acts| && w.acts[i].phase == Running(k) && k < |files[w.acts[i].path]|
    ensures var w' := Execute(files, globals, w, i, o, k);
      PutOk(files, w.table, w'.table, globals) && ActOk(files, globals, agreed, w'.acts[i])
  {
    var a := w.acts[i];
    var cmd := files[a.path][k].cmd;
    RunBinds(files, a.names, w.table, o, cmd);
    var e := Run(files, a.names, w.table, o, cmd);
    if e.Binds? {
      BindKeepsOk(files, globals, agreed, w, i, k, e.bound);
    } else {
      TurnKeepsOk(files, globals, agreed, w, i, k, if e.Stops? then Stopped(e.why) else Running(k + 1));
    }
    hide Run, ActOk, TableOk, PutOk, Local;
  }

  // ---- Whole runs ------------------------------------------------------------------------------------

  /** The step executes a line of its activation. */
  ghost predicate Executes(files: Files, globals: Scope, w: World, s: Step) {
    && s.Act? && s.i < |w.acts| && Placed(files, w.acts[s.i]) && w.acts[s.i].phase.Running?
    && w.acts[s.i].phase.k < |files[w.acts[s.i].path]|
    && Next(files, globals, w, s) == Execute(files, globals, w, s.i, s.answers, w.acts[s.i].phase.k)
  }

  /** Nothing but activation i changes, and of it only the names and the phase; at most one is added, which
      has not begun. */
  ghost predicate Moved(w: World, w': World, i: nat) {
    && |w.acts| <= |w'.acts| <= |w.acts| + 1
    && (forall j :: 0 <= j < |w.acts| && j != i ==> w'.acts[j] == w.acts[j])
    && (i < |w.acts| ==> w'.acts[i] == w.acts[i].(names := w'.acts[i].names, phase := w'.acts[i].phase))
    && (|w'.acts| > |w.acts| ==> w'.acts[|w.acts|].phase == Starting && !w'.acts[|w.acts|].isRoot)
  }

  lemma TurnMoves(w: World, i: nat, next: Phase)
    requires i < |w.acts|
    ensures Moved(w, Turn(w, i, next), i) && |Turn(w, i, next).acts| == |w.acts| && Turn(w, i, next).acts[i] == w.acts[i].(phase := next)
  {}

  lemma BindMoves(w: World, i: nat, n: string, b: Bound, next: Phase)
    requires i < |w.acts|
    ensures Moved(w, Bind(w, i, n, b, next), i) && |Bind(w, i, n, b, next).acts| == |w.acts| && Bind(w, i, n, b, next).acts[i].phase == next
  {}

  lemma ExecuteMoves(files: Files, globals: Scope, w: World, i: nat, o: Answers, k: nat)
    requires i < |w.acts| && Placed(files, w.acts[i]) && w.acts[i].phase == Running(k) && k < |files[w.acts[i].path]|
    ensures var w' := Execute(files, globals, w, i, o, k);
      Moved(w, w', i) && (w'.acts[i].phase == Running(k + 1) || w'.acts[i].phase.Stopped?)
  {
    hide Run, Local, Turn, Bind, Moved;
    var e := Run(files, w.acts[i].names, w.table, o, files[w.acts[i].path][k].cmd);
    match e {
      case Continues => TurnMoves(w, i, Running(k + 1));
      case Stops(why) => TurnMoves(w, i, Stopped(why));
      case Binds(n, b) => BindMoves(w, i, n, b, Running(k + 1));
      case Starts(script, names) =>
        TurnMoves(w, i, Running(k + 1));
        AddMoves(w, Turn(w, i, Running(k + 1)), i, Execute(files, globals, w, i, o, k));
    }
  }

  lemma AddMoves(w: World, w1: World, i: nat, w': World)
    requires Moved(w, w1, i) && |w1.acts| == |w.acts| && i < |w.acts|
    requires |w'.acts| == |w.acts| + 1 && w'.acts[..|w.acts|] == w1.acts
    requires w'.acts[|w.acts|].phase == Starting && !w'.acts[|w.acts|].isRoot
    ensures Moved(w, w', i) && w'.acts[i] == w1.acts[i]
  {
    assert forall j :: 0 <= j < |w.acts| ==> w'.acts[j] == w'.acts[..|w.acts|][j] == w1.acts[j];
  }

  lemma RequireMoves(w: World, i: nat, o: Answers, n: string, k: nat)
    requires i < |w.acts|
    ensures var w' := Require1(w, i, o, n, k);
      Moved(w, w', i) && |w'.acts| == |w.acts| && (w'.acts[i].phase == Requiring(k + 1) || w'.acts[i].phase.Stopped?)
  {
    TurnMoves(w, i, Stopped(Refused));
    TurnMoves(w, i, Requiring(k + 1));
    var b := LookupLive(w.acts[i].names, w.table, o.live, n);
    if b.Some? { BindMoves(w, i, n, b.value, Requiring(k + 1)); }
    hide LookupLive, Moved;
  }

  /** Whose step it is. */
  ghost function Mover(w: World, s: Step): nat {
    if Moving(s) then s.i else |w.acts|
  }

  lemma NextMoves(files: Files, globals: Scope, w: World, s: Step)
    ensures Moved(w, Next(files, globals, w, s), Mover(w, s))
    ensures forall j :: 0 <= j < |w.acts| && Placed(files, w.acts[j]) ==> Placed(files, Next(files, globals, w, s).acts[j])
    ensures |Next(files, globals, w, s).acts| > |w.acts| ==> Executes(files, globals, w, s)
  {
    hide Execute, Require1, Turn, HasMalformed;
    if Moving(s) && s.i < |w.acts| {
      var a := w.acts[s.i];
      if s.Halt? {
        TurnMoves(w, s.i, Stopped(Failed));
      } else if Placed(files, a) {
        match a.phase {
          case Starting =>
            TurnMoves(w, s.i, Stopped(Failed));
            TurnMoves(w, s.i, Requiring(0));
          case Requiring(k) =>
            TurnMoves(w, s.i, Running(0));
            TurnMoves(w, s.i, Requiring(k + 1));
            if k < |files[a.path]| && files[a.path][k].cmd.Requires? { RequireMoves(w, s.i, s.answers, files[a.path][k].cmd.name, k); }
          case Running(k) =>
            TurnMoves(w, s.i, Stopped(Finished));
            if k < |files[a.path]| { ExecuteMoves(files, globals, w, s.i, s.answers, k); }
          case Stopped(_) =>
        }
      }
    }
  }

  /** Nothing but the next step's own activation changes, and at most one is added. */
  lemma NextFrame(files: Files, globals: Scope, w: World, s: Step)
    ensures var w' := Next(files, globals, w, s);
      && |w.acts| <= |w'.acts| <= |w.acts| + 1
      && (forall j :: 0 <= j < |w.acts| && (!Moving(s) || j != s.i) ==> w'.acts[j] == w.acts[j])
      && (|w'.acts| > |w.acts| ==> Executes(files, globals, w, s))
  {
    NextMoves(files, globals, w, s);
    hide Next, Executes;
  }

  lemma StartedChild(files: Files, globals: Scope, agreed: bool, w: World, i: nat, o: Answers, k: nat)
    requires WorldOk(files, globals, agreed, w) && i < |w.acts| && w.acts[i].phase == Running(k) && k < |files[w.acts[i].path]|
    requires var w' := Execute(files, globals, w, i, o, k); |w'.acts| > |w.acts|
    ensures ActOk(files, globals, agreed, Execute(files, globals, w, i, o, k).acts[|w.acts|])
  {
    var a := w.acts[i];
    RunBinds(files, a.names, w.table, o, files[a.path][k].cmd);
    assert Run(files, a.names, w.table, o, files[a.path][k].cmd).Starts?;
    ChildStartsOk(files, globals, agreed, w, i, o, k);
    hide RunLaunch, PassTwo, ActOk;
  }

  /** Steps that only move an activation on. */
  lemma PhaseKeepsOk(files: Files, globals: Scope, agreed: bool, w: World, s: Step)
    requires WorldOk(files, globals, agreed, w) && s.Act? && s.i < |w.acts|
    requires var a := w.acts[s.i];
      match a.phase
      case Requiring(k) => k == |files[a.path]| || !files[a.path][k].cmd.Requires?
      case Running(k) => k == |files[a.path]|
      case _ => true
    ensures var w' := Next(files, globals, w, s);
      PutOk(files, w.table, w'.table, globals) && ActOk(files, globals, agreed, w'.acts[s.i])
  {
    var a := w.acts[s.i];
    if a.phase.Requiring? && a.phase.k < |files[a.path]| {
      CleanRequire(files, globals, a, a.phase.k);
    }
    hide Covered, Typed, HasMalformed;
    assert Clean(files, globals, Next(files, globals, w, s).acts[s.i]);
    hide Clean;
  }

  /** A name that others publish has the root's type, if it is a name of the root. */
  ghost predicate PutAgrees(globals: Scope, s: Step) {
    s.Publish? && s.name in globals ==> Agrees(globals[s.name], s.bound)
  }

  lemma NextKeepsOk(files: Files, globals: Scope, agreed: bool, w: World, s: Step)
    requires WorldOk(files, globals, agreed, w) && (agreed ==> PutAgrees(globals, s))
    ensures WorldOk(files, globals, agreed, Next(files, globals, w, s))
  {
    var w' := Next(files, globals, w, s);
    NextFrame(files, globals, w, s);
    NextKeepsTable(files, globals, agreed, w, s);
    if Moving(s) && s.i < |w.acts| {
      MovedOk(files, globals, agreed, w, s);
    }
    if |w'.acts| > |w.acts| {
      StartedChild(files, globals, agreed, w, s.i, s.answers, w.acts[s.i].phase.k);
    }
    hide ActOk, Next, TableOk;
  }

  lemma NextKeepsTable(files: Files, globals: Scope, agreed: bool, w: World, s: Step)
    requires WorldOk(files, globals, agreed, w) && (agreed ==> PutAgrees(globals, s))
    ensures TableOk(files, Next(files, globals, w, s).table, globals, agreed)
  {
    if Moving(s) {
      NextPutsOk(files, globals, agreed, w, s);
      hide Next, Agrees, WellFormed, ActOk;
    } else {
      hide Agrees, WellFormed, ActOk;
    }
  }

  /** Whatever an activation puts into the table is a name of the root, as the root's type. */
  lemma NextPutsOk(files: Files, globals: Scope, agreed: bool, w: World, s: Step)
    requires WorldOk(files, globals, agreed, w) && Moving(s)
    ensures PutOk(files, w.table, Next(files, globals, w, s).table, globals)
  {
    if s.i < |w.acts| {
      MovedOk(files, globals, agreed, w, s);
      hide Next, PutOk;
    } else {
      hide Execute, Require1;
    }
  }

  lemma MovedOk(files: Files, globals: Scope, agreed: bool, w: World, s: Step)
    requires WorldOk(files, globals, agreed, w) && Moving(s) && s.i < |w.acts|
    ensures var w' := Next(files, globals, w, s);
      s.i < |w'.acts| && PutOk(files, w.table, w'.table, globals) && ActOk(files, globals, agreed, w'.acts[s.i])
  {
    NextFrame(files, globals, w, s);
    var a := w.acts[s.i];
    if s.Act? && a.phase.Requiring? && a.phase.k < |files[a.path]| && files[a.path][a.phase.k].cmd.Requires? {
      RequireKeepsOk(files, globals, agreed, w, s.i, s.answers, a.phase.k);
      hide Require1, TableOk, PutOk, ActOk;
      assert Placed(files, a);
    } else if s.Act? && a.phase.Running? && a.phase.k < |files[a.path]| {
      ExecuteKeepsOk(files, globals, agreed, w, s.i, s.answers, a.phase.k);
      hide Execute, TableOk, PutOk;
    } else if s.Act? {
      PhaseKeepsOk(files, globals, agreed, w, s);
      hide *;
    } else {
      HaltKeepsOk(files, globals, agreed, w, s.i);
      hide TableOk, ActOk;
    }
  }

  lemma HaltKeepsOk(files: Files, globals: Scope, agreed: bool, w: World, i: nat)
    requires WorldOk(files, globals, agreed, w) && i < |w.acts|
    ensures ActOk(files, globals, agreed, Turn(w, i, Stopped(Failed)).acts[i])
  {
    assert Clean(files, globals, w.acts[i].(phase := Stopped(Failed)));
    hide Clean;
  }

  lemma {:induction false} LaunchIsGlobal(launch: Scope, lines: seq<Line>, n: nat)
    requires n <= |lines|
    ensures launch.Keys <= Globals(launch, lines, n).Keys
  {
    if n > 0 { LaunchIsGlobal(launch, lines, n - 1); }
  }

  /** Where others hold a name of the root, it is the root's type that they have for it: those who wrote to
      the table before, and those who write to it meanwhile. */
  ghost predicate OthersAgree(globals: Scope, before: Names, steps: seq<Step>) {
    && (forall n :: n in before && n in globals ==> Agrees(globals[n], before[n]))
    && forall s :: s in steps ==> PutAgrees(globals, s)
  }

  lemma BeginOk(files: Files, root: Path, names: Names, before: Names, agreed: bool)
    requires Tree(files, root, LaunchScope(names)).problems == []
    requires agreed ==> root in files && OthersAgree(RootGlobals(files, root, LaunchScope(names)), before, [])
    ensures root in files && WorldOk(files, RootGlobals(files, root, LaunchScope(names)), agreed, Begin(root, names, before))
  {
    var globals := RootGlobals(files, root, LaunchScope(names));
    var a := Begin(root, names, before).acts[0];
    assert Clean(files, globals, a);
    CleanIsOwnClean(files, globals, a);
    LaunchIsGlobal(LaunchScope(names), files[root], |files[root]|);
    hide One;
    assert Typed(a.names, a.provided, map[]);
  }

  lemma {:induction false} ReachOk(files: Files, globals: Scope, agreed: bool, w: World, steps: seq<Step>)
    requires WorldOk(files, globals, agreed, w) && (agreed ==> forall s :: s in steps ==> PutAgrees(globals, s))
    ensures WorldOk(files, globals, agreed, Reach(files, globals, w, steps))
    decreases |steps|
  {
    if steps != [] {
      ReachOk(files, globals, agreed, w, steps[..|steps| - 1]);
      NextKeepsOk(files, globals, agreed, Reach(files, globals, w, steps[..|steps| - 1]), steps[|steps| - 1]);
    }
  }

  /** An activation that is about to execute its line k. */
  ghost predicate About(files: Files, a: Activation, k: nat) {
    a.phase == Running(k) && a.path in files && k < |files[a.path]|
  }

  /** NAMES ARE SOUND. If the preflight reports no problem then, in every run, every line that executes
      has parsed, and every receiver and every binding source on it is one of its script's own names or
      one that the root file introduces or was launched with. */
  lemma PreflightIsSound(files: Files, root: Path, names: Names, before: Names, steps: seq<Step>, i: nat, k: nat)
    requires Tree(files, root, LaunchScope(names)).problems == []
    requires var w := Reach(files, RootGlobals(files, root, LaunchScope(names)), Begin(root, names, before), steps);
      i < |w.acts| && About(files, w.acts[i], k)
    ensures var globals := RootGlobals(files, root, LaunchScope(names));
      var a := Reach(files, globals, Begin(root, names, before), steps).acts[i];
      var cmd := files[a.path][k].cmd;
      !cmd.Malformed? && forall n :: n in Needs(cmd) ==> n in a.names || n in globals
  {
    var globals := RootGlobals(files, root, LaunchScope(names));
    BeginOk(files, root, names, before, false);
    ReachOk(files, globals, false, Begin(root, names, before), steps);
    var a := Reach(files, globals, Begin(root, names, before), steps).acts[i];
    var c := At(files, globals, a, k);
    CleanStep(files, globals, a, k);
    LineClean(c, Against(globals, a.isRoot), a.path, files[a.path][k]);
    forall n | n in Needs(files[a.path][k].cmd)
      ensures n in a.names || n in globals
    {
      VisibleIsCovered(a.names, c.local, globals, a.isRoot, n);
    }
  }

  /** The preflight knew a type for the name when it came to line k. */
  ghost predicate KnownType(files: Files, globals: Scope, a: Activation, k: nat, n: string) {
    && a.path in files && k <= |files[a.path]|
    && Visible(At(files, globals, a, k).local, Against(globals, a.isRoot), n).Some?
    && Visible(At(files, globals, a, k).local, Against(globals, a.isRoot), n).value.typed
  }

  /** The type that the program finds for a bound, in the binding or in the entity. */
  ghost function TypeOf(b: Bound, t: Thing): (string, string) {
    (if b.mod == "" then t.mod else b.mod, if b.tag == "" then t.tag else b.tag)
  }

  /** The name stands for a live entity of another type, and it is others who made it do so. */
  ghost predicate ForeignClash(before: Names, steps: seq<Step>, a: Activation, o: Answers, cmd: Command)
    requires cmd.Acquire?
  {
    var f := Foreign(before, steps, cmd.name);
    cmd.name !in a.names && f.Some? && f.value.rid in o.live && TypeOf(f.value, o.live[f.value.rid]) != (cmd.mod, cmd.tag)
  }

  /** What is in the table under a name of the root has the root's type, or others have put it there. */
  ghost predicate Blamed(globals: Scope, w: World, before: Names, steps: seq<Step>) {
    forall n :: n in w.table && n in globals ==> Agrees(globals[n], w.table[n]) || Foreign(before, steps, n) == Some(w.table[n])
  }

  lemma {:induction false} ReachBlamed(files: Files, globals: Scope, o: World, steps: seq<Step>)
    requires WorldOk(files, globals, false, o) && WellFormed(files)
    ensures Blamed(globals, Reach(files, globals, o, steps), o.table, steps)
    decreases |steps|
  {
    hide WorldOk, Next, Agrees, WellFormed;
    if steps != [] {
      var w, s := Reach(files, globals, o, steps[..|steps| - 1]), steps[|steps| - 1];
      ReachBlamed(files, globals, o, steps[..|steps| - 1]);
      ReachOk(files, globals, false, o, steps[..|steps| - 1]);
      if Moving(s) { NextPutsOk(files, globals, false, w, s); } else { OthersPut(files, globals, w, s); }
    }
  }

  lemma OthersPut(files: Files, globals: Scope, w: World, s: Step)
    requires !Moving(s)
    ensures Next(files, globals, w, s).table ==
      if s.Forget? then w.table - {s.name} else if s.name == "" || s.bound.rid == 0 then w.table else w.table[s.name := s.bound]
  {}

  /** TYPES ARE SOUND, and others are to blame where they are not. A top-level acquisition whose type the
      preflight knew meets another type if and only if it looks for the name, has it not itself, and others
      have put a live entity of another type there. */
  lemma TypesAreSound(files: Files, root: Path, names: Names, before: Names, steps: seq<Step>, i: nat, k: nat, o: Answers)
    requires Tree(files, root, LaunchScope(names)).problems == []
    requires WellFormed(files)
    requires var w := Reach(files, RootGlobals(files, root, LaunchScope(names)), Begin(root, names, before), steps);
      i < |w.acts| && About(files, w.acts[i], k) && files[w.acts[i].path][k].cmd.Acquire?
    ensures var globals := RootGlobals(files, root, LaunchScope(names));
      var w := Reach(files, globals, Begin(root, names, before), steps);
      var a := w.acts[i];
      var cmd := files[a.path][k].cmd;
      KnownType(files, globals, a, k, cmd.name) ==>
        (Run(files, a.names, w.table, o, cmd) == Stops(WrongType(cmd.name)) <==>
           cmd.verb != Spawn && Find(w.table, cmd.name) == Foreign(before, steps, cmd.name) && ForeignClash(before, steps, a, o, cmd))
  {
    var globals := RootGlobals(files, root, LaunchScope(names));
    BeginOk(files, root, names, before, false);
    ReachOk(files, globals, false, Begin(root, names, before), steps);
    ReachBlamed(files, globals, Begin(root, names, before), steps);
    var w := Reach(files, globals, Begin(root, names, before), steps);
    var a := w.acts[i];
    var cmd := files[a.path][k].cmd;
    hide Reach;
    if KnownType(files, globals, a, k, cmd.name) {
      WrongTypeIff(files, a.names, w.table, o, cmd);
      if cmd.verb != Spawn && cmd.name !in a.names { KnownIsGlobal(files, globals, w, i, k); }
    }
    hide Run, WorldOk, RootGlobals, Own, KnownType;
  }

  lemma WrongTypeIff(files: Files, names: Names, table: Names, o: Answers, cmd: Command)
    requires cmd.Acquire?
    ensures Run(files, names, table, o, cmd) == Stops(WrongType(cmd.name)) <==>
      cmd.verb != Spawn && cmd.name !in names && cmd.name in table && table[cmd.name].rid in o.live
      && TypeOf(table[cmd.name], o.live[table[cmd.name].rid]) != (cmd.mod, cmd.tag)
  {}

  /** A name of known type that the script itself does not have is the root's, and of the line's type. */
  lemma KnownIsGlobal(files: Files, globals: Scope, w: World, i: nat, k: nat)
    requires WorldOk(files, globals, false, w) && i < |w.acts| && About(files, w.acts[i], k) && WellFormed(files)
    requires var cmd := files[w.acts[i].path][k].cmd;
      cmd.Acquire? && cmd.verb != Spawn && cmd.name !in w.acts[i].names && KnownType(files, globals, w.acts[i], k, cmd.name)
    ensures var cmd := files[w.acts[i].path][k].cmd;
      cmd.name in globals && globals[cmd.name] == Name(cmd.mod, cmd.tag, true) && cmd.mod != "" && cmd.tag != ""
  {
    var a := w.acts[i];
    var c, g := At(files, globals, a, k), Against(globals, a.isRoot);
    CleanStep(files, globals, a, k);
    CheckAcquireClean(c, g, a.path, files[a.path][k]);
    assert Parsed(files[a.path][k].cmd);
    hide Clean, CheckLine, Typed;
  }

  /** If all others have the root's types for the root's names, then on every executed line every name whose
      type the preflight knew stands for a binding of that type, and no acquisition meets another. */
  lemma NamesHaveTheirTypes(files: Files, root: Path, names: Names, before: Names, steps: seq<Step>, i: nat, k: nat, n: string)
    requires Tree(files, root, LaunchScope(names)).problems == []
    requires WellFormed(files) && OthersAgree(RootGlobals(files, root, LaunchScope(names)), before, steps)
    requires var w := Reach(files, RootGlobals(files, root, LaunchScope(names)), Begin(root, names, before), steps);
      i < |w.acts| && About(files, w.acts[i], k) && n != "root" && Lookup(w.acts[i].names, w.table, n).Some?
    ensures var globals := RootGlobals(files, root, LaunchScope(names));
      var w := Reach(files, globals, Begin(root, names, before), steps);
      var a := w.acts[i];
      var cmd := files[a.path][k].cmd;
      KnownType(files, globals, a, k, n) ==>
        && Agrees(Visible(At(files, globals, a, k).local, Against(globals, a.isRoot), n).value, Lookup(a.names, w.table, n).value)
        && (cmd.Acquire? && cmd.name == n ==> forall o :: Run(files, a.names, w.table, o, cmd) != Stops(WrongType(n)))
  {
    var globals := RootGlobals(files, root, LaunchScope(names));
    BeginOk(files, root, names, before, true);
    ReachOk(files, globals, true, Begin(root, names, before), steps);
    var w := Reach(files, globals, Begin(root, names, before), steps);
    var a := w.acts[i];
    var c, g := At(files, globals, a, k), Against(globals, a.isRoot);
    var cmd := files[a.path][k].cmd;
    hide Reach;
    LookupAgrees(files, a.names, w.table, c.local, globals, true, a.isRoot, n);
    if cmd.Acquire? && cmd.name == n {
      CleanStep(files, globals, a, k);
      CheckAcquireClean(c, g, a.path, files[a.path][k]);
      assert Parsed(cmd);
      forall o ensures KnownType(files, globals, a, k, n) ==> Run(files, a.names, w.table, o, cmd) != Stops(WrongType(n)) {
        WrongTypeIff(files, a.names, w.table, o, cmd);
      }
    }
    hide Run, Clean, CheckLine, Typed, Covered, Own;
  }

  /** CHILDREN ARE NOT CHECKED. The preflight does not compare types for a child's attach or ensure, so what it
      knew decides at run time: with everybody's types in order, the line gets the child it finds if it states
      the tag that the preflight knew, and is refused if it states another. */
  lemma ChildMeetsItsType(files: Files, root: Path, names: Names, before: Names, steps: seq<Step>, i: nat, k: nat, o: Answers)
    requires Tree(files, root, LaunchScope(names)).problems == []
    requires WellFormed(files) && OthersAgree(RootGlobals(files, root, LaunchScope(names)), before, steps)
    requires var w := Reach(files, RootGlobals(files, root, LaunchScope(names)), Begin(root, names, before), steps);
      i < |w.acts| && About(files, w.acts[i], k) && FindsChild(w, i, o, files[w.acts[i].path][k].cmd)
    ensures var globals := RootGlobals(files, root, LaunchScope(names));
      var w := Reach(files, globals, Begin(root, names, before), steps);
      var a := w.acts[i];
      var cmd := files[a.path][k].cmd;
      KnownType(files, globals, a, k, cmd.name) ==>
        Run(files, a.names, w.table, o, cmd) ==
          if Visible(At(files, globals, a, k).local, Against(globals, a.isRoot), cmd.name).value.tag == cmd.tag
          then Binds(cmd.name, Bound(w.table[cmd.name].rid, cmd.mod, cmd.tag)) else Stops(Failed)
  {
    var globals := RootGlobals(files, root, LaunchScope(names));
    var w := Reach(files, globals, Begin(root, names, before), steps);
    var cmd := files[w.acts[i].path][k].cmd;
    assert Parsed(cmd);
    NamesHaveTheirTypes(files, root, names, before, steps, i, k, cmd.name);
    hide Reach, RootGlobals, Own, Tree;
  }

  /** A child's attach or ensure: its parent is there, and among the globals a child of it under the name, with
      the tag it was bound with. */
  ghost predicate FindsChild(w: World, i: nat, o: Answers, cmd: Command)
    requires i < |w.acts|
  {
    cmd.ChildAcquire? && cmd.verb != Spawn && cmd.name !in w.acts[i].names &&
    var existing := LookupLive(w.acts[i].names, w.table, o.live, cmd.name);
    var parent := LookupLive(w.acts[i].names, w.table, o.live, cmd.parent);
    && existing.Some? && parent.Some? && o.live[existing.value.rid].parent == parent.value.rid
    && o.live[existing.value.rid].tag == existing.value.tag
  }

  lemma CheckAcquireClean(c: Progress, g: Scope, path: Path, line: Line)
    requires line.cmd.Acquire? && CheckLine(c, g, path, line).problems == []
    ensures var have := Visible(c.local, g, line.cmd.name);
      line.cmd.verb != Spawn && have.Some? && have.value.typed ==> have.value == Name(line.cmd.mod, line.cmd.tag, true)
  {
    AcquireClean(c, g, path, line.number, line.cmd);
  }

  lemma {:induction false} DistinctFits(stack: seq<Path>, within: set<Path>)
    requires forall p :: p in stack ==> p in within
    requires forall i, j :: 0 <= i < j < |stack| ==> stack[i] != stack[j]
    ensures |stack| <= |within|
  {
    if stack != [] {
      var last := stack[|stack| - 1];
      DistinctFits(stack[..|stack| - 1], within - {last});
    }
  }

  /** LAUNCHES END. No run nests launches deeper than there are files, so every chain of launches ends. */
  lemma LaunchesAreShallow(files: Files, root: Path, names: Names, before: Names, steps: seq<Step>, i: nat)
    requires Tree(files, root, LaunchScope(names)).problems == []
    requires i < |Reach(files, RootGlobals(files, root, LaunchScope(names)), Begin(root, names, before), steps).acts|
    ensures |Reach(files, RootGlobals(files, root, LaunchScope(names)), Begin(root, names, before), steps).acts[i].stack| < |files|
  {
    var globals := RootGlobals(files, root, LaunchScope(names));
    BeginOk(files, root, names, before, false);
    ReachOk(files, globals, false, Begin(root, names, before), steps);
    var a := Reach(files, globals, Begin(root, names, before), steps).acts[i];
    assert ActOk(files, globals, false, a);
    DistinctFits(a.stack, files.Keys - {a.path});
    assert |files| == |files.Keys|;
  }

  // ---- Nothing runs after an exit ------------------------------------------------------------------------

  /** No line before the one an activation has reached is an exit. */
  ghost predicate NoExitBehind(files: Files, a: Activation) {
    a.phase.Running? && a.path in files ==> forall j :: 0 <= j < a.phase.k && j < |files[a.path]| ==> !files[a.path][j].cmd.Exit?
  }

  lemma ExecutePassesNoExit(files: Files, globals: Scope, w: World, i: nat, o: Answers, k: nat)
    requires i < |w.acts| && Placed(files, w.acts[i]) && w.acts[i].phase == Running(k) && k < |files[w.acts[i].path]|
    requires NoExitBehind(files, w.acts[i])
    ensures NoExitBehind(files, Execute(files, globals, w, i, o, k).acts[i])
  {
    hide RunLaunch, RunAcquire, RunChildAcquire, RunReceiver, Handed, Local;
  }

  lemma NextPassesNoExit(files: Files, globals: Scope, w: World, s: Step)
    requires forall a :: a in w.acts ==> NoExitBehind(files, a)
    ensures forall a :: a in Next(files, globals, w, s).acts ==> NoExitBehind(files, a)
  {
    var w' := Next(files, globals, w, s);
    NextFrame(files, globals, w, s);
    if s.Act? && s.i < |w.acts| && Placed(files, w.acts[s.i]) && w.acts[s.i].phase.Running? && w.acts[s.i].phase.k < |files[w.acts[s.i].path]| {
      assert w.acts[s.i] in w.acts;
      ExecutePassesNoExit(files, globals, w, s.i, s.answers, w.acts[s.i].phase.k);
    }
    hide Run, Local, LookupLive, Handed;
    forall j | 0 <= j < |w'.acts|
      ensures NoExitBehind(files, w'.acts[j])
    {
      assert j < |w.acts| ==> w.acts[j] in w.acts;
    }
  }

  /** In every run, nothing after an `exit` line is ever executed, preflighted or not. */
  lemma {:induction false} NothingRunsAfterExit(files: Files, globals: Scope, w: World, steps: seq<Step>)
    requires forall a :: a in w.acts ==> NoExitBehind(files, a)
    ensures forall a :: a in Reach(files, globals, w, steps).acts ==> NoExitBehind(files, a)
    decreases |steps|
  {
    if steps != [] {
      NothingRunsAfterExit(files, globals, w, steps[..|steps| - 1]);
      NextPassesNoExit(files, globals, Reach(files, globals, w, steps[..|steps| - 1]), steps[|steps| - 1]);
    }
  }
}
