/** Whole-tree script preflight (core/CommandExecutor.h:767-1105): what is checked before anything runs.

    Script files are a finite map from path to parsed lines, blank lines and comments already dropped
    (core/CommandExecutor.h:752-765); a launch line carries the path its script resolves to. The methods
    at the end are the source's loops; the functions before them are what they are proved to compute. */
module Preflight {

  type Path = string

  datatype Verb = Spawn | Attach | Ensure

  /** `childKey=parentKey` on a launch line. */
  datatype Binding = Binding(childKey: string, parentKey: string)

  datatype Command =
    | Requires(name: string)
    | Acquire(verb: Verb, mod: string, tag: string, name: string)
    | ChildAcquire(verb: Verb, parent: string, mod: string, tag: string, name: string)
    | Action(receiver: string, stream: bool, consumer: string)
    | Kill(receiver: string)
    | Unflag(receiver: string)
    | Launch(script: Path, bindings: seq<Binding>, detached: bool)
    | Exit
    | Malformed(message: string)

  datatype Line = Line(number: nat, cmd: Command)

  type Files = map<Path, seq<Line>>

  /** PreflightName: `typed` is false for a `requires` name, which states no type. */
  datatype Name = Name(mod: string, tag: string, typed: bool)

  const Untyped := Name("", "", false)

  type Scope = map<string, Name>

  datatype Option<T> = None | Some(value: T)

  datatype Problem =
    | Cycle(chain: seq<Path>, path: Path)
    | CannotOpen(path: Path)
    | ParseError(path: Path, line: nat)
    | IntroducedTwice(path: Path, line: nat, name: string)
    | OtherTypeInRoot(path: Path, line: nat, name: string)
    | RequiresNothing(path: Path, line: nat, name: string)
    | NeverIntroduced(path: Path, line: nat, name: string)
    | Clobbers(path: Path, line: nat, name: string)
    | NothingToAttach(path: Path, line: nat, name: string)
    | OtherType(path: Path, line: nat, name: string)
    | BadBinding(path: Path, line: nat, name: string)

  /** problems refuse; a note, here the line that shadows a name of the root, does not. */
  datatype Report = Report(problems: seq<Problem>, notes: seq<(Path, nat, string)>)

  /** What checking one script has got to: its names, those it introduced itself, and the report. */
  datatype Progress = Progress(local: Scope, introduced: set<string>, problems: seq<Problem>, notes: seq<(Path, nat, string)>)

  // ---- One line ------------------------------------------------------------------------------------

  /** Locals shadow globals; there is nothing in between. */
  function Visible(local: Scope, globals: Scope, n: string): Option<Name> {
    if n in local then Some(local[n])
    else if n in globals then Some(globals[n])
    else None
  }

  function Complain(c: Progress, when: bool, p: Problem): Progress {
    if when then c.(problems := c.problems + [p]) else c
  }

  function Differ(a: Name, b: Name): bool {
    a.mod != b.mod || a.tag != b.tag
  }

  /** `quiet`: the type mismatch has been reported. `clash`: any clash at all has been (spawn). */
  function Introduce(c: Progress, globals: Scope, path: Path, line: nat, n: string, pn: Name, quiet: bool, clash: bool): Progress {
    if n in c.introduced then c.(problems := c.problems + [IntroducedTwice(path, line, n)])
    else
      var both := !clash && n in globals && pn.typed && globals[n].typed;
      var differ := both && Differ(globals[n], pn);
      var c1 := Complain(c, differ && !quiet, OtherTypeInRoot(path, line, n));
      c1.(introduced := c.introduced + {n}, local := c.local[n := pn],
          notes := if both && !differ then c.notes + [(path, line, n)] else c.notes)
  }

  function Require(c: Progress, globals: Scope, path: Path, line: nat, n: string): Progress {
    var have := Visible(c.local, globals, n);
    var c1 := Complain(c, have.None?, RequiresNothing(path, line, n));
    Introduce(c1, globals, path, line, n, if have.Some? then have.value else Untyped, false, false)
  }

  function Receiver(c: Progress, globals: Scope, path: Path, line: nat, n: string): Progress {
    Complain(c, Visible(c.local, globals, n).None?, NeverIntroduced(path, line, n))
  }

  function CheckAcquire(c: Progress, globals: Scope, path: Path, line: nat, a: Command): Progress
    requires a.Acquire?
  {
    var have := Visible(c.local, globals, a.name);
    var pn := Name(a.mod, a.tag, true);
    var mismatch := have.Some? && have.value.typed && Differ(have.value, pn);
    var c1 := match a.verb
      case Spawn => Complain(c, have.Some?, Clobbers(path, line, a.name))
      case Attach => Complain(Complain(c, have.None?, NothingToAttach(path, line, a.name)), mismatch, OtherType(path, line, a.name))
      case Ensure => Complain(c, mismatch, OtherType(path, line, a.name));
    Introduce(c1, globals, path, line, a.name, pn, a.verb != Spawn, a.verb == Spawn)
  }

  function CheckChildAcquire(c: Progress, globals: Scope, path: Path, line: nat, a: Command): Progress
    requires a.ChildAcquire?
  {
    var c1 := Receiver(c, globals, path, line, a.parent);
    var have := Visible(c1.local, globals, a.name);
    var c2 := match a.verb
      case Spawn => Complain(c1, have.Some?, Clobbers(path, line, a.name))
      case Attach => Complain(c1, have.None?, NothingToAttach(path, line, a.name))
      case Ensure => c1;
    Introduce(c2, globals, path, line, a.name, Name(a.mod, a.tag, true), a.verb != Spawn, a.verb == Spawn)
  }

  function CheckBindings(c: Progress, globals: Scope, path: Path, line: nat, bindings: seq<Binding>): Progress {
    if bindings == [] then c
    else
      var rest, b := bindings[..|bindings| - 1], bindings[|bindings| - 1];
      Complain(CheckBindings(c, globals, path, line, rest), Visible(c.local, globals, b.parentKey).None?, BadBinding(path, line, b.parentKey))
  }

  /** The names handed to a launched script, with whatever type the launching script knows for them. */
  function Handed(local: Scope, globals: Scope, bindings: seq<Binding>): Scope {
    if bindings == [] then map[]
    else
      var rest, b := bindings[..|bindings| - 1], bindings[|bindings| - 1];
      var have := Visible(local, globals, b.parentKey);
      if have.None? then Handed(local, globals, rest) else Handed(local, globals, rest)[b.childKey := have.value]
  }

  /** Everything on a line but the recursion into the script it launches. */
  function CheckLine(c: Progress, globals: Scope, path: Path, line: Line): Progress {
    match line.cmd
    case Malformed(_) => c.(problems := c.problems + [ParseError(path, line.number)])
    case Acquire(_, _, _, _) => CheckAcquire(c, globals, path, line.number, line.cmd)
    case ChildAcquire(_, _, _, _, _) => CheckChildAcquire(c, globals, path, line.number, line.cmd)
    case Action(receiver, stream, consumer) =>
      var c1 := Receiver(c, globals, path, line.number, receiver);
      if stream then Receiver(c1, globals, path, line.number, consumer) else c1
    case Kill(receiver) => Receiver(c, globals, path, line.number, receiver)
    case Unflag(receiver) => Receiver(c, globals, path, line.number, receiver)
    case Launch(_, bindings, _) => CheckBindings(c, globals, path, line.number, bindings)
    case Requires(_) => c
    case Exit => c
  }

  /** Pass 1, over the first n lines: `requires` is whole-file. */
  function PassOne(c: Progress, globals: Scope, path: Path, lines: seq<Line>, n: nat): Progress
    requires n <= |lines|
  {
    if n == 0 then c
    else
      var before := PassOne(c, globals, path, lines, n - 1);
      var line := lines[n - 1];
      if line.cmd.Requires? then Require(before, globals, path, line.number, line.cmd.name) else before
  }

  // ---- One script, and whatever it launches ----------------------------------------------------------

  /** The files the recursion has not been through. */
  function Left(files: Files, stack: seq<Path>): set<Path> {
    files.Keys - set p | p in stack
  }

  /** What a script compares against: the root's globals are its own names, so it has none. */
  function Against(globals: Scope, isRoot: bool): Scope {
    if isRoot then map[] else globals
  }

  function Started(files: Files, path: Path, provided: Scope, globals: Scope, isRoot: bool): Progress
    requires path in files
  {
    PassOne(Progress(provided, {}, [], []), Against(globals, isRoot), path, files[path], |files[path]|)
  }

  /** Checking the script at `path` with these names, launched through the scripts on the stack. */
  function One(files: Files, path: Path, provided: Scope, globals: Scope, stack: seq<Path>, isRoot: bool): Report
    decreases |Left(files, stack)|, 1, 0
  {
    if path in stack then Report([Cycle(stack, path)], [])
    else if path !in files then Report([CannotOpen(path)], [])
    else
      var c := PassTwo(files, path, provided, globals, stack, isRoot, |files[path]|);
      Report(c.problems, c.notes)
  }

  /** Pass 2, over the first n lines. */
  function PassTwo(files: Files, path: Path, provided: Scope, globals: Scope, stack: seq<Path>, isRoot: bool, n: nat): Progress
    requires path in files && path !in stack && n <= |files[path]|
    decreases |Left(files, stack)|, 0, n
  {
    if n == 0 then Started(files, path, provided, globals, isRoot)
    else
      var before := PassTwo(files, path, provided, globals, stack, isRoot, n - 1);
      var line := files[path][n - 1];
      var c := CheckLine(before, Against(globals, isRoot), path, line);
      if line.cmd.Launch? then
        LeftShrinks(files, stack, path);
        var child := One(files, line.cmd.script, Handed(before.local, Against(globals, isRoot), line.cmd.bindings), globals, stack + [path], false);
        c.(problems := c.problems + child.problems, notes := c.notes + child.notes)
      else c
  }

  /** The script's own lines alone: pass 2 without the scripts it launches. */
  function Own(files: Files, path: Path, provided: Scope, globals: Scope, isRoot: bool, n: nat): Progress
    requires path in files && n <= |files[path]|
  {
    if n == 0 then Started(files, path, provided, globals, isRoot)
    else CheckLine(Own(files, path, provided, globals, isRoot, n - 1), Against(globals, isRoot), path, files[path][n - 1])
  }

  lemma LeftShrinks(files: Files, stack: seq<Path>, path: Path)
    requires path in files && path !in stack
    ensures |Left(files, stack + [path])| < |Left(files, stack)|
  {
    assert Left(files, stack + [path]) == Left(files, stack) - {path};
  }

  /** The root's own names, over its first n lines: the globals every script below it can see. */
  function Globals(launch: Scope, lines: seq<Line>, n: nat): Scope
    requires n <= |lines|
  {
    if n == 0 then launch
    else
      var before := Globals(launch, lines, n - 1);
      match lines[n - 1].cmd
      case Acquire(_, mod, tag, name) => before[name := Name(mod, tag, true)]
      case ChildAcquire(_, _, mod, tag, name) => before[name := Name(mod, tag, true)]
      case Requires(name) => if name in before then before else before[name := Untyped]
      case _ => before
  }

  function RootGlobals(files: Files, root: Path, launch: Scope): Scope
    requires root in files
  {
    Globals(launch, files[root], |files[root]|)
  }

  function Tree(files: Files, root: Path, launch: Scope): Report {
    if root !in files then Report([CannotOpen(root)], [])
    else One(files, root, launch, RootGlobals(files, root, launch), [], true)
  }

  // ---- Cycles ----------------------------------------------------------------------------------------

  ghost predicate LaunchedAt(files: Files, p: Path, i: nat, q: Path) {
    p in files && i < |files[p]| && files[p][i].cmd.Launch? && files[p][i].cmd.script == q
  }

  /** p's file has a line that launches q. */
  ghost predicate Launches(files: Files, p: Path, q: Path) {
    exists i: nat :: LaunchedAt(files, p, i, q)
  }

  /** A chain of launches, each script launched by the one before it. */
  ghost predicate Chain(files: Files, w: seq<Path>) {
    w != [] && forall i :: 0 <= i < |w| - 1 ==> Launches(files, w[i], w[i + 1])
  }

  ghost predicate HasCycle(problems: seq<Problem>) {
    exists p :: p in problems && p.Cycle?
  }

  /** A chain from `path` comes back to the stack, or to itself. */
  ghost predicate Returns(files: Files, path: Path, stack: seq<Path>, w: seq<Path>) {
    Chain(files, w) && w[0] == path && (w[|w| - 1] in stack || w[|w| - 1] in w[..|w| - 1])
  }

  lemma HasCycleJoin(a: seq<Problem>, b: seq<Problem>)
    ensures HasCycle(a + b) <==> HasCycle(a) || HasCycle(b)
  {
    assert forall p :: p in a + b <==> p in a || p in b;
  }

  /** The second list is the first with problems other than cycles appended. */
  ghost predicate Appends(a: seq<Problem>, b: seq<Problem>) {
    |a| <= |b| && a == b[..|a|] && forall i :: |a| <= i < |b| ==> !b[i].Cycle?
  }

  lemma AppendsTrans(a: seq<Problem>, b: seq<Problem>, c: seq<Problem>)
    requires Appends(a, b) && Appends(b, c)
    ensures Appends(a, c)
  {
    assert a == c[..|b|][..|a|] == c[..|a|];
    forall i | |a| <= i < |c|
      ensures !c[i].Cycle?
    {
      assert i < |b| ==> c[i] == c[..|b|][i] == b[i];
    }
  }

  lemma AppendsCycle(a: seq<Problem>, b: seq<Problem>)
    requires Appends(a, b)
    ensures HasCycle(a) <==> HasCycle(b)
  {
    if p :| p in a && p.Cycle? {
      assert p in b[..|a|];
      assert p in b;
    }
    if p :| p in b && p.Cycle? {
      var i :| 0 <= i < |b| && b[i] == p;
      assert b[i] == a[i];
    }
  }

  lemma IntroduceAppends(c: Progress, globals: Scope, path: Path, line: nat, n: string, pn: Name, quiet: bool, clash: bool)
    ensures Appends(c.problems, Introduce(c, globals, path, line, n, pn, quiet, clash).problems)
  {}

  lemma RequireAppends(c: Progress, globals: Scope, path: Path, line: nat, n: string)
    ensures Appends(c.problems, Require(c, globals, path, line, n).problems)
  {
    var have := Visible(c.local, globals, n);
    var c1 := Complain(c, have.None?, RequiresNothing(path, line, n));
    IntroduceAppends(c1, globals, path, line, n, if have.Some? then have.value else Untyped, false, false);
    AppendsTrans(c.problems, c1.problems, Require(c, globals, path, line, n).problems);
  }

  lemma AcquireAppends(c: Progress, globals: Scope, path: Path, line: nat, a: Command)
    requires a.Acquire?
    ensures Appends(c.problems, CheckAcquire(c, globals, path, line, a).problems)
  {
    var have := Visible(c.local, globals, a.name);
    var pn := Name(a.mod, a.tag, true);
    var mismatch := have.Some? && have.value.typed && Differ(have.value, pn);
    var c1 := match a.verb
      case Spawn => Complain(c, have.Some?, Clobbers(path, line, a.name))
      case Attach => Complain(Complain(c, have.None?, NothingToAttach(path, line, a.name)), mismatch, OtherType(path, line, a.name))
      case Ensure => Complain(c, mismatch, OtherType(path, line, a.name));
    assert Appends(c.problems, c1.problems);
    IntroduceAppends(c1, globals, path, line, a.name, pn, a.verb != Spawn, a.verb == Spawn);
    AppendsTrans(c.problems, c1.problems, CheckAcquire(c, globals, path, line, a).problems);
  }

  lemma ChildAcquireAppends(c: Progress, globals: Scope, path: Path, line: nat, a: Command)
    requires a.ChildAcquire?
    ensures Appends(c.problems, CheckChildAcquire(c, globals, path, line, a).problems)
  {
    var c1 := Receiver(c, globals, path, line, a.parent);
    var have := Visible(c1.local, globals, a.name);
    var c2 := match a.verb
      case Spawn => Complain(c1, have.Some?, Clobbers(path, line, a.name))
      case Attach => Complain(c1, have.None?, NothingToAttach(path, line, a.name))
      case Ensure => c1;
    assert Appends(c.problems, c2.problems);
    IntroduceAppends(c2, globals, path, line, a.name, Name(a.mod, a.tag, true), a.verb != Spawn, a.verb == Spawn);
    AppendsTrans(c.problems, c2.problems, CheckChildAcquire(c, globals, path, line, a).problems);
  }

  lemma {:induction false} BindingsAppend(c: Progress, globals: Scope, path: Path, line: nat, bindings: seq<Binding>)
    ensures var c' := CheckBindings(c, globals, path, line, bindings);
      Appends(c.problems, c'.problems) && c' == c.(problems := c'.problems)
  {
    if bindings != [] {
      var rest := bindings[..|bindings| - 1];
      BindingsAppend(c, globals, path, line, rest);
      AppendsTrans(c.problems, CheckBindings(c, globals, path, line, rest).problems, CheckBindings(c, globals, path, line, bindings).problems);
    }
  }

  /** A line by itself only appends to the report, and never a cycle. */
  lemma LineAppends(c: Progress, globals: Scope, path: Path, line: Line)
    ensures Appends(c.problems, CheckLine(c, globals, path, line).problems)
  {
    hide CheckAcquire, CheckChildAcquire, CheckBindings;
    match line.cmd {
      case Acquire(_, _, _, _) => AcquireAppends(c, globals, path, line.number, line.cmd);
      case ChildAcquire(_, _, _, _, _) => ChildAcquireAppends(c, globals, path, line.number, line.cmd);
      case Launch(_, bindings, _) => BindingsAppend(c, globals, path, line.number, bindings);
      case _ =>
    }
  }

  lemma {:induction false} PassOneAppends(c: Progress, globals: Scope, path: Path, lines: seq<Line>, n: nat)
    requires n <= |lines|
    ensures Appends(c.problems, PassOne(c, globals, path, lines, n).problems)
  {
    if n > 0 {
      var before := PassOne(c, globals, path, lines, n - 1);
      PassOneAppends(c, globals, path, lines, n - 1);
      if lines[n - 1].cmd.Requires? {
        RequireAppends(before, globals, path, lines[n - 1].number, lines[n - 1].cmd.name);
        AppendsTrans(c.problems, before.problems, PassOne(c, globals, path, lines, n).problems);
      }
    }
  }

  /** Alike but for the notes, which nothing depends on. */
  ghost predicate Alike(c: Progress, d: Progress) {
    c.local == d.local && c.introduced == d.introduced && c.problems == d.problems
  }

  lemma {:induction false} BindingsAlike(c: Progress, d: Progress, globals: Scope, path: Path, line: nat, bindings: seq<Binding>)
    requires Alike(c, d)
    ensures Alike(CheckBindings(c, globals, path, line, bindings), CheckBindings(d, globals, path, line, bindings))
  {
    if bindings != [] {
      BindingsAlike(c, d, globals, path, line, bindings[..|bindings| - 1]);
    }
  }

  lemma IntroduceAlike(c: Progress, d: Progress, globals: Scope, path: Path, line: nat, n: string, pn: Name, quiet: bool, clash: bool)
    requires Alike(c, d)
    ensures Alike(Introduce(c, globals, path, line, n, pn, quiet, clash), Introduce(d, globals, path, line, n, pn, quiet, clash))
  {}

  lemma AcquireAlike(c: Progress, d: Progress, globals: Scope, path: Path, line: nat, a: Command)
    requires Alike(c, d) && a.Acquire?
    ensures Alike(CheckAcquire(c, globals, path, line, a), CheckAcquire(d, globals, path, line, a))
  {
    var have := Visible(c.local, globals, a.name);
    var pn := Name(a.mod, a.tag, true);
    var mismatch := have.Some? && have.value.typed && Differ(have.value, pn);
    match a.verb {
      case Spawn =>
        IntroduceAlike(Complain(c, have.Some?, Clobbers(path, line, a.name)), Complain(d, have.Some?, Clobbers(path, line, a.name)),
                       globals, path, line, a.name, pn, false, true);
      case Attach =>
        IntroduceAlike(Complain(Complain(c, have.None?, NothingToAttach(path, line, a.name)), mismatch, OtherType(path, line, a.name)),
                       Complain(Complain(d, have.None?, NothingToAttach(path, line, a.name)), mismatch, OtherType(path, line, a.name)),
                       globals, path, line, a.name, pn, true, false);
      case Ensure =>
        IntroduceAlike(Complain(c, mismatch, OtherType(path, line, a.name)), Complain(d, mismatch, OtherType(path, line, a.name)),
                       globals, path, line, a.name, pn, true, false);
    }
    hide Introduce, Visible;
  }

  lemma ChildAcquireAlike(c: Progress, d: Progress, globals: Scope, path: Path, line: nat, a: Command)
    requires Alike(c, d) && a.ChildAcquire?
    ensures Alike(CheckChildAcquire(c, globals, path, line, a), CheckChildAcquire(d, globals, path, line, a))
  {
    var c1, d1 := Receiver(c, globals, path, line, a.parent), Receiver(d, globals, path, line, a.parent);
    var have := Visible(c.local, globals, a.name);
    var complaint := if a.verb == Spawn then Clobbers(path, line, a.name) else NothingToAttach(path, line, a.name);
    var when := if a.verb == Spawn then have.Some? else a.verb == Attach && have.None?;
    IntroduceAlike(Complain(c1, when, complaint), Complain(d1, when, complaint),
                   globals, path, line, a.name, Name(a.mod, a.tag, true), a.verb != Spawn, a.verb == Spawn);
    hide Introduce, Visible;
  }

  lemma LinesAlike(c: Progress, d: Progress, globals: Scope, path: Path, line: Line)
    requires Alike(c, d)
    ensures Alike(CheckLine(c, globals, path, line), CheckLine(d, globals, path, line))
  {
    hide CheckAcquire, CheckChildAcquire, CheckBindings;
    match line.cmd {
      case Acquire(_, _, _, _) => AcquireAlike(c, d, globals, path, line.number, line.cmd);
      case ChildAcquire(_, _, _, _, _) => ChildAcquireAlike(c, d, globals, path, line.number, line.cmd);
      case Launch(_, bindings, _) => BindingsAlike(c, d, globals, path, line.number, bindings);
      case _ =>
    }
  }

  /** As long as nothing is reported, the two passes over a script agree with its own lines. */
  lemma {:induction false} OwnIsPassTwo(files: Files, path: Path, provided: Scope, globals: Scope, stack: seq<Path>, isRoot: bool, n: nat)
    requires path in files && path !in stack && n <= |files[path]|
    requires PassTwo(files, path, provided, globals, stack, isRoot, n).problems == []
    ensures Alike(PassTwo(files, path, provided, globals, stack, isRoot, n), Own(files, path, provided, globals, isRoot, n))
    decreases n
  {
    if n > 0 {
      var before := PassTwo(files, path, provided, globals, stack, isRoot, n - 1);
      var line := files[path][n - 1];
      LineAppends(before, Against(globals, isRoot), path, line);
      OwnIsPassTwo(files, path, provided, globals, stack, isRoot, n - 1);
      LinesAlike(before, Own(files, path, provided, globals, isRoot, n - 1), Against(globals, isRoot), path, line);
      hide CheckLine, One;
    }
  }

  lemma {:induction false} CycleReportedIff(files: Files, path: Path, provided: Scope, globals: Scope, stack: seq<Path>, isRoot: bool)
    ensures HasCycle(One(files, path, provided, globals, stack, isRoot).problems) <==> exists w :: Returns(files, path, stack, w)
    decreases |Left(files, stack)|, 1, 0
  {
    if path in stack {
      assert Cycle(stack, path) in One(files, path, provided, globals, stack, isRoot).problems;
      assert Returns(files, path, stack, [path]);
    } else if path !in files {
      NowhereToGo(files, path, stack);
    } else {
      CycleByLine(files, path, provided, globals, stack, isRoot, |files[path]|);
      ReturnsByLine(files, path, stack);
    }
  }

  lemma NowhereToGo(files: Files, path: Path, stack: seq<Path>)
    requires path !in files && path !in stack
    ensures forall w :: !Returns(files, path, stack, w)
  {
    forall w | Chain(files, w) && w[0] == path
      ensures |w| == 1
    {
      assert |w| > 1 ==> Launches(files, w[0], w[0 + 1]);
    }
  }

  /** A chain through one of the first n lines returns. */
  ghost predicate ReturnsVia(files: Files, path: Path, stack: seq<Path>, n: nat) {
    exists i: nat :: i < n && ReturnsFrom(files, path, stack, i)
  }

  ghost predicate ReturnsFrom(files: Files, path: Path, stack: seq<Path>, i: nat) {
    exists w :: LaunchedVia(files, path, stack, i, w)
  }

  ghost predicate LaunchedVia(files: Files, path: Path, stack: seq<Path>, i: nat, w: seq<Path>) {
    && path in files && i < |files[path]| && files[path][i].cmd.Launch?
    && Returns(files, files[path][i].cmd.script, stack + [path], w)
  }

  lemma {:induction false} CycleByLine(files: Files, path: Path, provided: Scope, globals: Scope, stack: seq<Path>, isRoot: bool, n: nat)
    requires path in files && path !in stack && n <= |files[path]|
    ensures HasCycle(PassTwo(files, path, provided, globals, stack, isRoot, n).problems) <==> ReturnsVia(files, path, stack, n)
    decreases |Left(files, stack)|, 0, n
  {
    if n == 0 {
      PassOneAppends(Progress(provided, {}, [], []), Against(globals, isRoot), path, files[path], |files[path]|);
      AppendsCycle([], PassTwo(files, path, provided, globals, stack, isRoot, n).problems);
    } else {
      var before := PassTwo(files, path, provided, globals, stack, isRoot, n - 1);
      var line := files[path][n - 1];
      CycleByLine(files, path, provided, globals, stack, isRoot, n - 1);
      FromLine(files, path, stack, n - 1);
      LineAppends(before, Against(globals, isRoot), path, line);
      AppendsCycle(before.problems, CheckLine(before, Against(globals, isRoot), path, line).problems);
      if line.cmd.Launch? {
        var handed := Handed(before.local, Against(globals, isRoot), line.cmd.bindings);
        LeftShrinks(files, stack, path);
        CycleReportedIff(files, line.cmd.script, handed, globals, stack + [path], false);
        var c := CheckLine(before, Against(globals, isRoot), path, line);
        HasCycleJoin(c.problems, One(files, line.cmd.script, handed, globals, stack + [path], false).problems);
      }
    }
  }

  lemma FromLine(files: Files, path: Path, stack: seq<Path>, i: nat)
    requires path in files && i < |files[path]|
    ensures ReturnsFrom(files, path, stack, i) <==>
      files[path][i].cmd.Launch? && exists w :: Returns(files, files[path][i].cmd.script, stack + [path], w)
  {
    if files[path][i].cmd.Launch? {
      if w :| Returns(files, files[path][i].cmd.script, stack + [path], w) {
        assert LaunchedVia(files, path, stack, i, w);
      }
    }
  }

  lemma ReturnsByLine(files: Files, path: Path, stack: seq<Path>)
    requires path in files && path !in stack
    ensures (exists w :: Returns(files, path, stack, w)) <==> ReturnsVia(files, path, stack, |files[path]|)
  {
    if w :| Returns(files, path, stack, w) {
      ReturnStepsDown(files, path, stack, w);
    }
    if ReturnsVia(files, path, stack, |files[path]|) {
      var i: nat :| i < |files[path]| && ReturnsFrom(files, path, stack, i);
      var w :| LaunchedVia(files, path, stack, i, w);
      ReturnStepsUp(files, path, stack, i, w);
    }
  }

  lemma ReturnStepsDown(files: Files, path: Path, stack: seq<Path>, w: seq<Path>)
    requires path in files && path !in stack && Returns(files, path, stack, w)
    ensures ReturnsVia(files, path, stack, |files[path]|)
  {
    assert |w| > 1;
    var rest, last := w[1..], w[|w| - 1];
    assert Launches(files, w[0], w[0 + 1]);
    var i: nat :| LaunchedAt(files, path, i, rest[0]);
    forall k | 0 <= k < |rest| - 1
      ensures Launches(files, rest[k], rest[k + 1])
    {
      assert Launches(files, w[k + 1], w[k + 1 + 1]);
    }
    assert w[..|w| - 1] == [path] + rest[..|rest| - 1];
    assert Returns(files, rest[0], stack + [path], rest);
    assert LaunchedVia(files, path, stack, i, rest);
    assert ReturnsFrom(files, path, stack, i);
  }

  lemma ReturnStepsUp(files: Files, path: Path, stack: seq<Path>, i: nat, w: seq<Path>)
    requires LaunchedVia(files, path, stack, i, w)
    ensures Returns(files, path, stack, [path] + w)
  {
    var up := [path] + w;
    assert LaunchedAt(files, path, i, w[0]);
    forall k | 0 <= k < |up| - 1
      ensures Launches(files, up[k], up[k + 1])
    {
      if k > 0 { assert Launches(files, w[k - 1], w[k - 1 + 1]); }
    }
    assert up[..|up| - 1] == [path] + w[..|w| - 1];
    assert path in up[..|up| - 1];
  }

  /** THE CYCLE CHECK IS EXACT: a cycle is reported if and only if some chain of launches from the root
      meets a script twice. */
  lemma TreeCycleIff(files: Files, root: Path, launch: Scope)
    ensures HasCycle(Tree(files, root, launch).problems) <==> exists w :: Returns(files, root, [], w)
  {
    if root in files {
      CycleReportedIff(files, root, launch, RootGlobals(files, root, launch), [], true);
    } else {
      NowhereToGo(files, root, []);
    }
  }
}
