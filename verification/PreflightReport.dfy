/** What the preflight reports, exactly: every problem of the report, and every note, is that of one line of one
    script that some chain of launches comes to, and every such line's problems are in it
    (core/CommandExecutor.h:843-1105).

    The names a script knows at a line are said here without the walk that keeps them: what it was handed,
    what its `requires` lines find, and the types of its first acquisitions. */
module PreflightReport {
  import opened Preflight

  type Note = (Path, nat, string)

  // ---- What a script knows ---------------------------------------------------------------------------

  /** The names that a script has, and those among them that it has introduced. */
  datatype Known = Known(local: Scope, introduced: set<string>)

  predicate Acquisition(cmd: Command) { cmd.Acquire? || cmd.ChildAcquire? }

  /** A `requires` gives the name what it stands for already, the first time. */
  ghost function Learn(k: Known, g: Scope, n: string): Known {
    if n in k.introduced then k
    else Known(k.local[n := if n in k.local then k.local[n] else if n in g then g[n] else Untyped], k.introduced + {n})
  }

  /** An acquisition gives it the type that it states, the first time. */
  ghost function Take(k: Known, cmd: Command): Known {
    if !Acquisition(cmd) || cmd.name in k.introduced then k
    else Known(k.local[cmd.name := Name(cmd.mod, cmd.tag, true)], k.introduced + {cmd.name})
  }

  ghost function Learnt(lines: seq<Line>, provided: Scope, g: Scope, n: nat): Known
    requires n <= |lines|
  {
    if n == 0 then Known(provided, {})
    else
      var k := Learnt(lines, provided, g, n - 1);
      if lines[n - 1].cmd.Requires? then Learn(k, g, lines[n - 1].cmd.name) else k
  }

  /** What is known when the first n lines have been checked, all of the `requires` lines before them. */
  ghost function KnownAt(lines: seq<Line>, provided: Scope, g: Scope, n: nat): Known
    requires n <= |lines|
  {
    if n == 0 then Learnt(lines, provided, g, |lines|) else Take(KnownAt(lines, provided, g, n - 1), lines[n - 1].cmd)
  }

  predicate Sees(k: Known, g: Scope, n: string) { n in k.local || n in g }

  ghost function Meaning(k: Known, g: Scope, n: string): Name
    requires Sees(k, g, n)
  {
    if n in k.local then k.local[n] else g[n]
  }

  // ---- What there is to report of a line -------------------------------------------------------------

  predicate OtherThan(known: Name, mod: string, tag: string) { known.typed && (known.mod != mod || known.tag != tag) }

  /** The names that a line uses as receivers. */
  ghost predicate Calls(cmd: Command, n: string) {
    match cmd
    case ChildAcquire(_, parent, _, _, _) => n == parent
    case Action(receiver, stream, consumer) => n == receiver || (stream && n == consumer)
    case Kill(receiver) => n == receiver
    case Unflag(receiver) => n == receiver
    case _ => false
  }

  /** A problem of a `requires` line: it is there twice, or the name stands for nothing, or it stands for
      something that is of another type in the root. */
  ghost predicate RequireProblem(k: Known, g: Scope, path: Path, line: Line, p: Problem) {
    line.cmd.Requires? &&
    var n := line.cmd.name;
    match p
    case RequiresNothing(_, _, _) => p == RequiresNothing(path, line.number, n) && !Sees(k, g, n)
    case IntroducedTwice(_, _, _) => p == IntroducedTwice(path, line.number, n) && n in k.introduced
    case OtherTypeInRoot(_, _, _) =>
      && p == OtherTypeInRoot(path, line.number, n) && n !in k.introduced && n in k.local && k.local[n].typed && n in g
      && OtherThan(g[n], k.local[n].mod, k.local[n].tag)
    case _ => false
  }

  /** A problem of any other line. */
  ghost predicate LineProblem(k: Known, g: Scope, path: Path, line: Line, p: Problem) {
    var cmd := line.cmd;
    match p
    case ParseError(_, _) => p == ParseError(path, line.number) && cmd.Malformed?
    case NeverIntroduced(_, _, n) => p == NeverIntroduced(path, line.number, n) && Calls(cmd, n) && !Sees(k, g, n)
    case Clobbers(_, _, n) =>
      p == Clobbers(path, line.number, n) && Acquisition(cmd) && cmd.verb == Spawn && cmd.name == n && Sees(k, g, n)
    case NothingToAttach(_, _, n) =>
      p == NothingToAttach(path, line.number, n) && Acquisition(cmd) && cmd.verb == Attach && cmd.name == n && !Sees(k, g, n)
    case OtherType(_, _, n) =>
      && p == OtherType(path, line.number, n) && cmd.Acquire? && cmd.verb != Spawn && cmd.name == n
      && Sees(k, g, n) && OtherThan(Meaning(k, g, n), cmd.mod, cmd.tag)
    case IntroducedTwice(_, _, n) =>
      p == IntroducedTwice(path, line.number, n) && Acquisition(cmd) && cmd.name == n && n in k.introduced
    case BadBinding(_, _, n) =>
      p == BadBinding(path, line.number, n) && cmd.Launch? && (exists b :: b in cmd.bindings && b.parentKey == n) && !Sees(k, g, n)
    case _ => false
  }

  /** A note: a line gives a name of the root a meaning of its own, of the root's type. */
  ghost predicate Shadows(k: Known, g: Scope, n: string, mod: string, tag: string) {
    n !in k.introduced && n in g && g[n].typed && g[n].mod == mod && g[n].tag == tag
  }

  ghost predicate RequireNote(k: Known, g: Scope, path: Path, line: Line, t: Note) {
    && line.cmd.Requires? && t == (path, line.number, line.cmd.name) && Sees(k, g, line.cmd.name)
    && Meaning(k, g, line.cmd.name).typed
    && Shadows(k, g, line.cmd.name, Meaning(k, g, line.cmd.name).mod, Meaning(k, g, line.cmd.name).tag)
  }

  ghost predicate LineNote(k: Known, g: Scope, path: Path, line: Line, t: Note) {
    && Acquisition(line.cmd) && line.cmd.verb != Spawn && t == (path, line.number, line.cmd.name)
    && Shadows(k, g, line.cmd.name, line.cmd.mod, line.cmd.tag)
  }

  // ---- One line of the walk --------------------------------------------------------------------------

  ghost function Names(c: Progress): Known { Known(c.local, c.introduced) }

  lemma RequireSays(c: Progress, g: Scope, path: Path, line: Line, p: Problem, t: Note)
    requires line.cmd.Requires?
    ensures var c' := Require(c, g, path, line.number, line.cmd.name);
      && Names(c') == Learn(Names(c), g, line.cmd.name)
      && (p in c'.problems <==> p in c.problems || RequireProblem(Names(c), g, path, line, p))
      && (t in c'.notes <==> t in c.notes || RequireNote(Names(c), g, path, line, t))
  {}

  lemma VisibleSays(c: Progress, g: Scope, n: string)
    ensures Visible(c.local, g, n).Some? <==> Sees(Names(c), g, n)
    ensures Sees(Names(c), g, n) ==> Visible(c.local, g, n).value == Meaning(Names(c), g, n)
  {}

  lemma ComplainSays(c: Progress, when: bool, q: Problem, p: Problem)
    ensures var c' := Complain(c, when, q);
      Names(c') == Names(c) && c'.notes == c.notes && (p in c'.problems <==> p in c.problems || (when && p == q))
  {}

  lemma IntroduceSays(c: Progress, g: Scope, path: Path, line: nat, n: string, pn: Name, quiet: bool, clash: bool, p: Problem, t: Note)
    ensures var c', k := Introduce(c, g, path, line, n, pn, quiet, clash), Names(c);
      && Names(c') == (if n in k.introduced then k else Known(k.local[n := pn], k.introduced + {n}))
      && (p in c'.problems <==>
            || p in c.problems || (p == IntroducedTwice(path, line, n) && n in k.introduced)
            || (p == OtherTypeInRoot(path, line, n) && !quiet && !clash && n !in k.introduced && n in g && g[n].typed && pn.typed && Differ(g[n], pn)))
      && (t in c'.notes <==> t in c.notes || (t == (path, line, n) && !clash && pn.typed && Shadows(k, g, n, pn.mod, pn.tag)))
  {}

  /** What is known, reported and noted after a line, from what was before it. */
  ghost predicate Follows(c: Progress, c': Progress, g: Scope, path: Path, line: Line, p: Problem, t: Note) {
    && Names(c') == Take(Names(c), line.cmd)
    && (p in c'.problems <==> p in c.problems || LineProblem(Names(c), g, path, line, p))
    && (t in c'.notes <==> t in c.notes || LineNote(Names(c), g, path, line, t))
  }

  /** The problems that an acquisition can have. */
  ghost predicate AcquireProblem(k: Known, g: Scope, path: Path, line: Line, p: Problem)
    requires Acquisition(line.cmd)
  {
    var cmd, n := line.cmd, line.number;
    || (cmd.verb == Spawn && p == Clobbers(path, n, cmd.name) && Sees(k, g, cmd.name))
    || (cmd.verb == Attach && p == NothingToAttach(path, n, cmd.name) && !Sees(k, g, cmd.name))
    || (cmd.Acquire? && cmd.verb != Spawn && p == OtherType(path, n, cmd.name) && Sees(k, g, cmd.name)
        && OtherThan(Meaning(k, g, cmd.name), cmd.mod, cmd.tag))
    || (p == IntroducedTwice(path, n, cmd.name) && cmd.name in k.introduced)
    || (cmd.ChildAcquire? && p == NeverIntroduced(path, n, cmd.parent) && !Sees(k, g, cmd.parent))
  }

  lemma AcquireProblems(k: Known, g: Scope, path: Path, line: Line, p: Problem)
    requires Acquisition(line.cmd)
    ensures LineProblem(k, g, path, line, p) <==> AcquireProblem(k, g, path, line, p)
  {
    hide Sees, Meaning, OtherThan;
  }

  lemma AcquireSays(c: Progress, g: Scope, path: Path, line: Line, p: Problem, t: Note)
    requires line.cmd.Acquire?
    ensures Follows(c, CheckAcquire(c, g, path, line.number, line.cmd), g, path, line, p, t)
  {
    hide Follows;
    match line.cmd.verb {
      case Spawn => SpawnSays(c, g, path, line, p, t);
      case Attach => AttachSays(c, g, path, line, p, t);
      case Ensure => EnsureSays(c, g, path, line, p, t);
    }
  }

  lemma SpawnSays(c: Progress, g: Scope, path: Path, line: Line, p: Problem, t: Note)
    requires line.cmd.Acquire? && line.cmd.verb == Spawn
    ensures Follows(c, CheckAcquire(c, g, path, line.number, line.cmd), g, path, line, p, t)
  {
    var a, n := line.cmd, line.number;
    var clash := Visible(c.local, g, a.name).Some?;
    var c1 := Complain(c, clash, Clobbers(path, n, a.name));
    ComplainSays(c, clash, Clobbers(path, n, a.name), p);
    IntroduceSays(c1, g, path, n, a.name, Name(a.mod, a.tag, true), false, true, p, t);
    AcquireProblems(Names(c), g, path, line, p);
    VisibleSays(c, g, a.name);
    hide Introduce, Shadows, Complain, Visible, Sees, Meaning, LineProblem;
  }

  lemma AttachSays(c: Progress, g: Scope, path: Path, line: Line, p: Problem, t: Note)
    requires line.cmd.Acquire? && line.cmd.verb == Attach
    ensures Follows(c, CheckAcquire(c, g, path, line.number, line.cmd), g, path, line, p, t)
  {
    var a, n := line.cmd, line.number;
    var have, pn := Visible(c.local, g, a.name), Name(a.mod, a.tag, true);
    var mismatch := have.Some? && have.value.typed && Differ(have.value, pn);
    var c0 := Complain(c, have.None?, NothingToAttach(path, n, a.name));
    var c1 := Complain(c0, mismatch, OtherType(path, n, a.name));
    ComplainSays(c, have.None?, NothingToAttach(path, n, a.name), p);
    ComplainSays(c0, mismatch, OtherType(path, n, a.name), p);
    IntroduceSays(c1, g, path, n, a.name, pn, true, false, p, t);
    AcquireProblems(Names(c), g, path, line, p);
    VisibleSays(c, g, a.name);
    hide Introduce, Shadows, Complain, Visible, Sees, Meaning, LineProblem;
  }

  lemma EnsureSays(c: Progress, g: Scope, path: Path, line: Line, p: Problem, t: Note)
    requires line.cmd.Acquire? && line.cmd.verb == Ensure
    ensures Follows(c, CheckAcquire(c, g, path, line.number, line.cmd), g, path, line, p, t)
  {
    var a, n := line.cmd, line.number;
    var have, pn := Visible(c.local, g, a.name), Name(a.mod, a.tag, true);
    var mismatch := have.Some? && have.value.typed && Differ(have.value, pn);
    var c1 := Complain(c, mismatch, OtherType(path, n, a.name));
    ComplainSays(c, mismatch, OtherType(path, n, a.name), p);
    IntroduceSays(c1, g, path, n, a.name, pn, true, false, p, t);
    AcquireProblems(Names(c), g, path, line, p);
    VisibleSays(c, g, a.name);
    hide Introduce, Shadows, Complain, Visible, Sees, Meaning, LineProblem;
  }

  lemma ChildAcquireSays(c: Progress, g: Scope, path: Path, line: Line, p: Problem, t: Note)
    requires line.cmd.ChildAcquire?
    ensures Follows(c, CheckChildAcquire(c, g, path, line.number, line.cmd), g, path, line, p, t)
  {
    var a, n := line.cmd, line.number;
    ReceiverSays(c, g, path, n, a.parent, p);
    var c1 := Receiver(c, g, path, n, a.parent);
    var have := Visible(c1.local, g, a.name);
    var q := if a.verb == Spawn then Clobbers(path, n, a.name) else NothingToAttach(path, n, a.name);
    var when := if a.verb == Spawn then have.Some? else a.verb == Attach && have.None?;
    var c2 := Complain(c1, when, q);
    ComplainSays(c1, when, q, p);
    IntroduceSays(c2, g, path, n, a.name, Name(a.mod, a.tag, true), a.verb != Spawn, a.verb == Spawn, p, t);
    assert CheckChildAcquire(c, g, path, n, a) == Introduce(c2, g, path, n, a.name, Name(a.mod, a.tag, true), a.verb != Spawn, a.verb == Spawn);
    AcquireProblems(Names(c), g, path, line, p);
    VisibleSays(c1, g, a.name);
    hide Introduce, Shadows, Receiver, Complain, CheckChildAcquire, Visible, Sees, Meaning, LineProblem;
  }

  ghost predicate BindingProblem(k: Known, g: Scope, path: Path, line: nat, bindings: seq<Binding>, p: Problem) {
    p.BadBinding? && p.path == path && p.line == line && (exists b :: b in bindings && b.parentKey == p.name) && !Sees(k, g, p.name)
  }

  lemma {:induction false} BindingsSay(c: Progress, g: Scope, path: Path, line: nat, bindings: seq<Binding>, p: Problem)
    ensures var c' := CheckBindings(c, g, path, line, bindings);
      && Names(c') == Names(c) && c'.notes == c.notes
      && (p in c'.problems <==> p in c.problems || BindingProblem(Names(c), g, path, line, bindings, p))
  {
    if bindings != [] {
      var rest, last := bindings[..|bindings| - 1], bindings[|bindings| - 1];
      assert bindings == rest + [last];
      BindingsSay(c, g, path, line, rest, p);
    }
  }

  lemma ReceiverSays(c: Progress, g: Scope, path: Path, line: nat, n: string, p: Problem)
    ensures var c' := Receiver(c, g, path, line, n);
      && Names(c') == Names(c) && c'.notes == c.notes
      && (p in c'.problems <==> p in c.problems || (p == NeverIntroduced(path, line, n) && !Sees(Names(c), g, n)))
  {}

  /** What a line of pass 2 adds to the names, the report and the notes. */
  lemma LineSays(c: Progress, g: Scope, path: Path, line: Line, p: Problem, t: Note)
    ensures Follows(c, CheckLine(c, g, path, line), g, path, line, p, t)
  {
    hide CheckAcquire, CheckChildAcquire, CheckBindings, Receiver, Follows;
    match line.cmd {
      case Acquire(_, _, _, _) => AcquireSays(c, g, path, line, p, t);
      case ChildAcquire(_, _, _, _, _) => ChildAcquireSays(c, g, path, line, p, t);
      case Launch(_, _, _) => LaunchSays(c, g, path, line, p, t);
      case Action(_, _, _) => ActionSays(c, g, path, line, p, t);
      case Kill(receiver) => OneReceiverSays(c, g, path, line, receiver, p, t);
      case Unflag(receiver) => OneReceiverSays(c, g, path, line, receiver, p, t);
      case _ => PlainSays(c, g, path, line, p, t);
    }
  }

  lemma LaunchSays(c: Progress, g: Scope, path: Path, line: Line, p: Problem, t: Note)
    requires line.cmd.Launch?
    ensures Follows(c, CheckBindings(c, g, path, line.number, line.cmd.bindings), g, path, line, p, t)
  {
    BindingsSay(c, g, path, line.number, line.cmd.bindings, p);
    hide CheckBindings, Sees, Meaning;
  }

  lemma ActionSays(c: Progress, g: Scope, path: Path, line: Line, p: Problem, t: Note)
    requires line.cmd.Action?
    ensures Follows(c, CheckLine(c, g, path, line), g, path, line, p, t)
  {
    var c1 := Receiver(c, g, path, line.number, line.cmd.receiver);
    ReceiverSays(c, g, path, line.number, line.cmd.receiver, p);
    ReceiverSays(c1, g, path, line.number, line.cmd.consumer, p);
    hide Receiver, Sees, Meaning;
  }

  lemma OneReceiverSays(c: Progress, g: Scope, path: Path, line: Line, receiver: string, p: Problem, t: Note)
    requires line.cmd == Kill(receiver) || line.cmd == Unflag(receiver)
    ensures Follows(c, Receiver(c, g, path, line.number, receiver), g, path, line, p, t)
  {
    ReceiverSays(c, g, path, line.number, receiver, p);
    hide Receiver, Sees, Meaning;
  }

  lemma PlainSays(c: Progress, g: Scope, path: Path, line: Line, p: Problem, t: Note)
    requires line.cmd.Malformed? || line.cmd.Requires? || line.cmd.Exit?
    ensures Follows(c, CheckLine(c, g, path, line), g, path, line, p, t)
  {}

  // ---- One script ------------------------------------------------------------------------------------

  ghost predicate ScriptProblem(lines: seq<Line>, provided: Scope, g: Scope, path: Path, k: nat, p: Problem)
    requires k < |lines|
  {
    || RequireProblem(Learnt(lines, provided, g, k), g, path, lines[k], p)
    || LineProblem(KnownAt(lines, provided, g, k), g, path, lines[k], p)
  }

  ghost predicate ScriptNote(lines: seq<Line>, provided: Scope, g: Scope, path: Path, k: nat, t: Note)
    requires k < |lines|
  {
    || RequireNote(Learnt(lines, provided, g, k), g, path, lines[k], t)
    || LineNote(KnownAt(lines, provided, g, k), g, path, lines[k], t)
  }

  ghost predicate RequireProblemBefore(lines: seq<Line>, provided: Scope, g: Scope, path: Path, n: nat, p: Problem)
    requires n <= |lines|
  {
    exists k: nat :: k < n && RequireProblem(Learnt(lines, provided, g, k), g, path, lines[k], p)
  }

  ghost predicate RequireNoteBefore(lines: seq<Line>, provided: Scope, g: Scope, path: Path, n: nat, t: Note)
    requires n <= |lines|
  {
    exists k: nat :: k < n && RequireNote(Learnt(lines, provided, g, k), g, path, lines[k], t)
  }

  /** Pass 1. */
  lemma {:induction false} PassOneSays(provided: Scope, g: Scope, path: Path, lines: seq<Line>, n: nat, p: Problem, t: Note)
    requires n <= |lines|
    ensures var c := PassOne(Progress(provided, {}, [], []), g, path, lines, n);
      && Names(c) == Learnt(lines, provided, g, n)
      && (p in c.problems <==> RequireProblemBefore(lines, provided, g, path, n, p))
      && (t in c.notes <==> RequireNoteBefore(lines, provided, g, path, n, t))
  {
    if n > 0 {
      PassOneSays(provided, g, path, lines, n - 1, p, t);
      var c, line := PassOne(Progress(provided, {}, [], []), g, path, lines, n - 1), lines[n - 1];
      if line.cmd.Requires? { RequireSays(c, g, path, line, p, t); }
      hide Require, Learn;
      NextBefore(lines, provided, g, path, n, p, t);
      hide RequireProblemBefore, RequireNoteBefore;
    }
  }

  lemma NextBefore(lines: seq<Line>, provided: Scope, g: Scope, path: Path, n: nat, p: Problem, t: Note)
    requires 0 < n <= |lines|
    ensures var k := Learnt(lines, provided, g, n - 1);
      && (RequireProblemBefore(lines, provided, g, path, n, p) <==>
            RequireProblemBefore(lines, provided, g, path, n - 1, p) || RequireProblem(k, g, path, lines[n - 1], p))
      && (RequireNoteBefore(lines, provided, g, path, n, t) <==>
            RequireNoteBefore(lines, provided, g, path, n - 1, t) || RequireNote(k, g, path, lines[n - 1], t))
  {
    hide RequireProblem, RequireNote, Learnt;
  }

  // ---- The whole tree --------------------------------------------------------------------------------

  /** A script as it is come to: with these names, through these scripts. */
  datatype Place = Place(path: Path, provided: Scope, stack: seq<Path>, isRoot: bool)

  ghost predicate Open(files: Files, v: Place) { v.path in files && v.path !in v.stack }

  ghost function At(files: Files, globals: Scope, v: Place, k: nat): Known
    requires Open(files, v) && k <= |files[v.path]|
  {
    KnownAt(files[v.path], v.provided, Against(globals, v.isRoot), k)
  }

  ghost predicate LaunchLine(files: Files, v: Place, k: nat) {
    Open(files, v) && k < |files[v.path]| && files[v.path][k].cmd.Launch?
  }

  /** What line k launches, and with what names. */
  ghost function Next(files: Files, globals: Scope, v: Place, k: nat): Place
    requires LaunchLine(files, v, k)
  {
    var cmd := files[v.path][k].cmd;
    Place(cmd.script, Handed(At(files, globals, v, k).local, Against(globals, v.isRoot), cmd.bindings), v.stack + [v.path], false)
  }

  /** The launch lines of the trail lead from one place to the other. */
  ghost predicate Leads(files: Files, globals: Scope, v: Place, trail: seq<nat>, u: Place)
    decreases |trail|
  {
    if trail == [] then u == v
    else LaunchLine(files, v, trail[0]) && Leads(files, globals, Next(files, globals, v, trail[0]), trail[1..], u)
  }

  /** The problems of one place: it closes a cycle, it cannot be opened, or one of its lines has them. */
  ghost predicate PlaceProblem(files: Files, globals: Scope, v: Place, p: Problem) {
    if v.path in v.stack then p == Cycle(v.stack, v.path)
    else if v.path !in files then p == CannotOpen(v.path)
    else exists k: nat :: k < |files[v.path]| && ScriptProblem(files[v.path], v.provided, Against(globals, v.isRoot), v.path, k, p)
  }

  ghost predicate PlaceNote(files: Files, globals: Scope, v: Place, t: Note) {
    && Open(files, v)
    && exists k: nat :: k < |files[v.path]| && ScriptNote(files[v.path], v.provided, Against(globals, v.isRoot), v.path, k, t)
  }

  ghost predicate Reported(files: Files, globals: Scope, v: Place, p: Problem) {
    exists trail, u :: Leads(files, globals, v, trail, u) && PlaceProblem(files, globals, u, p)
  }

  ghost predicate Noted(files: Files, globals: Scope, v: Place, t: Note) {
    exists trail, u :: Leads(files, globals, v, trail, u) && PlaceNote(files, globals, u, t)
  }

  /** What is reported of the first n lines, and of what they launch. */
  ghost predicate ReportedBefore(files: Files, globals: Scope, v: Place, n: nat, p: Problem)
    requires Open(files, v) && n <= |files[v.path]|
  {
    var lines, g := files[v.path], Against(globals, v.isRoot);
    || RequireProblemBefore(lines, v.provided, g, v.path, |lines|, p)
    || exists k: nat :: k < n && ReportedAt(files, globals, v, k, p)
  }

  ghost predicate ReportedAt(files: Files, globals: Scope, v: Place, k: nat, p: Problem)
    requires Open(files, v) && k < |files[v.path]|
  {
    || LineProblem(At(files, globals, v, k), Against(globals, v.isRoot), v.path, files[v.path][k], p)
    || (LaunchLine(files, v, k) && Reported(files, globals, Next(files, globals, v, k), p))
  }

  ghost predicate NotedBefore(files: Files, globals: Scope, v: Place, n: nat, t: Note)
    requires Open(files, v) && n <= |files[v.path]|
  {
    var lines, g := files[v.path], Against(globals, v.isRoot);
    || RequireNoteBefore(lines, v.provided, g, v.path, |lines|, t)
    || exists k: nat :: k < n && NotedAt(files, globals, v, k, t)
  }

  ghost predicate NotedAt(files: Files, globals: Scope, v: Place, k: nat, t: Note)
    requires Open(files, v) && k < |files[v.path]|
  {
    || LineNote(At(files, globals, v, k), Against(globals, v.isRoot), v.path, files[v.path][k], t)
    || (LaunchLine(files, v, k) && Noted(files, globals, Next(files, globals, v, k), t))
  }

  lemma OneMore(files: Files, globals: Scope, v: Place, n: nat, p: Problem, t: Note)
    requires Open(files, v) && n < |files[v.path]|
    ensures ReportedBefore(files, globals, v, n + 1, p) <==> ReportedBefore(files, globals, v, n, p) || ReportedAt(files, globals, v, n, p)
    ensures NotedBefore(files, globals, v, n + 1, t) <==> NotedBefore(files, globals, v, n, t) || NotedAt(files, globals, v, n, t)
  {
    hide ReportedAt, NotedAt, RequireProblemBefore, RequireNoteBefore;
  }

  /** Pass 2, with the recursion. */
  lemma {:induction false} PassTwoSays(files: Files, globals: Scope, v: Place, n: nat, p: Problem, t: Note)
    requires Open(files, v) && n <= |files[v.path]|
    ensures var c := PassTwo(files, v.path, v.provided, globals, v.stack, v.isRoot, n);
      && Names(c) == At(files, globals, v, n)
      && (p in c.problems <==> ReportedBefore(files, globals, v, n, p))
      && (t in c.notes <==> NotedBefore(files, globals, v, n, t))
    decreases |Left(files, v.stack)|, 0, n
  {
    hide CheckLine, ReportedBefore, NotedBefore, One, Left, Reported, Noted, Follows, PassOne, At;
    if n == 0 {
      StartSays(files, globals, v, p, t);
    } else {
      var c, line := PassTwo(files, v.path, v.provided, globals, v.stack, v.isRoot, n - 1), files[v.path][n - 1];
      PassTwoSays(files, globals, v, n - 1, p, t);
      LineSays(c, Against(globals, v.isRoot), v.path, line, p, t);
      OneMore(files, globals, v, n - 1, p, t);
      if line.cmd.Launch? {
        LeftShrinks(files, v.stack, v.path);
        OneSays(files, globals, Next(files, globals, v, n - 1), p, t);
      }
      LineGoesOn(files, globals, v, n - 1, c, p, t);
    }
  }

  lemma StartSays(files: Files, globals: Scope, v: Place, p: Problem, t: Note)
    requires Open(files, v)
    ensures var c := Started(files, v.path, v.provided, globals, v.isRoot);
      && Names(c) == At(files, globals, v, 0)
      && (p in c.problems <==> ReportedBefore(files, globals, v, 0, p)) && (t in c.notes <==> NotedBefore(files, globals, v, 0, t))
  {
    PassOneSays(v.provided, Against(globals, v.isRoot), v.path, files[v.path], |files[v.path]|, p, t);
    hide PassOne, RequireProblemBefore, RequireNoteBefore, Learnt;
  }

  /** Line k of the script, with what it launches. */
  lemma LineGoesOn(files: Files, globals: Scope, v: Place, k: nat, c: Progress, p: Problem, t: Note)
    requires Open(files, v) && k < |files[v.path]| && Names(c) == At(files, globals, v, k)
    requires var line, g := files[v.path][k], Against(globals, v.isRoot); Follows(c, CheckLine(c, g, v.path, line), g, v.path, line, p, t)
    ensures var c' := CheckLine(c, Against(globals, v.isRoot), v.path, files[v.path][k]);
      && Names(c') == At(files, globals, v, k + 1)
      && (p in c'.problems || (LaunchLine(files, v, k) && Reported(files, globals, Next(files, globals, v, k), p)) <==>
            p in c.problems || ReportedAt(files, globals, v, k, p))
      && (t in c'.notes || (LaunchLine(files, v, k) && Noted(files, globals, Next(files, globals, v, k), t)) <==>
            t in c.notes || NotedAt(files, globals, v, k, t))
  {
    hide CheckLine, LineProblem, LineNote, Take, Learnt, Reported, Noted;
  }

  lemma {:induction false} OneSays(files: Files, globals: Scope, v: Place, p: Problem, t: Note)
    ensures var rep := One(files, v.path, v.provided, globals, v.stack, v.isRoot);
      && (p in rep.problems <==> Reported(files, globals, v, p)) && (t in rep.notes <==> Noted(files, globals, v, t))
    decreases |Left(files, v.stack)|, 1
  {
    if Open(files, v) {
      PassTwoSays(files, globals, v, |files[v.path]|, p, t);
      ReportedByLine(files, globals, v, p);
      NotedByLine(files, globals, v, t);
      hide PassTwo, ReportedBefore, NotedBefore, Reported, Noted;
    } else {
      NowhereFrom(files, globals, v);
      ReportedHere(files, globals, v, p);
      hide Leads;
    }
  }

  /** From a place that cannot be walked no trail leads on. */
  lemma NowhereFrom(files: Files, globals: Scope, v: Place)
    requires !Open(files, v)
    ensures forall trail, u :: Leads(files, globals, v, trail, u) ==> u == v
  {}

  lemma ReportedHere(files: Files, globals: Scope, v: Place, p: Problem)
    ensures Leads(files, globals, v, [], v)
    ensures PlaceProblem(files, globals, v, p) ==> Reported(files, globals, v, p)
  {
    assert Leads(files, globals, v, [], v);
    hide PlaceProblem;
  }

  /** A trail is empty, or begins with a launch line. */
  lemma ReportedByLine(files: Files, globals: Scope, v: Place, p: Problem)
    requires Open(files, v)
    ensures Reported(files, globals, v, p) <==> ReportedBefore(files, globals, v, |files[v.path]|, p)
  {
    hide RequireProblem, LineProblem, Learnt;
    if Reported(files, globals, v, p) {
      var trail, u :| Leads(files, globals, v, trail, u) && PlaceProblem(files, globals, u, p);
      ReportedDown(files, globals, v, trail, u, p);
    }
    hide *;
    if ReportedBefore(files, globals, v, |files[v.path]|, p) { ReportedUp(files, globals, v, p); }
  }

  lemma ReportedDown(files: Files, globals: Scope, v: Place, trail: seq<nat>, u: Place, p: Problem)
    requires Open(files, v) && Leads(files, globals, v, trail, u) && PlaceProblem(files, globals, u, p)
    ensures ReportedBefore(files, globals, v, |files[v.path]|, p)
  {
    hide RequireProblem, LineProblem, Learnt;
    var lines, g := files[v.path], Against(globals, v.isRoot);
    if trail == [] {
      var k: nat :| k < |lines| && ScriptProblem(lines, v.provided, g, v.path, k, p);
      if RequireProblem(Learnt(lines, v.provided, g, k), g, v.path, lines[k], p) {
        assert RequireProblemBefore(lines, v.provided, g, v.path, |lines|, p);
      } else {
        assert ReportedAt(files, globals, v, k, p);
      }
    } else {
      assert Reported(files, globals, Next(files, globals, v, trail[0]), p);
      assert ReportedAt(files, globals, v, trail[0], p);
    }
  }

  lemma ReportedUp(files: Files, globals: Scope, v: Place, p: Problem)
    requires Open(files, v) && ReportedBefore(files, globals, v, |files[v.path]|, p)
    ensures Reported(files, globals, v, p)
  {
    var lines, g := files[v.path], Against(globals, v.isRoot);
    hide RequireProblem, LineProblem, Learnt;
    if RequireProblemBefore(lines, v.provided, g, v.path, |lines|, p) {
      var k: nat :| k < |lines| && RequireProblem(Learnt(lines, v.provided, g, k), g, v.path, lines[k], p);
      assert ScriptProblem(lines, v.provided, g, v.path, k, p);
      ReportedHere(files, globals, v, p);
    } else {
      var k: nat :| k < |lines| && ReportedAt(files, globals, v, k, p);
      if LineProblem(At(files, globals, v, k), g, v.path, lines[k], p) {
        assert ScriptProblem(lines, v.provided, g, v.path, k, p);
        ReportedHere(files, globals, v, p);
      } else {
        var trail, u :| Leads(files, globals, Next(files, globals, v, k), trail, u) && PlaceProblem(files, globals, u, p);
        assert ([k] + trail)[1..] == trail;
        assert Leads(files, globals, v, [k] + trail, u);
      }
    }
  }

  lemma NotedByLine(files: Files, globals: Scope, v: Place, t: Note)
    requires Open(files, v)
    ensures Noted(files, globals, v, t) <==> NotedBefore(files, globals, v, |files[v.path]|, t)
  {
    hide RequireNote, LineNote, Learnt;
    if Noted(files, globals, v, t) {
      var trail, u :| Leads(files, globals, v, trail, u) && PlaceNote(files, globals, u, t);
      NotedDown(files, globals, v, trail, u, t);
    }
    hide *;
    if NotedBefore(files, globals, v, |files[v.path]|, t) { NotedUp(files, globals, v, t); }
  }

  lemma NotedDown(files: Files, globals: Scope, v: Place, trail: seq<nat>, u: Place, t: Note)
    requires Open(files, v) && Leads(files, globals, v, trail, u) && PlaceNote(files, globals, u, t)
    ensures NotedBefore(files, globals, v, |files[v.path]|, t)
  {
    hide RequireNote, LineNote, Learnt;
    var lines, g := files[v.path], Against(globals, v.isRoot);
    if trail == [] {
      var k: nat :| k < |lines| && ScriptNote(lines, v.provided, g, v.path, k, t);
      if RequireNote(Learnt(lines, v.provided, g, k), g, v.path, lines[k], t) {
        assert RequireNoteBefore(lines, v.provided, g, v.path, |lines|, t);
      } else {
        assert NotedAt(files, globals, v, k, t);
      }
    } else {
      assert Noted(files, globals, Next(files, globals, v, trail[0]), t);
      assert NotedAt(files, globals, v, trail[0], t);
    }
  }

  lemma NotedUp(files: Files, globals: Scope, v: Place, t: Note)
    requires Open(files, v) && NotedBefore(files, globals, v, |files[v.path]|, t)
    ensures Noted(files, globals, v, t)
  {
    var lines, g := files[v.path], Against(globals, v.isRoot);
    hide RequireNote, LineNote, Learnt;
    assert Leads(files, globals, v, [], v);
    if RequireNoteBefore(lines, v.provided, g, v.path, |lines|, t) {
      var k: nat :| k < |lines| && RequireNote(Learnt(lines, v.provided, g, k), g, v.path, lines[k], t);
      assert ScriptNote(lines, v.provided, g, v.path, k, t);
    } else {
      var k: nat :| k < |lines| && NotedAt(files, globals, v, k, t);
      if LineNote(At(files, globals, v, k), g, v.path, lines[k], t) {
        assert ScriptNote(lines, v.provided, g, v.path, k, t);
      } else {
        var trail, u :| Leads(files, globals, Next(files, globals, v, k), trail, u) && PlaceNote(files, globals, u, t);
        assert ([k] + trail)[1..] == trail;
        assert Leads(files, globals, v, [k] + trail, u);
      }
    }
  }

  // ---- What is threaded down -------------------------------------------------------------------------

  /** The last binding of the first n that hands the name over. */
  ghost predicate HandsLast(local: Scope, g: Scope, bindings: seq<Binding>, n: string, i: nat) {
    && i < |bindings| && bindings[i].childKey == n && Visible(local, g, bindings[i].parentKey).Some?
    && forall j :: i < j < |bindings| && bindings[j].childKey == n ==> Visible(local, g, bindings[j].parentKey).None?
  }

  /** A launched script is handed a name exactly if some binding hands it over, with the meaning that the last
      of them has for the script that launches it. */
  lemma {:induction false} HandedMeans(local: Scope, g: Scope, bindings: seq<Binding>, n: string)
    ensures n in Handed(local, g, bindings) <==> exists i: nat :: HandsLast(local, g, bindings, n, i)
    ensures forall i: nat :: HandsLast(local, g, bindings, n, i) ==>
      n in Handed(local, g, bindings) && Handed(local, g, bindings)[n] ==
        if bindings[i].parentKey in local then local[bindings[i].parentKey] else g[bindings[i].parentKey]
  {
    if bindings != [] {
      var rest, b := bindings[..|bindings| - 1], bindings[|bindings| - 1];
      HandedMeans(local, g, rest, n);
      var last: nat := |bindings| - 1;
      if b.childKey == n && Visible(local, g, b.parentKey).Some? {
        assert HandsLast(local, g, bindings, n, last);
      } else {
        assert forall i: nat :: HandsLast(local, g, rest, n, i) <==> HandsLast(local, g, bindings, n, i);
      }
    }
  }

  /** The last of the first n lines that acquires the name. */
  ghost predicate AcquiresLast(lines: seq<Line>, n: nat, name: string, i: nat) {
    && i < n <= |lines| && Acquisition(lines[i].cmd) && lines[i].cmd.name == name
    && forall j :: i < j < n && Acquisition(lines[j].cmd) ==> lines[j].cmd.name != name
  }

  ghost predicate RequiredOf(lines: seq<Line>, n: nat, name: string)
    requires n <= |lines|
  {
    exists i :: 0 <= i < n && lines[i].cmd.Requires? && lines[i].cmd.name == name
  }

  ghost predicate AcquiredOf(lines: seq<Line>, n: nat, name: string)
    requires n <= |lines|
  {
    exists i :: 0 <= i < n && Acquisition(lines[i].cmd) && lines[i].cmd.name == name
  }

  lemma GlobalsStep(launch: Scope, lines: seq<Line>, n: nat, name: string)
    requires 0 < n <= |lines|
    ensures var before, g, cmd := Globals(launch, lines, n - 1), Globals(launch, lines, n), lines[n - 1].cmd;
      if Acquisition(cmd) && cmd.name == name then name in g && g[name] == Name(cmd.mod, cmd.tag, true)
      else if cmd.Requires? && cmd.name == name then name in g && g[name] == if name in before then before[name] else Untyped
      else (name in g <==> name in before) && (name in g ==> g[name] == before[name])
  {}

  /** The globals: what the root is launched with, requires or acquires, as the type of its last acquisition, or
      as launched, or as nothing in particular. */
  lemma {:induction false} GlobalsMean(launch: Scope, lines: seq<Line>, n: nat, name: string)
    requires n <= |lines|
    ensures var g := Globals(launch, lines, n);
      && (name in g <==> name in launch || RequiredOf(lines, n, name) || AcquiredOf(lines, n, name))
      && (forall i: nat :: AcquiresLast(lines, n, name, i) ==> name in g && g[name] == Name(lines[i].cmd.mod, lines[i].cmd.tag, true))
      && (!AcquiredOf(lines, n, name) && name in g ==> g[name] == if name in launch then launch[name] else Untyped)
  {
    if n > 0 {
      GlobalsMean(launch, lines, n - 1, name);
      GlobalsStep(launch, lines, n, name);
      OfStep(lines, n, name);
      hide Globals, AcquiresLast, RequiredOf, AcquiredOf;
    }
  }

  lemma OfStep(lines: seq<Line>, n: nat, name: string)
    requires 0 < n <= |lines|
    ensures var cmd := lines[n - 1].cmd;
      && (RequiredOf(lines, n, name) <==> RequiredOf(lines, n - 1, name) || (cmd.Requires? && cmd.name == name))
      && (AcquiredOf(lines, n, name) <==> AcquiredOf(lines, n - 1, name) || (Acquisition(cmd) && cmd.name == name))
      && (forall i: nat :: AcquiresLast(lines, n, name, i) <==>
            if Acquisition(cmd) && cmd.name == name then i == n - 1 else AcquiresLast(lines, n - 1, name, i))
  {}

  // ---- The result ------------------------------------------------------------------------------------

  ghost function Root(root: Path, launch: Scope): Place { Place(root, launch, [], true) }

  /** THE REPORT IS EXACT. A problem is in the report of the tree if and only if it is a problem of a place that
      some trail of launches from the root leads to, with the path, the line and the name that it says. */
  lemma TreeReportsIff(files: Files, root: Path, launch: Scope, p: Problem, t: Note)
    requires root in files
    ensures var globals, rep := RootGlobals(files, root, launch), Tree(files, root, launch);
      && (p in rep.problems <==> Reported(files, globals, Root(root, launch), p))
      && (t in rep.notes <==> Noted(files, globals, Root(root, launch), t))
  {
    OneSays(files, RootGlobals(files, root, launch), Root(root, launch), p, t);
  }

  /** Of a root that cannot be opened nothing else is said. */
  lemma NoRootReported(files: Files, root: Path, launch: Scope)
    requires root !in files
    ensures Tree(files, root, launch) == Report([CannotOpen(root)], [])
  {}

  /** For instance: a line that does not parse is reported, at its own place, if and only if its script is
      walked. */
  lemma ParseErrorsIff(files: Files, root: Path, launch: Scope, path: Path, number: nat)
    requires root in files
    ensures ParseError(path, number) in Tree(files, root, launch).problems <==>
      exists trail, u :: Leads(files, RootGlobals(files, root, launch), Root(root, launch), trail, u) && MalformedAt(files, u, path, number)
  {
    var p, globals, v := ParseError(path, number), RootGlobals(files, root, launch), Root(root, launch);
    TreeReportsIff(files, root, launch, p, (path, number, ""));
    forall u ensures PlaceProblem(files, globals, u, p) <==> MalformedAt(files, u, path, number) {
      PlaceMalformed(files, globals, u, path, number);
    }
    hide PlaceProblem, MalformedAt, Leads, Tree, RootGlobals;
    if Reported(files, globals, v, p) {
      var trail, u :| Leads(files, globals, v, trail, u) && PlaceProblem(files, globals, u, p);
      assert exists trail, u :: Leads(files, globals, v, trail, u) && MalformedAt(files, u, path, number);
    }
    if trail, u :| Leads(files, globals, v, trail, u) && MalformedAt(files, u, path, number) {
      assert Reported(files, globals, v, p);
    }
  }

  lemma PlaceMalformed(files: Files, globals: Scope, u: Place, path: Path, number: nat)
    ensures PlaceProblem(files, globals, u, ParseError(path, number)) <==> MalformedAt(files, u, path, number)
  {
    var p := ParseError(path, number);
    if Open(files, u) {
      var lines, g := files[u.path], Against(globals, u.isRoot);
      forall k: nat | k < |lines|
        ensures ScriptProblem(lines, u.provided, g, u.path, k, p) <==> u.path == path && lines[k].cmd.Malformed? && lines[k].number == number
      {}
      hide ScriptProblem;
    }
  }

  ghost predicate MalformedAt(files: Files, u: Place, path: Path, number: nat) {
    Open(files, u) && u.path == path && exists k: nat :: k < |files[path]| && files[path][k].cmd.Malformed? && files[path][k].number == number
  }
}
