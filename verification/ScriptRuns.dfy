/** Running a tree of scripts, and what its preflight promises about every run
    (core/CommandExecutor.h:426-504, 1314-1434, 1464-1700, 2190-2420; core/Command.h:60-245).

    Every script that has been started is an activation with its own names and its own place in its file.
    Any activation may take the next step, so that a detached script runs beside its launcher and a
    blocking one is the special case in which the launcher happens to wait. What the entity graph does is
    up to the step: which RIDs resolve just now, what a spawn returns, whether a work function fails.

    The table of globals is the process's, not the script's: a run finds in it whatever earlier root scripts,
    the prompt and the launch line have put there, and others may go on writing to it while it runs. Nothing
    but shutdown clears it (core/CommandExecutor.h:2617-2628).

    `provided` and `stack` are history: what the preflight knew when it checked this launch. */
module ScriptRuns {
  import opened Preflight

  type Rid = nat

  datatype Bound = Bound(rid: Rid, mod: string, tag: string)

  type Names = map<string, Bound>

  /** A live entity: where it was spawned from, and its parent's RID. */
  datatype Thing = Thing(mod: string, tag: string, parent: Rid)

  /** What the world answers while one line executes. `made` is 0 when nothing could be made. */
  datatype Answers = Answers(live: map<Rid, Thing>, made: Rid, rootRid: Rid, goes: bool, raced: bool)

  datatype Why = Finished | Exited | Refused | Failed | NotNamed(name: string) | WrongType(name: string)

  datatype Phase = Starting | Requiring(k: nat) | Running(k: nat) | Stopped(why: Why)

  datatype Activation = Activation(path: Path, names: Names, phase: Phase, isRoot: bool, provided: Scope, stack: seq<Path>)

  datatype World = World(table: Names, acts: seq<Activation>)

  datatype Effect = Continues | Binds(name: string, bound: Bound) | Starts(script: Path, names: Names) | Stops(why: Why)

  // ---- Names at run time -----------------------------------------------------------------------------

  /** Local first, then the globals. */
  function Lookup(names: Names, table: Names, n: string): Option<Bound> {
    if n in names then Some(names[n]) else if n in table then Some(table[n]) else None
  }

  function LookupLive(names: Names, table: Names, live: map<Rid, Thing>, n: string): Option<Bound> {
    var b := Lookup(names, table, n);
    if b.Some? && b.value.rid in live then b else None
  }

  /** resolve_receiver's refusals: the name means nothing, or it means something that is gone. */
  function Refusal(names: Names, table: Names, n: string): Why {
    if Lookup(names, table, n).None? then NotNamed(n) else Failed
  }

  /** A binding that crossed a launch without its type gets it from the entity. */
  function Filled(b: Bound, t: Thing): Bound {
    if b.tag == "" then Bound(b.rid, t.mod, t.tag) else b
  }

  function Spawned(name: string, mod: string, tag: string, made: Rid): Effect {
    if made == 0 then Stops(Failed) else Binds(name, Bound(made, mod, tag))
  }

  function RunAcquire(names: Names, table: Names, w: Answers, a: Command): Effect
    requires a.Acquire?
  {
    if a.name in names then Stops(Failed)
    else
      var existing := LookupLive(names, table, w.live, a.name);
      if a.verb == Spawn then
        if existing.Some? then Stops(Failed) else Spawned(a.name, a.mod, a.tag, w.made)
      else if existing.Some? then
        var t := w.live[existing.value.rid];
        var mod := if existing.value.mod == "" then t.mod else existing.value.mod;
        var tag := if existing.value.tag == "" then t.tag else existing.value.tag;
        if mod != a.mod || tag != a.tag then Stops(WrongType(a.name)) else Binds(a.name, Bound(existing.value.rid, mod, tag))
      else if a.verb == Attach then Stops(Failed)
      else Spawned(a.name, a.mod, a.tag, w.made)
  }

  function RunChildAcquire(names: Names, table: Names, w: Answers, a: Command): Effect
    requires a.ChildAcquire?
  {
    var existing := LookupLive(names, table, w.live, a.name);
    var parent := LookupLive(names, table, w.live, a.parent);
    if a.verb == Spawn && existing.Some? then Stops(Failed)
    else if a.verb != Spawn && a.name in names then Stops(Failed)
    else if parent.None? then Stops(Refusal(names, table, a.parent))
    else if a.verb != Spawn && existing.Some? && w.live[existing.value.rid].parent == parent.value.rid then
      if w.live[existing.value.rid].tag != a.tag then Stops(Failed)
      else Binds(a.name, Bound(existing.value.rid, a.mod, a.tag))
    else if a.verb == Attach then Stops(Failed)
    else Spawned(a.name, a.mod, a.tag, w.made)
  }

  function RunReceiver(names: Names, table: Names, w: Answers, n: string): Effect {
    if LookupLive(names, table, w.live, n).None? then Stops(Refusal(names, table, n))
    else if w.goes then Continues else Stops(Failed)
  }

  /** resolve_run_bindings, in order: the first binding that does not resolve is the answer. */
  function RunBindings(names: Names, table: Names, w: Answers, bindings: seq<Binding>): Effect {
    if bindings == [] then Starts("", map[])
    else
      var rest, b := bindings[..|bindings| - 1], bindings[|bindings| - 1];
      var out := RunBindings(names, table, w, rest);
      if !out.Starts? then out
      else if b.childKey == "root" then Stops(Failed)
      else
        var have := LookupLive(names, table, w.live, b.parentKey);
        if have.None? then Stops(Refusal(names, table, b.parentKey))
        else out.(names := out.names[b.childKey := Filled(have.value, w.live[have.value.rid])])
  }

  ghost predicate HasMalformed(lines: seq<Line>) {
    exists i :: 0 <= i < |lines| && lines[i].cmd.Malformed?
  }

  /** Both launches: the bindings, the file, and for a detach the parse of the file as well. */
  ghost function RunLaunch(files: Files, names: Names, table: Names, w: Answers, cmd: Command): Effect
    requires cmd.Launch?
  {
    var out := RunBindings(names, table, w, cmd.bindings);
    if !w.goes then Stops(Failed)
    else if !out.Starts? then out
    else if cmd.script !in files || (cmd.detached && HasMalformed(files[cmd.script])) then Stops(Failed)
    else Starts(cmd.script, out.names["root" := Bound(w.rootRid, "", "")])
  }

  ghost function Run(files: Files, names: Names, table: Names, w: Answers, cmd: Command): Effect {
    match cmd
    case Exit => Stops(Exited)
    case Malformed(_) => Stops(Failed)
    case Requires(_) => Continues
    case Acquire(_, _, _, _) => RunAcquire(names, table, w, cmd)
    case ChildAcquire(_, _, _, _, _) => RunChildAcquire(names, table, w, cmd)
    case Action(receiver, stream, consumer) =>
      var e := RunReceiver(names, table, w, receiver);
      if e.Continues? && stream then RunReceiver(names, table, w, consumer) else e
    case Kill(receiver) => RunReceiver(names, table, w, receiver)
    case Unflag(receiver) => RunReceiver(names, table, w, receiver)
    case Launch(_, _, _) => RunLaunch(files, names, table, w, cmd)
  }

  // ---- Steps -----------------------------------------------------------------------------------------

  datatype Step =
    | Act(i: nat, answers: Answers)
    | Halt(i: nat)             // the closure was signalled, a dependency was lost, a launched script crashed
    | Forget(name: string)     // a lookup found a dead global
    | Publish(name: string, bound: Bound)    // by the prompt, or by another root script of the process

  /** A step of an activation; the others are nobody's. */
  ghost predicate Moving(s: Step) { s.Act? || s.Halt? }

  /** ExecutionContext::bind: only the root script publishes, and only a real name with a real RID. */
  ghost function Bind(w: World, i: nat, n: string, b: Bound, next: Phase): World
    requires i < |w.acts|
  {
    var a := w.acts[i];
    World(if a.isRoot && n != "" && b.rid != 0 then w.table[n := b] else w.table,
          w.acts[i := a.(names := a.names[n := b], phase := next)])
  }

  ghost function Turn(w: World, i: nat, next: Phase): World
    requires i < |w.acts|
  {
    w.(acts := w.acts[i := w.acts[i].(phase := next)])
  }

  /** The preflight's view of an activation's names, as far as the activation has got. */
  ghost function Local(files: Files, globals: Scope, a: Activation): Scope
    requires Placed(files, a)
  {
    var start := Progress(a.provided, {}, [], []);
    match a.phase
    case Requiring(k) => PassOne(start, Against(globals, a.isRoot), a.path, files[a.path], k).local
    case Running(k) => Own(files, a.path, a.provided, globals, a.isRoot, k).local
    case _ => a.provided
  }

  ghost predicate Placed(files: Files, a: Activation) {
    && a.path in files
    && (a.phase.Requiring? ==> a.phase.k <= |files[a.path]|)
    && (a.phase.Running? ==> a.phase.k <= |files[a.path]|)
  }

  ghost function Require1(w: World, i: nat, o: Answers, n: string, k: nat): World
    requires i < |w.acts|
  {
    var b := LookupLive(w.acts[i].names, w.table, o.live, n);
    if b.None? then Turn(w, i, Stopped(Refused))
    else if o.raced then Turn(w, i, Requiring(k + 1))
    else if !o.goes then Turn(w, i, Stopped(Refused))
    else Bind(w, i, n, b.value, Requiring(k + 1))
  }

  ghost function Execute(files: Files, globals: Scope, w: World, i: nat, o: Answers, k: nat): World
    requires i < |w.acts| && Placed(files, w.acts[i]) && w.acts[i].phase == Running(k) && k < |files[w.acts[i].path]|
  {
    var a := w.acts[i];
    var cmd := files[a.path][k].cmd;
    match Run(files, a.names, w.table, o, cmd)
    case Continues => Turn(w, i, Running(k + 1))
    case Stops(why) => Turn(w, i, Stopped(why))
    case Binds(n, b) => Bind(w, i, n, b, Running(k + 1))
    case Starts(script, names) =>
      var w1 := Turn(w, i, Running(k + 1));
      w1.(acts := w1.acts + [Activation(script, names, Starting, false,
          Handed(Local(files, globals, a), Against(globals, a.isRoot), if cmd.Launch? then cmd.bindings else []), a.stack + [a.path])])
  }

  ghost function Next(files: Files, globals: Scope, w: World, s: Step): World {
    match s
    case Forget(n) => w.(table := w.table - {n})
    case Publish(n, b) => if n == "" || b.rid == 0 then w else w.(table := w.table[n := b])
    case Halt(i) => if i < |w.acts| then Turn(w, i, Stopped(Failed)) else w
    case Act(i, o) =>
      if i >= |w.acts| || !Placed(files, w.acts[i]) then w
      else
        var a := w.acts[i];
        var lines := files[a.path];
        match a.phase
        case Starting => Turn(w, i, if HasMalformed(lines) then Stopped(Failed) else Requiring(0))
        case Requiring(k) =>
          if k == |lines| then Turn(w, i, Running(0))
          else if lines[k].cmd.Requires? then Require1(w, i, o, lines[k].cmd.name, k)
          else Turn(w, i, Requiring(k + 1))
        case Running(k) => if k == |lines| then Turn(w, i, Stopped(Finished)) else Execute(files, globals, w, i, o, k)
        case Stopped(_) => w
  }

  /** run_root_script's view of the names it was launched with. */
  function LaunchScope(names: Names): Scope {
    map n | n in names :: Name(names[n].mod, names[n].tag, names[n].tag != "")
  }

  /** `before` is what the table holds when the root script is started. */
  ghost function Begin(root: Path, names: Names, before: Names): World {
    World(before, [Activation(root, names, Starting, true, LaunchScope(names), [])])
  }

  ghost function Reach(files: Files, globals: Scope, w: World, steps: seq<Step>): World
    decreases |steps|
  {
    if steps == [] then w else Next(files, globals, Reach(files, globals, w, steps[..|steps| - 1]), steps[|steps| - 1])
  }

  /** What others have under a name: put there before the run or during it, and not found dead since. */
  ghost function Foreign(before: Names, steps: seq<Step>, n: string): Option<Bound>
    decreases |steps|
  {
    if steps == [] then Find(before, n)
    else
      var was := Foreign(before, steps[..|steps| - 1], n);
      match steps[|steps| - 1]
      case Publish(m, b) => if m == n && n != "" && b.rid != 0 then Some(b) else was
      case Forget(m) => if m == n then None else was
      case _ => was
  }

  function Find(table: Names, n: string): Option<Bound> { if n in table then Some(table[n]) else None }

  /** The names that others have, or might have, in the table during a run. */
  ghost function Others(before: Names, steps: seq<Step>): set<string> {
    before.Keys + set s | s in steps && s.Publish? :: s.name
  }

  /** The names a line refers to: its receivers, and the sources of its bindings. */
  ghost function Needs(cmd: Command): set<string> {
    match cmd
    case ChildAcquire(_, parent, _, _, _) => {parent}
    case Action(receiver, stream, consumer) => if stream then {receiver, consumer} else {receiver}
    case Kill(receiver) => {receiver}
    case Unflag(receiver) => {receiver}
    case Launch(_, bindings, _) => set b | b in bindings :: b.parentKey
    case _ => {}
  }
}
