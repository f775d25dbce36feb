/** What one executed line does, said of the names, the table and the answers of the world: what is bound and to
    what, when a receiver is good enough, what a launched script starts with, and what is published
    (core/CommandExecutor.h:426-504, 1314-1434, 1464-1700, 1770-1990; core/Command.h:225-233). */
module ScriptEffects {
  import opened Preflight
  import opened ScriptRuns

  /** The name stands for a live entity: the script's own meaning of it first, then the table's. */
  ghost predicate Stands(names: Names, table: Names, w: Answers, n: string) {
    if n in names then names[n].rid in w.live else n in table && table[n].rid in w.live
  }

  ghost function RidFor(names: Names, table: Names, n: string): Rid
    requires n in names || n in table
  {
    if n in names then names[n].rid else table[n].rid
  }

  /** The type of what a table entry stands for: as the entry says, or else as the entity does. */
  ghost predicate OfType(b: Bound, t: Thing, mod: string, tag: string) {
    (if b.mod == "" then t.mod else b.mod) == mod && (if b.tag == "" then t.tag else b.tag) == tag
  }

  // ---- Acquisitions ------------------------------------------------------------------------------------

  /** A TOP-LEVEL ACQUISITION binds its name if and only if the script has no such name, and it is an attach or
      ensure that finds a global of its type, or a spawn or ensure that finds none and makes one. */
  lemma AcquireBindsIff(files: Files, names: Names, table: Names, w: Answers, a: Command)
    requires a.Acquire?
    ensures var e := Run(files, names, table, w, a);
      var found := a.name in table && table[a.name].rid in w.live;
      var fits := found && OfType(table[a.name], w.live[table[a.name].rid], a.mod, a.tag);
      && (e.Binds? <==> a.name !in names && if found then a.verb != Spawn && fits else a.verb != Attach && w.made != 0)
      && (e.Binds? ==> e == Binds(a.name, Bound(if found then table[a.name].rid else w.made, a.mod, a.tag)))
      && (!e.Binds? ==> e == Stops(if a.name !in names && found && a.verb != Spawn && !fits then WrongType(a.name) else Failed))
  {}

  /** A CHILD ACQUISITION needs a live parent. A spawn makes a child under a name that stands for nothing live;
      an attach or ensure, of a name that the script does not have, takes the parent's child of that name if it
      has the tag, and an ensure makes one if there is none. */
  lemma ChildBindsIff(files: Files, names: Names, table: Names, w: Answers, a: Command)
    requires a.ChildAcquire?
    ensures var e := Run(files, names, table, w, a);
      var found := Stands(names, table, w, a.name);
      var kin := found && Stands(names, table, w, a.parent)
                 && w.live[RidFor(names, table, a.name)].parent == RidFor(names, table, a.parent);
      var tagged := kin && w.live[RidFor(names, table, a.name)].tag == a.tag;
      && (e.Binds? <==>
            && Stands(names, table, w, a.parent)
            && (a.verb == Spawn ==> !found && w.made != 0)
            && (a.verb != Spawn ==> a.name !in names && if kin then tagged else a.verb == Ensure && w.made != 0))
      && (e.Binds? ==> e == Binds(a.name, Bound(if a.verb != Spawn && kin then RidFor(names, table, a.name) else w.made, a.mod, a.tag)))
  {}

  // ---- Receivers ---------------------------------------------------------------------------------------

  /** A receiver is good if its name stands for a live entity; it is not named if the name means nothing. */
  lemma ReceiverGoesIff(names: Names, table: Names, w: Answers, n: string)
    ensures var e := RunReceiver(names, table, w, n);
      && (e == Continues <==> Stands(names, table, w, n) && w.goes)
      && (e == Stops(NotNamed(n)) <==> n !in names && n !in table)
      && (e == Continues || e == Stops(NotNamed(n)) || e == Stops(Failed))
  {}

  lemma CallsGoIff(files: Files, names: Names, table: Names, w: Answers, cmd: Command)
    requires cmd.Action? || cmd.Kill? || cmd.Unflag?
    ensures Run(files, names, table, w, cmd) == Continues <==>
      w.goes && Stands(names, table, w, cmd.receiver) && (cmd.Action? && cmd.stream ==> Stands(names, table, w, cmd.consumer))
  {
    ReceiverGoesIff(names, table, w, cmd.receiver);
    if cmd.Action? { ReceiverGoesIff(names, table, w, cmd.consumer); }
    hide RunReceiver, Stands;
  }

  // ---- Launches ----------------------------------------------------------------------------------------

  ghost predicate AllStand(names: Names, table: Names, w: Answers, bindings: seq<Binding>) {
    forall b :: b in bindings ==> b.childKey != "root" && Stands(names, table, w, b.parentKey)
  }

  /** The last binding for the key. */
  ghost predicate LastFor(bindings: seq<Binding>, n: string, i: nat) {
    i < |bindings| && bindings[i].childKey == n && forall j :: i < j < |bindings| ==> bindings[j].childKey != n
  }

  /** What a binding hands over: the entity, with the type that the binding says, or else the entity's own. */
  ghost predicate HandedAs(names: Names, table: Names, w: Answers, n: string, b: Bound)
    requires n in names || n in table
  {
    var was := if n in names then names[n] else table[n];
    b.rid == was.rid && (was.tag != "" ==> b == was) &&
      (was.tag == "" && was.rid in w.live ==> b.mod == w.live[was.rid].mod && b.tag == w.live[was.rid].tag)
  }

  lemma {:induction false} BindingsHandOver(names: Names, table: Names, w: Answers, bindings: seq<Binding>)
    ensures var e := RunBindings(names, table, w, bindings);
      && (e.Starts? <==> AllStand(names, table, w, bindings)) && (e.Starts? || e.Stops?)
      && (e.Starts? ==> HandOver(names, table, w, bindings, e.names))
  {
    if bindings != [] {
      var rest, b := bindings[..|bindings| - 1], bindings[|bindings| - 1];
      assert bindings == rest + [b];
      BindingsHandOver(names, table, w, rest);
      OneHandedOver(names, table, w, rest, b);
      var e, e' := RunBindings(names, table, w, rest), RunBindings(names, table, w, bindings);
      if e'.Starts? {
        HandOverSnoc(names, table, w, rest, b, e.names, e'.names[b.childKey]);
      }
      hide HandOver, Stands, HandedAs, RunBindings;
    }
  }

  lemma LastForSnoc(rest: seq<Binding>, b: Binding)
    ensures forall n, i: nat :: LastFor(rest + [b], n, i) <==> if n == b.childKey then i == |rest| else LastFor(rest, n, i)
    ensures forall n, i: nat :: LastFor(rest, n, i) ==> i < |rest| && rest[i] == (rest + [b])[i]
  {
    var all := rest + [b];
    assert forall j :: 0 <= j < |rest| ==> all[j] == rest[j];
    assert all[|rest|] == b;
  }

  /** The names that the bindings hand over, and what they are. */
  ghost predicate HandOver(names: Names, table: Names, w: Answers, bindings: seq<Binding>, given: Names) {
    && (forall n :: n in given ==> exists i: nat :: LastFor(bindings, n, i))
    && (forall n, i: nat :: LastFor(bindings, n, i) ==>
          && i < |bindings| && n in given && (bindings[i].parentKey in names || bindings[i].parentKey in table)
          && HandedAs(names, table, w, bindings[i].parentKey, given[n]))
  }

  lemma HandOverSnoc(names: Names, table: Names, w: Answers, rest: seq<Binding>, b: Binding, given: Names, last: Bound)
    requires HandOver(names, table, w, rest, given) && (b.parentKey in names || b.parentKey in table)
    requires HandedAs(names, table, w, b.parentKey, last)
    ensures HandOver(names, table, w, rest + [b], given[b.childKey := last])
  {
    LastForSnoc(rest, b);
    hide LastFor, HandedAs;
    var all, more := rest + [b], given[b.childKey := last];
    forall n | n in more ensures exists i: nat :: LastFor(all, n, i) {
      if n == b.childKey {
        assert LastFor(all, n, |rest|);
      } else {
        var i: nat :| LastFor(rest, n, i);
        assert LastFor(all, n, i);
      }
    }
    assert all[|rest|] == b;
  }

  lemma OneHandedOver(names: Names, table: Names, w: Answers, rest: seq<Binding>, b: Binding)
    ensures var e, e' := RunBindings(names, table, w, rest), RunBindings(names, table, w, rest + [b]);
      && (!e.Starts? ==> e' == e)
      && (e.Starts? && !(b.childKey != "root" && Stands(names, table, w, b.parentKey)) ==> e'.Stops?)
      && (e.Starts? && b.childKey != "root" && Stands(names, table, w, b.parentKey) ==>
            && e'.Starts? && b.childKey in e'.names && e'.names == e.names[b.childKey := e'.names[b.childKey]]
            && (b.parentKey in names || b.parentKey in table) && HandedAs(names, table, w, b.parentKey, e'.names[b.childKey]))
  {
    var all := rest + [b];
    assert all[..|all| - 1] == rest && all[|all| - 1] == b;
    var was := Lookup(names, table, b.parentKey);
    assert Stands(names, table, w, b.parentKey) <==> LookupLive(names, table, w.live, b.parentKey).Some?;
  }

  /** A LAUNCH starts its script if and only if nothing outside stops it, every binding stands, the file is there
      and, for a detach, parses; the script gets what is handed over, and its own anchor. */
  lemma LaunchStartsIff(files: Files, names: Names, table: Names, w: Answers, cmd: Command)
    requires cmd.Launch?
    ensures var e := Run(files, names, table, w, cmd);
      && (e.Starts? <==>
            && w.goes && AllStand(names, table, w, cmd.bindings) && cmd.script in files
            && (cmd.detached ==> forall i :: 0 <= i < |files[cmd.script]| ==> !files[cmd.script][i].cmd.Malformed?))
      && (e.Starts? ==>
            && e.script == cmd.script && "root" in e.names && e.names["root"].rid == w.rootRid
            && e.names - {"root"} == RunBindings(names, table, w, cmd.bindings).names)
  {
    BindingsHandOver(names, table, w, cmd.bindings);
    var out := RunBindings(names, table, w, cmd.bindings);
    if out.Starts? {
      assert forall i: nat :: i < |cmd.bindings| ==> cmd.bindings[i] in cmd.bindings;
      assert forall i: nat :: !LastFor(cmd.bindings, "root", i);
      assert HandOver(names, table, w, cmd.bindings, out.names);
      assert "root" !in out.names;
      assert out.names["root" := Bound(w.rootRid, "", "")] - {"root"} == out.names;
    }
    hide RunBindings, Stands, HandedAs;
  }

  // ---- What a step does to the world -------------------------------------------------------------------

  /** PUBLISHED is what the root binds, if it has a name and a RID, and nothing else. */
  lemma BindPublishesIff(w: World, i: nat, n: string, b: Bound, next: Phase)
    requires i < |w.acts|
    ensures var w' := Bind(w, i, n, b, next);
      && w'.table == (if w.acts[i].isRoot && n != "" && b.rid != 0 then w.table[n := b] else w.table)
      && w'.acts == w.acts[i := w.acts[i].(names := w.acts[i].names[n := b], phase := next)]
  {}

  /** A REQUIREMENT is met if its name stands for a live entity that carries the tags; met, it is bound, unless
      the entity is gone by then, which nobody minds. */
  lemma RequireMeans(w: World, i: nat, o: Answers, n: string, k: nat)
    requires i < |w.acts|
    ensures var a, a' := w.acts[i], Require1(w, i, o, n, k).acts[i];
      var stands := Stands(a.names, w.table, o, n);
      && (a'.phase == Requiring(k + 1) <==> stands && (o.raced || o.goes)) && (a'.phase == Requiring(k + 1) || a'.phase == Stopped(Refused))
      && (stands && o.goes && !o.raced ==> n in a'.names && a'.names == a.names[n := a'.names[n]] && a'.names[n].rid == RidFor(a.names, w.table, n))
      && (!(stands && o.goes && !o.raced) ==> a'.names == a.names && Require1(w, i, o, n, k).table == w.table)
  {}

  /** THE COURSE OF A SCRIPT: it parses, its `requires` lines come first, then its lines one by one, to the end or to
      an exit. */
  lemma CourseOfAScript(files: Files, globals: Scope, w: World, i: nat, o: Answers)
    requires i < |w.acts| && Placed(files, w.acts[i])
    ensures var a, lines := w.acts[i], files[w.acts[i].path];
      var w' := Next(files, globals, w, Act(i, o));
      && |w'.acts| >= |w.acts|
      && match a.phase
         case Starting =>
           w'.acts[i].phase == if exists j :: 0 <= j < |lines| && lines[j].cmd.Malformed? then Stopped(Failed) else Requiring(0)
         case Requiring(k) =>
           if k == |lines| then w'.acts[i].phase == Running(0)
           else if lines[k].cmd.Requires? then w' == Require1(w, i, o, lines[k].cmd.name, k)
           else w'.acts[i].phase == Requiring(k + 1) && w'.table == w.table
         case Running(k) =>
           if k == |lines| then w'.acts[i].phase == Stopped(Finished)
           else
             var e := Run(files, a.names, w.table, o, lines[k].cmd);
             && w'.acts[i].phase == (if e.Stops? then Stopped(e.why) else Running(k + 1))
             && (lines[k].cmd.Exit? <==> e == Stops(Exited))
             && (!e.Binds? ==> w'.acts[i].names == a.names && w'.table == w.table)
         case Stopped(_) => w' == w
  {
    var a := w.acts[i];
    if a.phase.Running? && a.phase.k < |files[a.path]| {
      OnlyExitExits(files, a.names, w.table, o, files[a.path][a.phase.k].cmd);
    }
    hide Run, Local, Require1, LookupLive;
  }

  lemma OnlyExitExits(files: Files, names: Names, table: Names, o: Answers, cmd: Command)
    ensures cmd.Exit? <==> Run(files, names, table, o, cmd) == Stops(Exited)
  {
    if cmd.Launch? { BindingsDoNotExit(names, table, o, cmd.bindings); }
  }

  lemma {:induction false} BindingsDoNotExit(names: Names, table: Names, o: Answers, bindings: seq<Binding>)
    ensures RunBindings(names, table, o, bindings) != Stops(Exited)
  {
    if bindings != [] { BindingsDoNotExit(names, table, o, bindings[..|bindings| - 1]); }
  }
}
