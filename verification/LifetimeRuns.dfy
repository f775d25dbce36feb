/** Whole runs of the module lifetime protocol: what every handler keeps, when a module may be unloaded,
    and exactly when the delayed recheck is safe.

    The recheck carries the module instance it was fired for, while the registries are keyed by name
    (core/DynamicLoader.h:2047-2102). So a recheck that outlives its instance meets whatever was
    bootstrapped under that name since. `RecheckSoundIff` says when that is harmless. */
module LifetimeRuns {
  import opened Lifetime

  // ---- Death and module changes ---------------------------------------------------------------------

  /** What MemoryArena's search promises a dying entity: nothing, or another live entity; and one that
      promoteOrVacate's guard lets through whenever another entity of the module is attached. */
  ghost predicate SiblingSearch(s: Store, e: Entity, survivor: Token) {
    var o := OfEntity(e);
    && survivor != o && !survivor.OfRoot? && (survivor != Nobody ==> survivor in s.tokens)
    && (o in s.parent && (exists x :: x in s.parent && x != o && x.OfEntity? && s.parent[x] == s.parent[o]) ==>
          survivor != Nobody && (survivor in s.parent ==> s.parent[survivor] == s.parent[o]))
  }

  /** The survivor promoteOrVacate goes on with: one attached to another module counts as none. */
  ghost function Accepted(s: Store, o: Token, survivor: Token): Token
    requires o in s.parent
  {
    if survivor in s.parent && s.parent[survivor] != s.parent[o] then Nobody else survivor
  }

  lemma AcceptedIsGood(s: Store, e: Entity, survivor: Token)
    requires Sound(s) && OfEntity(e) in s.parent && SiblingSearch(s, e, survivor)
    ensures var o := OfEntity(e); var a := Accepted(s, o, survivor);
      GoodSurvivor(s, o, a) && !a.OfRoot? && Leave(s, o, survivor) == Leave(s, o, a)
  {
    var o := OfEntity(e);
    assert Nobody !in s.parent;
    if survivor != Accepted(s, o, survivor) {
      assert survivor in s.parent && s.parent[survivor] != s.parent[o];
      assert Leave(s, o, survivor) == Leave(s, o, Nobody);
    }
  }

  lemma EntityLeaveKeepsRoots(s: Store, e: Entity, survivor: Token)
    requires RootsOk(s) && OfEntity(e) in s.parent && GoodSurvivor(s, OfEntity(e), survivor) && !survivor.OfRoot?
    ensures RootsOk(Leave(s, OfEntity(e), survivor))
  {
    var o := OfEntity(e);
    var s' := Leave(s, o, survivor);
    LeaveCases(s, o, survivor);
    hide Leave;
    hide RootsOk;
    RootsFrame(s, s');
  }

  /** A token that is not attached can go without anybody noticing. */
  lemma ForgetKeepsSound(s: Store, o: Token)
    requires Sound(s) && o !in s.parent
    ensures Sound(Forget(s, o))
  {
    var s' := Forget(s, o);
    assert o !in s.flagged;
    assert s' == s.(tokens := s.tokens - {o});
    TokensMayShrink(s, s');
  }

  lemma TokensMayShrink(s: Store, s': Store)
    requires Sound(s) && s' == s.(tokens := s'.tokens) && Nobody !in s'.tokens
    requires s.parent.Keys <= s'.tokens
    ensures Sound(s')
  {
    assert forall m :: OwnerOf(s', m) == OwnerOf(s, m) && Registered(s', m) == Registered(s, m);
    ParentsFrame(s, s');
    RootsFrame(s, s');
    OwnersFrame(s, s');
    hide ParentsOk, RootsOk, OwnersOk, FlagsOk, EntitiesRule;
  }

  lemma EntityDiesIsLeave(s: Store, e: Entity, survivor: Token)
    requires OfEntity(e) in s.parent
    ensures EntityDies(s, e, survivor) == Forget(Leave(s, OfEntity(e), survivor), OfEntity(e))
  {}

  lemma LeaveDetaches(s: Store, o: Token, survivor: Token)
    requires o in s.parent
    ensures o !in Leave(s, o, survivor).parent
  {}

  lemma EntityDiesKeepsSound(s: Store, e: Entity, survivor: Token)
    requires Sound(s) && SiblingSearch(s, e, survivor)
    ensures Sound(EntityDies(s, e, survivor))
  {
    var o := OfEntity(e);
    if o in s.parent {
      var a := Accepted(s, o, survivor);
      AcceptedIsGood(s, e, survivor);
      LeaveKeepsSound(s, o, a);
      EntityLeaveKeepsRoots(s, e, a);
      LeaveDetaches(s, o, survivor);
      EntityDiesIsLeave(s, e, survivor);
      ForgetKeepsSound(Leave(s, o, survivor), o);
    } else {
      ForgetKeepsSound(s, o);
    }
  }

  lemma RootDiesKeepsSound(s: Store, r: Root)
    requires Sound(s)
    ensures Sound(RootDies(s, r))
  {
    RelinquishKeepsSound(s, r);
    ForgetKeepsSound(Relinquish(s, r), OfRoot(r));
  }

  lemma RelinquishFrame(s: Store, r: Root)
    ensures var s' := Relinquish(s, r);
      && s'.registry == s.registry && s'.mapped == s.mapped && s'.refused == s.refused && s'.joined == s.joined
      && s'.owner.Keys == s.owner.Keys + (if OfRoot(r) in s.flagged && OfRoot(r) in s.parent then {s.parent[OfRoot(r)]} else {})
      && (forall m :: m in s'.rechecks ==> m in s.rechecks || (OfRoot(r) in s.parent && m == s.parent[OfRoot(r)]))
      && (forall m :: m in s.rechecks ==> m in s'.rechecks)
      && s'.tokens == s.tokens
  {}

  lemma ParentHasOwnerEntry(s: Store, o: Token)
    requires Sound(s) && o in s.parent
    ensures s.parent[o] in s.owner && Registered(s, s.parent[o])
  {}

  lemma ChangeModuleKeepsSound(s: Store, r: Root, target: string, load: LoadResult, fresh_: Module)
    requires Sound(s) && OfRoot(r) in s.tokens && fresh_.name == target && fresh_ !in s.owner
    ensures Sound(ChangeModule(s, r, target, load, fresh_))
  {
    hide Relinquish, Attach, Sound;
    var s1 := Relinquish(s, r);
    RelinquishKeepsSound(s, r);
    RelinquishFrame(s, r);
    if OfRoot(r) in s.parent { ParentHasOwnerEntry(s, OfRoot(r)); }
    AttachKeepsSound(s1, target, OfRoot(r), false, load, fresh_);
  }

  // ---- The recheck ----------------------------------------------------------------------------------

  /** Nothing but the instance the recheck was fired for is registered under its name. */
  ghost predicate Harmless(s: Store, target: Module) {
    target.name in s.registry ==> s.registry[target.name] == target
  }

  /** The Root that the recheck would promote. */
  ghost function Rescuer(s: Store, target: Module): Token {
    FirstOther(RootsAt(s, target.name), Nobody)
  }

  lemma RescuerIsAttached(s: Store, target: Module)
    requires Sound(s)
    ensures var o := Rescuer(s, target);
      && (o != Nobody ==> o.OfRoot? && o in s.parent && s.parent[o].name == target.name && Registered(s, s.parent[o]))
      && (o == Nobody ==> RootsAt(s, target.name) == [])
  {
    var roots := RootsAt(s, target.name);
    FirstOtherFinds(roots, Nobody);
    if roots != [] { assert roots[0] in roots; }
  }

  /** Unloading, for a target nobody owns and no Root holds. */
  ghost function Unloaded(s: Store, target: Module): Store {
    s.(rechecks := s.rechecks - multiset{target}, registry := s.registry - {target.name}, mapped := s.mapped - {target})
  }

  ghost function Rescued(s: Store, target: Module, o: Token): Store {
    s.(rechecks := s.rechecks - multiset{target},
       parent := s.parent[o := target], flagged := s.flagged + {o}, owner := s.owner[target := o])
  }

  ghost function Dropped(s: Store, target: Module): Store {
    s.(rechecks := s.rechecks - multiset{target})
  }

  lemma RequestUnloadCases(s: Store, target: Module)
    ensures var s' := RequestUnload(s, target);
      s' == if OwnerOf(s, target) != Nobody then Dropped(s, target)
            else if Rescuer(s, target) != Nobody then Rescued(s, target, Rescuer(s, target))
            else Unloaded(s, target)
  {}

  lemma DroppedKeepsSound(s: Store, target: Module)
    requires Sound(s) && OwnerOf(s, target) != Nobody
    ensures Sound(Dropped(s, target))
  {
    var s' := Dropped(s, target);
    assert forall m :: OwnerOf(s', m) == OwnerOf(s, m) && Registered(s', m) == Registered(s, m);
    ParentsFrame(s, s');
    RootsFrame(s, s');
    OwnersFrame(s, s');
    hide ParentsOk, RootsOk, OwnersOk, FlagsOk, EntitiesRule;
  }

  /** Nobody is attached to a registered module that has no owner and no Root. */
  lemma NobodyIsAttached(s: Store, target: Module)
    requires Sound(s) && OwnerOf(s, target) == Nobody && Rescuer(s, target) == Nobody
    ensures forall o :: o in s.parent ==> s.parent[o] != target
  {
    RescuerIsAttached(s, target);
    forall o | o in s.parent
      ensures s.parent[o] != target
    {
      assert Nobody !in s.parent;
      assert o.OfRoot? ==> o.root in RootsAt(s, s.parent[o].name);
    }
  }

  lemma UnloadedKeepsNames(s: Store, target: Module)
    requires NamesOk(s) && MappedOk(s) && target !in s.refused && Harmless(s, target)
    ensures NamesOk(Unloaded(s, target)) && MappedOk(Unloaded(s, target))
    ensures forall m :: m != target ==> Registered(Unloaded(s, target), m) == Registered(s, m)
  {
    var s' := Unloaded(s, target);
    assert forall m :: m != target ==> Registered(s', m) == Registered(s, m);
    forall m | m in s'.mapped ensures m in s'.owner && (Registered(s', m) <==> m !in s'.refused) {
      assert Registered(s, m) <==> m !in s.refused;
    }
  }

  lemma UnloadedKeepsRules(s: Store, target: Module)
    requires NamesOk(s) && NoLeak(s) && RechecksOk(s)
    ensures NoLeak(Unloaded(s, target)) && RechecksOk(Unloaded(s, target))
  {
    var s' := Unloaded(s, target);
    forall n | n in s'.registry && !s'.joined && OwnerOf(s', s'.registry[n]) == Nobody
      ensures s'.registry[n] in s'.rechecks
    {
      assert OwnerOf(s, s.registry[n]) == Nobody;
      assert s.registry[n] in s.rechecks && s.registry[n].name == n;
    }
  }

  lemma UnloadedKeepsSound(s: Store, target: Module)
    requires Sound(s) && OwnerOf(s, target) == Nobody && Rescuer(s, target) == Nobody && target !in s.refused && Harmless(s, target)
    ensures Sound(Unloaded(s, target))
  {
    var s' := Unloaded(s, target);
    NobodyIsAttached(s, target);
    UnloadedKeepsNames(s, target);
    UnloadedKeepsRules(s, target);
    hide MappedOk, Harmless, Rescuer, NamesOk, NoLeak, RechecksOk;
    ParentsFrame(s, s');
    RootsFrame(s, s');
    OwnersFrame(s, s');
    hide ParentsOk, RootsOk, OwnersOk, FlagsOk, EntitiesRule;
  }

  lemma RescuedKeepsOwners(s: Store, target: Module, o: Token)
    requires Nobody !in s.parent
    requires FlagsOk(s) && OwnersOk(s) && OwnerOf(s, target) == Nobody && o != Nobody && o in s.parent && s.parent[o] == target
    ensures var s' := Rescued(s, target, o); FlagsOk(s') && OwnersOk(s')
  {
    assert Rescued(s, target, o).parent == s.parent;
  }

  lemma RescuedKeepsRules(s: Store, target: Module, o: Token)
    requires EntitiesRule(s) && NoLeak(s) && RechecksOk(s) && OwnerOf(s, target) == Nobody && o != Nobody && o in s.parent
    requires s.parent[o] == target && target in s.rechecks
    ensures var s' := Rescued(s, target, o); EntitiesRule(s') && NoLeak(s') && RechecksOk(s')
  {
    var s' := Rescued(s, target, o);
    assert s'.parent == s.parent;
    assert forall m :: m != target ==> OwnerOf(s', m) == OwnerOf(s, m);
    assert OwnerOf(s', target) == o;
  }

  lemma RescuedKeepsNames(s: Store, target: Module, o: Token)
    requires NamesOk(s) && MappedOk(s)
    ensures var s' := Rescued(s, target, o); NamesOk(s') && MappedOk(s')
    ensures forall m :: Registered(Rescued(s, target, o), m) == Registered(s, m)
  {
    var s' := Rescued(s, target, o);
    assert forall m :: Registered(s', m) == Registered(s, m);
  }

  lemma RescuedKeepsSound(s: Store, target: Module, o: Token)
    requires Sound(s) && OwnerOf(s, target) == Nobody && o.OfRoot? && o in s.parent && s.parent[o] == target
    requires target in s.rechecks
    ensures Sound(Rescued(s, target, o))
  {
    var s' := Rescued(s, target, o);
    RescuedKeepsNames(s, target, o);
    RescuedKeepsOwners(s, target, o);
    RescuedKeepsRules(s, target, o);
    hide NamesOk, MappedOk, FlagsOk, OwnersOk, EntitiesRule, NoLeak, RechecksOk, OwnerOf;
    assert s'.parent == s.parent;
    ParentsFrame(s, s');
    RootsFrame(s, s');
    hide ParentsOk, RootsOk, Rescued;
  }

  /** THE EXACT CONDITION: an outstanding recheck leaves a sound state sound if and only if no younger
      instance is registered under its name. */
  lemma RecheckSoundIff(s: Store, target: Module)
    requires Sound(s) && target in s.rechecks
    ensures Sound(RequestUnload(s, target)) <==> Harmless(s, target)
  {
    RequestUnloadCases(s, target);
    RescuerIsAttached(s, target);
    var o := Rescuer(s, target);
    if OwnerOf(s, target) != Nobody {
      DroppedKeepsSound(s, target);
      assert Registered(s, s.parent[s.owner[target]]);
    } else if Harmless(s, target) {
      if o != Nobody { RescuedKeepsSound(s, target, o); } else { UnloadedKeepsSound(s, target); }
    } else {
      StaleRecheckBreaks(s, target);
    }
  }

  /** A stale recheck either attaches a Root to an instance that is not loaded, or drops the young
      instance from the registry and leaves it mapped. */
  lemma StaleRecheckBreaks(s: Store, target: Module)
    requires Sound(s) && OwnerOf(s, target) == Nobody && !Harmless(s, target) && target !in s.refused
    ensures var o, s', young := Rescuer(s, target), RequestUnload(s, target), s.registry[target.name];
      && !Sound(s')
      && (if o != Nobody then o in s.parent && s.parent[o] == young && o in s'.parent && s'.parent[o] == target && target !in s'.mapped
          else young in s'.mapped && !Registered(s', young))
  {
    RequestUnloadCases(s, target);
    RescuerIsAttached(s, target);
    var o, s', young := Rescuer(s, target), RequestUnload(s, target), s.registry[target.name];
    assert young in s.mapped && young != target && young.name == target.name;
    assert Registered(s, young);
    assert target !in s.mapped by { assert !Registered(s, target); }
    if o != Nobody {
      assert !Registered(s', s'.parent[o]);
    } else {
      assert !Registered(s', young) && young !in s'.refused;
    }
  }

  /** UNLOAD SAFETY: in a sound state a recheck that unmaps a module unmaps its own target alone and
      leaves nothing attached to it: no entity, no Root, no owner, and nothing in its Root list. */
  lemma UnloadIsSafe(s: Store, target: Module, m: Module)
    requires Sound(s) && target in s.rechecks
    requires m in s.mapped && m !in RequestUnload(s, target).mapped
    ensures m == target && Registered(s, target) && OwnerOf(s, target) == Nobody && RootsAt(s, target.name) == []
    ensures forall o :: o in s.parent ==> s.parent[o] != target
    ensures Sound(RequestUnload(s, target))
  {
    RequestUnloadCases(s, target);
    hide RequestUnload;
    assert m == target && OwnerOf(s, target) == Nobody && Rescuer(s, target) == Nobody;
    assert Registered(s, target);
    NobodyIsAttached(s, target);
    RescuerIsAttached(s, target);
    UnloadedKeepsSound(s, target);
  }

  // ---- Runs -----------------------------------------------------------------------------------------

  datatype Action =
    | NewToken(o: Token)
    | AttachTo(name: string, o: Token, missing: bool, load: LoadResult, fresh_: Module)
    | Change(r: Root, name: string, load: LoadResult, fresh_: Module)
    | EntityGone(e: Entity, survivor: Token)
    | RootGone(r: Root)
    | Recheck(m: Module)
    | JoinAll

  ghost predicate Enabled(s: Store, a: Action) {
    match a
    case NewToken(o) => o != Nobody && o !in s.tokens
    case AttachTo(name, o, _, _, m) => o in s.tokens && m.name == name && m !in s.owner
    case Change(r, name, _, m) => OfRoot(r) in s.tokens && m.name == name && m !in s.owner
    case EntityGone(e, survivor) => SiblingSearch(s, e, survivor)
    case RootGone(_) => true
    case Recheck(m) => m in s.rechecks
    case JoinAll => true
  }

  ghost function Do(s: Store, a: Action): Store {
    match a
    case NewToken(o) => s.(tokens := s.tokens + {o})
    case AttachTo(name, o, missing, load, m) => Attach(s, name, o, missing, load, m).0
    case Change(r, name, load, m) => ChangeModule(s, r, name, load, m)
    case EntityGone(e, survivor) => EntityDies(s, e, survivor)
    case RootGone(r) => RootDies(s, r)
    case Recheck(m) => RequestUnload(s, m)
    case JoinAll => s.(joined := true)
  }

  /** The handler goes through the bootstrap branch and publishes a new instance under its name. */
  ghost predicate Bootstraps(s: Store, a: Action) {
    match a
    case AttachTo(name, o, _, load, _) => o !in s.parent && name !in s.registry && load == Loads
    case Change(_, name, load, _) => name != "" && name !in s.registry && load == Loads
    case _ => false
  }

  /** A name is not bootstrapped again while a recheck for it is outstanding. */
  ghost predicate Disciplined(s: Store, a: Action) {
    Bootstraps(s, a) ==> forall m :: m in s.rechecks ==> m.name != a.name
  }

  /** Every outstanding recheck is harmless. */
  ghost predicate Prompt(s: Store) {
    forall m :: m in s.rechecks ==> Harmless(s, m)
  }

  lemma DoKeepsSound(s: Store, a: Action)
    requires Sound(s) && Prompt(s) && Enabled(s, a)
    ensures Sound(Do(s, a))
  {
    match a {
      case NewToken(o) => TokensMayShrink(s, Do(s, a));
      case AttachTo(name, o, missing, load, m) => AttachKeepsSound(s, name, o, missing, load, m);
      case Change(r, name, load, m) => ChangeModuleKeepsSound(s, r, name, load, m);
      case EntityGone(e, survivor) => EntityDiesKeepsSound(s, e, survivor);
      case RootGone(r) => RootDiesKeepsSound(s, r);
      case Recheck(m) => RecheckSoundIff(s, m);
      case JoinAll => JoinKeepsSound(s);
    }
  }

  lemma JoinKeepsSound(s: Store)
    requires Sound(s)
    ensures Sound(s.(joined := true))
  {
    var s' := s.(joined := true);
    assert forall m :: OwnerOf(s', m) == OwnerOf(s, m) && Registered(s', m) == Registered(s, m);
    ParentsFrame(s, s');
    RootsFrame(s, s');
    OwnersFrame(s, s');
    hide ParentsOk, RootsOk, OwnersOk, FlagsOk, EntitiesRule;
  }

  /** What one step does to the registry and to the outstanding rechecks. */
  lemma AttachFrame(s: Store, name: string, o: Token, missing: bool, load: LoadResult, m: Module)
    ensures var s' := Attach(s, name, o, missing, load, m).0;
      && s'.rechecks == s.rechecks && s.mapped <= s'.mapped && s.refused <= s'.refused
      && s'.registry == (if o !in s.parent && name !in s.registry && load == Loads then s.registry[name := m] else s.registry)
  {}

  lemma EntityDiesFrame(s: Store, e: Entity, survivor: Token)
    ensures var s' := EntityDies(s, e, survivor);
      && s'.registry == s.registry && s'.mapped == s.mapped && s'.refused == s.refused
      && (forall m :: m in s'.rechecks ==> m in s.rechecks || (OfEntity(e) in s.parent && m == s.parent[OfEntity(e)]))
  {}

  lemma ChangeFrame(s: Store, r: Root, name: string, load: LoadResult, m: Module)
    requires Sound(s)
    ensures var s' := ChangeModule(s, r, name, load, m);
      && s'.registry == (if name != "" && name !in s.registry && load == Loads then s.registry[name := m] else s.registry)
      && (forall x :: x in s.rechecks ==> x in s'.rechecks)
      && (forall x :: x in s'.rechecks && x !in s.rechecks ==> OfRoot(r) in s.parent && x == s.parent[OfRoot(r)] && x.name != name)
  {
    RelinquishFrame(s, r);
    RelinquishKeepsSound(s, r);
    var s1 := Relinquish(s, r);
    hide Relinquish;
    AttachFrame(s1, name, OfRoot(r), false, load, m);
    hide Attach;
    assert OfRoot(r) in s.parent ==> Registered(s, s.parent[OfRoot(r)]);
  }

  /** EXACTLY the undisciplined bootstraps make an outstanding recheck dangerous. */
  lemma DoKeepsPromptIff(s: Store, a: Action)
    requires Sound(s) && Prompt(s) && Enabled(s, a)
    ensures Prompt(Do(s, a)) <==> Disciplined(s, a)
  {
    hide Attach, ChangeModule, EntityDies, RootDies, RequestUnload, Sound, Prompt;
    match a {
      case AttachTo(name, o, missing, load, m) =>
        AttachFrame(s, name, o, missing, load, m);
        PromptAcross(s, Do(s, a), m, Bootstraps(s, a));
      case Change(r, name, load, m) =>
        ChangeFrame(s, r, name, load, m);
        ParentsRegistered(s);
        PromptAcross(s, Do(s, a), m, Bootstraps(s, a));
      case Recheck(m) => RecheckKeepsPrompt(s, m);
      case _ => DeathKeepsPrompt(s, a);
    }
  }

  lemma ParentsRegistered(s: Store)
    requires Sound(s)
    ensures forall o :: o in s.parent ==> Registered(s, s.parent[o])
  {}

  lemma RecheckKeepsPrompt(s: Store, m: Module)
    requires Prompt(s)
    ensures Prompt(RequestUnload(s, m))
  {
    RequestUnloadCases(s, m);
    hide RequestUnload;
    PromptShrinks(s, RequestUnload(s, m));
  }

  lemma DeathKeepsPrompt(s: Store, a: Action)
    requires Sound(s) && Prompt(s) && (a.EntityGone? || a.RootGone? || a.NewToken? || a.JoinAll?)
    ensures Prompt(Do(s, a))
  {
    hide EntityDies, Relinquish, Sound, Prompt;
    ParentsRegistered(s);
    match a {
      case EntityGone(e, survivor) => EntityDiesFrame(s, e, survivor);
      case RootGone(r) => RelinquishFrame(s, r);
      case _ =>
    }
    PromptStays(s, Do(s, a));
  }

  lemma PromptStays(s: Store, s': Store)
    requires Prompt(s) && s'.registry == s.registry
    requires forall m :: m in s'.rechecks ==> m in s.rechecks || Registered(s, m)
    ensures Prompt(s')
  {}

  lemma PromptShrinks(s: Store, s': Store)
    requires Prompt(s) && s'.rechecks <= s.rechecks
    requires forall n :: n in s'.registry ==> n in s.registry && s'.registry[n] == s.registry[n]
    ensures Prompt(s')
  {}

  lemma PromptAcross(s: Store, s': Store, m: Module, boots: bool)
    requires Sound(s) && Prompt(s) && m !in s.owner
    requires s'.registry == if boots then s.registry[m.name := m] else s.registry
    requires forall x :: x in s.rechecks ==> x in s'.rechecks
    requires forall x :: x in s'.rechecks && x !in s.rechecks ==> Registered(s, x) && x.name != m.name
    ensures Prompt(s') <==> (boots ==> forall x :: x in s.rechecks ==> x.name != m.name)
  {
    forall x | x in s.rechecks && x.name == m.name && boots
      ensures !Harmless(s', x)
    {
      assert x in s.owner;
    }
  }

  ghost function After(s: Store, run: seq<Action>): Store
    decreases |run|
  {
    if run == [] then s else After(Do(s, run[0]), run[1..])
  }

  /** Every step is one the program can take from where it stands. */
  ghost predicate Possible(s: Store, run: seq<Action>)
    decreases |run|
  {
    run != [] ==> Enabled(s, run[0]) && Possible(Do(s, run[0]), run[1..])
  }

  ghost predicate DisciplinedRun(s: Store, run: seq<Action>)
    decreases |run|
  {
    run != [] ==> Disciplined(s, run[0]) && DisciplinedRun(Do(s, run[0]), run[1..])
  }

  lemma {:induction false} RunsKeepSound(s: Store, run: seq<Action>)
    requires Sound(s) && Prompt(s) && Possible(s, run) && DisciplinedRun(s, run)
    ensures Sound(After(s, run)) && Prompt(After(s, run))
    decreases |run|
  {
    if run != [] {
      DoKeepsSound(s, run[0]);
      DoKeepsPromptIff(s, run[0]);
      RunsKeepSound(Do(s, run[0]), run[1..]);
    }
  }

  /** What soundness says to a user of the protocol: an attached token's module is mapped; one token at
      most per module is flagged, and it is the named one; a live entity's module is owned by an entity;
      and a registered module that nobody is going to recheck has an owner. */
  ghost predicate Served(s: Store) {
    && (forall o :: o in s.parent ==> s.parent[o] in s.mapped)
    && (forall o :: o in s.flagged ==> o in s.parent && OwnerOf(s, s.parent[o]) == o)
    && (forall o, p :: o in s.flagged && p in s.flagged && s.parent[o] == s.parent[p] ==> o == p)
    && (forall o :: o in s.parent && o.OfEntity? ==> OwnerOf(s, s.parent[o]).OfEntity? && OwnerOf(s, s.parent[o]) in s.tokens)
    && (forall m :: m in s.mapped && m !in s.refused && m !in s.rechecks && !s.joined ==> OwnerOf(s, m) in s.tokens)
  }

  lemma SoundServes(s: Store)
    requires Sound(s)
    ensures Served(s)
  {
    forall o | o in s.parent
      ensures s.parent[o] in s.mapped
      ensures o.OfEntity? ==> OwnerOf(s, s.parent[o]).OfEntity? && OwnerOf(s, s.parent[o]) in s.tokens
    {
      assert Registered(s, s.parent[o]);
    }
    forall m | m in s.mapped && m !in s.refused && m !in s.rechecks && !s.joined
      ensures OwnerOf(s, m) in s.tokens
    {
      assert Registered(s, m);
      assert s.registry[m.name] == m;
    }
  }

  /** The step is the recheck of this very instance, which has no owner and nothing attached. */
  ghost predicate UnloadedUnused(s: Store, a: Action, m: Module) {
    a == Recheck(m) && OwnerOf(s, m) == Nobody && forall o :: o in s.parent ==> s.parent[o] != m
  }

  /** Over every disciplined run from the start, every reached state serves its users, and every step
      that unmaps something is a recheck whose module had nothing attached to it. */
  lemma RunsAreSafe(run: seq<Action>, a: Action)
    requires Possible(Fresh(), run + [a]) && DisciplinedRun(Fresh(), run + [a])
    ensures var s := After(Fresh(), run);
      && Served(s) && Served(Do(s, a))
      && forall m :: m in s.mapped && m !in Do(s, a).mapped ==> UnloadedUnused(s, a, m)
  {
    FreshIsSound();
    assert Prompt(Fresh());
    SplitRun(Fresh(), run, a);
    RunsKeepSound(Fresh(), run);
    hide Do, Sound, Prompt, Served, Enabled, Disciplined, UnloadedUnused;
    var s := After(Fresh(), run);
    DoKeepsSound(s, a);
    SoundServes(s);
    SoundServes(Do(s, a));
    forall m | m in s.mapped && m !in Do(s, a).mapped
      ensures UnloadedUnused(s, a, m)
    {
      UnmappedUnused(s, a, m);
    }
  }

  lemma UnmappedUnused(s: Store, a: Action, m: Module)
    requires Sound(s) && Enabled(s, a) && m in s.mapped && m !in Do(s, a).mapped
    ensures UnloadedUnused(s, a, m)
  {
    hide Sound;
    OnlyRechecksUnmap(s, a);
    assert a.Recheck?;
    UnloadIsSafe(s, a.m, m);
  }

  lemma OnlyRechecksUnmap(s: Store, a: Action)
    ensures s.refused <= Do(s, a).refused
    ensures !a.Recheck? ==> s.mapped <= Do(s, a).mapped
  {
    match a {
      case AttachTo(name, o, missing, load, m) => AttachFrame(s, name, o, missing, load, m); hide Attach;
      case Change(r, name, load, m) =>
        RelinquishFrame(s, r);
        AttachFrame(Relinquish(s, r), name, OfRoot(r), false, load, m);
        hide Relinquish, Attach;
      case EntityGone(e, survivor) => EntityDiesFrame(s, e, survivor); hide EntityDies;
      case RootGone(r) => RelinquishFrame(s, r); hide Relinquish;
      case _ =>
    }
  }

  lemma {:induction false} SplitRun(s: Store, run: seq<Action>, a: Action)
    requires Possible(s, run + [a]) && DisciplinedRun(s, run + [a])
    ensures Possible(s, run) && DisciplinedRun(s, run) && Enabled(After(s, run), a) && Disciplined(After(s, run), a)
    decreases |run|
  {
    if run != [] {
      assert (run + [a])[0] == run[0] && (run + [a])[1..] == run[1..] + [a];
      SplitRun(Do(s, run[0]), run[1..], a);
    } else {
      assert (run + [a])[0] == a;
    }
  }

  /** An instance whose registration was refused stays mapped for good: no step unmaps it, and it never
      gets an owner whose leaving could. */
  lemma RefusedStaysMapped(s: Store, a: Action, m: Module)
    requires Sound(s) && Enabled(s, a) && m in s.refused
    ensures m in Do(s, a).refused && m in Do(s, a).mapped && OwnerOf(s, m) == Nobody
  {
    assert m in s.mapped && !Registered(s, m);
    if OwnerOf(s, m) != Nobody {
      ParentHasOwnerEntry(s, s.owner[m]);
    }
    OnlyRechecksUnmap(s, a);
    if a.Recheck? {
      RequestUnloadCases(s, a.m);
    }
  }

  // ---- The discipline is needed -----------------------------------------------------------------------

  const Old := Module("m", 0)
  const Young := Module("m", 1)
  const Nameless := Module("", 0)

  /** Twice attached and relinquished inside the delay, so that two rechecks of the same instance are
      outstanding; the first one unloads it, and the name is bootstrapped again before the second. */
  ghost function StaleRun(): seq<Action> {
    [NewToken(OfRoot(0)), AttachTo("m", OfRoot(0), false, Loads, Old), Change(0, "", Loads, Nameless),
     Change(0, "m", Loads, Young), Change(0, "", Loads, Nameless),
     Recheck(Old), AttachTo("m", OfRoot(0), false, Loads, Young), Recheck(Old)]
  }

  ghost function Idle(rechecks: multiset<Module>): Store {
    Store({OfRoot(0)}, map[], {}, map[Old := Nobody], {Old}, {}, map["m" := Old], map["m" := []], rechecks, false)
  }

  ghost function Held(m: Module, owner: map<Module, Token>, rechecks: multiset<Module>): Store {
    Store({OfRoot(0)}, map[OfRoot(0) := m], {OfRoot(0)}, owner, {m}, {}, map["m" := m], map["m" := [0]], rechecks, false)
  }

  ghost function Gone(): Store {
    Store({OfRoot(0)}, map[], {}, map[Old := Nobody], {}, {}, map[], map["m" := []], multiset{Old}, false)
  }

  lemma FirstHold()
    ensures Do(Do(Fresh(), NewToken(OfRoot(0))), AttachTo("m", OfRoot(0), false, Loads, Old)) == Held(Old, map[Old := OfRoot(0)], multiset{})
  {
    var s := Do(Fresh(), NewToken(OfRoot(0)));
    assert s.tokens == {OfRoot(0)};
    var p := Publish(s, "m", Old);
    assert p.owner == map[Old := Nobody] && p.mapped == {Old} && p.registry == map["m" := Old];
    assert RootsAt(p, "m") + [0] == [0];
    assert TakesOver(p, OfRoot(0), Old);
    var s' := Claim(p, OfRoot(0), Old);
    assert s'.flagged == {OfRoot(0)} && s'.owner == map[Old := OfRoot(0)];
    assert s'.parent == map[OfRoot(0) := Old] && s'.rootsOf == map["m" := [0]];
  }

  lemma HeldThenIdle(rechecks: multiset<Module>)
    ensures Do(Held(Old, map[Old := OfRoot(0)], rechecks), Change(0, "", Loads, Nameless)) == Idle(rechecks + multiset{Old})
  {
    var s := Held(Old, map[Old := OfRoot(0)], rechecks);
    assert RootsAt(s, "m") == [0];
    assert FirstOther([0], OfRoot(0)) == FirstOther([], OfRoot(0)) == Nobody;
    assert Without([0], 0) == [];
    var s' := Relinquish(s, 0);
    assert s'.parent == map[] && s'.flagged == {} && s'.owner == map[Old := Nobody] && s'.rootsOf == map["m" := []];
  }

  lemma IdleThenHeld(rechecks: multiset<Module>)
    ensures Do(Idle(rechecks), Change(0, "m", Loads, Young)) == Held(Old, map[Old := OfRoot(0)], rechecks)
  {
    var s := Idle(rechecks);
    assert Relinquish(s, 0) == s;
    assert RootsAt(s, "m") + [0] == [0];
    assert TakesOver(s, OfRoot(0), Old);
    var s' := Claim(s, OfRoot(0), Old);
    assert s'.flagged == {OfRoot(0)} && s'.owner == map[Old := OfRoot(0)] && s'.rootsOf == map["m" := [0]];
    assert s'.parent == map[OfRoot(0) := Old];
  }

  lemma IdleThenGone()
    ensures Do(Idle(multiset{Old, Old}), Recheck(Old)) == Gone()
  {
    var s := Idle(multiset{Old, Old});
    var s' := RequestUnload(s, Old);
    assert RootsAt(s, "m") == [];
    assert s'.registry == map[] && s'.mapped == {} && s'.rechecks == multiset{Old};
  }

  ghost function Reloaded(): Store {
    Held(Young, map[Old := Nobody, Young := OfRoot(0)], multiset{Old})
  }

  lemma GoneThenReloaded()
    ensures Do(Gone(), AttachTo("m", OfRoot(0), false, Loads, Young)) == Reloaded()
  {
    var s := Publish(Gone(), "m", Young);
    assert s.owner == map[Old := Nobody, Young := Nobody] && s.mapped == {Young} && s.registry == map["m" := Young];
    assert RootsAt(s, "m") + [0] == [0];
    assert TakesOver(s, OfRoot(0), Young);
    var s' := Claim(s, OfRoot(0), Young);
    assert s'.flagged == {OfRoot(0)} && s'.owner == map[Old := Nobody, Young := OfRoot(0)];
    assert s'.parent == map[OfRoot(0) := Young] && s'.rootsOf == map["m" := [0]];
  }

  lemma StaleStep()
    ensures var s := Do(Reloaded(), Recheck(Old));
      && OfRoot(0) in s.parent && s.parent[OfRoot(0)] == Old && OwnerOf(s, Old) == OfRoot(0) && Old !in s.mapped
      && OwnerOf(s, Young) == OfRoot(0) && Young in s.mapped
    ensures !Disciplined(Gone(), AttachTo("m", OfRoot(0), false, Loads, Young))
  {
    assert RootsAt(Reloaded(), "m") == [0] && FirstOther([0], Nobody) == OfRoot(0);
    assert Old in Gone().rechecks && Old.name == "m";
  }

  lemma StaleEnabled()
    ensures Enabled(Fresh(), NewToken(OfRoot(0)))
    ensures Enabled(Do(Fresh(), NewToken(OfRoot(0))), AttachTo("m", OfRoot(0), false, Loads, Old))
    ensures forall rechecks :: Enabled(Held(Old, map[Old := OfRoot(0)], rechecks), Change(0, "", Loads, Nameless))
    ensures forall rechecks :: Enabled(Idle(rechecks), Change(0, "m", Loads, Young))
    ensures Enabled(Idle(multiset{Old, Old}), Recheck(Old))
    ensures Enabled(Gone(), AttachTo("m", OfRoot(0), false, Loads, Young))
    ensures Enabled(Reloaded(), Recheck(Old))
  {}

  /** The same Root ends up attached to, and elected owner of, the instance that is no longer mapped. */
  lemma StaleRunAttachesToTheUnloaded()
    ensures var s := After(Fresh(), StaleRun());
      && Possible(Fresh(), StaleRun()) && !DisciplinedRun(Fresh(), StaleRun())
      && OfRoot(0) in s.parent && s.parent[OfRoot(0)] == Old && OwnerOf(s, Old) == OfRoot(0) && Old !in s.mapped
      && OwnerOf(s, Young) == OfRoot(0) && Young in s.mapped
  {
    hide Do, Enabled;
    var held := Held(Old, map[Old := OfRoot(0)], multiset{});
    var created := Do(Fresh(), NewToken(OfRoot(0)));
    FirstHold();
    HeldThenIdle(multiset{});
    assert multiset{} + multiset{Old} == multiset{Old};
    IdleThenHeld(multiset{Old});
    HeldThenIdle(multiset{Old});
    assert multiset{Old} + multiset{Old} == multiset{Old, Old};
    IdleThenGone();
    GoneThenReloaded();
    StaleEnabled();
    var run := StaleRun();
    Unroll(created, run[1..], held, run[2..]);
    Unroll(held, run[2..], Idle(multiset{Old}), run[3..]);
    Unroll(Idle(multiset{Old}), run[3..], Held(Old, map[Old := OfRoot(0)], multiset{Old}), run[4..]);
    Unroll(Held(Old, map[Old := OfRoot(0)], multiset{Old}), run[4..], Idle(multiset{Old, Old}), run[5..]);
    Unroll(Idle(multiset{Old, Old}), run[5..], Gone(), run[6..]);
    Unroll(Gone(), run[6..], Reloaded(), run[7..]);
    var last := Do(Reloaded(), Recheck(Old));
    Unroll(Reloaded(), run[7..], last, run[8..]);
    Unroll(Fresh(), run, created, run[1..]);
    StaleStep();
  }

  lemma Unroll(s: Store, run: seq<Action>, s1: Store, rest: seq<Action>)
    requires run != [] && rest == run[1..] && s1 == Do(s, run[0])
    ensures After(s, run) == After(s1, rest)
    ensures Possible(s, run) <==> Enabled(s, run[0]) && Possible(s1, rest)
    ensures DisciplinedRun(s, run) <==> Disciplined(s, run[0]) && DisciplinedRun(s1, rest)
  {}
}
