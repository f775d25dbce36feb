/** The loader's ordering-thread handlers, updating its state in place (core/DynamicLoader.h:508-555,
    1605-1998, 2047-2102; core/EventNode.h:937-961). Each is proved equal to its specification in
    Lifetime.dfy; what the specification keeps, and what it leaves behind (LifetimeEffects.dfy), is stated of
    the loader itself.

    A token's two fields, parent and is_lifetime_owner, are kept in one map and one set of the loader,
    keyed by the identity of the object that carries the token. */
module Loaders {
  import opened Lifetime
  import opened LifetimeRuns
  import opened LifetimeEffects

  class Loader {
    var tokens: set<Token>
    var parent: map<Token, Module>
    var flagged: set<Token>
    var owner: map<Module, Token>
    var mapped: set<Module>
    var refused: set<Module>
    var registry: map<string, Module>
    var rootsOf: map<string, seq<Root>>
    var rechecks: multiset<Module>
    var joined: bool

    ghost function State(): Store
      reads this
    {
      Store(tokens, parent, flagged, owner, mapped, refused, registry, rootsOf, rechecks, joined)
    }

    constructor ()
      ensures State() == Fresh() && Sound(State()) && Prompt(State())
    {
      tokens, parent, flagged, owner, mapped, refused := {}, map[], {}, map[], {}, {};
      registry, rootsOf, rechecks, joined := map[], map[], multiset{}, false;
    }

    method RegisterRoot(name: string, r: Root)
      modifies this`rootsOf
      ensures rootsOf == old(rootsOf)[name := old(RootsAt(State(), name)) + [r]]
    {
      var list := if name in rootsOf then rootsOf[name] else [];
      rootsOf := rootsOf[name := list + [r]];
    }

    method UnregisterRoot(name: string, r: Root)
      modifies this`rootsOf
      ensures rootsOf == if name in old(rootsOf) then old(rootsOf)[name := Without(old(rootsOf)[name], r)] else old(rootsOf)
    {
      if name !in rootsOf {
        return;
      }
      var list, i := rootsOf[name], 0;
      while i < |list| && list[i] != r
        invariant 0 <= i <= |list| && r !in list[..i]
      {
        i := i + 1;
      }
      WithoutFirst(list, r, i);
      hide Without;
      if i < |list| {
        rootsOf := rootsOf[name := list[..i] + list[i + 1..]];
      } else {
        assert rootsOf == rootsOf[name := list];
      }
    }

    method FindRootCandidate(name: string, exclude: Token) returns (found: Token)
      ensures found == FirstOther(RootsAt(State(), name), exclude)
      ensures IsEldest(RootsAt(State(), name), exclude, found)
    {
      FirstIsEldest(RootsAt(State(), name), exclude);
      hide IsEldest;
      if name !in rootsOf {
        return Nobody;
      }
      var list, i := rootsOf[name], 0;
      while i < |list|
        invariant 0 <= i <= |list|
        invariant FirstOther(list, exclude) == FirstOther(list[i..], exclude)
      {
        if OfRoot(list[i]) != exclude {
          return OfRoot(list[i]);
        }
        assert list[i..][1..] == list[i + 1..];
        i := i + 1;
      }
      return Nobody;
    }

    method LifetimeOwner(m: Module) returns (o: Token)
      ensures o == OwnerOf(State(), m)
    {
      o := if m in owner then owner[m] else Nobody;
    }

    /** The token becomes the module's owner. */
    method Elect(o: Token, m: Module)
      modifies this`parent, this`flagged, this`owner
      ensures parent == old(parent)[o := m] && flagged == old(flagged) + {o} && owner == old(owner)[m := o]
    {
      parent := parent[o := m];
      flagged := flagged + {o};
      owner := owner[m := o];
    }

    method PromoteOrVacate(o: Token, survivor: Token)
      modifies this
      ensures State() == Lifetime.PromoteOrVacate(old(State()), o, survivor)
    {
      if o !in flagged || o !in parent {
        return;
      }
      var global := parent[o];
      var elected := survivor;
      if elected != Nobody && elected in parent && parent[elected] != global {
        elected := Nobody;
      }
      if elected != Nobody {
        Elect(elected, global);
        return;
      }
      owner := owner[global := Nobody];
      if !joined {
        rechecks := rechecks + multiset{global};
      }
    }

    /** Steps 3 and 4: whoever attaches, the module is owned afterwards. */
    method ClaimModule(o: Token, m: Module)
      requires o != Nobody && Nobody !in flagged
      modifies this`parent, this`rootsOf, this`flagged, this`owner
      ensures State() == Claim(old(State()), o, m)
      ensures Joined(old(State()), State(), o, m) && OwnerOf(State(), m) != Nobody
    {
      ClaimOwners(State(), o, m);
      ClaimSays(State(), o, m);
      parent := parent[o := m];
      if o.OfRoot? {
        RegisterRoot(m.name, o.root);
      }
      var current := LifetimeOwner(m);
      assert current == old(OwnerOf(State(), m));
      hide OwnerOf, RootsAt, Joined, OthersStay, OtherLists;
      if current == Nobody {
        flagged := flagged + {o};
        owner := owner[m := o];
        assert flagged == old(flagged) - {current} + {o};
      } else if current.OfRoot? && o.OfEntity? {
        flagged := flagged - {current};
        flagged := flagged + {o};
        owner := owner[m := o];
      }
    }

    method AttachModule(name: string, o: Token, missing: bool, load: LoadResult, created: Module) returns (ok: bool)
      requires Sound(State()) && o in tokens && created.name == name && created !in owner
      modifies this
      ensures (State(), ok) == Attach(old(State()), name, o, missing, load, created)
      ensures Sound(State())
      ensures ok ==> o in parent && parent[o].name == name && parent[o] in mapped
      ensures ok <==> if o in old(parent) then old(parent)[o].name == name else !missing && (name in old(registry) || load == Loads)
      ensures Attached(old(State()), State(), ok, name, o, missing, load, created)
    {
      AttachDelivers(State(), name, o, missing, load, created);
      AttachSays(State(), name, o, missing, load, created);
      NobodyHasNoFlag(State());
      hide Sound, Claim, OwnerOf, Joined, OthersStay, OtherLists, Loaded;
      if o in parent {
        return parent[o].name == name;
      }
      var m := created;
      if name in registry {
        m := registry[name];
      } else {
        var loaded := Bootstrap(load, created);
        if !loaded {
          return false;
        }
      }
      ClaimModule(o, m);
      ok := !missing;
    }

    /** The bootstrap branch: an instance that is not published is abandoned. */
    method Bootstrap(load: LoadResult, m: Module) returns (ok: bool)
      modifies this`owner, this`mapped, this`refused, this`registry
      ensures ok <==> load == Loads
      ensures State() == if ok then Publish(old(State()), m.name, m) else Abandoned(old(State()), m, load == Refuses)
    {
      owner := owner[m := Nobody];
      if load == Throws {
        return false;
      }
      mapped := mapped + {m};
      if load == Refuses {
        refused := refused + {m};
        return false;
      }
      registry := registry[m.name := m];
      return true;
    }

    /** changeModuleImpl up to the reattach: an attached Root leaves. */
    method RelinquishModule(r: Root)
      requires Sound(State())
      modifies this
      ensures State() == Relinquish(old(State()), r)
      ensures Sound(State()) && OfRoot(r) !in parent
      ensures Left(old(State()), State(), r)
    {
      RelinquishKeepsSound(State(), r);
      RelinquishSays(State(), r);
      hide *;
      LeaveModule(r);
    }

    method LeaveModule(r: Root)
      modifies this
      ensures State() == Relinquish(old(State()), r)
    {
      hide Without, FirstOther, Lifetime.PromoteOrVacate, RootsAt;
      var o := OfRoot(r);
      if o !in parent {
        return;
      }
      var name := parent[o].name;
      var survivor := FindRootCandidate(name, o);
      PromoteOrVacate(o, survivor);
      UnregisterRoot(name, r);
      parent := parent - {o};
      flagged := flagged - {o};
    }

    method ChangeRootModule(r: Root, target: string, load: LoadResult, created: Module)
      requires Sound(State()) && OfRoot(r) in tokens && created.name == target && created !in owner
      modifies this
      ensures State() == ChangeModule(old(State()), r, target, load, created)
      ensures Sound(State()) && Changed(old(State()), State(), r, target, load, created)
      ensures target != "" && (target in old(registry) || load == Loads) ==> OfRoot(r) in parent && parent[OfRoot(r)].name == target
      ensures target == "" || (target !in old(registry) && load != Loads) ==> OfRoot(r) !in parent || State() == old(State())
    {
      ChangeModuleKeepsSound(State(), r, target, load, created);
      ChangeSays(State(), r, target, load, created);
      Arrives(State(), ChangeModule(State(), r, target, load, created), r, target, load, created);
      hide Changed, Left, Attached, Sound;
      if OfRoot(r) in parent && parent[OfRoot(r)].name == target {
        return;
      }
      OwnersAfter(State(), r, created);
      RelinquishModule(r);
      if target == "" {
        return;
      }
      var _ := AttachModule(target, OfRoot(r), false, load, created);
    }

    method EntityUnload(e: Entity, survivor: Token)
      requires Sound(State()) && SiblingSearch(State(), e, survivor)
      modifies this
      ensures State() == EntityDies(old(State()), e, survivor)
      ensures Sound(State()) && OfEntity(e) !in tokens && Died(old(State()), State(), e, survivor)
    {
      EntityDiesKeepsSound(State(), e, survivor);
      DeathSays(State(), e, survivor);
      hide Died, Sound;
      PromoteOrVacate(OfEntity(e), survivor);
      tokens, parent, flagged := tokens - {OfEntity(e)}, parent - {OfEntity(e)}, flagged - {OfEntity(e)};
    }

    method DestroyRoot(r: Root)
      requires Sound(State())
      modifies this
      ensures State() == RootDies(old(State()), r)
      ensures Sound(State()) && tokens == old(tokens) - {OfRoot(r)} && Left(old(State()), State(), r)
    {
      RootDiesKeepsSound(State(), r);
      RootDeathSays(State(), r);
      hide Left;
      RelinquishModule(r);
      tokens, parent, flagged := tokens - {OfRoot(r)}, parent - {OfRoot(r)}, flagged - {OfRoot(r)};
    }

    /** The delayed recheck. It keeps the loader sound exactly when no younger instance of the name is
        registered, and it unmaps a module only if nothing at all is attached to it. */
    method RequestUnload(target: Module)
      requires Sound(State()) && target in rechecks
      modifies this
      ensures State() == Lifetime.RequestUnload(old(State()), target)
      ensures Sound(State()) <==> old(Harmless(State(), target))
      ensures old(mapped) != mapped ==>
        mapped == old(mapped) - {target} && forall o :: o in parent ==> parent[o] != target
      ensures Rechecked(old(State()), State(), target)
    {
      RecheckSoundIff(State(), target);
      RecheckSays(State(), target);
      UnmapsUnattached(State(), target);
      hide *;
      Recheck(target);
    }

    method Recheck(target: Module)
      modifies this
      ensures State() == Lifetime.RequestUnload(old(State()), target)
    {
      RequestUnloadCases(State(), target);
      hide Lifetime.RequestUnload, Rescuer, Rescued, Unloaded;
      var current := LifetimeOwner(target);
      if current != Nobody {
        rechecks := rechecks - multiset{target};
      } else {
        RecheckVacant(target);
      }
    }

    /** The second look, at the registered Roots. */
    method RecheckVacant(target: Module)
      modifies this
      ensures State() == var s := old(State());
        if Rescuer(s, target) != Nobody then Rescued(s, target, Rescuer(s, target)) else Unloaded(s, target)
    {
      var survivor := FindRootCandidate(target.name, Nobody);
      assert survivor == Rescuer(State(), target);
      hide Rescuer, FirstOther, RootsAt;
      rechecks := rechecks - multiset{target};
      if survivor != Nobody {
        Elect(survivor, target);
      } else {
        Unload(target);
      }
    }

    method Unload(target: Module)
      modifies this`registry, this`mapped
      ensures registry == old(registry) - {target.name} && mapped == old(mapped) - {target}
    {
      registry := registry - {target.name};
      mapped := mapped - {target};
    }
  }

  lemma Arrives(s: Store, s': Store, r: Root, target: string, load: LoadResult, m: Module)
    requires Sound(s) && m.name == target && Changed(s, s', r, target, load, m)
    ensures target != "" && (target in s.registry || load == Loads) ==> OfRoot(r) in s'.parent && s'.parent[OfRoot(r)].name == target
    ensures target == "" || (target !in s.registry && load != Loads) ==> OfRoot(r) !in s'.parent || s' == s
  {
    assert target in s.registry ==> s.registry[target].name == target;
    hide Sound, IsEldest, HandsOver, LosesOne, Loaded, OthersStay;
  }

  /** Erasing the first occurrence, or nothing. */
  lemma {:induction false} WithoutFirst(list: seq<Root>, r: Root, i: nat)
    requires i <= |list| && r !in list[..i] && (i < |list| ==> list[i] == r)
    ensures Without(list, r) == if i < |list| then list[..i] + list[i + 1..] else list
    decreases |list|
  {
    if i > 0 {
      assert list[0] == list[..i][0] && list[1..][..i - 1] == list[..i][1..];
      WithoutFirst(list[1..], r, i - 1);
      assert i < |list| ==> list[1..][i - 1 + 1..] == list[i + 1..];
    }
  }

  lemma AttachDelivers(s: Store, name: string, o: Token, missing: bool, load: LoadResult, m: Module)
    requires Sound(s) && o in s.tokens && m.name == name && m !in s.owner
    ensures var (s', ok) := Attach(s, name, o, missing, load, m);
      Sound(s') && (ok ==> o in s'.parent && s'.parent[o].name == name && s'.parent[o] in s'.mapped)
  {
    AttachKeepsSound(s, name, o, missing, load, m);
    var (s', ok) := Attach(s, name, o, missing, load, m);
    SoundServes(s');
    assert ok ==> o in s'.parent && s'.parent[o].name == name;
  }

  lemma NobodyHasNoFlag(s: Store)
    requires Sound(s)
    ensures Nobody !in s.flagged && Nobody !in s.tokens
  {}

  lemma OwnersAfter(s: Store, r: Root, m: Module)
    requires Sound(s) && m !in s.owner
    ensures m !in Relinquish(s, r).owner && Relinquish(s, r).tokens == s.tokens
  {
    RelinquishFrame(s, r);
    ParentsRegistered(s);
  }

  lemma UnmapsUnattached(s: Store, target: Module)
    requires Sound(s) && target in s.rechecks
    ensures var s' := Lifetime.RequestUnload(s, target);
      s'.mapped != s.mapped ==> s'.mapped == s.mapped - {target} && forall o :: o in s'.parent ==> s'.parent[o] != target
  {
    RequestUnloadCases(s, target);
    var s' := Lifetime.RequestUnload(s, target);
    if s'.mapped != s.mapped {
      NobodyIsAttached(s, target);
    }
  }
}
