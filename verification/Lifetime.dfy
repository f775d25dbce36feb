/** Who keeps a module loaded (core/DynamicLoader.h:508-555, 1605-1998, 2047-2102; core/EventNode.h:926-961).

    Every Root and every root-level Entity carries a token: the module it is attached to, and whether it
    is that module's elected lifetime owner. Every handler runs on the loader's one ordering thread, so
    each is one atomic step; the 100 ms between a vacate and its recheck is any gap at all.

    This file specifies each handler as a function on the state and proves what the handlers keep.
    LifetimeRuns.dfy has the recheck and whole runs; Loader.dfy has the handlers themselves, updating the
    loader's state in place, proved equal to these functions.

    Modelling choices.
    - Loading a library is opaque: it succeeds, it throws, or the module refuses registration.
    - `rechecks` holds every recheck that has been fired and has not run yet, in whatever phase.
    - The sibling search of a dying entity is a parameter, constrained only by what its callers rely on.
    - Typed children, which never own a module, are not modelled. */
module Lifetime {

  /** Objects are known by their identity; a module instance also by its name, which never changes. */
  type Root = nat
  type Entity = nat
  datatype Module = Module(name: string, serial: nat)

  /** LifetimeOwner: whichever kind of thing carries the token, or nothing. */
  datatype Token = Nobody | OfEntity(entity: Entity) | OfRoot(root: Root)

  datatype LoadResult = Loads | Throws | Refuses

  /** tokens: the live ones. parent: those attached, and to what. flagged: those with is_lifetime_owner.
      owner: each module instance's lifetime_owner. refused: instances mapped but never registered. */
  datatype Store = Store(
    tokens: set<Token>, parent: map<Token, Module>, flagged: set<Token>,
    owner: map<Module, Token>, mapped: set<Module>, refused: set<Module>,
    registry: map<string, Module>, rootsOf: map<string, seq<Root>>,
    rechecks: multiset<Module>, joined: bool)

  ghost function Fresh(): Store {
    Store({}, map[], {}, map[], {}, {}, map[], map[], multiset{}, false)
  }

  // ---- root_registry ------------------------------------------------------------------------------

  ghost function RootsAt(s: Store, name: string): seq<Root> {
    if name in s.rootsOf then s.rootsOf[name] else []
  }

  /** The first Root in the list other than the excluded token. */
  ghost function FirstOther(roots: seq<Root>, exclude: Token): Token {
    if roots == [] then Nobody
    else if OfRoot(roots[0]) != exclude then OfRoot(roots[0])
    else FirstOther(roots[1..], exclude)
  }

  /** The list without its first occurrence of the Root. */
  ghost function Without(roots: seq<Root>, r: Root): seq<Root> {
    if roots == [] then []
    else if roots[0] == r then roots[1..]
    else [roots[0]] + Without(roots[1..], r)
  }

  // ---- The handlers -------------------------------------------------------------------------------

  ghost function OwnerOf(s: Store, m: Module): Token {
    if m in s.owner then s.owner[m] else Nobody
  }

  /** Module::promoteOrVacate, called on the token of `o`. */
  ghost function PromoteOrVacate(s: Store, o: Token, survivor: Token): Store {
    if o !in s.flagged || o !in s.parent then s
    else
      var global := s.parent[o];
      if survivor != Nobody && !(survivor in s.parent && s.parent[survivor] != global) then
        s.(parent := s.parent[survivor := global], flagged := s.flagged + {survivor}, owner := s.owner[global := survivor])
      else
        s.(owner := s.owner[global := Nobody],
           rechecks := if s.joined then s.rechecks else s.rechecks + multiset{global})
  }

  /** The token takes the module over: it is vacant, or a Root holds it and a real entity arrives. */
  ghost predicate TakesOver(s: Store, o: Token, m: Module) {
    OwnerOf(s, m) == Nobody || (OwnerOf(s, m).OfRoot? && o.OfEntity?)
  }

  /** attachModule, steps 3 and 4: the proxy, the registration of a Root, and the claim or hand-off. */
  ghost function Claim(s: Store, o: Token, m: Module): Store {
    s.(parent := s.parent[o := m],
       rootsOf := if o.OfRoot? then s.rootsOf[m.name := RootsAt(s, m.name) + [o.root]] else s.rootsOf,
       flagged := if TakesOver(s, o, m) then s.flagged - {OwnerOf(s, m)} + {o} else s.flagged,
       owner := if TakesOver(s, o, m) then s.owner[m := o] else s.owner)
  }

  /** attachModule. `missing` says that a spawn tag was given and the module's catalog lacks it. */
  ghost function Attach(s: Store, name: string, o: Token, missing: bool, load: LoadResult, fresh_: Module): (Store, bool) {
    if o in s.parent then (s, s.parent[o].name == name)
    else if name in s.registry then (Claim(s, o, s.registry[name]), !missing)
    else match load
      case Throws => (s.(owner := s.owner[fresh_ := Nobody]), false)
      case Refuses =>
        (s.(owner := s.owner[fresh_ := Nobody], mapped := s.mapped + {fresh_}, refused := s.refused + {fresh_}), false)
      case Loads => (Claim(Publish(s, name, fresh_), o, fresh_), !missing)
  }

  ghost function Publish(s: Store, name: string, m: Module): Store {
    s.(owner := s.owner[m := Nobody], mapped := s.mapped + {m}, registry := s.registry[name := m])
  }

  /** The first half of changeModuleImpl: an attached Root gives its module up. */
  ghost function Relinquish(s: Store, r: Root): Store {
    var o := OfRoot(r);
    if o !in s.parent then s
    else
      var name := s.parent[o].name;
      var s1 := PromoteOrVacate(s, o, FirstOther(RootsAt(s, name), o));
      s1.(rootsOf := if name in s1.rootsOf then s1.rootsOf[name := Without(s1.rootsOf[name], r)] else s1.rootsOf,
          parent := s1.parent - {o}, flagged := s1.flagged - {o})
  }

  ghost function ChangeModule(s: Store, r: Root, target: string, load: LoadResult, fresh_: Module): Store {
    if OfRoot(r) in s.parent && s.parent[OfRoot(r)].name == target then s
    else
      var s1 := Relinquish(s, r);
      if target == "" then s1 else Attach(s1, target, OfRoot(r), false, load, fresh_).0
  }

  ghost function Forget(s: Store, o: Token): Store {
    s.(tokens := s.tokens - {o}, parent := s.parent - {o}, flagged := s.flagged - {o})
  }

  /** run_entity_delete for a root-level entity: the election, then the destructor. */
  ghost function EntityDies(s: Store, e: Entity, survivor: Token): Store {
    Forget(PromoteOrVacate(s, OfEntity(e), survivor), OfEntity(e))
  }

  /** ~Root: its token relinquishes, then it is gone. */
  ghost function RootDies(s: Store, r: Root): Store {
    Forget(Relinquish(s, r), OfRoot(r))
  }

  /** requestUnloadImpl, for one outstanding recheck of `target`. */
  ghost function RequestUnload(s: Store, target: Module): Store {
    var s1 := s.(rechecks := s.rechecks - multiset{target});
    if OwnerOf(s, target) != Nobody then s1
    else
      var survivor := FirstOther(RootsAt(s, target.name), Nobody);
      if survivor != Nobody then
        s1.(parent := s.parent[survivor := target], flagged := s.flagged + {survivor}, owner := s.owner[target := survivor])
      else
        s1.(registry := s.registry - {target.name}, mapped := s.mapped - {target})
  }

  // ---- The invariant ------------------------------------------------------------------------------

  ghost predicate Registered(s: Store, m: Module) {
    m.name in s.registry && s.registry[m.name] == m
  }

  ghost predicate NamesOk(s: Store) {
    forall n :: n in s.registry ==> s.registry[n].name == n
  }

  /** What is mapped is registered, except an instance whose registration was refused. */
  ghost predicate MappedOk(s: Store) {
    && s.refused <= s.mapped
    && (forall n :: n in s.registry ==> s.registry[n] in s.mapped)
    && (forall m :: m in s.mapped ==> m in s.owner && (Registered(s, m) <==> m !in s.refused))
  }

  /** A token is only ever attached to the one registered instance of its module. */
  ghost predicate ParentsOk(s: Store) {
    && Nobody !in s.tokens
    && (forall o :: o in s.parent ==> o in s.tokens && Registered(s, s.parent[o]))
  }

  /** ONE OWNER: a module names a token exactly when that token is attached to it and flagged. */
  ghost predicate FlagsOk(s: Store) {
    forall o :: o in s.flagged ==> o in s.parent && OwnerOf(s, s.parent[o]) == o
  }

  ghost predicate OwnersOk(s: Store) {
    forall m :: m in s.owner && s.owner[m] != Nobody ==>
      s.owner[m] in s.flagged && s.owner[m] in s.parent && s.parent[s.owner[m]] == m
  }

  ghost predicate Distinct<T>(xs: seq<T>) {
    forall i, j :: 0 <= i < j < |xs| ==> xs[i] != xs[j]
  }

  /** The Roots registered under a name are exactly the ones attached to that module, each once. */
  ghost predicate RootsOk(s: Store) {
    && (forall n :: n in s.rootsOf ==> Distinct(s.rootsOf[n]))
    && (forall n, r :: n in s.rootsOf && r in s.rootsOf[n] ==> OfRoot(r) in s.parent && s.parent[OfRoot(r)].name == n)
    && (forall o :: o in s.parent && o.OfRoot? ==> o.root in RootsAt(s, s.parent[o].name))
  }

  /** THE KEY CLAUSE: a live attached entity forces an entity owner. */
  ghost predicate EntitiesRule(s: Store) {
    forall o :: o in s.parent && o.OfEntity? ==> OwnerOf(s, s.parent[o]).OfEntity?
  }

  /** NO LEAK: a registered module nobody owns has a recheck outstanding, until the join barrier. */
  ghost predicate NoLeak(s: Store) {
    !s.joined ==> forall n :: n in s.registry && OwnerOf(s, s.registry[n]) == Nobody ==> s.registry[n] in s.rechecks
  }

  /** A recheck is only ever outstanding for an instance that was once registered. */
  ghost predicate RechecksOk(s: Store) {
    forall m :: m in s.rechecks ==> m in s.owner && m !in s.refused
  }

  ghost predicate Sound(s: Store) {
    && NamesOk(s) && MappedOk(s) && ParentsOk(s) && FlagsOk(s) && OwnersOk(s)
    && RootsOk(s) && EntitiesRule(s) && NoLeak(s) && RechecksOk(s)
  }

  lemma FreshIsSound()
    ensures Sound(Fresh())
  {}

  /** Three clauses depend only on what they mention. */
  lemma RootsFrame(s: Store, s': Store)
    requires RootsOk(s) && s'.rootsOf == s.rootsOf
    requires forall o: Token :: o.OfRoot? ==> (o in s'.parent <==> o in s.parent)
    requires forall o: Token :: o.OfRoot? && o in s.parent ==> s'.parent[o] == s.parent[o]
    ensures RootsOk(s')
  {
    forall o | o in s'.parent && o.OfRoot?
      ensures o.root in RootsAt(s', s'.parent[o].name)
    {
      assert o.root in RootsAt(s, s.parent[o].name);
    }
  }

  lemma ParentsFrame(s: Store, s': Store)
    requires ParentsOk(s) && s'.parent == s.parent && s.parent.Keys <= s'.tokens && Nobody !in s'.tokens
    requires forall o :: o in s.parent ==> Registered(s', s.parent[o])
    ensures ParentsOk(s')
  {}

  lemma OwnersFrame(s: Store, s': Store)
    requires FlagsOk(s) && OwnersOk(s) && EntitiesRule(s)
    requires s'.parent == s.parent && s'.flagged == s.flagged && s'.owner == s.owner
    ensures FlagsOk(s') && OwnersOk(s') && EntitiesRule(s')
  {
    assert forall m :: OwnerOf(s', m) == OwnerOf(s, m);
  }

  // ---- The registry's lists -----------------------------------------------------------------------

  lemma {:induction false} FirstOtherFinds(roots: seq<Root>, exclude: Token)
    ensures var f := FirstOther(roots, exclude);
      && (f != Nobody ==> f.OfRoot? && f.root in roots && f != exclude)
      && (f == Nobody ==> forall r :: r in roots ==> OfRoot(r) == exclude)
  {
    if roots != [] {
      FirstOtherFinds(roots[1..], exclude);
    }
  }

  lemma {:induction false} WithoutDropsOne(roots: seq<Root>, r: Root)
    requires Distinct(roots)
    ensures Distinct(Without(roots, r))
    ensures forall x :: x in Without(roots, r) <==> x in roots && x != r
  {
    if roots != [] {
      var tail := roots[1..];
      assert forall x :: x in roots <==> x == roots[0] || x in tail;
      assert Distinct(tail);
      assert roots[0] !in tail;
      WithoutDropsOne(tail, r);
      var w := Without(tail, r);
      assert forall x :: x in [roots[0]] + w <==> x == roots[0] || x in w;
    }
  }

  // ---- Every handler keeps the invariant -----------------------------------------------------------

  lemma PublishKeepsNames(s: Store, m: Module)
    requires NamesOk(s) && MappedOk(s) && m.name !in s.registry && m !in s.owner
    ensures NamesOk(Publish(s, m.name, m)) && MappedOk(Publish(s, m.name, m))
  {
    var s' := Publish(s, m.name, m);
    forall x | x in s'.mapped
      ensures x in s'.owner && (Registered(s', x) <==> x !in s'.refused)
    {
      if x != m { assert Registered(s, x) <==> x !in s.refused; }
    }
  }

  lemma PublishKeepsTokens(s: Store, m: Module)
    requires NamesOk(s) && MappedOk(s) && ParentsOk(s) && m.name !in s.registry && m !in s.owner
    ensures var s' := Publish(s, m.name, m);
      && ParentsOk(s')
      && (FlagsOk(s) ==> FlagsOk(s')) && (OwnersOk(s) ==> OwnersOk(s'))
      && (RootsOk(s) ==> RootsOk(s')) && (EntitiesRule(s) ==> EntitiesRule(s')) && (RechecksOk(s) ==> RechecksOk(s'))
  {
    var s' := Publish(s, m.name, m);
    forall o | o in s.parent
      ensures Registered(s', s.parent[o]) && OwnerOf(s', s.parent[o]) == OwnerOf(s, s.parent[o])
    {
      assert Registered(s, s.parent[o]);
    }
  }

  /** Everybody but `m` satisfies the no-leak clause. */
  ghost predicate NoLeakBut(s: Store, m: Module) {
    !s.joined ==> forall n :: n in s.registry && s.registry[n] != m && OwnerOf(s, s.registry[n]) == Nobody ==>
      s.registry[n] in s.rechecks
  }

  lemma PublishKeepsNoLeak(s: Store, m: Module)
    requires MappedOk(s) && NoLeak(s) && m.name !in s.registry && m !in s.owner
    ensures NoLeakBut(Publish(s, m.name, m), m)
  {
    forall n | n in s.registry
      ensures s.registry[n] != m
    {
      assert s.registry[n] in s.mapped;
    }
  }

  lemma ClaimKeepsNames(s: Store, o: Token, m: Module)
    requires NamesOk(s) && MappedOk(s)
    ensures NamesOk(Claim(s, o, m)) && MappedOk(Claim(s, o, m))
  {
    var s' := Claim(s, o, m);
    forall x | x in s'.mapped
      ensures x in s'.owner && (Registered(s', x) <==> x !in s'.refused)
    {
      assert Registered(s, x) <==> x !in s.refused;
    }
  }

  lemma ClaimKeepsParents(s: Store, o: Token, m: Module)
    requires ParentsOk(s) && o in s.tokens && Registered(s, m)
    ensures ParentsOk(Claim(s, o, m))
  {
    var s' := Claim(s, o, m);
    forall x | x in s'.parent
      ensures x in s'.tokens && Registered(s', s'.parent[x])
    {
      assert x != o ==> Registered(s, s.parent[x]);
    }
  }

  lemma ClaimKeepsFlags(s: Store, o: Token, m: Module)
    requires FlagsOk(s) && OwnersOk(s) && o != Nobody && o !in s.parent
    ensures FlagsOk(Claim(s, o, m)) && OwnersOk(Claim(s, o, m))
  {
    var s' := Claim(s, o, m);
    assert o !in s.flagged;
    forall x | x in s'.flagged
      ensures x in s'.parent && OwnerOf(s', s'.parent[x]) == x
    {
      if x != o {
        assert x in s.flagged && s'.parent[x] == s.parent[x] && OwnerOf(s, s.parent[x]) == x;
      }
    }
    forall x | x in s'.owner && s'.owner[x] != Nobody
      ensures s'.owner[x] in s'.flagged && s'.owner[x] in s'.parent && s'.parent[s'.owner[x]] == x
    {
      if x != m || !TakesOver(s, o, m) {
        assert s'.owner[x] == s.owner[x];
        assert s.owner[x] in s.flagged && s.parent[s.owner[x]] == x;
      }
    }
  }

  lemma AppendKeepsDistinct<T>(xs: seq<T>, x: T)
    requires Distinct(xs) && x !in xs
    ensures Distinct(xs + [x])
  {}

  lemma ClaimKeepsRoots(s: Store, o: Token, m: Module)
    requires RootsOk(s) && o !in s.parent
    ensures RootsOk(Claim(s, o, m))
  {
    var s' := Claim(s, o, m);
    var before := RootsAt(s, m.name);
    if o.OfRoot? {
      assert o.root !in before;
      AppendKeepsDistinct(before, o.root);
    }
    forall n, r | n in s'.rootsOf && r in s'.rootsOf[n]
      ensures OfRoot(r) in s'.parent && s'.parent[OfRoot(r)].name == n
    {
      if OfRoot(r) != o {
        assert n in s.rootsOf && r in s.rootsOf[n];
      }
    }
    forall x | x in s'.parent && x.OfRoot?
      ensures x.root in RootsAt(s', s'.parent[x].name)
    {
      if x != o {
        assert x.root in RootsAt(s, s.parent[x].name);
      }
    }
  }

  lemma ClaimOwners(s: Store, o: Token, m: Module)
    requires o != Nobody
    ensures var s' := Claim(s, o, m);
      && OwnerOf(s', m) == (if TakesOver(s, o, m) then o else OwnerOf(s, m))
      && OwnerOf(s', m) != Nobody
      && (forall x :: x != m ==> OwnerOf(s', x) == OwnerOf(s, x))
  {}

  lemma ClaimKeepsRules(s: Store, o: Token, m: Module)
    requires EntitiesRule(s) && NoLeakBut(s, m) && o != Nobody
    ensures EntitiesRule(Claim(s, o, m)) && NoLeak(Claim(s, o, m))
  {
    hide Claim;
    var s' := Claim(s, o, m);
    ClaimOwners(s, o, m);
    assert s'.parent == s.parent[o := m] && s'.registry == s.registry && s'.rechecks == s.rechecks && s'.joined == s.joined by {
      ClaimFrame(s, o, m);
    }
    forall x | x in s'.parent && x.OfEntity?
      ensures OwnerOf(s', s'.parent[x]).OfEntity?
    {
      assert x != o ==> OwnerOf(s, s.parent[x]).OfEntity?;
    }
  }

  lemma ClaimFrame(s: Store, o: Token, m: Module)
    ensures var s' := Claim(s, o, m);
      && s'.parent == s.parent[o := m] && s'.registry == s.registry && s'.rechecks == s.rechecks && s'.joined == s.joined
      && s'.tokens == s.tokens && s'.mapped == s.mapped && s'.refused == s.refused
  {}

  /** Steps 3 and 4 of attachModule. Whoever attaches, the module has an owner afterwards. */
  lemma ClaimKeepsSound(s: Store, o: Token, m: Module)
    requires NamesOk(s) && MappedOk(s) && ParentsOk(s) && FlagsOk(s) && OwnersOk(s) && RootsOk(s) && EntitiesRule(s)
    requires NoLeakBut(s, m) && RechecksOk(s)
    requires o in s.tokens && o !in s.parent && Registered(s, m)
    ensures Sound(Claim(s, o, m)) && OwnerOf(Claim(s, o, m), m) != Nobody
  {
    ClaimKeepsNames(s, o, m);
    ClaimKeepsParents(s, o, m);
    ClaimKeepsFlags(s, o, m);
    ClaimKeepsRoots(s, o, m);
    ClaimKeepsRules(s, o, m);
  }

  lemma PublishThenClaim(s: Store, o: Token, m: Module)
    requires Sound(s) && o in s.tokens && o !in s.parent && m.name !in s.registry && m !in s.owner
    ensures Sound(Claim(Publish(s, m.name, m), o, m))
  {
    PublishKeepsNames(s, m);
    PublishKeepsTokens(s, m);
    PublishKeepsNoLeak(s, m);
    ClaimKeepsSound(Publish(s, m.name, m), o, m);
  }

  ghost function Abandoned(s: Store, m: Module, mapped: bool): Store {
    if mapped then s.(owner := s.owner[m := Nobody], mapped := s.mapped + {m}, refused := s.refused + {m})
    else s.(owner := s.owner[m := Nobody])
  }

  lemma AbandonKeepsNames(s: Store, m: Module, mapped: bool)
    requires NamesOk(s) && MappedOk(s) && m !in s.owner
    ensures NamesOk(Abandoned(s, m, mapped)) && MappedOk(Abandoned(s, m, mapped))
  {
    var s' := Abandoned(s, m, mapped);
    assert m !in s.mapped;
    assert !Registered(s, m);
    forall x | x in s'.mapped
      ensures x in s'.owner && (Registered(s', x) <==> x !in s'.refused)
    {
      if x != m { assert Registered(s, x) <==> x !in s.refused; }
    }
  }

  lemma AbandonKeepsTokens(s: Store, m: Module, mapped: bool)
    requires MappedOk(s) && ParentsOk(s) && m !in s.owner
    ensures var s' := Abandoned(s, m, mapped);
      && ParentsOk(s')
      && (FlagsOk(s) ==> FlagsOk(s')) && (OwnersOk(s) ==> OwnersOk(s'))
      && (RootsOk(s) ==> RootsOk(s')) && (EntitiesRule(s) ==> EntitiesRule(s')) && (NoLeak(s) ==> NoLeak(s'))
      && (RechecksOk(s) ==> RechecksOk(s'))
  {
    var s' := Abandoned(s, m, mapped);
    assert forall x :: OwnerOf(s', x) == OwnerOf(s, x);
    forall o | o in s.parent
      ensures Registered(s', s.parent[o])
    {
      assert Registered(s, s.parent[o]);
    }
  }

  /** attachModule, whatever its outcome. */
  lemma AttachKeepsSound(s: Store, name: string, o: Token, missing: bool, load: LoadResult, fresh_: Module)
    requires Sound(s) && o in s.tokens && fresh_.name == name && fresh_ !in s.owner
    ensures Sound(Attach(s, name, o, missing, load, fresh_).0)
  {
    if o in s.parent {
    } else if name in s.registry {
      assert s.registry[name].name == name;
      ClaimKeepsSound(s, o, s.registry[name]);
    } else {
      match load {
        case Throws => AbandonKeepsNames(s, fresh_, false); AbandonKeepsTokens(s, fresh_, false);
        case Refuses => AbandonKeepsNames(s, fresh_, true); AbandonKeepsTokens(s, fresh_, true);
        case Loads => PublishThenClaim(s, o, fresh_);
      }
    }
  }

  // ---- Leaving: promoteOrVacate and what follows it ------------------------------------------------

  /** An attached token gives its module up, handing the ownership on if it has it. */
  ghost function Leave(s: Store, o: Token, survivor: Token): Store {
    var s1 := PromoteOrVacate(s, o, survivor);
    s1.(parent := s1.parent - {o}, flagged := s1.flagged - {o})
  }

  /** What the searches promise: another live token, unattached or of the same module, and an entity
      whenever another entity of the module is attached. */
  ghost predicate GoodSurvivor(s: Store, o: Token, survivor: Token)
    requires o in s.parent
  {
    && (survivor != Nobody ==> survivor != o && survivor in s.tokens
                               && (survivor in s.parent ==> s.parent[survivor] == s.parent[o]))
    && (o in s.flagged ==> forall x :: x in s.parent && x != o && x.OfEntity? && s.parent[x] == s.parent[o] ==> survivor.OfEntity?)
  }

  lemma LeaveCases(s: Store, o: Token, survivor: Token)
    requires o in s.parent && GoodSurvivor(s, o, survivor)
    ensures var m, s' := s.parent[o], Leave(s, o, survivor);
      && (o !in s.flagged ==> s' == s.(parent := s.parent - {o}, flagged := s.flagged - {o}))
      && (o in s.flagged && survivor != Nobody ==>
           s' == s.(parent := s.parent[survivor := m] - {o}, flagged := s.flagged + {survivor} - {o}, owner := s.owner[m := survivor]))
      && (o in s.flagged && survivor == Nobody ==>
           s' == s.(parent := s.parent - {o}, flagged := s.flagged - {o}, owner := s.owner[m := Nobody],
                    rechecks := if s.joined then s.rechecks else s.rechecks + multiset{m}))
  {}

  lemma LeaveKeepsNames(s: Store, o: Token, survivor: Token)
    requires NamesOk(s) && MappedOk(s) && RechecksOk(s) && o in s.parent && Registered(s, s.parent[o]) && GoodSurvivor(s, o, survivor)
    ensures var s' := Leave(s, o, survivor); NamesOk(s') && MappedOk(s') && RechecksOk(s')
  {
    var s' := Leave(s, o, survivor);
    assert s.parent[o] in s.mapped;
    forall x | x in s'.mapped
      ensures x in s'.owner && (Registered(s', x) <==> x !in s'.refused)
    {
      assert Registered(s, x) <==> x !in s.refused;
    }
  }

  lemma LeaveKeepsParents(s: Store, o: Token, survivor: Token)
    requires ParentsOk(s) && o in s.parent && GoodSurvivor(s, o, survivor)
    ensures ParentsOk(Leave(s, o, survivor))
  {
    var s' := Leave(s, o, survivor);
    forall x | x in s'.parent
      ensures x in s'.tokens && Registered(s', s'.parent[x])
    {
      assert Registered(s, s.parent[o]);
      assert x in s.parent ==> Registered(s, s.parent[x]);
    }
  }

  lemma LeaveKeepsFlags(s: Store, o: Token, survivor: Token)
    requires FlagsOk(s) && o in s.parent && GoodSurvivor(s, o, survivor)
    ensures FlagsOk(Leave(s, o, survivor))
  {
    var m, s' := s.parent[o], Leave(s, o, survivor);
    LeaveCases(s, o, survivor);
    hide Leave;
    forall x | x in s'.flagged
      ensures x in s'.parent && OwnerOf(s', s'.parent[x]) == x
    {
      assert x in s.flagged ==> x in s.parent && OwnerOf(s, s.parent[x]) == x;
      assert o in s.flagged ==> OwnerOf(s, m) == o;
    }
  }

  lemma LeaveKeepsOwners(s: Store, o: Token, survivor: Token)
    requires OwnersOk(s) && FlagsOk(s) && o in s.parent && GoodSurvivor(s, o, survivor)
    ensures OwnersOk(Leave(s, o, survivor))
  {
    var m, s' := s.parent[o], Leave(s, o, survivor);
    LeaveCases(s, o, survivor);
    hide Leave;
    assert o in s.flagged ==> OwnerOf(s, m) == o;
    hide FlagsOk;
    forall x | x in s'.owner && s'.owner[x] != Nobody
      ensures s'.owner[x] in s'.flagged && s'.owner[x] in s'.parent && s'.parent[s'.owner[x]] == x
    {
      assert x in s.owner && s.owner[x] != Nobody ==>
        s.owner[x] in s.flagged && s.owner[x] in s.parent && s.parent[s.owner[x]] == x;
    }
  }

  lemma LeaveKeepsRules(s: Store, o: Token, survivor: Token)
    requires NamesOk(s) && ParentsOk(s) && FlagsOk(s) && EntitiesRule(s) && NoLeak(s) && o in s.parent && GoodSurvivor(s, o, survivor)
    ensures EntitiesRule(Leave(s, o, survivor)) && NoLeak(Leave(s, o, survivor))
  {
    var m, s' := s.parent[o], Leave(s, o, survivor);
    LeaveCases(s, o, survivor);
    hide Leave;
    forall x | x in s'.parent && x.OfEntity?
      ensures OwnerOf(s', s'.parent[x]).OfEntity?
    {
      assert x in s.parent ==> OwnerOf(s, s.parent[x]).OfEntity?;
    }
    forall n | n in s'.registry && OwnerOf(s', s'.registry[n]) == Nobody && !s'.joined
      ensures s'.registry[n] in s'.rechecks
    {
      assert s.registry[n] != m ==> OwnerOf(s', s.registry[n]) == OwnerOf(s, s.registry[n]);
    }
  }

  /** Everything but the Root lists, whoever leaves and whoever is elected. */
  lemma LeaveKeepsSound(s: Store, o: Token, survivor: Token)
    requires Sound(s) && o in s.parent && GoodSurvivor(s, o, survivor)
    ensures var s' := Leave(s, o, survivor);
      && NamesOk(s') && MappedOk(s') && ParentsOk(s') && FlagsOk(s') && OwnersOk(s')
      && EntitiesRule(s') && NoLeak(s') && RechecksOk(s')
  {
    LeaveKeepsNames(s, o, survivor);
    LeaveKeepsParents(s, o, survivor);
    LeaveKeepsFlags(s, o, survivor);
    LeaveKeepsOwners(s, o, survivor);
    LeaveKeepsRules(s, o, survivor);
  }

  /** An attached Root's own search finds a good survivor: the first other Root of its list. */
  lemma RootSearchIsGood(s: Store, r: Root)
    requires Sound(s) && OfRoot(r) in s.parent
    ensures GoodSurvivor(s, OfRoot(r), FirstOther(RootsAt(s, s.parent[OfRoot(r)].name), OfRoot(r)))
  {
    var o := OfRoot(r);
    var m := s.parent[o];
    var roots := RootsAt(s, m.name);
    var survivor := FirstOther(roots, o);
    FirstOtherFinds(roots, o);
    if survivor != Nobody {
      assert survivor.root in s.rootsOf[m.name];
      assert survivor in s.parent && s.parent[survivor].name == m.name;
      assert Registered(s, m) && Registered(s, s.parent[survivor]);
    }
    assert o in s.flagged ==> OwnerOf(s, m) == o;
  }

  /** What a leaving Root's list and parent map become. */
  lemma RelinquishLists(s: Store, r: Root)
    requires Sound(s) && OfRoot(r) in s.parent
    ensures var s', name := Relinquish(s, r), s.parent[OfRoot(r)].name;
      && s'.parent == s.parent - {OfRoot(r)}
      && name in s.rootsOf && s'.rootsOf == s.rootsOf[name := Without(s.rootsOf[name], r)]
  {
    RootSearchFinds(s, r);
    hide Sound, Without, FirstOther;
    var o := OfRoot(r);
    var survivor := FirstOther(RootsAt(s, s.parent[o].name), o);
    assert survivor != Nobody ==> s.parent[survivor := s.parent[o]] == s.parent;
  }

  lemma RootSearchFinds(s: Store, r: Root)
    requires Sound(s) && OfRoot(r) in s.parent
    ensures var name := s.parent[OfRoot(r)].name;
      var survivor := FirstOther(RootsAt(s, name), OfRoot(r));
      && name in s.rootsOf
      && (survivor != Nobody ==> survivor != OfRoot(r) && survivor in s.parent && s.parent[survivor] == s.parent[OfRoot(r)])
  {
    var roots := RootsAt(s, s.parent[OfRoot(r)].name);
    assert r in roots;
    FirstOtherFinds(roots, OfRoot(r));
    RootSearchIsGood(s, r);
  }

  lemma RelinquishKeepsRoots(s: Store, r: Root)
    requires Sound(s) && OfRoot(r) in s.parent
    ensures RootsOk(Relinquish(s, r))
  {
    hide Relinquish, Without;
    var name := s.parent[OfRoot(r)].name;
    RelinquishLists(s, r);
    WithoutDropsOne(s.rootsOf[name], r);
    SurvivingRoots(s, r, Relinquish(s, r));
  }

  /** The list clause, once the leaving Root is off its list and off the parent map. */
  lemma SurvivingRoots(s: Store, r: Root, s': Store)
    requires RootsOk(s) && OfRoot(r) in s.parent
    requires var name := s.parent[OfRoot(r)].name;
      && name in s.rootsOf && Distinct(Without(s.rootsOf[name], r))
      && (forall x :: x in Without(s.rootsOf[name], r) <==> x in s.rootsOf[name] && x != r)
      && s'.rootsOf == s.rootsOf[name := Without(s.rootsOf[name], r)]
    requires s'.parent == s.parent - {OfRoot(r)}
    ensures RootsOk(s')
  {
    forall n, x | n in s'.rootsOf && x in s'.rootsOf[n]
      ensures OfRoot(x) in s'.parent && s'.parent[OfRoot(x)].name == n
    {
      assert n in s.rootsOf && x in s.rootsOf[n];
    }
    forall o | o in s'.parent && o.OfRoot?
      ensures o.root in RootsAt(s', s'.parent[o].name)
    {
      assert o.root in RootsAt(s, s.parent[o].name);
    }
  }

  lemma RelinquishKeepsSound(s: Store, r: Root)
    requires Sound(s)
    ensures Sound(Relinquish(s, r)) && OfRoot(r) !in Relinquish(s, r).parent
  {
    var o := OfRoot(r);
    if o in s.parent {
      var survivor := FirstOther(RootsAt(s, s.parent[o].name), o);
      RootSearchIsGood(s, r);
      LeaveKeepsSound(s, o, survivor);
      RelinquishKeepsRoots(s, r);
      RelinquishIsLeave(s, r);
      SoundApartFromRoots(Leave(s, o, survivor), Relinquish(s, r));
    }
  }

  lemma RelinquishIsLeave(s: Store, r: Root)
    requires OfRoot(r) in s.parent
    ensures var o := OfRoot(r);
      Relinquish(s, r) == Leave(s, o, FirstOther(RootsAt(s, s.parent[o].name), o)).(rootsOf := Relinquish(s, r).rootsOf)
  {}

  lemma SoundApartFromRoots(s: Store, s': Store)
    requires s' == s.(rootsOf := s'.rootsOf) && RootsOk(s')
    requires NamesOk(s) && MappedOk(s) && ParentsOk(s) && FlagsOk(s) && OwnersOk(s) && EntitiesRule(s) && NoLeak(s) && RechecksOk(s)
    ensures Sound(s')
  {
    assert forall o :: o in s.parent ==> Registered(s, s.parent[o]) && Registered(s', s'.parent[o]);
    assert forall m :: OwnerOf(s', m) == OwnerOf(s, m) && Registered(s', m) == Registered(s, m);
  }
}
