/** What each handler of the module lifetime protocol leaves behind, said of the state before and the state
    after (core/DynamicLoader.h:508-555, 1605-1998, 2047-2102): who is attached to what, who owns what, which
    Roots are registered in which order, what is mapped, and which rechecks are outstanding. */
module LifetimeEffects {
  import opened Lifetime
  import opened LifetimeRuns

  // ---- Parts -----------------------------------------------------------------------------------------

  ghost predicate SameCatalog(s: Store, s': Store) {
    s'.registry == s.registry && s'.mapped == s.mapped && s'.refused == s.refused
  }

  /** Everybody but these two is attached as before. */
  ghost predicate OthersStay(s: Store, s': Store, x: Token, y: Token) {
    forall t :: t != x && t != y ==>
      (t in s'.parent <==> t in s.parent) && (t in s.parent ==> s'.parent[t] == s.parent[t])
  }

  /** The longest registered Root but one, or nobody. */
  ghost predicate IsEldest(roots: seq<Root>, except: Token, f: Token) {
    if f == Nobody then forall k :: 0 <= k < |roots| ==> OfRoot(roots[k]) == except
    else exists k :: 0 <= k < |roots| && f == OfRoot(roots[k]) && f != except && forall j :: 0 <= j < k ==> OfRoot(roots[j]) == except
  }

  /** One Root less, the others in their order. */
  ghost predicate LosesOne(before: seq<Root>, after: seq<Root>, r: Root) {
    exists k :: 0 <= k < |before| && before[k] == r && after == before[..k] + before[k + 1..]
  }

  ghost predicate OtherLists(s: Store, s': Store, name: string) {
    forall n :: n != name ==> RootsAt(s', n) == RootsAt(s, n)
  }

  /** What becomes of a module that `o` leaves: its owner, if that is somebody else; the heir, if there is one;
      and else nobody, with a recheck fired unless the join barrier is behind. */
  ghost predicate HandsOver(s: Store, s': Store, o: Token, heir: Token)
    requires o in s.parent
  {
    var m := s.parent[o];
    if OwnerOf(s, m) != o then OwnerOf(s', m) == OwnerOf(s, m) && s'.rechecks == s.rechecks
    else OwnerOf(s', m) == heir && s'.rechecks == if heir == Nobody && !s.joined then s.rechecks + multiset{m} else s.rechecks
  }

  /** The token has taken its place at the module: as its owner, if nobody owned it, or a Root did and it is an
      entity; and behind the other Roots, if it is a Root. */
  ghost predicate Joined(s: Store, s': Store, o: Token, m: Module) {
    && o in s'.parent && s'.parent[o] == m
    && (OwnerOf(s', m) == if OwnerOf(s, m) == Nobody || (OwnerOf(s, m).OfRoot? && o.OfEntity?) then o else OwnerOf(s, m))
    && RootsAt(s', m.name) == RootsAt(s, m.name) + if o.OfRoot? then [o.root] else []
  }

  // ---- attachModule ----------------------------------------------------------------------------------

  ghost predicate Attached(s: Store, s': Store, ok: bool, name: string, o: Token, missing: bool, load: LoadResult, m: Module) {
    if o in s.parent then s' == s && (ok <==> s.parent[o].name == name)
    else
      var arrives := name in s.registry || load == Loads;
      var at := if name in s.registry then s.registry[name] else m;
      && ok == (arrives && !missing)
      && s'.tokens == s.tokens && s'.joined == s.joined && s'.rechecks == s.rechecks
      && OthersStay(s, s', o, o) && OtherLists(s, s', at.name) && (forall x :: x != at ==> OwnerOf(s', x) == OwnerOf(s, x))
      && (if arrives then Joined(s, s', o, at)
          else o !in s'.parent && RootsAt(s', name) == RootsAt(s, name) && OwnerOf(s', at) == Nobody)
      && Loaded(s, s', name, load, m)
  }

  /** What a name that is not registered yet adds to the catalog: the new instance, if it loads; an instance that
      is mapped and nothing else, if its registration is refused; nothing, if it throws. */
  ghost predicate Loaded(s: Store, s': Store, name: string, load: LoadResult, m: Module) {
    if name in s.registry || load == Throws then SameCatalog(s, s')
    else
      && s'.mapped == s.mapped + {m}
      && s'.registry == (if load == Loads then s.registry[name := m] else s.registry)
      && s'.refused == if load == Loads then s.refused else s.refused + {m}
  }

  lemma AttachSays(s: Store, name: string, o: Token, missing: bool, load: LoadResult, m: Module)
    requires Sound(s) && o in s.tokens && m.name == name && m !in s.owner
    ensures var (s', ok) := Attach(s, name, o, missing, load, m); Attached(s, s', ok, name, o, missing, load, m)
  {
    assert OwnerOf(s, m) == Nobody && o != Nobody && (name in s.registry ==> s.registry[name].name == name);
    hide Sound, Claim, Joined, OthersStay, OtherLists, Loaded;
    if o in s.parent {
    } else if name in s.registry {
      ClaimSays(s, o, s.registry[name]);
      assert Loaded(s, Claim(s, o, s.registry[name]), name, load, m) by { StillLoaded(s, s, Claim(s, o, s.registry[name]), name, load, m); }
    } else if load == Loads {
      PublishSays(s, name, o, load, m);
    } else {
      FailureSays(s, name, o, missing, load, m);
    }
  }

  lemma StillLoaded(s: Store, s1: Store, s': Store, name: string, load: LoadResult, m: Module)
    requires SameCatalog(s1, s') && (s1 == s ==> name in s.registry) && (s1 != s ==> load == Loads && name !in s.registry && s1 == Publish(s, name, m))
    ensures Loaded(s, s', name, load, m)
  {}

  lemma PublishSays(s: Store, name: string, o: Token, load: LoadResult, m: Module)
    requires name !in s.registry && load == Loads && m.name == name && o != Nobody && OwnerOf(s, m) == Nobody
    ensures var s1 := Publish(s, name, m);
      var s' := Claim(s1, o, m);
      && Joined(s, s', o, m) && OthersStay(s, s', o, o) && OtherLists(s, s', m.name)
      && (forall x :: x != m ==> OwnerOf(s', x) == OwnerOf(s, x)) && Loaded(s, s', name, load, m)
      && s'.tokens == s.tokens && s'.joined == s.joined && s'.rechecks == s.rechecks
  {
    var s1 := Publish(s, name, m);
    ClaimSays(s1, o, m);
    assert forall x :: OwnerOf(s1, x) == OwnerOf(s, x);
    assert forall n :: RootsAt(s1, n) == RootsAt(s, n);
    hide Claim;
  }

  lemma FailureSays(s: Store, name: string, o: Token, missing: bool, load: LoadResult, m: Module)
    requires o !in s.parent && name !in s.registry && load != Loads && m.name == name
    ensures var (s', ok) := Attach(s, name, o, missing, load, m); Attached(s, s', ok, name, o, missing, load, m)
  {}

  lemma ClaimSays(s: Store, o: Token, m: Module)
    requires o != Nobody
    ensures var s' := Claim(s, o, m);
      && Joined(s, s', o, m) && OthersStay(s, s', o, o) && OtherLists(s, s', m.name)
      && (forall x :: x != m ==> OwnerOf(s', x) == OwnerOf(s, x))
      && SameCatalog(s, s') && s'.tokens == s.tokens && s'.joined == s.joined && s'.rechecks == s.rechecks
  {}

  // ---- A Root leaves ---------------------------------------------------------------------------------

  lemma {:induction false} FirstIsEldest(roots: seq<Root>, except: Token)
    ensures IsEldest(roots, except, FirstOther(roots, except))
  {
    if roots != [] && OfRoot(roots[0]) == except {
      FirstIsEldest(roots[1..], except);
      var f := FirstOther(roots[1..], except);
      if f != Nobody {
        var k :| 0 <= k < |roots| - 1 && f == OfRoot(roots[1..][k]) && forall j :: 0 <= j < k ==> OfRoot(roots[1..][j]) == except;
        assert forall j :: 0 < j < k + 1 ==> roots[j] == roots[1..][j - 1];
        assert roots[k + 1] == roots[1..][k];
      } else {
        assert forall k :: 0 < k < |roots| ==> roots[k] == roots[1..][k - 1];
      }
    } else if roots != [] {
      assert OfRoot(roots[0]) == OfRoot(roots[0]);
    }
  }

  lemma {:induction false} WithoutLosesOne(roots: seq<Root>, r: Root)
    requires r in roots
    ensures LosesOne(roots, Without(roots, r), r)
  {
    if roots[0] == r {
      assert Without(roots, r) == roots[..0] + roots[0 + 1..];
    } else {
      var tail := roots[1..];
      WithoutLosesOne(tail, r);
      var k :| 0 <= k < |tail| && tail[k] == r && Without(tail, r) == tail[..k] + tail[k + 1..];
      FirstThenCut(roots, k);
      assert 0 <= k + 1 < |roots| && roots[k + 1] == r;
    }
  }

  lemma FirstThenCut(roots: seq<Root>, k: nat)
    requires k + 1 < |roots|
    ensures var tail := roots[1..];
      [roots[0]] + (tail[..k] + tail[k + 1..]) == roots[..k + 1] + roots[k + 1 + 1..]
  {
    var tail := roots[1..];
    assert roots[..k + 1] == [roots[0]] + tail[..k];
    assert roots[k + 1 + 1..] == tail[k + 1..];
  }

  /** The first half of a module change, and all of a Root's end but its token. */
  ghost predicate Left(s: Store, s': Store, r: Root) {
    var o := OfRoot(r);
    && SameCatalog(s, s') && s'.joined == s.joined && OthersStay(s, s', o, o) && o !in s'.parent
    && (o !in s.parent ==> s'.rechecks == s.rechecks && forall m :: OwnerOf(s', m) == OwnerOf(s, m))
    && (o in s.parent ==>
          var m := s.parent[o];
          && (forall x :: x != m ==> OwnerOf(s', x) == OwnerOf(s, x))
          && LosesOne(RootsAt(s, m.name), RootsAt(s', m.name), r) && OtherLists(s, s', m.name)
          && exists heir :: IsEldest(RootsAt(s, m.name), o, heir) && HandsOver(s, s', o, heir))
  }

  lemma RelinquishSays(s: Store, r: Root)
    requires Sound(s)
    ensures Left(s, Relinquish(s, r), r) && Relinquish(s, r).tokens == s.tokens
    ensures OfRoot(r) !in s.parent ==> Relinquish(s, r) == s
  {
    var o := OfRoot(r);
    if o in s.parent {
      var m := s.parent[o];
      var roots := RootsAt(s, m.name);
      var heir := FirstOther(roots, o);
      assert r in roots;
      FirstIsEldest(roots, o);
      WithoutLosesOne(roots, r);
      HeirIsAttached(s, r);
      LeavesTo(s, r, heir);
      hide *;
      LeftBecause(s, Relinquish(s, r), r, heir);
    }
  }

  lemma LeavesTo(s: Store, r: Root, heir: Token)
    requires var o := OfRoot(r); o in s.parent && heir == FirstOther(RootsAt(s, s.parent[o].name), o)
    requires var o := OfRoot(r); var m := s.parent[o];
      (heir != Nobody ==> heir in s.parent && s.parent[heir] == m && heir != o) && (o in s.flagged <==> OwnerOf(s, m) == o) && m.name in s.rootsOf
    ensures var s', o := Relinquish(s, r), OfRoot(r); var m := s.parent[o];
      && SameCatalog(s, s') && s'.joined == s.joined && s'.tokens == s.tokens && OthersStay(s, s', o, o) && o !in s'.parent
      && (forall x :: x != m ==> OwnerOf(s', x) == OwnerOf(s, x)) && OtherLists(s, s', m.name)
      && RootsAt(s', m.name) == Without(RootsAt(s, m.name), r) && HandsOver(s, s', o, heir)
  {
    hide FirstOther, Without;
  }

  lemma LeftBecause(s: Store, s': Store, r: Root, heir: Token)
    requires OfRoot(r) in s.parent
    requires var o := OfRoot(r); var m := s.parent[o];
      && SameCatalog(s, s') && s'.joined == s.joined && OthersStay(s, s', o, o) && o !in s'.parent
      && (forall x :: x != m ==> OwnerOf(s', x) == OwnerOf(s, x)) && OtherLists(s, s', m.name)
      && LosesOne(RootsAt(s, m.name), RootsAt(s', m.name), r)
      && IsEldest(RootsAt(s, m.name), o, heir) && HandsOver(s, s', o, heir)
    ensures Left(s, s', r)
  {
    hide LosesOne, IsEldest, HandsOver, OthersStay, OtherLists, SameCatalog, OwnerOf, RootsAt;
  }

  lemma HeirIsAttached(s: Store, r: Root)
    requires Sound(s) && OfRoot(r) in s.parent
    ensures var o := OfRoot(r); var m := s.parent[o]; var heir := FirstOther(RootsAt(s, m.name), o);
      && (heir != Nobody ==> heir in s.parent && s.parent[heir] == m && heir != o)
      && (o in s.flagged <==> OwnerOf(s, m) == o) && m.name in s.rootsOf
  {
    var o := OfRoot(r);
    var m := s.parent[o];
    FirstOtherFinds(RootsAt(s, m.name), o);
    assert r in RootsAt(s, m.name) && Registered(s, m);
    var heir := FirstOther(RootsAt(s, m.name), o);
    if heir != Nobody { assert Registered(s, s.parent[heir]); }
  }

  // ---- changeModule ----------------------------------------------------------------------------------

  /** A Root that is where it is sent to stays. Otherwise it leaves the module it has, and it arrives at the
      target if that is registered or loads. */
  ghost predicate Changed(s: Store, s': Store, r: Root, target: string, load: LoadResult, m: Module) {
    var o := OfRoot(r);
    if o in s.parent && s.parent[o].name == target then s' == s
    else
      var arrives := target != "" && (target in s.registry || load == Loads);
      var at := if target in s.registry then s.registry[target] else m;
      && s'.tokens == s.tokens && s'.joined == s.joined && OthersStay(s, s', o, o)
      && (if arrives then Joined(s, s', o, at) else o !in s'.parent)
      && (if target == "" then SameCatalog(s, s') else Loaded(s, s', target, load, m))
      && (o !in s.parent ==> s'.rechecks == s.rechecks)
      && (o in s.parent ==>
            var left := s.parent[o];
            && LosesOne(RootsAt(s, left.name), RootsAt(s', left.name), r)
            && exists heir :: IsEldest(RootsAt(s, left.name), o, heir) && HandsOver(s, s', o, heir))
      && (forall x :: (o in s.parent ==> x != s.parent[o]) && x != at ==> OwnerOf(s', x) == OwnerOf(s, x))
      && (forall n :: (o in s.parent ==> n != s.parent[o].name) && n != target ==> RootsAt(s', n) == RootsAt(s, n))
  }

  lemma ChangeSays(s: Store, r: Root, target: string, load: LoadResult, m: Module)
    requires Sound(s) && OfRoot(r) in s.tokens && m.name == target && m !in s.owner
    ensures Changed(s, ChangeModule(s, r, target, load, m), r, target, load, m)
  {
    if OfRoot(r) in s.parent && s.parent[OfRoot(r)].name == target {
      hide Sound, Relinquish, Attach;
    } else {
      var s1 := Relinquish(s, r);
      OnceLeft(s, r, m);
      hide *;
      if target == "" {
        JustLeaves(s, s1, r, target, load, m);
        ChangeIs(s, r, target, load, m);
      } else {
        AttachSays(s1, target, OfRoot(r), false, load, m);
        AnswersWhether(s1, target, OfRoot(r), load, m);
        LeaveThenAttach(s, s1, Attach(s1, target, OfRoot(r), false, load, m).0, r, target, load, m);
        ChangeIs(s, r, target, load, m);
      }
    }
  }

  lemma OnceLeft(s: Store, r: Root, m: Module)
    requires Sound(s) && OfRoot(r) in s.tokens && m !in s.owner
    ensures var s1 := Relinquish(s, r);
      && Sound(s1) && Left(s, s1, r) && s1.tokens == s.tokens && m !in s1.owner
      && (OfRoot(r) !in s.parent ==> s1 == s) && OfRoot(r) !in s1.parent
  {
    RelinquishSays(s, r);
    RelinquishKeepsSound(s, r);
    RelinquishFrame(s, r);
    if OfRoot(r) in s.parent { ParentHasOwnerEntry(s, OfRoot(r)); }
    hide Sound, Relinquish, IsEldest, LosesOne, HandsOver, OthersStay;
  }

  lemma ChangeIs(s: Store, r: Root, target: string, load: LoadResult, m: Module)
    requires !(OfRoot(r) in s.parent && s.parent[OfRoot(r)].name == target)
    ensures ChangeModule(s, r, target, load, m) ==
      if target == "" then Relinquish(s, r) else Attach(Relinquish(s, r), target, OfRoot(r), false, load, m).0
  {
    hide Relinquish, Attach;
  }

  lemma AnswersWhether(s: Store, target: string, o: Token, load: LoadResult, m: Module)
    requires o !in s.parent
    ensures Attach(s, target, o, false, load, m).1 <==> target in s.registry || load == Loads
  {
    hide Claim;
  }

  lemma JustLeaves(s: Store, s': Store, r: Root, target: string, load: LoadResult, m: Module)
    requires Left(s, s', r) && s'.tokens == s.tokens && target == "" && !(OfRoot(r) in s.parent && s.parent[OfRoot(r)].name == "")
    requires OfRoot(r) !in s.parent ==> s' == s
    ensures Changed(s, s', r, target, load, m)
  {}

  lemma LeaveThenAttach(s: Store, s1: Store, s': Store, r: Root, target: string, load: LoadResult, m: Module)
    requires Sound(s) && Left(s, s1, r) && s1.tokens == s.tokens && target != "" && m.name == target && m !in s.owner
    requires !(OfRoot(r) in s.parent && s.parent[OfRoot(r)].name == target) && (OfRoot(r) !in s.parent ==> s1 == s)
    requires Attached(s1, s', target in s1.registry || load == Loads, target, OfRoot(r), false, load, m)
    ensures Changed(s, s', r, target, load, m)
  {
    var o := OfRoot(r);
    var at := if target in s.registry then s.registry[target] else m;
    assert at.name == target;
    StillLoadedAfter(s, s1, s', target, load, m);
    if o in s.parent {
      LeftFor(s, s1, s', r, at);
      hide Sound, Left, LosesOne, IsEldest, OwnerOf, RootsAt, HandsOver, Loaded, SameCatalog;
      TwoStays(s, s1, s', o);
    } else {
      hide Sound, LosesOne, IsEldest, OwnerOf, RootsAt, HandsOver, Loaded;
    }
  }

  lemma TwoStays(s: Store, s1: Store, s': Store, o: Token)
    requires OthersStay(s, s1, o, o) && OthersStay(s1, s', o, o)
    ensures OthersStay(s, s', o, o)
  {}

  /** What a Root that goes on to another module leaves behind is not touched by its arrival. */
  lemma LeftFor(s: Store, s1: Store, s': Store, r: Root, at: Module)
    requires OfRoot(r) in s.parent && s.parent[OfRoot(r)] != at && s.parent[OfRoot(r)].name != at.name && Left(s, s1, r)
    requires (forall x :: x != at ==> OwnerOf(s', x) == OwnerOf(s1, x)) && OtherLists(s1, s', at.name) && s'.rechecks == s1.rechecks
    ensures var o := OfRoot(r); var left := s.parent[o];
      && LosesOne(RootsAt(s, left.name), RootsAt(s', left.name), r)
      && (exists heir :: IsEldest(RootsAt(s, left.name), o, heir) && HandsOver(s, s', o, heir))
      && OwnerOf(s1, at) == OwnerOf(s, at) && RootsAt(s1, at.name) == RootsAt(s, at.name)
      && (forall x :: x != left && x != at ==> OwnerOf(s', x) == OwnerOf(s, x))
      && (forall n :: n != left.name && n != at.name ==> RootsAt(s', n) == RootsAt(s, n))
  {
    var o := OfRoot(r);
    var left := s.parent[o];
    hide LosesOne, IsEldest, OwnerOf, RootsAt, SameCatalog, OthersStay;
    var heir :| IsEldest(RootsAt(s, left.name), o, heir) && HandsOver(s, s1, o, heir);
    assert HandsOver(s, s', o, heir);
  }

  lemma StillLoadedAfter(s: Store, s1: Store, s': Store, target: string, load: LoadResult, m: Module)
    requires SameCatalog(s, s1) && Loaded(s1, s', target, load, m)
    ensures Loaded(s, s', target, load, m)
  {}

  // ---- Death -----------------------------------------------------------------------------------------

  /** A root-level entity is gone; its module goes to the survivor of the search, if there is one. */
  ghost predicate Died(s: Store, s': Store, e: Entity, survivor: Token) {
    var o := OfEntity(e);
    && s'.tokens == s.tokens - {o} && o !in s'.parent && SameCatalog(s, s') && s'.joined == s.joined && s'.rootsOf == s.rootsOf
    && (o !in s.parent ==> s'.parent == s.parent && s'.owner == s.owner && s'.rechecks == s.rechecks)
    && (o in s.parent ==>
          var heir := Accepted(s, o, survivor);
          && HandsOver(s, s', o, heir) && OthersStay(s, s', o, heir) && (forall m :: m != s.parent[o] ==> OwnerOf(s', m) == OwnerOf(s, m)))
  }

  lemma DeathSays(s: Store, e: Entity, survivor: Token)
    requires Sound(s) && SiblingSearch(s, e, survivor)
    ensures Died(s, EntityDies(s, e, survivor), e, survivor)
  {
    var o := OfEntity(e);
    assert o in s.flagged <==> o in s.parent && OwnerOf(s, s.parent[o]) == o;
    assert survivor != o;
    hide Sound, SiblingSearch;
    if o in s.parent {
      DiesTo(s, e, survivor);
      DiesPlainly(s, e, survivor);
      hide EntityDies, HandsOver, OthersStay, Accepted, OwnerOf;
    }
  }

  lemma DiesPlainly(s: Store, e: Entity, survivor: Token)
    requires survivor != OfEntity(e)
    ensures var s', o := EntityDies(s, e, survivor), OfEntity(e);
      s'.tokens == s.tokens - {o} && o !in s'.parent && SameCatalog(s, s') && s'.joined == s.joined && s'.rootsOf == s.rootsOf
  {}

  lemma DiesTo(s: Store, e: Entity, survivor: Token)
    requires var o := OfEntity(e); o in s.parent && survivor != o && (o in s.flagged <==> OwnerOf(s, s.parent[o]) == o)
    ensures var s', o := EntityDies(s, e, survivor), OfEntity(e); var heir := Accepted(s, o, survivor);
      && HandsOver(s, s', o, heir) && OthersStay(s, s', o, heir) && (forall m :: m != s.parent[o] ==> OwnerOf(s', m) == OwnerOf(s, m))
  {}

  lemma RootDeathSays(s: Store, r: Root)
    requires Sound(s)
    ensures var s' := RootDies(s, r); Left(s, s', r) && s'.tokens == s.tokens - {OfRoot(r)}
  {
    RelinquishSays(s, r);
    var s1, s' := Relinquish(s, r), RootDies(s, r);
    assert OfRoot(r) !in s1.parent ==> s'.parent == s1.parent;
    assert s' == s1.(tokens := s'.tokens, parent := s'.parent, flagged := s'.flagged);
    assert s'.tokens == s.tokens - {OfRoot(r)};
    hide Relinquish, Sound, LosesOne, IsEldest, RootDies;
    StillLeft(s, s1, s', r);
  }

  lemma StillLeft(s: Store, s1: Store, s': Store, r: Root)
    requires Left(s, s1, r) && s' == s1.(tokens := s'.tokens, flagged := s'.flagged)
    ensures Left(s, s', r)
  {
    assert forall x :: OwnerOf(s', x) == OwnerOf(s1, x);
    assert forall n :: RootsAt(s', n) == RootsAt(s1, n);
    var o := OfRoot(r);
    hide LosesOne, IsEldest, OwnerOf, RootsAt;
    if o in s.parent {
      var heir :| IsEldest(RootsAt(s, s.parent[o].name), o, heir) && HandsOver(s, s1, o, heir);
      assert HandsOver(s, s', o, heir);
      hide HandsOver;
      LeftBecause(s, s', r, heir);
    }
  }

  // ---- The recheck -----------------------------------------------------------------------------------

  /** The recheck is done. A module that is owned again is left alone; one that Roots are registered for goes to
      the eldest of them; and any other is unmapped, and its name is free. */
  ghost predicate Rechecked(s: Store, s': Store, target: Module) {
    && s'.rechecks == s.rechecks - multiset{target} && s'.tokens == s.tokens && s'.joined == s.joined
    && s'.refused == s.refused && s'.rootsOf == s.rootsOf && (forall m :: m != target ==> OwnerOf(s', m) == OwnerOf(s, m))
    && if OwnerOf(s, target) != Nobody then
         SameCatalog(s, s') && s'.parent == s.parent && OwnerOf(s', target) == OwnerOf(s, target)
       else if RootsAt(s, target.name) != [] then
         exists f :: IsEldest(RootsAt(s, target.name), Nobody, f) && f != Nobody && SameCatalog(s, s')
           && OwnerOf(s', target) == f && s'.flagged == s.flagged + {f} && s'.parent == s.parent[f := target]
       else
         && s'.parent == s.parent && s'.flagged == s.flagged && OwnerOf(s', target) == Nobody
         && s'.registry == s.registry - {target.name} && s'.mapped == s.mapped - {target}
  }

  lemma RecheckSays(s: Store, target: Module)
    ensures Rechecked(s, Lifetime.RequestUnload(s, target), target)
  {
    var roots := RootsAt(s, target.name);
    FirstIsEldest(roots, Nobody);
    var f := FirstOther(roots, Nobody);
    FirstOtherFinds(roots, Nobody);
    assert forall r :: r in roots ==> OfRoot(r) != Nobody;
    assert roots != [] ==> roots[0] in roots;
    hide IsEldest, FirstOther;
  }
}
