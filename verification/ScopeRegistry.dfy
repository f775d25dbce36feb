/** The per-entity registry of calls in flight (core/Bundles.h:360-472), registered in creation order,
    addressed by label and position, removed by id; and the flag that the calls of a label share
    (core/Entity.h:2433-2465, 2731-2746, 2996-3010).

    A lock makes each operation on the registry one step. The flag moves in a later one: the first call of a
    label posts that its flag is to be raised and waits for it, the last one to leave posts that it is to be
    lowered, and whatever is posted is done at any later time, in any order. The signal context of a call is
    left out but for its interrupt flag. */
module ScopeRegistry {

  datatype Option<T> = None | Some(value: T)

  datatype Entry = Entry(name: string, id: nat, interrupted: bool)

  datatype View = View(name: string, index: nat, interrupted: bool)

  /** How many of the first n entries have the label. */
  function Count(entries: seq<Entry>, name: string, n: nat): (c: nat)
    requires n <= |entries|
    ensures c <= n
  {
    if n == 0 then 0 else Count(entries, name, n - 1) + if entries[n - 1].name == name then 1 else 0
  }

  /** What the shell lists: each entry with its position among those of its label. */
  function Views(entries: seq<Entry>): seq<View> {
    seq(|entries|, k requires 0 <= k < |entries| => View(entries[k].name, Count(entries, entries[k].name, k), entries[k].interrupted))
  }

  predicate Carried(entries: seq<Entry>, name: string) {
    exists k :: 0 <= k < |entries| && entries[k].name == name
  }

  /** Ids strictly increase along the list and have all been given out. */
  ghost predicate IdsOk(entries: seq<Entry>, nextId: nat) {
    && (forall k :: 0 <= k < |entries| ==> entries[k].id < nextId)
    && (forall j, k :: 0 <= j < k < |entries| ==> entries[j].id < entries[k].id)
  }

  function Interrupted(e: Entry): Entry { e.(interrupted := true) }

  /** Every entry of the label, interrupted. */
  function InterruptedAll(entries: seq<Entry>, name: string): seq<Entry> {
    seq(|entries|, k requires 0 <= k < |entries| => if entries[k].name == name then Interrupted(entries[k]) else entries[k])
  }

  /** Without the k-th: every later entry moves down by one. */
  function Drop(entries: seq<Entry>, k: nat): seq<Entry>
    requires k < |entries|
  {
    entries[..k] + entries[k + 1..]
  }

  // ---- Addressing --------------------------------------------------------------------------------------

  lemma {:induction false} CountGrows(entries: seq<Entry>, name: string, j: nat, k: nat)
    requires j <= k <= |entries|
    ensures Count(entries, name, j) <= Count(entries, name, k)
    ensures j < k && entries[j].name == name ==> Count(entries, name, j) < Count(entries, name, k)
    decreases k
  {
    if j < k {
      CountGrows(entries, name, j, k - 1);
    }
  }

  /** A label and an index name at most one entry. */
  lemma AddressIsUnique(entries: seq<Entry>, j: nat, k: nat)
    requires j < |entries| && k < |entries|
    requires Views(entries)[j].name == Views(entries)[k].name && Views(entries)[j].index == Views(entries)[k].index
    ensures j == k
  {
    if j < k { CountGrows(entries, entries[j].name, j, k); }
    if k < j { CountGrows(entries, entries[k].name, k, j); }
  }

  /** The indices of a label are exactly 0, 1, ... up to how many entries carry it. */
  lemma {:induction false} AddressExistsIff(entries: seq<Entry>, name: string, index: nat, n: nat)
    requires n <= |entries|
    ensures (exists k :: 0 <= k < n && entries[k].name == name && Count(entries, name, k) == index) <==> index < Count(entries, name, n)
  {
    if n > 0 {
      AddressExistsIff(entries, name, index, n - 1);
      if index < Count(entries, name, n) && index >= Count(entries, name, n - 1) {
        assert entries[n - 1].name == name && Count(entries, name, n - 1) == index;
      }
    }
  }

  /** The earlier entries of the same label. */
  ghost function Elder(entries: seq<Entry>, k: nat): set<nat>
    requires k < |entries|
  {
    set j: nat | j < k && entries[j].name == entries[k].name
  }

  /** AN INDEX IS AN AGE: how many live calls of the label are older. */
  lemma {:induction false} CountIsSet(entries: seq<Entry>, name: string, n: nat)
    requires n <= |entries|
    ensures Count(entries, name, n) == |set j: nat | j < n && entries[j].name == name|
  {
    var all := set j: nat | j < n && entries[j].name == name;
    if n == 0 {
      assert all == {};
    } else {
      CountIsSet(entries, name, n - 1);
      var before := set j: nat | j < n - 1 && entries[j].name == name;
      if entries[n - 1].name == name {
        assert all == before + {n - 1};
      } else {
        assert all == before;
      }
    }
  }

  lemma IndicesAreAges(entries: seq<Entry>)
    ensures forall k :: 0 <= k < |entries| ==> Views(entries)[k].index == |Elder(entries, k)|
  {
    forall k: nat | k < |entries| ensures Views(entries)[k].index == |Elder(entries, k)| {
      CountIsSet(entries, entries[k].name, k);
    }
  }

  ghost predicate At(entries: seq<Entry>, name: string, index: nat, k: nat) {
    k < |entries| && Views(entries)[k].name == name && Views(entries)[k].index == index
  }

  class Scope {
    var entries: seq<Entry>
    var nextId: nat
    var flags: set<string>
    ghost var issued: seq<nat>
    ghost var raises: set<nat>
    ghost var lowers: multiset<Lowering>

    ghost function State(): Tracked
      reads this
    {
      Tracked(entries, nextId, issued, flags, raises, lowers)
    }

    ghost predicate Valid()
      reads this
    {
      Consistent(State())
    }

    constructor ()
      ensures Valid() && State() == Empty
    {
      entries, nextId, issued, flags, raises, lowers := [], 1, [], {}, {}, multiset{};
    }

    method HasLabel(name: string) returns (found: bool)
      ensures found <==> Carried(entries, name)
    {
      for i := 0 to |entries|
        invariant forall k :: 0 <= k < i ==> entries[k].name != name
      {
        if entries[i].name == name {
          return true;
        }
      }
      return false;
    }

    /** first: the caller is to raise the label's flag. */
    method RegisterContext(name: string) returns (id: nat, first: bool)
      requires Valid()
      modifies this
      ensures Valid() && State() == Apply(old(State()), Register(name))
      ensures id == old(nextId) && id !in old(issued) && entries == old(entries) + [Entry(name, id, false)]
      ensures first <==> !Carried(old(entries), name)
      ensures nextId == id + 1 && flags == old(flags)
    {
      ghost var t := State();
      RegisterKeeps(t, name);
      RegisterSays(t, name);
      hide *;
      var carried := HasLabel(name);
      first, id := !carried, nextId;
      entries, nextId := entries + [Entry(name, id, false)], nextId + 1;
      issued, raises := issued + [id], if first then raises + {id} else raises;
      assert State() == Apply(t, Register(name));
    }

    /** By id, never by position; an id that is gone already is not an error. last: the caller is to lower the
        label's flag. A call does not return before the flag it was to raise is up. */
    method UnregisterContext(id: nat) returns (name: Option<string>, last: bool)
      requires Valid() && id !in raises
      modifies this`entries, this`lowers
      ensures Valid() && State() == Apply(old(State()), Unregister(id))
      ensures match name
        case None => entries == old(entries) && !last && forall k :: 0 <= k < |entries| ==> entries[k].id != id
        case Some(l) =>
          && Carried(old(entries), l) && (last <==> !Carried(entries, l)) && forall k :: 0 <= k < |entries| ==> entries[k].id != id
      ensures name.Some? ==> Loses(old(entries), entries, id, name.value)
    {
      ghost var t := State();
      UnregisterKeeps(t, id);
      UnregisterSays(t, id);
      hide *;
      var i := FindId(id);
      if i == |entries| {
        return None, false;
      }
      name := Some(entries[i].name);
      entries := WithoutEntry(i);
      var carried := HasLabel(name.value);
      last := !carried;
      lowers := if last then lowers + multiset{Lowering(name.value, nextId)} else lowers;
      assert State() == Apply(t, Unregister(id));
    }

    method FindId(id: nat) returns (i: nat)
      ensures i == IndexOfId(entries, id)
    {
      i := 0;
      while i < |entries| && entries[i].id != id
        invariant 0 <= i <= |entries|
        invariant forall k :: 0 <= k < i ==> entries[k].id != id
      {
        i := i + 1;
      }
    }

    /** The flag that call `id` is waiting for goes up. */
    method AddTag(name: string, ghost id: nat)
      requires Valid() && id in raises && entries[IndexOfId(entries, id)].name == name
      modifies this`flags, this`raises
      ensures Valid() && State() == Apply(old(State()), Raised(id)) && flags == old(flags) + {name}
    {
      RaisedKeeps(State(), id);
      hide Consistent;
      flags := flags + {name};
      raises := raises - {id};
    }

    /** Taking the flag down, on behalf of the last call that left (`due`) or by anyone else: as long as a call
        of the label is live, it only asks all of them to stop. */
    method RemoveTag(name: string, ghost due: Option<Lowering>) returns (changed: bool)
      requires Valid() && (due.Some? ==> due.value in lowers && due.value.name == name)
      modifies this`entries, this`flags, this`lowers
      ensures Valid() && State() == Apply(old(State()), if due.Some? then Lowered(due.value) else TakeDown(name))
      ensures changed <==> name in old(flags) && !Carried(old(entries), name)
      ensures flags == if Carried(old(entries), name) then old(flags) else old(flags) - {name}
      ensures |entries| == |old(entries)| && forall k :: 0 <= k < |entries| ==>
        entries[k] == if old(entries)[k].name == name then old(entries)[k].(interrupted := true) else old(entries)[k]
    {
      ghost var op := if due.Some? then Lowered(due.value) else TakeDown(name);
      ghost var u := State().(lowers := if due.Some? then lowers - multiset{due.value} else lowers);
      TakenDownKeeps(State(), op);
      assert Apply(State(), op) == Removed(u, name);
      hide Consistent, Apply;
      lowers := u.lowers;
      changed := TakeTagDown(name);
    }

    method TakeTagDown(name: string) returns (changed: bool)
      modifies this`entries, this`flags
      ensures State() == Removed(old(State()), name)
      ensures flags == if Carried(old(entries), name) then old(flags) else old(flags) - {name}
      ensures |entries| == |old(entries)| && forall k :: 0 <= k < |entries| ==>
        entries[k] == if old(entries)[k].name == name then old(entries)[k].(interrupted := true) else old(entries)[k]
      ensures changed <==> name in old(flags) && !Carried(old(entries), name)
    {
      CarriedIsCounted(entries, name, |entries|);
      NoneToInterrupt(entries, name);
      var n := MarkLabel(name);
      if n > 0 {
        return false;
      }
      changed := name in flags;
      flags := flags - {name};
    }

    /** Every later entry moves down by one. */
    method WithoutEntry(k: nat) returns (rest: seq<Entry>)
      requires k < |entries|
      ensures rest == Drop(entries, k)
    {
      rest := entries[..k] + entries[k + 1..];
    }

    /** The coarse verb: every live call of the label. */
    method InterruptLabel(name: string) returns (n: nat)
      requires Valid()
      modifies this`entries
      ensures Valid() && State() == Apply(old(State()), InterruptLabelOf(name)) && n == Count(old(entries), name, |old(entries)|)
      ensures |entries| == |old(entries)| && forall k :: 0 <= k < |entries| ==>
        entries[k] == if old(entries)[k].name == name then old(entries)[k].(interrupted := true) else old(entries)[k]
    {
      SameButFlags(State(), Apply(State(), InterruptLabelOf(name)));
      hide Consistent;
      n := MarkLabel(name);
    }

    method MarkLabel(name: string) returns (n: nat)
      modifies this`entries
      ensures entries == InterruptedAll(old(entries), name) && n == Count(old(entries), name, |old(entries)|)
    {
      n := 0;
      ghost var before := entries;
      for i := 0 to |entries|
        invariant |entries| == |before| && n == Count(before, name, i)
        invariant forall k :: 0 <= k < |entries| ==>
          entries[k] == if k < i && before[k].name == name then Interrupted(before[k]) else before[k]
      {
        if entries[i].name == name {
          entries := entries[i := Interrupted(entries[i])];
          n := n + 1;
        }
      }
    }

    /** The fine verb: interrupts exactly the entry that the listing shows under this label and index, if
        it shows one. */
    method InterruptAt(name: string, index: nat) returns (found: bool)
      requires Valid()
      modifies this`entries
      ensures Valid() && State() == Apply(old(State()), InterruptOne(name, index))
      ensures found <==> exists k: nat :: At(old(entries), name, index, k)
      ensures forall k: nat :: At(old(entries), name, index, k) ==>
        entries == old(entries)[k := Interrupted(old(entries)[k])]
      ensures !found ==> entries == old(entries)
    {
      SameButFlags(State(), Apply(State(), InterruptOne(name, index)));
      MarkedAt(entries, name, index);
      hide Consistent, Marked;
      var at := Find(name, index);
      hide At;
      found := at.Some?;
      if found {
        entries := entries[at.value := Interrupted(entries[at.value])];
      }
    }

    /** The walk that resolves an address, counting the entries of the label. */
    method Find(name: string, index: nat) returns (at: Option<nat>)
      ensures at.Some? ==> at.value < |entries| && At(entries, name, index, at.value)
      ensures at.None? ==> forall k: nat :: !At(entries, name, index, k)
    {
      var seen := 0;
      for i := 0 to |entries|
        invariant seen == Count(entries, name, i)
        invariant forall k: nat :: k < i ==> !At(entries, name, index, k)
      {
        if entries[i].name == name {
          if seen == index {
            return Some(i);
          }
          seen := seen + 1;
        }
      }
      return None;
    }

    method InterruptAll()
      requires Valid()
      modifies this`entries
      ensures Valid() && State() == Apply(old(State()), InterruptEvery)
      ensures |entries| == |old(entries)| && forall k :: 0 <= k < |entries| ==> entries[k] == old(entries)[k].(interrupted := true)
    {
      SameButFlags(State(), Apply(State(), InterruptEvery));
      MarkEvery();
      assert State() == Apply(old(State()), InterruptEvery);
      hide Consistent;
    }

    method MarkEvery()
      modifies this`entries
      ensures |entries| == |old(entries)| && forall k :: 0 <= k < |entries| ==> entries[k] == Interrupted(old(entries)[k])
    {
      for i := 0 to |entries|
        invariant |entries| == |old(entries)|
        invariant forall k :: 0 <= k < |entries| ==> entries[k] == if k < i then Interrupted(old(entries)[k]) else old(entries)[k]
      {
        entries := entries[i := Interrupted(entries[i])];
      }
    }

    method Collect() returns (out: seq<View>)
      ensures out == Views(entries)
      ensures |out| == |entries| && forall k :: 0 <= k < |entries| ==>
        out[k].name == entries[k].name && out[k].interrupted == entries[k].interrupted && out[k].index == |Elder(entries, k)|
    {
      IndicesAreAges(entries);
      out := [];
      var counters: map<string, nat> := map[];
      for i := 0 to |entries|
        invariant |out| == i && forall k :: 0 <= k < i ==> out[k] == Views(entries)[k]
        invariant forall l :: (if l in counters then counters[l] else 0) == Count(entries, l, i)
      {
        var l := entries[i].name;
        var c := if l in counters then counters[l] else 0;
        out := out + [View(l, c, entries[i].interrupted)];
        counters := counters[l := c + 1];
      }
    }
  }

  // ---- Whole runs ----------------------------------------------------------------------------------------

  /** Raised and Lowered do what has been posted; TakeDown removes the flag for anybody else. */
  datatype Op =
    | Register(name: string) | Unregister(id: nat) | Raised(id: nat) | Lowered(due: Lowering) | TakeDown(name: string)
    | InterruptLabelOf(name: string) | InterruptOne(name: string, index: nat) | InterruptEvery

  /** Posted when the last call of the label left: the ids from `since` on had not been given out then. */
  datatype Lowering = Lowering(name: string, since: nat)

  /** The registry, the ids given out so far, the labels whose shared flag is up, the calls whose raise is
      still to be done, and the lowerings that are. */
  datatype Tracked = Tracked(entries: seq<Entry>, nextId: nat, issued: seq<nat>, flags: set<string>,
                             raises: set<nat>, lowers: multiset<Lowering>)

  const Empty := Tracked([], 1, [], {}, {}, multiset{})

  /** The place of the entry with the id, or the length. */
  function IndexOfId(entries: seq<Entry>, id: nat): (k: nat)
    ensures k <= |entries| && (k < |entries| ==> entries[k].id == id)
    ensures forall j :: 0 <= j < k ==> entries[j].id != id
  {
    if entries == [] || entries[0].id == id then 0
    else
      var k := 1 + IndexOfId(entries[1..], id);
      assert forall j :: 0 < j < k ==> entries[j] == entries[1..][j - 1];
      k
  }

  ghost function Marked(entries: seq<Entry>, name: string, index: nat): seq<Entry> {
    seq(|entries|, k requires 0 <= k < |entries| => if At(entries, name, index, k) then Interrupted(entries[k]) else entries[k])
  }

  /** Marking an address marks one entry at most. */
  lemma MarkedAt(entries: seq<Entry>, name: string, index: nat)
    ensures forall k: nat :: At(entries, name, index, k) ==> Marked(entries, name, index) == entries[k := Interrupted(entries[k])]
    ensures (forall k: nat :: !At(entries, name, index, k)) ==> Marked(entries, name, index) == entries
  {
    forall k: nat | At(entries, name, index, k)
      ensures Marked(entries, name, index) == entries[k := Interrupted(entries[k])]
    {
      forall j: nat | At(entries, name, index, j)
        ensures j == k
      {
        AddressIsUnique(entries, j, k);
      }
    }
  }

  /** Removing the flag of a label: an interrupt, as long as a call of the label is live. */
  ghost function Removed(t: Tracked, name: string): Tracked {
    if Carried(t.entries, name) then t.(entries := InterruptedAll(t.entries, name)) else t.(flags := t.flags - {name})
  }

  ghost function Apply(t: Tracked, op: Op): Tracked {
    match op
    case Register(name) =>
      t.(entries := t.entries + [Entry(name, t.nextId, false)], nextId := t.nextId + 1, issued := t.issued + [t.nextId],
         raises := if Carried(t.entries, name) then t.raises else t.raises + {t.nextId})
    case Unregister(id) =>
      var k := IndexOfId(t.entries, id);
      if k == |t.entries| || id in t.raises then t
      else
        var rest, name := Drop(t.entries, k), t.entries[k].name;
        t.(entries := rest, lowers := if Carried(rest, name) then t.lowers else t.lowers + multiset{Lowering(name, t.nextId)})
    case Raised(id) =>
      var k := IndexOfId(t.entries, id);
      if k == |t.entries| || id !in t.raises then t
      else t.(flags := t.flags + {t.entries[k].name}, raises := t.raises - {id})
    case Lowered(due) => if due in t.lowers then Removed(t.(lowers := t.lowers - multiset{due}), due.name) else t
    case TakeDown(name) => Removed(t, name)
    case InterruptLabelOf(name) => t.(entries := InterruptedAll(t.entries, name))
    case InterruptOne(name, index) => t.(entries := Marked(t.entries, name, index))
    case InterruptEvery => t.(entries := seq(|t.entries|, k requires 0 <= k < |t.entries| => Interrupted(t.entries[k])))
  }

  ghost function ApplyAll(t: Tracked, ops: seq<Op>): Tracked {
    if ops == [] then t else Apply(ApplyAll(t, ops[..|ops| - 1]), ops[|ops| - 1])
  }

  /** A live call of the label is waiting for the flag to go up. */
  ghost predicate Awaited(t: Tracked, name: string) {
    exists k :: 0 <= k < |t.entries| && t.entries[k].name == name && t.entries[k].id in t.raises
  }

  ghost predicate Due(t: Tracked, name: string) {
    exists since :: Lowering(name, since) in t.lowers
  }

  ghost predicate RegistryOk(t: Tracked) {
    && IdsOk(t.entries, t.nextId)
    && (forall i, j :: 0 <= i < j < |t.issued| ==> t.issued[i] < t.issued[j])
    && (forall i :: 0 <= i < |t.issued| ==> t.issued[i] < t.nextId)
    && (forall k :: 0 <= k < |t.entries| ==> t.entries[k].id in t.issued)
    && (forall id :: id in t.raises ==> IndexOfId(t.entries, id) < |t.entries|)
  }

  /** A flag that is down over a live call is about to go up, and one that is up over none is about to come
      down; and whatever calls of a label there are when its flag is to come down, they came since. */
  ghost predicate FlagsOk(t: Tracked) {
    && (forall l :: Carried(t.entries, l) && l !in t.flags ==> Awaited(t, l))
    && (forall l :: l in t.flags && !Carried(t.entries, l) ==> Due(t, l))
    && SinceOk(t)
  }

  ghost predicate SinceOk(t: Tracked) {
    forall w, k :: w in t.lowers && 0 <= k < |t.entries| && t.entries[k].name == w.name ==> w.since <= t.entries[k].id
  }

  /** Ids increase along the list and are never given out twice; and the flags are right but for what is
      still to be done. */
  ghost predicate Consistent(t: Tracked) {
    RegistryOk(t) && FlagsOk(t) && forall w :: w in t.lowers ==> w.since <= t.nextId
  }

  lemma {:induction false} FoundById(entries: seq<Entry>, id: nat, k: nat)
    requires k < |entries| && entries[k].id == id
    ensures IndexOfId(entries, id) <= k
  {}

  lemma RegisterKeeps(t: Tracked, name: string)
    requires Consistent(t)
    ensures Consistent(Apply(t, Register(name)))
  {
    RegisterKeepsRegistry(t, name);
    RegisterKeepsFlags(t, name);
    assert Apply(t, Register(name)).nextId == t.nextId + 1 && Apply(t, Register(name)).lowers == t.lowers;
    hide RegistryOk, FlagsOk, Apply;
  }

  lemma RegisterSays(t: Tracked, name: string)
    requires Consistent(t)
    ensures t.nextId !in t.issued
    ensures Apply(t, Register(name)) == Tracked(t.entries + [Entry(name, t.nextId, false)], t.nextId + 1, t.issued + [t.nextId],
      t.flags, if Carried(t.entries, name) then t.raises else t.raises + {t.nextId}, t.lowers)
  {
    hide IndexOfId, Carried;
  }

  lemma RegisterKeepsRegistry(t: Tracked, name: string)
    requires RegistryOk(t)
    ensures RegistryOk(Apply(t, Register(name)))
  {
    var t' := Apply(t, Register(name));
    hide IndexOfId, Carried;
    forall id | id in t'.raises
      ensures IndexOfId(t'.entries, id) < |t'.entries|
    {
      FoundById(t'.entries, id, if id == t.nextId then |t.entries| else IndexOfId(t.entries, id));
    }
  }

  lemma RegisterKeepsFlags(t: Tracked, name: string)
    requires Consistent(t)
    ensures FlagsOk(Apply(t, Register(name)))
  {
    var t' := Apply(t, Register(name));
    FlagsBefore(t);
    hide IndexOfId, IdsOk, Carried, Consistent, FlagsOk;
    forall l | Carried(t'.entries, l) && l !in t'.flags
      ensures Awaited(t', l)
    {
      AppendCarries(t.entries, Entry(name, t.nextId, false), l);
      if Carried(t.entries, l) {
        var k :| 0 <= k < |t.entries| && t.entries[k].name == l && t.entries[k].id in t.raises;
        assert t'.entries[k] == t.entries[k];
      } else {
        assert t'.entries[|t.entries|] == Entry(name, t.nextId, false) && t.nextId in t'.raises;
      }
    }
    forall l | l in t'.flags && !Carried(t'.entries, l)
      ensures Due(t', l)
    {
      AppendCarries(t.entries, Entry(name, t.nextId, false), l);
      assert Due(t, l);
    }
    assert SinceOk(t') by { SinceGrows(t, name); }
    FlagsAfter(t');
  }

  lemma SinceGrows(t: Tracked, name: string)
    requires SinceOk(t) && forall w :: w in t.lowers ==> w.since <= t.nextId
    ensures SinceOk(Apply(t, Register(name)))
  {
    hide Carried;
  }

  lemma AppendCarries(entries: seq<Entry>, e: Entry, l: string)
    ensures Carried(entries + [e], l) <==> Carried(entries, l) || l == e.name
  {
    assert (entries + [e])[|entries|] == e;
    if Carried(entries, l) {
      var k :| 0 <= k < |entries| && entries[k].name == l;
      assert (entries + [e])[k].name == l;
    }
    if Carried(entries + [e], l) && l != e.name {
      var k :| 0 <= k < |entries| + 1 && (entries + [e])[k].name == l;
      assert entries[k].name == l;
    }
  }

  lemma UnregisterKeeps(t: Tracked, id: nat)
    requires Consistent(t)
    ensures Consistent(Apply(t, Unregister(id)))
  {
    var k := IndexOfId(t.entries, id);
    if k < |t.entries| && id !in t.raises {
      UnregisterKeepsRegistry(t, id, k);
      UnregisterKeepsFlags(t, id, k);
      hide RegistryOk, FlagsOk, Carried, Drop;
    }
  }

  /** The one entry with the id and the label is gone, the others are as they were, in their order. */
  ghost predicate Loses(before: seq<Entry>, after: seq<Entry>, id: nat, name: string) {
    exists k :: 0 <= k < |before| && before[k].id == id && before[k].name == name && after == before[..k] + before[k + 1..]
  }

  lemma UnregisterKeepsRegistry(t: Tracked, id: nat, k: nat)
    requires RegistryOk(t) && id !in t.raises && k == IndexOfId(t.entries, id) < |t.entries|
    ensures RegistryOk(Apply(t, Unregister(id)))
  {
    var rest := Drop(t.entries, k);
    DropKeepsIds(t.entries, k, t.nextId, t.issued);
    forall i | i in t.raises
      ensures IndexOfId(rest, i) < |rest|
    {
      var j := IndexOfId(t.entries, i);
      FoundById(rest, i, if j < k then j else j - 1);
    }
    hide IdsOk, IndexOfId, Carried;
  }

  lemma UnregisterKeepsFlags(t: Tracked, id: nat, k: nat)
    requires Consistent(t) && id !in t.raises && k == IndexOfId(t.entries, id) < |t.entries|
    ensures FlagsOk(Apply(t, Unregister(id)))
  {
    hide *;
    var t', name := Apply(t, Unregister(id)), t.entries[k].name;
    UnregisterLeaves(t, id, k);
    FlagsBefore(t);
    forall l | Carried(t'.entries, l) && l !in t'.flags
      ensures Awaited(t', l)
    {
      DropCarries(t.entries, k, l);
      AwaitedStays(t, t', k, l);
    }
    forall l | l in t'.flags && !Carried(t'.entries, l)
      ensures Due(t', l)
    {
      DropCarries(t.entries, k, l);
      DueStays(t, t', name, l);
    }
    UnregisterKeepsSince(t, t', k);
    FlagsAfter(t');
  }

  /** The parts of FlagsOk, one way and the other. */
  lemma FlagsBefore(t: Tracked)
    requires Consistent(t)
    ensures forall l :: Carried(t.entries, l) && l !in t.flags ==> Awaited(t, l)
    ensures forall l :: l in t.flags && !Carried(t.entries, l) ==> Due(t, l)
    ensures SinceOk(t) && t.nextId >= 0 && IdsOk(t.entries, t.nextId)
  {}

  lemma FlagsAfter(t: Tracked)
    requires forall l :: Carried(t.entries, l) && l !in t.flags ==> Awaited(t, l)
    requires forall l :: l in t.flags && !Carried(t.entries, l) ==> Due(t, l)
    requires SinceOk(t)
    ensures FlagsOk(t)
  {}

  lemma UnregisterLeaves(t: Tracked, id: nat, k: nat)
    requires id !in t.raises && k == IndexOfId(t.entries, id) < |t.entries|
    ensures var t', name := Apply(t, Unregister(id)), t.entries[k].name;
      && t'.entries == Drop(t.entries, k) && t'.flags == t.flags && t'.raises == t.raises && t.entries[k].id == id
      && t'.lowers == if Carried(t'.entries, name) then t.lowers else t.lowers + multiset{Lowering(name, t.nextId)}
  {}

  lemma AwaitedStays(t: Tracked, t': Tracked, k: nat, l: string)
    requires k < |t.entries| && t.entries[k].id !in t.raises && t'.entries == Drop(t.entries, k) && t'.raises == t.raises
    ensures Awaited(t, l) ==> Awaited(t', l)
  {
    if Awaited(t, l) {
      var j :| 0 <= j < |t.entries| && t.entries[j].name == l && t.entries[j].id in t.raises;
      assert t'.entries[if j < k then j else j - 1] == t.entries[j];
    }
  }

  lemma DueStays(t: Tracked, t': Tracked, name: string, l: string)
    requires t'.lowers == if Carried(t'.entries, name) then t.lowers else t.lowers + multiset{Lowering(name, t.nextId)}
    ensures Due(t, l) ==> Due(t', l)
    ensures l == name && !Carried(t'.entries, name) ==> Due(t', l)
  {
    assert !Carried(t'.entries, name) ==> Lowering(name, t.nextId) in t'.lowers;
    hide Carried;
  }

  lemma UnregisterKeepsSince(t: Tracked, t': Tracked, k: nat)
    requires k < |t.entries| && t'.entries == Drop(t.entries, k) && SinceOk(t)
    requires var name := t.entries[k].name;
      t'.lowers == if Carried(t'.entries, name) then t.lowers else t.lowers + multiset{Lowering(name, t.nextId)}
    ensures SinceOk(t')
  {
    forall w, j | w in t'.lowers && 0 <= j < |t'.entries| && t'.entries[j].name == w.name
      ensures w.since <= t'.entries[j].id
    {
      assert t'.entries[j] == t.entries[if j < k then j else j + 1];
      assert Carried(t'.entries, w.name);
      assert w in t.lowers;
    }
  }

  lemma RaisedKeeps(t: Tracked, id: nat)
    requires Consistent(t)
    ensures Consistent(Apply(t, Raised(id)))
  {
    var k := IndexOfId(t.entries, id);
    var t' := Apply(t, Raised(id));
    if k < |t.entries| && id in t.raises {
      assert t.entries[k].id == id && t'.entries == t.entries && t'.lowers == t.lowers && t'.nextId == t.nextId;
      assert t'.flags == t.flags + {t.entries[k].name} && t'.raises == t.raises - {id};
      RaisedKeepsFlags(t, t', k);
      assert RegistryOk(t') && Consistent(t);
      hide RegistryOk, FlagsOk, IndexOfId;
    }
  }

  lemma RaisedKeepsFlags(t: Tracked, t': Tracked, k: nat)
    requires Consistent(t) && k < |t.entries| && t'.entries == t.entries && t'.lowers == t.lowers
    requires t'.flags == t.flags + {t.entries[k].name} && t'.raises == t.raises - {t.entries[k].id}
    ensures FlagsOk(t')
  {
    FlagsBefore(t);
    assert Carried(t.entries, t.entries[k].name);
    IdsDiffer(t, k);
    forall l | Carried(t.entries, l) && l !in t'.flags
      ensures Awaited(t', l)
    {
      var j :| 0 <= j < |t.entries| && t.entries[j].name == l && t.entries[j].id in t.raises;
      assert t.entries[j].id in t'.raises;
    }
    forall l | l in t'.flags && !Carried(t'.entries, l)
      ensures Due(t', l)
    {
      assert Due(t, l);
    }
    FlagsAfter(t');
    hide Carried, Consistent, FlagsOk, IdsOk;
  }

  lemma IdsDiffer(t: Tracked, k: nat)
    requires IdsOk(t.entries, t.nextId) && k < |t.entries|
    ensures forall j :: 0 <= j < |t.entries| && t.entries[j].id == t.entries[k].id ==> j == k
  {}

  /** Whoever takes the flag down. */
  lemma TakenDownKeeps(t: Tracked, op: Op)
    requires Consistent(t) && (op.Lowered? || op.TakeDown?)
    ensures Consistent(Apply(t, op))
  {
    if op.TakeDown? {
      RemovedKeeps(t, t, op.name);
      hide Consistent, Removed;
    } else if op.due in t.lowers {
      var u := t.(lowers := t.lowers - multiset{op.due});
      OtherLowers(t, u, op.due);
      RemovedKeeps(t, u, op.due.name);
      hide Consistent, Removed;
    }
  }

  lemma RemovedKeeps(t: Tracked, u: Tracked, name: string)
    requires Consistent(t) && u == t.(lowers := u.lowers) && u.lowers <= t.lowers
    requires forall l :: l != name && Due(t, l) ==> Due(u, l)
    ensures Consistent(Removed(u, name))
  {
    FlagsBefore(t);
    var t' := Removed(u, name);
    if Carried(u.entries, name) {
      FlagsAfter(u);
      hide FlagsOk, Carried, IdsOk, IndexOfId;
      SameButFlags(u, t');
    } else {
      hide IdsOk, IndexOfId, Carried;
      forall l | Carried(t'.entries, l) && l !in t'.flags
        ensures Awaited(t', l)
      {
        assert Awaited(t, l);
      }
      forall l | l in t'.flags && !Carried(t'.entries, l)
        ensures Due(t', l)
      {
        assert Due(u, l);
      }
      FlagsAfter(t');
      hide FlagsOk;
    }
  }

  lemma OtherLowers(t: Tracked, u: Tracked, due: Lowering)
    requires due in t.lowers && u == t.(lowers := t.lowers - multiset{due})
    ensures forall l :: l != due.name && Due(t, l) ==> Due(u, l)
  {
    forall l | l != due.name && Due(t, l)
      ensures Due(u, l)
    {
      var since :| Lowering(l, since) in t.lowers;
      assert Lowering(l, since) in u.lowers;
    }
  }

  lemma DropKeepsIds(entries: seq<Entry>, k: nat, nextId: nat, issued: seq<nat>)
    requires k < |entries| && IdsOk(entries, nextId) && forall j :: 0 <= j < |entries| ==> entries[j].id in issued
    ensures IdsOk(Drop(entries, k), nextId) && forall j :: 0 <= j < |Drop(entries, k)| ==> Drop(entries, k)[j].id in issued
    ensures forall j :: 0 <= j < |Drop(entries, k)| ==> Drop(entries, k)[j].id != entries[k].id
  {}

  /** What an unregistration does, and what its result means for the label and the id. */
  lemma UnregisterSays(t: Tracked, id: nat)
    requires Consistent(t) && id !in t.raises
    ensures var k, t' := IndexOfId(t.entries, id), Apply(t, Unregister(id));
      if k == |t.entries| then t' == t && forall j :: 0 <= j < |t.entries| ==> t.entries[j].id != id
      else
        && t' == t.(entries := Drop(t.entries, k), lowers := t'.lowers)
        && t'.lowers == (if Carried(t'.entries, t.entries[k].name) then t.lowers else t.lowers + multiset{Lowering(t.entries[k].name, t.nextId)})
        && Carried(t.entries, t.entries[k].name) && forall j :: 0 <= j < |t'.entries| ==> t'.entries[j].id != id
  {
    var k := IndexOfId(t.entries, id);
    if k < |t.entries| {
      DropKeepsIds(t.entries, k, t.nextId, t.issued);
      assert Carried(t.entries, t.entries[k].name);
      hide IdsOk, Drop;
    }
  }

  lemma DropCarries(entries: seq<Entry>, k: nat, l: string)
    requires k < |entries|
    ensures Carried(Drop(entries, k), l) ==> Carried(entries, l)
    ensures l != entries[k].name && Carried(entries, l) ==> Carried(Drop(entries, k), l)
  {
    var rest := Drop(entries, k);
    if Carried(rest, l) {
      var j :| 0 <= j < |rest| && rest[j].name == l;
      assert entries[if j < k then j else j + 1].name == l;
    }
    if l != entries[k].name && Carried(entries, l) {
      var j :| 0 <= j < |entries| && entries[j].name == l;
      assert rest[if j < k then j else j - 1].name == l;
    }
  }

  /** Interrupting changes nothing but interrupt flags. */
  lemma SameButFlags(t: Tracked, t': Tracked)
    requires Consistent(t) && t' == t.(entries := t'.entries) && |t'.entries| == |t.entries|
    requires forall k :: 0 <= k < |t.entries| ==> t'.entries[k].name == t.entries[k].name && t'.entries[k].id == t.entries[k].id
    ensures Consistent(t')
  {
    hide IndexOfId;
    forall id | id in t.raises
      ensures IndexOfId(t'.entries, id) < |t'.entries|
    {
      FoundById(t'.entries, id, IndexOfId(t.entries, id));
    }
    forall l
      ensures Carried(t.entries, l) <==> Carried(t'.entries, l)
      ensures Awaited(t, l) ==> Awaited(t', l)
    {
      SameCarries(t.entries, t'.entries, l);
      SameCarries(t'.entries, t.entries, l);
      if Awaited(t, l) {
        var k :| 0 <= k < |t.entries| && t.entries[k].name == l && t.entries[k].id in t.raises;
        assert t'.entries[k].name == l;
      }
    }
    assert forall l :: Due(t, l) ==> Due(t', l);
    hide Carried;
  }

  lemma SameCarries(entries: seq<Entry>, entries': seq<Entry>, l: string)
    requires |entries'| == |entries| && forall k :: 0 <= k < |entries| ==> entries'[k].name == entries[k].name
    ensures Carried(entries, l) ==> Carried(entries', l)
  {
    if Carried(entries, l) {
      var k :| 0 <= k < |entries| && entries[k].name == l;
      assert entries'[k].name == l;
    }
  }

  lemma {:induction false} CarriedIsCounted(entries: seq<Entry>, name: string, n: nat)
    requires n <= |entries|
    ensures (exists k :: 0 <= k < n && entries[k].name == name) <==> Count(entries, name, n) > 0
  {
    if n > 0 { CarriedIsCounted(entries, name, n - 1); }
  }

  lemma NoneToInterrupt(entries: seq<Entry>, name: string)
    ensures !Carried(entries, name) ==> InterruptedAll(entries, name) == entries
  {}

  lemma ApplyKeeps(t: Tracked, op: Op)
    requires Consistent(t)
    ensures Consistent(Apply(t, op))
  {
    match op {
      case Register(name) => RegisterKeeps(t, name);
      case Unregister(id) => UnregisterKeeps(t, id);
      case Raised(id) => RaisedKeeps(t, id);
      case Lowered(_) => TakenDownKeeps(t, op);
      case TakeDown(_) => TakenDownKeeps(t, op);
      case _ => SameButFlags(t, Apply(t, op));
    }
    hide Consistent;
  }

  /** Over every sequence of operations, posted flag changes among them at any time. */
  lemma {:induction false} RunsAreConsistent(ops: seq<Op>)
    ensures Consistent(ApplyAll(Empty, ops))
  {
    if ops != [] {
      RunsAreConsistent(ops[..|ops| - 1]);
      ApplyKeeps(ApplyAll(Empty, ops[..|ops| - 1]), ops[|ops| - 1]);
    }
  }

  // ---- The flag ------------------------------------------------------------------------------------------

  /** THE FLAG IS RIGHT ONCE NOTHING IS OUTSTANDING: after any sequence of operations, if nobody waits for a
      flag to go up and no lowering is to be done, a label's flag is up exactly if a live call carries it. */
  lemma SettledFlags(ops: seq<Op>, name: string)
    requires var t := ApplyAll(Empty, ops); t.raises == {} && t.lowers == multiset{}
    ensures var t := ApplyAll(Empty, ops); name in t.flags <==> Carried(t.entries, name)
  {
    RunsAreConsistent(ops);
    hide ApplyAll, RegistryOk;
  }

  /** A call that came too soon: another of its label had left last, and lowered its flag only afterwards. */
  ghost predicate CameSince(t: Tracked, w: Lowering, k: nat) {
    k < |t.entries| && t.entries[k].name == w.name && w.since <= t.entries[k].id
  }

  /** WHAT A LOWERING DOES, EXACTLY. It asks those calls to stop, and all of those, that have registered under
      the label since the last call left it and are live still; and it takes the flag down if and only if there
      are none. */
  lemma LoweringInterruptsIff(t: Tracked, w: Lowering)
    requires Consistent(t) && w in t.lowers
    ensures var t' := Apply(t, Lowered(w));
      && |t'.entries| == |t.entries|
      && (forall k: nat :: k < |t.entries| ==> t'.entries[k] == if CameSince(t, w, k) then Interrupted(t.entries[k]) else t.entries[k])
      && (w.name in t.flags ==> (w.name in t'.flags <==> exists k :: CameSince(t, w, k)))
  {
    if Carried(t.entries, w.name) {
      var k: nat :| k < |t.entries| && t.entries[k].name == w.name;
      assert CameSince(t, w, k);
    }
  }

  /** No call is live under a label whose flag is to come down. */
  ghost predicate Undisputed(t: Tracked) {
    forall w :: w in t.lowers ==> !Carried(t.entries, w.name)
  }

  /** A lowering interrupts nobody as long as this holds, and it holds until a call registers under a label
      while a lowering of it is outstanding, and no longer. */
  lemma UndisputedIff(t: Tracked, op: Op)
    requires Consistent(t) && Undisputed(t)
    ensures Undisputed(Apply(t, op)) <==> !(op.Register? && Due(t, op.name))
    ensures op.Lowered? ==> Apply(t, op).entries == t.entries
  {
    match op {
      case Register(name) => RegisterDisputes(t, name);
      case Unregister(id) => UnregisterStaysUndisputed(t, id);
      case _ => InterruptStaysUndisputed(t, op);
    }
    hide Consistent, Undisputed;
  }

  lemma RegisterDisputes(t: Tracked, name: string)
    requires Undisputed(t)
    ensures Undisputed(Apply(t, Register(name))) <==> !Due(t, name)
  {
    var t' := Apply(t, Register(name));
    forall l
      ensures Carried(t'.entries, l) <==> Carried(t.entries, l) || l == name
    {
      AppendCarries(t.entries, Entry(name, t.nextId, false), l);
    }
    assert t'.lowers == t.lowers;
    hide Carried;
    if Due(t, name) {
      var since :| Lowering(name, since) in t.lowers;
      assert Carried(t'.entries, Lowering(name, since).name);
    } else {
      assert forall w :: w in t.lowers ==> w == Lowering(w.name, w.since);
    }
  }

  lemma UnregisterStaysUndisputed(t: Tracked, id: nat)
    requires Undisputed(t)
    ensures Undisputed(Apply(t, Unregister(id)))
  {
    var k := IndexOfId(t.entries, id);
    if k < |t.entries| && id !in t.raises {
      UnregisterLeaves(t, id, k);
      var t' := Apply(t, Unregister(id));
      hide Apply, Carried, Drop, IndexOfId;
      forall w | w in t'.lowers
        ensures !Carried(t'.entries, w.name)
      {
        DropCarries(t.entries, k, w.name);
        if w !in t.lowers { assert w == Lowering(t.entries[k].name, t.nextId); }
      }
    }
  }

  lemma InterruptStaysUndisputed(t: Tracked, op: Op)
    requires Undisputed(t) && !op.Register? && !op.Unregister?
    ensures Undisputed(Apply(t, op)) && (op.Lowered? ==> Apply(t, op).entries == t.entries)
  {
    var t' := Apply(t, op);
    assert |t'.entries| == |t.entries| && (forall k :: 0 <= k < |t.entries| ==> t'.entries[k].name == t.entries[k].name);
    assert t'.lowers <= t.lowers;
    hide Apply;
    forall w | w in t'.lowers
      ensures !Carried(t'.entries, w.name)
    {
      SameCarries(t'.entries, t.entries, w.name);
    }
  }

  const Hasty: seq<Op> := [Register("L"), Raised(1), Unregister(1), Register("L"), Lowered(Lowering("L", 2))]

  /** A call that registers just after the last one has left, before the flag is down, is asked to stop though
      nobody wants it to. */
  lemma SuccessorIsInterrupted()
    ensures ApplyAll(Empty, Hasty) == Tracked([Entry("L", 2, true)], 3, [1, 2], {"L"}, {2}, multiset{})
  {
    ApplyFive(Hasty[0], Hasty[1], Hasty[2], Hasty[3], Hasty[4]);
    hide Apply;
    FirstHasty();
    SecondHasty();
    ThirdHasty();
  }

  const OneLive := Tracked([Entry("L", 1, false)], 2, [1], {"L"}, {}, multiset{})
  const OneGone := Tracked([], 2, [1], {"L"}, {}, multiset{Lowering("L", 2)})

  lemma FirstHasty()
    ensures Apply(Apply(Empty, Register("L")), Raised(1)) == OneLive
  {
    var t := Tracked([Entry("L", 1, false)], 2, [1], {}, {1}, multiset{});
    assert Apply(Empty, Register("L")) == t;
    assert IndexOfId(t.entries, 1) == 0;
  }

  lemma SecondHasty()
    ensures Apply(OneLive, Unregister(1)) == OneGone
  {
    assert IndexOfId(OneLive.entries, 1) == 0 && Drop(OneLive.entries, 0) == [];
  }

  lemma ThirdHasty()
    ensures Apply(Apply(OneGone, Register("L")), Lowered(Lowering("L", 2))) == Tracked([Entry("L", 2, true)], 3, [1, 2], {"L"}, {2}, multiset{})
  {
    var t := Tracked([Entry("L", 2, false)], 3, [1, 2], {"L"}, {2}, multiset{Lowering("L", 2)});
    assert Apply(OneGone, Register("L")) == t;
    assert t.entries[0].name == "L" && InterruptedAll(t.entries, "L") == [Entry("L", 2, true)];
    assert t.lowers - multiset{Lowering("L", 2)} == multiset{};
  }

  lemma ApplyFive(a: Op, b: Op, c: Op, d: Op, e: Op)
    ensures ApplyAll(Empty, [a, b, c, d, e]) == Apply(Apply(Apply(Apply(Apply(Empty, a), b), c), d), e)
  {
    hide Apply;
    assert ApplyAll(Empty, []) == Empty;
    assert [a][..0] == [] && ApplyAll(Empty, [a]) == Apply(Empty, a);
    assert [a, b][..1] == [a] && ApplyAll(Empty, [a, b]) == Apply(ApplyAll(Empty, [a]), b);
    assert [a, b, c][..2] == [a, b] && ApplyAll(Empty, [a, b, c]) == Apply(ApplyAll(Empty, [a, b]), c);
    assert [a, b, c, d][..3] == [a, b, c] && ApplyAll(Empty, [a, b, c, d]) == Apply(ApplyAll(Empty, [a, b, c]), d);
    assert [a, b, c, d, e][..4] == [a, b, c, d];
  }
}
