/** The lazily rebuilt ordered view of a list of entities (core/RIDList.h:218-229, 245-306, 327-335).

    Entries are kept by RID; the stored pointer may be null, and what it points at has a standing (its
    key) that can change while the entry stays put. The relation on keys is any strict weak order. The
    map's own enumeration order is arbitrary; stable_sort and the two bisections of the standard library
    are written out. */
module RidIndex {

  type Rid = nat

  datatype Option<T> = None | Some(value: T)

  type Keys<K> = map<Rid, Option<K>>

  // ---- The relation ------------------------------------------------------------------------------------

  /** Asymmetric, and "not before" is transitive. */
  ghost predicate StrictWeak<K(!new)>(less: (K, K) -> bool) {
    && (forall a, b :: less(a, b) ==> !less(b, a))
    && (forall a, b, c :: less(a, c) ==> less(a, b) || less(b, c))
  }

  function KeyOf<K>(keys: Keys<K>, r: Rid): Option<K> {
    if r in keys then keys[r] else None
  }

  /** The comparison of two entries: a null pointer sorts first. */
  predicate Before<K>(less: (K, K) -> bool, keys: Keys<K>, a: Rid, b: Rid) {
    var ka, kb := KeyOf(keys, a), KeyOf(keys, b);
    if ka.None? || kb.None? then ka.None? && kb.Some? else less(ka.value, kb.value)
  }

  /** Nulls first keeps it a strict weak order. */
  lemma BeforeIsStrictWeak<K(!new)>(less: (K, K) -> bool, keys: Keys<K>, a: Rid, b: Rid, c: Rid)
    requires StrictWeak(less)
    ensures Before(less, keys, a, b) ==> !Before(less, keys, b, a)
    ensures Before(less, keys, a, c) ==> Before(less, keys, a, b) || Before(less, keys, b, c)
  {}

  ghost predicate Sorted<K>(less: (K, K) -> bool, keys: Keys<K>, xs: seq<Rid>) {
    forall i, j :: 0 <= i < j < |xs| ==> !Before(less, keys, xs[j], xs[i])
  }

  /** Neither stands before the other. */
  predicate Same<K>(less: (K, K) -> bool, keys: Keys<K>, r: Rid, key: K) {
    KeyOf(keys, r).Some? && !less(KeyOf(keys, r).value, key) && !less(key, KeyOf(keys, r).value)
  }

  /** The entries that stand where the key does, in their own order. */
  function Matching<K>(less: (K, K) -> bool, keys: Keys<K>, xs: seq<Rid>, key: K): seq<Rid> {
    if xs == [] then []
    else Matching(less, keys, xs[..|xs| - 1], key) + if Same(less, keys, xs[|xs| - 1], key) then [xs[|xs| - 1]] else []
  }

  // ---- Stable sorting ------------------------------------------------------------------------------------

  /** After every entry that the new one does not stand before. */
  function Insert<K>(less: (K, K) -> bool, keys: Keys<K>, xs: seq<Rid>, x: Rid): seq<Rid> {
    if xs == [] || !Before(less, keys, x, xs[|xs| - 1]) then xs + [x]
    else Insert(less, keys, xs[..|xs| - 1], x) + [xs[|xs| - 1]]
  }

  function StableSort<K>(less: (K, K) -> bool, keys: Keys<K>, xs: seq<Rid>): seq<Rid> {
    if xs == [] then [] else Insert(less, keys, StableSort(less, keys, xs[..|xs| - 1]), xs[|xs| - 1])
  }

  lemma {:induction false} InsertSorts<K(!new)>(less: (K, K) -> bool, keys: Keys<K>, xs: seq<Rid>, x: Rid)
    requires StrictWeak(less) && Sorted(less, keys, xs)
    ensures var ys := Insert(less, keys, xs, x);
      Sorted(less, keys, ys) && multiset(ys) == multiset(xs) + multiset{x}
  {
    var n := |xs| - 1;
    if xs == [] || !Before(less, keys, x, xs[n]) {
      forall i | 0 <= i < |xs|
        ensures !Before(less, keys, x, xs[i])
      {
        if i < n { BeforeIsStrictWeak(less, keys, x, xs[n], xs[i]); }
      }
    } else {
      InsertSorts(less, keys, xs[..n], x);
      var ys := Insert(less, keys, xs[..n], x);
      assert xs == xs[..n] + [xs[n]];
      forall i | 0 <= i < |ys|
        ensures !Before(less, keys, xs[n], ys[i])
      {
        assert ys[i] in multiset(ys);
        BeforeIsStrictWeak(less, keys, x, xs[n], x);
        assert ys[i] in multiset(xs[..n]) || ys[i] == x;
        assert ys[i] != x ==> ys[i] in xs[..n];
      }
    }
  }

  lemma {:induction false} SortSorts<K(!new)>(less: (K, K) -> bool, keys: Keys<K>, xs: seq<Rid>)
    requires StrictWeak(less)
    ensures Sorted(less, keys, StableSort(less, keys, xs)) && multiset(StableSort(less, keys, xs)) == multiset(xs)
  {
    if xs != [] {
      SortSorts(less, keys, xs[..|xs| - 1]);
      InsertSorts(less, keys, StableSort(less, keys, xs[..|xs| - 1]), xs[|xs| - 1]);
      assert xs == xs[..|xs| - 1] + [xs[|xs| - 1]];
    }
  }

  /** An entry that matches is put behind every other that does. */
  lemma {:induction false} InsertMatching<K(!new)>(less: (K, K) -> bool, keys: Keys<K>, xs: seq<Rid>, x: Rid, key: K)
    requires StrictWeak(less)
    ensures Matching(less, keys, Insert(less, keys, xs, x), key) ==
      Matching(less, keys, xs, key) + if Same(less, keys, x, key) then [x] else []
  {
    var n := |xs| - 1;
    if xs == [] || !Before(less, keys, x, xs[n]) {
      MatchingSnoc(less, keys, xs, x, key);
    } else {
      InsertMatching(less, keys, xs[..n], x, key);
      var inner := Insert(less, keys, xs[..n], x);
      assert Same(less, keys, x, key) ==> !Same(less, keys, xs[n], key);
      hide Insert, Matching, Same, StrictWeak, Before;
      MatchingSnoc(less, keys, inner, xs[n], key);
      MatchingSnoc(less, keys, xs[..n], xs[n], key);
      assert xs[..n] + [xs[n]] == xs;
    }
  }

  lemma MatchingSnoc<K>(less: (K, K) -> bool, keys: Keys<K>, xs: seq<Rid>, x: Rid, key: K)
    ensures Matching(less, keys, xs + [x], key) == Matching(less, keys, xs, key) + if Same(less, keys, x, key) then [x] else []
  {
    assert (xs + [x])[..|xs|] == xs;
  }

  /** STABILITY: entries of equal standing keep the order they had. */
  lemma {:induction false} SortIsStable<K(!new)>(less: (K, K) -> bool, keys: Keys<K>, xs: seq<Rid>, key: K)
    requires StrictWeak(less)
    ensures Matching(less, keys, StableSort(less, keys, xs), key) == Matching(less, keys, xs, key)
  {
    if xs != [] {
      SortIsStable(less, keys, xs[..|xs| - 1], key);
      InsertMatching(less, keys, StableSort(less, keys, xs[..|xs| - 1]), xs[|xs| - 1], key);
    }
  }

  /** Between two rebuilds the entries of one standing keep their order if and only if the two enumerations
      of the map had them in the same order. */
  lemma RebuildKeepsOrderIff<K(!new)>(less: (K, K) -> bool, keys: Keys<K>, xs: seq<Rid>, ys: seq<Rid>, key: K)
    requires StrictWeak(less)
    ensures Matching(less, keys, StableSort(less, keys, xs), key) == Matching(less, keys, StableSort(less, keys, ys), key) <==>
      Matching(less, keys, xs, key) == Matching(less, keys, ys, key)
  {
    SortIsStable(less, keys, xs, key);
    SortIsStable(less, keys, ys, key);
  }

  /** So any two entries of equal standing change places with their enumeration. */
  lemma EqualsFollowTheMap<K(!new)>(less: (K, K) -> bool, keys: Keys<K>, r: Rid, s: Rid)
    requires StrictWeak(less) && !Before(less, keys, r, s) && !Before(less, keys, s, r)
    ensures StableSort(less, keys, [r, s]) == [r, s] && StableSort(less, keys, [s, r]) == [s, r]
  {
    TwoSort(less, keys, r, s);
    TwoSort(less, keys, s, r);
  }

  lemma TwoSort<K(!new)>(less: (K, K) -> bool, keys: Keys<K>, r: Rid, s: Rid)
    requires !Before(less, keys, s, r)
    ensures StableSort(less, keys, [r, s]) == [r, s]
  {
    assert [r, s][..1] == [r] && [r][..0] == [];
    assert StableSort(less, keys, [r]) == Insert(less, keys, [], r) == [r];
  }

  // ---- The equal range -----------------------------------------------------------------------------------

  /** Below the key: null, or strictly before it. */
  predicate Below<K>(less: (K, K) -> bool, keys: Keys<K>, r: Rid, key: K) {
    KeyOf(keys, r).None? || less(KeyOf(keys, r).value, key)
  }

  predicate Above<K>(less: (K, K) -> bool, keys: Keys<K>, r: Rid, key: K) {
    KeyOf(keys, r).Some? && less(key, KeyOf(keys, r).value)
  }

  /** In a sorted list the entries below the key come first and those above it last. */
  lemma SortedSplits<K(!new)>(less: (K, K) -> bool, keys: Keys<K>, xs: seq<Rid>, key: K, i: nat, j: nat)
    requires StrictWeak(less) && Sorted(less, keys, xs) && i < j < |xs|
    ensures Below(less, keys, xs[j], key) ==> Below(less, keys, xs[i], key)
    ensures Above(less, keys, xs[i], key) ==> Above(less, keys, xs[j], key)
  {
    assert !Before(less, keys, xs[j], xs[i]);
  }

  /** lower_bound and upper_bound, as places in the list. */
  ghost predicate IsLower<K>(less: (K, K) -> bool, keys: Keys<K>, xs: seq<Rid>, key: K, lo: nat) {
    && lo <= |xs| && (forall i :: 0 <= i < lo ==> Below(less, keys, xs[i], key))
    && (forall i :: lo <= i < |xs| ==> !Below(less, keys, xs[i], key))
  }

  ghost predicate IsUpper<K>(less: (K, K) -> bool, keys: Keys<K>, xs: seq<Rid>, key: K, hi: nat) {
    && hi <= |xs| && (forall i :: 0 <= i < hi ==> !Above(less, keys, xs[i], key))
    && (forall i :: hi <= i < |xs| ==> Above(less, keys, xs[i], key))
  }

  /** What lies between the two places is exactly what matches. */
  lemma {:induction false} RangeMatches<K(!new)>(less: (K, K) -> bool, keys: Keys<K>, xs: seq<Rid>, key: K, lo: nat, hi: nat, n: nat)
    requires StrictWeak(less) && IsLower(less, keys, xs, key, lo) && IsUpper(less, keys, xs, key, hi) && lo <= hi && n <= |xs|
    ensures Matching(less, keys, xs[..n], key) == if n <= lo then [] else if n <= hi then xs[lo..n] else xs[lo..hi]
    decreases n
  {
    if n > 0 {
      RangeMatches(less, keys, xs, key, lo, hi, n - 1);
      assert xs[..n][..n - 1] == xs[..n - 1] && xs[..n][n - 1] == xs[n - 1];
      assert Same(less, keys, xs[n - 1], key) <==> lo <= n - 1 < hi;
      assert lo < n <= hi ==> xs[lo..n] == xs[lo..n - 1] + [xs[n - 1]];
    }
  }

  lemma {:induction false} MatchingMeans<K>(less: (K, K) -> bool, keys: Keys<K>, xs: seq<Rid>, key: K, r: Rid)
    ensures r in Matching(less, keys, xs, key) <==> r in xs && Same(less, keys, r, key)
  {
    if xs != [] {
      assert xs == xs[..|xs| - 1] + [xs[|xs| - 1]];
      MatchingMeans(less, keys, xs[..|xs| - 1], key, r);
    }
  }

  // ---- The list ------------------------------------------------------------------------------------------

  ghost predicate Distinct(xs: seq<Rid>) {
    forall i, j :: 0 <= i < j < |xs| ==> xs[i] != xs[j]
  }

  /** The entries of the list, each once, in order. */
  ghost predicate Ordered<K>(less: (K, K) -> bool, keys: Keys<K>, xs: seq<Rid>) {
    Sorted(less, keys, xs) && Distinct(xs) && forall r :: r in xs <==> r in keys
  }

  lemma {:induction false} DistinctCounts(xs: seq<Rid>)
    ensures Distinct(xs) <==> forall r :: multiset(xs)[r] <= 1
  {
    if xs != [] {
      var n := |xs| - 1;
      assert xs == xs[..n] + [xs[n]];
      DistinctCounts(xs[..n]);
      if Distinct(xs) {
        forall r ensures multiset(xs)[r] <= 1 {
          assert r == xs[n] ==> r !in xs[..n];
        }
      } else {
        if Distinct(xs[..n]) {
          assert xs[n] in xs[..n] by {
            var i, j :| 0 <= i < j < |xs| && xs[i] == xs[j];
            assert j == n;
            assert xs[..n][i] == xs[n];
          }
          assert multiset(xs)[xs[n]] >= 2;
        } else {
          var r :| multiset(xs[..n])[r] > 1;
          assert multiset(xs)[r] > 1;
        }
      }
    }
  }

  /** Sorting an enumeration of the entries orders the list. */
  lemma SortOrders<K(!new)>(less: (K, K) -> bool, keys: Keys<K>, xs: seq<Rid>)
    requires StrictWeak(less) && Distinct(xs) && forall r :: r in xs <==> r in keys
    ensures Ordered(less, keys, StableSort(less, keys, xs))
  {
    var ys := StableSort(less, keys, xs);
    SortSorts(less, keys, xs);
    DistinctCounts(xs);
    DistinctCounts(ys);
    forall r
      ensures r in ys <==> r in keys
    {
      assert r in multiset(ys) <==> r in multiset(xs);
    }
  }

  /** Two entries one after the other: a null pointer, or a key that the next one is not below. */
  ghost predicate InOrder<K>(less: (K, K) -> bool, a: Option<K>, b: Option<K>) {
    a.None? || (b.Some? && !less(b.value, a.value))
  }

  lemma OrderedMeans<K(!new)>(less: (K, K) -> bool, keys: Keys<K>, xs: seq<Rid>)
    requires Ordered(less, keys, xs)
    ensures forall i, j :: 0 <= i < j < |xs| ==> xs[i] in keys && xs[j] in keys && InOrder(less, keys[xs[i]], keys[xs[j]])
  {
    forall i, j | 0 <= i < j < |xs| ensures xs[i] in keys && xs[j] in keys && InOrder(less, keys[xs[i]], keys[xs[j]]) {
      assert !Before(less, keys, xs[j], xs[i]);
    }
  }

  /** The entries found, said without the search: those with a key that is neither below nor above, in the
      order of the list. */
  ghost predicate Standing<K>(less: (K, K) -> bool, entity: Option<K>, key: K) {
    entity.Some? && !less(entity.value, key) && !less(key, entity.value)
  }

  lemma SortedOf<K(!new)>(less: (K, K) -> bool, keys: Keys<K>, xs: seq<Rid>)
    requires Ordered(less, keys, xs)
    ensures Sorted(less, keys, xs)
  {}

  lemma BelowIsNotAbove<K(!new)>(less: (K, K) -> bool, keys: Keys<K>, xs: seq<Rid>, key: K, lo: nat)
    requires StrictWeak(less) && IsLower(less, keys, xs, key, lo)
    ensures lo <= |xs| && forall i :: 0 <= i < lo ==> !Above(less, keys, xs[i], key)
  {
    forall i | 0 <= i < lo ensures !Above(less, keys, xs[i], key) {
      assert Below(less, keys, xs[i], key);
    }
  }

  lemma BoundsFit<K(!new)>(less: (K, K) -> bool, keys: Keys<K>, xs: seq<Rid>, key: K, lo: nat, hi: nat)
    requires IsLower(less, keys, xs, key, lo) && IsUpper(less, keys, xs, key, hi)
    ensures lo <= |xs| && hi <= |xs|
  {}

  /** The range between the bounds, and what is in it. */
  lemma EqualRange<K(!new)>(less: (K, K) -> bool, keys: Keys<K>, xs: seq<Rid>, key: K, lo: nat, hi: nat)
    requires StrictWeak(less) && Ordered(less, keys, xs)
    requires IsLower(less, keys, xs, key, lo) && IsUpper(less, keys, xs, key, hi) && lo <= hi
    ensures hi <= |xs| && xs[lo..hi] == Matching(less, keys, xs, key)
    ensures forall r :: r in Matching(less, keys, xs, key) <==> r in keys && Same(less, keys, r, key)
  {
    hide StrictWeak, IsLower, IsUpper, Matching, Same;
    RangeMatches(less, keys, xs, key, lo, hi, |xs|);
    BoundsFit(less, keys, xs, key, lo, hi);
    assert xs[..|xs|] == xs;
    forall r
      ensures r in Matching(less, keys, xs, key) <==> r in keys && Same(less, keys, r, key)
    {
      MatchingMeans(less, keys, xs, key, r);
    }
  }

  lemma SameIsStanding<K(!new)>(less: (K, K) -> bool, keys: Keys<K>, key: K)
    ensures forall r :: r in keys ==> (Same(less, keys, r, key) <==> Standing(less, keys[r], key))
  {}

  class RIDList<K(!new)> {
    const less: (K, K) -> bool
    var entities: map<Rid, Option<K>>
    var ordered: seq<Rid>
    var stale: bool

    /** The cached view is in order, or it says that it is not. */
    ghost predicate Valid()
      reads this
    {
      StrictWeak(less) && (stale || Ordered(less, entities, ordered))
    }

    constructor (less: (K, K) -> bool)
      requires StrictWeak(less)
      ensures Valid() && this.less == less && entities == map[]
    {
      this.less := less;
      entities, ordered, stale := map[], [], true;
    }

    method Insert(r: Rid, entity: Option<K>)
      requires Valid()
      modifies this
      ensures Valid() && entities == old(entities)[r := entity] && stale
    {
      entities := entities[r := entity];
      stale := true;
    }

    method Remove(r: Rid)
      requires Valid()
      modifies this
      ensures Valid() && entities == old(entities) - {r} && stale
    {
      entities := entities - {r};
      stale := true;
    }

    /** The pointee moves: nothing in the list can see it, so the view may now be out of order. */
    method ChangeKey(r: Rid, key: K)
      requires r in entities && entities[r].Some?
      modifies this`entities
      ensures entities == old(entities)[r := Some(key)]
    {
      entities := entities[r := Some(key)];
    }

    /** The seam that says so: whatever has moved, the list is sound again. */
    method Reorder()
      requires StrictWeak(less)
      modifies this`stale
      ensures Valid() && stale
    {
      stale := true;
    }

    /** A key change that is reported: the list is sound whatever it was changed to. */
    method Reposition(r: Rid, key: K)
      requires Valid() && r in entities && entities[r].Some?
      modifies this`entities, this`stale
      ensures Valid() && stale && entities == old(entities)[r := Some(key)]
    {
      ChangeKey(r, key);
      Reorder();
    }

    /** The map's own enumeration: every entry once, in no particular order. */
    method Enumerate() returns (xs: seq<Rid>)
      ensures Distinct(xs) && forall r :: r in xs <==> r in entities
    {
      xs := [];
      var left := entities.Keys;
      while left != {}
        invariant left <= entities.Keys && Distinct(xs)
        invariant forall r :: r in xs <==> r in entities && r !in left
        decreases |left|
      {
        var r :| r in left;
        xs := xs + [r];
        left := left - {r};
      }
    }

    /** Rebuilt only when stale, and appended to what the caller has. */
    method CollectOrdered(out: seq<Rid>) returns (all: seq<Rid>)
      requires Valid()
      modifies this`ordered, this`stale
      ensures Valid() && !stale && all == out + ordered && Ordered(less, entities, ordered)
      ensures !old(stale) ==> ordered == old(ordered)
      ensures forall i, j :: 0 <= i < j < |ordered| ==> InOrder(less, entities[ordered[i]], entities[ordered[j]])
    {
      if stale {
        var found := Enumerate();
        SortOrders(less, entities, found);
        ordered := StableSort(less, entities, found);
        stale := false;
      }
      all := out + ordered;
      OrderedMeans(less, entities, ordered);
    }

    method LowerBound(xs: seq<Rid>, key: K) returns (lo: nat)
      requires StrictWeak(less) && Sorted(less, entities, xs)
      ensures IsLower(less, entities, xs, key, lo)
    {
      var first, count := 0, |xs|;
      while count > 0
        invariant 0 <= first && 0 <= count && first + count <= |xs|
        invariant forall i :: 0 <= i < first ==> Below(less, entities, xs[i], key)
        invariant forall i :: first + count <= i < |xs| ==> !Below(less, entities, xs[i], key)
        decreases count
      {
        var step := count / 2;
        var mid := first + step;
        forall i | 0 <= i < |xs| && i != mid
          ensures i < mid && Below(less, entities, xs[mid], key) ==> Below(less, entities, xs[i], key)
          ensures mid < i && !Below(less, entities, xs[mid], key) ==> !Below(less, entities, xs[i], key)
        {
          if i < mid { SortedSplits(less, entities, xs, key, i, mid); } else { SortedSplits(less, entities, xs, key, mid, i); }
        }
        if Below(less, entities, xs[mid], key) {
          first, count := mid + 1, count - (step + 1);
        } else {
          count := step;
        }
      }
      lo := first;
    }

    method UpperBound(xs: seq<Rid>, from: nat, key: K) returns (hi: nat)
      requires StrictWeak(less) && Sorted(less, entities, xs) && from <= |xs|
      requires forall i :: 0 <= i < from ==> !Above(less, entities, xs[i], key)
      ensures from <= hi && IsUpper(less, entities, xs, key, hi)
    {
      var first, count := from, |xs| - from;
      while count > 0
        invariant from <= first && 0 <= count && first + count <= |xs|
        invariant forall i :: 0 <= i < first ==> !Above(less, entities, xs[i], key)
        invariant forall i :: first + count <= i < |xs| ==> Above(less, entities, xs[i], key)
        decreases count
      {
        var step := count / 2;
        var mid := first + step;
        forall i | 0 <= i < |xs| && i != mid
          ensures i < mid && !Above(less, entities, xs[mid], key) ==> !Above(less, entities, xs[i], key)
          ensures mid < i && Above(less, entities, xs[mid], key) ==> Above(less, entities, xs[i], key)
        {
          if i < mid { SortedSplits(less, entities, xs, key, i, mid); } else { SortedSplits(less, entities, xs, key, mid, i); }
        }
        if Above(less, entities, xs[mid], key) {
          count := step;
        } else {
          first, count := mid + 1, count - (step + 1);
        }
      }
      hi := first;
    }

    /** THE SEARCH IS EXACT: it appends the entries that stand where the key does, all of them and no
        others, in the list's own order. */
    method SearchOrdered(key: K, out: seq<Rid>) returns (found: seq<Rid>)
      requires Valid()
      modifies this`ordered, this`stale
      ensures Valid() && !stale && found == out + Matching(less, entities, ordered, key)
      ensures forall r :: r in found[|out|..] <==> r in entities && Standing(less, entities[r], key)
    {
      hide Standing;
      hide Same, Below, Above, Matching, Sorted, IsUpper, IsLower, StrictWeak;
      var xs := CollectOrdered([]);
      assert xs == ordered;
      SortedOf(less, entities, xs);
      var lo := LowerBound(xs, key);
      BelowIsNotAbove(less, entities, xs, key, lo);
      var hi := UpperBound(xs, lo, key);
      EqualRange(less, entities, xs, key, lo, hi);
      found := out + xs[lo..hi];
      assert found[|out|..] == xs[lo..hi];
      SameIsStanding(less, entities, key);
    }

    /** The exemplar is in its own result: it stands where it stands. */
    method SearchOrderedBy(exemplar: Rid, out: seq<Rid>) returns (found: seq<Rid>)
      requires Valid()
      modifies this`ordered, this`stale
      ensures Valid() && entities == old(entities)
      ensures match KeyOf(entities, exemplar)
        case None => found == out
        case Some(key) =>
          && found == out + Matching(less, entities, ordered, key) && exemplar in found[|out|..]
          && forall r :: r in found[|out|..] <==> r in entities && Standing(less, entities[r], key)
    {
      if exemplar !in entities || entities[exemplar].None? {
        return out;
      }
      found := SearchOrdered(entities[exemplar].value, out);
    }
  }

  /** Null entries come first in the ordered view. */
  lemma NullsFirst<K(!new)>(less: (K, K) -> bool, keys: Keys<K>, xs: seq<Rid>, i: nat, j: nat)
    requires Ordered(less, keys, xs) && i < j < |xs| && keys[xs[j]].None?
    ensures keys[xs[i]].None?
  {
    assert !Before(less, keys, xs[j], xs[i]);
    assert xs[i] in keys && xs[j] in keys;
  }
}
