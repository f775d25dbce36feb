/** The 64-slot conflict scheduler `GapReorderBuffer` (core/EventStream.h:31-133), for any depth >= 1.

    A row of `blockedBy` is the set of slot indices whose bits are up in the source's 64-bit row. */
module ReorderBuffer {
  import opened EventLog

  datatype Status = Empty | Pending | Running | Complete | Committed

  datatype GapSlot = GapSlot(sequence: nat, mask: TagMask, status: Status, result: nat)

  predicate Live(s: GapSlot) {
    s.status != Empty && s.status != Committed
  }

  /** What a set bit j of row i means: slot j is live, arrived earlier and conflicts with slot i. */
  predicate Blocks(slots: seq<GapSlot>, j: nat, i: nat)
    requires j < |slots| && i < |slots|
  {
    Live(slots[j]) && Live(slots[i]) && slots[j].sequence < slots[i].sequence && slots[j].mask * slots[i].mask != {}
  }

  ghost predicate ExactRow(slots: seq<GapSlot>, row: set<nat>, i: nat)
    requires i < |slots|
  {
    forall j: nat :: j in row <==> j < |slots| && Blocks(slots, j, i)
  }

  ghost predicate Exact(slots: seq<GapSlot>, rows: seq<set<nat>>) {
    |rows| == |slots| && forall i :: 0 <= i < |slots| ==> ExactRow(slots, rows[i], i)
  }

  /** Every live slot sits at its own sequence number modulo the depth; nothing rests Committed. */
  ghost predicate Placed(slots: seq<GapSlot>) {
    forall i :: 0 <= i < |slots| ==>
      slots[i].status != Committed && (Live(slots[i]) ==> slots[i].sequence % |slots| == i)
  }

  // ---- Pure effects of the buffer's operations on an exact matrix --------------------------------

  /** Two different live slots hold different sequence numbers. */
  lemma DistinctSequences(slots: seq<GapSlot>, i: nat, j: nat)
    requires Placed(slots) && i < |slots| && j < |slots|
    requires Live(slots[i]) && Live(slots[j]) && slots[i].sequence == slots[j].sequence
    ensures i == j
  {}

  /** acquire: filling an empty slot with the newest arrival touches only that slot's row. */
  lemma AcquireKeepsExact(slots: seq<GapSlot>, rows: seq<set<nat>>, i: nat, fresh_: GapSlot, row: set<nat>)
    requires Exact(slots, rows) && i < |slots| && !Live(slots[i])
    requires Live(fresh_) && forall j :: 0 <= j < |slots| && Live(slots[j]) ==> slots[j].sequence < fresh_.sequence
    requires forall j: nat :: j in row <==>
      j < |slots| && j != i && Live(slots[j]) && slots[j].mask * fresh_.mask != {}
    ensures Exact(slots[i := fresh_], rows[i := row])
  {
    var slots', rows' := slots[i := fresh_], rows[i := row];
    forall k, j: nat | 0 <= k < |slots|
      ensures j in rows'[k] <==> j < |slots'| && Blocks(slots', j, k)
    {
      assert ExactRow(slots, rows[k], k);
    }
  }

  /** Retiring a slot and clearing its bit everywhere leaves no stale bit. */
  lemma RetireKeepsExact(slots: seq<GapSlot>, rows: seq<set<nat>>, i: nat, rows': seq<set<nat>>, dead: GapSlot)
    requires Exact(slots, rows) && i < |slots| && |rows'| == |rows| && !Live(dead)
    requires rows'[i] == {} && forall k :: 0 <= k < |rows| && k != i ==> rows'[k] == rows[k] - {i}
    ensures Exact(slots[i := dead], rows')
  {
    var slots' := slots[i := dead];
    forall k, j: nat | 0 <= k < |slots|
      ensures j in rows'[k] <==> j < |slots'| && Blocks(slots', j, k)
    {
      assert ExactRow(slots, rows[k], k);
    }
  }

  /** A change of status or result among the live statuses is invisible to the matrix. */
  lemma RestatusKeepsExact(slots: seq<GapSlot>, rows: seq<set<nat>>, i: nat, s: GapSlot)
    requires Exact(slots, rows) && i < |slots| && Live(slots[i]) && Live(s)
    requires s.sequence == slots[i].sequence && s.mask == slots[i].mask
    ensures Exact(slots[i := s], rows)
  {
    var slots' := slots[i := s];
    forall k, j: nat | 0 <= k < |slots|
      ensures j in rows[k] <==> j < |slots'| && Blocks(slots', j, k)
    {
      assert ExactRow(slots, rows[k], k);
    }
  }

  // ---- Progress -----------------------------------------------------------------------------------

  /** How much work a sweep can still do: a Pending slot can be launched and then committed. */
  function Weight(slots: seq<GapSlot>): nat {
    if slots == [] then 0
    else Weight(slots[..|slots| - 1]) + Burden(slots[|slots| - 1])
  }

  function Burden(s: GapSlot): nat {
    match s.status
    case Pending => 2
    case Complete => 1
    case _ => 0
  }

  lemma {:induction false} WeightUpdate(slots: seq<GapSlot>, i: nat, s: GapSlot)
    requires i < |slots|
    ensures Weight(slots[i := s]) == Weight(slots) - Burden(slots[i]) + Burden(s)
  {
    var last := |slots| - 1;
    if i == last {
      assert slots[i := s][..last] == slots[..last];
    } else {
      WeightUpdate(slots[..last], i, s);
      assert slots[i := s][..last] == slots[..last][i := s];
    }
  }

  /** A sweep can launch or commit slot i. */
  ghost predicate Ready(slots: seq<GapSlot>, rows: seq<set<nat>>, i: nat)
    requires |rows| == |slots| && i < |slots|
  {
    rows[i] == {} && (slots[i].status == Pending || slots[i].status == Complete)
  }

  /** Nothing is left for a sweep to do. */
  ghost predicate Quiet(slots: seq<GapSlot>, rows: seq<set<nat>>)
    requires |rows| == |slots|
  {
    forall i :: 0 <= i < |slots| ==> !Ready(slots, rows, i)
  }

  /** Slot i is Running, or waits -- through a chain of blockers -- for one that is. */
  ghost predicate WaitsOnRunning(slots: seq<GapSlot>, i: nat)
    requires i < |slots|
    decreases slots[i].sequence
  {
    slots[i].status == Running ||
    exists j: nat :: j < |slots| && Blocks(slots, j, i) && WaitsOnRunning(slots, j)
  }

  /** NO DEADLOCK. Once a sweep has nothing to do, every live slot is Running or transitively waits
      for a Running one. */
  lemma {:induction false} QuietWaits(slots: seq<GapSlot>, rows: seq<set<nat>>, i: nat)
    requires Exact(slots, rows) && Placed(slots) && Quiet(slots, rows)
    requires i < |slots| && Live(slots[i])
    ensures WaitsOnRunning(slots, i)
    decreases slots[i].sequence
  {
    assert ExactRow(slots, rows[i], i) && !Ready(slots, rows, i);
    if rows[i] == {} {
      assert slots[i].status == Running;
    } else {
      var j :| j in rows[i];
      assert Blocks(slots, j, i);
      QuietWaits(slots, rows, j);
    }
  }

  lemma {:induction false} WaitsFindsRunning(slots: seq<GapSlot>, i: nat) returns (r: nat)
    requires i < |slots| && WaitsOnRunning(slots, i)
    ensures r < |slots| && slots[r].status == Running
    decreases slots[i].sequence
  {
    if slots[i].status == Running {
      r := i;
    } else {
      var j: nat :| j < |slots| && Blocks(slots, j, i) && WaitsOnRunning(slots, j);
      r := WaitsFindsRunning(slots, j);
    }
  }

  /** With nothing Running, a sweep that has nothing to do leaves every slot Empty. */
  lemma QuietAndIdleIsEmpty(slots: seq<GapSlot>, rows: seq<set<nat>>)
    requires Exact(slots, rows) && Placed(slots) && Quiet(slots, rows)
    requires forall i :: 0 <= i < |slots| ==> slots[i].status != Running
    ensures forall i :: 0 <= i < |slots| ==> slots[i].status == Empty
  {
    forall i | 0 <= i < |slots|
      ensures slots[i].status == Empty
    {
      if Live(slots[i]) {
        QuietWaits(slots, rows, i);
        var r := WaitsFindsRunning(slots, i);
        assert false;
      }
    }
  }

  // ---- The buffer ---------------------------------------------------------------------------------

  class GapReorderBuffer {
    const depth: nat
    const slots: array<GapSlot>
    const blockedBy: array<set<nat>>

    ghost predicate Valid()
      reads this, slots, blockedBy
    {
      && depth >= 1 && slots.Length == depth && blockedBy.Length == depth
      && Placed(slots[..]) && Exact(slots[..], blockedBy[..])
    }

    constructor (depth: nat)
      requires depth >= 1
      ensures Valid() && this.depth == depth && fresh(slots) && fresh(blockedBy)
      ensures forall i :: 0 <= i < depth ==> slots[i] == GapSlot(0, {}, Empty, 0)
    {
      this.depth := depth;
      slots := new GapSlot[depth](_ => GapSlot(0, {}, Empty, 0));
      blockedBy := new set<nat>[depth](_ => {});
      new;
      assert forall i :: 0 <= i < depth ==> ExactRow(slots[..], blockedBy[..][i], i);
    }

    /** Reserves the slot and records what it must wait for. */
    method Acquire(sequence: nat, mask: TagMask)
      requires Valid()
      requires slots[sequence % depth].status == Empty
      requires forall i :: 0 <= i < depth && Live(slots[i]) ==> slots[i].sequence < sequence
      modifies slots, blockedBy
      ensures Valid()
      ensures slots[..] == old(slots[..])[sequence % depth := GapSlot(sequence, mask, Pending, 0)]
    {
      var idx := sequence % depth;
      ghost var before, rows := slots[..], blockedBy[..];
      slots[idx] := GapSlot(sequence, mask, Pending, 0);
      blockedBy[idx] := {};
      for i := 0 to depth
        invariant slots[..] == before[idx := GapSlot(sequence, mask, Pending, 0)]
        invariant forall j: nat :: j in blockedBy[idx] <==>
          j < i && j != idx && Live(before[j]) && before[j].mask * mask != {}
        invariant forall k :: 0 <= k < depth && k != idx ==> blockedBy[k] == rows[k]
      {
        if i == idx { continue; }
        var other := slots[i];
        if other.status == Empty || other.status == Committed { continue; }
        if other.mask * mask != {} {
          blockedBy[idx] := blockedBy[idx] + {i};
        }
      }
      AcquireKeepsExact(before, rows, idx, GapSlot(sequence, mask, Pending, 0), blockedBy[idx]);
      assert blockedBy[..] == rows[idx := blockedBy[idx]];
    }

    /** The admission test: blocked iff a live, earlier, conflicting slot remains. */
    method Blocked(sequence: nat) returns (b: bool)
      requires Valid()
      ensures b <==> exists j: nat :: j < depth && Blocks(slots[..], j, sequence % depth)
      ensures b <==> blockedBy[sequence % depth] != {}
    {
      b := blockedBy[sequence % depth] != {};
      assert ExactRow(slots[..], blockedBy[..][sequence % depth], sequence % depth);
      if b {
        ghost var j :| j in blockedBy[sequence % depth];
        assert Blocks(slots[..], j, sequence % depth);
      }
    }

    method MarkRunning(sequence: nat)
      requires Valid() && Live(slots[sequence % depth])
      modifies slots
      ensures Valid()
      ensures slots[..] == old(slots[..])[sequence % depth := old(slots[sequence % depth]).(status := Running)]
    {
      var idx := sequence % depth;
      RestatusKeepsExact(slots[..], blockedBy[..], idx, slots[idx].(status := Running));
      slots[idx] := slots[idx].(status := Running);
    }

    /** The handler's work is over; true when nothing holds the commit back. */
    method Finish(sequence: nat, result: nat) returns (free: bool)
      requires Valid() && Live(slots[sequence % depth])
      modifies slots
      ensures Valid()
      ensures slots[..] == old(slots[..])[sequence % depth :=
        old(slots[sequence % depth]).(status := Complete, result := result)]
      ensures free <==> blockedBy[sequence % depth] == {}
    {
      var idx := sequence % depth;
      RestatusKeepsExact(slots[..], blockedBy[..], idx, slots[idx].(status := Complete, result := result));
      slots[idx] := slots[idx].(result := result);
      slots[idx] := slots[idx].(status := Complete);
      free := blockedBy[idx] == {};
    }

    /** Hands a slot back uncommitted, and clears its bit from every later arrival already blocked by it. */
    method Abandon(sequence: nat)
      requires Valid()
      modifies slots, blockedBy
      ensures Valid()
      ensures slots[..] == old(slots[..])[sequence % depth := old(slots[sequence % depth]).(status := Empty)]
      ensures forall k :: 0 <= k < depth ==>
        blockedBy[k] == if k == sequence % depth then {} else old(blockedBy[k]) - {sequence % depth}
    {
      var idx := sequence % depth;
      ghost var before, rows := slots[..], blockedBy[..];
      slots[idx] := slots[idx].(status := Empty);
      blockedBy[idx] := {};
      for j := 0 to depth
        invariant slots[..] == before[idx := before[idx].(status := Empty)]
        invariant blockedBy[idx] == {}
        invariant forall k :: 0 <= k < depth && k != idx ==>
          blockedBy[k] == if k < j then rows[k] - {idx} else rows[k]
      {
        blockedBy[j] := blockedBy[j] - {idx};
      }
      RetireKeepsExact(before, rows, idx, blockedBy[..], before[idx].(status := Empty));
    }

    /** The commit half of `service`, up to the emit: releases every dependent and marks the slot
        Committed. `Vacate` is the statement after the emit. */
    method Release(i: nat)
      requires Valid() && i < depth && blockedBy[i] == {}
      modifies slots, blockedBy
      ensures slots[..] == old(slots[..])[i := old(slots[i]).(status := Committed)]
      ensures Exact(slots[..], blockedBy[..])
      ensures forall k :: 0 <= k < depth ==> blockedBy[k] == old(blockedBy[k]) - {i}
    {
      ghost var before, rows := slots[..], blockedBy[..];
      for j := 0 to depth
        invariant slots[..] == before
        invariant forall k :: 0 <= k < depth ==> blockedBy[k] == if k < j then rows[k] - {i} else rows[k]
      {
        if j != i { blockedBy[j] := blockedBy[j] - {i}; }
      }
      slots[i] := slots[i].(status := Committed);
      RetireKeepsExact(before, rows, i, blockedBy[..], before[i].(status := Committed));
    }

    method Vacate(i: nat)
      requires depth >= 1 && slots.Length == depth && blockedBy.Length == depth && i < depth
      requires slots[i].status == Committed && Exact(slots[..], blockedBy[..])
      requires Placed(slots[..][i := slots[i].(status := Empty)])
      modifies slots
      ensures Valid()
      ensures slots[..] == old(slots[..])[i := old(slots[i]).(status := Empty)]
    {
      ghost var before := slots[..];
      slots[i] := slots[i].(status := Empty);
      assert slots[..] == before[i := before[i].(status := Empty)];
      assert before[i := before[i].(status := Empty)] == slots[..];
      forall k, j: nat | 0 <= k < depth
        ensures j in blockedBy[..][k] <==> j < depth && Blocks(slots[..], j, k)
      {
        assert ExactRow(before, blockedBy[..][k], k);
      }
    }
  }
}
