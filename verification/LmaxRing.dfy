/** The multi-producer, single-consumer ring (core/LMAXSequentialSharedPage.h:189-278, 427-479).

    Each producer is inside `write` at a program counter, the consumer inside its read-and-consume cycle
    at another, and one atomic load, store or compare-exchange of one of them is one step.

    Modelling choices.
    - Steps are sequentially consistent; acquire/release reordering is out of scope.
    - The cursor value UINT64_MAX is -1, and sequence numbers are unbounded. The one wrap-around that
      matters is kept: `seq - consumer` on a stale `seq` is a huge unsigned number, so the write is refused.
    - A slot index is the sequence number modulo the slot count (a power of two in the source, where the
      mask computes exactly that).
    - The `ready` load and the `sequence` load of one observation are two steps, as they are in the code.
      `Straddles` says exactly when splitting them does harm. */
module LmaxRing {

  datatype Frame<P> = Frame(ready: bool, sequence: nat, payload: P)

  /** A producer's place inside `write` and `tryAdvancePublisher`. */
  datatype Pc<P> =
    | Idle
    | Entered(payload: P)                  // about to load sequence_
    | Loaded(payload: P, seq_: nat)        // about to load consumer_cursor_ and test for room
    | Trying(payload: P, seq_: nat)        // about to compare-exchange sequence_
    | Claimed(payload: P, seq_: nat)       // about to clear the ready flag
    | Cleared(payload: P, seq_: nat)       // about to stamp the sequence
    | Stamped(payload: P, seq_: nat)       // about to copy the payload
    | Filled(payload: P, seq_: nat)        // about to set the ready flag
    | Stored(seq_: nat)                    // about to load the cursor for the fast path
    | Fast(cur: int)                       // fast path: about to load ready of cur + 1
    | FastSaw(cur: int)                    // fast path: flag seen, about to load its sequence
    | Walk                                 // head of the sweep loop
    | Look(cur: int)                       // about to load ready of cur + 1
    | Saw(cur: int)                        // flag seen, about to load its sequence
    | Bump(cur: int)                       // about to compare-exchange the cursor

  /** The consumer's place between two reads. */
  datatype Cpc = Waiting | Checked | Holding | Copied | Retired

  /** `written` records the payloads in claim order and `delivered` what the consumer copied out. */
  datatype Ring<P> = Ring(n: nat, claimed: nat, pub: int, cons: nat, frames: seq<Frame<P>>,
                          pcs: seq<Pc<P>>, cpc: Cpc, written: seq<P>, delivered: seq<P>)

  predicate Shape<P>(r: Ring<P>) {
    r.n >= 1 && |r.frames| == r.n && |r.written| == r.claimed && -1 <= r.pub
  }

  function At<P>(r: Ring<P>, k: nat): Frame<P>
    requires Shape(r)
  {
    r.frames[k % r.n]
  }

  function SetPc<P>(r: Ring<P>, p: nat, pc: Pc<P>): Ring<P>
    requires p < |r.pcs|
  {
    r.(pcs := r.pcs[p := pc])
  }

  function SetFrame<P>(r: Ring<P>, k: nat, f: Frame<P>): Ring<P>
    requires Shape(r)
  {
    r.(frames := r.frames[k % r.n := f])
  }

  // ---- The steps, as the code takes them ---------------------------------------------------------

  /** `seq - consumer >= slot_count` on unsigned operands. */
  predicate Refused(n: nat, seq_: nat, consumer: nat) {
    seq_ < consumer || seq_ - consumer >= n
  }

  ghost predicate ProducerStep<P>(r: Ring<P>, p: nat, r': Ring<P>)
    requires Shape(r) && p < |r.pcs|
  {
    match r.pcs[p]
    case Idle => |r'.pcs| == |r.pcs| && r'.pcs[p].Entered? && r' == SetPc(r, p, r'.pcs[p])
    case Entered(x) => r' == SetPc(r, p, Loaded(x, r.claimed))
    case Loaded(x, k) => r' == SetPc(r, p, if Refused(r.n, k, r.cons) then Idle else Trying(x, k))
    case Trying(x, k) =>
      || (r.claimed == k && r' == SetPc(r, p, Claimed(x, k)).(claimed := k + 1, written := r.written + [x]))
      || r' == SetPc(r, p, Entered(x))
    case Claimed(x, k) => r' == SetPc(SetFrame(r, k, At(r, k).(ready := false)), p, Cleared(x, k))
    case Cleared(x, k) => r' == SetPc(SetFrame(r, k, At(r, k).(sequence := k)), p, Stamped(x, k))
    case Stamped(x, k) => r' == SetPc(SetFrame(r, k, At(r, k).(payload := x)), p, Filled(x, k))
    case Filled(x, k) => r' == SetPc(SetFrame(r, k, At(r, k).(ready := true)), p, Stored(k))
    case Stored(k) => r' == SetPc(r, p, if r.pub != k && r.pub + 1 != k then Fast(r.pub) else Walk)
    case Fast(cur) => cur >= -1 && r' == SetPc(r, p, if At(r, cur + 1).ready then FastSaw(cur) else Idle)
    case FastSaw(cur) => cur >= -1 && r' == SetPc(r, p, if At(r, cur + 1).sequence == cur + 1 then Walk else Idle)
    case Walk => r' == SetPc(r, p, Look(r.pub))
    case Look(cur) => cur >= -1 && r' == SetPc(r, p, if At(r, cur + 1).ready then Saw(cur) else Idle)
    case Saw(cur) => cur >= -1 && r' == SetPc(r, p, if At(r, cur + 1).sequence == cur + 1 then Bump(cur) else Idle)
    case Bump(cur) =>
      || (r.pub == cur && r' == SetPc(r, p, Walk).(pub := cur + 1))
      || r' == SetPc(r, p, Walk)
  }

  /** The consumer expects the sequence its own cursor stands at (acquireRead, the copy, markConsumed). */
  ghost predicate ConsumerStep<P>(r: Ring<P>, r': Ring<P>)
    requires Shape(r)
  {
    match r.cpc
    case Waiting => r' == r.(cpc := if r.pub >= r.cons then Checked else Waiting)
    case Checked => r' == r.(cpc := if At(r, r.cons).sequence == r.cons then Holding else Waiting)
    case Holding => r' == r.(cpc := Copied, delivered := r.delivered + [At(r, r.cons).payload])
    case Copied => r' == SetFrame(r, r.cons, At(r, r.cons).(ready := false)).(cpc := Retired)
    case Retired => r' == r.(cons := r.cons + 1, cpc := Waiting)
  }

  /** Every slot holds a published frame nobody has consumed. */
  predicate Brimful<P>(r: Ring<P>) {
    r.pub + 1 == r.cons + r.n
  }

  /** Both loads of an observation at once. */
  ghost predicate PairedLook<P>(r: Ring<P>, p: nat, r': Ring<P>)
    requires Shape(r) && p < |r.pcs|
  {
    r.pcs[p].Look? && r.pcs[p].cur >= -1 &&
    var cur := r.pcs[p].cur;
    r' == SetPc(r, p, if At(r, cur + 1).ready && At(r, cur + 1).sequence == cur + 1 then Bump(cur) else Idle)
  }

  /** The look at the next frame is about to find a flag that is a lap old: the ring is brimful and its
      head still flagged, and there is another producer to claim the slot before the second load. */
  predicate Straddles<P>(r: Ring<P>, p: nat)
    requires p < |r.pcs|
  {
    r.pcs[p] == Look(r.pub) && Brimful(r) && r.cpc != Retired && |r.pcs| >= 2
  }

  ghost predicate CalmProducerStep<P>(r: Ring<P>, p: nat, r': Ring<P>)
    requires Shape(r) && p < |r.pcs|
  {
    PairedLook(r, p, r') || (ProducerStep(r, p, r') && !Straddles(r, p))
  }

  ghost predicate CalmStep<P>(r: Ring<P>, r': Ring<P>)
    requires Shape(r)
  {
    ConsumerStep(r, r') || exists p: nat :: p < |r.pcs| && CalmProducerStep(r, p, r')
  }

  ghost predicate Initial<P>(r: Ring<P>) {
    && Shape(r) && r.claimed == 0 && r.pub == -1 && r.cons == 0 && r.cpc == Waiting
    && r.written == [] && r.delivered == []
    && (forall i :: 0 <= i < r.n ==> !r.frames[i].ready)
    && (forall p :: 0 <= p < |r.pcs| ==> r.pcs[p] == Idle)
  }

  // ---- The invariant ------------------------------------------------------------------------------

  predicate Writer<P>(pc: Pc<P>) {
    pc.Claimed? || pc.Cleared? || pc.Stamped? || pc.Filled?
  }

  ghost predicate Writing<P>(pc: Pc<P>, k: nat) {
    Writer(pc) && pc.seq_ == k
  }

  /** Frame k carries exactly what its claimant wrote. */
  ghost predicate Carries<P>(r: Ring<P>, k: nat)
    requires Shape(r)
  {
    k < r.claimed && At(r, k).sequence == k && At(r, k).payload == r.written[k]
  }

  ghost predicate Full<P>(r: Ring<P>, k: nat)
    requires Shape(r)
  {
    Carries(r, k) && At(r, k).ready
  }

  ghost predicate Cursors<P>(r: Ring<P>) {
    r.cons <= r.pub + 1 <= r.claimed <= r.cons + r.n
  }

  ghost predicate ConsumerOk<P>(r: Ring<P>)
    requires Shape(r)
  {
    && (r.cpc != Waiting ==> r.cons <= r.pub)
    && (r.cpc == Retired ==> !At(r, r.cons).ready)
    && (if r.cpc == Copied || r.cpc == Retired
        then r.cons < r.claimed && r.delivered == r.written[..r.cons + 1]
        else r.cons <= r.claimed && r.delivered == r.written[..r.cons])
  }

  /** Published, unconsumed frames are intact. */
  ghost predicate PublishedIntact<P>(r: Ring<P>)
    requires Shape(r)
  {
    forall k: nat :: r.cons <= k <= r.pub ==> Carries(r, k) && (At(r, k).ready || (k == r.cons && r.cpc == Retired))
  }

  /** Claimed, unpublished frames are full or in their one claimant's hands. */
  ghost predicate ClaimedInHand<P>(r: Ring<P>)
    requires Shape(r)
  {
    forall k: nat :: r.pub < k < r.claimed ==> InHand(r, k)
  }

  ghost predicate InHand<P>(r: Ring<P>, k: nat)
    requires Shape(r)
  {
    Full(r, k) || exists p :: 0 <= p < |r.pcs| && Writing(r.pcs[p], k)
  }

  ghost predicate FreeUnready<P>(r: Ring<P>)
    requires Shape(r)
  {
    forall k: nat :: r.claimed <= k < r.cons + r.n ==> !At(r, k).ready
  }

  /** What a producer's program counter promises. */
  ghost predicate PcOk<P>(r: Ring<P>, pc: Pc<P>)
    requires Shape(r)
  {
    match pc
    case Loaded(_, k) => k <= r.claimed
    case Trying(_, k) => k < r.cons + r.n
    case Claimed(x, k) => r.pub < k < r.claimed && r.written[k] == x && !At(r, k).ready
    case Cleared(x, k) => r.pub < k < r.claimed && r.written[k] == x && !At(r, k).ready
    case Stamped(x, k) => r.pub < k < r.claimed && r.written[k] == x && !At(r, k).ready && At(r, k).sequence == k
    case Filled(x, k) => r.pub < k < r.claimed && r.written[k] == x && !At(r, k).ready && At(r, k).sequence == k
                         && At(r, k).payload == x
    case Fast(cur) => -1 <= cur <= r.pub
    case FastSaw(cur) => -1 <= cur <= r.pub
    case Look(cur) => -1 <= cur <= r.pub
    case Saw(cur) => -1 <= cur <= r.pub && (cur == r.pub ==> Full(r, cur + 1) || AloneAtTheEnd(r))
    case Bump(cur) => -1 <= cur <= r.pub && (cur == r.pub ==> Full(r, cur + 1))
    case _ => true
  }

  /** The one producer of the ring has seen an old flag where nothing is claimed: it will not match. */
  ghost predicate AloneAtTheEnd<P>(r: Ring<P>)
    requires Shape(r)
  {
    |r.pcs| == 1 && r.claimed == r.pub + 1 && At(r, r.pub + 1).sequence != r.pub + 1
  }

  ghost predicate PcsOk<P>(r: Ring<P>)
    requires Shape(r)
  {
    forall p :: 0 <= p < |r.pcs| ==> PcOk(r, r.pcs[p])
  }

  ghost predicate OneClaimant<P>(r: Ring<P>) {
    forall p, q :: 0 <= p < q < |r.pcs| && Writer(r.pcs[p]) && Writer(r.pcs[q]) ==> r.pcs[p].seq_ != r.pcs[q].seq_
  }

  /** This producer will still examine the frame behind the cursor. */
  predicate Responsible<P>(r: Ring<P>, pc: Pc<P>) {
    match pc
    case Stored(_) => true
    case Walk => true
    case Bump(_) => true
    case Fast(cur) => cur == r.pub
    case FastSaw(cur) => cur == r.pub
    case Look(cur) => cur == r.pub
    case Saw(cur) => cur == r.pub
    case _ => false
  }

  /** Whenever the next frame is ready to be published, somebody is on it. */
  ghost predicate Attended<P>(r: Ring<P>)
    requires Shape(r)
  {
    Full(r, r.pub + 1) ==> exists p :: 0 <= p < |r.pcs| && Responsible(r, r.pcs[p])
  }

  ghost predicate Inv<P>(r: Ring<P>) {
    && Shape(r) && Cursors(r) && ConsumerOk(r)
    && PublishedIntact(r) && ClaimedInHand(r) && FreeUnready(r)
    && PcsOk(r) && OneClaimant(r) && Attended(r)
  }

  // ---- Preservation -------------------------------------------------------------------------------

  lemma InitialInv<P>(r: Ring<P>)
    requires Initial(r)
    ensures Inv(r)
  {}

  /** Two different sequences less than a lap apart have different slots. */
  lemma DifferentSlots(j: nat, k: nat, n: nat)
    requires n >= 1 && j < k < j + n
    ensures j % n != k % n
  {
    var q, s := j / n, k / n;
    assert j == n * q + j % n && k == n * s + k % n;
    if j % n == k % n {
      assert k - j == n * (s - q);
      if s - q >= 1 { AtLeast(n, s - q); } else { AtMost(n, s - q); }
    }
  }

  lemma AtLeast(n: int, d: int)
    requires n >= 0 && d >= 1
    ensures n * d >= n
  {}

  lemma AtMost(n: int, d: int)
    requires n >= 0 && d <= 0
    ensures n * d <= 0
  {}

  /** A lap later is the same slot. */
  lemma SameSlot(k: nat, n: nat)
    requires n >= 1
    ensures (k + n) % n == k % n
  {
    var q := k / n;
    assert k == n * q + k % n;
    assert k + n == n * (q + 1) + k % n;
    Unique(k + n, n, q + 1, k % n);
  }

  lemma Unique(a: nat, n: nat, q: nat, m: nat)
    requires n >= 1 && a == n * q + m && m < n
    ensures a % n == m
  {
    var d := a / n - q;
    assert a == n * (a / n) + a % n;
    assert n * d == m - a % n;
    if d >= 1 { AtLeast(n, d); } else if d <= -1 { AtLeast(n, -d); assert n * -d == -(n * d); }
  }

  /** Writing one claimed, unpublished frame leaves every other frame of the lap alone. */
  lemma OtherFrames<P>(r: Ring<P>, k: nat, f: Frame<P>)
    requires Shape(r) && r.cons <= k < r.cons + r.n
    ensures forall j: nat :: r.cons <= j < r.cons + r.n && j != k ==> At(SetFrame(r, k, f), j) == At(r, j)
    ensures At(SetFrame(r, k, f), k) == f
  {
    forall j: nat | r.cons <= j < r.cons + r.n && j != k
      ensures At(SetFrame(r, k, f), j) == At(r, j)
    {
      if j < k { DifferentSlots(j, k, r.n); } else { DifferentSlots(k, j, r.n); }
    }
  }

  lemma PcsAfterMove<P>(r: Ring<P>, p: nat, pc: Pc<P>)
    requires Shape(r) && PcsOk(r) && p < |r.pcs| && PcOk(r, pc)
    ensures PcsOk(SetPc(r, p, pc))
  {
    var r' := SetPc(r, p, pc);
    forall q | 0 <= q < |r'.pcs|
      ensures PcOk(r', r'.pcs[q])
    {
      assert q != p ==> PcOk(r, r.pcs[q]);
    }
  }

  lemma HandsAfterMove<P>(r: Ring<P>, p: nat, pc: Pc<P>)
    requires Shape(r) && ClaimedInHand(r) && p < |r.pcs| && !Writer(r.pcs[p])
    ensures ClaimedInHand(SetPc(r, p, pc))
  {
    var r' := SetPc(r, p, pc);
    forall k: nat | r'.pub < k < r'.claimed
      ensures InHand(r', k)
    {
      assert InHand(r, k);
      if !Full(r, k) {
        var q :| 0 <= q < |r.pcs| && Writing(r.pcs[q], k);
        assert Writing(r'.pcs[q], k);
      }
    }
  }

  lemma AttendedAfterMove<P>(r: Ring<P>, p: nat, pc: Pc<P>)
    requires Shape(r) && Attended(r) && p < |r.pcs|
    requires Full(r, r.pub + 1) && Responsible(r, r.pcs[p]) ==> Responsible(r, pc)
    ensures Attended(SetPc(r, p, pc))
  {
    var r' := SetPc(r, p, pc);
    if Full(r, r.pub + 1) {
      var q :| 0 <= q < |r.pcs| && Responsible(r, r.pcs[q]);
      assert Responsible(r', r'.pcs[q]);
    }
  }

  /** Moving one program counter, nothing else, to a place that promises no less. */
  lemma MovePc<P>(r: Ring<P>, p: nat, pc: Pc<P>)
    requires Inv(r) && p < |r.pcs| && !Writer(r.pcs[p]) && !Writer(pc)
    requires PcOk(r, pc)
    requires Full(r, r.pub + 1) && Responsible(r, r.pcs[p]) ==> Responsible(r, pc)
    ensures Inv(SetPc(r, p, pc))
  {
    PcsAfterMove(r, p, pc);
    HandsAfterMove(r, p, pc);
    AttendedAfterMove(r, p, pc);
    assert forall k: nat :: At(SetPc(r, p, pc), k) == At(r, k);
  }

  /** On a ring that is not brimful, a ready flag behind the cursor is the next frame's own. */
  lemma ReadyNextIsFull<P>(r: Ring<P>)
    requires Shape(r) && Cursors(r) && ClaimedInHand(r) && FreeUnready(r) && PcsOk(r)
    requires !Brimful(r) && At(r, r.pub + 1).ready
    ensures Full(r, r.pub + 1)
  {
    var k: nat := r.pub + 1;
    assert forall p :: 0 <= p < |r.pcs| && Writing(r.pcs[p], k) ==> PcOk(r, r.pcs[p]);
    assert k < r.claimed ==> InHand(r, k);
  }

  /** Every step that only reads shared state and moves its own program counter. */
  lemma ReadSteps<P>(r: Ring<P>, p: nat, pc': Pc<P>)
    requires Inv(r) && p < |r.pcs| && CalmProducerStep(r, p, SetPc(r, p, pc'))
    requires !Writer(r.pcs[p]) && !Writer(pc')
    ensures Inv(SetPc(r, p, pc'))
  {
    var pc := r.pcs[p];
    assert PcOk(r, pc);
    assert SetPc(r, p, pc').pcs[p] == pc';
    LookIsSound(r);
    assert PcOk(r, pc') && (Full(r, r.pub + 1) && Responsible(r, pc) ==> Responsible(r, pc')) by {
      hide PcsOk, Attended, ClaimedInHand, FreeUnready, PublishedIntact, OneClaimant;
    }
    MovePc(r, p, pc');
  }

  /** What a flag behind the cursor can mean. */
  lemma LookIsSound<P>(r: Ring<P>)
    requires Inv(r)
    ensures At(r, r.pub + 1).ready && !Full(r, r.pub + 1) ==>
      Brimful(r) && r.cpc != Retired && r.claimed == r.pub + 1 && At(r, r.pub + 1).sequence != r.pub + 1
  {
    if Brimful(r) {
      SameSlot(r.cons, r.n);
      assert Carries(r, r.cons);
    } else if At(r, r.pub + 1).ready {
      ReadyNextIsFull(r);
    }
  }

  ghost function Claim<P>(r: Ring<P>, p: nat, x: P): Ring<P>
    requires p < |r.pcs|
  {
    SetPc(r, p, Claimed(x, r.claimed)).(claimed := r.claimed + 1, written := r.written + [x])
  }

  lemma ClaimKeepsFrames<P>(r: Ring<P>, p: nat, x: P)
    requires Inv(r) && p < |r.pcs| && r.claimed < r.cons + r.n
    ensures var r' := Claim(r, p, x);
      Shape(r') && Cursors(r') && ConsumerOk(r') && PublishedIntact(r') && FreeUnready(r')
  {
    var r' := Claim(r, p, x);
    assert forall k: nat :: At(r', k) == At(r, k);
    assert r'.written[..r.claimed] == r.written;
    forall k: nat | r.cons <= k <= r.pub
      ensures Carries(r', k) && (At(r', k).ready || (k == r'.cons && r'.cpc == Retired))
    {
      assert Carries(r, k);
    }
    assert r'.cons + 1 <= r.claimed ==> r'.written[..r.cons + 1] == r.written[..r.cons + 1];
    assert r'.written[..r.cons] == r.written[..r.cons];
  }

  lemma ClaimKeepsHands<P>(r: Ring<P>, p: nat, x: P)
    requires Shape(r) && ClaimedInHand(r) && p < |r.pcs| && !Writer(r.pcs[p])
    ensures ClaimedInHand(Claim(r, p, x))
  {
    var r' := Claim(r, p, x);
    assert Writing(r'.pcs[p], r.claimed);
    forall k: nat | r'.pub < k < r'.claimed
      ensures InHand(r', k)
    {
      if k < r.claimed {
        assert InHand(r, k) && r'.written[k] == r.written[k];
        if !Full(r, k) {
          var q :| 0 <= q < |r.pcs| && Writing(r.pcs[q], k);
          assert Writing(r'.pcs[q], k);
        }
      }
    }
  }

  lemma ClaimKeepsPcs<P>(r: Ring<P>, p: nat, x: P)
    requires Shape(r) && Cursors(r) && PcsOk(r) && FreeUnready(r) && p < |r.pcs| && r.claimed < r.cons + r.n
    ensures PcsOk(Claim(r, p, x))
  {
    var r' := Claim(r, p, x);
    assert forall j: nat :: j < r.claimed ==> r'.written[j] == r.written[j];
    assert !At(r, r.claimed).ready && At(r', r.claimed) == At(r, r.claimed);
    assert PcOk(r', r'.pcs[p]);
    forall q | 0 <= q < |r'.pcs| && q != p
      ensures PcOk(r', r'.pcs[q])
    {
      assert PcOk(r, r.pcs[q]);
      ClaimKeepsOther(r, p, x, q);
    }
    hide PcOk, Claim;
  }

  lemma ClaimKeepsOther<P>(r: Ring<P>, p: nat, x: P, q: nat)
    requires Shape(r) && Cursors(r) && p < |r.pcs| && q < |r.pcs| && q != p && PcOk(r, r.pcs[q])
    ensures PcOk(Claim(r, p, x), r.pcs[q])
  {
    var r' := Claim(r, p, x);
    assert forall j: nat :: j < r.claimed ==> r'.written[j] == r.written[j];
    assert r'.frames == r.frames && |r.pcs| > 1;
  }

  lemma ClaimKeepsAttended<P>(r: Ring<P>, p: nat, x: P)
    requires Shape(r) && Cursors(r) && Attended(r) && FreeUnready(r) && p < |r.pcs| && r.claimed < r.cons + r.n
    requires !Responsible(r, r.pcs[p])
    ensures Attended(Claim(r, p, x))
  {
    var r' := Claim(r, p, x);
    assert !At(r, r.claimed).ready;
    if Full(r', r'.pub + 1) {
      assert r'.written[r.pub + 1] == r.written[r.pub + 1];
      assert Full(r, r.pub + 1);
      var q :| 0 <= q < |r.pcs| && Responsible(r, r.pcs[q]);
      assert Responsible(r', r'.pcs[q]);
    }
  }

  lemma ClaimKeepsOne<P>(r: Ring<P>, p: nat, x: P)
    requires Shape(r) && PcsOk(r) && OneClaimant(r) && p < |r.pcs|
    ensures OneClaimant(Claim(r, p, x))
  {
    var r' := Claim(r, p, x);
    assert forall q :: 0 <= q < |r.pcs| && Writer(r.pcs[q]) ==> PcOk(r, r.pcs[q]);
  }

  /** The claim: the compare-exchange on sequence_ succeeded. */
  lemma ClaimKeepsInv<P>(r: Ring<P>, p: nat)
    requires Inv(r) && p < |r.pcs| && r.pcs[p].Trying? && r.claimed == r.pcs[p].seq_
    ensures Inv(Claim(r, p, r.pcs[p].payload))
  {
    var x := r.pcs[p].payload;
    assert PcOk(r, r.pcs[p]);
    ClaimKeepsFrames(r, p, x);
    ClaimKeepsHands(r, p, x);
    ClaimKeepsPcs(r, p, x);
    ClaimKeepsOne(r, p, x);
    ClaimKeepsAttended(r, p, x);
  }

  /** The writer p stores f into its own frame and moves on to pc. */
  ghost function Fill<P>(r: Ring<P>, p: nat, f: Frame<P>, pc: Pc<P>): Ring<P>
    requires Shape(r) && p < |r.pcs| && Writer(r.pcs[p])
  {
    SetPc(SetFrame(r, r.pcs[p].seq_, f), p, pc)
  }

  ghost predicate MayFill<P>(r: Ring<P>, p: nat) {
    && Shape(r) && Cursors(r) && p < |r.pcs| && Writer(r.pcs[p]) && r.pub < r.pcs[p].seq_ < r.claimed
  }

  lemma FillLeavesOthers<P>(r: Ring<P>, p: nat, f: Frame<P>, pc: Pc<P>)
    requires MayFill(r, p)
    ensures var r' := Fill(r, p, f, pc);
      && (forall j: nat :: r.cons <= j < r.cons + r.n && j != r.pcs[p].seq_ ==> At(r', j) == At(r, j))
      && At(r', r.pcs[p].seq_) == f
  {
    OtherFrames(r, r.pcs[p].seq_, f);
  }

  lemma FillKeepsFrames<P>(r: Ring<P>, p: nat, f: Frame<P>, pc: Pc<P>)
    requires Inv(r) && MayFill(r, p)
    ensures var r' := Fill(r, p, f, pc);
      Shape(r') && Cursors(r') && ConsumerOk(r') && PublishedIntact(r') && FreeUnready(r')
  {
    var r' := Fill(r, p, f, pc);
    FillLeavesOthers(r, p, f, pc);
    forall k: nat | r.cons <= k <= r.pub
      ensures Carries(r', k) && (At(r', k).ready || (k == r'.cons && r'.cpc == Retired))
    {
      assert Carries(r, k);
    }
  }

  lemma FillKeepsHands<P>(r: Ring<P>, p: nat, f: Frame<P>, pc: Pc<P>)
    requires MayFill(r, p) && ClaimedInHand(r)
    requires var r' := Fill(r, p, f, pc); Writing(pc, r.pcs[p].seq_) || Full(r', r.pcs[p].seq_)
    ensures ClaimedInHand(Fill(r, p, f, pc))
  {
    var r' := Fill(r, p, f, pc);
    FillLeavesOthers(r, p, f, pc);
    forall j: nat | r'.pub < j < r'.claimed
      ensures InHand(r', j)
    {
      assert InHand(r, j) && r'.pcs[p] == pc;
      if j != r.pcs[p].seq_ && !Full(r, j) {
        var q :| 0 <= q < |r.pcs| && Writing(r.pcs[q], j);
        assert Writing(r'.pcs[q], j);
      }
    }
  }

  lemma FillKeepsPcs<P>(r: Ring<P>, p: nat, f: Frame<P>, pc: Pc<P>)
    requires MayFill(r, p) && PcsOk(r) && OneClaimant(r) && !At(r, r.pcs[p].seq_).ready
    requires PcOk(Fill(r, p, f, pc), pc)
    ensures PcsOk(Fill(r, p, f, pc))
  {
    var r' := Fill(r, p, f, pc);
    FillLeavesOthers(r, p, f, pc);
    forall q | 0 <= q < |r'.pcs|
      ensures PcOk(r', r'.pcs[q])
    {
      assert PcOk(r, r.pcs[q]);
      assert Writer(r.pcs[q]) && q != p ==> r.pcs[q].seq_ != r.pcs[p].seq_;
      assert Full(r, r.pub + 1) ==> At(r', r.pub + 1) == At(r, r.pub + 1);
    }
  }

  lemma FillKeepsAttended<P>(r: Ring<P>, p: nat, f: Frame<P>, pc: Pc<P>)
    requires MayFill(r, p) && Attended(r)
    requires f.ready ==> Responsible(Fill(r, p, f, pc), pc)
    ensures Attended(Fill(r, p, f, pc))
  {
    var r' := Fill(r, p, f, pc);
    FillLeavesOthers(r, p, f, pc);
    assert r'.pcs[p] == pc;
    if Full(r', r'.pub + 1) && !f.ready {
      assert Full(r, r.pub + 1);
      var q :| 0 <= q < |r.pcs| && Responsible(r, r.pcs[q]);
      assert Responsible(r', r'.pcs[q]);
    }
  }

  /** Clearing, stamping, copying and the release store of the ready flag. */
  lemma FillKeepsInv<P>(r: Ring<P>, p: nat, f: Frame<P>, pc: Pc<P>)
    requires Inv(r) && p < |r.pcs| && Writer(r.pcs[p])
    requires var r' := Fill(r, p, f, pc);
      PcOk(r', pc) && (Writing(pc, r.pcs[p].seq_) || (pc.Stored? && Full(r', r.pcs[p].seq_)))
    requires f.ready ==> pc.Stored?
    ensures Inv(Fill(r, p, f, pc))
  {
    assert PcOk(r, r.pcs[p]);
    FillKeepsFrames(r, p, f, pc);
    FillKeepsHands(r, p, f, pc);
    FillKeepsPcs(r, p, f, pc);
    FillKeepsAttended(r, p, f, pc);
  }

  lemma WriterStepKeepsInv<P>(r: Ring<P>, p: nat, r': Ring<P>)
    requires Inv(r) && p < |r.pcs| && Writer(r.pcs[p]) && ProducerStep(r, p, r')
    ensures Inv(r')
  {
    var pc := r.pcs[p];
    var k := pc.seq_;
    assert PcOk(r, pc);
    match pc {
      case Claimed(x, _) =>
        FillLeavesOthers(r, p, At(r, k).(ready := false), Cleared(x, k));
        FillKeepsInv(r, p, At(r, k).(ready := false), Cleared(x, k));
      case Cleared(x, _) =>
        FillLeavesOthers(r, p, At(r, k).(sequence := k), Stamped(x, k));
        FillKeepsInv(r, p, At(r, k).(sequence := k), Stamped(x, k));
      case Stamped(x, _) =>
        FillLeavesOthers(r, p, At(r, k).(payload := x), Filled(x, k));
        FillKeepsInv(r, p, At(r, k).(payload := x), Filled(x, k));
      case Filled(x, _) =>
        FillLeavesOthers(r, p, At(r, k).(ready := true), Stored(k));
        FillKeepsInv(r, p, At(r, k).(ready := true), Stored(k));
    }
  }

  /** Advancing the cursor over a full frame. */
  lemma BumpKeepsInv<P>(r: Ring<P>, p: nat)
    requires Inv(r) && p < |r.pcs| && r.pcs[p].Bump? && r.pcs[p].cur == r.pub
    ensures Inv(SetPc(r, p, Walk).(pub := r.pub + 1))
  {
    var r' := SetPc(r, p, Walk).(pub := r.pub + 1);
    var k: nat := r.pub + 1;
    assert PcOk(r, r.pcs[p]);
    assert Full(r, k);
    assert forall j: nat :: At(r', j) == At(r, j);
    forall q | 0 <= q < |r'.pcs|
      ensures PcOk(r', r'.pcs[q])
    {
      assert PcOk(r, r.pcs[q]);
      assert Writer(r.pcs[q]) ==> r.pcs[q].seq_ != k;
    }
    hide PcOk;
    HandsAfterMove(r, p, Walk);
    forall j: nat | r'.pub < j < r'.claimed
      ensures InHand(r', j)
    {
      assert InHand(SetPc(r, p, Walk), j);
    }
    assert Responsible(r', r'.pcs[p]);
  }

  lemma ProducerKeepsInv<P>(r: Ring<P>, p: nat, r': Ring<P>)
    requires Inv(r) && p < |r.pcs| && CalmProducerStep(r, p, r')
    ensures Inv(r')
  {
    hide PcsOk, Attended, ClaimedInHand, FreeUnready, PublishedIntact, OneClaimant, ConsumerOk;
    var pc := r.pcs[p];
    if Writer(pc) {
      WriterStepKeepsInv(r, p, r');
    } else if pc.Trying? && r' != SetPc(r, p, Entered(pc.payload)) {
      ClaimKeepsInv(r, p);
    } else if pc.Bump? && r' != SetPc(r, p, Walk) {
      BumpKeepsInv(r, p);
    } else {
      assert r' == SetPc(r, p, r'.pcs[p]);
      ReadSteps(r, p, r'.pcs[p]);
    }
  }

  lemma ConsumerFrames<P>(r: Ring<P>, r': Ring<P>)
    requires Shape(r) && r.cons < r.cons + r.n && ConsumerStep(r, r')
    ensures Shape(r') && forall k: nat :: r.cons < k < r.cons + r.n ==> At(r', k) == At(r, k)
    ensures r.cpc != Copied ==> r'.frames == r.frames
    ensures forall k: nat :: At(r', k).sequence == At(r, k).sequence
    ensures r.cpc == Copied ==> At(r', r.cons) == At(r, r.cons).(ready := false)
    ensures r.cpc == Retired ==> At(r', r.cons + r.n) == At(r, r.cons)
  {
    if r.cpc == Copied {
      OtherFrames(r, r.cons, At(r, r.cons).(ready := false));
    }
    SameSlot(r.cons, r.n);
  }

  lemma ConsumerKeepsFrames<P>(r: Ring<P>, r': Ring<P>)
    requires Inv(r) && ConsumerStep(r, r')
    ensures Shape(r') && Cursors(r') && ConsumerOk(r') && PublishedIntact(r') && FreeUnready(r')
  {
    hide PcsOk, Attended, ClaimedInHand, OneClaimant;
    ConsumerFrames(r, r');
    assert r.cpc != Waiting ==> Carries(r, r.cons);
    forall k: nat | r'.cons <= k <= r'.pub
      ensures Carries(r', k) && (At(r', k).ready || (k == r'.cons && r'.cpc == Retired))
    {
      assert Carries(r, k);
    }
    forall k: nat | r'.claimed <= k < r'.cons + r'.n
      ensures !At(r', k).ready
    {
      assert k < r.cons + r.n ==> !At(r, k).ready;
    }
    if r.cpc == Holding {
      assert r.written[..r.cons + 1] == r.written[..r.cons] + [r.written[r.cons]];
    }
  }

  lemma ConsumerKeepsPcs<P>(r: Ring<P>, r': Ring<P>)
    requires Shape(r) && Cursors(r) && ConsumerStep(r, r') && (r.cpc != Waiting ==> r.cons <= r.pub) && PcsOk(r)
    ensures Shape(r') && PcsOk(r')
  {
    ConsumerFrames(r, r');
    assert r'.pcs == r.pcs && r'.claimed == r.claimed && r'.pub == r.pub && r'.written == r.written && r'.cons >= r.cons;
    hide ConsumerStep, At;
    forall p | 0 <= p < |r'.pcs|
      ensures PcOk(r', r'.pcs[p])
    {
      assert PcOk(r, r.pcs[p]);
    }
  }

  lemma ConsumerKeepsHands<P>(r: Ring<P>, r': Ring<P>)
    requires Shape(r) && Cursors(r) && ConsumerStep(r, r') && (r.cpc != Waiting ==> r.cons <= r.pub) && ClaimedInHand(r)
    ensures Shape(r') && ClaimedInHand(r')
  {
    ConsumerFrames(r, r');
    assert r'.pcs == r.pcs && r'.claimed == r.claimed && r'.pub == r.pub && r'.written == r.written;
    hide ConsumerStep, At;
    forall k: nat | r'.pub < k < r'.claimed
      ensures InHand(r', k)
    {
      assert InHand(r, k);
      if !Full(r, k) {
        var q :| 0 <= q < |r.pcs| && Writing(r.pcs[q], k);
        assert Writing(r'.pcs[q], k);
      }
    }
  }

  lemma ConsumerKeepsAttended<P>(r: Ring<P>, r': Ring<P>)
    requires Shape(r) && Cursors(r) && ConsumerStep(r, r') && (r.cpc != Waiting ==> r.cons <= r.pub) && Attended(r)
    ensures Shape(r') && Attended(r')
  {
    ConsumerFrames(r, r');
    assert r'.pcs == r.pcs && r'.claimed == r.claimed && r'.pub == r.pub && r'.written == r.written;
    hide ConsumerStep, At;
    if Full(r', r'.pub + 1) {
      assert Full(r, r.pub + 1);
      var q :| 0 <= q < |r.pcs| && Responsible(r, r.pcs[q]);
      assert Responsible(r', r'.pcs[q]);
    }
  }

  /** The reader takes a frame exactly if it carries the sequence that its cursor stands at; and as long as the
      invariant holds, it always does. */
  lemma ReaderTakesIff<P>(r: Ring<P>, r': Ring<P>)
    requires Shape(r) && r.cpc == Checked && ConsumerStep(r, r')
    ensures r'.cpc == Holding <==> At(r, r.cons).sequence == r.cons
    ensures r'.cpc == Holding || r'.cpc == Waiting
    ensures Inv(r) ==> r'.cpc == Holding
  {
    if Inv(r) { assert r.cons <= r.pub; }
  }


  lemma ConsumerKeepsInv<P>(r: Ring<P>, r': Ring<P>)
    requires Inv(r) && ConsumerStep(r, r')
    ensures Inv(r')
  {
    ConsumerKeepsFrames(r, r');
    ConsumerKeepsPcs(r, r');
    ConsumerKeepsHands(r, r');
    ConsumerKeepsAttended(r, r');
    hide *;
  }

  // ---- What every calm run promises ---------------------------------------------------------------

  /** A run of the ring from its initial state in which no look straddles: every interleaving of any
      number of producers and the consumer, otherwise. */
  ghost predicate CalmRun<P>(rs: seq<Ring<P>>) {
    && |rs| > 0 && Initial(rs[0])
    && forall i :: 0 <= i < |rs| - 1 ==> Shape(rs[i]) && CalmStep(rs[i], rs[i + 1])
  }

  lemma CalmStepKeepsInv<P>(r: Ring<P>, r': Ring<P>)
    requires Inv(r) && CalmStep(r, r')
    ensures Inv(r')
  {
    hide CalmProducerStep, ConsumerStep, PcsOk, Attended, ClaimedInHand, FreeUnready, PublishedIntact, OneClaimant, ConsumerOk;
    if ConsumerStep(r, r') {
      ConsumerKeepsInv(r, r');
    } else {
      var p: nat :| p < |r.pcs| && CalmProducerStep(r, p, r');
      ProducerKeepsInv(r, p, r');
    }
  }

  lemma {:induction false} CalmRunsKeepInv<P>(rs: seq<Ring<P>>, i: nat)
    requires CalmRun(rs) && i < |rs|
    ensures Inv(rs[i])
  {
    hide Inv, CalmStep, Initial;
    if i == 0 {
      InitialInv(rs[0]);
    } else {
      CalmRunsKeepInv(rs, i - 1);
      assert Shape(rs[i - 1]) && CalmStep(rs[i - 1], rs[i - 1 + 1]);
      CalmStepKeepsInv(rs[i - 1], rs[i]);
    }
  }

  /** FIFO, exactly once: in every state of every calm run the cursors are in order and at most a lap
      apart, no published and unconsumed frame has been overwritten, and what the consumer has copied
      out is exactly what was written, in claim order, each once. */
  lemma FifoExactlyOnce<P>(rs: seq<Ring<P>>, i: nat)
    requires CalmRun(rs) && i < |rs|
    ensures var r := rs[i];
      && Shape(r) && r.cons <= r.pub + 1 <= r.claimed <= r.cons + r.n
      && (forall k: nat :: r.cons <= k <= r.pub ==> Carries(r, k))
      && |r.delivered| <= r.claimed && r.cons <= |r.delivered| <= r.cons + 1
      && r.delivered == r.written[..|r.delivered|]
  {
    CalmRunsKeepInv(rs, i);
  }

  predicate InsidePublish<P>(pc: Pc<P>) {
    !(pc.Idle? || pc.Entered? || pc.Loaded? || pc.Trying?)
  }

  /** NO LOST PUBLICATION: whenever no producer is past its claim inside `write`, everything claimed has
      been published -- despite the fast path that returns without advancing the cursor. */
  lemma NoLostPublication<P>(rs: seq<Ring<P>>, i: nat)
    requires CalmRun(rs) && i < |rs|
    requires forall p :: 0 <= p < |rs[i].pcs| ==> !InsidePublish(rs[i].pcs[p])
    ensures rs[i].pub + 1 == rs[i].claimed
  {
    CalmRunsKeepInv(rs, i);
    var r := rs[i];
    assert r.pub + 1 < r.claimed ==> InHand(r, r.pub + 1);
  }

  /** A write is refused exactly when the ring was full at the claim it read, or the claim it read has
      since been consumed -- in which case there may well be room, and the caller must try again. */
  lemma RefusalIsFullOrStale<P>(rs: seq<Ring<P>>, i: nat, p: nat)
    requires CalmRun(rs) && i < |rs| && p < |rs[i].pcs| && rs[i].pcs[p].Loaded?
    ensures var r, k := rs[i], rs[i].pcs[p].seq_;
      Refused(r.n, k, r.cons) <==> (k < r.cons || (k == r.claimed && r.claimed == r.cons + r.n))
  {
    CalmRunsKeepInv(rs, i);
    assert PcOk(rs[i], rs[i].pcs[p]);
  }

  // ---- Why the condition is exact -----------------------------------------------------------------

  /** THE EXACT CONDITION, step by step: what a producer does keeps the invariant if and only if it is
      not a look that straddles. */
  lemma ProducerKeepsInvIff<P>(r: Ring<P>, p: nat, r': Ring<P>)
    requires Inv(r) && p < |r.pcs| && ProducerStep(r, p, r')
    ensures Inv(r') <==> !Straddles(r, p)
  {
    if Straddles(r, p) {
      BrimfulFacts(r);
      assert r'.pcs[p] == Saw(r.pub) && !PcOk(r', r'.pcs[p]);
    } else {
      ProducerKeepsInv(r, p, r');
    }
  }

  /** A step of the code that is not a straddling look. */
  ghost predicate CodeStep<P>(r: Ring<P>, r': Ring<P>)
    requires Shape(r)
  {
    ConsumerStep(r, r') || exists p: nat :: p < |r.pcs| && ProducerStep(r, p, r') && !Straddles(r, p)
  }

  ghost predicate Steps<P>(rs: seq<Ring<P>>) {
    |rs| > 0 && forall i :: 0 <= i < |rs| - 1 ==> Shape(rs[i]) && CodeStep(rs[i], rs[i + 1])
  }

  /** By steps of the code alone, none of them a straddling look. */
  ghost predicate Reaches<P(!new)>(r: Ring<P>, t: Ring<P>) {
    exists rs: seq<Ring<P>> :: Steps(rs) && rs[0] == r && rs[|rs| - 1] == t
  }

  lemma ReachesItself<P(!new)>(r: Ring<P>)
    ensures Reaches(r, r)
  {
    assert Steps([r]);
  }

  lemma ReachStep<P(!new)>(r: Ring<P>, t: Ring<P>, u: Ring<P>)
    requires Reaches(r, t) && Shape(t) && CodeStep(t, u)
    ensures Reaches(r, u)
  {
    hide CodeStep;
    var rs :| Steps(rs) && rs[0] == r && rs[|rs| - 1] == t;
    var more := rs + [u];
    forall i | 0 <= i < |more| - 1
      ensures Shape(more[i]) && CodeStep(more[i], more[i + 1])
    {
      if i < |rs| - 1 { assert more[i] == rs[i] && more[i + 1] == rs[i + 1]; }
    }
    assert Steps(more) && more[0] == r && more[|more| - 1] == u;
  }

  lemma ReachProducer<P(!new)>(r: Ring<P>, t: Ring<P>, p: nat, u: Ring<P>)
    requires Reaches(r, t) && Shape(t) && p < |t.pcs| && ProducerStep(t, p, u) && !Straddles(t, p)
    ensures Reaches(r, u)
  {
    hide ProducerStep, Straddles;
    ReachStep(r, t, u);
  }

  /** The ring with its head handed to the consumer and flagged free, the cursor about to move. */
  ghost function HeadRetired<P>(r: Ring<P>): Ring<P>
    requires Shape(r)
  {
    SetFrame(r, r.cons, At(r, r.cons).(ready := false)).(cpc := Retired,
      delivered := r.delivered + if r.cpc == Copied then [] else [At(r, r.cons).payload])
  }

  /** The consumer retires the head of the ring from wherever it stands. */
  lemma RetireHead<P(!new)>(o: Ring<P>, r: Ring<P>)
    requires Reaches(o, r) && Shape(r) && r.cpc != Retired && r.cons <= r.pub && At(r, r.cons).sequence == r.cons
    ensures Reaches(o, HeadRetired(r))
  {
    hide Reaches;
    var r1 := if r.cpc == Waiting then r.(cpc := Checked) else r;
    if r.cpc == Waiting { ReachStep(o, r, r1); }
    var r2 := if r1.cpc == Checked then r1.(cpc := Holding) else r1;
    if r1.cpc == Checked { ReachStep(o, r1, r2); }
    var r3 := if r2.cpc == Holding then r2.(cpc := Copied, delivered := r.delivered + [At(r, r.cons).payload]) else r2;
    if r2.cpc == Holding { ReachStep(o, r2, r3); }
    assert r.delivered + [] == r.delivered;
    ReachStep(o, r3, HeadRetired(r));
  }

  /** An idle producer claims the next sequence and gets as far as stamping its frame. */
  lemma ClaimAndStamp<P(!new)>(o: Ring<P>, r: Ring<P>, q: nat, x: P)
    requires Reaches(o, r) && Shape(r) && q < |r.pcs| && r.pcs[q].Idle?
    requires r.cons <= r.claimed < r.cons + r.n
    ensures Reaches(o, SetPc(SetFrame(r, r.claimed, At(r, r.claimed).(ready := false, sequence := r.claimed)), q,
      Stamped(x, r.claimed)).(claimed := r.claimed + 1, written := r.written + [x]))
  {
    hide Reaches;
    var k := r.claimed;
    var r1 := SetPc(r, q, Entered(x));
    ReachProducer(o, r, q, r1);
    var r2 := SetPc(r1, q, Loaded(x, k));
    ReachProducer(o, r1, q, r2);
    var r3 := SetPc(r2, q, Trying(x, k));
    ReachProducer(o, r2, q, r3);
    var r4 := SetPc(r3, q, Claimed(x, k)).(claimed := k + 1, written := r.written + [x]);
    ReachProducer(o, r3, q, r4);
    StampClaimed(o, r4, q, x, k);
    var r5 := SetPc(SetFrame(r4, k, At(r4, k).(ready := false)), q, Cleared(x, k));
    assert SetPc(SetFrame(r5, k, At(r5, k).(sequence := k)), q, Stamped(x, k)) ==
      SetPc(SetFrame(r, k, At(r, k).(ready := false, sequence := k)), q, Stamped(x, k)).(
        claimed := k + 1, written := r.written + [x]);
  }

  lemma StampClaimed<P(!new)>(o: Ring<P>, r: Ring<P>, q: nat, x: P, k: nat)
    requires Reaches(o, r) && Shape(r) && q < |r.pcs| && r.pcs[q] == Claimed(x, k)
    ensures var r1 := SetPc(SetFrame(r, k, At(r, k).(ready := false)), q, Cleared(x, k));
      Reaches(o, SetPc(SetFrame(r1, k, At(r1, k).(sequence := k)), q, Stamped(x, k)))
  {
    hide Reaches;
    var r1 := SetPc(SetFrame(r, k, At(r, k).(ready := false)), q, Cleared(x, k));
    ReachProducer(o, r, q, r1);
    ReachProducer(o, r1, q, SetPc(SetFrame(r1, k, At(r1, k).(sequence := k)), q, Stamped(x, k)));
  }

  lemma BrimfulFacts<P>(r: Ring<P>)
    requires Inv(r) && Brimful(r)
    ensures Shape(r) && r.pub + 1 >= 0 && r.cons <= r.pub && r.claimed == r.pub + 1
    ensures (r.pub + 1) % r.n == r.cons % r.n
    ensures At(r, r.pub + 1) == At(r, r.cons) && At(r, r.cons).sequence == r.cons
    ensures r.cpc != Retired ==> At(r, r.cons).ready
  {
    SameSlot(r.cons, r.n);
    assert Carries(r, r.cons);
  }

  // ---- A second producer comes round to a claim ---------------------------------------------------

  /** The head of a brimful ring is retired and its cursor not yet moved: nothing is flagged or claimed
      behind the cursor, and a write is still refused. */
  ghost predicate AtTheEnd<P>(r: Ring<P>)
  {
    && Shape(r) && Brimful(r) && r.cpc == Retired && r.claimed == r.pub + 1 && r.cons <= r.pub
    && !At(r, r.pub + 1).ready && At(r, r.pub + 1).sequence != r.pub + 1
  }

  /** Not past its claim. */
  predicate MayReturn<P>(r: Ring<P>, pc: Pc<P>) {
    match pc
    case Loaded(_, k) => k <= r.claimed
    case Trying(_, k) => k < r.claimed
    case Fast(cur) => -1 <= cur <= r.pub
    case FastSaw(cur) => -1 <= cur <= r.pub
    case Look(cur) => -1 <= cur <= r.pub
    case Saw(cur) => -1 <= cur <= r.pub
    case Bump(cur) => -1 <= cur < r.pub
    case _ => !Writer(pc)
  }

  /** The next place on the way back to Idle. */
  function Onward<P>(r: Ring<P>, pc: Pc<P>): Pc<P>
    requires Shape(r) && MayReturn(r, pc)
  {
    match pc
    case Entered(x) => Loaded(x, r.claimed)
    case Loaded(x, k) => if Refused(r.n, k, r.cons) then Idle else Trying(x, k)
    case Trying(x, k) => Entered(x)
    case Stored(k) => if r.pub != k && r.pub + 1 != k then Fast(r.pub) else Walk
    case Fast(cur) => if At(r, cur + 1).ready then FastSaw(cur) else Idle
    case FastSaw(cur) => if At(r, cur + 1).sequence == cur + 1 then Walk else Idle
    case Walk => Look(r.pub)
    case Look(cur) => if At(r, cur + 1).ready then Saw(cur) else Idle
    case Saw(cur) => if At(r, cur + 1).sequence == cur + 1 then Bump(cur) else Idle
    case Bump(cur) => Walk
    case _ => Idle
  }

  function Away<P>(r: Ring<P>, pc: Pc<P>): nat {
    match pc
    case Idle => 0
    case Entered(_) => 2
    case Loaded(_, k) => if Refused(r.n, k, r.cons) then 1 else 4
    case Trying(_, _) => 3
    case Walk => 2
    case Look(cur) => if cur == r.pub then 1 else 5
    case Bump(_) => 3
    case Saw(_) => 4
    case FastSaw(_) => 3
    case Fast(_) => 4
    case _ => 5
  }

  lemma OnwardIsAStep<P(!new)>(r: Ring<P>, q: nat)
    requires AtTheEnd(r) && q < |r.pcs| && MayReturn(r, r.pcs[q]) && !r.pcs[q].Idle?
    ensures var pc := Onward(r, r.pcs[q]);
      ProducerStep(r, q, SetPc(r, q, pc)) && !Straddles(r, q) && MayReturn(r, pc) && Away(r, pc) < Away(r, r.pcs[q])
  {}

  lemma {:induction false} ComesRound<P(!new)>(o: Ring<P>, r: Ring<P>, q: nat)
    requires Reaches(o, r) && AtTheEnd(r) && q < |r.pcs| && MayReturn(r, r.pcs[q])
    ensures Reaches(o, SetPc(r, q, Idle))
    decreases Away(r, r.pcs[q])
  {
    hide Reaches, Onward, ProducerStep;
    if r.pcs[q].Idle? {
      assert SetPc(r, q, Idle) == r;
    } else {
      OnwardIsAStep(r, q);
      var r1 := SetPc(r, q, Onward(r, r.pcs[q]));
      ReachProducer(o, r, q, r1);
      assert forall k: nat :: At(r1, k) == At(r, k);
      ComesRound(o, r1, q);
      assert SetPc(r1, q, Idle) == SetPc(r, q, Idle);
    }
  }

  // ---- What a straddling look leads to ------------------------------------------------------------

  /** The look has seen the flag. */
  ghost function Lured<P>(r: Ring<P>, p: nat): Ring<P>
    requires p < |r.pcs|
  {
    SetPc(r, p, Saw(r.pub))
  }

  /** ... the head has been consumed, and the other producer is back at the start. */
  ghost function Lulled<P>(r: Ring<P>, p: nat, q: nat): Ring<P>
    requires Shape(r) && p < |r.pcs| && q < |r.pcs|
  {
    SetPc(HeadRetired(Lured(r, p)), q, Idle).(cons := r.cons + 1, cpc := Waiting)
  }

  /** ... it has claimed and stamped the slot, and the second load has matched. */
  ghost function Straddled<P>(r: Ring<P>, p: nat, q: nat, x: P): Ring<P>
    requires Shape(r) && p < |r.pcs| && q < |r.pcs|
  {
    var k: nat := r.pub + 1;
    SetFrame(Lulled(r, p, q), k, At(r, r.cons).(ready := false, sequence := k)).(
      pcs := r.pcs[p := Walk][q := Stamped(x, k)], claimed := k + 1, written := r.written + [x], pub := k)
  }

  lemma LookIsLured<P(!new)>(r: Ring<P>, p: nat)
    requires Inv(r) && p < |r.pcs| && Straddles(r, p)
    ensures ProducerStep(r, p, Lured(r, p))
  {
    BrimfulFacts(r);
  }

  lemma ThenLulled<P(!new)>(r: Ring<P>, p: nat, q: nat)
    requires Inv(r) && p < |r.pcs| && q < |r.pcs| && p != q && Straddles(r, p)
    ensures Reaches(Lured(r, p), Lulled(r, p, q))
  {
    hide Reaches;
    BrimfulFacts(r);
    var o := Lured(r, p);
    ReachesItself(o);
    RetireHead(o, o);
    var t := HeadRetired(o);
    assert PcOk(r, r.pcs[q]) && MayReturn(t, t.pcs[q]);
    hide Inv;
    assert At(t, r.pub + 1) == At(r, r.cons).(ready := false);
    ComesRound(o, t, q);
    ReachStep(o, SetPc(t, q, Idle), Lulled(r, p, q));
  }

  lemma ThenStraddled<P(!new)>(r: Ring<P>, p: nat, q: nat, x: P)
    requires Inv(r) && p < |r.pcs| && q < |r.pcs| && p != q && Straddles(r, p)
    requires Reaches(Lured(r, p), Lulled(r, p, q))
    ensures Reaches(Lured(r, p), Straddled(r, p, q, x))
  {
    hide Reaches;
    BrimfulFacts(r);
    hide Inv;
    var o, t, k: nat := Lured(r, p), Lulled(r, p, q), r.pub + 1;
    assert At(t, k) == At(r, r.cons).(ready := false);
    ClaimAndStamp(o, t, q, x);
    var u := SetPc(SetFrame(t, k, At(t, k).(ready := false, sequence := k)), q, Stamped(x, k)).(
      claimed := k + 1, written := t.written + [x]);
    var u1 := SetPc(u, p, Bump(r.pub));
    ReachProducer(o, u, p, u1);
    var u2 := SetPc(u1, p, Walk).(pub := k);
    ReachProducer(o, u1, p, u2);
    assert u2.pcs == r.pcs[p := Walk][q := Stamped(x, k)];
    assert u2.frames == Straddled(r, p, q, x).frames;
    assert u2 == Straddled(r, p, q, x);
  }

  /** THE CONVERSE. After any straddling look, whatever the consumer and the other producers are doing,
      the code can go on -- by steps none of which straddles -- to publish a frame whose payload has not
      been written: that one look is enough. */
  lemma StraddleGoesWrong<P(!new)>(r: Ring<P>, p: nat, q: nat, x: P)
    requires Inv(r) && p < |r.pcs| && q < |r.pcs| && p != q && Straddles(r, p)
    requires x != At(r, r.cons).payload
    ensures ProducerStep(r, p, Lured(r, p)) && Reaches(Lured(r, p), Straddled(r, p, q, x))
    ensures var t := Straddled(r, p, q, x);
      Shape(t) && t.cons <= t.pub < t.claimed && !Carries(t, t.pub) && At(t, t.pub).sequence == t.pub
  {
    hide Reaches;
    LookIsLured(r, p);
    ThenLulled(r, p, q);
    ThenStraddled(r, p, q, x);
    BrimfulFacts(r);
  }

  // ---- The failure, concretely --------------------------------------------------------------------

  /** A one-slot ring with two producers, fresh. */
  ghost function Tiny<P>(y: P): Ring<P> {
    Ring(1, 0, -1, 0, [Frame(false, 0, y)], [Idle, Idle], Waiting, [], [])
  }

  /** ... after producer 0 wrote y and came round to look behind the cursor it advanced. */
  ghost function TinyFull<P>(y: P): Ring<P> {
    Ring(1, 1, 0, 0, [Frame(true, 0, y)], [Look(0), Idle], Waiting, [y], [])
  }

  /** Producer 0's state on the one-slot ring once it has stamped sequence 0. */
  ghost function TinyAt<P>(y: P, ready: bool, pub: int, pc: Pc<P>): Ring<P> {
    Ring(1, 1, pub, 0, [Frame(ready, 0, y)], [pc, Idle], Waiting, [y], [])
  }

  lemma TinyStep<P(!new)>(y: P, ready: bool, pub: int, pc: Pc<P>, ready': bool, pub': int, pc': Pc<P>)
    requires Reaches(Tiny(y), TinyAt(y, ready, pub, pc)) && -1 <= pub && (pc.Look? ==> pub < 0)
    requires ProducerStep(TinyAt(y, ready, pub, pc), 0, TinyAt(y, ready', pub', pc'))
    ensures Reaches(Tiny(y), TinyAt(y, ready', pub', pc'))
  {
    hide Reaches, ProducerStep;
    ReachProducer(Tiny(y), TinyAt(y, ready, pub, pc), 0, TinyAt(y, ready', pub', pc'));
  }

  lemma TinyClaims<P(!new)>(y: P)
    ensures Initial(Tiny(y)) && Reaches(Tiny(y), TinyAt(y, false, -1, Stamped(y, 0)))
  {
    var o := Tiny(y);
    ReachesItself(o);
    ClaimAndStamp(o, o, 0, y);
    assert TinyAt(y, false, -1, Stamped(y, 0)) ==
      SetPc(SetFrame(o, 0, At(o, 0).(ready := false, sequence := 0)), 0, Stamped(y, 0)).(claimed := 1, written := o.written + [y]);
  }

  lemma TinyPublishes<P(!new)>(y: P)
    ensures Reaches(Tiny(y), TinyAt(y, true, -1, Walk))
  {
    TinyClaims(y);
    hide Reaches;
    TinyStep(y, false, -1, Stamped(y, 0), false, -1, Filled(y, 0));
    TinyStep(y, false, -1, Filled(y, 0), true, -1, Stored(0));
    TinyStep(y, true, -1, Stored(0), true, -1, Walk);
  }

  lemma TinyFills<P(!new)>(y: P)
    ensures Reaches(Tiny(y), TinyFull(y))
  {
    TinyPublishes(y);
    hide Reaches;
    TinyStep(y, true, -1, Walk, true, -1, Look(-1));
    TinyStep(y, true, -1, Look(-1), true, -1, Saw(-1));
    TinyStep(y, true, -1, Saw(-1), true, -1, Bump(-1));
    TinyStep(y, true, -1, Bump(-1), true, 0, Walk);
    TinyStep(y, true, 0, Walk, true, 0, Look(0));
    assert TinyFull(y) == TinyAt(y, true, 0, Look(0));
  }

  lemma TinyFullIsSound<P(!new)>(y: P)
    ensures Inv(TinyFull(y)) && Straddles(TinyFull(y), 0)
  {}

  /** Two producers on a one-slot ring: with a single straddling look the code delivers y twice although
      y and then x were written. */
  lemma StraddleDeliversTheWrongPayload<P(!new)>(y: P, x: P)
    requires x != y
    ensures Initial(Tiny(y)) && Reaches(Tiny(y), TinyFull(y)) && ProducerStep(TinyFull(y), 0, Lured(TinyFull(y), 0))
    ensures exists t: Ring<P> :: Reaches(Lured(TinyFull(y), 0), t) && t.written == [y, x] && t.delivered == [y, y]
  {
    hide Reaches;
    TinyFills(y);
    TinyFullIsSound(y);
    var r := TinyFull(y);
    StraddleGoesWrong(r, 0, 1, x);
    var t := Straddled(r, 0, 1, x);
    assert t.frames == [Frame(false, 1, y)] && t.cpc == Waiting && t.cons == 1 && t.pub == 1;
    RetireHead(Lured(r, 0), t);
    assert HeadRetired(t).written == [y, x] && HeadRetired(t).delivered == [y, y];
  }
}
