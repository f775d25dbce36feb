/** The ordering engine of one stream (core/EventStream.h:171-340): the sliding window that feeds the
    reorder buffer, the launch of handlers, the draining of completions and the `service` fixpoint.

    Modelling choices.
    - A ring is what its reader can see of it: the sequence of everything published, in order. The
      reader's position is `inSeq` or `cmpSeq`. (LmaxRing.dfy proves that the ring delivers exactly that.)
    - A handler is any code: its outcome is chosen arbitrarily, and so is the mask computed for its event.
    - Micro-steps of handlers and workers (`Work`) may fall between any two actions of the ordering thread.
    - A worker posts exactly one completion per Async event, while the event's slot is Running. */
module EventStreams {
  import opened EventLog
  import opened ReorderBuffer

  datatype Option<T> = None | Some(value: T)

  /** A completion posted by a worker: the event it belongs to, and the token handed to the commit. */
  datatype WorkResult = WorkResult(originSeq: nat, token: nat)

  // ---- The engine's state as a value, and what every step of it keeps ----------------------------

  datatype Engine<Ev> = Engine(slots: seq<GapSlot>, parked: seq<Ev>, arrivals: seq<Arrival<Ev>>, log: seq<Step<Ev>>)

  /** The life an event must have, read off its slot. `inside` is the event whose handler the ordering
      thread is inside, if any. */
  ghost function Phase(slots: seq<GapSlot>, id: nat, inside: Option<nat>): Life
    requires |slots| >= 1
  {
    var s := slots[id % |slots|];
    if s.sequence != id then Finished
    else match s.status {
      case Empty => Finished
      case Committed => Done(s.result)
      case Pending => Waiting
      case Running => if inside == Some(id) then Handling else HandedOff
      case Complete => Done(s.result)
    }
  }

  predicate LiveId(slots: seq<GapSlot>, id: nat)
    requires |slots| >= 1
  {
    Live(slots[id % |slots|]) && slots[id % |slots|].sequence == id
  }

  /** A live slot holds an arrival's own mask, and while Pending its own event. */
  ghost predicate SlotsMatch<Ev>(e: Engine<Ev>) {
    && |e.slots| >= 1 && |e.parked| == |e.slots| && Placed(e.slots)
    && forall i :: 0 <= i < |e.slots| && Live(e.slots[i]) ==>
         && e.slots[i].sequence < |e.arrivals|
         && e.slots[i].mask == e.arrivals[e.slots[i].sequence].mask
         && (e.slots[i].status == Pending ==> e.parked[i] == e.arrivals[e.slots[i].sequence].event)
  }

  /** An event that started, or is over, has no live earlier event it conflicts with. */
  ghost predicate Admission<Ev>(e: Engine<Ev>)
    requires |e.slots| >= 1
  {
    forall i: nat, j: nat :: i < j < |e.arrivals| && Meets(e.arrivals, i, j) && LiveId(e.slots, i) ==>
      Phase(e.slots, j, None) == Waiting
  }

  /** The history and the slots agree about every event. */
  ghost predicate LivesMatch<Ev>(e: Engine<Ev>, inside: Option<nat>)
    requires |e.slots| >= 1
  {
    forall k: nat :: k < |e.arrivals| ==> LifeOf(e.log, k, e.arrivals[k].event) == Phase(e.slots, k, inside)
  }

  ghost predicate Good<Ev>(e: Engine<Ev>, inside: Option<nat>) {
    && SlotsMatch(e)
    && LivesMatch(e, inside)
    && Admission(e)
    && IdsBelow(e.log, |e.arrivals|)
    && Ordered(e.log, e.arrivals)
  }

  lemma LiveSlotIsAdmitted<Ev>(e: Engine<Ev>, inside: Option<nat>, i: nat)
    requires Good(e, inside) && i < |e.slots|
    ensures Live(e.slots[i]) ==> e.slots[i].sequence < |e.arrivals| && e.slots[i].sequence % |e.slots| == i && LiveId(e.slots, e.slots[i].sequence)
  {}

  /** No live event that arrived before `id` conflicts with it. */
  ghost predicate Clear<Ev>(e: Engine<Ev>, id: nat)
    requires |e.slots| >= 1 && id < |e.arrivals|
  {
    forall i: nat :: i < id && Meets(e.arrivals, i, id) ==> !LiveId(e.slots, i)
  }

  /** An empty row means exactly that the event may run: nothing earlier and conflicting is live. */
  lemma EmptyRowIsClear<Ev>(e: Engine<Ev>, rows: seq<set<nat>>, i: nat)
    requires SlotsMatch(e) && Exact(e.slots, rows)
    requires i < |e.slots| && Live(e.slots[i]) && rows[i] == {}
    ensures Clear(e, e.slots[i].sequence)
  {
    var id := e.slots[i].sequence;
    assert ExactRow(e.slots, rows[i], i);
    forall k: nat | k < id && Meets(e.arrivals, k, id)
      ensures !LiveId(e.slots, k)
    {
      var j: nat := k % |e.slots|;
      assert LiveId(e.slots, k) ==> Blocks(e.slots, j, i);
    }
  }

  lemma StartedIsClear<Ev>(e: Engine<Ev>, inside: Option<nat>, id: nat)
    requires Good(e, inside) && id < |e.arrivals| && Phase(e.slots, id, inside) != Waiting
    ensures Clear(e, id)
  {
    assert Phase(e.slots, id, None) != Waiting;
  }

  ghost function After<Ev>(e: Engine<Ev>, step: Step<Ev>, s: GapSlot): Engine<Ev>
    requires |e.slots| >= 1
  {
    e.(slots := e.slots[step.id % |e.slots| := s], log := e.log + [step])
  }

  lemma LivesAfter<Ev>(e: Engine<Ev>, inside: Option<nat>, step: Step<Ev>, s: GapSlot, inside': Option<nat>)
    requires SlotsMatch(e) && LivesMatch(e, inside)
    requires step.id < |e.arrivals| && LiveId(e.slots, step.id) && s.sequence == step.id
    requires forall k :: k != step.id ==> (inside == Some(k) <==> inside' == Some(k))
    requires Phase(After(e, step, s).slots, step.id, inside')
          == Advance(Phase(e.slots, step.id, inside), step, e.arrivals[step.id].event)
    ensures LivesMatch(After(e, step, s), inside')
  {
    var e' := After(e, step, s);
    forall k: nat | k < |e'.arrivals|
      ensures LifeOf(e'.log, k, e'.arrivals[k].event) == Phase(e'.slots, k, inside')
    {
      LifeSnoc(e.log, step, k, e.arrivals[k].event);
    }
  }

  lemma OrderAfter<Ev>(e: Engine<Ev>, inside: Option<nat>, step: Step<Ev>)
    requires Good(e, inside)
    requires step.id < |e.arrivals| && LiveId(e.slots, step.id)
    ensures IdsBelow(e.log + [step], |e.arrivals|) && Ordered(e.log + [step], e.arrivals)
  {
    var id := step.id;
    forall p | 0 <= p < |e.log| && Meets(e.arrivals, e.log[p].id, id)
      ensures e.log[p].id <= id
    {
      var j := e.log[p].id;
      SteppedIsNotWaiting(e.log, p, e.arrivals[j].event);
      assert Phase(e.slots, j, None) != Waiting;
      MeetsIsSymmetric(e.arrivals, id, j);
    }
    OrderedSnoc(e.log, step, e.arrivals);
  }

  lemma AdmissionAfter<Ev>(e: Engine<Ev>, step: Step<Ev>, s: GapSlot)
    requires SlotsMatch(e) && Admission(e)
    requires step.id < |e.arrivals| && LiveId(e.slots, step.id) && Clear(e, step.id)
    requires s.sequence == step.id
    ensures Admission(After(e, step, s))
  {
    var e' := After(e, step, s);
    forall i: nat, j: nat | i < j < |e'.arrivals| && Meets(e'.arrivals, i, j) && LiveId(e'.slots, i)
      ensures Phase(e'.slots, j, None) == Waiting
    {
      assert LiveId(e.slots, i);
      assert j != step.id;
      assert Phase(e.slots, j, None) == Waiting;
    }
  }

  /** THE STEP LEMMA: a step of a live, unobstructed event that moves its life and its slot together
      keeps everything. */
  lemma StepKeepsGood<Ev>(e: Engine<Ev>, inside: Option<nat>, step: Step<Ev>, s: GapSlot, inside': Option<nat>)
    requires Good(e, inside)
    requires step.id < |e.arrivals| && LiveId(e.slots, step.id) && Clear(e, step.id)
    requires s.sequence == step.id && s.mask == e.slots[step.id % |e.slots|].mask
    requires s.status == Running || s.status == Complete || s.status == Empty
    requires forall k :: k != step.id ==> (inside == Some(k) <==> inside' == Some(k))
    requires Phase(After(e, step, s).slots, step.id, inside')
          == Advance(Phase(e.slots, step.id, inside), step, e.arrivals[step.id].event)
    ensures Good(After(e, step, s), inside')
  {
    LivesAfter(e, inside, step, s, inside');
    OrderAfter(e, inside, step);
    AdmissionAfter(e, step, s);
  }

  ghost function Admit<Ev>(e: Engine<Ev>, a: Arrival<Ev>): Engine<Ev>
    requires |e.slots| >= 1 && |e.parked| == |e.slots|
  {
    var n, i := |e.arrivals|, |e.arrivals| % |e.slots|;
    Engine(e.slots[i := GapSlot(n, a.mask, Pending, 0)], e.parked[i := a.event], e.arrivals + [a], e.log)
  }

  lemma AdmitKeepsLives<Ev>(e: Engine<Ev>, a: Arrival<Ev>)
    requires SlotsMatch(e) && LivesMatch(e, None) && IdsBelow(e.log, |e.arrivals|)
    requires !Live(e.slots[|e.arrivals| % |e.slots|])
    ensures LivesMatch(Admit(e, a), None)
  {
    var n := |e.arrivals|;
    var e' := Admit(e, a);
    NotYetStepped(e.log, n, a.event);
    forall k: nat | k < |e'.arrivals|
      ensures LifeOf(e'.log, k, e'.arrivals[k].event) == Phase(e'.slots, k, None)
    {
      if k < n {
        assert e'.arrivals[k] == e.arrivals[k] && Phase(e'.slots, k, None) == Phase(e.slots, k, None);
      }
    }
  }

  lemma AdmitKeepsAdmission<Ev>(e: Engine<Ev>, a: Arrival<Ev>)
    requires SlotsMatch(e) && Admission(e)
    requires !Live(e.slots[|e.arrivals| % |e.slots|])
    ensures Admission(Admit(e, a))
  {
    var n := |e.arrivals|;
    var e' := Admit(e, a);
    forall i: nat, j: nat | i < j < |e'.arrivals| && Meets(e'.arrivals, i, j) && LiveId(e'.slots, i)
      ensures Phase(e'.slots, j, None) == Waiting
    {
      if j < n {
        assert Meets(e.arrivals, i, j) && LiveId(e.slots, i);
      }
    }
  }

  lemma AdmitKeepsOrder<Ev>(log: seq<Step<Ev>>, arrivals: seq<Arrival<Ev>>, a: Arrival<Ev>)
    requires IdsBelow(log, |arrivals|) && Ordered(log, arrivals)
    ensures IdsBelow(log, |arrivals + [a]|) && Ordered(log, arrivals + [a])
  {
    forall p, q | 0 <= p < q < |log| && Meets(arrivals + [a], log[p].id, log[q].id)
      ensures log[p].id <= log[q].id
    {
      assert Meets(arrivals, log[p].id, log[q].id);
    }
  }

  /** Admitting the next arrival into an empty slot of its own keeps everything. */
  lemma AdmitKeepsGood<Ev>(e: Engine<Ev>, a: Arrival<Ev>)
    requires Good(e, None)
    requires !Live(e.slots[|e.arrivals| % |e.slots|])
    ensures Good(Admit(e, a), None)
  {
    AdmitKeepsLives(e, a);
    AdmitKeepsAdmission(e, a);
    AdmitKeepsOrder(e.log, e.arrivals, a);
  }

  lemma {:induction false} NotYetStepped<Ev>(log: seq<Step<Ev>>, id: nat, event: Ev)
    requires forall p :: 0 <= p < |log| ==> log[p].id != id
    ensures LifeOf(log, id, event) == Waiting
  {
    if log != [] {
      NotYetStepped(log[..|log| - 1], id, event);
    }
  }

  /** `more` extends `log` by micro-steps of handlers and workers whose slots are Running. */
  ghost predicate WorkersRan<Ev>(slots: seq<GapSlot>, log: seq<Step<Ev>>, more: seq<Step<Ev>>)
    requires |slots| >= 1
  {
    log <= more && forall p :: |log| <= p < |more| ==>
      more[p].Work? && LiveId(slots, more[p].id) && slots[more[p].id % |slots|].status == Running
  }

  lemma OneWorkKeepsGood<Ev>(e: Engine<Ev>, inside: Option<nat>, x: Step<Ev>)
    requires Good(e, inside) && x.Work? && LiveId(e.slots, x.id) && e.slots[x.id % |e.slots|].status == Running
    ensures Good(e.(log := e.log + [x]), inside)
  {
    StartedIsClear(e, inside, x.id);
    var s := e.slots[x.id % |e.slots|];
    assert e.slots[x.id % |e.slots| := s] == e.slots;
    StepKeepsGood(e, inside, x, s, inside);
  }

  lemma {:induction false} WorkKeepsGood<Ev>(e: Engine<Ev>, inside: Option<nat>, more: seq<Step<Ev>>)
    requires Good(e, inside) && WorkersRan(e.slots, e.log, more)
    ensures Good(e.(log := more), inside)
    decreases |more|
  {
    if |more| > |e.log| {
      var init, x := more[..|more| - 1], more[|more| - 1];
      WorkKeepsGood(e, inside, init);
      OneWorkKeepsGood(e.(log := init), inside, x);
      assert init + [x] == more;
    } else {
      assert more == e.log;
    }
  }

  /** An unblocked Pending event may begin, with the event it was parked with. */
  lemma BeginKeepsGood<Ev>(e: Engine<Ev>, rows: seq<set<nat>>, id: nat)
    requires Good(e, None) && Exact(e.slots, rows)
    requires id < |e.arrivals| && LiveId(e.slots, id)
    requires e.slots[id % |e.slots|].status == Pending && rows[id % |e.slots|] == {}
    ensures e.parked[id % |e.slots|] == e.arrivals[id].event
    ensures Good(After(e, Start(id, e.arrivals[id].event), e.slots[id % |e.slots|].(status := Running)), Some(id))
  {
    EmptyRowIsClear(e, rows, id % |e.slots|);
    StepKeepsGood(e, None, Start(id, e.arrivals[id].event), e.slots[id % |e.slots|].(status := Running), Some(id));
  }

  /** The slot of an event whose handler returned with `outcome`. */
  function Returned(s: GapSlot, outcome: Outcome): GapSlot {
    match outcome
    case Inline(r) => s.(status := Complete, result := r)
    case Async => s
    case Drop => s.(status := Empty)
  }

  lemma ReturnKeepsGood<Ev>(e: Engine<Ev>, id: nat, outcome: Outcome)
    requires Good(e, Some(id)) && id < |e.arrivals|
    requires LiveId(e.slots, id) && e.slots[id % |e.slots|].status == Running
    ensures Good(After(e, Return(id, outcome), Returned(e.slots[id % |e.slots|], outcome)), None)
  {
    StartedIsClear(e, Some(id), id);
    StepKeepsGood(e, Some(id), Return(id, outcome), Returned(e.slots[id % |e.slots|], outcome), None);
  }

  lemma FinishKeepsGood<Ev>(e: Engine<Ev>, id: nat, token: nat)
    requires Good(e, None) && id < |e.arrivals|
    requires LiveId(e.slots, id) && e.slots[id % |e.slots|].status == Running
    ensures Good(After(e, Finish(id, token), e.slots[id % |e.slots|].(status := Complete, result := token)), None)
  {
    StartedIsClear(e, None, id);
    StepKeepsGood(e, None, Finish(id, token), e.slots[id % |e.slots|].(status := Complete, result := token), None);
  }

  lemma EmitKeepsGood<Ev>(e: Engine<Ev>, i: nat)
    requires Good(e, None) && i < |e.slots| && e.slots[i].status == Complete
    ensures e.slots[i].sequence % |e.slots| == i && e.slots[i].sequence < |e.arrivals|
    ensures Good(After(e, Emit(e.slots[i].sequence, e.slots[i].result), e.slots[i].(status := Empty)), None)
  {
    var id := e.slots[i].sequence;
    StartedIsClear(e, None, id);
    StepKeepsGood(e, None, Emit(id, e.slots[i].result), e.slots[i].(status := Empty), None);
  }

  lemma MeetsIsSymmetric<Ev>(arrivals: seq<Arrival<Ev>>, i: nat, j: nat)
    requires i < |arrivals| && j < |arrivals|
    ensures Meets(arrivals, i, j) == Meets(arrivals, j, i)
  {
    assert arrivals[i].mask * arrivals[j].mask == arrivals[j].mask * arrivals[i].mask;
  }

  // ---- What every reachable state promises, in terms of the history alone -------------------------

  /** Conflicting handlers never overlap and never swap: by the time an event has taken any step, every
      earlier event it conflicts with is over. */
  lemma ConflictsNeverOverlap<Ev>(e: Engine<Ev>, i: nat, p: nat)
    requires Good(e, None) && p < |e.log| && i < e.log[p].id && Meets(e.arrivals, i, e.log[p].id)
    ensures LifeOf(e.log, i, e.arrivals[i].event) == Finished
    ensures forall q :: 0 <= q < |e.log| && e.log[q].id == i ==> q < p
  {
    var j := e.log[p].id;
    SteppedIsNotWaiting(e.log, p, e.arrivals[j].event);
    StartedIsClear(e, None, j);
    assert !LiveId(e.slots, i);
    forall q | 0 <= q < |e.log| && e.log[q].id == i
      ensures q < p
    {
      MeetsIsSymmetric(e.arrivals, i, j);
    }
  }

  /** The whole of SERIALIZABILITY at a quiescent state: every admitted event has run to its end, from
      its own parked copy and exactly once, and any program state the run can reach is reached by
      running the events one by one in arrival order. */
  lemma QuiescentRunsAreSerial<Ev(!new), S(!new)>(e: Engine<Ev>, effect: Effect<Ev, S>, s: S, t: S)
    requires Good(e, None)
    requires forall i :: 0 <= i < |e.slots| ==> e.slots[i].status == Empty
    requires IndependentCommute(e.arrivals, effect)
    requires Exec(e.log, effect, s, t)
    ensures Exec(Serial(e.log, |e.arrivals|), effect, s, t)
    ensures multiset(Serial(e.log, |e.arrivals|)) == multiset(e.log)
    ensures forall k: nat :: k < |e.arrivals| ==>
      LifeOf(OnlyOf(e.log, k), k, e.arrivals[k].event) == Finished
  {
    Serializable(e.log, e.arrivals, |e.arrivals|, effect, s, t);
    SerialLosesNothing(e.log, |e.arrivals|);
    forall k: nat | k < |e.arrivals|
      ensures LifeOf(OnlyOf(e.log, k), k, e.arrivals[k].event) == Finished
    {
      SerialKeepsLives(e.log, k, e.arrivals[k].event);
      assert Phase(e.slots, k, None) == Finished;
    }
  }

  /** The serial history of the admitted events has the same steps, takes each event exactly as far through
      its life as it has got, and reaches every state that the interleaved history can reach. */
  ghost predicate SerialInEffect<Ev(!new), S(!new)>(e: Engine<Ev>, effect: Effect<Ev, S>) {
    var serial := Serial(e.log, |e.arrivals|);
    && multiset(serial) == multiset(e.log)
    && (forall k: nat :: k < |e.arrivals| ==> LifeOf(OnlyOf(e.log, k), k, e.arrivals[k].event) == LifeOf(e.log, k, e.arrivals[k].event))
    && (IndependentCommute(e.arrivals, effect) ==> forall s, t :: Exec(e.log, effect, s, t) ==> Exec(serial, effect, s, t))
  }

  /** Every admitted event has come to its end. */
  ghost predicate AllOver<Ev>(e: Engine<Ev>) {
    forall k: nat :: k < |e.arrivals| ==> LifeOf(e.log, k, e.arrivals[k].event) == Finished
  }

  /** Every reachable state is serial in effect, whatever is still under way. */
  lemma GoodIsSerial<Ev(!new), S(!new)>(e: Engine<Ev>, effect: Effect<Ev, S>)
    requires Good(e, None)
    ensures SerialInEffect(e, effect)
  {
    hide Exec, IndependentCommute, Serial, LifeOf;
    IdsAreAdmitted(e);
    LogIsOrdered(e);
    hide Good;
    SerialLosesNothing(e.log, |e.arrivals|);
    forall k: nat | k < |e.arrivals|
      ensures LifeOf(OnlyOf(e.log, k), k, e.arrivals[k].event) == LifeOf(e.log, k, e.arrivals[k].event)
    {
      SerialKeepsLives(e.log, k, e.arrivals[k].event);
    }
    if IndependentCommute(e.arrivals, effect) {
      forall s, t | Exec(e.log, effect, s, t)
        ensures Exec(Serial(e.log, |e.arrivals|), effect, s, t)
      {
        Serializable(e.log, e.arrivals, |e.arrivals|, effect, s, t);
      }
    }
  }

  lemma LogIsOrdered<Ev>(e: Engine<Ev>)
    requires Good(e, None)
    ensures Ordered(e.log, e.arrivals)
  {}

  lemma IdsAreAdmitted<Ev>(e: Engine<Ev>)
    requires Good(e, None)
    ensures IdsBelow(e.log, |e.arrivals|)
  {}

  lemma EmptyIsOver<Ev>(e: Engine<Ev>)
    requires Good(e, None)
    requires forall i :: 0 <= i < |e.slots| ==> e.slots[i].status == Empty
    ensures AllOver(e)
  {
    forall k: nat | k < |e.arrivals|
      ensures LifeOf(e.log, k, e.arrivals[k].event) == Finished
    {
      assert Phase(e.slots, k, None) == Finished;
    }
  }

  /** Every event of every reachable state is dispatched at most once, from its own parked copy, and
      committed at most once -- exactly once when it is over and was not dropped. */
  lemma DispatchedExactlyOnce<Ev>(e: Engine<Ev>, k: nat)
    requires Good(e, None) && k < |e.arrivals|
    ensures Accounted(e.log, k, e.arrivals[k].event)
    ensures LifeOf(e.log, k, e.arrivals[k].event) in {Waiting, HandedOff, Finished} ||
            LifeOf(e.log, k, e.arrivals[k].event).Done?
  {
    LifeAccounts(e.log, k, e.arrivals[k].event);
  }

  ghost predicate NoAsync<Ev>(log: seq<Step<Ev>>) {
    forall p :: 0 <= p < |log| ==> !(log[p].Return? && log[p].outcome == Async)
  }

  lemma {:induction false} HandedOffWasAsync<Ev>(log: seq<Step<Ev>>, id: nat, event: Ev)
    requires LifeOf(log, id, event) == HandedOff
    ensures !NoAsync(log)
  {
    var init, s := log[..|log| - 1], log[|log| - 1];
    if s.id == id && s.Return? {
      assert s.outcome == Async;
    } else {
      HandedOffWasAsync(init, id, event);
      var p :| 0 <= p < |init| && init[p].Return? && init[p].outcome == Async;
      assert log[p] == init[p];
    }
  }

  /** If no handler ever handed off, a quiet buffer is empty. */
  lemma SyncIsIdle<Ev>(e: Engine<Ev>, rows: seq<set<nat>>)
    requires Good(e, None) && Exact(e.slots, rows) && Quiet(e.slots, rows) && NoAsync(e.log)
    ensures forall i :: 0 <= i < |e.slots| ==> e.slots[i].status == Empty
  {
    forall i | 0 <= i < |e.slots|
      ensures e.slots[i].status != Running
    {
      RunningWasAsync(e, i);
    }
    QuietAndIdleIsEmpty(e.slots, rows);
  }

  lemma RunningWasAsync<Ev>(e: Engine<Ev>, i: nat)
    requires Good(e, None) && i < |e.slots|
    ensures e.slots[i].status == Running ==> !NoAsync(e.log)
  {
    if e.slots[i].status == Running {
      var id := e.slots[i].sequence;
      assert Phase(e.slots, id, None) == HandedOff;
      HandedOffWasAsync(e.log, id, e.arrivals[id].event);
    }
  }

  lemma SameSlotFarApart(s: nat, n: nat, D: nat)
    requires D >= 1 && s < n && s % D == n % D
    ensures n - s >= D
  {
    var q, r := s / D, n / D;
    assert s == D * q + s % D && n == D * r + n % D;
    assert D * (r - q) == n - s;
    if r <= q {
      SignOfProduct(D, r - q);
    } else {
      AtLeastOnce(D, r - q);
    }
  }

  lemma SignOfProduct(a: int, b: int)
    requires a >= 0 && b <= 0
    ensures a * b <= 0
  {}

  lemma AtLeastOnce(a: int, b: int)
    requires a >= 0 && b >= 1
    ensures a * b >= a
  {}

  /** While the window is not full, the next arrival's slot is free. */
  lemma NextSlotIsFree(slots: seq<GapSlot>, tail: nat, n: nat)
    requires |slots| >= 1 && Placed(slots) && Window(slots, tail, n) && n - tail < |slots|
    ensures slots[n % |slots|].status == Empty
  {
    var s := slots[n % |slots|];
    if Live(s) {
      SameSlotFarApart(s.sequence, n, |slots|);
    }
  }

  /** An empty slot at the tail lets the tail advance; a full one holds the tail itself. */
  lemma TailSlot(slots: seq<GapSlot>, tail: nat, n: nat)
    requires |slots| >= 1 && Placed(slots) && Window(slots, tail, n) && tail < n
    ensures slots[tail % |slots|].status == Empty ==> Window(slots, tail + 1, n)
    ensures slots[tail % |slots|].status != Empty ==> LiveId(slots, tail)
  {
    var s := slots[tail % |slots|];
    if Live(s) && s.sequence != tail {
      SameSlotFarApart(tail, s.sequence, |slots|);
    }
  }

  /** Everything behind the tail is over. */
  lemma BehindTheTail<Ev>(e: Engine<Ev>, tail: nat)
    requires Good(e, None) && Window(e.slots, tail, |e.arrivals|)
    ensures forall k: nat :: k < tail ==> k < |e.arrivals| && LifeOf(e.log, k, e.arrivals[k].event) == Finished
  {
    forall k: nat | k < tail
      ensures k < |e.arrivals| && LifeOf(e.log, k, e.arrivals[k].event) == Finished
    {
      assert Phase(e.slots, k, None) == Finished;
    }
  }

  lemma AdmitKeepsWindow(slots: seq<GapSlot>, tail: nat, n: nat,
                         completions: seq<Option<WorkResult>>, cmp: nat, mask: TagMask)
    requires |slots| >= 1 && Placed(slots) && Window(slots, tail, n) && n - tail < |slots|
    requires CompletionsDue(slots, completions, cmp) && slots[n % |slots|].status == Empty
    ensures var slots' := slots[n % |slots| := GapSlot(n, mask, Pending, 0)];
      Window(slots', tail, n + 1) && CompletionsDue(slots', completions, cmp)
  {
    var slots' := slots[n % |slots| := GapSlot(n, mask, Pending, 0)];
    forall c | cmp <= c < |completions|
      ensures AwaitsCompletion(slots', completions[c])
    {
      assert AwaitsCompletion(slots, completions[c]);
    }
  }

  /** A full window over a quiet buffer is waiting for a worker: some handler is Running. */
  lemma FullWindowHasRunning<Ev>(e: Engine<Ev>, rows: seq<set<nat>>, tail: nat) returns (r: nat)
    requires Good(e, None) && Exact(e.slots, rows) && Quiet(e.slots, rows) && LiveId(e.slots, tail)
    ensures r < |e.slots| && e.slots[r].status == Running
  {
    var i: nat := tail % |e.slots|;
    QuietWaits(e.slots, rows, i);
    r := WaitsFindsRunning(e.slots, i);
  }

  /** Some live slot's mask meets this one. */
  ghost predicate Obstructed(slots: seq<GapSlot>, mask: TagMask) {
    exists j: nat :: j < |slots| && Live(slots[j]) && slots[j].mask * mask != {}
  }

  /** A fresh arrival is blocked exactly when it is obstructed. */
  lemma BlockedMeansConflict(slots: seq<GapSlot>, n: nat, mask: TagMask)
    requires |slots| >= 1 && slots[n % |slots|].status == Empty
    requires forall i :: 0 <= i < |slots| && Live(slots[i]) ==> slots[i].sequence < n
    ensures var i: nat := n % |slots|;
      var slots' := slots[i := GapSlot(n, mask, Pending, 0)];
      (exists j: nat :: j < |slots'| && Blocks(slots', j, i)) <==> Obstructed(slots, mask)
  {
    var i: nat := n % |slots|;
    var slots' := slots[i := GapSlot(n, mask, Pending, 0)];
    assert forall j: nat :: j < |slots| ==> (Blocks(slots', j, i) <==> Live(slots[j]) && slots[j].mask * mask != {});
  }

  lemma ConflictNeedsAsync<Ev>(e: Engine<Ev>, rows: seq<set<nat>>, mask: TagMask)
    requires Good(e, None) && Exact(e.slots, rows) && Quiet(e.slots, rows)
    requires Obstructed(e.slots, mask)
    ensures !NoAsync(e.log)
  {
    var j: nat :| j < |e.slots| && Live(e.slots[j]) && e.slots[j].mask * mask != {};
    QuietWaits(e.slots, rows, j);
    var r := WaitsFindsRunning(e.slots, j);
    RunningWasAsync(e, r);
  }

  lemma PrefixHasNoAsync<Ev>(log: seq<Step<Ev>>, more: seq<Step<Ev>>)
    requires log <= more && NoAsync(more)
    ensures NoAsync(log)
  {
    assert forall p :: 0 <= p < |log| ==> log[p] == more[p];
  }

  /** What one turn of the ordering loop did. */
  datatype Turn = Stalled | NoInput | Admitted

  /** What the rest of the program may do between two turns of the loop, and the turn itself. */
  datatype Action<Ev> = Enqueue(event: Ev) | Post(completion: Option<WorkResult>) | BeginShutdown | Loop

  /** The window: live sequences lie in [tail, n), and it is never wider than the buffer. */
  ghost predicate Window(slots: seq<GapSlot>, tail: nat, n: nat) {
    && tail <= n <= tail + |slots|
    && forall i :: 0 <= i < |slots| && Live(slots[i]) ==> tail <= slots[i].sequence < n
  }

  predicate AwaitsCompletion(slots: seq<GapSlot>, c: Option<WorkResult>)
    requires |slots| >= 1
  {
    c.Some? ==> LiveId(slots, c.value.originSeq) && slots[c.value.originSeq % |slots|].status == Running
  }

  /** Every completion not drained yet is for its own event, whose handler handed off. */
  ghost predicate CompletionsDue(slots: seq<GapSlot>, completions: seq<Option<WorkResult>>, cmp: nat)
    requires |slots| >= 1
  {
    && cmp <= |completions|
    && (forall c :: cmp <= c < |completions| ==> AwaitsCompletion(slots, completions[c]))
    && (forall c, d :: cmp <= c < d < |completions| && completions[c].Some? && completions[d].Some? ==>
         completions[c].value.originSeq != completions[d].value.originSeq)
  }

  /** The event whose handler the ordering thread is inside is Running, and no completion names it yet. */
  ghost predicate InsideOne(slots: seq<GapSlot>, completions: seq<Option<WorkResult>>, cmp: nat, inside: Option<nat>)
    requires |slots| >= 1
  {
    inside.Some? ==>
      && LiveId(slots, inside.value) && slots[inside.value % |slots|].status == Running
      && forall c :: cmp <= c < |completions| && completions[c].Some? ==> completions[c].value.originSeq != inside.value
  }

  /** A slot that no pending completion names may change freely, as long as it keeps its sequence. */
  lemma SlotChangeKeepsWindow(slots: seq<GapSlot>, tail: nat, n: nat,
                              completions: seq<Option<WorkResult>>, cmp: nat, i: nat, s: GapSlot)
    requires Placed(slots) && i < |slots| && Live(slots[i]) && s.sequence == slots[i].sequence
    requires Window(slots, tail, n) && CompletionsDue(slots, completions, cmp)
    requires forall c :: cmp <= c < |completions| && completions[c].Some? ==>
      completions[c].value.originSeq != slots[i].sequence
    ensures Window(slots[i := s], tail, n) && CompletionsDue(slots[i := s], completions, cmp)
  {
    forall c | cmp <= c < |completions|
      ensures AwaitsCompletion(slots[i := s], completions[c])
    {
      assert AwaitsCompletion(slots, completions[c]);
    }
  }

  /** Taking the head of the queue: it is due, and nothing behind it names the same event. */
  lemma TakeCompletion(slots: seq<GapSlot>, completions: seq<Option<WorkResult>>, cmp: nat)
    requires |slots| >= 1 && CompletionsDue(slots, completions, cmp) && cmp < |completions|
    ensures CompletionsDue(slots, completions, cmp + 1) && AwaitsCompletion(slots, completions[cmp])
    ensures completions[cmp].Some? ==> forall c :: cmp < c < |completions| && completions[c].Some? ==>
      completions[c].value.originSeq != completions[cmp].value.originSeq
  {}

  /** A pending completion never names a slot that is not Running. */
  lemma NoneDueFor(slots: seq<GapSlot>, completions: seq<Option<WorkResult>>, cmp: nat, id: nat)
    requires |slots| >= 1 && CompletionsDue(slots, completions, cmp)
    requires slots[id % |slots|].status != Running
    ensures forall c :: cmp <= c < |completions| && completions[c].Some? ==> completions[c].value.originSeq != id
  {
    forall c | cmp <= c < |completions| && completions[c].Some?
      ensures completions[c].value.originSeq != id
    {
      assert AwaitsCompletion(slots, completions[c]);
    }
  }

  // ---- Completions: each is finished once, in the order they were posted --------------------------

  /** The completions that the history has taken in. */
  ghost function Completed<Ev>(log: seq<Step<Ev>>): seq<WorkResult> {
    if log == [] then []
    else
      var x := log[|log| - 1];
      Completed(log[..|log| - 1]) + if x.Finish? then [WorkResult(x.id, x.result)] else []
  }

  /** Those that were posted: a null one is none. */
  ghost function Posted(completions: seq<Option<WorkResult>>): seq<WorkResult> {
    if completions == [] then []
    else
      var c := completions[|completions| - 1];
      Posted(completions[..|completions| - 1]) + if c.Some? then [c.value] else []
  }

  lemma CompletedSnoc<Ev>(log: seq<Step<Ev>>, x: Step<Ev>)
    ensures Completed(log + [x]) == Completed(log) + if x.Finish? then [WorkResult(x.id, x.result)] else []
  {
    assert (log + [x])[..|log|] == log;
  }

  lemma PostedNext(completions: seq<Option<WorkResult>>, cmp: nat)
    requires cmp < |completions|
    ensures Posted(completions[..cmp + 1]) ==
      Posted(completions[..cmp]) + if completions[cmp].Some? then [completions[cmp].value] else []
  {
    assert completions[..cmp + 1][..cmp] == completions[..cmp];
  }

  lemma {:induction false} WorkCompletesNothing<Ev>(slots: seq<GapSlot>, log: seq<Step<Ev>>, more: seq<Step<Ev>>)
    requires |slots| >= 1 && WorkersRan(slots, log, more)
    ensures Completed(more) == Completed(log)
    decreases |more|
  {
    if |more| > |log| {
      WorkCompletesNothing(slots, log, more[..|more| - 1]);
    } else {
      assert more == log;
    }
  }

  /** Before anything has happened. */
  lemma StartIsGood<Ev>(e: Engine<Ev>)
    requires |e.slots| >= 1 && |e.parked| == |e.slots| && e.arrivals == [] && e.log == [] && Placed(e.slots)
    requires forall i :: 0 <= i < |e.slots| ==> e.slots[i].status == Empty
    ensures Good(e, None) && Window(e.slots, 0, 0) && CompletionsDue(e.slots, [], 0)
    ensures Completed(e.log) == Posted([][..0]) && NoAsync(e.log)
  {}

  // ---- Runs: what is let in, and what is admitted --------------------------------------------------

  /** How many events wait, how many have been admitted, and whether shutdown has begun. */
  datatype Tally = Tally(waiting: nat, admitted: nat, closed: bool)

  /** A run in which no turn stalls. */
  ghost function Tallied<Ev>(script: seq<Action<Ev>>, t: Tally): Tally {
    if script == [] then t
    else
      var u := Tallied(script[..|script| - 1], t);
      match script[|script| - 1]
      case Enqueue(_) => if u.closed then u else u.(waiting := u.waiting + 1)
      case Post(_) => u
      case BeginShutdown => u.(closed := true)
      case Loop => if u.waiting > 0 then u.(waiting := u.waiting - 1, admitted := u.admitted + 1) else u
  }

  /** The events that a run lets in: those enqueued before shutdown, in order. */
  ghost function LetIn<Ev>(script: seq<Action<Ev>>, closed: bool): seq<Ev> {
    if script == [] then []
    else
      var init, last := script[..|script| - 1], script[|script| - 1];
      LetIn(init, closed) + if last.Enqueue? && !(closed || BeginShutdown in init) then [last.event] else []
  }

  // ---- The stream -----------------------------------------------------------------------------------

  class EventStream<Ev(0,!new)> {
    const reorder: GapReorderBuffer
    const parked: array<Ev>
    var input: seq<Ev>
    var completions: seq<Option<WorkResult>>
    var inSeq: nat
    var tailSeq: nat
    var cmpSeq: nat
    var blockedAdmissions: nat
    var isCleaningUp: bool
    ghost var arrivals: seq<Arrival<Ev>>
    ghost var log: seq<Step<Ev>>

    ghost function Repr(): set<object>
      reads this
    {
      {this, reorder, reorder.slots, reorder.blockedBy, parked}
    }

    ghost function View(): Engine<Ev>
      reads Repr()
    {
      Engine(reorder.slots[..], parked[..], arrivals, log)
    }

    ghost predicate Busy(inside: Option<nat>)
      reads Repr()
    {
      && reorder.Valid() && parked.Length == reorder.depth
      && parked as object != reorder.slots && parked as object != reorder.blockedBy
      && Good(View(), inside)
      && Window(reorder.slots[..], tailSeq, |arrivals|) && CompletionsDue(reorder.slots[..], completions, cmpSeq)
      && InsideOne(reorder.slots[..], completions, cmpSeq, inside) && (inside.Some? ==> inside.value < |arrivals|)
      && |arrivals| <= |input| && (forall k :: 0 <= k < |arrivals| ==> arrivals[k].event == input[k])
      && Completed(log) == Posted(completions[..cmpSeq])
    }

    /** What holds between any two turns of the loop. */
    ghost predicate Valid()
      reads Repr()
    {
      Busy(None) && inSeq == |arrivals| && (NoAsync(log) ==> blockedAdmissions == 0)
    }

    constructor (depth: nat)
      requires depth >= 1
      ensures Valid() && reorder.depth == depth && fresh(Repr())
      ensures input == [] && completions == [] && log == [] && arrivals == [] && !isCleaningUp
    {
      reorder := new GapReorderBuffer(depth);
      parked := new Ev[depth];
      input, completions, inSeq, tailSeq, cmpSeq, blockedAdmissions := [], [], 0, 0, 0, 0;
      isCleaningUp := false;
      arrivals, log := [], [];
      new;
      StartIsGood(View());
      hide Good, Window, CompletionsDue, Completed, Posted;
    }

    // ---- The rest of the program ----

    /** enqueue: refused once shutdown began, else published behind everything already there. */
    method EnqueueEvent(event: Ev) returns (accepted: bool)
      requires Valid()
      modifies this`input
      ensures Valid() && accepted == !isCleaningUp
      ensures input == if accepted then old(input) + [event] else old(input)
    {
      if isCleaningUp { return false; }
      input := input + [event];
      return true;
    }

    /** A worker posts a completion. The assumption on workers is the guard: one completion per Async
        event, while its slot is Running. A null completion may be posted at any time. */
    method PostCompletion(completion: Option<WorkResult>)
      requires Valid()
      requires AwaitsCompletion(reorder.slots[..], completion)
      requires completion.Some? ==> forall c :: cmpSeq <= c < |completions| && completions[c].Some? ==>
        completions[c].value.originSeq != completion.value.originSeq
      modifies this`completions
      ensures Valid() && completions == old(completions) + [completion]
    {
      completions := completions + [completion];
      assert completions[..cmpSeq] == old(completions)[..cmpSeq];
    }

    /** Handlers and workers make any progress at all, concurrently with the ordering thread. */
    ghost method WorkersRun(inside: Option<nat>)
      requires Busy(inside)
      modifies this`log
      ensures Busy(inside) && WorkersRan(reorder.slots[..], old(log), log)
      ensures NoAsync(log) == NoAsync(old(log))
    {
      assert WorkersRan(reorder.slots[..], log, log);
      var more: seq<Step<Ev>> :| WorkersRan(reorder.slots[..], log, more);
      WorkKeepsGood(View(), inside, more);
      WorkCompletesNothing(reorder.slots[..], log, more);
      log := more;
      assert forall p :: 0 <= p < |old(log)| ==> log[p] == old(log)[p];
    }

    // ---- The ordering thread ----

    /** mark_running, and the handler begins. */
    method BeginHandler(id: nat)
      requires Busy(None)
      requires id < |arrivals| && LiveId(reorder.slots[..], id)
      requires reorder.slots[id % reorder.depth].status == Pending && reorder.blockedBy[id % reorder.depth] == {}
      modifies reorder.slots, this`log
      ensures Busy(Some(id))
      ensures log == old(log) + [Start(id, input[id])]
      ensures reorder.slots[..] == old(reorder.slots[..])[id % reorder.depth :=
        old(reorder.slots[id % reorder.depth]).(status := Running)]
    {
      var idx := id % reorder.depth;
      ghost var e := View();
      BeginKeepsGood(e, reorder.blockedBy[..], id);
      NoneDueFor(e.slots, completions, cmpSeq, id);
      SlotChangeKeepsWindow(e.slots, tailSeq, |arrivals|, completions, cmpSeq, idx, e.slots[idx].(status := Running));
      reorder.MarkRunning(id);
      var event := parked[idx];
      CompletedSnoc(log, Start(id, event));
      log := log + [Start(id, event)];
      assert parked[..] == e.parked && reorder.slots[..] == e.slots[idx := e.slots[idx].(status := Running)];
      assert View() == After(e, Start(id, event), e.slots[idx].(status := Running));
    }

    /** The handler returned: act on its outcome. */
    method EndHandler(id: nat, outcome: Outcome)
      requires Busy(Some(id))
      modifies reorder.slots, reorder.blockedBy, this`log
      ensures Busy(None)
      ensures log == old(log) + [Return(id, outcome)]
      ensures reorder.slots[..] == old(reorder.slots[..])[id % reorder.depth :=
        Returned(old(reorder.slots[id % reorder.depth]), outcome)]
    {
      var idx := id % reorder.depth;
      ghost var e := View();
      ReturnKeepsGood(e, id, outcome);
      SlotChangeKeepsWindow(e.slots, tailSeq, |arrivals|, completions, cmpSeq, idx, Returned(e.slots[idx], outcome));
      match outcome {
        case Inline(r) => var _ := reorder.Finish(id, r);
        case Async =>
        case Drop => reorder.Abandon(id);
      }
      CompletedSnoc(log, Return(id, outcome));
      log := log + [Return(id, outcome)];
      assert parked[..] == e.parked && reorder.slots[..] == e.slots[idx := Returned(e.slots[idx], outcome)];
      assert View() == After(e, Return(id, outcome), Returned(e.slots[idx], outcome));
    }

    /** launch_slot: runs one admitted event's handler. */
    method LaunchSlot(id: nat) returns (outcome: Outcome)
      requires Busy(None)
      requires id < |arrivals| && LiveId(reorder.slots[..], id)
      requires reorder.slots[id % reorder.depth].status == Pending && reorder.blockedBy[id % reorder.depth] == {}
      modifies reorder.slots, reorder.blockedBy, this`log
      ensures Busy(None)
      ensures old(log) + [Start(id, input[id])] <= log && log[|log| - 1] == Return(id, outcome)
      ensures reorder.slots[..] == old(reorder.slots[..])[id % reorder.depth :=
        Returned(old(reorder.slots[id % reorder.depth]).(status := Running), outcome)]
    {
      hide Good, Window, CompletionsDue, InsideOne, SlotsMatch;
      BeginHandler(id);
      WorkersRun(Some(id));
      outcome := *;
      EndHandler(id, outcome);
    }

    /** The commit of one finished, unblocked event. */
    method Commit(i: nat)
      requires Busy(None)
      requires i < reorder.depth && reorder.slots[i].status == Complete && reorder.blockedBy[i] == {}
      modifies reorder.slots, reorder.blockedBy, this`log
      ensures Busy(None)
      ensures log == old(log) + [Emit(old(reorder.slots[i]).sequence, old(reorder.slots[i]).result)]
      ensures reorder.slots[..] == old(reorder.slots[..])[i := old(reorder.slots[i]).(status := Empty)]
    {
      ghost var e := View();
      var slot := reorder.slots[i];
      EmitKeepsGood(e, i);
      NoneDueFor(e.slots, completions, cmpSeq, slot.sequence);
      SlotChangeKeepsWindow(e.slots, tailSeq, |arrivals|, completions, cmpSeq, i, slot.(status := Empty));
      reorder.Release(i);
      CompletedSnoc(log, Emit(slot.sequence, slot.result));
      log := log + [Emit(slot.sequence, slot.result)];
      assert reorder.slots[..][i := reorder.slots[i].(status := Empty)] == e.slots[i := slot.(status := Empty)];
      reorder.Vacate(i);
      assert parked[..] == e.parked && reorder.slots[..] == e.slots[i := slot.(status := Empty)];
      assert View() == After(e, Emit(slot.sequence, slot.result), slot.(status := Empty));
    }

    /** One slot of a sweep. */
    method ServiceSlot(i: nat) returns (progress: bool)
      requires Busy(None) && i < reorder.depth
      modifies reorder.slots, reorder.blockedBy, this`log
      ensures Busy(None) && old(log) <= log
      ensures progress <==> old(Ready(reorder.slots[..], reorder.blockedBy[..], i))
      ensures if progress then Weight(reorder.slots[..]) < old(Weight(reorder.slots[..]))
              else reorder.slots[..] == old(reorder.slots[..]) && reorder.blockedBy[..] == old(reorder.blockedBy[..])
    {
      hide Good, Window, CompletionsDue, InsideOne, Exact, Weight;
      LiveSlotIsAdmitted(View(), None, i);
      WorkersRun(None);
      if reorder.blockedBy[i] != {} { return false; }
      ghost var before := reorder.slots[..];
      if reorder.slots[i].status == Pending {
        var outcome := LaunchSlot(reorder.slots[i].sequence);
        WeightUpdate(before, i, Returned(before[i].(status := Running), outcome));
        return true;
      }
      if reorder.slots[i].status != Complete { return false; }
      Commit(i);
      WeightUpdate(before, i, before[i].(status := Empty));
      return true;
    }

    /** One pass over the slots. */
    method Sweep() returns (progress: bool)
      requires Busy(None)
      modifies reorder.slots, reorder.blockedBy, this`log
      ensures Busy(None) && old(log) <= log
      ensures if progress then Weight(reorder.slots[..]) < old(Weight(reorder.slots[..]))
              else Weight(reorder.slots[..]) == old(Weight(reorder.slots[..]))
                   && Quiet(reorder.slots[..], reorder.blockedBy[..])
    {
      hide Good, Window, CompletionsDue, InsideOne, SlotsMatch, Placed, Exact;
      progress := false;
      for i := 0 to reorder.depth
        invariant Busy(None) && old(log) <= log
        invariant if progress then Weight(reorder.slots[..]) < old(Weight(reorder.slots[..]))
                  else reorder.slots[..] == old(reorder.slots[..])
        invariant !progress ==> forall j :: 0 <= j < i ==> !Ready(reorder.slots[..], reorder.blockedBy[..], j)
      {
        var worked := ServiceSlot(i);
        progress := progress || worked;
      }
    }

    /** service: launches every unblocked Pending slot and commits every unblocked Complete one, until a
        whole sweep finds neither. Each launch or commit lowers the buffer's weight, so it ends. */
    method Service()
      requires Busy(None)
      modifies reorder.slots, reorder.blockedBy, this`log
      ensures Busy(None) && old(log) <= log
      ensures Quiet(reorder.slots[..], reorder.blockedBy[..])
    {
      var progress := true;
      while progress
        invariant Busy(None) && old(log) <= log
        invariant !progress ==> Quiet(reorder.slots[..], reorder.blockedBy[..])
        decreases Weight(reorder.slots[..]), progress
      {
        progress := Sweep();
      }
    }

    /** Consumes the next posted completion; a null one is skipped. */
    method DrainOne()
      requires Busy(None) && cmpSeq < |completions|
      modifies reorder.slots, this`log, this`cmpSeq
      ensures Busy(None) && cmpSeq == old(cmpSeq) + 1
      ensures log == old(log) + match old(completions[cmpSeq])
                                case None => []
                                case Some(wr) => [Finish(wr.originSeq, wr.token)]
    {
      var completion := completions[cmpSeq];
      ghost var e := View();
      TakeCompletion(e.slots, completions, cmpSeq);
      PostedNext(completions, cmpSeq);
      cmpSeq := cmpSeq + 1;
      match completion {
        case None =>
          assert log == old(log) + [];
        case Some(wr) =>
          var id := wr.originSeq;
          var idx := id % reorder.depth;
          FinishKeepsGood(e, id, wr.token);
          SlotChangeKeepsWindow(e.slots, tailSeq, |arrivals|, completions, cmpSeq, idx,
                                e.slots[idx].(status := Complete, result := wr.token));
          CompletedSnoc(log, Finish(id, wr.token));
          log := log + [Finish(id, wr.token)];
          var _ := reorder.Finish(id, wr.token);
          assert parked[..] == e.parked;
          assert View() == After(e, Finish(id, wr.token), e.slots[idx].(status := Complete, result := wr.token));
      }
    }

    /** drain_completions: takes everything posted so far, then services. */
    method DrainCompletions()
      requires Busy(None)
      modifies reorder.slots, reorder.blockedBy, this`log, this`cmpSeq
      ensures Busy(None) && old(log) <= log && cmpSeq == |completions|
      ensures Completed(log) == Posted(completions)
      ensures Quiet(reorder.slots[..], reorder.blockedBy[..])
    {
      assert completions[..|completions|] == completions;
      while cmpSeq < |completions|
        invariant Busy(None) && old(log) <= log && cmpSeq <= |completions|
        decreases |completions| - cmpSeq
      {
        WorkersRun(None);
        DrainOne();
      }
      Service();
    }

    method AdvanceTail()
      requires Busy(None) && inSeq == |arrivals|
      modifies this`tailSeq
      ensures Busy(None) && old(tailSeq) <= tailSeq <= inSeq
      ensures tailSeq < inSeq ==> LiveId(reorder.slots[..], tailSeq)
    {
      while tailSeq < inSeq && reorder.slots[tailSeq % reorder.depth].status == Empty
        invariant Busy(None) && old(tailSeq) <= tailSeq <= inSeq
      {
        TailSlot(reorder.slots[..], tailSeq, inSeq);
        tailSeq := tailSeq + 1;
      }
      if tailSeq < inSeq {
        TailSlot(reorder.slots[..], tailSeq, inSeq);
      }
    }

    /** Parks the next published event in its own slot, under whatever mask it was given. */
    method AdmitNext(mask: TagMask)
      requires Busy(None) && inSeq == |arrivals| < |input| && inSeq - tailSeq < reorder.depth
      modifies parked, reorder.slots, reorder.blockedBy, this`arrivals
      ensures Busy(None) && arrivals == old(arrivals) + [Arrival(input[inSeq], mask)]
      ensures reorder.slots[..] == old(reorder.slots[..])[inSeq % reorder.depth := GapSlot(inSeq, mask, Pending, 0)]
    {
      hide Good, CompletionsDue, SlotsMatch, Exact;
      ghost var e := View();
      var event := input[inSeq];
      NextSlotIsFree(e.slots, tailSeq, inSeq);
      AdmitKeepsWindow(e.slots, tailSeq, inSeq, completions, cmpSeq, mask);
      AdmitKeepsGood(e, Arrival(event, mask));
      parked[inSeq % reorder.depth] := event;
      assert reorder.slots[..] == e.slots;
      reorder.Acquire(inSeq, mask);
      arrivals := arrivals + [Arrival(event, mask)];
      assert parked[..] == e.parked[inSeq % reorder.depth := event];
      assert View() == Admit(e, Arrival(event, mask));
    }

    /** Admission: the next event is parked, then launched at once unless an earlier live event
        conflicts with it. */
    method AdmitAndLaunch(mask: TagMask)
      requires Busy(None) && inSeq == |arrivals| < |input| && inSeq - tailSeq < reorder.depth
      modifies parked, reorder.slots, reorder.blockedBy, this`arrivals, this`log, this`blockedAdmissions
      ensures Busy(None) && arrivals == old(arrivals) + [Arrival(input[inSeq], mask)] && old(log) <= log
      ensures blockedAdmissions == old(blockedAdmissions) + if old(Obstructed(reorder.slots[..], mask)) then 1 else 0
    {
      hide Good, CompletionsDue, InsideOne, SlotsMatch, Completed, Posted;
      ghost var e := View();
      NextSlotIsFree(e.slots, tailSeq, inSeq);
      BlockedMeansConflict(e.slots, inSeq, mask);
      AdmitNext(mask);
      WorkersRun(None);
      var blocked := reorder.Blocked(inSeq);
      if !blocked {
        var _ := LaunchSlot(inSeq);
      } else {
        blockedAdmissions := blockedAdmissions + 1;
      }
    }

    /** The second half of a turn: one event admitted, and the fixpoint run. */
    method AdmitAndService(mask: TagMask)
      requires Valid() && inSeq < |input| && inSeq - tailSeq < reorder.depth
      requires Quiet(reorder.slots[..], reorder.blockedBy[..])
      modifies parked, reorder.slots, reorder.blockedBy, this`arrivals, this`log, this`blockedAdmissions, this`inSeq
      ensures Valid() && Quiet(reorder.slots[..], reorder.blockedBy[..])
      ensures inSeq == old(inSeq) + 1 && old(log) <= log
      ensures arrivals == old(arrivals) + [Arrival(input[old(inSeq)], mask)]
      ensures blockedAdmissions == old(blockedAdmissions) + if old(Obstructed(reorder.slots[..], mask)) then 1 else 0
    {
      hide Good, CompletionsDue, InsideOne, Window, Completed, Posted;
      ghost var log0 := log;
      if Obstructed(reorder.slots[..], mask) {
        ConflictNeedsAsync(View(), reorder.blockedBy[..], mask);
      }
      AdmitAndLaunch(mask);
      Service();
      inSeq := inSeq + 1;
      if NoAsync(log) { PrefixHasNoAsync(log0, log); }
    }

    /** One turn of ordering_loop. It stalls exactly if the window is full, from the oldest event that is not
        over, and then it is waiting for a worker; it finds no input exactly if there is room and everything
        published is admitted; and otherwise it admits the next event. With handlers that never hand off, no
        turn stalls and no slot outlives the turn. */
    method TurnOnce() returns (turn: Turn)
      requires Valid()
      modifies parked, reorder.slots, reorder.blockedBy, this`arrivals, this`log, this`blockedAdmissions,
               this`inSeq, this`tailSeq, this`cmpSeq
      ensures Valid() && Quiet(reorder.slots[..], reorder.blockedBy[..]) && old(log) <= log
      ensures cmpSeq == |completions| && old(arrivals) <= arrivals
      ensures Completed(log) == Posted(completions)
      ensures turn == if old(inSeq) - tailSeq >= reorder.depth then Stalled else if old(inSeq) == |input| then NoInput else Admitted
      ensures turn == Stalled ==> LiveId(reorder.slots[..], tailSeq)
      ensures forall k: nat :: k < tailSeq ==> k < |arrivals| && LifeOf(log, k, arrivals[k].event) == Finished
      ensures inSeq == old(inSeq) + if turn == Admitted then 1 else 0
      ensures turn == Admitted ==> arrivals[|arrivals| - 1].event == input[old(inSeq)]
      ensures turn == Stalled ==> exists i :: 0 <= i < reorder.depth && reorder.slots[i].status == Running
      ensures NoAsync(log) ==> turn != Stalled && forall i :: 0 <= i < reorder.depth ==> reorder.slots[i].status == Empty
    {
      hide Good, Window, CompletionsDue, InsideOne, Completed, Posted, LifeOf, Exact;
      DrainCompletions();
      if NoAsync(log) { PrefixHasNoAsync(old(log), log); }
      AdvanceTail();
      if inSeq - tailSeq >= reorder.depth {
        ghost var r := FullWindowHasRunning(View(), reorder.blockedBy[..], tailSeq);
        RunningWasAsync(View(), r);
        BehindTheTail(View(), tailSeq);
        return Stalled;
      }
      if inSeq == |input| {
        if NoAsync(log) { SyncIsIdle(View(), reorder.blockedBy[..]); }
        BehindTheTail(View(), tailSeq);
        return NoInput;
      }
      var mask: TagMask := *;
      AdmitAndService(mask);
      if NoAsync(log) { SyncIsIdle(View(), reorder.blockedBy[..]); }
      BehindTheTail(View(), tailSeq);
      return Admitted;
    }

    /** ANY RUN: any sequence of enqueues, completions and turns, with any handlers and masks, stays
        within `Valid` and only ever extends the history. What was enqueued before shutdown is let in, in order;
        and as long as no handler hands off, every turn admits an event if one is waiting. Wherever it stops,
        whatever state the program has reached, running the same steps event by event in arrival order reaches
        it too; and with every slot Empty, every admitted event has lived its whole life. */
    method Run<S(!new)>(script: seq<Action<Ev>>, ghost effect: Effect<Ev, S>)
      requires Valid()
      modifies Repr()
      ensures Valid() && old(log) <= log && old(arrivals) <= arrivals
      ensures input == old(input) + LetIn(script, old(isCleaningUp))
      ensures NoAsync(log) ==> |arrivals| == |old(arrivals)| + Tallied(script, old(Waiting())).admitted
      ensures SerialInEffect(View(), effect)
      ensures (forall i :: 0 <= i < reorder.depth ==> reorder.slots[i].status == Empty) ==> AllOver(View())
    {
      RunAny(script);
      GoodIsSerial(View(), effect);
      if forall i :: 0 <= i < reorder.depth ==> reorder.slots[i].status == Empty {
        EmptyIsOver(View());
      }
    }

    /** What a run starts from. */
    ghost function Waiting(): Tally
      reads this
    {
      Tally(if |arrivals| <= |input| then |input| - |arrivals| else 0, 0, isCleaningUp)
    }

    method RunAny(script: seq<Action<Ev>>)
      requires Valid()
      modifies Repr()
      ensures Valid() && old(log) <= log && old(arrivals) <= arrivals
      ensures input == old(input) + LetIn(script, old(isCleaningUp))
      ensures NoAsync(log) ==> |arrivals| == |old(arrivals)| + Tallied(script, old(Waiting())).admitted
    {
      hide Good, Window, CompletionsDue, InsideOne, SlotsMatch, Completed, Posted, NoAsync;
      assert script[..|script|] == script && script[..0] == [];
      for k := 0 to |script|
        invariant Valid() && old(log) <= log && old(arrivals) <= arrivals
        invariant isCleaningUp == (old(isCleaningUp) || BeginShutdown in script[..k])
        invariant input == old(input) + LetIn(script[..k], old(isCleaningUp))
        invariant NoAsync(log) ==> var t := Tallied(script[..k], old(Waiting()));
          |arrivals| == |old(arrivals)| + t.admitted && |input| - |arrivals| == t.waiting && t.closed == isCleaningUp
      {
        assert script[..k + 1][..k] == script[..k] && script[..k + 1] == script[..k] + [script[k]];
        RunOne(script[k]);
      }
    }

    /** One action of a run. A completion that no worker owes is not posted. */
    method RunOne(action: Action<Ev>)
      requires Valid()
      modifies Repr()
      ensures Valid() && old(log) <= log && old(arrivals) <= arrivals && (NoAsync(log) ==> NoAsync(old(log)))
      ensures isCleaningUp == (old(isCleaningUp) || action == BeginShutdown)
      ensures input == old(input) + if action.Enqueue? && !old(isCleaningUp) then [action.event] else []
      ensures NoAsync(log) ==>
        |arrivals| == |old(arrivals)| + if action == Loop && |old(arrivals)| < |old(input)| then 1 else 0
    {
      hide Good, Window, CompletionsDue, InsideOne, SlotsMatch, Completed, Posted;
      match action {
        case Enqueue(event) =>
          var _ := EnqueueEvent(event);
        case Post(completion) =>
          var due := AwaitsCompletion(reorder.slots[..], completion);
          var again := completion.Some? && !(forall c :: cmpSeq <= c < |completions| && completions[c].Some? ==>
            completions[c].value.originSeq != completion.value.originSeq);
          if due && !again { PostCompletion(completion); }
        case BeginShutdown =>
          isCleaningUp := true;
        case Loop =>
          var _ := TurnOnce();
          if NoAsync(log) { PrefixHasNoAsync(old(log), log); }
      }
    }
  }
}
