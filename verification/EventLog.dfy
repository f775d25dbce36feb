/** The observable history of one event stream (core/EventStream.h), and what any history that keeps
    conflicting events apart is worth.

    Every event carries its arrival number `id`. The history records the start of its handler, the
    handler's own micro-steps and those of a worker it handed its work to, the handler's return, the
    draining of an asynchronous completion, and the commit (`on_emit`). */
module EventLog {

  /** A tag mask is the set of its bit indices; two events conflict when their masks share a bit. */
  type TagMask = set<nat>

  /** How a handler left its event: finished, handed to a worker, or with nothing to order. */
  datatype Outcome = Inline(result: nat) | Async | Drop

  datatype Step<Ev> =
    | Start(id: nat, event: Ev)
    | Work(id: nat, detail: nat)
    | Return(id: nat, outcome: Outcome)
    | Finish(id: nat, result: nat)
    | Emit(id: nat, result: nat)

  datatype Arrival<Ev> = Arrival(event: Ev, mask: TagMask)

  /** Where one event stands. `Broken` is reached by any step out of turn. */
  datatype Life = Waiting | Handling | HandedOff | Done(result: nat) | Finished | Broken

  ghost function Advance<Ev>(life: Life, step: Step<Ev>, event: Ev): Life {
    match step
    case Start(_, e) => if life == Waiting && e == event then Handling else Broken
    case Work(_, _) => if life == Handling || life == HandedOff then life else Broken
    case Return(_, o) =>
      if life != Handling then Broken
      else match o {
        case Inline(r) => Done(r)
        case Async => HandedOff
        case Drop => Finished
      }
    case Finish(_, r) => if life == HandedOff then Done(r) else Broken
    case Emit(_, r) => if life == Done(r) then Finished else Broken
  }

  /** The life of event `id`, which arrived as `event`, after the history `log`. */
  ghost function LifeOf<Ev>(log: seq<Step<Ev>>, id: nat, event: Ev): Life {
    if log == [] then Waiting
    else
      var before := LifeOf(log[..|log| - 1], id, event);
      if log[|log| - 1].id == id then Advance(before, log[|log| - 1], event) else before
  }

  lemma LifeSnoc<Ev>(log: seq<Step<Ev>>, step: Step<Ev>, id: nat, event: Ev)
    ensures LifeOf(log + [step], id, event) ==
            if step.id == id then Advance(LifeOf(log, id, event), step, event) else LifeOf(log, id, event)
  {
    assert (log + [step])[..|log|] == log;
  }

  /** An event with any step in the history is no longer waiting. */
  lemma {:induction false} SteppedIsNotWaiting<Ev>(log: seq<Step<Ev>>, p: nat, event: Ev)
    requires p < |log|
    ensures LifeOf(log, log[p].id, event) != Waiting
  {
    if p < |log| - 1 {
      SteppedIsNotWaiting(log[..|log| - 1], p, event);
    }
  }

  // ---- What a finished life says about the history --------------------------------------------

  datatype Kind = StartKind | WorkKind | ReturnKind | FinishKind | EmitKind

  ghost function KindOf<Ev>(s: Step<Ev>): Kind {
    match s
    case Start(_, _) => StartKind
    case Work(_, _) => WorkKind
    case Return(_, _) => ReturnKind
    case Finish(_, _) => FinishKind
    case Emit(_, _) => EmitKind
  }

  /** How many steps of one kind the event took. */
  ghost function Count<Ev>(log: seq<Step<Ev>>, id: nat, kind: Kind): nat {
    if log == [] then 0
    else
      var s := log[|log| - 1];
      Count(log[..|log| - 1], id, kind) + (if s.id == id && KindOf(s) == kind then 1 else 0)
  }

  /** The handler of `id` returned, and if it handed off, the completion was drained: its work is over. */
  ghost predicate HandlerOver<Ev>(log: seq<Step<Ev>>, id: nat) {
    exists p :: 0 <= p < |log| && log[p].id == id
      && ((log[p].Return? && log[p].outcome != Async) || log[p].Finish?)
  }

  ghost predicate Dropped<Ev>(log: seq<Step<Ev>>, id: nat) {
    exists p :: 0 <= p < |log| && log[p].id == id && log[p].Return? && log[p].outcome == Drop
  }

  /** What the automaton's state says about the history behind it. */
  ghost predicate Accounted<Ev>(log: seq<Step<Ev>>, id: nat, event: Ev) {
    var life := LifeOf(log, id, event);
    && (forall p :: 0 <= p < |log| && log[p].Start? && log[p].id == id ==> log[p].event == event)
    && (life == Waiting ==> Count(log, id, StartKind) == Count(log, id, ReturnKind) == Count(log, id, EmitKind) == Count(log, id, FinishKind) == 0
                            && !HandlerOver(log, id) && !Dropped(log, id))
    && (life == Handling ==> Count(log, id, StartKind) == 1 && Count(log, id, ReturnKind) == Count(log, id, EmitKind) == Count(log, id, FinishKind) == 0
                             && !HandlerOver(log, id) && !Dropped(log, id))
    && (life == HandedOff ==> Count(log, id, StartKind) == Count(log, id, ReturnKind) == 1 && Count(log, id, EmitKind) == Count(log, id, FinishKind) == 0
                              && !HandlerOver(log, id) && !Dropped(log, id))
    && (life.Done? ==> Count(log, id, StartKind) == Count(log, id, ReturnKind) == 1 && Count(log, id, EmitKind) == 0
                       && Count(log, id, FinishKind) <= 1 && HandlerOver(log, id) && !Dropped(log, id))
    && (life == Finished ==> Count(log, id, StartKind) == Count(log, id, ReturnKind) == 1 && Count(log, id, FinishKind) <= 1
                             && HandlerOver(log, id)
                             && Count(log, id, EmitKind) == (if Dropped(log, id) then 0 else 1))
  }

  /** Exactly-once dispatch and commit: an unbroken life accounts for every step of the event. It is
      started once, with its own event; it returns once; and it is committed exactly once, unless its
      handler dropped it, in which case it is never committed. */
  lemma {:induction false} LifeAccounts<Ev>(log: seq<Step<Ev>>, id: nat, event: Ev)
    requires LifeOf(log, id, event) != Broken
    ensures Accounted(log, id, event)
  {
    if log != [] {
      var init, s := log[..|log| - 1], log[|log| - 1];
      assert log == init + [s];
      LifeAccounts(init, id, event);
      forall p | 0 <= p < |init| ensures init[p] == log[p] {}
      assert HandlerOver(init, id) ==> HandlerOver(log, id) by {
        if HandlerOver(init, id) {
          var p :| 0 <= p < |init| && init[p].id == id && ((init[p].Return? && init[p].outcome != Async) || init[p].Finish?);
          assert log[p] == init[p];
        }
      }
      assert Dropped(init, id) ==> Dropped(log, id) by {
        if Dropped(init, id) {
          var p :| 0 <= p < |init| && init[p].id == id && init[p].Return? && init[p].outcome == Drop;
          assert log[p] == init[p];
        }
      }
    }
  }

  /** Every commit comes after the handler's work is over, and hands on the result that ended it. */
  lemma {:induction false} EmitAfterHandler<Ev>(log: seq<Step<Ev>>, id: nat, event: Ev, q: nat)
    requires LifeOf(log, id, event) != Broken
    requires q < |log| && log[q].Emit? && log[q].id == id
    ensures exists p :: 0 <= p < q && log[p].id == id
              && (log[p] == Return(id, Inline(log[q].result)) || log[p] == Finish(id, log[q].result))
  {
    var init := log[..|log| - 1];
    if q < |init| {
      EmitAfterHandler(init, id, event, q);
      var p :| 0 <= p < q && init[p].id == id
        && (init[p] == Return(id, Inline(init[q].result)) || init[p] == Finish(id, init[q].result));
      assert log[p] == init[p];
    } else {
      var p := DoneCause(init, id, event);
      assert log[p] == init[p];
    }
  }

  lemma {:induction false} DoneCause<Ev>(log: seq<Step<Ev>>, id: nat, event: Ev) returns (p: nat)
    requires LifeOf(log, id, event).Done?
    ensures p < |log| && log[p].id == id
    ensures var r := LifeOf(log, id, event).result; log[p] == Return(id, Inline(r)) || log[p] == Finish(id, r)
  {
    var init := log[..|log| - 1];
    if log[|log| - 1].id == id {
      p := |log| - 1;
    } else {
      p := DoneCause(init, id, event);
      assert log[p] == init[p];
    }
  }

  // ---- Conflict order ---------------------------------------------------------------------------

  ghost predicate Meets<Ev>(arrivals: seq<Arrival<Ev>>, i: nat, j: nat)
    requires i < |arrivals| && j < |arrivals|
  {
    arrivals[i].mask * arrivals[j].mask != {}
  }

  ghost predicate IdsBelow<Ev>(log: seq<Step<Ev>>, n: nat) {
    forall p :: 0 <= p < |log| ==> log[p].id < n
  }

  /** No step of a later arrival precedes a step of an earlier one it conflicts with. */
  ghost predicate Ordered<Ev>(log: seq<Step<Ev>>, arrivals: seq<Arrival<Ev>>)
    requires IdsBelow(log, |arrivals|)
  {
    forall p, q :: 0 <= p < q < |log| && Meets(arrivals, log[p].id, log[q].id) ==> log[p].id <= log[q].id
  }

  /** Under masks that all share a bit -- the default all() mask -- the stream is a queue: the whole
      history runs event by event in arrival order, and so do its commits. */
  lemma AllMasksMakeAQueue<Ev>(log: seq<Step<Ev>>, arrivals: seq<Arrival<Ev>>, bit: nat)
    requires IdsBelow(log, |arrivals|) && Ordered(log, arrivals)
    requires forall k :: 0 <= k < |arrivals| ==> bit in arrivals[k].mask
    ensures forall p, q :: 0 <= p < q < |log| ==> log[p].id <= log[q].id
  {
    forall p, q | 0 <= p < q < |log|
      ensures log[p].id <= log[q].id
    {
      assert bit in arrivals[log[p].id].mask * arrivals[log[q].id].mask;
    }
  }

  // ---- Serializability --------------------------------------------------------------------------

  /** The effect of a step on the program state: any relation, so a step may be nondeterministic and
      its label (the outcome, the result handed on) may depend on the state it ran in. */
  type Effect<!Ev, !S> = (Step<Ev>, S, S) -> bool

  ghost predicate Runs<Ev, S>(effect: Effect<Ev, S>, x: Step<Ev>, s: S, t: S) {
    effect(x, s, t)
  }

  ghost function Init<T>(xs: seq<T>): seq<T> requires xs != [] { xs[..|xs| - 1] }

  ghost function Last<T>(xs: seq<T>): T requires xs != [] { xs[|xs| - 1] }

  /** The whole history can take the program from s to t. */
  ghost predicate Exec<Ev, S(!new)>(log: seq<Step<Ev>>, effect: Effect<Ev, S>, s: S, t: S)
    decreases |log|
  {
    if log == [] then s == t
    else exists u: S :: Exec(Init(log), effect, s, u) && Runs(effect, Last(log), u, t)
  }

  /** Step b, run after a, could as well have run before it. */
  ghost predicate Swappable<Ev, S(!new)>(effect: Effect<Ev, S>, a: Step<Ev>, b: Step<Ev>) {
    forall s: S, t: S, u: S :: Runs(effect, a, s, t) && Runs(effect, b, t, u) ==>
      exists v: S :: Runs(effect, b, s, v) && Runs(effect, a, v, u)
  }

  /** Steps of two events whose masks share no bit commute. */
  ghost predicate IndependentCommute<Ev(!new), S(!new)>(arrivals: seq<Arrival<Ev>>, effect: Effect<Ev, S>) {
    forall a: Step<Ev>, b: Step<Ev> {:trigger Swappable(effect, a, b)} ::
      a.id < |arrivals| && b.id < |arrivals| && a.id != b.id && !Meets(arrivals, a.id, b.id)
      ==> Swappable(effect, a, b)
  }

  ghost function OnlyBelow<Ev>(log: seq<Step<Ev>>, n: nat): (r: seq<Step<Ev>>)
    ensures IdsBelow(r, n)
  {
    if log == [] then []
    else
      var r := OnlyBelow(log[..|log| - 1], n);
      if log[|log| - 1].id < n then r + [log[|log| - 1]] else r
  }

  ghost function OnlyOf<Ev>(log: seq<Step<Ev>>, id: nat): (r: seq<Step<Ev>>)
    ensures forall p :: 0 <= p < |r| ==> r[p].id == id
  {
    if log == [] then []
    else
      var r := OnlyOf(log[..|log| - 1], id);
      if log[|log| - 1].id == id then r + [log[|log| - 1]] else r
  }

  /** One event after another, in arrival order, each keeping the order of its own steps. */
  ghost function Serial<Ev>(log: seq<Step<Ev>>, n: nat): seq<Step<Ev>> {
    if n == 0 then [] else Serial(log, n - 1) + OnlyOf(log, n - 1)
  }

  lemma ExecSnoc<Ev, S(!new)>(log: seq<Step<Ev>>, x: Step<Ev>, effect: Effect<Ev, S>, s: S, u: S, t: S)
    requires Exec(log, effect, s, u) && Runs(effect, x, u, t)
    ensures Exec(log + [x], effect, s, t)
  {
    var l := log + [x];
    assert Init(l) == log && Last(l) == x;
    assert Exec(Init(l), effect, s, u) && Runs(effect, Last(l), u, t);
  }

  lemma {:induction false} ExecConcat<Ev, S(!new)>(a: seq<Step<Ev>>, b: seq<Step<Ev>>, effect: Effect<Ev, S>, s: S, u: S, t: S)
    requires Exec(a, effect, s, u) && Exec(b, effect, u, t)
    ensures Exec(a + b, effect, s, t)
    decreases |b|
  {
    if b == [] {
      assert a + b == a;
    } else {
      var init, x := b[..|b| - 1], b[|b| - 1];
      var v :| Exec(init, effect, u, v) && Runs(effect, x, v, t);
      ExecConcat(a, init, effect, s, u, v);
      ExecSnoc(a + init, x, effect, s, v, t);
      assert a + init + [x] == a + b;
    }
  }

  lemma {:induction false} ExecSplit<Ev, S(!new)>(a: seq<Step<Ev>>, b: seq<Step<Ev>>, effect: Effect<Ev, S>, s: S, t: S)
    returns (u: S)
    requires Exec(a + b, effect, s, t)
    ensures Exec(a, effect, s, u) && Exec(b, effect, u, t)
    decreases |b|
  {
    if b == [] {
      assert a + b == a;
      u := t;
    } else {
      var init, x := b[..|b| - 1], b[|b| - 1];
      assert (a + b)[..|a + b| - 1] == a + init;
      var v :| Exec(a + init, effect, s, v) && Runs(effect, x, v, t);
      u := ExecSplit(a, init, effect, s, v);
      ExecSnoc(init, x, effect, u, v, t);
      assert init + [x] == b;
    }
  }

  /** A step moves to the front of a run of steps it is independent of. */
  lemma {:induction false} MoveEarlier<Ev(!new), S(!new)>(
      arrivals: seq<Arrival<Ev>>, effect: Effect<Ev, S>, run: seq<Step<Ev>>, x: Step<Ev>, s: S, u: S, t: S)
    requires IndependentCommute(arrivals, effect)
    requires Exec(run, effect, s, u) && Runs(effect, x, u, t)
    requires x.id < |arrivals|
    requires forall p :: 0 <= p < |run| ==>
      run[p].id < |arrivals| && run[p].id != x.id && !Meets(arrivals, run[p].id, x.id)
    ensures Exec([x] + run, effect, s, t)
  {
    if run == [] {
      assert [x] + run == [] + [x];
      assert Exec([], effect, s, s);
      ExecSnoc([], x, effect, s, s, t);
    } else {
      var init, y := run[..|run| - 1], run[|run| - 1];
      var w :| Exec(init, effect, s, w) && Runs(effect, y, w, u);
      assert Swappable(effect, y, x);
      var v: S :| Runs(effect, x, w, v) && Runs(effect, y, v, t);
      MoveEarlier(arrivals, effect, init, x, s, w, v);
      ExecSnoc([x] + init, y, effect, s, v, t);
      assert [x] + init + [y] == [x] + run;
    }
  }

  /** A step of an earlier arrival that follows the steps `own` of a later one is independent of them. */
  lemma OwnAreIndependent<Ev>(init: seq<Step<Ev>>, x: Step<Ev>, arrivals: seq<Arrival<Ev>>, id: nat)
    requires IdsBelow(init + [x], |arrivals|) && Ordered(init + [x], arrivals) && x.id < id < |arrivals|
    ensures forall p :: 0 <= p < |OnlyOf(init, id)| ==>
      OnlyOf(init, id)[p].id < |arrivals| && OnlyOf(init, id)[p].id != x.id
      && !Meets(arrivals, OnlyOf(init, id)[p].id, x.id)
  {
    var own, log := OnlyOf(init, id), init + [x];
    OnlyOfIsPart(init, id);
    forall p | 0 <= p < |own|
      ensures !Meets(arrivals, own[p].id, x.id)
    {
      assert own[p] in init;
      var k :| 0 <= k < |init| && init[k] == own[p];
      assert log[k] == own[p] && log[|init|] == x;
    }
  }

  lemma EarlierStepMovesUp<Ev(!new), S(!new)>(
      init: seq<Step<Ev>>, x: Step<Ev>, arrivals: seq<Arrival<Ev>>, effect: Effect<Ev, S>, id: nat, s: S, u: S, t: S)
    requires IdsBelow(init + [x], |arrivals|) && Ordered(init + [x], arrivals) && x.id < id < |arrivals|
    requires IndependentCommute(arrivals, effect)
    requires Exec(OnlyBelow(init, id) + OnlyOf(init, id), effect, s, u) && Runs(effect, x, u, t)
    ensures Exec(OnlyBelow(init, id) + [x] + OnlyOf(init, id), effect, s, t)
  {
    var low, own := OnlyBelow(init, id), OnlyOf(init, id);
    assert x.id < |arrivals| by { assert (init + [x])[|init|] == x; }
    var w := ExecSplit(low, own, effect, s, u);
    OwnAreIndependent(init, x, arrivals, id);
    MoveEarlier(arrivals, effect, own, x, w, u, t);
    ExecConcat(low, [x] + own, effect, s, w, t);
    assert low + ([x] + own) == low + [x] + own;
  }

  /** The latest arrival's steps can all be run last. */
  lemma {:induction false} LatestLast<Ev(!new), S(!new)>(
      log: seq<Step<Ev>>, arrivals: seq<Arrival<Ev>>, effect: Effect<Ev, S>, id: nat, s: S, t: S)
    requires id < |arrivals|
    requires IdsBelow(log, id + 1) && IdsBelow(log, |arrivals|) && Ordered(log, arrivals)
    requires IndependentCommute(arrivals, effect)
    requires Exec(log, effect, s, t)
    ensures Exec(OnlyBelow(log, id) + OnlyOf(log, id), effect, s, t)
    decreases |log|
  {
    hide *;
    if log == [] {
      NothingToMove(log, effect, id, s, t);
    } else {
      var u := LastRuns(log, effect, s, t);
      InitOrdered(log, arrivals, id);
      LatestLast(Init(log), arrivals, effect, id, s, u);
      LatestStep(log, arrivals, effect, id, s, u, t);
    }
  }

  lemma NothingToMove<Ev(!new), S(!new)>(log: seq<Step<Ev>>, effect: Effect<Ev, S>, id: nat, s: S, t: S)
    requires log == [] && Exec(log, effect, s, t)
    ensures Exec(OnlyBelow(log, id) + OnlyOf(log, id), effect, s, t)
  {
    assert OnlyBelow(log, id) + OnlyOf(log, id) == log;
  }

  lemma LastRuns<Ev(!new), S(!new)>(log: seq<Step<Ev>>, effect: Effect<Ev, S>, s: S, t: S) returns (u: S)
    requires log != [] && Exec(log, effect, s, t)
    ensures |Init(log)| < |log| && Exec(Init(log), effect, s, u) && Runs(effect, Last(log), u, t)
  {
    u :| Exec(Init(log), effect, s, u) && Runs(effect, Last(log), u, t);
  }

  lemma InitOrdered<Ev>(log: seq<Step<Ev>>, arrivals: seq<Arrival<Ev>>, id: nat)
    requires log != [] && IdsBelow(log, id + 1) && IdsBelow(log, |arrivals|) && Ordered(log, arrivals)
    ensures IdsBelow(Init(log), id + 1) && IdsBelow(Init(log), |arrivals|) && Ordered(Init(log), arrivals)
  {}

  lemma LatestStep<Ev(!new), S(!new)>(
      log: seq<Step<Ev>>, arrivals: seq<Arrival<Ev>>, effect: Effect<Ev, S>, id: nat, s: S, u: S, t: S)
    requires log != [] && id < |arrivals| && IdsBelow(log, id + 1) && IdsBelow(log, |arrivals|) && Ordered(log, arrivals)
    requires IndependentCommute(arrivals, effect)
    requires Exec(OnlyBelow(Init(log), id) + OnlyOf(Init(log), id), effect, s, u) && Runs(effect, Last(log), u, t)
    ensures Exec(OnlyBelow(log, id) + OnlyOf(log, id), effect, s, t)
  {
    hide Exec, Ordered, IndependentCommute;
    var init, x := Init(log), Last(log);
    assert log == init + [x];
    if x.id == id {
      ExecSnoc(OnlyBelow(init, id) + OnlyOf(init, id), x, effect, s, u, t);
      assert OnlyBelow(log, id) + OnlyOf(log, id) == OnlyBelow(init, id) + OnlyOf(init, id) + [x];
    } else {
      EarlierStepMovesUp(init, x, arrivals, effect, id, s, u, t);
    }
  }

  lemma {:induction false} OnlyOfIsPart<Ev>(log: seq<Step<Ev>>, id: nat)
    ensures forall x :: x in OnlyOf(log, id) ==> x in log
  {
    if log != [] {
      OnlyOfIsPart(log[..|log| - 1], id);
    }
  }

  lemma {:induction false} OnlyBelowIsPart<Ev>(log: seq<Step<Ev>>, n: nat)
    ensures forall x :: x in OnlyBelow(log, n) ==> x in log
  {
    if log != [] {
      OnlyBelowIsPart(log[..|log| - 1], n);
    }
  }

  /** Restricting a history to the arrivals below n keeps each event's own steps. */
  lemma {:induction false} BelowKeepsOwn<Ev>(log: seq<Step<Ev>>, n: nat, id: nat)
    requires id < n
    ensures OnlyOf(OnlyBelow(log, n), id) == OnlyOf(log, id)
  {
    if log != [] {
      var init, x := log[..|log| - 1], log[|log| - 1];
      BelowKeepsOwn(init, n, id);
      var r := OnlyBelow(init, n);
      assert (r + [x])[..|r|] == r;
    }
  }

  /** ... and keeps it ordered. */
  lemma {:induction false} BelowKeepsOrder<Ev>(log: seq<Step<Ev>>, arrivals: seq<Arrival<Ev>>, n: nat)
    requires IdsBelow(log, |arrivals|) && Ordered(log, arrivals)
    ensures IdsBelow(OnlyBelow(log, n), |arrivals|) && Ordered(OnlyBelow(log, n), arrivals)
  {
    if log != [] {
      var init, x := log[..|log| - 1], log[|log| - 1];
      BelowKeepsOrder(init, arrivals, n);
      if x.id < n {
        var r := OnlyBelow(init, n);
        OnlyBelowIsPart(init, n);
        forall p | 0 <= p < |r|
          ensures Meets(arrivals, r[p].id, x.id) ==> r[p].id <= x.id
        {
          assert r[p] in init;
          var k :| 0 <= k < |init| && init[k] == r[p];
          assert log[k] == r[p] && log[|log| - 1] == x;
        }
        assert OnlyBelow(log, n) == r + [x];
        OrderedSnoc(r, x, arrivals);
      }
    }
  }

  lemma OrderedSnoc<Ev>(log: seq<Step<Ev>>, x: Step<Ev>, arrivals: seq<Arrival<Ev>>)
    requires IdsBelow(log, |arrivals|) && Ordered(log, arrivals) && x.id < |arrivals|
    requires forall p :: 0 <= p < |log| && Meets(arrivals, log[p].id, x.id) ==> log[p].id <= x.id
    ensures IdsBelow(log + [x], |arrivals|) && Ordered(log + [x], arrivals)
  {
    var l := log + [x];
    forall p, q | 0 <= p < q < |l| && Meets(arrivals, l[p].id, l[q].id)
      ensures l[p].id <= l[q].id
    {
      assert l[p] == log[p];
      if q < |log| { assert l[q] == log[q]; }
    }
  }

  lemma {:induction false} SerialOfBelow<Ev>(log: seq<Step<Ev>>, m: nat, n: nat)
    requires m <= n
    ensures Serial(OnlyBelow(log, n), m) == Serial(log, m)
  {
    if m > 0 {
      SerialOfBelow(log, m - 1, n);
      BelowKeepsOwn(log, n, m - 1);
    }
  }

  /** Peel the latest arrival off: the earlier ones run first, then all its steps. */
  lemma PeelLatest<Ev(!new), S(!new)>(
      log: seq<Step<Ev>>, arrivals: seq<Arrival<Ev>>, id: nat, effect: Effect<Ev, S>, s: S, t: S)
    returns (u: S)
    requires id < |arrivals| && IdsBelow(log, id + 1)
    requires IdsBelow(log, |arrivals|) && Ordered(log, arrivals)
    requires IndependentCommute(arrivals, effect)
    requires Exec(log, effect, s, t)
    ensures Exec(OnlyBelow(log, id), effect, s, u) && Exec(OnlyOf(log, id), effect, u, t)
    ensures IdsBelow(OnlyBelow(log, id), |arrivals|) && Ordered(OnlyBelow(log, id), arrivals)
  {
    LatestLast(log, arrivals, effect, id, s, t);
    u := ExecSplit(OnlyBelow(log, id), OnlyOf(log, id), effect, s, t);
    BelowKeepsOrder(log, arrivals, id);
  }

  /** SERIALIZABILITY. Whatever the masks and whatever the interleaving of handlers, workers and
      completions: if steps of events with non-intersecting masks commute, then every state the
      interleaved history can reach is also reached by running the events one by one in arrival order,
      each with the very steps, outcomes and results it had. */
  lemma {:induction false} Serializable<Ev(!new), S(!new)>(
      log: seq<Step<Ev>>, arrivals: seq<Arrival<Ev>>, n: nat, effect: Effect<Ev, S>, s: S, t: S)
    requires n <= |arrivals| && IdsBelow(log, n)
    requires IdsBelow(log, |arrivals|) && Ordered(log, arrivals)
    requires IndependentCommute(arrivals, effect)
    requires Exec(log, effect, s, t)
    ensures Exec(Serial(log, n), effect, s, t)
    decreases n
  {
    hide *;
    if n == 0 {
      NoneBelowZero(log);
      SerialZero(log, effect, s, t);
    } else {
      var u := PeelLatest(log, arrivals, n - 1, effect, s, t);
      OnlyBelowIsBelow(log, arrivals, n - 1);
      Serializable(OnlyBelow(log, n - 1), arrivals, n - 1, effect, s, u);
      SerialStep(log, n, effect, s, u, t);
    }
  }

  lemma SerialZero<Ev(!new), S(!new)>(log: seq<Step<Ev>>, effect: Effect<Ev, S>, s: S, t: S)
    requires log == [] && Exec(log, effect, s, t)
    ensures Exec(Serial(log, 0), effect, s, t)
  {
    assert Serial(log, 0) == log;
  }

  lemma SerialStep<Ev(!new), S(!new)>(log: seq<Step<Ev>>, n: nat, effect: Effect<Ev, S>, s: S, u: S, t: S)
    requires 0 < n && Exec(Serial(OnlyBelow(log, n - 1), n - 1), effect, s, u) && Exec(OnlyOf(log, n - 1), effect, u, t)
    ensures Exec(Serial(log, n), effect, s, t)
  {
    hide Exec, OnlyBelow, OnlyOf;
    SerialOfBelow(log, n - 1, n - 1);
    ExecConcat(Serial(log, n - 1), OnlyOf(log, n - 1), effect, s, u, t);
  }

  /** What is left below the latest arrival is an ordered history again. */
  lemma OnlyBelowIsBelow<Ev>(log: seq<Step<Ev>>, arrivals: seq<Arrival<Ev>>, m: nat)
    requires m <= |arrivals| && IdsBelow(log, |arrivals|) && Ordered(log, arrivals)
    ensures IdsBelow(OnlyBelow(log, m), m) && IdsBelow(OnlyBelow(log, m), |arrivals|) && Ordered(OnlyBelow(log, m), arrivals)
  {
    BelowKeepsOrder(log, arrivals, m);
    hide Ordered;
  }

  lemma {:induction false} PeelingLosesNothing<Ev>(log: seq<Step<Ev>>, id: nat)
    requires IdsBelow(log, id + 1)
    ensures multiset(OnlyBelow(log, id)) + multiset(OnlyOf(log, id)) == multiset(log)
  {
    if log != [] {
      var init, x := log[..|log| - 1], log[|log| - 1];
      PeelingLosesNothing(init, id);
      assert log == init + [x];
    }
  }

  lemma NoneBelowZero<Ev>(log: seq<Step<Ev>>)
    requires IdsBelow(log, 0)
    ensures log == []
  {
    assert |log| > 0 ==> log[0].id < 0;
  }

  lemma SerialOfNothing<Ev>(log: seq<Step<Ev>>)
    requires IdsBelow(log, 0)
    ensures multiset(Serial(log, 0)) == multiset(log)
  {
    NoneBelowZero(log);
    assert log == [] && Serial(log, 0) == [];
  }

  /** The serial history is a rearrangement of the whole one: no step is lost and none invented. */
  lemma {:induction false} SerialLosesNothing<Ev>(log: seq<Step<Ev>>, n: nat)
    requires IdsBelow(log, n)
    ensures multiset(Serial(log, n)) == multiset(log)
    decreases n
  {
    if n == 0 {
      SerialOfNothing(log);
    } else {
      var id := n - 1;
      var low := OnlyBelow(log, id);
      SerialLosesNothing(low, id);
      assert IdsBelow(log, id + 1);
      PeelingLosesNothing(log, id);
      SerialOfBelow(log, id, id);
      assert Serial(log, n) == Serial(log, id) + OnlyOf(log, id);
    }
  }

  /** In the serial history each event goes through exactly the life it had in the interleaved one. */
  lemma {:induction false} SerialKeepsLives<Ev>(log: seq<Step<Ev>>, id: nat, event: Ev)
    ensures LifeOf(OnlyOf(log, id), id, event) == LifeOf(log, id, event)
  {
    if log != [] {
      var init, x := log[..|log| - 1], log[|log| - 1];
      SerialKeepsLives(init, id, event);
      if x.id == id {
        LifeSnoc(OnlyOf(init, id), x, id, event);
      }
    }
  }
}
