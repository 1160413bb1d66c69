/** No vehicle with a recorded limit is ever given more than it may carry. */
module OrderCapacity {
  import opened Prelude
  import opened OrderModel

  ghost predicate Within(b: Board) {
    forall v :: 0 <= v < |b.vehicles| && b.vehicles[v].limit.Some? ==> Load(b.orders, v) <= b.vehicles[v].limit.value
  }

  /** The two writers that skip the transition table and can bring a finished
      order back: a forced status, and closing a pickup stop. */
  predicate Revives(b: Board, e: Event) {
    match e
    case Force(id, to, reasoned) =>
      reasoned && id < |b.orders| && Terminal(b.orders[id].status) && !Terminal(to)
    case StopDone(id, kind) =>
      kind.Pickup? && id < |b.orders| && Terminal(b.orders[id].status)
    case _ => false
  }

  /** Whether the revived order still fits on the vehicle it was left on. */
  predicate Fits(b: Board, e: Event)
    requires Revives(b, e)
  {
    var o := b.orders[e.id];
    o.vehicle.Some? && o.vehicle.value < |b.vehicles| && b.vehicles[o.vehicle.value].limit.Some? ==>
      Load(b.orders, o.vehicle.value) + o.weight <= b.vehicles[o.vehicle.value].limit.value
  }

  lemma {:induction false} LoadGrowsByAtMost(a: seq<Order>, c: seq<Order>, v: nat, ids: set<nat>)
    requires |a| == |c|
    requires forall i :: 0 <= i < |a| ==> Carried(c[i], v) <= Carried(a[i], v) + (if i in ids then a[i].weight else 0)
    ensures Load(c, v) <= Load(a, v) + Weigh(a, ids)
  {
    if a != [] {
      var last := |a| - 1;
      LoadGrowsByAtMost(a[..last], c[..last], v, ids);
    }
  }

  lemma {:induction false} WeighNothing(a: seq<Order>)
    ensures Weigh(a, {}) == 0
  {
    if a != [] { WeighNothing(a[..|a| - 1]); }
  }

  lemma {:induction false} LoadAfterOneChange(a: seq<Order>, id: nat, o: Order, v: nat)
    requires id < |a|
    ensures Load(a[id := o], v) == Load(a, v) - Carried(a[id], v) + Carried(o, v)
  {
    var last := |a| - 1;
    if id == last {
      assert a[id := o][..last] == a[..last];
    } else {
      assert a[id := o][..last] == a[..last][id := o];
      LoadAfterOneChange(a[..last], id, o, v);
    }
  }

  /** What one row adds to a vehicle's load after a write that is neither a
      reassignment nor a revival. */
  lemma RowAddsOnlyByAssignment(o: Order, re: RowEvent, now: int, v: nat)
    requires RowReady(o, re, now) && !re.RReassign?
    requires Terminal(o.status) && (re.RForce? || re.RStopDone?) ==> Terminal(re.to)
    ensures Carried(Row(o, re), v) <= Carried(o, v) + (if re.RAssign? && re.vehicle == v then o.weight else 0)
  {
  }

  /** The rows an assignment puts on vehicle `v`. */
  function AddedTo(b: Board, e: Event, v: nat): set<nat>
    requires Commits(b, e)
  {
    if e.Assign? && VehicleOf(b.vehicles, e.driver) == Some(v) then Effect(b, e).0 else {}
  }

  lemma RowAddsAtMost(b: Board, e: Event, v: nat, i: nat)
    requires !Revives(b, e) && Commits(b, e) && !e.Reassign? && i < |b.orders|
    ensures var (ids, re) := Effect(b, e);
            Carried(Touch(b.orders, ids, re)[i], v)
            <= Carried(b.orders[i], v) + (if i in AddedTo(b, e, v) then b.orders[i].weight else 0)
  {
    CommittedRowsWereReady(b, e);
    var ids, re := Effect(b, e).0, Effect(b, e).1;
    if i in ids { RowAddsOnlyByAssignment(b.orders[i], re, b.now, v); }
  }

  lemma LoadAfterOthers(b: Board, e: Event, v: nat)
    requires Within(b) && !Revives(b, e) && Commits(b, e) && !e.Reassign?
    requires v < |b.vehicles| && b.vehicles[v].limit.Some?
    ensures Load(Touch(b.orders, Effect(b, e).0, Effect(b, e).1), v) <= b.vehicles[v].limit.value
  {
    var after := Touch(b.orders, Effect(b, e).0, Effect(b, e).1);
    forall i | 0 <= i < |b.orders|
      ensures Carried(after[i], v) <= Carried(b.orders[i], v)
                + (if i in AddedTo(b, e, v) then b.orders[i].weight else 0)
    {
      RowAddsAtMost(b, e, v, i);
    }
    LoadGrowsByAtMost(b.orders, after, v, AddedTo(b, e, v));
    WeighNothing(b.orders);
  }

  lemma LoadAfterReassign(b: Board, e: Event, v: nat)
    requires Within(b) && e.Reassign? && Commits(b, e)
    requires v < |b.vehicles| && b.vehicles[v].limit.Some?
    ensures Load(Next(b, e).orders, v) <= b.vehicles[v].limit.value
  {
    var o := b.orders[e.id];
    var re := Effect(b, e).1;
    TouchingOneRow(b.orders, e.id, re);
    LoadAfterOneChange(b.orders, e.id, Row(o, re), v);
    LoadAfterOneChange(b.orders, e.id, o.(vehicle := None), v);
  }

  lemma RevivalCommits(b: Board, e: Event)
    requires Revives(b, e)
    ensures Commits(b, e) && Effect(b, e).0 == {e.id}
    ensures Effect(b, e).1 == if e.Force? then RForce(e.status) else RStopDone(PickedUp)
  {
  }

  lemma RevivedRow(o: Order, to: Status, re: RowEvent)
    requires Terminal(o.status) && !Terminal(to) && (re == RForce(to) || re == RStopDone(to))
    ensures Row(o, re).status == to && Row(o, re).vehicle == o.vehicle && Row(o, re).weight == o.weight
  {
  }

  lemma LoadAfterRevival(b: Board, e: Event, v: nat)
    requires Revives(b, e)
    ensures Load(Next(b, e).orders, v) == Load(b.orders, v)
              + if b.orders[e.id].vehicle == Some(v) then b.orders[e.id].weight else 0
  {
    var o := b.orders[e.id];
    RevivalCommits(b, e);
    var re := Effect(b, e).1;
    RevivedRow(o, if e.Force? then e.status else PickedUp, re);
    var after := Row(o, re);
    TouchingOneRow(b.orders, e.id, re);
    LoadAfterOneChange(b.orders, e.id, after, v);
  }

  /** Capacity is kept by every transaction, except that bringing a finished
      order back keeps it exactly when that order still fits. */
  lemma StepKeepsCapacityIff(b: Board, e: Event)
    requires Within(b)
    ensures Within(Next(b, e)) <==> (Revives(b, e) ==> Fits(b, e))
  {
    if Revives(b, e) {
      forall v: nat { LoadAfterRevival(b, e, v); }
    } else {
      forall v | 0 <= v < |b.vehicles| && b.vehicles[v].limit.Some?
        ensures Load(Next(b, e).orders, v) <= b.vehicles[v].limit.value
      {
        if e.Reassign? && Commits(b, e) { LoadAfterReassign(b, e, v); }
        else if Commits(b, e) { LoadAfterOthers(b, e, v); }
        else if e.Create? { assert Next(b, e).orders[..|b.orders|] == b.orders; }
      }
    }
  }

  /** Over a whole run: no overloaded vehicle as long as nothing that no longer
      fits is brought back. */
  lemma {:induction false} CapacityHoldsOverEveryRun(b: Board, es: seq<Event>)
    requires Within(b)
    requires forall k :: 0 <= k < |es| && Revives(Run(b, es[..k]), es[k]) ==> Fits(Run(b, es[..k]), es[k])
    ensures Within(Run(b, es))
  {
    if es != [] {
      var last := |es| - 1;
      forall k | 0 <= k < last && Revives(Run(b, es[..last][..k]), es[..last][k])
        ensures Fits(Run(b, es[..last][..k]), es[..last][k])
      {
        assert es[..last][..k] == es[..k];
      }
      CapacityHoldsOverEveryRun(b, es[..last]);
      StepKeepsCapacityIff(Run(b, es[..last]), es[last]);
    }
  }

  /** A run that does overload one: deliver, load the room that left, and force
      the delivered order back onto the road. */
  lemma ForcedRevivalOverloads(o: Order, p: Order, limit: nat)
    requires o.vehicle == p.vehicle == Some(0) && o.status.Delivered? && !Terminal(p.status)
    requires p.weight <= limit < o.weight + p.weight
    ensures var b := Board([o, p], [Vehicle(Some(limit), None)], 0);
            Within(b) && !Within(Next(b, Force(0, InTransit, true)))
  {
    var b := Board([o, p], [Vehicle(Some(limit), None)], 0);
    assert b.orders[..1] == [o] && b.orders[..1][..0] == [];
    assert Load(b.orders, 0) == Load(b.orders[..1], 0) + Carried(p, 0);
    assert Load(b.orders[..1], 0) == Load(b.orders[..1][..0], 0) + Carried(o, 0);
    StepKeepsCapacityIff(b, Force(0, InTransit, true));
  }
}
