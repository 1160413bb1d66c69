/** The order endpoints as transactions on a table they update in place.  Each
    one is proved to answer and to write exactly what `Refusal` and `Next` say,
    so that what is proved of runs of events holds of runs of these calls. */
module OrderTable {
  import opened Prelude
  import opened OrderModel

  function WeightOf(orders: seq<Order>, rows: seq<nat>): nat {
    if rows == [] then 0
    else
      var row := rows[|rows| - 1];
      WeightOf(orders, rows[..|rows| - 1]) + (if row < |orders| then orders[row].weight else 0)
  }

  lemma {:induction false} WeightOfPrefix(orders: seq<Order>, rows: seq<nat>, n: nat)
    requires n <= |orders| && forall k :: 0 <= k < |rows| ==> rows[k] < n
    ensures WeightOf(orders[..n], rows) == WeightOf(orders, rows)
  {
    if rows != [] { WeightOfPrefix(orders, rows[..|rows| - 1], n); }
  }

  /** Adding up the locked rows is weighing them in the table. */
  lemma {:induction false} WeightOfMatching(orders: seq<Order>, ids: seq<nat>, status: Status)
    ensures WeightOf(orders, Matching(orders, ids, status)) == Weigh(orders, Members(Matching(orders, ids, status)))
  {
    if orders != [] {
      var last := |orders| - 1;
      var rest := Matching(orders[..last], ids, status);
      var all := Matching(orders, ids, status);
      WeightOfMatching(orders[..last], ids, status);
      MatchingIs(orders[..last], ids, status);
      forall k | 0 <= k < |rest| ensures rest[k] < last { assert rest[k] in rest; }
      WeightOfPrefix(orders, rest, last);
      WeighSame(orders[..last], Members(rest), Members(all));
      if all != rest { assert all[..|all| - 1] == rest; }
    }
  }

  lemma {:induction false} WeighSame(orders: seq<Order>, a: set<nat>, b: set<nat>)
    requires forall i :: 0 <= i < |orders| ==> (i in a <==> i in b)
    ensures Weigh(orders, a) == Weigh(orders, b)
  {
    if orders != [] { WeighSame(orders[..|orders| - 1], a, b); }
  }

  lemma LockedWeight(orders: seq<Order>, ids: seq<nat>, status: Status)
    requires |Matching(orders, ids, status)| == |ids|
    ensures WeightOf(orders, Matching(orders, ids, status)) == Weigh(orders, Members(ids))
  {
    WeightOfMatching(orders, ids, status);
    CountingMeansEveryOne(orders, ids, status);
    MatchingIs(orders, ids, status);
    assert Members(Matching(orders, ids, status)) == Members(ids);
  }

  /** An assigned order before its log row is written. */
  function Seated(o: Order, driver: string, vehicle: nat): Order {
    o.(status := Assigned, driver := Some(driver), vehicle := Some(vehicle))
  }

  function WithLapse(o: Order): Order {
    o.(log := o.log + [Entry(Offered, Pending)])
  }

  /** A lapsed offer back on the board, before its log row is written. */
  function Released(o: Order): Order {
    o.(status := Pending, driver := None, offer := o.offer.End(Lapsed).(expires := None))
  }

  /** Releasing the lapsed offers and then logging them is what the sweep does to
      each row. */
  lemma SweptRows(b: Board, lapsed: seq<nat>, after: seq<Order>)
    requires |after| == |b.orders|
    requires forall k :: k in lapsed <==> 0 <= k < |b.orders| && SweepEnabled(b.orders[k], b.now)
    requires forall j :: 0 <= j < |after| ==>
               after[j] == if j in lapsed then WithLapse(Released(b.orders[j])) else b.orders[j]
    ensures after == Touch(b.orders, LapsedOffers(b), RLapse)
  {
    var swept := Touch(b.orders, LapsedOffers(b), RLapse);
    forall j | 0 <= j < |after| ensures after[j] == swept[j] {
      assert j in lapsed <==> j in LapsedOffers(b);
    }
  }

  lemma OfferCommit(b: Board, ids: seq<nat>, driver: string, registered: bool, minutes: Option<int>)
    requires Refusal(b, Offer(ids, driver, registered, minutes)).None?
    ensures Next(b, Offer(ids, driver, registered, minutes))
            == b.(orders := Touch(b.orders, Members(ids), ROffer(driver, b.now + OfferMinutes(minutes))))
  {
    RowsCommit(b, Offer(ids, driver, registered, minutes), Members(ids), ROffer(driver, b.now + OfferMinutes(minutes)));
  }

  class Table {
    var orders: seq<Order>
    var vehicles: seq<Vehicle>
    var now: int

    ghost function View(): Board
      reads this
    {
      Board(orders, vehicles, now)
    }

    constructor (vehicles: seq<Vehicle>, now: int)
      ensures View() == Board([], vehicles, now)
    {
      this.orders := [];
      this.vehicles := vehicles;
      this.now := now;
    }

    /** SELECT ... WHERE id = ANY(ids) AND status = ... FOR UPDATE. */
    method LockRows(ids: seq<nat>, status: Status) returns (rows: seq<nat>)
      ensures rows == Matching(orders, ids, status)
      ensures forall k :: 0 <= k < |rows| ==> rows[k] < |orders|
    {
      rows := [];
      for i := 0 to |orders|
        invariant rows == Matching(orders[..i], ids, status)
      {
        assert orders[..i + 1][..i] == orders[..i];
        if i in ids && orders[i].status == status { rows := rows + [i]; }
      }
      assert orders[..|orders|] == orders;
      MatchingIs(orders, ids, status);
      forall k | 0 <= k < |rows| ensures rows[k] < |orders| { assert rows[k] in rows; }
    }

    /** SELECT SUM(weight_kg) over the vehicle's unfinished orders, leaving one out. */
    method CurrentLoad(v: nat, leaveOut: Option<nat>) returns (total: nat)
      requires leaveOut.Some? ==> leaveOut.value < |orders|
      ensures total == match leaveOut
                       case None => Load(orders, v)
                       case Some(id) => Load(orders[id := orders[id].(vehicle := None)], v)
    {
      ghost var seen := if leaveOut.Some? then orders[leaveOut.value := orders[leaveOut.value].(vehicle := None)]
        else orders;
      total := 0;
      for i := 0 to |orders|
        invariant total == Load(seen[..i], v)
      {
        assert seen[..i + 1][..i] == seen[..i];
        if leaveOut != Some(i) && orders[i].vehicle == Some(v) && !Terminal(orders[i].status) {
          total := total + orders[i].weight;
        }
      }
      assert seen[..|orders|] == seen;
    }

    method FirstUnplaced(rows: seq<nat>) returns (found: bool)
      requires forall k :: 0 <= k < |rows| ==> rows[k] < |orders|
      ensures found <==> AnyUnplaced(orders, rows)
    {
      found := false;
      for k := 0 to |rows|
        invariant found <==> exists j :: 0 <= j < k && !orders[rows[j]].placed
      {
        if !orders[rows[k]].placed { found := true; }
      }
    }

    method TotalWeight(rows: seq<nat>) returns (total: nat)
      requires forall k :: 0 <= k < |rows| ==> rows[k] < |orders|
      ensures total == WeightOf(orders, rows)
    {
      total := 0;
      for k := 0 to |rows|
        invariant total == WeightOf(orders, rows[..k])
      {
        assert rows[..k + 1][..k] == rows[..k];
        total := total + orders[rows[k]].weight;
      }
      assert rows[..|rows|] == rows;
    }

    method WhyNotAssign(ids: seq<nat>, driver: string, clearance: Clearance) returns (code: Option<Code>)
      ensures code == AssignRefusal(View(), ids, driver, clearance)
    {
      if ids == [] || driver == "" { return Some(InvalidPayload); }
      if !clearance.registered { return Some(InvalidDriver); }
      var vehicle := VehicleOf(vehicles, driver);
      if vehicle.None? { return Some(NoVehicle); }
      if !clearance.verified { return Some(DriverUnverified); }
      if clearance.cashHeld { return Some(CashOwing); }

      var rows := LockRows(ids, Pending);
      if |rows| != |ids| { return Some(Conflict); }
      var unplaced := FirstUnplaced(rows);
      if unplaced { return Some(Unplaced); }

      var limit := vehicles[vehicle.value].limit;
      if limit.Some? {
        var added := TotalWeight(rows);
        LockedWeight(orders, ids, Pending);
        var carried := CurrentLoad(vehicle.value, None);
        if carried + added > limit.value { return Some(CapacityExceeded); }
      }
      return None;
    }

    method WriteAssignment(ids: seq<nat>, driver: string, vehicle: nat)
      modifies `orders
      ensures orders == Touch(old(orders), Members(ids), RAssign(driver, vehicle))
    {
      for i := 0 to |orders|
        invariant |orders| == |old(orders)|
        invariant forall j :: 0 <= j < |orders| ==>
                    orders[j] == if j < i && j in ids then Seated(old(orders)[j], driver, vehicle) else old(orders)[j]
      {
        if i in ids {
          orders := orders[i := orders[i].(status := Assigned, driver := Some(driver), vehicle := Some(vehicle))];
        }
      }
      ghost var written := orders;
      for i := 0 to |orders|
        invariant |orders| == |written|
        invariant forall j :: 0 <= j < |orders| ==>
                    orders[j] == if j < i && j in ids
                                 then written[j].(log := written[j].log + [Entry(Pending, Assigned)])
                                 else written[j]
      {
        if i in ids { orders := orders[i := orders[i].(log := orders[i].log + [Entry(Pending, Assigned)])]; }
      }
      assert orders == Touch(old(orders), Members(ids), RAssign(driver, vehicle));
    }

    // POST /orders/assign
    method AssignOrderBundle(ids: seq<nat>, driver: string, clearance: Clearance) returns (code: Option<Code>)
      modifies `orders
      ensures code == Refusal(old(View()), Assign(ids, driver, clearance))
      ensures View() == Next(old(View()), Assign(ids, driver, clearance))
    {
      code := WhyNotAssign(ids, driver, clearance);
      if code.None? {
        var vehicle := VehicleOf(vehicles, driver);
        WriteAssignment(ids, driver, vehicle.value);
      }
    }

    // PATCH /orders/:id/reassign
    method ReassignOrder(id: nat, to: Option<string>, clearance: Clearance) returns (code: Option<Code>)
      modifies `orders
      ensures code == Refusal(old(View()), Reassign(id, to, clearance))
      ensures View() == Next(old(View()), Reassign(id, to, clearance))
    {
      if id >= |orders| { return Some(NotFound); }
      var order := orders[id];
      if !order.placed { return Some(Unplaced); }
      if !order.status.Assigned? { return Some(ReassignInvalidState); }
      if to.None? || to.value == "" {
        orders := orders[id := order.(status := Pending, driver := None, vehicle := None,
                                      log := order.log + [Entry(Assigned, Pending)])];
        return None;
      }
      if SameName(to.value, order.driver.Or("")) { return Some(SameDriver); }
      if !clearance.registered { return Some(InvalidDriver); }
      var vehicle := VehicleOf(vehicles, to.value);
      if vehicle.None? { return Some(NoVehicle); }
      if !clearance.verified { return Some(DriverUnverified); }
      var limit := vehicles[vehicle.value].limit;
      if limit.Some? {
        var carried := CurrentLoad(vehicle.value, Some(id));
        if carried + order.weight > limit.value { return Some(CapacityExceeded); }
      }
      orders := orders[id := order.(driver := to, vehicle := vehicle, log := order.log + [Entry(Assigned, Assigned)])];
      return None;
    }

    method WhyNotUpdate(id: nat, to: Status, actor: Actor) returns (code: Option<Code>)
      ensures code == UpdateRefusal(View(), id, to, actor)
    {
      if actor.Driver? && !DriverMay(to) { return Some(DriverForbidden); }
      if id >= |orders| { return Some(NotFound); }
      var order := orders[id];
      var previous := order.status;
      if actor.Driver? && !SameName(order.driver.Or(""), actor.name) { return Some(Forbidden); }
      if !CanTransition(previous, to) {
        if to.Delivered? { return Some(NeedsProof); }
        if Terminal(previous) { return Some(TerminalStatus); }
        return Some(OutOfSequence);
      }
      if to.Cancelled? && order.money.payment.Paid? { return Some(CancelAlreadyPaid); }
      if (to.AtPickup? || to.Arrived?) && !actor.Driver? { return Some(ArrivalDriverOnly); }
      return None;
    }

    static method ChargeWait(money: Money, wait: nat) returns (m: Money)
      ensures m == money.WithPickupWait(wait)
    {
      m := money.(detention := money.detention + wait);
      m := m.(price := Some(m.price.Or(0) + wait));
      m := m.(net := Some(m.net.Or(0) + wait));
    }

    // PATCH /orders/:id/status
    method UpdateOrderStatus(id: nat, to: Status, actor: Actor, wait: Option<nat>) returns (code: Option<Code>)
      modifies `orders
      ensures code == Refusal(old(View()), Update(id, to, actor, wait))
      ensures View() == Next(old(View()), Update(id, to, actor, wait))
    {
      code := WhyNotUpdate(id, to, actor);
      if code.Some? { return; }
      var order := orders[id];
      var previous := order.status;
      if previous.Offered? { order := order.(offer := order.offer.End(Withdrawn)); }
      if to.Offered? { order := order.(offer := order.offer.Opened()); }
      order := order.(status := to);
      if previous.AtPickup? && !to.AtPickup? && wait.Some? {
        var money := ChargeWait(order.money, wait.value);
        order := order.(money := money);
      }
      order := order.(log := order.log + [Entry(previous, to)]);
      OneRowCommit(View(), Update(id, to, actor, wait), id, RMove(to, wait));
      orders := orders[id := order];
    }

    // PATCH /orders/:id/force-status.  The answer is built from a name the
    // handler never binds, so a change that was committed is still reported to
    // the caller as a failure.
    method ForceOrderStatus(id: nat, to: Status, reasoned: bool) returns (code: Option<Code>, confirmed: bool)
      modifies `orders
      ensures code == Refusal(old(View()), Force(id, to, reasoned)) && !confirmed
      ensures View() == Next(old(View()), Force(id, to, reasoned))
      ensures code.None? ==> orders[id].status == to != old(orders)[id].status
    {
      confirmed := false;
      if !reasoned { return Some(ForceReasonRequired), false; }
      if id >= |orders| { return Some(NotFound), false; }
      var order := orders[id];
      var previous := order.status;
      if previous == to { return Some(ForceNoChange), false; }
      if previous.Offered? { order := order.(offer := order.offer.End(Withdrawn)); }
      if to.Offered? { order := order.(offer := order.offer.Opened()); }
      order := order.(status := to);
      order := order.(log := order.log + [Entry(previous, to)]);
      TouchingOneRow(orders, id, RForce(to));
      orders := orders[id := order];
      code := None;
    }

    method WhyNotConfirm(id: nat, actor: Actor, proof: Proof) returns (code: Option<Code>)
      ensures code == ConfirmRefusal(View(), id, actor, proof)
    {
      if proof.NoProof? { return Some(ProofRequired); }
      if proof.CodeRejected? { return Some(ProofRefused); }
      if id >= |orders| { return Some(NotFound); }
      var order := orders[id];
      var previous := order.status;
      if !previous.Arrived? {
        if Terminal(previous) { return Some(TerminalStatus); }
        return Some(NotArrived);
      }
      if actor.Driver? && !SameName(order.driver.Or(""), actor.name) { return Some(Forbidden); }
      return None;
    }

    static method HandOver(money: Money, wait: nat, credit: Option<nat>) returns (m: Money)
      ensures m == money.AtHandover(wait, credit)
    {
      var change := wait - credit.Or(0);
      m := money.(detention := money.detention + wait, given := money.given + credit.Or(0));
      if m.payment.Paid? {
        m := m.(adjustment := m.adjustment + change);
      } else {
        m := m.(price := Some(m.price.Or(0) + change));
      }
      m := m.(net := Some(m.net.Or(0) + change));
      if credit.Some? { m := m.(credit := credit); }
    }

    // POST /orders/:id/confirm-delivery
    method ConfirmDelivery(id: nat, actor: Actor, proof: Proof, wait: Option<nat>, credit: Option<nat>)
      returns (code: Option<Code>)
      modifies `orders
      ensures code == Refusal(old(View()), Confirm(id, actor, proof, wait, credit))
      ensures View() == Next(old(View()), Confirm(id, actor, proof, wait, credit))
    {
      code := WhyNotConfirm(id, actor, proof);
      if code.Some? { return; }
      OneRowCommit(View(), Confirm(id, actor, proof, wait, credit), id, RDeliver(wait, credit));
      var order := orders[id];
      var previous := order.status;
      var money := HandOver(order.money, wait.Or(0), credit);
      order := order.(status := Delivered, money := money);
      order := order.(log := order.log + [Entry(previous, Delivered)]);
      orders := orders[id := order];
    }

    // PATCH /orders/:id/place
    method PlaceOneOrder(id: nat, valid: bool, hubKnown: bool, quote: Option<Quote>) returns (code: Option<Code>)
      modifies `orders
      ensures code == Refusal(old(View()), Place(id, valid, hubKnown, quote))
      ensures View() == Next(old(View()), Place(id, valid, hubKnown, quote))
    {
      if !valid { return Some(InvalidCoordinates); }
      if !hubKnown { return Some(HubNotFound); }
      if id < |orders| && (orders[id].money.payment.Paid? || orders[id].money.payment.Prompted?) {
        return Some(PaymentCommitted);
      }
      if id >= |orders| { return Some(NotFound); }
      TouchingOneRow(orders, id, RPlace(quote));
      orders := orders[id := orders[id].(placed := true)];
      if quote.Some? {
        var q := quote.value;
        var m := orders[id].money.(price := Some(q.total), fee := Some(q.fee), net := Some(q.total - q.fee));
        orders := orders[id := orders[id].(money := m.(estimate := false, base := q.total))];
      }
      return None;
    }

    method AnyDeclined(ids: seq<nat>, driver: string) returns (found: bool)
      ensures found <==> exists i :: i in ids && i < |orders| && driver in orders[i].offer.declinedBy
    {
      found := false;
      for k := 0 to |ids|
        invariant found <==> exists j :: 0 <= j < k && ids[j] < |orders| && driver in orders[ids[j]].offer.declinedBy
      {
        if ids[k] < |orders| && driver in orders[ids[k]].offer.declinedBy { found := true; }
      }
    }

    method WhyNotOffer(ids: seq<nat>, driver: string, registered: bool) returns (code: Option<Code>)
      ensures code == OfferRefusal(View(), ids, driver, registered)
    {
      if ids == [] { return Some(InvalidPayload); }
      if !registered { return Some(InvalidDriver); }
      var refused := AnyDeclined(ids, driver);
      if refused { return Some(AlreadyDeclined); }
      var rows := LockRows(ids, Pending);
      if |rows| != |ids| { return Some(NotOfferable); }
      var unplaced := FirstUnplaced(rows);
      if unplaced { return Some(Unplaced); }
      return None;
    }

    method WriteOffer(ids: seq<nat>, driver: string, expires: int)
      modifies `orders
      ensures orders == Touch(old(orders), Members(ids), ROffer(driver, expires))
    {
      for i := 0 to |orders|
        invariant |orders| == |old(orders)|
        invariant forall j :: 0 <= j < |orders| ==>
                    orders[j] == if j < i && j in ids then Row(old(orders)[j], ROffer(driver, expires))
                                 else old(orders)[j]
      {
        if i in ids {
          var book := orders[i].offer.(expires := Some(expires), made := orders[i].offer.made + 1);
          orders := orders[i := orders[i].(status := Offered, driver := Some(driver), offer := book)];
        }
      }
      assert orders == Touch(old(orders), Members(ids), ROffer(driver, expires));
    }

    static method OfferLength(minutes: Option<int>) returns (length: int)
      ensures length == OfferMinutes(minutes)
    {
      if minutes.None? { return 30; }
      if minutes.value < 5 { return 5; }
      if minutes.value > 240 { return 240; }
      return minutes.value;
    }

    // POST /orders/offer
    method OfferOrders(ids: seq<nat>, driver: string, registered: bool, minutes: Option<int>)
      returns (code: Option<Code>)
      modifies `orders
      ensures code == Refusal(old(View()), Offer(ids, driver, registered, minutes))
      ensures View() == Next(old(View()), Offer(ids, driver, registered, minutes))
    {
      var length := OfferLength(minutes);
      code := WhyNotOffer(ids, driver, registered);
      assert code == Refusal(View(), Offer(ids, driver, registered, minutes));
      if code.Some? {
        RefusedChangesNothing(View(), Offer(ids, driver, registered, minutes));
        return;
      }
      OfferCommit(View(), ids, driver, registered, minutes);
      WriteOffer(ids, driver, now + length);
    }

    // POST /orders/:id/accept
    method AcceptOffer(id: nat, driver: string) returns (code: Option<Code>)
      modifies `orders
      ensures code == Refusal(old(View()), Accept(id, driver))
      ensures View() == Next(old(View()), Accept(id, driver))
    {
      if id >= |orders| { return Some(OfferGone); }
      var order := orders[id];
      if !(order.status.Offered? && order.driver == Some(driver)
           && (order.offer.expires.None? || order.offer.expires.value > now)) {
        return Some(OfferGone);
      }
      order := order.(offer := order.offer.End(TakenUp));
      order := order.(status := Assigned, offer := order.offer.(expires := None));
      order := order.(log := order.log + [Entry(Offered, Assigned)]);
      TouchingOneRow(orders, id, RAccept);
      orders := orders[id := order];
      return None;
    }

    // POST /orders/:id/decline
    method DeclineOffer(id: nat, driver: string) returns (code: Option<Code>)
      modifies `orders
      ensures code == Refusal(old(View()), Decline(id, driver))
      ensures View() == Next(old(View()), Decline(id, driver))
    {
      if id >= |orders| { return Some(OfferGone); }
      var order := orders[id];
      if !(order.status.Offered? && order.driver == Some(driver)) { return Some(OfferGone); }
      order := order.(offer := order.offer.End(TurnedDown));
      order := order.(status := Pending, driver := None, offer := order.offer.(expires := None));
      order := order.(offer := order.offer.(declinedBy := order.offer.declinedBy + {driver}));
      order := order.(log := order.log + [Entry(Offered, Pending)]);
      TouchingOneRow(orders, id, RDecline(driver));
      orders := orders[id := order];
      return None;
    }

    method ReleaseLapsed() returns (lapsed: seq<nat>)
      modifies `orders
      ensures Distinct(lapsed) && |orders| == |old(orders)|
      ensures forall k :: k in lapsed <==> 0 <= k < |orders| && SweepEnabled(old(orders)[k], now)
      ensures forall j :: 0 <= j < |orders| ==>
                orders[j] == if j in lapsed then Released(old(orders)[j]) else old(orders)[j]
    {
      lapsed := [];
      for i := 0 to |orders|
        invariant |orders| == |old(orders)| && Distinct(lapsed)
        invariant forall k :: k in lapsed <==> 0 <= k < i && SweepEnabled(old(orders)[k], now)
        invariant forall j :: 0 <= j < |orders| ==>
                    orders[j] == if j in lapsed then Released(old(orders)[j]) else old(orders)[j]
      {
        var order := orders[i];
        if order.status.Offered? && order.offer.expires.Some? && order.offer.expires.value <= now {
          forall j | 0 <= j < |lapsed| ensures lapsed[j] < i { assert lapsed[j] in lapsed; }
          orders := orders[i := Released(order)];
          lapsed := lapsed + [i];
        }
      }
    }

    method LogLapsed(lapsed: seq<nat>)
      requires Distinct(lapsed) && forall j :: 0 <= j < |lapsed| ==> lapsed[j] < |orders|
      modifies `orders
      ensures |orders| == |old(orders)|
      ensures forall j :: 0 <= j < |orders| ==>
                orders[j] == if j in lapsed then WithLapse(old(orders)[j]) else old(orders)[j]
    {
      for k := 0 to |lapsed|
        invariant |orders| == |old(orders)|
        invariant forall j :: 0 <= j < |orders| ==>
                    orders[j] == if j in lapsed[..k] then WithLapse(old(orders)[j]) else old(orders)[j]
      {
        var id := lapsed[k];
        assert lapsed[..k + 1] == lapsed[..k] + [id];
        assert id !in lapsed[..k];
        orders := orders[id := orders[id].(log := orders[id].log + [Entry(Offered, Pending)])];
      }
      assert lapsed[..|lapsed|] == lapsed;
    }

    // The expiry sweep: one update of every lapsed offer, then its log rows.
    method SweepOffers()
      modifies `orders
      ensures View() == Next(old(View()), Sweep)
    {
      RowsCommit(View(), Sweep, LapsedOffers(View()), RLapse);
      var lapsed := ReleaseLapsed();
      forall j | 0 <= j < |lapsed| ensures lapsed[j] < |orders| { assert lapsed[j] in lapsed; }
      LogLapsed(lapsed);
      SweptRows(old(View()), lapsed, orders);
    }

    method WhyNotPlan(ids: seq<nat>, creating: bool) returns (code: Option<Code>)
      ensures code == PlanRefusal(View(), ids, creating)
    {
      for k := 0 to |ids|
        invariant forall j :: 0 <= j < k ==> ids[j] < |orders|
      {
        if ids[k] >= |orders| {
          assert ids[k] in ids;
          return Some(NotFound);
        }
      }
      if creating {
        for k := 0 to |ids|
          invariant forall j :: 0 <= j < k ==> Plannable(orders[ids[j]].status)
        {
          if !Plannable(orders[ids[k]].status) {
            assert ids[k] in ids;
            return Some(NotPlannable);
          }
        }
      }
      return None;
    }

    method WritePlan(ids: seq<nat>, driver: string)
      modifies `orders
      ensures orders == Touch(old(orders), Members(ids), RPlan(driver))
    {
      for i := 0 to |orders|
        invariant |orders| == |old(orders)|
        invariant forall j :: 0 <= j < |orders| ==>
                    orders[j] == if j < i && j in ids then Row(old(orders)[j], RPlan(driver)) else old(orders)[j]
      {
        if i in ids {
          var order := orders[i].(driver := Some(driver));
          if order.status.Pending? { order := order.(status := Assigned); }
          orders := orders[i := order];
        }
      }
      assert orders == Touch(old(orders), Members(ids), RPlan(driver));
    }

    // The order half of POST /trips and PATCH /trips/:id.
    method PlanOrders(ids: seq<nat>, driver: string, creating: bool) returns (code: Option<Code>)
      modifies `orders
      ensures code == Refusal(old(View()), PlanRun(ids, driver, creating))
      ensures View() == Next(old(View()), PlanRun(ids, driver, creating))
    {
      code := WhyNotPlan(ids, creating);
      if code.Some? {
        RefusedChangesNothing(View(), PlanRun(ids, driver, creating));
        return;
      }
      RowsCommit(View(), PlanRun(ids, driver, creating), Members(ids), RPlan(driver));
      WritePlan(ids, driver);
    }

    static method StopDoneOrder(order: Order, to: Status) returns (r: Order)
      ensures r == Row(order, RStopDone(to))
    {
      if order.status == to { return order; }
      var previous := order.status;
      r := order;
      if previous.Offered? { r := r.(offer := r.offer.End(Withdrawn)); }
      if to.Offered? { r := r.(offer := r.offer.Opened()); }
      r := r.(status := to);
      r := r.(log := r.log + [Entry(previous, to)]);
    }

    // The order half of PATCH /trips/stops/:stopId with status DONE.
    method CloseStop(id: nat, kind: StopKind) returns (code: Option<Code>)
      modifies `orders
      ensures code == Refusal(old(View()), StopDone(id, kind))
      ensures View() == Next(old(View()), StopDone(id, kind))
    {
      if id >= |orders| { return Some(NotFound); }
      var to := if kind.Pickup? then PickedUp else Delivered;
      OneRowCommit(View(), StopDone(id, kind), id, RStopDone(to));
      var order := StopDoneOrder(orders[id], to);
      orders := orders[id := order];
      return None;
    }
  }
}
