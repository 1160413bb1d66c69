/** What each order endpoint lets through and what it leaves behind, in terms of the
    order's own columns: when it commits, and what every row is afterwards. */
module OrderAnswers {
  import opened Prelude
  import opened OrderModel
  import OrderCapacity
  import OrderMoney

  // ----- names, vehicles, statuses ---------------------------------------------------

  /** Equal, or one the capital of the other. */
  predicate AlikeLetters(x: char, y: char) {
    x == y || ('A' <= x <= 'Z' && y as int == x as int + 32) || ('A' <= y <= 'Z' && x as int == y as int + 32)
  }

  predicate AlikeNames(a: string, b: string) {
    |a| == |b| && forall i :: 0 <= i < |a| ==> AlikeLetters(a[i], b[i])
  }

  lemma SameNameExactly(a: string, b: string)
    ensures SameName(a, b) <==> AlikeNames(a, b)
  {
    var x, y := Lower(a), Lower(b);
    if SameName(a, b) {
      forall i | 0 <= i < |a| ensures AlikeLetters(a[i], b[i]) { assert x[i] == y[i]; }
    } else if |a| == |b| {
      var i :| 0 <= i < |a| && x[i] != y[i];
      assert !AlikeLetters(a[i], b[i]);
    }
  }

  /** Of the driver's vehicles the one with the highest number. */
  predicate Newest(vehicles: seq<Vehicle>, driver: string, v: nat) {
    && v < |vehicles| && vehicles[v].driver == Some(driver)
    && forall w :: v < w < |vehicles| ==> vehicles[w].driver != Some(driver)
  }

  lemma NewestIsTaken(vehicles: seq<Vehicle>, driver: string, v: nat)
    ensures VehicleOf(vehicles, driver) == Some(v) <==> Newest(vehicles, driver, v)
  {
  }

  /** How far along a job is. */
  function Stage(s: Status): nat {
    match s
    case Pending => 0
    case Offered => 0
    case Assigned => 1
    case AtPickup => 2
    case PickedUp => 3
    case InTransit => 4
    case Arrived => 5
    case Delivered => 6
    case Cancelled => 6
  }

  /** What the status endpoint lets happen next: any job not finished is called off;
      a waiting one is offered, taken back or assigned; an assigned one is given to
      somebody else or back; on the road it only goes forward, any stage may be left
      out before IN_TRANSIT, and only from there it arrives.  It never delivers. */
  predicate GoesOn(from: Status, to: Status) {
    || (to == Cancelled && Stage(from) < 6)
    || (Stage(from) == 0 && Stage(to) <= 1 && from != to)
    || (from == Assigned && (to == Assigned || to == Pending))
    || 1 <= Stage(from) < Stage(to) <= 4
    || (from == InTransit && to == Arrived)
  }

  lemma TransitionsExactly(from: Status, to: Status)
    ensures CanTransition(from, to) <==> GoesOn(from, to)
  {
  }

  // ----- the locked rows ---------------------------------------------------------------

  /** Every order asked for is there once, and waiting. */
  predicate AllPending(orders: seq<Order>, ids: seq<nat>) {
    && (forall i, j :: 0 <= i < j < |ids| ==> ids[i] != ids[j])
    && (forall i :: i in ids ==> i < |orders| && orders[i].status == Pending)
  }

  /** And every one of them is placed. */
  predicate AllWaiting(orders: seq<Order>, ids: seq<nat>) {
    AllPending(orders, ids) && forall i :: i in ids ==> orders[i].placed
  }

  lemma AllPendingExactly(orders: seq<Order>, ids: seq<nat>)
    ensures AllPending(orders, ids) <==> |Matching(orders, ids, Pending)| == |ids|
  {
    var found := Matching(orders, ids, Pending);
    MatchingIs(orders, ids, Pending);
    if AllPending(orders, ids) {
      DistinctSize(found);
      DistinctSize(ids);
      assert Members(found) == Members(ids);
    } else if |found| == |ids| {
      CountingMeansEveryOne(orders, ids, Pending);
    }
  }

  lemma UnplacedAmong(orders: seq<Order>, ids: seq<nat>)
    ensures AnyUnplaced(orders, Matching(orders, ids, Pending)) <==>
              exists i :: i in ids && i < |orders| && orders[i].status == Pending && !orders[i].placed
  {
    var found := Matching(orders, ids, Pending);
    MatchingIs(orders, ids, Pending);
    if AnyUnplaced(orders, found) {
      var k :| 0 <= k < |found| && found[k] < |orders| && !orders[found[k]].placed;
      assert found[k] in found;
    }
    if i :| i in ids && i < |orders| && orders[i].status == Pending && !orders[i].placed {
      assert i in found;
      var k :| 0 <= k < |found| && found[k] == i;
    }
  }

  lemma AllWaitingExactly(orders: seq<Order>, ids: seq<nat>)
    ensures AllWaiting(orders, ids) <==>
              |Matching(orders, ids, Pending)| == |ids| && !AnyUnplaced(orders, Matching(orders, ids, Pending))
  {
    AllPendingExactly(orders, ids);
    UnplacedAmong(orders, ids);
  }

  // ----- assigning -----------------------------------------------------------------------

  /** There is room for so much more on the driver's newest vehicle. */
  predicate Room(b: Board, driver: string, v: nat, carried: int, added: nat) {
    Newest(b.vehicles, driver, v) && (b.vehicles[v].limit.Some? ==> carried + added <= b.vehicles[v].limit.value)
  }

  lemma AssignTakenExactly(b: Board, ids: seq<nat>, driver: string, c: Clearance)
    ensures Commits(b, Assign(ids, driver, c)) <==>
              && ids != [] && driver != "" && c.registered && c.verified && !c.cashHeld && AllWaiting(b.orders, ids)
              && exists v: nat :: Room(b, driver, v, Load(b.orders, v), Weigh(b.orders, Members(ids)))
  {
    AllWaitingExactly(b.orders, ids);
    var v, added := VehicleOf(b.vehicles, driver), Weigh(b.orders, Members(ids));
    forall w: nat
      ensures Room(b, driver, w, Load(b.orders, w), added) <==>
                v == Some(w) && !Overloads(b, w, Load(b.orders, w), added)
    {
      NewestIsTaken(b.vehicles, driver, w);
    }
    assert (exists w: nat :: Room(b, driver, w, Load(b.orders, w), added)) <==>
             v.Some? && Room(b, driver, v.value, Load(b.orders, v.value), added);
    assert Commits(b, Assign(ids, driver, c)) <==> AssignRefusal(b, ids, driver, c).None?;
  }

  /** An order as an assignment leaves it. */
  function AssignedTo(o: Order, driver: string, v: nat): Order {
    o.(status := Assigned, driver := Some(driver), vehicle := Some(v), log := o.log + [Entry(Pending, Assigned)])
  }

  lemma AssignLeaves(b: Board, ids: seq<nat>, driver: string, c: Clearance) returns (v: nat)
    requires Commits(b, Assign(ids, driver, c))
    ensures Newest(b.vehicles, driver, v)
    ensures var r := Next(b, Assign(ids, driver, c));
            && r == b.(orders := r.orders) && |r.orders| == |b.orders|
            && forall i :: 0 <= i < |b.orders| ==>
                 r.orders[i] == if i in ids then AssignedTo(b.orders[i], driver, v) else b.orders[i]
  {
    v := VehicleOf(b.vehicles, driver).value;
    NewestIsTaken(b.vehicles, driver, v);
    RowsCommit(b, Assign(ids, driver, c), Members(ids), RAssign(driver, v));
  }

  // ----- what an assignment weighs --------------------------------------------------

  /** Those of the orders that already name this vehicle, as one sent back to the
      queue through the status endpoint does. */
  function Already(orders: seq<Order>, ids: seq<nat>, v: nat): set<nat> {
    set i | i in ids && i < |orders| && orders[i].vehicle == Some(v)
  }

  lemma {:induction false} LoadGrowsExactly(a: seq<Order>, c: seq<Order>, v: nat, more: set<nat>, less: set<nat>)
    requires |a| == |c|
    requires forall i :: 0 <= i < |a| ==>
               Carried(c[i], v) == Carried(a[i], v) + (if i in more then a[i].weight else 0)
                                   - (if i in less then a[i].weight else 0)
    ensures Load(c, v) == Load(a, v) + Weigh(a, more) - Weigh(a, less)
  {
    if a != [] {
      var last := |a| - 1;
      LoadGrowsExactly(a[..last], c[..last], v, more, less);
    }
  }

  lemma {:induction false} WeighsNothingExactly(a: seq<Order>, ids: set<nat>)
    ensures Weigh(a, ids) == 0 <==> forall i :: i in ids && i < |a| ==> a[i].weight == 0
  {
    if a != [] {
      var last := |a| - 1;
      WeighsNothingExactly(a[..last], ids);
      if Weigh(a, ids) == 0 {
        forall i | i in ids && i < |a| ensures a[i].weight == 0 {
          if i < last { assert a[..last][i] == a[i]; }
        }
      } else if last !in ids || a[last].weight == 0 {
        var i :| i in ids && i < last && a[..last][i].weight != 0;
        assert a[i].weight != 0;
      }
    }
  }

  /** The driver's vehicle takes on the weight of every order assigned that was not
      on it already, any other vehicle loses what it still carried of them. */
  lemma AssignLoads(b: Board, ids: seq<nat>, driver: string, c: Clearance, w: nat)
    requires Commits(b, Assign(ids, driver, c))
    ensures Load(Next(b, Assign(ids, driver, c)).orders, w)
            == Load(b.orders, w) - Weigh(b.orders, Already(b.orders, ids, w))
               + if Newest(b.vehicles, driver, w) then Weigh(b.orders, Members(ids)) else 0
  {
    var v := AssignLeaves(b, ids, driver, c);
    var after := Next(b, Assign(ids, driver, c)).orders;
    AssignTakenExactly(b, ids, driver, c);
    var more := if w == v then Members(ids) else {};
    OrderCapacity.WeighNothing(b.orders);
    forall i | 0 <= i < |b.orders|
      ensures Carried(after[i], w) == Carried(b.orders[i], w) + (if i in more then b.orders[i].weight else 0)
                                      - (if i in Already(b.orders, ids, w) then b.orders[i].weight else 0)
    {
    }
    LoadGrowsExactly(b.orders, after, w, more, Already(b.orders, ids, w));
  }

  /** So it takes on exactly their weight if and only if none of any weight was on it. */
  lemma AssignLoadsAllExactly(b: Board, ids: seq<nat>, driver: string, c: Clearance, v: nat)
    requires Commits(b, Assign(ids, driver, c)) && Newest(b.vehicles, driver, v)
    ensures Load(Next(b, Assign(ids, driver, c)).orders, v) == Load(b.orders, v) + Weigh(b.orders, Members(ids)) <==>
              forall i :: i in ids && i < |b.orders| && b.orders[i].vehicle == Some(v) ==> b.orders[i].weight == 0
  {
    AssignLoads(b, ids, driver, c, v);
    WeighsNothingExactly(b.orders, Already(b.orders, ids, v));
  }

  // ----- reassigning -----------------------------------------------------------------------

  predicate Nobody(to: Option<string>) {
    to == None || to == Some("")
  }

  /** What a vehicle carries apart from one order. */
  function Besides(b: Board, id: nat, v: nat): int
    requires id < |b.orders|
  {
    var o := b.orders[id];
    Load(b.orders, v) - (if o.vehicle == Some(v) && Stage(o.status) < 6 then o.weight else 0)
  }

  lemma LeftOut(b: Board, id: nat, v: nat)
    requires id < |b.orders|
    ensures Load(b.orders[id := b.orders[id].(vehicle := None)], v) == Besides(b, id, v)
  {
    OrderCapacity.LoadAfterOneChange(b.orders, id, b.orders[id].(vehicle := None), v);
  }

  lemma ReassignTakenExactly(b: Board, id: nat, to: Option<string>, c: Clearance)
    ensures Commits(b, Reassign(id, to, c)) <==>
              && id < |b.orders| && b.orders[id].placed && b.orders[id].status == Assigned
              && (Nobody(to)
                  || (&& !AlikeNames(to.value, b.orders[id].driver.Or("")) && c.registered && c.verified
                      && exists v: nat :: Room(b, to.value, v, Besides(b, id, v), b.orders[id].weight)))
  {
    if id < |b.orders| && !Nobody(to) {
      var o := b.orders[id];
      SameNameExactly(to.value, o.driver.Or(""));
      var v := VehicleOf(b.vehicles, to.value);
      if v.Some? {
        NewestIsTaken(b.vehicles, to.value, v.value);
        LeftOut(b, id, v.value);
        if Commits(b, Reassign(id, to, c)) { assert Room(b, to.value, v.value, Besides(b, id, v.value), o.weight); }
      }
      if w: nat :| Room(b, to.value, w, Besides(b, id, w), o.weight) {
        NewestIsTaken(b.vehicles, to.value, w);
        LeftOut(b, id, w);
      }
    }
  }

  /** Given to nobody, the order is back in the queue with no driver and no vehicle;
      given to a driver, it is on their newest vehicle. */
  lemma ReassignLeaves(b: Board, id: nat, to: Option<string>, c: Clearance) returns (v: nat)
    requires Commits(b, Reassign(id, to, c))
    ensures id < |b.orders| && (!Nobody(to) ==> Newest(b.vehicles, to.value, v))
    ensures var o := b.orders[id];
            var r := if Nobody(to) then
                       o.(status := Pending, driver := None, vehicle := None, log := o.log + [Entry(Assigned, Pending)])
                     else
                       o.(driver := to, vehicle := Some(v), log := o.log + [Entry(Assigned, Assigned)]);
            Next(b, Reassign(id, to, c)) == b.(orders := b.orders[id := r])
  {
    v := 0;
    if Nobody(to) {
      OneRowCommit(b, Reassign(id, to, c), id, RUnassign);
    } else {
      v := VehicleOf(b.vehicles, to.value).value;
      NewestIsTaken(b.vehicles, to.value, v);
      OneRowCommit(b, Reassign(id, to, c), id, RReassign(to.value, v));
    }
  }

  lemma ReassignLoads(b: Board, id: nat, to: Option<string>, c: Clearance, w: nat)
    requires Commits(b, Reassign(id, to, c))
    ensures id < |b.orders|
    ensures Load(Next(b, Reassign(id, to, c)).orders, w)
            == Besides(b, id, w) + if !Nobody(to) && Newest(b.vehicles, to.value, w) then b.orders[id].weight else 0
  {
    var v := ReassignLeaves(b, id, to, c);
    OrderCapacity.LoadAfterOneChange(b.orders, id, Next(b, Reassign(id, to, c)).orders[id], w);
  }

  // ----- status changes ----------------------------------------------------------------

  /** Staff, or the driver the order names. */
  predicate Its(o: Order, actor: Actor) {
    actor.Driver? ==> AlikeNames(o.driver.Or(""), actor.name)
  }

  /** A driver may only report stages of the road; an arrival only a driver may. */
  lemma UpdateTakenExactly(b: Board, id: nat, to: Status, actor: Actor, wait: Option<nat>)
    ensures Commits(b, Update(id, to, actor, wait)) <==>
              && id < |b.orders| && GoesOn(b.orders[id].status, to) && Its(b.orders[id], actor)
              && (actor == Staff ==> to != AtPickup && to != Arrived)
              && (actor != Staff ==> 2 <= Stage(to) <= 5)
              && !(to == Cancelled && b.orders[id].money.payment == Paid)
  {
    if id < |b.orders| {
      TransitionsExactly(b.orders[id].status, to);
      if actor.Driver? { SameNameExactly(b.orders[id].driver.Or(""), actor.name); }
    }
  }

  /** The offer columns apart from their history. */
  predicate SameOffer(o: Order, r: Order) {
    o.offer.expires == r.offer.expires && o.offer.declinedBy == r.offer.declinedBy
  }

  /** The money columns after leaving the pickup: the wait is detention, and is added
      to the price and to the driver's share. */
  function WaitCharged(m: Money, wait: nat): Money {
    m.(detention := m.detention + wait, price := Some(m.price.Or(0) + wait), net := Some(m.net.Or(0) + wait))
  }

  /** The status, a log row of the change and, on leaving the pickup, the wait. */
  lemma UpdateLeaves(b: Board, id: nat, to: Status, actor: Actor, wait: Option<nat>)
    requires Commits(b, Update(id, to, actor, wait))
    ensures id < |b.orders| && |Next(b, Update(id, to, actor, wait)).orders| == |b.orders|
    ensures var o, r := b.orders[id], Next(b, Update(id, to, actor, wait)).orders[id];
            var charged := if o.status == AtPickup && wait != None then WaitCharged(o.money, wait.value) else o.money;
            && Next(b, Update(id, to, actor, wait)) == b.(orders := b.orders[id := r]) && SameOffer(o, r)
            && r == o.(status := to, log := o.log + [Entry(o.status, to)], money := charged, offer := r.offer)
  {
    OneRowCommit(b, Update(id, to, actor, wait), id, RMove(to, wait));
    TransitionsExactly(b.orders[id].status, to);
  }

  lemma ForceTakenExactly(b: Board, id: nat, to: Status, reasoned: bool)
    ensures Commits(b, Force(id, to, reasoned)) <==> reasoned && id < |b.orders| && b.orders[id].status != to
  {
  }

  /** A forced status changes nothing else; a finished order keeps its vehicle. */
  lemma ForceLeaves(b: Board, id: nat, to: Status, reasoned: bool)
    requires Commits(b, Force(id, to, reasoned))
    ensures id < |b.orders| && |Next(b, Force(id, to, reasoned)).orders| == |b.orders|
    ensures var o, r := b.orders[id], Next(b, Force(id, to, reasoned)).orders[id];
            && Next(b, Force(id, to, reasoned)) == b.(orders := b.orders[id := r]) && SameOffer(o, r)
            && r == o.(status := to, log := o.log + [Entry(o.status, to)], offer := r.offer)
  {
    OneRowCommit(b, Force(id, to, reasoned), id, RForce(to));
  }

  // ----- delivering ----------------------------------------------------------------------

  lemma ConfirmTakenExactly(b: Board, id: nat, actor: Actor, proof: Proof, wait: Option<nat>, credit: Option<nat>)
    ensures Commits(b, Confirm(id, actor, proof, wait, credit)) <==>
              proof == Proven && id < |b.orders| && b.orders[id].status == Arrived && Its(b.orders[id], actor)
  {
    if id < |b.orders| && actor.Driver? { SameNameExactly(b.orders[id].driver.Or(""), actor.name); }
  }

  /** The money columns after a delivery.  The wait is detention; it and the
      return-leg credit go to the driver's share, and to the adjustment of a paid
      order or the price of an unpaid one. */
  function SettledUp(m: Money, wait: nat, credit: Option<nat>): Money {
    var paid := m.payment == Paid;
    var change := wait - credit.Or(0);
    m.(detention := m.detention + wait,
       credit := if credit == None then m.credit else credit,
       given := m.given + credit.Or(0),
       net := Some(m.net.Or(0) + change),
       adjustment := if paid then m.adjustment + change else m.adjustment,
       price := if paid then m.price else Some(m.price.Or(0) + change))
  }

  lemma HandoverSettlesUp(m: Money, wait: nat, credit: Option<nat>)
    ensures m.AtHandover(wait, credit) == SettledUp(m, wait, credit)
  {
  }

  lemma ConfirmLeaves(b: Board, id: nat, actor: Actor, proof: Proof, wait: Option<nat>, credit: Option<nat>)
    requires Commits(b, Confirm(id, actor, proof, wait, credit))
    ensures id < |b.orders|
    ensures var o := b.orders[id];
            var r := o.(status := Delivered, log := o.log + [Entry(Arrived, Delivered)],
                        money := SettledUp(o.money, wait.Or(0), credit));
            Next(b, Confirm(id, actor, proof, wait, credit)) == b.(orders := b.orders[id := r])
  {
    OneRowCommit(b, Confirm(id, actor, proof, wait, credit), id, RDeliver(wait, credit));
    HandoverSettlesUp(b.orders[id].money, wait.Or(0), credit);
  }

  lemma Reported(o: Order, to: Status, driver: string) returns (r: Order)
    requires o.driver == Some(driver) && GoesOn(o.status, to) && 2 <= Stage(to) <= 5
    ensures Commits(Board([o], [], 0), Update(0, to, Driver(driver), None))
    ensures Next(Board([o], [], 0), Update(0, to, Driver(driver), None)) == Board([r], [], 0)
    ensures r.status == to && r.driver == Some(driver)
  {
    var b := Board([o], [], 0);
    UpdateTakenExactly(b, 0, to, Driver(driver), None);
    UpdateLeaves(b, 0, to, Driver(driver), None);
    r := Next(b, Update(0, to, Driver(driver), None)).orders[0];
  }

  /** Four reports of its own driver take an assigned order to its door and close it. */
  lemma EveryJobCanBeDelivered(o: Order, driver: string)
    requires o.status == Assigned && o.driver == Some(driver)
    ensures var b, d := Board([o], [], 0), Driver(driver);
            var b1 := Next(b, Update(0, AtPickup, d, None));
            var b2 := Next(b1, Update(0, InTransit, d, None));
            var b3 := Next(b2, Update(0, Arrived, d, None));
            && Commits(b, Update(0, AtPickup, d, None)) && Commits(b1, Update(0, InTransit, d, None))
            && Commits(b2, Update(0, Arrived, d, None)) && Commits(b3, Confirm(0, d, Proven, None, None))
            && |b3.orders| == 1 && Next(b3, Confirm(0, d, Proven, None, None)).orders[0].status == Delivered
  {
    var atPickup := Reported(o, AtPickup, driver);
    var inTransit := Reported(atPickup, InTransit, driver);
    var arrived := Reported(inTransit, Arrived, driver);
    var b3 := Board([arrived], [], 0);
    ConfirmTakenExactly(b3, 0, Driver(driver), Proven, None, None);
    ConfirmLeaves(b3, 0, Driver(driver), Proven, None, None);
  }

  // ----- placing ---------------------------------------------------------------------------

  lemma PlaceTakenExactly(b: Board, id: nat, valid: bool, hubKnown: bool, quote: Option<Quote>)
    ensures Commits(b, Place(id, valid, hubKnown, quote)) <==>
              && valid && hubKnown && id < |b.orders|
              && (b.orders[id].money.payment == Unpaid || b.orders[id].money.payment == Failed)
  {
  }

  /** The quote's total is the price, its fee the platform's, and the rest the driver's. */
  lemma PlaceLeaves(b: Board, id: nat, valid: bool, hubKnown: bool, quote: Option<Quote>)
    requires Commits(b, Place(id, valid, hubKnown, quote))
    ensures id < |b.orders|
    ensures var o := b.orders[id];
            var m := match quote
                     case None => o.money
                     case Some(q) => o.money.(price := Some(q.total), fee := Some(q.fee), net := Some(q.total - q.fee),
                                              estimate := false, base := q.total);
            Next(b, Place(id, valid, hubKnown, quote)) == b.(orders := b.orders[id := o.(placed := true, money := m)])
  {
    OneRowCommit(b, Place(id, valid, hubKnown, quote), id, RPlace(quote));
  }

  /** A new order waits unpaid, with the quote split the same way, and is an estimate
      until it is placed. */
  lemma CreateLeaves(b: Board, weight: nat, placed: bool, q: Quote)
    ensures var r := Next(b, Create(weight, placed, q));
            && |r.orders| == |b.orders| + 1 && r == b.(orders := b.orders + [r.orders[|b.orders|]])
            && var o := r.orders[|b.orders|];
               && o.status == Pending && o.driver == None && o.vehicle == None && o.weight == weight
                    && o.placed == placed
               && o.log == [] && o.offer.expires == None && o.offer.declinedBy == {}
               && o.money.payment == Unpaid && o.money.price == Some(q.total) && o.money.fee == Some(q.fee)
               && o.money.net == Some(q.total - q.fee) && o.money.estimate == !placed
               && o.money.detention == o.money.adjustment == 0 && o.money.credit == None && o.money.recorded == None
  {
  }

  // ----- offering ----------------------------------------------------------------------------

  lemma OfferTakenExactly(b: Board, ids: seq<nat>, driver: string, registered: bool, minutes: Option<int>)
    ensures Commits(b, Offer(ids, driver, registered, minutes)) <==>
              && ids != [] && registered && AllWaiting(b.orders, ids)
              && forall i :: i in ids && i < |b.orders| ==> driver !in b.orders[i].offer.declinedBy
  {
    AllWaitingExactly(b.orders, ids);
  }

  lemma OfferRow(o: Order, driver: string, expires: int)
    ensures Row(o, ROffer(driver, expires)) == OfferedTo(o, driver, expires)
  {
  }

  /** Every order is on offer to the driver for half an hour, or for what was asked
      but no less than five minutes and no more than four hours. */
  lemma OfferLeaves(b: Board, ids: seq<nat>, driver: string, registered: bool, minutes: Option<int>)
    returns (length: int)
    requires Commits(b, Offer(ids, driver, registered, minutes))
    ensures minutes == None ==> length == 30
    ensures minutes != None ==> 5 <= length <= 240 && (5 <= minutes.value <= 240 ==> length == minutes.value)
                                && (minutes.value < 5 ==> length == 5) && (minutes.value > 240 ==> length == 240)
    ensures var r := Next(b, Offer(ids, driver, registered, minutes));
            && r == b.(orders := r.orders) && |r.orders| == |b.orders|
            && forall i :: 0 <= i < |b.orders| ==>
                 r.orders[i] == if i in ids then OfferedTo(b.orders[i], driver, b.now + length) else b.orders[i]
  {
    length := OfferMinutes(minutes);
    RowsCommit(b, Offer(ids, driver, registered, minutes), Members(ids), ROffer(driver, b.now + length));
    var after := Touch(b.orders, Members(ids), ROffer(driver, b.now + length));
    assert Next(b, Offer(ids, driver, registered, minutes)).orders == after;
    forall i | 0 <= i < |b.orders|
      ensures after[i] == if i in ids then OfferedTo(b.orders[i], driver, b.now + length) else b.orders[i]
    {
      OfferRow(b.orders[i], driver, b.now + length);
    }
  }

  /** An order as an offer leaves it; `made` counts the offers. */
  function OfferedTo(o: Order, driver: string, expires: int): Order {
    o.(status := Offered, driver := Some(driver), offer := o.offer.(expires := Some(expires), made := o.offer.made + 1))
  }

  /** The driver named, strictly before the deadline if there is one. */
  lemma AcceptTakenExactly(b: Board, id: nat, driver: string)
    ensures Commits(b, Accept(id, driver)) <==>
              && id < |b.orders| && b.orders[id].status == Offered && b.orders[id].driver == Some(driver)
              && (b.orders[id].offer.expires != None ==> b.now < b.orders[id].offer.expires.value)
  {
  }

  lemma AcceptLeaves(b: Board, id: nat, driver: string)
    requires Commits(b, Accept(id, driver))
    ensures id < |b.orders|
    ensures var o := b.orders[id];
            var over := o.offer.(expires := None, resolved := o.offer.resolved + [(o.offer.made, TakenUp)]);
            var r := o.(status := Assigned, log := o.log + [Entry(Offered, Assigned)], offer := over);
            Next(b, Accept(id, driver)) == b.(orders := b.orders[id := r])
  {
    OneRowCommit(b, Accept(id, driver), id, RAccept);
  }

  lemma DeclineTakenExactly(b: Board, id: nat, driver: string)
    ensures Commits(b, Decline(id, driver)) <==>
              id < |b.orders| && b.orders[id].status == Offered && b.orders[id].driver == Some(driver)
  {
  }

  /** An order back in the queue from an offer. */
  function BackInQueue(o: Order, how: Resolution): Order {
    o.(status := Pending, driver := None, log := o.log + [Entry(Offered, Pending)],
       offer := o.offer.(expires := None, resolved := o.offer.resolved + [(o.offer.made, how)]))
  }

  lemma DeclineLeaves(b: Board, id: nat, driver: string)
    requires Commits(b, Decline(id, driver))
    ensures id < |b.orders|
    ensures var back := BackInQueue(b.orders[id], TurnedDown);
            var r := back.(offer := back.offer.(declinedBy := b.orders[id].offer.declinedBy + {driver}));
            Next(b, Decline(id, driver)) == b.(orders := b.orders[id := r])
  {
    OneRowCommit(b, Decline(id, driver), id, RDecline(driver));
  }

  lemma SweepRow(b: Board, i: nat)
    requires i < |b.orders|
    ensures var o, swept := b.orders[i], Touch(b.orders, LapsedOffers(b), RLapse)[i];
            swept == if o.status == Offered && o.offer.expires != None && o.offer.expires.value <= b.now
                     then BackInQueue(o, Lapsed) else o
  {
    assert i in LapsedOffers(b) <==> SweepEnabled(b.orders[i], b.now);
  }

  /** The sweep takes back every offer at or past its deadline, and no other. */
  lemma SweepLeaves(b: Board)
    ensures var r := Next(b, Sweep);
            && r == b.(orders := r.orders) && |r.orders| == |b.orders|
            && forall i :: 0 <= i < |b.orders| ==>
                 var o := b.orders[i];
                 r.orders[i] == if o.status == Offered && o.offer.expires != None && o.offer.expires.value <= b.now
                                then BackInQueue(o, Lapsed) else o
  {
    RowsCommit(b, Sweep, LapsedOffers(b), RLapse);
    assert Next(b, Sweep).orders == Touch(b.orders, LapsedOffers(b), RLapse);
    forall i | 0 <= i < |b.orders|
      ensures var o := b.orders[i];
              Next(b, Sweep).orders[i]
              == if o.status == Offered && o.offer.expires != None && o.offer.expires.value <= b.now
                 then BackInQueue(o, Lapsed) else o
    {
      SweepRow(b, i);
    }
  }

  // ----- runs and stops --------------------------------------------------------------------

  /** Orders out on offer, at the pickup or finished cannot be planned into a new run. */
  lemma PlanTakenExactly(b: Board, ids: seq<nat>, driver: string, creating: bool)
    ensures Commits(b, PlanRun(ids, driver, creating)) <==>
              forall i :: i in ids ==>
                && i < |b.orders|
                && (creating ==> b.orders[i].status !in {Offered, AtPickup, Delivered, Cancelled})
  {
  }

  lemma PlanLeaves(b: Board, ids: seq<nat>, driver: string, creating: bool)
    requires Commits(b, PlanRun(ids, driver, creating))
    ensures var r := Next(b, PlanRun(ids, driver, creating));
            && r == b.(orders := r.orders) && |r.orders| == |b.orders|
            && forall i :: 0 <= i < |b.orders| ==>
                 var o := b.orders[i];
                 r.orders[i] == if i !in ids then o
                                else o.(driver := Some(driver), status := if o.status == Pending then Assigned
                                        else o.status)
  {
    RowsCommit(b, PlanRun(ids, driver, creating), Members(ids), RPlan(driver));
  }

  lemma StopRow(o: Order, to: Status)
    ensures var r := Row(o, RStopDone(to));
            && SameOffer(o, r)
            && r == if o.status == to then o
                    else o.(status := to, log := o.log + [Entry(o.status, to)], offer := r.offer)
  {
  }

  /** Closing a pickup puts its order on PICKED_UP and closing a drop on DELIVERED,
      from whatever it was. */
  lemma StopDoneLeaves(b: Board, id: nat, kind: StopKind)
    requires id < |b.orders|
    ensures Commits(b, StopDone(id, kind)) && |Next(b, StopDone(id, kind)).orders| == |b.orders|
    ensures var o, r := b.orders[id], Next(b, StopDone(id, kind)).orders[id];
            var to := if kind == Pickup then PickedUp else Delivered;
            && Next(b, StopDone(id, kind)) == b.(orders := b.orders[id := r]) && SameOffer(o, r)
            && r == if o.status == to then o
                    else o.(status := to, log := o.log + [Entry(o.status, to)], offer := r.offer)
  {
    OneRowCommit(b, StopDone(id, kind), id, RStopDone(StopStatus(kind)));
    StopRow(b.orders[id], StopStatus(kind));
  }

  // ----- asking for the fare -------------------------------------------------------------

  /** The fare is due from the road on, at a settled price, until it is paid. */
  predicate FareDue(o: Order) {
    4 <= Stage(o.status) && o.status != Cancelled && o.money.payment != Paid && o.money.price != None
      && !o.money.estimate
  }

  lemma FareTakenExactly(b: Board, id: nat, phone: bool, currency: bool)
    ensures Commits(b, Pay(id, Ask(phone, currency))) <==>
              id < |b.orders| && FareDue(b.orders[id]) && phone && currency && b.orders[id].money.request == None
    ensures Commits(b, Pay(id, Collect)) <==>
              id < |b.orders| && FareDue(b.orders[id]) && b.orders[id].money.request == None
  {
  }

  lemma StatementRow(o: Order, step: PayStep)
    ensures Row(o, RPay(step)) == o.(money := o.money.Stepped(step))
  {
  }

  lemma PayWrites(b: Board, id: nat, step: PayStep)
    requires Commits(b, Pay(id, step))
    ensures id < |b.orders|
    ensures Next(b, Pay(id, step))
            == b.(orders := b.orders[id := b.orders[id].(money := b.orders[id].money.Stepped(step))])
  {
    OneRowCommit(b, Pay(id, step), id, RPay(step));
    StatementRow(b.orders[id], step);
  }

  /** A payment statement changes the payment columns of its order alone. */
  lemma PayLeaves(b: Board, id: nat, step: PayStep)
    requires Commits(b, Pay(id, step))
    ensures id < |b.orders| && |Next(b, Pay(id, step)).orders| == |b.orders|
    ensures var o, r := b.orders[id], Next(b, Pay(id, step)).orders[id];
            && Next(b, Pay(id, step)) == b.(orders := b.orders[id := r]) && r == o.(money := r.money)
            && r.money.price == o.money.price && r.money.fee == o.money.fee && r.money.net == o.money.net
            && r.money.adjustment == o.money.adjustment && r.money.detention == o.money.detention
            && r.money.credit == o.money.credit && r.money.estimate == o.money.estimate
  {
    PayWrites(b, id, step);
    OrderMoney.PaymentLeavesPrices(b.orders[id].money, step);
  }

  // ----- why an endpoint refuses -------------------------------------------------------

  /** Of the reasons against an assignment a missing paper is given before a debt, a
      debt before the orders themselves, and their weight last of all. */
  lemma AssignRefusedExactly(b: Board, ids: seq<nat>, driver: string, c: Clearance)
    ensures var why := Refusal(b, Assign(ids, driver, c));
            var driving := ids != [] && driver != "" && c.registered && exists v: nat :: Newest(b.vehicles, driver, v);
            var clear := driving && c.verified && !c.cashHeld;
            && (why == Some(DriverUnverified) <==> driving && !c.verified)
            && (why == Some(CashOwing) <==> driving && c.verified && c.cashHeld)
            && (why == Some(Conflict) <==> clear && !AllPending(b.orders, ids))
            && (why == Some(Unplaced) <==> clear && AllPending(b.orders, ids) && !AllWaiting(b.orders, ids))
            && (why == Some(CapacityExceeded) <==>
                  && clear && AllWaiting(b.orders, ids)
                  && forall v: nat :: !Room(b, driver, v, Load(b.orders, v), Weigh(b.orders, Members(ids))))
  {
    AllPendingExactly(b.orders, ids);
    UnplacedAmong(b.orders, ids);
    AssignTakenExactly(b, ids, driver, c);
    var v := VehicleOf(b.vehicles, driver);
    forall w: nat ensures v == Some(w) <==> Newest(b.vehicles, driver, w) { NewestIsTaken(b.vehicles, driver, w); }
    if v.Some? { assert Newest(b.vehicles, driver, v.value); }
  }

  /** Another driver than the order's own is told so whenever the change is one a
      driver may report, before whether it is in sequence. */
  lemma UpdateRefusedExactly(b: Board, id: nat, to: Status, actor: Actor, wait: Option<nat>)
    ensures var why := Refusal(b, Update(id, to, actor, wait));
            var drivers := actor == Staff || 2 <= Stage(to) <= 5 || to == Delivered;
            && (why == Some(DriverForbidden) <==> !drivers)
            && (why == Some(NotFound) <==> drivers && id >= |b.orders|)
            && (id < |b.orders| && drivers ==>
                  var o := b.orders[id];
                  && (why == Some(Forbidden) <==> !Its(o, actor))
                  && (why == Some(NeedsProof) <==> Its(o, actor) && to == Delivered)
                  && (why == Some(TerminalStatus) <==> Its(o, actor) && Stage(o.status) == 6 && to != Delivered)
                  && (why == Some(OutOfSequence) <==>
                        Its(o, actor) && Stage(o.status) < 6 && !GoesOn(o.status, to) && to != Delivered)
                  && (why == Some(CancelAlreadyPaid) <==>
                        Its(o, actor) && Stage(o.status) < 6 && to == Cancelled && o.money.payment == Paid)
                  && (why == Some(ArrivalDriverOnly) <==>
                        actor == Staff && (to == AtPickup || to == Arrived) && GoesOn(o.status, to)))
  {
    if id < |b.orders| {
      TransitionsExactly(b.orders[id].status, to);
      if actor.Driver? { SameNameExactly(b.orders[id].driver.Or(""), actor.name); }
    }
  }

  /** Nobody learns more of an order than that its proof is wanting before the proof
      is right, and whether it is theirs only once it has arrived. */
  lemma ConfirmRefusedExactly(b: Board, id: nat, actor: Actor, proof: Proof, wait: Option<nat>, credit: Option<nat>)
    ensures var why := Refusal(b, Confirm(id, actor, proof, wait, credit));
            && (why == Some(ProofRequired) <==> proof == NoProof)
            && (why == Some(ProofRefused) <==> proof == CodeRejected)
            && (why == Some(NotFound) <==> proof == Proven && id >= |b.orders|)
            && (proof == Proven && id < |b.orders| ==>
                  var o := b.orders[id];
                  && (why == Some(TerminalStatus) <==> o.status == Delivered || o.status == Cancelled)
                  && (why == Some(NotArrived) <==> o.status != Arrived && Stage(o.status) < 6)
                  && (why == Some(Forbidden) <==> o.status == Arrived && !Its(o, actor)))
  {
    if id < |b.orders| && actor.Driver? { SameNameExactly(b.orders[id].driver.Or(""), actor.name); }
  }

  /** What an endpoint refuses it leaves as it was. */
  lemma RefusedIsUntouched(b: Board, e: Event)
    requires !e.Create? && !e.Tick? && !Commits(b, e)
    ensures Next(b, e) == b
  {
    RefusedChangesNothing(b, e);
  }
}
