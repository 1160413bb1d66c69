/** The order table as the dispatch, offer, run and payment transactions see it.

    A row carries its own status log and its own list of drivers who declined
    it, so that a transaction is a change of some rows of one table.  Every
    transaction is one event; `Refusal` is the guard the endpoint applies, in
    the endpoint's own order, and `Row` is what it writes to each row. */
module OrderModel {
  import opened Prelude

  datatype Status =
    | Pending | Offered | Assigned | AtPickup | PickedUp
    | InTransit | Arrived | Delivered | Cancelled

  predicate Terminal(s: Status) {
    s.Delivered? || s.Cancelled?
  }

  function Allowed(from: Status): set<Status> {
    match from
    case Pending => {Offered, Assigned, Cancelled}
    case Offered => {Assigned, Pending, Cancelled}
    case Assigned => {Assigned, AtPickup, PickedUp, InTransit, Pending, Cancelled}
    case AtPickup => {PickedUp, InTransit, Cancelled}
    case PickedUp => {InTransit, Cancelled}
    case InTransit => {Arrived, Cancelled}
    case Arrived => {Cancelled}
    case Delivered => {}
    case Cancelled => {}
  }

  predicate CanTransition(from: Status, to: Status) {
    !(from == to && !from.Assigned?) && to in Allowed(from)
  }

  /** One row of order_status_logs. */
  datatype Entry = Entry(previous: Status, next: Status)

  datatype Payment = Unpaid | Prompted | Paid | Failed

  /** How one offer came to an end. */
  datatype Resolution = TakenUp | TurnedDown | Lapsed | Withdrawn

  datatype Verdict = Succeeded | Declined | Mismatched

  /** A request as the mobile-money provider has it: not yet arrived, on the
      customer's phone, approved for a sum, refused, or never arrived at all. */
  datatype Prompt = Prompt(amount: int, state: PromptState)

  datatype PromptState = Wired | Live | Approved(paid: int) | Refused | Lost

  /** A request the server still waits on, by its place among all it raised. */
  datatype Asked = Asked(number: nat, amount: int)

  /** A payment under way between two statements of its endpoint: the gates were
      read and no request is written yet; the request is written and the provider
      is being called; the provider's verdict was read; the request is resolved
      and the order is still to be written; cash was cleared to be recorded. */
  datatype Task =
    | Asking(amount: int)
    | Calling(number: nat)
    | Hearing(number: nat, amount: int, verdict: Verdict)
    | Landing(to: Payment, amount: int)
    | Collecting

  /** One statement of a payment endpoint, with an index for the task it continues,
      or, from `Reach` on, what becomes of a request away from the server. */
  datatype PayStep =
    | Ask(phoneReachable: bool, currencyKnown: bool)
    | Raise(task: nat)
    | Answered(task: nat, accepted: bool)
    | Hear
    | Resolve(task: nat)
    | Land(task: nat)
    | Collect
    | Take(task: nat)
    | TimeOut
    | Reach(number: nat)
    | Lose(number: nat)
    | Approve(number: nat, paid: int)
    | Refuse(number: nat)

  /** The price columns and the payments in progress.  `prompts` is what the
      provider has of every request ever raised.  `given`, `recorded`, `moved` and
      `base` are history: all return-leg credit ever given, all takings the order
      was credited with, all money that ever left the customer, and the last quoted
      price. */
  datatype Money = Money(
    payment: Payment,
    price: Option<int>,
    estimate: bool,
    fee: Option<int>,
    net: Option<int>,
    adjustment: int,
    detention: int,
    credit: Option<nat>,
    request: Option<Asked>,
    prompts: seq<Prompt>,
    tasks: seq<Task>,
    given: int,
    recorded: Option<int>,
    moved: int,
    base: int
  )
  {
    /** A wait at the pickup, added on leaving it. */
    function WithPickupWait(amount: nat): Money {
      this.(detention := detention + amount, price := Some(price.Or(0) + amount), net := Some(net.Or(0) + amount))
    }

    /** What the finished job turned out to cost: on a paid job the difference
        goes to the adjustment, on an unpaid one to the price. */
    function AtHandover(wait: nat, back: Option<nat>): Money {
      var change := wait - back.Or(0);
      var m := this.(detention := detention + wait, credit := if back.Some? then back else credit,
                     given := given + back.Or(0), net := Some(net.Or(0) + change));
      if payment.Paid? then m.(adjustment := adjustment + change)
      else m.(price := Some(price.Or(0) + change))
    }

    function Repriced(q: Quote): Money {
      this.(price := Some(q.total), fee := Some(q.fee), net := Some(q.Net()), estimate := false, base := q.total)
    }

    function Without(i: nat): Money {
      if i < |tasks| then this.(tasks := tasks[..i] + tasks[i + 1..]) else this
    }

    /** The order is credited with this much. */
    function TakenIn(amount: int): Money {
      this.(payment := Paid, recorded := Some(recorded.Or(0) + amount))
    }

    function StateOf(number: nat): PromptState {
      if number < |prompts| then prompts[number].state else Lost
    }

    function WithPrompt(number: nat, state: PromptState): Money {
      if number < |prompts| then this.(prompts := prompts[number := prompts[number].(state := state)]) else this
    }

    /** What the provider says when asked about a request; None while it is still
        waiting, or knows nothing of it. */
    function VerdictOn(number: nat): Option<Verdict> {
      match StateOf(number)
      case Approved(paid) => Some(if paid == prompts[number].amount then Succeeded else Mismatched)
      case Refused => Some(Declined)
      case _ => None
    }

    predicate Waiting(number: nat) {
      request.Some? && request.value.number == number
    }

    /** The verdict on a request: the request row is written only while it waits,
        and a wrong amount fails the order whether it was or not. */
    function Resolved(i: nat): Money
      requires i < |tasks| && tasks[i].Hearing?
    {
      var t := tasks[i];
      var m := if Waiting(t.number) then this.(request := None) else this;
      if t.verdict.Mismatched? then m.(tasks := tasks[i := Landing(Failed, t.amount)])
      else if !Waiting(t.number) then m.Without(i)
      else m.(tasks := tasks[i := Landing(if t.verdict.Succeeded? then Paid else Failed, t.amount)])
    }

    /** One payment statement. */
    function Stepped(s: PayStep): Money {
      match s
      case Ask(_, _) => this.(tasks := tasks + [Asking(price.Or(0))])
      case Raise(i) =>
        if i >= |tasks| || !tasks[i].Asking? then this
        else if request.Some? then Without(i)
        else
          var amount := tasks[i].amount;
          this.(request := Some(Asked(|prompts|, amount)), prompts := prompts + [Prompt(amount, Wired)],
                tasks := tasks[i := Calling(|prompts|)])
      case Answered(i, accepted) =>
        if i >= |tasks| || !tasks[i].Calling? then this
        else if accepted then Without(i).(payment := Prompted)
        else if Waiting(tasks[i].number) then Without(i).(request := None)
        else Without(i)
      case Hear =>
        if request.None? || VerdictOn(request.value.number).None? then this
        else
          var r := request.value;
          this.(tasks := tasks + [Hearing(r.number, r.amount, VerdictOn(r.number).value)])
      case Resolve(i) => if i < |tasks| && tasks[i].Hearing? then Resolved(i) else this
      case Land(i) =>
        if i >= |tasks| || !tasks[i].Landing? then this
        else if tasks[i].to.Paid? then Without(i).TakenIn(tasks[i].amount)
        else Without(i).(payment := tasks[i].to)
      case Collect => this.(tasks := tasks + [Collecting])
      case Take(i) =>
        if i >= |tasks| || !tasks[i].Collecting? then this
        else if payment.Paid? then Without(i)
        else Without(i).TakenIn(price.Or(0)).(moved := moved + price.Or(0))
      case TimeOut => this.(request := None)
      case Reach(n) => WithPrompt(n, Live)
      case Lose(n) => WithPrompt(n, Lost)
      case Approve(n, paid) => WithPrompt(n, Approved(paid)).(moved := moved + paid)
      case Refuse(n) => WithPrompt(n, Refused)
    }
  }

  /** Offers of one order.  `made` and `resolved` are history: how often the order
      was put on offer, in whatever way, and how each offer ended. */
  datatype OfferBook = OfferBook(
    expires: Option<int>,
    declinedBy: set<string>,
    made: nat,
    resolved: seq<(nat, Resolution)>
  )
  {
    function Opened(): OfferBook {
      this.(made := made + 1)
    }

    function End(how: Resolution): OfferBook {
      this.(resolved := resolved + [(made, how)])
    }
  }

  datatype Order = Order(
    status: Status,
    driver: Option<string>,
    vehicle: Option<nat>,
    weight: nat,
    placed: bool,
    log: seq<Entry>,
    offer: OfferBook,
    money: Money
  )

  datatype Vehicle = Vehicle(limit: Option<nat>, driver: Option<string>)

  datatype Board = Board(orders: seq<Order>, vehicles: seq<Vehicle>, now: int)

  /** A price from the rate card.  The driver's share is what is left of the
      total once the fee is out. */
  datatype Quote = Quote(total: int, fee: int) {
    function Net(): int { total - fee }
  }

  // ----- what a transaction writes to one row -------------------------------

  datatype RowEvent =
    | RAssign(driver: string, vehicle: nat)
    | RUnassign
    | RReassign(driver: string, vehicle: nat)
    | RMove(to: Status, wait: Option<nat>)
    | RForce(to: Status)
    | RDeliver(wait: Option<nat>, credit: Option<nat>)
    | RPlace(quote: Option<Quote>)
    | ROffer(driver: string, expires: int)
    | RAccept
    | RDecline(driver: string)
    | RLapse
    | RPlan(driver: string)
    | RStopDone(to: Status)
    | RPay(step: PayStep)

  /** A status written together with the log row `from -> to`; several
      endpoints write a constant for `from`. */
  function Stamped(o: Order, from: Status, to: Status): Order {
    o.(status := to, log := o.log + [Entry(from, to)])
  }

  function Logged(o: Order, to: Status): Order {
    Stamped(o, o.status, to)
  }

  /** A status set by an endpoint other than the offer ones: leaving OFFERED ends
      the offer, reaching it makes one. */
  function Moved(o: Order, to: Status): Order {
    var left := if o.status.Offered? then o.offer.End(Withdrawn) else o.offer;
    Logged(o.(offer := if to.Offered? then left.Opened() else left), to)
  }

  function Row(o: Order, e: RowEvent): Order {
    match e
    case RAssign(d, v) => Stamped(o, Pending, Assigned).(driver := Some(d), vehicle := Some(v))
    case RUnassign => Stamped(o, Assigned, Pending).(driver := None, vehicle := None)
    case RReassign(d, v) => Stamped(o, Assigned, Assigned).(driver := Some(d), vehicle := Some(v))
    case RMove(to, wait) =>
      if o.status.AtPickup? && !to.AtPickup? && wait.Some? then
        Moved(o, to).(money := o.money.WithPickupWait(wait.value))
      else Moved(o, to)
    case RForce(to) => Moved(o, to)
    case RDeliver(wait, credit) => Logged(o, Delivered).(money := o.money.AtHandover(wait.Or(0), credit))
    case RPlace(quote) =>
      if quote.Some? then o.(placed := true, money := o.money.Repriced(quote.value)) else o.(placed := true)
    case ROffer(d, t) =>
      o.(status := Offered, driver := Some(d), offer := o.offer.Opened().(expires := Some(t)))
    case RAccept => Stamped(o, Offered, Assigned).(offer := o.offer.End(TakenUp).(expires := None))
    case RDecline(d) =>
      Stamped(o, Offered, Pending).(driver := None,
        offer := o.offer.End(TurnedDown).(expires := None, declinedBy := o.offer.declinedBy + {d}))
    case RLapse => Stamped(o, Offered, Pending).(driver := None, offer := o.offer.End(Lapsed).(expires := None))
    case RPlan(d) => o.(driver := Some(d), status := if o.status.Pending? then Assigned else o.status)
    case RStopDone(to) => if o.status == to then o else Moved(o, to)
    case RPay(step) => o.(money := o.money.Stepped(step))
  }

  // ----- the transactions ----------------------------------------------------

  datatype Actor = Driver(name: string) | Staff

  /** What the account, document and cash-debt tables say about a driver. */
  datatype Clearance = Clearance(registered: bool, verified: bool, cashHeld: bool)

  datatype Proof = NoProof | CodeRejected | Proven

  datatype StopKind = Pickup | Drop

  datatype Event =
    | Create(weight: nat, placed: bool, quoted: Quote)
    | Assign(ids: seq<nat>, driver: string, clearance: Clearance)
    | Reassign(id: nat, to: Option<string>, clearance: Clearance)
    | Update(id: nat, status: Status, actor: Actor, wait: Option<nat>)
    | Force(id: nat, status: Status, reasoned: bool)
    | Confirm(id: nat, actor: Actor, proof: Proof, wait: Option<nat>, credit: Option<nat>)
    | Place(id: nat, valid: bool, hubKnown: bool, repriced: Option<Quote>)
    | Offer(ids: seq<nat>, driver: string, registered: bool, minutes: Option<int>)
    | Accept(id: nat, driver: string)
    | Decline(id: nat, driver: string)
    | Sweep
    | PlanRun(ids: seq<nat>, driver: string, creating: bool)
    | StopDone(id: nat, kind: StopKind)
    | Pay(id: nat, step: PayStep)
    | Tick(elapsed: nat)

  datatype Code =
    | InvalidPayload | InvalidDriver | NoVehicle | DriverUnverified | CashOwing
    | Conflict | Unplaced | CapacityExceeded
    | NotFound | ReassignInvalidState | SameDriver
    | DriverForbidden | Forbidden | NeedsProof | TerminalStatus | OutOfSequence
    | CancelAlreadyPaid | ArrivalDriverOnly
    | ForceReasonRequired | ForceNoChange
    | ProofRequired | ProofRefused | NotArrived
    | InvalidCoordinates | HubNotFound | PaymentCommitted
    | AlreadyDeclined | NotOfferable | OfferGone | NotPlannable
    | AlreadyPaid | TooEarly | NoPrice | PriceIsEstimate | PromptInFlight | NotPayable | NoCurrency | NothingPending

  predicate Distinct<T(==)>(s: seq<T>) {
    forall i, j :: 0 <= i < j < |s| ==> s[i] != s[j]
  }

  function Members(ids: seq<nat>): set<nat> {
    set i | i in ids
  }

  /** The rows of `ids` in `status`, by table position: what a
      `WHERE id = ANY(ids) AND status = ...` locks. */
  function Matching(orders: seq<Order>, ids: seq<nat>, status: Status): seq<nat> {
    if orders == [] then []
    else
      var last := |orders| - 1;
      var rest := Matching(orders[..last], ids, status);
      if last in ids && orders[last].status == status then rest + [last] else rest
  }

  lemma {:induction false} MatchingIs(orders: seq<Order>, ids: seq<nat>, status: Status)
    ensures forall i :: i in Matching(orders, ids, status) <==> i < |orders| && i in ids && orders[i].status == status
    ensures Distinct(Matching(orders, ids, status))
  {
    if orders != [] {
      var last := |orders| - 1;
      var rest := Matching(orders[..last], ids, status);
      MatchingIs(orders[..last], ids, status);
      forall k | 0 <= k < |rest| ensures rest[k] < last { assert rest[k] in rest; }
    }
  }

  predicate AnyUnplaced(orders: seq<Order>, rows: seq<nat>) {
    exists k :: 0 <= k < |rows| && rows[k] < |orders| && !orders[rows[k]].placed
  }

  function Carried(o: Order, v: nat): nat {
    if o.vehicle == Some(v) && !Terminal(o.status) then o.weight else 0
  }

  /** Weight carried by vehicle `v`: every row on it that is not finished. */
  function Load(orders: seq<Order>, v: nat): nat {
    if orders == [] then 0
    else Load(orders[..|orders| - 1], v) + Carried(orders[|orders| - 1], v)
  }

  /** Total weight of the rows named in `ids`. */
  function Weigh(orders: seq<Order>, ids: set<nat>): nat {
    if orders == [] then 0
    else
      var last := |orders| - 1;
      Weigh(orders[..last], ids) + (if last in ids then orders[last].weight else 0)
  }

  /** The driver's vehicle; of several, the one registered last. */
  function VehicleOf(vehicles: seq<Vehicle>, driver: string): (r: Option<nat>)
    ensures r.Some? ==> r.value < |vehicles| && vehicles[r.value].driver == Some(driver)
    ensures r.Some? ==> forall v :: r.value < v < |vehicles| ==> vehicles[v].driver != Some(driver)
    ensures r.None? ==> forall v :: 0 <= v < |vehicles| ==> vehicles[v].driver != Some(driver)
  {
    if vehicles == [] then None
    else
      var last := |vehicles| - 1;
      if vehicles[last].driver == Some(driver) then Some(last) else VehicleOf(vehicles[..last], driver)
  }

  predicate Overloads(b: Board, v: nat, carried: nat, added: nat)
    requires v < |b.vehicles|
  {
    b.vehicles[v].limit.Some? && carried + added > b.vehicles[v].limit.value
  }

  function OfferMinutes(asked: Option<int>): int {
    match asked
    case None => 30
    case Some(m) => if m < 5 then 5 else if m > 240 then 240 else m
  }

  predicate AcceptEnabled(o: Order, driver: string, now: int) {
    o.status.Offered? && o.driver == Some(driver) && (o.offer.expires.None? || o.offer.expires.value > now)
  }

  predicate SweepEnabled(o: Order, now: int) {
    o.status.Offered? && o.offer.expires.Some? && o.offer.expires.value <= now
  }

  function LapsedOffers(b: Board): set<nat> {
    set i | 0 <= i < |b.orders| && SweepEnabled(b.orders[i], b.now)
  }

  predicate DriverMay(s: Status) {
    s.AtPickup? || s.PickedUp? || s.InTransit? || s.Arrived? || s.Delivered?
  }

  predicate Collectable(s: Status) {
    s.Arrived? || s.InTransit? || s.Delivered?
  }

  predicate Plannable(s: Status) {
    s.Pending? || s.Assigned? || s.PickedUp? || s.InTransit? || s.Arrived?
  }

  function StopStatus(kind: StopKind): Status {
    match kind
    case Pickup => PickedUp
    case Drop => Delivered
  }

  function AssignRefusal(b: Board, ids: seq<nat>, driver: string, c: Clearance): Option<Code> {
    if ids == [] || driver == "" then Some(InvalidPayload)
    else if !c.registered then Some(InvalidDriver)
    else
      var v := VehicleOf(b.vehicles, driver);
      if v.None? then Some(NoVehicle)
      else if !c.verified then Some(DriverUnverified)
      else if c.cashHeld then Some(CashOwing)
      else if |Matching(b.orders, ids, Pending)| != |ids| then Some(Conflict)
      else if AnyUnplaced(b.orders, Matching(b.orders, ids, Pending)) then Some(Unplaced)
      else if Overloads(b, v.value, Load(b.orders, v.value), Weigh(b.orders, Members(ids))) then Some(CapacityExceeded)
      else None
  }

  function ReassignRefusal(b: Board, id: nat, to: Option<string>, c: Clearance): Option<Code> {
    if id >= |b.orders| then Some(NotFound)
    else
      var o := b.orders[id];
      if !o.placed then Some(Unplaced)
      else if !o.status.Assigned? then Some(ReassignInvalidState)
      else if to.Or("") == "" then None
      else if SameName(to.value, o.driver.Or("")) then Some(SameDriver)
      else if !c.registered then Some(InvalidDriver)
      else
        var v := VehicleOf(b.vehicles, to.value);
        if v.None? then Some(NoVehicle)
        else if !c.verified then Some(DriverUnverified)
        else if Overloads(b, v.value, Load(b.orders[id := o.(vehicle := None)], v.value), o.weight)
          then Some(CapacityExceeded)
        else None
  }

  function Lower(name: string): string {
    seq(|name|, i requires 0 <= i < |name| => if 'A' <= name[i] <= 'Z' then name[i] - 'A' + 'a' else name[i])
  }

  /** Driver names are compared without regard to case. */
  predicate SameName(a: string, b: string) {
    Lower(a) == Lower(b)
  }

  function UpdateRefusal(b: Board, id: nat, to: Status, actor: Actor): Option<Code> {
    if actor.Driver? && !DriverMay(to) then Some(DriverForbidden)
    else if id >= |b.orders| then Some(NotFound)
    else
      var o := b.orders[id];
      if actor.Driver? && !SameName(o.driver.Or(""), actor.name) then Some(Forbidden)
      else if !CanTransition(o.status, to) then
        Some(if to.Delivered? then NeedsProof else if Terminal(o.status) then TerminalStatus else OutOfSequence)
      else if to.Cancelled? && o.money.payment.Paid? then Some(CancelAlreadyPaid)
      else if (to.AtPickup? || to.Arrived?) && !actor.Driver? then Some(ArrivalDriverOnly)
      else None
  }

  function ForceRefusal(b: Board, id: nat, to: Status, reasoned: bool): Option<Code> {
    if !reasoned then Some(ForceReasonRequired)
    else if id >= |b.orders| then Some(NotFound)
    else if b.orders[id].status == to then Some(ForceNoChange)
    else None
  }

  function ConfirmRefusal(b: Board, id: nat, actor: Actor, proof: Proof): Option<Code> {
    if proof.NoProof? then Some(ProofRequired)
    else if proof.CodeRejected? then Some(ProofRefused)
    else if id >= |b.orders| then Some(NotFound)
    else
      var o := b.orders[id];
      if !o.status.Arrived? then Some(if Terminal(o.status) then TerminalStatus else NotArrived)
      else if actor.Driver? && !SameName(o.driver.Or(""), actor.name) then Some(Forbidden)
      else None
  }

  function PlaceRefusal(b: Board, id: nat, valid: bool, hubKnown: bool): Option<Code> {
    if !valid then Some(InvalidCoordinates)
    else if !hubKnown then Some(HubNotFound)
    else if id >= |b.orders| then Some(NotFound)
    else if b.orders[id].money.payment.Paid? || b.orders[id].money.payment.Prompted? then Some(PaymentCommitted)
    else None
  }

  function OfferRefusal(b: Board, ids: seq<nat>, driver: string, registered: bool): Option<Code> {
    if ids == [] then Some(InvalidPayload)
    else if !registered then Some(InvalidDriver)
    else if exists i :: i in ids && i < |b.orders| && driver in b.orders[i].offer.declinedBy then Some(AlreadyDeclined)
    else if |Matching(b.orders, ids, Pending)| != |ids| then Some(NotOfferable)
    else if AnyUnplaced(b.orders, Matching(b.orders, ids, Pending)) then Some(Unplaced)
    else None
  }

  function PlanRefusal(b: Board, ids: seq<nat>, creating: bool): Option<Code> {
    if exists i :: i in ids && i >= |b.orders| then Some(NotFound)
    else if creating && exists i :: i in ids && !Plannable(b.orders[i].status) then Some(NotPlannable)
    else None
  }

  function PayRefusal(o: Order): Option<Code> {
    if o.money.payment.Paid? then Some(AlreadyPaid)
    else if !Collectable(o.status) then Some(TooEarly)
    else if o.money.price.None? then Some(NoPrice)
    else if o.money.estimate then Some(PriceIsEstimate)
    else None
  }

  /** Whether a payment statement can run: an endpoint's first one needs its gates
      open, a later one the task it continues.  The provider accepts only a request
      it has, gives a verdict only once there is one, and is asked before a request
      is timed out, so that one has reached it. */
  predicate StepReady(o: Order, s: PayStep) {
    var m := o.money;
    match s
    case Ask(phone, currency) => PayRefusal(o).None? && phone && m.request.None? && currency
    case Raise(i) => i < |m.tasks| && m.tasks[i].Asking?
    case Answered(i, accepted) =>
      i < |m.tasks| && m.tasks[i].Calling? && (accepted ==> Reached(m.StateOf(m.tasks[i].number)))
    case Hear => m.request.Some? && m.VerdictOn(m.request.value.number).Some?
    case Resolve(i) => i < |m.tasks| && m.tasks[i].Hearing?
    case Land(i) => i < |m.tasks| && m.tasks[i].Landing?
    case Collect => PayRefusal(o).None? && m.request.None?
    case Take(i) => i < |m.tasks| && m.tasks[i].Collecting?
    case TimeOut => m.request.Some? && Reached(m.StateOf(m.request.value.number))
    case Reach(n) => n < |m.prompts| && m.prompts[n].state.Wired?
    case Lose(n) => n < |m.prompts| && m.prompts[n].state.Wired?
    case Approve(n, paid) => n < |m.prompts| && m.prompts[n].state.Live?
    case Refuse(n) => n < |m.prompts| && m.prompts[n].state.Live?
  }

  predicate Reached(p: PromptState) {
    p.Live? || p.Approved? || p.Refused?
  }

  function StepRefusal(o: Order, s: PayStep): Option<Code> {
    if StepReady(o, s) then None
    else if (s.Ask? || s.Collect?) && PayRefusal(o).Some? then PayRefusal(o)
    else if s.Ask? && !s.phoneReachable then Some(NotPayable)
    else if (s.Ask? || s.Collect?) && o.money.request.Some? then Some(PromptInFlight)
    else if s.Ask? then Some(NoCurrency)
    else Some(NothingPending)
  }

  /** Why the endpoint refuses, in the order it checks; None when it commits. */
  function Refusal(b: Board, e: Event): Option<Code> {
    match e
    case Create(_, _, _) => None
    case Assign(ids, driver, c) => AssignRefusal(b, ids, driver, c)
    case Reassign(id, to, c) => ReassignRefusal(b, id, to, c)
    case Update(id, to, actor, _) => UpdateRefusal(b, id, to, actor)
    case Force(id, to, reasoned) => ForceRefusal(b, id, to, reasoned)
    case Confirm(id, actor, proof, _, _) => ConfirmRefusal(b, id, actor, proof)
    case Place(id, valid, hubKnown, _) => PlaceRefusal(b, id, valid, hubKnown)
    case Offer(ids, driver, registered, _) => OfferRefusal(b, ids, driver, registered)
    case Accept(id, driver) =>
      if id < |b.orders| && AcceptEnabled(b.orders[id], driver, b.now) then None else Some(OfferGone)
    case Decline(id, driver) =>
      if id < |b.orders| && b.orders[id].status.Offered? && b.orders[id].driver == Some(driver) then None
      else Some(OfferGone)
    case Sweep => None
    case PlanRun(ids, driver, creating) => PlanRefusal(b, ids, creating)
    case StopDone(id, _) => if id < |b.orders| then None else Some(NotFound)
    case Pay(id, step) => if id < |b.orders| then StepRefusal(b.orders[id], step) else Some(NotFound)
    case Tick(_) => None
  }

  predicate Commits(b: Board, e: Event) {
    !e.Create? && !e.Tick? && Refusal(b, e).None?
  }

  /** The rows a committed transaction writes, and what it writes to each. */
  function Effect(b: Board, e: Event): (set<nat>, RowEvent)
    requires Commits(b, e)
  {
    match e
    case Assign(ids, driver, _) => (Members(ids), RAssign(driver, VehicleOf(b.vehicles, driver).value))
    case Reassign(id, to, _) =>
      ({id}, if to.Or("") == "" then RUnassign else RReassign(to.value, VehicleOf(b.vehicles, to.value).value))
    case Update(id, to, _, wait) => ({id}, RMove(to, wait))
    case Force(id, to, _) => ({id}, RForce(to))
    case Confirm(id, _, _, wait, credit) => ({id}, RDeliver(wait, credit))
    case Place(id, _, _, quote) => ({id}, RPlace(quote))
    case Offer(ids, driver, _, minutes) => (Members(ids), ROffer(driver, b.now + OfferMinutes(minutes)))
    case Accept(id, _) => ({id}, RAccept)
    case Decline(id, driver) => ({id}, RDecline(driver))
    case Sweep => (LapsedOffers(b), RLapse)
    case PlanRun(ids, driver, _) => (Members(ids), RPlan(driver))
    case StopDone(id, kind) => ({id}, RStopDone(StopStatus(kind)))
    case Pay(id, step) => ({id}, RPay(step))
  }

  function Touch(orders: seq<Order>, ids: set<nat>, e: RowEvent): (r: seq<Order>)
    ensures |r| == |orders|
    ensures forall i :: 0 <= i < |orders| ==> r[i] == if i in ids then Row(orders[i], e) else orders[i]
  {
    seq(|orders|, i requires 0 <= i < |orders| => if i in ids then Row(orders[i], e) else orders[i])
  }

  lemma TouchingOneRow(orders: seq<Order>, id: nat, re: RowEvent)
    requires id < |orders|
    ensures Touch(orders, {id}, re) == orders[id := Row(orders[id], re)]
  {
  }

  lemma OneRowCommit(b: Board, e: Event, id: nat, re: RowEvent)
    requires Commits(b, e) && Effect(b, e) == ({id}, re) && id < |b.orders|
    ensures Next(b, e) == b.(orders := b.orders[id := Row(b.orders[id], re)])
  {
    TouchingOneRow(b.orders, id, re);
  }

  lemma RowsCommit(b: Board, e: Event, ids: set<nat>, re: RowEvent)
    requires Commits(b, e) && Effect(b, e) == (ids, re)
    ensures Next(b, e) == b.(orders := Touch(b.orders, ids, re))
  {
  }

  lemma RefusedChangesNothing(b: Board, e: Event)
    requires Refusal(b, e).Some?
    ensures Next(b, e) == b
  {
  }

  function NewOrder(weight: nat, placed: bool, q: Quote): Order {
    Order(Pending, None, None, weight, placed, [], OfferBook(None, {}, 0, []),
          Money(Unpaid, Some(q.total), !placed, Some(q.fee), Some(q.Net()), 0, 0, None, None, [], [], 0, None, 0,
                q.total))
  }

  function Next(b: Board, e: Event): Board {
    if e.Create? then b.(orders := b.orders + [NewOrder(e.weight, e.placed, e.quoted)])
    else if e.Tick? then b.(now := b.now + e.elapsed)
    else if Refusal(b, e).Some? then b
    else b.(orders := Touch(b.orders, Effect(b, e).0, Effect(b, e).1))
  }

  function Run(b: Board, es: seq<Event>): Board {
    if es == [] then b else Next(Run(b, es[..|es| - 1]), es[|es| - 1])
  }

  // ----- what a committed transaction knew about each row it wrote ----------

  predicate RowReady(o: Order, e: RowEvent, now: int) {
    match e
    case RAssign(_, _) => o.status.Pending? && o.placed
    case RUnassign => o.status.Assigned?
    case RReassign(_, _) => o.status.Assigned?
    case RMove(to, _) => CanTransition(o.status, to) && !(to.Cancelled? && o.money.payment.Paid?)
    case RForce(to) => o.status != to
    case RDeliver(_, _) => o.status.Arrived?
    case RPlace(_) => !o.money.payment.Paid? && !o.money.payment.Prompted?
    case ROffer(d, t) => o.status.Pending? && o.placed && d !in o.offer.declinedBy && t > now
    case RAccept => o.status.Offered? && (o.offer.expires.None? || o.offer.expires.value > now)
    case RDecline(d) => o.status.Offered? && o.driver == Some(d)
    case RLapse => SweepEnabled(o, now)
    case RPlan(_) => true
    case RStopDone(to) => to.PickedUp? || to.Delivered?
    case RPay(step) => StepReady(o, step)
  }

  lemma CountingMeansEveryOne(orders: seq<Order>, ids: seq<nat>, status: Status)
    requires |Matching(orders, ids, status)| == |ids|
    ensures Distinct(ids) && forall i :: i in ids ==> i < |orders| && orders[i].status == status
  {
    var found := Matching(orders, ids, status);
    MatchingIs(orders, ids, status);
    DistinctSize(found);
    MembersSize(ids);
    assert Members(found) <= Members(ids);
    SubsetOfSameSize(Members(found), Members(ids));
    forall i | i in ids ensures i < |orders| && orders[i].status == status {
      assert i in Members(ids);
      assert i in Members(found);
    }
    SameSizeDistinct(ids);
  }

  lemma {:induction false} MembersSize(ids: seq<nat>)
    ensures |Members(ids)| <= |ids|
  {
    if ids != [] {
      var last := |ids| - 1;
      MembersSize(ids[..last]);
      assert ids == ids[..last] + [ids[last]];
      assert Members(ids) == Members(ids[..last]) + {ids[last]};
    }
  }

  lemma {:induction false} DistinctSize(ids: seq<nat>)
    requires Distinct(ids)
    ensures |Members(ids)| == |ids|
  {
    if ids != [] {
      var last := |ids| - 1;
      DistinctSize(ids[..last]);
      assert ids == ids[..last] + [ids[last]];
      assert Members(ids) == Members(ids[..last]) + {ids[last]};
      assert ids[last] !in Members(ids[..last]);
    }
  }

  lemma {:induction false} SameSizeDistinct(ids: seq<nat>)
    requires |Members(ids)| == |ids|
    ensures Distinct(ids)
  {
    if ids != [] {
      var last := |ids| - 1;
      var init := ids[..last];
      assert ids == init + [ids[last]];
      assert Members(ids) == Members(init) + {ids[last]};
      MembersSize(init);
      assert ids[last] !in Members(init);
      SameSizeDistinct(init);
      forall i, j | 0 <= i < j < |ids| ensures ids[i] != ids[j] {
        if j == last { assert ids[i] in init; } else { assert init[i] != init[j]; }
      }
    }
  }

  lemma SubsetOfSameSize(a: set<nat>, b: set<nat>)
    requires a <= b && |a| >= |b|
    ensures a == b
  {
    assert |b - a| == |b| - |a|;
  }

  lemma AssignedRowsWereReady(b: Board, ids: seq<nat>, driver: string, c: Clearance, i: nat)
    requires AssignRefusal(b, ids, driver, c).None? && i in ids
    ensures i < |b.orders| && b.orders[i].status.Pending? && b.orders[i].placed
  {
    CountingMeansEveryOne(b.orders, ids, Pending);
    MatchingIs(b.orders, ids, Pending);
    assert i in Matching(b.orders, ids, Pending);
  }

  lemma OfferedRowsWereReady(b: Board, ids: seq<nat>, driver: string, registered: bool, i: nat)
    requires OfferRefusal(b, ids, driver, registered).None? && i in ids
    ensures i < |b.orders| && b.orders[i].status.Pending? && b.orders[i].placed
              && driver !in b.orders[i].offer.declinedBy
  {
    CountingMeansEveryOne(b.orders, ids, Pending);
    MatchingIs(b.orders, ids, Pending);
    assert i in Matching(b.orders, ids, Pending);
  }

  /** A committed transaction only ever writes rows that meet its row guard. */
  lemma CommittedRowsWereReady(b: Board, e: Event)
    requires Commits(b, e)
    ensures var (ids, re) := Effect(b, e);
            forall i :: i in ids ==> i < |b.orders| && RowReady(b.orders[i], re, b.now)
  {
    match e {
      case Assign(ids, driver, c) =>
        forall i: nat | i in ids ensures i < |b.orders| && b.orders[i].status.Pending? && b.orders[i].placed {
          AssignedRowsWereReady(b, ids, driver, c, i);
        }
      case Offer(ids, driver, registered, minutes) =>
        forall i: nat | i in ids
          ensures i < |b.orders| && RowReady(b.orders[i], ROffer(driver, b.now + OfferMinutes(minutes)), b.now)
        {
          OfferedRowsWereReady(b, ids, driver, registered, i);
        }
      case _ =>
    }
  }
}
