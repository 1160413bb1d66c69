/** What the customer owes, what was taken from them, what the order was credited
    with and how it is split.  A payment is several statements on two rows and a
    request at a provider, and other payments and transactions can fall between any
    two of them. */
module OrderMoney {
  import opened Prelude
  import opened OrderModel

  /** The order's price as its own history gives it: the last quote, plus every
      wait charged, less every return-leg credit given. */
  function Due(o: Order): int {
    o.money.base + o.money.detention - o.money.given
  }

  /** Before payment the price is what is due and nothing is recorded as taken;
      after it, the price is what was recorded, and with the adjustment it is what
      is due. */
  predicate Balanced(o: Order) {
    var m := o.money;
    if m.payment.Paid? then m.recorded.Some? && m.price == m.recorded && m.recorded.value + m.adjustment == Due(o)
    else m.recorded.None? && m.adjustment == 0 && m.price.Or(0) == Due(o)
  }

  /** The price and the adjustment, less the fee and the driver's share. */
  function Skew(m: Money): int {
    m.price.Or(0) + m.adjustment - m.fee.Or(0) - m.net.Or(0)
  }

  predicate SplitConserved(m: Money) {
    Skew(m) == 0
  }

  predicate PastPickup(s: Status) {
    s.PickedUp? || s.InTransit? || s.Arrived? || s.Delivered? || s.Cancelled?
  }

  predicate Engaged(m: Money) {
    m.payment.Paid? || m.request.Some? || m.tasks != []
  }

  /** Money is only ever asked for on a priced job that has left the pickup. */
  predicate AskedAfterPickup(o: Order) {
    Engaged(o.money) ==> PastPickup(o.status) && o.money.price.Some?
  }

  /** A number names one request: a verdict that was read on it is what the
      provider still says of it. */
  predicate Names(m: Money, t: Task) {
    match t
    case Calling(number) => number < |m.prompts|
    case Hearing(number, amount, verdict) =>
      number < |m.prompts| && amount == m.prompts[number].amount && m.VerdictOn(number) == Some(verdict)
    case _ => true
  }

  predicate Numbered(m: Money) {
    && (m.request.Some? ==>
          m.request.value.number < |m.prompts| && m.request.value.amount == m.prompts[m.request.value.number].amount)
    && forall i :: 0 <= i < |m.tasks| ==> Names(m, m.tasks[i])
  }

  /** A task that will ask the customer for this much, or has it from them already. */
  predicate Bears(t: Task) {
    t.Asking? || (t.Landing? && t.to.Paid?)
  }

  /** The customer is being asked for an amount, or has paid it and the order does
      not say so yet. */
  predicate InMotion(m: Money) {
    m.request.Some? || exists i :: 0 <= i < |m.tasks| && Bears(m.tasks[i])
  }

  /** Whatever amount is in motion is the price the order has now. */
  predicate Current(m: Money) {
    && (m.request.Some? ==> m.price == Some(m.request.value.amount))
    && forall i :: 0 <= i < |m.tasks| && Bears(m.tasks[i]) ==> m.price == Some(m.tasks[i].amount)
  }

  predicate ChargesPickupWait(o: Order, e: RowEvent) {
    e.RMove? && o.status.AtPickup? && e.wait.Or(0) != 0
  }

  predicate HandsOverAtAnotherPrice(o: Order, e: RowEvent) {
    e.RDeliver? && !o.money.payment.Paid? && e.wait.Or(0) != e.credit.Or(0)
  }

  predicate RepricesTo(o: Order, e: RowEvent) {
    e.RPlace? && e.quote.Some? && Some(e.quote.value.total) != o.money.price
  }

  /** A statement that sets the order's payment status without looking at it. */
  predicate TakesOutOfPaid(o: Order, e: RowEvent) {
    && e.RPay?
    && ((e.step.Land? && e.step.task < |o.money.tasks| && o.money.tasks[e.step.task].Landing?
         && !o.money.tasks[e.step.task].to.Paid?)
        || (e.step.Answered? && e.step.accepted))
  }

  predicate LandsPaid(o: Order, e: RowEvent) {
    e.RPay? && e.step.Land? && e.step.task < |o.money.tasks| && o.money.tasks[e.step.task].Landing?
      && o.money.tasks[e.step.task].to.Paid?
  }

  /** What keeps the books straight: no repricing over a wait or credit, no pickup
      wait on a paid job, no unguarded write over a paid job, and money landing
      only on an unpaid job that still has that price. */
  predicate KeepsBooks(o: Order, e: RowEvent) {
    var m := o.money;
    && (e.RPlace? && e.quote.Some? ==> m.detention == m.given)
    && !(m.payment.Paid? && ChargesPickupWait(o, e))
    && !(m.payment.Paid? && TakesOutOfPaid(o, e))
    && (LandsPaid(o, e) ==>
          if m.payment.Paid? then m.tasks[e.step.task].amount == 0 else m.price == Some(m.tasks[e.step.task].amount))
  }

  // ----- one write ----------------------------------------------------------------

  lemma TaskKeepsBooksExactly(o: Order, s: PayStep)
    requires StepReady(o, s) && AskedAfterPickup(o) && Balanced(o) && (s.Answered? || s.Land? || s.Take?)
    ensures Balanced(Row(o, RPay(s))) <==> KeepsBooks(o, RPay(s))
  {
  }

  lemma PaymentKeepsBooksExactly(o: Order, s: PayStep)
    requires StepReady(o, s) && AskedAfterPickup(o) && Balanced(o)
    ensures Balanced(Row(o, RPay(s))) <==> KeepsBooks(o, RPay(s))
  {
    if s.Answered? || s.Land? || s.Take? {
      TaskKeepsBooksExactly(o, s);
    } else {
      var m, r := o.money, o.money.Stepped(s);
      PaymentLeavesPrices(m, s);
      assert r.payment == m.payment && r.recorded == m.recorded && r.base == m.base && r.detention == m.detention
        && r.given == m.given;
    }
  }

  lemma RowBalancedExactly(o: Order, e: RowEvent, now: int)
    requires RowReady(o, e, now) && AskedAfterPickup(o) && Balanced(o)
    ensures Balanced(Row(o, e)) <==> KeepsBooks(o, e)
  {
    if e.RPay? { PaymentKeepsBooksExactly(o, e.step); }
  }

  lemma PaymentLeavesPrices(m: Money, s: PayStep)
    ensures var r := m.Stepped(s);
            && r.price == m.price && r.estimate == m.estimate && r.fee == m.fee && r.net == m.net
            && r.adjustment == m.adjustment && r.detention == m.detention && r.credit == m.credit
  {
  }

  lemma PaymentKeepsSkew(m: Money, s: PayStep)
    ensures Skew(m.Stepped(s)) == Skew(m)
  {
    PaymentLeavesPrices(m, s);
  }

  lemma WaitsKeepSkew(m: Money, wait: nat, back: Option<nat>)
    ensures Skew(m.WithPickupWait(wait)) == Skew(m)
    ensures Skew(m.AtHandover(wait, back)) == Skew(m)
  {
  }

  /** A wait or a credit moves the price and the driver's share alike; a quote is
      its own split. */
  lemma RowSkew(o: Order, e: RowEvent)
    ensures Skew(Row(o, e).money) == if e.RPlace? && e.quote.Some? then o.money.adjustment else Skew(o.money)
  {
    match e
    case RPay(s) =>
      PaymentKeepsSkew(o.money, s);
    case RMove(to, wait) =>
      WaitsKeepSkew(o.money, wait.Or(0), None);
    case RDeliver(wait, back) =>
      WaitsKeepSkew(o.money, wait.Or(0), back);
    case RPlace(_) =>
    case _ =>
      assert Row(o, e).money == o.money;
  }

  /** The platform's fee is what the last quote says, and nothing but a quote sets it.
      The driver's share is the rest of the quote, and from then on takes every wait
      and gives up every credit whole. */
  lemma RowFeeAndShare(o: Order, e: RowEvent)
    ensures Row(o, e).money.fee == if e.RPlace? && e.quote.Some? then Some(e.quote.value.fee) else o.money.fee
    ensures Row(o, e).money.net ==
            match e
            case RPlace(quote) => if quote == None then o.money.net else Some(quote.value.total - quote.value.fee)
            case RMove(to, wait) =>
              if o.status == AtPickup && to != AtPickup && wait != None then Some(o.money.net.Or(0) + wait.value)
              else o.money.net
            case RDeliver(wait, credit) => Some(o.money.net.Or(0) + wait.Or(0) - credit.Or(0))
            case _ => o.money.net
  {
    if e.RPay? { PaymentLeavesPrices(o.money, e.step); }
  }

  /** The fee of the last quote an order got, when it was created or placed. */
  function QuotedFee(b: Board, es: seq<Event>, i: nat): Option<int> {
    if es == [] then if i < |b.orders| then b.orders[i].money.fee else None
    else
      var before, e := Run(b, es[..|es| - 1]), es[|es| - 1];
      if e.Create? && i == |before.orders| then Some(e.quoted.fee)
      else if e.Place? && e.id == i && e.repriced.Some? && Commits(before, e) then Some(e.repriced.value.fee)
      else QuotedFee(b, es[..|es| - 1], i)
  }

  lemma StepFee(b: Board, e: Event, i: nat)
    requires i < |Next(b, e).orders|
    ensures |b.orders| <= |Next(b, e).orders| <= |b.orders| + (if e.Create? then 1 else 0)
    ensures Next(b, e).orders[i].money.fee ==
            if i == |b.orders| then Some(e.quoted.fee)
            else if e.Place? && e.id == i && e.repriced.Some? && Commits(b, e) then Some(e.repriced.value.fee)
            else b.orders[i].money.fee
  {
    if Commits(b, e) {
      var ids, re := Effect(b, e).0, Effect(b, e).1;
      RowsCommit(b, e, ids, re);
      RowFeeAndShare(b.orders[i], re);
    }
  }

  /** Over every run the fee is that of the last quote. */
  lemma {:induction false} FeeIsTheLastQuotes(b: Board, es: seq<Event>, i: nat)
    requires i < |Run(b, es).orders|
    ensures Run(b, es).orders[i].money.fee == QuotedFee(b, es, i)
  {
    if es != [] {
      var before := Run(b, es[..|es| - 1]);
      StepFee(before, es[|es| - 1], i);
      if i < |before.orders| { FeeIsTheLastQuotes(b, es[..|es| - 1], i); }
    }
  }

  /** Only the first statement of a payment engages an order. */
  lemma EngagedBefore(o: Order, step: PayStep)
    requires StepReady(o, step) && Engaged(o.money.Stepped(step))
    ensures Engaged(o.money) || PayRefusal(o).None?
  {
  }

  /** The split adds up after every write but one: repricing an order that still
      carries an adjustment from when it was paid. */
  lemma RowKeepsSplitExactly(o: Order, e: RowEvent)
    requires SplitConserved(o.money)
    ensures SplitConserved(Row(o, e).money) <==> !(e.RPlace? && e.quote.Some? && o.money.adjustment != 0)
  {
    RowSkew(o, e);
  }

  lemma RowAskedAfterPickupExactly(o: Order, e: RowEvent, now: int)
    requires RowReady(o, e, now) && AskedAfterPickup(o)
    ensures AskedAfterPickup(Row(o, e)) <==> (e.RForce? && Engaged(o.money) ==> PastPickup(e.to))
  {
    if e.RPay? {
      PaymentLeavesPrices(o.money, e.step);
      if Engaged(o.money.Stepped(e.step)) { EngagedBefore(o, e.step); }
    }
  }

  /** An order leaves PAID exactly when a request's failure, or the note that one
      was sent, is written over it.  Its price moves exactly when a wait at the
      pickup is charged, and what was taken changes only when money lands again. */
  lemma LeavesPaidExactly(o: Order, e: RowEvent, now: int)
    requires RowReady(o, e, now) && o.money.payment.Paid? && o.money.price.Some?
    ensures !Row(o, e).money.payment.Paid? <==> TakesOutOfPaid(o, e)
    ensures Row(o, e).money.recorded == o.money.recorded || LandsPaid(o, e)
    ensures Row(o, e).money.price == o.money.price <==> !ChargesPickupWait(o, e)
  {
    if e.RPay? {
      PaymentLeavesPrices(o.money, e.step);
      PaidAfterStep(o, e.step);
    }
  }

  /** What makes a payment statement leave the order PAID. */
  lemma PaidAfterStep(o: Order, s: PayStep)
    requires StepReady(o, s)
    ensures var e := RPay(s);
            Row(o, e).money.payment.Paid? <==>
              LandsPaid(o, e) || s.Take? || (o.money.payment.Paid? && !TakesOutOfPaid(o, e))
  {
  }

  /** Paid and called off at once comes about in exactly two ways: money written to
      an order that was cancelled meanwhile, and a forced cancellation. */
  lemma PaidAndCancelledExactly(o: Order, e: RowEvent, now: int)
    requires RowReady(o, e, now) && !(o.money.payment.Paid? && o.status.Cancelled?)
    ensures Row(o, e).money.payment.Paid? && Row(o, e).status.Cancelled? <==>
              || (o.status.Cancelled? && (LandsPaid(o, e) || (e.RPay? && e.step.Take?)))
              || (e == RForce(Cancelled) && o.money.payment.Paid?)
  {
    if e.RPay? {
      PaidAfterStep(o, e.step);
      assert Row(o, e).status == o.status;
    }
  }

  lemma FewerTasksStayNumbered(m: Money, i: nat)
    requires Numbered(m) && i < |m.tasks|
    ensures Numbered(m.Without(i)) && Numbered(m.Without(i).(request := None))
  {
  }

  /** A request that nobody has heard of yet can change at the provider. */
  lemma PromptStaysNumbered(m: Money, n: nat, state: PromptState)
    requires Numbered(m) && m.VerdictOn(n).None?
    ensures Numbered(m.WithPrompt(n, state))
  {
    var r := m.WithPrompt(n, state);
    forall i | 0 <= i < |r.tasks| ensures Names(r, r.tasks[i]) { assert Names(m, m.tasks[i]); }
  }

  lemma RaiseStaysNumbered(m: Money, i: nat)
    requires Numbered(m)
    ensures Numbered(m.Stepped(Raise(i)))
  {
    if i < |m.tasks| { FewerTasksStayNumbered(m, i); }
    var r := m.Stepped(Raise(i));
    forall j | 0 <= j < |r.tasks| && i < |m.tasks| && j != i ensures Names(r, r.tasks[j]) {
      assert Names(m, m.tasks[j]) || m.request.Some?;
      assert Names(m, r.tasks[j]);
    }
  }

  /** What becomes of a request away from the server. */
  predicate Remote(s: PayStep) {
    s.Reach? || s.Lose? || s.Approve? || s.Refuse?
  }

  lemma RemoteIs(o: Order, s: PayStep)
    requires StepReady(o, s) && Remote(s)
    ensures var m, r := o.money, o.money.Stepped(s);
            && r.request == m.request && r.tasks == m.tasks && r.payment == m.payment && r.recorded == m.recorded
            && s.number < |m.prompts| && m.VerdictOn(s.number).None?
            && match s
               case Reach(n) => m.prompts[n].state.Wired? && r == m.WithPrompt(n, Live)
               case Lose(n) => m.prompts[n].state.Wired? && r == m.WithPrompt(n, Lost)
               case Approve(n, paid) =>
                 m.prompts[n].state.Live? && r == m.WithPrompt(n, Approved(paid)).(moved := m.moved + paid)
               case Refuse(n) => m.prompts[n].state.Live? && r == m.WithPrompt(n, Refused)
  {
  }

  lemma RemoteStaysNumbered(o: Order, s: PayStep)
    requires StepReady(o, s) && Remote(s) && Numbered(o.money)
    ensures Numbered(o.money.Stepped(s))
  {
    RemoteIs(o, s);
    var m, r := o.money, o.money.Stepped(s);
    assert r.prompts == m.WithPrompt(s.number, r.prompts[s.number].state).prompts;
    PromptStaysNumbered(m, s.number, r.prompts[s.number].state);
  }

  /** A step that ends the task it continues. */
  predicate Ends(s: PayStep) {
    s.Answered? || s.Land? || s.Take?
  }

  lemma EndsIs(o: Order, s: PayStep)
    requires StepReady(o, s) && Ends(s)
    ensures var m, r := o.money, o.money.Stepped(s);
            && s.task < |m.tasks| && r.tasks == m.Without(s.task).tasks && r.prompts == m.prompts && r.price == m.price
            && (r.request == m.request || r.request.None?)
  {
  }

  lemma EndsNumbered(o: Order, s: PayStep)
    requires StepReady(o, s) && Ends(s) && Numbered(o.money)
    ensures Numbered(o.money.Stepped(s))
  {
    EndsIs(o, s);
    FewerTasksStayNumbered(o.money, s.task);
  }

  lemma StepKeepsNumbered(o: Order, s: PayStep)
    requires StepReady(o, s) && Numbered(o.money)
    ensures Numbered(o.money.Stepped(s))
  {
    if Remote(s) {
      RemoteStaysNumbered(o, s);
    } else if Ends(s) {
      EndsNumbered(o, s);
    } else if s.Raise? {
      RaiseStaysNumbered(o.money, s.task);
    } else if s.Resolve? {
      FewerTasksStayNumbered(o.money, s.task);
    }
  }

  /** A task that is over, or that bears the same amount as before, moves no money. */
  lemma FewerTasksKeepCurrent(m: Money, i: nat, t: Task)
    requires Current(m) && i < |m.tasks| && (Bears(t) ==> m.price == Some(t.amount))
    ensures Current(m.Without(i)) && Current(m.(tasks := m.tasks[i := t]))
    ensures Current(m.(request := None)) && Current(m.Without(i).(request := None))
  {
  }

  lemma ResolvingKeepsCurrent(m: Money, i: nat)
    requires Numbered(m) && Current(m) && i < |m.tasks| && m.tasks[i].Hearing?
    ensures Current(m.Resolved(i))
  {
    assert Names(m, m.tasks[i]);
    FewerTasksKeepCurrent(m, i,
                          if m.Resolved(i).tasks != m.Without(i).tasks then m.Resolved(i).tasks[i] else Collecting);
  }

  lemma PaymentStepKeepsCurrent(o: Order, s: PayStep)
    requires StepReady(o, s) && Numbered(o.money) && Current(o.money) && (o.money.tasks != [] ==> o.money.price.Some?)
    ensures Current(o.money.Stepped(s))
  {
    var m := o.money;
    PaymentLeavesPrices(m, s);
    if Remote(s) {
      RemoteIs(o, s);
    } else if Ends(s) {
      EndsIs(o, s);
      FewerTasksKeepCurrent(m, s.task, Collecting);
    } else if s.Resolve? {
      ResolvingKeepsCurrent(m, s.task);
    } else if s.Raise? {
      FewerTasksKeepCurrent(m, s.task, Calling(|m.prompts|));
    } else if s.Ask? {
      assert m.price == Some(m.price.Or(0));
    }
  }

  /** Amounts in motion that match one price match no other. */
  lemma CurrentAtAnotherPrice(m: Money, r: Money)
    requires m.request == r.request && m.tasks == r.tasks && Current(m)
    ensures Current(r) <==> (InMotion(m) ==> r.price == m.price)
  {
  }

  /** An amount in motion stays the order's price unless, while it is, the handover
      moves an unpaid price, a pickup wait is charged, or the order is repriced. */
  lemma CurrentExactly(o: Order, e: RowEvent, now: int)
    requires RowReady(o, e, now) && AskedAfterPickup(o) && Numbered(o.money) && Current(o.money)
    ensures Current(Row(o, e).money) <==>
              !(InMotion(o.money) && (HandsOverAtAnotherPrice(o, e) || ChargesPickupWait(o, e) || RepricesTo(o, e)))
  {
    if e.RPay? {
      PaymentStepKeepsCurrent(o, e.step);
    } else {
      var m, r := o.money, Row(o, e).money;
      assert m.request == r.request && m.tasks == r.tasks;
      CurrentAtAnotherPrice(m, r);
    }
  }

  /** A verdict that was read on the request still waiting. */
  predicate Counts(m: Money, t: Task) {
    t.Hearing? && m.Waiting(t.number)
  }

  /** A task that may still write the order whatever became of the request. */
  predicate Busy(t: Task) {
    !t.Hearing? || t.verdict.Mismatched?
  }

  predicate Idle(m: Money) {
    forall i :: 0 <= i < |m.tasks| ==> !Busy(m.tasks[i])
  }

  predicate NoneCounts(m: Money) {
    forall i :: 0 <= i < |m.tasks| ==> !Counts(m, m.tasks[i])
  }

  /** Two tasks that can each write the order. */
  predicate Clash(m: Money, t: Task, u: Task) {
    (Busy(t) && (Busy(u) || Counts(m, u))) || (Counts(m, t) && Busy(u))
  }

  /** What an order looks like while one of its tasks is under way. */
  predicate Fits(m: Money, t: Task) {
    && (Busy(t) ==> !m.payment.Paid?)
    && (t.Asking? || t.Collecting? || t.Landing? ==> m.request.None?)
    && (t.Hearing? && Busy(t) && m.request.Some? ==> m.Waiting(t.number))
  }

  /** One payment at a time.  Any number of verdicts on one request may have been
      read, as long as they can only write the order through it. */
  predicate Orderly(m: Money) {
    && (m.payment.Paid? ==> m.request.None?)
    && (forall i :: 0 <= i < |m.tasks| ==> Fits(m, m.tasks[i]))
    && (forall i, j :: 0 <= i < j < |m.tasks| ==> !Clash(m, m.tasks[i], m.tasks[j]))
  }

  /** A first statement that comes while no other payment of the order can write. */
  predicate Alone(m: Money, s: PayStep) {
    && (s.Ask? || s.Hear? || s.Collect? ==> Idle(m))
    && (s.Hear? && m.request.Some? && m.VerdictOn(m.request.value.number) == Some(Mismatched) ==> NoneCounts(m))
  }

  lemma FewerTasksStayOrderly(m: Money, i: nat)
    requires Orderly(m) && i < |m.tasks|
    ensures Orderly(m.Without(i)) && Orderly(m.Without(i).(request := None)) && Orderly(m.(request := None))
    ensures Busy(m.tasks[i]) ==> Idle(m.Without(i)) && NoneCounts(m.Without(i))
  {
  }

  /** One more task joins in order exactly when it fits and clashes with none. */
  lemma OneMoreTask(m: Money, t: Task)
    requires Orderly(m)
    ensures Orderly(m.(tasks := m.tasks + [t])) <==>
              Fits(m, t) && forall i :: 0 <= i < |m.tasks| ==> !Clash(m, m.tasks[i], t)
  {
    var r := m.(tasks := m.tasks + [t]);
    assert r.tasks[|m.tasks|] == t;
    assert forall i :: 0 <= i < |m.tasks| ==> r.tasks[i] == m.tasks[i];
    if Orderly(r) {
      forall i | 0 <= i < |m.tasks| ensures !Clash(m, m.tasks[i], t) {
        assert !Clash(r, r.tasks[i], r.tasks[|m.tasks|]);
      }
    }
  }

  lemma BeginningIsOrderlyExactly(o: Order, s: PayStep)
    requires StepReady(o, s) && Orderly(o.money) && (s.Ask? || s.Hear? || s.Collect?)
    ensures Orderly(o.money.Stepped(s)) <==> Alone(o.money, s)
  {
    var m := o.money;
    match s
    case Ask(_, _) => OneMoreTask(m, Asking(m.price.Or(0)));
    case Hear =>
      var r := m.request.value;
      OneMoreTask(m, Hearing(r.number, r.amount, m.VerdictOn(r.number).value));
    case Collect => OneMoreTask(m, Collecting);
  }

  lemma ResolvingStaysOrderly(m: Money, i: nat)
    requires Orderly(m) && i < |m.tasks| && m.tasks[i].Hearing?
    ensures Orderly(m.Resolved(i))
  {
    FewerTasksStayOrderly(m, i);
  }

  lemma RaisingStaysOrderly(m: Money, i: nat)
    requires Orderly(m) && Numbered(m) && i < |m.tasks| && m.tasks[i].Asking?
    ensures Orderly(m.Stepped(Raise(i)))
  {
    FewerTasksStayOrderly(m, i);
    assert m.request.None?;
    forall j | 0 <= j < |m.tasks| && j != i ensures !Busy(m.tasks[j]) && Names(m, m.tasks[j]) {
      assert !Clash(m, m.tasks[if i < j then i else j], m.tasks[if i < j then j else i]);
    }
  }

  lemma EndingStaysOrderly(m: Money, s: PayStep)
    requires Orderly(m)
    requires (s.Answered? && s.task < |m.tasks| && m.tasks[s.task].Calling?)
               || (s.Land? && s.task < |m.tasks| && m.tasks[s.task].Landing?)
          || (s.Take? && s.task < |m.tasks| && m.tasks[s.task].Collecting?)
    ensures Orderly(m.Stepped(s))
  {
    FewerTasksStayOrderly(m, s.task);
    assert Fits(m, m.tasks[s.task]);
  }

  lemma ContinuingStaysOrderly(o: Order, s: PayStep)
    requires StepReady(o, s) && Orderly(o.money) && Numbered(o.money) && !(s.Ask? || s.Hear? || s.Collect?)
    ensures Orderly(o.money.Stepped(s))
  {
    match s
    case Raise(i) => RaisingStaysOrderly(o.money, i);
    case Resolve(i) => ResolvingStaysOrderly(o.money, i);
    case Answered(i, _) => EndingStaysOrderly(o.money, s);
    case Land(i) => EndingStaysOrderly(o.money, s);
    case Take(i) => EndingStaysOrderly(o.money, s);
    case _ =>
  }

  lemma RowOrderlyExactly(o: Order, e: RowEvent, now: int)
    requires RowReady(o, e, now) && Numbered(o.money) && Orderly(o.money)
    ensures Orderly(Row(o, e).money) <==> (e.RPay? ==> Alone(o.money, e.step))
  {
    if e.RPay? {
      if e.step.Ask? || e.step.Hear? || e.step.Collect? { BeginningIsOrderlyExactly(o, e.step); }
      else { ContinuingStaysOrderly(o, e.step); }
    }
  }

  // ----- what was taken and what the order was credited with ------------------------

  /** What tasks are about to credit the order with. */
  function Landings(tasks: seq<Task>): int {
    if tasks == [] then 0
    else
      Landings(tasks[..|tasks| - 1]) + Credit(tasks[|tasks| - 1])
  }

  function Credit(t: Task): int {
    if t.Landing? && t.to.Paid? then t.amount else 0
  }

  /** What a request has moved. */
  function Taken(p: PromptState): int {
    if p.Approved? then p.paid else 0
  }

  /** Money the customer has parted with that the server will still learn of. */
  function OnTheWay(m: Money): int {
    (if m.request.Some? then Taken(m.StateOf(m.request.value.number)) else 0) + Landings(m.tasks)
  }

  /** A request that can still take the customer's money, or has taken it. */
  predicate AtStake(p: PromptState) {
    p.Wired? || p.Live? || (p.Approved? && p.paid != 0)
  }

  /** Every request that can still take money is the one the server waits on, and
      all money taken is on the order or on its way there. */
  predicate Faithful(m: Money) {
    && m.moved == m.recorded.Or(0) + OnTheWay(m)
    && forall n :: 0 <= n < |m.prompts| && (m.prompts[n].state.Wired? || m.prompts[n].state.Live?) ==> m.Waiting(n)
  }

  /** The server stops waiting for a request that can still take money or has: it
      times it out, takes the call for failed, or finds another sum than it asked
      for. */
  predicate GivesUp(m: Money, s: PayStep) {
    match s
    case TimeOut => m.request.Some? && AtStake(m.StateOf(m.request.value.number))
    case Answered(i, accepted) =>
      && !accepted && i < |m.tasks| && m.tasks[i].Calling?
      && m.Waiting(m.tasks[i].number) && AtStake(m.StateOf(m.tasks[i].number))
    case Resolve(i) =>
      && i < |m.tasks| && m.tasks[i].Hearing? && m.tasks[i].verdict.Mismatched?
      && m.Waiting(m.tasks[i].number) && AtStake(m.StateOf(m.tasks[i].number))
    case _ => false
  }

  predicate Abandons(o: Order, e: RowEvent) {
    e.RPay? && GivesUp(o.money, e.step)
  }

  lemma {:induction false} LandingsOfSum(a: seq<Task>, b: seq<Task>)
    ensures Landings(a + b) == Landings(a) + Landings(b)
  {
    if b == [] {
      assert a + b == a;
    } else {
      assert (a + b)[..|a + b| - 1] == a + b[..|b| - 1];
      LandingsOfSum(a, b[..|b| - 1]);
    }
  }

  lemma LandingsOfChange(m: Money, i: nat, t: Task)
    requires i < |m.tasks|
    ensures Landings(m.Without(i).tasks) == Landings(m.tasks) - Credit(m.tasks[i])
    ensures Landings(m.tasks[i := t]) == Landings(m.tasks) - Credit(m.tasks[i]) + Credit(t)
    ensures Landings(m.tasks + [t]) == Landings(m.tasks) + Credit(t)
  {
    var a, x, b := m.tasks[..i], m.tasks[i], m.tasks[i + 1..];
    OneLanding(x);
    OneLanding(t);
    assert m.tasks == a + ([x] + b) && m.tasks[i := t] == a + ([t] + b);
    LandingsOfSum(a, [x] + b);
    LandingsOfSum([x], b);
    LandingsOfSum(a, b);
    LandingsOfSum(a, [t] + b);
    LandingsOfSum([t], b);
    LandingsOfSum(m.tasks, [t]);
  }

  lemma OneLanding(t: Task)
    ensures Landings([t]) == Credit(t)
  {
    assert [t][..0] == [];
  }

  lemma BeginningStaysFaithful(o: Order, s: PayStep)
    requires StepReady(o, s) && Faithful(o.money) && (s.Ask? || s.Hear? || s.Collect?)
    ensures Faithful(o.money.Stepped(s))
  {
    var m, r := o.money, o.money.Stepped(s);
    var t := r.tasks[|m.tasks|];
    assert r == m.(tasks := m.tasks + [t]) && Credit(t) == 0;
    OneLanding(t);
    LandingsOfSum(m.tasks, [t]);
  }

  lemma RaisingStaysFaithful(o: Order, i: nat)
    requires StepReady(o, Raise(i)) && Numbered(o.money) && Faithful(o.money)
    ensures Faithful(o.money.Stepped(Raise(i)))
  {
    LandingsOfChange(o.money, i, Calling(|o.money.prompts|));
  }

  lemma RemoteStaysFaithful(o: Order, s: PayStep)
    requires StepReady(o, s) && Remote(s) && Faithful(o.money)
    ensures Faithful(o.money.Stepped(s))
  {
    RemoteIs(o, s);
  }

  lemma AnswerFaithfulExactly(o: Order, i: nat, accepted: bool)
    requires StepReady(o, Answered(i, accepted)) && Numbered(o.money) && Faithful(o.money)
    ensures Faithful(o.money.Stepped(Answered(i, accepted))) <==> !GivesUp(o.money, Answered(i, accepted))
  {
    var m, r := o.money, o.money.Stepped(Answered(i, accepted));
    LandingsOfChange(m, i, Collecting);
    if !accepted && m.Waiting(m.tasks[i].number) {
      assert r == m.Without(i).(request := None);
      NoLongerWaiting(m, r, m.tasks[i].number);
    }
  }

  lemma LandingStaysFaithful(o: Order, i: nat)
    requires StepReady(o, Land(i)) && Faithful(o.money)
    ensures Faithful(o.money.Stepped(Land(i)))
  {
    var m, r := o.money, o.money.Stepped(Land(i));
    LandingsOfChange(m, i, Collecting);
    assert r.tasks == m.Without(i).tasks && r.prompts == m.prompts && r.request == m.request;
  }

  lemma TakingStaysFaithful(o: Order, i: nat)
    requires StepReady(o, Take(i)) && Faithful(o.money)
    ensures Faithful(o.money.Stepped(Take(i)))
  {
    var m, r := o.money, o.money.Stepped(Take(i));
    LandingsOfChange(m, i, Collecting);
    assert r.tasks == m.Without(i).tasks && r.prompts == m.prompts && r.request == m.request;
  }

  lemma NoLongerWaiting(m: Money, r: Money, n: nat)
    requires Faithful(m) && m.Waiting(n) && n < |m.prompts|
    requires r.request.None? && r.prompts == m.prompts && r.moved == m.moved && r.recorded == m.recorded
    requires Landings(r.tasks) == Landings(m.tasks)
    ensures Faithful(r) <==> !AtStake(m.StateOf(n))
  {
    if m.prompts[n].state.Wired? || m.prompts[n].state.Live? { assert r.prompts[n] == m.prompts[n] && !r.Waiting(n); }
  }

  lemma ResolvingIs(m: Money, i: nat)
    requires i < |m.tasks| && m.tasks[i].Hearing?
    ensures var r, t := m.Resolved(i), m.tasks[i];
            && r.prompts == m.prompts && r.moved == m.moved && r.recorded == m.recorded
            && r.request == (if m.Waiting(t.number) then None else m.request)
            && Landings(r.tasks)
               == Landings(m.tasks) + if m.Waiting(t.number) && t.verdict.Succeeded? then t.amount else 0
  {
    var t := m.tasks[i];
    LandingsOfChange(m, i, Landing(if t.verdict.Succeeded? then Paid else Failed, t.amount));
  }

  lemma ResolvingFaithfulExactly(o: Order, i: nat)
    requires StepReady(o, Resolve(i)) && Numbered(o.money) && Faithful(o.money)
    ensures Faithful(o.money.Stepped(Resolve(i))) <==> !GivesUp(o.money, Resolve(i))
  {
    var m, r := o.money, o.money.Resolved(i);
    var t := m.tasks[i];
    assert Names(m, t);
    ResolvingIs(m, i);
    if m.Waiting(t.number) && !t.verdict.Succeeded? { NoLongerWaiting(m, r, t.number); }
  }

  /** All money the customer parts with is on the order or on its way there for as
      long as the server never gives up on a request that can still take money. */
  lemma PaymentFaithfulExactly(o: Order, s: PayStep)
    requires StepReady(o, s) && Numbered(o.money) && Faithful(o.money)
    ensures Faithful(o.money.Stepped(s)) <==> !GivesUp(o.money, s)
  {
    if Remote(s) {
      RemoteStaysFaithful(o, s);
    } else if s.Answered? {
      AnswerFaithfulExactly(o, s.task, s.accepted);
    } else if s.Land? {
      LandingStaysFaithful(o, s.task);
    } else if s.Take? {
      TakingStaysFaithful(o, s.task);
    } else if s.Resolve? {
      ResolvingFaithfulExactly(o, s.task);
    } else if s.Raise? {
      RaisingStaysFaithful(o, s.task);
    } else if s.TimeOut? {
      NoLongerWaiting(o.money, o.money.(request := None), o.money.request.value.number);
    } else {
      BeginningStaysFaithful(o, s);
    }
  }

  lemma RowFaithfulExactly(o: Order, e: RowEvent, now: int)
    requires RowReady(o, e, now) && Numbered(o.money) && Faithful(o.money)
    ensures Faithful(Row(o, e).money) <==> !Abandons(o, e)
  {
    if e.RPay? { PaymentFaithfulExactly(o, e.step); }
  }

  /** The books of one order: the price is due, what was recorded is the price, and
      nothing was taken that is not recorded or about to be. */
  predicate Straight(o: Order) {
    Balanced(o) && Faithful(o.money)
  }

  lemma RowStraightExactly(o: Order, e: RowEvent, now: int)
    requires RowReady(o, e, now) && AskedAfterPickup(o) && Numbered(o.money) && Straight(o)
    ensures Straight(Row(o, e)) <==> KeepsBooks(o, e) && !Abandons(o, e)
  {
    RowBalancedExactly(o, e, now);
    RowFaithfulExactly(o, e, now);
  }

  // ----- one payment at a time -------------------------------------------------------

  /** Everything that is kept while payments of one order do not overlap and none is
      given up. */
  predicate Settled(o: Order) {
    && Straight(o) && SplitConserved(o.money) && AskedAfterPickup(o)
    && Numbered(o.money) && Current(o.money) && Orderly(o.money)
  }

  /** What must not happen: a forced change, a repricing over a wait, a credit or an
      amount in motion, a handover at another price while an amount is in motion, a
      payment begun while another is under way, and giving up on a request that can
      still take money. */
  predicate Checked(o: Order, e: RowEvent) {
    && !e.RForce?
    && (e.RPlace? && e.quote.Some? ==> o.money.detention == o.money.given && !InMotion(o.money))
    && (e.RDeliver? && InMotion(o.money) ==> e.wait.Or(0) == e.credit.Or(0))
    && (e.RPay? ==> Alone(o.money, e.step) && !GivesUp(o.money, e.step))
  }

  lemma CheckedKeepsBooks(o: Order, e: RowEvent, now: int)
    requires RowReady(o, e, now) && Settled(o) && Checked(o, e)
    ensures KeepsBooks(o, e)
  {
  }

  lemma RowKeepsSettled(o: Order, e: RowEvent, now: int)
    requires RowReady(o, e, now) && Settled(o) && Checked(o, e)
    ensures Settled(Row(o, e)) && StillPaid(o, Row(o, e))
  {
    CheckedKeepsBooks(o, e, now);
    RowStraightExactly(o, e, now);
    RowKeepsSplitExactly(o, e);
    RowAskedAfterPickupExactly(o, e, now);
    CurrentExactly(o, e, now);
    if e.RPay? { StepKeepsNumbered(o, e.step); }
    RowOrderlyExactly(o, e, now);
    if o.money.payment.Paid? { LeavesPaidExactly(o, e, now); }
  }

  lemma {:induction false} NoLandings(tasks: seq<Task>)
    requires forall i :: 0 <= i < |tasks| ==> !tasks[i].Landing?
    ensures Landings(tasks) == 0
  {
    if tasks != [] { NoLandings(tasks[..|tasks| - 1]); }
  }

  /** On a settled order everything taken is accounted for: once it is paid the
      customer has parted with the price and no more, and before that with nothing
      but what is on its way. */
  lemma SettledTakings(o: Order)
    requires Settled(o)
    ensures var m := o.money;
            if m.payment.Paid? then m.price == Some(m.moved) && m.moved + m.adjustment == Due(o)
            else m.moved == OnTheWay(m)
  {
    var m := o.money;
    if m.payment.Paid? {
      forall i | 0 <= i < |m.tasks| ensures !m.tasks[i].Landing? { assert Fits(m, m.tasks[i]); }
      NoLandings(m.tasks);
    }
  }

  // ----- the whole board ------------------------------------------------------

  ghost predicate Split(b: Board) {
    forall i :: 0 <= i < |b.orders| ==> SplitConserved(b.orders[i].money)
  }

  ghost predicate AllStraight(b: Board) {
    forall i :: 0 <= i < |b.orders| ==> Straight(b.orders[i])
  }

  ghost predicate AskedLate(b: Board) {
    forall i :: 0 <= i < |b.orders| ==> AskedAfterPickup(b.orders[i])
  }

  ghost predicate AllSettled(b: Board) {
    forall i :: 0 <= i < |b.orders| ==> Settled(b.orders[i])
  }

  predicate RepricesAdjusted(b: Board, e: Event) {
    Commits(b, e) && e.Place? && e.repriced.Some? && b.orders[e.id].money.adjustment != 0
  }

  lemma StepKeepsSplitExactly(b: Board, e: Event)
    requires Split(b)
    ensures Split(Next(b, e)) <==> !RepricesAdjusted(b, e)
  {
    if Commits(b, e) {
      CommittedRowsWereReady(b, e);
      var ids, re := Effect(b, e).0, Effect(b, e).1;
      var after := Touch(b.orders, ids, re);
      assert Next(b, e).orders == after;
      var placing := re.RPlace? && re.quote.Some?;
      forall i | 0 <= i < |b.orders|
        ensures SplitConserved(after[i].money) <==> !(i in ids && placing && b.orders[i].money.adjustment != 0)
      {
        if i in ids { RowKeepsSplitExactly(b.orders[i], re); }
      }
      if e.Place? { assert ids == {e.id}; } else { assert !placing; }
    }
  }

  /** The split adds up after every run of transactions, forced ones and
      overlapping payments included, that reprices no adjusted order. */
  lemma {:induction false} SplitConservedEveryRun(b: Board, es: seq<Event>)
    requires Split(b)
    requires forall k :: 0 <= k < |es| ==> !RepricesAdjusted(Run(b, es[..k]), es[k])
    ensures Split(Run(b, es))
  {
    if es != [] {
      var last := |es| - 1;
      forall k | 0 <= k < last ensures !RepricesAdjusted(Run(b, es[..last][..k]), es[..last][k]) {
        assert es[..last][..k] == es[..k];
      }
      SplitConservedEveryRun(b, es[..last]);
      StepKeepsSplitExactly(Run(b, es[..last]), es[last]);
    }
  }

  ghost predicate Careful(b: Board, e: Event) {
    Commits(b, e) ==>
      var re := Effect(b, e).1;
      forall i :: i in Effect(b, e).0 && i < |b.orders| ==>
        KeepsBooks(b.orders[i], re) && !Abandons(b.orders[i], re)
  }

  ghost predicate AllNumbered(b: Board) {
    forall i :: 0 <= i < |b.orders| ==> Numbered(b.orders[i].money)
  }

  lemma StepKeepsBooksExactly(b: Board, e: Event)
    requires AskedLate(b) && AllNumbered(b) && AllStraight(b)
    ensures AllStraight(Next(b, e)) <==> Careful(b, e)
  {
    if Commits(b, e) {
      CommittedRowsWereReady(b, e);
      var ids, re := Effect(b, e).0, Effect(b, e).1;
      var after := Touch(b.orders, ids, re);
      assert Next(b, e).orders == after;
      forall i | 0 <= i < |b.orders|
        ensures Straight(after[i]) <==>
                  (i in ids ==> KeepsBooks(b.orders[i], re) && !Abandons(b.orders[i], re))
      {
        if i in ids { RowStraightExactly(b.orders[i], re, b.now); }
      }
    }
  }

  predicate Accounted(m: Money) {
    Numbered(m) && Faithful(m)
  }

  lemma RowAccountedExactly(o: Order, e: RowEvent, now: int)
    requires RowReady(o, e, now) && Accounted(o.money)
    ensures Accounted(Row(o, e).money) <==> !Abandons(o, e)
  {
    RowFaithfulExactly(o, e, now);
    if e.RPay? { StepKeepsNumbered(o, e.step); }
  }

  ghost predicate AllAccounted(b: Board) {
    forall i :: 0 <= i < |b.orders| ==> Accounted(b.orders[i].money)
  }

  /** The transaction gives up on such a request. */
  ghost predicate GivesUpOne(b: Board, e: Event) {
    Commits(b, e) && exists i :: i in Effect(b, e).0 && i < |b.orders| && Abandons(b.orders[i], Effect(b, e).1)
  }

  lemma StepKeepsTakingsExactly(b: Board, e: Event)
    requires AllAccounted(b)
    ensures AllAccounted(Next(b, e)) <==> !GivesUpOne(b, e)
  {
    if Commits(b, e) {
      CommittedRowsWereReady(b, e);
      var ids, re := Effect(b, e).0, Effect(b, e).1;
      RowsCommit(b, e, ids, re);
      var after := Touch(b.orders, ids, re);
      forall i | 0 <= i < |b.orders|
        ensures Accounted(after[i].money) <==> !(i in ids && Abandons(b.orders[i], re))
      {
        if i in ids { RowAccountedExactly(b.orders[i], re, b.now); }
      }
    }
  }

  /** Over every run, with forced changes and overlapping payments, in which the
      server never gives up on a request that can still take money: what customers
      parted with is on their orders or on its way there. */
  lemma {:induction false} TakingsOverEveryRun(b: Board, es: seq<Event>)
    requires AllAccounted(b)
    requires forall k :: 0 <= k < |es| ==> !GivesUpOne(Run(b, es[..k]), es[k])
    ensures AllAccounted(Run(b, es))
  {
    if es != [] {
      var last := |es| - 1;
      forall k | 0 <= k < last ensures !GivesUpOne(Run(b, es[..last][..k]), es[..last][k]) {
        assert es[..last][..k] == es[..k];
      }
      TakingsOverEveryRun(b, es[..last]);
      StepKeepsTakingsExactly(Run(b, es[..last]), es[last]);
    }
  }

  ghost predicate AllChecked(b: Board, e: Event) {
    Commits(b, e) ==> forall i :: i in Effect(b, e).0 && i < |b.orders| ==> Checked(b.orders[i], Effect(b, e).1)
  }

  ghost predicate CheckedRun(b: Board, es: seq<Event>) {
    forall k :: 0 <= k < |es| ==> AllChecked(Run(b, es[..k]), es[k])
  }

  /** A paid order's payment, price and takings, as they were. */
  predicate StillPaid(o: Order, r: Order) {
    o.money.payment.Paid? ==>
      r.money.payment.Paid? && r.money.recorded == o.money.recorded && r.money.price == o.money.price
  }

  lemma StepKeepsSettled(b: Board, e: Event)
    requires AllSettled(b) && AllChecked(b, e)
    ensures AllSettled(Next(b, e)) && |Next(b, e).orders| >= |b.orders|
    ensures forall i :: 0 <= i < |b.orders| ==> StillPaid(b.orders[i], Next(b, e).orders[i])
  {
    if Commits(b, e) {
      CommittedRowsWereReady(b, e);
      var ids, re := Effect(b, e).0, Effect(b, e).1;
      var after := Touch(b.orders, ids, re);
      assert Next(b, e).orders == after;
      forall i | 0 <= i < |b.orders| ensures Settled(after[i]) && StillPaid(b.orders[i], after[i]) {
        if i in ids { RowKeepsSettled(b.orders[i], re, b.now); }
      }
    }
  }

  lemma CheckedRunPrefix(b: Board, es: seq<Event>)
    requires es != [] && CheckedRun(b, es)
    ensures CheckedRun(b, es[..|es| - 1]) && AllChecked(Run(b, es[..|es| - 1]), es[|es| - 1])
  {
    var last := |es| - 1;
    forall k | 0 <= k < last ensures AllChecked(Run(b, es[..last][..k]), es[..last][k]) {
      assert es[..last][..k] == es[..k];
    }
  }

  /** Whenever the customer pays, before or after the handover, in cash or by
      mobile money, they part with the price once and for all: what they paid plus
      the adjustment is the quote plus the waits less the credits, and once paid an
      order stays paid at that price. */
  lemma {:induction false} SettlementOverEveryRun(b: Board, es: seq<Event>)
    requires AllSettled(b) && CheckedRun(b, es)
    ensures AllSettled(Run(b, es)) && |Run(b, es).orders| >= |b.orders|
    ensures forall i :: 0 <= i < |b.orders| ==> StillPaid(b.orders[i], Run(b, es).orders[i])
    ensures forall i :: 0 <= i < |Run(b, es).orders| ==>
              var m := Run(b, es).orders[i].money;
              if m.payment.Paid? then m.price == Some(m.moved)
                && m.moved + m.adjustment == m.base + m.detention - m.given
              else m.moved == OnTheWay(m)
  {
    if es != [] {
      CheckedRunPrefix(b, es);
      SettlementOverEveryRun(b, es[..|es| - 1]);
      StepKeepsSettled(Run(b, es[..|es| - 1]), es[|es| - 1]);
    }
    forall i | 0 <= i < |Run(b, es).orders|
      ensures var m := Run(b, es).orders[i].money;
              if m.payment.Paid? then m.price == Some(m.moved)
                && m.moved + m.adjustment == m.base + m.detention - m.given
              else m.moved == OnTheWay(m)
    {
      SettledTakings(Run(b, es).orders[i]);
    }
  }

  // ----- the return-leg column ---------------------------------------------------

  /** The return-leg column holds the last credit given.  It is all that was given
      unless an order is forced back and delivered with a credit a second time. */
  lemma CreditColumnExactly(o: Order, e: RowEvent)
    requires o.money.credit.Or(0) == o.money.given
    ensures var r := Row(o, e).money;
            r.credit.Or(0) == r.given <==> !(e.RDeliver? && e.credit.Some? && o.money.given != 0)
  {
    if e.RPay? { PaymentLeavesCredit(o.money, e.step); }
  }

  lemma PaymentLeavesCredit(m: Money, s: PayStep)
    ensures m.Stepped(s).credit == m.credit && m.Stepped(s).given == m.given
  {
  }
}
