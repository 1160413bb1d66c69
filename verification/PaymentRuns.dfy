/** Runs of payments that end with the wrong books, and two that end with the same. */
module PaymentRuns {
  import opened Prelude
  import opened OrderModel
  import opened OrderMoney

  /** What is said of an order's fare, what it is, what was recorded as taken and what
      the customer has parted with. */
  datatype Books = Books(payment: Payment, price: Option<int>, recorded: Option<int>, moved: int)

  function BooksOf(o: Order): Books {
    Books(o.money.payment, o.money.price, o.money.recorded, o.money.moved)
  }

  /** Payment steps of one order that follow one another, and the order after each. */
  datatype Course = Course(first: Order, steps: seq<PayStep>, states: seq<Order>) {
    function Before(i: nat): Order
      requires i <= |states|
    {
      if i == 0 then first else states[i - 1]
    }

    function End(): Order {
      Before(|states|)
    }

    predicate Link(i: nat) {
      && i < |steps| && i < |states|
      && StepReady(Before(i), steps[i]) && states[i] == Row(Before(i), RPay(steps[i]))
    }

    predicate Valid() {
      |states| == |steps| && forall i :: 0 <= i < |steps| ==> Link(i)
    }

    /** Where it begins and where it ends, if every step could be taken. */
    function Span(): Option<(Order, Order)> {
      if Valid() then Some((first, End())) else None
    }

    predicate Leads(o: Order, p: Order) {
      Span() == Some((o, p))
    }

    /** The books it leaves an order with that it begins at. */
    function Result(o: Order): Option<Books> {
      if Valid() && first == o then Some(BooksOf(End())) else None
    }
  }

  function Start(o: Order): (c: Course)
    ensures c.Leads(o, o)
  {
    Course(o, [], [])
  }

  lemma Then(c: Course, s: PayStep) returns (d: Course)
    requires c.Valid() && StepReady(c.End(), s)
    ensures d.steps == c.steps + [s] && d.Leads(c.first, c.End().(money := c.End().money.Stepped(s)))
  {
    d := Course(c.first, c.steps + [s], c.states + [Row(c.End(), RPay(s))]);
    forall i | 0 <= i < |d.steps| ensures d.Link(i) {
      if i < |c.steps| { assert c.Link(i) && d.Before(i) == c.Before(i); }
    }
  }

  // ----- what the pieces come to ---------------------------------------------------

  /** Cash is recorded whatever else is under way, as long as no request waits. */
  lemma CashTaken(c: Course) returns (d: Course)
    requires c.Valid() && PayRefusal(c.End()).None? && c.End().money.request.None?
    ensures var p := c.End();
            var price := p.money.price.value;
            && d.steps == c.steps + [Collect, Take(|p.money.tasks|)]
            && d.Leads(c.first, p.(money := p.money.TakenIn(price).(moved := p.money.moved + price)))
  {
    var p := c.End();
    d := Then(c, Collect);
    assert d.End().money == p.money.(tasks := p.money.tasks + [Collecting]);
    assert d.End().money.Without(|p.money.tasks|) == p.money;
    d := Then(d, Take(|p.money.tasks|));
  }

  /** A request for the price is written, and is on its way to the customer. */
  lemma RequestRaised(c: Course) returns (d: Course)
    requires c.Valid() && PayRefusal(c.End()).None? && c.End().money.request.None?
    ensures var p := c.End();
            var m, n, price := p.money, |p.money.prompts|, p.money.price.value;
            var r := m.(tasks := m.tasks + [Calling(n)], prompts := m.prompts + [Prompt(price, Wired)],
                        request := Some(Asked(n, price)));
            d.Leads(c.first, p.(money := r))
  {
    var m := c.End().money;
    d := Then(c, Ask(true, true));
    assert d.End().money == m.(tasks := m.tasks + [Asking(m.price.value)]);
    d := Then(d, Raise(|m.tasks|));
    assert d.End().money.tasks == m.tasks + [Calling(|m.prompts|)];
  }

  lemma RequestReaches(c: Course, n: nat) returns (d: Course)
    requires c.Valid() && n < |c.End().money.prompts| && c.End().money.prompts[n].state.Wired?
    ensures d.Leads(c.first, c.End().(money := c.End().money.WithPrompt(n, Live)))
  {
    d := Then(c, Reach(n));
  }

  /** The provider's answer to the one call under way comes back. */
  lemma CallAnswered(c: Course, accepted: bool) returns (d: Course)
    requires var m := c.End().money;
             && c.Valid() && |m.tasks| == 1 && m.tasks[0].Calling? && m.Waiting(m.tasks[0].number)
             && (accepted ==> Reached(m.StateOf(m.tasks[0].number)))
    ensures var m := c.End().money;
            var r := if accepted then m.(tasks := [], payment := Prompted) else m.(tasks := [], request := None);
            d.Leads(c.first, c.End().(money := r))
  {
    assert c.End().money.Without(0).tasks == [];
    d := Then(c, Answered(0, accepted));
  }

  /** The request the server waits on is on the customer's phone, and nothing else is
      under way. */
  predicate PromptOut(m: Money) {
    && m.tasks == [] && m.request.Some? && m.request.value.number < |m.prompts|
    && m.prompts[m.request.value.number] == Prompt(m.request.value.amount, Live)
  }

  /** The customer answers with a payment, or refuses, and the server reads the
      verdict. */
  lemma AnswerHeard(c: Course, paid: Option<int>) returns (d: Course)
    requires c.Valid() && PromptOut(c.End().money)
    ensures var m, r := c.End().money, c.End().money.request.value;
            var verdict := if paid.None? then Declined else if paid.value == r.amount then Succeeded else Mismatched;
            var state := if paid.Some? then Approved(paid.value) else Refused;
            var heard := m.WithPrompt(r.number, state)
                          .(moved := m.moved + paid.Or(0), tasks := [Hearing(r.number, r.amount, verdict)]);
            d.Leads(c.first, c.End().(money := heard))
  {
    var n := c.End().money.request.value.number;
    if paid.Some? { d := Then(c, Approve(n, paid.value)); } else { d := Then(c, Refuse(n)); }
    d := Then(d, Hear);
    assert d.End().money.tasks == [d.End().money.tasks[0]];
  }

  lemma VerdictResolved(c: Course) returns (d: Course)
    requires var m := c.End().money;
             c.Valid() && |m.tasks| == 1 && m.tasks[0].Hearing? && m.Waiting(m.tasks[0].number)
    ensures var t := c.End().money.tasks[0];
            var next := Landing(if t.verdict.Succeeded? then Paid else Failed, t.amount);
            d.Leads(c.first, c.End().(money := c.End().money.(request := None, tasks := [next])))
  {
    d := Then(c, Resolve(0));
    assert d.End().money.tasks == [d.End().money.tasks[0]];
  }

  lemma OrderWritten(c: Course) returns (d: Course)
    requires var m := c.End().money; c.Valid() && |m.tasks| == 1 && m.tasks[0].Landing?
    ensures var t, done := c.End().money.tasks[0], c.End().money.(tasks := []);
            d.Leads(c.first, c.End().(money := if t.to.Paid? then done.TakenIn(t.amount) else done.(payment := t.to)))
  {
    assert c.End().money.Without(0).tasks == [];
    d := Then(c, Land(0));
  }

  /** A request the customer approves, heard of and recorded. */
  lemma PaidByPhone(c: Course) returns (d: Course)
    requires c.Valid() && PromptOut(c.End().money)
    ensures var m, r := c.End().money, c.End().money.request.value;
            d.Leads(c.first, c.End().(money := m.WithPrompt(r.number, Approved(r.amount))
                                                .(request := None, moved := m.moved + r.amount).TakenIn(r.amount)))
  {
    d := AnswerHeard(c, Some(c.End().money.request.value.amount));
    d := VerdictResolved(d);
    d := OrderWritten(d);
  }

  // ----- writes that do not look -----------------------------------------------------

  /** A job whose price may be charged, with no payment under way. */
  predicate Chargeable(o: Order) {
    PayRefusal(o).None? && o.money.request.None? && o.money.tasks == [] && o.money.recorded.None?
  }

  /** A job whose fare is being asked for, and was never taken. */
  predicate AskedFor(o: Order) {
    PayRefusal(o).None? && PromptOut(o.money) && o.money.recorded.None?
  }

  /** Undisturbed, a fare is taken once: in cash, by a request the customer approves,
      or in cash after one they refused. */
  lemma FareTakenOnce(o: Order) returns (cash: Course, phone: Course, afterRefusal: Course)
    requires Chargeable(o)
    ensures var price := o.money.price;
            var paid := Some(Books(Paid, price, price, o.money.moved + price.value));
            cash.Result(o) == paid && phone.Result(o) == paid && afterRefusal.Result(o) == paid
    ensures cash.End().money.request == phone.End().money.request == afterRefusal.End().money.request == None
  {
    cash := CashTaken(Start(o));
    var out := RequestSent(o);
    phone := PaidByPhone(out);
    afterRefusal := AnswerHeard(out, None);
    afterRefusal := VerdictResolved(afterRefusal);
    afterRefusal := OrderWritten(afterRefusal);
    afterRefusal := CashTaken(afterRefusal);
  }

  lemma RequestSent(o: Order) returns (c: Course)
    requires Chargeable(o)
    ensures var price := o.money.price.value;
            && c.Result(o) == Some(Books(Prompted, o.money.price, None, o.money.moved)) && c.Valid()
            && c.first == o && PromptOut(c.End().money) && c.End().money.request.value.amount == price
            && PayRefusal(c.End()).None?
  {
    c := RequestRaised(Start(o));
    c := RequestReaches(c, |o.money.prompts|);
    c := CallAnswered(c, true);
  }

  /** The customer declines, and the request is marked so before the order is.
      Cash taken in between is marked failed. */
  lemma CashMarkedFailed(o: Order) returns (c: Course)
    requires AskedFor(o)
    ensures var price := o.money.price;
            c.Result(o) == Some(Books(Failed, price, price, o.money.moved + price.value))
  {
    c := AnswerHeard(Start(o), None);
    c := VerdictResolved(c);
    c := CashTaken(c);
    c := OrderWritten(c);
  }

  /** Cash is recorded between a request and the note that it was sent. */
  lemma NotedOverCash(c: Course) returns (d: Course)
    requires var m := c.End().money;
             && c.Valid() && |m.tasks| == 2 && m.tasks[0].Collecting? && m.tasks[1].Calling?
             && !m.payment.Paid? && m.Waiting(m.tasks[1].number) && Reached(m.StateOf(m.tasks[1].number))
    ensures var m, price := c.End().money, c.End().money.price.Or(0);
            var r := m.TakenIn(price).(tasks := [], payment := Prompted, moved := m.moved + price);
            d.Leads(c.first, c.End().(money := r))
  {
    assert c.End().money.Without(0).tasks == [c.End().money.tasks[1]];
    d := Then(c, Take(0));
    d := CallAnswered(d, true);
  }

  /** Cash passes its gates, a request is raised, the cash is recorded, and the
      note that a request was sent is written over it: the job no longer counts as
      paid.  When the customer then answers the request too, they have paid twice. */
  lemma PaidTwice(o: Order) returns (noted: Course, paid: Course)
    requires Chargeable(o)
    ensures var m, price := o.money, o.money.price.value;
            && noted.Result(o) == Some(Books(Prompted, m.price, m.price, m.moved + price))
            && paid.Result(noted.End()) == Some(Books(Paid, m.price, Some(2 * price), m.moved + 2 * price))
  {
    noted := Then(Start(o), Collect);
    noted := RequestRaised(noted);
    noted := RequestReaches(noted, |o.money.prompts|);
    noted := NotedOverCash(noted);
    paid := PaidByPhone(Start(noted.End()));
  }

  // ----- requests the server gave up on ----------------------------------------------

  /** The provider has reported the fare paid, and before that is written the request
      is timed out.  Cash is then taken for the same fare, and the order is credited
      with one of the two. */
  lemma TimedOutThenCash(o: Order) returns (c: Course)
    requires AskedFor(o)
    ensures var m, price := o.money, o.money.price;
            c.Result(o) == Some(Books(Paid, price, price, m.moved + m.request.value.amount + price.value))
  {
    c := AnswerHeard(Start(o), Some(o.money.request.value.amount));
    c := VerdictDropped(c);
    c := CashTaken(c);
  }

  lemma VerdictDropped(c: Course) returns (d: Course)
    requires var m := c.End().money;
             && c.Valid() && |m.tasks| == 1 && m.tasks[0].Hearing? && m.tasks[0].verdict.Succeeded?
             && m.Waiting(m.tasks[0].number) && Reached(m.StateOf(m.tasks[0].number))
    ensures d.Leads(c.first, c.End().(money := c.End().money.(request := None, tasks := [])))
  {
    assert c.End().money.(request := None).Without(0).tasks == [];
    d := Then(c, TimeOut);
    d := Then(d, Resolve(0));
  }

  /** A request timed out on the phone is still on the phone: the next one makes two,
      and the customer can approve both. */
  lemma TwoPromptsAfterATimeOut(o: Order, a: int, b: int) returns (c: Course, d: Course)
    requires PayRefusal(o).None? && PromptOut(o.money)
    ensures var m, n, k := o.money, o.money.request.value.number, |o.money.prompts|;
            && c.Result(o) == Some(BooksOf(o)) && c.End().money.StateOf(n).Live? && c.End().money.StateOf(k).Live?
            && d.Result(c.End()) == Some(Books(m.payment, m.price, m.recorded, m.moved + a + b))
  {
    var n, k := o.money.request.value.number, |o.money.prompts|;
    c := Then(Start(o), TimeOut);
    c := RequestRaised(c);
    c := RequestReaches(c, k);
    d := Then(Start(c.End()), Approve(n, a));
    d := Then(d, Approve(k, b));
  }

  /** A call to the provider that seems to fail although the request arrived: what the
      customer then approves is never heard of, and the fare can be charged again. */
  lemma FailedCallThenApproved(o: Order, paid: int) returns (c: Course)
    requires Chargeable(o)
    ensures c.Result(o) == Some(Books(o.money.payment, o.money.price, None, o.money.moved + paid))
    ensures Chargeable(c.End())
  {
    var n := |o.money.prompts|;
    c := RequestRaised(Start(o));
    c := RequestReaches(c, n);
    c := CallAnswered(c, false);
    c := Then(c, Approve(n, paid));
  }

  /** A request settled for another sum counts as failed, so the fare is taken again. */
  lemma MismatchThenCash(o: Order, paid: int) returns (c: Course)
    requires AskedFor(o) && paid != o.money.request.value.amount
    ensures var price := o.money.price;
            c.Result(o) == Some(Books(Paid, price, price, o.money.moved + paid + price.value))
  {
    c := AnswerHeard(Start(o), Some(paid));
    c := VerdictResolved(c);
    c := OrderWritten(c);
    c := CashTaken(c);
  }

  // ----- handovers, quotes and cancellations around a payment --------------------------

  /** Once a job that was paid no longer says so, the handover moves its price off
      what was taken, by the drop's wait less the credit. */
  lemma HandoverMovesATakenPrice(o: Order, wait: Option<nat>, back: Option<nat>)
    requires !o.money.payment.Paid? && o.money.price.Some? && o.money.recorded == o.money.price
    ensures var r := Row(o, RDeliver(wait, back)).money;
            r.price.Some? && r.recorded.Some? && r.price.Or(0) - r.recorded.Or(0) == wait.Or(0) - back.Or(0)
  {
  }

  /** Payment, takings with the adjustment, what they should come to, and the split. */
  function Totals(o: Order): (Payment, int, int, Option<int>, Option<int>) {
    (o.money.payment, o.money.moved + o.money.adjustment, Due(o), o.money.net, o.money.fee)
  }

  /** Cash before the handover and cash after it leave the same money behind. */
  lemma CashEitherSideOfTheHandover(o: Order, wait: Option<nat>, back: Option<nat>)
    returns (cash: Course, later: Course)
    requires o.status.Arrived? && Chargeable(o)
    ensures var done := Row(o, RDeliver(wait, back));
            && cash.Leads(o, cash.End()) && later.Leads(done, later.End()) && cash.steps == later.steps
            && later.End().money.payment.Paid? && Totals(Row(cash.End(), RDeliver(wait, back))) == Totals(later.End())
  {
    cash := CashTaken(Start(o));
    later := CashTaken(Start(Row(o, RDeliver(wait, back))));
  }

  /** A handover while the request is on the customer's phone: it is answered for
      the old price, and exactly the drop's wait less the credit is missing. */
  lemma HandoverUnderAPrompt(o: Order, wait: Option<nat>, back: Option<nat>) returns (paying: Course)
    requires o.status.Arrived? && Balanced(o) && Current(o.money) && PromptOut(o.money) && !o.money.payment.Paid?
    ensures var done, r := Row(o, RDeliver(wait, back)), paying.End();
            && paying.Leads(done, r) && r.money.payment.Paid?
            && Due(r) - (r.money.recorded.Or(0) + r.money.adjustment) == wait.Or(0) - back.Or(0)
  {
    paying := PaidByPhone(Start(Row(o, RDeliver(wait, back))));
  }

  /** Placing an order after its pickup wait was charged forgets that wait. */
  lemma RepricingForgetsTheWait(o: Order, q: Quote)
    requires Balanced(o) && (o.money.payment.Unpaid? || o.money.payment.Failed?)
    ensures var b := Next(Board([o], [], 0), Place(0, true, true, Some(q)));
            Due(b.orders[0]) - b.orders[0].money.price.Or(0) == o.money.detention - o.money.given
  {
    assert Commits(Board([o], [], 0), Place(0, true, true, Some(q)));
  }

  /** A placement checks the payment in one statement and reprices in a later
      one.  If the fare is taken in between, the price no longer is what was
      collected unless the quote happens to be the same. */
  lemma RepriceLandingAfterPayment(o: Order, q: Quote) returns (cash: Course)
    requires Chargeable(o) && Balanced(o)
    ensures cash.Result(o) == Some(Books(Paid, o.money.price, o.money.price, o.money.moved + o.money.price.value))
    ensures Balanced(Row(cash.End(), RPlace(Some(q)))) <==>
              o.money.price == Some(q.total) && o.money.detention == o.money.given
  {
    cash := CashTaken(Start(o));
  }

  /** If a request is raised and sent in between, what the customer is asked for is
      the price only if the quote is the same; else the order is credited with the
      old price under the new one. */
  lemma RepriceLandingUnderARequest(o: Order, q: Quote) returns (asking: Course, paying: Course)
    requires Chargeable(o)
    ensures var m, repriced := o.money, Row(asking.End(), RPlace(Some(q)));
            && asking.Result(o) == Some(Books(Prompted, m.price, None, m.moved)) && Current(asking.End().money)
            && (Current(repriced.money) <==> m.price == Some(q.total))
            && paying.Result(repriced) == Some(Books(Paid, Some(q.total), m.price, m.moved + m.price.value))
  {
    asking := RequestRaised(Start(o));
    asking := RequestReaches(asking, |o.money.prompts|);
    asking := CallAnswered(asking, true);
    paying := PaidByPhone(Start(Row(asking.End(), RPlace(Some(q)))));
  }

  /** A cancelled order can end up paid: cancel while a request is out, and let the
      customer answer it. */
  lemma CancelledThenPaid(o: Order) returns (paying: Course)
    requires o.status.Arrived? && !o.money.payment.Paid? && PromptOut(o.money)
    ensures var c := Next(Board([o], [], 0), Update(0, Cancelled, Staff, None)).orders[0];
            && paying.Leads(c, paying.End())
            && paying.End().status.Cancelled? && paying.End().money.payment.Paid?
  {
    assert Commits(Board([o], [], 0), Update(0, Cancelled, Staff, None));
    paying := PaidByPhone(Start(Row(o, RMove(Cancelled, None))));
  }
}
