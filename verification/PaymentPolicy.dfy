/** What the driver's screen offers to do about the fare, against the gates the
    server applies. */
module PaymentPolicy {
  import opened Prelude
  import opened OrderModel

  datatype Note = Silent | NoPriceYet | EstimateOnly | NotOnTheRoad | AlreadyHandedOver

  datatype Policy = Policy(show: bool, paid: bool, momo: bool, cash: bool, note: Note)

  const BLANK := Policy(false, false, false, false, Silent)

  /** `currency` is whether the price has a unit. */
  function PolicyFor(order: Option<Order>, currency: bool): Policy {
    if order.None? then BLANK
    else
      var o := order.value;
      if o.status.Offered? || o.status.Cancelled? then BLANK
      else if o.money.payment.Paid? then BLANK.(show := true, paid := true)
      else if o.money.price.None? then BLANK.(show := true, note := NoPriceYet)
      else if o.money.estimate then BLANK.(show := true, note := EstimateOnly)
      else if !(o.status.InTransit? || o.status.Arrived? || o.status.Delivered?)
        then BLANK.(show := true, note := NotOnTheRoad)
      else Policy(true, false, currency, true, if o.status.Delivered? then AlreadyHandedOver else Silent)
  }

  /** The screen by the order's own columns: nothing of an order out on offer or
      called off; the fare as paid; and cash for a settled price from the road on,
      mobile money beside it where the price has a unit. */
  lemma ScreenExactly(o: Order, currency: bool)
    ensures var p := PolicyFor(Some(o), currency);
            && (p.show <==> o.status != Offered && o.status != Cancelled)
            && (p.paid <==> p.show && o.money.payment == Paid)
            && (p.cash <==> (o.status == InTransit || o.status == Arrived || o.status == Delivered)
                            && o.money.payment != Paid && o.money.price != None && !o.money.estimate)
            && (p.momo <==> p.cash && currency)
            && (p.note != Silent && p.note != AlreadyHandedOver <==> p.show && !p.paid && !p.cash)
            && (p.note == AlreadyHandedOver <==> p.cash && o.status == Delivered)
  {
  }

  /** The screen offers cash exactly when the server would take it, but for one
      thing the screen does not look at: a mobile-money request already out. */
  lemma CashOfferedExactly(b: Board, id: nat, currency: bool)
    requires id < |b.orders|
    ensures var o, taking := b.orders[id], Pay(id, Collect);
            && (PolicyFor(Some(o), currency).cash <==> PayRefusal(o).None?)
            && (Refusal(b, taking).None? <==> PolicyFor(Some(o), currency).cash && o.money.request.None?)
            && (PolicyFor(Some(o), currency).cash && Refusal(b, taking).Some? ==>
                 Refusal(b, taking) == Some(PromptInFlight))
  {
  }

  /** Mobile money is offered exactly when the server would send a request to a
      phone that can take one, as long as none is out already. */
  lemma MobileMoneyOfferedExactly(b: Board, id: nat, currency: bool)
    requires id < |b.orders|
    ensures var o := b.orders[id];
            Refusal(b, Pay(id, Ask(true, currency))).None? <==>
              PolicyFor(Some(o), currency).momo && o.money.request.None?
  {
  }

  /** Wherever a fare is offered the job is past its pickup and still on. */
  lemma OfferedOnlyOnTheRoad(o: Order, currency: bool)
    ensures PolicyFor(Some(o), currency).cash ==> Collectable(o.status) && !o.money.payment.Paid?
    ensures PolicyFor(Some(o), currency).momo ==> PolicyFor(Some(o), currency).cash
    ensures PolicyFor(Some(o), currency).paid ==> o.money.payment.Paid? && !PolicyFor(Some(o), currency).cash
  {
  }
}
