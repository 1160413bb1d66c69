/** Offers: one way out each, no acceptance after the deadline, and who may be
    offered a job they have already refused. */
module OrderOffers {
  import opened Prelude
  import opened OrderModel

  /** Every time the order was put on offer is accounted for once: all but the one
      it is on now have exactly one ending, in the order they were made. */
  predicate Ledger(o: Order) {
    && |o.offer.resolved| + (if o.status.Offered? then 1 else 0) == o.offer.made
    && (forall k :: 0 <= k < |o.offer.resolved| ==> o.offer.resolved[k].0 == k + 1)
  }

  /** A write that ends an offer keeps the ledger exactly when the order is on offer:
      without that part of its guard the same offer would end twice. */
  lemma EndingNeedsAnOffer(o: Order, e: RowEvent)
    requires Ledger(o) && (e.RAccept? || e.RDecline? || e.RLapse?)
    ensures Ledger(Row(o, e)) <==> o.status.Offered?
    ensures o.status.Offered? ==>
              Row(o, e).offer.resolved
              == o.offer.resolved
                + [(o.offer.made, if e.RAccept? then TakenUp else if e.RDecline? then TurnedDown else Lapsed)]
  {
    var r := Row(o, e);
    assert |r.offer.resolved| == |o.offer.resolved| + 1;
    assert r.offer.resolved[|o.offer.resolved|].0 == o.offer.made;
  }

  /** Every write under its guard keeps the ledger, whichever way the order gets on
      offer or off it. */
  lemma RowKeepsLedger(o: Order, e: RowEvent, now: int)
    requires RowReady(o, e, now) && Ledger(o)
    ensures Ledger(Row(o, e)) && o.offer.resolved <= Row(o, e).offer.resolved
    ensures |Row(o, e).offer.resolved| == |o.offer.resolved|
              + if o.status.Offered? && !Row(o, e).status.Offered? then 1 else 0
  {
  }

  ghost predicate Ledgers(b: Board) {
    forall i :: 0 <= i < |b.orders| ==> Ledger(b.orders[i])
  }

  lemma StepKeepsLedgers(b: Board, e: Event)
    requires Ledgers(b)
    ensures Ledgers(Next(b, e))
  {
    if Commits(b, e) {
      CommittedRowsWereReady(b, e);
      var ids, re := Effect(b, e).0, Effect(b, e).1;
      forall i | 0 <= i < |b.orders| ensures Ledger(Touch(b.orders, ids, re)[i]) {
        if i in ids { RowKeepsLedger(b.orders[i], re, b.now); }
      }
    }
  }

  lemma EachOfferEndsOnce(b: Board, es: seq<Event>, i: nat)
    requires Ledgers(b) && i < |Run(b, es).orders|
    ensures Ledgers(Run(b, es))
    ensures var r := Run(b, es).orders[i].offer.resolved;
            forall j, k :: 0 <= j < k < |r| ==> r[j].0 != r[k].0
  {
    LedgersEveryRun(b, es);
    assert Ledger(Run(b, es).orders[i]);
  }

  lemma {:induction false} LedgersEveryRun(b: Board, es: seq<Event>)
    requires Ledgers(b)
    ensures Ledgers(Run(b, es))
  {
    if es != [] {
      LedgersEveryRun(b, es[..|es| - 1]);
      StepKeepsLedgers(Run(b, es[..|es| - 1]), es[|es| - 1]);
    }
  }

  // ----- the race between the driver and the sweep ---------------------------

  /** At every instant the driver named on an offer and the expiry sweep
      exclude each other and one of them can move it. */
  lemma AcceptXorSweep(b: Board, id: nat, driver: string)
    requires id < |b.orders| && b.orders[id].status.Offered? && b.orders[id].driver == Some(driver)
    ensures Commits(b, Accept(id, driver)) <==> id !in Effect(b, Sweep).0
  {
  }

  /** A row offered to nobody, without a deadline, is out of reach of both. */
  lemma StrandedOfferExactly(o: Order, now: int)
    requires o.status.Offered?
    ensures (forall d :: !AcceptEnabled(o, d, now)) && !SweepEnabled(o, now)
            <==> o.driver.None? && (o.offer.expires.None? || now < o.offer.expires.value)
  {
    if o.driver.Some? && !SweepEnabled(o, now) {
      assert AcceptEnabled(o, o.driver.value, now);
    }
  }

  /** Past its deadline, offer `n` is either still waiting for the sweep or was
      ended in some other way than by being taken up. */
  ghost predicate TooLate(o: Order, n: nat, now: int) {
    || (o.offer.made == n && SweepEnabled(o, now))
    || (exists how :: (n, how) in o.offer.resolved && how != TakenUp)
  }

  lemma RowKeepsTooLate(o: Order, e: RowEvent, now: int, n: nat)
    requires RowReady(o, e, now) && Ledger(o) && TooLate(o, n, now)
    ensures TooLate(Row(o, e), n, now)
  {
    RowKeepsLedger(o, e, now);
    var r := Row(o, e);
    if how :| (n, how) in o.offer.resolved && how != TakenUp {
      assert (n, how) in r.offer.resolved;
    } else if !r.status.Offered? {
      assert r.offer.resolved[|r.offer.resolved| - 1] in r.offer.resolved;
      assert r.offer.resolved[|r.offer.resolved| - 1].0 == n;
      assert r.offer.resolved[|r.offer.resolved| - 1].1 != TakenUp;
    }
  }

  lemma StepKeepsTooLate(b: Board, e: Event, i: nat, n: nat)
    requires Ledgers(b) && i < |b.orders| && TooLate(b.orders[i], n, b.now)
    ensures i < |Next(b, e).orders| && TooLate(Next(b, e).orders[i], n, Next(b, e).now)
  {
    var o := b.orders[i];
    if Commits(b, e) {
      CommittedRowsWereReady(b, e);
      var ids, re := Effect(b, e).0, Effect(b, e).1;
      assert Next(b, e).orders == Touch(b.orders, ids, re);
      if i in ids { RowKeepsTooLate(o, re, b.now, n); }
    } else if how :| (n, how) in o.offer.resolved && how != TakenUp {
      assert Next(b, e).orders[i] == o;
    }
  }

  /** Once the deadline has passed, no later transaction by anyone, at any later
      time, makes that offer end as taken up. */
  lemma {:induction false} ExpiredOfferIsNeverTakenUp(b: Board, es: seq<Event>, i: nat, n: nat)
    requires Ledgers(b) && i < |b.orders| && TooLate(b.orders[i], n, b.now)
    ensures i < |Run(b, es).orders| && TooLate(Run(b, es).orders[i], n, Run(b, es).now)
    ensures (n, TakenUp) !in Run(b, es).orders[i].offer.resolved
  {
    if es != [] {
      ExpiredOfferIsNeverTakenUp(b, es[..|es| - 1], i, n);
      LedgersEveryRun(b, es[..|es| - 1]);
      StepKeepsTooLate(Run(b, es[..|es| - 1]), es[|es| - 1], i, n);
    }
    LedgersEveryRun(b, es);
    OneEnding(Run(b, es).orders[i], n, Run(b, es).now);
  }

  lemma OneEnding(o: Order, n: nat, now: int)
    requires Ledger(o) && TooLate(o, n, now)
    ensures (n, TakenUp) !in o.offer.resolved
  {
  }

  // ----- offering again to somebody who declined -----------------------------

  predicate OfferedToDecliner(o: Order) {
    o.status.Offered? && o.driver.Some? && o.driver.value in o.offer.declinedBy
  }

  /** The ways round the offer endpoint's check: the status endpoint or a forced
      status naming OFFERED on a row still bearing the decliner's name, and
      putting a decliner on the run of an order that is out on offer. */
  predicate GoesRoundTheCheck(o: Order, e: RowEvent) {
    || ((e.RMove? || e.RForce?) && e.to.Offered? && o.driver.Some? && o.driver.value in o.offer.declinedBy)
    || (e.RPlan? && o.status.Offered? && e.driver in o.offer.declinedBy)
  }

  lemma ReofferedExactly(o: Order, e: RowEvent, now: int)
    requires RowReady(o, e, now) && !OfferedToDecliner(o)
    ensures OfferedToDecliner(Row(o, e)) <==> GoesRoundTheCheck(o, e)
  {
  }

  ghost predicate Bypasses(b: Board, e: Event) {
    Commits(b, e) && exists i :: i in Effect(b, e).0 && i < |b.orders| && GoesRoundTheCheck(b.orders[i], Effect(b, e).1)
  }

  ghost predicate NoDeclinerOffered(b: Board) {
    forall i :: 0 <= i < |b.orders| ==> !OfferedToDecliner(b.orders[i])
  }

  lemma StepReoffersExactly(b: Board, e: Event)
    requires NoDeclinerOffered(b)
    ensures NoDeclinerOffered(Next(b, e)) <==> !Bypasses(b, e)
  {
    if Commits(b, e) {
      CommittedRowsWereReady(b, e);
      var ids, re := Effect(b, e).0, Effect(b, e).1;
      var after := Touch(b.orders, ids, re);
      assert Next(b, e).orders == after;
      forall i | 0 <= i < |b.orders|
        ensures OfferedToDecliner(after[i]) <==> i in ids && GoesRoundTheCheck(b.orders[i], re)
      {
        if i in ids { ReofferedExactly(b.orders[i], re, b.now); }
      }
      if Bypasses(b, e) {
        var i :| i in ids && i < |b.orders| && GoesRoundTheCheck(b.orders[i], re);
        assert OfferedToDecliner(after[i]);
      }
    }
  }

  // ----- the check and the write of one offer ----------------------------------

  lemma WrittenRows(b: Board, ids: seq<nat>, driver: string, minutes: Option<int>)
    requires OfferStands(b, ids)
    ensures var after := Turned(b, WriteOffer(ids, driver, minutes)).orders;
            && |after| == |b.orders|
            && forall i :: 0 <= i < |b.orders| ==>
                 (OfferedToDecliner(after[i]) <==> if i in ids then driver in b.orders[i].offer.declinedBy
                                                   else OfferedToDecliner(b.orders[i]))
  {
    forall i | 0 <= i < |b.orders| ensures i in Members(ids) <==> i in ids {}
  }

  /** The offer endpoint looks for decliners before it locks the orders, so its check
      may have been made on an earlier board than the one it writes. */
  datatype Turn = Whole(e: Event) | WriteOffer(ids: seq<nat>, driver: string, minutes: Option<int>)

  predicate OfferStands(b: Board, ids: seq<nat>) {
    && ids != [] && |Matching(b.orders, ids, Pending)| == |ids|
    && !AnyUnplaced(b.orders, Matching(b.orders, ids, Pending))
  }

  function Turned(b: Board, t: Turn): Board {
    match t
    case Whole(e) => Next(b, e)
    case WriteOffer(ids, driver, minutes) =>
      if OfferStands(b, ids) then
        b.(orders := Touch(b.orders, Members(ids), ROffer(driver, b.now + OfferMinutes(minutes))))
      else b
  }

  function TurnRun(b: Board, ts: seq<Turn>): Board {
    if ts == [] then b else Turned(TurnRun(b, ts[..|ts| - 1]), ts[|ts| - 1])
  }

  predicate HasDeclined(orders: seq<Order>, ids: seq<nat>, driver: string) {
    exists i: nat :: i in ids && i < |orders| && driver in orders[i].offer.declinedBy
  }

  ghost predicate TurnBypasses(b: Board, t: Turn) {
    match t
    case Whole(e) => Bypasses(b, e)
    case WriteOffer(ids, driver, _) => OfferStands(b, ids) && HasDeclined(b.orders, ids, driver)
  }

  lemma WriteReoffersExactly(b: Board, ids: seq<nat>, driver: string, minutes: Option<int>)
    requires NoDeclinerOffered(b) && OfferStands(b, ids)
    ensures NoDeclinerOffered(Turned(b, WriteOffer(ids, driver, minutes))) <==> !HasDeclined(b.orders, ids, driver)
  {
    var after := Turned(b, WriteOffer(ids, driver, minutes)).orders;
    WrittenRows(b, ids, driver, minutes);
    if HasDeclined(b.orders, ids, driver) {
      var i: nat :| i in ids && i < |b.orders| && driver in b.orders[i].offer.declinedBy;
      assert OfferedToDecliner(after[i]);
    } else {
      forall i | 0 <= i < |after| ensures !OfferedToDecliner(after[i]) {}
    }
  }

  /** Over a whole run, with offers that were checked earlier, nobody is offered a job
      they declined as long as no transaction goes round the check and no driver
      declines between the check and the write of an offer to them. */
  lemma {:induction false} DeclinersAreLeftAlone(b: Board, ts: seq<Turn>)
    requires NoDeclinerOffered(b)
    requires forall k :: 0 <= k < |ts| ==> !TurnBypasses(TurnRun(b, ts[..k]), ts[k])
    ensures NoDeclinerOffered(TurnRun(b, ts))
  {
    if ts != [] {
      var last := |ts| - 1;
      forall k | 0 <= k < last ensures !TurnBypasses(TurnRun(b, ts[..last][..k]), ts[..last][k]) {
        assert ts[..last][..k] == ts[..k];
      }
      DeclinersAreLeftAlone(b, ts[..last]);
      var before := TurnRun(b, ts[..last]);
      match ts[last]
      case Whole(e) => StepReoffersExactly(before, e);
      case WriteOffer(ids, driver, minutes) =>
        if OfferStands(before, ids) { WriteReoffersExactly(before, ids, driver, minutes); }
    }
  }

  /** An offer checked while the driver still has the job on offer is written after
      they decline it: they are offered it again at once. */
  lemma DeclineBeforeTheWriteIsReoffered(o: Order, driver: string, minutes: Option<int>)
    requires o.status.Offered? && o.placed && o.driver == Some(driver) && driver !in o.offer.declinedBy
    ensures var b := Board([o], [], 0);
            var ts := [Whole(Decline(0, driver)), WriteOffer([0], driver, minutes)];
            && !HasDeclined(b.orders, [0], driver)
            && var r := Turned(Turned(b, ts[0]), ts[1]);
               OfferedToDecliner(r.orders[0]) && r.orders[0].driver == Some(driver)
  {
    var b := Board([o], [], 0);
    OneRowCommit(b, Decline(0, driver), 0, RDecline(driver));
    var c := Row(o, RDecline(driver));
    assert [o][0 := c] == [c];
    WrittenAlone(c, driver, minutes);
  }

  lemma WrittenAlone(c: Order, driver: string, minutes: Option<int>)
    requires c.status.Pending? && c.placed
    ensures Turned(Board([c], [], 0), WriteOffer([0], driver, minutes)).orders
              == [Row(c, ROffer(driver, OfferMinutes(minutes)))]
  {
    assert [c][..0] == [] && Matching([c], [0], Pending) == [0];
    assert Members([0]) == {0};
    TouchingOneRow([c], 0, ROffer(driver, OfferMinutes(minutes)));
  }

  /** It does happen: a job declined by its driver, later assigned to him all
      the same, unassigned and offered through the status endpoint. */
  lemma StatusEndpointReoffers(o: Order, driver: string)
    requires o.status.Assigned? && o.driver == Some(driver) && driver in o.offer.declinedBy
    ensures var b := Board([o], [], 0);
            var b2 := Next(Next(b, Update(0, Pending, Staff, None)), Update(0, Offered, Staff, None));
            OfferedToDecliner(b2.orders[0])
              && Commits(b2, Accept(0, driver)) == (o.offer.expires.None? || o.offer.expires.value > 0)
  {
    var b := Board([o], [], 0);
    var b1 := Next(b, Update(0, Pending, Staff, None));
    assert Commits(b, Update(0, Pending, Staff, None));
    assert b1.orders[0] == Row(o, RMove(Pending, None));
    assert Commits(b1, Update(0, Offered, Staff, None));
  }
}
