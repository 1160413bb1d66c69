/** The status log replays each order, up to the two edges nobody logs. */
module OrderLog {
  import opened Prelude
  import opened OrderModel

  function LastLogged(log: seq<Entry>): Status {
    if log == [] then Pending else log[|log| - 1].next
  }

  /** The only steps an order takes without a log row. */
  predicate Unlogged(from: Status, to: Status) {
    from.Pending? && (to.Offered? || to.Assigned?)
  }

  predicate Follows(from: Status, to: Status, strict: bool) {
    from == to || (!strict && Unlogged(from, to))
  }

  /** Every entry takes over where the one before it stopped, and the last one
      names the live status.  When not strict, an unlogged edge may lie between. */
  ghost predicate Replays(o: Order, strict: bool) {
    && (forall k :: 0 <= k < |o.log| ==> Follows(LastLogged(o.log[..k]), o.log[k].previous, strict))
    && Follows(LastLogged(o.log), o.status, strict)
  }

  predicate Silent(o: Order, e: RowEvent) {
    e.ROffer? || (e.RPlan? && o.status.Pending?)
  }

  /** A write either leaves status and log alone, or logs exactly the edge it
      takes, or is one of the two silent ones. */
  lemma SilentExactly(o: Order, e: RowEvent, now: int)
    requires RowReady(o, e, now)
    ensures Silent(o, e) <==> Row(o, e).status != o.status && Row(o, e).log == o.log
    ensures Silent(o, e) ==> Unlogged(o.status, Row(o, e).status)
    ensures Row(o, e).log == o.log || Row(o, e).log == o.log + [Entry(o.status, Row(o, e).status)]
  {
    assert forall x: Entry :: o.log + [x] != o.log by {
      forall x: Entry ensures o.log + [x] != o.log { assert |o.log + [x]| != |o.log|; }
    }
  }

  lemma RowKeepsReplay(o: Order, e: RowEvent, now: int, strict: bool)
    requires RowReady(o, e, now) && Replays(o, strict)
    requires strict ==> !Silent(o, e)
    ensures Replays(Row(o, e), strict)
  {
    SilentExactly(o, e, now);
    var r := Row(o, e);
    if r.log != o.log {
      assert r.log[..|o.log|] == o.log;
      forall k | 0 <= k < |r.log| ensures Follows(LastLogged(r.log[..k]), r.log[k].previous, strict) {
        if k < |o.log| { assert r.log[..k] == o.log[..k]; }
      }
    }
  }

  ghost predicate AllReplay(b: Board, strict: bool) {
    forall i :: 0 <= i < |b.orders| ==> Replays(b.orders[i], strict)
  }

  lemma RowsKeepReplay(orders: seq<Order>, ids: set<nat>, re: RowEvent, now: int, strict: bool)
    requires forall i :: 0 <= i < |orders| ==> Replays(orders[i], strict)
    requires forall i :: i in ids ==> i < |orders| && RowReady(orders[i], re, now)
    requires strict ==> !re.ROffer? && !re.RPlan?
    ensures forall i :: 0 <= i < |orders| ==> Replays(Touch(orders, ids, re)[i], strict)
  {
    forall i | 0 <= i < |orders| ensures Replays(Touch(orders, ids, re)[i], strict) {
      if i in ids { RowKeepsReplay(orders[i], re, now, strict); }
    }
  }

  lemma StepKeepsReplay(b: Board, e: Event, strict: bool)
    requires AllReplay(b, strict)
    requires strict ==> !e.Offer? && !e.PlanRun?
    ensures AllReplay(Next(b, e), strict)
  {
    if Commits(b, e) {
      CommittedRowsWereReady(b, e);
      RowsKeepReplay(b.orders, Effect(b, e).0, Effect(b, e).1, b.now, strict);
    }
  }

  /** Whatever transactions ran, forced changes and run stops included, each
      order's log chains and ends at its live status up to the unlogged edges;
      with no offers and no run planning it does so exactly. */
  lemma {:induction false} LogReplaysEveryRun(b: Board, es: seq<Event>, strict: bool)
    requires AllReplay(b, strict)
    requires strict ==> forall k :: 0 <= k < |es| ==> !es[k].Offer? && !es[k].PlanRun?
    ensures AllReplay(Run(b, es), strict)
  {
    if es != [] {
      LogReplaysEveryRun(b, es[..|es| - 1], strict);
      StepKeepsReplay(Run(b, es[..|es| - 1]), es[|es| - 1], strict);
    }
  }

  /** The expiry sweep updates its rows in one statement and logs them in later
      ones.  If an assignment commits in between, the late entry breaks the
      chain on every order it happens to. */
  lemma LateSweepEntryBreaksTheLog(o: Order, driver: string, v: nat)
    requires Replays(o, false) && o.status.Offered?
    ensures var swept := o.(status := Pending, driver := None, offer := o.offer.End(Lapsed).(expires := None));
            var given := Row(swept, RAssign(driver, v));
            var late := given.(log := given.log + [Entry(Offered, Pending)]);
            !Replays(late, false)
  {
    var swept := o.(status := Pending, driver := None, offer := o.offer.End(Lapsed).(expires := None));
    var given := Row(swept, RAssign(driver, v));
    var late := given.(log := given.log + [Entry(Offered, Pending)]);
    var k := |late.log| - 1;
    assert late.log[..k] == given.log;
    assert !Follows(LastLogged(late.log[..k]), late.log[k].previous, false);
  }

  /** The refusal of an arrival that is not the driver's own comes after the row
      was written and does not roll back.  If that write is ever committed by the
      connection's next user, the log no longer replays. */
  lemma LeakedArrivalBreaksTheLog(o: Order, to: Status)
    requires Replays(o, false) && CanTransition(o.status, to) && (to.AtPickup? || to.Arrived?)
    ensures !Replays(o.(status := to), false)
  {
  }
}
