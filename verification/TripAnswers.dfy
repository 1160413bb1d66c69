/** What each run endpoint lets through and what it leaves behind, in terms of the
    stops' own columns. */
module TripAnswers {
  import opened Prelude
  import opened RouteSequencing
  import opened TripRuns
  import M = OrderModel

  // ----- planning a run --------------------------------------------------------------

  /** A stop as a load calls for it: collected where it comes from unless it is
      aboard already, delivered where it goes. */
  predicate CallsFor(l: Load, s: Stop) {
    && s.order == l.order && s.status == Pending
    && ((s.kind == Drop && s.at == l.dest) || (s.kind == Pickup && s.at == l.from && !l.collected))
  }

  predicate Called(loads: seq<Load>, s: Stop) {
    exists i :: 0 <= i < |loads| && CallsFor(loads[i], s)
  }

  /** The stop is a row, under some number. */
  predicate HasRow(rows: seq<Stop>, s: Stop) {
    exists k :: 0 <= k < |rows| && rows[k] == s.(id := k, sequence := k + 1)
  }

  lemma {:induction false} DraftCallsFor(loads: seq<Load>)
    ensures forall s :: s in Draft(loads) <==> Called(loads, s) && s.id == s.sequence == 0
  {
    if loads != [] {
      var init, l := loads[..|loads| - 1], loads[|loads| - 1];
      DraftCallsFor(init);
      forall s ensures Called(loads, s) <==> Called(init, s) || CallsFor(l, s) { CalledByOneMore(init, l, s); }
      assert loads == init + [l];
    }
  }

  lemma CalledByOneMore(init: seq<Load>, l: Load, s: Stop)
    ensures Called(init + [l], s) <==> Called(init, s) || CallsFor(l, s)
  {
    var loads := init + [l];
    if i :| 0 <= i < |init| && CallsFor(init[i], s) { assert CallsFor(loads[i], s); }
    if CallsFor(l, s) { assert CallsFor(loads[|init|], s); }
  }

  lemma PlanCallsFor(loads: seq<Load>, d: Distance, start: Option<nat>)
    requires forall i, j :: 0 <= i < j < |loads| ==> loads[i].order != loads[j].order
    ensures var plan := Plan(Draft(loads), d, start);
            && OwnStops(plan) && (forall s :: s in plan <==> s in Draft(loads))
  {
    var draft := Draft(loads);
    DraftOf(loads);
    PlanIsPermutation(draft, CollectedAlready(draft), d, start);
    SameElements(Plan(draft, d, start), draft);
    PlanOwnStops(draft, CollectedAlready(draft), d, start);
  }

  lemma NewTripIs(loads: seq<Load>, d: Distance, start: Option<nat>)
    ensures var t, plan := NewTrip(loads, d, start), Plan(Draft(loads), d, start);
            && t.status == Planned && |t.rows| == |plan|
            && forall k :: 0 <= k < |plan| ==> t.rows[k] == plan[k].(id := k, sequence := k + 1)
  {
  }

  /** A new run holds every stop its loads call for, each once, numbered as they
      are to be visited, and no other. */
  lemma NewTripCallsFor(loads: seq<Load>, d: Distance, start: Option<nat>)
    requires forall i, j :: 0 <= i < j < |loads| ==> loads[i].order != loads[j].order
    ensures var t := NewTrip(loads, d, start);
            && t.status == Planned
            && (forall k :: 0 <= k < |t.rows| ==>
                  t.rows[k].id == k && t.rows[k].sequence == k + 1 && Called(loads, t.rows[k]))
            && (forall s :: Called(loads, s) ==> HasRow(t.rows, s))
            && OwnStops(t.rows)
  {
    var plan := Plan(Draft(loads), d, start);
    PlanCallsFor(loads, d, start);
    DraftCallsFor(loads);
    NewTripIs(loads, d, start);
    RowsOfPlan(loads, plan, NewTrip(loads, d, start).rows);
  }

  lemma RowsOfPlan(loads: seq<Load>, plan: seq<Stop>, rows: seq<Stop>)
    requires forall s :: s in plan <==> Called(loads, s) && s.id == s.sequence == 0
    requires |rows| == |plan| && forall k :: 0 <= k < |plan| ==> rows[k] == plan[k].(id := k, sequence := k + 1)
    ensures OwnStops(plan) ==> OwnStops(rows)
    ensures forall k :: 0 <= k < |rows| ==> rows[k].id == k && rows[k].sequence == k + 1 && Called(loads, rows[k])
    ensures forall s :: Called(loads, s) ==> HasRow(rows, s)
  {
    forall k | 0 <= k < |rows| ensures Called(loads, rows[k]) {
      assert plan[k] in plan;
      CalledUnderAnyNumber(loads, plan[k], k, k + 1);
    }
    forall s | Called(loads, s) ensures HasRow(rows, s) {
      CalledUnderAnyNumber(loads, s, 0, 0);
      assert s.(id := 0, sequence := 0) in plan;
      var k :| 0 <= k < |plan| && plan[k] == s.(id := 0, sequence := 0);
      assert rows[k] == s.(id := k, sequence := k + 1);
    }
  }

  lemma CalledUnderAnyNumber(loads: seq<Load>, s: Stop, n: nat, m: nat)
    ensures Called(loads, s) <==> Called(loads, s.(id := n, sequence := m))
  {
    var t := s.(id := n, sequence := m);
    forall i | 0 <= i < |loads| ensures CallsFor(loads[i], s) <==> CallsFor(loads[i], t) {}
  }

  // ----- reporting a stop ----------------------------------------------------------------

  /** Still to be done. */
  predicate Ahead(s: Stop) {
    s.status == Pending || s.status == Arrived
  }

  /** Any mark but a return to pending, with a reason for a failed or skipped stop,
      on a stop still to be done. */
  lemma VisitTakenExactly(t: Trip, k: nat, mark: StopStatus, reasoned: bool, permitted: bool)
    ensures Refusal(t, Visit(k, mark, reasoned, permitted)) == None <==>
              && k < |t.rows| && Ahead(t.rows[k]) && permitted && mark != Pending
              && (mark == Failed || mark == Skipped ==> reasoned)
  {
  }

  /** The stop bears the mark and no other stop changes; the run is over when
      nothing is left to be done, and under way otherwise if it was only planned. */
  lemma VisitLeaves(t: Trip, k: nat, mark: StopStatus, reasoned: bool, permitted: bool)
    requires Refusal(t, Visit(k, mark, reasoned, permitted)) == None
    ensures k < |t.rows|
    ensures var r := Next(t, Visit(k, mark, reasoned, permitted));
            && r.rows == t.rows[k := t.rows[k].(status := mark)]
            && r.status == if forall i :: 0 <= i < |r.rows| ==> !Ahead(r.rows[i]) then Completed
                           else if t.status == Planned then Active
                           else t.status
  {
    OpenLeftIs(t.rows[k := t.rows[k].(status := mark)]);
  }

  // ----- the run itself --------------------------------------------------------------------

  /** A run is never completed by hand nor changed once completed; its driver must be
      fit when one is named or it sets off, and free if it is then under way. */
  lemma UpdateTakenExactly(t: Trip, to: Option<TripStatus>, given: bool, problem: bool, busy: bool)
    ensures Refusal(t, Update(to, given, problem, busy)) == None <==>
              && t.status != Completed && to != Some(Completed)
              && (problem ==> !given && to != Some(Active))
              && (busy ==> to != Some(Active) && (to == None ==> t.status != Active))
  {
  }

  /** Cancelling skips what was still to be done; nothing else touches a stop. */
  lemma UpdateLeaves(t: Trip, to: Option<TripStatus>, given: bool, problem: bool, busy: bool)
    requires Refusal(t, Update(to, given, problem, busy)) == None
    ensures var r := Next(t, Update(to, given, problem, busy));
            && r.status == (if to == None then t.status else to.value) && |r.rows| == |t.rows|
            && forall k :: 0 <= k < |t.rows| ==>
                 r.rows[k] == if to == Some(Cancelled) && Ahead(t.rows[k]) then t.rows[k].(status := Skipped)
                              else t.rows[k]
  {
  }

  // ----- putting stops in order ----------------------------------------------------------------

  /** The stop named at place `i` of the list gets the number `i + 1`. */
  lemma ReorderLeaves(t: Trip, ids: seq<nat>, i: nat)
    requires Refusal(t, Reorder(ids)) == None && i < |ids|
    ensures var r := Next(t, Reorder(ids));
            && ids[i] < |t.rows| == |r.rows| && r.status == t.status
            && r.rows[ids[i]] == t.rows[ids[i]].(sequence := i + 1)
  {
    ReorderTakenExactly(t, ids);
    RenumberWrites(t.rows, ids, i);
  }

  /** There is something to optimise when two stops are still to be done. */
  lemma OptimiseTakenExactly(t: Trip, d: Distance, start: Option<nat>)
    ensures Refusal(t, Optimise(d, start)) == None <==>
              exists i, j :: 0 <= i < j < |t.rows| && Ahead(t.rows[i]) && Ahead(t.rows[j])
  {
    TwoOpen(t.rows);
  }

  lemma {:induction false} TwoOpen(rows: seq<Stop>)
    ensures OpenLeft(rows) >= 1 <==> exists i :: 0 <= i < |rows| && Ahead(rows[i])
    ensures OpenLeft(rows) >= 2 <==> exists i, j :: 0 <= i < j < |rows| && Ahead(rows[i]) && Ahead(rows[j])
  {
    if rows != [] {
      var init, last := rows[..|rows| - 1], |rows| - 1;
      TwoOpen(init);
      assert forall i :: 0 <= i < last ==> rows[i] == init[i];
      if i :| 0 <= i < |init| && Ahead(init[i]) { assert Ahead(rows[i]); }
      if i, j :| 0 <= i < j < |init| && Ahead(init[i]) && Ahead(init[j]) { assert Ahead(rows[i]) && Ahead(rows[j]); }
      if i, j :| 0 <= i < j < |rows| && Ahead(rows[i]) && Ahead(rows[j]) {
        assert Ahead(init[i]);
        if j < last { assert Ahead(init[j]); }
      }
    }
  }

  /** The stops still to be done are numbered, after those that are not, so that
      every one of them is the nearest that could come next. */
  lemma OptimiseIsNearestFirst(t: Trip, d: Distance, start: Option<nat>) returns (plan: seq<Stop>)
    requires TripOk(t) && Refusal(t, Optimise(d, start)) == None
    ensures forall k :: 0 <= k < |t.rows| && Ahead(t.rows[k]) ==> t.rows[k] in plan
    ensures forall p :: 0 <= p < |plan| ==> NearestAt(plan, {}, d, start, p)
    ensures var r := Next(t, Optimise(d, start)).rows;
            && |plan| <= |r| == |t.rows|
            && forall p :: 0 <= p < |plan| ==>
                 && plan[p].id < |r| && t.rows[plan[p].id] == plan[p] && Ahead(plan[p])
                 && r[plan[p].id] == plan[p].(sequence := |r| - |plan| + p + 1)
  {
    plan := TripRuns.Ahead(t.rows, d, start);
    ReplannedNamesEveryStop(t.rows, d, start);
    AheadIsOpen(t.rows, d, start);
    forall k | 0 <= k < |t.rows| && Ahead(t.rows[k]) ensures t.rows[k] in plan {
      var a := PlannedAt(t.rows, d, start, k);
    }
    forall p | 0 <= p < |plan| ensures NearestAt(plan, {}, d, start, p) { AheadNearestFirst(t.rows, d, start, p); }
    forall p | 0 <= p < |plan|
      ensures Next(t, Optimise(d, start)).rows[plan[p].id] == plan[p].(sequence := |t.rows| - |plan| + p + 1)
    {
      AheadNumbered(t.rows, d, start, p);
    }
  }

  lemma AheadNearestFirst(rows: seq<Stop>, d: Distance, start: Option<nat>, p: nat)
    requires p < |TripRuns.Ahead(rows, d, start)|
    ensures NearestAt(TripRuns.Ahead(rows, d, start), {}, d, start, p)
  {
    var stops := Stops(rows, OpenStops(rows));
    PlanIsNearestFirst(stops, d, start, p);
    assert (set s | s in stops && s.kind == Pickup && s.status != Pending && s.status != Arrived :: s.order) == {};
  }

  lemma AheadNumbered(rows: seq<Stop>, d: Distance, start: Option<nat>, p: nat)
    requires Numbered(rows) && p < |TripRuns.Ahead(rows, d, start)|
    ensures var plan := TripRuns.Ahead(rows, d, start);
            && plan[p].id < |rows| && |plan| <= |rows|
            && Renumber(rows, Replanned(rows, d, start))[plan[p].id]
               == plan[p].(sequence := |rows| - |plan| + p + 1)
  {
    var plan, ids, closed := TripRuns.Ahead(rows, d, start), Replanned(rows, d, start), |ClosedStops(rows)|;
    ReplannedNamesEveryStop(rows, d, start);
    AheadIsOpen(rows, d, start);
    assert ids[closed + p] == plan[p].id;
    RenumberWrites(rows, ids, closed + p);
  }
}
