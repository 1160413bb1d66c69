/** The run endpoints over one run's rows, written in place. */
module TripTable {
  import opened Prelude
  import opened RouteSequencing
  import opened TripRuns
  import M = OrderModel

  class Table {
    var status: TripStatus
    var rows: seq<Stop>

    function View(): Trip
      reads this
    {
      Trip(status, rows)
    }

    constructor ()
      ensures View() == Trip(Planned, [])
    {
      status, rows := Planned, [];
    }

    static method DraftStops(loads: seq<Load>) returns (draft: seq<Stop>)
      ensures draft == Draft(loads)
    {
      draft := [];
      for i := 0 to |loads|
        invariant draft == Draft(loads[..i])
      {
        assert loads[..i + 1][..i] == loads[..i];
        var l := loads[i];
        if !l.collected { draft := draft + [Stop(0, l.order, Pickup, Pending, 0, l.from)]; }
        draft := draft + [Stop(0, l.order, Drop, Pending, 0, l.dest)];
      }
      assert loads[..|loads|] == loads;
    }

    /** Plans the run from orders that may be planned. */
    method CreateTrip(loads: seq<Load>, d: Distance, start: Option<nat>)
      modifies this
      ensures View() == NewTrip(loads, d, start)
    {
      var draft := DraftStops(loads);
      var ordered := SequenceStops(draft, d, start);
      status, rows := Planned, [];
      for i := 0 to |ordered|
        invariant status == Planned && |rows| == i
        invariant forall k :: 0 <= k < i ==> rows[k] == ordered[k].(id := k, sequence := k + 1)
      {
        rows := rows + [ordered[i].(id := i, sequence := i + 1)];
      }
    }

    method CountOpen() returns (n: nat)
      ensures n == OpenLeft(rows)
    {
      n := 0;
      for i := 0 to |rows|
        invariant n == OpenLeft(rows[..i])
      {
        assert rows[..i + 1][..i] == rows[..i];
        if Open(rows[i].status) { n := n + 1; }
      }
      assert rows[..|rows|] == rows;
    }

    method WriteSequence(ids: seq<nat>)
      requires forall i :: 0 <= i < |ids| ==> ids[i] < |rows|
      modifies `rows
      ensures rows == Renumber(old(rows), ids)
    {
      for i := 0 to |ids|
        invariant |rows| == |old(rows)| && rows == Renumber(old(rows), ids[..i])
      {
        assert ids[..i + 1][..i] == ids[..i];
        rows := rows[ids[i] := rows[ids[i]].(sequence := i + 1)];
      }
      assert ids[..|ids|] == ids;
    }

    method OptimiseTrip(d: Distance, start: Option<nat>) returns (code: Option<Code>)
      requires TripOk(View())
      modifies this
      ensures code == Refusal(old(View()), Optimise(d, start)) && View() == Next(old(View()), Optimise(d, start))
    {
      var open := CountOpen();
      if open < 2 { return Some(NothingToOptimise); }
      var plan := SequenceStops(Stops(rows, OpenStops(rows)), d, start);
      var ids := ClosedStops(rows) + Ids(plan);
      ReplannedNamesEveryStop(rows, d, start);
      WriteSequence(ids);
      return None;
    }

    method ReorderTrip(ids: seq<nat>) returns (code: Option<Code>)
      modifies this
      ensures code == Refusal(old(View()), Reorder(ids)) && View() == Next(old(View()), Reorder(ids))
    {
      if ids == [] { return Some(NoSequence); }
      if |ids| != |rows| || (exists i :: 0 <= i < |ids| && ids[i] >= |rows|) || |M.Members(ids)| != |ids| {
        return Some(SequenceMismatch);
      }
      WriteSequence(ids);
      return None;
    }

    method UpdateTrip(to: Option<TripStatus>, given: bool, problem: bool, busy: bool) returns (code: Option<Code>)
      modifies this
      ensures code == Refusal(old(View()), Update(to, given, problem, busy))
      ensures View() == Next(old(View()), Update(to, given, problem, busy))
    {
      if to == Some(Completed) { return Some(InvalidStatus); }
      if status.Completed? { return Some(AlreadyCompleted); }
      if (given || to == Some(Active)) && problem { return Some(DriverProblem); }
      var next := to.Or(status);
      if next.Active? && busy { return Some(DriverBusy); }
      status := next;
      if to == Some(Cancelled) {
        ghost var before := rows;
        for i := 0 to |rows|
          invariant status == next && |rows| == |before|
          invariant forall k :: 0 <= k < i ==> rows[k] == SkipOpen(before)[k]
          invariant forall k :: i <= k < |rows| ==> rows[k] == before[k]
        {
          if Open(rows[i].status) { rows := rows[i := rows[i].(status := Skipped)]; }
        }
        assert rows == SkipOpen(before);
      }
      return None;
    }

    method UpdateStop(k: nat, mark: StopStatus, reasoned: bool, permitted: bool) returns (code: Option<Code>)
      modifies this
      ensures code == Refusal(old(View()), Visit(k, mark, reasoned, permitted))
      ensures View() == Next(old(View()), Visit(k, mark, reasoned, permitted))
    {
      if mark.Pending? { return Some(InvalidStopStatus); }
      if (mark.Failed? || mark.Skipped?) && !reasoned { return Some(ReasonRequired); }
      if k >= |rows| { return Some(StopNotFound); }
      if !permitted { return Some(StopForbidden); }
      if !Open(rows[k].status) { return Some(AlreadyClosed); }
      rows := rows[k := rows[k].(status := mark)];
      if status.Planned? { status := Active; }
      var open := CountOpen();
      if open == 0 { status := Completed; }
      return None;
    }
  }
}
