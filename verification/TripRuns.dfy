/** Multi-stop runs: a numbered sequence of stops worked through by one driver. */
module TripRuns {
  import opened Prelude
  import opened RouteSequencing
  import M = OrderModel

  datatype TripStatus = Planned | Active | Completed | Cancelled

  /** A run; `rows` are its stops by id, each with its place in the sequence. */
  datatype Trip = Trip(status: TripStatus, rows: seq<Stop>)

  predicate Finished(s: TripStatus) {
    s.Completed? || s.Cancelled?
  }

  function OpenLeft(rows: seq<Stop>): nat {
    if rows == [] then 0 else OpenLeft(rows[..|rows| - 1]) + (if Open(rows[|rows| - 1].status) then 1 else 0)
  }

  // ----- numbering -----------------------------------------------------------------

  /** Stops are known by their position, and the sequence numbers are exactly
      1..n. */
  predicate Numbered(rows: seq<Stop>) {
    && (forall k :: 0 <= k < |rows| ==> rows[k].id == k && 1 <= rows[k].sequence <= |rows|)
    && (forall i, j :: 0 <= i < j < |rows| ==> rows[i].sequence != rows[j].sequence)
  }

  /** What writing 1, 2, ... to the stops `ids` in turn comes to. */
  function Renumber(rows: seq<Stop>, ids: seq<nat>): (r: seq<Stop>)
    ensures |r| == |rows|
  {
    if ids == [] then rows
    else
      var r := Renumber(rows, ids[..|ids| - 1]);
      var k := ids[|ids| - 1];
      if k < |r| then r[k := r[k].(sequence := |ids|)] else r
  }

  function At(rows: seq<Stop>, p: nat): (r: Option<nat>)
    ensures r.Some? ==> r.value < |rows| && rows[r.value].sequence == p
    ensures r.None? ==> forall k :: 0 <= k < |rows| ==> rows[k].sequence != p
  {
    if rows == [] then None
    else if rows[|rows| - 1].sequence == p then Some(|rows| - 1)
    else At(rows[..|rows| - 1], p)
  }

  /** The stops with a number up to `n`, in order of their numbers. */
  function Line(rows: seq<Stop>, n: nat): (ids: seq<nat>)
    ensures forall i :: 0 <= i < |ids| ==> ids[i] < |rows|
  {
    if n == 0 then []
    else Line(rows, n - 1) + (if At(rows, n).Some? then [At(rows, n).value] else [])
  }

  /** Those of `ids` that are open, or those that are not, in the order given. */
  function Among(rows: seq<Stop>, ids: seq<nat>, open: bool): (r: seq<nat>)
    requires forall i :: 0 <= i < |ids| ==> ids[i] < |rows|
    ensures forall i :: 0 <= i < |r| ==> r[i] < |rows| && r[i] in ids && Open(rows[r[i]].status) == open
  {
    if ids == [] then []
    else
      var k := ids[|ids| - 1];
      Among(rows, ids[..|ids| - 1], open) + (if Open(rows[k].status) == open then [k] else [])
  }

  function Stops(rows: seq<Stop>, ids: seq<nat>): (r: seq<Stop>)
    requires forall i :: 0 <= i < |ids| ==> ids[i] < |rows|
    ensures |r| == |ids| && forall i :: 0 <= i < |ids| ==> r[i] == rows[ids[i]]
  {
    seq(|ids|, i requires 0 <= i < |ids| => rows[ids[i]])
  }

  function Ids(plan: seq<Stop>): (r: seq<nat>)
    ensures |r| == |plan| && forall i :: 0 <= i < |plan| ==> r[i] == plan[i].id
  {
    seq(|plan|, i requires 0 <= i < |plan| => plan[i].id)
  }

  function ClosedStops(rows: seq<Stop>): (r: seq<nat>)
    ensures forall i :: 0 <= i < |r| ==> r[i] < |rows| && !Open(rows[r[i]].status)
  {
    Among(rows, Line(rows, |rows|), false)
  }

  function OpenStops(rows: seq<Stop>): (r: seq<nat>)
    ensures forall i :: 0 <= i < |r| ==> r[i] < |rows| && Open(rows[r[i]].status)
  {
    Among(rows, Line(rows, |rows|), true)
  }

  function Ahead(rows: seq<Stop>, d: Distance, start: Option<nat>): seq<Stop> {
    Plan(Stops(rows, OpenStops(rows)), d, start)
  }

  /** What was visited keeps its place; only what is ahead is put in order. */
  function Replanned(rows: seq<Stop>, d: Distance, start: Option<nat>): seq<nat> {
    ClosedStops(rows) + Ids(Ahead(rows, d, start))
  }

  // ----- the transactions ------------------------------------------------------------

  datatype Event =
    | Optimise(d: Distance, start: Option<nat>)
    | Reorder(ids: seq<nat>)
    | Update(status: Option<TripStatus>, driverGiven: bool, driverProblem: bool, driverBusy: bool)
    | Visit(k: nat, mark: StopStatus, reasoned: bool, permitted: bool)

  datatype Code =
    | NothingToOptimise | NoSequence | SequenceMismatch
    | InvalidStatus | AlreadyCompleted | DriverProblem | DriverBusy
    | InvalidStopStatus | ReasonRequired | StopNotFound | StopForbidden | AlreadyClosed

  function Refusal(t: Trip, e: Event): Option<Code> {
    match e
    case Optimise(_, _) => if OpenLeft(t.rows) < 2 then Some(NothingToOptimise) else None
    case Reorder(ids) =>
      if ids == [] then Some(NoSequence)
      else if |ids| != |t.rows| || (exists i :: 0 <= i < |ids| && ids[i] >= |t.rows|) || |M.Members(ids)| != |ids|
      then Some(SequenceMismatch)
      else None
    case Update(status, given, problem, busy) =>
      if status == Some(Completed) then Some(InvalidStatus)
      else if t.status.Completed? then Some(AlreadyCompleted)
      else if (given || status == Some(Active)) && problem then Some(DriverProblem)
      else if busy && status.Or(t.status).Active? then Some(DriverBusy)
      else None
    case Visit(k, status, reasoned, permitted) =>
      if status.Pending? then Some(InvalidStopStatus)
      else if (status.Failed? || status.Skipped?) && !reasoned then Some(ReasonRequired)
      else if k >= |t.rows| then Some(StopNotFound)
      else if !permitted then Some(StopForbidden)
      else if !Open(t.rows[k].status) then Some(AlreadyClosed)
      else None
  }

  function SkipOpen(rows: seq<Stop>): (r: seq<Stop>)
    ensures |r| == |rows|
    ensures forall k :: 0 <= k < |rows| ==>
              r[k] == if Open(rows[k].status) then rows[k].(status := Skipped) else rows[k]
  {
    seq(|rows|, k requires 0 <= k < |rows| => if Open(rows[k].status) then rows[k].(status := Skipped) else rows[k])
  }

  function Visited(t: Trip, k: nat, status: StopStatus): Trip
    requires k < |t.rows|
  {
    var rows := t.rows[k := t.rows[k].(status := status)];
    Trip(if OpenLeft(rows) == 0 then Completed else if t.status.Planned? then Active else t.status, rows)
  }

  function Next(t: Trip, e: Event): Trip {
    if Refusal(t, e).Some? then t else
    match e
    case Optimise(d, start) => t.(rows := Renumber(t.rows, Replanned(t.rows, d, start)))
    case Reorder(ids) => t.(rows := Renumber(t.rows, ids))
    case Update(status, _, _, _) =>
      Trip(status.Or(t.status), if status == Some(Cancelled) then SkipOpen(t.rows) else t.rows)
    case Visit(k, status, _, _) => Visited(t, k, status)
  }

  /** What a run is planned from: an order, whether it is already on board, and
      where it is collected and delivered. */
  datatype Load = Load(order: nat, collected: bool, from: Option<nat>, dest: Option<nat>)

  function Draft(loads: seq<Load>): seq<Stop> {
    if loads == [] then []
    else
      var l := loads[|loads| - 1];
      Draft(loads[..|loads| - 1])
      + (if l.collected then [] else [Stop(0, l.order, Pickup, Pending, 0, l.from)])
      + [Stop(0, l.order, Drop, Pending, 0, l.dest)]
  }

  function NewTrip(loads: seq<Load>, d: Distance, start: Option<nat>): Trip {
    var plan := Plan(Draft(loads), d, start);
    Trip(Planned, seq(|plan|, i requires 0 <= i < |plan| => plan[i].(id := i, sequence := i + 1)))
  }

  // ----- numbers stay 1..n -----------------------------------------------------------

  function Below(n: nat): (r: set<nat>)
    ensures |r| == n && forall k: nat :: k in r <==> k < n
  {
    if n == 0 then {} else Below(n - 1) + {n - 1}
  }

  /** A list of n different numbers below n names them all. */
  lemma Pigeonhole(ids: seq<nat>, n: nat)
    requires M.Distinct(ids) && |ids| == n && forall i :: 0 <= i < n ==> ids[i] < n
    ensures forall k :: 0 <= k < n ==> k in ids
  {
    M.DistinctSize(ids);
    M.SubsetOfSameSize(M.Members(ids), Below(n));
    forall k | 0 <= k < n ensures k in ids { assert k in M.Members(ids); }
  }

  lemma {:induction false} RenumberLeaves(rows: seq<Stop>, ids: seq<nat>, k: nat)
    requires k < |rows| && k !in ids
    ensures Renumber(rows, ids)[k] == rows[k]
  {
    if ids != [] {
      assert ids == ids[..|ids| - 1] + [ids[|ids| - 1]];
      RenumberLeaves(rows, ids[..|ids| - 1], k);
    }
  }

  lemma {:induction false} RenumberWrites(rows: seq<Stop>, ids: seq<nat>, i: nat)
    requires M.Distinct(ids) && i < |ids| && ids[i] < |rows|
    ensures Renumber(rows, ids)[ids[i]] == rows[ids[i]].(sequence := i + 1)
  {
    var init, last := ids[..|ids| - 1], ids[|ids| - 1];
    if i < |init| {
      assert init[i] == ids[i] && ids[i] != last;
      RenumberWrites(rows, init, i);
    } else {
      assert last !in init;
      RenumberLeaves(rows, init, last);
    }
  }

  /** Renumbering by a list that names every stop once gives the numbers 1..n. */
  lemma RenumberNumbers(rows: seq<Stop>, ids: seq<nat>)
    requires M.Distinct(ids) && |ids| == |rows| && forall i :: 0 <= i < |ids| ==> ids[i] < |rows|
    requires forall k :: 0 <= k < |rows| ==> rows[k].id == k
    ensures Numbered(Renumber(rows, ids))
  {
    forall k | 0 <= k < |rows| ensures var r := Renumber(rows, ids); r[k].id == k && 1 <= r[k].sequence <= |rows| {
      var i := NumberGiven(rows, ids, k);
    }
    forall j, k | 0 <= j < k < |rows| ensures var r := Renumber(rows, ids); r[j].sequence != r[k].sequence {
      var i := NumberGiven(rows, ids, j);
      var l := NumberGiven(rows, ids, k);
    }
  }

  lemma NumberGiven(rows: seq<Stop>, ids: seq<nat>, k: nat) returns (i: nat)
    requires M.Distinct(ids) && |ids| == |rows| && forall i :: 0 <= i < |ids| ==> ids[i] < |rows|
    requires k < |rows|
    ensures i < |ids| && ids[i] == k && Renumber(rows, ids)[k] == rows[k].(sequence := i + 1)
  {
    Pigeonhole(ids, |rows|);
    assert k in ids;
    i :| 0 <= i < |ids| && ids[i] == k;
    RenumberWrites(rows, ids, i);
  }

  lemma {:induction false} LineIs(rows: seq<Stop>, n: nat)
    requires Numbered(rows) && n <= |rows|
    ensures var line := Line(rows, n);
            |line| == n && forall i :: 0 <= i < n ==> rows[line[i]].sequence == i + 1
  {
    if n > 0 {
      LineIs(rows, n - 1);
      EveryNumberIsTaken(rows, n);
    }
  }

  lemma EveryNumberIsTaken(rows: seq<Stop>, p: nat)
    requires Numbered(rows) && 1 <= p <= |rows|
    ensures At(rows, p).Some?
  {
    var numbers: seq<nat> := seq(|rows|, k requires 0 <= k < |rows| => rows[k].sequence - 1);
    Pigeonhole(numbers, |rows|);
    assert p - 1 in numbers;
  }

  lemma {:induction false} AmongSplits(rows: seq<Stop>, ids: seq<nat>)
    requires forall i :: 0 <= i < |ids| ==> ids[i] < |rows|
    ensures |Among(rows, ids, true)| + |Among(rows, ids, false)| == |ids|
  {
    if ids != [] { AmongSplits(rows, ids[..|ids| - 1]); }
  }

  /** The stops `ids` come in the order of their numbers. */
  predicate Rising(rows: seq<Stop>, ids: seq<nat>)
    requires forall i :: 0 <= i < |ids| ==> ids[i] < |rows|
  {
    forall i, j :: 0 <= i < j < |ids| ==> rows[ids[i]].sequence < rows[ids[j]].sequence
  }

  lemma {:induction false} AmongKeepsOrder(rows: seq<Stop>, ids: seq<nat>, open: bool)
    requires (forall i :: 0 <= i < |ids| ==> ids[i] < |rows|) && Rising(rows, ids)
    ensures Rising(rows, Among(rows, ids, open))
  {
    if ids != [] {
      var init, last := ids[..|ids| - 1], ids[|ids| - 1];
      AmongKeepsOrder(rows, init, open);
      var r := Among(rows, init, open);
      forall i | 0 <= i < |r| ensures rows[r[i]].sequence < rows[last].sequence {
        var k :| 0 <= k < |init| && init[k] == r[i];
        assert ids[k] == r[i];
      }
      assert Rising(rows, r + [last]);
    }
  }

  predicate OwnIds(stops: seq<Stop>) {
    forall i, j :: 0 <= i < j < |stops| ==> stops[i].id != stops[j].id
  }

  lemma {:induction false} SequenceKeepsIds(stops: seq<Stop>, collected: set<nat>, d: Distance, cursor: Option<nat>)
    requires OwnIds(stops)
    ensures var plan := Sequence(stops, collected, d, cursor);
            OwnIds(plan) && |plan| == |stops| && forall s :: s in plan ==> s in stops
    decreases |stops|
  {
    if stops != [] {
      var best := Pick(stops, collected, d, cursor);
      var s := stops[best];
      var rest := RemoveAt(stops, best);
      RestOwnsIds(stops, best);
      var next := Sequence(rest, Collect(collected, s), d, if s.at.Some? then s.at else cursor);
      SequenceKeepsIds(rest, Collect(collected, s), d, if s.at.Some? then s.at else cursor);
      HeadOwnsId(s, next);
    }
  }

  lemma HeadOwnsId(s: Stop, next: seq<Stop>)
    requires OwnIds(next) && forall t :: t in next ==> t.id != s.id
    ensures OwnIds([s] + next)
  {
    var plan := [s] + next;
    forall i, j | 0 <= i < j < |plan| ensures plan[i].id != plan[j].id {
      assert plan[j] == next[j - 1] && next[j - 1] in next;
      if i > 0 { assert plan[i] == next[i - 1]; }
    }
  }

  lemma RestOwnsIds(stops: seq<Stop>, best: nat)
    requires best < |stops| && OwnIds(stops)
    ensures OwnIds(RemoveAt(stops, best))
    ensures forall s :: s in RemoveAt(stops, best) ==> s in stops && s.id != stops[best].id
  {
    var rest := RemoveAt(stops, best);
    assert forall k :: 0 <= k < |rest| ==> rest[k] == stops[if k < best then k else k + 1];
  }

  /** The closed stops and the open ones, each in the order of their numbers. */
  lemma LineSplits(rows: seq<Stop>)
    requires Numbered(rows)
    ensures |ClosedStops(rows)| + |OpenStops(rows)| == |rows|
    ensures Rising(rows, ClosedStops(rows)) && Rising(rows, OpenStops(rows))
  {
    var line := Line(rows, |rows|);
    LineIs(rows, |rows|);
    AmongSplits(rows, line);
    AmongKeepsOrder(rows, line, false);
    AmongKeepsOrder(rows, line, true);
  }

  lemma RisingIsDistinct(rows: seq<Stop>, ids: seq<nat>)
    requires (forall i :: 0 <= i < |ids| ==> ids[i] < |rows|) && Rising(rows, ids)
    ensures M.Distinct(ids)
  {
    forall i, j | 0 <= i < j < |ids| ensures ids[i] != ids[j] {
      assert rows[ids[i]].sequence < rows[ids[j]].sequence;
    }
  }

  /** What is planned ahead is the open stops of the run, each of them once. */
  lemma AheadIsOpen(rows: seq<Stop>, d: Distance, start: Option<nat>)
    requires Numbered(rows)
    ensures var plan := Ahead(rows, d, start);
            && |plan| == |OpenStops(rows)| && OwnIds(plan)
            && forall i :: 0 <= i < |plan| ==>
                 plan[i].id < |rows| && plan[i] == rows[plan[i].id] && Open(plan[i].status)
  {
    LineSplits(rows);
    var open := OpenStops(rows);
    var stops := Stops(rows, open);
    RisingIsDistinct(rows, open);
    assert OwnIds(stops);
    SequenceKeepsIds(stops, CollectedAlready(stops), d, start);
    var plan := Ahead(rows, d, start);
    forall i | 0 <= i < |plan| ensures plan[i].id < |rows| && plan[i] == rows[plan[i].id] && Open(plan[i].status) {
      assert plan[i] in stops;
    }
  }

  /** The order an optimisation puts the stops in names each of them once: first
      the closed ones as they were, then the open ones. */
  lemma ReplannedNamesEveryStop(rows: seq<Stop>, d: Distance, start: Option<nat>)
    requires Numbered(rows)
    ensures var ids := Replanned(rows, d, start);
            && M.Distinct(ids) && |ids| == |rows| && (forall i :: 0 <= i < |ids| ==> ids[i] < |rows|)
            && (forall i :: 0 <= i < |ids| ==> (Open(rows[ids[i]].status) <==> |ClosedStops(rows)| <= i))
  {
    LineSplits(rows);
    AheadIsOpen(rows, d, start);
    RisingIsDistinct(rows, ClosedStops(rows));
  }

  /** An open pickup and the open drop it is for. */
  predicate CollectsFor(p: Stop, q: Stop) {
    Open(p.status) && Open(q.status) && p.order == q.order && p.kind.Pickup? && q.kind.Drop?
  }

  /** Along `closed`, positions and numbers go the same way. */
  lemma RisingEitherWay(rows: seq<Stop>, closed: seq<nat>, a: nat, b: nat)
    requires (forall i :: 0 <= i < |closed| ==> closed[i] < |rows|) && Rising(rows, closed)
    requires a < |closed| && b < |closed|
    ensures rows[closed[a]].sequence < rows[closed[b]].sequence <==> a < b
  {
  }

  lemma ClosedComeFirst(rows: seq<Stop>, d: Distance, start: Option<nat>, j: nat, k: nat)
    requires Numbered(rows) && j < |rows| && k < |rows| && !Open(rows[j].status)
    ensures var r := Renumber(rows, Replanned(rows, d, start));
            && (Open(rows[k].status) ==> r[j].sequence < r[k].sequence)
            && (!Open(rows[k].status) ==> (rows[j].sequence < rows[k].sequence <==> r[j].sequence < r[k].sequence))
  {
    ReplannedNamesEveryStop(rows, d, start);
    LineSplits(rows);
    var ids, closed := Replanned(rows, d, start), ClosedStops(rows);
    var a := NumberGiven(rows, ids, j);
    var b := NumberGiven(rows, ids, k);
    assert closed[a] == j;
    if !Open(rows[k].status) {
      assert closed[b] == k;
      RisingEitherWay(rows, closed, a, b);
    }
  }

  lemma PickupFirst(plan: seq<Stop>, a: nat, b: nat)
    requires a < |plan| && b < |plan| && CollectsFor(plan[a], plan[b]) && !DropFirst(plan)
    ensures a < b
  {
  }

  lemma PlannedAt(rows: seq<Stop>, d: Distance, start: Option<nat>, j: nat) returns (a: nat)
    requires Numbered(rows) && j < |rows| && Open(rows[j].status)
    ensures var plan := Ahead(rows, d, start);
            && a < |plan| && plan[a] == rows[j]
            && Renumber(rows, Replanned(rows, d, start))[j].sequence == |ClosedStops(rows)| + a + 1
  {
    ReplannedNamesEveryStop(rows, d, start);
    var i := NumberGiven(rows, Replanned(rows, d, start), j);
    AheadIsOpen(rows, d, start);
    a := i - |ClosedStops(rows)|;
  }

  lemma CollectedFirst(rows: seq<Stop>, d: Distance, start: Option<nat>, j: nat, k: nat)
    requires Numbered(rows) && OwnStops(rows) && j < |rows| && k < |rows| && CollectsFor(rows[j], rows[k])
    ensures var r := Renumber(rows, Replanned(rows, d, start)); r[j].sequence < r[k].sequence
  {
    var a := PlannedAt(rows, d, start, j);
    var b := PlannedAt(rows, d, start, k);
    AheadKeepsPrecedence(rows, d, start);
    PickupFirst(Ahead(rows, d, start), a, b);
  }

  lemma AheadKeepsPrecedence(rows: seq<Stop>, d: Distance, start: Option<nat>)
    requires Numbered(rows) && OwnStops(rows)
    ensures !DropFirst(Ahead(rows, d, start))
  {
    LineSplits(rows);
    RisingIsDistinct(rows, OpenStops(rows));
    var open := OpenStops(rows);
    forall i, j | 0 <= i < j < |open|
      ensures !(rows[open[i]].kind == rows[open[j]].kind && rows[open[i]].order == rows[open[j]].order)
    {
      assert open[i] != open[j];
    }
    PlanKeepsPrecedence(Stops(rows, open), d, start);
  }

  /** An optimisation keeps the closed stops in the order they were visited, puts
      them before everything still ahead, and never puts a delivery ahead of its
      own collection. */
  lemma OptimiseKeepsHistory(rows: seq<Stop>, d: Distance, start: Option<nat>, j: nat, k: nat)
    requires Numbered(rows) && OwnStops(rows) && j < |rows| && k < |rows|
    ensures var r := Renumber(rows, Replanned(rows, d, start));
            && (!Open(rows[j].status) && !Open(rows[k].status) ==>
                  (rows[j].sequence < rows[k].sequence <==> r[j].sequence < r[k].sequence))
            && (!Open(rows[j].status) && Open(rows[k].status) ==> r[j].sequence < r[k].sequence)
            && (CollectsFor(rows[j], rows[k]) ==> r[j].sequence < r[k].sequence)
  {
    if !Open(rows[j].status) { ClosedComeFirst(rows, d, start, j, k); }
    if CollectsFor(rows[j], rows[k]) { CollectedFirst(rows, d, start, j, k); }
  }

  // ----- the run as a whole -------------------------------------------------------------

  predicate TripOk(t: Trip) {
    && Numbered(t.rows) && OwnStops(t.rows)
    && (Finished(t.status) ==> OpenLeft(t.rows) == 0)
  }

  /** A run is finished exactly when none of its stops is open. */
  predicate FinishedWhenDone(t: Trip) {
    Finished(t.status) <==> OpenLeft(t.rows) == 0
  }

  lemma {:induction false} OpenLeftIs(rows: seq<Stop>)
    ensures OpenLeft(rows) == 0 <==> forall k :: 0 <= k < |rows| ==> !Open(rows[k].status)
  {
    if rows != [] { OpenLeftIs(rows[..|rows| - 1]); }
  }

  lemma {:induction false} OpenLeftAfter(rows: seq<Stop>, k: nat, mark: StopStatus)
    requires k < |rows|
    ensures OpenLeft(rows[k := rows[k].(status := mark)])
            == OpenLeft(rows) - (if Open(rows[k].status) then 1 else 0) + (if Open(mark) then 1 else 0)
  {
    var init, last := rows[..|rows| - 1], |rows| - 1;
    var after := rows[k := rows[k].(status := mark)];
    if k < last {
      OpenLeftAfter(init, k, mark);
      assert after[..last] == init[k := init[k].(status := mark)];
    } else {
      assert after[..last] == init;
    }
  }

  lemma RenumberKeeps(rows: seq<Stop>, ids: seq<nat>, k: nat)
    requires M.Distinct(ids) && (forall i :: 0 <= i < |ids| ==> ids[i] < |rows|) && k < |rows|
    ensures Renumber(rows, ids)[k] == rows[k].(sequence := Renumber(rows, ids)[k].sequence)
  {
    if k in ids {
      var i :| 0 <= i < |ids| && ids[i] == k;
      RenumberWrites(rows, ids, i);
    } else {
      RenumberLeaves(rows, ids, k);
    }
  }

  /** A hand-made order is taken exactly when it names every stop of the run once. */
  lemma ReorderTakenExactly(t: Trip, ids: seq<nat>)
    ensures Refusal(t, Reorder(ids)).None? <==>
              ids != [] && |ids| == |t.rows| && M.Distinct(ids) && forall k :: 0 <= k < |t.rows| ==> k in ids
  {
    if Refusal(t, Reorder(ids)).None? {
      M.SameSizeDistinct(ids);
      Pigeonhole(ids, |t.rows|);
    } else if ids != [] && |ids| == |t.rows| && M.Distinct(ids) && forall k :: 0 <= k < |t.rows| ==> k in ids {
      M.DistinctSize(ids);
      assert Below(|ids|) <= M.Members(ids);
      M.SubsetOfSameSize(Below(|ids|), M.Members(ids));
      forall i | 0 <= i < |ids| ensures ids[i] < |t.rows| { assert ids[i] in M.Members(ids); }
      assert false;
    }
  }

  /** The list of stop ids a re-sequencing writes along. */
  lemma ResequencingNamesEveryStop(t: Trip, e: Event, ids: seq<nat>)
    requires Numbered(t.rows) && Refusal(t, e).None?
    requires (e.Reorder? && ids == e.ids) || (e.Optimise? && ids == Replanned(t.rows, e.d, e.start))
    ensures M.Distinct(ids) && |ids| == |t.rows| && forall i :: 0 <= i < |ids| ==> ids[i] < |t.rows|
  {
    if e.Reorder? { M.SameSizeDistinct(ids); } else { ReplannedNamesEveryStop(t.rows, e.d, e.start); }
  }

  /** No step touches what a stop is for, and none reopens or alters a closed one. */
  lemma ClosedStopsNeverChange(t: Trip, e: Event, k: nat)
    requires Numbered(t.rows) && k < |t.rows|
    ensures var r := Next(t, e).rows;
            && |r| == |t.rows| && r[k].id == t.rows[k].id && r[k].order == t.rows[k].order
                 && r[k].kind == t.rows[k].kind
            && (!Open(t.rows[k].status) ==> r[k].status == t.rows[k].status)
  {
    if Refusal(t, e).None? {
      match e
      case Optimise(d, start) =>
        ResequencingNamesEveryStop(t, e, Replanned(t.rows, d, start));
        RenumberKeeps(t.rows, Replanned(t.rows, d, start), k);
      case Reorder(ids) =>
        ResequencingNamesEveryStop(t, e, ids);
        RenumberKeeps(t.rows, ids, k);
      case _ =>
    }
  }

  lemma ResequencingKeepsStatuses(t: Trip, e: Event)
    requires Numbered(t.rows) && (e.Optimise? || e.Reorder?)
    ensures Numbered(Next(t, e).rows) && Next(t, e).status == t.status
    ensures OpenLeft(Next(t, e).rows) == OpenLeft(t.rows)
  {
    if Refusal(t, e).None? {
      var ids := if e.Reorder? then e.ids else Replanned(t.rows, e.d, e.start);
      ResequencingNamesEveryStop(t, e, ids);
      RenumberNumbers(t.rows, ids);
      forall k | 0 <= k < |t.rows|
        ensures Next(t, e).rows[k].status == t.rows[k].status
      {
        RenumberKeeps(t.rows, ids, k);
      }
      SameStatuses(t.rows, Next(t, e).rows);
    }
  }

  lemma {:induction false} SameStatuses(a: seq<Stop>, b: seq<Stop>)
    requires |a| == |b| && forall k :: 0 <= k < |a| ==> a[k].status == b[k].status
    ensures OpenLeft(a) == OpenLeft(b)
  {
    if a != [] { SameStatuses(a[..|a| - 1], b[..|b| - 1]); }
  }

  lemma StepKeepsOwnStops(t: Trip, e: Event)
    requires TripOk(t)
    ensures |Next(t, e).rows| == |t.rows| && OwnStops(Next(t, e).rows)
  {
    var r := Next(t, e).rows;
    if |t.rows| > 0 { ClosedStopsNeverChange(t, e, 0); }
    forall k | 0 <= k < |t.rows| ensures r[k].order == t.rows[k].order && r[k].kind == t.rows[k].kind {
      ClosedStopsNeverChange(t, e, k);
    }
  }

  lemma SameNumbers(a: seq<Stop>, b: seq<Stop>)
    requires Numbered(a) && |a| == |b| && forall k :: 0 <= k < |a| ==>
               b[k].id == a[k].id && b[k].sequence == a[k].sequence
    ensures Numbered(b)
  {
  }

  lemma StepKeepsNumbers(t: Trip, e: Event)
    requires TripOk(t)
    ensures Numbered(Next(t, e).rows)
  {
    match e
    case Optimise(_, _) => ResequencingKeepsStatuses(t, e);
    case Reorder(_) => ResequencingKeepsStatuses(t, e);
    case _ => SameNumbers(t.rows, Next(t, e).rows);
  }

  lemma StepKeepsFinished(t: Trip, e: Event)
    requires TripOk(t)
    ensures Finished(Next(t, e).status) ==> OpenLeft(Next(t, e).rows) == 0
  {
    if Refusal(t, e).None? {
      match e
      case Visit(k, mark, _, _) => OpenLeftIs(t.rows);
      case Update(_, _, _, _) => OpenLeftIs(Next(t, e).rows);
      case _ => ResequencingKeepsStatuses(t, e);
    }
  }

  lemma StepKeepsTrip(t: Trip, e: Event)
    requires TripOk(t)
    ensures TripOk(Next(t, e))
  {
    StepKeepsOwnStops(t, e);
    StepKeepsNumbers(t, e);
    StepKeepsFinished(t, e);
  }

  /** Marking a stop ends the run in the same step exactly when it closes the last
      one that was open. */
  lemma ClosingTheLastStopCompletes(t: Trip, k: nat, mark: StopStatus, reasoned: bool, permitted: bool)
    requires TripOk(t) && Refusal(t, Visit(k, mark, reasoned, permitted)).None?
    ensures Next(t, Visit(k, mark, reasoned, permitted)).status.Completed? <==> OpenLeft(t.rows) == 1 && !Open(mark)
  {
    OpenLeftAfter(t.rows, k, mark);
    OpenLeftIs(t.rows);
  }

  /** Reviving a cancelled run is the one step after which a run is not finished
      although nothing on it is open. */
  lemma FinishedWhenDoneExactly(t: Trip, e: Event)
    requires TripOk(t) && FinishedWhenDone(t)
    ensures FinishedWhenDone(Next(t, e)) <==>
              !(e.Update? && Refusal(t, e).None? && t.status.Cancelled?
                && (e.status == Some(Planned) || e.status == Some(Active)))
  {
    if Refusal(t, e).None? {
      match e
      case Visit(k, mark, _, _) => OpenLeftAfter(t.rows, k, mark); OpenLeftIs(t.rows);
      case Update(_, _, _, _) => OpenLeftIs(Next(t, e).rows);
      case _ => ResequencingKeepsStatuses(t, e);
    }
  }

  function Run(t: Trip, es: seq<Event>): Trip {
    if es == [] then t else Next(Run(t, es[..|es| - 1]), es[|es| - 1])
  }

  /** A run nothing is open on is never completed: only cancelling it again ends
      it. */
  lemma {:induction false} NothingOpenNeverCompletes(t: Trip, es: seq<Event>)
    requires TripOk(t) && OpenLeft(t.rows) == 0 && !t.status.Completed?
    ensures TripOk(Run(t, es)) && OpenLeft(Run(t, es).rows) == 0 && !Run(t, es).status.Completed?
  {
    if es != [] {
      var before, e := Run(t, es[..|es| - 1]), es[|es| - 1];
      NothingOpenNeverCompletes(t, es[..|es| - 1]);
      StepKeepsTrip(before, e);
      OpenLeftIs(before.rows);
      match e
      case Update(_, _, _, _) => OpenLeftIs(Next(before, e).rows);
      case Visit(_, _, _, _) =>
      case _ => ResequencingKeepsStatuses(before, e);
    }
  }

  /** Whether the second of two reports whose transactions overlap waits for the
      first: both start the run, or both move the same order. */
  predicate Waits(t: Trip, j: nat, first: StopStatus, k: nat, second: StopStatus)
    requires j < |t.rows| && k < |t.rows|
  {
    t.status.Planned? || (first.Done? && second.Done? && t.rows[j].order == t.rows[k].order)
  }

  /** Two reports whose transactions overlap.  Each counts what is open after its
      own mark; unless one waits for the other, neither sees the other's. */
  function Together(t: Trip, j: nat, first: StopStatus, k: nat, second: StopStatus): Trip
    requires j < |t.rows| && k < |t.rows|
  {
    if Waits(t, j, first, k, second) then Visited(Visited(t, j, first), k, second)
    else
      var a, b := Visited(t, j, first), Visited(t, k, second);
      Trip(if a.status.Completed? || b.status.Completed? then Completed else t.status, a.rows[k := b.rows[k]])
  }

  lemma TwoMarks(t: Trip, j: nat, first: StopStatus, k: nat, second: StopStatus)
    requires TripOk(t) && j < |t.rows| && k < |t.rows| && j != k && Open(t.rows[j].status) && Open(t.rows[k].status)
    ensures var r := Together(t, j, first, k, second);
            && r.rows == Visited(Visited(t, j, first), k, second).rows
            && OpenLeft(r.rows)
                 == OpenLeft(t.rows) - 2 + (if Open(first) then 1 else 0) + (if Open(second) then 1 else 0)
            && OpenLeft(t.rows) >= 2
    ensures !Visited(t, j, first).status.Completed? && !Visited(t, k, second).status.Completed?
  {
    OpenLeftAfter(t.rows, j, first);
    OpenLeftAfter(t.rows, k, second);
    OpenLeftAfter(Visited(t, j, first).rows, k, second);
    OpenLeftAfter(t.rows, j, Done);
    OpenLeftAfter(t.rows[j := t.rows[j].(status := Done)], k, Done);
    OpenLeftIs(t.rows);
  }

  /** Overlapping reports end the run exactly when they close the last two open
      stops and one waits for the other. */
  lemma OverlappingReportsCompleteExactly(t: Trip, j: nat, first: StopStatus, k: nat, second: StopStatus)
    requires TripOk(t) && j < |t.rows| && k < |t.rows| && j != k && Open(t.rows[j].status) && Open(t.rows[k].status)
    ensures Together(t, j, first, k, second).status.Completed? <==>
              OpenLeft(t.rows) == 2 && !Open(first) && !Open(second) && Waits(t, j, first, k, second)
  {
    TwoMarks(t, j, first, k, second);
    OpenLeftIs(t.rows);
  }

  /** When none waits, a run whose last two stops are closed together keeps going
      for good: every stop is closed, so no report can end it any more. */
  lemma OverlappingReportsLeaveTheRunOpen(t: Trip, j: nat, first: StopStatus, k: nat, second: StopStatus,
                                          es: seq<Event>)
    requires TripOk(t) && j < |t.rows| && k < |t.rows| && j != k && Open(t.rows[j].status) && Open(t.rows[k].status)
    requires OpenLeft(t.rows) == 2 && !Open(first) && !Open(second) && !Waits(t, j, first, k, second)
    ensures var both := Together(t, j, first, k, second);
            TripOk(both) && OpenLeft(both.rows) == 0 && !Run(both, es).status.Completed?
  {
    TwoMarks(t, j, first, k, second);
    OpenLeftIs(t.rows);
    var both := Together(t, j, first, k, second);
    SameNumbers(t.rows, both.rows);
    SameStopsOwn(t.rows, both.rows);
    NothingOpenNeverCompletes(both, es);
  }

  lemma SameStopsOwn(a: seq<Stop>, b: seq<Stop>)
    requires OwnStops(a) && |a| == |b| && forall k :: 0 <= k < |a| ==>
               b[k].order == a[k].order && b[k].kind == a[k].kind
    ensures OwnStops(b)
  {
  }

  // ----- planning a run --------------------------------------------------------------

  lemma {:induction false} DraftOf(loads: seq<Load>)
    requires forall i, j :: 0 <= i < j < |loads| ==> loads[i].order != loads[j].order
    ensures OwnStops(Draft(loads)) && |Draft(loads)| >= |loads|
    ensures forall s :: s in Draft(loads) ==>
              s.status.Pending? && exists i :: 0 <= i < |loads| && s.order == loads[i].order
  {
    if loads != [] {
      var init, l := loads[..|loads| - 1], loads[|loads| - 1];
      DraftOf(init);
      var draft, all := Draft(init), Draft(loads);
      forall s | s in all ensures s.status.Pending? && exists i :: 0 <= i < |loads| && s.order == loads[i].order {
        if s in draft {
          var i :| 0 <= i < |init| && s.order == init[i].order;
          assert s.order == loads[i].order;
        } else {
          assert s.order == loads[|loads| - 1].order;
        }
      }
      forall i, j | 0 <= i < j < |all| ensures !(all[i].kind == all[j].kind && all[i].order == all[j].order) {
        if j >= |draft| && i < |draft| {
          assert all[i] == draft[i] && draft[i] in draft;
          var m :| 0 <= m < |init| && draft[i].order == init[m].order;
          assert loads[m].order != l.order;
        } else if j < |draft| {
          assert all[i] == draft[i] && all[j] == draft[j];
        }
      }
    }
  }

  /** Over every run planned from different orders, whatever is done to it. */
  lemma {:induction false} TripOverEveryRun(loads: seq<Load>, d: Distance, start: Option<nat>, es: seq<Event>)
    requires loads != [] && forall i, j :: 0 <= i < j < |loads| ==> loads[i].order != loads[j].order
    ensures TripOk(Run(NewTrip(loads, d, start), es))
    ensures FinishedWhenDone(NewTrip(loads, d, start)) && !DropFirst(NewTrip(loads, d, start).rows)
  {
    if es == [] {
      NewTripOk(loads, d, start);
    } else {
      TripOverEveryRun(loads, d, start, es[..|es| - 1]);
      StepKeepsTrip(Run(NewTrip(loads, d, start), es[..|es| - 1]), es[|es| - 1]);
    }
  }

  lemma NewTripOk(loads: seq<Load>, d: Distance, start: Option<nat>)
    requires loads != [] && forall i, j :: 0 <= i < j < |loads| ==> loads[i].order != loads[j].order
    ensures var t := NewTrip(loads, d, start); TripOk(t) && FinishedWhenDone(t) && !DropFirst(t.rows)
  {
    PlanOfDraft(loads, d, start);
    NumberedPlanOk(Plan(Draft(loads), d, start), NewTrip(loads, d, start));
  }

  lemma PlanOfDraft(loads: seq<Load>, d: Distance, start: Option<nat>)
    requires loads != [] && forall i, j :: 0 <= i < j < |loads| ==> loads[i].order != loads[j].order
    ensures var plan := Plan(Draft(loads), d, start);
            plan != [] && plan[0].status.Pending? && OwnStops(plan) && !DropFirst(plan)
  {
    DraftOf(loads);
    var draft := Draft(loads);
    var plan := Plan(draft, d, start);
    PlanKeepsPrecedence(draft, d, start);
    PlanOwnStops(draft, CollectedAlready(draft), d, start);
    PlanIsPermutation(draft, CollectedAlready(draft), d, start);
    SameElements(plan, draft);
    assert plan[0] in draft;
  }

  lemma NumberedPlanOk(plan: seq<Stop>, t: Trip)
    requires plan != [] && OwnStops(plan) && !DropFirst(plan) && plan[0].status.Pending?
    requires t.status.Planned? && |t.rows| == |plan|
    requires forall i :: 0 <= i < |plan| ==> t.rows[i] == plan[i].(id := i, sequence := i + 1)
    ensures TripOk(t) && FinishedWhenDone(t) && !DropFirst(t.rows)
  {
    forall i, j | 0 <= i < j < |t.rows| && t.rows[i].kind.Drop? && t.rows[j].kind.Pickup? && Open(t.rows[j].status)
      ensures t.rows[i].order != t.rows[j].order
    {
      assert plan[i].kind.Drop? && plan[j].kind.Pickup?;
    }
    assert Open(t.rows[0].status);
    OpenLeftIs(t.rows);
  }

  lemma HeadOwnStops(s: Stop, plan: seq<Stop>)
    requires OwnStops(plan) && forall t :: t in plan ==> !(s.kind == t.kind && s.order == t.order)
    ensures OwnStops([s] + plan)
  {
    var all := [s] + plan;
    forall i, j | 0 <= i < j < |all| ensures !(all[i].kind == all[j].kind && all[i].order == all[j].order) {
      assert all[j] == plan[j - 1] && plan[j - 1] in plan;
      if i > 0 { assert all[i] == plan[i - 1]; }
    }
  }

  /** No other stop is of the same kind for the same order. */
  lemma OthersDiffer(stops: seq<Stop>, best: nat, t: Stop)
    requires best < |stops| && OwnStops(stops) && t in RemoveAt(stops, best)
    ensures !(stops[best].kind == t.kind && stops[best].order == t.order)
  {
    RemainingOwnStops(stops, best);
    var k :| 0 <= k < |stops| && stops[k] == t;
    assert k != best;
    if k < best { assert !(stops[k].kind == stops[best].kind && stops[k].order == stops[best].order); }
  }

  lemma {:induction false} PlanOwnStops(stops: seq<Stop>, collected: set<nat>, d: Distance, cursor: Option<nat>)
    requires OwnStops(stops)
    ensures OwnStops(Sequence(stops, collected, d, cursor))
    decreases |stops|
  {
    if stops != [] {
      var best := Pick(stops, collected, d, cursor);
      var s := stops[best];
      var rest, collects, at := RemoveAt(stops, best), Collect(collected, s), if s.at.Some? then s.at else cursor;
      RemainingOwnStops(stops, best);
      PlanOwnStops(rest, collects, d, at);
      PlanIsPermutation(rest, collects, d, at);
      var plan := Sequence(rest, collects, d, at);
      SameElements(plan, rest);
      forall t | t in plan ensures !(s.kind == t.kind && s.order == t.order) { OthersDiffer(stops, best, t); }
      HeadOwnStops(s, plan);
    }
  }
}
