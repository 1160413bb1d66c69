/** Nearest-neighbour ordering of the stops of a run, with a drop never before
    its own pickup. */
module RouteSequencing {
  import opened Prelude

  datatype Kind = Pickup | Drop

  datatype StopStatus = Pending | Arrived | Done | Failed | Skipped

  predicate Open(s: StopStatus) {
    s.Pending? || s.Arrived?
  }

  /** `at` is the stop's place, if it has coordinates. */
  datatype Stop = Stop(id: nat, order: nat, kind: Kind, status: StopStatus, sequence: nat, at: Option<nat>)

  type Distance = (nat, nat) -> nat

  /** Distance from the cursor, infinite when either end has no coordinates. */
  function Away(d: Distance, cursor: Option<nat>, s: Stop): Option<nat> {
    if cursor.None? || s.at.None? then None else Some(d(cursor.value, s.at.value))
  }

  predicate Less(a: Option<nat>, b: Option<nat>) {
    a.Some? && (b.None? || a.value < b.value)
  }

  predicate Eligible(s: Stop, collected: set<nat>) {
    s.kind.Pickup? || s.order in collected
  }

  /** The stops to choose from: the eligible ones, or all when there is none. */
  predicate Choosable(stops: seq<Stop>, collected: set<nat>, i: nat)
    requires i < |stops|
  {
    Eligible(stops[i], collected) || forall j :: 0 <= j < |stops| ==> !Eligible(stops[j], collected)
  }

  /** `best` is the first of the nearest stops to choose from. */
  predicate IsNext(stops: seq<Stop>, collected: set<nat>, d: Distance, cursor: Option<nat>, best: nat) {
    && best < |stops| && Choosable(stops, collected, best)
    && (forall i :: 0 <= i < |stops| && Choosable(stops, collected, i) ==>
         !Less(Away(d, cursor, stops[i]), Away(d, cursor, stops[best])))
    && (forall i :: 0 <= i < best && Choosable(stops, collected, i) ==>
         Less(Away(d, cursor, stops[best]), Away(d, cursor, stops[i])))
  }

  function RemoveAt(stops: seq<Stop>, i: nat): seq<Stop>
    requires i < |stops|
  {
    stops[..i] + stops[i + 1..]
  }

  lemma RemovedOne(stops: seq<Stop>, i: nat)
    requires i < |stops|
    ensures multiset(RemoveAt(stops, i)) + multiset{stops[i]} == multiset(stops)
  {
    assert stops == stops[..i] + [stops[i]] + stops[i + 1..];
  }

  function Collect(collected: set<nat>, s: Stop): set<nat> {
    if s.kind.Pickup? then collected + {s.order} else collected
  }

  function CollectedAlready(stops: seq<Stop>): set<nat> {
    set s | s in stops && s.kind.Pickup? && !Open(s.status) :: s.order
  }

  predicate AnyEligible(stops: seq<Stop>, collected: set<nat>) {
    exists i :: 0 <= i < |stops| && Eligible(stops[i], collected)
  }

  /** The first of the nearest choices among the first `n` stops. */
  function Nearest(stops: seq<Stop>, collected: set<nat>, d: Distance, cursor: Option<nat>, n: nat): (r: Option<nat>)
    requires n <= |stops|
    ensures r.Some? ==> r.value < n && Choosable(stops, collected, r.value)
    ensures forall i :: 0 <= i < n && Choosable(stops, collected, i) ==>
              r.Some? && !Less(Away(d, cursor, stops[i]), Away(d, cursor, stops[r.value]))
              && (i < r.value ==> Less(Away(d, cursor, stops[r.value]), Away(d, cursor, stops[i])))
  {
    if n == 0 then None
    else
      var r := Nearest(stops, collected, d, cursor, n - 1);
      if !Choosable(stops, collected, n - 1) then r
      else if r.None? || Less(Away(d, cursor, stops[n - 1]), Away(d, cursor, stops[r.value])) then Some(n - 1)
      else r
  }

  function Pick(stops: seq<Stop>, collected: set<nat>, d: Distance, cursor: Option<nat>): (best: nat)
    requires stops != []
    ensures IsNext(stops, collected, d, cursor, best)
  {
    assert Choosable(stops, collected, 0) || AnyEligible(stops, collected);
    Nearest(stops, collected, d, cursor, |stops|).value
  }

  function Sequence(stops: seq<Stop>, collected: set<nat>, d: Distance, cursor: Option<nat>): seq<Stop>
    decreases |stops|
  {
    if stops == [] then []
    else
      var best := Pick(stops, collected, d, cursor);
      var s := stops[best];
      [s] + Sequence(RemoveAt(stops, best), Collect(collected, s), d, if s.at.Some? then s.at else cursor)
  }

  function Plan(stops: seq<Stop>, d: Distance, start: Option<nat>): seq<Stop> {
    Sequence(stops, CollectedAlready(stops), d, start)
  }

  method PickNext(stops: seq<Stop>, collected: set<nat>, d: Distance, cursor: Option<nat>) returns (best: nat)
    requires stops != []
    ensures best < |stops| && best == Pick(stops, collected, d, cursor)
  {
    var any := false;
    for i := 0 to |stops|
      invariant any <==> exists j :: 0 <= j < i && Eligible(stops[j], collected)
    {
      if Eligible(stops[i], collected) { any := true; }
    }
    assert forall i :: 0 <= i < |stops| ==> (Choosable(stops, collected, i) <==> !any || Eligible(stops[i], collected));
    var found: Option<nat> := None;
    for i := 0 to |stops|
      invariant found == Nearest(stops, collected, d, cursor, i)
    {
      if !any || Eligible(stops[i], collected) {
        if found.None? || Less(Away(d, cursor, stops[i]), Away(d, cursor, stops[found.value])) {
          found := Some(i);
        }
      }
    }
    assert found == Some(Pick(stops, collected, d, cursor));
    best := found.value;
  }

  method SequenceStops(stops: seq<Stop>, d: Distance, start: Option<nat>) returns (ordered: seq<Stop>)
    ensures ordered == Plan(stops, d, start)
  {
    var remaining := stops;
    ordered := [];
    var collected := CollectedAlready(stops);
    var cursor := start;
    while remaining != []
      invariant Plan(stops, d, start) == ordered + Sequence(remaining, collected, d, cursor)
      decreases |remaining|
    {
      var i := PickNext(remaining, collected, d, cursor);
      var best := remaining[i];
      SequenceStep(ordered, remaining, collected, d, cursor, i);
      ordered := ordered + [best];
      remaining := RemoveAt(remaining, i);
      if best.kind.Pickup? { collected := collected + {best.order}; }
      if best.at.Some? { cursor := best.at; }
    }
  }

  lemma SequenceStep(before: seq<Stop>, stops: seq<Stop>, collected: set<nat>, d: Distance, cursor: Option<nat>, i: nat)
    requires i < |stops| && i == Pick(stops, collected, d, cursor)
    ensures before + Sequence(stops, collected, d, cursor)
            == before + [stops[i]] + Sequence(RemoveAt(stops, i), Collect(collected, stops[i]), d,
                                              if stops[i].at.Some? then stops[i].at else cursor)
  {
  }

  // ----- what the plan is ---------------------------------------------------------

  lemma {:induction false} PlanIsPermutation(stops: seq<Stop>, collected: set<nat>, d: Distance, cursor: Option<nat>)
    ensures multiset(Sequence(stops, collected, d, cursor)) == multiset(stops)
    ensures |Sequence(stops, collected, d, cursor)| == |stops|
    decreases |stops|
  {
    if stops != [] {
      var best := Pick(stops, collected, d, cursor);
      var s := stops[best];
      RemovedOne(stops, best);
      PlanIsPermutation(RemoveAt(stops, best), Collect(collected, s), d, if s.at.Some? then s.at else cursor);
    }
  }

  /** Some drop comes before the open pickup of its own order. */
  predicate DropFirst(plan: seq<Stop>) {
    exists i, j :: 0 <= i < j < |plan|
      && plan[i].kind.Drop? && plan[j].kind.Pickup? && Open(plan[j].status) && plan[i].order == plan[j].order
  }

  predicate OwnStops(stops: seq<Stop>) {
    forall i, j :: 0 <= i < j < |stops| ==> !(stops[i].kind == stops[j].kind && stops[i].order == stops[j].order)
  }

  lemma RemainingOwnStops(stops: seq<Stop>, i: nat)
    requires i < |stops| && OwnStops(stops)
    ensures OwnStops(RemoveAt(stops, i))
    ensures forall s :: s in RemoveAt(stops, i) <==> s in stops && s != stops[i]
  {
    var r := RemoveAt(stops, i);
    assert forall k :: 0 <= k < |r| ==> r[k] == stops[if k < i then k else k + 1];
    forall s | s in stops && s != stops[i] ensures s in r {
      var k :| 0 <= k < |stops| && stops[k] == s;
      assert r[if k < i then k else k - 1] == s;
    }
  }

  lemma DropBeforeRest(s: Stop, rest: seq<Stop>)
    requires !DropFirst(rest)
    requires forall j :: 0 <= j < |rest| && s.kind.Drop? && rest[j].kind.Pickup? && Open(rest[j].status) ==>
               s.order != rest[j].order
    ensures !DropFirst([s] + rest)
  {
    var plan := [s] + rest;
    forall i, j | 0 <= i < j < |plan| && plan[i].kind.Drop? && plan[j].kind.Pickup? && Open(plan[j].status)
      ensures plan[i].order != plan[j].order
    {
      if i > 0 { assert plan[i] == rest[i - 1] && plan[j] == rest[j - 1]; }
    }
  }

  lemma SameElements(a: seq<Stop>, b: seq<Stop>)
    requires multiset(a) == multiset(b)
    ensures forall s :: s in a <==> s in b
  {
    forall s ensures s in a <==> s in b { assert s in a <==> s in multiset(a); }
  }

  /** A drop is only chosen when its order was collected or no pickup is left. */
  lemma DropChosenLast(stops: seq<Stop>, collected: set<nat>, best: nat, t: Stop)
    requires best < |stops| && Choosable(stops, collected, best) && stops[best].kind.Drop?
    requires t in stops && t.kind.Pickup? && (t.order in collected ==> !Open(t.status)) && Open(t.status)
    ensures t.order != stops[best].order
  {
    var k :| 0 <= k < |stops| && stops[k] == t;
    assert Eligible(stops[k], collected);
  }

  lemma {:induction false} SequenceKeepsPrecedence(stops: seq<Stop>, collected: set<nat>, d: Distance,
                                                   cursor: Option<nat>)
    requires OwnStops(stops)
    requires forall s :: s in stops && s.kind.Pickup? && s.order in collected ==> !Open(s.status)
    ensures !DropFirst(Sequence(stops, collected, d, cursor))
    decreases |stops|
  {
    if stops != [] {
      var best := Pick(stops, collected, d, cursor);
      var s := stops[best];
      var rest, collects, at := RemoveAt(stops, best), Collect(collected, s), if s.at.Some? then s.at else cursor;
      RemainingOwnStops(stops, best);
      StillUncollected(stops, collected, best);
      SequenceKeepsPrecedence(rest, collects, d, at);
      var plan := Sequence(rest, collects, d, at);
      PlanIsPermutation(rest, collects, d, at);
      SameElements(plan, rest);
      forall j | 0 <= j < |plan| && s.kind.Drop? && plan[j].kind.Pickup? && Open(plan[j].status)
        ensures s.order != plan[j].order
      {
        assert plan[j] in rest;
        DropChosenLast(stops, collected, best, plan[j]);
      }
      DropBeforeRest(s, plan);
    }
  }

  lemma StillUncollected(stops: seq<Stop>, collected: set<nat>, best: nat)
    requires best < |stops| && OwnStops(stops)
    requires forall s :: s in stops && s.kind.Pickup? && s.order in collected ==> !Open(s.status)
    ensures forall t :: t in RemoveAt(stops, best) && t.kind.Pickup? && t.order in Collect(collected, stops[best]) ==>
              !Open(t.status)
  {
    RemainingOwnStops(stops, best);
    forall t | t in RemoveAt(stops, best) && t.kind.Pickup? && t.order in Collect(collected, stops[best])
      ensures !Open(t.status)
    {
      var k :| 0 <= k < |stops| && stops[k] == t;
    }
  }

  /** The plan visits every stop once and never delivers an order before
      collecting it. */
  lemma PlanKeepsPrecedence(stops: seq<Stop>, d: Distance, start: Option<nat>)
    requires OwnStops(stops)
    ensures multiset(Plan(stops, d, start)) == multiset(stops) && !DropFirst(Plan(stops, d, start))
  {
    forall s | s in stops && s.kind.Pickup? && s.order in CollectedAlready(stops) ensures !Open(s.status) {
      var t :| t in stops && t.kind.Pickup? && !Open(t.status) && t.order == s.order;
      var i :| 0 <= i < |stops| && stops[i] == s;
      var j :| 0 <= j < |stops| && stops[j] == t;
      assert i == j;
    }
    PlanIsPermutation(stops, CollectedAlready(stops), d, start);
    SequenceKeepsPrecedence(stops, CollectedAlready(stops), d, start);
  }

  // ----- nearest first ----------------------------------------------------------------

  /** The place of the last stop before `p` that has coordinates. */
  function PlaceBefore(plan: seq<Stop>, p: nat, start: Option<nat>): Option<nat>
    requires p <= |plan|
  {
    if p == 0 then start else if plan[p - 1].at != None then plan[p - 1].at else PlaceBefore(plan, p - 1, start)
  }

  lemma {:induction false} PlaceBeforeRest(s: Stop, rest: seq<Stop>, p: nat, start: Option<nat>)
    requires p <= |rest|
    ensures PlaceBefore([s] + rest, p + 1, start) == PlaceBefore(rest, p, if s.at != None then s.at else start)
  {
    if p > 0 { PlaceBeforeRest(s, rest, p - 1, start); }
  }

  /** The stop at `i` could come at `p`: a pickup, or the drop of an order that was
      collected before the plan or earlier in it. */
  predicate CanCome(plan: seq<Stop>, collected: set<nat>, p: nat, i: nat) {
    && p <= i < |plan|
    && (plan[i].kind == Drop ==>
         || plan[i].order in collected
         || exists j :: 0 <= j < p && plan[j].kind == Pickup && plan[j].order == plan[i].order)
  }

  /** From the last known place the stop at `p` is no farther than any other that
      could come there; only where none could are all the rest compared. */
  predicate NearestAt(plan: seq<Stop>, collected: set<nat>, d: Distance, start: Option<nat>, p: nat)
    requires p < |plan|
  {
    var place, none := PlaceBefore(plan, p, start), forall i :: p <= i < |plan| ==> !CanCome(plan, collected, p, i);
    && (CanCome(plan, collected, p, p) || none)
    && forall i :: p <= i < |plan| && (CanCome(plan, collected, p, i) || none)
                   && place != None && plan[i].at != None ==>
         plan[p].at != None && d(place.value, plan[p].at.value) <= d(place.value, plan[i].at.value)
  }

  lemma CanComeInRest(s: Stop, rest: seq<Stop>, collected: set<nat>, p: nat, i: nat)
    ensures CanCome([s] + rest, collected, p + 1, i + 1) <==> CanCome(rest, Collect(collected, s), p, i)
  {
    var plan := [s] + rest;
    if p <= i < |rest| {
      assert plan[i + 1] == rest[i] && plan[0] == s;
      if j :| 0 <= j < p && rest[j].kind == Pickup && rest[j].order == rest[i].order {
        assert plan[j + 1] == rest[j];
      }
      if s.kind == Pickup && s.order == rest[i].order {
        assert plan[0].kind == Pickup && plan[0].order == plan[i + 1].order;
      }
      if j :| 0 <= j < p + 1 && plan[j].kind == Pickup && plan[j].order == plan[i + 1].order {
        if j > 0 { assert rest[j - 1] == plan[j]; }
      }
    }
  }

  lemma NearestInRest(s: Stop, rest: seq<Stop>, collected: set<nat>, d: Distance, start: Option<nat>, p: nat)
    requires p < |rest| && NearestAt(rest, Collect(collected, s), d, if s.at != None then s.at else start, p)
    ensures NearestAt([s] + rest, collected, d, start, p + 1)
  {
    var plan, at := [s] + rest, if s.at != None then s.at else start;
    PlaceBeforeRest(s, rest, p, start);
    forall i | p <= i < |rest|
      ensures CanCome(plan, collected, p + 1, i + 1) <==> CanCome(rest, Collect(collected, s), p, i)
      ensures plan[i + 1] == rest[i]
    {
      CanComeInRest(s, rest, collected, p, i);
    }
    forall i | p + 1 <= i < |plan|
      ensures CanCome(plan, collected, p + 1, i) <==> CanCome(rest, Collect(collected, s), p, i - 1)
      ensures plan[i] == rest[i - 1]
    {
      CanComeInRest(s, rest, collected, p, i - 1);
    }
  }

  lemma FirstIsNearest(stops: seq<Stop>, plan: seq<Stop>, collected: set<nat>, d: Distance, cursor: Option<nat>,
                       best: nat)
    requires IsNext(stops, collected, d, cursor, best)
    requires plan != [] && plan[0] == stops[best] && forall s :: s in plan <==> s in stops
    ensures NearestAt(plan, collected, d, cursor, 0)
  {
    forall i | 0 <= i < |plan| ensures CanCome(plan, collected, 0, i) <==> Eligible(plan[i], collected) {}
    var none := forall i :: 0 <= i < |plan| ==> !CanCome(plan, collected, 0, i);
    if !none {
      var i :| 0 <= i < |plan| && CanCome(plan, collected, 0, i);
      assert plan[i] in plan;
      var k :| 0 <= k < |stops| && stops[k] == plan[i];
      assert Eligible(stops[k], collected);
    }
    forall i | 0 <= i < |plan| && (CanCome(plan, collected, 0, i) || none)
      ensures !Less(Away(d, cursor, plan[i]), Away(d, cursor, plan[0]))
    {
      assert plan[i] in plan;
      var k :| 0 <= k < |stops| && stops[k] == plan[i];
      if none { NoneEligible(stops, plan, collected); }
      assert Choosable(stops, collected, k);
    }
  }

  lemma NoneEligible(stops: seq<Stop>, plan: seq<Stop>, collected: set<nat>)
    requires forall s :: s in plan <==> s in stops
    requires forall i :: 0 <= i < |plan| ==> !CanCome(plan, collected, 0, i)
    ensures forall j :: 0 <= j < |stops| ==> !Eligible(stops[j], collected)
  {
    forall j | 0 <= j < |stops| ensures !Eligible(stops[j], collected) {
      assert stops[j] in stops;
      var i :| 0 <= i < |plan| && plan[i] == stops[j];
      assert !CanCome(plan, collected, 0, i);
    }
  }

  lemma {:induction false} SequenceIsNearestFirst(stops: seq<Stop>, collected: set<nat>, d: Distance,
                                                  cursor: Option<nat>, p: nat)
    requires p < |Sequence(stops, collected, d, cursor)|
    ensures NearestAt(Sequence(stops, collected, d, cursor), collected, d, cursor, p)
    decreases |stops|
  {
    var best := Pick(stops, collected, d, cursor);
    var s := stops[best];
    var rest, at := RemoveAt(stops, best), if s.at.Some? then s.at else cursor;
    if p > 0 {
      SequenceIsNearestFirst(rest, Collect(collected, s), d, at, p - 1);
      NearestInRest(s, Sequence(rest, Collect(collected, s), d, at), collected, d, cursor, p - 1);
    } else {
      var plan := Sequence(stops, collected, d, cursor);
      PlanIsPermutation(stops, collected, d, cursor);
      SameElements(plan, stops);
      FirstIsNearest(stops, plan, collected, d, cursor, best);
    }
  }

  /** The plan is greedy at every place in it, given what was collected before. */
  lemma PlanIsNearestFirst(stops: seq<Stop>, d: Distance, start: Option<nat>, p: nat)
    requires p < |Plan(stops, d, start)|
    ensures NearestAt(Plan(stops, d, start),
                      set s | s in stops && s.kind == Pickup && s.status != Pending && s.status != Arrived :: s.order,
                      d, start, p)
  {
    assert CollectedAlready(stops)
           == set s | s in stops && s.kind == Pickup && s.status != Pending && s.status != Arrived :: s.order;
    SequenceIsNearestFirst(stops, CollectedAlready(stops), d, start, p);
  }

  /** Of several equally near the one given first is taken. */
  lemma TiesGoToTheFirst(stops: seq<Stop>, collected: set<nat>, d: Distance, cursor: Option<nat>, i: nat)
    requires stops != [] && i < Pick(stops, collected, d, cursor)
    ensures var best := stops[Pick(stops, collected, d, cursor)];
            stops[i].kind == Pickup || stops[i].order in collected ==>
              cursor != None && best.at != None
              && (stops[i].at == None || d(cursor.value, best.at.value) < d(cursor.value, stops[i].at.value))
  {
    assert Eligible(stops[i], collected) ==> Choosable(stops, collected, i);
  }

  // ----- cargo already aboard -------------------------------------------------------

  /** A drop whose pickup is not among the stops being ordered. */
  predicate Aboard(s: Stop, stops: seq<Stop>) {
    s.kind.Drop? && forall i :: 0 <= i < |stops| && stops[i].kind.Pickup? ==> stops[i].order != s.order
  }

  /** From some point on, the plan is the drops of cargo already aboard. */
  predicate AboardLast(plan: seq<Stop>, stops: seq<Stop>) {
    forall i, j :: 0 <= i < j < |plan| && Aboard(plan[i], stops) ==> Aboard(plan[j], stops)
  }

  lemma {:induction false} AboardComesLastFrom(stops: seq<Stop>, collected: set<nat>, d: Distance, cursor: Option<nat>,
                                               all: seq<Stop>)
    requires forall i :: 0 <= i < |all| && all[i].kind.Pickup? ==> all[i].order in collected || all[i] in stops
    requires forall i :: 0 <= i < |all| && Aboard(all[i], all) ==> all[i].order !in collected
    requires forall i :: 0 <= i < |stops| ==> stops[i] in all
    ensures AboardLast(Sequence(stops, collected, d, cursor), all)
    ensures forall s :: s in Sequence(stops, collected, d, cursor) ==> s in stops
    decreases |stops|
  {
    if stops != [] {
      var best := Pick(stops, collected, d, cursor);
      var s := stops[best];
      var rest, collects, at := RemoveAt(stops, best), Collect(collected, s), if s.at.Some? then s.at else cursor;
      assert forall k :: 0 <= k < |rest| ==> rest[k] == stops[if k < best then k else k + 1];
      forall i | 0 <= i < |all| && all[i].kind.Pickup? ensures all[i].order in collects || all[i] in rest {
        if all[i].order !in collected {
          var k :| 0 <= k < |stops| && stops[k] == all[i];
          if k != best { assert rest[if k < best then k else k - 1] == all[i]; }
        }
      }
      AboardComesLastFrom(rest, collects, d, at, all);
      if Aboard(s, all) {
        var k :| 0 <= k < |all| && all[k] == s;
        assert !Eligible(s, collected);
        assert forall x :: x in stops ==> !Eligible(x, collected);
        assert forall i :: 0 <= i < |all| && all[i].kind.Pickup? ==> all[i].order in collected;
        assert forall x :: x in rest ==> x in stops;
        assert forall x :: x in stops ==> Aboard(x, all);
      }
    }
  }

  /** Given open stops only, the drops of cargo already aboard come after every
      pickup and after every other drop, however near they are. */
  lemma CargoAboardIsDeliveredLast(stops: seq<Stop>, d: Distance, start: Option<nat>)
    requires forall i :: 0 <= i < |stops| ==> Open(stops[i].status)
    ensures AboardLast(Plan(stops, d, start), stops)
  {
    assert CollectedAlready(stops) == {};
    AboardComesLastFrom(stops, {}, d, start, stops);
  }
}
