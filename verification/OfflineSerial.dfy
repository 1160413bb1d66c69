/** The offline queue when its operations take turns: every action is in one place
    and has its photo. */
module OfflineSerial {
  import opened Prelude
  import opened OfflineQueue
  import opened OfflineLedger

  /** What keeps the operations apart: one at a time, none begun between a flush's
      read and write of the rejected store, no flush writing the queue or reading
      that store during one, and no end of the process during a flush's attempts,
      between the two writes of a retry, or between the deletes and the write of a
      discard or sweep. */
  predicate Serial(p: Phone, e: Event) {
    && (e.Add? || e.Retry? || e.Discard? || e.Sweep? ==> p.ops == [] && !p.flush.Appending?)
    && (e.CommitQueue? || e.FileRead? ==> p.ops == [])
    && (e.Crash? ==> !p.flush.Sending? && UnderDisposal(p.ops) == {} && forall i :: 0 <= i < |p.ops| ==>
         !p.ops[i].Clearing?)
  }

  // ----- counting ------------------------------------------------------------------

  function Occ(s: seq<Action>, a: Action): nat {
    if s == [] then 0 else Occ(s[..|s| - 1], a) + (if s[|s| - 1] == a then 1 else 0)
  }

  function On(list: seq<Rejection>, a: Action): nat {
    if list == [] then 0 else On(list[..|list| - 1], a) + (if list[|list| - 1].item == a then 1 else 0)
  }

  function WithId(list: seq<Rejection>, id: nat): nat {
    if list == [] then 0 else WithId(list[..|list| - 1], id) + (if list[|list| - 1].id == id then 1 else 0)
  }

  lemma {:induction false} OccIsIn(s: seq<Action>, a: Action)
    ensures Occ(s, a) > 0 <==> a in s
  {
    if s != [] {
      OccIsIn(s[..|s| - 1], a);
      assert s == s[..|s| - 1] + [s[|s| - 1]];
    }
  }

  lemma {:induction false} OnIsHolds(list: seq<Rejection>, a: Action)
    ensures On(list, a) > 0 <==> Holds(list, a)
  {
    if list != [] {
      var init, last := list[..|list| - 1], list[|list| - 1];
      OnIsHolds(init, a);
      assert list == init + [last];
      HoldsOfSum(init, [last], a);
      assert Holds([last], a) <==> last.item == a by { assert last in [last]; }
    }
  }

  lemma {:induction false} WithIdIsThere(list: seq<Rejection>, id: nat)
    ensures WithId(list, id) > 0 <==> exists r :: r in list && r.id == id
  {
    if list != [] {
      var init, last := list[..|list| - 1], list[|list| - 1];
      WithIdIsThere(init, id);
      assert list == init + [last];
      if r :| r in list && r.id == id { assert r in init || r == last; }
      assert last in list && forall r :: r in init ==> r in list;
    }
  }

  lemma {:induction false} OccOfSum(s: seq<Action>, t: seq<Action>, a: Action)
    ensures Occ(s + t, a) == Occ(s, a) + Occ(t, a)
  {
    if t == [] {
      assert s + t == s;
    } else {
      assert (s + t)[..|s + t| - 1] == s + t[..|t| - 1];
      OccOfSum(s, t[..|t| - 1], a);
    }
  }

  lemma OccOfOneMore(s: seq<Action>, x: Action, a: Action)
    ensures Occ(s + [x], a) == Occ(s, a) + (if x == a then 1 else 0)
  {
    assert (s + [x])[..|s|] == s;
  }

  lemma {:induction false} OnOfSum(s: seq<Rejection>, t: seq<Rejection>, a: Action)
    ensures On(s + t, a) == On(s, a) + On(t, a)
  {
    if t == [] {
      assert s + t == s;
    } else {
      assert (s + t)[..|s + t| - 1] == s + t[..|t| - 1];
      OnOfSum(s, t[..|t| - 1], a);
    }
  }

  lemma {:induction false} IdsOfSum(s: seq<Rejection>, t: seq<Rejection>, id: nat)
    ensures WithId(s + t, id) == WithId(s, id) + WithId(t, id)
  {
    if t == [] {
      assert s + t == s;
    } else {
      assert (s + t)[..|s + t| - 1] == s + t[..|t| - 1];
      IdsOfSum(s, t[..|t| - 1], id);
    }
  }

  lemma {:induction false} FindInInit(init: seq<Rejection>, last: Rejection, id: nat)
    ensures Find(init + [last], id) == if Find(init, id).Some? then Find(init, id)
                                       else if last.id == id then Some(last) else None
  {
    if init != [] {
      assert (init + [last])[1..] == init[1..] + [last];
      FindInInit(init[1..], last, id);
    }
  }

  /** Taking out an entry by its id takes out that entry and no other, given that
      ids are not shared. */
  lemma {:induction false} WithoutTakesOne(list: seq<Rejection>, id: nat, a: Action)
    requires WithId(list, id) <= 1
    ensures Find(list, id).Some? <==> WithId(list, id) == 1
    ensures Find(list, id).None? ==> Without(list, id) == list
    ensures Find(list, id).Some? ==>
              On(list, a) == On(Without(list, id), a) + if Find(list, id).value.item == a then 1 else 0
  {
    if list != [] {
      var init, last := list[..|list| - 1], list[|list| - 1];
      assert list == init + [last];
      FindInInit(init, last, id);
      WithoutTakesOne(init, id, a);
      if last.id == id {
        assert Without(list, id) == init;
      } else {
        assert (Without(init, id) + [last])[..|Without(init, id)|] == Without(init, id);
      }
    }
  }

  lemma {:induction false} WithoutIds(list: seq<Rejection>, id: nat, other: nat)
    ensures WithId(Without(list, id), other) <= WithId(list, other)
  {
    if list != [] {
      var init, last := list[..|list| - 1], list[|list| - 1];
      WithoutIds(init, id, other);
      if last.id == id {
        assert Without(list, id) == Without(init, id);
      } else {
        assert (Without(init, id) + [last])[..|Without(init, id)|] == Without(init, id);
      }
    }
  }

  /** A sweep splits the list: what is old enough goes, the rest stays. */
  lemma {:induction false} SweepSplits(list: seq<Rejection>, now: int, a: Action)
    requires On(list, a) <= 1
    ensures On(Kept(list, now), a) == if a in Retired(list, now) then 0 else On(list, a)
    ensures a in Retired(list, now) ==> On(list, a) == 1
  {
    if list != [] {
      var init, last := list[..|list| - 1], list[|list| - 1];
      SweepSplits(init, now, a);
      assert list == init + [last];
      assert a in Retired(list, now) <==> a in Retired(init, now) || (Aged(last, now) && last.item == a);
      if Aged(last, now) {
        assert Kept(list, now) == Kept(init, now);
      } else {
        assert (Kept(init, now) + [last])[..|Kept(init, now)|] == Kept(init, now);
      }
    }
  }

  lemma {:induction false} KeptCounts(list: seq<Rejection>, now: int, a: Action, id: nat)
    ensures WithId(Kept(list, now), id) <= WithId(list, id) && On(Kept(list, now), a) <= On(list, a)
  {
    if list != [] {
      var init, last := list[..|list| - 1], list[|list| - 1];
      KeptCounts(init, now, a, id);
      if Aged(last, now) {
        assert Kept(list, now) == Kept(init, now);
      } else {
        assert (Kept(init, now) + [last])[..|Kept(init, now)|] == Kept(init, now);
      }
    }
  }

  // ----- one place for every action ------------------------------------------------

  /** Refusals that are no longer queued and not yet filed. */
  function Due(f: Flushing): seq<Rejection> {
    if f.Filing? || f.Appending? then f.refused else []
  }

  /** In how many places the phone has stored `a` or is about to. */
  function Places(p: Phone, a: Action): nat {
    Occ(p.queue, a) + On(p.rejected, a) + On(Due(p.flush), a)
  }

  /** Queued by a retry that has still to take its entry out. */
  predicate Returning(p: Phone, a: Action) {
    |p.ops| == 1 && p.ops[0].Clearing? && p.ops[0].item == a
  }

  predicate Placed(p: Phone, a: Action) {
    && Places(p, a) <= (if Returning(p, a) then 2 else 1)
    && (p.flush.Sending? ==>
          p.flush.at <= |p.flush.snapshot| && On(p.flush.refused, a) <= Occ(p.flush.snapshot[..p.flush.at], a))
  }

  predicate Entry(list: seq<Rejection>, id: nat, a: Action) {
    Find(list, id).Some? && Find(list, id).value.item == a
  }

  /** What the operation has read is what is stored. */
  predicate UpToDate(p: Phone, op: Op) {
    match op
    case Adding(a, seen) => seen == p.queue && Places(p, a) == 0
    case Retrying(a, id, list) => list == p.rejected && Entry(list, id, a)
    case Requeuing(a, id, list, seen) => list == p.rejected && seen == p.queue && Entry(list, id, a)
    case Clearing(a, id, list) => list == p.rejected && Entry(list, id, a) && a in p.queue
    case Discarding(a, id, list) => list == p.rejected && Entry(list, id, a)
    case Dropping(a, id, list) => list == p.rejected && Entry(list, id, a)
    case Sweeping(_, list, _) => list == p.rejected
  }

  predicate Flat(p: Phone) {
    && |p.ops| <= 1 && (p.ops != [] ==> UpToDate(p, p.ops[0]))
    && (p.flush.Appending? ==> p.ops == [] && p.flush.list == p.rejected)
    && (p.flush.Sending? ==> p.flush.snapshot <= p.queue)
  }

  predicate IdOnce(p: Phone, id: nat) {
    WithId(p.rejected, id) + WithId(Unfiled(p.flush), id) <= 1
  }

  ghost predicate Tidy(p: Phone) {
    Inv(p) && Flat(p) && (forall id :: IdOnce(p, id)) && (forall a :: Placed(p, a))
  }

  /** While operations take turns, nothing is written over unseen but what was
      queued during a flush. */
  lemma TurnsAreFresh(p: Phone, e: Event)
    requires Tidy(p) && Serial(p, e)
    ensures Stale(p, e) ==> e.CommitQueue? && p.flush.Sending? && p.flush.snapshot < p.queue
  {
  }

  lemma NewActionIsNowhere(p: Phone, x: Action)
    requires Inv(p) && x !in p.enqueued
    ensures Places(p, x) == 0
  {
    OccIsIn(p.queue, x);
    OnIsHolds(p.rejected, x);
    OnIsHolds(Due(p.flush), x);
  }

  lemma StartStaysFlat(p: Phone, e: Event)
    requires Tidy(p) && Serial(p, e) && Enabled(p, e) && (e.Add? || e.Retry? || e.Discard? || e.Sweep?)
    ensures Flat(Next(p, e))
  {
    if e.Add? { NewActionIsNowhere(p, e.action); }
  }

  lemma ContinueStaysFlat(p: Phone)
    requires Tidy(p) && p.ops != []
    ensures Flat(Continued(p, 0))
  {
  }

  lemma QueueingPlaces(p: Phone, a: Action)
    requires Tidy(p) && p.ops != [] && (p.ops[0].Adding? || p.ops[0].Requeuing?)
    ensures Placed(Continued(p, 0), a)
  {
    assert Placed(p, a);
    OccOfOneMore(p.queue, p.ops[0].item, a);
  }

  lemma TakingOutPlaces(p: Phone, a: Action)
    requires Tidy(p) && p.ops != [] && (p.ops[0].Clearing? || p.ops[0].Dropping?)
    ensures Placed(Continued(p, 0), a)
  {
    assert Placed(p, a);
    EntryTaken(p, p.ops[0].id, a);
  }

  lemma FewerPlaces(p: Phone, q: Phone, a: Action)
    requires Placed(p, a) && !Returning(p, a) && q.queue == p.queue && q.flush == p.flush
               && On(q.rejected, a) <= On(p.rejected, a)
    ensures Placed(q, a)
  {
  }

  lemma SweepingPlaces(p: Phone, a: Action)
    requires Tidy(p) && p.ops != [] && (p.ops[0].Sweeping? || p.ops[0].Retrying? || p.ops[0].Discarding?)
    ensures Placed(Continued(p, 0), a)
  {
    assert Placed(p, a);
    var q := Continued(p, 0);
    if p.ops[0].Sweeping? { KeptCounts(p.rejected, p.ops[0].now, a, 0); }
    FewerPlaces(p, q, a);
  }

  lemma ContinuePlaces(p: Phone, a: Action)
    requires Tidy(p) && p.ops != []
    ensures Placed(Continued(p, 0), a)
  {
    if p.ops[0].Adding? || p.ops[0].Requeuing? {
      QueueingPlaces(p, a);
    } else if p.ops[0].Clearing? || p.ops[0].Dropping? {
      TakingOutPlaces(p, a);
    } else {
      SweepingPlaces(p, a);
    }
  }

  lemma EntryTaken(p: Phone, id: nat, a: Action)
    requires (forall id :: IdOnce(p, id)) && Find(p.rejected, id).Some?
    ensures On(p.rejected, a) == On(Without(p.rejected, id), a) + if Entry(p.rejected, id, a) then 1 else 0
  {
    assert IdOnce(p, id);
    WithoutTakesOne(p.rejected, id, a);
  }

  lemma ContinueIds(p: Phone, id: nat)
    requires Tidy(p) && p.ops != []
    ensures IdOnce(Continued(p, 0), id)
  {
    assert IdOnce(p, id);
    match p.ops[0]
    case Clearing(_, taken, list) => WithoutIds(list, taken, id);
    case Dropping(_, taken, list) => WithoutIds(list, taken, id);
    case Sweeping(now, list, _) => KeptCounts(list, now, Action(0, None), id);
    case _ =>
  }

  /** The action a flush deals with next, counted among what it has dealt with and
      among its refusals. */
  lemma DealtWith(f: Flushing, r: Rejection, a: Action)
    requires f.Sending? && f.at < |f.snapshot| && r.item == f.snapshot[f.at]
    ensures Occ(f.snapshot[..f.at + 1], a) == Occ(f.snapshot[..f.at], a) + (if r.item == a then 1 else 0)
    ensures On(f.refused + [r], a) == On(f.refused, a) + (if r.item == a then 1 else 0)
  {
    assert f.snapshot[..f.at + 1] == f.snapshot[..f.at] + [r.item];
    OccOfOneMore(f.snapshot[..f.at], r.item, a);
    OnOfSum(f.refused, [r], a);
    assert On([r], a) == if r.item == a then 1 else 0;
  }

  lemma AttemptPlaces(p: Phone, reply: Reply, id: nat, now: int, a: Action)
    requires Tidy(p) && Enabled(p, Attempt(reply, id, now))
    ensures Placed(Next(p, Attempt(reply, id, now)), a)
  {
    var f, q := p.flush, Next(p, Attempt(reply, id, now));
    var x := f.snapshot[f.at];
    assert Placed(p, a);
    DealtWith(f, Rejection(id, x, Some(now)), a);
    AttemptIs(p, reply, id, now);
    assert Places(q, a) == Places(p, a) && Returning(q, a) == Returning(p, a);
  }

  lemma AttemptIds(p: Phone, reply: Reply, id: nat, now: int, other: nat)
    requires Tidy(p) && Enabled(p, Attempt(reply, id, now))
    ensures IdOnce(Next(p, Attempt(reply, id, now)), other)
  {
    AttemptIs(p, reply, id, now);
    assert IdOnce(p, other);
    var r := Rejection(id, p.flush.snapshot[p.flush.at], Some(now));
    IdsOfSum(p.flush.refused, [r], other);
    assert WithId([r], other) == if id == other then 1 else 0;
    if id == other {
      WithIdIsThere(p.rejected, id);
      WithIdIsThere(p.flush.refused, id);
      forall s | s in p.rejected || s in p.flush.refused ensures s.id != id { assert EntryOk(p, s); }
    }
  }

  /** The queue as a sending flush sees it: dealt with, to come, and added since. */
  lemma SnapshotSplit(p: Phone, a: Action)
    requires Flat(p) && p.flush.Sending? && p.flush.at <= |p.flush.snapshot|
    ensures Occ(p.queue, a) >= Occ(p.flush.snapshot[..p.flush.at], a) + Occ(p.flush.snapshot[p.flush.at..], a)
  {
    var f := p.flush;
    assert p.queue == f.snapshot + p.queue[|f.snapshot|..];
    assert f.snapshot == f.snapshot[..f.at] + f.snapshot[f.at..];
    OccOfSum(f.snapshot, p.queue[|f.snapshot|..], a);
    OccOfSum(f.snapshot[..f.at], f.snapshot[f.at..], a);
  }

  lemma FlushPlaces(p: Phone, e: Event, a: Action)
    requires Tidy(p) && Serial(p, e) && Enabled(p, e)
               && (e.Begin? || e.CommitQueue? || e.FileRead? || e.FileWrite? || e.Crash?)
    ensures Placed(Next(p, e), a)
  {
    assert Placed(p, a);
    if e.CommitQueue? { SnapshotSplit(p, a); }
    if e.FileWrite? { OnOfSum(p.flush.list, p.flush.refused, a); }
  }

  lemma FlushIds(p: Phone, e: Event, id: nat)
    requires Tidy(p) && Enabled(p, e) && (e.Begin? || e.CommitQueue? || e.FileRead? || e.FileWrite? || e.Crash?)
    ensures IdOnce(Next(p, e), id)
  {
    assert IdOnce(p, id);
    if e.FileWrite? { IdsOfSum(p.flush.list, p.flush.refused, id); }
  }

  lemma StepStaysTidy(p: Phone, e: Event)
    requires Tidy(p) && Serial(p, e)
    ensures Tidy(Next(p, e))
  {
    StepKeepsInv(p, e);
    if Enabled(p, e) {
      var q := Next(p, e);
      match e
      case Continue(i) =>
        ContinueStaysFlat(p);
        forall a ensures Placed(q, a) { ContinuePlaces(p, a); }
        forall id ensures IdOnce(q, id) { ContinueIds(p, id); }
      case Attempt(reply, id, now) =>
        AttemptIs(p, reply, id, now);
        forall a ensures Placed(q, a) { AttemptPlaces(p, reply, id, now, a); }
        forall other ensures IdOnce(q, other) { AttemptIds(p, reply, id, now, other); }
        AttemptStaysFlat(p, reply, id, now);
      case Add(_) => StartStaysTidy(p, e);
      case Retry(_) => StartStaysTidy(p, e);
      case Discard(_) => StartStaysTidy(p, e);
      case Sweep(_) => StartStaysTidy(p, e);
      case _ =>
        forall a ensures Placed(q, a) { FlushPlaces(p, e, a); }
        forall id ensures IdOnce(q, id) { FlushIds(p, e, id); }
    }
  }

  lemma AttemptStaysFlat(p: Phone, reply: Reply, id: nat, now: int)
    requires Tidy(p) && Enabled(p, Attempt(reply, id, now))
    ensures Flat(Next(p, Attempt(reply, id, now)))
  {
    AttemptIs(p, reply, id, now);
  }

  lemma StartStaysTidy(p: Phone, e: Event)
    requires Tidy(p) && Serial(p, e) && Enabled(p, e) && (e.Add? || e.Retry? || e.Discard? || e.Sweep?)
    ensures Flat(Next(p, e)) && (forall id :: IdOnce(Next(p, e), id)) && forall a :: Placed(Next(p, e), a)
  {
    StartStaysFlat(p, e);
    forall a ensures Placed(Next(p, e), a) { assert Placed(p, a); }
    forall id ensures IdOnce(Next(p, e), id) { assert IdOnce(p, id); }
  }

  // ----- and its copy --------------------------------------------------------------

  lemma QueuedOnce(p: Phone, a: Action)
    requires Tidy(p)
    ensures Occ(p.queue, a) <= 1
  {
    assert Placed(p, a);
    if Returning(p, a) { EntryTaken(p, p.ops[0].id, a); }
  }

  lemma OnlyOnce(p: Phone, a: Action)
    requires Tidy(p) && !Returning(p, a) && On(p.rejected, a) > 0
    ensures a !in p.queue && !InFlush(p.flush, a) && On(p.rejected, a) == 1
  {
    assert Placed(p, a);
    OccIsIn(p.queue, a);
    NotInFlush(p, a);
  }

  lemma DroppedIsNowhereElse(p: Phone, a: Action)
    requires Tidy(p) && p.ops != [] && p.ops[0].Dropping? && p.ops[0].item == a
    ensures On(p.rejected, a) > 0 && !Holds(Without(p.ops[0].list, p.ops[0].id), a)
  {
    var op := p.ops[0];
    assert Placed(p, a);
    EntryTaken(p, op.id, a);
    OnIsHolds(Without(op.list, op.id), a);
  }

  lemma SweptIsNowhereElse(p: Phone, a: Action)
    requires Tidy(p) && p.ops != [] && p.ops[0].Sweeping? && a in Retired(p.ops[0].list, p.ops[0].now)
    ensures On(p.rejected, a) > 0 && !Holds(Kept(p.ops[0].list, p.ops[0].now), a)
  {
    var op := p.ops[0];
    assert Placed(p, a);
    SweepSplits(op.list, op.now, a);
    OnIsHolds(Kept(op.list, op.now), a);
  }

  /** What an operation is about to dispose of is nowhere else. */
  lemma DisposedIsNowhereElse(p: Phone, a: Action)
    requires Tidy(p) && p.ops != [] && OpDisposes(p.ops[0], a)
    ensures a !in p.queue && !InFlush(p.flush, a) && !Carried(p.ops, a)
    ensures p.ops[0].Dropping? ==> !Holds(Without(p.ops[0].list, p.ops[0].id), a)
    ensures p.ops[0].Sweeping? ==> !Holds(Kept(p.ops[0].list, p.ops[0].now), a)
  {
    if p.ops[0].Dropping? { DroppedIsNowhereElse(p, a); } else { SweptIsNowhereElse(p, a); }
    OnlyOnce(p, a);
  }

  lemma NotInFlush(p: Phone, a: Action)
    requires Flat(p) && Placed(p, a) && Occ(p.queue, a) == 0 && On(Due(p.flush), a) == 0
    ensures !InFlush(p.flush, a)
  {
    OnIsHolds(Unfiled(p.flush), a);
    if p.flush.Sending? {
      SnapshotSplit(p, a);
      OccIsIn(Ahead(p.flush), a);
    }
  }

  lemma TurnsStrandNothing(p: Phone, e: Event, a: Action)
    requires Tidy(p) && Serial(p, e) && AllHaveCopies(p)
    ensures !Strands(p, e, a)
  {
    assert HasCopy(p, a) && Placed(p, a);
    if Enabled(p, e) {
      match e
      case Continue(_) =>
        OpWriteKeeps(p, 0, a);
        assert Carries(p.ops[0], a) ==> Carried(p.ops, a);
        if OpDisposes(p.ops[0], a) { DisposedIsNowhereElse(p, a); }
      case Attempt(_, _, _) => if p.flush.snapshot[p.flush.at] == a { SentOnce(p, a); }
      case CommitQueue => if SentNow(p, a) { SentIsNotRejected(p, a); }
      case FileWrite => HoldsOfSum(p.flush.list, p.flush.refused, a);
      case _ =>
    }
  }

  lemma SentOnce(p: Phone, a: Action)
    requires Tidy(p) && p.flush.Sending? && p.flush.at < |p.flush.snapshot| && p.flush.snapshot[p.flush.at] == a
    ensures !Holds(p.flush.refused, a) && a !in p.flush.snapshot[p.flush.at + 1..]
  {
    var f := p.flush;
    assert Placed(p, a);
    QueuedOnce(p, a);
    SnapshotSplit(p, a);
    assert f.snapshot[f.at..] == [a] + f.snapshot[f.at + 1..];
    OccOfSum([a], f.snapshot[f.at + 1..], a);
    assert Occ([a], a) == 1;
    OccIsIn(f.snapshot[f.at + 1..], a);
    OnIsHolds(f.refused, a);
  }

  lemma SentIsNotRejected(p: Phone, a: Action)
    requires Tidy(p) && SentNow(p, a) && p.ops == []
    ensures !Holds(p.rejected, a)
  {
    assert Placed(p, a);
    OccIsIn(p.flush.snapshot[..p.flush.at], a);
    SnapshotSplit(p, a);
    OnIsHolds(p.rejected, a);
  }

  // ----- what can still be lost ----------------------------------------------------

  predicate BeingAdded(p: Phone, a: Action) {
    p.ops != [] && p.ops[0].Adding? && p.ops[0].item == a
  }

  /** While operations take turns, an action is lost exactly when it was queued
      behind a flush that then writes the queue back, or when the process ends
      before it was queued, or after its refusal and before that was filed. */
  lemma TurnsLoseExactly(p: Phone, e: Event, a: Action)
    requires Tidy(p) && Serial(p, e) && Enabled(p, e) && Outstanding(p, a)
    ensures Overwrites(p, e, a) <==>
              || (e.CommitQueue? && a in p.queue[|p.flush.snapshot|..])
              || (e.Crash? && (BeingAdded(p, a) || Holds(Due(p.flush), a)))
  {
    OverwritesExactly(p, e, a);
    assert Placed(p, a);
    OnIsHolds(p.rejected, a);
    OccIsIn(p.queue, a);
    if e.CommitQueue? {
      LateIsOnlyQueued(p, a);
    } else if e.Crash? {
      OnIsHolds(Due(p.flush), a);
      if p.ops != [] && RetryOp(p.ops[0]) && p.ops[0].item == a { FindIs(p.rejected, p.ops[0].id); }
    } else {
      TurnsAreFresh(p, e);
    }
  }

  lemma LateIsOnlyQueued(p: Phone, a: Action)
    requires Tidy(p) && p.flush.Sending? && p.ops == []
    ensures a in p.queue[|p.flush.snapshot|..] <==> OnlyQueued(p, a) && a !in p.flush.snapshot
  {
    var f := p.flush;
    var late := p.queue[|f.snapshot|..];
    assert Placed(p, a) && p.queue == f.snapshot + late;
    OccOfSum(f.snapshot, late, a);
    OccIsIn(late, a);
    OccIsIn(f.snapshot, a);
    OnIsHolds(p.rejected, a);
    OnIsHolds(f.refused, a);
    SnapshotSplit(p, a);
    OccIsIn(f.snapshot[..f.at], a);
  }

  // ----- whole runs ---------------------------------------------------------------

  predicate SerialRun(es: seq<Event>) {
    forall i {:trigger es[i]} :: 0 <= i < |es| ==> Serial(Run(es[..i]), es[i])
  }

  lemma {:induction false} TidyOverEveryRun(es: seq<Event>)
    requires SerialRun(es)
    ensures Tidy(Run(es)) && AllHaveCopies(Run(es))
  {
    if es != [] {
      var before, e := es[..|es| - 1], es[|es| - 1];
      forall i | 0 <= i < |before| ensures Serial(Run(before[..i]), before[i]) {
        assert before[i] == es[i] && before[..i] == es[..i];
      }
      TidyOverEveryRun(before);
      StepStaysTidy(Run(before), e);
      forall a ensures HasCopy(Run(es), a) {
        CopyKeptExactly(Run(before), e, a);
        TurnsStrandNothing(Run(before), e, a);
      }
    }
  }

  /** While operations take turns, an action is in one place at a time: queued,
      rejected or about to be filed; only a retry has it in two on the way. */
  lemma OnePlaceOverEveryRun(es: seq<Event>, a: Action)
    requires SerialRun(es)
    ensures Places(Run(es), a) <= (if Returning(Run(es), a) then 2 else 1)
    ensures Places(Run(es), a) > 0 <==> a in Run(es).queue || Holds(Run(es).rejected, a) || Holds(Due(Run(es).flush), a)
  {
    TidyOverEveryRun(es);
    var p := Run(es);
    assert Placed(p, a);
    OccIsIn(p.queue, a);
    OnIsHolds(p.rejected, a);
    OnIsHolds(Due(p.flush), a);
  }

  /** And whenever no flush is sending, every action held has its photo, unless a
      discard or sweep that has still to write has just deleted it. */
  lemma CopiesOverEveryRun(es: seq<Event>, a: Action)
    requires SerialRun(es) && !Run(es).flush.Sending? && a.photo.Some?
    ensures Held(Run(es), a) && a !in UnderDisposal(Run(es).ops) ==> a.photo.value in Run(es).files
    ensures a in UnderDisposal(Run(es).ops) ==> Run(es).ops != [] && a in Deleted(Run(es).ops[0])
  {
    TidyOverEveryRun(es);
    assert HasCopy(Run(es), a);
    var ops := Run(es).ops;
    if ops != [] {
      assert ops == [ops[0]];
      OneDisposal(ops[0]);
    }
  }
}
