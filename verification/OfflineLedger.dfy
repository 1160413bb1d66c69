/** The offline queue over time.  Storage is read and written in separate calls, so
    every operation holds a copy of a list between its read and its write, and so
    does a flush: another write, a flush or the end of the process can fall in
    between any two of them. */
module OfflineLedger {
  import opened Prelude
  import opened OfflineQueue

  /** An operation that has read what it needs and still has to write.  A retry
      goes on to read the queue, writes it, and takes its entry out last.  A discard
      deletes the photo and is then `Dropping` the entry; a sweep deletes the photos
      of the aged entries before `at`, one by one, and writes the others last. */
  datatype Op =
    | Adding(item: Action, seen: seq<Action>)
    | Retrying(item: Action, id: nat, list: seq<Rejection>)
    | Requeuing(item: Action, id: nat, list: seq<Rejection>, seen: seq<Action>)
    | Clearing(item: Action, id: nat, list: seq<Rejection>)
    | Discarding(item: Action, id: nat, list: seq<Rejection>)
    | Dropping(item: Action, id: nat, list: seq<Rejection>)
    | Sweeping(now: int, list: seq<Rejection>, at: nat)

  /** `Sending` has read `snapshot` and dealt with the actions before `at`;
      `stopped` once an attempt got stuck.  `Filing` has written the queue back and
      has refusals to file; `Appending` has read the list it will add them to. */
  datatype Flushing =
    | Idle
    | Sending(snapshot: seq<Action>, at: nat, refused: seq<Rejection>, stopped: bool)
    | Filing(refused: seq<Rejection>)
    | Appending(refused: seq<Rejection>, list: seq<Rejection>)

  /** What is on disk, what is under way, and as history every action ever
      enqueued, what became of those the server took, the driver discarded or the
      sweep retired, those whose photo was deleted for a discard or a sweep that the
      end of the process then cut short, and every refusal ever issued. */
  datatype Phone = Phone(
    queue: seq<Action>,
    rejected: seq<Rejection>,
    files: set<Copy>,
    flush: Flushing,
    ops: seq<Op>,
    enqueued: set<Action>,
    acked: set<Action>,
    discarded: set<Action>,
    swept: set<Action>,
    cutShort: set<Action>,
    issued: map<nat, Action>
  )

  /** `Add`, `Retry`, `Discard` and `Sweep` are the first read of an operation and
      `Continue` its next call; `Begin` to `FileWrite` are those of a flush. */
  datatype Event =
    | Add(action: Action)
    | Retry(id: nat)
    | Discard(id: nat)
    | Sweep(now: int)
    | Continue(op: nat)
    | Begin
    | Attempt(reply: Reply, id: nat, now: int)
    | CommitQueue
    | FileRead
    | FileWrite
    | Crash

  function Fresh(): Phone {
    Phone([], [], {}, Idle, [], {}, {}, {}, {}, {}, map[])
  }

  /** Refusals the flush in progress has not filed yet. */
  function Unfiled(f: Flushing): seq<Rejection> {
    if f.Idle? then [] else f.refused
  }

  /** What a sending flush has not dealt with. */
  function Ahead(f: Flushing): seq<Action> {
    if f.Sending? && f.at <= |f.snapshot| then f.snapshot[f.at..] else []
  }

  function Retired(list: seq<Rejection>, now: int): set<Action> {
    set i | 0 <= i < |list| && Aged(list[i], now) :: list[i].item
  }

  predicate Enabled(p: Phone, e: Event) {
    match e
    case Add(a) =>
      forall b :: b in p.enqueued ==> a.ticket != b.ticket && (a.photo.Some? ==> a.photo != b.photo)
    case Retry(id) => Find(p.rejected, id).Some?
    case Discard(id) => Find(p.rejected, id).Some?
    case Sweep(_) => p.rejected != []
    case Continue(i) => i < |p.ops|
    case Begin => p.flush.Idle? && p.queue != []
    case Attempt(_, id, _) =>
      p.flush.Sending? && !p.flush.stopped && p.flush.at < |p.flush.snapshot| && id !in p.issued
    case CommitQueue => p.flush.Sending? && (p.flush.stopped || p.flush.at >= |p.flush.snapshot|)
    case FileRead => p.flush.Filing?
    case FileWrite => p.flush.Appending?
    case Crash => true
  }

  function Attempted(p: Phone, reply: Reply, id: nat, now: int): Phone
    requires p.flush.Sending? && p.flush.at < |p.flush.snapshot|
  {
    var f := p.flush;
    var a := f.snapshot[f.at];
    var q := p.(acked := if reply.Accepted? then p.acked + {a} else p.acked);
    match OutcomeOf(a, reply, p.files)
    case Sent => q.(files := p.files - PhotoOf(a), flush := f.(at := f.at + 1))
    case Refused =>
      q.(flush := f.(at := f.at + 1, refused := f.refused + [Rejection(id, a, Some(now))]), issued := p.issued[id := a])
    case Stuck => q.(flush := f.(stopped := true))
  }

  /** What an operation has deleted the photo of, and still keeps the entry of. */
  function Deleted(op: Op): set<Action> {
    match op
    case Dropping(a, _, _) => {a}
    case Sweeping(now, list, at) => if at <= |list| then Retired(list[..at], now) else {}
    case _ => {}
  }

  function UnderDisposal(ops: seq<Op>): set<Action> {
    if ops == [] then {} else UnderDisposal(ops[..|ops| - 1]) + Deleted(ops[|ops| - 1])
  }

  function Done(p: Phone, i: nat): Phone
    requires i < |p.ops|
  {
    p.(ops := p.ops[..i] + p.ops[i + 1..])
  }

  function Continued(p: Phone, i: nat): Phone
    requires i < |p.ops|
  {
    match p.ops[i]
    case Adding(a, seen) => Done(p, i).(queue := seen + [a])
    case Retrying(a, id, list) => p.(ops := p.ops[i := Requeuing(a, id, list, p.queue)])
    case Requeuing(a, id, list, seen) => p.(queue := seen + [a], ops := p.ops[i := Clearing(a, id, list)])
    case Clearing(_, id, list) => Done(p, i).(rejected := Without(list, id))
    case Discarding(a, id, list) => p.(files := p.files - PhotoOf(a), ops := p.ops[i := Dropping(a, id, list)])
    case Dropping(a, id, list) => Done(p, i).(rejected := Without(list, id), discarded := p.discarded + {a})
    case Sweeping(now, list, at) =>
      if at < |list| then
        p.(files := if Aged(list[at], now) then p.files - PhotoOf(list[at].item) else p.files,
           ops := p.ops[i := Sweeping(now, list, at + 1)])
      else if Retired(list, now) == {} then Done(p, i)
      else Done(p, i).(rejected := Kept(list, now), swept := p.swept + Retired(list, now))
  }

  function Next(p: Phone, e: Event): Phone {
    if !Enabled(p, e) then p else
    match e
    case Add(a) => p.(ops := p.ops + [Adding(a, p.queue)], files := p.files + PhotoOf(a), enqueued := p.enqueued + {a})
    case Retry(id) => p.(ops := p.ops + [Retrying(Find(p.rejected, id).value.item, id, p.rejected)])
    case Discard(id) => p.(ops := p.ops + [Discarding(Find(p.rejected, id).value.item, id, p.rejected)])
    case Sweep(now) => p.(ops := p.ops + [Sweeping(now, p.rejected, 0)])
    case Continue(i) => Continued(p, i)
    case Begin => p.(flush := Sending(p.queue, 0, [], false))
    case Attempt(reply, id, now) => Attempted(p, reply, id, now)
    case CommitQueue =>
      p.(queue := Ahead(p.flush), flush := if p.flush.refused == [] then Idle else Filing(p.flush.refused))
    case FileRead => p.(flush := Appending(p.flush.refused, p.rejected))
    case FileWrite => p.(rejected := p.flush.list + p.flush.refused, flush := Idle)
    case Crash => p.(ops := [], flush := Idle, cutShort := p.cutShort + UnderDisposal(p.ops))
  }

  function Run(es: seq<Event>): Phone {
    if es == [] then Fresh() else Next(Run(es[..|es| - 1]), es[|es| - 1])
  }

  // ----- where actions are ----------------------------------------------------

  predicate Holds(list: seq<Rejection>, a: Action) {
    exists r :: r in list && r.item == a
  }

  predicate Carries(op: Op, a: Action) {
    (op.Adding? || op.Retrying? || op.Requeuing?) && op.item == a
  }

  /** An operation has it in hand to put it on the queue. */
  predicate Carried(ops: seq<Op>, a: Action) {
    exists i :: 0 <= i < |ops| && Carries(ops[i], a)
  }

  predicate InFlush(f: Flushing, a: Action) {
    a in Ahead(f) || Holds(Unfiled(f), a)
  }

  predicate Held(p: Phone, a: Action) {
    a in p.queue || Holds(p.rejected, a) || Carried(p.ops, a) || InFlush(p.flush, a)
  }

  /** Enqueued, and neither the server nor the driver nor time has dealt with it. */
  predicate Outstanding(p: Phone, a: Action) {
    a in p.enqueued && a !in p.acked && a !in p.discarded && a !in p.swept
  }

  /** Enqueued, and nothing explains where it went. */
  predicate Gone(p: Phone, a: Action) {
    Outstanding(p, a) && !Held(p, a)
  }

  function Vanished(p: Phone): set<Action> {
    set a | a in p.enqueued && Gone(p, a)
  }

  // ----- writes, and what they were based on ---------------------------------

  /** A list written to storage, and the list its writer had read. */
  datatype Write =
    | NoWrite
    | QueueWrite(read: seq<Action>, queue: seq<Action>)
    | RejectedWrite(base: seq<Rejection>, rejected: seq<Rejection>)

  function OpWrite(op: Op): Write {
    match op
    case Adding(a, seen) => QueueWrite(seen, seen + [a])
    case Retrying(_, _, _) => NoWrite
    case Requeuing(a, _, _, seen) => QueueWrite(seen, seen + [a])
    case Clearing(_, id, list) => RejectedWrite(list, Without(list, id))
    case Discarding(_, _, _) => NoWrite
    case Dropping(_, id, list) => RejectedWrite(list, Without(list, id))
    case Sweeping(now, list, at) =>
      if at < |list| || Retired(list, now) == {} then NoWrite else RejectedWrite(list, Kept(list, now))
  }

  function WriteOf(p: Phone, e: Event): Write {
    if !Enabled(p, e) then NoWrite
    else if e.Continue? then OpWrite(p.ops[e.op])
    else if e.CommitQueue? then QueueWrite(p.flush.snapshot, Ahead(p.flush))
    else if e.FileWrite? then RejectedWrite(p.flush.list, p.flush.list + p.flush.refused)
    else NoWrite
  }

  /** Storage has changed since the writer read it. */
  predicate Stale(p: Phone, e: Event) {
    match WriteOf(p, e)
    case NoWrite => false
    case QueueWrite(read, _) => read != p.queue
    case RejectedWrite(base, _) => base != p.rejected
  }

  predicate OpDisposes(op: Op, a: Action) {
    (op.Dropping? && op.item == a) || (op.Sweeping? && op.at >= |op.list| && a in Retired(op.list, op.now))
  }

  predicate Disposes(p: Phone, e: Event, a: Action) {
    Enabled(p, e) && e.Continue? && OpDisposes(p.ops[e.op], a)
  }

  /** What one step loses: an action a write leaves out that is held nowhere else,
      and one only in memory when the process ends. */
  predicate Overwrites(p: Phone, e: Event, a: Action) {
    && Outstanding(p, a) && !Disposes(p, e, a)
    && match WriteOf(p, e)
       case QueueWrite(_, queue) =>
         a in p.queue && a !in queue && !Holds(p.rejected, a) && !Carried(p.ops, a) && !InFlush(p.flush, a)
       case RejectedWrite(_, rejected) =>
         Holds(p.rejected, a) && !Holds(rejected, a) && a !in p.queue && !Carried(p.ops, a) && !InFlush(p.flush, a)
       case NoWrite =>
         e.Crash? && (Carried(p.ops, a) || InFlush(p.flush, a)) && a !in p.queue && !Holds(p.rejected, a)
  }

  /** What one step accounts for again: an action a write puts back, or one it
      disposes of. */
  predicate Returns(p: Phone, e: Event, a: Action) {
    || Disposes(p, e, a)
    || match WriteOf(p, e)
       case QueueWrite(_, queue) => a in queue
       case RejectedWrite(_, rejected) => Holds(rejected, a)
       case NoWrite => false
  }

  /** What the run has lost, step by step. */
  function LostIn(es: seq<Event>): set<Action> {
    if es == [] then {}
    else
      var before, e := es[..|es| - 1], es[|es| - 1];
      (set a | a in LostIn(before) && !Returns(Run(before), e, a))
      + (set a | a in Run(before).enqueued && Overwrites(Run(before), e, a))
  }

  // ----- the invariant ---------------------------------------------------------

  predicate DifferentActions(s: set<Action>) {
    forall a, b :: a in s && b in s && a != b ==> a.ticket != b.ticket && (a.photo.Some? ==> a.photo != b.photo)
  }

  predicate QueueOk(enqueued: set<Action>, s: seq<Action>) {
    forall a :: a in s ==> a in enqueued
  }

  predicate EntryOk(p: Phone, r: Rejection) {
    r.item in p.enqueued && r.id in p.issued && p.issued[r.id] == r.item
  }

  /** Every entry bears the id it was issued with. */
  predicate ListOk(p: Phone, list: seq<Rejection>) {
    forall r :: r in list ==> EntryOk(p, r)
  }

  predicate OpOk(p: Phone, op: Op) {
    match op
    case Adding(a, seen) => a in p.enqueued && QueueOk(p.enqueued, seen)
    case Retrying(a, id, list) => EntryOk(p, Rejection(id, a, None)) && ListOk(p, list)
    case Requeuing(a, id, list, seen) =>
      EntryOk(p, Rejection(id, a, None)) && ListOk(p, list) && QueueOk(p.enqueued, seen)
    case Clearing(a, id, list) => EntryOk(p, Rejection(id, a, None)) && ListOk(p, list)
    case Discarding(a, id, list) => EntryOk(p, Rejection(id, a, None)) && ListOk(p, list)
    case Dropping(a, id, list) => EntryOk(p, Rejection(id, a, None)) && ListOk(p, list)
    case Sweeping(_, list, at) => ListOk(p, list) && at <= |list|
  }

  /** What a flush has dealt with was taken by the server or is among its refusals,
      and nothing else is. */
  predicate FlushOk(p: Phone, f: Flushing) {
    && ListOk(p, Unfiled(f))
    && (f.Appending? ==> ListOk(p, f.list))
    && (f.Sending? ==>
          && f.at <= |f.snapshot| && QueueOk(p.enqueued, f.snapshot)
          && (forall i :: 0 <= i < f.at ==> f.snapshot[i] in p.acked || Holds(f.refused, f.snapshot[i]))
          && (forall r :: r in f.refused ==> r.item in f.snapshot[..f.at]))
  }

  ghost predicate Inv(p: Phone) {
    && DifferentActions(p.enqueued)
    && QueueOk(p.enqueued, p.queue) && ListOk(p, p.rejected) && FlushOk(p, p.flush)
    && forall i :: 0 <= i < |p.ops| ==> OpOk(p, p.ops[i])
  }

  /** The copy of a photo is on disk unless its upload went through or its entry
      was discarded or retired, or is about to be, or was when the process ended. */
  predicate Evidence(p: Phone, a: Action) {
    a in p.enqueued && a.photo.Some? ==>
      || a.photo.value in p.files || a in p.acked || a in p.discarded || a in p.swept
      || a in UnderDisposal(p.ops) || a in p.cutShort
  }

  // ----- lists -----------------------------------------------------------------

  lemma FindIs(list: seq<Rejection>, id: nat)
    ensures Find(list, id).Some? ==> Find(list, id).value in list && Find(list, id).value.id == id
    ensures Find(list, id).None? ==> forall r :: r in list ==> r.id != id
  {
    if list != [] && list[0].id != id { FindIs(list[1..], id); }
  }

  lemma {:induction false} WithoutIs(list: seq<Rejection>, id: nat)
    ensures forall r :: r in Without(list, id) <==> r in list && r.id != id
  {
    if list != [] { WithoutIs(list[..|list| - 1], id); }
  }

  lemma {:induction false} KeptIs(list: seq<Rejection>, now: int)
    ensures forall r :: r in Kept(list, now) <==> r in list && !Aged(r, now)
  {
    if list != [] { KeptIs(list[..|list| - 1], now); }
  }

  lemma HoldsOfSum(s: seq<Rejection>, t: seq<Rejection>, a: Action)
    ensures Holds(s + t, a) <==> Holds(s, a) || Holds(t, a)
  {
    if Holds(s, a) { var r :| r in s && r.item == a; assert r in s + t; }
    if Holds(t, a) { var r :| r in t && r.item == a; assert r in s + t; }
  }

  /** What a removal by id keeps of an action, and what a sweep keeps. */
  lemma HoldsWithout(p: Phone, list: seq<Rejection>, id: nat, a: Action)
    requires ListOk(p, list) && id in p.issued && p.issued[id] != a
    ensures Holds(Without(list, id), a) <==> Holds(list, a)
  {
    WithoutIs(list, id);
    if Holds(list, a) { var r :| r in list && r.item == a; assert r in Without(list, id); }
  }

  lemma HoldsKept(list: seq<Rejection>, now: int, a: Action)
    ensures Holds(Kept(list, now), a) ==> Holds(list, a)
    ensures Holds(list, a) && a !in Retired(list, now) ==> Holds(Kept(list, now), a)
    ensures a in Retired(list, now) ==> Holds(list, a)
  {
    KeptIs(list, now);
    if Holds(list, a) && a !in Retired(list, now) {
      var r :| r in list && r.item == a;
      assert r in Kept(list, now);
    }
  }

  lemma CarriedWithout(ops: seq<Op>, i: nat, a: Action)
    requires i < |ops|
    ensures Carried(ops, a) <==> Carried(ops[..i] + ops[i + 1..], a) || Carries(ops[i], a)
  {
    var rest := ops[..i] + ops[i + 1..];
    if Carried(ops, a) {
      var j :| 0 <= j < |ops| && Carries(ops[j], a);
      if j < i { assert rest[j] == ops[j]; } else if j > i { assert rest[j - 1] == ops[j]; }
    }
    if Carried(rest, a) {
      var j :| 0 <= j < |rest| && Carries(rest[j], a);
      assert rest[j] == ops[if j < i then j else j + 1];
    }
  }

  lemma CarriedWith(ops: seq<Op>, op: Op, a: Action)
    ensures Carried(ops + [op], a) <==> Carried(ops, a) || Carries(op, a)
  {
    if Carried(ops, a) {
      var j :| 0 <= j < |ops| && Carries(ops[j], a);
      assert (ops + [op])[j] == ops[j];
    }
    if Carries(op, a) { assert (ops + [op])[|ops|] == op; }
  }

  lemma {:induction false} DisposalOfSum(s: seq<Op>, t: seq<Op>)
    ensures UnderDisposal(s + t) == UnderDisposal(s) + UnderDisposal(t)
  {
    if t == [] {
      assert s + t == s;
    } else {
      assert (s + t)[..|s + t| - 1] == s + t[..|t| - 1];
      DisposalOfSum(s, t[..|t| - 1]);
    }
  }

  lemma OneDisposal(op: Op)
    ensures UnderDisposal([op]) == Deleted(op)
  {
    assert [op][..0] == [];
  }

  /** What the operations have deleted, but for one that ends or goes on as another. */
  lemma DisposalOfOps(ops: seq<Op>, i: nat, op: Op)
    requires i < |ops|
    ensures var rest := UnderDisposal(ops[..i] + ops[i + 1..]);
            UnderDisposal(ops) == rest + Deleted(ops[i]) && UnderDisposal(ops[i := op]) == rest + Deleted(op)
  {
    var s, t := ops[..i], ops[i + 1..];
    assert ops == s + ([ops[i]] + t) && ops[i := op] == s + ([op] + t);
    DisposalOfSum(s, t);
    DisposalOfSum(s, [ops[i]] + t);
    DisposalOfSum([ops[i]], t);
    DisposalOfSum(s, [op] + t);
    DisposalOfSum([op], t);
    OneDisposal(ops[i]);
    OneDisposal(op);
  }

  lemma DisposalWith(ops: seq<Op>, op: Op)
    ensures UnderDisposal(ops + [op]) == UnderDisposal(ops) + Deleted(op)
  {
    DisposalOfSum(ops, [op]);
    OneDisposal(op);
  }

  /** The entry a sweep looks at next joins those it has retired. */
  lemma RetiredNext(list: seq<Rejection>, now: int, at: nat)
    requires at < |list|
    ensures Retired(list[..at + 1], now)
              == Retired(list[..at], now) + (if Aged(list[at], now) then {list[at].item} else {})
  {
    var init, more := list[..at], list[..at + 1];
    forall a
      ensures a in Retired(more, now) <==> a in Retired(init, now) || (Aged(list[at], now) && a == list[at].item)
    {
      if a in Retired(init, now) {
        var i :| 0 <= i < |init| && Aged(init[i], now) && init[i].item == a;
        assert more[i] == init[i];
      }
      if Aged(list[at], now) && a == list[at].item { assert more[at] == list[at]; }
      if a in Retired(more, now) {
        var i :| 0 <= i < |more| && Aged(more[i], now) && more[i].item == a;
        if i < at { assert init[i] == more[i]; }
      }
    }
  }

  lemma CarriedChanged(ops: seq<Op>, i: nat, op: Op, a: Action)
    requires i < |ops|
    ensures Carried(ops, a) && !Carries(ops[i], a) ==> Carried(ops[i := op], a)
    ensures Carries(op, a) ==> Carried(ops[i := op], a)
    ensures Carried(ops[i := op], a) ==> Carried(ops, a) || Carries(op, a)
  {
    var next := ops[i := op];
    if Carried(ops, a) && !Carries(ops[i], a) {
      var j :| 0 <= j < |ops| && Carries(ops[j], a);
      assert next[j] == ops[j];
    }
    if Carries(op, a) { assert next[i] == op; }
    if Carried(next, a) && !Carries(op, a) {
      var j :| 0 <= j < |next| && Carries(next[j], a);
      assert next[j] == ops[j];
    }
  }

  // ----- one step, one action ----------------------------------------------------

  predicate Accounts(p: Phone, e: Event, a: Action) {
    Gone(Next(p, e), a) <==> (Gone(p, a) && !Returns(p, e, a)) || Overwrites(p, e, a)
  }

  lemma AddAccounts(p: Phone, x: Action, a: Action)
    requires Inv(p) && Enabled(p, Add(x))
    ensures Accounts(p, Add(x), a)
  {
    CarriedWith(p.ops, Adding(x, p.queue), a);
    if a == x { assert a !in p.enqueued; }
  }

  lemma StartAccounts(p: Phone, e: Event, a: Action)
    requires Inv(p) && Enabled(p, e) && (e.Retry? || e.Discard? || e.Sweep?)
    ensures Accounts(p, e, a)
  {
    var q := Next(p, e);
    var op := q.ops[|p.ops|];
    assert q.ops == p.ops + [op];
    CarriedWith(p.ops, op, a);
    if e.Retry? && op.item == a {
      FindIs(p.rejected, e.id);
      assert Holds(p.rejected, a);
    }
  }

  lemma ContinueAccounts(p: Phone, i: nat, a: Action)
    requires Inv(p) && i < |p.ops|
    ensures Accounts(p, Continue(i), a)
  {
    var op := p.ops[i];
    CarriedWithout(p.ops, i, a);
    assert Carries(op, a) ==> Carried(p.ops, a);
    match op
    case Retrying(x, id, list) => CarriedChanged(p.ops, i, Requeuing(x, id, list, p.queue), a);
    case Requeuing(x, id, list, _) => CarriedChanged(p.ops, i, Clearing(x, id, list), a);
    case Discarding(x, id, list) => CarriedChanged(p.ops, i, Dropping(x, id, list), a);
    case Sweeping(now, list, at) => CarriedChanged(p.ops, i, Sweeping(now, list, at + 1), a);
    case _ =>
  }

  lemma AttemptIs(p: Phone, reply: Reply, id: nat, now: int)
    requires Enabled(p, Attempt(reply, id, now))
    ensures var f, q := p.flush, Next(p, Attempt(reply, id, now));
            var x := f.snapshot[f.at];
            && Ahead(f) == [x] + f.snapshot[f.at + 1..]
            && q.acked == (if reply.Accepted? then p.acked + {x} else p.acked)
            && match OutcomeOf(x, reply, p.files)
               case Sent => q == p.(acked := p.acked + {x}, files := p.files - PhotoOf(x), flush := f.(at := f.at + 1))
               case Refused =>
                 q == p.(flush := f.(at := f.at + 1, refused := f.refused + [Rejection(id, x, Some(now))]),
                                       issued := p.issued[id := x])
               case Stuck => q == p.(acked := q.acked, flush := f.(stopped := true))
  {
  }

  lemma AttemptAccounts(p: Phone, reply: Reply, id: nat, now: int, a: Action)
    requires Inv(p) && Enabled(p, Attempt(reply, id, now))
    ensures Accounts(p, Attempt(reply, id, now), a)
  {
    AttemptIs(p, reply, id, now);
    var f := p.flush;
    var x := f.snapshot[f.at];
    HoldsOfSum(f.refused, [Rejection(id, x, Some(now))], a);
    assert Holds([Rejection(id, x, Some(now))], a) <==> a == x by {
      if a == x { assert Rejection(id, x, Some(now)) in [Rejection(id, x, Some(now))]; }
    }
    assert a in Ahead(f) <==> a == x || a in f.snapshot[f.at + 1..];
  }

  lemma CommitAccounts(p: Phone, e: Event, a: Action)
    requires Inv(p) && Enabled(p, e) && (e.CommitQueue? || e.FileRead? || e.FileWrite? || e.Begin?)
    ensures Accounts(p, e, a)
  {
    if e.FileWrite? { HoldsOfSum(p.flush.list, p.flush.refused, a); }
    if e.Begin? { assert p.queue[0..] == p.queue; }
  }

  /** What a step leaves unaccounted for is what was so before and it does not
      return, and what it overwrites. */
  lemma StepAccounts(p: Phone, e: Event, a: Action)
    requires Inv(p)
    ensures Accounts(p, e, a)
  {
    if Enabled(p, e) {
      match e
      case Add(x) => AddAccounts(p, x, a);
      case Continue(i) => ContinueAccounts(p, i, a);
      case Attempt(reply, id, now) => AttemptAccounts(p, reply, id, now, a);
      case Crash =>
      case Retry(_) => StartAccounts(p, e, a);
      case Discard(_) => StartAccounts(p, e, a);
      case Sweep(_) => StartAccounts(p, e, a);
      case _ => CommitAccounts(p, e, a);
    }
  }

  // ----- the invariant is kept ------------------------------------------------------

  lemma OpOkLater(p: Phone, q: Phone, op: Op)
    requires OpOk(p, op) && p.enqueued <= q.enqueued && p.issued.Items <= q.issued.Items
    ensures OpOk(q, op)
  {
    ListOkLater(p, q, if op.Adding? then [] else op.list);
    if !op.Adding? && !op.Sweeping? { assert (op.id, op.item) in p.issued.Items; }
  }

  lemma ListOkLater(p: Phone, q: Phone, list: seq<Rejection>)
    requires ListOk(p, list) && p.enqueued <= q.enqueued && p.issued.Items <= q.issued.Items
    ensures ListOk(q, list)
  {
    forall r | r in list ensures EntryOk(q, r) { assert (r.id, r.item) in p.issued.Items; }
  }

  lemma ContinueKeepsOps(p: Phone, i: nat, j: nat)
    requires Inv(p) && i < |p.ops| && j < |Continued(p, i).ops|
    ensures OpOk(p, Continued(p, i).ops[j])
  {
    var q := Continued(p, i);
    assert OpOk(p, p.ops[i]);
    assert j != i && |q.ops| == |p.ops| ==> q.ops[j] == p.ops[j];
    assert |q.ops| < |p.ops| ==> q.ops[j] == p.ops[if j < i then j else j + 1];
  }

  lemma ContinueKeepsLists(p: Phone, i: nat)
    requires Inv(p) && i < |p.ops|
    ensures QueueOk(p.enqueued, Continued(p, i).queue) && ListOk(p, Continued(p, i).rejected)
  {
    assert OpOk(p, p.ops[i]);
    match p.ops[i]
    case Clearing(_, id, list) => WithoutIs(list, id);
    case Dropping(_, id, list) => WithoutIs(list, id);
    case Sweeping(now, list, _) => KeptIs(list, now);
    case _ =>
  }

  lemma ContinueKeepsFlush(p: Phone, i: nat)
    requires Inv(p) && i < |p.ops|
    ensures var q := Continued(p, i);
            && q.enqueued == p.enqueued && q.issued == p.issued && q.acked == p.acked && q.flush == p.flush
            && FlushOk(q, q.flush)
  {
    var q := Continued(p, i);
    assert q.enqueued == p.enqueued && q.issued == p.issued && q.acked == p.acked && q.flush == p.flush;
    ListOkLater(p, q, Unfiled(p.flush));
    if p.flush.Appending? { ListOkLater(p, q, p.flush.list); }
  }

  lemma ContinueKeepsInv(p: Phone, i: nat)
    requires Inv(p) && i < |p.ops|
    ensures Inv(Continued(p, i))
  {
    var q := Continued(p, i);
    ContinueKeepsFlush(p, i);
    ContinueKeepsLists(p, i);
    ListOkLater(p, q, q.rejected);
    forall j | 0 <= j < |q.ops| ensures OpOk(q, q.ops[j]) {
      ContinueKeepsOps(p, i, j);
      OpOkLater(p, q, q.ops[j]);
    }
  }

  lemma AttemptKeepsFlush(p: Phone, reply: Reply, id: nat, now: int)
    requires Inv(p) && Enabled(p, Attempt(reply, id, now))
    ensures var q := Next(p, Attempt(reply, id, now)); FlushOk(q, q.flush)
  {
    AttemptIs(p, reply, id, now);
    var f, q := p.flush, Next(p, Attempt(reply, id, now));
    var x := f.snapshot[f.at];
    var r := Rejection(id, x, Some(now));
    assert q.issued == p.issued || q.issued == p.issued[id := x];
    ListOkLater(p, q, f.refused);
    assert f.snapshot[..f.at + 1] == f.snapshot[..f.at] + [x];
    forall j | 0 <= j < q.flush.at
      ensures q.flush.snapshot[j] in q.acked || Holds(q.flush.refused, q.flush.snapshot[j])
    {
      HoldsOfSum(f.refused, [r], f.snapshot[j]);
      if j == f.at { assert r in [r]; }
    }
  }

  lemma AttemptKeepsInv(p: Phone, reply: Reply, id: nat, now: int)
    requires Inv(p) && Enabled(p, Attempt(reply, id, now))
    ensures Inv(Next(p, Attempt(reply, id, now)))
  {
    AttemptKeepsFlush(p, reply, id, now);
    AttemptIs(p, reply, id, now);
    var q := Next(p, Attempt(reply, id, now));
    ListOkLater(p, q, p.rejected);
    forall i | 0 <= i < |q.ops| ensures OpOk(q, q.ops[i]) { OpOkLater(p, q, p.ops[i]); }
  }

  lemma AddKeepsInv(p: Phone, x: Action)
    requires Inv(p) && Enabled(p, Add(x))
    ensures Inv(Next(p, Add(x)))
  {
    var q := Next(p, Add(x));
    ListOkLater(p, q, p.rejected);
    ListOkLater(p, q, Unfiled(p.flush));
    if p.flush.Appending? { ListOkLater(p, q, p.flush.list); }
    forall i | 0 <= i < |q.ops| ensures OpOk(q, q.ops[i]) {
      if i < |p.ops| { OpOkLater(p, q, p.ops[i]); }
    }
  }

  lemma StepKeepsInv(p: Phone, e: Event)
    requires Inv(p)
    ensures Inv(Next(p, e))
  {
    if Enabled(p, e) {
      match e
      case Add(x) => AddKeepsInv(p, x);
      case Retry(id) => FindIs(p.rejected, id);
      case Discard(id) => FindIs(p.rejected, id);
      case Continue(i) => ContinueKeepsInv(p, i);
      case Attempt(reply, id, now) => AttemptKeepsInv(p, reply, id, now);
      case _ =>
    }
  }

  lemma ContinueKeepsEvidence(p: Phone, i: nat, a: Action)
    requires Inv(p) && Evidence(p, a) && i < |p.ops|
    ensures Evidence(Continued(p, i), a)
  {
    var op, q := p.ops[i], Continued(p, i);
    assert OpOk(p, op);
    DisposalOfOps(p.ops, i, if |q.ops| == |p.ops| then q.ops[i] else op);
    if op.Sweeping? {
      assert op.list[..|op.list|] == op.list;
      if op.at < |op.list| {
        RetiredNext(op.list, op.now, op.at);
        assert EntryOk(p, op.list[op.at]);
      }
    }
  }

  lemma StepKeepsEvidence(p: Phone, e: Event, a: Action)
    requires Inv(p) && Evidence(p, a)
    ensures Evidence(Next(p, e), a)
  {
    if Enabled(p, e) {
      match e
      case Continue(i) => ContinueKeepsEvidence(p, i, a);
      case Attempt(reply, id, now) =>
        AttemptIs(p, reply, id, now);
        assert p.flush.snapshot[p.flush.at] in p.flush.snapshot;
      case Add(x) => DisposalWith(p.ops, Adding(x, p.queue));
      case Retry(id) => DisposalWith(p.ops, Next(p, e).ops[|p.ops|]);
      case Discard(id) => DisposalWith(p.ops, Next(p, e).ops[|p.ops|]);
      case Sweep(now) => DisposalWith(p.ops, Sweeping(now, p.rejected, 0));
      case _ =>
    }
  }

  // ----- whole runs ---------------------------------------------------------------

  /** Over every run, however its calls fall between one another: an action no
      record explains is one some step overwrote and none returned since. */
  lemma {:induction false} LedgerOverEveryRun(es: seq<Event>)
    ensures Inv(Run(es))
    ensures Vanished(Run(es)) == LostIn(es)
  {
    if es != [] {
      var before, e := es[..|es| - 1], es[|es| - 1];
      LedgerOverEveryRun(before);
      StepKeepsInv(Run(before), e);
      assert Run(es) == Next(Run(before), e);
      forall a ensures a in Vanished(Run(es)) <==> a in LostIn(es) {
        StepAccounts(Run(before), e, a);
        assert Gone(Run(before), a) <==> a in Vanished(Run(before));
      }
    }
  }

  /** Over every run a photo copy is deleted only after its upload went through or
      for a discard or a sweep, which has written its entry off, is about to, or was
      cut short by the end of the process; and no two actions share a file. */
  lemma {:induction false} EvidenceOverEveryRun(es: seq<Event>, a: Action, b: Action)
    requires a in Run(es).enqueued && a.photo.Some? && b in Run(es).enqueued && b.photo.Some?
    ensures var p := Run(es);
            && (a.photo.value !in p.files ==>
                  || a in p.acked || a in p.discarded || a in p.swept || a in UnderDisposal(p.ops) || a in p.cutShort)
            && (a != b ==> Path(a.photo.value) != Path(b.photo.value))
  {
    EvidenceOf(es, a);
    LedgerOverEveryRun(es);
    CopiesShareAFileExactly(a.photo.value, b.photo.value);
  }

  lemma {:induction false} EvidenceOf(es: seq<Event>, a: Action)
    ensures Evidence(Run(es), a)
  {
    if es != [] {
      EvidenceOf(es[..|es| - 1], a);
      LedgerOverEveryRun(es[..|es| - 1]);
      StepKeepsEvidence(Run(es[..|es| - 1]), es[|es| - 1], a);
    }
  }

  /** Only time or the driver removes a refusal: what a sweep retires is older
      than the retention period, and an entry whose date does not parse stays. */
  lemma SweepRetiresOnlyTheOld(p: Phone, e: Event, a: Action)
    requires Inv(p) && a in Next(p, e).swept && a !in p.swept
    ensures e.Continue? && e.op < |p.ops| && p.ops[e.op].Sweeping?
    ensures exists r ::
              r in p.ops[e.op].list && r.item == a && r.at.Some? && p.ops[e.op].now - r.at.value > 1_209_600_000
  {
    if Enabled(p, e) && e.Continue? && p.ops[e.op].Sweeping? {
      var op := p.ops[e.op];
      var i :| 0 <= i < |op.list| && Aged(op.list[i], op.now) && op.list[i].item == a;
      assert op.list[i] in op.list;
    }
  }

  // ----- what is lost, and by whom ---------------------------------------------

  predicate OnlyQueued(p: Phone, a: Action) {
    a in p.queue && !Holds(p.rejected, a) && !Carried(p.ops, a) && !InFlush(p.flush, a)
  }

  predicate OnlyRejected(p: Phone, a: Action) {
    Holds(p.rejected, a) && a !in p.queue && !Carried(p.ops, a) && !InFlush(p.flush, a)
  }

  /** The last step of a retry, which takes out what it has queued. */
  predicate Clears(p: Phone, e: Event, a: Action) {
    e.Continue? && e.op < |p.ops| && p.ops[e.op].Clearing? && p.ops[e.op].item == a
  }

  /** A write of the queue loses exactly what was added only to it since its writer
      read it.  A write of the rejected store loses what was filed only there since
      then, and a retry the action it queued if the queue has lost it meanwhile. */
  lemma OverwritesExactly(p: Phone, e: Event, a: Action)
    requires Inv(p) && Outstanding(p, a)
    ensures match WriteOf(p, e)
            case QueueWrite(read, _) => Overwrites(p, e, a) <==> OnlyQueued(p, a) && a !in read
            case RejectedWrite(base, rejected) =>
              Overwrites(p, e, a) <==>
                OnlyRejected(p, a) && !Disposes(p, e, a)
                  && (!Holds(base, a) || (Clears(p, e, a) && !Holds(rejected, a)))
            case NoWrite =>
              Overwrites(p, e, a) <==>
                e.Crash? && (Carried(p.ops, a) || InFlush(p.flush, a)) && a !in p.queue && !Holds(p.rejected, a)
  {
    if Enabled(p, e) && e.Continue? {
      assert Carries(p.ops[e.op], a) ==> Carried(p.ops, a);
      OpWriteKeeps(p, e.op, a);
    } else if Enabled(p, e) && e.CommitQueue? {
      if a in p.flush.snapshot { CommitKeeps(p, a); }
    } else if Enabled(p, e) && e.FileWrite? {
      HoldsOfSum(p.flush.list, p.flush.refused, a);
    }
  }

  lemma OpWriteKeeps(p: Phone, i: nat, a: Action)
    requires Inv(p) && i < |p.ops|
    ensures var op := p.ops[i];
            match OpWrite(op)
            case NoWrite => true
            case QueueWrite(read, queue) => a in queue <==> a in read || Carries(op, a)
            case RejectedWrite(base, rejected) =>
              && (Holds(rejected, a) ==> Holds(base, a))
              && (Holds(base, a) && !Holds(rejected, a) ==> OpDisposes(op, a) || (op.Clearing? && op.item == a))
  {
    var op := p.ops[i];
    assert OpOk(p, op);
    match op
    case Clearing(x, id, list) =>
      WithoutIs(list, id);
      if a != x { HoldsWithout(p, list, id, a); }
    case Dropping(x, id, list) =>
      WithoutIs(list, id);
      if a != x { HoldsWithout(p, list, id, a); }
    case Sweeping(now, list, _) => HoldsKept(list, now, a);
    case _ =>
  }

  /** What a flush has dealt with is with the server or among its refusals. */
  lemma CommitKeeps(p: Phone, a: Action)
    requires Inv(p) && p.flush.Sending? && a in p.flush.snapshot
    ensures a in Ahead(p.flush) || a in p.acked || Holds(p.flush.refused, a)
  {
    var f := p.flush;
    var i :| 0 <= i < |f.snapshot| && f.snapshot[i] == a;
    if i >= f.at { assert f.snapshot[f.at..][i - f.at] == a; }
  }

  /** Steps that can lose an action: writing over a list that has changed since it
      was read, and the end of the process with an action not yet queued or
      refusals not yet filed. */
  predicate Interrupts(p: Phone, e: Event) {
    || Stale(p, e)
    || (e.Crash? && (p.flush.Filing? || p.flush.Appending? || exists i :: 0 <= i < |p.ops| && p.ops[i].Adding?))
  }

  predicate RetryOp(op: Op) {
    op.Retrying? || op.Requeuing? || op.Clearing?
  }

  predicate Cleared(ops: seq<Op>, id: nat) {
    exists i :: 0 <= i < |ops| && ops[i].Clearing? && ops[i].id == id
  }

  predicate StaysRejected(p: Phone, a: Action) {
    exists r :: r in p.rejected && r.item == a && !Cleared(p.ops, r.id)
  }

  /** An action a retry is about is accounted for without the entries that retries
      have still to take out. */
  predicate Explained(p: Phone, a: Action) {
    !Outstanding(p, a) || a in p.queue || InFlush(p.flush, a) || StaysRejected(p, a)
  }

  /** What holds while nothing is interrupted. */
  ghost predicate Calm(p: Phone) {
    && (p.flush.Sending? ==> forall a :: a in p.flush.snapshot ==> a in p.queue)
    && (forall i :: 0 <= i < |p.ops| && RetryOp(p.ops[i]) ==> Explained(p, p.ops[i].item))
    && (forall r :: r in Unfiled(p.flush) ==> NewId(p, r.id))
  }

  /** An id no stored entry and no retry bears. */
  predicate NewId(p: Phone, id: nat) {
    && (forall r :: r in p.rejected ==> r.id != id)
    && (forall i :: 0 <= i < |p.ops| && RetryOp(p.ops[i]) ==> p.ops[i].id != id)
  }

  lemma CalmOverwritesNothing(p: Phone, e: Event, a: Action)
    requires Inv(p) && Calm(p) && !Interrupts(p, e)
    ensures !Overwrites(p, e, a)
  {
    if Outstanding(p, a) {
      OverwritesExactly(p, e, a);
      if Clears(p, e, a) && !Stale(p, e) && OnlyRejected(p, a) {
        StillFiled(p, e.op, a);
      } else if e.Crash? && (Carried(p.ops, a) || InFlush(p.flush, a)) {
        CrashSparesStored(p, a);
      }
    }
  }

  lemma StillFiled(p: Phone, i: nat, a: Action)
    requires Calm(p) && i < |p.ops| && p.ops[i].Clearing? && p.ops[i].item == a && p.ops[i].list == p.rejected
    requires Outstanding(p, a) && OnlyRejected(p, a)
    ensures Holds(Without(p.rejected, p.ops[i].id), a)
  {
    assert Explained(p, a);
    var r :| r in p.rejected && r.item == a && !Cleared(p.ops, r.id);
    WithoutIs(p.rejected, p.ops[i].id);
    assert r in Without(p.rejected, p.ops[i].id);
  }

  lemma CrashSparesStored(p: Phone, a: Action)
    requires Inv(p) && Calm(p) && !Interrupts(p, Crash) && Outstanding(p, a)
               && (Carried(p.ops, a) || InFlush(p.flush, a))
    ensures a in p.queue || Holds(p.rejected, a)
  {
    if Carried(p.ops, a) {
      var j :| 0 <= j < |p.ops| && Carries(p.ops[j], a);
      assert RetryOp(p.ops[j]) && Explained(p, a);
    }
  }

  // ----- calm is kept -----------------------------------------------------------

  /** `a` stays explained when all that might leave the entries or the queue is
      accounted for. */
  lemma ExplainedLater(p: Phone, q: Phone, a: Action)
    requires Explained(p, a) && (Outstanding(q, a) ==> Outstanding(p, a))
    requires Outstanding(q, a) && a in p.queue ==> a in q.queue || InFlush(q.flush, a)
    requires Outstanding(q, a) && InFlush(p.flush, a) ==> a in q.queue || InFlush(q.flush, a) || StaysRejected(q, a)
    requires forall r :: r in p.rejected && r.item == a && !Cleared(p.ops, r.id) && Outstanding(q, a) ==>
               a in q.queue || (r in q.rejected && !Cleared(q.ops, r.id))
    ensures Explained(q, a)
  {
  }

  lemma ClearedWithout(ops: seq<Op>, i: nat, id: nat)
    requires i < |ops| && Cleared(ops[..i] + ops[i + 1..], id)
    ensures Cleared(ops, id)
  {
    var rest := ops[..i] + ops[i + 1..];
    var j :| 0 <= j < |rest| && rest[j].Clearing? && rest[j].id == id;
    assert ops[if j < i then j else j + 1] == rest[j];
  }

  /** A call that leaves its operation with more to do. */
  predicate GoesOn(op: Op) {
    op.Retrying? || op.Requeuing? || op.Discarding? || (op.Sweeping? && op.at < |op.list|)
  }

  lemma OneDone(p: Phone, q: Phone, i: nat, a: Action)
    requires Inv(p) && i < |p.ops| && q == Continued(p, i) && !GoesOn(p.ops[i])
    requires !Stale(p, Continue(i)) && a in p.enqueued && Explained(p, a)
    ensures Explained(q, a)
  {
    var op := p.ops[i];
    assert OpOk(p, op);
    forall r | r in p.rejected && r.item == a && !Cleared(p.ops, r.id) && Outstanding(q, a)
      ensures r in q.rejected && !Cleared(q.ops, r.id)
    {
      if Cleared(q.ops, r.id) { ClearedWithout(p.ops, i, r.id); }
      assert EntryOk(p, r);
      match op
      case Clearing(_, id, list) => WithoutIs(list, id);
      case Dropping(_, id, list) => WithoutIs(list, id);
      case Sweeping(now, list, _) => KeptIs(list, now);
      case Adding(_, _) =>
    }
    ExplainedLater(p, q, a);
  }

  lemma OneGoesOn(p: Phone, q: Phone, i: nat, a: Action)
    requires Inv(p) && i < |p.ops| && q == Continued(p, i) && GoesOn(p.ops[i])
    requires !Stale(p, Continue(i)) && a in p.enqueued && Explained(p, a)
    ensures Explained(q, a)
  {
    var op := p.ops[i];
    assert OpOk(p, op);
    forall r | r in p.rejected && r.item == a && !Cleared(p.ops, r.id)
      ensures a in q.queue || !Cleared(q.ops, r.id)
    {
      assert EntryOk(p, r);
      if Cleared(q.ops, r.id) {
        var j :| 0 <= j < |q.ops| && q.ops[j].Clearing? && q.ops[j].id == r.id;
      }
    }
    ExplainedLater(p, q, a);
  }

  lemma ContinueStaysCalm(p: Phone, i: nat)
    requires Inv(p) && Calm(p) && i < |p.ops| && !Stale(p, Continue(i))
    ensures Calm(Continued(p, i))
  {
    var q := Continued(p, i);
    assert OpOk(p, p.ops[i]);
    forall j | 0 <= j < |q.ops| && RetryOp(q.ops[j]) ensures Explained(q, q.ops[j].item) {
      var k := SameOp(p, i, j);
      assert OpOk(p, p.ops[k]);
      if GoesOn(p.ops[i]) { OneGoesOn(p, q, i, q.ops[j].item); } else { OneDone(p, q, i, q.ops[j].item); }
    }
    forall r | r in Unfiled(q.flush) ensures NewId(q, r.id) {
      assert NewId(p, r.id);
      WriteKeepsIds(p, i, r.id);
    }
  }

  /** A retry that is still going was going before. */
  lemma SameOp(p: Phone, i: nat, j: nat) returns (k: nat)
    requires i < |p.ops| && j < |Continued(p, i).ops| && RetryOp(Continued(p, i).ops[j])
    ensures k < |p.ops| && RetryOp(p.ops[k])
    ensures p.ops[k].item == Continued(p, i).ops[j].item && p.ops[k].id == Continued(p, i).ops[j].id
  {
    k := if GoesOn(p.ops[i]) || j < i then j else j + 1;
  }

  lemma WriteKeepsIds(p: Phone, i: nat, id: nat)
    requires i < |p.ops| && NewId(p, id) && !Stale(p, Continue(i))
    ensures NewId(Continued(p, i), id)
  {
    var q := Continued(p, i);
    forall j | 0 <= j < |q.ops| && RetryOp(q.ops[j]) ensures q.ops[j].id != id { var k := SameOp(p, i, j); }
    match p.ops[i]
    case Clearing(_, taken, list) => WithoutIs(list, taken);
    case Dropping(_, taken, list) => WithoutIs(list, taken);
    case Sweeping(now, list, _) => KeptIs(list, now);
    case _ =>
  }

  lemma RetryStaysCalm(p: Phone, id: nat)
    requires Inv(p) && Calm(p) && Enabled(p, Retry(id))
    ensures Calm(Next(p, Retry(id)))
  {
    FindIs(p.rejected, id);
    var r, q := Find(p.rejected, id).value, Next(p, Retry(id));
    assert EntryOk(p, r);
    assert forall other :: Cleared(q.ops, other) ==> Cleared(p.ops, other);
    if Cleared(p.ops, id) {
      var j :| 0 <= j < |p.ops| && p.ops[j].Clearing? && p.ops[j].id == id;
      assert OpOk(p, p.ops[j]) && Explained(p, r.item);
    } else {
      assert StaysRejected(p, r.item);
    }
    forall j | 0 <= j < |q.ops| && RetryOp(q.ops[j]) ensures Explained(q, q.ops[j].item) {
      assert Explained(p, q.ops[j].item) by { if j < |p.ops| { assert p.ops[j] == q.ops[j]; } }
      ExplainedLater(p, q, q.ops[j].item);
    }
    forall s | s in Unfiled(q.flush) ensures NewId(q, s.id) { assert NewId(p, s.id); }
  }

  lemma StartStaysCalm(p: Phone, e: Event)
    requires Inv(p) && Calm(p) && Enabled(p, e) && (e.Add? || e.Discard? || e.Sweep?)
    ensures Calm(Next(p, e))
  {
    var q := Next(p, e);
    assert forall id :: Cleared(q.ops, id) ==> Cleared(p.ops, id);
    forall j | 0 <= j < |q.ops| && RetryOp(q.ops[j]) ensures Explained(q, q.ops[j].item) {
      assert p.ops[j] == q.ops[j] && OpOk(p, p.ops[j]);
      ExplainedLater(p, q, q.ops[j].item);
    }
    forall s | s in Unfiled(q.flush) ensures NewId(q, s.id) { assert NewId(p, s.id); }
  }

  lemma AttemptStaysCalm(p: Phone, reply: Reply, id: nat, now: int)
    requires Inv(p) && Calm(p) && Enabled(p, Attempt(reply, id, now))
    ensures Calm(Next(p, Attempt(reply, id, now)))
  {
    AttemptIs(p, reply, id, now);
    var f, q := p.flush, Next(p, Attempt(reply, id, now));
    var x := f.snapshot[f.at];
    forall j | 0 <= j < |q.ops| && RetryOp(q.ops[j]) ensures Explained(q, q.ops[j].item) {
      var a := q.ops[j].item;
      HoldsOfSum(f.refused, [Rejection(id, x, Some(now))], a);
      if a == x { assert Rejection(id, x, Some(now)) in [Rejection(id, x, Some(now))]; }
      ExplainedLater(p, q, a);
    }
    forall s | s in Unfiled(q.flush) ensures NewId(q, s.id) {
      if s in f.refused {
        assert NewId(p, s.id);
      } else {
        assert s.id == id;
        forall r | r in p.rejected ensures r.id != id { assert EntryOk(p, r); }
        forall i | 0 <= i < |p.ops| && RetryOp(p.ops[i]) ensures p.ops[i].id != id { assert OpOk(p, p.ops[i]); }
      }
    }
  }

  lemma FlushStaysCalm(p: Phone, e: Event)
    requires Inv(p) && Calm(p) && Enabled(p, e) && !Stale(p, e)
               && (e.Begin? || e.CommitQueue? || e.FileRead? || e.FileWrite?)
    ensures Calm(Next(p, e))
  {
    var q := Next(p, e);
    forall j | 0 <= j < |q.ops| && RetryOp(q.ops[j]) ensures Explained(q, q.ops[j].item) {
      var a := q.ops[j].item;
      if e.CommitQueue? && a in p.queue { CommitKeeps(p, a); }
      if e.FileWrite? && Holds(p.flush.refused, a) {
        var r :| r in p.flush.refused && r.item == a;
        assert NewId(p, r.id) && r in q.rejected;
        assert !Cleared(q.ops, r.id);
      }
      ExplainedLater(p, q, a);
    }
    forall s | s in Unfiled(q.flush) ensures NewId(q, s.id) { assert NewId(p, s.id); }
  }

  lemma StepStaysCalm(p: Phone, e: Event)
    requires Inv(p) && Calm(p) && !Interrupts(p, e)
    ensures Calm(Next(p, e))
  {
    if Enabled(p, e) {
      match e
      case Retry(id) => RetryStaysCalm(p, id);
      case Continue(i) => ContinueStaysCalm(p, i);
      case Attempt(reply, id, now) => AttemptStaysCalm(p, reply, id, now);
      case Crash =>
      case Add(_) => StartStaysCalm(p, e);
      case Discard(_) => StartStaysCalm(p, e);
      case Sweep(_) => StartStaysCalm(p, e);
      case _ => FlushStaysCalm(p, e);
    }
  }

  /** Unless a write goes over a list that changed since it was read, or the process
      ends with something not yet stored, nothing is ever lost. */
  lemma {:induction false} NothingVanishesUninterrupted(es: seq<Event>)
    requires forall i {:trigger es[i]} :: 0 <= i < |es| ==> !Interrupts(Run(es[..i]), es[i])
    ensures Vanished(Run(es)) == {} && Calm(Run(es))
  {
    if es != [] {
      var before, e := es[..|es| - 1], es[|es| - 1];
      forall i | 0 <= i < |before| ensures !Interrupts(Run(before[..i]), before[i]) {
        assert before[i] == es[i] && before[..i] == es[..i];
      }
      NothingVanishesUninterrupted(before);
      LedgerOverEveryRun(before);
      StepStaysCalm(Run(before), e);
      forall a ensures !Gone(Run(es), a) {
        StepAccounts(Run(before), e, a);
        CalmOverwritesNothing(Run(before), e, a);
        assert Gone(Run(before), a) ==> a in Vanished(Run(before));
      }
    }
  }

  // ----- photo copies ---------------------------------------------------------------

  /** Taken by the server in the flush in progress, which still has it queued. */
  predicate SentNow(p: Phone, a: Action) {
    p.flush.Sending? && p.flush.at <= |p.flush.snapshot| && a in p.flush.snapshot[..p.flush.at] && !InFlush(p.flush, a)
  }

  predicate Missing(p: Phone, a: Action) {
    a.photo.Some? && a.photo.value !in p.files
  }

  /** A held action has its copy unless the flush in progress has just sent it or a
      discard or sweep has just deleted it. */
  predicate HasCopy(p: Phone, a: Action) {
    Held(p, a) && !SentNow(p, a) && a !in UnderDisposal(p.ops) ==> !Missing(p, a)
  }

  /** What the other operations have deleted. */
  function OthersDisposal(ops: seq<Op>, i: nat): set<Action>
    requires i < |ops|
  {
    UnderDisposal(ops[..i] + ops[i + 1..])
  }

  /** The steps that leave a held action without its copy: a write that brings back
      an action whose copy is gone, the end of a discard or sweep of one that is
      held besides, sending one the flush has twice, and writing the queue back when
      one just sent is held elsewhere; and the end of the process when one was just
      sent, or its copy deleted for a discard or sweep that had still to write. */
  predicate Strands(p: Phone, e: Event, a: Action) {
    && a.photo.Some? && Enabled(p, e)
    && match e
       case Continue(i) =>
         && Missing(p, a) && !SentNow(p, a) && a !in OthersDisposal(p.ops, i)
         && (match OpWrite(p.ops[i])
             case NoWrite => false
             case QueueWrite(_, queue) => a in queue
             case RejectedWrite(_, rejected) =>
               || Holds(rejected, a)
               || (OpDisposes(p.ops[i], a) && (a in p.queue || Carried(p.ops, a) || InFlush(p.flush, a))))
       case Attempt(reply, _, _) =>
         var f := p.flush;
         && f.snapshot[f.at] == a && OutcomeOf(a, reply, p.files).Sent? && a !in UnderDisposal(p.ops)
         && (Holds(f.refused, a) || a in f.snapshot[f.at + 1..])
       case CommitQueue =>
         Missing(p, a) && SentNow(p, a) && a !in UnderDisposal(p.ops) && (Holds(p.rejected, a) || Carried(p.ops, a))
       case FileWrite => Missing(p, a) && Holds(p.flush.list + p.flush.refused, a) && a !in UnderDisposal(p.ops)
       case Crash =>
         Missing(p, a) && (SentNow(p, a) || a in UnderDisposal(p.ops)) && (a in p.queue || Holds(p.rejected, a))
       case _ => false
  }

  ghost predicate AllHaveCopies(p: Phone) {
    forall a :: HasCopy(p, a)
  }

  lemma HeldIsEnqueued(p: Phone, a: Action)
    requires Inv(p) && Held(p, a)
    ensures a in p.enqueued
  {
    if Holds(p.rejected, a) { var r :| r in p.rejected && r.item == a; assert EntryOk(p, r); }
    if Carried(p.ops, a) { var i :| 0 <= i < |p.ops| && Carries(p.ops[i], a); assert OpOk(p, p.ops[i]); }
    if Holds(Unfiled(p.flush), a) { var r :| r in Unfiled(p.flush) && r.item == a; assert EntryOk(p, r); }
  }

  lemma ContinueCopies(p: Phone, i: nat, a: Action)
    requires Inv(p) && HasCopy(p, a) && i < |p.ops|
    ensures HasCopy(Continued(p, i), a) <==> !Strands(p, Continue(i), a)
  {
    if p.ops[i].Discarding? || (p.ops[i].Sweeping? && p.ops[i].at < |p.ops[i].list|) {
      DeletingCopies(p, i, a);
    } else if p.ops[i].Adding? || p.ops[i].Retrying? || p.ops[i].Requeuing? {
      QueueingCopies(p, i, a);
    } else {
      TakingOutCopies(p, i, a);
    }
  }

  /** Deleting copies leaves none of the others without. */
  lemma DeletingCopies(p: Phone, i: nat, a: Action)
    requires Inv(p) && HasCopy(p, a) && i < |p.ops|
    requires p.ops[i].Discarding? || (p.ops[i].Sweeping? && p.ops[i].at < |p.ops[i].list|)
    ensures HasCopy(Continued(p, i), a)
  {
    var op, q := p.ops[i], Continued(p, i);
    assert OpOk(p, op);
    DisposalOfOps(p.ops, i, q.ops[i]);
    CarriedChanged(p.ops, i, q.ops[i], a);
    if op.Sweeping? {
      RetiredNext(op.list, op.now, op.at);
      assert EntryOk(p, op.list[op.at]);
    }
    if Held(q, a) {
      assert Held(p, a);
      HeldIsEnqueued(p, a);
    }
  }

  /** A write, of the queue by an addition or a retry... */
  lemma QueueingCopies(p: Phone, i: nat, a: Action)
    requires Inv(p) && HasCopy(p, a) && i < |p.ops|
    requires p.ops[i].Adding? || p.ops[i].Retrying? || p.ops[i].Requeuing?
    ensures HasCopy(Continued(p, i), a) <==> !Strands(p, Continue(i), a)
  {
    var op, q := p.ops[i], Continued(p, i);
    DisposalOfOps(p.ops, i, if |q.ops| == |p.ops| then q.ops[i] else op);
    CarriedWithout(p.ops, i, a);
    assert Carries(op, a) ==> Carried(p.ops, a);
    match op
    case Retrying(x, id, list) => CarriedChanged(p.ops, i, Requeuing(x, id, list, p.queue), a);
    case Requeuing(x, id, list, _) => CarriedChanged(p.ops, i, Clearing(x, id, list), a);
    case Adding(_, _) =>
  }

  /** ...or of the rejected store by what takes entries out. */
  lemma TakingOutCopies(p: Phone, i: nat, a: Action)
    requires Inv(p) && HasCopy(p, a) && i < |p.ops|
    requires p.ops[i].Clearing? || p.ops[i].Dropping? || (p.ops[i].Sweeping? && p.ops[i].at >= |p.ops[i].list|)
    ensures HasCopy(Continued(p, i), a) <==> !Strands(p, Continue(i), a)
  {
    var op, q := p.ops[i], Continued(p, i);
    assert OpOk(p, op);
    DisposalOfOps(p.ops, i, op);
    CarriedWithout(p.ops, i, a);
    OpWriteKeeps(p, i, a);
    assert q.ops == p.ops[..i] + p.ops[i + 1..] && q.files == p.files;
    if op.Sweeping? { assert op.list[..|op.list|] == op.list; }
    assert a in Deleted(op) <==> OpDisposes(op, a);
  }

  lemma AttemptCopies(p: Phone, reply: Reply, id: nat, now: int, a: Action)
    requires Inv(p) && HasCopy(p, a) && Enabled(p, Attempt(reply, id, now))
    ensures HasCopy(Next(p, Attempt(reply, id, now)), a) <==> !Strands(p, Attempt(reply, id, now), a)
  {
    AttemptIs(p, reply, id, now);
    var f, q := p.flush, Next(p, Attempt(reply, id, now));
    var x := f.snapshot[f.at];
    HoldsOfSum(f.refused, [Rejection(id, x, Some(now))], a);
    assert Holds([Rejection(id, x, Some(now))], a) <==> a == x by {
      if a == x { assert Rejection(id, x, Some(now)) in [Rejection(id, x, Some(now))]; }
    }
    assert f.snapshot[..f.at + 1] == f.snapshot[..f.at] + [x];
    assert x in p.enqueued;
    if Held(p, a) { HeldIsEnqueued(p, a); }
  }

  lemma StartCopies(p: Phone, e: Event, a: Action)
    requires Inv(p) && HasCopy(p, a) && Enabled(p, e) && (e.Add? || e.Retry? || e.Discard? || e.Sweep?)
    ensures HasCopy(Next(p, e), a)
  {
    var q := Next(p, e);
    var op := q.ops[|p.ops|];
    assert q.ops == p.ops + [op];
    CarriedWith(p.ops, op, a);
    if e.Retry? && op.item == a {
      FindIs(p.rejected, e.id);
      assert Holds(p.rejected, a);
    }
  }

  /** When every held action has its copy, a step leaves one without it exactly in
      these cases. */
  lemma CopyKeptExactly(p: Phone, e: Event, a: Action)
    requires Inv(p) && AllHaveCopies(p)
    ensures HasCopy(Next(p, e), a) <==> !Strands(p, e, a)
  {
    assert HasCopy(p, a);
    if Enabled(p, e) {
      match e
      case Continue(i) => ContinueCopies(p, i, a);
      case Attempt(reply, id, now) => AttemptCopies(p, reply, id, now, a);
      case Begin =>
      case CommitQueue =>
      case FileRead =>
      case FileWrite => HoldsOfSum(p.flush.list, p.flush.refused, a);
      case Crash =>
      case _ => StartCopies(p, e, a);
    }
  }

  // ----- a flush nothing comes between --------------------------------------------

  /** All attempts of the flush in progress, one straight after the other. */
  function AttemptAll(p: Phone, answer: nat -> Reply, stamp: nat, now: int): Phone
    requires p.flush.Sending? && p.flush.at <= |p.flush.snapshot|
    decreases |p.flush.snapshot| - p.flush.at, !p.flush.stopped
  {
    if p.flush.stopped || p.flush.at == |p.flush.snapshot| then p
    else AttemptAll(Attempted(p, answer(p.flush.at), stamp + p.flush.at, now), answer, stamp, now)
  }

  /** Ids are issued upwards from `stamp`. */
  predicate IssuedBelow(p: Phone, stamp: nat) {
    forall id :: id in p.issued ==> id < stamp
  }

  /** Each of them is an attempt of the protocol, under a new id. */
  lemma AttemptedIsAStep(p: Phone, answer: nat -> Reply, stamp: nat, now: int)
    requires p.flush.Sending? && p.flush.at < |p.flush.snapshot| && !p.flush.stopped
    requires IssuedBelow(p, stamp + p.flush.at)
    ensures var e, q := Attempt(answer(p.flush.at), stamp + p.flush.at, now),
              Attempted(p, answer(p.flush.at), stamp + p.flush.at, now);
            Enabled(p, e) && Next(p, e) == q && IssuedBelow(q, stamp + p.flush.at + 1)
  {
    AttemptIs(p, answer(p.flush.at), stamp + p.flush.at, now);
  }

  /** The flush of the module from where `p` is. */
  function Rest(p: Phone, answer: nat -> Reply, stamp: nat, now: int, sent: seq<Action>): Work
    requires p.flush.Sending? && p.flush.at <= |p.flush.snapshot|
  {
    Deliver(p.flush.snapshot, p.flush.at, answer, stamp, now, Work(p.files, sent, p.flush.refused, []))
  }

  lemma RestAfterAttempt(p: Phone, answer: nat -> Reply, stamp: nat, now: int, sent: seq<Action>)
    requires p.flush.Sending? && p.flush.at < |p.flush.snapshot| && !p.flush.stopped
    ensures var f, q := p.flush, Attempted(p, answer(p.flush.at), stamp + p.flush.at, now);
            var a := f.snapshot[f.at];
            && q.queue == p.queue && q.rejected == p.rejected && q.flush.Sending? && q.flush.snapshot == f.snapshot
            && (if OutcomeOf(a, answer(f.at), p.files).Stuck? then
                  && q.flush == f.(stopped := true) && q.files == p.files
                  && Rest(p, answer, stamp, now, sent) == Work(p.files, sent, f.refused, f.snapshot[f.at..])
                else
                  && q.flush.at == f.at + 1 && !q.flush.stopped
                  && Rest(p, answer, stamp, now, sent)
                     == Rest(q, answer, stamp, now,
                             if OutcomeOf(a, answer(f.at), p.files).Sent? then sent + [a] else sent))
  {
  }

  lemma {:induction false} AttemptsAreDeliver(p: Phone, answer: nat -> Reply, stamp: nat, now: int, sent: seq<Action>)
    requires p.flush.Sending? && p.flush.at <= |p.flush.snapshot| && !p.flush.stopped
    ensures var q, w := AttemptAll(p, answer, stamp, now), Rest(p, answer, stamp, now, sent);
            && q.flush.Sending? && q.flush.at <= |q.flush.snapshot|
                 && (q.flush.stopped || q.flush.at == |q.flush.snapshot|)
            && q.files == w.files && q.flush.refused == w.refused && Ahead(q.flush) == w.remaining
            && q.queue == p.queue && q.rejected == p.rejected
    decreases |p.flush.snapshot| - p.flush.at
  {
    var f := p.flush;
    if f.at < |f.snapshot| {
      var a := f.snapshot[f.at];
      var q := Attempted(p, answer(f.at), stamp + f.at, now);
      RestAfterAttempt(p, answer, stamp, now, sent);
      match OutcomeOf(a, answer(f.at), p.files)
      case Sent => AttemptsAreDeliver(q, answer, stamp, now, sent + [a]);
      case Refused => AttemptsAreDeliver(q, answer, stamp, now, sent);
      case Stuck =>
    }
  }

  /** Run without interruption, the steps of a flush are the flush of the module. */
  lemma UninterruptedFlush(p: Phone, answer: nat -> Reply, stamp: nat, now: int)
    requires Enabled(p, Begin)
    ensures var q := Next(Next(Next(AttemptAll(Next(p, Begin), answer, stamp, now), CommitQueue), FileRead), FileWrite);
            var w := Flush(p.queue, p.files, answer, stamp, now);
            q.flush.Idle? && q.queue == w.remaining && q.rejected == p.rejected + w.refused && q.files == w.files
  {
    AttemptsAreDeliver(Next(p, Begin), answer, stamp, now, []);
  }
}
