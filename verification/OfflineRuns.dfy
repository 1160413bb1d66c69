/** Runs of the offline queue that lose an action, lose its photo, or bring it
    back. */
module OfflineRuns {
  import opened Prelude
  import opened OfflineQueue
  import opened OfflineLedger

  lemma Then(es: seq<Event>, e: Event) returns (fs: seq<Event>)
    ensures fs == es + [e] && Run(fs) == Next(Run(es), e)
  {
    fs := es + [e];
    assert fs[..|es|] == es;
  }

  function Refusal(a: Action, id: nat): Rejection {
    Rejection(id, a, Some(0))
  }

  /** What is stored and what has vanished, with nothing under way. */
  datatype Ending = Ending(queue: seq<Action>, rejected: seq<Rejection>, files: set<Copy>, vanished: set<Action>)

  /** How a run ends; None while something is under way. */
  function EndOf(es: seq<Event>): Option<Ending> {
    var p := Run(es);
    if p.ops == [] && p.flush.Idle? then Some(Ending(p.queue, p.rejected, p.files, Vanished(p))) else None
  }

  lemma Ends(es: seq<Event>, e: Ending)
    requires Run(es).ops == [] && Run(es).flush.Idle? && Run(es).queue == e.queue && Run(es).rejected == e.rejected
    requires Run(es).files == e.files && Vanished(Run(es)) == e.vanished
    ensures EndOf(es) == Some(e)
  {
  }

  /** `a` is queued, with nothing coming between. */
  lemma WhenQueued(es: seq<Event>, a: Action) returns (fs: seq<Event>)
    requires Run(es).ops == [] && Enabled(Run(es), Add(a))
    ensures var p := Run(es);
            Run(fs) == p.(queue := p.queue + [a], files := p.files + PhotoOf(a), enqueued := p.enqueued + {a})
  {
    fs := Then(es, Add(a));
    fs := Then(fs, Continue(0));
  }

  /** A flush of `a` alone, which the server takes, up to writing the queue back. */
  lemma WhenSent(es: seq<Event>, a: Action) returns (fs: seq<Event>)
    requires var p := Run(es);
             p.flush.Idle? && p.queue == [a] && PhotoOf(a) <= p.files && exists id: nat :: id !in p.issued
    ensures var p := Run(es);
            Run(fs) == p.(flush := Sending([a], 1, [], false), acked := p.acked + {a}, files := p.files - PhotoOf(a))
  {
    var p := Run(es);
    var id: nat :| id !in p.issued;
    fs := Then(es, Begin);
    AttemptIs(Run(fs), Accepted(true), id, 0);
    fs := Then(fs, Attempt(Accepted(true), id, 0));
  }

  /** A flush of `a` alone, which the server refuses, up to writing the queue back. */
  lemma WhenRefused(es: seq<Event>, a: Action, id: nat) returns (fs: seq<Event>)
    requires var p := Run(es); p.flush.Idle? && p.queue == [a] && id !in p.issued
    ensures var p := Run(es);
            Run(fs) == p.(flush := Sending([a], 1, [Refusal(a, id)], false), issued := p.issued[id := a])
  {
    var p := Run(es);
    fs := Then(es, Begin);
    assert OutcomeOf(a, Failed(Some(409)), p.files).Refused? && [] + [Refusal(a, id)] == [Refusal(a, id)];
    AttemptIs(Run(fs), Failed(Some(409)), id, 0);
    fs := Then(fs, Attempt(Failed(Some(409)), id, 0));
  }

  /** A flush that has dealt with everything writes the queue back, reads the
      rejected store and adds to it. */
  lemma WhenCommitted(es: seq<Event>) returns (fs: seq<Event>)
    requires var f := Run(es).flush; f.Sending? && f.at == |f.snapshot|
    ensures var p := Run(es);
            Run(fs) == p.(queue := [], flush := if p.flush.refused == [] then Idle else Filing(p.flush.refused))
  {
    fs := Then(es, CommitQueue);
  }

  lemma WhenReadToFile(es: seq<Event>) returns (fs: seq<Event>)
    requires Run(es).flush.Filing?
    ensures var p := Run(es); Run(fs) == p.(flush := Appending(p.flush.refused, p.rejected))
  {
    fs := Then(es, FileRead);
  }

  lemma WhenWritten(es: seq<Event>) returns (fs: seq<Event>)
    requires Run(es).flush.Appending?
    ensures var p := Run(es); Run(fs) == p.(rejected := p.flush.list + p.flush.refused, flush := Idle)
  {
    fs := Then(es, FileWrite);
  }

  lemma WhenContinued(es: seq<Event>) returns (fs: seq<Event>)
    requires |Run(es).ops| == 1
    ensures es <= fs && Run(fs) == Continued(Run(es), 0)
  {
    fs := Then(es, Continue(0));
  }

  lemma WhenAdding(es: seq<Event>, a: Action) returns (fs: seq<Event>)
    requires Enabled(Run(es), Add(a)) && Run(es).ops == []
    ensures var p := Run(es);
            Run(fs) == p.(ops := [Adding(a, p.queue)], files := p.files + PhotoOf(a), enqueued := p.enqueued + {a})
  {
    fs := Then(es, Add(a));
  }

  lemma WhenDiscarding(es: seq<Event>, a: Action, id: nat) returns (fs: seq<Event>)
    requires Run(es).rejected == [Refusal(a, id)] && Run(es).ops == []
    ensures var p := Run(es); Run(fs) == p.(ops := [Discarding(a, id, p.rejected)])
  {
    fs := Then(es, Discard(id));
  }

  /** A discard that has read its entry deletes the photo and takes the entry out. */
  lemma WhenDiscarded(es: seq<Event>, a: Action) returns (fs: seq<Event>)
    requires |Run(es).ops| == 1 && Run(es).ops[0].Discarding? && Run(es).ops[0].item == a
    ensures var p := Run(es);
            Run(fs) == p.(ops := [], files := p.files - PhotoOf(a), discarded := p.discarded + {a},
                          rejected := Without(p.ops[0].list, p.ops[0].id))
  {
    fs := WhenContinued(es);
    fs := WhenContinued(fs);
  }

  /** The four calls of a retry with nothing between them. */
  lemma WhenRetried(es: seq<Event>, a: Action, id: nat) returns (fs: seq<Event>)
    requires Run(es).rejected == [Refusal(a, id)] && Run(es).ops == []
    ensures es <= fs
    ensures var p := Run(es); Run(fs) == p.(queue := p.queue + [a], rejected := [])
  {
    OnlyEntry(a, id);
    fs := Then(es, Retry(id));
    assert Run(fs) == Run(es).(ops := [Retrying(a, id, Run(es).rejected)]);
    fs := WhenContinued(fs);
    fs := WhenContinued(fs);
    fs := WhenContinued(fs);
  }

  /** The whole of that flush. */
  lemma WhenFiled(es: seq<Event>, a: Action, id: nat) returns (fs: seq<Event>)
    requires var p := Run(es); p.flush.Idle? && p.queue == [a] && id !in p.issued
    ensures var p := Run(es);
            Run(fs) == p.(queue := [], rejected := p.rejected + [Refusal(a, id)], issued := p.issued[id := a])
  {
    fs := WhenRefused(es, a, id);
    fs := WhenCommitted(fs);
    fs := WhenReadToFile(fs);
    fs := WhenWritten(fs);
  }

  lemma OnlyEntry(a: Action, id: nat)
    ensures Find([Refusal(a, id)], id) == Some(Refusal(a, id)) && Without([Refusal(a, id)], id) == []
  {
  }

  /** `r` filed, and `x` refused by a flush that has read the list to file it in. */
  lemma FilingBesideAnEntry(r: Action, x: Action) returns (es: seq<Event>)
    requires DifferentActions({r, x}) && r != x
    ensures Run(es) == Phone([], [Refusal(r, 0)], PhotoOf(r) + PhotoOf(x),
                             Appending([Refusal(x, 1)], [Refusal(r, 0)]), [],
                             {r, x}, {}, {}, {}, {}, map[0 := r, 1 := x])
  {
    es := WhenQueued([], r);
    es := WhenFiled(es, r, 0);
    var p := Phone([], [Refusal(r, 0)], PhotoOf(r), Idle, [], {r}, {}, {}, {}, {}, map[0 := r]);
    assert Run(es) == p;
    es := WhenQueued(es, x);
    assert Run(es) == p.(queue := [x], files := PhotoOf(r) + PhotoOf(x), enqueued := {r, x});
    es := WhenRefused(es, x, 1);
    assert Run(es).issued == map[0 := r, 1 := x];
    es := WhenCommitted(es);
    es := WhenReadToFile(es);
  }

  /** The driver discards an entry while a flush files a refusal: both have read
      the same list, and the later write decides.  If it is the driver's, the
      refusal is lost. */
  lemma DiscardWhileFilingLosesTheRefusal(r: Action, x: Action) returns (es: seq<Event>)
    requires DifferentActions({r, x}) && r != x
    ensures EndOf(es) == Some(Ending([], [], (PhotoOf(r) + PhotoOf(x)) - PhotoOf(r), {x})) && r in Run(es).discarded
  {
    es := FilingBesideAnEntry(r, x);
    var p := Run(es);
    OnlyEntry(r, 0);
    es := WhenDiscarding(es, r, 0);
    es := WhenWritten(es);
    es := WhenDiscarded(es, r);
    assert Run(es) == p.(rejected := [], flush := Idle, files := p.files - PhotoOf(r), discarded := {r});
    assert Gone(Run(es), x) && !Outstanding(Run(es), r);
    Ends(es, Ending([], [], (PhotoOf(r) + PhotoOf(x)) - PhotoOf(r), {x}));
  }

  /** If it is the flush's, the discarded entry comes back without its photo. */
  lemma FilingAfterADiscardRevivesIt(r: Action, x: Action) returns (es: seq<Event>)
    requires DifferentActions({r, x}) && r != x && r.photo.Some?
    ensures EndOf(es) == Some(Ending([], [Refusal(r, 0), Refusal(x, 1)], PhotoOf(x), {})) && r in Run(es).discarded
  {
    es := FilingBesideAnEntry(r, x);
    OnlyEntry(r, 0);
    es := WhenDiscarding(es, r, 0);
    es := WhenDiscarded(es, r);
    es := WhenWritten(es);
    assert Run(es).files == PhotoOf(x);
    assert Vanished(Run(es)) == {} by { AllHeldOrDiscarded(es, r, x); }
    Ends(es, Ending([], [Refusal(r, 0), Refusal(x, 1)], PhotoOf(x), {}));
  }

  lemma AllHeldOrDiscarded(es: seq<Event>, r: Action, x: Action)
    requires Run(es).enqueued == {r, x} && r in Run(es).discarded && Refusal(x, 1) in Run(es).rejected
    ensures Vanished(Run(es)) == {}
  {
    assert Holds(Run(es).rejected, x);
  }

  /** The process ends after a discard deleted the photo and before it took the entry
      out: the entry is still there, and retrying it queues an action without its
      copy, which by `MissingPhotoBlocksForEver` then holds up everything behind
      it. */
  lemma CrashStrandsTheDiscarded(r: Action) returns (es: seq<Event>, fs: seq<Event>)
    requires r.photo.Some?
    ensures EndOf(es) == Some(Ending([], [Refusal(r, 0)], {}, {}))
    ensures EndOf(fs) == Some(Ending([r], [], {}, {})) && es <= fs && r !in Run(fs).acked
  {
    es := WhenQueued([], r);
    es := WhenFiled(es, r, 0);
    es := WhenDiscarding(es, r, 0);
    es := WhenContinued(es);
    es := Then(es, Crash);
    assert Run(es).files == {} && Refusal(r, 0) in Run(es).rejected && Holds(Run(es).rejected, r);
    fs := WhenRetried(es, r, 0);
    Ends(es, Ending([], [Refusal(r, 0)], {}, {}));
    Ends(fs, Ending([r], [], {}, {}));
  }

  /** An action added over a queue the flush has not written back yet brings back
      the one it has just sent, without its copy.  By `MissingPhotoBlocksForEver`
      that one then holds up everything behind it. */
  lemma LateAddRevivesTheSent(x: Action, late: Action) returns (es: seq<Event>)
    requires DifferentActions({x, late}) && x != late && x.photo.Some?
    ensures EndOf(es) == Some(Ending([x, late], [], PhotoOf(late), {})) && x in Run(es).acked
  {
    es := WhenQueued([], x);
    assert 0 !in Run(es).issued;
    es := WhenSent(es, x);
    es := WhenAdding(es, late);
    es := WhenCommitted(es);
    es := WhenContinued(es);
    Ends(es, Ending([x, late], [], PhotoOf(late), {}));
  }

  /** Had it been refused instead, it is queued and rejected at once. */
  lemma LateAddRequeuesTheRefused(x: Action, late: Action) returns (es: seq<Event>)
    requires DifferentActions({x, late}) && x != late
    ensures EndOf(es) == Some(Ending([x, late], [Refusal(x, 0)], PhotoOf(x) + PhotoOf(late), {}))
  {
    es := WhenQueued([], x);
    es := WhenRefused(es, x, 0);
    es := WhenAdding(es, late);
    es := WhenCommitted(es);
    es := WhenReadToFile(es);
    es := WhenWritten(es);
    es := WhenContinued(es);
    Ends(es, Ending([x, late], [Refusal(x, 0)], PhotoOf(x) + PhotoOf(late), {}));
  }

  /** An action queued while a flush is waiting for the server is overwritten. */
  lemma EnqueueDuringFlushIsLost(a: Action, b: Action) returns (es: seq<Event>)
    requires DifferentActions({a, b}) && a != b
    ensures EndOf(es) == Some(Ending([], [], PhotoOf(b), {b}))
  {
    es := WhenQueued([], a);
    assert 0 !in Run(es).issued;
    es := WhenSent(es, a);
    es := WhenQueued(es, b);
    es := WhenCommitted(es);
    assert Gone(Run(es), b) && !Outstanding(Run(es), a);
    Ends(es, Ending([], [], PhotoOf(b), {b}));
  }

  /** A refusal the driver retries while a flush is sending is overwritten too. */
  lemma RetryDuringFlushIsLost(a: Action, b: Action) returns (es: seq<Event>)
    requires DifferentActions({a, b}) && a != b
    ensures EndOf(es) == Some(Ending([], [], PhotoOf(a), {a}))
  {
    es := WhenQueued([], a);
    es := WhenFiled(es, a, 0);
    assert Run(es) == Phone([], [Refusal(a, 0)], PhotoOf(a), Idle, [], {a}, {}, {}, {}, {}, map[0 := a]);
    es := WhenQueued(es, b);
    assert 1 !in Run(es).issued;
    es := WhenSent(es, b);
    var p := Phone([b], [Refusal(a, 0)], Run(es).files, Sending([b], 1, [], false), [], {a, b}, {b}, {}, {}, {},
                   map[0 := a]);
    assert Run(es) == p;
    es := WhenRetried(es, a, 0);
    es := WhenCommitted(es);
    assert Run(es) == p.(queue := [], rejected := [], flush := Idle);
    assert Gone(Run(es), a) && !Outstanding(Run(es), b);
    Ends(es, Ending([], [], PhotoOf(a), {a}));
  }

  /** A refusal is dropped when the process ends between the two writes. */
  lemma CrashBetweenWritesLosesRefusal(a: Action) returns (es: seq<Event>)
    ensures EndOf(es) == Some(Ending([], [], PhotoOf(a), {a}))
  {
    es := WhenQueued([], a);
    es := WhenRefused(es, a, 0);
    es := WhenCommitted(es);
    es := Then(es, Crash);
    assert Gone(Run(es), a);
    Ends(es, Ending([], [], PhotoOf(a), {a}));
  }

  /** The process ends after an upload and before the queue is written back: the
      action comes back without its copy. */
  lemma CrashStrandsTheUpload(a: Action) returns (es: seq<Event>)
    requires a.photo.Some?
    ensures EndOf(es) == Some(Ending([a], [], {}, {})) && a in Run(es).acked
  {
    es := WhenQueued([], a);
    assert 0 !in Run(es).issued;
    es := WhenSent(es, a);
    es := Then(es, Crash);
    Ends(es, Ending([a], [], {}, {}));
  }
}
