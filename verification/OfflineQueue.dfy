/** The driver app's offline queue: actions waiting for a signal, the ones the
    server refused outright, and the photo copies both hold on disk. */
module OfflineQueue {
  import opened Prelude

  /** A photo kept on disk: what kind it is, when it was copied and the name it
      came with. */
  datatype Copy = Copy(incident: bool, at: nat, name: string)

  /** A queued action.  `ticket` tells two equal requests apart; `photo` is the
      persisted copy it owns, if it carries one. */
  datatype Action = Action(ticket: nat, photo: Option<Copy>)

  /** An action the server refused.  `at` is None when the stored date does not
      parse. */
  datatype Rejection = Rejection(id: nat, item: Action, at: Option<int>)

  /** What became of one request: taken by the server, in which case deleting
      the uploaded copy may still throw, or failed with or without a status. */
  datatype Reply = Accepted(deletes: bool) | Failed(status: Option<int>)

  const RETENTION_MS: int := 14 * 24 * 60 * 60 * 1000

  /** Whether asking again could ever produce a different answer. */
  predicate Retryable(status: Option<int>) {
    status.None? || status.value == 408 || status.value == 429 || status.value >= 500 || status.value == 0
  }

  /** Sent: taken and cleaned up.  Refused: never to be tried again.  Stuck: the
      failure stops the flush, whether the server failed or the clean-up after a
      successful upload did. */
  datatype Outcome = Sent | Refused | Stuck

  function OutcomeOf(a: Action, r: Reply, files: set<Copy>): Outcome {
    match r
    case Accepted(deletes) => if a.photo.None? || (deletes && a.photo.value in files) then Sent else Stuck
    case Failed(status) => if Retryable(status) then Stuck else Refused
  }

  function PhotoOf(a: Action): set<Copy> {
    if a.photo.Some? then {a.photo.value} else {}
  }

  /** The working state of one flush. */
  datatype Work = Work(files: set<Copy>, sent: seq<Action>, refused: seq<Rejection>, remaining: seq<Action>)

  /** One flush from position `from` on. */
  function Deliver(queue: seq<Action>, from: nat, answer: nat -> Reply, stamp: nat, now: int, w: Work): Work
    requires from <= |queue|
    decreases |queue| - from
  {
    if from == |queue| then w.(remaining := [])
    else
      var a := queue[from];
      match OutcomeOf(a, answer(from), w.files)
      case Sent => Deliver(queue, from + 1, answer, stamp, now, w.(files := w.files - PhotoOf(a), sent := w.sent + [a]))
      case Refused =>
        Deliver(queue, from + 1, answer, stamp, now, w.(refused := w.refused + [Rejection(stamp + from, a, Some(now))]))
      case Stuck => w.(remaining := queue[from..])
  }

  function Flush(queue: seq<Action>, files: set<Copy>, answer: nat -> Reply, stamp: nat, now: int): Work {
    Deliver(queue, 0, answer, stamp, now, Work(files, [], [], []))
  }

  function Find(list: seq<Rejection>, id: nat): Option<Rejection> {
    if list == [] then None else if list[0].id == id then Some(list[0]) else Find(list[1..], id)
  }

  function Without(list: seq<Rejection>, id: nat): seq<Rejection> {
    if list == [] then []
    else Without(list[..|list| - 1], id) + (if list[|list| - 1].id != id then [list[|list| - 1]] else [])
  }

  predicate Aged(r: Rejection, now: int) {
    r.at.Some? && now - r.at.value > RETENTION_MS
  }

  function Kept(list: seq<Rejection>, now: int): seq<Rejection> {
    if list == [] then []
    else Kept(list[..|list| - 1], now) + (if Aged(list[|list| - 1], now) then [] else [list[|list| - 1]])
  }

  function AgedPhotos(list: seq<Rejection>, now: int): set<Copy> {
    if list == [] then {}
    else
      AgedPhotos(list[..|list| - 1], now)
      + (if Aged(list[|list| - 1], now) then PhotoOf(list[|list| - 1].item) else {})
  }

  function Items(list: seq<Rejection>): seq<Action> {
    seq(|list|, i requires 0 <= i < |list| => list[i].item)
  }

  // ----- where a copy is kept -------------------------------------------------

  function Digit(n: nat): char
    requires n < 10
  {
    '0' + n as char
  }

  function Decimal(n: nat): (s: string)
    ensures s != []
  {
    if n < 10 then [Digit(n)] else Decimal(n / 10) + [Digit(n % 10)]
  }

  function Folder(incident: bool): string {
    if incident then "pending-incident-photos/" else "pending-delivery-photos/"
  }

  /** The file a copy is written to. */
  function Path(c: Copy): string {
    Folder(c.incident) + (Decimal(c.at) + (['-'] + c.name))
  }

  lemma {:induction false} DigitsOnly(n: nat, i: nat)
    requires i < |Decimal(n)|
    ensures Decimal(n)[i] != '-'
  {
    if n >= 10 && i < |Decimal(n / 10)| { DigitsOnly(n / 10, i); }
  }

  lemma {:induction false} DecimalsDiffer(m: nat, n: nat)
    requires Decimal(m) == Decimal(n)
    ensures m == n
  {
    var a, b := Decimal(m), Decimal(n);
    if m >= 10 && n >= 10 {
      assert Decimal(m / 10) == a[..|a| - 1] && Decimal(n / 10) == b[..|b| - 1];
      DecimalsDiffer(m / 10, n / 10);
      assert a[|a| - 1] == b[|b| - 1];
    } else if m < 10 && n < 10 {
      assert a[0] == b[0];
    }
  }

  /** Two copies share a file exactly when they are of one kind and name and were
      made in the same millisecond. */
  lemma CopiesShareAFileExactly(c: Copy, d: Copy)
    ensures Path(c) == Path(d) <==> c == d
  {
    if Path(c) == Path(d) {
      var p, q := Path(c), Path(d);
      var n := |Folder(c.incident)|;
      assert n == |Folder(d.incident)|;
      assert p[8] == Folder(c.incident)[8] && q[8] == Folder(d.incident)[8];
      var s, t := p[n..], q[n..];
      assert s == Decimal(c.at) + (['-'] + c.name) && t == Decimal(d.at) + (['-'] + d.name);
      SameFirstDash(c.at, d.at, s, t, c.name, d.name);
      DecimalsDiffer(c.at, d.at);
    }
  }

  lemma SameFirstDash(m: nat, n: nat, s: string, t: string, a: string, b: string)
    requires s == Decimal(m) + (['-'] + a) && t == Decimal(n) + (['-'] + b) && s == t
    ensures Decimal(m) == Decimal(n) && a == b
  {
    var i, j := |Decimal(m)|, |Decimal(n)|;
    assert s[i] == '-' && t[j] == '-';
    if i < j { DigitsOnly(n, i); }
    if j < i { DigitsOnly(m, j); }
    assert Decimal(m) == s[..i] && Decimal(n) == t[..j];
    assert a == s[i + 1..] && b == t[j + 1..];
  }

  // ----- the module as the app calls it --------------------------------------

  datatype FlushResult = FlushResult(flushed: nat, remaining: nat, rejected: seq<Rejection>)

  class Store {
    var queue: seq<Action>
    var rejected: seq<Rejection>
    var files: set<Copy>
    var isFlushing: bool

    constructor ()
      ensures queue == [] && rejected == [] && files == {} && !isFlushing
    {
      queue, rejected, files, isFlushing := [], [], {}, false;
    }

    // persistDeliveryPhotoForQueue and persistIncidentPhotoForQueue
    method PersistPhoto(incident: bool, now: nat, name: string) returns (path: string)
      modifies `files
      ensures files == old(files) + {Copy(incident, now, name)} && path == Path(Copy(incident, now, name))
    {
      var destination := Copy(incident, now, name);
      files := files + {destination};
      path := Path(destination);
    }

    method EnqueueOfflineAction(a: Action) returns (count: nat)
      modifies `queue
      ensures queue == old(queue) + [a] && count == |queue|
    {
      queue := queue + [a];
      count := |queue|;
    }

    method FindRejected(id: nat) returns (entry: Option<Rejection>)
      ensures entry == Find(rejected, id)
    {
      for i := 0 to |rejected|
        invariant Find(rejected, id) == Find(rejected[i..], id)
      {
        if rejected[i].id == id { return Some(rejected[i]); }
        assert rejected[i..][1..] == rejected[i + 1..];
      }
      return None;
    }

    method FilterRejected(id: nat) returns (kept: seq<Rejection>)
      ensures kept == Without(rejected, id)
    {
      kept := [];
      for i := 0 to |rejected|
        invariant kept == Without(rejected[..i], id)
      {
        assert rejected[..i + 1][..i] == rejected[..i];
        if rejected[i].id != id { kept := kept + [rejected[i]]; }
      }
      assert rejected[..|rejected|] == rejected;
    }

    method RetryRejectedAction(id: nat) returns (found: bool)
      modifies `queue, `rejected
      ensures found == Find(old(rejected), id).Some?
      ensures queue == if found then old(queue) + [Find(old(rejected), id).value.item] else old(queue)
      ensures rejected == if found then Without(old(rejected), id) else old(rejected)
    {
      var entry := FindRejected(id);
      if entry.None? { return false; }
      queue := queue + [entry.value.item];
      rejected := FilterRejected(id);
      return true;
    }

    method DiscardRejectedAction(id: nat) returns (found: bool)
      modifies `rejected, `files
      ensures found == Find(old(rejected), id).Some?
      ensures rejected == if found then Without(old(rejected), id) else old(rejected)
      ensures files == if found then old(files) - PhotoOf(Find(old(rejected), id).value.item) else old(files)
    {
      var entry := FindRejected(id);
      if entry.None? { return false; }
      if entry.value.item.photo.Some? { files := files - {entry.value.item.photo.value}; }
      rejected := FilterRejected(id);
      return true;
    }

    method SweepAgedRejections(now: int) returns (swept: nat)
      modifies `rejected, `files
      ensures rejected == Kept(old(rejected), now)
      ensures files == old(files) - AgedPhotos(old(rejected), now)
      ensures swept == |old(rejected)| - |rejected|
    {
      if |rejected| == 0 { return 0; }
      var kept := [];
      swept := 0;
      for i := 0 to |rejected|
        invariant rejected == old(rejected)
        invariant kept == Kept(rejected[..i], now) && swept + |kept| == i
        invariant files == old(files) - AgedPhotos(rejected[..i], now)
      {
        assert rejected[..i + 1][..i] == rejected[..i];
        var entry := rejected[i];
        if entry.at.Some? && now - entry.at.value > RETENTION_MS {
          if entry.item.photo.Some? { files := files - {entry.item.photo.value}; }
          swept := swept + 1;
        } else {
          kept := kept + [entry];
        }
      }
      assert rejected[..|rejected|] == rejected;
      if swept > 0 { rejected := kept; }
      else { NothingSwept(rejected, now); }
    }

    method FlushOfflineQueue(answer: nat -> Reply, stamp: nat, now: int) returns (result: FlushResult)
      modifies this
      ensures isFlushing == old(isFlushing)
      ensures old(isFlushing) ==>
                queue == old(queue) && rejected == old(rejected) && files == old(files)
                && result == FlushResult(0, |queue|, [])
      ensures !old(isFlushing) ==>
                var w := Flush(old(queue), old(files), answer, stamp, now);
                && queue == w.remaining && rejected == old(rejected) + w.refused && files == w.files
                && result == FlushResult(|w.sent|, |w.remaining|, w.refused)
    {
      if isFlushing { return FlushResult(0, |queue|, []); }
      isFlushing := true;
      var snapshot := queue;
      if |snapshot| == 0 {
        isFlushing := false;
        return FlushResult(0, 0, []);
      }
      var remaining: seq<Action> := [];
      var refused: seq<Rejection> := [];
      var flushed := 0;
      ghost var sent: seq<Action> := [];
      var index := 0;
      while index < |snapshot|
        invariant index <= |snapshot| && queue == old(queue) && rejected == old(rejected) && isFlushing
        invariant remaining == [] && flushed == |sent|
        invariant Flush(snapshot, old(files), answer, stamp, now)
                  == Deliver(snapshot, index, answer, stamp, now, Work(files, sent, refused, []))
      {
        var item := snapshot[index];
        ghost var before := files;
        ghost var outcome := OutcomeOf(item, answer(index), files);
        var reply := answer(index);
        var failure: Option<Option<int>> := None;
        if reply.Failed? {
          failure := Some(reply.status);
        } else if item.photo.Some? {
          if reply.deletes && item.photo.value in files {
            files := files - {item.photo.value};
          } else {
            // The clean-up throws, and what it throws carries no status.
            failure := Some(None);
          }
        }
        assert files == if outcome.Sent? then before - PhotoOf(item) else before;
        if failure.None? {
          flushed := flushed + 1;
          sent := sent + [item];
        } else if Retryable(failure.value) {
          remaining := snapshot[index..];
          break;
        } else {
          refused := refused + [Rejection(stamp + index, item, Some(now))];
        }
        index := index + 1;
      }
      queue := remaining;
      if |refused| > 0 { rejected := rejected + refused; }
      isFlushing := false;
      return FlushResult(flushed, |remaining|, refused);
    }
  }

  lemma {:induction false} NothingSwept(list: seq<Rejection>, now: int)
    requires |Kept(list, now)| == |list|
    ensures Kept(list, now) == list && AgedPhotos(list, now) == {}
  {
    if list != [] {
      KeptIsShorter(list[..|list| - 1], now);
      NothingSwept(list[..|list| - 1], now);
    }
  }

  lemma {:induction false} KeptIsShorter(list: seq<Rejection>, now: int)
    ensures |Kept(list, now)| <= |list|
  {
    if list != [] { KeptIsShorter(list[..|list| - 1], now); }
  }

  /** What a sweep keeps: every entry filed no more than fourteen days ago, or on a
      date that cannot be read. */
  lemma {:induction false} SweepKeepsExactly(list: seq<Rejection>, now: int)
    ensures forall r :: r in Kept(list, now) <==> r in list && (r.at == None || now - r.at.value <= 1_209_600_000)
    ensures forall f :: f in AgedPhotos(list, now) <==>
              exists r :: r in list && r.item.photo == Some(f) && r.at != None && now - r.at.value > 1_209_600_000
  {
    if list != [] {
      var init, last := list[..|list| - 1], list[|list| - 1];
      SweepKeepsExactly(init, now);
      assert list == init + [last] && last in list;
      forall f | f in AgedPhotos(list, now)
        ensures exists r :: r in list && r.item.photo == Some(f) && r.at != None && now - r.at.value > 1_209_600_000
      {
        if f in AgedPhotos(init, now) {
          var r :| r in init && r.item.photo == Some(f) && r.at != None && now - r.at.value > 1_209_600_000;
          assert r in list;
        }
      }
    }
  }

  // ----- what a flush does to the queue ---------------------------------------

  predicate OwnPhotos(queue: seq<Action>) {
    forall i, j :: 0 <= i < j < |queue| && queue[i].photo.Some? ==> queue[i].photo != queue[j].photo
  }

  /** The first position whose attempt gets stuck, judged by the files there were
      when the flush began. */
  function FirstStuck(queue: seq<Action>, from: nat, answer: nat -> Reply, files: set<Copy>): (k: nat)
    requires from <= |queue|
    ensures from <= k <= |queue|
    ensures forall i :: from <= i < k ==> !OutcomeOf(queue[i], answer(i), files).Stuck?
    ensures k < |queue| ==> OutcomeOf(queue[k], answer(k), files).Stuck?
    decreases |queue| - from
  {
    if from == |queue| || OutcomeOf(queue[from], answer(from), files).Stuck? then from
    else FirstStuck(queue, from + 1, answer, files)
  }

  /** The actions in positions [from, end) with outcome `o`, in queue order. */
  function Among(queue: seq<Action>, from: nat, end: nat, answer: nat -> Reply, files: set<Copy>,
                 o: Outcome): seq<Action>
    requires from <= end <= |queue|
    decreases end - from
  {
    if from == end then []
    else
      (if OutcomeOf(queue[from], answer(from), files) == o then [queue[from]] else [])
      + Among(queue, from + 1, end, answer, files, o)
  }

  lemma AmongOneMore(queue: seq<Action>, from: nat, end: nat, answer: nat -> Reply, files: set<Copy>)
    requires from < end <= |queue|
    ensures forall o :: Among(queue, from, end, answer, files, o)
                        == (if OutcomeOf(queue[from], answer(from), files) == o then [queue[from]] else [])
                           + Among(queue, from + 1, end, answer, files, o)
  {
  }

  /** The copies that the actions from `from` on had are still there. */
  predicate StillThere(queue: seq<Action>, from: nat, now: set<Copy>, files: set<Copy>) {
    now <= files && forall i :: from <= i < |queue| && queue[i].photo.Some? && queue[i].photo.value in files ==>
                      queue[i].photo.value in now
  }

  lemma StillThereAfter(queue: seq<Action>, from: nat, now: set<Copy>, files: set<Copy>)
    requires from < |queue| && OwnPhotos(queue) && StillThere(queue, from, now, files)
    ensures StillThere(queue, from + 1, now, files) && StillThere(queue, from + 1, now - PhotoOf(queue[from]), files)
  {
  }

  /** What a flush comes to, by what each action comes to at the start. */
  predicate IsPrefix(r: Work, queue: seq<Action>, from: nat, answer: nat -> Reply, w: Work, files: set<Copy>)
    requires from <= |queue|
  {
    var k := FirstStuck(queue, from, answer, files);
    && r.remaining == queue[k..]
    && r.sent == w.sent + Among(queue, from, k, answer, files, Sent)
    && Items(r.refused) == Items(w.refused) + Among(queue, from, k, answer, files, Refused)
  }

  lemma PrefixAfterSent(r: Work, queue: seq<Action>, from: nat, answer: nat -> Reply, w: Work, v: Work,
                        files: set<Copy>)
    requires from < |queue| && OutcomeOf(queue[from], answer(from), files) == Sent
    requires v.sent == w.sent + [queue[from]] && v.refused == w.refused
    requires IsPrefix(r, queue, from + 1, answer, v, files)
    ensures IsPrefix(r, queue, from, answer, w, files)
  {
    AmongOneMore(queue, from, FirstStuck(queue, from, answer, files), answer, files);
  }

  lemma PrefixAfterRefused(r: Work, queue: seq<Action>, from: nat, answer: nat -> Reply, w: Work, v: Work,
                           x: Rejection, files: set<Copy>)
    requires from < |queue| && OutcomeOf(queue[from], answer(from), files) == Refused && x.item == queue[from]
    requires v.sent == w.sent && v.refused == w.refused + [x]
    requires IsPrefix(r, queue, from + 1, answer, v, files)
    ensures IsPrefix(r, queue, from, answer, w, files)
  {
    AmongOneMore(queue, from, FirstStuck(queue, from, answer, files), answer, files);
    assert Items(w.refused + [x]) == Items(w.refused) + [queue[from]];
  }

  lemma {:induction false} DeliverIsPrefix(queue: seq<Action>, from: nat, answer: nat -> Reply, stamp: nat, now: int,
                                           w: Work, files: set<Copy>)
    requires from <= |queue| && OwnPhotos(queue) && StillThere(queue, from, w.files, files)
    ensures IsPrefix(Deliver(queue, from, answer, stamp, now, w), queue, from, answer, w, files)
    decreases |queue| - from
  {
    if from < |queue| {
      var a := queue[from];
      var r := Deliver(queue, from, answer, stamp, now, w);
      StillThereAfter(queue, from, w.files, files);
      assert OutcomeOf(a, answer(from), w.files) == OutcomeOf(a, answer(from), files);
      match OutcomeOf(a, answer(from), files)
      case Sent =>
        var v := w.(files := w.files - PhotoOf(a), sent := w.sent + [a]);
        DeliverIsPrefix(queue, from + 1, answer, stamp, now, v, files);
        PrefixAfterSent(r, queue, from, answer, w, v, files);
      case Refused =>
        var x := Rejection(stamp + from, a, Some(now));
        var v := w.(refused := w.refused + [x]);
        DeliverIsPrefix(queue, from + 1, answer, stamp, now, v, files);
        PrefixAfterRefused(r, queue, from, answer, w, v, x, files);
      case Stuck =>
    }
  }

  /** A flush attempts the queue in order up to the first retryable failure.
      What is left is exactly the queue from there on; what came before was sent
      or refused, each in its own order, and a refusal never holds anything up. */
  lemma FlushAttemptsUpToFirstRetryable(queue: seq<Action>, files: set<Copy>, answer: nat -> Reply, stamp: nat,
                                        now: int)
    requires OwnPhotos(queue)
    ensures var w := Flush(queue, files, answer, stamp, now);
            var k := FirstStuck(queue, 0, answer, files);
            && w.remaining == queue[k..]
            && w.sent == Among(queue, 0, k, answer, files, Sent)
            && Items(w.refused) == Among(queue, 0, k, answer, files, Refused)
            && |w.sent| + |w.refused| + |w.remaining| == |queue|
            && multiset(w.sent) + multiset(Items(w.refused)) + multiset(w.remaining) == multiset(queue)
  {
    DeliverIsPrefix(queue, 0, answer, stamp, now, Work(files, [], [], []), files);
    var k := FirstStuck(queue, 0, answer, files);
    SplitIsAll(queue, 0, k, answer, files);
    assert queue == queue[0..k] + queue[k..];
  }

  /** Every element of `all` is in exactly one of `s` and `r`. */
  predicate Splits(s: seq<Action>, r: seq<Action>, all: seq<Action>) {
    |s| + |r| == |all| && multiset(s) + multiset(r) == multiset(all)
  }

  lemma SplitsWithHead(a: Action, s: seq<Action>, r: seq<Action>, all: seq<Action>, sent: bool)
    requires Splits(s, r, all)
    ensures Splits(if sent then [a] + s else s, if sent then r else [a] + r, [a] + all)
  {
  }

  lemma AmongWithHead(queue: seq<Action>, from: nat, end: nat, answer: nat -> Reply, files: set<Copy>)
    requires from < end <= |queue| && !OutcomeOf(queue[from], answer(from), files).Stuck?
    ensures var sent := OutcomeOf(queue[from], answer(from), files).Sent?;
            var s, r := Among(queue, from + 1, end, answer, files, Sent),
              Among(queue, from + 1, end, answer, files, Refused);
            && Among(queue, from, end, answer, files, Sent) == (if sent then [queue[from]] + s else s)
            && Among(queue, from, end, answer, files, Refused) == (if sent then r else [queue[from]] + r)
            && queue[from..end] == [queue[from]] + queue[from + 1..end]
  {
  }

  lemma {:induction false} SplitIsAll(queue: seq<Action>, from: nat, end: nat, answer: nat -> Reply, files: set<Copy>)
    requires from <= end <= |queue|
    requires forall i :: from <= i < end ==> !OutcomeOf(queue[i], answer(i), files).Stuck?
    ensures Splits(Among(queue, from, end, answer, files, Sent), Among(queue, from, end, answer, files, Refused),
                   queue[from..end])
    decreases end - from
  {
    if from < end {
      SplitIsAll(queue, from + 1, end, answer, files);
      AmongWithHead(queue, from, end, answer, files);
      SplitsWithHead(queue[from], Among(queue, from + 1, end, answer, files, Sent),
                     Among(queue, from + 1, end, answer, files, Refused),
                     queue[from + 1..end], OutcomeOf(queue[from], answer(from), files).Sent?);
    }
  }

  /** "Not now": no status, no response, a time-out, too many requests, or trouble of
      the server's own. */
  predicate NotNow(status: Option<int>) {
    status == None || status.value == 0 || status.value == 408 || status.value == 429 || 500 <= status.value
  }

  predicate Passing(r: Reply) {
    r.Failed? && NotNow(r.status)
  }

  /** A flush up to where it stops, if it does. */
  lemma {:induction false} DeliverReplies(queue: seq<Action>, from: nat, answer: nat -> Reply, stamp: nat, now: int,
                                          w: Work)
    returns (k: nat)
    requires from <= |queue|
    ensures from <= k <= |queue|
    ensures var r := Deliver(queue, from, answer, stamp, now, w);
            && r.remaining == queue[k..]
            && (forall x :: x in r.refused <==> x in w.refused || Refuses(queue, from, k, answer, stamp, now, x))
    ensures forall i :: from <= i < k ==> answer(i).Accepted? || !Passing(answer(i))
    ensures k < |queue| ==> Passing(answer(k)) || (answer(k).Accepted? && queue[k].photo.Some?)
    decreases |queue| - from
  {
    k := from;
    if from < |queue| {
      var a := queue[from];
      match OutcomeOf(a, answer(from), w.files)
      case Sent =>
        var more := w.(files := w.files - PhotoOf(a), sent := w.sent + [a]);
        k := DeliverReplies(queue, from + 1, answer, stamp, now, more);
      case Refused =>
        var more := w.(refused := w.refused + [Rejection(stamp + from, a, Some(now))]);
        k := DeliverReplies(queue, from + 1, answer, stamp, now, more);
      case Stuck =>
    }
  }

  /** `x` is the entry of an action before position `k` whose attempt failed. */
  predicate Refuses(queue: seq<Action>, from: nat, k: nat, answer: nat -> Reply, stamp: nat, now: int, x: Rejection)
    requires k <= |queue|
  {
    exists i :: from <= i < k && answer(i).Failed? && x == Rejection(stamp + i, queue[i], Some(now))
  }

  /** What the flush does with a failure, by its status.  From the first that has no
      status, or 0, 408, 429 or 500 and up, everything stays queued; before it, every
      other failure is filed as refused, and nothing else is. */
  lemma FailuresSplitByStatus(queue: seq<Action>, files: set<Copy>, answer: nat -> Reply, stamp: nat, now: int)
    returns (k: nat)
    ensures k <= |queue|
    ensures var w := Flush(queue, files, answer, stamp, now);
            && w.remaining == queue[k..]
            && (forall x :: x in w.refused <==> Refuses(queue, 0, k, answer, stamp, now, x))
    ensures forall i :: 0 <= i < k && answer(i).Failed? ==>
              && answer(i).status != None && answer(i).status.value != 0 && answer(i).status.value < 500
              && answer(i).status.value != 408 && answer(i).status.value != 429
    ensures k < |queue| && answer(k).Failed? ==>
              || answer(k).status == None || answer(k).status.value == 0 || answer(k).status.value >= 500
              || answer(k).status.value == 408 || answer(k).status.value == 429
  {
    k := DeliverReplies(queue, 0, answer, stamp, now, Work(files, [], [], []));
  }

  /** So a flush of one action keeps it or files it by the status alone. */
  lemma OneFailure(a: Action, files: set<Copy>, answer: nat -> Reply, stamp: nat, now: int)
    requires answer(0).Failed?
    ensures var w, status := Flush([a], files, answer, stamp, now), answer(0).status;
            if status == None || status.value in {0, 408, 429}
              || status.value >= 500 then w.remaining == [a] && w.refused == []
            else w.remaining == [] && w.refused == [Rejection(stamp, a, Some(now))]
  {
    assert [a][0..] == [a];
    var entry := Work(files, [], [Rejection(stamp, a, Some(now))], []);
    assert Deliver([a], 1, answer, stamp, now, entry).refused == entry.refused;
    assert [] + [Rejection(stamp + 0, a, Some(now))] == [Rejection(stamp, a, Some(now))];
  }

  /** An action the server took is off the queue and its copy off the disk, unless
      there is a copy that is gone already or will not go. */
  lemma OneUpload(a: Action, files: set<Copy>, answer: nat -> Reply, stamp: nat, now: int)
    requires answer(0).Accepted?
    ensures var w := Flush([a], files, answer, stamp, now);
            var stays := a.photo != None && !(answer(0).deletes && a.photo.value in files);
            && w.refused == [] && w.remaining == (if stays then [a] else []) && w.sent == (if stays then [] else [a])
            && w.files == if stays || a.photo == None then files else files - {a.photo.value}
  {
    assert [a][0..] == [a] && [] + [a] == [a];
    var done := Work(files - PhotoOf(a), [a], [], []);
    assert Deliver([a], 1, answer, stamp, now, done) == done;
  }

  // ----- repeated flushes -----------------------------------------------------

  /** "Not ever": any other 4xx. */
  predicate NotEver(status: int) {
    400 <= status < 500 && status != 408 && status != 429
  }

  /** A server that fails each action a number of times first, in whatever ways, and
      then takes it or refuses it for good. */
  datatype Server = Server(failures: map<nat, seq<Option<int>>>, refusals: map<nat, int>) {
    function Left(a: Action): nat {
      if a.ticket in failures then |failures[a.ticket]| else 0
    }

    function Answer(queue: seq<Action>, i: nat): Reply {
      if i >= |queue| then Failed(None)
      else if Left(queue[i]) > 0 then Failed(failures[queue[i].ticket][0])
      else if queue[i].ticket in refusals then Failed(Some(refusals[queue[i].ticket]))
      else Accepted(true)
    }

    function Answers(queue: seq<Action>): nat -> Reply {
      (i: nat) => Answer(queue, i)
    }

    /** The server after it has failed `a` once more. */
    function Tried(a: Action): Server {
      if Left(a) > 0 then this.(failures := failures[a.ticket := failures[a.ticket][1..]]) else this
    }

    /** Its failures are of the passing kind and its refusals are not. */
    predicate Speaks() {
      && (forall t, i :: t in failures && 0 <= i < |failures[t]| ==> NotNow(failures[t][i]))
      && (forall t :: t in refusals ==> NotEver(refusals[t]))
    }

    function Measure(queue: seq<Action>): nat {
      if queue == [] then 0 else Left(queue[0]) + Measure(queue[1..])
    }
  }

  function Round(queue: seq<Action>, files: set<Copy>, server: Server): Work {
    Flush(queue, files, server.Answers(queue), 0, 0)
  }

  /** What is queued after `n` flushes in a row. */
  function Rounds(queue: seq<Action>, files: set<Copy>, server: Server, n: nat): seq<Action>
    decreases n
  {
    if n == 0 then queue
    else
      var w := Round(queue, files, server);
      if w.remaining == [] then []
      else Rounds(w.remaining, w.files, server.Tried(w.remaining[0]), n - 1)
  }

  /** Every photo copy the actions from `from` on own is on disk. */
  predicate PhotosPresent(queue: seq<Action>, from: nat, files: set<Copy>) {
    forall i :: from <= i < |queue| && queue[i].photo.Some? ==> queue[i].photo.value in files
  }

  lemma {:induction false} DeliverKeepsPhotos(queue: seq<Action>, from: nat, answer: nat -> Reply, stamp: nat,
                                              now: int, w: Work)
    requires from <= |queue| && OwnPhotos(queue)
    requires PhotosPresent(queue, from, w.files)
    ensures var r := Deliver(queue, from, answer, stamp, now, w); PhotosPresent(r.remaining, 0, r.files)
    decreases |queue| - from
  {
    if from < |queue| {
      var a := queue[from];
      match OutcomeOf(a, answer(from), w.files)
      case Sent =>
        DeliverKeepsPhotos(queue, from + 1, answer, stamp, now,
                           w.(files := w.files - PhotoOf(a), sent := w.sent + [a]));
      case Refused =>
        DeliverKeepsPhotos(queue, from + 1, answer, stamp, now,
                           w.(refused := w.refused + [Rejection(stamp + from, a, Some(now))]));
      case Stuck =>
    }
  }

  lemma {:induction false} MeasureOfSuffix(server: Server, queue: seq<Action>, k: nat)
    requires k <= |queue|
    ensures server.Measure(queue[k..]) <= server.Measure(queue)
  {
    if k > 0 {
      MeasureOfSuffix(server, queue[1..], k - 1);
      assert queue[1..][k - 1..] == queue[k..];
    }
  }

  lemma {:induction false} TriedMeasure(server: Server, queue: seq<Action>, a: Action)
    requires forall i :: 0 <= i < |queue| ==> queue[i].ticket != a.ticket
    ensures server.Tried(a).Measure(queue) == server.Measure(queue)
  {
    if queue != [] { TriedMeasure(server, queue[1..], a); }
  }

  predicate OwnTickets(queue: seq<Action>) {
    forall i, j :: 0 <= i < j < |queue| ==> queue[i].ticket != queue[j].ticket
  }

  /** A flush that does not empty the queue uses up one failure of the action it
      stopped at. */
  lemma RoundMakesProgress(queue: seq<Action>, files: set<Copy>, server: Server)
    requires OwnPhotos(queue) && OwnTickets(queue) && PhotosPresent(queue, 0, files) && server.Speaks()
    ensures var w := Round(queue, files, server);
            && OwnPhotos(w.remaining) && OwnTickets(w.remaining) && PhotosPresent(w.remaining, 0, w.files)
            && (w.remaining != [] ==> server.Tried(w.remaining[0]).Measure(w.remaining) < server.Measure(queue))
  {
    var answer := server.Answers(queue);
    var w := Round(queue, files, server);
    var k := FirstStuck(queue, 0, answer, files);
    DeliverIsPrefix(queue, 0, answer, 0, 0, Work(files, [], [], []), files);
    DeliverKeepsPhotos(queue, 0, answer, 0, 0, Work(files, [], [], []));
    if k < |queue| {
      StuckMeansImpatient(queue, files, server, k);
      MeasureDrops(queue, server, k);
    }
  }

  lemma StuckMeansImpatient(queue: seq<Action>, files: set<Copy>, server: Server, k: nat)
    requires k < |queue| && PhotosPresent(queue, 0, files) && server.Speaks()
    requires OutcomeOf(queue[k], server.Answer(queue, k), files).Stuck?
    ensures server.Left(queue[k]) > 0
  {
  }

  lemma MeasureDrops(queue: seq<Action>, server: Server, k: nat)
    requires k < |queue| && OwnTickets(queue) && server.Left(queue[k]) > 0
    ensures server.Tried(queue[k]).Measure(queue[k..]) < server.Measure(queue)
  {
    MeasureOfSuffix(server, queue, k);
    assert queue[k..][1..] == queue[k + 1..];
    TriedMeasure(server, queue[k + 1..], queue[k]);
  }

  /** When no action meets with passing failures for ever, whichever they are, flushing
      often enough empties the queue. */
  lemma {:induction false} EnoughFlushesEmptyTheQueue(queue: seq<Action>, files: set<Copy>, server: Server, n: nat)
    requires OwnPhotos(queue) && OwnTickets(queue) && PhotosPresent(queue, 0, files) && server.Speaks()
    requires n > server.Measure(queue)
    ensures Rounds(queue, files, server, n) == []
    decreases n
  {
    var w := Round(queue, files, server);
    RoundMakesProgress(queue, files, server);
    if w.remaining != [] {
      EnoughFlushesEmptyTheQueue(w.remaining, w.files, server.Tried(w.remaining[0]), n - 1);
    }
  }

  /** An action whose photo copy is gone can never be cleaned up after, so even a
      server that takes everything leaves the whole queue behind it for ever. */
  lemma {:induction false} MissingPhotoBlocksForEver(queue: seq<Action>, files: set<Copy>, server: Server, n: nat)
    requires queue != [] && queue[0].photo.Some? && queue[0].photo.value !in files
    requires server.Speaks() && queue[0].ticket !in server.refusals
    ensures Rounds(queue, files, server, n) == queue
    decreases n
  {
    if n > 0 {
      var w := Round(queue, files, server);
      assert w.remaining == queue[0..] == queue && w.files == files;
      MissingPhotoBlocksForEver(queue, files, server.Tried(queue[0]), n - 1);
    }
  }
}
