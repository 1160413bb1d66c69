/** The schema log: migrations applied forward in list order, and rolled back from
    the end. */
module Migrations {
  import opened Prelude

  /** What the scripts do to a schema, None when a script fails, and the place of
      each script's name in the database's text order.  A migration may have no
      down script. */
  datatype Library<!S> = Library(up: (nat, S) -> Option<S>, hasDown: nat -> bool, down: (nat, S) -> Option<S>,
                                 rank: nat -> int)

  /** A row of schema_migrations.  `ran` is history: an existing deployment has its
      baseline marked as applied without running it. */
  datatype Applied = Applied(id: nat, at: int, ran: bool)

  datatype Database<S> = Database(schema: S, log: seq<Applied>)

  /** The two baseline migrations.  Which name sorts first is up to the database:
      underscores count in the C order, and are passed over by most others. */
  const LEGACY: nat := 0
  const BASELINE: nat := 1

  predicate Logged(log: seq<Applied>, id: nat) {
    exists i :: 0 <= i < |log| && log[i].id == id
  }

  /** Rows come newest last: by time, and by name where times are equal. */
  predicate Before(rank: nat -> int, a: Applied, b: Applied) {
    a.at < b.at || (a.at == b.at && rank(a.id) < rank(b.id))
  }

  predicate Ordered(rank: nat -> int, log: seq<Applied>) {
    forall i, j :: 0 <= i < j < |log| ==> Before(rank, log[i], log[j]) && log[i].id != log[j].id
  }

  /** The two rows one statement marks as applied, in listing order. */
  function Marked(rank: nat -> int, now: int): seq<Applied> {
    if rank(LEGACY) < rank(BASELINE) then [Applied(LEGACY, now, false), Applied(BASELINE, now, false)]
    else [Applied(BASELINE, now, false), Applied(LEGACY, now, false)]
  }

  // ----- forward --------------------------------------------------------------------

  function Bootstrapped<S>(rank: nat -> int, db: Database<S>, existing: bool, now: int): Database<S> {
    if db.log == [] && existing then db.(log := Marked(rank, now)) else db
  }

  /** Those of `list` that are not in the log, in list order. */
  function Missing(list: seq<nat>, log: seq<Applied>): seq<nat> {
    if list == [] then []
    else Missing(list[..|list| - 1], log) + (if Logged(log, list[|list| - 1]) then [] else [list[|list| - 1]])
  }

  datatype Outcome<S> = Outcome(db: Database<S>, ok: bool)

  /** Applies `ids` one after the other, the i-th of the run at `clock(i)`, and
      stops at the first that fails. */
  function ApplyAll<S>(lib: Library<S>, db: Database<S>, ids: seq<nat>, clock: nat -> int): Outcome<S> {
    if ids == [] then Outcome(db, true)
    else
      var before := ApplyAll(lib, db, ids[..|ids| - 1], clock);
      if !before.ok then before
      else
        var id := ids[|ids| - 1];
        match lib.up(id, before.db.schema)
        case None => Outcome(before.db, false)
        case Some(schema) => Outcome(Database(schema, before.db.log + [Applied(id, clock(|ids| - 1), true)]), true)
  }

  function RunUp<S>(lib: Library<S>, db: Database<S>, list: seq<nat>, existing: bool, now: int,
                    clock: nat -> int): Outcome<S> {
    var b := Bootstrapped(lib.rank, db, existing, now);
    ApplyAll(lib, b, Missing(list, b.log), clock)
  }

  // ----- back -----------------------------------------------------------------------

  /** The row a newest-first listing starts with. */
  function Newest(rank: nat -> int, log: seq<Applied>): (i: nat)
    requires log != []
    ensures i < |log| && forall j :: 0 <= j < |log| ==> !Before(rank, log[i], log[j])
  {
    if |log| == 1 then 0
    else
      var i := Newest(rank, log[..|log| - 1]);
      assert forall j :: 0 <= j < |log| - 1 ==> log[j] == log[..|log| - 1][j];
      if Before(rank, log[i], log[|log| - 1]) then |log| - 1 else i
  }

  function Targets(rank: nat -> int, log: seq<Applied>, limit: nat): seq<nat>
    decreases |log|
  {
    if log == [] || limit == 0 then []
    else
      var i := Newest(rank, log);
      [log[i].id] + Targets(rank, log[..i] + log[i + 1..], limit - 1)
  }

  function Without(log: seq<Applied>, id: nat): seq<Applied> {
    if log == [] then []
    else Without(log[..|log| - 1], id) + (if log[|log| - 1].id == id then [] else [log[|log| - 1]])
  }

  function RollbackOne<S>(lib: Library<S>, db: Database<S>, id: nat): Option<Database<S>> {
    if !lib.hasDown(id) then None
    else
      match lib.down(id, db.schema)
      case None => None
      case Some(schema) => Some(Database(schema, Without(db.log, id)))
  }

  function RollbackAll<S>(lib: Library<S>, db: Database<S>, ids: seq<nat>): Outcome<S>
    decreases |ids|
  {
    if ids == [] then Outcome(db, true)
    else
      match RollbackOne(lib, db, ids[0])
      case None => Outcome(db, false)
      case Some(next) => RollbackAll(lib, next, ids[1..])
  }

  function RunDown<S>(lib: Library<S>, db: Database<S>, steps: nat): Outcome<S> {
    RollbackAll(lib, db, Targets(lib.rank, db.log, steps))
  }

  // ----- the runners -------------------------------------------------------------------

  class Runner<S> {
    var schema: S
    var log: seq<Applied>
    const lib: Library<S>

    function View(): Database<S>
      reads this
    {
      Database(schema, log)
    }

    constructor (lib: Library<S>, schema: S)
      ensures View() == Database(schema, []) && this.lib == lib
    {
      this.lib, this.schema, log := lib, schema, [];
    }

    method Migrate(list: seq<nat>, existing: bool, now: int, clock: nat -> int) returns (ok: bool)
      modifies `schema, `log
      ensures Outcome(View(), ok) == RunUp(lib, old(View()), list, existing, now, clock)
    {
      if |log| == 0 && existing {
        log := Marked(lib.rank, now);
      }
      ghost var start := View();
      var applied := log;
      ghost var ids: seq<nat> := [];
      var count := 0;
      ok := true;
      for i := 0 to |list|
        invariant ids == Missing(list[..i], applied) && count == |ids| && ok
        invariant Outcome(View(), true) == ApplyAll(lib, start, ids, clock)
      {
        assert list[..i + 1][..i] == list[..i];
        if !exists k :: 0 <= k < |applied| && applied[k].id == list[i] {
          assert (ids + [list[i]])[..|ids|] == ids;
          var next := lib.up(list[i], schema);
          if next.None? {
            ok := false;
            MissingIsPrefix(list, i + 1, applied);
            FailureStops(lib, start, Missing(list[..i + 1], applied), Missing(list, applied), clock);
            return;
          }
          schema := next.value;
          log := log + [Applied(list[i], clock(count), true)];
          ids := ids + [list[i]];
          count := count + 1;
        }
      }
      assert list[..|list|] == list;
    }

    method MigrateDown(steps: nat) returns (ok: bool)
      modifies `schema, `log
      ensures Outcome(View(), ok) == RunDown(lib, old(View()), steps)
    {
      var targets := Targets(lib.rank, log, steps);
      ok := true;
      for i := 0 to |targets|
        invariant ok && RollbackAll(lib, old(View()), targets) == RollbackAll(lib, View(), targets[i..])
      {
        assert targets[i..][0] == targets[i] && targets[i..][1..] == targets[i + 1..];
        if !lib.hasDown(targets[i]) { return false; }
        var next := lib.down(targets[i], schema);
        if next.None? { return false; }
        schema := next.value;
        log := Without(log, targets[i]);
      }
    }
  }

  lemma {:induction false} MissingIsPrefix(list: seq<nat>, n: nat, log: seq<Applied>)
    requires n <= |list|
    ensures Missing(list[..n], log) <= Missing(list, log)
    decreases |list| - n
  {
    if n == |list| {
      assert list[..n] == list;
    } else {
      assert list[..n + 1][..n] == list[..n];
      MissingIsPrefix(list, n + 1, log);
    }
  }

  /** A run that fails part of the way is the run of the whole list. */
  lemma {:induction false} FailureStops<S>(lib: Library<S>, db: Database<S>, part: seq<nat>, ids: seq<nat>,
                                           clock: nat -> int)
    requires part <= ids && !ApplyAll(lib, db, part, clock).ok
    ensures ApplyAll(lib, db, ids, clock) == ApplyAll(lib, db, part, clock)
  {
    if |part| == |ids| {
      assert part == ids;
    } else {
      FailureStops(lib, db, part, ids[..|ids| - 1], clock);
    }
  }

  // ----- the schema is what the log says ------------------------------------------------

  /** `base` after every migration of the log that ran. */
  function Replay<S>(lib: Library<S>, base: S, log: seq<Applied>): Option<S> {
    if log == [] then Some(base)
    else
      match Replay(lib, base, log[..|log| - 1])
      case None => None
      case Some(schema) => if log[|log| - 1].ran then lib.up(log[|log| - 1].id, schema) else Some(schema)
  }

  ghost predicate Consistent<S>(lib: Library<S>, base: S, db: Database<S>) {
    Replay(lib, base, db.log) == Some(db.schema)
  }

  function Rows(ids: seq<nat>, clock: nat -> int): (r: seq<Applied>)
    ensures |r| == |ids| && forall i :: 0 <= i < |ids| ==> r[i] == Applied(ids[i], clock(i), true)
  {
    seq(|ids|, i requires 0 <= i < |ids| => Applied(ids[i], clock(i), true))
  }

  lemma OneMoreRow(log: seq<Applied>, ids: seq<nat>, clock: nat -> int)
    requires ids != []
    ensures log + Rows(ids, clock)
            == log + Rows(ids[..|ids| - 1], clock) + [Applied(ids[|ids| - 1], clock(|ids| - 1), true)]
  {
    assert Rows(ids, clock) == Rows(ids[..|ids| - 1], clock) + [Applied(ids[|ids| - 1], clock(|ids| - 1), true)];
  }

  /** A run appends a prefix of what it was to apply, all of it unless a script
      failed, and leaves the schema the log describes. */
  lemma {:induction false} ApplyAllIs<S>(lib: Library<S>, base: S, db: Database<S>, ids: seq<nat>, clock: nat -> int)
    returns (n: nat)
    requires Consistent(lib, base, db)
    ensures var r := ApplyAll(lib, db, ids, clock);
            && n <= |ids| && r.db.log == db.log + Rows(ids[..n], clock)
            && (r.ok <==> n == |ids|)
            && Consistent(lib, base, r.db)
            && (n < |ids| ==> lib.up(ids[n], r.db.schema).None?)
  {
    if ids == [] {
      n := 0;
      assert db.log + Rows([], clock) == db.log;
    } else {
      var init := ids[..|ids| - 1];
      n := ApplyAllIs(lib, base, db, init, clock);
      assert ids[..n] == init[..n];
      var before, r := ApplyAll(lib, db, init, clock), ApplyAll(lib, db, ids, clock);
      if before.ok && r.ok {
        assert init[..n] == init;
        n := |ids|;
        assert ids[..n] == ids;
        OneMoreRow(db.log, ids, clock);
        assert r.db.log[..|r.db.log| - 1] == before.db.log;
      }
    }
  }

  lemma {:induction false} MissingIs(list: seq<nat>, log: seq<Applied>)
    ensures forall i :: 0 <= i < |Missing(list, log)| ==>
              Missing(list, log)[i] in list && !Logged(log, Missing(list, log)[i])
    ensures forall id :: id in list && !Logged(log, id) ==> id in Missing(list, log)
  {
    if list != [] {
      MissingIs(list[..|list| - 1], log);
      assert list == list[..|list| - 1] + [list[|list| - 1]];
    }
  }

  lemma {:induction false} NothingMissing(list: seq<nat>, log: seq<Applied>)
    requires forall id :: id in list ==> Logged(log, id)
    ensures Missing(list, log) == []
  {
    if list != [] {
      assert list[|list| - 1] in list;
      NothingMissing(list[..|list| - 1], log);
    }
  }

  lemma LoggedAfter(log: seq<Applied>, ids: seq<nat>, clock: nat -> int, id: nat)
    ensures Logged(log + Rows(ids, clock), id) <==> Logged(log, id) || id in ids
  {
    var after := log + Rows(ids, clock);
    if Logged(log, id) {
      var i :| 0 <= i < |log| && log[i].id == id;
      assert after[i].id == id;
    }
    if id in ids {
      var i :| 0 <= i < |ids| && ids[i] == id;
      assert after[|log| + i].id == id;
    }
    if Logged(after, id) {
      var i :| 0 <= i < |after| && after[i].id == id;
      if i < |log| { assert log[i].id == id; } else { assert ids[i - |log|] == id; }
    }
  }

  /** Once a run has succeeded, running again changes nothing. */
  lemma SecondRunChangesNothing<S>(lib: Library<S>, base: S, db: Database<S>, list: seq<nat>, existing: bool, now: int,
                                   clock: nat -> int, existsLater: bool, later: int, laterClock: nat -> int)
    requires list != [] && Consistent(lib, base, db)
    requires RunUp(lib, db, list, existing, now, clock).ok
    ensures var r := RunUp(lib, db, list, existing, now, clock);
            RunUp(lib, r.db, list, existsLater, later, laterClock) == r
  {
    var b := Bootstrapped(lib.rank, db, existing, now);
    BootstrapIsConsistent(lib, base, db, existing, now);
    var ids := Missing(list, b.log);
    var r := ApplyAll(lib, b, ids, clock);
    var n := ApplyAllIs(lib, base, b, ids, clock);
    assert ids[..n] == ids;
    EverythingLogged(list, b.log, clock);
    MissingIs(list, b.log);
    LoggedAfter(b.log, ids, clock, list[0]);
    assert list[0] in list && Logged(r.db.log, list[0]);
  }

  lemma BootstrapIsConsistent<S>(lib: Library<S>, base: S, db: Database<S>, existing: bool, now: int)
    requires Consistent(lib, base, db)
    ensures Consistent(lib, base, Bootstrapped(lib.rank, db, existing, now))
  {
    if db.log == [] && existing {
      var log := Marked(lib.rank, now);
      assert log[..1] == [log[0]] && log[..1][..0] == [];
      assert Replay(lib, base, log[..1]) == Some(base);
    }
  }

  lemma NotListed(list: seq<nat>, log: seq<Applied>, id: nat, n: nat, clock: nat -> int)
    requires id !in list && n <= |Missing(list, log)|
    ensures Logged(log + Rows(Missing(list, log)[..n], clock), id) <==> Logged(log, id)
  {
    MissingIs(list, log);
    LoggedAfter(log, Missing(list, log)[..n], clock, id);
  }

  /** A run that stopped leaves exactly the rest, from the script that failed on, for
      the next one. */
  lemma {:induction false} MissingAfter(list: seq<nat>, log: seq<Applied>, n: nat, clock: nat -> int)
    requires forall i, j :: 0 <= i < j < |list| ==> list[i] != list[j]
    requires n <= |Missing(list, log)|
    ensures Missing(list, log + Rows(Missing(list, log)[..n], clock)) == Missing(list, log)[n..]
  {
    if list != [] {
      var init, last := list[..|list| - 1], list[|list| - 1];
      var ids, all := Missing(init, log), Missing(list, log);
      assert last !in init;
      if n <= |ids| {
        MissingAfter(init, log, n, clock);
        assert all[..n] == ids[..n];
        NotListed(init, log, last, n, clock);
        assert all[n..] == ids[n..] + all[|ids|..];
      } else {
        assert all == ids + [last] && all[..n] == all;
        MissingIs(list, log);
        EverythingLogged(list, log, clock);
      }
    }
  }

  lemma EverythingLogged(list: seq<nat>, log: seq<Applied>, clock: nat -> int)
    ensures Missing(list, log + Rows(Missing(list, log), clock)) == []
  {
    var ids := Missing(list, log);
    MissingIs(list, log);
    forall id | id in list ensures Logged(log + Rows(ids, clock), id) { LoggedAfter(log, ids, clock, id); }
    NothingMissing(list, log + Rows(ids, clock));
  }

  /** So a failed run followed by a good one ends where one good run would. */
  lemma FailedRunResumes<S>(lib: Library<S>, base: S, db: Database<S>, list: seq<nat>, clock: nat -> int)
    returns (n: nat)
    requires Consistent(lib, base, db) && forall i, j :: 0 <= i < j < |list| ==> list[i] != list[j]
    ensures var ids := Missing(list, db.log);
            var r := ApplyAll(lib, db, ids, clock);
            && n <= |ids| && r.db.log == db.log + Rows(ids[..n], clock) && (r.ok <==> n == |ids|)
            && Missing(list, r.db.log) == ids[n..]
            && (n < |ids| ==> lib.up(ids[n], r.db.schema).None?)
  {
    n := ApplyAllIs(lib, base, db, Missing(list, db.log), clock);
    MissingAfter(list, db.log, n, clock);
  }

  // ----- rolling back is undoing ----------------------------------------------------------

  lemma NewestIsLast(rank: nat -> int, log: seq<Applied>)
    requires log != [] && Ordered(rank, log)
    ensures Newest(rank, log) == |log| - 1
  {
    var i := Newest(rank, log);
    assert !Before(rank, log[i], log[|log| - 1]);
  }

  lemma {:induction false} WithoutIsInit(log: seq<Applied>, id: nat)
    requires forall i :: 0 <= i < |log| ==> log[i].id != id
    ensures Without(log, id) == log
  {
    if log != [] { WithoutIsInit(log[..|log| - 1], id); }
  }

  lemma TargetsFromTheEnd(rank: nat -> int, log: seq<Applied>, steps: nat)
    requires log != [] && Ordered(rank, log) && steps > 0
    ensures Targets(rank, log, steps) == [log[|log| - 1].id] + Targets(rank, log[..|log| - 1], steps - 1)
    ensures Without(log, log[|log| - 1].id) == log[..|log| - 1] && Ordered(rank, log[..|log| - 1])
  {
    NewestIsLast(rank, log);
    var last := |log| - 1;
    assert log[..last] + log[last + 1..] == log[..last];
    WithoutIsInit(log[..last], log[last].id);
  }

  /** Every down script undoes its migration. */
  ghost predicate Inverts<S(!new)>(lib: Library<S>) {
    forall id, s :: lib.hasDown(id) && lib.up(id, s).Some? ==> lib.down(id, lib.up(id, s).value) == Some(s)
  }

  /** The last `steps` rows that can be undone at all were run here. */
  predicate UndoneRowsRan<S>(lib: Library<S>, log: seq<Applied>, steps: nat) {
    forall i :: 0 <= i < |log| && |log| - steps <= i && lib.hasDown(log[i].id) ==> log[i].ran
  }

  /** One step back, and the rest from there. */
  lemma OneStepBack<S>(lib: Library<S>, db: Database<S>, steps: nat)
    requires db.log != [] && Ordered(lib.rank, db.log) && steps > 0
    ensures var next := RollbackOne(lib, db, db.log[|db.log| - 1].id);
            && RunDown(lib, db, steps)
                 == (if next.None? then Outcome(db, false) else RunDown(lib, next.value, steps - 1))
            && (next.Some? ==> next.value.log == db.log[..|db.log| - 1] && Ordered(lib.rank, next.value.log))
  {
    TargetsFromTheEnd(lib.rank, db.log, steps);
    assert Targets(lib.rank, db.log, steps)[1..] == Targets(lib.rank, db.log[..|db.log| - 1], steps - 1);
  }

  lemma NewestUndone<S(!new)>(lib: Library<S>, base: S, db: Database<S>)
    requires Inverts(lib) && Consistent(lib, base, db) && db.log != [] && Ordered(lib.rank, db.log)
    requires lib.hasDown(db.log[|db.log| - 1].id) && db.log[|db.log| - 1].ran
    ensures var next := RollbackOne(lib, db, db.log[|db.log| - 1].id); next.Some? && Consistent(lib, base, next.value)
  {
    TargetsFromTheEnd(lib.rank, db.log, 1);
  }

  lemma NoStepBack<S>(lib: Library<S>, db: Database<S>)
    ensures RunDown(lib, db, 0) == Outcome(db, true)
  {
  }

  /** `r` is `db` without its last `n` rows: `steps` of them, or those after the newest
      one that has no down script. */
  ghost predicate Restored<S>(lib: Library<S>, base: S, db: Database<S>, steps: nat, n: nat, r: Outcome<S>) {
    && n <= |db.log| && n <= steps && r.db.log == db.log[..|db.log| - n]
    && Consistent(lib, base, r.db)
    && (r.ok <==> n == steps || n == |db.log|)
    && (forall i :: |db.log| - n <= i < |db.log| ==> lib.hasDown(db.log[i].id))
    && (!r.ok ==> !lib.hasDown(db.log[|db.log| - n - 1].id))
  }

  lemma RestoredFurther<S>(lib: Library<S>, base: S, db: Database<S>, next: Database<S>, steps: nat, n: nat,
                           r: Outcome<S>)
    requires steps > 0 && db.log != [] && next.log == db.log[..|db.log| - 1] && lib.hasDown(db.log[|db.log| - 1].id)
    requires Restored(lib, base, next, steps - 1, n, r)
    ensures Restored(lib, base, db, steps, n + 1, r)
  {
    assert next.log[..|next.log| - n] == db.log[..|db.log| - (n + 1)];
  }

  /** Rolling back restores the schema from before the rows it removes. */
  lemma {:induction false} RollbackRestores<S(!new)>(lib: Library<S>, base: S, db: Database<S>, steps: nat)
    returns (n: nat)
    requires Inverts(lib) && Consistent(lib, base, db) && Ordered(lib.rank, db.log) && UndoneRowsRan(lib, db.log, steps)
    ensures Restored(lib, base, db, steps, n, RunDown(lib, db, steps))
    decreases steps
  {
    n := 0;
    assert db.log[..|db.log|] == db.log;
    if db.log != [] && steps > 0 {
      var last := db.log[|db.log| - 1];
      OneStepBack(lib, db, steps);
      if lib.hasDown(last.id) {
        NewestUndone(lib, base, db);
        var next := RollbackOne(lib, db, last.id).value;
        n := RollbackRestores(lib, base, next, steps - 1);
        RestoredFurther(lib, base, db, next, steps, n, RunDown(lib, db, steps));
        n := n + 1;
      }
    }
  }

  /** A migration that was only marked as applied is undone all the same: its down
      script runs on a schema it never made. */
  lemma MarkedMigrationIsUndoneAnyway<S>(lib: Library<S>, base: S, db: Database<S>)
    requires Consistent(lib, base, db) && Ordered(lib.rank, db.log) && db.log != []
    requires var last := db.log[|db.log| - 1]; !last.ran && lib.hasDown(last.id) && lib.down(last.id, db.schema).Some?
    ensures var last, r := db.log[|db.log| - 1], RunDown(lib, db, 1);
            && r.ok && Some(r.db.schema) == lib.down(last.id, db.schema)
            && (Consistent(lib, base, r.db) <==> lib.down(last.id, db.schema) == Some(db.schema))
  {
    OneStepBack(lib, db, 1);
    NoStepBack(lib, RollbackOne(lib, db, db.log[|db.log| - 1].id).value);
  }

  /** What bootstrapping an existing deployment and failing on the first real
      migration leads to.  One step back runs the baseline's down script if the
      baseline's name sorts after the older one's; if it sorts before, the older
      one has no down script, and the database stays as it is. */
  lemma BootstrapThenRollback<S>(lib: Library<S>, schema: S, first: nat, now: int, clock: nat -> int)
    requires first != LEGACY && first != BASELINE && lib.up(first, schema).None?
    requires lib.rank(LEGACY) != lib.rank(BASELINE)
    requires !lib.hasDown(LEGACY) && lib.hasDown(BASELINE) && lib.down(BASELINE, schema).Some?
    ensures var up := RunUp(lib, Database(schema, []), [BASELINE, first], true, now, clock);
            var back := RunDown(lib, up.db, 1);
            && !up.ok && up.db == Database(schema, Marked(lib.rank, now))
            && (back.ok <==> lib.rank(LEGACY) < lib.rank(BASELINE))
            && back.db == if back.ok then Database(lib.down(BASELINE, schema).value, [Applied(LEGACY, now, false)])
                 else up.db
  {
    var log := Marked(lib.rank, now);
    var db := Database(schema, log);
    FirstFails(lib, schema, first, now, clock);
    OneStepBack(lib, db, 1);
    if lib.rank(LEGACY) < lib.rank(BASELINE) {
      assert log[..1] == [Applied(LEGACY, now, false)];
      NoStepBack(lib, RollbackOne(lib, db, BASELINE).value);
    }
  }

  lemma FirstFails<S>(lib: Library<S>, schema: S, first: nat, now: int, clock: nat -> int)
    requires first != LEGACY && first != BASELINE && lib.up(first, schema).None?
    ensures RunUp(lib, Database(schema, []), [BASELINE, first], true, now, clock)
            == Outcome(Database(schema, Marked(lib.rank, now)), false)
  {
    var log := Marked(lib.rank, now);
    var db := Database(schema, log);
    assert log[if lib.rank(LEGACY) < lib.rank(BASELINE) then 1 else 0].id == BASELINE;
    assert Logged(log, BASELINE) && !Logged(log, first);
    assert [BASELINE, first][..1] == [BASELINE] && [BASELINE][..0] == [];
    assert Missing([], log) == [];
    assert Missing([BASELINE], log) == [];
    assert Missing([BASELINE, first], log) == [first];
    assert [first][..0] == [];
    assert ApplyAll(lib, db, [], clock) == Outcome(db, true);
    assert ApplyAll(lib, db, [first], clock) == Outcome(db, false);
  }

  predicate Rising(clock: nat -> int, n: nat, after: seq<Applied>) {
    && (forall i, j :: 0 <= i < j < n ==> clock(i) < clock(j))
    && (forall i, j :: 0 <= i < n && 0 <= j < |after| ==> after[j].at < clock(i))
  }

  /** Migrating up and rolling back as many steps returns the database as it was. */
  lemma UpThenDownIsNothing<S(!new)>(lib: Library<S>, base: S, db: Database<S>, ids: seq<nat>, clock: nat -> int)
    requires Inverts(lib) && Consistent(lib, base, db) && Ordered(lib.rank, db.log) && Rising(clock, |ids|, db.log)
    requires forall i, j :: 0 <= i < j < |ids| ==> ids[i] != ids[j]
    requires forall i :: 0 <= i < |ids| ==> lib.hasDown(ids[i]) && !Logged(db.log, ids[i])
    requires ApplyAll(lib, db, ids, clock).ok
    ensures RunDown(lib, ApplyAll(lib, db, ids, clock).db, |ids|) == Outcome(db, true)
  {
    var up := ApplyAll(lib, db, ids, clock).db;
    var m := ApplyAllIs(lib, base, db, ids, clock);
    assert ids[..m] == ids;
    NewRowsOrdered(lib.rank, db.log, ids, clock);
    var n := RollbackRestores(lib, base, up, |ids|);
    AllRestored(lib, base, db, up, ids, clock, n, RunDown(lib, up, |ids|));
  }

  lemma AllRestored<S>(lib: Library<S>, base: S, db: Database<S>, up: Database<S>, ids: seq<nat>, clock: nat -> int,
                       n: nat, r: Outcome<S>)
    requires Consistent(lib, base, db) && up.log == db.log + Rows(ids, clock)
    requires forall i :: 0 <= i < |ids| ==> lib.hasDown(ids[i])
    requires Restored(lib, base, up, |ids|, n, r)
    ensures r == Outcome(db, true)
  {
    assert forall i :: |db.log| <= i < |up.log| ==> up.log[i].id == ids[i - |db.log|];
    assert n == |ids|;
    assert up.log[..|db.log|] == db.log;
  }

  lemma NewRowsOrdered(rank: nat -> int, log: seq<Applied>, ids: seq<nat>, clock: nat -> int)
    requires Ordered(rank, log) && Rising(clock, |ids|, log)
    requires forall i, j :: 0 <= i < j < |ids| ==> ids[i] != ids[j]
    requires forall i :: 0 <= i < |ids| ==> !Logged(log, ids[i])
    ensures Ordered(rank, log + Rows(ids, clock))
  {
    var rows := Rows(ids, clock);
    forall i, j | 0 <= i < |log| && 0 <= j < |rows| ensures log[i].at < rows[j].at && log[i].id != rows[j].id {
      assert !Logged(log, ids[j]);
    }
    OrderedSum(rank, log, rows);
  }

  lemma OrderedSum(rank: nat -> int, log: seq<Applied>, rows: seq<Applied>)
    requires Ordered(rank, log) && Ordered(rank, rows)
    requires forall i, j :: 0 <= i < |log| && 0 <= j < |rows| ==> log[i].at < rows[j].at && log[i].id != rows[j].id
    ensures Ordered(rank, log + rows)
  {
  }
}
