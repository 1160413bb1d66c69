/** Pooling pending orders: one scan takes the first order not yet placed and
    everything still unplaced that pairs with it. */
module Batching {
  import opened Prelude

  datatype Order = Order(id: nat, weight: nat)

  /** `a` and `b` are close enough to share a run; the query lists each pair from
      the lower id. */
  datatype Pair = Pair(a: nat, b: nat)

  function Find(pending: seq<Order>, id: nat): (r: Option<Order>)
    ensures r.Some? ==> r.value in pending && r.value.id == id
    ensures r.None? ==> forall o :: o in pending ==> o.id != id
  {
    if pending == [] then None else if pending[0].id == id then Some(pending[0]) else Find(pending[1..], id)
  }

  datatype Placing = Placing(batch: seq<Order>, visited: set<nat>)

  /** What the first `n` pairs add to the batch of `head`. */
  function Gather(pending: seq<Order>, pairs: seq<Pair>, head: Order, visited: set<nat>, n: nat): Placing
    requires n <= |pairs|
  {
    if n == 0 then Placing([head], visited + {head.id})
    else
      var p := Gather(pending, pairs, head, visited, n - 1);
      var pair := pairs[n - 1];
      var companion := Find(pending, pair.b);
      if pair.a == head.id && pair.b !in p.visited && companion.Some? then
        Placing(p.batch + [companion.value], p.visited + {pair.b})
      else p
  }

  datatype Pool = Pool(batches: seq<seq<Order>>, visited: set<nat>)

  /** The pool after the first `n` orders of the scan. */
  function Scan(pending: seq<Order>, pairs: seq<Pair>, n: nat): Pool
    requires n <= |pending|
  {
    if n == 0 then Pool([], {})
    else
      var pool := Scan(pending, pairs, n - 1);
      var head := pending[n - 1];
      if head.id in pool.visited then pool
      else
        var p := Gather(pending, pairs, head, pool.visited, |pairs|);
        Pool(pool.batches + [p.batch], p.visited)
  }

  function Batches(pending: seq<Order>, pairs: seq<Pair>): seq<seq<Order>> {
    Scan(pending, pairs, |pending|).batches
  }

  function Weigh(orders: seq<Order>): nat {
    if orders == [] then 0 else Weigh(orders[..|orders| - 1]) + orders[|orders| - 1].weight
  }

  function WeighAll(batches: seq<seq<Order>>): nat {
    if batches == [] then 0 else WeighAll(batches[..|batches| - 1]) + Weigh(batches[|batches| - 1])
  }

  method TotalWeight(batch: seq<Order>) returns (total: nat)
    ensures total == Weigh(batch)
  {
    total := 0;
    for i := 0 to |batch|
      invariant total == Weigh(batch[..i])
    {
      assert batch[..i + 1][..i] == batch[..i];
      total := total + batch[i].weight;
    }
    assert batch[..|batch|] == batch;
  }

  method GetBatchedOrders(pending: seq<Order>, pairs: seq<Pair>) returns (batches: seq<seq<Order>>, totals: seq<nat>)
    ensures batches == Batches(pending, pairs)
    ensures |totals| == |batches| && forall i :: 0 <= i < |batches| ==> totals[i] == Weigh(batches[i])
  {
    batches, totals := [], [];
    var visited: set<nat> := {};
    for i := 0 to |pending|
      invariant Pool(batches, visited) == Scan(pending, pairs, i)
      invariant |totals| == |batches| && forall k :: 0 <= k < |batches| ==> totals[k] == Weigh(batches[k])
    {
      var current := pending[i];
      if current.id !in visited {
        ghost var before := visited;
        var batch := [current];
        visited := visited + {current.id};
        for k := 0 to |pairs|
          invariant Placing(batch, visited) == Gather(pending, pairs, current, before, k)
        {
          if pairs[k].a == current.id && pairs[k].b !in visited {
            var companion := Find(pending, pairs[k].b);
            if companion.Some? {
              batch := batch + [companion.value];
              visited := visited + {pairs[k].b};
            }
          }
        }
        var total := TotalWeight(batch);
        batches, totals := batches + [batch], totals + [total];
      }
    }
  }

  // ----- every order in one batch ------------------------------------------------

  predicate OwnIds(orders: seq<Order>) {
    forall i, j :: 0 <= i < j < |orders| ==> orders[i].id != orders[j].id
  }

  function Flat(batches: seq<seq<Order>>): seq<Order> {
    if batches == [] then [] else Flat(batches[..|batches| - 1]) + batches[|batches| - 1]
  }

  function Ids(orders: seq<Order>): set<nat> {
    set i | 0 <= i < |orders| :: orders[i].id
  }

  predicate All(orders: seq<Order>, pending: seq<Order>) {
    forall o :: o in orders ==> o in pending
  }

  lemma IdsOfSum(a: seq<Order>, b: seq<Order>)
    ensures Ids(a + b) == Ids(a) + Ids(b)
  {
    forall x ensures x in Ids(a + b) <==> x in Ids(a) || x in Ids(b) {
      if x in Ids(a) { var i :| 0 <= i < |a| && a[i].id == x; assert (a + b)[i].id == x; }
      if x in Ids(b) { var i :| 0 <= i < |b| && b[i].id == x; assert (a + b)[|a| + i].id == x; }
    }
  }

  lemma IdsOfOne(o: Order)
    ensures Ids([o]) == {o.id}
  {
    assert [o][0].id in Ids([o]);
  }

  lemma OwnIdsOfSum(a: seq<Order>, b: seq<Order>)
    requires OwnIds(a) && OwnIds(b) && Ids(a) !! Ids(b)
    ensures OwnIds(a + b)
  {
    forall i, j | 0 <= i < j < |a + b| ensures (a + b)[i].id != (a + b)[j].id {
      if i < |a| <= j { assert a[i].id in Ids(a) && b[j - |a|].id in Ids(b); }
    }
  }

  /** A batch is its head and orders that pair with it, none of them placed before. */
  lemma {:induction false} GatherIs(pending: seq<Order>, pairs: seq<Pair>, head: Order, visited: set<nat>, n: nat)
    requires n <= |pairs| && head in pending && head.id !in visited
    ensures var p := Gather(pending, pairs, head, visited, n);
            && p.batch != [] && p.batch[0] == head && OwnIds(p.batch) && All(p.batch, pending)
            && p.visited == visited + Ids(p.batch) && Ids(p.batch) !! visited
            && (forall k :: 1 <= k < |p.batch| ==> Pair(head.id, p.batch[k].id) in pairs)
            && (forall k :: 0 <= k < n && pairs[k].a == head.id && Find(pending, pairs[k].b).Some? ==>
                 pairs[k].b in p.visited)
  {
    if n == 0 {
      IdsOfOne(head);
    } else {
      GatherIs(pending, pairs, head, visited, n - 1);
      var p := Gather(pending, pairs, head, visited, n - 1);
      var companion := Find(pending, pairs[n - 1].b);
      if pairs[n - 1].a == head.id && pairs[n - 1].b !in p.visited && companion.Some? {
        IdsOfSum(p.batch, [companion.value]);
        IdsOfOne(companion.value);
        OwnIdsOfSum(p.batch, [companion.value]);
        assert pairs[n - 1] == Pair(head.id, companion.value.id);
      }
    }
  }

  /** Its first order is followed, in the scan, by everything that joined it. */
  predicate HeadFirst(pending: seq<Order>, batch: seq<Order>) {
    exists n :: 0 <= n < |pending| && batch != [] && pending[n] == batch[0]
      && forall k :: 1 <= k < |batch| ==> batch[k] in pending[n + 1..]
  }

  /** Every order but the first pairs with the first. */
  predicate Paired(pairs: seq<Pair>, batch: seq<Order>) {
    batch != [] && forall k :: 1 <= k < |batch| ==> Pair(batch[0].id, batch[k].id) in pairs
  }

  /** Everything pending that pairs from the head is placed. */
  predicate Exhausted(pending: seq<Order>, pairs: seq<Pair>, head: nat, visited: set<nat>) {
    forall k :: 0 <= k < |pairs| && pairs[k].a == head && Find(pending, pairs[k].b).Some? ==> pairs[k].b in visited
  }

  predicate NotPairedFromEarlier(pairs: seq<Pair>, batches: seq<seq<Order>>) {
    forall i, j :: 0 <= i < j < |batches| && batches[i] != [] && batches[j] != [] ==>
      Pair(batches[i][0].id, batches[j][0].id) !in pairs
  }

  predicate PoolOk(pending: seq<Order>, pairs: seq<Pair>, pool: Pool) {
    && (forall i :: 0 <= i < |pool.batches| ==>
          && HeadFirst(pending, pool.batches[i]) && Paired(pairs, pool.batches[i])
          && Exhausted(pending, pairs, pool.batches[i][0].id, pool.visited))
    && NotPairedFromEarlier(pairs, pool.batches)
  }

  predicate PlacedOk(pending: seq<Order>, pool: Pool) {
    && OwnIds(Flat(pool.batches)) && All(Flat(pool.batches), pending)
    && pool.visited == Ids(Flat(pool.batches))
  }

  lemma NewBatchFollows(pending: seq<Order>, batch: seq<Order>, n: nat, visited: set<nat>)
    requires n < |pending| && batch != [] && batch[0] == pending[n] && OwnIds(batch) && All(batch, pending)
    requires Ids(batch) !! visited && Ids(pending[..n]) <= visited
    ensures HeadFirst(pending, batch)
  {
    forall m | 0 <= m < n ensures pending[m].id in visited { assert pending[..n][m].id in Ids(pending[..n]); }
    forall k | 1 <= k < |batch| ensures batch[k] in pending[n + 1..] {
      assert batch[k] in batch;
      var j :| 0 <= j < |pending| && pending[j] == batch[k];
      assert batch[0].id != batch[k].id && batch[k].id in Ids(batch);
      assert pending[n + 1..][j - n - 1] == batch[k];
    }
  }

  lemma {:induction false} ScanPlaces(pending: seq<Order>, pairs: seq<Pair>, n: nat)
    requires n <= |pending|
    ensures PlacedOk(pending, Scan(pending, pairs, n)) && Ids(pending[..n]) <= Scan(pending, pairs, n).visited
  {
    if n == 0 {
      assert Ids([]) == {};
    } else {
      ScanPlaces(pending, pairs, n - 1);
      var pool, head := Scan(pending, pairs, n - 1), pending[n - 1];
      assert pending[..n] == pending[..n - 1] + [head];
      IdsOfSum(pending[..n - 1], [head]);
      IdsOfOne(head);
      if head.id !in pool.visited {
        GatherIs(pending, pairs, head, pool.visited, |pairs|);
        var p := Gather(pending, pairs, head, pool.visited, |pairs|);
        IdsOfSum(Flat(pool.batches), p.batch);
        OwnIdsOfSum(Flat(pool.batches), p.batch);
        assert p.batch[0].id in Ids(p.batch);
        assert Flat(pool.batches + [p.batch]) == Flat(pool.batches) + p.batch;
      }
    }
  }

  lemma NewHeadUnpaired(pending: seq<Order>, pairs: seq<Pair>, pool: Pool, batch: seq<Order>)
    requires PoolOk(pending, pairs, pool) && batch != [] && batch[0] in pending && batch[0].id !in pool.visited
    ensures NotPairedFromEarlier(pairs, pool.batches + [batch])
  {
    var all: seq<seq<Order>> := pool.batches + [batch];
    forall i, j | 0 <= i < j < |all| && all[i] != [] && all[j] != []
      ensures Pair(all[i][0].id, all[j][0].id) !in pairs
    {
      assert all[i] == pool.batches[i];
      if j < |pool.batches| {
        assert all[j] == pool.batches[j];
      } else {
        assert all[j] == batch && Exhausted(pending, pairs, pool.batches[i][0].id, pool.visited);
        assert Find(pending, batch[0].id).Some?;
      }
    }
  }

  lemma {:induction false} ScanPairs(pending: seq<Order>, pairs: seq<Pair>, n: nat)
    requires n <= |pending|
    ensures PoolOk(pending, pairs, Scan(pending, pairs, n))
  {
    if n > 0 {
      ScanPairs(pending, pairs, n - 1);
      ScanPlaces(pending, pairs, n - 1);
      var pool, head := Scan(pending, pairs, n - 1), pending[n - 1];
      if head.id !in pool.visited {
        GatherIs(pending, pairs, head, pool.visited, |pairs|);
        var p := Gather(pending, pairs, head, pool.visited, |pairs|);
        NewBatchFollows(pending, p.batch, n - 1, pool.visited);
        NewHeadUnpaired(pending, pairs, pool, p.batch);
      }
    }
  }

  lemma {:induction false} WeighSum(a: seq<Order>, b: seq<Order>)
    ensures Weigh(a + b) == Weigh(a) + Weigh(b)
  {
    if b == [] {
      assert a + b == a;
    } else {
      assert (a + b)[..|a + b| - 1] == a + b[..|b| - 1];
      WeighSum(a, b[..|b| - 1]);
    }
  }

  lemma {:induction false} FlatWeighs(batches: seq<seq<Order>>)
    ensures WeighAll(batches) == Weigh(Flat(batches))
  {
    if batches != [] {
      FlatWeighs(batches[..|batches| - 1]);
      WeighSum(Flat(batches[..|batches| - 1]), batches[|batches| - 1]);
    }
  }

  lemma HasMember(b: seq<Order>)
    ensures b != [] ==> exists o :: o in b
  {
    if b != [] { assert b[0] in b; }
  }

  /** Two lists of the same orders, none twice, weigh the same. */
  lemma {:induction false} SameOrdersWeighTheSame(a: seq<Order>, b: seq<Order>)
    requires OwnIds(a) && OwnIds(b) && All(a, b) && All(b, a)
    ensures Weigh(a) == Weigh(b) && |a| == |b|
  {
    if a == [] {
      HasMember(b);
    } else {
      var init, last := a[..|a| - 1], a[|a| - 1];
      assert last in b;
      var i :| 0 <= i < |b| && b[i] == last;
      WithoutLast(a, b, i);
      WeighWithout(b, i);
      SameOrdersWeighTheSame(init, b[..i] + b[i + 1..]);
    }
  }

  lemma WeighWithout(b: seq<Order>, i: nat)
    requires i < |b|
    ensures Weigh(b) == Weigh(b[..i] + b[i + 1..]) + b[i].weight
  {
    var before, one, after := b[..i], [b[i]], b[i + 1..];
    assert b == before + (one + after);
    WeighSum(before, one + after);
    WeighSum(one, after);
    WeighSum(before, after);
    assert Weigh(one) == b[i].weight;
  }

  lemma WithoutLast(a: seq<Order>, b: seq<Order>, i: nat)
    requires a != [] && i < |b| && b[i] == a[|a| - 1]
    requires OwnIds(a) && OwnIds(b) && All(a, b) && All(b, a)
    ensures var init, rest := a[..|a| - 1], b[..i] + b[i + 1..];
            OwnIds(init) && OwnIds(rest) && All(init, rest) && All(rest, init)
  {
    var init, rest := a[..|a| - 1], b[..i] + b[i + 1..];
    assert forall k :: 0 <= k < |rest| ==> rest[k] == b[if k < i then k else k + 1];
    forall o | o in init ensures o in rest {
      var m :| 0 <= m < |init| && init[m] == o;
      assert a[m] == o && o in b;
      var k :| 0 <= k < |b| && b[k] == o;
      assert k != i;
      assert rest[if k < i then k else k - 1] == o;
    }
    forall o | o in rest ensures o in init {
      var k :| 0 <= k < |rest| && rest[k] == o;
      assert o in b;
      var m :| 0 <= m < |a| && a[m] == o;
      assert m != |a| - 1;
      assert init[m] == o;
    }
  }

  /** Pooling puts every pending order in exactly one batch and loses no weight. */
  lemma EveryOrderInOneBatch(pending: seq<Order>, pairs: seq<Pair>)
    requires OwnIds(pending)
    ensures var batches := Batches(pending, pairs);
            && OwnIds(Flat(batches)) && |Flat(batches)| == |pending|
            && (forall o :: o in Flat(batches) <==> o in pending)
            && WeighAll(batches) == Weigh(pending)
  {
    ScanPlaces(pending, pairs, |pending|);
    var flat := Flat(Batches(pending, pairs));
    assert pending[..|pending|] == pending;
    forall o | o in pending ensures o in flat {
      var i :| 0 <= i < |pending| && pending[i] == o;
      assert o.id in Ids(pending);
      var k :| 0 <= k < |flat| && flat[k].id == o.id;
      assert flat[k] in flat;
      var j :| 0 <= j < |pending| && pending[j] == flat[k];
      assert i == j;
    }
    SameOrdersWeighTheSame(flat, pending);
    FlatWeighs(Batches(pending, pairs));
  }

  /** Each batch is a head and later orders that pair with it, and no head pairs
      from an earlier head. */
  lemma BatchesFollowTheirHeads(pending: seq<Order>, pairs: seq<Pair>)
    ensures var batches := Batches(pending, pairs);
            && NotPairedFromEarlier(pairs, batches)
            && forall i :: 0 <= i < |batches| ==> HeadFirst(pending, batches[i]) && Paired(pairs, batches[i])
  {
    ScanPairs(pending, pairs, |pending|);
  }

  // ----- scanning in the order of ids --------------------------------------------------

  predicate Ascending(pending: seq<Order>) {
    forall i, j :: 0 <= i < j < |pending| ==> pending[i].id < pending[j].id
  }

  /** Heads come in the order of their ids, none above `top`. */
  predicate HeadsRise(batches: seq<seq<Order>>, top: nat) {
    && (forall i :: 0 <= i < |batches| ==> batches[i] != [] && batches[i][0].id <= top)
    && (forall i, j :: 0 <= i < j < |batches| && batches[i] != [] && batches[j] != [] ==>
         batches[i][0].id < batches[j][0].id)
  }

  lemma {:induction false} HeadsAscend(pending: seq<Order>, pairs: seq<Pair>, n: nat)
    requires Ascending(pending) && 0 < n <= |pending|
    ensures HeadsRise(Scan(pending, pairs, n).batches, pending[n - 1].id)
  {
    var pool, head := Scan(pending, pairs, n - 1), pending[n - 1];
    if n == 1 {
      assert pool == Pool([], {});
    } else {
      HeadsAscend(pending, pairs, n - 1);
    }
    if head.id !in pool.visited {
      ScanPlaces(pending, pairs, n - 1);
      GatherIs(pending, pairs, head, pool.visited, |pairs|);
      RisingHeads(pool.batches, Gather(pending, pairs, head, pool.visited, |pairs|).batch);
    }
  }

  lemma RisingHeads(batches: seq<seq<Order>>, batch: seq<Order>)
    requires batch != [] && (batches == [] || (batch[0].id > 0 && HeadsRise(batches, batch[0].id - 1)))
    ensures HeadsRise(batches + [batch], batch[0].id)
  {
  }

  /** Scanned in the order of ids, with pairs listed from the lower id, the heads
      are an independent set: no two of them pair either way. */
  lemma HeadsAreIndependent(pending: seq<Order>, pairs: seq<Pair>)
    requires Ascending(pending) && forall k :: 0 <= k < |pairs| ==> pairs[k].a < pairs[k].b
    ensures var batches := Batches(pending, pairs);
            forall i, j :: 0 <= i < |batches| && 0 <= j < |batches| && batches[i] != [] && batches[j] != [] ==>
              Pair(batches[i][0].id, batches[j][0].id) !in pairs
  {
    ScanPairs(pending, pairs, |pending|);
    if pending != [] { HeadsAscend(pending, pairs, |pending|); }
    var batches: seq<seq<Order>> := Batches(pending, pairs);
    forall i, j | 0 <= i < |batches| && 0 <= j < |batches| && batches[i] != [] && batches[j] != []
      ensures Pair(batches[i][0].id, batches[j][0].id) !in pairs
    {
      assert NotPairedFromEarlier(pairs, batches);
      assert forall p :: p in pairs ==> p.a < p.b;
    }
  }

  /** Scanned the other way round, two orders that pair head a batch each. */
  lemma ScanOrderMatters(x: Order, y: Order)
    requires x.id < y.id
    ensures Batches([x, y], [Pair(x.id, y.id)]) == [[x, y]]
    ensures Batches([y, x], [Pair(x.id, y.id)]) == [[y], [x]]
  {
    var pairs := [Pair(x.id, y.id)];
    assert Gather([x, y], pairs, x, {}, 0) == Placing([x], {x.id});
    assert Find([x, y], y.id) == Some(y);
    assert Gather([x, y], pairs, x, {}, 1) == Placing([x, y], {x.id, y.id});
    assert Scan([x, y], pairs, 0) == Pool([], {});
    assert Scan([x, y], pairs, 1) == Pool([[x, y]], {x.id, y.id});
    assert Scan([x, y], pairs, 2) == Pool([[x, y]], {x.id, y.id});
    assert Gather([y, x], pairs, y, {}, 0) == Placing([y], {y.id});
    assert Gather([y, x], pairs, y, {}, 1) == Placing([y], {y.id});
    assert Scan([y, x], pairs, 0) == Pool([], {});
    assert Scan([y, x], pairs, 1) == Pool([[y]], {y.id});
    assert Gather([y, x], pairs, x, {y.id}, 0) == Placing([x], {x.id, y.id});
    assert Gather([y, x], pairs, x, {y.id}, 1) == Placing([x], {x.id, y.id});
    assert Scan([y, x], pairs, 2) == Pool([[y], [x]], {x.id, y.id});
  }
}
