/** Silent session refresh: the phone's token store and its single-flight guard
    against the server's single-use token rotation, over a network that may
    delay, lose or fail any reply. */
module Session {
  import opened Prelude

  /** How far the server got with one refresh request.  It validates the token,
      revokes it and issues the next one in three separate statements, so a
      failure can fall after the token is spent. */
  datatype Phase = Sent | Validated | Spent | Granted(next: nat) | Denied | Broken(spent: bool)

  predicate Reached(p: Phase) {
    p.Spent? || p.Granted? || (p.Broken? && p.spent)
  }

  datatype Request = Request(token: nat, phase: Phase)

  /** One refresh on the phone.  `Saving` and `Clearing` have changed the cache
      and are still writing to secure storage. */
  datatype Call = Waiting(request: nat) | Saving(request: nat) | Clearing(request: nat) | Settled(result: Option<nat>)

  /** Refresh tokens are numbered as the server issues them; `owners` says for
      whom.  `invalidated` are those that expired or were revoked other than by a
      refresh.  `inFlight` is whether a refresh promise is held, `joined` the
      refresh each caller was handed, and `saved` the requests whose answer made
      it to storage. */
  datatype World = World(
    owners: seq<nat>,
    live: set<nat>,
    invalidated: set<nat>,
    requests: seq<Request>,
    cache: Option<nat>,
    stored: Option<nat>,
    user: Option<nat>,
    calls: seq<Call>,
    inFlight: bool,
    joined: seq<nat>,
    saved: set<nat>
  )

  datatype Event =
    | Ask
    | Validate(r: nat)
    | Spend(r: nat)
    | Issue(r: nat)
    | Break(r: nat)
    | Deliver(i: nat)
    | GiveUp(i: nat)
    | Save(i: nat)
    | Wipe(i: nat)
    | Release
    | Restart
    | Hydrate
    | SignIn(user: nat)
    | SignOut(reached: bool)
    | Invalidate(token: nat)

  predicate Running(w: World) {
    w.calls != [] && !w.calls[|w.calls| - 1].Settled?
  }

  predicate Known(w: World, r: nat) {
    r < |w.requests|
  }

  predicate Enabled(w: World, e: Event) {
    match e
    case Ask => true
    case Validate(r) => Known(w, r) && w.requests[r].phase.Sent?
    case Spend(r) => Known(w, r) && w.requests[r].phase.Validated?
    case Issue(r) => Known(w, r) && w.requests[r].phase.Spent? && w.requests[r].token < |w.owners|
    case Break(r) =>
      Known(w, r) && (w.requests[r].phase.Sent? || w.requests[r].phase.Validated? || w.requests[r].phase.Spent?)
    case Deliver(i) =>
      && i < |w.calls| && w.calls[i].Waiting? && Known(w, w.calls[i].request)
      && var phase := w.requests[w.calls[i].request].phase; phase.Granted? || phase.Denied? || phase.Broken?
    case GiveUp(i) => i < |w.calls| && w.calls[i].Waiting?
    case Save(i) =>
      i < |w.calls| && w.calls[i].Saving? && Known(w, w.calls[i].request)
        && w.requests[w.calls[i].request].phase.Granted?
    case Wipe(i) => i < |w.calls| && w.calls[i].Clearing?
    case Release => w.inFlight && !Running(w)
    case Restart => true
    case Hydrate => true
    case SignIn(_) => true
    case SignOut(_) => true
    case Invalidate(t) => t < |w.owners|
  }

  function Asked(w: World): World {
    if w.inFlight && w.calls != [] then w.(joined := w.joined + [|w.calls| - 1])
    else
      var token := if w.cache.Some? then w.cache else w.stored;
      var v := w.(inFlight := true, joined := w.joined + [|w.calls|]);
      if token.None? then v.(calls := w.calls + [Settled(None)])
      else v.(calls := w.calls + [Waiting(|w.requests|)], requests := w.requests + [Request(token.value, Sent)])
  }

  function AtPhase(w: World, r: nat, phase: Phase): World
    requires Known(w, r)
  {
    w.(requests := w.requests[r := w.requests[r].(phase := phase)])
  }

  function Delivered(w: World, i: nat): World
    requires Enabled(w, Deliver(i))
  {
    var r := w.calls[i].request;
    match w.requests[r].phase
    case Granted(next) => w.(cache := Some(next), calls := w.calls[i := Saving(r)])
    case Denied => w.(cache := None, calls := w.calls[i := Clearing(r)])
    case _ => w.(calls := w.calls[i := Settled(None)])
  }

  function Next(w: World, e: Event): World {
    if !Enabled(w, e) then w else
    match e
    case Ask => Asked(w)
    case Validate(r) => AtPhase(w, r, if w.requests[r].token in w.live then Validated else Denied)
    case Spend(r) => AtPhase(w, r, Spent).(live := w.live - {w.requests[r].token})
    case Issue(r) =>
      AtPhase(w, r, Granted(|w.owners|))
      .(live := w.live + {|w.owners|}, owners := w.owners + [w.owners[w.requests[r].token]])
    case Break(r) => AtPhase(w, r, Broken(w.requests[r].phase.Spent?))
    case Deliver(i) => Delivered(w, i)
    case GiveUp(i) => w.(calls := w.calls[i := Settled(None)])
    case Save(i) =>
      var r := w.calls[i].request;
      var next := w.requests[r].phase.next;
      w.(stored := Some(next), calls := w.calls[i := Settled(Some(next))], saved := w.saved + {r})
    case Wipe(i) => w.(stored := None, user := None, calls := w.calls[i := Settled(None)])
    case Release => w.(inFlight := false)
    case Restart =>
      w.(cache := None, inFlight := false,
         calls := if Running(w) then w.calls[|w.calls| - 1 := Settled(None)] else w.calls)
    case Hydrate => w.(cache := w.stored)
    case SignIn(user) =>
      w.(owners := w.owners + [user], live := w.live + {|w.owners|},
         cache := Some(|w.owners|), stored := Some(|w.owners|), user := Some(user))
    case SignOut(reached) =>
      var gone := if reached && w.cache.Some? then {w.cache.value} else {};
      w.(cache := None, stored := None, user := None, live := w.live - gone, invalidated := w.invalidated + gone)
    case Invalidate(t) => w.(live := w.live - {t}, invalidated := w.invalidated + {t})
  }

  function Fresh(): World {
    World([], {}, {}, [], None, None, None, [], false, [], {})
  }

  function Run(es: seq<Event>): World {
    if es == [] then Fresh() else Next(Run(es[..|es| - 1]), es[|es| - 1])
  }

  // ----- what holds in every run ------------------------------------------------

  predicate Used(requests: seq<Request>, t: nat) {
    exists r :: 0 <= r < |requests| && requests[r].token == t && Reached(requests[r].phase)
  }

  /** A token works exactly until something revokes it or a refresh spends it. */
  predicate TokenOk(w: World, t: nat) {
    t in w.live <==> t < |w.owners| && t !in w.invalidated && !Used(w.requests, t)
  }

  predicate RequestOk(w: World, r: nat)
    requires Known(w, r)
  {
    var q := w.requests[r];
    && q.token < |w.owners|
    && (q.phase.Granted? ==> q.token < q.phase.next < |w.owners| && w.owners[q.phase.next] == w.owners[q.token])
    && (q.phase.Denied? ==> q.token !in w.live)
  }

  predicate CallOk(w: World, c: Call) {
    match c
    case Waiting(r) => Known(w, r)
    case Saving(r) => Known(w, r) && w.requests[r].phase.Granted?
    case Clearing(r) => Known(w, r) && w.requests[r].phase.Denied?
    case Settled(_) => true
  }

  /** At most one refresh runs at a time, and only while its promise is held. */
  predicate SingleFlight(w: World) {
    && (forall i :: 0 <= i < |w.calls| - 1 ==> w.calls[i].Settled?)
    && (Running(w) ==> w.inFlight)
    && (w.inFlight ==> w.calls != [])
    && (forall i :: 0 <= i < |w.calls| ==> CallOk(w, w.calls[i]))
    && (forall k :: 0 <= k < |w.joined| ==> w.joined[k] < |w.calls|)
  }

  predicate TokensIssued(w: World) {
    && (w.cache.Some? ==> w.cache.value < |w.owners|)
    && (w.stored.Some? ==> w.stored.value < |w.owners|)
    && (forall t :: t in w.invalidated ==> t < |w.owners|)
  }

  ghost predicate Inv(w: World) {
    && SingleFlight(w) && TokensIssued(w)
    && (forall t :: TokenOk(w, t))
    && (forall r :: 0 <= r < |w.requests| ==> RequestOk(w, r))
  }

  lemma UsedAfter(requests: seq<Request>, r: nat, q: Request, t: nat)
    requires r < |requests| && q.token == requests[r].token && (Reached(requests[r].phase) ==> Reached(q.phase))
    ensures Used(requests[r := q], t) <==> Used(requests, t) || (t == q.token && Reached(q.phase))
  {
    var after := requests[r := q];
    if Used(requests, t) {
      var k :| 0 <= k < |requests| && requests[k].token == t && Reached(requests[k].phase);
      assert after[k].token == t && Reached(after[k].phase);
    }
    if t == q.token && Reached(q.phase) { assert after[r].token == t && Reached(after[r].phase); }
    if Used(after, t) {
      var k :| 0 <= k < |after| && after[k].token == t && Reached(after[k].phase);
      if k != r { assert requests[k].token == t && Reached(requests[k].phase); }
    }
  }

  lemma StepKeepsToken(w: World, e: Event, t: nat)
    requires Inv(w)
    ensures TokenOk(Next(w, e), t)
  {
    assert TokenOk(w, t);
    if Enabled(w, e) {
      match e
      case Ask =>
        var v := Asked(w);
        if Used(v.requests, t) {
          var k :| 0 <= k < |v.requests| && v.requests[k].token == t && Reached(v.requests[k].phase);
          assert k < |w.requests| && w.requests[k] == v.requests[k];
        }
        if Used(w.requests, t) {
          var k :| 0 <= k < |w.requests| && w.requests[k].token == t && Reached(w.requests[k].phase);
          assert v.requests[k] == w.requests[k];
        }
      case Validate(r) =>
        UsedAfter(w.requests, r,
                  w.requests[r].(phase := if w.requests[r].token in w.live then Validated else Denied), t);
      case Spend(r) => UsedAfter(w.requests, r, w.requests[r].(phase := Spent), t);
      case Issue(r) => UsedAfter(w.requests, r, w.requests[r].(phase := Granted(|w.owners|)), t); UnissuedUnused(w);
      case Break(r) => UsedAfter(w.requests, r, w.requests[r].(phase := Broken(w.requests[r].phase.Spent?)), t);
      case SignIn(_) => UnissuedUnused(w);
      case _ =>
    }
  }

  lemma UnissuedUnused(w: World)
    requires Inv(w)
    ensures !Used(w.requests, |w.owners|)
  {
    forall r | 0 <= r < |w.requests| ensures w.requests[r].token < |w.owners| { assert RequestOk(w, r); }
  }

  lemma IssueKeepsRequests(w: World, k: nat, r: nat)
    requires Inv(w) && Enabled(w, Issue(k)) && r < |w.requests|
    ensures RequestOk(Next(w, Issue(k)), r)
  {
    assert RequestOk(w, r) && RequestOk(w, k);
  }

  lemma StepKeepsRequests(w: World, e: Event, r: nat)
    requires Inv(w) && r < |Next(w, e).requests|
    ensures RequestOk(Next(w, e), r)
  {
    if r < |w.requests| && Enabled(w, e) {
      assert RequestOk(w, r);
      match e
      case Validate(k) => assert RequestOk(w, k);
      case Issue(k) => IssueKeepsRequests(w, k, r);
      case _ =>
    }
  }

  lemma AnswersStay(w: World, e: Event, r: nat)
    requires Known(w, r)
    ensures Known(Next(w, e), r)
    ensures w.requests[r].phase.Granted? || w.requests[r].phase.Denied? ==>
              Next(w, e).requests[r].phase == w.requests[r].phase
  {
  }

  /** A call that a step leaves as it was. */
  lemma SameCall(w: World, e: Event, c: Call)
    requires CallOk(w, c)
    ensures CallOk(Next(w, e), c)
  {
    if !c.Settled? { AnswersStay(w, e, c.request); }
  }

  lemma StepKeepsCalls(w: World, e: Event, i: nat)
    requires Inv(w) && i < |Next(w, e).calls|
    ensures CallOk(Next(w, e), Next(w, e).calls[i])
  {
    if i < |w.calls| {
      assert CallOk(w, w.calls[i]);
      SameCall(w, e, w.calls[i]);
    }
  }

  lemma StepKeepsTokensIssued(w: World, e: Event)
    requires Inv(w)
    ensures TokensIssued(Next(w, e))
  {
    match e
    case Deliver(i) => if Enabled(w, e) { assert RequestOk(w, w.calls[i].request); }
    case Save(i) => if Enabled(w, e) { assert RequestOk(w, w.calls[i].request); }
    case _ =>
  }

  lemma OnlyTheLastCallRuns(w: World, i: nat)
    requires Inv(w) && i < |w.calls| && !w.calls[i].Settled?
    ensures i == |w.calls| - 1 && Running(w) && w.inFlight
  {
  }

  lemma StepKeepsFlight(w: World, e: Event)
    requires Inv(w)
    ensures SingleFlight(Next(w, e))
  {
    forall i | 0 <= i < |Next(w, e).calls| ensures CallOk(Next(w, e), Next(w, e).calls[i]) { StepKeepsCalls(w, e, i); }
    if Enabled(w, e) {
      match e
      case Deliver(i) => OnlyTheLastCallRuns(w, i);
      case GiveUp(i) => OnlyTheLastCallRuns(w, i);
      case Save(i) => OnlyTheLastCallRuns(w, i);
      case Wipe(i) => OnlyTheLastCallRuns(w, i);
      case _ =>
    }
  }

  lemma StepKeepsInv(w: World, e: Event)
    requires Inv(w)
    ensures Inv(Next(w, e))
  {
    StepKeepsFlight(w, e);
    StepKeepsTokensIssued(w, e);
    forall t ensures TokenOk(Next(w, e), t) { StepKeepsToken(w, e, t); }
    forall r | 0 <= r < |Next(w, e).requests| ensures RequestOk(Next(w, e), r) { StepKeepsRequests(w, e, r); }
  }

  /** Over every run, whatever the network, the driver and other devices do. */
  lemma {:induction false} ProtocolOverEveryRun(es: seq<Event>)
    ensures Inv(Run(es))
  {
    if es != [] {
      ProtocolOverEveryRun(es[..|es| - 1]);
      StepKeepsInv(Run(es[..|es| - 1]), es[|es| - 1]);
    } else {
      forall t ensures TokenOk(Fresh(), t) {}
    }
  }

  // ----- one refresh for everyone --------------------------------------------------

  /** While a refresh runs, whoever asks is handed that one and no request goes
      out; what a settled refresh answered never changes. */
  lemma JoinersShareOneRefresh(w: World, e: Event)
    requires Inv(w)
    ensures |Next(w, e).requests| > |w.requests| ==> e.Ask? && !Running(w)
    ensures e.Ask? && Running(w) ==>
              && Next(w, e) == w.(joined := w.joined + [|w.calls| - 1])
              && forall i :: 0 <= i < |w.calls| && !w.calls[i].Settled? ==> i == |w.calls| - 1
    ensures forall i :: 0 <= i < |w.calls| && w.calls[i].Settled? ==>
              i < |Next(w, e).calls| && Next(w, e).calls[i] == w.calls[i]
  {
  }

  /** Only a refusal of the refresh token itself, or the driver, clears it. */
  lemma OnlyARefusalClears(w: World, e: Event)
    requires Inv(w) && w.stored.Some? && Next(w, e).stored.None?
    ensures e.SignOut? || (e.Wipe? && w.calls[e.i].Clearing? && w.requests[w.calls[e.i].request].phase.Denied?)
  {
    if Enabled(w, e) && e.Wipe? { assert CallOk(w, w.calls[e.i]); }
  }

  // ----- the session, when nobody signs in or out during a refresh ------------------

  /** Signing in or out while a refresh runs, or reading storage back over a cache
      that is ahead of it. */
  predicate Disturbs(w: World, e: Event) {
    || ((e.SignIn? || e.SignOut?) && Running(w))
    || (e.Hydrate? && Running(w) && !w.calls[|w.calls| - 1].Waiting?)
  }

  predicate CallAgrees(w: World) {
    if !Running(w) then w.cache.None? || w.cache == w.stored
    else
      var c := w.calls[|w.calls| - 1];
      && Known(w, c.request)
      && w.stored == Some(w.requests[c.request].token)
      && (c.Waiting? ==> w.cache.None? || w.cache == w.stored)
      && (c.Saving? ==> w.requests[c.request].phase.Granted? && w.cache == Some(w.requests[c.request].phase.next))
      && (c.Clearing? ==> w.cache.None?)
  }

  /** The phone's tokens belong to the driver it shows, and every answer it saved
      is older than the token it now holds. */
  predicate SessionOk(w: World) {
    && CallAgrees(w)
    && (w.stored.Some? ==> w.stored.value < |w.owners| && w.user == Some(w.owners[w.stored.value]))
    && (forall r :: r in w.saved ==> r < |w.requests|)
    && (w.stored.Some? ==> forall r :: r in w.saved && r < |w.requests| ==> w.requests[r].token < w.stored.value)
  }

  lemma DeliverKeepsSession(w: World, i: nat)
    requires Inv(w) && SessionOk(w) && Enabled(w, Deliver(i))
    ensures SessionOk(Next(w, Deliver(i)))
  {
    OnlyTheLastCallRuns(w, i);
  }

  lemma SaveKeepsSession(w: World, i: nat)
    requires Inv(w) && SessionOk(w) && Enabled(w, Save(i))
    ensures SessionOk(Next(w, Save(i)))
  {
    OnlyTheLastCallRuns(w, i);
    assert RequestOk(w, w.calls[i].request);
  }

  lemma SignInKeepsSession(w: World, user: nat)
    requires Inv(w) && SessionOk(w) && !Running(w)
    ensures SessionOk(Next(w, SignIn(user)))
  {
    forall r | r in w.saved ensures w.requests[r].token < |w.owners| { assert RequestOk(w, r); }
  }

  lemma ServerKeepsSession(w: World, e: Event)
    requires Inv(w) && SessionOk(w) && (e.Validate? || e.Spend? || e.Issue? || e.Break?)
    ensures SessionOk(Next(w, e))
  {
    if Enabled(w, e) {
      var v := Next(w, e);
      assert forall r :: 0 <= r < |w.requests| ==>
        v.requests[r].token == w.requests[r].token && (w.requests[r].phase.Granted? ==> v.requests[r] == w.requests[r]);
      assert w.owners <= v.owners;
    }
  }

  lemma CalmStepKeepsSession(w: World, e: Event)
    requires Inv(w) && SessionOk(w) && !Disturbs(w, e)
    ensures SessionOk(Next(w, e))
  {
    if Enabled(w, e) {
      match e
      case Validate(_) => ServerKeepsSession(w, e);
      case Spend(_) => ServerKeepsSession(w, e);
      case Issue(_) => ServerKeepsSession(w, e);
      case Break(_) => ServerKeepsSession(w, e);
      case Deliver(i) => DeliverKeepsSession(w, i);
      case GiveUp(i) => OnlyTheLastCallRuns(w, i);
      case Save(i) => SaveKeepsSession(w, i);
      case Wipe(i) => OnlyTheLastCallRuns(w, i);
      case SignIn(user) => SignInKeepsSession(w, user);
      case _ =>
    }
  }

  predicate CalmRun(es: seq<Event>) {
    forall i {:trigger es[i]} :: 0 <= i < |es| ==> !Disturbs(Run(es[..i]), es[i])
  }

  lemma {:induction false} SessionOverCalmRuns(es: seq<Event>)
    requires CalmRun(es)
    ensures SessionOk(Run(es)) && Inv(Run(es))
  {
    ProtocolOverEveryRun(es);
    if es != [] {
      var before := es[..|es| - 1];
      forall i | 0 <= i < |before| ensures !Disturbs(Run(before[..i]), before[i]) {
        assert before[i] == es[i] && before[..i] == es[..i];
      }
      SessionOverCalmRuns(before);
      ProtocolOverEveryRun(before);
      CalmStepKeepsSession(Run(before), es[|es| - 1]);
    }
  }

  /** The stored refresh token works, unless it expired or was revoked elsewhere
      or some refresh spent it and its answer never made it to storage. */
  lemma StoredTokenWorksExactly(es: seq<Event>)
    requires CalmRun(es) && Run(es).stored.Some?
    ensures var w := Run(es);
            w.stored.value in w.live <==>
              && w.stored.value !in w.invalidated
              && forall r :: 0 <= r < |w.requests| && r !in w.saved && w.requests[r].token == w.stored.value ==>
                   !Reached(w.requests[r].phase)
  {
    SessionOverCalmRuns(es);
    var w := Run(es);
    assert TokenOk(w, w.stored.value);
  }

  /** The tokens on the phone are those of the driver it shows. */
  lemma TokensBelongToTheDriverShown(es: seq<Event>)
    requires CalmRun(es)
    ensures var w := Run(es);
            w.stored.Some? ==> w.stored.value < |w.owners| && w.user == Some(w.owners[w.stored.value])
  {
    SessionOverCalmRuns(es);
  }

  /** A driver who does not sign out is only ever signed out over a token that
      had stopped working. */
  lemma SignedOutOnlyOverADeadToken(es: seq<Event>, e: Event)
    requires CalmRun(es) && Run(es).stored.Some?
    ensures Next(Run(es), e).stored.None? ==> e.SignOut? || Run(es).stored.value !in Run(es).live
  {
    SessionOverCalmRuns(es);
    WipedTokenWasDead(Run(es), e);
  }

  lemma WipedTokenWasDead(w: World, e: Event)
    requires Inv(w) && SessionOk(w) && w.stored.Some?
    ensures Next(w, e).stored.None? ==> e.SignOut? || w.stored.value !in w.live
  {
    if Enabled(w, e) && e.Wipe? {
      OnlyTheLastCallRuns(w, e.i);
      assert CallOk(w, w.calls[e.i]);
      assert RequestOk(w, w.calls[e.i].request);
    }
  }

  // ----- what goes wrong otherwise ------------------------------------------------------

  /** A refresh whose answer is on its way: reached by signing in, asking, and the
      server doing its part. */
  lemma AnswerOnItsWay(user: nat) returns (es: seq<Event>)
    ensures |es| == 5
    ensures Run(es) == World([user, user], {1}, {}, [Request(0, Granted(1))], Some(0), Some(0), Some(user),
                             [Waiting(0)], true, [0], {})
  {
    es := [];
    RunSnoc(es, SignIn(user));
    es := es + [SignIn(user)];
    RunSnoc(es, Ask);
    es := es + [Ask];
    RunSnoc(es, Validate(0));
    es := es + [Validate(0)];
    RunSnoc(es, Spend(0));
    es := es + [Spend(0)];
    RunSnoc(es, Issue(0));
    es := es + [Issue(0)];
  }

  lemma RunSnoc(es: seq<Event>, e: Event)
    ensures Run(es + [e]) == Next(Run(es), e)
  {
    assert (es + [e])[..|es|] == es;
  }

  /** Signing out while an answer is on its way does not last: it puts working
      tokens back. */
  lemma SignOutDuringRefreshIsUndone(w: World, i: nat, reached: bool)
    requires Inv(w) && i < |w.calls| && w.calls[i].Waiting? && w.requests[w.calls[i].request].phase.Granted?
    requires w.cache != Some(w.requests[w.calls[i].request].phase.next)
    ensures var next := w.requests[w.calls[i].request].phase.next;
            var v := Next(Next(Next(w, SignOut(reached)), Deliver(i)), Save(i));
            v.stored == v.cache == Some(next) && (next in v.live <==> next in w.live)
  {
  }

  /** A run that ends so: nobody is signed in, and the phone holds a token that
      works. */
  lemma SignedOutWithAWorkingToken(user: nat, reached: bool) returns (es: seq<Event>)
    ensures |es| == 8 && es[5] == SignOut(reached) && Run(es[..5]).user == Some(user)
    ensures Run(es) == World([user, user], {1}, if reached then {0} else {}, [Request(0, Granted(1))], Some(1), Some(1),
                             None, [Settled(Some(1))], true, [0], {0})
  {
    var before := AnswerOnItsWay(user);
    RunSnoc(before, SignOut(reached));
    es := before + [SignOut(reached)];
    RunSnoc(es, Deliver(0));
    es := es + [Deliver(0)];
    RunSnoc(es, Save(0));
    es := es + [Save(0)];
    assert es[..5] == before;
  }

  /** Signing in as another driver at that moment leaves the first driver's
      tokens under the second one's name. */
  lemma SignInDuringRefreshMixesDrivers(w: World, i: nat, user: nat)
    requires Inv(w) && i < |w.calls| && w.calls[i].Waiting? && w.requests[w.calls[i].request].phase.Granted?
    ensures var r := w.requests[w.calls[i].request];
            var v := Next(Next(Next(w, SignIn(user)), Deliver(i)), Save(i));
            && v.user == Some(user) && v.stored == v.cache == Some(r.phase.next)
            && r.token < |w.owners| && r.phase.next < |v.owners| && v.owners[r.phase.next] == w.owners[r.token]
  {
    assert RequestOk(w, w.calls[i].request);
  }

  /** Once the server has spent the token, a phone that stopped waiting is signed
      out by its next refresh although nobody revoked anything. */
  lemma LostAnswerEndsTheSession(w: World)
    requires Inv(w) && SessionOk(w) && Running(w)
    requires var c := w.calls[|w.calls| - 1]; c.Waiting? && Reached(w.requests[c.request].phase)
    ensures var i, r := |w.calls|, |w.requests|;
            var v := Next(Next(Next(w, GiveUp(i - 1)), Release), Ask);
            && v.requests == w.requests + [Request(w.stored.value, Sent)]
            && Next(Next(Next(v, Validate(r)), Deliver(i)), Wipe(i)).stored == None
  {
    var c := w.calls[|w.calls| - 1];
    assert TokenOk(w, w.stored.value);
    assert w.requests[c.request].token == w.stored.value;
  }

  /** Reading storage back over the cache while an answer is being saved makes the
      phone present the spent token again, and lose the one it just saved. */
  lemma HydrateWhileSavingEndsTheSession(w: World)
    requires Inv(w) && SessionOk(w) && Running(w) && w.calls[|w.calls| - 1].Saving?
    ensures var i, r := |w.calls|, |w.requests|;
            var next := w.requests[w.calls[i - 1].request].phase.next;
            var v := Next(Next(w, Hydrate), Save(i - 1));
            && v.stored == Some(next) && v.cache == w.stored && v.cache != v.stored
            && var u := Next(Next(v, Release), Ask);
               && u.requests == w.requests + [Request(w.stored.value, Sent)]
               && Next(Next(Next(u, Validate(r)), Deliver(i)), Wipe(i)).stored == None
  {
    var c := w.calls[|w.calls| - 1];
    assert RequestOk(w, c.request);
    assert TokenOk(w, w.stored.value);
    assert w.requests[c.request].token == w.stored.value;
  }

  /** Two requests that were both validated before either spent the token are
      both answered: one single-use token has become two that work. */
  lemma OneTokenSpentTwice(w: World, r: nat, q: nat)
    requires Inv(w) && r < |w.requests| && q < |w.requests| && r != q
    requires w.requests[r] == w.requests[q] && w.requests[r].phase.Validated?
    ensures var n := |w.owners|;
            var v := Next(Next(Next(Next(w, Spend(r)), Issue(r)), Spend(q)), Issue(q));
            v.live == w.live - {w.requests[r].token} + {n, n + 1}
  {
    assert RequestOk(w, r) && TokenOk(w, |w.owners|) && TokenOk(w, |w.owners| + 1);
    var a := SpendAndIssue(w, r);
    var b := SpendAndIssue(a, q);
  }

  /** A run that leads there: the phone stops waiting and asks again, and the
      server takes both requests up before it revokes the token. */
  lemma TwoValidatedAtOnce(user: nat) returns (es: seq<Event>)
    ensures Run(es) == World([user], {0}, {}, [Request(0, Validated), Request(0, Validated)], Some(0), Some(0),
                             Some(user), [Settled(None), Waiting(1)], true, [0, 1], {})
  {
    es := [];
    RunSnoc(es, SignIn(user));
    es := es + [SignIn(user)];
    RunSnoc(es, Ask);
    es := es + [Ask];
    RunSnoc(es, Validate(0));
    es := es + [Validate(0)];
    RunSnoc(es, GiveUp(0));
    es := es + [GiveUp(0)];
    RunSnoc(es, Release);
    es := es + [Release];
    RunSnoc(es, Ask);
    es := es + [Ask];
    RunSnoc(es, Validate(1));
    es := es + [Validate(1)];
  }

  /** One sign-in, and two refresh tokens that work. */
  lemma TwoTokensFromOneSignIn(user: nat) returns (es: seq<Event>)
    ensures Run(es).owners == [user, user, user] && Run(es).live == {1, 2}
  {
    es := TwoValidatedAtOnce(user);
    var one := SpendAndIssue(Run(es), 0);
    RunSnoc(es, Spend(0));
    RunSnoc(es + [Spend(0)], Issue(0));
    es := es + [Spend(0)] + [Issue(0)];
    var two := SpendAndIssue(one, 1);
    RunSnoc(es, Spend(1));
    RunSnoc(es + [Spend(1)], Issue(1));
    es := es + [Spend(1)] + [Issue(1)];
  }

  lemma SpendAndIssue(w: World, r: nat) returns (v: World)
    requires r < |w.requests| && w.requests[r].phase.Validated? && w.requests[r].token < |w.owners|
    ensures v == Next(Next(w, Spend(r)), Issue(r))
    ensures v.live == w.live - {w.requests[r].token} + {|w.owners|}
    ensures v.owners == w.owners + [w.owners[w.requests[r].token]]
    ensures |v.requests| == |w.requests| && forall q :: 0 <= q < |w.requests| && q != r ==>
              v.requests[q] == w.requests[q]
  {
    v := Next(Next(w, Spend(r)), Issue(r));
  }

  /** ...and only then: a token is validated for one request only while no other
      has spent it. */
  lemma ValidatedOnlyWhileUnspent(w: World, r: nat)
    requires Inv(w) && Enabled(w, Validate(r)) && Next(w, Validate(r)).requests[r].phase.Validated?
    ensures !Used(w.requests, w.requests[r].token)
  {
    assert TokenOk(w, w.requests[r].token);
  }
}
