/** A driver's cash commission reaches the platform in three ways: kept back from a
    payout, handed to dispatch, or paid from the driver's phone.  The first two
    settle jobs as they find them; the last chooses the jobs in one statement and
    marks them in a later one. */
module CashRecovery {
  import opened Prelude
  import opened CashSettlement

  /** A cash job, the oldest first.  `recovered` is history: how often its commission
      reached the platform. */
  datatype Job = Job(fee: nat, settled: bool, recovered: nat)

  /** `claims` are the jobs that payments from the phone have chosen and not marked. */
  datatype Till = Till(jobs: seq<Job>, claims: seq<seq<nat>>)

  datatype Event =
    | Collect(fee: nat)
    | Settle(job: nat)
    | Net(ceiling: nat)
    | Choose(paid: nat)
    | Mark(claim: nat)

  function Owed(jobs: seq<Job>): seq<nat> {
    if jobs == [] then []
    else
      var last := |jobs| - 1;
      Owed(jobs[..last]) + (if !jobs[last].settled && jobs[last].fee > 0 then [last] else [])
  }

  function FeesOf(jobs: seq<Job>, ids: seq<nat>): seq<nat> {
    seq(|ids|, i requires 0 <= i < |ids| => if ids[i] < |jobs| then jobs[ids[i]].fee else 0)
  }

  /** The oldest whole jobs that an amount covers. */
  function Chosen(jobs: seq<Job>, amount: nat): seq<nat> {
    Owed(jobs)[..Covered(FeesOf(jobs, Owed(jobs)), amount)]
  }

  function Others(t: Till, i: nat): seq<seq<nat>>
    requires i < |t.claims|
  {
    t.claims[..i] + t.claims[i + 1..]
  }

  /** The jobs an event settles: those it finds owing, or those chosen earlier. */
  function SettledBy(t: Till, e: Event): seq<nat> {
    match e
    case Settle(k) => if k < |t.jobs| && !t.jobs[k].settled then [k] else []
    case Net(ceiling) => Chosen(t.jobs, ceiling)
    case Mark(i) => if i < |t.claims| then t.claims[i] else []
    case _ => []
  }

  function Recovered(jobs: seq<Job>, ids: seq<nat>): (r: seq<Job>)
    ensures |r| == |jobs|
  {
    seq(|jobs|, k requires 0 <= k < |jobs| =>
      if k in ids then jobs[k].(settled := true, recovered := jobs[k].recovered + 1) else jobs[k])
  }

  /** Claims still open after an event, apart from one it makes. */
  function StillOpen(t: Till, e: Event): seq<seq<nat>> {
    if e.Mark? && e.claim < |t.claims| then Others(t, e.claim) else t.claims
  }

  function Next(t: Till, e: Event): Till {
    match e
    case Collect(fee) => t.(jobs := t.jobs + [Job(fee, false, 0)])
    case Choose(paid) => t.(claims := t.claims + [Chosen(t.jobs, paid)])
    case _ => Till(Recovered(t.jobs, SettledBy(t, e)), StillOpen(t, e))
  }

  function Run(t: Till, es: seq<Event>): Till {
    if es == [] then t else Next(Run(t, es[..|es| - 1]), es[|es| - 1])
  }

  /** Every commission was recovered once, or not yet. */
  predicate OnceEach(t: Till) {
    forall k :: 0 <= k < |t.jobs| ==> t.jobs[k].recovered == if t.jobs[k].settled then 1 else 0
  }

  /** Whatever a payment has chosen is still owing. */
  predicate ClaimOwing(jobs: seq<Job>, claim: seq<nat>) {
    forall k: nat :: k in claim ==> k < |jobs| && !jobs[k].settled
  }

  predicate ClaimsOwing(t: Till) {
    forall i :: 0 <= i < |t.claims| ==> ClaimOwing(t.jobs, t.claims[i])
  }

  predicate Meets(ids: seq<nat>, claim: seq<nat>) {
    exists k :: k in ids && k in claim
  }

  /** A job is settled while a payment that chose it has still to mark it. */
  predicate Overtakes(t: Till, e: Event) {
    exists i :: 0 <= i < |StillOpen(t, e)| && Meets(SettledBy(t, e), StillOpen(t, e)[i])
  }

  lemma {:induction false} OwedIs(jobs: seq<Job>)
    ensures forall k: nat :: k in Owed(jobs) <==> k < |jobs| && !jobs[k].settled && jobs[k].fee > 0
  {
    if jobs != [] { OwedIs(jobs[..|jobs| - 1]); }
  }

  lemma ChosenIsOwing(jobs: seq<Job>, amount: nat)
    ensures ClaimOwing(jobs, Chosen(jobs, amount))
  {
    OwedIs(jobs);
    forall k | k in Chosen(jobs, amount) ensures k in Owed(jobs) {}
  }

  /** A commission is recovered a second time exactly when a payment marks a job that
      was settled after it was chosen. */
  lemma StepRecoversOnceExactly(t: Till, e: Event)
    requires OnceEach(t)
    ensures OnceEach(Next(t, e)) <==>
              !(e.Mark? && exists k :: k in SettledBy(t, e) && k < |t.jobs| && t.jobs[k].settled)
  {
    if e.Net? {
      ChosenIsOwing(t.jobs, e.ceiling);
    } else if e.Mark? {
      var r := Next(t, e);
      forall k | 0 <= k < |t.jobs|
        ensures (r.jobs[k].recovered == if r.jobs[k].settled then 1 else 0)
                <==> !(k in SettledBy(t, e) && t.jobs[k].settled)
      {
      }
    }
  }

  lemma ClaimAfter(t: Till, e: Event, claim: seq<nat>)
    requires ClaimOwing(t.jobs, claim)
    ensures ClaimOwing(Next(t, e).jobs, claim) <==> !Meets(SettledBy(t, e), claim)
  {
    var r := Next(t, e);
    if !e.Collect? && !e.Choose? {
      assert forall k :: 0 <= k < |t.jobs| ==> r.jobs[k].settled == (t.jobs[k].settled || k in SettledBy(t, e));
    }
  }

  lemma OpenClaimsOwing(t: Till, e: Event, i: nat)
    requires ClaimsOwing(t) && i < |StillOpen(t, e)|
    ensures ClaimOwing(t.jobs, StillOpen(t, e)[i])
  {
    if e.Mark? && e.claim < |t.claims| {
      assert StillOpen(t, e)[i] == t.claims[if e.claim <= i then i + 1 else i];
    }
  }

  predicate AllOwing(jobs: seq<Job>, claims: seq<seq<nat>>) {
    forall i :: 0 <= i < |claims| ==> ClaimOwing(jobs, claims[i])
  }

  lemma OneMoreClaim(jobs: seq<Job>, claims: seq<seq<nat>>, claim: seq<nat>)
    requires ClaimOwing(jobs, claim)
    ensures AllOwing(jobs, claims + [claim]) <==> AllOwing(jobs, claims)
  {
    if AllOwing(jobs, claims + [claim]) {
      forall i | 0 <= i < |claims| ensures ClaimOwing(jobs, claims[i]) { assert (claims + [claim])[i] == claims[i]; }
    }
  }

  /** Every open claim stays owing exactly as long as none is overtaken. */
  lemma StepKeepsClaimsExactly(t: Till, e: Event)
    requires ClaimsOwing(t)
    ensures ClaimsOwing(Next(t, e)) <==> !Overtakes(t, e)
  {
    var r, open := Next(t, e), StillOpen(t, e);
    forall i | 0 <= i < |open|
      ensures ClaimOwing(r.jobs, open[i]) <==> !Meets(SettledBy(t, e), open[i])
    {
      OpenClaimsOwing(t, e, i);
      ClaimAfter(t, e, open[i]);
    }
    assert AllOwing(r.jobs, open) <==> !Overtakes(t, e);
    if e.Choose? {
      ChosenIsOwing(t.jobs, e.paid);
      OneMoreClaim(t.jobs, t.claims, Chosen(t.jobs, e.paid));
    }
  }

  lemma StepRecoversOnce(t: Till, e: Event)
    requires OnceEach(t) && ClaimsOwing(t) && !Overtakes(t, e)
    ensures OnceEach(Next(t, e)) && ClaimsOwing(Next(t, e))
  {
    StepRecoversOnceExactly(t, e);
    StepKeepsClaimsExactly(t, e);
    if e.Mark? && e.claim < |t.claims| { assert ClaimOwing(t.jobs, t.claims[e.claim]); }
  }

  /** Over every run in which no job is settled while a payment that chose it has still
      to mark it, no commission is recovered twice. */
  lemma {:induction false} RecoveredOnceOverEveryRun(t: Till, es: seq<Event>)
    requires OnceEach(t) && ClaimsOwing(t)
    requires forall k :: 0 <= k < |es| ==> !Overtakes(Run(t, es[..k]), es[k])
    ensures OnceEach(Run(t, es)) && ClaimsOwing(Run(t, es))
  {
    if es != [] {
      var last := |es| - 1;
      forall k | 0 <= k < last ensures !Overtakes(Run(t, es[..last][..k]), es[..last][k]) {
        assert es[..last][..k] == es[..k];
      }
      RecoveredOnceOverEveryRun(t, es[..last]);
      StepRecoversOnce(Run(t, es[..last]), es[last]);
    }
  }

  /** Otherwise the driver pays twice: a payout keeps back what a payment from the
      phone has already chosen. */
  lemma NettedWhilePaying(fee: nat)
    requires fee > 0
    ensures var t := Till([Job(fee, false, 0)], []);
            Run(t, [Choose(fee)] + [Net(fee)] + [Mark(0)]) == Till([Job(fee, true, 2)], [])
  {
    var jobs := [Job(fee, false, 0)];
    var t := Till(jobs, []);
    assert jobs[..0] == [] && Owed(jobs) == [0];
    assert FeesOf(jobs, [0]) == [fee] && [fee][1..] == [];
    assert Covered([fee], fee) == 1 && Chosen(jobs, fee) == [0];
    var a, b := [Choose(fee)], [Choose(fee)] + [Net(fee)];
    assert a[..0] == [] && b[..1] == a && (b + [Mark(0)])[..2] == b;
    assert Run(t, a) == Till(jobs, [[0]]);
    assert Run(t, b) == Till([Job(fee, true, 1)], [[0]]);
  }
}
