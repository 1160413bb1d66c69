/** Paying a cash debt from the driver's own phone: when the server asks for the
    money, when the app offers to, and which jobs a payment clears. */
module CashSettlement {
  import opened Prelude
  import opened Cash

  /** The jobs a debt is made of: unsettled, with a fee that is known and more than
      nothing. */
  function OwingJobs(jobs: seq<Job>): seq<Job> {
    if jobs == [] then []
    else
      var j := jobs[|jobs| - 1];
      OwingJobs(jobs[..|jobs| - 1]) + (if Owing(j) > 0 then [j] else [])
  }

  function NotBlank(keys: seq<Option<string>>): seq<Option<string>> {
    if keys == [] then []
    else NotBlank(keys[..|keys| - 1]) + (if Blank(keys[|keys| - 1]) then [] else [keys[|keys| - 1]])
  }

  function Currencies(jobs: seq<Job>): seq<Option<string>> {
    NotBlank(Keys(OwingJobs(jobs)))
  }

  datatype Request = Request(amount: Option<int>, numberValid: bool, numberOnNetwork: bool, inFlight: bool)

  datatype Answer =
    | Requested(amount: int, currency: string)
    | Reused
    | NothingOwed | MixedCurrency | InvalidAmount | OverOwed | InvalidNumber | WrongNetwork | NoCurrency

  function RequestSettlement(jobs: seq<Job>, r: Request): Answer {
    var total := TotalOwed(OwingJobs(jobs));
    var currencies := Currencies(jobs);
    var requested := r.amount.Or(total);
    if total <= 0 then Answer.NothingOwed
    else if |currencies| > 1 then Answer.MixedCurrency
    else if requested <= 0 then InvalidAmount
    else if requested > total + 1 then OverOwed
    else if !r.numberValid then InvalidNumber
    else if !r.numberOnNetwork then WrongNetwork
    else if r.inFlight then Reused
    else if |currencies| == 0 then NoCurrency
    else Requested(requested, currencies[0].Or(""))
  }

  /** Paying everything from a working phone with nothing in flight. */
  const PAY_ALL := Request(None, true, true, false)

  lemma {:induction false} OwingJobsAre(jobs: seq<Job>)
    ensures forall j :: j in OwingJobs(jobs) <==> j in jobs && Owing(j) > 0
  {
    if jobs != [] {
      OwingJobsAre(jobs[..|jobs| - 1]);
      assert jobs == jobs[..|jobs| - 1] + [jobs[|jobs| - 1]];
    }
  }

  lemma TotalOfOneMore(jobs: seq<Job>, j: Job)
    ensures TotalOwed(jobs + [j]) == TotalOwed(jobs) + Owing(j)
  {
    assert (jobs + [j])[..|jobs|] == jobs;
  }

  lemma {:induction false} OwingTotal(jobs: seq<Job>)
    requires FeesNotNegative(jobs)
    ensures TotalOwed(OwingJobs(jobs)) == TotalOwed(jobs) >= |OwingJobs(jobs)|
  {
    if jobs != [] {
      var init, last := jobs[..|jobs| - 1], jobs[|jobs| - 1];
      assert forall i :: 0 <= i < |init| ==> jobs[i] == init[i];
      OwingTotal(init);
      if Owing(last) > 0 {
        TotalOfOneMore(OwingJobs(init), last);
      } else {
        assert OwingJobs(jobs) == OwingJobs(init);
      }
    }
  }

  lemma OwingJobsOwe(jobs: seq<Job>)
    requires FeesNotNegative(jobs)
    ensures TotalOwed(OwingJobs(jobs)) == TotalOwed(jobs)
    ensures OwingJobs(jobs) == [] <==> TotalOwed(jobs) == 0
    ensures TotalOwed(jobs) >= 0
    ensures forall j :: j in OwingJobs(jobs) ==> j in jobs && Owing(j) > 0
  {
    OwingTotal(jobs);
    OwingJobsAre(jobs);
  }

  lemma {:induction false} NotBlankIs(keys: seq<Option<string>>)
    ensures forall k :: k in NotBlank(keys) <==> k in keys && !Blank(k)
  {
    if keys != [] {
      NotBlankIs(keys[..|keys| - 1]);
      assert keys == keys[..|keys| - 1] + [keys[|keys| - 1]];
    }
  }

  /** The payment is asked for exactly when there is something to pay, in one
      currency that is written down. */
  lemma RequestedExactly(jobs: seq<Job>)
    requires FeesNotNegative(jobs)
    ensures RequestSettlement(jobs, PAY_ALL).Requested? <==> TotalOwed(jobs) > 0 && |Currencies(jobs)| == 1
    ensures RequestSettlement(jobs, PAY_ALL).Requested? ==> RequestSettlement(jobs, PAY_ALL).amount == TotalOwed(jobs)
  {
    OwingJobsOwe(jobs);
  }

  /** One currency is written down on the jobs that are owed. */
  predicate OwedIn(jobs: seq<Job>, currency: string) {
    && currency != "" && (exists j :: j in jobs && Owing(j) > 0 && Key(j) == Some(currency))
    && forall j :: j in jobs && Owing(j) > 0 ==> Key(j) in {None, Some(""), Some(currency)}
  }

  lemma CurrenciesAre(jobs: seq<Job>, k: Option<string>)
    ensures k in Currencies(jobs) <==> !Blank(k) && exists j :: j in jobs && Owing(j) > 0 && Key(j) == k
  {
    var owing := OwingJobs(jobs);
    OwingJobsAre(jobs);
    NotBlankIs(Keys(owing));
    if k in Keys(owing) {
      var i :| 0 <= i < |owing| && Key(owing[i]) == k;
      assert owing[i] in owing;
    }
    if j :| j in jobs && Owing(j) > 0 && Key(j) == k {
      assert j in owing;
      var i :| 0 <= i < |owing| && owing[i] == j;
    }
  }

  lemma {:induction false} NotBlankOwnKeys(keys: seq<Option<string>>)
    requires OwnKeys(keys)
    ensures OwnKeys(NotBlank(keys))
  {
    if keys != [] {
      var init, last := keys[..|keys| - 1], keys[|keys| - 1];
      NotBlankOwnKeys(init);
      NotBlankIs(init);
      assert forall i :: 0 <= i < |NotBlank(init)| ==> NotBlank(init)[i] in init;
      assert last !in init;
    }
  }

  lemma OwedInExactly(jobs: seq<Job>, currency: string)
    ensures OwedIn(jobs, currency) <==> |Currencies(jobs)| == 1 && Currencies(jobs)[0] == Some(currency)
  {
    var all := Currencies(jobs);
    NotBlankOwnKeys(Keys(OwingJobs(jobs)));
    forall k ensures k in all <==> !Blank(k) && exists j :: j in jobs && Owing(j) > 0 && Key(j) == k {
      CurrenciesAre(jobs, k);
    }
    if OwedIn(jobs, currency) {
      assert Some(currency) in all;
      forall i | 0 <= i < |all| ensures all[i] == Some(currency) {
        assert all[i] in all;
        var j :| j in jobs && Owing(j) > 0 && Key(j) == all[i];
      }
      FirstTwoDiffer(all);
      assert all[0] == Some(currency);
    } else if |all| == 1 && all[0] == Some(currency) {
      assert all[0] in all;
      forall j | j in jobs && Owing(j) > 0 ensures Key(j) in {None, Some(""), Some(currency)} {
        if !Blank(Key(j)) { assert Key(j) in all; }
      }
    }
  }

  lemma OneWrittenCurrency(jobs: seq<Job>, currency: string)
    ensures OwedIn(jobs, currency) <==> |Currencies(jobs)| == 1 && Currencies(jobs)[0].Or("") == currency
  {
    OwedInExactly(jobs, currency);
    if |Currencies(jobs)| == 1 {
      assert Currencies(jobs)[0] in Currencies(jobs);
      CurrenciesAre(jobs, Currencies(jobs)[0]);
    }
  }

  lemma OwedInIsOwed(jobs: seq<Job>, currency: string)
    requires FeesNotNegative(jobs) && OwedIn(jobs, currency)
    ensures TotalOwed(jobs) > 0
  {
    OwingJobsAre(jobs);
    OwingTotal(jobs);
    var j :| j in jobs && Owing(j) > 0;
    assert j in OwingJobs(jobs);
  }

  lemma RequestedWhen(jobs: seq<Job>, r: Request, amount: int, currency: string)
    ensures var total := TotalOwed(OwingJobs(jobs));
            RequestSettlement(jobs, r) == Requested(amount, currency) <==>
              && total > 0 && |Currencies(jobs)| == 1 && Currencies(jobs)[0].Or("") == currency
              && amount == r.amount.Or(total) && 0 < amount <= total + 1
              && r.numberValid && r.numberOnNetwork && !r.inFlight
  {
  }

  /** Any payment is asked for exactly when it is more than nothing and at most a
      hundredth over what is owed in the one currency written down, and the phone
      can take it.  What is asked for is what was offered, or else everything. */
  lemma PaymentRequestedExactly(jobs: seq<Job>, r: Request, amount: int, currency: string)
    requires FeesNotNegative(jobs)
    ensures RequestSettlement(jobs, r) == Requested(amount, currency) <==>
              && OwedIn(jobs, currency)
              && amount == (if r.amount == None then TotalOwed(jobs) else r.amount.value)
              && 0 < amount <= TotalOwed(jobs) + 1 && r.numberValid && r.numberOnNetwork && !r.inFlight
  {
    OwingTotal(jobs);
    OneWrittenCurrency(jobs, currency);
    if OwedIn(jobs, currency) { OwedInIsOwed(jobs, currency); }
    RequestedWhen(jobs, r, amount, currency);
  }

  /** One more job adds its fee to the debt unless it is settled or its fee unknown. */
  lemma DebtGrows(jobs: seq<Job>, j: Job)
    ensures TotalOwed(jobs + [j]) == TotalOwed(jobs) + if j.settled || j.fee == None then 0 else j.fee.value
    ensures Owing(j) > 0 <==> !j.settled && j.fee != None && j.fee.value > 0
  {
    TotalOfOneMore(jobs, j);
  }

  /** In one currency the owing jobs are in that one too. */
  lemma OneCurrency(jobs: seq<Job>)
    requires FeesNotNegative(jobs) && |Keys(jobs)| <= 1 && TotalOwed(jobs) > 0
    ensures |Keys(jobs)| == 1 && |Currencies(jobs)| == if Blank(Keys(jobs)[0]) then 0 else 1
  {
    OwingJobsOwe(jobs);
    var owing := OwingJobs(jobs);
    var i :| 0 <= i < |owing|;
    assert owing[i] in owing && owing[i] in jobs;
    var m :| 0 <= m < |jobs| && jobs[m] == owing[i];
    assert Key(jobs[m]) in Keys(jobs);
    var k := Keys(jobs)[0];
    OneKey(jobs);
    forall x | x in Keys(owing) ensures x == k {
      var n :| 0 <= n < |owing| && Key(owing[n]) == x;
      assert owing[n] in owing;
      var p :| 0 <= p < |jobs| && jobs[p] == owing[n];
      assert Key(jobs[p]) in Keys(jobs);
    }
    assert Key(owing[i]) in Keys(owing);
    JustOne(Keys(owing), k);
  }

  lemma FirstTwoDiffer(keys: seq<Option<string>>)
    requires OwnKeys(keys)
    ensures |keys| <= 1 || keys[0] != keys[1]
  {
  }

  lemma JustOne(keys: seq<Option<string>>, k: Option<string>)
    requires OwnKeys(keys) && k in keys && forall x :: x in keys ==> x == k
    ensures keys == [k] && |NotBlank(keys)| == if Blank(k) then 0 else 1
  {
    forall i | 0 <= i < |keys| ensures keys[i] == k { assert keys[i] in keys; }
    FirstTwoDiffer(keys);
    assert keys == [k];
    assert NotBlank(keys[..0]) == [];
  }

  /** Where the app and the server disagree, exactly.  The app counts every cash job
      ever taken, the server only those still owing; so the app refuses a payment
      the server would take when an old or settled job is in another currency, and
      offers one the server refuses when no currency is written down. */
  lemma AppAndServerDisagreeExactly(jobs: seq<Job>)
    requires FeesNotNegative(jobs)
    ensures var offered := CanSettleNow(Some(CashSummary(jobs))).CanSettle?;
            var taken := RequestSettlement(jobs, PAY_ALL).Requested?;
            && (!offered && taken <==> TotalOwed(jobs) > 0 && |Keys(jobs)| > 1 && |Currencies(jobs)| == 1)
            && (offered && !taken <==> TotalOwed(jobs) > 0 && |Keys(jobs)| == 1 && Blank(Keys(jobs)[0]))
  {
    HeadlineExactly(jobs);
    RequestedExactly(jobs);
    if |Keys(jobs)| <= 1 && TotalOwed(jobs) > 0 { OneCurrency(jobs); }
  }

  lemma KeysOfOneMore(jobs: seq<Job>, j: Job)
    ensures Keys(jobs + [j]) == if Key(j) in Keys(jobs) then Keys(jobs) else Keys(jobs) + [Key(j)]
  {
    assert (jobs + [j])[..|jobs|] == jobs;
  }

  lemma OwingJobsOfOneMore(jobs: seq<Job>, j: Job)
    ensures OwingJobs(jobs + [j]) == if Owing(j) > 0 then OwingJobs(jobs) + [j] else OwingJobs(jobs)
  {
    assert (jobs + [j])[..|jobs|] == jobs;
  }

  lemma TwoKeys(a: Job, b: Job)
    requires Key(a) != Key(b)
    ensures Keys([a, b]) == [Key(a), Key(b)]
  {
    assert [] + [a] == [a] && [a] + [b] == [a, b];
    KeysOfOneMore([], a);
    KeysOfOneMore([a], b);
  }

  lemma SecondOwes(a: Job, b: Job)
    requires Owing(a) == 0 && Owing(b) > 0
    ensures OwingJobs([a, b]) == [b] && TotalOwed([a, b]) == Owing(b)
  {
    assert [] + [a] == [a] && [a] + [b] == [a, b];
    OwingJobsOfOneMore([], a);
    OwingJobsOfOneMore([a], b);
    TotalOfOneMore([], a);
    TotalOfOneMore([a], b);
  }

  /** An instance of the first kind: a settled dollar job blocks paying francs. */
  lemma SettledDollarsBlockFrancs()
    ensures var jobs := [Job(1, 0, Some(500), Some("USD"), true), Job(2, 0, Some(200000), Some("RWF"), false)];
            && CanSettleNow(Some(CashSummary(jobs))).MixedCurrency?
            && RequestSettlement(jobs, PAY_ALL).Requested?
  {
    var dollars, francs := Job(1, 0, Some(500), Some("USD"), true), Job(2, 0, Some(200000), Some("RWF"), false);
    assert Key(dollars).value[0] == 'U' && Key(francs).value[0] == 'R';
    TwoKeys(dollars, francs);
    SecondOwes(dollars, francs);
    OneJobKeys(francs);
    RequestedExactly([dollars, francs]);
  }

  lemma OneJobKeys(j: Job)
    ensures Keys([j]) == [Key(j)] && |NotBlank(Keys([j]))| == if Blank(Key(j)) then 0 else 1
  {
    assert [j][..0] == [];
    JustOne(Keys([j]), Key(j));
  }

  // ----- which jobs a payment clears ------------------------------------------------

  function Sum(fees: seq<nat>): nat {
    if fees == [] then 0 else Sum(fees[..|fees| - 1]) + fees[|fees| - 1]
  }

  /** How many whole jobs, oldest first, a payment covers. */
  function Covered(fees: seq<nat>, paid: nat): (n: nat)
    ensures n <= |fees|
  {
    if fees == [] || fees[0] > paid then 0 else 1 + Covered(fees[1..], paid - fees[0])
  }

  method ClearJobs(fees: seq<nat>, paid: nat) returns (cleared: nat, remaining: nat)
    ensures cleared == Covered(fees, paid) && remaining == paid - Sum(fees[..cleared])
  {
    remaining := paid;
    cleared := 0;
    assert fees[0..] == fees;
    while cleared < |fees|
      invariant cleared <= |fees| && remaining == paid - Sum(fees[..cleared])
      invariant Covered(fees, paid) == cleared + Covered(fees[cleared..], remaining)
    {
      if fees[cleared] > remaining { return; }
      assert fees[cleared..][1..] == fees[cleared + 1..];
      assert fees[..cleared + 1][..cleared] == fees[..cleared];
      remaining := remaining - fees[cleared];
      cleared := cleared + 1;
    }
  }

  lemma {:induction false} SumOfSum(a: seq<nat>, b: seq<nat>)
    ensures Sum(a + b) == Sum(a) + Sum(b)
  {
    if b == [] {
      assert a + b == a;
    } else {
      assert (a + b)[..|a + b| - 1] == a + b[..|b| - 1];
      SumOfSum(a, b[..|b| - 1]);
    }
  }

  lemma SumOfPrefixes(fees: seq<nat>, i: nat, j: nat)
    requires i <= j <= |fees|
    ensures Sum(fees[..i]) <= Sum(fees[..j]) && Sum(fees[..j]) == Sum(fees[..i]) + Sum(fees[i..j])
  {
    assert fees[..j] == fees[..i] + fees[i..j];
    SumOfSum(fees[..i], fees[i..j]);
  }

  /** A payment clears the longest run of oldest jobs it covers, and what is left
      over is less than the next one's fee. */
  lemma {:induction false} CoveredIsLongest(fees: seq<nat>, paid: nat)
    ensures var n := Covered(fees, paid);
            Sum(fees[..n]) <= paid && (n < |fees| ==> Sum(fees[..n + 1]) > paid)
  {
    if fees == [] {
      assert fees[..0] == [];
    } else if fees[0] > paid {
      assert fees[..1] == [fees[0]] && [fees[0]][..0] == [] && fees[..0] == [];
    } else {
      CoveredIsLongest(fees[1..], paid - fees[0]);
      var n := Covered(fees[1..], paid - fees[0]);
      assert fees[..n + 1] == [fees[0]] + fees[1..][..n];
      SumOfSum([fees[0]], fees[1..][..n]);
      assert [fees[0]][..0] == [];
      if n < |fees[1..]| {
        assert fees[..n + 2] == [fees[0]] + fees[1..][..n + 1];
        SumOfSum([fees[0]], fees[1..][..n + 1]);
      }
    }
  }

  lemma CoveredAtLeast(fees: seq<nat>, paid: nat, m: nat)
    requires m <= |fees| && Sum(fees[..m]) <= paid
    ensures m <= Covered(fees, paid)
  {
    CoveredIsLongest(fees, paid);
    var n := Covered(fees, paid);
    if n < m { SumOfPrefixes(fees, n + 1, m); }
  }

  /** Paying the whole debt clears it; paying it in two goes never clears more jobs
      than in one. */
  lemma SplittingNeverHelps(fees: seq<nat>, first: nat, second: nat)
    ensures Covered(fees, Sum(fees)) == |fees|
    ensures var n := Covered(fees, first);
            n + Covered(fees[n..], second) <= Covered(fees, first + second)
  {
    assert fees[..|fees|] == fees;
    CoveredAtLeast(fees, Sum(fees), |fees|);
    var n := Covered(fees, first);
    CoveredIsLongest(fees, first);
    CoveredIsLongest(fees[n..], second);
    TwoPrefixes(fees, n, Covered(fees[n..], second), first, second);
  }

  lemma TwoPrefixes(fees: seq<nat>, n: nat, m: nat, first: nat, second: nat)
    requires n + m <= |fees| && Sum(fees[..n]) <= first && Sum(fees[n..][..m]) <= second
    ensures n + m <= Covered(fees, first + second)
  {
    assert fees[..n + m] == fees[..n] + fees[n..][..m];
    SumOfSum(fees[..n], fees[n..][..m]);
    CoveredAtLeast(fees, first + second, n + m);
  }

  /** What is still owed after several payments. */
  function Left(fees: seq<nat>, payments: seq<nat>): seq<nat> {
    if payments == [] then fees else Left(fees[Covered(fees, payments[0])..], payments[1..])
  }

  /** The debt falls by whole jobs only: payments that each fall short of the oldest
      job leave it as it was, however much they come to. */
  lemma {:induction false} PartPaymentsClearNothing(fees: seq<nat>, payments: seq<nat>)
    requires fees != [] && forall i :: 0 <= i < |payments| ==> payments[i] < fees[0]
    ensures Left(fees, payments) == fees
  {
    if payments != [] {
      assert fees[0..] == fees;
      PartPaymentsClearNothing(fees, payments[1..]);
    }
  }

  /** Whatever is paid, the fees cleared never exceed it. */
  lemma {:induction false} NeverClearsMoreThanPaid(fees: seq<nat>, payments: seq<nat>)
    ensures Sum(Left(fees, payments)) + Sum(payments) >= Sum(fees)
  {
    if payments != [] {
      var n := Covered(fees, payments[0]);
      CoveredIsLongest(fees, payments[0]);
      assert fees == fees[..n] + fees[n..];
      SumOfSum(fees[..n], fees[n..]);
      NeverClearsMoreThanPaid(fees[n..], payments[1..]);
      assert payments == [payments[0]] + payments[1..];
      SumOfSum([payments[0]], payments[1..]);
      assert [payments[0]][..0] == [];
    }
  }
}
