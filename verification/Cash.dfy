/** A driver's cash debt: how the server adds it up, what the app makes of it,
    and what a payment clears.  Amounts are in hundredths of the currency unit. */
module Cash {
  import opened Prelude

  /** One cash job of the driver, oldest first in every list. */
  datatype Job = Job(id: nat, price: int, fee: Option<int>, currency: Option<string>, settled: bool)

  function Upper(c: char): char {
    if 'a' <= c <= 'z' then c - 'a' + 'A' else c
  }

  function Trim(s: string): string
    decreases |s|
  {
    if s == "" then ""
    else if s[0] == ' ' then Trim(s[1..])
    else if s[|s| - 1] == ' ' then Trim(s[..|s| - 1])
    else s
  }

  /** The group a job falls in: its currency trimmed and in capitals.  Jobs with
      no currency are a group of their own. */
  function Key(j: Job): Option<string> {
    if j.currency.None? then None
    else var t := Trim(j.currency.value); Some(seq(|t|, i requires 0 <= i < |t| => Upper(t[i])))
  }

  predicate Blank(k: Option<string>) {
    k.Or("") == ""
  }

  function Owing(j: Job): int {
    if j.settled then 0 else j.fee.Or(0)
  }

  function Uncounted(j: Job): nat {
    if !j.settled && j.fee.None? then 1 else 0
  }

  /** A letter of the group a currency falls in: what was written, in capitals. */
  predicate Capital(written: char, kept: char) {
    if 'a' <= written <= 'z' then 'A' <= kept <= 'Z' && kept as int == written as int - 32 else kept == written
  }

  lemma {:induction false} TrimmedFrom(s: string) returns (lead: nat)
    ensures lead + |Trim(s)| <= |s| && Trim(s) == s[lead..lead + |Trim(s)|]
    ensures forall i :: 0 <= i < lead || lead + |Trim(s)| <= i < |s| ==> s[i] == ' '
    ensures Trim(s) != "" ==> Trim(s)[0] != ' ' && Trim(s)[|Trim(s)| - 1] != ' '
    decreases |s|
  {
    lead := 0;
    if s != "" && s[0] == ' ' {
      lead := TrimmedFrom(s[1..]);
      lead := lead + 1;
    } else if s != "" && s[|s| - 1] == ' ' {
      lead := TrimmedFrom(s[..|s| - 1]);
    }
  }

  /** The group of a job is what is written down between the blanks, in capitals. */
  lemma KeyExactly(j: Job) returns (lead: nat)
    ensures Key(j).None? <==> j.currency.None?
    ensures j.currency.Some? ==>
              var s, k := j.currency.value, Key(j).value;
              && lead + |k| <= |s| && (forall i :: 0 <= i < |k| ==> Capital(s[lead + i], k[i]))
              && (forall i :: 0 <= i < lead || lead + |k| <= i < |s| ==> s[i] == ' ')
              && (k != "" ==> k[0] != ' ' && k[|k| - 1] != ' ')
  {
    lead := 0;
    if j.currency.Some? { lead := TrimmedFrom(j.currency.value); }
  }

  // ----- the summary the server sends -----------------------------------------------

  function Keys(jobs: seq<Job>): (r: seq<Option<string>>)
    ensures forall k :: k in r <==> exists i :: 0 <= i < |jobs| && Key(jobs[i]) == k
    ensures forall i, j :: 0 <= i < j < |r| ==> r[i] != r[j]
  {
    if jobs == [] then []
    else
      var init := jobs[..|jobs| - 1];
      var rest := Keys(init);
      var k := Key(jobs[|jobs| - 1]);
      assert jobs == init + [jobs[|jobs| - 1]];
      if k in rest then rest else rest + [k]
  }

  function GroupOwed(jobs: seq<Job>, k: Option<string>): int {
    if jobs == [] then 0
    else
      var j := jobs[|jobs| - 1];
      GroupOwed(jobs[..|jobs| - 1], k) + (if Key(j) == k then Owing(j) else 0)
  }

  function GroupUnknown(jobs: seq<Job>, k: Option<string>): nat {
    if jobs == [] then 0
    else
      var j := jobs[|jobs| - 1];
      GroupUnknown(jobs[..|jobs| - 1], k) + (if Key(j) == k then Uncounted(j) else 0)
  }

  datatype Group = Group(currency: Option<string>, owed: int, unknown: nat)

  datatype Summary = Summary(owed: Option<int>, unknownJobs: nat, currency: Option<string>, byCurrency: seq<Group>)

  function Groups(jobs: seq<Job>, keys: seq<Option<string>>): (r: seq<Group>)
    ensures |r| == |keys| && forall i :: 0 <= i < |keys| ==>
              r[i] == Group(keys[i], GroupOwed(jobs, keys[i]), GroupUnknown(jobs, keys[i]))
  {
    seq(|keys|, i requires 0 <= i < |keys| => Group(keys[i], GroupOwed(jobs, keys[i]), GroupUnknown(jobs, keys[i])))
  }

  function SumOwed(groups: seq<Group>): int {
    if groups == [] then 0 else SumOwed(groups[..|groups| - 1]) + groups[|groups| - 1].owed
  }

  function SumUnknown(groups: seq<Group>): nat {
    if groups == [] then 0 else SumUnknown(groups[..|groups| - 1]) + groups[|groups| - 1].unknown
  }

  function CashSummary(jobs: seq<Job>): Summary {
    var groups := Groups(jobs, Keys(jobs));
    Summary(
      if |groups| > 1 then None else Some(SumOwed(groups)),
      SumUnknown(groups),
      if |groups| == 1 then groups[0].currency else None,
      groups)
  }

  // ----- what the app makes of it -----------------------------------------------------

  datatype Tone = Owes | Clear | Unknown

  datatype Headline = Headline(amount: Option<int>, currency: Option<string>, tone: Tone, incomplete: bool)

  function OwedHeadline(s: Option<Summary>): Headline {
    if s.None? then Headline(None, None, Unknown, false)
    else if |s.value.byCurrency| > 1 then Headline(None, None, Unknown, s.value.unknownJobs > 0)
    else
      var owed := s.value.owed.Or(0);
      var tone := if owed > 0 then Owes else if s.value.unknownJobs > 0 then Unknown else Clear;
      Headline(s.value.owed, s.value.currency, tone, s.value.unknownJobs > 0)
  }

  datatype SettleBlock = CanSettle | Loading | MixedCurrency | UnknownFees | NothingOwed

  function CanSettleNow(s: Option<Summary>): SettleBlock {
    if s.None? then Loading
    else if |s.value.byCurrency| > 1 then MixedCurrency
    else if s.value.owed.Or(0) <= 0 then (if s.value.unknownJobs > 0 then UnknownFees else NothingOwed)
    else CanSettle
  }

  // ----- grouping loses nothing ----------------------------------------------------------

  function TotalOwed(jobs: seq<Job>): int {
    if jobs == [] then 0 else TotalOwed(jobs[..|jobs| - 1]) + Owing(jobs[|jobs| - 1])
  }

  function TotalUnknown(jobs: seq<Job>): nat {
    if jobs == [] then 0 else TotalUnknown(jobs[..|jobs| - 1]) + Uncounted(jobs[|jobs| - 1])
  }

  predicate OwnKeys(keys: seq<Option<string>>) {
    forall i, j :: 0 <= i < j < |keys| ==> keys[i] != keys[j]
  }

  lemma {:induction false} EmptyGroups(keys: seq<Option<string>>)
    ensures SumOwed(Groups([], keys)) == 0 && SumUnknown(Groups([], keys)) == 0
  {
    if keys != [] {
      EmptyGroups(keys[..|keys| - 1]);
      assert Groups([], keys)[..|keys| - 1] == Groups([], keys[..|keys| - 1]);
    }
  }

  /** One more job changes the sums by its own share, once. */
  lemma {:induction false} OneMoreJob(jobs: seq<Job>, keys: seq<Option<string>>)
    requires jobs != [] && OwnKeys(keys)
    ensures var j, init := jobs[|jobs| - 1], jobs[..|jobs| - 1];
            && SumOwed(Groups(jobs, keys)) == SumOwed(Groups(init, keys)) + (if Key(j) in keys then Owing(j) else 0)
            && SumUnknown(Groups(jobs, keys))
                 == SumUnknown(Groups(init, keys)) + (if Key(j) in keys then Uncounted(j) else 0)
  {
    if keys != [] {
      var init, last := jobs[..|jobs| - 1], |keys| - 1;
      OneMoreJob(jobs, keys[..last]);
      assert Groups(jobs, keys)[..last] == Groups(jobs, keys[..last]);
      assert Groups(init, keys)[..last] == Groups(init, keys[..last]);
      assert keys == keys[..last] + [keys[last]];
      assert keys[last] !in keys[..last];
    }
  }

  lemma {:induction false} GroupsAddUp(jobs: seq<Job>, keys: seq<Option<string>>)
    requires OwnKeys(keys) && forall i :: 0 <= i < |jobs| ==> Key(jobs[i]) in keys
    ensures SumOwed(Groups(jobs, keys)) == TotalOwed(jobs) && SumUnknown(Groups(jobs, keys)) == TotalUnknown(jobs)
  {
    if jobs == [] {
      EmptyGroups(keys);
    } else {
      GroupsAddUp(jobs[..|jobs| - 1], keys);
      OneMoreJob(jobs, keys);
    }
  }

  lemma {:induction false} UnknownCounted(jobs: seq<Job>)
    ensures TotalUnknown(jobs) > 0 <==> exists i :: 0 <= i < |jobs| && !jobs[i].settled && jobs[i].fee.None?
  {
    if jobs != [] {
      var init, last := jobs[..|jobs| - 1], jobs[|jobs| - 1];
      UnknownCounted(init);
      assert jobs == init + [last];
      assert forall i :: 0 <= i < |init| ==> jobs[i] == init[i];
      if Uncounted(last) > 0 { assert jobs[|init|] == last; }
    }
  }

  /** The headline over the server's grouping, in terms of the jobs themselves. */
  lemma HeadlineExactly(jobs: seq<Job>)
    ensures var h := OwedHeadline(Some(CashSummary(jobs)));
            && (h.tone.Clear? <==> |Keys(jobs)| <= 1 && TotalUnknown(jobs) == 0 && TotalOwed(jobs) <= 0)
            && (h.tone.Owes? <==> |Keys(jobs)| <= 1 && TotalOwed(jobs) > 0)
            && (h.tone.Owes? ==> h.amount == Some(TotalOwed(jobs)))
            && (h.incomplete <==> exists i :: 0 <= i < |jobs| && !jobs[i].settled && jobs[i].fee.None?)
            && (CanSettleNow(Some(CashSummary(jobs))).CanSettle? <==> h.tone.Owes?)
  {
    GroupsAddUp(jobs, Keys(jobs));
    UnknownCounted(jobs);
  }

  predicate FeesNotNegative(jobs: seq<Job>) {
    forall i :: 0 <= i < |jobs| && jobs[i].fee.Some? ==> jobs[i].fee.value >= 0
  }

  lemma {:induction false} NothingOwedMeansZeroes(jobs: seq<Job>)
    requires FeesNotNegative(jobs)
    ensures TotalOwed(jobs) >= 0
    ensures TotalOwed(jobs) == 0 <==> forall i :: 0 <= i < |jobs| ==> Owing(jobs[i]) == 0
  {
    if jobs != [] {
      var init, last := jobs[..|jobs| - 1], jobs[|jobs| - 1];
      NothingOwedMeansZeroes(init);
      assert jobs == init + [last];
      assert forall i :: 0 <= i < |init| ==> jobs[i] == init[i];
    }
  }

  /** A driver is told they are square exactly when every unsettled job has a known
      fee of nothing and all the jobs are in one currency. */
  lemma ClearMeansSquare(jobs: seq<Job>)
    requires FeesNotNegative(jobs)
    ensures OwedHeadline(Some(CashSummary(jobs))).tone.Clear? <==>
              && (forall i :: 0 <= i < |jobs| && !jobs[i].settled ==> jobs[i].fee == Some(0))
              && (forall i, j :: 0 <= i < |jobs| && 0 <= j < |jobs| ==> Key(jobs[i]) == Key(jobs[j]))
  {
    HeadlineExactly(jobs);
    UnknownCounted(jobs);
    NothingOwedMeansZeroes(jobs);
    OneKey(jobs);
    if forall i :: 0 <= i < |jobs| && !jobs[i].settled ==> jobs[i].fee == Some(0) {
      assert forall i :: 0 <= i < |jobs| ==> Owing(jobs[i]) == 0;
    } else {
      var i :| 0 <= i < |jobs| && !jobs[i].settled && jobs[i].fee != Some(0);
      assert jobs[i].fee.None? || Owing(jobs[i]) != 0;
    }
  }

  lemma OneKey(jobs: seq<Job>)
    ensures |Keys(jobs)| <= 1 <==> forall i, j :: 0 <= i < |jobs| && 0 <= j < |jobs| ==> Key(jobs[i]) == Key(jobs[j])
  {
    var keys := Keys(jobs);
    if |keys| <= 1 {
      forall i, j | 0 <= i < |jobs| && 0 <= j < |jobs| ensures Key(jobs[i]) == Key(jobs[j]) {
        assert Key(jobs[i]) in keys && Key(jobs[j]) in keys;
      }
    } else {
      assert keys[0] in keys && keys[1] in keys;
      var i :| 0 <= i < |jobs| && Key(jobs[i]) == keys[0];
      var j :| 0 <= j < |jobs| && Key(jobs[j]) == keys[1];
    }
  }
}
