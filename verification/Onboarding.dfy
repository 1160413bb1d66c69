/** One driver's way in: dispatch invites, the phone proves its number with a
    one-time code, redeems the invite and sets a PIN.

    Each endpoint looks its row up, and writes it later.  A check is what lies
    between the two: a request that passed its guard and has not written yet.
    Requests may overlap, so several checks can be open at once. */
module Onboarding {
  import opened Prelude

  const OTP_MAX_ATTEMPTS: nat := 5
  const OTP_TTL_MS: nat := 5 * 60 * 1000
  const SESSION_TTL_MS: nat := 10 * 60 * 1000
  const INVITE_TTL_MS: nat := 48 * 60 * 60 * 1000

  /** A row of otp_codes.  `accepted` and `wrong` are history: how often the code
      was taken, and how many wrong guesses were held against it. */
  datatype Otp = Otp(secret: string, expires: int, attempts: nat, consumed: bool, accepted: nat, wrong: nat)

  /** A row of driver_invites; `redeemed` is history. */
  datatype Invitation = Invitation(secret: string, expires: int, used: bool, redeemed: nat)

  /** A signed session token: the phone number was proven, and perhaps the invite. */
  datatype Session = Session(expires: int, invited: bool)

  datatype Check =
    | OtpCheck(row: nat, guess: string)
    | InviteCheck(row: nat)
    | PinCheck(pin: string)

  /** Rows are in the order they were created.  `pinSets` and `resets` are
      history. */
  datatype Account = Account(
    registered: bool,
    onboarded: bool,
    pin: Option<string>,
    codes: seq<Otp>,
    invites: seq<Invitation>,
    sessions: set<Session>,
    checks: seq<Check>,
    now: int,
    pinSets: nat,
    resets: nat
  )

  datatype Event =
    | Invite(secret: string)
    | ResetPin
    | RequestOtp(secret: string)
    | BeginOtp(guess: string)
    | BeginInvite(session: Session, guess: string)
    | BeginPin(session: Session, pin: string)
    | Finish(c: nat)
    | Tick(elapsed: nat)

  predicate SessionValid(a: Account, s: Session) {
    s in a.sessions && a.now < s.expires
  }

  predicate OtpUsable(o: Otp, now: int) {
    !o.consumed && !(o.expires < now) && o.attempts < OTP_MAX_ATTEMPTS
  }

  /** The newest invite that is unused and has not expired. */
  function OpenInvite(invites: seq<Invitation>, now: int): (r: Option<nat>)
    ensures r.Some? ==> r.value < |invites| && !invites[r.value].used && invites[r.value].expires > now
    ensures forall i :: 0 <= i < |invites| && !invites[i].used && invites[i].expires > now ==> r.Some? && i <= r.value
  {
    if invites == [] then None
    else
      var last := |invites| - 1;
      if !invites[last].used && invites[last].expires > now then Some(last) else OpenInvite(invites[..last], now)
  }

  predicate NeedsPinReset(a: Account) {
    a.onboarded && a.pin.None?
  }

  predicate PinWindowOpen(a: Account) {
    !a.onboarded || a.pin.None?
  }

  predicate Enabled(a: Account, e: Event) {
    match e
    case Invite(_) => !a.onboarded
    case ResetPin => a.registered
    case RequestOtp(_) => a.registered
    case BeginOtp(_) => a.codes != [] && OtpUsable(a.codes[|a.codes| - 1], a.now)
    case BeginInvite(s, guess) =>
      && SessionValid(a, s) && a.registered
      && var i := OpenInvite(a.invites, a.now); i.Some? && a.invites[i.value].secret == guess
    case BeginPin(s, _) => SessionValid(a, s) && a.registered && ((s.invited && !a.onboarded) || NeedsPinReset(a))
    case Finish(c) =>
      && c < |a.checks|
      && (a.checks[c].OtpCheck? ==> a.checks[c].row < |a.codes|)
      && (a.checks[c].InviteCheck? ==> a.checks[c].row < |a.invites|)
    case Tick(_) => true
  }

  function Spent(invites: seq<Invitation>): (r: seq<Invitation>)
    ensures |r| == |invites| && forall i :: 0 <= i < |invites| ==> r[i] == invites[i].(used := true)
  {
    seq(|invites|, i requires 0 <= i < |invites| => invites[i].(used := true))
  }

  function Finished(a: Account, c: nat): Account
    requires Enabled(a, Finish(c))
  {
    var b := a.(checks := a.checks[..c] + a.checks[c + 1..]);
    match a.checks[c]
    case OtpCheck(row, guess) =>
      var o := a.codes[row];
      if guess == o.secret then
        b.(codes := a.codes[row := o.(consumed := true, accepted := o.accepted + 1)],
           sessions := a.sessions + {Session(a.now + SESSION_TTL_MS, false)})
      else b.(codes := a.codes[row := o.(attempts := o.attempts + 1, wrong := o.wrong + 1)])
    case InviteCheck(row) =>
      var i := a.invites[row];
      b.(invites := a.invites[row := i.(used := true, redeemed := i.redeemed + 1)],
         sessions := a.sessions + {Session(a.now + SESSION_TTL_MS, true)})
    case PinCheck(pin) => b.(pin := Some(pin), onboarded := true, pinSets := a.pinSets + 1)
  }

  function Next(a: Account, e: Event): Account {
    if !Enabled(a, e) then a else
    match e
    case Invite(secret) =>
      a.(registered := true, invites := Spent(a.invites) + [Invitation(secret, a.now + INVITE_TTL_MS, false, 0)])
    case ResetPin => a.(pin := None, resets := a.resets + 1)
    case RequestOtp(secret) => a.(codes := a.codes + [Otp(secret, a.now + OTP_TTL_MS, 0, false, 0, 0)])
    case BeginOtp(guess) => a.(checks := a.checks + [OtpCheck(|a.codes| - 1, guess)])
    case BeginInvite(_, _) => a.(checks := a.checks + [InviteCheck(OpenInvite(a.invites, a.now).value)])
    case BeginPin(_, pin) => a.(checks := a.checks + [PinCheck(pin)])
    case Finish(c) => Finished(a, c)
    case Tick(elapsed) => a.(now := a.now + elapsed)
  }

  function Fresh(now: int): Account {
    Account(false, false, None, [], [], {}, [], now, 0, 0)
  }

  function Run(now: int, es: seq<Event>): Account {
    if es == [] then Fresh(now) else Next(Run(now, es[..|es| - 1]), es[|es| - 1])
  }

  // ----- checks in progress -----------------------------------------------------

  function OtpChecks(checks: seq<Check>, row: nat): nat {
    if checks == [] then 0
    else
      var c := checks[|checks| - 1];
      OtpChecks(checks[..|checks| - 1], row) + (if c.OtpCheck? && c.row == row then 1 else 0)
  }

  function InviteChecks(checks: seq<Check>, row: nat): nat {
    if checks == [] then 0
    else
      var c := checks[|checks| - 1];
      InviteChecks(checks[..|checks| - 1], row) + (if c.InviteCheck? && c.row == row then 1 else 0)
  }

  function PinChecks(checks: seq<Check>): nat {
    if checks == [] then 0
    else PinChecks(checks[..|checks| - 1]) + (if checks[|checks| - 1].PinCheck? then 1 else 0)
  }

  lemma {:induction false} ChecksBounded(checks: seq<Check>, row: nat)
    ensures OtpChecks(checks, row) <= |checks| && InviteChecks(checks, row) <= |checks| && PinChecks(checks) <= |checks|
  {
    if checks != [] { ChecksBounded(checks[..|checks| - 1], row); }
  }

  lemma {:induction false} ChecksOfSum(a: seq<Check>, b: seq<Check>, row: nat)
    ensures OtpChecks(a + b, row) == OtpChecks(a, row) + OtpChecks(b, row)
    ensures InviteChecks(a + b, row) == InviteChecks(a, row) + InviteChecks(b, row)
    ensures PinChecks(a + b) == PinChecks(a) + PinChecks(b)
  {
    if b == [] {
      assert a + b == a;
    } else {
      assert (a + b)[..|a + b| - 1] == a + b[..|b| - 1];
      ChecksOfSum(a, b[..|b| - 1], row);
    }
  }

  lemma CheckRemoved(checks: seq<Check>, c: nat, row: nat)
    requires c < |checks|
    ensures var rest, x := checks[..c] + checks[c + 1..], checks[c];
            && OtpChecks(checks, row) == OtpChecks(rest, row) + (if x.OtpCheck? && x.row == row then 1 else 0)
            && InviteChecks(checks, row) == InviteChecks(rest, row) + (if x.InviteCheck? && x.row == row then 1 else 0)
            && PinChecks(checks) == PinChecks(rest) + (if x.PinCheck? then 1 else 0)
  {
    var before, x, after := checks[..c], checks[c], checks[c + 1..];
    assert checks == before + [x] + after;
    ChecksOfSum(before + [x], after, row);
    CheckAdded(before, x, row);
    ChecksOfSum(before, after, row);
  }

  lemma CheckAdded(checks: seq<Check>, c: Check, row: nat)
    ensures OtpChecks(checks + [c], row) == OtpChecks(checks, row) + (if c.OtpCheck? && c.row == row then 1 else 0)
    ensures InviteChecks(checks + [c], row)
              == InviteChecks(checks, row) + (if c.InviteCheck? && c.row == row then 1 else 0)
    ensures PinChecks(checks + [c]) == PinChecks(checks) + (if c.PinCheck? then 1 else 0)
  {
    assert (checks + [c])[..|checks|] == checks;
  }

  // ----- what overlapping requests can do --------------------------------------

  /** A code nobody has used takes no more than five wrong guesses and one right
      one, plus what was already under way when it closed: with at most `k`
      requests at a time, four and `k` wrong ones and `k` right ones. */
  predicate CodeOk(a: Account, row: nat, k: nat)
    requires row < |a.codes|
  {
    var o := a.codes[row];
    var open := OtpChecks(a.checks, row);
    && o.wrong == o.attempts
    && o.attempts + open <= OTP_MAX_ATTEMPTS - 1 + k
    && (if o.consumed then o.accepted > 0 && o.accepted + open <= k else o.accepted == 0)
  }

  /** Only the newest invite can be unused, and none is redeemed more often than
      requests overlap. */
  predicate InviteOk(a: Account, row: nat, k: nat)
    requires row < |a.invites|
  {
    var i := a.invites[row];
    && (!i.used ==> row == |a.invites| - 1 && i.redeemed == 0)
    && (i.used ==> i.redeemed + InviteChecks(a.checks, row) <= k)
  }

  /** `k` for each of `n` openings. */
  function Allowance(k: nat, n: nat): nat {
    if n == 0 then 0 else Allowance(k, n - 1) + k
  }

  /** Setting the PIN is open once, and once more for every reset. */
  predicate PinOk(a: Account, k: nat) {
    && (a.pin.Some? ==> a.onboarded)
    && (if PinWindowOpen(a) then a.pinSets <= Allowance(k, a.resets)
         else a.pinSets + PinChecks(a.checks) <= Allowance(k, a.resets + 1))
  }

  predicate RowsKnown(a: Account) {
    forall c :: 0 <= c < |a.checks| ==>
      && (a.checks[c].OtpCheck? ==> a.checks[c].row < |a.codes|)
      && (a.checks[c].InviteCheck? ==> a.checks[c].row < |a.invites|)
  }

  predicate Inv(a: Account, k: nat) {
    && RowsKnown(a) && PinOk(a, k)
    && (forall row :: 0 <= row < |a.codes| ==> CodeOk(a, row, k))
    && (forall row :: 0 <= row < |a.invites| ==> InviteOk(a, row, k))
  }

  lemma {:induction false} NoOtpCheckOfNewRow(checks: seq<Check>, row: nat)
    requires forall c :: 0 <= c < |checks| && checks[c].OtpCheck? ==> checks[c].row < row
    ensures OtpChecks(checks, row) == 0
  {
    if checks != [] { NoOtpCheckOfNewRow(checks[..|checks| - 1], row); }
  }

  lemma FinishKeepsCodes(a: Account, c: nat, k: nat, row: nat)
    requires Inv(a, k) && |a.checks| <= k && Enabled(a, Finish(c)) && row < |a.codes|
    ensures CodeOk(Next(a, Finish(c)), row, k)
  {
    assert CodeOk(a, row, k);
    ChecksBounded(a.checks, row);
    CheckRemoved(a.checks, c, row);
  }

  lemma BeginKeepsCodes(a: Account, e: Event, k: nat, row: nat)
    requires Inv(a, k) && |Next(a, e).checks| <= k && row < |a.codes|
    requires Enabled(a, e) && (e.BeginOtp? || e.BeginInvite? || e.BeginPin?)
    ensures CodeOk(Next(a, e), row, k)
  {
    assert CodeOk(a, row, k);
    var b := Next(a, e);
    assert b.checks == a.checks + [b.checks[|a.checks|]] && b.codes == a.codes;
    CheckAdded(a.checks, b.checks[|a.checks|], row);
    ChecksBounded(b.checks, row);
  }

  lemma StepKeepsCodes(a: Account, e: Event, k: nat, row: nat)
    requires Inv(a, k) && |a.checks| <= k && |Next(a, e).checks| <= k && row < |Next(a, e).codes|
    ensures CodeOk(Next(a, e), row, k)
  {
    if row < |a.codes| { assert CodeOk(a, row, k); }
    if Enabled(a, e) {
      match e
      case RequestOtp(_) => if row == |a.codes| { NoOtpCheckOfNewRow(a.checks, row); }
      case BeginOtp(_) => BeginKeepsCodes(a, e, k, row);
      case BeginInvite(_, _) => BeginKeepsCodes(a, e, k, row);
      case BeginPin(_, _) => BeginKeepsCodes(a, e, k, row);
      case Finish(c) => FinishKeepsCodes(a, c, k, row);
      case _ =>
    }
  }

  lemma FinishKeepsInvites(a: Account, c: nat, k: nat, row: nat)
    requires Inv(a, k) && |a.checks| <= k && Enabled(a, Finish(c)) && row < |a.invites|
    ensures InviteOk(Next(a, Finish(c)), row, k)
  {
    assert InviteOk(a, row, k);
    ChecksBounded(a.checks, row);
    CheckRemoved(a.checks, c, row);
  }

  lemma BeginKeepsInvites(a: Account, e: Event, k: nat, row: nat)
    requires Inv(a, k) && |Next(a, e).checks| <= k && row < |a.invites|
    requires Enabled(a, e) && (e.BeginOtp? || e.BeginInvite? || e.BeginPin?)
    ensures InviteOk(Next(a, e), row, k)
  {
    assert InviteOk(a, row, k);
    var b := Next(a, e);
    assert b.checks == a.checks + [b.checks[|a.checks|]] && b.invites == a.invites;
    CheckAdded(a.checks, b.checks[|a.checks|], row);
    ChecksBounded(b.checks, row);
  }

  lemma StepKeepsInvites(a: Account, e: Event, k: nat, row: nat)
    requires Inv(a, k) && |a.checks| <= k && |Next(a, e).checks| <= k && row < |Next(a, e).invites|
    ensures InviteOk(Next(a, e), row, k)
  {
    if row < |a.invites| { assert InviteOk(a, row, k); }
    if Enabled(a, e) {
      match e
      case Invite(_) => ChecksBounded(a.checks, row);
      case BeginOtp(_) => BeginKeepsInvites(a, e, k, row);
      case BeginInvite(_, _) => BeginKeepsInvites(a, e, k, row);
      case BeginPin(_, _) => BeginKeepsInvites(a, e, k, row);
      case Finish(c) => FinishKeepsInvites(a, c, k, row);
      case _ =>
    }
  }

  lemma FinishKeepsPin(a: Account, c: nat, k: nat)
    requires PinOk(a, k) && |a.checks| <= k && Enabled(a, Finish(c))
    ensures PinOk(Next(a, Finish(c)), k)
  {
    ChecksBounded(a.checks, 0);
    CheckRemoved(a.checks, c, 0);
  }

  lemma StepKeepsPin(a: Account, e: Event, k: nat)
    requires PinOk(a, k) && |a.checks| <= k && |Next(a, e).checks| <= k
    ensures PinOk(Next(a, e), k)
  {
    if Enabled(a, e) {
      match e
      case BeginOtp(guess) => CheckAdded(a.checks, OtpCheck(|a.codes| - 1, guess), 0);
      case BeginInvite(_, _) => CheckAdded(a.checks, InviteCheck(OpenInvite(a.invites, a.now).value), 0);
      case Finish(c) => FinishKeepsPin(a, c, k);
      case _ =>
    }
  }

  lemma StepKeepsRows(a: Account, e: Event)
    requires RowsKnown(a)
    ensures RowsKnown(Next(a, e))
  {
  }

  lemma StepKeepsInv(a: Account, e: Event, k: nat)
    requires Inv(a, k) && |a.checks| <= k && |Next(a, e).checks| <= k
    ensures Inv(Next(a, e), k)
  {
    StepKeepsRows(a, e);
    StepKeepsPin(a, e, k);
    var b := Next(a, e);
    forall row | 0 <= row < |b.codes| ensures CodeOk(b, row, k) { StepKeepsCodes(a, e, k, row); }
    forall row | 0 <= row < |b.invites| ensures InviteOk(b, row, k) { StepKeepsInvites(a, e, k, row); }
  }

  /** At no point of the run are more than `k` requests between their two steps. */
  predicate Overlap(now: int, es: seq<Event>, k: nat) {
    forall n {:trigger es[..n]} :: 0 <= n <= |es| ==> |Run(now, es[..n]).checks| <= k
  }

  /** Over every run in which at most `k` requests overlap. */
  lemma {:induction false} OnboardingOverEveryRun(now: int, es: seq<Event>, k: nat)
    requires Overlap(now, es, k)
    ensures Inv(Run(now, es), k)
  {
    if es != [] {
      var before := es[..|es| - 1];
      assert es[..|es|] == es;
      forall n | 0 <= n <= |before| ensures |Run(now, before[..n]).checks| <= k {
        assert before[..n] == es[..n];
      }
      OnboardingOverEveryRun(now, before, k);
      assert before[..|before|] == before;
      StepKeepsInv(Run(now, before), es[|es| - 1], k);
    }
  }

  lemma {:induction false} AllowanceOfOne(n: nat)
    ensures Allowance(1, n) == n
  {
    if n > 0 { AllowanceOfOne(n - 1); }
  }

  /** One request at a time: a code is taken at most once and takes at most five
      wrong guesses, an invite is redeemed at most once, and the PIN is set at
      most once more often than dispatch reset it. */
  lemma OneAtATime(now: int, es: seq<Event>, row: nat)
    requires Overlap(now, es, 1)
    ensures var a := Run(now, es);
            && (row < |a.codes| ==> a.codes[row].accepted <= 1 && a.codes[row].wrong <= OTP_MAX_ATTEMPTS)
            && (row < |a.invites| ==> a.invites[row].redeemed <= 1)
            && a.pinSets <= a.resets + 1
            && (a.pin.Some? ==> a.onboarded)
  {
    OnboardingOverEveryRun(now, es, 1);
    var a := Run(now, es);
    AllowanceOfOne(a.resets);
    if row < |a.codes| { assert CodeOk(a, row, 1); }
    if row < |a.invites| { assert InviteOk(a, row, 1); }
  }

  lemma NewestInvite(a: Account, s: Session, guess: string, k: nat)
    requires Inv(a, k)
    ensures Enabled(a, BeginInvite(s, guess)) <==> NewestInviteAnswers(a, s, guess)
  {
    var open := OpenInvite(a.invites, a.now);
    if open.Some? { assert InviteOk(a, open.value, k); }
  }

  predicate NewestInviteAnswers(a: Account, s: Session, guess: string) {
    && SessionValid(a, s) && a.registered && a.invites != []
    && var i := a.invites[|a.invites| - 1]; !i.used && i.expires > a.now && i.secret == guess
  }

  /** Of the invites, expired or not, only the newest can be redeemed: whatever a
      driver types, a request gets past its guard with that one's code alone. */
  lemma OnlyTheNewestInviteWorks(now: int, es: seq<Event>, s: Session, guess: string, k: nat)
    requires Overlap(now, es, k)
    ensures Enabled(Run(now, es), BeginInvite(s, guess)) <==> NewestInviteAnswers(Run(now, es), s, guess)
  {
    OnboardingOverEveryRun(now, es, k);
    NewestInvite(Run(now, es), s, guess, k);
  }

  // ----- what a PIN stands for ---------------------------------------------------

  predicate AnyAccepted(codes: seq<Otp>) {
    exists i :: 0 <= i < |codes| && codes[i].accepted > 0
  }

  predicate AnyRedeemed(invites: seq<Invitation>) {
    exists i :: 0 <= i < |invites| && invites[i].redeemed > 0
  }

  /** Every session was bought with a code, every invited one with an invite too,
      and so was every PIN. */
  predicate Earned(a: Account) {
    && (a.sessions != {} ==> AnyAccepted(a.codes))
    && ((exists s :: s in a.sessions && s.invited) ==> AnyRedeemed(a.invites))
    && (forall c :: 0 <= c < |a.checks| ==> CheckEarned(a, a.checks[c]))
    && (a.onboarded ==> AnyAccepted(a.codes) && AnyRedeemed(a.invites))
  }

  lemma StepKeepsHistory(a: Account, e: Event)
    ensures AnyAccepted(a.codes) ==> AnyAccepted(Next(a, e).codes)
    ensures AnyRedeemed(a.invites) ==> AnyRedeemed(Next(a, e).invites)
  {
    var b := Next(a, e);
    if AnyAccepted(a.codes) {
      var i :| 0 <= i < |a.codes| && a.codes[i].accepted > 0;
      assert b.codes[i].accepted > 0;
    }
    if AnyRedeemed(a.invites) {
      var i :| 0 <= i < |a.invites| && a.invites[i].redeemed > 0;
      assert b.invites[i].redeemed > 0;
    }
  }

  lemma FinishEarns(a: Account, c: nat)
    requires Earned(a) && Enabled(a, Finish(c))
    ensures var b := Next(a, Finish(c));
            && (b.sessions != {} ==> AnyAccepted(b.codes))
            && ((exists s :: s in b.sessions && s.invited) ==> AnyRedeemed(b.invites))
  {
    StepKeepsHistory(a, Finish(c));
    var b := Next(a, Finish(c));
    match a.checks[c]
    case OtpCheck(row, guess) => if guess == a.codes[row].secret { assert b.codes[row].accepted > 0; }
    case InviteCheck(row) => assert b.invites[row].redeemed > 0;
    case PinCheck(_) =>
  }

  predicate CheckEarned(a: Account, c: Check) {
    && (c.InviteCheck? ==> AnyAccepted(a.codes))
    && (c.PinCheck? ==> AnyAccepted(a.codes) && AnyRedeemed(a.invites))
  }

  lemma ChecksEarned(a: Account, e: Event, i: nat)
    requires Earned(a) && i < |Next(a, e).checks|
    ensures CheckEarned(Next(a, e), Next(a, e).checks[i])
  {
    StepKeepsHistory(a, e);
    var b := Next(a, e);
    if e.Finish? && Enabled(a, e) {
      assert b.checks[i] == a.checks[if i < e.c then i else i + 1];
    } else if i < |a.checks| {
      assert b.checks[i] == a.checks[i];
    }
  }

  lemma StepEarns(a: Account, e: Event)
    requires Earned(a)
    ensures Earned(Next(a, e))
  {
    StepKeepsHistory(a, e);
    forall i | 0 <= i < |Next(a, e).checks|
      ensures CheckEarned(Next(a, e), Next(a, e).checks[i])
    {
      ChecksEarned(a, e, i);
    }
    if Enabled(a, e) && e.Finish? { FinishEarns(a, e.c); }
  }

  /** Over every run, however requests overlap: a driver with a PIN, or with an
      onboarded account, proved the number and redeemed an invite. */
  lemma {:induction false} PinsAreEarned(now: int, es: seq<Event>)
    ensures Earned(Run(now, es))
    ensures Run(now, es).pin.Some? ==>
              Run(now, es).onboarded && AnyAccepted(Run(now, es).codes) && AnyRedeemed(Run(now, es).invites)
  {
    if es != [] {
      PinsAreEarned(now, es[..|es| - 1]);
      StepEarns(Run(now, es[..|es| - 1]), es[|es| - 1]);
      PinMeansOnboarded(Run(now, es[..|es| - 1]), es[|es| - 1]);
    }
  }

  lemma PinMeansOnboarded(a: Account, e: Event)
    requires a.pin.Some? ==> a.onboarded
    ensures Next(a, e).pin.Some? ==> Next(a, e).onboarded
  {
  }

  // ----- the bounds are reached ---------------------------------------------------

  function Repeated(c: Check, k: nat): seq<Check> {
    seq(k, _ => c)
  }

  /** `k` requests that all get past their guard before any of them writes. */
  function Begun(a: Account, e: Event, k: nat): Account {
    if k == 0 then a else Next(Begun(a, e, k - 1), e)
  }

  function AllFinished(a: Account, k: nat): Account
    decreases k
  {
    if k == 0 then a else AllFinished(Next(a, Finish(0)), k - 1)
  }

  function Together(a: Account, e: Event, k: nat): Account {
    AllFinished(Begun(a, e, k), k)
  }

  lemma {:induction false} BegunIs(a: Account, e: Event, c: Check, k: nat)
    requires a.checks == [] && Enabled(a, e) && (e.BeginOtp? || e.BeginInvite? || e.BeginPin?)
    requires Next(a, e) == a.(checks := [c])
    ensures Begun(a, e, k) == a.(checks := Repeated(c, k))
  {
    if k > 0 {
      BegunIs(a, e, c, k - 1);
      assert Repeated(c, k) == Repeated(c, k - 1) + [c];
    }
  }

  lemma OneFinished(c: Check, k: nat)
    requires k > 0
    ensures Repeated(c, k)[0] == c && Repeated(c, k)[..0] + Repeated(c, k)[1..] == Repeated(c, k - 1)
  {
  }

  lemma {:induction false} CodesAllTaken(a: Account, row: nat, guess: string, k: nat)
    requires row < |a.codes| && a.codes[row].secret == guess && a.checks == Repeated(OtpCheck(row, guess), k)
    ensures var r := AllFinished(a, k);
            |r.codes| == |a.codes| && r.codes[row].accepted == a.codes[row].accepted + k && r.checks == []
    decreases k
  {
    if k > 0 {
      OneFinished(OtpCheck(row, guess), k);
      CodesAllTaken(Next(a, Finish(0)), row, guess, k - 1);
    }
  }

  lemma {:induction false} GuessesAllHeld(a: Account, row: nat, guess: string, k: nat)
    requires row < |a.codes| && a.codes[row].secret != guess && a.checks == Repeated(OtpCheck(row, guess), k)
    ensures var o := a.codes[row];
            AllFinished(a, k)
              == a.(checks := [], codes := a.codes[row := o.(attempts := o.attempts + k, wrong := o.wrong + k)])
    decreases k
  {
    if k > 0 {
      OneFinished(OtpCheck(row, guess), k);
      GuessesAllHeld(Next(a, Finish(0)), row, guess, k - 1);
    }
  }

  lemma {:induction false} InvitesAllRedeemed(a: Account, row: nat, k: nat)
    requires row < |a.invites| && a.checks == Repeated(InviteCheck(row), k)
    ensures var r := AllFinished(a, k);
            |r.invites| == |a.invites| && r.invites[row].redeemed == a.invites[row].redeemed + k
    decreases k
  {
    if k > 0 {
      OneFinished(InviteCheck(row), k);
      InvitesAllRedeemed(Next(a, Finish(0)), row, k - 1);
    }
  }

  lemma {:induction false} PinsAllSet(a: Account, pin: string, k: nat)
    requires a.checks == Repeated(PinCheck(pin), k)
    ensures var r := AllFinished(a, k); r.pinSets == a.pinSets + k && r.resets == a.resets
    ensures k > 0 ==> AllFinished(a, k).pin == Some(pin)
    decreases k
  {
    if k > 0 {
      OneFinished(PinCheck(pin), k);
      PinsAllSet(Next(a, Finish(0)), pin, k - 1);
    }
  }

  /** However many requests with the right code overlap, all are let in. */
  lemma OverlappingVerifiesAllPass(a: Account, k: nat)
    requires a.checks == [] && Enabled(a, BeginOtp(""))
    ensures var last := |a.codes| - 1;
            var right := BeginOtp(a.codes[last].secret);
            && |Begun(a, right, k).checks| == k
            && |Together(a, right, k).codes| == |a.codes|
            && Together(a, right, k).codes[last].accepted == a.codes[last].accepted + k
  {
    var last := |a.codes| - 1;
    var guess := a.codes[last].secret;
    BegunIs(a, BeginOtp(guess), OtpCheck(last, guess), k);
    CodesAllTaken(Begun(a, BeginOtp(guess), k), last, guess, k);
  }

  lemma OverlappingGuessesAllHeld(a: Account, guess: string, k: nat)
    requires a.checks == [] && Enabled(a, BeginOtp(guess)) && a.codes[|a.codes| - 1].secret != guess
    ensures var last := |a.codes| - 1;
            var o := a.codes[last];
            && |Begun(a, BeginOtp(guess), k).checks| == k
            && Together(a, BeginOtp(guess), k)
               == a.(codes := a.codes[last := o.(attempts := o.attempts + k, wrong := o.wrong + k)])
  {
    var last := |a.codes| - 1;
    BegunIs(a, BeginOtp(guess), OtpCheck(last, guess), k);
    GuessesAllHeld(Begun(a, BeginOtp(guess), k), last, guess, k);
  }

  /** Four wrong guesses one after the other leave the code open; with `k` more
      that overlap it takes four and `k`. */
  lemma WrongGuessesReachTheBound(a: Account, guess: string, k: nat)
    requires a.checks == [] && Enabled(a, BeginOtp(guess)) && a.codes[|a.codes| - 1].secret != guess
    requires a.codes[|a.codes| - 1].attempts == 0 && a.codes[|a.codes| - 1].wrong == 0
    ensures var e := BeginOtp(guess);
            var four := Together(Together(Together(Together(a, e, 1), e, 1), e, 1), e, 1);
            var all := Together(four, e, k);
            |all.codes| == |a.codes| && all.codes[|a.codes| - 1].wrong == OTP_MAX_ATTEMPTS - 1 + k
  {
    var e := BeginOtp(guess);
    OverlappingGuessesAllHeld(a, guess, 1);
    var one := Together(a, e, 1);
    OverlappingGuessesAllHeld(one, guess, 1);
    var two := Together(one, e, 1);
    OverlappingGuessesAllHeld(two, guess, 1);
    var three := Together(two, e, 1);
    OverlappingGuessesAllHeld(three, guess, 1);
    OverlappingGuessesAllHeld(Together(three, e, 1), guess, k);
  }

  /** However many requests with the open invite overlap, all redeem it. */
  lemma OverlappingRedemptionsAllPass(a: Account, s: Session, guess: string, k: nat)
    requires a.checks == [] && Enabled(a, BeginInvite(s, guess))
    ensures var i := OpenInvite(a.invites, a.now).value;
            var r := Together(a, BeginInvite(s, guess), k);
            && |Begun(a, BeginInvite(s, guess), k).checks| == k
            && |r.invites| == |a.invites| && r.invites[i].redeemed == a.invites[i].redeemed + k
  {
    var i := OpenInvite(a.invites, a.now).value;
    BegunIs(a, BeginInvite(s, guess), InviteCheck(i), k);
    InvitesAllRedeemed(Begun(a, BeginInvite(s, guess), k), i, k);
  }

  /** However many requests to set a PIN overlap, all succeed, with no reset in
      between. */
  lemma OverlappingPinsAllStick(a: Account, s: Session, pin: string, k: nat)
    requires a.checks == [] && Enabled(a, BeginPin(s, pin))
    ensures var r := Together(a, BeginPin(s, pin), k);
            && |Begun(a, BeginPin(s, pin), k).checks| == k
            && r.pinSets == a.pinSets + k && r.resets == a.resets && (k > 0 ==> r.pin == Some(pin))
  {
    BegunIs(a, BeginPin(s, pin), PinCheck(pin), k);
    PinsAllSet(Begun(a, BeginPin(s, pin), k), pin, k);
  }

  /** Two requests to set a PIN that overlap both succeed: the second replaces
      what the first set, with no reset in between. */
  lemma OverlappingPinsBothStick(a: Account, s: Session, first: string, second: string)
    requires a.checks == [] && Enabled(a, BeginPin(s, first))
    ensures var b := Next(Next(Next(Next(a, BeginPin(s, first)), BeginPin(s, second)), Finish(0)), Finish(0));
            b.pin == Some(second) && b.pinSets == a.pinSets + 2 && b.resets == a.resets
  {
    var two := Next(Next(a, BeginPin(s, first)), BeginPin(s, second));
    assert two.checks == [PinCheck(first), PinCheck(second)];
    var one := Next(two, Finish(0));
    assert one.checks == [PinCheck(second)];
  }

  // ----- the endpoints ----------------------------------------------------------------

  datatype Code =
    | Accepted | OtpExpired | OtpAlreadyUsed | OtpInvalid | SessionInvalid | NotRegistered
    | InviteInvalid | InviteRequired | PhoneTaken | DriverNotFound

  /** A request none other overlaps: looked up and written in one go. */
  function Alone(a: Account, begin: Event): Account {
    var b := Next(a, begin);
    if |b.checks| > |a.checks| then Next(b, Finish(|a.checks|)) else b
  }

  /** A code is accepted when it is the newest one sent, unused and in date, with
      at most four wrong guesses against it.  Accepting it uses it up and opens a
      session of ten minutes; a wrong guess is held against it. */
  lemma CodeTakenExactly(a: Account, guess: string)
    requires a.checks == []
    ensures a.codes == [] ==> Alone(a, BeginOtp(guess)) == a
    ensures a.codes != [] ==>
              var last := |a.codes| - 1;
              var o := a.codes[last];
              Alone(a, BeginOtp(guess))
              == if o.consumed || o.expires < a.now || o.attempts > 4 then a
                 else if o.secret == guess then
                   a.(codes := a.codes[last := o.(consumed := true, accepted := o.accepted + 1)],
                      sessions := a.sessions + {Session(a.now + 600_000, false)})
                 else a.(codes := a.codes[last := o.(attempts := o.attempts + 1, wrong := o.wrong + 1)])
  {
  }

  /** `row` is the newest invite that is unused and in date. */
  predicate NewestOpen(a: Account, row: nat) {
    && row < |a.invites| && !a.invites[row].used && a.now < a.invites[row].expires
    && forall i :: row < i < |a.invites| ==> a.invites[i].used || a.invites[i].expires <= a.now
  }

  /** An invite is redeemed in a live session of a registered number, by the code
      of the newest open one.  It is used up, and the session that opens is
      invited. */
  lemma InviteTakenExactly(a: Account, s: Session, guess: string)
    requires a.checks == []
    ensures forall row: nat :: NewestOpen(a, row) ==>
              var i := a.invites[row];
              Alone(a, BeginInvite(s, guess))
              == if s in a.sessions && a.now < s.expires && a.registered && i.secret == guess then
                   a.(invites := a.invites[row := i.(used := true, redeemed := i.redeemed + 1)],
                      sessions := a.sessions + {Session(a.now + 600_000, true)})
                 else a
    ensures (forall row: nat :: !NewestOpen(a, row)) ==> Alone(a, BeginInvite(s, guess)) == a
  {
    var open := OpenInvite(a.invites, a.now);
    if open.Some? { assert NewestOpen(a, open.value); }
  }

  /** A PIN is set in a live session of a registered number: by an invited one
      until the driver is onboarded, and by any while an onboarded driver has none. */
  lemma PinTakenExactly(a: Account, s: Session, pin: string)
    requires a.checks == []
    ensures Alone(a, BeginPin(s, pin))
            == if s in a.sessions && a.now < s.expires && a.registered
                  && (if a.onboarded then a.pin == None else s.invited) then
                 a.(pin := Some(pin), onboarded := true, pinSets := a.pinSets + 1)
               else a
  {
  }

  /** A reset takes the PIN away and nothing else, and the driver, still onboarded,
      sets a new one in any live session without another invite. */
  lemma ResetLetsANewPinIn(a: Account, s: Session, pin: string)
    requires a.checks == [] && a.registered
    ensures Next(a, ResetPin) == a.(pin := None, resets := a.resets + 1)
    ensures a.onboarded && s in a.sessions && a.now < s.expires ==>
              Alone(Next(a, ResetPin), BeginPin(s, pin))
              == a.(pin := Some(pin), pinSets := a.pinSets + 1, resets := a.resets + 1)
  {
    PinTakenExactly(Next(a, ResetPin), s, pin);
  }

  /** An invite registers the number, uses up every earlier one and is good for two
      days; once the driver is onboarded none is sent.  A code is good for five
      minutes, and only a registered number is sent one. */
  lemma SentExactly(a: Account, secret: string)
    ensures var b := Next(a, Invite(secret));
            if a.onboarded then b == a
            else
              && b == a.(registered := true, invites := b.invites) && |b.invites| == |a.invites| + 1
              && b.invites[|a.invites|] == Invitation(secret, a.now + 172_800_000, false, 0)
              && forall i :: 0 <= i < |a.invites| ==> b.invites[i] == a.invites[i].(used := true)
    ensures Next(a, RequestOtp(secret))
            == if a.registered then a.(codes := a.codes + [Otp(secret, a.now + 300_000, 0, false, 0, 0)]) else a
  {
  }

  class Desk {
    var registered: bool
    var onboarded: bool
    var pin: Option<string>
    var codes: seq<Otp>
    var invites: seq<Invitation>
    var sessions: set<Session>
    ghost var pinSets: nat
    ghost var resets: nat

    ghost function View(now: int): Account
      reads this
    {
      Account(registered, onboarded, pin, codes, invites, sessions, [], now, pinSets, resets)
    }

    constructor (now: int)
      ensures View(now) == Fresh(now)
    {
      registered, onboarded, pin, codes, invites, sessions, pinSets, resets := false, false, None, [], [], {}, 0, 0;
    }

    method InviteDriver(secret: string, now: int) returns (code: Code)
      modifies this
      ensures View(now) == Next(old(View(now)), Invite(secret))
      ensures code == if old(onboarded) then PhoneTaken else Accepted
    {
      if onboarded { return PhoneTaken; }
      registered := true;
      ghost var before := invites;
      for i := 0 to |invites|
        invariant |invites| == |before|
        invariant registered && !onboarded && pin == old(pin) && codes == old(codes) && sessions == old(sessions)
        invariant pinSets == old(pinSets) && resets == old(resets)
        invariant forall k :: 0 <= k < i ==> invites[k] == before[k].(used := true)
        invariant forall k :: i <= k < |invites| ==> invites[k] == before[k]
      {
        invites := invites[i := invites[i].(used := true)];
      }
      assert invites == Spent(before);
      invites := invites + [Invitation(secret, now + INVITE_TTL_MS, false, 0)];
      return Accepted;
    }

    method ResetDriverPin(now: int) returns (code: Code)
      modifies this
      ensures View(now) == Next(old(View(now)), ResetPin)
      ensures code == if registered then Accepted else DriverNotFound
    {
      if !registered { return DriverNotFound; }
      pin := None;
      resets := resets + 1;
      return Accepted;
    }

    method RequestCode(secret: string, now: int) returns (code: Code)
      modifies this
      ensures View(now) == Next(old(View(now)), RequestOtp(secret))
      ensures code == if registered then Accepted else NotRegistered
    {
      if !registered { return NotRegistered; }
      codes := codes + [Otp(secret, now + OTP_TTL_MS, 0, false, 0, 0)];
      return Accepted;
    }

    method VerifyOtp(guess: string, now: int) returns (code: Code)
      modifies this
      ensures View(now) == Alone(old(View(now)), BeginOtp(guess))
      ensures code.Accepted? <==>
                && Enabled(old(View(now)), BeginOtp(guess))
                && old(codes)[|old(codes)| - 1].secret == guess
      ensures code.OtpAlreadyUsed? <==> |old(codes)| > 0 && old(codes)[|old(codes)| - 1].consumed
      ensures code.Accepted? || code.OtpAlreadyUsed? || code.OtpExpired? || code.OtpInvalid?
      ensures code.OtpInvalid? <==>
                && Enabled(old(View(now)), BeginOtp(guess))
                && old(codes)[|old(codes)| - 1].secret != guess
    {
      if codes == [] { return OtpExpired; }
      var row := |codes| - 1;
      var otp := codes[row];
      if otp.consumed { return OtpAlreadyUsed; }
      if otp.expires < now || otp.attempts >= OTP_MAX_ATTEMPTS { return OtpExpired; }
      if guess != otp.secret {
        codes := codes[row := otp.(attempts := otp.attempts + 1, wrong := otp.wrong + 1)];
        return OtpInvalid;
      }
      codes := codes[row := otp.(consumed := true, accepted := otp.accepted + 1)];
      sessions := sessions + {Session(now + SESSION_TTL_MS, false)};
      return Accepted;
    }

    method VerifyInvite(session: Session, guess: string, now: int) returns (code: Code)
      modifies this
      ensures View(now) == Alone(old(View(now)), BeginInvite(session, guess))
      ensures code.Accepted? <==> Enabled(old(View(now)), BeginInvite(session, guess))
      ensures code.SessionInvalid? <==> session !in old(sessions) || session.expires <= now
      ensures code.NotRegistered? ==> !registered
      ensures code.Accepted? || code.SessionInvalid? || code.NotRegistered? || code.InviteInvalid?
    {
      if session !in sessions || !(now < session.expires) { return SessionInvalid; }
      if !registered { return NotRegistered; }
      var row := OpenInvite(invites, now);
      if row.None? || guess != invites[row.value].secret { return InviteInvalid; }
      var invite := invites[row.value];
      invites := invites[row.value := invite.(used := true, redeemed := invite.redeemed + 1)];
      sessions := sessions + {Session(now + SESSION_TTL_MS, true)};
      return Accepted;
    }

    method SetPin(session: Session, next: string, now: int) returns (code: Code)
      modifies this
      ensures View(now) == Alone(old(View(now)), BeginPin(session, next))
      ensures code.Accepted? <==> Enabled(old(View(now)), BeginPin(session, next))
      ensures code.SessionInvalid? <==> session !in old(sessions) || session.expires <= now
      ensures code.NotRegistered? ==> !registered
      ensures code.Accepted? || code.SessionInvalid? || code.NotRegistered? || code.InviteRequired?
    {
      if session !in sessions || !(now < session.expires) { return SessionInvalid; }
      if !registered { return NotRegistered; }
      var alreadyOnboarded := onboarded;
      var needsPinReset := alreadyOnboarded && pin.None?;
      var canSetViaInvite := session.invited && !alreadyOnboarded;
      if !canSetViaInvite && !needsPinReset { return InviteRequired; }
      pin := Some(next);
      onboarded := true;
      pinSets := pinSets + 1;
      return Accepted;
    }
  }
}
