/** Email verification challenges: one (user, email) pair at a time. */
module OtpModel {
  import opened Options

  /** Microseconds. */
  type Time = int

  const SECOND: int := 1_000_000
  const RESEND_COOLDOWN: int := 60 * SECOND
  const CHALLENGE_TTL: int := 10 * 60 * SECOND
  const MAX_FAILURES: nat := 5

  /** Codes stand for their digests, which are compared for equality only. */
  type Code = nat

  datatype Challenge = Challenge(digest: Code, expires: Time, consumed: bool, failed: nat, sent: Time)

  predicate Usable(c: Challenge, now: Time) {
    !c.consumed && c.failed < MAX_FAILURES && now < c.expires
  }

  /** The challenges of one user for one email, oldest first. */
  type Ledger = seq<Challenge>

  predicate CoolingDown(l: Ledger, now: Time) {
    exists i :: 0 <= i < |l| && l[i].sent >= now - RESEND_COOLDOWN
  }

  function ConsumeUsable(l: Ledger, now: Time): (r: Ledger) {
    seq(|l|, i requires 0 <= i < |l| => if Usable(l[i], now) then l[i].(consumed := true) else l[i])
  }

  function ConsumeAll(l: Ledger): Ledger {
    seq(|l|, i requires 0 <= i < |l| => l[i].(consumed := true))
  }

  /** The ledger after `issue_challenge`, or None while the cooldown lasts. */
  function Issued(l: Ledger, now: Time, code: Code): Option<Ledger> {
    if CoolingDown(l, now) then None
    else Some(ConsumeUsable(l, now) + [Challenge(code, now + CHALLENGE_TTL, false, 0, now)])
  }

  /** The newest usable challenge. */
  function Newest(l: Ledger, now: Time): (r: Option<nat>)
    ensures r.Some? ==> r.value < |l| && Usable(l[r.value], now)
    ensures forall i :: 0 <= i < |l| && Usable(l[i], now) ==> r.Some? && i <= r.value
  {
    if l == [] then None
    else if Usable(l[|l| - 1], now) then Some(|l| - 1)
    else Newest(l[..|l| - 1], now)
  }

  datatype Verdict = NoChallenge | WrongCode | Verified

  /** The ledger after `confirm_challenge`; its failures are raised after the commit, so they stay. */
  function Confirmed(l: Ledger, now: Time, code: Code): (Ledger, Verdict) {
    var newest := Newest(l, now);
    if newest.None? then (l, NoChallenge)
    else
      var c := l[newest.value];
      if c.digest != code then (l[newest.value := c.(failed := c.failed + 1)], WrongCode)
      else (ConsumeAll(l), Verified)
  }

  // ---------------------------------------------------------------- what a ledger keeps

  ghost predicate Sound(l: Ledger, clock: Time) {
    && (forall i :: 0 <= i < |l| ==>
         l[i].sent <= clock && l[i].failed <= MAX_FAILURES && l[i].expires == l[i].sent + CHALLENGE_TTL)
    && (forall i, j :: 0 <= i < j < |l| ==> l[i].sent + RESEND_COOLDOWN < l[j].sent)
    && (forall i :: 0 <= i < |l| - 1 ==> !Usable(l[i], clock))
  }

  lemma TimePasses(l: Ledger, clock: Time, now: Time)
    requires Sound(l, clock) && clock <= now
    ensures Sound(l, now)
  {
  }

  lemma IssueKeepsSound(l: Ledger, now: Time, code: Code)
    requires Sound(l, now) && Issued(l, now, code).Some?
    ensures Sound(Issued(l, now, code).value, now)
  {
    forall i | 0 <= i < |l| ensures l[i].sent + RESEND_COOLDOWN < now {
      assert !(l[i].sent >= now - RESEND_COOLDOWN);
    }
  }

  lemma ConfirmKeepsSound(l: Ledger, now: Time, code: Code)
    requires Sound(l, now)
    ensures Sound(Confirmed(l, now, code).0, now)
  {
  }

  /** At most one challenge of a ledger is usable, and it is the last one sent. */
  lemma OnlyTheLastIsUsable(l: Ledger, clock: Time, i: nat)
    requires Sound(l, clock) && i < |l| && Usable(l[i], clock)
    ensures i == |l| - 1
  {
  }

  // ---------------------------------------------------------------- counting failures

  function Failures(l: Ledger): nat {
    if l == [] then 0 else Failures(l[..|l| - 1]) + l[|l| - 1].failed
  }

  lemma {:induction false} FailuresAgree(a: Ledger, b: Ledger)
    requires |a| == |b| && forall i :: 0 <= i < |a| ==> a[i].failed == b[i].failed
    ensures Failures(a) == Failures(b)
  {
    if a != [] { FailuresAgree(a[..|a| - 1], b[..|b| - 1]); }
  }

  lemma IssueAddsNoFailure(l: Ledger, now: Time, code: Code)
    requires Issued(l, now, code).Some?
    ensures Failures(Issued(l, now, code).value) == Failures(l)
  {
    var r := Issued(l, now, code).value;
    FailuresAgree(l, r[..|r| - 1]);
  }

  lemma {:induction false} BumpAddsOne(l: Ledger, k: nat)
    requires k < |l|
    ensures Failures(l[k := l[k].(failed := l[k].failed + 1)]) == Failures(l) + 1
  {
    var r := l[k := l[k].(failed := l[k].failed + 1)];
    var n := |l| - 1;
    if k == n {
      assert r[..n] == l[..n];
    } else {
      BumpAddsOne(l[..n], k);
      assert r[..n] == l[..n][k := l[..n][k].(failed := l[..n][k].failed + 1)];
    }
  }

  /** Every wrong-code comparison is recorded as one failure, and nothing else is. */
  lemma ConfirmRecordsFailure(l: Ledger, now: Time, code: Code)
    ensures Failures(Confirmed(l, now, code).0)
      == Failures(l) + if Confirmed(l, now, code).1 == WrongCode then 1 else 0
  {
    var newest := Newest(l, now);
    if newest.Some? {
      if l[newest.value].digest != code { BumpAddsOne(l, newest.value); }
      else { FailuresAgree(l, ConsumeAll(l)); }
    }
  }

  /** `later` continues `l`: older challenges are closed, only the last of `l` may have taken failures. */
  ghost predicate Continues(l: Ledger, later: Ledger) {
    && |l| <= |later|
    && (forall i :: 0 <= i < |l| ==> later[i].sent == l[i].sent)
    && (forall i :: 0 <= i < |l| - 1 ==> later[i].failed == l[i].failed)
  }

  /** The challenges from the given one on were sent within the window. */
  predicate SentWithin(l: Ledger, from: nat, start: Time, width: nat) {
    forall i :: from <= i < |l| ==> start <= l[i].sent <= start + width
  }

  lemma IssueContinues(l: Ledger, now: Time, code: Code)
    requires Issued(l, now, code).Some?
    ensures var r := Issued(l, now, code).value;
      Continues(l, r) && Failures(r) == Failures(l) && SentWithin(r, |l|, now, 0)
  {
    var c := Challenge(code, now + CHALLENGE_TTL, false, 0, now);
    IssueAddsNoFailure(l, now, code);
    OneSendMore(l, ConsumeUsable(l, now), c);
    assert Issued(l, now, code).value == ConsumeUsable(l, now) + [c];
  }

  lemma OneSendMore(l: Ledger, same: Ledger, c: Challenge)
    requires |same| == |l| && forall i :: 0 <= i < |l| ==> same[i].sent == l[i].sent && same[i].failed == l[i].failed
    ensures Continues(l, same + [c]) && SentWithin(same + [c], |l|, c.sent, 0)
  {
  }

  lemma ConfirmContinues(l: Ledger, now: Time, code: Code)
    requires Sound(l, now)
    ensures var r := Confirmed(l, now, code);
      && Continues(l, r.0) && |r.0| == |l|
      && Failures(r.0) == Failures(l) + if r.1 == WrongCode then 1 else 0
  {
    ConfirmRecordsFailure(l, now, code);
    var newest := Newest(l, now);
    if newest.Some? { OnlyTheLastIsUsable(l, now, newest.value); }
  }

  lemma {:induction false} FailuresBounded(l: Ledger, from: nat)
    requires from <= |l| && forall i :: 0 <= i < |l| ==> l[i].failed <= MAX_FAILURES
    ensures Failures(l[..from]) <= Failures(l) <= Failures(l[..from]) + MAX_FAILURES * (|l| - from)
  {
    if from < |l| {
      FailuresBounded(l[..|l| - 1], from);
      assert l[..|l| - 1][..from] == l[..from];
    } else {
      assert l[..from] == l;
    }
  }

  /** Sends more than the cooldown apart: few of them fit into a window. */
  lemma FewSendsFit(l: Ledger, from: nat, start: Time, width: nat)
    requires from < |l|
    requires forall i, j :: 0 <= i < j < |l| ==> l[i].sent + RESEND_COOLDOWN < l[j].sent
    requires start <= l[from].sent && l[|l| - 1].sent <= start + width
    ensures |l| - from <= width / RESEND_COOLDOWN + 1
  {
    SendsSpread(l, from, |l| - 1);
  }

  lemma {:induction false} SendsSpread(l: Ledger, i: nat, j: nat)
    requires i <= j < |l|
    requires forall i, j :: 0 <= i < j < |l| ==> l[i].sent + RESEND_COOLDOWN < l[j].sent
    ensures l[i].sent + RESEND_COOLDOWN * (j - i) <= l[j].sent
  {
    if i < j { SendsSpread(l, i, j - 1); }
  }

  /** Challenges of `later` that can have taken failures since `l`: its last one and those sent since. */
  lemma FewChallengesOpen(l: Ledger, later: Ledger, start: Time, width: nat)
    requires Continues(l, later)
    requires forall i, j :: 0 <= i < j < |later| ==> later[i].sent + RESEND_COOLDOWN < later[j].sent
    requires SentWithin(later, |l|, start, width)
    ensures |later| - Closed(l) <= width / RESEND_COOLDOWN + 2
  {
    if |l| < |later| { FewSendsFit(later, |l|, start, width); }
  }

  function Closed(l: Ledger): nat {
    if |l| == 0 then 0 else |l| - 1
  }

  lemma ClosedFailuresStay(l: Ledger, later: Ledger)
    requires Continues(l, later)
    ensures Failures(later[..Closed(l)]) <= Failures(l)
  {
    FailuresAgree(later[..Closed(l)], l[..Closed(l)]);
    if |l| > 0 { assert l[..Closed(l)] == l[..|l| - 1]; }
  }

  /** The budget of one ledger between two moments, from the sends that fell between them. */
  lemma FailuresWithin(l: Ledger, later: Ledger, clock: Time, start: Time, width: nat)
    requires Sound(later, clock) && Continues(l, later)
    requires SentWithin(later, |l|, start, width)
    ensures Failures(later) <= Failures(l) + MAX_FAILURES * (width / RESEND_COOLDOWN + 2)
  {
    FailuresBounded(later, Closed(l));
    ClosedFailuresStay(l, later);
    FewChallengesOpen(l, later, start, width);
  }
}
