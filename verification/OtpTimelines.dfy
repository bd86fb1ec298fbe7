/** How long a code works, when another may be sent, and what a verified email is evidence of. */
module OtpTimelines {
  import opened Options
  import opened OtpModel
  import opened OtpRuns

  // ---------------------------------------------------------------- one code

  /** The code just sent is accepted for ten minutes, and any other one is counted as wrong as long. */
  lemma CodeWorksIff(l: Ledger, sent: Time, code: Code, now: Time, tried: Code)
    requires Sound(l, sent) && sent <= now && Issued(l, sent, code).Some?
    ensures var l' := Issued(l, sent, code).value;
      Confirmed(l', now, tried).1 ==
        if now >= sent + 600_000_000 then NoChallenge else if tried == code then Verified else WrongCode
  {
    IssueKeepsSound(l, sent, code);
    var l' := Issued(l, sent, code).value;
    TimePasses(l', sent, now);
    assert l'[|l|] == Challenge(code, sent + CHALLENGE_TTL, false, 0, sent);
  }

  /** Another code can be sent once more than a minute has passed. */
  lemma SentAgainIff(l: Ledger, sent: Time, code: Code, now: Time, other: Code)
    requires Sound(l, sent) && sent <= now && Issued(l, sent, code).Some?
    ensures Issued(Issued(l, sent, code).value, now, other).Some? <==> now > sent + 60_000_000
  {
    var l' := Issued(l, sent, code).value;
    IssueKeepsSound(l, sent, code);
    assert l'[|l|].sent == sent;
  }

  /** The ledger after these codes have been tried in turn. */
  function Tried(l: Ledger, now: Time, codes: seq<Code>): Ledger {
    if codes == [] then l else Confirmed(Tried(l, now, codes[..|codes| - 1]), now, codes[|codes| - 1]).0
  }

  predicate IsLast(l: Ledger, c: Challenge) {
    l != [] && l[|l| - 1] == c
  }

  lemma LastIsTried(l: Ledger, now: Time, c: Challenge, code: Code)
    requires Sound(l, now) && IsLast(l, c)
    ensures var r := Confirmed(l, now, code);
      if !Usable(c, now) then r == (l, NoChallenge)
      else if c.digest != code then IsLast(r.0, c.(failed := c.failed + 1)) && r.1 == WrongCode
      else r.1 == Verified
  {
    var newest := Newest(l, now);
    if newest.Some? { OnlyTheLastIsUsable(l, now, newest.value); }
  }

  lemma {:induction false} WrongTriesCount(l: Ledger, now: Time, c: Challenge, codes: seq<Code>)
    requires Sound(l, now) && IsLast(l, c) && !c.consumed && c.failed == 0 && now < c.expires
    requires c.digest !in codes && |codes| <= 5
    ensures Sound(Tried(l, now, codes), now) && IsLast(Tried(l, now, codes), c.(failed := |codes|))
  {
    if codes != [] {
      var n := |codes| - 1;
      WrongTriesCount(l, now, c, codes[..n]);
      LastIsTried(Tried(l, now, codes[..n]), now, c.(failed := n), codes[n]);
      ConfirmKeepsSound(Tried(l, now, codes[..n]), now, codes[n]);
    }
  }

  lemma {:induction false} ClosedStaysClosed(l: Ledger, now: Time, codes: seq<Code>)
    requires Newest(l, now).None?
    ensures Tried(l, now, codes) == l
  {
    if codes != [] { ClosedStaysClosed(l, now, codes[..|codes| - 1]); }
  }

  lemma {:induction false} TriedInTwo(l: Ledger, now: Time, a: seq<Code>, b: seq<Code>)
    ensures Tried(l, now, a + b) == Tried(Tried(l, now, a), now, b)
    decreases |b|
  {
    if b == [] {
      assert a + b == a;
    } else {
      assert (a + b)[..|a + b| - 1] == a + b[..|b| - 1];
      TriedInTwo(l, now, a, b[..|b| - 1]);
    }
  }

  /** After wrong tries the right code is still accepted exactly if there were fewer than five. */
  lemma FiveWrongTriesCloseIt(l: Ledger, sent: Time, code: Code, now: Time, codes: seq<Code>)
    requires Sound(l, sent) && sent <= now < sent + 600_000_000 && Issued(l, sent, code).Some? && code !in codes
    ensures Confirmed(Tried(Issued(l, sent, code).value, now, codes), now, code).1
      == if |codes| < 5 then Verified else NoChallenge
  {
    var l' := Issued(l, sent, code).value;
    var c := Challenge(code, sent + CHALLENGE_TTL, false, 0, sent);
    IssueKeepsSound(l, sent, code);
    TimePasses(l', sent, now);
    var first := codes[..if |codes| < 5 then |codes| else 5];
    WrongTriesCount(l', now, c, first);
    LastIsTried(Tried(l', now, first), now, c.(failed := |first|), code);
    if |codes| >= 5 {
      ClosedStaysClosed(Tried(l', now, first), now, codes[5..]);
      TriedInTwo(l', now, first, codes[5..]);
      assert first + codes[5..] == codes;
    } else {
      assert first == codes;
    }
  }

  // ---------------------------------------------------------------- what is written

  /** A code is sent exactly if every earlier one was sent more than a minute ago. */
  lemma IssuedIff(l: Ledger, now: Time, code: Code)
    ensures Issued(l, now, code).Some? <==> forall i :: 0 <= i < |l| ==> l[i].sent + 60_000_000 < now
  {
    if exists i :: 0 <= i < |l| && l[i].sent + 60_000_000 >= now {
      var i :| 0 <= i < |l| && l[i].sent + 60_000_000 >= now;
      assert l[i].sent >= now - RESEND_COOLDOWN;
    }
  }

  /** A new challenge consumes the older ones that are neither expired nor used up, and changes nothing else. */
  lemma IssueWrites(l: Ledger, now: Time, code: Code, i: nat)
    requires Issued(l, now, code).Some? && i < |l|
    ensures var r := Issued(l, now, code).value;
      && |r| == |l| + 1 && r[|l|] == Challenge(code, now + 600_000_000, false, 0, now)
      && r[i] == if l[i].failed < 5 && l[i].expires > now then l[i].(consumed := true) else l[i]
  {
  }

  /** A wrong code adds a failure to the challenge it was compared with; a right one closes all challenges. */
  lemma ConfirmWrites(l: Ledger, now: Time, code: Code, i: nat)
    requires Sound(l, now) && i < |l|
    ensures var r := Confirmed(l, now, code);
      && |r.0| == |l|
      && r.0[i] == match r.1
           case NoChallenge => l[i]
           case WrongCode => if i == |l| - 1 then l[i].(failed := l[i].failed + 1) else l[i]
           case Verified => l[i].(consumed := true)
  {
    var newest := Newest(l, now);
    if newest.Some? { OnlyTheLastIsUsable(l, now, newest.value); }
  }

  /** A code is accepted exactly if it is the last one sent, in time, not consumed, and not tried wrongly five times. */
  lemma AcceptedIff(l: Ledger, now: Time, code: Code)
    requires Sound(l, now)
    ensures Confirmed(l, now, code).1 == Verified <==>
      && l != []
      && var last := l[|l| - 1];
      last.digest == code && !last.consumed && last.failed < 5 && now < last.sent + 600_000_000
  {
    var newest := Newest(l, now);
    if newest.Some? { OnlyTheLastIsUsable(l, now, newest.value); }
  }

  // ---------------------------------------------------------------- verified emails

  /** The step confirms the current email of the user. */
  predicate Accepts(s: State, step: Step, user: UserId) {
    && Enabled(s, step) && step.Confirm? && step.user == user
    && Confirmed(LedgerOf(s, KeyOf(s, user)), step.at, step.code).1 == Verified
  }

  /** The step changes the email of the user. */
  predicate Readdresses(s: State, step: Step, user: UserId) {
    step.SetEmail? && step.user == user && Lookup(s.emails, user) != Some(step.email)
  }

  lemma VerifiedNext(s: State, step: Step, user: UserId)
    requires Enabled(s, step)
    ensures user in Next(s, step).verified <==>
      Accepts(s, step, user) || (user in s.verified && !Readdresses(s, step, user))
  {
  }

  ghost predicate SameEmailSince(states: seq<State>, steps: seq<Step>, j: nat, k: nat, user: UserId)
    requires k <= |steps| <= |states|
  {
    forall n :: j <= n < k ==> !Readdresses(states[n], steps[n], user)
  }

  ghost predicate ConfirmedSince(states: seq<State>, steps: seq<Step>, k: nat, user: UserId)
    requires k <= |steps| <= |states|
  {
    exists j :: 0 <= j < k && Accepts(states[j], steps[j], user) && SameEmailSince(states, steps, j + 1, k, user)
  }

  lemma ConfirmedSinceNext(states: seq<State>, steps: seq<Step>, k: nat, user: UserId)
    requires k < |steps| <= |states|
    ensures ConfirmedSince(states, steps, k + 1, user) <==>
      || Accepts(states[k], steps[k], user)
      || (ConfirmedSince(states, steps, k, user) && !Readdresses(states[k], steps[k], user))
  {
    if ConfirmedSince(states, steps, k + 1, user) {
      var j :| 0 <= j < k + 1 && Accepts(states[j], steps[j], user)
        && SameEmailSince(states, steps, j + 1, k + 1, user);
      if j < k { assert SameEmailSince(states, steps, j + 1, k, user); }
    }
    if Accepts(states[k], steps[k], user) { assert SameEmailSince(states, steps, k + 1, k + 1, user); }
    if ConfirmedSince(states, steps, k, user) && !Readdresses(states[k], steps[k], user) {
      var j :| 0 <= j < k && Accepts(states[j], steps[j], user) && SameEmailSince(states, steps, j + 1, k, user);
      assert SameEmailSince(states, steps, j + 1, k + 1, user);
    }
  }

  /** In every run an email is verified exactly if a code for it was accepted and the email has not changed since. */
  lemma {:induction false} VerifiedIff(states: seq<State>, steps: seq<Step>, k: nat, user: UserId)
    requires Run(states, steps) && k < |states|
    ensures user in states[k].verified <==> ConfirmedSince(states, steps, k, user)
  {
    if k > 0 {
      VerifiedIff(states, steps, k - 1, user);
      VerifiedNext(states[k - 1], steps[k - 1], user);
      ConfirmedSinceNext(states, steps, k - 1, user);
    }
  }
  /** The email that counts is the last one set. */
  lemma {:induction false} LastEmailCounts(
    states: seq<State>, steps: seq<Step>, j: nat, k: nat, user: UserId, email: Email)
    requires Run(states, steps) && j < k < |states| && steps[j].SetEmail? && steps[j].user == user
    requires steps[j].email == email
    requires forall n :: j < n < k ==> !(steps[n].SetEmail? && steps[n].user == user)
    ensures Lookup(states[k].emails, user) == Some(email)
    decreases k
  {
    assert Leads(states[k - 1], steps[k - 1], states[k]);
    if j + 1 < k { LastEmailCounts(states, steps, j, k - 1, user, email); }
  }
}
