/** Issuing and confirming challenges in the form the program has them. */
module OtpDesk {
  import opened Options
  import opened OtpModel
  import opened OtpRuns

  /**
   The challenge rows of every user and email, with the current (normalised) email of each user.
   Each method leaves the tables as the matching step of OtpRuns does.
   */
  class Desk {
    var emails: map<UserId, Email>
    var book: map<Key, Ledger>
    var verified: set<UserId>

    ghost function Tables(clock: Time): State
      reads this
    {
      State(emails, book, verified, clock)
    }

    constructor ()
      ensures Tables(0) == INITIAL
    {
      emails, book, verified := map[], map[], {};
    }

    /** `issue_challenge`. Returns None while the cooldown lasts. */
    method IssueChallenge(user: UserId, now: Time, code: Code) returns (challenge: Option<Challenge>)
      requires user in emails
      modifies this
      ensures Tables(now) == Next(old(Tables(now)), Issue(user, now, code))
      ensures challenge.None? <==> CoolingDown(LedgerOf(old(Tables(now)), (user, emails[user])), now)
      ensures challenge.None? ==> Tables(now) == old(Tables(now))
      ensures challenge.Some? ==>
        var l := LedgerOf(Tables(now), (user, emails[user]));
        && l != [] && l[|l| - 1] == challenge.value && Usable(challenge.value, now)
        && forall i :: 0 <= i < |l| - 1 ==> !Usable(l[i], now)
    {
      var key := (user, emails[user]);
      var ledger := if key in book then book[key] else [];
      if exists i :: 0 <= i < |ledger| && ledger[i].sent >= now - RESEND_COOLDOWN { return None; }
      ledger := ConsumeUsable(ledger, now);
      var sent := Challenge(code, now + CHALLENGE_TTL, false, 0, now);
      book := book[key := ledger + [sent]];
      return Some(sent);
    }

    /** `confirm_challenge`. The failed attempt is saved before the caller gets the error. */
    method ConfirmChallenge(user: UserId, now: Time, code: Code) returns (verdict: Verdict)
      requires user in emails
      modifies this
      ensures Tables(now) == Next(old(Tables(now)), Confirm(user, now, code))
      ensures var l := LedgerOf(old(Tables(now)), (user, emails[user])); var newest := Newest(l, now);
        && (verdict == NoChallenge <==> forall i :: 0 <= i < |l| ==> !Usable(l[i], now))
        && (verdict == Verified <==> newest.Some? && l[newest.value].digest == code)
        && (verdict == WrongCode ==>
              LedgerOf(Tables(now), (user, emails[user]))[newest.value].failed == l[newest.value].failed + 1)
      ensures verdict == Verified ==>
        var l := LedgerOf(Tables(now), (user, emails[user]));
        user in verified && forall i :: 0 <= i < |l| ==> !Usable(l[i], now)
      ensures verdict != Verified ==> verified == old(verified)
    {
      var key := (user, emails[user]);
      var ledger := if key in book then book[key] else [];
      var newest := Newest(ledger, now);
      verdict := NoChallenge;
      if newest.Some? {
        var challenge := ledger[newest.value];
        if challenge.digest != code {
          ledger := ledger[newest.value := challenge.(failed := challenge.failed + 1)];
          verdict := WrongCode;
        } else {
          var closed := ConsumeAll(ledger[newest.value := challenge.(consumed := true)]);
          assert closed == ConsumeAll(ledger);
          ledger := closed;
          verified := verified + {user};
          verdict := Verified;
        }
      }
      book := book[key := ledger];
    }
  }
}
