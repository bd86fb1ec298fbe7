/** Runs of challenge requests and confirmations by many users, and the budget of wrong codes. */
module OtpRuns {
  import opened Options
  import opened OtpModel

  type UserId = nat
  type Email = string
  type Key = (UserId, Email)

  datatype State = State(emails: map<UserId, Email>, book: map<Key, Ledger>, verified: set<UserId>, clock: Time)

  /** Requests, confirmations and changes of address; each carries the clock reading it used. */
  datatype Step =
    | Issue(user: UserId, at: Time, code: Code)
    | Confirm(user: UserId, at: Time, code: Code)
    | SetEmail(user: UserId, at: Time, email: Email)

  predicate Enabled(s: State, step: Step) {
    s.clock <= step.at && (!step.SetEmail? ==> step.user in s.emails)
  }

  function LedgerOf(s: State, key: Key): Ledger {
    if key in s.book then s.book[key] else []
  }

  function KeyOf(s: State, user: UserId): Key
    requires user in s.emails
  {
    (user, s.emails[user])
  }

  function Next(s: State, step: Step): State
    requires Enabled(s, step)
  {
    var now := s.(clock := step.at);
    match step
    case SetEmail(user, _, email) =>
      now.(emails := s.emails[user := email],
           verified := if Lookup(s.emails, user) == Some(email) then s.verified else s.verified - {user})
    case Issue(user, at, code) =>
      var key := KeyOf(s, user);
      var issued := Issued(LedgerOf(s, key), at, code);
      if issued.None? then now else now.(book := s.book[key := issued.value])
    case Confirm(user, at, code) =>
      var key := KeyOf(s, user);
      var confirmed := Confirmed(LedgerOf(s, key), at, code);
      now.(book := s.book[key := confirmed.0],
           verified := if confirmed.1 == Verified then s.verified + {user} else s.verified)
  }

  const INITIAL: State := State(map[], map[], {}, 0)

  /** The step is possible in `s` and ends in `s'`. */
  predicate Leads(s: State, step: Step, s': State) {
    Enabled(s, step) && s' == Next(s, step)
  }

  ghost predicate Run(states: seq<State>, steps: seq<Step>) {
    && |states| == |steps| + 1
    && states[0] == INITIAL
    && forall k {:trigger steps[k]} :: 0 <= k < |steps| ==> Leads(states[k], steps[k], states[k + 1])
  }

  /** The step compares a code with a challenge of this user and email, and it is the wrong one. */
  predicate ComparesWrong(s: State, step: Step, key: Key) {
    && Enabled(s, step)
    && step.Confirm?
    && KeyOf(s, step.user) == key
    && Confirmed(LedgerOf(s, key), step.at, step.code).1 == WrongCode
  }

  lemma StepKeepsSound(s: State, step: Step, key: Key)
    requires Sound(LedgerOf(s, key), s.clock) && Enabled(s, step)
    ensures Sound(LedgerOf(Next(s, step), key), Next(s, step).clock)
  {
    var l := LedgerOf(s, key);
    TimePasses(l, s.clock, step.at);
    match step
    case Issue(user, at, code) => if Issued(l, at, code).Some? { IssueKeepsSound(l, at, code); }
    case Confirm(user, at, code) => ConfirmKeepsSound(l, at, code);
    case SetEmail(_, _, _) =>
  }

  lemma {:induction false} RunIsSound(states: seq<State>, steps: seq<Step>, k: nat, key: Key)
    requires Run(states, steps) && k < |states|
    ensures Sound(LedgerOf(states[k], key), states[k].clock)
  {
    if k > 0 {
      RunIsSound(states, steps, k - 1, key);
      StepKeepsSound(states[k - 1], steps[k - 1], key);
    }
  }

  /** In every state each user has, for each email, at most one usable challenge: the last one sent. */
  lemma OneUsableChallenge(states: seq<State>, steps: seq<Step>, k: nat, key: Key)
    requires Run(states, steps) && k < |states|
    ensures forall i, now ::
      (0 <= i < |LedgerOf(states[k], key)| && states[k].clock <= now && Usable(LedgerOf(states[k], key)[i], now))
      ==> i == |LedgerOf(states[k], key)| - 1
  {
    RunIsSound(states, steps, k, key);
    var l := LedgerOf(states[k], key);
    forall i, now | 0 <= i < |l| && states[k].clock <= now && Usable(l[i], now) ensures i == |l| - 1 {
      TimePasses(l, states[k].clock, now);
      OnlyTheLastIsUsable(l, now, i);
    }
  }

  /** The step requests or confirms a challenge of this user and email. */
  predicate Concerns(s: State, step: Step, key: Key) {
    Enabled(s, step) && !step.SetEmail? && KeyOf(s, step.user) == key
  }

  lemma LedgerAfter(s: State, step: Step, key: Key)
    requires Enabled(s, step)
    ensures var l := LedgerOf(s, key);
      LedgerOf(Next(s, step), key) ==
        if !Concerns(s, step, key) then l
        else if step.Confirm? then Confirmed(l, step.at, step.code).0
        else if Issued(l, step.at, step.code).None? then l
        else Issued(l, step.at, step.code).value
  {
  }

  /** One step adds at most one failure, and continues the ledger with at most a challenge sent now. */
  lemma StepContinues(s: State, step: Step, key: Key)
    requires Sound(LedgerOf(s, key), s.clock) && Enabled(s, step)
    ensures var l := LedgerOf(s, key); var l' := LedgerOf(Next(s, step), key);
      && Continues(l, l')
      && SentWithin(l', |l|, step.at, 0)
      && Failures(l') == Failures(l) + if ComparesWrong(s, step, key) then 1 else 0
  {
    var l := LedgerOf(s, key);
    TimePasses(l, s.clock, step.at);
    LedgerAfter(s, step, key);
    if Concerns(s, step, key) {
      if step.Confirm? { ConfirmContinues(l, step.at, step.code); }
      else if Issued(l, step.at, step.code).Some? { IssueContinues(l, step.at, step.code); }
    }
  }

  /** Wrong-code comparisons for the key among the steps j, ..., k - 1. */
  function Wrongs(states: seq<State>, steps: seq<Step>, key: Key, j: nat, k: nat): nat
    requires |states| == |steps| + 1 && j <= k <= |steps|
    decreases k - j
  {
    if j == k then 0
    else Wrongs(states, steps, key, j, k - 1) + if ComparesWrong(states[k - 1], steps[k - 1], key) then 1 else 0
  }

  /** The steps j, ..., k - 1 fall into the window. */
  predicate StepsWithin(steps: seq<Step>, j: nat, k: nat, start: Time, width: nat)
    requires k <= |steps|
  {
    forall m :: j <= m < k ==> start <= steps[m].at <= start + width
  }

  lemma {:induction false} StretchContinues(
    states: seq<State>, steps: seq<Step>, key: Key, j: nat, k: nat, start: Time, width: nat)
    requires Run(states, steps) && j <= k <= |steps| && StepsWithin(steps, j, k, start, width)
    ensures var l := LedgerOf(states[j], key); var l' := LedgerOf(states[k], key);
      && Continues(l, l')
      && SentWithin(l', |l|, start, width)
      && Failures(l') == Failures(l) + Wrongs(states, steps, key, j, k)
    decreases k - j
  {
    if j < k {
      var s, step := states[k - 1], steps[k - 1];
      StretchContinues(states, steps, key, j, k - 1, start, width);
      RunIsSound(states, steps, k - 1, key);
      assert Enabled(s, step) && states[k] == Next(s, step) && start <= step.at <= start + width;
      StepContinues(s, step, key);
      ContinuesOn(LedgerOf(states[j], key), LedgerOf(s, key), LedgerOf(Next(s, step), key), start, width, step.at);
    }
  }

  /** Stretches of a run join. */
  lemma ContinuesOn(a: Ledger, b: Ledger, c: Ledger, start: Time, width: nat, at: Time)
    requires Continues(a, b) && Continues(b, c)
    requires SentWithin(b, |a|, start, width) && SentWithin(c, |b|, at, 0) && start <= at <= start + width
    ensures Continues(a, c) && SentWithin(c, |a|, start, width)
  {
    forall i | |a| <= i < |c| ensures start <= c[i].sent <= start + width {
      if i < |b| { assert c[i].sent == b[i].sent; }
    }
  }

  /**
   In any window of `width` microseconds at most 5 * (width / 60 s + 2) wrong codes are compared for
   one user and email.
   */
  lemma WrongCodeBudget(states: seq<State>, steps: seq<Step>, key: Key, j: nat, k: nat, start: Time, width: nat)
    requires Run(states, steps) && j <= k <= |steps| && StepsWithin(steps, j, k, start, width)
    ensures Wrongs(states, steps, key, j, k) <= 5 * (width / (60 * SECOND) + 2)
  {
    StretchContinues(states, steps, key, j, k, start, width);
    RunIsSound(states, steps, k, key);
    FailuresWithin(LedgerOf(states[j], key), LedgerOf(states[k], key), states[k].clock, start, width);
  }
}
