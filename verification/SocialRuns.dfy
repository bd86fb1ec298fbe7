/** Whole runs of sign-ins, links and unlinks, between other edits of accounts. */
module SocialRuns {
  import opened Options
  import opened SocialModel

  datatype Step =
    | SignsIn(provider: Provider, claims: Claims, surface: Surface, staff: Option<bool>, newId: UserId)
    | Links(provider: Provider, subject: Subject, user: UserId)
    | Unlinks(user: UserId, provider: Provider)
    | SetsPassword(user: UserId)
    | EditsEmail(user: UserId, email: string)
    | VerifiesEmail(user: UserId)
    | Registers(newId: UserId, details: User)

  /** The constraints on users let the row be written: username and nonblank email are not in use. */
  predicate Admits(a: Accounts, env: Env, id: UserId, user: User) {
    forall u :: u in a.users && u != id ==>
      a.users[u].username != user.username && !(user.email != "" && SameEmail(env, a.users[u], user.email))
  }

  /** Saving a changed email makes it unverified. */
  function WithEmail(env: Env, user: User, email: string): User {
    user.(email := email, emailVerified := user.emailVerified && env.normalize(email) == env.normalize(user.email))
  }

  predicate Enabled(a: Accounts, env: Env, step: Step) {
    match step
    case SignsIn(_, _, _, _, newId) => newId !in a.users
    case Links(_, _, user) => user in a.users
    case Unlinks(user, _) => user in a.users
    case SetsPassword(user) => user in a.users
    case VerifiesEmail(user) => user in a.users
    case EditsEmail(user, email) =>
      user in a.users && Admits(a, env, user, WithEmail(env, a.users[user], email))
    case Registers(newId, details) => newId !in a.users && Admits(a, env, newId, details)
  }

  ghost function Next(a: Accounts, env: Env, step: Step): Accounts
    requires Enabled(a, env, step)
  {
    match step
    case SignsIn(provider, claims, surface, staff, newId) =>
      SignIn(a, env, provider, claims, surface, staff, newId).0
    case Links(provider, subject, user) => ExplicitLink(a, provider, subject, user).0
    case Unlinks(user, provider) => Unlink(a, user, provider).0
    case SetsPassword(user) => a.(users := a.users[user := a.users[user].(hasPassword := true)])
    case EditsEmail(user, email) => a.(users := a.users[user := WithEmail(env, a.users[user], email)])
    case VerifiesEmail(user) => a.(users := a.users[user := a.users[user].(emailVerified := true)])
    case Registers(newId, details) => a.(users := a.users[newId := details])
  }

  /** The step is possible in `a` and ends in `b`. */
  ghost predicate Leads(a: Accounts, env: Env, step: Step, b: Accounts) {
    Enabled(a, env, step) && b == Next(a, env, step)
  }

  /** `states[k]` is the state before `steps[k]`. */
  ghost predicate Run(env: Env, states: seq<Accounts>, steps: seq<Step>) {
    && |states| == |steps| + 1
    && states[0] == Accounts(map[], {})
    && forall k {:trigger steps[k]} :: 0 <= k < |steps| ==> Leads(states[k], env, steps[k], states[k + 1])
  }

  lemma PutUserKeepsSound(a: Accounts, env: Env, id: UserId, user: User)
    requires Sound(a, env) && Admits(a, env, id, user)
    ensures Sound(a.(users := a.users[id := user]), env)
  {
  }

  lemma PutUserKeepsCredentials(a: Accounts, id: UserId, user: User, who: UserId)
    requires HasCredential(a, who)
    requires id in a.users && a.users[id].hasPassword ==> user.hasPassword
    ensures HasCredential(a.(users := a.users[id := user]), who)
  {
    assert IdentitiesOf(a.(users := a.users[id := user]), who) == IdentitiesOf(a, who);
  }

  lemma StepKeepsSound(a: Accounts, env: Env, step: Step)
    requires Sound(a, env) && Enabled(a, env, step)
    ensures Sound(Next(a, env, step), env)
  {
    match step
    case SignsIn(provider, claims, surface, staff, newId) =>
      SignInKeepsSound(a, env, provider, claims, surface, staff, newId);
    case Links(provider, subject, user) => LinkKeepsSound(a, env, provider, subject, user);
    case Unlinks(user, provider) => UnlinkKeepsSound(a, env, user, provider);
    case SetsPassword(user) => PutUserKeepsSound(a, env, user, a.users[user].(hasPassword := true));
    case EditsEmail(user, email) =>
      PutUserKeepsSound(a, env, user, WithEmail(env, a.users[user], email));
    case VerifiesEmail(user) => PutUserKeepsSound(a, env, user, a.users[user].(emailVerified := true));
    case Registers(newId, details) => PutUserKeepsSound(a, env, newId, details);
  }

  lemma StepKeepsCredentials(a: Accounts, env: Env, step: Step, who: UserId)
    requires Sound(a, env) && Enabled(a, env, step) && HasCredential(a, who)
    ensures HasCredential(Next(a, env, step), who)
  {
    match step
    case SignsIn(provider, claims, surface, staff, newId) =>
      SignInKeepsCredentials(a, env, provider, claims, surface, staff, newId, who);
    case Links(provider, subject, user) => LinkKeepsSound(a, env, provider, subject, user);
    case Unlinks(user, provider) => UnlinkKeepsSound(a, env, user, provider);
    case SetsPassword(user) => PutUserKeepsCredentials(a, user, a.users[user].(hasPassword := true), who);
    case EditsEmail(user, email) =>
      PutUserKeepsCredentials(a, user, WithEmail(env, a.users[user], email), who);
    case VerifiesEmail(user) => PutUserKeepsCredentials(a, user, a.users[user].(emailVerified := true), who);
    case Registers(newId, details) => PutUserKeepsCredentials(a, newId, details, who);
  }

  /** Identities stay one to one, and emails and usernames unique, in every reachable state. */
  lemma {:induction false} RunIsSound(env: Env, states: seq<Accounts>, steps: seq<Step>, k: nat)
    requires Run(env, states, steps) && k < |states|
    ensures Sound(states[k], env)
  {
    if k > 0 {
      RunIsSound(env, states, steps, k - 1);
      StepKeepsSound(states[k - 1], env, steps[k - 1]);
    }
  }

  /** Whoever has a password or an identity has one ever after. */
  lemma {:induction false} NobodyIsLockedOut(
    env: Env, states: seq<Accounts>, steps: seq<Step>, j: nat, k: nat, who: UserId)
    requires Run(env, states, steps) && j <= k < |states| && HasCredential(states[j], who)
    ensures HasCredential(states[k], who)
    decreases k
  {
    if j < k {
      NobodyIsLockedOut(env, states, steps, j, k - 1, who);
      RunIsSound(env, states, steps, k - 1);
      StepKeepsCredentials(states[k - 1], env, steps[k - 1], who);
    }
  }

  /** A sign-in with the subject names this user. */
  ghost predicate Owns(a: Accounts, provider: Provider, subject: Subject, user: UserId) {
    Identity(user, provider, subject) in a.identities
  }

  lemma OwnerIsUnique(a: Accounts, env: Env, provider: Provider, subject: Subject, user: UserId)
    requires OneToOne(a) && Owns(a, provider, subject, user)
    ensures forall other :: Owns(a, provider, subject, other) ==> other == user
    ensures forall claims: Claims, surface, newId | claims.subject == subject ::
      SignIn(a, env, provider, claims, surface, None, newId) == (a, Done(user, Existing))
  {
    var mine := Identity(user, provider, subject);
    assert Matches(mine, provider, subject);
    forall i | i in a.identities && Matches(i, provider, subject) ensures i == mine { assert Clash(i, mine); }
    forall other | Owns(a, provider, subject, other) ensures other == user {
      assert Matches(Identity(other, provider, subject), provider, subject);
    }
  }

  lemma StepKeepsOwner(a: Accounts, env: Env, step: Step, provider: Provider, subject: Subject, user: UserId)
    requires Sound(a, env) && Enabled(a, env, step) && Owns(a, provider, subject, user)
    requires step != Unlinks(user, provider)
    ensures Owns(Next(a, env, step), provider, subject, user)
  {
    if step.Unlinks? { UnlinkKeepsSound(a, env, step.user, step.provider); }
  }

  /** The steps j, ..., k - 1 hold no unlinking of the user from the provider. */
  predicate KeepsLink(steps: seq<Step>, j: nat, k: nat, user: UserId, provider: Provider)
    requires k <= |steps|
  {
    forall i :: j <= i < k ==> steps[i] != Unlinks(user, provider)
  }

  lemma {:induction false} OwnerStays(
    env: Env, states: seq<Accounts>, steps: seq<Step>, j: nat, k: nat,
    provider: Provider, subject: Subject, user: UserId)
    requires Run(env, states, steps) && j <= k < |states| && Owns(states[j], provider, subject, user)
    requires KeepsLink(steps, j, k, user, provider)
    ensures Owns(states[k], provider, subject, user)
    decreases k
  {
    if j < k {
      OwnerStays(env, states, steps, j, k - 1, provider, subject, user);
      RunIsSound(env, states, steps, k - 1);
      StepKeepsOwner(states[k - 1], env, steps[k - 1], provider, subject, user);
    }
  }

  /** A subject keeps signing in to the same user until that user unlinks the provider. */
  lemma SubjectsStayWithTheirUser(
    env: Env, states: seq<Accounts>, steps: seq<Step>, j: nat, k: nat,
    provider: Provider, subject: Subject, user: UserId)
    requires Run(env, states, steps) && j <= k < |states| && Owns(states[j], provider, subject, user)
    requires KeepsLink(steps, j, k, user, provider)
    ensures Owns(states[k], provider, subject, user)
    ensures forall other :: Owns(states[k], provider, subject, other) ==> other == user
    ensures forall claims: Claims, surface, newId | claims.subject == subject ::
      SignIn(states[k], env, provider, claims, surface, None, newId) == (states[k], Done(user, Existing))
  {
    OwnerStays(env, states, steps, j, k, provider, subject, user);
    RunIsSound(env, states, steps, k);
    OwnerIsUnique(states[k], env, provider, subject, user);
  }
  // ---------------------------------------------------------------- verified emails

  /** The user is there with an email that nobody has verified. */
  predicate Unverified(a: Accounts, user: UserId) {
    user in a.users && !a.users[user].emailVerified
  }

  lemma StepKeepsUnverified(a: Accounts, env: Env, step: Step, user: UserId)
    requires Enabled(a, env, step) && Unverified(a, user) && step != VerifiesEmail(user)
    ensures Unverified(Next(a, env, step), user)
  {
  }

  lemma {:induction false} StaysUnverified(
    env: Env, states: seq<Accounts>, steps: seq<Step>, j: nat, k: nat, user: UserId)
    requires Run(env, states, steps) && j <= k < |states| && Unverified(states[j], user)
    requires forall n :: j <= n < k ==> steps[n] != VerifiesEmail(user)
    ensures Unverified(states[k], user)
    decreases k
  {
    if j < k {
      StaysUnverified(env, states, steps, j, k - 1, user);
      StepKeepsUnverified(states[k - 1], env, steps[k - 1], user);
    }
  }

  /** A user whose email has been changed is linked to nothing by email until the new one has been verified. */
  lemma ChangedEmailLinksNothing(
    env: Env, states: seq<Accounts>, steps: seq<Step>, j: nat, k: nat, user: UserId, email: string,
    provider: Provider, claims: Claims, surface: Surface, staff: Option<bool>, newId: UserId)
    requires Run(env, states, steps) && j < k < |states| && steps[j] == EditsEmail(user, email)
    requires user in states[j].users && env.normalize(email) != env.normalize(states[j].users[user].email)
    requires forall n :: j < n < k ==> steps[n] != VerifiesEmail(user)
    requires newId !in states[k].users
    ensures SignIn(states[k], env, provider, claims, surface, staff, newId).1 != Done(user, AutoLinked)
  {
    assert Leads(states[j], env, steps[j], states[j + 1]);
    StaysUnverified(env, states, steps, j + 1, k, user);
  }
  // ---------------------------------------------------------------- edits

  predicate Edits(step: Step, user: UserId) {
    match step
    case SetsPassword(u) => u == user
    case EditsEmail(u, _) => u == user
    case VerifiesEmail(u) => u == user
    case Registers(u, _) => u == user
    case _ => false
  }

  /** The row of a user that the step edits, from the row before. */
  predicate EditedTo(env: Env, step: Step, before: Option<User>, after: User) {
    match step
    case SetsPassword(_) => before.Some? && after == before.value.(hasPassword := true)
    case VerifiesEmail(_) => before.Some? && after == before.value.(emailVerified := true)
    case EditsEmail(_, email) =>
      && before.Some? && after == User(before.value.username, email, after.emailVerified, before.value.hasPassword)
      && (after.emailVerified <==>
            before.value.emailVerified && env.normalize(email) == env.normalize(before.value.email))
    case Registers(_, details) => before.None? && after == details
    case _ => false
  }

  lemma OthersLeaveUser(a: Accounts, env: Env, step: Step, user: UserId)
    requires Enabled(a, env, step) && user in a.users && !Edits(step, user)
    ensures user in Next(a, env, step).users && Next(a, env, step).users[user] == a.users[user]
  {
  }

  /** The row of a user is what the last edit made of it. */
  lemma {:induction false} UserIsAsLastEdited(
    env: Env, states: seq<Accounts>, steps: seq<Step>, j: nat, k: nat, user: UserId)
    requires Run(env, states, steps) && j < k < |states| && Edits(steps[j], user)
    requires forall n :: j < n < k ==> !Edits(steps[n], user)
    ensures user in states[k].users && EditedTo(env, steps[j], Lookup(states[j].users, user), states[k].users[user])
    decreases k
  {
    assert Leads(states[k - 1], env, steps[k - 1], states[k]);
    if j + 1 < k {
      UserIsAsLastEdited(env, states, steps, j, k - 1, user);
      OthersLeaveUser(states[k - 1], env, steps[k - 1], user);
    }
  }
}
