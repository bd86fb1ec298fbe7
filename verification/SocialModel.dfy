/** Social sign-in, explicit linking and unlinking of identities. */
module SocialModel {
  import opened Options
  import FreshNames

  type UserId = nat
  type Provider = string
  type Subject = string

  datatype User = User(username: string, email: string, emailVerified: bool, hasPassword: bool)

  datatype Identity = Identity(user: UserId, provider: Provider, subject: Subject)

  datatype Accounts = Accounts(users: map<UserId, User>, identities: set<Identity>)

  /** Case folding and normalising of emails, and the shortened hash in generated usernames. */
  datatype Env = Env(fold: string -> string, normalize: string -> string, digest: (Provider, Subject) -> string)

  /** The verified claims of the provider; a missing email is "". */
  datatype Claims = Claims(subject: Subject, email: string, emailVerified: bool)

  datatype Surface = Member | Staff

  datatype Problem =
    | IdentityConflict | ProviderAlreadyLinked | AccountLinkRequired | StaffAccessRequired
    | RejectedByStaffCheck | IdentityNotFound | LastCredential

  datatype How = Existing | AutoLinked | Created | Linked | Unlinked

  datatype Outcome = Done(user: UserId, how: How) | Refused(problem: Problem)

  // ---------------------------------------------------------------- lookups

  predicate Matches(i: Identity, provider: Provider, subject: Subject) {
    i.provider == provider && i.subject == subject
  }

  /** The identity row for the provider's subject. */
  ghost function IdentityFor(a: Accounts, provider: Provider, subject: Subject): (r: Option<Identity>)
    ensures r.Some? ==> r.value in a.identities && Matches(r.value, provider, subject)
    ensures r.None? ==> forall i :: i in a.identities ==> !Matches(i, provider, subject)
  {
    if exists i :: i in a.identities && Matches(i, provider, subject) then
      var i :| i in a.identities && Matches(i, provider, subject);
      Some(i)
    else None
  }

  predicate SameEmail(env: Env, user: User, email: string) {
    user.email != "" && env.fold(user.email) == env.fold(email)
  }

  /** The user whose nonblank email is this one, ignoring case; nobody for a blank one. */
  ghost function UserByEmail(a: Accounts, env: Env, email: string): (r: Option<UserId>)
    ensures r.Some? ==> email != "" && r.value in a.users && SameEmail(env, a.users[r.value], email)
    ensures r.None? && email != "" ==> forall u :: u in a.users ==> !SameEmail(env, a.users[u], email)
  {
    if email != "" && exists u :: u in a.users && SameEmail(env, a.users[u], email) then
      var u :| u in a.users && SameEmail(env, a.users[u], email);
      Some(u)
    else None
  }

  function Usernames(a: Accounts): set<string> {
    set u | u in a.users :: a.users[u].username
  }

  /** Both rows cannot be stored: (provider, subject) and (user, provider) are unique. */
  predicate Clash(i: Identity, j: Identity) {
    i.provider == j.provider && (i.subject == j.subject || i.user == j.user)
  }

  predicate Violates(a: Accounts, i: Identity) {
    exists other :: other in a.identities && Clash(other, i)
  }

  // ---------------------------------------------------------------- the three operations

  /** The last write of a sign-in: its user row goes too if the identity row is refused. */
  function Attach(a: Accounts, users: map<UserId, User>, i: Identity, how: How): (Accounts, Outcome) {
    if Violates(a, i) then (a, Refused(IdentityConflict))
    else (Accounts(users, a.identities + {i}), Done(i.user, how))
  }

  /** `User(...)` in `resolve_social_identity`. */
  function NewAccount(a: Accounts, env: Env, provider: Provider, claims: Claims): User {
    var verified := claims.email != "" && claims.emailVerified;
    var base := provider + "_" + env.digest(provider, claims.subject);
    User(FreshNames.FirstFree(base, "_", Usernames(a)), if verified then claims.email else "", verified, false)
  }

  /** `staff` is the verdict of the staff check, if the caller asked for one. */
  ghost function SignIn(
    a: Accounts, env: Env, provider: Provider, claims: Claims, surface: Surface, staff: Option<bool>, newId: UserId)
    : (r: (Accounts, Outcome))
  {
    var identity := IdentityFor(a, provider, claims.subject);
    if identity.Some? then
      if staff == Some(false) then (a, Refused(RejectedByStaffCheck)) else (a, Done(identity.value.user, Existing))
    else
      var verified := claims.email != "" && claims.emailVerified;
      var matched := UserByEmail(a, env, claims.email);
      if matched.Some? then
        if !verified || !a.users[matched.value].emailVerified then (a, Refused(AccountLinkRequired))
        else if staff == Some(false) then (a, Refused(RejectedByStaffCheck))
        else
          Attach(a, a.users, Identity(matched.value, provider, claims.subject), AutoLinked)
      else if surface == Staff then (a, Refused(StaffAccessRequired))
      else if staff == Some(false) then (a, Refused(RejectedByStaffCheck))
      else
        var users := a.users[newId := NewAccount(a, env, provider, claims)];
        Attach(a, users, Identity(newId, provider, claims.subject), Created)
  }

  ghost function ExplicitLink(a: Accounts, provider: Provider, subject: Subject, user: UserId): (Accounts, Outcome) {
    var identity := IdentityFor(a, provider, subject);
    if identity.Some? then
      if identity.value.user != user then (a, Refused(IdentityConflict)) else (a, Done(user, Existing))
    else if exists i :: i in a.identities && i.user == user && i.provider == provider then
      (a, Refused(ProviderAlreadyLinked))
    else (a.(identities := a.identities + {Identity(user, provider, subject)}), Done(user, Linked))
  }

  function IdentitiesOf(a: Accounts, user: UserId): set<Identity> {
    set i | i in a.identities && i.user == user
  }

  ghost function Unlink(a: Accounts, user: UserId, provider: Provider): (r: (Accounts, Outcome))
    requires user in a.users
  {
    var mine := set i | i in IdentitiesOf(a, user) && i.provider == provider;
    if mine == {} then (a, Refused(IdentityNotFound))
    else
      var i :| i in mine;
      if !a.users[user].hasPassword && IdentitiesOf(a, user) == {i} then (a, Refused(LastCredential))
      else (a.(identities := a.identities - {i}), Done(user, Unlinked))
  }

  // ---------------------------------------------------------------- what every step keeps

  /** Per provider, users and subjects are matched one to one, and only existing users are. */
  ghost predicate OneToOne(a: Accounts) {
    && (forall i :: i in a.identities ==> i.user in a.users)
    && forall i, j :: i in a.identities && j in a.identities && Clash(i, j) ==> i == j
  }

  ghost predicate EmailsUnique(a: Accounts, env: Env) {
    forall u, v :: u in a.users && v in a.users && u != v && a.users[u].email != "" && a.users[v].email != ""
      ==> env.fold(a.users[u].email) != env.fold(a.users[v].email)
  }

  ghost predicate UsernamesUnique(a: Accounts) {
    forall u, v :: u in a.users && v in a.users && u != v ==> a.users[u].username != a.users[v].username
  }

  ghost predicate Sound(a: Accounts, env: Env) {
    OneToOne(a) && EmailsUnique(a, env) && UsernamesUnique(a)
  }

  /** The user has some way to sign in. */
  predicate HasCredential(a: Accounts, user: UserId) {
    user in a.users && (a.users[user].hasPassword || IdentitiesOf(a, user) != {})
  }

  lemma SignInKeepsSound(
    a: Accounts, env: Env, provider: Provider, claims: Claims, surface: Surface, staff: Option<bool>, newId: UserId)
    requires Sound(a, env) && newId !in a.users
    ensures var r := SignIn(a, env, provider, claims, surface, staff, newId);
      && Sound(r.0, env)
      && (r.1.Refused? ==> r.0 == a)
      && (r.1.Done? ==> Identity(r.1.user, provider, claims.subject) in r.0.identities)
  {
    var matched := UserByEmail(a, env, claims.email);
    if matched.Some? {
      AttachKeepsSound(a, env, a.users, Identity(matched.value, provider, claims.subject), AutoLinked);
    } else {
      NewAccountKeepsSound(a, env, provider, claims, newId);
    }
  }

  lemma NewAccountKeepsSound(a: Accounts, env: Env, provider: Provider, claims: Claims, newId: UserId)
    requires Sound(a, env) && newId !in a.users && UserByEmail(a, env, claims.email).None?
    ensures var users := a.users[newId := NewAccount(a, env, provider, claims)];
      Sound(Attach(a, users, Identity(newId, provider, claims.subject), Created).0, env)
  {
    AddUserKeepsSound(a, env, newId, NewAccount(a, env, provider, claims));
    AttachKeepsSound(a, env, a.users[newId := NewAccount(a, env, provider, claims)],
      Identity(newId, provider, claims.subject), Created);
  }

  lemma AttachKeepsSound(a: Accounts, env: Env, users: map<UserId, User>, i: Identity, how: How)
    requires Sound(a, env) && Sound(a.(users := users), env) && i.user in users
    ensures Sound(Attach(a, users, i, how).0, env)
  {
  }

  lemma AddUserKeepsSound(a: Accounts, env: Env, newId: UserId, user: User)
    requires Sound(a, env) && newId !in a.users
    requires user.username !in Usernames(a)
    requires forall u :: u in a.users ==> !(user.email != "" && SameEmail(env, a.users[u], user.email))
    ensures Sound(a.(users := a.users[newId := user]), env)
  {
    forall u | u in a.users ensures a.users[u].username in Usernames(a) {}
  }

  /** Signing in takes no one's credentials away. */
  lemma SignInKeepsCredentials(
    a: Accounts, env: Env, provider: Provider, claims: Claims, surface: Surface, staff: Option<bool>, newId: UserId,
    user: UserId)
    requires newId !in a.users && HasCredential(a, user)
    ensures HasCredential(SignIn(a, env, provider, claims, surface, staff, newId).0, user)
  {
    var r := SignIn(a, env, provider, claims, surface, staff, newId);
    forall i | i in IdentitiesOf(a, user) ensures i in IdentitiesOf(r.0, user) {}
  }

  /** An account is only ever taken over by a verified email on both sides. */
  lemma AutoLinkNeedsBothVerified(
    a: Accounts, env: Env, provider: Provider, claims: Claims, surface: Surface, staff: Option<bool>, newId: UserId)
    requires Sound(a, env) && newId !in a.users
    ensures var r := SignIn(a, env, provider, claims, surface, staff, newId);
      forall i :: i in r.0.identities - a.identities ==>
        i.user in a.users ==>
          claims.emailVerified && a.users[i.user].emailVerified && SameEmail(env, a.users[i.user], claims.email)
  {
  }

  /**
   An account is created exactly for a new subject whose email nobody has, on the member surface and
   with the consent of the staff check. It has no password, a fresh username, and an email only if the provider
   verified it.
   */
  lemma CreationIff(
    a: Accounts, env: Env, provider: Provider, claims: Claims, surface: Surface, staff: Option<bool>, newId: UserId)
    requires Sound(a, env) && newId !in a.users
    ensures var r := SignIn(a, env, provider, claims, surface, staff, newId);
      var verified := claims.email != "" && claims.emailVerified;
      && (r.1 == Done(newId, Created) <==>
            && (forall i :: i in a.identities ==> !Matches(i, provider, claims.subject))
            && (claims.email != "" ==> forall u :: u in a.users ==> !SameEmail(env, a.users[u], claims.email))
            && surface == Member && staff != Some(false))
      && (r.1 == Done(newId, Created) ==>
            && r.0.users.Keys == a.users.Keys + {newId}
            && (forall u :: u in a.users ==> r.0.users[u] == a.users[u])
            && var user := r.0.users[newId];
               user == User(user.username, if verified then claims.email else "", verified, false)
               && user.username !in Usernames(a))
      && (r.0.users != a.users ==> r.1 == Done(newId, Created))
  {
  }

  /** The identity links the provider to a verified user with this email. */
  predicate IsVerifiedMatch(a: Accounts, env: Env, i: Identity, provider: Provider, email: string)
    requires i.user in a.users
  {
    i.provider == provider && a.users[i.user].emailVerified && SameEmail(env, a.users[i.user], email)
  }

  /**
   Without interference the uniqueness constraints stop a sign-in exactly when its email belongs to a
   verified user who has the provider linked to another subject, and the staff check has not stopped it before.
   */
  lemma ConstraintFiresIff(
    a: Accounts, env: Env, provider: Provider, claims: Claims, surface: Surface, staff: Option<bool>, newId: UserId)
    requires Sound(a, env) && newId !in a.users
    ensures SignIn(a, env, provider, claims, surface, staff, newId).1 == Refused(IdentityConflict)
      <==> (&& (forall i :: i in a.identities ==> !Matches(i, provider, claims.subject))
            && claims.email != "" && claims.emailVerified && staff != Some(false)
            && exists i :: i in a.identities && IsVerifiedMatch(a, env, i, provider, claims.email))
  {
    var matched := UserByEmail(a, env, claims.email);
    if i :| i in a.identities && claims.email != "" && SameEmail(env, a.users[i.user], claims.email) {
      assert matched == Some(i.user);
    }
    if matched.None? {
      assert !Violates(a, Identity(newId, provider, claims.subject))
        || exists i :: i in a.identities && Matches(i, provider, claims.subject);
    }
  }

  lemma LinkKeepsSound(a: Accounts, env: Env, provider: Provider, subject: Subject, user: UserId)
    requires Sound(a, env) && user in a.users
    ensures var r := ExplicitLink(a, provider, subject, user);
      && Sound(r.0, env)
      && (r.1.Refused? ==> r.0 == a)
      && (r.1.Done? <==> Identity(user, provider, subject) in r.0.identities)
      && (forall u :: HasCredential(a, u) ==> HasCredential(r.0, u))
  {
    var r := ExplicitLink(a, provider, subject, user);
    forall u | HasCredential(a, u) ensures HasCredential(r.0, u) {
      forall i | i in IdentitiesOf(a, u) ensures i in IdentitiesOf(r.0, u) {}
    }
  }

  lemma OneIdentityPerProvider(a: Accounts, user: UserId, provider: Provider)
    requires OneToOne(a)
    ensures forall i, j | i in a.identities && j in a.identities && i.provider == j.provider == provider ::
      i.user == user && j.user == user ==> i == j
  {
    forall i, j | i in a.identities && j in a.identities
      && i.user == j.user == user && i.provider == j.provider == provider
      ensures i == j
    {
      assert Clash(i, j);
    }
  }

  /** Unlinking is refused for safety exactly when it would leave a user without password no identity. */
  lemma LastCredentialIff(a: Accounts, user: UserId, provider: Provider)
    requires OneToOne(a) && user in a.users
    ensures Unlink(a, user, provider).1 == Refused(LastCredential) <==>
      !a.users[user].hasPassword && exists i :: IdentitiesOf(a, user) == {i} && i.provider == provider
  {
    OneIdentityPerProvider(a, user, provider);
    if i :| IdentitiesOf(a, user) == {i} && i.provider == provider {
      assert i in IdentitiesOf(a, user);
      assert (set j | j in IdentitiesOf(a, user) && j.provider == provider) == {i};
    }
  }

  /** Unlinking removes the user's identity of the provider and nothing else, and never the last credential. */
  lemma UnlinkKeepsSound(a: Accounts, env: Env, user: UserId, provider: Provider)
    requires Sound(a, env) && user in a.users
    ensures var r := Unlink(a, user, provider);
      && Sound(r.0, env)
      && (r.1.Refused? ==> r.0 == a)
      && (r.1.Done? ==> r.0.identities == set i | i in a.identities && !(i.user == user && i.provider == provider))
      && (forall u :: HasCredential(a, u) ==> HasCredential(r.0, u))
  {
    var r := Unlink(a, user, provider);
    OneIdentityPerProvider(a, user, provider);
    forall u | HasCredential(a, u) ensures HasCredential(r.0, u) {
      if u != user {
        forall i | i in IdentitiesOf(a, u) ensures i in IdentitiesOf(r.0, u) {}
      } else if r.1.Done? && !a.users[user].hasPassword {
        var gone :| gone in a.identities && gone.user == user && r.0.identities == a.identities - {gone}
          && IdentitiesOf(a, user) != {gone};
        assert gone in IdentitiesOf(a, user);
        var other :| other in IdentitiesOf(a, user) && other != gone;
        assert other in IdentitiesOf(r.0, user);
      }
    }
  }
}
