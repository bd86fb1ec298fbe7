/** Social sign-in in the form the program has it: each call looks rows up and writes rows. */
module SocialDesk {
  import opened Options
  import FreshNames
  import opened SocialModel

  class Desk {
    var users: map<UserId, User>
    var identities: set<Identity>

    ghost function Tables(): Accounts
      reads this
    {
      Accounts(users, identities)
    }

    constructor ()
      ensures Tables() == Accounts(map[], {})
    {
      users, identities := map[], {};
    }

    /** `User(...)` with `_available_username` and an unusable password. */
    method NewAccount(env: Env, provider: Provider, claims: Claims) returns (user: User)
      ensures user == SocialModel.NewAccount(Tables(), env, provider, claims)
    {
      var taken := set u | u in users :: users[u].username;
      var name, tried := FreshNames.AvailableName(provider + "_" + env.digest(provider, claims.subject), "_", taken);
      var verified := claims.email != "" && claims.emailVerified;
      assert taken == Usernames(Tables());
      return User(name, if verified then claims.email else "", verified, false);
    }

    /** The identity row is created, and with it the user rows are kept; or a constraint undoes both. */
    method AttachIdentity(all: map<UserId, User>, identity: Identity, how: How) returns (outcome: Outcome)
      modifies this
      ensures (Tables(), outcome) == Attach(old(Tables()), all, identity, how)
    {
      if exists other :: other in identities && Clash(other, identity) { return Refused(IdentityConflict); }
      users, identities := all, identities + {identity};
      return Done(identity.user, how);
    }

    /** `resolve_social_identity` for a caller who is not linking explicitly. */
    method ResolveSocialIdentity(
      env: Env, provider: Provider, claims: Claims, surface: Surface, staffCheck: Option<bool>, newId: UserId)
      returns (outcome: Outcome)
      requires Sound(Tables(), env) && newId !in users
      modifies this
      ensures (Tables(), outcome) == SignIn(old(Tables()), env, provider, claims, surface, staffCheck, newId)
      ensures Sound(Tables(), env)
      ensures outcome.Done? ==>
        outcome.user in users && Identity(outcome.user, provider, claims.subject) in identities
    {
      SignInKeepsSound(Tables(), env, provider, claims, surface, staffCheck, newId);
      if i :| i in identities && Matches(i, provider, claims.subject) {
        return if staffCheck == Some(false) then Refused(RejectedByStaffCheck) else Done(i.user, Existing);
      }
      var verified := claims.email != "" && claims.emailVerified;
      var user, how := newId, Created;
      var all := users;
      if matched :| matched in users && claims.email != "" && SameEmail(env, users[matched], claims.email) {
        assert UserByEmail(Tables(), env, claims.email) == Some(matched);
        if !verified || !users[matched].emailVerified { return Refused(AccountLinkRequired); }
        user, how := matched, AutoLinked;
      } else if surface == Staff {
        return Refused(StaffAccessRequired);
      } else {
        var account := NewAccount(env, provider, claims);
        all := users[newId := account];
      }
      if staffCheck == Some(false) { return Refused(RejectedByStaffCheck); }
      outcome := AttachIdentity(all, Identity(user, provider, claims.subject), how);
    }

    /** `_explicit_link`: the signed-in user adds a provider to the account. */
    method LinkExplicitly(env: Env, provider: Provider, subject: Subject, user: UserId) returns (outcome: Outcome)
      requires Sound(Tables(), env) && user in users
      modifies this`identities
      ensures (Tables(), outcome) == ExplicitLink(old(Tables()), provider, subject, user)
      ensures Sound(Tables(), env)
      ensures outcome.Done? <==> Identity(user, provider, subject) in identities
    {
      LinkKeepsSound(Tables(), env, provider, subject, user);
      if i :| i in identities && Matches(i, provider, subject) {
        return if i.user != user then Refused(IdentityConflict) else Done(user, Existing);
      }
      if exists i :: i in identities && i.user == user && i.provider == provider {
        return Refused(ProviderAlreadyLinked);
      }
      identities := identities + {Identity(user, provider, subject)};
      return Done(user, Linked);
    }

    /** `unlink_social_identity`. */
    method UnlinkSocialIdentity(env: Env, user: UserId, provider: Provider) returns (outcome: Outcome)
      requires Sound(Tables(), env) && user in users
      modifies this`identities
      ensures (Tables(), outcome) == Unlink(old(Tables()), user, provider)
      ensures Sound(Tables(), env)
      ensures old(HasCredential(Tables(), user)) ==> HasCredential(Tables(), user)
      ensures outcome.Done? ==> forall i :: i in identities ==> !(i.user == user && i.provider == provider)
    {
      UnlinkKeepsSound(Tables(), env, user, provider);
      OneIdentityPerProvider(Tables(), user, provider);
      if i :| i in identities && i.user == user && i.provider == provider {
        var otherExists := exists j :: j in identities && j.user == user && j != i;
        OthersExistIff(Tables(), user, i);
        assert (set j | j in IdentitiesOf(Tables(), user) && j.provider == provider) == {i};
        if !users[user].hasPassword && !otherExists { return Refused(LastCredential); }
        identities := identities - {i};
        return Done(user, Unlinked);
      }
      return Refused(IdentityNotFound);
    }
  }

  lemma OthersExistIff(a: Accounts, user: UserId, i: Identity)
    requires i in a.identities && i.user == user
    ensures IdentitiesOf(a, user) != {i} <==> exists j :: j in a.identities && j.user == user && j != i
  {
    if IdentitiesOf(a, user) != {i} {
      assert i in IdentitiesOf(a, user);
      var j :| j in IdentitiesOf(a, user) && j != i;
    }
    if j :| j in a.identities && j.user == user && j != i {
      assert j in IdentitiesOf(a, user);
    }
  }
}
