/** Which outcome each social sign-in, link and unlink has, and what it writes, read off the rows. */
module SocialOutcomes {
  import opened Options
  import FreshNames
  import opened SocialModel

  /** Nobody is linked to the subject. */
  ghost predicate NobodyHas(a: Accounts, provider: Provider, subject: Subject) {
    forall i :: i in a.identities ==> i.provider != provider || i.subject != subject
  }

  /** The user is linked to the provider. */
  ghost predicate HasProvider(a: Accounts, user: UserId, provider: Provider) {
    exists i :: i in a.identities && i.user == user && i.provider == provider
  }

  /** The user has this email, ignoring case, and it is not blank. */
  predicate HasEmail(a: Accounts, env: Env, user: UserId, email: string) {
    && user in a.users && email != "" && a.users[user].email != ""
    && env.fold(a.users[user].email) == env.fold(email)
  }

  lemma SubjectIsFound(a: Accounts, provider: Provider, subject: Subject, i: Identity)
    requires OneToOne(a) && i in a.identities && i.provider == provider && i.subject == subject
    ensures IdentityFor(a, provider, subject) == Some(i)
  {
    var found := IdentityFor(a, provider, subject);
    assert Matches(i, provider, subject);
    assert Clash(found.value, i);
  }

  /** A linked subject signs in to its user unless the staff check rejects it, and nothing is written. */
  lemma KnownSubjectSignsIn(
    a: Accounts, env: Env, provider: Provider, claims: Claims, surface: Surface, staff: Option<bool>, newId: UserId,
    i: Identity)
    requires Sound(a, env) && i in a.identities && i.provider == provider && i.subject == claims.subject
    ensures SignIn(a, env, provider, claims, surface, staff, newId)
      == (a, if staff == Some(false) then Refused(RejectedByStaffCheck) else Done(i.user, Existing))
  {
    SubjectIsFound(a, provider, claims.subject, i);
  }

  lemma EmailIsFound(a: Accounts, env: Env, email: string, user: UserId)
    requires EmailsUnique(a, env) && HasEmail(a, env, user, email)
    ensures UserByEmail(a, env, email) == Some(user)
  {
    assert SameEmail(env, a.users[user], email);
    var found := UserByEmail(a, env, email).value;
    assert SameEmail(env, a.users[found], email);
  }

  /**
   An unlinked subject whose email belongs to a user is linked to that user if both sides have verified it, the
   staff check does not object and the user has no other identity of the provider.
   */
  lemma KnownEmailSignsIn(
    a: Accounts, env: Env, provider: Provider, claims: Claims, surface: Surface, staff: Option<bool>, newId: UserId,
    user: UserId)
    requires Sound(a, env) && NobodyHas(a, provider, claims.subject) && HasEmail(a, env, user, claims.email)
    ensures var linked := a.(identities := a.identities + {Identity(user, provider, claims.subject)});
      SignIn(a, env, provider, claims, surface, staff, newId) ==
        if !claims.emailVerified || !a.users[user].emailVerified then (a, Refused(AccountLinkRequired))
        else if staff == Some(false) then (a, Refused(RejectedByStaffCheck))
        else if HasProvider(a, user, provider) then (a, Refused(IdentityConflict))
        else (linked, Done(user, AutoLinked))
  {
    EmailIsFound(a, env, claims.email, user);
    assert IdentityFor(a, provider, claims.subject).None?;
    var mine := Identity(user, provider, claims.subject);
    if HasProvider(a, user, provider) {
      var i :| i in a.identities && i.user == user && i.provider == provider;
      assert Clash(i, mine);
    }
  }

  /**
   An unlinked subject whose email nobody has gets an account of its own on the member surface, named after the
   provider and the digest of the subject, unless the staff check objects.
   */
  lemma StrangerSignsIn(
    a: Accounts, env: Env, provider: Provider, claims: Claims, surface: Surface, staff: Option<bool>, newId: UserId)
    returns (suffix: nat)
    requires Sound(a, env) && newId !in a.users && NobodyHas(a, provider, claims.subject)
    requires forall u :: !HasEmail(a, env, u, claims.email)
    ensures var base := provider + "_" + env.digest(provider, claims.subject);
      var unused := forall u :: u in a.users ==> a.users[u].username != base;
      var name := if unused then base else base + "_" + FreshNames.Decimal(suffix);
      var verified := claims.email != "" && claims.emailVerified;
      var user := User(name, if verified then claims.email else "", verified, false);
      SignIn(a, env, provider, claims, surface, staff, newId) ==
        if surface == Staff then (a, Refused(StaffAccessRequired))
        else if staff == Some(false) then (a, Refused(RejectedByStaffCheck))
        else (Accounts(a.users[newId := user], a.identities + {Identity(newId, provider, claims.subject)}),
              Done(newId, Created))
  {
    var base := provider + "_" + env.digest(provider, claims.subject);
    suffix := FreshNames.FirstFreeIs(base, "_", Usernames(a));
    assert IdentityFor(a, provider, claims.subject).None?;
    assert UserByEmail(a, env, claims.email).None? by {
      if UserByEmail(a, env, claims.email).Some? {
        assert HasEmail(a, env, UserByEmail(a, env, claims.email).value, claims.email);
      }
    }
    assert base in Usernames(a) <==> exists u :: u in a.users && a.users[u].username == base;
    assert !Violates(a, Identity(newId, provider, claims.subject));
  }

  /** Explicit linking: refused for a subject of somebody else, and for a second identity of the provider. */
  lemma LinkIs(a: Accounts, env: Env, provider: Provider, subject: Subject, user: UserId)
    requires Sound(a, env) && user in a.users
    ensures var mine := Identity(user, provider, subject);
      var r := ExplicitLink(a, provider, subject, user);
      if mine in a.identities then r == (a, Done(user, Existing))
      else if !NobodyHas(a, provider, subject) then r == (a, Refused(IdentityConflict))
      else if HasProvider(a, user, provider) then r == (a, Refused(ProviderAlreadyLinked))
      else r == (a.(identities := a.identities + {mine}), Done(user, Linked))
  {
    if i :| i in a.identities && i.provider == provider && i.subject == subject {
      SubjectIsFound(a, provider, subject, i);
    }
  }

  /** Unlinking: refused without an identity of the provider, and if it is all that the user can sign in with. */
  lemma UnlinkIs(a: Accounts, env: Env, user: UserId, provider: Provider)
    requires Sound(a, env) && user in a.users
    ensures var r := Unlink(a, user, provider);
      var others := exists i :: i in a.identities && i.user == user && i.provider != provider;
      if !HasProvider(a, user, provider) then r == (a, Refused(IdentityNotFound))
      else if !a.users[user].hasPassword && !others then r == (a, Refused(LastCredential))
      else
        && r.1 == Done(user, Unlinked) && r.0.users == a.users
        && forall i :: i in r.0.identities <==> i in a.identities && !(i.user == user && i.provider == provider)
  {
    OneIdentityPerProvider(a, user, provider);
    if i :| i in a.identities && i.user == user && i.provider == provider {
      assert (set j | j in IdentitiesOf(a, user) && j.provider == provider) == {i};
      if j :| j in a.identities && j.user == user && j.provider != provider { assert j in IdentitiesOf(a, user); }
    }
  }
}
