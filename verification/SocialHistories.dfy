/** What interleaved sign-ins, links and unlinks write at their commits, told from what was asked when they began. */
module SocialHistories {
  import opened Options
  import opened SocialModel
  import opened SocialProtocol

  datatype Request =
    | ToUnlink(user: UserId, provider: Provider)
    | ToLink(user: UserId, provider: Provider, subject: Subject)
    | ToSignIn(provider: Provider, claims: Claims)

  function RequestOf(proc: Proc): Request {
    match proc
    case UnlinkWaiting(user, provider) => ToUnlink(user, provider)
    case UnlinkLocked(user, provider, _) => ToUnlink(user, provider)
    case UnlinkFound(user, identity, _) => ToUnlink(user, identity.provider)
    case UnlinkReady(user, identity) => ToUnlink(user, identity.provider)
    case LinkWaiting(user, provider, subject) => ToLink(user, provider, subject)
    case LinkLocked(user, provider, subject) => ToLink(user, provider, subject)
    case LinkReady(user, provider, subject) => ToLink(user, provider, subject)
    case Searching(provider, claims, _) => ToSignIn(provider, claims)
    case AutoLinkReady(_, provider, claims) => ToSignIn(provider, claims)
    case CreateReady(_, provider, claims) => ToSignIn(provider, claims)
  }

  lemma MoveKeepsRequest(s: Sys, env: Env, move: Move, tid: Tid)
    requires CanMove(s, env, move) && tid in s.procs && tid in Moved(s, env, move).procs
    ensures var proc, proc' := s.procs[tid], Moved(s, env, move).procs[tid];
      && RequestOf(proc') == RequestOf(proc)
      && (proc'.Searching? || proc.CreateReady? ==> proc' == proc)
      && (proc'.CreateReady? && !proc.CreateReady? ==> move == MatchNobody(tid))
  {
  }

  /** The call is running in all states after i up to k. */
  ghost predicate Lives(states: seq<Sys>, i: nat, k: nat, tid: Tid)
    requires k < |states|
  {
    forall n :: i < n <= k ==> tid in states[n].procs
  }

  lemma {:induction false} RequestIsKept(env: Env, states: seq<Sys>, moves: seq<Move>, i: nat, k: nat, tid: Tid)
    requires Interleaving(env, states, moves) && i < k < |states| && Lives(states, i, k, tid)
    ensures RequestOf(states[k].procs[tid]) == RequestOf(states[i + 1].procs[tid])
    ensures states[k].procs[tid].Searching? ==> states[k].procs[tid] == states[i + 1].procs[tid]
    decreases k
  {
    if i + 1 < k {
      RequestIsKept(env, states, moves, i, k - 1, tid);
      assert Brings(states[k - 1], env, moves[k - 1], states[k]);
      MoveKeepsRequest(states[k - 1], env, moves[k - 1], tid);
    }
  }

  // ---------------------------------------------------------------- unlinking and linking

  /** An unlinking that commits removes the identity of the user and provider it was asked for, and no other. */
  lemma UnlinkRemovesWhatWasAsked(
    env: Env, states: seq<Sys>, moves: seq<Move>, i: nat, k: nat, tid: Tid, user: UserId, provider: Provider)
    requires Interleaving(env, states, moves) && i < k < |moves| && Lives(states, i, k, tid)
    requires moves[i] == StartUnlink(tid, user, provider) && moves[k] == CommitUnlink(tid)
    ensures var a, b := states[k].accounts, states[k + 1].accounts;
      && b.users == a.users && b.identities < a.identities
      && b.identities == set x | x in a.identities && !(x.user == user && x.provider == provider)
  {
    assert Brings(states[i], env, moves[i], states[i + 1]) && Brings(states[k], env, moves[k], states[k + 1]);
    RequestIsKept(env, states, moves, i, k, tid);
    InterleavingIsCoherent(env, states, moves, k);
    UnlinkIsAtomic(states[k], env, tid);
    UnlinkKeepsSound(states[k].accounts, env, user, provider);
    CommitRemovesOne(states[k], env, tid);
  }

  lemma CommitRemovesOne(s: Sys, env: Env, tid: Tid)
    requires Coherent(s, env) && CanMove(s, env, CommitUnlink(tid))
    ensures var a, b := s.accounts, Moved(s, env, CommitUnlink(tid)).accounts;
      b.users == a.users && b.identities < a.identities
  {
    assert Knows(s, env, tid);
    assert s.procs[tid].identity in s.accounts.identities;
  }

  /** An explicit link that commits adds the identity it was asked for, and nothing else. */
  lemma LinkAddsWhatWasAsked(
    env: Env, states: seq<Sys>, moves: seq<Move>, i: nat, k: nat, tid: Tid, user: UserId, provider: Provider,
    subject: Subject)
    requires Interleaving(env, states, moves) && i < k < |moves| && Lives(states, i, k, tid)
    requires moves[i] == StartLink(tid, user, provider, subject) && moves[k] == CommitLink(tid)
    ensures var a, b := states[k].accounts, states[k + 1].accounts; var mine := Identity(user, provider, subject);
      mine !in a.identities && b == Accounts(a.users, a.identities + {mine})
  {
    assert Brings(states[i], env, moves[i], states[i + 1]) && Brings(states[k], env, moves[k], states[k + 1]);
    RequestIsKept(env, states, moves, i, k, tid);
    assert Clash(Identity(user, provider, subject), Identity(user, provider, subject));
  }

  // ---------------------------------------------------------------- signing in

  /** The user has this email, ignoring case, and it is not blank. */
  predicate HasEmail(a: Accounts, env: Env, user: UserId, email: string) {
    && user in a.users && email != "" && a.users[user].email != ""
    && env.fold(a.users[user].email) == env.fold(email)
  }

  /** A link by email that commits adds an identity for a user who then has that email, verified on both sides. */
  lemma AutoLinkAddsWhatWasAsked(
    env: Env, states: seq<Sys>, moves: seq<Move>, i: nat, k: nat, tid: Tid, provider: Provider, claims: Claims,
    surface: Surface) returns (user: UserId)
    requires Interleaving(env, states, moves) && i < k < |moves| && Lives(states, i, k, tid)
    requires moves[i] == StartSignIn(tid, provider, claims, surface) && moves[k] == CommitAutoLink(tid)
    ensures var a, b := states[k].accounts, states[k + 1].accounts;
      && HasEmail(a, env, user, claims.email) && a.users[user].emailVerified && claims.emailVerified
      && b == Accounts(a.users, a.identities + {Identity(user, provider, claims.subject)})
  {
    assert Brings(states[i], env, moves[i], states[i + 1]) && Brings(states[k], env, moves[k], states[k + 1]);
    RequestIsKept(env, states, moves, i, k, tid);
    InterleavingIsCoherent(env, states, moves, k);
    assert Knows(states[k], env, tid);
    user := states[k].procs[tid].user;
  }

  /** The account was composed at some moment since the start, when nobody had the email. */
  lemma {:induction false} AccountWasComposed(
    env: Env, states: seq<Sys>, moves: seq<Move>, i: nat, k: nat, tid: Tid) returns (j: nat)
    requires Interleaving(env, states, moves) && i < k < |states| && Lives(states, i, k, tid)
    requires !states[i + 1].procs[tid].CreateReady? && states[k].procs[tid].CreateReady?
    ensures i < j < k && moves[j] == MatchNobody(tid) && states[k].procs[tid] == states[j + 1].procs[tid]
    decreases k
  {
    assert Brings(states[k - 1], env, moves[k - 1], states[k]);
    assert k > i + 1;
    MoveKeepsRequest(states[k - 1], env, moves[k - 1], tid);
    if states[k - 1].procs[tid].CreateReady? {
      j := AccountWasComposed(env, states, moves, i, k - 1, tid);
    } else {
      j := k - 1;
    }
  }

  /**
   A new account is committed only on the member surface, for a subject that was linked to nobody when the call
   began and an email that nobody had at some moment j since; it has that email if the provider verified it, no
   password, a username unused at j and at the commit, and the identity that was asked for.
   */
  lemma CreationAddsWhatWasAsked(
    env: Env, states: seq<Sys>, moves: seq<Move>, i: nat, k: nat, tid: Tid, provider: Provider, claims: Claims,
    surface: Surface, newId: UserId) returns (j: nat)
    requires Interleaving(env, states, moves) && i < k < |moves| && Lives(states, i, k, tid)
    requires moves[i] == StartSignIn(tid, provider, claims, surface) && moves[k] == CommitCreate(tid, newId)
    ensures surface == Member && i < j < k
    ensures forall x :: x in states[i].accounts.identities ==> x.provider != provider || x.subject != claims.subject
    ensures forall u :: !HasEmail(states[j].accounts, env, u, claims.email)
    ensures var a, b := states[k].accounts, states[k + 1].accounts;
      && newId !in a.users && newId in b.users
      && var user := b.users[newId]; var verified := claims.email != "" && claims.emailVerified;
      && user == User(user.username, if verified then claims.email else "", verified, false)
      && user.username !in Usernames(a) && user.username !in Usernames(states[j].accounts)
      && b == Accounts(a.users[newId := user], a.identities + {Identity(newId, provider, claims.subject)})
  {
    assert Brings(states[i], env, moves[i], states[i + 1]) && Brings(states[k], env, moves[k], states[k + 1]);
    RequestIsKept(env, states, moves, i, k, tid);
    j := AccountWasComposed(env, states, moves, i, k, tid);
    assert Brings(states[j], env, moves[j], states[j + 1]);
    RequestIsKept(env, states, moves, i, j, tid);
    NobodyMatches(states[i].accounts, provider, claims.subject);
    NobodyHasEmail(states[j].accounts, env, claims.email);
  }

  lemma NobodyMatches(a: Accounts, provider: Provider, subject: Subject)
    requires Unknown(a, provider, subject)
    ensures forall x :: x in a.identities ==> x.provider != provider || x.subject != subject
  {
    forall x | x in a.identities ensures x.provider != provider || x.subject != subject {
      assert !Matches(x, provider, subject);
    }
  }

  lemma NobodyHasEmail(a: Accounts, env: Env, email: string)
    requires UserByEmail(a, env, email).None?
    ensures forall u :: !HasEmail(a, env, u, email)
  {
    forall u | HasEmail(a, env, u, email) ensures false {
      assert SameEmail(env, a.users[u], email);
    }
  }
  // ---------------------------------------------------------------- locks

  /** Every lock on a user is held by a call that is running. */
  predicate LocksHaveOwners(s: Sys) {
    forall u :: u in s.locks ==> s.locks[u] in s.procs
  }

  lemma MoveKeepsOwners(s: Sys, env: Env, move: Move)
    requires LocksHaveOwners(s) && CanMove(s, env, move)
    ensures LocksHaveOwners(Moved(s, env, move))
  {
  }

  /** No lock outlives its call. */
  lemma {:induction false} NoLockIsLeft(env: Env, states: seq<Sys>, moves: seq<Move>, k: nat)
    requires Interleaving(env, states, moves) && k < |states|
    ensures LocksHaveOwners(states[k])
  {
    if k > 0 {
      NoLockIsLeft(env, states, moves, k - 1);
      assert Brings(states[k - 1], env, moves[k - 1], states[k]);
      MoveKeepsOwners(states[k - 1], env, moves[k - 1]);
    }
  }
}
