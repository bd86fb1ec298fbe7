/** The interleavings leave nothing out: what a call does alone, it can do from any state of any interleaving. */
module SocialPlays {
  import opened Options
  import FreshNames
  import opened SocialModel
  import opened SocialRuns
  import opened SocialProtocol

  lemma TakeMove(env: Env, states: seq<Sys>, moves: seq<Move>, move: Move)
    returns (longer: seq<Sys>, more: seq<Move>)
    requires Interleaving(env, states, moves) && CanMove(states[|moves|], env, move)
    ensures Interleaving(env, longer, more) && more == moves + [move]
    ensures longer == states + [Moved(states[|moves|], env, move)]
  {
    longer, more := states + [Moved(states[|moves|], env, move)], moves + [move];
    forall k {:trigger more[k]} | 0 <= k < |more| ensures Brings(longer[k], env, more[k], longer[k + 1]) {
      if k < |moves| { assert Brings(states[k], env, moves[k], states[k + 1]); }
    }
  }

  /** The call stands at `proc`, having locked the user or nobody, and nothing else differs. */
  predicate Stands(s: Sys, s': Sys, tid: Tid, locked: Option<UserId>, proc: Proc) {
    && s'.accounts == s.accounts
    && s'.locks == (match locked case None => s.locks case Some(u) => s.locks[u := tid])
    && tid in s'.procs && s'.procs[tid] == proc && s'.procs - {tid} == s.procs
  }

  /** The call is over, and nothing is left of it but the accounts. */
  predicate Over(s: Sys, s': Sys, accounts: Accounts) {
    s'.accounts == accounts && s'.locks == s.locks && s'.procs == s.procs
  }

  /** Nobody uses the call's number. */
  predicate IsFree(s: Sys, tid: Tid) {
    tid !in s.procs && forall u :: u in s.locks ==> s.locks[u] != tid
  }

  /** What unlinks alone unlinks in an interleaving. */
  lemma EveryUnlinkCanRun(
    env: Env, states: seq<Sys>, moves: seq<Move>, tid: Tid, user: UserId, provider: Provider)
    returns (longer: seq<Sys>, more: seq<Move>)
    requires Interleaving(env, states, moves)
    requires var s := states[|moves|]; IsFree(s, tid) && user in s.accounts.users && user !in s.locks
    requires Unlink(states[|moves|].accounts, user, provider).1.Done?
    ensures Interleaving(env, longer, more) && moves <= more
    ensures Over(states[|moves|], longer[|more|], Unlink(states[|moves|].accounts, user, provider).0)
  {
    var s := states[|moves|];
    var had := s.accounts.users[user].hasPassword;
    InterleavingIsCoherent(env, states, moves, |moves|);
    var i := UnlinkMeans(s.accounts, env, user, provider);
    longer, more := TakeMove(env, states, moves, StartUnlink(tid, user, provider));
    assert Stands(s, longer[|more|], tid, None, UnlinkWaiting(user, provider));
    longer, more := TakeMove(env, longer, more, LockForUnlink(tid));
    assert Stands(s, longer[|more|], tid, Some(user), UnlinkLocked(user, provider, had));
    longer, more := TheRestOfUnlink(env, longer, more, s, tid, user, i, had);
  }

  lemma UnlinkMeans(a: Accounts, env: Env, user: UserId, provider: Provider) returns (i: Identity)
    requires Sound(a, env) && user in a.users && Unlink(a, user, provider).1.Done?
    ensures i in IdentitiesOf(a, user) && i.provider == provider
    ensures a.users[user].hasPassword || IdentitiesOf(a, user) - {i} != {}
    ensures Unlink(a, user, provider).0 == a.(identities := a.identities - {i})
  {
    OneIdentityPerProvider(a, user, provider);
    i :| i in IdentitiesOf(a, user) && i.provider == provider;
    assert (set x | x in IdentitiesOf(a, user) && x.provider == provider) == {i};
    OtherIdentities(a, user, i);
  }

  lemma TheRestOfUnlink(
    env: Env, states: seq<Sys>, moves: seq<Move>, s: Sys, tid: Tid, user: UserId, i: Identity, had: bool)
    returns (longer: seq<Sys>, more: seq<Move>)
    requires Interleaving(env, states, moves) && IsFree(s, tid) && user !in s.locks
    requires Stands(s, states[|moves|], tid, Some(user), UnlinkLocked(user, i.provider, had))
    requires i in IdentitiesOf(s.accounts, user) && (had || IdentitiesOf(s.accounts, user) - {i} != {})
    ensures Interleaving(env, longer, more) && moves <= more
    ensures Over(s, longer[|more|], s.accounts.(identities := s.accounts.identities - {i}))
  {
    longer, more := TakeMove(env, states, moves, FindIdentity(tid, i));
    assert Stands(s, longer[|more|], tid, Some(user), UnlinkFound(user, i, had));
    longer, more := TakeMove(env, longer, more, RuleOutLast(tid));
    assert Stands(s, longer[|more|], tid, Some(user), UnlinkReady(user, i));
    longer, more := TakeMove(env, longer, more, CommitUnlink(tid));
  }

  lemma OtherIdentities(a: Accounts, user: UserId, i: Identity)
    requires i in IdentitiesOf(a, user)
    ensures IdentitiesOf(a, user) - {i} != {} <==> IdentitiesOf(a, user) != {i}
  {
    if IdentitiesOf(a, user) - {i} == {} { assert IdentitiesOf(a, user) == {i}; }
  }

  /** What links alone links in an interleaving. */
  lemma EveryLinkCanRun(
    env: Env, states: seq<Sys>, moves: seq<Move>, tid: Tid, user: UserId, provider: Provider, subject: Subject)
    returns (longer: seq<Sys>, more: seq<Move>)
    requires Interleaving(env, states, moves)
    requires var s := states[|moves|]; IsFree(s, tid) && user in s.accounts.users && user !in s.locks
    requires ExplicitLink(states[|moves|].accounts, provider, subject, user).1 == Done(user, Linked)
    ensures Interleaving(env, longer, more) && moves <= more
    ensures Over(states[|moves|], longer[|more|],
                 ExplicitLink(states[|moves|].accounts, provider, subject, user).0)
  {
    var s := states[|moves|];
    LinkMeans(s.accounts, provider, subject, user);
    longer, more := TakeMove(env, states, moves, StartLink(tid, user, provider, subject));
    assert Stands(s, longer[|more|], tid, None, LinkWaiting(user, provider, subject));
    longer, more := TakeMove(env, longer, more, LockForLink(tid));
    assert Stands(s, longer[|more|], tid, Some(user), LinkLocked(user, provider, subject));
    longer, more := TakeMove(env, longer, more, CheckProvider(tid));
    assert Stands(s, longer[|more|], tid, Some(user), LinkReady(user, provider, subject));
    longer, more := TakeMove(env, longer, more, CommitLink(tid));
  }

  lemma LinkMeans(a: Accounts, provider: Provider, subject: Subject, user: UserId)
    requires ExplicitLink(a, provider, subject, user).1 == Done(user, Linked)
    ensures Unknown(a, provider, subject) && !Violates(a, Identity(user, provider, subject))
    ensures forall i :: i in IdentitiesOf(a, user) ==> i.provider != provider
    ensures var linked := a.identities + {Identity(user, provider, subject)};
      ExplicitLink(a, provider, subject, user).0 == a.(identities := linked)
  {
    forall i | i in a.identities ensures !Clash(i, Identity(user, provider, subject)) {
      assert !Matches(i, provider, subject);
    }
  }

  /** What links by email alone does so in an interleaving. */
  lemma EveryAutoLinkCanRun(
    env: Env, states: seq<Sys>, moves: seq<Move>, tid: Tid, user: UserId, provider: Provider, claims: Claims,
    surface: Surface, newId: UserId)
    returns (longer: seq<Sys>, more: seq<Move>)
    requires Interleaving(env, states, moves)
    requires var s := states[|moves|]; IsFree(s, tid) && user in s.accounts.users && user !in s.locks
    requires newId !in states[|moves|].accounts.users
    requires SignIn(states[|moves|].accounts, env, provider, claims, surface, None, newId).1 == Done(user, AutoLinked)
    ensures Interleaving(env, longer, more) && moves <= more
    ensures Over(states[|moves|], longer[|more|],
                 SignIn(states[|moves|].accounts, env, provider, claims, surface, None, newId).0)
  {
    var s := states[|moves|];
    AutoLinkMeans(s.accounts, env, provider, claims, surface, newId, user);
    longer, more := TakeMove(env, states, moves, StartSignIn(tid, provider, claims, surface));
    assert Stands(s, longer[|more|], tid, None, Searching(provider, claims, surface));
    longer, more := TakeMove(env, longer, more, MatchUser(tid, user));
    assert Stands(s, longer[|more|], tid, Some(user), AutoLinkReady(user, provider, claims));
    longer, more := TakeMove(env, longer, more, CommitAutoLink(tid));
  }

  lemma AutoLinkMeans(
    a: Accounts, env: Env, provider: Provider, claims: Claims, surface: Surface, newId: UserId, user: UserId)
    requires newId !in a.users && SignIn(a, env, provider, claims, surface, None, newId).1 == Done(user, AutoLinked)
    ensures Unknown(a, provider, claims.subject)
    ensures user in a.users && a.users[user].emailVerified && claims.emailVerified
    ensures claims.email != "" && SameEmail(env, a.users[user], claims.email)
    ensures var mine := Identity(user, provider, claims.subject);
      && !Violates(a, mine)
      && SignIn(a, env, provider, claims, surface, None, newId).0 == Accounts(a.users, a.identities + {mine})
  {
  }

  /** What creates an account alone does so in an interleaving. */
  lemma EveryCreationCanRun(
    env: Env, states: seq<Sys>, moves: seq<Move>, tid: Tid, provider: Provider, claims: Claims, surface: Surface,
    newId: UserId)
    returns (longer: seq<Sys>, more: seq<Move>)
    requires Interleaving(env, states, moves)
    requires var s := states[|moves|]; IsFree(s, tid) && newId !in s.accounts.users
    requires SignIn(states[|moves|].accounts, env, provider, claims, surface, None, newId).1 == Done(newId, Created)
    ensures Interleaving(env, longer, more) && moves <= more
    ensures Over(states[|moves|], longer[|more|],
                 SignIn(states[|moves|].accounts, env, provider, claims, surface, None, newId).0)
  {
    var s := states[|moves|];
    var account := NewAccount(s.accounts, env, provider, claims);
    CreationMeans(s.accounts, env, provider, claims, surface, newId);
    longer, more := TakeMove(env, states, moves, StartSignIn(tid, provider, claims, surface));
    assert Stands(s, longer[|more|], tid, None, Searching(provider, claims, surface));
    longer, more := TakeMove(env, longer, more, MatchNobody(tid));
    assert Stands(s, longer[|more|], tid, None, CreateReady(account, provider, claims));
    longer, more := TakeMove(env, longer, more, CommitCreate(tid, newId));
  }

  lemma CreationMeans(
    a: Accounts, env: Env, provider: Provider, claims: Claims, surface: Surface, newId: UserId)
    requires newId !in a.users && SignIn(a, env, provider, claims, surface, None, newId).1 == Done(newId, Created)
    ensures Unknown(a, provider, claims.subject) && surface == Member && UserByEmail(a, env, claims.email).None?
    ensures Admits(a, env, newId, NewAccount(a, env, provider, claims))
    ensures var mine := Identity(newId, provider, claims.subject);
      && !Violates(a, mine)
      && SignIn(a, env, provider, claims, surface, None, newId).0
           == Accounts(a.users[newId := NewAccount(a, env, provider, claims)], a.identities + {mine})
  {
    forall u | u in a.users ensures a.users[u].username in Usernames(a) {}
  }
  /** Other parts of the program may register users, and edit those whom nobody has locked. */
  lemma EveryEditCanRun(env: Env, states: seq<Sys>, moves: seq<Move>, user: UserId, details: User)
    returns (longer: seq<Sys>, more: seq<Move>)
    requires Interleaving(env, states, moves)
    requires var s := states[|moves|];
      && Admits(s.accounts, env, user, details)
      && (user in s.accounts.users ==>
            user !in s.locks && (s.accounts.users[user].hasPassword ==> details.hasPassword))
    ensures Interleaving(env, longer, more) && moves <= more
    ensures var a := states[|moves|].accounts;
      Over(states[|moves|], longer[|more|], Accounts(a.users[user := details], a.identities))
  {
    var move := if user in states[|moves|].accounts.users then EditUser(user, details) else AddUser(user, details);
    longer, more := TakeMove(env, states, moves, move);
  }
}
