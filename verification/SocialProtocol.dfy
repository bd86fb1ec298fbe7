/**
 Sign-ins, links and unlinks running at the same time, one statement at a time. Linking, unlinking and linking
 by email lock the row of their user; other edits of a user wait for that lock. What a transaction has read is
 not read again when it writes, but the constraints are checked then.
 */
module SocialProtocol {
  import opened Options
  import opened SocialModel
  import opened SocialRuns

  type Tid = nat

  /** Where a transaction stands; one that only reads, or is refused, just quits. */
  datatype Proc =
    | UnlinkWaiting(user: UserId, provider: Provider)
    | UnlinkLocked(user: UserId, provider: Provider, hadPassword: bool)
    | UnlinkFound(user: UserId, identity: Identity, hadPassword: bool)
    | UnlinkReady(user: UserId, identity: Identity)
    | LinkWaiting(user: UserId, provider: Provider, subject: Subject)
    | LinkLocked(user: UserId, provider: Provider, subject: Subject)
    | LinkReady(user: UserId, provider: Provider, subject: Subject)
    | Searching(provider: Provider, claims: Claims, surface: Surface)
    | AutoLinkReady(user: UserId, provider: Provider, claims: Claims)
    | CreateReady(account: User, provider: Provider, claims: Claims)

  datatype Sys = Sys(accounts: Accounts, locks: map<UserId, Tid>, procs: map<Tid, Proc>)

  datatype Move =
    | StartUnlink(tid: Tid, user: UserId, provider: Provider)
    | LockForUnlink(tid: Tid)
    | FindIdentity(tid: Tid, identity: Identity)
    | RuleOutLast(tid: Tid)
    | CommitUnlink(tid: Tid)
    | StartLink(tid: Tid, user: UserId, provider: Provider, subject: Subject)
    | LockForLink(tid: Tid)
    | CheckProvider(tid: Tid)
    | CommitLink(tid: Tid)
    | StartSignIn(tid: Tid, provider: Provider, claims: Claims, surface: Surface)
    | MatchUser(tid: Tid, user: UserId)
    | CommitAutoLink(tid: Tid)
    | MatchNobody(tid: Tid)
    | CommitCreate(tid: Tid, newId: UserId)
    | Quit(tid: Tid)
    | EditUser(user: UserId, details: User)
    | AddUser(newId: UserId, details: User)

  ghost predicate Unknown(a: Accounts, provider: Provider, subject: Subject) {
    forall i :: i in a.identities ==> !Matches(i, provider, subject)
  }

  /** The identity that a transaction is about to insert. */
  function NewIdentity(proc: Proc): Identity
    requires proc.LinkReady? || proc.AutoLinkReady?
  {
    Identity(proc.user, proc.provider, if proc.LinkReady? then proc.subject else proc.claims.subject)
  }

  ghost predicate CanMove(s: Sys, env: Env, move: Move) {
    var a := s.accounts;
    match move
    case StartUnlink(tid, user, _) => tid !in s.procs && user in a.users
    case LockForUnlink(tid) => tid in s.procs && s.procs[tid].UnlinkWaiting? && s.procs[tid].user !in s.locks
    case FindIdentity(tid, i) =>
      && tid in s.procs && s.procs[tid].UnlinkLocked?
      && i in IdentitiesOf(a, s.procs[tid].user) && i.provider == s.procs[tid].provider
    case RuleOutLast(tid) =>
      && tid in s.procs && s.procs[tid].UnlinkFound?
      && (s.procs[tid].hadPassword || IdentitiesOf(a, s.procs[tid].user) - {s.procs[tid].identity} != {})
    case CommitUnlink(tid) => tid in s.procs && s.procs[tid].UnlinkReady?
    case StartLink(tid, user, provider, subject) =>
      tid !in s.procs && user in a.users && Unknown(a, provider, subject)
    case LockForLink(tid) => tid in s.procs && s.procs[tid].LinkWaiting? && s.procs[tid].user !in s.locks
    case CheckProvider(tid) =>
      && tid in s.procs && s.procs[tid].LinkLocked?
      && forall i :: i in IdentitiesOf(a, s.procs[tid].user) ==> i.provider != s.procs[tid].provider
    case CommitLink(tid) =>
      tid in s.procs && s.procs[tid].LinkReady? && !Violates(a, NewIdentity(s.procs[tid]))
    case StartSignIn(tid, provider, claims, _) => tid !in s.procs && Unknown(a, provider, claims.subject)
    case MatchUser(tid, user) =>
      && tid in s.procs && s.procs[tid].Searching? && user in a.users && user !in s.locks
      && var claims := s.procs[tid].claims;
      && claims.email != "" && SameEmail(env, a.users[user], claims.email)
      && claims.emailVerified && a.users[user].emailVerified
    case CommitAutoLink(tid) =>
      tid in s.procs && s.procs[tid].AutoLinkReady? && !Violates(a, NewIdentity(s.procs[tid]))
    case MatchNobody(tid) =>
      && tid in s.procs && s.procs[tid].Searching? && s.procs[tid].surface == Member
      && UserByEmail(a, env, s.procs[tid].claims.email).None?
    case CommitCreate(tid, newId) =>
      && tid in s.procs && s.procs[tid].CreateReady? && newId !in a.users
      && Admits(a, env, newId, s.procs[tid].account)
      && !Violates(a, Identity(newId, s.procs[tid].provider, s.procs[tid].claims.subject))
    case Quit(tid) => tid in s.procs
    case EditUser(user, details) =>
      && user in a.users && user !in s.locks && Admits(a, env, user, details)
      && (a.users[user].hasPassword ==> details.hasPassword)
    case AddUser(newId, details) => newId !in a.users && Admits(a, env, newId, details)
  }

  function To(s: Sys, tid: Tid, proc: Proc): Sys {
    s.(procs := s.procs[tid := proc])
  }

  function Locked(s: Sys, tid: Tid, user: UserId): Sys {
    s.(locks := s.locks[user := tid])
  }

  /** The transaction is over and its lock is gone. */
  function End(s: Sys, tid: Tid): Sys {
    s.(locks := map u | u in s.locks && s.locks[u] != tid :: s.locks[u], procs := s.procs - {tid})
  }

  ghost function Moved(s: Sys, env: Env, move: Move): Sys
    requires CanMove(s, env, move)
  {
    var a := s.accounts;
    match move
    case StartUnlink(tid, user, provider) => To(s, tid, UnlinkWaiting(user, provider))
    case LockForUnlink(tid) =>
      var p := s.procs[tid];
      if p.user !in a.users then End(s, tid)
      else To(Locked(s, tid, p.user), tid, UnlinkLocked(p.user, p.provider, a.users[p.user].hasPassword))
    case FindIdentity(tid, i) => To(s, tid, UnlinkFound(s.procs[tid].user, i, s.procs[tid].hadPassword))
    case RuleOutLast(tid) => To(s, tid, UnlinkReady(s.procs[tid].user, s.procs[tid].identity))
    case CommitUnlink(tid) =>
      End(s.(accounts := a.(identities := a.identities - {s.procs[tid].identity})), tid)
    case StartLink(tid, user, provider, subject) => To(s, tid, LinkWaiting(user, provider, subject))
    case LockForLink(tid) =>
      var p := s.procs[tid];
      if p.user !in a.users then End(s, tid)
      else To(Locked(s, tid, p.user), tid, LinkLocked(p.user, p.provider, p.subject))
    case CheckProvider(tid) =>
      var p := s.procs[tid];
      To(s, tid, LinkReady(p.user, p.provider, p.subject))
    case CommitLink(tid) =>
      End(s.(accounts := a.(identities := a.identities + {NewIdentity(s.procs[tid])})), tid)
    case StartSignIn(tid, provider, claims, surface) => To(s, tid, Searching(provider, claims, surface))
    case MatchUser(tid, user) =>
      To(Locked(s, tid, user), tid, AutoLinkReady(user, s.procs[tid].provider, s.procs[tid].claims))
    case CommitAutoLink(tid) =>
      End(s.(accounts := a.(identities := a.identities + {NewIdentity(s.procs[tid])})), tid)
    case MatchNobody(tid) =>
      var p := s.procs[tid];
      To(s, tid, CreateReady(NewAccount(a, env, p.provider, p.claims), p.provider, p.claims))
    case CommitCreate(tid, newId) =>
      var p := s.procs[tid];
      var i := Identity(newId, p.provider, p.claims.subject);
      End(s.(accounts := Accounts(a.users[newId := p.account], a.identities + {i})), tid)
    case Quit(tid) => End(s, tid)
    case EditUser(user, details) => s.(accounts := a.(users := a.users[user := details]))
    case AddUser(newId, details) => s.(accounts := a.(users := a.users[newId := details]))
  }

  const START: Sys := Sys(Accounts(map[], {}), map[], map[])

  /** The move is possible in `s` and ends in `s'`. */
  ghost predicate Brings(s: Sys, env: Env, move: Move, s': Sys) {
    CanMove(s, env, move) && s' == Moved(s, env, move)
  }

  ghost predicate Interleaving(env: Env, states: seq<Sys>, moves: seq<Move>) {
    && |states| == |moves| + 1
    && states[0] == START
    && forall k {:trigger moves[k]} :: 0 <= k < |moves| ==> Brings(states[k], env, moves[k], states[k + 1])
  }

  // ---------------------------------------------------------------- what a transaction past its lock knows

  predicate PastLock(proc: Proc) {
    proc.UnlinkLocked? || proc.UnlinkFound? || proc.UnlinkReady? || proc.LinkLocked? || proc.LinkReady?
    || proc.AutoLinkReady?
  }

  /** The user's row and identities are still as the transaction has read them. */
  predicate StillTrue(a: Accounts, env: Env, proc: Proc)
    requires PastLock(proc)
  {
    && proc.user in a.users
    && var user := a.users[proc.user]; var mine := IdentitiesOf(a, proc.user);
    && (proc.UnlinkLocked? || proc.UnlinkFound? ==> (proc.hadPassword ==> user.hasPassword))
    && (proc.UnlinkFound? || proc.UnlinkReady? ==> proc.identity in mine)
    && (proc.UnlinkReady? ==> user.hasPassword || mine - {proc.identity} != {})
    && (proc.AutoLinkReady? ==>
          proc.claims.emailVerified && user.emailVerified && proc.claims.email != ""
          && SameEmail(env, user, proc.claims.email))
  }

  predicate Holds(s: Sys, tid: Tid, user: UserId) {
    user in s.locks && s.locks[user] == tid
  }

  predicate Knows(s: Sys, env: Env, tid: Tid)
    requires tid in s.procs
  {
    var proc := s.procs[tid];
    PastLock(proc) ==> Holds(s, tid, proc.user) && StillTrue(s.accounts, env, proc)
  }

  ghost predicate Coherent(s: Sys, env: Env) {
    Sound(s.accounts, env) && forall tid :: tid in s.procs ==> Knows(s, env, tid)
  }

  // ---------------------------------------------------------------- the tables

  /** A commit that only inserts the identity of an existing user. */
  lemma InsertKeepsSound(a: Accounts, env: Env, i: Identity)
    requires Sound(a, env) && i.user in a.users && !Violates(a, i)
    ensures Sound(a.(identities := a.identities + {i}), env)
  {
    AttachKeepsSound(a, env, a.users, i, Linked);
    assert a.(users := a.users) == a;
  }

  lemma CreateKeepsSound(a: Accounts, env: Env, newId: UserId, account: User, i: Identity)
    requires Sound(a, env) && newId !in a.users && Admits(a, env, newId, account) && i.user == newId && !Violates(a, i)
    ensures Sound(Accounts(a.users[newId := account], a.identities + {i}), env)
  {
    PutUserKeepsSound(a, env, newId, account);
    AttachKeepsSound(a, env, a.users[newId := account], i, Created);
  }

  predicate Writes(move: Move) {
    move.CommitUnlink? || move.CommitLink? || move.CommitAutoLink? || move.CommitCreate? || move.EditUser?
    || move.AddUser?
  }

  lemma OthersWriteNothing(s: Sys, env: Env, move: Move)
    requires CanMove(s, env, move) && !Writes(move)
    ensures Moved(s, env, move).accounts == s.accounts
  {
  }

  lemma MoveKeepsSound(s: Sys, env: Env, move: Move)
    requires Coherent(s, env) && CanMove(s, env, move)
    ensures Sound(Moved(s, env, move).accounts, env)
  {
    var a := s.accounts;
    if move.CommitLink? || move.CommitAutoLink? {
      assert Knows(s, env, move.tid);
      InsertKeepsSound(a, env, NewIdentity(s.procs[move.tid]));
    } else if move.CommitCreate? {
      var p := s.procs[move.tid];
      CreateKeepsSound(a, env, move.newId, p.account, Identity(move.newId, p.provider, p.claims.subject));
    } else if move.EditUser? {
      PutUserKeepsSound(a, env, move.user, move.details);
    } else if move.AddUser? {
      PutUserKeepsSound(a, env, move.newId, move.details);
    } else if !move.CommitUnlink? {
      OthersWriteNothing(s, env, move);
    }
  }

  // ---------------------------------------------------------------- the user behind a lock

  /** The two accounts show the same row and identities of the user. */
  predicate SameUser(a: Accounts, b: Accounts, user: UserId) {
    && user in a.users && user in b.users
    && a.users[user] == b.users[user] && IdentitiesOf(a, user) == IdentitiesOf(b, user)
  }

  lemma SameUserStaysTrue(a: Accounts, b: Accounts, env: Env, proc: Proc)
    requires PastLock(proc) && StillTrue(a, env, proc) && SameUser(a, b, proc.user)
    ensures StillTrue(b, env, proc)
  {
  }

  predicate ByTid(move: Move, tid: Tid) {
    !move.EditUser? && !move.AddUser? && move.tid == tid
  }

  lemma ChangedIdentities(a: Accounts, b: Accounts, i: Identity, user: UserId)
    requires b.identities == a.identities + {i} || b.identities == a.identities - {i}
    requires i.user != user && user in a.users && user in b.users && a.users[user] == b.users[user]
    ensures SameUser(a, b, user)
  {
    forall j ensures j in IdentitiesOf(a, user) <==> j in IdentitiesOf(b, user) {}
  }

  /** Nobody but the holder of the lock changes what the tables say of a user. */
  lemma LockedUserStays(s: Sys, env: Env, move: Move, tid: Tid, user: UserId)
    requires Coherent(s, env) && CanMove(s, env, move) && !ByTid(move, tid)
    requires Holds(s, tid, user) && user in s.accounts.users
    ensures SameUser(s.accounts, Moved(s, env, move).accounts, user)
  {
    var a, b := s.accounts, Moved(s, env, move).accounts;
    if move.CommitUnlink? {
      assert Knows(s, env, move.tid);
      ChangedIdentities(a, b, s.procs[move.tid].identity, user);
    } else if move.CommitLink? || move.CommitAutoLink? {
      assert Knows(s, env, move.tid);
      ChangedIdentities(a, b, NewIdentity(s.procs[move.tid]), user);
    } else if move.CommitCreate? {
      ChangedIdentities(a, b, Identity(move.newId, s.procs[move.tid].provider, s.procs[move.tid].claims.subject), user);
    } else if !move.EditUser? && !move.AddUser? {
      OthersWriteNothing(s, env, move);
    }
  }

  lemma OthersLeaveProc(s: Sys, env: Env, move: Move, tid: Tid)
    requires CanMove(s, env, move) && tid in s.procs && !ByTid(move, tid)
    ensures var s' := Moved(s, env, move);
      && tid in s'.procs && s'.procs[tid] == s.procs[tid]
      && forall u :: Holds(s, tid, u) ==> Holds(s', tid, u)
  {
  }

  lemma OthersKeepKnowledge(s: Sys, env: Env, move: Move, tid: Tid)
    requires Coherent(s, env) && CanMove(s, env, move) && tid in s.procs && !ByTid(move, tid)
    requires tid in Moved(s, env, move).procs
    ensures Knows(Moved(s, env, move), env, tid)
  {
    assert Knows(s, env, tid);
    OthersLeaveProc(s, env, move, tid);
    var proc := s.procs[tid];
    if PastLock(proc) {
      LockedUserStays(s, env, move, tid, proc.user);
      SameUserStaysTrue(s.accounts, Moved(s, env, move).accounts, env, proc);
    }
  }

  /** A transaction's own move leaves it with what it has just read. */
  lemma OwnMoveKnows(s: Sys, env: Env, move: Move, tid: Tid)
    requires Coherent(s, env) && CanMove(s, env, move) && ByTid(move, tid) && tid in Moved(s, env, move).procs
    ensures Knows(Moved(s, env, move), env, tid)
  {
    if tid in s.procs { assert Knows(s, env, tid); }
    if !Writes(move) { OthersWriteNothing(s, env, move); }
  }

  lemma NewProcsAreOwn(s: Sys, env: Env, move: Move, tid: Tid)
    requires CanMove(s, env, move) && tid in Moved(s, env, move).procs
    ensures tid in s.procs || ByTid(move, tid)
  {
  }

  lemma MoveKeepsCoherent(s: Sys, env: Env, move: Move)
    requires Coherent(s, env) && CanMove(s, env, move)
    ensures Coherent(Moved(s, env, move), env)
  {
    var s' := Moved(s, env, move);
    MoveKeepsSound(s, env, move);
    forall tid | tid in s'.procs ensures Knows(s', env, tid) {
      NewProcsAreOwn(s, env, move, tid);
      if ByTid(move, tid) { OwnMoveKnows(s, env, move, tid); } else { OthersKeepKnowledge(s, env, move, tid); }
    }
  }

  lemma {:induction false} InterleavingIsCoherent(env: Env, states: seq<Sys>, moves: seq<Move>, k: nat)
    requires Interleaving(env, states, moves) && k < |states|
    ensures Coherent(states[k], env)
  {
    if k > 0 {
      InterleavingIsCoherent(env, states, moves, k - 1);
      MoveKeepsCoherent(states[k - 1], env, moves[k - 1]);
    }
  }

  // ---------------------------------------------------------------- credentials

  lemma MoreKeepsCredential(a: Accounts, b: Accounts, who: UserId)
    requires HasCredential(a, who) && who in b.users && IdentitiesOf(a, who) <= IdentitiesOf(b, who)
    requires a.users[who].hasPassword ==> b.users[who].hasPassword
    ensures HasCredential(b, who)
  {
  }

  lemma UnlinkLeavesCredential(s: Sys, env: Env, tid: Tid, who: UserId)
    requires Coherent(s, env) && CanMove(s, env, CommitUnlink(tid)) && HasCredential(s.accounts, who)
    ensures HasCredential(Moved(s, env, CommitUnlink(tid)).accounts, who)
  {
    var a, b := s.accounts, Moved(s, env, CommitUnlink(tid)).accounts;
    var p := s.procs[tid];
    assert Knows(s, env, tid);
    if who == p.user {
      assert IdentitiesOf(b, who) == IdentitiesOf(a, who) - {p.identity};
    } else {
      ChangedIdentities(a, b, p.identity, who);
    }
  }

  lemma MoveKeepsCredential(s: Sys, env: Env, move: Move, who: UserId)
    requires Coherent(s, env) && CanMove(s, env, move) && HasCredential(s.accounts, who)
    ensures HasCredential(Moved(s, env, move).accounts, who)
  {
    var a, b := s.accounts, Moved(s, env, move).accounts;
    if move.CommitUnlink? {
      UnlinkLeavesCredential(s, env, move.tid, who);
    } else if Writes(move) {
      forall i | i in IdentitiesOf(a, who) ensures i in IdentitiesOf(b, who) {}
      MoreKeepsCredential(a, b, who);
    } else {
      OthersWriteNothing(s, env, move);
    }
  }

  /** Whoever can sign in at some moment can sign in at every later one, however calls interleave. */
  lemma {:induction false} NobodyIsLockedOutConcurrently(
    env: Env, states: seq<Sys>, moves: seq<Move>, j: nat, k: nat, who: UserId)
    requires Interleaving(env, states, moves) && j <= k < |states| && HasCredential(states[j].accounts, who)
    ensures HasCredential(states[k].accounts, who)
    decreases k
  {
    if j < k {
      NobodyIsLockedOutConcurrently(env, states, moves, j, k - 1, who);
      InterleavingIsCoherent(env, states, moves, k - 1);
      MoveKeepsCredential(states[k - 1], env, moves[k - 1], who);
    }
  }

  // ---------------------------------------------------------------- what commits amount to

  /** An unlinking commits what it would do alone at that instant. */
  lemma UnlinkIsAtomic(s: Sys, env: Env, tid: Tid)
    requires Coherent(s, env) && CanMove(s, env, CommitUnlink(tid))
    ensures var p := s.procs[tid];
      && p.user in s.accounts.users
      && Unlink(s.accounts, p.user, p.identity.provider)
           == (Moved(s, env, CommitUnlink(tid)).accounts, Done(p.user, Unlinked))
  {
    var p := s.procs[tid];
    assert Knows(s, env, tid);
    OneIdentityPerProvider(s.accounts, p.user, p.identity.provider);
    assert (set i | i in IdentitiesOf(s.accounts, p.user) && i.provider == p.identity.provider) == {p.identity};
  }

  /** So does an explicit link. */
  lemma LinkIsAtomic(s: Sys, env: Env, tid: Tid)
    requires Coherent(s, env) && CanMove(s, env, CommitLink(tid))
    ensures var p := s.procs[tid];
      ExplicitLink(s.accounts, p.provider, p.subject, p.user)
        == (Moved(s, env, CommitLink(tid)).accounts, Done(p.user, Linked))
  {
    var p := s.procs[tid];
    forall i | i in s.accounts.identities ensures !Clash(i, NewIdentity(p)) {}
    assert IdentityFor(s.accounts, p.provider, p.subject).None?;
  }

  /** And so does a link by email: its user has that email, verified on both sides, when the identity is inserted. */
  lemma AutoLinkIsAtomic(s: Sys, env: Env, tid: Tid, surface: Surface, newId: UserId)
    requires Coherent(s, env) && CanMove(s, env, CommitAutoLink(tid))
    ensures var p := s.procs[tid];
      && p.user in s.accounts.users && s.accounts.users[p.user].emailVerified && p.claims.emailVerified
      && SameEmail(env, s.accounts.users[p.user], p.claims.email)
      && SignIn(s.accounts, env, p.provider, p.claims, surface, None, newId)
           == (Moved(s, env, CommitAutoLink(tid)).accounts, Done(p.user, AutoLinked))
  {
    var p := s.procs[tid];
    assert Knows(s, env, tid);
    forall i | i in s.accounts.identities ensures !Clash(i, NewIdentity(p)) {}
    assert IdentityFor(s.accounts, p.provider, p.claims.subject).None?;
    assert UserByEmail(s.accounts, env, p.claims.email) == Some(p.user);
  }
}
