/**
 Rotations, revocations and authentications running at the same time. A rotation locks its token,
 family, grant and user rows, reads them, asks the JWT library, and writes at its commit; a
 revocation is a series of separately committed statements; an authentication reads without locks.
 */
module DeviceProtocol {
  import opened DeviceModel

  type Tid = nat

  datatype Row = TokenRow(jti: Jti) | FamilyRow(family: FamilyId) | GrantRow(grant: GrantId) | UserRow(user: UserId)

  /** Where `revoke_device_grant` stands. `rest` are families of its listing still to be handled. */
  datatype Stage =
    | AtGrant
    | AtListing
    | AtFamily(rest: set<FamilyId>)
    | AtTokenList(family: FamilyId, rest: set<FamilyId>)
    | AtJwt(family: FamilyId, rest: set<FamilyId>, jtis: set<Jti>, left: set<Jti>)

  datatype Proc =
    | Presenting(p: Presented)
    | Holding(p: Presented, snap: Snap)
    | Checked(p: Presented, snap: Snap, jwtOk: bool)
    | Revoking(grant: GrantId, stage: Stage)
    | Authenticating(user: UserId, grant: GrantId, family: FamilyId, userOk: bool)
    | GrantSeen(user: UserId, grant: GrantId, family: FamilyId, grantOk: bool)

  datatype Sys = Sys(db: Db, locks: map<Row, Tid>, procs: map<Tid, Proc>)

  datatype Step =
    | AddUser(u: UserId)
    | SetUser(u: UserId, usable: bool)
    | NewGrant(g: GrantId, u: UserId)
    | NewFamily(f: FamilyId, g: GrantId, u: UserId, jti: Jti)
    | BlacklistJwt(jti: Jti)
    | StartRotate(tid: Tid, p: Presented)
    | LockRows(tid: Tid)
    | CheckJwt(tid: Tid, notExpired: bool)
    | CommitRotate(tid: Tid, newJti: Jti)
    | Quit(tid: Tid)
    | StartRevoke(tid: Tid, g: GrantId)
    | WriteGrant(tid: Tid)
    | ListFamilies(tid: Tid)
    | WriteFamily(tid: Tid, f: FamilyId)
    | ListTokens(tid: Tid)
    | BlacklistOne(tid: Tid, jti: Jti)
    | WriteTokens(tid: Tid)
    | StartAuth(tid: Tid, u: UserId, g: GrantId, f: FamilyId)
    | ReadGrant(tid: Tid)
    | ReadFamily(tid: Tid)

  function Rows(db: Db, p: Presented): set<Row>
    requires Linked(db) && p.jti in db.tokens
  {
    var family := db.families[db.tokens[p.jti].family];
    {TokenRow(p.jti), FamilyRow(db.tokens[p.jti].family), GrantRow(family.grant), UserRow(family.user)}
  }

  predicate IsRevoking(s: Sys, tid: Tid) {
    tid in s.procs && s.procs[tid].Revoking?
  }

  ghost predicate Enabled(s: Sys, step: Step) {
    match step
    case AddUser(u) => u !in s.db.users
    case SetUser(u, _) => u in s.db.users && UserRow(u) !in s.locks
    case NewGrant(g, u) => g !in s.db.grants && u in s.db.users
    case NewFamily(f, g, u, jti) =>
      f !in s.db.families && g in s.db.grants && u in s.db.users && jti !in s.db.tokens
    case BlacklistJwt(jti) => jti in s.db.tokens
    case StartRotate(tid, _) => tid !in s.procs
    case LockRows(tid) =>
      && tid in s.procs && s.procs[tid].Presenting? && Linked(s.db)
      && RowFound(s.db, s.procs[tid].p)
      && Rows(s.db, s.procs[tid].p) !! s.locks.Keys
    case CheckJwt(tid, _) => tid in s.procs && s.procs[tid].Holding?
    case CommitRotate(tid, newJti) =>
      tid in s.procs && s.procs[tid].Checked? && s.procs[tid].p.jti in s.db.tokens && newJti !in s.db.tokens
    case Quit(tid) => tid in s.procs
    case StartRevoke(tid, g) => tid !in s.procs && g in s.db.grants
    case WriteGrant(tid) =>
      IsRevoking(s, tid) && s.procs[tid].stage.AtGrant? && GrantRow(s.procs[tid].grant) !in s.locks
    case ListFamilies(tid) => IsRevoking(s, tid) && s.procs[tid].stage.AtListing?
    case WriteFamily(tid, f) =>
      IsRevoking(s, tid) && s.procs[tid].stage.AtFamily? && f in s.procs[tid].stage.rest && FamilyRow(f) !in s.locks
    case ListTokens(tid) => IsRevoking(s, tid) && s.procs[tid].stage.AtTokenList?
    case BlacklistOne(tid, jti) => IsRevoking(s, tid) && s.procs[tid].stage.AtJwt? && jti in s.procs[tid].stage.left
    case WriteTokens(tid) =>
      && IsRevoking(s, tid) && s.procs[tid].stage.AtJwt? && s.procs[tid].stage.left == {}
      && forall j :: j in s.procs[tid].stage.jtis ==> TokenRow(j) !in s.locks
    case StartAuth(tid, u, _, _) => tid !in s.procs && u in s.db.users
    case ReadGrant(tid) => tid in s.procs && s.procs[tid].Authenticating?
    case ReadFamily(tid) => tid in s.procs && s.procs[tid].GrantSeen?
  }

  /** The families of the grant that are not revoked. */
  function OpenFamilies(db: Db, g: GrantId): set<FamilyId> {
    set f | f in db.families && db.families[f].grant == g && !db.families[f].revoked
  }

  function To(s: Sys, tid: Tid, proc: Proc): Sys {
    s.(procs := s.procs[tid := proc])
  }

  /** The process is over and its locks are gone. */
  function End(s: Sys, tid: Tid): Sys {
    s.(locks := map r | r in s.locks && s.locks[r] != tid :: s.locks[r], procs := s.procs - {tid})
  }

  function Acquire(locks: map<Row, Tid>, rows: set<Row>, tid: Tid): map<Row, Tid> {
    locks + map r | r in rows :: tid
  }

  function DecisionOf(proc: Proc): Decision
    requires proc.Checked?
  {
    Decide(proc.p, proc.snap, proc.jwtOk)
  }

  function Next(s: Sys, step: Step): Sys
    requires Enabled(s, step)
  {
    match step
    case AddUser(u) => s.(db := s.db.(users := s.db.users[u := true]))
    case SetUser(u, usable) => s.(db := s.db.(users := s.db.users[u := usable]))
    case NewGrant(g, u) => s.(db := s.db.(grants := s.db.grants[g := Grant(u, true)]))
    case NewFamily(f, g, u, jti) => s.(db := IssueFamily(s.db, f, g, u, jti))
    case BlacklistJwt(jti) => s.(db := s.db.(jwtBlacklist := s.db.jwtBlacklist + {jti}))
    case StartRotate(tid, p) => To(s, tid, Presenting(p))
    case LockRows(tid) =>
      var p := s.procs[tid].p;
      To(s.(locks := Acquire(s.locks, Rows(s.db, p), tid)), tid, Holding(p, SnapOf(s.db, p.jti)))
    case CheckJwt(tid, notExpired) =>
      var proc := s.procs[tid];
      To(s, tid, Checked(proc.p, proc.snap, notExpired && proc.p.jti !in s.db.jwtBlacklist))
    case CommitRotate(tid, newJti) =>
      var proc := s.procs[tid];
      End(s.(db := Rotated(s.db, proc.p, proc.snap.family, DecisionOf(proc), newJti)), tid)
    case Quit(tid) => End(s, tid)
    case StartRevoke(tid, g) => To(s, tid, Revoking(g, AtGrant))
    case WriteGrant(tid) =>
      var g := s.procs[tid].grant;
      To(s.(db := RevokeGrantRow(s.db, g)), tid, Revoking(g, AtListing))
    case ListFamilies(tid) =>
      var g := s.procs[tid].grant;
      To(s, tid, Revoking(g, AtFamily(OpenFamilies(s.db, g))))
    case WriteFamily(tid, f) =>
      var proc := s.procs[tid];
      To(s.(db := RevokeFamilyRow(s.db, f)), tid, Revoking(proc.grant, AtTokenList(f, proc.stage.rest - {f})))
    case ListTokens(tid) =>
      var proc := s.procs[tid];
      var jtis := TokensOf(s.db, proc.stage.family);
      To(s, tid, Revoking(proc.grant, AtJwt(proc.stage.family, proc.stage.rest, jtis, jtis)))
    case BlacklistOne(tid, jti) =>
      var proc := s.procs[tid];
      To(s.(db := s.db.(jwtBlacklist := s.db.jwtBlacklist + {jti})), tid,
         Revoking(proc.grant, proc.stage.(left := proc.stage.left - {jti})))
    case WriteTokens(tid) =>
      var proc := s.procs[tid];
      To(s.(db := s.db.(tokens := MarkBlacklisted(s.db.tokens, proc.stage.jtis))), tid,
         Revoking(proc.grant, AtFamily(proc.stage.rest)))
    case StartAuth(tid, u, g, f) => To(s, tid, Authenticating(u, g, f, s.db.users[u]))
    case ReadGrant(tid) =>
      var proc := s.procs[tid];
      To(s, tid, GrantSeen(proc.user, proc.grant, proc.family,
        proc.userOk && proc.grant in s.db.grants && s.db.grants[proc.grant] == Grant(proc.user, true)))
    case ReadFamily(tid) => End(s, tid)
  }

  /** The verdict that an authentication reaches with its last read. */
  predicate Authenticates(s: Sys, tid: Tid)
    requires tid in s.procs && s.procs[tid].GrantSeen?
  {
    var proc := s.procs[tid];
    proc.grantOk && proc.family in s.db.families && s.db.families[proc.family] == Family(proc.grant, proc.user, false)
  }

  const INITIAL: Sys := Sys(EMPTY, map[], map[])

  /** The step is possible in `s` and ends in `s'`. */
  ghost predicate Leads(s: Sys, step: Step, s': Sys) {
    Enabled(s, step) && s' == Next(s, step)
  }

  ghost predicate Run(states: seq<Sys>, steps: seq<Step>) {
    && |states| == |steps| + 1
    && states[0] == INITIAL
    && forall k {:trigger steps[k]} :: 0 <= k < |steps| ==> Leads(states[k], steps[k], states[k + 1])
  }

  // ---------------------------------------------------------------- the invariant of the protocol

  /** A rotation past its locks still sees the truth. */
  ghost predicate Fresh(s: Sys, tid: Tid)
    requires tid in s.procs && Linked(s.db)
  {
    var proc := s.procs[tid];
    proc.Holding? || proc.Checked? ==>
      && RowFound(s.db, proc.p)
      && proc.snap == SnapOf(s.db, proc.p.jti)
      && forall r :: r in Rows(s.db, proc.p) ==> r in s.locks && s.locks[r] == tid
  }

  ghost predicate Coherent(s: Sys) {
    && Chained(s.db)
    && forall tid :: tid in s.procs ==> Fresh(s, tid)
  }

  /** A commit computed from the snapshot is the rotation run atomically at that instant. */
  lemma CommitIsAtomic(s: Sys, tid: Tid, newJti: Jti)
    requires Coherent(s) && Enabled(s, CommitRotate(tid, newJti))
    ensures var proc := s.procs[tid];
      && RowFound(s.db, proc.p)
      && DecisionOf(proc) == Decide(proc.p, SnapOf(s.db, proc.p.jti), proc.jwtOk)
      && Next(s, CommitRotate(tid, newJti)).db
           == Rotated(s.db, proc.p, SnapOf(s.db, proc.p.jti).family, DecisionOf(proc), newJti)
  {
    assert Fresh(s, tid);
  }

  /** The rows of a token read the same in both databases. */
  ghost predicate SameRows(a: Db, b: Db, jti: Jti)
    requires Linked(a) && Linked(b) && jti in a.tokens
  {
    jti in b.tokens && SnapOf(a, jti) == SnapOf(b, jti)
  }

  predicate PastLocks(proc: Proc) {
    proc.Holding? || proc.Checked?
  }

  /** A writer that leaves a rotation's rows and locks alone leaves the rotation fresh. */
  lemma UntouchedStaysFresh(s: Sys, s': Sys, tid: Tid)
    requires Linked(s.db) && Linked(s'.db) && tid in s.procs && tid in s'.procs && s'.procs[tid] == s.procs[tid]
    requires Fresh(s, tid)
    requires forall r :: r in s.locks && s.locks[r] == tid ==> r in s'.locks && s'.locks[r] == tid
    requires PastLocks(s.procs[tid]) ==> SameRows(s.db, s'.db, s.procs[tid].p.jti)
    ensures Fresh(s', tid)
  {
  }

  predicate Holds(s: Sys, r: Row, tid: Tid) {
    r in s.locks && s.locks[r] == tid
  }

  lemma RowsAreHeld(s: Sys, tid: Tid)
    requires Coherent(s) && tid in s.procs && PastLocks(s.procs[tid])
    ensures var p := s.procs[tid].p;
      && RowFound(s.db, p)
      && var family := s.db.families[p.family];
      && Holds(s, TokenRow(p.jti), tid)
      && Holds(s, FamilyRow(p.family), tid)
      && Holds(s, GrantRow(family.grant), tid)
      && Holds(s, UserRow(family.user), tid)
  {
    assert Fresh(s, tid);
    var p := s.procs[tid].p;
    assert TokenRow(p.jti) in Rows(s.db, p) && FamilyRow(p.family) in Rows(s.db, p);
    assert GrantRow(s.db.families[p.family].grant) in Rows(s.db, p);
    assert UserRow(s.db.families[p.family].user) in Rows(s.db, p);
  }

  /** Two rotations past their locks work on different families, grants and users. */
  lemma CommitLeavesOthersAlone(s: Sys, tid: Tid, newJti: Jti, other: Tid)
    requires Coherent(s) && Enabled(s, CommitRotate(tid, newJti))
    requires other in s.procs && other != tid && PastLocks(s.procs[other])
    requires Linked(Next(s, CommitRotate(tid, newJti)).db)
    ensures SameRows(s.db, Next(s, CommitRotate(tid, newJti)).db, s.procs[other].p.jti)
  {
    RowsAreHeld(s, tid);
    RowsAreHeld(s, other);
    CommitIsAtomic(s, tid, newJti);
    assert s.procs[other].p.family != s.procs[tid].p.family;
    assert s.db.families[s.procs[other].p.family].grant != s.db.families[s.procs[tid].p.family].grant;
  }

  lemma CommitKeepsCoherent(s: Sys, tid: Tid, newJti: Jti)
    requires Coherent(s) && Enabled(s, CommitRotate(tid, newJti))
    ensures Coherent(Next(s, CommitRotate(tid, newJti)))
  {
    var s' := Next(s, CommitRotate(tid, newJti));
    CommitIsAtomic(s, tid, newJti);
    RotationKeepsChained(s.db, s.procs[tid].p, s.procs[tid].jwtOk, newJti);
    forall other | other in s'.procs ensures Fresh(s', other) {
      assert Fresh(s, other);
      if PastLocks(s.procs[other]) { CommitLeavesOthersAlone(s, tid, newJti, other); }
      UntouchedStaysFresh(s, s', other);
    }
  }

  /** The writers that are single statements, and the flows that only insert. */
  predicate SingleStatement(step: Step) {
    step.AddUser? || step.SetUser? || step.NewGrant? || step.NewFamily? || step.BlacklistJwt?
    || step.WriteGrant? || step.WriteFamily? || step.WriteTokens? || step.BlacklistOne?
  }

  lemma MarkKeepsChained(db: Db, jtis: set<Jti>)
    requires Chained(db)
    ensures Chained(db.(tokens := MarkBlacklisted(db.tokens, jtis)))
  {
    var db' := db.(tokens := MarkBlacklisted(db.tokens, jtis));
    forall i, j | Earlier(db', i, j) ensures db'.tokens[i].rotated {
      assert Earlier(db, i, j);
    }
  }

  lemma StatementKeepsChained(s: Sys, step: Step)
    requires Chained(s.db) && Enabled(s, step) && SingleStatement(step)
    ensures Chained(Next(s, step).db)
  {
    if step.NewFamily? {
      IssueFamilyKeepsChained(s.db, step.f, step.g, step.u, step.jti);
    } else if step.WriteTokens? {
      MarkKeepsChained(s.db, s.procs[step.tid].stage.jtis);
    } else {
      SameTokensKeepChained(s.db, Next(s, step).db);
    }
  }

  lemma StatementLeavesRowsAlone(s: Sys, step: Step, tid: Tid)
    requires Coherent(s) && Enabled(s, step) && SingleStatement(step) && Linked(Next(s, step).db)
    requires tid in s.procs && PastLocks(s.procs[tid])
    ensures SameRows(s.db, Next(s, step).db, s.procs[tid].p.jti)
  {
    RowsAreHeld(s, tid);
    var p := s.procs[tid].p;
    LockedTokenStays(s, step, p.jti);
    LockedFamilyStays(s, step, p.family);
    LockedGrantStays(s, step, s.db.families[p.family].grant);
    LockedUserStays(s, step, s.db.families[p.family].user);
    SameColumnsSameSnap(s.db, Next(s, step).db, p.jti);
  }

  lemma LockedTokenStays(s: Sys, step: Step, jti: Jti)
    requires Enabled(s, step) && SingleStatement(step) && jti in s.db.tokens && TokenRow(jti) in s.locks
    ensures var db := Next(s, step).db; jti in db.tokens && db.tokens[jti] == s.db.tokens[jti]
  {
  }

  lemma LockedFamilyStays(s: Sys, step: Step, f: FamilyId)
    requires Enabled(s, step) && SingleStatement(step) && f in s.db.families && FamilyRow(f) in s.locks
    ensures var db := Next(s, step).db; f in db.families && db.families[f] == s.db.families[f]
  {
  }

  lemma LockedGrantStays(s: Sys, step: Step, g: GrantId)
    requires Enabled(s, step) && SingleStatement(step) && g in s.db.grants && GrantRow(g) in s.locks
    ensures var db := Next(s, step).db; g in db.grants && db.grants[g] == s.db.grants[g]
  {
  }

  lemma LockedUserStays(s: Sys, step: Step, u: UserId)
    requires Enabled(s, step) && SingleStatement(step) && u in s.db.users && UserRow(u) in s.locks
    ensures var db := Next(s, step).db; u in db.users && db.users[u] == s.db.users[u]
  {
  }

  /** A snapshot is made of these four rows. */
  lemma SameColumnsSameSnap(a: Db, b: Db, jti: Jti)
    requires Linked(a) && Linked(b) && jti in a.tokens
    requires jti in b.tokens && a.tokens[jti] == b.tokens[jti]
    requires var f := a.tokens[jti].family; b.families[f] == a.families[f]
    requires var family := a.families[a.tokens[jti].family];
      b.grants[family.grant] == a.grants[family.grant] && b.users[family.user] == a.users[family.user]
    ensures SameRows(a, b, jti)
  {
  }

  lemma StatementKeepsCoherent(s: Sys, step: Step)
    requires Coherent(s) && Enabled(s, step) && SingleStatement(step)
    ensures Coherent(Next(s, step))
  {
    var s' := Next(s, step);
    StatementKeepsChained(s, step);
    forall tid | tid in s'.procs ensures Fresh(s', tid) {
      assert Fresh(s, tid);
      if PastLocks(s.procs[tid]) {
        StatementLeavesRowsAlone(s, step, tid);
        UntouchedStaysFresh(s, s', tid);
      }
    }
  }

  lemma LockKeepsCoherent(s: Sys, tid: Tid)
    requires Coherent(s) && Enabled(s, LockRows(tid))
    ensures Coherent(Next(s, LockRows(tid)))
  {
    var s' := Next(s, LockRows(tid));
    forall other | other in s'.procs ensures Fresh(s', other) {
      assert Fresh(s, other);
      if other != tid { UntouchedStaysFresh(s, s', other); }
    }
  }

  lemma QuietStepKeepsCoherent(s: Sys, step: Step)
    requires Coherent(s) && Enabled(s, step) && !SingleStatement(step) && !step.CommitRotate? && !step.LockRows?
    ensures Coherent(Next(s, step))
  {
    var s' := Next(s, step);
    assert s'.db == s.db;
    forall tid | tid in s'.procs ensures Fresh(s', tid) {
      assert tid in s.procs ==> Fresh(s, tid);
    }
  }

  lemma StepKeepsCoherent(s: Sys, step: Step)
    requires Coherent(s) && Enabled(s, step)
    ensures Coherent(Next(s, step))
  {
    if step.CommitRotate? { CommitKeepsCoherent(s, step.tid, step.newJti); }
    else if step.LockRows? { LockKeepsCoherent(s, step.tid); }
    else if SingleStatement(step) { StatementKeepsCoherent(s, step); }
    else { QuietStepKeepsCoherent(s, step); }
  }

  lemma {:induction false} RunIsCoherent(states: seq<Sys>, steps: seq<Step>, k: nat)
    requires Run(states, steps) && k < |states|
    ensures Coherent(states[k])
  {
    if k > 0 {
      RunIsCoherent(states, steps, k - 1);
      StepKeepsCoherent(states[k - 1], steps[k - 1]);
    }
  }
}
