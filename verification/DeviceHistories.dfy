/** When a rotation mints and when a request authenticates, told from what its steps read along a run. */
module DeviceHistories {
  import opened Options
  import opened DeviceModel
  import opened DeviceProtocol
  import opened DeviceTheorems

  /** The step is one of this process. */
  predicate By(step: Step, tid: Tid) {
    !(step.AddUser? || step.SetUser? || step.NewGrant? || step.NewFamily? || step.BlacklistJwt?) && step.tid == tid
  }

  lemma OthersLeaveProc(s: Sys, step: Step, tid: Tid)
    requires Enabled(s, step) && tid in s.procs && !By(step, tid)
    ensures tid in Next(s, step).procs && Next(s, step).procs[tid] == s.procs[tid]
  {
  }

  /** The process does nothing between its steps i and k. */
  ghost predicate Idle(steps: seq<Step>, i: nat, k: nat, tid: Tid)
    requires k <= |steps|
  {
    forall n :: i < n < k ==> !By(steps[n], tid)
  }

  lemma {:induction false} IdleStays(states: seq<Sys>, steps: seq<Step>, i: nat, k: nat, tid: Tid)
    requires Run(states, steps) && i < k < |states| && tid in states[i + 1].procs && Idle(steps, i, k, tid)
    ensures tid in states[k].procs && states[k].procs[tid] == states[i + 1].procs[tid]
    decreases k
  {
    if i + 1 < k {
      IdleStays(states, steps, i, k - 1, tid);
      OthersLeaveProc(states[k - 1], steps[k - 1], tid);
    }
  }

  // ---------------------------------------------------------------- authentication

  lemma UserIsRead(states: seq<Sys>, steps: seq<Step>, i: nat, j: nat, tid: Tid, u: UserId, g: GrantId, f: FamilyId)
    requires Run(states, steps) && i < j < |states| && Idle(steps, i, j, tid)
    requires steps[i] == StartAuth(tid, u, g, f)
    ensures u in states[i].db.users && tid in states[j].procs
    ensures states[j].procs[tid] == Authenticating(u, g, f, states[i].db.users[u])
  {
    assert Leads(states[i], steps[i], states[i + 1]);
    IdleStays(states, steps, i, j, tid);
  }

  /**
   A request that reads its user at i, its grant at j and its family at k authenticates exactly if the user
   was active at i, the grant was the user's and active at j, and the family is theirs and not revoked at k.
   */
  lemma AuthenticatesIff(
    states: seq<Sys>, steps: seq<Step>, i: nat, j: nat, k: nat, tid: Tid, u: UserId, g: GrantId, f: FamilyId)
    requires Run(states, steps) && i < j < k < |states| && Idle(steps, i, j, tid) && Idle(steps, j, k, tid)
    requires steps[i] == StartAuth(tid, u, g, f) && steps[j] == ReadGrant(tid)
    ensures tid in states[k].procs && states[k].procs[tid].GrantSeen?
    ensures Authenticates(states[k], tid) <==>
      && Lookup(states[i].db.users, u) == Some(true)
      && Lookup(states[j].db.grants, g) == Some(Grant(u, true))
      && Lookup(states[k].db.families, f) == Some(Family(g, u, false))
  {
    UserIsRead(states, steps, i, j, tid, u, g, f);
    assert Leads(states[j], steps[j], states[j + 1]);
    IdleStays(states, steps, j, k, tid);
  }

  /** No step between j and k sets whether the user is active. */
  predicate NotSet(steps: seq<Step>, j: nat, k: nat, u: UserId)
    requires k <= |steps|
  {
    forall n :: j < n < k ==> !(steps[n].SetUser? && steps[n].u == u)
  }

  lemma {:induction false} UserIsAsLastSet(
    states: seq<Sys>, steps: seq<Step>, j: nat, k: nat, u: UserId, usable: bool)
    requires Run(states, steps) && j < k < |states| && steps[j] == SetUser(u, usable) && NotSet(steps, j, k, u)
    ensures Lookup(states[k].db.users, u) == Some(usable)
    decreases k
  {
    assert Leads(states[k - 1], steps[k - 1], states[k]);
    if j + 1 < k {
      UserIsAsLastSet(states, steps, j, k - 1, u, usable);
      OthersLeaveUser(states[k - 1], steps[k - 1], u);
    }
  }

  lemma OthersLeaveUser(s: Sys, step: Step, u: UserId)
    requires Enabled(s, step) && u in s.db.users && !(step.SetUser? && step.u == u)
    ensures u in Next(s, step).db.users && Next(s, step).db.users[u] == s.db.users[u]
  {
    if step.CommitRotate? {
      var proc := s.procs[step.tid];
      RotationLeavesUsers(s.db, proc.p, proc.snap.family, DecisionOf(proc), step.newJti);
    } else if !SingleStatement(step) {
      ReadsWriteNothing(s, step);
    }
  }

  lemma RotationLeavesUsers(db: Db, p: Presented, family: Family, decision: Decision, newJti: Jti)
    requires p.jti in db.tokens
    ensures Rotated(db, p, family, decision, newJti).users == db.users
  {
  }

  /** A request that begins after its user has been suspended, and not reinstated, is refused. */
  lemma SuspendedUserIsRefused(
    states: seq<Sys>, steps: seq<Step>, h: nat, i: nat, j: nat, k: nat, tid: Tid, u: UserId, g: GrantId, f: FamilyId)
    requires Run(states, steps) && h < i < j < k < |states|
    requires steps[h] == SetUser(u, false) && NotSet(steps, h, i, u)
    requires steps[i] == StartAuth(tid, u, g, f) && Idle(steps, i, j, tid)
    requires steps[j] == ReadGrant(tid) && Idle(steps, j, k, tid)
    ensures tid in states[k].procs && states[k].procs[tid].GrantSeen? && !Authenticates(states[k], tid)
  {
    UserIsAsLastSet(states, steps, h, i, u, false);
    AuthenticatesIff(states, steps, i, j, k, tid, u, g, f);
  }

  // ---------------------------------------------------------------- rotation

  /** The rotation of `p` starts at h, locks its rows at i and asks the JWT library at j, and nothing else till k. */
  ghost predicate Rotating(
    steps: seq<Step>, h: nat, i: nat, j: nat, k: nat, tid: Tid, p: Presented, notExpired: bool)
  {
    && h < i < j < k <= |steps|
    && steps[h] == StartRotate(tid, p) && steps[i] == LockRows(tid) && steps[j] == CheckJwt(tid, notExpired)
    && Idle(steps, h, i, tid) && Idle(steps, i, j, tid) && Idle(steps, j, k, tid)
  }

  lemma CheckIsKept(
    states: seq<Sys>, steps: seq<Step>, h: nat, i: nat, j: nat, k: nat, tid: Tid, p: Presented, notExpired: bool)
    requires Run(states, steps) && Rotating(steps, h, i, j, k, tid, p, notExpired)
    ensures tid in states[k].procs && states[k].procs[tid].Checked?
    ensures var proc := states[k].procs[tid];
      proc.p == p && (proc.jwtOk <==> notExpired && p.jti !in states[j].db.jwtBlacklist)
  {
    assert Leads(states[h], steps[h], states[h + 1]);
    IdleStays(states, steps, h, i, tid);
    assert Leads(states[i], steps[i], states[i + 1]);
    IdleStays(states, steps, i, j, tid);
    assert Leads(states[j], steps[j], states[j + 1]);
    IdleStays(states, steps, j, k, tid);
  }

  /**
   A rotation of `p` that asks the JWT library at j and commits at k mints exactly if the rows allow it when it
   commits, and the token had not expired and was on no blacklist at j.
   */
  lemma MintsIff(
    states: seq<Sys>, steps: seq<Step>, h: nat, i: nat, j: nat, k: nat, tid: Tid, p: Presented, notExpired: bool,
    newJti: Jti)
    requires Run(states, steps) && k < |steps| && Rotating(steps, h, i, j, k, tid, p, notExpired)
    requires steps[k] == CommitRotate(tid, newJti)
    ensures Mints(states[k], steps[k], p.jti) <==>
      Rotatable(states[k].db, p) && notExpired && p.jti !in states[j].db.jwtBlacklist
  {
    CheckIsKept(states, steps, h, i, j, k, tid, p, notExpired);
    RunIsCoherent(states, steps, k);
    assert Leads(states[k], steps[k], states[k + 1]);
    CommitIsAtomic(states[k], tid, newJti);
    MintDecisionIff(states[k].db, states[k].procs[tid].p, states[k].procs[tid].jwtOk);
  }

  /** What the commit of that rotation writes. */
  lemma RotationWritesWhatWasAsked(
    states: seq<Sys>, steps: seq<Step>, h: nat, i: nat, j: nat, k: nat, tid: Tid, p: Presented, notExpired: bool,
    newJti: Jti)
    requires Run(states, steps) && k < |steps| && Rotating(steps, h, i, j, k, tid, p, notExpired)
    requires steps[k] == CommitRotate(tid, newJti)
    ensures Linked(states[k].db) && RowFound(states[k].db, p)
    ensures Wrote(states[k].db, p, notExpired && p.jti !in states[j].db.jwtBlacklist, newJti, states[k + 1].db)
  {
    CheckIsKept(states, steps, h, i, j, k, tid, p, notExpired);
    RunIsCoherent(states, steps, k);
    assert Leads(states[k], steps[k], states[k + 1]);
    CommitIsAtomic(states[k], tid, newJti);
    RotationWrites(states[k].db, p, states[k].procs[tid].jwtOk, newJti);
  }

  // ---------------------------------------------------------------- revocation

  lemma {:induction false} RevokerKeepsGrant(states: seq<Sys>, steps: seq<Step>, i: nat, k: nat, tid: Tid, g: GrantId)
    requires Run(states, steps) && i < k < |states| && steps[i] == StartRevoke(tid, g)
    requires forall n :: i < n < k ==> steps[n] != Quit(tid)
    ensures IsRevoking(states[k], tid) && states[k].procs[tid].grant == g
    decreases k
  {
    assert Leads(states[k - 1], steps[k - 1], states[k]);
    if i + 1 < k {
      RevokerKeepsGrant(states, steps, i, k - 1, tid, g);
      StepKeepsRevoker(states[k - 1], steps[k - 1], tid);
    }
  }

  lemma StepKeepsRevoker(s: Sys, step: Step, tid: Tid)
    requires Enabled(s, step) && IsRevoking(s, tid) && step != Quit(tid)
    ensures IsRevoking(Next(s, step), tid) && Next(s, step).procs[tid].grant == s.procs[tid].grant
  {
  }

  /** A revocation closes the grant that it was asked to revoke, and no other grant. */
  lemma RevocationClosesItsGrant(states: seq<Sys>, steps: seq<Step>, i: nat, k: nat, tid: Tid, g: GrantId)
    requires Run(states, steps) && i < k < |steps| && steps[i] == StartRevoke(tid, g) && steps[k] == WriteGrant(tid)
    requires forall n :: i < n < k ==> steps[n] != Quit(tid)
    ensures var a, b := states[k].db.grants, states[k + 1].db.grants;
      g in a && b == a[g := Grant(a[g].user, false)]
  {
    assert Leads(states[i], steps[i], states[i + 1]) && Leads(states[k], steps[k], states[k + 1]);
    RevokerKeepsGrant(states, steps, i, k, tid, g);
    RunHardens(states, steps, i, k);
  }

  // ---------------------------------------------------------------- spent tokens

  /** The token has been used up in both tables, and its successor is there. */
  predicate Succeeded(db: Db, jti: Jti, newJti: Jti) {
    && jti in db.tokens && newJti in db.tokens
    && db.tokens[jti].rotated && db.tokens[jti].blacklisted && jti in db.jwtBlacklist
    && db.tokens[newJti].family == db.tokens[jti].family
    && db.tokens[jti].serial < db.tokens[newJti].serial
  }

  lemma MintSucceeds(db: Db, p: Presented, family: Family, newJti: Jti)
    requires Chained(db) && p.jti in db.tokens && newJti !in db.tokens && db.tokens[p.jti].family == p.family
    ensures Succeeded(Rotated(db, p, family, Mint, newJti), p.jti, newJti)
  {
  }

  lemma HardeningKeepsSucceeded(a: Db, b: Db, jti: Jti, newJti: Jti)
    requires Hardens(a, b) && Succeeded(a, jti, newJti)
    ensures Succeeded(b, jti, newJti)
  {
  }

  /** From its rotation on, a spent token is on the blacklist of the JWT library too, and so refused everywhere. */
  lemma SpentTokensAreBlacklisted(states: seq<Sys>, steps: seq<Step>, j: nat, k: nat, jti: Jti)
    requires Run(states, steps) && j < k < |states| && j < |steps| && Mints(states[j], steps[j], jti)
    ensures Succeeded(states[k].db, jti, steps[j].newJti)
  {
    RunIsCoherent(states, steps, j);
    CommitIsAtomic(states[j], steps[j].tid, steps[j].newJti);
    var p := states[j].procs[steps[j].tid].p;
    MintSucceeds(states[j].db, p, SnapOf(states[j].db, p.jti).family, steps[j].newJti);
    RunHardens(states, steps, j + 1, k);
    HardeningKeepsSucceeded(states[j + 1].db, states[k].db, jti, steps[j].newJti);
  }
  // ---------------------------------------------------------------- locks

  /** Every row lock is held by a process that is running. */
  predicate LocksHaveOwners(s: Sys) {
    forall r :: r in s.locks ==> s.locks[r] in s.procs
  }

  lemma StepKeepsOwners(s: Sys, step: Step)
    requires LocksHaveOwners(s) && Enabled(s, step)
    ensures LocksHaveOwners(Next(s, step))
  {
  }

  /** No lock outlives its transaction. */
  lemma {:induction false} NoLockIsLeft(states: seq<Sys>, steps: seq<Step>, k: nat)
    requires Run(states, steps) && k < |states|
    ensures LocksHaveOwners(states[k])
  {
    if k > 0 {
      NoLockIsLeft(states, steps, k - 1);
      assert Leads(states[k - 1], steps[k - 1], states[k]);
      StepKeepsOwners(states[k - 1], steps[k - 1]);
    }
  }
  // ---------------------------------------------------------------- nothing is left out

  /** The rotation stands at `proc`, and nothing but its locks differs. */
  predicate Stands(s: Sys, s': Sys, tid: Tid, rows: set<Row>, proc: Proc) {
    && s'.db == s.db && s'.locks == Acquire(s.locks, rows, tid)
    && tid in s'.procs && s'.procs[tid] == proc && s'.procs - {tid} == s.procs
  }

  /** Nobody uses the process number or the rows of the presented token. */
  ghost predicate CanStart(s: Sys, tid: Tid, p: Presented) {
    && Linked(s.db) && RowFound(s.db, p) && Rows(s.db, p) !! s.locks.Keys
    && tid !in s.procs && forall r :: r in s.locks ==> s.locks[r] != tid
  }

  lemma ToHolding(states: seq<Sys>, steps: seq<Step>, tid: Tid, p: Presented)
    returns (longer: seq<Sys>, more: seq<Step>)
    requires Run(states, steps) && CanStart(states[|steps|], tid, p)
    ensures Run(longer, more) && steps <= more
    ensures var s := states[|steps|];
      Stands(s, longer[|more|], tid, Rows(s.db, p), Holding(p, SnapOf(s.db, p.jti)))
  {
    longer, more := TakeStep(states, steps, StartRotate(tid, p));
    assert Stands(states[|steps|], longer[|more|], tid, {}, Presenting(p));
    longer, more := TakeStep(longer, more, LockRows(tid));
  }

  lemma ToChecked(states: seq<Sys>, steps: seq<Step>, s: Sys, tid: Tid, rows: set<Row>, p: Presented, snap: Snap,
                  notExpired: bool) returns (longer: seq<Sys>, more: seq<Step>)
    requires Run(states, steps) && Stands(s, states[|steps|], tid, rows, Holding(p, snap))
    ensures Run(longer, more) && steps <= more
    ensures Stands(s, longer[|more|], tid, rows, Checked(p, snap, notExpired && p.jti !in s.db.jwtBlacklist))
  {
    longer, more := TakeStep(states, steps, CheckJwt(tid, notExpired));
  }

  /** A rotation whose rows nobody has locked can be run from start to end at once, and does what it does alone. */
  lemma EveryRotationCanRun(
    states: seq<Sys>, steps: seq<Step>, tid: Tid, p: Presented, notExpired: bool, newJti: Jti)
    returns (longer: seq<Sys>, more: seq<Step>)
    requires Run(states, steps) && CanStart(states[|steps|], tid, p) && newJti !in states[|steps|].db.tokens
    ensures Run(longer, more) && steps <= more
    ensures var s, s' := states[|steps|], longer[|more|];
      && s'.locks == s.locks && s'.procs == s.procs
      && Wrote(s.db, p, notExpired && p.jti !in s.db.jwtBlacklist, newJti, s'.db)
  {
    var s := states[|steps|];
    var snap, jwtOk := SnapOf(s.db, p.jti), notExpired && p.jti !in s.db.jwtBlacklist;
    longer, more := ToHolding(states, steps, tid, p);
    longer, more := ToChecked(longer, more, s, tid, Rows(s.db, p), p, snap, notExpired);
    RotationWrites(s.db, p, jwtOk, newJti);
    CommitLeavesNothing(s, longer[|more|], tid, Rows(s.db, p), p, snap, jwtOk, newJti);
    longer, more := TakeStep(longer, more, CommitRotate(tid, newJti));
  }

  lemma CommitLeavesNothing(
    s: Sys, s': Sys, tid: Tid, rows: set<Row>, p: Presented, snap: Snap, jwtOk: bool, newJti: Jti)
    requires Stands(s, s', tid, rows, Checked(p, snap, jwtOk)) && p.jti in s.db.tokens && newJti !in s.db.tokens
    requires rows !! s.locks.Keys && tid !in s.procs && forall r :: r in s.locks ==> s.locks[r] != tid
    ensures Enabled(s', CommitRotate(tid, newJti))
    ensures var end := Next(s', CommitRotate(tid, newJti));
      && end.locks == s.locks && end.procs == s.procs
      && end.db == Rotated(s.db, p, snap.family, Decide(p, snap, jwtOk), newJti)
  {
    var end := Next(s', CommitRotate(tid, newJti));
    assert end.locks == s.locks;
  }
}
