/** What holds of every run of rotations, revocations and authentications. */
module DeviceTheorems {
  import opened DeviceModel
  import opened DeviceProtocol

  /** At every committed state a family has at most one live token, and it is the last one issued. */
  lemma OneLiveTokenPerFamily(states: seq<Sys>, steps: seq<Step>, k: nat, live: Jti, other: Jti)
    requires Run(states, steps) && k < |states|
    requires var tokens := states[k].db.tokens;
      live in tokens && other in tokens && live != other && tokens[live].family == tokens[other].family
      && tokens[live].Live()
    ensures !states[k].db.tokens[other].Live()
    ensures states[k].db.tokens[other].serial < states[k].db.tokens[live].serial
  {
    RunIsCoherent(states, steps, k);
    var db := states[k].db;
    assert Earlier(db, other, live) || Earlier(db, live, other);
  }

  lemma RotationHardens(db: Db, p: Presented, decision: Decision, newJti: Jti)
    requires Linked(db) && RowFound(db, p) && newJti !in db.tokens
    ensures Hardens(db, Rotated(db, p, SnapOf(db, p.jti).family, decision, newJti))
  {
  }

  lemma StatementHardens(s: Sys, step: Step)
    requires Enabled(s, step) && SingleStatement(step)
    ensures Hardens(s.db, Next(s, step).db)
  {
  }

  lemma ReadsWriteNothing(s: Sys, step: Step)
    requires Enabled(s, step) && !SingleStatement(step) && !step.CommitRotate?
    ensures Next(s, step).db == s.db
  {
  }

  lemma StepHardens(s: Sys, step: Step)
    requires Coherent(s) && Enabled(s, step)
    ensures Hardens(s.db, Next(s, step).db)
  {
    if step.CommitRotate? {
      CommitIsAtomic(s, step.tid, step.newJti);
      RotationHardens(s.db, s.procs[step.tid].p, DecisionOf(s.procs[step.tid]), step.newJti);
    } else if SingleStatement(step) {
      StatementHardens(s, step);
    } else {
      ReadsWriteNothing(s, step);
    }
  }

  lemma {:induction false} RunHardens(states: seq<Sys>, steps: seq<Step>, j: nat, k: nat)
    requires Run(states, steps) && j <= k < |states|
    ensures Hardens(states[j].db, states[k].db)
    decreases k - j
  {
    if j < k {
      RunIsCoherent(states, steps, j);
      StepHardens(states[j], steps[j]);
      RunHardens(states, steps, j + 1, k);
    }
  }

  // ---------------------------------------------------------------- single use

  /** The step commits a rotation of this token that yields a new pair. */
  ghost predicate Mints(s: Sys, step: Step, jti: Jti) {
    && Enabled(s, step)
    && step.CommitRotate?
    && s.procs[step.tid].p.jti == jti
    && DecisionOf(s.procs[step.tid]) == Mint
  }

  /** Over a whole run each token yields a new pair at most once, however often it is presented. */
  lemma EachTokenMintsOnce(states: seq<Sys>, steps: seq<Step>, j: nat, k: nat, jti: Jti)
    requires Run(states, steps) && j <= k < |steps|
    requires Mints(states[j], steps[j], jti) && Mints(states[k], steps[k], jti)
    ensures j == k
  {
    RunIsCoherent(states, steps, j);
    RunIsCoherent(states, steps, k);
    CommitIsAtomic(states[j], steps[j].tid, steps[j].newJti);
    CommitIsAtomic(states[k], steps[k].tid, steps[k].newJti);
    if j < k {
      assert states[j + 1].db.tokens[jti].rotated;
      RunHardens(states, steps, j + 1, k);
    }
  }

  // ---------------------------------------------------------------- revocation is final

  /**
   The first write of `revoke_device_grant` on the grant, or the commit of a refused rotation on one of its
   families: the token presented was spent, or blacklisted in either table, or its user or grant was closed.
   */
  ghost predicate Fatal(s: Sys, step: Step, g: GrantId) {
    && Enabled(s, step)
    && g in s.db.grants
    && match step
       case WriteGrant(tid) => s.procs[tid].grant == g
       case CommitRotate(tid, _) =>
         && RowFound(s.db, s.procs[tid].p) && Linked(s.db)
         && DecisionOf(s.procs[tid]) != Mint
         && SnapOf(s.db, s.procs[tid].p.jti).family.grant == g
       case _ => false
  }

  lemma FatalStepRevokes(s: Sys, step: Step, g: GrantId)
    requires Coherent(s) && Fatal(s, step, g)
    ensures g in Next(s, step).db.grants && !Next(s, step).db.grants[g].active
  {
    if step.CommitRotate? { CommitIsAtomic(s, step.tid, step.newJti); }
  }

  /** A token that is spent or blacklisted in either table is refused, as reuse unless user or grant is closed. */
  lemma SpentOrBlacklistedIsRefused(s: Sys, tid: Tid, newJti: Jti)
    requires Coherent(s) && Enabled(s, CommitRotate(tid, newJti))
    requires var row := s.db.tokens[s.procs[tid].p.jti]; row.rotated || row.blacklisted || !s.procs[tid].jwtOk
    ensures DecisionOf(s.procs[tid]) != Mint
    ensures var row := s.db.tokens[s.procs[tid].p.jti];
      row.rotated || row.blacklisted ==> DecisionOf(s.procs[tid]) == Reuse
  {
    CommitIsAtomic(s, tid, newJti);
  }

  /** The process presents this token, and the JWT library has accepted it. */
  predicate PassedCheck(s: Sys, tid: Tid, jti: Jti) {
    tid in s.procs && s.procs[tid].Checked? && s.procs[tid].p.jti == jti && s.procs[tid].jwtOk
  }

  lemma BlacklistedPassesNoCheck(s: Sys, step: Step, tid: Tid, jti: Jti)
    requires Enabled(s, step) && jti in s.db.jwtBlacklist && !PassedCheck(s, tid, jti)
    ensures !PassedCheck(Next(s, step), tid, jti)
  {
  }

  lemma {:induction false} LateChecksFail(
    states: seq<Sys>, steps: seq<Step>, j: nat, k: nat, tid: Tid, jti: Jti)
    requires Run(states, steps) && j <= k < |states|
    requires jti in states[j].db.jwtBlacklist && !PassedCheck(states[j], tid, jti)
    ensures !PassedCheck(states[k], tid, jti)
    decreases k
  {
    if j < k {
      LateChecksFail(states, steps, j, k - 1, tid, jti);
      RunHardens(states, steps, j, k - 1);
      BlacklistedPassesNoCheck(states[k - 1], steps[k - 1], tid, jti);
    }
  }

  /** Once a token is on the JWT blacklist, only a process that had passed the check before can mint from it. */
  lemma BlacklistedMintsNothing(states: seq<Sys>, steps: seq<Step>, j: nat, k: nat, jti: Jti)
    requires Run(states, steps) && j <= k < |steps| && steps[k].CommitRotate?
    requires jti in states[j].db.jwtBlacklist && !PassedCheck(states[j], steps[k].tid, jti)
    ensures !Mints(states[k], steps[k], jti)
  {
    LateChecksFail(states, steps, j, k, steps[k].tid, jti);
  }

  /** A refused rotation takes the whole family with it and closes the grant, and the caller gets nothing. */
  lemma RefusedCommitTakesTheFamily(s: Sys, tid: Tid, newJti: Jti)
    requires Coherent(s) && Enabled(s, CommitRotate(tid, newJti)) && DecisionOf(s.procs[tid]) != Mint
    ensures var p := s.procs[tid].p; var db := Next(s, CommitRotate(tid, newJti)).db;
      && p.family in s.db.families
      && db.tokens.Keys == s.db.tokens.Keys
      && db.families == s.db.families[p.family := s.db.families[p.family].(revoked := true)]
      && s.db.families[p.family].grant in db.grants && !db.grants[s.db.families[p.family].grant].active
      && forall j :: j in TokensOf(db, p.family) ==> db.tokens[j].blacklisted && j in db.jwtBlacklist
  {
    CommitIsAtomic(s, tid, newJti);
    RefusalTakesTheFamily(s.db, s.procs[tid].p, s.procs[tid].jwtOk, newJti);
  }

  /** Once a fatal step has committed, no rotation on any family of the grant succeeds. */
  lemma NoRotationAfterwards(states: seq<Sys>, steps: seq<Step>, j: nat, k: nat, g: GrantId)
    requires Run(states, steps) && j < k < |steps|
    requires Fatal(states[j], steps[j], g)
    requires steps[k].CommitRotate?
    requires states[k].procs[steps[k].tid].p.family in states[k].db.families
    requires states[k].db.families[states[k].procs[steps[k].tid].p.family].grant == g
    ensures DecisionOf(states[k].procs[steps[k].tid]) != Mint
    ensures states[k + 1].db.tokens.Keys == states[k].db.tokens.Keys
  {
    RunIsCoherent(states, steps, j);
    RunIsCoherent(states, steps, k);
    FatalStepRevokes(states[j], steps[j], g);
    RunHardens(states, steps, j + 1, k);
    ClosedGrantMintsNothing(states[k], steps[k].tid, steps[k].newJti, g);
  }

  lemma ClosedGrantMintsNothing(s: Sys, tid: Tid, newJti: Jti, g: GrantId)
    requires Coherent(s) && Enabled(s, CommitRotate(tid, newJti))
    requires s.procs[tid].p.family in s.db.families && s.db.families[s.procs[tid].p.family].grant == g
    requires g in s.db.grants && !s.db.grants[g].active
    ensures DecisionOf(s.procs[tid]) != Mint
    ensures Next(s, CommitRotate(tid, newJti)).db.tokens.Keys == s.db.tokens.Keys
  {
    CommitIsAtomic(s, tid, newJti);
  }

  /** The process has read the grant while it was open. */
  predicate Convinced(s: Sys, tid: Tid, g: GrantId) {
    tid in s.procs && s.procs[tid].GrantSeen? && s.procs[tid].grant == g && s.procs[tid].grantOk
  }

  /** Once the grant is closed, no step convinces a process that was not convinced before. */
  lemma ConvictionIsOld(s: Sys, step: Step, tid: Tid, g: GrantId)
    requires Enabled(s, step) && g in s.db.grants && !s.db.grants[g].active
    requires Convinced(Next(s, step), tid, g)
    ensures Convinced(s, tid, g) && Next(s, step).procs[tid] == s.procs[tid]
  {
  }

  /** The process was in this very situation in each of the states j, ..., k. */
  ghost predicate Unmoved(states: seq<Sys>, j: nat, k: nat, tid: Tid)
    requires j <= k < |states| && tid in states[k].procs
    decreases k - j
  {
    j < k ==>
      && tid in states[k - 1].procs && states[k - 1].procs[tid] == states[k].procs[tid]
      && Unmoved(states, j, k - 1, tid)
  }

  lemma {:induction false} UnmovedSince(states: seq<Sys>, j: nat, k: nat, tid: Tid)
    requires j <= k < |states| && tid in states[k].procs && Unmoved(states, j, k, tid)
    ensures tid in states[j].procs && states[j].procs[tid] == states[k].procs[tid]
    decreases k - j
  {
    if j < k { UnmovedSince(states, j, k - 1, tid); }
  }

  lemma OneStateBack(states: seq<Sys>, steps: seq<Step>, j: nat, k: nat, g: GrantId, tid: Tid)
    requires Run(states, steps) && j < k < |states|
    requires g in states[j].db.grants && !states[j].db.grants[g].active
    requires Convinced(states[k], tid, g)
    ensures Convinced(states[k - 1], tid, g) && states[k].procs[tid] == states[k - 1].procs[tid]
  {
    RunHardens(states, steps, j, k - 1);
    assert states[k] == Next(states[k - 1], steps[k - 1]);
    ConvictionIsOld(states[k - 1], steps[k - 1], tid, g);
  }

  lemma {:induction false} ConvincedEarlier(
    states: seq<Sys>, steps: seq<Step>, j: nat, k: nat, g: GrantId, tid: Tid)
    requires Run(states, steps) && j <= k < |states|
    requires g in states[j].db.grants && !states[j].db.grants[g].active
    requires Convinced(states[k], tid, g)
    ensures Unmoved(states, j, k, tid)
    decreases k - j
  {
    if j < k {
      OneStateBack(states, steps, j, k, g, tid);
      ConvincedEarlier(states, steps, j, k - 1, g, tid);
    }
  }

  /**
   After a fatal step a request on the grant still authenticates exactly if it had read the grant as open
   before that step, has not moved since, and its family is still open when it reads that.
   */
  lemma AuthenticatesAfterwardsIff(states: seq<Sys>, steps: seq<Step>, j: nat, k: nat, g: GrantId, tid: Tid)
    requires Run(states, steps) && j < k < |states| && Fatal(states[j], steps[j], g)
    requires tid in states[k].procs && states[k].procs[tid].GrantSeen? && states[k].procs[tid].grant == g
    ensures var proc := states[k].procs[tid]; var families := states[k].db.families;
      Authenticates(states[k], tid) <==>
        && Unmoved(states, j + 1, k, tid) && proc.grantOk
        && proc.family in families && families[proc.family] == Family(g, proc.user, false)
  {
    RunIsCoherent(states, steps, j);
    FatalStepRevokes(states[j], steps[j], g);
    if states[k].procs[tid].grantOk { ConvincedEarlier(states, steps, j + 1, k, g, tid); }
  }

  /** In particular no request that reads the grant later authenticates. */
  lemma NoAuthenticationAfterwards(states: seq<Sys>, steps: seq<Step>, j: nat, k: nat, g: GrantId, tid: Tid)
    requires Run(states, steps) && j < k < |states|
    requires Fatal(states[j], steps[j], g)
    requires tid in states[j + 1].procs ==> !states[j + 1].procs[tid].GrantSeen?
    requires tid in states[k].procs && states[k].procs[tid].GrantSeen? && states[k].procs[tid].grant == g
    ensures !Authenticates(states[k], tid)
  {
    AuthenticatesAfterwardsIff(states, steps, j, k, g, tid);
    if Unmoved(states, j + 1, k, tid) { UnmovedSince(states, j + 1, k, tid); }
  }

  /** One step more of a run. */
  lemma OneStepMore(states: seq<Sys>, steps: seq<Step>, step: Step)
    requires Run(states, steps) && Enabled(states[|steps|], step)
    ensures Run(states + [Next(states[|steps|], step)], steps + [step])
  {
  }

  lemma AFamilyExists() returns (states: seq<Sys>, steps: seq<Step>)
    ensures Run(states, steps) && |steps| == 3
    ensures var s := states[3];
      && s.db.users == map[0 := true] && s.db.grants == map[0 := Grant(0, true)]
      && s.db.families == map[0 := Family(0, 0, false)]
      && s.locks == map[] && s.procs == map[]
  {
    states, steps := [INITIAL], [];
    states, steps := TakeStep(states, steps, AddUser(0));
    states, steps := TakeStep(states, steps, NewGrant(0, 0));
    states, steps := TakeStep(states, steps, NewFamily(0, 0, 0, 0));
  }

  /** A user, a grant with one family and token, and an authentication that has read the grant. */
  lemma AGrantIsRead() returns (states: seq<Sys>, steps: seq<Step>)
    ensures Run(states, steps) && |steps| == 5
    ensures var s := states[5];
      && s.db.users == map[0 := true] && s.db.grants == map[0 := Grant(0, true)]
      && s.db.families == map[0 := Family(0, 0, false)]
      && s.locks == map[] && s.procs == map[1 := GrantSeen(0, 0, 0, true)]
  {
    states, steps := AFamilyExists();
    states, steps := TakeStep(states, steps, StartAuth(1, 0, 0, 0));
    states, steps := TakeStep(states, steps, ReadGrant(1));
  }

  lemma TakeStep(states: seq<Sys>, steps: seq<Step>, step: Step) returns (longer: seq<Sys>, more: seq<Step>)
    requires Run(states, steps) && Enabled(states[|steps|], step)
    ensures Run(longer, more) && more == steps + [step] && longer == states + [Next(states[|steps|], step)]
  {
    OneStepMore(states, steps, step);
    longer, more := states + [Next(states[|steps|], step)], steps + [step];
  }

  /** The exception is real: an authentication that read the grant just before its revocation succeeds just after it. */
  lemma EarlyReadStillAuthenticates() returns (states: seq<Sys>, steps: seq<Step>)
    ensures Run(states, steps) && |steps| == 7
    ensures Fatal(states[6], steps[6], 0) && 1 in states[7].procs && states[7].procs[1].GrantSeen?
    ensures Authenticates(states[7], 1)
  {
    states, steps := AGrantIsRead();
    states, steps := TakeStep(states, steps, StartRevoke(2, 0));
    states, steps := TakeStep(states, steps, WriteGrant(2));
  }

  /** After a refused rotation not even an early read of the grant helps, for access tokens of its family. */
  lemma RefusalStopsEarlyReadsToo(states: seq<Sys>, steps: seq<Step>, j: nat, k: nat, tid: Tid)
    requires Run(states, steps) && j < k < |states| && Enabled(states[j], steps[j]) && steps[j].CommitRotate?
    requires DecisionOf(states[j].procs[steps[j].tid]) != Mint
    requires tid in states[k].procs && states[k].procs[tid].GrantSeen?
      && states[k].procs[tid].family == states[j].procs[steps[j].tid].p.family
    ensures !Authenticates(states[k], tid)
  {
    RunIsCoherent(states, steps, j);
    RefusedCommitTakesTheFamily(states[j], steps[j].tid, steps[j].newJti);
    RunHardens(states, steps, j + 1, k);
  }
}
