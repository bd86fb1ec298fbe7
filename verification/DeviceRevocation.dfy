/** What a revocation has achieved when it is over, whatever ran between its statements. */
module DeviceRevocation {
  import opened DeviceModel
  import opened DeviceProtocol
  import DeviceTheorems

  /** The family is revoked, and all its tokens are blacklisted in both tables. */
  ghost predicate Settled(db: Db, f: FamilyId) {
    && f in db.families && db.families[f].revoked
    && forall t :: t in TokensOf(db, f) ==> db.tokens[t].blacklisted && t in db.jwtBlacklist
  }

  predicate PastListing(stage: Stage) {
    stage.AtFamily? || stage.AtTokenList? || stage.AtJwt?
  }

  /** The listed families that the revocation is not done with. */
  function Pending(stage: Stage): set<FamilyId>
    requires PastListing(stage)
  {
    if stage.AtFamily? then stage.rest else stage.rest + {stage.family}
  }

  /** How far the revocation of the listed families has come. */
  ghost predicate Progress(s: Sys, tid: Tid, listed: set<FamilyId>) {
    && IsRevoking(s, tid) && PastListing(s.procs[tid].stage)
    && var stage := s.procs[tid].stage;
    && Pending(stage) <= listed <= s.db.families.Keys
    && (forall f :: f in listed - Pending(stage) ==> Settled(s.db, f))
    && (!stage.AtFamily? ==> stage.family !in stage.rest && s.db.families[stage.family].revoked)
    && (stage.AtJwt? ==>
         stage.jtis == TokensOf(s.db, stage.family) && stage.left <= stage.jtis
         && stage.jtis - stage.left <= s.db.jwtBlacklist)
  }

  predicate Works(step: Step, tid: Tid) {
    && (step.WriteFamily? || step.ListTokens? || step.BlacklistOne? || step.WriteTokens?)
    && step.tid == tid
  }

  /** A revoked family gets no more tokens. */
  lemma RevokedGetsNoTokens(s: Sys, step: Step, f: FamilyId)
    requires Coherent(s) && Enabled(s, step) && f in s.db.families && s.db.families[f].revoked
    ensures TokensOf(Next(s, step).db, f) == TokensOf(s.db, f)
  {
    if step.CommitRotate? {
      RotationGivesNoTokens(s, step.tid, step.newJti, f);
    } else if SingleStatement(step) {
      StatementGivesNoTokens(s, step, f);
    } else {
      DeviceTheorems.ReadsWriteNothing(s, step);
    }
  }

  lemma RotationGivesNoTokens(s: Sys, tid: Tid, newJti: Jti, f: FamilyId)
    requires Coherent(s) && Enabled(s, CommitRotate(tid, newJti)) && f in s.db.families && s.db.families[f].revoked
    ensures TokensOf(Next(s, CommitRotate(tid, newJti)).db, f) == TokensOf(s.db, f)
  {
    CommitIsAtomic(s, tid, newJti);
    if DecisionOf(s.procs[tid]) == Mint {
      assert s.procs[tid].p.family != f;
    }
  }

  lemma StatementGivesNoTokens(s: Sys, step: Step, f: FamilyId)
    requires Linked(s.db) && Enabled(s, step) && SingleStatement(step) && f in s.db.families
    ensures TokensOf(Next(s, step).db, f) == TokensOf(s.db, f)
  {
    if !step.NewFamily? && !step.WriteTokens? { assert Next(s, step).db.tokens == s.db.tokens; }
  }

  lemma SettledStays(s: Sys, step: Step, f: FamilyId)
    requires Coherent(s) && Enabled(s, step) && Settled(s.db, f)
    ensures Settled(Next(s, step).db, f)
  {
    DeviceTheorems.StepHardens(s, step);
    RevokedGetsNoTokens(s, step, f);
  }

  /** No other process moves a revocation. */
  lemma OthersLeaveRevoker(s: Sys, step: Step, tid: Tid)
    requires Enabled(s, step) && IsRevoking(s, tid) && PastListing(s.procs[tid].stage)
    requires !Works(step, tid) && step != Quit(tid)
    ensures tid in Next(s, step).procs && Next(s, step).procs[tid] == s.procs[tid]
  {
  }

  lemma OthersKeepProgress(s: Sys, step: Step, tid: Tid, listed: set<FamilyId>)
    requires Coherent(s) && Enabled(s, step) && Progress(s, tid, listed) && !Works(step, tid) && step != Quit(tid)
    ensures Progress(Next(s, step), tid, listed)
  {
    var stage := s.procs[tid].stage;
    OthersLeaveRevoker(s, step, tid);
    DeviceTheorems.StepHardens(s, step);
    forall f | f in listed - Pending(stage) ensures Settled(Next(s, step).db, f) { SettledStays(s, step, f); }
    if stage.AtJwt? { RevokedGetsNoTokens(s, step, stage.family); }
  }

  /** The last statement on a family settles it. */
  lemma MarkingSettles(s: Sys, tid: Tid, listed: set<FamilyId>)
    requires Enabled(s, WriteTokens(tid)) && Progress(s, tid, listed)
    ensures Settled(Next(s, WriteTokens(tid)).db, s.procs[tid].stage.family)
  {
  }

  lemma WorkKeepsProgress(s: Sys, step: Step, tid: Tid, listed: set<FamilyId>)
    requires Coherent(s) && Enabled(s, step) && Progress(s, tid, listed) && Works(step, tid)
    ensures Progress(Next(s, step), tid, listed)
  {
    var stage := s.procs[tid].stage;
    DeviceTheorems.StepHardens(s, step);
    forall f | f in listed - Pending(stage) ensures Settled(Next(s, step).db, f) { SettledStays(s, step, f); }
    if step.WriteTokens? { MarkingSettles(s, tid, listed); }
  }

  ghost predicate Undisturbed(steps: seq<Step>, j: nat, k: nat, tid: Tid)
    requires k <= |steps|
  {
    forall i :: j < i < k ==> steps[i] != Quit(tid)
  }

  /** The families of the grant that the revocation finds open. */
  function Listing(s: Sys, tid: Tid): set<FamilyId>
    requires IsRevoking(s, tid)
  {
    OpenFamilies(s.db, s.procs[tid].grant)
  }

  lemma {:induction false} RevocationMakesProgress(states: seq<Sys>, steps: seq<Step>, j: nat, k: nat, tid: Tid)
    requires Run(states, steps) && j < k < |states| && steps[j] == ListFamilies(tid) && Undisturbed(steps, j, k, tid)
    ensures Progress(states[k], tid, Listing(states[j], tid))
    decreases k
  {
    if k == j + 1 {
      ListingStartsProgress(states[j], tid);
    } else {
      RevocationMakesProgress(states, steps, j, k - 1, tid);
      RunIsCoherent(states, steps, k - 1);
      StepKeepsProgress(states[k - 1], steps[k - 1], tid, Listing(states[j], tid));
    }
  }

  lemma ListingStartsProgress(s: Sys, tid: Tid)
    requires Enabled(s, ListFamilies(tid))
    ensures Progress(Next(s, ListFamilies(tid)), tid, Listing(s, tid))
  {
  }

  lemma StepKeepsProgress(s: Sys, step: Step, tid: Tid, listed: set<FamilyId>)
    requires Coherent(s) && Enabled(s, step) && Progress(s, tid, listed) && step != Quit(tid)
    ensures Progress(Next(s, step), tid, listed)
  {
    if Works(step, tid) { WorkKeepsProgress(s, step, tid, listed); } else { OthersKeepProgress(s, step, tid, listed); }
  }

  lemma {:induction false} SettledForever(states: seq<Sys>, steps: seq<Step>, k: nat, m: nat, f: FamilyId)
    requires Run(states, steps) && k <= m < |states| && Settled(states[k].db, f)
    ensures Settled(states[m].db, f)
    decreases m
  {
    if k < m {
      SettledForever(states, steps, k, m - 1, f);
      RunIsCoherent(states, steps, m - 1);
      SettledStays(states[m - 1], steps[m - 1], f);
    }
  }

  /**
   When a revocation that was not cut short has nothing left to do, every family it had listed is revoked
   with all its tokens blacklisted in both tables, from then on, whatever ran meanwhile.
   */
  lemma FinishedRevocationSettlesAll(
    states: seq<Sys>, steps: seq<Step>, j: nat, k: nat, m: nat, tid: Tid, f: FamilyId)
    requires Run(states, steps) && j < k <= m < |states|
    requires steps[j] == ListFamilies(tid) && Undisturbed(steps, j, k, tid)
    requires IsRevoking(states[k], tid) && states[k].procs[tid].stage == AtFamily({})
    requires f in states[j].db.families && !states[j].db.families[f].revoked
    requires IsRevoking(states[j], tid) && states[j].db.families[f].grant == states[j].procs[tid].grant
    ensures Settled(states[m].db, f)
  {
    RevocationMakesProgress(states, steps, j, k, tid);
    SettledForever(states, steps, k, m, f);
  }

  /** A family of the grant that the revocation works on, open when it listed them. */
  predicate ItsFamily(s: Sys, tid: Tid, f: FamilyId) {
    && tid in s.procs && s.procs[tid].Revoking?
    && f in s.db.families && s.db.families[f].grant == s.procs[tid].grant && !s.db.families[f].revoked
  }

  /** Rows and blacklistings in which the two databases differ belong to these families. */
  ghost predicate DiffersOnlyIn(a: Db, b: Db, fs: set<FamilyId>) {
    && b.users == a.users && b.grants == a.grants
    && b.families.Keys == a.families.Keys && b.tokens.Keys == a.tokens.Keys
    && (forall f :: f in a.families && f !in fs ==> b.families[f] == a.families[f])
    && (forall t :: t in a.tokens && a.tokens[t].family !in fs ==> b.tokens[t] == a.tokens[t])
    && forall t :: t in b.jwtBlacklist - a.jwtBlacklist ==> t in a.tokens && a.tokens[t].family in fs
  }

  lemma WorkStaysInside(s: Sys, step: Step, tid: Tid, listed: set<FamilyId>)
    requires Enabled(s, step) && Progress(s, tid, listed) && Works(step, tid)
    ensures DiffersOnlyIn(s.db, Next(s, step).db, listed)
  {
  }

  /** A revocation writes only rows of the families of its grant that were open when it listed them. */
  lemma RevocationTouchesItsFamiliesOnly(states: seq<Sys>, steps: seq<Step>, j: nat, k: nat, tid: Tid)
    requires Run(states, steps) && j < k < |steps| && steps[j] == ListFamilies(tid) && Undisturbed(steps, j, k, tid)
    requires Works(steps[k], tid)
    ensures var its := set f | f in states[j].db.families && ItsFamily(states[j], tid, f);
      DiffersOnlyIn(states[k].db, states[k + 1].db, its)
  {
    assert Leads(states[j], steps[j], states[j + 1]) && Leads(states[k], steps[k], states[k + 1]);
    RevocationMakesProgress(states, steps, j, k, tid);
    WorkStaysInside(states[k], steps[k], tid, Listing(states[j], tid));
    ListingIs(states[j], tid);
  }

  lemma ListingIs(s: Sys, tid: Tid)
    requires IsRevoking(s, tid)
    ensures Listing(s, tid) == set f | f in s.db.families && ItsFamily(s, tid, f)
  {
  }

  // ---------------------------------------------------------------- it comes to an end

  function StageRank(stage: Stage): nat {
    if stage.AtFamily? then 2 else if stage.AtTokenList? then 1 else 0
  }

  /** Fewer families to do, or the current one further on, or fewer of its tokens left. */
  predicate Shorter(a: Stage, b: Stage)
    requires PastListing(a) && PastListing(b)
  {
    || |Pending(a)| < |Pending(b)|
    || (Pending(a) == Pending(b) && StageRank(a) < StageRank(b))
    || (Pending(a) == Pending(b) && a.AtJwt? && b.AtJwt? && |a.left| < |b.left|)
  }

  lemma OneFewer<T>(s: set<T>, x: T)
    requires x in s
    ensures |s - {x}| < |s|
  {
    assert s == (s - {x}) + {x};
  }

  /** Each statement of a revocation brings it closer to its end. */
  lemma WorkShortens(s: Sys, step: Step, tid: Tid, listed: set<FamilyId>)
    requires Enabled(s, step) && Progress(s, tid, listed) && Works(step, tid)
    ensures IsRevoking(Next(s, step), tid) && PastListing(Next(s, step).procs[tid].stage)
    ensures Shorter(Next(s, step).procs[tid].stage, s.procs[tid].stage)
  {
    var stage := s.procs[tid].stage;
    if step.BlacklistOne? { OneFewer(stage.left, step.jti); }
    if step.WriteTokens? { OneFewer(Pending(stage), stage.family); }
    if step.WriteFamily? { assert stage.rest - {step.f} + {step.f} == stage.rest; }
  }

  /** And until then it has a next statement, which waits for nothing but row locks. */
  lemma WorkGoesOn(s: Sys, tid: Tid, listed: set<FamilyId>) returns (step: Step)
    requires Progress(s, tid, listed) && s.procs[tid].stage != AtFamily({})
    ensures Works(step, tid) && Enabled(s.(locks := map[]), step)
  {
    var stage := s.procs[tid].stage;
    match stage
    case AtFamily(rest) =>
      var f :| f in rest;
      step := WriteFamily(tid, f);
    case AtTokenList(_, _) => step := ListTokens(tid);
    case AtJwt(_, _, _, left) =>
      if left == {} {
        step := WriteTokens(tid);
      } else {
        var jti :| jti in left;
        step := BlacklistOne(tid, jti);
      }
  }
}
