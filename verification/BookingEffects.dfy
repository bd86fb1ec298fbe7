/** Which error a booking call gives and what it writes, read off the columns that it looks at. */
module BookingEffects {
  import opened Options
  import opened BookingModel
  import opened BookingHistory
  import opened BookingDesk
  import BookingProtocol

  // ---------------------------------------------------------------- which check fails

  predicate RuleFails(rule: Rule, s: Space) {
    match rule
    case MinPositive => s.minMinutes <= 0
    case MaxPositive => s.maxMinutes <= 0
    case MaxBelowMin => s.maxMinutes < s.minMinutes
    case MinCap => s.minMinutes > 43_200
    case MaxCap => s.maxMinutes > 43_200
    case LeadNegative => s.leadMinutes < 0
    case LeadCap => s.leadMinutes > 525_600
    case AdvancePositive => s.advanceDays <= 0
    case AdvanceCap => s.advanceDays > 3650
    case ModeChoice => s.mode != Instant && s.mode != Approve
  }

  /** A request for [startsAt, endsAt) fails the check that the error names. */
  ghost predicate RequestFails(
    error: Error, db: Db, space: SpaceId, startsAt: Time, endsAt: Time, verdicts: Verdicts, now: Time)
  {
    match error
    case WriteFenced => !verdicts.fence
    case BadFields => !verdicts.fields
    case BadAnswers => !verdicts.answers
    case QuotaExceeded => !verdicts.quota
    case NotFound => space !in db.spaces
    case EndsNotAfterStart => endsAt <= startsAt
    case InThePast => endsAt <= now
    case Inactive => space in db.spaces && !db.spaces[space].active
    case TooShort => space in db.spaces && endsAt < startsAt + db.spaces[space].minMinutes * 60_000_000
    case TooLong => space in db.spaces && startsAt + db.spaces[space].maxMinutes * 60_000_000 < endsAt
    case TooSoon => space in db.spaces && startsAt < now + db.spaces[space].leadMinutes * 60_000_000
    case TooFar => space in db.spaces && now + db.spaces[space].advanceDays * 86_400_000_000 < startsAt
    case Conflict =>
      space in db.spaces && db.spaces[space].mode == Instant && !Free(db.bookings, space, startsAt, endsAt, None)
    case _ => false
  }

  /** The row that the call names is not there to be moved on from the status. */
  predicate RowFails(error: Error, db: Db, space: SpaceId, id: BookingId, from: Status) {
    match error
    case NotFound => space !in db.spaces || id !in db.bookings
    case Moved => space in db.spaces && id in db.bookings && db.bookings[id].space != space
    case BadTransition(status) => id in db.bookings && db.bookings[id].status == status && status != from
    case _ => false
  }

  /** The call fails the check that the error names. */
  ghost predicate Fails(error: Error, db: Db, op: Op, now: Time) {
    match op
    case CreateBooking(space, startsAt, endsAt, verdicts) =>
      RequestFails(error, db, space, startsAt, endsAt, verdicts, now)
    case ApproveBooking(space, id) =>
      || RowFails(error, db, space, id, Pending)
      || (error == Inactive && space in db.spaces && !db.spaces[space].active)
      || (error == Ended && id in db.bookings && db.bookings[id].endsAt <= now)
      || (error == Conflict && id in db.bookings
          && !Free(db.bookings, space, db.bookings[id].startsAt, db.bookings[id].endsAt, Some(id)))
    case RejectBooking(space, id) => RowFails(error, db, space, id, Pending)
    case CancelBooking(space, id) => RowFails(error, db, space, id, Confirmed)
    case CompleteBooking(space, id) => RowFails(error, db, space, id, Confirmed) || NotOver(error, db, id, now)
    case MarkNoShow(space, id) => RowFails(error, db, space, id, Confirmed) || NotOver(error, db, id, now)
    case UpdateRules(space, changes) =>
      || (error == UnknownFields(changes.unknown) && changes.unknown != {})
      || SpaceFails(error, db, space)
      || (error.BadRule? && space in db.spaces
          && exists s :: RulesSet(changes, db.spaces[space], s) && RuleFails(error.rule, s))
    case EditSpace(space, accepted) => SpaceFails(error, db, space) || (error == BadFields && !accepted)
    case DeactivateSpace(space) => SpaceFails(error, db, space)
  }

  predicate NotOver(error: Error, db: Db, id: BookingId, now: Time) {
    error == NotEnded && id in db.bookings && now < db.bookings[id].endsAt
  }

  predicate SpaceFails(error: Error, db: Db, space: SpaceId) {
    match error
    case NotFound => space !in db.spaces
    case Inactive => space in db.spaces && !db.spaces[space].active
    case _ => false
  }

  /** The order in which the checks are made. */
  function Position(error: Error): nat {
    match error
    case WriteFenced => 0
    case UnknownFields(_) => 0
    case NotFound => 1
    case Moved => 2
    case BadTransition(_) => 3
    case Inactive => 4
    case BadFields => 5
    case EndsNotAfterStart => 6
    case TooShort => 7
    case TooLong => 8
    case TooSoon => 9
    case TooFar => 10
    case InThePast => 11
    case Ended => 11
    case NotEnded => 11
    case BadAnswers => 12
    case QuotaExceeded => 13
    case Conflict => 14
    case BadRule(rule) => 15 + RulePosition(rule)
  }

  function RulePosition(rule: Rule): nat {
    match rule
    case MinPositive => 0
    case MaxPositive => 1
    case MaxBelowMin => 2
    case MinCap => 3
    case MaxCap => 4
    case LeadNegative => 5
    case LeadCap => 6
    case AdvancePositive => 7
    case AdvanceCap => 8
    case ModeChoice => 9
  }

  /** The plan refuses with the first check that fails, and goes ahead if none does. */
  ghost predicate FirstFailure(plan: Plan, db: Db, op: Op, now: Time) {
    if plan.Refuse? then
      && Fails(plan.error, db, op, now)
      && forall e :: Fails(e, db, op, now) ==> Position(plan.error) <= Position(e)
    else forall e :: !Fails(e, db, op, now)
  }

  lemma CreateFailsFirst(db: Db, op: Op, now: Time)
    requires op.CreateBooking?
    ensures FirstFailure(Decide(op, Look(db, op, now)), db, op, now)
  {
    FreeMeansNoOverlap(db.bookings, op.space, op.startsAt, op.endsAt, None);
  }

  lemma ApproveFailsFirst(db: Db, op: Op, now: Time)
    requires op.ApproveBooking?
    ensures FirstFailure(Decide(op, Look(db, op, now)), db, op, now)
  {
    if op.booking in db.bookings {
      var row := db.bookings[op.booking];
      FreeMeansNoOverlap(db.bookings, op.space, row.startsAt, row.endsAt, Some(op.booking));
    }
  }

  lemma BrokenRuleIsFirst(s: Space)
    ensures var broken := BrokenRule(s);
      if broken.Some? then RuleFails(broken.value, s)
        && forall r :: RuleFails(r, s) ==> RulePosition(broken.value) <= RulePosition(r)
      else forall r :: !RuleFails(r, s)
  {
  }

  lemma RulesFailFirst(db: Db, op: Op, now: Time)
    requires op.UpdateRules?
    ensures FirstFailure(Decide(op, Look(db, op, now)), db, op, now)
  {
    if op.space in db.spaces {
      var before := db.spaces[op.space];
      var after := ApplyChanges(before, op.changes);
      forall s ensures RulesSet(op.changes, before, s) <==> s == after { RulesSetIs(op.changes, before, s); }
      BrokenRuleIsFirst(after);
    }
  }

  lemma StatusChangesFailFirst(db: Db, op: Op, now: Time)
    requires op.RejectBooking? || op.CancelBooking? || op.CompleteBooking? || op.MarkNoShow?
    ensures FirstFailure(Decide(op, Look(db, op, now)), db, op, now)
  {
  }

  /** A call is refused exactly when one of its checks fails, and then with the first that does. */
  lemma FirstFailedCheckIsRaised(db: Db, op: Op, now: Time, newId: BookingId)
    ensures var plan := Decide(op, Look(db, op, now));
      FirstFailure(plan, db, op, now) && forall e :: plan == Refuse(e) <==> Reply(plan, newId) == Raised(e)
  {
    match op
    case CreateBooking(_, _, _, _) => CreateFailsFirst(db, op, now);
    case ApproveBooking(_, _) => ApproveFailsFirst(db, op, now);
    case UpdateRules(_, _) => RulesFailFirst(db, op, now);
    case EditSpace(_, _) =>
    case DeactivateSpace(_) =>
    case _ => StatusChangesFailFirst(db, op, now);
  }

  // ---------------------------------------------------------------- what is written

  /** The booking moves from one status to the other, and the log says so. */
  predicate Moves(db: Db, db': Db, id: BookingId, from: Status, to: Status) {
    && id in db.bookings && db.bookings[id].status == from
    && db' == Db(db.spaces, db.bookings[id := db.bookings[id].(status := to)], db.log + [Changed(id, from, to)])
  }

  /** The tables after a call that was not refused. */
  ghost predicate Wrote(db: Db, op: Op, newId: BookingId, db': Db) {
    match op
    case CreateBooking(space, startsAt, endsAt, _) =>
      && space in db.spaces
      && var status := if db.spaces[space].mode == Instant then Confirmed else Pending;
         db' == Db(db.spaces, db.bookings[newId := Booking(space, startsAt, endsAt, status)],
                   db.log + [Created(newId, status)])
    case ApproveBooking(_, id) => Moves(db, db', id, Pending, Confirmed)
    case RejectBooking(_, id) => Moves(db, db', id, Pending, Rejected)
    case CancelBooking(_, id) => Moves(db, db', id, Confirmed, Cancelled)
    case CompleteBooking(_, id) => Moves(db, db', id, Confirmed, Completed)
    case MarkNoShow(_, id) => Moves(db, db', id, Confirmed, NoShow)
    case UpdateRules(space, changes) =>
      && space in db.spaces && space in db'.spaces && RulesSet(changes, db.spaces[space], db'.spaces[space])
      && db' == Db(db.spaces[space := db'.spaces[space]], db.bookings, db.log + [SpaceEvent(space)])
    case EditSpace(space, _) => db' == db.(log := db.log + [SpaceEvent(space)])
    case DeactivateSpace(space) =>
      && space in db.spaces
      && db' == Db(db.spaces[space := db.spaces[space].(active := false)], db.bookings, db.log + [SpaceEvent(space)])
  }

  /** The tables change exactly when no check fails, and then as the call asks. */
  lemma CallsWriteWhatTheyName(db: Db, op: Op, now: Time, newId: BookingId)
    ensures var db' := Serve(db, op, now, newId);
      if forall e :: !Fails(e, db, op, now) then Wrote(db, op, newId, db') else db' == db
  {
    FirstFailedCheckIsRaised(db, op, now, newId);
    if op.UpdateRules? && op.space in db.spaces {
      RulesSetIs(op.changes, db.spaces[op.space], ApplyChanges(db.spaces[op.space], op.changes));
    }
  }

  /** The transaction is running in all states after i up to k. */
  ghost predicate Lives(states: seq<BookingProtocol.Sys>, i: nat, k: nat, tid: BookingProtocol.Tid)
    requires k < |states|
  {
    forall n :: i < n <= k ==> tid in states[n].txs
  }

  lemma StepKeepsCall(s: BookingProtocol.Sys, step: BookingProtocol.Step, tid: BookingProtocol.Tid)
    requires BookingProtocol.Enabled(s, step) && tid in s.txs && tid in BookingProtocol.Next(s, step).txs
    ensures var tx, tx' := s.txs[tid], BookingProtocol.Next(s, step).txs[tid];
      && tx'.op == tx.op && s.clock <= BookingProtocol.Next(s, step).clock
      && (ClockIsRead(tx'.phase) ==> tx'.view.now == if ClockIsRead(tx.phase) then tx.view.now else s.clock)
  {
  }

  predicate ClockIsRead(phase: BookingProtocol.Phase) {
    phase == BookingProtocol.ClockRead || phase == BookingProtocol.Queried
  }

  /** A transaction keeps its call, and its clock reading is from its own time. */
  lemma {:induction false} CallIsKept(
    states: seq<BookingProtocol.Sys>, steps: seq<BookingProtocol.Step>, i: nat, k: nat, tid: BookingProtocol.Tid,
    op: Op)
    requires BookingProtocol.Run(states, steps) && i < k < |states| && Lives(states, i, k, tid)
    requires steps[i] == BookingProtocol.Begin(tid, op)
    ensures states[k].txs[tid].op == op && states[i].clock <= states[k].clock
    ensures ClockIsRead(states[k].txs[tid].phase) ==>
      states[i].clock <= states[k].txs[tid].view.now <= states[k].clock
    decreases k
  {
    assert BookingProtocol.Leads(states[k - 1], steps[k - 1], states[k]);
    if i + 1 < k {
      CallIsKept(states, steps, i, k - 1, tid, op);
      StepKeepsCall(states[k - 1], steps[k - 1], tid);
    }
  }

  /**
   So does a transaction that began at i with this call and commits at k, on the tables as they are then and at
   some time in between, however transactions interleave.
   */
  lemma CommitsWriteWhatTheyName(
    states: seq<BookingProtocol.Sys>, steps: seq<BookingProtocol.Step>, i: nat, k: nat, tid: BookingProtocol.Tid,
    op: Op, newId: BookingId) returns (now: Time)
    requires BookingProtocol.Run(states, steps) && i < k < |steps| && Lives(states, i, k, tid)
    requires steps[i] == BookingProtocol.Begin(tid, op) && steps[k] == BookingProtocol.CommitTx(tid, newId)
    ensures states[i].clock <= now <= states[k].clock
    ensures var db, db' := states[k].world.db, states[k + 1].world.db;
      if forall e :: !Fails(e, db, op, now) then Wrote(db, op, newId, db') else db' == db
  {
    CallIsKept(states, steps, i, k, tid, op);
    now := states[k].txs[tid].view.now;
    BookingProtocol.RunIsCoherent(states, steps, k);
    assert BookingProtocol.Leads(states[k], steps[k], states[k + 1]);
    CommitServes(states[k], tid, newId);
    CallsWriteWhatTheyName(states[k].world.db, op, now, newId);
  }

  lemma CommitServes(s: BookingProtocol.Sys, tid: BookingProtocol.Tid, newId: BookingId)
    requires BookingProtocol.Coherent(s) && BookingProtocol.Enabled(s, BookingProtocol.CommitTx(tid, newId))
    ensures var tx := s.txs[tid];
      BookingProtocol.Next(s, BookingProtocol.CommitTx(tid, newId)).world.db
        == Serve(s.world.db, tx.op, tx.view.now, newId)
  {
    BookingProtocol.CommitIsAtomic(s, tid, newId);
    ExecServes(s.world, s.txs[tid].op, s.txs[tid].view.now, newId);
  }

  lemma ExecServes(w: World, op: Op, now: Time, newId: BookingId)
    ensures Exec(w, op, now, newId).db == Serve(w.db, op, now, newId)
  {
  }

  /** Every lock on a space is held by a transaction on it that is running. */
  predicate LocksHaveOwners(s: BookingProtocol.Sys) {
    forall k :: k in s.locks ==> s.locks[k] in s.txs && s.txs[s.locks[k]].op.space == k
  }

  lemma StepKeepsOwners(s: BookingProtocol.Sys, step: BookingProtocol.Step)
    requires LocksHaveOwners(s) && BookingProtocol.Enabled(s, step)
    ensures LocksHaveOwners(BookingProtocol.Next(s, step))
  {
  }

  /** No lock outlives its transaction. */
  lemma {:induction false} NoLockIsLeft(
    states: seq<BookingProtocol.Sys>, steps: seq<BookingProtocol.Step>, k: nat)
    requires BookingProtocol.Run(states, steps) && k < |states|
    ensures LocksHaveOwners(states[k])
  {
    if k > 0 {
      NoLockIsLeft(states, steps, k - 1);
      assert BookingProtocol.Leads(states[k - 1], steps[k - 1], states[k]);
      StepKeepsOwners(states[k - 1], steps[k - 1]);
    }
  }

  // ---------------------------------------------------------------- a new space

  /**
   A space with the rules it is created with takes requests for half an hour to eight hours that start between
   an hour and thirty days ahead, and others not.
   */
  lemma NewSpaceAdmitsIff(
    w: World, space: SpaceId, mode: ApprovalMode, openedAt: Time, startsAt: Time, endsAt: Time, now: Time,
    newId: BookingId)
    requires RowsHold(w) && w.mark.Keys == w.db.spaces.Keys && space !in w.db.spaces && newId !in w.db.bookings
    ensures var db := OpenSpace(w, space, mode, openedAt).db;
      var op := CreateBooking(space, startsAt, endsAt, Verdicts(true, true, true, true));
      newId in Serve(db, op, now, newId).bookings <==>
        && 1_800_000_000 <= endsAt - startsAt <= 28_800_000_000
        && 3_600_000_000 <= startsAt - now <= 2_592_000_000_000
  {
    var db := OpenSpace(w, space, mode, openedAt).db;
    var op := CreateBooking(space, startsAt, endsAt, Verdicts(true, true, true, true));
    forall id | id in db.bookings ensures db.bookings[id].space != space { assert RowHolds(w, db.bookings[id]); }
    CallsWriteWhatTheyName(db, op, now, newId);
    NewSpaceFailsIff(db, op, now);
  }

  /** Opening a space adds its row and a log entry, and changes no other row. */
  lemma OpeningWrites(w: World, space: SpaceId, mode: ApprovalMode, now: Time)
    ensures OpenSpace(w, space, mode, now).db ==
      Db(w.db.spaces[space := Space(true, mode, 30, 480, 60, 30)], w.db.bookings, w.db.log + [SpaceEvent(space)])
  {
  }

  lemma NewSpaceFailsIff(db: Db, op: Op, now: Time)
    requires op.CreateBooking? && op.verdicts == Verdicts(true, true, true, true)
    requires op.space in db.spaces && exists mode :: db.spaces[op.space] == DefaultSpace(mode)
    requires forall id :: id in db.bookings ==> db.bookings[id].space != op.space
    ensures (forall e :: !Fails(e, db, op, now)) <==>
        && 1_800_000_000 <= op.endsAt - op.startsAt <= 28_800_000_000
        && 3_600_000_000 <= op.startsAt - now <= 2_592_000_000_000
  {
    if forall e :: !Fails(e, db, op, now) {
      assert !Fails(TooShort, db, op, now) && !Fails(TooLong, db, op, now);
      assert !Fails(TooSoon, db, op, now) && !Fails(TooFar, db, op, now);
    }
  }
}
