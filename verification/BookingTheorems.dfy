/** What holds of every run of concurrent booking transactions. */
module BookingTheorems {
  import opened Options
  import opened BookingModel
  import opened BookingHistory
  import opened BookingProtocol
  import opened Numbers

  // ---------------------------------------------------------------- no double booking

  lemma ConfirmedStayDisjoint(states: seq<Sys>, steps: seq<Step>, k: nat, i: BookingId, j: BookingId)
    requires Run(states, steps) && k < |states| && i != j
    ensures var bookings := states[k].world.db.bookings;
      i in bookings && j in bookings && bookings[i].status == Confirmed && bookings[j].status == Confirmed
      && bookings[i].space == bookings[j].space
      ==> bookings[i].endsAt <= bookings[j].startsAt || bookings[j].endsAt <= bookings[i].startsAt
  {
    RunIsCoherent(states, steps, k);
  }

  /** The audit entry that confirmed the booking is the one that created it. */
  predicate ConfirmedAtCreation(w: World, id: BookingId) {
    id in w.confirmed && w.confirmed[id].place < |w.db.log| && w.db.log[w.confirmed[id].place].Created?
  }

  /**
   Two held bookings of one space share time only before the later of their confirmation moments;
   when the one confirmed later was confirmed at its creation, they share none.
   */
  lemma HeldMeetOnlyBeforeConfirmation(states: seq<Sys>, steps: seq<Step>, k: nat, i: BookingId, j: BookingId)
    requires Run(states, steps) && k < |states|
    requires var db := states[k].world.db;
      && i in db.bookings && j in db.bookings && i != j && db.bookings[i].space == db.bookings[j].space
      && Held(db.bookings[i].status) && Held(db.bookings[j].status)
    ensures var w := states[k].world; var a := w.db.bookings[i]; var b := w.db.bookings[j];
      && i in w.confirmed && j in w.confirmed
      && w.confirmed[i].place != w.confirmed[j].place
      && (Meet(a, b) ==> Min(a.endsAt, b.endsAt) <= Max(w.confirmed[i].at, w.confirmed[j].at))
      && (ConfirmedAtCreation(w, if w.confirmed[i].place < w.confirmed[j].place then j else i) ==> !Meet(a, b))
  {
    RunIsCoherent(states, steps, k);
    var w := states[k].world;
    assert ConfirmationHolds(w, i) && ConfirmationHolds(w, j);
  }

  // ---------------------------------------------------------------- where the stronger claim fails

  /** The naive claim: held bookings of a space never share an instant. */
  ghost predicate HeldDisjoint(bookings: map<BookingId, Booking>) {
    forall i, j :: i in bookings && j in bookings && i != j && Held(bookings[i].status) && Held(bookings[j].status)
      ==> !Meet(bookings[i], bookings[j])
  }

  /** An ended booking (completed or no-show) of the space covers part of the interval. */
  predicate EndedOverlap(bookings: map<BookingId, Booking>, space: SpaceId, startsAt: Time, endsAt: Time) {
    exists id :: id in bookings && bookings[id].space == space && bookings[id].status in {Completed, NoShow}
      && Overlap(bookings[id].startsAt, bookings[id].endsAt, startsAt, endsAt)
  }

  /**
   The call approves a booking over time that an ended booking has already used: the booking is pending
   in an active space, has not ended, meets no confirmed booking, and meets a completed or no-show one.
   */
  predicate ReusesSpentTime(db: Db, op: Op, now: Time) {
    && op.ApproveBooking?
    && op.space in db.spaces && db.spaces[op.space].active
    && op.booking in db.bookings
    && var row := db.bookings[op.booking];
    && row.space == op.space && row.status == Pending && now < row.endsAt
    && !ConfirmedOverlap(db.bookings, op.space, row.startsAt, row.endsAt, Some(op.booking))
    && EndedOverlap(db.bookings, op.space, row.startsAt, row.endsAt)
  }

  lemma PutKeepsHeldDisjoint(bookings: map<BookingId, Booking>, id: BookingId, row: Booking)
    requires HeldDisjoint(bookings)
    requires id in bookings ==> !Held(bookings[id].status)
    requires row.status == Confirmed && !ConfirmedOverlap(bookings, row.space, row.startsAt, row.endsAt, Some(id))
    ensures HeldDisjoint(bookings[id := row])
      <==> !EndedOverlap(bookings, row.space, row.startsAt, row.endsAt)
  {
    var after := bookings[id := row];
    forall other | other in bookings && other != id && Held(bookings[other].status)
      ensures Meet(bookings[other], row) ==> EndedOverlap(bookings, row.space, row.startsAt, row.endsAt)
    {
      assert !Clashes(bookings[other], row.space, row.startsAt, row.endsAt);
    }
    if EndedOverlap(bookings, row.space, row.startsAt, row.endsAt) {
      var other :| other in bookings && bookings[other].space == row.space
        && bookings[other].status in {Completed, NoShow}
        && Overlap(bookings[other].startsAt, bookings[other].endsAt, row.startsAt, row.endsAt);
      assert other in after && id in after && other != id && Meet(after[other], after[id]);
    }
  }

  lemma NewBookingsAvoidEnded(w: World, row: Booking, now: Time)
    requires RowsHold(w) && row.space in w.mark && w.mark[row.space] <= now <= row.startsAt
    ensures !EndedOverlap(w.db.bookings, row.space, row.startsAt, row.endsAt)
  {
    forall id | id in w.db.bookings && w.db.bookings[id].status in {Completed, NoShow}
      && w.db.bookings[id].space == row.space
      ensures !Overlap(w.db.bookings[id].startsAt, w.db.bookings[id].endsAt, row.startsAt, row.endsAt)
    {
      assert RowHolds(w, w.db.bookings[id]);
    }
  }

  lemma OnlyApprovalsConfirmOldRows(op: Op, view: View)
    requires Decide(op, view).SetStatus?
    ensures Decide(op, view).status == Confirmed <==> op.ApproveBooking?
    ensures Decide(op, view).oldRow.space == op.space
  {
  }

  /** The guards of an approval. */
  lemma ApprovesIff(db: Db, op: Op, now: Time)
    requires op.ApproveBooking?
    ensures var plan := Decide(op, Look(db, op, now));
      && (plan.SetStatus? <==>
            && op.space in db.spaces && db.spaces[op.space].active && op.booking in db.bookings
            && var row := db.bookings[op.booking];
            && row.space == op.space && row.status == Pending && now < row.endsAt
            && !ConfirmedOverlap(db.bookings, op.space, row.startsAt, row.endsAt, Some(op.booking)))
      && (plan.SetStatus? ==> plan.oldRow == db.bookings[op.booking])
  {
  }

  /** From a state that satisfies the naive claim, one call breaks it exactly when it reuses spent time. */
  lemma NaiveClaimHoldsIff(w: World, op: Op, now: Time, newId: BookingId)
    requires Sound(w) && Timely(w, op, now) && newId !in w.db.bookings && HeldDisjoint(w.db.bookings)
    ensures HeldDisjoint(Exec(w, op, now, newId).db.bookings) <==> !ReusesSpentTime(w.db, op, now)
  {
    DecisionsAreJustified(w, op, now);
    var plan := Decide(op, Look(w.db, op, now));
    if plan.SetStatus? { OnlyApprovalsConfirmOldRows(op, Look(w.db, op, now)); }
    if op.ApproveBooking? { ApprovesIff(w.db, op, now); }
    PlanKeepsHeldDisjointIff(w, plan, op.space, now, newId);
  }

  lemma PlanKeepsHeldDisjointIff(w: World, plan: Plan, space: SpaceId, now: Time, newId: BookingId)
    requires Justified(w, plan, space, now) && RowsHold(w)
    requires space in w.db.spaces ==> space in w.mark && w.mark[space] <= now
    requires newId !in w.db.bookings && HeldDisjoint(w.db.bookings)
    ensures HeldDisjoint(Record(w, plan, space, now, newId).db.bookings)
      <==> !(plan.SetStatus? && plan.status == Confirmed
             && EndedOverlap(w.db.bookings, space, plan.oldRow.startsAt, plan.oldRow.endsAt))
  {
    match plan
    case Refuse(_) =>
    case SetSpace(_, _) =>
    case Insert(row) =>
      if row.status == Confirmed {
        NewBookingsAvoidEnded(w, row, now);
        PutKeepsHeldDisjoint(w.db.bookings, newId, row);
      }
    case SetStatus(id, oldRow, status) =>
      if status == Confirmed {
        PutKeepsHeldDisjoint(w.db.bookings, id, oldRow.(status := status));
      }
  }

  /** The step commits an approval that reuses spent time. */
  predicate CommitsReuse(s: Sys, step: Step) {
    && step.CommitTx? && step.tid in s.txs
    && var tx := s.txs[step.tid];
       ReusesSpentTime(s.world.db, tx.op, tx.view.now)
  }

  lemma StepKeepsClaimIff(s: Sys, step: Step)
    requires Coherent(s) && Enabled(s, step) && HeldDisjoint(s.world.db.bookings)
    ensures HeldDisjoint(Next(s, step).world.db.bookings) <==> !CommitsReuse(s, step)
  {
    if step.CommitTx? {
      CommitIsAtomic(s, step.tid, step.newId);
      NaiveClaimHoldsIff(s.world, s.txs[step.tid].op, s.txs[step.tid].view.now, step.newId);
    } else if !step.NewSpace? {
      assert Next(s, step).world == s.world;
    }
  }

  ghost predicate ClaimHolds(s: Sys) {
    HeldDisjoint(s.world.db.bookings)
  }

  ghost predicate ClaimUpTo(states: seq<Sys>, k: nat)
    requires k < |states|
  {
    forall i :: 0 <= i <= k ==> ClaimHolds(states[i])
  }

  predicate NoReuseBefore(states: seq<Sys>, steps: seq<Step>, k: nat)
    requires |states| == |steps| + 1 && k < |states|
  {
    forall i :: 0 <= i < k ==> !CommitsReuse(states[i], steps[i])
  }

  lemma OneStateMore(states: seq<Sys>, k: nat)
    requires 0 < k < |states|
    ensures ClaimUpTo(states, k) <==> ClaimUpTo(states, k - 1) && ClaimHolds(states[k])
  {
  }

  lemma OneStepOfTheClaim(states: seq<Sys>, steps: seq<Step>, k: nat)
    requires Run(states, steps) && 0 < k < |states| && ClaimHolds(states[k - 1])
    ensures ClaimHolds(states[k]) <==> !CommitsReuse(states[k - 1], steps[k - 1])
  {
    RunIsCoherent(states, steps, k - 1);
    StepKeepsClaimIff(states[k - 1], steps[k - 1]);
    assert states[k] == Next(states[k - 1], steps[k - 1]);
  }

  /** A run satisfies the naive claim up to a state exactly when nothing committed before it reuses spent time. */
  lemma {:induction false} RunSatisfiesNaiveClaimIff(states: seq<Sys>, steps: seq<Step>, k: nat)
    requires Run(states, steps) && k < |states|
    ensures ClaimUpTo(states, k) <==> NoReuseBefore(states, steps, k)
  {
    if k == 0 {
      assert ClaimHolds(states[0]);
    } else {
      assert NoReuseBefore(states, steps, k)
        <==> NoReuseBefore(states, steps, k - 1) && !CommitsReuse(states[k - 1], steps[k - 1]);
      RunSatisfiesNaiveClaimIff(states, steps, k - 1);
      OneStateMore(states, k);
      if ClaimUpTo(states, k - 1) {
        assert ClaimHolds(states[k - 1]);
        OneStepOfTheClaim(states, steps, k);
      }
    }
  }

  /** A booking approved no later than its start never reuses spent time. */
  lemma TimelyApprovalIsSafe(w: World, op: Op, now: Time)
    requires Sound(w) && Timely(w, op, now) && op.ApproveBooking?
    requires op.booking in w.db.bookings && now <= w.db.bookings[op.booking].startsAt
    ensures !ReusesSpentTime(w.db, op, now)
  {
    forall id | id in w.db.bookings ensures RowHolds(w, w.db.bookings[id]) {}
  }

  // ---------------------------------------------------------------- serial equivalence

  datatype Call = Service(op: Op, now: Time, newId: BookingId) | Open(space: SpaceId, mode: ApprovalMode, now: Time)

  predicate Legal(w: World, c: Call) {
    match c
    case Service(op, now, newId) => Timely(w, op, now) && newId !in w.db.bookings
    case Open(space, mode, _) => space !in w.db.spaces && !mode.Unrecognised?
  }

  function Perform(w: World, c: Call): World {
    match c
    case Service(op, now, newId) => Exec(w, op, now, newId)
    case Open(space, mode, now) => OpenSpace(w, space, mode, now)
  }

  /** The calls, each run alone from start to end, go through these worlds from the empty database. */
  ghost predicate SerialRun(worlds: seq<World>, calls: seq<Call>) {
    && |worlds| == |calls| + 1
    && worlds[0] == NOTHING
    && forall k {:trigger calls[k]} :: 0 <= k < |calls| ==>
         Legal(worlds[k], calls[k]) && worlds[k + 1] == Perform(worlds[k], calls[k])
  }

  /** A serial run that has reached `w`. */
  datatype Trace = Trace(worlds: seq<World>, calls: seq<Call>) {
    ghost predicate Reaches(w: World) {
      SerialRun(worlds, calls) && worlds[|calls|] == w
    }

    function Then(c: Call): Trace
      requires worlds != []
    {
      Trace(worlds + [Perform(worlds[|worlds| - 1], c)], calls + [c])
    }
  }

  lemma Extend(t: Trace, w: World, c: Call)
    requires t.Reaches(w) && Legal(w, c)
    ensures t.Then(c).Reaches(Perform(w, c))
  {
  }

  /** The call that the step carries out, if it writes at all. */
  function CallOf(s: Sys, step: Step): Option<Call> {
    if step.CommitTx? && step.tid in s.txs then
      Some(Service(s.txs[step.tid].op, s.txs[step.tid].view.now, step.newId))
    else if step.NewSpace? then Some(Open(step.space, step.mode, s.clock))
    else None
  }

  lemma StepIsCall(s: Sys, step: Step)
    requires Coherent(s) && Enabled(s, step)
    ensures var c := CallOf(s, step);
      if c.Some? then Legal(s.world, c.value) && Next(s, step).world == Perform(s.world, c.value)
      else Next(s, step).world == s.world
  {
    if step.CommitTx? { CommitIsAtomic(s, step.tid, step.newId); }
  }

  /** Every interleaving has committed what some one-at-a-time execution commits. */
  lemma {:induction false} RunsAreSerializable(states: seq<Sys>, steps: seq<Step>, k: nat)
    returns (t: Trace)
    requires Run(states, steps) && k < |states|
    ensures t.Reaches(states[k].world)
  {
    if k == 0 {
      t := Trace([NOTHING], []);
    } else {
      t := RunsAreSerializable(states, steps, k - 1);
      RunIsCoherent(states, steps, k - 1);
      var c := CallOf(states[k - 1], steps[k - 1]);
      StepIsCall(states[k - 1], steps[k - 1]);
      if c.Some? {
        Extend(t, states[k - 1].world, c.value);
        t := t.Then(c.value);
      }
    }
  }

  lemma ARequestWaits(t: Trace, w: World, startsAt: Time, endsAt: Time, newId: BookingId)
    returns (t': Trace, w': World)
    requires t.Reaches(w) && newId !in w.db.bookings
    requires Lookup(w.db.spaces, 0) == Some(DefaultSpace(Approve)) && w.mark == map[0 := 0]
    requires 60 * MINUTE <= startsAt <= DAY && 30 * MINUTE <= endsAt - startsAt <= 480 * MINUTE
    ensures t'.Reaches(w') && w'.db.spaces == w.db.spaces && w'.mark == map[0 := 0]
    ensures w'.db.bookings == w.db.bookings[newId := Booking(0, startsAt, endsAt, Pending)]
  {
    var c := Service(CreateBooking(0, startsAt, endsAt, Verdicts(true, true, true, true)), 0, newId);
    Extend(t, w, c);
    t', w' := t.Then(c), Perform(w, c);
  }

  lemma ARequestIsApproved(t: Trace, w: World, id: BookingId, now: Time, newId: BookingId)
    returns (t': Trace, w': World)
    requires t.Reaches(w) && newId !in w.db.bookings
    requires Lookup(w.db.spaces, 0) == Some(DefaultSpace(Approve)) && 0 in w.mark && w.mark[0] <= now
    requires id in w.db.bookings && w.db.bookings[id].space == 0 && w.db.bookings[id].status == Pending
    requires now < w.db.bookings[id].endsAt
    requires forall i :: i in w.db.bookings ==> w.db.bookings[i].status != Confirmed
    ensures t'.Reaches(w') && w'.db.spaces == w.db.spaces && w'.mark == w.mark[0 := now]
    ensures w'.db.bookings == w.db.bookings[id := w.db.bookings[id].(status := Confirmed)]
  {
    var c := Service(ApproveBooking(0, id), now, newId);
    Extend(t, w, c);
    t', w' := t.Then(c), Perform(w, c);
  }

  lemma ABookingIsCompleted(t: Trace, w: World, id: BookingId, now: Time, newId: BookingId)
    returns (t': Trace, w': World)
    requires t.Reaches(w) && newId !in w.db.bookings
    requires 0 in w.db.spaces && 0 in w.mark && w.mark[0] <= now
    requires id in w.db.bookings && w.db.bookings[id].space == 0 && w.db.bookings[id].status == Confirmed
    requires w.db.bookings[id].endsAt <= now
    ensures t'.Reaches(w') && w'.db.spaces == w.db.spaces && w'.mark == w.mark[0 := now]
    ensures w'.db.bookings == w.db.bookings[id := w.db.bookings[id].(status := Completed)]
  {
    var c := Service(CompleteBooking(0, id), now, newId);
    Extend(t, w, c);
    t', w' := t.Then(c), Perform(w, c);
  }

  /**
   The naive claim does fail: a pending booking [120, 180) waits while [60, 150) is approved and
   completed, and is then approved at minute 150.
   */
  lemma NaiveClaimFails() returns (t: Trace, w: World)
    ensures t.Reaches(w) && !HeldDisjoint(w.db.bookings)
  {
    var late := 150 * MINUTE;
    t, w := Trace([NOTHING], []), NOTHING;
    var c := Open(0, Approve, 0);
    Extend(t, w, c);
    t, w := t.Then(c), Perform(w, c);
    t, w := ARequestWaits(t, w, 120 * MINUTE, 180 * MINUTE, 1);
    t, w := ARequestWaits(t, w, 60 * MINUTE, late, 2);
    t, w := ARequestIsApproved(t, w, 2, 0, 3);
    t, w := ABookingIsCompleted(t, w, 2, late, 3);
    t, w := ARequestIsApproved(t, w, 1, late, 3);
    assert Meet(w.db.bookings[1], w.db.bookings[2]);
  }

  // ---------------------------------------------------------------- audit log and lifecycle

  /** At every moment the log replays to the statuses in the table, and every entry told the truth. */
  lemma AuditReproducesStatuses(states: seq<Sys>, steps: seq<Step>, k: nat)
    requires Run(states, steps) && k < |states|
    ensures var db := states[k].world.db;
      && Replay(db.log) == Statuses(db.bookings)
      && forall n :: 0 <= n < |db.log| && db.log[n].Changed? ==>
           Lookup(Replay(db.log[..n]), db.log[n].booking) == Some(db.log[n].oldStatus)
  {
    RunIsCoherent(states, steps, k);
    var db := states[k].world.db;
    forall n | 0 <= n < |db.log| && db.log[n].Changed?
      ensures Lookup(Replay(db.log[..n]), db.log[n].booking) == Some(db.log[n].oldStatus)
    {
      assert Truthful(Replay(db.log[..n]), db.log[n]);
    }
  }

  /** What later states owe to earlier ones. */
  ghost predicate Evolves(a: Db, b: Db) {
    && a.log <= b.log
    && (forall id :: id in a.bookings ==>
          && id in b.bookings
          && b.bookings[id] == a.bookings[id].(status := b.bookings[id].status)
          && (Terminal(a.bookings[id].status) ==> b.bookings[id] == a.bookings[id])
          && (a.bookings[id].status != Pending ==> b.bookings[id].status != Pending))
    && (forall s :: s in a.spaces ==> s in b.spaces && (b.spaces[s].active ==> a.spaces[s].active))
  }

  lemma RecordEvolves(w: World, plan: Plan, space: SpaceId, now: Time, newId: BookingId)
    requires Justified(w, plan, space, now) && newId !in w.db.bookings
    requires plan.SetSpace? && plan.settings.active ==> w.db.spaces[space].active
    ensures Evolves(w.db, Record(w, plan, space, now, newId).db)
  {
  }

  lemma SpacesAreClosedOnce(op: Op, view: View)
    requires Decide(op, view).SetSpace?
    ensures view.space.Some? && view.space.value.active
  {
  }

  lemma StepEvolves(s: Sys, step: Step)
    requires Coherent(s) && Enabled(s, step)
    ensures Evolves(s.world.db, Next(s, step).world.db)
  {
    if step.CommitTx? {
      var tx := s.txs[step.tid];
      CommitIsAtomic(s, step.tid, step.newId);
      DecisionsAreJustified(s.world, tx.op, tx.view.now);
      var live := Look(s.world.db, tx.op, tx.view.now);
      if Decide(tx.op, live).SetSpace? { SpacesAreClosedOnce(tx.op, live); }
      RecordEvolves(s.world, Decide(tx.op, live), tx.op.space, tx.view.now, step.newId);
    }
  }

  /**
   Over any stretch of any run: the log only grows; a booking keeps its space and times; REJECTED,
   CANCELLED, COMPLETED and NO_SHOW never change again; a deactivated space stays inactive.
   */
  lemma {:induction false} HistoryIsFinal(states: seq<Sys>, steps: seq<Step>, j: nat, k: nat)
    requires Run(states, steps) && j <= k < |states|
    ensures Evolves(states[j].world.db, states[k].world.db)
    decreases k - j
  {
    if j < k {
      RunIsCoherent(states, steps, j);
      StepEvolves(states[j], steps[j]);
      HistoryIsFinal(states, steps, j + 1, k);
    }
  }

  // ---------------------------------------------------------------- the packing bound

  function Length(b: Booking): int { b.endsAt - b.startsAt }

  ghost function TotalLength(bookings: map<BookingId, Booking>, ids: set<BookingId>): int
    requires ids <= bookings.Keys
  {
    if ids == {} then 0
    else var id :| id in ids; Length(bookings[id]) + TotalLength(bookings, ids - {id})
  }

  lemma {:induction false} TotalWithout(bookings: map<BookingId, Booking>, ids: set<BookingId>, id: BookingId)
    requires ids <= bookings.Keys && id in ids
    ensures TotalLength(bookings, ids) == Length(bookings[id]) + TotalLength(bookings, ids - {id})
  {
    var first :| first in ids && TotalLength(bookings, ids)
      == Length(bookings[first]) + TotalLength(bookings, ids - {first});
    if first != id {
      TotalWithout(bookings, ids - {first}, id);
      TotalWithout(bookings, ids - {id}, first);
      assert ids - {first} - {id} == ids - {id} - {first};
    }
  }

  lemma {:induction false} LastToStart(bookings: map<BookingId, Booking>, ids: set<BookingId>) returns (last: BookingId)
    requires ids != {} && ids <= bookings.Keys
    ensures last in ids && forall id :: id in ids ==> bookings[id].startsAt <= bookings[last].startsAt
  {
    var id :| id in ids;
    last := id;
    if ids != {id} {
      var other := LastToStart(bookings, ids - {id});
      if bookings[id].startsAt <= bookings[other].startsAt { last := other; }
    }
  }

  /** Pairwise disjoint bookings inside a window are together no longer than the window. */
  lemma {:induction false} DisjointBookingsFit(
    bookings: map<BookingId, Booking>, ids: set<BookingId>, from: Time, to: Time)
    requires ids <= bookings.Keys && from <= to
    requires forall id :: id in ids ==> from <= bookings[id].startsAt < bookings[id].endsAt <= to
    requires forall i, j :: i in ids && j in ids && i != j ==> !Meet(bookings[i], bookings[j])
    requires forall i, j :: i in ids && j in ids ==> bookings[i].space == bookings[j].space
    ensures TotalLength(bookings, ids) <= to - from
  {
    if ids != {} {
      var last := LastToStart(bookings, ids);
      DisjointBookingsFit(bookings, ids - {last}, from, bookings[last].startsAt);
      TotalWithout(bookings, ids, last);
    }
  }

  lemma {:induction false} LongEnough(bookings: map<BookingId, Booking>, ids: set<BookingId>)
    requires ids <= bookings.Keys
    requires forall id :: id in ids ==> MINUTE <= Length(bookings[id])
    ensures |ids| * MINUTE <= TotalLength(bookings, ids)
  {
    if ids != {} {
      var id :| id in ids && TotalLength(bookings, ids) == Length(bookings[id]) + TotalLength(bookings, ids - {id});
      LongEnough(bookings, ids - {id});
    }
  }

  /** CONFIRMED bookings of the space that start now or later. */
  function Upcoming(s: Sys, space: SpaceId): set<BookingId> {
    set id | id in s.world.db.bookings && s.world.db.bookings[id].space == space
      && s.world.db.bookings[id].status == Confirmed && s.clock <= s.world.db.bookings[id].startsAt
  }

  /** However the rules were changed in the meantime, the future of a space has limited room. */
  lemma UpcomingBookingsFit(states: seq<Sys>, steps: seq<Step>, k: nat, space: SpaceId)
    requires Run(states, steps) && k < |states|
    ensures TotalLength(states[k].world.db.bookings, Upcoming(states[k], space)) <= 3680 * DAY
    ensures |Upcoming(states[k], space)| <= 5_299_200
  {
    RunIsCoherent(states, steps, k);
    var s := states[k];
    var bookings := s.world.db.bookings;
    var ids := Upcoming(s, space);
    forall id | id in ids
      ensures s.clock <= bookings[id].startsAt < bookings[id].endsAt <= s.clock + 3680 * DAY
      ensures MINUTE <= Length(bookings[id])
    {
      assert RowHolds(s.world, bookings[id]);
    }
    DisjointBookingsFit(bookings, ids, s.clock, s.clock + 3680 * DAY);
    LongEnough(bookings, ids);
  }
}
