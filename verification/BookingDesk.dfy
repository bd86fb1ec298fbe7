/** The booking services in the form the program has them: operations that update the tables in place. */
module BookingDesk {
  import opened Options
  import opened BookingModel

  datatype Outcome = Booked(booking: BookingId) | Saved | Raised(error: Error)

  /** What the caller of a service gets back. */
  function Reply(plan: Plan, newId: BookingId): Outcome {
    match plan
    case Refuse(error) => Raised(error)
    case Insert(_) => Booked(newId)
    case SetStatus(id, _, _) => Booked(id)
    case SetSpace(_, _) => Saved
  }

  /** No confirmed booking of the space, other than `exclude`, shares an instant with [startsAt, endsAt). */
  ghost predicate Free(
    bookings: map<BookingId, Booking>, space: SpaceId, startsAt: Time, endsAt: Time, exclude: Option<BookingId>)
  {
    forall id :: id in bookings && exclude != Some(id) && bookings[id].space == space
      && bookings[id].status == Confirmed
      ==> bookings[id].endsAt <= startsAt || endsAt <= bookings[id].startsAt
  }

  lemma FreeMeansNoOverlap(
    bookings: map<BookingId, Booking>, space: SpaceId, startsAt: Time, endsAt: Time, exclude: Option<BookingId>)
    ensures Free(bookings, space, startsAt, endsAt, exclude)
      <==> !ConfirmedOverlap(bookings, space, startsAt, endsAt, exclude)
  {
    if !ConfirmedOverlap(bookings, space, startsAt, endsAt, exclude) {
      forall id | id in bookings && exclude != Some(id) && bookings[id].space == space
        && bookings[id].status == Confirmed
        ensures bookings[id].endsAt <= startsAt || endsAt <= bookings[id].startsAt
      {
        assert !Clashes(bookings[id], space, startsAt, endsAt);
      }
    }
  }

  /** The row exists, belongs to the space the caller named, and has the status. */
  predicate Stands(db: Db, space: SpaceId, id: BookingId, status: Status) {
    && space in db.spaces
    && id in db.bookings
    && db.bookings[id].space == space
    && db.bookings[id].status == status
  }

  predicate WithinBounds(s: Space) {
    && 1 <= s.minMinutes <= s.maxMinutes <= MAX_DURATION_MINUTES
    && 0 <= s.leadMinutes <= MAX_LEAD_MINUTES
    && 1 <= s.advanceDays <= MAX_ADVANCE_DAYS
    && !s.mode.Unrecognised?
  }

  /** A named column takes the new value, any other keeps its own. */
  predicate SetTo<T(==)>(change: Option<T>, before: T, after: T) {
    after == match change case None => before case Some(v) => v
  }

  predicate RulesSet(changes: RuleChanges, before: Space, after: Space) {
    && after.active == before.active
    && SetTo(changes.minMinutes, before.minMinutes, after.minMinutes)
    && SetTo(changes.maxMinutes, before.maxMinutes, after.maxMinutes)
    && SetTo(changes.leadMinutes, before.leadMinutes, after.leadMinutes)
    && SetTo(changes.advanceDays, before.advanceDays, after.advanceDays)
    && SetTo(changes.mode, before.mode, after.mode)
  }

  lemma RulesSetIs(changes: RuleChanges, before: Space, after: Space)
    ensures RulesSet(changes, before, after) <==> after == ApplyChanges(before, changes)
  {
  }

  /**
   The tables, as seen inside the row lock of one space. Every method leaves them as `Serve` does
   for the matching operation, and replies as it decides; what that guarantees is proved in
   BookingHistory and BookingTheorems. An error rolls the transaction back, so it changes nothing.
   */
  class Desk {
    var spaces: map<SpaceId, Space>
    var bookings: map<BookingId, Booking>
    var log: seq<Entry>

    ghost function Tables(): Db
      reads this
    {
      Db(spaces, bookings, log)
    }

    /** The tables moved from `before` as the operation prescribes, and the reply matches. */
    ghost predicate Served(before: Db, op: Op, now: Time, newId: BookingId, outcome: Outcome)
      reads this
    {
      && Tables() == Serve(before, op, now, newId)
      && outcome == Reply(Decide(op, Look(before, op, now)), newId)
    }

    constructor ()
      ensures Tables() == Db(map[], map[], [])
    {
      spaces, bookings, log := map[], map[], [];
    }

    /** `now` is the reading of timezone.now(); `newId` the key the database assigns. */
    method CreateBooking(
      space: SpaceId, startsAt: Time, endsAt: Time, verdicts: Verdicts, now: Time, newId: BookingId)
      returns (outcome: Outcome)
      requires newId !in bookings
      modifies this
      ensures Served(old(Tables()), BookingModel.CreateBooking(space, startsAt, endsAt, verdicts), now, newId, outcome)
      ensures outcome.Raised? ==> Tables() == old(Tables())
      ensures outcome == Booked(newId) <==>
        && verdicts == Verdicts(true, true, true, true)
        && space in old(spaces)
        && var s := old(spaces)[space];
        && s.active
        && startsAt < endsAt && now < endsAt
        && s.minMinutes * MINUTE <= endsAt - startsAt <= s.maxMinutes * MINUTE
        && now + s.leadMinutes * MINUTE <= startsAt <= now + s.advanceDays * DAY
        && (s.mode == Instant ==> Free(old(bookings), space, startsAt, endsAt, None))
      ensures outcome == Booked(newId) ==>
        var status := if old(spaces)[space].mode == Instant then Confirmed else Pending;
        && bookings == old(bookings)[newId := Booking(space, startsAt, endsAt, status)]
        && log == old(log) + [Created(newId, status)] && spaces == old(spaces)
    {
      FreeMeansNoOverlap(bookings, space, startsAt, endsAt, None);
      if !verdicts.fence { return Raised(WriteFenced); }
      if space !in spaces { return Raised(NotFound); }
      var locked := spaces[space];
      if !locked.active { return Raised(Inactive); }
      var status := if locked.mode == Instant then Confirmed else Pending;
      var booking := Booking(space, startsAt, endsAt, status);
      if !verdicts.fields { return Raised(BadFields); }
      if endsAt <= startsAt { return Raised(EndsNotAfterStart); }
      var duration := endsAt - startsAt;
      if duration < locked.minMinutes * MINUTE { return Raised(TooShort); }
      if duration > locked.maxMinutes * MINUTE { return Raised(TooLong); }
      if startsAt < now + locked.leadMinutes * MINUTE { return Raised(TooSoon); }
      if startsAt > now + locked.advanceDays * DAY { return Raised(TooFar); }
      if endsAt <= now { return Raised(InThePast); }
      if !verdicts.answers { return Raised(BadAnswers); }
      if !verdicts.quota { return Raised(QuotaExceeded); }
      if status == Confirmed && ConfirmedOverlap(bookings, space, startsAt, endsAt, None) {
        return Raised(Conflict);
      }
      bookings := bookings[newId := booking];
      log := log + [Created(newId, status)];
      return Booked(newId);
    }

    /** `_locked_booking`: the row behind a possibly stale booking object, under its space's lock. */
    method LockedBooking(space: SpaceId, id: BookingId) returns (row: Booking, problem: Option<Error>)
      ensures problem.None? ==> space in spaces && Lookup(bookings, id) == Some(row) && row.space == space
      ensures problem == Some(NotFound) <==> space !in spaces || id !in bookings
      ensures problem == Some(Moved) <==> space in spaces && id in bookings && bookings[id].space != space
      ensures problem in {None, Some(NotFound), Some(Moved)}
    {
      row := Booking(space, 0, 0, Pending);
      if space !in spaces || id !in bookings { return row, Some(NotFound); }
      row := bookings[id];
      if row.space != space { return row, Some(Moved); }
      return row, None;
    }

    method ApproveBooking(space: SpaceId, id: BookingId, now: Time) returns (outcome: Outcome)
      modifies this
      ensures forall newId :: Served(old(Tables()), BookingModel.ApproveBooking(space, id), now, newId, outcome)
      ensures outcome.Raised? ==> Tables() == old(Tables())
      ensures outcome == Booked(id) <==>
        && Stands(old(Tables()), space, id, Pending)
        && old(spaces)[space].active
        && var row := old(bookings)[id];
        && now < row.endsAt
        && Free(old(bookings), space, row.startsAt, row.endsAt, Some(id))
      ensures outcome == Booked(id) ==>
        && bookings == old(bookings)[id := old(bookings)[id].(status := Confirmed)]
        && log == old(log) + [Changed(id, Pending, Confirmed)] && spaces == old(spaces)
    {
      var locked, problem := LockedBooking(space, id);
      if problem.Some? { return Raised(problem.value); }
      FreeMeansNoOverlap(bookings, space, locked.startsAt, locked.endsAt, Some(id));
      if locked.status != Pending { return Raised(BadTransition(locked.status)); }
      if !spaces[space].active { return Raised(Inactive); }
      if locked.endsAt <= now { return Raised(Ended); }
      if ConfirmedOverlap(bookings, space, locked.startsAt, locked.endsAt, Some(id)) { return Raised(Conflict); }
      bookings := bookings[id := locked.(status := Confirmed)];
      log := log + [Changed(id, Pending, Confirmed)];
      return Booked(id);
    }

    method RejectBooking(space: SpaceId, id: BookingId) returns (outcome: Outcome)
      modifies this
      ensures forall now, newId :: Served(old(Tables()), BookingModel.RejectBooking(space, id), now, newId, outcome)
      ensures outcome.Raised? ==> Tables() == old(Tables())
      ensures outcome == Booked(id) <==> Stands(old(Tables()), space, id, Pending)
      ensures outcome == Booked(id) ==>
        && bookings == old(bookings)[id := old(bookings)[id].(status := Rejected)]
        && log == old(log) + [Changed(id, Pending, Rejected)] && spaces == old(spaces)
    {
      var locked, problem := LockedBooking(space, id);
      if problem.Some? { return Raised(problem.value); }
      if locked.status != Pending { return Raised(BadTransition(locked.status)); }
      bookings := bookings[id := locked.(status := Rejected)];
      log := log + [Changed(id, Pending, Rejected)];
      return Booked(id);
    }

    /** `_transition`, shared by cancel, complete and no-show. */
    method Transition(space: SpaceId, id: BookingId, target: Status, requireEnded: bool, now: Time)
      returns (outcome: Outcome)
      modifies this
      ensures var view := View(Lookup(old(spaces), space), Lookup(old(bookings), id), now, false);
        var plan := DecideTransition(space, id, target, requireEnded, view);
        forall newId :: Tables() == Commit(old(Tables()), plan, newId) && outcome == Reply(plan, newId)
      ensures outcome.Raised? ==> Tables() == old(Tables())
      ensures outcome == Booked(id) <==>
        Stands(old(Tables()), space, id, Confirmed) && (requireEnded ==> old(bookings)[id].endsAt <= now)
      ensures outcome == Booked(id) ==>
        && bookings == old(bookings)[id := old(bookings)[id].(status := target)]
        && log == old(log) + [Changed(id, Confirmed, target)] && spaces == old(spaces)
    {
      var locked, problem := LockedBooking(space, id);
      if problem.Some? { return Raised(problem.value); }
      if locked.status != Confirmed { return Raised(BadTransition(locked.status)); }
      if requireEnded && locked.endsAt > now { return Raised(NotEnded); }
      var oldStatus := locked.status;
      bookings := bookings[id := locked.(status := target)];
      log := log + [Changed(id, oldStatus, target)];
      return Booked(id);
    }

    method CancelBooking(space: SpaceId, id: BookingId) returns (outcome: Outcome)
      modifies this
      ensures forall now, newId :: Served(old(Tables()), BookingModel.CancelBooking(space, id), now, newId, outcome)
      ensures outcome == Booked(id) <==> Stands(old(Tables()), space, id, Confirmed)
      ensures outcome == Booked(id) ==>
        && bookings == old(bookings)[id := old(bookings)[id].(status := Cancelled)]
        && log == old(log) + [Changed(id, Confirmed, Cancelled)] && spaces == old(spaces)
    {
      outcome := Transition(space, id, Cancelled, false, 0);
      forall now, newId
        ensures Served(old(Tables()), BookingModel.CancelBooking(space, id), now, newId, outcome)
      {
        var view := View(Lookup(old(spaces), space), Lookup(old(bookings), id), 0, false);
        assert Tables() == Commit(old(Tables()), DecideTransition(space, id, Cancelled, false, view), newId);
      }
    }

    method CompleteBooking(space: SpaceId, id: BookingId, now: Time) returns (outcome: Outcome)
      modifies this
      ensures forall newId :: Served(old(Tables()), BookingModel.CompleteBooking(space, id), now, newId, outcome)
      ensures outcome == Booked(id) <==>
        Stands(old(Tables()), space, id, Confirmed) && old(bookings)[id].endsAt <= now
      ensures outcome == Booked(id) ==>
        && bookings == old(bookings)[id := old(bookings)[id].(status := Completed)]
        && log == old(log) + [Changed(id, Confirmed, Completed)] && spaces == old(spaces)
    {
      outcome := Transition(space, id, Completed, true, now);
    }

    method MarkNoShow(space: SpaceId, id: BookingId, now: Time) returns (outcome: Outcome)
      modifies this
      ensures forall newId :: Served(old(Tables()), BookingModel.MarkNoShow(space, id), now, newId, outcome)
      ensures outcome == Booked(id) <==>
        Stands(old(Tables()), space, id, Confirmed) && old(bookings)[id].endsAt <= now
      ensures outcome == Booked(id) ==>
        && bookings == old(bookings)[id := old(bookings)[id].(status := NoShow)]
        && log == old(log) + [Changed(id, Confirmed, NoShow)] && spaces == old(spaces)
    {
      outcome := Transition(space, id, NoShow, true, now);
    }

    method UpdateRules(space: SpaceId, changes: RuleChanges) returns (outcome: Outcome)
      modifies this
      ensures forall now, newId :: Served(old(Tables()), BookingModel.UpdateRules(space, changes), now, newId, outcome)
      ensures outcome.Raised? ==> Tables() == old(Tables())
      ensures outcome == Saved <==>
        && changes.unknown == {}
        && space in old(spaces) && old(spaces)[space].active
        && WithinBounds(ApplyChanges(old(spaces)[space], changes))
      ensures outcome == Saved ==>
        && space in spaces && RulesSet(changes, old(spaces)[space], spaces[space])
        && spaces == old(spaces)[space := spaces[space]] && bookings == old(bookings)
    {
      if changes.unknown != {} { return Raised(UnknownFields(changes.unknown)); }
      if space !in spaces { return Raised(NotFound); }
      var locked := spaces[space];
      if !locked.active { return Raised(Inactive); }
      locked := locked.(minMinutes := OrElse(changes.minMinutes, locked.minMinutes));
      locked := locked.(maxMinutes := OrElse(changes.maxMinutes, locked.maxMinutes));
      locked := locked.(leadMinutes := OrElse(changes.leadMinutes, locked.leadMinutes));
      locked := locked.(advanceDays := OrElse(changes.advanceDays, locked.advanceDays));
      locked := locked.(mode := OrElse(changes.mode, locked.mode));
      assert locked == ApplyChanges(spaces[space], changes);
      var broken := BrokenRule(locked);
      if broken.Some? { return Raised(BadRule(broken.value)); }
      spaces := spaces[space := locked];
      log := log + [SpaceEvent(space)];
      return Saved;
    }

    method DeactivateSpace(space: SpaceId) returns (outcome: Outcome)
      modifies this
      ensures forall now, newId :: Served(old(Tables()), BookingModel.DeactivateSpace(space), now, newId, outcome)
      ensures outcome == Saved <==> space in old(spaces) && old(spaces)[space].active
      ensures outcome == Saved ==> space in spaces && !spaces[space].active && bookings == old(bookings)
      ensures outcome == Saved ==> spaces == old(spaces)[space := old(spaces)[space].(active := false)]
    {
      if space !in spaces { return Raised(NotFound); }
      if !spaces[space].active { return Raised(Inactive); }
      spaces := spaces[space := spaces[space].(active := false)];
      log := log + [SpaceEvent(space)];
      return Saved;
    }
  }
}
