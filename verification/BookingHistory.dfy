/**
 Atomic operations on the calendar together with the history needed to talk about moments:
 when each booking was confirmed, and how far the clock had advanced at each space.
 `Sound` is the invariant that every operation keeps.
 */
module BookingHistory {
  import opened Options
  import opened BookingModel

  /** `at` is the clock reading under the lock; `place` indexes the audit entry of the confirmation. */
  datatype Confirmation = Confirmation(at: Time, place: nat)

  /**
   `mark[s]` is the latest clock reading used by an operation on space s. Operations on one space
   are serialised by its row lock, so their readings never go back; across spaces they may.
   */
  datatype World = World(db: Db, mark: map<SpaceId, Time>, confirmed: map<BookingId, Confirmation>)

  const NOTHING: World := World(Db(map[], map[], []), map[], map[])

  function Exec(w: World, op: Op, now: Time, newId: BookingId): World {
    Record(w, Decide(op, Look(w.db, op, now)), op.space, now, newId)
  }

  function Record(w: World, plan: Plan, space: SpaceId, now: Time, newId: BookingId): World {
    var db := Commit(w.db, plan, newId);
    match plan
    case Refuse(_) => w
    case Insert(row) =>
      World(db, w.mark[space := now],
        if row.status == Confirmed then w.confirmed[newId := Confirmation(now, |w.db.log|)] else w.confirmed)
    case SetStatus(id, _, status) =>
      World(db, w.mark[space := now],
        if status == Confirmed then w.confirmed[id := Confirmation(now, |w.db.log|)] else w.confirmed)
    case SetSpace(_, _) => World(db, w.mark[space := now], w.confirmed)
  }

  function OpenSpace(w: World, space: SpaceId, mode: ApprovalMode, now: Time): World {
    World(
      Db(w.db.spaces[space := DefaultSpace(mode)], w.db.bookings, w.db.log + [SpaceEvent(space)]),
      w.mark[space := now],
      w.confirmed)
  }

  /** The operation reads the clock after every earlier operation on its space. */
  predicate Timely(w: World, op: Op, now: Time) {
    op.space in w.mark ==> w.mark[op.space] <= now
  }

  // ---------------------------------------------------------------- the invariant

  /** Confirmed at some moment and not cancelled since. */
  predicate Held(s: Status) {
    s == Confirmed || s == Completed || s == NoShow
  }

  predicate Terminal(s: Status) {
    s == Rejected || s == Cancelled || s == Completed || s == NoShow
  }

  predicate Meet(a: Booking, b: Booking) {
    a.space == b.space && Overlap(a.startsAt, a.endsAt, b.startsAt, b.endsAt)
  }

  ghost predicate RulesHold(w: World) {
    && w.mark.Keys == w.db.spaces.Keys
    && forall s :: s in w.db.spaces ==> BrokenRule(w.db.spaces[s]).None?
  }

  ghost predicate RowHolds(w: World, b: Booking) {
    && b.space in w.mark
    && MINUTE <= b.endsAt - b.startsAt <= MAX_DURATION_MINUTES * MINUTE
    && b.startsAt <= w.mark[b.space] + MAX_ADVANCE_DAYS * DAY
    && (b.status in {Completed, NoShow} ==> b.endsAt <= w.mark[b.space])
  }

  ghost predicate RowsHold(w: World) {
    forall id :: id in w.db.bookings ==> RowHolds(w, w.db.bookings[id])
  }

  /** CONFIRMED bookings of one space are pairwise disjoint half-open intervals. */
  ghost predicate ConfirmedDisjoint(bookings: map<BookingId, Booking>) {
    forall i, j :: i in bookings && j in bookings && i != j
      && bookings[i].status == Confirmed && bookings[j].status == Confirmed
      ==> !Meet(bookings[i], bookings[j])
  }

  predicate Confirms(e: Entry, id: BookingId) {
    e == Created(id, Confirmed) || (e.Changed? && e.booking == id && e.newStatus == Confirmed)
  }

  ghost predicate ConfirmationHolds(w: World, id: BookingId) {
    && id in w.confirmed
    && var c := w.confirmed[id];
    && c.place < |w.db.log|
    && Confirms(w.db.log[c.place], id)
    && id in w.db.bookings
    && w.db.bookings[id].space in w.mark
    && c.at <= w.mark[w.db.bookings[id].space]
    && (w.db.log[c.place].Created? ==> c.at <= w.db.bookings[id].startsAt)
  }

  ghost predicate ConfirmationsHold(w: World) {
    forall id :: id in w.db.bookings && Held(w.db.bookings[id].status) ==> ConfirmationHolds(w, id)
  }

  /**
   Of two held bookings of one space, the one confirmed first had ended when the other was
   confirmed, or they never share an instant.
   */
  ghost predicate HeldHolds(w: World) {
    forall i, j :: i in w.db.bookings && j in w.db.bookings
      && Held(w.db.bookings[i].status) && Held(w.db.bookings[j].status)
      && i in w.confirmed && j in w.confirmed
      && w.confirmed[i].place < w.confirmed[j].place
      && Meet(w.db.bookings[i], w.db.bookings[j])
      ==> w.db.bookings[i].endsAt <= w.confirmed[j].at
  }

  // ---------------------------------------------------------------- the audit log

  /** Booking statuses obtained by folding the log from its start. */
  function Replay(log: seq<Entry>): map<BookingId, Status> {
    if log == [] then map[]
    else
      var before := Replay(log[..|log| - 1]);
      match log[|log| - 1]
      case Created(id, status) => before[id := status]
      case Changed(id, _, newStatus) => before[id := newStatus]
      case SpaceEvent(_) => before
  }

  /** The entry agrees with the statuses replayed from the entries before it. */
  predicate Truthful(before: map<BookingId, Status>, e: Entry) {
    match e
    case Created(id, status) => id !in before && status in {Pending, Confirmed}
    case Changed(id, oldStatus, newStatus) =>
      && Lookup(before, id) == Some(oldStatus)
      && if oldStatus == Pending then newStatus in {Confirmed, Rejected}
         else oldStatus == Confirmed && newStatus in {Cancelled, Completed, NoShow}
    case SpaceEvent(_) => true
  }

  ghost predicate LogTruthful(log: seq<Entry>) {
    forall k :: 0 <= k < |log| ==> Truthful(Replay(log[..k]), log[k])
  }

  function Statuses(bookings: map<BookingId, Booking>): map<BookingId, Status> {
    map id | id in bookings :: bookings[id].status
  }

  ghost predicate LogHolds(db: Db) {
    Replay(db.log) == Statuses(db.bookings) && LogTruthful(db.log)
  }

  ghost predicate Sound(w: World) {
    && RulesHold(w)
    && RowsHold(w)
    && ConfirmedDisjoint(w.db.bookings)
    && ConfirmationsHold(w)
    && HeldHolds(w)
    && LogHolds(w.db)
  }

  // ---------------------------------------------------------------- what one operation keeps

  lemma ReplayAppend(log: seq<Entry>, e: Entry)
    requires LogTruthful(log)
    requires Truthful(Replay(log), e)
    ensures LogTruthful(log + [e])
    ensures Replay(log + [e]) ==
      match e
      case Created(id, status) => Replay(log)[id := status]
      case Changed(id, _, newStatus) => Replay(log)[id := newStatus]
      case SpaceEvent(_) => Replay(log)
  {
    var longer := log + [e];
    assert longer[..|log|] == log;
    forall k | 0 <= k < |longer| ensures Truthful(Replay(longer[..k]), longer[k]) {
      assert longer[..k] == log[..k] || k == |log|;
    }
  }

  /** The legal plans that can come out of a decision about what is really in the tables. */
  ghost predicate Justified(w: World, plan: Plan, space: SpaceId, now: Time) {
    match plan
    case Refuse(_) => true
    case Insert(row) =>
      && space in w.db.spaces
      && row.space == space
      && row.status in {Pending, Confirmed}
      && MINUTE <= row.endsAt - row.startsAt <= MAX_DURATION_MINUTES * MINUTE
      && now <= row.startsAt <= now + MAX_ADVANCE_DAYS * DAY
      && (row.status == Confirmed ==> !ConfirmedOverlap(w.db.bookings, space, row.startsAt, row.endsAt, None))
    case SetStatus(id, oldRow, status) =>
      && space in w.db.spaces
      && Lookup(w.db.bookings, id) == Some(oldRow)
      && oldRow.space == space
      && (if oldRow.status == Pending then status in {Confirmed, Rejected}
          else oldRow.status == Confirmed && status in {Cancelled, Completed, NoShow})
      && (status == Confirmed ==>
            !ConfirmedOverlap(w.db.bookings, space, oldRow.startsAt, oldRow.endsAt, Some(id)))
      && (status in {Completed, NoShow} ==> oldRow.endsAt <= now)
    case SetSpace(id, settings) =>
      id == space && space in w.db.spaces && BrokenRule(settings).None?
  }

  lemma DecisionsAreJustified(w: World, op: Op, now: Time)
    requires RulesHold(w)
    ensures Justified(w, Decide(op, Look(w.db, op, now)), op.space, now)
  {
  }

  lemma RecordKeepsRows(w: World, plan: Plan, space: SpaceId, now: Time, newId: BookingId)
    requires RulesHold(w) && RowsHold(w) && Justified(w, plan, space, now) && newId !in w.db.bookings
    requires space in w.mark ==> w.mark[space] <= now
    ensures RulesHold(Record(w, plan, space, now, newId))
    ensures RowsHold(Record(w, plan, space, now, newId))
  {
    var w' := Record(w, plan, space, now, newId);
    forall id | id in w'.db.bookings ensures RowHolds(w', w'.db.bookings[id]) {
      assert id in w.db.bookings ==> RowHolds(w, w.db.bookings[id]);
    }
  }

  lemma PutKeepsDisjoint(bookings: map<BookingId, Booking>, id: BookingId, row: Booking)
    requires ConfirmedDisjoint(bookings)
    requires row.status == Confirmed
      ==> !ConfirmedOverlap(bookings, row.space, row.startsAt, row.endsAt, Some(id))
    ensures ConfirmedDisjoint(bookings[id := row])
  {
    var after := bookings[id := row];
    forall i, j | i in after && j in after && i != j && after[i].status == Confirmed && after[j].status == Confirmed
      ensures !Meet(after[i], after[j])
    {
      var other := if i == id then j else i;
      if id in {i, j} && Meet(after[i], after[j]) {
        assert Clashes(bookings[other], row.space, row.startsAt, row.endsAt);
      }
    }
  }

  lemma RecordKeepsDisjoint(w: World, plan: Plan, space: SpaceId, now: Time, newId: BookingId)
    requires ConfirmedDisjoint(w.db.bookings) && Justified(w, plan, space, now) && newId !in w.db.bookings
    ensures ConfirmedDisjoint(Record(w, plan, space, now, newId).db.bookings)
  {
    match plan
    case Refuse(_) =>
    case Insert(row) => PutKeepsDisjoint(w.db.bookings, newId, row);
    case SetStatus(id, oldRow, status) => PutKeepsDisjoint(w.db.bookings, id, oldRow.(status := status));
    case SetSpace(_, _) =>
  }

  lemma RecordKeepsConfirmations(w: World, plan: Plan, space: SpaceId, now: Time, newId: BookingId)
    requires ConfirmationsHold(w) && Justified(w, plan, space, now) && newId !in w.db.bookings
    requires space in w.mark ==> w.mark[space] <= now
    ensures ConfirmationsHold(Record(w, plan, space, now, newId))
  {
    var w' := Record(w, plan, space, now, newId);
    forall id | id in w'.db.bookings && Held(w'.db.bookings[id].status) ensures ConfirmationHolds(w', id) {
      assert id in w.db.bookings && Held(w.db.bookings[id].status) ==> ConfirmationHolds(w, id);
      if id in w.db.bookings && Held(w.db.bookings[id].status) {
        assert w'.db.log[w.confirmed[id].place] == w.db.log[w.confirmed[id].place];
      }
    }
  }

  /** A booking that is confirmed now meets only held bookings that have already ended. */
  lemma EarlierHaveEnded(w: World, i: BookingId, row: Booking, id: BookingId, now: Time)
    requires RowsHold(w)
    requires i in w.db.bookings && i != id && Held(w.db.bookings[i].status) && Meet(w.db.bookings[i], row)
    requires !ConfirmedOverlap(w.db.bookings, row.space, row.startsAt, row.endsAt, Some(id))
    requires row.space in w.mark && w.mark[row.space] <= now
    ensures w.db.bookings[i].endsAt <= now
  {
    assert RowHolds(w, w.db.bookings[i]);
    assert !Clashes(w.db.bookings[i], row.space, row.startsAt, row.endsAt);
  }

  /** Confirming `id`, whose row becomes `row`, keeps `HeldHolds`. */
  lemma ConfirmKeepsHeld(w: World, w': World, id: BookingId, row: Booking, now: Time)
    requires RowsHold(w) && ConfirmationsHold(w) && HeldHolds(w)
    requires id in w.db.bookings ==> !Held(w.db.bookings[id].status)
    requires !ConfirmedOverlap(w.db.bookings, row.space, row.startsAt, row.endsAt, Some(id))
    requires row.space in w.mark && w.mark[row.space] <= now
    requires w'.db.bookings == w.db.bookings[id := row]
    requires w'.confirmed == w.confirmed[id := Confirmation(now, |w.db.log|)]
    ensures HeldHolds(w')
  {
    forall k | k in w.db.bookings && Held(w.db.bookings[k].status)
      ensures k in w.confirmed && w.confirmed[k].place < |w.db.log|
    {
      assert ConfirmationHolds(w, k);
    }
    forall i, j | i in w'.db.bookings && j in w'.db.bookings
      && Held(w'.db.bookings[i].status) && Held(w'.db.bookings[j].status)
      && i in w'.confirmed && j in w'.confirmed
      && w'.confirmed[i].place < w'.confirmed[j].place
      && Meet(w'.db.bookings[i], w'.db.bookings[j])
      ensures w'.db.bookings[i].endsAt <= w'.confirmed[j].at
    {
      if j == id { EarlierHaveEnded(w, i, row, id, now); }
    }
  }

  /** A row that is not confirmed, or was held before, adds nothing to `HeldHolds`. */
  lemma OtherRowsKeepHeld(w: World, w': World, id: BookingId, row: Booking)
    requires HeldHolds(w) && w'.confirmed == w.confirmed && w'.db.bookings == w.db.bookings[id := row]
    requires !Held(row.status)
          || (id in w.db.bookings && Held(w.db.bookings[id].status) && row == w.db.bookings[id].(status := row.status))
    ensures HeldHolds(w')
  {
  }

  lemma RecordKeepsHeld(w: World, plan: Plan, space: SpaceId, now: Time, newId: BookingId)
    requires RulesHold(w) && RowsHold(w) && ConfirmationsHold(w) && HeldHolds(w)
    requires Justified(w, plan, space, now) && newId !in w.db.bookings
    requires space in w.mark ==> w.mark[space] <= now
    ensures HeldHolds(Record(w, plan, space, now, newId))
  {
    var w' := Record(w, plan, space, now, newId);
    match plan
    case Refuse(_) =>
    case Insert(row) =>
      if row.status == Confirmed { ConfirmKeepsHeld(w, w', newId, row, now); }
      else { OtherRowsKeepHeld(w, w', newId, row); }
    case SetStatus(id, oldRow, status) =>
      var row := oldRow.(status := status);
      if status == Confirmed { ConfirmKeepsHeld(w, w', id, row, now); } else { OtherRowsKeepHeld(w, w', id, row); }
    case SetSpace(_, _) =>
  }

  lemma RecordKeepsLog(w: World, plan: Plan, space: SpaceId, now: Time, newId: BookingId)
    requires LogHolds(w.db) && Justified(w, plan, space, now) && newId !in w.db.bookings
    ensures LogHolds(Record(w, plan, space, now, newId).db)
  {
    var after := Record(w, plan, space, now, newId).db;
    match plan
    case Refuse(_) =>
    case Insert(row) =>
      ReplayAppend(w.db.log, Created(newId, row.status));
      assert Statuses(after.bookings) == Statuses(w.db.bookings)[newId := row.status];
    case SetStatus(id, oldRow, status) =>
      assert Lookup(Statuses(w.db.bookings), id) == Some(oldRow.status);
      ReplayAppend(w.db.log, Changed(id, oldRow.status, status));
      assert Statuses(after.bookings) == Statuses(w.db.bookings)[id := status];
    case SetSpace(id, _) => ReplayAppend(w.db.log, SpaceEvent(id));
  }

  /** Every service call keeps the invariant, whatever it decides. */
  lemma ExecKeepsSound(w: World, op: Op, now: Time, newId: BookingId)
    requires Sound(w) && Timely(w, op, now) && newId !in w.db.bookings
    ensures Sound(Exec(w, op, now, newId))
  {
    DecisionsAreJustified(w, op, now);
    var plan := Decide(op, Look(w.db, op, now));
    RecordKeepsRows(w, plan, op.space, now, newId);
    RecordKeepsDisjoint(w, plan, op.space, now, newId);
    RecordKeepsConfirmations(w, plan, op.space, now, newId);
    RecordKeepsHeld(w, plan, op.space, now, newId);
    RecordKeepsLog(w, plan, op.space, now, newId);
  }

  lemma OpenSpaceKeepsSound(w: World, space: SpaceId, mode: ApprovalMode, now: Time)
    requires Sound(w) && space !in w.db.spaces && !mode.Unrecognised?
    ensures Sound(OpenSpace(w, space, mode, now))
  {
    var w' := OpenSpace(w, space, mode, now);
    ReplayAppend(w.db.log, SpaceEvent(space));
    forall id | id in w'.db.bookings ensures RowHolds(w', w'.db.bookings[id]) {
      assert RowHolds(w, w.db.bookings[id]);
    }
    forall id | id in w'.db.bookings && Held(w'.db.bookings[id].status) ensures ConfirmationHolds(w', id) {
      assert ConfirmationHolds(w, id);
    }
  }
}
