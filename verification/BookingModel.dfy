/**
 The booking calendar: rows, rules, and every locked operation split into the three things a
 transaction does with the tables. `Look` reads, `Decide` validates what was read, and `Commit`
 writes the rows and appends the audit entry.
 */
module BookingModel {
  import opened Options

  type SpaceId = nat
  type BookingId = nat

  /** A point in time, in microseconds. */
  type Time = int

  const MINUTE: int := 60_000_000
  const DAY: int := 1440 * MINUTE

  const MAX_DURATION_MINUTES: int := 60 * 24 * 30
  const MAX_LEAD_MINUTES: int := 60 * 24 * 365
  const MAX_ADVANCE_DAYS: int := 3650

  datatype Status = Pending | Confirmed | Rejected | Cancelled | Completed | NoShow

  /** `approval_mode` is a text column; `Unrecognised` is any text outside its two choices. */
  datatype ApprovalMode = Instant | Approve | Unrecognised(text: string)

  datatype Space = Space(
    active: bool,
    mode: ApprovalMode,
    minMinutes: int,
    maxMinutes: int,
    leadMinutes: int,
    advanceDays: int)

  datatype Booking = Booking(space: SpaceId, startsAt: Time, endsAt: Time, status: Status)

  datatype Entry =
    | Created(booking: BookingId, status: Status)
    | Changed(booking: BookingId, oldStatus: Status, newStatus: Status)
    | SpaceEvent(space: SpaceId)

  datatype Db = Db(spaces: map<SpaceId, Space>, bookings: map<BookingId, Booking>, log: seq<Entry>)

  /** Column defaults of a space; `create_space` leaves the rule columns alone. */
  function DefaultSpace(mode: ApprovalMode): Space {
    Space(true, mode, 30, 480, 60, 30)
  }

  /** Keyword arguments of `update_booking_rules`. `unknown` holds the names outside RULE_FIELDS. */
  datatype RuleChanges = RuleChanges(
    unknown: set<string>,
    minMinutes: Option<int>,
    maxMinutes: Option<int>,
    leadMinutes: Option<int>,
    advanceDays: Option<int>,
    mode: Option<ApprovalMode>)

  /** Verdicts of the collaborators that `create_booking` consults. */
  datatype Verdicts = Verdicts(fence: bool, fields: bool, answers: bool, quota: bool)

  /**
   One call of a service. `space` is the primary key the caller's (possibly stale) object points
   at; it names the row that gets locked.
   */
  datatype Op =
    | CreateBooking(space: SpaceId, startsAt: Time, endsAt: Time, verdicts: Verdicts)
    | ApproveBooking(space: SpaceId, booking: BookingId)
    | RejectBooking(space: SpaceId, booking: BookingId)
    | CancelBooking(space: SpaceId, booking: BookingId)
    | CompleteBooking(space: SpaceId, booking: BookingId)
    | MarkNoShow(space: SpaceId, booking: BookingId)
    | UpdateRules(space: SpaceId, changes: RuleChanges)
    | EditSpace(space: SpaceId, accepted: bool)
    | DeactivateSpace(space: SpaceId)

  datatype Error =
    | NotFound | Inactive | Moved | BadTransition(from: Status) | NotEnded | Ended | Conflict
    | WriteFenced | BadFields | EndsNotAfterStart | TooShort | TooLong | TooSoon | TooFar | InThePast
    | BadAnswers | QuotaExceeded | UnknownFields(names: set<string>) | BadRule(rule: Rule)

  datatype Rule = MinPositive | MaxPositive | MaxBelowMin | MinCap | MaxCap
                | LeadNegative | LeadCap | AdvancePositive | AdvanceCap | ModeChoice

  /** Everything a transaction has read by the time it makes up its mind. */
  datatype View = View(space: Option<Space>, row: Option<Booking>, now: Time, clash: bool)

  datatype Plan =
    | Refuse(error: Error)
    | Insert(row: Booking)
    | SetStatus(booking: BookingId, oldRow: Booking, status: Status)
    | SetSpace(space: SpaceId, settings: Space)

  // ---------------------------------------------------------------- reading

  /** Half-open intervals [a, b) and [c, d) share an instant. */
  predicate Overlap(a: Time, b: Time, c: Time, d: Time) {
    a < d && c < b
  }

  predicate Clashes(b: Booking, space: SpaceId, startsAt: Time, endsAt: Time) {
    && b.space == space
    && b.status == Confirmed
    && b.startsAt < endsAt
    && b.endsAt > startsAt
  }

  predicate ConfirmedOverlap(
    bookings: map<BookingId, Booking>, space: SpaceId, startsAt: Time, endsAt: Time, exclude: Option<BookingId>)
  {
    exists id :: id in bookings && exclude != Some(id) && Clashes(bookings[id], space, startsAt, endsAt)
  }

  function ReadRow(db: Db, op: Op): Option<Booking> {
    match op
    case ApproveBooking(_, id) => Lookup(db.bookings, id)
    case RejectBooking(_, id) => Lookup(db.bookings, id)
    case CancelBooking(_, id) => Lookup(db.bookings, id)
    case CompleteBooking(_, id) => Lookup(db.bookings, id)
    case MarkNoShow(_, id) => Lookup(db.bookings, id)
    case _ => None
  }

  function QueryClash(db: Db, op: Op, row: Option<Booking>): bool {
    match op
    case CreateBooking(space, startsAt, endsAt, _) =>
      ConfirmedOverlap(db.bookings, space, startsAt, endsAt, None)
    case ApproveBooking(space, id) =>
      row.Some? && ConfirmedOverlap(db.bookings, space, row.value.startsAt, row.value.endsAt, Some(id))
    case _ => false
  }

  /** What an undisturbed transaction reads. */
  function Look(db: Db, op: Op, now: Time): View {
    var row := ReadRow(db, op);
    View(Lookup(db.spaces, op.space), row, now, QueryClash(db, op, row))
  }

  // ---------------------------------------------------------------- deciding

  function RuleViolation(space: Space, startsAt: Time, endsAt: Time, now: Time): Option<Error> {
    var duration := endsAt - startsAt;
    if duration < space.minMinutes * MINUTE then Some(TooShort)
    else if duration > space.maxMinutes * MINUTE then Some(TooLong)
    else if startsAt < now + space.leadMinutes * MINUTE then Some(TooSoon)
    else if startsAt > now + space.advanceDays * DAY then Some(TooFar)
    else None
  }

  function DecideCreate(
    space: SpaceId, startsAt: Time, endsAt: Time, verdicts: Verdicts, view: View): Plan
  {
    if !verdicts.fence then Refuse(WriteFenced)
    else if view.space.None? then Refuse(NotFound)
    else if !view.space.value.active then Refuse(Inactive)
    else if !verdicts.fields then Refuse(BadFields)
    else if endsAt <= startsAt then Refuse(EndsNotAfterStart)
    else
      var violation := RuleViolation(view.space.value, startsAt, endsAt, view.now);
      if violation.Some? then Refuse(violation.value)
      else if endsAt <= view.now then Refuse(InThePast)
      else if !verdicts.answers then Refuse(BadAnswers)
      else if !verdicts.quota then Refuse(QuotaExceeded)
      else
        var status := if view.space.value.mode == Instant then Confirmed else Pending;
        if status == Confirmed && view.clash then Refuse(Conflict)
        else Insert(Booking(space, startsAt, endsAt, status))
  }

  /** `_locked_booking`: the two lookups and the check that the row still belongs to the space. */
  function LockedBooking(space: SpaceId, view: View): Option<Error> {
    if view.space.None? || view.row.None? then Some(NotFound)
    else if view.row.value.space != space then Some(Moved)
    else None
  }

  function DecideApprove(space: SpaceId, id: BookingId, view: View): Plan {
    var problem := LockedBooking(space, view);
    if problem.Some? then Refuse(problem.value)
    else if view.row.value.status != Pending then Refuse(BadTransition(view.row.value.status))
    else if !view.space.value.active then Refuse(Inactive)
    else if view.row.value.endsAt <= view.now then Refuse(Ended)
    else if view.clash then Refuse(Conflict)
    else SetStatus(id, view.row.value, Confirmed)
  }

  function DecideReject(space: SpaceId, id: BookingId, view: View): Plan {
    var problem := LockedBooking(space, view);
    if problem.Some? then Refuse(problem.value)
    else if view.row.value.status != Pending then Refuse(BadTransition(view.row.value.status))
    else SetStatus(id, view.row.value, Rejected)
  }

  function DecideTransition(space: SpaceId, id: BookingId, target: Status, requireEnded: bool, view: View): Plan {
    var problem := LockedBooking(space, view);
    if problem.Some? then Refuse(problem.value)
    else if view.row.value.status != Confirmed then Refuse(BadTransition(view.row.value.status))
    else if requireEnded && view.row.value.endsAt > view.now then Refuse(NotEnded)
    else SetStatus(id, view.row.value, target)
  }

  function OrElse<T>(change: Option<T>, current: T): T {
    if change.Some? then change.value else current
  }

  function ApplyChanges(space: Space, changes: RuleChanges): Space {
    space.(
      minMinutes := OrElse(changes.minMinutes, space.minMinutes),
      maxMinutes := OrElse(changes.maxMinutes, space.maxMinutes),
      leadMinutes := OrElse(changes.leadMinutes, space.leadMinutes),
      advanceDays := OrElse(changes.advanceDays, space.advanceDays),
      mode := OrElse(changes.mode, space.mode))
  }

  function BrokenRule(s: Space): Option<Rule> {
    if s.minMinutes < 1 then Some(MinPositive)
    else if s.maxMinutes < 1 then Some(MaxPositive)
    else if s.maxMinutes < s.minMinutes then Some(MaxBelowMin)
    else if s.minMinutes > MAX_DURATION_MINUTES then Some(MinCap)
    else if s.maxMinutes > MAX_DURATION_MINUTES then Some(MaxCap)
    else if s.leadMinutes < 0 then Some(LeadNegative)
    else if s.leadMinutes > MAX_LEAD_MINUTES then Some(LeadCap)
    else if s.advanceDays < 1 then Some(AdvancePositive)
    else if s.advanceDays > MAX_ADVANCE_DAYS then Some(AdvanceCap)
    else if s.mode.Unrecognised? then Some(ModeChoice)
    else None
  }

  function DecideRules(id: SpaceId, changes: RuleChanges, view: View): Plan {
    if changes.unknown != {} then Refuse(UnknownFields(changes.unknown))
    else if view.space.None? then Refuse(NotFound)
    else if !view.space.value.active then Refuse(Inactive)
    else
      var changed := ApplyChanges(view.space.value, changes);
      var broken := BrokenRule(changed);
      if broken.Some? then Refuse(BadRule(broken.value)) else SetSpace(id, changed)
  }

  function Decide(op: Op, view: View): Plan {
    match op
    case CreateBooking(space, startsAt, endsAt, verdicts) => DecideCreate(space, startsAt, endsAt, verdicts, view)
    case ApproveBooking(space, id) => DecideApprove(space, id, view)
    case RejectBooking(space, id) => DecideReject(space, id, view)
    case CancelBooking(space, id) => DecideTransition(space, id, Cancelled, false, view)
    case CompleteBooking(space, id) => DecideTransition(space, id, Completed, true, view)
    case MarkNoShow(space, id) => DecideTransition(space, id, NoShow, true, view)
    case UpdateRules(space, changes) => DecideRules(space, changes, view)
    case EditSpace(space, accepted) =>
      if view.space.None? then Refuse(NotFound)
      else if !view.space.value.active then Refuse(Inactive)
      else if !accepted then Refuse(BadFields)
      else SetSpace(space, view.space.value)
    case DeactivateSpace(space) =>
      if view.space.None? then Refuse(NotFound)
      else if !view.space.value.active then Refuse(Inactive)
      else SetSpace(space, view.space.value.(active := false))
  }

  // ---------------------------------------------------------------- writing

  /** `newId` is the primary key the database hands to an inserted booking. */
  function Commit(db: Db, plan: Plan, newId: BookingId): Db {
    match plan
    case Refuse(_) => db
    case Insert(row) =>
      db.(bookings := db.bookings[newId := row], log := db.log + [Created(newId, row.status)])
    case SetStatus(id, oldRow, status) =>
      db.(bookings := db.bookings[id := oldRow.(status := status)],
          log := db.log + [Changed(id, oldRow.status, status)])
    case SetSpace(id, settings) =>
      db.(spaces := db.spaces[id := settings], log := db.log + [SpaceEvent(id)])
  }

  /** One service call that runs alone. */
  function Serve(db: Db, op: Op, now: Time, newId: BookingId): Db {
    Commit(db, Decide(op, Look(db, op, now)), newId)
  }
}
