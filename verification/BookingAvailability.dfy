/** The published availability of a space, and why it can be trusted by whoever books next. */
module BookingAvailability {
  import opened Options
  import opened BookingModel
  import opened BookingHistory
  import opened BookingProtocol

  datatype Slot = Slot(startsAt: Time, endsAt: Time)

  /** The filter of the availability query: confirmed bookings that touch the window. */
  function Touching(bookings: map<BookingId, Booking>, space: SpaceId, from: Time, to: Time): set<BookingId> {
    set id | id in bookings && Clashes(bookings[id], space, from, to)
  }

  /** The row order ("starts_at", "id"). */
  predicate Before(bookings: map<BookingId, Booking>, i: BookingId, j: BookingId)
    requires i in bookings && j in bookings
  {
    bookings[i].startsAt < bookings[j].startsAt || (bookings[i].startsAt == bookings[j].startsAt && i < j)
  }

  ghost predicate Sorted(bookings: map<BookingId, Booking>, rows: seq<BookingId>) {
    && (forall k :: 0 <= k < |rows| ==> rows[k] in bookings)
    && forall k, l :: 0 <= k < l < |rows| ==> Before(bookings, rows[k], rows[l])
  }

  predicate IsFirst(bookings: map<BookingId, Booking>, ids: set<BookingId>, first: BookingId)
    requires ids <= bookings.Keys
  {
    first in ids && forall id :: id in ids && id != first ==> Before(bookings, first, id)
  }

  lemma {:induction false} HasFirst(bookings: map<BookingId, Booking>, ids: set<BookingId>)
    requires ids != {} && ids <= bookings.Keys
    ensures exists first :: IsFirst(bookings, ids, first)
  {
    var id :| id in ids;
    if ids == {id} {
      assert IsFirst(bookings, ids, id);
    } else {
      HasFirst(bookings, ids - {id});
      var other :| IsFirst(bookings, ids - {id}, other);
      if Before(bookings, id, other) {
        forall x | x in ids && x != id ensures Before(bookings, id, x) {
          assert x == other || Before(bookings, other, x);
        }
        assert IsFirst(bookings, ids, id);
      } else {
        assert IsFirst(bookings, ids, other);
      }
    }
  }

  /** ORDER BY: the rows of the set, each once, in row order. */
  ghost function Ordered(bookings: map<BookingId, Booking>, ids: set<BookingId>): (rows: seq<BookingId>)
    requires ids <= bookings.Keys
    ensures Sorted(bookings, rows)
    ensures forall id :: id in rows <==> id in ids
  {
    if ids == {} then []
    else
      HasFirst(bookings, ids);
      var first :| IsFirst(bookings, ids, first);
      [first] + Ordered(bookings, ids - {first})
  }

  ghost function Published(db: Db, space: SpaceId, from: Time, to: Time): (slots: seq<Slot>) {
    var rows := Ordered(db.bookings, Touching(db.bookings, space, from, to));
    seq(|rows|, k requires 0 <= k < |rows| => Slot(db.bookings[rows[k]].startsAt, db.bookings[rows[k]].endsAt))
  }

  /** Listed slots come in time order and never run into each other. */
  lemma PublishedIsSortedAndDisjoint(
    states: seq<Sys>, steps: seq<Step>, n: nat, space: SpaceId, from: Time, to: Time, k: nat, l: nat)
    requires Run(states, steps) && n < |states|
    requires k < l < |Published(states[n].world.db, space, from, to)|
    ensures Published(states[n].world.db, space, from, to)[k].endsAt
         <= Published(states[n].world.db, space, from, to)[l].startsAt
  {
    RunIsCoherent(states, steps, n);
    var w := states[n].world;
    var rows := Ordered(w.db.bookings, Touching(w.db.bookings, space, from, to));
    assert rows[k] in Touching(w.db.bookings, space, from, to) && rows[l] in Touching(w.db.bookings, space, from, to);
    assert Before(w.db.bookings, rows[k], rows[l]);
    assert RowHolds(w, w.db.bookings[rows[k]]) && RowHolds(w, w.db.bookings[rows[l]]);
    assert !Meet(w.db.bookings[rows[k]], w.db.bookings[rows[l]]);
  }

  /** For an interval inside the window, a conflict exists exactly when some listed slot overlaps it. */
  lemma PublishedPredictsConflicts(db: Db, space: SpaceId, from: Time, to: Time, startsAt: Time, endsAt: Time)
    requires from <= startsAt && endsAt <= to
    ensures ConfirmedOverlap(db.bookings, space, startsAt, endsAt, None)
      <==> exists k :: 0 <= k < |Published(db, space, from, to)|
             && Overlap(Published(db, space, from, to)[k].startsAt, Published(db, space, from, to)[k].endsAt,
                        startsAt, endsAt)
  {
    var rows := Ordered(db.bookings, Touching(db.bookings, space, from, to));
    var slots := Published(db, space, from, to);
    if ConfirmedOverlap(db.bookings, space, startsAt, endsAt, None) {
      var id :| id in db.bookings && Clashes(db.bookings[id], space, startsAt, endsAt);
      assert id in Touching(db.bookings, space, from, to);
      var k :| 0 <= k < |rows| && rows[k] == id;
      assert Overlap(slots[k].startsAt, slots[k].endsAt, startsAt, endsAt);
    }
    if k :| 0 <= k < |slots| && Overlap(slots[k].startsAt, slots[k].endsAt, startsAt, endsAt) {
      assert rows[k] in Touching(db.bookings, space, from, to);
      assert Clashes(db.bookings[rows[k]], space, startsAt, endsAt);
    }
  }

  predicate IsSlotOf(b: Booking, slot: Slot) {
    slot.startsAt == b.startsAt && slot.endsAt == b.endsAt
  }

  /** A slot is listed exactly for the confirmed bookings of the space that share time with the window. */
  lemma PublishedIff(db: Db, space: SpaceId, from: Time, to: Time, slot: Slot)
    ensures slot in Published(db, space, from, to) <==>
      exists id :: id in db.bookings && db.bookings[id].space == space && db.bookings[id].status == Confirmed
        && db.bookings[id].startsAt < to && from < db.bookings[id].endsAt
        && IsSlotOf(db.bookings[id], slot)
  {
    var rows := Ordered(db.bookings, Touching(db.bookings, space, from, to));
    var slots := Published(db, space, from, to);
    if slot in slots {
      var k :| 0 <= k < |slots| && slots[k] == slot;
      assert rows[k] in Touching(db.bookings, space, from, to);
    }
    if id :| id in Touching(db.bookings, space, from, to) && IsSlotOf(db.bookings[id], slot) {
      var k :| 0 <= k < |rows| && rows[k] == id;
      assert slots[k] == slot;
    }
  }
}
