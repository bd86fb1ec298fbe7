/**
 Concurrent transactions on the calendar, one micro-step at a time. A transaction waits for the
 row lock of the space its argument names, and then reads the space, the booking row, the clock
 and the conflict query in separate steps; between any two of them the others may run and commit.
 What it writes becomes visible at its commit and is computed from what it read earlier.
 */
module BookingProtocol {
  import opened Options
  import opened BookingModel
  import opened BookingHistory

  type Tid = nat

  datatype Phase = Waiting | Locked | RowRead | ClockRead | Queried

  datatype Tx = Tx(op: Op, phase: Phase, view: View)

  datatype Sys = Sys(world: World, clock: Time, locks: map<SpaceId, Tid>, txs: map<Tid, Tx>)

  datatype Step =
    | Tick(to: Time)
    | NewSpace(space: SpaceId, mode: ApprovalMode)
    | Begin(tid: Tid, op: Op)
    | Lock(tid: Tid)
    | ReadBooking(tid: Tid)
    | ReadClock(tid: Tid)
    | QueryOverlap(tid: Tid)
    | CommitTx(tid: Tid, newId: BookingId)
    | Abort(tid: Tid)

  predicate InPhase(s: Sys, tid: Tid, phase: Phase) {
    tid in s.txs && s.txs[tid].phase == phase
  }

  predicate Enabled(s: Sys, step: Step) {
    match step
    case Tick(to) => s.clock <= to
    case NewSpace(space, mode) => space !in s.world.db.spaces && !mode.Unrecognised?
    case Begin(tid, _) => tid !in s.txs
    case Lock(tid) =>
      && InPhase(s, tid, Waiting)
      && s.txs[tid].op.space in s.world.db.spaces
      && s.txs[tid].op.space !in s.locks
    case ReadBooking(tid) => InPhase(s, tid, Locked)
    case ReadClock(tid) => InPhase(s, tid, RowRead)
    case QueryOverlap(tid) => InPhase(s, tid, ClockRead)
    case CommitTx(tid, newId) => InPhase(s, tid, Queried) && newId !in s.world.db.bookings
    case Abort(tid) => tid in s.txs
  }

  /** Locks are held to the end of the transaction, whichever way it ends. */
  function Finish(s: Sys, tid: Tid): Sys
    requires tid in s.txs
  {
    var k := s.txs[tid].op.space;
    s.(locks := if k in s.locks && s.locks[k] == tid then s.locks - {k} else s.locks, txs := s.txs - {tid})
  }

  function Advance(s: Sys, tid: Tid, phase: Phase, view: View): Sys
    requires tid in s.txs
  {
    s.(txs := s.txs[tid := s.txs[tid].(phase := phase, view := view)])
  }

  function Next(s: Sys, step: Step): Sys
    requires Enabled(s, step)
  {
    match step
    case Tick(to) => s.(clock := to)
    case NewSpace(space, mode) => s.(world := OpenSpace(s.world, space, mode, s.clock))
    case Begin(tid, op) => s.(txs := s.txs[tid := Tx(op, Waiting, View(None, None, 0, false))])
    case Lock(tid) =>
      var tx := s.txs[tid];
      Advance(s.(locks := s.locks[tx.op.space := tid]), tid, Locked,
              tx.view.(space := Lookup(s.world.db.spaces, tx.op.space)))
    case ReadBooking(tid) =>
      var tx := s.txs[tid];
      Advance(s, tid, RowRead, tx.view.(row := ReadRow(s.world.db, tx.op)))
    case ReadClock(tid) => Advance(s, tid, ClockRead, s.txs[tid].view.(now := s.clock))
    case QueryOverlap(tid) =>
      var tx := s.txs[tid];
      Advance(s, tid, Queried, tx.view.(clash := QueryClash(s.world.db, tx.op, tx.view.row)))
    case CommitTx(tid, newId) =>
      var tx := s.txs[tid];
      Finish(s.(world := Record(s.world, Decide(tx.op, tx.view), tx.op.space, tx.view.now, newId)), tid)
    case Abort(tid) => Finish(s, tid)
  }

  const INITIAL: Sys := Sys(NOTHING, 0, map[], map[])

  /** The step is possible in `s` and ends in `s'`. */
  predicate Leads(s: Sys, step: Step, s': Sys) {
    Enabled(s, step) && s' == Next(s, step)
  }

  /** A run: any finite interleaving of micro-steps from the empty database. */
  ghost predicate Run(states: seq<Sys>, steps: seq<Step>) {
    && |states| == |steps| + 1
    && states[0] == INITIAL
    && forall k {:trigger steps[k]} :: 0 <= k < |steps| ==> Leads(states[k], steps[k], states[k + 1])
  }

  // ---------------------------------------------------------------- the invariant of the protocol

  predicate AtLeast(phase: Phase, wanted: Phase) {
    Rank(wanted) <= Rank(phase)
  }

  function Rank(phase: Phase): nat {
    match phase case Waiting => 0 case Locked => 1 case RowRead => 2 case ClockRead => 3 case Queried => 4
  }

  /** The row, if it belongs to the locked space; only then does it lead anywhere but to a refusal. */
  function OwnRow(row: Option<Booking>, space: SpaceId): Option<Booking> {
    if row.Some? && row.value.space == space then row else None
  }

  /** Whatever the transaction has read so far is still what the tables say. */
  ghost predicate Fresh(s: Sys, tx: Tx) {
    var k := tx.op.space;
    && (AtLeast(tx.phase, Locked) ==> k in s.world.mark && tx.view.space == Lookup(s.world.db.spaces, k))
    && (AtLeast(tx.phase, RowRead) ==>
          OwnRow(tx.view.row, k) == OwnRow(ReadRow(s.world.db, tx.op), k))
    && (AtLeast(tx.phase, ClockRead) ==> k in s.world.mark && s.world.mark[k] <= tx.view.now <= s.clock)
    && (AtLeast(tx.phase, Queried) ==>
          (tx.op.CreateBooking? || OwnRow(tx.view.row, k).Some? ==>
            tx.view.clash == QueryClash(s.world.db, tx.op, tx.view.row)))
  }

  ghost predicate LocksHeld(s: Sys) {
    forall tid :: tid in s.txs && AtLeast(s.txs[tid].phase, Locked) ==>
      s.txs[tid].op.space in s.locks && s.locks[s.txs[tid].op.space] == tid
  }

  ghost predicate Coherent(s: Sys) {
    && Sound(s.world)
    && (forall k :: k in s.world.mark ==> s.world.mark[k] <= s.clock)
    && LocksHeld(s)
    && forall tid :: tid in s.txs ==> Fresh(s, s.txs[tid])
  }

  /** A commit computed from old readings is the operation run atomically at that instant. */
  lemma CommitIsAtomic(s: Sys, tid: Tid, newId: BookingId)
    requires Coherent(s) && Enabled(s, CommitTx(tid, newId))
    ensures var tx := s.txs[tid];
      && Timely(s.world, tx.op, tx.view.now)
      && tx.view.now <= s.clock
      && Next(s, CommitTx(tid, newId)).world == Exec(s.world, tx.op, tx.view.now, newId)
  {
    var tx := s.txs[tid];
    assert Fresh(s, tx);
    OwnRowDecides(tx.op, tx.view, Look(s.world.db, tx.op, tx.view.now));
  }

  /** Two views of one space that differ only in a row of another space lead to the same plan or both to a refusal. */
  lemma OwnRowDecides(op: Op, seen: View, live: View)
    requires seen.space == live.space && seen.now == live.now
    requires OwnRow(seen.row, op.space) == OwnRow(live.row, op.space)
    requires op.CreateBooking? || OwnRow(seen.row, op.space).Some? ==> seen.clash == live.clash
    ensures Decide(op, seen) == Decide(op, live) || (Decide(op, seen).Refuse? && Decide(op, live).Refuse?)
  {
  }

  /** What one space's rows look like to a transaction holding its lock. */
  ghost predicate SameSpace(a: World, b: World, k: SpaceId) {
    && Lookup(a.db.spaces, k) == Lookup(b.db.spaces, k)
    && Lookup(a.mark, k) == Lookup(b.mark, k)
    && (forall id :: OwnRow(Lookup(a.db.bookings, id), k) == OwnRow(Lookup(b.db.bookings, id), k))
  }

  lemma SameSpaceSameQuery(a: World, b: World, k: SpaceId, startsAt: Time, endsAt: Time, exclude: Option<BookingId>)
    requires SameSpace(a, b, k)
    ensures ConfirmedOverlap(a.db.bookings, k, startsAt, endsAt, exclude)
         == ConfirmedOverlap(b.db.bookings, k, startsAt, endsAt, exclude)
  {
    forall id ensures id in a.db.bookings && Clashes(a.db.bookings[id], k, startsAt, endsAt)
                 <==> id in b.db.bookings && Clashes(b.db.bookings[id], k, startsAt, endsAt) {
      assert OwnRow(Lookup(a.db.bookings, id), k) == OwnRow(Lookup(b.db.bookings, id), k);
    }
  }

  lemma SameSpaceKeepsFresh(a: Sys, b: Sys, tx: Tx)
    requires Fresh(a, tx) && SameSpace(a.world, b.world, tx.op.space) && a.clock <= b.clock
    ensures Fresh(b, tx)
  {
    var k := tx.op.space;
    if AtLeast(tx.phase, Queried) {
      match tx.op
      case CreateBooking(_, startsAt, endsAt, _) =>
        SameSpaceSameQuery(a.world, b.world, k, startsAt, endsAt, None);
      case ApproveBooking(_, id) =>
        if tx.view.row.Some? {
          SameSpaceSameQuery(a.world, b.world, k, tx.view.row.value.startsAt, tx.view.row.value.endsAt, Some(id));
        }
      case _ =>
    }
  }

  /** A commit on one space does not show in any other space. */
  lemma ExecLeavesOthers(w: World, op: Op, now: Time, newId: BookingId, k: SpaceId)
    requires RulesHold(w) && newId !in w.db.bookings && k != op.space
    ensures SameSpace(w, Exec(w, op, now, newId), k)
  {
    DecisionsAreJustified(w, op, now);
  }

  /** Two transactions past the lock are on different spaces. */
  lemma HoldersAreApart(s: Sys, tid: Tid, other: Tid)
    requires LocksHeld(s) && tid in s.txs && other in s.txs && tid != other
    requires AtLeast(s.txs[tid].phase, Locked) && AtLeast(s.txs[other].phase, Locked)
    ensures s.txs[tid].op.space != s.txs[other].op.space
  {
  }

  lemma CommitLeavesOthers(s: Sys, tid: Tid, newId: BookingId, k: SpaceId)
    requires Coherent(s) && Enabled(s, CommitTx(tid, newId)) && k != s.txs[tid].op.space
    ensures SameSpace(s.world, Next(s, CommitTx(tid, newId)).world, k) && Next(s, CommitTx(tid, newId)).clock == s.clock
  {
    CommitIsAtomic(s, tid, newId);
    ExecLeavesOthers(s.world, s.txs[tid].op, s.txs[tid].view.now, newId, k);
  }

  /** Changes outside the space that `other` has locked leave it fresh. */
  lemma OthersStayFresh(s: Sys, s': Sys, tid: Tid, other: Tid)
    requires LocksHeld(s) && tid in s.txs && other in s.txs && tid != other && AtLeast(s.txs[tid].phase, Locked)
    requires s'.clock == s.clock && forall k :: k != s.txs[tid].op.space ==> SameSpace(s.world, s'.world, k)
    requires Fresh(s, s.txs[other])
    ensures Fresh(s', s.txs[other])
  {
    if AtLeast(s.txs[other].phase, Locked) {
      HoldersAreApart(s, tid, other);
      SameSpaceKeepsFresh(s, s', s.txs[other]);
    }
  }

  lemma FinishKeepsLocks(s: Sys, tid: Tid)
    requires LocksHeld(s) && tid in s.txs
    ensures LocksHeld(Finish(s, tid))
  {
  }

  lemma CommitKeepsWorldSound(s: Sys, tid: Tid, newId: BookingId)
    requires Coherent(s) && Enabled(s, CommitTx(tid, newId))
    ensures var w := Next(s, CommitTx(tid, newId)).world;
      Sound(w) && forall k :: k in w.mark ==> w.mark[k] <= s.clock
  {
    var op, now := s.txs[tid].op, s.txs[tid].view.now;
    CommitIsAtomic(s, tid, newId);
    ExecKeepsSound(s.world, op, now, newId);
    RecordMarks(s.world, Decide(op, Look(s.world.db, op, now)), op.space, now, newId, s.clock);
  }

  lemma RecordMarks(w: World, plan: Plan, space: SpaceId, now: Time, newId: BookingId, clock: Time)
    requires (forall k :: k in w.mark ==> w.mark[k] <= clock) && now <= clock
    ensures var marks := Record(w, plan, space, now, newId).mark; forall k :: k in marks ==> marks[k] <= clock
  {
  }

  lemma CommitKeepsCoherent(s: Sys, tid: Tid, newId: BookingId)
    requires Coherent(s) && Enabled(s, CommitTx(tid, newId))
    ensures Coherent(Next(s, CommitTx(tid, newId)))
  {
    var s' := Next(s, CommitTx(tid, newId));
    CommitKeepsWorldSound(s, tid, newId);
    FinishKeepsLocks(s.(world := s'.world), tid);
    forall k | k != s.txs[tid].op.space ensures SameSpace(s.world, s'.world, k) && s'.clock == s.clock {
      CommitLeavesOthers(s, tid, newId, k);
    }
    forall other | other in s'.txs ensures Fresh(s', s'.txs[other]) {
      OthersStayFresh(s, s', tid, other);
    }
  }

  lemma NewSpaceKeepsCoherent(s: Sys, space: SpaceId, mode: ApprovalMode)
    requires Coherent(s) && Enabled(s, NewSpace(space, mode))
    ensures Coherent(Next(s, NewSpace(space, mode)))
  {
    var s' := Next(s, NewSpace(space, mode));
    OpenSpaceKeepsSound(s.world, space, mode, s.clock);
    forall other | other in s'.txs ensures Fresh(s', s'.txs[other]) {
      var it := s'.txs[other];
      if AtLeast(it.phase, Locked) {
        assert SameSpace(s.world, s'.world, it.op.space);
        SameSpaceKeepsFresh(s, s', it);
      }
    }
  }

  lemma StepKeepsCoherent(s: Sys, step: Step)
    requires Coherent(s) && Enabled(s, step)
    ensures Coherent(Next(s, step))
  {
    if step.CommitTx? { CommitKeepsCoherent(s, step.tid, step.newId); }
    else if step.NewSpace? { NewSpaceKeepsCoherent(s, step.space, step.mode); }
    else if Reads(step) { ReadKeepsCoherent(s, step); }
    else { QuietStepKeepsCoherent(s, step); }
  }

  predicate Reads(step: Step) {
    step.Lock? || step.ReadBooking? || step.ReadClock? || step.QueryOverlap?
  }

  /** A step that reads changes its own transaction, which has seen the truth so far. */
  lemma ReadKeepsFresh(s: Sys, step: Step)
    requires Coherent(s) && Enabled(s, step) && Reads(step)
    ensures Fresh(Next(s, step), Next(s, step).txs[step.tid])
  {
    assert Fresh(s, s.txs[step.tid]);
  }

  lemma ReadKeepsCoherent(s: Sys, step: Step)
    requires Coherent(s) && Enabled(s, step) && Reads(step)
    ensures Coherent(Next(s, step))
  {
    var s' := Next(s, step);
    assert s'.world == s.world && s'.clock == s.clock;
    assert forall other :: other in s.txs && other != step.tid ==> s'.txs[other] == s.txs[other];
    ReadKeepsFresh(s, step);
    ReadKeepsLocks(s, step);
    forall other | other in s'.txs && other != step.tid ensures Fresh(s', s'.txs[other]) {
      assert Fresh(s, s.txs[other]);
    }
  }

  lemma ReadKeepsLocks(s: Sys, step: Step)
    requires LocksHeld(s) && Enabled(s, step) && Reads(step)
    ensures LocksHeld(Next(s, step))
  {
  }

  lemma QuietStepKeepsCoherent(s: Sys, step: Step)
    requires Coherent(s) && Enabled(s, step) && (step.Tick? || step.Begin? || step.Abort?)
    ensures Coherent(Next(s, step))
  {
    var s' := Next(s, step);
    assert s'.world == s.world;
    QuietStepKeepsLocks(s, step);
    forall other | other in s'.txs ensures Fresh(s', s'.txs[other]) {
      if other in s.txs { LaterKeepsFresh(s, s', s.txs[other]); }
    }
  }

  lemma LaterKeepsFresh(s: Sys, s': Sys, tx: Tx)
    requires Fresh(s, tx) && s'.world == s.world && s.clock <= s'.clock
    ensures Fresh(s', tx)
  {
  }

  lemma QuietStepKeepsLocks(s: Sys, step: Step)
    requires LocksHeld(s) && Enabled(s, step) && (step.Tick? || step.Begin? || step.Abort?)
    ensures LocksHeld(Next(s, step))
  {
    if step.Abort? { FinishKeepsLocks(s, step.tid); }
  }

  /** Every state of every run satisfies the invariant. */
  lemma {:induction false} RunIsCoherent(states: seq<Sys>, steps: seq<Step>, k: nat)
    requires Run(states, steps) && k < |states|
    ensures Coherent(states[k])
  {
    if k > 0 {
      RunIsCoherent(states, steps, k - 1);
      StepKeepsCoherent(states[k - 1], steps[k - 1]);
    }
  }
}
