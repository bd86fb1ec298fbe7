/** The interleavings leave nothing out: any call that may run alone can be run, from any state of any run. */
module BookingRuns {
  import opened Options
  import opened BookingModel
  import opened BookingHistory
  import opened BookingProtocol

  lemma TakeStep(states: seq<Sys>, steps: seq<Step>, step: Step) returns (longer: seq<Sys>, more: seq<Step>)
    requires Run(states, steps) && Enabled(states[|steps|], step)
    ensures Run(longer, more) && more == steps + [step] && longer == states + [Next(states[|steps|], step)]
  {
    longer, more := states + [Next(states[|steps|], step)], steps + [step];
    forall k {:trigger more[k]} | 0 <= k < |more| ensures Leads(longer[k], more[k], longer[k + 1]) {
      if k < |steps| { assert Leads(states[k], steps[k], states[k + 1]); }
    }
  }

  /** The transaction has begun, and nothing else differs. */
  predicate Begun(s: Sys, s': Sys, tid: Tid, op: Op, phase: Phase) {
    && s'.world == s.world && s'.clock == s.clock
    && s'.locks == (if phase == Waiting then s.locks else s.locks[op.space := tid])
    && InPhase(s', tid, phase) && s'.txs[tid].op == op && s'.txs - {tid} == s.txs
  }

  lemma ToLocked(states: seq<Sys>, steps: seq<Step>, tid: Tid, op: Op) returns (longer: seq<Sys>, more: seq<Step>)
    requires Run(states, steps)
    requires var s := states[|steps|]; op.space in s.world.db.spaces && op.space !in s.locks && tid !in s.txs
    ensures Run(longer, more) && more == steps + [Begin(tid, op), Lock(tid)]
    ensures Begun(states[|steps|], longer[|more|], tid, op, Locked)
  {
    longer, more := TakeStep(states, steps, Begin(tid, op));
    assert Begun(states[|steps|], longer[|more|], tid, op, Waiting);
    longer, more := TakeStep(longer, more, Lock(tid));
  }

  lemma ToQueried(states: seq<Sys>, steps: seq<Step>, s: Sys, tid: Tid, op: Op)
    returns (longer: seq<Sys>, more: seq<Step>)
    requires Run(states, steps) && Begun(s, states[|steps|], tid, op, Locked)
    ensures Run(longer, more) && more == steps + [ReadBooking(tid), ReadClock(tid), QueryOverlap(tid)]
    ensures Begun(s, longer[|more|], tid, op, Queried) && longer[|more|].txs[tid].view.now == s.clock
  {
    longer, more := TakeStep(states, steps, ReadBooking(tid));
    assert Begun(s, longer[|more|], tid, op, RowRead);
    longer, more := TakeStep(longer, more, ReadClock(tid));
    assert Begun(s, longer[|more|], tid, op, ClockRead);
    longer, more := TakeStep(longer, more, QueryOverlap(tid));
  }

  lemma RunNow(states: seq<Sys>, steps: seq<Step>, tid: Tid, op: Op, newId: BookingId)
    returns (longer: seq<Sys>, more: seq<Step>)
    requires Run(states, steps)
    requires var s := states[|steps|];
      op.space in s.world.db.spaces && op.space !in s.locks && tid !in s.txs && newId !in s.world.db.bookings
    ensures Run(longer, more) && steps <= more
    ensures var s, s' := states[|steps|], longer[|more|];
      s'.world == Exec(s.world, op, s.clock, newId) && s'.clock == s.clock && s'.locks == s.locks && s'.txs == s.txs
  {
    var s := states[|steps|];
    longer, more := ToLocked(states, steps, tid, op);
    longer, more := ToQueried(longer, more, s, tid, op);
    var queried := longer[|more|];
    RunIsCoherent(longer, more, |more|);
    CommitIsAtomic(queried, tid, newId);
    longer, more := TakeStep(longer, more, CommitTx(tid, newId));
    assert s.locks[op.space := tid] - {op.space} == s.locks;
  }

  /**
   A call on an existing space that nobody has locked can be run from start to end at any later time, and then
   does what it does alone; nothing of it is left but that.
   */
  lemma EveryCallCanRun(states: seq<Sys>, steps: seq<Step>, tid: Tid, op: Op, now: Time, newId: BookingId)
    returns (longer: seq<Sys>, more: seq<Step>)
    requires Run(states, steps)
    requires var s := states[|steps|];
      && op.space in s.world.db.spaces && op.space !in s.locks && tid !in s.txs && newId !in s.world.db.bookings
      && s.clock <= now
    ensures Run(longer, more) && steps <= more
    ensures var s, s' := states[|steps|], longer[|more|];
      s'.world == Exec(s.world, op, now, newId) && s'.clock == now && s'.locks == s.locks && s'.txs == s.txs
  {
    longer, more := TakeStep(states, steps, Tick(now));
    longer, more := RunNow(longer, more, tid, op, newId);
  }
}
