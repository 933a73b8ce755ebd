/** The work planner shared by both scheduler drivers: fixed-width chunks that
    extend the processed range forward from `floor(done.max)` and backward from
    `ceiling(done.min)`, crossed with the branch list (and, in one driver, with
    the scheduler list). Timestamps are integer seconds. */
module Planner {
  import opened Wrappers
  import opened IntMath

  /** The half-open time slot `[start, end)`. */
  datatype Slot = Slot(start: int, end: int)

  /** One unit of work: a slot on a branch, for one scheduler when the
      driver crosses chunks with the scheduler list. */
  datatype WorkUnit = WorkUnit(start: int, end: int, branch: string, scheduler: Option<string>)

  /** `Date.floor(t, interval)`: the latest multiple of `interval` not after `t`. */
  function Floor(t: int, interval: int): (r: int)
    requires interval > 0
    ensures r <= t < r + interval
    ensures r % interval == 0
  {
    DivMod(t, interval);
    MulMod(t / interval, interval);
    (t / interval) * interval
  }

  /** `Date.ceiling(t, interval)`: the earliest multiple of `interval` not before `t`. */
  function Ceiling(t: int, interval: int): (r: int)
    requires interval > 0
    ensures r - interval < t <= r
    ensures r % interval == 0
  {
    DivMod(t, interval);
    MulSucc(t / interval, interval);
    MulMod(t / interval + 1, interval);
    if t % interval == 0 then t else (t / interval + 1) * interval
  }

  /** The chunks the forward loop visits: from `start` in steps of `interval`
      until a chunk starts at or after `limit`. */
  function ForwardSlots(start: int, limit: int, interval: int): seq<Slot>
    requires interval > 0
    decreases limit - start
  {
    if start >= limit then []
    else [Slot(start, start + interval)] + ForwardSlots(start + interval, limit, interval)
  }

  /** The chunks the backward loop visits: ending at `end` and stepping down
      until a chunk ends at or before `limit`. */
  function BackwardSlots(end: int, limit: int, interval: int): seq<Slot>
    requires interval > 0
    decreases end - limit
  {
    if end <= limit then []
    else [Slot(end - interval, end)] + BackwardSlots(end - interval, limit, interval)
  }

  /** Forward chunks are `interval` wide, start at `start`, each begins where
      the previous one ended, and the last is the first to reach `limit`. */
  lemma {:induction false} ForwardSlotsShape(start: int, limit: int, interval: int)
    requires interval > 0
    ensures var r := ForwardSlots(start, limit, interval);
      && (|r| == 0 <==> start >= limit)
      && (forall k :: 0 <= k < |r| ==> r[k] == Slot(start + k * interval, start + k * interval + interval))
      && (|r| > 0 ==> r[|r| - 1].start < limit <= r[|r| - 1].end)
    decreases limit - start
  {
    var r := ForwardSlots(start, limit, interval);
    if start < limit {
      var rest := ForwardSlots(start + interval, limit, interval);
      ForwardSlotsShape(start + interval, limit, interval);
      assert r == [Slot(start, start + interval)] + rest;
      forall k | 0 <= k < |r|
        ensures r[k] == Slot(start + k * interval, start + k * interval + interval)
      {
        if k > 0 {
          assert r[k] == rest[k - 1];
          MulSucc(k - 1, interval);
        }
      }
    }
  }

  /** Backward chunks are `interval` wide, the first ends at `end`, each ends
      where the previous one started, and the last is the first to reach down
      to `limit`. */
  lemma {:induction false} BackwardSlotsShape(end: int, limit: int, interval: int)
    requires interval > 0
    ensures var r := BackwardSlots(end, limit, interval);
      && (|r| == 0 <==> end <= limit)
      && (forall k :: 0 <= k < |r| ==> r[k] == Slot(end - k * interval - interval, end - k * interval))
      && (|r| > 0 ==> r[|r| - 1].start <= limit < r[|r| - 1].end)
    decreases end - limit
  {
    var r := BackwardSlots(end, limit, interval);
    if end > limit {
      var rest := BackwardSlots(end - interval, limit, interval);
      BackwardSlotsShape(end - interval, limit, interval);
      assert r == [Slot(end - interval, end)] + rest;
      forall k | 0 <= k < |r|
        ensures r[k] == Slot(end - k * interval - interval, end - k * interval)
      {
        if k > 0 {
          assert r[k] == rest[k - 1];
          MulSucc(k - 1, interval);
        }
      }
    }
  }

  /** Every instant of `[start, limit)` lies in exactly one forward chunk. */
  lemma ForwardSlotsCover(start: int, limit: int, interval: int, t: int)
    requires interval > 0
    requires start <= t < limit
    ensures var r := ForwardSlots(start, limit, interval);
      && (exists k :: 0 <= k < |r| && r[k].start <= t < r[k].end)
      && (forall k, k' ::
            (0 <= k < |r| && 0 <= k' < |r| && r[k].start <= t < r[k].end && r[k'].start <= t < r[k'].end)
            ==> k == k')
  {
    var r := ForwardSlots(start, limit, interval);
    ForwardSlotsShape(start, limit, interval);
    var k := (t - start) / interval;
    DivMod(t - start, interval);
    MulNonNegative(k, interval);
    var n := |r|;
    MulSucc(n - 1, interval);
    assert k * interval < n * interval;
    MulCancelLess(k, n, interval);
    assert r[k].start <= t < r[k].end;
    forall k1 | 0 <= k1 < |r| && r[k1].start <= t < r[k1].end
      ensures k1 == k
    {
      DivUnique(t - start, interval, k1);
    }
  }

  /** Every instant of `[limit, end)` lies in exactly one backward chunk. */
  lemma BackwardSlotsCover(end: int, limit: int, interval: int, t: int)
    requires interval > 0
    requires limit <= t < end
    ensures var r := BackwardSlots(end, limit, interval);
      && (exists k :: 0 <= k < |r| && r[k].start <= t < r[k].end)
      && (forall k, k' ::
            (0 <= k < |r| && 0 <= k' < |r| && r[k].start <= t < r[k].end && r[k'].start <= t < r[k'].end)
            ==> k == k')
  {
    var r := BackwardSlots(end, limit, interval);
    BackwardSlotsShape(end, limit, interval);
    var k := (end - 1 - t) / interval;
    DivMod(end - 1 - t, interval);
    MulNonNegative(k, interval);
    var n := |r|;
    MulSucc(n - 1, interval);
    assert k * interval < n * interval;
    MulCancelLess(k, n, interval);
    assert r[k].start <= t < r[k].end;
    forall k1 | 0 <= k1 < |r| && r[k1].start <= t < r[k1].end
      ensures k1 == k
    {
      DivUnique(end - 1 - t, interval, k1);
    }
  }

  // ----- crossing chunks with branches and schedulers -----

  /** The units of one slot on one branch: one per scheduler, in list order. */
  function SchedulerUnits(slot: Slot, branch: string, schedulers: seq<string>): (r: seq<WorkUnit>)
    ensures |r| == |schedulers|
  {
    if |schedulers| == 0 then []
    else
      SchedulerUnits(slot, branch, schedulers[..|schedulers| - 1])
      + [WorkUnit(slot.start, slot.end, branch, Some(schedulers[|schedulers| - 1]))]
  }

  /** The units of one slot in etl-schedulers.py: branch-outer, scheduler-inner. */
  function SlotUnits(slot: Slot, branches: seq<string>, schedulers: seq<string>): seq<WorkUnit>
  {
    if |branches| == 0 then []
    else
      SlotUnits(slot, branches[..|branches| - 1], schedulers)
      + SchedulerUnits(slot, branches[|branches| - 1], schedulers)
  }

  /** The etl-schedulers.py queue for a list of slots, slot by slot. */
  function CrossUnits(slots: seq<Slot>, branches: seq<string>, schedulers: seq<string>): seq<WorkUnit>
  {
    if |slots| == 0 then []
    else
      CrossUnits(slots[..|slots| - 1], branches, schedulers)
      + SlotUnits(slots[|slots| - 1], branches, schedulers)
  }

  /** The units of one slot in schedulers.py: one per branch, in list order. */
  function BranchUnits(slot: Slot, branches: seq<string>): (r: seq<WorkUnit>)
    ensures |r| == |branches|
  {
    if |branches| == 0 then []
    else
      BranchUnits(slot, branches[..|branches| - 1])
      + [WorkUnit(slot.start, slot.end, branches[|branches| - 1], None)]
  }

  /** The schedulers.py list for a list of slots, slot by slot. */
  function CrossBranches(slots: seq<Slot>, branches: seq<string>): seq<WorkUnit>
  {
    if |slots| == 0 then []
    else
      CrossBranches(slots[..|slots| - 1], branches)
      + BranchUnits(slots[|slots| - 1], branches)
  }

  lemma {:induction false} SchedulerUnitsAt(slot: Slot, branch: string, schedulers: seq<string>, s: nat)
    requires s < |schedulers|
    ensures SchedulerUnits(slot, branch, schedulers)[s] == WorkUnit(slot.start, slot.end, branch, Some(schedulers[s]))
  {
    var last := |schedulers| - 1;
    if s < last {
      SchedulerUnitsAt(slot, branch, schedulers[..last], s);
    }
  }

  lemma {:induction false} BranchUnitsAt(slot: Slot, branches: seq<string>, b: nat)
    requires b < |branches|
    ensures BranchUnits(slot, branches)[b] == WorkUnit(slot.start, slot.end, branches[b], None)
  {
    var last := |branches| - 1;
    if b < last {
      BranchUnitsAt(slot, branches[..last], b);
    }
  }

  lemma {:induction false} SlotUnitsLength(slot: Slot, branches: seq<string>, schedulers: seq<string>)
    ensures |SlotUnits(slot, branches, schedulers)| == |branches| * |schedulers|
  {
    if |branches| > 0 {
      SlotUnitsLength(slot, branches[..|branches| - 1], schedulers);
      MulSucc(|branches| - 1, |schedulers|);
    }
  }

  lemma {:induction false} CrossUnitsLength(slots: seq<Slot>, branches: seq<string>, schedulers: seq<string>)
    ensures |CrossUnits(slots, branches, schedulers)| == |slots| * (|branches| * |schedulers|)
  {
    if |slots| > 0 {
      CrossUnitsLength(slots[..|slots| - 1], branches, schedulers);
      SlotUnitsLength(slots[|slots| - 1], branches, schedulers);
      MulSucc(|slots| - 1, |branches| * |schedulers|);
    }
  }

  lemma SlotUnitsSnoc(slot: Slot, branches: seq<string>, branch: string, schedulers: seq<string>)
    ensures SlotUnits(slot, branches + [branch], schedulers)
      == SlotUnits(slot, branches, schedulers) + SchedulerUnits(slot, branch, schedulers)
  {
    assert (branches + [branch])[..|branches|] == branches;
  }

  lemma {:induction false} SlotUnitsAppend(slot: Slot, a: seq<string>, b: seq<string>, schedulers: seq<string>)
    ensures SlotUnits(slot, a + b, schedulers) == SlotUnits(slot, a, schedulers) + SlotUnits(slot, b, schedulers)
    decreases |b|
  {
    if |b| == 0 {
      assert a + b == a;
    } else {
      var last := |b| - 1;
      var init := b[..last];
      assert a + b == (a + init) + [b[last]];
      calc {
        SlotUnits(slot, a + b, schedulers);
        { SlotUnitsSnoc(slot, a + init, b[last], schedulers); }
        SlotUnits(slot, a + init, schedulers) + SchedulerUnits(slot, b[last], schedulers);
        { SlotUnitsAppend(slot, a, init, schedulers); }
        SlotUnits(slot, a, schedulers) + SlotUnits(slot, init, schedulers) + SchedulerUnits(slot, b[last], schedulers);
        SlotUnits(slot, a, schedulers) + SlotUnits(slot, b, schedulers);
      }
    }
  }

  /** Within one slot, branch `b`'s units come after those of the branches
      before it and before those of the branches after it. */
  lemma SlotUnitsSplit(slot: Slot, branches: seq<string>, schedulers: seq<string>, b: nat)
    requires b < |branches|
    ensures SlotUnits(slot, branches, schedulers)
      == SlotUnits(slot, branches[..b], schedulers) + SchedulerUnits(slot, branches[b], schedulers)
         + SlotUnits(slot, branches[b + 1..], schedulers)
  {
    assert branches == (branches[..b] + [branches[b]]) + branches[b + 1..];
    SlotUnitsAppend(slot, branches[..b] + [branches[b]], branches[b + 1..], schedulers);
    SlotUnitsSnoc(slot, branches[..b], branches[b], schedulers);
  }

  /** In the queue, slot `k`'s units come after those of the slots before it
      and before those of the slots after it. */
  lemma CrossUnitsSplit(slots: seq<Slot>, branches: seq<string>, schedulers: seq<string>, k: nat)
    requires k < |slots|
    ensures CrossUnits(slots, branches, schedulers)
      == CrossUnits(slots[..k], branches, schedulers) + SlotUnits(slots[k], branches, schedulers)
         + CrossUnits(slots[k + 1..], branches, schedulers)
  {
    assert slots == (slots[..k] + [slots[k]]) + slots[k + 1..];
    CrossUnitsAppend(slots[..k] + [slots[k]], slots[k + 1..], branches, schedulers);
    CrossUnitsSnoc(slots[..k], slots[k], branches, schedulers);
  }

  /** A unit is queued for a slot exactly when it spans that slot and names
      one of the branches and one of the schedulers. */
  lemma {:induction false} SchedulerUnitsMember(slot: Slot, branch: string, schedulers: seq<string>, u: WorkUnit)
    ensures u in SchedulerUnits(slot, branch, schedulers)
      <==> u.start == slot.start && u.end == slot.end && u.branch == branch
           && u.scheduler.Some? && u.scheduler.value in schedulers
  {
    if |schedulers| > 0 {
      var last := |schedulers| - 1;
      SchedulerUnitsMember(slot, branch, schedulers[..last], u);
      assert schedulers == schedulers[..last] + [schedulers[last]];
    }
  }

  lemma {:induction false} SlotUnitsMember(slot: Slot, branches: seq<string>, schedulers: seq<string>, u: WorkUnit)
    ensures u in SlotUnits(slot, branches, schedulers)
      <==> u.start == slot.start && u.end == slot.end && u.branch in branches
           && u.scheduler.Some? && u.scheduler.value in schedulers
  {
    if |branches| > 0 {
      var last := |branches| - 1;
      SlotUnitsMember(slot, branches[..last], schedulers, u);
      SchedulerUnitsMember(slot, branches[last], schedulers, u);
      assert branches == branches[..last] + [branches[last]];
    }
  }

  /** The etl-schedulers.py queue holds exactly the units whose span is one of
      the slots, whose branch is one of the branches and whose scheduler is
      one of the schedulers. */
  lemma {:induction false} CrossUnitsMember(slots: seq<Slot>, branches: seq<string>, schedulers: seq<string>, u: WorkUnit)
    ensures u in CrossUnits(slots, branches, schedulers)
      <==> Slot(u.start, u.end) in slots && u.branch in branches
           && u.scheduler.Some? && u.scheduler.value in schedulers
  {
    if |slots| > 0 {
      var last := |slots| - 1;
      CrossUnitsMember(slots[..last], branches, schedulers, u);
      SlotUnitsMember(slots[last], branches, schedulers, u);
      assert slots == slots[..last] + [slots[last]];
    }
  }

  lemma {:induction false} BranchUnitsMember(slot: Slot, branches: seq<string>, u: WorkUnit)
    ensures u in BranchUnits(slot, branches)
      <==> u.start == slot.start && u.end == slot.end && u.branch in branches && u.scheduler.None?
  {
    if |branches| > 0 {
      var last := |branches| - 1;
      BranchUnitsMember(slot, branches[..last], u);
      assert branches == branches[..last] + [branches[last]];
    }
  }

  /** The schedulers.py list holds exactly the units whose span is one of the
      slots and whose branch is one of the branches, with no scheduler. */
  lemma {:induction false} CrossBranchesMember(slots: seq<Slot>, branches: seq<string>, u: WorkUnit)
    ensures u in CrossBranches(slots, branches)
      <==> Slot(u.start, u.end) in slots && u.branch in branches && u.scheduler.None?
  {
    if |slots| > 0 {
      var last := |slots| - 1;
      CrossBranchesMember(slots[..last], branches, u);
      BranchUnitsMember(slots[last], branches, u);
      assert slots == slots[..last] + [slots[last]];
    }
  }

  lemma {:induction false} CrossBranchesLength(slots: seq<Slot>, branches: seq<string>)
    ensures |CrossBranches(slots, branches)| == |slots| * |branches|
  {
    if |slots| > 0 {
      CrossBranchesLength(slots[..|slots| - 1], branches);
      MulSucc(|slots| - 1, |branches|);
    }
  }

  /** The schedulers.py plan has exactly one unit per branch per slot, and
      unit `k * |branches| + b` is slot `k` on branch `b`. */
  lemma {:induction false} CrossBranchesAt(slots: seq<Slot>, branches: seq<string>, k: nat, b: nat)
    requires k < |slots| && b < |branches|
    ensures |CrossBranches(slots, branches)| == |slots| * |branches|
    ensures CrossBranches(slots, branches)[k * |branches| + b]
      == WorkUnit(slots[k].start, slots[k].end, branches[b], None)
  {
    var w := |branches|;
    var last := |slots| - 1;
    var init := slots[..last];
    var front := CrossBranches(init, branches);
    CrossBranchesLength(slots, branches);
    CrossBranchesLength(init, branches);
    MulSucc(k, w);
    if k < last {
      MulMonotone(k + 1, last, w);
      CrossBranchesAt(init, branches, k, b);
      assert init[k] == slots[k];
    } else {
      assert k * w + b == |front| + b;
      BranchUnitsAt(slots[last], branches, b);
    }
  }

  lemma CrossUnitsSnoc(slots: seq<Slot>, slot: Slot, branches: seq<string>, schedulers: seq<string>)
    ensures CrossUnits(slots + [slot], branches, schedulers)
      == CrossUnits(slots, branches, schedulers) + SlotUnits(slot, branches, schedulers)
  {
    assert (slots + [slot])[..|slots|] == slots;
  }

  lemma CrossBranchesSnoc(slots: seq<Slot>, slot: Slot, branches: seq<string>)
    ensures CrossBranches(slots + [slot], branches) == CrossBranches(slots, branches) + BranchUnits(slot, branches)
  {
    assert (slots + [slot])[..|slots|] == slots;
  }

  lemma {:induction false} CrossUnitsAppend(a: seq<Slot>, b: seq<Slot>, branches: seq<string>, schedulers: seq<string>)
    ensures CrossUnits(a + b, branches, schedulers) == CrossUnits(a, branches, schedulers) + CrossUnits(b, branches, schedulers)
    decreases |b|
  {
    if |b| == 0 {
      assert a + b == a;
    } else {
      var last := |b| - 1;
      calc {
        CrossUnits(a + b, branches, schedulers);
        { assert a + b == (a + b[..last]) + [b[last]];
          CrossUnitsSnoc(a + b[..last], b[last], branches, schedulers); }
        CrossUnits(a + b[..last], branches, schedulers) + SlotUnits(b[last], branches, schedulers);
        { CrossUnitsAppend(a, b[..last], branches, schedulers); }
        (CrossUnits(a, branches, schedulers) + CrossUnits(b[..last], branches, schedulers))
          + SlotUnits(b[last], branches, schedulers);
        CrossUnits(a, branches, schedulers)
          + (CrossUnits(b[..last], branches, schedulers) + SlotUnits(b[last], branches, schedulers));
        CrossUnits(a, branches, schedulers) + CrossUnits(b, branches, schedulers);
      }
    }
  }

  lemma {:induction false} CrossBranchesAppend(a: seq<Slot>, b: seq<Slot>, branches: seq<string>)
    ensures CrossBranches(a + b, branches) == CrossBranches(a, branches) + CrossBranches(b, branches)
    decreases |b|
  {
    if |b| == 0 {
      assert a + b == a;
    } else {
      var last := |b| - 1;
      calc {
        CrossBranches(a + b, branches);
        { assert a + b == (a + b[..last]) + [b[last]];
          CrossBranchesSnoc(a + b[..last], b[last], branches); }
        CrossBranches(a + b[..last], branches) + BranchUnits(b[last], branches);
        { CrossBranchesAppend(a, b[..last], branches); }
        (CrossBranches(a, branches) + CrossBranches(b[..last], branches)) + BranchUnits(b[last], branches);
        CrossBranches(a, branches) + (CrossBranches(b[..last], branches) + BranchUnits(b[last], branches));
        CrossBranches(a, branches) + CrossBranches(b, branches);
      }
    }
  }

  // ----- the plans -----

  /** The slots both drivers plan: forward ones when `done.max < range.max`,
      then backward ones when `range.min < done.min`. */
  function PlannedSlots(doneMin: int, doneMax: int, rangeMin: int, rangeMax: int, interval: int): seq<Slot>
    requires interval > 0
  {
    (if doneMax < rangeMax then ForwardSlots(Floor(doneMax, interval), rangeMax, interval) else [])
    + (if rangeMin < doneMin then BackwardSlots(Ceiling(doneMin, interval), rangeMin, interval) else [])
  }

  /** What the plan covers: every instant of the target range that lies
      outside the watermark `[done.min, done.max)` is in some planned slot,
      and no slot is planned at all when the target lies inside the watermark. */
  lemma PlanCovers(doneMin: int, doneMax: int, rangeMin: int, rangeMax: int, interval: int, t: int)
    requires interval > 0
    requires rangeMin <= t < rangeMax
    requires t < doneMin || doneMax <= t
    ensures var p := PlannedSlots(doneMin, doneMax, rangeMin, rangeMax, interval);
      exists k :: 0 <= k < |p| && p[k].start <= t < p[k].end
  {
    var fwd := if doneMax < rangeMax then ForwardSlots(Floor(doneMax, interval), rangeMax, interval) else [];
    var bwd := if rangeMin < doneMin then BackwardSlots(Ceiling(doneMin, interval), rangeMin, interval) else [];
    var p := PlannedSlots(doneMin, doneMax, rangeMin, rangeMax, interval);
    assert p == fwd + bwd;
    if doneMax <= t {
      ForwardSlotsCover(Floor(doneMax, interval), rangeMax, interval, t);
      var k :| 0 <= k < |fwd| && fwd[k].start <= t < fwd[k].end;
      assert p[k] == fwd[k];
    } else {
      BackwardSlotsCover(Ceiling(doneMin, interval), rangeMin, interval, t);
      var k :| 0 <= k < |bwd| && bwd[k].start <= t < bwd[k].end;
      assert p[|fwd| + k] == bwd[k];
    }
  }

  lemma PlanEmptyWhenDone(doneMin: int, doneMax: int, rangeMin: int, rangeMax: int, interval: int)
    requires interval > 0
    requires doneMin <= rangeMin && rangeMax <= doneMax
    ensures PlannedSlots(doneMin, doneMax, rangeMin, rangeMax, interval) == []
    ensures CorrectedSlots(doneMin, doneMax, rangeMin, rangeMax, interval) == []
  {
  }

  // ----- overlap of the planned slots -----

  /** Two slots share no instant. */
  predicate Apart(a: Slot, b: Slot)
  {
    a.end <= b.start || b.end <= a.start
  }

  /** No two positions of `p` share an instant: no chunk is planned twice. */
  predicate Disjoint(p: seq<Slot>)
  {
    forall j, k :: 0 <= j < |p| && 0 <= k < |p| && j != k ==> Apart(p[j], p[k])
  }

  /** Each slot ends before any later one starts. */
  predicate Increasing(p: seq<Slot>)
  {
    forall j, k :: 0 <= j < k < |p| ==> p[j].end <= p[k].start
  }

  /** Each slot starts after any later one ends. */
  predicate Decreasing(p: seq<Slot>)
  {
    forall j, k :: 0 <= j < k < |p| ==> p[k].end <= p[j].start
  }

  /** Forward slots are non-empty, start at or after `start`, and each ends
      before the next begins. */
  lemma {:induction false} ForwardSlotsOrdered(start: int, limit: int, interval: int)
    requires interval > 0
    ensures forall k :: 0 <= k < |ForwardSlots(start, limit, interval)| ==>
      start <= ForwardSlots(start, limit, interval)[k].start < ForwardSlots(start, limit, interval)[k].end
    ensures Increasing(ForwardSlots(start, limit, interval))
    decreases limit - start
  {
    if start < limit {
      ForwardSlotsOrdered(start + interval, limit, interval);
      var rest := ForwardSlots(start + interval, limit, interval);
      var r := ForwardSlots(start, limit, interval);
      assert r == [Slot(start, start + interval)] + rest;
      forall j, k | 0 <= j < k < |r|
        ensures r[j].end <= r[k].start
      {
        assert r[k] == rest[k - 1];
        if j > 0 {
          assert r[j] == rest[j - 1];
        }
      }
    }
  }

  /** Backward slots are non-empty, end at or before `end`, and each starts
      after the next one ends. */
  lemma {:induction false} BackwardSlotsOrdered(end: int, limit: int, interval: int)
    requires interval > 0
    ensures forall k :: 0 <= k < |BackwardSlots(end, limit, interval)| ==>
      BackwardSlots(end, limit, interval)[k].start < BackwardSlots(end, limit, interval)[k].end <= end
    ensures Decreasing(BackwardSlots(end, limit, interval))
    decreases end - limit
  {
    if end > limit {
      BackwardSlotsOrdered(end - interval, limit, interval);
      var rest := BackwardSlots(end - interval, limit, interval);
      var r := BackwardSlots(end, limit, interval);
      assert r == [Slot(end - interval, end)] + rest;
      forall j, k | 0 <= j < k < |r|
        ensures r[k].end <= r[j].start
      {
        assert r[k] == rest[k - 1];
        if j > 0 {
          assert r[j] == rest[j - 1];
        }
      }
    }
  }

  /** Forward slots followed by backward slots that all end before the
      forward ones begin share no instant. */
  lemma DisjointConcat(f: seq<Slot>, b: seq<Slot>)
    requires Increasing(f) && Decreasing(b)
    requires forall j, k :: 0 <= j < |f| && 0 <= k < |b| ==> b[k].end <= f[j].start
    ensures Disjoint(f + b)
  {
    var p := f + b;
    forall j, k | 0 <= j < |p| && 0 <= k < |p| && j != k
      ensures Apart(p[j], p[k])
    {
      if j < |f| && k < |f| {
        if j < k { assert f[j].end <= f[k].start; } else { assert f[k].end <= f[j].start; }
      } else if j >= |f| && k >= |f| {
        if j < k { assert b[k - |f|].end <= b[j - |f|].start; } else { assert b[j - |f|].end <= b[k - |f|].start; }
      } else if j < |f| {
        assert b[k - |f|].end <= f[j].start;
      } else {
        assert b[j - |f|].end <= f[k].start;
      }
    }
  }

  /** When a multiple of the interval lies between the watermark's bounds,
      the forward and backward loops never plan the same chunk. */
  lemma PlanDisjoint(doneMin: int, doneMax: int, rangeMin: int, rangeMax: int, interval: int)
    requires interval > 0
    requires Ceiling(doneMin, interval) <= Floor(doneMax, interval)
    ensures Disjoint(PlannedSlots(doneMin, doneMax, rangeMin, rangeMax, interval))
  {
    var fwd := if doneMax < rangeMax then ForwardSlots(Floor(doneMax, interval), rangeMax, interval) else [];
    var bwd := if rangeMin < doneMin then BackwardSlots(Ceiling(doneMin, interval), rangeMin, interval) else [];
    ForwardSlotsOrdered(Floor(doneMax, interval), rangeMax, interval);
    BackwardSlotsOrdered(Ceiling(doneMin, interval), rangeMin, interval);
    assert forall k :: 0 <= k < |fwd| ==> Floor(doneMax, interval) <= fwd[k].start;
    assert forall k :: 0 <= k < |bwd| ==> bwd[k].end <= Ceiling(doneMin, interval);
    DisjointConcat(fwd, bwd);
  }

  /** A watermark whose bounds are ordered multiples of the interval (as the
      loops leave it) gets a plan with no chunk planned twice. */
  lemma PlanDisjointAligned(doneMin: int, doneMax: int, rangeMin: int, rangeMax: int, interval: int)
    requires interval > 0
    requires doneMin <= doneMax && doneMin % interval == 0 && doneMax % interval == 0
    ensures Disjoint(PlannedSlots(doneMin, doneMax, rangeMin, rangeMax, interval))
  {
    DivMod(doneMax, interval);
    assert Floor(doneMax, interval) == doneMax;
    PlanDisjoint(doneMin, doneMax, rangeMin, rangeMax, interval);
  }

  /** As written, a watermark with no multiple of the interval between its
      bounds gets the chunk holding it planned twice: once as the first
      forward slot and once as the first backward slot. */
  lemma PlanOverlapsWhenUnaligned(doneMin: int, doneMax: int, rangeMin: int, rangeMax: int, interval: int)
    requires interval > 0
    requires doneMin <= doneMax && doneMax < rangeMax && rangeMin < doneMin
    requires Floor(doneMax, interval) < Ceiling(doneMin, interval)
    ensures var p := PlannedSlots(doneMin, doneMax, rangeMin, rangeMax, interval);
      var f := |ForwardSlots(Floor(doneMax, interval), rangeMax, interval)|;
      && 0 < f < |p|
      && p[0] == p[f] == Slot(Floor(doneMax, interval), Floor(doneMax, interval) + interval)
      && !Disjoint(p)
  {
    var lo, hi := Floor(doneMax, interval), Ceiling(doneMin, interval);
    DivMod(lo, interval);
    DivMod(hi, interval);
    var a, b := lo / interval, hi / interval;
    assert lo == a * interval && hi == b * interval;
    MulCancelLess(a, b, interval);
    AddMul(a, 2, interval);
    MulCancelLess(b, a + 2, interval);
    assert b == a + 1;
    MulSucc(a, interval);
    assert hi == lo + interval;
    var fwd := ForwardSlots(lo, rangeMax, interval);
    var bwd := BackwardSlots(hi, rangeMin, interval);
    var p := PlannedSlots(doneMin, doneMax, rangeMin, rangeMax, interval);
    assert p == fwd + bwd;
    assert fwd[0] == Slot(lo, lo + interval);
    assert bwd[0] == Slot(hi - interval, hi);
    assert p[0] == fwd[0] && p[|fwd|] == bwd[0];
    assert !Apart(p[0], p[|fwd|]);
  }

  /** The smallest case: an hour interval, a watermark at half past midnight,
      and a two-hour target range plan the first hour twice. */
  lemma PlanOverlapExample()
    ensures PlannedSlots(1800, 1800, 0, 7200, 3600) == [Slot(0, 3600), Slot(3600, 7200), Slot(0, 3600)]
    ensures !Disjoint(PlannedSlots(1800, 1800, 0, 7200, 3600))
  {
    PlanOverlapsWhenUnaligned(1800, 1800, 0, 7200, 3600);
  }

  /** The plan as evidently intended: when the forward loop runs and the
      watermark's chunk would be planned by both loops, the backward loop
      stops where the forward loop starts. */
  function CorrectedSlots(doneMin: int, doneMax: int, rangeMin: int, rangeMax: int, interval: int): seq<Slot>
    requires interval > 0
  {
    (if doneMax < rangeMax then ForwardSlots(Floor(doneMax, interval), rangeMax, interval) else [])
    + (if rangeMin < doneMin then BackwardSlots(BackwardStart(doneMin, doneMax, rangeMax, interval), rangeMin, interval) else [])
  }

  /** Where the corrected backward loop starts: at the ceiling of the
      minimum, or at the forward loop's first slot when that is lower. */
  function BackwardStart(doneMin: int, doneMax: int, rangeMax: int, interval: int): int
    requires interval > 0
  {
    var lo := Floor(doneMax, interval);
    if doneMax < rangeMax && lo < Ceiling(doneMin, interval) then lo else Ceiling(doneMin, interval)
  }

  /** The corrected plan never plans a chunk twice. */
  lemma CorrectedSlotsDisjoint(doneMin: int, doneMax: int, rangeMin: int, rangeMax: int, interval: int)
    requires interval > 0
    ensures Disjoint(CorrectedSlots(doneMin, doneMax, rangeMin, rangeMax, interval))
  {
    var lo := Floor(doneMax, interval);
    var hi := BackwardStart(doneMin, doneMax, rangeMax, interval);
    var fwd := if doneMax < rangeMax then ForwardSlots(lo, rangeMax, interval) else [];
    var bwd := if rangeMin < doneMin then BackwardSlots(hi, rangeMin, interval) else [];
    assert CorrectedSlots(doneMin, doneMax, rangeMin, rangeMax, interval) == fwd + bwd;
    ForwardSlotsOrdered(lo, rangeMax, interval);
    BackwardSlotsOrdered(hi, rangeMin, interval);
    assert forall k :: 0 <= k < |fwd| ==> lo <= fwd[k].start;
    assert forall k :: 0 <= k < |bwd| ==> bwd[k].end <= hi;
    assert |fwd| > 0 ==> hi <= lo;
    DisjointConcat(fwd, bwd);
  }

  /** The corrected plan still covers every instant of the target range
      outside the watermark. */
  lemma CorrectedSlotsCover(doneMin: int, doneMax: int, rangeMin: int, rangeMax: int, interval: int, t: int)
    requires interval > 0
    requires rangeMin <= t < rangeMax
    requires t < doneMin || doneMax <= t
    ensures var p := CorrectedSlots(doneMin, doneMax, rangeMin, rangeMax, interval);
      exists k :: 0 <= k < |p| && p[k].start <= t < p[k].end
  {
    var lo := Floor(doneMax, interval);
    var hi := BackwardStart(doneMin, doneMax, rangeMax, interval);
    var fwd := if doneMax < rangeMax then ForwardSlots(lo, rangeMax, interval) else [];
    var bwd := if rangeMin < doneMin then BackwardSlots(hi, rangeMin, interval) else [];
    var p := CorrectedSlots(doneMin, doneMax, rangeMin, rangeMax, interval);
    assert p == fwd + bwd;
    if doneMax < rangeMax && lo <= t {
      ForwardSlotsCover(lo, rangeMax, interval, t);
      var k :| 0 <= k < |fwd| && fwd[k].start <= t < fwd[k].end;
      assert p[k] == fwd[k];
    } else {
      assert t < doneMin && t < hi;
      BackwardSlotsCover(hi, rangeMin, interval, t);
      var k :| 0 <= k < |bwd| && bwd[k].start <= t < bwd[k].end;
      assert p[|fwd| + k] == bwd[k];
    }
  }

  /** Wherever the as-written plan plans no chunk twice, the corrected plan
      is the same plan. */
  lemma CorrectedAgrees(doneMin: int, doneMax: int, rangeMin: int, rangeMax: int, interval: int)
    requires interval > 0
    requires Ceiling(doneMin, interval) <= Floor(doneMax, interval)
    ensures CorrectedSlots(doneMin, doneMax, rangeMin, rangeMax, interval)
      == PlannedSlots(doneMin, doneMax, rangeMin, rangeMax, interval)
  {
  }

  /** etl-schedulers.py `process`: queue the forward then the backward work,
      each slot crossed with every branch and every scheduler. The backward
      loop starts no later than the forward one, so that no chunk is queued
      twice (`CorrectedSlots`). */
  method PlanWithSchedulers(doneMin: int, doneMax: int, rangeMin: int, rangeMax: int, interval: int,
                            branches: seq<string>, schedulers: seq<string>) returns (todo: seq<WorkUnit>)
    requires interval > 0
    ensures todo == CrossUnits(CorrectedSlots(doneMin, doneMax, rangeMin, rangeMax, interval), branches, schedulers)
  {
    todo := [];
    var start := Floor(doneMax, interval);
    var end := Ceiling(doneMin, interval);
    if doneMax < rangeMax {
      todo := QueueForward(todo, start, rangeMax, interval, branches, schedulers);
      if start < end {
        end := start;
      }
    }
    assert end == BackwardStart(doneMin, doneMax, rangeMax, interval);
    ghost var fwd := if doneMax < rangeMax then ForwardSlots(start, rangeMax, interval) else [];
    assert todo == CrossUnits(fwd, branches, schedulers);
    if rangeMin < doneMin {
      todo := QueueBackward(todo, end, rangeMin, interval, branches, schedulers);
    }
    ghost var bwd := if rangeMin < doneMin then BackwardSlots(end, rangeMin, interval) else [];
    CrossUnitsAppend(fwd, bwd, branches, schedulers);
  }

  /** The forward `while` loop of etl-schedulers.py. */
  method QueueForward(todo: seq<WorkUnit>, first: int, limit: int, interval: int,
                      branches: seq<string>, schedulers: seq<string>) returns (r: seq<WorkUnit>)
    requires interval > 0
    ensures r == todo + CrossUnits(ForwardSlots(first, limit, interval), branches, schedulers)
  {
    r := todo;
    var start := first;
    ghost var planned: seq<Slot> := [];
    while start < limit
      invariant planned + ForwardSlots(start, limit, interval) == ForwardSlots(first, limit, interval)
      invariant r == todo + CrossUnits(planned, branches, schedulers)
      decreases limit - start
    {
      var end := start + interval;
      r := AddSlot(r, Slot(start, end), branches, schedulers);
      CrossUnitsSnoc(planned, Slot(start, end), branches, schedulers);
      planned := planned + [Slot(start, end)];
      start := end;
    }
    assert ForwardSlots(start, limit, interval) == [];
    assert planned == ForwardSlots(first, limit, interval);
  }

  /** The backward `while` loop of etl-schedulers.py. */
  method QueueBackward(todo: seq<WorkUnit>, last: int, limit: int, interval: int,
                       branches: seq<string>, schedulers: seq<string>) returns (r: seq<WorkUnit>)
    requires interval > 0
    ensures r == todo + CrossUnits(BackwardSlots(last, limit, interval), branches, schedulers)
  {
    r := todo;
    var end := last;
    ghost var planned: seq<Slot> := [];
    while limit < end
      invariant planned + BackwardSlots(end, limit, interval) == BackwardSlots(last, limit, interval)
      invariant r == todo + CrossUnits(planned, branches, schedulers)
      decreases end - limit
    {
      var start := end - interval;
      r := AddSlot(r, Slot(start, end), branches, schedulers);
      CrossUnitsSnoc(planned, Slot(start, end), branches, schedulers);
      planned := planned + [Slot(start, end)];
      end := start;
    }
    assert BackwardSlots(end, limit, interval) == [];
    assert planned == BackwardSlots(last, limit, interval);
  }

  /** The two nested `for` loops of etl-schedulers.py: queue the units of one slot. */
  method AddSlot(todo: seq<WorkUnit>, slot: Slot, branches: seq<string>, schedulers: seq<string>)
    returns (r: seq<WorkUnit>)
    ensures r == todo + SlotUnits(slot, branches, schedulers)
  {
    r := todo;
    var b := 0;
    while b < |branches|
      invariant 0 <= b <= |branches|
      invariant r == todo + SlotUnits(slot, branches[..b], schedulers)
    {
      var s := 0;
      while s < |schedulers|
        invariant 0 <= s <= |schedulers|
        invariant r == todo + SlotUnits(slot, branches[..b], schedulers)
          + SchedulerUnits(slot, branches[b], schedulers[..s])
      {
        r := r + [WorkUnit(slot.start, slot.end, branches[b], Some(schedulers[s]))];
        assert schedulers[..s + 1][..s] == schedulers[..s];
        s := s + 1;
      }
      assert schedulers[..s] == schedulers;
      assert branches[..b + 1][..b] == branches[..b];
      b := b + 1;
    }
    assert branches[..b] == branches;
  }

  /** schedulers.py `process`: the same slots, one unit per branch, collected
      into a list in forward-then-backward order, the backward loop again
      starting no later than the forward one. */
  method PlanBranches(doneMin: int, doneMax: int, rangeMin: int, rangeMax: int, interval: int,
                      branches: seq<string>) returns (todo: seq<WorkUnit>)
    requires interval > 0
    ensures todo == CrossBranches(CorrectedSlots(doneMin, doneMax, rangeMin, rangeMax, interval), branches)
  {
    todo := [];
    var start := Floor(doneMax, interval);
    var end := Ceiling(doneMin, interval);
    if doneMax < rangeMax {
      todo := AppendForward(todo, start, rangeMax, interval, branches);
      if start < end {
        end := start;
      }
    }
    assert end == BackwardStart(doneMin, doneMax, rangeMax, interval);
    ghost var fwd := if doneMax < rangeMax then ForwardSlots(start, rangeMax, interval) else [];
    assert todo == CrossBranches(fwd, branches);
    if rangeMin < doneMin {
      todo := AppendBackward(todo, end, rangeMin, interval, branches);
    }
    ghost var bwd := if rangeMin < doneMin then BackwardSlots(end, rangeMin, interval) else [];
    CrossBranchesAppend(fwd, bwd, branches);
  }

  /** The forward `while` loop of schedulers.py. */
  method AppendForward(todo: seq<WorkUnit>, first: int, limit: int, interval: int,
                       branches: seq<string>) returns (r: seq<WorkUnit>)
    requires interval > 0
    ensures r == todo + CrossBranches(ForwardSlots(first, limit, interval), branches)
  {
    r := todo;
    var start := first;
    ghost var planned: seq<Slot> := [];
    while start < limit
      invariant planned + ForwardSlots(start, limit, interval) == ForwardSlots(first, limit, interval)
      invariant r == todo + CrossBranches(planned, branches)
      decreases limit - start
    {
      var end := start + interval;
      r := AddBranches(r, Slot(start, end), branches);
      CrossBranchesSnoc(planned, Slot(start, end), branches);
      planned := planned + [Slot(start, end)];
      start := end;
    }
    assert ForwardSlots(start, limit, interval) == [];
    assert planned == ForwardSlots(first, limit, interval);
  }

  /** The backward `while` loop of schedulers.py. */
  method AppendBackward(todo: seq<WorkUnit>, last: int, limit: int, interval: int,
                        branches: seq<string>) returns (r: seq<WorkUnit>)
    requires interval > 0
    ensures r == todo + CrossBranches(BackwardSlots(last, limit, interval), branches)
  {
    r := todo;
    var end := last;
    ghost var planned: seq<Slot> := [];
    while limit < end
      invariant planned + BackwardSlots(end, limit, interval) == BackwardSlots(last, limit, interval)
      invariant r == todo + CrossBranches(planned, branches)
      decreases end - limit
    {
      var start := end - interval;
      r := AddBranches(r, Slot(start, end), branches);
      CrossBranchesSnoc(planned, Slot(start, end), branches);
      planned := planned + [Slot(start, end)];
      end := start;
    }
    assert BackwardSlots(end, limit, interval) == [];
    assert planned == BackwardSlots(last, limit, interval);
  }

  /** The inner `for branch` loop of schedulers.py. */
  method AddBranches(todo: seq<WorkUnit>, slot: Slot, branches: seq<string>) returns (r: seq<WorkUnit>)
    ensures r == todo + BranchUnits(slot, branches)
  {
    r := todo;
    var b := 0;
    while b < |branches|
      invariant 0 <= b <= |branches|
      invariant r == todo + BranchUnits(slot, branches[..b])
    {
      r := r + [WorkUnit(slot.start, slot.end, branches[b], None)];
      assert branches[..b + 1][..b] == branches[..b];
      b := b + 1;
    }
    assert branches[..b] == branches;
  }
}
