/** The scheduler is work-conserving: after a pass whose connection attempts succeed,
    either every slot is in use or every unfinished segment lies in some reservation. */
module EngineScheduling {
  import opened Segments
  import opened SegmentSelect
  import opened Engine
  import opened EngineInvariants

  // -------- counting slots --------

  lemma {:induction false} ActiveBound(slots: seq<Slot>)
    ensures CountActive(slots) <= |slots|
    ensures CountActive(slots) == |slots| <==> forall j | 0 <= j < |slots| :: slots[j].inUse
    ensures CountActive(slots) == 0 <==> forall j | 0 <= j < |slots| :: !slots[j].inUse
  {
    if slots != [] {
      var front := slots[..|slots| - 1];
      ActiveBound(front);
      assert forall j | 0 <= j < |front| :: front[j] == slots[j];
      assert (forall j | 0 <= j < |slots| :: slots[j].inUse)
          <==> slots[|slots| - 1].inUse && forall j | 0 <= j < |front| :: front[j].inUse;
      assert (forall j | 0 <= j < |slots| :: !slots[j].inUse)
          <==> !slots[|slots| - 1].inUse && forall j | 0 <= j < |front| :: !front[j].inUse;
    }
  }

  lemma {:induction false} OneMoreActive(slots: seq<Slot>, k: nat, slot: Slot)
    requires k < |slots| && !slots[k].inUse && slot.inUse
    ensures CountActive(slots[k := slot]) == CountActive(slots) + 1
  {
    var last := |slots| - 1;
    if k == last {
      assert slots[k := slot][..last] == slots[..last];
    } else {
      assert slots[k := slot][..last] == slots[..last][k := slot];
      OneMoreActive(slots[..last], k, slot);
    }
  }

  // -------- one scheduling pass --------

  ghost predicate Reserves(slot: Slot, start: int, end: int) {
    slot.inUse && slot.rangeStart <= start && end <= slot.reservedEnd
  }

  ghost predicate ReservedBySome(slots: seq<Slot>, start: int, end: int) {
    exists j :: 0 <= j < |slots| && Reserves(slots[j], start, end)
  }

  ghost predicate AllConnect(connected: seq<bool>) {
    forall j | 0 <= j < |connected| :: connected[j]
  }

  function SlotFor(job: Job, segment: nat): Slot {
    AcquiredSlot(SegmentStart(job.chunkSize, segment), SegmentEndNat(job, segment))
  }

  /** A slot that waits for the response to a new request for segment `k`. */
  predicate Requests(job: Job, slot: Slot, k: nat) {
    && slot.inUse && slot.keepAlive
    && slot.rangeStart == SegmentStart(job.chunkSize, k)
    && slot.rangeEnd == slot.reservedEnd == SegmentEnd(job.total, job.chunkSize, k)
    && !slot.headersReceived && !slot.streaming && !slot.draining
    && slot.received == slot.persisted == slot.responseRemaining == slot.delivered == 0
  }

  lemma AcquiredRequests(job: Job, k: nat)
    requires k < SegmentCount(job.total, job.chunkSize)
    ensures Requests(job, SlotFor(job, k), k)
  {
    SegmentShape(job.total, job.chunkSize, k);
  }

  /** Every selected segment whose connection is made gets a slot, also behind one that fails. */
  lemma {:induction false} ConnectedAreAcquired(job: Job, sel: seq<nat>, connected: seq<bool>)
    requires |connected| == |sel| && CountActive(job.slots) + |sel| <= |job.slots|
    ensures var after := AcquireAll(job, sel, connected);
            && |after.slots| == |job.slots|
            && (forall j | 0 <= j < |job.slots| && job.slots[j].inUse :: after.slots[j] == job.slots[j])
            && (forall j | 0 <= j < |sel| && connected[j] :: SlotFor(job, sel[j]) in after.slots)
    decreases |sel|
  {
    if sel != [] {
      var k, slot := FirstFree(job.slots), SlotFor(job, sel[0]);
      ActiveBound(job.slots);
      OneMoreActive(job.slots, k, slot);
      var next := if connected[0] then job.(slots := job.slots[k := slot]) else job.(outcome := Stopped);
      ConnectedAreAcquired(next, sel[1..], connected[1..]);
      var after := AcquireAll(next, sel[1..], connected[1..]);
      assert connected[0] ==> after.slots[k] == slot;
      forall j | 0 <= j < |sel| && connected[j]
        ensures SlotFor(job, sel[j]) in after.slots
      {
        if j > 0 {
          assert connected[1..][j - 1] && sel[1..][j - 1] == sel[j];
          assert SlotFor(next, sel[j]) == SlotFor(job, sel[j]);
        }
      }
    }
  }

  /** The loop gives every selected segment a slot and leaves the busy ones alone. */
  lemma {:induction false} AcquiresThemAll(job: Job, sel: seq<nat>, connected: seq<bool>)
    requires |connected| == |sel| && AllConnect(connected)
    requires CountActive(job.slots) + |sel| <= |job.slots|
    ensures var after := AcquireAll(job, sel, connected);
            && after == job.(slots := after.slots) && |after.slots| == |job.slots|
            && CountActive(after.slots) == CountActive(job.slots) + |sel|
            && (forall j | 0 <= j < |job.slots| && job.slots[j].inUse :: after.slots[j] == job.slots[j])
            && (forall segment | segment in sel :: SlotFor(job, segment) in after.slots)
    decreases |sel|
  {
    if sel != [] {
      var k := FirstFree(job.slots);
      ActiveBound(job.slots);
      assert k < |job.slots|;
      var slot := SlotFor(job, sel[0]);
      var next := job.(slots := job.slots[k := slot]);
      OneMoreActive(job.slots, k, slot);
      assert AllConnect(connected[1..]);
      AcquiresThemAll(next, sel[1..], connected[1..]);
      var after := AcquireAll(job, sel, connected);
      assert after == AcquireAll(next, sel[1..], connected[1..]);
      assert after.slots[k] == slot;
      forall segment | segment in sel
        ensures SlotFor(job, segment) in after.slots
      {
        if segment != sel[0] {
          assert segment in sel[1..];
          assert SlotFor(next, segment) == SlotFor(job, segment);
        }
      }
    }
  }

  /** A reservation that meets a segment contains it, because it is a union of segments. */
  lemma OverlapIsContainment(job: Job, j: nat, k: nat)
    requires Sound(job) && Touches(job, j) && k < SegmentCount(job.total, job.chunkSize)
    requires RangesOverlap(SegmentStart(job.chunkSize, k), SegmentEnd(job.total, job.chunkSize, k),
                           job.slots[j].rangeStart, job.slots[j].reservedEnd)
    ensures Reserves(job.slots[j], SegmentStart(job.chunkSize, k), SegmentEnd(job.total, job.chunkSize, k))
  {
    var slot := job.slots[j];
    var a: nat, b: nat :| a <= b < SegmentCount(job.total, job.chunkSize)
                          && slot.rangeStart == SegmentStart(job.chunkSize, a)
                          && slot.reservedEnd == SegmentEnd(job.total, job.chunkSize, b);
    if k < a {
      SegmentsAreDisjoint(job.total, job.chunkSize, k, a);
    }
    if b < k {
      SegmentsAreDisjoint(job.total, job.chunkSize, b, k);
    }
    MulMonotone(a, k, SegmentSize(job.chunkSize));
    if k < b {
      SegmentsAreDisjoint(job.total, job.chunkSize, k, b);
      SegmentShape(job.total, job.chunkSize, b);
    }
  }

  /** An unfinished segment that no selection may take lies in a reservation. */
  lemma IneligibleIsReserved(job: Job, k: nat)
    requires Sound(job) && k < SegmentCount(job.total, job.chunkSize)
    requires !SegmentDone(job.done, job.total, job.chunkSize, k) && !Choices(job, -1).Eligible(k)
    ensures ReservedBySome(job.slots, SegmentStart(job.chunkSize, k), SegmentEnd(job.total, job.chunkSize, k))
  {
    var start, end := SegmentStart(job.chunkSize, k), SegmentEnd(job.total, job.chunkSize, k);
    assert !Unreserved(job.slots, -1, start, end);
    var j :| 0 <= j < |job.slots| && job.slots[j].inUse
             && RangesOverlap(start, end, job.slots[j].rangeStart, job.slots[j].reservedEnd);
    OverlapIsContainment(job, j, k);
  }

  /** Segment `k` lies in some reservation. */
  ghost predicate SegmentReserved(job: Job, slots: seq<Slot>, k: nat) {
    ReservedBySome(slots, SegmentStart(job.chunkSize, k), SegmentEnd(job.total, job.chunkSize, k))
  }

  /** When the pass found fewer segments than it had slots for, nothing unfinished is left out. */
  lemma UnfinishedIsReserved(job: Job, sel: seq<nat>, slots: seq<Slot>, k: nat)
    requires Sound(job) && k < SegmentCount(job.total, job.chunkSize)
    requires !SegmentDone(job.done, job.total, job.chunkSize, k)
    requires Choices(job, -1).Eligible(k) ==> k in sel
    requires |slots| == |job.slots| && forall j | 0 <= j < |slots| && job.slots[j].inUse :: slots[j] == job.slots[j]
    requires forall segment | segment in sel :: SlotFor(job, segment) in slots
    ensures SegmentReserved(job, slots, k)
  {
    var start, end := SegmentStart(job.chunkSize, k), SegmentEnd(job.total, job.chunkSize, k);
    if Choices(job, -1).Eligible(k) {
      var j :| 0 <= j < |slots| && slots[j] == SlotFor(job, k);
      SegmentShape(job.total, job.chunkSize, k);
      assert Reserves(slots[j], start, end);
    } else {
      IneligibleIsReserved(job, k);
      var j :| 0 <= j < |job.slots| && Reserves(job.slots[j], start, end);
      assert Reserves(slots[j], start, end);
    }
  }

  lemma SchedulingConservesWork(job: Job, sel: seq<nat>, connected: seq<bool>)
    requires Sound(job) && Enabled(job, Schedule(sel, connected)) && !AllDone(job) && AllConnect(connected)
    ensures var after := AcquireAll(job, sel, connected);
            && after.outcome == job.outcome
            && ((forall j | 0 <= j < |after.slots| :: after.slots[j].inUse)
                || forall k: nat | k < SegmentCount(job.total, job.chunkSize)
                                   && !SegmentDone(job.done, job.total, job.chunkSize, k) ::
                     SegmentReserved(job, after.slots, k))
  {
    var after := AcquireAll(job, sel, connected);
    var query := Choices(job, -1);
    SelectedIsRight(job.strategy, |job.slots|, query, SelectLimit(job));
    ActiveBound(job.slots);
    AcquiresThemAll(job, sel, connected);
    ActiveBound(after.slots);
    if |sel| < SelectLimit(job) {
      LargeRequestsSelectEverything(query, SelectLimit(job), sel);
      forall k: nat | k < SegmentCount(job.total, job.chunkSize) && !SegmentDone(job.done, job.total, job.chunkSize, k)
        ensures SegmentReserved(job, after.slots, k)
      {
        assert query.Eligible(k) ==> k in ToSet(sel);
        UnfinishedIsReserved(job, sel, after.slots, k);
      }
    }
  }

  /** An unfinished job with no slot in use always starts something. */
  lemma IdleJobsStartWork(job: Job, sel: seq<nat>, connected: seq<bool>)
    requires Sound(job) && Enabled(job, Schedule(sel, connected)) && !AllDone(job) && AllConnect(connected)
    requires forall j | 0 <= j < |job.slots| :: !job.slots[j].inUse
    ensures sel != [] && CountActive(AcquireAll(job, sel, connected).slots) == |sel|
  {
    var query := Choices(job, -1);
    SelectedIsRight(job.strategy, |job.slots|, query, SelectLimit(job));
    ActiveBound(job.slots);
    UnfinishedHasCandidate(query);
    AcquiresThemAll(job, sel, connected);
  }
}
