/** What every step of the engine keeps, whatever the server sends: reservations of the
    slots in use are unions of whole segments inside the file and pairwise disjoint, and
    a slot writes inside its own reservation only. */
module EngineInvariants {
  import opened Machine
  import opened ByteRanges
  import opened Segments
  import opened SegmentSelect
  import opened Writers
  import opened Engine

  ghost predicate Layout(job: Job) {
    && job.total > 0
    && Bounded(job.total, job.chunkSize)
    && 1 <= |job.slots| <= DL_MAX_SEGMENT_CONCURRENCY
  }

  /** `[start, end]` is a union of whole segments of the file. */
  ghost predicate WholeSegments(total: nat, chunkSize: nat, start: nat, end: nat) {
    exists a: nat, b: nat ::
      && a <= b < SegmentCount(total, chunkSize)
      && start == SegmentStart(chunkSize, a) && end == SegmentEnd(total, chunkSize, b)
  }

  ghost predicate SlotOK(total: nat, chunkSize: nat, slot: Slot) {
    if !slot.inUse then slot == FREE_SLOT
    else
      && WholeSegments(total, chunkSize, slot.rangeStart, slot.reservedEnd)
      && slot.rangeStart <= slot.reservedEnd < total
      && slot.rangeEnd == slot.reservedEnd
      && slot.Position() <= slot.reservedEnd + 1
      && slot.received <= slot.delivered
      && (!slot.headersReceived ==> slot.received == 0 && slot.persisted == 0 && !slot.streaming && !slot.draining)
      && (slot.streaming ==> !slot.draining && slot.writeOffset == slot.rangeStart)
      && (slot.draining ==> slot.received > 0)
  }

  /** Reservations are mutually exclusive. */
  ghost predicate Exclusive(slots: seq<Slot>) {
    forall i, j | 0 <= i < j < |slots| && slots[i].inUse && slots[j].inUse ::
      !RangesOverlap(slots[i].rangeStart, slots[i].reservedEnd, slots[j].rangeStart, slots[j].reservedEnd)
  }

  ghost predicate Sound(job: Job) {
    && Layout(job)
    && (forall i | 0 <= i < |job.slots| :: SlotOK(job.total, job.chunkSize, job.slots[i]))
    && Exclusive(job.slots)
    && (forall o | o in job.done :: 0 <= o < job.total)
    && job.saved <= job.done
  }

  // -------- replacing one slot --------

  lemma ReplaceSlot(job: Job, i: nat, slot: Slot)
    requires Sound(job) && i < |job.slots|
    requires SlotOK(job.total, job.chunkSize, slot)
    requires slot.inUse ==> Unreserved(job.slots, i, slot.rangeStart, slot.reservedEnd)
    ensures Sound(job.(slots := job.slots[i := slot]))
  {
  }

  lemma OthersAreApart(job: Job, i: nat)
    requires Sound(job) && Touches(job, i)
    ensures Unreserved(job.slots, i, job.slots[i].rangeStart, job.slots[i].reservedEnd)
  {
  }

  /** A slot that keeps its reservation may change everything else. */
  lemma ReplaceKeepingRange(job: Job, i: nat, slot: Slot)
    requires Sound(job) && Touches(job, i)
    requires slot.inUse && SlotOK(job.total, job.chunkSize, slot)
    requires slot.rangeStart == job.slots[i].rangeStart && slot.reservedEnd == job.slots[i].reservedEnd
    ensures Sound(job.(slots := job.slots[i := slot]))
  {
    OthersAreApart(job, i);
    ReplaceSlot(job, i, slot);
  }

  // -------- extension --------

  /** The next reservation end is the end of the next segment. */
  lemma NextEndIsNextSegment(job: Job, i: nat)
    requires Sound(job) && Touches(job, i) && CanExtend(job, i)
    ensures var slot, next := job.slots[i], NextReserveEnd(job, i);
            && slot.reservedEnd < next < job.total
            && Unreserved(job.slots, i, slot.reservedEnd + 1, next)
            && WholeSegments(job.total, job.chunkSize, slot.rangeStart, next)
  {
    var slot := job.slots[i];
    var a: nat, b: nat :| a <= b < SegmentCount(job.total, job.chunkSize)
                          && slot.rangeStart == SegmentStart(job.chunkSize, a)
                          && slot.reservedEnd == SegmentEnd(job.total, job.chunkSize, b);
    SegmentShape(job.total, job.chunkSize, b);
    SegmentShape(job.total, job.chunkSize, b + 1);
    assert NextReserveEnd(job, i) == SegmentEnd(job.total, job.chunkSize, b + 1);
  }

  lemma ExtendKeepsSound(job: Job, i: nat)
    requires Sound(job) && Touches(job, i) && CanExtend(job, i)
    ensures Sound(Extend(job, i))
  {
    var slot, next := job.slots[i], NextReserveEnd(job, i);
    NextEndIsNextSegment(job, i);
    OthersAreApart(job, i);
    forall j | 0 <= j < |job.slots| && job.slots[j].inUse && j != i
      ensures !RangesOverlap(slot.rangeStart, next, job.slots[j].rangeStart, job.slots[j].reservedEnd)
    {
      assert !RangesOverlap(slot.rangeStart, slot.reservedEnd, job.slots[j].rangeStart, job.slots[j].reservedEnd);
      assert !RangesOverlap(slot.reservedEnd + 1, next, job.slots[j].rangeStart, job.slots[j].reservedEnd);
    }
    ReplaceSlot(job, i, slot.(reservedEnd := next, rangeEnd := next));
  }

  /** `wider` is `job` with a longer reservation of slot `i`. */
  ghost predicate Widened(job: Job, i: nat, wider: Job) {
    && i < |job.slots| == |wider.slots|
    && wider.slots[i].reservedEnd >= job.slots[i].reservedEnd
    && wider == job.(slots := job.slots[i := job.slots[i].(reservedEnd := wider.slots[i].reservedEnd,
                                                           rangeEnd := wider.slots[i].rangeEnd)])
  }

  /** The extension loop keeps the invariant and stops exactly when the data fits or the
      next segment is not free. */
  lemma {:induction false} ExtendForKeepsSound(job: Job, i: nat, len: nat)
    requires Sound(job) && Touches(job, i)
    ensures var wider := ExtendFor(job, i, len);
            && Sound(wider) && Widened(job, i, wider)
            && (wider.slots[i].Position() + len > wider.slots[i].reservedEnd + 1 ==> !CanExtend(wider, i))
    decreases job.total - job.slots[i].reservedEnd
  {
    if job.slots[i].Position() + len > job.slots[i].reservedEnd + 1 && CanExtend(job, i) {
      ExtendKeepsSound(job, i);
      NextEndIsNextSegment(job, i);
      ExtendForKeepsSound(Extend(job, i), i, len);
    } else {
      assert job.slots[i := job.slots[i]] == job.slots;
    }
  }

  /** What slot_prepare_write guarantees: the bytes it lets through fit the reservation it
      leaves, nothing is let through exactly when the slot was full, and bytes are cut off
      only when the slot ends up full with no free segment behind it. */
  lemma PrepareFits(job: Job, i: nat, len: nat)
    requires Sound(job) && Touches(job, i)
    ensures var (wider, n) := Prepare(job, i, len);
            && Sound(wider) && Widened(job, i, wider)
            && wider.slots[i].Position() + n <= wider.slots[i].reservedEnd + 1
            && (len > 0 ==> (n == 0 <==> job.slots[i].Full()))
            && (job.slots[i].Full() ==> wider == job)
            && (n < len && !job.slots[i].Full() ==>
                  wider.slots[i].Position() + n == wider.slots[i].reservedEnd + 1 && !CanExtend(wider, i))
  {
    if job.slots[i].Full() || len == 0 {
      assert job.slots[i := job.slots[i]] == job.slots;
    } else {
      ExtendForKeepsSound(job, i, len);
    }
  }

  /** The offsets [start, start + len) of a body write. */
  lemma BodyBytesPlace(job: Job, i: nat, data: seq<byte>)
    requires Sound(job) && Touches(job, i) && job.slots[i].streaming
    ensures var (wider, n) := Prepare(job, i, |data|);
            forall o :: o in BodyBytes(job, i, data) <==> job.slots[i].Position() <= o < job.slots[i].Position() + n
  {
    var (wider, n) := Prepare(job, i, |data|);
    BytesAt(job.slots[i].writeOffset + job.slots[i].received, data[..n]);
  }

  lemma WriteBodyKeepsSound(job: Job, i: nat, data: seq<byte>, w: Writer)
    requires Sound(job) && Touches(job, i) && job.slots[i].streaming
    ensures Sound(WriteBody(job, i, data, w)) && Touches(WriteBody(job, i, data, w), i)
  {
    PrepareFits(job, i, |data|);
    var (wider, n) := Prepare(job, i, |data|);
    var slot := wider.slots[i];
    var remaining := if slot.responseRemaining >= n then slot.responseRemaining - n else 0;
    ReplaceKeepingRange(wider, i, slot.(received := slot.received + n, responseRemaining := remaining,
                                        delivered := slot.delivered + |data|));
  }

  // -------- marking --------

  /** Slot `i` has kept the byte at `o` and not persisted it. */
  ghost predicate Kept(slots: seq<Slot>, i: int, o: int)
    requires 0 <= i < |slots|
  {
    slots[i].Unpersisted() && slots[i].rangeStart + slots[i].persisted <= o < slots[i].Position()
  }

  lemma {:induction false} MarkIsReceived(slots: seq<Slot>, total: nat, chunkSize: nat, o: int)
    requires forall i | 0 <= i < |slots| :: SlotOK(total, chunkSize, slots[i])
    ensures o in AllMarks(slots) <==> exists i :: 0 <= i < |slots| && Kept(slots, i, o)
  {
    if slots != [] {
      var front, last := slots[..|slots| - 1], |slots| - 1;
      MarkIsReceived(front, total, chunkSize, o);
      assert o in SlotMarks(slots[last]) <==> Kept(slots, last, o);
      forall i | 0 <= i < last
        ensures Kept(front, i, o) <==> Kept(slots, i, o)
      {
        assert front[i] == slots[i];
      }
    }
  }

  /** Persisting marks exactly the kept bytes that are not persisted yet. */
  lemma MarksAreReceived(slots: seq<Slot>, total: nat, chunkSize: nat)
    requires forall i | 0 <= i < |slots| :: SlotOK(total, chunkSize, slots[i])
    ensures forall o :: o in AllMarks(slots) <==> exists i :: 0 <= i < |slots| && Kept(slots, i, o)
  {
    forall o
      ensures o in AllMarks(slots) <==> exists i :: 0 <= i < |slots| && Kept(slots, i, o)
    {
      MarkIsReceived(slots, total, chunkSize, o);
    }
  }

  lemma MarkKeepsSound(job: Job, marks: set<int>, w: Writer)
    requires Sound(job) && forall o | o in marks :: 0 <= o < job.total
    ensures Sound(Mark(job, marks, w))
  {
  }

  lemma PersistedKeepsSound(job: Job)
    requires Sound(job)
    ensures Sound(job.(slots := Persisted(job.slots)))
  {
    var slots := Persisted(job.slots);
    forall i | 0 <= i < |slots|
      ensures SlotOK(job.total, job.chunkSize, slots[i])
      ensures slots[i].inUse == job.slots[i].inUse && slots[i].rangeStart == job.slots[i].rangeStart
      ensures slots[i].reservedEnd == job.slots[i].reservedEnd
    {
      assert SlotOK(job.total, job.chunkSize, job.slots[i]);
    }
  }

  lemma PersistKeepsSound(job: Job, w: Writer)
    requires Sound(job)
    ensures Sound(Persist(job, w))
  {
    if HasUnpersisted(job.slots) {
      PersistedKeepsSound(job);
      MarksAreReceived(job.slots, job.total, job.chunkSize);
      forall o | o in AllMarks(job.slots)
        ensures 0 <= o < job.total
      {
        var i :| 0 <= i < |job.slots| && Kept(job.slots, i, o);
        assert SlotOK(job.total, job.chunkSize, job.slots[i]);
      }
      MarkKeepsSound(job.(slots := Persisted(job.slots)), AllMarks(job.slots), w);
    }
  }

  lemma FinalizeKeepsSound(job: Job, w: Writer, closed: bool)
    requires Sound(job)
    ensures Sound(Finalize(job, w, closed))
  {
    PersistKeepsSound(job, w);
  }

  lemma ReleaseKeepsSound(job: Job, i: nat)
    requires Sound(job) && i < |job.slots|
    ensures Sound(Release(job, i))
  {
    ReplaceSlot(job, i, FREE_SLOT);
  }

  lemma MarkSegmentKeepsSound(job: Job, i: nat, w: Writer)
    requires Sound(job) && Touches(job, i) && job.slots[i].received > 0
    ensures Sound(MarkSegment(job, i, w)) && Touches(MarkSegment(job, i, w), i)
  {
    var slot := job.slots[i];
    var noted := slot.(persisted := slot.received);
    assert SlotOK(job.total, job.chunkSize, slot);
    ReplaceKeepingRange(job, i, noted);
    var last := slot.rangeStart + slot.received - 1;
    MarkKeepsSound(job.(slots := job.slots[i := noted]), Interval(slot.rangeStart, last), w);
  }

  lemma PersistIfKeepsSound(job: Job, due: bool, w: Writer)
    requires Sound(job)
    ensures var kept := PersistIf(job, due, w);
            && Sound(kept) && |kept.slots| == |job.slots|
            && forall j | 0 <= j < |job.slots| :: kept.slots[j].inUse == job.slots[j].inUse
  {
    PersistKeepsSound(job, w);
  }

  lemma MarkedAndRestedKeepsSound(job: Job, i: nat, due: bool, w: Writer)
    requires Sound(job) && Touches(job, i) && job.slots[i].received > 0
    ensures Sound(MarkedAndRested(job, i, due, w)) && Touches(MarkedAndRested(job, i, due, w), i)
  {
    var marked := MarkSegment(job, i, w);
    var rested := marked.(slots := marked.slots[i := Rested(marked.slots[i])]);
    MarkSegmentKeepsSound(job, i, w);
    ReplaceKeepingRange(marked, i, Rested(marked.slots[i]));
    PersistIfKeepsSound(rested, due, w);
  }

  /** A segment that the selectors may hand out makes a valid reservation. */
  lemma EligibleIsReservable(job: Job, exclude: int, k: nat)
    requires Sound(job) && Choices(job, exclude).Eligible(k)
    ensures var start, end := SegmentStart(job.chunkSize, k), SegmentEndNat(job, k);
            && end == SegmentEnd(job.total, job.chunkSize, k)
            && start <= end < job.total
            && WholeSegments(job.total, job.chunkSize, start, end)
            && Unreserved(job.slots, exclude, start, end)
  {
    SegmentShape(job.total, job.chunkSize, k);
  }

  lemma PickedIsEligible(job: Job, i: nat, next: Option<nat>)
    requires Layout(job) && Picks(job, i, next) && next.Some?
    ensures Choices(job, i).Eligible(next.value)
  {
    SelectedIsRight(job.strategy, |job.slots|, Choices(job, i), 1);
  }

  lemma ReuseKeepsSound(job: Job, i: nat, next: Option<nat>)
    requires Sound(job) && Touches(job, i) && Picks(job, i, next)
    ensures Sound(ReuseOrRelease(job, i, next))
  {
    ReleaseKeepsSound(job, i);
    if job.slots[i].keepAlive && next.Some? {
      PickedIsEligible(job, i, next);
      EligibleIsReservable(job, i, next.value);
      var start, end := SegmentStart(job.chunkSize, next.value), SegmentEndNat(job, next.value);
      ReplaceSlot(job, i, ResetSlot(job.slots[i], start, end));
    }
  }

  lemma FinishKeepsSound(job: Job, i: nat, due: bool, next: Option<nat>, w: Writer, closed: bool)
    requires Sound(job) && Touches(job, i)
    requires job.slots[i].received > 0 ==> Picks(MarkedAndRested(job, i, due, w), i, next)
    ensures Sound(Finish(job, i, due, next, w, closed))
  {
    if job.slots[i].received == 0 {
      ReleaseKeepsSound(job, i);
    } else {
      var rested := MarkedAndRested(job, i, due, w);
      MarkedAndRestedKeepsSound(job, i, due, w);
      ReleaseKeepsSound(rested, i);
      FinalizeKeepsSound(Release(rested, i), w, closed);
      ReuseKeepsSound(rested, i, next);
    }
  }

  // -------- the callbacks --------

  lemma BeginKeepsSound(job: Job, i: nat, length: Option<nat>, keepAlive: bool)
    requires Sound(job) && Touches(job, i) && !job.slots[i].headersReceived
    ensures var begun := Begin(job, i, length, keepAlive);
            Sound(begun) && Touches(begun, i) && begun.slots[i].streaming
  {
    ReplaceKeepingRange(job, i, Begin(job, i, length, keepAlive).slots[i]);
  }

  lemma AfterBodyKeepsSound(job: Job, i: nat)
    requires Sound(job) && Touches(job, i) && job.slots[i].streaming && job.slots[i].headersReceived
    ensures Sound(AfterBody(job, i).0) && Touches(AfterBody(job, i).0, i)
  {
    var slot := job.slots[i];
    ReplaceKeepingRange(job, i, slot.(keepAlive := false));
    if slot.Full() {
      ReplaceKeepingRange(job, i, slot.(draining := true, streaming := false));
    }
    if CanExtend(job, i) {
      ExtendKeepsSound(job, i);
    }
  }

  lemma AfterDiscardKeepsSound(job: Job, i: nat, len: nat)
    requires Sound(job) && Touches(job, i)
    ensures Sound(AfterDiscard(job, i, len).0) && Touches(AfterDiscard(job, i, len).0, i)
  {
    ReplaceKeepingRange(job, i, AfterDiscard(job, i, len).0.slots[i]);
  }

  lemma ReadSlotKeepsSound(job: Job, i: nat, data: seq<byte>, w: Writer)
    requires Sound(job) && Touches(job, i)
    ensures Sound(ReadSlot(job, i, data, w).0) && Touches(ReadSlot(job, i, data, w).0, i)
  {
    if job.slots[i].streaming {
      WriteBodyKeepsSound(job, i, data, w);
      PrepareFits(job, i, |data|);
      AfterBodyKeepsSound(WriteBody(job, i, data, w), i);
    } else {
      AfterDiscardKeepsSound(job.(file := w), i, |data|);
    }
  }

  lemma FlushKeepsSound(job: Job, i: nat, rest: seq<byte>, w: Writer)
    requires Sound(job) && Touches(job, i)
    ensures Sound(Flush(job, i, rest, w)) && Touches(Flush(job, i, rest, w), i)
  {
    if job.slots[i].streaming {
      WriteBodyKeepsSound(job, i, rest, w);
    }
  }

  lemma CompleteKeepsSound(job: Job, i: nat, hadBody: bool, due: bool, w: Writer, closed: bool)
    requires Sound(job) && Touches(job, i)
    ensures Sound(CompleteSlot(job, i, hadBody, due, w, closed))
  {
    ReleaseKeepsSound(job, i);
    if !hadBody {
      FinalizeKeepsSound(Release(job, i).(file := w), w, closed);
    } else if job.slots[i].received > 0 {
      MarkSegmentKeepsSound(job, i, w);
      ReleaseKeepsSound(MarkSegment(job, i, w), i);
      PersistIfKeepsSound(Release(MarkSegment(job, i, w), i), due && !AlreadyMarked(job, i), w);
      FinalizeKeepsSound(MarkedAndReleased(job, i, due, w), w, closed);
    }
  }

  // -------- scheduling --------

  /** The selected segments are still free to reserve: eligible, distinct. */
  ghost predicate Reservable(job: Job, sel: seq<nat>) {
    && Distinct(sel)
    && forall j | 0 <= j < |sel| ::
         && sel[j] < SegmentCount(job.total, job.chunkSize)
         && Unreserved(job.slots, -1, SegmentStart(job.chunkSize, sel[j]), SegmentEnd(job.total, job.chunkSize, sel[j]))
  }

  lemma AcquireOne(job: Job, sel: seq<nat>)
    requires Sound(job) && sel != [] && Reservable(job, sel) && FirstFree(job.slots) < |job.slots|
    ensures var slot := AcquiredSlot(SegmentStart(job.chunkSize, sel[0]), SegmentEndNat(job, sel[0]));
            var next := job.(slots := job.slots[FirstFree(job.slots) := slot]);
            Sound(next) && Reservable(next, sel[1..])
  {
    var k := FirstFree(job.slots);
    SegmentShape(job.total, job.chunkSize, sel[0]);
    var slot := AcquiredSlot(SegmentStart(job.chunkSize, sel[0]), SegmentEndNat(job, sel[0]));
    assert WholeSegments(job.total, job.chunkSize, slot.rangeStart, slot.reservedEnd);
    assert Unreserved(job.slots, k, slot.rangeStart, slot.reservedEnd);
    ReplaceSlot(job, k, slot);
    var next := job.(slots := job.slots[k := slot]);
    forall j | 0 <= j < |sel[1..]|
      ensures Unreserved(next.slots, -1, SegmentStart(job.chunkSize, sel[1..][j]),
                         SegmentEnd(job.total, job.chunkSize, sel[1..][j]))
    {
      assert sel[1..][j] == sel[j + 1] && sel[0] != sel[j + 1];
      if sel[0] < sel[j + 1] {
        SegmentsAreDisjoint(job.total, job.chunkSize, sel[0], sel[j + 1]);
      } else {
        SegmentsAreDisjoint(job.total, job.chunkSize, sel[j + 1], sel[0]);
      }
    }
  }

  lemma {:induction false} AcquireAllKeepsSound(job: Job, sel: seq<nat>, connected: seq<bool>)
    requires Sound(job) && |connected| == |sel| && Reservable(job, sel)
    ensures Sound(AcquireAll(job, sel, connected))
    decreases |sel|
  {
    if sel != [] && FirstFree(job.slots) < |job.slots| {
      AcquireOne(job, sel);
      var slot := AcquiredSlot(SegmentStart(job.chunkSize, sel[0]), SegmentEndNat(job, sel[0]));
      var next := if connected[0] then job.(slots := job.slots[FirstFree(job.slots) := slot])
                  else job.(outcome := Stopped);
      assert Reservable(next, sel[1..]);
      AcquireAllKeepsSound(next, sel[1..], connected[1..]);
    }
  }

  lemma ResumedIsSound(job: Job, now: Instant)
    requires Sound(job) && forall o | o in now.saved :: 0 <= o < job.total
    ensures Sound(Resumed(job, now))
  {
  }

  // -------- progress only grows --------

  lemma BodyKeepsDone(job: Job, i: nat, data: seq<byte>, w: Writer)
    requires Sound(job) && Touches(job, i)
    ensures WriteBody(job, i, data, w).done == job.done && WriteBody(job, i, data, w).total == job.total
  {
    PrepareFits(job, i, |data|);
  }

  /** `after` has lost no progress, and is a job for the same file. */
  ghost predicate Grows(before: Job, after: Job) {
    before.done <= after.done && after.total == before.total
  }

  lemma FinalizeGrows(job: Job, w: Writer, closed: bool)
    ensures Grows(job, Finalize(job, w, closed)) && Grows(job, FinalizeIfDone(job, w, closed))
  {
  }

  lemma FinishGrows(job: Job, i: nat, due: bool, next: Option<nat>, w: Writer, closed: bool)
    requires i < |job.slots|
    ensures Grows(job, Finish(job, i, due, next, w, closed))
  {
    var rested := MarkedAndRested(job, i, due, w);
    assert Grows(job, rested);
    FinalizeGrows(Release(rested, i), w, closed);
  }

  lemma CompleteGrows(job: Job, i: nat, hadBody: bool, due: bool, w: Writer, closed: bool)
    requires i < |job.slots|
    ensures Grows(job, CompleteSlot(job, i, hadBody, due, w, closed))
  {
    assert Grows(job, MarkedAndReleased(job, i, due, w));
    FinalizeGrows(MarkedAndReleased(job, i, due, w), w, closed);
    FinalizeGrows(Release(job, i).(file := w), w, closed);
  }

  lemma {:induction false} AcquireAllGrows(job: Job, sel: seq<nat>, connected: seq<bool>)
    requires |connected| == |sel|
    ensures AcquireAll(job, sel, connected).done == job.done && AcquireAll(job, sel, connected).total == job.total
    decreases |sel|
  {
    if sel != [] && FirstFree(job.slots) < |job.slots| {
      var slot := AcquiredSlot(SegmentStart(job.chunkSize, sel[0]), SegmentEndNat(job, sel[0]));
      var next := if connected[0] then job.(slots := job.slots[FirstFree(job.slots) := slot])
                  else job.(outcome := Stopped);
      AcquireAllGrows(next, sel[1..], connected[1..]);
    }
  }

  lemma HeadersGrow(job: Job, i: nat, length: Option<nat>, keepAlive: bool, body: seq<byte>, w1: Writer, w2: Writer)
    requires Sound(job) && Touches(job, i) && !job.slots[i].headersReceived
    ensures var started := WriteBody(Begin(job, i, length, keepAlive), i, body, w1);
            Grows(job, PersistIf(started, started.outcome == Running, w2))
  {
    BeginKeepsSound(job, i, length, keepAlive);
    BodyKeepsDone(Begin(job, i, length, keepAlive), i, body, w1);
  }

  lemma ReadGrows(job: Job, i: nat, data: seq<byte>, next: Option<nat>, due: bool,
                  w1: Writer, w2: Writer, closed: bool, job': Job)
    requires Sound(job) && Enabled(job, Read(i, data, next, due))
    requires Handles(job, Read(i, data, next, due), w1, w2, closed, job')
    ensures Grows(job, job')
  {
    BodyKeepsDone(job, i, data, w1);
    FinishGrows(ReadSlot(job, i, data, w1).0, i, due, next, w2, closed);
  }

  lemma HandlerGrows(job: Job, e: Event, w1: Writer, w2: Writer, closed: bool, job': Job)
    requires Sound(job) && Enabled(job, e) && !e.Crash? && !e.Restart? && Handles(job, e, w1, w2, closed, job')
    ensures Grows(job, job')
  {
    match e
    case Schedule(sel, connected) =>
      FinalizeGrows(job, w2, closed);
      AcquireAllGrows(job.(file := w2), sel, connected);
    case Headers(i, length, keepAlive, body) =>
      HeadersGrow(job, i, length, keepAlive, body, w1, w2);
    case Read(i, data, next, due) =>
      ReadGrows(job, i, data, next, due, w1, w2, closed, job');
    case Close(i, rest, due, late) =>
      BodyKeepsDone(job, i, rest, w1);
      CompleteGrows(Flush(job, i, rest, w1), i, HadBody(job.slots[i]) && !late, due, w2, closed);
    case Abandon(i, rest) => BodyKeepsDone(job, i, rest, w1);
    case SaveMetadata =>
    case WorkerRuns =>
    case Stop =>
  }

  /** At no instant does state.json claim more than is done by the end of the event. */
  lemma {:induction false} SavedIsDone(job: Job, e: Event, io: Io, job': Job, k: nat)
    requires Sound(job) && HandlerStep(job, e, io, job') && k < |io.drain|
    ensures io.drain[k].saved <= job'.done && job.saved <= job'.done
    decreases k
  {
    StepGrows(job, e, io, job');
    if k > 0 {
      SavedIsDone(job, e, io, job', k - 1);
    }
  }

  lemma StepGrows(job: Job, e: Event, io: Io, job': Job)
    requires Sound(job) && HandlerStep(job, e, io, job')
    ensures Grows(job, job')
  {
    HandlerGrows(job, e, Last(io.write), Last(io.drain).file, io.closed, Unrecorded(job, job'));
  }

  lemma HandlerKeepsSound(job: Job, e: Event, w1: Writer, w2: Writer, closed: bool, job': Job)
    requires Sound(job) && Enabled(job, e) && !e.Crash? && !e.Restart? && Handles(job, e, w1, w2, closed, job')
    ensures Sound(job')
  {
    match e
    case Schedule(sel, connected) =>
      if AllDone(job) {
        FinalizeKeepsSound(job, w2, closed);
      } else {
        SelectedIsRight(job.strategy, |job.slots|, Choices(job, -1), SelectLimit(job));
        AcquireAllKeepsSound(job.(file := w2), sel, connected);
      }
    case Headers(i, length, keepAlive, body) =>
      var begun := Begin(job, i, length, keepAlive);
      BeginKeepsSound(job, i, length, keepAlive);
      WriteBodyKeepsSound(begun, i, body, w1);
      PersistKeepsSound(WriteBody(begun, i, body, w1), w2);
    case Read(i, data, next, due) =>
      var (read, verdict) := ReadSlot(job, i, data, w1);
      ReadSlotKeepsSound(job, i, data, w1);
      PersistKeepsSound(read, w2);
      if verdict == FinishSlot {
        FinishKeepsSound(read, i, due, next, w2, closed);
      }
    case Close(i, rest, due, late) =>
      FlushKeepsSound(job, i, rest, w1);
      CompleteKeepsSound(Flush(job, i, rest, w1), i, HadBody(job.slots[i]) && !late, due, w2, closed);
    case Abandon(i, rest) =>
      FlushKeepsSound(job, i, rest, w1);
      ReleaseKeepsSound(Flush(job, i, rest, w1), i);
    case SaveMetadata =>
      PersistKeepsSound(job, w2);
    case WorkerRuns =>
    case Stop =>
  }

  lemma HandlerStepKeepsSound(job: Job, e: Event, io: Io, job': Job)
    requires Sound(job) && HandlerStep(job, e, io, job')
    ensures Sound(job') && job'.total == job.total
  {
    HandlerKeepsSound(job, e, Last(io.write), Last(io.drain).file, io.closed, Unrecorded(job, job'));
    StepGrows(job, e, io, job');
    SavedIsDone(job, e, io, job', |io.drain| - 1);
  }

  /** Every step keeps the reservations sound, for any server and any interleaving. */
  lemma StepKeepsSound(job: Job, e: Event, io: Io, job': Job)
    requires Sound(job) && Transition(job, e, io, job')
    ensures Sound(job') && job'.total == job.total
  {
    match e
    case Crash(during, at) =>
      var after :| HandlerStep(job, during, io, after);
      HandlerStepKeepsSound(job, during, io, after);
      SavedIsDone(job, during, io, after, if at < |io.write| then 0 else at - |io.write| + 1);
      ResumedIsSound(job, Instants(job, io)[at]);
    case Restart =>
      ResumedIsSound(job, Instant(Last(io.write), job.saved));
    case _ =>
      HandlerStepKeepsSound(job, e, io, job');
  }
}
