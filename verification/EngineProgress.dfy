/** What a slot has taken is never lost: behind every handler a byte is done or held by a
    slot exactly when it was so before or has just been handed over. */
module EngineProgress {
  import opened Machine
  import opened ByteRanges
  import opened Segments
  import opened Writers
  import opened Engine
  import opened EngineInvariants
  import opened EngineContent
  import opened EngineScheduling

  // -------- nothing that was received is lost --------

  ghost predicate HeldBy(slot: Slot, o: int) {
    slot.inUse && slot.rangeStart <= o < slot.Position()
  }

  /** The byte at `o` is done, or some slot has it. */
  ghost predicate Holds(job: Job, o: int) {
    o in job.done || Received(job, o)
  }

  ghost predicate KeepsAll(before: Job, after: Job) {
    forall o | Holds(before, o) :: Holds(after, o)
  }

  lemma KeepsThen(a: Job, b: Job, c: Job)
    requires KeepsAll(a, b) && KeepsAll(b, c)
    ensures KeepsAll(a, c)
  {
  }

  lemma ReceivedInSlot(job: Job, j: nat, o: int)
    requires j < |job.slots| && HeldBy(job.slots[j], o)
    ensures Received(job, o)
  {
  }

  /** A slot may be replaced by one that holds what the old one held, as far as it is not done. */
  lemma ReplaceHolds(job: Job, i: nat, slot: Slot)
    requires i < |job.slots|
    requires forall o | HeldBy(job.slots[i], o) :: o in job.done || HeldBy(slot, o)
    ensures KeepsAll(job, job.(slots := job.slots[i := slot]))
  {
    var after := job.(slots := job.slots[i := slot]);
    forall o | Received(job, o)
      ensures Holds(after, o)
    {
      var j :| 0 <= j < |job.slots| && job.slots[j].inUse && job.slots[j].rangeStart <= o < job.slots[j].Position();
      if j == i {
        assert HeldBy(job.slots[i], o);
        assert HeldBy(slot, o) ==> HeldBy(after.slots[i], o);
      } else {
        assert HeldBy(after.slots[j], o);
      }
    }
  }

  lemma SameSlotsHold(before: Job, after: Job)
    requires after.slots == before.slots && before.done <= after.done
    ensures KeepsAll(before, after)
  {
    forall o | Received(before, o)
      ensures Received(after, o)
    {
    }
  }

  lemma PersistHolds(job: Job, w: Writer)
    ensures KeepsAll(job, Persist(job, w))
  {
    var after := Persist(job, w);
    forall o | Received(job, o)
      ensures Received(after, o)
    {
      var j :| 0 <= j < |job.slots| && job.slots[j].inUse && job.slots[j].rangeStart <= o < job.slots[j].Position();
      assert HeldBy(after.slots[j], o);
    }
  }

  lemma PersistIfHolds(job: Job, due: bool, w: Writer)
    ensures KeepsAll(job, PersistIf(job, due, w))
  {
    PersistHolds(job, w);
    SameSlotsHold(job, job.(file := w));
  }

  lemma FinalizeHolds(job: Job, w: Writer, closed: bool)
    ensures KeepsAll(job, Finalize(job, w, closed)) && KeepsAll(job, FinalizeIfDone(job, w, closed))
  {
    PersistHolds(job, w);
    SameSlotsHold(job, job.(file := w));

    if job.outcome == Running {
      SameSlotsHold(Persist(job, w), Finalize(job, w, closed));
      KeepsThen(job, Persist(job, w), Finalize(job, w, closed));
    }
  }

  /** Marking a segment marks all that its slot has received. */
  lemma MarkSegmentHolds(job: Job, i: nat, w: Writer)
    requires Touches(job, i) && job.slots[i].received > 0
    ensures var marked := MarkSegment(job, i, w);
            && KeepsAll(job, marked) && marked.outcome == job.outcome
            && (forall o | HeldBy(job.slots[i], o) :: o in marked.done)
            && marked.slots[i] == job.slots[i].(persisted := marked.slots[i].persisted)
  {
    var marked := MarkSegment(job, i, w);
    var noted := job.(slots := marked.slots);
    if AlreadyMarked(job, i) {
      SameSlotsHold(job, marked);
    } else {
      ReplaceHolds(job, i, job.slots[i].(persisted := job.slots[i].received));
      SameSlotsHold(noted, marked);
      KeepsThen(job, noted, marked);
    }
  }

  /** A finished slot: all it has received is done. */
  ghost predicate Settles(job: Job, i: nat, after: Job)
    requires i < |job.slots|
  {
    KeepsAll(job, after) && forall o | HeldBy(job.slots[i], o) :: o in after.done
  }

  lemma SettledThen(job: Job, i: nat, mid: Job, after: Job)
    requires i < |job.slots| && Settles(job, i, mid) && KeepsAll(mid, after) && mid.done <= after.done
    ensures Settles(job, i, after)
  {
    KeepsThen(job, mid, after);
  }

  lemma MarkedAndRestedSettles(job: Job, i: nat, due: bool, w: Writer)
    requires Touches(job, i) && job.slots[i].received > 0
    ensures Settles(job, i, MarkedAndRested(job, i, due, w))
  {
    var marked := MarkSegment(job, i, w);
    var rested := marked.(slots := marked.slots[i := Rested(marked.slots[i])]);
    MarkSegmentHolds(job, i, w);
    ReplaceHolds(marked, i, Rested(marked.slots[i]));
    PersistIfHolds(rested, due, w);
    SettledThen(job, i, marked, rested);
    SettledThen(job, i, rested, MarkedAndRested(job, i, due, w));
  }

  lemma RestedHoldsNothing(job: Job, i: nat, due: bool, w: Writer)
    requires Touches(job, i)
    ensures MarkedAndRested(job, i, due, w).slots[i].received == 0
    ensures forall o :: !HeldBy(MarkedAndRested(job, i, due, w).slots[i], o)
  {
  }

  lemma FinishRestedHolds(rested: Job, i: nat, next: Option<nat>, w: Writer, closed: bool)
    requires i < |rested.slots| && forall o :: !HeldBy(rested.slots[i], o)
    ensures KeepsAll(rested, FinishRested(rested, i, next, w, closed))
  {
    ReplaceHolds(rested, i, FREE_SLOT);
    FinalizeHolds(Release(rested, i), w, closed);
    KeepsThen(rested, Release(rested, i), Finalize(Release(rested, i), w, closed));
    if next.Some? {
      ReplaceHolds(rested, i, ResetSlot(rested.slots[i], SegmentStart(rested.chunkSize, next.value),
                                        SegmentEndNat(rested, next.value)));
    }
  }

  lemma FinishSettles(job: Job, i: nat, due: bool, next: Option<nat>, w: Writer, closed: bool)
    requires Touches(job, i) && job.slots[i].received > 0
    ensures Settles(job, i, Finish(job, i, due, next, w, closed))
  {
    var rested := MarkedAndRested(job, i, due, w);
    MarkedAndRestedSettles(job, i, due, w);
    RestedHoldsNothing(job, i, due, w);
    FinishRestedHolds(rested, i, next, w, closed);
    FinalizeGrows(Release(rested, i), w, closed);
    SettledThen(job, i, rested, FinishRested(rested, i, next, w, closed));
  }

  lemma MarkedAndReleasedSettles(job: Job, i: nat, due: bool, w: Writer)
    requires Touches(job, i) && job.slots[i].received > 0
    ensures Settles(job, i, MarkedAndReleased(job, i, due, w))
  {
    var marked := MarkSegment(job, i, w);
    MarkSegmentHolds(job, i, w);
    ReplaceHolds(marked, i, FREE_SLOT);
    SettledThen(job, i, marked, Release(marked, i));
    PersistIfHolds(Release(marked, i), due && !AlreadyMarked(job, i), w);
    SettledThen(job, i, Release(marked, i), MarkedAndReleased(job, i, due, w));
  }

  /** A close that counts the body, or has none to count. */
  lemma CompleteSettles(job: Job, i: nat, hadBody: bool, due: bool, w: Writer, closed: bool)
    requires Touches(job, i) && (!hadBody ==> job.slots[i].received == 0)
    ensures Settles(job, i, CompleteSlot(job, i, hadBody, due, w, closed))
  {
    var released := if job.slots[i].received > 0 then MarkedAndReleased(job, i, due, w)
                    else Release(job, i).(file := w);
    if job.slots[i].received > 0 {
      MarkedAndReleasedSettles(job, i, due, w);
    } else {
      ReplaceHolds(job, i, FREE_SLOT);
      SameSlotsHold(Release(job, i), released);
      KeepsThen(job, Release(job, i), released);
    }
    FinalizeHolds(released, w, closed);
    FinalizeGrows(released, w, closed);
    SettledThen(job, i, released, FinalizeIfDone(released, w, closed));
    SettledThen(job, i, released, released);
  }

  lemma {:induction false} AcquireAllHolds(job: Job, sel: seq<nat>, connected: seq<bool>)
    requires |connected| == |sel|
    ensures KeepsAll(job, AcquireAll(job, sel, connected))
    decreases |sel|
  {
    if sel != [] && FirstFree(job.slots) < |job.slots| {
      var k := FirstFree(job.slots);
      var slot := SlotFor(job, sel[0]);
      var next := if connected[0] then job.(slots := job.slots[k := slot]) else job.(outcome := Stopped);
      ReplaceHolds(job, k, slot);
      SameSlotsHold(job, job.(outcome := Stopped));
      AcquireAllHolds(next, sel[1..], connected[1..]);
      KeepsThen(job, next, AcquireAll(job, sel, connected));
    }
  }

  /** What a body write that succeeds hands over, the slot holds afterwards. */
  lemma WriteBodyHolds(job: Job, i: nat, data: seq<byte>, w: Writer)
    requires Sound(job) && Touches(job, i) && job.slots[i].streaming
    ensures var after := WriteBody(job, i, data, w);
            && KeepsAll(job, after)
            && (forall o | HeldBy(job.slots[i], o) || o in KeptBytes(BodyBytes(job, i, data), w) ::
                  HeldBy(after.slots[i], o))
  {
    PrepareFits(job, i, |data|);
    BodyBytesPlace(job, i, data);
    var after := WriteBody(job, i, data, w);
    ReplaceHolds(job, i, after.slots[i]);
    SameSlotsHold(job.(slots := job.slots[i := after.slots[i]]), after);
    KeepsThen(job, job.(slots := job.slots[i := after.slots[i]]), after);
  }

  lemma AfterBodyHolds(job: Job, i: nat)
    requires Touches(job, i)
    ensures KeepsAll(job, AfterBody(job, i).0)
    ensures forall o | HeldBy(job.slots[i], o) :: HeldBy(AfterBody(job, i).0.slots[i], o)
  {
    ReplaceHolds(job, i, AfterBody(job, i).0.slots[i]);
    assert job.slots[i := job.slots[i]] == job.slots;
  }

  /** The slot has everything that it had and that this event has brought it. */
  ghost predicate TakesIn(job: Job, i: nat, bytes: Disk, after: Job)
    requires i < |job.slots|
  {
    && i < |after.slots| && KeepsAll(job, after)
    && forall o | HeldBy(job.slots[i], o) || o in bytes :: HeldBy(after.slots[i], o)
  }

  lemma ReadSlotTakes(job: Job, i: nat, data: seq<byte>, w: Writer)
    requires Sound(job) && Touches(job, i)
    ensures TakesIn(job, i, KeptBytes(if job.slots[i].streaming then BodyBytes(job, i, data) else map[], w),
                  ReadSlot(job, i, data, w).0)
  {
    if job.slots[i].streaming {
      var after := WriteBody(job, i, data, w);
      WriteBodyHolds(job, i, data, w);
      WriteBodyKeepsSound(job, i, data, w);
      AfterBodyHolds(after, i);
      KeepsThen(job, after, AfterBody(after, i).0);
    } else {
      var discarded := AfterDiscard(job.(file := w), i, |data|).0;
      SameSlotsHold(job, job.(file := w));
      ReplaceHolds(job.(file := w), i, discarded.slots[i]);
      KeepsThen(job, job.(file := w), discarded);
    }
  }

  lemma FlushTakes(job: Job, i: nat, rest: seq<byte>, w: Writer)
    requires Sound(job) && Touches(job, i)
    ensures TakesIn(job, i, KeptBytes(if job.slots[i].streaming then BodyBytes(job, i, rest) else map[], w),
                  Flush(job, i, rest, w))
  {
    if job.slots[i].streaming {
      WriteBodyHolds(job, i, rest, w);
    } else {
      SameSlotsHold(job, job.(file := w));
    }
  }

  // -------- every handler, byte by byte --------

  /** The closes that do not count the body of their slot. */
  predicate Drops(e: Event) {
    e.Abandon? || (e.Close? && e.late)
  }

  /** What such a close loses: what its slot has and nobody has marked. */
  ghost predicate Dropped(job: Job, e: Event, w: Writer, o: int)
    requires Enabled(job, e)
  {
    Drops(e) && o !in job.done && (HeldBy(job.slots[e.slot], o) || o in KeptBytes(EventBytes(job, e), w))
  }

  /** The event has finished its slot, and counts what the slot has received. */
  predicate Finishes(job: Job, e: Event, job': Job) {
    || (e.Read? && e.slot < |job'.slots| && !job'.slots[e.slot].headersReceived)
    || (e.Close? && !e.late)
  }

  /** Two slots never hold the same byte. */
  lemma HeldByOne(job: Job, i: nat, j: nat, o: int)
    requires Sound(job) && i < |job.slots| && j < |job.slots|
    requires HeldBy(job.slots[i], o) && HeldBy(job.slots[j], o)
    ensures i == j
  {
    assert SlotOK(job.total, job.chunkSize, job.slots[i]) && SlotOK(job.total, job.chunkSize, job.slots[j]);
  }

  lemma ReleasedIsNotHeld(job: Job, i: nat, o: int)
    requires Sound(job) && Touches(job, i) && Received(Release(job, i), o)
    ensures Received(job, o) && !HeldBy(job.slots[i], o)
  {
    var after := Release(job, i);
    var j :| 0 <= j < |after.slots| && after.slots[j].inUse
             && after.slots[j].rangeStart <= o < after.slots[j].Position();
    assert j != i && HeldBy(job.slots[j], o);
    ReceivedInSlot(job, j, o);
    if HeldBy(job.slots[i], o) {
      HeldByOne(job, i, j, o);
    }
  }

  lemma OthersStillHold(job: Job, i: nat, o: int)
    requires i < |job.slots| && Received(job, o) && !HeldBy(job.slots[i], o)
    ensures Received(Release(job, i), o)
  {
    var j :| 0 <= j < |job.slots| && job.slots[j].inUse && job.slots[j].rangeStart <= o < job.slots[j].Position();
    assert HeldBy(job.slots[j], o);
    ReceivedInSlot(Release(job, i), j, o);
  }

  /** Letting go of a slot loses exactly what it holds and is not done. */
  lemma ReleaseLoses(job: Job, i: nat, o: int)
    requires Sound(job) && Touches(job, i)
    ensures Holds(Release(job, i), o) <==> Holds(job, o) && !(HeldBy(job.slots[i], o) && o !in job.done)
  {
    if Received(Release(job, i), o) {
      ReleasedIsNotHeld(job, i, o);
    }
    if Received(job, o) && !HeldBy(job.slots[i], o) {
      OthersStillHold(job, i, o);
    }
  }

  /** Whatever `job` holds and the event brings, `after` holds. */
  ghost predicate KeepsWith(job: Job, bytes: Disk, after: Job) {
    forall o | Holds(job, o) || o in bytes :: Holds(after, o)
  }

  lemma TakenIsKept(job: Job, i: nat, bytes: Disk, mid: Job, after: Job)
    requires i < |job.slots| && TakesIn(job, i, bytes, mid) && KeepsAll(mid, after)
    ensures KeepsWith(job, bytes, after)
  {
    forall o | o in bytes
      ensures Holds(mid, o)
    {
      ReceivedInSlot(mid, i, o);
    }
  }

  lemma HeadersKeep(job: Job, i: nat, length: Option<nat>, keepAlive: bool, body: seq<byte>, w1: Writer, w2: Writer)
    requires Sound(job) && Touches(job, i) && !job.slots[i].headersReceived
    ensures var begun := Begin(job, i, length, keepAlive);
            var started := WriteBody(begun, i, body, w1);
            KeepsWith(job, KeptBytes(BodyBytes(begun, i, body), w1), PersistIf(started, started.outcome == Running, w2))
  {
    var begun := Begin(job, i, length, keepAlive);
    var started := WriteBody(begun, i, body, w1);
    BeginKeepsSound(job, i, length, keepAlive);
    ReplaceHolds(job, i, begun.slots[i]);
    WriteBodyHolds(begun, i, body, w1);
    PersistIfHolds(started, started.outcome == Running, w2);
    TakenIsKept(begun, i, KeptBytes(BodyBytes(begun, i, body), w1), started,
                PersistIf(started, started.outcome == Running, w2));
  }

  lemma ReadKeeps(job: Job, i: nat, data: seq<byte>, next: Option<nat>, due: bool,
                  w1: Writer, w2: Writer, closed: bool, job': Job)
    requires Sound(job) && Enabled(job, Read(i, data, next, due))
    requires Handles(job, Read(i, data, next, due), w1, w2, closed, job')
    ensures var bytes := KeptBytes(EventBytes(job, Read(i, data, next, due)), w1);
            && KeepsWith(job, bytes, job')
            && (Finishes(job, Read(i, data, next, due), job') ==>
                  forall o | HeldBy(job.slots[i], o) || o in bytes :: o in job'.done)
  {
    var bytes := KeptBytes(EventBytes(job, Read(i, data, next, due)), w1);
    var (read, verdict) := ReadSlot(job, i, data, w1);
    ReadSlotTakes(job, i, data, w1);
    ReadSlotKeepsSound(job, i, data, w1);
    FinishedHasReceived(job, i, data, w1);
    match verdict
    case Failed =>
      SameSlotsHold(read, job');
      TakenIsKept(job, i, bytes, read, job');
    case Keep =>
      PersistIfHolds(read, due && !read.slots[i].draining, w2);
      TakenIsKept(job, i, bytes, read, job');
    case FinishSlot =>
      FinishSettles(read, i, due, next, w2, closed);
      TakenIsKept(job, i, bytes, read, job');
  }

  /** A slot loses its headers only when it finishes, and then it has received something. */
  lemma FinishedHasReceived(job: Job, i: nat, data: seq<byte>, w: Writer)
    requires Sound(job) && Touches(job, i) && (job.slots[i].streaming || job.slots[i].draining)
    ensures var (read, verdict) := ReadSlot(job, i, data, w);
            && read.slots[i].headersReceived
            && (verdict == FinishSlot ==> read.slots[i].received > 0)
  {
    PrepareFits(job, i, |data|);
    assert SlotOK(job.total, job.chunkSize, job.slots[i]);
  }

  lemma CloseKeeps(job: Job, i: nat, rest: seq<byte>, due: bool, w1: Writer, w2: Writer, closed: bool, job': Job)
    requires Sound(job) && Enabled(job, Close(i, rest, due, false))
    requires Handles(job, Close(i, rest, due, false), w1, w2, closed, job')
    ensures var bytes := KeptBytes(EventBytes(job, Close(i, rest, due, false)), w1);
            && KeepsWith(job, bytes, job')
            && forall o | HeldBy(job.slots[i], o) || o in bytes :: o in job'.done
  {
    var bytes := KeptBytes(EventBytes(job, Close(i, rest, due, false)), w1);
    var flushed := Flush(job, i, rest, w1);
    FlushTakes(job, i, rest, w1);
    FlushKeepsSound(job, i, rest, w1);
    assert SlotOK(job.total, job.chunkSize, job.slots[i]);
    CompleteSettles(flushed, i, HadBody(job.slots[i]), due, w2, closed);
    TakenIsKept(job, i, bytes, flushed, job');
  }

  /** A close that does not count the body loses exactly the unmarked part of what its slot has. */
  lemma DroppingLoses(job: Job, e: Event, w1: Writer, w2: Writer, closed: bool, job': Job, o: int)
    requires Sound(job) && Enabled(job, e) && Drops(e) && Handles(job, e, w1, w2, closed, job')
    ensures Holds(job', o)
            <==> (Holds(job, o) || o in KeptBytes(EventBytes(job, e), w1)) && !Dropped(job, e, w1, o)
  {
    var i, flushed := e.slot, Flush(job, e.slot, e.rest, w1);
    var released := Release(flushed, i);
    FlushTakes(job, i, e.rest, w1);
    FlushAccounts(job, i, e.rest, w1);
    FlushKeepsSound(job, i, e.rest, w1);
    FlushKeepsTheRest(job, i, e.rest, w1);
    ReleaseLoses(flushed, i, o);
    ReleaseKeepsSound(flushed, i);
    SameSlotsHold(released, released.(file := w2));
    SameSlotsClaim(released, released.(file := w2));
    FinalizeHolds(released.(file := w2), w2, closed);
    FinalizeClaims(released.(file := w2), w2, closed);
    assert Holds(job', o) <==> Holds(released, o);
    FlushedHolds(job, i, e.rest, w1);
  }

  lemma FlushKeepsTheRest(job: Job, i: nat, rest: seq<byte>, w: Writer)
    requires Sound(job) && Touches(job, i)
    ensures Flush(job, i, rest, w).done == job.done
  {
    PrepareFits(job, i, |rest|);
  }

  /** Behind the flush the slot holds what it held, and the bytes that were flushed. */
  lemma FlushedHolds(job: Job, i: nat, rest: seq<byte>, w: Writer)
    requires Sound(job) && Touches(job, i)
    ensures var bytes := KeptBytes(if job.slots[i].streaming then BodyBytes(job, i, rest) else map[], w);
            forall o :: HeldBy(Flush(job, i, rest, w).slots[i], o) <==> HeldBy(job.slots[i], o) || o in bytes
  {
    FlushTakes(job, i, rest, w);
    if job.slots[i].streaming {
      PrepareFits(job, i, |rest|);
      BodyBytesPlace(job, i, rest);
    }
  }

  /** What the events that drop nothing keep. */
  lemma HandlerKeeps(job: Job, e: Event, w1: Writer, w2: Writer, closed: bool, job': Job)
    requires Sound(job) && Enabled(job, e) && !e.Crash? && !e.Restart? && !Drops(e)
    requires Handles(job, e, w1, w2, closed, job')
    ensures KeepsWith(job, KeptBytes(EventBytes(job, e), w1), job')
  {
    match e
    case Schedule(sel, connected) =>
      FinalizeHolds(job, w2, closed);
      if !AllDone(job) {
        SameSlotsHold(job, job.(file := w2));
        AcquireAllHolds(job.(file := w2), sel, connected);
        KeepsThen(job, job.(file := w2), job');
      }
    case Headers(i, length, keepAlive, body) => HeadersKeep(job, i, length, keepAlive, body, w1, w2);
    case Read(i, data, next, due) => ReadKeeps(job, i, data, next, due, w1, w2, closed, job');
    case Close(i, rest, due, _) => CloseKeeps(job, i, rest, due, w1, w2, closed, job');
    case SaveMetadata => PersistHolds(job, w2);
    case WorkerRuns => SameSlotsHold(job, job');
    case Stop => SameSlotsHold(job, job');
  }

  /** Conservation: behind every handler a byte is done or held by a slot exactly when it was
      so before, or was handed over to a writer that has not failed; only a close that does
      not count its body loses bytes, and exactly the unmarked ones of its slot. */
  lemma HandlerConserves(job: Job, e: Event, w1: Writer, w2: Writer, closed: bool, job': Job)
    requires Sound(job) && Enabled(job, e) && !e.Crash? && !e.Restart? && Handles(job, e, w1, w2, closed, job')
    ensures forall o ::
              Holds(job', o)
              <==> (Holds(job, o) || o in KeptBytes(EventBytes(job, e), w1)) && !Dropped(job, e, w1, o)
  {
    HandlerAccounts(job, e, w1, w2, closed, job');
    forall o
      ensures Holds(job', o)
          <==> (Holds(job, o) || o in KeptBytes(EventBytes(job, e), w1)) && !Dropped(job, e, w1, o)
    {
      if Drops(e) {
        DroppingLoses(job, e, w1, w2, closed, job', o);
      } else {
        HandlerKeeps(job, e, w1, w2, closed, job');
      }
    }
  }

  /** All that a finished slot has received is done. */
  lemma FinishedSlotIsDone(job: Job, e: Event, w1: Writer, w2: Writer, closed: bool, job': Job)
    requires Sound(job) && Enabled(job, e) && (e.Read? || e.Close?)
    requires Handles(job, e, w1, w2, closed, job') && Finishes(job, e, job')
    ensures forall o | HeldBy(job.slots[e.slot], o) || o in KeptBytes(EventBytes(job, e), w1) :: o in job'.done
  {
    match e
    case Read(i, data, next, due) => ReadKeeps(job, i, data, next, due, w1, w2, closed, job');
    case Close(i, rest, due, _) => CloseKeeps(job, i, rest, due, w1, w2, closed, job');
  }
}
