/** Slots in step with their responses: which events keep a slot writing each byte of its
    response at the offset the server meant it for, and which one does not. */
module EngineAlignment {
  import opened Machine
  import opened Segments
  import opened Writers
  import opened Engine
  import opened EngineInvariants

  // -------- honest servers --------

  function Right(resource: int -> byte): (int, byte) -> bool {
    (o, b) => b == resource(o)
  }

  ghost predicate HonestBody(data: seq<byte>, from: int, resource: int -> byte) {
    forall k | 0 <= k < |data| :: data[k] == resource(from + k)
  }

  /** The body bytes an event delivers are those of the resource at the place where the
      present response has got to. */
  ghost predicate Honest(job: Job, e: Event, resource: int -> byte) {
    match e
    case Headers(i, _, _, body) => Touches(job, i) ==> HonestBody(body, job.slots[i].rangeStart, resource)
    case Read(i, data, _, _) => HonestNext(job, i, data, resource)
    case Close(i, rest, _, _) => HonestNext(job, i, rest, resource)
    case Abandon(i, rest) => HonestNext(job, i, rest, resource)
    case Crash(during, _) => Honest(job, during, resource)
    case _ => true
  }

  ghost predicate HonestNext(job: Job, i: nat, data: seq<byte>, resource: int -> byte) {
    Touches(job, i) && job.slots[i].streaming ==>
      HonestBody(data, job.slots[i].rangeStart + job.slots[i].delivered, resource)
  }

  // -------- alignment --------

  /** A streaming slot is in step with its response while it has kept every byte delivered
      so far; a full slot may have dropped bytes as long as it stays full. */
  ghost predicate InStep(slot: Slot) {
    slot.streaming ==> slot.delivered == slot.received || slot.Full()
  }

  ghost predicate Aligned(job: Job) {
    forall i | 0 <= i < |job.slots| && job.slots[i].inUse :: InStep(job.slots[i])
  }

  /** The one event that puts a slot out of step: data arrives at a slot that is full
      already, is dropped, and then the reservation grows after all. */
  ghost predicate Skips(job: Job, e: Event) {
    e.Read? && e.slot < |job.slots| && Overtaken(job, e.slot)
  }

  ghost predicate Overtaken(job: Job, i: nat)
    requires i < |job.slots|
  {
    && job.slots[i].inUse && job.slots[i].streaming && job.slots[i].Full()
    && CanExtend(job, i) && job.slots[i].responseRemaining > 0
  }

  /** `after` streams in a slot only where `before` did, at the same place. */
  ghost predicate Carries(before: Job, after: Job) {
    && |after.slots| == |before.slots|
    && forall j | 0 <= j < |after.slots| && after.slots[j].inUse && after.slots[j].streaming ::
         && before.slots[j].inUse && before.slots[j].streaming
         && after.slots[j].delivered == before.slots[j].delivered
         && after.slots[j].received == before.slots[j].received
         && after.slots[j].rangeStart == before.slots[j].rangeStart
         && after.slots[j].reservedEnd == before.slots[j].reservedEnd
  }

  lemma CarryingKeepsAligned(before: Job, after: Job)
    requires Aligned(before) && Carries(before, after)
    ensures Aligned(after)
  {
  }

  lemma PersistCarries(job: Job, w: Writer)
    ensures Carries(job, Persist(job, w))
  {
  }

  lemma PersistAligns(job: Job, w: Writer)
    ensures Aligned(Persist(job, w)) <==> Aligned(job)
  {
    var kept := Persist(job, w);
    assert |kept.slots| == |job.slots|;
    assert forall j | 0 <= j < |job.slots| ::
             InStep(kept.slots[j]) == InStep(job.slots[j]) && kept.slots[j].inUse == job.slots[j].inUse;
  }

  lemma FinalizeCarries(job: Job, w: Writer, closed: bool)
    ensures Carries(job, Finalize(job, w, closed))
  {
    PersistCarries(job, w);
  }

  lemma PersistIfCarries(job: Job, due: bool, w: Writer)
    ensures Carries(job, PersistIf(job, due, w))
  {
    PersistCarries(job, w);
  }

  lemma CarryingComposes(a: Job, b: Job, c: Job)
    requires Carries(a, b) && Carries(b, c)
    ensures Carries(a, c)
  {
  }

  lemma CompleteCarries(job: Job, i: nat, hadBody: bool, due: bool, w: Writer, closed: bool)
    requires i < |job.slots|
    ensures Carries(job, CompleteSlot(job, i, hadBody, due, w, closed))
  {
    var released := if hadBody && job.slots[i].received > 0 then Release(MarkSegment(job, i, w), i)
                    else Release(job, i).(file := w);
    var now := hadBody && job.slots[i].received > 0 && due && !AlreadyMarked(job, i);
    var kept := PersistIf(released, now, w);
    assert Carries(job, released);
    PersistIfCarries(released, now, w);
    CarryingComposes(job, released, kept);
    FinalizeCarries(kept, w, closed);
    CarryingComposes(job, kept, Finalize(kept, w, closed));
  }

  lemma {:induction false} AcquireAllCarries(job: Job, sel: seq<nat>, connected: seq<bool>)
    requires |connected| == |sel|
    ensures Carries(job, AcquireAll(job, sel, connected))
    decreases |sel|
  {
    if sel != [] && FirstFree(job.slots) < |job.slots| {
      var k := FirstFree(job.slots);
      var slot := AcquiredSlot(SegmentStart(job.chunkSize, sel[0]), SegmentEndNat(job, sel[0]));
      var next := if connected[0] then job.(slots := job.slots[k := slot]) else job.(outcome := Stopped);
      assert Carries(job, next);
      AcquireAllCarries(next, sel[1..], connected[1..]);
    }
  }

  /** Whether a slot can extend depends on the done set and the reservations only. */
  lemma SameReservationsExtendAlike(a: Job, b: Job, i: nat)
    requires i < |a.slots| == |b.slots|
    requires a.done == b.done && a.total == b.total && a.chunkSize == b.chunkSize
    requires forall j | 0 <= j < |a.slots| ::
               && a.slots[j].inUse == b.slots[j].inUse && a.slots[j].rangeStart == b.slots[j].rangeStart
               && a.slots[j].reservedEnd == b.slots[j].reservedEnd
    ensures NextReserveEnd(a, i) == NextReserveEnd(b, i)
    ensures CanExtend(a, i) <==> CanExtend(b, i)
  {
    forall start, end
      ensures Unreserved(a.slots, i, start, end) <==> Unreserved(b.slots, i, start, end)
    {
    }
  }

  /** A body write keeps a slot in step: bytes are cut off only when the slot ends up full
      with no free segment behind it, or was full before. */
  lemma WriteBodyKeepsAligned(job: Job, i: nat, data: seq<byte>, w: Writer)
    requires Sound(job) && Aligned(job) && Touches(job, i) && job.slots[i].streaming
    ensures var after := WriteBody(job, i, data, w);
            && Aligned(after)
            && (job.slots[i].Full() && data != [] ==>
                  && after.slots[i] == job.slots[i].(delivered := job.slots[i].delivered + |data|)
                  && after.outcome == job.outcome && (CanExtend(after, i) <==> CanExtend(job, i)))
            && (!job.slots[i].Full() && after.slots[i].delivered != after.slots[i].received ==> !CanExtend(after, i))
  {
    PrepareFits(job, i, |data|);
    var (wider, n) := Prepare(job, i, |data|);
    var after := WriteBody(job, i, data, w);
    SameReservationsExtendAlike(wider, after, i);
  }

  // -------- one read --------

  /** The READ branch leaves a slot out of step exactly when it skipped. */
  lemma ReadAlignsUnlessItSkips(job: Job, i: nat, data: seq<byte>, w: Writer)
    requires Sound(job) && Aligned(job) && Touches(job, i) && job.outcome == Running && data != []
    requires job.slots[i].streaming || job.slots[i].draining
    ensures var (read, verdict) := ReadSlot(job, i, data, w);
            && (forall j | 0 <= j < |read.slots| && read.slots[j].inUse && j != i :: InStep(read.slots[j]))
            && (verdict != FinishSlot ==>
                  (InStep(read.slots[i]) <==>
                     !Overtaken(job, i)))
            && (verdict == FinishSlot ==> !Overtaken(job, i))
  {
    if job.slots[i].streaming {
      WriteBodyKeepsAligned(job, i, data, w);
      WriteBodyKeepsSound(job, i, data, w);
      var after := WriteBody(job, i, data, w);
      if CanExtend(after, i) {
        NextEndIsNextSegment(after, i);
      }
      assert SlotOK(job.total, job.chunkSize, job.slots[i]);
    }
  }

  ghost predicate OthersInStep(job: Job, i: nat) {
    forall j | 0 <= j < |job.slots| && job.slots[j].inUse && j != i :: InStep(job.slots[j])
  }

  lemma CarryingKeepsOthers(before: Job, after: Job, i: nat)
    requires OthersInStep(before, i) && Carries(before, after)
    ensures OthersInStep(after, i)
  {
  }

  lemma MarkedAndRestedKeepsOthers(job: Job, i: nat, due: bool, w: Writer)
    requires i < |job.slots| && OthersInStep(job, i)
    ensures OthersInStep(MarkedAndRested(job, i, due, w), i)
  {
    var marked := MarkSegment(job, i, w);
    var rested := marked.(slots := marked.slots[i := Rested(marked.slots[i])]);
    assert OthersInStep(rested, i);
    PersistIfCarries(rested, due, w);
    CarryingKeepsOthers(rested, MarkedAndRested(job, i, due, w), i);
  }

  /** A finished slot does not stream any more, so only the others matter. */
  lemma FinishRestedAligns(rested: Job, i: nat, next: Option<nat>, w: Writer, closed: bool)
    requires i < |rested.slots| && OthersInStep(rested, i)
    ensures Aligned(FinishRested(rested, i, next, w, closed))
  {
    var released := Release(rested, i);
    assert Aligned(released);
    FinalizeCarries(released, w, closed);
    if AllDone(rested) {
      CarryingKeepsAligned(released, Finalize(released, w, closed));
    }
  }

  lemma FinishAligns(job: Job, i: nat, due: bool, next: Option<nat>, w: Writer, closed: bool)
    requires i < |job.slots| && OthersInStep(job, i)
    ensures Aligned(Finish(job, i, due, next, w, closed))
  {
    MarkedAndRestedKeepsOthers(job, i, due, w);
    FinishRestedAligns(MarkedAndRested(job, i, due, w), i, next, w, closed);
  }

  lemma CompleteAligns(job: Job, i: nat, hadBody: bool, due: bool, w: Writer, closed: bool)
    requires Aligned(job) && i < |job.slots|
    ensures Aligned(CompleteSlot(job, i, hadBody, due, w, closed))
  {
    CompleteCarries(job, i, hadBody, due, w, closed);
    CarryingKeepsAligned(job, CompleteSlot(job, i, hadBody, due, w, closed));
  }

  lemma FlushAligns(job: Job, i: nat, rest: seq<byte>, w: Writer)
    requires Sound(job) && Aligned(job) && Touches(job, i)
    ensures Aligned(Flush(job, i, rest, w))
  {
    if job.slots[i].streaming {
      WriteBodyKeepsAligned(job, i, rest, w);
    }
  }

  lemma FileKeepsAligned(job: Job, w: Writer)
    requires Aligned(job)
    ensures Aligned(job.(file := w))
  {
  }

  lemma HeadersAlign(job: Job, i: nat, length: Option<nat>, keepAlive: bool, body: seq<byte>, w1: Writer, w2: Writer)
    requires Sound(job) && Aligned(job) && Touches(job, i) && !job.slots[i].headersReceived
    ensures var started := WriteBody(Begin(job, i, length, keepAlive), i, body, w1);
            Aligned(PersistIf(started, started.outcome == Running, w2))
  {
    var begun := Begin(job, i, length, keepAlive);
    BeginKeepsSound(job, i, length, keepAlive);
    assert InStep(begun.slots[i]);
    WriteBodyKeepsAligned(begun, i, body, w1);
    PersistAligns(WriteBody(begun, i, body, w1), w2);
    FileKeepsAligned(WriteBody(begun, i, body, w1), w2);
  }

  /** The READ handler keeps every slot in step if and only if it does not skip. */
  lemma ReadAligns(job: Job, i: nat, data: seq<byte>, next: Option<nat>, due: bool,
                   w1: Writer, w2: Writer, closed: bool, job': Job)
    requires Sound(job) && Aligned(job) && job.outcome == Running && Enabled(job, Read(i, data, next, due))
    requires Handles(job, Read(i, data, next, due), w1, w2, closed, job')
    ensures Aligned(job') <==> !Skips(job, Read(i, data, next, due))
  {
    var (read, verdict) := ReadSlot(job, i, data, w1);
    ReadAlignsUnlessItSkips(job, i, data, w1);
    match verdict
    case FinishSlot =>
      FinishAligns(read, i, due, next, w2, closed);
    case Failed =>
      ReadSlotKeepsSound(job, i, data, w1);
    case Keep =>
      ReadSlotKeepsSound(job, i, data, w1);
      PersistAligns(read, w2);
  }

  /** Over every event: the slots stay in step with their responses if and only if the
      event does not skip. */
  lemma HandlerAlignsUnlessItSkips(job: Job, e: Event, w1: Writer, w2: Writer, closed: bool, job': Job)
    requires Sound(job) && Aligned(job) && job.outcome == Running
    requires Enabled(job, e) && !e.Crash? && !e.Restart? && Handles(job, e, w1, w2, closed, job')
    ensures Aligned(job') <==> !Skips(job, e)
  {
    match e
    case Schedule(sel, connected) =>
      if AllDone(job) {
        FinalizeCarries(job, w2, closed);
        CarryingKeepsAligned(job, job');
      } else {
        FileKeepsAligned(job, w2);
        AcquireAllCarries(job.(file := w2), sel, connected);
        CarryingKeepsAligned(job.(file := w2), job');
      }
    case Headers(i, length, keepAlive, body) =>
      HeadersAlign(job, i, length, keepAlive, body, w1, w2);
    case Read(i, data, next, due) =>
      ReadAligns(job, i, data, next, due, w1, w2, closed, job');
    case Close(i, rest, due, late) =>
      FlushAligns(job, i, rest, w1);
      CompleteAligns(Flush(job, i, rest, w1), i, HadBody(job.slots[i]) && !late, due, w2, closed);
    case Abandon(i, rest) =>
      FlushAligns(job, i, rest, w1);
    case SaveMetadata =>
      PersistAligns(job, w2);
    case WorkerRuns =>
    case Stop =>
  }

  // -------- what the handlers hand to the writer --------

  /** A slot in step writes resource bytes at their own offsets. */
  lemma BodyIsRight(job: Job, i: nat, data: seq<byte>, resource: int -> byte)
    requires Sound(job) && Touches(job, i) && job.slots[i].streaming && InStep(job.slots[i])
    requires HonestBody(data, job.slots[i].rangeStart + job.slots[i].delivered, resource)
    ensures Agrees(BodyBytes(job, i, data), Right(resource))
  {
    var (wider, n) := Prepare(job, i, |data|);
    PrepareFits(job, i, |data|);
    BytesAt(job.slots[i].writeOffset + job.slots[i].received, data[..n]);
  }

  lemma EventBytesAreRight(job: Job, e: Event, resource: int -> byte)
    requires Sound(job) && Aligned(job) && Enabled(job, e) && Honest(job, e, resource)
    ensures Agrees(EventBytes(job, e), Right(resource))
  {
    match e
    case Headers(i, length, keepAlive, body) =>
      BeginKeepsSound(job, i, length, keepAlive);
      BodyIsRight(Begin(job, i, length, keepAlive), i, body, resource);
    case Read(i, data, _, _) => if job.slots[i].streaming { BodyIsRight(job, i, data, resource); }
    case Close(i, rest, _, _) => if job.slots[i].streaming { BodyIsRight(job, i, rest, resource); }
    case Abandon(i, rest) => if job.slots[i].streaming { BodyIsRight(job, i, rest, resource); }
    case Crash(during, _) => EventBytesAreRight(job, during, resource);
    case _ =>
  }

  /** Write confinement: whatever the server sends, every byte written lies inside the
      reservation the slot ends up with, which no other slot in use shares. */
  lemma WritesAreConfined(job: Job, i: nat, data: seq<byte>, w: Writer, j: nat, o: int)
    requires Sound(job) && Touches(job, i) && job.slots[i].streaming
    requires o in BodyBytes(job, i, data)
    ensures var after := WriteBody(job, i, data, w);
            && after.slots[i].rangeStart <= o <= after.slots[i].reservedEnd < job.total
            && (j != i && Touches(after, j) ==> !(after.slots[j].rangeStart <= o <= after.slots[j].reservedEnd))
  {
    var after := WriteBody(job, i, data, w);
    WriteBodyKeepsSound(job, i, data, w);
    PrepareFits(job, i, |data|);
    BodyBytesPlace(job, i, data);
    if j != i && Touches(after, j) {
      OthersAreApart(after, i);
    }
  }
}
