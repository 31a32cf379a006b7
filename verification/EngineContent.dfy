/** What reaches the disk and what the done set may claim. The server is honest when the
    body of a range response is the resource from the start of the range on. */
module EngineContent {
  import opened Machine
  import opened Segments
  import opened Writers
  import opened Engine
  import opened EngineInvariants

  // -------- which offsets a step may claim --------

  /** Some slot in use has kept the byte at `o`. */
  ghost predicate Received(job: Job, o: int) {
    exists i :: 0 <= i < |job.slots| && job.slots[i].inUse && job.slots[i].rangeStart <= o < job.slots[i].Position()
  }

  /** `after` claims and keeps no offset that `before` had not done or received. */
  ghost predicate ClaimsFrom(before: Job, after: Job) {
    && (forall o | o in after.done :: o in before.done || Received(before, o))
    && (forall o | Received(after, o) :: Received(before, o))
  }

  lemma SameSlotsClaim(before: Job, after: Job)
    requires after.slots == before.slots && after.done == before.done
    ensures ClaimsFrom(before, after)
  {
  }

  lemma ClaimsCompose(a: Job, b: Job, c: Job)
    requires ClaimsFrom(a, b) && ClaimsFrom(b, c)
    ensures ClaimsFrom(a, c)
  {
  }

  /** Replacing a slot by one that has kept nothing new. */
  lemma ReplaceClaims(job: Job, i: nat, slot: Slot)
    requires i < |job.slots|
    requires slot.inUse && slot.rangeStart < slot.Position() ==>
               && job.slots[i].inUse && slot.rangeStart == job.slots[i].rangeStart
               && slot.received <= job.slots[i].received
    ensures ClaimsFrom(job, job.(slots := job.slots[i := slot]))
  {
    var after := job.(slots := job.slots[i := slot]);
    forall o | Received(after, o)
      ensures Received(job, o)
    {
      var j :| 0 <= j < |after.slots| && after.slots[j].inUse
               && after.slots[j].rangeStart <= o < after.slots[j].Position();
      assert job.slots[j].inUse && job.slots[j].rangeStart <= o < job.slots[j].Position();
    }
  }

  lemma PersistClaims(job: Job, w: Writer)
    requires Sound(job)
    ensures ClaimsFrom(job, Persist(job, w))
  {
    var after := Persist(job, w);
    MarksAreReceived(job.slots, job.total, job.chunkSize);
    forall o | o in after.done && o !in job.done
      ensures Received(job, o)
    {
      var i :| 0 <= i < |job.slots| && Kept(job.slots, i, o);
      assert job.slots[i].inUse && job.slots[i].rangeStart <= o < job.slots[i].Position();
    }
    forall o | Received(after, o)
      ensures Received(job, o)
    {
      var i :| 0 <= i < |after.slots| && after.slots[i].inUse
               && after.slots[i].rangeStart <= o < after.slots[i].Position();
      assert job.slots[i].inUse && job.slots[i].rangeStart <= o < job.slots[i].Position();
    }
  }

  lemma FinalizeClaims(job: Job, w: Writer, closed: bool)
    requires Sound(job)
    ensures ClaimsFrom(job, Finalize(job, w, closed))
  {
    PersistClaims(job, w);
    if job.outcome == Running {
      SameSlotsClaim(Persist(job, w), Finalize(job, w, closed));
      ClaimsCompose(job, Persist(job, w), Finalize(job, w, closed));
    } else {
      SameSlotsClaim(job, Finalize(job, w, closed));
    }
  }

  lemma MarkSegmentClaims(job: Job, i: nat, w: Writer)
    requires Touches(job, i) && job.slots[i].received > 0
    ensures ClaimsFrom(job, MarkSegment(job, i, w)) && Touches(MarkSegment(job, i, w), i)
    ensures MarkSegment(job, i, w).slots[i] == job.slots[i].(persisted := MarkSegment(job, i, w).slots[i].persisted)
  {
    var after := MarkSegment(job, i, w);
    ReplaceClaims(job, i, job.slots[i].(persisted := job.slots[i].received));
    forall o | o in after.done && o !in job.done
      ensures Received(job, o)
    {
      assert job.slots[i].inUse && job.slots[i].rangeStart <= o < job.slots[i].Position();
    }
    assert forall o | Received(after, o) :: Received(job, o);
  }

  lemma PersistIfClaims(job: Job, due: bool, w: Writer)
    requires Sound(job)
    ensures ClaimsFrom(job, PersistIf(job, due, w))
  {
    PersistClaims(job, w);
    SameSlotsClaim(job, job.(file := w));
  }

  lemma MarkedAndRestedClaims(job: Job, i: nat, due: bool, w: Writer)
    requires Sound(job) && Touches(job, i) && job.slots[i].received > 0
    ensures ClaimsFrom(job, MarkedAndRested(job, i, due, w))
  {
    var marked := MarkSegment(job, i, w);
    var rested := marked.(slots := marked.slots[i := Rested(marked.slots[i])]);
    MarkSegmentClaims(job, i, w);
    MarkSegmentKeepsSound(job, i, w);
    ReplaceClaims(marked, i, Rested(marked.slots[i]));
    ReplaceKeepingRange(marked, i, Rested(marked.slots[i]));
    ClaimsCompose(job, marked, rested);
    PersistIfClaims(rested, due, w);
    ClaimsCompose(job, rested, MarkedAndRested(job, i, due, w));
  }

  lemma ReleaseClaims(job: Job, i: nat)
    requires i < |job.slots|
    ensures ClaimsFrom(job, Release(job, i))
  {
    ReplaceClaims(job, i, FREE_SLOT);
  }

  lemma MarkedAndReleasedClaims(job: Job, i: nat, due: bool, w: Writer)
    requires Sound(job) && Touches(job, i) && job.slots[i].received > 0
    ensures ClaimsFrom(job, MarkedAndReleased(job, i, due, w)) && Sound(MarkedAndReleased(job, i, due, w))
  {
    var marked := MarkSegment(job, i, w);
    MarkSegmentClaims(job, i, w);
    MarkSegmentKeepsSound(job, i, w);
    ReleaseClaims(marked, i);
    ReleaseKeepsSound(marked, i);
    ClaimsCompose(job, marked, Release(marked, i));
    PersistIfClaims(Release(marked, i), due && !AlreadyMarked(job, i), w);
    PersistIfKeepsSound(Release(marked, i), due && !AlreadyMarked(job, i), w);
    ClaimsCompose(job, Release(marked, i), MarkedAndReleased(job, i, due, w));
  }

  lemma FinishRestedClaims(rested: Job, i: nat, next: Option<nat>, w: Writer, closed: bool)
    requires Sound(rested) && Touches(rested, i)
    ensures ClaimsFrom(rested, FinishRested(rested, i, next, w, closed))
  {
    ReleaseClaims(rested, i);
    if AllDone(rested) {
      ReleaseKeepsSound(rested, i);
      FinalizeClaims(Release(rested, i), w, closed);
      ClaimsCompose(rested, Release(rested, i), Finalize(Release(rested, i), w, closed));
    } else if rested.slots[i].keepAlive && next.Some? {
      var start, end := SegmentStart(rested.chunkSize, next.value), SegmentEndNat(rested, next.value);
      ReplaceClaims(rested, i, ResetSlot(rested.slots[i], start, end));
    }
  }

  lemma FinishClaims(job: Job, i: nat, due: bool, next: Option<nat>, w: Writer, closed: bool)
    requires Sound(job) && Touches(job, i)
    ensures ClaimsFrom(job, Finish(job, i, due, next, w, closed))
  {
    if job.slots[i].received == 0 {
      ReleaseClaims(job, i);
      SameSlotsClaim(Release(job, i), Release(job, i).(file := w));
      ClaimsCompose(job, Release(job, i), Release(job, i).(file := w));
    } else {
      var rested := MarkedAndRested(job, i, due, w);
      MarkedAndRestedClaims(job, i, due, w);
      MarkedAndRestedKeepsSound(job, i, due, w);
      FinishRestedClaims(rested, i, next, w, closed);
      ClaimsCompose(job, rested, FinishRested(rested, i, next, w, closed));
    }
  }

  lemma CompleteClaims(job: Job, i: nat, hadBody: bool, due: bool, w: Writer, closed: bool)
    requires Sound(job) && Touches(job, i)
    ensures ClaimsFrom(job, CompleteSlot(job, i, hadBody, due, w, closed))
  {
    var released := if hadBody && job.slots[i].received > 0 then MarkedAndReleased(job, i, due, w)
                    else Release(job, i).(file := w);
    if hadBody && job.slots[i].received > 0 {
      MarkedAndReleasedClaims(job, i, due, w);
    } else {
      ReleaseClaims(job, i);
      ReleaseKeepsSound(job, i);
      SameSlotsClaim(Release(job, i), released);
      ClaimsCompose(job, Release(job, i), released);
    }
    FinalizeClaims(released, w, closed);
    ClaimsCompose(job, released, Finalize(released, w, closed));
  }

  lemma {:induction false} AcquireAllClaims(job: Job, sel: seq<nat>, connected: seq<bool>)
    requires |connected| == |sel|
    ensures ClaimsFrom(job, AcquireAll(job, sel, connected))
    decreases |sel|
  {
    if sel != [] && FirstFree(job.slots) < |job.slots| {
      var k := FirstFree(job.slots);
      var slot := AcquiredSlot(SegmentStart(job.chunkSize, sel[0]), SegmentEndNat(job, sel[0]));
      var next := if connected[0] then job.(slots := job.slots[k := slot]) else job.(outcome := Stopped);
      ReplaceClaims(job, k, slot);
      SameSlotsClaim(job, job.(outcome := Stopped));
      AcquireAllClaims(next, sel[1..], connected[1..]);
      ClaimsCompose(job, next, AcquireAll(job, sel, connected));
    }
  }

  lemma AfterBodyClaims(job: Job, i: nat)
    requires Touches(job, i)
    ensures ClaimsFrom(job, AfterBody(job, i).0)
  {
    ReplaceClaims(job, i, AfterBody(job, i).0.slots[i]);
    assert job.slots[i := job.slots[i]] == job.slots;
  }

  /** What a slot keeps of a body when the writer is in state `w` behind it. */
  ghost function KeptBytes(bytes: Disk, w: Writer): Disk {
    if w.failed then map[] else bytes
  }

  /** A body write that succeeds is the only way to come by an offset. */
  lemma WriteBodyReceives(job: Job, i: nat, data: seq<byte>, w: Writer, o: int)
    requires Sound(job) && Touches(job, i) && job.slots[i].streaming
    requires Received(WriteBody(job, i, data, w), o)
    ensures Received(job, o) || o in KeptBytes(BodyBytes(job, i, data), w)
  {
    PrepareFits(job, i, |data|);
    BodyBytesPlace(job, i, data);
    var after := WriteBody(job, i, data, w);
    var j :| 0 <= j < |after.slots| && after.slots[j].inUse
             && after.slots[j].rangeStart <= o < after.slots[j].Position();
    if j != i || o < job.slots[i].Position() {
      assert job.slots[j].inUse && job.slots[j].rangeStart <= o < job.slots[j].Position();
    }
  }

  /** The offsets a handler may mark done or keep: those done or received before, and the
      bytes it has just handed to the writer. */
  ghost predicate Accounts(job: Job, bytes: Disk, after: Job) {
    forall o | o in after.done || Received(after, o) :: o in job.done || Received(job, o) || o in bytes
  }

  lemma AccountsThen(job: Job, bytes: Disk, mid: Job, after: Job)
    requires Accounts(job, bytes, mid) && ClaimsFrom(mid, after)
    ensures Accounts(job, bytes, after)
  {
  }

  lemma WriteBodyAccounts(job: Job, i: nat, data: seq<byte>, w: Writer)
    requires Sound(job) && Touches(job, i) && job.slots[i].streaming
    ensures Accounts(job, KeptBytes(BodyBytes(job, i, data), w), WriteBody(job, i, data, w))
  {
    PrepareFits(job, i, |data|);
    forall o | Received(WriteBody(job, i, data, w), o)
      ensures Received(job, o) || o in KeptBytes(BodyBytes(job, i, data), w)
    {
      WriteBodyReceives(job, i, data, w, o);
    }
  }

  lemma BeginClaims(job: Job, i: nat, length: Option<nat>, keepAlive: bool)
    requires Touches(job, i)
    ensures ClaimsFrom(job, Begin(job, i, length, keepAlive))
  {
    ReplaceClaims(job, i, Begin(job, i, length, keepAlive).slots[i]);
  }

  lemma FlushAccounts(job: Job, i: nat, rest: seq<byte>, w: Writer)
    requires Sound(job) && Touches(job, i)
    ensures Accounts(job, KeptBytes(if job.slots[i].streaming then BodyBytes(job, i, rest) else map[], w),
                     Flush(job, i, rest, w))
  {
    if job.slots[i].streaming {
      WriteBodyAccounts(job, i, rest, w);
    } else {
      SameSlotsClaim(job, job.(file := w));
    }
  }

  lemma ReadSlotAccounts(job: Job, i: nat, data: seq<byte>, w: Writer)
    requires Sound(job) && Touches(job, i)
    ensures Accounts(job, KeptBytes(if job.slots[i].streaming then BodyBytes(job, i, data) else map[], w),
                     ReadSlot(job, i, data, w).0)
  {
    if job.slots[i].streaming {
      WriteBodyAccounts(job, i, data, w);
      WriteBodyKeepsSound(job, i, data, w);
      AfterBodyClaims(WriteBody(job, i, data, w), i);
      AccountsThen(job, KeptBytes(BodyBytes(job, i, data), w), WriteBody(job, i, data, w), ReadSlot(job, i, data, w).0);
    } else {
      var discarded := AfterDiscard(job.(file := w), i, |data|).0;
      ReplaceClaims(job.(file := w), i, discarded.slots[i]);
      SameSlotsClaim(job, job.(file := w));
      ClaimsCompose(job, job.(file := w), discarded);
    }
  }

  lemma FileOnly(job: Job, bytes: Disk, after: Job, w: Writer)
    requires Accounts(job, bytes, after)
    ensures Accounts(job, bytes, after.(file := w))
  {
    SameSlotsClaim(after, after.(file := w));
  }

  lemma HandlerAccounts(job: Job, e: Event, w1: Writer, w2: Writer, closed: bool, job': Job)
    requires Sound(job) && Enabled(job, e) && !e.Crash? && !e.Restart? && Handles(job, e, w1, w2, closed, job')
    ensures Accounts(job, KeptBytes(EventBytes(job, e), w1), job')
  {
    var bytes := KeptBytes(EventBytes(job, e), w1);
    match e
    case Schedule(sel, connected) =>
      FinalizeClaims(job, w2, closed);
      if !AllDone(job) {
        SameSlotsClaim(job, job.(file := w2));
        AcquireAllClaims(job.(file := w2), sel, connected);
        ClaimsCompose(job, job.(file := w2), job');
      }
    case Headers(i, length, keepAlive, body) =>
      var begun := Begin(job, i, length, keepAlive);
      BeginKeepsSound(job, i, length, keepAlive);
      BeginClaims(job, i, length, keepAlive);
      var started := WriteBody(begun, i, body, w1);
      WriteBodyAccounts(begun, i, body, w1);
      WriteBodyKeepsSound(begun, i, body, w1);
      PersistIfClaims(started, started.outcome == Running, w2);
      AccountsThen(begun, bytes, started, job');
    case Read(i, data, next, due) =>
      ReadAccounts(job, i, data, next, due, w1, w2, closed, job');
    case Close(i, rest, due, late) =>
      var flushed := Flush(job, i, rest, w1);
      FlushAccounts(job, i, rest, w1);
      FlushKeepsSound(job, i, rest, w1);
      CompleteClaims(flushed, i, HadBody(job.slots[i]) && !late, due, w2, closed);
      AccountsThen(job, bytes, flushed, job');
    case Abandon(i, rest) =>
      var flushed := Flush(job, i, rest, w1);
      FlushAccounts(job, i, rest, w1);
      ReleaseClaims(flushed, i);
      AccountsThen(job, bytes, flushed, Release(flushed, i));
      FileOnly(job, bytes, Release(flushed, i), w2);
    case SaveMetadata =>
      PersistClaims(job, w2);
    case WorkerRuns =>
      SameSlotsClaim(job, job');
    case Stop =>
      SameSlotsClaim(job, job');
  }

  lemma ReadAccounts(job: Job, i: nat, data: seq<byte>, next: Option<nat>, due: bool,
                     w1: Writer, w2: Writer, closed: bool, job': Job)
    requires Sound(job) && Enabled(job, Read(i, data, next, due))
    requires Handles(job, Read(i, data, next, due), w1, w2, closed, job')
    ensures Accounts(job, KeptBytes(EventBytes(job, Read(i, data, next, due)), w1), job')
  {
    var bytes := KeptBytes(EventBytes(job, Read(i, data, next, due)), w1);
    var (read, verdict) := ReadSlot(job, i, data, w1);
    ReadSlotAccounts(job, i, data, w1);
    ReadSlotKeepsSound(job, i, data, w1);
    if verdict == FinishSlot {
      FinishClaims(read, i, due, next, w2, closed);
      AccountsThen(job, bytes, read, job');
    } else {
      FileOnly(job, bytes, read, w2);
      PersistClaims(read, w2);
      AccountsThen(job, bytes, read, Persist(read, w2));
    }
  }
}
