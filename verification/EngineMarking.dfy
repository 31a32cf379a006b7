/** Which offsets a handler marks done: exactly those that the slot it finishes has received,
    and those of all streaming slots when it persists. */
module EngineMarking {
  import opened Machine
  import opened ByteRanges
  import opened Segments
  import opened Writers
  import opened Engine
  import opened EngineInvariants
  import opened EngineContent
  import opened EngineScheduling
  import opened EngineProgress

  // -------- what exactly is marked --------

  /** What a slot has persisted is done. */
  ghost predicate NotedSlot(done: set<int>, slot: Slot) {
    slot.inUse ==> forall o | slot.rangeStart <= o < slot.rangeStart + slot.persisted :: o in done
  }

  ghost predicate Noted(job: Job) {
    forall j | 0 <= j < |job.slots| :: NotedSlot(job.done, job.slots[j])
  }

  /** Some streaming slot has the byte at `o`. */
  ghost predicate Streamed(job: Job, o: int) {
    exists j :: 0 <= j < |job.slots| && job.slots[j].streaming && HeldBy(job.slots[j], o)
  }

  ghost predicate StreamsAlike(a: Job, b: Job) {
    forall o :: Streamed(a, o) <==> Streamed(b, o)
  }

  /** From `before` to `after` the bytes of `slot` are marked, and when `all` those of every
      streaming slot. */
  ghost predicate Marks(before: Job, slot: Slot, all: bool, after: Job) {
    forall o :: o in after.done <==> o in before.done || HeldBy(slot, o) || (all && Streamed(after, o))
  }

  lemma ReplaceStreams(job: Job, i: nat, slot: Slot)
    requires i < |job.slots|
    requires forall o :: slot.streaming && HeldBy(slot, o) <==> job.slots[i].streaming && HeldBy(job.slots[i], o)
    ensures StreamsAlike(job, job.(slots := job.slots[i := slot]))
  {
    var after := job.(slots := job.slots[i := slot]);
    forall o
      ensures Streamed(job, o) <==> Streamed(after, o)
    {
      if j :| 0 <= j < |job.slots| && job.slots[j].streaming && HeldBy(job.slots[j], o) {
        assert after.slots[j].streaming && HeldBy(after.slots[j], o);
      }
      if j :| 0 <= j < |job.slots| && after.slots[j].streaming && HeldBy(after.slots[j], o) {
        assert job.slots[j].streaming && HeldBy(job.slots[j], o);
      }
    }
  }

  /** A persist marks exactly what the streaming slots have received. */
  lemma PersistMarks(job: Job, w: Writer)
    requires Sound(job) && Noted(job)
    ensures var after := Persist(job, w);
            && Noted(after) && StreamsAlike(job, after) && Marks(job, FREE_SLOT, true, after)
  {
    var after := Persist(job, w);
    assert forall j | 0 <= j < |job.slots| :: after.slots[j] == job.slots[j].(persisted := after.slots[j].persisted);
    forall o
      ensures Streamed(job, o) <==> Streamed(after, o)
      ensures o in after.done <==> o in job.done || Streamed(job, o)
    {
      assert forall j | 0 <= j < |job.slots| :: HeldBy(after.slots[j], o) <==> HeldBy(job.slots[j], o);
      PersistMarksOne(job, w, o);
    }
    forall j | 0 <= j < |job.slots|
      ensures NotedSlot(after.done, after.slots[j])
    {
      PersistNotes(job, w, j);
    }
  }

  lemma PersistMarksOne(job: Job, w: Writer, o: int)
    requires Sound(job) && Noted(job)
    ensures o in Persist(job, w).done <==> o in job.done || Streamed(job, o)
  {
    MarksAreReceived(job.slots, job.total, job.chunkSize);
    if o in Persist(job, w).done && o !in job.done {
      var j :| 0 <= j < |job.slots| && Kept(job.slots, j, o);
      assert HeldBy(job.slots[j], o);
    }
    if j :| 0 <= j < |job.slots| && job.slots[j].streaming && HeldBy(job.slots[j], o) {
      assert NotedSlot(job.done, job.slots[j]);
      if o !in job.done {
        assert Kept(job.slots, j, o);
        assert job.slots[j].Unpersisted();
      }
    }
  }

  lemma PersistNotes(job: Job, w: Writer, j: nat)
    requires Sound(job) && Noted(job) && j < |job.slots|
    ensures NotedSlot(Persist(job, w).done, Persist(job, w).slots[j])
  {
    assert NotedSlot(job.done, job.slots[j]);
    if job.slots[j].Unpersisted() {
      forall o | job.slots[j].rangeStart <= o < job.slots[j].Position()
        ensures o in Persist(job, w).done
      {
        assert HeldBy(job.slots[j], o);
        PersistMarksOne(job, w, o);
      }
    }
  }

  lemma PersistIfMarks(job: Job, due: bool, w: Writer)
    requires Sound(job) && Noted(job)
    ensures var after := PersistIf(job, due, w);
            && Noted(after) && StreamsAlike(job, after) && Marks(job, FREE_SLOT, due, after)
  {
    PersistMarks(job, w);
    SameStreams(job, job.(file := w));
  }

  lemma SameStreams(before: Job, after: Job)
    requires after.slots == before.slots
    ensures StreamsAlike(before, after)
  {
  }

  lemma FinalizeMarks(job: Job, w: Writer, closed: bool)
    requires Sound(job) && Noted(job)
    ensures var after := Finalize(job, w, closed);
            Noted(after) && StreamsAlike(job, after) && Marks(job, FREE_SLOT, job.outcome == Running, after)
  {
    PersistMarks(job, w);
    SameStreams(job, job.(file := w));
    if job.outcome == Running {
      SameStreams(Persist(job, w), Finalize(job, w, closed));
    }
  }

  /** A persist behind the marking of a slot. */
  lemma MarksThen(a: Job, slot: Slot, b: Job, all: bool, c: Job)
    requires Marks(a, slot, false, b) && Marks(b, FREE_SLOT, all, c)
    ensures Marks(a, slot, all, c)
  {
  }

  /** A second persist adds nothing to what the first one has marked. */
  lemma MarksTwice(a: Job, slot: Slot, all: bool, b: Job, again: bool, c: Job)
    requires Marks(a, slot, all, b) && StreamsAlike(b, c) && Marks(b, FREE_SLOT, again, c)
    ensures Marks(a, slot, all || again, c)
  {
  }

  lemma MarkSegmentMarks(job: Job, i: nat, w: Writer)
    requires Sound(job) && Noted(job) && Touches(job, i) && job.slots[i].received > 0
    ensures var marked := MarkSegment(job, i, w);
            Noted(marked) && Marks(job, job.slots[i], false, marked)
  {
    var marked := MarkSegment(job, i, w);
    forall j | 0 <= j < |job.slots|
      ensures NotedSlot(marked.done, marked.slots[j])
    {
      assert NotedSlot(job.done, job.slots[j]);
    }
  }

  lemma MarkedAndRestedMarks(job: Job, i: nat, due: bool, w: Writer)
    requires Sound(job) && Noted(job) && Touches(job, i) && job.slots[i].received > 0
    ensures var rested := MarkedAndRested(job, i, due, w);
            && Noted(rested) && Marks(job, job.slots[i], due, rested)
  {
    var marked := MarkSegment(job, i, w);
    var rested := marked.(slots := marked.slots[i := Rested(marked.slots[i])]);
    MarkSegmentMarks(job, i, w);
    MarkSegmentKeepsSound(job, i, w);
    ReplaceKeepingRange(marked, i, Rested(marked.slots[i]));
    assert NotedSlot(marked.done, marked.slots[i]);
    PersistIfMarks(rested, due, w);
    MarksThen(job, job.slots[i], rested, due, MarkedAndRested(job, i, due, w));
  }

  lemma ReleaseNotes(job: Job, i: nat)
    requires i < |job.slots| && Noted(job)
    ensures Noted(Release(job, i))
  {
  }

  /** Behind the mark a finished slot marks nothing more, but a finished download persists. */
  lemma FinishRestedMarks(rested: Job, i: nat, next: Option<nat>, w: Writer, closed: bool)
    requires Sound(rested) && Noted(rested) && Touches(rested, i) && rested.outcome == Running
    requires rested.slots[i].received == 0
    ensures var after := FinishRested(rested, i, next, w, closed);
            && Noted(after) && StreamsAlike(rested, after)
            && Marks(rested, FREE_SLOT, AllDone(after), after)
  {
    var released, after := Release(rested, i), FinishRested(rested, i, next, w, closed);
    ReleaseNotes(rested, i);
    ReplaceStreams(rested, i, FREE_SLOT);
    if AllDone(rested) {
      ReleaseKeepsSound(rested, i);
      FinalizeMarks(released, w, closed);
    } else if rested.slots[i].keepAlive && next.Some? {
      ReplaceStreams(rested, i, after.slots[i]);
    }
  }

  lemma FinishMarks(job: Job, i: nat, due: bool, next: Option<nat>, w: Writer, closed: bool)
    requires Sound(job) && Noted(job) && Touches(job, i) && job.slots[i].received > 0 && job.outcome == Running
    ensures var after := Finish(job, i, due, next, w, closed);
            Noted(after) && Marks(job, job.slots[i], due || AllDone(after), after)
  {
    var rested := MarkedAndRested(job, i, due, w);
    MarkedAndRestedMarks(job, i, due, w);
    MarkedAndRestedKeepsSound(job, i, due, w);
    RestedHoldsNothing(job, i, due, w);
    FinishRestedMarks(rested, i, next, w, closed);
    MarksTwice(job, job.slots[i], due, rested, AllDone(Finish(job, i, due, next, w, closed)),
               Finish(job, i, due, next, w, closed));
  }

  lemma MarkedAndReleasedMarks(job: Job, i: nat, due: bool, w: Writer)
    requires Sound(job) && Noted(job) && Touches(job, i) && job.slots[i].received > 0
    ensures var released := MarkedAndReleased(job, i, due, w);
            && Noted(released) && released.outcome == job.outcome && Sound(released)
            && Marks(job, job.slots[i], due && !AlreadyMarked(job, i), released)
  {
    var marked := MarkSegment(job, i, w);
    var released, now := Release(marked, i), due && !AlreadyMarked(job, i);
    MarkSegmentMarks(job, i, w);
    MarkSegmentKeepsSound(job, i, w);
    ReleaseNotes(marked, i);
    ReleaseKeepsSound(marked, i);
    PersistIfMarks(released, now, w);
    PersistIfKeepsSound(released, now, w);
    MarksThen(job, job.slots[i], released, now, PersistIf(released, now, w));
  }

  // -------- handlers --------

  /** Something has arrived at the slot, before the event or with it. */
  ghost predicate HasReceived(job: Job, e: Event, w: Writer)
    requires Enabled(job, e) && (e.Read? || e.Close?)
  {
    job.slots[e.slot].received > 0 || KeptBytes(EventBytes(job, e), w) != map[]
  }

  /** And it is not all done. */
  ghost predicate BringsNew(job: Job, e: Event, w: Writer)
    requires Enabled(job, e) && (e.Read? || e.Close?)
  {
    exists o :: (HeldBy(job.slots[e.slot], o) || o in KeptBytes(EventBytes(job, e), w)) && o !in job.done
  }

  /** The writer has refused what the event hands over. */
  ghost predicate WriteFails(job: Job, e: Event, w: Writer)
    requires Enabled(job, e)
  {
    EventBytes(job, e) != map[] && w.failed
  }

  /** When a handler marks what all streaming slots have received: a status save, a throttled
      save that has come due, and the end of the download. */
  ghost predicate PersistsAll(job: Job, e: Event, w1: Writer, job': Job)
    requires Enabled(job, e)
  {
    match e
    case Schedule(_, _) => AllDone(job)
    case Headers(_, _, _, _) => !WriteFails(job, e, w1)
    case Read(i, _, _, due) =>
      if Finishes(job, e, job') then due || AllDone(job')
      else due && !WriteFails(job, e, w1) && i < |job'.slots| && job'.slots[i].streaming
    case Close(i, _, due, late) =>
      || (AllDone(job') && !WriteFails(job, e, w1) && (CountsBody(job, e) ==> HasReceived(job, e, w1)))
      || (due && CountsBody(job, e) && BringsNew(job, e, w1))
    case SaveMetadata => true
    case _ => false
  }

  /** A close that counts the body of its response. */
  ghost predicate CountsBody(job: Job, e: Event)
    requires Enabled(job, e) && e.Close?
  {
    (job.slots[e.slot].streaming || job.slots[e.slot].received > 0) && !e.late
  }

  /** The slot that an event finishes, with all that has arrived. */
  ghost predicate OwnMark(job: Job, e: Event, w1: Writer, job': Job, o: int)
    requires Enabled(job, e)
  {
    && (e.Read? || e.Close?) && Finishes(job, e, job')
    && (HeldBy(job.slots[e.slot], o) || o in KeptBytes(EventBytes(job, e), w1))
  }

  lemma BytesOfSome(job: Job, i: nat, data: seq<byte>)
    requires Sound(job) && Touches(job, i) && job.slots[i].streaming
    ensures BodyBytes(job, i, data) != map[] <==> Prepare(job, i, |data|).1 > 0
  {
    BodyBytesPlace(job, i, data);
    if Prepare(job, i, |data|).1 > 0 {
      assert job.slots[i].Position() in BodyBytes(job, i, data);
    }
  }

  /** A body write fails the job exactly when the writer refuses bytes. */
  lemma WriteBodyOutcome(job: Job, i: nat, data: seq<byte>, w: Writer)
    requires Sound(job) && Touches(job, i) && job.slots[i].streaming
    ensures var after := WriteBody(job, i, data, w);
            after.outcome == if BodyBytes(job, i, data) != map[] && w.failed then Stopped else job.outcome
  {
    BytesOfSome(job, i, data);
    PrepareFits(job, i, |data|);
  }

  lemma WriteBodyNotes(job: Job, i: nat, data: seq<byte>, w: Writer)
    requires Sound(job) && Noted(job) && Touches(job, i) && job.slots[i].streaming
    ensures Noted(WriteBody(job, i, data, w)) && WriteBody(job, i, data, w).done == job.done
  {
    PrepareFits(job, i, |data|);
    assert NotedSlot(job.done, job.slots[i]);
  }

  lemma HeadersMark(job: Job, i: nat, length: Option<nat>, keepAlive: bool, body: seq<byte>, w1: Writer, w2: Writer)
    requires Sound(job) && Noted(job) && Touches(job, i) && !job.slots[i].headersReceived && job.outcome == Running
    ensures var begun := Begin(job, i, length, keepAlive);
            var started := WriteBody(begun, i, body, w1);
            var after := PersistIf(started, started.outcome == Running, w2);
            && Noted(after)
            && Marks(job, FREE_SLOT, !(BodyBytes(begun, i, body) != map[] && w1.failed), after)
  {
    var begun := Begin(job, i, length, keepAlive);
    BeginKeepsSound(job, i, length, keepAlive);
    assert SlotOK(job.total, job.chunkSize, job.slots[i]);
    assert NotedSlot(begun.done, begun.slots[i]);
    WriteBodyKeepsSound(begun, i, body, w1);
    WriteBodyNotes(begun, i, body, w1);
    WriteBodyOutcome(begun, i, body, w1);
    var started := WriteBody(begun, i, body, w1);
    PersistIfMarks(started, started.outcome == Running, w2);
  }

  lemma AfterBodyNotes(job: Job, i: nat)
    requires Noted(job) && Touches(job, i)
    ensures Noted(AfterBody(job, i).0) && AfterBody(job, i).0.done == job.done
    ensures AfterBody(job, i).0.outcome == job.outcome
    ensures forall o :: HeldBy(AfterBody(job, i).0.slots[i], o) <==> HeldBy(job.slots[i], o)
  {
    assert NotedSlot(job.done, job.slots[i]);
  }

  /** The slot behind a read: it has what it had, and what this event has brought. */
  lemma ReadSlotNotes(job: Job, i: nat, data: seq<byte>, w: Writer)
    requires Sound(job) && Noted(job) && Touches(job, i)
    ensures var bytes := if job.slots[i].streaming then BodyBytes(job, i, data) else map[];
            var read := ReadSlot(job, i, data, w).0;
            && Noted(read) && read.done == job.done
            && read.outcome == (if bytes != map[] && w.failed then Stopped else job.outcome)
            && (forall o :: HeldBy(read.slots[i], o) <==> HeldBy(job.slots[i], o) || o in KeptBytes(bytes, w))
  {
    if job.slots[i].streaming {
      WriteBodyNotes(job, i, data, w);
      WriteBodyOutcome(job, i, data, w);
      FlushedHolds(job, i, data, w);
      WriteBodyKeepsSound(job, i, data, w);
      AfterBodyNotes(WriteBody(job, i, data, w), i);
    } else {
      assert NotedSlot(job.done, job.slots[i]);
    }
  }

  /** What a handler marks, byte by byte. */
  ghost predicate MarksRightly(job: Job, e: Event, w1: Writer, job': Job)
    requires Enabled(job, e)
  {
    forall o ::
      o in job'.done
      <==> o in job.done || OwnMark(job, e, w1, job', o) || (PersistsAll(job, e, w1, job') && Streamed(job', o))
  }

  lemma FreeStaysFree(job: Job, i: nat, due: bool, w: Writer, closed: bool)
    requires i < |job.slots| && job.slots[i] == FREE_SLOT
    ensures |PersistIf(job, due, w).slots| == |Finalize(job, w, closed).slots| == |job.slots|
    ensures PersistIf(job, due, w).slots[i] == FREE_SLOT && Finalize(job, w, closed).slots[i] == FREE_SLOT
  {
  }

  lemma FinishedIsReset(job: Job, i: nat, due: bool, next: Option<nat>, w: Writer, closed: bool)
    requires Touches(job, i)
    ensures var after := Finish(job, i, due, next, w, closed);
            |after.slots| == |job.slots| && !after.slots[i].headersReceived
  {
    var rested := MarkedAndRested(job, i, due, w);
    assert |rested.slots| == |job.slots|;
    FreeStaysFree(Release(rested, i), i, true, w, closed);
  }

  /** What a read does, by the verdict on its slot. */
  lemma ReadCases(job: Job, i: nat, data: seq<byte>, next: Option<nat>, due: bool,
                  w1: Writer, w2: Writer, closed: bool, job': Job)
    requires Sound(job) && job.outcome == Running && Enabled(job, Read(i, data, next, due))
    requires Handles(job, Read(i, data, next, due), w1, w2, closed, job')
    ensures var (read, verdict) := ReadSlot(job, i, data, w1);
            && Sound(read) && Touches(read, i) && read.outcome == (if verdict == Failed then Stopped else Running)
            && (verdict == Failed <==> WriteFails(job, Read(i, data, next, due), w1))
            && (verdict == FinishSlot <==> Finishes(job, Read(i, data, next, due), job'))
            && (verdict == FinishSlot ==> read.slots[i].received > 0 && job' == Finish(read, i, due, next, w2, closed))
            && (verdict == Keep ==> job' == PersistIf(read, due && !read.slots[i].draining, w2))
            && (verdict == Failed ==> job' == read.(file := w2))
            && read.slots[i].streaming == !read.slots[i].draining
            && |job'.slots| == |job.slots|
  {
    var (read, verdict) := ReadSlot(job, i, data, w1);
    ReadSlotKeepsSound(job, i, data, w1);
    FinishedHasReceived(job, i, data, w1);
    KeptStreams(job, i, data, w1);
    FailsOnWrite(job, i, data, w1);
    ReadOutcomes(job, i, data, w1);
    match verdict
    case Failed =>
    case Keep => PersistIfKeepsSlot(read, i, due && !read.slots[i].draining, w2);
    case FinishSlot => FinishedIsReset(read, i, due, next, w2, closed);
  }

  lemma ReadOutcomes(job: Job, i: nat, data: seq<byte>, w: Writer)
    requires Sound(job) && Touches(job, i) && job.outcome == Running
    ensures var (read, verdict) := ReadSlot(job, i, data, w);
            |read.slots| == |job.slots| && read.outcome == if verdict == Failed then Stopped else Running
  {
    if job.slots[i].streaming {
      WriteBodyOutcome(job, i, data, w);
    }
  }

  lemma ReadMarks(job: Job, i: nat, data: seq<byte>, next: Option<nat>, due: bool,
                  w1: Writer, w2: Writer, closed: bool, job': Job)
    requires Sound(job) && Noted(job) && job.outcome == Running && Enabled(job, Read(i, data, next, due))
    requires Handles(job, Read(i, data, next, due), w1, w2, closed, job')
    ensures Noted(job') && MarksRightly(job, Read(i, data, next, due), w1, job')
  {
    var (read, verdict) := ReadSlot(job, i, data, w1);
    ReadCases(job, i, data, next, due, w1, w2, closed, job');
    ReadSlotNotes(job, i, data, w1);
    match verdict
    case Failed =>
    case Keep =>
      PersistIfMarks(read, due && !read.slots[i].draining, w2);
      PersistIfKeepsSlot(read, i, due && !read.slots[i].draining, w2);
    case FinishSlot =>
      FinishMarks(read, i, due, next, w2, closed);
  }

  lemma PersistIfKeepsSlot(job: Job, i: nat, due: bool, w: Writer)
    requires i < |job.slots|
    ensures |PersistIf(job, due, w).slots| == |job.slots|
    ensures PersistIf(job, due, w).slots[i] == job.slots[i].(persisted := PersistIf(job, due, w).slots[i].persisted)
  {
  }

  lemma FailsOnWrite(job: Job, i: nat, data: seq<byte>, w: Writer)
    requires Sound(job) && Touches(job, i) && job.outcome == Running
    ensures ReadSlot(job, i, data, w).1 == Failed
            <==> job.slots[i].streaming && BodyBytes(job, i, data) != map[] && w.failed
  {
    if job.slots[i].streaming {
      WriteBodyOutcome(job, i, data, w);
    }
  }

  /** A slot that goes on either streams or drains. */
  lemma KeptStreams(job: Job, i: nat, data: seq<byte>, w: Writer)
    requires Sound(job) && Touches(job, i) && job.outcome == Running
    requires job.slots[i].streaming || job.slots[i].draining
    ensures var (read, verdict) := ReadSlot(job, i, data, w);
            && read.slots[i].streaming == !read.slots[i].draining
            && (verdict != Failed ==> !(job.slots[i].streaming && BodyBytes(job, i, data) != map[] && w.failed))
  {
    FailsOnWrite(job, i, data, w);
    PrepareFits(job, i, |data|);
    assert SlotOK(job.total, job.chunkSize, job.slots[i]);
  }

  lemma FlushReceives(job: Job, i: nat, rest: seq<byte>, w: Writer)
    requires Sound(job) && Touches(job, i)
    ensures var bytes := if job.slots[i].streaming then BodyBytes(job, i, rest) else map[];
            Flush(job, i, rest, w).slots[i].received > 0 <==> job.slots[i].received > 0 || KeptBytes(bytes, w) != map[]
  {
    if job.slots[i].streaming {
      BytesOfSome(job, i, rest);
      PrepareFits(job, i, |rest|);
    }
  }

  lemma CloseBrings(job: Job, e: Event, w: Writer)
    requires Sound(job) && Enabled(job, e) && e.Close?
    ensures var flushed := Flush(job, e.slot, e.rest, w);
            && (HasReceived(job, e, w) <==> flushed.slots[e.slot].received > 0)
            && (HasReceived(job, e, w) ==> (BringsNew(job, e, w) <==> !AlreadyMarked(flushed, e.slot)))
            && (BringsNew(job, e, w) ==> HasReceived(job, e, w))
  {
    var flushed := Flush(job, e.slot, e.rest, w);
    FlushReceives(job, e.slot, e.rest, w);
    FlushedHolds(job, e.slot, e.rest, w);
    FlushKeepsSound(job, e.slot, e.rest, w);
    FlushKeepsTheRest(job, e.slot, e.rest, w);
    AlreadyMarkedExactly(flushed, e.slot);
    if BringsNew(job, e, w) {
      var o :| (HeldBy(job.slots[e.slot], o) || o in KeptBytes(EventBytes(job, e), w)) && o !in job.done;
      assert HeldBy(flushed.slots[e.slot], o);
    }
    if HasReceived(job, e, w) && !AlreadyMarked(flushed, e.slot) {
      var o :| HeldBy(flushed.slots[e.slot], o) && o !in flushed.done;
    }
  }

  lemma AlreadyMarkedExactly(job: Job, i: nat)
    requires Touches(job, i)
    ensures AlreadyMarked(job, i)
            <==> job.slots[i].received > 0 && forall o | HeldBy(job.slots[i], o) :: o in job.done
  {
    var slot := job.slots[i];
    assert forall o :: HeldBy(slot, o) <==> slot.rangeStart <= o <= slot.rangeStart + slot.received - 1;
  }

  lemma FlushNotes(job: Job, i: nat, rest: seq<byte>, w: Writer)
    requires Sound(job) && Noted(job) && Touches(job, i)
    ensures var bytes := if job.slots[i].streaming then BodyBytes(job, i, rest) else map[];
            var flushed := Flush(job, i, rest, w);
            && Noted(flushed) && flushed.done == job.done
            && flushed.outcome == (if bytes != map[] && w.failed then Stopped else job.outcome)
  {
    if job.slots[i].streaming {
      WriteBodyNotes(job, i, rest, w);
      WriteBodyOutcome(job, i, rest, w);
    }
  }

  lemma FinalizeIfDoneMarks(job: Job, w: Writer, closed: bool)
    requires Sound(job) && Noted(job)
    ensures var after := FinalizeIfDone(job, w, closed);
            && Noted(after) && StreamsAlike(job, after)
            && Marks(job, FREE_SLOT, AllDone(after) && job.outcome == Running, after)
  {
    FinalizeMarks(job, w, closed);
    SameStreams(job, job);
  }

  /** A close that counts what its slot has received. */
  ghost predicate CountsSome(job: Job, e: Event, w: Writer)
    requires Enabled(job, e) && e.Close?
  {
    CountsBody(job, e) && HasReceived(job, e, w)
  }

  /** The job when the closed slot has been let go of, before the end of the download. */
  ghost function ClosedSlot(job: Job, e: Event, w1: Writer, w2: Writer): Job
    requires Enabled(job, e) && e.Close?
  {
    var flushed := Flush(job, e.slot, e.rest, w1);
    if CountsSome(job, e, w1) then MarkedAndReleased(flushed, e.slot, e.due, w2)
    else Release(flushed, e.slot).(file := w2)
  }

  /** What a close does: the slot is let go of, and a complete download ends, unless the body
      that was to be counted is empty. */
  lemma CloseCases(job: Job, e: Event, w1: Writer, w2: Writer, closed: bool, job': Job)
    requires Sound(job) && job.outcome == Running && Enabled(job, e) && e.Close?
    requires Handles(job, e, w1, w2, closed, job')
    ensures var flushed, released := Flush(job, e.slot, e.rest, w1), ClosedSlot(job, e, w1, w2);
            && Sound(flushed) && Touches(flushed, e.slot) && Sound(released)
            && (CountsSome(job, e, w1) <==> CountsBody(job, e) && flushed.slots[e.slot].received > 0)
            && (CountsBody(job, e) <==> HadBody(job.slots[e.slot]) && !e.late)
            && released.outcome == (if WriteFails(job, e, w1) then Stopped else Running)
            && job' == if CountsBody(job, e) && !HasReceived(job, e, w1) then released
                       else FinalizeIfDone(released, w2, closed)
  {
    var i, flushed := e.slot, Flush(job, e.slot, e.rest, w1);
    FlushKeepsSound(job, i, e.rest, w1);
    FlushReceives(job, i, e.rest, w1);
    FlushOutcome(job, i, e.rest, w1);
    assert SlotOK(job.total, job.chunkSize, job.slots[i]);
    ReleaseKeepsSound(flushed, i);
    if CountsSome(job, e, w1) {
      MarkedAndReleasedIsSound(flushed, i, e.due, w2);
    }
  }

  lemma MarkedAndReleasedIsSound(job: Job, i: nat, due: bool, w: Writer)
    requires Sound(job) && Touches(job, i) && job.slots[i].received > 0
    ensures Sound(MarkedAndReleased(job, i, due, w)) && MarkedAndReleased(job, i, due, w).outcome == job.outcome
  {
    var marked := MarkSegment(job, i, w);
    MarkSegmentKeepsSound(job, i, w);
    ReleaseKeepsSound(marked, i);
    PersistIfKeepsSound(Release(marked, i), due && !AlreadyMarked(job, i), w);
  }

  lemma FlushOutcome(job: Job, i: nat, rest: seq<byte>, w: Writer)
    requires Sound(job) && Touches(job, i)
    ensures var bytes := if job.slots[i].streaming then BodyBytes(job, i, rest) else map[];
            Flush(job, i, rest, w).outcome == if bytes != map[] && w.failed then Stopped else job.outcome
  {
    if job.slots[i].streaming {
      WriteBodyOutcome(job, i, rest, w);
    }
  }

  lemma CloseMarks(job: Job, e: Event, w1: Writer, w2: Writer, closed: bool, job': Job)
    requires Sound(job) && Noted(job) && job.outcome == Running && Enabled(job, e) && e.Close?
    requires Handles(job, e, w1, w2, closed, job')
    ensures Noted(job') && MarksRightly(job, e, w1, job')
  {
    var i, flushed, released := e.slot, Flush(job, e.slot, e.rest, w1), ClosedSlot(job, e, w1, w2);
    CloseCases(job, e, w1, w2, closed, job');
    FlushNotes(job, i, e.rest, w1);
    FlushedHolds(job, i, e.rest, w1);
    CloseBrings(job, e, w1);
    assert SlotOK(job.total, job.chunkSize, job.slots[i]);
    ReleaseNotes(flushed, i);
    if CountsSome(job, e, w1) {
      MarkedAndReleasedMarks(flushed, i, e.due, w2);
    }
    FinalizeIfDoneMarks(released, w2, closed);
    if CountsSome(job, e, w1) {
      MarksTwice(flushed, flushed.slots[i], e.due && !AlreadyMarked(flushed, i), released,
                 AllDone(job') && released.outcome == Running, job');
    }
  }

  /** Every handler marks exactly what it has to: the offsets that the slot it finishes has
      received, and those of all streaming slots when it persists. */
  lemma HandlerMarksExactly(job: Job, e: Event, w1: Writer, w2: Writer, closed: bool, job': Job)
    requires Sound(job) && Noted(job) && job.outcome == Running
    requires Enabled(job, e) && !e.Crash? && !e.Restart? && Handles(job, e, w1, w2, closed, job')
    ensures Noted(job') && MarksRightly(job, e, w1, job')
  {
    match e
    case Schedule(sel, connected) =>
      FinalizeMarks(job, w2, closed);
      if !AllDone(job) {
        AcquireAllGrows(job.(file := w2), sel, connected);
        AcquireAllNotes(job.(file := w2), sel, connected);
      }
    case Headers(i, length, keepAlive, body) => HeadersMark(job, i, length, keepAlive, body, w1, w2);
    case Read(i, data, next, due) => ReadMarks(job, i, data, next, due, w1, w2, closed, job');
    case Close(_, _, _, _) => CloseMarks(job, e, w1, w2, closed, job');
    case Abandon(i, rest) =>
      FlushNotes(job, i, rest, w1);
      ReleaseNotes(Flush(job, i, rest, w1), i);
    case SaveMetadata => PersistMarks(job, w2);
    case WorkerRuns =>
    case Stop =>
  }

  lemma {:induction false} AcquireAllNotes(job: Job, sel: seq<nat>, connected: seq<bool>)
    requires Noted(job) && |connected| == |sel|
    ensures Noted(AcquireAll(job, sel, connected))
    decreases |sel|
  {
    if sel != [] && FirstFree(job.slots) < |job.slots| {
      var k := FirstFree(job.slots);
      var next := if connected[0] then job.(slots := job.slots[k := SlotFor(job, sel[0])])
                  else job.(outcome := Stopped);
      assert Noted(next);
      AcquireAllNotes(next, sel[1..], connected[1..]);
    }
  }
}
