/** How a handler leaves the job and its slot: when a download is finished and when it has
    failed, when a slot goes on, drains or gives its connection up, and what becomes of a
    connection whose segment is done. */
module EngineVerdicts {
  import opened Machine
  import opened ByteRanges
  import opened Segments
  import opened SegmentSelect
  import opened Writers
  import opened Engine
  import opened EngineInvariants
  import opened EngineContent
  import opened EngineAlignment
  import opened EngineScheduling
  import opened EngineProgress
  import opened EngineMarking

  // -------- the end of a download --------

  /** Everything is done, and the handler is one that looks: a scheduling pass, a slot that
      finishes, or a close that has counted its body or had none to count. */
  ghost predicate Concludes(job: Job, e: Event, w1: Writer, job': Job)
    requires Enabled(job, e)
  {
    match e
    case Schedule(_, _) => AllDone(job)
    case Read(_, _, _, _) => AllDone(job') && Finishes(job, e, job')
    case Close(_, _, _, _) =>
      AllDone(job') && !WriteFails(job, e, w1) && (CountsBody(job, e) ==> HasReceived(job, e, w1))
    case _ => false
  }

  /** What fails a job before it is complete. */
  ghost predicate Fails(job: Job, e: Event, w1: Writer)
    requires Enabled(job, e)
  {
    || e.Stop? || WriteFails(job, e, w1)
    || (e.Schedule? && exists j :: 0 <= j < |e.connected| && !e.connected[j])
  }

  ghost function OutcomeOf(job: Job, e: Event, w1: Writer, w2: Writer, closed: bool, job': Job): Outcome
    requires Enabled(job, e)
  {
    if Concludes(job, e, w1, job') then (if !w2.failed && closed then Finished(w2.disk) else Stopped)
    else if Fails(job, e, w1) then Stopped
    else Running
  }

  lemma CompleteIsCounted(job: Job)
    requires Sound(job) && AllDone(job)
    ensures |job.done| >= job.total
  {
    FullWhenCounted(job.done, job.total);
  }

  /** The close of a complete download decides alone. */
  lemma FinalizeOutcome(job: Job, w: Writer, closed: bool)
    requires Sound(job) && AllDone(job) && job.outcome == Running
    ensures var after := Finalize(job, w, closed);
            AllDone(after) && after.outcome == if !w.failed && closed then Finished(w.disk) else Stopped
  {
    PersistKeepsSound(job, w);
    CompleteIsCounted(Persist(job, w));
  }

  lemma FinalizeIfDoneOutcome(job: Job, w: Writer, closed: bool)
    requires Sound(job)
    ensures var after := FinalizeIfDone(job, w, closed);
            && (AllDone(after) <==> AllDone(job))
            && after.outcome == if !AllDone(job) || job.outcome != Running then job.outcome
                                else if !w.failed && closed then Finished(w.disk) else Stopped
  {
    if AllDone(job) && job.outcome == Running {
      FinalizeOutcome(job, w, closed);
    }
  }

  lemma FinishOutcome(job: Job, i: nat, due: bool, next: Option<nat>, w: Writer, closed: bool)
    requires Sound(job) && Touches(job, i) && job.slots[i].received > 0 && job.outcome == Running
    ensures var after := Finish(job, i, due, next, w, closed);
            after.outcome == if !AllDone(after) then Running
                             else if !w.failed && closed then Finished(w.disk) else Stopped
  {
    var rested := MarkedAndRested(job, i, due, w);
    MarkedAndRestedKeepsSound(job, i, due, w);
    ReleaseKeepsSound(rested, i);
    if AllDone(rested) {
      FinalizeOutcome(Release(rested, i), w, closed);
    }
  }

  /** Every selected segment gets its attempt, and one that fails fails the job. */
  lemma {:induction false} AcquireAllOutcome(job: Job, sel: seq<nat>, connected: seq<bool>)
    requires |connected| == |sel| && CountActive(job.slots) + |sel| <= |job.slots|
    ensures var after := AcquireAll(job, sel, connected);
            after.outcome == if AllConnect(connected) then job.outcome else Stopped
    decreases |sel|
  {
    ActiveBound(job.slots);
    if sel != [] {
      var k, slot := FirstFree(job.slots), SlotFor(job, sel[0]);
      OneMoreActive(job.slots, k, slot);
      var next := if connected[0] then job.(slots := job.slots[k := slot]) else job.(outcome := Stopped);
      AcquireAllOutcome(next, sel[1..], connected[1..]);
      assert AllConnect(connected) <==> connected[0] && AllConnect(connected[1..]) by {
        assert forall j | 0 < j < |connected| :: connected[j] == connected[1..][j - 1];
      }
    }
  }

  lemma ReadOutcome(job: Job, i: nat, data: seq<byte>, next: Option<nat>, due: bool,
                    w1: Writer, w2: Writer, closed: bool, job': Job)
    requires Sound(job) && job.outcome == Running && Enabled(job, Read(i, data, next, due))
    requires Handles(job, Read(i, data, next, due), w1, w2, closed, job')
    ensures job'.outcome == OutcomeOf(job, Read(i, data, next, due), w1, w2, closed, job')
  {
    ReadCases(job, i, data, next, due, w1, w2, closed, job');
    var (read, verdict) := ReadSlot(job, i, data, w1);
    if verdict == FinishSlot {
      FinishOutcome(read, i, due, next, w2, closed);
    }
  }

  lemma CloseOutcome(job: Job, e: Event, w1: Writer, w2: Writer, closed: bool, job': Job)
    requires Sound(job) && job.outcome == Running && Enabled(job, e) && e.Close?
    requires Handles(job, e, w1, w2, closed, job')
    ensures job'.outcome == OutcomeOf(job, e, w1, w2, closed, job')
  {
    CloseCases(job, e, w1, w2, closed, job');
    FinalizeIfDoneOutcome(ClosedSlot(job, e, w1, w2), w2, closed);
  }

  lemma HeadersOutcome(job: Job, i: nat, length: Option<nat>, keepAlive: bool, body: seq<byte>,
                       w1: Writer, w2: Writer)
    requires Sound(job) && Touches(job, i) && !job.slots[i].headersReceived && job.outcome == Running
    ensures var begun := Begin(job, i, length, keepAlive);
            var started := WriteBody(begun, i, body, w1);
            PersistIf(started, started.outcome == Running, w2).outcome
            == if BodyBytes(begun, i, body) != map[] && w1.failed then Stopped else Running
  {
    BeginKeepsSound(job, i, length, keepAlive);
    WriteBodyOutcome(Begin(job, i, length, keepAlive), i, body, w1);
  }

  lemma PassOutcome(job: Job, sel: seq<nat>, connected: seq<bool>, w: Writer)
    requires Sound(job) && Enabled(job, Schedule(sel, connected)) && !AllDone(job)
    ensures AcquireAll(job.(file := w), sel, connected).outcome
         == if AllConnect(connected) then job.outcome else Stopped
  {
    SelectedIsRight(job.strategy, |job.slots|, Choices(job, -1), SelectLimit(job));
    ActiveBound(job.slots);
    AcquireAllOutcome(job.(file := w), sel, connected);
  }

  /** The outcome behind every handler: a download is finished exactly when a handler that
      looks finds everything done and the close succeeds; it has failed when that close or a
      write fails, when a connection cannot be made, or when it is stopped; otherwise it
      goes on. */
  lemma OutcomeIsExact(job: Job, e: Event, w1: Writer, w2: Writer, closed: bool, job': Job)
    requires Sound(job) && job.outcome == Running
    requires Enabled(job, e) && !e.Crash? && !e.Restart? && Handles(job, e, w1, w2, closed, job')
    ensures job'.outcome == OutcomeOf(job, e, w1, w2, closed, job')
  {
    match e
    case Schedule(sel, connected) =>
      if AllDone(job) {
        FinalizeOutcome(job, w2, closed);
      } else {
        PassOutcome(job, sel, connected, w2);
      }
    case Headers(i, length, keepAlive, body) => HeadersOutcome(job, i, length, keepAlive, body, w1, w2);
    case Read(i, data, next, due) => ReadOutcome(job, i, data, next, due, w1, w2, closed, job');
    case Close(_, _, _, _) => CloseOutcome(job, e, w1, w2, closed, job');
    case Abandon(i, rest) => FlushOutcome(job, i, rest, w1);
    case SaveMetadata =>
    case WorkerRuns =>
    case Stop =>
  }

  // -------- growing a reservation --------

  /** A reservation can grow exactly when there is a next segment that is neither done nor
      reserved by another slot; it grows by that segment. */
  lemma ExtendsExactly(job: Job, i: nat, b: nat)
    requires Sound(job) && Touches(job, i) && b < SegmentCount(job.total, job.chunkSize)
    requires job.slots[i].reservedEnd == SegmentEnd(job.total, job.chunkSize, b)
    ensures var start, end := SegmentStart(job.chunkSize, b + 1), SegmentEnd(job.total, job.chunkSize, b + 1);
            && (CanExtend(job, i) <==>
                  && b + 1 < SegmentCount(job.total, job.chunkSize)
                  && !SegmentDone(job.done, job.total, job.chunkSize, b + 1)
                  && Unreserved(job.slots, i, start, end))
            && (CanExtend(job, i) ==> NextReserveEnd(job, i) == end)
  {
    SegmentShape(job.total, job.chunkSize, b);
    if b + 1 < SegmentCount(job.total, job.chunkSize) {
      NextIsWholeSegment(job, i, b);
    }
  }

  lemma NextIsWholeSegment(job: Job, i: nat, b: nat)
    requires i < |job.slots| && job.total > 0 && b + 1 < SegmentCount(job.total, job.chunkSize)
    requires job.slots[i].reservedEnd == SegmentEnd(job.total, job.chunkSize, b)
    ensures var current, start := job.slots[i].reservedEnd, SegmentStart(job.chunkSize, b + 1);
            var end := SegmentEnd(job.total, job.chunkSize, b + 1);
            && current + 1 == start <= end < job.total
            && NextReserveEnd(job, i) == (if SegmentDone(job.done, job.total, job.chunkSize, b + 1)
                                             || !Unreserved(job.slots, i, start, end) then current else end)
  {
    var current := job.slots[i].reservedEnd;
    SegmentShape(job.total, job.chunkSize, b);
    SegmentShape(job.total, job.chunkSize, b + 1);
    assert SegmentEnd(job.total, job.chunkSize, b + 1)
        == if current + SegmentSize(job.chunkSize) > job.total - 1 then job.total - 1
           else current + SegmentSize(job.chunkSize);
  }

  /** A reservation never grows further than the data reaches. */
  lemma {:induction false} ExtendsAsNeeded(job: Job, i: nat, len: nat)
    requires Sound(job) && Touches(job, i)
    ensures var wider := ExtendFor(job, i, len);
            wider.slots[i].reservedEnd != job.slots[i].reservedEnd ==>
              exists k: nat ::
                && k < SegmentCount(job.total, job.chunkSize)
                && wider.slots[i].reservedEnd == SegmentEnd(job.total, job.chunkSize, k)
                && SegmentStart(job.chunkSize, k) < job.slots[i].Position() + len
    decreases job.total - job.slots[i].reservedEnd
  {
    if job.slots[i].Position() + len > job.slots[i].reservedEnd + 1 && CanExtend(job, i) {
      var b := LastSegment(job, i);
      ExtendsExactly(job, i, b);
      SegmentShape(job.total, job.chunkSize, b);
      ExtendKeepsSound(job, i);
      NextEndIsNextSegment(job, i);
      ExtendsAsNeeded(Extend(job, i), i, len);
    }
  }

  lemma LastSegment(job: Job, i: nat) returns (b: nat)
    requires Sound(job) && Touches(job, i)
    ensures b < SegmentCount(job.total, job.chunkSize)
    ensures job.slots[i].reservedEnd == SegmentEnd(job.total, job.chunkSize, b)
  {
    assert SlotOK(job.total, job.chunkSize, job.slots[i]);
    var a: nat, last: nat :| a <= last < SegmentCount(job.total, job.chunkSize)
                             && job.slots[i].rangeStart == SegmentStart(job.chunkSize, a)
                             && job.slots[i].reservedEnd == SegmentEnd(job.total, job.chunkSize, last);
    b := last;
  }

  // -------- what is written of the data --------

  /** The slot that an event is about, for the events that are about one. */
  predicate IsAbout(e: Event, i: nat) {
    (e.Headers? || e.Read? || e.Close? || e.Abandon?) && e.slot == i
  }

  /** The body bytes that come with an event. */
  function DataOf(e: Event): seq<byte> {
    match e
    case Headers(_, _, _, body) => body
    case Read(_, data, _, _) => data
    case Close(_, rest, _, _) => rest
    case Abandon(_, rest) => rest
    case _ => []
  }

  /** The slot as the data finds it: a response that starts has nothing yet. */
  ghost function Receiving(job: Job, e: Event): Job
    requires Enabled(job, e)
  {
    if e.Headers? then Begin(job, e.slot, e.length, e.keepAlive) else job
  }

  /** The first `n` bytes of the data go to the place that the slot has come to. */
  ghost predicate WritesFront(job: Job, e: Event, i: nat, n: nat)
    requires Enabled(job, e) && i < |Receiving(job, e).slots| && n <= |DataOf(e)|
  {
    var at := Receiving(job, e).slots[i].Position();
    && (forall o :: o in EventBytes(job, e) <==> at <= o < at + n)
    && (forall o | o in EventBytes(job, e) :: EventBytes(job, e)[o] == DataOf(e)[o - at])
  }

  /** Whatever arrives for a streaming slot is written, as it comes and where the slot has come
      to; it is cut off only at a slot that was full before, or gets full and cannot grow. */
  lemma DataIsWritten(job: Job, e: Event, i: nat) returns (n: nat)
    requires Sound(job) && Enabled(job, e) && IsAbout(e, i)
    requires Receiving(job, e).slots[i].streaming
    ensures n <= |DataOf(e)| && WritesFront(job, e, i, n)
    ensures n < |DataOf(e)| ==>
              Receiving(job, e).slots[i].Full() || GetsStuck(Receiving(job, e), i, |DataOf(e)|)
  {
    var now := Receiving(job, e);
    if e.Headers? {
      BeginKeepsSound(job, i, e.length, e.keepAlive);
    }
    n := Prepare(now, i, |DataOf(e)|).1;
    BodyIsTheFront(now, i, DataOf(e));
    assert EventBytes(job, e) == BodyBytes(now, i, DataOf(e));
  }

  lemma BodyIsTheFront(job: Job, i: nat, data: seq<byte>)
    requires Sound(job) && Touches(job, i) && job.slots[i].streaming
    ensures var n, at, bytes := Prepare(job, i, |data|).1, job.slots[i].Position(), BodyBytes(job, i, data);
            && (forall o :: o in bytes <==> at <= o < at + n)
            && (forall o | o in bytes :: bytes[o] == data[o - at])
            && (n < |data| ==> job.slots[i].Full() || GetsStuck(job, i, |data|))
  {
    var n := Prepare(job, i, |data|).1;
    PrepareFits(job, i, |data|);
    BytesAt(job.slots[i].writeOffset + job.slots[i].received, data[..n]);
    assert SlotOK(job.total, job.chunkSize, job.slots[i]);
  }

  // -------- the slot behind a read --------

  /** Slot `i` has `left` bytes of its response still to come, and nothing else has changed. */
  function Drained(job: Job, i: nat, left: nat, w: Writer): Job
    requires i < |job.slots|
  {
    job.(file := w, slots := job.slots[i := job.slots[i].(responseRemaining := left)])
  }

  /** A draining slot drains until its response is over, and then finishes. */
  lemma DrainingReadExactly(job: Job, i: nat, data: seq<byte>, next: Option<nat>, due: bool,
                            w1: Writer, w2: Writer, closed: bool, job': Job)
    requires Sound(job) && job.outcome == Running && Enabled(job, Read(i, data, next, due))
    requires job.slots[i].draining && Handles(job, Read(i, data, next, due), w1, w2, closed, job')
    ensures var left := job.slots[i].responseRemaining - |data|;
            && (left > 0 ==> job' == Drained(job, i, left, w2))
            && (left <= 0 <==> Finishes(job, Read(i, data, next, due), job'))
  {
    ReadCases(job, i, data, next, due, w1, w2, closed, job');
    DrainingSlot(job, i, data, w1);
    KeptUndrained(job, i, job.slots[i].responseRemaining - |data|, due, w1, w2);
  }

  lemma DrainingSlot(job: Job, i: nat, data: seq<byte>, w: Writer)
    requires Sound(job) && Touches(job, i) && job.slots[i].draining
    ensures var (read, verdict) := ReadSlot(job, i, data, w);
            var left := job.slots[i].responseRemaining - |data|;
            && (verdict == FinishSlot <==> left <= 0) && verdict != Failed
            && (left > 0 ==> read == Drained(job, i, left, w))
  {
    assert SlotOK(job.total, job.chunkSize, job.slots[i]);
  }

  /** A slot that goes on draining persists nothing. */
  lemma KeptUndrained(job: Job, i: nat, left: int, due: bool, w1: Writer, w2: Writer)
    requires i < |job.slots| && job.slots[i].draining
    ensures left > 0 ==>
              var read := Drained(job, i, left, w1);
              PersistIf(read, due && !read.slots[i].draining, w2) == Drained(job, i, left, w2)
  {
  }

  /** What is still to come of the response when `n` more bytes of it have been kept. */
  function LeftOf(slot: Slot, n: nat): nat {
    if slot.responseRemaining > n then slot.responseRemaining - n else 0
  }

  /** Behind the write of `len` bytes the slot is full, and its reservation cannot grow. */
  ghost predicate GetsStuck(job: Job, i: nat, len: nat)
    requires i < |job.slots|
  {
    var (wider, n) := Prepare(job, i, len);
    wider.slots[i].Position() + n > wider.slots[i].reservedEnd && !CanExtend(wider, i)
  }

  /** Too much of the response is left to drain it. */
  ghost predicate GivesUp(job: Job, i: nat, len: nat)
    requires i < |job.slots|
  {
    GetsStuck(job, i, len) && LeftOf(job.slots[i], Prepare(job, i, len).1) > DL_DRAIN_MAX_BYTES
  }

  /** Where the reservation ends behind the write of `len` bytes: a slot that is full takes
      the next segment when it can. */
  ghost function GrownEnd(job: Job, i: nat, len: nat): nat
    requires i < |job.slots|
  {
    var (wider, n) := Prepare(job, i, len);
    if wider.slots[i].Position() + n > wider.slots[i].reservedEnd then NextReserveEnd(wider, i)
    else wider.slots[i].reservedEnd
  }

  /** The slot behind the body write and the decision, when it goes on. */
  ghost predicate GoesOn(job: Job, i: nat, len: nat, slot: Slot)
    requires i < |job.slots|
  {
    var n := Prepare(job, i, len).1;
    && slot.inUse && slot.headersReceived && slot.streaming == !slot.draining
    && slot.rangeStart == job.slots[i].rangeStart && slot.received == job.slots[i].received + n
    && slot.responseRemaining == LeftOf(job.slots[i], n) && slot.reservedEnd == GrownEnd(job, i, len)
    && slot.keepAlive == job.slots[i].keepAlive
  }

  lemma WrittenSlot(job: Job, i: nat, data: seq<byte>, w: Writer)
    requires Sound(job) && Touches(job, i) && job.slots[i].streaming
    requires !(BodyBytes(job, i, data) != map[] && w.failed)
    ensures var (wider, n) := Prepare(job, i, |data|);
            var after := WriteBody(job, i, data, w);
            && after.slots[i] == wider.slots[i].(received := job.slots[i].received + n,
                                                 responseRemaining := LeftOf(job.slots[i], n),
                                                 delivered := job.slots[i].delivered + |data|)
            && NextReserveEnd(after, i) == NextReserveEnd(wider, i)
            && (CanExtend(after, i) <==> CanExtend(wider, i))
            && after.outcome == job.outcome
  {
    var (wider, n) := Prepare(job, i, |data|);
    PrepareFits(job, i, |data|);
    BytesOfSome(job, i, data);
    SameReservationsExtendAlike(wider, WriteBody(job, i, data, w), i);
  }

  /** The decision behind the body write. */
  lemma AfterBodyCases(job: Job, i: nat)
    requires Sound(job) && Touches(job, i) && job.slots[i].streaming && job.outcome == Running
    ensures var (read, verdict) := AfterBody(job, i);
            var slot := job.slots[i];
            if slot.Full() && !CanExtend(job, i) then
              if slot.responseRemaining > DL_DRAIN_MAX_BYTES
              then verdict == FinishSlot && read.slots[i] == slot.(keepAlive := false)
              else verdict == Keep && read.slots[i] == slot.(draining := true, streaming := false)
            else
              var end := if slot.Full() then NextReserveEnd(job, i) else slot.reservedEnd;
              && read.slots[i] == slot.(reservedEnd := end, rangeEnd := end) && !read.slots[i].Full()
              && (verdict == FinishSlot <==> slot.responseRemaining == 0 && slot.received > 0) && verdict != Failed
  {
    assert SlotOK(job.total, job.chunkSize, job.slots[i]);
    if CanExtend(job, i) {
      NextEndIsNextSegment(job, i);
    }
  }

  lemma StreamedSlot(job: Job, i: nat, data: seq<byte>, w: Writer)
    requires Sound(job) && Touches(job, i) && job.slots[i].streaming && job.outcome == Running
    requires !(BodyBytes(job, i, data) != map[] && w.failed)
    ensures var (read, verdict) := ReadSlot(job, i, data, w);
            var n := Prepare(job, i, |data|).1;
            && (GivesUp(job, i, |data|) ==> verdict == FinishSlot && !read.slots[i].keepAlive)
            && (!GivesUp(job, i, |data|) ==>
                  && GoesOn(job, i, |data|, read.slots[i])
                  && (read.slots[i].draining <==> GetsStuck(job, i, |data|))
                  && (verdict == FinishSlot <==>
                        !GetsStuck(job, i, |data|) && LeftOf(job.slots[i], n) == 0 && job.slots[i].received + n > 0)
                  && (read.slots[i].streaming ==> !read.slots[i].Full()))
  {
    WrittenSlot(job, i, data, w);
    WriteBodyKeepsSound(job, i, data, w);
    PrepareFits(job, i, |data|);
    AfterBodyCases(WriteBody(job, i, data, w), i);
    assert SlotOK(job.total, job.chunkSize, job.slots[i]);
  }

  /** A streaming slot behind a read that the writer has taken. When it is full and cannot
      grow it drains the rest of the response, or gives the connection up when that is too
      much; otherwise it finishes when the response is over, and goes on when it is not,
      always with room for the next byte. */
  lemma StreamingReadExactly(job: Job, i: nat, data: seq<byte>, next: Option<nat>, due: bool,
                             w1: Writer, w2: Writer, closed: bool, job': Job)
    requires Sound(job) && job.outcome == Running && Enabled(job, Read(i, data, next, due))
    requires job.slots[i].streaming && !WriteFails(job, Read(i, data, next, due), w1)
    requires Handles(job, Read(i, data, next, due), w1, w2, closed, job')
    ensures var n := Prepare(job, i, |data|).1;
            var over := LeftOf(job.slots[i], n) == 0 && job.slots[i].received + n > 0;
            && |job'.slots| == |job.slots|
            && (Finishes(job, Read(i, data, next, due), job') <==>
                  GivesUp(job, i, |data|) || (!GetsStuck(job, i, |data|) && over))
            && (job'.slots[i].draining <==> GetsStuck(job, i, |data|) && !GivesUp(job, i, |data|))
            && (job'.slots[i].streaming <==> !GetsStuck(job, i, |data|) && !over)
            && (job'.slots[i].streaming || job'.slots[i].draining ==> GoesOn(job, i, |data|, job'.slots[i]))
            && (job'.slots[i].streaming ==> !job'.slots[i].Full())
  {
    var (read, verdict) := ReadSlot(job, i, data, w1);
    ReadCases(job, i, data, next, due, w1, w2, closed, job');
    StreamedSlot(job, i, data, w1);
    if verdict == Keep {
      PersistIfKeepsSlot(read, i, due && !read.slots[i].draining, w2);
    } else {
      FinishedIsIdle(read, i, due, next, w2, closed);
    }
  }

  lemma FinishedIsIdle(job: Job, i: nat, due: bool, next: Option<nat>, w: Writer, closed: bool)
    requires Touches(job, i) && job.slots[i].received > 0
    ensures var after := Finish(job, i, due, next, w, closed);
            |after.slots| == |job.slots| && !after.slots[i].streaming && !after.slots[i].draining
  {
    var rested := MarkedAndRested(job, i, due, w);
    RestedSlot(job, i, due, w);
    FreeStaysFree(Release(rested, i), i, true, w, closed);
  }

  // -------- what becomes of a finished slot --------

  /** Some segment is neither done nor reserved by a slot other than `i`. */
  ghost predicate WorkLeft(job: Job, i: nat) {
    exists k: nat :: Choices(job, i).Eligible(k)
  }

  /** The connection is used for another segment when it may be and there is one, and else
      the slot is free. */
  ghost predicate ReusedOrFree(job: Job, i: nat, keep: bool, after: Job)
    requires i < |after.slots|
  {
    if keep && WorkLeft(after, i)
    then exists k: nat :: Choices(after, i).Eligible(k) && Requests(after, after.slots[i], k)
    else after.slots[i] == FREE_SLOT
  }

  /** Apart from slot `i`, the two jobs have the same progress and reservations. */
  lemma SameChoices(a: Job, b: Job, i: nat)
    requires |a.slots| == |b.slots| && a.done == b.done && a.total == b.total && a.chunkSize == b.chunkSize
    requires forall j | 0 <= j < |a.slots| && j != i :: a.slots[j] == b.slots[j]
    ensures forall k: nat :: Choices(a, i).Eligible(k) <==> Choices(b, i).Eligible(k)
  {
    forall start, end
      ensures Unreserved(a.slots, i, start, end) <==> Unreserved(b.slots, i, start, end)
    {
    }
  }

  lemma PicksSome(job: Job, i: nat, next: Option<nat>)
    requires Layout(job) && Picks(job, i, next)
    ensures next.Some? <==> WorkLeft(job, i)
    ensures next.Some? ==> Choices(job, i).Eligible(next.value)
  {
    var q := Choices(job, i);
    SelectedIsRight(job.strategy, |job.slots|, q, 1);
    if k: nat :| q.Eligible(k) {
      assert k in q.Candidates();
    }
    if next.Some? {
      assert Selected(job.strategy, |job.slots|, q, 1)[0] == next.value;
    }
  }

  lemma ReuseExactly(rested: Job, i: nat, next: Option<nat>)
    requires Sound(rested) && Touches(rested, i) && Picks(rested, i, next)
    ensures ReusedOrFree(rested, i, rested.slots[i].keepAlive, ReuseOrRelease(rested, i, next))
  {
    var after := ReuseOrRelease(rested, i, next);
    PicksSome(rested, i, next);
    SameChoices(rested, after, i);
    if rested.slots[i].keepAlive && next.Some? {
      EligibleIsReservable(rested, i, next.value);
      assert Requests(after, after.slots[i], next.value);
    }
  }

  /** A complete download has no work left. */
  lemma NoWorkLeft(job: Job, i: nat)
    requires AllDone(job)
    ensures !WorkLeft(job, i)
  {
    CompleteWhenEverySegmentIs(job.done, job.total, job.chunkSize);
  }

  lemma FinishReusesExactly(job: Job, i: nat, due: bool, next: Option<nat>, w: Writer, closed: bool)
    requires Sound(job) && Touches(job, i) && job.slots[i].received > 0 && job.outcome == Running
    requires Picks(MarkedAndRested(job, i, due, w), i, next)
    ensures var after := Finish(job, i, due, next, w, closed);
            |after.slots| == |job.slots| && ReusedOrFree(job, i, job.slots[i].keepAlive, after)
  {
    var rested := MarkedAndRested(job, i, due, w);
    MarkedAndRestedKeepsSound(job, i, due, w);
    RestedSlot(job, i, due, w);
    if AllDone(rested) {
      FinalizedIsFree(rested, i, w, closed);
    } else {
      ReuseExactly(rested, i, next);
    }
  }

  lemma FinalizedIsFree(job: Job, i: nat, w: Writer, closed: bool)
    requires i < |job.slots| && AllDone(job)
    ensures var after := Finalize(Release(job, i), w, closed);
            |after.slots| == |job.slots| && after.slots[i] == FREE_SLOT && !WorkLeft(after, i)
  {
    var released := Release(job, i);
    assert Persist(released, w).slots[i] == FREE_SLOT;
    NoWorkLeft(Finalize(released, w, closed), i);
  }

  lemma RestedSlot(job: Job, i: nat, due: bool, w: Writer)
    requires i < |job.slots|
    ensures var rested := MarkedAndRested(job, i, due, w);
            |rested.slots| == |job.slots| && rested.slots[i].keepAlive == job.slots[i].keepAlive
  {
  }

  /** A slot that finishes a segment keeps its connection when the server lets it, unless too
      much of the response is left, and then takes the next segment if there is one. */
  lemma ReadReusesExactly(job: Job, i: nat, data: seq<byte>, next: Option<nat>, due: bool,
                          w1: Writer, w2: Writer, closed: bool, job': Job)
    requires Sound(job) && job.outcome == Running && Enabled(job, Read(i, data, next, due))
    requires Handles(job, Read(i, data, next, due), w1, w2, closed, job')
    requires Finishes(job, Read(i, data, next, due), job')
    ensures var gone := job.slots[i].streaming && GivesUp(job, i, |data|);
            |job'.slots| == |job.slots| && ReusedOrFree(job, i, job.slots[i].keepAlive && !gone, job')
  {
    var (read, verdict) := ReadSlot(job, i, data, w1);
    ReadCases(job, i, data, next, due, w1, w2, closed, job');
    if job.slots[i].streaming {
      StreamedSlot(job, i, data, w1);
    }
    FinishReusesExactly(read, i, due, next, w2, closed);
  }

  // -------- the slot behind the other events --------

  /** The slots that the event is not about keep everything; a persist only notes how far
      they have been marked. */
  ghost predicate OthersStay(job: Job, i: nat, after: Job) {
    && |after.slots| == |job.slots|
    && forall j | 0 <= j < |job.slots| && j != i ::
         after.slots[j] == job.slots[j].(persisted := after.slots[j].persisted)
  }

  lemma OthersStayThen(a: Job, i: nat, b: Job, c: Job)
    requires OthersStay(a, i, b) && OthersStay(b, i, c)
    ensures OthersStay(a, i, c)
  {
  }

  lemma PersistInPlace(job: Job, i: nat, w: Writer)
    ensures OthersStay(job, i, Persist(job, w)) && OthersStay(job, i, job.(file := w))
  {
  }

  lemma SameSlotsStay(job: Job, i: nat, after: Job, now: Job)
    requires OthersStay(job, i, after) && now.slots == after.slots
    ensures OthersStay(job, i, now)
  {
  }

  lemma PersistsInPlace(job: Job, i: nat, due: bool, w: Writer, closed: bool)
    ensures OthersStay(job, i, PersistIf(job, due, w)) && OthersStay(job, i, Finalize(job, w, closed))
    ensures OthersStay(job, i, FinalizeIfDone(job, w, closed))
  {
    PersistInPlace(job, i, w);
    SameSlotsStay(job, i, if job.outcome == Running then Persist(job, w) else job.(file := w),
                  Finalize(job, w, closed));
    SameSlotsStay(job, i, job.(file := w), job);
  }

  lemma MarkedAndRestedInPlace(job: Job, i: nat, due: bool, w: Writer)
    requires i < |job.slots|
    ensures OthersStay(job, i, MarkedAndRested(job, i, due, w))
  {
    var marked := MarkSegment(job, i, w);
    var rested := marked.(slots := marked.slots[i := Rested(marked.slots[i])]);
    assert OthersStay(job, i, rested);
    PersistsInPlace(rested, i, due, w, true);
    OthersStayThen(job, i, rested, PersistIf(rested, due, w));
  }

  lemma FinishRestedInPlace(rested: Job, i: nat, next: Option<nat>, w: Writer, closed: bool)
    requires i < |rested.slots|
    ensures OthersStay(rested, i, FinishRested(rested, i, next, w, closed))
  {
    var released := Release(rested, i);
    assert OthersStay(rested, i, released);
    PersistsInPlace(released, i, false, w, closed);
    OthersStayThen(rested, i, released, Finalize(released, w, closed));
  }

  lemma FinishInPlace(job: Job, i: nat, due: bool, next: Option<nat>, w: Writer, closed: bool)
    requires i < |job.slots|
    ensures OthersStay(job, i, Finish(job, i, due, next, w, closed))
  {
    if job.slots[i].received > 0 {
      var rested := MarkedAndRested(job, i, due, w);
      MarkedAndRestedInPlace(job, i, due, w);
      FinishRestedInPlace(rested, i, next, w, closed);
      OthersStayThen(job, i, rested, FinishRested(rested, i, next, w, closed));
    }
  }

  lemma WriteInPlace(job: Job, i: nat, data: seq<byte>, w: Writer)
    requires Sound(job) && Touches(job, i)
    ensures OthersStay(job, i, WriteBody(job, i, data, w))
  {
    PrepareFits(job, i, |data|);
  }

  lemma ReadInPlace(job: Job, i: nat, data: seq<byte>, w: Writer)
    requires Sound(job) && Touches(job, i)
    ensures OthersStay(job, i, ReadSlot(job, i, data, w).0)
  {
    if job.slots[i].streaming {
      var after := WriteBody(job, i, data, w);
      WriteInPlace(job, i, data, w);
      AfterBodyInPlace(after, i);
      OthersStayThen(job, i, after, AfterBody(after, i).0);
    }
  }

  lemma AfterBodyInPlace(job: Job, i: nat)
    requires i < |job.slots|
    ensures OthersStay(job, i, AfterBody(job, i).0)
  {
  }

  lemma CompleteInPlace(job: Job, i: nat, hadBody: bool, due: bool, w: Writer, closed: bool)
    requires i < |job.slots|
    ensures var after := CompleteSlot(job, i, hadBody, due, w, closed);
            OthersStay(job, i, after) && after.slots[i] == FREE_SLOT
  {
    var released := if hadBody && job.slots[i].received > 0 then Release(MarkSegment(job, i, w), i)
                    else Release(job, i).(file := w);
    var now := hadBody && job.slots[i].received > 0 && due && !AlreadyMarked(job, i);
    var kept := PersistIf(released, now, w);
    PersistsInPlace(released, i, now, w, closed);
    OthersStayThen(job, i, released, kept);
    PersistsInPlace(kept, i, now, w, closed);
    OthersStayThen(job, i, kept, FinalizeIfDone(kept, w, closed));
    FreeStaysFree(released, i, now, w, closed);
    FreeStaysFree(kept, i, now, w, closed);
  }

  /** The response starts: what is left of it, whether the connection may be used again, and
      what has arrived with the headers. */
  ghost predicate Starts(job: Job, i: nat, length: Option<nat>, keepAlive: bool, body: seq<byte>, slot: Slot)
    requires i < |job.slots|
  {
    var n := Prepare(Begin(job, i, length, keepAlive), i, |body|).1;
    var expected := if length.Some? then length.value else job.slots[i].responseRemaining;
    && slot.inUse && slot.headersReceived && slot.streaming && !slot.draining
    && slot.keepAlive == (job.slots[i].keepAlive && keepAlive)
    && slot.rangeStart == job.slots[i].rangeStart && slot.received == n
    && slot.responseRemaining == if expected > n then expected - n else 0
  }

  lemma HeadersStart(job: Job, i: nat, length: Option<nat>, keepAlive: bool, body: seq<byte>, w1: Writer, w2: Writer)
    requires Sound(job) && Touches(job, i) && !job.slots[i].headersReceived
    ensures var begun := Begin(job, i, length, keepAlive);
            var started := WriteBody(begun, i, body, w1);
            var after := PersistIf(started, started.outcome == Running, w2);
            && OthersStay(job, i, after)
            && (!(BodyBytes(begun, i, body) != map[] && w1.failed) ==>
                  Starts(job, i, length, keepAlive, body, after.slots[i]))
  {
    var begun := Begin(job, i, length, keepAlive);
    var started := WriteBody(begun, i, body, w1);
    BeginKeepsSound(job, i, length, keepAlive);
    WriteInPlace(begun, i, body, w1);
    OthersStayThen(job, i, begun, started);
    PersistsInPlace(started, i, started.outcome == Running, w2, true);
    OthersStayThen(job, i, started, PersistIf(started, started.outcome == Running, w2));
    PersistIfKeepsSlot(started, i, started.outcome == Running, w2);
    PrepareFits(begun, i, |body|);
    if !(BodyBytes(begun, i, body) != map[] && w1.failed) {
      WrittenSlot(begun, i, body, w1);
    }
  }

  /** An event touches its own slot only; a closed connection frees it, and a response starts
      with what its headers say. */
  lemma HandlerStaysInPlace(job: Job, e: Event, w1: Writer, w2: Writer, closed: bool, job': Job, i: nat)
    requires Sound(job) && Enabled(job, e) && !e.Crash? && !e.Restart? && Handles(job, e, w1, w2, closed, job')
    requires IsAbout(e, i)
    ensures OthersStay(job, i, job')
    ensures e.Close? || e.Abandon? ==> job'.slots[i] == FREE_SLOT
    ensures e.Headers? && !WriteFails(job, e, w1) ==> Starts(job, i, e.length, e.keepAlive, e.body, job'.slots[i])
  {
    match e
    case Headers(_, length, keepAlive, body) =>
      HeadersStart(job, i, length, keepAlive, body, w1, w2);
    case Read(_, data, next, due) =>
      var (read, verdict) := ReadSlot(job, i, data, w1);
      ReadInPlace(job, i, data, w1);
      PersistsInPlace(read, i, due && !read.slots[i].draining, w2, closed);
      FinishInPlace(read, i, due, next, w2, closed);
      OthersStayThen(job, i, read, job');
    case Close(_, rest, due, late) =>
      WriteInPlace(job, i, rest, w1);
      CompleteInPlace(Flush(job, i, rest, w1), i, HadBody(job.slots[i]) && !late, due, w2, closed);
      OthersStayThen(job, i, Flush(job, i, rest, w1), job');
    case Abandon(_, rest) =>
      WriteInPlace(job, i, rest, w1);
      OthersStayThen(job, i, Flush(job, i, rest, w1), job');
  }
}
