/** The segment-mode download engine of src/download.c as a state machine. A `Job` holds
    the slots, the done set, the progress last saved to state.json and the asynchronous
    writer; an event is one callback of the network library, one scheduling pass, some
    progress of the writer's worker thread, or a crash of the process. */
module Engine {
  import opened Machine
  import opened ByteRanges
  import opened Segments
  import opened SegmentSelect
  import opened Writers

  const DL_DRAIN_MAX_BYTES: nat := DL_CHUNK_SIZE

  /** struct ChunkSlot, in segment mode. `delivered` is a history variable: how many body
      bytes of the present response have been handed to the slot, kept or dropped. */
  datatype Slot = Slot(
    inUse: bool,
    rangeStart: nat,
    rangeEnd: nat,
    reservedEnd: nat,
    writeOffset: nat,
    received: nat,
    responseRemaining: nat,
    persisted: nat,
    headersReceived: bool,
    streaming: bool,
    keepAlive: bool,
    draining: bool,
    delivered: nat)
  {
    /** The next offset to write. */
    function Position(): nat { rangeStart + received }

    /** The reservation is used up. */
    predicate Full() { Position() > reservedEnd }

    /** Body bytes kept that no persist has marked yet. */
    predicate Unpersisted() { inUse && streaming && received > persisted }
  }

  const FREE_SLOT := Slot(false, 0, 0, 0, 0, 0, 0, 0, false, false, false, false, 0)

  function AcquiredSlot(start: nat, end: nat): Slot {
    FREE_SLOT.(inUse := true, rangeStart := start, rangeEnd := end, reservedEnd := end, keepAlive := true)
  }

  /** slot_reset_for_request. */
  function ResetSlot(slot: Slot, start: nat, end: nat): Slot {
    FREE_SLOT.(inUse := slot.inUse, keepAlive := slot.keepAlive,
              rangeStart := start, rangeEnd := end, reservedEnd := end, writeOffset := start)
  }

  datatype Outcome = Running | Stopped | Finished(file: Disk)

  datatype Job = Job(
    total: nat,
    chunkSize: nat,
    strategy: Strategy,
    slots: seq<Slot>,
    done: set<int>,
    saved: set<int>,
    file: Writer,
    outcome: Outcome)

  // -------- reservations --------

  /** range_in_flight_predicate: no slot in use, other than `exclude`, overlaps. */
  predicate Unreserved(slots: seq<Slot>, exclude: int, start: int, end: int) {
    forall j | 0 <= j < |slots| && slots[j].inUse && j != exclude ::
      !RangesOverlap(start, end, slots[j].rangeStart, slots[j].reservedEnd)
  }

  /** segment_next_reserve_end for slot `i`. */
  ghost function NextReserveEnd(job: Job, i: nat): nat
    requires i < |job.slots|
  {
    var current := job.slots[i].reservedEnd;
    if current + 1 >= job.total then current
    else
      var limit := current + SegmentSize(job.chunkSize);
      var next := if limit > job.total - 1 then job.total - 1 else limit;
      if RangeDone(job.done, current + 1, next) then current
      else if !Unreserved(job.slots, i, current + 1, next) then current
      else next
  }

  ghost predicate CanExtend(job: Job, i: nat)
    requires i < |job.slots|
  {
    NextReserveEnd(job, i) > job.slots[i].reservedEnd
  }

  /** slot_try_extend_reservation, when it succeeds. */
  ghost function Extend(job: Job, i: nat): (extended: Job)
    requires i < |job.slots|
    ensures |extended.slots| == |job.slots|
  {
    var end := NextReserveEnd(job, i);
    job.(slots := job.slots[i := job.slots[i].(reservedEnd := end, rangeEnd := end)])
  }

  /** The loop of slot_prepare_write: extend chunk by chunk until `len` bytes fit. */
  ghost function ExtendFor(job: Job, i: nat, len: nat): (extended: Job)
    requires i < |job.slots|
    ensures |extended.slots| == |job.slots|
    decreases job.total - job.slots[i].reservedEnd
  {
    if job.slots[i].Position() + len > job.slots[i].reservedEnd + 1 && CanExtend(job, i)
    then ExtendFor(Extend(job, i), i, len)
    else job
  }

  function Min(a: int, b: int): int {
    if a < b then a else b
  }

  /** slot_prepare_write and the clamp of slot_write_body: the job with the extended
      reservation and the number of bytes that will be written. */
  ghost function Prepare(job: Job, i: nat, len: nat): (prepared: (Job, nat))
    requires i < |job.slots|
    ensures |prepared.0.slots| == |job.slots| && prepared.1 <= len
  {
    if job.slots[i].Full() || len == 0 then (job, 0)
    else
      var extended := ExtendFor(job, i, len);
      var room := extended.slots[i].reservedEnd + 1 - extended.slots[i].Position();
      (extended, if room < 0 then 0 else Min(len, room))
  }

  /** What slot_write_body hands to the writer. */
  ghost function BodyBytes(job: Job, i: nat, data: seq<byte>): Disk
    requires i < |job.slots|
  {
    var (extended, n) := Prepare(job, i, |data|);
    Bytes(job.slots[i].writeOffset + job.slots[i].received, data[..n])
  }

  /** slot_write_body, after which the writer is in state `w`. A write error fails the job. */
  ghost function WriteBody(job: Job, i: nat, data: seq<byte>, w: Writer): (written: Job)
    requires i < |job.slots|
    ensures |written.slots| == |job.slots|
  {
    var (extended, n) := Prepare(job, i, |data|);
    if n > 0 && w.failed then extended.(file := w, outcome := Stopped)
    else
      var slot := extended.slots[i];
      var remaining := if slot.responseRemaining >= n then slot.responseRemaining - n else 0;
      extended.(file := w,
                slots := extended.slots[i := slot.(received := slot.received + n,
                                                   responseRemaining := remaining,
                                                   delivered := slot.delivered + |data|)])
  }

  // -------- marking and finishing --------

  // The functions of this section say what becomes of the slots, the done set and the
  // outcome, with the writer in state `w` at the end. State.json they leave alone: what a
  // handler may save, and when, is the subject of `Saves` below.

  /** Marks offsets done. */
  ghost function Mark(job: Job, marks: set<int>, w: Writer): Job {
    job.(done := job.done + marks, file := w)
  }

  function SlotMarks(slot: Slot): set<int> {
    if slot.Unpersisted()
    then Interval(slot.writeOffset + slot.persisted, slot.writeOffset + slot.received - 1)
    else {}
  }

  /** The ranges persist_buffered_progress marks, over all slots. */
  function AllMarks(slots: seq<Slot>): set<int> {
    if slots == [] then {} else AllMarks(slots[..|slots| - 1]) + SlotMarks(slots[|slots| - 1])
  }

  function Persisted(slots: seq<Slot>): seq<Slot> {
    seq(|slots|, j requires 0 <= j < |slots| =>
      if slots[j].Unpersisted() then slots[j].(persisted := slots[j].received) else slots[j])
  }

  predicate HasUnpersisted(slots: seq<Slot>) {
    exists j :: 0 <= j < |slots| && slots[j].Unpersisted()
  }

  /** persist_buffered_progress. */
  ghost function Persist(job: Job, w: Writer): Job {
    if HasUnpersisted(job.slots)
    then Mark(job.(slots := Persisted(job.slots)), AllMarks(job.slots), w)
    else job.(file := w)
  }

  ghost predicate AllDone(job: Job) {
    job.total > 0 && RangeDone(job.done, 0, job.total - 1)
  }

  /** A throttled status save, when it is due, persists first. */
  ghost function PersistIf(job: Job, due: bool, w: Writer): Job {
    if due then Persist(job, w) else job.(file := w)
  }

  /** finalize_download: persist, close, check the byte count, move the file. */
  ghost function Finalize(job: Job, w: Writer, closed: bool): Job {
    if job.outcome != Running then job.(file := w)
    else
      var kept := Persist(job, w);
      if w.failed || !closed then kept.(outcome := Stopped)
      else if |kept.done| < kept.total then kept.(outcome := Stopped)
      else kept.(outcome := Finished(w.disk))
  }

  ghost function FinalizeIfDone(job: Job, w: Writer, closed: bool): Job {
    if AllDone(job) then Finalize(job, w, closed) else job
  }

  function Release(job: Job, i: nat): Job
    requires i < |job.slots|
  {
    job.(slots := job.slots[i := FREE_SLOT])
  }

  /** slot_mark_segment_done for a slot that has received something. */
  ghost function MarkSegment(job: Job, i: nat, w: Writer): (marked: Job)
    requires i < |job.slots|
    ensures |marked.slots| == |job.slots|
  {
    var slot := job.slots[i];
    var last := slot.rangeStart + slot.received - 1;
    if RangeDone(job.done, slot.rangeStart, last) then job.(file := w)
    else
      var noted := job.(slots := job.slots[i := slot.(persisted := slot.received)]);
      Mark(noted, Interval(slot.rangeStart, last), w)
  }

  /** The slot when its segment has been marked. */
  function Rested(slot: Slot): Slot {
    slot.(received := 0, draining := false, responseRemaining := 0)
  }

  /** slot_finish_continuous up to the status save behind the mark. */
  ghost function MarkedAndRested(job: Job, i: nat, due: bool, w: Writer): (rested: Job)
    requires i < |job.slots|
    ensures |rested.slots| == |job.slots|
  {
    var marked := MarkSegment(job, i, w);
    PersistIf(marked.(slots := marked.slots[i := Rested(marked.slots[i])]), due, w)
  }

  /** The rest of it: `next` is the segment picked for the reuse of the connection. */
  ghost function FinishRested(rested: Job, i: nat, next: Option<nat>, w: Writer, closed: bool): Job
    requires i < |rested.slots|
  {
    if AllDone(rested) then Finalize(Release(rested, i), w, closed) else ReuseOrRelease(rested, i, next)
  }

  ghost function ReuseOrRelease(rested: Job, i: nat, next: Option<nat>): Job
    requires i < |rested.slots|
  {
    if rested.slots[i].keepAlive && next.Some?
    then
      var start, end := SegmentStart(rested.chunkSize, next.value), SegmentEndNat(rested, next.value);
      rested.(slots := rested.slots[i := ResetSlot(rested.slots[i], start, end)])
    else Release(rested, i)
  }

  /** slot_finish_continuous. */
  ghost function Finish(job: Job, i: nat, due: bool, next: Option<nat>, w: Writer, closed: bool): Job
    requires i < |job.slots|
  {
    if job.slots[i].received == 0 then Release(job, i).(file := w)
    else FinishRested(MarkedAndRested(job, i, due, w), i, next, w, closed)
  }

  function SegmentEndNat(job: Job, k: nat): nat {
    var end := SegmentEnd(job.total, job.chunkSize, k);
    if end < 0 then 0 else end
  }

  // -------- the network callbacks --------

  /** begin_chunk_body up to the first write. */
  function Begin(job: Job, i: nat, length: Option<nat>, keepAlive: bool): Job
    requires i < |job.slots|
  {
    var slot := job.slots[i];
    job.(slots := job.slots[i := slot.(
      headersReceived := true,
      keepAlive := slot.keepAlive && keepAlive,
      responseRemaining := if length.Some? then length.value else slot.responseRemaining,
      streaming := true,
      writeOffset := slot.rangeStart,
      received := 0,
      delivered := 0)])
  }

  /** What remains to be done in the READ branch after the body was written. */
  datatype Verdict = Keep | FinishSlot | Failed

  /** The READ branch for a slot that streams: write, then extend, drain or finish. */
  ghost function AfterBody(job: Job, i: nat): (after: (Job, Verdict))
    requires i < |job.slots|
    ensures |after.0.slots| == |job.slots|
  {
    var slot := job.slots[i];
    if job.outcome != Running then (job, Failed)
    else if slot.Full() && !CanExtend(job, i) then
      if slot.responseRemaining > DL_DRAIN_MAX_BYTES
      then (job.(slots := job.slots[i := slot.(keepAlive := false)]), FinishSlot)
      else (job.(slots := job.slots[i := slot.(draining := true, streaming := false)]), Keep)
    else
      var open := if slot.Full() then Extend(job, i) else job;
      (open, if slot.responseRemaining == 0 && slot.received > 0 then FinishSlot else Keep)
  }

  /** The READ branch for a slot that only drains the rest of its response. */
  function AfterDiscard(job: Job, i: nat, len: nat): (Job, Verdict)
    requires i < |job.slots|
  {
    var slot := job.slots[i];
    var remaining := if slot.responseRemaining > len then slot.responseRemaining - len else 0;
    (job.(slots := job.slots[i := slot.(responseRemaining := remaining)]),
     if remaining == 0 then FinishSlot else Keep)
  }

  /** on_connection_closed after the flush, with the flags as they were before it. */
  ghost function CompleteSlot(job: Job, i: nat, hadBody: bool, due: bool, w: Writer, closed: bool): Job
    requires i < |job.slots|
  {
    if !hadBody then FinalizeIfDone(Release(job, i).(file := w), w, closed)
    else if job.slots[i].received == 0 then Release(job, i).(file := w)
    else FinalizeIfDone(MarkedAndReleased(job, i, due, w), w, closed)
  }

  ghost predicate AlreadyMarked(job: Job, i: nat)
    requires i < |job.slots|
  {
    RangeDone(job.done, job.slots[i].rangeStart, job.slots[i].rangeStart + job.slots[i].received - 1)
  }

  /** complete_chunk_slot: only a range that was not done yet is followed by a status save. */
  ghost function MarkedAndReleased(job: Job, i: nat, due: bool, w: Writer): Job
    requires i < |job.slots|
  {
    PersistIf(Release(MarkSegment(job, i, w), i), due && !AlreadyMarked(job, i), w)
  }

  // -------- scheduling --------

  function CountActive(slots: seq<Slot>): nat {
    if slots == [] then 0
    else CountActive(slots[..|slots| - 1]) + if slots[|slots| - 1].inUse then 1 else 0
  }

  function FirstFree(slots: seq<Slot>): (k: nat)
    ensures k <= |slots|
    ensures k < |slots| ==> !slots[k].inUse
    ensures forall j | 0 <= j < k :: slots[j].inUse
  {
    if slots == [] || !slots[0].inUse then 0 else 1 + FirstFree(slots[1..])
  }

  /** The loop of schedule_pending_chunks: a slot for every selected segment whose
      connection attempt succeeds. */
  function AcquireAll(job: Job, sel: seq<nat>, connected: seq<bool>): Job
    requires |connected| == |sel|
    decreases |sel|
  {
    if sel == [] || FirstFree(job.slots) == |job.slots| then job
    else
      var k := FirstFree(job.slots);
      var slot := AcquiredSlot(SegmentStart(job.chunkSize, sel[0]), SegmentEndNat(job, sel[0]));
      var next := if connected[0] then job.(slots := job.slots[k := slot]) else job.(outcome := Stopped);
      AcquireAll(next, sel[1..], connected[1..])
  }

  /** The predicate the selectors are called with. */
  function Accepting(slots: seq<Slot>, exclude: int): (int, int) -> bool {
    (start, end) => Unreserved(slots, exclude, start, end)
  }

  ghost function Choices(job: Job, exclude: int): Query {
    Query(job.done, job.total, job.chunkSize, Accepting(job.slots, exclude))
  }

  function SelectLimit(job: Job): nat {
    var free := |job.slots| - CountActive(job.slots);
    if free < 0 then 0 else Min(free, DL_MAX_SEGMENT_CONCURRENCY)
  }

  // -------- events --------

  /** `due` says whether the throttled save of the handler has come due. A close is `late` when
      the response has been parsed in the same callback: then its body does not count. A crash
      kills the process at instant `at` of the event `during`. */
  datatype Event =
    | Schedule(sel: seq<nat>, connected: seq<bool>)
    | Headers(slot: nat, length: Option<nat>, keepAlive: bool, body: seq<byte>)
    | Read(slot: nat, data: seq<byte>, next: Option<nat>, due: bool)
    | Close(slot: nat, rest: seq<byte>, due: bool, late: bool)
    | Abandon(slot: nat, rest: seq<byte>)
    | SaveMetadata
    | WorkerRuns
    | Stop
    | Crash(during: Event, at: nat)
    | Restart

  /** What a crash leaves behind: the file, as far as the writer has got, and the progress
      that state.json holds. */
  datatype Instant = Instant(file: Writer, saved: set<int>)

  /** What happens to the two inside one event: the run of the writer while the body is
      handed over, and the instants of the drains, the saves and the close behind it.
      `closed` says whether fsync, fclose and the move of the file succeed, `answered` whether
      the file system lets every save of state.json through. */
  datatype Io = Io(write: seq<Writer>, drain: seq<Instant>, closed: bool, answered: bool)

  function Files(run: seq<Instant>): seq<Writer> {
    seq(|run|, k requires 0 <= k < |run| => run[k].file)
  }

  function Lift(run: seq<Writer>, saved: set<int>): seq<Instant> {
    seq(|run|, k requires 0 <= k < |run| => Instant(run[k], saved))
  }

  function Now(job: Job): Instant {
    Instant(job.file, job.saved)
  }

  /** All instants of an event, in order. */
  function Instants(job: Job, io: Io): seq<Instant>
    requires io.drain != []
  {
    Lift(io.write, job.saved) + io.drain[1..]
  }

  ghost predicate Touches(job: Job, i: nat) {
    i < |job.slots| && job.slots[i].inUse
  }

  /** Which events can happen. Headers come once a request; data arrives on slots that
      stream or drain; a reused connection and a scheduling pass take what the selectors give. */
  ghost predicate Enabled(job: Job, e: Event) {
    match e
    case Schedule(sel, connected) =>
      && |connected| == |sel|
      && (!AllDone(job) ==> sel == Selected(job.strategy, |job.slots|, Choices(job, -1), SelectLimit(job)))
    case Headers(i, _, _, _) => Touches(job, i) && !job.slots[i].headersReceived
    case Read(i, data, next, _) =>
      && Touches(job, i) && (job.slots[i].streaming || job.slots[i].draining)
      && data != []
    case Close(i, _, _, late) => Touches(job, i) && (late ==> job.slots[i].headersReceived)
    case Abandon(i, _) => Touches(job, i)
    case Crash(during, _) => Enabled(job, during)
    case _ => true
  }

  /** The bytes the event hands to the writer. */
  ghost function EventBytes(job: Job, e: Event): Disk
    requires Enabled(job, e)
  {
    match e
    case Headers(i, length, keepAlive, body) => BodyBytes(Begin(job, i, length, keepAlive), i, body)
    case Read(i, data, _, _) => if job.slots[i].streaming then BodyBytes(job, i, data) else map[]
    case Close(i, rest, _, _) => if job.slots[i].streaming then BodyBytes(job, i, rest) else map[]
    case Abandon(i, rest) => if job.slots[i].streaming then BodyBytes(job, i, rest) else map[]
    case Crash(during, _) => EventBytes(job, during)
    case _ => map[]
  }

  /** The writer runs through `io`: everything handed over is accepted unless it fails. */
  ghost predicate IoRuns(job: Job, e: Event, io: Io)
    requires Enabled(job, e)
  {
    && Trace(io.write, EventBytes(job, e)) && io.write[0] == job.file
    && (!Last(io.write).failed ==> Last(io.write).accepted == job.file.accepted + EventBytes(job, e))
    && Trace(Files(io.drain), map[]) && io.drain[0] == Instant(Last(io.write), job.saved)
  }

  /** The segment for the reuse of slot `i`'s connection, or none when nothing is eligible. */
  ghost predicate Picks(job: Job, i: nat, next: Option<nat>) {
    var sel := Selected(job.strategy, |job.slots|, Choices(job, i), 1);
    next == if sel == [] then None else Some(sel[0])
  }

  /** The job when a streaming or draining slot has taken its data. */
  ghost function ReadSlot(job: Job, i: nat, data: seq<byte>, w: Writer): (read: (Job, Verdict))
    requires i < |job.slots|
    ensures |read.0.slots| == |job.slots|
  {
    if job.slots[i].streaming then AfterBody(WriteBody(job, i, data, w), i)
    else AfterDiscard(job.(file := w), i, |data|)
  }

  /** flush_recv_body when the connection closes with `rest` still in its buffer. */
  ghost function Flush(job: Job, i: nat, rest: seq<byte>, w: Writer): (flushed: Job)
    requires i < |job.slots|
    ensures |flushed.slots| == |job.slots|
  {
    if job.slots[i].streaming then WriteBody(job, i, rest, w) else job.(file := w)
  }

  function HadBody(slot: Slot): bool {
    slot.headersReceived && (slot.streaming || slot.received > 0)
  }

  /** The next session starts from state.json and the file on disk. */
  function Resumed(job: Job, now: Instant): Job {
    job.(slots := seq(|job.slots|, _ => FREE_SLOT), done := now.saved, saved := now.saved,
         file := Opened(now.file.disk), outcome := Running)
  }

  /** The job after the handler of `e` ran, apart from what state.json claims, with the writer
      in state `w1` when the body had been handed over and in state `w2` at the end. */
  ghost predicate Handles(job: Job, e: Event, w1: Writer, w2: Writer, closed: bool, job': Job)
    requires Enabled(job, e) && !e.Crash? && !e.Restart?
  {
    match e
    case Schedule(sel, connected) =>
      job' == if AllDone(job) then Finalize(job, w2, closed) else AcquireAll(job.(file := w2), sel, connected)
    case Headers(i, length, keepAlive, body) =>
      var started := WriteBody(Begin(job, i, length, keepAlive), i, body, w1);
      job' == PersistIf(started, started.outcome == Running, w2)
    case Read(i, data, next, due) =>
      var (read, verdict) := ReadSlot(job, i, data, w1);
      (match verdict
       case Failed => job' == read.(file := w2)
       case Keep => job' == PersistIf(read, due && !read.slots[i].draining, w2)
       case FinishSlot =>
         && (read.slots[i].received > 0 ==> Picks(MarkedAndRested(read, i, due, w2), i, next))
         && job' == Finish(read, i, due, next, w2, closed))
    case Close(i, rest, due, late) =>
      job' == CompleteSlot(Flush(job, i, rest, w1), i, HadBody(job.slots[i]) && !late, due, w2, closed)
    case Abandon(i, rest) => job' == Release(Flush(job, i, rest, w1), i).(file := w2)
    case SaveMetadata => job' == Persist(job, w2)
    case WorkerRuns => job' == job.(file := w2)
    case Stop => job' == job.(file := w2, outcome := Stopped)
  }

  /** The handlers wait for a drain before they let go of anything newly marked, and for
      the close before they move the file. */
  ghost predicate Waits(job: Job, w2: Writer, job': Job) {
    (job'.done != job.done || job'.outcome.Finished?) ==> w2.Drained()
  }

  /** The saves that do not ask how the drain before them went. */
  predicate SavesAnyway(e: Event) {
    e.SaveMetadata? || e.Headers? || (e.Read? && e.due) || (e.Close? && e.due)
  }

  /** A save of state.json between two instants: it claims what was done before the event and
      no more than is done by the end of it, new offsets only when everything is drained; and
      after a write error only the saves that do not ask claim anything. A save that fails
      leaves state.json as it was, and is no save here. */
  ghost predicate SaveStep(a: Instant, b: Instant, before: set<int>, after: set<int>, anyway: bool) {
    && b.file == a.file
    && before <= b.saved <= after && (b.saved == before || b.file.Drained())
    && (!b.file.failed || anyway)
  }

  ghost predicate Saves(run: seq<Instant>, before: set<int>, after: set<int>, anyway: bool) {
    forall k | 0 < k < |run| && run[k].saved != run[k - 1].saved :: SaveStep(run[k - 1], run[k], before, after, anyway)
  }

  /** `after` is recorded as far as it has marked anything that was not done in `before`. */
  predicate Recorded(before: Job, after: Job) {
    after.saved == after.done || (after.done == before.done && after.saved == before.saved)
  }

  /** The event ends with a status save, or has one behind all its marking. */
  predicate SavesStatus(e: Event, job': Job) {
    || e.SaveMetadata?
    || (e.Headers? && job'.outcome == Running)
    || (e.Read? && e.due && e.slot < |job'.slots| && !job'.slots[e.slot].headersReceived && !job'.file.failed)
  }

  /** What a handler has to save: whatever it marks, unless the drain behind the marking
      fails, and everything when it saves the status. */
  predicate MustRecord(job: Job, e: Event, io: Io, job': Job) {
    io.answered ==>
      && (!job'.file.failed ==> Recorded(job, job'))
      && (SavesStatus(e, job') ==> job'.saved == job'.done)
  }

  /** `after` with state.json as it was in `before`. */
  function Unrecorded(before: Job, after: Job): Job {
    after.(saved := before.saved)
  }

  /** A handler that runs to its end. */
  ghost predicate HandlerStep(job: Job, e: Event, io: Io, job': Job) {
    && Enabled(job, e) && !e.Crash? && !e.Restart?
    && IoRuns(job, e, io) && job.outcome == Running
    && Handles(job, e, Last(io.write), Last(io.drain).file, io.closed, Unrecorded(job, job'))
    && Waits(job, Last(io.drain).file, job')
    && Saves(io.drain, job.done, job'.done, SavesAnyway(e)) && Last(io.drain).saved == job'.saved
    && MustRecord(job, e, io, job')
  }

  /** One step of the engine: a handler that runs to its end, one that is killed at some
      instant of it, or a restart between handlers, before which the worker may still write. */
  ghost predicate Transition(job: Job, e: Event, io: Io, job': Job) {
    match e
    case Crash(during, at) =>
      exists after :: HandlerStep(job, during, io, after)
                      && at < |Instants(job, io)| && job' == Resumed(job, Instants(job, io)[at])
    case Restart =>
      && Trace(io.write, map[]) && io.write[0] == job.file && !job.outcome.Finished?
      && job' == Resumed(job, Instant(Last(io.write), job.saved))
    case _ => HandlerStep(job, e, io, job')
  }

  /** Up to instant `last` state.json is not replaced while the writer has failed. */
  ghost predicate CleanSaves(run: seq<Instant>, last: int) {
    forall j | 0 < j <= last && j < |run| && run[j].saved != run[j - 1].saved :: !run[j].file.failed
  }

  /** State.json is replaced although the writer has failed, during the part of the event
      that the process lives through. */
  ghost predicate SavesAfterError(job: Job, e: Event, io: Io) {
    && !e.Restart? && io.drain != []
    && !CleanSaves(Instants(job, io), if e.Crash? then e.at else |Instants(job, io)| - 1)
  }
}
