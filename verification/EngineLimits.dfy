/** Where the end-to-end property stops: exactly when a slot writes the wrong byte, exactly
    when a status save is safe, and two concrete runs, one that corrupts the file and one
    whose state.json claims a byte that a failed write has lost. */
module EngineLimits {
  import opened Machine
  import opened ByteRanges
  import opened Segments
  import opened SegmentSelect
  import opened Writers
  import opened Engine
  import opened EngineInvariants
  import opened EngineAlignment
  import opened EngineRuns
  import opened HandlerRuns

  // -------- exactness --------

  /** A slot that has lost `delivered - received` bytes writes every further byte that many
      places too early. */
  lemma OutOfStepWritesShifted(job: Job, i: nat, data: seq<byte>, resource: int -> byte)
    requires Sound(job) && Touches(job, i) && job.slots[i].streaming && data != [] && !job.slots[i].Full()
    requires HonestBody(data, job.slots[i].rangeStart + job.slots[i].delivered, resource)
    ensures job.slots[i].Position() in BodyBytes(job, i, data)
    ensures forall o | o in BodyBytes(job, i, data) ::
              BodyBytes(job, i, data)[o] == resource(o + job.slots[i].delivered - job.slots[i].received)
  {
    var n := Prepare(job, i, |data|).1;
    PrepareFits(job, i, |data|);
    BytesAt(job.slots[i].writeOffset + job.slots[i].received, data[..n]);
  }

  ghost predicate WritesRightBytes(job: Job, i: nat, data: seq<byte>, resource: int -> byte)
    requires i < |job.slots|
  {
    HonestBody(data, job.slots[i].rangeStart + job.slots[i].delivered, resource)
    ==> Agrees(BodyBytes(job, i, data), Right(resource))
  }

  /** Being in step is exactly what makes a body write right: the bytes land correctly for
      every resource if and only if the slot is in step. */
  lemma InStepIsExact(job: Job, i: nat, len: nat)
    requires Sound(job) && Touches(job, i) && job.slots[i].streaming && len > 0
    ensures InStep(job.slots[i])
            <==> forall data: seq<byte>, resource: int -> byte | |data| == len ::
                   WritesRightBytes(job, i, data, resource)
  {
    if InStep(job.slots[i]) {
      forall data: seq<byte>, resource: int -> byte | |data| == len
        ensures WritesRightBytes(job, i, data, resource)
      {
        if HonestBody(data, job.slots[i].rangeStart + job.slots[i].delivered, resource) {
          BodyIsRight(job, i, data, resource);
        }
      }
    } else {
      var at := job.slots[i].Position();
      var resource: int -> byte := (o: int) => if o == at then 1 else 0;
      var data: seq<byte> := seq(len, k => 0);
      OutOfStepWritesShifted(job, i, data, resource);
      assert !WritesRightBytes(job, i, data, resource);
    }
  }

  /** Event `e` takes body bytes on a slot that is in step with its response. */
  ghost predicate ActsInStep(job: Job, e: Event)
    requires Enabled(job, e)
  {
    match e
    case Read(i, _, _, _) => InStep(job.slots[i])
    case Close(i, _, _, _) => InStep(job.slots[i])
    case Abandon(i, _) => InStep(job.slots[i])
    case Crash(during, _) => ActsInStep(job, during)
    case _ => true
  }

  /** The event hands over nothing, or acts on a slot in step. */
  ghost predicate WritesInStep(job: Job, e: Event) {
    Enabled(job, e) && EventBytes(job, e) != map[] ==> ActsInStep(job, e)
  }

  ghost predicate WritesRight(job: Job, e: Event, resource: int -> byte) {
    Enabled(job, e) && Honest(job, e, resource) ==> Agrees(EventBytes(job, e), Right(resource))
  }

  /** A body that would be right for one resource is wrong for another, when the slot is out
      of step: the first byte it writes is not the one that belongs there. */
  lemma WrongForSome(job: Job, i: nat, data: seq<byte>) returns (resource: int -> byte)
    requires Sound(job) && Touches(job, i) && job.slots[i].streaming
    requires !InStep(job.slots[i]) && BodyBytes(job, i, data) != map[]
    ensures HonestBody(data, job.slots[i].rangeStart + job.slots[i].delivered, resource)
    ensures !Agrees(BodyBytes(job, i, data), Right(resource))
  {
    var slot, bytes := job.slots[i], BodyBytes(job, i, data);
    var first, at := slot.Position(), slot.rangeStart + slot.delivered;
    assert SlotOK(job.total, job.chunkSize, slot);
    PrepareFits(job, i, |data|);
    BodyBytesPlace(job, i, data);
    assert Prepare(job, i, |data|).1 > 0 by {
      assert data[..0] == [];
    }
    assert first in bytes;
    var wrong: byte := if bytes[first] == 0 then 1 else 0;
    resource := o => if o == first then wrong else if at <= o < at + |data| then data[o - at] else 0;
    assert !Right(resource)(first, bytes[first]);
  }

  lemma BodyIsRightExactly(job: Job, i: nat, data: seq<byte>)
    requires Sound(job) && Touches(job, i) && job.slots[i].streaming
    ensures (BodyBytes(job, i, data) != map[] ==> InStep(job.slots[i]))
            <==> forall resource :: WritesRightBytes(job, i, data, resource)
  {
    if BodyBytes(job, i, data) != map[] && !InStep(job.slots[i]) {
      var resource := WrongForSome(job, i, data);
      assert !WritesRightBytes(job, i, data, resource);
    } else {
      forall resource: int -> byte
        ensures WritesRightBytes(job, i, data, resource)
      {
        if HonestBody(data, job.slots[i].rangeStart + job.slots[i].delivered, resource) && InStep(job.slots[i]) {
          BodyIsRight(job, i, data, resource);
        }
      }
    }
  }

  /** One event: what it hands over is right for every resource that the server may be
      sending if and only if it hands over nothing or acts on a slot in step. */
  lemma EventIsRightExactly(job: Job, e: Event)
    requires Sound(job) && Enabled(job, e)
    ensures WritesInStep(job, e) <==> forall resource: int -> byte :: WritesRight(job, e, resource)
    decreases e
  {
    match e
    case Headers(i, length, keepAlive, body) => HeadersAreRight(job, i, length, keepAlive, body);
    case Read(i, data, _, _) => SlotIsRightExactly(job, e, i, data);
    case Close(i, rest, _, _) => SlotIsRightExactly(job, e, i, rest);
    case Abandon(i, rest) => SlotIsRightExactly(job, e, i, rest);
    case Crash(during, _) =>
      EventIsRightExactly(job, during);
      CrashIsRight(job, e);
    case _ => NothingIsRight(job, e);
  }

  lemma CrashIsRight(job: Job, e: Event)
    requires Enabled(job, e) && e.Crash?
    ensures WritesInStep(job, e) <==> WritesInStep(job, e.during)
    ensures forall resource: int -> byte :: WritesRight(job, e, resource) <==> WritesRight(job, e.during, resource)
  {
  }

  lemma NothingIsRight(job: Job, e: Event)
    requires Enabled(job, e) && EventBytes(job, e) == map[]
    ensures WritesInStep(job, e) && forall resource: int -> byte :: WritesRight(job, e, resource)
  {
  }

  lemma HeadersAreRight(job: Job, i: nat, length: Option<nat>, keepAlive: bool, body: seq<byte>)
    requires Sound(job) && Touches(job, i) && !job.slots[i].headersReceived
    ensures forall resource: int -> byte :: WritesRight(job, Headers(i, length, keepAlive, body), resource)
  {
    var begun := Begin(job, i, length, keepAlive);
    BeginKeepsSound(job, i, length, keepAlive);
    forall resource: int -> byte
      ensures WritesRight(job, Headers(i, length, keepAlive, body), resource)
    {
      if HonestBody(body, job.slots[i].rangeStart, resource) {
        BodyIsRight(begun, i, body, resource);
      }
    }
  }

  lemma SlotIsRightExactly(job: Job, e: Event, i: nat, data: seq<byte>)
    requires Sound(job) && Enabled(job, e)
    requires (e.Read? && e.slot == i && e.data == data) || ((e.Close? || e.Abandon?) && e.slot == i && e.rest == data)
    ensures WritesInStep(job, e) <==> forall resource: int -> byte :: WritesRight(job, e, resource)
  {
    if !job.slots[i].streaming {
      NothingIsRight(job, e);
    } else {
      BodyIsRightExactly(job, i, data);
      forall resource: int -> byte
        ensures WritesRight(job, e, resource) <==> WritesRightBytes(job, i, data, resource)
      {
      }
    }
  }

  /** Whole runs: all bytes handed over are right, for every resource, if and only if every
      event that hands over any acts on a slot in step. */
  lemma RunWritesRightExactly(run: Run)
    requires run.Valid() && Sound(run.states[0])
    ensures (forall k | 0 <= k < |run.events| :: WritesInStep(run.states[k], run.events[k]))
            <==> forall k, resource: int -> byte | 0 <= k < |run.events| ::
                   WritesRight(run.states[k], run.events[k], resource)
  {
    forall k | 0 <= k < |run.events|
      ensures WritesInStep(run.states[k], run.events[k])
          <==> forall resource: int -> byte :: WritesRight(run.states[k], run.events[k], resource)
    {
      RunStaysSound(run, k);
      StepOf(run, k);
      StepIsEnabled(run.states[k], run.events[k], run.ios[k], run.states[k + 1]);
      EventIsRightExactly(run.states[k], run.events[k]);
    }
  }

  lemma StepIsEnabled(job: Job, e: Event, io: Io, job': Job)
    requires Transition(job, e, io, job')
    ensures Enabled(job, e)
  {
  }

  // -------- a status save after a write error --------

  /** A drain during which nothing reaches the file: whatever is buffered is lost. */
  ghost function LosingDrain(w: Writer): seq<Writer> {
    var dropped := w.WithBuf(w.active, w.Buf(w.active).(data := []));
    if w.pending >= 0 then
      var freed := w.(failed := true, pending := -1, workerQueued := false, written := 0);
      [w, freed, freed.WithBuf(w.active, w.Buf(w.active).(data := []))]
    else if w.Buf(w.active).data == [] then [w]
    else if w.failed then [w, dropped]
    else
      var handed := Swapped(w).(pending := w.active, workerQueued := true);
      [w, handed, handed.(failed := true, pending := -1, workerQueued := false, written := 0)]
  }

  lemma LosingDrainRuns(w: Writer)
    requires Inv(w)
    ensures var run := LosingDrain(w);
            Trace(run, map[]) && run[0] == w && Last(run).Drained() && Last(run).disk == w.disk
  {
    var run := LosingDrain(w);
    if w.pending >= 0 {
      assert Complete(run[0], run[1], false);
      assert Discard(run[1], run[2]);
    } else if w.Buf(w.active).data != [] {
      if w.failed {
        assert Discard(run[0], run[1]);
      } else {
        assert HandOff(run[0], run[1]);
        assert Complete(run[1], run[2], false);
      }
    }
  }

  /** A handler that ran to its end: how the writer moved, and what the drains and saves did. */
  lemma MakesStep(job: Job, e: Event, write: seq<Writer>, drain: seq<Instant>, answered: bool,
                  job': Job)
    requires Enabled(job, e) && !e.Crash? && !e.Restart? && job.outcome == Running
    requires Trace(write, EventBytes(job, e)) && write[0] == job.file
    requires !Last(write).failed ==> Last(write).accepted == job.file.accepted + EventBytes(job, e)
    requires drain != [] && drain[0] == Instant(Last(write), job.saved) && Trace(Files(drain), map[])
    requires Handles(job, e, Last(write), Last(drain).file, true, Unrecorded(job, job'))
    requires Waits(job, Last(drain).file, job')
    requires Saves(drain, job.done, job'.done, SavesAnyway(e)) && Last(drain).saved == job'.saved
    requires MustRecord(job, e, Io(write, drain, true, answered), job')
    ensures Transition(job, e, Io(write, drain, true, answered), job')
  {
  }

  /** A drain and the save behind it. */
  ghost function SavedAfter(drain: seq<Writer>, before: set<int>, saved: set<int>): seq<Instant>
    requires drain != []
  {
    Lift(drain, before) + [Instant(Last(drain), saved)]
  }

  lemma SavedAfterDrain(drain: seq<Writer>, before: set<int>, done: set<int>, saved: set<int>, anyway: bool)
    requires Trace(drain, map[]) && Last(drain).Drained() && (!Last(drain).failed || anyway) && done <= saved
    ensures var run := SavedAfter(drain, before, saved);
            && Trace(Files(run), map[]) && run[0] == Instant(drain[0], before)
            && Last(run) == Instant(Last(drain), saved) && Saves(run, done, saved, anyway)
  {
    var run := SavedAfter(drain, before, saved);
    TraceSnoc(drain, Last(drain), map[]);
    assert Files(run) == drain + [Last(drain)];
    forall k | 0 < k < |run| && run[k].saved != run[k - 1].saved
      ensures SaveStep(run[k - 1], run[k], done, saved, anyway)
    {
      assert k == |drain|;
    }
  }

  /** What a status save may do from `job` on: persist, and save whatever the drain reports. */
  ghost predicate StatusSave(job: Job, run: seq<Instant>, after: Job) {
    && run != [] && run[0] == Now(job) && Last(run) == Now(after) && Trace(Files(run), map[])
    && Matches(Persist(job, after.file), after) && Waits(job, after.file, after)
    && Saves(run, job.done, after.done, true)
  }

  ghost predicate TruthfulThroughout(run: seq<Instant>, resource: int -> byte) {
    forall k | 0 <= k < |run| :: OnDisk(run[k].saved, run[k].file.disk, resource)
  }

  /** What it is going to claim. */
  ghost function StatusClaims(job: Job): set<int> {
    job.done + AllMarks(job.slots)
  }

  lemma PersistClaimsAll(job: Job, w: Writer)
    ensures var after := Persist(job, w);
            && after.file == w && after.outcome == job.outcome
            && after.saved == job.saved && after.done == StatusClaims(job)
  {
    if !HasUnpersisted(job.slots) {
      NoMarks(job.slots);
    }
  }

  /** The status save that meets a drain which loses everything. */
  ghost function LosingSave(job: Job): (step: (seq<Instant>, Job)) {
    var run := LosingDrain(job.file);
    (SavedAfter(run, job.saved, StatusClaims(job)), Persist(job, Last(run)).(saved := StatusClaims(job)))
  }

  lemma LosingSaveIsOne(job: Job)
    requires Inv(job.file) && job.outcome == Running
    ensures var (run, after) := LosingSave(job);
            && StatusSave(job, run, after) && after.saved == StatusClaims(job) && after.file.disk == job.file.disk
            && after.outcome == Running
  {
    var run := LosingDrain(job.file);
    LosingDrainRuns(job.file);
    PersistClaimsAll(job, Last(run));
    SavedAfterDrain(run, job.saved, job.done, StatusClaims(job), true);
  }

  lemma TruthStays(job: Job, run: seq<Instant>, after: Job, resource: int -> byte, k: nat)
    requires StatusSave(job, run, after) && k < |run| && job.saved <= job.done
    requires Inv(job.file) && BuffersAgree(job.file, Right(resource))
    requires OnDisk(StatusClaims(job), job.file.disk, resource)
    ensures OnDisk(run[k].saved, run[k].file.disk, resource)
  {
    PersistClaimsAll(job, after.file);
    ClaimsStayDone(run, job.done, after.done, true, k);
    TraceKeepsContent(Files(run), map[], Right(resource), k);
    KeptOnDisk(StatusClaims(job), job.file, run[k].file, resource);
  }

  /** Whatever becomes of its drain, a status save from `job` on is truthful at every instant. */
  ghost predicate SafeToSave(job: Job, resource: int -> byte) {
    forall run: seq<Instant>, after: Job | StatusSave(job, run, after) :: TruthfulThroughout(run, resource)
  }

  /** A status save marks first, waits for the write of what it has marked, and saves however
      that went. It is safe if and only if all that it is going to claim is in the file before. */
  lemma StatusSaveIsSafeExactly(job: Job, resource: int -> byte)
    requires job.outcome == Running && job.saved <= job.done
    requires Inv(job.file) && BuffersAgree(job.file, Right(resource))
    ensures SafeToSave(job, resource) <==> OnDisk(StatusClaims(job), job.file.disk, resource)
  {
    if OnDisk(StatusClaims(job), job.file.disk, resource) {
      forall run: seq<Instant>, after: Job | StatusSave(job, run, after)
        ensures TruthfulThroughout(run, resource)
      {
        forall k | 0 <= k < |run|
          ensures OnDisk(run[k].saved, run[k].file.disk, resource)
        {
          TruthStays(job, run, after, resource, k);
        }
      }
    }
    var (losing, lost) := LosingSave(job);
    LosingSaveIsOne(job);
    if SafeToSave(job, resource) {
      assert TruthfulThroughout(losing, resource);
      assert Last(losing) == Now(lost);
    }
  }

  // -------- the events that save a status --------

  /** Between two callbacks the event is a status save, after whatever the worker does first. */
  lemma SaveMetadataIsAStatusSave(job: Job, io: Io, after: Job)
    requires HandlerStep(job, SaveMetadata, io, after)
    ensures StatusSave(job.(file := Last(io.write)), io.drain, after)
  {
    assert Persist(job.(file := Last(io.write)), after.file) == Persist(job, after.file);
  }

  /** And every status save is such an event. */
  lemma StatusSaveIsAnEvent(job: Job, run: seq<Instant>, after: Job)
    requires job.outcome == Running && StatusSave(job, run, after)
    ensures Transition(job, SaveMetadata, Io([job.file], run, true, false), after)
  {
    PersistClaimsAll(job, after.file);
    assert job.file.accepted + map[] == job.file.accepted;
    MakesStep(job, SaveMetadata, [job.file], run, false, after);
  }

  /** The same condition for the event: it leaves state.json truthful for every outcome if and
      only if its claims are in the file before. */
  lemma SaveMetadataIsSafeExactly(job: Job, resource: int -> byte)
    requires job.outcome == Running && job.saved <= job.done
    requires Inv(job.file) && BuffersAgree(job.file, Right(resource))
    ensures (forall io: Io, after: Job | Transition(job, SaveMetadata, io, after) ::
               OnDisk(after.saved, after.file.disk, resource))
            <==> OnDisk(StatusClaims(job), job.file.disk, resource)
  {
    if OnDisk(StatusClaims(job), job.file.disk, resource) {
      forall io: Io, after: Job | Transition(job, SaveMetadata, io, after)
        ensures OnDisk(after.saved, after.file.disk, resource)
      {
        MetadataStaysTrue(job, io, after, resource);
      }
    }
    var (losing, lost) := LosingSave(job);
    LosingSaveIsOne(job);
    StatusSaveIsAnEvent(job, losing, lost);
    if forall io: Io, after: Job | Transition(job, SaveMetadata, io, after) ::
         OnDisk(after.saved, after.file.disk, resource) {
      assert OnDisk(lost.saved, lost.file.disk, resource);
    }
  }

  lemma MetadataStaysTrue(job: Job, io: Io, after: Job, resource: int -> byte)
    requires HandlerStep(job, SaveMetadata, io, after) && job.saved <= job.done
    requires Inv(job.file) && BuffersAgree(job.file, Right(resource))
    requires OnDisk(StatusClaims(job), job.file.disk, resource)
    ensures OnDisk(after.saved, after.file.disk, resource)
  {
    var started := job.(file := Last(io.write));
    TraceKeepsContent(io.write, map[], Right(resource), |io.write| - 1);
    TraceKeepsInv(io.write, map[]);
    KeptOnDisk(StatusClaims(job), job.file, started.file, resource);
    SaveMetadataIsAStatusSave(job, io, after);
    TruthStays(started, io.drain, after, resource, |io.drain| - 1);
  }

  /** A save that has come due when a slot finishes or its connection closes runs on the job
      with the slot rested or released; the condition is the same there. */
  lemma DueSavesAreSafeExactly(job: Job, i: nat, resource: int -> byte)
    requires Touches(job, i) && job.outcome == Running && job.saved <= job.done
    requires Inv(job.file) && BuffersAgree(job.file, Right(resource))
    ensures var marked := MarkSegment(job, i, job.file);
            && var resting, released := RestingSlot(marked, i), Release(marked, i);
            && (SafeToSave(resting, resource) <==> OnDisk(StatusClaims(resting), job.file.disk, resource))
            && (SafeToSave(released, resource) <==> OnDisk(StatusClaims(released), job.file.disk, resource))
  {
    var marked := MarkSegment(job, i, job.file);
    StatusSaveIsSafeExactly(RestingSlot(marked, i), resource);
    StatusSaveIsSafeExactly(Release(marked, i), resource);
  }

  // -------- two runs --------

  // Six bytes in segments of one, over two connections that the balanced selector spreads.
  // The resource and what the file held before are arbitrary.

  ghost function One(r: int -> byte): seq<byte> { [r(0)] }

  ghost function Filled(disk: Disk, r: int -> byte): Writer {
    Opened(disk).(buf0 := SwapBuffer(0, One(r)), accepted := disk + Bytes(0, One(r)))
  }

  ghost function Queued(disk: Disk, r: int -> byte): Writer {
    Filled(disk, r).(active := 1, pending := 0, workerQueued := true)
  }

  ghost function OnFile(disk: Disk, r: int -> byte): Writer {
    Queued(disk, r).(disk := disk + Bytes(0, One(r)), written := 1)
  }

  /** The first byte is in the file, and the writer at rest. */
  ghost function Settled(disk: Disk, r: int -> byte): Writer {
    OnFile(disk, r).(pending := -1, workerQueued := false, written := 0)
  }

  ghost function Settling(disk: Disk, r: int -> byte): seq<Writer> {
    [Filled(disk, r), Queued(disk, r), OnFile(disk, r), Settled(disk, r)]
  }

  // The same for one byte `b` at offset 1, from a writer at rest with its second buffer active.

  ghost predicate AtRest(w: Writer) {
    w.active == 1 && w.pending == -1 && !w.workerQueued && !w.failed && w.written == 0 && w.buf1.data == []
  }

  ghost function Refilled(w: Writer, b: byte): Writer {
    w.(buf1 := SwapBuffer(1, [b]), accepted := w.accepted + Bytes(1, [b]))
  }

  ghost function Requeued(w: Writer, b: byte): Writer {
    Refilled(w, b).(active := 0, pending := 1, workerQueued := true, buf0 := w.buf0.(data := []))
  }

  ghost function BackOnFile(w: Writer, b: byte): Writer {
    Requeued(w, b).(disk := w.disk + Bytes(1, [b]), written := 1)
  }

  ghost function Resettled(w: Writer, b: byte): Writer {
    BackOnFile(w, b).(pending := -1, workerQueued := false, written := 0)
  }

  ghost function Resettling(w: Writer, b: byte): seq<Writer> {
    [Refilled(w, b), Requeued(w, b), BackOnFile(w, b), Resettled(w, b)]
  }

  const LEFT_SLOT: Slot := AcquiredSlot(0, 0)
  const RIGHT_SLOT: Slot := AcquiredSlot(3, 3)
  const OPEN_SLOT: Slot := LEFT_SLOT.(headersReceived := true, streaming := true, responseRemaining := 6)
  const STARTED_SLOT: Slot := OPEN_SLOT.(received := 1, delivered := 1, responseRemaining := 5)
  const FULL_SLOT: Slot := STARTED_SLOT.(persisted := 1)
  const SKIPPED_SLOT: Slot := FULL_SLOT.(reservedEnd := 1, rangeEnd := 1, delivered := 2)
  const FILLED_SLOT: Slot := SKIPPED_SLOT.(received := 2, delivered := 3, responseRemaining := 4)
  const SHIFTED_SLOT: Slot := FILLED_SLOT.(reservedEnd := 2, rangeEnd := 2)

  /** The left slot is `slot`, and the offsets `claims` are done and saved. */
  ghost function With(slot: Slot, claims: set<int>, w: Writer): Job {
    Job(6, 1, Balanced, [slot, RIGHT_SLOT], claims, claims, w, Running)
  }

  ghost function Begun(disk: Disk): Job {
    Job(6, 1, Balanced, [FREE_SLOT, FREE_SLOT], {}, {}, Opened(disk), Running)
  }

  /** Two buckets of three segments each: the balanced selector takes the first of both. */
  lemma SelectsTheFirsts(job: Job)
    requires job.total == 6 && job.chunkSize == 1 && job.done == {} && job.slots == [FREE_SLOT, FREE_SLOT]
    ensures Selected(Balanced, 2, Choices(job, -1), 2) == [0, 3]
  {
    var q := Choices(job, -1);
    assert SegmentCount(6, 1) == 6 && SegmentStart(1, 0) == 0 && SegmentStart(1, 3) == 3;
    assert SegmentEnd(6, 1, 0) == 0 && SegmentEnd(6, 1, 3) == 3;
    assert 0 !in job.done && 3 !in job.done;
    assert q.Eligible(0) && q.Eligible(3);
    assert BucketCount(2, 6) == 2 && BucketSize(2, 6) == 3;
    assert BucketStart(3, 0) == 0 && BucketStart(3, 1) == 3 && BucketStart(3, 2) == 6;
    assert FirstEligible(q, 0, 3) == Some(0) && FirstEligible(q, 3, 6) == Some(3);
    assert VisitTo(q, 3, 6, 2, 1) == [0];
    assert VisitTo(q, 3, 6, 2, 2) == [0, 3];
    FillStops(q, 2, [0, 3], 0, 6);
  }

  lemma TwoSlotsAreFree(job: Job)
    requires job.slots == [FREE_SLOT, FREE_SLOT]
    ensures SelectLimit(job) == 2
  {
    assert job.slots[..1] == [FREE_SLOT] && CountActive([FREE_SLOT]) == 0;
  }

  /** Nothing happens to the file or to state.json. */
  ghost function Still(w: Writer, saved: set<int>): Io {
    Io([w], [Instant(w, saved)], true, true)
  }

  lemma PassIsEnabled(job: Job)
    requires job.total == 6 && job.chunkSize == 1 && job.strategy == Balanced
    requires job.done == {} && job.slots == [FREE_SLOT, FREE_SLOT]
    ensures Enabled(job, Schedule([0, 3], [true, true]))
  {
    SelectsTheFirsts(job);
    TwoSlotsAreFree(job);
  }

  lemma Connects(disk: Disk)
    ensures Transition(Begun(disk), Schedule([0, 3], [true, true]), Still(Opened(disk), {}),
                       With(LEFT_SLOT, {}, Opened(disk)))
  {
    var job, w := Begun(disk), Opened(disk);
    PassIsEnabled(job);
    ConnectsBoth(job, [0, 3], [true, true]);
    assert 0 !in job.done;
    assert w.accepted + map[] == w.accepted;
    MakesStep(job, Schedule([0, 3], [true, true]), [w], [Instant(w, {})], true, With(LEFT_SLOT, {}, w));
  }

  lemma ConnectsBoth(job: Job, sel: seq<nat>, connected: seq<bool>)
    requires job.total == 6 && job.chunkSize == 1 && job.slots == [FREE_SLOT, FREE_SLOT]
    requires sel == [0, 3] && connected == [true, true]
    ensures AcquireAll(job, sel, connected) == job.(slots := [LEFT_SLOT, RIGHT_SLOT])
  {
    assert SegmentStart(1, 0) == 0 && SegmentStart(1, 3) == 3 && SegmentEnd(6, 1, 0) == 0 && SegmentEnd(6, 1, 3) == 3;
    assert FirstFree(job.slots) == 0;
    var half := job.(slots := job.slots[0 := LEFT_SLOT]);
    assert half.slots[1..] == [FREE_SLOT] && FirstFree([FREE_SLOT]) == 0;
    assert FirstFree(half.slots) == 1;
    assert half.slots[1 := RIGHT_SLOT] == [LEFT_SLOT, RIGHT_SLOT];
    assert AcquireAll(half, sel[1..], connected[1..]) == half.(slots := half.slots[1 := RIGHT_SLOT]);
  }

  /** A body that fits the reservation is written as it is. */
  lemma FittingBody(job: Job, at: nat, data: seq<byte>, w: Writer)
    requires job.slots != [] && at == job.slots[0].writeOffset + job.slots[0].received
    requires data != [] && !w.failed && job.slots[0].Position() + |data| <= job.slots[0].reservedEnd + 1
    ensures BodyBytes(job, 0, data) == Bytes(at, data)
    ensures WriteBody(job, 0, data, w) == Took(job, |data|, w)
  {
    assert ExtendFor(job, 0, |data|) == job;
    assert Prepare(job, 0, |data|) == (job, |data|);
    assert job.slots[0 := job.slots[0]] == job.slots;
    assert data[..|data|] == data;
    BodyWritten(job, 0, data, job, |data|, w);
  }

  /** The job after a body write, without the functions that lead to it. */
  ghost function Took(job: Job, n: nat, w: Writer): Job
    requires job.slots != []
  {
    job.(file := w, slots := job.slots[0 := Written(job.slots[0], n, n)])
  }

  lemma ProducerFills(disk: Disk, r: int -> byte)
    ensures Trace([Opened(disk), Filled(disk, r)], Bytes(0, One(r))) && Inv(Filled(disk, r))
  {
    assert Append(Opened(disk), Filled(disk, r), 0, One(r)) by {
      assert [] + One(r) == One(r);
    }
    assert Step(Opened(disk), Filled(disk, r), Bytes(0, One(r)));
    OpenedKeepsInv(disk);
    TracePrefix([Opened(disk), Filled(disk, r)], Bytes(0, One(r)), 1);
  }

  lemma WorkerWrites(disk: Disk, r: int -> byte)
    ensures Trace(Settling(disk, r), map[])
  {
    assert HandOff(Filled(disk, r), Queued(disk, r));
    assert One(r)[0..1] == One(r);
    assert Advance(Queued(disk, r), OnFile(disk, r), 1);
    assert Complete(OnFile(disk, r), Settled(disk, r), true);
  }

  /** The first body of a response, when it fits the reservation, and the status save behind it. */
  lemma HeadersArrive(job: Job, length: Option<nat>, data: seq<byte>, write: seq<Writer>, w: Writer,
                      drain: seq<Writer>, after: Job)
    requires Touches(job, 0) && !job.slots[0].headersReceived && job.outcome == Running && job.saved == job.done
    requires data != [] && !w.failed && job.slots[0].rangeStart + |data| <= job.slots[0].reservedEnd + 1
    requires Trace(write, Bytes(job.slots[0].rangeStart, data)) && write[0] == job.file && Last(write) == w
    requires w.accepted == job.file.accepted + Bytes(job.slots[0].rangeStart, data)
    requires Trace(drain, map[]) && drain[0] == w && Last(drain).Drained()
    requires var started := Took(Begin(job, 0, length, true), |data|, w);
             after == Persist(started, Last(drain)).(saved := StatusClaims(started))
    ensures Transition(job, Headers(0, length, true, data),
                       Io(write, SavedAfter(drain, job.saved, after.done), true, true), after)
  {
    var started := Took(Begin(job, 0, length, true), |data|, w);
    FittingBody(Begin(job, 0, length, true), job.slots[0].rangeStart, data, w);
    PersistClaimsAll(started, Last(drain));
    SavedAfterDrain(drain, job.saved, job.done, after.done, true);
    MakesStep(job, Headers(0, length, true, data), write, SavedAfter(drain, job.saved, after.done), true, after);
  }

  lemma TookFirst(job: Job, w: Writer)
    requires job == With(LEFT_SLOT, {}, job.file)
    ensures Took(Begin(job, 0, Some(6), true), 1, w) == With(STARTED_SLOT, {}, w)
  {
    var begun := Begin(job, 0, Some(6), true);
    assert begun == With(OPEN_SLOT, {}, job.file) by {
      assert job.slots[0 := OPEN_SLOT] == With(OPEN_SLOT, {}, job.file).slots;
    }
    assert begun.slots[0 := STARTED_SLOT] == With(STARTED_SLOT, {}, w).slots;
  }

  /** Marking slot 0 when it is the only one with something to mark. */
  lemma MarksLeft(job: Job)
    requires |job.slots| == 2 && job.slots[1] == RIGHT_SLOT && job.slots[0].Unpersisted()
    ensures AllMarks(job.slots) == SlotMarks(job.slots[0])
    ensures Persisted(job.slots) == [job.slots[0].(persisted := job.slots[0].received), RIGHT_SLOT]
  {
    var left := job.slots[..1];
    assert left[..0] == [] && left[0] == job.slots[0];
    assert AllMarks(left) == AllMarks([]) + SlotMarks(left[0]);
    assert AllMarks(job.slots) == AllMarks(left) + SlotMarks(job.slots[1]);
  }

  lemma MarksFirst(w: Writer, later: Writer)
    ensures Persist(With(STARTED_SLOT, {}, w), later).(saved := {0}) == With(FULL_SLOT, {0}, later)
    ensures StatusClaims(With(STARTED_SLOT, {}, w)) == {0}
  {
    MarksLeft(With(STARTED_SLOT, {}, w));
    assert {} + Interval(0, 0) == {0};
  }

  lemma FirstByteIsSaved(job: Job, data: seq<byte>, write: seq<Writer>, w: Writer, drain: seq<Writer>)
    requires job == With(LEFT_SLOT, {}, job.file) && !w.failed && |data| == 1
    requires Trace(write, Bytes(0, data)) && write[0] == job.file && Last(write) == w
    requires w.accepted == job.file.accepted + Bytes(0, data)
    requires Trace(drain, map[]) && drain[0] == w && Last(drain).Drained()
    ensures Transition(job, Headers(0, Some(6), true, data), Io(write, SavedAfter(drain, {}, {0}), true, true),
                       With(FULL_SLOT, {0}, Last(drain)))
  {
    TookFirst(job, w);
    MarksFirst(w, Last(drain));
    HeadersArrive(job, Some(6), data, write, w, drain, With(FULL_SLOT, {0}, Last(drain)));
  }

  /** The first byte arrives with the headers, fills the reservation exactly, and is saved
      behind the drain. */
  lemma ReceivesHeaders(disk: Disk, r: int -> byte, drain: seq<Writer>)
    requires Trace(drain, map[]) && drain[0] == Filled(disk, r) && Last(drain).Drained()
    ensures Transition(With(LEFT_SLOT, {}, Opened(disk)), Headers(0, Some(6), true, One(r)),
                       Io([Opened(disk), Filled(disk, r)], SavedAfter(drain, {}, {0}), true, true),
                       With(FULL_SLOT, {0}, Last(drain)))
  {
    ProducerFills(disk, r);
    FirstByteIsSaved(With(LEFT_SLOT, {}, Opened(disk)), One(r), [Opened(disk), Filled(disk, r)], Filled(disk, r),
                     drain);
  }

  /** A full slot takes nothing, whatever arrives. */
  lemma FullSlotDrops(job: Job, data: seq<byte>, w: Writer)
    requires job.slots != [] && job.slots[0].Full()
    ensures BodyBytes(job, 0, data) == map[]
    ensures WriteBody(job, 0, data, w)
         == job.(file := w, slots := job.slots[0 := Written(job.slots[0], 0, |data|)])
  {
    assert data[..0] == [];
    assert Prepare(job, 0, |data|) == (job, 0);
  }

  /** And then its reservation grows to `next`, when the segment behind it is free. */
  lemma FullSlotSkips(job: Job, data: seq<byte>, w: Writer, next: nat)
    requires job.slots != [] && job.slots[0].Full() && job.slots[0].streaming && job.outcome == Running
    requires job.slots[0].responseRemaining > 0 && NextReserveEnd(job, 0) == next > job.slots[0].reservedEnd
    ensures var slot := job.slots[0];
            var skipped := slot.(delivered := slot.delivered + |data|, reservedEnd := next, rangeEnd := next);
            ReadSlot(job, 0, data, w) == (job.(file := w, slots := job.slots[0 := skipped]), Keep)
  {
    var slot := job.slots[0];
    var dropped := job.(file := w, slots := job.slots[0 := Written(slot, 0, |data|)]);
    FullSlotDrops(job, data, w);
    SameReservationsExtendAlike(job, dropped, 0);
    assert Extend(dropped, 0).slots
        == job.slots[0 := slot.(delivered := slot.delivered + |data|, reservedEnd := next, rangeEnd := next)];
  }

  lemma SecondByteIsLost(job: Job, data: seq<byte>, w: Writer)
    requires job == With(FULL_SLOT, {0}, job.file) && |data| == 1
    ensures BodyBytes(job, 0, data) == map[]
    ensures ReadSlot(job, 0, data, w) == (With(SKIPPED_SLOT, {0}, w), Keep)
  {
    NextSegmentIsFree(job);
    FullSlotDrops(job, data, w);
    FullSlotSkips(job, data, w, 1);
    assert job.slots[0 := SKIPPED_SLOT] == With(SKIPPED_SLOT, {0}, w).slots;
  }

  /** The slot is full, so the second byte is dropped; then the reservation grows. */
  lemma SkipsAByte(job: Job, data: seq<byte>)
    requires job == With(FULL_SLOT, {0}, job.file) && |data| == 1
    ensures Transition(job, Read(0, data, None, false), Still(job.file, {0}), With(SKIPPED_SLOT, {0}, job.file))
  {
    SecondByteIsLost(job, data, job.file);
    assert job.file.accepted + map[] == job.file.accepted;
    MakesStep(job, Read(0, data, None, false), [job.file], [Instant(job.file, {0})], true,
              With(SKIPPED_SLOT, {0}, job.file));
  }

  lemma NextSegmentIsFree(job: Job)
    requires job.total == 6 && job.chunkSize == 1 && 1 !in job.done
    requires |job.slots| == 2 && job.slots[1] == RIGHT_SLOT && job.slots[0].reservedEnd == 0
    ensures NextReserveEnd(job, 0) == 1
  {
  }

  lemma ProducerRefills(w: Writer, b: byte)
    requires AtRest(w)
    ensures Trace([w, Refilled(w, b)], Bytes(1, [b]))
  {
    assert [] + [b] == [b];
    assert Append(w, Refilled(w, b), 1, [b]);
    assert Step(w, Refilled(w, b), Bytes(1, [b]));
  }

  lemma WorkerWritesAgain(w: Writer, b: byte)
    requires AtRest(w)
    ensures Trace(Resettling(w, b), map[])
  {
    assert HandOff(Refilled(w, b), Requeued(w, b));
    assert [b][0..1] == [b];
    assert Advance(Requeued(w, b), BackOnFile(w, b), 1);
    assert Complete(BackOnFile(w, b), Resettled(w, b), true);
  }

  lemma TookThird(job: Job, w: Writer)
    requires job == With(SKIPPED_SLOT, {0}, job.file)
    ensures Took(job, 1, w) == With(FILLED_SLOT, {0}, w)
  {
    assert job.slots[0 := FILLED_SLOT] == With(FILLED_SLOT, {0}, w).slots;
  }

  lemma ThirdByteIsKept(job: Job, data: seq<byte>, w: Writer)
    requires job == With(SKIPPED_SLOT, {0}, job.file) && !w.failed && |data| == 1
    ensures BodyBytes(job, 0, data) == Bytes(1, data)
    ensures ReadSlot(job, 0, data, w) == (With(SHIFTED_SLOT, {0}, w), Keep)
  {
    TookThird(job, w);
    ExtendsAgain(w);
    FittingBody(job, 1, data, w);
  }

  /** The third segment is free as well. */
  lemma ExtendsAgain(w: Writer)
    ensures AfterBody(With(FILLED_SLOT, {0}, w), 0) == (With(SHIFTED_SLOT, {0}, w), Keep)
  {
    var job := With(FILLED_SLOT, {0}, w);
    assert 2 !in job.done;
    assert NextReserveEnd(job, 0) == 2;
    assert job.slots[0 := SHIFTED_SLOT] == With(SHIFTED_SLOT, {0}, w).slots;
  }

  ghost function Claiming(w: Writer): Job {
    With(SHIFTED_SLOT.(persisted := 2), {0, 1}, w)
  }

  lemma MarksSecond(w: Writer, settled: Writer)
    ensures Persist(With(SHIFTED_SLOT, {0}, w), settled).(saved := {0, 1}) == Claiming(settled)
    ensures StatusClaims(With(SHIFTED_SLOT, {0}, w)) == {0, 1}
  {
    MarksLeft(With(SHIFTED_SLOT, {0}, w));
    assert {0} + Interval(1, 1) == {0, 1};
  }

  lemma ThirdByteArrives(job: Job, data: seq<byte>, write: seq<Writer>, w: Writer, drain: seq<Writer>)
    requires job == With(SKIPPED_SLOT, {0}, job.file) && !w.failed && |data| == 1
    requires Trace(write, Bytes(1, data)) && write[0] == job.file && Last(write) == w
    requires w.accepted == job.file.accepted + Bytes(1, data)
    requires Trace(drain, map[]) && drain[0] == w && !Last(drain).failed && Last(drain).Drained()
    ensures Transition(job, Read(0, data, None, true), Io(write, SavedAfter(drain, {0}, {0, 1}), true, true),
                       Claiming(Last(drain)))
  {
    ThirdByteIsKept(job, data, w);
    MarksSecond(w, Last(drain));
    PersistClaimsAll(With(SHIFTED_SLOT, {0}, w), Last(drain));
    SavedAfterDrain(drain, {0}, {0}, {0, 1}, true);
    MakesStep(job, Read(0, data, None, true), write, SavedAfter(drain, {0}, {0, 1}), true, Claiming(Last(drain)));
  }

  /** The third byte is written where the second belongs, marked and saved. */
  lemma WritesItInTheWrongPlace(w: Writer, third: byte)
    requires AtRest(w)
    ensures Transition(With(SKIPPED_SLOT, {0}, w), Read(0, [third], None, true),
                       Io([w, Refilled(w, third)], SavedAfter(Resettling(w, third), {0}, {0, 1}), true, true),
                       Claiming(Resettled(w, third)))
  {
    ProducerRefills(w, third);
    WorkerWritesAgain(w, third);
    ThirdByteArrives(With(SKIPPED_SLOT, {0}, w), [third], [w, Refilled(w, third)], Refilled(w, third),
                     Resettling(w, third));
  }

  /** A run with one more step. */
  ghost function Then(run: Run, e: Event, io: Io, job: Job): Run {
    Run(run.states + [job], run.events + [e], run.ios + [io])
  }

  ghost predicate HonestRun(run: Run, resource: int -> byte, last: Job) {
    run.Valid() && run.FromHonestServer(resource) && Started(run.states[0], resource) && Last(run.states) == last
  }

  lemma ThenAt(run: Run, e: Event, io: Io, job: Job, k: nat)
    requires run.Valid() && k < |run.events|
    ensures var longer := Then(run, e, io, job);
            && longer.states[k] == run.states[k] && longer.states[k + 1] == run.states[k + 1]
            && longer.events[k] == run.events[k] && longer.ios[k] == run.ios[k]
  {
  }

  lemma ThenIsHonest(run: Run, e: Event, io: Io, job: Job, resource: int -> byte, last: Job)
    requires HonestRun(run, resource, last) && Transition(last, e, io, job) && Honest(last, e, resource)
    ensures HonestRun(Then(run, e, io, job), resource, job)
    ensures run.NeverSkips() && !Skips(last, e) ==> Then(run, e, io, job).NeverSkips()
  {
    var longer := Then(run, e, io, job);
    forall k | 0 <= k < |longer.events|
      ensures Transition(longer.states[k], longer.events[k], longer.ios[k], longer.states[k + 1])
      ensures Honest(longer.states[k], longer.events[k], resource)
      ensures run.NeverSkips() && !Skips(last, e) ==> !Skips(longer.states[k], longer.events[k])
    {
      if k < |run.events| {
        StepOf(run, k);
        ThenAt(run, e, io, job, k);
      }
    }
  }

  lemma SendsTheFirst(w: Writer, r: int -> byte)
    ensures Honest(With(LEFT_SLOT, {}, w), Headers(0, Some(6), true, One(r)), r)
  {
    assert HonestBody(One(r), 0, r);
  }

  lemma SendsTheRest(w: Writer, r: int -> byte)
    ensures Honest(With(FULL_SLOT, {0}, w), Read(0, [r(1)], None, false), r)
    ensures Honest(With(SKIPPED_SLOT, {0}, w), Read(0, [r(2)], None, true), r)
  {
    assert HonestBody([r(1)], 1, r) && HonestBody([r(2)], 2, r);
  }

  ghost function Connected(disk: Disk): Run {
    Then(Run([Begun(disk)], [], []),
         Schedule([0, 3], [true, true]), Still(Opened(disk), {}), With(LEFT_SLOT, {}, Opened(disk)))
  }

  lemma ConnectedIsHonest(disk: Disk, r: int -> byte)
    ensures HonestRun(Connected(disk), r, With(LEFT_SLOT, {}, Opened(disk))) && Connected(disk).NeverSkips()
  {
    var run := Run([Begun(disk)], [], []);
    assert HonestRun(run, r, Begun(disk)) && run.NeverSkips();
    Connects(disk);
    ThenIsHonest(run, Schedule([0, 3], [true, true]), Still(Opened(disk), {}), With(LEFT_SLOT, {}, Opened(disk)), r,
                 Begun(disk));
  }

  /** Both connections are open, and the first byte has filled the left slot and been saved
      behind the given drain. */
  ghost function FirstByte(disk: Disk, r: int -> byte, drain: seq<Writer>): Run
    requires drain != []
  {
    Then(Connected(disk),
         Headers(0, Some(6), true, One(r)), Io([Opened(disk), Filled(disk, r)], SavedAfter(drain, {}, {0}), true, true),
         With(FULL_SLOT, {0}, Last(drain)))
  }

  lemma FirstByteArrives(disk: Disk, r: int -> byte, drain: seq<Writer>)
    requires Trace(drain, map[]) && drain[0] == Filled(disk, r) && Last(drain).Drained()
    ensures HonestRun(FirstByte(disk, r, drain), r, With(FULL_SLOT, {0}, Last(drain)))
    ensures FirstByte(disk, r, drain).NeverSkips()
  {
    ConnectedIsHonest(disk, r);
    ReceivesHeaders(disk, r, drain);
    SendsTheFirst(Opened(disk), r);
    ThenIsHonest(Connected(disk), Headers(0, Some(6), true, One(r)),
                 Io([Opened(disk), Filled(disk, r)], SavedAfter(drain, {}, {0}), true, true),
                 With(FULL_SLOT, {0}, Last(drain)), r, With(LEFT_SLOT, {}, Opened(disk)));
  }

  ghost function SecondByte(disk: Disk, r: int -> byte): Run {
    Then(FirstByte(disk, r, Settling(disk, r)),
         Read(0, [r(1)], None, false), Still(Settled(disk, r), {0}), With(SKIPPED_SLOT, {0}, Settled(disk, r)))
  }

  lemma SecondByteIsDropped(disk: Disk, r: int -> byte)
    ensures HonestRun(SecondByte(disk, r), r, With(SKIPPED_SLOT, {0}, Settled(disk, r)))
  {
    var w := Settled(disk, r);
    WorkerWrites(disk, r);
    FirstByteArrives(disk, r, Settling(disk, r));
    SkipsAByte(With(FULL_SLOT, {0}, w), [r(1)]);
    SendsTheRest(w, r);
    ThenIsHonest(FirstByte(disk, r, Settling(disk, r)), Read(0, [r(1)], None, false), Still(w, {0}),
                 With(SKIPPED_SLOT, {0}, w), r, With(FULL_SLOT, {0}, w));
  }

  ghost function SkippingRun(disk: Disk, r: int -> byte): Run {
    var w := Settled(disk, r);
    Then(SecondByte(disk, r),
         Read(0, [r(2)], None, true),
         Io([w, Refilled(w, r(2))], SavedAfter(Resettling(w, r(2)), {0}, {0, 1}), true, true),
         Claiming(Resettled(w, r(2))))
  }

  lemma SkippingRunIsHonest(disk: Disk, r: int -> byte)
    ensures HonestRun(SkippingRun(disk, r), r, Claiming(Resettled(Settled(disk, r), r(2))))
  {
    var w := Settled(disk, r);
    SecondByteIsDropped(disk, r);
    WritesItInTheWrongPlace(w, r(2));
    SendsTheRest(w, r);
    ThenIsHonest(SecondByte(disk, r), Read(0, [r(2)], None, true),
                 Io([w, Refilled(w, r(2))], SavedAfter(Resettling(w, r(2)), {0}, {0, 1}), true, true),
                 Claiming(Resettled(w, r(2))), r, With(SKIPPED_SLOT, {0}, w));
  }

  /** The end-to-end property is false of a run that skips: for every resource whose bytes 1
      and 2 differ, the server is honest and no write fails, yet state.json claims an offset
      that holds the wrong byte. */
  lemma SkippingCorruptsTheFile(disk: Disk, r: int -> byte)
    requires r(1) != r(2)
    ensures var run := SkippingRun(disk, r);
            && run.Valid() && Started(run.states[0], r) && run.FromHonestServer(r)
            && var last := Last(run.states);
               !last.file.failed && 1 in last.saved && !Stored(last.file.disk, 1, Right(r))
  {
    SkippingRunIsHonest(disk, r);
    BytesAt(1, [r(2)]);
    assert Resettled(Settled(disk, r), r(2)).disk[1] == r(2);
  }

  ghost function OverclaimingRun(disk: Disk, r: int -> byte): Run {
    FirstByte(disk, r, LosingDrain(Filled(disk, r)))
  }

  /** Content before state is false of a run that saves after a write error: the status save
      behind the first body meets a drain that loses the byte. Whatever the resource, and
      whenever the file did not already hold its first byte, state.json ends up claiming that
      byte although it is not in the file. Nothing is skipped in this run. */
  lemma SavingAfterAnErrorOverclaims(disk: Disk, r: int -> byte)
    requires !Stored(disk, 0, Right(r))
    ensures var run := OverclaimingRun(disk, r);
            && run.Valid() && Started(run.states[0], r) && run.FromHonestServer(r) && run.NeverSkips()
            && 0 in Last(run.states).saved && !Stored(Last(run.states).file.disk, 0, Right(r))
  {
    ProducerFills(disk, r);
    LosingDrainRuns(Filled(disk, r));
    FirstByteArrives(disk, r, LosingDrain(Filled(disk, r)));
  }
}
