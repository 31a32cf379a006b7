/** The main results about whole runs of the engine: what the done set and state.json
    claim is on disk, a finished file is the resource, and reservations never meet. */
module EngineRuns {
  import opened Machine
  import opened ByteRanges
  import opened Segments
  import opened Writers
  import opened Engine
  import opened EngineInvariants
  import opened EngineContent
  import opened EngineAlignment

  // -------- what a handler does with the writer --------

  /** The writer is left as it was, and a file is moved only after a close that succeeded,
      with every byte accounted for. */
  ghost predicate Completes(after: Job, w: Writer) {
    && after.file == w
    && (after.outcome.Finished? ==> !w.failed && after.outcome.file == w.disk && |after.done| >= after.total)
  }

  lemma FinalizeCompletes(job: Job, w: Writer, closed: bool)
    requires !job.outcome.Finished?
    ensures Completes(Finalize(job, w, closed), w)
  {
  }

  lemma FinishCompletes(job: Job, i: nat, due: bool, next: Option<nat>, w: Writer, closed: bool)
    requires i < |job.slots| && !job.outcome.Finished?
    ensures Completes(Finish(job, i, due, next, w, closed), w)
  {
    var rested := MarkedAndRested(job, i, due, w);
    assert rested.file == w && rested.outcome == job.outcome;
    FinalizeCompletes(Release(rested, i), w, closed);
  }

  lemma MarkedAndReleasedLeaves(job: Job, i: nat, due: bool, w: Writer)
    requires i < |job.slots|
    ensures MarkedAndReleased(job, i, due, w).file == w && MarkedAndReleased(job, i, due, w).outcome == job.outcome
  {
  }

  lemma CompleteCompletes(job: Job, i: nat, hadBody: bool, due: bool, w: Writer, closed: bool)
    requires i < |job.slots| && !job.outcome.Finished?
    ensures Completes(CompleteSlot(job, i, hadBody, due, w, closed), w)
  {
    MarkedAndReleasedLeaves(job, i, due, w);
    FinalizeCompletes(MarkedAndReleased(job, i, due, w), w, closed);
    FinalizeCompletes(Release(job, i).(file := w), w, closed);
  }

  lemma {:induction false} AcquireAllLeaves(job: Job, sel: seq<nat>, connected: seq<bool>)
    requires |connected| == |sel| && !job.outcome.Finished?
    ensures var after := AcquireAll(job, sel, connected);
            after.file == job.file && after.saved == job.saved && !after.outcome.Finished?
    decreases |sel|
  {
    if sel != [] && FirstFree(job.slots) < |job.slots| {
      var slot := AcquiredSlot(SegmentStart(job.chunkSize, sel[0]), SegmentEndNat(job, sel[0]));
      var next := if connected[0] then job.(slots := job.slots[FirstFree(job.slots) := slot])
                  else job.(outcome := Stopped);
      AcquireAllLeaves(next, sel[1..], connected[1..]);
    }
  }

  lemma BodyDoesNotFinish(job: Job, i: nat, data: seq<byte>, w: Writer)
    requires Sound(job) && Touches(job, i) && !job.outcome.Finished?
    ensures !WriteBody(job, i, data, w).outcome.Finished?
  {
    PrepareFits(job, i, |data|);
  }

  lemma HandlerCompletes(job: Job, e: Event, w1: Writer, w2: Writer, closed: bool, job': Job)
    requires Sound(job) && Enabled(job, e) && !e.Crash? && !e.Restart? && job.outcome == Running
    requires Handles(job, e, w1, w2, closed, job')
    ensures Completes(job', w2)
  {
    match e
    case Schedule(sel, connected) =>
      FinalizeCompletes(job, w2, closed);
      AcquireAllLeaves(job.(file := w2), sel, connected);
    case Read(i, data, next, due) =>
      var read := ReadSlot(job, i, data, w1).0;
      BodyDoesNotFinish(job, i, data, w1);
      assert !read.outcome.Finished?;
      FinishCompletes(read, i, due, next, w2, closed);
    case Close(i, rest, due, late) =>
      BodyDoesNotFinish(job, i, rest, w1);
      CompleteCompletes(Flush(job, i, rest, w1), i, HadBody(job.slots[i]) && !late, due, w2, closed);
    case Abandon(i, rest) =>
      BodyDoesNotFinish(job, i, rest, w1);
    case Headers(i, length, keepAlive, body) =>
      BeginKeepsSound(job, i, length, keepAlive);
      BodyDoesNotFinish(Begin(job, i, length, keepAlive), i, body, w1);
    case SaveMetadata =>
    case WorkerRuns =>
    case Stop =>
  }

  // -------- the invariant --------

  ghost predicate OnDisk(offsets: set<int>, disk: Disk, resource: int -> byte) {
    forall o | o in offsets :: Stored(disk, o, Right(resource))
  }

  /** What state.json claims is on the disk, whatever has become of the writer. Unless the
      writer has failed, every done offset is on the disk with the byte of the resource, and
      every received one has at least been accepted by the writer. */
  ghost predicate Correct(job: Job, resource: int -> byte) {
    && Sound(job) && Aligned(job)
    && Inv(job.file) && BuffersAgree(job.file, Right(resource))
    && OnDisk(job.saved, job.file.disk, resource)
    && (!job.file.failed ==>
          && OnDisk(job.done, job.file.disk, resource)
          && forall o | Received(job, o) :: Stored(job.file.accepted, o, Right(resource)))
    && (job.outcome.Finished? ==> forall o | 0 <= o < job.total :: Stored(job.outcome.file, o, Right(resource)))
  }

  /** A byte that is on the disk is also in the sequential file. */
  lemma StoredIsAccepted(w: Writer, content: (int, byte) -> bool)
    requires Inv(w) && BuffersAgree(w, content) && !w.failed
    ensures forall o | Stored(w.disk, o, content) :: Stored(w.accepted, o, content)
  {
    var pending := if w.pending >= 0 then Image(w.Buf(w.pending)) else map[];
    StoredStays(w.disk, pending, content);
    StoredStays(w.disk + pending, Image(w.Buf(w.active)), content);
  }

  /** The writer at instant `k` of the drains: bytes that were on the disk before the event
      are still there, and unless it has failed everything handed over is accepted. */
  lemma IoKeepsContent(job: Job, e: Event, io: Io, content: (int, byte) -> bool, k: nat)
    requires Enabled(job, e) && IoRuns(job, e, io) && k < |io.drain|
    requires Inv(job.file) && BuffersAgree(job.file, content) && Agrees(EventBytes(job, e), content)
    ensures var w := io.drain[k].file;
            && Inv(w) && BuffersAgree(w, content) && KeepsContent(job.file, w, content)
            && (!w.failed ==> !job.file.failed && w.accepted == job.file.accepted + EventBytes(job, e))
  {
    var bytes, run := EventBytes(job, e), Files(io.drain);
    TraceKeepsInv(io.write, bytes);
    TraceKeepsContent(io.write, bytes, content, |io.write| - 1);
    TracePrefix(run, map[], k);
    TraceKeepsContent(run, map[], content, k);
    IdleTraceKeepsAccepted(run, k);
    KeepsContentTwice(job.file, run[0], run[k], content);
  }

  /** Offsets done or received before the event, and those it hands over, are in the
      sequential file at every instant of the drains. */
  lemma ClaimedIsAccepted(job: Job, e: Event, io: Io, resource: int -> byte, k: nat, o: int)
    requires Correct(job, resource) && Enabled(job, e) && IoRuns(job, e, io) && k < |io.drain|
    requires Agrees(EventBytes(job, e), Right(resource)) && !io.drain[k].file.failed
    requires o in job.done || Received(job, o) || o in EventBytes(job, e)
    ensures Stored(io.drain[k].file.accepted, o, Right(resource))
  {
    IoKeepsContent(job, e, io, Right(resource), k);
    StoredIsAccepted(job.file, Right(resource));
    StoredStays(job.file.accepted, EventBytes(job, e), Right(resource));
  }

  /** What a handler ends up claiming is accepted at every instant of its drains. */
  lemma AfterwardsIsAccepted(job: Job, e: Event, io: Io, job': Job, resource: int -> byte, k: nat)
    requires Correct(job, resource) && HandlerStep(job, e, io, job') && k < |io.drain|
    requires Agrees(EventBytes(job, e), Right(resource)) && !io.drain[k].file.failed
    ensures forall o | o in job'.done || Received(job', o) :: Stored(io.drain[k].file.accepted, o, Right(resource))
  {
    HandlerAccounts(job, e, Last(io.write), Last(io.drain).file, io.closed, Unrecorded(job, job'));
    assert forall o | Received(job', o) :: Received(Unrecorded(job, job'), o);
    forall o | o in job'.done || Received(job', o)
      ensures Stored(io.drain[k].file.accepted, o, Right(resource))
    {
      ClaimedIsAccepted(job, e, io, resource, k, o);
    }
  }

  /** At an instant where everything is drained and nothing has failed, all that the event
      ends up claiming is on the disk. */
  lemma DrainedIsOnDisk(job: Job, e: Event, io: Io, job': Job, resource: int -> byte, k: nat)
    requires Correct(job, resource) && HandlerStep(job, e, io, job') && k < |io.drain|
    requires Agrees(EventBytes(job, e), Right(resource)) && !io.drain[k].file.failed && io.drain[k].file.Drained()
    ensures OnDisk(job'.done, io.drain[k].file.disk, resource)
  {
    AfterwardsIsAccepted(job, e, io, job', resource, k);
    IoKeepsContent(job, e, io, Right(resource), k);
    DrainedDiskIsAccepted(io.drain[k].file);
  }

  lemma KeptOnDisk(offsets: set<int>, a: Writer, b: Writer, resource: int -> byte)
    requires OnDisk(offsets, a.disk, resource) && KeepsContent(a, b, Right(resource))
    ensures OnDisk(offsets, b.disk, resource)
  {
  }

  /** The done set only claims what is on the disk: a handler that marks offsets has
      waited for the drain. */
  lemma MarkedIsOnDisk(job: Job, e: Event, io: Io, job': Job, resource: int -> byte)
    requires Correct(job, resource) && HandlerStep(job, e, io, job')
    requires Agrees(EventBytes(job, e), Right(resource)) && !Last(io.drain).file.failed
    ensures OnDisk(job'.done, Last(io.drain).file.disk, resource)
    ensures forall o | Received(job', o) :: Stored(Last(io.drain).file.accepted, o, Right(resource))
  {
    var k := |io.drain| - 1;
    AfterwardsIsAccepted(job, e, io, job', resource, k);
    IoKeepsContent(job, e, io, Right(resource), k);
    if job'.done != job.done {
      DrainedIsOnDisk(job, e, io, job', resource, k);
    } else {
      KeptOnDisk(job.done, job.file, io.drain[k].file, resource);
    }
  }

  // -------- content before state --------

  /** The order that matters: at each instant of the drains, what state.json claims then is
      on the disk then. A save claims nothing that the drain before it has not flushed. */
  lemma {:induction false} DrainsSaveTruly(job: Job, e: Event, io: Io, job': Job, resource: int -> byte, k: nat)
    requires Correct(job, resource) && HandlerStep(job, e, io, job') && Agrees(EventBytes(job, e), Right(resource))
    requires k < |io.drain| && CleanSaves(io.drain, k)
    ensures OnDisk(io.drain[k].saved, io.drain[k].file.disk, resource)
    decreases k
  {
    IoKeepsContent(job, e, io, Right(resource), k);
    if k == 0 {
      KeptOnDisk(job.saved, job.file, io.drain[0].file, resource);
    } else {
      var before, now := io.drain[k - 1], io.drain[k];
      DrainsSaveTruly(job, e, io, job', resource, k - 1);
      if now.saved == before.saved {
        DrainStepKeeps(job, e, io, resource, k);
      } else {
        assert SaveStep(before, now, job.done, job'.done, SavesAnyway(e));
        assert !now.file.failed;
        if now.saved == job.done {
          KeptOnDisk(job.done, job.file, now.file, resource);
        } else {
          DrainedIsOnDisk(job, e, io, job', resource, k);
        }
      }
    }
  }

  lemma DrainStepKeeps(job: Job, e: Event, io: Io, resource: int -> byte, k: nat)
    requires Enabled(job, e) && IoRuns(job, e, io) && 0 < k < |io.drain|
    requires Inv(job.file) && BuffersAgree(job.file, Right(resource)) && Agrees(EventBytes(job, e), Right(resource))
    requires OnDisk(io.drain[k - 1].saved, io.drain[k - 1].file.disk, resource)
    ensures OnDisk(io.drain[k - 1].saved, io.drain[k].file.disk, resource)
  {
    var run := Files(io.drain);
    IoKeepsContent(job, e, io, Right(resource), k - 1);
    assert Step(run[k - 1], run[k], map[]);
    StepKeepsContent(run[k - 1], run[k], map[], Right(resource));
    KeptOnDisk(io.drain[k - 1].saved, run[k - 1], run[k], resource);
  }

  /** The same at every instant of the event: also while the body is handed over, and in
      the middle of a write of the worker. */
  lemma InstantsSaveTruly(job: Job, e: Event, io: Io, job': Job, resource: int -> byte, at: nat)
    requires Correct(job, resource) && HandlerStep(job, e, io, job') && Agrees(EventBytes(job, e), Right(resource))
    requires at < |Instants(job, io)| && CleanSaves(Instants(job, io), at)
    ensures OnDisk(Instants(job, io)[at].saved, Instants(job, io)[at].file.disk, resource)
  {
    var run, n := Instants(job, io), |io.write|;
    if at < n {
      TraceKeepsContent(io.write, EventBytes(job, e), Right(resource), at);
      KeptOnDisk(job.saved, job.file, io.write[at], resource);
    } else {
      var k := at - n + 1;
      assert run[at] == io.drain[k];
      forall j | 0 < j <= k && io.drain[j].saved != io.drain[j - 1].saved
        ensures !io.drain[j].file.failed
      {
        assert run[n + j - 1] == io.drain[j] && run[n + j - 2] == io.drain[j - 1];
      }
      DrainsSaveTruly(job, e, io, job', resource, k);
    }
  }

  // -------- one step --------

  lemma FullDoneSet(job: Job)
    requires Sound(job) && |job.done| >= job.total
    ensures forall o | 0 <= o < job.total :: o in job.done
  {
    FullWhenCounted(job.done, job.total);
  }

  lemma LastInstant(job: Job, e: Event, io: Io)
    requires Enabled(job, e) && IoRuns(job, e, io)
    ensures Last(Instants(job, io)) == Last(io.drain)
  {
  }

  lemma HandlerStepAligns(job: Job, e: Event, io: Io, job': Job)
    requires Sound(job) && Aligned(job) && HandlerStep(job, e, io, job')
    ensures Aligned(job') <==> !Skips(job, e)
  {
    HandlerAlignsUnlessItSkips(job, e, Last(io.write), Last(io.drain).file, io.closed, Unrecorded(job, job'));
    assert Aligned(job') <==> Aligned(Unrecorded(job, job'));
  }

  lemma HandlerKeepsCorrect(job: Job, e: Event, io: Io, job': Job, resource: int -> byte)
    requires Correct(job, resource) && HandlerStep(job, e, io, job')
    requires Honest(job, e, resource) && !Skips(job, e) && !SavesAfterError(job, e, io)
    ensures Correct(job', resource)
  {
    var w := Last(io.drain).file;
    EventBytesAreRight(job, e, resource);
    IoKeepsContent(job, e, io, Right(resource), |io.drain| - 1);
    HandlerStepKeepsSound(job, e, io, job');
    HandlerStepAligns(job, e, io, job');
    HandlerCompletes(job, e, Last(io.write), w, io.closed, Unrecorded(job, job'));
    LastInstant(job, e, io);
    InstantsSaveTruly(job, e, io, job', resource, |Instants(job, io)| - 1);
    if !w.failed {
      MarkedIsOnDisk(job, e, io, job', resource);
    }
    if job'.outcome.Finished? {
      FullDoneSet(job');
    }
  }

  /** The next session is correct when it starts from claims that are true of the disk. */
  lemma ResumedIsCorrect(job: Job, now: Instant, resource: int -> byte)
    requires Sound(job) && (forall o | o in now.saved :: 0 <= o < job.total)
    requires OnDisk(now.saved, now.file.disk, resource)
    ensures Correct(Resumed(job, now), resource)
  {
    ResumedIsSound(job, now);
    OpenedKeepsInv(now.file.disk);
  }

  /** A process killed at any instant of a handler, and started again. */
  lemma CrashKeepsCorrect(job: Job, during: Event, at: nat, io: Io, after: Job, resource: int -> byte)
    requires Correct(job, resource) && HandlerStep(job, during, io, after) && Honest(job, during, resource)
    requires at < |Instants(job, io)| && CleanSaves(Instants(job, io), at)
    ensures Correct(Resumed(job, Instants(job, io)[at]), resource)
  {
    EventBytesAreRight(job, during, resource);
    InstantsSaveTruly(job, during, io, after, resource, at);
    HandlerStepKeepsSound(job, during, io, after);
    SavedIsDone(job, during, io, after, if at < |io.write| then 0 else at - |io.write| + 1);
    ResumedIsCorrect(job, Instants(job, io)[at], resource);
  }

  lemma RestartKeepsCorrect(job: Job, io: Io, resource: int -> byte)
    requires Correct(job, resource) && Trace(io.write, map[]) && io.write[0] == job.file
    ensures Correct(Resumed(job, Instant(Last(io.write), job.saved)), resource)
  {
    TraceKeepsContent(io.write, map[], Right(resource), |io.write| - 1);
    KeptOnDisk(job.saved, job.file, Last(io.write), resource);
    ResumedIsCorrect(job, Instant(Last(io.write), job.saved), resource);
  }

  /** The end-to-end step: one event of an honest server that does not skip, and no save
      after a write error. */
  lemma StepKeepsCorrect(job: Job, e: Event, io: Io, job': Job, resource: int -> byte)
    requires Correct(job, resource) && Transition(job, e, io, job')
    requires Honest(job, e, resource) && !Skips(job, e) && !SavesAfterError(job, e, io)
    ensures Correct(job', resource)
  {
    match e
    case Crash(during, at) =>
      var after :| HandlerStep(job, during, io, after);
      CrashKeepsCorrect(job, during, at, io, after, resource);
    case Restart =>
      RestartKeepsCorrect(job, io, resource);
    case _ =>
      HandlerKeepsCorrect(job, e, io, job', resource);
  }

  // -------- runs --------

  datatype Run = Run(states: seq<Job>, events: seq<Event>, ios: seq<Io>)
  {
    /** Any interleaving of events, data, drops, worker progress and crashes. */
    ghost predicate Valid() {
      && |states| == |events| + 1 && |ios| == |events|
      && forall k | 0 <= k < |events| :: Transition(states[k], events[k], ios[k], states[k + 1])
    }

    /** Every range response carries the resource from the start of its range on. */
    ghost predicate FromHonestServer(resource: int -> byte) {
      |events| < |states| && forall k | 0 <= k < |events| :: Honest(states[k], events[k], resource)
    }

    ghost predicate NeverSkips() {
      |events| < |states| && forall k | 0 <= k < |events| :: !Skips(states[k], events[k])
    }

    /** State.json is never replaced while the writer has failed. */
    ghost predicate NeverSavesAfterError() {
      |events| < |states| && |events| == |ios|
      && forall k | 0 <= k < |events| :: !SavesAfterError(states[k], events[k], ios[k])
    }
  }

  /** A new download, or one resumed from progress that is true of the file on disk. */
  ghost predicate Started(job: Job, resource: int -> byte) {
    && Layout(job) && job.outcome == Running
    && (forall i | 0 <= i < |job.slots| :: job.slots[i] == FREE_SLOT)
    && (forall o | o in job.done :: 0 <= o < job.total)
    && job.saved <= job.done
    && job.file == Opened(job.file.disk)
    && OnDisk(job.done, job.file.disk, resource)
  }

  lemma StartedIsCorrect(job: Job, resource: int -> byte)
    requires Started(job, resource)
    ensures Correct(job, resource)
  {
    OpenedKeepsInv(job.file.disk);
  }

  /** For any server, over a whole run: reservations are pairwise disjoint unions of whole
      segments, and state.json never claims more than the done set. */
  lemma {:induction false} RunStaysSound(run: Run, k: nat)
    requires run.Valid() && Sound(run.states[0]) && k < |run.states|
    ensures Sound(run.states[k])
    decreases k
  {
    if k > 0 {
      RunStaysSound(run, k - 1);
      StepKeepsSound(run.states[k - 1], run.events[k - 1], run.ios[k - 1], run.states[k]);
    }
  }

  lemma GoodStep(run: Run, resource: int -> byte, k: nat)
    requires run.Valid() && run.FromHonestServer(resource) && run.NeverSkips() && run.NeverSavesAfterError()
    requires k < |run.events|
    ensures Transition(run.states[k], run.events[k], run.ios[k], run.states[k + 1])
    ensures Honest(run.states[k], run.events[k], resource)
    ensures !Skips(run.states[k], run.events[k]) && !SavesAfterError(run.states[k], run.events[k], run.ios[k])
  {
  }

  /** Over whole runs, with any write errors in them. */
  lemma {:induction false} RunStaysCorrect(run: Run, resource: int -> byte, k: nat)
    requires run.Valid() && Started(run.states[0], resource)
    requires run.FromHonestServer(resource) && run.NeverSkips() && run.NeverSavesAfterError()
    requires k < |run.states|
    ensures Correct(run.states[k], resource)
    decreases k
  {
    if k == 0 {
      StartedIsCorrect(run.states[0], resource);
    } else {
      RunStaysCorrect(run, resource, k - 1);
      GoodStep(run, resource, k - 1);
      StepKeepsCorrect(run.states[k - 1], run.events[k - 1], run.ios[k - 1], run.states[k], resource);
    }
  }

  /** Content before state: at every instant of every handler, whatever state.json claims at
      that instant is in the file at that instant, so a crash and a reload never treat an
      unwritten byte as done. */
  lemma SavedProgressIsOnDisk(run: Run, resource: int -> byte, k: nat, at: nat)
    requires run.Valid() && Started(run.states[0], resource)
    requires run.FromHonestServer(resource) && run.NeverSkips() && run.NeverSavesAfterError()
    requires k < |run.events| && !run.events[k].Crash? && !run.events[k].Restart?
    requires run.ios[k].drain != [] && at < |Instants(run.states[k], run.ios[k])|
    ensures var now := Instants(run.states[k], run.ios[k])[at];
            OnDisk(now.saved, now.file.disk, resource)
  {
    var job, e, io := run.states[k], run.events[k], run.ios[k];
    RunStaysCorrect(run, resource, k);
    GoodStep(run, resource, k);
    EventBytesAreRight(job, e, resource);
    InstantsSaveTruly(job, e, io, run.states[k + 1], resource, at);
  }

  // -------- in step --------

  lemma StepAlignsExactly(job: Job, e: Event, io: Io, job': Job)
    requires Sound(job) && Aligned(job) && Transition(job, e, io, job')
    ensures Aligned(job') <==> !Skips(job, e)
  {
    if !e.Crash? && !e.Restart? {
      HandlerStepAligns(job, e, io, job');
    }
  }

  lemma StepOf(run: Run, k: nat)
    requires run.Valid() && k < |run.events|
    ensures Transition(run.states[k], run.events[k], run.ios[k], run.states[k + 1])
    ensures run.NeverSkips() ==> !Skips(run.states[k], run.events[k])
  {
  }

  lemma AlignsNext(run: Run, k: nat)
    requires run.Valid() && k < |run.events| && Sound(run.states[k])
    requires run.NeverSkips() && Aligned(run.states[k])
    ensures Aligned(run.states[k + 1])
  {
    StepOf(run, k);
    StepAlignsExactly(run.states[k], run.events[k], run.ios[k], run.states[k + 1]);
  }

  lemma {:induction false} RunAligns(run: Run, k: nat)
    requires run.Valid() && Sound(run.states[0]) && Aligned(run.states[0]) && run.NeverSkips() && k < |run.states|
    ensures Aligned(run.states[k])
    decreases k
  {
    if k > 0 {
      RunAligns(run, k - 1);
      RunStaysSound(run, k - 1);
      AlignsNext(run, k - 1);
    }
  }

  /** For any server: all slots are in step with their responses throughout a run if and
      only if no event of the run skips. */
  lemma RunIsInStepExactly(run: Run)
    requires run.Valid() && Sound(run.states[0]) && Aligned(run.states[0])
    ensures run.NeverSkips() <==> forall k | 0 <= k < |run.states| :: Aligned(run.states[k])
  {
    if run.NeverSkips() {
      forall k | 0 <= k < |run.states|
        ensures Aligned(run.states[k])
      {
        RunAligns(run, k);
      }
    }
    if forall k | 0 <= k < |run.states| :: Aligned(run.states[k]) {
      forall k | 0 <= k < |run.events|
        ensures !Skips(run.states[k], run.events[k])
      {
        RunStaysSound(run, k);
        StepOf(run, k);
        assert Aligned(run.states[k]) && Aligned(run.states[k + 1]);
        StepAlignsExactly(run.states[k], run.events[k], run.ios[k], run.states[k + 1]);
      }
    }
  }

  // -------- nothing outside the file --------

  function InFile(total: nat): (int, byte) -> bool {
    (o, b) => 0 <= o < total
  }

  lemma BodyInFile(job: Job, i: nat, data: seq<byte>)
    requires Sound(job) && Touches(job, i) && job.slots[i].streaming
    ensures Agrees(BodyBytes(job, i, data), InFile(job.total))
  {
    PrepareFits(job, i, |data|);
    BodyBytesPlace(job, i, data);
    var wider := Prepare(job, i, |data|).0;
    assert SlotOK(job.total, job.chunkSize, wider.slots[i]);
  }

  lemma EventBytesInFile(job: Job, e: Event)
    requires Sound(job) && Enabled(job, e)
    ensures Agrees(EventBytes(job, e), InFile(job.total))
  {
    match e
    case Headers(i, length, keepAlive, body) =>
      BeginKeepsSound(job, i, length, keepAlive);
      BodyInFile(Begin(job, i, length, keepAlive), i, body);
    case Read(i, data, _, _) => if job.slots[i].streaming { BodyInFile(job, i, data); }
    case Close(i, rest, _, _) => if job.slots[i].streaming { BodyInFile(job, i, rest); }
    case Abandon(i, rest) => if job.slots[i].streaming { BodyInFile(job, i, rest); }
    case Crash(during, _) => EventBytesInFile(job, during);
    case _ =>
  }

  /** Whatever the server sends, the file never grows past the announced size. */
  ghost predicate Contained(job: Job) {
    && Sound(job) && Inv(job.file)
    && BuffersAgree(job.file, InFile(job.total)) && Agrees(job.file.disk, InFile(job.total))
    && (job.outcome.Finished? ==> Agrees(job.outcome.file, InFile(job.total)))
  }

  lemma InstantsInFile(job: Job, e: Event, io: Io, at: nat)
    requires Contained(job) && Enabled(job, e) && IoRuns(job, e, io) && at < |Instants(job, io)|
    ensures Agrees(Instants(job, io)[at].file.disk, InFile(job.total))
  {
    EventBytesInFile(job, e);
    if at < |io.write| {
      TraceKeepsContent(io.write, EventBytes(job, e), InFile(job.total), at);
    } else {
      IoKeepsContent(job, e, io, InFile(job.total), at - |io.write| + 1);
    }
  }

  lemma HandlerKeepsContained(job: Job, e: Event, io: Io, job': Job)
    requires Contained(job) && HandlerStep(job, e, io, job')
    ensures Contained(job')
  {
    var w := Last(io.drain).file;
    EventBytesInFile(job, e);
    IoKeepsContent(job, e, io, InFile(job.total), |io.drain| - 1);
    HandlerStepKeepsSound(job, e, io, job');
    HandlerCompletes(job, e, Last(io.write), w, io.closed, Unrecorded(job, job'));
  }

  lemma ResumedIsContained(job: Job, now: Instant)
    requires Sound(Resumed(job, now)) && Agrees(now.file.disk, InFile(job.total))
    ensures Contained(Resumed(job, now))
  {
    OpenedKeepsInv(now.file.disk);
  }

  lemma StepKeepsContained(job: Job, e: Event, io: Io, job': Job)
    requires Contained(job) && Transition(job, e, io, job')
    ensures Contained(job') && job'.total == job.total
  {
    StepKeepsSound(job, e, io, job');
    match e
    case Crash(during, at) =>
      InstantsInFile(job, during, io, at);
      ResumedIsContained(job, Instants(job, io)[at]);
    case Restart =>
      TraceKeepsContent(io.write, map[], InFile(job.total), |io.write| - 1);
      ResumedIsContained(job, Instant(Last(io.write), job.saved));
    case _ =>
      HandlerKeepsContained(job, e, io, job');
  }

  lemma {:induction false} RunStaysContained(run: Run, k: nat)
    requires run.Valid() && Contained(run.states[0]) && k < |run.states|
    ensures Contained(run.states[k]) && run.states[k].total == run.states[0].total
    decreases k
  {
    if k > 0 {
      RunStaysContained(run, k - 1);
      StepKeepsContained(run.states[k - 1], run.events[k - 1], run.ios[k - 1], run.states[k]);
    }
  }

  /** End to end: the file that is moved into place is the resource, byte for byte, with
      nothing before, between or behind. */
  lemma FinishedFileIsTheResource(run: Run, resource: int -> byte, k: nat)
    requires run.Valid() && Started(run.states[0], resource)
    requires Agrees(run.states[0].file.disk, InFile(run.states[0].total))
    requires run.FromHonestServer(resource) && run.NeverSkips() && run.NeverSavesAfterError()
    requires k < |run.states| && run.states[k].outcome.Finished?
    ensures var file := run.states[k].outcome.file;
            && (forall o :: o in file <==> 0 <= o < run.states[0].total)
            && (forall o | o in file :: file[o] == resource(o))
  {
    StartedIsCorrect(run.states[0], resource);
    RunStaysCorrect(run, resource, k);
    RunStaysContained(run, k);
    var file, total := run.states[k].outcome.file, run.states[0].total;
    forall o
      ensures o in file <==> 0 <= o < total
      ensures o in file ==> file[o] == resource(o)
    {
      if 0 <= o < total {
        assert Stored(file, o, Right(resource));
      }
      if o in file {
        assert InFile(total)(o, file[o]);
      }
    }
  }
}
