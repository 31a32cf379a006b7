/** The bookkeeping behind the handlers of the download job: what the instants that one
    handler adds to the job's timeline say, how they fit together, and how the loops of the
    handlers build up the values that module Engine defines. */
module HandlerRuns {
  import opened Machine
  import opened ByteRanges
  import opened Segments
  import opened SegmentSelect
  import opened Writers
  import opened Engine
  import opened EngineInvariants
  import opened EngineRuns
  import opened EngineProgress

  // -------- the timeline --------

  /** The instants from the end of `t` to the end of `t'`. */
  ghost function Since(t: seq<Instant>, t': seq<Instant>): (run: seq<Instant>)
    requires t != [] && t <= t'
    ensures run != [] && run[0] == Last(t) && Last(run) == Last(t') && t' == t + run[1..]
  {
    t'[|t| - 1..]
  }

  /** From job `a` to job `b` the writer took `bytes` unless it failed, and state.json stayed
      as it was. */
  ghost predicate HandsOver(t: seq<Instant>, a: Job, bytes: Disk, t': seq<Instant>, b: Job) {
    && t != [] && t <= t' && Last(t) == Now(a) && Last(t') == Now(b)
    && b.saved == a.saved && Since(t, t') == Lift(Files(Since(t, t')), a.saved)
    && Trace(Files(Since(t, t')), bytes)
    && (!b.file.failed ==> b.file.accepted == a.file.accepted + bytes)
  }

  /** From job `a` to job `b` nothing was handed over, and state.json was saved by the rules
      of the engine: a claim of anything that was not done in `a` waits for a drain, and when
      every save is `answered` nothing stays unrecorded whose drain went well. */
  ghost predicate Passes(t: seq<Instant>, a: Job, t': seq<Instant>, b: Job, anyway: bool, answered: bool) {
    && t != [] && t <= t' && Last(t) == Now(a) && Last(t') == Now(b)
    && Trace(Files(Since(t, t')), map[])
    && a.done <= b.done && Waits(a, b.file, b)
    && Saves(Since(t, t'), a.done, b.done, anyway)
    && (answered && !b.file.failed ==> Recorded(a, b))
  }

  /** A handler that ran to its end, with all its instants in the timeline. */
  ghost predicate Takes(t: seq<Instant>, job: Job, e: Event, io: Io, t': seq<Instant>, job': Job) {
    io.drain != [] && Transition(job, e, io, job') && t' == t + Instants(job, io)[1..]
  }

  lemma FilesOfLift(run: seq<Writer>, saved: set<int>)
    ensures Files(Lift(run, saved)) == run
  {
  }

  lemma NothingHappens(t: seq<Instant>, a: Job, anyway: bool)
    requires t != [] && Last(t) == Now(a)
    ensures HandsOver(t, a, map[], t, a)
    ensures !a.outcome.Finished? ==> Passes(t, a, t, a, anyway, true)
  {
    assert a.file.accepted + map[] == a.file.accepted;
  }

  /** What a call of the asynchronous file adds to the timeline. */
  lemma CallRecorded(t: seq<Instant>, a: Job, run: seq<Writer>, bytes: Disk, b: Job)
    requires t != [] && Last(t) == Now(a) && Trace(run, bytes) && run[0] == a.file
    requires b.file == Last(run) && b.saved == a.saved
    requires !b.file.failed ==> b.file.accepted == a.file.accepted + bytes
    ensures HandsOver(t, a, bytes, t + Lift(run, a.saved)[1..], b)
  {
    var t' := t + Lift(run, a.saved)[1..];
    FilesOfLift(run, a.saved);
    assert Since(t, t') == Lift(run, a.saved);
  }

  /** Without a save there is nothing to wait for. */
  lemma IdlePasses(t: seq<Instant>, a: Job, t': seq<Instant>, b: Job, anyway: bool)
    requires HandsOver(t, a, map[], t', b) && b.done == a.done && !b.outcome.Finished?
    ensures Passes(t, a, t', b, anyway, true)
  {
    var run := Since(t, t');
    forall k | 0 <= k < |run|
      ensures run[k].saved == a.saved
    {
      assert run[k] == Lift(Files(run), a.saved)[k];
    }
  }

  /** download_state_save, which may fail and then leaves state.json as it was. */
  ghost predicate MaySave(t: seq<Instant>, a: Job, t': seq<Instant>, b: Job, replaced: bool) {
    if replaced then b == a.(saved := a.done) && t' == t + [Now(b)] else b == a && t' == t
  }

  lemma SavePasses(t: seq<Instant>, a: Job, t': seq<Instant>, b: Job, anyway: bool, replaced: bool)
    requires t != [] && Last(t) == Now(a) && MaySave(t, a, t', b, replaced) && !b.outcome.Finished?
    requires !a.file.failed || anyway
    ensures Passes(t, a, t', b, anyway, replaced)
  {
    assert Since(t, t') == if t' == t then [Now(a)] else [Now(a), Now(b)];
  }

  /** A save that claims more than `before` waits for the drain. */
  lemma SaveOfNewPasses(t: seq<Instant>, a: Job, t': seq<Instant>, b: Job, before: set<int>, replaced: bool)
    requires t != [] && Last(t) == Now(a) && MaySave(t, a, t', b, replaced)
    requires before <= a.done && a.file.Drained() && !a.file.failed
    ensures Passes(t, a.(done := before), t', b, false, replaced)
  {
    assert Since(t, t') == if t' == t then [Now(a)] else [Now(a), Now(b)];
  }

  /** The drain and the save behind a marking; without the drain nothing is saved. */
  lemma DrainThenSave(t: seq<Instant>, job: Job, before: set<int>, mid: seq<Instant>, drained: Job,
                      t': seq<Instant>, after: Job, replaced: bool)
    requires HandsOver(t, job, map[], mid, drained) && drained == job.(file := drained.file)
    requires before <= job.done && drained.file.Drained() && !job.outcome.Finished?
    requires if drained.file.failed then after == drained && t' == mid else MaySave(mid, drained, t', after, replaced)
    ensures Passes(t, job.(done := before), t', after, false, replaced)
  {
    IdlePasses(t, job.(done := before), mid, drained.(done := before), false);
    if !drained.file.failed {
      SaveOfNewPasses(mid, drained, t', after, before, replaced);
      PassesThen(t, job.(done := before), mid, drained.(done := before), false, true, t', after, false, replaced);
    }
  }

  // -------- one after the other --------

  lemma SinceThen(t0: seq<Instant>, t1: seq<Instant>, t2: seq<Instant>)
    requires t0 != [] && t0 <= t1 <= t2
    ensures Since(t0, t2) == Since(t0, t1) + Since(t1, t2)[1..]
  {
  }

  lemma TraceThen(first: seq<Writer>, second: seq<Writer>, bytes: Disk)
    requires Trace(first, bytes) && Trace(second, bytes) && Last(first) == second[0]
    ensures Trace(first + second[1..], bytes)
  {
    var run := first + second[1..];
    forall k | 0 < k < |run|
      ensures Step(run[k - 1], run[k], bytes)
    {
      if k < |first| {
        assert Step(first[k - 1], first[k], bytes);
      } else {
        assert run[k] == second[k - |first| + 1];
        assert Step(second[k - |first|], second[k - |first| + 1], bytes);
      }
    }
  }

  /** A drained writer that is given nothing stays as it is. */
  lemma {:induction false} DrainedStays(run: seq<Writer>, k: nat)
    requires Trace(run, map[]) && run[0].Drained() && k < |run|
    ensures run[k] == run[0]
    decreases k
  {
    if k > 0 {
      DrainedStays(run, k - 1);
      assert Step(run[k - 1], run[k], map[]);
      forall at: nat, chunk: seq<byte> | chunk != []
        ensures !Within(Bytes(at, chunk), map[])
      {
        BytesAt(at, chunk);
        assert at in Bytes(at, chunk);
      }
    }
  }

  lemma DrainedPasses(t: seq<Instant>, a: Job, t': seq<Instant>, b: Job, anyway: bool)
    requires Passes(t, a, t', b, anyway, false) && a.file.Drained()
    ensures b.file == a.file
    ensures forall k | 0 <= k < |Since(t, t')| :: Since(t, t')[k].file == a.file
  {
    var run := Since(t, t');
    forall k | 0 <= k < |run|
      ensures run[k].file == a.file
    {
      DrainedStays(Files(run), k);
    }
  }

  /** The saves of the second part by the standard of the whole. */
  lemma SavesOfBoth(t0: seq<Instant>, a: Job, t1: seq<Instant>, b: Job, x: bool, t2: seq<Instant>, c: Job, y: bool,
                    k: nat)
    requires Passes(t0, a, t1, b, x, false) && Passes(t1, b, t2, c, y, false)
    requires var run := Since(t0, t2); 0 < k < |run| && run[k].saved != run[k - 1].saved
    ensures SaveStep(Since(t0, t2)[k - 1], Since(t0, t2)[k], a.done, c.done, x || y)
  {
    var first, second, run := Since(t0, t1), Since(t1, t2), Since(t0, t2);
    if k < |first| {
      assert run[k] == first[k] && run[k - 1] == first[k - 1];
    } else {
      var j := k - |first| + 1;
      assert run[k] == second[j] && run[k - 1] == second[j - 1];
      if b.done != a.done {
        DrainedPasses(t1, b, t2, c, y);
      }
    }
  }

  lemma {:induction false} FailureStays(run: seq<Writer>, bytes: Disk, k: nat)
    requires Trace(run, bytes) && run[0].failed && k < |run|
    ensures run[k].failed
    decreases k
  {
    if k > 0 {
      FailureStays(run, bytes, k - 1);
      assert Step(run[k - 1], run[k], bytes);
    }
  }

  lemma PassesThen(t0: seq<Instant>, a: Job, t1: seq<Instant>, b: Job, x: bool, p: bool,
                   t2: seq<Instant>, c: Job, y: bool, q: bool)
    requires Passes(t0, a, t1, b, x, p) && Passes(t1, b, t2, c, y, q)
    ensures Passes(t0, a, t2, c, x || y, p && q)
  {
    var first, second, run := Since(t0, t1), Since(t1, t2), Since(t0, t2);
    TraceThen(Files(first), Files(second), map[]);
    SinceThen(t0, t1, t2);
    assert Files(run) == Files(first) + Files(second)[1..];
    forall k | 0 < k < |run| && run[k].saved != run[k - 1].saved
      ensures SaveStep(run[k - 1], run[k], a.done, c.done, x || y)
    {
      SavesOfBoth(t0, a, t1, b, x, t2, c, y, k);
    }
    if b.file.Drained() {
      DrainedPasses(t1, b, t2, c, y);
    }
    if b.file.failed {
      FailureStays(Files(second), map[], |second| - 1);
    }
  }

  /** A weaker standard for the saves. */
  lemma PassesAnyway(t: seq<Instant>, a: Job, t': seq<Instant>, b: Job, anyway: bool, answered: bool)
    requires Passes(t, a, t', b, false, answered)
    ensures Passes(t, a, t', b, anyway, answered)
  {
  }

  ghost function IoOf(t: seq<Instant>, mid: seq<Instant>, t': seq<Instant>, closed: bool, answered: bool): Io
    requires t != [] && t <= mid <= t'
  {
    Io(Files(Since(t, mid)), Since(mid, t'), closed, answered)
  }

  /** The two parts of a handler make a step of the engine. */
  lemma TakesStep(t: seq<Instant>, job: Job, e: Event, mid: seq<Instant>, handed: Job, t': seq<Instant>,
                  closed: bool, answered: bool, job': Job)
    requires Enabled(job, e) && !e.Crash? && !e.Restart? && job.outcome == Running
    requires HandsOver(t, job, EventBytes(job, e), mid, handed) && handed.done == job.done
    requires Passes(mid, handed, t', job', SavesAnyway(e), answered)
    requires answered && SavesStatus(e, job') ==> job'.saved == job'.done
    requires Handles(job, e, handed.file, job'.file, closed, Unrecorded(job, job'))
    ensures Takes(t, job, e, IoOf(t, mid, t', closed, answered), t', job')
  {
    var io := IoOf(t, mid, t', closed, answered);
    SinceThen(t, mid, t');
    assert IoRuns(job, e, io) by {
      assert Last(io.write) == handed.file && io.drain[0] == Now(handed);
    }
    assert Saves(io.drain, job.done, job'.done, SavesAnyway(e));
    assert HandlerStep(job, e, io, job');
  }

  // -------- apart from state.json --------

  /** `job` is `spec`, apart from what state.json claims. */
  ghost predicate Matches(spec: Job, job: Job) {
    spec.(saved := job.saved) == job
  }

  /** The two jobs differ in the file and in what state.json claims, if at all. */
  ghost predicate Alike(a: Job, b: Job) {
    a.(file := b.file, saved := b.saved) == b
  }

  /** State.json never claims more than is done. */
  lemma {:induction false} ClaimsStayDone(run: seq<Instant>, before: set<int>, after: set<int>, anyway: bool, k: nat)
    requires k < |run| && Saves(run, before, after, anyway) && run[0].saved <= after
    ensures run[k].saved <= after
    decreases k
  {
    if k > 0 {
      ClaimsStayDone(run, before, after, anyway, k - 1);
    }
  }

  lemma MatchIsSound(t: seq<Instant>, a: Job, t': seq<Instant>, spec: Job, b: Job, anyway: bool)
    requires Passes(t, a, t', b, anyway, false) && a.saved <= a.done && Matches(spec, b) && Sound(spec)
    ensures Sound(b)
  {
    ClaimsStayDone(Since(t, t'), a.done, b.done, anyway, |Since(t, t')| - 1);
  }

  lemma PersistAlike(a: Job, b: Job, w: Writer)
    requires Alike(a, b)
    ensures Persist(b, w) == Persist(a, w).(saved := b.saved)
  {
  }

  lemma FinalizeAlike(a: Job, b: Job, w: Writer, closed: bool)
    requires Alike(a, b)
    ensures Finalize(b, w, closed) == Finalize(a, w, closed).(saved := b.saved)
    ensures AllDone(b) || a.file == b.file ==>
              FinalizeIfDone(b, w, closed) == FinalizeIfDone(a, w, closed).(saved := b.saved)
  {
    assert AllDone(b) <==> AllDone(a);
    PersistAlike(a, b, w);
  }

  /** A status save: persist, then save whatever the drain reported. */
  lemma StatusSavePasses(t: seq<Instant>, job: Job, mid: seq<Instant>, kept: Job, p: bool,
                         t': seq<Instant>, after: Job, q: bool)
    requires Passes(t, job, mid, kept, false, p) && Matches(Persist(job, kept.file), kept)
    requires Sound(job) && !job.outcome.Finished? && MaySave(mid, kept, t', after, q)
    ensures Passes(t, job, t', after, true, p && q) && Matches(Persist(job, after.file), after) && Sound(after)
    ensures q ==> after.saved == after.done
  {
    SavePasses(mid, kept, t', after, true, q);
    PassesThen(t, job, mid, kept, false, p, t', after, true, q);
    PersistKeepsSound(job, after.file);
    MatchIsSound(t, job, t', Persist(job, after.file), after, true);
  }

  /** The job when the file has been closed and its bytes have been counted. */
  function Counted(kept: Job, w: Writer, ok: bool): Job {
    kept.(file := w, outcome := if ok && |kept.done| >= kept.total then Finished(w.disk) else Stopped)
  }

  /** The persist, the close and the count at the end of a download. */
  lemma Finalized(t: seq<Instant>, job: Job, mid: seq<Instant>, kept: Job, t': seq<Instant>, after: Job,
                  closed: bool, answered: bool)
    requires Sound(job) && job.outcome == Running && AllDone(job)
    requires Matches(Persist(job, kept.file), kept) && Passes(t, job, mid, kept, false, answered)
    requires HandsOver(mid, kept, map[], t', after) && after.file.Drained()
    requires after == Counted(kept, after.file, !after.file.failed && closed)
    ensures Matches(Finalize(job, after.file, closed), after) && Sound(after)
    ensures Passes(t, job, t', after, false, answered)
  {
    var shut := kept.(file := after.file);
    IdlePasses(mid, kept, t', shut, false);
    PassesThen(t, job, mid, kept, false, answered, t', shut, false, true);
    assert 0 in kept.done;
    FinalizeKeepsSound(job, after.file, closed);
    MatchIsSound(t, job, t', Finalize(job, after.file, closed), after, false);
  }

  function RestingSlot(job: Job, i: nat): Job
    requires i < |job.slots|
  {
    job.(slots := job.slots[i := Rested(job.slots[i])])
  }

  /** Marking and resting, and the status save behind them. */
  lemma RestedMatches(job: Job, i: nat, due: bool, marked: Job, rested: Job)
    requires i < |job.slots| && Matches(MarkSegment(job, i, marked.file), marked)
    requires Matches(PersistIf(RestingSlot(marked, i), due, rested.file), rested)
    ensures Matches(MarkedAndRested(job, i, due, rested.file), rested)
  {
    PersistAlike(RestingSlot(MarkSegment(job, i, rested.file), i), RestingSlot(marked, i), rested.file);
  }

  /** The same for a slot whose connection has closed. */
  lemma ReleasedMatches(t: seq<Instant>, job: Job, i: nat, due: bool, mid: seq<Instant>, marked: Job,
                        p: bool, t': seq<Instant>, released: Job, q: bool)
    requires i < |job.slots| && Matches(MarkSegment(job, i, marked.file), marked)
    requires Matches(PersistIf(Release(marked, i), due && !AlreadyMarked(job, i), released.file), released)
    requires Passes(t, job, mid, marked, false, p)
    requires Passes(mid, Release(marked, i), t', released, due && !AlreadyMarked(job, i), q)
    ensures Matches(MarkedAndReleased(job, i, due, released.file), released) && released.outcome == job.outcome
    ensures Passes(t, job, t', released, due, p && q)
  {
    PassesThen(t, job, mid, marked, false, p, t', released, due && !AlreadyMarked(job, i), q);
    if !due || AlreadyMarked(job, i) {
      PassesAnyway(t, job, t', released, due, p && q);
    }
    PersistAlike(Release(MarkSegment(job, i, released.file), i), Release(marked, i), released.file);
  }

  /** Finishing behind that, with the writer as it is at the end. */
  lemma FinishedMatches(job: Job, i: nat, due: bool, next: Option<nat>, rested: Job, after: Job, closed: bool)
    requires i < |job.slots| && job.slots[i].received > 0
    requires Matches(MarkedAndRested(job, i, due, rested.file), rested)
    requires Picks(rested, i, next) && Matches(FinishRested(rested, i, next, after.file, closed), after)
    ensures Picks(MarkedAndRested(job, i, due, after.file), i, next)
    ensures Matches(Finish(job, i, due, next, after.file, closed), after)
  {
    var spec := MarkedAndRested(job, i, due, after.file);
    assert spec == MarkedAndRested(job, i, due, rested.file).(file := after.file);
    assert AllDone(spec) <==> AllDone(rested);
    FinalizeAlike(Release(spec, i), Release(rested, i), after.file, closed);
  }

  lemma CompletedMatches(job: Job, i: nat, due: bool, released: Job, after: Job, closed: bool)
    requires i < |job.slots| && job.slots[i].received > 0
    requires Matches(MarkedAndReleased(job, i, due, released.file), released)
    requires Matches(FinalizeIfDone(released, after.file, closed), after)
    ensures Matches(CompleteSlot(job, i, true, due, after.file, closed), after)
  {
    var spec := MarkedAndReleased(job, i, due, after.file);
    assert spec == MarkedAndReleased(job, i, due, released.file).(file := after.file);
    assert AllDone(spec) <==> AllDone(released);
    FinalizeAlike(spec, released, after.file, closed);
  }

  lemma EmptyCompletes(job: Job, i: nat, due: bool, after: Job, closed: bool)
    requires i < |job.slots| && Matches(FinalizeIfDone(Release(job, i), after.file, closed), after)
    ensures Matches(CompleteSlot(job, i, false, due, after.file, closed), after)
  {
    var freed := Release(job, i);
    assert AllDone(freed.(file := after.file)) <==> AllDone(freed);
    FinalizeAlike(freed, freed.(file := after.file), after.file, closed);
  }

  // -------- handlers --------

  lemma SomePick(job: Job, i: nat) returns (next: Option<nat>)
    ensures Picks(job, i, next)
  {
    var sel := Selected(job.strategy, |job.slots|, Choices(job, i), 1);
    next := if sel == [] then None else Some(sel[0]);
  }

  lemma ReceivedInFile(job: Job, i: nat)
    requires Sound(job) && Touches(job, i)
    ensures job.slots[i].rangeStart < U64_LIMIT
    ensures job.slots[i].received > 0 ==> job.slots[i].rangeStart + job.slots[i].received - 1 < job.total < U64_LIMIT
  {
    assert SlotOK(job.total, job.chunkSize, job.slots[i]);
  }

  /** The bytes a slot passes on to the writer. */
  ghost function TakenBytes(job: Job, i: nat, data: seq<byte>): Disk
    requires i < |job.slots|
  {
    if job.slots[i].streaming then BodyBytes(job, i, data) else map[]
  }

  /** What the READ branch ends with when it has taken the body. */
  ghost predicate Reacted(read: Job, i: nat, verdict: Verdict, next: Option<nat>, due: bool, closed: bool, job': Job)
    requires i < |read.slots|
  {
    match verdict
    case Failed => job' == read
    case Keep => Matches(PersistIf(read, due && !read.slots[i].draining, job'.file), job')
    case FinishSlot =>
      && (read.slots[i].received > 0 ==> Picks(MarkedAndRested(read, i, due, job'.file), i, next))
      && Matches(Finish(read, i, due, next, job'.file, closed), job')
  }

  lemma ReadTakesStep(t: seq<Instant>, job: Job, i: nat, data: seq<byte>, verdict: Verdict, next: Option<nat>,
                      due: bool, mid: seq<Instant>, read: Job, t': seq<Instant>, closed: bool, answered: bool,
                      job': Job)
    requires Sound(job) && Enabled(job, Read(i, data, next, due)) && job.outcome == Running
    requires (read, verdict) == ReadSlot(job, i, data, read.file)
    requires HandsOver(t, job, TakenBytes(job, i, data), mid, read)
    requires Passes(mid, read, t', job', due, answered) && Reacted(read, i, verdict, next, due, closed, job')
    requires verdict == FinishSlot && due && answered && !job'.file.failed ==> job'.saved == job'.done
    ensures Takes(t, job, Read(i, data, next, due), IoOf(t, mid, t', closed, answered), t', job')
  {
    ReadKeepsDone(job, i, data, read.file);
    FinishKeepsRecord(read, i, due, next, job'.file, closed);
    KeptSlotStays(job, i, data, verdict, next, due, read, closed, job');
    TakesStep(t, job, Read(i, data, next, due), mid, read, t', closed, answered, job');
  }

  lemma KeptSlotStays(job: Job, i: nat, data: seq<byte>, verdict: Verdict, next: Option<nat>, due: bool, read: Job,
                      closed: bool, job': Job)
    requires Sound(job) && Enabled(job, Read(i, data, next, due))
    requires (read, verdict) == ReadSlot(job, i, data, read.file) && Reacted(read, i, verdict, next, due, closed, job')
    ensures i < |job'.slots| && !job'.slots[i].headersReceived ==> verdict == FinishSlot
  {
    FinishedHasReceived(job, i, data, read.file);
  }

  lemma FinishKeepsRecord(job: Job, i: nat, due: bool, next: Option<nat>, w: Writer, closed: bool)
    requires i < |job.slots|
    ensures Finish(job, i, due, next, w, closed).saved == job.saved
  {
    assert MarkedAndRested(job, i, due, w).saved == job.saved;
  }

  lemma ReadKeepsDone(job: Job, i: nat, data: seq<byte>, w: Writer)
    requires Sound(job) && Touches(job, i) && job.outcome == Running
    ensures var (read, verdict) := ReadSlot(job, i, data, w);
            && read.done == job.done && !read.outcome.Finished?
            && (verdict != Failed ==> read.outcome == Running)
  {
    PrepareFits(job, i, |data|);
  }

  lemma BodyKeepsStreaming(job: Job, i: nat, data: seq<byte>, w: Writer)
    requires Sound(job) && Touches(job, i) && job.slots[i].streaming
    ensures var after := Engine.WriteBody(job, i, data, w);
            after.slots[i].streaming && after.slots[i].headersReceived && after.done == job.done
  {
    PrepareFits(job, i, |data|);
    assert SlotOK(job.total, job.chunkSize, job.slots[i]);
  }

  lemma FlushKeepsDone(job: Job, i: nat, rest: seq<byte>, w: Writer)
    requires Sound(job) && Touches(job, i) && !job.outcome.Finished?
    ensures Flush(job, i, rest, w).done == job.done && !Flush(job, i, rest, w).outcome.Finished?
  {
    PrepareFits(job, i, |rest|);
  }

  lemma CompleteKeepsRecord(job: Job, i: nat, hadBody: bool, due: bool, w: Writer, closed: bool)
    requires i < |job.slots|
    ensures CompleteSlot(job, i, hadBody, due, w, closed).saved == job.saved
  {
    assert MarkedAndReleased(job, i, due, w).saved == job.saved;
  }

  lemma CloseTakesStep(t: seq<Instant>, job: Job, i: nat, rest: seq<byte>, due: bool, late: bool,
                       mid: seq<Instant>, flushed: Job, t': seq<Instant>, closed: bool, answered: bool, job': Job)
    requires Sound(job) && Enabled(job, Close(i, rest, due, late)) && job.outcome == Running
    requires flushed == Flush(job, i, rest, flushed.file) && HandsOver(t, job, TakenBytes(job, i, rest), mid, flushed)
    requires Passes(mid, flushed, t', job', due, answered)
    requires Matches(CompleteSlot(flushed, i, HadBody(job.slots[i]) && !late, due, job'.file, closed), job')
    ensures Takes(t, job, Close(i, rest, due, late), IoOf(t, mid, t', closed, answered), t', job')
  {
    FlushKeepsDone(job, i, rest, flushed.file);
    CompleteKeepsRecord(flushed, i, HadBody(job.slots[i]) && !late, due, job'.file, closed);
    TakesStep(t, job, Close(i, rest, due, late), mid, flushed, t', closed, answered, job');
  }

  /** A scheduling pass that finds everything done. */
  lemma FinalPassTakesStep(t: seq<Instant>, job: Job, t': seq<Instant>, closed: bool, answered: bool, job': Job)
    requires t != [] && Last(t) == Now(job) && job.outcome == Running && AllDone(job)
    requires Passes(t, job, t', job', false, answered) && Matches(Finalize(job, job'.file, closed), job')
    ensures Takes(t, job, Schedule([], []), IoOf(t, t, t', closed, answered), t', job')
  {
    NothingHappens(t, job, false);
    TakesStep(t, job, Schedule([], []), t, job, t', closed, answered, job');
  }

  lemma FreeSlotsAreFree(job: Job)
    requires Sound(job)
    ensures forall j | 0 <= j < |job.slots| && !job.slots[j].inUse :: job.slots[j] == FREE_SLOT
  {
    forall j | 0 <= j < |job.slots| && !job.slots[j].inUse
      ensures job.slots[j] == FREE_SLOT
    {
      assert SlotOK(job.total, job.chunkSize, job.slots[j]);
    }
  }

  /** Between two iterations of the acquisition loop. */
  ghost predicate StillToAcquire(job: Job, sel: seq<nat>, connected: seq<bool>, j: nat, now: Job) {
    && j <= |sel| == |connected| && Sound(now)
    && now.total == job.total && now.chunkSize == job.chunkSize
    && Reservable(now, sel[j..])
    && AcquireAll(job, sel, connected) == AcquireAll(now, sel[j..], connected[j..])
  }

  /** The same behind an iteration: unless it has `acquired` a slot, none is free. */
  ghost predicate Acquiring(job: Job, sel: seq<nat>, connected: seq<bool>, j: nat, now: Job, acquired: bool) {
    StillToAcquire(job, sel, connected, j, now) && (!acquired ==> FirstFree(now.slots) == |now.slots|)
  }

  lemma NothingAcquired(job: Job, sel: seq<nat>, connected: seq<bool>)
    requires Sound(job) && |sel| == |connected| && Reservable(job, sel)
    ensures Acquiring(job, sel, connected, 0, job, true)
  {
    assert sel[0..] == sel && connected[0..] == connected;
  }

  lemma AllAcquired(job: Job, sel: seq<nat>, connected: seq<bool>, j: nat, now: Job, acquired: bool)
    requires Acquiring(job, sel, connected, j, now, acquired) && (acquired ==> j == |sel|)
    ensures now == AcquireAll(job, sel, connected) && Sound(now)
  {
  }

  lemma AcquiredOne(job: Job, sel: seq<nat>, connected: seq<bool>, j: nat, now: Job, next: Job)
    requires StillToAcquire(job, sel, connected, j, now) && j < |sel| && FirstFree(now.slots) < |now.slots|
    requires var slot := AcquiredSlot(SegmentStart(job.chunkSize, sel[j]), SegmentEndNat(now, sel[j]));
             next == if connected[j] then now.(slots := now.slots[FirstFree(now.slots) := slot])
                     else now.(outcome := Stopped)
    ensures StillToAcquire(job, sel, connected, j + 1, next)
  {
    AcquireOne(now, sel[j..]);
    assert sel[j..][1..] == sel[j + 1..] && connected[j..][1..] == connected[j + 1..];
  }

  /** The segments that a scheduling pass starts. */
  ghost function Pending(job: Job): seq<nat> {
    Selected(job.strategy, |job.slots|, Choices(job, -1), SelectLimit(job))
  }

  /** The ranges of segments, as the handlers pass them on. */
  ghost predicate RangesOf(job: Job, sel: seq<nat>, ranges: seq<ByteRange>) {
    && |ranges| == |sel|
    && forall j | 0 <= j < |sel| ::
         ranges[j].start == SegmentStart(job.chunkSize, sel[j]) && ranges[j].end == SegmentEndNat(job, sel[j])
  }

  lemma SelectedAreReservable(job: Job)
    requires |job.slots| > 0
    ensures Reservable(job, Pending(job))
  {
    SelectedIsRight(job.strategy, |job.slots|, Choices(job, -1), SelectLimit(job));
  }

  lemma NothingSelected(job: Job)
    requires |job.slots| > 0 && SelectLimit(job) == 0
    ensures Pending(job) == []
  {
    SelectedIsRight(job.strategy, |job.slots|, Choices(job, -1), 0);
  }

  lemma ScheduleTakesStep(t: seq<Instant>, job: Job, sel: seq<nat>, connected: seq<bool>, job': Job)
    requires t != [] && Last(t) == Now(job)
    requires Enabled(job, Schedule(sel, connected)) && !AllDone(job) && job.outcome == Running
    requires job' == AcquireAll(job, sel, connected)
    ensures Takes(t, job, Schedule(sel, connected), IoOf(t, t, t, true, true), t, job')
  {
    NothingHappens(t, job, false);
    AcquireAllLeaves(job, sel, connected);
    AcquireAllGrows(job, sel, connected);
    assert job.(file := job.file) == job;
    TakesStep(t, job, Schedule(sel, connected), t, job, t, true, true, job');
  }

  lemma SlotStaysInUse(job: Job, due: bool, i: nat, job': Job)
    requires Touches(job, i) && Matches(PersistIf(job, due, job'.file), job')
    ensures Touches(job', i)
  {
  }

  lemma StartedKeepsHeaders(started: Job, due: bool, i: nat, job': Job)
    requires Touches(started, i) && started.slots[i].headersReceived && !started.outcome.Finished?
    requires Matches(PersistIf(started, due, job'.file), job')
    ensures Touches(job', i) && job'.slots[i].headersReceived && !job'.outcome.Finished?
  {
  }

  lemma HeadersTakeStep(t: seq<Instant>, job: Job, i: nat, length: Option<nat>, keepAlive: bool, body: seq<byte>,
                        mid: seq<Instant>, started: Job, t': seq<Instant>, answered: bool, job': Job)
    requires Sound(job) && Enabled(job, Headers(i, length, keepAlive, body)) && job.outcome == Running
    requires var begun := Begin(job, i, length, keepAlive);
             && started == Engine.WriteBody(begun, i, body, started.file)
             && HandsOver(t, begun, BodyBytes(begun, i, body), mid, started)
    requires Passes(mid, started, t', job', true, answered)
    requires answered && job'.outcome == Running ==> job'.saved == job'.done
    requires Matches(PersistIf(started, started.outcome == Running, job'.file), job')
    ensures Takes(t, job, Headers(i, length, keepAlive, body), IoOf(t, mid, t', true, answered), t', job')
  {
    BeginKeepsSound(job, i, length, keepAlive);
    BodyKeepsStreaming(Begin(job, i, length, keepAlive), i, body, started.file);
    TakesStep(t, job, Headers(i, length, keepAlive, body), mid, started, t', true, answered, job');
  }

  lemma WorkerTakesStep(t: seq<Instant>, job: Job, t': seq<Instant>, job': Job)
    requires job.outcome == Running && t != [] && Last(t) == Now(job) && job' == job.(file := job'.file)
    requires HandsOver(t, job, map[], t', job')
    ensures Takes(t, job, WorkerRuns, IoOf(t, t, t', true, true), t', job')
  {
    NothingHappens(t, job, false);
    IdlePasses(t, job, t', job', false);
    TakesStep(t, job, WorkerRuns, t, job, t', true, true, job');
  }

  lemma PositionInReservation(job: Job, i: nat)
    requires Sound(job) && Touches(job, i)
    ensures job.slots[i].Full() <==> job.slots[i].Position() == job.slots[i].reservedEnd + 1
  {
    assert SlotOK(job.total, job.chunkSize, job.slots[i]);
  }

  // -------- the loops --------

  /** The end of the next segment when it is neither done nor among the ranges in flight. */
  ghost function NextEndAmong(done: set<int>, total: nat, chunkSize: nat, inFlight: seq<ByteRange>, current: nat): nat {
    if current + 1 >= total then current
    else
      var limit := current + SegmentSize(chunkSize);
      var next := if limit > total - 1 then total - 1 else limit;
      if RangeDone(done, current + 1, next) then current
      else if exists k :: 0 <= k < |inFlight|
                          && RangesOverlap(current + 1, next, inFlight[k].start, inFlight[k].end) then current
      else next
  }

  function Written(slot: Slot, n: nat, len: nat): Slot {
    slot.(received := slot.received + n,
          responseRemaining := if slot.responseRemaining >= n then slot.responseRemaining - n else 0,
          delivered := slot.delivered + len)
  }

  function PersistedSlot(slot: Slot): Slot {
    if slot.Unpersisted() then slot.(persisted := slot.received) else slot
  }

  /** The job when the first `i` slots have been marked. */
  ghost function MarkedUpTo(job: Job, i: nat): Job
    requires i <= |job.slots|
  {
    job.(slots := Persisted(job.slots[..i]) + job.slots[i..], done := job.done + AllMarks(job.slots[..i]))
  }

  ghost predicate UnpersistedUpTo(job: Job, i: nat)
    requires i <= |job.slots|
  {
    HasUnpersisted(job.slots[..i])
  }

  lemma MarkedNone(job: Job)
    ensures MarkedUpTo(job, 0) == job && !UnpersistedUpTo(job, 0)
  {
    assert job.slots[0..] == job.slots && job.done + {} == job.done;
  }

  lemma MarkedOneMore(job: Job, i: nat)
    requires Sound(job) && i < |job.slots|
    ensures var now := MarkedUpTo(job, i);
            && |now.slots| == |job.slots| && now.slots[i] == job.slots[i]
            && SlotOK(now.total, now.chunkSize, now.slots[i])
            && MarkedUpTo(job, i + 1) == now.(slots := now.slots[i := PersistedSlot(job.slots[i])],
                                              done := now.done + SlotMarks(job.slots[i]))
    ensures UnpersistedUpTo(job, i + 1) <==> UnpersistedUpTo(job, i) || job.slots[i].Unpersisted()
  {
    var seen, next := job.slots[..i], job.slots[..i + 1];
    assert next == seen + [job.slots[i]];
    UnpersistedSnoc(seen, job.slots[i]);
    MarksSnoc(seen, job.slots[i]);
    SlotsMoveOn(Persisted(seen), job.slots, i, PersistedSlot(job.slots[i]));
    assert job.done + (AllMarks(seen) + SlotMarks(job.slots[i])) == job.done + AllMarks(seen) + SlotMarks(job.slots[i]);
  }

  lemma SlotsMoveOn(front: seq<Slot>, slots: seq<Slot>, i: nat, slot: Slot)
    requires i < |slots| && |front| == i
    ensures (front + slots[i..])[i] == slots[i]
    ensures (front + slots[i..])[i := slot] == front + [slot] + slots[i + 1..]
  {
  }

  lemma UnpersistedSnoc(seen: seq<Slot>, slot: Slot)
    ensures HasUnpersisted(seen + [slot]) <==> HasUnpersisted(seen) || slot.Unpersisted()
  {
    var next := seen + [slot];
    assert next[|seen|] == slot;
    if j: nat :| j < |seen| && seen[j].Unpersisted() {
      assert next[j] == seen[j];
    }
  }

  lemma MarksSnoc(seen: seq<Slot>, slot: Slot)
    ensures AllMarks(seen + [slot]) == AllMarks(seen) + SlotMarks(slot)
    ensures Persisted(seen + [slot]) == Persisted(seen) + [PersistedSlot(slot)]
  {
    assert (seen + [slot])[..|seen|] == seen;
  }

  lemma MarkedAll(job: Job)
    ensures MarkedUpTo(job, |job.slots|)
         == job.(slots := Persisted(job.slots), done := job.done + AllMarks(job.slots))
    ensures UnpersistedUpTo(job, |job.slots|) == HasUnpersisted(job.slots)
  {
    assert job.slots[..|job.slots|] == job.slots;
    assert Persisted(job.slots) + job.slots[|job.slots|..] == Persisted(job.slots);
  }

  lemma {:induction false} NoMarks(slots: seq<Slot>)
    requires !HasUnpersisted(slots)
    ensures AllMarks(slots) == {}
  {
    if slots != [] {
      var front := slots[..|slots| - 1];
      assert forall j | 0 <= j < |front| :: front[j] == slots[j];
      NoMarks(front);
      assert !slots[|slots| - 1].Unpersisted();
    }
  }

  lemma NothingToPersist(job: Job)
    requires !HasUnpersisted(job.slots)
    ensures job.(slots := Persisted(job.slots), done := job.done + AllMarks(job.slots)) == job
  {
    NoMarks(job.slots);
    assert Persisted(job.slots) == job.slots;
    assert job.done + {} == job.done;
  }

  /** The loop over the slots, and the drain and save behind it when anything was marked. */
  lemma PersistPasses(t: seq<Instant>, job: Job, changed: bool, t': seq<Instant>, after: Job, answered: bool)
    requires Sound(job) && !job.outcome.Finished? && t != [] && Last(t) == Now(job)
    requires changed == UnpersistedUpTo(job, |job.slots|)
    requires var marked := MarkedUpTo(job, |job.slots|);
             if changed then Alike(marked, after) && Passes(t, marked.(done := job.done), t', after, false, answered)
             else after == marked && t' == t
    ensures Matches(Persist(job, after.file), after) && Passes(t, job, t', after, false, answered) && Sound(after)
  {
    MarkedAll(job);
    if !changed {
      NothingToPersist(job);
      NothingHappens(t, job, false);
    }
    PersistKeepsSound(job, after.file);
    MatchIsSound(t, job, t', Persist(job, after.file), after, false);
  }

  lemma OffsetsFitTheMachine(job: Job)
    requires Sound(job)
    ensures forall j | 0 <= j < |job.slots| ::
              job.slots[j].rangeStart < U64_LIMIT && job.slots[j].reservedEnd < U64_LIMIT
  {
    forall j | 0 <= j < |job.slots|
      ensures job.slots[j].rangeStart < U64_LIMIT && job.slots[j].reservedEnd < U64_LIMIT
    {
      assert SlotOK(job.total, job.chunkSize, job.slots[j]);
    }
  }

  /** Copying the other reservations into an array of 32 loses none of them. */
  lemma NextEndAmongOthers(job: Job, i: nat, inFlight: seq<ByteRange>)
    requires i < |job.slots|
    requires forall start, end ::
               Unreserved(job.slots, i, start, end)
               <==> forall k | 0 <= k < |inFlight| :: !RangesOverlap(start, end, inFlight[k].start, inFlight[k].end)
    ensures NextEndAmong(job.done, job.total, job.chunkSize, inFlight, job.slots[i].reservedEnd)
         == NextReserveEnd(job, i)
  {
    var current := job.slots[i].reservedEnd;
    var limit := current + SegmentSize(job.chunkSize);
    var next := if limit > job.total - 1 then job.total - 1 else limit;
    assert Unreserved(job.slots, i, current + 1, next)
        <==> forall k | 0 <= k < |inFlight| :: !RangesOverlap(current + 1, next, inFlight[k].start, inFlight[k].end);
  }

  lemma NextEndIsLater(job: Job, i: nat)
    requires Sound(job) && Touches(job, i) && job.slots[i].Position() <= job.slots[i].reservedEnd
    ensures CanExtend(job, i) ==> job.slots[i].reservedEnd < NextReserveEnd(job, i) < job.total
  {
    if CanExtend(job, i) {
      NextEndIsNextSegment(job, i);
    }
  }

  lemma BodyWritten(job: Job, i: nat, data: seq<byte>, wider: Job, n: nat, w: Writer)
    requires i < |job.slots| && (wider, n) == Prepare(job, i, |data|) && Widened(job, i, wider)
    ensures BodyBytes(job, i, data) == Bytes(wider.slots[i].writeOffset + wider.slots[i].received, data[..n])
    ensures Engine.WriteBody(job, i, data, w)
         == if n > 0 && w.failed then wider.(file := w, outcome := Stopped)
            else wider.(file := w, slots := wider.slots[i := Written(wider.slots[i], n, |data|)])
  {
  }
}
