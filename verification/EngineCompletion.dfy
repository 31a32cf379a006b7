/** What whole runs of the engine achieve: a complete download is moved, what is done stays
    done over crashes, and what a status save finds is recorded. */
module EngineCompletion {
  import opened Machine
  import opened ByteRanges
  import opened Segments
  import opened Writers
  import opened Engine
  import opened EngineInvariants
  import opened EngineContent
  import opened EngineAlignment
  import opened EngineScheduling
  import opened EngineProgress
  import opened EngineMarking
  import opened EngineVerdicts
  import opened EngineRuns

  // -------- a complete download is moved --------

  lemma StepOutcome(job: Job, e: Event, io: Io, job': Job)
    requires Sound(job) && HandlerStep(job, e, io, job')
    ensures job'.outcome == OutcomeOf(job, e, Last(io.write), job'.file, io.closed, job')
  {
    var w1, w2 := Last(io.write), Last(io.drain).file;
    HandlerCompletes(job, e, w1, w2, io.closed, Unrecorded(job, job'));
    OutcomeIsExact(job, e, w1, w2, io.closed, Unrecorded(job, job'));
    assert AllDone(Unrecorded(job, job')) <==> AllDone(job');
  }

  /** The event runs to its end. */
  predicate RunsThrough(e: Event) {
    !e.Crash? && !e.Restart?
  }

  /** In any run: the file is moved exactly behind an event that finds everything done and
      whose close succeeds, on a writer that has not failed. */
  lemma FileIsMovedExactly(run: Run, k: nat)
    requires run.Valid() && Sound(run.states[0]) && k < |run.events| && RunsThrough(run.events[k])
    ensures HandlerStep(run.states[k], run.events[k], run.ios[k], run.states[k + 1])
    ensures var job, e, io, after := run.states[k], run.events[k], run.ios[k], run.states[k + 1];
            after.outcome.Finished?
            <==> Concludes(job, e, Last(io.write), after) && !after.file.failed && io.closed
  {
    RunStaysSound(run, k);
    StepOf(run, k);
    StepOutcome(run.states[k], run.events[k], run.ios[k], run.states[k + 1]);
  }

  /** And what is moved is the resource: when an event of a run with an honest server finds
      everything done, nothing has failed and the close succeeds, the download is finished
      and its file holds the resource, byte for byte, and nothing else. */
  lemma CompleteDownloadIsTheResource(run: Run, resource: int -> byte, k: nat)
    requires run.Valid() && Started(run.states[0], resource)
    requires Agrees(run.states[0].file.disk, InFile(run.states[0].total))
    requires run.FromHonestServer(resource) && run.NeverSkips() && run.NeverSavesAfterError()
    requires k < |run.events| && RunsThrough(run.events[k]) && Enabled(run.states[k], run.events[k])
    requires run.ios[k].write != [] && !run.states[k + 1].file.failed && run.ios[k].closed
    requires Concludes(run.states[k], run.events[k], Last(run.ios[k].write), run.states[k + 1])
    ensures run.states[k + 1].outcome.Finished?
    ensures var file := run.states[k + 1].outcome.file;
            && (forall o :: o in file <==> 0 <= o < run.states[0].total)
            && (forall o | o in file :: file[o] == resource(o))
  {
    StartedIsCorrect(run.states[0], resource);
    FileIsMovedExactly(run, k);
    FinishedFileIsTheResource(run, resource, k + 1);
  }

  /** A job without a busy slot moves on: a scheduling pass that runs into no failure ends the
      download, or puts some slot to work. */
  lemma IdleJobMovesOn(job: Job, sel: seq<nat>, connected: seq<bool>, io: Io, job': Job)
    requires Sound(job) && HandlerStep(job, Schedule(sel, connected), io, job')
    requires AllConnect(connected) && io.closed && !job'.file.failed
    requires forall j | 0 <= j < |job.slots| :: !job.slots[j].inUse
    ensures job'.outcome.Finished? || exists j :: 0 <= j < |job'.slots| && job'.slots[j].inUse
    ensures job'.outcome.Finished? <==> AllDone(job)
  {
    StepOutcome(job, Schedule(sel, connected), io, job');
    if !AllDone(job) {
      var w := Last(io.drain).file;
      IdleJobsStartWork(job, sel, connected);
      SameWork(job, w, sel, connected);
      ActiveBound(job'.slots);
    }
  }

  /** The state of the writer makes no difference to a pass. */
  lemma {:induction false} SameWork(job: Job, w: Writer, sel: seq<nat>, connected: seq<bool>)
    requires |connected| == |sel|
    ensures AcquireAll(job.(file := w), sel, connected).slots == AcquireAll(job, sel, connected).slots
    decreases |sel|
  {
    if sel != [] && FirstFree(job.slots) < |job.slots| {
      var next := if connected[0] then job.(slots := job.slots[FirstFree(job.slots) := SlotFor(job, sel[0])])
                  else job.(outcome := Stopped);
      SameWork(next, w, sel[1..], connected[1..]);
    }
  }

  // -------- progress is recorded, and never lost --------

  /** Every save of state.json is let through, and no handler leaves a failed writer behind. */
  ghost predicate Recording(run: Run) {
    && |run.states| == |run.events| + 1 && |run.ios| == |run.events|
    && forall k | 0 <= k < |run.events| :: run.ios[k].answered && !run.states[k + 1].file.failed
  }

  /** Such a run that starts with all its progress recorded. */
  ghost predicate RecordsAll(run: Run) {
    run.Valid() && Sound(run.states[0]) && Recording(run) && run.states[0].saved == run.states[0].done
  }

  lemma StepRecords(job: Job, e: Event, io: Io, job': Job)
    requires Transition(job, e, io, job') && io.answered && !job'.file.failed && job.saved == job.done
    ensures job'.saved == job'.done
  {
  }

  /** In any run: a handler that marks something new, on a writer that has not failed, with all
      its saves let through, leaves a state.json that claims all that is done. */
  lemma NewMarksAreRecorded(run: Run, k: nat)
    requires run.Valid() && k < |run.events| && RunsThrough(run.events[k])
    requires run.ios[k].answered && !run.states[k + 1].file.failed
    requires run.states[k + 1].done != run.states[k].done
    ensures run.states[k + 1].saved == run.states[k + 1].done
  {
    StepOf(run, k);
  }

  lemma NextRecords(run: Run, k: nat)
    requires RecordsAll(run) && k < |run.events| && run.states[k].saved == run.states[k].done
    ensures run.states[k + 1].saved == run.states[k + 1].done
  {
    StepOf(run, k);
    assert run.ios[k].answered && !run.states[k + 1].file.failed;
    StepRecords(run.states[k], run.events[k], run.ios[k], run.states[k + 1]);
  }

  /** Between any two events state.json claims all that is done. */
  lemma {:induction false} RecordStaysCurrent(run: Run, k: nat)
    requires RecordsAll(run) && k < |run.states|
    ensures run.states[k].saved == run.states[k].done
    decreases k
  {
    if k > 0 {
      RecordStaysCurrent(run, k - 1);
      NextRecords(run, k - 1);
    }
  }

  /** At no instant of a handler does state.json claim less than it did before. */
  lemma {:induction false} ClaimsStay(job: Job, e: Event, io: Io, job': Job, k: nat)
    requires HandlerStep(job, e, io, job') && k < |io.drain| && job.saved <= job.done
    ensures job.saved <= io.drain[k].saved
    decreases k
  {
    if k > 0 {
      ClaimsStay(job, e, io, job', k - 1);
    }
  }

  lemma StepLosesNothing(job: Job, e: Event, io: Io, job': Job)
    requires Sound(job) && Transition(job, e, io, job') && job.saved == job.done
    ensures job.done <= job'.done
  {
    match e
    case Crash(during, at) =>
      var after :| HandlerStep(job, during, io, after);
      ClaimsStay(job, during, io, after, if at < |io.write| then 0 else at - |io.write| + 1);
    case Restart =>
    case _ => StepGrows(job, e, io, job');
  }

  lemma NextLosesNothing(run: Run, k: nat)
    requires RecordsAll(run) && k < |run.events|
    ensures run.states[k].done <= run.states[k + 1].done
  {
    RunStaysSound(run, k);
    RecordStaysCurrent(run, k);
    StepOf(run, k);
    StepLosesNothing(run.states[k], run.events[k], run.ios[k], run.states[k + 1]);
  }

  ghost function DoneSets(run: Run): seq<set<int>> {
    seq(|run.states|, k requires 0 <= k < |run.states| => run.states[k].done)
  }

  ghost predicate Growing(sets: seq<set<int>>) {
    forall k | 0 < k < |sets| :: sets[k - 1] <= sets[k]
  }

  lemma {:induction false} GrowingIsMonotone(sets: seq<set<int>>, j: nat, k: nat)
    requires Growing(sets) && j <= k < |sets|
    ensures sets[j] <= sets[k]
    decreases k
  {
    if j < k {
      GrowingIsMonotone(sets, j, k - 1);
    }
  }

  lemma DoneSetsGrow(run: Run)
    requires RecordsAll(run)
    ensures Growing(DoneSets(run))
  {
    forall k | 0 < k < |run.states|
      ensures run.states[k - 1].done <= run.states[k].done
    {
      NextLosesNothing(run, k - 1);
    }
  }

  /** What is once done stays done, also over a crash at any instant and the restart behind it. */
  lemma ProgressIsNeverLost(run: Run, j: nat, k: nat)
    requires RecordsAll(run) && j <= k < |run.states|
    ensures run.states[j].done <= run.states[k].done
  {
    DoneSetsGrow(run);
    GrowingIsMonotone(DoneSets(run), j, k);
  }

  // -------- what a status save finds --------

  lemma StepNotes(job: Job, e: Event, io: Io, job': Job)
    requires Sound(job) && Noted(job) && Transition(job, e, io, job')
    ensures Noted(job')
  {
    if RunsThrough(e) {
      HandlerMarksExactly(job, e, Last(io.write), Last(io.drain).file, io.closed, Unrecorded(job, job'));
    }
  }

  lemma NextNotes(run: Run, k: nat)
    requires run.Valid() && Sound(run.states[0]) && k < |run.events| && Noted(run.states[k])
    ensures Noted(run.states[k + 1])
  {
    RunStaysSound(run, k);
    StepOf(run, k);
    StepNotes(run.states[k], run.events[k], run.ios[k], run.states[k + 1]);
  }

  lemma {:induction false} RunStaysNoted(run: Run, k: nat)
    requires run.Valid() && Sound(run.states[0]) && Noted(run.states[0]) && k < |run.states|
    ensures Noted(run.states[k])
    decreases k
  {
    if k > 0 {
      RunStaysNoted(run, k - 1);
      NextNotes(run, k - 1);
    }
  }

  lemma StatusSaveRecords(job: Job, e: Event, io: Io, job': Job)
    requires Sound(job) && Noted(job) && HandlerStep(job, e, io, job') && io.answered
    requires e.SaveMetadata? || (e.Headers? && job'.outcome == Running)
    ensures forall o | Streamed(job', o) :: o in job'.saved
  {
    var w1, w2 := Last(io.write), Last(io.drain).file;
    HandlerMarksExactly(job, e, w1, w2, io.closed, Unrecorded(job, job'));
    StepOutcome(job, e, io, job');
    SameStreams(job', Unrecorded(job, job'));
  }

  /** In any run: behind a status save that is let through, state.json claims every byte that a
      streaming slot has received. */
  lemma StatusSaveRecordsEverything(run: Run, k: nat)
    requires run.Valid() && Sound(run.states[0]) && Noted(run.states[0]) && k < |run.events|
    requires run.ios[k].answered
    requires run.events[k].SaveMetadata? || (run.events[k].Headers? && run.states[k + 1].outcome == Running)
    ensures var after := run.states[k + 1];
            forall o | Streamed(after, o) :: o in after.saved
  {
    RunStaysSound(run, k);
    RunStaysNoted(run, k);
    StepOf(run, k);
    StatusSaveRecords(run.states[k], run.events[k], run.ios[k], run.states[k + 1]);
  }

  // -------- what a slot has taken --------

  lemma StepKeepsBytes(job: Job, e: Event, io: Io, job': Job)
    requires Sound(job) && HandlerStep(job, e, io, job') && !Drops(e)
    ensures KeepsAll(job, job')
  {
    HandlerConserves(job, e, Last(io.write), Last(io.drain).file, io.closed, Unrecorded(job, job'));
    SameSlotsHold(Unrecorded(job, job'), job');
  }

  /** The part of a run in which the process lives and no close drops its body. */
  predicate Undisturbed(run: Run, j: nat, k: nat) {
    k <= |run.events| && forall l | j <= l < k :: RunsThrough(run.events[l]) && !Drops(run.events[l])
  }

  /** Through it no byte is fetched twice for being forgotten: what is done or held by a slot
      at its start is done or held by a slot at its end. */
  lemma {:induction false} NothingReceivedIsLost(run: Run, j: nat, k: nat)
    requires run.Valid() && Sound(run.states[0]) && j <= k && Undisturbed(run, j, k)
    ensures KeepsAll(run.states[j], run.states[k])
    decreases k
  {
    if j < k {
      NothingReceivedIsLost(run, j, k - 1);
      RunStaysSound(run, k - 1);
      StepOf(run, k - 1);
      StepKeepsBytes(run.states[k - 1], run.events[k - 1], run.ios[k - 1], run.states[k]);
      KeepsThen(run.states[j], run.states[k - 1], run.states[k]);
    }
  }
}
