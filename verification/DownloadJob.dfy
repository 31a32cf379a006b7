/** The slot machine of src/download.c as code: the job's slots, its download state, its
    asynchronous file and the handlers of the network callbacks. Every handler is proved to
    take a step of the state machine of module Engine. */
module DownloadJobs {
  import opened Machine
  import opened ByteRanges
  import opened Segments
  import opened DownloadStates
  import opened SegmentSelect
  import opened Writers
  import opened AsyncFiles
  import opened Engine
  import opened EngineInvariants
  import opened EngineRuns
  import opened EngineProgress
  import opened HandlerRuns

  /** segment_next_reserve_end: how far a reservation that ends at `current` may grow. */
  method SegmentNextReserveEnd(state: DownloadState, inFlight: seq<ByteRange>, current: uint64) returns (next: uint64)
    requires state.Valid()
    ensures next == NextEndAmong(state.Done(), state.totalSize, state.chunkSize, inFlight, current)
  {
    if state.totalSize == 0 || current >= state.totalSize - 1 {
      return current;
    }
    var size: uint64 := SegmentSize(state.chunkSize);
    var totalEnd: uint64 := state.totalSize - 1;
    var nextStart: uint64 := current + 1;
    var nextEnd: uint64 := nextStart + size - 1;
    if nextEnd > totalEnd {
      nextEnd := totalEnd;
    }
    var done := state.IsRangeDone(nextStart, nextEnd);
    if done {
      return current;
    }
    for i := 0 to |inFlight|
      invariant forall k | 0 <= k < i :: !RangesOverlap(nextStart, nextEnd, inFlight[k].start, inFlight[k].end)
    {
      if RangesOverlap(nextStart, nextEnd, inFlight[i].start, inFlight[i].end) {
        return current;
      }
    }
    return nextEnd;
  }

  /** What the operating system answers at the end of a download: to fsync, to fclose, and to
      the move of the file. */
  datatype Ending = Ending(synced: bool, closed: bool, moved: bool)
  {
    predicate AllWell() { synced && closed && moved }
  }

  /** State.json as download_state_save replaces it: `answers` tells of each save in turn
      whether the file system lets it through. */
  class StateFile {
    const answers: nat -> bool
    var items: seq<JsonItem>     // the doneRanges
    var saves: nat               // how many saves were tried

    constructor (items: seq<JsonItem>, answers: nat -> bool)
      ensures this.items == items && this.answers == answers && saves == 0
    {
      this.items, this.answers, saves := items, answers, 0;
    }

    /** The saves numbered [from, to) were let through. */
    ghost predicate Answered(from: nat, to: nat) {
      forall k: nat | from <= k < to :: answers(k)
    }

    lemma AnsweredThen(from: nat, mid: nat, to: nat)
      requires from <= mid <= to
      ensures Answered(from, to) <==> Answered(from, mid) && Answered(mid, to)
    {
    }

    lemma AnsweredOne(k: nat)
      ensures Answered(k, k + 1) <==> answers(k)
    {
    }

    /** The write of the new file and its rename over the old one. */
    method Replace(items: seq<JsonItem>) returns (ok: bool)
      modifies this
      ensures saves == old(saves) + 1 && ok == answers(old(saves))
      ensures this.items == if ok then items else old(this.items)
    {
      ok := answers(saves);
      saves := saves + 1;
      if ok {
        this.items := items;
      }
    }
  }

  class DownloadJob {
    const strategy: Strategy
    const slots: array<Slot>
    const state: DownloadState
    const file: AsyncFile
    const stateFile: StateFile
    var outcome: Outcome
    ghost var model: Job          // the state of module Engine that the fields stand for
    ghost var timeline: seq<Instant> // every state of the file and of state.json, the present one last

    /** Every save of state.json from number `from` on has been let through. */
    ghost predicate Answered(from: nat)
      reads stateFile
    {
      stateFile.Answered(from, stateFile.saves)
    }

    /** The fields stand for `job`. */
    ghost predicate StandFor(job: Job)
      reads this, slots, state, state.ranges, stateFile, file, file.buf0, file.buf1, file.buf0.data, file.buf1.data
    {
      && state.Valid() && file.Valid()
      && slots.Length <= DL_MAX_SEGMENT_CONCURRENCY
      && SegmentCount(state.totalSize, state.chunkSize) * 2 < U64_LIMIT
      && job == Job(state.totalSize, state.chunkSize, strategy, slots[..], state.Done(), PairOffsets(stateFile.items),
                    file.Abs(), outcome)
    }

    ghost predicate Represents()
      reads this, slots, state, state.ranges, stateFile, file, file.buf0, file.buf1, file.buf0.data, file.buf1.data
    {
      StandFor(model) && timeline != [] && Last(timeline) == Now(model)
    }

    ghost predicate Valid()
      reads this, slots, state, state.ranges, stateFile, file, file.buf0, file.buf1, file.buf0.data, file.buf1.data
    {
      Represents() && Sound(model)
    }

    /** A job in segment mode over a state that was loaded or newly made: no slot in use,
        the partial file opened. */
    constructor (strategy: Strategy, state: DownloadState, stateFile: StateFile, concurrency: nat, disk: Disk,
                 writes: nat -> Answer)
      requires state.Valid() && state.totalSize > 0
      requires forall o | o in state.Done() :: 0 <= o < state.totalSize
      requires PairOffsets(stateFile.items) <= state.Done()
      requires 1 <= concurrency <= DL_MAX_SEGMENT_CONCURRENCY
      requires SegmentCount(state.totalSize, state.chunkSize) * 2 < U64_LIMIT
      ensures Valid() && this.state == state && this.stateFile == stateFile && fresh(slots) && fresh(file)
      ensures fresh(file.buf0) && fresh(file.buf1) && fresh(file.buf0.data) && fresh(file.buf1.data)
      ensures model == Job(state.totalSize, state.chunkSize, strategy, seq(concurrency, _ => FREE_SLOT), state.Done(),
                           PairOffsets(stateFile.items), Opened(disk), Running)
      ensures timeline == [Now(model)]
    {
      this.strategy, this.state, this.stateFile := strategy, state, stateFile;
      slots := new Slot[concurrency](_ => FREE_SLOT);
      file := new AsyncFile(disk, writes);
      outcome := Running;
      model := Job(state.totalSize, state.chunkSize, strategy, seq(concurrency, _ => FREE_SLOT), state.Done(),
                   PairOffsets(stateFile.items), Opened(disk), Running);
      timeline := [Instant(Opened(disk), PairOffsets(stateFile.items))];
      new;
      assert slots[..] == seq(concurrency, _ => FREE_SLOT);
    }

    // -------- slots --------

    method CountActiveSlots() returns (n: nat)
      ensures n == CountActive(slots[..])
    {
      n := 0;
      for i := 0 to slots.Length
        invariant n == CountActive(slots[..i])
      {
        assert slots[..i + 1][..i] == slots[..i];
        if slots[i].inUse {
          n := n + 1;
        }
      }
      assert slots[..slots.Length] == slots[..];
    }

    /** The reservations of the other slots, at most as many as the caller's array holds. */
    method CollectInFlight(exclude: nat) returns (inFlight: seq<ByteRange>)
      requires slots.Length <= DL_MAX_SEGMENT_CONCURRENCY
      requires forall j | 0 <= j < slots.Length && slots[j].inUse ::
                 slots[j].rangeStart < U64_LIMIT && slots[j].reservedEnd < U64_LIMIT
      ensures forall start, end ::
                Unreserved(slots[..], exclude, start, end)
                <==> forall k | 0 <= k < |inFlight| :: !RangesOverlap(start, end, inFlight[k].start, inFlight[k].end)
    {
      inFlight := [];
      var i := 0;
      while i < slots.Length && |inFlight| < DL_MAX_SEGMENT_CONCURRENCY
        invariant |inFlight| <= i <= slots.Length
        invariant forall start, end ::
                    Unreserved(slots[..i], exclude, start, end)
                    <==> forall k | 0 <= k < |inFlight| ::
                           !RangesOverlap(start, end, inFlight[k].start, inFlight[k].end)
      {
        ghost var before := inFlight;
        if slots[i].inUse && i != exclude {
          inFlight := inFlight + [ByteRange(slots[i].rangeStart, slots[i].reservedEnd)];
        }
        InFlightGrows(slots[..i], slots[i], exclude, before, inFlight);
        assert slots[..i] + [slots[i]] == slots[..i + 1];
        i := i + 1;
      }
      assert slots[..i] == slots[..];
    }

    static lemma InFlightGrows(seen: seq<Slot>, slot: Slot, exclude: nat, before: seq<ByteRange>, after: seq<ByteRange>)
      requires forall start, end ::
                 Unreserved(seen, exclude, start, end)
                 <==> forall k | 0 <= k < |before| :: !RangesOverlap(start, end, before[k].start, before[k].end)
      requires if slot.inUse && |seen| != exclude
               then |after| == |before| + 1 && after[..|before|] == before
                    && after[|before|].start == slot.rangeStart && after[|before|].end == slot.reservedEnd
               else after == before
      ensures forall start, end ::
                Unreserved(seen + [slot], exclude, start, end)
                <==> forall k | 0 <= k < |after| :: !RangesOverlap(start, end, after[k].start, after[k].end)
    {
      forall start, end
        ensures Unreserved(seen + [slot], exclude, start, end)
            <==> forall k | 0 <= k < |after| :: !RangesOverlap(start, end, after[k].start, after[k].end)
      {
        var longer := seen + [slot];
        assert forall j | 0 <= j < |seen| :: longer[j] == seen[j];
        assert longer[|seen|] == slot;
        assert forall k | 0 <= k < |before| :: after[k] == after[..|before|][k];
        assert Unreserved(longer, exclude, start, end)
            <==> Unreserved(seen, exclude, start, end)
                 && (slot.inUse && |seen| != exclude ==> !RangesOverlap(start, end, slot.rangeStart, slot.reservedEnd));
      }
    }

    /** Puts `slot` in place of slot `i`. */
    method SetSlot(i: nat, slot: Slot)
      requires Represents() && i < slots.Length
      modifies slots, this`model
      ensures Represents()
      ensures model == old(model).(slots := old(model).slots[i := slot])
    {
      slots[i] := slot;
      model := model.(slots := model.slots[i := slot]);
      assert slots[..] == model.slots;
    }

    /** slot_try_extend_reservation. */
    method TryExtendReservation(i: nat) returns (extended: bool)
      requires Valid() && Touches(model, i)
      modifies slots, this`model
      ensures Valid() && Touches(model, i)
      ensures extended <==> CanExtend(old(model), i)
      ensures model == if extended then Extend(old(model), i) else old(model)
    {
      OffsetsFitTheMachine(model);
      var inFlight := CollectInFlight(i);
      var next := SegmentNextReserveEnd(state, inFlight, slots[i].reservedEnd);
      NextEndAmongOthers(model, i, inFlight);
      if next <= slots[i].reservedEnd {
        return false;
      }
      ExtendKeepsSound(model, i);
      SetSlot(i, slots[i].(reservedEnd := next, rangeEnd := next));
      return true;
    }

    /** slot_prepare_write: how many of `len` bytes may be written, extending first. */
    method PrepareWrite(i: nat, len: nat) returns (n: nat)
      requires Valid() && Touches(model, i)
      modifies slots, this`model
      ensures Valid() && Touches(model, i)
      ensures (model, n) == Prepare(old(model), i, len)
    {
      if len == 0 {
        return 0;
      }
      var pos := slots[i].rangeStart + slots[i].received;
      if pos > slots[i].reservedEnd {
        return 0;
      }
      var avail := ExtendUntilFits(i, len, pos);
      n := if len > avail then avail else len;
    }

    /** The loop of slot_prepare_write; what it makes available from `pos` on. */
    method ExtendUntilFits(i: nat, len: nat, pos: nat) returns (avail: nat)
      requires Valid() && Touches(model, i) && pos == model.slots[i].Position() <= model.slots[i].reservedEnd
      modifies slots, this`model
      ensures Valid() && Touches(model, i)
      ensures model == ExtendFor(old(model), i, len)
      ensures model.slots[i].Position() == pos && avail == model.slots[i].reservedEnd + 1 - pos
    {
      avail := slots[i].reservedEnd - pos + 1;
      var open := true;
      while open && len > avail
        invariant Valid() && Touches(model, i)
        invariant model.slots[i].Position() == pos && avail == model.slots[i].reservedEnd + 1 - pos
        invariant ExtendFor(model, i, len) == ExtendFor(old(model), i, len)
        invariant !open ==> !CanExtend(model, i)
        decreases open, model.total - model.slots[i].reservedEnd
      {
        NextEndIsLater(model, i);
        open := TryExtendReservation(i);
        avail := slots[i].reservedEnd + 1 - pos;
      }
    }

    /** Adds to the timeline what the file has gone through since state `from` of its history. */
    ghost method Record(from: nat, bytes: Disk)
      requires file.Valid() && StandFor(model.(file := file.Abs(), outcome := outcome))
      requires timeline != [] && Last(timeline) == Now(model)
      requires from < |file.history| && file.history[from] == model.file && Trace(file.history[from..], bytes)
      requires !file.failed ==> file.accepted == model.file.accepted + bytes
      modifies this`model, this`timeline
      ensures Represents() && model == old(model).(file := file.Abs(), outcome := outcome)
      ensures HandsOver(old(timeline), old(model), bytes, timeline, model)
    {
      var job, run := model, file.history[from..];
      model := model.(file := file.Abs(), outcome := outcome);
      CallRecorded(timeline, job, run, bytes, model);
      timeline := timeline + Lift(run, model.saved)[1..];
    }

    /** write_at_offset: a write error fails the job. */
    method WriteAtOffset(offset: nat, bytes: seq<byte>) returns (ok: bool)
      requires Represents()
      modifies this`outcome, this`model, this`timeline, file, file.buf0, file.buf1, file.buf0.data, file.buf1.data
      ensures Represents()
      ensures HandsOver(old(timeline), old(model), Bytes(offset, bytes), timeline, model)
      ensures model == old(model).(file := model.file, outcome := if ok then old(outcome) else Stopped)
      ensures ok <==> !model.file.failed
    {
      ghost var from := |file.history| - 1;
      ok := file.Write(offset, bytes);
      if !ok {
        outcome := Stopped;
      }
      Record(from, Bytes(offset, bytes));
    }

    /** slot_write_body: returns false on a write error. */
    method WriteBody(i: nat, data: seq<byte>) returns (ok: bool)
      requires Valid() && Touches(model, i) && model.slots[i].streaming
      modifies this`outcome, this`model, this`timeline, slots
      modifies file, file.buf0, file.buf1, file.buf0.data, file.buf1.data
      ensures Valid() && Touches(model, i)
      ensures HandsOver(old(timeline), old(model), BodyBytes(old(model), i, data), timeline, model)
      ensures model == Engine.WriteBody(old(model), i, data, model.file)
      ensures model.outcome == if ok then old(outcome) else Stopped
    {
      ghost var job := model;
      var n := PrepareWrite(i, |data|);
      PrepareFits(job, i, |data|);
      ok := PutBody(i, data, n, job);
      WriteBodyKeepsSound(job, i, data, model.file);
    }

    /** The part of slot_write_body behind the clamp. */
    method PutBody(i: nat, data: seq<byte>, n: nat, ghost job: Job) returns (ok: bool)
      requires Represents() && i < |job.slots| && (model, n) == Prepare(job, i, |data|)
      requires Widened(job, i, model)
      modifies this`outcome, this`model, this`timeline, slots
      modifies file, file.buf0, file.buf1, file.buf0.data, file.buf1.data
      ensures Represents()
      ensures HandsOver(old(timeline), job, BodyBytes(job, i, data), timeline, model)
      ensures model == Engine.WriteBody(job, i, data, model.file)
      ensures model.outcome == if ok then old(outcome) else Stopped
    {
      ghost var wider := model;
      BodyWritten(job, i, data, wider, n, model.file);
      if n == 0 {
        NothingHappens(timeline, job, false);
        ok := true;
      } else {
        ok := WriteAtOffset(slots[i].writeOffset + slots[i].received, data[..n]);
        BodyWritten(job, i, data, wider, n, model.file);
      }
      if ok {
        SetSlot(i, Written(slots[i], n, |data|));
      }
    }

    // -------- marking and saving --------

    /** download_state_mark_range_done for offsets of the file. */
    method MarkDone(start: nat, end: nat)
      requires Represents() && start <= end < model.total
      modifies this`model, state`ranges, state`count, state.ranges
      ensures Represents() && (state.ranges == old(state.ranges) || fresh(state.ranges))
      ensures model == old(model).(done := old(model).done + Interval(start, end))
    {
      var rc := state.MarkRangeDone(start, end);
      assert Clip(Interval(start, end), model.total) == Interval(start, end);
      model := model.(done := model.done + Interval(start, end));
    }

    /** The loop body of persist_buffered_progress. */
    method MarkSlot(i: nat) returns (marked: bool)
      requires Represents() && i < slots.Length && SlotOK(model.total, model.chunkSize, slots[i])
      modifies slots, this`model, state`ranges, state`count, state.ranges
      ensures Represents() && (state.ranges == old(state.ranges) || fresh(state.ranges))
      ensures marked == old(model).slots[i].Unpersisted()
      ensures model == old(model).(slots := old(model).slots[i := PersistedSlot(old(model).slots[i])],
                                   done := old(model).done + SlotMarks(old(model).slots[i]))
    {
      var slot := slots[i];
      marked := slot.inUse && slot.streaming && slot.received > slot.persisted;
      if marked {
        MarkDone(slot.writeOffset + slot.persisted, slot.writeOffset + slot.received - 1);
        SetSlot(i, slot.(persisted := slot.received));
      } else {
        assert model.slots[i := slot] == model.slots;
        assert model.done + {} == model.done;
      }
    }

    /** The loop of persist_buffered_progress. */
    method MarkReceived() returns (changed: bool)
      requires Valid()
      modifies slots, this`model, state`ranges, state`count, state.ranges
      ensures Represents() && (state.ranges == old(state.ranges) || fresh(state.ranges))
      ensures model == MarkedUpTo(old(model), |old(model).slots|)
      ensures changed == UnpersistedUpTo(old(model), |old(model).slots|)
    {
      ghost var job := model;
      changed := false;
      MarkedNone(job);
      for i := 0 to slots.Length
        invariant Represents() && (state.ranges == old(state.ranges) || fresh(state.ranges))
        invariant model == MarkedUpTo(job, i)
        invariant changed == UnpersistedUpTo(job, i)
      {
        MarkedOneMore(job, i);
        var marked := MarkSlot(i);
        changed := changed || marked;
      }
    }

    /** drain_temp_file. */
    method DrainTempFile() returns (ok: bool)
      requires Represents()
      modifies this`model, this`timeline, file, file.buf0, file.buf1
      ensures Represents() && model == old(model).(file := model.file)
      ensures HandsOver(old(timeline), old(model), map[], timeline, model) && model.file.Drained()
      ensures ok <==> !model.file.failed
    {
      ghost var from := |file.history| - 1;
      ok := file.Drain();
      Record(from, map[]);
    }

    /** download_state_save: state.json claims all that is done, or stays as it was. */
    method SaveState()
      requires Represents()
      modifies this`model, stateFile, this`timeline
      ensures Represents() && stateFile.saves == old(stateFile.saves) + 1
      ensures var replaced := stateFile.answers(old(stateFile.saves));
              && MaySave(old(timeline), old(model), timeline, model, replaced)
              && model.saved == if replaced then model.done else old(model).saved
    {
      var items := state.SaveDoneRanges();
      SavedItemsStandForRanges(state.Ranges());
      var replaced := stateFile.Replace(items);
      if replaced {
        model := model.(saved := model.done);
        timeline := timeline + [Now(model)];
      }
    }

    /** What follows every marking: the content goes to the file before the claim goes to
        state.json. What was not done `before` is not claimed without the drain. */
    method DrainAndSave(ghost before: set<int>)
      requires Represents() && !outcome.Finished? && before <= model.done
      modifies this`model, stateFile, this`timeline, state`bytesDownloaded, file, file.buf0, file.buf1
      ensures Represents() && model.file.Drained()
      ensures model == old(model).(file := model.file, saved := model.saved)
      ensures stateFile.saves == old(stateFile.saves) + if model.file.failed then 0 else 1
      ensures model.saved == if !model.file.failed && stateFile.answers(old(stateFile.saves)) then model.done
                             else old(model).saved
      ensures Passes(old(timeline), old(model).(done := before), timeline, model, false,
                     Answered(old(stateFile.saves)))
    {
      ghost var job, t, n := model, timeline, stateFile.saves;
      state.bytesDownloaded := state.BytesDone();
      var ok := DrainTempFile();
      ghost var drained, mid := model, timeline;
      if ok {
        SaveState();
        stateFile.AnsweredOne(n);
      }
      DrainThenSave(t, job, before, mid, drained, timeline, model, Answered(n));
    }

    /** persist_buffered_progress. */
    method PersistBufferedProgress()
      requires Valid() && !outcome.Finished?
      modifies slots, this`model, stateFile, this`timeline
      modifies state`bytesDownloaded, state`ranges, state`count, state.ranges, file, file.buf0, file.buf1
      ensures Valid() && (state.ranges == old(state.ranges) || fresh(state.ranges))
      ensures Matches(Persist(old(model), model.file), model)
      ensures old(stateFile.saves) <= stateFile.saves
      ensures Passes(old(timeline), old(model), timeline, model, false, Answered(old(stateFile.saves)))
    {
      ghost var job, t, n := model, timeline, stateFile.saves;
      var changed := MarkReceived();
      if changed {
        DrainAndSave(job.done);
      }
      PersistPasses(t, job, changed, timeline, model, Answered(n));
    }

    method CountAndSave() returns (ghost replaced: bool)
      requires Represents()
      modifies this`model, stateFile, this`timeline, state`bytesDownloaded
      ensures Represents() && old(stateFile.saves) <= stateFile.saves
      ensures MaySave(old(timeline), old(model), timeline, model, replaced)
      ensures replaced <==> Answered(old(stateFile.saves))
    {
      ghost var n := stateFile.saves;
      state.bytesDownloaded := state.BytesDone();
      SaveState();
      stateFile.AnsweredOne(n);
      replaced := Answered(n);
    }

    /** sync_state_metadata, the part that concerns the progress: the save at its end does not
        ask how the drain went. */
    method SaveStatus()
      requires Valid() && !outcome.Finished?
      modifies slots, this`model, stateFile, this`timeline
      modifies state`bytesDownloaded, state`ranges, state`count, state.ranges, file, file.buf0, file.buf1
      ensures Valid() && (state.ranges == old(state.ranges) || fresh(state.ranges))
      ensures Matches(Persist(old(model), model.file), model)
      ensures old(stateFile.saves) <= stateFile.saves
      ensures Passes(old(timeline), old(model), timeline, model, true, Answered(old(stateFile.saves)))
      ensures Answered(old(stateFile.saves)) ==> model.saved == model.done
    {
      ghost var job, t, n := model, timeline, stateFile.saves;
      PersistBufferedProgress();
      ghost var kept, mid, k := model, timeline, stateFile.saves;
      ghost var replaced := CountAndSave();
      stateFile.AnsweredThen(n, k, stateFile.saves);
      StatusSavePasses(t, job, mid, kept, stateFile.Answered(n, k), timeline, model, replaced);
    }

    /** dm_item_upsert_throttled; `due` says whether its interval has passed. */
    method SaveStatusWhenDue(due: bool)
      requires Valid() && !outcome.Finished?
      modifies slots, this`model, stateFile, this`timeline
      modifies state`bytesDownloaded, state`ranges, state`count, state.ranges, file, file.buf0, file.buf1
      ensures Valid() && (state.ranges == old(state.ranges) || fresh(state.ranges))
      ensures Matches(PersistIf(old(model), due, model.file), model)
      ensures old(stateFile.saves) <= stateFile.saves
      ensures Passes(old(timeline), old(model), timeline, model, due, Answered(old(stateFile.saves)))
      ensures due && Answered(old(stateFile.saves)) ==> model.saved == model.done
    {
      if due {
        SaveStatus();
      } else {
        NothingHappens(timeline, model, false);
      }
    }

    // -------- finishing --------

    /** download_state_all_chunks_done. */
    method AllChunksDone() returns (complete: bool)
      requires Valid()
      ensures complete <==> AllDone(model)
    {
      complete := state.AllChunksDone();
      assert model.done == state.Done();
      assert complete <==> forall o | 0 <= o < model.total :: o in model.done;
    }

    /** finalize_download, which runs once everything is done: persist, close, check the
        byte count, move the file. */
    method FinalizeDownload(ending: Ending)
      requires Valid() && AllDone(model) && !outcome.Finished?
      modifies slots, this`model, stateFile, this`timeline, this`outcome
      modifies state`bytesDownloaded, state`ranges, state`count, state.ranges, file, file.buf0, file.buf1
      ensures Valid() && (state.ranges == old(state.ranges) || fresh(state.ranges))
      ensures Matches(Finalize(old(model), model.file, ending.AllWell()), model)
      ensures old(stateFile.saves) <= stateFile.saves
      ensures Passes(old(timeline), old(model), timeline, model, false, Answered(old(stateFile.saves)))
    {
      if outcome != Running {
        NothingHappens(timeline, model, false);
        return;
      }
      CloseDownload(ending);
    }

    /** The same for a download that has not failed. */
    method CloseDownload(ending: Ending)
      requires Valid() && AllDone(model) && outcome == Running
      modifies slots, this`model, stateFile, this`timeline, this`outcome
      modifies state`bytesDownloaded, state`ranges, state`count, state.ranges, file, file.buf0, file.buf1
      ensures Valid() && (state.ranges == old(state.ranges) || fresh(state.ranges))
      ensures Matches(Finalize(old(model), model.file, ending.AllWell()), model)
      ensures old(stateFile.saves) <= stateFile.saves
      ensures Passes(old(timeline), old(model), timeline, model, false, Answered(old(stateFile.saves)))
    {
      ghost var job, t, n := model, timeline, stateFile.saves;
      PersistBufferedProgress();
      ghost var kept, mid := model, timeline;
      assert 0 in kept.done;
      CloseAndCount(ending);
      Finalized(t, job, mid, kept, timeline, model, ending.AllWell(), Answered(n));
    }

    /** The end of finalize_download: the byte count decides whether the file is moved. */
    method CloseAndCount(ending: Ending)
      requires Represents() && 0 in model.done && !outcome.Finished?
      modifies this`model, this`timeline, this`outcome, file, file.buf0, file.buf1
      ensures Represents() && model.file.Drained()
      ensures model == Counted(old(model), model.file, !model.file.failed && ending.AllWell())
      ensures HandsOver(old(timeline), old(model), map[], timeline, model)
    {
      var ok := CloseFile(ending.synced, ending.closed);
      Conclude(ok, ending.moved);
    }

    /** `moved` says whether the file gets to its place. */
    method Conclude(closed: bool, moved: bool)
      requires Represents() && 0 in model.done
      modifies this`model, this`outcome
      ensures Represents()
      ensures model == old(model).(outcome := Counted(old(model), model.file, closed && moved).outcome)
    {
      outcome := Stopped;
      if closed {
        var bytes := state.BytesDone();
        if bytes >= state.totalSize && moved {
          outcome := Finished(file.disk);
        }
      }
      model := model.(outcome := outcome);
    }

    /** close_file. */
    method CloseFile(synced: bool, closed: bool) returns (ok: bool)
      requires Represents() && !outcome.Finished?
      modifies this`model, this`timeline, file, file.buf0, file.buf1
      ensures Represents() && model == old(model).(file := model.file) && model.file.Drained()
      ensures HandsOver(old(timeline), old(model), map[], timeline, model)
      ensures ok <==> !model.file.failed && synced && closed
    {
      ghost var from := |file.history| - 1;
      ok := file.Close(synced, closed);
      Record(from, map[]);
    }

    method ReceivedWasMarked(i: nat) returns (already: bool)
      requires Valid() && Touches(model, i) && model.slots[i].received > 0
      ensures already == AlreadyMarked(model, i)
    {
      ReceivedInFile(model, i);
      already := state.IsRangeDone(slots[i].rangeStart, slots[i].rangeStart + slots[i].received - 1);
    }

    /** slot_mark_segment_done: false when the slot has received nothing. */
    method MarkSegmentDone(i: nat) returns (ok: bool)
      requires Valid() && Touches(model, i) && !outcome.Finished?
      modifies slots, this`model, stateFile, this`timeline
      modifies state`bytesDownloaded, state`ranges, state`count, state.ranges, file, file.buf0, file.buf1
      ensures Valid() && Touches(model, i) && (state.ranges == old(state.ranges) || fresh(state.ranges))
      ensures ok <==> old(model).slots[i].received > 0
      ensures if ok then Matches(MarkSegment(old(model), i, model.file), model) else model == old(model)
      ensures old(stateFile.saves) <= stateFile.saves
      ensures Passes(old(timeline), old(model), timeline, model, false, Answered(old(stateFile.saves)))
    {
      ok := slots[i].received > 0;
      if ok {
        var already := ReceivedWasMarked(i);
        if !already {
          MarkReceivedSoundly(i);
          return;
        }
      }
      NothingHappens(timeline, model, false);
    }

    /** The same for a slot that has received something, and whether it was all done before. */
    method MarkOnce(i: nat) returns (already: bool)
      requires Valid() && Touches(model, i) && model.slots[i].received > 0 && !outcome.Finished?
      modifies slots, this`model, stateFile, this`timeline
      modifies state`bytesDownloaded, state`ranges, state`count, state.ranges, file, file.buf0, file.buf1
      ensures Valid() && Touches(model, i) && (state.ranges == old(state.ranges) || fresh(state.ranges))
      ensures already == AlreadyMarked(old(model), i)
      ensures Matches(MarkSegment(old(model), i, model.file), model)
      ensures old(stateFile.saves) <= stateFile.saves
      ensures Passes(old(timeline), old(model), timeline, model, false, Answered(old(stateFile.saves)))
    {
      already := ReceivedWasMarked(i);
      var ok := MarkSegmentDone(i);
    }

    method MarkReceivedSoundly(i: nat)
      requires Valid() && Touches(model, i) && !outcome.Finished?
      requires model.slots[i].received > 0 && !AlreadyMarked(model, i)
      modifies slots, this`model, stateFile, this`timeline
      modifies state`bytesDownloaded, state`ranges, state`count, state.ranges, file, file.buf0, file.buf1
      ensures Valid() && Touches(model, i) && (state.ranges == old(state.ranges) || fresh(state.ranges))
      ensures Matches(MarkSegment(old(model), i, model.file), model)
      ensures old(stateFile.saves) <= stateFile.saves
      ensures Passes(old(timeline), old(model), timeline, model, false, Answered(old(stateFile.saves)))
    {
      ghost var job, t := model, timeline;
      ReceivedInFile(job, i);
      MarkReceivedRange(i, slots[i].rangeStart + slots[i].received - 1);
      MarkSegmentKeepsSound(job, i, model.file);
      MatchIsSound(t, job, timeline, MarkSegment(job, i, model.file), model, false);
    }

    /** The part of slot_mark_segment_done that marks. */
    method MarkReceivedRange(i: nat, last: nat)
      requires Represents() && !outcome.Finished?
      requires i < slots.Length && model.slots[i].rangeStart <= last < model.total
      modifies slots, this`model, stateFile, this`timeline
      modifies state`bytesDownloaded, state`ranges, state`count, state.ranges, file, file.buf0, file.buf1
      ensures Represents() && (state.ranges == old(state.ranges) || fresh(state.ranges))
      ensures var slot := old(model).slots[i];
              var noted := old(model).(slots := old(model).slots[i := slot.(persisted := slot.received)]);
              Matches(Mark(noted, Interval(slot.rangeStart, last), model.file), model)
      ensures old(stateFile.saves) <= stateFile.saves
      ensures Passes(old(timeline), old(model), timeline, model, false, Answered(old(stateFile.saves)))
    {
      ghost var job := model;
      MarkDone(slots[i].rangeStart, last);
      SetSlot(i, slots[i].(persisted := slots[i].received));
      DrainAndSave(job.done);
    }

    /** chunk_slot_release. */
    method Release(i: nat)
      requires Valid() && i < slots.Length
      modifies slots, this`model
      ensures Valid() && model == Engine.Release(old(model), i)
    {
      ReleaseKeepsSound(model, i);
      SetSlot(i, FREE_SLOT);
    }

    /** slot_pick_next_range: the segment for the reuse of slot `i`'s connection. */
    method PickNextRange(i: nat) returns (found: bool, range: ByteRange, ghost next: Option<nat>)
      requires Valid() && i < slots.Length
      ensures Picks(model, i, next) && (found <==> next.Some?)
      ensures found ==> range.start == SegmentStart(model.chunkSize, next.value)
                        && range.end == SegmentEndNat(model, next.value)
    {
      var out := new ByteRange[1](_ => ByteRange(0, 0));
      range := out[0];
      var selected := SelectChunks(strategy, slots.Length, state, 1, Accepting(slots[..], i), out);
      found := selected > 0;
      next := SomePick(model, i);
      if found {
        range := out[0];
        assert out[..selected][0] == out[0];
      }
    }

    /** The end of slot_finish_continuous: reuse the connection for another segment, or
        let go of the slot. */
    method ReuseOrRelease(i: nat) returns (ghost next: Option<nat>)
      requires Valid() && Touches(model, i)
      modifies slots, this`model
      ensures Valid() && Picks(old(model), i, next)
      ensures model == Engine.ReuseOrRelease(old(model), i, next)
    {
      if slots[i].keepAlive {
        var found, range;
        found, range, next := PickNextRange(i);
        ReuseKeepsSound(model, i, next);
        if found {
          SetSlot(i, ResetSlot(slots[i], range.start, range.end));
          return;
        }
      } else {
        next := SomePick(model, i);
      }
      Release(i);
    }

    method RestSlot(i: nat)
      requires Valid() && Touches(model, i)
      modifies slots, this`model
      ensures Valid() && Touches(model, i)
      ensures model == RestingSlot(old(model), i)
    {
      ReplaceKeepingRange(model, i, Rested(model.slots[i]));
      SetSlot(i, Rested(slots[i]));
    }

    /** The slot rests, and then the status is saved when that is due. */
    method RestAndSave(i: nat, due: bool)
      requires Valid() && Touches(model, i) && !outcome.Finished?
      modifies slots, this`model, stateFile, this`timeline
      modifies state`bytesDownloaded, state`ranges, state`count, state.ranges, file, file.buf0, file.buf1
      ensures Valid() && Touches(model, i) && (state.ranges == old(state.ranges) || fresh(state.ranges))
      ensures Matches(PersistIf(RestingSlot(old(model), i), due, model.file), model)
      ensures old(stateFile.saves) <= stateFile.saves
      ensures Passes(old(timeline), old(model), timeline, model, due, Answered(old(stateFile.saves)))
      ensures due && Answered(old(stateFile.saves)) ==> model.saved == model.done
    {
      RestSlot(i);
      ghost var rested := model;
      SaveStatusWhenDue(due);
      SlotStaysInUse(rested, due, i, model);
    }

    /** The head of slot_finish_continuous: mark what was received, rest the slot, and save
        the status when that is due. */
    method MarkAndRest(i: nat, due: bool) returns (ok: bool)
      requires Valid() && Touches(model, i) && !outcome.Finished?
      modifies slots, this`model, stateFile, this`timeline
      modifies state`bytesDownloaded, state`ranges, state`count, state.ranges, file, file.buf0, file.buf1
      ensures Valid() && Touches(model, i) && (state.ranges == old(state.ranges) || fresh(state.ranges))
      ensures ok <==> old(model).slots[i].received > 0
      ensures if ok then Matches(MarkedAndRested(old(model), i, due, model.file), model) else model == old(model)
      ensures old(stateFile.saves) <= stateFile.saves
      ensures Passes(old(timeline), old(model), timeline, model, due, Answered(old(stateFile.saves)))
      ensures ok && due && Answered(old(stateFile.saves)) ==> model.saved == model.done
    {
      ghost var job, t, n := model, timeline, stateFile.saves;
      ok := MarkSegmentDone(i);
      ghost var marked, mid, k := model, timeline, stateFile.saves;
      PassesAnyway(t, job, mid, marked, due, Answered(n));
      if ok {
        RestAndSave(i, due);
        stateFile.AnsweredThen(n, k, stateFile.saves);
        PassesThen(t, job, mid, marked, due, stateFile.Answered(n, k), timeline, model, due, Answered(k));
        RestedMatches(job, i, due, marked, model);
      }
    }

    /** slot_finish_continuous: mark what was received, then finish the download, reuse the
        connection, or let go of the slot. */
    method FinishContinuous(i: nat, due: bool, ending: Ending) returns (ghost next: Option<nat>)
      requires Valid() && Touches(model, i) && outcome == Running
      modifies slots, this`model, stateFile, this`timeline, this`outcome
      modifies state`bytesDownloaded, state`ranges, state`count, state.ranges, file, file.buf0, file.buf1
      ensures Valid() && (state.ranges == old(state.ranges) || fresh(state.ranges))
      ensures old(model).slots[i].received > 0 ==> Picks(MarkedAndRested(old(model), i, due, model.file), i, next)
      ensures Matches(Finish(old(model), i, due, next, model.file, ending.AllWell()), model)
      ensures old(stateFile.saves) <= stateFile.saves
      ensures Passes(old(timeline), old(model), timeline, model, due, Answered(old(stateFile.saves)))
      ensures old(model).slots[i].received > 0 && due && Answered(old(stateFile.saves)) && !model.file.failed ==>
                model.saved == model.done
    {
      ghost var job, t, n := model, timeline, stateFile.saves;
      var ok := MarkAndRest(i, due);
      next := None;
      if !ok {
        Release(i);
        return;
      }
      ghost var rested, mid, k := model, timeline, stateFile.saves;
      next := FinishRested(i, ending);
      stateFile.AnsweredThen(n, k, stateFile.saves);
      PassesThen(t, job, mid, rested, due, stateFile.Answered(n, k), timeline, model, false, Answered(k));
      FinishedMatches(job, i, due, next, rested, model, ending.AllWell());
    }

    /** The rest of it, once the slot rests. */
    method FinishRested(i: nat, ending: Ending) returns (ghost next: Option<nat>)
      requires Valid() && Touches(model, i) && outcome == Running
      modifies slots, this`model, stateFile, this`timeline, this`outcome
      modifies state`bytesDownloaded, state`ranges, state`count, state.ranges, file, file.buf0, file.buf1
      ensures Valid() && (state.ranges == old(state.ranges) || fresh(state.ranges))
      ensures Picks(old(model), i, next)
      ensures Matches(Engine.FinishRested(old(model), i, next, model.file, ending.AllWell()), model)
      ensures old(stateFile.saves) <= stateFile.saves
      ensures Passes(old(timeline), old(model), timeline, model, false, Answered(old(stateFile.saves)))
    {
      ghost var rested := model;
      var complete := AllChunksDone();
      if complete {
        next := SomePick(rested, i);
        Release(i);
        FinalizeDownload(ending);
      } else {
        next := ReuseOrRelease(i);
        NothingHappens(timeline, model, false);
      }
    }

    // -------- the network callbacks --------

    /** The READ branch behind the body write: extend the full slot, drain it, or find that
        the response is over. */
    method AfterBodyWrite(i: nat) returns (verdict: Verdict)
      requires Valid() && Touches(model, i) && model.slots[i].streaming && model.slots[i].headersReceived
      modifies slots, this`model
      ensures Valid() && Touches(model, i)
      ensures (model, verdict) == AfterBody(old(model), i)
    {
      AfterBodyKeepsSound(model, i);
      if outcome != Running {
        return Failed;
      }
      PositionInReservation(model, i);
      if slots[i].rangeStart + slots[i].received == slots[i].reservedEnd + 1 {
        var extended := TryExtendReservation(i);
        if !extended {
          if slots[i].responseRemaining > DL_DRAIN_MAX_BYTES {
            SetSlot(i, slots[i].(keepAlive := false));
            return FinishSlot;
          }
          SetSlot(i, slots[i].(draining := true, streaming := false));
          return Keep;
        }
      }
      verdict := if slots[i].responseRemaining == 0 && slots[i].received > 0 then FinishSlot else Keep;
    }

    /** What arrives for a slot that only drains its response is thrown away. */
    method DiscardBody(i: nat, len: nat) returns (verdict: Verdict)
      requires Valid() && Touches(model, i)
      modifies slots, this`model
      ensures Valid() && Touches(model, i)
      ensures (model, verdict) == AfterDiscard(old(model), i, len)
    {
      AfterDiscardKeepsSound(model, i, len);
      var remaining := slots[i].responseRemaining;
      var discard := if remaining > 0 && len > remaining then remaining else len;
      remaining := if remaining >= discard then remaining - discard else 0;
      SetSlot(i, slots[i].(responseRemaining := remaining));
      verdict := if remaining == 0 then FinishSlot else Keep;
    }

    method TakeBody(i: nat, data: seq<byte>) returns (verdict: Verdict)
      requires Valid() && outcome == Running && Touches(model, i)
      requires model.slots[i].streaming || model.slots[i].draining
      modifies this`outcome, this`model, this`timeline, slots
      modifies file, file.buf0, file.buf1, file.buf0.data, file.buf1.data
      ensures Valid() && Touches(model, i)
      ensures HandsOver(old(timeline), old(model), TakenBytes(old(model), i, data), timeline, model)
      ensures (model, verdict) == ReadSlot(old(model), i, data, model.file)
      ensures !outcome.Finished? && (verdict != Failed ==> outcome == Running)
      ensures verdict == FinishSlot ==> model.slots[i].received > 0
    {
      ghost var job := model;
      if slots[i].streaming {
        var ok := WriteBody(i, data);
        BodyKeepsStreaming(job, i, data, model.file);
        verdict := AfterBodyWrite(i);
      } else {
        NothingHappens(timeline, job, false);
        verdict := DiscardBody(i, |data|);
      }
      ReadKeepsDone(job, i, data, model.file);
      FinishedHasReceived(job, i, data, model.file);
    }

    /** MG_EV_READ with body bytes; `due` says whether the throttled saves have come due. */
    method OnRead(i: nat, data: seq<byte>, due: bool, ending: Ending)
      returns (ghost next: Option<nat>, ghost io: Io)
      requires Valid() && outcome == Running && Enabled(model, Read(i, data, None, due))
      modifies slots, this`model, stateFile, this`timeline, this`outcome
      modifies state`bytesDownloaded, state`ranges, state`count, state.ranges
      modifies file, file.buf0, file.buf1, file.buf0.data, file.buf1.data
      ensures Valid()
      ensures Takes(old(timeline), old(model), Read(i, data, next, due), io, timeline, model)
    {
      ghost var job, t, n := model, timeline, stateFile.saves;
      var verdict := TakeBody(i, data);
      ghost var read, mid := model, timeline;
      next := ReactToBody(i, verdict, due, ending);
      io := IoOf(t, mid, timeline, ending.AllWell(), Answered(n));
      ReadTakesStep(t, job, i, data, verdict, next, due, mid, read, timeline, ending.AllWell(), Answered(n), model);
    }

    /** What the READ branch does when the body has been taken. */
    method ReactToBody(i: nat, verdict: Verdict, due: bool, ending: Ending)
      returns (ghost next: Option<nat>)
      requires Valid() && Touches(model, i) && !outcome.Finished? && (verdict != Failed ==> outcome == Running)
      requires verdict == FinishSlot ==> model.slots[i].received > 0
      modifies slots, this`model, stateFile, this`timeline, this`outcome
      modifies state`bytesDownloaded, state`ranges, state`count, state.ranges, file, file.buf0, file.buf1
      ensures Valid() && (state.ranges == old(state.ranges) || fresh(state.ranges))
      ensures Reacted(old(model), i, verdict, next, due, ending.AllWell(), model)
      ensures old(stateFile.saves) <= stateFile.saves
      ensures Passes(old(timeline), old(model), timeline, model, due, Answered(old(stateFile.saves)))
      ensures verdict == FinishSlot && due && Answered(old(stateFile.saves)) && !model.file.failed ==>
                model.saved == model.done
    {
      ghost var read, t, n := model, timeline, stateFile.saves;
      next := None;
      if verdict == FinishSlot {
        next := FinishContinuous(i, due, ending);
      } else if verdict == Keep && due && !slots[i].draining {
        PersistBufferedProgress();
        PassesAnyway(t, read, timeline, model, due, Answered(n));
      } else {
        NothingHappens(t, read, due);
      }
    }

    /** The headers of a 206 response and begin_chunk_body; `body` is what arrived with them.
        Unless its write fails, the status is saved at the end. */
    method OnHeaders(i: nat, length: Option<nat>, keepAlive: bool, body: seq<byte>) returns (ghost io: Io)
      requires Valid() && outcome == Running && Enabled(model, Headers(i, length, keepAlive, body))
      modifies slots, this`model, stateFile, this`timeline, this`outcome
      modifies state`bytesDownloaded, state`ranges, state`count, state.ranges
      modifies file, file.buf0, file.buf1, file.buf0.data, file.buf1.data
      ensures Valid() && Touches(model, i) && model.slots[i].headersReceived && !outcome.Finished?
      ensures Takes(old(timeline), old(model), Headers(i, length, keepAlive, body), io, timeline, model)
      ensures state.ranges == old(state.ranges) || fresh(state.ranges)
    {
      ghost var job, t, n := model, timeline, stateFile.saves;
      var ok := StartBody(i, length, keepAlive, body);
      ghost var started, mid := model, timeline;
      if ok {
        SaveStatus();
      } else {
        NothingHappens(timeline, model, true);
      }
      io := IoOf(t, mid, timeline, true, Answered(n));
      HeadersTakeStep(t, job, i, length, keepAlive, body, mid, started, timeline, Answered(n), model);
      StartedKeepsHeaders(started, ok, i, model);
    }

    /** Up to the status save. */
    method StartBody(i: nat, length: Option<nat>, keepAlive: bool, body: seq<byte>) returns (ok: bool)
      requires Valid() && outcome == Running && Touches(model, i) && !model.slots[i].headersReceived
      modifies this`outcome, this`model, this`timeline, slots
      modifies file, file.buf0, file.buf1, file.buf0.data, file.buf1.data
      ensures Valid()
      ensures var begun := Begin(old(model), i, length, keepAlive);
              && HandsOver(old(timeline), begun, BodyBytes(begun, i, body), timeline, model)
              && model == Engine.WriteBody(begun, i, body, model.file)
      ensures Touches(model, i) && model.slots[i].headersReceived
      ensures model.outcome == if ok then Running else Stopped
    {
      BeginBody(i, length, keepAlive);
      ghost var begun := model;
      ok := WriteBody(i, body);
      BodyKeepsStreaming(begun, i, body, model.file);
    }

    method BeginBody(i: nat, length: Option<nat>, keepAlive: bool)
      requires Valid() && Touches(model, i) && !model.slots[i].headersReceived
      modifies slots, this`model
      ensures Valid() && model == Begin(old(model), i, length, keepAlive)
      ensures Touches(model, i) && model.slots[i].streaming
    {
      BeginKeepsSound(model, i, length, keepAlive);
      var slot := slots[i];
      SetSlot(i, slot.(headersReceived := true, keepAlive := slot.keepAlive && keepAlive, streaming := true,
                       responseRemaining := if length.Some? then length.value else slot.responseRemaining,
                       writeOffset := slot.rangeStart, received := 0, delivered := 0));
    }

    /** flush_recv_body: what is still in the receive buffer of a streaming slot. */
    method FlushRecvBody(i: nat, rest: seq<byte>)
      requires Valid() && Touches(model, i)
      modifies this`outcome, this`model, this`timeline, slots
      modifies file, file.buf0, file.buf1, file.buf0.data, file.buf1.data
      ensures Valid() && Touches(model, i)
      ensures HandsOver(old(timeline), old(model), TakenBytes(old(model), i, rest), timeline, model)
      ensures model == Flush(old(model), i, rest, model.file)
    {
      if slots[i].streaming {
        var ok := WriteBody(i, rest);
      } else {
        NothingHappens(timeline, model, false);
      }
    }

    method FinalizeWhenDone(ending: Ending)
      requires Valid() && !outcome.Finished?
      modifies slots, this`model, stateFile, this`timeline, this`outcome
      modifies state`bytesDownloaded, state`ranges, state`count, state.ranges, file, file.buf0, file.buf1
      ensures Valid() && (state.ranges == old(state.ranges) || fresh(state.ranges))
      ensures Matches(FinalizeIfDone(old(model), model.file, ending.AllWell()), model)
      ensures old(stateFile.saves) <= stateFile.saves
      ensures Passes(old(timeline), old(model), timeline, model, false, Answered(old(stateFile.saves)))
    {
      var complete := AllChunksDone();
      if complete {
        FinalizeDownload(ending);
      } else {
        NothingHappens(timeline, model, false);
      }
    }

    /** complete_chunk_slot, for a slot that has received something: a range that was done
        before is not marked again, and then no status is saved either. */
    method MarkAndRelease(i: nat, due: bool)
      requires Valid() && Touches(model, i) && model.slots[i].received > 0 && !outcome.Finished?
      modifies slots, this`model, stateFile, this`timeline
      modifies state`bytesDownloaded, state`ranges, state`count, state.ranges, file, file.buf0, file.buf1
      ensures Valid() && (state.ranges == old(state.ranges) || fresh(state.ranges))
      ensures old(stateFile.saves) <= stateFile.saves && model.outcome == old(model).outcome
      ensures Passes(old(timeline), old(model), timeline, model, due, Answered(old(stateFile.saves)))
      ensures Matches(MarkedAndReleased(old(model), i, due, model.file), model)
    {
      ghost var job, t, n := model, timeline, stateFile.saves;
      var already := MarkOnce(i);
      ghost var marked, mid, k := model, timeline, stateFile.saves;
      ReleaseAndSave(i, due && !already);
      stateFile.AnsweredThen(n, k, stateFile.saves);
      ReleasedMatches(t, job, i, due, mid, marked, stateFile.Answered(n, k), timeline, model, Answered(k));
    }

    /** The slot is free again, and then the status is saved when that is due. */
    method ReleaseAndSave(i: nat, due: bool)
      requires Valid() && i < slots.Length && !outcome.Finished?
      modifies slots, this`model, stateFile, this`timeline
      modifies state`bytesDownloaded, state`ranges, state`count, state.ranges, file, file.buf0, file.buf1
      ensures Valid() && (state.ranges == old(state.ranges) || fresh(state.ranges))
      ensures Matches(PersistIf(Engine.Release(old(model), i), due, model.file), model)
      ensures old(stateFile.saves) <= stateFile.saves
      ensures Passes(old(timeline), old(model), timeline, model, due, Answered(old(stateFile.saves)))
    {
      Release(i);
      SaveStatusWhenDue(due);
    }

    /** complete_chunk_slot and what follows it when a connection has closed. */
    method CompleteChunkSlot(i: nat, hadBody: bool, due: bool, ending: Ending)
      requires Valid() && Touches(model, i) && !outcome.Finished?
      modifies slots, this`model, stateFile, this`timeline, this`outcome
      modifies state`bytesDownloaded, state`ranges, state`count, state.ranges, file, file.buf0, file.buf1
      ensures Valid() && (state.ranges == old(state.ranges) || fresh(state.ranges))
      ensures Matches(CompleteSlot(old(model), i, hadBody, due, model.file, ending.AllWell()), model)
      ensures old(stateFile.saves) <= stateFile.saves
      ensures Passes(old(timeline), old(model), timeline, model, due, Answered(old(stateFile.saves)))
    {
      ghost var job, t, n := model, timeline, stateFile.saves;
      if !hadBody {
        Release(i);
        FinalizeWhenDone(ending);
        EmptyCompletes(job, i, due, model, ending.AllWell());
        PassesAnyway(t, job, timeline, model, due, Answered(n));
      } else if slots[i].received == 0 {
        Release(i);
        NothingHappens(timeline, job, due);
      } else {
        MarkAndRelease(i, due);
        ghost var released, mid, k := model, timeline, stateFile.saves;
        FinalizeWhenDone(ending);
        stateFile.AnsweredThen(n, k, stateFile.saves);
        PassesThen(t, job, mid, released, due, stateFile.Answered(n, k), timeline, model, false, Answered(k));
        CompletedMatches(job, i, due, released, model, ending.AllWell());
      }
    }

    /** on_connection_closed behind the parse: `hadBody` was found before it. */
    method FlushAndComplete(i: nat, rest: seq<byte>, ghost late: bool, hadBody: bool, due: bool,
                            ending: Ending)
      returns (ghost io: Io)
      requires Valid() && !outcome.Finished? && Enabled(model, Close(i, rest, due, late))
      requires hadBody == (HadBody(model.slots[i]) && !late)
      modifies slots, this`model, stateFile, this`timeline, this`outcome
      modifies state`bytesDownloaded, state`ranges, state`count, state.ranges
      modifies file, file.buf0, file.buf1, file.buf0.data, file.buf1.data
      ensures Valid()
      ensures old(outcome) == Running ==>
                Takes(old(timeline), old(model), Close(i, rest, due, late), io, timeline, model)
    {
      ghost var job, t, n := model, timeline, stateFile.saves;
      FlushRecvBody(i, rest);
      FlushKeepsDone(job, i, rest, model.file);
      ghost var flushed, mid := model, timeline;
      CompleteChunkSlot(i, hadBody, due, ending);
      io := IoOf(t, mid, timeline, ending.AllWell(), Answered(n));
      if job.outcome == Running {
        CloseTakesStep(t, job, i, rest, due, late, mid, flushed, timeline, ending.AllWell(), Answered(n), model);
      }
    }

    /** on_connection_closed for a slot whose response has been parsed, or never came. */
    method OnClosed(i: nat, rest: seq<byte>, due: bool, ending: Ending) returns (ghost io: Io)
      requires Valid() && outcome == Running && Touches(model, i)
      modifies slots, this`model, stateFile, this`timeline, this`outcome
      modifies state`bytesDownloaded, state`ranges, state`count, state.ranges
      modifies file, file.buf0, file.buf1, file.buf0.data, file.buf1.data
      ensures Valid()
      ensures Takes(old(timeline), old(model), Close(i, rest, due, false), io, timeline, model)
    {
      var hadBody := slots[i].headersReceived && (slots[i].streaming || slots[i].received > 0);
      io := FlushAndComplete(i, rest, false, hadBody, due, ending);
    }

    /** on_connection_closed when try_parse_pending_response finds a response in the receive
        buffer. What it says is handled first; but `hadBody` was false before, so that the body
        is written and not marked. The steps are those of two events; the second one is not
        taken by a job that has failed in the first. */
    method OnClosedUnparsed(i: nat, length: Option<nat>, keepAlive: bool, body: seq<byte>, rest: seq<byte>,
                            ending: Ending)
      returns (ghost first: Io, ghost mid: seq<Instant>, ghost parsed: Job, ghost second: Io)
      requires Valid() && outcome == Running && Enabled(model, Headers(i, length, keepAlive, body))
      modifies slots, this`model, stateFile, this`timeline, this`outcome
      modifies state`bytesDownloaded, state`ranges, state`count, state.ranges
      modifies file, file.buf0, file.buf1, file.buf0.data, file.buf1.data
      ensures Valid()
      ensures Takes(old(timeline), old(model), Headers(i, length, keepAlive, body), first, mid, parsed)
      ensures parsed.outcome == Running ==>
                Takes(mid, parsed, Close(i, rest, false, true), second, timeline, model)
    {
      first := OnHeaders(i, length, keepAlive, body);
      mid, parsed := timeline, model;
      second := FlushAndComplete(i, rest, true, false, false, ending);
    }

    /** on_connection_closed when a new scheduling pass was asked for at the close. */
    method OnAbandoned(i: nat, rest: seq<byte>) returns (ghost io: Io)
      requires Valid() && outcome == Running && Touches(model, i)
      modifies this`outcome, this`model, this`timeline, slots
      modifies file, file.buf0, file.buf1, file.buf0.data, file.buf1.data
      ensures Valid()
      ensures Takes(old(timeline), old(model), Abandon(i, rest), io, timeline, model)
    {
      ghost var job, t := model, timeline;
      FlushRecvBody(i, rest);
      FlushKeepsDone(job, i, rest, model.file);
      ghost var flushed := model;
      Release(i);
      NothingHappens(timeline, flushed, false);
      io := IoOf(t, timeline, timeline, true, true);
      TakesStep(t, job, Abandon(i, rest), timeline, flushed, timeline, true, true, model);
    }

    // -------- scheduling --------

    /** chunk_slot_acquire: the first free slot, or none. */
    method AcquireSlot(start: nat, end: nat) returns (k: nat)
      requires Represents()
      modifies slots, this`model
      ensures Represents() && k == FirstFree(old(model).slots)
      ensures model == if k < |old(model).slots|
                       then old(model).(slots := old(model).slots[k := AcquiredSlot(start, end)]) else old(model)
    {
      k := 0;
      while k < slots.Length && slots[k].inUse
        invariant k <= slots.Length
        invariant forall j | 0 <= j < k :: model.slots[j].inUse
      {
        k := k + 1;
      }
      if k < slots.Length {
        SetSlot(k, AcquiredSlot(start, end));
      }
    }

    /** The loop body of schedule_pending_chunks: false when no slot is free. */
    method OpenConnection(start: nat, end: nat, connects: bool) returns (acquired: bool)
      requires Represents()
      requires forall j | 0 <= j < slots.Length && !slots[j].inUse :: slots[j] == FREE_SLOT
      modifies slots, this`model, this`outcome
      ensures Represents() && acquired == (FirstFree(old(model).slots) < |old(model).slots|)
      ensures model == if !acquired then old(model)
                       else if connects then
                         old(model).(slots := old(model).slots[FirstFree(old(model).slots) := AcquiredSlot(start, end)])
                       else old(model).(outcome := Stopped)
    {
      ghost var job := model;
      var k := AcquireSlot(start, end);
      acquired := k < slots.Length;
      if acquired && !connects {
        SetSlot(k, FREE_SLOT);
        assert job.slots[k := AcquiredSlot(start, end)][k := FREE_SLOT] == job.slots;
        outcome := Stopped;
        model := model.(outcome := Stopped);
      }
    }

    /** One iteration of it. */
    method OpenNext(ranges: seq<ByteRange>, ghost job: Job, ghost sel: seq<nat>, connected: seq<bool>, j: nat)
      returns (acquired: bool)
      requires Represents() && Acquiring(job, sel, connected, j, model, true) && j < |sel|
      requires RangesOf(job, sel, ranges)
      modifies slots, this`model, this`outcome
      ensures Represents()
      ensures Acquiring(job, sel, connected, if acquired then j + 1 else j, model, acquired)
    {
      ghost var before := model;
      FreeSlotsAreFree(before);
      acquired := OpenConnection(ranges[j].start, ranges[j].end, connected[j]);
      if acquired {
        AcquiredOne(job, sel, connected, j, before, model);
      }
    }

    /** The loop of schedule_pending_chunks. */
    method OpenConnections(ranges: seq<ByteRange>, ghost sel: seq<nat>, connected: seq<bool>)
      requires Valid() && |connected| == |sel| && RangesOf(model, sel, ranges) && Reservable(model, sel)
      modifies slots, this`model, this`outcome
      ensures Valid() && model == AcquireAll(old(model), sel, connected)
    {
      NothingAcquired(model, sel, connected);
      ghost var job := model;
      OpenEach(ranges, job, sel, connected);
    }

    method OpenEach(ranges: seq<ByteRange>, ghost job: Job, ghost sel: seq<nat>, connected: seq<bool>)
      requires Represents() && Acquiring(job, sel, connected, 0, model, true) && RangesOf(job, sel, ranges)
      modifies slots, this`model, this`outcome
      ensures Represents() && model == AcquireAll(job, sel, connected) && Sound(model)
    {
      var j := 0;
      var acquired := true;
      while acquired && j < |ranges|
        invariant j <= |ranges| && Represents()
        invariant Acquiring(job, sel, connected, j, model, acquired)
        decreases |ranges| - j, acquired
      {
        acquired := OpenNext(ranges, job, sel, connected, j);
        if acquired {
          j := j + 1;
        }
      }
      AllAcquired(job, sel, connected, j, model, acquired);
    }

    /** schedule_pending_chunks; `connects` are the answers of the connection attempts. */
    method SchedulePendingChunks(connects: seq<bool>, ending: Ending) returns (ghost e: Event, ghost io: Io)
      requires Valid() && outcome == Running && |connects| == DL_MAX_SEGMENT_CONCURRENCY
      modifies slots, this`model, stateFile, this`timeline, this`outcome
      modifies state`bytesDownloaded, state`ranges, state`count, state.ranges, file, file.buf0, file.buf1
      ensures Valid() && e.Schedule? && Takes(old(timeline), old(model), e, io, timeline, model)
    {
      ghost var job, t, n := model, timeline, stateFile.saves;
      var complete := AllChunksDone();
      if complete {
        FinalizeDownload(ending);
        e, io := Schedule([], []), IoOf(t, t, timeline, ending.AllWell(), Answered(n));
        FinalPassTakesStep(t, job, timeline, ending.AllWell(), Answered(n), model);
        return;
      }
      var ranges := SelectPending();
      var connected := connects[..|ranges|];
      SelectedAreReservable(job);
      OpenConnections(ranges, Pending(job), connected);
      e, io := Schedule(Pending(job), connected), IoOf(t, t, t, true, true);
      ScheduleTakesStep(t, job, Pending(job), connected, model);
    }

    /** The selection at the head of schedule_pending_chunks. */
    method SelectPending() returns (ranges: seq<ByteRange>)
      requires Valid()
      ensures RangesOf(model, Pending(model), ranges) && |ranges| <= DL_MAX_SEGMENT_CONCURRENCY
    {
      var active := CountActiveSlots();
      if active >= slots.Length {
        NothingSelected(model);
        return [];
      }
      var capacity := slots.Length - active;
      ranges := SelectUpTo(if capacity < DL_MAX_SEGMENT_CONCURRENCY then capacity else DL_MAX_SEGMENT_CONCURRENCY);
    }

    method SelectUpTo(limit: nat) returns (ranges: seq<ByteRange>)
      requires Represents() && limit <= DL_MAX_SEGMENT_CONCURRENCY
      ensures RangesOf(model, Selected(strategy, |model.slots|, Choices(model, -1), limit), ranges) && |ranges| <= limit
    {
      var out := new ByteRange[DL_MAX_SEGMENT_CONCURRENCY](_ => ByteRange(0, 0));
      var selected := SelectChunks(strategy, slots.Length, state, limit, Accepting(slots[..], -1), out);
      ranges := out[..selected];
    }

    // -------- the rest --------

    /** sync_state_metadata between two callbacks. */
    method SyncStateMetadata() returns (ghost io: Io)
      requires Valid() && outcome == Running
      modifies slots, this`model, stateFile, this`timeline
      modifies state`bytesDownloaded, state`ranges, state`count, state.ranges, file, file.buf0, file.buf1
      ensures Valid() && Takes(old(timeline), old(model), SaveMetadata, io, timeline, model)
    {
      ghost var job, t, n := model, timeline, stateFile.saves;
      SaveStatus();
      io := IoOf(t, t, timeline, true, Answered(n));
      NothingHappens(t, job, false);
      TakesStep(t, job, SaveMetadata, t, job, timeline, true, Answered(n), model);
    }

    method LetWorkerRun()
      requires Valid()
      modifies this`model, this`timeline, file
      ensures Valid() && model == old(model).(file := model.file)
      ensures HandsOver(old(timeline), old(model), map[], timeline, model)
    {
      ghost var from := |file.history| - 1;
      assert file.history[from..] == [model.file];
      file.LetWorkerRun(from, map[]);
      assert file.accepted + map[] == file.accepted;
      Record(from, map[]);
    }

    /** Progress of the writer's worker between two callbacks. */
    method WorkerRuns() returns (ghost io: Io)
      requires Valid() && outcome == Running
      modifies this`model, this`timeline, file
      ensures Valid() && Takes(old(timeline), old(model), Event.WorkerRuns, io, timeline, model)
    {
      ghost var job, t := model, timeline;
      LetWorkerRun();
      io := IoOf(t, t, timeline, true, true);
      WorkerTakesStep(t, job, timeline, model);
    }
  }
}
