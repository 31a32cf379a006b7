/** The writer of src/file_async.c as code: two fixed byte buffers, the producer's calls
    with their loops, and the pool worker, which acts whenever the lock is free. Each
    method is proved to perform a run of the state machine of module Writers. */
module AsyncFiles {
  import opened Machine
  import opened Writers

  /** struct SwapBuffer. */
  class SwapBufferCell {
    const data: array<byte>
    var offset: nat
    var len: nat

    constructor ()
      ensures data.Length == BUFFER_SIZE && len == 0 && offset == 0 && fresh(data)
    {
      data := new byte[BUFFER_SIZE];
      offset, len := 0, 0;
    }

    ghost predicate Valid()
      reads this
    {
      data.Length == BUFFER_SIZE && len <= BUFFER_SIZE
    }

    ghost function Value(): SwapBuffer
      reads this, data
      requires Valid()
    {
      SwapBuffer(offset, data[..len])
    }

    /** memcpy of `chunk` behind the bytes already buffered; an empty buffer starts at `at`. */
    method Fill(at: nat, chunk: seq<byte>)
      requires Valid() && len + |chunk| <= BUFFER_SIZE
      modifies this, data
      ensures Valid()
      ensures Value() == SwapBuffer(if old(len) == 0 then at else old(offset), old(data[..len]) + chunk)
    {
      if len == 0 {
        offset := at;
      }
      ghost var before := data[..len];
      forall i | 0 <= i < |chunk| {
        data[len + i] := chunk[i];
      }
      assert data[..len] == before;
      len := len + |chunk|;
      assert data[..len] == before + chunk;
    }
  }

  /** What becomes of a buffer that is handed over: whether the thread pool takes the task, and
      whether seek, write and flush succeed. */
  datatype Answer = Answer(submitted: bool, written: bool)

  class AsyncFile {
    const answers: nat -> Answer  // for every buffer in turn
    var handed: nat               // how many buffers have been handed over
    var disk: Disk
    const buf0: SwapBufferCell
    const buf1: SwapBufferCell
    var active: int
    var pending: int
    var workerQueued: bool
    var failed: bool
    var written: nat              // how far the worker is inside the pending buffer
    ghost var accepted: Disk
    ghost var history: seq<Writer> // every state so far, the present one last

    ghost predicate Shape()
      reads this, buf0, buf1
    {
      && buf0 != buf1 && buf0.data != buf1.data
      && buf0.Valid() && buf1.Valid()
    }

    ghost function Abs(): Writer
      reads this, buf0, buf1, buf0.data, buf1.data
      requires Shape()
    {
      Writer(disk, buf0.Value(), buf1.Value(), active, pending, workerQueued, failed, written, accepted)
    }

    ghost predicate Valid()
      reads this, buf0, buf1, buf0.data, buf1.data
    {
      && Shape()
      && Inv(Abs()) && FailedWhenRefused()
      && history != [] && Last(history) == Abs()
    }

    /** The writes of the first `n` buffers have succeeded. */
    ghost predicate Unrefused(n: nat) {
      forall k: nat | k < n :: answers(k).written
    }

    /** The error flag is set exactly when a write has been refused; the buffer that is pending
        has not been judged yet. */
    ghost predicate FailedWhenRefused()
      reads this
    {
      && (pending >= 0 ==> handed > 0)
      && (failed <==> !Unrefused(if pending >= 0 then handed - 1 else handed))
    }

    lemma OneMoreBuffer(n: nat)
      ensures Unrefused(n + 1) <==> Unrefused(n) && answers(n).written
    {
    }

    /** The states visited since `from` make a run with the given payload. */
    ghost predicate RanFrom(from: nat, payload: Disk)
      reads this
    {
      from < |history| && Trace(history[from..], payload)
    }

    constructor (disk: Disk, answers: nat -> Answer)
      ensures Valid() && Abs() == Opened(disk) && this.answers == answers
      ensures fresh(buf0) && fresh(buf1) && fresh(buf0.data) && fresh(buf1.data)
    {
      this.disk, this.accepted, this.answers, handed := disk, disk, answers, 0;
      buf0 := new SwapBufferCell();
      buf1 := new SwapBufferCell();
      active, pending := 0, -1;
      workerQueued, failed, written := false, false, 0;
      history := [Opened(disk)];
      new;
      OpenedKeepsInv(disk);
    }

    function Cell(i: int): SwapBufferCell
      reads this
    {
      if i == 0 then buf0 else buf1
    }

    /** How much the producer has buffered. */
    function ActiveLen(): nat
      reads this, buf0, buf1
    {
      Cell(active).len
    }

    /** Bytes the worker still has to write, plus one for taking the lock again. */
    ghost function WorkLeft(): nat
      reads this, buf0, buf1, buf0.data, buf1.data
      requires Shape() && Protocol(Abs())
    {
      if pending >= 0 then |Abs().Buf(pending).data| - written + 1 else 0
    }

    /** Appends the present state to the history. */
    ghost method Record(from: nat, payload: Disk)
      requires Shape() && history != [] && Inv(Last(history)) && FailedWhenRefused()
      requires RanFrom(from, payload) && Step(Last(history), Abs(), payload)
      modifies this`history
      ensures Valid() && RanFrom(from, payload)
      ensures history == old(history) + [Abs()]
    {
      StepKeepsInv(Last(history), Abs(), payload);
      TraceSnoc(history[from..], Abs(), payload);
      assert history[from..] + [Abs()] == (history + [Abs()])[from..];
      history := history + [Abs()];
    }

    // -------- the worker --------

    /** fwrite of the next `n` bytes of the pending buffer, without the lock. */
    method WorkerAdvance(n: nat, ghost from: nat, ghost payload: Disk)
      requires Valid() && RanFrom(from, payload)
      requires pending >= 0 && 0 < n && written + n <= |Abs().Buf(pending).data|
      modifies this`disk, this`written, this`history
      ensures Valid() && RanFrom(from, payload) && old(history) <= history
      ensures Advance(old(Abs()), Abs(), n)
      ensures WorkLeft() < old(WorkLeft())
    {
      PutNext(n);
      Record(from, payload);
    }

    /** The fwrite itself. */
    method PutNext(n: nat)
      requires Shape() && Protocol(Abs())
      requires pending >= 0 && 0 < n && written + n <= |Abs().Buf(pending).data|
      modifies this`disk, this`written
      ensures Advance(old(Abs()), Abs(), n)
    {
      ghost var w := Abs();
      var buf := Cell(pending);
      assert w.Buf(w.pending) == buf.Value();
      disk := disk + Bytes(buf.offset + written, buf.data[..buf.len][written..written + n]);
      written := written + n;
      assert Abs() == w.(disk := disk, written := written);
    }

    /** The worker takes the lock again and releases the buffer. */
    method WorkerComplete(ok: bool, ghost from: nat, ghost payload: Disk)
      requires Valid() && RanFrom(from, payload)
      requires pending >= 0 && (ok ==> written == |Abs().Buf(pending).data|)
      requires ok == answers(handed - 1).written
      modifies this`failed, this`pending, this`workerQueued, this`written, this`history
      ensures Valid() && RanFrom(from, payload) && old(history) <= history
      ensures Complete(old(Abs()), Abs(), ok)
      ensures WorkLeft() < old(WorkLeft())
    {
      ghost var w := Abs();
      if !ok {
        failed := true;
      }
      pending := -1;
      workerQueued := false;
      written := 0;
      assert Complete(w, Abs(), ok);
      OneMoreBuffer(handed - 1);
      Record(from, payload);
    }

    /** pthread_cond_wait while a buffer is pending: the lock is free and the worker makes
        some progress; how much is left open. */
    method Wait(ghost from: nat, ghost payload: Disk)
      requires Valid() && RanFrom(from, payload) && pending >= 0
      modifies this`disk, this`written, this`failed, this`pending, this`workerQueued, this`history
      ensures Valid() && RanFrom(from, payload) && old(history) <= history
      ensures WorkLeft() < old(WorkLeft()) && (old(failed) ==> failed)
    {
      var rest := Cell(pending).len - written;
      var n: nat := *;
      var succeeds := answers(handed - 1).written;
      if 0 < n <= rest {
        WorkerAdvance(n, from, payload);
      } else if succeeds && rest > 0 {
        WorkerAdvance(rest, from, payload);
      } else {
        WorkerComplete(succeeds, from, payload);
      }
    }

    /** Any amount of worker activity between two regions of the producer. */
    method LetWorkerRun(ghost from: nat, ghost payload: Disk)
      requires Valid() && RanFrom(from, payload)
      modifies this`disk, this`written, this`failed, this`pending, this`workerQueued, this`history
      ensures Valid() && RanFrom(from, payload) && old(history) <= history
      ensures old(failed) ==> failed
    {
      var go: bool := *;
      while go && pending >= 0
        invariant Valid() && RanFrom(from, payload) && old(history) <= history
        invariant old(failed) ==> failed
        decreases WorkLeft()
      {
        Wait(from, payload);
        go := *;
      }
    }

    // -------- the producer --------

    /** The loop that waits until no buffer is pending. */
    method AwaitWorker(ghost from: nat, ghost payload: Disk)
      requires Valid() && RanFrom(from, payload)
      modifies this`disk, this`written, this`failed, this`pending, this`workerQueued, this`history
      ensures Valid() && RanFrom(from, payload) && old(history) <= history
      ensures pending < 0 && (old(failed) ==> failed)
      ensures Cell(active).Value() == old(Cell(active).Value())
    {
      while pending >= 0
        invariant Valid() && RanFrom(from, payload) && old(history) <= history
        invariant old(failed) ==> failed
        decreases WorkLeft()
      {
        Wait(from, payload);
      }
    }

    /** Hands the active buffer to the worker and swaps to the free one, waiting for the
        previous hand-off first. */
    method SubmitLocked(ghost from: nat, ghost payload: Disk)
      requires Valid() && RanFrom(from, payload)
      modifies this, buf0, buf1
      ensures Valid() && RanFrom(from, payload) && old(history) <= history
      ensures ActiveLen() == 0 && Abs().Buf(active).data == [] && accepted == old(accepted)
      ensures old(failed) ==> failed
    {
      if Cell(active).len == 0 {
        return;
      }
      assert Abs().Buf(active).data != [];
      AwaitWorker(from, payload);
      if failed {
        Cell(active).len := 0;
        assert Discard(Last(history), Abs());
        Record(from, payload);
        return;
      }
      SwapActive(from, payload);
    }

    /** The swap itself and the hand-off. */
    method SwapActive(ghost from: nat, ghost payload: Disk)
      requires Valid() && RanFrom(from, payload)
      requires pending < 0 && !failed && Abs().Buf(active).data != []
      modifies this, buf0, buf1
      ensures Valid() && RanFrom(from, payload) && old(history) <= history
      ensures ActiveLen() == 0 && Abs().Buf(active).data == [] && accepted == old(accepted)
      ensures handed == old(handed) + 1 && workerQueued == answers(old(handed)).submitted
    {
      ghost var w := Abs();
      handed := handed + 1;
      pending := active;
      active := 1 - active;
      Cell(active).len := 0;
      assert Abs() == Swapped(w).(pending := w.active);
      if !workerQueued {
        Dispatch(w);
      }
      Record(from, payload);
    }

    /** The task for the thread pool. When the pool refuses it the buffer is written inline. */
    method Dispatch(ghost w: Writer)
      requires Shape() && Protocol(w) && w.pending < 0 && !w.failed && w.Buf(w.active).data != []
      requires Abs() == Swapped(w).(pending := w.active) && handed > 0 && Unrefused(handed - 1)
      modifies this`disk, this`failed, this`pending, this`workerQueued
      ensures Shape() && FailedWhenRefused() && workerQueued == answers(handed - 1).submitted
      ensures HandOff(w, Abs()) || exists n: nat, ok: bool :: InlineWrite(w, Abs(), n, ok)
    {
      OneMoreBuffer(handed - 1);
      if answers(handed - 1).submitted {
        workerQueued := true;
        assert HandOff(w, Abs());
      } else {
        WriteInline(w);
      }
    }

    /** The pool is unavailable: the producer writes the buffer it has swapped out. */
    method WriteInline(ghost w: Writer)
      requires Shape() && Protocol(w) && w.pending < 0 && !w.failed && w.Buf(w.active).data != []
      requires Abs() == Swapped(w).(pending := w.active) && handed > 0
      modifies this`disk, this`failed, this`pending
      ensures Shape() && exists n: nat, ok: bool :: InlineWrite(w, Abs(), n, ok)
      ensures pending < 0 && !workerQueued && failed == !answers(handed - 1).written
    {
      var full := Cell(pending);
      var n, succeeds := InlineWriteBuffer(full);
      assert full.data[..n] == w.Buf(w.active).data[..n];
      pending := -1;
      assert InlineWrite(w, Abs(), n, succeeds);
    }

    /** async_file_write_buffer on the producer's side; how far it gets when it is refused is
        left open. */
    method InlineWriteBuffer(buf: SwapBufferCell) returns (n: nat, succeeds: bool)
      requires buf.Valid() && !failed && handed > 0
      modifies this`disk, this`failed
      ensures succeeds == answers(handed - 1).written
      ensures n <= buf.len && (succeeds ==> n == buf.len)
      ensures disk == old(disk) + Bytes(buf.offset, buf.data[..n]) && failed == !succeeds
    {
      var reached: int := *;
      succeeds := answers(handed - 1).written;
      n := if !succeeds && 0 <= reached < buf.len then reached else buf.len;
      disk := disk + Bytes(buf.offset, buf.data[..n]);
      failed := !succeeds;
    }

    /** avar_async_file_write: returns true when nothing has failed. */
    method Write(offset: nat, data: seq<byte>) returns (ok: bool)
      requires Valid()
      modifies this, buf0, buf1, buf0.data, buf1.data
      ensures Valid() && old(history) <= history
      ensures Performs(Call.Write(offset, data), history[old(|history|) - 1..])
      ensures ok <==> !failed
    {
      ghost var from, payload := |history| - 1, Bytes(offset, data);
      ghost var before := accepted;
      assert before + Bytes(offset, data[..0]) == before;
      var cursor := 0;
      LetWorkerRun(from, payload);
      while cursor < |data| && !failed
        invariant Valid() && RanFrom(from, payload) && old(history) <= history
        invariant cursor <= |data|
        invariant !failed ==> accepted == before + Bytes(offset, data[..cursor])
        decreases |data| - cursor, ActiveLen()
      {
        cursor := WriteSome(offset, data, cursor, from, before);
      }
      ok := !failed;
      assert data[..|data|] == data;
    }

    /** The loop body: a non-contiguous write or a full buffer is submitted first. */
    method WriteSome(offset: nat, data: seq<byte>, cursor: nat, ghost from: nat, ghost before: Disk)
      returns (next: nat)
      requires Valid() && RanFrom(from, Bytes(offset, data)) && !failed && cursor < |data|
      requires accepted == before + Bytes(offset, data[..cursor])
      modifies this, buf0, buf1, buf0.data, buf1.data
      ensures Valid() && RanFrom(from, Bytes(offset, data)) && old(history) <= history
      ensures cursor <= next <= |data|
      ensures next > cursor || ActiveLen() < old(ActiveLen())
      ensures !failed ==> accepted == before + Bytes(offset, data[..next])
    {
      var buf := Cell(active);
      var room := BUFFER_SIZE - buf.len;
      if (buf.len > 0 && offset + cursor != buf.offset + buf.len) || room == 0 {
        SubmitLocked(from, Bytes(offset, data));
        return cursor;
      }
      next := cursor + (if |data| - cursor < room then |data| - cursor else room);
      AcceptedGrows(before, offset, data, cursor, next);
      Copy(offset, data, cursor, next, from);
      LetWorkerRun(from, Bytes(offset, data));
    }

    static lemma AcceptedGrows(before: Disk, offset: nat, data: seq<byte>, cursor: nat, next: nat)
      requires cursor <= next <= |data|
      ensures before + Bytes(offset, data[..cursor]) + Bytes(offset + cursor, data[cursor..next])
           == before + Bytes(offset, data[..next])
    {
      BytesConcat(offset, data[..cursor], data[cursor..next]);
      assert data[..next] == data[..cursor] + data[cursor..next];
      OverlayAssociates(before, Bytes(offset, data[..cursor]), Bytes(offset + cursor, data[cursor..next]));
    }

    /** The memcpy of one loop iteration of Write. */
    method Copy(offset: nat, data: seq<byte>, cursor: nat, next: nat, ghost from: nat)
      requires Valid() && RanFrom(from, Bytes(offset, data)) && !failed
      requires cursor < next <= |data| && ActiveLen() + next - cursor <= BUFFER_SIZE
      requires ActiveLen() == 0 || offset + cursor == Cell(active).offset + ActiveLen()
      modifies this, buf0, buf1, buf0.data, buf1.data
      ensures Valid() && RanFrom(from, Bytes(offset, data)) && old(history) <= history && !failed
      ensures accepted == old(accepted) + Bytes(offset + cursor, data[cursor..next])
    {
      ghost var w := Abs();
      Cell(active).Fill(offset + cursor, data[cursor..next]);
      accepted := accepted + Bytes(offset + cursor, data[cursor..next]);
      assert Append(w, Abs(), offset + cursor, data[cursor..next]);
      BytesSlice(offset, data, cursor, next);
      Record(from, Bytes(offset, data));
    }

    static lemma DrainPerformed(history: seq<Writer>, from: nat)
      requires from < |history| && Trace(history[from..], map[])
      requires Last(history).Drained() && Last(history).accepted == history[from].accepted
      ensures Performs(Call.Drain, history[from..])
    {
      assert history[from].accepted + map[] == history[from].accepted;
    }

    /** avar_async_file_drain. */
    method Drain() returns (ok: bool)
      requires Valid()
      modifies this, buf0, buf1
      ensures Valid() && old(history) <= history
      ensures Performs(Call.Drain, history[old(|history|) - 1..])
      ensures accepted == old(accepted)
      ensures ok <==> !failed
    {
      ghost var from, payload: Disk := |history| - 1, map[];
      LetWorkerRun(from, payload);
      SubmitLocked(from, payload);
      AwaitWorker(from, payload);
      DrainPerformed(history, from);
      ok := !failed;
    }

    /** avar_async_file_close up to the release of the memory; `synced` and `closed` are the
        answers of fsync and fclose. The drain has left the worker idle, so the wait for it
        ends at once. Success means that the disk holds every accepted write. */
    method Close(synced: bool, closed: bool) returns (ok: bool)
      requires Valid()
      modifies this, buf0, buf1
      ensures Valid() && old(history) <= history && !workerQueued && pending < 0
      ensures Performs(Call.Drain, history[old(|history|) - 1..])
      ensures ok <==> !failed && synced && closed
      ensures ok ==> disk == old(accepted)
    {
      ok := Drain();
      assert !workerQueued;
      if ok {
        DrainedDiskIsAccepted(Abs());
      }
      ok := ok && synced && closed;
    }
  }
}
