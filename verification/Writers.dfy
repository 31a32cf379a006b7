/** The double-buffered writer of src/file_async.c as a state machine: one producer that
    fills and hands off buffers while it holds the lock, and one worker that writes the
    handed-off buffer without the lock. Every value of `Writer` is a state in which the
    lock is free; the steps are the atomic regions of the two threads, and the worker's
    write is cut into arbitrary pieces so that the producer may act in the middle of it. */
module Writers {
  import opened Machine

  const BUFFER_SIZE: nat := 256 * 1024

  /** A file as far as it has been written: offsets that are absent are holes. */
  type Disk = map<int, byte>

  datatype SwapBuffer = SwapBuffer(offset: nat, data: seq<byte>)

  /** The bytes of `data` placed at `offset`. */
  function Bytes(offset: int, data: seq<byte>): Disk {
    if data == [] then map[]
    else Bytes(offset, data[..|data| - 1])[offset + |data| - 1 := data[|data| - 1]]
  }

  lemma {:induction false} BytesAt(offset: int, data: seq<byte>)
    ensures forall o :: o in Bytes(offset, data) <==> offset <= o < offset + |data|
    ensures forall o | o in Bytes(offset, data) :: Bytes(offset, data)[o] == data[o - offset]
  {
    if data != [] {
      BytesAt(offset, data[..|data| - 1]);
    }
  }

  lemma {:induction false} BytesConcat(offset: int, xs: seq<byte>, ys: seq<byte>)
    ensures Bytes(offset, xs + ys) == Bytes(offset, xs) + Bytes(offset + |xs|, ys)
  {
    if ys == [] {
      assert xs + ys == xs;
    } else {
      var front := ys[..|ys| - 1];
      BytesConcat(offset, xs, front);
      assert (xs + ys)[..|xs + ys| - 1] == xs + front;
    }
  }

  ghost predicate Within(part: Disk, whole: Disk) {
    forall o | o in part :: o in whole && whole[o] == part[o]
  }

  lemma BytesSlice(offset: int, data: seq<byte>, from: nat, to: nat)
    requires from <= to <= |data|
    ensures Within(Bytes(offset + from, data[from..to]), Bytes(offset, data))
  {
    BytesAt(offset + from, data[from..to]);
    BytesAt(offset, data);
  }

  lemma OverlayAbsorbs(disk: Disk, part: Disk, whole: Disk)
    requires Within(part, whole)
    ensures disk + part + whole == disk + whole
  {
    var left, right := disk + part + whole, disk + whole;
    forall o
      ensures (o in left <==> o in right) && (o in left ==> left[o] == right[o])
    {
      assert o in part ==> o in whole;
    }
  }

  lemma OverlayOfStored(disk: Disk, stored: Disk)
    requires Within(stored, disk)
    ensures disk + stored == disk
  {
    var left := disk + stored;
    forall o
      ensures (o in left <==> o in disk) && (o in left ==> left[o] == disk[o])
    {
      assert o in stored ==> o in disk;
    }
  }

  lemma StoredGrows(disk: Disk, stored: Disk, piece: Disk)
    requires Within(stored, disk)
    ensures Within(stored + piece, disk + piece)
  {
  }

  lemma OverlayAssociates(a: Disk, b: Disk, c: Disk)
    ensures (a + b) + c == a + (b + c)
  {
  }

  function Image(buf: SwapBuffer): Disk {
    Bytes(buf.offset, buf.data)
  }

  datatype Writer = Writer(
    disk: Disk,          // what has reached the operating system
    buf0: SwapBuffer,
    buf1: SwapBuffer,
    active: int,         // buffer the producer fills
    pending: int,        // buffer handed to the worker, -1 when none
    workerQueued: bool,  // a pool task is scheduled or running
    failed: bool,        // sticky write error
    written: nat,        // progress of the worker inside the pending buffer
    accepted: Disk)      // history: all writes accepted so far, applied in call order
  {
    function Buf(i: int): SwapBuffer {
      if i == 0 then buf0 else buf1
    }

    function WithBuf(i: int, buf: SwapBuffer): Writer {
      if i == 0 then this.(buf0 := buf) else this.(buf1 := buf)
    }

    /** Disk overlaid with the pending buffer and then with the active one. */
    function View(): Disk {
      disk + (if pending >= 0 then Image(Buf(pending)) else map[]) + Image(Buf(active))
    }

    predicate Drained() {
      pending < 0 && Buf(active).data == []
    }
  }

  /** The swap-buffer protocol, whenever the lock is free. */
  ghost predicate Protocol(w: Writer) {
    && (w.active == 0 || w.active == 1)
    && -1 <= w.pending <= 1
    && w.pending != w.active
    && (w.workerQueued <==> w.pending >= 0)
    && |w.buf0.data| <= BUFFER_SIZE && |w.buf1.data| <= BUFFER_SIZE
    && (w.pending < 0 ==> w.written == 0)
    && (w.pending >= 0 ==>
          && w.written <= |w.Buf(w.pending).data|
          && Within(Bytes(w.Buf(w.pending).offset, w.Buf(w.pending).data[..w.written]), w.disk))
  }

  /** The refinement: as long as no write has failed, the view is the sequential file. */
  ghost predicate Inv(w: Writer) {
    && Protocol(w)
    && (!w.failed ==> w.View() == w.accepted)
  }

  function Opened(disk: Disk): Writer {
    Writer(disk, SwapBuffer(0, []), SwapBuffer(0, []), 0, -1, false, false, 0, disk)
  }

  // -------- steps of the worker --------

  ghost predicate Advance(w: Writer, w': Writer, n: nat) {
    && w.pending >= 0
    && var buf := w.Buf(w.pending);
    && 0 < n && w.written + n <= |buf.data|
    && w' == w.(disk := w.disk + Bytes(buf.offset + w.written, buf.data[w.written..w.written + n]),
                written := w.written + n)
  }

  /** The worker takes the lock again: the buffer is released whether or not the write
      succeeded, and the loop ends because nothing else is pending. */
  ghost predicate Complete(w: Writer, w': Writer, ok: bool) {
    && w.pending >= 0
    && (ok ==> w.written == |w.Buf(w.pending).data|)
    && w' == w.(failed := w.failed || !ok, pending := -1, workerQueued := false, written := 0)
  }

  ghost predicate WorkerStep(w: Writer, w': Writer) {
    (exists n: nat :: Advance(w, w', n)) || (exists ok: bool :: Complete(w, w', ok))
  }

  // -------- steps of the producer --------

  /** memcpy of a piece of the caller's data into the active buffer. */
  ghost predicate Append(w: Writer, w': Writer, at: nat, chunk: seq<byte>) {
    && !w.failed
    && var buf := w.Buf(w.active);
    && chunk != [] && |buf.data| + |chunk| <= BUFFER_SIZE
    && (buf.data == [] || at == buf.offset + |buf.data|)
    && w' == w.WithBuf(w.active, SwapBuffer(if buf.data == [] then at else buf.offset, buf.data + chunk))
             .(accepted := w.accepted + Bytes(at, chunk))
  }

  function Swapped(w: Writer): Writer {
    w.(active := 1 - w.active).WithBuf(1 - w.active, w.Buf(1 - w.active).(data := []))
  }

  /** The active buffer goes to the worker and the other one becomes active. */
  ghost predicate HandOff(w: Writer, w': Writer) {
    && w.pending < 0 && !w.failed && w.Buf(w.active).data != []
    && w' == Swapped(w).(pending := w.active, workerQueued := true)
  }

  /** The pool refused the task: the producer writes the buffer itself, of which `n`
      bytes reach the file. */
  ghost predicate InlineWrite(w: Writer, w': Writer, n: nat, ok: bool) {
    && w.pending < 0 && !w.failed && w.Buf(w.active).data != []
    && var buf := w.Buf(w.active);
    && n <= |buf.data| && (ok ==> n == |buf.data|)
    && w' == Swapped(w).(disk := w.disk + Bytes(buf.offset, buf.data[..n]), failed := !ok)
  }

  /** After an error the active buffer is dropped instead of handed off. */
  ghost predicate Discard(w: Writer, w': Writer) {
    && w.pending < 0 && w.failed
    && w' == w.WithBuf(w.active, w.Buf(w.active).(data := []))
  }

  /** One step of either thread while the producer is writing `payload`, or none. */
  ghost predicate Step(w: Writer, w': Writer, payload: Disk) {
    || w' == w
    || WorkerStep(w, w')
    || (exists at: nat, chunk: seq<byte> :: Append(w, w', at, chunk) && Within(Bytes(at, chunk), payload))
    || HandOff(w, w')
    || (exists n: nat, ok: bool :: InlineWrite(w, w', n, ok))
    || Discard(w, w')
  }

  // -------- every step keeps the invariant --------

  /** `data[from..to]` placed at its offset. */
  function Piece(buf: SwapBuffer, from: nat, to: nat): Disk
    requires from <= to <= |buf.data|
  {
    Bytes(buf.offset + from, buf.data[from..to])
  }

  lemma PieceExtendsPrefix(buf: SwapBuffer, from: nat, to: nat, disk: Disk)
    requires from <= to <= |buf.data|
    requires Within(Bytes(buf.offset, buf.data[..from]), disk)
    ensures Within(Bytes(buf.offset, buf.data[..to]), disk + Piece(buf, from, to))
  {
    StoredGrows(disk, Bytes(buf.offset, buf.data[..from]), Piece(buf, from, to));
    BytesConcat(buf.offset, buf.data[..from], buf.data[from..to]);
    assert buf.data[..to] == buf.data[..from] + buf.data[from..to];
  }

  lemma PieceUnderBuffer(buf: SwapBuffer, from: nat, to: nat, disk: Disk)
    requires from <= to <= |buf.data|
    ensures disk + Piece(buf, from, to) + Image(buf) == disk + Image(buf)
  {
    BytesSlice(buf.offset, buf.data, from, to);
    OverlayAbsorbs(disk, Piece(buf, from, to), Image(buf));
  }

  lemma AdvanceKeepsProtocol(w: Writer, w': Writer, n: nat)
    requires Protocol(w) && Advance(w, w', n)
    ensures Protocol(w') && w'.disk == w.disk + Piece(w.Buf(w.pending), w.written, w.written + n)
  {
    PieceExtendsPrefix(w.Buf(w.pending), w.written, w.written + n, w.disk);
  }

  lemma AdvanceKeepsInv(w: Writer, w': Writer, n: nat)
    requires Inv(w) && Advance(w, w', n)
    ensures Inv(w') && w'.View() == w.View()
  {
    AdvanceKeepsProtocol(w, w', n);
    PieceUnderBuffer(w.Buf(w.pending), w.written, w.written + n, w.disk);
  }

  lemma CompleteKeepsInv(w: Writer, w': Writer, ok: bool)
    requires Inv(w) && Complete(w, w', ok)
    ensures Inv(w')
    ensures ok ==> w'.View() == w.View()
  {
    if ok {
      var buf := w.Buf(w.pending);
      assert buf.data[..w.written] == buf.data;
      OverlayOfStored(w.disk, Image(buf));
      assert w.disk + map[] == w.disk;
    }
  }

  lemma AppendedImage(buf: SwapBuffer, at: nat, chunk: seq<byte>)
    requires buf.data == [] || at == buf.offset + |buf.data|
    ensures Bytes(if buf.data == [] then at else buf.offset, buf.data + chunk) == Image(buf) + Bytes(at, chunk)
  {
    BytesConcat(if buf.data == [] then at else buf.offset, buf.data, chunk);
  }

  lemma AppendKeepsInv(w: Writer, w': Writer, at: nat, chunk: seq<byte>)
    requires Inv(w) && Append(w, w', at, chunk)
    ensures Inv(w') && w'.View() == w.View() + Bytes(at, chunk)
  {
    var buf := w.Buf(w.active);
    var below := w.disk + (if w.pending >= 0 then Image(w.Buf(w.pending)) else map[]);
    AppendedImage(buf, at, chunk);
    OverlayAssociates(below, Image(buf), Bytes(at, chunk));
    AppendKeepsProtocol(w, w', at, chunk);
  }

  lemma AppendKeepsProtocol(w: Writer, w': Writer, at: nat, chunk: seq<byte>)
    requires Protocol(w) && Append(w, w', at, chunk)
    ensures Protocol(w')
    ensures w'.active == w.active && w'.pending == w.pending
    ensures w.pending >= 0 ==> w'.Buf(w.pending) == w.Buf(w.pending)
  {
  }

  lemma HandOffKeepsInv(w: Writer, w': Writer)
    requires Inv(w) && HandOff(w, w')
    ensures Inv(w') && w'.View() == w.View()
  {
    assert w'.Buf(w'.pending) == w.Buf(w.active);
    assert w'.Buf(w'.pending).data[..0] == [];
    assert w.disk + map[] == w.disk;
    assert w.disk + Image(w.Buf(w.active)) + map[] == w.disk + Image(w.Buf(w.active));
  }

  lemma InlineWriteKeepsInv(w: Writer, w': Writer, n: nat, ok: bool)
    requires Inv(w) && InlineWrite(w, w', n, ok)
    ensures Inv(w')
    ensures ok ==> w'.View() == w.View()
  {
    if ok {
      var buf := w.Buf(w.active);
      assert buf.data[..n] == buf.data;
      assert w.disk + map[] == w.disk;
      assert w.disk + Image(buf) + map[] + map[] == w.disk + Image(buf);
    }
  }

  lemma StepKeepsInv(w: Writer, w': Writer, payload: Disk)
    requires Inv(w) && Step(w, w', payload)
    ensures Inv(w')
    ensures w.failed ==> w'.failed
  {
    if n: nat :| Advance(w, w', n) {
      AdvanceKeepsInv(w, w', n);
    } else if ok: bool :| Complete(w, w', ok) {
      CompleteKeepsInv(w, w', ok);
    } else if at: nat, chunk: seq<byte> :| Append(w, w', at, chunk) && Within(Bytes(at, chunk), payload) {
      AppendKeepsInv(w, w', at, chunk);
    } else if HandOff(w, w') {
      HandOffKeepsInv(w, w');
    } else if n: nat, ok: bool :| InlineWrite(w, w', n, ok) {
      InlineWriteKeepsInv(w, w', n, ok);
    }
  }

  /** Between hand-off and completion nobody changes the pending buffer, and the worker's
      position in it only grows: it is written once, from front to back. */
  lemma PendingBufferIsFrozen(w: Writer, w': Writer, payload: Disk)
    requires Inv(w) && Step(w, w', payload) && w.pending >= 0
    ensures w'.pending == w.pending ==>
              w'.Buf(w.pending) == w.Buf(w.pending) && w'.written >= w.written
    ensures w'.pending != w.pending ==>
              && w'.pending < 0 && w'.disk == w.disk
              && (!w'.failed ==> w.written == |w.Buf(w.pending).data|)
  {
    if w' != w {
      if n: nat :| Advance(w, w', n) {
      } else if ok: bool :| Complete(w, w', ok) {
      } else {
        var at: nat, chunk: seq<byte> :| Append(w, w', at, chunk) && Within(Bytes(at, chunk), payload);
      }
    }
  }

  /** Once everything is drained the disk alone is the sequential file. */
  lemma DrainedDiskIsAccepted(w: Writer)
    requires Inv(w) && w.Drained() && !w.failed
    ensures w.disk == w.accepted
  {
    assert Image(w.Buf(w.active)) == map[];
  }

  // -------- runs --------

  /** A run of both threads during one producer call: any interleaving of steps. */
  ghost predicate Trace(tr: seq<Writer>, payload: Disk) {
    && tr != []
    && forall k | 0 < k < |tr| :: Step(tr[k - 1], tr[k], payload)
  }

  function Last<T>(tr: seq<T>): T
    requires tr != []
  {
    tr[|tr| - 1]
  }

  lemma {:induction false} TracePrefix(tr: seq<Writer>, payload: Disk, k: nat)
    requires Trace(tr, payload) && Inv(tr[0]) && k < |tr|
    ensures Inv(tr[k]) && (tr[0].failed ==> tr[k].failed)
    decreases k
  {
    if k > 0 {
      TracePrefix(tr, payload, k - 1);
      StepKeepsInv(tr[k - 1], tr[k], payload);
    }
  }

  lemma {:induction false} FailureSticks(tr: seq<Writer>, payload: Disk, k: nat)
    requires Trace(tr, payload) && Inv(tr[0]) && k < |tr|
    ensures tr[k].failed ==> Last(tr).failed
    decreases |tr| - k
  {
    if k < |tr| - 1 {
      FailureSticks(tr, payload, k + 1);
      TracePrefix(tr, payload, k);
      StepKeepsInv(tr[k], tr[k + 1], payload);
    }
  }

  lemma TraceKeepsInv(tr: seq<Writer>, payload: Disk)
    requires Trace(tr, payload) && Inv(tr[0])
    ensures forall k | 0 <= k < |tr| :: Inv(tr[k])
    ensures forall k | 0 <= k < |tr| :: tr[0].failed ==> tr[k].failed
    ensures forall k | 0 <= k < |tr| :: tr[k].failed ==> Last(tr).failed
  {
    forall k | 0 <= k < |tr|
      ensures Inv(tr[k]) && (tr[0].failed ==> tr[k].failed) && (tr[k].failed ==> Last(tr).failed)
    {
      TracePrefix(tr, payload, k);
      FailureSticks(tr, payload, k);
    }
  }

  lemma TraceSnoc(tr: seq<Writer>, w: Writer, payload: Disk)
    requires Trace(tr, payload) && Step(Last(tr), w, payload)
    ensures Trace(tr + [w], payload)
  {
    var longer := tr + [w];
    forall k | 0 < k < |longer|
      ensures Step(longer[k - 1], longer[k], payload)
    {
      if k < |tr| {
        assert Step(tr[k - 1], tr[k], payload);
      }
    }
  }

  /** `content` says which byte may stand where. The bytes in memory that are on their way
      to the disk agree with it. */
  ghost predicate BuffersAgree(w: Writer, content: (int, byte) -> bool) {
    && (w.pending >= 0 ==> Agrees(Image(w.Buf(w.pending)), content))
    && Agrees(Image(w.Buf(w.active)), content)
  }

  ghost predicate Agrees(bytes: Disk, content: (int, byte) -> bool) {
    forall o | o in bytes :: content(o, bytes[o])
  }

  ghost predicate Stored(disk: Disk, o: int, content: (int, byte) -> bool) {
    o in disk && content(o, disk[o])
  }

  lemma AgreesUnion(a: Disk, b: Disk, content: (int, byte) -> bool)
    requires Agrees(a, content) && Agrees(b, content)
    ensures Agrees(a + b, content)
  {
  }

  lemma AgreesPart(part: Disk, whole: Disk, content: (int, byte) -> bool)
    requires Within(part, whole) && Agrees(whole, content)
    ensures Agrees(part, content)
  {
  }

  lemma StoredStays(disk: Disk, bytes: Disk, content: (int, byte) -> bool)
    requires Agrees(bytes, content)
    ensures forall o | Stored(disk, o, content) :: Stored(disk + bytes, o, content)
    ensures Agrees(disk, content) ==> Agrees(disk + bytes, content)
  {
  }

  lemma AdvanceKeepsContent(w: Writer, w': Writer, n: nat, content: (int, byte) -> bool)
    requires Inv(w) && Advance(w, w', n) && BuffersAgree(w, content)
    ensures BuffersAgree(w', content)
    ensures forall o | Stored(w.disk, o, content) :: Stored(w'.disk, o, content)
    ensures Agrees(w.disk, content) ==> Agrees(w'.disk, content)
  {
    var buf := w.Buf(w.pending);
    var piece := Bytes(buf.offset + w.written, buf.data[w.written..w.written + n]);
    BytesSlice(buf.offset, buf.data, w.written, w.written + n);
    AgreesPart(piece, Image(buf), content);
    StoredStays(w.disk, piece, content);
  }

  lemma AppendKeepsContent(w: Writer, w': Writer, at: nat, chunk: seq<byte>, payload: Disk,
                           content: (int, byte) -> bool)
    requires Inv(w) && Append(w, w', at, chunk) && Within(Bytes(at, chunk), payload)
    requires BuffersAgree(w, content) && Agrees(payload, content)
    ensures BuffersAgree(w', content) && w'.disk == w.disk
  {
    var buf := w.Buf(w.active);
    AppendedImage(buf, at, chunk);
    AgreesPart(Bytes(at, chunk), payload, content);
    AgreesUnion(Image(buf), Bytes(at, chunk), content);
    assert Image(w'.Buf(w'.active)) == Image(buf) + Bytes(at, chunk);
    assert w.pending >= 0 ==> w'.Buf(w'.pending) == w.Buf(w.pending);
  }

  lemma InlineWriteKeepsContent(w: Writer, w': Writer, n: nat, ok: bool, content: (int, byte) -> bool)
    requires Inv(w) && InlineWrite(w, w', n, ok) && BuffersAgree(w, content)
    ensures BuffersAgree(w', content)
    ensures forall o | Stored(w.disk, o, content) :: Stored(w'.disk, o, content)
    ensures Agrees(w.disk, content) ==> Agrees(w'.disk, content)
  {
    var buf := w.Buf(w.active);
    BytesSlice(buf.offset, buf.data, 0, n);
    AgreesPart(Bytes(buf.offset, buf.data[..n]), Image(buf), content);
    StoredStays(w.disk, Bytes(buf.offset, buf.data[..n]), content);
  }

  /** Nothing but buffered bytes ever reaches the disk: if those agree with `content`,
      a byte of `content` that is on the disk stays there at every instant. */
  lemma StepKeepsContent(w: Writer, w': Writer, payload: Disk, content: (int, byte) -> bool)
    requires Inv(w) && Step(w, w', payload)
    requires BuffersAgree(w, content) && Agrees(payload, content)
    ensures BuffersAgree(w', content) && KeepsContent(w, w', content)
  {
    if n: nat :| Advance(w, w', n) {
      AdvanceKeepsContent(w, w', n, content);
    } else if ok: bool :| Complete(w, w', ok) {
    } else if at: nat, chunk: seq<byte> :| Append(w, w', at, chunk) && Within(Bytes(at, chunk), payload) {
      AppendKeepsContent(w, w', at, chunk, payload, content);
    } else if HandOff(w, w') {
      assert w'.Buf(w'.pending) == w.Buf(w.active);
    } else if n: nat, ok: bool :| InlineWrite(w, w', n, ok) {
      InlineWriteKeepsContent(w, w', n, ok, content);
    }
  }

  /** What `StepKeepsContent` says of one step, from `w` to `w'`. */
  ghost predicate KeepsContent(w: Writer, w': Writer, content: (int, byte) -> bool) {
    && (forall o | Stored(w.disk, o, content) :: Stored(w'.disk, o, content))
    && (Agrees(w.disk, content) ==> Agrees(w'.disk, content))
  }

  lemma KeepsContentTwice(a: Writer, b: Writer, c: Writer, content: (int, byte) -> bool)
    requires KeepsContent(a, b, content) && KeepsContent(b, c, content)
    ensures KeepsContent(a, c, content)
  {
  }

  lemma {:induction false} TraceKeepsContent(tr: seq<Writer>, payload: Disk, content: (int, byte) -> bool, k: nat)
    requires Trace(tr, payload) && Inv(tr[0]) && k < |tr|
    requires BuffersAgree(tr[0], content) && Agrees(payload, content)
    ensures BuffersAgree(tr[k], content) && KeepsContent(tr[0], tr[k], content)
    decreases k
  {
    if k > 0 {
      TraceKeepsContent(tr, payload, content, k - 1);
      TracePrefix(tr, payload, k - 1);
      assert Step(tr[k - 1], tr[k], payload);
      StepKeepsContent(tr[k - 1], tr[k], payload, content);
      KeepsContentTwice(tr[0], tr[k - 1], tr[k], content);
    }
  }

  /** Without a payload nothing new is accepted. */
  lemma {:induction false} IdleTraceKeepsAccepted(tr: seq<Writer>, k: nat)
    requires Trace(tr, map[]) && k < |tr|
    ensures tr[k].accepted == tr[0].accepted
    decreases k
  {
    if k > 0 {
      IdleTraceKeepsAccepted(tr, k - 1);
      var w, w' := tr[k - 1], tr[k];
      assert Step(w, w', map[]);
      forall at: nat, chunk: seq<byte> | chunk != []
        ensures !Within(Bytes(at, chunk), map[])
      {
        BytesAt(at, chunk);
        assert at in Bytes(at, chunk);
      }
    }
  }

  // -------- the refinement of a sequential file --------

  /** A producer call. */
  datatype Call = Write(offset: nat, data: seq<byte>) | Drain

  function Payload(call: Call): Disk {
    match call
    case Write(offset, data) => Bytes(offset, data)
    case Drain => map[]
  }

  /** The file a sequential program would have after the calls. */
  function SequentialFile(disk: Disk, calls: seq<Call>): Disk
    decreases calls
  {
    if calls == [] then disk else SequentialFile(disk + Payload(calls[0]), calls[1..])
  }

  /** The steps of both threads while one call runs, up to its return: unless the writer
      has failed, the whole payload was accepted, and a drain leaves nothing buffered. */
  ghost predicate Performs(call: Call, tr: seq<Writer>) {
    && Trace(tr, Payload(call))
    && (!Last(tr).failed ==> Last(tr).accepted == tr[0].accepted + Payload(call))
    && (call.Drain? ==> Last(tr).Drained())
  }

  /** A session: the calls one after the other, each with its own interleaving. */
  ghost predicate Session(w: Writer, calls: seq<Call>, runs: seq<seq<Writer>>)
    decreases calls
  {
    if calls == [] then runs == []
    else runs != [] && Performs(calls[0], runs[0]) && runs[0][0] == w && Session(Last(runs[0]), calls[1..], runs[1..])
  }

  ghost function SessionEnd(w: Writer, calls: seq<Call>, runs: seq<seq<Writer>>): Writer
    requires Session(w, calls, runs)
    decreases calls
  {
    if calls == [] then w else SessionEnd(Last(runs[0]), calls[1..], runs[1..])
  }

  lemma OpenedKeepsInv(disk: Disk)
    ensures Inv(Opened(disk)) && Opened(disk).View() == disk
  {
    assert disk + map[] + map[] == disk;
  }

  /** One call, under any interleaving, applies its payload to the view. */
  lemma CallRefines(call: Call, tr: seq<Writer>)
    requires Performs(call, tr) && Inv(tr[0])
    ensures Inv(Last(tr)) && (tr[0].failed ==> Last(tr).failed)
    ensures !Last(tr).failed ==> Last(tr).View() == tr[0].View() + Payload(call)
    ensures !Last(tr).failed && call.Drain? ==> Last(tr).disk == tr[0].View()
  {
    TraceKeepsInv(tr, Payload(call));
    if call.Drain? && !Last(tr).failed {
      DrainedDiskIsAccepted(Last(tr));
    }
  }

  /** Under every interleaving: while nothing has failed, disk overlaid with the two
      buffers is the sequential file. */
  lemma {:induction false} SessionRefinesSequentialFile(w: Writer, calls: seq<Call>, runs: seq<seq<Writer>>)
    requires Inv(w) && Session(w, calls, runs)
    ensures var end := SessionEnd(w, calls, runs);
            && Inv(end)
            && (w.failed ==> end.failed)
            && (!end.failed ==> end.View() == SequentialFile(w.View(), calls))
    decreases calls
  {
    if calls != [] {
      CallRefines(calls[0], runs[0]);
      SessionRefinesSequentialFile(Last(runs[0]), calls[1..], runs[1..]);
    }
  }

  /** When a drain that follows the calls reports success, the disk alone is that file. */
  lemma DrainedSessionIsOnDisk(disk: Disk, calls: seq<Call>, runs: seq<seq<Writer>>, drain: seq<Writer>)
    requires Session(Opened(disk), calls, runs)
    requires Performs(Drain, drain) && drain[0] == SessionEnd(Opened(disk), calls, runs)
    requires !Last(drain).failed
    ensures Last(drain).disk == SequentialFile(disk, calls)
  {
    OpenedKeepsInv(disk);
    SessionRefinesSequentialFile(Opened(disk), calls, runs);
    CallRefines(Drain, drain);
  }

  /** Also in the middle of a call, and in the middle of a worker write. */
  lemma {:induction false} EveryInstantRefines(w: Writer, calls: seq<Call>, runs: seq<seq<Writer>>, i: nat, k: nat)
    requires Inv(w) && Session(w, calls, runs)
    requires i < |runs| && k < |runs[i]|
    ensures Protocol(runs[i][k])
    ensures !runs[i][k].failed ==> runs[i][k].View() == runs[i][k].accepted
    decreases i
  {
    CallRefines(calls[0], runs[0]);
    if i == 0 {
      TraceKeepsInv(runs[0], Payload(calls[0]));
    } else {
      EveryInstantRefines(Last(runs[0]), calls[1..], runs[1..], i - 1, k);
    }
  }
}
