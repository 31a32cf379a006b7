# Verification model of the segmented-download engine

This project models the part of avar that decides which byte ranges of a download are
wanted, reserved, written and recorded as done, and proves what that part is for: the file
that is moved into place is the resource, and state.json never claims a byte that is not
in the file. It also covers three smaller cores: the chunked-transfer decoder, the id
generator and the configuration tree.

`dafny verify dfyconfig.toml` checks everything.

## How it is built

| file | what it models |
|---|---|
| `Ranges.dfy` | 64-bit words with bounds, inclusive ranges, their normal form |
| `DownloadState.dfy` | `src/download_state.c`: the done-range array, edited in place |
| `Segments.dfy`, `SegmentSelect.dfy` | `src/download_segment.c`: segment arithmetic and the two selectors |
| `Writers.dfy`, `AsyncFile.dfy` | `src/file_async.c`: the double-buffered writer as a state machine and as code |
| `ThreadPool.dfy` | `src/thread_pool.c`: the linked FIFO and its workers |
| `Engine.dfy` | the slot machine of `src/download.c` as a state machine: slots, done set, saved progress, writer |
| `EngineInvariants.dfy`, `EngineContent.dfy`, `EngineAlignment.dfy` | what one event keeps, may claim, and writes where |
| `EngineProgress.dfy`, `EngineMarking.dfy`, `EngineVerdicts.dfy` | what one event has to do: lose nothing, mark exactly what it must, and leave job and slot as decided |
| `EngineRuns.dfy`, `EngineCompletion.dfy`, `EngineScheduling.dfy`, `EngineLimits.dfy` | whole runs: what stays true and what they achieve, the scheduler, and where the end-to-end property stops |
| `HandlerRuns.dfy`, `DownloadJob.dfy` | the handlers of `src/download.c` as code; each takes a step of the state machine |
| `Chunked.dfy`, `ChunkedEncoding.dfy` | the decoder of section 7.1 of RFC 9112 and the encoding it inverts |
| `Words.dfy`, `Snowflake.dfy` | bit operations on 64-bit words, the mixer and the id generator |
| `ConfigTree.dfy`, `ConfigKeys.dfy`, `ConfigStore.dfy` | `src/config.c`: the tree at a path, whole keys and their values, and the walking and pruning loops |

The layers compose. A method of `DownloadState` is proved against the set of offsets the
array covers; a method of `AsyncFile` performs a run of `Writers`, whatever the worker does
between its lock regions; a handler of `DownloadJob` calls both and takes one `Transition`
of `Engine`; and `EngineRuns` and `EngineCompletion` prove their results over all sequences of
transitions. What the environment answers is given to the code: to every buffer whether the
pool takes it and whether it is written (`AsyncFile.answers`), to every save whether
state.json is replaced (`StateFile.answers`), to every end of a download whether the file is
synced, closed and moved (`Ending`). Only how far the worker gets in the meantime is left
open, as `*`. Ghost histories record the states in between: that of `AsyncFile` every state
of the writer, and the timeline of `DownloadJob` every state of the file together with what
state.json claims at that instant. A handler is proved to take
its step with exactly the instants that it has added to the timeline, so that a crash can be
put at any of them.

The results about the engine come in two kinds. Some say what must not happen: no byte
outside the reservation, no claim before the content. The others say what must: a byte
that was taken is kept until it is marked (`HandlerConserves`), a handler marks exactly what
it has to (`HandlerMarksExactly`), saves it (`MustRecord`, part of every step), and leaves
the job (`OutcomeIsExact`) and the slot (`StreamingReadExactly`, `DrainingReadExactly`,
`ReadReusesExactly`) in the one state that the situation calls for. They are stated on
the jobs before and behind the event, not on the functions that lead from one to the other.

## Where the code does not do what it is meant to

Each case has a lemma with a concrete input or run, and the exact condition.

- **A slot can lose bytes and go on.** `begin_chunk_body` (`src/download.c:2295-2338`) can
  leave a slot exactly full without trying to extend it. The next read is then dropped
  (`src/download.c:1695-1700`), and only afterwards does the READ branch extend the
  reservation (`src/download.c:3484-3497`); everything that follows is written too early
  and marked done. `SkippingCorruptsTheFile` is such a run, from the selection of the first
  two segments on. `HandlerAlignsUnlessItSkips` says that exactly these reads (slot full,
  next segment free, response not over) put a slot out of step, `RunIsInStepExactly` says
  the same of whole runs, and `InStepIsExact` and `RunWritesRightExactly` that being in step
  is exactly what right bytes need. The end-to-end results are stated for runs without such
  a read (`NeverSkips`).
- **A status save after a write error overclaims.** `sync_state_metadata` marks what has
  arrived and saves whatever the drain reported (`src/download.c:867-887`), against the
  comment at `src/download.c:803-806`. `SavingAfterAnErrorOverclaims` is a run that ends in
  such a claim. `StatusSaveIsSafeExactly` is the exact condition, for a status save from any
  state on: it is truthful at every instant, whatever becomes of its drain, if and only if
  all that it is going to claim is in the file before. `SaveMetadataIsSafeExactly` says so of
  the save between two callbacks, `DueSavesAreSafeExactly` of those that come due when a slot
  finishes or its connection closes. The persistence results hold for runs with any write
  errors, as long as no such save happens after one (`NeverSavesAfterError`).
- **Chunk sizes with more than 19 digits are misread.** The comment at
  `src/download.c:2232-2233` says that the size always fits the line buffer; with leading
  zeros it does not. `LongSizesEndTheBody` is an example and `SizeReadRight` the exact
  condition.
- **A rejected configuration key can change the tree**, because the walk creates objects
  before it meets the empty segment: `TrailingDotLeavesAnEmptyObject`, and exactly when in
  `RejectedKeysMayStillWrite`.
- **A legacy chunk bitmap with a flag past the last segment** makes the load fail, and all
  progress is lost: `FlagPastTheEndFails`, and exactly when in `LoadLegacyChunks`. A chunk
  count that goes with the size does no harm (`CountedFlagsFit`).

## What is assumed

- Sizes: the file size plus the segment size stays below 2^64, range ends stay below
  2^64 - 1, and twice the number of segments fits 64 bits. Under these the sums in the code
  are proved not to wrap (`uint64` is an integer with bounds). Numbers in state.json stay
  below 2^53, where a double is exact.
- An honest server sends, as the body of a range response, the resource from the start of
  the range on; it may send any amount of it and stop anywhere. Results about reservations
  and write confinement need no honesty.
- A released connection delivers no more events (`src/download.c:2815-2819` returns at once
  for them).
- Configuration objects have no duplicate member names; for the results about pruning the
  tree has no empty objects to begin with.
- A call of the id generator that has to wait returns only if the clock advances.

## Model

| member | source | states |
|---|---|---|
| `EngineRuns.FinishedFileIsTheResource` | src/download.c:2651-2721 | end to end: in every run (any interleaving of events, data sizes, drops, crashes and resumes) from a fresh or truthful state, against a server whose range bodies are the resource, with no skipping read and no save after a write error, the file moved into place holds exactly the offsets below the size, each with its resource byte |
| `EngineCompletion.CompleteDownloadIsTheResource` | src/download.c:2651-2721 | and a complete download is finished: in such a run, when an event that looks finds every offset done, the writer has not failed and fsync, fclose and the move succeed, the job is finished and the moved file is the resource |
| `EngineCompletion.FileIsMovedExactly` | src/download.c:2663-2721 | in any run: a handler moves the file if and only if it is one that looks (a scheduling pass, a slot that finishes, a close that has counted its body or has none to count), finds every offset done, and writer, close and move succeed |
| `EngineCompletion.ProgressIsNeverLost` | src/download.c:847-855 | over any run whose saves are let through and that leaves no failed writer behind: what is once done stays done, over crashes at any instant and the restarts behind them |
| `EngineCompletion.RecordStaysCurrent` | src/download.c:2406-2419 | over such a run: between any two events state.json claims all that is done |
| `EngineCompletion.NewMarksAreRecorded` | src/download.c:2416-2418 | in any run: a handler that marks something new ends with a state.json that claims all that is done, unless the writer has failed or a save was refused |
| `EngineCompletion.StatusSaveRecordsEverything` | src/download.c:862-892 | in any run: behind a status save that is let through state.json claims every byte that a streaming slot has received |
| `EngineCompletion.NothingReceivedIsLost` | src/download.c:2379-2422 | over any part of a run without a crash and without a close that drops its body: what is done or held by a slot at its start is done or held by a slot at its end |
| `EngineCompletion.IdleJobMovesOn` | src/download.c:2955-2995 | a scheduling pass of a job without a busy slot, when nothing fails, finishes the download exactly when it is complete, and otherwise puts some slot to work |
| `EngineRuns.RunStaysCorrect` | src/download.c:1719-1745 | over every such run: what state.json claims is on disk with the resource byte, also after write errors; and unless the writer has failed, each done offset is on disk and each received one is in the sequential file |
| `EngineRuns.StepKeepsCorrect` | src/download.c:2806-2953 | one event, including a crash at any instant of any other event and a restart between events, keeps that invariant |
| `EngineRuns.HandlerKeepsCorrect` | src/download.c:2379-2472 | the same for the event handlers: marks are taken back to bytes received, drained and equal to the resource |
| `EngineRuns.CrashKeepsCorrect` | src/download.c:794-860 | a process killed at any instant of a handler, before, between or after its drains and saves or inside a worker write, and restarted from state.json and the file as they are at that instant, is in a correct state |
| `EngineRuns.RestartKeepsCorrect` | src/download_state.c:382-520 | so is one that ends between two handlers, after any progress of the worker |
| `EngineRuns.SavedProgressIsOnDisk` | src/download.c:794-860 | content before state: at every instant of every handler of such a run, what state.json claims at that instant is on disk at that instant with the resource byte |
| `EngineRuns.InstantsSaveTruly` | src/download.c:847-855 | the same inside one handler: up to the first save after a write error, a save claims nothing that the drain before it has not flushed |
| `EngineRuns.MarkedIsOnDisk` | src/download.c:2406-2419 | an event that marks offsets leaves all of them on disk, because it waited for the drain |
| `EngineRuns.IoKeepsContent` | src/file_async.c:187-241 | during one event no right byte on disk is lost, and unless it fails the writer has accepted everything handed to it |
| `EngineRuns.HandlerCompletes` | src/download.c:2651-2675 | a file is moved only after a successful close and with every byte counted |
| `EngineRuns.RunStaysSound` | src/download.c:1756-1864 | for any server, over every run: reservations are unions of whole segments inside the file and pairwise disjoint, and saved progress is part of the done set |
| `EngineRuns.RunStaysContained` | src/download.c:1686-1717 | for any server, over every run: no byte is ever written at or past the announced size |
| `EngineRuns.EventBytesInFile` | src/download.c:1719-1745 | one event hands no byte outside the file to the writer, whatever the body |
| `EngineRuns.RunIsInStepExactly` | src/download.c:3476-3497 | for any server, over every run: all slots stay in step with their responses if and only if no event of the run is a skipping read |
| `EngineAlignment.HandlerAlignsUnlessItSkips` | src/download.c:3476-3497 | slots stay in step with their responses after an event if and only if it is not a read on a full slot whose next segment is free and whose response is not over |
| `EngineAlignment.ReadAligns` | src/download.c:3476-3497 | the same equivalence for the READ handler alone |
| `EngineAlignment.WriteBodyKeepsAligned` | src/download.c:1686-1745 | a body write cuts bytes off only when the slot was full before, or ends up full with no free segment behind it |
| `EngineAlignment.BodyIsRight` | src/download.c:1719-1745 | a slot in step writes each byte of an honest body at the offset it belongs to |
| `EngineAlignment.WritesAreConfined` | src/download.c:1686-1745 | for a body of any length: every byte written lies in the reservation of its slot and in no other slot's |
| `EngineLimits.InStepIsExact` | src/download.c:1719-1745 | for every slot and body length: all resources are written right if and only if the slot is in step |
| `EngineLimits.RunWritesRightExactly` | src/download.c:1719-1745 | over every run: the bytes handed over are right for every resource if and only if every event that hands over any acts on a slot in step |
| `EngineLimits.OutOfStepWritesShifted` | src/download.c:1686-1700 | a slot that has lost n bytes writes every further byte n places too early |
| `EngineLimits.SkippingCorruptsTheFile` | src/download.c:2295-2338 | a four-event run with an honest server and no write error, starting with the segments that the balanced selector hands out and saving the first byte with the status behind the headers, that leaves a wrong byte marked and saved, for every resource whose bytes 1 and 2 differ |
| `EngineLimits.SavingAfterAnErrorOverclaims` | src/download.c:862-892 | a two-event run with an honest server and no skipping read in which the status save behind the headers meets a failed write and claims a byte that is not in the file, for every file that did not hold it before |
| `EngineLimits.StatusSaveIsSafeExactly` | src/download.c:862-892 | for any job: a status save leaves state.json truthful at every instant and for every outcome of its drain if and only if the done offsets and those it is going to mark are in the file before |
| `EngineLimits.SaveMetadataIsSafeExactly` | src/download.c:862-892 | the same condition for the save between two callbacks as a step of the engine |
| `EngineLimits.DueSavesAreSafeExactly` | src/download.c:2449-2453 | the same condition for the throttled saves behind a mark, on the job with the slot rested or released |
| `EngineInvariants.StepKeepsSound` | src/download.c:2340-2377 | every event keeps reservations disjoint, made of whole segments, and progress inside the file |
| `EngineInvariants.PrepareFits` | src/download.c:1686-1717 | what is let through fits the reservation left behind; nothing is let through exactly when the slot was full; bytes are cut off only at a full slot that cannot grow |
| `EngineInvariants.ExtendForKeepsSound` | src/download.c:1703-1710 | the extension loop keeps all reservations sound and stops when the data fits or the next segment is not free |
| `EngineInvariants.NextEndIsNextSegment` | src/download_segment.c:71-98 | an extension takes exactly the next segment, which no other slot reserves |
| `EngineInvariants.ExtendKeepsSound` | src/download.c:1846-1864 | extending one reservation keeps all of them disjoint |
| `EngineInvariants.FinishKeepsSound` | src/download.c:2435-2472 | finishing a slot, with reuse of the connection, keeps the reservations sound |
| `EngineInvariants.AcquireAllKeepsSound` | src/download.c:2983-2994 | acquiring slots for selected segments keeps the reservations sound |
| `EngineInvariants.MarksAreReceived` | src/download.c:814-830 | persisting marks exactly the kept, not yet persisted offsets of streaming slots |
| `EngineContent.HandlerAccounts` | src/download.c:2435-2472 | every offset done or held after an event was so before or is among the bytes it has just handed to the writer |
| `EngineContent.WriteBodyReceives` | src/download.c:1734-1737 | a slot comes by an offset only through a body write of that offset |
| `EngineProgress.HandlerConserves` | src/download.c:2806-2842 | behind every handler an offset is done or held by a slot if and only if it was before or has been handed over to a writer that has not failed; only a close that does not count its body loses any, and exactly the unmarked ones of its slot |
| `EngineProgress.FinishedSlotIsDone` | src/download.c:2388-2422 | behind a read that finishes its slot, and behind a close that counts its body, every offset that the slot had received is done |
| `EngineMarking.HandlerMarksExactly` | src/download.c:794-860 | the done set behind every handler: what was done, what the slot it finishes has received, and what all streaming slots have received when it persists; and when it does: at a status save, when a throttled save is due, and at the end of the download |
| `EngineMarking.PersistMarks` | src/download.c:812-846 | persisting marks exactly what the streaming slots have received |
| `EngineVerdicts.OutcomeIsExact` | src/download.c:2651-2721 | the outcome behind every handler: finished, failed or going on, each exactly when it should be |
| `EngineVerdicts.DataIsWritten` | src/download.c:1719-1745 | whatever arrives for a streaming slot, with the headers, in a read or in front of a close, is written as it comes and where the slot has come to; it is cut off only at a slot that was full before, or gets full and cannot grow |
| `EngineVerdicts.StreamingReadExactly` | src/download.c:3476-3526 | a streaming slot behind a read: it drains exactly when it is full, cannot grow and at most 256 KiB of the response are left; it gives its connection up when more are left; it finishes when the response is over; and else it goes on, never full, with its counters moved by the bytes written |
| `EngineVerdicts.DrainingReadExactly` | src/download.c:3458-3474 | a draining slot behind a read: it finishes if and only if the data covers the rest of the response; else nothing changes but the rest |
| `EngineVerdicts.ReadReusesExactly` | src/download.c:2454-2472 | behind a read that finishes its slot: the slot waits for a fresh request for an eligible segment if and only if the connection may be kept and some segment is neither done nor reserved by another slot; else it is free |
| `EngineVerdicts.HandlerStaysInPlace` | src/download.c:2295-2338 | an event changes no slot but its own; a close frees it, and headers start it with the length, the connection flag and the bytes they bring |
| `EngineVerdicts.ExtendsExactly` | src/download_segment.c:71-98 | a reservation can grow if and only if there is a next segment that is neither done nor reserved by another slot, and then it grows by that segment |
| `EngineVerdicts.ExtendsAsNeeded` | src/download.c:1703-1710 | the extension loop takes no segment that the data does not reach |
| `EngineScheduling.SchedulingConservesWork` | src/download.c:2955-2995 | after a pass whose connections succeed all slots are in use or every unfinished segment lies in a reservation |
| `EngineScheduling.IdleJobsStartWork` | src/download.c:2955-2995 | an unfinished job without a slot in use selects and starts something |
| `EngineScheduling.AcquiresThemAll` | src/download.c:2983-2994 | every selected segment gets a slot and busy slots are left alone |
| `EngineScheduling.ConnectedAreAcquired` | src/download.c:2983-2994 | every selected segment whose connection is made gets a slot, also behind an attempt that fails |
| `EngineScheduling.AcquiredRequests` | src/download.c:1756-1778 | the new slot reserves the segment and starts from nothing |
| `EngineScheduling.OverlapIsContainment` | src/download.c:1802-1821 | a reservation that overlaps a segment contains it |
| `DownloadJobs.DownloadJob.constructor` | src/download.c:367-385 | a job over a loaded state starts with free slots, the opened file and nothing saved beyond the done set |
| `DownloadJobs.SegmentNextReserveEnd` | src/download_segment.c:71-98 | returns the end of the next segment, or the present end when that segment is done, in flight, or there is none |
| `DownloadJobs.DownloadJob.CountActiveSlots` | src/download.c:1788-1800 | the number of slots in use |
| `DownloadJobs.DownloadJob.CollectInFlight` | src/download.c:1823-1844 | the array of 32 ranges rules out exactly what the other slots in use rule out |
| `DownloadJobs.DownloadJob.TryExtendReservation` | src/download.c:1846-1864 | succeeds exactly when the next segment is free, and then the reservation ends with it |
| `DownloadJobs.DownloadJob.PrepareWrite` | src/download.c:1686-1717 | extends the reservation as the model does and returns the number of bytes that may be written |
| `DownloadJobs.DownloadJob.ExtendUntilFits` | src/download.c:1703-1710 | the extension loop, which terminates because the distance to the end of the file shrinks |
| `DownloadJobs.DownloadJob.WriteAtOffset` | src/download.c:2133-2163 | hands the bytes to the writer; on a write error the job has failed |
| `DownloadJobs.DownloadJob.WriteBody` | src/download.c:1719-1745 | writes the clamped body at the slot's offset and accounts for it |
| `DownloadJobs.DownloadJob.MarkReceived` | src/download.c:812-830 | marks what every streaming slot has received since the last persist |
| `DownloadJobs.DownloadJob.DrainAndSave` | src/download.c:847-855 | exactly one save behind a drain that succeeds and none behind one that fails; behind it state.json claims all that is done if the file system lets the save through, and else what it did before; nothing is buffered any more at the instant of the save |
| `DownloadJobs.DownloadJob.SaveState` | src/download_state.c:523-646 | state.json claims what is done if the file system lets it be replaced, and what it did before if not |
| `DownloadJobs.StateFile.Replace` | src/download_state.c:605-646 | the new file takes the place of the old one exactly when the file system allows it |
| `DownloadJobs.DownloadJob.PersistBufferedProgress` | src/download.c:794-860 | marks, drains and saves, in this order at every instant of the timeline; without anything new it does nothing |
| `DownloadJobs.DownloadJob.SaveStatus` | src/download.c:862-892 | persists, then saves whatever the drain reported: with its saves let through, state.json claims all that is done |
| `DownloadJobs.DownloadJob.FinalizeDownload` | src/download.c:2651-2721 | persists, closes, checks the byte count and moves the file, or fails the job; of a complete download `OutcomeIsExact` says which |
| `DownloadJobs.DownloadJob.MarkSegmentDone` | src/download.c:2379-2422 | marks the received range once, counts it as persisted, drains and only then saves; false without data |
| `DownloadJobs.DownloadJob.Release` | src/download.c:1780-1786 | the slot is free again and nothing else changes |
| `DownloadJobs.DownloadJob.PickNextRange` | src/download.c:2340-2355 | the segment that the strategy selects first for the reuse of the connection, or none exactly when none is eligible |
| `DownloadJobs.DownloadJob.ReuseOrRelease` | src/download.c:2461-2471 | reserves the picked segment on a kept-alive connection, or lets go of the slot |
| `DownloadJobs.DownloadJob.FinishContinuous` | src/download.c:2435-2472 | mark, save the status when it is due, then finish the download, reuse the connection or release |
| `DownloadJobs.DownloadJob.MarkAndRest` | src/download.c:2440-2453 | its head: the received range is marked, the slot rests, and a status save that is due follows the mark |
| `DownloadJobs.DownloadJob.AfterBodyWrite` | src/download.c:3481-3497 | a full slot extends, drains a short rest or gives the connection up |
| `DownloadJobs.DownloadJob.DiscardBody` | src/download.c:3458-3474 | a draining slot throws data away and finishes when nothing of the response remains |
| `DownloadJobs.DownloadJob.OnRead` | src/download.c:3457-3537 | the READ handler takes one step of the engine |
| `DownloadJobs.DownloadJob.OnHeaders` | src/download.c:2295-2338 | headers, first body and the status save behind them take one step of the engine |
| `DownloadJobs.DownloadJob.FlushRecvBody` | src/download.c:2739-2770 | what the receive buffer still holds is written when the slot streams |
| `DownloadJobs.DownloadJob.CompleteChunkSlot` | src/download.c:2517-2540 | the slot of a closed connection is marked and released, the status saved when it is due and the range was new, and the download finished when complete |
| `DownloadJobs.DownloadJob.OnClosed` | src/download.c:2806-2953 | the CLOSE handler takes one step of the engine |
| `DownloadJobs.DownloadJob.OnClosedUnparsed` | src/download.c:2828-2832 | a response that is parsed only at the close is handled as one step, and the close behind it, for which the body does not count, as another |
| `DownloadJobs.DownloadJob.OnAbandoned` | src/download.c:2834-2842 | a close with a pending scheduling request flushes and releases only |
| `DownloadJobs.DownloadJob.AcquireSlot` | src/download.c:1756-1778 | the first free slot gets the range, or none is free |
| `DownloadJobs.DownloadJob.OpenConnection` | src/download.c:2983-2994 | a failed connection attempt gives the slot back and fails the job |
| `DownloadJobs.DownloadJob.SelectPending` | src/download.c:2966-2981 | the ranges of exactly the segments that the strategy selects for as many slots as are free |
| `DownloadJobs.DownloadJob.SchedulePendingChunks` | src/download.c:2955-2995 | the scheduling pass takes one step of the engine |
| `DownloadJobs.DownloadJob.SyncStateMetadata` | src/download.c:862-892 | persists and then saves in any case |
| `Writers.SessionRefinesSequentialFile` | src/file_async.c:96-241 | under every interleaving of producer and worker, over any calls: unless a write failed, disk overlaid with the pending and the active buffer is the sequential file |
| `Writers.EveryInstantRefines` | src/file_async.c:96-151 | the same at every instant inside every call, also in the middle of a worker write |
| `Writers.DrainedSessionIsOnDisk` | src/file_async.c:227-241 | after a drain that reports success the disk alone is the sequential file |
| `Writers.StepKeepsInv` | src/file_async.c:96-151 | every step of either thread keeps the protocol (pending exactly when a worker is queued, never the active buffer) and the refinement; a failure is sticky |
| `Writers.PendingBufferIsFrozen` | src/file_async.c:96-151 | between hand-off and completion nobody changes the pending buffer, and it is released only fully written or with a failure |
| `Writers.AdvanceKeepsInv` | src/file_async.c:86-94 | a partial worker write changes nothing in the view |
| `Writers.CompleteKeepsInv` | src/file_async.c:96-116 | a finished write may release its buffer |
| `Writers.AppendKeepsInv` | src/file_async.c:202-218 | a copy into the active buffer applies the bytes to the view |
| `Writers.HandOffKeepsInv` | src/file_async.c:121-151 | swapping the buffers loses nothing |
| `Writers.InlineWriteKeepsInv` | src/file_async.c:140-150 | the inline write after a refused hand-off loses nothing |
| `Writers.TraceKeepsContent` | src/file_async.c:187-241 | along any run only buffered bytes reach the disk, so right bytes on it stay |
| `AsyncFiles.SwapBufferCell.Fill` | src/file_async.c:206-216 | copies behind what is buffered; an empty buffer starts at the given offset |
| `AsyncFiles.AsyncFile.WorkerAdvance` | src/file_async.c:96-116 | a write of part of the pending buffer is a protocol step and shrinks the work left |
| `AsyncFiles.AsyncFile.WorkerComplete` | src/file_async.c:96-116 | the worker releases the buffer; the work left shrinks |
| `AsyncFiles.AsyncFile.SubmitLocked` | src/file_async.c:121-151 | leaves the active buffer empty, by hand-off, inline write or discarding after an error |
| `AsyncFiles.AsyncFile.SwapActive` | src/file_async.c:137-150 | swaps and hands the full buffer to the pool, or writes it inline exactly when the pool refuses it |
| `AsyncFiles.AsyncFile.Dispatch` | src/file_async.c:140-149 | one buffer is queued or written, and the error flag is set exactly when a write has been refused |
| `AsyncFiles.AsyncFile.Write` | src/file_async.c:187-225 | whatever the worker does meanwhile, a write that reports success was accepted completely; its loop terminates |
| `AsyncFiles.AsyncFile.WriteSome` | src/file_async.c:200-219 | each iteration moves the cursor or empties the active buffer |
| `AsyncFiles.AsyncFile.Drain` | src/file_async.c:227-241 | leaves nothing buffered and reports failures |
| `AsyncFiles.AsyncFile.Close` | src/file_async.c:243-297 | success means that the disk holds every accepted write and nothing failed |
| `ByteRanges.NormalFormIsUnique` | src/download_state.c:131-178 | sorted, disjoint, non-adjacent arrays with the same offsets are equal |
| `ByteRanges.RunLiesInOneRange` | src/download_state.c:180-200 | in normal form a contiguous run of covered offsets lies inside one range |
| `ByteRanges.LengthsCountOffsets` | src/download_state.c:648-662 | the sum of the lengths of a normal array is the size of its set of offsets |
| `ByteRanges.FullWhenCounted` | src/download_state.c:664-670 | as many offsets as the size means all of them |
| `DownloadStates.SpliceIsNormal` | src/download_state.c:145-172 | replacing the touched ranges by their union keeps the normal form |
| `DownloadStates.SpliceIsUnion` | src/download_state.c:145-172 | and covers exactly the old offsets and the new range |
| `DownloadStates.ClippingIsIntersection` | src/download_state.c:79-108 | clipping keeps exactly the offsets below the size, in normal form |
| `DownloadStates.CoalescingKeepsOffsets` | src/download_state.c:55-77 | coalescing a sorted array gives the normal form of the same offsets |
| `DownloadStates.DownloadState.IsRangeDone` | src/download_state.c:180-200 | true if and only if the range is not empty and every offset of it is done |
| `DownloadStates.DownloadState.InsertSortedRange` | src/download_state.c:110-129 | inserts before the first range that starts later or at the same offset |
| `DownloadStates.DownloadState.MarkRangeDone` | src/download_state.c:131-178 | set union with the clipped range, in normal form; reversed ranges are refused |
| `DownloadStates.DownloadState.FindMerge` | src/download_state.c:148-167 | finds the ranges that overlap or touch the new one, and their union with it |
| `DownloadStates.DownloadState.MergeRange` | src/download_state.c:148-178 | the merging scan adds exactly the range and keeps the normal form |
| `DownloadStates.DownloadState.CoalesceDoneRanges` | src/download_state.c:55-77 | the array becomes the normal form of the offsets it covered |
| `DownloadStates.DownloadState.ClipDoneRanges` | src/download_state.c:79-108 | the done set becomes its intersection with the file |
| `DownloadStates.DownloadState.InitChunks` | src/download_state.c:370-380 | a change of size keeps exactly the done offsets that fit the new size |
| `DownloadStates.DownloadState.CountSegments` | src/download_state.c:202-209 | the ceiling quotient: the number of segments that start inside the file |
| `DownloadStates.DownloadState.IsSegmentDone` | src/download_state.c:211-224 | true if and only if there is such a segment and every offset of it is done |
| `DownloadStates.DownloadState.BytesDone` | src/download_state.c:648-662 | the size of the done set, or the stored figure when no range is stored |
| `DownloadStates.DownloadState.AllChunksDone` | src/download_state.c:664-670 | true if and only if every offset of a non-empty file is done |
| `DownloadStates.DownloadState.SaveDoneRanges` | src/download_state.c:581-596 | the saved pairs are the ranges in order |
| `DownloadStates.DownloadState.LoadDoneRanges` | src/download_state.c:255-281 | succeeds exactly when no pair is reversed, and then adds the clipped pairs |
| `DownloadStates.DownloadState.MarkLegacyChunk` | src/download_state.c:226-253 | a flagged segment is marked; one that starts past the end is refused |
| `DownloadStates.DownloadState.LoadLegacyChunks` | src/download_state.c:226-253 | succeeds exactly when no flagged segment starts past the end, and then adds the flagged segments |
| `DownloadStates.SavedItemsStandForRanges` | src/download_state.c:581-596 | the saved pairs stand for the offsets of the array |
| `DownloadStates.SavedProgressRoundTrips` | src/download_state.c:508-508 | a normal array of the offsets that the saved pairs stand for is the array that was saved |
| `DownloadStates.SaveAndLoad` | src/download_state.c:382-520 | saving the ranges, loading them into a new state and clipping: the done set comes back clipped to the size, and progress inside the file as the identical array |
| `DownloadStates.LegacyFlagsAreSegments` | src/download_state.c:226-253 | after loading a legacy bitmap a segment is done exactly when its flag was set |
| `DownloadStates.FlagPastTheEndFails` | src/download_state.c:226-253 | two set flags for a file of one byte do not fit |
| `DownloadStates.CountedFlagsFit` | src/download_state.c:491-497 | flags never fail the load when the chunk count is at most the number of segments of the size |
| `Segments.SegmentShape` | src/download_segment.c:8-23 | segments are non-empty, inside the file and adjacent; the last one ends the file |
| `Segments.OffsetInItsSegment` | src/download_segment.c:8-23 | every offset lies in the segment its quotient names |
| `Segments.SegmentsAreDisjoint` | src/download_segment.c:8-23 | no two segments overlap |
| `Segments.CompleteWhenEverySegmentIs` | src/download_state.c:202-224 | the whole range is done exactly when every segment below the count is |
| `Segments.OverlapIsSharing` | src/download_segment.c:47-54 | the overlap test says whether two ranges share an offset |
| `SegmentSelect.TrySelectSegment` | src/download_segment.c:127-146 | takes a segment exactly when it is not done and accepted |
| `SegmentSelect.SelectLeftHeavy` | src/download_segment.c:148-162 | writes the selection of the left-heavy strategy, in order |
| `SegmentSelect.SelectFromBucket` | src/download_segment.c:187-191 | takes the first eligible segment of the bucket, if there is one |
| `SegmentSelect.SelectFromBuckets` | src/download_segment.c:181-192 | one pass serves every bucket in turn until enough are selected |
| `SegmentSelect.SelectBalanced` | src/download_segment.c:164-219 | writes the selection of the balanced strategy, in order |
| `SegmentSelect.SelectChunks` | src/download_segment.c:221-234 | writes the selection of the chosen strategy, whose properties are those of `SelectedIsRight` |
| `SegmentSelect.SelectedIsRight` | src/download_segment.c:148-219 | either strategy finds min(asked, eligible) distinct eligible segments; left-heavy skips nothing to the left of them, balanced serves the first eligible one of every bucket when the request covers the buckets |
| `SegmentSelect.BalancedIsExact` | src/download_segment.c:164-219 | for a request of any size: the balanced strategy takes the first candidates of the buckets, one bucket for every connection, from the left and leaving none out, until it has enough or has served all; the rest it takes from the left |
| `SegmentSelect.LargeRequestsSelectEverything` | src/download_segment.c:148-219 | a request that covers all candidates gets all of them, so the strategies agree as sets |
| `SegmentSelect.SelectedSegmentsAreDisjoint` | src/download_segment.c:148-219 | selected segments never overlap |
| `SegmentSelect.UnfinishedHasCandidate` | src/download_segment.c:164-219 | an unfinished file has a candidate when nothing is in flight |
| `ThreadPools.RunConserves` | src/thread_pool.c:43-117 | over any interleaving of submits, pops and shutdown, tasks taken followed by tasks queued are the tasks accepted, in order |
| `ThreadPools.TakenInOrder` | src/thread_pool.c:54-64 | the k-th task taken is the k-th accepted |
| `ThreadPools.WorkersDrainTheQueue` | src/thread_pool.c:69-117 | a worker exits only after shutdown on an empty queue, and enough turns empty it |
| `ThreadPools.ThreadPool.Push` | src/thread_pool.c:43-52 | appends to the linked queue |
| `ThreadPools.ThreadPool.Pop` | src/thread_pool.c:54-64 | takes the head of the linked queue, or none when it is empty |
| `ThreadPools.ThreadPool.Submit` | src/thread_pool.c:215-252 | accepts a task exactly before shutdown and queues it last |
| `ThreadPools.ThreadPool.WorkerTurn` | src/thread_pool.c:69-117 | takes the oldest task or exits after shutdown on an empty queue |
| `ChunkedEncoding.DecodingInvertsEncoding` | src/download.c:2200-2257 | for any non-empty chunks with sizes of at most 19 digits, any extensions, last chunk and trailers, cut into any pieces: the output is the payload and the decoder is complete |
| `ChunkedEncoding.SizeReadRight` | src/download.c:2208-2232 | a non-zero 64-bit size is read right if and only if it is written with at most 19 digits; zero always is |
| `ChunkedEncoding.LongSizesEndTheBody` | src/download.c:2229-2233 | a one-byte chunk whose size has 19 leading zeros ends the body and is lost |
| `ChunkedEncoding.FeedSizeLine` | src/download.c:2208-2235 | a size line of any length with any extension opens the payload that its kept digits announce |
| `ChunkedEncoding.SizeLinesRefusedExactly` | src/download.c:2213-2221 | a size line without leading blanks and sign is refused exactly when it does not start with a hexadecimal digit, and then nothing of it reaches the output |
| `ChunkedCoding.PartitionsAgree` | src/download.c:2203-2257 | feeding any partition of the input ends in the same state with the same output |
| `ChunkedCoding.FeedStaysValid` | src/download.c:2229-2231 | the 20-byte line buffer never overflows, for any input |
| `ChunkedCoding.FeedPayload` | src/download.c:2236-2251 | payload bytes are copied and counted down |
| `ChunkedCoding.FeedAfterEnd` | src/download.c:2252-2254 | nothing after the last chunk or an error has an effect |
| `ChunkedCoding.ChunkedDecoder.TakeLineByte` | src/download.c:2207-2235 | one byte of a size line, as the byte machine takes it |
| `ChunkedCoding.ChunkedDecoder.TakePayload` | src/download.c:2236-2251 | the bulk copy is the byte machine on that many bytes |
| `ChunkedCoding.ChunkedDecoder.AppendStreamChunked` | src/download.c:2203-2257 | the bulk code computes what the byte machine computes; after a failed write it is in the state of the byte machine in front of the payload that could not be written, with the error set; false exactly after an error |
| `Snowflakes.IdsNeverCollide` | src/download.c:4293-4326 | for any clock readings, also backwards ones, two ids of one process less than 2^42 ms apart differ |
| `Snowflakes.HistoryMovesForward` | src/download.c:4301-4318 | (last_ms, sequence) strictly increases lexicographically over every history |
| `Snowflakes.NextMovesForward` | src/download.c:4301-4318 | one id moves the generator forward and keeps the sequence in its 12 bits |
| `Snowflakes.NextIsTheFirst` | src/download.c:4301-4318 | an id takes the first pair of time and sequence behind the last one that the clock allows |
| `Snowflakes.RawIsPacked` | src/download.c:4320-4324 | the three fields do not overlap in the word |
| `Snowflakes.RawCollidesExactly` | src/download.c:4320-4324 | two words collide exactly when sequences agree and times agree modulo 2^42 |
| `Snowflakes.MixIsBijective` | src/download.c:4273-4282 | the mixer maps 64-bit words to 64-bit words and no two to one |
| `Words.XorShiftIsInjective` | src/download.c:4276-4280 | x ^ (x >> k) determines x, for every positive k |
| `Words.ProductIsInvertible` | src/download.c:4277-4279 | a product with an invertible factor modulo 2^64 determines its other factor |
| `Words.OrOfDisjointFields` | src/download.c:4321-4324 | or of fields that do not overlap is their sum |
| `Snowflakes.Snowflake.WaitNextMs` | src/download.c:4284-4291 | returns the first reading after the last used millisecond |
| `Snowflakes.Snowflake.Next` | src/download.c:4293-4326 | the generator takes one step for the present reading, waiting only when the sequence is used up |
| `ConfigTrees.ResetUndoesSet` | src/config.c:426-502 | for an absent key in a tree without empty objects: set then reset restores the tree, order included, if and only if no scalar stood on the way |
| `ConfigTrees.SetThenLookup` | src/config.c:426-466 | what is set is found |
| `ConfigTrees.SetLeavesOthers` | src/config.c:426-466 | keys that are not prefix-related keep their values when one is set |
| `ConfigTrees.SetKeepsTidy` | src/config.c:426-466 | setting leaves no empty object and no duplicate name |
| `ConfigTrees.ResetKeepsTidy` | src/config.c:293-337 | resetting leaves no empty object and no duplicate name |
| `ConfigTrees.ResetRemovesTheKey` | src/config.c:468-502 | after a reset the key is gone |
| `ConfigTrees.ResetLeavesOthers` | src/config.c:468-502 | keys that are not prefix-related keep their values when one is reset |
| `ConfigTrees.KeysAcceptedExactly` | src/config.c:241-257 | a key is accepted exactly when none of its segments is empty |
| `ConfigKeys.SplitCutsAtDots` | src/config.c:241-257 | a key is cut at every dot: the segments contain none, and joined by dots they are the key |
| `ConfigKeys.SplitIsUnique` | src/config.c:241-257 | no other list of segments without dots joins to the key |
| `ConfigKeys.WellFormedKeysExactly` | src/config.c:241-250 | the accepted keys are those with no dot at either end and no two side by side |
| `ConfigKeys.SetChangesExactly` | src/config.c:426-466 | the value of every key behind a set: the key has the new value, keys above and below it have none, and all others are as they were |
| `ConfigKeys.ResetChangesExactly` | src/config.c:468-502 | the value of every key behind a reset of a key that is there: it and the keys below it have none, and all others are as they were |
| `ConfigTrees.RejectedKeysMayStillWrite` | src/config.c:247-288 | a rejected key leaves the tree alone exactly when every object before its first empty segment exists already |
| `ConfigTrees.TrailingDotLeavesAnEmptyObject` | src/config.c:247-288 | "a." is rejected and yet adds an empty object |
| `ConfigStores.OpenAllAfterStep` | src/config.c:260-288 | one iteration of the creating walk does not change where the walk ends |
| `ConfigStores.SetIsWalkThenPut` | src/config.c:436-459 | the walk to the parent and the write there are the recursive set |
| `ConfigStores.ResetIsRemoveThenPrune` | src/config.c:494-496 | removing the leaf and pruning upwards are the recursive reset |
| `ConfigStores.Config.ResolveParent` | src/config.c:231-291 | finds the parent, or creates it on the way, segment by segment |
| `ConfigStores.Config.PruneEmptyParents` | src/config.c:293-337 | removes the objects above the key that are empty, from the bottom up |
| `ConfigStores.Config.GetConfig` | src/config.c:339-403 | the variable of the environment when its name fits the buffer and is there, and otherwise the value of the key in the tree |
| `ConfigStores.Config.SetConfig` | src/config.c:426-466 | the tree becomes the recursive set, in which the key has the new value; success exactly for well-formed keys that persist |
| `ConfigStores.Config.ResetConfig` | src/config.c:468-502 | the tree becomes the recursive reset when the key is there, and is unchanged otherwise |

## Left out

- Sockets, TLS, proxies, HTTP parsing and redirects: a header, data or close event has its decoded content as a parameter.
- The single-connection range path without slots and the fallback from segments to one stream: runs are segment-mode runs.
- Non-continuous slots: in segment mode every slot is continuous.
- Retry counters, status texts, progress figures, speed and drawing: they do not influence which bytes are written.
- The timing of periodic saves: read and close events carry a flag that says whether the throttled saves have come due. The status saves at the end of the read and error branches and from outside are events of their own, directly behind; the last one of a finished download comes after the file has been moved and is not part of a run.
- Allocation failure and JSON text: what the file system answers to writes, saves, fsync, fclose and the move is given.
- Power loss: a crash loses the process, not what the operating system has accepted. State.json is replaced at once, by a rename; that Windows removes the old one first is not modelled.
- Stopping a job by the user: an event that ends the run without touching the file.
- Shutdown of the pool against sleeping workers: the flag is set without the lock, so that they wake up is not claimed.
- Array-valued configuration items and the locks around the configuration tree.
- Names, locks and log output in general; the download mutex guards the state against readers that the model does not have.
- Engine.Slot: the field `delivered` is a history variable; the code has no such counter.
- DownloadJobs.DownloadJob.MarkSegmentDone: takes the receive buffer as empty, because its callers have consumed it or the slot is full and would drop it.
- DownloadJobs.DownloadJob.FinishContinuous: takes the receive buffer as empty, for the same reason.
- ConfigStores.Config: the tree is a value that the methods replace, so the sharing of nodes between pointers is not modelled.
- ThreadPools.ThreadPool: worker threads are turns taken one at a time under the lock.
