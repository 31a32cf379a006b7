/** Segment arithmetic of src/download_segment.c: a file of `total` bytes is cut into
    segments of the chunk size, the last one being shorter. */
module Segments {
  import opened Machine
  import opened ByteRanges

  const DL_CHUNK_SIZE: nat := 256 * 1024
  const DL_MAX_SEGMENT_CONCURRENCY: nat := 32

  function SegmentSize(chunkSize: nat): (size: nat)
    ensures size > 0
  {
    if chunkSize > 0 then chunkSize else DL_CHUNK_SIZE
  }

  /** No sum of the segment arithmetic leaves 64 bits. */
  predicate Bounded(total: nat, chunkSize: nat) {
    total + SegmentSize(chunkSize) < U64_LIMIT
  }

  function SegmentCount(total: nat, chunkSize: nat): nat {
    if total == 0 then 0 else (total + SegmentSize(chunkSize) - 1) / SegmentSize(chunkSize)
  }

  function SegmentStart(chunkSize: nat, index: nat): nat {
    index * SegmentSize(chunkSize)
  }

  function SegmentEnd(total: nat, chunkSize: nat, index: nat): int {
    var end := SegmentStart(chunkSize, index) + SegmentSize(chunkSize) - 1;
    if total > 0 && end >= total then total - 1 else end
  }

  predicate RangesOverlap(aStart: int, aEnd: int, bStart: int, bEnd: int) {
    aStart <= aEnd && bStart <= bEnd && aStart <= bEnd && bStart <= aEnd
  }

  /** Overlap is what it should be: two ranges overlap when they share an offset. */
  lemma OverlapIsSharing(aStart: int, aEnd: int, bStart: int, bEnd: int)
    ensures RangesOverlap(aStart, aEnd, bStart, bEnd)
            <==> Interval(aStart, aEnd) * Interval(bStart, bEnd) != {}
  {
    var shared := Interval(aStart, aEnd) * Interval(bStart, bEnd);
    if RangesOverlap(aStart, aEnd, bStart, bEnd) {
      assert (if aStart < bStart then bStart else aStart) in shared;
    }
  }

  lemma MulMonotone(a: nat, b: nat, c: nat)
    requires a <= b
    ensures a * c <= b * c
  {
  }

  lemma DivBounds(x: nat, c: nat)
    requires c > 0
    ensures x / c * c <= x < x / c * c + c
  {
  }

  /** An index is below the ceiling count exactly when its segment starts inside the file. */
  lemma IndexInFile(total: nat, chunkSize: nat, index: nat)
    ensures index < SegmentCount(total, chunkSize) <==> SegmentStart(chunkSize, index) < total
  {
    var c := SegmentSize(chunkSize);
    if total > 0 {
      DivBounds(total + c - 1, c);
      var n := (total + c - 1) / c;
      if index < n {
        MulMonotone(index + 1, n, c);
        assert (index + 1) * c == index * c + c;
      } else {
        MulMonotone(n, index, c);
      }
    }
  }

  lemma NextSegmentStart(chunkSize: nat, index: nat)
    ensures SegmentStart(chunkSize, index + 1) == SegmentStart(chunkSize, index) + SegmentSize(chunkSize)
  {
    assert (index + 1) * SegmentSize(chunkSize) == index * SegmentSize(chunkSize) + SegmentSize(chunkSize);
  }

  lemma SegmentShape(total: nat, chunkSize: nat, index: nat)
    requires index < SegmentCount(total, chunkSize)
    ensures SegmentStart(chunkSize, index) <= SegmentEnd(total, chunkSize, index) < total
    ensures SegmentStart(chunkSize, index + 1) == SegmentStart(chunkSize, index) + SegmentSize(chunkSize)
    ensures index + 1 < SegmentCount(total, chunkSize)
            ==> SegmentEnd(total, chunkSize, index) + 1 == SegmentStart(chunkSize, index + 1)
    ensures index + 1 == SegmentCount(total, chunkSize) ==> SegmentEnd(total, chunkSize, index) == total - 1
  {
    IndexInFile(total, chunkSize, index);
    IndexInFile(total, chunkSize, index + 1);
    NextSegmentStart(chunkSize, index);
  }

  /** The segments partition the file: every offset lies in the segment its quotient names... */
  lemma OffsetInItsSegment(total: nat, chunkSize: nat, o: nat) returns (index: nat)
    requires o < total
    ensures index == o / SegmentSize(chunkSize)
    ensures index < SegmentCount(total, chunkSize)
    ensures SegmentStart(chunkSize, index) <= o <= SegmentEnd(total, chunkSize, index)
  {
    index := o / SegmentSize(chunkSize);
    DivBounds(o, SegmentSize(chunkSize));
    IndexInFile(total, chunkSize, index);
  }

  /** ... and in no other one. */
  lemma SegmentsAreDisjoint(total: nat, chunkSize: nat, a: nat, b: nat)
    requires a < b
    ensures SegmentEnd(total, chunkSize, a) < SegmentStart(chunkSize, b)
    ensures b < SegmentCount(total, chunkSize) ==>
              !RangesOverlap(SegmentStart(chunkSize, a), SegmentEnd(total, chunkSize, a),
                             SegmentStart(chunkSize, b), SegmentEnd(total, chunkSize, b))
  {
    var c := SegmentSize(chunkSize);
    MulMonotone(a + 1, b, c);
    assert (a + 1) * c == a * c + c;
  }

  // -------- progress as a set of offsets --------

  ghost predicate RangeDone(done: set<int>, start: int, end: int) {
    start <= end && forall o | start <= o <= end :: o in done
  }

  ghost predicate SegmentDone(done: set<int>, total: nat, chunkSize: nat, index: nat) {
    RangeDone(done, SegmentStart(chunkSize, index), SegmentEnd(total, chunkSize, index))
  }

  /** The completion tests agree: the whole range is done exactly when every segment
      below the ceiling count is. */
  lemma CompleteWhenEverySegmentIs(done: set<int>, total: nat, chunkSize: nat)
    requires total > 0
    ensures RangeDone(done, 0, total - 1)
            <==> forall i: nat | i < SegmentCount(total, chunkSize) :: SegmentDone(done, total, chunkSize, i)
  {
    if RangeDone(done, 0, total - 1) {
      forall i: nat | i < SegmentCount(total, chunkSize)
        ensures SegmentDone(done, total, chunkSize, i)
      {
        SegmentShape(total, chunkSize, i);
      }
    }
    if forall i: nat | i < SegmentCount(total, chunkSize) :: SegmentDone(done, total, chunkSize, i) {
      forall o | 0 <= o < total
        ensures o in done
      {
        var i := OffsetInItsSegment(total, chunkSize, o);
        assert SegmentDone(done, total, chunkSize, i);
      }
    }
  }

  lemma UnfinishedSegment(done: set<int>, total: nat, chunkSize: nat) returns (index: nat)
    requires total > 0 && !RangeDone(done, 0, total - 1)
    ensures index < SegmentCount(total, chunkSize) && !SegmentDone(done, total, chunkSize, index)
  {
    var o :| 0 <= o < total && o !in done;
    index := OffsetInItsSegment(total, chunkSize, o);
  }
}
