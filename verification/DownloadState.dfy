/** The done-range record of src/download_state.c. The ranges live in a growable array
    that is edited in place; every operation is specified by the set of offsets the array
    covers, and `NormalFormIsUnique` makes that set determine the array. */
module DownloadStates {
  import opened Machine
  import opened ByteRanges
  import opened Segments

  /** A JSON element of the saved `doneRanges` array: a pair of numbers or anything else. */
  datatype JsonItem = Pair(start: uint64, end: uint64) | Other

  /** What the two scans of a merge establish: the ranges before `lo` end short of the new
      range, those from `lo` up to `hi` touch it, the one at `hi` starts beyond the result. */
  ghost predicate MergeAt(rs: seq<ByteRange>, lo: nat, hi: nat, start: int, end: int, merged: ByteRange) {
    && lo <= hi <= |rs|
    && start <= end
    && (forall k | 0 <= k < lo :: rs[k].end + 1 < start)
    && (forall k | lo <= k < hi :: rs[k].start <= end + 1)
    && (hi < |rs| ==> merged.end + 1 < rs[hi].start)
    && merged.end < MAX_U64
    && (lo == hi ==> merged.start == start && merged.end == end)
    && (lo < hi ==>
          && rs[lo].end + 1 >= start
          && merged.start == (if rs[lo].start < start then rs[lo].start else start)
          && merged.end == (if rs[hi - 1].end > end then rs[hi - 1].end else end))
  }

  /** The same in the middle of the second scan. */
  ghost predicate MergesSoFar(rs: seq<ByteRange>, lo: nat, hi: nat, start: int, end: int, merged: ByteRange) {
    && lo <= hi <= |rs|
    && (forall k | lo <= k < hi :: rs[k].start <= end + 1)
    && merged.end < MAX_U64
    && (lo == hi ==> merged.start == start && merged.end == end)
    && (lo < hi ==>
          && merged.start == (if rs[lo].start < start then rs[lo].start else start)
          && merged.end == (if rs[hi - 1].end > end then rs[hi - 1].end else end))
  }

  /** The smallest range around two. */
  function Enclosing(a: ByteRange, b: ByteRange): ByteRange {
    ByteRange(if b.start < a.start then b.start else a.start, if b.end > a.end then b.end else a.end)
  }

  lemma MergesOneMore(rs: seq<ByteRange>, lo: nat, hi: nat, start: int, end: int, merged: ByteRange)
    requires Normal(rs) && start <= end && MergesSoFar(rs, lo, hi, start, end, merged)
    requires hi < |rs| && rs[hi].start <= merged.end + 1
    ensures MergesSoFar(rs, lo, hi + 1, start, end, Enclosing(merged, rs[hi]))
  {
    if lo < hi {
      assert rs[lo].start <= rs[lo].end && (lo < hi - 1 ==> rs[lo].end < rs[hi - 1].start);
      assert rs[hi - 1].end + 1 < rs[hi].start <= rs[hi].end;
    }
  }

  function Splice(rs: seq<ByteRange>, lo: nat, hi: nat, merged: ByteRange): seq<ByteRange>
    requires lo <= hi <= |rs|
  {
    rs[..lo] + [merged] + rs[hi..]
  }

  lemma SpliceIsNormal(rs: seq<ByteRange>, lo: nat, hi: nat, start: int, end: int, merged: ByteRange)
    requires Normal(rs) && MergeAt(rs, lo, hi, start, end, merged)
    ensures Normal(Splice(rs, lo, hi, merged))
  {
    assert lo < hi ==> rs[hi - 1].start <= rs[hi - 1].end;
    if lo > 0 {
      assert rs[lo - 1].end + 1 < start;
      assert lo < hi ==> rs[lo - 1].end + 1 < rs[lo].start;
    }
    NormalConcat(rs[..lo], [merged]);
    NormalConcat(rs[..lo] + [merged], rs[hi..]);
  }

  lemma MergedCoversMiddle(rs: seq<ByteRange>, lo: nat, hi: nat, start: int, end: int, merged: ByteRange, o: int)
    requires Normal(rs) && MergeAt(rs, lo, hi, start, end, merged)
    ensures merged.start <= o <= merged.end <==> Covers(rs[lo..hi], o) || start <= o <= end
  {
    if Covers(rs[lo..hi], o) {
      var k :| 0 <= k < hi - lo && rs[lo..hi][k].start <= o <= rs[lo..hi][k].end;
      assert rs[lo..hi][k] == rs[lo + k];
      assert k > 0 ==> rs[lo].end < rs[lo + k].start;
      assert lo + k < hi - 1 ==> rs[lo + k].end < rs[hi - 1].start;
    }
    if merged.start <= o <= merged.end && !(start <= o <= end) {
      var k := if o < start then 0 else hi - lo - 1;
      assert rs[lo..hi][k] == rs[lo + k];
      assert rs[lo..hi][k].start <= o <= rs[lo..hi][k].end;
    }
  }

  /** A merge is set union. */
  lemma SpliceIsUnion(rs: seq<ByteRange>, lo: nat, hi: nat, start: int, end: int, merged: ByteRange)
    requires Normal(rs) && MergeAt(rs, lo, hi, start, end, merged)
    ensures forall o :: Covers(Splice(rs, lo, hi, merged), o) <==> Covers(rs, o) || start <= o <= end
  {
    forall o
      ensures Covers(Splice(rs, lo, hi, merged), o) <==> Covers(rs, o) || start <= o <= end
    {
      assert rs == rs[..lo] + rs[lo..hi] + rs[hi..];
      CoversConcat(rs[..lo] + [merged], rs[hi..], o);
      CoversConcat(rs[..lo], [merged], o);
      CoversConcat(rs[..lo] + rs[lo..hi], rs[hi..], o);
      CoversConcat(rs[..lo], rs[lo..hi], o);
      CoversCons([merged], o);
      MergedCoversMiddle(rs, lo, hi, start, end, merged, o);
    }
  }

  lemma EnclosedIsCovered(rs: seq<ByteRange>, i: nat, start: int, end: int)
    requires i < |rs| && rs[i].start <= start && end <= rs[i].end
    ensures forall o | start <= o <= end :: Covers(rs, o)
  {
    forall o | start <= o <= end
      ensures Covers(rs, o)
    {
      assert rs[i].start <= o <= rs[i].end;
    }
  }

  /** Dropping the offsets from `total` on, or nothing when the size is not known. */
  function Clip(done: set<int>, total: nat): set<int> {
    if total == 0 then done else set o | o in done && o < total
  }

  lemma SameOffsets(xs: seq<ByteRange>, done: set<int>)
    requires forall o :: Covers(xs, o) <==> o in done
    ensures Offsets(xs) == done
  {
    OffsetsAreCovered(xs);
    forall o: int | o in done
      ensures o in Offsets(xs)
    {
      assert Covers(xs, o);
    }
    forall o: int | o in Offsets(xs)
      ensures o in done
    {
      assert Covers(xs, o);
    }
  }

  /** One step of clipping: a range that starts inside the file is kept up to its end. */
  function Clipped(acc: seq<ByteRange>, range: ByteRange, total: uint64): seq<ByteRange> {
    if total == 0 then acc + [range]
    else if range.start >= total then acc
    else acc + [ByteRange(range.start, if range.end > total - 1 then total - 1 else range.end)]
  }

  /** `out` is a normal array of the offsets of `rs` below `total`. */
  ghost predicate ClipsTo(rs: seq<ByteRange>, out: seq<ByteRange>, total: uint64) {
    && Normal(out)
    && (out != [] ==> rs != [] && out[|out| - 1].end <= rs[|rs| - 1].end)
    && forall o :: Covers(out, o) <==> Covers(rs, o) && (total > 0 ==> o < total)
  }

  lemma ClipStaysNormal(acc: seq<ByteRange>, seen: seq<ByteRange>, range: ByteRange, total: uint64)
    requires Normal(seen + [range]) && Normal(acc)
    requires acc != [] ==> seen != [] && acc[|acc| - 1].end <= seen[|seen| - 1].end
    ensures var out := Clipped(acc, range, total);
            Normal(out) && (out != [] ==> out[|out| - 1].end <= range.end)
  {
    var out := Clipped(acc, range, total);
    var all := seen + [range];
    assert seen != [] ==> all[|seen| - 1] == seen[|seen| - 1] && all[|seen|] == range;
    if out != acc {
      assert out == acc + [out[|acc|]];
      NormalConcat(acc, [out[|acc|]]);
    }
  }

  lemma ClipStep(acc: seq<ByteRange>, seen: seq<ByteRange>, range: ByteRange, total: uint64)
    requires Normal(seen + [range]) && ClipsTo(seen, acc, total)
    ensures ClipsTo(seen + [range], Clipped(acc, range, total), total)
  {
    var out := Clipped(acc, range, total);
    ClipStaysNormal(acc, seen, range, total);
    forall o
      ensures Covers(out, o) <==> Covers(seen + [range], o) && (total > 0 ==> o < total)
    {
      CoversSnoc(seen, range, o);
      if out != acc {
        CoversSnoc(acc, out[|acc|], o);
      }
    }
  }

  /** One step of coalescing: `next` is merged into the last range or appended. */
  function Coalesced(acc: seq<ByteRange>, next: ByteRange): seq<ByteRange>
    requires acc != [] && acc[|acc| - 1].end < MAX_U64
  {
    var current := acc[|acc| - 1];
    if next.start > current.end + 1 then acc + [next]
    else if next.end > current.end then acc[|acc| - 1 := ByteRange(current.start, next.end)]
    else acc
  }

  lemma CoalesceStep(acc: seq<ByteRange>, seen: seq<ByteRange>, next: ByteRange)
    requires Normal(acc) && acc != [] && next.start <= next.end < MAX_U64
    requires acc[|acc| - 1].start <= next.start
    requires forall o :: Covers(acc, o) <==> Covers(seen, o)
    ensures var out := Coalesced(acc, next);
            && Normal(out) && out[|out| - 1].start <= next.start
            && forall o :: Covers(out, o) <==> Covers(seen + [next], o)
  {
    var out := Coalesced(acc, next);
    var prefix := acc[..|acc| - 1];
    var current := acc[|acc| - 1];
    assert acc == prefix + [current];
    forall o
      ensures Covers(out, o) <==> Covers(seen + [next], o)
    {
      CoversSnoc(seen, next, o);
      CoversSnoc(prefix, current, o);
      CoversSnoc(acc, next, o);
      if next.start <= current.end + 1 {
        assert out == prefix + [out[|acc| - 1]];
        CoversSnoc(prefix, out[|acc| - 1], o);
      }
    }
  }

  function ClippedAll(rs: seq<ByteRange>, total: uint64): (out: seq<ByteRange>)
    ensures |out| <= |rs|
  {
    if rs == [] then [] else Clipped(ClippedAll(rs[..|rs| - 1], total), rs[|rs| - 1], total)
  }

  lemma ClippedAllStep(rs: seq<ByteRange>, read: nat, total: uint64)
    requires read < |rs|
    ensures ClippedAll(rs[..read + 1], total) == Clipped(ClippedAll(rs[..read], total), rs[read], total)
  {
    assert rs[..read + 1][..read] == rs[..read];
  }

  lemma {:induction false} ClippingIsIntersection(rs: seq<ByteRange>, total: uint64)
    requires Normal(rs)
    ensures ClipsTo(rs, ClippedAll(rs, total), total)
  {
    if rs != [] {
      var seen, range := rs[..|rs| - 1], rs[|rs| - 1];
      var acc := ClippedAll(seen, total);
      assert seen + [range] == rs;
      ClippingIsIntersection(seen, total);
      ClipStep(acc, seen, range, total);
      assert ClippedAll(rs, total) == Clipped(acc, range, total);
    }
  }

  function CoalescedAll(rs: seq<ByteRange>): (out: seq<ByteRange>)
    requires rs != [] && WellFormed(rs)
    ensures 1 <= |out| <= |rs| && out[|out| - 1].end < MAX_U64
  {
    if |rs| == 1 then rs else Coalesced(CoalescedAll(rs[..|rs| - 1]), rs[|rs| - 1])
  }

  function CoalescedTo(rs: seq<ByteRange>, k: nat): (out: seq<ByteRange>)
    requires 0 < k <= |rs| && WellFormed(rs)
    ensures out != [] && out[|out| - 1].end < MAX_U64
  {
    CoalescedAll(rs[..k])
  }

  lemma CoalescedAllStep(rs: seq<ByteRange>, read: nat)
    requires 0 < read < |rs| && WellFormed(rs)
    ensures CoalescedTo(rs, read + 1) == Coalesced(CoalescedTo(rs, read), rs[read])
  {
    assert rs[..read + 1][..read] == rs[..read];
  }

  ghost predicate SortedByStart(rs: seq<ByteRange>) {
    forall i, j | 0 <= i < j < |rs| :: rs[i].start <= rs[j].start
  }

  lemma SortedFront(rs: seq<ByteRange>)
    requires |rs| > 1 && WellFormed(rs) && SortedByStart(rs)
    ensures var front := rs[..|rs| - 1];
            WellFormed(front) && SortedByStart(front) && front[|front| - 1].start <= rs[|rs| - 1].start
  {
  }

  lemma {:induction false} CoalescingKeepsOffsets(rs: seq<ByteRange>)
    requires rs != [] && WellFormed(rs) && SortedByStart(rs)
    ensures var out := CoalescedAll(rs);
            && Normal(out) && out[|out| - 1].start <= rs[|rs| - 1].start
            && forall o :: Covers(out, o) <==> Covers(rs, o)
  {
    if |rs| > 1 {
      var seen, next := rs[..|rs| - 1], rs[|rs| - 1];
      var acc := CoalescedAll(seen);
      assert seen + [next] == rs;
      SortedFront(rs);
      CoalescingKeepsOffsets(seen);
      CoalesceStep(acc, seen, next);
      assert CoalescedAll(rs) == Coalesced(acc, next);
    }
  }

  lemma CoversSnoc(rs: seq<ByteRange>, r: ByteRange, o: int)
    ensures Covers(rs + [r], o) <==> Covers(rs, o) || r.start <= o <= r.end
  {
    CoversConcat(rs, [r], o);
    CoversCons([r], o);
  }

  class DownloadState {
    var totalSize: uint64
    var chunkSize: uint64
    var bytesDownloaded: uint64
    var ranges: array<ByteRange>
    var count: nat

    ghost predicate Valid()
      reads this, ranges
    {
      && count <= ranges.Length
      && Normal(ranges[..count])
      && Bounded(totalSize, chunkSize)
    }

    ghost function Ranges(): seq<ByteRange>
      reads this, ranges
      requires count <= ranges.Length
    {
      ranges[..count]
    }

    /** The done set. */
    ghost function Done(): set<int>
      reads this, ranges
      requires count <= ranges.Length
    {
      Offsets(ranges[..count])
    }

    constructor (totalSize: uint64, chunkSize: uint64)
      requires Bounded(totalSize, chunkSize)
      ensures Valid() && fresh(ranges) && Ranges() == [] && Done() == {}
      ensures this.totalSize == totalSize && this.chunkSize == SegmentSize(chunkSize)
      ensures bytesDownloaded == 0
    {
      this.totalSize := totalSize;
      this.chunkSize := SegmentSize(chunkSize);
      bytesDownloaded := 0;
      ranges := new ByteRange[0];
      count := 0;
    }

    method IsRangeDone(start: uint64, end: uint64) returns (done: bool)
      requires Valid()
      ensures done <==> RangeDone(Done(), start, end)
    {
      OffsetsAreCovered(Ranges());
      if start > end {
        return false;
      }
      ghost var gap := -1; // an offset of the query that is not covered, once one is known
      for i := 0 to count
        invariant gap < 0 ==> forall k | 0 <= k < i :: ranges[k].end < start
        invariant gap >= 0 ==> start <= gap <= end && !Covers(Ranges(), gap)
      {
        var range := ranges[i];
        if range.end < start {
          continue;
        }
        if range.start > start {
          assert gap < 0 ==> !Covers(Ranges(), start);
          return false;
        }
        if range.end >= end {
          assert Ranges()[i] == range;
          EnclosedIsCovered(Ranges(), i, start, end);
          return true;
        }
        if gap < 0 {
          gap := range.end + 1;
        }
      }
      assert gap < 0 ==> !Covers(Ranges(), start);
      return false;
    }

    /** realloc to at least `needed` elements: doubling, contents kept. */
    method EnsureRangeCapacity(needed: nat)
      requires Valid()
      modifies this`ranges
      ensures Valid() && Ranges() == old(Ranges()) && needed <= ranges.Length
      ensures ranges == old(ranges) || fresh(ranges)
    {
      if needed <= ranges.Length {
        return;
      }
      var capacity := if ranges.Length == 0 then 4 else ranges.Length * 2;
      while capacity < needed
        invariant capacity > 0
        decreases needed - capacity
      {
        capacity := capacity * 2;
      }
      var grown := new ByteRange[capacity];
      forall i | 0 <= i < count {
        grown[i] := ranges[i];
      }
      assert grown[..count] == ranges[..count];
      ranges := grown;
    }

    /** Insertion in front of the first range that does not start earlier. */
    method InsertSortedRange(range: ByteRange) returns (ghost at: nat)
      requires Valid()
      modifies this`ranges, this`count, ranges
      ensures count <= ranges.Length && (ranges == old(ranges) || fresh(ranges))
      ensures at <= |old(Ranges())| && Ranges() == Splice(old(Ranges()), at, at, range)
      ensures forall k | 0 <= k < at :: old(Ranges())[k].start < range.start
      ensures at < |old(Ranges())| ==> range.start <= old(Ranges())[at].start
    {
      ghost var before := Ranges();
      EnsureRangeCapacity(count + 1);
      var insertAt := 0;
      while insertAt < count && ranges[insertAt].start < range.start
        invariant insertAt <= count
        invariant forall k | 0 <= k < insertAt :: before[k].start < range.start
      {
        assert ranges[insertAt] == before[insertAt];
        insertAt := insertAt + 1;
      }
      at := insertAt;
      assert at < |before| ==> ranges[at] == before[at];
      ReplaceRanges(insertAt, insertAt, range);
    }

    /** memmove of the tail to its new place, then the new range in front of it. */
    method ReplaceRanges(lo: nat, hi: nat, merged: ByteRange)
      requires lo <= hi <= count <= ranges.Length
      requires lo == hi ==> count < ranges.Length
      modifies this`count, ranges
      ensures count <= ranges.Length
      ensures Ranges() == Splice(old(Ranges()), lo, hi, merged)
    {
      ghost var before := Ranges();
      MoveTail(ranges, lo + 1, hi, count);
      ghost var tail := ranges[lo + 1..lo + 1 + (count - hi)];
      ranges[lo] := merged;
      count := count + 1 - (hi - lo);
      assert ranges[..lo] == before[..lo] && ranges[lo + 1..count] == tail == before[hi..];
      assert ranges[..count] == ranges[..lo] + [ranges[lo]] + ranges[lo + 1..count];
    }

    /** memmove of the elements from `from` up to `end` to the place `to`. */
    static method MoveTail(a: array<ByteRange>, to: nat, from: nat, end: nat)
      requires from <= end <= a.Length && to <= a.Length && to + (end - from) <= a.Length
      modifies a
      ensures a[..to] == old(a[..to])
      ensures a[to..to + (end - from)] == old(a[from..end])
    {
      ghost var moved := a[from..end];
      forall j | 0 <= j < end - from {
        a[to + j] := a[from + j];
      }
      assert forall j | 0 <= j < end - from :: a[to + j] == moved[j];
    }

    /** Marking is set union with the clipped range, and the array stays in normal form. */
    method MarkRangeDone(start: uint64, end: uint64) returns (rc: int)
      requires Valid() && end < MAX_U64
      modifies this`ranges, this`count, ranges
      ensures Valid() && (ranges == old(ranges) || fresh(ranges))
      ensures rc == if start > end then -1 else 0
      ensures Done() == old(Done()) + if rc == 0 then Clip(Interval(start, end), totalSize) else {}
    {
      if start > end {
        return -1;
      }
      if totalSize > 0 && start >= totalSize {
        return 0;
      }
      var last: uint64 := if totalSize > 0 && end >= totalSize then totalSize - 1 else end;
      assert Clip(Interval(start, end), totalSize) == Interval(start, last);
      var already := IsRangeDone(start, last);
      if already {
        return 0;
      }
      ghost var before := Ranges();
      OffsetsAreCovered(before);
      MergeRange(start, last);
      SameOffsets(Ranges(), Offsets(before) + Interval(start, last));
      return 0;
    }

    /** The first scan of `download_state_mark_range_done`: past the ranges that end short of
        the new one. */
    method SkipBefore(start: uint64) returns (lo: nat)
      requires Valid()
      ensures lo <= count
      ensures forall k | 0 <= k < lo :: Ranges()[k].end + 1 < start
      ensures lo < count ==> Ranges()[lo].end + 1 >= start
    {
      lo := 0;
      while lo < count && ranges[lo].end + 1 < start
        invariant lo <= count
        invariant forall k | 0 <= k < lo :: ranges[k].end + 1 < start
      {
        lo := lo + 1;
      }
    }

    /** The two scans: which ranges touch the new one, and what they amount to together with
        it. */
    method FindMerge(start: uint64, end: uint64) returns (lo: nat, hi: nat, merged: ByteRange)
      requires Valid() && start <= end < MAX_U64
      ensures MergeAt(Ranges(), lo, hi, start, end, merged)
    {
      ghost var before := Ranges();
      lo := SkipBefore(start);
      merged := ByteRange(start, end);
      hi := lo;
      while hi < count && ranges[hi].start <= merged.end + 1
        invariant lo <= hi <= count
        invariant MergesSoFar(before, lo, hi, start, end, merged)
      {
        assert ranges[hi] == before[hi];
        MergesOneMore(before, lo, hi, start, end, merged);
        merged := Enclosing(merged, ranges[hi]);
        hi := hi + 1;
      }
    }

    /** The scans and the in-place splice. */
    method MergeRange(start: uint64, end: uint64)
      requires Valid() && start <= end < MAX_U64
      modifies this`ranges, this`count, ranges
      ensures Valid() && (ranges == old(ranges) || fresh(ranges))
      ensures forall o :: Covers(Ranges(), o) <==> Covers(old(Ranges()), o) || start <= o <= end
    {
      ghost var before := Ranges();
      var lo, hi, merged := FindMerge(start, end);
      SpliceIsNormal(before, lo, hi, start, end, merged);
      SpliceIsUnion(before, lo, hi, start, end, merged);
      if hi > lo {
        ReplaceRanges(lo, hi, merged);
      } else {
        ghost var at := InsertSortedRange(merged);
        assert at == lo;
      }
    }

    /** Merges neighbours in an array sorted by start, compacting in place. */
    method CoalesceDoneRanges()
      requires count <= ranges.Length && WellFormed(ranges[..count]) && SortedByStart(ranges[..count])
      modifies this`count, ranges
      ensures count <= ranges.Length && Normal(Ranges())
      ensures forall o :: Covers(Ranges(), o) <==> Covers(old(Ranges()), o)
    {
      if count <= 1 {
        return;
      }
      ghost var before := Ranges();
      CoalescingKeepsOffsets(before);
      CompactAdjacent();
    }

    static method MergeOrAppend(a: array<ByteRange>, write: nat, read: nat) returns (last: nat)
      requires write < read < a.Length && a[write].end < MAX_U64
      modifies a
      ensures write <= last <= read
      ensures a[..last + 1] == Coalesced(old(a[..write + 1]), old(a[read]))
      ensures forall k | read < k < a.Length :: a[k] == old(a[k])
    {
      var current, next := a[write], a[read];
      if next.start <= current.end + 1 {
        if next.end > current.end {
          a[write] := ByteRange(current.start, next.end);
        }
        return write;
      }
      a[write + 1] := next;
      assert a[..write + 2] == old(a[..write + 1]) + [next];
      return write + 1;
    }

    /** The loop body: the range at `read` joins those that are coalesced already. */
    static method MergeNext(a: array<ByteRange>, write: nat, read: nat, ghost before: seq<ByteRange>)
      returns (last: nat)
      requires write < read < |before| <= a.Length && WellFormed(before)
      requires a[read] == before[read] && a[..write + 1] == CoalescedTo(before, read)
      modifies a
      ensures write <= last <= read
      ensures a[..last + 1] == CoalescedTo(before, read + 1)
      ensures forall k | read < k < a.Length :: a[k] == old(a[k])
    {
      CoalescedAllStep(before, read);
      LastOfPrefix(a[..write + 1], a, write);
      last := MergeOrAppend(a, write, read);
    }

    method CompactAdjacent()
      requires 1 < count <= ranges.Length && WellFormed(ranges[..count])
      modifies this`count, ranges
      ensures count <= ranges.Length && Ranges() == CoalescedAll(old(Ranges()))
    {
      var a, n := ranges, count;
      ghost var before := a[..n];
      var write := 0;
      for read := 1 to n
        invariant 0 <= write < read
        invariant forall k | read <= k < n :: a[k] == before[k]
        invariant a[..write + 1] == CoalescedTo(before, read)
      {
        write := MergeNext(a, write, read, before);
      }
      assert before[..n] == before;
      count := write + 1;
    }

    static lemma LastOfPrefix(prefix: seq<ByteRange>, a: array<ByteRange>, write: nat)
      requires write < a.Length && prefix == a[..write + 1]
      ensures prefix[|prefix| - 1] == a[write]
    {
    }

    /** A size change keeps the old progress below the new size, and nothing else. */
    method ClipDoneRanges()
      requires Valid()
      modifies this`count, ranges
      ensures Valid()
      ensures Done() == Clip(old(Done()), totalSize)
    {
      if count == 0 {
        return;
      }
      ghost var before := Ranges();
      OffsetsAreCovered(before);
      ClippingIsIntersection(before, totalSize);
      CompactInside();
      CoalesceDoneRanges();
      SameOffsets(Ranges(), Clip(Offsets(before), totalSize));
    }

    method CompactInside()
      requires count <= ranges.Length && WellFormed(ranges[..count])
      modifies this`count, ranges
      ensures count <= ranges.Length && Ranges() == ClippedAll(old(Ranges()), totalSize)
    {
      var a, n := ranges, count;
      ghost var before := a[..n];
      var write := 0;
      for read := 0 to n
        invariant 0 <= write <= read
        invariant forall k | read <= k < n :: a[k] == before[k]
        invariant a[..write] == ClippedAll(before[..read], totalSize)
      {
        ClippedAllStep(before, read, totalSize);
        write := KeepInside(a, write, read, totalSize);
      }
      assert before[..n] == before;
      count := write;
    }

    /** The loop body: the range at `read` is clipped and moved to `write`, or dropped. */
    static method KeepInside(a: array<ByteRange>, write: nat, read: nat, total: uint64) returns (next: nat)
      requires write <= read < a.Length && a[read].start <= a[read].end
      modifies a
      ensures write <= next <= write + 1
      ensures a[..next] == Clipped(old(a[..write]), old(a[read]), total)
      ensures forall k | read < k < a.Length :: a[k] == old(a[k])
    {
      var range := a[read];
      if total > 0 {
        if range.start >= total {
          return write;
        }
        if range.end > total - 1 {
          range := ByteRange(range.start, total - 1);
        }
      }
      if range.start > range.end {
        assert false; // never on well-formed ranges
      }
      a[write] := range;
      assert a[..write + 1] == old(a[..write]) + [range];
      return write + 1;
    }

    /** Rebuilds the segment size for a known total, keeping the progress that still fits. */
    method InitChunks(total: uint64, chunk: uint64) returns (rc: int)
      requires Valid() && Bounded(total, chunk)
      modifies this`totalSize, this`chunkSize, this`count, ranges
      ensures Valid()
      ensures rc == if total == 0 then -1 else 0
      ensures total == 0 ==> Done() == old(Done()) && totalSize == old(totalSize) && chunkSize == old(chunkSize)
      ensures total > 0 ==>
                && totalSize == total && chunkSize == SegmentSize(chunk)
                && Done() == Clip(old(Done()), total)
    {
      if total == 0 {
        return -1;
      }
      totalSize := total;
      chunkSize := SegmentSize(chunk);
      ClipDoneRanges();
      return 0;
    }

    method CountSegments() returns (n: uint64)
      requires Valid()
      ensures n == SegmentCount(totalSize, chunkSize)
      ensures forall k: nat :: k < n <==> SegmentStart(chunkSize, k) < totalSize
    {
      if totalSize == 0 {
        return 0;
      }
      var rounded: uint64 := totalSize + SegmentSize(chunkSize) - 1;
      DivBounds(rounded, SegmentSize(chunkSize));
      forall k: nat
        ensures k < SegmentCount(totalSize, chunkSize) <==> SegmentStart(chunkSize, k) < totalSize
      {
        IndexInFile(totalSize, chunkSize, k);
      }
      QuotientBound(rounded, SegmentSize(chunkSize));
      return rounded / SegmentSize(chunkSize);
    }

    /** False for a segment past the last one. */
    method IsSegmentDone(index: uint64) returns (done: bool)
      requires Valid() && SegmentStart(chunkSize, index) + SegmentSize(chunkSize) < U64_LIMIT
      ensures done <==> index < SegmentCount(totalSize, chunkSize) && SegmentDone(Done(), totalSize, chunkSize, index)
    {
      IndexInFile(totalSize, chunkSize, index);
      if totalSize == 0 {
        return false;
      }
      var start: uint64 := SegmentStart(chunkSize, index);
      var end: uint64 := start + SegmentSize(chunkSize) - 1;
      if end >= totalSize {
        end := totalSize - 1;
      }
      done := IsRangeDone(start, end);
    }

    /** With at least one range the byte count is the size of the done set. */
    method BytesDone() returns (bytes: uint64)
      requires Valid()
      ensures count > 0 ==> bytes == |Done()|
      ensures count == 0 ==> bytes == bytesDownloaded
    {
      if count == 0 {
        return bytesDownloaded;
      }
      ghost var rs := Ranges();
      bytes := 0;
      for i := 0 to count
        invariant bytes == TotalLength(rs[..i])
      {
        assert rs[..i + 1] == rs[..i] + [rs[i]];
        TotalLengthAppend(rs[..i], rs[i]);
        TotalLengthBound(rs[..i + 1]);
        bytes := bytes + (ranges[i].end - ranges[i].start + 1);
      }
      assert rs[..count] == rs;
      LengthsCountOffsets(rs);
    }

    method AllChunksDone() returns (done: bool)
      requires Valid()
      ensures done <==> totalSize > 0 && forall o | 0 <= o < totalSize :: o in Done()
    {
      if totalSize == 0 {
        return false;
      }
      done := IsRangeDone(0, totalSize - 1);
    }

    /** The `doneRanges` array of state.json. */
    method SaveDoneRanges() returns (items: seq<JsonItem>)
      requires Valid()
      ensures items == SavedItems(Ranges())
    {
      items := [];
      for i := 0 to count
        invariant items == SavedItems(ranges[..i])
      {
        assert ranges[..i + 1] == ranges[..i] + [ranges[i]];
        SavedItemsAppend(ranges[..i], ranges[i]);
        items := items + [Pair(ranges[i].start, ranges[i].end)];
      }
    }

    /** Replays saved pairs; elements that are not pairs of numbers are skipped, a pair
        whose start exceeds its end makes the load fail. */
    method LoadDoneRanges(items: seq<JsonItem>) returns (rc: int)
      requires Valid() && PairsFit(items)
      modifies this`ranges, this`count, ranges
      ensures Valid() && (ranges == old(ranges) || fresh(ranges))
      ensures rc == 0 <==> PairsOrdered(items)
      ensures rc == 0 ==> Done() == old(Done()) + Clip(PairOffsets(items), totalSize)
    {
      for i := 0 to |items|
        invariant Valid() && (ranges == old(ranges) || fresh(ranges))
        invariant PairsOrdered(items[..i])
        invariant Done() == old(Done()) + Clip(PairOffsets(items[..i]), totalSize)
      {
        assert items[..i + 1] == items[..i] + [items[i]];
        PairOffsetsAppend(items[..i], items[i]);
        if items[i].Pair? {
          var code := MarkRangeDone(items[i].start, items[i].end);
          if code != 0 {
            return -1;
          }
        }
      }
      assert items[..|items|] == items;
      return 0;
    }

    /** The loop body of the legacy load: marks the segment `index`, which must start inside
        the file when the size is known. */
    method MarkLegacyChunk(index: nat) returns (rc: int)
      requires Valid() && SegmentStart(chunkSize, index + 1) < MAX_U64
      modifies this`ranges, this`count, ranges
      ensures Valid() && (ranges == old(ranges) || fresh(ranges))
      ensures rc == if totalSize > 0 ==> SegmentStart(chunkSize, index) < totalSize then 0 else -1
      ensures rc == 0 ==>
                Done() == old(Done())
                          + Interval(SegmentStart(chunkSize, index), SegmentEnd(totalSize, chunkSize, index))
    {
      NextSegmentStart(chunkSize, index);
      var start: uint64 := SegmentStart(chunkSize, index);
      var end: uint64 := start + SegmentSize(chunkSize) - 1;
      if totalSize > 0 && end >= totalSize {
        end := totalSize - 1;
      }
      assert start <= end ==> Clip(Interval(start, end), totalSize) == Interval(start, end);
      rc := MarkRangeDone(start, end);
    }

    /** The older format: one flag a segment. */
    method LoadLegacyChunks(flags: seq<bool>, chunkCount: nat) returns (rc: int)
      requires Valid() && |flags| * SegmentSize(chunkSize) < MAX_U64
      modifies this`ranges, this`count, ranges
      ensures Valid() && (ranges == old(ranges) || fresh(ranges))
      ensures rc == 0 <==> LegacyFits(flags, chunkCount, totalSize, chunkSize)
      ensures rc == 0 ==>
                Done() == old(Done()) + LegacyOffsets(flags, LegacyLimit(flags, chunkCount), totalSize, chunkSize)
    {
      var limit := LegacyLimit(flags, chunkCount);
      for i := 0 to limit
        invariant Valid() && (ranges == old(ranges) || fresh(ranges))
        invariant LegacyFits(flags, i, totalSize, chunkSize)
        invariant Done() == old(Done()) + LegacyOffsets(flags, i, totalSize, chunkSize)
      {
        LegacyOneMore(flags, i, totalSize, chunkSize);
        if flags[i] {
          MulMonotone(i + 1, |flags|, SegmentSize(chunkSize));
          var code := MarkLegacyChunk(i);
          if code != 0 {
            return -1;
          }
        }
      }
      return 0;
    }
  }

  lemma QuotientBound(x: nat, c: nat)
    requires c > 0
    ensures x / c <= x
  {
    DivBounds(x, c);
    if x / c > x {
      MulMonotone(1, c, x / c);
    }
  }

  // -------- persisted progress --------

  function SavedItems(rs: seq<ByteRange>): (items: seq<JsonItem>)
  {
    if rs == [] then [] else [Pair(rs[0].start, rs[0].end)] + SavedItems(rs[1..])
  }

  lemma {:induction false} SavedItemsAppend(rs: seq<ByteRange>, r: ByteRange)
    ensures SavedItems(rs + [r]) == SavedItems(rs) + [Pair(r.start, r.end)]
  {
    if rs == [] {
      assert rs + [r] == [r];
    } else {
      assert (rs + [r])[1..] == rs[1..] + [r];
      SavedItemsAppend(rs[1..], r);
    }
  }

  predicate PairsFit(items: seq<JsonItem>) {
    forall i | 0 <= i < |items| && items[i].Pair? :: items[i].end < MAX_U64
  }

  predicate PairsOrdered(items: seq<JsonItem>) {
    forall i | 0 <= i < |items| && items[i].Pair? :: items[i].start <= items[i].end
  }

  /** The offsets the saved pairs stand for. */
  function PairOffsets(items: seq<JsonItem>): set<int> {
    if items == [] then {}
    else (if items[0].Pair? then Interval(items[0].start, items[0].end) else {}) + PairOffsets(items[1..])
  }

  lemma {:induction false} PairOffsetsAppend(items: seq<JsonItem>, item: JsonItem)
    ensures PairOffsets(items + [item])
         == PairOffsets(items) + if item.Pair? then Interval(item.start, item.end) else {}
  {
    if items == [] {
      assert items + [item] == [item];
    } else {
      assert (items + [item])[1..] == items[1..] + [item];
      PairOffsetsAppend(items[1..], item);
    }
  }

  lemma {:induction false} SavedItemsStandForRanges(rs: seq<ByteRange>)
    requires WellFormed(rs)
    ensures PairOffsets(SavedItems(rs)) == Offsets(rs)
    ensures PairsFit(SavedItems(rs)) && PairsOrdered(SavedItems(rs))
  {
    if rs != [] {
      SavedItemsStandForRanges(rs[1..]);
      assert SavedItems(rs)[1..] == SavedItems(rs[1..]);
    }
  }

  /** Saving and loading again gives back the identical array: whatever normal array the
      replay of the saved pairs produced, it is the one that was saved. */
  lemma SavedProgressRoundTrips(saved: seq<ByteRange>, loaded: seq<ByteRange>, total: nat)
    requires Normal(saved) && Normal(loaded)
    requires Clip(Offsets(saved), total) == Offsets(saved)
    requires Offsets(loaded) == Clip(PairOffsets(SavedItems(saved)), total)
    ensures PairsOrdered(SavedItems(saved))
    ensures loaded == saved
  {
    SavedItemsStandForRanges(saved);
    OffsetsAreCovered(saved);
    OffsetsAreCovered(loaded);
    assert Offsets(loaded) == Offsets(saved);
    NormalFormIsUnique(saved, loaded);
  }

  /** What the next session makes of the record: the ranges are saved, replayed into a new
      state of the same size, and clipped. Progress inside the file comes back as it was. */
  method SaveAndLoad(state: DownloadState) returns (loaded: DownloadState)
    requires state.Valid()
    ensures fresh(loaded) && loaded.Valid() && loaded.totalSize == state.totalSize
    ensures loaded.Done() == Clip(state.Done(), state.totalSize)
    ensures Clip(state.Done(), state.totalSize) == state.Done() ==> loaded.Ranges() == state.Ranges()
  {
    ghost var saved, total := state.Ranges(), state.totalSize;
    var items := state.SaveDoneRanges();
    SavedItemsStandForRanges(saved);
    loaded := new DownloadState(state.totalSize, state.chunkSize);
    var rc := loaded.LoadDoneRanges(items);
    assert {} + Clip(Offsets(saved), total) == Clip(Offsets(saved), total);
    ClipTwice(Offsets(saved), total);
    loaded.ClipDoneRanges();
    if Clip(Offsets(saved), total) == Offsets(saved) {
      SavedProgressRoundTrips(saved, loaded.Ranges(), total);
    }
  }

  lemma ClipTwice(done: set<int>, total: nat)
    ensures Clip(Clip(done, total), total) == Clip(done, total)
  {
  }

  function LegacyLimit(flags: seq<bool>, chunkCount: nat): nat {
    if |flags| < chunkCount then |flags| else chunkCount
  }

  /** No flag is set for a segment that starts past the end of the file. */
  ghost predicate LegacyFits(flags: seq<bool>, chunkCount: nat, total: nat, chunkSize: nat) {
    forall k: nat | k < LegacyLimit(flags, chunkCount) && flags[k] ::
      total > 0 ==> SegmentStart(chunkSize, k) < total
  }

  function LegacyOffsets(flags: seq<bool>, limit: nat, total: nat, chunkSize: nat): set<int>
    requires limit <= |flags|
  {
    if limit == 0 then {}
    else LegacyOffsets(flags, limit - 1, total, chunkSize)
         + if flags[limit - 1]
           then Interval(SegmentStart(chunkSize, limit - 1), SegmentEnd(total, chunkSize, limit - 1))
           else {}
  }

  lemma LegacyOneMore(flags: seq<bool>, i: nat, total: nat, chunkSize: nat)
    requires i < |flags|
    ensures LegacyOffsets(flags, i + 1, total, chunkSize)
         == LegacyOffsets(flags, i, total, chunkSize)
            + if flags[i] then Interval(SegmentStart(chunkSize, i), SegmentEnd(total, chunkSize, i)) else {}
    ensures LegacyFits(flags, i + 1, total, chunkSize)
            <==> LegacyFits(flags, i, total, chunkSize)
                 && (flags[i] && total > 0 ==> SegmentStart(chunkSize, i) < total)
  {
  }

  lemma {:induction false} LegacyOffsetsMembers(flags: seq<bool>, limit: nat, total: nat, chunkSize: nat, o: int)
    requires limit <= |flags|
    ensures o in LegacyOffsets(flags, limit, total, chunkSize)
        <==> exists k: nat :: k < limit && flags[k]
                              && SegmentStart(chunkSize, k) <= o <= SegmentEnd(total, chunkSize, k)
  {
    if limit > 0 {
      LegacyOffsetsMembers(flags, limit - 1, total, chunkSize, o);
    }
  }

  /** A loaded flag array marks exactly the flagged segments. */
  lemma LegacyFlagsAreSegments(flags: seq<bool>, chunkCount: nat, total: nat, chunkSize: nat, index: nat)
    requires LegacyFits(flags, chunkCount, total, chunkSize)
    requires index < SegmentCount(total, chunkSize)
    ensures var done := LegacyOffsets(flags, LegacyLimit(flags, chunkCount), total, chunkSize);
            SegmentDone(done, total, chunkSize, index)
            <==> index < LegacyLimit(flags, chunkCount) && flags[index]
  {
    var limit := LegacyLimit(flags, chunkCount);
    var done := LegacyOffsets(flags, limit, total, chunkSize);
    SegmentShape(total, chunkSize, index);
    forall o | SegmentStart(chunkSize, index) <= o <= SegmentEnd(total, chunkSize, index)
      ensures o in done <==> index < limit && flags[index]
    {
      LegacyOffsetsMembers(flags, limit, total, chunkSize, o);
      forall k: nat | k < limit && SegmentStart(chunkSize, k) <= o <= SegmentEnd(total, chunkSize, k)
        ensures k == index
      {
        if k < index {
          SegmentsAreDisjoint(total, chunkSize, k, index);
        } else if index < k {
          SegmentsAreDisjoint(total, chunkSize, index, k);
        }
      }
    }
    assert SegmentStart(chunkSize, index) in done <==> index < limit && flags[index];
  }

  /** A stored chunk count that goes with the size does no harm. */
  lemma CountedFlagsFit(flags: seq<bool>, chunkCount: nat, total: nat, chunkSize: nat)
    requires chunkCount <= SegmentCount(total, chunkSize)
    ensures LegacyFits(flags, chunkCount, total, chunkSize)
  {
    forall k: nat | k < LegacyLimit(flags, chunkCount) && flags[k] && total > 0
      ensures SegmentStart(chunkSize, k) < total
    {
      IndexInFile(total, chunkSize, k);
    }
  }

  /** Two flags for a file of one byte in segments of one: the second flag makes the load fail,
      and all the progress is gone with it. */
  lemma FlagPastTheEndFails()
    ensures !LegacyFits([true, true], 2, 1, 1)
  {
    assert [true, true][1] && SegmentStart(1, 1) == 1;
  }
}
