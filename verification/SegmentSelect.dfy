/** The segment selectors of src/download_segment.c. Both fill an output array with
    segments that are not done and satisfy the caller's predicate; the contracts say how
    many they find, that they are distinct, and which ones each strategy prefers. */
module SegmentSelect {
  import opened Machine
  import opened ByteRanges
  import opened Segments
  import opened DownloadStates

  datatype Strategy = Balanced | LeftHeavy

  /** What the selectors read: the done set, the sizes and the caller's predicate. */
  datatype Query = Query(done: set<int>, total: nat, chunkSize: nat, accepts: (int, int) -> bool)
  {
    ghost predicate Eligible(k: nat) {
      && k < SegmentCount(total, chunkSize)
      && !SegmentDone(done, total, chunkSize, k)
      && accepts(SegmentStart(chunkSize, k), SegmentEnd(total, chunkSize, k))
    }

    ghost function Candidates(): set<nat> {
      set k: nat | k < SegmentCount(total, chunkSize) && Eligible(k)
    }
  }

  /** `sel` lists distinct candidates, as many as asked for or all there are. */
  ghost predicate Selects(q: Query, max: nat, sel: seq<nat>) {
    && Distinct(sel)
    && (forall j | 0 <= j < |sel| :: q.Eligible(sel[j]))
    && |sel| == if max < |q.Candidates()| then max else |q.Candidates()|
  }

  ghost predicate Distinct(sel: seq<nat>) {
    forall i, j | 0 <= i < j < |sel| :: sel[i] != sel[j]
  }

  ghost predicate Writes(q: Query, sel: seq<nat>, out: seq<ByteRange>) {
    && |out| == |sel|
    && forall j | 0 <= j < |sel| ::
         out[j].start == SegmentStart(q.chunkSize, sel[j]) && out[j].end == SegmentEnd(q.total, q.chunkSize, sel[j])
  }

  function ToSet(sel: seq<nat>): set<nat> {
    set k | k in sel
  }

  lemma {:induction false} DistinctSize(sel: seq<nat>)
    requires Distinct(sel)
    ensures |ToSet(sel)| == |sel|
  {
    if sel != [] {
      var front := sel[..|sel| - 1];
      DistinctSize(front);
      assert sel == front + [sel[|sel| - 1]];
      assert ToSet(sel) == ToSet(front) + {sel[|sel| - 1]};
    }
  }

  /** Counting argument shared by both selectors: a list of distinct candidates that is
      full, or that misses none, has exactly the right length. */
  lemma SelectionIsComplete(q: Query, max: nat, sel: seq<nat>)
    requires Distinct(sel) && |sel| <= max
    requires forall j | 0 <= j < |sel| :: q.Eligible(sel[j])
    requires |sel| == max || forall k: nat | q.Eligible(k) :: k in sel
    ensures Selects(q, max, sel)
  {
    DistinctSize(sel);
    assert ToSet(sel) <= q.Candidates();
    CardinalityMonotone(ToSet(sel), q.Candidates());
    if |sel| < max {
      assert ToSet(sel) == q.Candidates();
    }
  }

  lemma CardinalityMonotone(xs: set<nat>, ys: set<nat>)
    requires xs <= ys
    ensures |xs| <= |ys|
    ensures |xs| == |ys| ==> xs == ys
  {
    var rest := ys - xs;
    assert ys == xs + rest;
  }

  /** When the request covers every candidate, any selection is all of them; so the two
      strategies agree as sets. */
  lemma LargeRequestsSelectEverything(q: Query, max: nat, sel: seq<nat>)
    requires Selects(q, max, sel)
    requires |q.Candidates()| <= max
    ensures ToSet(sel) == q.Candidates()
  {
    DistinctSize(sel);
    assert ToSet(sel) <= q.Candidates();
    CardinalityMonotone(ToSet(sel), q.Candidates());
  }

  /** A job that is not complete always has a segment that is not done. */
  lemma UnfinishedHasCandidate(q: Query)
    requires q.total > 0 && !RangeDone(q.done, 0, q.total - 1)
    requires forall s, e :: q.accepts(s, e)
    ensures q.Candidates() != {}
  {
    var k := UnfinishedSegment(q.done, q.total, q.chunkSize);
    assert q.accepts(SegmentStart(q.chunkSize, k), SegmentEnd(q.total, q.chunkSize, k));
    assert k in q.Candidates();
  }

  /** Segments selected together never overlap. */
  lemma SelectedSegmentsAreDisjoint(q: Query, max: nat, sel: seq<nat>, i: nat, j: nat)
    requires Selects(q, max, sel) && i < j < |sel|
    ensures !RangesOverlap(SegmentStart(q.chunkSize, sel[i]), SegmentEnd(q.total, q.chunkSize, sel[i]),
                           SegmentStart(q.chunkSize, sel[j]), SegmentEnd(q.total, q.chunkSize, sel[j]))
  {
    if sel[i] < sel[j] {
      SegmentsAreDisjoint(q.total, q.chunkSize, sel[i], sel[j]);
    } else {
      SegmentsAreDisjoint(q.total, q.chunkSize, sel[j], sel[i]);
    }
  }

  // -------- what the two strategies select --------

  /** A pass from the left over the first `k` segments: eligible ones are added until `max`. */
  ghost function FillTo(q: Query, max: nat, chosen: seq<nat>, k: nat): seq<nat> {
    if k == 0 then chosen
    else
      var sel := FillTo(q, max, chosen, k - 1);
      if |sel| < max && q.Eligible(k - 1) && k - 1 !in sel then sel + [k - 1] else sel
  }

  ghost function FirstEligible(q: Query, from: nat, to: nat): (first: Option<nat>)
    decreases if from < to then to - from else 0
  {
    if from >= to then None else if q.Eligible(from) then Some(from) else FirstEligible(q, from + 1, to)
  }

  lemma {:induction false} FirstEligibleIsFirst(q: Query, from: nat, to: nat)
    ensures var first := FirstEligible(q, from, to);
            && (first.Some? ==> from <= first.value < to && q.Eligible(first.value))
            && (forall l: nat | from <= l < (if first.Some? then first.value else to) :: !q.Eligible(l))
    decreases if from < to then to - from else 0
  {
    if from < to && !q.Eligible(from) {
      FirstEligibleIsFirst(q, from + 1, to);
    }
  }

  function BucketCount(concurrency: nat, n: nat): nat {
    if concurrency < n then concurrency else n
  }

  function BucketSize(concurrency: nat, n: nat): nat
    requires concurrency > 0 && n > 0
  {
    (n + BucketCount(concurrency, n) - 1) / BucketCount(concurrency, n)
  }

  /** The product of bucket index and bucket size. */
  function BucketStart(size: nat, bucket: nat): nat {
    if bucket == 0 then 0 else BucketStart(size, bucket - 1) + size
  }

  lemma {:induction false} BucketStartIsProduct(size: nat, bucket: nat)
    ensures BucketStart(size, bucket) == bucket * size
  {
    if bucket > 0 {
      BucketStartIsProduct(size, bucket - 1);
      assert bucket * size == (bucket - 1) * size + size;
    }
  }

  /** The buckets cover all `n` segments, and their bounds stay below twice that number. */
  lemma BucketsCover(concurrency: nat, n: nat)
    requires concurrency > 0 && n > 0
    ensures var count, size := BucketCount(concurrency, n), BucketSize(concurrency, n);
            n <= BucketStart(size, count) < n + count
  {
    var count := BucketCount(concurrency, n);
    DivBounds(n + count - 1, count);
    BucketStartIsProduct(BucketSize(concurrency, n), count);
    assert BucketSize(concurrency, n) * count == count * BucketSize(concurrency, n);
  }

  lemma {:induction false} BucketBelow(size: nat, a: nat, b: nat)
    requires a <= b
    ensures BucketStart(size, a) <= BucketStart(size, b)
    decreases b
  {
    if a < b {
      BucketBelow(size, a, b - 1);
    }
  }

  ghost predicate FirstOfBucket(q: Query, size: nat, bucket: nat, k: nat) {
    && BucketStart(size, bucket) <= k < BucketStart(size, bucket + 1)
    && q.Eligible(k)
    && forall l: nat | BucketStart(size, bucket) <= l < k :: !q.Eligible(l)
  }

  /** Every one of the first `buckets` buckets that has a candidate contributes its first one. */
  ghost predicate ServesBuckets(q: Query, size: nat, buckets: nat, sel: seq<nat>) {
    forall b: nat, k: nat | b < buckets && FirstOfBucket(q, size, b, k) :: k in sel
  }

  ghost predicate Picked(q: Query, below: nat, sel: seq<nat>) {
    && Distinct(sel)
    && forall j | 0 <= j < |sel| :: sel[j] < below && q.Eligible(sel[j])
  }

  function BucketEnd(size: nat, n: nat, bucket: nat): nat {
    if BucketStart(size, bucket + 1) < n then BucketStart(size, bucket + 1) else n
  }

  /** A pass over the first `buckets` buckets: the first eligible segment of each, until `max`. */
  ghost function VisitTo(q: Query, size: nat, n: nat, max: nat, buckets: nat): seq<nat> {
    if buckets == 0 then []
    else
      var sel := VisitTo(q, size, n, max, buckets - 1);
      var first := FirstEligible(q, BucketStart(size, buckets - 1), BucketEnd(size, n, buckets - 1));
      if |sel| < max && first.Some? then sel + [first.value] else sel
  }

  /** The segments that a strategy hands out, in this order. */
  ghost function Selected(strategy: Strategy, concurrency: nat, q: Query, max: nat): seq<nat> {
    var n := SegmentCount(q.total, q.chunkSize);
    match strategy
    case LeftHeavy => FillTo(q, max, [], n)
    case Balanced =>
      if n == 0 || concurrency == 0 then []
      else FillTo(q, max, VisitTo(q, BucketSize(concurrency, n), n, max, BucketCount(concurrency, n)), n)
  }

  // -------- why that is the right selection --------

  /** Left-heavy preference: nothing eligible is skipped to the left of a selected segment. */
  ghost predicate TakesLeftmost(q: Query, sel: seq<nat>) {
    && (forall i, j | 0 <= i < j < |sel| :: sel[i] < sel[j])
    && (forall j, k: nat | 0 <= j < |sel| && k < sel[j] && q.Eligible(k) :: k in sel)
  }

  lemma {:induction false} FillPicks(q: Query, max: nat, chosen: seq<nat>, k: nat)
    requires var n := SegmentCount(q.total, q.chunkSize); Picked(q, n, chosen) && k <= n
    requires |chosen| <= max
    ensures var sel := FillTo(q, max, chosen, k);
            && Picked(q, SegmentCount(q.total, q.chunkSize), sel) && chosen <= sel && |sel| <= max
            && (|sel| < max ==> forall j: nat | j < k && q.Eligible(j) :: j in sel)
  {
    if k > 0 {
      FillPicks(q, max, chosen, k - 1);
    }
  }

  lemma {:induction false} FillTakesLeftmost(q: Query, max: nat, k: nat)
    ensures var sel := FillTo(q, max, [], k);
            && TakesLeftmost(q, sel) && (forall j | 0 <= j < |sel| :: sel[j] < k)
            && (|sel| < max ==> forall j: nat | j < k && q.Eligible(j) :: j in sel)
  {
    if k > 0 {
      FillTakesLeftmost(q, max, k - 1);
    }
  }

  /** Serving one more bucket: its first candidate, if any, is appended to the selection. */
  lemma ServeBucket(q: Query, n: nat, size: nat, bucket: nat, sel: seq<nat>)
    requires n == SegmentCount(q.total, q.chunkSize) && ServesBuckets(q, size, bucket, sel)
    ensures var first := FirstEligible(q, BucketStart(size, bucket), BucketEnd(size, n, bucket));
            ServesBuckets(q, size, bucket + 1, if first.Some? then sel + [first.value] else sel)
  {
    var first := FirstEligible(q, BucketStart(size, bucket), BucketEnd(size, n, bucket));
    FirstEligibleIsFirst(q, BucketStart(size, bucket), BucketEnd(size, n, bucket));
    var next := if first.Some? then sel + [first.value] else sel;
    assert forall k | k in sel :: k in next;
    forall b: nat, k: nat | b < bucket + 1 && FirstOfBucket(q, size, b, k)
      ensures k in next
    {
      if b == bucket && first.Some? {
        assert k == first.value == next[|sel|];
      }
    }
  }

  lemma {:induction false} VisitPicks(q: Query, size: nat, n: nat, max: nat, buckets: nat)
    requires n == SegmentCount(q.total, q.chunkSize)
    ensures var sel := VisitTo(q, size, n, max, buckets);
            && Picked(q, BucketStart(size, buckets), sel) && Picked(q, n, sel)
            && |sel| <= buckets && |sel| <= max
  {
    if buckets > 0 {
      VisitPicks(q, size, n, max, buckets - 1);
      BucketBelow(size, buckets - 1, buckets);
      FirstEligibleIsFirst(q, BucketStart(size, buckets - 1), BucketEnd(size, n, buckets - 1));
    }
  }

  lemma {:induction false} VisitSize(q: Query, size: nat, n: nat, max: nat, buckets: nat)
    ensures |VisitTo(q, size, n, max, buckets)| <= buckets
  {
    if buckets > 0 {
      VisitSize(q, size, n, max, buckets - 1);
    }
  }

  lemma VisitNext(q: Query, size: nat, n: nat, max: nat, bucket: nat)
    ensures var sel := VisitTo(q, size, n, max, bucket);
            var first := FirstEligible(q, BucketStart(size, bucket), BucketEnd(size, n, bucket));
            |sel| < max ==> VisitTo(q, size, n, max, bucket + 1) == if first.Some? then sel + [first.value] else sel
  {
  }

  lemma {:induction false} VisitServes(q: Query, size: nat, n: nat, max: nat, buckets: nat)
    requires n == SegmentCount(q.total, q.chunkSize) && buckets <= max
    ensures ServesBuckets(q, size, buckets, VisitTo(q, size, n, max, buckets))
  {
    if buckets > 0 {
      VisitSize(q, size, n, max, buckets - 1);
      VisitServes(q, size, n, max, buckets - 1);
      VisitNext(q, size, n, max, buckets - 1);
      ServeBucket(q, n, size, buckets - 1, VisitTo(q, size, n, max, buckets - 1));
    }
  }

  /** Both strategies find distinct eligible segments, as many as asked for or all there are;
      left-heavy takes the leftmost ones, and balanced serves every bucket that it may. */
  lemma SelectedIsRight(strategy: Strategy, concurrency: nat, q: Query, max: nat)
    requires concurrency > 0
    ensures var n, sel := SegmentCount(q.total, q.chunkSize), Selected(strategy, concurrency, q, max);
            && Selects(q, max, sel)
            && (strategy == LeftHeavy ==> TakesLeftmost(q, sel))
            && (strategy == Balanced && n > 0 && BucketCount(concurrency, n) <= max ==>
                  ServesBuckets(q, BucketSize(concurrency, n), BucketCount(concurrency, n), sel))
  {
    var n, sel := SegmentCount(q.total, q.chunkSize), Selected(strategy, concurrency, q, max);
    if n > 0 {
      var size, count := BucketSize(concurrency, n), BucketCount(concurrency, n);
      VisitPicks(q, size, n, max, count);
      if count <= max {
        VisitServes(q, size, n, max, count);
      }
      FillPicks(q, max, [], n);
      FillPicks(q, max, VisitTo(q, size, n, max, count), n);
      FillTakesLeftmost(q, max, n);
      PrefixMembers(VisitTo(q, size, n, max, count), FillTo(q, max, VisitTo(q, size, n, max, count), n));
    }
    SelectionIsComplete(q, max, sel);
  }

  // -------- which ones the balanced strategy takes, however many are asked for --------

  ghost predicate Ascending(sel: seq<nat>, from: nat) {
    forall i, j | from <= i < j < |sel| :: sel[i] < sel[j]
  }

  ghost predicate IsFirst(q: Query, size: nat, buckets: nat, k: nat) {
    exists b: nat :: b < buckets && FirstOfBucket(q, size, b, k)
  }

  /** `part` lists the first candidates of some buckets from the left, leaving no bucket out. */
  ghost predicate FirstsInOrder(q: Query, size: nat, buckets: nat, part: seq<nat>) {
    && Ascending(part, 0)
    && (forall j | 0 <= j < |part| :: IsFirst(q, size, buckets, part[j]))
    && (forall j, k: nat | 0 <= j < |part| && k < part[j] && IsFirst(q, size, buckets, k) :: k in part)
  }

  /** Behind its first `from` members `sel` goes on with the leftmost candidates left over. */
  ghost predicate FillsUp(q: Query, sel: seq<nat>, from: nat) {
    && Ascending(sel, from)
    && (forall j, k: nat | from <= j < |sel| && k < sel[j] && q.Eligible(k) :: k in sel)
  }

  lemma FirstIsUnique(q: Query, size: nat, b: nat, k: nat, l: nat)
    requires FirstOfBucket(q, size, b, k) && FirstOfBucket(q, size, b, l)
    ensures k == l
  {
  }

  /** The bucket that `VisitTo` has just looked at contributes its first candidate. */
  lemma VisitedFirst(q: Query, size: nat, n: nat, bucket: nat)
    requires n == SegmentCount(q.total, q.chunkSize)
    ensures var first := FirstEligible(q, BucketStart(size, bucket), BucketEnd(size, n, bucket));
            && (first.Some? ==> FirstOfBucket(q, size, bucket, first.value))
            && (forall k: nat | FirstOfBucket(q, size, bucket, k) :: first == Some(k))
  {
    FirstEligibleIsFirst(q, BucketStart(size, bucket), BucketEnd(size, n, bucket));
  }

  lemma FirstOfOneMore(q: Query, size: nat, buckets: nat, k: nat)
    ensures IsFirst(q, size, buckets + 1, k) <==> IsFirst(q, size, buckets, k) || FirstOfBucket(q, size, buckets, k)
  {
  }

  /** Another bucket starts behind all that has been taken, so nothing is left out before it. */
  lemma FirstsStay(q: Query, size: nat, bucket: nat, sel: seq<nat>)
    requires FirstsInOrder(q, size, bucket, sel)
    requires forall j | 0 <= j < |sel| :: sel[j] < BucketStart(size, bucket)
    ensures FirstsInOrder(q, size, bucket + 1, sel)
  {
    forall j | 0 <= j < |sel|
      ensures IsFirst(q, size, bucket + 1, sel[j])
    {
      FirstOfOneMore(q, size, bucket, sel[j]);
    }
    forall j, k: nat | 0 <= j < |sel| && k < sel[j] && IsFirst(q, size, bucket + 1, k)
      ensures k in sel
    {
      FirstOfOneMore(q, size, bucket, k);
    }
  }

  lemma FirstsExtend(q: Query, size: nat, bucket: nat, sel: seq<nat>, first: nat)
    requires FirstsInOrder(q, size, bucket, sel) && FirstOfBucket(q, size, bucket, first)
    requires forall j | 0 <= j < |sel| :: sel[j] < BucketStart(size, bucket)
    requires forall k: nat | IsFirst(q, size, bucket, k) :: k in sel
    ensures FirstsInOrder(q, size, bucket + 1, sel + [first])
  {
    var longer := sel + [first];
    FirstsStay(q, size, bucket, sel);
    FirstOfOneMore(q, size, bucket, first);
    forall j, k: nat | 0 <= j < |longer| && k < longer[j] && IsFirst(q, size, bucket + 1, k)
      ensures k in longer
    {
      FirstOfOneMore(q, size, bucket, k);
      if FirstOfBucket(q, size, bucket, k) {
        FirstIsUnique(q, size, bucket, k, first);
        assert longer[|sel|] == first;
      } else {
        assert k in sel;
      }
    }
  }

  /** A visit to one more bucket, by what its predecessor has selected. */
  lemma VisitsOneMore(q: Query, size: nat, n: nat, max: nat, bucket: nat, sel: seq<nat>, now: seq<nat>)
    requires n == SegmentCount(q.total, q.chunkSize)
    requires sel == VisitTo(q, size, n, max, bucket) && now == VisitTo(q, size, n, max, bucket + 1)
    ensures if |sel| < max && exists k: nat :: FirstOfBucket(q, size, bucket, k)
            then |now| == |sel| + 1 && now == sel + [now[|sel|]] && FirstOfBucket(q, size, bucket, now[|sel|])
            else now == sel
  {
    VisitedFirst(q, size, n, bucket);
  }

  /** The firsts so far are in order, and none is missing as long as more are wanted. */
  ghost predicate VisitedRightly(q: Query, size: nat, max: nat, buckets: nat, sel: seq<nat>) {
    && FirstsInOrder(q, size, buckets, sel)
    && (|sel| < max ==> forall k: nat | IsFirst(q, size, buckets, k) :: k in sel)
  }

  lemma VisitOneMoreRightly(q: Query, size: nat, n: nat, max: nat, bucket: nat, sel: seq<nat>, now: seq<nat>)
    requires n == SegmentCount(q.total, q.chunkSize)
    requires sel == VisitTo(q, size, n, max, bucket) && now == VisitTo(q, size, n, max, bucket + 1)
    requires VisitedRightly(q, size, max, bucket, sel)
    ensures VisitedRightly(q, size, max, bucket + 1, now)
  {
    VisitPicks(q, size, n, max, bucket);
    VisitsOneMore(q, size, n, max, bucket, sel, now);
    if |now| > |sel| {
      FirstsExtend(q, size, bucket, sel, now[|sel|]);
    } else {
      FirstsStay(q, size, bucket, sel);
    }
    if |now| < max {
      AllFirstsVisited(q, size, bucket, sel, now);
    }
  }

  lemma {:induction false} VisitInOrder(q: Query, size: nat, n: nat, max: nat, buckets: nat)
    requires n == SegmentCount(q.total, q.chunkSize)
    ensures VisitedRightly(q, size, max, buckets, VisitTo(q, size, n, max, buckets))
  {
    if buckets > 0 {
      VisitInOrder(q, size, n, max, buckets - 1);
      VisitOneMoreRightly(q, size, n, max, buckets - 1, VisitTo(q, size, n, max, buckets - 1),
                          VisitTo(q, size, n, max, buckets));
    }
  }

  lemma AllFirstsVisited(q: Query, size: nat, bucket: nat, sel: seq<nat>, now: seq<nat>)
    requires forall k: nat | IsFirst(q, size, bucket, k) :: k in sel
    requires if exists k: nat :: FirstOfBucket(q, size, bucket, k)
             then |now| == |sel| + 1 && now == sel + [now[|sel|]] && FirstOfBucket(q, size, bucket, now[|sel|])
             else now == sel
    ensures forall k: nat | IsFirst(q, size, bucket + 1, k) :: k in now
  {
    forall k: nat | IsFirst(q, size, bucket + 1, k)
      ensures k in now
    {
      FirstOfOneMore(q, size, bucket, k);
      if FirstOfBucket(q, size, bucket, k) {
        FirstIsUnique(q, size, bucket, k, now[|sel|]);
      }
    }
  }

  lemma {:induction false} FillsUpBehind(q: Query, max: nat, chosen: seq<nat>, k: nat)
    requires var n := SegmentCount(q.total, q.chunkSize); Picked(q, n, chosen) && k <= n
    requires |chosen| <= max
    ensures var sel := FillTo(q, max, chosen, k);
            && chosen <= sel && FillsUp(q, sel, |chosen|)
            && forall j | |chosen| <= j < |sel| :: sel[j] < k
  {
    if k > 0 {
      FillsUpBehind(q, max, chosen, k - 1);
      FillPicks(q, max, chosen, k - 1);
    }
  }

  lemma CoverIsUnique(n: nat, count: nat, a: nat, b: nat)
    requires n <= a * count < n + count && n <= b * count < n + count
    ensures a <= b
  {
    if b < a {
      assert (b + 1) * count == b * count + count;
      MulMonotone(b + 1, a, count);
    }
  }

  /** There is one size with which `count` buckets cover `n` segments and none is needless. */
  lemma BucketSizeIsUnique(concurrency: nat, n: nat, size: nat)
    requires concurrency > 0 && n > 0
    requires var count := if concurrency < n then concurrency else n; n <= size * count < n + count
    ensures size == BucketSize(concurrency, n)
  {
    var count, right := BucketCount(concurrency, n), BucketSize(concurrency, n);
    DivBounds(n + count - 1, count);
    CoverIsUnique(n, count, size, right);
    CoverIsUnique(n, count, right, size);
  }

  /** For any request: the balanced strategy cuts the segments into as many buckets as there
      are connections, starts with the first candidates of the buckets, from the left, until
      it has enough or has served every bucket, and takes what is missing then from the left.
      With the number of SelectedIsRight this determines the list. */
  lemma BalancedIsExact(concurrency: nat, q: Query, max: nat, size: nat)
    requires concurrency > 0 && SegmentCount(q.total, q.chunkSize) > 0
    requires var n := SegmentCount(q.total, q.chunkSize);
             var count := if concurrency < n then concurrency else n;
             n <= size * count < n + count
    ensures var n, sel := SegmentCount(q.total, q.chunkSize), Selected(Balanced, concurrency, q, max);
            var count := if concurrency < n then concurrency else n;
            exists m: nat ::
              && m <= |sel| && FirstsInOrder(q, size, count, sel[..m])
              && (m == max || ServesBuckets(q, size, count, sel[..m]))
              && FillsUp(q, sel, m)
  {
    var n, sel := SegmentCount(q.total, q.chunkSize), Selected(Balanced, concurrency, q, max);
    var count := BucketCount(concurrency, n);
    var part := VisitTo(q, size, n, max, count);
    BucketSizeIsUnique(concurrency, n, size);
    VisitInOrder(q, size, n, max, count);
    VisitPicks(q, size, n, max, count);
    FillsUpBehind(q, max, part, n);
    assert sel[..|part|] == part;
    if |part| < max {
      forall b: nat, k: nat | b < count && FirstOfBucket(q, size, b, k)
        ensures k in part
      {
        assert IsFirst(q, size, count, k);
      }
    }
  }

  lemma PrefixMembers(part: seq<nat>, whole: seq<nat>)
    requires part <= whole
    ensures forall k | k in part :: k in whole
  {
  }

  lemma FillNext(q: Query, max: nat, i: nat)
    ensures var sel := FillTo(q, max, [], i);
            |sel| < max ==> FillTo(q, max, [], i + 1) == if q.Eligible(i) then sel + [i] else sel
  {
    FillTakesLeftmost(q, max, i);
  }

  /** A full selection stays as it is. */
  lemma {:induction false} FillStops(q: Query, max: nat, chosen: seq<nat>, i: nat, k: nat)
    requires i <= k && |FillTo(q, max, chosen, i)| >= max
    ensures FillTo(q, max, chosen, k) == FillTo(q, max, chosen, i)
    decreases k
  {
    if i < k {
      FillStops(q, max, chosen, i, k - 1);
    }
  }

  lemma {:induction false} VisitStops(q: Query, size: nat, n: nat, max: nat, i: nat, k: nat)
    requires i <= k && |VisitTo(q, size, n, max, i)| >= max
    ensures VisitTo(q, size, n, max, k) == VisitTo(q, size, n, max, i)
    decreases k
  {
    if i < k {
      VisitStops(q, size, n, max, i, k - 1);
    }
  }

  // -------- the code --------

  method TrySelectSegment(state: DownloadState, index: uint64, accepts: (int, int) -> bool,
                          out: array<ByteRange>, selected: nat)
    returns (taken: bool)
    requires state.Valid() && out != state.ranges
    requires SegmentStart(state.chunkSize, index) < state.totalSize
    requires selected < out.Length
    modifies out
    ensures taken <==> !SegmentDone(state.Done(), state.totalSize, state.chunkSize, index)
                       && accepts(SegmentStart(state.chunkSize, index),
                                  SegmentEnd(state.totalSize, state.chunkSize, index))
    ensures taken ==> out[selected].start == SegmentStart(state.chunkSize, index)
                      && out[selected].end == SegmentEnd(state.totalSize, state.chunkSize, index)
    ensures forall j | 0 <= j < out.Length && (j != selected || !taken) :: out[j] == old(out[j])
  {
    IndexInFile(state.totalSize, state.chunkSize, index);
    var done := state.IsSegmentDone(index);
    if done {
      return false;
    }
    var start: uint64 := SegmentStart(state.chunkSize, index);
    var end: uint64 := SegmentEnd(state.totalSize, state.chunkSize, index);
    if !accepts(start, end) {
      return false;
    }
    out[selected] := ByteRange(start, end);
    return true;
  }

  method SelectLeftHeavy(state: DownloadState, maxCount: nat, accepts: (int, int) -> bool, out: array<ByteRange>)
    returns (selected: nat)
    requires state.Valid() && out != state.ranges
    requires maxCount <= out.Length
    modifies out
    ensures var q := Query(state.Done(), state.totalSize, state.chunkSize, accepts);
            var sel := Selected(LeftHeavy, 0, q, maxCount);
            selected == |sel| <= maxCount && Writes(q, sel, out[..selected])
  {
    ghost var q := Query(state.Done(), state.totalSize, state.chunkSize, accepts);
    ghost var sel := [];
    selected := 0;
    if maxCount == 0 || state.totalSize == 0 {
      FillPicks(q, maxCount, [], SegmentCount(q.total, q.chunkSize));
      return;
    }
    var n := state.CountSegments();
    var i := 0;
    while i < n && selected < maxCount
      invariant i <= n && selected == |sel| <= maxCount
      invariant sel == FillTo(q, maxCount, [], i)
      invariant Writes(q, sel, out[..selected])
    {
      FillNext(q, maxCount, i);
      var taken := TakeOne(state, i, accepts, out, selected, sel, q);
      if taken {
        selected := selected + 1;
      }
      i := i + 1;
      sel := FillTo(q, maxCount, [], i);
    }
    if i < n {
      FillStops(q, maxCount, [], i, n);
    }
  }

  /** try_select_segment for a segment that is not among those selected so far. */
  method TakeOne(state: DownloadState, i: uint64, accepts: (int, int) -> bool, out: array<ByteRange>, selected: nat,
                 ghost sel: seq<nat>, ghost q: Query)
    returns (taken: bool)
    requires state.Valid() && out != state.ranges && selected == |sel| < out.Length
    requires i < SegmentCount(state.totalSize, state.chunkSize)
    requires q == Query(state.Done(), state.totalSize, state.chunkSize, accepts) && Writes(q, sel, out[..selected])
    modifies out
    ensures taken == q.Eligible(i)
    ensures (if taken then Writes(q, sel + [i], out[..selected + 1]) else Writes(q, sel, out[..selected]))
  {
    ghost var written := out[..selected];
    IndexInFile(state.totalSize, state.chunkSize, i);
    taken := TrySelectSegment(state, i, accepts, out, selected);
    assert out[..selected] == written;
    assert taken ==> out[..selected + 1] == written + [out[selected]];
  }

  /** The inner loop of the first pass: the first candidate of one bucket, if there is one. */
  method SelectFromBucket(state: DownloadState, bucketStart: uint64, bucketEnd: uint64,
                          accepts: (int, int) -> bool, out: array<ByteRange>, selected: nat, ghost q: Query)
    returns (taken: bool)
    requires state.Valid() && out != state.ranges && selected < out.Length
    requires bucketEnd <= SegmentCount(state.totalSize, state.chunkSize)
    requires q == Query(state.Done(), state.totalSize, state.chunkSize, accepts)
    modifies out
    ensures out[..selected] == old(out[..selected])
    ensures var first := FirstEligible(q, bucketStart, bucketEnd);
            && taken == first.Some?
            && (taken ==> Writes(q, [first.value], [out[selected]]))
  {
    ghost var before := out[..selected];
    taken := false;
    var idx := bucketStart;
    while idx < bucketEnd && !taken
      invariant out[..selected] == before
      invariant !taken ==> FirstEligible(q, bucketStart, bucketEnd) == FirstEligible(q, idx, bucketEnd)
      invariant taken ==> FirstEligible(q, bucketStart, bucketEnd) == Some(idx) && Writes(q, [idx], [out[selected]])
      decreases bucketEnd - idx, !taken
    {
      IndexInFile(state.totalSize, state.chunkSize, idx);
      taken := TrySelectSegment(state, idx, accepts, out, selected);
      assert out[..selected] == before;
      if !taken {
        idx := idx + 1;
      }
    }
  }

  /** The first pass. */
  method SelectFromBuckets(state: DownloadState, n: uint64, concurrency: nat, maxCount: nat,
                           accepts: (int, int) -> bool, out: array<ByteRange>)
    returns (selected: nat)
    requires state.Valid() && out != state.ranges && maxCount <= out.Length
    requires n == SegmentCount(state.totalSize, state.chunkSize) && n > 0 && concurrency > 0
    requires n + n < U64_LIMIT
    modifies out
    ensures var q := Query(state.Done(), state.totalSize, state.chunkSize, accepts);
            var sel := VisitTo(q, BucketSize(concurrency, n), n, maxCount, BucketCount(concurrency, n));
            selected == |sel| <= maxCount && Writes(q, sel, out[..selected])
  {
    var bucketCount: uint64 := BucketCount(concurrency, n);
    var rounded: uint64 := n + bucketCount - 1;
    QuotientBound(rounded, bucketCount);
    var bucketSize: uint64 := rounded / bucketCount;
    BucketsCover(concurrency, n);
    selected := VisitBuckets(state, n, bucketCount, bucketSize, maxCount, accepts, out);
  }

  method VisitBuckets(state: DownloadState, n: uint64, bucketCount: uint64, bucketSize: uint64, maxCount: nat,
                      accepts: (int, int) -> bool, out: array<ByteRange>)
    returns (selected: nat)
    requires state.Valid() && out != state.ranges && maxCount <= out.Length
    requires n == SegmentCount(state.totalSize, state.chunkSize)
    requires BucketStart(bucketSize, bucketCount) < U64_LIMIT
    modifies out
    ensures var q := Query(state.Done(), state.totalSize, state.chunkSize, accepts);
            var sel := VisitTo(q, bucketSize, n, maxCount, bucketCount);
            selected == |sel| <= maxCount && Writes(q, sel, out[..selected])
  {
    ghost var q := Query(state.Done(), state.totalSize, state.chunkSize, accepts);
    ghost var sel := [];
    selected := 0;
    var bucket := 0;
    while bucket < bucketCount && selected < maxCount
      invariant bucket <= bucketCount && selected == |sel| <= maxCount
      invariant sel == VisitTo(q, bucketSize, n, maxCount, bucket)
      invariant Writes(q, sel, out[..selected])
    {
      BucketBelow(bucketSize, bucket + 1, bucketCount);
      VisitNext(q, bucketSize, n, maxCount, bucket);
      var taken := VisitOne(state, n, bucket, bucketSize, accepts, out, selected, sel, q);
      if taken {
        selected := selected + 1;
      }
      bucket := bucket + 1;
      sel := VisitTo(q, bucketSize, n, maxCount, bucket);
    }
    if bucket < bucketCount {
      VisitStops(q, bucketSize, n, maxCount, bucket, bucketCount);
    }
  }

  /** The loop body of the first pass. */
  method VisitOne(state: DownloadState, n: uint64, bucket: nat, bucketSize: uint64, accepts: (int, int) -> bool,
                  out: array<ByteRange>, selected: nat, ghost sel: seq<nat>, ghost q: Query)
    returns (taken: bool)
    requires state.Valid() && out != state.ranges && selected == |sel| < out.Length
    requires n == SegmentCount(state.totalSize, state.chunkSize)
    requires BucketStart(bucketSize, bucket + 1) < U64_LIMIT
    requires q == Query(state.Done(), state.totalSize, state.chunkSize, accepts) && Writes(q, sel, out[..selected])
    modifies out
    ensures var first := FirstEligible(q, BucketStart(bucketSize, bucket), BucketEnd(bucketSize, n, bucket));
            && taken == first.Some?
            && (if taken then Writes(q, sel + [first.value], out[..selected + 1]) else Writes(q, sel, out[..selected]))
  {
    ghost var written := out[..selected];
    var bucketStart: uint64 := BucketStart(bucketSize, bucket);
    var bucketLimit: uint64 := bucketStart + bucketSize;
    var bucketEnd := if bucketLimit < n then bucketLimit else n;
    taken := SelectFromBucket(state, bucketStart, bucketEnd, accepts, out, selected, q);
    assert taken ==> out[..selected + 1] == written + [out[selected]];
  }

  method RangeSelected(ranges: array<ByteRange>, count: nat, start: uint64, end: uint64) returns (found: bool)
    requires count <= ranges.Length
    ensures found <==> ByteRange(start, end) in ranges[..count]
  {
    for i := 0 to count
      invariant ByteRange(start, end) !in ranges[..i]
    {
      if ranges[i].start == start && ranges[i].end == end {
        return true;
      }
      assert ranges[..i + 1] == ranges[..i] + [ranges[i]];
    }
    return false;
  }

  /** Distinct segments have distinct ranges, so comparing ranges compares indices. */
  lemma WrittenRangesNameSegments(q: Query, sel: seq<nat>, out: seq<ByteRange>, k: nat, r: ByteRange)
    requires Writes(q, sel, out)
    requires r.start == SegmentStart(q.chunkSize, k) && r.end == SegmentEnd(q.total, q.chunkSize, k)
    ensures r in out <==> k in sel
  {
    if r in out {
      var j :| 0 <= j < |out| && out[j] == r;
      if sel[j] < k {
        MulMonotone(sel[j] + 1, k, SegmentSize(q.chunkSize));
        NextSegmentStart(q.chunkSize, sel[j]);
      } else if k < sel[j] {
        MulMonotone(k + 1, sel[j], SegmentSize(q.chunkSize));
        NextSegmentStart(q.chunkSize, k);
      }
    }
  }

  /** The second pass: left to right over everything, skipping what is selected already. */
  method FillFromLeft(state: DownloadState, n: uint64, maxCount: nat, accepts: (int, int) -> bool,
                      out: array<ByteRange>, count: nat, ghost chosen: seq<nat>)
    returns (selected: nat)
    requires state.Valid() && out != state.ranges && maxCount <= out.Length
    requires n == SegmentCount(state.totalSize, state.chunkSize)
    requires count == |chosen| <= maxCount
    requires Writes(Query(state.Done(), state.totalSize, state.chunkSize, accepts), chosen, out[..count])
    modifies out
    ensures var q := Query(state.Done(), state.totalSize, state.chunkSize, accepts);
            var sel := FillTo(q, maxCount, chosen, n);
            selected == |sel| <= maxCount && Writes(q, sel, out[..selected])
  {
    ghost var q := Query(state.Done(), state.totalSize, state.chunkSize, accepts);
    ghost var sel := chosen;
    selected := count;
    var i := 0;
    while i < n && selected < maxCount
      invariant i <= n && selected == |sel| <= maxCount
      invariant sel == FillTo(q, maxCount, chosen, i)
      invariant Writes(q, sel, out[..selected])
    {
      var added := FillOne(state, i, accepts, out, selected, sel, q);
      if added {
        sel := sel + [i];
        selected := selected + 1;
      }
      i := i + 1;
    }
    if i < n {
      FillStops(q, maxCount, chosen, i, n);
    }
  }

  /** The loop body of the second pass. */
  method FillOne(state: DownloadState, i: uint64, accepts: (int, int) -> bool, out: array<ByteRange>, selected: nat,
                 ghost sel: seq<nat>, ghost q: Query)
    returns (added: bool)
    requires state.Valid() && out != state.ranges && selected == |sel| < out.Length
    requires i < SegmentCount(state.totalSize, state.chunkSize)
    requires q == Query(state.Done(), state.totalSize, state.chunkSize, accepts) && Writes(q, sel, out[..selected])
    modifies out
    ensures added == (q.Eligible(i) && i !in sel)
    ensures (if added then Writes(q, sel + [i], out[..selected + 1]) else Writes(q, sel, out[..selected]))
  {
    IndexInFile(state.totalSize, state.chunkSize, i);
    var done := state.IsSegmentDone(i);
    if done {
      return false;
    }
    SegmentShape(state.totalSize, state.chunkSize, i);
    var start: uint64 := SegmentStart(state.chunkSize, i);
    var end: uint64 := SegmentEnd(state.totalSize, state.chunkSize, i);
    if !accepts(start, end) {
      return false;
    }
    var already := RangeSelected(out, selected, start, end);
    WrittenRangesNameSegments(q, sel, out[..selected], i, ByteRange(start, end));
    if already {
      return false;
    }
    ghost var written := out[..selected];
    out[selected] := ByteRange(start, end);
    assert out[..selected + 1] == written + [ByteRange(start, end)];
    return true;
  }

  /** Spreads the selection: first one segment a bucket, then whatever is left from the left. */
  method SelectBalanced(state: DownloadState, concurrency: nat, maxCount: nat, accepts: (int, int) -> bool,
                        out: array<ByteRange>)
    returns (selected: nat)
    requires state.Valid() && out != state.ranges && maxCount <= out.Length
    requires SegmentCount(state.totalSize, state.chunkSize) * 2 < U64_LIMIT
    modifies out
    ensures var q := Query(state.Done(), state.totalSize, state.chunkSize, accepts);
            var sel := Selected(Balanced, concurrency, q, maxCount);
            selected == |sel| <= maxCount && Writes(q, sel, out[..selected])
  {
    ghost var q := Query(state.Done(), state.totalSize, state.chunkSize, accepts);
    selected := 0;
    if concurrency == 0 {
      return;
    }
    SelectedIsRight(Balanced, concurrency, q, maxCount);
    if maxCount == 0 || state.totalSize == 0 {
      return;
    }
    var n := state.CountSegments();
    IndexInFile(state.totalSize, state.chunkSize, 0);
    ghost var firsts := VisitTo(q, BucketSize(concurrency, n), n, maxCount, BucketCount(concurrency, n));
    selected := SelectFromBuckets(state, n, concurrency, maxCount, accepts, out);
    if selected < maxCount {
      selected := FillFromLeft(state, n, maxCount, accepts, out, selected, firsts);
    } else {
      FillStops(q, maxCount, firsts, 0, n);
    }
  }

  method SelectChunks(strategy: Strategy, concurrency: nat, state: DownloadState, maxCount: nat,
                      accepts: (int, int) -> bool, out: array<ByteRange>)
    returns (selected: nat)
    requires state.Valid() && out != state.ranges && maxCount <= out.Length
    requires SegmentCount(state.totalSize, state.chunkSize) * 2 < U64_LIMIT
    modifies out
    ensures var q := Query(state.Done(), state.totalSize, state.chunkSize, accepts);
            var sel := Selected(strategy, concurrency, q, maxCount);
            selected == |sel| <= maxCount && Writes(q, sel, out[..selected])
  {
    if strategy == LeftHeavy {
      selected := SelectLeftHeavy(state, maxCount, accepts, out);
    } else {
      selected := SelectBalanced(state, concurrency, maxCount, accepts, out);
    }
  }
}
