/** Unsigned machine words of the original program. A `uint64` is an integer with the
    bounds of the C type, so every assignment of a sum to a `uint64` is a proof that the
    sum does not wrap. */
module Machine {
  const U64_LIMIT: nat := 0x1_0000_0000_0000_0000
  const MAX_U64: nat := 0xFFFF_FFFF_FFFF_FFFF

  type uint64 = n: nat | n < 0x1_0000_0000_0000_0000
  type byte = n: nat | n < 256

  datatype Option<T> = None | Some(value: T)
}

/** The theory of done-range arrays: which offsets an array of inclusive ranges covers,
    what it means for the array to be in normal form, and why the normal form of a set
    of offsets is unique. */
module ByteRanges {
  import opened Machine

  /** An inclusive range of byte offsets. */
  datatype ByteRange = ByteRange(start: uint64, end: uint64)

  ghost predicate Covers(rs: seq<ByteRange>, o: int) {
    exists i :: 0 <= i < |rs| && rs[i].start <= o <= rs[i].end
  }

  /** Each range is non-empty and stays below the largest machine word. */
  ghost predicate WellFormed(rs: seq<ByteRange>) {
    forall i | 0 <= i < |rs| :: rs[i].start <= rs[i].end < MAX_U64
  }

  /** Sorted, disjoint and non-adjacent: between two ranges at least one offset is missing. */
  ghost predicate Normal(rs: seq<ByteRange>) {
    && WellFormed(rs)
    && forall i, j | 0 <= i < j < |rs| :: rs[i].end + 1 < rs[j].start
  }

  function Interval(start: int, end: int): (offsets: set<int>)
    ensures forall o :: o in offsets <==> start <= o <= end
    decreases end - start + 1
  {
    if start > end then {} else Interval(start, end - 1) + {end}
  }

  /** The set of offsets an array of ranges stands for. */
  function Offsets(rs: seq<ByteRange>): set<int> {
    if rs == [] then {} else Interval(rs[0].start, rs[0].end) + Offsets(rs[1..])
  }

  lemma {:induction false} OffsetsAreCovered(rs: seq<ByteRange>)
    ensures forall o :: o in Offsets(rs) <==> Covers(rs, o)
  {
    if rs != [] {
      OffsetsAreCovered(rs[1..]);
      forall o
        ensures o in Offsets(rs) <==> Covers(rs, o)
      {
        CoversCons(rs, o);
      }
    }
  }

  lemma CoversCons(rs: seq<ByteRange>, o: int)
    requires rs != []
    ensures Covers(rs, o) <==> rs[0].start <= o <= rs[0].end || Covers(rs[1..], o)
  {
    if Covers(rs[1..], o) {
      var i :| 0 <= i < |rs[1..]| && rs[1..][i].start <= o <= rs[1..][i].end;
      assert rs[i + 1].start <= o <= rs[i + 1].end;
    }
    if Covers(rs, o) && !(rs[0].start <= o <= rs[0].end) {
      var i :| 0 <= i < |rs| && rs[i].start <= o <= rs[i].end;
      assert rs[1..][i - 1] == rs[i];
    }
  }

  lemma CoversConcat(xs: seq<ByteRange>, ys: seq<ByteRange>, o: int)
    ensures Covers(xs + ys, o) <==> Covers(xs, o) || Covers(ys, o)
  {
    var zs := xs + ys;
    if Covers(zs, o) {
      var i :| 0 <= i < |zs| && zs[i].start <= o <= zs[i].end;
      assert i < |xs| ==> zs[i] == xs[i];
      assert i >= |xs| ==> zs[i] == ys[i - |xs|];
    }
    if Covers(xs, o) {
      var i :| 0 <= i < |xs| && xs[i].start <= o <= xs[i].end;
      assert zs[i] == xs[i];
    }
    if Covers(ys, o) {
      var i :| 0 <= i < |ys| && ys[i].start <= o <= ys[i].end;
      assert zs[|xs| + i] == ys[i];
    }
  }

  lemma NormalConcat(xs: seq<ByteRange>, ys: seq<ByteRange>)
    requires Normal(xs) && Normal(ys)
    requires xs != [] && ys != [] ==> xs[|xs| - 1].end + 1 < ys[0].start
    ensures Normal(xs + ys)
  {
    var zs := xs + ys;
    forall i, j | 0 <= i < j < |zs|
      ensures zs[i].end + 1 < zs[j].start
    {
      if i < |xs| <= j {
        assert i < |xs| - 1 ==> xs[i].end + 1 < xs[|xs| - 1].start;
        assert 0 < j - |xs| ==> ys[0].end + 1 < ys[j - |xs|].start;
      }
    }
  }

  /** In normal form a contiguous run of covered offsets lies inside one range: this is
      what makes a scan for a single enclosing range a complete query. */
  lemma {:induction false} RunLiesInOneRange(rs: seq<ByteRange>, start: int, end: int) returns (i: nat)
    requires Normal(rs)
    requires start <= end
    requires forall o | start <= o <= end :: Covers(rs, o)
    ensures i < |rs| && rs[i].start <= start && end <= rs[i].end
    decreases end - start
  {
    if start == end {
      assert Covers(rs, start);
      i :| 0 <= i < |rs| && rs[i].start <= start <= rs[i].end;
    } else {
      var before := RunLiesInOneRange(rs, start, end - 1);
      assert Covers(rs, end);
      i :| 0 <= i < |rs| && rs[i].start <= end <= rs[i].end;
    }
  }

  /** Two arrays in normal form that cover the same offsets are the same array. */
  lemma {:induction false} NormalFormIsUnique(xs: seq<ByteRange>, ys: seq<ByteRange>)
    requires Normal(xs) && Normal(ys)
    requires forall o :: Covers(xs, o) <==> Covers(ys, o)
    ensures xs == ys
  {
    if xs == [] {
      if ys != [] {
        assert Covers(ys, ys[0].start);
      }
    } else {
      assert xs[0].start <= xs[0].start <= xs[0].end;
      assert Covers(xs, xs[0].start);
      HeadsAgree(xs, ys);
      forall o
        ensures Covers(xs[1..], o) <==> Covers(ys[1..], o)
      {
        CoversCons(xs, o);
        CoversCons(ys, o);
        TailStartsLater(xs, o);
        TailStartsLater(ys, o);
      }
      NormalFormIsUnique(xs[1..], ys[1..]);
      assert xs == [xs[0]] + xs[1..];
      assert ys == [ys[0]] + ys[1..];
    }
  }

  lemma TailStartsLater(rs: seq<ByteRange>, o: int)
    requires Normal(rs) && rs != []
    ensures Covers(rs[1..], o) ==> rs[0].end + 1 < o
  {
  }

  lemma HeadsAgree(xs: seq<ByteRange>, ys: seq<ByteRange>)
    requires Normal(xs) && Normal(ys) && xs != [] && ys != []
    requires forall o :: Covers(xs, o) <==> Covers(ys, o)
    ensures xs[0] == ys[0]
  {
    FirstStartIsLeast(xs, ys);
    FirstStartIsLeast(ys, xs);
    FirstEndIsLeast(xs, ys);
    FirstEndIsLeast(ys, xs);
  }

  lemma FirstStartIsLeast(xs: seq<ByteRange>, ys: seq<ByteRange>)
    requires Normal(xs) && Normal(ys) && xs != [] && ys != []
    requires forall o :: Covers(xs, o) <==> Covers(ys, o)
    ensures xs[0].start <= ys[0].start
  {
    assert ys[0].start <= ys[0].start <= ys[0].end;
    assert Covers(ys, ys[0].start);
    var i :| 0 <= i < |xs| && xs[i].start <= ys[0].start <= xs[i].end;
    assert i > 0 ==> xs[0].end + 1 < xs[i].start;
  }

  lemma FirstEndIsLeast(xs: seq<ByteRange>, ys: seq<ByteRange>)
    requires Normal(xs) && Normal(ys) && xs != [] && ys != []
    requires forall o :: Covers(xs, o) <==> Covers(ys, o)
    requires xs[0].start == ys[0].start
    ensures xs[0].end >= ys[0].end
  {
    CoversCons(xs, xs[0].end + 1);
    CoversCons(ys, xs[0].end + 1);
    TailStartsLater(xs, xs[0].end + 1);
  }

  // -------- counting --------

  function TotalLength(rs: seq<ByteRange>): int {
    if rs == [] then 0 else rs[0].end - rs[0].start + 1 + TotalLength(rs[1..])
  }

  lemma {:induction false} IntervalSize(start: int, end: int)
    requires start <= end + 1
    ensures |Interval(start, end)| == end - start + 1
    decreases end - start + 1
  {
    if start <= end {
      IntervalSize(start, end - 1);
    }
  }

  /** Summing the lengths of a normal array counts the covered offsets exactly once. */
  lemma {:induction false} LengthsCountOffsets(rs: seq<ByteRange>)
    requires Normal(rs)
    ensures TotalLength(rs) == |Offsets(rs)|
  {
    if rs != [] {
      LengthsCountOffsets(rs[1..]);
      IntervalSize(rs[0].start, rs[0].end);
      OffsetsAreCovered(rs[1..]);
      forall o | o in Offsets(rs[1..])
        ensures o !in Interval(rs[0].start, rs[0].end)
      {
        TailStartsLater(rs, o);
      }
    }
  }

  lemma {:induction false} TotalLengthAppend(rs: seq<ByteRange>, r: ByteRange)
    ensures TotalLength(rs + [r]) == TotalLength(rs) + r.end - r.start + 1
  {
    if rs == [] {
      assert rs + [r] == [r];
    } else {
      assert (rs + [r])[1..] == rs[1..] + [r];
      TotalLengthAppend(rs[1..], r);
    }
  }

  lemma {:induction false} TotalLengthBound(rs: seq<ByteRange>)
    requires Normal(rs) && rs != []
    ensures TotalLength(rs) <= rs[|rs| - 1].end + 1 - rs[0].start
  {
    if |rs| > 1 {
      TotalLengthBound(rs[1..]);
    }
  }

  /** A set of offsets below `total` has `total` members exactly when it is all of them. */
  lemma FullWhenCounted(done: set<int>, total: nat)
    requires forall o | o in done :: 0 <= o < total
    ensures |done| <= total
    ensures |done| == total <==> forall o | 0 <= o < total :: o in done
  {
    var all := Interval(0, total - 1);
    IntervalSize(0, total - 1);
    assert done <= all;
    SubsetSize(done, all);
    if forall o | 0 <= o < total :: o in done {
      assert done == all;
    }
  }

  lemma SubsetSize(xs: set<int>, ys: set<int>)
    requires xs <= ys
    ensures |xs| <= |ys|
    ensures |xs| == |ys| ==> xs == ys
  {
    var rest := ys - xs;
    assert ys == xs + rest;
    assert |ys| == |xs| + |rest|;
  }
}
