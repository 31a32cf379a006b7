/** The id generator of src/download.c: 64-bit words of a millisecond clock, a machine id
    and a sequence number, scrambled by a mixer. */
module Snowflakes {
  import opened Machine
  import opened Words

  const EPOCH_MS: nat := 1704067200000
  const SEQUENCE_MASK: nat := 0xFFF
  const MACHINE_MASK: nat := 0x3FF
  const SPAN: nat := 0x400_0000_0000  // 2^42 milliseconds, what the timestamp field holds

  // -------- the mixer --------

  const FACTOR1: nat := 0xbf58476d1ce4e5b9
  const FACTOR2: nat := 0x94d049bb133111eb
  const INVERSE1: nat := 0x96de1b173f119089
  const INVERSE2: nat := 0x319642b2d24d8ec3

  function XorShift(x: nat, k: nat): nat {
    Xor(x, ShiftRight(x, k))
  }

  /** download_snowflake_mix. */
  function Mix(value: nat): nat {
    XorShift(Times(XorShift(Times(XorShift(value, 30), FACTOR1), 27), FACTOR2), 31)
  }

  lemma XorShiftStaysInWord(x: nat, k: nat)
    requires x < U64_LIMIT
    ensures XorShift(x, k) < U64_LIMIT
  {
    WordPowers();
    ShiftShrinks(x, k);
    XorBound(x, ShiftRight(x, k), 64);
  }

  /** The mixer maps words to words, and no two of them to the same one: it is a bijection. */
  lemma MixIsBijective(x: nat, y: nat)
    requires x < U64_LIMIT && y < U64_LIMIT
    ensures Mix(x) < U64_LIMIT
    ensures Mix(x) == Mix(y) ==> x == y
  {
    var x1, y1 := XorShift(x, 30), XorShift(y, 30);
    var x2, y2 := Times(x1, FACTOR1), Times(y1, FACTOR1);
    var x3, y3 := XorShift(x2, 27), XorShift(y2, 27);
    var x4, y4 := Times(x3, FACTOR2), Times(y3, FACTOR2);
    XorShiftStaysInWord(x, 30);
    XorShiftStaysInWord(y, 30);
    XorShiftStaysInWord(x2, 27);
    XorShiftStaysInWord(y2, 27);
    XorShiftStaysInWord(x4, 31);
    if Mix(x) == Mix(y) {
      XorShiftIsInjective(x4, y4, 31);
      FactorsAreInvertible(x3, y3);
      XorShiftIsInjective(x2, y2, 27);
      FactorsAreInvertible(x1, y1);
      XorShiftIsInjective(x, y, 30);
    }
  }

  lemma FactorsAreInvertible(x: nat, y: nat)
    requires x < U64_LIMIT && y < U64_LIMIT
    ensures Times(x, FACTOR1) == Times(y, FACTOR1) ==> x == y
    ensures Times(x, FACTOR2) == Times(y, FACTOR2) ==> x == y
  {
    ProductIsInvertible(x, FACTOR1, INVERSE1);
    ProductIsInvertible(y, FACTOR1, INVERSE1);
    ProductIsInvertible(x, FACTOR2, INVERSE2);
    ProductIsInvertible(y, FACTOR2, INVERSE2);
  }

  // -------- the generator --------

  datatype Generator = Generator(lastMs: uint64, sequence: nat, machine: nat)
  {
    ghost predicate Valid() {
      sequence <= SEQUENCE_MASK && machine <= MACHINE_MASK
    }

    /** The clock reading as the generator takes it: never before the last one. */
    function Clamped(reading: uint64): uint64 {
      if reading < lastMs then lastMs else reading
    }

    /** All sequence numbers of the present millisecond are used up. */
    predicate Exhausted(reading: uint64) {
      Clamped(reading) == lastMs && sequence + 1 > SEQUENCE_MASK
    }

    /** The state after one id; `later` is the reading that ends a wait. */
    function Next(reading: uint64, later: uint64): Generator {
      var now := Clamped(reading);
      if now != lastMs then this.(lastMs := now, sequence := 0)
      else if sequence + 1 > SEQUENCE_MASK then this.(lastMs := later, sequence := 0)
      else this.(sequence := sequence + 1)
    }

    /** The packed word; the subtraction wraps around. */
    function Raw(): nat {
      Or(Or(ShiftLeft(Timestamp(lastMs), 22), ShiftLeft(machine, 12)), sequence)
    }

    predicate Before(other: Generator) {
      lastMs < other.lastMs || (lastMs == other.lastMs && sequence < other.sequence)
    }
  }

  ghost predicate Follows(g: Generator, next: Generator) {
    exists reading: uint64, later: uint64 ::
      next == g.Next(reading, later) && (g.Exhausted(reading) ==> later > g.lastMs)
  }

  /** The states after each id of one process, for any clock readings. */
  ghost predicate History(states: seq<Generator>) {
    && (forall k | 0 <= k < |states| :: states[k].Valid())
    && forall k | 0 < k < |states| :: Follows(states[k - 1], states[k])
  }

  /** Also when the clock goes backwards, each id moves the generator forwards. */
  lemma NextMovesForward(g: Generator, next: Generator)
    requires g.Valid() && Follows(g, next)
    ensures g.Before(next) && next.Valid() && next.machine == g.machine
  {
  }

  /** An id wastes nothing: it is the first pair of time and sequence behind the last one that
      the clock allows; only when the last one ends its millisecond has the clock to move on,
      and then the reading that was waited for counts. */
  lemma NextIsTheFirst(g: Generator, reading: uint64, later: uint64, other: Generator)
    requires g.Valid() && other.Valid() && g.Before(other)
    requires var waits := reading <= g.lastMs && g.sequence == SEQUENCE_MASK;
             (waits ==> later > g.lastMs) && other.lastMs >= if waits then later else reading
    ensures var next := g.Next(reading, later);
            var waits := reading <= g.lastMs && g.sequence == SEQUENCE_MASK;
            && next.lastMs >= (if waits then later else reading)
            && (next.Before(other) || (next.lastMs == other.lastMs && next.sequence == other.sequence))
  {
  }

  lemma {:induction false} HistoryMovesForward(states: seq<Generator>, i: nat, j: nat)
    requires History(states) && i < j < |states|
    ensures states[i].Before(states[j]) && states[i].machine == states[j].machine
    decreases j
  {
    NextMovesForward(states[j - 1], states[j]);
    if i < j - 1 {
      HistoryMovesForward(states, i, j - 1);
    }
  }

  function Timestamp(ms: uint64): nat {
    (ms + U64_LIMIT - EPOCH_MS) % U64_LIMIT
  }

  lemma ShiftedTimestamp(timestamp: nat)
    requires timestamp < U64_LIMIT
    ensures timestamp * 0x40_0000 % U64_LIMIT == timestamp % SPAN * 0x40_0000
  {
    var q, r := timestamp / SPAN, timestamp % SPAN;
    assert timestamp * 0x40_0000 == q * U64_LIMIT + r * 0x40_0000;
    RemainderIsUnique(timestamp * 0x40_0000, r * 0x40_0000, q);
  }

  lemma TimestampsAgree(a: uint64, b: uint64)
    ensures Timestamp(a) % SPAN == Timestamp(b) % SPAN <==> a % SPAN == b % SPAN
  {
    OffsetRemainder(a);
    OffsetRemainder(b);
    SameOffset(a % SPAN, b % SPAN, (U64_LIMIT - EPOCH_MS) % SPAN);
  }

  lemma SameOffset(x: nat, y: nat, offset: nat)
    requires x < SPAN && y < SPAN && offset < SPAN
    ensures (x + offset) % SPAN == (y + offset) % SPAN <==> x == y
  {
    assert (x + offset) % SPAN == if x + offset < SPAN then x + offset else x + offset - SPAN;
    assert (y + offset) % SPAN == if y + offset < SPAN then y + offset else y + offset - SPAN;
  }

  lemma OffsetRemainder(a: uint64)
    ensures Timestamp(a) % SPAN == (a % SPAN + (U64_LIMIT - EPOCH_MS) % SPAN) % SPAN
  {
    var offset := U64_LIMIT - EPOCH_MS;
    SpanMultiple(Timestamp(a), 0x40_0000 * ((a + offset) / U64_LIMIT));
    SpanMultiple(a % SPAN + offset % SPAN, a / SPAN + offset / SPAN);
  }

  lemma SpanMultiple(x: int, k: int)
    ensures (x + SPAN * k) % SPAN == x % SPAN
  {
  }

  lemma ShiftedFields(timestamp: nat, machine: nat)
    requires timestamp < U64_LIMIT && machine <= MACHINE_MASK
    ensures ShiftLeft(timestamp, 22) == timestamp % SPAN * 0x40_0000
    ensures ShiftLeft(machine, 12) == machine * 0x1000
  {
    WordPowers();
    ShiftedTimestamp(timestamp);
  }

  lemma FieldsJoin(time: nat, machine: nat, sequence: nat)
    requires machine <= MACHINE_MASK && sequence <= SEQUENCE_MASK
    ensures Or(Or(time * 0x40_0000, machine * 0x1000), sequence) == Packed(time, machine, sequence)
  {
    WordPowers();
    OrOfDisjointFields(time, machine * 0x1000, 22);
    var both := time * 0x400 + machine;
    assert time * 0x40_0000 + machine * 0x1000 == both * 0x1000;
    OrOfDisjointFields(both, sequence, 12);
  }

  /** The three fields lie side by side in the word. */
  lemma RawIsPacked(g: Generator)
    requires g.Valid()
    ensures g.Raw() == Packed(Timestamp(g.lastMs) % SPAN, g.machine, g.sequence) < U64_LIMIT
  {
    ShiftedFields(Timestamp(g.lastMs), g.machine);
    FieldsJoin(Timestamp(g.lastMs) % SPAN, g.machine, g.sequence);
  }

  function Packed(time: nat, machine: nat, sequence: nat): nat {
    time * 0x40_0000 + machine * 0x1000 + sequence
  }

  lemma FieldsAreUnique(time: nat, machine: nat, sequence: nat, time': nat, sequence': nat)
    requires machine <= MACHINE_MASK && sequence <= SEQUENCE_MASK && sequence' <= SEQUENCE_MASK
    ensures Packed(time, machine, sequence) == Packed(time', machine, sequence')
            <==> time == time' && sequence == sequence'
  {
  }

  /** Two words of one process collide exactly when their sequence numbers agree and their
      times agree modulo the 42 bits that survive the shift. */
  lemma RawCollidesExactly(g: Generator, h: Generator)
    requires g.Valid() && h.Valid() && g.machine == h.machine
    ensures g.Raw() == h.Raw() <==> g.sequence == h.sequence && g.lastMs % SPAN == h.lastMs % SPAN
  {
    RawIsPacked(g);
    RawIsPacked(h);
    FieldsAreUnique(Timestamp(g.lastMs) % SPAN, g.machine, g.sequence, Timestamp(h.lastMs) % SPAN, h.sequence);
    TimestampsAgree(g.lastMs, h.lastMs);
  }

  lemma CloseTimesDiffer(a: nat, b: nat)
    requires a <= b && b - a < SPAN && a % SPAN == b % SPAN
    ensures a == b
  {
  }

  /** Ids never collide: for any clock readings, any two ids that one process makes less
      than 2^42 milliseconds apart are different. */
  lemma IdsNeverCollide(states: seq<Generator>, i: nat, j: nat)
    requires History(states) && i < j < |states|
    requires states[j].lastMs - states[i].lastMs < SPAN
    ensures Mix(states[i].Raw()) != Mix(states[j].Raw())
  {
    var g, h := states[i], states[j];
    HistoryMovesForward(states, i, j);
    RawCollidesExactly(g, h);
    if g.lastMs % SPAN == h.lastMs % SPAN {
      CloseTimesDiffer(g.lastMs, h.lastMs);
    }
    RawIsPacked(g);
    RawIsPacked(h);
    MixIsBijective(g.Raw(), h.Raw());
  }

  // -------- the code --------

  class Snowflake {
    var lastMs: uint64
    var sequence: nat
    const machineId: nat

    ghost function Abs(): Generator
      reads this
    {
      Generator(lastMs, sequence, machineId)
    }

    constructor (pid: nat)
      ensures Abs() == Generator(0, 0, pid % (MACHINE_MASK + 1)) && Abs().Valid()
    {
      lastMs, sequence, machineId := 0, 0, pid % (MACHINE_MASK + 1);
    }

    /** download_snowflake_wait_next_ms: the first reading after `last`. */
    static method WaitNextMs(last: uint64, clock: seq<uint64>) returns (now: uint64)
      requires exists k :: 0 <= k < |clock| && clock[k] > last
      ensures now > last
      ensures exists k :: 0 <= k < |clock| && clock[k] == now && forall j | 0 <= j < k :: clock[j] <= last
    {
      var k := 0;
      while clock[k] <= last
        invariant 0 <= k < |clock|
        invariant forall j | 0 <= j < k :: clock[j] <= last
        invariant exists l :: k <= l < |clock| && clock[l] > last
        decreases |clock| - k
      {
        k := k + 1;
      }
      now := clock[k];
    }

    /** download_snowflake_next; `clock` are the readings from now on, and only a call that
        has to wait needs the clock to advance. */
    method Next(clock: seq<uint64>) returns (raw: nat, ghost later: uint64)
      requires Abs().Valid() && clock != []
      requires Abs().Exhausted(clock[0]) ==> exists k :: 0 <= k < |clock[1..]| && clock[1..][k] > lastMs
      modifies this
      ensures Abs() == old(Abs()).Next(clock[0], later)
      ensures old(Abs()).Exhausted(clock[0]) ==> later > old(lastMs) && later in clock[1..]
      ensures Abs().Valid() && Follows(old(Abs()), Abs()) && raw == Abs().Raw()
    {
      var now := clock[0];
      if now < lastMs {
        now := lastMs;
      }
      later := now;
      if now == lastMs {
        sequence := sequence + 1;
        if sequence > SEQUENCE_MASK {
          now := WaitNextMs(lastMs, clock[1..]);
          later := now;
          sequence := 0;
        }
      } else {
        sequence := 0;
      }
      lastMs := now;
      raw := Or(Or(ShiftLeft(Timestamp(now), 22), ShiftLeft(machineId, 12)), sequence);
    }
  }
}
