/**
  Per-slot packet-delivery statistics of the WAVE helper (`WavePvdStats`).

  The object keeps four per-slot vectors -- windowed and cumulative counts of
  expected receptions and of receptions inside the communication range -- and
  three scalar counters (packets sent, bytes sent, packets received). It is
  modelled as an immutable record: every mutator returns the updated record.

  Slot vectors are 0-based here; the accessors take the source's 1-based slot
  index and use `index - 1`, exactly as the source does.
 */
module PvdStats {

  /** Number of entries the constructor allocates in each slot vector. */
  const SlotCount: nat := 10

  datatype Stats = Stats(
    expected: seq<int>,       // windowed expected receptions, per slot
    inRange: seq<int>,        // windowed in-range receptions, per slot
    totalExpected: seq<int>,  // cumulative expected receptions, per slot
    totalInRange: seq<int>,   // cumulative in-range receptions, per slot
    txPkts: int,              // packets sent
    txBytes: int,             // bytes sent
    rxPkts: int)              // packets received

  /** Every slot vector has exactly `SlotCount` entries. */
  predicate Valid(s: Stats) {
    && |s.expected| == SlotCount
    && |s.inRange| == SlotCount
    && |s.totalExpected| == SlotCount
    && |s.totalInRange| == SlotCount
  }

  /** A 1-based slot index the four vectors can be addressed with. */
  predicate IsSlot(index: int) {
    1 <= index <= SlotCount
  }

  /** `b` has the length of `a` and agrees with it everywhere except possibly at position `k`. */
  predicate AgreeExcept(a: seq<int>, b: seq<int>, k: int) {
    |a| == |b| && forall j :: 0 <= j < |a| && j != k ==> a[j] == b[j]
  }

  predicate AllZero(a: seq<int>) {
    forall j :: 0 <= j < |a| ==> a[j] == 0
  }

  // ---------------------------------------------------------------------
  // Construction
  // ---------------------------------------------------------------------

  /** The constructor: four zero-filled vectors of `SlotCount` entries and zero scalar counters. */
  function New(): (s: Stats)
    ensures Valid(s)
    ensures AllZero(s.expected) && AllZero(s.inRange)
    ensures AllZero(s.totalExpected) && AllZero(s.totalInRange)
    ensures s.txPkts == 0 && s.txBytes == 0 && s.rxPkts == 0
  {
    var zeros := seq(SlotCount, _ => 0);
    Stats(zeros, zeros, zeros, zeros, 0, 0, 0)
  }

  // ---------------------------------------------------------------------
  // Scalar counters
  // ---------------------------------------------------------------------

  /** The sent-packet counter: writing back the value read changes nothing. */
  function GetTxPktCount(s: Stats): (n: int)
    ensures SetTxPktCount(s, n) == s
  {
    s.txPkts
  }

  /** The received-packet counter: writing back the value read changes nothing. */
  function GetRxPktCount(s: Stats): (n: int)
    ensures SetRxPktCount(s, n) == s
  {
    s.rxPkts
  }

  /** The byte counter: the base every later byte increment adds to. */
  function GetTxByteCount(s: Stats): (n: int)
    ensures forall bytes :: IncTxByteCount(s, bytes).txBytes == n + bytes
  {
    s.txBytes
  }

  /** One more packet sent; nothing else changes. */
  function IncTxPktCount(s: Stats): (r: Stats)
    ensures GetTxPktCount(r) == GetTxPktCount(s) + 1
    ensures r.(txPkts := s.txPkts) == s
  {
    s.(txPkts := s.txPkts + 1)
  }

  /** One more packet received; nothing else changes. */
  function IncRxPktCount(s: Stats): (r: Stats)
    ensures GetRxPktCount(r) == GetRxPktCount(s) + 1
    ensures r.(rxPkts := s.rxPkts) == s
  {
    s.(rxPkts := s.rxPkts + 1)
  }

  /** `bytes` more bytes sent (any sign, as in the source); nothing else changes. */
  function IncTxByteCount(s: Stats, bytes: int): (r: Stats)
    ensures r.txBytes - s.txBytes == bytes
    ensures r.(txBytes := s.txBytes) == s
  {
    s.(txBytes := s.txBytes + bytes)
  }

  /** Overwrites the sent-packet counter; nothing else changes. */
  function SetTxPktCount(s: Stats, count: int): (r: Stats)
    ensures r.txPkts == count
    ensures r.(txPkts := s.txPkts) == s
  {
    s.(txPkts := count)
  }

  /** Overwrites the received-packet counter; nothing else changes. */
  function SetRxPktCount(s: Stats, count: int): (r: Stats)
    ensures r.rxPkts == count
    ensures r.(rxPkts := s.rxPkts) == s
  {
    s.(rxPkts := count)
  }

  // ---------------------------------------------------------------------
  // Per-slot counters
  // ---------------------------------------------------------------------

  /** Windowed expected count at 1-based slot `index`: writing back the value
      read changes nothing. */
  function GetExpectedRxPktCount(s: Stats, index: int): (n: int)
    requires Valid(s) && IsSlot(index)
    ensures SetExpectedRxPktCount(s, index, n) == s
  {
    s.expected[index - 1]
  }

  /** Windowed in-range count at 1-based slot `index`: writing back the value
      read changes nothing. */
  function GetRxPktInRangeCount(s: Stats, index: int): (n: int)
    requires Valid(s) && IsSlot(index)
    ensures SetRxPktInRangeCount(s, index, n) == s
  {
    s.inRange[index - 1]
  }

  /** One more expected reception at `index`: the windowed and the cumulative
      expected counts of that slot rise by one, and nothing else changes. */
  function IncExpectedRxPktCount(s: Stats, index: int): (r: Stats)
    requires Valid(s) && IsSlot(index)
    ensures Valid(r)
    ensures r.expected[index - 1] == s.expected[index - 1] + 1
    ensures r.totalExpected[index - 1] == s.totalExpected[index - 1] + 1
    ensures AgreeExcept(s.expected, r.expected, index - 1)
    ensures AgreeExcept(s.totalExpected, r.totalExpected, index - 1)
    ensures r.(expected := s.expected, totalExpected := s.totalExpected) == s
  {
    var k := index - 1;
    s.(expected := s.expected[k := s.expected[k] + 1],
       totalExpected := s.totalExpected[k := s.totalExpected[k] + 1])
  }

  /** One more in-range reception at `index`: the windowed and the cumulative
      in-range counts of that slot rise by one, and nothing else changes. */
  function IncRxPktInRangeCount(s: Stats, index: int): (r: Stats)
    requires Valid(s) && IsSlot(index)
    ensures Valid(r)
    ensures r.inRange[index - 1] == s.inRange[index - 1] + 1
    ensures r.totalInRange[index - 1] == s.totalInRange[index - 1] + 1
    ensures AgreeExcept(s.inRange, r.inRange, index - 1)
    ensures AgreeExcept(s.totalInRange, r.totalInRange, index - 1)
    ensures r.(inRange := s.inRange, totalInRange := s.totalInRange) == s
  {
    var k := index - 1;
    s.(inRange := s.inRange[k := s.inRange[k] + 1],
       totalInRange := s.totalInRange[k := s.totalInRange[k] + 1])
  }

  /** Overwrites the windowed expected count at `index` only; the cumulative
      vector is untouched and the getter returns the value just set. */
  function SetExpectedRxPktCount(s: Stats, index: int, count: int): (r: Stats)
    requires Valid(s) && IsSlot(index)
    ensures Valid(r)
    ensures r.expected[index - 1] == count
    ensures AgreeExcept(s.expected, r.expected, index - 1)
    ensures r.(expected := s.expected) == s
  {
    s.(expected := s.expected[index - 1 := count])
  }

  /** Overwrites the windowed in-range count at `index` only; the cumulative
      vector is untouched and the getter returns the value just set. */
  function SetRxPktInRangeCount(s: Stats, index: int, count: int): (r: Stats)
    requires Valid(s) && IsSlot(index)
    ensures Valid(r)
    ensures r.inRange[index - 1] == count
    ensures AgreeExcept(s.inRange, r.inRange, index - 1)
    ensures r.(inRange := s.inRange) == s
  {
    s.(inRange := s.inRange[index - 1 := count])
  }

  /** Zeroes the two CUMULATIVE counters of slot `index` and nothing else; the
      windowed counters, despite the name of the operation, are kept. */
  function ResetTotalRxPktCounts(s: Stats, index: int): (r: Stats)
    requires Valid(s) && IsSlot(index)
    ensures Valid(r)
    ensures r.totalExpected[index - 1] == 0 && r.totalInRange[index - 1] == 0
    ensures AgreeExcept(s.totalExpected, r.totalExpected, index - 1)
    ensures AgreeExcept(s.totalInRange, r.totalInRange, index - 1)
    ensures r.(totalExpected := s.totalExpected, totalInRange := s.totalInRange) == s
  {
    var k := index - 1;
    s.(totalExpected := s.totalExpected[k := 0], totalInRange := s.totalInRange[k := 0])
  }

  // ---------------------------------------------------------------------
  // Packet delivery ratio
  // ---------------------------------------------------------------------

  /** `pdr` is the delivery ratio of `inRange` receptions out of `expected`:
      0 when nothing is expected, the exact quotient while it is at most 1,
      and 1 when more receptions were in range than expected. These three
      cases determine `pdr` uniquely (see `DeliveryRatioUnique`). */
  predicate DeliveryRatio(pdr: real, inRange: int, expected: int) {
    && (expected <= 0 ==> pdr == 0.0)
    && (expected > 0 && inRange <= expected ==> pdr * expected as real == inRange as real)
    && (expected > 0 && inRange >= expected ==> pdr == 1.0)
  }

  /** The computation shared by both PDR getters: a quotient over the reals,
      guarded against a non-positive denominator and clamped at 1. */
  function ClampedRatio(inRange: int, expected: int): (pdr: real)
    ensures DeliveryRatio(pdr, inRange, expected)
    ensures pdr <= 1.0
    ensures inRange >= 0 ==> 0.0 <= pdr
  {
    if expected > 0 then
      var q := inRange as real / expected as real;
      if q > 1.0 then 1.0 else q
    else
      0.0
  }

  /** Windowed PDR of slot `index`. */
  function GetPvdPdr(s: Stats, index: int): (pdr: real)
    requires Valid(s) && IsSlot(index)
    ensures DeliveryRatio(pdr, s.inRange[index - 1], s.expected[index - 1])
    ensures pdr <= 1.0
    ensures s.inRange[index - 1] >= 0 ==> 0.0 <= pdr
  {
    ClampedRatio(s.inRange[index - 1], s.expected[index - 1])
  }

  /** Cumulative PDR of slot `index`: the same rule over the total counters. */
  function GetCumulativePvdPdr(s: Stats, index: int): (pdr: real)
    requires Valid(s) && IsSlot(index)
    ensures DeliveryRatio(pdr, s.totalInRange[index - 1], s.totalExpected[index - 1])
    ensures pdr <= 1.0
    ensures s.totalInRange[index - 1] >= 0 ==> 0.0 <= pdr
  {
    ClampedRatio(s.totalInRange[index - 1], s.totalExpected[index - 1])
  }

  // ---------------------------------------------------------------------
  // Properties relating several operations
  // ---------------------------------------------------------------------

  /** The three cases of `DeliveryRatio` leave exactly one possible value. */
  lemma DeliveryRatioUnique(p: real, q: real, inRange: int, expected: int)
    requires DeliveryRatio(p, inRange, expected) && DeliveryRatio(q, inRange, expected)
    ensures p == q
  {
  }

  /** After the reset the cumulative PDR of that slot is 0, its windowed PDR is
      what it was, and resetting once more changes nothing. */
  lemma ResetTotalsEffect(s: Stats, index: int)
    requires Valid(s) && IsSlot(index)
    ensures GetCumulativePvdPdr(ResetTotalRxPktCounts(s, index), index) == 0.0
    ensures GetPvdPdr(ResetTotalRxPktCounts(s, index), index) == GetPvdPdr(s, index)
    ensures GetExpectedRxPktCount(ResetTotalRxPktCounts(s, index), index) == GetExpectedRxPktCount(s, index)
    ensures ResetTotalRxPktCounts(ResetTotalRxPktCounts(s, index), index) == ResetTotalRxPktCounts(s, index)
  {
  }

  /** One more in-range reception never lowers the windowed PDR of its slot. */
  lemma InRangeNeverLowersPdr(s: Stats, index: int)
    requires Valid(s) && IsSlot(index)
    ensures GetPvdPdr(s, index) <= GetPvdPdr(IncRxPktInRangeCount(s, index), index)
  {
  }

  /** Once something is expected at a slot with a non-negative in-range count,
      one more expected reception never raises its windowed PDR. (From an
      expected count of 0 it can: the PDR goes from the guarded 0 to a real
      quotient.) */
  lemma ExpectedNeverRaisesPdr(s: Stats, index: int)
    requires Valid(s) && IsSlot(index)
    requires s.expected[index - 1] > 0 && s.inRange[index - 1] >= 0
    ensures GetPvdPdr(IncExpectedRxPktCount(s, index), index) <= GetPvdPdr(s, index)
  {
    var k := index - 1;
    QuotientShrinks(s.inRange[k] as real, s.expected[k] as real);
  }

  /** A non-negative quotient shrinks when its positive denominator grows by one. */
  lemma QuotientShrinks(n: real, e: real)
    requires n >= 0.0 && e > 0.0
    ensures n / (e + 1.0) <= n / e
  {
    var p0 := n / e;
    var p1 := n / (e + 1.0);
    assert p0 * e == n;
    assert p1 * (e + 1.0) == n;
    assert p1 >= 0.0;
    assert (p0 - p1) * e == p1;
  }

  /** The windowed counters of every slot equal the cumulative ones. */
  predicate InSync(s: Stats) {
    s.expected == s.totalExpected && s.inRange == s.totalInRange
  }

  /** A fresh object is in sync and both increments keep it so; a slot in sync
      reports the same windowed and cumulative PDR. */
  lemma InSyncPreserved(s: Stats, index: int)
    requires Valid(s) && IsSlot(index) && InSync(s)
    ensures InSync(New())
    ensures InSync(IncExpectedRxPktCount(s, index))
    ensures InSync(IncRxPktInRangeCount(s, index))
    ensures GetPvdPdr(s, index) == GetCumulativePvdPdr(s, index)
  {
  }

  // ---------------------------------------------------------------------
  // Traces of operations
  // ---------------------------------------------------------------------

  /** One mutating call on the statistics object. */
  datatype Op =
    | IncTxPkt
    | IncRxPkt
    | IncTxBytes(bytes: int)
    | SetTxPkt(count: int)
    | SetRxPkt(count: int)
    | IncExpected(index: int)
    | IncInRange(index: int)
    | SetExpected(index: int, count: int)
    | SetInRange(index: int, count: int)
    | ResetTotals(index: int)

  /** Slot-addressed operations carry a valid 1-based slot. */
  predicate OpValid(op: Op) {
    match op
    case IncExpected(i) => IsSlot(i)
    case IncInRange(i) => IsSlot(i)
    case SetExpected(i, _) => IsSlot(i)
    case SetInRange(i, _) => IsSlot(i)
    case ResetTotals(i) => IsSlot(i)
    case _ => true
  }

  predicate AllValid(ops: seq<Op>) {
    forall k :: 0 <= k < |ops| ==> OpValid(ops[k])
  }

  /** Performs one operation. */
  function Apply(s: Stats, op: Op): (r: Stats)
    requires Valid(s) && OpValid(op)
    ensures Valid(r)
  {
    match op
    case IncTxPkt => IncTxPktCount(s)
    case IncRxPkt => IncRxPktCount(s)
    case IncTxBytes(n) => IncTxByteCount(s, n)
    case SetTxPkt(n) => SetTxPktCount(s, n)
    case SetRxPkt(n) => SetRxPktCount(s, n)
    case IncExpected(i) => IncExpectedRxPktCount(s, i)
    case IncInRange(i) => IncRxPktInRangeCount(s, i)
    case SetExpected(i, n) => SetExpectedRxPktCount(s, i, n)
    case SetInRange(i, n) => SetRxPktInRangeCount(s, i, n)
    case ResetTotals(i) => ResetTotalRxPktCounts(s, i)
  }

  /** Performs the operations in order. */
  function Replay(s: Stats, ops: seq<Op>): (r: Stats)
    requires Valid(s) && AllValid(ops)
    ensures Valid(r)
    decreases |ops|
  {
    if |ops| == 0 then s else Replay(Apply(s, ops[0]), ops[1..])
  }

  /** Number of `IncExpected(index)` operations in `ops`. */
  function CountExpected(ops: seq<Op>, index: int): nat {
    if |ops| == 0 then 0
    else (if ops[0] == IncExpected(index) then 1 else 0) + CountExpected(ops[1..], index)
  }

  /** Number of `IncInRange(index)` operations in `ops`. */
  function CountInRange(ops: seq<Op>, index: int): nat {
    if |ops| == 0 then 0
    else (if ops[0] == IncInRange(index) then 1 else 0) + CountInRange(ops[1..], index)
  }

  /** Neither overwritten nor reset: the operation does not assign slot `index`. */
  predicate Untouched(op: Op, index: int) {
    match op
    case SetExpected(i, _) => i != index
    case SetInRange(i, _) => i != index
    case ResetTotals(i) => i != index
    case _ => true
  }

  predicate AllUntouched(ops: seq<Op>, index: int) {
    forall k :: 0 <= k < |ops| ==> Untouched(ops[k], index)
  }

  /** One operation that does not assign slot `index` raises each of its
      counters by the number (0 or 1) of increments it addresses to it. */
  lemma ApplyCounts(s: Stats, op: Op, index: int)
    requires Valid(s) && OpValid(op) && IsSlot(index) && Untouched(op, index)
    ensures Apply(s, op).expected[index - 1] == s.expected[index - 1] + CountExpected([op], index)
    ensures Apply(s, op).totalExpected[index - 1] == s.totalExpected[index - 1] + CountExpected([op], index)
    ensures Apply(s, op).inRange[index - 1] == s.inRange[index - 1] + CountInRange([op], index)
    ensures Apply(s, op).totalInRange[index - 1] == s.totalInRange[index - 1] + CountInRange([op], index)
  {
    assert [op][1..] == [];
  }

  /** As long as nothing overwrites or resets slot `index`, each of its four
      counters grows by exactly the number of increments addressed to it. */
  lemma {:induction false} ReplayCounts(s: Stats, ops: seq<Op>, index: int)
    requires Valid(s) && AllValid(ops) && IsSlot(index) && AllUntouched(ops, index)
    ensures Replay(s, ops).expected[index - 1] == s.expected[index - 1] + CountExpected(ops, index)
    ensures Replay(s, ops).totalExpected[index - 1] == s.totalExpected[index - 1] + CountExpected(ops, index)
    ensures Replay(s, ops).inRange[index - 1] == s.inRange[index - 1] + CountInRange(ops, index)
    ensures Replay(s, ops).totalInRange[index - 1] == s.totalInRange[index - 1] + CountInRange(ops, index)
    decreases |ops|
  {
    if |ops| > 0 {
      assert Untouched(ops[0], index) && OpValid(ops[0]);
      ApplyCounts(s, ops[0], index);
      assert ops == [ops[0]] + ops[1..];
      CountConcat([ops[0]], ops[1..], index);
      assert AllUntouched(ops[1..], index) by {
        forall k | 0 <= k < |ops[1..]| ensures Untouched(ops[1..][k], index) {
          assert ops[1..][k] == ops[k + 1];
        }
      }
      ReplayCounts(Apply(s, ops[0]), ops[1..], index);
    }
  }

  /** Starting from a fresh object, a slot that is never overwritten or reset
      reports the same windowed and cumulative PDR, whatever else happened. */
  lemma FreshSlotPdrEqualsCumulative(ops: seq<Op>, index: int)
    requires AllValid(ops) && IsSlot(index) && AllUntouched(ops, index)
    ensures GetPvdPdr(Replay(New(), ops), index) == GetCumulativePvdPdr(Replay(New(), ops), index)
  {
    ReplayCounts(New(), ops, index);
  }

  /** `n` copies of one operation. */
  function Repeat(op: Op, n: nat): (ops: seq<Op>)
    ensures |ops| == n && forall k :: 0 <= k < n ==> ops[k] == op
  {
    seq(n, _ => op)
  }

  /** Counting distributes over concatenation. */
  lemma {:induction false} CountConcat(a: seq<Op>, b: seq<Op>, index: int)
    ensures CountExpected(a + b, index) == CountExpected(a, index) + CountExpected(b, index)
    ensures CountInRange(a + b, index) == CountInRange(a, index) + CountInRange(b, index)
    decreases |a|
  {
    if |a| == 0 {
      assert a + b == b;
    } else {
      assert (a + b)[0] == a[0];
      assert (a + b)[1..] == a[1..] + b;
      CountConcat(a[1..], b, index);
    }
  }

  /** `n` copies of an increment addressed to `index` count `n` times. */
  lemma {:induction false} CountRepeat(op: Op, n: nat, index: int)
    ensures CountExpected(Repeat(op, n), index) == (if op == IncExpected(index) then n else 0)
    ensures CountInRange(Repeat(op, n), index) == (if op == IncInRange(index) then n else 0)
    decreases n
  {
    if n > 0 {
      assert Repeat(op, n)[1..] == Repeat(op, n - 1);
      CountRepeat(op, n - 1, index);
    }
  }

  /** `n` increments addressed to slot `index` form a valid trace that does
      not assign that slot. */
  lemma RepeatIncrementsValid(op: Op, n: nat, index: int)
    requires IsSlot(index) && (op == IncExpected(index) || op == IncInRange(index))
    ensures AllValid(Repeat(op, n)) && AllUntouched(Repeat(op, n), index)
  {
  }

  /** Validity and untouchedness carry over to a concatenation. */
  lemma ConcatValid(a: seq<Op>, b: seq<Op>, index: int)
    requires AllValid(a) && AllValid(b) && AllUntouched(a, index) && AllUntouched(b, index)
    ensures AllValid(a + b) && AllUntouched(a + b, index)
  {
    forall k | 0 <= k < |a + b| ensures OpValid((a + b)[k]) && Untouched((a + b)[k], index) {
      if k < |a| { assert (a + b)[k] == a[k]; } else { assert (a + b)[k] == b[k - |a|]; }
    }
  }

  /** Ten expected and seven in-range receptions at slot 1, in that order. */
  function SevenOfTen(): (ops: seq<Op>)
    ensures AllValid(ops) && AllUntouched(ops, 1)
    ensures CountExpected(ops, 1) == 10 && CountInRange(ops, 1) == 7
  {
    var a := Repeat(IncExpected(1), 10);
    var b := Repeat(IncInRange(1), 7);
    CountConcat(a, b, 1);
    CountRepeat(IncExpected(1), 10, 1);
    CountRepeat(IncInRange(1), 7, 1);
    RepeatIncrementsValid(IncExpected(1), 10, 1);
    RepeatIncrementsValid(IncInRange(1), 7, 1);
    ConcatValid(a, b, 1);
    a + b
  }

  /** Any trace from a fresh object that increments slot 1 ten times as
      expected and seven times as in range, and never overwrites or resets it
      (`SevenOfTen` is one), gives a windowed PDR of 0.7; resetting the slot's
      totals then gives a cumulative PDR of 0 while the windowed expected
      count stays 10. */
  lemma SevenOfTenScenario(ops: seq<Op>)
    requires AllValid(ops) && AllUntouched(ops, 1)
    requires CountExpected(ops, 1) == 10 && CountInRange(ops, 1) == 7
    ensures GetPvdPdr(Replay(New(), ops), 1) == 0.7
    ensures GetCumulativePvdPdr(ResetTotalRxPktCounts(Replay(New(), ops), 1), 1) == 0.0
    ensures GetExpectedRxPktCount(ResetTotalRxPktCounts(Replay(New(), ops), 1), 1) == 10
  {
    var s0 := New();
    assert s0.expected[0] == 0 && s0.inRange[0] == 0;
    ReplayCounts(s0, ops, 1);
    var s := Replay(s0, ops);
    SevenOfTenCounts(s);
    ResetTotalsEffect(s, 1);
  }

  /** The arithmetic step of the scenario: a windowed PDR of 7 out of 10. */
  lemma SevenOfTenCounts(s: Stats)
    requires Valid(s) && s.expected[0] == 10 && s.inRange[0] == 7
    ensures GetPvdPdr(s, 1) == 0.7
  {
  }

  /** Every slot counter is non-negative. */
  predicate NonNegative(s: Stats) {
    && (forall j :: 0 <= j < |s.expected| ==> s.expected[j] >= 0)
    && (forall j :: 0 <= j < |s.inRange| ==> s.inRange[j] >= 0)
    && (forall j :: 0 <= j < |s.totalExpected| ==> s.totalExpected[j] >= 0)
    && (forall j :: 0 <= j < |s.totalInRange| ==> s.totalInRange[j] >= 0)
  }

  /** The operation writes no negative value into a slot. */
  predicate KeepsSign(op: Op) {
    match op
    case SetExpected(_, n) => n >= 0
    case SetInRange(_, n) => n >= 0
    case _ => true
  }

  /** Replaying operations that write no negative slot value keeps every slot
      counter non-negative. */
  lemma {:induction false} ReplayKeepsNonNegative(s: Stats, ops: seq<Op>)
    requires Valid(s) && AllValid(ops) && NonNegative(s)
    requires forall k :: 0 <= k < |ops| ==> KeepsSign(ops[k])
    ensures NonNegative(Replay(s, ops))
    decreases |ops|
  {
    if |ops| > 0 {
      assert OpValid(ops[0]) && KeepsSign(ops[0]);
      var t := Apply(s, ops[0]);
      assert NonNegative(t);
      assert AllValid(ops[1..]) by {
        forall k | 0 <= k < |ops[1..]| ensures OpValid(ops[1..][k]) {
          assert ops[1..][k] == ops[k + 1];
        }
      }
      assert forall k :: 0 <= k < |ops[1..]| ==> KeepsSign(ops[1..][k]) by {
        forall k | 0 <= k < |ops[1..]| ensures KeepsSign(ops[1..][k]) {
          assert ops[1..][k] == ops[k + 1];
        }
      }
      ReplayKeepsNonNegative(t, ops[1..]);
    }
  }

  /** From a fresh object, under operations that write no negative slot value,
      both PDRs of every slot stay within [0, 1]. */
  lemma PdrWithinUnitInterval(ops: seq<Op>, index: int)
    requires AllValid(ops) && IsSlot(index)
    requires forall k :: 0 <= k < |ops| ==> KeepsSign(ops[k])
    ensures 0.0 <= GetPvdPdr(Replay(New(), ops), index) <= 1.0
    ensures 0.0 <= GetCumulativePvdPdr(Replay(New(), ops), index) <= 1.0
  {
    ReplayKeepsNonNegative(New(), ops);
  }
}
