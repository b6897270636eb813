/** The unsigned 64-bit arithmetic of the sampling report: per-CPU totals
    of residency deltas, and elapsed time from two microsecond stamps. */
module Counters {
  import opened Base

  /** Reducing before or after an addition gives the same result. */
  lemma WrapAdd(x: int, y: int)
    ensures Wrap(Wrap(x) + Wrap(y)) == Wrap(x + y)
  {
    var qx, qy := x / U64, y / U64;
    assert x == qx * U64 + Wrap(x);
    assert y == qy * U64 + Wrap(y);
    assert x + y == (qx + qy) * U64 + (Wrap(x) + Wrap(y));
  }

  /** Reducing before or after a subtraction gives the same result. */
  lemma WrapSub(x: int, y: int)
    ensures Wrap(Wrap(x) - Wrap(y)) == Wrap(x - y)
  {
    var qx, qy := x / U64, y / U64;
    assert x == qx * U64 + Wrap(x);
    assert y == qy * U64 + Wrap(y);
    assert x - y == (qx - qy) * U64 + (Wrap(x) - Wrap(y));
  }

  /** The exact sum of the first k counters of a sequence. */
  function Total(s: seq<u64>, k: nat): (r: int)
    requires k <= |s|
    ensures r >= 0
    ensures k > 0 ==> r >= s[k - 1]
  {
    if k == 0 then 0 else Total(s, k - 1) + s[k - 1]
  }

  /** What `sum += end[j] - start[j]` for j = 0 .. k - 1 leaves in a
      uint64_t that starts at 0: every difference and every partial sum is
      reduced modulo 2^64. */
  function DeltaSum(end: seq<u64>, start: seq<u64>, k: nat): (r: u64)
    requires k <= |end| && k <= |start|
    ensures (forall j :: 0 <= j < k ==> end[j] == start[j]) ==> r == 0
  {
    if k == 0 then 0 else Add64(DeltaSum(end, start, k - 1), Sub64(end[k - 1], start[k - 1]))
  }

  /** One accumulation step on a reduced value is the reduced exact step. */
  lemma AccumulateStep(acc: u64, x: int, a: u64, b: u64, y: int)
    requires acc == Wrap(x)
    requires y == x + (a as int - b as int)
    ensures Add64(acc, Sub64(a, b)) == Wrap(y)
  {
    WrapAdd(x, a as int - b as int);
  }

  /** The accumulated value is the difference of the two exact totals,
      reduced once modulo 2^64: intermediate wrap-arounds cancel out. */
  lemma {:induction false} DeltaSumIsDifference(end: seq<u64>, start: seq<u64>, k: nat)
    requires k <= |end| && k <= |start|
    ensures DeltaSum(end, start, k) == Wrap(Total(end, k) - Total(start, k))
  {
    if k > 0 {
      DeltaSumIsDifference(end, start, k - 1);
      AccumulateStep(DeltaSum(end, start, k - 1), Total(end, k - 1) - Total(start, k - 1),
                     end[k - 1], start[k - 1], Total(end, k) - Total(start, k));
    }
  }

  /** Counters that did not decrease: the total of the differences is not
      negative, and positive exactly when some counter grew. */
  lemma {:induction false} GrowthOfTotals(end: seq<u64>, start: seq<u64>, k: nat)
    requires k <= |end| && k <= |start|
    requires forall j :: 0 <= j < k ==> start[j] <= end[j]
    ensures 0 <= Total(end, k) - Total(start, k) <= Total(end, k)
    ensures Total(end, k) - Total(start, k) > 0 <==> exists j :: 0 <= j < k && start[j] < end[j]
  {
    if k > 0 {
      GrowthOfTotals(end, start, k - 1);
      if start[k - 1] < end[k - 1] {
        assert exists j :: 0 <= j < k && start[j] < end[j];
      }
      if exists j :: 0 <= j < k && start[j] < end[j] {
        var j :| 0 <= j < k && start[j] < end[j];
        if j < k - 1 {
          assert exists j' :: 0 <= j' < k - 1 && start[j'] < end[j'];
        }
      }
    }
  }

  /** Counters that did not decrease: the growth of one counter is at most
      the growth of the total. */
  lemma {:induction false} GrowthBoundsElement(end: seq<u64>, start: seq<u64>, k: nat, j: nat)
    requires j < k <= |end| && k <= |start|
    requires forall i :: 0 <= i < k ==> start[i] <= end[i]
    ensures end[j] - start[j] <= Total(end, k) - Total(start, k)
  {
    GrowthOfTotals(end, start, k - 1);
    if j < k - 1 {
      GrowthBoundsElement(end, start, k - 1, j);
    }
  }

  /** Without wrap-around (counters only grow and their total growth fits
      in 64 bits) the accumulated value is the exact total growth, and it
      is above zero exactly when some state accumulated residency. */
  lemma ExactDeltaSum(end: seq<u64>, start: seq<u64>, k: nat)
    requires k <= |end| && k <= |start|
    requires forall j :: 0 <= j < k ==> start[j] <= end[j]
    requires Total(end, k) - Total(start, k) < U64
    ensures DeltaSum(end, start, k) == Total(end, k) - Total(start, k)
    ensures DeltaSum(end, start, k) > 0 <==> exists j :: 0 <= j < k && start[j] < end[j]
  {
    DeltaSumIsDifference(end, start, k);
    GrowthOfTotals(end, start, k);
  }

  /** With counters [100, 200, 300] at the start and [150, 260, 300] at the
      end the total is 110. */
  lemma DeltaSumExample()
    ensures DeltaSum([150, 260, 300], [100, 200, 300], 3) == 110
  {
  }

  /** Even a counter that wrapped around between the snapshots contributes
      its true growth, provided that growth is below 2^64. */
  lemma DeltaSumAcrossWrap()
    ensures DeltaSum([5], [U64 - 10], 1) == 15
  {
  }

  /** struct timeval */
  datatype TimeVal = TimeVal(sec: int, usec: int)

  /** The exact number of microseconds a timeval stands for. */
  function Micros(tv: TimeVal): int {
    tv.sec * 1000000 + tv.usec
  }

  /** `tv_sec * 1000000UL + tv_usec` as computed in unsigned 64-bit
      arithmetic. */
  function Stamp(tv: TimeVal): (r: u64)
    ensures 0 <= Micros(tv) < U64 ==> r == Micros(tv)
  {
    Wrap(tv.sec * 1000000 + tv.usec)
  }

  /** `(usec_end - usec_start) / 1000UL`. */
  function ElapsedMs(start: u64, end: u64): (r: u64)
    ensures start <= end ==> r == (end - start) / 1000
  {
    Sub64(end, start) / 1000
  }

  /** The reported time is the true elapsed time in whole milliseconds
      whenever it is less than 2^64 microseconds, even if the stamps
      themselves wrapped. */
  lemma ElapsedIsTrueTime(t0: TimeVal, t1: TimeVal)
    requires 0 <= Micros(t1) - Micros(t0) < U64
    ensures ElapsedMs(Stamp(t0), Stamp(t1)) == (Micros(t1) - Micros(t0)) / 1000
  {
    WrapSub(Micros(t1), Micros(t0));
  }
}
