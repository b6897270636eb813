/** The per-CPU part of the sampling report, as values: one line per idle
    state and one per frequency state, each section present only when the
    statistics are available and the CPU's total is above zero.  The
    printed doubles are modelled as exact reals. */
module Report {
  import opened Base
  import opened Counters

  /** `C<state>  <residency ms>  (<percent>%)  <average residency ms>` */
  datatype CxLine = CxLine(state: nat, residencyMs: u64, percent: real, avgResidencyMs: real)

  /** `P<state>  <residency ms>  (<percent>%)` */
  datatype PxLine = PxLine(state: nat, residencyMs: u64, percent: real)

  /** Everything printed for one CPU. */
  datatype CpuReport = CpuReport(cpu: nat, cx: seq<CxLine>, px: seq<PxLine>, avgFreq: int)

  /** `100 * res / (double)total`: the product is formed in unsigned 64
      bits before the conversion. */
  function Percent(res: u64, total: u64): (r: real)
    requires total > 0
    ensures r >= 0.0
    ensures 100 * res < U64 ==> r == (100 * res) as real / total as real
    ensures 100 * res < U64 && res <= total ==> r <= 100.0
  {
    PercentAtMostHundred(res, total);
    Wrap(100 * res) as real / total as real
  }

  /** The unwrapped percentage of a delta no larger than the total is at
      most 100. */
  lemma PercentAtMostHundred(res: u64, total: u64)
    requires total > 0
    ensures 100 * res < U64 && res <= total ==> (100 * res) as real / total as real <= 100.0
  {
    if 100 * res < U64 && res <= total {
      QuotientAtMost((100 * res) as real, 100.0, total as real);
    }
  }

  /** A delta of 2^63 ns against a total of the same size prints 0%, not
      100%: the product 100 * 2^63 wraps to 0 in 64 bits. */
  lemma PercentWrapsForHugeDeltas()
    ensures Percent(U64 / 2, U64 / 2) == 0.0
  {
    assert 100 * (U64 / 2) == 50 * U64;
  }

  /** a / t is at most b when a is at most b * t. */
  lemma QuotientAtMost(a: real, b: real, t: real)
    requires t > 0.0 && a <= b * t
    ensures a / t <= b
  {
    assert a / t * t == a;
  }

  /** `(triggers == 0) ? 0 : (double)res / triggers / 1000000.0`: the
      division by the trigger count happens only when it is not zero. */
  function AvgResidencyMs(res: u64, triggers: u64): (r: real)
    ensures r >= 0.0
    ensures r == 0.0 <==> triggers == 0 || res == 0
  {
    if triggers == 0 then 0.0 else res as real / triggers as real / 1000000.0
  }

  /** The residency counters of a frequency snapshot. */
  function Residencies(pt: seq<PxVal>): (r: seq<u64>)
    ensures |r| == |pt|
    ensures forall j :: 0 <= j < |pt| ==> r[j] == pt[j].residency
  {
    if |pt| == 0 then [] else Residencies(pt[..|pt| - 1]) + [pt[|pt| - 1].residency]
  }

  /** The idle-state lines 0 .. k - 1 of one CPU. */
  function CxLines(end: CxCounters, start: CxCounters, total: u64, k: nat): (lines: seq<CxLine>)
    requires total > 0
    requires k <= |end.residencies| && k <= |start.residencies|
    requires k <= |end.triggers| && k <= |start.triggers|
    ensures |lines| == k
    ensures forall j :: 0 <= j < k ==>
              lines[j] == CxLine(j, Sub64(end.residencies[j], start.residencies[j]) / 1000000,
                                 Percent(Sub64(end.residencies[j], start.residencies[j]), total),
                                 AvgResidencyMs(Sub64(end.residencies[j], start.residencies[j]),
                                                Sub64(end.triggers[j], start.triggers[j])))
  {
    if k == 0 then []
    else
      var res := Sub64(end.residencies[k - 1], start.residencies[k - 1]);
      var triggers := Sub64(end.triggers[k - 1], start.triggers[k - 1]);
      CxLines(end, start, total, k - 1) +
        [CxLine(k - 1, res / 1000000, Percent(res, total), AvgResidencyMs(res, triggers))]
  }

  /** The frequency-state lines 0 .. k - 1 of one CPU. */
  function PxLines(end: seq<u64>, start: seq<u64>, total: u64, k: nat): (lines: seq<PxLine>)
    requires total > 0
    requires k <= |end| && k <= |start|
    ensures |lines| == k
    ensures forall j :: 0 <= j < k ==>
              lines[j] == PxLine(j, Sub64(end[j], start[j]) / 1000000, Percent(Sub64(end[j], start[j]), total))
  {
    if k == 0 then []
    else
      var res := Sub64(end[k - 1], start[k - 1]);
      PxLines(end, start, total, k - 1) + [PxLine(k - 1, res / 1000000, Percent(res, total))]
  }

  /** Whether an idle section for this snapshot pair can be printed
      without reading past a buffer. */
  predicate CxCovered(end: CxCounters, start: CxCounters) {
    end.nr <= |end.residencies| && end.nr <= |start.residencies| &&
    end.nr <= |end.triggers| && end.nr <= |start.triggers|
  }

  predicate PxCovered(end: PxCounters, start: PxCounters) {
    end.total <= |end.pt| && end.total <= |start.pt|
  }

  /** The report of one CPU: the idle section only when idle statistics
      are available and the CPU's idle total is above zero, the frequency
      section likewise, and the average frequency always. */
  function CpuReportOf(cpu: nat, cxCap: bool, sumCx: u64, endCx: CxCounters, startCx: CxCounters,
                       pxCap: bool, sumPx: u64, endPx: PxCounters, startPx: PxCounters,
                       avgFreq: int): (r: CpuReport)
    requires cxCap && sumCx > 0 ==> CxCovered(endCx, startCx)
    requires pxCap && sumPx > 0 ==> PxCovered(endPx, startPx)
    ensures r.cpu == cpu && r.avgFreq == avgFreq
    ensures |r.cx| == (if cxCap && sumCx > 0 then endCx.nr else 0)
    ensures |r.px| == (if pxCap && sumPx > 0 then endPx.total else 0)
  {
    CpuReport(
      cpu,
      if cxCap && sumCx > 0 then CxLines(endCx, startCx, sumCx, endCx.nr) else [],
      if pxCap && sumPx > 0
      then PxLines(Residencies(endPx.pt), Residencies(startPx.pt), sumPx, endPx.total)
      else [],
      avgFreq)
  }

  /** The lines are numbered by state, and the average residency of a
      state is zero exactly when it saw no transition or no residency. */
  lemma CxLinesMeaning(end: CxCounters, start: CxCounters, total: u64, k: nat)
    requires total > 0
    requires k <= |end.residencies| && k <= |start.residencies|
    requires k <= |end.triggers| && k <= |start.triggers|
    ensures forall j :: 0 <= j < k ==>
              && CxLines(end, start, total, k)[j].state == j
              && (CxLines(end, start, total, k)[j].avgResidencyMs == 0.0 <==>
                    end.triggers[j] == start.triggers[j] || end.residencies[j] == start.residencies[j])
  {
  }

  /** The sum of the percentages printed for states 0 .. k - 1, computed
      from the counters. */
  function PercentSum(end: seq<u64>, start: seq<u64>, total: u64, k: nat): real
    requires total > 0
    requires k <= |end| && k <= |start|
  {
    if k == 0 then 0.0 else PercentSum(end, start, total, k - 1) + Percent(Sub64(end[k - 1], start[k - 1]), total)
  }

  /** The sum of the percentages on the first k lines of an idle section. */
  function CxPercentSum(lines: seq<CxLine>, k: nat): real
    requires k <= |lines|
  {
    if k == 0 then 0.0 else CxPercentSum(lines, k - 1) + lines[k - 1].percent
  }

  /** The sum of the percentages on the first k lines of a frequency
      section. */
  function PxPercentSum(lines: seq<PxLine>, k: nat): real
    requires k <= |lines|
  {
    if k == 0 then 0.0 else PxPercentSum(lines, k - 1) + lines[k - 1].percent
  }

  lemma DivAdd(a: real, b: real, t: real)
    requires t != 0.0
    ensures a / t + b / t == (a + b) / t
  {
  }

  /** Without wrap-around, the percentages of states 0 .. k - 1 add up to
      100 times the growth of those states over the total. */
  lemma {:induction false} PercentsPartial(end: seq<u64>, start: seq<u64>, total: u64, k: nat)
    requires total > 0
    requires k <= |end| && k <= |start|
    requires forall j :: 0 <= j < k ==> start[j] <= end[j]
    requires forall j :: 0 <= j < k ==> 100 * (end[j] - start[j]) < U64
    ensures PercentSum(end, start, total, k) == (100 * (Total(end, k) - Total(start, k))) as real / total as real
  {
    if k > 0 {
      PercentsPartial(end, start, total, k - 1);
      var res := end[k - 1] - start[k - 1];
      var before := 100 * (Total(end, k - 1) - Total(start, k - 1));
      DivAdd(before as real, (100 * res) as real, total as real);
    }
  }

  /** The idle lines carry the percentages computed from the counters. */
  lemma {:induction false} CxPercentsOfLines(end: CxCounters, start: CxCounters, total: u64, n: nat, k: nat)
    requires total > 0
    requires k <= n
    requires n <= |end.residencies| && n <= |start.residencies|
    requires n <= |end.triggers| && n <= |start.triggers|
    ensures CxPercentSum(CxLines(end, start, total, n), k) == PercentSum(end.residencies, start.residencies, total, k)
  {
    if k > 0 {
      CxPercentsOfLines(end, start, total, n, k - 1);
    }
  }

  /** The frequency lines carry the percentages computed from the
      counters. */
  lemma {:induction false} PxPercentsOfLines(end: seq<u64>, start: seq<u64>, total: u64, n: nat, k: nat)
    requires total > 0
    requires k <= n && n <= |end| && n <= |start|
    ensures PxPercentSum(PxLines(end, start, total, n), k) == PercentSum(end, start, total, k)
  {
    if k > 0 {
      PxPercentsOfLines(end, start, total, n, k - 1);
    }
  }

  /** Without wrap-around, when the total is the growth of the counters'
      sum, as the sampling handler computes it, the percentages add up to
      exactly 100. */
  lemma PercentsAddUp(end: seq<u64>, start: seq<u64>, k: nat)
    requires k <= |end| && k <= |start|
    requires forall j :: 0 <= j < k ==> start[j] <= end[j]
    requires 100 * (Total(end, k) - Total(start, k)) < U64
    requires DeltaSum(end, start, k) > 0
    ensures PercentSum(end, start, DeltaSum(end, start, k), k) == 100.0
  {
    var total := DeltaSum(end, start, k);
    GrowthOfTotals(end, start, k);
    ScaledGrowthBoundsElements(end, start, k);
    ExactDeltaSum(end, start, k);
    PercentsPartial(end, start, total, k);
    HundredPercent(total);
  }

  /** The percentages of a printed idle section add up to exactly 100
      (without wrap-around). */
  lemma CxPercentsAddUp(end: CxCounters, start: CxCounters)
    requires CxCovered(end, start)
    requires forall j :: 0 <= j < end.nr ==> start.residencies[j] <= end.residencies[j]
    requires 100 * (Total(end.residencies, end.nr) - Total(start.residencies, end.nr)) < U64
    requires DeltaSum(end.residencies, start.residencies, end.nr) > 0
    ensures var lines := CxLines(end, start, DeltaSum(end.residencies, start.residencies, end.nr), end.nr);
            CxPercentSum(lines, |lines|) == 100.0
  {
    var total := DeltaSum(end.residencies, start.residencies, end.nr);
    PercentsAddUp(end.residencies, start.residencies, end.nr);
    CxPercentsOfLines(end, start, total, end.nr, end.nr);
  }

  /** The percentages of a printed frequency section add up to exactly 100
      (without wrap-around). */
  lemma PxPercentsAddUp(end: PxCounters, start: PxCounters)
    requires PxCovered(end, start)
    requires forall j :: 0 <= j < end.total ==> start.pt[j].residency <= end.pt[j].residency
    requires 100 * (Total(Residencies(end.pt), end.total) - Total(Residencies(start.pt), end.total)) < U64
    requires DeltaSum(Residencies(end.pt), Residencies(start.pt), end.total) > 0
    ensures var e, s := Residencies(end.pt), Residencies(start.pt);
            var lines := PxLines(e, s, DeltaSum(e, s, end.total), end.total);
            PxPercentSum(lines, |lines|) == 100.0
  {
    var e, s := Residencies(end.pt), Residencies(start.pt);
    PercentsAddUp(e, s, end.total);
    PxPercentsOfLines(e, s, DeltaSum(e, s, end.total), end.total, end.total);
  }

  /** (100 * t) / t is 100. */
  lemma HundredPercent(t: u64)
    requires t > 0
    ensures (100 * t) as real / t as real == 100.0
  {
    assert (100 * t) as real == 100.0 * t as real;
  }

  /** When 100 times the total growth fits in 64 bits, so does 100 times
      the growth of each counter. */
  lemma ScaledGrowthBoundsElements(end: seq<u64>, start: seq<u64>, k: nat)
    requires k <= |end| && k <= |start|
    requires forall j :: 0 <= j < k ==> start[j] <= end[j]
    requires 100 * (Total(end, k) - Total(start, k)) < U64
    ensures forall j :: 0 <= j < k ==> 100 * (end[j] - start[j]) < U64
  {
    forall j | 0 <= j < k
      ensures 100 * (end[j] - start[j]) < U64
    {
      GrowthBoundsElement(end, start, k, j);
    }
  }

  /** Two states whose counters are already near 2^62 and grew by 30 and
      70: nothing wraps, so they print 30% and 70%, which add up to 100. */
  lemma PercentsOfLargeCounters()
    ensures var end, start := [0x4000_0000_0000_001E, 0x4000_0000_0000_0046],
                              [0x4000_0000_0000_0000, 0x4000_0000_0000_0000];
            var total := DeltaSum(end, start, 2);
            total == 100 &&
            Percent(Sub64(end[0], start[0]), total) == 30.0 &&
            Percent(Sub64(end[1], start[1]), total) == 70.0 &&
            PercentSum(end, start, total, 2) == 100.0
  {
    var end, start := [0x4000_0000_0000_001E, 0x4000_0000_0000_0046],
                      [0x4000_0000_0000_0000, 0x4000_0000_0000_0000];
    PercentsAddUp(end, start, 2);
  }

  /** Three idle states with residencies [100, 200, 300] and transitions
      [1, 2, 3] at the start and [150, 260, 300] and [2, 3, 3] at the end:
      the total is 110, the percentages 5000/110, 6000/110 and 0, the
      average residencies 50 and 60 nanoseconds and 0. */
  lemma ReportExample()
    ensures var start := CxCounters(3, [1, 2, 3], [100, 200, 300]);
      var end := CxCounters(3, [2, 3, 3], [150, 260, 300]);
      var total := DeltaSum(end.residencies, start.residencies, 3);
      total == 110 &&
      CxLines(end, start, total, 3) ==
        [CxLine(0, 0, 5000.0 / 110.0, 50.0 / 1000000.0),
         CxLine(1, 0, 6000.0 / 110.0, 60.0 / 1000000.0),
         CxLine(2, 0, 0.0, 0.0)]
  {
    var start := CxCounters(3, [1, 2, 3], [100, 200, 300]);
    var end := CxCounters(3, [2, 3, 3], [150, 260, 300]);
    DeltaSumExample();
    var lines := CxLines(end, start, 110, 3);
    assert lines[0] == CxLine(0, 0, 5000.0 / 110.0, 50.0 / 1000000.0);
    assert lines[1] == CxLine(1, 0, 6000.0 / 110.0, 60.0 / 1000000.0);
    assert lines[2] == CxLine(2, 0, 0.0, 0.0);
  }
}
