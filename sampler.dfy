/** The `start` command: start_gather_func allocates the scratch arrays,
    takes the start snapshots and arms the signals; the handler it installs
    takes the end snapshots, accumulates per-CPU residency totals in place
    and prints the report.

    The scratch arrays have 2 * n entries (n = max_cpu_nr) and are split
    into halves by index: sum[i] is sum_cx[i] and sum[n + i] is sum_px[i];
    cx[i] is cxstat_start[i] and cx[n + i] is cxstat_end[i]; likewise px.
    What the readers return for each CPU, and the struct they leave behind,
    are inputs (Read values), so the sampler works with the readers as
    written or corrected alike. */
module Sampling {
  import opened Base
  import opened Counters
  import opened Report

  /** The code one reader call returned and the struct it left behind. */
  datatype Read<C> = Read(code: int, stat: Snapshot<C>)

  /** The growth of a CPU's idle residencies that the handler accumulates
      into sum_cx. */
  function CxGrowth(end: CxCounters, start: CxCounters): u64
    requires end.nr <= |end.residencies| && end.nr <= |start.residencies|
  {
    DeltaSum(end.residencies, start.residencies, end.nr)
  }

  /** The growth of a CPU's frequency-state residencies accumulated into
      sum_px. */
  function PxGrowth(end: PxCounters, start: PxCounters): u64
    requires end.total <= |end.pt| && end.total <= |start.pt|
  {
    DeltaSum(Residencies(end.pt), Residencies(start.pt), end.total)
  }

  /** What the handler leaves in sum_cx[i]: the growth when idle
      statistics are available and the end read succeeded, else 0. */
  function CxTotal(cxCap: bool, r: Read<CxCounters>, start: CxCounters): (t: u64)
    requires cxCap && r.code == 0 ==> CxCovered(r.stat.counters, start)
    ensures !(cxCap && r.code == 0) ==> t == 0
    ensures cxCap && r.code == 0 ==>
              t == Wrap(Total(r.stat.counters.residencies, r.stat.counters.nr)
                        - Total(start.residencies, r.stat.counters.nr))
  {
    if cxCap && r.code == 0 then
      DeltaSumIsDifference(r.stat.counters.residencies, start.residencies, r.stat.counters.nr);
      CxGrowth(r.stat.counters, start)
    else
      0
  }

  /** What the handler leaves in sum_px[i]. */
  function PxTotal(pxCap: bool, r: Read<PxCounters>, start: PxCounters): (t: u64)
    requires pxCap && r.code == 0 ==> PxCovered(r.stat.counters, start)
    ensures !(pxCap && r.code == 0) ==> t == 0
    ensures pxCap && r.code == 0 ==>
              t == Wrap(Total(Residencies(r.stat.counters.pt), r.stat.counters.total)
                        - Total(Residencies(start.pt), r.stat.counters.total))
  {
    if pxCap && r.code == 0 then
      DeltaSumIsDifference(Residencies(r.stat.counters.pt), Residencies(start.pt),
                           r.stat.counters.total);
      PxGrowth(r.stat.counters, start)
    else
      0
  }

  /** What `start` ends with. */
  datatype StartOutcome =
    | NoClock          // gettimeofday failed
    | OutOfMemory      // one of the four scratch allocations failed
    | Disabled         // both probes reported -ENODEV
    | SignalFailed     // installing a handler failed
    | Sampling(alarmSeconds: int)  // waiting; an alarm is armed when alarmSeconds > 0

  /** The optional `[seconds]` argument: only a lone argument is read, and
      one that does not parse leaves the timeout at 0. */
  function Timeout(args: seq<Arg>): (t: int)
    ensures t != 0 ==> |args| == 1 && args[0].asInt == Some(t)
    ensures |args| == 1 && args[0].asInt.Some? ==> t == args[0].asInt.value
  {
    if |args| == 1 && args[0].asInt.Some? then args[0].asInt.value else 0
  }

  class Sampler {
    /** max_cpu_nr */
    const n: nat
    /** sum_cx = sum[0 .. n), sum_px = sum[n .. 2n) */
    const sum: array<u64>
    /** cxstat_start = cx[0 .. n), cxstat_end = cx[n .. 2n) */
    const cx: array<CxStat>
    /** pxstat_start = px[0 .. n), pxstat_end = px[n .. 2n) */
    const px: array<PxStat>
    const avgfreq: array<int>
    /** usec_start */
    const usecStart: u64

    ghost predicate Valid()
      reads this
    {
      sum.Length == 2 * n && cx.Length == 2 * n && px.Length == 2 * n && avgfreq.Length == n
    }

    /** The four allocations of start_gather_func followed by their
        memset(0). */
    constructor (n: nat, usecStart: u64)
      ensures Valid()
      ensures this.n == n && this.usecStart == usecStart
      ensures fresh(sum) && fresh(cx) && fresh(px) && fresh(avgfreq)
      ensures forall k :: 0 <= k < 2 * n ==> sum[k] == 0 && cx[k] == ZeroCx && px[k] == ZeroPx
      ensures forall k :: 0 <= k < n ==> avgfreq[k] == 0
    {
      this.n := n;
      this.usecStart := usecStart;
      sum := new u64[2 * n](_ => 0);
      cx := new CxStat[2 * n](_ => ZeroCx);
      px := new PxStat[2 * n](_ => ZeroPx);
      avgfreq := new int[n](_ => 0);
    }

    /** The start loop: the readers fill the start halves in place, and
        the average frequency is stored when it could be read. */
    method TakeStartSnapshots(startCx: seq<CxStat>, startPx: seq<PxStat>, startAvg: seq<Option<int>>)
      requires Valid()
      requires |startCx| == n && |startPx| == n && |startAvg| == n
      modifies cx, px, avgfreq
      ensures forall k :: 0 <= k < n ==> cx[k] == startCx[k] && px[k] == startPx[k]
      ensures forall k :: n <= k < 2 * n ==> cx[k] == old(cx[k]) && px[k] == old(px[k])
      ensures forall k :: 0 <= k < n ==>
                avgfreq[k] == (if startAvg[k].Some? then startAvg[k].value else old(avgfreq[k]))
    {
      var i := 0;
      while i < n
        invariant 0 <= i <= n
        invariant forall k :: 0 <= k < i ==> cx[k] == startCx[k] && px[k] == startPx[k]
        invariant forall k :: i <= k < 2 * n ==> cx[k] == old(cx[k]) && px[k] == old(px[k])
        invariant forall k :: 0 <= k < i ==>
                    avgfreq[k] == (if startAvg[k].Some? then startAvg[k].value else old(avgfreq[k]))
        invariant forall k :: i <= k < n ==> avgfreq[k] == old(avgfreq[k])
      {
        cx[i] := startCx[i];
        px[i] := startPx[i];
        if startAvg[i].Some? {
          avgfreq[i] := startAvg[i].value;
        }
        i := i + 1;
      }
    }

    /** The idle half of the handler: every CPU's end snapshot is read
        into the end half, and the residency growth of each CPU whose read
        succeeded is added to sum_cx, state by state. */
    method AccumulateCx(endCx: seq<Read<CxCounters>>)
      requires Valid()
      requires |endCx| == n
      requires forall i :: 0 <= i < n && endCx[i].code == 0 ==>
                 endCx[i].stat.counters.nr <= |endCx[i].stat.counters.residencies| &&
                 endCx[i].stat.counters.nr <= |cx[i].counters.residencies|
      modifies sum, cx
      ensures Valid()
      ensures forall i :: 0 <= i < n ==> cx[i] == old(cx[i]) && cx[n + i] == endCx[i].stat
      ensures forall i :: 0 <= i < n ==>
                sum[i] == if endCx[i].code == 0
                          then Add64(old(sum[i]), CxGrowth(endCx[i].stat.counters, cx[i].counters))
                          else old(sum[i])
      ensures forall k :: n <= k < 2 * n ==> sum[k] == old(sum[k])
    {
      var i := 0;
      while i < n
        invariant 0 <= i <= n
        invariant forall k :: 0 <= k < n ==> cx[k] == old(cx[k])
        invariant forall k :: 0 <= k < i ==> cx[n + k] == endCx[k].stat
        invariant forall k :: 0 <= k < i ==>
                    sum[k] == if endCx[k].code == 0
                              then Add64(old(sum[k]), CxGrowth(endCx[k].stat.counters, cx[k].counters))
                              else old(sum[k])
        invariant forall k :: i <= k < 2 * n ==> sum[k] == old(sum[k])
      {
        EndCx(i, endCx[i]);
        i := i + 1;
      }
    }

    /** The frequency half of the handler, as AccumulateCx with the
        residencies of the frequency states. */
    method AccumulatePx(endPx: seq<Read<PxCounters>>)
      requires Valid()
      requires |endPx| == n
      requires forall i :: 0 <= i < n && endPx[i].code == 0 ==>
                 endPx[i].stat.counters.total <= |endPx[i].stat.counters.pt| &&
                 endPx[i].stat.counters.total <= |px[i].counters.pt|
      modifies sum, px
      ensures Valid()
      ensures forall i :: 0 <= i < n ==> px[i] == old(px[i]) && px[n + i] == endPx[i].stat
      ensures forall i :: 0 <= i < n ==>
                sum[n + i] == if endPx[i].code == 0
                              then Add64(old(sum[n + i]), PxGrowth(endPx[i].stat.counters, px[i].counters))
                              else old(sum[n + i])
      ensures forall k :: 0 <= k < n ==> sum[k] == old(sum[k])
    {
      var i := 0;
      while i < n
        invariant 0 <= i <= n
        invariant forall k :: 0 <= k < n ==> px[k] == old(px[k])
        invariant forall k :: 0 <= k < i ==> px[n + k] == endPx[k].stat
        invariant forall k :: n <= k < n + i ==>
                    sum[k] == if endPx[k - n].code == 0
                              then Add64(old(sum[k]), PxGrowth(endPx[k - n].stat.counters, px[k - n].counters))
                              else old(sum[k])
        invariant forall k :: 0 <= k < n ==> sum[k] == old(sum[k])
        invariant forall k :: n + i <= k < 2 * n ==> sum[k] == old(sum[k])
      {
        EndPx(i, endPx[i]);
        i := i + 1;
      }
    }

    /** One CPU of AccumulateCx. */
    method EndCx(i: nat, r: Read<CxCounters>)
      requires Valid() && i < n
      requires r.code == 0 ==> r.stat.counters.nr <= |r.stat.counters.residencies| &&
                               r.stat.counters.nr <= |cx[i].counters.residencies|
      modifies sum, cx
      ensures cx[n + i] == r.stat
      ensures forall k :: 0 <= k < 2 * n && k != n + i ==> cx[k] == old(cx[k])
      ensures sum[i] == if r.code == 0 then Add64(old(sum[i]), CxGrowth(r.stat.counters, cx[i].counters))
                        else old(sum[i])
      ensures forall k :: 0 <= k < 2 * n && k != i ==> sum[k] == old(sum[k])
    {
      cx[n + i] := r.stat;
      if r.code == 0 {
        var end, start := cx[n + i].counters, cx[i].counters;
        AddGrowth(i, end.residencies, start.residencies, end.nr);
      }
    }

    /** One CPU of AccumulatePx. */
    method EndPx(i: nat, r: Read<PxCounters>)
      requires Valid() && i < n
      requires r.code == 0 ==> r.stat.counters.total <= |r.stat.counters.pt| &&
                               r.stat.counters.total <= |px[i].counters.pt|
      modifies sum, px
      ensures px[n + i] == r.stat
      ensures forall k :: 0 <= k < 2 * n && k != n + i ==> px[k] == old(px[k])
      ensures sum[n + i] == if r.code == 0 then Add64(old(sum[n + i]), PxGrowth(r.stat.counters, px[i].counters))
                            else old(sum[n + i])
      ensures forall k :: 0 <= k < 2 * n && k != n + i ==> sum[k] == old(sum[k])
    {
      px[n + i] := r.stat;
      if r.code == 0 {
        var end, start := px[n + i].counters, px[i].counters;
        AddGrowth(n + i, Residencies(end.pt), Residencies(start.pt), end.total);
      }
    }

    /** `for (j = 0; j < k; j++) sum[at] += end[j] - start[j];` */
    method AddGrowth(at: nat, end: seq<u64>, start: seq<u64>, k: nat)
      requires at < sum.Length
      requires k <= |end| && k <= |start|
      modifies sum
      ensures sum[at] == Add64(old(sum[at]), DeltaSum(end, start, k))
      ensures forall m :: 0 <= m < sum.Length && m != at ==> sum[m] == old(sum[m])
    {
      var j := 0;
      while j < k
        invariant 0 <= j <= k
        invariant sum[at] == Add64(old(sum[at]), DeltaSum(end, start, j))
        invariant forall m :: 0 <= m < sum.Length && m != at ==> sum[m] == old(sum[m])
      {
        Add64Assoc(old(sum[at]), DeltaSum(end, start, j), Sub64(end[j], start[j]));
        sum[at] := Add64(sum[at], Sub64(end[j], start[j]));
        j := j + 1;
      }
    }
  
    /** The average-frequency loop of the handler: a frequency is stored
        only when it could be read. */
    method ReadAvgFreqs(avgs: seq<Option<int>>)
      requires Valid() && |avgs| == n
      modifies avgfreq
      ensures forall i :: 0 <= i < n ==>
                avgfreq[i] == if avgs[i].Some? then avgs[i].value else old(avgfreq[i])
    {
      var i := 0;
      while i < n
        invariant 0 <= i <= n
        invariant forall k :: 0 <= k < i ==>
                    avgfreq[k] == if avgs[k].Some? then avgs[k].value else old(avgfreq[k])
        invariant forall k :: i <= k < n ==> avgfreq[k] == old(avgfreq[k])
      {
        if avgs[i].Some? {
          avgfreq[i] := avgs[i].value;
        }
        i := i + 1;
      }
    }

    /** Every section the report prints lies within the snapshots it
        reads: an idle section needs the end and start idle snapshots to
        hold nr states, a frequency section total states. */
    ghost predicate Printable(cxCap: bool, pxCap: bool)
      requires Valid()
      reads this, sum, cx, px
    {
      && (forall i :: 0 <= i < n && cxCap && sum[i] > 0 ==> CxCovered(cx[n + i].counters, cx[i].counters))
      && (forall i :: 0 <= i < n && pxCap && sum[n + i] > 0 ==> PxCovered(px[n + i].counters, px[i].counters))
    }

    /** The report of CPU i from the scratch arrays. */
    function ReportOf(cxCap: bool, pxCap: bool, i: nat): (r: CpuReport)
      requires Valid() && Printable(cxCap, pxCap) && i < n
      reads this, sum, cx, px, avgfreq
      ensures r.cpu == i && r.avgFreq == avgfreq[i]
      ensures r.cx != [] ==> cxCap && sum[i] > 0
      ensures r.px != [] ==> pxCap && sum[n + i] > 0
    {
      CpuReportOf(i, cxCap, sum[i], cx[n + i].counters, cx[i].counters,
                  pxCap, sum[n + i], px[n + i].counters, px[i].counters, avgfreq[i])
    }

    /** The report loop of the handler, as values. */
    method BuildReports(cxCap: bool, pxCap: bool) returns (reports: seq<CpuReport>)
      requires Valid() && Printable(cxCap, pxCap)
      ensures |reports| == n
      ensures forall i :: 0 <= i < n ==> reports[i] == ReportOf(cxCap, pxCap, i)
    {
      reports := [];
      var i := 0;
      while i < n
        invariant 0 <= i <= n
        invariant |reports| == i
        invariant forall k :: 0 <= k < i ==> reports[k] == ReportOf(cxCap, pxCap, k)
      {
        reports := reports + [CpuReportOf(i, cxCap, sum[i], cx[n + i].counters, cx[i].counters,
                                          pxCap, sum[n + i], px[n + i].counters, px[i].counters, avgfreq[i])];
        i := i + 1;
      }
    }

    /** The two snapshot loops of the handler, each run only when its
        statistics are available; they start from the zeroed totals. */
    method TakeEndSnapshots(cxCap: bool, pxCap: bool, endCx: seq<Read<CxCounters>>, endPx: seq<Read<PxCounters>>)
      requires Valid()
      requires |endCx| == n && |endPx| == n && avgfreq.Length == n
      requires forall k :: 0 <= k < 2 * n ==> sum[k] == 0
      requires forall i :: 0 <= i < n && cxCap && endCx[i].code == 0 ==>
                 CxCovered(endCx[i].stat.counters, cx[i].counters)
      requires forall i :: 0 <= i < n && pxCap && endPx[i].code == 0 ==>
                 PxCovered(endPx[i].stat.counters, px[i].counters)
      modifies sum, cx, px
      ensures forall i :: 0 <= i < n ==> cx[i] == old(cx[i]) && px[i] == old(px[i])
      ensures forall k :: n <= k < 2 * n ==>
                && cx[k] == (if cxCap then endCx[k - n].stat else old(cx[k]))
                && px[k] == (if pxCap then endPx[k - n].stat else old(px[k]))
      ensures forall i :: 0 <= i < n ==> sum[i] == CxTotal(cxCap, endCx[i], old(cx[i]).counters)
      ensures forall k :: n <= k < 2 * n ==> sum[k] == PxTotal(pxCap, endPx[k - n], old(px[k - n]).counters)
      ensures Printable(cxCap, pxCap)
    {
      if cxCap {
        AccumulateCx(endCx);
      }
      if pxCap {
        AccumulatePx(endPx);
      }
      forall i | 0 <= i < n && cxCap && sum[i] > 0
        ensures CxCovered(cx[n + i].counters, cx[i].counters)
      {
        assert endCx[i].code == 0;
      }
      forall i | 0 <= i < n && pxCap && sum[n + i] > 0
        ensures PxCovered(px[n + i].counters, px[i].counters)
      {
        assert endPx[i].code == 0;
      }
    }

    /** signal_int_handler up to its clean-up: without a clock nothing
        happens; otherwise the end snapshots are taken where the
        statistics are available, the totals accumulated, the average
        frequencies read again and the report produced.  The start halves
        are left untouched. */
    method Interrupt(clock: Option<TimeVal>, cxProbe: int, pxProbe: int, endCx: seq<Read<CxCounters>>,
                     endPx: seq<Read<PxCounters>>, endAvg: seq<Option<int>>) returns (report: Option<Printout>)
      requires Valid()
      requires |endCx| == n && |endPx| == n && |endAvg| == n
      requires forall k :: 0 <= k < 2 * n ==> sum[k] == 0
      requires forall i :: 0 <= i < n && cxProbe != -ENODEV && endCx[i].code == 0 ==>
                 CxCovered(endCx[i].stat.counters, cx[i].counters)
      requires forall i :: 0 <= i < n && pxProbe != -ENODEV && endPx[i].code == 0 ==>
                 PxCovered(endPx[i].stat.counters, px[i].counters)
      modifies sum, cx, px, avgfreq
      ensures clock.None? ==> report == None && unchanged(sum, cx, px, avgfreq)
      ensures forall i :: 0 <= i < n ==> cx[i] == old(cx[i]) && px[i] == old(px[i])
      ensures clock.Some? ==> forall k :: n <= k < 2 * n ==>
                && cx[k] == (if cxProbe != -ENODEV then endCx[k - n].stat else old(cx[k]))
                && px[k] == (if pxProbe != -ENODEV then endPx[k - n].stat else old(px[k]))
      ensures clock.Some? ==> forall i :: 0 <= i < n ==>
                sum[i] == CxTotal(cxProbe != -ENODEV, endCx[i], old(cx[i]).counters)
      ensures clock.Some? ==> forall k :: n <= k < 2 * n ==>
                sum[k] == PxTotal(pxProbe != -ENODEV, endPx[k - n], old(px[k - n]).counters)
      ensures clock.Some? ==> forall i :: 0 <= i < n ==>
                avgfreq[i] == (if endAvg[i].Some? then endAvg[i].value else old(avgfreq[i]))
      ensures clock.Some? ==> Printable(cxProbe != -ENODEV, pxProbe != -ENODEV)
      ensures clock.Some? ==> report.Some? && report.value.elapsedMs == ElapsedMs(usecStart, Stamp(clock.value))
      ensures clock.Some? && report.Some? ==>
                |report.value.cpus| == n &&
                forall i :: 0 <= i < n ==> report.value.cpus[i] == ReportOf(cxProbe != -ENODEV, pxProbe != -ENODEV, i)
    {
      if clock.None? {
        return None;
      }
      var usecEnd := Stamp(clock.value);
      var cxCap, pxCap := cxProbe != -ENODEV, pxProbe != -ENODEV;
      TakeEndSnapshots(cxCap, pxCap, endCx, endPx);
      ghost var sums, cxs, pxs := sum[..], cx[..], px[..];
      ReadAvgFreqs(endAvg);
      assert sum[..] == sums && cx[..] == cxs && px[..] == pxs;
      var cpus := BuildReports(cxCap, pxCap);
      report := Some(Printout(ElapsedMs(usecStart, usecEnd), cpus));
    }
  }

  /** What the handler prints before cleaning up: the elapsed time and
      every CPU's report. */
  datatype Printout = Printout(elapsedMs: u64, cpus: seq<CpuReport>)

  /** start_gather_func up to pause(): the clock, the four allocations,
      the gate on both statistics being unavailable, the start snapshots
      (the structs the readers leave behind and the average frequencies
      read) and the two signal handlers, the alarm one only with a
      positive timeout. */
  method StartGather(args: seq<Arg>, maxCpuNr: nat, clock: Option<TimeVal>, allocOk: bool,
                     cxProbe: int, pxProbe: int, startCx: seq<CxStat>, startPx: seq<PxStat>,
                     startAvg: seq<Option<int>>, sigintOk: bool, sigalrmOk: bool)
    returns (outcome: StartOutcome, s: Sampler?)
    requires |startCx| == maxCpuNr && |startPx| == maxCpuNr && |startAvg| == maxCpuNr
    ensures clock.None? ==> outcome == NoClock
    ensures clock.Some? && !allocOk ==> outcome == OutOfMemory
    ensures clock.Some? && allocOk && cxProbe == -ENODEV && pxProbe == -ENODEV ==> outcome == Disabled
    ensures clock.Some? && allocOk && !(cxProbe == -ENODEV && pxProbe == -ENODEV) ==>
              outcome == if !sigintOk || (Timeout(args) > 0 && !sigalrmOk) then SignalFailed
                         else Sampling(Timeout(args))
    ensures s != null <==> outcome.Sampling?
    ensures s != null ==>
              && fresh(s) && fresh(s.sum) && fresh(s.cx) && fresh(s.px) && fresh(s.avgfreq)
              && s.Valid() && s.n == maxCpuNr && s.usecStart == Stamp(clock.value)
              && (forall k :: 0 <= k < 2 * maxCpuNr ==> s.sum[k] == 0)
              && (forall i :: 0 <= i < maxCpuNr ==> s.cx[i] == startCx[i] && s.px[i] == startPx[i])
              && (forall i :: maxCpuNr <= i < 2 * maxCpuNr ==> s.cx[i] == ZeroCx && s.px[i] == ZeroPx)
              && (forall i :: 0 <= i < maxCpuNr ==>
                    s.avgfreq[i] == (if startAvg[i].Some? then startAvg[i].value else 0))
  {
    var timeout := Timeout(args);
    s := null;
    if clock.None? {
      return NoClock, null;
    }
    var usecStart := Stamp(clock.value);
    if !allocOk {
      return OutOfMemory, null;
    }
    var sampler := new Sampler(maxCpuNr, usecStart);
    if cxProbe == -ENODEV && pxProbe == -ENODEV {
      return Disabled, null;
    }
    sampler.TakeStartSnapshots(startCx, startPx, startAvg);
    if !sigintOk {
      return SignalFailed, null;
    }
    if timeout > 0 && !sigalrmOk {
      return SignalFailed, null;
    }
    return Sampling(timeout), sampler;
  }

  /** Without wrap-around, a CPU's idle section is printed exactly when
      the statistics are available, its end read succeeded and some idle
      state accumulated residency between the snapshots. */
  lemma CxSectionShownIffGrowth(cxCap: bool, r: Read<CxCounters>, start: CxCounters)
    requires CxCovered(r.stat.counters, start)
    requires forall j :: 0 <= j < r.stat.counters.nr ==> start.residencies[j] <= r.stat.counters.residencies[j]
    requires Total(r.stat.counters.residencies, r.stat.counters.nr)
             - Total(start.residencies, r.stat.counters.nr) < U64
    ensures CxTotal(cxCap, r, start) > 0 <==>
              cxCap && r.code == 0 &&
              exists j :: 0 <= j < r.stat.counters.nr && start.residencies[j] < r.stat.counters.residencies[j]
  {
    ExactDeltaSum(r.stat.counters.residencies, start.residencies, r.stat.counters.nr);
  }

  /** The same for the frequency section and the frequency states. */
  lemma PxSectionShownIffGrowth(pxCap: bool, r: Read<PxCounters>, start: PxCounters)
    requires PxCovered(r.stat.counters, start)
    requires forall j :: 0 <= j < r.stat.counters.total ==> start.pt[j].residency <= r.stat.counters.pt[j].residency
    requires Total(Residencies(r.stat.counters.pt), r.stat.counters.total)
             - Total(Residencies(start.pt), r.stat.counters.total) < U64
    ensures PxTotal(pxCap, r, start) > 0 <==>
              pxCap && r.code == 0 &&
              exists j :: 0 <= j < r.stat.counters.total && start.pt[j].residency < r.stat.counters.pt[j].residency
  {
    var end, k := Residencies(r.stat.counters.pt), r.stat.counters.total;
    ExactDeltaSum(end, Residencies(start.pt), k);
    if exists j :: 0 <= j < k && Residencies(start.pt)[j] < end[j] {
      var j :| 0 <= j < k && Residencies(start.pt)[j] < end[j];
      assert start.pt[j].residency < r.stat.counters.pt[j].residency;
    }
  }

  /** Adding in two steps or one gives the same 64-bit result. */
  lemma Add64Assoc(a: u64, b: u64, c: u64)
    ensures Add64(Add64(a, b), c) == Add64(a, Add64(b, c))
  {
    WrapAdd(a + b, c);
    WrapAdd(a, b + c);
  }
}
