/** The statistics readers get_cxstat_by_cpuid and get_pxstat_by_cpuid,
    which share one shape: ask the library for the number of states,
    allocate two buffers sized by it, let the library fill the struct, and
    undo the allocations on failure.  Both are modelled once, over the
    counters C the library writes (CxCounters or PxCounters).

    The readers return the library's errno as a positive number, while
    the callers that look for a missing device (the show loops of
    cxstat_func and pxstat_func, and the probes of `start` and of the
    sampling handler) compare against -ENODEV; and when the second malloc
    fails the first buffer is freed but its pointer is left in the struct.
    The readers as written (ReaderCode, GetStat) are kept next to the
    corrected ones (FixedReaderCode, GetStatFixed). */
module StatReader {
  import opened Base
  import opened Memory
  import CpuArgs

  /** The outcomes of the calls one reader makes: the number of states
      (xc_pm_get_max_cx / xc_pm_get_max_px), whether each of the two
      mallocs succeeds, and the statistics call itself. */
  datatype Query<C> = Query(maxStates: Lib<nat>, firstOk: bool, secondOk: bool, stat: Lib<C>)

  /** Every step succeeds (present: the struct pointer is not NULL). */
  predicate ReadOk<C>(q: Query<C>, present: bool) {
    q.maxStates.Ok? && present && q.firstOk && q.secondOk && q.stat.Ok?
  }

  /** The code the readers return as written. */
  function ReaderCode<C>(q: Query<C>, present: bool): (r: int)
    ensures r == -EINVAL <==> q.maxStates.Ok? && !present
    ensures r == -ENOMEM <==> q.maxStates.Ok? && present && !(q.firstOk && q.secondOk)
    ensures r < 0 ==> r == -EINVAL || r == -ENOMEM
    ensures r > 0 ==> (q.maxStates.Fail? && r == q.maxStates.errno) || (q.stat.Fail? && r == q.stat.errno)
    ensures r == 0 <==> ReadOk(q, present)
    ensures r != -ENODEV
    ensures q.maxStates.Fail? ==> r == q.maxStates.errno
    ensures q.maxStates.Ok? && present && q.firstOk && q.secondOk && q.stat.Fail? ==> r == q.stat.errno
  {
    if q.maxStates.Fail? then q.maxStates.errno
    else if !present then -EINVAL
    else if !q.firstOk || !q.secondOk then -ENOMEM
    else if q.stat.Fail? then q.stat.errno
    else 0
  }

  /** The code of the corrected readers: library failures as -errno. */
  function FixedReaderCode<C>(q: Query<C>, present: bool): (r: int)
    ensures r <= 0
    ensures r == 0 <==> ReadOk(q, present)
    ensures r == -EINVAL <==>
              (q.maxStates.Ok? && !present) ||
              (q.maxStates.Fail? && q.maxStates.errno == EINVAL) ||
              (q.maxStates.Ok? && present && q.firstOk && q.secondOk && q.stat.Fail? && q.stat.errno == EINVAL)
    ensures r == -ENODEV <==>
              (q.maxStates.Fail? && q.maxStates.errno == ENODEV) ||
              (q.maxStates.Ok? && present && q.firstOk && q.secondOk && q.stat.Fail? && q.stat.errno == ENODEV)
  {
    if q.maxStates.Fail? then -(q.maxStates.errno as int)
    else if !present then -EINVAL
    else if !q.firstOk || !q.secondOk then -ENOMEM
    else if q.stat.Fail? then -(q.stat.errno as int)
    else 0
  }

  /** `start` treats idle and frequency statistics as disabled when both
      probes (readers called with a NULL struct) return -ENODEV.  As
      written, that never happens. */
  lemma GateNeverTrips<C, D>(cxq: Query<C>, pxq: Query<D>)
    ensures !(ReaderCode(cxq, false) == -ENODEV && ReaderCode(pxq, false) == -ENODEV)
  {
  }

  /** With the corrected codes the probes report -ENODEV exactly when the
      library says there is no such device. */
  lemma FixedGateTrips<C, D>(cxq: Query<C>, pxq: Query<D>)
    ensures FixedReaderCode(cxq, false) == -ENODEV && FixedReaderCode(pxq, false) == -ENODEV
            <==> cxq.maxStates == Fail(ENODEV) && pxq.maxStates == Fail(ENODEV)
  {
  }

  /** No pointer of the struct has been freed, and the two are not the
      same block: releasing the struct is safe. */
  predicate Releasable<C>(s: Snapshot<C>, live: set<nat>) {
    !Dangling(s.first, live) && !Dangling(s.second, live) && !(s.first.Block? && s.first == s.second)
  }

  /** The reader as written.  present says whether the struct pointer is
      non-NULL; stat is the struct before the call, out after it. */
  method GetStat<C>(heap: Heap, q: Query<C>, present: bool, stat: Snapshot<C>)
    returns (ret: int, out: Snapshot<C>)
    requires heap.Valid()
    modifies heap
    ensures heap.Valid()
    ensures ret == ReaderCode(q, present)
    ensures heap.invalidFree == old(heap.invalidFree)
    ensures ReadOk(q, present) ==>
              && out == Snapshot(Block(old(heap.next)), Block(old(heap.next) + 1), q.stat.value)
              && heap.live == old(heap.live) + {old(heap.next), old(heap.next) + 1}
    ensures !ReadOk(q, present) ==> heap.live == old(heap.live)
    ensures q.maxStates.Fail? || !present ==> out == stat
    ensures q.maxStates.Ok? && present && !q.firstOk ==> out == stat.(first := Null)
    ensures q.maxStates.Ok? && present && q.firstOk && !q.secondOk ==>
              out == stat.(first := Block(old(heap.next)), second := Null) &&
              Dangling(out.first, heap.live)
    ensures q.maxStates.Ok? && present && q.firstOk && q.secondOk && q.stat.Fail? ==>
              out == stat.(first := Null, second := Null)
  {
    if q.maxStates.Fail? {
      return q.maxStates.errno, stat;
    }
    if !present {
      return -EINVAL, stat;
    }
    out := stat;
    var p := heap.Malloc(q.firstOk);
    out := out.(first := p);
    if p.Null? {
      return -ENOMEM, out;
    }
    p := heap.Malloc(q.secondOk);
    out := out.(second := p);
    if p.Null? {
      heap.Free(out.first);
      return -ENOMEM, out;
    }
    if q.stat.Fail? {
      var temp := q.stat.errno;
      heap.Free(out.first);
      heap.Free(out.second);
      out := out.(first := Null, second := Null);
      return temp, out;
    }
    out := out.(counters := q.stat.value);
    ret := 0;
  }

  /** The corrected reader: library failures come back as -errno, and the
      first buffer's pointer is cleared once it is freed. */
  method GetStatFixed<C>(heap: Heap, q: Query<C>, present: bool, stat: Snapshot<C>)
    returns (ret: int, out: Snapshot<C>)
    requires heap.Valid()
    modifies heap
    ensures heap.Valid()
    ensures ret == FixedReaderCode(q, present)
    ensures heap.invalidFree == old(heap.invalidFree)
    ensures ReadOk(q, present) ==>
              && out == Snapshot(Block(old(heap.next)), Block(old(heap.next) + 1), q.stat.value)
              && heap.live == old(heap.live) + {old(heap.next), old(heap.next) + 1}
    ensures !ReadOk(q, present) ==> heap.live == old(heap.live)
    ensures Releasable(stat, old(heap.live)) ==> Releasable(out, heap.live)
  {
    if q.maxStates.Fail? {
      return -(q.maxStates.errno as int), stat;
    }
    if !present {
      return -EINVAL, stat;
    }
    out := stat;
    var p := heap.Malloc(q.firstOk);
    out := out.(first := p);
    if p.Null? {
      return -ENOMEM, out;
    }
    p := heap.Malloc(q.secondOk);
    out := out.(second := p);
    if p.Null? {
      heap.Free(out.first);
      out := out.(first := Null);
      return -ENOMEM, out;
    }
    if q.stat.Fail? {
      var temp := q.stat.errno;
      heap.Free(out.first);
      heap.Free(out.second);
      out := out.(first := Null, second := Null);
      return -(temp as int), out;
    }
    out := out.(counters := q.stat.value);
    ret := 0;
  }

  /** The two frees that release a struct's buffers (in the show functions
      and in the clean-up at the end of the sampling handler). */
  method ReleaseStat<C>(heap: Heap, stat: Snapshot<C>)
    requires heap.Valid()
    modifies heap
    ensures heap.Valid()
    ensures heap.next == old(heap.next)
    ensures heap.live == old(heap.live) - (if stat.first.Block? then {stat.first.id} else {})
                                       - (if stat.second.Block? then {stat.second.id} else {})
    ensures heap.invalidFree == (old(heap.invalidFree) || !Releasable(stat, old(heap.live)))
  {
    heap.Free(stat.first);
    heap.Free(stat.second);
  }

  /** As written: a read whose second allocation fails, followed by the
      release of the struct (as the sampling handler does for every start
      snapshot), frees the first buffer twice. */
  method PartialReadThenRelease<C>(heap: Heap, q: Query<C>, stat: Snapshot<C>)
    requires heap.Valid()
    requires q.maxStates.Ok? && q.firstOk && !q.secondOk
    modifies heap
    ensures heap.invalidFree
  {
    var ret, out := GetStat(heap, q, true, stat);
    ReleaseStat(heap, out);
  }

  /** Corrected: whatever the library and malloc do, releasing the struct
      afterwards frees nothing twice. */
  method FixedReadThenRelease<C>(heap: Heap, q: Query<C>, present: bool, stat: Snapshot<C>)
    requires heap.Valid() && !heap.invalidFree
    requires Releasable(stat, heap.live)
    modifies heap
    ensures !heap.invalidFree
  {
    var ret, out := GetStatFixed(heap, q, present, stat);
    ReleaseStat(heap, out);
  }

  /** show_cxstat_by_cpuid / show_pxstat_by_cpuid: read into a local
      struct (uninit is its indeterminate contents) and, on success, print
      it and release its buffers. */
  method ShowStat<C>(heap: Heap, q: Query<C>, uninit: Snapshot<C>) returns (ret: int)
    requires heap.Valid()
    modifies heap
    ensures heap.Valid()
    ensures ret == ReaderCode(q, true)
    ensures heap.live == old(heap.live) && heap.invalidFree == old(heap.invalidFree)
  {
    ghost var fresh1, fresh2 := heap.next, heap.next + 1;
    assert fresh1 !in heap.live && fresh2 !in heap.live;
    var out;
    ret, out := GetStat(heap, q, true, uninit);
    if ret != 0 {
      return;
    }
    ReleaseStat(heap, out);
  }

  /** The same with the corrected reader. */
  method ShowStatFixed<C>(heap: Heap, q: Query<C>, uninit: Snapshot<C>) returns (ret: int)
    requires heap.Valid()
    modifies heap
    ensures heap.Valid()
    ensures ret == FixedReaderCode(q, true)
    ensures heap.live == old(heap.live) && heap.invalidFree == old(heap.invalidFree)
  {
    ghost var fresh1, fresh2 := heap.next, heap.next + 1;
    assert fresh1 !in heap.live && fresh2 !in heap.live;
    var out;
    ret, out := GetStatFixed(heap, q, true, uninit);
    if ret != 0 {
      return;
    }
    ReleaseStat(heap, out);
  }

  /** cxstat_func / pxstat_func: queries[i] describes the library's
      answers for CPU i.  The loop over every CPU stops after a -ENODEV,
      which the readers as written never return, so the show call is made
      for every CPU; nothing is leaked. The result lists the CPUs the show
      call is made for. */
  method StatFunc<C>(heap: Heap, args: seq<Arg>, maxCpuNr: nat, queries: seq<Query<C>>, uninit: Snapshot<C>)
    returns (called: seq<int>)
    requires heap.Valid()
    requires |queries| == maxCpuNr
    modifies heap
    ensures heap.Valid()
    ensures called == CpuArgs.CallTargets(CpuArgs.GetterCpuId(args, maxCpuNr), maxCpuNr)
    ensures heap.live == old(heap.live) && heap.invalidFree == old(heap.invalidFree)
  {
    var cpuid := CpuArgs.GetterCpuId(args, maxCpuNr);
    if cpuid < 0 {
      called := [];
      var i := 0;
      while i < maxCpuNr
        invariant 0 <= i <= maxCpuNr
        invariant heap.Valid()
        invariant called == Range(i)
        invariant heap.live == old(heap.live) && heap.invalidFree == old(heap.invalidFree)
      {
        called := called + [i];
        var r := ShowStat(heap, queries[i], uninit);
        if r == -ENODEV {
          break;
        }
        i := i + 1;
      }
    } else {
      called := [cpuid];
      var r := ShowStat(heap, queries[cpuid], uninit);
    }
  }

  /** The codes the corrected show function returns, CPU by CPU. */
  function FixedCodes<C>(queries: seq<Query<C>>): (codes: seq<int>)
    ensures |codes| == |queries|
    ensures forall i :: 0 <= i < |queries| ==> codes[i] == FixedReaderCode(queries[i], true)
  {
    if |queries| == 0 then []
    else FixedCodes(queries[..|queries| - 1]) + [FixedReaderCode(queries[|queries| - 1], true)]
  }

  /** With the corrected reader the loop over every CPU ends after the
      first CPU that reports -ENODEV. */
  method StatFuncFixed<C>(heap: Heap, args: seq<Arg>, maxCpuNr: nat, queries: seq<Query<C>>, uninit: Snapshot<C>)
    returns (called: seq<int>)
    requires heap.Valid()
    requires |queries| == maxCpuNr
    modifies heap
    ensures heap.Valid()
    ensures CpuArgs.GetterCpuId(args, maxCpuNr) >= 0 ==> called == [CpuArgs.GetterCpuId(args, maxCpuNr)]
    ensures CpuArgs.GetterCpuId(args, maxCpuNr) < 0 ==> called == Range(CpuArgs.ScanLength(FixedCodes(queries)))
    ensures heap.live == old(heap.live) && heap.invalidFree == old(heap.invalidFree)
  {
    var cpuid := CpuArgs.GetterCpuId(args, maxCpuNr);
    if cpuid < 0 {
      called := ShowAllFixed(heap, queries, uninit);
    } else {
      called := [cpuid];
      var r := ShowStatFixed(heap, queries[cpuid], uninit);
    }
  }

  /** The loop over every CPU with the corrected reader: it stops right
      after the first CPU that reports -ENODEV. */
  method ShowAllFixed<C>(heap: Heap, queries: seq<Query<C>>, uninit: Snapshot<C>) returns (called: seq<int>)
    requires heap.Valid()
    modifies heap
    ensures heap.Valid()
    ensures called == Range(CpuArgs.ScanLength(FixedCodes(queries)))
    ensures heap.live == old(heap.live) && heap.invalidFree == old(heap.invalidFree)
  {
    ghost var codes := FixedCodes(queries);
    called := [];
    var i := 0;
    while i < |queries|
      invariant 0 <= i <= |queries|
      invariant heap.Valid()
      invariant called == Range(i)
      invariant CpuArgs.ScanLength(codes) == i + CpuArgs.ScanLength(codes[i..])
      invariant heap.live == old(heap.live) && heap.invalidFree == old(heap.invalidFree)
    {
      called := called + [i];
      CpuArgs.ScanLengthStep(codes, i);
      var r := ShowStatFixed(heap, queries[i], uninit);
      assert r == codes[i];
      if r == -ENODEV {
        return;
      }
      i := i + 1;
    }
    assert codes[|queries|..] == [];
  }
}
