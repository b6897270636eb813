/** The argument conventions of the per-CPU commands.

    Getter commands (get-cpuidle-states, get-cpufreq-states,
    get-cpufreq-para, enable-/disable-turbo-mode) take an optional CPU id
    and fall back to "every CPU" when it is missing, unparsable or not below
    the CPU count.  Setter commands (set-scaling-*, set-sampling-rate,
    set-up-threshold) take `[cpuid] <value>`; a negative id fans the
    setting out over every CPU, any other id is passed on as it is. */
module CpuArgs {
  import opened Base

  /** The CPU id a getter works on: the first argument when it parses, -1
      otherwise, and -1 again when it is not below maxCpuNr.  A negative
      result means "every CPU". */
  function GetterCpuId(args: seq<Arg>, maxCpuNr: nat): (cpuid: int)
    ensures cpuid < maxCpuNr
    ensures 0 <= cpuid <==>
              |args| > 0 && args[0].asInt.Some? && 0 <= args[0].asInt.value < maxCpuNr
    ensures 0 <= cpuid ==> cpuid == args[0].asInt.value
  {
    var parsed := if |args| > 0 && args[0].asInt.Some? then args[0].asInt.value else -1;
    if parsed >= maxCpuNr then -1 else parsed
  }

  /** The CPUs a command acts on for a normalised id: all of 0 .. n - 1 in
      increasing order for a negative id, otherwise that one id. */
  function CallTargets(cpuid: int, n: nat): (r: seq<int>)
    ensures cpuid < 0 ==> |r| == n && forall k :: 0 <= k < n ==> r[k] == k
    ensures cpuid >= 0 ==> r == [cpuid]
  {
    if cpuid < 0 then Range(n) else [cpuid]
  }

  /** A getter touches only CPUs that exist: one CPU when a valid id was
      given, every CPU in increasing order otherwise. */
  lemma GetterTargets(args: seq<Arg>, n: nat)
    ensures var t := CallTargets(GetterCpuId(args, n), n);
      && (forall k :: 0 <= k < |t| ==> 0 <= t[k] < n)
      && (|args| > 0 && args[0].asInt.Some? && 0 <= args[0].asInt.value < n ==>
            t == [args[0].asInt.value])
      && (!(|args| > 0 && args[0].asInt.Some? && 0 <= args[0].asInt.value < n) ==>
            t == Range(n))
  {
  }

  /** The number of CPUs an "every CPU" show loop visits: it stops right
      after the first CPU whose show call returned -ENODEV. */
  function ScanLength(codes: seq<int>): (r: nat)
    ensures r <= |codes|
    ensures forall j :: 0 <= j < r - 1 ==> codes[j] != -ENODEV
    ensures r < |codes| ==> 0 < r && codes[r - 1] == -ENODEV
  {
    if |codes| == 0 then 0
    else if codes[0] == -ENODEV then 1
    else 1 + ScanLength(codes[1..])
  }

  /** When no show call reports -ENODEV the loop visits every CPU. */
  lemma {:induction false} ScanLengthAll(codes: seq<int>)
    requires forall j :: 0 <= j < |codes| ==> codes[j] != -ENODEV
    ensures ScanLength(codes) == |codes|
  {
    if |codes| > 0 {
      assert codes[0] != -ENODEV;
      ScanLengthAll(codes[1..]);
    }
  }

  /** One step of the loop: the CPU at i is visited, and the loop goes on
      past it unless it reported -ENODEV. */
  lemma ScanLengthStep(codes: seq<int>, i: nat)
    requires i < |codes|
    ensures ScanLength(codes[i..]) == 1 + (if codes[i] == -ENODEV then 0 else ScanLength(codes[i + 1..]))
  {
    assert codes[i..][0] == codes[i];
    assert codes[i..][1..] == codes[i + 1..];
  }

  /** The visiting part of cpufreq_para_func: codes[i] is what the show call
      for CPU i returns, and the result lists the CPUs the show call is made
      for (a CPU whose read fails prints nothing). A valid id gets the call
      alone; otherwise the CPUs get it in increasing order, up to and
      including the first that reports -ENODEV. */
  method VisitCpus(cpuid: int, maxCpuNr: nat, codes: seq<int>) returns (called: seq<int>)
    requires |codes| == maxCpuNr
    ensures cpuid >= 0 ==> called == [cpuid]
    ensures cpuid < 0 ==> called == Range(ScanLength(codes))
  {
    if cpuid >= 0 {
      return [cpuid];
    }
    called := [];
    var i := 0;
    while i < maxCpuNr
      invariant 0 <= i <= maxCpuNr
      invariant called == Range(i)
      invariant forall j :: 0 <= j < i ==> codes[j] != -ENODEV
      invariant ScanLength(codes) == i + ScanLength(codes[i..])
    {
      called := called + [i];
      ScanLengthStep(codes, i);
      if codes[i] == -ENODEV {
        return;
      }
      i := i + 1;
    }
  }

  /** enable_turbo_mode / disable_turbo_mode: the CPUs whose turbo mode is
      switched, in call order. */
  method TurboMode(args: seq<Arg>, maxCpuNr: nat) returns (cpus: seq<int>)
    ensures cpus == CallTargets(GetterCpuId(args, maxCpuNr), maxCpuNr)
    ensures forall k :: 0 <= k < |cpus| ==> 0 <= cpus[k] < maxCpuNr
  {
    var cpuid := GetterCpuId(args, maxCpuNr);
    GetterTargets(args, maxCpuNr);
    if cpuid < 0 {
      cpus := [];
      var i := 0;
      while i < maxCpuNr
        invariant 0 <= i <= maxCpuNr
        invariant cpus == Range(i)
      {
        cpus := cpus + [i];
        i := i + 1;
      }
    } else {
      cpus := [cpuid];
    }
  }

  /** The CPU id and value a setter acts on. */
  datatype SetterArgs = SetterArgs(cpuid: int, value: int)

  /** `[cpuid] <value>`: the value is the last of one or the second of
      two or more arguments; with one argument the id is -1.  No argument,
      or an argument that does not parse, is an error (None). */
  function ParseSetterArgs(args: seq<Arg>): (r: Option<SetterArgs>)
    ensures |args| == 0 ==> r.None?
    ensures |args| == 1 ==>
              (r.Some? <==> args[0].asInt.Some?) &&
              (r.Some? ==> r.value == SetterArgs(-1, args[0].asInt.value))
    ensures |args| >= 2 ==>
              (r.Some? <==> args[0].asInt.Some? && args[1].asInt.Some?) &&
              (r.Some? ==> r.value == SetterArgs(args[0].asInt.value, args[1].asInt.value))
  {
    if (|args| >= 2 && (args[1].asInt.None? || args[0].asInt.None?))
       || (|args| == 1 && args[0].asInt.None?)
       || |args| == 0
    then None
    else if |args| >= 2 then Some(SetterArgs(args[0].asInt.value, args[1].asInt.value))
    else Some(SetterArgs(-1, args[0].asInt.value))
  }

  /** Words after the second are ignored. */
  lemma SetterIgnoresExtraArgs(args: seq<Arg>)
    requires |args| >= 2
    ensures ParseSetterArgs(args) == ParseSetterArgs(args[..2])
  {
  }

  /** A single value applies to every CPU. */
  lemma SetterValueAloneFansOut(a: Arg, n: nat)
    requires a.asInt.Some?
    ensures ParseSetterArgs([a]).Some?
    ensures CallTargets(ParseSetterArgs([a]).value.cpuid, n) == Range(n)
  {
  }

  /** Unlike a getter, a setter does not clamp the id: `9 1000` on a
      four-CPU machine addresses CPU 9. */
  lemma SetterPassesLargeIdThrough()
    ensures var r := ParseSetterArgs([Arg("9", Some(9)), Arg("1000", Some(1000))]);
      r == Some(SetterArgs(9, 1000)) && CallTargets(r.value.cpuid, 4) == [9]
    ensures CallTargets(GetterCpuId([Arg("9", Some(9))], 4), 4) == [0, 1, 2, 3]
  {
    assert Range(4) == [0, 1, 2, 3];
  }

  /** The parameters the setters write (SCALING_MAX_FREQ, SCALING_MIN_FREQ,
      SCALING_SETSPEED, SAMPLING_RATE, UP_THRESHOLD). */
  datatype Param = ScalingMaxFreq | ScalingMinFreq | ScalingSetSpeed | SamplingRate | UpThreshold

  /** One xc_set_cpufreq_para call. */
  datatype SetCall = SetCall(cpu: int, param: Param, value: int)

  /** A diagnostic a setter writes to stderr: the argument error, the
      failure of the call on one CPU of a fan-out, or the failure of the
      single call. */
  datatype Diag = Rejected | FailedOn(cpu: int) | Failed

  /** The per-CPU failure lines of a fan-out over cpus, where failing holds
      the CPUs whose library call fails. */
  function FailuresOn(cpus: seq<int>, failing: set<int>): (r: seq<Diag>)
    ensures |r| <= |cpus|
    ensures forall k :: 0 <= k < |r| ==> r[k].FailedOn? && r[k].cpu in failing
  {
    if |cpus| == 0 then []
    else
      FailuresOn(cpus[..|cpus| - 1], failing) + FailureLine(cpus[|cpus| - 1], failing)
  }

  /** The line a fan-out writes for one CPU: none when its call succeeds. */
  function FailureLine(cpu: int, failing: set<int>): (r: seq<Diag>)
    ensures r == [] <==> cpu !in failing
  {
    if cpu in failing then [FailedOn(cpu)] else []
  }

  /** A CPU has a failure line exactly when it is in the list and its call
      fails; with no failing CPU there is none. */
  lemma {:induction false} FailuresOnExact(cpus: seq<int>, failing: set<int>)
    ensures forall c :: FailedOn(c) in FailuresOn(cpus, failing) <==> c in cpus && c in failing
    ensures (forall c :: c in cpus ==> c !in failing) ==> FailuresOn(cpus, failing) == []
  {
    if |cpus| > 0 {
      var init := cpus[..|cpus| - 1];
      FailuresOnExact(init, failing);
      assert cpus == init + [cpus[|cpus| - 1]];
    }
  }

  /** A fan-out over one more CPU reports that CPU's failure last. */
  lemma FailuresOnRangeStep(i: nat, failing: set<int>)
    ensures FailuresOn(Range(i + 1), failing) == FailuresOn(Range(i), failing) + FailureLine(i, failing)
  {
    assert Range(i + 1)[..i] == Range(i);
  }

  /** scaling_max_freq_func, scaling_min_freq_func, scaling_speed_func,
      scaling_sampling_rate_func and scaling_up_threshold_func, which differ
      only in the parameter they write.  failing holds the CPUs on which the
      library call fails. */
  method ScalingSet(args: seq<Arg>, maxCpuNr: nat, param: Param, failing: set<int>)
    returns (calls: seq<SetCall>, diags: seq<Diag>)
    ensures ParseSetterArgs(args).None? ==> calls == [] && diags == [Rejected]
    ensures ParseSetterArgs(args).Some? ==>
              var a := ParseSetterArgs(args).value;
              var targets := CallTargets(a.cpuid, maxCpuNr);
              && |calls| == |targets|
              && (forall k :: 0 <= k < |calls| ==> calls[k] == SetCall(targets[k], param, a.value))
              && (a.cpuid < 0 ==> diags == FailuresOn(targets, failing))
              && (a.cpuid >= 0 ==> diags == (if a.cpuid in failing then [Failed] else []))
  {
    var parsed := ParseSetterArgs(args);
    if parsed.None? {
      return [], [Rejected];
    }
    var a := parsed.value;
    if a.cpuid < 0 {
      calls, diags := SetOnAll(maxCpuNr, param, a.value, failing);
    } else {
      calls := [SetCall(a.cpuid, param, a.value)];
      diags := if a.cpuid in failing then [Failed] else [];
    }
  }

  /** The fan-out of a setter: one call per CPU 0 .. maxCpuNr - 1, in order,
      and a diagnostic for each CPU whose call fails. */
  method SetOnAll(maxCpuNr: nat, param: Param, value: int, failing: set<int>)
    returns (calls: seq<SetCall>, diags: seq<Diag>)
    ensures |calls| == maxCpuNr
    ensures forall k :: 0 <= k < maxCpuNr ==> calls[k] == SetCall(k, param, value)
    ensures diags == FailuresOn(Range(maxCpuNr), failing)
  {
    calls, diags := [], [];
    var i := 0;
    while i < maxCpuNr
      invariant 0 <= i <= maxCpuNr
      invariant |calls| == i
      invariant forall k :: 0 <= k < i ==> calls[k] == SetCall(k, param, value)
      invariant diags == FailuresOn(Range(i), failing)
    {
      FailuresOnRangeStep(i, failing);
      calls := calls + [SetCall(i, param, value)];
      diags := diags + FailureLine(i, failing);
      i := i + 1;
    }
  }

  /** The CPU id and governor name scaling_governor_func acts on. */
  datatype GovernorArgs = GovernorArgs(cpuid: int, name: string)

  /** `[cpuid] <name>`: the name is copied (strdupOk says whether the copy
      succeeds); with two or more arguments the first must parse as the id,
      with one the id is -1; no argument is an error. */
  function ParseGovernorArgs(args: seq<Arg>, strdupOk: bool): (r: Option<GovernorArgs>)
    ensures r.Some? <==> strdupOk && (|args| == 1 || (|args| >= 2 && args[0].asInt.Some?))
    ensures r.Some? && |args| == 1 ==> r.value == GovernorArgs(-1, args[0].text)
    ensures r.Some? && |args| >= 2 ==> r.value == GovernorArgs(args[0].asInt.value, args[1].text)
  {
    if |args| >= 2 then
      if !strdupOk then None
      else if args[0].asInt.None? then None
      else Some(GovernorArgs(args[0].asInt.value, args[1].text))
    else if |args| > 0 then
      if !strdupOk then None else Some(GovernorArgs(-1, args[0].text))
    else None
  }

  /** One xc_set_cpufreq_gov call. */
  datatype GovCall = GovCall(cpu: int, name: string)

  /** scaling_governor_func: failing holds the CPUs on which the library
      call fails. */
  method ScalingGovernor(args: seq<Arg>, maxCpuNr: nat, strdupOk: bool, failing: set<int>)
    returns (calls: seq<GovCall>, diags: seq<Diag>)
    ensures ParseGovernorArgs(args, strdupOk).None? ==> calls == [] && diags == [Rejected]
    ensures ParseGovernorArgs(args, strdupOk).Some? ==>
              var g := ParseGovernorArgs(args, strdupOk).value;
              var targets := CallTargets(g.cpuid, maxCpuNr);
              && |calls| == |targets|
              && (forall k :: 0 <= k < |calls| ==> calls[k] == GovCall(targets[k], g.name))
              && (g.cpuid < 0 ==> diags == FailuresOn(targets, failing))
              && (g.cpuid >= 0 ==> diags == (if g.cpuid in failing then [Failed] else []))
  {
    var parsed := ParseGovernorArgs(args, strdupOk);
    if parsed.None? {
      return [], [Rejected];
    }
    var g := parsed.value;
    if g.cpuid < 0 {
      calls, diags := GovernorOnAll(maxCpuNr, g.name, failing);
    } else {
      calls := [GovCall(g.cpuid, g.name)];
      diags := if g.cpuid in failing then [Failed] else [];
    }
  }

  /** The fan-out of scaling_governor_func, as SetOnAll. */
  method GovernorOnAll(maxCpuNr: nat, name: string, failing: set<int>)
    returns (calls: seq<GovCall>, diags: seq<Diag>)
    ensures |calls| == maxCpuNr
    ensures forall k :: 0 <= k < maxCpuNr ==> calls[k] == GovCall(k, name)
    ensures diags == FailuresOn(Range(maxCpuNr), failing)
  {
    calls, diags := [], [];
    var i := 0;
    while i < maxCpuNr
      invariant 0 <= i <= maxCpuNr
      invariant |calls| == i
      invariant forall k :: 0 <= k < i ==> calls[k] == GovCall(k, name)
      invariant diags == FailuresOn(Range(i), failing)
    {
      FailuresOnRangeStep(i, failing);
      calls := calls + [GovCall(i, name)];
      diags := diags + FailureLine(i, failing);
      i := i + 1;
    }
  }
}
