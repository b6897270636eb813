/** The command dispatcher of `main`: the first word is compared, as a
    prefix, against a fixed table of command names; a unique match runs
    that command's handler on the remaining words, several matches are
    listed and nothing runs, no match shows the help text. */
module Dispatch {
  import opened Base

  /** The handlers of the command table, one per entry. */
  datatype Handler =
    | HelpFunc | CxstatFunc | PxstatFunc | StartGatherFunc | CpufreqParaFunc
    | ScalingMaxFreqFunc | ScalingMinFreqFunc | ScalingGovernorFunc | ScalingSpeedFunc
    | ScalingSamplingRateFunc | ScalingUpThresholdFunc | CpuTopologyFunc
    | SetSchedSmtFunc | GetVcpuMigrationDelayFunc | SetVcpuMigrationDelayFunc
    | SetMaxCstateFunc | EnableTurboMode | DisableTurboMode

  /** The command table of `main`, in the order in which it is scanned:
      entry i pairs CommandNames[i] with Handlers[i]. */
  const CommandNames: seq<string> := [
    "help", "get-cpuidle-states", "get-cpufreq-states", "start",
    "get-cpufreq-para", "set-scaling-maxfreq", "set-scaling-minfreq",
    "set-scaling-governor", "set-scaling-speed", "set-sampling-rate",
    "set-up-threshold", "get-cpu-topology", "set-sched-smt",
    "get-vcpu-migration-delay", "set-vcpu-migration-delay", "set-max-cstate",
    "enable-turbo-mode", "disable-turbo-mode"
  ]

  const Handlers: seq<Handler> := [
    HelpFunc, CxstatFunc, PxstatFunc, StartGatherFunc,
    CpufreqParaFunc, ScalingMaxFreqFunc, ScalingMinFreqFunc,
    ScalingGovernorFunc, ScalingSpeedFunc, ScalingSamplingRateFunc,
    ScalingUpThresholdFunc, CpuTopologyFunc, SetSchedSmtFunc,
    GetVcpuMigrationDelayFunc, SetVcpuMigrationDelayFunc, SetMaxCstateFunc,
    EnableTurboMode, DisableTurboMode
  ]

  const Nul: char := '\0'

  /** A C string: no NUL inside (the terminator is implicit). */
  predicate NulFree(s: string) {
    forall k :: 0 <= k < |s| ==> s[k] != Nul
  }

  /** The character a C string holds at position p, NUL past its end. */
  function CharAt(s: string, p: nat): char {
    if p < |s| then s[p] else Nul
  }

  /** strncmp(a, b, k) == 0 restricted to positions p.. k - 1: the
      characters agree up to k, where the comparison stops early once both
      strings have ended together. */
  function StrnEqFrom(a: string, b: string, p: nat, k: nat): bool
    decreases k - p
  {
    if p >= k then true
    else if CharAt(a, p) != CharAt(b, p) then false
    else if CharAt(a, p) == Nul then true
    else StrnEqFrom(a, b, p + 1, k)
  }

  /** strncmp(a, b, k) == 0 */
  function StrnEq(a: string, b: string, k: nat): bool {
    StrnEqFrom(a, b, 0, k)
  }

  /** a[p..] is a prefix of b[p..] (checked character by character). */
  predicate PrefixFrom(a: string, b: string, p: nat)
    decreases |a| - p
  {
    if p >= |a| then |a| <= |b|
    else p < |b| && a[p] == b[p] && PrefixFrom(a, b, p + 1)
  }

  /** a is a prefix of b. */
  predicate IsPrefix(a: string, b: string) {
    PrefixFrom(a, b, 0)
  }

  /** b is at least as long as a and agrees with it from position p on. */
  ghost predicate AgreeFrom(a: string, b: string, p: nat) {
    |a| <= |b| && forall q :: p <= q < |a| ==> a[q] == b[q]
  }

  lemma AgreeFromStep(a: string, b: string, p: nat)
    requires p < |a|
    ensures AgreeFrom(a, b, p) <==> p < |b| && a[p] == b[p] && AgreeFrom(a, b, p + 1)
  {
    if AgreeFrom(a, b, p) {
      var first := a[p];  // the instance of the quantifier at p
    }
  }

  lemma {:induction false} PrefixFromMeans(a: string, b: string, p: nat)
    requires p <= |a|
    ensures PrefixFrom(a, b, p) <==> AgreeFrom(a, b, p)
    decreases |a| - p
  {
    if p < |a| {
      PrefixFromMeans(a, b, p + 1);
      AgreeFromStep(a, b, p);
    }
  }

  /** IsPrefix is Dafny's prefix relation on sequences. */
  lemma IsPrefixMeans(a: string, b: string)
    ensures IsPrefix(a, b) <==> a <= b
  {
    PrefixFromMeans(a, b, 0);
    if |a| <= |b| {
      assert a <= b <==> a == b[..|a|];
    }
  }

  lemma {:induction false} StrnEqFromIsPrefix(name: string, arg: string, p: nat)
    requires NulFree(arg)
    requires p <= |arg| && p <= |name|
    ensures StrnEqFrom(name, arg, p, |arg|) <==> PrefixFrom(arg, name, p)
    decreases |arg| - p
  {
    if p < |arg| {
      assert CharAt(arg, p) == arg[p] != Nul;
      if p < |name| {
        StrnEqFromIsPrefix(name, arg, p + 1);
      }
    }
  }

  /** `strncmp(name, arg, strlen(arg)) == 0` holds exactly when arg is a
      prefix of name. */
  lemma StrnEqIsPrefix(name: string, arg: string)
    requires NulFree(arg)
    ensures StrnEq(name, arg, |arg|) <==> IsPrefix(arg, name)
  {
    StrnEqFromIsPrefix(name, arg, 0);
  }

  /** The indices below k of a table of names that start with arg, in
      table order. */
  function MatchesUpTo(names: seq<string>, arg: string, k: nat): (r: seq<nat>)
    requires k <= |names|
    ensures |r| <= k
    ensures forall i :: 0 <= i < |r| ==> r[i] < k
  {
    if k == 0 then []
    else MatchesUpTo(names, arg, k - 1) + (if IsPrefix(arg, names[k - 1]) then [k - 1] else [])
  }

  /** All table indices whose names start with arg, in table order. */
  function Matches(arg: string): (r: seq<nat>)
    ensures |r| <= |CommandNames|
    ensures forall i :: 0 <= i < |r| ==> r[i] < |CommandNames|
  {
    MatchesUpTo(CommandNames, arg, |CommandNames|)
  }

  /** The matches below k are exactly the indices whose names start with
      arg, each once and in strictly increasing order. */
  lemma {:induction false} MatchesUpToCorrect(names: seq<string>, arg: string, k: nat)
    requires k <= |names|
    ensures forall j: nat :: j in MatchesUpTo(names, arg, k) <==> j < k && IsPrefix(arg, names[j])
    ensures forall a, b :: 0 <= a < b < |MatchesUpTo(names, arg, k)| ==>
              MatchesUpTo(names, arg, k)[a] < MatchesUpTo(names, arg, k)[b]
  {
    if k > 0 {
      MatchesUpToCorrect(names, arg, k - 1);
    }
  }

  /** Every index whose name starts with arg is matched, and nothing else;
      the list is strictly increasing. */
  lemma MatchesCorrect(arg: string)
    ensures |Matches(arg)| <= |CommandNames|
    ensures forall j: nat :: j in Matches(arg) <==> j < |CommandNames| && arg <= CommandNames[j]
    ensures forall a, b :: 0 <= a < b < |Matches(arg)| ==> Matches(arg)[a] < Matches(arg)[b]
  {
    MatchesUpToCorrect(CommandNames, arg, |CommandNames|);
    forall j: nat | j < |CommandNames| {
      IsPrefixMeans(arg, CommandNames[j]);
    }
  }

  lemma {:induction false} EmptyMatchesUpTo(names: seq<string>, k: nat)
    requires k <= |names|
    ensures MatchesUpTo(names, "", k) == Range(k)
  {
    if k > 0 {
      EmptyMatchesUpTo(names, k - 1);
    }
  }

  /** The empty word is a prefix of every name, so it matches all 18
      entries, in table order. */
  lemma EmptyMatchesAll()
    ensures Matches("") == Range(18)
  {
    EmptyMatchesUpTo(CommandNames, |CommandNames|);
  }

  lemma MatchesUpToStep(names: seq<string>, arg: string, k: nat)
    requires k < |names|
    ensures MatchesUpTo(names, arg, k + 1) ==
              MatchesUpTo(names, arg, k) + (if IsPrefix(arg, names[k]) then [k] else [])
  {
  }

  /** The table entries that `set-s` is a prefix of, decided entry by entry. */
  lemma SetSEntries(k: nat)
    requires k < |CommandNames|
    ensures IsPrefix("set-s", CommandNames[k]) <==> k == 5 || k == 6 || k == 7 || k == 8 || k == 9 || k == 12
  {
    match k
    case 0 => { }
    case 1 => { }
    case 2 => { }
    case 3 => { }
    case 4 => { }
    case 5 => { }
    case 6 => { }
    case 7 => { }
    case 8 => { }
    case 9 => { }
    case 10 => { }
    case 11 => { }
    case 12 => { }
    case 13 => { }
    case 14 => { }
    case 15 => { }
    case 16 => { }
    case _ => { }
  }

  lemma SetSCollected(names: seq<string>, arg: string)
    requires |names| == 18
    requires !IsPrefix(arg, names[0])
    requires !IsPrefix(arg, names[1])
    requires !IsPrefix(arg, names[2])
    requires !IsPrefix(arg, names[3])
    requires !IsPrefix(arg, names[4])
    requires IsPrefix(arg, names[5])
    requires IsPrefix(arg, names[6])
    requires IsPrefix(arg, names[7])
    requires IsPrefix(arg, names[8])
    requires IsPrefix(arg, names[9])
    requires !IsPrefix(arg, names[10])
    requires !IsPrefix(arg, names[11])
    requires IsPrefix(arg, names[12])
    requires !IsPrefix(arg, names[13])
    requires !IsPrefix(arg, names[14])
    requires !IsPrefix(arg, names[15])
    requires !IsPrefix(arg, names[16])
    requires !IsPrefix(arg, names[17])
    ensures MatchesUpTo(names, arg, 18) == [5, 6, 7, 8, 9, 12]
  {
    var r: seq<nat> := [];
    MatchesUpToStep(names, arg, 0);
    assert MatchesUpTo(names, arg, 1) == r;
    MatchesUpToStep(names, arg, 1);
    assert MatchesUpTo(names, arg, 2) == r;
    MatchesUpToStep(names, arg, 2);
    assert MatchesUpTo(names, arg, 3) == r;
    MatchesUpToStep(names, arg, 3);
    assert MatchesUpTo(names, arg, 4) == r;
    MatchesUpToStep(names, arg, 4);
    assert MatchesUpTo(names, arg, 5) == r;
    MatchesUpToStep(names, arg, 5);
    r := r + [5];
    assert MatchesUpTo(names, arg, 6) == r;
    MatchesUpToStep(names, arg, 6);
    r := r + [6];
    assert MatchesUpTo(names, arg, 7) == r;
    MatchesUpToStep(names, arg, 7);
    r := r + [7];
    assert MatchesUpTo(names, arg, 8) == r;
    MatchesUpToStep(names, arg, 8);
    r := r + [8];
    assert MatchesUpTo(names, arg, 9) == r;
    MatchesUpToStep(names, arg, 9);
    r := r + [9];
    assert MatchesUpTo(names, arg, 10) == r;
    MatchesUpToStep(names, arg, 10);
    assert MatchesUpTo(names, arg, 11) == r;
    MatchesUpToStep(names, arg, 11);
    assert MatchesUpTo(names, arg, 12) == r;
    MatchesUpToStep(names, arg, 12);
    r := r + [12];
    assert MatchesUpTo(names, arg, 13) == r;
    MatchesUpToStep(names, arg, 13);
    assert MatchesUpTo(names, arg, 14) == r;
    MatchesUpToStep(names, arg, 14);
    assert MatchesUpTo(names, arg, 15) == r;
    MatchesUpToStep(names, arg, 15);
    assert MatchesUpTo(names, arg, 16) == r;
    MatchesUpToStep(names, arg, 16);
    assert MatchesUpTo(names, arg, 17) == r;
    MatchesUpToStep(names, arg, 17);
    assert MatchesUpTo(names, arg, 18) == r;
  }

  /** `set-s` is ambiguous between six commands: the four set-scaling-* commands, set-sampling-rate and set-sched-smt. */
  lemma SetSIsAmbiguous()
    ensures Matches("set-s") == [5, 6, 7, 8, 9, 12]
  {
    SetSEntries(0);
    SetSEntries(1);
    SetSEntries(2);
    SetSEntries(3);
    SetSEntries(4);
    SetSEntries(5);
    SetSEntries(6);
    SetSEntries(7);
    SetSEntries(8);
    SetSEntries(9);
    SetSEntries(10);
    SetSEntries(11);
    SetSEntries(12);
    SetSEntries(13);
    SetSEntries(14);
    SetSEntries(15);
    SetSEntries(16);
    SetSEntries(17);
    SetSCollected(CommandNames, "set-s");
  }

  /** The table entries that `st` is a prefix of, decided entry by entry. */
  lemma StEntries(k: nat)
    requires k < |CommandNames|
    ensures IsPrefix("st", CommandNames[k]) <==> k == 3
  {
    match k
    case 0 => { }
    case 1 => { }
    case 2 => { }
    case 3 => { }
    case 4 => { }
    case 5 => { }
    case 6 => { }
    case 7 => { }
    case 8 => { }
    case 9 => { }
    case 10 => { }
    case 11 => { }
    case 12 => { }
    case 13 => { }
    case 14 => { }
    case 15 => { }
    case 16 => { }
    case _ => { }
  }

  lemma StCollected(names: seq<string>, arg: string)
    requires |names| == 18
    requires !IsPrefix(arg, names[0])
    requires !IsPrefix(arg, names[1])
    requires !IsPrefix(arg, names[2])
    requires IsPrefix(arg, names[3])
    requires !IsPrefix(arg, names[4])
    requires !IsPrefix(arg, names[5])
    requires !IsPrefix(arg, names[6])
    requires !IsPrefix(arg, names[7])
    requires !IsPrefix(arg, names[8])
    requires !IsPrefix(arg, names[9])
    requires !IsPrefix(arg, names[10])
    requires !IsPrefix(arg, names[11])
    requires !IsPrefix(arg, names[12])
    requires !IsPrefix(arg, names[13])
    requires !IsPrefix(arg, names[14])
    requires !IsPrefix(arg, names[15])
    requires !IsPrefix(arg, names[16])
    requires !IsPrefix(arg, names[17])
    ensures MatchesUpTo(names, arg, 18) == [3]
  {
    var r: seq<nat> := [];
    MatchesUpToStep(names, arg, 0);
    assert MatchesUpTo(names, arg, 1) == r;
    MatchesUpToStep(names, arg, 1);
    assert MatchesUpTo(names, arg, 2) == r;
    MatchesUpToStep(names, arg, 2);
    assert MatchesUpTo(names, arg, 3) == r;
    MatchesUpToStep(names, arg, 3);
    r := r + [3];
    assert MatchesUpTo(names, arg, 4) == r;
    MatchesUpToStep(names, arg, 4);
    assert MatchesUpTo(names, arg, 5) == r;
    MatchesUpToStep(names, arg, 5);
    assert MatchesUpTo(names, arg, 6) == r;
    MatchesUpToStep(names, arg, 6);
    assert MatchesUpTo(names, arg, 7) == r;
    MatchesUpToStep(names, arg, 7);
    assert MatchesUpTo(names, arg, 8) == r;
    MatchesUpToStep(names, arg, 8);
    assert MatchesUpTo(names, arg, 9) == r;
    MatchesUpToStep(names, arg, 9);
    assert MatchesUpTo(names, arg, 10) == r;
    MatchesUpToStep(names, arg, 10);
    assert MatchesUpTo(names, arg, 11) == r;
    MatchesUpToStep(names, arg, 11);
    assert MatchesUpTo(names, arg, 12) == r;
    MatchesUpToStep(names, arg, 12);
    assert MatchesUpTo(names, arg, 13) == r;
    MatchesUpToStep(names, arg, 13);
    assert MatchesUpTo(names, arg, 14) == r;
    MatchesUpToStep(names, arg, 14);
    assert MatchesUpTo(names, arg, 15) == r;
    MatchesUpToStep(names, arg, 15);
    assert MatchesUpTo(names, arg, 16) == r;
    MatchesUpToStep(names, arg, 16);
    assert MatchesUpTo(names, arg, 17) == r;
    MatchesUpToStep(names, arg, 17);
    assert MatchesUpTo(names, arg, 18) == r;
  }

  /** `st` abbreviates `start` and nothing else. */
  lemma StIsStart()
    ensures Matches("st") == [3]
  {
    StEntries(0);
    StEntries(1);
    StEntries(2);
    StEntries(3);
    StEntries(4);
    StEntries(5);
    StEntries(6);
    StEntries(7);
    StEntries(8);
    StEntries(9);
    StEntries(10);
    StEntries(11);
    StEntries(12);
    StEntries(13);
    StEntries(14);
    StEntries(15);
    StEntries(16);
    StEntries(17);
    StCollected(CommandNames, "st");
  }

  /** The loop of `main` that fills matches_main_options[] with the indices
      of the table entries whose names start with arg. */
  method CollectMatches(arg: string) returns (matches: array<nat>, nr: nat)
    requires NulFree(arg)
    ensures matches.Length == |CommandNames|
    ensures nr <= matches.Length
    ensures matches[..nr] == Matches(arg)
  {
    matches := new nat[|CommandNames|];
    nr := 0;
    var i := 0;
    while i < |CommandNames|
      invariant 0 <= i <= |CommandNames|
      invariant nr <= i
      invariant matches[..nr] == MatchesUpTo(CommandNames, arg, i)
    {
      StrnEqIsPrefix(CommandNames[i], arg);
      MatchesUpToStep(CommandNames, arg, i);
      if StrnEq(CommandNames[i], arg, |arg|) {
        matches[nr] := i;
        assert matches[..nr + 1] == matches[..nr] + [i];
        nr := nr + 1;
      }
      i := i + 1;
    }
  }

  /** The loop of `main` that lists the names of an ambiguous prefix's
      matches, in table order. */
  method MatchedNames(matches: array<nat>, nr: nat) returns (names: seq<string>)
    requires nr <= matches.Length
    requires forall k :: 0 <= k < nr ==> matches[k] < |CommandNames|
    ensures |names| == nr
    ensures forall k :: 0 <= k < nr ==> names[k] == CommandNames[matches[k]]
  {
    names := [];
    var i := 0;
    while i < nr
      invariant 0 <= i <= nr
      invariant |names| == i
      invariant forall k :: 0 <= k < i ==> names[k] == CommandNames[matches[k]]
    {
      names := names + [CommandNames[matches[i]]];
      i := i + 1;
    }
  }

  /** Every match is a table index whose name starts with arg. */
  lemma MatchIsPrefix(arg: string, k: nat)
    requires k < |Matches(arg)|
    ensures Matches(arg)[k] < |CommandNames| && arg <= CommandNames[Matches(arg)[k]]
  {
    MatchesCorrect(arg);
    assert Matches(arg)[k] in Matches(arg);
  }

  /** What `main` ends up doing. */
  datatype Outcome =
    | ShowHelp
    | NoInterface                  // xc_interface_open failed
    | NoPhysinfo                   // xc_physinfo failed
    | Ambiguous(names: seq<string>)
    | Invoke(handler: Handler, args: seq<string>, maxCpuNr: int)

  /** `main`: argv holds the program name and the words after it; the
      interface handle and the CPU count come from the control library and
      are inputs here (None when the call failed). */
  method MainDispatch(argv: seq<string>, handleOk: bool, nrCpus: Option<int>)
    returns (outcome: Outcome)
    requires forall k :: 0 <= k < |argv| ==> NulFree(argv[k])
    ensures |argv| < 2 ==> outcome == ShowHelp
    ensures |argv| >= 2 && !handleOk ==> outcome == NoInterface
    ensures |argv| >= 2 && handleOk && nrCpus.None? ==> outcome == NoPhysinfo
    ensures outcome.Invoke? <==>
              |argv| >= 2 && handleOk && nrCpus.Some? && |Matches(argv[1])| == 1
    ensures outcome.Invoke? ==>
              && outcome.handler == Handlers[Matches(argv[1])[0]]
              && argv[1] <= CommandNames[Matches(argv[1])[0]]
              && Matches(argv[1])[0] < |CommandNames|
              && outcome.args == argv[2..]
              && outcome.maxCpuNr == nrCpus.value
    ensures outcome.Ambiguous? <==>
              |argv| >= 2 && handleOk && nrCpus.Some? && |Matches(argv[1])| > 1
    ensures outcome.Ambiguous? ==>
              |outcome.names| == |Matches(argv[1])| &&
              forall k :: 0 <= k < |outcome.names| ==>
                outcome.names[k] == CommandNames[Matches(argv[1])[k]]
    ensures |argv| >= 2 && handleOk && nrCpus.Some? && Matches(argv[1]) == [] ==>
              outcome == ShowHelp
  {
    if |argv| < 2 {
      return ShowHelp;
    }
    if !handleOk {
      return NoInterface;
    }
    if nrCpus.None? {
      return NoPhysinfo;
    }
    var matches, nr := CollectMatches(argv[1]);
    if nr > 1 {
      var names := MatchedNames(matches, nr);
      outcome := Ambiguous(names);
    } else if nr == 1 {
      assert matches[0] == Matches(argv[1])[0];
      MatchIsPrefix(argv[1], 0);
      outcome := Invoke(Handlers[matches[0]], argv[2..], nrCpus.value);
    } else {
      outcome := ShowHelp;
    }
  }
}
