# xenpm core, modelled in Dafny

`xenpm` is the command-line front end to the power-management controls of
a Xen host (tools/misc/xenpm.c). This project models the parts of it that
hold logic of their own, rather than passing values to the control
library or formatting them:

- **Command dispatch** (module `Dispatch`, dispatch.dfy). `main` compares
  its first word, as a prefix, against a table of 18 command names. It
  collects the matching indices in table order into an array. One match
  runs that handler with the remaining words. Several matches list the
  matching names and run nothing. No match shows the help text.
- **Per-CPU argument conventions** (module `CpuArgs`, cpu_args.dfy).
  - Getters turn an id that does not parse, or one at or above
    `max_cpu_nr`, into -1, meaning every CPU. Only `cpufreq_para_func`'s
    "every CPU" loop stops, right after the first CPU that reports -ENODEV
    (xenpm.c:636-639, `CpuArgs.VisitCpus`). `cxstat_func` and `pxstat_func`
    make the same test, but as written it never fires (Findings row 1), so
    they visit every CPU. The turbo-mode loops ignore the results and also
    visit every CPU (`CpuArgs.TurboMode`).
  - Setters read `[cpuid] <value>`. A negative id fans out over every CPU.
    Any other id is passed on unclamped. Each failing call adds one line
    to stderr.
  - `scaling_governor_func` follows the same pattern with a copied name.
- **Statistics readers** (module `StatReader`, reader.dfy, over the heap of
  module `Memory`, memory.dfy). `get_cxstat_by_cpuid` and
  `get_pxstat_by_cpuid` each ask for the number of states, allocate two
  buffers, let the library fill them, and undo the allocations on
  failure. Both are modelled once, generically over the counters they
  read. The model covers:
  - their return codes;
  - the buffers they leave live or freed;
  - the `show_*` wrappers;
  - the `cxstat_func` / `pxstat_func` loops.
- **The `start` sampler** (module `Sampling`, sampler.dfy), a class over the
  scratch arrays of `start_gather_func`. These are `sum`, `cxstat`,
  `pxstat` and `avgfreq`, each split into a start half and an end half by
  index. The model covers:
  - allocating and zeroing the arrays;
  - taking the start snapshots;
  - the body of `signal_int_handler`, which takes the end snapshots,
    accumulates each CPU's residency total in place with unsigned 64-bit
    wrap-around, and builds the report.
- **64-bit arithmetic and the report** (modules `Base`, `Counters` and
  `Report`: base.dfy, counters.dfy, report.dfy).
  - The totals are sums of differences taken modulo 2^64.
  - Elapsed milliseconds are computed from microsecond stamps.
  - Per-state lines are printed only under the guards of the handler.
  - The average residency is defined to be 0 when no transition happened.

Everything the control library, `gettimeofday`, `malloc`, `sscanf` or
`signal` would decide is an input: a parsed argument is an `Arg` with an
optional integer, and a library call's outcome is a `Lib` value. A
snapshot reader's outcome is a `Query`, and what it returned is a `Read`.

Three details of the code that the model keeps:

- Matches are listed in table order, so `set-sampling-rate` (entry 9)
  comes before `set-sched-smt` (entry 12) in the list for `set-s`.
- `100 * res` is formed in unsigned 64 bits before the division
  (tools/misc/xenpm.c:356, 367), so `Report.Percent` wraps there.
- A getter keeps a parsed negative id as it is (only an id at or above
  `max_cpu_nr` becomes -1). Every negative id means "every CPU".

## Model

| member | source | states |
|---|---|---|
| Dispatch.StrnEqIsPrefix | tools/misc/xenpm.c:1054 | `strncmp(name, arg, strlen(arg)) == 0` holds exactly when arg is a prefix of name |
| Dispatch.MatchesCorrect | tools/misc/xenpm.c:1053-1055 | an index is matched iff its name starts with the argument; the list is strictly increasing (table order, no repeats) |
| Dispatch.Matches | tools/misc/xenpm.c:1053-1055 | the list of matching table indices: at most one per entry, each a valid index (what it holds is MatchesCorrect) |
| Dispatch.EmptyMatchesAll | tools/misc/xenpm.c:1053-1055 | the empty word matches all 18 entries, in table order |
| Dispatch.SetSIsAmbiguous | tools/misc/xenpm.c:999-1021 | `set-s` matches entries 5, 6, 7, 8, 9 and 12: the four set-scaling-* commands, set-sampling-rate, set-sched-smt |
| Dispatch.StIsStart | tools/misc/xenpm.c:999-1021 | `st` matches only `start` |
| Dispatch.MatchIsPrefix | tools/misc/xenpm.c:1053-1055 | every collected index is a table index whose name starts with the argument |
| Dispatch.CollectMatches | tools/misc/xenpm.c:1053-1055 | the array loop leaves `matches[..nr]` equal to the match list |
| Dispatch.MatchedNames | tools/misc/xenpm.c:1057-1062 | the ambiguity message lists the names of the matches, in match order |
| Dispatch.MainDispatch | tools/misc/xenpm.c:1023-1072 | fewer than two words shows help; a failed interface or physinfo call stops; one match invokes that handler with `argv + 2` and the CPU count; several list their names and invoke nothing; none shows help |
| CpuArgs.GetterCpuId | tools/misc/xenpm.c:160-166 | the id is below `max_cpu_nr`; it is non-negative exactly when the first word parses to a value in `[0, max_cpu_nr)`, and then it is that value (the same code is at 625-631, 959-963 and 981-985) |
| CpuArgs.CallTargets | tools/misc/xenpm.c:168-179 | a negative id targets CPUs `0 .. n - 1` in increasing order; a non-negative id targets that CPU alone |
| CpuArgs.GetterTargets | tools/misc/xenpm.c:168-179 | a getter acts on the one valid id given, else on every CPU `0 .. n - 1` in order; never on a CPU that does not exist |
| CpuArgs.ScanLength | tools/misc/xenpm.c:636-639 | the "every CPU" loop visits a prefix of the CPUs; none before the last visited reported -ENODEV, and it stops early only right after one that did |
| CpuArgs.ScanLengthAll | tools/misc/xenpm.c:636-639 | without any -ENODEV the loop visits every CPU |
| CpuArgs.VisitCpus | tools/misc/xenpm.c:623-642 | the show call is made for a valid id alone; otherwise for CPUs `0, 1, …` up to and including the first that reports -ENODEV (a CPU whose read fails prints nothing) |
| CpuArgs.TurboMode | tools/misc/xenpm.c:955-975 | turbo mode is switched on exactly the getter's targets, all of them existing CPUs |
| CpuArgs.ParseSetterArgs | tools/misc/xenpm.c:647-656 | no word, or a word that does not parse, is an error; one word gives (-1, value); two or more give (first, second) |
| CpuArgs.SetterIgnoresExtraArgs | tools/misc/xenpm.c:649-652 | words after the second do not change the result |
| CpuArgs.SetterValueAloneFansOut | tools/misc/xenpm.c:658-663 | a lone value is applied to every CPU `0 .. n - 1` |
| CpuArgs.SetterPassesLargeIdThrough | tools/misc/xenpm.c:664-668 | a setter addresses CPU 9 on a four-CPU machine where a getter would fall back to every CPU |
| CpuArgs.FailuresOnExact | tools/misc/xenpm.c:660-663 | a fan-out reports a failure line for a CPU iff it was called and its call failed; with no failing call it reports nothing |
| CpuArgs.SetOnAll | tools/misc/xenpm.c:658-663 | one call per CPU `0 .. n - 1` in order with the given parameter and value, and the failure lines of the failing ones |
| CpuArgs.ScalingSet | tools/misc/xenpm.c:645-670 | an argument error makes no call and reports once; a negative id fans out as SetOnAll; any other id makes exactly one call and reports once if it fails |
| CpuArgs.ParseGovernorArgs | tools/misc/xenpm.c:787-805 | a result exists iff the copy succeeds and there is one word, or two or more whose first parses; one word gives (-1, name), two give (id, second word) |
| CpuArgs.GovernorOnAll | tools/misc/xenpm.c:807-812 | one governor call per CPU in order, and the failure lines of the failing ones |
| CpuArgs.ScalingGovernor | tools/misc/xenpm.c:782-824 | as ScalingSet, for the governor name |
| StatReader.ReaderCode | tools/misc/xenpm.c:94-128 | the reader returns 0 iff every step succeeds; the state-count call's errno when that call fails, the statistics call's errno when it fails; -EINVAL iff the state count was read and the struct pointer is NULL (checked before any allocation); -ENOMEM iff an allocation fails; otherwise the library's positive errno; never -ENODEV |
| StatReader.GateNeverTrips | tools/misc/xenpm.c:446-451 | as written, `start` never sees both probes return -ENODEV |
| StatReader.GetStat | tools/misc/xenpm.c:94-128 | returns ReaderCode; on success both buffers are fresh and live; on every failure the live blocks are as before; the struct left behind is stated per path (pointers cleared after a failed library call, the first left dangling after a failed second malloc) |
| StatReader.ReleaseStat | tools/misc/xenpm.c:373-380 | freeing a struct's two buffers releases them, and is a double free iff the struct was not releasable |
| StatReader.PartialReadThenRelease | tools/misc/xenpm.c:106-112 | a read whose second malloc fails, followed by releasing the struct, frees the first buffer twice |
| StatReader.ShowStat | tools/misc/xenpm.c:142-156 | returns ReaderCode and leaves the heap's live blocks as it found them |
| StatReader.StatFunc | tools/misc/xenpm.c:158-180 | as written, the CPUs the show call is made for are exactly the getter's targets (the -ENODEV stop never fires); nothing leaks |
| StatReader.FixedReaderCode | tools/misc/xenpm.c:94-128 | corrected: the code is never positive; 0 iff every step succeeds; -ENODEV iff the library fails with ENODEV |
| StatReader.FixedGateTrips | tools/misc/xenpm.c:446-451 | corrected: both probes report -ENODEV iff the library's state-count calls both fail with ENODEV |
| StatReader.GetStatFixed | tools/misc/xenpm.c:94-128 | corrected reader: returns FixedReaderCode, frees on failure as before, and keeps a releasable struct releasable |
| StatReader.FixedReadThenRelease | tools/misc/xenpm.c:106-112 | corrected: a read followed by releasing the struct never frees twice, whatever malloc and the library do |
| StatReader.ShowStatFixed | tools/misc/xenpm.c:142-156 | returns FixedReaderCode and leaves the heap's live blocks as it found them |
| StatReader.FixedCodes | tools/misc/xenpm.c:170-177 | the code of each CPU's corrected show call |
| StatReader.ShowAllFixed | tools/misc/xenpm.c:170-177 | corrected: the loop makes the show call for CPUs `0, 1, …` up to and including the first that reports -ENODEV, and leaks nothing |
| StatReader.StatFuncFixed | tools/misc/xenpm.c:158-180 | corrected: the show call is made for a valid id alone, otherwise the loop stops after the first -ENODEV |
| Counters.Total | tools/misc/xenpm.c:319-333 | the exact total of the first k counters is non-negative and at least the last counter |
| Counters.DeltaSumIsDifference | tools/misc/xenpm.c:319-333 | the accumulated `sum += end[j] - start[j]`, with every step reduced modulo 2^64, is the difference of the exact totals reduced once |
| Counters.DeltaSum | tools/misc/xenpm.c:321-323 | the value `sum += end[j] - start[j]` leaves: 0 when no counter changed (its relation to the exact totals is DeltaSumIsDifference) |
| Counters.ExactDeltaSum | tools/misc/xenpm.c:319-333 | with counters that did not decrease and a total growth below 2^64, the accumulated value is the exact growth, and positive iff some counter grew |
| Counters.GrowthBoundsElement | tools/misc/xenpm.c:319-333 | with counters that did not decrease, one counter's growth is at most the total growth |
| Counters.DeltaSumExample | tools/misc/xenpm.c:319-323 | counters [100, 200, 300] → [150, 260, 300] give 110 |
| Counters.DeltaSumAcrossWrap | tools/misc/xenpm.c:319-323 | a counter that wrapped from 2^64 - 10 to 5 contributes its true growth of 15 |
| Counters.Stamp | tools/misc/xenpm.c:314 | `tv_sec * 1000000UL + tv_usec` is the exact microsecond count when that fits in 64 bits |
| Counters.ElapsedMs | tools/misc/xenpm.c:339 | for ordered stamps the elapsed time is their difference divided by 1000 |
| Counters.ElapsedIsTrueTime | tools/misc/xenpm.c:339 | the printed time is the true elapsed whole milliseconds between the two timevals (stamped at 409 and 314) whenever that is below 2^64 µs, even when the stamps wrapped |
| Report.AvgResidencyMs | tools/misc/xenpm.c:354 | the average residency is non-negative, and 0 exactly when there was no transition or no residency; no division by a zero count |
| Report.Percent | tools/misc/xenpm.c:356 | the percentage is never negative; without wrap-around of `100 * res` it is `100 * res / total`, and at most 100 when the state's delta is at most the total (the same expression is at 367) |
| Report.PercentAtMostHundred | tools/misc/xenpm.c:356 | when `100 * res` does not wrap and the state's delta is at most the total, `100 * res / total` is at most 100 |
| Report.PercentWrapsForHugeDeltas | tools/misc/xenpm.c:356 | a delta of 2^63 ns against an equal total prints 0%, because `100 * res` wraps to 0 |
| Report.CxLines | tools/misc/xenpm.c:348-357 | one line per idle state: line j is state j with its residency delta in ms, its percentage of the total and its average residency |
| Report.PxLines | tools/misc/xenpm.c:362-368 | one line per frequency state: line j is state j with its residency delta in ms and its percentage of the total |
| Report.Residencies | tools/misc/xenpm.c:332-333 | the residency counters of the frequency states, state by state |
| Report.CpuReportOf | tools/misc/xenpm.c:346-368 | a CPU's idle section has one line per idle state iff idle statistics are available and its idle total is above zero, else none; the frequency section likewise; the average frequency always |
| Report.CxLinesMeaning | tools/misc/xenpm.c:348-357 | line j is state j, and its average residency is 0 iff that state saw no transition or no residency |
| Report.PercentsPartial | tools/misc/xenpm.c:356 | when no state's `100 * res` wraps (res being that state's growth), the percentages of states 0 .. k - 1 add up to 100 times their growth over the total |
| Report.PercentsAddUp | tools/misc/xenpm.c:346-357 | when 100 times the total growth fits in 64 bits and the total is the handler's delta sum, the percentages of all states add up to exactly 100 |
| Report.CxPercentsOfLines | tools/misc/xenpm.c:348-357 | the percentages on the idle lines are those computed from the counters |
| Report.PxPercentsOfLines | tools/misc/xenpm.c:362-368 | the percentages on the frequency lines are those computed from the counters |
| Report.CxPercentsAddUp | tools/misc/xenpm.c:346-357 | when 100 times the idle growth fits in 64 bits, the percentages of a printed idle section add up to exactly 100 |
| Report.PxPercentsAddUp | tools/misc/xenpm.c:360-368 | when 100 times the frequency growth fits in 64 bits, the percentages of a printed frequency section add up to exactly 100 |
| Report.PercentsOfLargeCounters | tools/misc/xenpm.c:346-357 | counters near 2^62 that grew by 30 and 70 print 30% and 70%, adding up to 100: the bound is on the growth, not on the counters |
| Report.ReportExample | tools/misc/xenpm.c:348-357 | three concrete idle states give total 110, percentages 5000/110, 6000/110 and 0, and averages 50 ns, 60 ns and 0 |
| Sampling.Timeout | tools/misc/xenpm.c:393-402 | only a lone word that parses sets the timeout; otherwise it stays 0 |
| Sampling.CxTotal | tools/misc/xenpm.c:316-324 | a CPU's idle total stays 0 unless idle statistics are available and its end read succeeded; then it is the difference of the exact end and start residency totals, reduced modulo 2^64 |
| Sampling.PxTotal | tools/misc/xenpm.c:326-334 | the same for a CPU's frequency total over the frequency-state residencies |
| Sampling.Sampler.constructor | tools/misc/xenpm.c:411-444 | `sum`, `cxstat` and `pxstat` are fresh with 2n zeroed entries, `avgfreq` with n |
| Sampling.Sampler.TakeStartSnapshots | tools/misc/xenpm.c:453-458 | the start halves hold what the readers left; the end halves are untouched; an average frequency is stored only when it was read |
| Sampling.Sampler.AddGrowth | tools/misc/xenpm.c:321-323 | the inner loop adds the wrapped delta sum of k states to one total, touching nothing else |
| Sampling.Sampler.EndCx | tools/misc/xenpm.c:319-323 | one CPU: its end snapshot is stored, and its idle total grows by its delta sum iff the read succeeded |
| Sampling.Sampler.EndPx | tools/misc/xenpm.c:329-333 | one CPU: the same for the frequency total in the second half of `sum` |
| Sampling.Sampler.AccumulateCx | tools/misc/xenpm.c:318-323 | every CPU's end snapshot is stored in the end half; `sum_cx[i]` grows by its delta sum iff its read succeeded; `sum_px` is untouched |
| Sampling.Sampler.AccumulatePx | tools/misc/xenpm.c:328-333 | the same for the frequency states and `sum_px` |
| Sampling.Sampler.ReadAvgFreqs | tools/misc/xenpm.c:336-337 | an average frequency is overwritten only when it was read |
| Sampling.Sampler.TakeEndSnapshots | tools/misc/xenpm.c:316-334 | each half of the handler runs only when its probe is not -ENODEV; then `sum_cx[i]` is the CPU's delta sum when its read succeeded and 0 otherwise, and likewise `sum_px`; the start halves are untouched; every printed section is within its buffers |
| Sampling.Sampler.ReportOf | tools/misc/xenpm.c:341-369 | the report of CPU i is its own, shows its average frequency, and has a section only when that statistic is available and its total is above zero |
| Sampling.Sampler.BuildReports | tools/misc/xenpm.c:340-370 | the report loop yields one report per CPU, in CPU order |
| Sampling.Sampler.Interrupt | tools/misc/xenpm.c:303-371 | without a clock nothing changes and nothing is printed; otherwise the end snapshots, totals and average frequencies are as above, and the printout holds the elapsed time since `usec_start` and every CPU's report |
| Sampling.StartGather | tools/misc/xenpm.c:389-487 | stops with no clock, then on a failed allocation, then when both statistics are disabled, then when a handler cannot be installed (the alarm one only for a positive timeout); otherwise it is sampling with fresh zeroed arrays whose start halves hold the start snapshots |
| Sampling.CxSectionShownIffGrowth | tools/misc/xenpm.c:316-346 | for counters that did not decrease and a total growth below 2^64, a CPU's idle section is printed iff idle statistics are available, its end read succeeded and some idle state accumulated residency |
| Sampling.PxSectionShownIffGrowth | tools/misc/xenpm.c:326-360 | the same for the frequency section and the frequency states |

## Left out

- Signals: `signal`, `alarm`, `pause`, and the asynchronous entry into the handler. The handler's body is `Sampling.Sampler.Interrupt`, called once. Its `exit(0)`, its clean-up frees and `xc_interface_close` are not part of it. Freeing a struct is modelled separately by `StatReader.ReleaseStat`.
- Every `xc_*` call, `gettimeofday`, `malloc` in `start_gather_func`, `strdup` and `sscanf`: they are inputs (snapshots, codes, optional values, flags), since their code is not part of this model.
- Base.Errno: a failing `xc_*` call is assumed to leave a positive number in `errno`. Nothing visible in the source guarantees that it sets `errno` at all. If `errno` were 0, `get_cxstat_by_cpuid` would return 0 after a failed `xc_pm_get_max_cx` (tools/misc/xenpm.c:99-101) without allocating anything, and `show_cxstat_by_cpuid` would then print an uninitialised struct. StatReader.ReaderCode's "0 iff every step succeeds" holds only under this assumption, and that case is not modelled.
- `printf`/`fprintf` output text and `show_help`: the report is a value (`Report.CpuReport`, `Sampling.Printout`), and the text layout and `%5.2f` rounding are not modelled. Percentages and average residencies are exact reals, not doubles.
- `show_max_cstate`, `print_cxstat`, `print_pxstat`, `print_cpufreq_para` and `show_cpufreq_para_by_cpuid`, with its EAGAIN retry loop: these are library calls and formatting. `CpuArgs.VisitCpus` takes each CPU's show result as an input.
- `cpu_topology_func`: a fixed-size buffer handed to the library and printed. It is a handler in the dispatch table and nothing more.
- `set_sched_smt_func`, `set_vcpu_migration_delay_func`, `get_vcpu_migration_delay_func` and `set_max_cstate_func` (tools/misc/xenpm.c:860-953) check their arguments before making one library call and printing its result. `set_sched_smt_func` calls `show_help` and `exit(-1)` unless it has exactly one argument that is `enable` or `disable`. `get_vcpu_migration_delay_func` does the same unless it has no argument. `set_max_cstate_func` does the same unless it has one argument that `sscanf` reads as a non-negative number. `set_vcpu_migration_delay_func` calls `show_help` and `exit(-1)` unless it has one argument. It reads that argument with `atoi`, so text that is not a number becomes 0 and is accepted. On a negative value it prints its own message and calls `exit(-1)` without `show_help` (xenpm.c:900-906). These four are handlers in the dispatch table and nothing more; their argument checks and exits are not modelled.
- `get_avgfreq_by_cpuid`: only its effect is modelled, an average frequency stored when read (`Option<int>`). What the library writes into `avgfreq[i]` on failure is not modelled.
- Sampling.StartGather: the four allocations are collapsed into one flag, and the model does not track the frees on each failure path. It also does not track the buffers left unreleased on the "disabled" and signal-failure paths. Those paths are handled outside the heap of `Memory`.
- Sampling.Sampler.Interrupt: it requires `sum` to be zero on entry, which the sampler guarantees because the handler runs once. It also requires that a successful end read fits within the start snapshot's buffers. The source reads `cxstat_start[i]` without that check. A CPU whose start read failed (NULL buffers) but whose end read succeeded would make it read through a NULL pointer, and that case is not modelled.
- Counters.Stamp: `unsigned long` is taken to be 64 bits wide (an LP64 build), so `tv_sec * 1000000UL + tv_usec` (tools/misc/xenpm.c:314, 409) is reduced modulo 2^64. On a 32-bit build it would wrap modulo 2^32 before being widened to `uint64_t`. A sample that crosses a 2^32 µs boundary would then print a huge elapsed time. Counters.ElapsedIsTrueTime is stated for the 64-bit width only.
- StatReader.GetStat: after a failed statistics call the counters in the struct are taken to be unchanged; only the pointers are cleared by the source. What `xc_pm_get_cxstat` or `xc_pm_get_pxstat` writes into the struct when it fails is not visible.
- The transition buffer `trans_pt` of the frequency statistics is a second buffer of `Snapshot` like any other. Its contents (the transition matrix) are only printed by `print_pxstat` and are not modelled.
- CpuArgs.ScalingGovernor: the copied name's memory is not tracked.
- The setter functions for minimum frequency, speed, sampling rate and up threshold (tools/misc/xenpm.c:672-780) are `CpuArgs.ScalingSet` with another `Param`; their stderr text differs only in wording.

## Findings

| source | as written | input that shows it | evidently intended | confidence | as-written member | corrected member |
|---|---|---|---|---|---|---|
| tools/misc/xenpm.c:100-101 | a failed library call returns `errno`, a positive number, while the callers that test for a missing device (175, 290, 316, 326, 446-447) compare against `-ENODEV` | the library fails with `errno == ENODEV`: the reader returns 19, so `start` does not report "disabled", the handler's probes do not skip a section, and the idle and frequency show loops do not stop | return `-errno`, so the callers' `-ENODEV` checks can fire | not executed | StatReader.GateNeverTrips | StatReader.FixedGateTrips |
| tools/misc/xenpm.c:106-112 | when the second malloc fails, the first buffer is freed but its pointer is left in the struct | in `start`, a CPU whose start read fails at the second malloc, and whose end read does not succeed or idle statistics are off (otherwise 322-323 first read through the NULL `residencies`); the handler's clean-up (376-377) frees `cxstat[i].triggers` again | clear the pointer after freeing it, as the library-failure path does | not executed | StatReader.PartialReadThenRelease | StatReader.FixedReadThenRelease |
