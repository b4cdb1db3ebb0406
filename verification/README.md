# Verification of tun-bench

tun-bench expands a YAML matrix into benchmark cases, schedules them over environments and devices, and runs every case
as a resumable state machine whose report is saved after each step. This project models that behaviour in Dafny and
proves what it promises, for every input, every interleaving and every run.

`dafny verify dfyconfig.toml` checks everything.

## How it is organised

Code of the repository that changes state step by step is a class or a method with a loop. Each is proved equal to a
function, and the promises are lemmas about these functions, or about the steps of a state machine where goroutines run
concurrently.

| files | model |
|---|---|
| Reports, Options | the saved report, which reports are legal, resolved cases, completed cases |
| WorkerSpec, Worker | one worker run: as functions of the answers of its environment, and as the object that updates its report |
| WorkerCases, WorkerLoop | what becomes of one case and of its record, and when the loop over the cases goes on, stops and returns nil |
| WorkerSafety, WorkerRuns, WorkerOrigin, WorkerProgress | what runs, and chains of resumed runs, keep |
| Controller | the goroutines of the controller, one for each device, as a state machine |
| MatrixSpec, Matrix | the stages of the matrix expansion: as functions, and as the loops of the program |
| MatrixLaws, MatrixIncludes, MatrixTypes, MatrixValues, MatrixRefusals | which entries each stage produces, how often, in what order, of what types, and which values and matrices are refused |
| Growth | the memory growth of a curve |
| Echo | the datagram echo of one flow over a network that loses, delays, reorders and duplicates |
| Claims | the workers that claim flows with an atomic counter, as a state machine |
| Lifecycle | what a benchmark starts and takes, and how all of it is stopped, reaped and given back |
| Cpus, Artifacts, Summary, Ticks | the choice of processors, the cache of executables, the order of the summary, the counters |
| Seqs, Sorting, Wrappers | sequences, the library's stable sort, options |

Everything outside the program is a parameter or a free choice: the platform, iperf3, whether a save fails, when the run
is canceled, what a process does, what the network delivers. A worker run is a function of a `World` that holds all
these answers, so that a statement about every `World` is one about every outcome.

Where the code does less than one would expect of it, the code is kept, and a lemma says exactly when it does more:

- A legal report may hold two records with the same key, and a worker may have another number of tunnel workers than the
  one that saved the report. In either case the progress can exceed the total (`KeysMustBeDistinct`, `WorkersMustAgree`,
  and `ProgressExactly` for the exact condition).
- An echo of an earlier request is reported as a payload mismatch exactly when the number of a flow wraps around
  (`MismatchExactly`); a memory case stays below ten (`NumbersStaySmall`).
- A call prepares an artifact that was already prepared if and only if it asks for the latest version while none is
  pinned, and gets a version that is already stored for its target (`PreparedAgainExactly`; `LatestPreparesAgain` has an
  input).
- For a nonempty base without MTUs, unfiltered includes that only give MTUs add nothing to the completed base; but that is
  the base times their MTUs only if there is at least one of them (`MtuIncludesAddNothing`).
- Counting and testing for membership is a test for equality of sets exactly when the processors are distinct
  (`PassesExactly`).
- The conversion of ticks is right for all totals exactly up to a frequency of 18446744074 (`ConvertRightExactly`).
- The sum over the processes is one of 64 bits and can fall although no counter does (`SnapshotCanFall`): for two given
  snapshots exactly when their growth carries the sum over 2^64 (`SnapshotFallsExactly`), and for some earlier snapshot
  exactly when a later total neither fits nor leaves the greatest number of 64 bits (`SnapshotRisesExactly`).

## Model

| member | source | states |
|---|---|---|
| Reports.ValidateMemory | memory.go:148-168 | accepts exactly the initial parts of the curve 0, 250, 500, 750, 1000 with good readings, and for a passed case only the whole curve |
| Reports.Validate | result.go:174-222 | accepts exactly the legal reports |
| Reports.ValidateResults | result.go:157-172 | accepts exactly the result files whose environment names are present and distinct and whose reports are all legal |
| Worker.BenchmarkMatrix.Run | worker.go:255-400 | the object that updates its report in place ends with the report, cases, indexes, saves and error that the functional run computes |
| Worker.BenchmarkMatrix.ExecuteCase | worker.go:339-394 | one case: the record, every save in the middle of it, and whether the run stops |
| Worker.BenchmarkMatrix.RunMemory | memory.go:106-139 | the loop over connection counts saves each point and stops at the first error |
| Worker.BenchmarkMatrix.RunThroughput | iperf.go:233-249 | a measured sample is recorded and saved; a failed save is remembered |
| Worker.BenchmarkMatrix.PrepareReport | worker.go:402-460 | merges the selected cases into an older report, or refuses one that was measured elsewhere and leaves it alone |
| Worker.BenchmarkMatrix.FinishUp | worker.go:299-315 | the deferred function: no selected record stays running after an error, and the report is saved once more |
| WorkerCases.CaseOutcome | worker.go:339-394 | a case whose begin cannot be saved stops the run; otherwise its record, and nothing else, becomes passed if there is no error, canceled if the run is, a bug of the first sentinel that a clean error wraps, with its text as detail, and else failed with that text; the run stops on an error that is no bug exactly under fail-fast, a cancellation, or a failed cleanup or record |
| WorkerCases.NoPayloadIsBug | worker.go:361-374 | a throughput case that receives nothing while nothing else goes wrong is the bug "udp-no-payload", and the run goes on |
| WorkerCases.BegunFresh | worker.go:339-352 | a case begins with nothing of an earlier attempt, saved and announced as running |
| WorkerCases.BenchmarkFailure | benchmark.go:55-89 | a benchmark fails exactly if its measurement, a check or the cleanup does, and its error wraps just the sentinels that theirs wrap |
| WorkerCases.ThroughputOutcome | iperf.go:217-249 | succeeds exactly if something was received, time has passed, the counter has advanced and the save succeeds; the sample says how much of each, and nothing is recorded otherwise |
| WorkerCases.MemoryCase | memory.go:106-139 | the curve is made of the readings of the rounds up to the first error, each saved at once; the case succeeds exactly if all five rounds pass |
| WorkerLoop.CaseStepped | worker.go:339-394 | a case touches only its own record; it lets the run go on without a remembered failure exactly if it ends finished with every save done |
| WorkerLoop.LoopNilExactly | worker.go:330-400 | the loop returns nil if and only if it ends with every case finished, was never found canceled, and every save succeeded |
| WorkerLoop.FailFastStops | worker.go:386-388 | under fail-fast, a case that is left unfinished is the last one that is executed |
| WorkerLoop.NothingAfterCancel | worker.go:331-334 | once the run is found canceled no later case is executed, and the run fails |
| WorkerLoop.AllTried | worker.go:386-394 | without fail-fast, if nothing but measurements fails, every unfinished case is executed, whatever comes of the others |
| WorkerLoop.FinishExactly | worker.go:299-315 | the deferred function changes just the cases of the run that are still running, to canceled or failed with the error of the run, and saves the finished report |
| WorkerLoop.RunNilExactly | worker.go:255-400 | a run past its checks returns nil if and only if all saves succeeded, iperf3 could be read if needed, no case found the run canceled, and each ends up passed or as a bug |
| WorkerLoop.RunReports | worker.go:298-316 | a run past its checks saves two reports at least; all but the last are unfinished and without an error, the last is finished with the error of the run |
| WorkerSafety.ExecuteSound | worker.go:330-394 | an executed case keeps every saved report legal and all finished records as they are; unless the run stops, its record is no longer running, and finished if nothing failed |
| WorkerSafety.AddPointValid | memory.go:120-132 | a reading that is recorded leaves the case legal exactly when it has a process, a time and no negative duration |
| WorkerRuns.SavedReportsAreLegal | worker.go:298-395 | every report handed to saveReport is legal, extends the given report and all earlier saved ones, and keeps keys distinct |
| WorkerRuns.FinishedIsNeverStarted | worker.go:330-352 | a record is announced as started only while no earlier report has it passed or as a bug |
| WorkerRuns.RunOutcome | worker.go:299-400 | a run past its checks leaves no selected case running; if it returns nil, all are finished, and completedCases counts them all |
| WorkerRuns.ChainSafe | worker.go:402-458 | along any chain of runs, each given some report the previous one saved, all reports are legal, records never move, and finished ones never change |
| WorkerRuns.ChainNeverRepeats | worker.go:335-338 | a record that some run of a chain was given as finished is executed by no later run |
| WorkerOrigin.RefusedExactly | worker.go:412-429 | a report is refused if and only if it holds a measurement and was made in a place that differs in more than its description |
| WorkerOrigin.IperfRefusedExactly | worker.go:284-297 | the early check of iperf3 fails if and only if throughput is measured, the report holds a sample and the version of its iperf3, and the one there differs or cannot be read |
| WorkerOrigin.EnteredExactly | worker.go:255-298 | a run goes past its checks, and saves something, if and only if platform and host are known, the report is of this place if it holds a measurement, some case is unfinished, and iperf3 is not refused; else it saves nothing and returns nil exactly if all cases are finished |
| WorkerOrigin.PreparedImplementations | worker.go:431-441 | preparing adds the implementations of the cases, and keeps all but the paths of those that were there |
| WorkerOrigin.PreparedPaths | worker.go:431-441 | the path of an implementation is that of the last case that uses it |
| WorkerOrigin.SavedOrigin | worker.go:255-330 | every report that a run saves is of the place of the run, and of the origin of the report it was given |
| WorkerOrigin.ChainOrigin | worker.go:282-330 | along any chain of runs, once a case has passed all reports are of the same place, once a throughput case has passed they have the same iperf3, and recorded implementations stay the same |
| WorkerRuns.IndexesInjective | worker.go:431-458 | caseIndexes is injective if and only if the selected cases have distinct keys |
| WorkerRuns.SelectedIndexesInjective | worker.go:261-264 | the cases a worker runs have distinct keys and caseIndexes is injective, where a configuration determines the other options of its case |
| WorkerSpec.PrepareCasesIndexes | worker.go:443-457 | every index points at a record that matches its options, and earlier records keep their positions |
| WorkerProgress.StartedWithinTotal | controller.go:178-190 | with distinct keys and equal worker counts, the completed cases plus those announced as started so far never exceed the number of cases |
| WorkerProgress.ProgressExactly | controller.go:213-233 | on a given platform that bound holds for all outcomes if and only if the worker finds at most as many open cases as were left uncounted |
| WorkerProgress.StartedAtMostOpen | worker.go:330-352 | a run starts at most as many cases as it finds with an unfinished record |
| WorkerProgress.WorkersMustAgree | controller.go:260-271 | a legal report and a run with another number of tunnel workers for which the sum exceeds the number of cases |
| WorkerProgress.KeysMustBeDistinct | result.go:174-222 | a legal report with two records of one key for which the sum exceeds the number of cases |
| Options.CompletedExactly | controller.go:260-271 | completedCases counts the cases that have a record of their configuration, with the queues they have on the placement of the report, that passed or is a bug |
| Options.QueuesExactly | options.go:71-80 | a case has as many queues as there are workers exactly if it measures parallel streams on Linux with an implementation and stack that can, and else one |
| Controller.GroupJobs | controller.go:177-189 | every job with cases is in the queue of its own device, once and in order; progress and total are the sums over all jobs |
| Controller.ProgressWithinTotal | controller.go:191-256 | in every interleaving the progress stays within the total |
| Controller.OneJobPerDevice | controller.go:195-211 | in every interleaving at most one job per device is running, and no job passes the start gate twice |
| Controller.NoStartAfterCancel | controller.go:198-202 | after a cancellation no job passes the start gate any more, or is passed over as complete |
| Controller.FailFastCancels | controller.go:243-251 | under fail-fast, in every interleaving a collected error has canceled the run |
| Controller.NoStartAfterFailure | controller.go:243-251 | so that after it no job passes the start gate any more |
| Controller.CanceledOnlySo | controller.go:213-251 | nothing cancels the run but an interrupt, a failure to store the result file, or under fail-fast a failed worker |
| Controller.CancelsIndeed | controller.go:213-251 | and each of these does |
| Controller.FailedExactly | controller.go:243-248 | an error is collected exactly when a worker fails or the result file cannot be stored after it, and never forgotten |
| Controller.GateIsExact | controller.go:195-211 | a job is only started if its report leaves some case to run, and only passed over if it leaves none |
| Controller.ProgressIs | controller.go:213-233 | in every interleaving the progress is what was completed before, plus what was counted of each job |
| Controller.AllJobsDone | controller.go:256-257 | if the goroutines end without a cancellation, every job was started or found complete; if none failed, all cases of all jobs are completed, and every case that a worker announced was counted |
| Matrix.ExpandMatrix | configuration.go:357-539 | the loops compute the functional expansion, and refuse the same matrices |
| MatrixRefusals.RefusedExactly | configuration.go:357-539 | a matrix is refused if and only if it measures memory and has an axis a memory case may not have anywhere in it, a value is refused or a list empty, or nothing is left: its base is empty and every include has a filter |
| MatrixRefusals.PlanBecomes | configuration.go:377-402 | a matrix that is not refused at once is taken value by value: each axis, include, filter and exclude becomes what its values become, in the same order, a single value a list of one |
| Matrix.NormalizeMatrixValues | configuration.go:541-560 | normalises every value of every key, or refuses an empty list or a bad value |
| Matrix.ExpandVariants | configuration.go:389-400 | the loop over sorted keys computes the variants of an include in their order |
| Matrix.CombineAxes | configuration.go:403-432 | the loop over sorted axes computes the product without the stack, and the stacks aside |
| Matrix.CompleteMtus | configuration.go:462-486 | an entry without an MTU takes those of all matching includes that give nothing else |
| Matrix.AppendIncludes | configuration.go:487-513 | unfiltered includes look at the completed base, filtered ones at everything before them |
| MatrixValues.IntegersAccepted | configuration.go:571-607 | an integer axis takes exactly the integers of 64 bits, as numbers or as they print |
| MatrixValues.BitratesAccepted | configuration.go:571-607 | a bitrate is a plain number of bits up to 64 bits, and anything else eight times a rate in bytes that stays within 64 bits |
| MatrixValues.RatesAccepted | configuration.go:571-607 | a text that is not all digits is a rate in bytes, eight times which must stay within 64 bits |
| MatrixValues.SelectorExactly | configuration.go:571-607 | a stack is selected by the name of an implementation, a slash, and a name without one |
| MatrixValues.TextsAccepted | configuration.go:571-607 | which texts the text axes and the stack axis take |
| MatrixValues.ListsAccepted | configuration.go:541-560 | a list becomes the list of what its values become, and is refused exactly if one of them is |
| MatrixLaws.AddAxisAt | configuration.go:408-432 | the order of the product: for each value all the entries so far; for the variants of an include, for each entry all values |
| MatrixLaws.ProductCount | configuration.go:408-432 | an entry occurs in the product as often as its values occur in the lists, multiplied over the axes, and not at all with other keys |
| MatrixLaws.BaseExact | configuration.go:403-461 | an entry is in the base if and only if its other keys are the axes with listed values, its stack is listed and belongs to its implementation, or it has none because no listed stack does, and no exclude is a submap of it |
| MatrixLaws.BaseCount | configuration.go:403-461 | an entry that is not excluded occurs in the base as often as its values are listed, multiplied over the axes and the stack |
| MatrixLaws.BaseLength | configuration.go:403-444 | before excludes, the number of entries is the product of the lengths of the plain axes, each entry counted once for every listed stack that belongs to its implementation, and once if none does |
| MatrixLaws.VariantsExact | configuration.go:389-400 | the variants of an include are exactly the choices of one value for each of its keys |
| MatrixIncludes.IncludesExact | configuration.go:487-513 | an entry is listed if and only if it is completed base, or appended by some include from a matching source of that include, or as its bare overrides where an unfiltered include applies nowhere; the completed base is a prefix |
| MatrixIncludes.ListedConsistent | configuration.go:496-510 | every entry has a stack that belongs to its implementation, unless it is the bare overrides of an unfiltered include that applied to no entry of the completed base |
| MatrixIncludes.PassesExactly | configuration.go:562-569 | an entry passes a filter exactly if it has every key of the filter with a listed value |
| MatrixIncludes.CompletedExact | configuration.go:462-486 | an entry is in the completed base if and only if it is there with an MTU, or without one because no include that gives only MTUs lets it pass, or it is an entry without one plus a value of such an include |
| MatrixIncludes.IncludeOrderExpands | configuration.go:357-539 | permuting the includes of a matrix without filters only permutes what it expands to, and does not change whether it is refused |
| MatrixIncludes.IncludeOrder | configuration.go:487-513 | the same for the entries before and after the default axes, once everything is normalised |
| MatrixIncludes.MtuIncludesAddNothing | configuration.go:462-513 | with at least one include, all unfiltered and giving only MTUs, and a base that has none, the result is the base times all these MTUs, as a set |
| MatrixIncludes.FillExact | configuration.go:517-537 | filling the default axes yields exactly the completions of the entries |
| MatrixIncludes.DefaultsFilled | configuration.go:517-537 | a completion has ip 4 or 6, tcp or udp, and, unless it measures memory, upload or download where these were missing, and everything else as it was |
| MatrixIncludes.FillIdempotent | configuration.go:517-537 | filling twice is filling once |
| MatrixTypes.ExpansionTyped | configuration.go:366-370 | every entry has ip and network, and a direction exactly unless it measures memory, never an axis a memory case may not have, and every value has the type of its axis |
| Matrix.ReadEntry | configuration.go:310-327 | on values of the types of their axes, the conversion loop gives the case of the entry, whatever the order of its keys |
| MatrixValues.EntryRecovered | configuration.go:310-327 | a case is read exactly if its entry has an implementation and an MTU, and a stack only of that implementation; each value of the entry can be recovered from its field of the case, and other fields have their defaults |
| Matrix.ExpansionReadable | configuration.go:310-327 | on entries of an expansion no unchecked type assertion fails |
| Growth.ComputeGrowth | memory.go:56-72 | the two loops compute the slope of the points after the first |
| Growth.LeastSquares | memory.go:56-72 | the fitted line has a smaller sum of squared residuals than any other line |
| Growth.FittedLine | memory.go:56-72 | by how much any other line is worse than the fitted one |
| Growth.LinearData | memory.go:56-72 | on data on a line the slope is that of the line |
| Growth.SpreadExactly | memory.go:66-71 | the division is defined if and only if two of the points differ in their connections |
| Growth.PassedCurve | memory.go:148-168 | a passed curve that is legal has exactly five points, and its growth is defined |
| Echo.JudgeEcho | memory.go:347-353 | an echo of the same flow is a match, stale or a mismatch exactly as its number equals, is below or is above the current one |
| Echo.JudgeExactly | memory.go:347-353 | a match is the payload itself; stale is exactly what has the token and the index of the flow and a lower number |
| Echo.ForeignIsMismatch | memory.go:347-353 | a payload of another flow or another run is a mismatch, whatever its number |
| Echo.RoundTrip | memory.go:320-320 | a number written in big-endian bytes is read back |
| Echo.MismatchExactly | memory.go:318-354 | an echo of an earlier request is taken for a mismatch if and only if the number wraps around |
| Echo.MemoryFlow.PutSequence | memory.go:320-320 | writes the number into bytes 24 to 31 of the payload and nothing else |
| Echo.MemoryFlow.Exchange | memory.go:318-362 | over any number of exchanges no request in flight has a higher number than the current one and a mismatch is impossible; it is confirmed if and only if the echo of the current request arrives, which the server has read during this very exchange; it times out only when the time is used up, with a request for every attempt, after nothing but echoes of earlier requests; it fails with the socket exactly if that fails |
| Echo.Datagrams.Receive | memory.go:247-265 | a datagram that arrives is an unaltered copy of some request that the server has read; a read without one takes all its time |
| Claims.ClaimedOnce | memory.go:276-316 | in every interleaving no index is begun twice, no two workers are at the same flow, older flows are untouched, and confirm never meets a missing flow |
| Claims.ReturnedExactly | memory.go:314-315 | when nil is returned, add has filled exactly the new flows and confirm has raised every number by exactly one; every index was begun exactly once |
| Claims.AlwaysEnds | memory.go:276-316 | no interleaving is stuck before all workers are gone, and none is longer than five moves for each index and two for each worker |
| Claims.CanceledExactly | memory.go:287-312 | the workers are canceled from outside or by one that fails, and not otherwise |
| Claims.AfterCancel | memory.go:276-316 | once canceled, no exchange is begun but by a worker that had passed the check before, and all workers are gone after at most five moves each, however many flows are left |
| Claims.RoundsExactly | memory.go:106-139 | after any number of successful rounds there are 250 flows for each, each in its place, and its number says how many rounds it has seen |
| Claims.NumbersStaySmall | memory.go:106-139 | in a memory case no number exceeds nine |
| Lifecycle.Process.Supervise | process.go:139-190 | reaps the process and closes done exactly once; a stop has failed exactly if it took force or ended in an unexpected exit, and a process that was stopped has failed only if the stop has |
| Lifecycle.Process.Stop | process.go:194-198 | returns once the process has ended, with the error of its stop |
| Lifecycle.Benchmark.StartProcess | process.go:112-192 | a process whose affinity cannot be set is reaped before the error is returned |
| Lifecycle.Benchmark.StartServer | iperf.go:60-78 | a server is only replaced when it is gone |
| Lifecycle.Benchmark.RunClient | iperf.go:80-147 | the client has ended on every path; after a success so has the one-off server |
| Lifecycle.Benchmark.RunThroughput | iperf.go:149-250 | on every path each process that was started is held or reaped |
| Lifecycle.Benchmark.Close | benchmark.go:173-229 | every process that was ever started is reaped and everything taken is given back; the effects on the outside are those of Cleanup; it fails exactly if the stop of a process or something outside does; a second call has no effect and succeeds |
| Lifecycle.Benchmark.Run | benchmark.go:55-89 | however a benchmark goes, each process it started has been reaped exactly once and everything taken is given back when it returns; it fails exactly if something outside did, a tunnel or the relay had ended early, or the stop of a process failed; a success has started all processes of its kind of case |
| Lifecycle.CleanupInOrder | benchmark.go:173-229 | exactly the held processes are stopped; the tunnels are all told to stop first, and route, interface and directory come last |
| Lifecycle.CleanupExactly | benchmark.go:173-229 | a process is canceled, or stopped, exactly if it is held in that role; the load is closed, the route deleted by its index, the interface awaited and the directory removed exactly if there is one; each once, in that order, the stops in the order of the tunnels |
| Cpus.SelectCpus | cpu.go:21-52 | the greedy pass chooses the whole group of a class that no other class beats, or nothing if no class has two cores |
| Cpus.ChosenIsBest | cpu.go:29-48 | with distinct ids, the choice is the complete group, at the lowest id of each core, of a class that is maximal by capacity and then by size, split into a lower half and the rest |
| Cpus.ChosenIsDistinct | cpu.go:43-47 | the two halves are duplicate-free and disjoint |
| Cpus.PassesExactly | platform_linux.go:141-148 | count and membership test for equality of sets if and only if the processors are distinct |
| Cpus.VerifyAffinity | platform_linux.go:123-151 | accepts a process exactly when every thread that still exists passes, which for distinct processors means having exactly these |
| Artifacts.ArtifactPreparer.Find | artifacts.go:121-167 | answer and new contents of the three maps |
| Artifacts.LatestIsOneVersion | artifacts.go:122-125 | over any calls all successful requests for the latest version of a software return the same version, on every target |
| Artifacts.FoundAsAsked | artifacts.go:121-167 | a successful call returns the version that was asked for, none for a package, and for the latest one the version that is pinned afterwards |
| Artifacts.CachedForItsKey | artifacts.go:158-165 | every cached binary was prepared for the software, the version or package, and the target of its key |
| Artifacts.CachedExactly | artifacts.go:158-165 | a key is cached if and only if something was prepared for it |
| Artifacts.UnsupportedExactly | artifacts.go:139-157 | a key is remembered as unsupported if and only if a call for it found nothing and was told so; other failures are not remembered |
| Artifacts.ResultExactly | artifacts.go:121-167 | a call returns a binary, an unsupported target or another error exactly as one was prepared for its key, or refused, by an earlier call, and else as its own preparation goes |
| Artifacts.NoKeyTwice | artifacts.go:130-134 | no key is prepared twice; if an artifact is, the later preparation was of the latest version, and the earlier one of just that version |
| Artifacts.PreparedAgainExactly | artifacts.go:122-165 | a call prepares an artifact that was already prepared if and only if it asks for the latest version, none is pinned, and the version it gets is already in the cache for its target |
| Artifacts.LatestPreparesAgain | artifacts.go:158-165 | two calls that prepare the same artifact twice |
| Summary.GroupCases | summary.go:72-86 | the groups divide up the cases of a matrix by workload, each in order, and in the order in which workloads first appear |
| Summary.SameGroup | summary.go:78-85 | two cases share a group if and only if their configurations differ at most in implementation and stack, and no case is in two groups |
| Summary.CompareIsLexicographic | summary.go:93-109 | the case split is the lexicographic order: passed first; of these, unless the bitrate is unlimited, those at or above the minimum rate by cost; then the others by falling rate |
| Summary.CompareIsOrder | summary.go:93-109 | the comparator is antisymmetric in sign, transitive and total |
| Summary.CompareCases | summary.go:93-109 | of two legal cases, by their samples: the passed one first; when both reach five megabits a second, unless unlimited, the one with the lower cost for each bit; else the one with the higher rate |
| Summary.SortThroughput | summary.go:93-109 | the indices come in that order, rows of equal rank as they were, and none is lost |
| Summary.SortMemory | summary.go:187-208 | passed cases come by rising growth, then the others, equal ones as they were, and none is lost |
| Ticks.ProductFitsExactly | platform_linux.go:204-204 | the second product fits into 64 bits for every total if and only if the frequency is at most 18446744074 |
| Ticks.ConvertRightExactly | platform_linux.go:203-204 | up to that frequency, and no further, the conversion is the exact value rounded down for every total whose value fits |
| Ticks.ConvertRises | platform_darwin.go:99-101 | up to that frequency, and if the later value fits into 64 bits, a counter that does not go back does not go back in nanoseconds |
| Ticks.TakeSnapshot | iperf.go:265-275 | the loop sums all counters, in 64 bits, and fails if one cannot be read |
| Ticks.SnapshotFallsExactly | iperf.go:265-275 | between snapshots in which no counter goes back, a sum of 64 bits goes back if and only if the growth of all processes together carries it over 2^64 |
| Ticks.SnapshotRisesExactly | iperf.go:265-275 | for given later readings, no earlier ones with a greater snapshot exist if and only if both totals fit into 64 bits or leave the greatest number of 64 bits |
| Ticks.SnapshotCanFall | iperf.go:265-275 | readings of two processes that do not go back and make the snapshot fall to zero |
| Ticks.ProcessesRise | platform_linux.go:195-204 | from the ticks of each process, added in 64 bits, to the snapshot: if no process goes back and the later ticks and totals fit, both snapshots are the exact totals and the later one is not below the earlier |
| Ticks.MeasurementExactly | iperf.go:278-296 | a measurement is made if and only if time has passed, something was received and the counter has advanced; it is always one that a legal report may hold |
| Sorting.SortedStable | summary.go:93-93 | a stable sort keeps equivalent elements in their order |
| Sorting.SortedPermutes | summary.go:93-93 | the result is in order and a permutation |

## Left out

- Network, file system, archives, SSH, sudo and OrbStack commands, release download and extraction: only their outcomes appear, as free choices; of the release client only that it returns the version it was asked for.
- YAML and JSON: a matrix is given as decoded values, and what is written to a report is read back unchanged.
- Configuration documents of the tunnel implementations and of the relay, and the names of release assets.
- The first error of several: a refused matrix is refused, whatever the message; errors of a case keep only their text and which bug they stand for.
- Wall clock: GoodScript asks that a saved reading has no negative duration, which needs a clock that does not step back between observeStarted and the reading, since UTC() drops the monotonic one. AddPointValid says that exactly this keeps the report legal.
- Rounding of floating-point numbers: they are reals. NaN and infinities do not occur.
- Timeouts: a wait ends by success, by failure or by time, without durations, except in Echo, where every read takes some of the time that is left.
- The echo over TCP, which is a single write and a single read.
- The reference from the running benchmark into the report: the record is reassigned by its index. The identity of records beyond their index is not modelled.
- The pinning of known Windows bugs before scheduling (controller.go:89-127), which rewrites records and is outside the resume statements.
- Cases that readConfiguration refuses or skips after the expansion, `caseConfiguration.validate` among them: one comparison each.
- `byteformats`: how a text rate is read is a parameter of the expansion.
- Names of axes other than the nine known ones: one constructor, refused as the program refuses them.
- A version that looks like a path, which only an edited report could ask iperf3 for; elsewhere a version is "latest" or a semantic version.
- The counters of Windows, which are ticks times 100.
- Titles, labels, tables and log lines; start and finish times of a report except whether it is finished.
- A worker that finds every case finished returns without a save, as the program does; nothing is claimed of the report in memory then.
- The search for a panic in the output of a process is a free choice, and the check of the processes before a snapshot is part of the life of the processes, not of the counters.
