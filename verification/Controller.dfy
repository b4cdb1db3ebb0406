/**
 * How the controller schedules its jobs (controller.go): one goroutine per device takes that device's jobs in turn, all
 * of them share one lock, one cancellation and one progress count. The steps below are the critical sections under the
 * lock; between them any goroutine may go next. A running job is a worker run as WorkerSpec.Run computes it, of which
 * the controller has received some of the saved reports.
 */
module Controller {
  import opened Wrappers
  import Seqs
  import opened Reports
  import opened Options
  import opened WorkerSpec
  import opened WorkerRuns
  import opened WorkerProgress

  /** `report` is the environment's report when the jobs are grouped, `world` everything its worker will meet. */
  datatype Job = Job(device: string, cases: seq<BenchmarkOptions>, report: Option<Report>, world: World)

  // ----- Grouping the jobs by device

  function Sum(values: seq<nat>): nat {
    if values == [] then 0 else Sum(values[..|values| - 1]) + values[|values| - 1]
  }

  function Sizes(jobs: seq<Job>): (sizes: seq<nat>)
    ensures |sizes| == |jobs|
  {
    seq(|jobs|, i requires 0 <= i < |jobs| => |jobs[i].cases|)
  }

  function Completed(jobs: seq<Job>): (completed: seq<nat>)
    ensures |completed| == |jobs|
  {
    seq(|jobs|, i requires 0 <= i < |jobs| => CompletedCases(jobs[i].cases, jobs[i].report))
  }

  ghost predicate QueueEntries(jobs: seq<Job>, queues: map<string, seq<nat>>) {
    forall device, k :: device in queues && 0 <= k < |queues[device]| ==>
      && queues[device][k] < |jobs|
      && jobs[queues[device][k]].device == device
      && jobs[queues[device][k]].cases != []
  }

  ghost predicate QueuesOrdered(queues: map<string, seq<nat>>) {
    forall device, k, l :: device in queues && 0 <= k < l < |queues[device]| ==> queues[device][k] < queues[device][l]
  }

  ghost predicate QueuesCover(jobs: seq<Job>, queues: map<string, seq<nat>>) {
    forall i :: 0 <= i < |jobs| && jobs[i].cases != [] ==> jobs[i].device in queues && i in queues[jobs[i].device]
  }

  /** Every job with cases stands once in the queue of its own device, and every queue keeps the order of the jobs. */
  ghost predicate Grouped(jobs: seq<Job>, queues: map<string, seq<nat>>) {
    QueueEntries(jobs, queues) && QueuesOrdered(queues) && QueuesCover(jobs, queues)
  }

  method GroupJobs(jobs: seq<Job>) returns (queues: map<string, seq<nat>>, progress: nat, total: nat)
    ensures Grouped(jobs, queues)
    ensures progress == Sum(Completed(jobs)) && total == Sum(Sizes(jobs))
  {
    hide Grouped, Completed, Sizes, Sum, CompletedCases;
    queues, progress, total := map[], 0, 0;
    GroupNone();
    assert jobs[..0] == [];
    NoSums();
    for i := 0 to |jobs|
      invariant Grouped(jobs[..i], queues)
      invariant progress == Sum(Completed(jobs[..i])) && total == Sum(Sizes(jobs[..i]))
    {
      var job := jobs[i];
      assert jobs[..i + 1] == jobs[..i] + [job];
      SumsNext(jobs[..i], job);
      GroupNext(jobs[..i], queues, job);
      if job.cases == [] {
        EmptyCompleted(job);
        continue;
      }
      total := total + |job.cases|;
      progress := progress + CompletedCases(job.cases, job.report);
      var queue := if job.device in queues then queues[job.device] else [];
      queues := queues[job.device := queue + [i]];
    }
    assert jobs[..|jobs|] == jobs;
  }

  lemma SumsNext(jobs: seq<Job>, job: Job)
    ensures Sum(Completed(jobs + [job])) == Sum(Completed(jobs)) + CompletedCases(job.cases, job.report)
    ensures Sum(Sizes(jobs + [job])) == Sum(Sizes(jobs)) + |job.cases|
  {
    hide CompletedCases;
    assert Completed(jobs + [job])[..|jobs|] == Completed(jobs);
    assert Sizes(jobs + [job])[..|jobs|] == Sizes(jobs);
  }

  lemma NoSums()
    ensures Sum(Completed([])) == Sum(Sizes([])) == 0
  {
  }

  lemma GroupNone()
    ensures Grouped([], map[])
  {
  }

  lemma EmptyCompleted(job: Job)
    requires job.cases == []
    ensures CompletedCases(job.cases, job.report) == 0
  {
  }

  function Appended(queues: map<string, seq<nat>>, job: Job, i: nat): map<string, seq<nat>> {
    if job.cases == [] then queues
    else queues[job.device := (if job.device in queues then queues[job.device] else []) + [i]]
  }

  lemma GroupNext(jobs: seq<Job>, queues: map<string, seq<nat>>, job: Job)
    requires Grouped(jobs, queues)
    ensures Grouped(jobs + [job], Appended(queues, job, |jobs|))
  {
    hide QueuesCover;
    CoverNext(jobs, queues, job);
  }

  lemma CoverNext(jobs: seq<Job>, queues: map<string, seq<nat>>, job: Job)
    requires QueuesCover(jobs, queues)
    ensures QueuesCover(jobs + [job], Appended(queues, job, |jobs|))
  {
  }

  // ----- The scheduler

  datatype Phase = AtGate | Working(received: nat, recordFailed: bool) | Ended

  /** One goroutine: how many of its jobs it is done with, and what it is doing. */
  datatype Device = Device(position: nat, phase: Phase)

  /**
   * `started` lists the jobs that passed the start gate, `covered` those that were skipped as complete, `counted` how
   * many cases of each job have been added to the progress; `failed` says whether some error was collected.
   */
  datatype System = System(
    devices: map<string, Device>, reports: seq<Option<Report>>, canceled: bool, failed: bool, progress: nat,
    started: seq<nat>, covered: set<nat>, counted: seq<nat>)

  datatype Setup = Setup(jobs: seq<Job>, queues: map<string, seq<nat>>, failFast: bool)

  ghost predicate ValidSetup(setup: Setup) {
    && Grouped(setup.jobs, setup.queues)
    && forall i :: 0 <= i < |setup.jobs| ==> GoodJob(setup.jobs[i])
  }

  /** Reports come from readReport, cases from readConfiguration, and the placement has not changed. */
  ghost predicate GoodJob(job: Job) {
    && ValidOption(job.report) && OptionDistinct(job.report)
    && GoodCases(job.cases) && GoodWorld(job.world) && SameWorkers(job.report, job.world)
  }

  function WorkerRun(setup: Setup, i: nat): Outcome
    requires i < |setup.jobs|
  {
    Run(setup.jobs[i].report, setup.jobs[i].cases, setup.failFast, setup.jobs[i].world)
  }

  ghost predicate Init(setup: Setup, s: System) {
    && s.devices.Keys == setup.queues.Keys
    && (forall d :: d in s.devices ==> s.devices[d] == Device(0, AtGate))
    && s.reports == seq(|setup.jobs|, i requires 0 <= i < |setup.jobs| => setup.jobs[i].report)
    && !s.canceled && !s.failed && s.started == [] && s.covered == {}
    && s.progress == Sum(Completed(setup.jobs))
    && s.counted == seq(|setup.jobs|, i => 0)
  }

  /** The job whose turn it is on a device. */
  ghost predicate Turn(setup: Setup, s: System, d: string, i: nat) {
    && d in s.devices && d in setup.queues
    && s.devices[d].position < |setup.queues[d]| && setup.queues[d][s.devices[d].position] == i
    && i < |setup.jobs| && |s.reports| == |s.counted| == |setup.jobs|
  }

  ghost predicate Complete(setup: Setup, s: System, i: nat)
    requires i < |setup.jobs| == |s.reports|
  {
    CompletedCases(setup.jobs[i].cases, s.reports[i]) == |setup.jobs[i].cases|
  }

  /** The user's interrupt, at any time. */
  ghost predicate Interrupt(s: System, t: System) {
    t == s.(canceled := true)
  }

  /** The goroutine ends: no job is left, or the run was canceled. */
  ghost predicate Leave(setup: Setup, s: System, t: System, d: string) {
    && d in s.devices && d in setup.queues && s.devices[d].phase == AtGate
    && (s.devices[d].position == |setup.queues[d]| || s.canceled)
    && t == s.(devices := s.devices[d := s.devices[d].(phase := Ended)])
  }

  ghost predicate Skip(setup: Setup, s: System, t: System, d: string, i: nat) {
    && Turn(setup, s, d, i) && s.devices[d].phase == AtGate && !s.canceled && Complete(setup, s, i)
    && t == s.(devices := s.devices[d := Device(s.devices[d].position + 1, AtGate)], covered := s.covered + {i})
  }

  ghost predicate Start(setup: Setup, s: System, t: System, d: string, i: nat) {
    && Turn(setup, s, d, i) && s.devices[d].phase == AtGate && !s.canceled && !Complete(setup, s, i)
    && t == s.(devices := s.devices[d := s.devices[d].(phase := Working(0, false))], started := s.started + [i])
  }

  /**
   * `save`: the next update of the worker is stored; the first failure to store cancels everything and ends the
   * reception.
   */
  ghost predicate Receive(setup: Setup, s: System, t: System, d: string, i: nat, storeFails: bool) {
    && Turn(setup, s, d, i) && s.devices[d].phase.Working? && !s.devices[d].phase.recordFailed
    && var n := s.devices[d].phase.received;
    && n < |WorkerRun(setup, i).saves|
    && var u := WorkerRun(setup, i).saves[n];
    && var counts := !storeFails && u.started.Some?;
    && t == s.(
         devices := s.devices[d := s.devices[d].(phase := Working(n + 1, storeFails))],
         reports := s.reports[i := Some(u.report)],
         canceled := s.canceled || storeFails,
         progress := s.progress + (if counts then 1 else 0),
         counted := s.counted[i := s.counted[i] + (if counts then 1 else 0)])
  }

  /**
   * The worker is gone: with an error at any time, without one only when everything it saved was received, it saved
   * something, and its run returned nil.
   */
  ghost predicate Return(setup: Setup, s: System, t: System, d: string, i: nat, runFails: bool, storeFails: bool) {
    && Turn(setup, s, d, i) && s.devices[d].phase.Working?
    && var Working(n, recordFailed) := s.devices[d].phase;
    && (!runFails ==> !recordFailed && 0 < n == |WorkerRun(setup, i).saves| && WorkerRun(setup, i).failure.None?)
    && t == s.(
         devices := s.devices[d := Device(s.devices[d].position + 1, AtGate)],
         canceled := s.canceled || recordFailed || storeFails || (runFails && setup.failFast),
         failed := s.failed || runFails || storeFails)
  }

  ghost predicate Next(setup: Setup, s: System, t: System) {
    || Interrupt(s, t)
    || (exists d :: Leave(setup, s, t, d))
    || (exists d, i :: Skip(setup, s, t, d, i))
    || (exists d, i :: Start(setup, s, t, d, i))
    || (exists d, i, storeFails :: Receive(setup, s, t, d, i, storeFails))
    || (exists d, i, runFails, storeFails :: Return(setup, s, t, d, i, runFails, storeFails))
  }

  ghost predicate Behavior(setup: Setup, trace: seq<System>) {
    && |trace| > 0 && Init(setup, trace[0])
    && forall k :: 0 <= k < |trace| - 1 ==> Next(setup, trace[k], trace[k + 1])
  }

  // ----- The invariant

  /**
   * What holds of the i-th job, the k-th in the queue of a device that is this far, when its report, its count, and its
   * being started or covered are as given.
   */
  ghost predicate JobInv(setup: Setup, i: nat, k: nat, device: Device, report: Option<Report>, counted: nat,
                         started: bool, covered: bool, failed: bool)
    requires i < |setup.jobs|
  {
    var saves := WorkerRun(setup, i).saves;
    && (!started ==> report == setup.jobs[i].report && counted == 0)
    && (k > device.position ==> !started && !covered)
    && (k == device.position ==> (started <==> device.phase.Working?) && !covered)
    && (k < device.position ==> started || covered)
    && (k < device.position && !failed ==> CompletedCases(setup.jobs[i].cases, report) == |setup.jobs[i].cases|)
    && (k == device.position && device.phase.Working? ==>
          var n := device.phase.received;
          && n <= |saves|
          && counted <= StartedCount(saves[..n])
          && (!device.phase.recordFailed ==> counted == StartedCount(saves[..n]))
          && (n > 0 ==> report == Some(saves[n - 1].report)))
    && counted <= StartedCount(saves)
    && (k < device.position && started && !failed ==> counted == StartedCount(saves))
    && (started ==> CompletedCases(setup.jobs[i].cases, setup.jobs[i].report) < |setup.jobs[i].cases|)
    && (covered ==> CompletedCases(setup.jobs[i].cases, setup.jobs[i].report) == |setup.jobs[i].cases|)
  }

  ghost predicate DeviceInv(queue: seq<nat>, device: Device, canceled: bool) {
    && device.position <= |queue|
    && (device.phase.Working? ==> device.position < |queue|)
    && (device.phase.Ended? ==> canceled || device.position == |queue|)
  }

  /** JobInv of the k-th job of a device, in a system of the right shape. */
  ghost predicate At(setup: Setup, s: System, d: string, k: nat) {
    && d in s.devices && d in setup.queues && k < |setup.queues[d]|
    && var i := setup.queues[d][k];
    && i < |setup.jobs| && i < |s.reports| && i < |s.counted|
    && JobInv(setup, i, k, s.devices[d], s.reports[i], s.counted[i], i in s.started, i in s.covered, s.failed)
  }

  ghost predicate Inv(setup: Setup, s: System) {
    && |s.reports| == |s.counted| == |setup.jobs|
    && s.devices.Keys == setup.queues.Keys
    && (forall d :: d in s.devices ==> DeviceInv(setup.queues[d], s.devices[d], s.canceled))
    && (forall d, k :: d in s.devices && 0 <= k < |setup.queues[d]| ==> At(setup, s, d, k))
    && Seqs.Distinct(s.started)
    && (forall i :: 0 <= i < |setup.jobs| && setup.jobs[i].cases == [] ==> s.counted[i] == 0)
    && s.progress == Sum(Completed(setup.jobs)) + Sum(s.counted)
  }

  /** One device moves on; of the jobs, only one may change. */
  ghost predicate OnlyJob(s: System, t: System, d: string, i: nat) {
    && d in s.devices && d in t.devices && t.devices == s.devices[d := t.devices[d]]
    && |t.reports| == |s.reports| && |t.counted| == |s.counted|
    && (forall j: nat :: j != i ==>
          && (j < |s.reports| ==> t.reports[j] == s.reports[j])
          && (j < |s.counted| ==> t.counted[j] == s.counted[j])
          && (j in t.started <==> j in s.started)
          && (j in t.covered <==> j in s.covered))
    && (s.failed ==> t.failed) && (s.canceled ==> t.canceled)
  }

  /** No other device has the job in its queue. */
  ghost predicate OwnJob(queues: map<string, seq<nat>>, d: string, i: nat) {
    forall e, k :: e in queues && e != d && 0 <= k < |queues[e]| ==> queues[e][k] != i
  }

  lemma QueuedOnce(setup: Setup, d: string, p: nat)
    requires Grouped(setup.jobs, setup.queues) && d in setup.queues && p < |setup.queues[d]|
    ensures setup.queues[d][p] < |setup.jobs| && OwnJob(setup.queues, d, setup.queues[d][p])
    ensures forall k :: 0 <= k < |setup.queues[d]| && k != p ==> setup.queues[d][k] != setup.queues[d][p]
  {
  }

  /** If the jobs of the moving device are all right afterwards, so are those of all devices. */
  lemma FrameInv(setup: Setup, s: System, t: System, d: string, i: nat)
    requires Inv(setup, s) && OnlyJob(s, t, d, i) && OwnJob(setup.queues, d, i) && d in setup.queues
    requires DeviceInv(setup.queues[d], t.devices[d], t.canceled)
    requires forall k :: 0 <= k < |setup.queues[d]| ==> At(setup, t, d, k)
    ensures forall e :: e in t.devices ==> DeviceInv(setup.queues[e], t.devices[e], t.canceled)
    ensures forall e, k :: e in t.devices && 0 <= k < |setup.queues[e]| ==> At(setup, t, e, k)
  {
    hide WorkerRun, CompletedCases;
    forall e, k | e in t.devices && 0 <= k < |setup.queues[e]|
      ensures At(setup, t, e, k)
    {
      if e != d {
        assert At(setup, s, e, k);
        assert setup.queues[e][k] != i;
      }
    }
  }

  /** The same job when its device moves from `before` to `after`, for a job whose turn it is not. */
  lemma OtherTurn(setup: Setup, i: nat, k: nat, before: Device, after: Device, report: Option<Report>, counted: nat,
                  started: bool, covered: bool, failed: bool, failed': bool)
    requires i < |setup.jobs| && JobInv(setup, i, k, before, report, counted, started, covered, failed)
    requires k != before.position && (failed ==> failed')
    requires after.position == before.position || (after.position == before.position + 1 && after.phase == AtGate)
    ensures JobInv(setup, i, k, after, report, counted, started, covered, failed')
  {
  }

  // ----- Sums

  lemma {:induction false} SumUpdate(values: seq<nat>, i: nat, value: nat)
    requires i < |values|
    ensures Sum(values[i := value]) == Sum(values) - values[i] + value
  {
    var last := |values| - 1;
    if i < last {
      assert values[i := value][..last] == values[..last][i := value];
      SumUpdate(values[..last], i, value);
    } else {
      assert values[i := value][..last] == values[..last];
    }
  }

  lemma {:induction false} SumWithin(a: seq<nat>, b: seq<nat>, c: seq<nat>)
    requires |a| == |b| == |c| && forall i :: 0 <= i < |a| ==> a[i] + b[i] <= c[i]
    ensures Sum(a) + Sum(b) <= Sum(c)
  {
    if a != [] {
      SumWithin(a[..|a| - 1], b[..|b| - 1], c[..|c| - 1]);
    }
  }

  // ----- Every step keeps the invariant

  lemma LeaveInv(setup: Setup, s: System, t: System, d: string)
    requires Grouped(setup.jobs, setup.queues) && Inv(setup, s) && Leave(setup, s, t, d)
    ensures Inv(setup, t)
  {
    hide JobInv;
    forall k | 0 <= k < |setup.queues[d]|
      ensures At(setup, t, d, k)
    {
      assert At(setup, s, d, k);
      var i := setup.queues[d][k];
      LeaveJob(setup, i, k, s.devices[d], s.reports[i], s.counted[i], i in s.started, i in s.covered, s.failed);
    }
    FrameInv(setup, s, t, d, |setup.jobs|);
  }

  lemma LeaveJob(setup: Setup, i: nat, k: nat, device: Device, report: Option<Report>, counted: nat,
                 started: bool, covered: bool, failed: bool)
    requires i < |setup.jobs| && JobInv(setup, i, k, device, report, counted, started, covered, failed)
    requires device.phase == AtGate
    ensures JobInv(setup, i, k, device.(phase := Ended), report, counted, started, covered, failed)
  {
  }

  /** A step in which the device whose turn it is moves on, given what becomes of its current job. */
  lemma TurnInv(setup: Setup, s: System, t: System, d: string, i: nat)
    requires Grouped(setup.jobs, setup.queues) && Inv(setup, s) && Turn(setup, s, d, i) && OnlyJob(s, t, d, i)
    requires DeviceInv(setup.queues[d], t.devices[d], t.canceled)
    requires
      || t.devices[d].position == s.devices[d].position
      || (t.devices[d].position == s.devices[d].position + 1 && t.devices[d].phase == AtGate)
    requires At(setup, t, d, s.devices[d].position)
    ensures forall e :: e in t.devices ==> DeviceInv(setup.queues[e], t.devices[e], t.canceled)
    ensures forall e, k :: e in t.devices && 0 <= k < |setup.queues[e]| ==> At(setup, t, e, k)
  {
    hide JobInv;
    var p := s.devices[d].position;
    QueuedOnce(setup, d, p);
    forall k | 0 <= k < |setup.queues[d]|
      ensures At(setup, t, d, k)
    {
      if k != p {
        assert At(setup, s, d, k);
        var j := setup.queues[d][k];
        OtherTurn(setup, j, k, s.devices[d], t.devices[d], s.reports[j], s.counted[j], j in s.started, j in s.covered,
                  s.failed, t.failed);
      }
    }
    FrameInv(setup, s, t, d, i);
  }

  lemma SkipInv(setup: Setup, s: System, t: System, d: string, i: nat)
    requires Grouped(setup.jobs, setup.queues) && Inv(setup, s) && Skip(setup, s, t, d, i)
    ensures Inv(setup, t)
  {
    hide CompletedCases, WorkerRun;
    assert At(setup, s, d, s.devices[d].position);
    TurnInv(setup, s, t, d, i);
  }

  lemma StartInv(setup: Setup, s: System, t: System, d: string, i: nat)
    requires Grouped(setup.jobs, setup.queues) && Inv(setup, s) && Start(setup, s, t, d, i)
    ensures Inv(setup, t)
  {
    hide CompletedCases, WorkerRun;
    assert At(setup, s, d, s.devices[d].position);
    assert WorkerRun(setup, i).saves[..0] == [];
    CompletedWithin(setup.jobs[i].cases, setup.jobs[i].report);
    TurnInv(setup, s, t, d, i);
    assert i !in s.started;
  }

  lemma ReceiveJob(setup: Setup, i: nat, device: Device, counted: nat, report: Option<Report>, started: bool,
                   covered: bool, failed: bool, storeFails: bool)
    requires i < |setup.jobs| && device.phase.Working? && device.phase.received < |WorkerRun(setup, i).saves|
    requires !device.phase.recordFailed
    requires JobInv(setup, i, device.position, device, report, counted, started, covered, failed)
    ensures
      var n := device.phase.received;
      var u := WorkerRun(setup, i).saves[n];
      JobInv(setup, i, device.position, device.(phase := Working(n + 1, storeFails)), Some(u.report),
             counted + (if !storeFails && u.started.Some? then 1 else 0), started, covered, failed)
  {
    hide CompletedCases, WorkerRun;
    var n, saves := device.phase.received, WorkerRun(setup, i).saves;
    assert saves[..n + 1][..n] == saves[..n];
    StartedCountPrefix(saves, n + 1);
  }

  lemma ReceiveInv(setup: Setup, s: System, t: System, d: string, i: nat, storeFails: bool)
    requires Grouped(setup.jobs, setup.queues) && Inv(setup, s) && Receive(setup, s, t, d, i, storeFails)
    ensures Inv(setup, t)
  {
    hide WorkerRun, JobInv, StartedCount, Completed, Sum, At;
    SumUpdate(s.counted, i, t.counted[i]);
    assert setup.jobs[i].cases != [];
    ReceiveAt(setup, s, t, d, i, storeFails);
    TurnInv(setup, s, t, d, i);
  }

  lemma ReceiveAt(setup: Setup, s: System, t: System, d: string, i: nat, storeFails: bool)
    requires Grouped(setup.jobs, setup.queues) && Inv(setup, s) && Receive(setup, s, t, d, i, storeFails)
    ensures At(setup, t, d, s.devices[d].position)
  {
    hide WorkerRun, JobInv, StartedCount, Completed, Sum;
    assert At(setup, s, d, s.devices[d].position);
    ReceiveJob(setup, i, s.devices[d], s.counted[i], s.reports[i], i in s.started, i in s.covered, s.failed, storeFails);
  }

  lemma ReturnInv(setup: Setup, s: System, t: System, d: string, i: nat, runFails: bool, storeFails: bool)
    requires ValidSetup(setup) && Inv(setup, s) && Return(setup, s, t, d, i, runFails, storeFails)
    ensures Inv(setup, t)
  {
    hide CompletedCases, WorkerRun, JobInv;
    assert At(setup, s, d, s.devices[d].position);
    ReturnJob(setup, i, s.devices[d], s.counted[i], s.reports[i], i in s.started, i in s.covered, s.failed, runFails, t.failed);
    TurnInv(setup, s, t, d, i);
  }

  lemma ReturnJob(setup: Setup, i: nat, device: Device, counted: nat, report: Option<Report>, started: bool,
                  covered: bool, failed: bool, runFails: bool, failed': bool)
    requires ValidSetup(setup) && i < |setup.jobs| && device.phase.Working? && (failed ==> failed') && (runFails ==> failed')
    requires JobInv(setup, i, device.position, device, report, counted, started, covered, failed)
    requires !runFails ==>
      && !device.phase.recordFailed && WorkerRun(setup, i).failure.None?
      && 0 < device.phase.received == |WorkerRun(setup, i).saves|
    ensures JobInv(setup, i, device.position, Device(device.position + 1, AtGate), report, counted, started, covered, failed')
  {
    hide CompletedCases, WorkerRun;
    if !runFails {
      ReturnedComplete(setup, i);
      var saves := WorkerRun(setup, i).saves;
      assert saves[..|saves|] == saves;
    }
  }

  /** A run that returned nil and saved something has completed all cases of its job. */
  lemma ReturnedComplete(setup: Setup, i: nat)
    requires ValidSetup(setup) && i < |setup.jobs|
    requires WorkerRun(setup, i).failure.None? && |WorkerRun(setup, i).saves| > 0
    ensures
      var saves := WorkerRun(setup, i).saves;
      CompletedCases(setup.jobs[i].cases, Some(saves[|saves| - 1].report)) == |setup.jobs[i].cases|
  {
    hide Run, CompletedCases;
    var job := setup.jobs[i];
    if !Entered(job.report, job.cases, setup.failFast, job.world) {
      NotEnteredSavesNothing(job.report, job.cases, setup.failFast, job.world);
    }
    RunOutcome(job.report, job.cases, setup.failFast, job.world);
  }

  lemma StepInv(setup: Setup, s: System, t: System)
    requires ValidSetup(setup) && Inv(setup, s) && Next(setup, s, t)
    ensures Inv(setup, t)
  {
    hide Grouped, Inv, Leave, Skip, Start, Receive, Return, GoodJob;
    if Interrupt(s, t) {
      InterruptInv(setup, s, t);
    } else if d :| Leave(setup, s, t, d) {
      LeaveInv(setup, s, t, d);
    } else if d, i :| Skip(setup, s, t, d, i) {
      SkipInv(setup, s, t, d, i);
    } else if d, i :| Start(setup, s, t, d, i) {
      StartInv(setup, s, t, d, i);
    } else if d, i, storeFails :| Receive(setup, s, t, d, i, storeFails) {
      ReceiveInv(setup, s, t, d, i, storeFails);
    } else {
      var d, i, runFails, storeFails :| Return(setup, s, t, d, i, runFails, storeFails);
      ReturnInv(setup, s, t, d, i, runFails, storeFails);
    }
  }

  lemma InterruptInv(setup: Setup, s: System, t: System)
    requires Inv(setup, s) && Interrupt(s, t)
    ensures Inv(setup, t)
  {
    hide JobInv;
    forall d, k | d in t.devices && 0 <= k < |setup.queues[d]|
      ensures At(setup, t, d, k)
    {
      assert At(setup, s, d, k);
    }
  }

  lemma InitInv(setup: Setup, s: System)
    requires Grouped(setup.jobs, setup.queues) && Init(setup, s)
    ensures Inv(setup, s)
  {
    hide CompletedCases, WorkerRun;
    SumZero(s.counted);
    forall d, k | d in s.devices && 0 <= k < |setup.queues[d]|
      ensures At(setup, s, d, k)
    {
      assert setup.queues[d][k] < |setup.jobs|;
    }
  }

  lemma {:induction false} SumZero(values: seq<nat>)
    requires forall i :: 0 <= i < |values| ==> values[i] == 0
    ensures Sum(values) == 0
  {
    if values != [] {
      SumZero(values[..|values| - 1]);
    }
  }

  lemma {:induction false} BehaviorInv(setup: Setup, trace: seq<System>, k: nat)
    requires ValidSetup(setup) && Behavior(setup, trace) && k < |trace|
    ensures Inv(setup, trace[k])
  {
    hide Inv, Next, Init;
    if k == 0 {
      InitInv(setup, trace[0]);
    } else {
      BehaviorInv(setup, trace, k - 1);
      assert Next(setup, trace[k - 1], trace[(k - 1) + 1]);
      StepInv(setup, trace[k - 1], trace[k]);
    }
  }

  // ----- What follows, in every behavior

  /** The progress shown never exceeds the total. */
  lemma ProgressWithinTotal(setup: Setup, trace: seq<System>, k: nat)
    requires ValidSetup(setup) && Behavior(setup, trace) && k < |trace|
    ensures trace[k].progress <= Sum(Sizes(setup.jobs))
  {
    hide CompletedCases, Run;
    BehaviorInv(setup, trace, k);
    var s := trace[k];
    forall i | 0 <= i < |setup.jobs|
      ensures Completed(setup.jobs)[i] + s.counted[i] <= Sizes(setup.jobs)[i]
    {
      var job := setup.jobs[i];
      if job.cases == [] {
        EmptyCompleted(job);
      } else {
        var q :| 0 <= q < |setup.queues[job.device]| && setup.queues[job.device][q] == i;
        assert At(setup, s, job.device, q);
        var saves := WorkerRun(setup, i).saves;
        StartedWithinTotal(job.report, job.cases, setup.failFast, job.world, |saves|);
        assert saves[..|saves|] == saves;
      }
    }
    SumWithin(Completed(setup.jobs), s.counted, Sizes(setup.jobs));
  }

  ghost predicate IsRunning(setup: Setup, s: System, i: nat) {
    exists d :: d in s.devices && Turn(setup, s, d, i) && s.devices[d].phase.Working?
  }

  /** At most one job per device is running, and no job passes the start gate twice. */
  lemma OneJobPerDevice(setup: Setup, trace: seq<System>, k: nat, i: nat, j: nat)
    requires ValidSetup(setup) && Behavior(setup, trace) && k < |trace|
    ensures Seqs.Distinct(trace[k].started)
    ensures IsRunning(setup, trace[k], i) && IsRunning(setup, trace[k], j) && i != j ==>
      setup.jobs[i].device != setup.jobs[j].device
    ensures IsRunning(setup, trace[k], i) ==> i in trace[k].started
  {
    BehaviorInv(setup, trace, k);
    var s := trace[k];
    if IsRunning(setup, s, i) {
      var d :| d in s.devices && Turn(setup, s, d, i) && s.devices[d].phase.Working?;
      assert At(setup, s, d, s.devices[d].position);
    }
  }

  /** Once canceled, always canceled, and no job passes the start gate any more, or is passed over as complete. */
  lemma {:induction false} NoStartAfterCancel(setup: Setup, trace: seq<System>, j: nat, k: nat)
    requires Behavior(setup, trace) && j <= k < |trace| && trace[j].canceled
    ensures trace[k].canceled && trace[k].started == trace[j].started && trace[k].covered == trace[j].covered
  {
    if j < k {
      NoStartAfterCancel(setup, trace, j, k - 1);
      CanceledStep(setup, trace[k - 1], trace[(k - 1) + 1]);
    }
  }

  lemma CanceledStep(setup: Setup, s: System, t: System)
    requires Next(setup, s, t) && s.canceled
    ensures t.canceled && t.started == s.started && t.covered == s.covered
  {
    hide CompletedCases, Run;
  }

  /** Whatever happens, progress is what was completed before, plus what was counted of each job. */
  lemma ProgressIs(setup: Setup, trace: seq<System>, k: nat)
    requires ValidSetup(setup) && Behavior(setup, trace) && k < |trace|
    ensures |trace[k].counted| == |setup.jobs|
    ensures trace[k].progress == Sum(Completed(setup.jobs)) + Sum(trace[k].counted)
  {
    hide Sum, Completed, JobInv;
    BehaviorInv(setup, trace, k);
  }

  /** A job is only started if its report left some case to run, and only passed over if it did not. */
  lemma GateIsExact(setup: Setup, trace: seq<System>, k: nat, i: nat)
    requires ValidSetup(setup) && Behavior(setup, trace) && k < |trace|
    requires i < |setup.jobs| && setup.jobs[i].cases != []
    ensures i in trace[k].started ==> CompletedCases(setup.jobs[i].cases, setup.jobs[i].report) < |setup.jobs[i].cases|
    ensures i in trace[k].covered ==> CompletedCases(setup.jobs[i].cases, setup.jobs[i].report) == |setup.jobs[i].cases|
  {
    hide CompletedCases, Run;
    BehaviorInv(setup, trace, k);
    var d := setup.jobs[i].device;
    var q :| 0 <= q < |setup.queues[d]| && setup.queues[d][q] == i;
    assert At(setup, trace[k], d, q);
  }

  // ----- What cancels the run

  /** Under fail-fast a failed worker cancels everything, so that no job is started any more. */
  lemma {:induction false} FailFastCancels(setup: Setup, trace: seq<System>, k: nat)
    requires Behavior(setup, trace) && k < |trace| && setup.failFast
    ensures trace[k].failed ==> trace[k].canceled
  {
    if k > 0 {
      FailFastCancels(setup, trace, k - 1);
      FailFastStep(setup, trace[k - 1], trace[(k - 1) + 1]);
    }
  }

  lemma FailFastStep(setup: Setup, s: System, t: System)
    requires Next(setup, s, t) && setup.failFast && (s.failed ==> s.canceled)
    ensures t.failed ==> t.canceled
  {
    hide CompletedCases, Run;
  }

  lemma NoStartAfterFailure(setup: Setup, trace: seq<System>, j: nat, k: nat)
    requires Behavior(setup, trace) && j <= k < |trace| && setup.failFast && trace[j].failed
    ensures trace[k].started == trace[j].started
  {
    FailFastCancels(setup, trace, j);
    NoStartAfterCancel(setup, trace, j, k);
  }

  /** The user interrupts, the result file cannot be stored, or a worker fails under fail-fast. */
  ghost predicate Cancels(setup: Setup, s: System, t: System) {
    || Interrupt(s, t)
    || (exists d, i :: Receive(setup, s, t, d, i, true))
    || (exists d, i, runFails :: Return(setup, s, t, d, i, runFails, true))
    || (setup.failFast && exists d, i, storeFails :: Return(setup, s, t, d, i, true, storeFails))
  }

  /** A failure to store is remembered until the worker is gone, but has canceled everything at once. */
  ghost predicate RecordedCancels(s: System) {
    forall d :: d in s.devices && s.devices[d].phase.Working? && s.devices[d].phase.recordFailed ==> s.canceled
  }

  lemma {:induction false} RecordFailureCancels(setup: Setup, trace: seq<System>, k: nat)
    requires Behavior(setup, trace) && k < |trace|
    ensures RecordedCancels(trace[k])
  {
    if k > 0 {
      RecordFailureCancels(setup, trace, k - 1);
      RecordStep(setup, trace[k - 1], trace[(k - 1) + 1]);
    }
  }

  lemma RecordStep(setup: Setup, s: System, t: System)
    requires Next(setup, s, t) && RecordedCancels(s)
    ensures RecordedCancels(t)
  {
    hide CompletedCases, Run;
  }

  /** Nothing else cancels the run; in particular, without fail-fast a failed worker stops no other job. */
  lemma CanceledOnlySo(setup: Setup, trace: seq<System>, k: nat)
    requires Behavior(setup, trace) && k + 1 < |trace|
    requires !trace[k].canceled && trace[k + 1].canceled
    ensures Cancels(setup, trace[k], trace[k + 1])
  {
    hide CompletedCases, Run;
    RecordFailureCancels(setup, trace, k);
    assert Next(setup, trace[k], trace[k + 1]);
  }

  /** And each of these does. */
  lemma CancelsIndeed(setup: Setup, s: System, t: System)
    requires Cancels(setup, s, t)
    ensures t.canceled
  {
    hide CompletedCases, Run;
  }

  /** A worker has failed, or the result file could not be stored after it. */
  ghost predicate Fails(setup: Setup, s: System, t: System) {
    || (exists d, i, storeFails :: Return(setup, s, t, d, i, true, storeFails))
    || (exists d, i, runFails :: Return(setup, s, t, d, i, runFails, true))
  }

  /** An error is collected exactly then, and never forgotten. */
  lemma FailedExactly(setup: Setup, s: System, t: System)
    requires Next(setup, s, t)
    ensures t.failed <==> s.failed || Fails(setup, s, t)
  {
    hide CompletedCases, Run;
  }

  /**
   * When all goroutines have ended without a cancellation, every job with cases was started or found complete; if
   * moreover no error was collected, the stored reports complete all cases of all jobs.
   */
  lemma AllJobsDone(setup: Setup, trace: seq<System>, k: nat, i: nat)
    requires ValidSetup(setup) && Behavior(setup, trace) && k < |trace|
    requires !trace[k].canceled && forall d :: d in trace[k].devices ==> trace[k].devices[d].phase == Ended
    requires i < |setup.jobs| && setup.jobs[i].cases != []
    ensures i in trace[k].started || i in trace[k].covered
    ensures i in trace[k].started && !trace[k].failed ==>
      i < |trace[k].counted| && trace[k].counted[i] == StartedCount(WorkerRun(setup, i).saves)
    ensures !trace[k].failed ==>
      i < |trace[k].reports| && CompletedCases(setup.jobs[i].cases, trace[k].reports[i]) == |setup.jobs[i].cases|
  {
    hide CompletedCases, Run;
    BehaviorInv(setup, trace, k);
    var d := setup.jobs[i].device;
    var q :| 0 <= q < |setup.queues[d]| && setup.queues[d][q] == i;
    assert At(setup, trace[k], d, q);
  }
}
