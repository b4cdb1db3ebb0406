/** Resolved cases: their queue counts, and which of them a report already covers (options.go, controller.go). */
module Options {
  import opened Wrappers
  import opened Reports

  datatype BenchmarkOptions = BenchmarkOptions(
    configuration: CaseConfiguration, operatingSystem: string, sourcePackage: string, software: string,
    executable: string, version: string, iperf: string, iperfArchitecture: string, queues: int)
  {
    function Key(): (CaseConfiguration, int) { (configuration, queues) }

    predicate MultiQueue() {
      && configuration.kind != Memory
      && configuration.parallel > 1
      && operatingSystem == "linux"
      && (software == "hev-socks5-tunnel"
          || (software == "sing-box" && (configuration.stack == "" || configuration.stack == "go")))
    }

    function ResolveQueues(workers: int): BenchmarkOptions {
      this.(queues := if MultiQueue() then workers else 1)
    }
  }

  function ResolveAll(cases: seq<BenchmarkOptions>, workers: int): (resolved: seq<BenchmarkOptions>)
    ensures |resolved| == |cases|
  {
    seq(|cases|, i requires 0 <= i < |cases| => cases[i].ResolveQueues(workers))
  }

  /** `caseResult.matches`. */
  predicate Matches(recorded: CaseResult, options: BenchmarkOptions) {
    recorded.Key() == options.Key()
  }

  /** Some finished record matches the options. */
  predicate Covered(options: BenchmarkOptions, cases: seq<CaseResult>) {
    exists i :: 0 <= i < |cases| && cases[i].Finished() && Matches(cases[i], options)
  }

  /** How many of the options have no finished record. */
  function PendingCount(options: seq<BenchmarkOptions>, cases: seq<CaseResult>): nat {
    if options == [] then 0
    else PendingCount(options[..|options| - 1], cases) + if Covered(options[|options| - 1], cases) then 0 else 1
  }

  lemma {:induction false} PendingCountBound(options: seq<BenchmarkOptions>, cases: seq<CaseResult>)
    ensures PendingCount(options, cases) <= |options|
    ensures PendingCount(options, cases) == 0 <==> forall i :: 0 <= i < |options| ==> Covered(options[i], cases)
  {
    if options != [] {
      var front := options[..|options| - 1];
      PendingCountBound(front, cases);
      assert forall i :: 0 <= i < |front| ==> front[i] == options[i];
    }
  }

  /** `completedCases`: the queues are those of the placement the report was saved with. */
  function CompletedCases(cases: seq<BenchmarkOptions>, report: Option<Report>): nat {
    if report.None? then 0
    else
      var resolved := ResolveAll(cases, report.value.environment.tunnelWorkers);
      PendingCountBound(resolved, report.value.cases);
      |cases| - PendingCount(resolved, report.value.cases)
  }

  /** The cases that have no record that passed or showed a bug, with their configuration and their queues. */
  ghost function PendingAt(options: seq<BenchmarkOptions>, cases: seq<CaseResult>): set<nat> {
    set i: nat | i < |options| && forall j :: 0 <= j < |cases| ==>
      !((cases[j].status == Passed || cases[j].status == Bug)
        && cases[j].configuration == options[i].configuration && cases[j].queues == options[i].queues)
  }

  lemma {:induction false} PendingExactly(options: seq<BenchmarkOptions>, cases: seq<CaseResult>)
    ensures PendingCount(options, cases) == |PendingAt(options, cases)|
  {
    if options == [] {
      assert PendingAt(options, cases) == {};
    } else {
      hide PendingAt, Covered;
      PendingExactly(options[..|options| - 1], cases);
      PendingNext(options, cases);
    }
  }

  lemma PendingNext(options: seq<BenchmarkOptions>, cases: seq<CaseResult>)
    requires options != []
    ensures
      var n := |options| - 1;
      && n !in PendingAt(options[..n], cases)
      && PendingAt(options, cases) == PendingAt(options[..n], cases) + if Covered(options[n], cases) then {} else {n}
  {
    var n := |options| - 1;
    CoveredExactly(options[n], cases);
    hide Covered;
    forall i: nat
      ensures i in PendingAt(options, cases) <==>
        i in PendingAt(options[..n], cases) || (i == n && !Covered(options[n], cases))
    {
      if i < n {
        assert options[..n][i] == options[i];
      }
    }
  }

  lemma CoveredExactly(options: BenchmarkOptions, cases: seq<CaseResult>)
    ensures Covered(options, cases) <==>
      exists j :: 0 <= j < |cases| && (cases[j].status == Passed || cases[j].status == Bug)
                  && cases[j].configuration == options.configuration && cases[j].queues == options.queues
  {
  }

  /** The number of completed cases is that of all cases, less those that are pending with the queues of the report. */
  lemma CompletedExactly(cases: seq<BenchmarkOptions>, report: Report)
    ensures
      CompletedCases(cases, Some(report)) ==
        |cases| - |PendingAt(ResolveAll(cases, report.environment.tunnelWorkers), report.cases)|
  {
    PendingExactly(ResolveAll(cases, report.environment.tunnelWorkers), report.cases);
  }

  /** A case has several queues only if it measures parallel streams on Linux, with an implementation that can. */
  lemma QueuesExactly(options: BenchmarkOptions, workers: int)
    ensures
      var resolved := options.ResolveQueues(workers);
      && resolved == options.(queues := resolved.queues)
      && (resolved.queues == 1 || resolved.queues == workers)
      && (workers != 1 ==>
            (resolved.queues == workers <==>
               && options.configuration.kind != Memory && options.configuration.parallel >= 2
               && options.operatingSystem == "linux"
               && (options.software == "hev-socks5-tunnel"
                   || (options.software == "sing-box" && options.configuration.stack in {"", "go"}))))
  {
  }

  lemma CompletedWithin(cases: seq<BenchmarkOptions>, report: Option<Report>)
    ensures CompletedCases(cases, report) <= |cases|
  {
  }

  /** Keeps the first occurrence of every element, in order (`common.Uniq`). */
  function Uniq<T(==)>(items: seq<T>): seq<T> {
    if items == [] then []
    else
      var kept := Uniq(items[..|items| - 1]);
      var last := items[|items| - 1];
      if last in kept then kept else kept + [last]
  }

  lemma {:induction false} UniqElements<T>(items: seq<T>)
    ensures forall x :: x in Uniq(items) <==> x in items
    ensures forall i, j :: 0 <= i < j < |Uniq(items)| ==> Uniq(items)[i] != Uniq(items)[j]
  {
    if items != [] {
      UniqElements(items[..|items| - 1]);
      assert items == items[..|items| - 1] + [items[|items| - 1]];
    }
  }

  /** Dropping repeated cases never adds work. */
  lemma {:induction false} UniqPending(options: seq<BenchmarkOptions>, cases: seq<CaseResult>)
    ensures PendingCount(Uniq(options), cases) <= PendingCount(options, cases)
  {
    if options != [] {
      var front := options[..|options| - 1];
      UniqPending(front, cases);
      var kept := Uniq(front);
      var last := options[|options| - 1];
      assert (kept + [last])[..|kept|] == kept;
    }
  }
}
