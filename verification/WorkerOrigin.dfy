/**
 * Where the measurements of a report come from: one placement, one iperf3, one artifact of each implementation
 * (worker.go).
 */
module WorkerOrigin {
  import opened Wrappers
  import opened Reports
  import opened Options
  import opened WorkerSpec
  import opened WorkerSafety
  import opened WorkerCases
  import opened WorkerRuns
  import opened WorkerLoop

  // ----- The checks before a run

  /** Everything about a placement but its description. */
  predicate SamePlace(a: Placement, b: Placement) { a.(description := b.description) == b }

  /** A report is refused if and only if it holds a measurement and was made in a different place. */
  lemma RefusedExactly(report: Option<Report>, placement: Placement)
    ensures
      BaseReport(report, placement).None? <==>
        report.Some? && !SamePlace(report.value.environment, placement) && HasMeasurement(report.value)
    ensures
      BaseReport(report, placement).Some? ==>
        var base := BaseReport(report, placement).value;
        && base.environment == placement && base.protocol == CURRENT_PROTOCOL
        && if report.None? then base.iperf.version == "" && base.implementations == map[] && base.cases == []
           else base == report.value.(environment := placement, protocol := CURRENT_PROTOCOL)
  {
  }

  /** The i-th case is the first one that measures throughput. */
  ghost predicate FirstAt(cases: seq<BenchmarkOptions>, i: nat) {
    && i < |cases| && cases[i].configuration.kind != Memory
    && forall j :: 0 <= j < i ==> cases[j].configuration.kind == Memory
  }

  lemma {:induction false} FirstIs(cases: seq<BenchmarkOptions>)
    ensures FirstThroughput(cases).None? <==> forall i :: 0 <= i < |cases| ==> cases[i].configuration.kind == Memory
    ensures FirstThroughput(cases).Some? ==> exists i: nat :: FirstAt(cases, i) && cases[i] == FirstThroughput(cases).value
  {
    if cases != [] {
      if cases[0].configuration.kind != Memory {
        assert FirstAt(cases, 0);
      } else {
        FirstIs(cases[1..]);
        if FirstThroughput(cases[1..]).Some? {
          var i: nat :| FirstAt(cases[1..], i) && cases[1..][i] == FirstThroughput(cases).value;
          assert FirstAt(cases, i + 1);
        }
      }
    }
  }

  lemma FirstUnique(cases: seq<BenchmarkOptions>, i: nat)
    requires FirstAt(cases, i)
    ensures FirstThroughput(cases) == Some(cases[i])
  {
    FirstIs(cases);
    var j: nat :| FirstAt(cases, j) && cases[j] == FirstThroughput(cases).value;
    assert i == j;
  }

  /** The iperf3 of the run is the one with which the samples of the report were measured. */
  ghost predicate IperfAgrees(report: Report, options: BenchmarkOptions, w: World) {
    w.iperfVersion == Some(report.iperf.version) && options.iperfArchitecture == report.iperf.arch
  }

  /**
   * The early check of iperf3 fails if and only if the run measures throughput, the report holds a sample and the version of
   * its iperf3, and the one that is there is another one or cannot be read.
   */
  lemma IperfRefusedExactly(report: Report, cases: seq<BenchmarkOptions>, w: World)
    ensures
      EarlyIperf(report, cases, w).Some? <==>
        && HasSample(report) && report.iperf.version != ""
        && exists i: nat ::
             FirstAt(cases, i) && cases[i].configuration.implementation != "" && !IperfAgrees(report, cases[i], w)
  {
    hide FirstThroughput;
    FirstIs(cases);
    if i: nat :| FirstAt(cases, i) && cases[i].configuration.implementation != "" && !IperfAgrees(report, cases[i], w) {
      FirstUnique(cases, i);
    }
  }

  /** What must hold for a run to get past its checks. */
  ghost predicate PassesChecks(report: Option<Report>, cases: seq<BenchmarkOptions>, w: World) {
    && w.platform.Some? && w.hostname.Some?
    && var place := w.platform.value.(hostname := w.hostname.value);
       (report.Some? && HasMeasurement(report.value) ==> SamePlace(report.value.environment, place))
  }

  /**
   * A run goes past its checks, and saves something, if and only if platform and host are known, the report is of this place
   * if it holds a measurement, some case is not finished, and iperf3 is not refused. A run that does not go past them saves
   * nothing, and returns nil exactly if all its cases are finished.
   */
  lemma EnteredExactly(report: Option<Report>, cases: seq<BenchmarkOptions>, failFast: bool, w: World)
    ensures
      var o := Run(report, cases, failFast, w);
      && (!PassesChecks(report, cases, w) ==> !o.entered && o.failure.Some? && o.report == report)
      && (PassesChecks(report, cases, w) ==>
            var selected := Selected(cases, w.platform.value);
            var (prepared, indexes) := PrepareCases(Base(report, w).value, selected, w);
            && (o.entered <==> !AllFinished(prepared.cases, indexes) && EarlyIperf(prepared, selected, w).None?)
            && (!o.entered ==> o.report == Some(prepared) && o.indexes == indexes)
            && (!o.entered ==> (o.failure.None? <==> AllFinished(prepared.cases, indexes))))
      && (o.entered <==> o.saves != [])
  {
    hide RunEntered, PrepareCases, Selected, EarlyIperf, BaseReport, AllFinished;
    if w.platform.Some? && w.hostname.Some? {
      RefusedExactly(report, w.platform.value.(hostname := w.hostname.value));
      if Base(report, w).Some? {
        EnteredOpen(Base(report, w).value, Selected(cases, w.platform.value), failFast, w);
      }
    }
  }

  ghost predicate HasSample(report: Report) {
    exists i :: 0 <= i < |report.cases| && report.cases[i].sample.Some?
  }

  ghost predicate HasMeasurement(report: Report) {
    exists i :: 0 <= i < |report.cases| && report.cases[i].Measured()
  }

  // ----- Preparing the records

  /** An implementation once recorded keeps its kind, package, version and architecture. */
  ghost predicate KeepsImplementations(earlier: Report, later: Report) {
    forall name :: name in earlier.implementations ==>
      && name in later.implementations
      && later.implementations[name] == earlier.implementations[name].(path := later.implementations[name].path)
  }

  ghost predicate Last(cases: seq<BenchmarkOptions>, i: nat) {
    i < |cases| && forall j :: i < j < |cases| ==>
      cases[j].configuration.implementation != cases[i].configuration.implementation
  }

  /** One case records or refreshes its own implementation. */
  lemma PreparedOne(report: Report, options: BenchmarkOptions, w: World)
    ensures
      var prepared, name := PrepareCase(report, options, w), options.configuration.implementation;
      && prepared == report.(implementations := prepared.implementations, cases := prepared.cases)
      && KeepsImplementations(report, prepared)
      && prepared.implementations.Keys == report.implementations.Keys + {name}
      && prepared.implementations[name].path == options.executable
      && forall other :: other in report.implementations && other != name ==>
           prepared.implementations[other] == report.implementations[other]
  {
  }

  /** Preparing adds the implementations of the cases, keeps all that were there, and touches nothing but them and the cases. */
  lemma {:induction false} PreparedImplementations(report: Report, cases: seq<BenchmarkOptions>, w: World)
    ensures
      var prepared := PrepareCases(report, cases, w).0;
      && prepared == report.(implementations := prepared.implementations, cases := prepared.cases)
      && KeepsImplementations(report, prepared)
      && prepared.implementations.Keys == report.implementations.Keys + NamesOf(cases)
  {
    hide PrepareCase, KeepsImplementations, NamesOf;
    if cases != [] {
      var last := |cases| - 1;
      PreparedImplementations(report, cases[..last], w);
      var before := PrepareCases(report, cases[..last], w).0;
      PreparedOne(before, cases[last], w);
      NamesNext(cases);
      ImplementationsTransitive(report, before, PrepareCases(report, cases, w).0);
    } else {
      ImplementationsSame(report);
      NoNames();
    }
  }

  /** The path of an implementation is that of the last case that uses it. */
  lemma {:induction false} PreparedPaths(report: Report, cases: seq<BenchmarkOptions>, w: World, i: nat)
    requires Last(cases, i)
    ensures HasPath(PrepareCases(report, cases, w).0, cases[i])
  {
    hide PrepareCase;
    var last := |cases| - 1;
    PreparedOne(PrepareCases(report, cases[..last], w).0, cases[last], w);
    if i < last {
      assert cases[..last][i] == cases[i];
      PreparedPaths(report, cases[..last], w, i);
    }
  }

  ghost predicate HasPath(report: Report, options: BenchmarkOptions) {
    && options.configuration.implementation in report.implementations
    && report.implementations[options.configuration.implementation].path == options.executable
  }

  ghost function NamesOf(cases: seq<BenchmarkOptions>): set<string> {
    set i | 0 <= i < |cases| :: cases[i].configuration.implementation
  }

  lemma NoNames()
    ensures NamesOf([]) == {}
  {
  }

  lemma NamesNext(cases: seq<BenchmarkOptions>)
    requires cases != []
    ensures NamesOf(cases) == NamesOf(cases[..|cases| - 1]) + {cases[|cases| - 1].configuration.implementation}
  {
    var front := cases[..|cases| - 1];
    assert forall i :: 0 <= i < |front| ==> cases[i].configuration.implementation in NamesOf(cases);
    forall name | name in NamesOf(cases)
      ensures name in NamesOf(front) || name == cases[|front|].configuration.implementation
    {
      var i :| 0 <= i < |cases| && cases[i].configuration.implementation == name;
      if i < |front| {
        assert front[i].configuration.implementation == name;
      }
    }
  }

  lemma ImplementationsSame(a: Report)
    ensures KeepsImplementations(a, a)
  {
  }

  lemma ImplementationsTransitive(a: Report, b: Report, c: Report)
    requires KeepsImplementations(a, b) && KeepsImplementations(b, c)
    ensures KeepsImplementations(a, c)
  {
  }

  // ----- All saves of a run

  /** The report is of the same place and implementations, and its iperf3 is as it was, or the one of this run. */
  ghost predicate HasOrigin(report: Report, base: Report, cases: seq<BenchmarkOptions>, w: World) {
    && report.environment == base.environment && report.implementations == base.implementations
    && (report.iperf == base.iperf || OwnIperf(report, cases, w))
  }

  ghost predicate OwnIperf(report: Report, cases: seq<BenchmarkOptions>, w: World) {
    && NeedsIperf(cases) && w.iperfVersion == Some(report.iperf.version)
    && report.iperf.arch == FirstThroughput(cases).value.iperfArchitecture
  }

  ghost predicate AllOrigin(s: Session, base: Report, cases: seq<BenchmarkOptions>, w: World) {
    && HasOrigin(s.report, base, cases, w)
    && forall k :: 0 <= k < |s.saves| ==> HasOrigin(s.saves[k].report, base, cases, w)
  }

  lemma BodyOrigin(s: Session, cases: seq<BenchmarkOptions>, indexes: seq<nat>, failFast: bool, w: World)
    requires |indexes| == |cases| && s.saves == []
    requires forall i :: 0 <= i < |indexes| ==> indexes[i] < |s.report.cases|
    ensures AllOrigin(RunBody(s, cases, indexes, failFast, w).0, s.report, cases, w)
  {
    hide RunCases, NeedsIperf;
    var s1 := Save(s, None);
    if !w.saveFails(0) && (NeedsIperf(cases) ==> w.iperfVersion.Some?) {
      var s2 := s1.(report := WithIperf(s1.report, cases, w));
      assert HasOrigin(s2.report, s.report, cases, w);
      LoopKeeps(s2, cases, indexes, 0, false, failFast, w);
    }
  }

  lemma EnteredOrigin(base: Report, selected: seq<BenchmarkOptions>, failFast: bool, w: World)
    ensures AllOrigin(RunEntered(base, selected, failFast, w).0, PrepareCases(base, selected, w).0, selected, w)
  {
    hide RunBody, PrepareCases, Finish, HasOrigin;
    var start := Start(base, selected, w);
    var (prepared, indexes) := PrepareCases(base, selected, w);
    BodyOrigin(start, selected, indexes, failFast, w);
    var (t, failure) := RunBody(start, selected, indexes, failFast, w);
    FinishExactly(t, indexes, failure, w);
    SameOrigin(t.report, Finish(t, indexes, failure, w).0.report, start.report, prepared, selected, w);
    forall k | 0 <= k < |t.saves|
      ensures HasOrigin(t.saves[k].report, prepared, selected, w)
    {
      SameOrigin(t.saves[k].report, t.saves[k].report, start.report, prepared, selected, w);
    }
  }

  lemma SameOrigin(a: Report, b: Report, base: Report, other: Report, cases: seq<BenchmarkOptions>, w: World)
    requires HasOrigin(a, base, cases, w)
    requires a.environment == b.environment && a.implementations == b.implementations && a.iperf == b.iperf
    requires base.environment == other.environment && base.implementations == other.implementations
    requires base.iperf == other.iperf
    ensures HasOrigin(b, other, cases, w)
  {
  }

  // ----- What a run makes of the origin of the report it was given

  predicate SameIperf(a: Implementation, b: Implementation) { a.version == b.version && a.arch == b.arch }

  /** The later report is of the origin of the earlier one, as far as that holds anything measured. */
  ghost predicate KeepsOrigin(earlier: Report, later: Report) {
    && KeepsImplementations(earlier, later)
    && (HasMeasurement(earlier) ==> SamePlace(earlier.environment, later.environment))
    && (HasSample(earlier) && earlier.iperf.version != "" ==> SameIperf(earlier.iperf, later.iperf))
  }

  /** The check on iperf3 makes sure of that. */
  lemma IperfKept(prepared: Report, report: Report, later: Report, cases: seq<BenchmarkOptions>, w: World)
    requires HasOrigin(later, prepared, cases, w) && EarlyIperf(prepared, cases, w).None?
    requires prepared.iperf == report.iperf && report.cases <= prepared.cases
    requires HasSample(report) && report.iperf.version != ""
    ensures SameIperf(report.iperf, later.iperf)
  {
    hide NeedsIperf, FirstThroughput;
    var i :| 0 <= i < |report.cases| && report.cases[i].sample.Some?;
    assert prepared.cases[i].sample.Some?;
  }

  lemma OriginKept(report: Report, selected: seq<BenchmarkOptions>, placement: Placement, w: World, later: Report)
    requires BaseReport(Some(report), placement).Some?
    requires
      var base := BaseReport(Some(report), placement).value;
      var prepared := PrepareCases(base, selected, w).0;
      EarlyIperf(prepared, selected, w).None? && HasOrigin(later, prepared, selected, w)
    ensures KeepsOrigin(report, later) && later.environment == placement
  {
    hide PrepareCases, EarlyIperf, OwnIperf;
    var base := BaseReport(Some(report), placement).value;
    var prepared := PrepareCases(base, selected, w).0;
    RefusedExactly(Some(report), placement);
    PreparedImplementations(base, selected, w);
    PrepareCasesIndexes(base, selected, w);
    if HasSample(report) && report.iperf.version != "" {
      IperfKept(prepared, report, later, selected, w);
    }
  }

  /**
   * Every report that a run saves is of the place where the run is made, and of the origin of the report it was given: other
   * runs are refused before they save anything.
   */
  lemma SavedOrigin(report: Option<Report>, cases: seq<BenchmarkOptions>, failFast: bool, w: World, k: nat)
    requires k < |Run(report, cases, failFast, w).saves|
    ensures
      var later := Run(report, cases, failFast, w).saves[k].report;
      && w.platform.Some? && w.hostname.Some?
      && later.environment == w.platform.value.(hostname := w.hostname.value)
      && (report.Some? ==> KeepsOrigin(report.value, later))
  {
    hide RunEntered, PrepareCases, Selected, EarlyIperf, HasOrigin, BaseReport;
    var selected := Selected(cases, w.platform.value);
    var base := Base(report, w).value;
    EnteredOrigin(base, selected, failFast, w);
    var later := Run(report, cases, failFast, w).saves[k].report;
    if report.Some? {
      OriginKept(report.value, selected, w.platform.value.(hostname := w.hostname.value), w, later);
    } else {
      FreshOrigin(selected, w.platform.value.(hostname := w.hostname.value), w, later);
    }
  }

  lemma FreshOrigin(selected: seq<BenchmarkOptions>, placement: Placement, w: World, later: Report)
    requires HasOrigin(later, PrepareCases(BaseReport(None, placement).value, selected, w).0, selected, w)
    ensures later.environment == placement
  {
    hide PrepareCases, OwnIperf;
    PreparedImplementations(BaseReport(None, placement).value, selected, w);
  }

  // ----- Along a chain

  ghost predicate PassedAt(report: Report, n: nat) { n < |report.cases| && report.cases[n].status == Passed }

  /**
   * Along any chain of runs, a report that holds a passed case is followed only by reports of the same place; one that holds
   * a passed throughput case, and the version of the iperf3 it was measured with, only by reports with the same iperf3. And
   * an implementation stays what it was when it was first recorded, but for its path.
   */
  lemma {:induction false} ChainOrigin(fed: seq<Option<Report>>, launches: seq<Launch>, i: nat, j: nat, n: nat)
    requires Chain(fed, launches) && i <= j < |fed| && fed[i].Some?
    ensures fed[j].Some? && KeepsImplementations(fed[i].value, fed[j].value)
    ensures PassedAt(fed[i].value, n) ==> SamePlace(fed[i].value.environment, fed[j].value.environment)
    ensures
      PassedAt(fed[i].value, n) && fed[i].value.cases[n].configuration.kind == Throughput && fed[i].value.iperf.version != ""
      ==> SameIperf(fed[i].value.iperf, fed[j].value.iperf)
    decreases j
  {
    hide Run, ValidCase, ValidSample, KeepsImplementations;
    ImplementationsSame(fed[i].value);
    if i < j {
      ChainOrigin(fed, launches, i, j - 1, n);
      ChainSafe(fed, launches, i, j - 1);
      assert fed[(j - 1) + 1] == fed[j];
      if fed[j] != fed[j - 1] {
        var launch := launches[j - 1];
        var k :| 0 <= k < |Run(fed[j - 1], launch.cases, launch.failFast, launch.world).saves|
                 && fed[j] == Some(Run(fed[j - 1], launch.cases, launch.failFast, launch.world).saves[k].report);
        SavedOrigin(fed[j - 1], launch.cases, launch.failFast, launch.world, k);
        ImplementationsTransitive(fed[i].value, fed[j - 1].value, fed[j].value);
        if PassedAt(fed[i].value, n) {
          PassedStays(fed[i].value, fed[j - 1].value, n);
        }
      }
    }
  }

  /** A passed case keeps its measurement. */
  lemma PassedStays(earlier: Report, later: Report, n: nat)
    requires PassedAt(earlier, n) && Extends(earlier.cases, later.cases) && ValidReport(later)
    ensures HasMeasurement(later)
    ensures earlier.cases[n].configuration.kind == Throughput ==> HasSample(later)
  {
    assert later.cases[n] == earlier.cases[n];
    assert ValidCase(later.cases[n]);
    assert later.cases[n].Measured();
  }
}
