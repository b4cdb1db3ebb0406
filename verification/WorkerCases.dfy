/**
 * What becomes of one case: its record, the reports that are saved, and how the run goes on (worker.go, iperf.go,
 * memory.go).
 */
module WorkerCases {
  import opened Wrappers
  import opened Reports
  import opened Options
  import opened WorkerSpec

  // ----- The error of a benchmark

  /** What one may ask of an error: whether there is one, and whether it wraps one of the sentinels. */
  datatype Sentinel = Any | Panic | Payload | NoPayload

  predicate Wraps(failure: Option<Failure>, sentinel: Sentinel) {
    && failure.Some?
    && match sentinel
       case Any => true
       case Panic => failure.value.panic
       case Payload => failure.value.payload
       case NoPayload => failure.value.noPayload
  }

  lemma JoinWraps(a: Option<Failure>, b: Option<Failure>, sentinel: Sentinel)
    ensures Wraps(Join(a, b), sentinel) <==> Wraps(a, sentinel) || Wraps(b, sentinel)
  {
  }

  /** The measurement itself, without the deferred checks and the cleanup. */
  function Measurement(s: Session, index: nat, options: BenchmarkOptions, script: CaseScript, w: World): CaseEnd
    requires index < |s.report.cases|
    requires options.configuration.kind == Memory ==> s.report.cases[index].memory.Some?
  {
    if options.configuration.kind == Memory then RunMemory(s, index, script, w) else RunThroughput(s, index, script, w)
  }

  /** A benchmark fails if the measurement, a check or the cleanup does, and its error wraps what any of them wraps. */
  lemma BenchmarkFailure(s: Session, index: nat, options: BenchmarkOptions, script: CaseScript, w: World)
    requires index < |s.report.cases|
    requires options.configuration.kind == Memory ==> s.report.cases[index].memory.Some?
    ensures
      var main := Measurement(s, index, options, script, w);
      var end := RunBenchmark(s, index, options, script, w);
      && end.session == main.session && end.recordFailed == main.recordFailed
      && forall sentinel :: Wraps(end.failure, sentinel) <==>
           Wraps(main.failure, sentinel) || Wraps(script.checks, sentinel) || Wraps(script.cleanup, sentinel)
  {
    hide RunMemory, RunThroughput, Join, Wraps;
    var main := Measurement(s, index, options, script, w);
    forall sentinel
      ensures Wraps(Join(Join(main.failure, script.checks), script.cleanup), sentinel) <==>
        Wraps(main.failure, sentinel) || Wraps(script.checks, sentinel) || Wraps(script.cleanup, sentinel)
    {
      JoinWraps(main.failure, script.checks, sentinel);
      JoinWraps(Join(main.failure, script.checks), script.cleanup, sentinel);
    }
  }

  // ----- The measurements

  function Counter(metric: Metric, snapshot: Snapshot): nat {
    if metric == Energy then snapshot.energyNanojoules else snapshot.cpuNanoseconds
  }

  /** Payload was received, time has passed, and the counter of the metric has advanced. */
  ghost predicate Measurable(script: CaseScript, metric: Metric) {
    && script.setup.None? && script.received > 0 && script.before.at < script.after.at
    && Counter(metric, script.before) < Counter(metric, script.after)
  }

  /**
   * A throughput case succeeds exactly if it is measurable and its sample can be saved; the sample says what was received,
   * what was sent, for how long, and how far the counter went. Without any payload the error says just that.
   */
  lemma ThroughputOutcome(s: Session, index: nat, script: CaseScript, w: World)
    requires index < |s.report.cases|
    ensures
      var end := RunThroughput(s, index, script, w);
      var metric, recorded := s.report.environment.metric, end.session.report.cases[index];
      && (end.failure.None? <==> Measurable(script, metric) && !w.saveFails(|s.saves|))
      && (end.recordFailed <==> Measurable(script, metric) && w.saveFails(|s.saves|))
      && (script.setup.Some? ==> end.failure == script.setup)
      && (script.setup.None? && script.received == 0 ==>
            end.failure.Some? && end.failure.value.noPayload && !end.failure.value.panic && !end.failure.value.payload)
      && (script.setup.None? && script.received > 0 && end.failure.Some? ==>
            !end.failure.value.noPayload && !end.failure.value.panic && !end.failure.value.payload)
      && (!Measurable(script, metric) ==> end.session == s)
      && (Measurable(script, metric) ==>
            && end.session.saves == s.saves + [Update(end.session.report, None)]
            && recorded.sample.Some?
            && recorded == s.report.cases[index].(sample := recorded.sample)
            && recorded.sample.value.seconds * 1000000000.0 == (script.after.at - script.before.at) as real
            && recorded.sample.value.bits == 8.0 * script.received as real
            && recorded.sample.value.sentBits == (if script.sent.Some? then 8.0 * script.sent.value as real else 0.0)
            && recorded.sample.value.tunnel * 1000000000.0
               == (Counter(metric, script.after) - Counter(metric, script.before)) as real)
  {
  }

  /** The k-th round is read, saved and checked without an error; `first` saves came before the first round. */
  ghost predicate RoundPasses(script: CaseScript, w: World, first: nat, k: nat) {
    script.steps(k).Reading? && script.steps(k).after.None? && !w.saveFails(first + k)
  }

  ghost predicate HasCurve(s: Session, index: nat, first: nat, k: nat) {
    && index < |s.report.cases| && s.report.cases[index].memory.Some?
    && |s.report.cases[index].memory.value.points| == k && |s.saves| == first + k
  }

  ghost function Points(s: Session, index: nat): seq<MemoryPoint>
    requires index < |s.report.cases| && s.report.cases[index].memory.Some?
  {
    s.report.cases[index].memory.value.points
  }

  /** The curve has n points: the readings of the first n rounds, all but the last of which passed. */
  ghost predicate CurveUntil(s: Session, index: nat, script: CaseScript, w: World, first: nat, k: nat, n: nat) {
    && HasCurve(s, index, first, n) && k <= n <= CURVE_POINTS
    && (forall j :: k <= j < n ==>
          script.steps(j).Reading? && Points(s, index)[j] == script.steps(j).point.(connections := 250 * j))
    && (forall j :: k <= j < n - 1 ==> RoundPasses(script, w, first, j))
    && (n < CURVE_POINTS ==> script.steps(n).StepFailed? || (n > k && !RoundPasses(script, w, first, n - 1)))
  }

  /** The session after a reading. */
  function AfterReading(s: Session, index: nat, point: MemoryPoint, k: nat): Session
    requires index < |s.report.cases| && s.report.cases[index].memory.Some?
  {
    Save(Put(s, index, AddPoint(s.report.cases[index], point, k)), None)
  }

  lemma ReadingCurve(s: Session, index: nat, first: nat, k: nat, point: MemoryPoint)
    requires HasCurve(s, index, first, k)
    ensures
      var t := AfterReading(s, index, point, k);
      && HasCurve(t, index, first, k + 1) && Points(t, index)[..k] == Points(s, index)
      && Points(t, index)[k] == point.(connections := 250 * k)
  {
  }

  lemma CurveStops(s: Session, index: nat, script: CaseScript, w: World, first: nat, k: nat)
    requires HasCurve(s, index, first, k) && k <= CURVE_POINTS
    requires k < CURVE_POINTS ==> script.steps(k).StepFailed?
    ensures CurveUntil(s, index, script, w, first, k, k) && Points(s, index)[..k] == Points(s, index)
    ensures MemoryRounds(s, index, script, w, k).session == s && !MemoryRounds(s, index, script, w, k).recordFailed
    ensures MemoryRounds(s, index, script, w, k).failure.None? <==> k == CURVE_POINTS
  {
  }

  lemma CurveBreaks(s: Session, index: nat, script: CaseScript, w: World, first: nat, k: nat)
    requires HasCurve(s, index, first, k) && k < CURVE_POINTS
    requires script.steps(k).Reading? && !RoundPasses(script, w, first, k)
    ensures
      var t := AfterReading(s, index, script.steps(k).point, k);
      CurveUntil(t, index, script, w, first, k, k + 1) && Points(t, index)[..k] == Points(s, index)
  {
    hide AddPoint, Put, Save, RoundPasses;
    ReadingCurve(s, index, first, k, script.steps(k).point);
  }

  /** A round that passes, put before the rest of the curve. */
  lemma RoundBefore(end: Session, s: Session, index: nat, script: CaseScript, w: World, first: nat, k: nat, n: nat)
    requires HasCurve(s, index, first, k) && RoundPasses(script, w, first, k)
    requires CurveUntil(end, index, script, w, first, k + 1, n)
    requires Points(end, index)[..k + 1] == Points(AfterReading(s, index, script.steps(k).point, k), index)
    ensures n > k && CurveUntil(end, index, script, w, first, k, n) && Points(end, index)[..k] == Points(s, index)
  {
    hide AddPoint, Put, Save;
    ReadingCurve(s, index, first, k, script.steps(k).point);
    var points := Points(end, index);
    assert points[..k] == points[..k + 1][..k];
    assert points[k] == points[..k + 1][k];
  }

  /** The error of a round that is read but does not pass, and of one that does. */
  lemma RoundOutcome(s: Session, index: nat, script: CaseScript, w: World, first: nat, k: nat)
    requires HasCurve(s, index, first, k) && k < CURVE_POINTS && script.steps(k).Reading?
    ensures
      var end, t := MemoryRounds(s, index, script, w, k), AfterReading(s, index, script.steps(k).point, k);
      && HasCurve(t, index, first, k + 1)
      && if RoundPasses(script, w, first, k) then end == MemoryRounds(t, index, script, w, k + 1)
         else end.session == t && end.failure.Some? && (end.recordFailed <==> w.saveFails(first + k))
  {
    ReadingCurve(s, index, first, k, script.steps(k).point);
  }

  /**
   * From the k-th round on, the curve grows by one reading a round, with its number of connections, each saved at once. It
   * stops at the first error, and the case succeeds exactly if all rounds pass.
   */
  lemma {:induction false} MemoryOutcome(s: Session, index: nat, script: CaseScript, w: World, first: nat, k: nat)
    returns (n: nat)
    requires HasCurve(s, index, first, k) && k <= CURVE_POINTS
    ensures
      var end := MemoryRounds(s, index, script, w, k);
      && CurveUntil(end.session, index, script, w, first, k, n) && Points(end.session, index)[..k] == Points(s, index)
      && (end.failure.None? <==> forall j :: k <= j < CURVE_POINTS ==> RoundPasses(script, w, first, j))
      && (end.recordFailed <==> n > k && w.saveFails(first + n - 1))
    decreases CURVE_POINTS - k
  {
    hide CurveUntil, MemoryRounds, AfterReading, Points;
    if k == CURVE_POINTS || script.steps(k).StepFailed? {
      n := k;
      CurveStops(s, index, script, w, first, k);
      assert k < CURVE_POINTS ==> !RoundPasses(script, w, first, k);
    } else {
      RoundOutcome(s, index, script, w, first, k);
      if RoundPasses(script, w, first, k) {
        var t := AfterReading(s, index, script.steps(k).point, k);
        n := MemoryOutcome(t, index, script, w, first, k + 1);
        RoundBefore(MemoryRounds(t, index, script, w, k + 1).session, s, index, script, w, first, k, n);
      } else {
        n := k + 1;
        CurveBreaks(s, index, script, w, first, k);
      }
    }
  }

  /** A memory case that cannot be set up records nothing; otherwise it takes all rounds, from the first on. */
  lemma MemoryCase(s: Session, index: nat, script: CaseScript, w: World) returns (n: nat)
    requires HasCurve(s, index, |s.saves|, 0)
    ensures
      var end := RunMemory(s, index, script, w);
      if script.setup.Some? then end == CaseEnd(s, script.setup, false)
      else
        && CurveUntil(end.session, index, script, w, |s.saves|, 0, n)
        && (end.failure.None? <==> forall j :: 0 <= j < CURVE_POINTS ==> RoundPasses(script, w, |s.saves|, j))
        && (end.recordFailed <==> n > 0 && w.saveFails(|s.saves| + n - 1))
  {
    hide CurveUntil, MemoryRounds, RoundPasses;
    n := 0;
    if script.setup.None? {
      n := MemoryOutcome(s, index, script, w, |s.saves|, 0);
    }
  }

  // ----- What a benchmark leaves alone

  /** Only the sample and the curve of the record at the index differ. */
  ghost predicate OnlyMeasured(s: Session, t: Session, index: nat) {
    && index < |s.report.cases| && t.report == s.report.(cases := t.report.cases) && |t.report.cases| == |s.report.cases|
    && (forall i :: 0 <= i < |s.report.cases| && i != index ==> t.report.cases[i] == s.report.cases[i])
    && t.report.cases[index]
       == s.report.cases[index].(sample := t.report.cases[index].sample, memory := t.report.cases[index].memory)
  }

  /** The saves of `t` are those of `s` and more, of which no one announces a start, and all differ in the cases alone. */
  ghost predicate OnlySaves(s: Session, t: Session) {
    && s.saves <= t.saves && SavesOf(t.saves, |s.saves|, s.report)
    && forall i :: |s.saves| <= i < |t.saves| ==> t.saves[i].started.None?
  }

  /** The saves from the first-th on are of this report, up to its cases. */
  ghost predicate SavesOf(saves: seq<Update>, first: nat, report: Report) {
    forall i :: first <= i < |saves| ==> saves[i].report == report.(cases := saves[i].report.cases)
  }

  lemma {:induction false} MemoryMeasures(s: Session, index: nat, script: CaseScript, w: World, k: nat)
    requires index < |s.report.cases| && s.report.cases[index].memory.Some? && k <= CURVE_POINTS
    ensures
      var end := MemoryRounds(s, index, script, w, k);
      OnlyMeasured(s, end.session, index) && OnlySaves(s, end.session)
    decreases CURVE_POINTS - k
  {
    if k < CURVE_POINTS && script.steps(k).Reading? {
      var Reading(point, after) := script.steps(k);
      var s1 := Put(s, index, AddPoint(s.report.cases[index], point, k));
      if SaveError(s1, w).None? && after.None? {
        MemoryMeasures(Save(s1, None), index, script, w, k + 1);
      }
    }
  }

  lemma BenchmarkMeasures(s: Session, index: nat, options: BenchmarkOptions, script: CaseScript, w: World)
    requires index < |s.report.cases|
    requires options.configuration.kind == Memory ==> s.report.cases[index].memory.Some?
    ensures
      var end := RunBenchmark(s, index, options, script, w);
      OnlyMeasured(s, end.session, index) && OnlySaves(s, end.session)
  {
    if options.configuration.kind == Memory {
      MemoryMeasures(s, index, script, w, 0);
    }
  }

  // ----- The whole case

  /** The session in which the benchmark of a case begins: its record is running, and was saved and announced as that. */
  function Begun(s: Session, index: nat, options: BenchmarkOptions, w: World): Session
    requires index < |s.report.cases|
  {
    Save(Put(s, index, Started(s.report.cases[index], options, w)), Some(index))
  }

  /** A case begins with nothing of an earlier attempt. */
  lemma BegunFresh(s: Session, index: nat, options: BenchmarkOptions, w: World)
    requires index < |s.report.cases|
    ensures
      var t := Begun(s, index, options, w);
      var recorded := t.report.cases[index];
      && t.saves == s.saves + [Update(t.report, Some(index))]
      && t.report == s.report.(cases := t.report.cases)
      && recorded.status == Running && recorded.error == "" && recorded.bug == None && recorded.sample == None
      && (recorded.memory.Some? <==> options.configuration.kind == Memory)
      && (recorded.memory.Some? ==> recorded.memory.value.points == [])
      && recorded.queues == options.queues
      && recorded.configuration
         == s.report.cases[index].configuration.(parallel := options.configuration.parallel)
      && (forall i :: 0 <= i < |s.report.cases| && i != index ==> t.report.cases[i] == s.report.cases[i])
  {
  }

  /** The kind of bug that an error stands for, the first of the three sentinels that it wraps. */
  ghost predicate IsBug(failure: Failure, kind: string) {
    || (kind == "panic" && failure.panic)
    || (kind == "udp-payload" && failure.payload && !failure.panic)
    || (kind == "udp-no-payload" && failure.noPayload && !failure.panic && !failure.payload)
  }

  /**
   * The record of a case that was benchmarked. It has passed if there was no error. Otherwise it is canceled if the run is;
   * it is a bug, with its kind and the text of the error, if cleanup and saving went well and the error wraps a sentinel;
   * and else it has failed with that text.
   */
  ghost predicate RecordConcluded(recorded: CaseResult, failure: Option<Failure>, canceled: bool, clean: bool) {
    if failure.None? then recorded.status == Passed && recorded.bug == None && recorded.error == ""
    else if canceled then
      recorded.status == Canceled && recorded.bug == None && recorded.error == failure.value.text
    else if clean && exists kind :: IsBug(failure.value, kind) then
      && recorded.status == Bug && recorded.error == ""
      && recorded.bug.Some? && IsBug(failure.value, recorded.bug.value.kind)
      && recorded.bug.value.detail == failure.value.text
    else recorded.status == Failed && recorded.bug == None && recorded.error == failure.value.text
  }

  /** Only an error that is no bug can stop the run, and does so under fail-fast, or if something around the case failed. */
  ghost predicate StepConcluded(recorded: CaseResult, step: Step, failure: Option<Failure>, stopping: bool) {
    if failure.None? || recorded.status == Bug then step.stop.None? && !step.failed
    else if stopping then step.stop == failure && !step.failed
    else step.stop.None? && step.failed
  }

  lemma ClassifyConcludes(recorded: CaseResult, failure: Option<Failure>, canceled: bool, clean: bool)
    requires recorded.bug == None && recorded.error == ""
    ensures
      var classified := Classify(recorded, failure, canceled, clean);
      && RecordConcluded(classified, failure, canceled, clean)
      && classified.sample == recorded.sample && classified.memory == recorded.memory
      && classified.configuration == recorded.configuration && classified.queues == recorded.queues
  {
    if failure.Some? {
      SomeBug(failure.value);
    }
  }

  lemma SomeBug(failure: Failure)
    ensures (exists kind :: IsBug(failure, kind)) <==> failure.panic || failure.payload || failure.noPayload
  {
    if failure.panic {
      assert IsBug(failure, "panic");
    } else if failure.payload {
      assert IsBug(failure, "udp-payload");
    } else if failure.noPayload {
      assert IsBug(failure, "udp-no-payload");
    }
  }

  /** What is done after the benchmark of a case. */
  function Conclude(end: CaseEnd, index: nat, script: CaseScript, failFast: bool, w: World): Step
    requires index < |end.session.report.cases|
  {
    var clean := script.cleanup.None? && !end.recordFailed;
    var recorded := Classify(end.session.report.cases[index], end.failure, script.canceledAtStatus, clean);
    var s := Put(end.session, index, recorded);
    if SaveError(s, w).Some? then Step(Save(s, None), Join(end.failure, SaveError(s, w)), false)
    else if recorded.status == Bug || end.failure.None? then Step(Save(s, None), None, false)
    else if failFast || script.canceledAtStop || !clean then Step(Save(s, None), end.failure, false)
    else Step(Save(s, None), None, true)
  }

  lemma CaseConcludes(s: Session, index: nat, options: BenchmarkOptions, script: CaseScript, failFast: bool, w: World)
    requires index < |s.report.cases| && !w.saveFails(|s.saves|)
    ensures
      var begun := Begun(s, index, options, w);
      && (options.configuration.kind == Memory ==> begun.report.cases[index].memory.Some?)
      && ExecuteCase(s, index, options, script, failFast, w)
         == Conclude(RunBenchmark(begun, index, options, script, w), index, script, failFast, w)
  {
    hide Classify, Join, RunBenchmark;
  }

  /**
   * The record is concluded and saved, and nothing else in the report changes; the run stops if that cannot be saved, and
   * else as StepConcluded says.
   */
  ghost predicate CaseConcluded(end: CaseEnd, index: nat, script: CaseScript, failFast: bool, w: World, step: Step) {
    && index < |end.session.report.cases| && |step.session.report.cases| == |end.session.report.cases|
    && var measured, recorded := end.session.report.cases[index], step.session.report.cases[index];
       var clean := script.cleanup.None? && !end.recordFailed;
       && step.session.report == end.session.report.(cases := end.session.report.cases[index := recorded])
       && recorded.sample == measured.sample && recorded.memory == measured.memory
       && recorded.configuration == measured.configuration && recorded.queues == measured.queues
       && RecordConcluded(recorded, end.failure, script.canceledAtStatus, clean)
       && step.session.saves == end.session.saves + [Update(step.session.report, None)]
       && if w.saveFails(|end.session.saves|) then step.stop.Some? && !step.failed
          else StepConcluded(recorded, step, end.failure, failFast || script.canceledAtStop || !clean)
  }

  lemma ConcludesExactly(end: CaseEnd, index: nat, script: CaseScript, failFast: bool, w: World)
    requires index < |end.session.report.cases|
    requires end.session.report.cases[index].bug == None && end.session.report.cases[index].error == ""
    ensures CaseConcluded(end, index, script, failFast, w, Conclude(end, index, script, failFast, w))
  {
    hide Classify, RecordConcluded;
    ClassifyConcludes(end.session.report.cases[index], end.failure, script.canceledAtStatus,
                      script.cleanup.None? && !end.recordFailed);
  }

  /** A case whose begin cannot be saved stops the run; otherwise it is benchmarked and concluded. */
  lemma CaseOutcome(s: Session, index: nat, options: BenchmarkOptions, script: CaseScript, failFast: bool, w: World)
    requires index < |s.report.cases|
    ensures
      var begun := Begun(s, index, options, w);
      var step := ExecuteCase(s, index, options, script, failFast, w);
      if w.saveFails(|s.saves|) then step.session == begun && step.stop.Some? && !step.failed
      else CaseConcluded(RunBenchmark(begun, index, options, script, w), index, script, failFast, w, step)
  {
    hide RunBenchmark, Started, Conclude, CaseConcluded;
    if !w.saveFails(|s.saves|) {
      var begun := Begun(s, index, options, w);
      BegunFresh(s, index, options, w);
      BenchmarkMeasures(begun, index, options, script, w);
      CaseConcludes(s, index, options, script, failFast, w);
      ConcludesExactly(RunBenchmark(begun, index, options, script, w), index, script, failFast, w);
    }
  }

  /** The UDP case that the program tells apart: nothing was received, and nothing else went wrong. */
  lemma NoPayloadIsBug(s: Session, index: nat, options: BenchmarkOptions, script: CaseScript, failFast: bool, w: World)
    requires index < |s.report.cases| && options.configuration.kind != Memory
    requires script.setup.None? && script.received == 0 && script.checks.None? && script.cleanup.None?
    requires !script.canceledAtStatus && !w.saveFails(|s.saves|) && !w.saveFails(|s.saves| + 1)
    ensures
      var step := ExecuteCase(s, index, options, script, failFast, w);
      var recorded := step.session.report.cases[index];
      && recorded.status == Bug && recorded.bug.Some? && recorded.bug.value.kind == "udp-no-payload"
      && step.stop.None? && !step.failed
  {
    hide ExecuteCase, RunBenchmark, RunThroughput;
    var begun := Begun(s, index, options, w);
    BegunFresh(s, index, options, w);
    CaseOutcome(s, index, options, script, failFast, w);
    BenchmarkFailure(begun, index, options, script, w);
    ThroughputOutcome(begun, index, script, w);
    var end := RunBenchmark(begun, index, options, script, w);
    NoPayloadWraps(end.failure, Measurement(begun, index, options, script, w).failure, script);
    SomeBug(end.failure.value);
  }

  lemma NoPayloadWraps(failure: Option<Failure>, main: Option<Failure>, script: CaseScript)
    requires script.checks.None? && script.cleanup.None?
    requires forall sentinel :: Wraps(failure, sentinel) <==>
      Wraps(main, sentinel) || Wraps(script.checks, sentinel) || Wraps(script.cleanup, sentinel)
    requires main.Some? && main.value.noPayload && !main.value.panic && !main.value.payload
    ensures failure.Some? && failure.value.noPayload && !failure.value.panic && !failure.value.payload
  {
    assert Wraps(main, Any) && Wraps(main, NoPayload) && !Wraps(main, Panic) && !Wraps(main, Payload);
    assert Wraps(failure, Any) && Wraps(failure, NoPayload) && !Wraps(failure, Panic) && !Wraps(failure, Payload);
  }
}
