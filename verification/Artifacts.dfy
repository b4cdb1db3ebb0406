/** The cache of prepared executables, with its pinning of "latest" (artifacts.go). */
module Artifacts {

  datatype Target = Target(os: string, arch: string)

  datatype Key = Key(software: string, source: string, target: Target)

  /** A binary built from a package has the empty version. */
  datatype Binary = Binary(path: string, version: string)

  datatype Request = Request(software: string, version: string, package: string, target: Target)

  /** What the release client answers, or, for a package, the build. */
  datatype Outcome = Prepared(binary: Binary) | Unsupported | Failed

  datatype Result = Found(binary: Binary) | Rejected(unsupported: bool)

  datatype Cache = Cache(binaries: map<Key, Binary>, unsupported: set<Key>, versions: map<string, string>)

  const LATEST: string := "latest"

  predicate PathLike(s: string) { '/' in s || '\\' in s }

  predicate VersionLike(s: string) { s != "" && s != LATEST && !PathLike(s) }

  predicate Latest(request: Request) { request.package == "" && request.version == LATEST }

  /** A package is an absolute path; otherwise there is a version, which may be "latest". */
  predicate Legal(request: Request) {
    if request.package != "" then PathLike(request.package) else Latest(request) || VersionLike(request.version)
  }

  /** The version to ask for: "latest" only as long as no version is pinned. */
  function Resolved(cache: Cache, request: Request): string {
    if Latest(request) && request.software in cache.versions then cache.versions[request.software] else request.version
  }

  function KeyOf(cache: Cache, request: Request): Key {
    Key(request.software, if request.package != "" then request.package else Resolved(cache, request), request.target)
  }

  /** The client returns the version it was asked for; a build has none. */
  predicate Honest(cache: Cache, request: Request, outcome: Outcome) {
    outcome.Prepared? ==>
      if request.package != "" then outcome.binary.version == ""
      else
        var asked := Resolved(cache, request);
        VersionLike(outcome.binary.version) && (asked != LATEST ==> outcome.binary.version == asked)
  }

  predicate Prepares(cache: Cache, request: Request) {
    KeyOf(cache, request) !in cache.binaries && KeyOf(cache, request) !in cache.unsupported
  }

  function Answer(cache: Cache, request: Request, outcome: Outcome): Result {
    var key := KeyOf(cache, request);
    if key in cache.binaries then Found(cache.binaries[key])
    else if key in cache.unsupported then Rejected(true)
    else match outcome
      case Prepared(binary) => Found(binary)
      case Unsupported => Rejected(true)
      case Failed => Rejected(false)
  }

  function After(cache: Cache, request: Request, outcome: Outcome): Cache {
    var key := KeyOf(cache, request);
    if !Prepares(cache, request) then cache
    else match outcome
      case Failed => cache
      case Unsupported => cache.(unsupported := cache.unsupported + {key})
      case Prepared(binary) =>
        var stored := cache.binaries[key := binary];
        Cache(
          if binary.version != "" then stored[key.(source := binary.version) := binary] else stored,
          cache.unsupported,
          if Latest(request) then cache.versions[request.software := binary.version] else cache.versions)
  }

  // ----- The preparer itself

  class ArtifactPreparer {
    var binaries: map<Key, Binary>
    var unsupported: set<Key>
    var versions: map<string, string>

    ghost function Contents(): Cache
      reads this
    {
      Cache(binaries, unsupported, versions)
    }

    constructor ()
      ensures Contents() == Cache(map[], {}, map[])
    {
      binaries, unsupported, versions := map[], {}, map[];
    }

    /** `binary`, where `outcome` is what the client or the build would answer. */
    method Find(request: Request, outcome: Outcome) returns (result: Result)
      modifies this
      ensures Contents() == After(old(Contents()), request, outcome)
      ensures result == Answer(old(Contents()), request, outcome)
    {
      var latest := request.package == "" && request.version == LATEST;
      var version := request.version;
      if latest && request.software in versions {
        version := versions[request.software];
      }
      var source := version;
      if request.package != "" {
        source := request.package;
      }
      var key := Key(request.software, source, request.target);
      if key in binaries {
        return Found(binaries[key]);
      }
      if key in unsupported {
        return Rejected(true);
      }
      match outcome {
        case Failed =>
          return Rejected(false);
        case Unsupported =>
          unsupported := unsupported + {key};
          return Rejected(true);
        case Prepared(binary) =>
          if latest {
            versions := versions[request.software := binary.version];
          }
          binaries := binaries[key := binary];
          if binary.version != "" {
            key := key.(source := binary.version);
            binaries := binaries[key := binary];
          }
          return Found(binary);
      }
    }
  }

  // ----- Any sequence of calls

  datatype Call = Call(request: Request, outcome: Outcome)

  /** A successful preparation: the key that was looked up before it, and its result. */
  datatype Record = Record(key: Key, binary: Binary)

  /** The cache after some calls, and everything that was prepared by them, in order. */
  datatype History = History(cache: Cache, records: seq<Record>)

  function Replay(calls: seq<Call>): History {
    if calls == [] then History(Cache(map[], {}, map[]), [])
    else
      var h, call := Replay(calls[..|calls| - 1]), calls[|calls| - 1];
      History(
        After(h.cache, call.request, call.outcome),
        if Prepares(h.cache, call.request) && call.outcome.Prepared?
        then h.records + [Record(KeyOf(h.cache, call.request), call.outcome.binary)] else h.records)
  }

  /** The result of the k-th call. */
  function ResultOf(calls: seq<Call>, k: nat): Result
    requires k < |calls|
  {
    Answer(Replay(calls[..k]).cache, calls[k].request, calls[k].outcome)
  }

  ghost predicate LegalCalls(calls: seq<Call>) {
    forall k :: 0 <= k < |calls| ==>
      Legal(calls[k].request) && Honest(Replay(calls[..k]).cache, calls[k].request, calls[k].outcome)
  }

  // ----- The invariant

  /** What the key of a preparation says about its result. */
  predicate RecordInv(cache: Cache, record: Record) {
    var Record(key, binary) := record;
    && key in cache.binaries
    && (PathLike(key.source) ==> binary.version == "")
    && (!PathLike(key.source) ==>
          VersionLike(binary.version) && key.(source := binary.version) in cache.binaries)
    && (key.source == LATEST ==> key.software in cache.versions && cache.versions[key.software] == binary.version)
    && (VersionLike(key.source) ==> binary.version == key.source)
    && (PathLike(key.source) || key.source == LATEST || VersionLike(key.source))
  }

  /** The preparation made the binary for this key. */
  predicate Backs(record: Record, key: Key, binary: Binary) {
    && record.binary == binary && record.key.software == key.software && record.key.target == key.target
    && (record.key.source == key.source || (binary.version != "" && binary.version == key.source))
  }

  ghost predicate Backed(records: seq<Record>, key: Key, binary: Binary) {
    exists k :: 0 <= k < |records| && Backs(records[k], key, binary)
  }

  ghost predicate AllBacked(h: History) {
    forall key :: key in h.cache.binaries ==> Backed(h.records, key, h.cache.binaries[key])
  }

  ghost predicate AllRecords(h: History) {
    forall k :: 0 <= k < |h.records| ==> RecordInv(h.cache, h.records[k])
  }

  ghost predicate AllPins(cache: Cache) {
    forall software :: software in cache.versions ==> VersionLike(cache.versions[software])
  }

  ghost predicate AllDistinct(records: seq<Record>) {
    forall i, j :: 0 <= i < j < |records| ==> records[i].key != records[j].key && Again(records[i], records[j])
  }

  ghost predicate Inv(h: History) {
    AllRecords(h) && AllBacked(h) && AllPins(h.cache) && AllDistinct(h.records)
  }

  predicate SameArtifact(a: Record, b: Record) {
    && a.key.software == b.key.software && a.key.target == b.key.target
    && a.binary.version == b.binary.version != ""
  }

  /** An artifact is only prepared a second time as the latest one, after it was asked for by its version. */
  predicate Again(a: Record, b: Record) {
    && (SameArtifact(a, b) ==> b.key.source == LATEST && a.key.source == a.binary.version)
    && (a.key.source == LATEST && a.key.software == b.key.software ==> b.key.source != LATEST)
  }

  lemma Front(calls: seq<Call>)
    requires LegalCalls(calls) && calls != []
    ensures LegalCalls(calls[..|calls| - 1])
    ensures
      var call := calls[|calls| - 1];
      Legal(call.request) && Honest(Replay(calls[..|calls| - 1]).cache, call.request, call.outcome)
  {
    var front := calls[..|calls| - 1];
    assert forall k :: 0 <= k < |front| ==> front[..k] == calls[..k];
  }

  lemma {:induction false} ReplayInv(calls: seq<Call>)
    requires LegalCalls(calls)
    ensures Inv(Replay(calls))
  {
    if calls != [] {
      var front, call := calls[..|calls| - 1], calls[|calls| - 1];
      Front(calls);
      ReplayInv(front);
      var h := Replay(front);
      if Prepares(h.cache, call.request) && call.outcome.Prepared? {
        PreparedInv(h, call.request, call.outcome, Record(KeyOf(h.cache, call.request), call.outcome.binary));
      }
    }
  }

  lemma RecordNext(cache: Cache, request: Request, outcome: Outcome)
    requires AllPins(cache) && Legal(request) && Prepares(cache, request)
    requires outcome.Prepared? && Honest(cache, request, outcome)
    ensures RecordInv(After(cache, request, outcome), Record(KeyOf(cache, request), outcome.binary))
    ensures AllPins(After(cache, request, outcome))
  {
    if request.package == "" && !Latest(request) {
      assert VersionLike(request.version);
    }
  }

  lemma RecordStays(cache: Cache, request: Request, outcome: Outcome, record: Record)
    requires AllPins(cache) && Legal(request) && Prepares(cache, request)
    requires outcome.Prepared? && Honest(cache, request, outcome) && RecordInv(cache, record)
    ensures RecordInv(After(cache, request, outcome), record)
    ensures Again(record, Record(KeyOf(cache, request), outcome.binary))
    ensures record.key != KeyOf(cache, request)
  {
  }

  lemma BackedNext(h: History, request: Request, outcome: Outcome, record: Record)
    requires AllBacked(h) && Prepares(h.cache, request) && outcome.Prepared?
    requires record == Record(KeyOf(h.cache, request), outcome.binary)
    ensures AllBacked(History(After(h.cache, request, outcome), h.records + [record]))
  {
    var cache, records := After(h.cache, request, outcome), h.records + [record];
    forall key | key in cache.binaries
      ensures Backed(records, key, cache.binaries[key])
    {
      if key == record.key || (record.binary.version != "" && key == record.key.(source := record.binary.version)) {
        assert Backs(records[|h.records|], key, record.binary);
      } else {
        assert Backed(h.records, key, h.cache.binaries[key]);
        var k :| 0 <= k < |h.records| && Backs(h.records[k], key, h.cache.binaries[key]);
        assert Backs(records[k], key, cache.binaries[key]);
      }
    }
  }

  lemma PreparedInv(h: History, request: Request, outcome: Outcome, record: Record)
    requires Inv(h) && Legal(request) && Prepares(h.cache, request)
    requires outcome.Prepared? && Honest(h.cache, request, outcome)
    requires record == Record(KeyOf(h.cache, request), outcome.binary)
    ensures Inv(History(After(h.cache, request, outcome), h.records + [record]))
  {
    hide After, Prepares, Honest, Legal, AllPins, AllBacked, RecordInv, Again, KeyOf;
    BackedNext(h, request, outcome, record);
    RecordNext(h.cache, request, outcome);
    forall k | 0 <= k < |h.records|
      ensures RecordInv(After(h.cache, request, outcome), h.records[k])
      ensures Again(h.records[k], record) && h.records[k].key != record.key
    {
      RecordStays(h.cache, request, outcome, h.records[k]);
    }
  }

  // ----- What it promises

  /** Every binary in the cache was prepared for the software, the version or package, and the target of its key. */
  lemma CachedForItsKey(calls: seq<Call>, key: Key)
    requires LegalCalls(calls) && key in Replay(calls).cache.binaries
    ensures
      var h := Replay(calls);
      var binary := h.cache.binaries[key];
      && (exists k :: 0 <= k < |h.records| && Backs(h.records[k], key, binary))
      && (VersionLike(key.source) ==> binary.version == key.source)
      && (PathLike(key.source) ==> binary.version == "")
  {
    ReplayInv(calls);
    var h := Replay(calls);
    var k :| 0 <= k < |h.records| && Backs(h.records[k], key, h.cache.binaries[key]);
    assert RecordInv(h.cache, h.records[k]);
  }

  /** The key that the k-th call looks up. */
  function KeyAt(calls: seq<Call>, k: nat): Key
    requires k < |calls|
  {
    KeyOf(Replay(calls[..k]).cache, calls[k].request)
  }

  /** The k-th call asks for this key, finds nothing, and is told that the release does not support its target. */
  predicate Refused(calls: seq<Call>, k: nat, key: Key) {
    k < |calls| && KeyAt(calls, k) == key && key !in Replay(calls[..k]).cache.binaries && calls[k].outcome.Unsupported?
  }

  /** Just those keys are remembered as unsupported; a preparation that failed is not remembered. */
  lemma {:induction false} UnsupportedExactly(calls: seq<Call>, key: Key)
    ensures key in Replay(calls).cache.unsupported <==> exists k :: 0 <= k < |calls| && Refused(calls, k, key)
  {
    hide Prepares, KeyOf;
    if calls != [] {
      var last := |calls| - 1;
      UnsupportedExactly(calls[..last], key);
      UnsupportedNext(Replay(calls[..last]).cache, calls[last].request, calls[last].outcome, key);
      assert key in Replay(calls).cache.unsupported <==>
        key in Replay(calls[..last]).cache.unsupported || Refused(calls, last, key);
      forall k | 0 <= k < last
        ensures Refused(calls, k, key) <==> Refused(calls[..last], k, key)
      {
        assert calls[..last][..k] == calls[..k];
      }
    }
  }

  lemma UnsupportedNext(cache: Cache, request: Request, outcome: Outcome, key: Key)
    ensures
      key in After(cache, request, outcome).unsupported <==>
        || key in cache.unsupported
        || (key == KeyOf(cache, request) && key !in cache.binaries && outcome.Unsupported?)
  {
  }

  /** A key is in the cache if and only if something was prepared for it. */
  lemma CachedExactly(calls: seq<Call>, key: Key)
    requires LegalCalls(calls)
    ensures
      key in Replay(calls).cache.binaries <==>
        exists k, binary :: 0 <= k < |Replay(calls).records| && Backs(Replay(calls).records[k], key, binary)
  {
    ReplayInv(calls);
    var h := Replay(calls);
    if key in h.cache.binaries {
      assert Backed(h.records, key, h.cache.binaries[key]);
    }
    forall k, binary | 0 <= k < |h.records| && Backs(h.records[k], key, binary)
      ensures key in h.cache.binaries
    {
      assert RecordInv(h.cache, h.records[k]);
      assert h.records[k].key.(source := key.source) == key;
    }
  }

  /**
   * What the k-th call returns: a binary, if one was prepared for its key before, or is now; that the target is unsupported,
   * if that was found for its key before, or is now; and another error, if its preparation fails now.
   */
  lemma ResultExactly(calls: seq<Call>, k: nat)
    requires LegalCalls(calls) && k < |calls|
    ensures
      var key, records, outcome := KeyAt(calls, k), Replay(calls[..k]).records, calls[k].outcome;
      var cached := exists j, binary :: 0 <= j < |records| && Backs(records[j], key, binary);
      var refused := exists j :: 0 <= j < k && Refused(calls, j, key);
      && (ResultOf(calls, k).Found? <==> cached || (!refused && outcome.Prepared?))
      && (ResultOf(calls, k) == Rejected(true) <==> !cached && (refused || outcome.Unsupported?))
      && (ResultOf(calls, k) == Rejected(false) <==> !cached && !refused && outcome.Failed?)
      && (!cached && ResultOf(calls, k).Found? ==> ResultOf(calls, k).binary == outcome.binary)
      && (cached && ResultOf(calls, k).Found? ==>
            exists j :: 0 <= j < |records| && Backs(records[j], key, ResultOf(calls, k).binary))
  {
    hide KeyOf, Backs;
    var front := calls[..k];
    var key := KeyAt(calls, k);
    Prefix(calls, k);
    CachedExactly(front, key);
    UnsupportedExactly(front, key);
    forall j | 0 <= j < k
      ensures Refused(calls, j, key) <==> Refused(front, j, key)
    {
      assert front[..j] == calls[..j];
    }
    if key in Replay(front).cache.binaries {
      CachedForItsKey(front, key);
    }
  }

  /**
   * No key is prepared twice. When an artifact is, the later preparation was of the latest version, and the earlier one of
   * just that version.
   */
  lemma NoKeyTwice(calls: seq<Call>, i: nat, j: nat)
    requires LegalCalls(calls) && i < j < |Replay(calls).records|
    ensures
      var records := Replay(calls).records;
      records[i].key != records[j].key && Again(records[i], records[j])
  {
    ReplayInv(calls);
  }

  /** The k-th call finds nothing for its key, and its preparation succeeds. */
  predicate Succeeds(calls: seq<Call>, k: nat) {
    k < |calls| && Prepares(Replay(calls[..k]).cache, calls[k].request) && calls[k].outcome.Prepared?
  }

  /** The artifact of the k-th call was already prepared by an earlier one. */
  ghost predicate PreparedBefore(calls: seq<Call>, k: nat)
    requires Succeeds(calls, k)
  {
    var h, call := Replay(calls[..k]), calls[k];
    var record := Record(KeyOf(h.cache, call.request), call.outcome.binary);
    exists j :: 0 <= j < |h.records| && SameArtifact(h.records[j], record)
  }

  /** The key under which the artifact of a request is stored by its version. */
  function VersionKey(request: Request, binary: Binary): Key { Key(request.software, binary.version, request.target) }

  /**
   * A call prepares an artifact that was already prepared if and only if it asks for the latest version while none is
   * pinned, and the version that it then gets is already in the cache for its target.
   */
  lemma PreparedAgainExactly(calls: seq<Call>, k: nat)
    requires LegalCalls(calls) && Succeeds(calls, k)
    ensures
      var cache, request := Replay(calls[..k]).cache, calls[k].request;
      PreparedBefore(calls, k) <==>
        && Latest(request) && request.software !in cache.versions
        && VersionKey(request, calls[k].outcome.binary) in cache.binaries
  {
    Prefix(calls, k);
    ReplayInv(calls[..k]);
    AgainExactly(Replay(calls[..k]), calls[k].request, calls[k].outcome);
  }

  lemma AgainExactly(h: History, request: Request, outcome: Outcome)
    requires Inv(h) && Legal(request) && Prepares(h.cache, request)
    requires outcome.Prepared? && Honest(h.cache, request, outcome)
    ensures
      var record := Record(KeyOf(h.cache, request), outcome.binary);
      (exists j :: 0 <= j < |h.records| && SameArtifact(h.records[j], record)) <==>
        && Latest(request) && request.software !in h.cache.versions
        && VersionKey(request, outcome.binary) in h.cache.binaries
  {
    var record := Record(KeyOf(h.cache, request), outcome.binary);
    var key := VersionKey(request, outcome.binary);
    if j :| 0 <= j < |h.records| && SameArtifact(h.records[j], record) {
      assert RecordInv(h.cache, h.records[j]);
    }
    if key in h.cache.binaries && outcome.binary.version != "" {
      assert Backed(h.records, key, h.cache.binaries[key]);
      var j :| 0 <= j < |h.records| && Backs(h.records[j], key, h.cache.binaries[key]);
      assert RecordInv(h.cache, h.records[j]);
      assert VersionLike(key.source);
      assert SameArtifact(h.records[j], record);
    }
  }

  /** A successful call returns what was asked for; if that is the latest version, it is the pinned one afterwards. */
  lemma FoundAsAsked(calls: seq<Call>, k: nat)
    requires LegalCalls(calls) && k < |calls| && ResultOf(calls, k).Found?
    ensures
      var request := calls[k].request;
      var version := ResultOf(calls, k).binary.version;
      && (request.package != "" ==> version == "")
      && (request.package == "" && !Latest(request) ==> version == request.version)
      && (Latest(request) ==>
            var versions := Replay(calls[..k + 1]).cache.versions;
            request.software in versions && versions[request.software] == version)
  {
    Prefix(calls, k);
    var before, request := Replay(calls[..k]).cache, calls[k].request;
    assert calls[..k + 1][..k] == calls[..k];
    ReplayInv(calls[..k]);
    var key := KeyOf(before, request);
    if key in before.binaries {
      CachedForItsKey(calls[..k], key);
      if key.source == LATEST {
        LatestIsPinned(calls[..k], key);
      }
    }
  }

  lemma Prefix(calls: seq<Call>, k: nat)
    requires LegalCalls(calls) && k <= |calls|
    ensures LegalCalls(calls[..k])
  {
    assert forall j :: 0 <= j < k ==> calls[..k][..j] == calls[..j];
  }

  /** A binary under the key "latest" means that a version is pinned, so that the key is never looked up again. */
  lemma LatestIsPinned(calls: seq<Call>, key: Key)
    requires LegalCalls(calls) && key in Replay(calls).cache.binaries && key.source == LATEST
    ensures key.software in Replay(calls).cache.versions
  {
    ReplayInv(calls);
    var h := Replay(calls);
    var k :| 0 <= k < |h.records| && Backs(h.records[k], key, h.cache.binaries[key]);
    assert RecordInv(h.cache, h.records[k]);
  }

  /** A pinned version stays pinned. */
  lemma {:induction false} PinsStay(calls: seq<Call>, k: nat, software: string)
    requires LegalCalls(calls) && k <= |calls| && software in Replay(calls[..k]).cache.versions
    ensures software in Replay(calls).cache.versions
    ensures Replay(calls).cache.versions[software] == Replay(calls[..k]).cache.versions[software]
  {
    if k == |calls| {
      assert calls[..k] == calls;
    } else {
      var front, call := calls[..|calls| - 1], calls[|calls| - 1];
      assert front[..k] == calls[..k];
      Front(calls);
      PinsStay(front, k, software);
      ReplayInv(front);
    }
  }

  /** All successful requests for the latest version of one software return the same version, on every target. */
  lemma LatestIsOneVersion(calls: seq<Call>, i: nat, j: nat)
    requires LegalCalls(calls) && i < j < |calls|
    requires Latest(calls[i].request) && Latest(calls[j].request)
    requires calls[i].request.software == calls[j].request.software
    requires ResultOf(calls, i).Found? && ResultOf(calls, j).Found?
    ensures ResultOf(calls, i).binary.version == ResultOf(calls, j).binary.version
  {
    hide Replay, LegalCalls, ResultOf, Latest;
    FoundAsAsked(calls, i);
    FoundAsAsked(calls, j);
    Prefix(calls, j + 1);
    assert calls[..j + 1][..i + 1] == calls[..i + 1];
    PinsStay(calls[..j + 1], i + 1, calls[i].request.software);
  }

  /** Asking for a version and then for the latest one can prepare the same artifact twice. */
  lemma LatestPreparesAgain()
    ensures
      var target := Target("linux", "amd64");
      var outcome := Prepared(Binary("/bin", "1.0.0"));
      var calls := [Call(Request("xray", "1.0.0", "", target), outcome), Call(Request("xray", LATEST, "", target), outcome)];
      LegalCalls(calls) && |Replay(calls).records| == 2 && SameArtifact(Replay(calls).records[0], Replay(calls).records[1])
  {
    var target := Target("linux", "amd64");
    var outcome := Prepared(Binary("/bin", "1.0.0"));
    var first, second := Call(Request("xray", "1.0.0", "", target), outcome), Call(Request("xray", LATEST, "", target), outcome);
    var calls := [first, second];
    assert calls[..0] == [] && calls[..1] == [first] && [first][..0] == [];
    assert "1.0.0" != LATEST by {
      assert "1.0.0"[0] != LATEST[0];
    }
    assert VersionLike("1.0.0");
    assert Replay([first]).records == [Record(Key("xray", "1.0.0", target), outcome.binary)];
    assert Key("xray", LATEST, target) !in Replay([first]).cache.binaries;
  }
}
