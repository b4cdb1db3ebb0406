/** Laws of includes, of MTU completion and of the default axes. */
module MatrixIncludes {
  import opened Wrappers
  import Reports
  import opened Seqs
  import opened MatrixSpec
  import opened MatrixLaws

  // ----- Where entries come from

  /** The entry has every key of the filter, with a value that the filter lists for it. */
  ghost predicate Passes(entry: Entry, filter: Option<map<Key, seq<Value>>>) {
    filter.Some? ==> forall key :: key in filter.value ==>
      key in entry && exists k :: 0 <= k < |filter.value[key]| && filter.value[key][k] == entry[key]
  }

  /** A stack, if the entry has one, fits the implementation of the entry. */
  ghost predicate OwnStack(entry: Entry) {
    Stack in entry && entry[Stack].Text? && entry[Stack].text != "" ==> StackFits(entry[Stack], entry)
  }

  lemma OwnStackExactly(entry: Entry)
    ensures OwnStack(entry) <==> Consistent(entry)
  {
  }

  /** One of the sources of an include that match it, overlaid with a variant. */
  ghost predicate OverlaidFrom(sources: seq<Entry>, inc: Include, overrides: Entry, entry: Entry) {
    exists source :: source in sources && Passes(source, inc.filter) && entry == source + overrides && OwnStack(entry)
  }

  /** An unfiltered variant that gives no candidate anywhere. */
  ghost predicate AppliesNowhere(sources: seq<Entry>, inc: Include, overrides: Entry) {
    inc.filter.None? && forall source :: source in sources ==> !OwnStack(source + overrides)
  }

  lemma OverlaysExact(sources: seq<Entry>, inc: Include, overrides: Entry, entry: Entry)
    ensures entry in FlatMap(sources, Overlay(inc, overrides)) <==> OverlaidFrom(sources, inc, overrides, entry)
  {
    hide OwnStack, Consistent, Passes, MatchesFilter;
    InFlatMap(sources, Overlay(inc, overrides), entry);
    OwnStackExactly(entry);
    forall source: Entry
      ensures Passes(source, inc.filter) <==> MatchesFilter(source, inc.filter)
    {
      PassesExactly(source, inc.filter);
    }
  }

  lemma PassesExactly(entry: Entry, filter: Option<map<Key, seq<Value>>>)
    ensures Passes(entry, filter) <==> MatchesFilter(entry, filter)
  {
  }

  lemma AppliedExact(sources: seq<Entry>, inc: Include, overrides: Entry, entry: Entry)
    ensures entry in Applied(sources, inc)(overrides)
            <==> OverlaidFrom(sources, inc, overrides, entry) || (AppliesNowhere(sources, inc, overrides) && entry == overrides)
  {
    var candidates := FlatMap(sources, Overlay(inc, overrides));
    OverlaysExact(sources, inc, overrides, entry);
    if candidates != [] {
      OverlaysExact(sources, inc, overrides, candidates[0]);
      assert candidates[0] in candidates;
    } else {
      forall source | source in sources && inc.filter.None?
        ensures !OwnStack(source + overrides)
      {
        OverlaysExact(sources, inc, overrides, source + overrides);
      }
    }
  }

  /** The list an include reads: the completed base, or everything before it when it has a filter. */
  function SourcesOf(completed: seq<Entry>, includes: seq<Include>, i: nat): seq<Entry>
    requires i < |includes|
  {
    if includes[i].filter.Some? then ApplyIncludes(completed, includes[..i]) else completed
  }

  /** The entry was appended by the i-th include. */
  ghost predicate AppendedBy(completed: seq<Entry>, includes: seq<Include>, i: nat, entry: Entry)
    requires i < |includes|
  {
    var sources := SourcesOf(completed, includes, i);
    exists overrides :: overrides in Variants(includes[i])
      && (OverlaidFrom(sources, includes[i], overrides, entry)
          || (AppliesNowhere(sources, includes[i], overrides) && entry == overrides))
  }

  lemma ContributionExact(completed: seq<Entry>, includes: seq<Include>, i: nat, entry: Entry)
    requires i < |includes|
    ensures entry in Contribution(SourcesOf(completed, includes, i), includes[i]) <==>
      AppendedBy(completed, includes, i, entry)
  {
    var sources, inc := SourcesOf(completed, includes, i), includes[i];
    InFlatMap(Variants(inc), Applied(sources, inc), entry);
    forall overrides: Entry {
      AppliedExact(sources, inc, overrides, entry);
    }
  }

  lemma ApplyNext(completed: seq<Entry>, includes: seq<Include>, i: nat)
    requires i < |includes|
    ensures ApplyIncludes(completed, includes[..i + 1])
            == ApplyIncludes(completed, includes[..i]) + Contribution(SourcesOf(completed, includes, i), includes[i])
  {
    assert includes[..i + 1][..i] == includes[..i];
  }

  lemma ApplyNone(completed: seq<Entry>, includes: seq<Include>)
    ensures ApplyIncludes(completed, includes[..0]) == completed
  {
  }

  /**
   * The completed base stays a prefix, and an entry is in the list if and only if it is in that prefix or some include
   * appended it.
   */
  lemma {:induction false} IncludesExact(completed: seq<Entry>, includes: seq<Include>, n: nat, entry: Entry)
    requires n <= |includes|
    ensures completed <= ApplyIncludes(completed, includes[..n])
    ensures entry in ApplyIncludes(completed, includes[..n])
            <==> entry in completed || exists i: nat :: i < n && AppendedBy(completed, includes, i, entry)
  {
    hide ApplyIncludes, AppendedBy, Contribution, SourcesOf;
    if n == 0 {
      ApplyNone(completed, includes);
    } else {
      IncludesExact(completed, includes, n - 1, entry);
      ApplyNext(completed, includes, n - 1);
      ContributionExact(completed, includes, n - 1, entry);
    }
  }

  // ----- Stacks stay with their implementation

  lemma BaseConsistent(axes: map<Key, seq<Value>>, excludes: seq<Entry>, entry: Entry)
    requires KnownKeys(axes.Keys) && entry in Base(axes, excludes)
    ensures Consistent(entry)
  {
    BaseMembers(axes, excludes, entry);
  }

  lemma CompletedFrom(base: seq<Entry>, includes: seq<Include>, entry: Entry)
    requires entry in Completed(base, includes)
    ensures exists source :: source in base && FromSource(source, entry)
  {
    hide CompleteMtu, FromSource;
    InFlatMap(base, CompleteMtu(includes), entry);
    var source :| source in base && entry in CompleteMtu(includes)(source);
    CompletedSource(includes, source, entry);
  }

  lemma CompletedSource(includes: seq<Include>, source: Entry, entry: Entry)
    requires entry in CompleteMtu(includes)(source)
    ensures FromSource(source, entry)
  {
    hide MtusFor;
    if entry != source {
      InFlatMap(includes, MtusFor(source), entry);
      var inc :| inc in includes && entry in MtusFor(source)(inc);
      MtusForSource(source, inc, entry);
    }
  }

  lemma MtusForSource(source: Entry, inc: Include, entry: Entry)
    requires entry in MtusFor(source)(inc)
    ensures Mtu in entry && entry == source[Mtu := entry[Mtu]]
  {
    InMap(inc.values[Mtu], (value: Value) => source[Mtu := value], entry);
  }

  /** The entry itself, or the entry with an MTU it did not have. */
  ghost predicate FromSource(source: Entry, entry: Entry) {
    entry == source || (Mtu !in source && Mtu in entry && entry == source[Mtu := entry[Mtu]])
  }

  lemma AppendedConsistent(completed: seq<Entry>, includes: seq<Include>, i: nat, entry: Entry)
    requires i < |includes| && AppendedBy(completed, includes, i, entry)
    ensures OwnStack(entry) || StandsAlone(completed, includes[i], entry)
  {
  }

  /** The overrides of an unfiltered include that apply to no entry of the completed base. */
  ghost predicate StandsAlone(completed: seq<Entry>, inc: Include, entry: Entry) {
    inc.filter.None? && entry in Variants(inc) && AppliesNowhere(completed, inc, entry)
  }

  lemma CompletedConsistent(plan: Plan, entry: Entry)
    requires KnownKeys(plan.axes.Keys) && entry in Completed(Base(plan.axes, plan.excludes), plan.includes)
    ensures Consistent(entry)
  {
    hide Base, Completed;
    var base := Base(plan.axes, plan.excludes);
    CompletedFrom(base, plan.includes, entry);
    var source :| source in base && FromSource(source, entry);
    BaseConsistent(plan.axes, plan.excludes, source);
  }

  /** Every listed entry has a stack that belongs to its implementation, except overrides that applied nowhere. */
  lemma ListedConsistent(plan: Plan, entry: Entry)
    requires KnownKeys(plan.axes.Keys) && entry in Listed(plan)
    ensures
      var completed := Completed(Base(plan.axes, plan.excludes), plan.includes);
      OwnStack(entry) || exists i: nat :: i < |plan.includes| && StandsAlone(completed, plan.includes[i], entry)
  {
    hide Base, Completed, AppendedBy, Consistent, OwnStack, ApplyIncludes, StandsAlone;
    OwnStackExactly(entry);
    var completed := Completed(Base(plan.axes, plan.excludes), plan.includes);
    IncludesExact(completed, plan.includes, |plan.includes|, entry);
    assert plan.includes[..|plan.includes|] == plan.includes;
    if entry in completed {
      CompletedConsistent(plan, entry);
    } else {
      var i: nat :| i < |plan.includes| && AppendedBy(completed, plan.includes, i, entry);
      AppendedConsistent(completed, plan.includes, i, entry);
    }
  }

  // ----- The order of includes

  ghost predicate Unfiltered(includes: seq<Include>) {
    forall inc :: inc in includes ==> inc.filter.None?
  }

  function ContributionOf(completed: seq<Entry>): Include -> seq<Entry> {
    (inc: Include) => Contribution(completed, inc)
  }

  lemma {:induction false} UnfilteredIncludes(completed: seq<Entry>, includes: seq<Include>)
    requires Unfiltered(includes)
    ensures ApplyIncludes(completed, includes) == completed + FlatMap(includes, ContributionOf(completed))
  {
    hide Contribution;
    if includes != [] {
      SplitLast(includes);
      var front, last := includes[..|includes| - 1], includes[|includes| - 1];
      UnfilteredIncludes(completed, front);
      assert last in includes;
      Append(completed, FlatMap(front, ContributionOf(completed)), Contribution(completed, last));
    }
  }

  lemma Append(a: seq<Entry>, b: seq<Entry>, c: seq<Entry>)
    ensures a + b + c == a + (b + c)
  {
  }

  lemma SameElements<T>(a: seq<T>, b: seq<T>)
    requires multiset(a) == multiset(b)
    ensures forall x :: x in a <==> x in b
    ensures |a| == |b|
  {
    forall x
      ensures x in a <==> x in b
    {
      assert x in a <==> x in multiset(a);
    }
    assert |multiset(a)| == |a| && |multiset(b)| == |b|;
  }

  lemma CompletedPermuted(base: seq<Entry>, a: seq<Include>, b: seq<Include>)
    requires multiset(a) == multiset(b)
    ensures multiset(Completed(base, a)) == multiset(Completed(base, b))
  {
    forall entry: Entry
      ensures multiset(CompleteMtu(a)(entry)) == multiset(CompleteMtu(b)(entry))
    {
      FlatMapPermuted(a, b, MtusFor(entry));
      SameElements(FlatMap(a, MtusFor(entry)), FlatMap(b, MtusFor(entry)));
    }
    FlatMapSimilar(base, CompleteMtu(a), CompleteMtu(b));
  }

  lemma ContributionPermuted(a: seq<Entry>, b: seq<Entry>, inc: Include)
    requires multiset(a) == multiset(b)
    ensures multiset(Contribution(a, inc)) == multiset(Contribution(b, inc))
  {
    forall overrides: Entry
      ensures multiset(Applied(a, inc)(overrides)) == multiset(Applied(b, inc)(overrides))
    {
      FlatMapPermuted(a, b, Overlay(inc, overrides));
      SameElements(FlatMap(a, Overlay(inc, overrides)), FlatMap(b, Overlay(inc, overrides)));
    }
    FlatMapSimilar(Variants(inc), Applied(a, inc), Applied(b, inc));
  }

  lemma FillPermuted(a: seq<Entry>, b: seq<Entry>, kind: Reports.Kind)
    requires multiset(a) == multiset(b)
    ensures multiset(FillDefaults(a, kind)) == multiset(FillDefaults(b, kind))
  {
    FlatMapPermuted(a, b, FillEntry(Ip, DEFAULT_IP));
    var a1, b1 := FillAxis(a, Ip, DEFAULT_IP), FillAxis(b, Ip, DEFAULT_IP);
    FlatMapPermuted(a1, b1, FillEntry(Network, DEFAULT_NETWORK));
    FlatMapPermuted(FillAxis(a1, Network, DEFAULT_NETWORK), FillAxis(b1, Network, DEFAULT_NETWORK),
                    FillEntry(Direction, DEFAULT_DIRECTION));
  }

  /** Permuting unfiltered includes only permutes the expansion. */
  lemma IncludeOrder(plan: Plan, includes: seq<Include>)
    requires Unfiltered(plan.includes) && multiset(includes) == multiset(plan.includes)
    ensures multiset(Listed(plan.(includes := includes))) == multiset(Listed(plan))
    ensures multiset(FillDefaults(Listed(plan.(includes := includes)), plan.kind)) == multiset(FillDefaults(Listed(plan), plan.kind))
  {
    var base := Base(plan.axes, plan.excludes);
    var a, b := Completed(base, plan.includes), Completed(base, includes);
    SameElements(plan.includes, includes);
    UnfilteredIncludes(a, plan.includes);
    UnfilteredIncludes(b, includes);
    CompletedPermuted(base, plan.includes, includes);
    FlatMapPermuted(plan.includes, includes, ContributionOf(a));
    forall inc: Include
      ensures multiset(ContributionOf(a)(inc)) == multiset(ContributionOf(b)(inc))
    {
      ContributionPermuted(a, b, inc);
    }
    FlatMapSimilar(includes, ContributionOf(a), ContributionOf(b));
    FillPermuted(Listed(plan.(includes := includes)), Listed(plan), plan.kind);
  }

  /** An include as it is normalised, or nothing if it is refused. */
  function NormalOf(parseRate: RateParser): RawInclude -> seq<Include> {
    (inc: RawInclude) => var normal := NormalizeInclude(inc, parseRate); if normal.Some? then [normal.value] else []
  }

  lemma {:induction false} NormalizeExact(includes: seq<RawInclude>, parseRate: RateParser)
    ensures NormalizeIncludes(includes, parseRate).Some? <==>
      forall inc :: inc in includes ==> NormalizeInclude(inc, parseRate).Some?
    ensures NormalizeIncludes(includes, parseRate).Some? ==>
      NormalizeIncludes(includes, parseRate).value == FlatMap(includes, NormalOf(parseRate))
  {
    hide NormalizeInclude;
    if includes != [] {
      SplitLast(includes);
      NormalizeExact(includes[..|includes| - 1], parseRate);
    }
  }

  ghost predicate UnfilteredRaw(includes: seq<RawInclude>) {
    forall inc :: inc in includes ==> inc.filter.None?
  }

  lemma NormalUnfiltered(includes: seq<RawInclude>, parseRate: RateParser)
    requires UnfilteredRaw(includes) && NormalizeIncludes(includes, parseRate).Some?
    ensures Unfiltered(NormalizeIncludes(includes, parseRate).value)
  {
    NormalizeExact(includes, parseRate);
    forall inc | inc in FlatMap(includes, NormalOf(parseRate))
      ensures inc.filter.None?
    {
      InFlatMap(includes, NormalOf(parseRate), inc);
    }
  }

  lemma MentionsSame(m: Matrix, includes: seq<RawInclude>, key: Key)
    requires multiset(includes) == multiset(m.includes) && Mentions(m, key)
    ensures Mentions(m.(includes := includes), key)
  {
    SameElements(includes, m.includes);
    if i :| 0 <= i < |m.includes| && (key in m.includes[i].values || key in FilterKeys(m.includes[i])) {
      assert m.includes[i] in includes;
      var j :| 0 <= j < |includes| && includes[j] == m.includes[i];
      assert key in includes[j].values || key in FilterKeys(includes[j]);
    }
  }

  lemma UnsupportedSame(m: Matrix, includes: seq<RawInclude>)
    requires multiset(includes) == multiset(m.includes)
    ensures Unsupported(m.(includes := includes)) <==> Unsupported(m)
  {
    hide Mentions;
    var m' := m.(includes := includes);
    forall key
      ensures Mentions(m, key) <==> Mentions(m', key)
    {
      if Mentions(m, key) {
        MentionsSame(m, includes, key);
      }
      if Mentions(m', key) {
        MentionsSame(m', m.includes, key);
        assert m'.(includes := m.includes) == m;
      }
    }
  }

  lemma PlanPermuted(m: Matrix, includes: seq<RawInclude>, parseRate: RateParser)
    requires multiset(includes) == multiset(m.includes)
    ensures
      var plan, plan' := PlanOf(m, parseRate), PlanOf(m.(includes := includes), parseRate);
      && (plan.Some? <==> plan'.Some?)
      && (plan.Some? ==>
            && multiset(plan'.value.includes) == multiset(plan.value.includes)
            && plan'.value == plan.value.(includes := plan'.value.includes))
  {
    hide Unsupported, NormalizeInclude, NormalizeIncludes, NormalizeLists, NormalizeExcludes, NormalOf;
    UnsupportedSame(m, includes);
    SameElements(includes, m.includes);
    NormalizeExact(includes, parseRate);
    NormalizeExact(m.includes, parseRate);
    FlatMapPermuted(includes, m.includes, NormalOf(parseRate));
  }

  /**
   * Permuting the includes of a matrix without filters only permutes what it expands to; it is refused either way or
   * neither.
   */
  lemma IncludeOrderExpands(m: Matrix, includes: seq<RawInclude>, parseRate: RateParser)
    requires UnfilteredRaw(m.includes) && multiset(includes) == multiset(m.includes)
    ensures
      var r, r' := Expand(m, parseRate), Expand(m.(includes := includes), parseRate);
      (r.Some? <==> r'.Some?) && (r.Some? ==> multiset(r'.value) == multiset(r.value))
  {
    hide PlanOf, FillDefaults, Listed;
    PlanPermuted(m, includes, parseRate);
    var plan, plan' := PlanOf(m, parseRate), PlanOf(m.(includes := includes), parseRate);
    if plan.Some? {
      PlanParts(m, parseRate);
      NormalUnfiltered(m.includes, parseRate);
      IncludeOrder(plan.value, plan'.value.includes);
      SameElements(Listed(plan.value), Listed(plan'.value));
    }
  }

  lemma PlanParts(m: Matrix, parseRate: RateParser)
    requires PlanOf(m, parseRate).Some?
    ensures NormalizeIncludes(m.includes, parseRate) == Some(PlanOf(m, parseRate).value.includes)
    ensures PlanOf(m, parseRate).value.kind == m.kind
  {
  }

  // ----- Completion of the MTU

  /** The include gives nothing but MTUs, and matches the source. */
  ghost predicate Completing(inc: Include, source: Entry) {
    inc.values.Keys == {Mtu} && Passes(source, inc.filter)
  }

  /** What completion makes of a source: the source itself if it has an MTU or is given none, otherwise a given MTU. */
  ghost predicate CompletedTo(includes: seq<Include>, source: Entry, entry: Entry) {
    if Mtu !in source && exists inc :: inc in includes && Completing(inc, source) && inc.values[Mtu] != []
    then exists inc :: inc in includes && Completing(inc, source)
                       && Mtu in entry && entry[Mtu] in inc.values[Mtu] && entry == source[Mtu := entry[Mtu]]
    else entry == source
  }

  lemma MtusExact(source: Entry, inc: Include, entry: Entry)
    ensures entry in MtusFor(source)(inc) <==>
      Completing(inc, source) && Mtu in entry && entry[Mtu] in inc.values[Mtu] && entry == source[Mtu := entry[Mtu]]
    ensures MtusFor(source)(inc) == [] <==> !(Completing(inc, source) && inc.values[Mtu] != [])
  {
    PassesExactly(source, inc.filter);
    if MtuOnly(inc) {
      InMap(inc.values[Mtu], (value: Value) => source[Mtu := value], entry);
    }
  }

  lemma {:induction false} NoCandidates(source: Entry, includes: seq<Include>)
    ensures FlatMap(includes, MtusFor(source)) == [] <==>
      forall inc :: inc in includes ==> MtusFor(source)(inc) == []
  {
    hide MtusFor;
    if includes != [] {
      SplitLast(includes);
      NoCandidates(source, includes[..|includes| - 1]);
    }
  }

  /** An entry of the completed base comes from a base entry, exactly as completion says. */
  lemma CompletedExact(base: seq<Entry>, includes: seq<Include>, entry: Entry)
    ensures entry in Completed(base, includes) <==>
      exists source :: source in base && CompletedTo(includes, source, entry)
  {
    hide CompletedTo, CompleteMtu;
    InFlatMap(base, CompleteMtu(includes), entry);
    forall source: Entry
      ensures entry in CompleteMtu(includes)(source) <==> CompletedTo(includes, source, entry)
    {
      CompletedToExactly(includes, source, entry);
    }
  }

  lemma CompletedToExactly(includes: seq<Include>, source: Entry, entry: Entry)
    ensures entry in CompleteMtu(includes)(source) <==> CompletedTo(includes, source, entry)
  {
    hide MtusFor, Completing;
    InFlatMap(includes, MtusFor(source), entry);
    NoCandidates(source, includes);
    forall inc: Include
      ensures entry in MtusFor(source)(inc) <==>
        Completing(inc, source) && Mtu in inc.values
        && Mtu in entry && entry[Mtu] in inc.values[Mtu] && entry == source[Mtu := entry[Mtu]]
      ensures MtusFor(source)(inc) == [] <==> !(Completing(inc, source) && Mtu in inc.values && inc.values[Mtu] != [])
      ensures Completing(inc, source) ==> Mtu in inc.values
    {
      MtusExact(source, inc, entry);
      CompletingHasMtu(inc, source);
    }
  }

  lemma CompletingHasMtu(inc: Include, source: Entry)
    ensures Completing(inc, source) ==> Mtu in inc.values
  {
  }

  // ----- Includes that only give MTUs

  ghost predicate OnlyMtus(includes: seq<Include>) {
    forall inc :: inc in includes ==> inc.filter.None? && MtuOnly(inc) && inc.values[Mtu] != []
  }

  /** The entry is a base entry with one of the MTUs that the includes list. */
  ghost predicate BaseWithMtu(base: seq<Entry>, includes: seq<Include>, entry: Entry) {
    exists source, inc :: source in base && inc in includes && Mtu in inc.values && Mtu in entry
                          && entry == source[Mtu := entry[Mtu]] && entry[Mtu] in inc.values[Mtu]
  }

  lemma MtusForExact(source: Entry, inc: Include, entry: Entry)
    requires inc.filter.None? && MtuOnly(inc)
    ensures entry in MtusFor(source)(inc) <==>
      Mtu in entry && entry[Mtu] in inc.values[Mtu] && entry == source[Mtu := entry[Mtu]]
  {
    InMap(inc.values[Mtu], (value: Value) => source[Mtu := value], entry);
  }

  lemma CompletedMtus(base: seq<Entry>, includes: seq<Include>, entry: Entry)
    requires OnlyMtus(includes) && includes != [] && Lacks(base, Mtu)
    ensures entry in Completed(base, includes) <==> BaseWithMtu(base, includes, entry)
  {
    InFlatMap(base, CompleteMtu(includes), entry);
    forall source | source in base
      ensures entry in CompleteMtu(includes)(source) <==> exists inc :: inc in includes && entry in MtusFor(source)(inc)
    {
      var inc := includes[0];
      InFlatMap(includes, MtusFor(source), entry);
      InFlatMap(includes, MtusFor(source), source[Mtu := inc.values[Mtu][0]]);
      MtusForExact(source, inc, source[Mtu := inc.values[Mtu][0]]);
    }
    forall source, inc | source in base && inc in includes
      ensures entry in MtusFor(source)(inc) <==>
        Mtu in entry && entry[Mtu] in inc.values[Mtu] && entry == source[Mtu := entry[Mtu]]
    {
      MtusForExact(source, inc, entry);
    }
  }

  /**
   * If no base entry has an MTU and all includes only give MTUs, the list is the base times the listed MTUs, and what the
   * includes append afterwards is already there. Without any include the base stays as it is.
   */
  lemma MtuIncludesAddNothing(plan: Plan, entry: Entry)
    requires KnownKeys(plan.axes.Keys) && OnlyMtus(plan.includes)
    requires Base(plan.axes, plan.excludes) != [] && Lacks(Base(plan.axes, plan.excludes), Mtu)
    ensures
      var base := Base(plan.axes, plan.excludes);
      && (entry in Listed(plan) <==> entry in Completed(base, plan.includes))
      && (entry in Listed(plan) <==> if plan.includes == [] then entry in base else BaseWithMtu(base, plan.includes, entry))
  {
    var base := Base(plan.axes, plan.excludes);
    var completed := Completed(base, plan.includes);
    IncludesExact(completed, plan.includes, |plan.includes|, entry);
    assert plan.includes[..|plan.includes|] == plan.includes;
    if plan.includes == [] {
      CompletedNone(base, entry);
    } else {
      CompletedMtus(base, plan.includes, entry);
      if i: nat :| i < |plan.includes| && AppendedBy(completed, plan.includes, i, entry) {
        MtuAppended(plan, i, entry);
      }
    }
  }

  lemma CompletedNone(base: seq<Entry>, entry: Entry)
    ensures entry in Completed(base, []) <==> entry in base
  {
    InFlatMap(base, CompleteMtu([]), entry);
    forall source: Entry
      ensures CompleteMtu([])(source) == [source]
    {
    }
  }

  /** What an include appends is a base entry with a listed MTU, since overlaying an MTU replaces it. */
  lemma MtuAppended(plan: Plan, i: nat, entry: Entry)
    requires KnownKeys(plan.axes.Keys) && OnlyMtus(plan.includes) && i < |plan.includes|
    requires Base(plan.axes, plan.excludes) != [] && Lacks(Base(plan.axes, plan.excludes), Mtu)
    requires AppendedBy(Completed(Base(plan.axes, plan.excludes), plan.includes), plan.includes, i, entry)
    ensures BaseWithMtu(Base(plan.axes, plan.excludes), plan.includes, entry)
  {
    hide Base, Completed, Variants, OverlaidFrom, AppliesNowhere, BaseWithMtu;
    var base, inc := Base(plan.axes, plan.excludes), plan.includes[i];
    var completed := Completed(base, plan.includes);
    assert inc in plan.includes;
    var overrides :| overrides in Variants(inc)
      && (OverlaidFrom(completed, inc, overrides, entry) || (AppliesNowhere(completed, inc, overrides) && entry == overrides));
    VariantsExact(inc, overrides);
    if AppliesNowhere(completed, inc, overrides) {
      MtuApplies(plan, inc, overrides);
    } else {
      MtuOverlaid(base, plan.includes, inc, overrides, entry);
    }
  }

  /** An MTU can be overlaid on any base entry, so no such include stands alone. */
  lemma MtuApplies(plan: Plan, inc: Include, overrides: Entry)
    requires KnownKeys(plan.axes.Keys) && OnlyMtus(plan.includes) && inc in plan.includes && overrides.Keys == {Mtu}
    requires Base(plan.axes, plan.excludes) != [] && Lacks(Base(plan.axes, plan.excludes), Mtu)
    ensures !AppliesNowhere(Completed(Base(plan.axes, plan.excludes), plan.includes), inc, overrides)
  {
    hide Base, Completed;
    var base := Base(plan.axes, plan.excludes);
    var first := base[0][Mtu := inc.values[Mtu][0]];
    assert BaseWithMtu(base, plan.includes, first) by {
      assert base[0] in base && first[Mtu] in inc.values[Mtu];
    }
    CompletedMtus(base, plan.includes, first);
    BaseConsistent(plan.axes, plan.excludes, base[0]);
    SameNames(base[0], first + overrides);
  }

  lemma MtuOverlaid(base: seq<Entry>, includes: seq<Include>, inc: Include, overrides: Entry, entry: Entry)
    requires OnlyMtus(includes) && inc in includes && Lacks(base, Mtu)
    requires overrides.Keys == {Mtu} && overrides[Mtu] in inc.values[Mtu]
    requires OverlaidFrom(Completed(base, includes), inc, overrides, entry)
    ensures BaseWithMtu(base, includes, entry)
  {
    hide Completed, OwnStack, Passes;
    var source :| source in Completed(base, includes) && Passes(source, inc.filter)
                  && entry == source + overrides && OwnStack(entry);
    CompletedMtus(base, includes, source);
    var origin, other :| origin in base && other in includes && Mtu in other.values && Mtu in source
                         && source == origin[Mtu := source[Mtu]] && source[Mtu] in other.values[Mtu];
    MtuReplaced(origin, source, overrides);
    assert origin in base && inc in includes && Mtu in inc.values && entry[Mtu] in inc.values[Mtu];
  }

  lemma MtuReplaced(origin: Entry, source: Entry, overrides: Entry)
    requires Mtu in source && source == origin[Mtu := source[Mtu]] && overrides.Keys == {Mtu}
    ensures (source + overrides)[Mtu] == overrides[Mtu] && source + overrides == origin[Mtu := overrides[Mtu]]
  {
  }

  lemma SameNames(a: Entry, b: Entry)
    requires Consistent(a)
    requires TextOf(a, Implementation) == TextOf(b, Implementation) && TextOf(a, Stack) == TextOf(b, Stack)
    ensures Consistent(b)
  {
  }

  // ----- Default axes

  /** The entry itself if it has the axis, otherwise the entry with one of its default values. */
  ghost predicate Completes(source: Entry, key: Key, values: seq<Value>, entry: Entry) {
    if key in source then entry == source
    else key in entry && entry[key] in values && entry == source[key := entry[key]]
  }

  lemma FillAxisExact(entries: seq<Entry>, key: Key, values: seq<Value>, entry: Entry)
    ensures entry in FillAxis(entries, key, values) <==>
      exists source :: source in entries && Completes(source, key, values, entry)
  {
    InFlatMap(entries, FillEntry(key, values), entry);
    forall source: Entry
      ensures entry in FillEntry(key, values)(source) <==> Completes(source, key, values, entry)
    {
      InMap(values, (value: Value) => source[key := value], entry);
    }
  }

  /** An entry completed on every default axis of its measurement type. */
  ghost predicate CompletesAll(source: Entry, kind: Reports.Kind, entry: Entry) {
    exists a, b :: Completes(source, Ip, DEFAULT_IP, a) && Completes(a, Network, DEFAULT_NETWORK, b)
                   && if kind == Reports.Memory then entry == b else Completes(b, Direction, DEFAULT_DIRECTION, entry)
  }

  /** Filling in the defaults yields exactly the completions of the entries. */
  lemma FillExact(entries: seq<Entry>, kind: Reports.Kind, entry: Entry)
    ensures entry in FillDefaults(entries, kind) <==>
      exists source :: source in entries && CompletesAll(source, kind, entry)
  {
    hide FillAxis, Completes;
    var one := FillAxis(entries, Ip, DEFAULT_IP);
    var two := FillAxis(one, Network, DEFAULT_NETWORK);
    FillAxisExact(two, Direction, DEFAULT_DIRECTION, entry);
    if entry in FillDefaults(entries, kind) {
      var b :| b in two && if kind == Reports.Memory then entry == b else Completes(b, Direction, DEFAULT_DIRECTION, entry);
      FillAxisExact(one, Network, DEFAULT_NETWORK, b);
      var a :| a in one && Completes(a, Network, DEFAULT_NETWORK, b);
      FillAxisExact(entries, Ip, DEFAULT_IP, a);
      var source :| source in entries && Completes(source, Ip, DEFAULT_IP, a);
      assert CompletesAll(source, kind, entry);
    }
    if source :| source in entries && CompletesAll(source, kind, entry) {
      var a, b :| Completes(source, Ip, DEFAULT_IP, a) && Completes(a, Network, DEFAULT_NETWORK, b)
                  && if kind == Reports.Memory then entry == b else Completes(b, Direction, DEFAULT_DIRECTION, entry);
      FillAxisExact(entries, Ip, DEFAULT_IP, a);
      FillAxisExact(one, Network, DEFAULT_NETWORK, b);
    }
  }

  /** The default axes, written out: both IP versions, both networks, and both directions except for memory. */
  ghost predicate FilledIn(source: Entry, kind: Reports.Kind, entry: Entry) {
    && (forall key :: key in source ==> key in entry && entry[key] == source[key])
    && entry.Keys == source.Keys + {Ip, Network} + (if kind == Reports.Memory then {} else {Direction})
    && (Ip !in source ==> entry[Ip] == Number(4) || entry[Ip] == Number(6))
    && (Network !in source ==> entry[Network] == Text("tcp") || entry[Network] == Text("udp"))
    && (kind != Reports.Memory && Direction !in source ==>
          entry[Direction] == Text("upload") || entry[Direction] == Text("download"))
  }

  lemma DefaultsFilled(source: Entry, kind: Reports.Kind, entry: Entry)
    ensures CompletesAll(source, kind, entry) <==> FilledIn(source, kind, entry)
  {
    if CompletesAll(source, kind, entry) {
      CompletesFills(source, kind, entry);
    }
    if FilledIn(source, kind, entry) {
      FillsCompletes(source, kind, entry);
    }
  }

  lemma CompletesFills(source: Entry, kind: Reports.Kind, entry: Entry)
    requires CompletesAll(source, kind, entry)
    ensures FilledIn(source, kind, entry)
  {
  }

  lemma FillsCompletes(source: Entry, kind: Reports.Kind, entry: Entry)
    requires FilledIn(source, kind, entry)
    ensures CompletesAll(source, kind, entry)
  {
    var a := if Ip in source then source else source[Ip := entry[Ip]];
    var b := if Network in a then a else a[Network := entry[Network]];
    assert Completes(source, Ip, DEFAULT_IP, a) && Completes(a, Network, DEFAULT_NETWORK, b);
    if kind == Reports.Memory {
      assert entry == b;
    } else {
      assert entry == if Direction in b then b else b[Direction := entry[Direction]];
      assert Completes(b, Direction, DEFAULT_DIRECTION, entry);
    }
  }

  ghost predicate AllHave(entries: seq<Entry>, key: Key) {
    forall entry :: entry in entries ==> key in entry
  }

  lemma FillAxisHas(entries: seq<Entry>, key: Key, values: seq<Value>, other: Key)
    ensures AllHave(FillAxis(entries, key, values), key)
    ensures AllHave(entries, other) ==> AllHave(FillAxis(entries, key, values), other)
  {
    forall entry | entry in FillAxis(entries, key, values)
      ensures key in entry && (AllHave(entries, other) ==> other in entry)
    {
      FillAxisExact(entries, key, values, entry);
    }
  }

  lemma {:induction false} FillAxisStable(entries: seq<Entry>, key: Key, values: seq<Value>)
    requires AllHave(entries, key)
    ensures FillAxis(entries, key, values) == entries
  {
    if entries != [] {
      SplitLast(entries);
      assert entries[|entries| - 1] in entries;
      FillAxisStable(entries[..|entries| - 1], key, values);
    }
  }

  /** Every entry has its default axes afterwards, so filling them in again changes nothing. */
  lemma FillIdempotent(entries: seq<Entry>, kind: Reports.Kind)
    ensures AllHave(FillDefaults(entries, kind), Ip) && AllHave(FillDefaults(entries, kind), Network)
    ensures kind != Reports.Memory ==> AllHave(FillDefaults(entries, kind), Direction)
    ensures FillDefaults(FillDefaults(entries, kind), kind) == FillDefaults(entries, kind)
  {
    var one := FillAxis(entries, Ip, DEFAULT_IP);
    var two := FillAxis(one, Network, DEFAULT_NETWORK);
    FillAxisHas(entries, Ip, DEFAULT_IP, Ip);
    FillAxisHas(one, Network, DEFAULT_NETWORK, Ip);
    FillAxisHas(two, Direction, DEFAULT_DIRECTION, Ip);
    FillAxisHas(two, Direction, DEFAULT_DIRECTION, Network);
    var filled := FillDefaults(entries, kind);
    FillAxisStable(filled, Ip, DEFAULT_IP);
    FillAxisStable(filled, Network, DEFAULT_NETWORK);
    if kind != Reports.Memory {
      FillAxisStable(filled, Direction, DEFAULT_DIRECTION);
    }
  }
}
