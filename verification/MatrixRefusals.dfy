/** Which matrices are refused (configuration.go). */
module MatrixRefusals {
  import opened Wrappers
  import Reports
  import opened Seqs
  import opened MatrixSpec
  import opened MatrixLaws
  import opened MatrixIncludes
  import opened MatrixTypes
  import MatrixValues

  // ----- What a matrix says

  /** The axis stands somewhere in the matrix: among its axes, in an include or its filter, or in an exclude. */
  ghost predicate Stands(m: Matrix, key: Key) {
    || key in m.axes
    || (exists inc :: inc in m.includes && (key in inc.values || (inc.filter.Some? && key in inc.filter.value)))
    || (exists exclude :: exclude in m.excludes && key in exclude)
  }

  lemma StandsExactly(m: Matrix, key: Key)
    ensures Stands(m, key) <==> Mentions(m, key)
  {
    if inc :| inc in m.includes && (key in inc.values || (inc.filter.Some? && key in inc.filter.value)) {
      var i :| 0 <= i < |m.includes| && m.includes[i] == inc;
      assert key in m.includes[i].values || key in FilterKeys(m.includes[i]);
    }
    if exclude :| exclude in m.excludes && key in exclude {
      var i :| 0 <= i < |m.excludes| && m.excludes[i] == exclude;
      assert key in m.excludes[i];
    }
  }

  ghost predicate Accepted(key: Key, raw: Raw, parseRate: RateParser) { NormalizeValue(key, raw, parseRate).Some? }

  /** A list is not empty, and all of its values are accepted. */
  ghost predicate AcceptedList(key: Key, raws: seq<Raw>, parseRate: RateParser) {
    raws != [] && forall k :: 0 <= k < |raws| ==> Accepted(key, raws[k], parseRate)
  }

  ghost predicate AcceptedLists(lists: map<Key, seq<Raw>>, parseRate: RateParser) {
    forall key :: key in lists ==> AcceptedList(key, lists[key], parseRate)
  }

  /** One value, or a list of values. */
  ghost predicate AcceptedValue(key: Key, raw: Raw, parseRate: RateParser) {
    if raw.RawList? then AcceptedList(key, raw.items, parseRate) else Accepted(key, raw, parseRate)
  }

  ghost predicate AcceptedValues(values: map<Key, Raw>, parseRate: RateParser) {
    forall key :: key in values ==> AcceptedValue(key, values[key], parseRate)
  }

  ghost predicate AcceptedInclude(inc: RawInclude, parseRate: RateParser) {
    AcceptedValues(inc.values, parseRate) && (inc.filter.Some? ==> AcceptedValues(inc.filter.value, parseRate))
  }

  ghost predicate AcceptedExclude(exclude: map<Key, Raw>, parseRate: RateParser) {
    forall key :: key in exclude ==> Accepted(key, exclude[key], parseRate)
  }

  ghost predicate AcceptedMatrix(m: Matrix, parseRate: RateParser) {
    && (m.kind == Reports.Memory ==> !Stands(m, Direction) && !Stands(m, Parallel) && !Stands(m, Bitrate))
    && AcceptedLists(m.axes, parseRate)
    && (forall inc :: inc in m.includes ==> AcceptedInclude(inc, parseRate))
    && (forall exclude :: exclude in m.excludes ==> AcceptedExclude(exclude, parseRate))
  }

  // ----- What normalising refuses

  lemma NormalExactly(key: Key, raws: seq<Raw>, parseRate: RateParser)
    ensures Normal(key, raws, parseRate) <==> AcceptedList(key, raws, parseRate)
  {
    MatrixValues.ListsAccepted(key, raws, parseRate);
  }

  lemma ListsExactly(lists: map<Key, seq<Raw>>, parseRate: RateParser)
    ensures NormalizeLists(lists, parseRate).Some? <==> AcceptedLists(lists, parseRate)
  {
    hide NormalizeList, NormalizeValue;
    forall key | key in lists
      ensures Normal(key, lists[key], parseRate) <==> AcceptedList(key, lists[key], parseRate)
    {
      NormalExactly(key, lists[key], parseRate);
    }
  }

  lemma ValuesExactly(values: map<Key, Raw>, parseRate: RateParser)
    ensures NormalizeValues(values, parseRate).Some? <==> AcceptedValues(values, parseRate)
  {
    hide Accepted;
    var lists := map key | key in values :: ListOf(values[key]);
    ListsExactly(lists, parseRate);
    forall key | key in values
      ensures AcceptedList(key, lists[key], parseRate) <==> AcceptedValue(key, values[key], parseRate)
    {
      if !values[key].RawList? {
        assert lists[key][0] == values[key];
      }
    }
  }

  lemma IncludeExactly(inc: RawInclude, parseRate: RateParser)
    ensures NormalizeInclude(inc, parseRate).Some? <==> AcceptedInclude(inc, parseRate)
  {
    hide AcceptedValues, NormalizeValues;
    ValuesExactly(inc.values, parseRate);
    if inc.filter.Some? {
      ValuesExactly(inc.filter.value, parseRate);
    }
  }

  lemma ExcludeExactly(exclude: map<Key, Raw>, parseRate: RateParser)
    ensures NormalizeExclude(exclude, parseRate).Some? <==> AcceptedExclude(exclude, parseRate)
  {
    hide NormalizeValue;
    forall key | key in exclude
      ensures Accepted(key, exclude[key], parseRate) <==> NormalizeValue(key, exclude[key], parseRate).Some?
    {
    }
  }

  lemma {:induction false} ExcludesExactly(excludes: seq<map<Key, Raw>>, parseRate: RateParser)
    ensures NormalizeExcludes(excludes, parseRate).Some? <==>
      forall exclude :: exclude in excludes ==> AcceptedExclude(exclude, parseRate)
  {
    hide NormalizeExclude, AcceptedExclude;
    if excludes != [] {
      SplitLast(excludes);
      ExcludeExactly(excludes[|excludes| - 1], parseRate);
      ExcludesExactly(excludes[..|excludes| - 1], parseRate);
    }
  }

  lemma PlanExactly(m: Matrix, parseRate: RateParser)
    ensures PlanOf(m, parseRate).Some? <==> AcceptedMatrix(m, parseRate)
  {
    hide NormalizeLists, NormalizeIncludes, NormalizeExcludes, Stands, Mentions, AcceptedInclude, AcceptedExclude,
      AcceptedLists, NormalizeInclude;
    StandsExactly(m, Direction);
    StandsExactly(m, Parallel);
    StandsExactly(m, Bitrate);
    ListsExactly(m.axes, parseRate);
    NormalizeExact(m.includes, parseRate);
    forall inc | inc in m.includes
      ensures NormalizeInclude(inc, parseRate).Some? <==> AcceptedInclude(inc, parseRate)
    {
      IncludeExactly(inc, parseRate);
    }
    ExcludesExactly(m.excludes, parseRate);
  }

  // ----- What it makes of the rest

  ghost predicate BecomesList(key: Key, raws: seq<Raw>, values: seq<Value>, parseRate: RateParser) {
    |values| == |raws| && forall k :: 0 <= k < |raws| ==> NormalizeValue(key, raws[k], parseRate) == Some(values[k])
  }

  ghost predicate BecomesLists(lists: map<Key, seq<Raw>>, values: map<Key, seq<Value>>, parseRate: RateParser) {
    values.Keys == lists.Keys && forall key :: key in lists ==> BecomesList(key, lists[key], values[key], parseRate)
  }

  ghost predicate BecomesValues(raws: map<Key, Raw>, values: map<Key, seq<Value>>, parseRate: RateParser) {
    && values.Keys == raws.Keys
    && forall key :: key in raws ==>
         BecomesList(key, if raws[key].RawList? then raws[key].items else [raws[key]], values[key], parseRate)
  }

  ghost predicate BecomesInclude(raw: RawInclude, inc: Include, parseRate: RateParser) {
    && BecomesValues(raw.values, inc.values, parseRate)
    && (inc.filter.Some? <==> raw.filter.Some?)
    && (inc.filter.Some? ==> BecomesValues(raw.filter.value, inc.filter.value, parseRate))
  }

  ghost predicate BecomesExclude(raw: map<Key, Raw>, exclude: Entry, parseRate: RateParser) {
    exclude.Keys == raw.Keys && forall key :: key in raw ==> NormalizeValue(key, raw[key], parseRate) == Some(exclude[key])
  }

  /** The plan is the matrix, value by value, in the same order. */
  ghost predicate Becomes(m: Matrix, plan: Plan, parseRate: RateParser) {
    && plan.kind == m.kind && BecomesLists(m.axes, plan.axes, parseRate)
    && |plan.includes| == |m.includes| && |plan.excludes| == |m.excludes|
    && (forall k :: 0 <= k < |m.includes| ==> BecomesInclude(m.includes[k], plan.includes[k], parseRate))
    && (forall k :: 0 <= k < |m.excludes| ==> BecomesExclude(m.excludes[k], plan.excludes[k], parseRate))
  }

  lemma ListsBecome(lists: map<Key, seq<Raw>>, parseRate: RateParser)
    requires NormalizeLists(lists, parseRate).Some?
    ensures BecomesLists(lists, NormalizeLists(lists, parseRate).value, parseRate)
  {
    hide NormalizeList, NormalizeValue;
    forall key | key in lists
      ensures BecomesList(key, lists[key], NormalizeLists(lists, parseRate).value[key], parseRate)
    {
      assert Normal(key, lists[key], parseRate);
      MatrixValues.ListsAccepted(key, lists[key], parseRate);
    }
  }

  lemma ValuesBecome(raws: map<Key, Raw>, parseRate: RateParser)
    requires NormalizeValues(raws, parseRate).Some?
    ensures BecomesValues(raws, NormalizeValues(raws, parseRate).value, parseRate)
  {
    hide NormalizeLists, BecomesList;
    ListsBecome(map key | key in raws :: ListOf(raws[key]), parseRate);
  }

  lemma IncludeBecomes(raw: RawInclude, parseRate: RateParser)
    requires NormalizeInclude(raw, parseRate).Some?
    ensures BecomesInclude(raw, NormalizeInclude(raw, parseRate).value, parseRate)
  {
    hide NormalizeValues, BecomesValues;
    ValuesBecome(raw.values, parseRate);
    if raw.filter.Some? {
      ValuesBecome(raw.filter.value, parseRate);
    }
  }

  lemma {:induction false} IncludesBecome(includes: seq<RawInclude>, parseRate: RateParser, k: nat)
    requires NormalizeIncludes(includes, parseRate).Some? && k < |includes|
    ensures BecomesInclude(includes[k], NormalizeIncludes(includes, parseRate).value[k], parseRate)
  {
    hide NormalizeInclude, BecomesInclude;
    var last := |includes| - 1;
    if k < last {
      IncludesBecome(includes[..last], parseRate, k);
    } else {
      IncludeBecomes(includes[last], parseRate);
    }
  }

  lemma {:induction false} ExcludesBecome(excludes: seq<map<Key, Raw>>, parseRate: RateParser)
    requires NormalizeExcludes(excludes, parseRate).Some?
    ensures |NormalizeExcludes(excludes, parseRate).value| == |excludes|
    ensures forall k :: 0 <= k < |excludes| ==>
      BecomesExclude(excludes[k], NormalizeExcludes(excludes, parseRate).value[k], parseRate)
  {
    hide NormalizeExclude, BecomesExclude;
    if excludes != [] {
      ExcludesBecome(excludes[..|excludes| - 1], parseRate);
      ExcludeBecomes(excludes[|excludes| - 1], parseRate);
    }
  }

  lemma ExcludeBecomes(raw: map<Key, Raw>, parseRate: RateParser)
    requires NormalizeExclude(raw, parseRate).Some?
    ensures BecomesExclude(raw, NormalizeExclude(raw, parseRate).value, parseRate)
  {
    hide NormalizeValue;
  }

  /** A matrix that is not refused is taken value by value. */
  lemma PlanBecomes(m: Matrix, parseRate: RateParser)
    requires PlanOf(m, parseRate).Some?
    ensures Becomes(m, PlanOf(m, parseRate).value, parseRate)
  {
    hide NormalizeLists, NormalizeIncludes, NormalizeExcludes, BecomesLists, BecomesInclude, BecomesExclude;
    ListsBecome(m.axes, parseRate);
    forall k | 0 <= k < |m.includes|
      ensures BecomesInclude(m.includes[k], PlanOf(m, parseRate).value.includes[k], parseRate)
    {
      IncludesBecome(m.includes, parseRate, k);
    }
    ExcludesBecome(m.excludes, parseRate);
  }

  // ----- When nothing is left

  lemma CompletedEmpty(base: seq<Entry>, includes: seq<Include>)
    ensures Completed(base, includes) == [] <==> base == []
  {
    if base != [] {
      SplitLast(base);
      assert CompleteMtu(includes)(base[|base| - 1]) != [];
    }
  }

  /** There is a variant of an include that is normalised. */
  lemma VariantExists(inc: Include)
    requires KnownKeys(inc.values.Keys) && forall key :: key in inc.values ==> inc.values[key] != []
    ensures Variants(inc) != []
  {
    var overrides := map key | key in inc.values :: inc.values[key][0];
    VariantsExact(inc, overrides);
  }

  lemma Contributes(sources: seq<Entry>, inc: Include)
    requires KnownKeys(inc.values.Keys) && forall key :: key in inc.values ==> inc.values[key] != []
    ensures inc.filter.None? ==> Contribution(sources, inc) != []
    ensures inc.filter.Some? && sources == [] ==> Contribution(sources, inc) == []
  {
    VariantExists(inc);
    if inc.filter.None? {
      var overrides := Variants(inc)[0];
      var applied := Applied(sources, inc)(overrides);
      assert applied != [];
      InFlatMap(Variants(inc), Applied(sources, inc), applied[0]);
    } else if sources == [] && Contribution(sources, inc) != [] {
      var entry := Contribution(sources, inc)[0];
      InFlatMap(Variants(inc), Applied(sources, inc), entry);
    }
  }

  lemma {:induction false} AppliedEmpty(completed: seq<Entry>, includes: seq<Include>)
    requires forall inc :: inc in includes ==>
      KnownKeys(inc.values.Keys) && forall key :: key in inc.values ==> inc.values[key] != []
    ensures ApplyIncludes(completed, includes) == [] <==>
      completed == [] && forall inc :: inc in includes ==> inc.filter.Some?
  {
    hide Contribution;
    if includes != [] {
      SplitLast(includes);
      var last := includes[|includes| - 1];
      var expanded := ApplyIncludes(completed, includes[..|includes| - 1]);
      AppliedEmpty(completed, includes[..|includes| - 1]);
      Contributes(if last.filter.Some? then expanded else completed, last);
    }
  }

  /** A plan lists nothing exactly if excludes leave no base, and there is no include without a filter. */
  lemma ListedEmpty(plan: Plan)
    requires TypedPlan(plan)
    ensures Listed(plan) == [] <==>
      Base(plan.axes, plan.excludes) == [] && forall inc :: inc in plan.includes ==> inc.filter.Some?
  {
    hide ApplyIncludes, Completed, Base;
    forall inc | inc in plan.includes
      ensures KnownKeys(inc.values.Keys) && forall key :: key in inc.values ==> inc.values[key] != []
    {
      TypedKnown(plan.kind, inc.values);
    }
    CompletedEmpty(Base(plan.axes, plan.excludes), plan.includes);
    AppliedEmpty(Completed(Base(plan.axes, plan.excludes), plan.includes), plan.includes);
  }

  lemma {:induction false} FillNotEmpty(entries: seq<Entry>, key: Key, values: seq<Value>)
    requires entries != [] && values != []
    ensures FillAxis(entries, key, values) != []
  {
    SplitLast(entries);
    MapLength(values, (value: Value) => entries[|entries| - 1][key := value]);
    assert FillEntry(key, values)(entries[|entries| - 1]) != [];
  }

  /**
   * A matrix is refused if and only if it measures memory and has an axis that a memory case may not have, one of its values
   * is refused, a list is empty, or nothing is left to run: its base is empty, and every include has a filter.
   */
  lemma RefusedExactly(m: Matrix, parseRate: RateParser)
    ensures
      Expand(m, parseRate).None? <==>
        || !AcceptedMatrix(m, parseRate)
        || var plan := PlanOf(m, parseRate);
           && plan.Some? && Base(plan.value.axes, plan.value.excludes) == []
           && forall inc :: inc in m.includes ==> inc.filter.Some?
    ensures Expand(m, parseRate).Some? ==> Expand(m, parseRate).value != []
  {
    hide AcceptedMatrix, PlanOf, Base, Listed, FillAxis;
    PlanExactly(m, parseRate);
    if PlanOf(m, parseRate).Some? {
      var plan := PlanOf(m, parseRate).value;
      PlanTyped(m, parseRate);
      ListedEmpty(plan);
      FiltersKept(m, parseRate);
      if Listed(plan) != [] {
        FillNotEmpty(Listed(plan), Ip, DEFAULT_IP);
        var filled := FillAxis(Listed(plan), Ip, DEFAULT_IP);
        FillNotEmpty(filled, Network, DEFAULT_NETWORK);
        FillNotEmpty(FillAxis(filled, Network, DEFAULT_NETWORK), Direction, DEFAULT_DIRECTION);
      }
    }
  }

  lemma FiltersKept(m: Matrix, parseRate: RateParser)
    requires PlanOf(m, parseRate).Some?
    ensures
      (forall inc :: inc in PlanOf(m, parseRate).value.includes ==> inc.filter.Some?)
      <==> forall inc :: inc in m.includes ==> inc.filter.Some?
  {
    hide PlanOf, BecomesValues;
    PlanBecomes(m, parseRate);
    var includes := PlanOf(m, parseRate).value.includes;
    if raw :| raw in m.includes && raw.filter.None? {
      var k :| 0 <= k < |m.includes| && m.includes[k] == raw;
      assert includes[k] in includes;
    }
    if inc :| inc in includes && inc.filter.None? {
      var k :| 0 <= k < |includes| && includes[k] == inc;
      assert m.includes[k] in m.includes;
    }
  }
}
