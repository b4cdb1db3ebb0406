/** Every value of an expanded entry has the type that the configuration reader asserts for its key. */
module MatrixTypes {
  import opened Wrappers
  import Reports
  import opened Seqs
  import opened MatrixSpec
  import opened MatrixLaws
  import opened MatrixIncludes

  /** The Go type of a key's value, and what normalising guarantees of it. */
  predicate Fits(key: Key, value: Value) {
    match key
    case Environment | Implementation | Network | Direction => value.Text? && value.text != ""
    case Stack => value.Text? && IsSelector(value.text)
    case Ip | Mtu | Parallel => value.Number? && -MAX_INT - 1 <= value.number <= MAX_INT
    case Bitrate => value.Rate? && value.bits <= MAX_UINT
    case UnknownKey(_) => false
  }

  /** A memory matrix has no direction, no parallel streams and no bitrate. */
  predicate Allowed(kind: Reports.Kind, key: Key) {
    kind == Reports.Memory ==> key != Direction && key != Parallel && key != Bitrate
  }

  predicate WellTyped(kind: Reports.Kind, entry: Entry) {
    forall key :: key in entry ==> Fits(key, entry[key]) && Allowed(kind, key)
  }

  predicate TypedLists(kind: Reports.Kind, lists: map<Key, seq<Value>>) {
    forall key :: key in lists ==> Allowed(kind, key) && lists[key] != [] && forall value :: value in lists[key] ==> Fits(key, value)
  }

  predicate TypedPlan(plan: Plan) {
    && TypedLists(plan.kind, plan.axes)
    && forall inc :: inc in plan.includes ==> TypedLists(plan.kind, inc.values)
  }

  // ----- Normalising gives typed plans

  lemma {:induction false} NormalListFits(key: Key, raws: seq<Raw>, parseRate: RateParser, value: Value)
    requires NormalizeList(key, raws, parseRate).Some? && value in NormalizeList(key, raws, parseRate).value
    ensures Fits(key, value) && |NormalizeList(key, raws, parseRate).value| == |raws|
  {
    var front := NormalizeList(key, raws[..|raws| - 1], parseRate).value;
    if front != [] {
      NormalListFits(key, raws[..|raws| - 1], parseRate, if value in front then value else front[0]);
    } else {
      NormalListLength(key, raws[..|raws| - 1], parseRate);
    }
  }

  lemma {:induction false} NormalListLength(key: Key, raws: seq<Raw>, parseRate: RateParser)
    requires NormalizeList(key, raws, parseRate).Some?
    ensures |NormalizeList(key, raws, parseRate).value| == |raws|
  {
    if raws != [] {
      NormalListLength(key, raws[..|raws| - 1], parseRate);
    }
  }

  lemma NormalListsTyped(kind: Reports.Kind, lists: map<Key, seq<Raw>>, parseRate: RateParser)
    requires NormalizeLists(lists, parseRate).Some? && forall key :: key in lists ==> Allowed(kind, key)
    ensures TypedLists(kind, NormalizeLists(lists, parseRate).value)
  {
    var normalized := NormalizeLists(lists, parseRate).value;
    forall key | key in normalized
      ensures normalized[key] != [] && forall value :: value in normalized[key] ==> Fits(key, value)
    {
      assert Normal(key, lists[key], parseRate);
      NormalListLength(key, lists[key], parseRate);
      forall value | value in normalized[key]
        ensures Fits(key, value)
      {
        NormalListFits(key, lists[key], parseRate, value);
      }
    }
  }

  lemma {:induction false} NormalIncludesFrom(includes: seq<RawInclude>, parseRate: RateParser, i: nat)
    requires NormalizeIncludes(includes, parseRate).Some? && i < |includes|
    ensures NormalizeInclude(includes[i], parseRate) == Some(NormalizeIncludes(includes, parseRate).value[i])
  {
    if i < |includes| - 1 {
      NormalIncludesFrom(includes[..|includes| - 1], parseRate, i);
    }
  }

  lemma PlanTyped(m: Matrix, parseRate: RateParser)
    requires PlanOf(m, parseRate).Some?
    ensures TypedPlan(PlanOf(m, parseRate).value)
  {
    hide NormalizeLists, NormalizeIncludes, NormalizeExcludes, TypedLists;
    var plan := PlanOf(m, parseRate).value;
    AllowedKeys(m);
    NormalListsTyped(m.kind, m.axes, parseRate);
    forall inc | inc in plan.includes
      ensures TypedLists(m.kind, inc.values)
    {
      var i :| 0 <= i < |plan.includes| && plan.includes[i] == inc;
      NormalIncludesFrom(m.includes, parseRate, i);
      NormalListsTyped(m.kind, map key | key in m.includes[i].values :: ListOf(m.includes[i].values[key]), parseRate);
    }
  }

  lemma AllowedKeys(m: Matrix)
    requires !Unsupported(m)
    ensures forall key :: key in m.axes ==> Allowed(m.kind, key)
    ensures forall i, key :: 0 <= i < |m.includes| && key in m.includes[i].values ==> Allowed(m.kind, key)
  {
  }

  lemma TypedKnown(kind: Reports.Kind, lists: map<Key, seq<Value>>)
    requires TypedLists(kind, lists)
    ensures KnownKeys(lists.Keys)
  {
    forall key | key in lists
      ensures !key.UnknownKey?
    {
      assert lists[key][0] in lists[key];
    }
  }

  // ----- Every stage keeps the types

  lemma {:induction false} TextsTyped(values: seq<Value>, stack: string)
    requires stack in TextsOf(values) && forall value :: value in values ==> value.Text?
    ensures Text(stack) in values
  {
    InMap(values, (value: Value) => if value.Text? then value.text else "", stack);
  }

  lemma BaseTyped(plan: Plan, entry: Entry)
    requires TypedPlan(plan) && entry in Base(plan.axes, plan.excludes)
    ensures WellTyped(plan.kind, entry)
  {
    hide Base, Fits;
    TypedKnown(plan.kind, plan.axes);
    BaseMembers(plan.axes, plan.excludes, entry);
    forall key | key in entry
      ensures Fits(key, entry[key]) && Allowed(plan.kind, key)
    {
      if key == Stack {
        StackTyped(plan, entry[Stack].text);
      } else {
        assert key in entry.Keys - {Stack};
        assert key in plan.axes.Keys - {Stack};
      }
    }
  }

  lemma StackTyped(plan: Plan, stack: string)
    requires TypedPlan(plan) && stack in StacksOf(plan.axes)
    ensures Fits(Stack, Text(stack)) && Allowed(plan.kind, Stack)
  {
    assert Stack in plan.axes;
    forall value | value in plan.axes[Stack]
      ensures value.Text?
    {
      assert Fits(Stack, value);
    }
    TextsTyped(plan.axes[Stack], stack);
  }

  lemma CompletedTyped(plan: Plan, entry: Entry)
    requires TypedPlan(plan) && entry in Completed(Base(plan.axes, plan.excludes), plan.includes)
    ensures WellTyped(plan.kind, entry)
  {
    hide Base, WellTyped, TypedPlan;
    var base := Base(plan.axes, plan.excludes);
    InFlatMap(base, CompleteMtu(plan.includes), entry);
    var source :| source in base && entry in CompleteMtu(plan.includes)(source);
    BaseTyped(plan, source);
    if entry != source {
      InFlatMap(plan.includes, MtusFor(source), entry);
      var inc :| inc in plan.includes && entry in MtusFor(source)(inc);
      MtuTyped(plan, source, inc, entry);
    }
  }

  lemma MtuTyped(plan: Plan, source: Entry, inc: Include, entry: Entry)
    requires TypedPlan(plan) && WellTyped(plan.kind, source) && inc in plan.includes && entry in MtusFor(source)(inc)
    ensures WellTyped(plan.kind, entry)
  {
    hide Fits;
    InMap(inc.values[Mtu], (value: Value) => source[Mtu := value], entry);
  }

  lemma VariantTyped(plan: Plan, inc: Include, overrides: Entry)
    requires TypedPlan(plan) && inc in plan.includes && overrides in Variants(inc)
    ensures WellTyped(plan.kind, overrides)
  {
    hide Variants, Fits;
    TypedKnown(plan.kind, inc.values);
    VariantsExact(inc, overrides);
  }

  lemma {:induction false} IncludesTyped(plan: Plan, n: nat, entry: Entry)
    requires TypedPlan(plan) && n <= |plan.includes|
    requires entry in ApplyIncludes(Completed(Base(plan.axes, plan.excludes), plan.includes), plan.includes[..n])
    ensures WellTyped(plan.kind, entry)
  {
    hide TypedPlan, Base, Completed, ApplyIncludes, Variants, Fits, OwnStack, Passes;
    var completed := Completed(Base(plan.axes, plan.excludes), plan.includes);
    IncludesExact(completed, plan.includes, n, entry);
    if entry in completed {
      CompletedTyped(plan, entry);
    } else {
      var i: nat :| i < n && AppendedBy(completed, plan.includes, i, entry);
      var inc, sources := plan.includes[i], SourcesOf(completed, plan.includes, i);
      var overrides :| overrides in Variants(inc)
        && (OverlaidFrom(sources, inc, overrides, entry) || (AppliesNowhere(sources, inc, overrides) && entry == overrides));
      VariantTyped(plan, inc, overrides);
      if OverlaidFrom(sources, inc, overrides, entry) {
        var source :| source in sources && Passes(source, inc.filter) && entry == source + overrides && OwnStack(entry);
        if inc.filter.Some? {
          IncludesTyped(plan, i, source);
        } else {
          CompletedTyped(plan, source);
        }
      }
    }
  }

  lemma FillTyped(kind: Reports.Kind, source: Entry, entry: Entry)
    requires WellTyped(kind, source) && CompletesAll(source, kind, entry)
    ensures WellTyped(kind, entry)
  {
    var a, b :| Completes(source, Ip, DEFAULT_IP, a) && Completes(a, Network, DEFAULT_NETWORK, b)
                && if kind == Reports.Memory then entry == b else Completes(b, Direction, DEFAULT_DIRECTION, entry);
    hide Completes, WellTyped;
    DefaultsFit();
    CompletedTypes(kind, source, Ip, DEFAULT_IP, a);
    CompletedTypes(kind, a, Network, DEFAULT_NETWORK, b);
    if kind != Reports.Memory {
      CompletedTypes(kind, b, Direction, DEFAULT_DIRECTION, entry);
    }
  }

  lemma CompletedTypes(kind: Reports.Kind, source: Entry, key: Key, values: seq<Value>, entry: Entry)
    requires WellTyped(kind, source) && Completes(source, key, values, entry) && Allowed(kind, key)
    requires forall value :: value in values ==> Fits(key, value)
    ensures WellTyped(kind, entry)
  {
  }

  lemma DefaultsFit()
    ensures forall value :: value in DEFAULT_IP ==> Fits(Ip, value)
    ensures forall value :: value in DEFAULT_NETWORK ==> Fits(Network, value)
    ensures forall value :: value in DEFAULT_DIRECTION ==> Fits(Direction, value)
  {
  }

  /**
   * Every entry of an expansion has an IP version and a network, a throughput entry a direction, a memory entry neither
   * direction nor parallel streams nor bitrate, and every value the type of its key.
   */
  lemma ExpansionTyped(m: Matrix, parseRate: RateParser, entry: Entry)
    requires Expand(m, parseRate).Some? && entry in Expand(m, parseRate).value
    ensures WellTyped(m.kind, entry)
    ensures Ip in entry && Network in entry && (m.kind != Reports.Memory ==> Direction in entry)
  {
    hide PlanOf, ApplyIncludes, FillDefaults, WellTyped, CompletesAll;
    var plan := PlanOf(m, parseRate).value;
    PlanTyped(m, parseRate);
    PlanKind(m, parseRate);
    FillExact(Listed(plan), m.kind, entry);
    FillIdempotent(Listed(plan), m.kind);
    var source :| source in Listed(plan) && CompletesAll(source, m.kind, entry);
    assert plan.includes[..|plan.includes|] == plan.includes;
    IncludesTyped(plan, |plan.includes|, source);
    FillTyped(m.kind, source, entry);
  }

  lemma PlanKind(m: Matrix, parseRate: RateParser)
    requires PlanOf(m, parseRate).Some?
    ensures PlanOf(m, parseRate).value.kind == m.kind
  {
  }
}
