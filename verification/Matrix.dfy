/** The expansion as the program runs it: slices of entries built up in loops (configuration.go). */
module Matrix {
  import opened Wrappers
  import Reports
  import opened Seqs
  import opened MatrixSpec
  import MatrixLaws
  import opened MatrixTypes

  /** `normalizeMatrixValues`; the keys of a Go map come in any order. */
  method NormalizeMatrixValues(values: map<Key, Raw>, parseRate: RateParser) returns (r: Option<map<Key, seq<Value>>>)
    ensures r == NormalizeValues(values, parseRate)
  {
    var lists := map key | key in values :: ListOf(values[key]);
    r := NormalizeMatrixLists(lists, parseRate);
  }

  method NormalizeMatrixLists(lists: map<Key, seq<Raw>>, parseRate: RateParser)
    returns (r: Option<map<Key, seq<Value>>>)
    ensures r == NormalizeLists(lists, parseRate)
  {
    hide NormalizeList;
    var normalized: map<Key, seq<Value>> := map[];
    var keys := lists.Keys;
    while keys != {}
      invariant keys <= lists.Keys && normalized.Keys == lists.Keys - keys
      invariant forall key :: key in normalized ==>
        Normal(key, lists[key], parseRate) && normalized[key] == NormalizeList(key, lists[key], parseRate).value
      decreases |keys|
    {
      var key :| key in keys;
      var current: Option<seq<Value>> := None;
      if lists[key] != [] {
        current := NormalizeMatrixList(key, lists[key], parseRate);
      }
      if current.None? {
        assert !Normal(key, lists[key], parseRate);
        return None;
      }
      normalized := normalized[key := current.value];
      keys := keys - {key};
    }
    assert normalized.Keys == lists.Keys;
    assert NormalizeLists(lists, parseRate).value == normalized;
    r := Some(normalized);
  }

  method NormalizeMatrixList(key: Key, raws: seq<Raw>, parseRate: RateParser) returns (r: Option<seq<Value>>)
    ensures r == NormalizeList(key, raws, parseRate)
  {
    var current: seq<Value> := [];
    for i := 0 to |raws|
      invariant NormalizeList(key, raws[..i], parseRate) == Some(current)
    {
      NormalNext(key, raws, parseRate, i);
      var value := NormalizeValue(key, raws[i], parseRate);
      if value.None? {
        NormalStops(key, raws, parseRate, i + 1);
        return None;
      }
      current := current + [value.value];
    }
    assert raws[..|raws|] == raws;
    return Some(current);
  }

  lemma NormalNext(key: Key, raws: seq<Raw>, parseRate: RateParser, i: nat)
    requires i < |raws|
    ensures
      var front, last := NormalizeList(key, raws[..i], parseRate), NormalizeValue(key, raws[i], parseRate);
      NormalizeList(key, raws[..i + 1], parseRate)
      == if front.None? || last.None? then None else Some(front.value + [last.value])
  {
    assert raws[..i + 1][..i] == raws[..i];
  }

  lemma {:induction false} NormalStops(key: Key, raws: seq<Raw>, parseRate: RateParser, i: nat)
    requires i <= |raws| && NormalizeList(key, raws[..i], parseRate).None?
    ensures NormalizeList(key, raws, parseRate).None?
    decreases |raws| - i
  {
    if i < |raws| {
      NormalNext(key, raws, parseRate, i);
      NormalStops(key, raws, parseRate, i + 1);
    } else {
      assert raws[..i] == raws;
    }
  }

  /** The variants of an include: for each key in order, every variant so far with every value. */
  method ExpandVariants(inc: Include) returns (variants: seq<Entry>)
    ensures variants == Variants(inc)
  {
    var keys := SortedKeys(inc.values.Keys);
    variants := [map[]];
    for i := 0 to |keys|
      invariant variants == Product(false, keys[..i], inc.values)
    {
      var key := keys[i];
      var combinations: seq<Entry> := [];
      for j := 0 to |variants|
        invariant combinations == FlatMap(variants[..j], ExtendOne(inc.values[key], key))
      {
        var variant := variants[j];
        ghost var f := (value: Value) => variant[key := value];
        ghost var before := combinations;
        for k := 0 to |inc.values[key]|
          invariant combinations == before + Map(inc.values[key][..k], f)
        {
          combinations := combinations + [variant[key := inc.values[key][k]]];
          MapNext(inc.values[key], f, k);
        }
        assert inc.values[key][..|inc.values[key]|] == inc.values[key];
        FlatMapNext(variants, ExtendOne(inc.values[key], key), j);
        assert ExtendOne(inc.values[key], key)(variant) == Map(inc.values[key], f);
      }
      assert variants[..|variants|] == variants;
      assert keys[..i + 1][..i] == keys[..i];
      variants := combinations;
    }
    assert keys[..|keys|] == keys;
  }

  // ----- The base

  /** The keys other than the stack, in the same order. */
  ghost function Plain(keys: seq<Key>): (r: seq<Key>)
    ensures forall key :: key in r ==> key in keys && key != Stack
  {
    if keys == [] then []
    else
      var last := keys[|keys| - 1];
      assert last in keys && forall key :: key in keys[..|keys| - 1] ==> key in keys;
      if last == Stack then Plain(keys[..|keys| - 1]) else Plain(keys[..|keys| - 1]) + [last]
  }

  lemma {:induction false} PlainSorted(keys: set<Key>, sorted: seq<Key>)
    ensures Plain(SortedFrom(keys, sorted)) == SortedFrom(keys - {Stack}, sorted)
  {
    if sorted != [] {
      var front, last := SortedFrom(keys, sorted[..|sorted| - 1]), sorted[|sorted| - 1];
      PlainSorted(keys, sorted[..|sorted| - 1]);
      assert (front + [last])[..|front|] == front;
    }
  }

  lemma PlainAll(axes: map<Key, seq<Value>>)
    ensures Plain(SortedKeys(axes.Keys)) == PlainKeys(axes)
  {
    PlainSorted(axes.Keys, SORTED_KEYS);
  }

  lemma PlainNext(keys: seq<Key>, i: nat)
    requires i < |keys|
    ensures Plain(keys[..i + 1]) == if keys[i] == Stack then Plain(keys[..i]) else Plain(keys[..i]) + [keys[i]]
  {
    assert keys[..i + 1][..i] == keys[..i];
  }

  /** The stacks collected once these keys have been seen. */
  ghost function StacksSeen(keys: seq<Key>, axes: map<Key, seq<Value>>): seq<string>
    requires forall key :: key in keys ==> key in axes
  {
    if keys == [] then []
    else if keys[|keys| - 1] == Stack then TextsOf(axes[Stack])
    else StacksSeen(keys[..|keys| - 1], axes)
  }

  lemma StacksNext(keys: seq<Key>, axes: map<Key, seq<Value>>, i: nat)
    requires i < |keys| && forall key :: key in keys ==> key in axes
    ensures forall key :: key in keys[..i + 1] ==> key in axes
    ensures StacksSeen(keys[..i + 1], axes) == if keys[i] == Stack then TextsOf(axes[Stack]) else StacksSeen(keys[..i], axes)
  {
    assert keys[..i + 1][..i] == keys[..i];
  }

  lemma {:induction false} StacksAll(keys: seq<Key>, axes: map<Key, seq<Value>>)
    requires forall key :: key in keys ==> key in axes
    ensures StacksSeen(keys, axes) == if Stack in keys then StacksOf(axes) else []
  {
    if keys != [] {
      SplitLast(keys);
      StacksAll(keys[..|keys| - 1], axes);
    }
  }

  /** The axes combined in the order of their names; the stacks are kept aside. */
  method CombineAxes(axes: map<Key, seq<Value>>) returns (original: seq<Entry>, stacks: seq<string>)
    ensures original == Combined(axes) && stacks == StacksOf(axes)
  {
    hide Product, AddAxis, TextsOf, Plain, PlainKeys, SortedKeys, StacksSeen;
    var keys := SortedKeys(axes.Keys);
    original, stacks := if axes != map[] then [map[]] else [], [];
    NothingSeen(axes);
    for i := 0 to |keys|
      invariant original == if axes == map[] then [] else Product(true, Plain(keys[..i]), axes)
      invariant stacks == StacksSeen(keys[..i], axes)
    {
      var name := keys[i];
      PlainNext(keys, i);
      StacksNext(keys, axes, i);
      if name == Stack {
        stacks := TextsOf(axes[Stack]);
      } else {
        original := CombineAxis(original, name, axes[name]);
        ProductNext(Plain(keys[..i]), name, axes);
      }
    }
    assert keys[..|keys|] == keys;
    PlainAll(axes);
    StacksAll(keys, axes);
    if Stack in axes {
      MatrixLaws.KnownSorted(Stack);
    }
  }

  lemma NothingSeen(axes: map<Key, seq<Value>>)
    ensures Plain([]) == [] && StacksSeen([], axes) == []
    ensures Product(true, [], axes) == [map[]]
  {
  }

  lemma ProductNext(keys: seq<Key>, name: Key, axes: map<Key, seq<Value>>)
    requires name in axes && forall key :: key in keys ==> key in axes
    ensures Product(true, keys + [name], axes) == AddAxis(true, Product(true, keys, axes), name, axes[name])
  {
  }

  method CombineAxis(original: seq<Entry>, name: Key, values: seq<Value>) returns (expanded: seq<Entry>)
    ensures expanded == AddAxis(true, original, name, values)
  {
    expanded := [];
    for j := 0 to |values|
      invariant expanded == FlatMap(values[..j], ExtendAll(original, name))
    {
      ghost var before := expanded;
      for i := 0 to |original|
        invariant expanded == before + Map(original[..i], ExtendWith(name, values[j]))
      {
        expanded := expanded + [original[i][name := values[j]]];
        MapNext(original, ExtendWith(name, values[j]), i);
      }
      assert original[..|original|] == original;
      FlatMapNext(values, ExtendAll(original, name), j);
    }
    assert values[..|values|] == values;
  }

  method ExpandBase(axes: map<Key, seq<Value>>, excludes: seq<Entry>) returns (original: seq<Entry>)
    ensures original == Base(axes, excludes)
  {
    var combined, stacks := CombineAxes(axes);
    original := FlatMap(combined, AttachStacks(stacks));
    ghost var attached := original;
    for i := 0 to |excludes|
      invariant original == ApplyExcludes(attached, excludes[..i])
    {
      original := Filter(original, Survives(excludes[i]));
      assert excludes[..i + 1][..i] == excludes[..i];
    }
    assert excludes[..|excludes|] == excludes;
  }

  // ----- MTU completion

  method CompleteMtus(original: seq<Entry>, includes: seq<Include>) returns (configured: seq<Entry>)
    ensures configured == Completed(original, includes)
  {
    configured := [];
    for i := 0 to |original|
      invariant configured == FlatMap(original[..i], CompleteMtu(includes))
    {
      FlatMapNext(original, CompleteMtu(includes), i);
      var entry := original[i];
      if Mtu in entry {
        configured := configured + [entry];
        continue;
      }
      var candidates := MtuCandidates(entry, includes);
      if candidates == [] {
        configured := configured + [entry];
      } else {
        configured := configured + candidates;
      }
    }
    assert original[..|original|] == original;
  }

  method MtuCandidates(entry: Entry, includes: seq<Include>) returns (candidates: seq<Entry>)
    ensures candidates == FlatMap(includes, MtusFor(entry))
  {
    candidates := [];
    for j := 0 to |includes|
      invariant candidates == FlatMap(includes[..j], MtusFor(entry))
    {
      FlatMapNext(includes, MtusFor(entry), j);
      var inc := includes[j];
      if Mtu !in inc.values || |inc.values| != 1 || !MatchesFilter(entry, inc.filter) {
        assert MtuOnly(inc) ==> |inc.values.Keys| == 1;
        continue;
      }
      OnlyKey(inc);
      var completed := WithMtus(entry, inc);
      candidates := candidates + completed;
    }
    assert includes[..|includes|] == includes;
  }

  method WithMtus(entry: Entry, inc: Include) returns (completed: seq<Entry>)
    requires MtuOnly(inc) && MatchesFilter(entry, inc.filter)
    ensures completed == MtusFor(entry)(inc)
  {
    var values := inc.values[Mtu];
    ghost var f := (value: Value) => entry[Mtu := value];
    completed := [];
    for k := 0 to |values|
      invariant completed == Map(values[..k], f)
    {
      completed := completed + [entry[Mtu := values[k]]];
      MapNext(values, f, k);
    }
    assert values[..|values|] == values;
    assert MtusFor(entry)(inc) == Map(values, f);
  }

  lemma OnlyKey(inc: Include)
    requires Mtu in inc.values && |inc.values| == 1
    ensures MtuOnly(inc)
  {
    assert |inc.values.Keys - {Mtu}| == |inc.values.Keys| - 1;
    assert inc.values.Keys - {Mtu} == {};
  }

  // ----- Includes

  method AppendIncludes(original: seq<Entry>, includes: seq<Include>) returns (expanded: seq<Entry>)
    ensures expanded == ApplyIncludes(original, includes)
  {
    hide Contribution;
    expanded := original;
    for i := 0 to |includes|
      invariant expanded == ApplyIncludes(original, includes[..i])
    {
      assert includes[..i + 1][..i] == includes[..i];
      var sources := if includes[i].filter.Some? then expanded else original;
      expanded := AppendInclude(expanded, sources, includes[i]);
    }
    assert includes[..|includes|] == includes;
  }

  method AppendInclude(before: seq<Entry>, sources: seq<Entry>, inc: Include) returns (expanded: seq<Entry>)
    ensures expanded == before + Contribution(sources, inc)
  {
    hide Applied;
    var variants := ExpandVariants(inc);
    expanded := before;
    for j := 0 to |variants|
      invariant expanded == before + FlatMap(variants[..j], Applied(sources, inc))
    {
      var added := ApplyVariant(sources, inc, variants[j]);
      FlatMapNext(variants, Applied(sources, inc), j);
      expanded := expanded + added;
    }
    assert variants[..|variants|] == variants;
  }

  method ApplyVariant(sources: seq<Entry>, inc: Include, overrides: Entry) returns (added: seq<Entry>)
    ensures added == Applied(sources, inc)(overrides)
  {
    added := Candidates(sources, inc, overrides);
    if added == [] && inc.filter.None? {
      added := [overrides];
    }
  }

  method Candidates(sources: seq<Entry>, inc: Include, overrides: Entry) returns (candidates: seq<Entry>)
    ensures candidates == FlatMap(sources, Overlay(inc, overrides))
  {
    candidates := [];
    for k := 0 to |sources|
      invariant candidates == FlatMap(sources[..k], Overlay(inc, overrides))
    {
      FlatMapNext(sources, Overlay(inc, overrides), k);
      if !MatchesFilter(sources[k], inc.filter) {
        continue;
      }
      var candidate := sources[k] + overrides;
      var name, stack := TextOf(candidate, Implementation), TextOf(candidate, Stack);
      if name != "" && stack != "" && !BelongsTo(stack, name) {
        continue;
      }
      candidates := candidates + [candidate];
    }
    assert sources[..|sources|] == sources;
  }

  // ----- The whole expansion

  method NormalizeAllIncludes(includes: seq<RawInclude>, parseRate: RateParser) returns (r: Option<seq<Include>>)
    ensures r == NormalizeIncludes(includes, parseRate)
  {
    var normalized: seq<Include> := [];
    for i := 0 to |includes|
      invariant NormalizeIncludes(includes[..i], parseRate) == Some(normalized)
    {
      assert includes[..i + 1][..i] == includes[..i];
      var values := NormalizeMatrixValues(includes[i].values, parseRate);
      var filter: Option<map<Key, seq<Value>>> := None;
      var failed := values.None?;
      if !failed && includes[i].filter.Some? {
        filter := NormalizeMatrixValues(includes[i].filter.value, parseRate);
        failed := filter.None?;
      }
      if failed {
        IncludesStop(includes, parseRate, i + 1);
        return None;
      }
      normalized := normalized + [Include(values.value, filter)];
    }
    assert includes[..|includes|] == includes;
    r := Some(normalized);
  }

  lemma {:induction false} IncludesStop(includes: seq<RawInclude>, parseRate: RateParser, i: nat)
    requires i <= |includes| && NormalizeIncludes(includes[..i], parseRate).None?
    ensures NormalizeIncludes(includes, parseRate).None?
    decreases |includes| - i
  {
    if i < |includes| {
      assert includes[..i + 1][..i] == includes[..i];
      IncludesStop(includes, parseRate, i + 1);
    } else {
      assert includes[..i] == includes;
    }
  }

  method FillIn(entries: seq<Entry>, kind: Reports.Kind) returns (expanded: seq<Entry>)
    ensures expanded == FillDefaults(entries, kind)
  {
    var axes := [(Ip, DEFAULT_IP), (Network, DEFAULT_NETWORK), (Direction, DEFAULT_DIRECTION)];
    var one := FillAxis(entries, Ip, DEFAULT_IP);
    ghost var two := FillAxis(one, Network, DEFAULT_NETWORK);
    expanded := entries;
    for i := 0 to |axes|
      invariant i == 0 ==> expanded == entries
      invariant i == 1 ==> expanded == one
      invariant i == 2 ==> expanded == two
      invariant i == 3 ==> expanded == FillDefaults(entries, kind)
    {
      if kind == Reports.Memory && axes[i].0 == Direction {
        continue;
      }
      expanded := FillAxis(expanded, axes[i].0, axes[i].1);
    }
  }

  /** `expand`. */
  method ExpandMatrix(m: Matrix, parseRate: RateParser) returns (r: Option<seq<Entry>>)
    ensures r == Expand(m, parseRate)
  {
    if Unsupported(m) {
      return None;
    }
    var includes := NormalizeAllIncludes(m.includes, parseRate);
    if includes.None? {
      return None;
    }
    var axes := NormalizeMatrixLists(m.axes, parseRate);
    var excludes := NormalizeExcludes(m.excludes, parseRate);
    if axes.None? || excludes.None? {
      return None;
    }
    var original := ExpandBase(axes.value, excludes.value);
    original := CompleteMtus(original, includes.value);
    var expanded := AppendIncludes(original, includes.value);
    if expanded == [] {
      return None;
    }
    expanded := FillIn(expanded, m.kind);
    return Some(expanded);
  }

  // ----- Reading an entry

  /** What the reader makes of an entry before it checks the ranges; None stands for one of its errors. */
  function CaseOf(matrix: string, kind: Reports.Kind, defaultStack: string,
                  entry: Entry): Option<Reports.CaseConfiguration>
    requires WellTyped(kind, entry)
  {
    var name, selector := TextOf(entry, Implementation), TextOf(entry, Stack);
    if name == "" || Mtu !in entry || (selector != "" && !BelongsTo(selector, name)) then None
    else
      Some(Reports.CaseConfiguration(
        kind, matrix, name,
        if Stack in entry then selector[SlashIndex(selector) + 1..] else defaultStack,
        if Ip in entry then entry[Ip].number else 0,
        TextOf(entry, Network), TextOf(entry, Direction),
        if Parallel in entry then entry[Parallel].number else 1,
        entry[Mtu].number,
        if Bitrate in entry then entry[Bitrate].bits else 0))
  }

  /**
   * The conversion loop of `readConfiguration`: every unchecked type assertion succeeds, in whatever order the keys
   * come.
   */
  method ReadEntry(matrix: string, kind: Reports.Kind, defaultStack: string, entry: Entry)
    returns (r: Option<Reports.CaseConfiguration>)
    requires WellTyped(kind, entry)
    ensures r == CaseOf(matrix, kind, defaultStack, entry)
  {
    var name := TextOf(entry, Implementation);
    if name == "" || Mtu !in entry {
      return None;
    }
    var selector := TextOf(entry, Stack);
    if selector != "" && !BelongsTo(selector, name) {
      return None;
    }
    var options := Reports.CaseConfiguration(kind, matrix, name, defaultStack, 0, "", "", 1, 0, 0);
    ghost var final := CaseOf(matrix, kind, defaultStack, entry).value;
    var keys := entry.Keys;
    while keys != {}
      invariant keys <= entry.Keys
      invariant options == Partial(final, defaultStack, entry.Keys - keys)
      decreases |keys|
    {
      var key :| key in keys;
      PartialNext(matrix, kind, defaultStack, entry, entry.Keys - keys, key);
      options := Assign(options, key, entry[key]);
      assert entry.Keys - (keys - {key}) == (entry.Keys - keys) + {key};
      keys := keys - {key};
    }
    assert entry.Keys - keys == entry.Keys;
    return Some(options);
  }

  /** The switch in that loop. */
  function Assign(options: Reports.CaseConfiguration, key: Key, value: Value): Reports.CaseConfiguration
    requires Fits(key, value)
  {
    match key
    case Ip => options.(ip := value.number)
    case Network => options.(network := value.text)
    case Direction => options.(direction := value.text)
    case Mtu => options.(mtu := value.number)
    case Parallel => options.(parallel := value.number)
    case Bitrate => options.(bitrate := value.bits)
    case Stack => options.(stack := value.text[SlashIndex(value.text) + 1..])
    case _ => options
  }

  lemma PartialNext(matrix: string, kind: Reports.Kind, defaultStack: string, entry: Entry, keys: set<Key>, key: Key)
    requires WellTyped(kind, entry) && key in entry && CaseOf(matrix, kind, defaultStack, entry).Some?
    ensures
      var final := CaseOf(matrix, kind, defaultStack, entry).value;
      Fits(key, entry[key])
      && Assign(Partial(final, defaultStack, keys), key, entry[key]) == Partial(final, defaultStack, keys + {key})
  {
    assert Fits(key, entry[key]);
  }

  /** The options when only some keys have been read. */
  ghost function Partial(final: Reports.CaseConfiguration, defaultStack: string,
                         keys: set<Key>): Reports.CaseConfiguration {
    final.(
      stack := if Stack in keys then final.stack else defaultStack,
      ip := if Ip in keys then final.ip else 0,
      network := if Network in keys then final.network else "",
      direction := if Direction in keys then final.direction else "",
      parallel := if Parallel in keys then final.parallel else 1,
      mtu := if Mtu in keys then final.mtu else 0,
      bitrate := if Bitrate in keys then final.bitrate else 0)
  }

  /** Every entry of an expansion can be read, and its selector is its implementation and its stack again. */
  lemma ExpansionReadable(m: Matrix, parseRate: RateParser, matrix: string, defaultStack: string, entry: Entry)
    requires Expand(m, parseRate).Some? && entry in Expand(m, parseRate).value
    ensures WellTyped(m.kind, entry)
    ensures
      var r := CaseOf(matrix, m.kind, defaultStack, entry);
      r.Some? && Stack in entry ==> entry[Stack] == Text(r.value.implementation + "/" + r.value.stack)
  {
    hide Expand, CaseOf;
    ExpansionTyped(m, parseRate, entry);
    SelectorKept(matrix, m.kind, defaultStack, entry);
  }

  lemma SelectorKept(matrix: string, kind: Reports.Kind, defaultStack: string, entry: Entry)
    requires WellTyped(kind, entry)
    ensures
      var r := CaseOf(matrix, kind, defaultStack, entry);
      r.Some? && Stack in entry ==> entry[Stack] == Text(r.value.implementation + "/" + r.value.stack)
  {
    var r := CaseOf(matrix, kind, defaultStack, entry);
    if r.Some? && Stack in entry {
      SelectorParts(entry[Stack].text, r.value.implementation);
    }
  }

  lemma SelectorParts(selector: string, name: string)
    requires IsSelector(selector) && BelongsTo(selector, name)
    ensures selector == name + "/" + selector[SlashIndex(selector) + 1..]
  {
    var slash := SlashIndex(selector);
    var rest := selector[slash + 1..];
    assert selector[|name|] == '/';
    assert forall k :: 0 <= k < |rest| ==> rest[k] == selector[slash + 1 + k] && rest[k] != '/';
    assert forall k :: slash < k < |selector| ==> selector[k] == rest[k - slash - 1];
    assert slash == |name|;
  }
}
