/** Laws of the base entries: which are produced, and how often. */
module MatrixLaws {
  import opened Seqs
  import opened MatrixSpec

  // ----- Multiplicities in products

  /** How often the values of an entry are listed, multiplied over the given axes. */
  ghost function Weight(keys: seq<Key>, axes: map<Key, seq<Value>>, entry: Entry): nat
    requires forall key :: key in keys ==> key in axes && key in entry
  {
    if keys == [] then 1
    else
      var last := keys[|keys| - 1];
      Weight(keys[..|keys| - 1], axes, entry) * multiset(axes[last])[entry[last]]
  }

  ghost predicate Lacks(entries: seq<Entry>, key: Key) {
    forall entry :: entry in entries ==> key !in entry
  }

  lemma LacksFront(entries: seq<Entry>, key: Key)
    requires Lacks(entries, key) && entries != []
    ensures Lacks(entries[..|entries| - 1], key) && key !in entries[|entries| - 1]
  {
  }

  lemma ExtendedOnce(original: Entry, key: Key, value: Value, entry: Entry)
    requires key !in original
    ensures original[key := value] == entry <==> key in entry && entry[key] == value && entry - {key} == original
  {
  }

  lemma {:induction false} ExtendCount(entries: seq<Entry>, key: Key, value: Value, entry: Entry)
    requires Lacks(entries, key)
    ensures multiset(Map(entries, ExtendWith(key, value)))[entry]
            == if key in entry && entry[key] == value then multiset(entries)[entry - {key}] else 0
  {
    if entries != [] {
      SplitLast(entries);
      LacksFront(entries, key);
      ExtendCount(entries[..|entries| - 1], key, value, entry);
      ExtendedOnce(entries[|entries| - 1], key, value, entry);
    }
  }

  lemma {:induction false} ExtendAllCount(values: seq<Value>, entries: seq<Entry>, key: Key, entry: Entry)
    requires Lacks(entries, key)
    ensures multiset(FlatMap(values, ExtendAll(entries, key)))[entry]
            == if key in entry then multiset(values)[entry[key]] * multiset(entries)[entry - {key}] else 0
  {
    if values != [] {
      ExtendAllCount(values[..|values| - 1], entries, key, entry);
      ExtendCount(entries, key, values[|values| - 1], entry);
      if key in entry {
        CountNext(values, ExtendAll(entries, key), entry, entry[key], multiset(entries)[entry - {key}]);
      }
    }
  }

  /** Counting a list whose last item adds `piece`, when the items before it were counted as a multiple of `c`. */
  lemma CountNext<A, B>(items: seq<A>, f: A -> seq<B>, x: B, item: A, c: nat)
    requires items != []
    requires multiset(FlatMap(items[..|items| - 1], f))[x] == multiset(items[..|items| - 1])[item] * c
    requires multiset(f(items[|items| - 1]))[x] == if items[|items| - 1] == item then c else 0
    ensures multiset(FlatMap(items, f))[x] == multiset(items)[item] * c
  {
    var front, last := items[..|items| - 1], items[|items| - 1];
    CountLast(items, item);
    CountConcat(FlatMap(front, f), f(last), x);
    if last == item {
      var n := multiset(front)[item];
      MulNext(n, c);
      assert multiset(items)[item] == n + 1;
    } else {
      assert multiset(items)[item] == multiset(front)[item];
    }
  }

  lemma CountLast<A>(items: seq<A>, x: A)
    requires items != []
    ensures multiset(items)[x] == multiset(items[..|items| - 1])[x] + if items[|items| - 1] == x then 1 else 0
  {
    SplitLast(items);
  }

  lemma CountConcat<A>(a: seq<A>, b: seq<A>, x: A)
    ensures multiset(a + b)[x] == multiset(a)[x] + multiset(b)[x]
  {
  }

  lemma MulNext(a: nat, c: nat)
    ensures (a + 1) * c == a * c + c
  {
  }

  lemma {:induction false} ExtendOneEntryCount(values: seq<Value>, original: Entry, key: Key, entry: Entry)
    requires key !in original
    ensures multiset(ExtendOne(values, key)(original))[entry]
            == if key in entry && entry - {key} == original then multiset(values)[entry[key]] else 0
  {
    if values != [] {
      SplitLast(values);
      ExtendOneEntryCount(values[..|values| - 1], original, key, entry);
      ExtendedOnce(original, key, values[|values| - 1], entry);
      var f := (value: Value) => original[key := value];
      assert ExtendOne(values, key)(original) == Map(values, f);
      assert ExtendOne(values[..|values| - 1], key)(original) == Map(values[..|values| - 1], f);
    }
  }

  lemma {:induction false} ExtendOneCount(values: seq<Value>, entries: seq<Entry>, key: Key, entry: Entry)
    requires Lacks(entries, key)
    ensures multiset(FlatMap(entries, ExtendOne(values, key)))[entry]
            == if key in entry then multiset(entries)[entry - {key}] * multiset(values)[entry[key]] else 0
  {
    if entries != [] {
      LacksFront(entries, key);
      ExtendOneCount(values, entries[..|entries| - 1], key, entry);
      ExtendOneEntryCount(values, entries[|entries| - 1], key, entry);
      if key in entry {
        CountNext(entries, ExtendOne(values, key), entry, entry - {key}, multiset(values)[entry[key]]);
      }
    }
  }

  lemma AddAxisCount(byValue: bool, entries: seq<Entry>, key: Key, values: seq<Value>, entry: Entry)
    requires Lacks(entries, key)
    ensures multiset(AddAxis(byValue, entries, key, values))[entry]
            == if key in entry then multiset(values)[entry[key]] * multiset(entries)[entry - {key}] else 0
  {
    if byValue {
      ExtendAllCount(values, entries, key, entry);
    } else {
      ExtendOneCount(values, entries, key, entry);
      if key in entry {
        MulCommutes(multiset(entries)[entry - {key}], multiset(values)[entry[key]]);
      }
    }
  }

  lemma MulCommutes(a: nat, b: nat)
    ensures a * b == b * a
  {
  }

  ghost predicate NoRepeats(keys: seq<Key>) {
    forall i, j :: 0 <= i < j < |keys| ==> keys[i] != keys[j]
  }

  lemma {:induction false} WeightWithout(keys: seq<Key>, axes: map<Key, seq<Value>>, entry: Entry, key: Key)
    requires key !in keys && forall k :: k in keys ==> k in axes && k in entry
    ensures Weight(keys, axes, entry) == Weight(keys, axes, entry - {key})
  {
    if keys != [] {
      SplitLast(keys);
      WeightWithout(keys[..|keys| - 1], axes, entry, key);
    }
  }

  ghost function KeySet(keys: seq<Key>): set<Key> { set key | key in keys }

  lemma ProductCountNext(byValue: bool, keys: seq<Key>, axes: map<Key, seq<Value>>, front: seq<Entry>, entry: Entry)
    requires keys != [] && NoRepeats(keys) && forall key :: key in keys ==> key in axes
    requires Lacks(front, keys[|keys| - 1])
    requires
      var rest, last := keys[..|keys| - 1], keys[|keys| - 1];
      multiset(front)[entry - {last}]
      == if (entry - {last}).Keys == KeySet(rest) then Weight(rest, axes, entry - {last}) else 0
    ensures
      var last := keys[|keys| - 1];
      multiset(AddAxis(byValue, front, last, axes[last]))[entry]
      == if entry.Keys == KeySet(keys) then Weight(keys, axes, entry) else 0
  {
    hide AddAxis, Lacks;
    var rest, last := keys[..|keys| - 1], keys[|keys| - 1];
    SplitLast(keys);
    AddAxisCount(byValue, front, last, axes[last], entry);
    assert KeySet(keys) == KeySet(rest) + {last};
    assert last !in KeySet(rest);
    if last in entry {
      assert entry.Keys == (entry - {last}).Keys + {last};
      if entry.Keys == KeySet(keys) {
        assert (entry - {last}).Keys == KeySet(rest);
        WeightWithout(rest, axes, entry, last);
        MulCommutes(Weight(rest, axes, entry), multiset(axes[last])[entry[last]]);
      } else {
        assert (entry - {last}).Keys != KeySet(rest);
        TimesZero(multiset(axes[last])[entry[last]]);
      }
    }
  }

  lemma TimesZero(a: nat)
    ensures a * 0 == 0
  {
  }

  /** A product holds every combination of listed values, as often as its values are listed, and nothing else. */
  lemma {:induction false} ProductCount(byValue: bool, keys: seq<Key>, axes: map<Key, seq<Value>>, entry: Entry)
    requires NoRepeats(keys) && forall key :: key in keys ==> key in axes
    ensures multiset(Product(byValue, keys, axes))[entry]
            == if entry.Keys == KeySet(keys) then Weight(keys, axes, entry) else 0
  {
    hide Weight, AddAxis;
    if keys == [] {
      ProductNone(byValue, axes, entry);
    } else {
      var rest, last := keys[..|keys| - 1], keys[|keys| - 1];
      var front := Product(byValue, rest, axes);
      forall e | e in front
        ensures last !in e
      {
        ProductCount(byValue, rest, axes, e);
      }
      ProductCount(byValue, rest, axes, entry - {last});
      ProductCountNext(byValue, keys, axes, front, entry);
    }
  }

  /**
   * The order of a product: the axes of a matrix go through the values first, with all the entries so far for each of them;
   * the variants of an include go through the entries first.
   */
  lemma AddAxisAt(entries: seq<Entry>, key: Key, values: seq<Value>, v: nat, e: nat)
    requires v < |values| && e < |entries|
    ensures
      var byValue, byEntry := AddAxis(true, entries, key, values), AddAxis(false, entries, key, values);
      && |byValue| == |values| * |entries| && |byEntry| == |entries| * |values|
      && 0 <= v * |entries| + e < |byValue| && 0 <= e * |values| + v < |byEntry|
      && byValue[v * |entries| + e] == entries[e][key := values[v]]
      && byEntry[e * |values| + v] == entries[e][key := values[v]]
  {
    forall value | value in values
      ensures |ExtendAll(entries, key)(value)| == |entries|
    {
      MapLength(entries, ExtendWith(key, value));
    }
    FlatMapAt(values, ExtendAll(entries, key), |entries|, v, e);
    MapAt(entries, ExtendWith(key, values[v]), e);
    forall entry: Entry | entry in entries
      ensures |ExtendOne(values, key)(entry)| == |values|
    {
      MapLength(values, (value: Value) => entry[key := value]);
    }
    FlatMapAt(entries, ExtendOne(values, key), |values|, e, v);
    MapAt(values, (value: Value) => entries[e][key := value], v);
  }

  lemma ProductNone(byValue: bool, axes: map<Key, seq<Value>>, entry: Entry)
    ensures multiset(Product(byValue, [], axes))[entry] == if entry.Keys == KeySet([]) then Weight([], axes, entry) else 0
  {
  }

  lemma {:induction false} WeightPositive(keys: seq<Key>, axes: map<Key, seq<Value>>, entry: Entry)
    requires forall key :: key in keys ==> key in axes && key in entry
    ensures Weight(keys, axes, entry) > 0 <==> forall key :: key in keys ==> entry[key] in axes[key]
  {
    if keys != [] {
      SplitLast(keys);
      var front, last := keys[..|keys| - 1], keys[|keys| - 1];
      WeightPositive(front, axes, entry);
      PositiveProduct(Weight(front, axes, entry), multiset(axes[last])[entry[last]]);
    }
  }

  lemma PositiveProduct(a: nat, b: nat)
    ensures a * b > 0 <==> a > 0 && b > 0
  {
  }

  // ----- Sorted keys

  lemma {:induction false} SortedNoRepeats(keys: set<Key>, sorted: seq<Key>)
    requires NoRepeats(sorted)
    ensures NoRepeats(SortedFrom(keys, sorted))
  {
    if sorted != [] {
      SplitLast(sorted);
      SortedNoRepeats(keys, sorted[..|sorted| - 1]);
      var last := sorted[|sorted| - 1];
      assert last !in sorted[..|sorted| - 1];
    }
  }

  ghost predicate KnownKeys(keys: set<Key>) {
    forall key :: key in keys ==> !key.UnknownKey?
  }

  lemma SortedKeysExact(keys: set<Key>)
    requires KnownKeys(keys)
    ensures NoRepeats(SortedKeys(keys)) && KeySet(SortedKeys(keys)) == keys
  {
    SortedNoRepeats(keys, SORTED_KEYS);
    forall key | key in keys
      ensures key in SORTED_KEYS
    {
      KnownSorted(key);
    }
  }

  lemma KnownSorted(key: Key)
    requires !key.UnknownKey?
    ensures key in SORTED_KEYS
  {
  }

  /** The variants of an include are exactly the choices of one listed value for each of its keys. */
  lemma VariantsExact(inc: Include, overrides: Entry)
    requires KnownKeys(inc.values.Keys)
    ensures overrides in Variants(inc)
            <==> overrides.Keys == inc.values.Keys && forall key :: key in overrides ==> overrides[key] in inc.values[key]
  {
    SortedKeysExact(inc.values.Keys);
    var keys := SortedKeys(inc.values.Keys);
    ProductCount(false, keys, inc.values, overrides);
    if overrides.Keys == inc.values.Keys {
      WeightPositive(keys, inc.values, overrides);
    }
  }

  // ----- Stacks

  lemma {:induction false} WithStackCount(stacks: seq<string>, original: Entry, entry: Entry)
    requires Stack !in original
    ensures multiset(Map(stacks, WithStack(original)))[entry]
            == if Stack in entry && entry[Stack].Text? && entry - {Stack} == original then multiset(stacks)[entry[Stack].text] else 0
  {
    if stacks != [] {
      SplitLast(stacks);
      WithStackCount(stacks[..|stacks| - 1], original, entry);
      ExtendedOnce(original, Stack, Text(stacks[|stacks| - 1]), entry);
    }
  }

  /** How often stacks put the entry together from the one without its stack. */
  ghost function StackFactor(stacks: seq<string>, entry: Entry): nat {
    var selected := Compatible(stacks, TextOf(entry, Implementation));
    if Stack in entry then if entry[Stack].Text? then multiset(selected)[entry[Stack].text] else 0
    else if selected == [] then 1 else 0
  }

  lemma AttachOneCount(stacks: seq<string>, original: Entry, entry: Entry)
    requires Stack !in original
    ensures multiset(AttachStacks(stacks)(original))[entry]
            == if entry - {Stack} == original then StackFactor(stacks, entry) else 0
  {
    var selected := Compatible(stacks, TextOf(original, Implementation));
    WithStackCount(selected, original, entry);
    if Stack !in entry {
      assert entry - {Stack} == entry;
    }
    if entry - {Stack} == original {
      assert TextOf(entry, Implementation) == TextOf(original, Implementation);
      NoCompatible(selected, entry);
    }
  }

  lemma NoCompatible(selected: seq<string>, entry: Entry)
    ensures selected == [] && Stack in entry && entry[Stack].Text? ==> multiset(selected)[entry[Stack].text] == 0
  {
  }

  lemma {:induction false} AttachCount(stacks: seq<string>, entries: seq<Entry>, entry: Entry)
    requires Lacks(entries, Stack)
    ensures multiset(FlatMap(entries, AttachStacks(stacks)))[entry]
            == multiset(entries)[entry - {Stack}] * StackFactor(stacks, entry)
  {
    hide AttachStacks, StackFactor, FlatMap, Lacks;
    if entries == [] {
      AttachNone(stacks, entry);
    } else {
      LacksFront(entries, Stack);
      AttachCount(stacks, entries[..|entries| - 1], entry);
      AttachOneCount(stacks, entries[|entries| - 1], entry);
      CountNext(entries, AttachStacks(stacks), entry, entry - {Stack}, StackFactor(stacks, entry));
    }
  }

  lemma AttachNone(stacks: seq<string>, entry: Entry)
    ensures multiset(FlatMap([], AttachStacks(stacks)))[entry] == multiset([])[entry - {Stack}] * StackFactor(stacks, entry)
  {
  }

  // ----- Excludes

  lemma {:induction false} ExcludesCount(entries: seq<Entry>, excludes: seq<Entry>, entry: Entry)
    ensures multiset(ApplyExcludes(entries, excludes))[entry]
            == if exists exclude :: exclude in excludes && Excluded(entry, exclude) then 0 else multiset(entries)[entry]
  {
    if excludes != [] {
      SplitLast(excludes);
      var front, last := excludes[..|excludes| - 1], excludes[|excludes| - 1];
      ExcludesCount(entries, front, entry);
      InFilter(ApplyExcludes(entries, front), Survives(last), entry);
      assert Survives(last)(entry) == !Excluded(entry, last);
    }
  }

  // ----- The base

  lemma PlainInEntry(axes: map<Key, seq<Value>>, entry: Entry)
    requires entry.Keys - {Stack} == axes.Keys - {Stack}
    ensures forall key :: key in PlainKeys(axes) ==> key in axes && key in entry
  {
    forall key | key in PlainKeys(axes)
      ensures key in axes && key in entry
    {
      assert key in axes.Keys - {Stack};
    }
  }

  /** How often the values of an entry are listed, for the axes without the stack. */
  ghost function PlainWeight(axes: map<Key, seq<Value>>, entry: Entry): nat
    requires entry.Keys - {Stack} == axes.Keys - {Stack}
  {
    PlainInEntry(axes, entry);
    Weight(PlainKeys(axes), axes, entry)
  }

  /** How often the base holds an entry before excludes: the listings of its values, times those of its stack. */
  ghost function BaseWeight(axes: map<Key, seq<Value>>, entry: Entry): nat {
    if axes != map[] && entry.Keys - {Stack} == axes.Keys - {Stack}
    then PlainWeight(axes, entry) * StackFactor(StacksOf(axes), entry)
    else 0
  }

  lemma CombinedCount(axes: map<Key, seq<Value>>, entry: Entry)
    requires KnownKeys(axes.Keys)
    ensures Lacks(Combined(axes), Stack)
    ensures multiset(Combined(axes))[entry]
            == if axes != map[] && entry.Keys == axes.Keys - {Stack} then Weight(PlainKeys(axes), axes, entry) else 0
  {
    if axes != map[] {
      SortedKeysExact(axes.Keys - {Stack});
      ProductCount(true, PlainKeys(axes), axes, entry);
      forall e | e in Combined(axes)
        ensures Stack !in e
      {
        ProductCount(true, PlainKeys(axes), axes, e);
      }
    }
  }

  lemma BaseCounted(axes: map<Key, seq<Value>>, excludes: seq<Entry>, entry: Entry)
    requires KnownKeys(axes.Keys)
    ensures multiset(Base(axes, excludes))[entry]
            == if exists exclude :: exclude in excludes && Excluded(entry, exclude) then 0 else BaseWeight(axes, entry)
  {
    var stacks := StacksOf(axes);
    ExcludesCount(FlatMap(Combined(axes), AttachStacks(stacks)), excludes, entry);
    CombinedCount(axes, entry - {Stack});
    AttachCount(stacks, Combined(axes), entry);
    assert (entry - {Stack}).Keys == entry.Keys - {Stack};
    if axes != map[] && entry.Keys - {Stack} == axes.Keys - {Stack} {
      WeightWithout(PlainKeys(axes), axes, entry, Stack);
    }
  }

  lemma BaseMembers(axes: map<Key, seq<Value>>, excludes: seq<Entry>, entry: Entry)
    requires KnownKeys(axes.Keys)
    ensures
      var name := TextOf(entry, Implementation);
      entry in Base(axes, excludes) <==>
        && axes != map[] && entry.Keys - {Stack} == axes.Keys - {Stack}
        && (forall key :: key in entry.Keys - {Stack} ==> entry[key] in axes[key])
        && (if Stack in entry
            then entry[Stack].Text? && entry[Stack].text in StacksOf(axes) && CompatibleWith(name)(entry[Stack].text)
            else forall stack :: stack in StacksOf(axes) ==> !CompatibleWith(name)(stack))
        && !exists exclude :: exclude in excludes && Excluded(entry, exclude)
  {
    var name, stacks := TextOf(entry, Implementation), StacksOf(axes);
    BaseCounted(axes, excludes, entry);
    if axes != map[] && entry.Keys - {Stack} == axes.Keys - {Stack} {
      var keys := PlainKeys(axes);
      SortedKeysExact(axes.Keys - {Stack});
      WeightPositive(keys, axes, entry);
      PositiveProduct(Weight(keys, axes, entry), StackFactor(stacks, entry));
      if Stack in entry && entry[Stack].Text? {
        InFilter(stacks, CompatibleWith(name), entry[Stack].text);
      }
      NoneCompatible(stacks, name);
    }
  }

  lemma NoneCompatible(stacks: seq<string>, name: string)
    ensures Compatible(stacks, name) == [] <==> forall stack :: stack in stacks ==> !CompatibleWith(name)(stack)
  {
    forall stack: string {
      InFilter(stacks, CompatibleWith(name), stack);
    }
    if Compatible(stacks, name) != [] {
      assert Compatible(stacks, name)[0] in Compatible(stacks, name);
    }
  }

  // ----- Lengths

  ghost function Lengths(keys: seq<Key>, axes: map<Key, seq<Value>>): nat
    requires forall key :: key in keys ==> key in axes
  {
    if keys == [] then 1 else Lengths(keys[..|keys| - 1], axes) * |axes[keys[|keys| - 1]]|
  }

  lemma {:induction false} ProductLength(keys: seq<Key>, axes: map<Key, seq<Value>>)
    requires forall key :: key in keys ==> key in axes
    ensures |Product(true, keys, axes)| == Lengths(keys, axes)
  {
    if keys != [] {
      SplitLast(keys);
      var front, last := keys[..|keys| - 1], keys[|keys| - 1];
      ProductLength(front, axes);
      ExtendAllLength(axes[last], Product(true, front, axes), last);
    }
  }

  lemma {:induction false} ExtendAllLength(values: seq<Value>, entries: seq<Entry>, key: Key)
    ensures |FlatMap(values, ExtendAll(entries, key))| == |entries| * |values|
  {
    if values != [] {
      ExtendAllLength(values[..|values| - 1], entries, key);
      InMap(entries, ExtendWith(key, values[|values| - 1]), map[]);
      assert |entries| * (|values| - 1) + |entries| == |entries| * |values|;
    }
  }

  ghost function Replacements(stacks: seq<string>, entries: seq<Entry>): nat {
    if entries == [] then 0
    else
      var compatible := |Compatible(stacks, TextOf(entries[|entries| - 1], Implementation))|;
      Replacements(stacks, entries[..|entries| - 1]) + if compatible == 0 then 1 else compatible
  }

  lemma BaseSize(axes: map<Key, seq<Value>>)
    requires axes != map[]
    ensures |Combined(axes)| == Lengths(PlainKeys(axes), axes)
    ensures |Base(axes, [])| == Replacements(StacksOf(axes), Combined(axes))
  {
    ProductLength(PlainKeys(axes), axes);
    AttachLength(StacksOf(axes), Combined(axes));
  }

  lemma {:induction false} AttachLength(stacks: seq<string>, entries: seq<Entry>)
    ensures |FlatMap(entries, AttachStacks(stacks))| == Replacements(stacks, entries)
  {
    if entries != [] {
      AttachLength(stacks, entries[..|entries| - 1]);
      var last := entries[|entries| - 1];
      InMap(Compatible(stacks, TextOf(last, Implementation)), WithStack(last), map[]);
    }
  }

  // ----- The same, read off the lists of the axes

  /** The values of the stack axis are texts, as normalising leaves them. */
  ghost predicate TextStacks(axes: map<Key, seq<Value>>) {
    Stack in axes ==> forall value :: value in axes[Stack] ==> value.Text?
  }

  /** A stack fits an entry that names no implementation, or the one whose name and a slash it begins with. */
  ghost predicate StackFits(stack: Value, entry: Entry) {
    Implementation in entry && entry[Implementation].Text? && entry[Implementation].text != "" ==>
      stack.Text? && entry[Implementation].text + "/" <= stack.text
  }

  /** Every key of the exclude has the same value in the entry. */
  ghost predicate Submap(exclude: Entry, entry: Entry) {
    forall key :: key in exclude ==> key in entry && entry[key] == exclude[key]
  }

  ghost predicate NoneFits(axes: map<Key, seq<Value>>, entry: Entry) {
    Stack in axes ==> forall value :: value in axes[Stack] ==> !StackFits(value, entry)
  }

  ghost function FittingStacks(values: seq<Value>, entry: Entry): nat {
    if values == [] then 0
    else FittingStacks(values[..|values| - 1], entry) + if StackFits(values[|values| - 1], entry) then 1 else 0
  }

  lemma {:induction false} TextsCount(values: seq<Value>, text: string)
    requires forall value :: value in values ==> value.Text?
    ensures multiset(TextsOf(values))[text] == multiset(values)[Text(text)]
    ensures text in TextsOf(values) <==> Text(text) in values
  {
    if values != [] {
      SplitLast(values);
      TextsCount(values[..|values| - 1], text);
    }
  }

  lemma StacksCount(axes: map<Key, seq<Value>>, text: string)
    requires TextStacks(axes)
    ensures multiset(StacksOf(axes))[text] == if Stack in axes then multiset(axes[Stack])[Text(text)] else 0
    ensures text in StacksOf(axes) <==> Stack in axes && Text(text) in axes[Stack]
  {
    if Stack in axes {
      TextsCount(axes[Stack], text);
    }
  }

  lemma FitsExactly(stack: string, entry: Entry)
    ensures CompatibleWith(TextOf(entry, Implementation))(stack) <==> StackFits(Text(stack), entry)
  {
  }

  lemma NoneFitsExactly(axes: map<Key, seq<Value>>, entry: Entry)
    requires TextStacks(axes)
    ensures NoneFits(axes, entry) <==> Compatible(StacksOf(axes), TextOf(entry, Implementation)) == []
  {
    hide StackFits, CompatibleWith, StacksOf;
    var name, stacks := TextOf(entry, Implementation), StacksOf(axes);
    NoneCompatible(stacks, name);
    forall stack: string
      ensures stack in stacks <==> Stack in axes && Text(stack) in axes[Stack]
      ensures CompatibleWith(name)(stack) <==> StackFits(Text(stack), entry)
    {
      StacksCount(axes, stack);
      FitsExactly(stack, entry);
    }
    if Stack in axes {
      forall value | value in axes[Stack]
        ensures value == Text(value.text) && value.text in stacks
      {
        StacksCount(axes, value.text);
      }
    }
  }

  /** How often a stack axis gives an entry its stack, or leaves it without one. */
  ghost function StackListings(axes: map<Key, seq<Value>>, entry: Entry): nat {
    if Stack !in entry then if NoneFits(axes, entry) then 1 else 0
    else if Stack in axes && StackFits(entry[Stack], entry) then multiset(axes[Stack])[entry[Stack]]
    else 0
  }

  lemma FactorIsListings(axes: map<Key, seq<Value>>, entry: Entry)
    requires TextStacks(axes)
    ensures StackFactor(StacksOf(axes), entry) == StackListings(axes, entry)
  {
    hide StackFits, CompatibleWith, StacksOf, TextOf;
    NoneFitsExactly(axes, entry);
    if Stack in entry && entry[Stack].Text? {
      var stack, name := entry[Stack].text, TextOf(entry, Implementation);
      StacksCount(axes, stack);
      FitsExactly(stack, entry);
      FilterCount(StacksOf(axes), CompatibleWith(name), stack);
    }
  }

  /**
   * How often every entry occurs in the base: as often as its values are listed, multiplied over the axes, with a stack
   * that fits its implementation, or without one if none does; not at all if some exclude is a submap of it.
   */
  lemma BaseCount(axes: map<Key, seq<Value>>, excludes: seq<Entry>, entry: Entry)
    requires KnownKeys(axes.Keys) && TextStacks(axes)
    ensures
      multiset(Base(axes, excludes))[entry] ==
        if axes == map[] || entry.Keys - {Stack} != axes.Keys - {Stack} then 0
        else if exists exclude :: exclude in excludes && Submap(exclude, entry) then 0
        else PlainWeight(axes, entry) * StackListings(axes, entry)
  {
    hide StackFactor, StackListings, PlainWeight;
    BaseCounted(axes, excludes, entry);
    FactorIsListings(axes, entry);
    forall exclude: Entry
      ensures Submap(exclude, entry) <==> Excluded(entry, exclude)
    {
    }
  }

  /**
   * An entry is produced if and only if its other keys are the axes, with listed values; its stack is listed and fits its
   * implementation, or it has none because no listed stack fits; and no exclude is a submap of it.
   */
  lemma BaseExact(axes: map<Key, seq<Value>>, excludes: seq<Entry>, entry: Entry)
    requires KnownKeys(axes.Keys) && TextStacks(axes)
    ensures
      entry in Base(axes, excludes) <==>
        && axes != map[] && entry.Keys - {Stack} == axes.Keys - {Stack}
        && (forall key :: key in entry.Keys - {Stack} ==> entry[key] in axes[key])
        && (if Stack in entry then Stack in axes && entry[Stack] in axes[Stack] && StackFits(entry[Stack], entry)
            else NoneFits(axes, entry))
        && !exists exclude :: exclude in excludes && Submap(exclude, entry)
  {
    hide StackFits, CompatibleWith, StacksOf, Base;
    var name, stacks := TextOf(entry, Implementation), StacksOf(axes);
    BaseMembers(axes, excludes, entry);
    NoneFitsExactly(axes, entry);
    NoneCompatible(stacks, name);
    if Stack in entry && entry[Stack].Text? {
      StacksCount(axes, entry[Stack].text);
      FitsExactly(entry[Stack].text, entry);
    }
    forall exclude: Entry
      ensures Submap(exclude, entry) <==> Excluded(entry, exclude)
    {
    }
  }

  /** Each entry counted once for every listed stack that fits it, and once if there is none. */
  ghost function WithStacks(axes: map<Key, seq<Value>>, entries: seq<Entry>): nat {
    if entries == [] then 0
    else
      var fitting := if Stack in axes then FittingStacks(axes[Stack], entries[|entries| - 1]) else 0;
      WithStacks(axes, entries[..|entries| - 1]) + if fitting == 0 then 1 else fitting
  }

  lemma {:induction false} CompatibleLength(values: seq<Value>, entry: Entry)
    requires forall value :: value in values ==> value.Text?
    ensures |Compatible(TextsOf(values), TextOf(entry, Implementation))| == FittingStacks(values, entry)
  {
    hide StackFits, TextOf, CompatibleWith;
    if values != [] {
      var last := values[|values| - 1];
      assert last in values;
      CompatibleLength(values[..|values| - 1], entry);
      FitsExactly(last.text, entry);
      TextsLast(values);
      var texts := TextsOf(values[..|values| - 1]);
      assert (texts + [last.text])[..|texts|] == texts;
    }
  }

  lemma TextsLast(values: seq<Value>)
    requires values != [] && values[|values| - 1].Text?
    ensures TextsOf(values) == TextsOf(values[..|values| - 1]) + [values[|values| - 1].text]
  {
  }

  lemma {:induction false} ReplacementsAre(axes: map<Key, seq<Value>>, entries: seq<Entry>)
    requires TextStacks(axes)
    ensures Replacements(StacksOf(axes), entries) == WithStacks(axes, entries)
  {
    hide Compatible, FittingStacks, TextsOf;
    if entries != [] {
      ReplacementsAre(axes, entries[..|entries| - 1]);
      if Stack in axes {
        CompatibleLength(axes[Stack], entries[|entries| - 1]);
      } else {
        NoStacks(TextOf(entries[|entries| - 1], Implementation));
      }
    }
  }

  lemma NoStacks(name: string)
    ensures Compatible([], name) == []
  {
  }

  /**
   * Before excludes: the product of the lengths of the plain axes, each entry counted once for every value of the stack
   * axis that fits it, at least once.
   */
  lemma BaseLength(axes: map<Key, seq<Value>>)
    requires axes != map[] && TextStacks(axes)
    ensures |Combined(axes)| == Lengths(PlainKeys(axes), axes)
    ensures |Base(axes, [])| == WithStacks(axes, Combined(axes))
  {
    hide Combined, Base, Replacements, WithStacks, Lengths;
    BaseSize(axes);
    ReplacementsAre(axes, Combined(axes));
  }
}
