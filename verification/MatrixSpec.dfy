/** What the expansion of a matrix is: its values, and the list of entries each stage produces (configuration.go). */
module MatrixSpec {
  import opened Wrappers
  import Reports
  import Seqs

  /** An axis; any name but the nine known ones is unknown. */
  datatype Key =
    | Environment | Implementation | Stack | Ip | Network | Direction | Mtu | Parallel | Bitrate
    | UnknownKey(name: string)

  /** The known axes in the order in which their names sort. */
  const SORTED_KEYS: seq<Key> := [Bitrate, Direction, Environment, Implementation, Ip, Mtu, Network, Parallel, Stack]

  /** A value as YAML decodes it; `RawOther` is any other scalar, known by how it prints. */
  datatype Raw = RawText(text: string) | RawNumber(number: int) | RawList(items: seq<Raw>) | RawOther(printed: string)

  /** A normalised value: a Go string, int or uint64. */
  datatype Value = Text(text: string) | Number(number: int) | Rate(bits: nat)

  type Entry = map<Key, Value>

  // ----- Normalising one value

  const MAX_INT: int := 0x7fff_ffff_ffff_ffff
  const MAX_UINT: int := 0xffff_ffff_ffff_ffff

  predicate IsDigit(c: char) { '0' <= c <= '9' }

  function ParseDigits(text: string): Option<nat> {
    if text == [] then None
    else if |text| == 1 then if IsDigit(text[0]) then Some((text[0] as int) - ('0' as int)) else None
    else
      var front := ParseDigits(text[..|text| - 1]);
      var last := text[|text| - 1];
      if front.Some? && IsDigit(last) then Some(front.value * 10 + ((last as int) - ('0' as int))) else None
  }

  /** `strconv.Atoi`: an optional sign, digits, and the range of int64. */
  function ParseInt(text: string): Option<int> {
    var negative := |text| > 0 && text[0] == '-';
    var digits := if |text| > 0 && (text[0] == '-' || text[0] == '+') then text[1..] else text;
    var magnitude := ParseDigits(digits);
    if magnitude.None? then None
    else
      var value := if negative then -(magnitude.value as int) else magnitude.value as int;
      if -MAX_INT - 1 <= value <= MAX_INT then Some(value) else None
  }

  /** The integer that a value prints as. */
  function IntegerOf(raw: Raw): Option<int> {
    match raw
    case RawNumber(n) => if -MAX_INT - 1 <= n <= MAX_INT then Some(n) else None
    case RawText(text) => ParseInt(text)
    case RawOther(printed) => ParseInt(printed)
    case RawList(_) => None
  }

  /** The unsigned integer that a value prints as, without a sign. */
  function UnsignedOf(raw: Raw): Option<nat> {
    var parsed: Option<int> :=
      match raw
      case RawNumber(n) => Some(n)
      case RawText(text) => (var digits := ParseDigits(text); if digits.Some? then Some(digits.value as int) else None)
      case RawOther(printed) => (var digits := ParseDigits(printed); if digits.Some? then Some(digits.value as int) else None)
      case RawList(_) => None;
    if parsed.Some? && 0 <= parsed.value <= MAX_UINT then Some(parsed.value) else None
  }

  /** Where the first slash stands, or the length of the text. */
  function SlashIndex(text: string): (i: nat)
    ensures i <= |text|
    ensures i < |text| ==> text[i] == '/'
    ensures forall j :: 0 <= j < i ==> text[j] != '/'
  {
    if text == [] || text[0] == '/' then 0
    else 1 + SlashIndex(text[1..])
  }

  /** `<implementation-name>/<stack-name>`. */
  predicate IsSelector(text: string) {
    var slash := SlashIndex(text);
    0 < slash < |text| - 1 && '/' !in text[slash + 1..]
  }

  /** The byte rate of a text such as "10 Mbps", as the byteformats library reads it. */
  type RateParser = Raw -> Option<nat>

  function NormalizeValue(key: Key, raw: Raw, parseRate: RateParser): Option<Value> {
    match key
    case Stack =>
      if raw.RawText? && IsSelector(raw.text) then Some(Text(raw.text)) else None
    case Environment | Implementation | Network | Direction =>
      if raw.RawText? && raw.text != "" then Some(Text(raw.text)) else None
    case Ip | Mtu | Parallel =>
      var number := IntegerOf(raw);
      if number.Some? then Some(Number(number.value)) else None
    case Bitrate =>
      var plain := UnsignedOf(raw);
      if plain.Some? then Some(Rate(plain.value))
      else
        var rate := parseRate(raw);
        if rate.None? || rate.value > MAX_UINT / 8 then None else Some(Rate(rate.value * 8))
    case UnknownKey(_) => None
  }

  function NormalizeList(key: Key, raws: seq<Raw>, parseRate: RateParser): Option<seq<Value>> {
    if raws == [] then Some([])
    else
      var front := NormalizeList(key, raws[..|raws| - 1], parseRate);
      var last := NormalizeValue(key, raws[|raws| - 1], parseRate);
      if front.None? || last.None? then None else Some(front.value + [last.value])
  }

  function ListOf(raw: Raw): seq<Raw> {
    if raw.RawList? then raw.items else [raw]
  }

  predicate Normal(key: Key, raws: seq<Raw>, parseRate: RateParser) {
    raws != [] && NormalizeList(key, raws, parseRate).Some?
  }

  /** Lists of normalised values, or None if a list is empty or a value is refused. */
  function NormalizeLists(lists: map<Key, seq<Raw>>, parseRate: RateParser): Option<map<Key, seq<Value>>> {
    if forall key :: key in lists ==> Normal(key, lists[key], parseRate)
    then Some(map key | key in lists :: NormalizeList(key, lists[key], parseRate).value)
    else None
  }

  /** `normalizeMatrixValues`. */
  function NormalizeValues(values: map<Key, Raw>, parseRate: RateParser): Option<map<Key, seq<Value>>> {
    NormalizeLists(map key | key in values :: ListOf(values[key]), parseRate)
  }

  // ----- Products

  function ExtendWith(key: Key, value: Value): Entry -> Entry {
    (entry: Entry) => entry[key := value]
  }

  function ExtendAll(entries: seq<Entry>, key: Key): Value -> seq<Entry> {
    (value: Value) => Seqs.Map(entries, ExtendWith(key, value))
  }

  function ExtendOne(values: seq<Value>, key: Key): Entry -> seq<Entry> {
    (entry: Entry) => Seqs.Map(values, (value: Value) => entry[key := value])
  }

  /**
   * One axis more: the axes of a matrix go through the values first, the variants of an include through the entries.
   */
  function AddAxis(byValue: bool, entries: seq<Entry>, key: Key, values: seq<Value>): seq<Entry> {
    if byValue then Seqs.FlatMap(values, ExtendAll(entries, key))
    else Seqs.FlatMap(entries, ExtendOne(values, key))
  }

  function Product(byValue: bool, keys: seq<Key>, axes: map<Key, seq<Value>>): seq<Entry>
    requires forall key :: key in keys ==> key in axes
  {
    if keys == [] then [map[]]
    else
      var last := keys[|keys| - 1];
      AddAxis(byValue, Product(byValue, keys[..|keys| - 1], axes), last, axes[last])
  }

  function SortedFrom(keys: set<Key>, sorted: seq<Key>): (result: seq<Key>)
    ensures forall key :: key in result <==> key in sorted && key in keys
  {
    if sorted == [] then []
    else
      var front := SortedFrom(keys, sorted[..|sorted| - 1]);
      var last := sorted[|sorted| - 1];
      assert sorted == sorted[..|sorted| - 1] + [last];
      if last in keys then front + [last] else front
  }

  function SortedKeys(keys: set<Key>): (sorted: seq<Key>)
    ensures forall key :: key in sorted <==> key in SORTED_KEYS && key in keys
  {
    SortedFrom(keys, SORTED_KEYS)
  }

  // ----- Base entries

  function TextOf(entry: Entry, key: Key): string {
    if key in entry && entry[key].Text? then entry[key].text else ""
  }

  /** `strings.HasPrefix(stack, name + "/")`. */
  predicate BelongsTo(stack: string, name: string) { name + "/" <= stack }

  function CompatibleWith(name: string): string -> bool {
    (stack: string) => name == "" || BelongsTo(stack, name)
  }

  function Compatible(stacks: seq<string>, name: string): seq<string> {
    Seqs.Filter(stacks, CompatibleWith(name))
  }

  function WithStack(entry: Entry): string -> Entry {
    (stack: string) => entry[Stack := Text(stack)]
  }

  /** Every compatible stack, or the entry itself when there is none. */
  function AttachStacks(stacks: seq<string>): Entry -> seq<Entry> {
    (entry: Entry) =>
      var selected := Compatible(stacks, TextOf(entry, Implementation));
      if selected == [] then [entry] else Seqs.Map(selected, WithStack(entry))
  }

  /** The exclude is a submap of the entry. */
  predicate Excluded(entry: Entry, exclude: Entry) {
    forall key :: key in exclude ==> key in entry && entry[key] == exclude[key]
  }

  function Survives(exclude: Entry): Entry -> bool {
    (entry: Entry) => !Excluded(entry, exclude)
  }

  function ApplyExcludes(entries: seq<Entry>, excludes: seq<Entry>): seq<Entry> {
    if excludes == [] then entries
    else Seqs.Filter(ApplyExcludes(entries, excludes[..|excludes| - 1]), Survives(excludes[|excludes| - 1]))
  }

  function TextsOf(values: seq<Value>): seq<string> {
    Seqs.Map(values, (value: Value) => if value.Text? then value.text else "")
  }

  function StacksOf(axes: map<Key, seq<Value>>): seq<string> {
    if Stack in axes then TextsOf(axes[Stack]) else []
  }

  function PlainKeys(axes: map<Key, seq<Value>>): (keys: seq<Key>)
    ensures forall key :: key in keys ==> key in axes && key != Stack
  {
    SortedKeys(axes.Keys - {Stack})
  }

  /** The axes combined, without the stack. */
  function Combined(axes: map<Key, seq<Value>>): seq<Entry> {
    if axes == map[] then [] else Product(true, PlainKeys(axes), axes)
  }

  function Base(axes: map<Key, seq<Value>>, excludes: seq<Entry>): seq<Entry> {
    ApplyExcludes(Seqs.FlatMap(Combined(axes), AttachStacks(StacksOf(axes))), excludes)
  }

  // ----- Includes

  /** A normalised include; `filter` is None when it has none. */
  datatype Include = Include(values: map<Key, seq<Value>>, filter: Option<map<Key, seq<Value>>>)

  /** `matchesMatrixFilter`. */
  predicate MatchesFilter(entry: Entry, filter: Option<map<Key, seq<Value>>>) {
    filter.Some? ==> forall key :: key in filter.value ==> key in entry && entry[key] in filter.value[key]
  }

  function Variants(inc: Include): seq<Entry> {
    Product(false, SortedKeys(inc.values.Keys), inc.values)
  }

  predicate MtuOnly(inc: Include) { inc.values.Keys == {Mtu} }

  function MtusFor(entry: Entry): Include -> seq<Entry> {
    (inc: Include) =>
      if MtuOnly(inc) && MatchesFilter(entry, inc.filter)
      then Seqs.Map(inc.values[Mtu], (value: Value) => entry[Mtu := value])
      else []
  }

  /** An entry without an MTU takes those of all matching includes that give nothing but MTUs. */
  function CompleteMtu(includes: seq<Include>): Entry -> seq<Entry> {
    (entry: Entry) =>
      if Mtu in entry then [entry]
      else
        var candidates := Seqs.FlatMap(includes, MtusFor(entry));
        if candidates == [] then [entry] else candidates
  }

  function Completed(base: seq<Entry>, includes: seq<Include>): seq<Entry> {
    Seqs.FlatMap(base, CompleteMtu(includes))
  }

  /** Overlaying keeps the stack of one implementation from meeting the name of another. */
  predicate Consistent(entry: Entry) {
    var name, stack := TextOf(entry, Implementation), TextOf(entry, Stack);
    name == "" || stack == "" || BelongsTo(stack, name)
  }

  /** The candidate that an entry gives under one variant, if any. */
  function Overlay(inc: Include, overrides: Entry): Entry -> seq<Entry> {
    (entry: Entry) =>
      if MatchesFilter(entry, inc.filter) && Consistent(entry + overrides) then [entry + overrides] else []
  }

  /** What one variant adds; an unfiltered one that applies nowhere stands alone. */
  function Applied(sources: seq<Entry>, inc: Include): Entry -> seq<Entry> {
    (overrides: Entry) =>
      var candidates := Seqs.FlatMap(sources, Overlay(inc, overrides));
      if candidates == [] && inc.filter.None? then [overrides] else candidates
  }

  function Contribution(sources: seq<Entry>, inc: Include): seq<Entry> {
    Seqs.FlatMap(Variants(inc), Applied(sources, inc))
  }

  /** An unfiltered include looks at the completed base, a filtered one at everything before it. */
  function ApplyIncludes(completed: seq<Entry>, includes: seq<Include>): seq<Entry> {
    if includes == [] then completed
    else
      var expanded := ApplyIncludes(completed, includes[..|includes| - 1]);
      var last := includes[|includes| - 1];
      expanded + Contribution(if last.filter.Some? then expanded else completed, last)
  }

  // ----- Default axes

  function FillEntry(key: Key, values: seq<Value>): Entry -> seq<Entry> {
    (entry: Entry) => if key in entry then [entry] else Seqs.Map(values, (value: Value) => entry[key := value])
  }

  function FillAxis(entries: seq<Entry>, key: Key, values: seq<Value>): seq<Entry> {
    Seqs.FlatMap(entries, FillEntry(key, values))
  }

  const DEFAULT_IP: seq<Value> := [Number(4), Number(6)]
  const DEFAULT_NETWORK: seq<Value> := [Text("tcp"), Text("udp")]
  const DEFAULT_DIRECTION: seq<Value> := [Text("upload"), Text("download")]

  function FillDefaults(entries: seq<Entry>, kind: Reports.Kind): seq<Entry> {
    var filled := FillAxis(FillAxis(entries, Ip, DEFAULT_IP), Network, DEFAULT_NETWORK);
    if kind == Reports.Memory then filled else FillAxis(filled, Direction, DEFAULT_DIRECTION)
  }

  // ----- The whole expansion

  datatype RawInclude = RawInclude(values: map<Key, Raw>, filter: Option<map<Key, Raw>>)

  datatype Matrix = Matrix(kind: Reports.Kind, axes: map<Key, seq<Raw>>, includes: seq<RawInclude>, excludes: seq<map<Key, Raw>>)

  function FilterKeys(inc: RawInclude): set<Key> {
    if inc.filter.Some? then inc.filter.value.Keys else {}
  }

  /** Axes that a memory matrix may not mention anywhere. */
  predicate Mentions(m: Matrix, key: Key) {
    || key in m.axes
    || (exists i :: 0 <= i < |m.includes| && (key in m.includes[i].values || key in FilterKeys(m.includes[i])))
    || (exists i :: 0 <= i < |m.excludes| && key in m.excludes[i])
  }

  predicate Unsupported(m: Matrix) {
    m.kind == Reports.Memory && (Mentions(m, Direction) || Mentions(m, Parallel) || Mentions(m, Bitrate))
  }

  function NormalizeInclude(inc: RawInclude, parseRate: RateParser): Option<Include> {
    var values := NormalizeValues(inc.values, parseRate);
    if values.None? then None
    else if inc.filter.None? then Some(Include(values.value, None))
    else
      var filter := NormalizeValues(inc.filter.value, parseRate);
      if filter.None? then None else Some(Include(values.value, filter))
  }

  function NormalizeIncludes(includes: seq<RawInclude>, parseRate: RateParser): (r: Option<seq<Include>>)
    ensures r.Some? ==> |r.value| == |includes|
  {
    if includes == [] then Some([])
    else
      var front := NormalizeIncludes(includes[..|includes| - 1], parseRate);
      var last := NormalizeInclude(includes[|includes| - 1], parseRate);
      if front.None? || last.None? then None else Some(front.value + [last.value])
  }

  function NormalizeExclude(exclude: map<Key, Raw>, parseRate: RateParser): Option<Entry> {
    if forall key :: key in exclude ==> NormalizeValue(key, exclude[key], parseRate).Some?
    then Some(map key | key in exclude :: NormalizeValue(key, exclude[key], parseRate).value)
    else None
  }

  function NormalizeExcludes(excludes: seq<map<Key, Raw>>, parseRate: RateParser): Option<seq<Entry>> {
    if excludes == [] then Some([])
    else
      var front := NormalizeExcludes(excludes[..|excludes| - 1], parseRate);
      var last := NormalizeExclude(excludes[|excludes| - 1], parseRate);
      if front.None? || last.None? then None else Some(front.value + [last.value])
  }

  /** A matrix with everything normalised. */
  datatype Plan = Plan(kind: Reports.Kind, axes: map<Key, seq<Value>>, includes: seq<Include>, excludes: seq<Entry>)

  function PlanOf(m: Matrix, parseRate: RateParser): Option<Plan> {
    var axes := NormalizeLists(m.axes, parseRate);
    var includes := NormalizeIncludes(m.includes, parseRate);
    var excludes := NormalizeExcludes(m.excludes, parseRate);
    if Unsupported(m) || axes.None? || includes.None? || excludes.None? then None
    else Some(Plan(m.kind, axes.value, includes.value, excludes.value))
  }

  /** The entries before the default axes are filled in. */
  function Listed(plan: Plan): seq<Entry> {
    ApplyIncludes(Completed(Base(plan.axes, plan.excludes), plan.includes), plan.includes)
  }

  /** `expand`; None stands for any of its errors. */
  function Expand(m: Matrix, parseRate: RateParser): Option<seq<Entry>> {
    var plan := PlanOf(m, parseRate);
    if plan.None? || Listed(plan.value) == [] then None
    else Some(FillDefaults(Listed(plan.value), m.kind))
  }
}
