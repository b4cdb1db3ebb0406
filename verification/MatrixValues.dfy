/** Which values an axis accepts, what becomes of them, and what a case keeps of its entry (configuration.go). */
module MatrixValues {
  import opened Wrappers
  import Reports
  import opened Seqs
  import opened MatrixSpec
  import opened MatrixTypes
  import Matrix

  // ----- Numbers

  /** A natural number in decimal digits. */
  function Digits(n: nat): string {
    if n < 10 then [Digit(n)] else Digits(n / 10) + [Digit(n % 10)]
  }

  function Digit(n: nat): char
    requires n < 10
  {
    '0' + n as char
  }

  function Printed(n: int): string { if n < 0 then "-" + Digits(-n) else Digits(n) }

  lemma DigitRead(n: nat)
    requires n < 10
    ensures IsDigit(Digit(n)) && Digit(n) as int - '0' as int == n
  {
  }

  lemma {:induction false} DigitsRead(n: nat)
    ensures ParseDigits(Digits(n)) == Some(n)
    ensures Digits(n) != [] && IsDigit(Digits(n)[0])
  {
    if n < 10 {
      DigitRead(n);
    } else {
      DigitsRead(n / 10);
      DigitRead(n % 10);
      assert Digits(n)[..|Digits(n)| - 1] == Digits(n / 10);
    }
  }

  predicate InInt64(n: int) { -0x8000_0000_0000_0000 <= n <= 0x7fff_ffff_ffff_ffff }

  predicate InUint64(n: int) { 0 <= n <= 0xffff_ffff_ffff_ffff }

  /** A printed integer is read back if it fits into 64 bits, and refused otherwise. */
  lemma PrintedRead(n: int)
    ensures ParseInt(Printed(n)) == if InInt64(n) then Some(n) else None
    ensures n >= 0 ==> ParseDigits(Printed(n)) == Some(n)
    ensures n < 0 ==> ParseDigits(Printed(n)) == None
  {
    if n < 0 {
      DigitsRead(-n);
      assert Printed(n)[1..] == Digits(-n);
      NoSign(Printed(n));
    } else {
      DigitsRead(n);
    }
  }

  lemma {:induction false} NoSign(text: string)
    requires text != [] && !IsDigit(text[0])
    ensures ParseDigits(text) == None
  {
    if |text| > 1 {
      NoSign(text[..|text| - 1]);
    }
  }

  /** An integer axis takes the integers of 64 bits, as numbers or printed. */
  lemma IntegersAccepted(key: Key, n: int, parseRate: RateParser)
    requires key == Ip || key == Mtu || key == Parallel
    ensures NormalizeValue(key, RawNumber(n), parseRate) == if InInt64(n) then Some(Number(n)) else None
    ensures NormalizeValue(key, RawText(Printed(n)), parseRate) == if InInt64(n) then Some(Number(n)) else None
  {
    PrintedRead(n);
  }

  /** A bitrate is a plain number of bits, or else eight times a rate in bytes that leaves it within 64 bits. */
  lemma BitratesAccepted(n: int, raw: Raw, parseRate: RateParser)
    requires raw == RawNumber(n) || raw == RawText(Printed(n))
    ensures InUint64(n) ==> NormalizeValue(Bitrate, raw, parseRate) == Some(Rate(n))
    ensures !InUint64(n) ==> NormalizeValue(Bitrate, raw, parseRate) == RateAccepted(raw, parseRate)
  {
    PrintedRead(n);
    hide ParseDigits, Printed, ParseInt;
  }

  function RateAccepted(raw: Raw, parseRate: RateParser): Option<Value> {
    var bytes := parseRate(raw);
    if bytes.Some? && InUint64(bytes.value * 8) then Some(Rate(bytes.value * 8)) else None
  }

  /** Any other text, say one with a unit, is a rate. */
  lemma RatesAccepted(text: string, parseRate: RateParser)
    requires text != [] && exists k :: 0 <= k < |text| && !IsDigit(text[k])
    ensures NormalizeValue(Bitrate, RawText(text), parseRate) == RateAccepted(RawText(text), parseRate)
  {
    NotDigits(text);
  }

  lemma {:induction false} NotDigits(text: string)
    requires exists k :: 0 <= k < |text| && !IsDigit(text[k])
    ensures ParseDigits(text) == None
  {
    if |text| > 1 && IsDigit(text[|text| - 1]) {
      NotDigits(text[..|text| - 1]);
    }
  }

  // ----- Texts

  /** The name of an implementation, a slash, and the name of a stack without one. */
  ghost predicate Selects(text: string, name: string, stack: string) {
    name != "" && stack != "" && '/' !in name && '/' !in stack && text == name + "/" + stack
  }

  lemma SelectorExactly(text: string)
    ensures IsSelector(text) <==> exists name, stack :: Selects(text, name, stack)
  {
    if IsSelector(text) {
      var slash := SlashIndex(text);
      assert Selects(text, text[..slash], text[slash + 1..]);
    }
    if name, stack :| Selects(text, name, stack) {
      assert text[|name|] == '/';
      assert forall k :: 0 <= k < |name| ==> text[k] == name[k];
      assert SlashIndex(text) == |name|;
      assert text[|name| + 1..] == stack;
    }
  }

  /** A text axis takes any text that is not empty, the stack axis exactly the selectors, and neither anything else. */
  lemma TextsAccepted(key: Key, raw: Raw, parseRate: RateParser)
    ensures key == Environment || key == Implementation || key == Network || key == Direction ==>
      NormalizeValue(key, raw, parseRate) == if raw.RawText? && raw.text != "" then Some(Text(raw.text)) else None
    ensures key == Stack && raw.RawText? && (exists name, stack :: Selects(raw.text, name, stack)) ==>
      NormalizeValue(key, raw, parseRate) == Some(Text(raw.text))
    ensures key == Stack && !(raw.RawText? && exists name, stack :: Selects(raw.text, name, stack)) ==>
      NormalizeValue(key, raw, parseRate) == None
    ensures key.UnknownKey? ==> NormalizeValue(key, raw, parseRate) == None
  {
    if raw.RawText? {
      SelectorExactly(raw.text);
    }
  }

  // ----- Lists

  /** A list is refused if one of its values is, and otherwise becomes the list of what its values become. */
  lemma {:induction false} ListsAccepted(key: Key, raws: seq<Raw>, parseRate: RateParser)
    ensures
      var values := NormalizeList(key, raws, parseRate);
      && (values.Some? <==> forall k :: 0 <= k < |raws| ==> NormalizeValue(key, raws[k], parseRate).Some?)
      && (values.Some? ==>
            && |values.value| == |raws|
            && forall k :: 0 <= k < |raws| ==> NormalizeValue(key, raws[k], parseRate) == Some(values.value[k]))
  {
    hide NormalizeValue;
    if raws != [] {
      ListsAccepted(key, raws[..|raws| - 1], parseRate);
    }
  }

  // ----- The case of an entry

  /** What a case says of an axis. */
  function Recovered(c: Reports.CaseConfiguration, key: Key): Value {
    match key
    case Implementation => Text(c.implementation)
    case Stack => Text(c.implementation + "/" + c.stack)
    case Ip => Number(c.ip)
    case Network => Text(c.network)
    case Direction => Text(c.direction)
    case Mtu => Number(c.mtu)
    case Parallel => Number(c.parallel)
    case Bitrate => Rate(c.bitrate)
    case _ => Text("")
  }

  /**
   * A case is read exactly if its entry has an implementation and an MTU, and a stack only of that implementation. Every
   * value can be recovered from the case; without a value it has the default of the axis.
   */
  lemma EntryRecovered(matrix: string, kind: Reports.Kind, defaultStack: string, entry: Entry)
    requires WellTyped(kind, entry)
    ensures
      var r := Matrix.CaseOf(matrix, kind, defaultStack, entry);
      && (r.Some? <==>
            && Implementation in entry && Mtu in entry
            && (Stack in entry ==> entry[Implementation].text + "/" <= entry[Stack].text))
      && (r.Some? ==>
            && r.value.kind == kind && r.value.matrix == matrix
            && (forall key :: key in entry && key != Environment ==> Recovered(r.value, key) == entry[key])
            && (Stack !in entry ==> r.value.stack == defaultStack)
            && (Ip !in entry ==> r.value.ip == 0) && (Network !in entry ==> r.value.network == "")
            && (Direction !in entry ==> r.value.direction == "") && (Parallel !in entry ==> r.value.parallel == 1)
            && (Bitrate !in entry ==> r.value.bitrate == 0))
  {
    hide IsSelector, SlashIndex;
    assert Implementation in entry ==> Fits(Implementation, entry[Implementation]);
    assert Stack in entry ==> Fits(Stack, entry[Stack]);
    var r := Matrix.CaseOf(matrix, kind, defaultStack, entry);
    if Stack in entry {
      StackNotEmpty(entry[Stack].text);
    }
    if r.Some? {
      Matrix.SelectorKept(matrix, kind, defaultStack, entry);
      forall key | key in entry && key != Environment
        ensures Recovered(r.value, key) == entry[key]
      {
        assert Fits(key, entry[key]);
      }
    }
  }

  lemma StackNotEmpty(selector: string)
    requires IsSelector(selector)
    ensures selector != ""
  {
  }
}
