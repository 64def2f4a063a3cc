/** libupower-glib/up-history-item.c: one sample and its text form, one line of a history file. */
module HistoryItem {
  import opened DecimalText
  import opened UpTypes
  import opened Wrappers

  datatype Item = Item(time: UInt32, value: Double, state: DeviceState) {
    /** The sample that a history file gives back: the value keeps three decimals. */
    function Stored(): Item {
      Item(time, Rounded(value), state)
    }
  }

  function ToString(item: Item): string {
    PrintUInt32(item.time) + "\t" + PrintMilli(item.value) + "\t" + StateToString(item.state)
  }

  /** None when the text does not have exactly three tab-separated fields. */
  function FromString(text: string): Option<Item> {
    var parts := Split(text, '\t');
    if |parts| != 3 then None
    else Some(Item(ParseUInt32(parts[0]), ParseDouble(parts[1]), StateFromString(parts[2])))
  }

  predicate Plain(s: string) { '\t' !in s && '\n' !in s }

  lemma DigitsArePlain(s: string)
    requires AllDigits(s)
    ensures Plain(s)
  {
    assert forall c :: c in s ==> IsDigit(c);
  }

  lemma PlainConcat(a: string, b: string)
    requires Plain(a) && Plain(b)
    ensures Plain(a + b)
  {
  }

  lemma PrintedNumbersArePlain(n: UInt32, v: Double)
    ensures Plain(PrintUInt32(n)) && Plain(PrintMilli(v))
  {
    DigitsArePlain(Decimal(if n < UINT32 / 2 then n else UINT32 - n));
    var whole, fraction := Decimal(Milli(v) / 1000), ThreeDigits(Milli(v) % 1000);
    DigitsArePlain(whole);
    DigitsArePlain(fraction);
    PlainConcat((if v.negative then "-" else "") + whole + ".", fraction);
  }

  lemma StateNameIsPlain(state: DeviceState)
    ensures Plain(StateToString(state))
  {
  }

  lemma PrintedLineIsPlain(item: Item)
    ensures '\n' !in ToString(item)
  {
    PrintedNumbersArePlain(item.time, item.value);
    StateNameIsPlain(item.state);
  }

  lemma FieldsOfLine(item: Item)
    ensures Split(ToString(item), '\t') == [PrintUInt32(item.time), PrintMilli(item.value), StateToString(item.state)]
  {
    PrintedNumbersArePlain(item.time, item.value);
    StateNameIsPlain(item.state);
    var time, value, state := PrintUInt32(item.time), PrintMilli(item.value), StateToString(item.state);
    assert ToString(item) == time + ['\t'] + (value + ['\t'] + state);
    FieldsOfConcat(time, '\t', value + ['\t'] + state);
    FieldsOfConcat(value, '\t', state);
    FieldsOfOne(state, '\t');
  }

  lemma ItemRoundTrip(item: Item)
    ensures FromString(ToString(item)) == Some(item.Stored())
  {
    FieldsOfLine(item);
    UInt32RoundTrip(item.time);
    MilliRoundTrip(item.value);
    StateRoundTrip(item.state, StateToString(item.state));
  }

  lemma StoredIsFixed(item: Item)
    ensures item.Stored().Stored() == item.Stored()
    ensures ToString(item.Stored()) == ToString(item)
  {
    RoundedIsFixed(item.value);
  }

  lemma PositiveThousandths(v: Double, whole: nat, m: nat)
    requires !v.negative && v.magnitude * 1000.0 == (1000 * whole + m) as real && m < 1000
    ensures PrintMilli(v) == Decimal(whole) + "." + ThreeDigits(m)
  {
    RoundHalfEvenExact(v.magnitude * 1000.0);
    assert Milli(v) == 1000 * whole + m;
    assert "" + Decimal(whole) == Decimal(whole);
  }

  lemma TimeOfLine()
    ensures PrintUInt32(1000) == "1000"
  {
    assert Decimal(1) == "1";
    assert Decimal(10) == "10";
    assert Decimal(100) == "100";
    assert Decimal(1000) == "1000";
  }

  lemma ValueOfLine()
    ensures PrintMilli(Double(false, 99.5)) == "99.500"
  {
    assert Decimal(9) == "9";
    assert Decimal(99) == "99";
    assert ThreeDigits(500) == "500";
    PositiveThousandths(Double(false, 99.5), 99, 500);
  }

  /** A line of a history file. */
  lemma LineOfFile()
    ensures ToString(Item(1000, Double(false, 99.5), Discharging)) == "1000\t99.500\tdischarging"
  {
    TimeOfLine();
    ValueOfLine();
  }
}
