/**
 The number formats that the history files use: the C library's `%i`, `%.3f`, atoi and atof,
 and GLib's string splitting.
 */
module DecimalText {

  const UINT32: int := 0x1_0000_0000
  type UInt32 = n: int | 0 <= n < UINT32
  const INT64: int := 0x8000_0000_0000_0000

  type Magnitude = x: real | x >= 0.0

  /** A finite `double`, with an exact magnitude and the sign that `%.3f` prints (so -0 exists). */
  datatype Double = Double(negative: bool, magnitude: Magnitude) {
    function Real(): real {
      var m: real := magnitude;
      if negative then -m else m
    }
  }

  /** `rint` on a non-negative argument: to nearest, ties to even. */
  function RoundHalfEven(x: real): (n: nat)
    requires x >= 0.0
    ensures n as real - 0.5 <= x <= n as real + 0.5
  {
    var below := x.Floor;
    var rest := x - below as real;
    if rest < 0.5 || (rest == 0.5 && below % 2 == 0) then below else below + 1
  }

  lemma RoundHalfEvenExact(x: real)
    requires x >= 0.0 && x == x.Floor as real
    ensures RoundHalfEven(x) == x.Floor
  {
  }

  predicate IsDigit(c: char) { '0' <= c <= '9' }

  predicate AllDigits(s: string) { forall i :: 0 <= i < |s| ==> IsDigit(s[i]) }

  predicate StartsWithoutDigit(s: string) { s == "" || !IsDigit(s[0]) }

  function DigitValue(c: char): nat
    requires IsDigit(c)
  {
    c as int - '0' as int
  }

  function DigitChar(d: nat): (c: char)
    requires d < 10
    ensures IsDigit(c) && DigitValue(c) == d
  {
    ('0' as int + d) as char
  }

  /** The decimal notation of a natural number. */
  function Decimal(n: nat): (s: string)
    ensures s != "" && AllDigits(s)
  {
    if n < 10 then [DigitChar(n)] else Decimal(n / 10) + [DigitChar(n % 10)]
  }

  function DigitsValue(s: string): nat
    requires AllDigits(s)
  {
    if s == "" then 0 else 10 * DigitsValue(s[..|s| - 1]) + DigitValue(s[|s| - 1])
  }

  lemma DigitsValueSnoc(s: string, c: char)
    requires AllDigits(s) && IsDigit(c)
    ensures AllDigits(s + [c]) && DigitsValue(s + [c]) == 10 * DigitsValue(s) + DigitValue(c)
  {
    assert (s + [c])[..|s + [c]| - 1] == s;
  }

  lemma {:induction false} DecimalValue(n: nat)
    ensures DigitsValue(Decimal(n)) == n
  {
    if n < 10 {
      assert Decimal(n)[..0] == "";
    } else {
      DecimalValue(n / 10);
      DigitsValueSnoc(Decimal(n / 10), DigitChar(n % 10));
    }
  }

  /** How many characters of the text the number scanners take as digits. */
  function DigitRun(s: string): (k: nat)
    ensures k <= |s| && AllDigits(s[..k]) && StartsWithoutDigit(s[k..])
  {
    if StartsWithoutDigit(s) then 0
    else
      var k := DigitRun(s[1..]) + 1;
      assert s[k..] == s[1..][k - 1..] && s[..k] == [s[0]] + s[1..][..k - 1];
      k
  }

  lemma {:induction false} DigitRunOfPrefix(digits: string, rest: string)
    requires AllDigits(digits) && StartsWithoutDigit(rest)
    ensures DigitRun(digits + rest) == |digits|
    ensures (digits + rest)[..|digits|] == digits && (digits + rest)[|digits|..] == rest
  {
    if digits != "" {
      assert (digits + rest)[1..] == digits[1..] + rest;
      DigitRunOfPrefix(digits[1..], rest);
    } else {
      assert digits + rest == rest;
    }
  }

  predicate IsSpace(c: char) { c == ' ' || '\t' <= c <= '\r' }

  function SkipSpace(s: string): string {
    if s != "" && IsSpace(s[0]) then SkipSpace(s[1..]) else s
  }

  /** An optional sign: whether it is a minus, and what follows it. */
  function TakeSign(s: string): (bool, string) {
    if s != "" && s[0] == '-' then (true, s[1..])
    else if s != "" && s[0] == '+' then (false, s[1..])
    else (false, s)
  }

  /** `%i` applied to a 32-bit unsigned value, which prints it as a signed one. */
  function PrintUInt32(n: UInt32): string {
    if n < UINT32 / 2 then Decimal(n) else "-" + Decimal(UINT32 - n)
  }

  /** atoi on a 64-bit host, converted to a 32-bit unsigned value: strtol saturates, then the
      value is reduced modulo 2^32. */
  function ParseUInt32(text: string): UInt32 {
    var (negative, rest) := TakeSign(SkipSpace(text));
    var v: int := DigitsValue(rest[..DigitRun(rest)]);
    var signed := if negative then -v else v;
    var saturated := if signed >= INT64 then INT64 - 1 else if signed < -INT64 then -INT64 else signed;
    saturated % UINT32
  }

  lemma UInt32RoundTrip(n: UInt32)
    ensures ParseUInt32(PrintUInt32(n)) == n
  {
    var m := if n < UINT32 / 2 then n else UINT32 - n;
    DecimalValue(m);
    DigitRunOfPrefix(Decimal(m), "");
    assert Decimal(m) + "" == Decimal(m) && Decimal(m)[..|Decimal(m)|] == Decimal(m);
    assert ("-" + Decimal(m))[1..] == Decimal(m);
    assert !IsSpace(PrintUInt32(n)[0]);
  }

  function ThreeDigits(n: nat): (s: string)
    requires n < 1000
    ensures |s| == 3 && AllDigits(s)
  {
    [DigitChar(n / 100), DigitChar(n / 10 % 10), DigitChar(n % 10)]
  }

  function Milli(v: Double): nat {
    RoundHalfEven(v.magnitude * 1000.0)
  }

  /** `%.3f`. */
  function PrintMilli(v: Double): string {
    var m := Milli(v);
    (if v.negative then "-" else "") + Decimal(m / 1000) + "." + ThreeDigits(m % 1000)
  }

  /** The digits of the fraction, when a point follows the integer part. */
  function FractionDigits(s: string): (f: string)
    ensures AllDigits(f)
  {
    if s != "" && s[0] == '.' then s[1..][..DigitRun(s[1..])] else ""
  }

  /** The integer n with its decimal point moved left. */
  function Scaled(n: nat, places: nat): Magnitude {
    if places == 0 then n as real else Scaled(n, places - 1) / 10.0
  }

  lemma ScaledByThree(n: nat)
    ensures Scaled(n, 3) == n as real / 1000.0
  {
    assert Scaled(n, 0) == n as real;
    assert Scaled(n, 1) == n as real / 10.0;
    assert Scaled(n, 2) == n as real / 100.0;
  }

  /** The digits of positional decimal notation and how many of them are behind the point. */
  function Positional(s: string): (r: (string, nat))
    ensures AllDigits(r.0)
  {
    var k := DigitRun(s);
    var fraction := FractionDigits(s[k..]);
    (s[..k] + fraction, |fraction|)
  }

  /** atof on positional decimal notation. */
  function ParseDouble(text: string): Double {
    var (negative, rest) := TakeSign(SkipSpace(text));
    var (digits, places) := Positional(rest);
    if digits == "" then Double(false, 0.0)
    else Double(negative, Scaled(DigitsValue(digits), places))
  }

  /** What a value becomes by going through a history file. */
  function Rounded(v: Double): (r: Double)
    ensures r.negative == v.negative && -0.0005 <= r.magnitude - v.magnitude <= 0.0005
  {
    Double(v.negative, Milli(v) as real / 1000.0)
  }

  lemma RoundedIsFixed(v: Double)
    ensures Milli(Rounded(v)) == Milli(v) && Rounded(Rounded(v)) == Rounded(v)
  {
    var x := Rounded(v).magnitude * 1000.0;
    assert x == Milli(v) as real;
    RoundHalfEvenExact(x);
  }

  lemma MilliDigits(n: nat)
    ensures AllDigits(Decimal(n / 1000) + ThreeDigits(n % 1000))
    ensures DigitsValue(Decimal(n / 1000) + ThreeDigits(n % 1000)) == n
  {
    var whole, m := Decimal(n / 1000), n % 1000;
    DecimalValue(n / 1000);
    DigitsValueSnoc(whole, DigitChar(m / 100));
    DigitsValueSnoc(whole + [DigitChar(m / 100)], DigitChar(m / 10 % 10));
    DigitsValueSnoc(whole + [DigitChar(m / 100)] + [DigitChar(m / 10 % 10)], DigitChar(m % 10));
    assert whole + ThreeDigits(m)
        == whole + [DigitChar(m / 100)] + [DigitChar(m / 10 % 10)] + [DigitChar(m % 10)];
  }

  lemma PositionalOfPoint(whole: string, fraction: string)
    requires AllDigits(whole) && AllDigits(fraction)
    ensures Positional(whole + "." + fraction) == (whole + fraction, |fraction|)
  {
    var tail := "." + fraction;
    assert whole + "." + fraction == whole + tail;
    DigitRunOfPrefix(whole, tail);
    assert tail[1..] == fraction;
    DigitRunOfPrefix(fraction, "");
    assert fraction + "" == fraction && fraction[..|fraction|] == fraction;
  }

  /** A sign in front of a digit is all that the sign scanner takes. */
  lemma SignedDigits(negative: bool, unsigned: string)
    requires unsigned != "" && IsDigit(unsigned[0])
    ensures TakeSign(SkipSpace((if negative then "-" else "") + unsigned)) == (negative, unsigned)
  {
    var text := (if negative then "-" else "") + unsigned;
    assert !IsSpace(text[0]);
    if negative {
      assert text[1..] == unsigned;
    } else {
      assert text == unsigned;
    }
  }

  lemma ParseOfPoint(negative: bool, whole: string, fraction: string)
    requires AllDigits(whole) && AllDigits(fraction) && whole != ""
    ensures AllDigits(whole + fraction)
    ensures ParseDouble((if negative then "-" else "") + whole + "." + fraction)
         == Double(negative, Scaled(DigitsValue(whole + fraction), |fraction|))
  {
    var sign, unsigned := if negative then "-" else "", whole + "." + fraction;
    assert sign + whole + "." + fraction == sign + unsigned;
    SignedDigits(negative, unsigned);
    PositionalOfPoint(whole, fraction);
  }

  lemma MilliRoundTrip(v: Double)
    ensures ParseDouble(PrintMilli(v)) == Rounded(v)
  {
    var m := Milli(v);
    var whole, fraction := Decimal(m / 1000), ThreeDigits(m % 1000);
    ParseOfPoint(v.negative, whole, fraction);
    MilliDigits(m);
    ScaledByThree(m);
  }

  /** Fields between separators, as in g_strsplit, except that the empty text has one field. */
  function Fields(s: string, sep: char): (parts: seq<string>)
    ensures parts != []
  {
    if s == "" then [""]
    else
      var rest := Fields(s[1..], sep);
      if s[0] == sep then [""] + rest else [[s[0]] + rest[0]] + rest[1..]
  }

  /** g_strsplit without a limit. */
  function Split(s: string, sep: char): seq<string> {
    if s == "" then [] else Fields(s, sep)
  }

  lemma {:induction false} FieldsOfConcat(field: string, sep: char, rest: string)
    requires sep !in field
    ensures Fields(field + [sep] + rest, sep) == [field] + Fields(rest, sep)
  {
    var s := field + [sep] + rest;
    if field == "" {
      assert s[1..] == rest;
    } else {
      assert s[1..] == field[1..] + [sep] + rest;
      FieldsOfConcat(field[1..], sep, rest);
      assert [field[0]] + field[1..] == field;
    }
  }

  lemma {:induction false} FieldsOfOne(field: string, sep: char)
    requires sep !in field
    ensures Fields(field, sep) == [field]
  {
    if field != "" {
      FieldsOfOne(field[1..], sep);
      assert [field[0]] + field[1..] == field;
    }
  }
}
