/**
 src/linux/up-input.c: the bitmap of switches, which the kernel prints as hexadecimal words, the most
 significant one first.
 */
module InputBitmap {
  import opened DecimalLaws
  import opened DecimalText

  const WORD: nat := 0x1_0000_0000_0000_0000

  // ----- Bits of numbers

  predicate Bit(n: nat, b: nat) { if b == 0 then n % 2 == 1 else Bit(n / 2, b - 1) }

  function Popcount(n: nat): nat { if n == 0 then 0 else n % 2 + Popcount(n / 2) }

  function And(m: nat, n: nat): nat {
    if m == 0 || n == 0 then 0 else 2 * And(m / 2, n / 2) + if m % 2 == 1 && n % 2 == 1 then 1 else 0
  }

  lemma {:induction false} AndIsBitwise(m: nat, n: nat, b: nat)
    ensures Bit(And(m, n), b) == (Bit(m, b) && Bit(n, b))
    decreases m
  {
    if m == 0 || n == 0 {
      ZeroHasNoBits(b);
    } else if b > 0 {
      AndIsBitwise(m / 2, n / 2, b - 1);
      assert And(m, n) / 2 == And(m / 2, n / 2);
    }
  }

  lemma {:induction false} ZeroHasNoBits(b: nat)
    ensures !Bit(0, b)
  {
    if b > 0 {
      ZeroHasNoBits(b - 1);
    }
  }

  lemma {:induction false} AndSelf(n: nat)
    ensures And(n, n) == n
  {
    if n > 0 {
      AndSelf(n / 2);
    }
  }

  /** Taking one away and keeping the bits in common clears exactly one bit. */
  lemma {:induction false} ClearLowest(n: nat)
    requires n > 0
    ensures And(n, n - 1) < n && Popcount(And(n, n - 1)) == Popcount(n) - 1
  {
    if n % 2 == 1 {
      AndSelf(n / 2);
      assert And(n, n - 1) == n - 1 && (n - 1) / 2 == n / 2;
    } else {
      ClearLowest(n / 2);
      assert n - 1 > 0 && (n - 1) / 2 == n / 2 - 1;
      assert And(n, n - 1) == 2 * And(n / 2, n / 2 - 1);
    }
  }

  function Power(k: nat): (p: nat)
    ensures p > 0
  {
    if k == 0 then 1 else 2 * Power(k - 1)
  }

  /** The bits of a number with `low` in its last k bits. */
  lemma {:induction false} BitsOfJoined(high: nat, low: nat, k: nat, b: nat)
    requires low < Power(k)
    ensures Bit(high * Power(k) + low, b) == if b < k then Bit(low, b) else Bit(high, b - k)
    decreases k
  {
    if k > 0 {
      HalfOfJoined(high, low, k);
      if b > 0 {
        BitsOfJoined(high, low / 2, k - 1, b - 1);
      }
    }
  }

  lemma {:induction false} PopcountOfJoined(high: nat, low: nat, k: nat)
    requires low < Power(k)
    ensures Popcount(high * Power(k) + low) == Popcount(high) + Popcount(low)
    decreases k
  {
    if k > 0 {
      HalfOfJoined(high, low, k);
      PopcountOfJoined(high, low / 2, k - 1);
    }
  }

  lemma HalfOfJoined(high: nat, low: nat, k: nat)
    requires k > 0 && low < Power(k)
    ensures (high * Power(k) + low) / 2 == high * Power(k - 1) + low / 2
    ensures (high * Power(k) + low) % 2 == low % 2
  {
    assert high * Power(k) == 2 * (high * Power(k - 1));
  }

  lemma {:induction false} PowerOfSum(j: nat, k: nat)
    ensures Power(j + k) == Power(j) * Power(k)
  {
    if j > 0 {
      PowerOfSum(j - 1, k);
      assert Power(j) * Power(k) == 2 * (Power(j - 1) * Power(k));
    }
  }

  lemma PowerOfTwice(k: nat, p: nat)
    requires Power(k) == p
    ensures Power(2 * k) == p * p
  {
    PowerOfSum(k, k);
  }

  lemma WordIsPower()
    ensures Power(64) == WORD
  {
    assert Power(1) == 2;
    PowerOfTwice(1, 2);
    PowerOfTwice(2, 4);
    PowerOfTwice(4, 0x10);
    PowerOfTwice(8, 0x100);
    PowerOfTwice(16, 0x1_0000);
    PowerOfTwice(32, 0x1_0000_0000);
  }

  /** A number with one more word behind it. */
  function Appended(high: nat, low: nat): nat { high * WORD + low }

  lemma BitsOfAppended(high: nat, low: nat, b: nat)
    requires low < WORD
    ensures Bit(Appended(high, low), b) == if b < 64 then Bit(low, b) else Bit(high, b - 64)
  {
    WordIsPower();
    BitsOfJoined(high, low, 64, b);
  }

  lemma PopcountOfAppended(high: nat, low: nat)
    requires low < WORD
    ensures Popcount(Appended(high, low)) == Popcount(high) + Popcount(low)
  {
    WordIsPower();
    PopcountOfJoined(high, low, 64);
  }

  // ----- strtoul

  predicate IsHexDigit(c: char) { IsDigit(c) || 'a' <= c <= 'f' || 'A' <= c <= 'F' }

  function HexDigit(c: char): nat
    requires IsHexDigit(c)
  {
    if IsDigit(c) then DigitValue(c) else if 'a' <= c <= 'f' then c as int - 'a' as int + 10 else c as int - 'A' as int + 10
  }

  predicate AllHex(s: string) { forall i :: 0 <= i < |s| ==> IsHexDigit(s[i]) }

  function HexRun(s: string): (k: nat)
    ensures k <= |s| && AllHex(s[..k])
    ensures k < |s| ==> !IsHexDigit(s[k])
  {
    if s == "" || !IsHexDigit(s[0]) then 0 else
      var k := 1 + HexRun(s[1..]);
      assert forall i :: 0 < i < k ==> s[i] == s[1..][..k - 1][i - 1];
      k
  }

  function HexValue(s: string): nat
    requires AllHex(s)
  {
    if s == "" then 0 else 16 * HexValue(s[..|s| - 1]) + HexDigit(s[|s| - 1])
  }

  /** An optional 0x, which has to be followed by a digit. */
  function SkipPrefix(s: string): string {
    if |s| > 2 && s[0] == '0' && (s[1] == 'x' || s[1] == 'X') && IsHexDigit(s[2]) then s[2..] else s
  }

  /** strtoul with base 16. Numbers that are too large become the largest one, and a minus sign negates
      modulo 2^64. */
  function ParseHex(text: string): (v: nat)
    ensures v < WORD
  {
    var (negative, rest) := TakeSign(SkipSpace(text));
    var digits := SkipPrefix(rest);
    var v := HexValue(digits[..HexRun(digits)]);
    if v >= WORD then WORD - 1 else if negative && v > 0 then WORD - v else v
  }

  /** A word of hexadecimal digits stands for its value. */
  lemma ParseHexOfDigits(s: string)
    requires AllHex(s) && HexValue(s) < WORD
    ensures ParseHex(s) == HexValue(s)
  {
    assert SkipSpace(s) == s;
    assert TakeSign(s) == (false, s);
    assert SkipPrefix(s) == s;
    assert HexRun(s) == |s|;
    assert s[..|s|] == s;
  }

  function Power16(k: nat): (p: nat)
    ensures p > 0
  {
    if k == 0 then 1 else 16 * Power16(k - 1)
  }

  /** A digit counts as often as sixteen to the number of digits behind it. */
  lemma {:induction false} HexValueOfConcat(a: string, b: string)
    requires AllHex(a) && AllHex(b)
    ensures AllHex(a + b) && HexValue(a + b) == HexValue(a) * Power16(|b|) + HexValue(b)
  {
    if b == "" {
      assert a + b == a;
    } else {
      var n := |b| - 1;
      assert (a + b)[..|a| + n] == a + b[..n];
      HexValueOfConcat(a, b[..n]);
      ShiftedHexSum(HexValue(a), Power16(n), HexValue(b[..n]), HexDigit(b[n]));
    }
  }

  lemma ShiftedHexSum(a: nat, p: nat, b: nat, d: nat)
    ensures 16 * (a * p + b) + d == a * (16 * p) + (16 * b + d)
  {
  }

  lemma HexDigitsInOrder(i: nat)
    requires i < 16
    ensures IsHexDigit("0123456789abcdef"[i]) && HexValue(["0123456789abcdef"[i]]) == i
    ensures IsHexDigit("0123456789ABCDEF"[i]) && HexValue(["0123456789ABCDEF"[i]]) == i
  {
    var c, d := "0123456789abcdef"[i], "0123456789ABCDEF"[i];
    assert [c][..0] == "" && [d][..0] == "";
  }

  lemma {:induction false} HexRunOfPrefix(digits: string, rest: string)
    requires AllHex(digits) && (rest == "" || !IsHexDigit(rest[0]))
    ensures HexRun(digits + rest) == |digits| && (digits + rest)[..|digits|] == digits
  {
    if digits != "" {
      assert (digits + rest)[1..] == digits[1..] + rest;
      HexRunOfPrefix(digits[1..], rest);
    } else {
      assert digits + rest == rest;
    }
  }

  /** How strtoul reads a number: behind spaces and a sign, with or without 0x, up to what is no digit. A
      number that does not fit becomes the largest one, and a negative one counts from the end. */
  lemma ParseHexOfText(space: string, sign: string, prefix: string, digits: string, rest: string)
    requires IsBlank(space) && sign in {"", "+", "-"} && prefix in {"", "0x", "0X"}
    requires AllHex(digits) && digits != "" && (rest == "" || !IsHexDigit(rest[0]))
    requires prefix == "" ==> |digits| > 1 || rest == "" || rest[0] !in {'x', 'X'}
    ensures ParseHex(space + (sign + (prefix + (digits + rest)))) ==
              var v := HexValue(digits);
              if v >= 0x1_0000_0000_0000_0000 then 0xffff_ffff_ffff_ffff
              else if sign == "-" && v > 0 then 0x1_0000_0000_0000_0000 - v else v
  {
    var tail := digits + rest;
    var number := prefix + tail;
    NumberStarts(prefix, tail);
    SignedText(space, sign, number);
    PrefixIsSkipped(prefix, tail);
    HexRunOfPrefix(digits, rest);
    ParseHexSteps(space + (sign + number), sign == "-", number, tail, digits);
  }

  lemma NumberStarts(prefix: string, tail: string)
    requires prefix in {"", "0x", "0X"} && tail != "" && IsHexDigit(tail[0])
    ensures prefix + tail != "" && IsHexDigit((prefix + tail)[0])
  {
  }

  lemma ParseHexSteps(text: string, negative: bool, number: string, tail: string, digits: string)
    requires TakeSign(SkipSpace(text)) == (negative, number) && SkipPrefix(number) == tail
    requires HexRun(tail) == |digits| && tail[..|digits|] == digits && AllHex(digits)
    ensures ParseHex(text) ==
              if HexValue(digits) >= WORD then WORD - 1
              else if negative && HexValue(digits) > 0 then WORD - HexValue(digits) else HexValue(digits)
  {
  }

  lemma PrefixIsSkipped(prefix: string, digits: string)
    requires prefix in {"", "0x", "0X"} && digits != "" && IsHexDigit(digits[0])
    requires prefix == "" ==> |digits| == 1 || digits[1] !in {'x', 'X'}
    ensures SkipPrefix(prefix + digits) == digits
  {
    if prefix == "" {
      assert prefix + digits == digits;
    } else {
      assert (prefix + digits)[2..] == digits && (prefix + digits)[2] == digits[0];
    }
  }

  // ----- The bitmap. What a word stands for is a parameter, which strtoul is put in for at the end.

  type Parser = string -> nat

  ghost predicate GivesWords(parse: Parser) { forall word: string :: parse(word) < WORD }

  /** The number that the first k words stand for together. */
  function NumberTo(words: seq<string>, parse: Parser, k: nat): nat
    requires k <= |words|
  {
    if k == 0 then 0 else Appended(NumberTo(words, parse, k - 1), parse(words[k - 1]))
  }

  /** The number that a text of words stands for. */
  function WholeNumber(words: seq<string>): nat { NumberTo(words, ParseHex, |words|) }

  predicate TestBit(bitmask: seq<nat>, b: nat)
    requires b / 64 < |bitmask|
  {
    Bit(bitmask[b / 64], b % 64)
  }

  /** The words from index i on are in the buffer: the last word comes first, and what is behind them is
      zero. */
  predicate HoldsFrom(bitmask: seq<nat>, words: seq<string>, parse: Parser, i: nat)
    requires i <= |words| <= |bitmask|
  {
    && (forall j :: 0 <= j < |words| - i ==> bitmask[j] == parse(words[|words| - 1 - j]))
    && (forall j :: |words| - i <= j < |bitmask| ==> bitmask[j] == 0)
  }

  /** Every bit of the buffer is that bit of the number. */
  ghost predicate Represents(bitmask: seq<nat>, n: nat) {
    forall b: nat :: b / 64 < |bitmask| ==> TestBit(bitmask, b) == Bit(n, b)
  }

  lemma RepresentsAppended(low: nat, rest: seq<nat>, high: nat)
    requires low < WORD && Represents(rest, high)
    ensures Represents([low] + rest, Appended(high, low))
  {
    forall b: nat | b / 64 < 1 + |rest|
      ensures TestBit([low] + rest, b) == Bit(Appended(high, low), b)
    {
      BitsOfAppended(high, low, b);
      if b >= 64 {
        assert (b - 64) / 64 == b / 64 - 1 && (b - 64) % 64 == b % 64;
        assert TestBit(rest, b - 64) == Bit(high, b - 64);
      }
    }
  }

  lemma ZerosRepresentZero(bitmask: seq<nat>)
    requires forall j :: 0 <= j < |bitmask| ==> bitmask[j] == 0
    ensures Represents(bitmask, 0)
  {
    forall b: nat | b / 64 < |bitmask| ensures !TestBit(bitmask, b) && !Bit(0, b) {
      ZeroHasNoBits(b);
      ZeroHasNoBits(b % 64);
    }
  }

  lemma {:induction false} HeldIsRepresented(bitmask: seq<nat>, words: seq<string>, parse: Parser, k: nat)
    requires GivesWords(parse) && k <= |words| <= |bitmask| && HoldsFrom(bitmask, words, parse, 0)
    ensures Represents(bitmask[|words| - k..], NumberTo(words, parse, k))
  {
    if k == 0 {
      ZerosRepresentZero(bitmask[|words|..]);
    } else {
      HeldIsRepresented(bitmask, words, parse, k - 1);
      var low, rest := parse(words[k - 1]), bitmask[|words| - k + 1..];
      assert bitmask[|words| - k] == parse(words[|words| - 1 - (|words| - k)]);
      assert bitmask[|words| - k..] == [low] + rest;
      RepresentsAppended(low, rest, NumberTo(words, parse, k - 1));
    }
  }

  function BitsTo(words: seq<string>, parse: Parser, k: nat): nat
    requires k <= |words|
  {
    if k == 0 then 0 else BitsTo(words, parse, k - 1) + Popcount(parse(words[k - 1]))
  }

  /** The bits of the words are together those of their number. */
  lemma {:induction false} BitsArePopcount(words: seq<string>, parse: Parser, k: nat)
    requires GivesWords(parse) && k <= |words|
    ensures BitsTo(words, parse, k) == Popcount(NumberTo(words, parse, k))
  {
    if k > 0 {
      BitsArePopcount(words, parse, k - 1);
      PopcountOfAppended(NumberTo(words, parse, k - 1), parse(words[k - 1]));
    }
  }

  /** The bits of one word; the loop runs once for each of them. */
  method CountBits(word: nat) returns (count: nat)
    ensures count == Popcount(word)
  {
    count := 0;
    var val := word;
    while val != 0
      invariant count + Popcount(val) == Popcount(word)
      decreases val
    {
      ClearLowest(val);
      count := count + 1;
      val := And(val, val - 1);
    }
  }

  /** The buffer and the count are those of the number that the whole text stands for. */
  method StrToBitmask(s: string, bitmask: array<nat>) returns (count: nat)
    requires |Split(s, ' ')| <= bitmask.Length
    modifies bitmask
    ensures count == Popcount(WholeNumber(Split(s, ' ')))
    ensures Represents(bitmask[..], WholeNumber(Split(s, ' ')))
  {
    forall j | 0 <= j < bitmask.Length {
      bitmask[j] := 0;
    }
    var v := Split(s, ' ');
    count := FillWords(v, ParseHex, bitmask);
    BitsArePopcount(v, ParseHex, |v|);
    HeldIsRepresented(bitmask[..], v, ParseHex, |v|);
    assert bitmask[..][0..] == bitmask[..];
  }

  method FillWords(v: seq<string>, parse: Parser, bitmask: array<nat>) returns (count: nat)
    requires |v| <= bitmask.Length && forall j :: 0 <= j < bitmask.Length ==> bitmask[j] == 0
    modifies bitmask
    ensures count == BitsTo(v, parse, |v|)
    ensures HoldsFrom(bitmask[..], v, parse, 0)
  {
    var i, j := |v| - 1, 0;
    count := 0;
    while i >= 0
      invariant -1 <= i < |v| && i + j == |v| - 1
      invariant count + BitsTo(v, parse, i + 1) == BitsTo(v, parse, |v|)
      invariant HoldsFrom(bitmask[..], v, parse, i + 1)
    {
      var val := parse(v[i]);
      bitmask[j] := val;
      var bits := CountBits(val);
      count := count + bits;
      i, j := i - 1, j + 1;
    }
  }
}
