/** How the number scanners of the C library read any text. */
module DecimalLaws {
  import opened DecimalText

  /** Spaces, and the five control characters from the tabulator to the carriage return. */
  predicate IsBlank(s: string) { forall i :: 0 <= i < |s| ==> s[i] == ' ' || 9 <= s[i] as int <= 13 }

  lemma {:induction false} SkipSpaceOf(space: string, text: string)
    requires IsBlank(space) && (text == "" || !IsSpace(text[0]))
    ensures SkipSpace(space + text) == text
  {
    if space != "" {
      assert (space + text)[1..] == space[1..] + text;
      SkipSpaceOf(space[1..], text);
    } else {
      assert space + text == text;
    }
  }

  lemma SignIsTaken(sign: string, number: string)
    requires sign in {"", "+", "-"} && number != "" && number[0] !in {'+', '-'}
    ensures TakeSign(sign + number) == (sign == "-", number)
  {
    if sign == "" {
      assert sign + number == number;
    } else {
      assert (sign + number)[1..] == number;
    }
  }

  /** The scanners skip spaces and take one sign. */
  lemma SignedText(space: string, sign: string, number: string)
    requires IsBlank(space) && sign in {"", "+", "-"}
    requires number != "" && number[0] !in {'+', '-'} && !IsSpace(number[0])
    ensures TakeSign(SkipSpace(space + (sign + number))) == (sign == "-", number)
  {
    assert (sign + number)[0] == if sign == "" then number[0] else sign[0];
    SkipSpaceOf(space, sign + number);
    SignIsTaken(sign, number);
  }

  /** A digit counts as often as ten to the number of digits behind it. */
  function Power10(k: nat): (p: nat)
    ensures p > 0
  {
    if k == 0 then 1 else 10 * Power10(k - 1)
  }

  lemma {:induction false} DigitsValueOfConcat(a: string, b: string)
    requires AllDigits(a) && AllDigits(b)
    ensures AllDigits(a + b) && DigitsValue(a + b) == DigitsValue(a) * Power10(|b|) + DigitsValue(b)
  {
    if b == "" {
      assert a + b == a;
    } else {
      var n := |b| - 1;
      assert (a + b)[..|a| + n] == a + b[..n];
      DigitsValueOfConcat(a, b[..n]);
      ShiftedSum(DigitsValue(a), Power10(n), DigitsValue(b[..n]), DigitValue(b[n]));
    }
  }

  lemma ShiftedSum(a: nat, p: nat, b: nat, d: nat)
    ensures 10 * (a * p + b) + d == a * (10 * p) + (10 * b + d)
  {
  }

  lemma DigitsInOrder(i: nat)
    requires i < 10
    ensures IsDigit("0123456789"[i]) && DigitsValue(["0123456789"[i]]) == i
  {
    var c := "0123456789"[i];
    assert [c][..0] == "";
  }

  /** How atoi reads a number: behind spaces and a sign, up to what is no digit. */
  lemma ParseUInt32OfText(space: string, sign: string, digits: string, rest: string)
    requires IsBlank(space) && sign in {"", "+", "-"}
    requires AllDigits(digits) && digits != "" && StartsWithoutDigit(rest)
    ensures var v: int := DigitsValue(digits);
            ParseUInt32(space + (sign + (digits + rest))) ==
              (if sign == "-" then (if v > 0x8000_0000_0000_0000 then 0 else -v)
               else if v > 0x7fff_ffff_ffff_ffff then 0xffff_ffff else v) % 0x1_0000_0000
  {
    var number := digits + rest;
    assert IsDigit(number[0]);
    SignedText(space, sign, number);
    DigitRunOfPrefix(digits, rest);
    ParseUInt32Steps(space + (sign + number), sign == "-", number, digits);
  }

  lemma ParseUInt32Steps(text: string, negative: bool, number: string, digits: string)
    requires TakeSign(SkipSpace(text)) == (negative, number) && AllDigits(digits)
    requires DigitRun(number) == |digits| && number[..|digits|] == digits
    ensures var v: int := DigitsValue(digits);
            ParseUInt32(text) ==
              (if negative then (if v > 0x8000_0000_0000_0000 then 0 else -v)
               else if v > 0x7fff_ffff_ffff_ffff then 0xffff_ffff else v) % 0x1_0000_0000
  {
  }

  /** Moving the point left divides by ten for each place. */
  lemma {:induction false} ScaledBack(n: nat, places: nat)
    ensures Scaled(n, places) * Power10(places) as real == n as real
  {
    if places > 0 {
      ScaledBack(n, places - 1);
      TenTimes(Scaled(n, places - 1), Power10(places - 1) as real);
    }
  }

  lemma TenTimes(x: real, p: real)
    ensures x / 10.0 * (10.0 * p) == x * p
  {
  }

  lemma PositionalOfText(whole: string, fraction: string, rest: string)
    requires AllDigits(whole) && AllDigits(fraction) && (rest != "" ==> IsSpace(rest[0]))
    ensures Positional(whole + ("." + (fraction + rest))) == (whole + fraction, |fraction|)
  {
    var tail := "." + (fraction + rest);
    DigitRunOfPrefix(whole, tail);
    assert tail[1..] == fraction + rest;
    DigitRunOfPrefix(fraction, rest);
  }

  /** How atof reads a number with a point, behind spaces and a sign, up to a space. */
  lemma ParseDoubleOfText(text: string, negative: bool, whole: string, fraction: string, rest: string, digits: string)
    requires TakeSign(SkipSpace(text)) == (negative, whole + ("." + (fraction + rest)))
    requires AllDigits(whole) && AllDigits(fraction) && AllDigits(digits) && (rest != "" ==> IsSpace(rest[0]))
    requires digits == whole + fraction && digits != ""
    ensures ParseDouble(text) == Double(negative, Scaled(DigitsValue(digits), |fraction|))
  {
    PositionalOfText(whole, fraction, rest);
    ParseDoubleSteps(text, negative, whole + ("." + (fraction + rest)), digits, |fraction|);
  }

  lemma ParseDoubleSteps(text: string, negative: bool, number: string, digits: string, places: nat)
    requires TakeSign(SkipSpace(text)) == (negative, number) && Positional(number) == (digits, places)
    requires digits != "" && AllDigits(digits)
    ensures ParseDouble(text) == Double(negative, Scaled(DigitsValue(digits), places))
  {
  }
}
