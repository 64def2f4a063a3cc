/** Arithmetic of doubles, which are modelled as real numbers. */
module Doubles {
  /** A `double` that is the result of a division: finite, or 0/0, with which every comparison is false
      but the one for being different. */
  datatype Number = Num(x: real) | NaN {
    predicate Below(y: real) { Num? && x < y }
    predicate Above(y: real) { Num? && x > y }
    predicate AtMost(y: real) { Num? && x <= y }
    predicate Within(lo: real, hi: real) { Num? && lo <= x <= hi }
    predicate Equals(n: Number) { Num? && this == n }
    function Value(): real { if Num? then x else 0.0 }
  }

  /** Conversion of a `double` to an integer: towards zero. */
  function Truncate(x: real): int { if x >= 0.0 then x.Floor else -((-x).Floor) }

  function Add(a: Number, b: Number): Number { if a.NaN? || b.NaN? then NaN else Num(a.x + b.x) }

  /** What is missing to a full value. */
  function Missing(full: real, n: Number): Number { if n.NaN? then NaN else Num(full - n.x) }

  /** What converting NaN to a 64-bit integer gives on common hosts; C leaves it undefined. */
  const NO_SECONDS: int := -0x8000_0000_0000_0000

  /** The seconds in which an amount is used up at a rate for each hour. */
  function Seconds(amount: Number, rate: real): int
    requires rate > 0.0
  {
    if amount.NaN? then NO_SECONDS else Truncate(3600.0 * (amount.x / rate))
  }

  lemma Distribute(c: real, x: real, y: real)
    ensures c * (x + y) == c * x + c * y
  {
  }

  lemma RealQuotient(s: real, n: real)
    requires n > 0.0
    ensures n * (s / n) == s
  {
  }

  lemma RealMulMonotone(n: real, a: real, b: real)
    requires n > 0.0 && a < b
    ensures n * a < n * b
  {
  }

  lemma RealQuotientBounds(s: real, n: real, lo: real, hi: real)
    requires n > 0.0 && n * lo <= s <= n * hi
    ensures lo <= s / n <= hi
  {
    var q := s / n;
    RealQuotient(s, n);
    if q < lo {
      RealMulMonotone(n, q, lo);
    }
    if q > hi {
      RealMulMonotone(n, hi, q);
    }
  }

  // ----- Times

  /** Whole seconds in which an amount is used up at a rate for each hour. */
  predicate LastsFor(amount: real, rate: real, seconds: int) {
    seconds as real * rate <= 3600.0 * amount < (seconds + 1) as real * rate
  }

  lemma SecondsLast(amount: real, rate: real) returns (seconds: nat)
    requires amount >= 0.0 && rate > 0.0
    ensures LastsFor(amount, rate, seconds) && Seconds(Num(amount), rate) == seconds
  {
    var x := 3600.0 * (amount / rate);
    QuotientTimesRate(amount, rate, x);
    seconds := Truncate(x);
    FloorTimesRate(x, rate, 3600.0 * amount, seconds);
  }

  lemma QuotientTimesRate(amount: real, rate: real, x: real)
    requires rate > 0.0 && x == 3600.0 * (amount / rate)
    ensures x * rate == 3600.0 * amount && (amount >= 0.0 ==> x >= 0.0) && (amount <= 0.0 ==> x <= 0.0)
  {
    RealQuotient(amount, rate);
    if amount >= 0.0 {
      RealQuotientBounds(amount, rate, 0.0, amount / rate);
    }
    if amount <= 0.0 {
      RealQuotientBounds(amount, rate, amount / rate, 0.0);
    }
  }

  lemma FloorTimesRate(x: real, rate: real, amount: real, seconds: int)
    requires rate > 0.0 && x * rate == amount && seconds as real <= x < seconds as real + 1.0
    ensures seconds as real * rate <= amount < (seconds + 1) as real * rate
  {
    ProductBetween(x, rate, seconds as real, (seconds + 1) as real);
  }

  lemma ProductBetween(x: real, rate: real, lo: real, hi: real)
    requires rate > 0.0 && lo <= x < hi
    ensures lo * rate <= x * rate < hi * rate
  {
    RealMulMonotone(rate, x, hi);
    if lo < x {
      RealMulMonotone(rate, lo, x);
    }
  }

  /** A negative amount gives the negative of its time. */
  lemma NegativeSecondsLast(amount: real, rate: real) returns (seconds: nat)
    requires amount < 0.0 && rate > 0.0
    ensures LastsFor(-amount, rate, seconds) && Seconds(Num(amount), rate) + seconds == 0
  {
    var x := 3600.0 * (amount / rate);
    QuotientTimesRate(amount, rate, x);
    seconds := (-x).Floor;
    FloorTimesRate(-x, rate, -3600.0 * amount, seconds);
  }
}
