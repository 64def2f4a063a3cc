/**
 src/linux/up-device-supply.c: the ring buffer of the last four energies, and the rate of charge or
 discharge that is fitted to them.
 */
module RateEstimator {
  import opened Doubles

  const LENGTH: nat := 4

  datatype Slot = Slot(energy: Number, time: int) {
    predicate Usable() { time != 0 && energy != Num(0.0) }
  }

  const NoSlot: Slot := Slot(Num(0.0), 0)
  const Cleared: seq<Slot> := [NoSlot, NoSlot, NoSlot, NoSlot]

  /** The bounded newest-first list that the ring buffer stands for. */
  function Pushed(slots: seq<Slot>, energy: Number, now: int): seq<Slot>
    requires |slots| == LENGTH
  {
    if slots[0].energy.Equals(energy) then slots else [Slot(energy, now)] + slots[..LENGTH - 1]
  }

  function Abs(x: real): (r: real)
    ensures r >= 0.0 && (r == x || r == -x)
  {
    if x < 0.0 then -x else x
  }

  /** The square of an age. */
  function SquaredAge(newest: int, time: int): int { (newest - time) * (newest - time) }

  function AgedDifference(newest: int, time: int, energy: real, energyOld: real): real {
    Abs((time - newest) as real * (energy - energyOld))
  }

  function SumTo(xs: seq<real>, k: nat): real
    requires k <= |xs|
  {
    if k == 0 then 0.0 else SumTo(xs, k - 1) + xs[k - 1]
  }

  function Sum(xs: seq<real>): real { SumTo(xs, |xs|) }

  /** The squared age of each usable slot. */
  function Squares(slots: seq<Slot>): (r: seq<real>)
    ensures |r| == |slots|
    ensures forall i :: 0 <= i < |r| ==>
              r[i] == if slots[i].Usable() then SquaredAge(slots[0].time, slots[i].time) as real else 0.0
  {
    seq(|slots|, i requires 0 <= i < |slots| =>
      if slots[i].Usable() then SquaredAge(slots[0].time, slots[i].time) as real else 0.0)
  }

  /** The age of each usable slot times its distance from the energy. */
  function Products(slots: seq<Slot>, energy: real): (r: seq<real>)
    ensures |r| == |slots|
    ensures forall i :: 0 <= i < |r| ==>
              r[i] == if slots[i].Usable()
                      then AgedDifference(slots[0].time, slots[i].time, energy, slots[i].energy.Value()) else 0.0
  {
    seq(|slots|, i requires 0 <= i < |slots| =>
      if slots[i].Usable() then AgedDifference(slots[0].time, slots[i].time, energy, slots[i].energy.Value()) else 0.0)
  }

  function UsableCount(slots: seq<Slot>, k: nat): nat
    requires k <= |slots|
  {
    if k == 0 then 0 else UsableCount(slots, k - 1) + if slots[k - 1].Usable() then 1 else 0
  }

  /** Whether one of the first k slots would be used although its energy is not a number. */
  predicate Poisoned(slots: seq<Slot>, k: nat)
    requires k <= |slots|
  {
    k > 0 && (Poisoned(slots, k - 1) || (slots[k - 1].Usable() && slots[k - 1].energy.NaN?))
  }

  /** The least-squares rate for each hour, from its two sums. */
  function Fit(products: real, squares: real): real
    requires squares != 0.0
  {
    products / (squares / 3600.0)
  }

  function RawRate(slots: seq<Slot>, energy: real): real
    requires Sum(Squares(slots)) != 0.0
  {
    Fit(Sum(Products(slots, energy)), Sum(Squares(slots)))
  }

  /** The rate for an energy that has already been pushed. */
  function Rate(slots: seq<Slot>, energy: real, rateOld: Number): Number
    requires |slots| == LENGTH
  {
    if energy < 0.1 || slots[0].energy.Below(0.1) then Num(0.0)
    else if Sum(Squares(slots)) == 0.0 || UsableCount(slots, LENGTH) < 3 then rateOld
    else if Poisoned(slots, LENGTH) then NaN
    else
      var rate := RawRate(slots, energy);
      if rate == 0.0 || rate > 100.0 then rateOld else Num(rate)
  }

  function Wrap(i: nat): nat { if i < LENGTH then i else i - LENGTH }

  class EnergyRing {
    var energyOld: array<Number>
    var timeOld: array<int>
    var first: nat
    var rateOld: Number

    ghost predicate Valid()
      reads this
    {
      energyOld.Length == LENGTH && timeOld.Length == LENGTH && first < LENGTH
    }

    ghost function SlotAt(k: nat): Slot
      requires Valid() && k < LENGTH
      reads this, energyOld, timeOld
    {
      Slot(energyOld[Wrap(first + k)], timeOld[Wrap(first + k)])
    }

    /** The slots from the newest to the oldest. */
    ghost function Contents(): (r: seq<Slot>)
      requires Valid()
      reads this, energyOld, timeOld
      ensures |r| == LENGTH && forall k :: 0 <= k < LENGTH ==> r[k] == SlotAt(k)
    {
      [SlotAt(0), SlotAt(1), SlotAt(2), SlotAt(3)]
    }

    constructor ()
      ensures Valid() && fresh(energyOld) && fresh(timeOld)
      ensures Contents() == Cleared && rateOld == Num(0.0)
    {
      energyOld := new Number[LENGTH](_ => Num(0.0));
      timeOld := new int[LENGTH](_ => 0);
      first, rateOld := 0, Num(0.0);
    }

    method PushNewEnergy(energy: Number, now: int) returns (changed: bool)
      requires Valid()
      modifies this`first, energyOld, timeOld
      ensures Valid()
      ensures Contents() == Pushed(old(Contents()), energy, now)
      ensures changed <==> !old(Contents())[0].energy.Equals(energy)
    {
      var newPosition := (first + LENGTH - 1) % LENGTH;
      assert newPosition == Wrap(first + LENGTH - 1);
      if !energyOld[first].Equals(energy) {
        energyOld[newPosition] := energy;
        timeOld[newPosition] := now;
        first := newPosition;
        return true;
      }
      return false;
    }

    method Clear()
      requires Valid()
      modifies this`first, energyOld, timeOld
      ensures Valid() && Contents() == Cleared && first == 0
    {
      for i := 0 to LENGTH
        invariant forall k :: 0 <= k < i ==> energyOld[k] == Num(0.0) && timeOld[k] == 0
      {
        energyOld[i] := Num(0.0);
        timeOld[i] := 0;
      }
      first := 0;
    }

    /** The walk once around the ring, starting at the newest slot. An energy that is not a number makes
        the sum of differences none for good. */
    method SumUp(energy: real) returns (sumX: real, rate: Number, validValues: nat)
      requires Valid()
      ensures sumX == Sum(Squares(Contents()))
      ensures rate == if Poisoned(Contents(), LENGTH) then NaN else Num(Sum(Products(Contents(), energy)))
      ensures validValues == UsableCount(Contents(), LENGTH)
    {
      var i, newest := first, timeOld[first];
      sumX, rate, validValues := 0.0, Num(0.0), 0;
      ghost var slots := Contents();
      ghost var squares, products := Squares(slots), Products(slots, energy);
      ghost var k := 0;
      var started := false;
      while !started || i != first
        invariant k <= LENGTH && started == (k > 0) && i == Wrap(first + k)
        invariant sumX == SumTo(squares, k)
        invariant rate == if Poisoned(slots, k) then NaN else Num(SumTo(products, k))
        invariant validValues == UsableCount(slots, k)
        decreases LENGTH - k
      {
        assert slots[k] == Slot(energyOld[i], timeOld[i]);
        if timeOld[i] != 0 && energyOld[i] != Num(0.0) {
          sumX := sumX + SquaredAge(newest, timeOld[i]) as real;
          if energyOld[i].NaN? {
            rate := NaN;
          } else if rate.Num? {
            rate := Num(rate.x + AgedDifference(newest, timeOld[i], energy, energyOld[i].x));
          }
          validValues := validValues + 1;
        }
        i := (i + 1) % LENGTH;
        k, started := k + 1, true;
      }
    }

    method CalculateRate(energy: real, now: int) returns (rate: Number)
      requires Valid()
      modifies this`first, energyOld, timeOld
      ensures Valid()
      ensures Contents() == Pushed(old(Contents()), Num(energy), now)
      ensures rate == Rate(Contents(), energy, rateOld)
    {
      var _ := PushNewEnergy(Num(energy), now);
      if energy < 0.1 {
        return Num(0.0);
      }
      if energyOld[first].Below(0.1) {
        return Num(0.0);
      }
      var sumX, products, validValues := SumUp(energy);
      if sumX == 0.0 || validValues < 3 {
        return rateOld;
      }
      if products.NaN? {
        return NaN;
      }
      rate := Num(products.x / (sumX / 3600.0));
      if rate == Num(0.0) || rate.Above(100.0) {
        return rateOld;
      }
    }
  }

  // ----- What the rate means

  /** A bound on the slope, in energy for each hour, between the present energy and each usable
      older slot. */
  predicate SlopesWithin(slots: seq<Slot>, energy: real, lo: real, hi: real)
    requires |slots| == LENGTH
  {
    forall i :: 0 <= i < LENGTH && slots[i].Usable() && slots[i].time != slots[0].time ==>
      SlopeWithin(slots[0].time - slots[i].time, energy - slots[i].energy.Value(), lo, hi)
  }

  /** The slope, 3600 times the difference over the age, is at least lo and at most hi. */
  predicate SlopeWithin(age: int, difference: real, lo: real, hi: real) {
    lo * Abs(age as real) <= 3600.0 * Abs(difference) <= hi * Abs(age as real)
  }

  /** One slot's share: its slope weighted with its squared age. */
  lemma WeightedSlope(age: int, difference: real, lo: real, hi: real, square: real, product: real)
    requires age != 0 ==> SlopeWithin(age, difference, lo, hi)
    requires square == (age * age) as real && product == Abs(-age as real * difference)
    ensures lo * square <= 3600.0 * product <= hi * square
  {
    var dt, de := Abs(age as real), Abs(difference);
    assert (age * age) as real == dt * dt;
    AbsOfProduct(-age as real, difference);
    assert Abs(-age as real) == dt;
    if age != 0 {
      Scale(dt, lo * dt, 3600.0 * de);
      Scale(dt, 3600.0 * de, hi * dt);
      Regroup(lo, dt);
      Regroup(hi, dt);
      assert dt * (3600.0 * de) == 3600.0 * (dt * de);
    }
  }

  lemma AbsOfProduct(x: real, y: real)
    ensures Abs(x * y) == Abs(x) * Abs(y)
  {
    assert (-x) * y == -(x * y) && x * (-y) == -(x * y) && (-x) * (-y) == x * y;
    if (x >= 0.0) == (y >= 0.0) {
      assert x * y >= 0.0;
    } else {
      assert x * y <= 0.0;
    }
  }

  lemma Scale(d: real, a: real, b: real)
    requires d >= 0.0 && a <= b
    ensures d * a <= d * b
  {
  }

  lemma Regroup(a: real, d: real)
    ensures d * (a * d) == a * (d * d)
  {
  }

  predicate Between(x: real, y: real, lo: real, hi: real) { lo * x <= 3600.0 * y <= hi * x }

  predicate Within(xs: seq<real>, ys: seq<real>, lo: real, hi: real) {
    |xs| == |ys| && forall i :: 0 <= i < |xs| ==> Between(xs[i], ys[i], lo, hi)
  }

  lemma {:induction false} SumAbove(xs: seq<real>, ys: seq<real>, k: nat, lo: real, hi: real, p: real, q: real)
    requires Within(xs, ys, lo, hi)
    requires k <= |xs| && p == SumTo(ys, k) && q == SumTo(xs, k)
    ensures lo * q <= 3600.0 * p
  {
    if k > 0 {
      SumAbove(xs, ys, k - 1, lo, hi, SumTo(ys, k - 1), SumTo(xs, k - 1));
      assert Between(xs[k - 1], ys[k - 1], lo, hi);
      Distribute(lo, SumTo(xs, k - 1), xs[k - 1]);
    }
  }

  lemma {:induction false} SumBelow(xs: seq<real>, ys: seq<real>, k: nat, lo: real, hi: real, p: real, q: real)
    requires Within(xs, ys, lo, hi)
    requires k <= |xs| && p == SumTo(ys, k) && q == SumTo(xs, k)
    ensures 3600.0 * p <= hi * q
  {
    if k > 0 {
      SumBelow(xs, ys, k - 1, lo, hi, SumTo(ys, k - 1), SumTo(xs, k - 1));
      assert Between(xs[k - 1], ys[k - 1], lo, hi);
      Distribute(hi, SumTo(xs, k - 1), xs[k - 1]);
    }
  }

  /** A slot's shares of the two sums, with its age and its distance from the energy. */
  lemma ShareOf(slots: seq<Slot>, energy: real, i: nat) returns (age: int, difference: real)
    requires i < |slots| && slots[i].Usable()
    ensures age == slots[0].time - slots[i].time && difference == energy - slots[i].energy.Value()
    ensures Squares(slots)[i] == (age * age) as real && Products(slots, energy)[i] == Abs(-age as real * difference)
  {
    age, difference := slots[0].time - slots[i].time, energy - slots[i].energy.Value();
    assert -(age as real) == (slots[i].time - slots[0].time) as real;
  }

  lemma SlotWithin(slots: seq<Slot>, energy: real, lo: real, hi: real, i: nat, square: real, product: real)
    requires |slots| == LENGTH && SlopesWithin(slots, energy, lo, hi) && i < LENGTH
    requires square == Squares(slots)[i] && product == Products(slots, energy)[i]
    ensures Between(square, product, lo, hi)
  {
    if slots[i].Usable() {
      var age, difference := ShareOf(slots, energy, i);
      WeightedSlope(age, difference, lo, hi, square, product);
    }
  }

  lemma {:induction false} SumSign(xs: seq<real>, k: nat)
    requires k <= |xs| && forall i :: 0 <= i < |xs| ==> xs[i] >= 0.0
    ensures SumTo(xs, k) >= 0.0
  {
    if k > 0 {
      SumSign(xs, k - 1);
    }
  }

  lemma SumsSign(slots: seq<Slot>, energy: real)
    ensures Sum(Squares(slots)) >= 0.0 && Sum(Products(slots, energy)) >= 0.0
  {
    forall i | 0 <= i < |slots| ensures Squares(slots)[i] >= 0.0 {
      assert SquaredAge(slots[0].time, slots[i].time) >= 0;
    }
    SumSign(Squares(slots), |slots|);
    SumSign(Products(slots, energy), |slots|);
  }

  lemma QuotientAbove(p: real, q: real, lo: real)
    requires q > 0.0 && lo * q <= 3600.0 * p
    ensures lo <= Fit(p, q)
  {
    var h := q / 3600.0;
    var r := p / h;
    assert r * h == p;
    assert lo * h <= p;
    if r < lo {
      RealMulMonotone(h, r, lo);
    }
  }

  lemma QuotientBelow(p: real, q: real, hi: real)
    requires q > 0.0 && 3600.0 * p <= hi * q
    ensures Fit(p, q) <= hi
  {
    var h := q / 3600.0;
    var r := p / h;
    assert r * h == p;
    assert p <= hi * h;
    if r > hi {
      RealMulMonotone(h, hi, r);
    }
  }

  lemma FitAbove(xs: seq<real>, ys: seq<real>, lo: real, hi: real)
    requires Within(xs, ys, lo, hi) && Sum(xs) > 0.0
    ensures lo <= Fit(Sum(ys), Sum(xs))
  {
    var p, q := Sum(ys), Sum(xs);
    SumAbove(xs, ys, |xs|, lo, hi, p, q);
    QuotientAbove(p, q, lo);
  }

  lemma FitBelow(xs: seq<real>, ys: seq<real>, lo: real, hi: real)
    requires Within(xs, ys, lo, hi) && Sum(xs) > 0.0
    ensures Fit(Sum(ys), Sum(xs)) <= hi
  {
    var p, q := Sum(ys), Sum(xs);
    SumBelow(xs, ys, |xs|, lo, hi, p, q);
    QuotientBelow(p, q, hi);
  }

  lemma SlotsWithin(slots: seq<Slot>, energy: real, lo: real, hi: real)
    requires |slots| == LENGTH && SlopesWithin(slots, energy, lo, hi)
    ensures Within(Squares(slots), Products(slots, energy), lo, hi)
  {
    var xs, ys := Squares(slots), Products(slots, energy);
    forall i | 0 <= i < LENGTH ensures Between(xs[i], ys[i], lo, hi) {
      SlotWithin(slots, energy, lo, hi, i, xs[i], ys[i]);
    }
  }

  /** The fitted rate is a weighted mean of the slopes, so it lies between any bounds on them. */
  lemma RawRateWithinSlopes(slots: seq<Slot>, energy: real, lo: real, hi: real)
    requires |slots| == LENGTH && Sum(Squares(slots)) != 0.0 && SlopesWithin(slots, energy, lo, hi)
    ensures lo <= RawRate(slots, energy) <= hi
  {
    var xs, ys := Squares(slots), Products(slots, energy);
    SumsSign(slots, energy);
    SlotsWithin(slots, energy, lo, hi);
    FitAbove(xs, ys, lo, hi);
    FitBelow(xs, ys, lo, hi);
  }

  /** Energy that rises or falls at a constant rate of at most 100 gives that rate. */
  lemma ConstantRateIsFound(slots: seq<Slot>, energy: real, rateOld: Number, r: real)
    requires |slots| == LENGTH && 0.0 < r <= 100.0
    requires Fittable(slots, energy) && !Poisoned(slots, LENGTH)
    requires SlopesWithin(slots, energy, r, r)
    ensures Rate(slots, energy, rateOld) == Num(r)
  {
    RawRateWithinSlopes(slots, energy, r, r);
  }

  predicate WithinOrNaN(n: Number) { n.NaN? || n.Within(0.0, 100.0) }

  /** Whether the rate is fitted at all. */
  predicate Fittable(slots: seq<Slot>, energy: real)
    requires |slots| == LENGTH
  {
    && energy >= 0.1 && !slots[0].energy.Below(0.1)
    && Sum(Squares(slots)) != 0.0 && UsableCount(slots, LENGTH) >= 3
  }

  /** A rate is a number within the limits or not a number; it is the latter exactly when the old rate is
      kept that is none, or the fit uses an energy that is none. */
  lemma RateStaysInRange(slots: seq<Slot>, energy: real, rateOld: Number)
    requires |slots| == LENGTH && WithinOrNaN(rateOld)
    ensures WithinOrNaN(Rate(slots, energy, rateOld))
    ensures !Poisoned(slots, LENGTH) && rateOld.Num? ==> Rate(slots, energy, rateOld).Num?
    ensures Poisoned(slots, LENGTH) && Fittable(slots, energy) ==> Rate(slots, energy, rateOld).NaN?
  {
    SumsSign(slots, energy);
    if Sum(Squares(slots)) != 0.0 {
      NonNegativeQuotient(Sum(Products(slots, energy)), Sum(Squares(slots)) / 3600.0);
    }
  }

  /** A slot that was filled, with an energy that is not 0. */
  predicate Filled(slots: seq<Slot>, i: nat)
    requires i < |slots|
  {
    slots[i].time != 0 && slots[i].energy != Num(0.0)
  }

  lemma {:induction false} UsableAtMost(slots: seq<Slot>, k: nat, i: nat, j: nat)
    requires k <= |slots| && i < j < |slots| && !Filled(slots, i) && !Filled(slots, j)
    ensures UsableCount(slots, k) <= k - (if i < k then 1 else 0) - (if j < k then 1 else 0)
  {
    if k > 0 {
      UsableAtMost(slots, k - 1, i, j);
    }
  }

  /** With two slots that are not filled there is nothing to fit, and the old rate is kept. */
  lemma FewSlotsKeepOldRate(slots: seq<Slot>, energy: real, rateOld: Number, i: nat, j: nat)
    requires |slots| == LENGTH && energy >= 0.1 && !slots[0].energy.Below(0.1)
    requires i < j < LENGTH && !Filled(slots, i) && !Filled(slots, j)
    ensures Rate(slots, energy, rateOld) == rateOld
  {
    UsableAtMost(slots, LENGTH, i, j);
  }

  /** Without any change of the energy, and with changes that are all too fast, the old rate is kept. */
  lemma ExtremeSlopesKeepOldRate(slots: seq<Slot>, energy: real, rateOld: Number, lo: real, hi: real)
    requires |slots| == LENGTH && energy >= 0.1 && !slots[0].energy.Below(0.1) && !Poisoned(slots, LENGTH)
    requires SlopesWithin(slots, energy, lo, hi) && (lo > 100.0 || lo == hi == 0.0)
    ensures Rate(slots, energy, rateOld) == rateOld
  {
    if Sum(Squares(slots)) != 0.0 {
      RawRateWithinSlopes(slots, energy, lo, hi);
    }
  }

  /** Three slots are filled, and one of them at another time than the newest one. */
  predicate HasFit(slots: seq<Slot>)
    requires |slots| == LENGTH
  {
    && (exists i :: 0 <= i < LENGTH && OthersFilled(slots, i))
    && (exists j :: 0 <= j < LENGTH && Filled(slots, j) && slots[j].time != slots[0].time)
  }

  predicate OthersFilled(slots: seq<Slot>, i: nat)
    requires |slots| == LENGTH && i < LENGTH
  {
    forall j :: 0 <= j < LENGTH && j != i ==> Filled(slots, j)
  }

  lemma CountedExactly(slots: seq<Slot>)
    requires |slots| == LENGTH
    ensures UsableCount(slots, LENGTH) >= 3 <==> exists i :: 0 <= i < LENGTH && OthersFilled(slots, i)
  {
    assert UsableCount(slots, 0) == 0;
    assert UsableCount(slots, 2) == UsableCount(slots, 1) + if Filled(slots, 1) then 1 else 0;
    assert UsableCount(slots, 4) == UsableCount(slots, 3) + if Filled(slots, 3) then 1 else 0;
    if Filled(slots, 0) && Filled(slots, 1) && Filled(slots, 2) {
      assert OthersFilled(slots, 3);
    } else if Filled(slots, 0) && Filled(slots, 1) && Filled(slots, 3) {
      assert OthersFilled(slots, 2);
    } else if Filled(slots, 0) && Filled(slots, 2) && Filled(slots, 3) {
      assert OthersFilled(slots, 1);
    } else if Filled(slots, 1) && Filled(slots, 2) && Filled(slots, 3) {
      assert OthersFilled(slots, 0);
    }
  }

  lemma SquareIsZero(newest: int, time: int)
    ensures SquaredAge(newest, time) >= 0 && (SquaredAge(newest, time) == 0 <==> time == newest)
  {
  }

  lemma {:induction false} SquaresSum(slots: seq<Slot>, squares: seq<real>, k: nat)
    requires |slots| == LENGTH && squares == Squares(slots) && k <= LENGTH
    ensures SumTo(squares, k) >= 0.0
    ensures SumTo(squares, k) != 0.0 <==> exists j :: 0 <= j < k && Filled(slots, j) && slots[j].time != slots[0].time
  {
    if k > 0 {
      SquaresSum(slots, squares, k - 1);
      SquareIsZero(slots[0].time, slots[k - 1].time);
    }
  }

  /** In the other cases the rate is the fitted one. */
  lemma OtherwiseRateIsFitted(slots: seq<Slot>, energy: real, rateOld: Number)
    requires |slots| == LENGTH && energy >= 0.1 && !slots[0].energy.Below(0.1) && !Poisoned(slots, LENGTH)
    ensures HasFit(slots) ==> Sum(Squares(slots)) != 0.0
    ensures if HasFit(slots) && 0.0 < RawRate(slots, energy) <= 100.0
            then Rate(slots, energy, rateOld) == Num(RawRate(slots, energy)) else Rate(slots, energy, rateOld) == rateOld
  {
    SumsSign(slots, energy);
    SquaresSum(slots, Squares(slots), LENGTH);
    CountedExactly(slots);
    if Sum(Squares(slots)) != 0.0 {
      NonNegativeQuotient(Sum(Products(slots, energy)), Sum(Squares(slots)) / 3600.0);
    }
  }

  /** Nothing is left in an almost empty battery to have a rate. */
  lemma EmptyHasNoRate(slots: seq<Slot>, energy: real, rateOld: Number)
    requires |slots| == LENGTH && (energy < 0.1 || slots[0].energy.Below(0.1))
    ensures Rate(slots, energy, rateOld) == Num(0.0)
  {
  }

  // ----- The fit has the least squares

  /** How far a line of slope m through the present energy misses the usable slots, in squares. Distances
      count without their sign. */
  function Misses(slots: seq<Slot>, energy: real, m: real, k: nat): real
    requires k <= |slots|
  {
    if k == 0 then 0.0
    else
      var s := slots[k - 1];
      Misses(slots, energy, m, k - 1) +
      if s.Usable() then Miss((slots[0].time - s.time) as real, energy - s.energy.Value(), m) else 0.0
  }

  /** The square of what is missing: the distance for each second, times 3600, from m for each hour. */
  function Miss(age: real, difference: real, m: real): real {
    (3600.0 * Abs(difference) - m * Abs(age)) * (3600.0 * Abs(difference) - m * Abs(age))
  }

  function Distances(slots: seq<Slot>, energy: real, k: nat): real
    requires k <= |slots|
  {
    if k == 0 then 0.0
    else
      Distances(slots, energy, k - 1) +
      if slots[k - 1].Usable() then Miss(0.0, energy - slots[k - 1].energy.Value(), 0.0) else 0.0
  }

  /** The misses as a function of the slope, from three sums. */
  function Quadratic(distances: real, products: real, squares: real, m: real): real {
    distances - 7200.0 * (m * products) + m * m * squares
  }

  lemma QuadraticsAdd(d: real, p: real, q: real, e: real, x: real, y: real, m: real, first: real, second: real)
    requires first == Quadratic(d, p, q, m) && second == Quadratic(e, x, y, m)
    ensures first + second == Quadratic(d + e, p + x, q + y, m)
  {
    Distribute(m, p, x);
    Distribute(m * m, q, y);
  }

  lemma MissIsQuadratic(slots: seq<Slot>, energy: real, m: real, i: nat, product: real, square: real)
    requires i < |slots| && slots[i].Usable()
    requires product == Products(slots, energy)[i] && square == Squares(slots)[i]
    ensures var difference := energy - slots[i].energy.Value();
            Miss((slots[0].time - slots[i].time) as real, difference, m) ==
              Quadratic(Miss(0.0, difference, 0.0), product, square, m)
  {
    var age, difference := ShareOf(slots, energy, i);
    MissOfAge(age, difference, m, square, product);
  }

  lemma MissOfAge(age: int, difference: real, m: real, square: real, product: real)
    requires square == (age * age) as real && product == Abs(-age as real * difference)
    ensures Miss(age as real, difference, m) == Quadratic(Miss(0.0, difference, 0.0), product, square, m)
  {
    var a, d := Abs(age as real), 3600.0 * Abs(difference);
    AbsOfProduct(-age as real, difference);
    assert Abs(-age as real) == a && 3600.0 * product == a * d;
    assert square == a * a;
    SquareOfDifference(d, m, a);
  }

  lemma SquareOfDifference(d: real, m: real, a: real)
    ensures (d - m * a) * (d - m * a) == d * d - 2.0 * (m * (a * d)) + m * m * (a * a)
  {
    var x := m * a;
    assert (d - x) * (d - x) == d * d - 2.0 * (d * x) + x * x;
    assert d * x == m * (a * d);
    assert x * x == m * m * (a * a);
  }

  lemma {:induction false} MissesAreQuadratic(slots: seq<Slot>, energy: real, m: real, k: nat)
    requires k <= |slots|
    ensures Misses(slots, energy, m, k) ==
              Quadratic(Distances(slots, energy, k), SumTo(Products(slots, energy), k), SumTo(Squares(slots), k), m)
  {
    if k > 0 {
      var x, y := Products(slots, energy)[k - 1], Squares(slots)[k - 1];
      var p, q, d := SumTo(Products(slots, energy), k - 1), SumTo(Squares(slots), k - 1), Distances(slots, energy, k - 1);
      MissesAreQuadratic(slots, energy, m, k - 1);
      if slots[k - 1].Usable() {
        var difference := energy - slots[k - 1].energy.Value();
        var miss, own := Miss((slots[0].time - slots[k - 1].time) as real, difference, m), Miss(0.0, difference, 0.0);
        MissIsQuadratic(slots, energy, m, k - 1, x, y);
        QuadraticsAdd(d, p, q, own, x, y, m, Misses(slots, energy, m, k - 1), miss);
      }
    }
  }

  /** A quadratic is least where its slope is fitted. */
  lemma QuadraticIsLeast(d: real, p: real, q: real, m: real, r: real)
    requires q > 0.0 && r * q == 3600.0 * p
    ensures Quadratic(d, p, q, r) <= Quadratic(d, p, q, m)
    ensures m != r ==> Quadratic(d, p, q, r) < Quadratic(d, p, q, m)
  {
    var x := m - r;
    var more := x * x * q;
    CompleteSquare(p, q, m, r, x, more);
    SquareIsPositive(x, q, more);
    assert Quadratic(d, p, q, m) == Quadratic(d, p, q, r) + more;
  }

  lemma CompleteSquare(p: real, q: real, m: real, r: real, x: real, more: real)
    requires r * q == 3600.0 * p && x == m - r && more == x * x * q
    ensures -7200.0 * (m * p) + m * m * q == -7200.0 * (r * p) + r * r * q + more
  {
    assert 7200.0 * (m * p) == 2.0 * (m * (r * q));
    assert 7200.0 * (r * p) == 2.0 * (r * (r * q));
    assert (m - r) * (m - r) * q == m * m * q - 2.0 * (m * (r * q)) + r * r * q;
  }

  lemma ProductIsPositive(a: real, b: real, c: real)
    requires a > 0.0 && b > 0.0 && c == a * b
    ensures c > 0.0
  {
    RealMulMonotone(a, 0.0, b);
  }

  lemma SquareIsPositive(x: real, q: real, more: real)
    requires q > 0.0 && more == x * x * q
    ensures more >= 0.0 && (x != 0.0 ==> more > 0.0)
  {
    if x != 0.0 {
      var a, y := Abs(x), x * x;
      assert y == a * a;
      ProductIsPositive(a, a, y);
      ProductIsPositive(y, q, more);
    }
  }

  lemma FitTimesSquares(p: real, q: real)
    requires q != 0.0
    ensures Fit(p, q) * q == 3600.0 * p
  {
    var h := q / 3600.0;
    assert p / h * h == p;
  }

  lemma FitIsLeast(d: real, p: real, q: real, m: real, r: real)
    requires q > 0.0 && r == Fit(p, q)
    ensures Quadratic(d, p, q, r) <= Quadratic(d, p, q, m)
    ensures m != r ==> Quadratic(d, p, q, r) < Quadratic(d, p, q, m)
  {
    FitTimesSquares(p, q);
    QuadraticIsLeast(d, p, q, m, r);
  }

  /** The fitted rate is the one slope that misses the usable slots least: any other one misses them by
      more. */
  lemma FitHasLeastSquares(slots: seq<Slot>, energy: real, m: real)
    requires |slots| == LENGTH && Sum(Squares(slots)) != 0.0
    ensures var r := RawRate(slots, energy);
            && Misses(slots, energy, r, LENGTH) <= Misses(slots, energy, m, LENGTH)
            && (m != r ==> Misses(slots, energy, r, LENGTH) < Misses(slots, energy, m, LENGTH))
  {
    var r := RawRate(slots, energy);
    SumsSign(slots, energy);
    MissesAreQuadratic(slots, energy, m, LENGTH);
    MissesAreQuadratic(slots, energy, r, LENGTH);
    FitIsLeast(Distances(slots, energy, LENGTH), Sum(Products(slots, energy)), Sum(Squares(slots)), m, r);
  }

  /** Slots whose energies are all numbers. */
  predicate Clean(slots: seq<Slot>) { forall i :: 0 <= i < |slots| ==> slots[i].energy.Num? }

  lemma {:induction false} CleanIsNotPoisoned(slots: seq<Slot>, k: nat)
    requires Clean(slots) && k <= |slots|
    ensures !Poisoned(slots, k)
  {
    if k > 0 {
      CleanIsNotPoisoned(slots, k - 1);
    }
  }

  lemma NonNegativeQuotient(p: real, q: real)
    requires p >= 0.0 && q > 0.0
    ensures p / q >= 0.0
  {
  }

  /** After a push the newest slot has the pushed energy and all slots but the oldest are kept. Pushing
      the same energy again changes nothing if the energy is a number. NaN is pushed again, which changes
      something unless all slots hold it already with the present time. */
  lemma PushKeepsNewest(slots: seq<Slot>, energy: Number, now: int, later: int)
    requires |slots| == LENGTH
    ensures var p := Pushed(slots, energy, now);
            && p[0].energy == energy
            && (p == slots || (p[0].time == now && p[1..] == slots[..LENGTH - 1]))
            && (Pushed(p, energy, later) == p <==> energy.Num? || p == [Slot(NaN, later), p[0], p[1], p[2]])
  {
  }
}
