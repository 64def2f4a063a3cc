/** src/up-daemon.c: the composite battery that the display device shows. */
module DisplayBattery {
  import opened Doubles
  import opened UpTypes
  import opened Wrappers

  /** The properties of a device that the composite depends on. */
  datatype Source = Source(
    kind: DeviceKind, state: DeviceState, percentage: Number,
    energy: Number, energyFull: real, energyRate: Number,
    timeToEmpty: int, timeToFull: int, powerSupply: bool)

  datatype Total = Total(
    kind: DeviceKind, state: DeviceState, percentage: Number,
    energy: Number, energyFull: real, energyRate: Number,
    timeToEmpty: int, timeToFull: int)
  {
    /** The test for a change, in which a value that is not a number differs even from itself. */
    predicate Same(t: Total) {
      && kind == t.kind && state == t.state && energy.Equals(t.energy) && energyFull == t.energyFull
      && energyRate.Equals(t.energyRate) && timeToEmpty == t.timeToEmpty && timeToFull == t.timeToFull
      && percentage.Equals(t.percentage)
    }

    predicate AllNumbers() { energy.Num? && energyRate.Num? && percentage.Num? }
  }

  const NoTotal: Total := Total(KindUnknown, Unknown, Num(0.0), Num(0.0), 0.0, Num(0.0), 0, 0)

  predicate Counts(d: Source) { d.kind == Battery && d.powerSupply }

  function Batteries(devices: seq<Source>): (r: seq<Source>)
    ensures forall i :: 0 <= i < |r| ==> Counts(r[i]) && r[i] in devices
  {
    if devices == [] then []
    else
      var last := devices[|devices| - 1];
      Batteries(devices[..|devices| - 1]) + if Counts(last) then [last] else []
  }

  // ----- Closed forms

  predicate Has(batteries: seq<Source>, state: DeviceState) {
    exists i :: 0 <= i < |batteries| && batteries[i].state == state
  }

  predicate Waiting(state: DeviceState) { state == PendingCharge || state == FullyCharged }

  /** The state of the first battery that waits for charge or is full. */
  function FirstWaiting(batteries: seq<Source>): DeviceState {
    if batteries == [] then Unknown
    else if Waiting(batteries[0].state) then batteries[0].state
    else FirstWaiting(batteries[1..])
  }

  function CompositeState(batteries: seq<Source>): DeviceState {
    if Has(batteries, Charging) then Charging
    else if Has(batteries, Discharging) then Discharging
    else FirstWaiting(batteries)
  }

  function Sum(batteries: seq<Source>, f: Source -> real): real {
    if batteries == [] then 0.0 else Sum(batteries[..|batteries| - 1], f) + f(batteries[|batteries| - 1])
  }

  function NumberSum(batteries: seq<Source>, f: Source -> Number): Number {
    if batteries == [] then Num(0.0)
    else Add(NumberSum(batteries[..|batteries| - 1], f), f(batteries[|batteries| - 1]))
  }

  function SumInt(batteries: seq<Source>, f: Source -> int): int {
    if batteries == [] then 0 else SumInt(batteries[..|batteries| - 1], f) + f(batteries[|batteries| - 1])
  }

  const Energy: Source -> Number := (d: Source) => d.energy
  const EnergyFull: Source -> real := (d: Source) => d.energyFull
  const EnergyRate: Source -> Number := (d: Source) => d.energyRate
  const Percentage: Source -> Number := (d: Source) => d.percentage
  const TimeToEmpty: Source -> int := (d: Source) => d.timeToEmpty
  const TimeToFull: Source -> int := (d: Source) => d.timeToFull

  /** The sums over the batteries. */
  function Summed(batteries: seq<Source>): Total {
    Total(if batteries == [] then KindUnknown else Battery, CompositeState(batteries),
          NumberSum(batteries, Percentage), NumberSum(batteries, Energy), Sum(batteries, EnergyFull),
          NumberSum(batteries, EnergyRate), SumInt(batteries, TimeToEmpty), SumInt(batteries, TimeToFull))
  }

  function OfUps(d: Source): Total {
    Total(d.kind, d.state, d.percentage, d.energy, d.energyFull, d.energyRate, d.timeToEmpty, d.timeToFull)
  }

  function FirstUps(devices: seq<Source>): (n: nat)
    ensures n <= |devices|
    ensures forall i :: 0 <= i < n ==> devices[i].kind != Ups
    ensures n < |devices| ==> devices[n].kind == Ups
  {
    if devices == [] || devices[0].kind == Ups then 0 else FirstUps(devices[1..]) + 1
  }

  function Percent(energy: Number, full: real): Number
    requires full > 0.0
  {
    if energy.NaN? then NaN else Num(100.0 * energy.x / full)
  }

  /** With several batteries the percentage and the remaining time follow from the total energies. */
  function Weighted(t: Total): Total {
    var percentage := if t.energyFull > 0.0 then Percent(t.energy, t.energyFull) else t.percentage;
    if t.energyRate.Above(0.0) && t.state == Discharging
    then t.(percentage := percentage, timeToEmpty := Seconds(t.energy, t.energyRate.x))
    else if t.energyRate.Above(0.0) && t.state == Charging
    then t.(percentage := percentage, timeToFull := Seconds(Missing(t.energyFull, t.energy), t.energyRate.x))
    else t.(percentage := percentage)
  }

  /** A UPS takes the place of all batteries. The ones in front of it still count when it is decided
      whether there are several. */
  function Composite(devices: seq<Source>): Total {
    var n := FirstUps(devices);
    var batteries := Batteries(devices[..n]);
    var total := if n < |devices| then OfUps(devices[n]) else Summed(batteries);
    if |batteries| <= 1 then total else Weighted(total)
  }

  // ----- The fold that the daemon computes

  function NextState(total: DeviceState, state: DeviceState): DeviceState {
    if state == Charging then Charging
    else if state == Discharging && total != Charging then Discharging
    else if state == PendingCharge && (total == Unknown || total == PendingCharge) then PendingCharge
    else if state == FullyCharged && total == Unknown then FullyCharged
    else total
  }

  lemma {:induction false} FirstWaitingSnoc(batteries: seq<Source>, d: Source)
    ensures FirstWaiting(batteries + [d])
         == if FirstWaiting(batteries) != Unknown then FirstWaiting(batteries)
            else if Waiting(d.state) then d.state else Unknown
  {
    if batteries != [] {
      assert (batteries + [d])[1..] == batteries[1..] + [d];
      FirstWaitingSnoc(batteries[1..], d);
    } else {
      assert ([d])[1..] == [];
    }
  }

  /** The fold keeps to the closed form. */
  lemma NextStateIsComposite(batteries: seq<Source>, d: Source)
    ensures CompositeState(batteries + [d]) == NextState(CompositeState(batteries), d.state)
  {
    var all := batteries + [d];
    FirstWaitingSnoc(batteries, d);
    forall s: DeviceState ensures Has(all, s) <==> Has(batteries, s) || d.state == s {
      assert all[|batteries|] == d;
      assert forall i :: 0 <= i < |batteries| ==> all[i] == batteries[i];
    }
    FirstWaitingValues(batteries);
  }

  lemma {:induction false} FirstWaitingValues(batteries: seq<Source>)
    ensures FirstWaiting(batteries) == Unknown || Waiting(FirstWaiting(batteries))
  {
    if batteries != [] {
      FirstWaitingValues(batteries[1..]);
    }
  }

  /** The totals after one more battery. */
  function Added(t: Total, d: Source): Total {
    Total(Battery, NextState(t.state, d.state), Add(t.percentage, d.percentage), Add(t.energy, d.energy),
          t.energyFull + d.energyFull, Add(t.energyRate, d.energyRate),
          t.timeToEmpty + d.timeToEmpty, t.timeToFull + d.timeToFull)
  }

  lemma SummedSnoc(batteries: seq<Source>, d: Source)
    ensures Summed(batteries + [d]) == Added(Summed(batteries), d)
  {
    NextStateIsComposite(batteries, d);
    assert (batteries + [d])[..|batteries|] == batteries;
  }

  class DisplayDaemon {
    var kind: DeviceKind
    var state: DeviceState
    var percentage: Number
    var energy: Number
    var energyFull: real
    var energyRate: Number
    var timeToEmpty: int
    var timeToFull: int
    // The display device.
    var shown: Total
    var isPresent: bool

    ghost function Cached(): Total
      reads this
    {
      Total(kind, state, percentage, energy, energyFull, energyRate, timeToEmpty, timeToFull)
    }

    /** The display device agrees with the cached fields, and is present exactly when it shows
        something, although the test for a change does not look at its presence. */
    ghost predicate Valid()
      reads this
    {
      shown == Cached() && (isPresent <==> kind != KindUnknown)
    }

    constructor ()
      ensures Valid() && Cached() == NoTotal
    {
      kind, state, percentage, energy, energyFull := KindUnknown, Unknown, Num(0.0), Num(0.0), 0.0;
      energyRate, timeToEmpty, timeToFull := Num(0.0), 0, 0;
      shown, isPresent := NoTotal, false;
    }

    method Update(devices: seq<Source>) returns (changed: bool)
      requires Valid()
      modifies this
      ensures Valid() && Cached() == shown == Composite(devices)
      ensures isPresent <==> Composite(devices).kind != KindUnknown
      ensures changed <==> !old(Cached()).Same(Composite(devices))
    {
      var total, present := Combine(devices);
      changed := Show(total, present);
    }

    method Show(total: Total, present: bool) returns (changed: bool)
      requires Valid() && (present <==> total.kind != KindUnknown)
      modifies this
      ensures Valid() && Cached() == total
      ensures changed <==> !old(Cached()).Same(total)
    {
      if kind == total.kind && state == total.state && energy.Equals(total.energy) && energyFull == total.energyFull &&
         energyRate.Equals(total.energyRate) && timeToEmpty == total.timeToEmpty && timeToFull == total.timeToFull &&
         percentage.Equals(total.percentage) {
        return false;
      }
      kind, state, energy, energyFull := total.kind, total.state, total.energy, total.energyFull;
      energyRate, timeToEmpty, timeToFull := total.energyRate, total.timeToEmpty, total.timeToFull;
      percentage := total.percentage;
      shown, isPresent := total, present;
      return true;
    }
  }

  method Combine(devices: seq<Source>) returns (total: Total, present: bool)
    ensures total == Composite(devices) && (present <==> total.kind != KindUnknown)
  {
    var numBatteries;
    total, numBatteries, present := Gather(devices);
    if numBatteries > 1 {
      total := Recalculate(total);
    }
  }

  /** The loop over the devices, which a UPS ends. */
  method Gather(devices: seq<Source>) returns (total: Total, numBatteries: nat, present: bool)
    ensures var n := FirstUps(devices);
            && numBatteries == |Batteries(devices[..n])|
            && total == (if n < |devices| then OfUps(devices[n]) else Summed(Batteries(devices[..n])))
    ensures present <==> total.kind != KindUnknown
  {
    total, numBatteries, present := NoTotal, 0, false;
    ghost var n := FirstUps(devices);
    ghost var batteries := [];
    for i := 0 to |devices|
      invariant i <= n
      invariant batteries == Batteries(devices[..i]) && numBatteries == |batteries|
      invariant total == Summed(batteries)
      invariant present <==> total.kind != KindUnknown
    {
      var d := devices[i];
      if d.kind == Ups {
        total, present := OfUps(d), true;
        return;
      }
      assert devices[..i + 1][..i] == devices[..i];
      if d.kind != Battery || !d.powerSupply {
        continue;
      }
      SummedSnoc(batteries, d);
      batteries := batteries + [d];
      total := AddBattery(total, d);
      present := true;
      numBatteries := numBatteries + 1;
    }
    assert devices[..|devices|] == devices;
  }

  method AddBattery(total: Total, d: Source) returns (r: Total)
    ensures r == Added(total, d)
  {
    var newState := total.state;
    if d.state == Charging {
      newState := Charging;
    } else if d.state == Discharging && newState != Charging {
      newState := Discharging;
    } else if d.state == PendingCharge && (newState == Unknown || newState == PendingCharge) {
      newState := PendingCharge;
    } else if d.state == FullyCharged && newState == Unknown {
      newState := FullyCharged;
    }
    r := Total(Battery, newState, Add(total.percentage, d.percentage), Add(total.energy, d.energy),
               total.energyFull + d.energyFull, Add(total.energyRate, d.energyRate),
               total.timeToEmpty + d.timeToEmpty, total.timeToFull + d.timeToFull);
  }

  method Recalculate(total: Total) returns (r: Total)
    ensures r == Weighted(total)
  {
    r := total;
    if total.energyFull > 0.0 {
      r := r.(percentage := Percent(total.energy, total.energyFull));
    }
    if total.energyRate.Above(0.0) {
      if total.state == Discharging {
        r := r.(timeToEmpty := Seconds(total.energy, total.energyRate.x));
      } else if total.state == Charging {
        r := r.(timeToFull := Seconds(Missing(total.energyFull, total.energy), total.energyRate.x));
      }
    }
  }

  // ----- Properties of the composite

  /** A composite is shown again at every update as long as one of its values is not a number. */
  lemma SameAsItself(t: Total)
    ensures t.Same(t) <==> t.AllNumbers()
  {
  }

  predicate AnyNaN(batteries: seq<Source>, f: Source -> Number) {
    exists i :: 0 <= i < |batteries| && f(batteries[i]).NaN?
  }

  /** A sum is a number exactly when all its parts are, and then it is their sum. */
  lemma {:induction false} NumberSumIsSum(batteries: seq<Source>, f: Source -> Number, g: Source -> real)
    requires forall i :: 0 <= i < |batteries| ==> g(batteries[i]) == f(batteries[i]).Value()
    ensures NumberSum(batteries, f) == if AnyNaN(batteries, f) then NaN else Num(Sum(batteries, g))
  {
    if batteries != [] {
      var n := |batteries| - 1;
      var init := batteries[..n];
      NumberSumIsSum(init, f, g);
      if AnyNaN(init, f) {
        var i :| 0 <= i < |init| && f(init[i]).NaN?;
        assert f(batteries[i]).NaN?;
      }
      if AnyNaN(batteries, f) && f(batteries[n]).Num? {
        var i :| 0 <= i < |batteries| && f(batteries[i]).NaN?;
        assert f(init[i]).NaN?;
      }
    }
  }

  const EnergyValue: Source -> real := (d: Source) => d.energy.Value()
  const PercentageValue: Source -> real := (d: Source) => d.percentage.Value()

  /** Every battery is charged to between lo and hi percent of its full energy. */
  predicate RatiosWithin(batteries: seq<Source>, lo: real, hi: real) {
    forall i :: 0 <= i < |batteries| ==> RatioWithin(batteries[i], lo, hi)
  }

  predicate RatioWithin(d: Source, lo: real, hi: real) {
    d.energy.Num? && lo * d.energyFull <= 100.0 * d.energy.x <= hi * d.energyFull
  }

  lemma {:induction false} SumAbove(batteries: seq<Source>, lo: real, hi: real, energy: real, full: real)
    requires RatiosWithin(batteries, lo, hi)
    requires energy == Sum(batteries, EnergyValue) && full == Sum(batteries, EnergyFull)
    ensures lo * full <= 100.0 * energy
  {
    if batteries != [] {
      var n := |batteries| - 1;
      SumAbove(batteries[..n], lo, hi, Sum(batteries[..n], EnergyValue), Sum(batteries[..n], EnergyFull));
      assert RatioWithin(batteries[n], lo, hi);
      Distribute(lo, Sum(batteries[..n], EnergyFull), batteries[n].energyFull);
    }
  }

  lemma {:induction false} SumBelow(batteries: seq<Source>, lo: real, hi: real, energy: real, full: real)
    requires RatiosWithin(batteries, lo, hi)
    requires energy == Sum(batteries, EnergyValue) && full == Sum(batteries, EnergyFull)
    ensures 100.0 * energy <= hi * full
  {
    if batteries != [] {
      var n := |batteries| - 1;
      SumBelow(batteries[..n], lo, hi, Sum(batteries[..n], EnergyValue), Sum(batteries[..n], EnergyFull));
      assert RatioWithin(batteries[n], lo, hi);
      Distribute(hi, Sum(batteries[..n], EnergyFull), batteries[n].energyFull);
    }
  }

  lemma PercentWithin(energy: real, full: real, lo: real, hi: real)
    requires full > 0.0 && lo * full <= 100.0 * energy <= hi * full
    ensures Percent(Num(energy), full).Within(lo, hi)
  {
    RealQuotientBounds(100.0 * energy, full, lo, hi);
  }

  lemma CompositeOfBatteries(devices: seq<Source>)
    requires FirstUps(devices) == |devices| && |Batteries(devices)| >= 2
    ensures Composite(devices) == Weighted(Summed(Batteries(devices)))
  {
    assert devices[..|devices|] == devices;
  }

  lemma RatiosAreNumbers(batteries: seq<Source>, lo: real, hi: real)
    requires RatiosWithin(batteries, lo, hi)
    ensures NumberSum(batteries, Energy) == Num(Sum(batteries, EnergyValue))
  {
    forall i | 0 <= i < |batteries| ensures Energy(batteries[i]).Num? {
      assert RatioWithin(batteries[i], lo, hi);
    }
    NumberSumIsSum(batteries, Energy, EnergyValue);
  }

  lemma SumsWithin(batteries: seq<Source>, lo: real, hi: real, energy: real, full: real)
    requires RatiosWithin(batteries, lo, hi) && full > 0.0
    requires energy == Sum(batteries, EnergyValue) && full == Sum(batteries, EnergyFull)
    ensures Percent(Num(energy), full).Within(lo, hi)
  {
    SumAbove(batteries, lo, hi, energy, full);
    SumBelow(batteries, lo, hi, energy, full);
    PercentWithin(energy, full, lo, hi);
  }

  lemma SummedPercentage(batteries: seq<Source>, lo: real, hi: real)
    requires Sum(batteries, EnergyFull) > 0.0 && RatiosWithin(batteries, lo, hi)
    ensures Weighted(Summed(batteries)).percentage.Within(lo, hi)
  {
    var t := Summed(batteries);
    RatiosAreNumbers(batteries, lo, hi);
    SumsWithin(batteries, lo, hi, t.energy.x, t.energyFull);
    assert Weighted(t).percentage == Percent(t.energy, t.energyFull);
  }

  /** With several batteries and no UPS the percentage lies between the smallest and the largest
      percentage of a single battery's energy. */
  lemma PercentageIsBetween(devices: seq<Source>, lo: real, hi: real)
    requires FirstUps(devices) == |devices|
    requires var b := Batteries(devices); |b| >= 2 && Sum(b, EnergyFull) > 0.0 && RatiosWithin(b, lo, hi)
    ensures Composite(devices).percentage.Within(lo, hi)
  {
    CompositeOfBatteries(devices);
    SummedPercentage(Batteries(devices), lo, hi);
  }

  /** The percentage of a composite without a UPS is a number exactly when those values of all batteries
      are from which it is made. */
  lemma PercentageIsNumberExactly(devices: seq<Source>)
    requires FirstUps(devices) == |devices|
    ensures var b := Batteries(devices);
            Composite(devices).percentage.NaN? <==>
              if |b| >= 2 && Sum(b, EnergyFull) > 0.0 then AnyNaN(b, Energy) else AnyNaN(b, Percentage)
  {
    var b := Batteries(devices);
    NumberSumIsSum(b, Energy, EnergyValue);
    NumberSumIsSum(b, Percentage, PercentageValue);
    if |b| >= 2 {
      CompositeOfBatteries(devices);
      WeightedIsNumber(Summed(b));
    } else {
      assert devices[..|devices|] == devices;
    }
  }

  lemma WeightedIsNumber(t: Total)
    ensures Weighted(t).percentage.NaN? <==> if t.energyFull > 0.0 then t.energy.NaN? else t.percentage.NaN?
  {
  }

  lemma QuotientAtMost(x: real, y: real, n: real)
    requires y > 0.0
    ensures x / y <= n <==> x <= n * y
  {
    RealQuotient(x, y);
    if x / y < n {
      RealMulMonotone(y, x / y, n);
    }
    if n < x / y {
      RealMulMonotone(y, n, x / y);
    }
  }

  lemma WeightedAtMost100(t: Total)
    ensures Weighted(t).percentage.AtMost(100.0) <==>
              if t.energyFull > 0.0 then t.energy.AtMost(t.energyFull) else t.percentage.AtMost(100.0)
  {
    if t.energyFull > 0.0 && t.energy.Num? {
      QuotientAtMost(100.0 * t.energy.x, t.energyFull, 100.0);
    }
  }

  /** When a composite without a UPS is at most full: several batteries whose full energies are known
      are so exactly when they do not hold more than that, and others exactly when their percentages
      sum to at most 100. */
  lemma PercentageIsAtMost100(devices: seq<Source>)
    requires FirstUps(devices) == |devices|
    ensures var b := Batteries(devices);
            Composite(devices).percentage.AtMost(100.0) <==>
              if |b| >= 2 && Sum(b, EnergyFull) > 0.0 then NumberSum(b, Energy).AtMost(Sum(b, EnergyFull))
              else NumberSum(b, Percentage).AtMost(100.0)
  {
    var b := Batteries(devices);
    if |b| >= 2 {
      CompositeOfBatteries(devices);
      WeightedAtMost100(Summed(b));
    } else {
      assert devices[..|devices|] == devices;
    }
  }

  /** Recalculating changes nothing of a total. */
  predicate IsFixed(t: Total) {
    && (t.energyFull > 0.0 ==> t.percentage == Percent(t.energy, t.energyFull))
    && (t.energyRate.Above(0.0) && t.state == Discharging ==> t.timeToEmpty == Seconds(t.energy, t.energyRate.x))
    && (t.energyRate.Above(0.0) && t.state == Charging ==>
          t.timeToFull == Seconds(Missing(t.energyFull, t.energy), t.energyRate.x))
  }

  /** Neither batteries behind a UPS nor other devices matter, and those in front of it only by being
      one or several: several make its percentage and its remaining time be recomputed, so that the UPS
      is shown as it is if and only if there are not several or recomputing changes nothing. */
  lemma UpsReplacesBatteries(devices: seq<Source>)
    requires FirstUps(devices) < |devices|
    ensures var n := FirstUps(devices);
            var c, u := Composite(devices), OfUps(devices[n]);
            && c.kind == Ups && c.state == u.state && c.energy == u.energy && c.energyRate == u.energyRate
            && c.energyFull == u.energyFull
            && (c == u <==> |Batteries(devices[..n])| <= 1 || IsFixed(u))
            && (|Batteries(devices[..n])| >= 2 ==> IsFixed(c))
            && (u.state != Discharging || !u.energyRate.Above(0.0) ==> c.timeToEmpty == u.timeToEmpty)
            && (u.state != Charging || !u.energyRate.Above(0.0) ==> c.timeToFull == u.timeToFull)
            && (u.energyFull <= 0.0 ==> c.percentage == u.percentage)
  {
  }

  /** Without charging and discharging batteries the composite is pending exactly when the first
      waiting battery is, so the order of the list decides between pending and full. */
  lemma PendingDependsOnOrder(batteries: seq<Source>)
    requires !Has(batteries, Charging) && !Has(batteries, Discharging)
    ensures CompositeState(batteries) == PendingCharge <==>
              exists i :: 0 <= i < |batteries| && batteries[i].state == PendingCharge &&
                          forall j :: 0 <= j < i ==> !Waiting(batteries[j].state)
  {
    FirstWaitingIsFirst(batteries);
  }

  lemma {:induction false} FirstWaitingIsFirst(batteries: seq<Source>)
    ensures FirstWaiting(batteries) == PendingCharge <==>
              exists i :: 0 <= i < |batteries| && batteries[i].state == PendingCharge &&
                          forall j :: 0 <= j < i ==> !Waiting(batteries[j].state)
  {
    if batteries != [] && !Waiting(batteries[0].state) {
      var rest := batteries[1..];
      FirstWaitingIsFirst(rest);
      if FirstWaiting(rest) == PendingCharge {
        var i :| 0 <= i < |rest| && rest[i].state == PendingCharge && forall j :: 0 <= j < i ==> !Waiting(rest[j].state);
        assert batteries[i + 1] == rest[i];
        assert forall j :: 1 <= j < i + 1 ==> batteries[j] == rest[j - 1];
      }
      if i :| 0 <= i < |batteries| && batteries[i].state == PendingCharge &&
              forall j :: 0 <= j < i ==> !Waiting(batteries[j].state) {
        assert rest[i - 1] == batteries[i];
        assert forall j :: 0 <= j < i - 1 ==> rest[j] == batteries[j + 1];
      }
    }
  }
}
