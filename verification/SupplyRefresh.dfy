/**
 src/linux/up-device-supply.c: one refresh of a battery. The values read from sysfs are the
 argument, in Wh, Ah, V and W; a file that is missing reads as 0.
 */
module SupplyRefresh {
  import opened Doubles
  import opened RateEstimator
  import opened UpTypes
  import opened Wrappers

  datatype Reading = Reading(
    present: bool,
    chargeNow: real, chargeAvg: real, chargeFull: real, chargeFullDesign: real,
    energyNow: real, energyAvg: real, energyFull: real, energyFullDesign: real,
    hasChargeFiles: bool, hasEnergyFiles: bool,
    voltageMinDesign: real, voltageMaxDesign: real, voltagePresent: real, voltageNow: real, voltageAvg: real,
    isUsb: bool, isLithiumIon: bool,
    status: DeviceState,
    powerNow: real, currentNow: real,
    hasCapacity: bool, capacity: real,
    acOnline: Option<bool>, batteries: nat,
    timeToEmptyNow: Option<int>, timeToFullNow: Option<int>,
    now: int)

  /** The fields of the device that a refresh keeps to itself. */
  datatype Private = Private(
    hasColdplugValues: bool, chargeUnits: bool,
    voltageDesign: real, voltageMinDesign: real, voltageMaxDesign: real)

  /** The properties of the device that a refresh sets. */
  datatype Properties = Properties(
    chargeFullDesign: real, energy: Number, energyFull: real, energyRate: Number,
    percentage: Number, state: DeviceState, voltage: real, timeToEmpty: int, timeToFull: int)

  datatype Supply = Supply(priv: Private, props: Properties, slots: seq<Slot>, rateOld: Number)

  const NoPrivate: Private := Private(false, false, 0.0, 0.0, 0.0)
  const NoProperties: Properties := Properties(0.0, Num(0.0), 0.0, Num(0.0), Num(0.0), Unknown, 0.0, 0, 0)
  const Reset: Supply := Supply(NoPrivate, NoProperties, Cleared, Num(0.0))

  function Clamp(x: real, lo: real, hi: real): (r: real)
    requires lo <= hi
    ensures lo <= r <= hi && (lo <= x <= hi ==> r == x)
  {
    if x > hi then hi else if x < lo then lo else x
  }

  function ClampNumber(n: Number, lo: real, hi: real): (r: Number)
    requires lo <= hi
    ensures if n.NaN? then r.NaN? else r.Within(lo, hi) && (n.Within(lo, hi) ==> r == n)
  {
    if n.NaN? then NaN else Num(Clamp(n.x, lo, hi))
  }

  /** `round`: to nearest, halves away from zero. */
  function Round(x: real): (n: int)
    ensures n as real - 0.5 <= x <= n as real + 0.5
  {
    if x >= 0.0 then (x + 0.5).Floor else -((-x + 0.5).Floor)
  }

  function OrElse(x: real, y: real): real { if x < 0.01 then y else x }

  // ----- Values that are read once

  /** The voltage that converts charge to energy. */
  function DesignVoltage(r: Reading): (v: real)
    ensures v > 1.0
  {
    if r.voltageMaxDesign > 1.0 then r.voltageMaxDesign
    else if r.voltageMinDesign > 1.0 then r.voltageMinDesign
    else if r.voltagePresent > 1.0 then r.voltagePresent
    else if r.voltageNow > 1.0 then r.voltageNow
    else if r.isUsb then 5.0
    else 10.0
  }

  predicate UnitsChanged(chargeUnits: bool, r: Reading) {
    if chargeUnits then !r.hasChargeFiles else !r.hasEnergyFiles
  }

  function PresentVoltage(r: Reading): real { OrElse(r.voltageNow, r.voltageAvg) }

  /** The values that do not change at runtime, read on the first refresh and when the units of the
      battery change. */
  function Coldplugged(s: Supply, r: Reading): Supply {
    if s.priv.hasColdplugValues && !UnitsChanged(s.priv.chargeUnits, r) then s
    else
      var design := DesignVoltage(r);
      var guess := (r.voltageMinDesign == 0.0 || r.voltageMaxDesign == 0.0) && r.isLithiumIon && design < 4.25;
      var charges := r.energyFull < 0.01;
      var full := if charges then r.chargeFull * design else r.energyFull;
      var fullDesign := if charges then r.chargeFullDesign * design else r.energyFullDesign;
      s.(priv := Private(true, s.priv.chargeUnits || charges, design,
                         if guess && r.voltageMinDesign == 0.0 then 3.0 else r.voltageMinDesign,
                         if guess && r.voltageMaxDesign == 0.0 then 4.2 else r.voltageMaxDesign),
         props := s.props.(chargeFullDesign := r.chargeFullDesign,
                           energyFull := if full < 0.01 && fullDesign > 0.01 then fullDesign else full,
                           voltage := PresentVoltage(r)))
  }

  // ----- Energy and the rate that the hardware reports

  function ReportedEnergy(priv: Private, r: Reading): real {
    var energy := OrElse(r.energyNow, r.energyAvg);
    if Abs(r.powerNow) < 0.01 && energy < 0.01 then OrElse(r.chargeNow, r.chargeAvg) * priv.voltageDesign
    else energy
  }

  /** The reported rate; 0 when it is not below the sanity limit. */
  function ReportedRate(priv: Private, props: Properties, r: Reading): real {
    var power := Abs(r.powerNow);
    var rate :=
      if power >= 0.01 then power
      else if r.chargeFull != 0.0 || props.chargeFullDesign != 0.0 then Abs(r.currentNow) * priv.voltageDesign
      else Abs(r.currentNow);
    if rate == 65535.0 || rate > 100.0 then 0.0 else rate
  }

  // ----- Percentage

  function FMax(x: real, y: real): real { if x < y then y else x }
  function FMin(x: real, y: real): real { if x < y then x else y }

  function VoltageShare(average: real, empty: real, full: real): real
    requires full != empty
  {
    (average - empty) / (full - empty) * 100.0
  }

  /** An estimate averaged with the previous percentage, but not moved against the direction. */
  function Blend(held: real, estimate: real, charging: bool): real {
    if held == 0.0 then Round(estimate) as real
    else Round((held + if charging then FMax(held, estimate) else FMin(held, estimate)) / 2.0) as real
  }

  /** The voltages that count as empty and full: a fifth of the range is cut off at the end that the
      battery moves away from. */
  function EmptyVoltage(priv: Private, state: DeviceState): real {
    priv.voltageMinDesign + if state == Charging then (priv.voltageMaxDesign - priv.voltageMinDesign) * 0.2 else 0.0
  }

  function FullVoltage(priv: Private, state: DeviceState): real {
    priv.voltageMaxDesign - if state == Charging then 0.0 else (priv.voltageMaxDesign - priv.voltageMinDesign) * 0.2
  }

  /** The estimate from the voltage, held back by the previous percentage: it does not fall while
      charging and does not rise otherwise. Equal bounds divide by zero: the quotient is then an
      infinity that the limits cut off, or not a number, which leaves the previous percentage and
      without one has no value. A previous percentage that is not a number stays. */
  function EstimatedPercentage(priv: Private, props: Properties, state: DeviceState, voltage: real): Number {
    if state == Empty then Num(0.0)
    else if state == FullyCharged then Num(100.0)
    else
      var empty, full := EmptyVoltage(priv, state), FullVoltage(priv, state);
      var average := (props.voltage + voltage) / 2.0;
      if props.percentage.NaN? then NaN
      else
        var held := props.percentage.x;
        if full != empty then Num(Blend(held, VoltageShare(average, empty, full), state == Charging))
        else if average == empty then if held != 0.0 then Num(Round(held) as real) else NaN
        else if held != 0.0 && (average > empty) != (state == Charging) then Num(Round(held) as real)
        else Num(if average > empty then 100.0 else 0.0)
  }

  predicate NeedsEstimate(priv: Private, r: Reading) {
    && r.hasCapacity
    && (r.chargeFull == 0.0 || r.chargeNow == 0.0) && r.capacity == 0.0
    && priv.voltageMinDesign != 0.0 && priv.voltageMaxDesign != 0.0
  }

  /** Where an estimate is needed, the previous percentage is a number, and it is not 0 or the average
      voltage and the voltages for empty and full are not all the same. */
  predicate Estimable(s: Supply, r: Reading) {
    var c := Coldplugged(s, r);
    NeedsEstimate(c.priv, r) && r.status != Empty && r.status != FullyCharged ==>
      && c.props.percentage.Num?
      && (c.props.percentage.x != 0.0
          || FullVoltage(c.priv, r.status) != EmptyVoltage(c.priv, r.status)
          || (c.props.voltage + PresentVoltage(r)) / 2.0 != EmptyVoltage(c.priv, r.status))
  }

  function Percentage(priv: Private, props: Properties, r: Reading, energy: real, energyFull: real): (p: Number)
    ensures WithinOrNaN(p)
  {
    if r.hasCapacity then
      ClampNumber(if NeedsEstimate(priv, r) then EstimatedPercentage(priv, props, r.status, PresentVoltage(r))
                  else Num(r.capacity), 0.0, 100.0)
    else if energyFull > 0.0 then Num(Clamp(100.0 * energy / energyFull, 0.0, 100.0))
    else Num(0.0)
  }

  // ----- State

  /** A full battery that is not charging is fully charged, an unknown state is guessed from the
      line power and the percentage, and an unknown and drained battery is empty. */
  function FinalState(isPowerSupply: bool, r: Reading, percentage: Number, energy: Number): DeviceState {
    var state := if r.status == PendingCharge && percentage == Num(100.0) then FullyCharged else r.status;
    var drained := if percentage.Below(1.0) then Empty else Discharging;
    var guessed :=
      if state == Unknown && isPowerSupply then
        match r.acOnline
        case Some(true) => if percentage.Above(90.0) then FullyCharged else Charging
        case Some(false) => drained
        case None => if r.batteries == 1 then drained else state
      else state;
    if guessed == Unknown && energy.Below(0.01) then Empty else guessed
  }

  // ----- Remaining times

  function Limited(seconds: int, limit: int): int { if seconds > limit then 0 else seconds }

  const EMPTY_LIMIT: int := 240 * 60 * 60
  const FULL_LIMIT: int := 20 * 60 * 60

  function TimeToEmpty(r: Reading, state: DeviceState, energy: Number, rate: Number): int {
    if !rate.Above(0.0) || state != Discharging then 0
    else Limited(if r.timeToEmptyNow.Some? then r.timeToEmptyNow.value else Seconds(energy, rate.x), EMPTY_LIMIT)
  }

  function TimeToFull(r: Reading, state: DeviceState, energy: Number, energyFull: real, rate: Number): int {
    if !rate.Above(0.0) || state != Charging then 0
    else
      Limited(if r.timeToFullNow.Some? then r.timeToFullNow.value else Seconds(Missing(energyFull, energy), rate.x),
              FULL_LIMIT)
  }

  // ----- The refresh

  /** The working values after the reported ones are corrected. */
  datatype Work = Work(energy: Number, energyFull: real, rate: Number, percentage: Number, slots: seq<Slot>)

  /** Batteries that report a capacity but no energy have that share of the full energy. */
  function CorrectedEnergy(hasCapacity: bool, energy: real, full: real, percentage: Number): Number {
    if !hasCapacity || energy >= 0.1 || full <= 0.0 then Num(energy)
    else if percentage.NaN? then NaN
    else Num(full * percentage.x / 100.0)
  }

  function MeasuredRate(slots: seq<Slot>, energy: real, rateOld: Number, reported: real): Number
    requires |slots| == LENGTH
  {
    if reported < 0.01 then Rate(slots, energy, rateOld) else Num(reported)
  }

  function Measured(s: Supply, r: Reading): Work
    requires |s.slots| == LENGTH
  {
    var energy := ReportedEnergy(s.priv, r);
    var full := if energy > s.props.energyFull then energy else s.props.energyFull;
    var reported := ReportedRate(s.priv, s.props, r);
    var slots := if reported < 0.01 then Pushed(s.slots, Num(energy), r.now) else s.slots;
    var percentage := Percentage(s.priv, s.props, r, energy, full);
    var corrected := CorrectedEnergy(r.hasCapacity, energy, full, percentage);
    var rate := if corrected.Below(0.1) then Num(0.0) else MeasuredRate(slots, energy, s.rateOld, reported);
    Work(corrected, full, rate, percentage, slots)
  }

  /** The new energy goes into the ring, and the rate with it if the energy differs from the last
      one; a change of state clears the ring. */
  function Published(isPowerSupply: bool, s: Supply, r: Reading, w: Work): Supply
    requires |w.slots| == LENGTH
  {
    var state := FinalState(isPowerSupply, r, w.percentage, w.energy);
    Supply(
      s.priv,
      Properties(s.props.chargeFullDesign, w.energy, w.energyFull, w.rate, w.percentage, state,
                 PresentVoltage(r), TimeToEmpty(r, state, w.energy, w.rate),
                 TimeToFull(r, state, w.energy, w.energyFull, w.rate)),
      if state != s.props.state then Cleared else Pushed(w.slots, w.energy, r.now),
      if w.slots[0].energy.Equals(w.energy) then s.rateOld else w.rate)
  }

  function Refreshed(isPowerSupply: bool, before: Supply, r: Reading): Supply
    requires |before.slots| == LENGTH
  {
    if !r.present then Reset
    else
      var s := Coldplugged(before, r);
      Published(isPowerSupply, s, r, Measured(s, r))
  }

  class UpDeviceSupply {
    const isPowerSupply: bool
    const ring: EnergyRing
    var priv: Private
    var props: Properties

    ghost predicate Valid()
      reads this, ring
    {
      ring.Valid()
    }

    ghost function View(): (s: Supply)
      requires Valid()
      reads this, ring, ring.energyOld, ring.timeOld
      ensures |s.slots| == LENGTH
    {
      Supply(priv, props, ring.Contents(), ring.rateOld)
    }

    constructor (isPowerSupply: bool)
      ensures Valid() && fresh(ring) && fresh(ring.energyOld) && fresh(ring.timeOld)
      ensures this.isPowerSupply == isPowerSupply && View() == Reset
    {
      this.isPowerSupply := isPowerSupply;
      ring := new EnergyRing();
      priv, props := NoPrivate, NoProperties;
    }

    method ResetValues()
      requires Valid()
      modifies this, ring, ring.energyOld, ring.timeOld
      ensures Valid() && ring.energyOld == old(ring.energyOld) && ring.timeOld == old(ring.timeOld)
      ensures View() == Reset
    {
      priv, props := NoPrivate, NoProperties;
      ring.rateOld := Num(0.0);
      ring.Clear();
    }

    method Coldplug(r: Reading)
      requires Valid()
      modifies this
      ensures Valid() && View() == Coldplugged(old(View()), r)
    {
      if priv.hasColdplugValues && !UnitsChanged(priv.chargeUnits, r) {
        return;
      }
      var design, units := DesignVoltage(r), priv.chargeUnits;
      var full, fullDesign := r.energyFull, r.energyFullDesign;
      var min, max := r.voltageMinDesign, r.voltageMaxDesign;
      if (min == 0.0 || max == 0.0) && r.isLithiumIon && design < 4.25 {
        if min == 0.0 {
          min := 3.0;
        }
        if max == 0.0 {
          max := 4.2;
        }
      }
      if full < 0.01 {
        full := r.chargeFull * design;
        fullDesign := r.chargeFullDesign * design;
        units := true;
      }
      if full < 0.01 && fullDesign > 0.01 {
        full := fullDesign;
      }
      props := props.(chargeFullDesign := r.chargeFullDesign, energyFull := full,
                      voltage := OrElse(r.voltageNow, r.voltageAvg));
      priv := Private(true, units, design, min, max);
    }

    method RefreshBattery(r: Reading)
      requires Valid()
      modifies this, ring, ring.energyOld, ring.timeOld
      ensures Valid() && ring.energyOld == old(ring.energyOld) && ring.timeOld == old(ring.timeOld)
      ensures View() == Refreshed(isPowerSupply, old(View()), r)
    {
      if !r.present {
        ResetValues();
        return;
      }
      Coldplug(r);
      var e, full, rate, p := Measure(r);
      Publish(r, e, full, rate, p);
    }

    method Measure(r: Reading) returns (e: Number, full: real, rate: Number, p: Number)
      requires Valid()
      modifies ring`first, ring.energyOld, ring.timeOld
      ensures Valid()
      ensures Work(e, full, rate, p, ring.Contents()) == Measured(old(View()), r)
    {
      full := props.energyFull;
      var energy, reported := Report(r);
      if energy > full {
        full := energy;
      }
      if reported == 65535.0 || reported > 100.0 {
        reported := 0.0;
      }
      assert reported == ReportedRate(priv, props, r);
      rate := Num(reported);
      if reported < 0.01 {
        rate := ring.CalculateRate(energy, r.now);
      }
      p := FindPercentage(r, energy, full);
      e := CorrectedEnergy(r.hasCapacity, energy, full, p);
      if e.Below(0.1) {
        rate := Num(0.0);
      }
    }

    method Publish(r: Reading, e: Number, full: real, rate: Number, p: Number)
      requires Valid()
      modifies this, ring, ring.energyOld, ring.timeOld
      ensures Valid() && ring.energyOld == old(ring.energyOld) && ring.timeOld == old(ring.timeOld)
      ensures View() == Published(isPowerSupply, old(View()), r, Work(e, full, rate, p, old(ring.Contents())))
    {
      var newState := FinalState(isPowerSupply, r, p, e);
      var voltage := OrElse(r.voltageNow, r.voltageAvg);
      Remember(e, rate, newState, r.now);
      props := Properties(props.chargeFullDesign, e, full, rate, p, newState, voltage,
                          TimeToEmpty(r, newState, e, rate), TimeToFull(r, newState, e, full, rate));
    }

    /** The ring keeps a changed energy, the rate beside it, and nothing over a change of state. */
    method Remember(e: Number, rate: Number, newState: DeviceState, now: int)
      requires Valid()
      modifies ring, ring.energyOld, ring.timeOld
      ensures Valid() && ring.energyOld == old(ring.energyOld) && ring.timeOld == old(ring.timeOld)
      ensures ring.Contents() == if newState != props.state then Cleared else Pushed(old(ring.Contents()), e, now)
      ensures ring.rateOld == if old(ring.Contents())[0].energy.Equals(e) then old(ring.rateOld) else rate
    {
      var changed := ring.PushNewEnergy(e, now);
      if changed {
        ring.rateOld := rate;
      }
      if props.state != newState {
        ring.Clear();
      }
    }

    /** The energy and the rate as the hardware gives them. */
    method Report(r: Reading) returns (e: real, rate: real)
      ensures e == ReportedEnergy(priv, r)
      ensures ReportedRate(priv, props, r) == if rate == 65535.0 || rate > 100.0 then 0.0 else rate
    {
      e := r.energyNow;
      if e < 0.01 {
        e := r.energyAvg;
      }
      rate := Abs(r.powerNow);
      if rate < 0.01 {
        if e < 0.01 {
          e := r.chargeNow;
          if e < 0.01 {
            e := r.chargeAvg;
          }
          e := e * priv.voltageDesign;
        }
        rate := Abs(r.currentNow);
        if r.chargeFull != 0.0 || props.chargeFullDesign != 0.0 {
          rate := rate * priv.voltageDesign;
        }
      }
    }

    method FindPercentage(r: Reading, e: real, full: real) returns (p: Number)
      ensures p == Percentage(priv, props, r, e, full)
    {
      p := Num(0.0);
      if r.hasCapacity {
        p := Num(r.capacity);
        if (r.chargeFull == 0.0 || r.chargeNow == 0.0) && p == Num(0.0) && priv.voltageMinDesign != 0.0 &&
           priv.voltageMaxDesign != 0.0 {
          p := Estimate(r.status, OrElse(r.voltageNow, r.voltageAvg));
        }
        p := ClampNumber(p, 0.0, 100.0);
      } else if full > 0.0 {
        p := Num(Clamp(100.0 * e / full, 0.0, 100.0));
      }
    }

    method Estimate(status: DeviceState, v: real) returns (p: Number)
      ensures p == EstimatedPercentage(priv, props, status, v)
    {
      if status == Empty || status == FullyCharged {
        return if status == Empty then Num(0.0) else Num(100.0);
      }
      var empty, full, held := priv.voltageMinDesign, priv.voltageMaxDesign, props.percentage;
      var delta := full - empty;
      var average := (props.voltage + v) / 2.0;
      if status == Charging {
        empty := empty + delta * 0.2;
      } else {
        full := full - delta * 0.2;
      }
      if held.NaN? {
        return NaN;
      }
      if full == empty {
        if average == empty {
          return if held.x != 0.0 then Num(Round(held.x) as real) else NaN;
        }
        if held.x != 0.0 && (average > empty) != (status == Charging) {
          return Num(Round(held.x) as real);
        }
        return if average > empty then Num(100.0) else Num(0.0);
      }
      var share := VoltageShare(average, empty, full);
      if held.x != 0.0 {
        share := if status == Charging then FMax(held.x, share) else FMin(held.x, share);
        share := (held.x + share) / 2.0;
      }
      p := Num(Round(share) as real);
    }
  }

  // ----- Bounds over every run of refreshes

  /** All values are numbers, within their limits. */
  predicate InRange(s: Supply) {
    && |s.slots| == LENGTH && Clean(s.slots)
    && s.rateOld.Within(0.0, 100.0) && s.props.energyRate.Within(0.0, 100.0)
    && s.props.percentage.Within(0.0, 100.0) && s.props.energy.Num?
    && Bounded(s)
  }

  /** What holds of those that are numbers. */
  predicate Bounded(s: Supply) {
    && |s.slots| == LENGTH
    && WithinOrNaN(s.rateOld) && WithinOrNaN(s.props.energyRate) && WithinOrNaN(s.props.percentage)
    && (s.priv.hasColdplugValues ==> s.priv.voltageDesign > 1.0)
    && (s.priv.hasColdplugValues && s.props.energy.Num? ==> s.props.energy.x <= s.props.energyFull)
    && s.props.timeToEmpty <= EMPTY_LIMIT && s.props.timeToFull <= FULL_LIMIT
  }

  lemma ReportedRateRange(priv: Private, props: Properties, r: Reading)
    requires priv.voltageDesign > 1.0
    ensures 0.0 <= ReportedRate(priv, props, r) <= 100.0
  {
    ProductSign(Abs(r.currentNow), priv.voltageDesign);
  }

  lemma ProductSign(x: real, y: real)
    requires x >= 0.0 && y >= 0.0
    ensures x * y >= 0.0
  {
  }

  lemma ShareIsLess(full: real, percentage: real)
    requires full > 0.0 && percentage <= 100.0
    ensures full * percentage / 100.0 <= full
  {
    assert full * (100.0 - percentage) >= 0.0;
  }

  lemma CorrectedWithinFull(hasCapacity: bool, energy: real, full: real, percentage: Number)
    requires energy <= full && WithinOrNaN(percentage)
    ensures var e := CorrectedEnergy(hasCapacity, energy, full, percentage);
            && (e.Num? ==> e.x <= full)
            && (e.NaN? <==> hasCapacity && energy < 0.1 && full > 0.0 && percentage.NaN?)
  {
    if full > 0.0 && percentage.Num? {
      ShareIsLess(full, percentage.x);
    }
  }

  lemma MeasuredRateInRange(slots: seq<Slot>, energy: real, rateOld: Number, reported: real)
    requires |slots| == LENGTH && WithinOrNaN(rateOld) && 0.0 <= reported <= 100.0
    ensures WithinOrNaN(MeasuredRate(slots, energy, rateOld, reported))
    ensures Clean(slots) && rateOld.Num? ==> MeasuredRate(slots, energy, rateOld, reported).Num?
  {
    RateStaysInRange(slots, energy, rateOld);
    if Clean(slots) {
      CleanIsNotPoisoned(slots, LENGTH);
    }
  }

  /** The estimate is not a number exactly when the reading does not allow one. */
  lemma PercentageIsNumberExactly(s: Supply, r: Reading, energy: real, energyFull: real)
    ensures var c := Coldplugged(s, r);
            Percentage(c.priv, c.props, r, energy, energyFull).Num? <==> Estimable(s, r)
  {
  }

  /** The energy is one exactly when the percentage is one or is not needed for it, and a rate within
      the limits comes of rates and energies that are numbers. */
  lemma MeasuredInRange(s: Supply, r: Reading)
    requires |s.slots| == LENGTH && s.priv.voltageDesign > 1.0 && WithinOrNaN(s.rateOld)
    ensures var w := Measured(s, r);
            && WithinOrNaN(w.rate) && WithinOrNaN(w.percentage) && |w.slots| == LENGTH
            && (w.energy.Num? ==> w.energy.x <= w.energyFull && (w.rate.Above(0.0) ==> w.energy.x >= 0.1))
            && (w.energy.NaN? <==>
                  r.hasCapacity && ReportedEnergy(s.priv, r) < 0.1 && w.energyFull > 0.0 && w.percentage.NaN?)
            && (Clean(s.slots) ==> Clean(w.slots) && (s.rateOld.Num? ==> w.rate.Num?))
  {
    var energy := ReportedEnergy(s.priv, r);
    var full := if energy > s.props.energyFull then energy else s.props.energyFull;
    var reported := ReportedRate(s.priv, s.props, r);
    ReportedRateRange(s.priv, s.props, r);
    MeasuredRateInRange(if reported < 0.01 then Pushed(s.slots, Num(energy), r.now) else s.slots, energy, s.rateOld, reported);
    CorrectedWithinFull(r.hasCapacity, energy, full, Percentage(s.priv, s.props, r, energy, full));
  }

  lemma ComputedTime(amount: real, rate: real)
    requires amount >= 0.0 && rate > 0.0
    ensures Truncate(3600.0 * (amount / rate)) >= 0
  {
    NonNegativeQuotient(amount, rate);
  }

  /** Whatever a battery reports, rates and percentage that are numbers stay within 0 and 100, an energy
      that is one is at most the full energy, and the times are not above their limits. */
  lemma RefreshStaysBounded(isPowerSupply: bool, s: Supply, r: Reading)
    requires Bounded(s)
    ensures Bounded(Refreshed(isPowerSupply, s, r))
  {
    if r.present {
      MeasuredInRange(Coldplugged(s, r), r);
    }
  }

  /** All of them are numbers again if and only if the reading allows an estimate where it needs one; the
      times that are computed are not negative then. */
  lemma RefreshKeepsRange(isPowerSupply: bool, s: Supply, r: Reading)
    requires InRange(s)
    ensures var t := Refreshed(isPowerSupply, s, r);
            && (InRange(t) <==> (r.present ==> Estimable(s, r)))
            && (InRange(t) && r.timeToEmptyNow.None? ==> 0 <= t.props.timeToEmpty)
            && (InRange(t) && r.timeToFullNow.None? ==> 0 <= t.props.timeToFull)
  {
    RefreshStaysBounded(isPowerSupply, s, r);
    if r.present {
      var c := Coldplugged(s, r);
      var w := Measured(c, r);
      MeasuredInRange(c, r);
      PercentageIsNumberExactly(s, r, ReportedEnergy(c.priv, r), w.energyFull);
      PushKeepsClean(w.slots, w.energy, r.now);
      if w.energy.Num? && w.rate.Above(0.0) {
        ComputedTime(w.energy.x, w.rate.x);
        ComputedTime(w.energyFull - w.energy.x, w.rate.x);
      }
    }
  }

  lemma PushKeepsClean(slots: seq<Slot>, energy: Number, now: int)
    requires |slots| == LENGTH && Clean(slots)
    ensures energy.Num? ==> Clean(Pushed(slots, energy, now))
  {
  }

  function RunOf(isPowerSupply: bool, readings: seq<Reading>): (s: Supply)
    ensures |s.slots| == LENGTH
  {
    if readings == [] then Reset
    else Refreshed(isPowerSupply, RunOf(isPowerSupply, readings[..|readings| - 1]), readings[|readings| - 1])
  }

  lemma {:induction false} RunStaysBounded(isPowerSupply: bool, readings: seq<Reading>)
    ensures Bounded(RunOf(isPowerSupply, readings))
  {
    if readings != [] {
      var n := |readings| - 1;
      RunStaysBounded(isPowerSupply, readings[..n]);
      RefreshStaysBounded(isPowerSupply, RunOf(isPowerSupply, readings[..n]), readings[n]);
    }
  }

  predicate AlwaysInRange(isPowerSupply: bool, readings: seq<Reading>) {
    InRange(RunOf(isPowerSupply, readings)) &&
    (readings != [] ==> AlwaysInRange(isPowerSupply, readings[..|readings| - 1]))
  }

  predicate AlwaysEstimable(isPowerSupply: bool, readings: seq<Reading>) {
    readings != [] ==>
      var n := |readings| - 1;
      && AlwaysEstimable(isPowerSupply, readings[..n])
      && (readings[n].present ==> Estimable(RunOf(isPowerSupply, readings[..n]), readings[n]))
  }

  /** From a new device on, everything is always a number within its limits if and only if each reading
      allows an estimate where it needs one. */
  lemma {:induction false} RunStaysInRange(isPowerSupply: bool, readings: seq<Reading>)
    ensures AlwaysInRange(isPowerSupply, readings) <==> AlwaysEstimable(isPowerSupply, readings)
  {
    if readings != [] {
      var n := |readings| - 1;
      RunStaysInRange(isPowerSupply, readings[..n]);
      if AlwaysInRange(isPowerSupply, readings[..n]) {
        assert InRange(RunOf(isPowerSupply, readings[..n]));
        RefreshKeepsRange(isPowerSupply, RunOf(isPowerSupply, readings[..n]), readings[n]);
      }
    }
  }

  /** A battery that is not calibrated and has one voltage for empty, full and now. */
  function Flat(energy: real, now: int): Reading {
    Reading(true, 0.0, 0.0, 0.0, 0.0, energy, 0.0, 10.0, 10.0, true, true, 3.7, 3.7, 3.7, 3.7, 3.7, false, false,
            Discharging, 5.0, 0.0, true, 0.0, None, 1, None, None, now)
  }

  lemma PublishesMeasured(isPowerSupply: bool, s: Supply, r: Reading)
    requires |s.slots| == LENGTH && r.present
    ensures var t, w := Refreshed(isPowerSupply, s, r), Measured(Coldplugged(s, r), r);
            t.props.percentage == w.percentage && t.props.energy == w.energy
  {
  }

  lemma FlatBatteryIsNotEstimable(energy: real, now: int)
    ensures !Estimable(Reset, Flat(energy, now))
  {
    var c := Coldplugged(Reset, Flat(energy, now));
    assert FullVoltage(c.priv, Discharging) == EmptyVoltage(c.priv, Discharging) == 3.7;
  }

  /** Its first refresh publishes a percentage that is not a number, and if it reports less than 0.1 Wh an
      energy that is none, which goes into the ring. */
  lemma FlatBatteryHasNoPercentage(isPowerSupply: bool, energy: real, now: int)
    requires 0.01 <= energy <= 10.0
    ensures var t := Refreshed(isPowerSupply, Reset, Flat(energy, now));
            t.props.percentage.NaN? && (t.props.energy.NaN? <==> energy < 0.1)
  {
    var r := Flat(energy, now);
    var c := Coldplugged(Reset, r);
    assert ReportedEnergy(c.priv, r) == energy;
    FlatBatteryIsNotEstimable(energy, now);
    PercentageIsNumberExactly(Reset, r, energy, Measured(c, r).energyFull);
    MeasuredInRange(c, r);
    PublishesMeasured(isPowerSupply, Reset, r);
  }

  // ----- The voltage estimate

  lemma RoundMonotone(x: real, n: int)
    ensures x >= n as real ==> Round(x) >= n
    ensures x <= n as real ==> Round(x) <= n
  {
  }

  lemma BlendIsHeldBack(held: real, estimate: real, charging: bool)
    requires held > 0.0
    ensures charging ==> Blend(held, estimate, charging) >= held - 0.5
    ensures !charging ==> Blend(held, estimate, charging) <= held + 0.5
    ensures held == held.Floor as real ==>
              if charging then Blend(held, estimate, charging) >= held else Blend(held, estimate, charging) <= held
  {
    var x := (held + if charging then FMax(held, estimate) else FMin(held, estimate)) / 2.0;
    assert Blend(held, estimate, charging) == Round(x) as real;
    RoundMonotone(x, held.Floor);
  }

  /** Between two estimates the percentage moves only in the direction of the state, but for rounding
      the previous one to a whole number. */
  lemma EstimateIsHeldBack(priv: Private, props: Properties, state: DeviceState, voltage: real)
    requires props.percentage.Within(0.0, 100.0) && props.percentage.x > 0.0 && state != Empty && state != FullyCharged
    ensures var p, held := ClampNumber(EstimatedPercentage(priv, props, state, voltage), 0.0, 100.0), props.percentage.x;
            && p.Num?
            && (state == Charging ==> p.x >= held - 0.5)
            && (state != Charging ==> p.x <= held + 0.5)
            && (held == held.Floor as real ==> if state == Charging then p.x >= held else p.x <= held)
  {
    var empty, full, held := EmptyVoltage(priv, state), FullVoltage(priv, state), props.percentage.x;
    RoundMonotone(held, held.Floor);
    if full != empty {
      BlendIsHeldBack(held, VoltageShare((props.voltage + voltage) / 2.0, empty, full), state == Charging);
    }
  }
}
