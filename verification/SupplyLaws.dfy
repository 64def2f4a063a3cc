/**
 src/linux/up-device-supply.c: what a refresh of a battery publishes, in terms of the values it read and
 of the device's past.
 */
module SupplyLaws {
  import opened Doubles
  import opened RateEstimator
  import opened SupplyRefresh
  import opened UpTypes
  import opened Wrappers

  // ----- Times

  lemma MeasuredAmounts(isPowerSupply: bool, s: Supply, r: Reading)
    requires Bounded(s) && r.present
    ensures var p := Refreshed(isPowerSupply, s, r).props;
            p.energy.Num? && p.energyRate.Above(0.0) ==> 0.1 <= p.energy.x <= p.energyFull
  {
    MeasuredInRange(Coldplugged(s, r), r);
  }

  /** A battery that is charged at a known rate, and does not know its time itself, is full in the time in
      which what is missing comes in, if that is no more than twenty hours; else 0 is shown. */
  lemma TimeToFullIsThatOfMissing(isPowerSupply: bool, s: Supply, r: Reading) returns (seconds: nat)
    requires Bounded(s) && r.present && r.timeToFullNow.None?
    requires var p := Refreshed(isPowerSupply, s, r).props;
             p.state == Charging && p.energyRate.Above(0.0) && p.energy.Num?
    ensures var p := Refreshed(isPowerSupply, s, r).props;
            && LastsFor(p.energyFull - p.energy.x, p.energyRate.x, seconds)
            && p.timeToFull == (if seconds <= 72000 then seconds else 0)
            && p.timeToEmpty == 0
  {
    var p := Refreshed(isPowerSupply, s, r).props;
    MeasuredAmounts(isPowerSupply, s, r);
    seconds := SecondsLast(p.energyFull - p.energy.x, p.energyRate.x);
  }

  /** A battery that discharges at a known rate, and does not know its time itself, is empty in the time in
      which what it holds is gone, if that is no more than ten days; else 0 is shown. */
  lemma TimeToEmptyIsThatOfEnergy(isPowerSupply: bool, s: Supply, r: Reading) returns (seconds: nat)
    requires Bounded(s) && r.present && r.timeToEmptyNow.None?
    requires var p := Refreshed(isPowerSupply, s, r).props;
             p.state == Discharging && p.energyRate.Above(0.0) && p.energy.Num?
    ensures var p := Refreshed(isPowerSupply, s, r).props;
            && LastsFor(p.energy.x, p.energyRate.x, seconds)
            && p.timeToEmpty == (if seconds <= 864000 then seconds else 0)
            && p.timeToFull == 0
  {
    var p := Refreshed(isPowerSupply, s, r).props;
    MeasuredAmounts(isPowerSupply, s, r);
    seconds := SecondsLast(p.energy.x, p.energyRate.x);
  }

  /** A time that the hardware knows is shown up to the same limits, and no time without a rate or in
      another state. */
  lemma OtherTimes(isPowerSupply: bool, s: Supply, r: Reading)
    requires |s.slots| == LENGTH && r.present
    ensures var p := Refreshed(isPowerSupply, s, r).props;
            && (p.state != Charging || !p.energyRate.Above(0.0) ==> p.timeToFull == 0)
            && (p.state != Discharging || !p.energyRate.Above(0.0) ==> p.timeToEmpty == 0)
            && (p.state == Charging && p.energyRate.Above(0.0) && r.timeToFullNow.Some? ==>
                  p.timeToFull == if r.timeToFullNow.value <= 72000 then r.timeToFullNow.value else 0)
            && (p.state == Discharging && p.energyRate.Above(0.0) && r.timeToEmptyNow.Some? ==>
                  p.timeToEmpty == if r.timeToEmptyNow.value <= 864000 then r.timeToEmptyNow.value else 0)
  {
  }

  // ----- State

  /** A state that the battery knows is shown, but for a full one that does not charge. */
  lemma KnownStateIsShown(isPowerSupply: bool, s: Supply, r: Reading)
    requires |s.slots| == LENGTH && r.present && r.status != Unknown
    ensures var p := Refreshed(isPowerSupply, s, r).props;
            if r.status == PendingCharge && p.percentage == Num(100.0) then p.state == FullyCharged else p.state == r.status
  {
  }

  /** The state of a battery that does not know it: on line power it charges, or is full above 90 percent;
      without it, and as the only battery on a machine that has none, it discharges, or is empty below
      1 percent; else it stays unknown. Empty is also what is unknown and holds nothing. */
  lemma UnknownStateIsGuessed(isPowerSupply: bool, s: Supply, r: Reading)
    requires |s.slots| == LENGTH && r.present && r.status == Unknown
    ensures var p := Refreshed(isPowerSupply, s, r).props;
            && (p.state == FullyCharged <==> isPowerSupply && r.acOnline == Some(true) && p.percentage.Above(90.0))
            && (p.state == Charging <==> isPowerSupply && r.acOnline == Some(true) && !p.percentage.Above(90.0))
            && (p.state == Discharging <==>
                  isPowerSupply && !p.percentage.Below(1.0) &&
                  (r.acOnline == Some(false) || (r.acOnline.None? && r.batteries == 1)))
            && (p.state == Unknown <==>
                  !p.energy.Below(0.01) && (!isPowerSupply || (r.acOnline.None? && r.batteries != 1)))
            && p.state != PendingCharge && p.state != PendingDischarge
  {
  }

  // ----- Energy and rate

  predicate NoEnergyRead(r: Reading) { r.energyNow < 0.01 && r.energyAvg < 0.01 }
  predicate NoPowerRead(r: Reading) { -0.01 < r.powerNow < 0.01 }

  /** An energy that is read is shown, the present one before the average one, and the full energy is never
      shown below it. */
  lemma ReadEnergyIsShown(isPowerSupply: bool, s: Supply, r: Reading)
    requires |s.slots| == LENGTH && r.present
    ensures var p := Refreshed(isPowerSupply, s, r).props;
            && (r.energyNow >= 0.1 || (r.energyNow >= 0.01 && !r.hasCapacity) ==> p.energy == Num(r.energyNow))
            && (r.energyNow < 0.01 && r.energyAvg >= 0.1 ==> p.energy == Num(r.energyAvg))
  {
  }

  /** A charge counts with the design voltage if neither energy nor power is read. */
  lemma ReadChargeIsConverted(isPowerSupply: bool, s: Supply, r: Reading)
    requires |s.slots| == LENGTH && r.present && NoEnergyRead(r) && NoPowerRead(r)
    requires r.voltageMaxDesign > 1.0 && IsReadAgain(s, r)
    ensures var p, volts := Refreshed(isPowerSupply, s, r).props, r.voltageMaxDesign;
            && (r.chargeNow >= 0.1 ==> p.energy == Num(r.chargeNow * volts))
            && (r.chargeNow < 0.01 && r.chargeAvg >= 0.1 ==> p.energy == Num(r.chargeAvg * volts))
  {
    var charge := if r.chargeNow >= 0.01 then r.chargeNow else r.chargeAvg;
    PublishesMeasured(isPowerSupply, s, r);
    DesignIsLearned(s, r);
    ChargeIsReported(Coldplugged(s, r).priv, r);
    if charge >= 0.1 {
      AtLeastTimesVolts(charge, r.voltageMaxDesign);
      EnoughEnergyIsKept(Coldplugged(s, r), r, charge * r.voltageMaxDesign);
    }
  }

  lemma DesignIsLearned(s: Supply, r: Reading)
    requires r.voltageMaxDesign > 1.0 && IsReadAgain(s, r)
    ensures Coldplugged(s, r).priv.voltageDesign == r.voltageMaxDesign
  {
  }

  lemma ChargeIsReported(priv: Private, r: Reading)
    requires NoEnergyRead(r) && NoPowerRead(r)
    ensures ReportedEnergy(priv, r) == (if r.chargeNow >= 0.01 then r.chargeNow else r.chargeAvg) * priv.voltageDesign
  {
  }

  lemma EnoughEnergyIsKept(c: Supply, r: Reading, energy: real)
    requires |c.slots| == LENGTH && ReportedEnergy(c.priv, r) == energy && energy >= 0.1
    ensures Measured(c, r).energy == Num(energy)
  {
  }

  lemma AtLeastTimesVolts(charge: real, volts: real)
    requires charge >= 0.1 && volts > 1.0
    ensures charge * volts >= 0.1
  {
    RealMulMonotone(charge, 1.0, volts);
  }

  /** Whether a full charge is known, so that currents are currents and not powers. */
  predicate CountsCharge(s: Supply, r: Reading) {
    r.chargeFull != 0.0 || Coldplugged(s, r).props.chargeFullDesign != 0.0
  }

  function Watts(s: Supply, r: Reading): real { r.currentNow * Coldplugged(s, r).priv.voltageDesign }

  /** Power and current that are read and believable are the rate, without their sign; a current counts
      with the design voltage if charges are known. */
  lemma ReadRateIsShown(isPowerSupply: bool, s: Supply, r: Reading)
    requires |s.slots| == LENGTH && r.present && r.energyNow >= 0.1
    ensures var p := Refreshed(isPowerSupply, s, r).props;
            && (0.01 <= r.powerNow <= 100.0 ==> p.energyRate == Num(r.powerNow))
            && (-100.0 <= r.powerNow <= -0.01 ==> p.energyRate == Num(-r.powerNow))
            && (NoPowerRead(r) && !CountsCharge(s, r) && 0.01 <= r.currentNow <= 100.0 ==>
                  p.energyRate == Num(r.currentNow))
            && (NoPowerRead(r) && CountsCharge(s, r) && r.currentNow >= 0.0 && 0.01 <= Watts(s, r) <= 100.0 ==>
                  p.energyRate == Num(Watts(s, r)))
  {
  }

  /** Any other rate is the one that is estimated from the ring, into which the energy goes first. */
  lemma OtherRateIsEstimated(isPowerSupply: bool, s: Supply, r: Reading)
    requires |s.slots| == LENGTH && r.present && r.energyNow >= 0.1
    requires r.powerNow > 100.0 || (NoPowerRead(r) && -0.01 < r.currentNow < 0.01 && !CountsCharge(s, r))
    ensures Refreshed(isPowerSupply, s, r).props.energyRate ==
              Rate(Pushed(s.slots, Num(r.energyNow), r.now), r.energyNow, s.rateOld)
  {
  }

  /** The full energy is the larger one of what was learned and of what is held now. */
  lemma FullIsAtLeastHeld(isPowerSupply: bool, s: Supply, r: Reading)
    requires |s.slots| == LENGTH && r.present && r.energyNow >= 0.1
    ensures var p, learned := Refreshed(isPowerSupply, s, r).props, Coldplugged(s, r).props.energyFull;
            p.energyFull == if r.energyNow > learned then r.energyNow else learned
  {
  }

  /** What does not change at runtime is read on the first refresh, and again when the files of the units that
      were in use are gone. */
  predicate IsReadAgain(s: Supply, r: Reading) {
    || !s.priv.hasColdplugValues
    || (s.priv.chargeUnits && !r.hasChargeFiles) || (!s.priv.chargeUnits && !r.hasEnergyFiles)
  }

  lemma ElseIsKept(s: Supply, r: Reading)
    ensures Coldplugged(s, r).priv.hasColdplugValues
    ensures !IsReadAgain(s, r) ==> Coldplugged(s, r) == s
  {
  }

  /** What is learned then: the full energy, or the full charge with the design voltage, or
      their design values. */
  lemma LearnedFull(s: Supply, r: Reading)
    requires IsReadAgain(s, r) && r.voltageMaxDesign > 1.0
    ensures var full, volts := Coldplugged(s, r).props.energyFull, r.voltageMaxDesign;
            && (r.energyFull >= 0.01 ==> full == r.energyFull)
            && (r.energyFull < 0.01 && r.chargeFull >= 0.01 ==> full == r.chargeFull * volts)
            && (r.energyFull < 0.01 && r.chargeFull == 0.0 && r.chargeFullDesign > 0.01 ==> full == r.chargeFullDesign * volts)
    ensures Coldplugged(s, r).priv.voltageDesign == r.voltageMaxDesign
    ensures Coldplugged(s, r).priv.chargeUnits <==> s.priv.chargeUnits || r.energyFull < 0.01
  {
    var volts := r.voltageMaxDesign;
    if r.chargeFull >= 0.01 {
      RealMulMonotone(r.chargeFull, 1.0, volts);
    }
    if r.chargeFullDesign > 0.01 {
      RealMulMonotone(r.chargeFullDesign, 1.0, volts);
    }
  }

  /** Lithium-ion cells without design voltages have 3.0 V and 4.2 V; others keep what is read. */
  lemma LearnedVoltages(s: Supply, r: Reading)
    requires IsReadAgain(s, r)
    ensures var v := Coldplugged(s, r).priv;
            && (r.voltageMinDesign != 0.0 ==> v.voltageMinDesign == r.voltageMinDesign)
            && (r.voltageMaxDesign != 0.0 ==> v.voltageMaxDesign == r.voltageMaxDesign)
            && (r.voltageMinDesign == 0.0 ==>
                  v.voltageMinDesign == if r.isLithiumIon && v.voltageDesign < 4.25 then 3.0 else 0.0)
            && (r.voltageMaxDesign == 0.0 ==>
                  v.voltageMaxDesign == if r.isLithiumIon && v.voltageDesign < 4.25 then 4.2 else 0.0)
  {
  }

  /** The design voltage is the first one of those that are read that is above one volt; without one it is
      five volts on USB and else ten. */
  lemma DesignVoltageIsFirst(r: Reading)
    ensures var v, all := DesignVoltage(r), [r.voltageMaxDesign, r.voltageMinDesign, r.voltagePresent, r.voltageNow];
            || (exists i :: 0 <= i < 4 && v == all[i] && all[i] > 1.0 && forall j :: 0 <= j < i ==> all[j] <= 1.0)
            || (v == (if r.isUsb then 5.0 else 10.0) && forall j :: 0 <= j < 4 ==> all[j] <= 1.0)
  {
    var all := [r.voltageMaxDesign, r.voltageMinDesign, r.voltagePresent, r.voltageNow];
    assert all[0] == r.voltageMaxDesign && all[1] == r.voltageMinDesign && all[2] == r.voltagePresent && all[3] == r.voltageNow;
  }

  // ----- Percentage

  /** A capacity that is read is shown, within 0 and 100; without one it is the share of the full energy. */
  lemma ReadPercentageIsShown(isPowerSupply: bool, s: Supply, r: Reading)
    requires |s.slots| == LENGTH && r.present && r.energyNow >= 0.1
    ensures var p := Refreshed(isPowerSupply, s, r).props;
            && (r.hasCapacity && 0.0 < r.capacity <= 100.0 ==> p.percentage == Num(r.capacity))
            && (r.hasCapacity && r.capacity > 100.0 ==> p.percentage == Num(100.0))
            && (r.hasCapacity && r.capacity < 0.0 ==> p.percentage == Num(0.0))
            && (!r.hasCapacity && p.energyFull > 0.0 ==> p.percentage == Num(100.0 * r.energyNow / p.energyFull))
  {
    var c := Coldplugged(s, r);
    var full := if r.energyNow > c.props.energyFull then r.energyNow else c.props.energyFull;
    if full > 0.0 {
      RealQuotientBounds(100.0 * r.energyNow, full, 0.0, 100.0);
    }
  }

  /** A battery that reports a capacity and no energy is shown with that share of the full energy. */
  lemma EnergyFollowsCapacity(isPowerSupply: bool, s: Supply, r: Reading)
    requires |s.slots| == LENGTH && r.present && NoEnergyRead(r) && r.energyAvg == 0.0 && !NoPowerRead(r)
    requires r.hasCapacity && 0.0 < r.capacity <= 100.0 && Coldplugged(s, r).props.energyFull > 0.0
    ensures var p := Refreshed(isPowerSupply, s, r).props;
            p.energyFull == Coldplugged(s, r).props.energyFull && p.energy == Num(p.energyFull * r.capacity / 100.0)
  {
  }

  /** The voltages that give 0 and 100 without a previous percentage, and how one in between is rounded. A
      fifth of the range counts as full while discharging and as empty while charging. */
  lemma EstimateOfVoltage(priv: Private, props: Properties, state: DeviceState, voltage: real)
    requires props.percentage == Num(0.0) && state != Empty && state != FullyCharged
    requires priv.voltageMinDesign < priv.voltageMaxDesign
    ensures var p, range := EstimatedPercentage(priv, props, state, voltage), priv.voltageMaxDesign - priv.voltageMinDesign;
            var above := (props.voltage + voltage) / 2.0 - priv.voltageMinDesign;
            var usable := if state == Charging then above - 0.2 * range else above;
            p.Num? && p.x - 0.5 <= 100.0 * usable / (0.8 * range) <= p.x + 0.5
  {
    var range := priv.voltageMaxDesign - priv.voltageMinDesign;
    var average := (props.voltage + voltage) / 2.0;
    var empty, full := EmptyVoltage(priv, state), FullVoltage(priv, state);
    assert full - empty == 0.8 * range;
    var usable := average - empty;
    assert usable == if state == Charging then average - priv.voltageMinDesign - 0.2 * range else average - priv.voltageMinDesign;
    ShareOfRange(usable, 0.8 * range);
    assert VoltageShare(average, empty, full) == usable / (0.8 * range) * 100.0;
  }

  lemma ShareOfRange(x: real, range: real)
    requires range > 0.0
    ensures x / range * 100.0 == 100.0 * x / range
  {
  }

  /** With a previous percentage the estimate is halfway between it and the new one, if that lies in the
      direction of the state, and else it stays where it is. */
  lemma EstimateMovesHalfway(priv: Private, props: Properties, state: DeviceState, voltage: real)
    requires props.percentage.Within(0.0, 100.0) && props.percentage.x > 0.0 && state != Empty && state != FullyCharged
    requires priv.voltageMinDesign < priv.voltageMaxDesign
    ensures var p, held := EstimatedPercentage(priv, props, state, voltage), props.percentage.x;
            var share := VoltageShare((props.voltage + voltage) / 2.0, EmptyVoltage(priv, state), FullVoltage(priv, state));
            var onward := if state == Charging then share > held else share < held;
            p.Num? && (if onward then p.x - 0.5 <= (held + share) / 2.0 <= p.x + 0.5 else p.x - 0.5 <= held <= p.x + 0.5)
  {
    assert FullVoltage(priv, state) - EmptyVoltage(priv, state) == 0.8 * (priv.voltageMaxDesign - priv.voltageMinDesign);
  }

  /** When the two voltages are the same, a mean voltage above or below them counts as full or empty, unless a
      previous percentage holds it back; and the same voltage leaves the previous percentage, without which
      there is none. */
  lemma EstimateWithoutRange(priv: Private, props: Properties, state: DeviceState, voltage: real)
    requires props.percentage.Num? && state != Empty && state != FullyCharged
    requires priv.voltageMinDesign == priv.voltageMaxDesign
    ensures var p, held := EstimatedPercentage(priv, props, state, voltage), props.percentage.x;
            var above := (props.voltage + voltage) / 2.0 - priv.voltageMinDesign;
            && (above > 0.0 && (held == 0.0 || state == Charging) ==> p == Num(100.0))
            && (above < 0.0 && (held == 0.0 || state != Charging) ==> p == Num(0.0))
            && (above == 0.0 && held == 0.0 ==> p.NaN?)
            && (held != 0.0 && (above == 0.0 || (above > 0.0) != (state == Charging)) ==>
                  p.Num? && p.x - 0.5 <= held <= p.x + 0.5)
  {
  }

  /** A battery that knows to be empty or full does not need its voltage. */
  lemma KnownEndsAreEstimates(priv: Private, props: Properties, voltage: real)
    ensures EstimatedPercentage(priv, props, Empty, voltage) == Num(0.0)
    ensures EstimatedPercentage(priv, props, FullyCharged, voltage) == Num(100.0)
  {
  }

  /** Halves are rounded away from 0. */
  lemma RoundedAway(x: real)
    ensures x >= 0.0 ==> Round(x) as real - 0.5 <= x < Round(x) as real + 0.5
    ensures x < 0.0 ==> Round(x) as real - 0.5 < x <= Round(x) as real + 0.5
  {
  }

  /** A capacity of 0 stands for one that is not known, if a charge is missing too and both design voltages are
      there; then the estimate is shown, within 0 and 100. */
  lemma MissingCapacityIsEstimated(isPowerSupply: bool, s: Supply, r: Reading)
    requires |s.slots| == LENGTH && r.present && r.energyNow >= 0.1 && r.hasCapacity && r.capacity == 0.0
    ensures var c, p := Coldplugged(s, r), Refreshed(isPowerSupply, s, r).props.percentage;
            var voltage := if r.voltageNow >= 0.01 then r.voltageNow else r.voltageAvg;
            var e := EstimatedPercentage(c.priv, c.props, r.status, voltage);
            if c.priv.voltageMinDesign == 0.0 || c.priv.voltageMaxDesign == 0.0 || (r.chargeFull != 0.0 && r.chargeNow != 0.0)
            then p == Num(0.0)
            else if e.NaN? then p.NaN?
            else p == Num(if e.x < 0.0 then 0.0 else if e.x > 100.0 then 100.0 else e.x)
  {
  }

  // ----- What is remembered

  /** The present energy is the newest one, or the ring is empty after a change of state; the old rate is the
      one that was shown with the latest change of the energy. */
  lemma PastIsRemembered(isPowerSupply: bool, s: Supply, r: Reading)
    requires |s.slots| == LENGTH && r.present
    ensures var t := Refreshed(isPowerSupply, s, r);
            && (t.props.state == s.props.state ==> t.slots[0].energy == t.props.energy)
            && (t.props.state != s.props.state ==> t.slots == [NoSlot, NoSlot, NoSlot, NoSlot])
            && (t.rateOld == t.props.energyRate || t.rateOld == s.rateOld)
            && (0.01 <= r.powerNow <= 100.0 ==>
                  t.rateOld == if s.slots[0].energy.Equals(t.props.energy) then s.rateOld else t.props.energyRate)
  {
  }

  /** A battery that is not there has no past. */
  lemma AbsenceForgets(isPowerSupply: bool, s: Supply, r: Reading)
    requires |s.slots| == LENGTH && !r.present
    ensures var t := Refreshed(isPowerSupply, s, r);
            && !t.priv.hasColdplugValues && t.rateOld == Num(0.0) && t.slots == [NoSlot, NoSlot, NoSlot, NoSlot]
            && t.props.state == Unknown && t.props.energy == Num(0.0) && t.props.percentage == Num(0.0)
            && t.props.energyRate == Num(0.0) && t.props.energyFull == 0.0
            && t.props.timeToEmpty == 0 && t.props.timeToFull == 0
  {
  }
}
