/**
 src/up-daemon.c: the warning level of a battery, the thresholds it depends on, and the delayed
 action on the lowest level.
 */
module WarningLevel {
  import opened Doubles
  import opened UpTypes
  import opened Wrappers

  // ----- Thresholds

  datatype Policy = Policy(
    usePercentage: bool,
    lowPercentage: nat, criticalPercentage: nat, actionPercentage: nat,
    lowTime: nat, criticalTime: nat, actionTime: nat)

  predicate IsDescending(x: nat, y: nat, z: nat) { x > y > z }

  predicate PercentagesOrdered(p: Policy) {
    100 > p.lowPercentage && IsDescending(p.lowPercentage, p.criticalPercentage, p.actionPercentage)
  }

  predicate TimesOrdered(p: Policy) { IsDescending(p.lowTime, p.criticalTime, p.actionTime) }

  /** Policies that differ at most in their percentages. */
  predicate SameButPercentages(p: Policy, q: Policy) {
    p.usePercentage == q.usePercentage && p.lowTime == q.lowTime && p.criticalTime == q.criticalTime && p.actionTime == q.actionTime
  }

  /** Thresholds that are out of order, or percentages that are not below 100, become the defaults. */
  function Validated(p: Policy): Policy {
    var percentages :=
      if p.lowPercentage >= 100 || p.criticalPercentage >= 100 || p.actionPercentage >= 100 ||
         !IsDescending(p.lowPercentage, p.criticalPercentage, p.actionPercentage)
      then p.(lowPercentage := 10, criticalPercentage := 3, actionPercentage := 2) else p;
    if !IsDescending(p.lowTime, p.criticalTime, p.actionTime)
    then percentages.(lowTime := 1200, criticalTime := 300, actionTime := 120) else percentages
  }

  class PolicyConfig {
    var policy: Policy

    constructor (policy: Policy)
      ensures this.policy == policy
    {
      this.policy := policy;
    }

    /** The defaults are in order, and are already valid with the times that are there. */
    method LoadPercentagePolicy()
      modifies this
      ensures policy.lowPercentage == 10 && policy.criticalPercentage == 3 && policy.actionPercentage == 2
      ensures PercentagesOrdered(policy) && SameButPercentages(policy, old(policy))
      ensures TimesOrdered(policy) ==> Validated(policy) == policy
      ensures !PercentagesOrdered(old(policy)) ==> Validated(policy) == Validated(old(policy))
    {
      policy := policy.(lowPercentage := 10, criticalPercentage := 3, actionPercentage := 2);
    }

    method Validate()
      modifies this
      ensures policy == Validated(old(policy))
    {
      if policy.lowPercentage >= 100 || policy.criticalPercentage >= 100 || policy.actionPercentage >= 100 {
        LoadPercentagePolicy();
      } else if !IsDescending(policy.lowPercentage, policy.criticalPercentage, policy.actionPercentage) {
        LoadPercentagePolicy();
      }
      if !IsDescending(policy.lowTime, policy.criticalTime, policy.actionTime) {
        policy := policy.(lowTime := 1200, criticalTime := 300, actionTime := 120);
      }
    }
  }

  // ----- The level

  function ComputeLevel(policy: Policy, state: DeviceState, kind: DeviceKind, powerSupply: bool,
                        percentage: Number, timeToEmpty: int): DeviceLevel {
    if state != Discharging then LevelNone
    else if kind == Mouse || kind == Keyboard then
      if percentage.AtMost(5.0) then LevelCritical else if percentage.AtMost(10.0) then LevelLow else LevelNone
    else
      var default := if kind == Ups then LevelDischarging else LevelNone;
      if powerSupply && !policy.usePercentage && timeToEmpty > 0 then
        if timeToEmpty > policy.lowTime then default
        else if timeToEmpty > policy.criticalTime then LevelLow
        else if timeToEmpty > policy.actionTime then LevelCritical
        else LevelAction
      else
        if percentage.Above(policy.lowPercentage as real) then default
        else if percentage.Above(policy.criticalPercentage as real) then LevelLow
        else if percentage.Above(policy.actionPercentage as real) then LevelCritical
        else LevelAction
  }

  predicate Ordered(p: Policy) {
    PercentagesOrdered(p) && TimesOrdered(p)
  }

  /** Whatever the configuration says, the thresholds in use are strictly descending, and thresholds
      that were already so are kept. */
  lemma ValidatedIsOrdered(p: Policy)
    ensures Ordered(Validated(p))
    ensures Ordered(p) ==> Validated(p) == p
  {
  }

  /** With ordered thresholds the level does not drop as the charge or the remaining time falls. */
  lemma LevelIsMonotone(p: Policy, state: DeviceState, kind: DeviceKind, powerSupply: bool,
                        percentage: Number, lower: Number, time: int, shorter: int)
    requires Ordered(p) && (lower == percentage || (percentage.Num? && lower.AtMost(percentage.x)))
    requires 0 < shorter <= time || shorter == time
    ensures ComputeLevel(p, state, kind, powerSupply, lower, shorter).Rank()
         >= ComputeLevel(p, state, kind, powerSupply, percentage, time).Rank()
  {
  }

  /** Whether the remaining time decides, if the kind of device does not. */
  predicate ByTime(p: Policy, powerSupply: bool, time: int) { powerSupply && !p.usePercentage && time > 0 }

  /** When the level is ACTION. A percentage that is not a number does what the lowest one does. */
  lemma ActionExactly(p: Policy, state: DeviceState, kind: DeviceKind, powerSupply: bool, percentage: Number, time: int)
    requires Ordered(p)
    ensures ComputeLevel(p, state, kind, powerSupply, percentage, time) == LevelAction <==>
              && state == Discharging && kind != Mouse && kind != Keyboard
              && if ByTime(p, powerSupply, time) then time <= p.actionTime
                 else percentage.NaN? || percentage.x <= p.actionPercentage as real
  {
  }

  /** The level of a discharging battery that is judged by its percentage, or by its time. */
  function LevelAtPercentage(p: Policy, n: nat): DeviceLevel {
    ComputeLevel(p.(usePercentage := true), Discharging, Battery, true, Num(n as real), 0)
  }

  function LevelAtTime(p: Policy, t: nat): DeviceLevel {
    ComputeLevel(p.(usePercentage := false), Discharging, Battery, true, Num(100.0), t)
  }

  /** A level is reached by some percentage from 0 to 100, or by some known time. */
  ghost predicate ReachedByPercentage(p: Policy, level: DeviceLevel) {
    exists n: nat :: n <= 100 && LevelAtPercentage(p, n) == level
  }

  ghost predicate ReachedByTime(p: Policy, level: DeviceLevel) {
    exists t: nat :: t > 0 && LevelAtTime(p, t) == level
  }

  /** Each band of percentages is met by some charge. */
  lemma PercentageBandsAreReached(p: Policy)
    requires Ordered(p)
    ensures ReachedByPercentage(p, LevelNone) && ReachedByPercentage(p, LevelLow)
    ensures ReachedByPercentage(p, LevelCritical) && ReachedByPercentage(p, LevelAction)
  {
    assert LevelAtPercentage(p, 100) == LevelNone;
    assert LevelAtPercentage(p, p.lowPercentage) == LevelLow;
    assert LevelAtPercentage(p, p.criticalPercentage) == LevelCritical;
    assert LevelAtPercentage(p, p.actionPercentage) == LevelAction;
  }

  /** The bands of times are met too, but the lowest only when its threshold is positive: a time of 0
      stands for an unknown one. */
  lemma TimeBandsAreReached(p: Policy)
    requires Ordered(p)
    ensures ReachedByTime(p, LevelNone) && ReachedByTime(p, LevelLow) && ReachedByTime(p, LevelCritical)
    ensures ReachedByTime(p, LevelAction) <==> p.actionTime > 0
  {
    assert LevelAtTime(p, p.lowTime + 1) == LevelNone;
    assert LevelAtTime(p, p.lowTime) == LevelLow;
    assert LevelAtTime(p, p.criticalTime) == LevelCritical;
    if p.actionTime > 0 {
      assert LevelAtTime(p, p.actionTime) == LevelAction;
    }
  }

  /** The level at one end and the thresholds that it has passed. */
  function LevelBelow(default: DeviceLevel, low: bool, critical: bool, action: bool): DeviceLevel {
    if action then LevelAction else if critical then LevelCritical else if low then LevelLow else default
  }

  /** The level of any device: none unless it discharges; fixed bands for mice and keyboards; and for others
      the thresholds of the remaining time, if it is known and in use, or of the percentage. A UPS is never
      at less than DISCHARGING. */
  lemma LevelExactly(p: Policy, state: DeviceState, kind: DeviceKind, powerSupply: bool, percentage: real, time: int)
    requires Ordered(p)
    ensures var level := ComputeLevel(p, state, kind, powerSupply, Num(percentage), time);
            var default := if kind == Ups then LevelDischarging else LevelNone;
            && (state != Discharging ==> level == LevelNone)
            && (state == Discharging && (kind == Mouse || kind == Keyboard) ==>
                  level == LevelBelow(LevelNone, percentage <= 10.0, percentage <= 5.0, false))
            && (state == Discharging && kind != Mouse && kind != Keyboard ==>
                  level == if powerSupply && time > 0 && !p.usePercentage
                           then LevelBelow(default, time <= p.lowTime, time <= p.criticalTime, time <= p.actionTime)
                           else LevelBelow(default, percentage <= p.lowPercentage as real,
                                           percentage <= p.criticalPercentage as real, percentage <= p.actionPercentage as real))
  {
  }

  /** Thresholds that are in use are those of the configuration, or 10, 3 and 2 percent, or 20, 5 and 2
      minutes, and the two kinds are judged on their own. */
  lemma ValidatedExactly(p: Policy)
    ensures var v := Validated(p);
            && v.usePercentage == p.usePercentage
            && [v.lowPercentage, v.criticalPercentage, v.actionPercentage] ==
                 (if 100 > p.lowPercentage > p.criticalPercentage > p.actionPercentage
                  then [p.lowPercentage, p.criticalPercentage, p.actionPercentage] else [10, 3, 2])
            && [v.lowTime, v.criticalTime, v.actionTime] ==
                 (if p.lowTime > p.criticalTime > p.actionTime
                  then [p.lowTime, p.criticalTime, p.actionTime] else [20 * 60, 5 * 60, 2 * 60])
  {
  }
}
