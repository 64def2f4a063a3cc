/**
 src/up-daemon.c: what the display device shows, in terms of the devices in the list and of plain sums over
 their properties.
 */
module DisplayLaws {
  import opened DisplayBattery
  import opened Doubles
  import opened UpTypes
  import opened Wrappers

  // ----- Sums

  /** A battery that the laptop runs on. */
  predicate Supplies(d: Source) { d.kind == Battery && d.powerSupply }

  predicate NoUps(devices: seq<Source>) { forall i :: 0 <= i < |devices| ==> devices[i].kind != Ups }

  datatype Sums = Sums(
    batteries: nat, percentage: Number, energy: Number, energyFull: real, energyRate: Number,
    timeToEmpty: int, timeToFull: int)

  const Zero: Sums := Sums(0, Num(0.0), Num(0.0), 0.0, Num(0.0), 0, 0)

  function Plus(s: Sums, d: Source): Sums {
    if !Supplies(d) then s
    else
      Sums(s.batteries + 1, Add(s.percentage, d.percentage), Add(s.energy, d.energy), s.energyFull + d.energyFull,
           Add(s.energyRate, d.energyRate), s.timeToEmpty + d.timeToEmpty, s.timeToFull + d.timeToFull)
  }

  function SumsOf(devices: seq<Source>): Sums {
    if devices == [] then Zero else Plus(SumsOf(devices[..|devices| - 1]), devices[|devices| - 1])
  }

  /** The sums with a state. */
  function TotalOf(s: Sums, state: DeviceState): Total {
    Total(if s.batteries == 0 then KindUnknown else Battery, state, s.percentage, s.energy, s.energyFull, s.energyRate,
          s.timeToEmpty, s.timeToFull)
  }

  lemma {:induction false} SummedIsTotal(devices: seq<Source>)
    ensures Summed(Batteries(devices)) == TotalOf(SumsOf(devices), CompositeState(Batteries(devices)))
    ensures |Batteries(devices)| == SumsOf(devices).batteries
  {
    if devices != [] {
      var n := |devices| - 1;
      var batteries := Batteries(devices[..n]);
      SummedIsTotal(devices[..n]);
      if Supplies(devices[n]) {
        SummedSnoc(batteries, devices[n]);
      } else {
        assert Batteries(devices) == batteries;
      }
    }
  }

  lemma NoUpsIsLast(devices: seq<Source>)
    requires NoUps(devices)
    ensures FirstUps(devices) == |devices| && devices[..|devices|] == devices
  {
  }

  /** The time in which an amount is used up or comes in. An amount below 0 gives a negative time. */
  predicate TimeFor(amount: real, rate: real, seconds: int) {
    if amount >= 0.0 then LastsFor(amount, rate, seconds) else LastsFor(-amount, rate, -seconds)
  }

  lemma SecondsAreTimeFor(amount: real, rate: real)
    requires rate > 0.0
    ensures TimeFor(amount, rate, Seconds(Num(amount), rate))
  {
    if amount >= 0.0 {
      var n := SecondsLast(amount, rate);
    } else {
      var n := NegativeSecondsLast(amount, rate);
    }
  }

  /** What several batteries are shown as whose sums are t: the percentage is that of the energy in the full
      energy, and the time that remains in the present state at a known rate is that of the energy, or of
      the energy that is missing. */
  predicate Shows(c: Total, t: Total) {
    && c.kind == t.kind && c.state == t.state
    && c.energy == t.energy && c.energyFull == t.energyFull && c.energyRate == t.energyRate
    && (t.energyFull > 0.0 && t.energy.NaN? ==> c.percentage.NaN?)
    && (t.energyFull > 0.0 && t.energy.Num? ==> c.percentage.Num? && t.energyFull * c.percentage.x == 100.0 * t.energy.x)
    && (t.energyFull <= 0.0 ==> c.percentage == t.percentage)
    && ShowsTime(c.timeToEmpty, t.timeToEmpty, t.energy, t.energyRate, t.state == Discharging)
    && ShowsTime(c.timeToFull, t.timeToFull, Missing(t.energyFull, t.energy), t.energyRate, t.state == Charging)
  }

  predicate ShowsTime(shown: int, summed: int, amount: Number, rate: Number, remains: bool) {
    if rate.Num? && rate.x > 0.0 && remains then amount.Num? ==> TimeFor(amount.x, rate.x, shown) else shown == summed
  }

  lemma TimeIsShown(amount: Number, rate: Number, summed: int, remains: bool)
    ensures ShowsTime(if rate.Above(0.0) && remains then Seconds(amount, rate.x) else summed, summed, amount, rate, remains)
  {
    if amount.Num? && rate.Above(0.0) {
      SecondsAreTimeFor(amount.x, rate.x);
    }
  }

  lemma PercentIsShare(energy: real, full: real)
    requires full > 0.0
    ensures Percent(Num(energy), full).Num? && full * Percent(Num(energy), full).x == 100.0 * energy
  {
    RealQuotient(100.0 * energy, full);
  }

  lemma WeightedShows(t: Total)
    ensures Shows(Weighted(t), t)
  {
    TimeIsShown(t.energy, t.energyRate, t.timeToEmpty, t.state == Discharging);
    TimeIsShown(Missing(t.energyFull, t.energy), t.energyRate, t.timeToFull, t.state == Charging);
    if t.energy.Num? && t.energyFull > 0.0 {
      PercentIsShare(t.energy.x, t.energyFull);
    }
  }

  lemma CompositeIs(devices: seq<Source>)
    requires NoUps(devices)
    ensures var s := SumsOf(devices);
            var t := TotalOf(s, CompositeState(Batteries(devices)));
            Composite(devices) == if s.batteries <= 1 then t else Weighted(t)
  {
    NoUpsIsLast(devices);
    SummedIsTotal(devices);
  }

  /** Without a UPS the energies and the rate are the sums over the batteries, and so are the percentage and
      the times of one battery; those of several follow from the sums. */
  lemma CompositeIsSum(devices: seq<Source>)
    requires NoUps(devices)
    ensures var c, s := Composite(devices), SumsOf(devices);
            if s.batteries <= 1 then c == TotalOf(s, c.state) else Shows(c, TotalOf(s, c.state))
  {
    CompositeIs(devices);
    WeightedShows(TotalOf(SumsOf(devices), CompositeState(Batteries(devices))));
  }

  // ----- One battery, and two

  lemma {:induction false} OnlyOneSum(devices: seq<Source>, n: nat, i: nat)
    requires i < |devices| && n <= |devices| && Supplies(devices[i])
    requires forall j :: 0 <= j < |devices| && j != i ==> !Supplies(devices[j])
    ensures SumsOf(devices[..n]) == if i < n then Plus(Zero, devices[i]) else Zero
  {
    if n > 0 {
      assert devices[..n][..n - 1] == devices[..n - 1];
      OnlyOneSum(devices, n - 1, i);
    }
  }

  lemma AddZero(n: Number)
    ensures Add(Num(0.0), n) == n
  {
  }

  /** The only battery of a laptop is shown as it is. */
  lemma OnlyBatteryIsShown(devices: seq<Source>, i: nat)
    requires NoUps(devices) && i < |devices| && Supplies(devices[i])
    requires forall j :: 0 <= j < |devices| && j != i ==> !Supplies(devices[j])
    ensures var c, d := Composite(devices), devices[i];
            && c.kind == Battery && c.percentage == d.percentage && c.energy == d.energy
            && c.energyFull == d.energyFull && c.energyRate == d.energyRate
            && c.timeToEmpty == d.timeToEmpty && c.timeToFull == d.timeToFull
  {
    OnlyOneSum(devices, |devices|, i);
    assert devices[..|devices|] == devices;
    CompositeIsSum(devices);
    AddZero(devices[i].percentage);
    AddZero(devices[i].energy);
    AddZero(devices[i].energyRate);
  }

  lemma TwoSums(devices: seq<Source>, a: Source, b: Source)
    requires |devices| == 2 && a == devices[0] && b == devices[1] && Supplies(a) && Supplies(b)
    ensures NoUps(devices) && SumsOf(devices) == Plus(Plus(Zero, a), b)
  {
    var init := devices[..1];
    assert init[..0] == [] && init[0] == a;
    assert SumsOf(init) == Plus(Zero, a);
  }

  predicate AllNumbers(d: Source) { d.percentage.Num? && d.energy.Num? && d.energyRate.Num? }

  function TotalOfTwo(a: Source, b: Source, state: DeviceState): Total
    requires AllNumbers(a) && AllNumbers(b)
  {
    Total(Battery, state, Num(a.percentage.x + b.percentage.x), Num(a.energy.x + b.energy.x), a.energyFull + b.energyFull,
          Num(a.energyRate.x + b.energyRate.x), a.timeToEmpty + b.timeToEmpty, a.timeToFull + b.timeToFull)
  }

  lemma PlusTwo(a: Source, b: Source, state: DeviceState)
    requires Supplies(a) && Supplies(b) && AllNumbers(a) && AllNumbers(b)
    ensures Plus(Plus(Zero, a), b).batteries == 2
    ensures TotalOf(Plus(Plus(Zero, a), b), state) == TotalOfTwo(a, b, state)
  {
  }

  lemma SeveralShow(devices: seq<Source>, s: Sums)
    requires NoUps(devices) && SumsOf(devices) == s && s.batteries >= 2
    ensures Shows(Composite(devices), TotalOf(s, Composite(devices).state))
  {
    CompositeIsSum(devices);
  }

  /** Two batteries, written out. */
  lemma TwoBatteriesAreAdded(devices: seq<Source>, a: Source, b: Source)
    requires |devices| == 2 && a == devices[0] && b == devices[1]
    requires Supplies(a) && Supplies(b) && AllNumbers(a) && AllNumbers(b)
    ensures Shows(Composite(devices), TotalOfTwo(a, b, Composite(devices).state))
  {
    TwoSums(devices, a, b);
    PlusTwo(a, b, Composite(devices).state);
    SeveralShow(devices, Plus(Plus(Zero, a), b));
  }

  // ----- The state

  predicate HasState(devices: seq<Source>, state: DeviceState) {
    exists i :: 0 <= i < |devices| && Supplies(devices[i]) && devices[i].state == state
  }

  /** The first battery that waits for charge or is full is in this one of the two states. */
  predicate WaitsFirst(devices: seq<Source>, state: DeviceState) {
    exists i :: 0 <= i < |devices| && WaitsAt(devices, i, state)
  }

  predicate WaitsAt(devices: seq<Source>, i: nat, state: DeviceState)
    requires i < |devices|
  {
    && Supplies(devices[i]) && devices[i].state == state && (state == PendingCharge || state == FullyCharged)
    && forall j :: 0 <= j < i && Supplies(devices[j]) ==> devices[j].state != PendingCharge && devices[j].state != FullyCharged
  }

  predicate StateIs(devices: seq<Source>, state: DeviceState) {
    && (state == Charging <==> HasState(devices, Charging))
    && (state == Discharging <==> HasState(devices, Discharging) && !HasState(devices, Charging))
    && (state == PendingCharge <==>
          WaitsFirst(devices, PendingCharge) && !HasState(devices, Charging) && !HasState(devices, Discharging))
    && (state == FullyCharged <==>
          WaitsFirst(devices, FullyCharged) && !HasState(devices, Charging) && !HasState(devices, Discharging))
    && (state == Unknown <==>
          !HasState(devices, Charging) && !HasState(devices, Discharging) &&
          !HasState(devices, PendingCharge) && !HasState(devices, FullyCharged))
    && state in {Charging, Discharging, PendingCharge, FullyCharged, Unknown}
  }

  lemma HasStateSnoc(devices: seq<Source>, d: Source, s: DeviceState)
    ensures HasState(devices + [d], s) <==> HasState(devices, s) || (Supplies(d) && d.state == s)
  {
    var all := devices + [d];
    assert all[|devices|] == d && forall i :: 0 <= i < |devices| ==> all[i] == devices[i];
  }

  lemma WaitsFirstSnoc(devices: seq<Source>, d: Source, s: DeviceState)
    requires s == PendingCharge || s == FullyCharged
    ensures WaitsFirst(devices + [d], s) <==>
              WaitsFirst(devices, s) ||
              (Supplies(d) && d.state == s && !HasState(devices, PendingCharge) && !HasState(devices, FullyCharged))
    ensures WaitsFirst(devices, s) ==> HasState(devices, s)
  {
    var all := devices + [d];
    assert all[|devices|] == d && forall i :: 0 <= i < |devices| ==> all[i] == devices[i];
    if i :| 0 <= i < |devices| && WaitsAt(devices, i, s) {
      assert WaitsAt(all, i, s);
    }
    if i :| 0 <= i < |all| && WaitsAt(all, i, s) {
      if i < |devices| {
        assert WaitsAt(devices, i, s);
      }
    }
    if Supplies(d) && d.state == s && !HasState(devices, PendingCharge) && !HasState(devices, FullyCharged) {
      assert WaitsAt(all, |devices|, s);
    }
  }

  lemma {:induction false} StateIsShown(devices: seq<Source>)
    ensures StateIs(devices, CompositeState(Batteries(devices)))
  {
    if devices != [] {
      var n := |devices| - 1;
      var init, d := devices[..n], devices[n];
      assert init + [d] == devices;
      StateIsShown(init);
      NextStateIsComposite(Batteries(init), d);
      StateAfter(init, d, CompositeState(Batteries(init)));
      assert Batteries(devices) == if Supplies(d) then Batteries(init) + [d] else Batteries(init);
    }
  }

  lemma StateAfter(devices: seq<Source>, d: Source, state: DeviceState)
    requires StateIs(devices, state)
    ensures StateIs(devices + [d], if Supplies(d) then NextState(state, d.state) else state)
  {
    HasStateSnoc(devices, d, Charging);
    HasStateSnoc(devices, d, Discharging);
    HasStateSnoc(devices, d, PendingCharge);
    HasStateSnoc(devices, d, FullyCharged);
    WaitsFirstSnoc(devices, d, PendingCharge);
    WaitsFirstSnoc(devices, d, FullyCharged);
  }

  /** The state without a UPS: charging if a battery charges, else discharging if one discharges, else that of
      the first battery that waits for charge or is full, else unknown. */
  lemma StateExactly(devices: seq<Source>)
    requires NoUps(devices)
    ensures StateIs(devices, Composite(devices).state)
  {
    NoUpsIsLast(devices);
    StateIsShown(devices);
  }

  // ----- The order of the list

  lemma PlusCommutes(s: Sums, a: Source, b: Source)
    ensures Plus(Plus(s, a), b) == Plus(Plus(s, b), a)
  {
  }

  lemma {:induction false} SumOfMiddle(xs: seq<Source>, d: Source, ys: seq<Source>)
    ensures SumsOf(xs + [d] + ys) == Plus(SumsOf(xs + ys), d)
  {
    var all := xs + [d] + ys;
    if ys == [] {
      assert all[..|xs|] == xs && xs + ys == xs;
    } else {
      var n := |ys| - 1;
      assert all[..|all| - 1] == xs + [d] + ys[..n];
      assert (xs + ys)[..|xs| + n] == xs + ys[..n];
      SumOfMiddle(xs, d, ys[..n]);
      PlusCommutes(SumsOf(xs + ys[..n]), d, ys[n]);
    }
  }

  lemma SumWithout(devices: seq<Source>, i: nat, rest: seq<Source>)
    requires i < |devices| && rest == devices[..i] + devices[i + 1..]
    ensures SumsOf(devices) == Plus(SumsOf(rest), devices[i])
  {
    SumAround(devices, devices[..i], devices[i], devices[i + 1..], rest);
  }

  lemma SumAround(devices: seq<Source>, xs: seq<Source>, d: Source, ys: seq<Source>, rest: seq<Source>)
    requires |devices| == |xs| + 1 + |ys| && devices[..|xs|] == xs && devices[|xs|] == d && devices[|xs| + 1..] == ys
    requires rest == xs + ys
    ensures SumsOf(devices) == Plus(SumsOf(rest), d)
  {
    assert devices == xs + [d] + ys;
    SumOfMiddle(xs, d, ys);
  }

  lemma MultisetOfMiddle(xs: seq<Source>, i: nat)
    requires i < |xs|
    ensures multiset(xs[..i] + xs[i + 1..]) == multiset(xs) - multiset{xs[i]}
  {
    assert xs == xs[..i] + [xs[i]] + xs[i + 1..];
    assert multiset(xs) == multiset(xs[..i]) + multiset{xs[i]} + multiset(xs[i + 1..]);
  }

  lemma {:induction false} SumsOfPermutation(a: seq<Source>, b: seq<Source>)
    requires multiset(a) == multiset(b)
    ensures SumsOf(a) == SumsOf(b)
  {
    if a != [] {
      var n := |a| - 1;
      assert a[n] in multiset(b);
      var i :| 0 <= i < |b| && b[i] == a[n];
      SumWithout(b, i, b[..i] + b[i + 1..]);
      MultisetOfMiddle(b, i);
      MultisetOfMiddle(a, n);
      assert a[..n] + a[n + 1..] == a[..n];
      SumsOfPermutation(a[..n], b[..i] + b[i + 1..]);
    } else {
      assert |multiset(b)| == 0;
    }
  }

  lemma HasStatePermutation(a: seq<Source>, b: seq<Source>, s: DeviceState)
    requires multiset(a) == multiset(b)
    ensures HasState(a, s) ==> HasState(b, s)
  {
    if i :| 0 <= i < |a| && Supplies(a[i]) && a[i].state == s {
      assert a[i] in multiset(b);
      var j :| 0 <= j < |b| && b[j] == a[i];
    }
  }

  lemma NoUpsPermutation(a: seq<Source>, b: seq<Source>)
    requires NoUps(a) && multiset(a) == multiset(b)
    ensures NoUps(b)
  {
    forall j | 0 <= j < |b| ensures b[j].kind != Ups {
      assert b[j] in multiset(a);
      var i :| 0 <= i < |a| && a[i] == b[j];
    }
  }

  lemma StatePermutation(a: seq<Source>, b: seq<Source>, s: DeviceState, t: DeviceState)
    requires multiset(a) == multiset(b) && StateIs(a, s) && StateIs(b, t)
    ensures s == t || {s, t} == {PendingCharge, FullyCharged}
  {
    forall s: DeviceState ensures HasState(a, s) <==> HasState(b, s) {
      HasStatePermutation(a, b, s);
      HasStatePermutation(b, a, s);
    }
  }

  /** The order of the list does not matter to what is shown, but for the choice between pending and full. */
  lemma OrderDoesNotMatter(a: seq<Source>, b: seq<Source>)
    requires NoUps(a) && multiset(a) == multiset(b)
    ensures NoUps(b)
    ensures Composite(a).(state := Unknown) == Composite(b).(state := Unknown)
    ensures Composite(a).state == Composite(b).state ||
            {Composite(a).state, Composite(b).state} == {PendingCharge, FullyCharged}
  {
    NoUpsPermutation(a, b);
    SumsOfPermutation(a, b);
    StateExactly(a);
    StateExactly(b);
    StatePermutation(a, b, Composite(a).state, Composite(b).state);
    SameTotals(a, b);
  }

  lemma SameTotals(a: seq<Source>, b: seq<Source>)
    requires NoUps(a) && NoUps(b) && SumsOf(a) == SumsOf(b)
    requires Composite(a).state == Charging <==> Composite(b).state == Charging
    requires Composite(a).state == Discharging <==> Composite(b).state == Discharging
    ensures Composite(a).(state := Unknown) == Composite(b).(state := Unknown)
  {
    CompositeIs(a);
    CompositeIs(b);
    WeightedBesidesState(TotalOf(SumsOf(a), CompositeState(Batteries(a))), CompositeState(Batteries(b)));
  }

  lemma WeightedBesidesState(t: Total, state: DeviceState)
    ensures Weighted(t).state == t.state
    ensures (t.state == Charging <==> state == Charging) && (t.state == Discharging <==> state == Discharging) ==>
              Weighted(t).(state := Unknown) == Weighted(t.(state := state)).(state := Unknown)
  {
  }

  // ----- A UPS

  /** A UPS is shown as it is, unless there are several batteries in front of it in the list, when its
      percentage and times follow from its energies. */
  lemma UpsIsShown(devices: seq<Source>, n: nat)
    requires n < |devices| && devices[n].kind == Ups && NoUps(devices[..n])
    ensures var c, u := Composite(devices), devices[n];
            var own := Total(Ups, u.state, u.percentage, u.energy, u.energyFull, u.energyRate, u.timeToEmpty, u.timeToFull);
            if SumsOf(devices[..n]).batteries <= 1 then c == own else Shows(c, own)
  {
    assert forall i :: 0 <= i < n ==> devices[..n][i] == devices[i];
    assert FirstUps(devices) == n;
    SummedIsTotal(devices[..n]);
    WeightedShows(OfUps(devices[n]));
  }
}
