/**
 src/up-history.c: which entries of a history a charge profile measures, which bin and which of the two
 profiles each measured step goes to, and what the shown values are.
 */
module ProfileLaws {
  import opened DecimalText
  import opened Doubles
  import opened HistoryItem
  import opened HistoryProfile
  import opened UpTypes
  import opened Wrappers

  // ----- The steps that are measured

  /** The entry goes on in the state of the one before it. */
  predicate GoesOn(items: seq<Item>, j: nat)
    requires j < |items|
  {
    j > 0 && items[j].state == items[j - 1].state
  }

  function Bin(items: seq<Item>, j: nat): nat
    requires j < |items|
  {
    BinOf(items[j].value)
  }

  /** The latest entry before j that goes on in a state, be it another one. */
  function Latest(items: seq<Item>, j: nat): (r: Option<nat>)
    requires j <= |items|
    ensures r.Some? ==> r.value < j && GoesOn(items, r.value)
  {
    if j == 0 then None else if GoesOn(items, j - 1) then Some(j - 1) else Latest(items, j - 1)
  }

  /** The entry goes on in its state and has another bin than the latest one that went on. */
  predicate Changes(items: seq<Item>, j: nat)
    requires j < |items|
  {
    GoesOn(items, j) && (Latest(items, j).Some? ==> Bin(items, Latest(items, j).value) != Bin(items, j))
  }

  /** The latest change before j within the state of j. */
  function Previous(items: seq<Item>, j: nat): (r: Option<nat>)
    requires j < |items|
    ensures r.Some? ==> r.value < j && Changes(items, r.value)
  {
    if !GoesOn(items, j) then None
    else if Changes(items, j - 1) then Some(j - 1)
    else Previous(items, j - 1)
  }

  /** The value moves by a hundredth to three percent. */
  predicate Moderate(items: seq<Item>, a: nat, b: nat)
    requires a < |items| && b < |items|
  {
    var v, w := items[a].value.Real(), items[b].value.Real();
    0.01 <= w - v <= 3.0 || 0.01 <= v - w <= 3.0
  }

  /** A change is dropped, and the next one is measured from nothing, when it is no moderate step from a
      previous one that was not dropped. */
  predicate Dropped(items: seq<Item>, j: nat)
    requires j < |items|
  {
    && Previous(items, j).Some? && !Dropped(items, Previous(items, j).value)
    && !Moderate(items, Previous(items, j).value, j)
  }

  /** A step is measured from a change that was not dropped to the next one in the same state. */
  predicate Measured(items: seq<Item>, s: Sample) {
    && s.to < |items| && Changes(items, s.to) && Previous(items, s.to) == Some(s.from)
    && !Dropped(items, s.from) && Moderate(items, s.from, s.to) && s.bin == Bin(items, s.to)
  }

  /** The latest change among the first i entries that is within the state of the last of them. */
  function Current(items: seq<Item>, i: nat): (r: Option<nat>)
    requires i <= |items|
    ensures r.Some? ==> r.value < i
  {
    if i == 0 then None else if Changes(items, i - 1) then Some(i - 1) else Previous(items, i - 1)
  }

  /** What the walk knows after i entries. */
  predicate Knows(items: seq<Item>, i: nat, w: Walk)
    requires i <= |items|
  {
    && (match Latest(items, i) case Some(p) => w.oldBin == Bin(items, p) case None => w.oldBin >= BINS)
    && w.held == (match Current(items, i) case Some(c) => if Dropped(items, c) then None else Some(c) case None => None)
  }

  lemma {:induction false} WalkKnows(items: seq<Item>, i: nat)
    requires i <= |items|
    ensures Knows(items, i, Walked(items, i))
  {
    if i > 0 {
      WalkKnows(items, i - 1);
      AdvanceKnows(items, i - 1, Walked(items, i - 1));
    }
  }

  lemma OutlierExactly(items: seq<Item>, a: nat, j: nat)
    requires a < |items| && j < |items|
    ensures Outlier(items, Some(a), j) <==> !Moderate(items, a, j)
  {
  }

  /** The held entry decides whether a change is dropped. */
  lemma HeldDecides(items: seq<Item>, j: nat, w: Walk)
    requires j < |items| && Knows(items, j, w) && (w.held.Some? ==> w.held.value < j) && GoesOn(items, j)
    ensures Current(items, j) == Previous(items, j)
    ensures Dropped(items, j) <==> Outlier(items, w.held, j)
  {
    if w.held.Some? {
      OutlierExactly(items, w.held.value, j);
    }
  }

  lemma AdvanceKnows(items: seq<Item>, j: nat, w: Walk)
    requires j < |items| && Knows(items, j, w) && (w.held.Some? ==> w.held.value < j)
    ensures Knows(items, j + 1, Advance(w, j, Starts(items, j), Bin(items, j), Outlier(items, w.held, j)))
  {
    if GoesOn(items, j) {
      HeldDecides(items, j, w);
      assert Latest(items, j + 1) == Some(j);
      assert Changes(items, j) <==> Bin(items, j) != w.oldBin;
    }
  }

  lemma AdvanceMeasures(items: seq<Item>, j: nat, w: Walk, s: Sample)
    requires j < |items| && Knows(items, j, w) && (w.held.Some? ==> w.held.value < j)
    ensures var next := Advance(w, j, Starts(items, j), Bin(items, j), Outlier(items, w.held, j));
            s in next.samples <==> s in w.samples || (s.to == j && Measured(items, s))
  {
    if GoesOn(items, j) {
      HeldDecides(items, j, w);
      if w.held.Some? {
        OutlierExactly(items, w.held.value, j);
      }
    }
  }

  /** The steps of a history are exactly the measured ones. */
  lemma {:induction false} StepsExactly(items: seq<Item>, i: nat, s: Sample)
    requires i <= |items|
    ensures s in Walked(items, i).samples <==> s.to < i && Measured(items, s)
  {
    if i > 0 {
      StepsExactly(items, i - 1, s);
      WalkKnows(items, i - 1);
      AdvanceMeasures(items, i - 1, Walked(items, i - 1), s);
    }
  }

  /** Where a step begins and ends: within one state, whose first entry it does not touch, between two bins,
      of which the first one lasts up to its end. */
  lemma {:induction false} StepIsWithinState(items: seq<Item>, j: nat)
    requires j < |items| && Previous(items, j).Some?
    ensures var f := Previous(items, j).value;
            && OneState(items, f - 1, j)
            && (forall k :: f <= k < j ==> Bin(items, k) == Bin(items, f))
            && (Changes(items, j) <==> Bin(items, f) != Bin(items, j))
  {
    if !Changes(items, j - 1) {
      StepIsWithinState(items, j - 1);
    }
  }

  /** `rint` gives the nearest integer, and the even one of two. */
  predicate Nearest(x: real, n: nat) {
    n as real - 0.5 <= x <= n as real + 0.5 && (x == n as real + 0.5 || x == n as real - 0.5 ==> n % 2 == 0)
  }

  lemma RoundedIsNearest(x: real)
    requires x >= 0.0
    ensures Nearest(x, RoundHalfEven(x))
  {
    var below := x.Floor;
    assert below as real <= x < below as real + 1.0;
    assert x - below as real == 0.5 ==> RoundHalfEven(x) % 2 == 0;
  }

  /** The bin of a percentage is the nearest one, and what is above the bins goes to the last one. */
  lemma NearestBin(v: Double)
    requires !v.negative && v.magnitude <= 4294967294.0
    ensures if v.magnitude <= 100.5 then Nearest(v.magnitude, BinOf(v)) else BinOf(v) == 100
  {
    var n: int := RoundHalfEven(v.magnitude);
    RoundedIsNearest(v.magnitude);
    assert n % UINT32 == n;
  }

  // ----- Which bin and which profile a step goes to

  predicate IsSteps(items: seq<Item>, samples: seq<Sample>) {
    forall k :: 0 <= k < |samples| ==> IsSample(samples[k], |items|)
  }

  /** The seconds of the steps that end in a bin and a state. */
  function SecondsIn(items: seq<Item>, samples: seq<Sample>, bin: nat, state: DeviceState): nat
    requires IsSteps(items, samples)
  {
    if samples == [] then 0
    else
      var s := samples[|samples| - 1];
      SecondsIn(items, samples[..|samples| - 1], bin, state) +
      if s.bin == bin && items[s.to].state == state then (items[s.to].time - items[s.from].time) % UINT32 else 0
  }

  /** How many steps end in a bin and a state. */
  function CountIn(items: seq<Item>, samples: seq<Sample>, bin: nat, state: DeviceState): nat
    requires IsSteps(items, samples)
  {
    if samples == [] then 0
    else
      var s := samples[|samples| - 1];
      CountIn(items, samples[..|samples| - 1], bin, state) + if s.bin == bin && items[s.to].state == state then 1 else 0
  }

  function StateOf(charging: bool): DeviceState { if charging then Charging else Discharging }

  /** Each bin of a profile collects exactly the steps that end in it, in the profile's own state. */
  lemma {:induction false} TalliedExactly(items: seq<Item>, samples: seq<Sample>, bin: nat, charging: bool)
    requires IsSteps(items, samples) && bin < BINS
    ensures Tallied(items, samples, charging)[bin]
         == Tally(SecondsIn(items, samples, bin, StateOf(charging)), CountIn(items, samples, bin, StateOf(charging)))
  {
    if samples != [] {
      TalliedExactly(items, samples[..|samples| - 1], bin, charging);
    }
  }

  lemma {:induction false} NothingIn(items: seq<Item>, samples: seq<Sample>, bin: nat, state: DeviceState)
    requires IsSteps(items, samples) && forall i :: 0 <= i < |items| ==> items[i].state != state
    ensures SecondsIn(items, samples, bin, state) == 0 && CountIn(items, samples, bin, state) == 0
  {
    if samples != [] {
      NothingIn(items, samples[..|samples| - 1], bin, state);
    }
  }

  /** A history that never charges has an empty charging profile, and likewise for discharging. */
  lemma OtherStatesAreNotProfiled(items: seq<Item>, charging: bool)
    requires forall i :: 0 <= i < |items| ==> items[i].state != StateOf(charging)
    ensures forall b :: 0 <= b < 101 ==> Tallies(items, charging)[b] == Tally(0, 0)
    ensures Normalised(Tallies(items, charging)) == seq(101, _ => Stat(Num(0.0), 0.0))
  {
    var samples := Walked(items, |items|).samples;
    forall b | 0 <= b < 101 ensures Tallies(items, charging)[b] == Tally(0, 0) {
      TalliedExactly(items, samples, b, charging);
      NothingIn(items, samples, b, StateOf(charging));
    }
    forall b | 0 <= b < 101 ensures Normalised(Tallies(items, charging))[b] == Stat(Num(0.0), 0.0) {
    }
  }

  lemma {:induction false} TimeInOneProfile(items: seq<Item>, samples: seq<Sample>, charging: bool)
    requires IsSteps(items, samples) && forall i :: 0 <= i < |items| ==> items[i].state == StateOf(charging)
    ensures SecondsSum(Tallied(items, samples, charging)) == ElapsedSum(items, samples)
  {
    if samples == [] {
      SecondsToIsZero(Tallied(items, samples, charging), BINS);
    } else {
      TimeInOneProfile(items, samples[..|samples| - 1], charging);
      TalliedStep(items, samples, charging);
    }
  }

  /** A history that only charges has all its measured time in the charging profile, and likewise for
      discharging. */
  lemma OwnStateIsProfiled(items: seq<Item>, charging: bool)
    requires forall i :: 0 <= i < |items| ==> items[i].state == StateOf(charging)
    ensures SecondsSum(Tallies(items, charging)) == ElapsedSum(items, Walked(items, |items|).samples)
  {
    TimeInOneProfile(items, Walked(items, |items|).samples, charging);
  }

  // ----- What the values say

  /** The time of a bin with up to a hundred steps is their number times the profile's average time, raised
      by the bin's value; that average is the one over the bins that have steps. */
  lemma ValuesAreRelative(t: seq<Tally>, b: nat)
    requires b < |t| && 0 < t[b].samples <= 100 && Average(Averages(t)) > 0.0
    ensures var m := Averages(t);
            && Normalised(t)[b].value.Num?
            && m[b].Some? && t[b].samples as real * m[b].value == t[b].seconds as real
            && Average(m) * (1.0 + Normalised(t)[b].value.x) == m[b].value
            && Average(m) * NonEmpty(m, |m|) as real == AverageSum(m, |m|)
  {
    var m := Averages(t);
    AveragesSign(t);
    FactorScaled(m[b], Average(m));
    AverageTimesCount(m);
    RealQuotient(t[b].seconds as real, t[b].samples as real);
    Distribute(Average(m), 1.0, Normalised(t)[b].value.x);
  }
}
