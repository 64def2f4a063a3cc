/**
 src/up-history.c: the charge profile, with the clamped setter of libupower-glib/up-stats-item.c.
 One bin for each percentage from 0 to 100 collects how long the battery took to reach it.
 */
module HistoryProfile {
  import opened DecimalText
  import opened Doubles
  import opened HistoryItem
  import opened HistoryQuery
  import opened UpTypes
  import opened Wrappers

  const BINS: nat := 101

  datatype Stat = Stat(value: Number, accuracy: real)

  /** What up_stats_item_set_accuracy stores. */
  function ClampAccuracy(accuracy: real): (r: real)
    ensures 0.0 <= r <= 100.0 && (0.0 <= accuracy <= 100.0 ==> r == accuracy)
    ensures (accuracy <= 0.0 ==> r == 0.0) && (accuracy >= 100.0 ==> r == 100.0)
  {
    if accuracy < 0.0 then 0.0 else if accuracy > 100.0 then 100.0 else accuracy
  }

  /** `rint` converted to an unsigned integer and limited to the last bin. */
  function BinOf(v: Double): (bin: nat)
    ensures bin < BINS
  {
    var n: int := RoundHalfEven(v.magnitude);
    var u := (if v.negative then -n else n) % UINT32;
    if u >= BINS then BINS - 1 else u
  }

  /** A measured step from one entry to a later one. */
  datatype Sample = Sample(from: nat, to: nat, bin: nat)

  predicate IsSample(s: Sample, length: nat) { s.from < s.to < length && s.bin < BINS }

  datatype Walk = Walk(samples: seq<Sample>, oldBin: nat, held: Option<nat>)

  function Distance(items: seq<Item>, a: nat, b: nat): real
    requires a < |items| && b < |items|
  {
    var d := items[b].value.Real() - items[a].value.Real();
    if d < 0.0 then -d else d
  }

  /** Entry j: whether its state run starts here, its bin, and whether it is too near to or too far
      from the held entry to count as a step. */
  function Advance(before: Walk, j: nat, starts: bool, bin: nat, outlier: bool): Walk {
    if starts then before.(held := None)
    else if bin == before.oldBin then before
    else if before.held.None? then before.(oldBin := bin, held := Some(j))
    else if outlier then before.(oldBin := bin, held := None)
    else Walk(before.samples + [Sample(before.held.value, j, bin)], bin, Some(j))
  }

  predicate Starts(items: seq<Item>, j: nat)
    requires j < |items|
  {
    j == 0 || items[j].state != items[j - 1].state
  }

  predicate Outlier(items: seq<Item>, held: Option<nat>, j: nat)
    requires j < |items| && (held.Some? ==> held.value < |items|)
  {
    held.Some? && (Distance(items, held.value, j) < 0.01 || Distance(items, held.value, j) > 3.0)
  }

  /** The state of the walk after the first i entries. */
  function Walked(items: seq<Item>, i: nat): (r: Walk)
    requires i <= |items|
    ensures forall k :: 0 <= k < |r.samples| ==> IsSample(r.samples[k], |items|)
    ensures r.held.Some? ==> r.held.value < i
  {
    if i == 0 then Walk([], 999, None)
    else
      var before, j := Walked(items, i - 1), i - 1;
      Advance(before, j, Starts(items, j), BinOf(items[j].value), Outlier(items, before.held, j))
  }

  /** The difference of two unsigned times. */
  function Elapsed(items: seq<Item>, s: Sample): nat
    requires IsSample(s, |items|)
  {
    (items[s.to].time - items[s.from].time) % UINT32
  }

  predicate Wanted(items: seq<Item>, s: Sample, charging: bool)
    requires IsSample(s, |items|)
  {
    items[s.to].state == if charging then Charging else Discharging
  }

  /** The seconds and the number of the samples that a bin collects. */
  datatype Tally = Tally(seconds: nat, samples: nat) {
    function Counter(): (c: real)
      ensures 0.0 <= c <= 100.0 && (c == 0.0 <==> samples == 0)
    {
      if samples > 100 then 100.0 else samples as real
    }

    /** The seconds for one sample, unless the bin is empty. */
    function Averaged(): Option<real> {
      if samples == 0 then None else Some(seconds as real / Counter())
    }
  }

  /** A sample in the wanted state goes into its bin. */
  function Added(items: seq<Item>, before: seq<Tally>, s: Sample, charging: bool): (r: seq<Tally>)
    requires |before| == BINS && IsSample(s, |items|)
    ensures |r| == BINS
  {
    if Wanted(items, s, charging)
    then before[s.bin := Tally(before[s.bin].seconds + Elapsed(items, s), before[s.bin].samples + 1)]
    else before
  }

  function Tallied(items: seq<Item>, samples: seq<Sample>, charging: bool): (r: seq<Tally>)
    requires forall k :: 0 <= k < |samples| ==> IsSample(samples[k], |items|)
    ensures |r| == BINS
    ensures forall b :: 0 <= b < BINS && r[b].samples == 0 ==> r[b].seconds == 0
  {
    if samples == [] then seq(BINS, _ => Tally(0, 0))
    else
      var n := |samples| - 1;
      Added(items, Tallied(items, samples[..n], charging), samples[n], charging)
  }

  function Tallies(items: seq<Item>, charging: bool): (r: seq<Tally>)
    ensures |r| == BINS
    ensures forall b :: 0 <= b < BINS && r[b].samples == 0 ==> r[b].seconds == 0
  {
    Tallied(items, Walked(items, |items|).samples, charging)
  }

  function Averages(tallies: seq<Tally>): (r: seq<Option<real>>)
    ensures |r| == |tallies|
    ensures forall b :: 0 <= b < |r| ==> r[b] == tallies[b].Averaged()
  {
    seq(|tallies|, b requires 0 <= b < |tallies| => tallies[b].Averaged())
  }

  /** Sum and number of the averages among the first k bins. */
  function AverageSum(m: seq<Option<real>>, k: nat): real
    requires k <= |m|
  {
    if k == 0 then 0.0 else AverageSum(m, k - 1) + match m[k - 1] case None => 0.0 case Some(x) => x
  }

  function NonEmpty(m: seq<Option<real>>, k: nat): nat
    requires k <= |m|
  {
    if k == 0 then 0 else NonEmpty(m, k - 1) + if m[k - 1].Some? then 1 else 0
  }

  function Average(m: seq<Option<real>>): real {
    var n := NonEmpty(m, |m|);
    if n == 0 then 0.0 else AverageSum(m, |m|) / n as real
  }

  /** The average of a bin relative to the average of all, which is 0 for the latter. */
  function Factor(bin: Option<real>, average: real): Number {
    if bin.None? then Num(0.0)
    else if average == 0.0 then NaN
    else Num((bin.value - average) / average)
  }

  function Normalised(tallies: seq<Tally>): (r: seq<Stat>)
    ensures |r| == |tallies|
    ensures forall b :: 0 <= b < |r| ==>
              r[b] == Stat(Factor(Averages(tallies)[b], Average(Averages(tallies))), ClampAccuracy(tallies[b].Counter() * 20.0))
  {
    seq(|tallies|, b requires 0 <= b < |tallies| =>
      Stat(Factor(Averages(tallies)[b], Average(Averages(tallies))), ClampAccuracy(tallies[b].Counter() * 20.0)))
  }

  predicate Holds(data: array<Stat>, t: seq<Tally>)
    reads data
  {
    data.Length == |t| &&
    forall b :: 0 <= b < |t| ==> data[b] == Stat(Num(t[b].seconds as real), t[b].Counter())
  }

  /** Count a step in its bin if it is in the wanted state. The accuracy field is the counter. */
  method AddSample(items: seq<Item>, from: nat, to: nat, bin: nat, charging: bool, data: array<Stat>,
                   ghost before: seq<Sample>)
    requires forall k :: 0 <= k < |before| ==> IsSample(before[k], |items|)
    requires IsSample(Sample(from, to, bin), |items|)
    requires Holds(data, Tallied(items, before, charging))
    modifies data
    ensures Holds(data, Tallied(items, before + [Sample(from, to, bin)], charging))
  {
    assert (before + [Sample(from, to, bin)])[..|before|] == before;
    var timeS := (items[to].time - items[from].time) % UINT32;
    if (charging && items[to].state == Charging) || (!charging && items[to].state == Discharging) {
      data[bin] := Stat(Num(data[bin].value.x + timeS as real), ClampAccuracy(data[bin].accuracy + 1.0));
    }
  }

  method CollectSamples(items: seq<Item>, charging: bool, data: array<Stat>)
    requires data.Length == BINS
    requires forall b :: 0 <= b < BINS ==> data[b] == Stat(Num(0.0), 0.0)
    modifies data
    ensures Holds(data, Tallies(items, charging))
  {
    var oldBin, itemOld: Option<nat> := 999, None;
    for i := 0 to |items|
      invariant oldBin == Walked(items, i).oldBin && itemOld == Walked(items, i).held
      invariant Holds(data, Tallied(items, Walked(items, i).samples, charging))
    {
      if Starts(items, i) {
        itemOld := None;
        continue;
      }
      var bin := BinOf(items[i].value);
      if oldBin != bin {
        oldBin := bin;
        if itemOld.Some? {
          if Outlier(items, itemOld, i) {
            itemOld := None;
            continue;
          }
          AddSample(items, itemOld.value, i, bin, charging, data, Walked(items, i).samples);
        }
        itemOld := Some(i);
      }
    }
  }

  function OrZero(bin: Option<real>): Number { Num(if bin.Some? then bin.value else 0.0) }

  /** Divide by the number of samples. */
  method AverageBins(data: array<Stat>, ghost t: seq<Tally>)
    requires Holds(data, t)
    requires forall b :: 0 <= b < |t| && t[b].samples == 0 ==> t[b].seconds == 0
    modifies data
    ensures forall b :: 0 <= b < |t| ==> data[b] == Stat(OrZero(t[b].Averaged()), t[b].Counter())
  {
    for i := 0 to data.Length
      invariant forall b :: 0 <= b < i ==> data[b] == Stat(OrZero(t[b].Averaged()), t[b].Counter())
      invariant forall b :: i <= b < |t| ==> data[b] == Stat(Num(t[b].seconds as real), t[b].Counter())
    {
      if data[i].accuracy != 0.0 {
        data[i] := data[i].(value := Num(data[i].value.x / data[i].accuracy));
      }
    }
  }

  /** The average over the bins that have samples, which are those with a positive counter. */
  method FindAverage(data: array<Stat>, ghost m: seq<Option<real>>) returns (average: real)
    requires data.Length == |m|
    requires forall b :: 0 <= b < |m| ==> data[b].value == OrZero(m[b]) && (data[b].accuracy > 0.0 <==> m[b].Some?)
    ensures average == Average(m)
  {
    var totalValue, nonZeroAccuracy := 0.0, 0;
    for i := 0 to data.Length
      invariant totalValue == AverageSum(m, i) && nonZeroAccuracy == NonEmpty(m, i)
    {
      if data[i].accuracy > 0.0 {
        totalValue := totalValue + data[i].value.x;
        nonZeroAccuracy := nonZeroAccuracy + 1;
      }
    }
    average := if nonZeroAccuracy != 0 then totalValue / nonZeroAccuracy as real else 0.0;
  }

  /** Make the values factors around 0, and the counters percentages. */
  method NormaliseBins(data: array<Stat>, average: real, ghost m: seq<Option<real>>)
    requires data.Length == |m|
    requires forall b :: 0 <= b < |m| ==> data[b].value == OrZero(m[b]) && (data[b].accuracy > 0.0 <==> m[b].Some?)
    modifies data
    ensures forall b :: 0 <= b < |m| ==>
              data[b] == Stat(Factor(m[b], average), ClampAccuracy(old(data[b].accuracy) * 20.0))
  {
    for i := 0 to data.Length
      invariant forall b :: 0 <= b < i ==> data[b] == Stat(Factor(m[b], average), old(data[b].accuracy))
      invariant forall b :: i <= b < |m| ==> data[b] == old(data[b])
    {
      if data[i].accuracy > 0.0 {
        data[i] := data[i].(value := if average == 0.0 then NaN else Num((data[i].value.x - average) / average));
      } else {
        data[i] := data[i].(value := Num(0.0));
      }
    }
    for i := 0 to data.Length
      invariant forall b :: 0 <= b < i ==>
                  data[b] == Stat(Factor(m[b], average), ClampAccuracy(old(data[b].accuracy) * 20.0))
      invariant forall b :: i <= b < |m| ==> data[b] == Stat(Factor(m[b], average), old(data[b].accuracy))
    {
      data[i] := data[i].(accuracy := ClampAccuracy(data[i].accuracy * 20.0));
    }
  }

  method GetProfileData(items: seq<Item>, charging: bool) returns (result: seq<Stat>)
    ensures result == Normalised(Tallies(items, charging))
  {
    var data := new Stat[BINS](_ => Stat(Num(0.0), 0.0));
    ghost var t := Tallies(items, charging);
    CollectSamples(items, charging, data);
    AverageBins(data, t);
    var average := FindAverage(data, Averages(t));
    NormaliseBins(data, average, Averages(t));
    result := data[..];
  }

  // ----- Time is not counted twice

  /** The entries of a sample, its last one included, have one state. */
  predicate OneState(items: seq<Item>, a: nat, b: nat)
    requires b < |items|
  {
    forall j :: a <= j <= b ==> items[j].state == items[b].state
  }

  predicate Disjoint(samples: seq<Sample>) {
    forall k :: 0 <= k < |samples| - 1 ==> samples[k].to <= samples[k + 1].from
  }

  /** The samples so far lie apart, each within one state, and before the held entry, whose state
      lasts up to the entry before i. */
  predicate Apart(items: seq<Item>, i: nat, w: Walk)
    requires i <= |items|
  {
    && Disjoint(w.samples)
    && (forall k :: 0 <= k < |w.samples| ==>
          w.samples[k].from < w.samples[k].to < i && OneState(items, w.samples[k].from, w.samples[k].to))
    && (w.held.Some? ==>
          && w.held.value < i && OneState(items, w.held.value, i - 1)
          && (w.samples != [] ==> w.samples[|w.samples| - 1].to <= w.held.value))
  }

  lemma AdvanceKeepsApart(items: seq<Item>, j: nat, before: Walk, bin: nat, outlier: bool)
    requires j < |items| && Apart(items, j, before)
    ensures Apart(items, j + 1, Advance(before, j, Starts(items, j), bin, outlier))
  {
    if before.held.Some? && !Starts(items, j) {
      assert OneState(items, before.held.value, j);
    }
  }

  lemma {:induction false} SamplesAreDisjoint(items: seq<Item>, i: nat)
    requires i <= |items|
    ensures Apart(items, i, Walked(items, i))
  {
    if i > 0 {
      var before := Walked(items, i - 1);
      SamplesAreDisjoint(items, i - 1);
      var bin, outlier := BinOf(items[i - 1].value), Outlier(items, before.held, i - 1);
      AdvanceKeepsApart(items, i - 1, before, bin, outlier);
      assert Walked(items, i) == Advance(before, i - 1, Starts(items, i - 1), bin, outlier);
    }
  }

  function ElapsedSum(items: seq<Item>, samples: seq<Sample>): nat
    requires forall k :: 0 <= k < |samples| ==> IsSample(samples[k], |items|)
  {
    if samples == [] then 0
    else ElapsedSum(items, samples[..|samples| - 1]) + Elapsed(items, samples[|samples| - 1])
  }

  lemma {:induction false} ElapsedSumBound(items: seq<Item>, samples: seq<Sample>)
    requires OldestFirst(items) && Disjoint(samples)
    requires forall k :: 0 <= k < |samples| ==> IsSample(samples[k], |items|)
    ensures samples != [] ==> ElapsedSum(items, samples) <= items[samples[|samples| - 1].to].time - items[0].time
  {
    if samples != [] {
      var n := |samples| - 1;
      var s := samples[n];
      assert items[s.from].time <= items[s.to].time;
      ElapsedSumBound(items, samples[..n]);
      if n > 0 {
        assert items[samples[n - 1].to].time <= items[s.from].time;
      } else {
        assert items[0].time <= items[s.from].time;
      }
    }
  }

  function SecondsTo(tallies: seq<Tally>, k: nat): nat
    requires k <= |tallies|
  {
    if k == 0 then 0 else SecondsTo(tallies, k - 1) + tallies[k - 1].seconds
  }

  function SecondsSum(tallies: seq<Tally>): nat { SecondsTo(tallies, |tallies|) }

  lemma {:induction false} SecondsToUpdate(tallies: seq<Tally>, k: nat, b: nat, t: Tally)
    requires b < |tallies| && k <= |tallies|
    ensures SecondsTo(tallies[b := t], k)
         == SecondsTo(tallies, k) + if b < k then t.seconds - tallies[b].seconds else 0
  {
    if k > 0 {
      SecondsToUpdate(tallies, k - 1, b, t);
    }
  }

  lemma AddedSum(items: seq<Item>, before: seq<Tally>, s: Sample, charging: bool)
    requires |before| == BINS && IsSample(s, |items|)
    ensures SecondsSum(Added(items, before, s, charging))
         == SecondsSum(before) + if Wanted(items, s, charging) then Elapsed(items, s) else 0
  {
    if Wanted(items, s, charging) {
      var t := Tally(before[s.bin].seconds + Elapsed(items, s), before[s.bin].samples + 1);
      SecondsToUpdate(before, BINS, s.bin, t);
    }
  }

  lemma TalliedStep(items: seq<Item>, samples: seq<Sample>, charging: bool)
    requires samples != []
    requires forall k :: 0 <= k < |samples| ==> IsSample(samples[k], |items|)
    ensures var n := |samples| - 1;
            SecondsSum(Tallied(items, samples, charging)) == SecondsSum(Tallied(items, samples[..n], charging))
              + if Wanted(items, samples[n], charging) then Elapsed(items, samples[n]) else 0
  {
    var n := |samples| - 1;
    AddedSum(items, Tallied(items, samples[..n], charging), samples[n], charging);
  }

  lemma {:induction false} TalliedSum(items: seq<Item>, samples: seq<Sample>)
    requires forall k :: 0 <= k < |samples| ==> IsSample(samples[k], |items|)
    ensures SecondsSum(Tallied(items, samples, true)) + SecondsSum(Tallied(items, samples, false))
         <= ElapsedSum(items, samples)
  {
    if samples == [] {
      SecondsToIsZero(Tallied(items, samples, true), BINS);
      SecondsToIsZero(Tallied(items, samples, false), BINS);
    } else {
      TalliedSum(items, samples[..|samples| - 1]);
      TalliedStep(items, samples, true);
      TalliedStep(items, samples, false);
    }
  }

  /** The seconds in all the bins of the charging and the discharging profile together never exceed
      the time that the history spans. */
  lemma ProfileTimeIsConserved(items: seq<Item>)
    requires OldestFirst(items) && items != []
    ensures SecondsSum(Tallies(items, true)) + SecondsSum(Tallies(items, false))
         <= items[|items| - 1].time - items[0].time
  {
    var samples := Walked(items, |items|).samples;
    SamplesAreDisjoint(items, |items|);
    ElapsedSumBound(items, samples);
    TalliedSum(items, samples);
    assert items[0].time <= items[|items| - 1].time;
    if samples != [] {
      assert items[samples[|samples| - 1].to].time <= items[|items| - 1].time;
    }
  }

  // ----- Normalisation

  function Sum(xs: seq<real>): real {
    if xs == [] then 0.0 else Sum(xs[..|xs| - 1]) + xs[|xs| - 1]
  }

  lemma {:induction false} SumScaled(a: real, xs: seq<real>, ys: seq<real>)
    requires |xs| == |ys| && forall i :: 0 <= i < |xs| ==> a * xs[i] == ys[i]
    ensures a * Sum(xs) == Sum(ys)
  {
    if xs != [] {
      var n := |xs| - 1;
      SumScaled(a, xs[..n], ys[..n]);
      assert a * (Sum(xs[..n]) + xs[n]) == a * Sum(xs[..n]) + a * xs[n];
    }
  }

  function Deviation(bin: Option<real>, average: real): real {
    if bin.Some? then bin.value - average else 0.0
  }

  lemma {:induction false} DeviationSum(m: seq<Option<real>>, average: real, k: nat, d: seq<real>)
    requires k <= |m| && |d| == k && forall b :: 0 <= b < k ==> d[b] == Deviation(m[b], average)
    ensures Sum(d) == AverageSum(m, k) - NonEmpty(m, k) as real * average
  {
    if k > 0 {
      DeviationSum(m, average, k - 1, d[..k - 1]);
      var n := NonEmpty(m, k - 1) as real;
      assert (n + 1.0) * average == n * average + average;
    }
  }

  predicate NonNegative(m: seq<Option<real>>) {
    forall b :: 0 <= b < |m| && m[b].Some? ==> m[b].value >= 0.0
  }

  lemma {:induction false} AverageSumSign(m: seq<Option<real>>, k: nat)
    requires k <= |m| && NonNegative(m)
    ensures AverageSum(m, k) >= 0.0
    ensures AverageSum(m, k) == 0.0 <==> forall b :: 0 <= b < k && m[b].Some? ==> m[b].value == 0.0
  {
    if k > 0 {
      AverageSumSign(m, k - 1);
    }
  }

  lemma {:induction false} NonEmptyIsZero(m: seq<Option<real>>, k: nat)
    requires k <= |m|
    ensures NonEmpty(m, k) == 0 <==> forall b :: 0 <= b < k ==> m[b].None?
  {
    if k > 0 {
      NonEmptyIsZero(m, k - 1);
    }
  }

  lemma AverageIsZero(m: seq<Option<real>>)
    requires NonNegative(m)
    ensures Average(m) >= 0.0
    ensures Average(m) == 0.0 <==> forall b :: 0 <= b < |m| && m[b].Some? ==> m[b].value == 0.0
  {
    var n, sum := NonEmpty(m, |m|), AverageSum(m, |m|);
    AverageSumSign(m, |m|);
    NonEmptyIsZero(m, |m|);
    if n > 0 {
      QuotientSign(sum, n as real);
    }
  }

  lemma QuotientSign(s: real, n: real)
    requires s >= 0.0 && n > 0.0
    ensures s / n >= 0.0 && (s / n == 0.0 <==> s == 0.0)
  {
    RealQuotient(s, n);
    RealQuotientBounds(s, n, 0.0, s / n);
  }

  lemma {:induction false} SecondsToIsZero(tallies: seq<Tally>, k: nat)
    requires k <= |tallies|
    ensures SecondsTo(tallies, k) == 0 <==> forall b :: 0 <= b < k ==> tallies[b].seconds == 0
  {
    if k > 0 {
      SecondsToIsZero(tallies, k - 1);
    }
  }

  lemma AveragesSign(tallies: seq<Tally>)
    ensures NonNegative(Averages(tallies))
    ensures forall b :: 0 <= b < |tallies| && tallies[b].samples > 0 ==>
              (Averages(tallies)[b].value == 0.0 <==> tallies[b].seconds == 0)
  {
    forall b | 0 <= b < |tallies| && tallies[b].samples > 0
      ensures Averages(tallies)[b].value >= 0.0
      ensures Averages(tallies)[b].value == 0.0 <==> tallies[b].seconds == 0
    {
      QuotientSign(tallies[b].seconds as real, tallies[b].Counter());
    }
  }

  /** 101 bins; an empty bin is 0 with accuracy 0; the accuracy is 20 for each sample up to 100; a
      bin is not a number exactly when it has samples and none of the profile's samples took time. */
  lemma ProfileShape(items: seq<Item>, charging: bool)
    ensures var t, r := Tallies(items, charging), Normalised(Tallies(items, charging));
            && |r| == 101
            && (forall b :: 0 <= b < 101 ==>
                  && (t[b].samples == 0 ==> r[b] == Stat(Num(0.0), 0.0))
                  && r[b].accuracy == (if t[b].samples >= 5 then 100.0 else 20.0 * t[b].samples as real)
                  && (r[b].value.NaN? <==> t[b].samples > 0 && SecondsSum(t) == 0))
  {
    var t := Tallies(items, charging);
    AveragesSign(t);
    AverageIsZero(Averages(t));
    SecondsToIsZero(t, |t|);
  }

  lemma FactorScaled(bin: Option<real>, a: real)
    requires a > 0.0 && (bin.Some? ==> bin.value >= 0.0)
    ensures Factor(bin, a).Num? && Factor(bin, a).x >= -1.0
    ensures a * Factor(bin, a).x == Deviation(bin, a)
  {
    if bin.Some? {
      var d := bin.value - a;
      RealQuotient(d, a);
      RealQuotientBounds(d, a, -1.0, d / a);
    }
  }

  lemma DeviationsScaled(m: seq<Option<real>>, a: real, values: seq<real>)
    requires |values| == |m|
    requires forall b :: 0 <= b < |m| ==> a * values[b] == Deviation(m[b], a)
    ensures a * Sum(values) == AverageSum(m, |m|) - NonEmpty(m, |m|) as real * a
  {
    var d := seq(|m|, b requires 0 <= b < |m| => Deviation(m[b], a));
    SumScaled(a, values, d);
    DeviationSum(m, a, |m|, d);
  }

  lemma AverageTimesCount(m: seq<Option<real>>)
    requires Average(m) > 0.0
    ensures NonEmpty(m, |m|) as real * Average(m) == AverageSum(m, |m|)
  {
    RealQuotient(AverageSum(m, |m|), NonEmpty(m, |m|) as real);
  }

  lemma ProductIsZero(a: real, x: real)
    requires a > 0.0 && a * x == 0.0
    ensures x == 0.0
  {
  }

  lemma ValueIsFactor(tallies: seq<Tally>, b: nat, x: real)
    requires Average(Averages(tallies)) > 0.0 && b < |tallies|
    requires Normalised(tallies)[b].value == Num(x)
    ensures x >= -1.0
    ensures Average(Averages(tallies)) * x == Deviation(Averages(tallies)[b], Average(Averages(tallies)))
  {
    AveragesSign(tallies);
    FactorScaled(Averages(tallies)[b], Average(Averages(tallies)));
  }

  lemma DeviationsBalance(m: seq<Option<real>>, values: seq<real>)
    requires Average(m) > 0.0 && |values| == |m|
    requires forall b :: 0 <= b < |m| ==> Average(m) * values[b] == Deviation(m[b], Average(m))
    ensures Sum(values) == 0.0
  {
    DeviationsScaled(m, Average(m), values);
    AverageTimesCount(m);
    ProductIsZero(Average(m), Sum(values));
  }

  predicate AreValues(stats: seq<Stat>, values: seq<real>) {
    |values| == |stats| && forall b :: 0 <= b < |stats| ==> stats[b].value == Num(values[b])
  }

  /** When the average is positive, the values of the profile sum to 0 and none is below -1. */
  lemma ValuesAreBalanced(tallies: seq<Tally>, values: seq<real>)
    requires Average(Averages(tallies)) > 0.0
    requires AreValues(Normalised(tallies), values)
    ensures Sum(values) == 0.0
    ensures forall b :: 0 <= b < |values| ==> values[b] >= -1.0
  {
    var m := Averages(tallies);
    forall b | 0 <= b < |m|
      ensures Average(m) * values[b] == Deviation(m[b], Average(m)) && values[b] >= -1.0
    {
      ValueIsFactor(tallies, b, values[b]);
    }
    DeviationsBalance(m, values);
  }
}
