/**
 src/up-history.c: reading a window of a history array and reducing it to about `resolution`
 points by time division.
 */
module HistoryQuery {
  import opened DecimalText
  import opened Doubles
  import opened HistoryItem
  import opened UpTypes
  import opened Wrappers

  /** The items start..end of an array, which become one point that carries `state`. */
  datatype Span = Span(start: nat, end: nat, state: DeviceState)

  function TimeSum(items: seq<Item>, a: nat, b: nat): (s: nat)
    requires a <= b <= |items|
    ensures s <= (b - a) * (UINT32 - 1)
  {
    if a == b then 0 else TimeSum(items, a, b - 1) + items[b - 1].time
  }

  function ValueSum(items: seq<Item>, a: nat, b: nat): real
    requires a <= b <= |items|
  {
    if a == b then 0.0 else ValueSum(items, a, b - 1) + items[b - 1].value.Real()
  }

  function FromReal(x: real): (v: Double)
    ensures v.Real() == x
  {
    if x < 0.0 then Double(true, -x) else Double(false, x)
  }

  lemma MulMonotone(n: nat, a: int, b: int)
    requires a <= b
    ensures n * a <= n * b
  {
  }

  lemma QuotientBounds(s: int, n: int, lo: int, hi: int)
    requires n > 0 && n * lo <= s <= n * hi
    ensures lo <= s / n <= hi
  {
    var q := s / n;
    assert n * q <= s < n * q + n;
    if q < lo {
      MulMonotone(n, q + 1, lo);
    }
    if q > hi {
      MulMonotone(n, hi + 1, q);
    }
  }

  /** The point of `count` items with the given sums. */
  function Average(count: nat, timeSum: nat, valueSum: real, state: DeviceState): Item
    requires count > 0 && timeSum <= count * (UINT32 - 1)
  {
    QuotientBounds(timeSum, count, 0, UINT32 - 1);
    Item(timeSum / count, FromReal(valueSum / count as real), state)
  }

  predicate IsSpan(span: Span, length: nat) { span.start < span.end <= length }

  function Mean(items: seq<Item>, g: Span): Item
    requires IsSpan(g, |items|)
  {
    Average(g.end - g.start, TimeSum(items, g.start, g.end), ValueSum(items, g.start, g.end), g.state)
  }

  /** Whether a time lies above the preset of a step. `first - last` is unsigned, and a resolution
      of 0 makes the division an infinity or not a number, which no time exceeds. */
  predicate OverPreset(first: UInt32, last: UInt32, resolution: nat, time: UInt32, step: nat) {
    && resolution > 0
    && time as real > last as real + (((first - last) % UINT32) as real / resolution as real) * step as real
  }

  /** The finished groups and the one being filled. */
  datatype Scan = Scan(closed: seq<Span>, open: Span) {
    function All(): seq<Span> { closed + [open] }
  }

  /** The state of the division after the first i items. The first group carries UNKNOWN. */
  function Scanned(items: seq<Item>, resolution: nat, i: nat): (r: Scan)
    requires 1 <= i <= |items|
    ensures IsSpan(r.open, |items|) && r.open.end == i
    ensures forall k :: 0 <= k < |r.closed| ==> IsSpan(r.closed[k], |items|)
  {
    if i == 1 then Scan([], Span(0, 1, Unknown))
    else
      var before := Scanned(items, resolution, i - 1);
      var item := items[i - 1];
      if OverPreset(items[0].time, items[|items| - 1].time, resolution, item.time, |before.closed| + 1) || item.state != before.open.state
      then Scan(before.closed + [before.open], Span(i - 1, i, item.state))
      else Scan(before.closed, before.open.(end := i))
  }

  function Means(items: seq<Item>, groups: seq<Span>): (r: seq<Item>)
    requires forall k :: 0 <= k < |groups| ==> IsSpan(groups[k], |items|)
    ensures |r| == |groups|
    ensures forall k :: 0 <= k < |r| ==> r[k] == Mean(items, groups[k])
  {
    seq(|groups|, k requires 0 <= k < |groups| => Mean(items, groups[k]))
  }

  function Groups(items: seq<Item>, resolution: nat): seq<Span>
    requires items != []
  {
    Scanned(items, resolution, |items|).All()
  }

  function Limited(items: seq<Item>, resolution: nat): seq<Item> {
    if |items| < resolution || items == [] then items
    else Means(items, Groups(items, resolution))
  }

  lemma MeansSnoc(items: seq<Item>, groups: seq<Span>, g: Span)
    requires IsSpan(g, |items|) && forall k :: 0 <= k < |groups| ==> IsSpan(groups[k], |items|)
    ensures forall k :: 0 <= k < |groups + [g]| ==> IsSpan((groups + [g])[k], |items|)
    ensures Means(items, groups + [g]) == Means(items, groups) + [Mean(items, g)]
  {
  }

  /** The point of the group that is being filled. */
  method AddPoint(points: seq<Item>, count: nat, timeS: nat, value: real, state: DeviceState,
                  ghost items: seq<Item>, ghost scan: Scan) returns (r: seq<Item>)
    requires IsSpan(scan.open, |items|) && forall k :: 0 <= k < |scan.closed| ==> IsSpan(scan.closed[k], |items|)
    requires points == Means(items, scan.closed) && count == scan.open.end - scan.open.start
    requires timeS == TimeSum(items, scan.open.start, scan.open.end)
    requires value == ValueSum(items, scan.open.start, scan.open.end) && state == scan.open.state
    ensures forall k :: 0 <= k < |scan.All()| ==> IsSpan(scan.All()[k], |items|)
    ensures r == Means(items, scan.All())
  {
    MeansSnoc(items, scan.closed, scan.open);
    r := points + [Average(count, timeS, value, state)];
  }

  method LimitResolution(items: seq<Item>, maxNum: nat) returns (points: seq<Item>)
    ensures points == Limited(items, maxNum)
  {
    points := [];
    if |items| == 0 {
      return;
    }
    if |items| < maxNum {
      return items;
    }
    var last, first := items[|items| - 1].time, items[0].time;
    var step, count, timeS, value, state := 1, 0, 0, 0.0, Unknown;
    ghost var scan := Scan([], Span(0, 1, Unknown));
    for i := 0 to |items|
      invariant i == 0 ==> count == 0 && timeS == 0 && value == 0.0 && state == Unknown && points == [] && step == 1
      invariant i > 0 ==>
          && scan == Scanned(items, maxNum, i)
          && points == Means(items, scan.closed)
          && step == |scan.closed| + 1
          && count == i - scan.open.start
          && timeS == TimeSum(items, scan.open.start, i)
          && value == ValueSum(items, scan.open.start, i)
          && state == scan.open.state
    {
      var item := items[i];
      ghost var before := scan;
      if count > 0 && (OverPreset(first, last, maxNum, item.time, step) || item.state != state) {
        points := AddPoint(points, count, timeS, value, state, items, before);
        step := step + 1;
        timeS, value, state, count := item.time, item.value.Real(), item.state, 1;
        assert TimeSum(items, i, i) == 0 && ValueSum(items, i, i) == 0.0;
      } else {
        count := count + 1;
        timeS := timeS + item.time;
        value := value + item.value.Real();
      }
      scan := Scanned(items, maxNum, i + 1);
    }
    if count > 0 {
      points := AddPoint(points, count, timeS, value, state, items, scan);
    }
  }

  /** Fewer items than the resolution are kept as they are, and of others one point is made for each group. */
  lemma LimitedExactly(items: seq<Item>, resolution: nat)
    ensures |items| < resolution || items == [] ==> Limited(items, resolution) == items
    ensures |items| >= resolution && items != [] ==>
              var groups := Groups(items, resolution);
              |Limited(items, resolution)| == |groups| &&
              forall k :: 0 <= k < |groups| ==>
                IsSpan(groups[k], |items|) && Limited(items, resolution)[k] == Mean(items, groups[k])
  {
  }

  // ----- The groups partition the input

  predicate Contiguous(groups: seq<Span>, length: nat) {
    && groups != []
    && groups[0].start == 0 && groups[|groups| - 1].end == length
    && (forall k :: 0 <= k < |groups| ==> IsSpan(groups[k], length))
    && (forall k :: 0 <= k < |groups| - 1 ==> groups[k].end == groups[k + 1].start)
  }

  /** Every group after the first carries the one state that all its items have. The first carries
      UNKNOWN, which all its items but the first have. */
  predicate StatesShared(items: seq<Item>, groups: seq<Span>, length: nat)
    requires Contiguous(groups, length) && length <= |items|
  {
    && groups[0].state == Unknown
    && (forall k :: 0 <= k < |groups| ==> StateShared(items, groups[k]))
  }

  predicate StateShared(items: seq<Item>, g: Span)
    requires IsSpan(g, |items|)
  {
    forall j :: g.start <= j < g.end && 0 < j ==> items[j].state == g.state
  }

  lemma {:induction false} ScannedContiguous(items: seq<Item>, resolution: nat, i: nat)
    requires 1 <= i <= |items|
    ensures Contiguous(Scanned(items, resolution, i).All(), i)
  {
    if i > 1 {
      ScannedContiguous(items, resolution, i - 1);
      var before, after := Scanned(items, resolution, i - 1), Scanned(items, resolution, i);
      var all := before.All();
      if |after.closed| > |before.closed| {
        assert after.All() == all + [after.open];
      } else {
        assert after.All() == all[|all| - 1 := after.open];
      }
    }
  }

  lemma {:induction false} ScannedPartition(items: seq<Item>, resolution: nat, i: nat)
    requires 1 <= i <= |items|
    ensures Contiguous(Scanned(items, resolution, i).All(), i)
    ensures StatesShared(items, Scanned(items, resolution, i).All(), i)
  {
    ScannedContiguous(items, resolution, i);
    if i > 1 {
      ScannedPartition(items, resolution, i - 1);
      var before, after := Scanned(items, resolution, i - 1), Scanned(items, resolution, i);
      var all := before.All();
      assert all[|all| - 1] == before.open && StateShared(items, all[|all| - 1]);
      if |after.closed| > |before.closed| {
        assert after.All() == all + [after.open];
      } else {
        assert after.All() == all[|all| - 1 := after.open];
      }
    }
  }

  lemma GroupsPartition(items: seq<Item>, resolution: nat)
    requires items != []
    ensures Contiguous(Groups(items, resolution), |items|)
    ensures StatesShared(items, Groups(items, resolution), |items|)
  {
    ScannedPartition(items, resolution, |items|);
  }

  // ----- Time and state divide the groups

  /** A time lies above a preset exactly when its distance from `last`, in parts of the whole, is more than
      the step. */
  lemma OverPresetExactly(first: UInt32, last: UInt32, resolution: nat, time: UInt32, step: nat)
    requires resolution > 0
    ensures OverPreset(first, last, resolution, time, step) <==>
              (time - last) * resolution > (first - last) % UINT32 * step
  {
    var width := (first - last) % UINT32;
    PartsOfWhole(width as real, resolution as real, (time - last) as real, step as real);
    assert ((time - last) * resolution) as real == (time - last) as real * resolution as real;
    assert (width * step) as real == width as real * step as real;
  }

  lemma PartsOfWhole(width: real, parts: real, distance: real, step: real)
    requires parts > 0.0
    ensures distance > width / parts * step <==> distance * parts > width * step
  {
    var part := width / parts;
    RealQuotient(width, parts);
    assert part * step * parts == width * step;
    if distance > part * step {
      RealMulMonotone(parts, part * step, distance);
    } else if distance < part * step {
      RealMulMonotone(parts, distance, part * step);
    }
  }

  /** How far an item lies above the end of the time that is divided, in units of a part. */
  function Above(items: seq<Item>, j: nat, resolution: nat): int
    requires j < |items|
  {
    (items[j].time - items[|items| - 1].time) * resolution
  }

  function Whole(items: seq<Item>): nat
    requires items != []
  {
    (items[0].time - items[|items| - 1].time) % UINT32
  }

  /** The items of the k-th group, but for its first one, are in the first k + 1 parts of the time. */
  predicate WithinParts(items: seq<Item>, resolution: nat, groups: seq<Span>) {
    && (forall k :: 0 <= k < |groups| ==> IsSpan(groups[k], |items|))
    && items != []
    && forall k, j :: 0 <= k < |groups| && groups[k].start < j < groups[k].end ==>
         Above(items, j, resolution) <= Whole(items) * (k + 1)
  }

  /** A group ends only where the state changes or the next item lies in a later part. */
  predicate EndsForReason(items: seq<Item>, resolution: nat, groups: seq<Span>, k: nat)
    requires k < |groups| && groups[k].end < |items|
  {
    || items[groups[k].end].state != groups[k].state
    || Above(items, groups[k].end, resolution) > Whole(items) * (k + 1)
  }

  lemma {:induction false} ScannedWithinParts(items: seq<Item>, resolution: nat, i: nat)
    requires resolution > 0 && 1 <= i <= |items|
    ensures WithinParts(items, resolution, Scanned(items, resolution, i).All())
  {
    if i > 1 {
      ScannedWithinParts(items, resolution, i - 1);
      var before, after := Scanned(items, resolution, i - 1), Scanned(items, resolution, i);
      OverPresetExactly(items[0].time, items[|items| - 1].time, resolution, items[i - 1].time, |before.closed| + 1);
      if |after.closed| > |before.closed| {
        assert after.All() == before.All() + [after.open];
      } else {
        assert after.All() == before.All()[|before.closed| := after.open];
        assert before.All()[|before.closed|] == before.open;
      }
    }
  }

  lemma {:induction false} ScannedEndsForReason(items: seq<Item>, resolution: nat, i: nat, k: nat)
    requires resolution > 0 && 1 <= i <= |items| && k < |Scanned(items, resolution, i).closed|
    ensures var groups := Scanned(items, resolution, i).All();
            groups[k].end < |items| && EndsForReason(items, resolution, groups, k)
  {
    var before, after := Scanned(items, resolution, i - 1), Scanned(items, resolution, i);
    OverPresetExactly(items[0].time, items[|items| - 1].time, resolution, items[i - 1].time, |before.closed| + 1);
    assert forall l :: 0 <= l < |before.closed| ==> after.All()[l] == before.All()[l];
    if k < |before.closed| {
      ScannedEndsForReason(items, resolution, i - 1, k);
    }
  }

  /** For any data: each group holds what lies in its parts of the time, and a group ends only because the
      state changes or the time of its parts is over. */
  lemma GroupsFollowTimeAndState(items: seq<Item>, resolution: nat)
    requires items != [] && resolution > 0
    ensures var groups, first, last := Groups(items, resolution), items[0].time, items[|items| - 1].time;
            && Contiguous(groups, |items|)
            && (forall k, j :: 0 <= k < |groups| && groups[k].start < j < groups[k].end ==>
                  (items[j].time - last) * resolution <= (first - last) % UINT32 * (k + 1))
            && (forall k :: 0 <= k < |groups| - 1 ==>
                  || items[groups[k + 1].start].state != groups[k].state
                  || (items[groups[k + 1].start].time - last) * resolution > (first - last) % UINT32 * (k + 1))
  {
    var groups := Groups(items, resolution);
    GroupsPartition(items, resolution);
    ScannedWithinParts(items, resolution, |items|);
    forall k, j | 0 <= k < |groups| && groups[k].start < j < groups[k].end
      ensures (items[j].time - items[|items| - 1].time) * resolution
           <= (items[0].time - items[|items| - 1].time) % UINT32 * (k + 1)
    {
      assert Above(items, j, resolution) <= Whole(items) * (k + 1);
    }
    forall k | 0 <= k < |groups| - 1
      ensures || items[groups[k + 1].start].state != groups[k].state
              || (items[groups[k + 1].start].time - items[|items| - 1].time) * resolution
                 > (items[0].time - items[|items| - 1].time) % UINT32 * (k + 1)
    {
      ScannedEndsForReason(items, resolution, |items|, k);
    }
  }

  // ----- Means stay within their group, and their weighted sum is the sum of the input

  /** The sums are those of the parts, down to single items. */
  lemma {:induction false} SumsAreAdditive(items: seq<Item>, a: nat, b: nat, c: nat)
    requires a <= b <= c <= |items|
    ensures TimeSum(items, a, c) == TimeSum(items, a, b) + TimeSum(items, b, c)
    ensures ValueSum(items, a, c) == ValueSum(items, a, b) + ValueSum(items, b, c)
    ensures c == a + 1 ==> TimeSum(items, a, c) == items[a].time && ValueSum(items, a, c) == items[a].value.Real()
  {
    if b < c {
      SumsAreAdditive(items, a, b, c - 1);
    }
    if c == a + 1 {
      assert TimeSum(items, a, a) == 0 && ValueSum(items, a, a) == 0.0;
    }
  }

  /** The time of a point is the mean of its group's times, rounded down, its value the mean of their
      values, and its state the group's. */
  lemma MeanIsMean(items: seq<Item>, g: Span)
    requires IsSpan(g, |items|)
    ensures var n, m := g.end - g.start, Mean(items, g);
            && n * m.time <= TimeSum(items, g.start, g.end) < n * m.time + n
            && n as real * m.value.Real() == ValueSum(items, g.start, g.end)
            && m.state == g.state
  {
    GroupWeight(items, g);
  }

  lemma {:induction false} TimeSumBounds(items: seq<Item>, a: nat, b: nat, lo: int, hi: int)
    requires a <= b <= |items|
    requires forall j :: a <= j < b ==> lo <= items[j].time <= hi
    ensures (b - a) * lo <= TimeSum(items, a, b) <= (b - a) * hi
  {
    if a < b {
      TimeSumBounds(items, a, b - 1, lo, hi);
      assert (b - a) * lo == (b - 1 - a) * lo + lo && (b - a) * hi == (b - 1 - a) * hi + hi;
    }
  }

  lemma OneMoreAbove(n: real, sum: real, x: real, lo: real)
    requires n * lo <= sum && lo <= x
    ensures (n + 1.0) * lo <= sum + x
  {
  }

  lemma OneMoreBelow(n: real, sum: real, x: real, hi: real)
    requires sum <= n * hi && x <= hi
    ensures sum + x <= (n + 1.0) * hi
  {
  }

  lemma {:induction false} ValueSumAbove(items: seq<Item>, a: nat, b: nat, lo: real)
    requires a <= b <= |items|
    requires forall j :: a <= j < b ==> lo <= items[j].value.Real()
    ensures (b - a) as real * lo <= ValueSum(items, a, b)
  {
    if a < b {
      ValueSumAbove(items, a, b - 1, lo);
      OneMoreAbove((b - 1 - a) as real, ValueSum(items, a, b - 1), items[b - 1].value.Real(), lo);
    }
  }

  lemma {:induction false} ValueSumBelow(items: seq<Item>, a: nat, b: nat, hi: real)
    requires a <= b <= |items|
    requires forall j :: a <= j < b ==> items[j].value.Real() <= hi
    ensures ValueSum(items, a, b) <= (b - a) as real * hi
  {
    if a < b {
      ValueSumBelow(items, a, b - 1, hi);
      OneMoreBelow((b - 1 - a) as real, ValueSum(items, a, b - 1), items[b - 1].value.Real(), hi);
    }
  }

  lemma MeanTimeWithin(items: seq<Item>, g: Span, t0: int, t1: int)
    requires IsSpan(g, |items|)
    requires forall j :: g.start <= j < g.end ==> t0 <= items[j].time <= t1
    ensures t0 <= Mean(items, g).time <= t1
  {
    TimeSumBounds(items, g.start, g.end, t0, t1);
    QuotientBounds(TimeSum(items, g.start, g.end), g.end - g.start, t0, t1);
  }

  lemma MeanValueWithin(items: seq<Item>, g: Span, v0: real, v1: real)
    requires IsSpan(g, |items|)
    requires forall j :: g.start <= j < g.end ==> v0 <= items[j].value.Real() <= v1
    ensures v0 <= Mean(items, g).value.Real() <= v1
  {
    ValueSumAbove(items, g.start, g.end, v0);
    ValueSumBelow(items, g.start, g.end, v1);
    RealQuotientBounds(ValueSum(items, g.start, g.end), (g.end - g.start) as real, v0, v1);
  }

  lemma MeanWithinGroup(items: seq<Item>, g: Span, t0: int, t1: int, v0: real, v1: real)
    requires IsSpan(g, |items|)
    requires forall j :: g.start <= j < g.end ==> t0 <= items[j].time <= t1
    requires forall j :: g.start <= j < g.end ==> v0 <= items[j].value.Real() <= v1
    ensures t0 <= Mean(items, g).time <= t1 && v0 <= Mean(items, g).value.Real() <= v1
  {
    MeanTimeWithin(items, g, t0, t1);
    MeanValueWithin(items, g, v0, v1);
  }

  lemma {:induction false} ValueSumSplit(items: seq<Item>, a: nat, b: nat, c: nat)
    requires a <= b <= c <= |items|
    ensures ValueSum(items, a, c) == ValueSum(items, a, b) + ValueSum(items, b, c)
  {
    if b < c {
      ValueSumSplit(items, a, b, c - 1);
    }
  }

  /** The sum of the first k points' values, each as often as its group has items. */
  function WeightedTo(items: seq<Item>, groups: seq<Span>, k: nat): real
    requires k <= |groups| && forall i :: 0 <= i < |groups| ==> IsSpan(groups[i], |items|)
  {
    if k == 0 then 0.0
    else WeightedTo(items, groups, k - 1) + Weight(items, groups[k - 1])
  }

  function WeightedSum(items: seq<Item>, groups: seq<Span>): real
    requires forall i :: 0 <= i < |groups| ==> IsSpan(groups[i], |items|)
  {
    WeightedTo(items, groups, |groups|)
  }

  function Weight(items: seq<Item>, g: Span): real
    requires IsSpan(g, |items|)
  {
    (g.end - g.start) as real * Mean(items, g).value.Real()
  }

  lemma GroupWeight(items: seq<Item>, g: Span)
    requires IsSpan(g, |items|)
    ensures Weight(items, g) == ValueSum(items, g.start, g.end)
  {
    RealQuotient(ValueSum(items, g.start, g.end), (g.end - g.start) as real);
  }

  lemma {:induction false} WeightedToEnd(items: seq<Item>, groups: seq<Span>, k: nat)
    requires Contiguous(groups, |items|) && k < |groups|
    ensures WeightedTo(items, groups, k + 1) == ValueSum(items, 0, groups[k].end)
  {
    var g := groups[k];
    GroupWeight(items, g);
    if k > 0 {
      WeightedToEnd(items, groups, k - 1);
    }
    ValueSumSplit(items, 0, g.start, g.end);
  }

  lemma ValueIsConserved(items: seq<Item>, resolution: nat)
    requires items != []
    ensures WeightedSum(items, Groups(items, resolution)) == ValueSum(items, 0, |items|)
  {
    var groups := Groups(items, resolution);
    GroupsPartition(items, resolution);
    WeightedToEnd(items, groups, |groups| - 1);
  }

  // ----- Size and order of the result

  /** How many items have another state than the item before them. */
  function Changes(items: seq<Item>, i: nat): nat
    requires i <= |items|
  {
    if i < 2 then 0
    else Changes(items, i - 1) + if items[i - 1].state != items[i - 2].state then 1 else 0
  }

  predicate NewestFirst(items: seq<Item>) {
    forall j, k :: 0 <= j <= k < |items| ==> items[j].time >= items[k].time
  }

  /** From step `resolution` on the preset is not below the newest time. */
  lemma LastPresetCoversAll(first: UInt32, last: UInt32, resolution: nat, time: UInt32, step: nat)
    requires last <= first && time <= first && step >= resolution
    ensures !OverPreset(first, last, resolution, time, step)
  {
    if resolution > 0 {
      var width, n, s := (first - last) as real, resolution as real, step as real;
      RealQuotient(width, n);
      var d := width / n;
      RealQuotientBounds(width, n, 0.0, width / n);
      assert d * s >= d * n by {
        assert d * (s - n) >= 0.0;
      }
    }
  }

  function Max(a: int, b: int): int { if a > b then a else b }

  lemma {:induction false} ScannedSize(items: seq<Item>, resolution: nat, i: nat)
    requires 1 <= i <= |items| && NewestFirst(items)
    ensures |Scanned(items, resolution, i).closed| <= Max(1, resolution - 1) + Changes(items, i)
  {
    if i > 1 {
      ScannedSize(items, resolution, i - 1);
      ScannedPartition(items, resolution, i - 1);
      var before, item := Scanned(items, resolution, i - 1), items[i - 1];
      if |before.closed| > 0 && item.state == before.open.state {
        var step := |before.closed| + 1;
        assert StateShared(items, before.All()[|before.closed|]);
        if step >= resolution {
          LastPresetCoversAll(items[0].time, items[|items| - 1].time, resolution, item.time, step);
        }
      } else if |before.closed| > 0 {
        assert StateShared(items, before.All()[|before.closed|]);
      }
    }
  }

  /** The result has at most max(2, resolution) points and one more for each change of state. */
  lemma LimitedSize(items: seq<Item>, resolution: nat)
    requires NewestFirst(items)
    ensures |Limited(items, resolution)| <= Max(2, resolution) + Changes(items, |items|)
  {
    if items != [] && |items| >= resolution {
      ScannedSize(items, resolution, |items|);
    }
  }

  lemma GroupMeanTime(items: seq<Item>, g: Span)
    requires NewestFirst(items) && IsSpan(g, |items|)
    ensures items[g.end - 1].time <= Mean(items, g).time <= items[g.start].time
  {
    TimeSumBounds(items, g.start, g.end, items[g.end - 1].time, items[g.start].time);
    QuotientBounds(TimeSum(items, g.start, g.end), g.end - g.start, items[g.end - 1].time, items[g.start].time);
  }

  lemma {:induction false} SpansInOrder(groups: seq<Span>, length: nat, j: nat, k: nat)
    requires Contiguous(groups, length) && j < k < |groups|
    ensures groups[j].end <= groups[k].start
  {
    if j + 1 < k {
      SpansInOrder(groups, length, j, k - 1);
    }
  }

  lemma MeansInOrder(items: seq<Item>, groups: seq<Span>, j: nat, k: nat)
    requires NewestFirst(items) && Contiguous(groups, |items|) && j <= k < |groups|
    ensures Mean(items, groups[j]).time >= Mean(items, groups[k]).time
  {
    if j < k {
      GroupMeanTime(items, groups[j]);
      GroupMeanTime(items, groups[k]);
      SpansInOrder(groups, |items|, j, k);
      assert items[groups[j].end - 1].time >= items[groups[k].start].time;
    }
  }

  lemma LimitedNewestFirst(items: seq<Item>, resolution: nat)
    requires NewestFirst(items) && items != [] && |items| >= resolution
    ensures NewestFirst(Limited(items, resolution))
  {
    GroupsPartition(items, resolution);
    var points := Limited(items, resolution);
    forall j, k | 0 <= j <= k < |points| ensures points[j].time >= points[k].time {
      MeansInOrder(items, Groups(items, resolution), j, k);
    }
  }

  lemma LimitedWithin(items: seq<Item>, resolution: nat, k: nat)
    requires NewestFirst(items) && items != [] && |items| >= resolution && k < |Limited(items, resolution)|
    ensures items[|items| - 1].time <= Limited(items, resolution)[k].time <= items[0].time
  {
    GroupsPartition(items, resolution);
    GroupMeanTime(items, Groups(items, resolution)[k]);
  }

  lemma LimitedOrder(items: seq<Item>, resolution: nat)
    requires NewestFirst(items) && items != []
    ensures NewestFirst(Limited(items, resolution))
    ensures forall p :: p in Limited(items, resolution) ==> items[|items| - 1].time <= p.time <= items[0].time
  {
    if |items| >= resolution {
      LimitedNewestFirst(items, resolution);
      var points := Limited(items, resolution);
      forall p | p in points ensures items[|items| - 1].time <= p.time <= items[0].time {
        var k :| 0 <= k < |points| && p == points[k];
        LimitedWithin(items, resolution, k);
      }
    }
  }

  // ----- Reading a window

  /** `timespan *= 0.95f` on an unsigned integer. */
  function WindowLength(timespan: nat): nat {
    (timespan as real * 0.95).Floor
  }

  predicate InWindow(item: Item, now: int, length: nat) { now - item.time < length }

  /** The window is 95 percent of the timespan, in whole seconds. */
  lemma InWindowExactly(item: Item, now: int, timespan: nat)
    ensures InWindow(item, now, WindowLength(timespan)) <==> 100 * (now - item.time + 1) <= 95 * timespan
  {
    var w := timespan as real * 0.95;
    assert 100.0 * w == (95 * timespan) as real;
    assert w.Floor as real <= w < w.Floor as real + 1.0;
  }

  /** The entries at index `from` and later that lie in the window, latest index first. */
  function Recent(items: seq<Item>, from: nat, now: int, length: nat): (r: seq<Item>)
    requires from <= |items|
    ensures |r| <= |items| - from
    ensures forall k :: 0 <= k < |r| ==> InWindow(r[k], now, length)
    decreases |items| - from
  {
    if from == |items| then []
    else Recent(items, from + 1, now, length) + if InWindow(items[from], now, length) then [items[from]] else []
  }

  /** The entry at index 0 is never in a window, and no limit gives back the array as it is. */
  function Timespan(items: seq<Item>, timespan: nat, now: int): Option<seq<Item>> {
    if items == [] then None
    else if timespan == 0 then Some(items)
    else Some(Recent(items, 1, now, WindowLength(timespan)))
  }

  method CopyArrayTimespan(items: seq<Item>, timespan: nat, now: int) returns (r: Option<seq<Item>>)
    ensures r == Timespan(items, timespan, now)
  {
    if |items| == 0 {
      return None;
    }
    if timespan == 0 {
      return Some(items);
    }
    var copy := [];
    var span := (timespan as real * 0.95).Floor;
    for i := |items| downto 1
      invariant copy == Recent(items, i, now, span)
    {
      if now - items[i].time < span {
        copy := copy + [items[i]];
      }
    }
    r := Some(copy);
  }

  /** Any window, item by item: the latest one comes first if it is young enough, and what is read of the
      others does not depend on it. */
  lemma {:induction false} LatestComesFirst(items: seq<Item>, x: Item, from: nat, now: int, length: nat)
    requires from <= |items|
    ensures Recent(items + [x], from, now, length) ==
              (if now < x.time + length then [x] else []) + Recent(items, from, now, length)
    decreases |items| - from
  {
    var all := items + [x];
    if from < |items| {
      LatestComesFirst(items, x, from + 1, now, length);
    } else {
      assert Recent(all, from + 1, now, length) == [];
    }
  }

  /** There is no window without items. Without a timespan it has all of them, and with one it has those
      behind the first item that are less old than 95 percent of it. */
  lemma WindowExactly(items: seq<Item>, timespan: nat, now: int)
    ensures Timespan(items, timespan, now).None? <==> items == []
    ensures items != [] && timespan == 0 ==> Timespan(items, timespan, now) == Some(items)
    ensures |items| == 1 && timespan > 0 ==> Timespan(items, timespan, now) == Some([])
    ensures |items| > 1 && timespan > 0 ==>
              var last, rest := items[|items| - 1], Timespan(items[..|items| - 1], timespan, now).value;
              Timespan(items, timespan, now) ==
                Some((if 100 * (now - last.time + 1) <= 95 * timespan then [last] else []) + rest)
  {
    if |items| > 1 && timespan > 0 {
      var n := |items| - 1;
      var w := WindowLength(timespan);
      assert items == items[..n] + [items[n]];
      LatestComesFirst(items[..n], items[n], 1, now, w);
      InWindowExactly(items[n], now, timespan);
    }
  }

  predicate OldestFirst(items: seq<Item>) {
    forall j, k :: 0 <= j <= k < |items| ==> items[j].time <= items[k].time
  }

  /** A window of time-ordered data is the array read backwards from its end, up to the first entry
      that is outside the window or is entry 0. */
  lemma {:induction false} RecentIsReversedSuffix(items: seq<Item>, from: nat, now: int, length: nat)
    requires OldestFirst(items) && 1 <= from <= |items|
    ensures var r := Recent(items, from, now, length);
            && (forall k :: 0 <= k < |r| ==> r[k] == items[|items| - 1 - k])
            && (from + |r| == |items| || !InWindow(items[|items| - 1 - |r|], now, length))
    decreases |items| - from
  {
    if from < |items| {
      RecentIsReversedSuffix(items, from + 1, now, length);
      var r := Recent(items, from + 1, now, length);
      if |r| < |items| - from - 1 {
        assert items[from].time <= items[|items| - 1 - |r|].time;
      }
    }
  }

  /** A read of a window of time-ordered data: newest first, inside the window, and of bounded size. */
  lemma WindowRead(items: seq<Item>, timespan: nat, resolution: nat, now: int)
    requires OldestFirst(items) && items != [] && timespan > 0
    ensures var window := Timespan(items, timespan, now).value;
            var r := Limited(window, resolution);
            && NewestFirst(r)
            && (forall p :: p in r ==> InWindow(p, now, WindowLength(timespan)))
            && |r| <= Max(2, resolution) + Changes(window, |window|)
  {
    var window := Timespan(items, timespan, now).value;
    RecentIsReversedSuffix(items, 1, now, WindowLength(timespan));
    if window != [] {
      LimitedOrder(window, resolution);
    }
    LimitedSize(window, resolution);
  }

  // ----- Reading without a limit

  /** Oldest first, no time lies above a preset, which is never below the newest time: the unsigned
      difference `first - last` is not negative. */
  lemma NeverOverPreset(first: UInt32, last: UInt32, resolution: nat, time: UInt32, step: nat)
    requires time <= last
    ensures !OverPreset(first, last, resolution, time, step)
  {
    if resolution > 0 {
      var width, n, s := ((first - last) % UINT32) as real, resolution as real, step as real;
      RealQuotientBounds(width, n, 0.0, width / n) by {
        RealQuotient(width, n);
      }
      ProductIsNotNegative(width / n, s);
    }
  }

  lemma ProductIsNotNegative(x: real, y: real)
    requires x >= 0.0 && y >= 0.0
    ensures x * y >= 0.0
  {
  }

  /** The runs of items of the same state. The first item counts as UNKNOWN. */
  function Runs(items: seq<Item>): (runs: seq<Span>)
    requires items != []
    ensures runs != [] && forall k :: 0 <= k < |runs| ==> IsSpan(runs[k], |items|)
  {
    Groups(items, 0)
  }

  /** The mean times of the first and of the last run. */
  function FirstRunTime(items: seq<Item>): int
    requires items != []
  {
    Mean(items, Runs(items)[0]).time
  }

  function LastRunTime(items: seq<Item>): int
    requires items != []
  {
    Mean(items, Runs(items)[|Runs(items)| - 1]).time
  }

  function StateBefore(items: seq<Item>, i: nat): DeviceState
    requires 0 < i < |items|
  {
    if i == 1 then Unknown else items[i - 1].state
  }

  /** How many of the first i items begin another run. */
  function Switches(items: seq<Item>, i: nat): nat
    requires 1 <= i <= |items|
  {
    if i == 1 then 0
    else Switches(items, i - 1) + if items[i - 1].state != StateBefore(items, i - 1) then 1 else 0
  }

  lemma OpenState(items: seq<Item>, resolution: nat, i: nat)
    requires 0 < i < |items|
    ensures Scanned(items, resolution, i).open.state == StateBefore(items, i)
  {
    ScannedPartition(items, resolution, i);
    var scan := Scanned(items, resolution, i);
    assert StateShared(items, scan.All()[|scan.closed|]);
    if i == 1 {
      assert scan.open == Span(0, 1, Unknown);
    }
  }

  predicate StatesAlternate(groups: seq<Span>) {
    forall k :: 0 <= k < |groups| - 1 ==> groups[k].state != groups[k + 1].state
  }

  lemma NeverOver(items: seq<Item>, resolution: nat, i: nat, step: nat)
    requires OldestFirst(items) && i < |items|
    ensures !OverPreset(items[0].time, items[|items| - 1].time, resolution, items[i].time, step)
  {
    NeverOverPreset(items[0].time, items[|items| - 1].time, resolution, items[i].time, step);
  }

  lemma {:induction false} ScannedIsSame(items: seq<Item>, resolution: nat, i: nat)
    requires OldestFirst(items) && 1 <= i <= |items|
    ensures Scanned(items, resolution, i) == Scanned(items, 0, i)
  {
    if i > 1 {
      ScannedIsSame(items, resolution, i - 1);
      NeverOver(items, resolution, i - 1, |Scanned(items, resolution, i - 1).closed| + 1);
    }
  }

  lemma {:induction false} ScannedRuns(items: seq<Item>, i: nat)
    requires 1 <= i <= |items|
    ensures |Scanned(items, 0, i).closed| == Switches(items, i)
    ensures StatesAlternate(Scanned(items, 0, i).All())
  {
    if i > 1 {
      ScannedRuns(items, i - 1);
      OpenState(items, 0, i - 1);
      var before, after := Scanned(items, 0, i - 1), Scanned(items, 0, i);
      if items[i - 1].state == before.open.state {
        assert after == Scan(before.closed, before.open.(end := i));
        forall k | 0 <= k < |after.All()| ensures after.All()[k].state == before.All()[k].state {
        }
      } else {
        assert after.All() == before.All() + [after.open];
      }
    }
  }

  /** Oldest-first data is divided into its runs, whatever the resolution is: neighbouring groups have
      different states, and their number is one more than the number of switches. */
  lemma GroupsAreRuns(items: seq<Item>, resolution: nat)
    requires OldestFirst(items) && items != []
    ensures Groups(items, resolution) == Runs(items)
    ensures StatesAlternate(Runs(items))
    ensures |Runs(items)| == Switches(items, |items|) + 1
  {
    ScannedIsSame(items, resolution, |items|);
    ScannedRuns(items, |items|);
  }

  lemma RunMeanTime(items: seq<Item>, g: Span)
    requires OldestFirst(items) && IsSpan(g, |items|)
    ensures items[g.start].time <= Mean(items, g).time <= items[g.end - 1].time
  {
    MeanTimeWithin(items, g, items[g.start].time, items[g.end - 1].time);
  }

  lemma MeansOfRunsInOrder(items: seq<Item>, j: nat, k: nat)
    requires OldestFirst(items) && items != [] && j <= k < |Runs(items)|
    ensures IsSpan(Runs(items)[j], |items|) && IsSpan(Runs(items)[k], |items|)
    ensures Mean(items, Runs(items)[j]).time <= Mean(items, Runs(items)[k]).time
  {
    var runs := Runs(items);
    GroupsPartition(items, 0);
    RunMeanTime(items, runs[j]);
    RunMeanTime(items, runs[k]);
    if j < k {
      SpansInOrder(runs, |items|, j, k);
      assert items[runs[j].end - 1].time <= items[runs[k].start].time;
    }
  }

  lemma OrderedBothWays(items: seq<Item>)
    requires OldestFirst(items) && items != []
    ensures NewestFirst(items) <==> items[0].time == items[|items| - 1].time
  {
    assert items[0].time <= items[|items| - 1].time;
    if items[0].time == items[|items| - 1].time {
      forall j, k | 0 <= j <= k < |items| ensures items[j].time >= items[k].time {
        assert items[0].time <= items[j].time && items[k].time <= items[|items| - 1].time;
      }
    }
  }

  lemma MeansOfRuns(items: seq<Item>)
    requires OldestFirst(items) && items != []
    ensures var r := Means(items, Runs(items));
            && r != [] && OldestFirst(r) && |r| == Switches(items, |items|) + 1
            && r[0].time == FirstRunTime(items) && r[|r| - 1].time == LastRunTime(items)
  {
    GroupsAreRuns(items, 0);
    var r := Means(items, Runs(items));
    forall j, k | 0 <= j <= k < |r| ensures r[j].time <= r[k].time {
      MeansOfRunsInOrder(items, j, k);
    }
  }

  /** Without a limit the array is not reversed. A short one comes back as it is, and a longer one as
      one point for each run, however many points are asked for. Both are oldest first, so they are
      newest first only when the first and the last entry have the same time, or the first and the last
      run the same mean time. */
  lemma UnlimitedReadIsNotReversed(items: seq<Item>, resolution: nat, now: int)
    requires OldestFirst(items) && items != []
    ensures var r := Limited(Timespan(items, 0, now).value, resolution);
            && r == (if |items| < resolution then items else Means(items, Runs(items)))
            && r != [] && OldestFirst(r)
            && (NewestFirst(r) <==>
                  if |items| < resolution then items[0].time == items[|items| - 1].time
                  else FirstRunTime(items) == LastRunTime(items))
            && (|items| >= resolution ==> |r| == Switches(items, |items|) + 1)
  {
    if |items| < resolution {
      OrderedBothWays(items);
    } else {
      GroupsAreRuns(items, resolution);
      MeansOfRuns(items);
      OrderedBothWays(Means(items, Runs(items)));
    }
  }
}
