/** Heat-tier workload of a stream: the producer's rolling rates (`rolling_window_rates` in
    enrichment.py) and the validator's own computation (`_compute_workload` in dataset.py). */
module Workload {
  import opened Wrappers
  import opened Rounding
  import opened Sorting
  import opened Events

  const WINDOW_MS := 60000
  const STEP_MS := 1000

  datatype HeatTier = Low | Medium | High

  function LowerLimit(tier: HeatTier): int {
    match tier case Low => 1 case Medium => 11 case High => 61
  }

  function UpperLimit(tier: HeatTier): int {
    match tier case Low => 10 case Medium => 60 case High => 300
  }

  function Max(a: int, b: int): int { if a >= b then a else b }

  function Min(a: int, b: int): int { if a <= b then a else b }

  /** `start`, `start + step` and so on, below `stop`. */
  function Range(start: int, stop: int, step: int): (r: seq<int>)
    requires step > 0
    ensures |r| == if start < stop then (stop - start - 1) / step + 1 else 0
    ensures forall k :: 0 <= k < |r| ==> r[k] == start + k * step
    decreases stop - start
  {
    if start >= stop then [] else
      var rest := Range(start + step, stop, step);
      assert start + step < stop ==> (stop - start - 1) / step == (stop - start - 1 - step) / step + 1 by {
        DivStep(stop - start - 1, step);
      }
      assert start + step >= stop ==> (stop - start - 1) / step == 0;
      [start] + rest
  }

  lemma DivStep(a: int, step: int)
    requires step > 0
    ensures a / step == (a - step) / step + 1
  {
    var q, r := (a - step) / step, (a - step) % step;
    assert a == (q + 1) * step + r;
    DivUnique(a, step, q + 1, r);
  }

  lemma DivUnique(a: int, step: int, q: int, r: int)
    requires step > 0 && a == q * step + r && 0 <= r < step
    ensures a / step == q
  {
    if a / step <= q - 1 { MulMonotone(a / step, q - 1, step); }
    if q + 1 <= a / step { MulMonotone(q + 1, a / step, step); }
  }

  /** How many offsets lie in `[lo, hi)`. */
  function CountBetween(offsets: seq<int>, lo: int, hi: int): (n: nat)
    ensures n <= |offsets|
  {
    if offsets == [] then 0
    else CountBetween(offsets[1..], lo, hi) + if lo <= offsets[0] < hi then 1 else 0
  }

  function OffsetOf(e: Event): int { e.offsetMs }

  function OffsetsOf(events: seq<Event>): (r: seq<int>)
    ensures |r| == |events|
  {
    Map(OffsetOf, events)
  }

  function RealOffsets(events: seq<Event>): seq<int> {
    OffsetsOf(Filter(RealReplyable, events))
  }

  function ReplyableOffsets(events: seq<Event>): seq<int> {
    OffsetsOf(Filter(Replyable, events))
  }

  /** Producer side: real replyable counts of every one-second-stepped window. */
  function RollingWindowRates(events: seq<Event>, durationMs: int): (rates: seq<int>)
    ensures |rates| >= 1
  {
    var offsets := RealOffsets(events);
    var range := Range(0, Max(0, durationMs - WINDOW_MS) + 1, STEP_MS);
    var starts := if range == [] then [0] else range;
    Map((start: int) => CountBetween(offsets, start, Min(durationMs, start + WINDOW_MS)), starts)
  }

  function WindowStarts(durationMs: int, rolling: bool): (starts: seq<int>)
    ensures |starts| >= 1
  {
    if rolling then Range(0, Max(0, durationMs - WINDOW_MS) + 1, STEP_MS)
    else seq(Max(1, CeilDiv(durationMs, WINDOW_MS)), i => i * WINDOW_MS)
  }

  function RateAt(offsets: seq<int>, durationMs: int, start: int): int {
    CountBetween(offsets, start, Min(durationMs, start + WINDOW_MS))
  }

  predicate Matches(tier: HeatTier, rate: int) {
    LowerLimit(tier) <= rate <= UpperLimit(tier)
  }

  function Matching(tier: HeatTier, rates: seq<int>): nat {
    |Filter((rate: int) => Matches(tier, rate), rates)|
  }

  /** Manifest workload. Percentiles are in thousandths, the qualification ratio in millionths. */
  datatype WorkloadReport = WorkloadReport(
    windowCount: int,
    rateMin: int,
    rateMax: int,
    rateP50: int,
    rateP95: int,
    qualificationRatio: int,
    windowStepMs: Option<int>)

  predicate AtMost(a: int, b: int) { a <= b }

  /** Linear interpolation of an ordered list at `percent / 100`, in thousandths. */
  function Interpolated(ordered: seq<int>, percent: nat): int
    requires ordered != [] && percent <= 100
  {
    IndexInRange(|ordered|, percent);
    var position := (|ordered| - 1) * percent;
    var lower, fraction := position / 100, position % 100;
    if fraction == 0 then 1000 * ordered[lower]
    else RoundHalfEven(1000 * (ordered[lower] * 100 + (ordered[lower + 1] - ordered[lower]) * fraction), 100)
  }

  /** The interpolated percentile of values in any order. */
  function Percentile(values: seq<int>, percent: nat): int
    requires values != [] && percent <= 100
  {
    SortPermutes(AtMost, values);
    Interpolated(Sort(AtMost, values), percent)
  }

  lemma IndexInRange(n: int, percent: nat)
    requires n >= 1 && percent <= 100
    ensures 0 <= (n - 1) * percent / 100 < n
    ensures (n - 1) * percent % 100 != 0 ==> (n - 1) * percent / 100 + 1 < n
  {
    var p := (n - 1) * percent;
    MulMonotone(percent, 100, n - 1);
    assert p == percent * (n - 1);
    MulMonotone(0, percent, n - 1);
    assert 0 <= p <= 100 * (n - 1);
  }

  /** An interpolated percentile never leaves the range of the values. */
  lemma PercentileBetween(values: seq<int>, percent: nat, lo: int, hi: int)
    requires values != [] && percent <= 100
    requires forall v :: v in values ==> lo <= v <= hi
    ensures 1000 * lo <= Percentile(values, percent) <= 1000 * hi
  {
    SortPermutes(AtMost, values);
    SortKeepsElements(AtMost, values);
    SortSorts(AtMost, values);
    InterpolatedBetween(Sort(AtMost, values), percent, lo, hi);
  }

  lemma InterpolatedBetween(ordered: seq<int>, percent: nat, lo: int, hi: int)
    requires ordered != [] && percent <= 100 && SortedBy(AtMost, ordered)
    requires forall v :: v in ordered ==> lo <= v <= hi
    ensures 1000 * lo <= Interpolated(ordered, percent) <= 1000 * hi
  {
    IndexInRange(|ordered|, percent);
    var lower, fraction := (|ordered| - 1) * percent / 100, (|ordered| - 1) * percent % 100;
    assert ordered[lower] in ordered;
    if fraction != 0 {
      var a, b := ordered[lower], ordered[lower + 1];
      assert AtMost(a, b) && b in ordered;
      Interpolation(a, b, fraction);
      var num := 1000 * (a * 100 + (b - a) * fraction);
      RoundHalfEvenBounds(num, 100, 1000 * a);
      RoundHalfEvenBounds(num, 100, 1000 * b);
    }
  }

  lemma Interpolation(a: int, b: int, fraction: int)
    requires a <= b && 0 <= fraction <= 100
    ensures a * 100 <= a * 100 + (b - a) * fraction <= b * 100
  {
    var gap := b - a;
    MulMonotone(0, fraction, gap);
    MulMonotone(fraction, 100, gap);
    assert gap * fraction == fraction * gap;
  }

  function MinOf(values: seq<int>): (m: int)
    requires values != []
    ensures m in values && forall v :: v in values ==> m <= v
  {
    assert values == [values[0]] + values[1..];
    if |values| == 1 then values[0] else Min(values[0], MinOf(values[1..]))
  }

  function MaxOf(values: seq<int>): (m: int)
    requires values != []
    ensures m in values && forall v :: v in values ==> v <= m
  {
    assert values == [values[0]] + values[1..];
    if |values| == 1 then values[0] else Max(values[0], MaxOf(values[1..]))
  }

  /** What the manifest stores for a list of window rates. */
  function Report(rates: seq<int>, tier: HeatTier, rolling: bool): WorkloadReport
    requires rates != []
  {
    WorkloadReport(
      |rates|, MinOf(rates), MaxOf(rates), Percentile(rates, 50), Percentile(rates, 95),
      RoundHalfEven(Matching(tier, rates) * 1000000, |rates|),
      if rolling then Some(STEP_MS) else None)
  }

  function WorkloadOf(offsets: seq<int>, durationMs: int, tier: HeatTier, rolling: bool): WorkloadReport {
    Report(Map((start: int) => RateAt(offsets, durationMs, start), WindowStarts(durationMs, rolling)), tier, rolling)
  }

  lemma MatchingAppend(tier: HeatTier, rates: seq<int>, rate: int)
    ensures Matching(tier, rates + [rate]) == if Matches(tier, rate) then Matching(tier, rates) + 1
            else Matching(tier, rates)
  {
    hide Matches;
    FilterAppend((r: int) => Matches(tier, r), rates, rate);
  }

  lemma NothingMatches(tier: HeatTier)
    ensures Matching(tier, []) == 0
  {}

  /** Validator side: the loop over the window starts. */
  method ComputeWorkload(offsets: seq<int>, durationMs: int, tier: HeatTier, rolling: bool)
      returns (report: WorkloadReport)
    ensures report == WorkloadOf(offsets, durationMs, tier, rolling)
    ensures RightWorkload(offsets, durationMs, tier, rolling, report)
  {
    WorkloadIsRight(offsets, durationMs, tier, rolling);
    hide RightWorkload, CountBetween, WindowStarts, MinOf, MaxOf, Percentile, RoundHalfEven, Matching;
    var starts := WindowStarts(durationMs, rolling);
    var rates: seq<int> := [];
    var matching := 0;
    NothingMatches(tier);
    for k := 0 to |starts|
      invariant |rates| == k && forall i :: 0 <= i < k ==> rates[i] == RateAt(offsets, durationMs, starts[i])
      invariant matching == Matching(tier, rates)
    {
      var end := Min(durationMs, starts[k] + WINDOW_MS);
      var count := CountBetween(offsets, starts[k], end);
      MatchingAppend(tier, rates, count);
      rates := rates + [count];
      if LowerLimit(tier) <= count <= UpperLimit(tier) { matching := matching + 1; }
    }
    assert rates == Map((start: int) => RateAt(offsets, durationMs, start), starts);
    report := WorkloadReport(
      |starts|, MinOf(rates), MaxOf(rates), Percentile(rates, 50), Percentile(rates, 95),
      RoundHalfEven(matching * 1000000, |starts|),
      if rolling then Some(STEP_MS) else None);
  }

  /** The producer's and the validator's rolling rates are the same list, for every stream and duration. */
  lemma RollingRatesAgree(events: seq<Event>, durationMs: int)
    ensures RollingWindowRates(events, durationMs)
            == Map((start: int) => RateAt(RealOffsets(events), durationMs, start), WindowStarts(durationMs, true))
  {
    var offsets, starts := RealOffsets(events), WindowStarts(durationMs, true);
    assert starts == Range(0, Max(0, durationMs - WINDOW_MS) + 1, STEP_MS) != [];
    var f := (start: int) => CountBetween(offsets, start, Min(durationMs, start + WINDOW_MS));
    var g := (start: int) => RateAt(offsets, durationMs, start);
    MapsAgree(f, g, starts);
  }

  /** The `k`-th rolling window starts `k` seconds in. */
  lemma RollingStart(durationMs: int, k: nat)
    requires k == 0 || k * STEP_MS <= durationMs - WINDOW_MS
    ensures k < |WindowStarts(durationMs, true)| && WindowStarts(durationMs, true)[k] == k * STEP_MS
  {
    var stop := Max(0, durationMs - WINDOW_MS) + 1;
    DivMonotone(k * STEP_MS, stop - 1, STEP_MS);
    assert k * STEP_MS / STEP_MS == k;
  }

  /** No rolling window holds more than the largest of the producer's rates. */
  lemma WindowBelowMax(events: seq<Event>, durationMs: int, k: nat)
    requires k == 0 || k * STEP_MS <= durationMs - WINDOW_MS
    ensures RateAt(RealOffsets(events), durationMs, k * STEP_MS) <= MaxOf(RollingWindowRates(events, durationMs))
  {
    RollingRatesAgree(events, durationMs);
    RollingStart(durationMs, k);
    var rates := RollingWindowRates(events, durationMs);
    assert rates[k] == RateAt(RealOffsets(events), durationMs, k * STEP_MS);
    assert rates[k] in rates;
  }

  /** The producer's gate: at least 80% of the windows match, on the exact fraction. */
  predicate Qualifies(rates: seq<int>, tier: HeatTier)
  {
    5 * Matching(tier, rates) >= 4 * |rates|
  }

  /** The validator's gate: the ratio rounded to six digits is at least 0.8. */
  predicate PassesHeatCheck(report: WorkloadReport) {
    report.qualificationRatio >= 800000
  }

  lemma MulOrder(a: int, b: int, n: int)
    requires n > 0
    ensures a <= b <==> a * n <= b * n
  {
    if a <= b { MulMonotone(a, b, n); } else { MulMonotone(b + 1, a, n); }
  }

  /** Exactly which streams pass the validator's rounded gate. */
  lemma RoundedGate(matching: nat, windows: int)
    requires windows > 0
    ensures RoundHalfEven(matching * 1000000, windows) >= 800000 <==> 2000000 * matching >= 1599999 * windows
  {
    var num := matching * 1000000;
    var q := num / windows;
    var r := num % windows;
    assert num == q * windows + r;
    MulOrder(800000, q, windows);
    MulOrder(q, 799999, windows);
    MulOrder(799999, q, windows);
    MulOrder(q, 799998, windows);
  }

  /** Whatever passes the producer's exact gate passes the validator's check on the stored stream. */
  lemma QualifiedPassesValidator(events: seq<Event>, durationMs: int, tier: HeatTier)
    requires Qualifies(RollingWindowRates(events, durationMs), tier)
    ensures PassesHeatCheck(WorkloadOf(RealOffsets(events), durationMs, tier, true))
  {
    RollingRatesAgree(events, durationMs);
    var rates := RollingWindowRates(events, durationMs);
    RoundedGate(Matching(tier, rates), |rates|);
  }

  // ----- What a report promises

  /** How many offsets lie in `[lo, hi)`. */
  function Inside(offsets: seq<int>, lo: int, hi: int): nat {
    |Filter((x: int) => lo <= x < hi, offsets)|
  }

  lemma {:induction false} CountIsInside(offsets: seq<int>, lo: int, hi: int)
    ensures CountBetween(offsets, lo, hi) == Inside(offsets, lo, hi)
  {
    if offsets != [] { CountIsInside(offsets[1..], lo, hi); }
  }

  /** The windows of a duration: every second up to the last full minute when they roll, otherwise every minute; at
      least one, and none reaching past the end. */
  predicate RightRates(offsets: seq<int>, durationMs: int, rolling: bool, rates: seq<int>) {
    && |rates| >= 1
    && (if rolling then
          (|rates| - 1) * 1000 <= Max(0, durationMs - 60000) < |rates| * 1000
        else
          (|rates| == 1 || (|rates| - 1) * 60000 < durationMs) && durationMs <= |rates| * 60000)
    && forall k :: 0 <= k < |rates| ==>
         var start := k * if rolling then 1000 else 60000;
         rates[k] == Inside(offsets, start, Min(durationMs, start + 60000))
  }

  predicate InTier(tier: HeatTier, rate: int) {
    match tier
    case Low => 1 <= rate <= 10
    case Medium => 11 <= rate <= 60
    case High => 61 <= rate <= 300
  }

  function TierCount(tier: HeatTier, rates: seq<int>): nat {
    |Filter((rate: int) => InTier(tier, rate), rates)|
  }

  /** The value `percent` of the way through the ordered rates, a fraction of a step taken from between two of them,
      in thousandths. */
  ghost predicate RightPercentile(rates: seq<int>, percent: nat, value: int) {
    exists ordered: seq<int>, below: nat, fraction: nat ::
      && multiset(ordered) == multiset(rates) && SortedBy(AtMost, ordered)
      && 100 * below + fraction == (|rates| - 1) * percent && fraction < 100
      && Between(ordered, below, fraction, value)
  }

  predicate Between(ordered: seq<int>, below: nat, fraction: nat, value: int) {
    && below < |ordered| && (fraction > 0 ==> below + 1 < |ordered|)
    && value
       == 10 * (ordered[below] * (100 - fraction) + if fraction > 0 then ordered[below + 1] * fraction else 0)
  }

  ghost predicate RightReport(rates: seq<int>, tier: HeatTier, rolling: bool, report: WorkloadReport)
    requires rates != []
  {
    && report.windowCount == |rates|
    && report.rateMin in rates && (forall r :: r in rates ==> report.rateMin <= r)
    && report.rateMax in rates && (forall r :: r in rates ==> r <= report.rateMax)
    && RightPercentile(rates, 50, report.rateP50) && RightPercentile(rates, 95, report.rateP95)
    && Nearest(1000000 * TierCount(tier, rates), |rates|, report.qualificationRatio)
    && report.windowStepMs == if rolling then Some(1000) else None
  }

  /** What a workload report promises of the offsets it was computed from. */
  ghost predicate RightWorkload(offsets: seq<int>, durationMs: int, tier: HeatTier, rolling: bool,
                                report: WorkloadReport) {
    exists rates :: RightRates(offsets, durationMs, rolling, rates) && RightReport(rates, tier, rolling, report)
  }

  lemma RatesAreRight(offsets: seq<int>, durationMs: int, rolling: bool)
    ensures RightRates(offsets, durationMs, rolling,
                       Map((start: int) => RateAt(offsets, durationMs, start), WindowStarts(durationMs, rolling)))
  {
    hide CountBetween, Inside;
    var starts := WindowStarts(durationMs, rolling);
    var rates := Map((start: int) => RateAt(offsets, durationMs, start), starts);
    forall k | 0 <= k < |rates|
      ensures starts[k] == k * (if rolling then 1000 else 60000)
      ensures rates[k] == Inside(offsets, starts[k], Min(durationMs, starts[k] + 60000))
    {
      CountIsInside(offsets, starts[k], Min(durationMs, starts[k] + 60000));
    }
    if rolling { RollingCount(Max(0, durationMs - WINDOW_MS), |starts|); }
  }

  lemma RollingCount(last: int, n: int)
    requires last >= 0 && n == last / STEP_MS + 1
    ensures (n - 1) * 1000 <= last < n * 1000
  {}

  lemma TierCounts(tier: HeatTier, rates: seq<int>)
    ensures Matching(tier, rates) == TierCount(tier, rates)
  {
    FilterAlike((rate: int) => Matches(tier, rate), (rate: int) => InTier(tier, rate), rates);
  }

  lemma PercentileIsRight(rates: seq<int>, percent: nat)
    requires rates != [] && percent <= 100
    ensures RightPercentile(rates, percent, Percentile(rates, percent))
  {
    var ordered := Sort(AtMost, rates);
    SortPermutes(AtMost, rates);
    SortSorts(AtMost, rates);
    IndexInRange(|rates|, percent);
    var below, fraction := (|rates| - 1) * percent / 100, (|rates| - 1) * percent % 100;
    InterpolatedIs(ordered, percent, below, fraction);
  }

  lemma InterpolatedIs(ordered: seq<int>, percent: nat, below: nat, fraction: nat)
    requires ordered != [] && percent <= 100
    requires below == (|ordered| - 1) * percent / 100 && fraction == (|ordered| - 1) * percent % 100
    ensures Between(ordered, below, fraction, Interpolated(ordered, percent))
  {
    IndexInRange(|ordered|, percent);
    if fraction != 0 {
      var a, b := ordered[below], ordered[below + 1];
      var num := a * 100 + (b - a) * fraction;
      assert num == a * (100 - fraction) + b * fraction;
      assert 1000 * num == (10 * num) * 100;
      RoundHalfEvenExact(10 * num, 100);
    }
  }

  /** Main result: the validator's report is right. */
  lemma WorkloadIsRight(offsets: seq<int>, durationMs: int, tier: HeatTier, rolling: bool)
    ensures RightWorkload(offsets, durationMs, tier, rolling, WorkloadOf(offsets, durationMs, tier, rolling))
  {
    hide RightRates, RightPercentile, Percentile, TierCount, Matching, RateAt, WindowStarts, RoundHalfEven;
    var rates := Map((start: int) => RateAt(offsets, durationMs, start), WindowStarts(durationMs, rolling));
    RatesAreRight(offsets, durationMs, rolling);
    PercentileIsRight(rates, 50);
    PercentileIsRight(rates, 95);
    TierCounts(tier, rates);
  }

  /** Where the messages are that the producers count. */
  function MessageOffsets(events: seq<Event>): seq<int> {
    Map((e: Event) => e.offsetMs, Filter((e: Event) => Replyable(e) && !MarkedSynthetic(e), events))
  }

  /** And so are the producer's rolling rates. */
  lemma ProducerRatesAreRight(events: seq<Event>, durationMs: int)
    ensures RightRates(MessageOffsets(events), durationMs, true, RollingWindowRates(events, durationMs))
  {
    hide RightRates, RateAt, WindowStarts;
    RollingRatesAgree(events, durationMs);
    RatesAreRight(RealOffsets(events), durationMs, true);
    FilterAlike(RealReplyable, (e: Event) => Replyable(e) && !MarkedSynthetic(e), events);
    MapsAgree(OffsetOf, (e: Event) => e.offsetMs, Filter(RealReplyable, events));
  }

  /** There is one list of rates. */
  lemma RatesUnique(offsets: seq<int>, durationMs: int, rolling: bool, a: seq<int>, b: seq<int>)
    requires RightRates(offsets, durationMs, rolling, a) && RightRates(offsets, durationMs, rolling, b)
    ensures a == b
  {
    hide Inside;
    assert |a| == |b|;
    forall k | 0 <= k < |a| ensures a[k] == b[k] {}
  }

  // ----- A stream between the two gates

  /** One message a second. */
  function Ticks(count: nat): (events: seq<Event>)
    ensures |events| == count
    ensures forall i :: 0 <= i < count ==> events[i] == Event(i, i * STEP_MS, Danmaku, Viewer(1), "", EMPTY_PAYLOAD)
  {
    seq(count, i => Event(i, i * STEP_MS, Danmaku, Viewer(1), "", EMPTY_PAYLOAD))
  }

  function TickOffsets(count: nat): seq<int> {
    if count == 0 then [] else TickOffsets(count - 1) + [(count - 1) * STEP_MS]
  }

  lemma {:induction false} TicksAre(count: nat)
    ensures |TickOffsets(count)| == count && forall i :: 0 <= i < count ==> TickOffsets(count)[i] == i * STEP_MS
  {
    if count > 0 { TicksAre(count - 1); }
  }

  lemma TicksAreReal(count: nat)
    ensures RealOffsets(Ticks(count)) == TickOffsets(count)
  {
    TicksAre(count);
    FilterAll(RealReplyable, Ticks(count));
  }

  lemma {:induction false} CountAppend(offsets: seq<int>, x: int, lo: int, hi: int)
    ensures CountBetween(offsets + [x], lo, hi) == CountBetween(offsets, lo, hi) + if lo <= x < hi then 1 else 0
  {
    if offsets != [] {
      assert (offsets + [x])[1..] == offsets[1..] + [x];
      CountAppend(offsets[1..], x, lo, hi);
    }
  }

  /** A window that starts at second `k` holds the up to sixty messages from then on. */
  lemma {:induction false} TickRate(count: nat, k: nat)
    ensures CountBetween(TickOffsets(count), k * STEP_MS, k * STEP_MS + WINDOW_MS)
            == if count <= k then 0 else Min(count - k, 60)
  {
    hide CountBetween;
    if count > 0 {
      TickRate(count - 1, k);
      CountAppend(TickOffsets(count - 1), (count - 1) * STEP_MS, k * STEP_MS, k * STEP_MS + WINDOW_MS);
    } else {
      NoneBetween(k * STEP_MS, k * STEP_MS + WINDOW_MS);
    }
  }

  lemma NoneBetween(lo: int, hi: int)
    ensures CountBetween([], lo, hi) == 0
  {}

  /** A condition that holds of exactly the first `n` elements selects `n`. */
  lemma FirstMatch<T>(p: T -> bool, s: seq<T>, n: nat)
    requires n <= |s| && forall i :: 0 <= i < |s| ==> (p(s[i]) <==> i < n)
    ensures |Filter(p, s)| == n
  {
    assert s == s[..n] + s[n..];
    FilterConcat(p, s[..n], s[n..]);
    FilterAll(p, s[..n]);
    FilterNone(p, s[n..]);
  }

  /** The duration that has this many rolling windows. */
  function DurationOf(windows: nat): int {
    (windows - 1) * STEP_MS + WINDOW_MS
  }

  lemma WindowNumbers(windows: nat)
    requires windows > 0
    ensures var starts := WindowStarts(DurationOf(windows), true);
            |starts| == windows && forall k :: 0 <= k < windows ==> starts[k] == k * STEP_MS
  {}

  lemma TickWindow(count: nat, windows: nat, k: nat)
    requires k < windows
    ensures RateAt(RealOffsets(Ticks(count)), DurationOf(windows), k * STEP_MS) == if count <= k then 0
            else Min(count - k, 60)
  {
    hide CountBetween, RealOffsets, Ticks, TickOffsets;
    TicksAreReal(count);
    TickRate(count, k);
  }

  lemma RatesOfWindows(events: seq<Event>, windows: nat)
    requires windows > 0
    ensures var rates := RollingWindowRates(events, DurationOf(windows));
            && |rates| == windows
            && forall k :: 0 <= k < windows ==>
               rates[k] == RateAt(RealOffsets(events), DurationOf(windows), k * STEP_MS)
  {
    hide RealOffsets, RateAt, WindowStarts, DurationOf;
    RollingRatesAgree(events, DurationOf(windows));
    hide RollingWindowRates;
    WindowNumbers(windows);
  }

  lemma MatchingFirst(tier: HeatTier, rates: seq<int>, n: nat)
    requires n <= |rates| && forall i :: 0 <= i < |rates| ==> (Matches(tier, rates[i]) <==> i < n)
    ensures Matching(tier, rates) == n
  {
    hide Matches;
    FirstMatch((rate: int) => Matches(tier, rate), rates, n);
  }

  /** Over `windows` rolling windows, one message a second for `matching + 10` seconds matches exactly `matching`. */
  lemma TicksMatch(matching: nat, windows: nat)
    requires matching <= windows && windows > 0
    ensures var rates := RollingWindowRates(Ticks(matching + 10), DurationOf(windows));
            |rates| == windows && Matching(Medium, rates) == matching
  {
    hide RealOffsets, Ticks, RateAt, DurationOf, RollingWindowRates, Matching;
    var rates := RollingWindowRates(Ticks(matching + 10), DurationOf(windows));
    RatesOfWindows(Ticks(matching + 10), windows);
    forall k | 0 <= k < windows ensures Matches(Medium, rates[k]) <==> k < matching {
      TickWindow(matching + 10, windows, k);
    }
    MatchingFirst(Medium, rates, matching);
  }

  /** The validator's gate is wider than the producer's: this stream of one message a second passes the one and
      not the other, with 320003 of 400004 windows in the medium range. */
  lemma GatesDiffer()
    ensures PassesHeatCheck(WorkloadOf(RealOffsets(Ticks(320013)), 400063000, Medium, true))
    ensures !Qualifies(RollingWindowRates(Ticks(320013), 400063000), Medium)
  {
    hide Ticks, RealOffsets, RollingWindowRates, Matching;
    TicksMatch(320003, 400004);
    RollingRatesAgree(Ticks(320013), 400063000);
    RoundedGate(320003, 400004);
  }
}
