/** Time compression of a real stream to a high workload: `derive_high_events`. */
module HighWorkload {
  import opened Wrappers
  import opened Rounding
  import opened Sorting
  import opened Events
  import opened Workload

  datatype HighError = NoReplyable | NotRealOnly | BadDuration | BadCompression | NotQualified

  /** Compression settings: both factors are rationals `num / den`. */
  datatype Compression = Compression(minDurationMs: int, maxNum: int, maxDen: int, stepNum: int, stepDen: int)

  predicate Rational(c: Compression) {
    c.maxDen > 0 && c.stepDen > 0
  }

  /** A compressed timeline and the factor, in hundredths, that produced it. */
  datatype Compressed = Compressed(events: seq<Event>, durationMs: int, factor: int)

  /** An offset divided by the factor, rounded to a millisecond. */
  function CompressedOffset(offsetMs: int, factor: int): int
    requires factor > 0
  {
    RoundHalfEven(offsetMs * 100, factor)
  }

  function Compress(events: seq<Event>, factor: int): (r: seq<Event>)
    requires factor > 0
    ensures |r| == |events|
    ensures forall i :: 0 <= i < |r| ==>
            r[i] == events[i].(sequence := i, offsetMs := CompressedOffset(events[i].offsetMs, factor))
  {
    seq(|events|, i requires 0 <= i < |events|
        => events[i].(sequence := i, offsetMs := CompressedOffset(events[i].offsetMs, factor)))
  }

  predicate FactorQualifies(events: seq<Event>, durationMs: int, factor: int)
    requires factor > 0
  {
    Qualifies(RollingWindowRates(Compress(events, factor), CompressedOffset(durationMs, factor)), High)
  }

  /** The first qualifying factor of the grid that starts at `factor`. */
  function FirstFactor(events: seq<Event>, durationMs: int, factor: int, maximum: int, step: int): (r: Option<int>)
    requires factor > 0 && step > 0
    ensures r.Some? ==> factor <= r.value <= maximum
    decreases maximum - factor
  {
    if factor > maximum then None
    else if FactorQualifies(events, durationMs, factor) then Some(factor)
    else FirstFactor(events, durationMs, factor + step, maximum, step)
  }

  /** The largest factor, in hundredths, that both settings allow. */
  function LargestFactor(c: Compression, durationMs: int): int
    requires Rational(c) && c.minDurationMs > 0
  {
    Min(c.maxNum * 100 / c.maxDen, durationMs * 100 / c.minDurationMs)
  }

  /** The step in hundredths, rounded. */
  function StepHundredths(c: Compression): int
    requires Rational(c)
  {
    RoundHalfEven(c.stepNum * 100, c.stepDen)
  }

  /** What `derive_high_events` returns or raises. A step that rounds to zero hundredths makes the
      factor range itself raise. */
  function HighOutcome(events: seq<Event>, durationMs: int, c: Compression): Result<Compressed, HighError>
    requires Rational(c)
  {
    var replyable := Filter(Replyable, events);
    if replyable == [] then Err(NoReplyable)
    else if exists e :: e in replyable && LooksSynthetic(e) then Err(NotRealOnly)
    else if c.minDurationMs < WINDOW_MS || durationMs < c.minDurationMs then Err(BadDuration)
    else if c.maxNum < c.maxDen || c.stepNum <= 0 || StepHundredths(c) <= 0 then Err(BadCompression)
    else
      match FirstFactor(events, durationMs, 100, LargestFactor(c, durationMs), StepHundredths(c))
      case None => Err(NotQualified)
      case Some(factor) => Ok(Compressed(Compress(events, factor), CompressedOffset(durationMs, factor), factor))
  }

  /** A positive step never rounds below zero hundredths, so zero is the one step the range rejects. */
  lemma StepNotNegative(c: Compression)
    requires Rational(c) && c.stepNum > 0
    ensures StepHundredths(c) >= 0
    ensures StepHundredths(c) == 0 <==> 200 * c.stepNum <= c.stepDen
  {
    RoundHalfEvenBounds(c.stepNum * 100, c.stepDen, 0);
    var q := StepHundredths(c);
    if 200 * c.stepNum > c.stepDen && q <= 0 { MulMonotone(q, 0, c.stepDen); }
    if 200 * c.stepNum <= c.stepDen {
      assert c.stepNum * 100 / c.stepDen == 0 && c.stepNum * 100 % c.stepDen == c.stepNum * 100;
    }
  }

  /** `factor` is the `k`-th grid point after `start`. */
  predicate OnGrid(factor: int, start: int, step: int, k: nat) {
    factor == start + k * step
  }

  lemma GridShift(factor: int, start: int, step: int, k: nat)
    ensures OnGrid(factor, start + step, step, k) <==> OnGrid(factor, start, step, k + 1)
  {
    assert (k + 1) * step == k * step + step;
  }

  lemma {:induction false} FirstFactorIsLeast(events: seq<Event>, durationMs: int, start: int, maximum: int, step: int)
      returns (k: nat)
    requires start > 0 && step > 0 && FirstFactor(events, durationMs, start, maximum, step).Some?
    ensures var factor := FirstFactor(events, durationMs, start, maximum, step).value;
            && OnGrid(factor, start, step, k) && start <= factor <= maximum
               && FactorQualifies(events, durationMs, factor)
            && forall j: nat, f: int :: j < k && OnGrid(f, start, step, j) ==>
               start <= f
               && !FactorQualifies(events, durationMs, f)
    decreases maximum - start
  {
    hide FactorQualifies;
    if FactorQualifies(events, durationMs, start) { return 0; }
    hide OnGrid;
    var k' := FirstFactorIsLeast(events, durationMs, start + step, maximum, step);
    k := k' + 1;
    var factor := FirstFactor(events, durationMs, start, maximum, step).value;
    GridShift(factor, start, step, k');
    forall j: nat, f: int | j < k && OnGrid(f, start, step, j)
      ensures start <= f && !FactorQualifies(events, durationMs, f)
    {
      if j > 0 { GridShift(f, start, step, j - 1); } else { GridStart(f, start, step); }
    }
  }

  lemma GridStart(factor: int, start: int, step: int)
    ensures OnGrid(factor, start, step, 0) <==> factor == start
  {}

  /** Main result: the factor is the least qualifying one of the grid 1.00, 1.00 + step, ... up to the maximum. */
  lemma LeastQualifyingFactor(events: seq<Event>, durationMs: int, c: Compression) returns (k: nat)
    requires Rational(c) && HighOutcome(events, durationMs, c).Ok?
    ensures var r, step := HighOutcome(events, durationMs, c).value, StepHundredths(c);
            && OnGrid(r.factor, 100, step, k) && 100 <= r.factor <= LargestFactor(c, durationMs)
            && FactorQualifies(events, durationMs, r.factor)
            && forall j: nat, f: int :: j < k && OnGrid(f, 100, step, j) ==>
               100 <= f
               && !FactorQualifies(events, durationMs, f)
  {
    hide FactorQualifies, OnGrid, LargestFactor, StepHundredths, Compress;
    k := FirstFactorIsLeast(events, durationMs, 100, LargestFactor(c, durationMs), StepHundredths(c));
  }

  /** Compression never takes the stream below the minimum duration. */
  lemma DurationKept(events: seq<Event>, durationMs: int, c: Compression)
    requires Rational(c) && HighOutcome(events, durationMs, c).Ok?
    ensures c.minDurationMs <= HighOutcome(events, durationMs, c).value.durationMs <= durationMs
  {
    hide FactorQualifies, RoundHalfEven;
    var factor := HighOutcome(events, durationMs, c).value.factor;
    var largest := durationMs * 100 / c.minDurationMs;
    MulMonotone(factor, largest, c.minDurationMs);
    assert c.minDurationMs * factor == factor * c.minDurationMs <= durationMs * 100;
    RoundHalfEvenBounds(durationMs * 100, factor, c.minDurationMs);
    MulMonotone(100, factor, durationMs);
    assert durationMs * 100 == 100 * durationMs <= factor * durationMs == durationMs * factor;
    RoundHalfEvenBounds(durationMs * 100, factor, durationMs);
  }

  lemma CompressAscends(events: seq<Event>, factor: int)
    requires factor > 0
    ensures OffsetsAscend(events) ==> OffsetsAscend(Compress(events, factor))
    ensures (forall e :: e in events ==> e.offsetMs >= 0) ==> forall e :: e in Compress(events, factor) ==>
            e.offsetMs >= 0
  {
    hide RoundHalfEven;
    if OffsetsAscend(events) {
      var r := Compress(events, factor);
      forall i, j | 0 <= i < j < |r| ensures r[i].offsetMs <= r[j].offsetMs {
        RoundHalfEvenMonotone(events[i].offsetMs * 100, events[j].offsetMs * 100, factor);
      }
    }
    if forall e :: e in events ==> e.offsetMs >= 0 {
      forall e | e in Compress(events, factor) ensures e.offsetMs >= 0 {
        var i :| 0 <= i < |events| && Compress(events, factor)[i] == e;
        assert events[i] in events;
        RoundHalfEvenBounds(events[i].offsetMs * 100, factor, 0);
      }
    }
  }

  /** Main result: event order, identity and number survive; only offsets shrink, in step. */
  lemma OrderPreserved(events: seq<Event>, durationMs: int, c: Compression)
    requires Rational(c) && HighOutcome(events, durationMs, c).Ok?
    ensures var r := HighOutcome(events, durationMs, c).value;
            && |r.events| == |events|
            && (forall i :: 0 <= i < |events| ==>
                  r.events[i] == events[i].(sequence := i, offsetMs := r.events[i].offsetMs))
            && (Timeline(events) ==> Timeline(r.events))
            && (r.factor == 100 ==> r.events == Renumber(events) && r.durationMs == durationMs)
  {
    hide FactorQualifies;
    var r := HighOutcome(events, durationMs, c).value;
    CompressAscends(events, r.factor);
    if Timeline(events) {
      forall i | 0 <= i < |events| ensures r.events[i].offsetMs >= 0 { assert r.events[i] in r.events; }
    }
    if r.factor == 100 {
      forall x: int ensures CompressedOffset(x, 100) == x { RoundHalfEvenExact(x, 100); }
      assert r.events == Renumber(events);
    }
  }

  // ----- What compression does to a stream, and when it succeeds

  /** `after` is `before` divided by `factor` hundredths, to the nearest millisecond and the even one of two. */
  predicate Divided(before: int, after: int, factor: int) {
    var gap := 2 * (100 * before - after * factor);
    -factor <= gap <= factor && (gap == factor || gap == -factor ==> after % 2 == 0)
  }

  /** The same events, renumbered in place, every offset divided. */
  predicate StreamDivided(events: seq<Event>, out: seq<Event>, factor: int) {
    && |out| == |events|
    && forall i :: 0 <= i < |events| ==>
         && out[i] == events[i].(sequence := i, offsetMs := out[i].offsetMs)
         && Divided(events[i].offsetMs, out[i].offsetMs, factor)
  }

  /** At least four in five rolling windows hold 61 to 300 messages. */
  ghost predicate HighGate(events: seq<Event>, durationMs: int) {
    exists rates :: RightRates(MessageOffsets(events), durationMs, true, rates)
                    && 5 * TierCount(High, rates) >= 4 * |rates|
  }

  /** Divided by `factor`, the stream is a high one. */
  ghost predicate HighAt(events: seq<Event>, durationMs: int, factor: int, r: Compressed) {
    && r.factor == factor && StreamDivided(events, r.events, factor) && Divided(durationMs, r.durationMs, factor)
    && HighGate(r.events, r.durationMs)
  }

  /** The factor is 1.00 plus `k` steps, where the step is the configured one in whole hundredths, and exceeds neither
      the largest factor nor the one that reaches the shortest duration. */
  predicate Allowed(c: Compression, durationMs: int, step: int, k: nat, factor: int) {
    && factor == 100 + k * step && Nearest(c.stepNum * 100, c.stepDen, step)
    && factor * c.maxDen <= c.maxNum * 100 && factor * c.minDurationMs <= durationMs * 100
  }

  /** The checks before the search. */
  predicate Compressible(events: seq<Event>, durationMs: int, c: Compression) {
    && (exists e :: e in events && Replyable(e)) && (forall e :: e in events && Replyable(e) ==> !LooksSynthetic(e))
    && 60000 <= c.minDurationMs <= durationMs && c.maxNum >= c.maxDen && c.stepNum > 0 && 200 * c.stepNum > c.stepDen
  }

  lemma DividedExactly(before: int, after: int, factor: int)
    requires factor > 0
    ensures Divided(before, after, factor) <==> after == CompressedOffset(before, factor)
  {
    hide RoundHalfEven;
    if Divided(before, after, factor) { NearestUnique(before * 100, factor, after, CompressedOffset(before, factor)); }
  }

  lemma StreamDividedExactly(events: seq<Event>, out: seq<Event>, factor: int)
    requires factor > 0
    ensures StreamDivided(events, out, factor) <==> out == Compress(events, factor)
  {
    hide CompressedOffset, Divided;
    forall before: int, after: int
      ensures Divided(before, after, factor) <==> after == CompressedOffset(before, factor)
    {
      DividedExactly(before, after, factor);
    }
  }

  lemma HighGateExactly(events: seq<Event>, durationMs: int)
    ensures HighGate(events, durationMs) <==> Qualifies(RollingWindowRates(events, durationMs), High)
  {
    hide RightRates, RollingWindowRates, Matching, TierCount, MessageOffsets;
    var rates := RollingWindowRates(events, durationMs);
    ProducerRatesAreRight(events, durationMs);
    TierCounts(High, rates);
    if HighGate(events, durationMs) {
      var other :| RightRates(MessageOffsets(events), durationMs, true, other)
                   && 5 * TierCount(High, other) >= 4 * |other|;
      RatesUnique(MessageOffsets(events), durationMs, true, rates, other);
    }
  }

  lemma HighAtExactly(events: seq<Event>, durationMs: int, factor: int, r: Compressed)
    requires factor > 0
    ensures HighAt(events, durationMs, factor, r) <==>
            FactorQualifies(events, durationMs, factor)
            && r == Compressed(Compress(events, factor), CompressedOffset(durationMs, factor), factor)
  {
    hide CompressedOffset, Divided, StreamDivided, Compress, Qualifies, RollingWindowRates, HighGate;
    HighGateExactly(r.events, r.durationMs);
    StreamDividedExactly(events, r.events, factor);
    DividedExactly(durationMs, r.durationMs, factor);
  }

  lemma AllowedExactly(c: Compression, durationMs: int, step: int, k: nat, factor: int)
    requires Rational(c) && c.minDurationMs > 0
    ensures Allowed(c, durationMs, step, k, factor) <==>
            step == StepHundredths(c) && OnGrid(factor, 100, step, k) && factor <= LargestFactor(c, durationMs)
  {
    hide RoundHalfEven;
    if Nearest(c.stepNum * 100, c.stepDen, step) {
      NearestUnique(c.stepNum * 100, c.stepDen, step, StepHundredths(c));
    }
    DivAtLeast(c.maxNum * 100, c.maxDen, factor);
    DivAtLeast(durationMs * 100, c.minDurationMs, factor);
  }

  lemma DivAtLeast(a: int, den: int, k: int)
    requires den > 0
    ensures k <= a / den <==> k * den <= a
  {
    if k <= a / den { MulMonotone(k, a / den, den); } else { MulMonotone(a / den + 1, k, den); }
  }

  /** What `derive_high_events` promises: the stream divided by the least allowed factor that makes it a high one, and a
      refusal exactly when the checks fail or no allowed factor does. */
  ghost predicate RightHigh(events: seq<Event>, durationMs: int, c: Compression, r: Result<Compressed, HighError>) {
    && (r.Ok? ==>
          exists step, k: nat ::
            && Allowed(c, durationMs, step, k, r.value.factor) && HighAt(events, durationMs, r.value.factor, r.value)
            && forall j: nat, factor, other ::
                 j < k && Allowed(c, durationMs, step, j, factor) ==> !HighAt(events, durationMs, factor, other))
    && (r.Ok? <==>
        && Compressible(events, durationMs, c)
        && exists step, k: nat, factor, other ::
             Allowed(c, durationMs, step, k, factor) && HighAt(events, durationMs, factor, other))
    && (r == Err(NotQualified) <==> Compressible(events, durationMs, c) && r.Err?)
    && (r.Err? && r.error != NotQualified ==> RefusedFor(events, durationMs, c, r.error))
  }

  /** The first check that fails. */
  predicate RefusedFor(events: seq<Event>, durationMs: int, c: Compression, error: HighError) {
    if !(exists e :: e in events && Replyable(e)) then error == NoReplyable
    else if exists e :: e in events && Replyable(e) && LooksSynthetic(e) then error == NotRealOnly
    else if !(60000 <= c.minDurationMs <= durationMs) then error == BadDuration
    else error == BadCompression
  }

  lemma CompressibleExactly(events: seq<Event>, durationMs: int, c: Compression)
    requires Rational(c)
    ensures Compressible(events, durationMs, c) <==>
            var replyable := Filter(Replyable, events);
            && replyable != [] && !(exists e :: e in replyable && LooksSynthetic(e))
            && !(c.minDurationMs < WINDOW_MS || durationMs < c.minDurationMs)
            && !(c.maxNum < c.maxDen || c.stepNum <= 0 || StepHundredths(c) <= 0)
  {
    hide StepHundredths;
    if c.stepNum > 0 { StepNotNegative(c); }
    var replyable := Filter(Replyable, events);
    if e :| e in events && Replyable(e) { assert e in replyable; }
    if replyable != [] { assert replyable[0] in replyable; }
  }

  lemma {:induction false} NoFactor(events: seq<Event>, durationMs: int, start: int, maximum: int, step: int, k: nat,
                                    factor: int)
    requires start > 0 && step > 0 && FirstFactor(events, durationMs, start, maximum, step).None?
    requires OnGrid(factor, start, step, k) && factor <= maximum
    ensures factor > 0 && !FactorQualifies(events, durationMs, factor)
    decreases k
  {
    hide FactorQualifies, OnGrid;
    if k == 0 {
      GridStart(factor, start, step);
    } else {
      GridAfter(factor, start, step, k);
      GridShift(factor, start, step, k - 1);
      NoFactor(events, durationMs, start + step, maximum, step, k - 1, factor);
    }
  }

  lemma GridAfter(factor: int, start: int, step: int, k: nat)
    requires OnGrid(factor, start, step, k) && k > 0 && step > 0
    ensures start < factor
  {
    MulMonotone(1, k, step);
  }

  /** How the outcome depends on the checks and on the search. */
  lemma OutcomeOfSearch(events: seq<Event>, durationMs: int, c: Compression)
    requires Rational(c)
    ensures var r := HighOutcome(events, durationMs, c);
            && (r.Ok? ==> Compressible(events, durationMs, c))
            && (r == Err(NotQualified) <==> Compressible(events, durationMs, c) && r.Err?)
            && (r.Err? && r.error != NotQualified ==> RefusedFor(events, durationMs, c, r.error))
            && (r == Err(NotQualified) ==>
                  && c.minDurationMs > 0 && StepHundredths(c) > 0
                  && FirstFactor(events, durationMs, 100, LargestFactor(c, durationMs), StepHundredths(c)).None?)
  {
    CompressibleExactly(events, durationMs, c);
    hide Compressible, Compress, CompressedOffset, LargestFactor, StepHundredths, LooksSynthetic, FirstFactor;
    var replyable := Filter(Replyable, events);
    assert forall e :: e in replyable <==> e in events && Replyable(e);
    assert replyable != [] ==> replyable[0] in replyable;
  }

  lemma NothingQualifies(events: seq<Event>, durationMs: int, c: Compression, step: int, k: nat, factor: int,
                         other: Compressed)
    requires Rational(c) && HighOutcome(events, durationMs, c) == Err(NotQualified)
    requires Allowed(c, durationMs, step, k, factor)
    ensures !HighAt(events, durationMs, factor, other)
  {
    hide HighOutcome, HighAt, Allowed, OnGrid, LargestFactor, StepHundredths, Compressible, FactorQualifies;
    OutcomeOfSearch(events, durationMs, c);
    AllowedExactly(c, durationMs, step, k, factor);
    NoFactor(events, durationMs, 100, LargestFactor(c, durationMs), StepHundredths(c), k, factor);
    HighAtExactly(events, durationMs, factor, other);
  }

  /** Main result. */
  lemma HighIsRight(events: seq<Event>, durationMs: int, c: Compression)
    requires Rational(c)
    ensures RightHigh(events, durationMs, c, HighOutcome(events, durationMs, c))
  {
    hide HighOutcome, Compressible, RefusedFor, HighAt, Allowed;
    OutcomeOfSearch(events, durationMs, c);
    var r := HighOutcome(events, durationMs, c);
    if r.Ok? {
      LeastIsRight(events, durationMs, c);
    } else if Compressible(events, durationMs, c) {
      forall step, k: nat, factor, other | Allowed(c, durationMs, step, k, factor)
        ensures !HighAt(events, durationMs, factor, other)
      {
        NothingQualifies(events, durationMs, c, step, k, factor, other);
      }
    }
  }

  lemma LeastIsRight(events: seq<Event>, durationMs: int, c: Compression)
    requires Rational(c) && HighOutcome(events, durationMs, c).Ok?
    ensures var r := HighOutcome(events, durationMs, c).value;
            exists step, k: nat ::
              && Allowed(c, durationMs, step, k, r.factor) && HighAt(events, durationMs, r.factor, r)
              && forall j: nat, factor, other ::
                   j < k && Allowed(c, durationMs, step, j, factor) ==> !HighAt(events, durationMs, factor, other)
  {
    hide FactorQualifies, Compress, CompressedOffset, HighAt, Allowed, OnGrid, LargestFactor, StepHundredths;
    var k := LeastQualifyingFactor(events, durationMs, c);
    var r, step := HighOutcome(events, durationMs, c).value, StepHundredths(c);
    AllowedExactly(c, durationMs, step, k, r.factor);
    HighAtExactly(events, durationMs, r.factor, r);
    forall j: nat, factor, other | j < k && Allowed(c, durationMs, step, j, factor)
      ensures !HighAt(events, durationMs, factor, other)
    {
      AllowedExactly(c, durationMs, step, j, factor);
      HighAtExactly(events, durationMs, factor, other);
    }
  }

  /** Whatever compression returns passes the validator's heat check for the high tier. */
  lemma HighPassesValidator(events: seq<Event>, durationMs: int, c: Compression)
    requires Rational(c) && HighOutcome(events, durationMs, c).Ok?
    ensures var r := HighOutcome(events, durationMs, c).value;
            PassesHeatCheck(WorkloadOf(RealOffsets(r.events), r.durationMs, High, true))
  {
    hide OnGrid, Qualifies, RollingWindowRates, LargestFactor, StepHundredths, WorkloadOf, RealOffsets;
    var k := FirstFactorIsLeast(events, durationMs, 100, LargestFactor(c, durationMs), StepHundredths(c));
    var r := HighOutcome(events, durationMs, c).value;
    QualifiedPassesValidator(r.events, r.durationMs, High);
  }

  /** The search loop over the factor range. */
  method SearchFactor(events: seq<Event>, durationMs: int, maximum: int, step: int) returns (r: Option<Compressed>)
    requires step > 0
    ensures r == match FirstFactor(events, durationMs, 100, maximum, step)
                 case None => None
                 case Some(factor) =>
                   Some(Compressed(Compress(events, factor), CompressedOffset(durationMs, factor), factor))
  {
    hide Qualifies, RollingWindowRates, RoundHalfEven, Compress;
    var factor := 100;
    while factor <= maximum
      invariant factor >= 100
      invariant FirstFactor(events, durationMs, 100, maximum, step) ==
                FirstFactor(events, durationMs, factor, maximum, step)
      decreases maximum - factor
    {
      var derivedDuration := CompressedOffset(durationMs, factor);
      var derived := Compress(events, factor);
      var rates := RollingWindowRates(derived, derivedDuration);
      if Qualifies(rates, High) { return Some(Compressed(derived, derivedDuration, factor)); }
      factor := factor + step;
    }
    r := None;
  }

  /** The whole derivation. */
  method DeriveHighEvents(events: seq<Event>, durationMs: int, c: Compression)
      returns (r: Result<Compressed, HighError>)
    requires Rational(c)
    ensures r == HighOutcome(events, durationMs, c) && RightHigh(events, durationMs, c, r)
  {
    hide RightHigh, FirstFactor, Compress, CompressedOffset, LooksSynthetic, StepHundredths, LargestFactor;
    HighIsRight(events, durationMs, c);
    var replyable := Filter(Replyable, events);
    if replyable == [] { return Err(NoReplyable); }
    if exists e :: e in replyable && LooksSynthetic(e) { return Err(NotRealOnly); }
    if c.minDurationMs < WINDOW_MS || durationMs < c.minDurationMs { return Err(BadDuration); }
    if c.maxNum < c.maxDen || c.stepNum <= 0 { return Err(BadCompression); }
    var step := StepHundredths(c);
    if step <= 0 { return Err(BadCompression); }
    var found := SearchFactor(events, durationMs, LargestFactor(c, durationMs), step);
    r := if found.Some? then Ok(found.value) else Err(NotQualified);
  }
}
