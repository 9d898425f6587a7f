/** The promise of the medium tier on intervals between the whole seconds: `derive_medium_events` checks windows that
    start on whole seconds, and any 59-second interval is meant to hold at most 60 real messages. */
module MediumInterval {
  import opened Sorting
  import opened Events
  import opened Workload
  import opened MediumWorkload

  const INTERVAL_MS := 59000

  // ----- Counting in intervals

  function Within(lo: int, hi: int): Event -> bool {
    (e: Event) => RealReplyable(e) && lo <= e.offsetMs < hi
  }

  /** Real replyable events in `[lo, hi)`. */
  function RealCount(events: seq<Event>, lo: int, hi: int): nat {
    |Filter(Within(lo, hi), events)|
  }

  lemma {:induction false} RealCountIs(events: seq<Event>, lo: int, hi: int)
    ensures CountBetween(RealOffsets(events), lo, hi) == RealCount(events, lo, hi)
  {
    if events != [] {
      RealCountIs(events[1..], lo, hi);
      if RealReplyable(events[0]) {
        assert RealOffsets(events)[1..] == RealOffsets(events[1..]);
      }
    }
  }

  /** A wider condition holds at least as often. */
  lemma {:induction false} CountWider(p: Event -> bool, q: Event -> bool, events: seq<Event>)
    requires forall e :: p(e) ==> q(e)
    ensures |Filter(p, events)| <= |Filter(q, events)|
  {
    if events != [] { CountWider(p, q, events[1..]); }
  }

  lemma WiderInterval(events: seq<Event>, lo: int, hi: int, from: int, to: int)
    requires from <= lo && hi <= to
    ensures RealCount(events, lo, hi) <= RealCount(events, from, to)
  {
    CountWider(Within(lo, hi), Within(from, to), events);
  }

  lemma {:induction false} SplitInterval(events: seq<Event>, lo: int, mid: int, hi: int)
    requires lo <= mid <= hi
    ensures RealCount(events, lo, hi) == RealCount(events, lo, mid) + RealCount(events, mid, hi)
  {
    if events != [] { SplitInterval(events[1..], lo, mid, hi); }
  }

  /** Inside one calendar minute there are at most the minute's replyable events. */
  lemma OneMinute(events: seq<Event>, lo: int, hi: int, minute: int)
    requires minute * MINUTE_MS <= lo && hi <= (minute + 1) * MINUTE_MS
    ensures RealCount(events, lo, hi) <= |MinuteEvents(events, minute)|
  {
    CountWider(Within(lo, hi), DuringMinute(minute), events);
  }

  // ----- When the promise holds

  /** The interval is covered by a checked window, lies in one calendar minute, or the rate leaves room for two. */
  predicate IntervalSafe(durationMs: int, targetRate: int, t: int) {
    || durationMs < WINDOW_MS
    || t + INTERVAL_MS <= durationMs - durationMs % STEP_MS
    || t / MINUTE_MS == (t + INTERVAL_MS - 1) / MINUTE_MS
    || !(31 <= targetRate <= 60)
  }

  /** The rolling window that contains the interval. */
  lemma CoveringWindow(durationMs: int, t: int) returns (k: nat)
    requires 0 <= t && t + INTERVAL_MS <= durationMs
    requires durationMs < WINDOW_MS || t + INTERVAL_MS <= durationMs - durationMs % STEP_MS
    ensures k == 0 || k * STEP_MS <= durationMs - WINDOW_MS
    ensures k * STEP_MS <= t && t + INTERVAL_MS <= Min(durationMs, k * STEP_MS + WINDOW_MS)
  {
    if durationMs < WINDOW_MS { return 0; }
    k := Min(t / STEP_MS, (durationMs - WINDOW_MS) / STEP_MS);
  }

  lemma CoveredCapped(events: seq<Event>, durationMs: int, settings: Settings, t: int)
    requires MediumOutcome(events, durationMs, settings).Ok? && 0 <= t && t + INTERVAL_MS <= durationMs
    requires durationMs < WINDOW_MS || t + INTERVAL_MS <= durationMs - durationMs % STEP_MS
    ensures RealCount(MediumOutcome(events, durationMs, settings).value, t, t + INTERVAL_MS) <= 60
  {
    hide Thinned, RollingWindowRates, Qualifies, CountBetween, RealOffsets, RealCount;
    var out := MediumOutcome(events, durationMs, settings).value;
    var k := CoveringWindow(durationMs, t);
    WindowBelowMax(out, durationMs, k);
    RealCountIs(out, k * STEP_MS, Min(durationMs, k * STEP_MS + WINDOW_MS));
    WiderInterval(out, t, t + INTERVAL_MS, k * STEP_MS, Min(durationMs, k * STEP_MS + WINDOW_MS));
  }

  lemma MinuteCapped(events: seq<Event>, durationMs: int, settings: Settings, minute: int)
    requires MediumOutcome(events, durationMs, settings).Ok?
    ensures |MinuteEvents(MediumOutcome(events, durationMs, settings).value, minute)| <= settings.targetRate <= 60
  {
    hide Thinned, RollingWindowRates, MediumQualified, MinuteEvents;
    MinuteQuota(events, durationMs, settings, minute);
  }

  /** At most two calendar minutes meet a 59-second interval. */
  lemma TwoMinutesCapped(events: seq<Event>, durationMs: int, settings: Settings, t: int)
    requires MediumOutcome(events, durationMs, settings).Ok? && 0 <= t
    ensures RealCount(MediumOutcome(events, durationMs, settings).value, t, t + INTERVAL_MS)
            <= if t / MINUTE_MS == (t + INTERVAL_MS - 1) / MINUTE_MS then settings.targetRate
                else 2 * settings.targetRate
  {
    hide MediumOutcome, MinuteEvents, RealCount;
    var out := MediumOutcome(events, durationMs, settings).value;
    var minute := t / MINUTE_MS;
    MinuteCapped(events, durationMs, settings, minute);
    MinuteCapped(events, durationMs, settings, minute + 1);
    if minute == (t + INTERVAL_MS - 1) / MINUTE_MS {
      OneMinute(out, t, t + INTERVAL_MS, minute);
    } else {
      var b := (minute + 1) * MINUTE_MS;
      SplitInterval(out, t, b, t + INTERVAL_MS);
      OneMinute(out, t, b, minute);
      OneMinute(out, b, t + INTERVAL_MS, minute + 1);
    }
  }

  /** The promise on every accepted stream. */
  lemma AnyIntervalCapped(events: seq<Event>, durationMs: int, settings: Settings, t: int)
    requires MediumOutcome(events, durationMs, settings).Ok? && 0 <= t && t + INTERVAL_MS <= durationMs
    requires IntervalSafe(durationMs, settings.targetRate, t)
    ensures CountBetween(RealOffsets(MediumOutcome(events, durationMs, settings).value), t, t + INTERVAL_MS) <= 60
  {
    hide Thinned, RollingWindowRates, MediumQualified, RealCount, CountBetween, RealOffsets;
    RealCountIs(MediumOutcome(events, durationMs, settings).value, t, t + INTERVAL_MS);
    if durationMs < WINDOW_MS || t + INTERVAL_MS <= durationMs - durationMs % STEP_MS {
      CoveredCapped(events, durationMs, settings, t);
    } else {
      TwoMinutesCapped(events, durationMs, settings, t);
    }
  }

  // ----- A stream that escapes

  function Chat(sequence: int, offset: int): Event {
    Event(sequence, offset, Danmaku, Viewer(1), "", EMPTY_PAYLOAD)
  }

  /** So many messages at one offset. */
  function Burst(count: nat, offset: int, first: int): (events: seq<Event>)
    ensures |events| == count && forall i :: 0 <= i < count ==> events[i] == Chat(first + i, offset)
  {
    seq(count, i => Chat(first + i, offset))
  }

  /** 31 messages in the last millisecond of each of the first minutes. */
  function Bursts(minutes: nat): seq<Event> {
    if minutes == 0 then []
    else Bursts(minutes - 1) + Burst(31, minutes * MINUTE_MS - 1, 31 * (minutes - 1))
  }

  /** Those, and 30 messages at the last whole second. */
  function Crowd(minutes: nat, last: int): seq<Event> {
    Bursts(minutes) + Burst(30, last, 31 * minutes)
  }

  lemma {:induction false} BurstFilter(p: Event -> bool, count: nat, offset: int, first: int, held: bool)
    requires forall sequence :: p(Chat(sequence, offset)) == held
    ensures |Filter(p, Burst(count, offset, first))| == if held then count else 0
  {
    var events := Burst(count, offset, first);
    if held { FilterAll(p, events); } else { FilterNone(p, events); }
  }

  lemma BurstCount(count: nat, offset: int, first: int, lo: int, hi: int)
    ensures RealCount(Burst(count, offset, first), lo, hi) == if lo <= offset < hi then count else 0
  {
    BurstFilter(Within(lo, hi), count, offset, first, lo <= offset < hi);
  }

  lemma BurstMinute(count: nat, offset: int, first: int, minute: int)
    ensures |MinuteEvents(Burst(count, offset, first), minute)| == if offset / MINUTE_MS == minute then count else 0
  {
    BurstFilter(DuringMinute(minute), count, offset, first, offset / MINUTE_MS == minute);
  }

  lemma BurstsStep(minutes: nat, lo: int, hi: int)
    requires minutes > 0
    ensures RealCount(Bursts(minutes), lo, hi)
            == RealCount(Bursts(minutes - 1), lo, hi) + if lo <= minutes * MINUTE_MS - 1 < hi then 31 else 0
  {
    hide Burst;
    FilterConcat(Within(lo, hi), Bursts(minutes - 1), Burst(31, minutes * MINUTE_MS - 1, 31 * (minutes - 1)));
    BurstCount(31, minutes * MINUTE_MS - 1, 31 * (minutes - 1), lo, hi);
  }

  lemma NoBursts(lo: int, hi: int)
    ensures RealCount(Bursts(0), lo, hi) == 0
  {}

  /** Nothing lies past the last minute. */
  lemma {:induction false} BurstsEnd(minutes: nat, lo: int, hi: int)
    requires lo >= minutes * MINUTE_MS
    ensures RealCount(Bursts(minutes), lo, hi) == 0
  {
    hide RealCount, Bursts;
    if minutes == 0 {
      NoBursts(lo, hi);
    } else {
      BurstsEnd(minutes - 1, lo, hi);
      BurstsStep(minutes, lo, hi);
    }
  }

  /** Every minute-long window inside the first minutes meets exactly one burst. */
  lemma {:induction false} BurstsWindow(minutes: nat, s: int)
    requires 0 <= s < minutes * MINUTE_MS
    ensures RealCount(Bursts(minutes), s, s + WINDOW_MS) == 31
  {
    hide RealCount, Bursts;
    BurstsStep(minutes, s, s + WINDOW_MS);
    if s < (minutes - 1) * MINUTE_MS {
      BurstsWindow(minutes - 1, s);
    } else {
      BurstsEnd(minutes - 1, s, s + WINDOW_MS);
    }
  }

  lemma {:induction false} BurstsMinute(minutes: nat, minute: int)
    ensures |MinuteEvents(Bursts(minutes), minute)| == if 0 <= minute < minutes then 31 else 0
  {
    hide Burst, InMinute;
    if minutes > 0 {
      BurstsMinute(minutes - 1, minute);
      var last := Burst(31, minutes * MINUTE_MS - 1, 31 * (minutes - 1));
      MinuteConcat(Bursts(minutes - 1), last, minute);
      BurstMinute(31, minutes * MINUTE_MS - 1, 31 * (minutes - 1), minute);
    }
  }

  lemma {:induction false} BurstsPlain(minutes: nat)
    ensures forall e :: e in Bursts(minutes) ==>
              exists q :: e == Chat(q, e.offsetMs) && 0 <= e.offsetMs < minutes * MINUTE_MS
  {
    if minutes > 0 {
      BurstsPlain(minutes - 1);
      var last := Burst(31, minutes * MINUTE_MS - 1, 31 * (minutes - 1));
      forall e | e in Bursts(minutes)
        ensures exists q :: e == Chat(q, e.offsetMs) && 0 <= e.offsetMs < minutes * MINUTE_MS
      {
        if e in last {
          var i :| 0 <= i < |last| && last[i] == e;
          assert e == Chat(31 * (minutes - 1) + i, e.offsetMs);
        } else {
          assert e in Bursts(minutes - 1);
        }
      }
    }
  }

  // ----- Thinning keeps a stream that is thin already

  /** Every event is a chat in a minute of the duration, and no minute exceeds the target rate. */
  ghost predicate Thin(events: seq<Event>, durationMs: int, settings: Settings) {
    && settings.targetRate > 0
    && (forall e :: e in events ==>
        Replyable(e) && !LooksSynthetic(e)
        && 0 <= e.offsetMs / MINUTE_MS < MinuteCount(durationMs))
    && (forall minute :: |MinuteEvents(events, minute)| <= settings.targetRate)
  }

  lemma MinuteSelectsAll(events: seq<Event>, settings: Settings, minute: int)
    requires settings.targetRate > 0 && |MinuteEvents(events, minute)| <= settings.targetRate
    ensures multiset(MinuteSelection(events, settings, minute)) == multiset(MinuteEvents(events, minute))
  {
    SortPermutes(ByTime, MinuteEvents(events, minute));
  }

  lemma {:induction false} SelectsAll(events: seq<Event>, settings: Settings, minutes: nat, e: Event)
    requires settings.targetRate > 0 && forall minute :: |MinuteEvents(events, minute)| <= settings.targetRate
    ensures multiset(SelectedBefore(events, settings, minutes))[e]
            == if 0 <= e.offsetMs / MINUTE_MS < minutes && Replyable(e) then multiset(events)[e] else 0
  {
    hide MinuteSelection;
    if minutes > 0 {
      SelectsAll(events, settings, minutes - 1, e);
      MinuteSelectsAll(events, settings, minutes - 1);
      FilterMultiset(DuringMinute(minutes - 1), events, e);
      var before, last := SelectedBefore(events, settings, minutes - 1), MinuteSelection(events, settings, minutes - 1);
      assert multiset(before + last)[e] == multiset(before)[e] + multiset(last)[e];
    }
  }

  lemma ThinStays(events: seq<Event>, durationMs: int, settings: Settings)
    requires Thin(events, durationMs, settings)
    ensures multiset(Thinned(events, durationMs, settings)) == multiset(events)
  {
    hide MinuteEvents;
    var selected, others := SelectedBefore(events, settings, MinuteCount(durationMs)), Filter(NotReplyable, events);
    hide SelectedBefore, MinuteCount;
    FilterNone(NotReplyable, events);
    SortPermutes(ByTime, selected + others);
    assert selected + others == selected;
    forall e ensures multiset(selected)[e] == multiset(events)[e] {
      SelectsAll(events, settings, MinuteCount(durationMs), e);
      if e !in events { assert multiset(events)[e] == 0; }
    }
  }

  /** What is counted does not depend on order and numbering. */
  lemma CountSurvives(thinned: seq<Event>, events: seq<Event>, lo: int, hi: int)
    requires multiset(thinned) == multiset(events)
    ensures RealCount(Renumber(thinned), lo, hi) == RealCount(events, lo, hi)
  {
    FilterCountPointwise(Within(lo, hi), Renumber(thinned), thinned);
    FilterCountPermutation(Within(lo, hi), thinned, events);
  }

  /** The duration and interval in which an escape fits. */
  predicate Escapes(durationMs: int, targetRate: int, t: int) {
    0 <= t && t + INTERVAL_MS <= durationMs && !IntervalSafe(durationMs, targetRate, t)
  }

  /** The minute boundary inside the interval, and the last whole second. */
  lemma EscapeShape(durationMs: int, targetRate: int, t: int) returns (minutes: nat, last: int)
    requires Escapes(durationMs, targetRate, t)
    ensures minutes == (t + INTERVAL_MS - 1) / MINUTE_MS && last == durationMs - durationMs % STEP_MS
    ensures minutes > 0 && t <= minutes * MINUTE_MS - 1 && minutes * MINUTE_MS <= last < t + INTERVAL_MS
    ensures last / MINUTE_MS == minutes && last < durationMs && minutes < MinuteCount(durationMs)
    ensures last - WINDOW_MS < minutes * MINUTE_MS
  {
    minutes, last := (t + INTERVAL_MS - 1) / MINUTE_MS, durationMs - durationMs % STEP_MS;
  }

  lemma CrowdThin(minutes: nat, last: int, durationMs: int, settings: Settings)
    requires 31 <= settings.targetRate && last / MINUTE_MS == minutes && minutes < MinuteCount(durationMs)
    ensures Thin(Crowd(minutes, last), durationMs, settings)
  {
    hide Burst, InMinute, MinuteCount;
    var events, tail := Crowd(minutes, last), Burst(30, last, 31 * minutes);
    forall minute ensures |MinuteEvents(events, minute)| <= settings.targetRate {
      MinuteConcat(Bursts(minutes), tail, minute);
      BurstsMinute(minutes, minute);
      BurstMinute(30, last, 31 * minutes, minute);
    }
    BurstsPlain(minutes);
    forall e | e in events
      ensures Replyable(e) && !LooksSynthetic(e) && 0 <= e.offsetMs / MINUTE_MS < MinuteCount(durationMs)
    {
      if e in tail {
        var i :| 0 <= i < |tail| && tail[i] == e;
      } else {
        assert e in Bursts(minutes);
      }
    }
  }

  /** Every checked window of the crowd holds 31. */
  lemma CrowdWindows(minutes: nat, last: int, durationMs: int, out: seq<Event>, k: nat)
    requires last == durationMs - durationMs % STEP_MS && last - WINDOW_MS < minutes * MINUTE_MS
    requires k * STEP_MS <= durationMs - WINDOW_MS
    requires forall lo, hi :: RealCount(out, lo, hi) == RealCount(Crowd(minutes, last), lo, hi)
    ensures RateAt(RealOffsets(out), durationMs, k * STEP_MS) == 31
  {
    hide RealCount, RealOffsets, CountBetween, Crowd;
    var s := k * STEP_MS;
    BeforeLast(durationMs, k);
    RealCountIs(out, s, s + WINDOW_MS);
    CrowdCount(minutes, last, s, s + WINDOW_MS);
    BurstsWindow(minutes, s);
  }

  lemma BeforeLast(durationMs: int, k: nat)
    requires k * STEP_MS <= durationMs - WINDOW_MS
    ensures k * STEP_MS + WINDOW_MS <= durationMs - durationMs % STEP_MS
  {}

  lemma CrowdCount(minutes: nat, last: int, lo: int, hi: int)
    ensures RealCount(Crowd(minutes, last), lo, hi) == RealCount(Bursts(minutes), lo, hi)
            + if lo <= last < hi then 30 else 0
  {
    hide Bursts, Burst;
    FilterConcat(Within(lo, hi), Bursts(minutes), Burst(30, last, 31 * minutes));
    BurstCount(30, last, 31 * minutes, lo, hi);
  }

  lemma SteadyQualifies(rates: seq<int>)
    requires rates != [] && forall r :: r in rates ==> r == 31
    ensures MediumQualified(rates)
  {
    FilterAll((rate: int) => Matches(Medium, rate), rates);
  }

  lemma CrowdQualifies(minutes: nat, last: int, durationMs: int, out: seq<Event>)
    requires durationMs >= WINDOW_MS && last == durationMs - durationMs % STEP_MS
             && last - WINDOW_MS < minutes * MINUTE_MS
    requires forall lo, hi :: RealCount(out, lo, hi) == RealCount(Crowd(minutes, last), lo, hi)
    ensures MediumQualified(RollingWindowRates(out, durationMs))
  {
    hide RealCount, RealOffsets, RateAt, MediumQualified, Crowd;
    var rates, starts := RollingWindowRates(out, durationMs), WindowStarts(durationMs, true);
    RollingRatesAgree(out, durationMs);
    hide RollingWindowRates;
    forall r | r in rates ensures r == 31 {
      var k :| 0 <= k < |rates| && rates[k] == r;
      StartAt(durationMs, k);
      CrowdWindows(minutes, last, durationMs, out, k);
    }
    SteadyQualifies(rates);
  }

  lemma StartAt(durationMs: int, k: nat)
    requires durationMs >= WINDOW_MS && k < |WindowStarts(durationMs, true)|
    ensures WindowStarts(durationMs, true)[k] == k * STEP_MS && k * STEP_MS <= durationMs - WINDOW_MS
  {}

  /** The escaping interval holds 61 messages of a stream that thinning accepts unchanged. */
  lemma CrowdEscapes(durationMs: int, settings: Settings, t: int)
    requires Escapes(durationMs, settings.targetRate, t)
    ensures var events := Crowd((t + INTERVAL_MS - 1) / MINUTE_MS, durationMs - durationMs % STEP_MS);
            && MediumOutcome(events, durationMs, settings).Ok?
            && CountBetween(RealOffsets(MediumOutcome(events, durationMs, settings).value), t, t + INTERVAL_MS) == 61
  {
    hide RollingWindowRates, MediumQualified, RealCount, CountBetween, RealOffsets, Bursts, Burst, Thinned;
    var minutes, last := EscapeShape(durationMs, settings.targetRate, t);
    var events := Crowd(minutes, last);
    CrowdThin(minutes, last, durationMs, settings);
    ThinStays(events, durationMs, settings);
    var out := Renumber(Thinned(events, durationMs, settings));
    forall lo, hi ensures RealCount(out, lo, hi) == RealCount(events, lo, hi) {
      CountSurvives(Thinned(events, durationMs, settings), events, lo, hi);
    }
    CrowdQualifies(minutes, last, durationMs, out);
    RealCountIs(out, t, t + INTERVAL_MS);
    CrowdCount(minutes, last, t, t + INTERVAL_MS);
    LastBurst(minutes, t, t + INTERVAL_MS);
  }

  lemma LastBurst(minutes: nat, lo: int, hi: int)
    requires minutes > 0 && (minutes - 1) * MINUTE_MS <= lo <= minutes * MINUTE_MS - 1 < hi
    ensures RealCount(Bursts(minutes), lo, hi) == 31
  {
    hide RealCount, Bursts;
    BurstsStep(minutes, lo, hi);
    BurstsEnd(minutes - 1, lo, hi);
  }

  /** Main result: the promise holds of every accepted stream exactly when the interval is covered by a checked
      window, lies in one calendar minute, or the target rate is at most 30. */
  lemma CappedExactly(durationMs: int, settings: Settings, t: int)
    requires 0 <= t && t + INTERVAL_MS <= durationMs
    ensures (forall events | MediumOutcome(events, durationMs, settings).Ok? ::
               CountBetween(RealOffsets(MediumOutcome(events, durationMs, settings).value), t, t + INTERVAL_MS) <= 60)
            <==> IntervalSafe(durationMs, settings.targetRate, t)
  {
    hide MediumOutcome, CountBetween, RealOffsets;
    if IntervalSafe(durationMs, settings.targetRate, t) {
      forall events | MediumOutcome(events, durationMs, settings).Ok?
        ensures CountBetween(RealOffsets(MediumOutcome(events, durationMs, settings).value), t, t + INTERVAL_MS) <= 60
      {
        AnyIntervalCapped(events, durationMs, settings, t);
      }
    } else {
      CrowdEscapes(durationMs, settings, t);
    }
  }

  /** A concrete input: over 60.999 seconds, 31 messages just before the minute and 30 on it are accepted at the
      default rate, and the interval from 1.999 seconds holds all 61. */
  lemma TailSecondEscapes(settings: Settings)
    requires settings.targetRate == 40
    ensures MediumOutcome(Crowd(1, 60000), 60999, settings).Ok?
    ensures CountBetween(RealOffsets(MediumOutcome(Crowd(1, 60000), 60999, settings).value), 1999, 60999) == 61
  {
    hide MediumOutcome, CountBetween, RealOffsets, Crowd;
    CrowdEscapes(60999, settings, 1999);
  }
}
