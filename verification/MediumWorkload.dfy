/** Deterministic thinning of a real stream to a medium workload: `derive_medium_events` and `_select_minute`. */
module MediumWorkload {
  import opened Wrappers
  import opened Rounding
  import opened Sorting
  import opened Distinct
  import opened Events
  import opened Workload

  datatype MediumError = BadTargetRate | NotRealOnly | NotQualified

  const MINUTE_MS := 60000

  /** The hexadecimal digest of `seed:minute:slot:sequence`, read as a number; left uninterpreted. */
  type Digest = (int, int, int, int) -> int

  datatype Settings = Settings(targetRate: int, seed: int, digest: Digest)

  datatype Rank = Rank(band: int, actorCount: int, intentCount: int, distance: int, digest: int)

  /** Tuple comparison. */
  predicate RankLess(a: Rank, b: Rank) {
    a.band < b.band || (a.band == b.band &&
    (a.actorCount < b.actorCount || (a.actorCount == b.actorCount &&
    (a.intentCount < b.intentCount || (a.intentCount == b.intentCount &&
    (a.distance < b.distance || (a.distance == b.distance && a.digest < b.digest)))))))
  }

  function IntentOf(e: Event): string {
    if e.payload.intent.Some? then e.payload.intent.value else "unknown"
  }

  function ActorIs(actor: ActorId): Event -> bool {
    (e: Event) => e.actorId == actor
  }

  function IntentIs(intent: string): Event -> bool {
    (e: Event) => IntentOf(e) == intent
  }

  function ActorCount(selected: seq<Event>, actor: ActorId): nat {
    |Filter(ActorIs(actor), selected)|
  }

  function IntentCount(selected: seq<Event>, intent: string): nat {
    |Filter(IntentIs(intent), selected)|
  }

  function Abs(x: int): nat { if x < 0 then -x else x }

  function RankIn(settings: Settings, minute: int, slot: nat, actorCount: nat, intentCount: nat, e: Event): Rank
    requires settings.targetRate > 0
  {
    var targetOffset := minute * MINUTE_MS + RoundHalfEven((2 * slot + 1) * (MINUTE_MS / 2), settings.targetRate);
    var distance := Abs(e.offsetMs - targetOffset);
    Rank(distance * settings.targetRate / MINUTE_MS, actorCount, intentCount, distance,
         settings.digest(settings.seed, minute, slot, e.sequence))
  }

  /** The rank of a candidate for a slot, given what the minute has selected so far. */
  function RankOf(settings: Settings, minute: int, slot: nat, selected: seq<Event>, e: Event): Rank
    requires settings.targetRate > 0
  {
    RankIn(settings, minute, slot, ActorCount(selected, e.actorId), IntentCount(selected, IntentOf(e)), e)
  }

  /** First index of least rank among the first `n`: Python's `min(..., key=rank)`. */
  function BestIndex(settings: Settings, minute: int, slot: nat, selected: seq<Event>, remaining: seq<Event>,
                     n: nat): (k: nat)
    requires settings.targetRate > 0 && 1 <= n <= |remaining|
    ensures k < n
  {
    if n == 1 then 0
    else
      var k := BestIndex(settings, minute, slot, selected, remaining, n - 1);
      if RankLess(RankOf(settings, minute, slot, selected, remaining[n - 1]),
                  RankOf(settings, minute, slot, selected, remaining[k]))
      then n - 1 else k
  }

  /** No remaining event ranks below the chosen one, and none before it ranks equal. */
  lemma {:induction false} BestIsLeast(settings: Settings, minute: int, slot: nat, selected: seq<Event>,
                                       remaining: seq<Event>, n: nat, j: nat)
    requires settings.targetRate > 0 && j < n <= |remaining|
    ensures var k := BestIndex(settings, minute, slot, selected, remaining, n);
            var a, b := RankOf(settings, minute, slot, selected, remaining[j]),
                RankOf(settings, minute, slot, selected, remaining[k]);
            !RankLess(a, b) && (j < k ==> RankLess(b, a))
  {
    hide RankOf;
    if j < n - 1 {
      BestIsLeast(settings, minute, slot, selected, remaining, n - 1, j);
    } else if n > 1 {
      BestIsLeast(settings, minute, slot, selected, remaining, n - 1, 0);
    }
  }

  datatype Slots = Slots(remaining: seq<Event>, selected: seq<Event>)

  function Without(s: seq<Event>, k: nat): seq<Event>
    requires k < |s|
  {
    s[..k] + s[k + 1..]
  }

  /** The minute after its first `slot` slots: each took the remaining event of least rank. */
  function AfterSlots(candidates: seq<Event>, settings: Settings, minute: int, slot: nat): (r: Slots)
    requires settings.targetRate > 0 && slot <= |candidates|
    ensures |r.selected| == slot && |r.remaining| == |candidates| - slot
  {
    if slot == 0 then Slots(candidates, [])
    else
      var before := AfterSlots(candidates, settings, minute, slot - 1);
      var k := BestIndex(settings, minute, slot - 1, before.selected, before.remaining, |before.remaining|);
      Slots(Without(before.remaining, k), before.selected + [before.remaining[k]])
  }

  lemma WithoutMultiset(s: seq<Event>, k: nat)
    requires k < |s|
    ensures multiset(Without(s, k)) + multiset{s[k]} == multiset(s)
  {
    assert s == s[..k] + [s[k]] + s[k + 1..];
  }

  /** Selecting never invents, loses or repeats a candidate. */
  lemma {:induction false} SlotsPartition(candidates: seq<Event>, settings: Settings, minute: int, slot: nat)
    requires settings.targetRate > 0 && slot <= |candidates|
    ensures var r := AfterSlots(candidates, settings, minute, slot);
            multiset(r.remaining) + multiset(r.selected) == multiset(candidates)
  {
    hide BestIndex, Without;
    if slot > 0 {
      SlotsPartition(candidates, settings, minute, slot - 1);
      var before := AfterSlots(candidates, settings, minute, slot - 1);
      MoveKeepsAll(before,
                   BestIndex(settings, minute, slot - 1, before.selected, before.remaining, |before.remaining|));
    }
  }

  lemma MoveKeepsAll(before: Slots, k: nat)
    requires k < |before.remaining|
    ensures multiset(Without(before.remaining, k)) + multiset(before.selected + [before.remaining[k]])
            == multiset(before.remaining) + multiset(before.selected)
  {
    hide Without;
    WithoutMultiset(before.remaining, k);
  }

  ghost predicate Counted(selected: seq<Event>, actorCounts: map<ActorId, nat>, intentCounts: map<string, nat>) {
    && (forall a :: (if a in actorCounts then actorCounts[a] else 0) == ActorCount(selected, a))
    && (forall i :: (if i in intentCounts then intentCounts[i] else 0) == IntentCount(selected, i))
  }

  lemma NothingCounted()
    ensures Counted([], map[], map[])
  {}

  /** The first candidate of least rank, with the two counters at hand. */
  method BestRemaining(settings: Settings, minute: int, slot: nat, remaining: seq<Event>,
                       actorCounts: map<ActorId, nat>, intentCounts: map<string, nat>, ghost selected: seq<Event>)
    returns (best: nat)
    requires settings.targetRate > 0 && remaining != [] && Counted(selected, actorCounts, intentCounts)
    ensures best == BestIndex(settings, minute, slot, selected, remaining, |remaining|)
  {
    hide RankIn, RankLess, ActorCount, IntentCount;
    best := 0;
    for j := 1 to |remaining|
      invariant best < j && best == BestIndex(settings, minute, slot, selected, remaining, j)
    {
      var rank := RankWith(settings, minute, slot, actorCounts, intentCounts, remaining[j]);
      var bestRank := RankWith(settings, minute, slot, actorCounts, intentCounts, remaining[best]);
      if RankLess(rank, bestRank) { best := j; }
    }
  }

  /** The slot loop with its two counters. */
  method SelectMinute(candidates: seq<Event>, settings: Settings, minute: int) returns (selected: seq<Event>)
    requires 0 < settings.targetRate <= |candidates|
    ensures selected == AfterSlots(candidates, settings, minute, settings.targetRate).selected
  {
    hide RankIn, RankOf, RankLess, ActorCount, IntentCount, BestIndex;
    var remaining := candidates;
    selected := [];
    var actorCounts: map<ActorId, nat> := map[];
    var intentCounts: map<string, nat> := map[];
    NothingCounted();
    for slot := 0 to settings.targetRate
      invariant Slots(remaining, selected) == AfterSlots(candidates, settings, minute, slot)
      invariant Counted(selected, actorCounts, intentCounts)
    {
      var best := BestRemaining(settings, minute, slot, remaining, actorCounts, intentCounts, selected);
      var chosen := remaining[best];
      CountsAfter(selected, chosen);
      remaining := Without(remaining, best);
      selected := selected + [chosen];
      actorCounts :=
          actorCounts[chosen.actorId := (if chosen.actorId in actorCounts then actorCounts[chosen.actorId] else 0) + 1];
      intentCounts :=
          intentCounts[IntentOf(chosen) := (if IntentOf(chosen) in intentCounts then intentCounts[IntentOf(chosen)]
          else 0) + 1];
    }
  }

  function RankWith(settings: Settings, minute: int, slot: nat, actorCounts: map<ActorId, nat>,
                    intentCounts: map<string, nat>, e: Event): Rank
    requires settings.targetRate > 0
  {
    RankIn(settings, minute, slot,
           if e.actorId in actorCounts then actorCounts[e.actorId] else 0,
           if IntentOf(e) in intentCounts then intentCounts[IntentOf(e)] else 0, e)
  }

  lemma CountsAfter(selected: seq<Event>, chosen: Event)
    ensures forall a ::
              ActorCount(selected + [chosen], a)
              == ActorCount(selected, a) + if chosen.actorId == a then 1 else 0
    ensures forall i ::
              IntentCount(selected + [chosen], i)
              == IntentCount(selected, i) + if IntentOf(chosen) == i then 1 else 0
  {
    forall a
      ensures ActorCount(selected + [chosen], a) == ActorCount(selected, a) + if chosen.actorId == a then 1 else 0
    {
      FilterConcat(ActorIs(a), selected, [chosen]);
    }
    forall i
      ensures IntentCount(selected + [chosen], i) == IntentCount(selected, i) + if IntentOf(chosen) == i then 1 else 0
    {
      FilterConcat(IntentIs(i), selected, [chosen]);
    }
  }

  predicate InMinute(e: Event, minute: int) {
    Replyable(e) && e.offsetMs / MINUTE_MS == minute
  }

  function DuringMinute(minute: int): Event -> bool {
    (e: Event) => InMinute(e, minute)
  }

  function MinuteEvents(events: seq<Event>, minute: int): seq<Event> {
    Filter(DuringMinute(minute), events)
  }

  /** What one calendar minute contributes. */
  function MinuteSelection(events: seq<Event>, settings: Settings, minute: int): seq<Event>
    requires settings.targetRate > 0
  {
    var candidates := Sort(ByTime, MinuteEvents(events, minute));
    if |candidates| <= settings.targetRate then candidates
    else AfterSlots(candidates, settings, minute, settings.targetRate).selected
  }

  function MinuteCount(durationMs: int): (n: nat)
    ensures n >= 1
  {
    Max(1, CeilDiv(durationMs, MINUTE_MS))
  }

  function SelectedBefore(events: seq<Event>, settings: Settings, minutes: nat): seq<Event>
    requires settings.targetRate > 0
  {
    if minutes == 0 then []
    else SelectedBefore(events, settings, minutes - 1) + MinuteSelection(events, settings, minutes - 1)
  }

  predicate NotReplyable(e: Event) {
    !Replyable(e)
  }

  function Thinned(events: seq<Event>, durationMs: int, settings: Settings): seq<Event>
    requires settings.targetRate > 0
  {
    Sort(ByTime, SelectedBefore(events, settings, MinuteCount(durationMs)) + Filter(NotReplyable, events))
  }

  /** No window above 60 and at least 80% of them between 11 and 60. */
  predicate MediumQualified(rates: seq<int>)
    requires rates != []
  {
    MaxOf(rates) <= 60 && Qualifies(rates, Medium)
  }

  /** What `derive_medium_events` returns or raises. */
  function MediumOutcome(events: seq<Event>, durationMs: int, settings: Settings): Result<seq<Event>, MediumError> {
    if !(11 <= settings.targetRate <= 60) then Err(BadTargetRate)
    else if exists e :: e in Filter(Replyable, events) && LooksSynthetic(e) then Err(NotRealOnly)
    else
      var derived := Renumber(Thinned(events, durationMs, settings));
      if MediumQualified(RollingWindowRates(derived, durationMs)) then Ok(derived) else Err(NotQualified)
  }

  // ----- What the outcome means

  lemma OneMinuteEach(e: Event, a: int, b: int)
    requires a != b
    ensures !(InMinute(e, a) && InMinute(e, b))
  {}

  lemma MinuteSelectionFrom(events: seq<Event>, settings: Settings, minute: int)
    requires settings.targetRate > 0
    ensures var s := MinuteSelection(events, settings, minute);
            && multiset(s) <= multiset(MinuteEvents(events, minute))
            && |s| == Min(|MinuteEvents(events, minute)|, settings.targetRate)
            && forall e :: e in s ==> InMinute(e, minute)
  {
    var group := MinuteEvents(events, minute);
    var candidates := Sort(ByTime, group);
    SortPermutes(ByTime, group);
    if |candidates| > settings.targetRate {
      SlotsPartition(candidates, settings, minute, settings.targetRate);
    }
    var s := MinuteSelection(events, settings, minute);
    forall e | e in s ensures InMinute(e, minute) {
      assert e in multiset(s);
      assert e in multiset(group);
      assert e in group;
    }
  }

  lemma MinuteConcat(a: seq<Event>, b: seq<Event>, minute: int)
    ensures MinuteEvents(a + b, minute) == MinuteEvents(a, minute) + MinuteEvents(b, minute)
  {
    hide InMinute;
    FilterConcat(DuringMinute(minute), a, b);
  }

  lemma OwnMinuteOnly(events: seq<Event>, settings: Settings, own: int, minute: int)
    requires settings.targetRate > 0
    ensures MinuteEvents(MinuteSelection(events, settings, own), minute)
            == if own == minute then MinuteSelection(events, settings, own) else []
  {
    hide InMinute, MinuteSelection;
    MinuteSelectionFrom(events, settings, own);
    var s := MinuteSelection(events, settings, own);
    if own == minute {
      FilterAll(DuringMinute(minute), s);
    } else {
      forall e | e in s ensures !InMinute(e, minute) { OneMinuteEach(e, minute, own); }
      FilterNone(DuringMinute(minute), s);
    }
  }

  /** The selection of the first `minutes` minutes restricted to one minute. */
  lemma {:induction false} SelectedInMinute(events: seq<Event>, settings: Settings, minutes: nat, minute: int)
    requires settings.targetRate > 0
    ensures MinuteEvents(SelectedBefore(events, settings, minutes), minute)
            == if 0 <= minute < minutes then MinuteSelection(events, settings, minute) else []
  {
    hide InMinute, MinuteSelection;
    if minutes > 0 {
      SelectedInMinute(events, settings, minutes - 1, minute);
      MinuteConcat(SelectedBefore(events, settings, minutes - 1), MinuteSelection(events, settings, minutes - 1),
                   minute);
      OwnMinuteOnly(events, settings, minutes - 1, minute);
    }
  }

  /** Main result: each calendar minute of the duration keeps exactly min(count, target rate) replyable
      events, and no other minute keeps any. */
  lemma MinuteQuota(events: seq<Event>, durationMs: int, settings: Settings, minute: int)
    requires settings.targetRate > 0
    ensures |MinuteEvents(Renumber(Thinned(events, durationMs, settings)), minute)|
            == if 0 <= minute < MinuteCount(durationMs) then Min(|MinuteEvents(events, minute)|, settings.targetRate)
                else 0
  {
    var p := DuringMinute(minute);
    var selected, others := SelectedBefore(events, settings, MinuteCount(durationMs)), Filter(NotReplyable, events);
    var thinned := Thinned(events, durationMs, settings);
    FilterCountPointwise(p, Renumber(thinned), thinned);
    SortPermutes(ByTime, selected + others);
    FilterCountPermutation(p, thinned, selected + others);
    FilterConcat(p, selected, others);
    FilterNone(p, others);
    SelectedInMinute(events, settings, MinuteCount(durationMs), minute);
    MinuteSelectionFrom(events, settings, minute);
  }

  lemma MinuteOccurs(events: seq<Event>, settings: Settings, minute: int, e: Event)
    requires settings.targetRate > 0
    ensures multiset(MinuteSelection(events, settings, minute))[e] <= if InMinute(e, minute) then multiset(events)[e]
            else 0
  {
    hide MinuteSelection, InMinute;
    MinuteSelectionFrom(events, settings, minute);
    FilterMultiset(DuringMinute(minute), events, e);
    assert multiset(MinuteSelection(events, settings, minute))[e] <= multiset(MinuteEvents(events, minute))[e];
  }

  /** The selection takes each input event at most as often as it occurs. */
  lemma {:induction false} SelectedOccurs(events: seq<Event>, settings: Settings, minutes: nat, e: Event)
    requires settings.targetRate > 0
    ensures multiset(SelectedBefore(events, settings, minutes))[e]
            <= if 0 <= e.offsetMs / MINUTE_MS < minutes && Replyable(e) then multiset(events)[e] else 0
  {
    hide MinuteSelection;
    if minutes > 0 {
      SelectedOccurs(events, settings, minutes - 1, e);
      MinuteOccurs(events, settings, minutes - 1, e);
      var before, last := SelectedBefore(events, settings, minutes - 1), MinuteSelection(events, settings, minutes - 1);
      assert multiset(before + last)[e] == multiset(before)[e] + multiset(last)[e];
    }
  }

  lemma ThinnedOccurs(events: seq<Event>, durationMs: int, settings: Settings)
    requires settings.targetRate > 0
    ensures multiset(Thinned(events, durationMs, settings)) <= multiset(events)
  {
    var selected, others := SelectedBefore(events, settings, MinuteCount(durationMs)), Filter(NotReplyable, events);
    SortPermutes(ByTime, selected + others);
    forall e ensures multiset(selected + others)[e] <= multiset(events)[e] {
      SelectedOccurs(events, settings, MinuteCount(durationMs), e);
      FilterMultiset(NotReplyable, events, e);
    }
  }

  predicate StrictlySorted(events: seq<Event>) {
    forall i, j :: 0 <= i < j < |events| ==> ByTime(events[i], events[j]) && !ByTime(events[j], events[i])
  }

  lemma StrictlyOnce(events: seq<Event>)
    requires StrictlySorted(events)
    ensures NoRepeats(events)
  {}

  /** A sorted sub-multiset of a strictly sorted sequence is a subsequence of it. */
  lemma {:induction false} SortedSubset(a: seq<Event>, events: seq<Event>) returns (idx: seq<nat>)
    requires SortedBy(ByTime, a) && StrictlySorted(events) && multiset(a) <= multiset(events)
    ensures |idx| == |a| && forall i :: 0 <= i < |a| ==> idx[i] < |events| && events[idx[i]] == a[i]
    ensures forall i, j :: 0 <= i < j < |idx| ==> idx[i] < idx[j]
  {
    idx := [];
    for n := 0 to |a|
      invariant |idx| == n
      invariant forall i :: 0 <= i < n ==> idx[i] < |events| && events[idx[i]] == a[i]
      invariant forall i, j :: 0 <= i < j < n ==> idx[i] < idx[j]
    {
      assert a[n] in multiset(events);
      var k: nat :| k < |events| && events[k] == a[n];
      forall i | 0 <= i < n ensures idx[i] < k {
        assert ByTime(a[i], a[n]);
        StrictlyOnce(events);
        OccursOnce(events, k);
        if a[i] == a[n] { OccursTwice(a, i, n); }
      }
      idx := idx + [k];
    }
  }

  /** Main result: the medium stream is an order-preserving, duplicate-free part of the input. */
  lemma MediumIsSubsequence(events: seq<Event>, durationMs: int, settings: Settings) returns (idx: seq<nat>)
    requires StrictlySorted(events) && MediumOutcome(events, durationMs, settings).Ok?
    ensures var out := MediumOutcome(events, durationMs, settings).value;
            && |idx| == |out|
            && (forall i :: 0 <= i < |out| ==> idx[i] < |events| && out[i] == Renumbered(events[idx[i]], i))
            && (forall i, j :: 0 <= i < j < |idx| ==> idx[i] < idx[j])
  {
    var selected, others := SelectedBefore(events, settings, MinuteCount(durationMs)), Filter(NotReplyable, events);
    ByTimeIsPreorder();
    SortSorts(ByTime, selected + others);
    ThinnedOccurs(events, durationMs, settings);
    idx := SortedSubset(Thinned(events, durationMs, settings), events);
  }

  /** The medium stream is numbered 0..n-1 in time order, for every input. */
  lemma MediumTimeline(events: seq<Event>, durationMs: int, settings: Settings)
    requires MediumOutcome(events, durationMs, settings).Ok?
    ensures var out := MediumOutcome(events, durationMs, settings).value;
            && SequencesAreIndexes(out) && OffsetsAscend(out)
            && ((forall e :: e in events ==> e.offsetMs >= 0) ==> Timeline(out))
            && ((forall e :: e in events ==> NotSynthetic(e)) ==> forall e :: e in out ==> NotSynthetic(e))
  {
    hide RollingWindowRates, MediumQualified, SelectedBefore;
    var thinned := Thinned(events, durationMs, settings);
    ByTimeIsPreorder();
    SortSorts(ByTime, SelectedBefore(events, settings, MinuteCount(durationMs)) + Filter(NotReplyable, events));
    SortedAscends(thinned);
    ThinnedOccurs(events, durationMs, settings);
    forall i | 0 <= i < |thinned| ensures thinned[i] in events {
      assert thinned[i] in multiset(events);
    }
  }

  /** Every event of the medium stream is an input event under a new number. */
  lemma MediumFromInput(events: seq<Event>, durationMs: int, settings: Settings, e: Event)
    requires MediumOutcome(events, durationMs, settings).Ok? && e in MediumOutcome(events, durationMs, settings).value
    ensures exists s :: s in events && e == Renumbered(s, e.sequence)
  {
    hide RollingWindowRates, MediumQualified, SelectedBefore;
    ThinnedOccurs(events, durationMs, settings);
    var thinned := Thinned(events, durationMs, settings);
    var i :| 0 <= i < |thinned| && e == Renumbered(thinned[i], i);
    assert thinned[i] in multiset(events);
  }

  /** Whatever thinning returns passes the validator's heat check for the medium tier. */
  lemma MediumPassesValidator(events: seq<Event>, durationMs: int, settings: Settings)
    requires MediumOutcome(events, durationMs, settings).Ok?
    ensures PassesHeatCheck(WorkloadOf(RealOffsets(MediumOutcome(events, durationMs, settings).value), durationMs,
                                       Medium, true))
  {
    hide Thinned, RollingWindowRates, WorkloadOf, RealOffsets;
    QualifiedPassesValidator(MediumOutcome(events, durationMs, settings).value, durationMs, Medium);
  }

  // ----- What thinning promises

  function HowMany(p: Event -> bool, events: seq<Event>): nat {
    |Filter(p, events)|
  }

  /** Candidate `a` comes before `b` for a slot centred on `target`: nearer in whole slot widths, then of an author and
      of an intent chosen less often so far, then nearer in milliseconds, then of the lower digest. */
  predicate Preferred(settings: Settings, minute: int, slot: nat, target: int, selected: seq<Event>, a: Event,
                      b: Event) {
    var near, far := Abs(a.offsetMs - target), Abs(b.offsetMs - target);
    var nearBand, farBand := near * settings.targetRate / 60000, far * settings.targetRate / 60000;
    var authorA, authorB := HowMany((e: Event) => e.actorId == a.actorId, selected),
        HowMany((e: Event) => e.actorId == b.actorId, selected);
    var intentA, intentB := HowMany((e: Event) => IntentOf(e) == IntentOf(a), selected),
        HowMany((e: Event) => IntentOf(e) == IntentOf(b), selected);
    var digestA, digestB := settings.digest(settings.seed, minute, slot, a.sequence),
        settings.digest(settings.seed, minute, slot, b.sequence);
    || nearBand < farBand
    || (nearBand == farBand && authorA < authorB)
    || (nearBand == farBand && authorA == authorB && intentA < intentB)
    || (nearBand == farBand && authorA == authorB && intentA == intentB && near < far)
    || (nearBand == farBand && authorA == authorB && intentA == intentB && near == far && digestA < digestB)
  }

  /** The slot takes the first of the preferred candidates. */
  ghost predicate RightSlot(settings: Settings, minute: int, slot: nat, before: Slots, after: Slots) {
    exists target: int, k: nat ::
      Nearest((2 * slot + 1) * 30000, settings.targetRate, target - minute * 60000)
      && Takes(settings, minute, slot, target, before, after, k)
  }

  ghost predicate Takes(settings: Settings, minute: int, slot: nat, target: int, before: Slots, after: Slots, k: nat) {
    && k < |before.remaining|
    && after == Slots(before.remaining[..k] + before.remaining[k + 1..], before.selected + [before.remaining[k]])
    && forall j :: 0 <= j < |before.remaining| && j != k ==>
         && !Preferred(settings, minute, slot, target, before.selected, before.remaining[j], before.remaining[k])
         && (j < k ==>
               Preferred(settings, minute, slot, target, before.selected, before.remaining[k], before.remaining[j]))
  }

  ghost predicate RightSlots(settings: Settings, minute: int, candidates: seq<Event>, trail: seq<Slots>) {
    && |trail| >= 1 && trail[0] == Slots(candidates, [])
    && forall slot :: 0 <= slot < |trail| - 1 ==> RightSlot(settings, minute, slot, trail[slot], trail[slot + 1])
  }

  /** The replyable events of a calendar minute, in time order. */
  ghost predicate MinuteCandidates(events: seq<Event>, minute: int, candidates: seq<Event>) {
    && SortedBy(ByTime, candidates)
    && multiset(candidates)
       == multiset(Filter((e: Event) => Replyable(e) && minute * 60000 <= e.offsetMs < (minute + 1) * 60000, events))
  }

  /** What a minute keeps: all its candidates when they fit the rate, otherwise one per slot. */
  ghost predicate RightMinute(events: seq<Event>, settings: Settings, minute: int, picked: seq<Event>) {
    exists candidates :: MinuteCandidates(events, minute, candidates)
                         && RightPick(settings, minute, candidates, picked)
  }

  ghost predicate RightPick(settings: Settings, minute: int, candidates: seq<Event>, picked: seq<Event>) {
    if |candidates| <= settings.targetRate then picked == candidates
    else exists trail: seq<Slots> ::
           RightSlots(settings, minute, candidates, trail) && |trail| == settings.targetRate + 1
           && picked == trail[settings.targetRate].selected
  }

  /** The picks of the duration's minutes and every event that is no message, in time order. */
  ghost predicate RightThinning(events: seq<Event>, durationMs: int, settings: Settings, kept: seq<Event>) {
    SortedBy(ByTime, kept)
    && exists picks: seq<seq<Event>> ::
         && |picks| >= 1 && durationMs <= |picks| * 60000 && (|picks| == 1 || (|picks| - 1) * 60000 < durationMs)
         && (forall m :: 0 <= m < |picks| ==> RightMinute(events, settings, m, picks[m]))
         && multiset(kept) == multiset(Flat(picks)) + multiset(Filter((e: Event) => !Replyable(e), events))
  }

  /** No rolling window of messages holds more than 60, and at least four in five hold 11 or more. */
  predicate MediumRates(rates: seq<int>) {
    (forall r :: r in rates ==> r <= 60) && 5 * TierCount(Medium, rates) >= 4 * |rates|
  }

  ghost predicate GateIs(kept: seq<Event>, durationMs: int, open: bool) {
    exists rates :: RightRates(MessageOffsets(Renumber(kept)), durationMs, true, rates)
                    && (MediumRates(rates) <==> open)
  }

  /** What `derive_medium_events` promises: the thinned stream renumbered when it passes the gate, and a refusal exactly
      of a bad rate, of input that looks synthetic, or of a thinned stream that does not pass. */
  ghost predicate RightMedium(events: seq<Event>, durationMs: int, settings: Settings,
                              r: Result<seq<Event>, MediumError>) {
    && (r == Err(BadTargetRate) <==> !(11 <= settings.targetRate <= 60))
    && (r == Err(NotRealOnly) <==>
        11 <= settings.targetRate <= 60 && exists e :: e in events && Replyable(e) && LooksSynthetic(e))
    && (r.Ok? ==> exists kept :: RightThinning(events, durationMs, settings, kept) && r.value == Renumber(kept)
                                 && GateIs(kept, durationMs, true))
    && (r == Err(NotQualified) ==> exists kept :: RightThinning(events, durationMs, settings, kept)
                                                  && GateIs(kept, durationMs, false))
  }

  lemma PreferredIsLess(settings: Settings, minute: int, slot: nat, selected: seq<Event>, a: Event, b: Event)
    requires settings.targetRate > 0
    ensures var target := minute * 60000 + RoundHalfEven((2 * slot + 1) * 30000, settings.targetRate);
            Preferred(settings, minute, slot, target, selected, a, b)
            <==> RankLess(RankOf(settings, minute, slot, selected, a), RankOf(settings, minute, slot, selected, b))
  {
    FilterAlike(ActorIs(a.actorId), (e: Event) => e.actorId == a.actorId, selected);
    FilterAlike(ActorIs(b.actorId), (e: Event) => e.actorId == b.actorId, selected);
    FilterAlike(IntentIs(IntentOf(a)), (e: Event) => IntentOf(e) == IntentOf(a), selected);
    FilterAlike(IntentIs(IntentOf(b)), (e: Event) => IntentOf(e) == IntentOf(b), selected);
    hide RoundHalfEven, IntentOf, Filter;
  }

  lemma SlotIsRight(candidates: seq<Event>, settings: Settings, minute: int, slot: nat)
    requires settings.targetRate > 0 && slot < |candidates|
    ensures RightSlot(settings, minute, slot, AfterSlots(candidates, settings, minute, slot),
                      AfterSlots(candidates, settings, minute, slot + 1))
  {
    hide RankOf, RankLess, Preferred, RoundHalfEven;
    var before := AfterSlots(candidates, settings, minute, slot);
    var remaining := before.remaining;
    var k := BestIndex(settings, minute, slot, before.selected, remaining, |remaining|);
    var target := minute * 60000 + RoundHalfEven((2 * slot + 1) * 30000, settings.targetRate);
    forall j | 0 <= j < |remaining| && j != k
      ensures !Preferred(settings, minute, slot, target, before.selected, remaining[j], remaining[k])
      ensures j < k ==> Preferred(settings, minute, slot, target, before.selected, remaining[k], remaining[j])
    {
      BestIsLeast(settings, minute, slot, before.selected, remaining, |remaining|, j);
      PreferredIsLess(settings, minute, slot, before.selected, remaining[j], remaining[k]);
      PreferredIsLess(settings, minute, slot, before.selected, remaining[k], remaining[j]);
    }
    assert Takes(settings, minute, slot, target, before, AfterSlots(candidates, settings, minute, slot + 1), k);
  }

  lemma SlotsAreRight(candidates: seq<Event>, settings: Settings, minute: int)
    requires 0 < settings.targetRate < |candidates|
    ensures RightPick(settings, minute, candidates,
                      AfterSlots(candidates, settings, minute, settings.targetRate).selected)
  {
    hide RightSlot, AfterSlots;
    var trail := seq(settings.targetRate + 1,
                     slot requires 0 <= slot <= settings.targetRate => AfterSlots(candidates, settings, minute, slot));
    StartSlots(candidates, settings, minute);
    forall slot | 0 <= slot < settings.targetRate
      ensures RightSlot(settings, minute, slot, trail[slot], trail[slot + 1])
    {
      SlotIsRight(candidates, settings, minute, slot);
    }
    assert RightSlots(settings, minute, candidates, trail);
  }

  lemma StartSlots(candidates: seq<Event>, settings: Settings, minute: int)
    requires settings.targetRate > 0
    ensures AfterSlots(candidates, settings, minute, 0) == Slots(candidates, [])
  {}

  lemma MinuteIsRight(events: seq<Event>, settings: Settings, minute: int)
    requires settings.targetRate > 0
    ensures RightMinute(events, settings, minute, MinuteSelection(events, settings, minute))
  {
    hide AfterSlots, RightSlots;
    var group := MinuteEvents(events, minute);
    var candidates := Sort(ByTime, group);
    SortPermutes(ByTime, group);
    ByTimeIsPreorder();
    SortSorts(ByTime, group);
    FilterAlike(DuringMinute(minute),
                (e: Event) => Replyable(e) && minute * 60000 <= e.offsetMs < (minute + 1) * 60000, events);
    assert MinuteCandidates(events, minute, candidates);
    if |candidates| > settings.targetRate { SlotsAreRight(candidates, settings, minute); }
    assert RightPick(settings, minute, candidates, MinuteSelection(events, settings, minute));
  }

  lemma {:induction false} PicksAreSelected(events: seq<Event>, settings: Settings, minutes: nat)
    requires settings.targetRate > 0
    ensures Flat(seq(minutes, m requires 0 <= m < minutes => MinuteSelection(events, settings, m)))
            == SelectedBefore(events, settings, minutes)
  {
    hide MinuteSelection;
    if minutes > 0 {
      var picks := seq(minutes, m requires 0 <= m < minutes => MinuteSelection(events, settings, m));
      PicksAreSelected(events, settings, minutes - 1);
      assert picks[..minutes - 1]
             == seq(minutes - 1, m requires 0 <= m < minutes - 1 => MinuteSelection(events, settings, m));
    }
  }

  lemma ThinnedIsRight(events: seq<Event>, durationMs: int, settings: Settings)
    requires settings.targetRate > 0
    ensures RightThinning(events, durationMs, settings, Thinned(events, durationMs, settings))
  {
    hide RightMinute, MinuteSelection, Flat;
    var n := MinuteCount(durationMs);
    var picks := seq(n, m requires 0 <= m < n => MinuteSelection(events, settings, m));
    var selected, others := SelectedBefore(events, settings, n), Filter(NotReplyable, events);
    PicksAreSelected(events, settings, n);
    forall m | 0 <= m < n ensures RightMinute(events, settings, m, picks[m]) { MinuteIsRight(events, settings, m); }
    ByTimeIsPreorder();
    SortSorts(ByTime, selected + others);
    SortPermutes(ByTime, selected + others);
    FilterAlike(NotReplyable, (e: Event) => !Replyable(e), events);
    assert |picks| == n;
  }

  lemma GateIsRight(kept: seq<Event>, durationMs: int)
    ensures GateIs(kept, durationMs, MediumQualified(RollingWindowRates(Renumber(kept), durationMs)))
  {
    hide RightRates, RollingWindowRates, Matching, TierCount;
    var rates := RollingWindowRates(Renumber(kept), durationMs);
    ProducerRatesAreRight(Renumber(kept), durationMs);
    TierCounts(Medium, rates);
  }

  /** Main result. */
  lemma MediumIsRight(events: seq<Event>, durationMs: int, settings: Settings)
    ensures RightMedium(events, durationMs, settings, MediumOutcome(events, durationMs, settings))
  {
    hide RightThinning, GateIs, Thinned, MediumQualified, RollingWindowRates, LooksSynthetic;
    var replyable := Filter(Replyable, events);
    if e :| e in events && Replyable(e) && LooksSynthetic(e) { assert e in replyable; }
    if 11 <= settings.targetRate <= 60 {
      ThinnedIsRight(events, durationMs, settings);
      GateIsRight(Thinned(events, durationMs, settings), durationMs);
    }
  }

  // ----- The loops

  method DeriveMediumEvents(events: seq<Event>, durationMs: int, settings: Settings)
      returns (r: Result<seq<Event>, MediumError>)
    ensures r == MediumOutcome(events, durationMs, settings) && RightMedium(events, durationMs, settings, r)
  {
    MediumIsRight(events, durationMs, settings);
    hide RightMedium, SelectedBefore, InMinute, MinuteEvents, RollingWindowRates, MaxOf, Qualifies, CeilDiv;
    if !(11 <= settings.targetRate <= 60) { return Err(BadTargetRate); }
    var replyable := Filter(Replyable, events);
    if exists e :: e in replyable && LooksSynthetic(e) { return Err(NotRealOnly); }
    var byMinute := GroupByMinute(replyable);
    var selected := SelectMinutes(events, byMinute, durationMs, settings);
    var combined := Sort(ByTime, selected + Filter(NotReplyable, events));
    var derived := Renumber(combined);
    var rates := RollingWindowRates(derived, durationMs);
    if MaxOf(rates) > 60 || !Qualifies(rates, Medium) { return Err(NotQualified); }
    r := Ok(derived);
  }

  /** The minute loop over the grouped events. */
  method SelectMinutes(events: seq<Event>, byMinute: map<int, seq<Event>>, durationMs: int, settings: Settings)
    returns (selected: seq<Event>)
    requires settings.targetRate > 0
    requires forall m :: (if m in byMinute then byMinute[m] else []) == MinuteEvents(Filter(Replyable, events), m)
    ensures selected == SelectedBefore(events, settings, MinuteCount(durationMs))
  {
    hide AfterSlots, InMinute, MinuteEvents, CeilDiv;
    selected := [];
    for minute := 0 to MinuteCount(durationMs)
      invariant selected == SelectedBefore(events, settings, minute)
    {
      MinuteOfReplyable(events, minute);
      var candidates := Sort(ByTime, if minute in byMinute then byMinute[minute] else []);
      if |candidates| <= settings.targetRate {
        selected := selected + candidates;
      } else {
        var chosen := SelectMinute(candidates, settings, minute);
        selected := selected + chosen;
      }
    }
  }

  method GroupByMinute(replyable: seq<Event>) returns (byMinute: map<int, seq<Event>>)
    requires forall e :: e in replyable ==> Replyable(e)
    ensures forall m :: (if m in byMinute then byMinute[m] else []) == MinuteEvents(replyable, m)
  {
    hide InMinute, MinuteEvents;
    byMinute := map[];
    NoMinuteEvents();
    for i := 0 to |replyable|
      invariant forall m :: (if m in byMinute then byMinute[m] else []) == MinuteEvents(replyable[..i], m)
    {
      var e := replyable[i];
      var minute := e.offsetMs / MINUTE_MS;
      assert replyable[..i + 1] == replyable[..i] + [e];
      forall m
        ensures MinuteEvents(replyable[..i + 1], m)
                == if m == minute then MinuteEvents(replyable[..i], m) + [e] else MinuteEvents(replyable[..i], m)
      {
        MinuteAppend(replyable[..i], e, m);
      }
      byMinute := byMinute[minute := (if minute in byMinute then byMinute[minute] else []) + [e]];
    }
    assert replyable[..|replyable|] == replyable;
  }

  lemma NoMinuteEvents()
    ensures forall m :: MinuteEvents([], m) == []
  {}

  lemma MinuteAppend(s: seq<Event>, e: Event, m: int)
    requires Replyable(e)
    ensures MinuteEvents(s + [e], m) == if m == e.offsetMs / MINUTE_MS then MinuteEvents(s, m) + [e]
            else MinuteEvents(s, m)
  {
    FilterConcat(DuringMinute(m), s, [e]);
    assert Filter(DuringMinute(m), [e]) == if m == e.offsetMs / MINUTE_MS then [e] else [];
    assert MinuteEvents(s, m) + [] == MinuteEvents(s, m);
  }

  lemma MinuteOfReplyable(events: seq<Event>, minute: int)
    ensures MinuteEvents(Filter(Replyable, events), minute) == MinuteEvents(events, minute)
  {
    FilterTwice(DuringMinute(minute), Replyable, events);
  }

  /** Selecting from a selection is selecting by the stronger condition. */
  lemma {:induction false} FilterTwice(p: Event -> bool, q: Event -> bool, s: seq<Event>)
    requires forall e :: p(e) ==> q(e)
    ensures Filter(p, Filter(q, s)) == Filter(p, s)
  {
    if s != [] {
      FilterTwice(p, q, s[1..]);
      if q(s[0]) { assert Filter(q, s)[1..] == Filter(q, s[1..]); }
    }
  }
}
