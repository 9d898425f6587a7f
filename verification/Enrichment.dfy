/** Insertion of marked synthetic scenarios next to real parents: `enrich_scenarios`. */
module Enrichment {
  import opened Wrappers
  import opened Rounding
  import opened Sorting
  import opened Events
  import Workload
  import opened SyntheticTypes

  datatype EnrichError = BadRatio | NoReplyable | NotRealOnly | MissingParent

  /** A positive or non-positive rational `num / den`. */
  datatype Ratio = Ratio(num: int, den: int)

  datatype Scenario = Scenario(name: string, intent: string, content: string)

  const DANMAKU_SCENARIOS: seq<Scenario> := [
    Scenario("direct_question", "question", "你觉得刚才这个选择最关键的理由是什么？"),
    Scenario("context_followup", "context_followup", "那刚才这个选择会影响后面的剧情吗？"),
    Scenario("correction_challenge", "correction", "等等，刚才的判断会不会漏掉了一个条件？"),
    Scenario("topic_switch", "topic_switch", "换个话题，你最近最想挑战什么新内容？"),
    Scenario("emotional_support", "emotion", "别着急，慢慢来，我们都在陪着你。"),
    Scenario("safety_privacy_boundary", "safety_boundary", "不用透露私人信息，说说你方便分享的部分就好。")]

  const GIFT_SCENARIO := Scenario("gift_acknowledgement", "gift_support", "送出星光花束，想为刚才的精彩表现加油！")
  const SUPER_CHAT_SCENARIO := Scenario("super_chat_priority", "priority_question", "这条醒目留言想问：接下来最优先准备什么？")
  const SYNTHETIC_PREFIX := "[合成补充]"

  function SyntheticTotal(realCount: nat, ratio: Ratio): int
    requires ratio.den > 0
  {
    CeilDiv(realCount * ratio.num, ratio.den)
  }

  function MonetaryTotal(realCount: nat, syntheticTotal: int): int {
    Workload.Min(syntheticTotal, Workload.Min(30, Workload.Max(6, RoundHalfEven(realCount, 100))))
  }

  function GiftTotal(monetaryTotal: int): int {
    CeilDiv(2 * monetaryTotal, 3)
  }

  /** The quotas the caller passes on always leave room: 1 <= monetary <= total. */
  lemma QuotasFit(realCount: nat, ratio: Ratio)
    requires realCount >= 1 && ratio.num > 0 && ratio.den > 0
    ensures var total := SyntheticTotal(realCount, ratio);
            var money := MonetaryTotal(realCount, total);
            1 <= money <= total && 0 <= GiftTotal(money) <= money <= 30
  {
    MulMonotone(1, realCount, ratio.num);
    var total := SyntheticTotal(realCount, ratio);
    if total <= 0 { MulMonotone(total, 0, ratio.den); }
  }

  /** The event types of the synthetic events, in creation order. */
  function TypesFor(realCount: nat, ratio: Ratio, seed: int): (types: seq<EventType>)
    requires realCount >= 1 && ratio.num > 0 && ratio.den > 0
    ensures |types| == SyntheticTotal(realCount, ratio) >= 1
  {
    QuotasFit(realCount, ratio);
    var total := SyntheticTotal(realCount, ratio);
    var money := MonetaryTotal(realCount, total);
    EventTypes(total, GiftTotal(money), money - GiftTotal(money), seed)
  }

  /** The real replyable event the `i`-th synthetic event (from 0) hangs on. */
  function ParentIndex(realCount: nat, total: nat, i: nat): (k: nat)
    requires realCount >= 1 && total >= 1
    ensures k < realCount
  {
    PositionInRange(realCount, total, i);
    Position(realCount, total, i)
  }

  function ScenarioFor(types: seq<EventType>, i: nat): Scenario
    requires i < |types|
  {
    match types[i]
    case Gift => GIFT_SCENARIO
    case SuperChat => SUPER_CHAT_SCENARIO
    case _ => DANMAKU_SCENARIOS[DanmakuBefore(types, i) % |DANMAKU_SCENARIOS|]
  }

  /** How many of the first `i` types fall to the danmaku branch. */
  function DanmakuBefore(types: seq<EventType>, i: nat): nat
    requires i <= |types|
  {
    if i == 0 then 0
    else DanmakuBefore(types, i - 1) + if types[i - 1].Gift? || types[i - 1].SuperChat? then 0 else 1
  }

  function ExtraPayload(t: EventType): map<string, string> {
    match t
    case Gift => map["gift_name" := "星光花束", "gift_num" := "1"]
    case SuperChat => map["price" := "30"]
    case _ => map[]
  }

  /** The `i`-th synthetic event as created, its parent still named by the input sequence. */
  function SyntheticEvent(eventCount: nat, chats: seq<Event>, types: seq<EventType>, i: nat): Event
    requires |chats| >= 1 && i < |types|
  {
    var parent := chats[ParentIndex(|chats|, |types|, i)];
    var scenario := ScenarioFor(types, i);
    Event(
      eventCount + i + 1,
      parent.offsetMs + 1,
      types[i],
      SyntheticActor(i + 1),
      SYNTHETIC_PREFIX + scenario.content,
      Payload(Some(Synthetic), None, Some(scenario.intent), Some(scenario.name), Some(parent.sequence), None,
              ExtraPayload(types[i])))
  }

  function SyntheticEvents(eventCount: nat, chats: seq<Event>, types: seq<EventType>): (r: seq<Event>)
    requires |chats| >= 1
    ensures |r| == |types|
    ensures forall i :: 0 <= i < |r| ==> r[i] == SyntheticEvent(eventCount, chats, types, i)
  {
    seq(|types|, i requires 0 <= i < |types| => SyntheticEvent(eventCount, chats, types, i))
  }

  /** Input and synthetic events in the order `(offset_ms, sequence)`. */
  function Combined(events: seq<Event>, ratio: Ratio, seed: int): seq<Event>
    requires Filter(Replyable, events) != [] && ratio.num > 0 && ratio.den > 0
  {
    var chats := Filter(Replyable, events);
    Sort(ByTime, events + SyntheticEvents(|events|, chats, TypesFor(|chats|, ratio, seed)))
  }

  /** The dictionary from input sequence to output index of the unmarked events: the last one wins. */
  function IndexOf(combined: seq<Event>, n: nat, sequence: int): (r: Option<nat>)
    requires n <= |combined|
    ensures r.Some? ==> r.value < n && combined[r.value].sequence == sequence && NotSynthetic(combined[r.value])
    ensures r.None? ==> forall i :: 0 <= i < n && NotSynthetic(combined[i]) ==> combined[i].sequence != sequence
  {
    if n == 0 then None
    else if NotSynthetic(combined[n - 1]) && combined[n - 1].sequence == sequence then Some(n - 1)
    else IndexOf(combined, n - 1, sequence)
  }

  predicate ParentKnown(combined: seq<Event>, e: Event) {
    MarkedSynthetic(e) ==>
        e.payload.parentSequence.Some?
        && IndexOf(combined, |combined|, e.payload.parentSequence.value).Some?
  }

  /** The output event at index `i`: renumbered, and pointing at its parent's output index when synthetic. */
  function Relinked(combined: seq<Event>, i: nat): Event
    requires i < |combined| && ParentKnown(combined, combined[i])
  {
    var e := combined[i];
    var payload := if MarkedSynthetic(e)
                   then e.payload.(parentSequence := Some(IndexOf(combined, |combined|,
                       e.payload.parentSequence.value).value))
                   else e.payload;
    e.(sequence := i, payload := payload)
  }

  predicate ParentsKnown(combined: seq<Event>) {
    forall i :: 0 <= i < |combined| ==> ParentKnown(combined, combined[i])
  }

  function RelinkAll(combined: seq<Event>): (r: seq<Event>)
    requires ParentsKnown(combined)
    ensures |r| == |combined|
    ensures forall i :: 0 <= i < |r| ==> r[i] == Relinked(combined, i)
  {
    seq(|combined|, i requires 0 <= i < |combined| => Relinked(combined, i))
  }

  /** What `enrich_scenarios` returns or raises. */
  function EnrichOutcome(events: seq<Event>, ratio: Ratio, seed: int): Result<seq<Event>, EnrichError>
    requires ratio.den > 0
  {
    var chats := Filter(Replyable, events);
    if ratio.num <= 0 then Err(BadRatio)
    else if chats == [] then Err(NoReplyable)
    else if exists e :: e in chats && LooksSynthetic(e) then Err(NotRealOnly)
    else
      var combined := Combined(events, ratio, seed);
      if ParentsKnown(combined) then Ok(RelinkAll(combined)) else Err(MissingParent)
  }

  // ----- What the outcome means

  /** An event up to its sequence number. */
  function Unnumbered(e: Event): Event {
    e.(sequence := 0)
  }

  lemma SyntheticEventsAreMarked(eventCount: nat, chats: seq<Event>, types: seq<EventType>)
    requires |chats| >= 1
    ensures forall e :: e in SyntheticEvents(eventCount, chats, types) ==> MarkedSynthetic(e)
  {}

  /** Main result: removing what is marked synthetic gives back the input, up to renumbering. */
  lemma Erasable(events: seq<Event>, ratio: Ratio, seed: int)
    requires ratio.den > 0 && forall e :: e in events ==> NotSynthetic(e)
    requires EnrichOutcome(events, ratio, seed).Ok?
    ensures var out := EnrichOutcome(events, ratio, seed).value;
            && Map(Unnumbered, Filter(NotSynthetic, out)) == Map(Unnumbered, Sort(ByTime, events))
            && (SortedBy(ByTime, events) ==> Map(Unnumbered, Filter(NotSynthetic, out)) == Map(Unnumbered, events))
  {
    var chats := Filter(Replyable, events);
    var synthetic := SyntheticEvents(|events|, chats, TypesFor(|chats|, ratio, seed));
    var combined := Combined(events, ratio, seed);
    SyntheticEventsAreMarked(|events|, chats, TypesFor(|chats|, ratio, seed));
    calc {
      Filter(NotSynthetic, combined);
      { ByTimeIsPreorder(); FilterSort(ByTime, NotSynthetic, events + synthetic); }
      Sort(ByTime, Filter(NotSynthetic, events + synthetic));
      {
        FilterConcat(NotSynthetic, events, synthetic);
        FilterAll(NotSynthetic, events);
        FilterNone(NotSynthetic, synthetic);
      }
      Sort(ByTime, events + []);
      { assert events + [] == events; }
      Sort(ByTime, events);
    }
    MapFilterPointwise(NotSynthetic, Unnumbered, RelinkAll(combined), combined);
    if SortedBy(ByTime, events) { SortOfSorted(ByTime, events); }
  }

  /** The output is numbered 0..n-1 and its offsets never decrease, for every input. */
  lemma EnrichedTimeline(events: seq<Event>, ratio: Ratio, seed: int)
    requires ratio.den > 0 && EnrichOutcome(events, ratio, seed).Ok?
    ensures var out := EnrichOutcome(events, ratio, seed).value;
            && SequencesAreIndexes(out) && OffsetsAscend(out)
            && ((forall e :: e in events ==> e.offsetMs >= 0) ==> Timeline(out))
  {
    var chats := Filter(Replyable, events);
    var all := events + SyntheticEvents(|events|, chats, TypesFor(|chats|, ratio, seed));
    var combined := Combined(events, ratio, seed);
    ByTimeIsPreorder();
    SortSorts(ByTime, all);
    SortKeepsElements(ByTime, all);
    var out := RelinkAll(combined);
    forall i, j | 0 <= i < j < |out| ensures out[i].offsetMs <= out[j].offsetMs {
      assert ByTime(combined[i], combined[j]);
    }
    if forall e :: e in events ==> e.offsetMs >= 0 {
      forall i | 0 <= i < |out| ensures out[i].offsetMs >= 0 { assert combined[i] in all; }
    }
  }

  predicate DistinctSequences(events: seq<Event>) {
    forall i, j :: 0 <= i < |events| && 0 <= j < |events| && events[i].sequence == events[j].sequence ==> i == j
  }

  /** The parent of every created event is in the combined stream, so the lookup finds it. */
  lemma ParentFound(events: seq<Event>, ratio: Ratio, seed: int, p: Event)
    requires ratio.den > 0 && ratio.num > 0 && Filter(Replyable, events) != []
    requires p in events && NotSynthetic(p)
    ensures IndexOf(Combined(events, ratio, seed), |Combined(events, ratio, seed)|, p.sequence).Some?
  {
    var chats := Filter(Replyable, events);
    var all := events + SyntheticEvents(|events|, chats, TypesFor(|chats|, ratio, seed));
    SortKeepsElements(ByTime, all);
    assert p in all;
    var i :| 0 <= i < |Combined(events, ratio, seed)| && Combined(events, ratio, seed)[i] == p;
  }

  /** A marked event of the combined stream is one of the created events. */
  lemma MarkedIsCreated(events: seq<Event>, ratio: Ratio, seed: int, p: nat) returns (i: nat)
    requires ratio.den > 0 && ratio.num > 0 && Filter(Replyable, events) != []
    requires forall e :: e in events ==> NotSynthetic(e)
    requires p < |Combined(events, ratio, seed)| && MarkedSynthetic(Combined(events, ratio, seed)[p])
    ensures var chats := Filter(Replyable, events);
            var types := TypesFor(|chats|, ratio, seed);
            && i < |types|
            && Combined(events, ratio, seed)[p] == SyntheticEvent(|events|, chats, types, i)
            && chats[ParentIndex(|chats|, |types|, i)] in events
  {
    var chats := Filter(Replyable, events);
    var types := TypesFor(|chats|, ratio, seed);
    var created := SyntheticEvents(|events|, chats, types);
    var e := Combined(events, ratio, seed)[p];
    SortKeepsElements(ByTime, events + created);
    assert e in events + created;
    assert e in created;
    i :| 0 <= i < |created| && created[i] == e;
    assert chats[ParentIndex(|chats|, |types|, i)] in chats;
  }

  /** On real-only input with a positive ratio and something replyable, enrichment always succeeds. */
  lemma EnrichSucceeds(events: seq<Event>, ratio: Ratio, seed: int)
    requires ratio.den > 0 && forall e :: e in events ==> NotSynthetic(e)
    ensures EnrichOutcome(events, ratio, seed).Ok? <==>
            ratio.num > 0 && Filter(Replyable, events) != [] && forall e :: e in Filter(Replyable, events) ==>
                !LooksSynthetic(e)
  {
    var chats := Filter(Replyable, events);
    if ratio.num > 0 && chats != [] {
      var combined := Combined(events, ratio, seed);
      forall p | 0 <= p < |combined| ensures ParentKnown(combined, combined[p]) {
        if MarkedSynthetic(combined[p]) {
          var i := MarkedIsCreated(events, ratio, seed, p);
          ParentFound(events, ratio, seed, chats[ParentIndex(|chats|, |TypesFor(|chats|, ratio, seed)|, i)]);
        }
      }
    }
  }

  /** The unmarked event an index lookup finds is the input event with that sequence. */
  lemma LookupIsUnique(events: seq<Event>, ratio: Ratio, seed: int, parent: Event)
    requires ratio.den > 0 && ratio.num > 0 && Filter(Replyable, events) != []
    requires DistinctSequences(events) && parent in events && NotSynthetic(parent)
    ensures var combined := Combined(events, ratio, seed);
            var found := IndexOf(combined, |combined|, parent.sequence);
            found.Some? && combined[found.value] == parent
  {
    ParentFound(events, ratio, seed, parent);
    var chats := Filter(Replyable, events);
    var types := TypesFor(|chats|, ratio, seed);
    var combined := Combined(events, ratio, seed);
    SortKeepsElements(ByTime, events + SyntheticEvents(|events|, chats, types));
    SyntheticEventsAreMarked(|events|, chats, types);
    var found := combined[IndexOf(combined, |combined|, parent.sequence).value];
    assert found in events + SyntheticEvents(|events|, chats, types);
    var a :| 0 <= a < |events| && events[a] == found;
    var b :| 0 <= b < |events| && events[b] == parent;
  }

  /** Main result: every synthetic event of the output points at the output index of its own real
      parent, which comes strictly before it and one millisecond earlier. */
  lemma ParentsAreRelinked(events: seq<Event>, ratio: Ratio, seed: int, p: nat)
    requires ratio.den > 0 && (forall e :: e in events ==> NotSynthetic(e)) && DistinctSequences(events)
    requires EnrichOutcome(events, ratio, seed).Ok?
    requires p < |EnrichOutcome(events, ratio, seed).value|
    requires MarkedSynthetic(EnrichOutcome(events, ratio, seed).value[p])
    ensures var out, chats := EnrichOutcome(events, ratio, seed).value, Filter(Replyable, events);
            var total := SyntheticTotal(|chats|, ratio);
            && out[p].actorId.SyntheticActor? && 1 <= out[p].actorId.number <= total
            && var parent := chats[ParentIndex(|chats|, total, out[p].actorId.number - 1)];
               && out[p].payload.parentSequence.Some?
               && 0 <= out[p].payload.parentSequence.value < p
               && out[out[p].payload.parentSequence.value] == Renumbered(parent, out[p].payload.parentSequence.value)
               && out[p].offsetMs == parent.offsetMs + 1
  {
    hide TypesFor, ScenarioFor, ParentIndex, SyntheticTotal, LooksSynthetic, Sort;
    var chats := Filter(Replyable, events);
    var types := TypesFor(|chats|, ratio, seed);
    var combined := Combined(events, ratio, seed);
    var i := MarkedIsCreated(events, ratio, seed, p);
    var parent := chats[ParentIndex(|chats|, |types|, i)];
    LookupIsUnique(events, ratio, seed, parent);
    var j := IndexOf(combined, |combined|, parent.sequence).value;
    ByTimeIsPreorder();
    SortSorts(ByTime, events + SyntheticEvents(|events|, chats, types));
    SortedEarlier(combined, j, p);
  }

  /** How many of each kind the output holds: every input event stays, and exactly the rounded-up share is added. */
  lemma EnrichedCounts(events: seq<Event>, ratio: Ratio, seed: int)
    requires ratio.den > 0 && forall e :: e in events ==> NotSynthetic(e)
    requires EnrichOutcome(events, ratio, seed).Ok?
    ensures var out := EnrichOutcome(events, ratio, seed).value;
            && |out| == |events| + SyntheticTotal(CountReplyable(events), ratio)
            && |Filter(RealReplyable, out)| == CountReplyable(events)
            && |Filter(SyntheticReplyable, out)| == SyntheticTotal(CountReplyable(events), ratio)
  {
    var chats := Filter(Replyable, events);
    var types := TypesFor(|chats|, ratio, seed);
    var created := SyntheticEvents(|events|, chats, types);
    var combined := Combined(events, ratio, seed);
    TypesAreReplyable(|chats|, ratio, seed);
    MixedCounts(events, created);
    FilterCountPointwise(SyntheticReplyable, RelinkAll(combined), combined);
    FilterCountPointwise(RealReplyable, RelinkAll(combined), combined);
  }

  lemma MixedCounts(events: seq<Event>, created: seq<Event>)
    requires forall e :: e in events ==> NotSynthetic(e)
    requires forall e :: e in created ==> SyntheticReplyable(e)
    ensures var combined := Sort(ByTime, events + created);
            && |combined| == |events| + |created|
            && |Filter(RealReplyable, combined)| == CountReplyable(events)
            && |Filter(SyntheticReplyable, combined)| == |created|
  {
    var combined := Sort(ByTime, events + created);
    SortPermutes(ByTime, events + created);
    FilterCountPermutation(RealReplyable, combined, events + created);
    FilterCountPermutation(SyntheticReplyable, combined, events + created);
    FilterConcat(RealReplyable, events, created);
    FilterConcat(SyntheticReplyable, events, created);
    FilterAll(SyntheticReplyable, created);
    FilterNone(RealReplyable, created);
    FilterNone(SyntheticReplyable, events);
    FilterAlike(RealReplyable, Replyable, events);
  }

  lemma TypesAreReplyable(realCount: nat, ratio: Ratio, seed: int)
    requires realCount >= 1 && ratio.num > 0 && ratio.den > 0
    ensures forall t :: t in TypesFor(realCount, ratio, seed) ==> ReplyableType(t)
  {
    QuotasFit(realCount, ratio);
    var total := SyntheticTotal(realCount, ratio);
    var money := MonetaryTotal(realCount, total);
    var types := TypesFor(realCount, ratio, seed);
    forall t | t in types ensures ReplyableType(t) {
      EventTypeCounts(total, GiftTotal(money), money - GiftTotal(money), seed, t);
      var i :| 0 <= i < |types| && types[i] == t;
      CountPositive(types, |types|, i);
    }
  }

  lemma {:induction false} CountPositive(types: seq<EventType>, n: nat, i: nat)
    requires i < n <= |types|
    ensures CountUpTo(types, n, types[i]) >= 1
  {
    if i < n - 1 { CountPositive(types, n - 1, i); }
  }

  // ----- What enrichment promises

  /** The whole numbers behind the synthetic share: the share of the messages rounded up; of that, one message in a
      hundred to the nearest, but six to thirty of them and no more than there are, carry money; two in three of
      those, rounded up, are gifts. */
  ghost predicate RightQuotas(count: nat, ratio: Ratio, total: int, money: int, gifts: int) {
    && (total - 1) * ratio.den < count * ratio.num <= total * ratio.den
    && (exists hundredth: int ::
          Nearest(count, 100, hundredth)
          && money == Workload.Min(total, if hundredth < 6 then 6 else if hundredth > 30 then 30 else hundredth))
    && 3 * (gifts - 1) < 2 * money <= 3 * gifts
  }

  function DanmakuAmong(types: seq<EventType>): nat {
    |Filter((t: EventType) => t == Danmaku, types)|
  }

  /** The scenarios in turn for danmaku, their own for gifts and super chats. */
  predicate RightScenario(types: seq<EventType>, i: nat, scenario: Scenario)
    requires i < |types|
  {
    scenario == match types[i]
                case Gift => Scenario("gift_acknowledgement", "gift_support", "送出星光花束，想为刚才的精彩表现加油！")
                case SuperChat =>
                  Scenario("super_chat_priority", "priority_question", "这条醒目留言想问：接下来最优先准备什么？")
                case _ => DANMAKU_SCENARIOS[DanmakuAmong(types[..i]) % 6]
  }

  predicate RightExtras(t: EventType, rest: map<string, string>) {
    rest == match t
            case Gift => map["gift_name" := "星光花束", "gift_num" := "1"]
            case SuperChat => map["price" := "30"]
            case _ => map[]
  }

  /** The `i`-th synthetic event hangs on the message at the middle of its stretch: a millisecond after it, marked in
      text, actor and payload, with its scenario. */
  ghost predicate RightSynthetic(eventCount: nat, chats: seq<Event>, types: seq<EventType>, i: nat, e: Event) {
    && i < |types|
    && exists p: nat, scenario ::
         && p < |chats| && Middle(|chats|, |types|, i, p) && RightScenario(types, i, scenario)
         && e.sequence == eventCount + i + 1 && e.offsetMs == chats[p].offsetMs + 1 && e.eventType == types[i]
         && e.actorId == SyntheticActor(i + 1) && e.text == "[合成补充]" + scenario.content
         && e.payload == Payload(Some(Synthetic), None, Some(scenario.intent), Some(scenario.name),
                                 Some(chats[p].sequence), None, e.payload.rest)
         && RightExtras(types[i], e.payload.rest)
  }

  ghost predicate RightCreated(eventCount: nat, chats: seq<Event>, ratio: Ratio, seed: int, created: seq<Event>) {
    exists types: seq<EventType>, money: int, gifts: int ::
      && 0 <= gifts <= money && RightQuotas(|chats|, ratio, |types|, money, gifts)
      && RightTypes(types, gifts, money - gifts, seed)
      && |created| == |types|
      && forall i: nat :: i < |created| ==> RightSynthetic(eventCount, chats, types, i, created[i])
  }

  /** The last unmarked event of the list with this sequence. */
  predicate LastWith(combined: seq<Event>, sequence: int, k: nat) {
    && k < |combined| && combined[k].payload.origin != Some(Synthetic) && combined[k].sequence == sequence
    && forall j :: k < j < |combined| && combined[j].payload.origin != Some(Synthetic) ==>
         combined[j].sequence != sequence
  }

  /** Numbered in place; a synthetic event points at the place of the event it named. */
  ghost predicate RightlyLinked(combined: seq<Event>, out: seq<Event>) {
    && |out| == |combined|
    && forall k :: 0 <= k < |out| ==>
         if combined[k].payload.origin == Some(Synthetic) then
           && combined[k].payload.parentSequence.Some? && out[k].payload.parentSequence.Some?
           && out[k] == combined[k].(sequence := k, payload := combined[k].payload.(
                                      parentSequence := out[k].payload.parentSequence))
           && out[k].payload.parentSequence.value >= 0
           && LastWith(combined, combined[k].payload.parentSequence.value, out[k].payload.parentSequence.value)
         else out[k] == combined[k].(sequence := k)
  }

  /** What `enrich_scenarios` promises on real input: a refusal of a bad ratio, of a stream without messages and of one
      whose messages look synthetic, and otherwise the input and the synthetic events in time order, linked. */
  ghost predicate RightEnrichment(events: seq<Event>, ratio: Ratio, seed: int, r: Result<seq<Event>, EnrichError>) {
    var chats := Filter((e: Event) => ReplyableType(e.eventType), events);
    if ratio.num <= 0 then r == Err(BadRatio)
    else if chats == [] then r == Err(NoReplyable)
    else if exists e :: e in chats && LooksSynthetic(e) then r == Err(NotRealOnly)
    else
      && r.Ok?
      && exists created, combined ::
           && RightCreated(|events|, chats, ratio, seed, created)
           && multiset(combined) == multiset(events + created) && SortedBy(ByTime, combined)
           && RightlyLinked(combined, r.value)
  }

  lemma QuotasAreRight(count: nat, ratio: Ratio)
    requires count >= 1 && ratio.num > 0 && ratio.den > 0
    ensures var total := SyntheticTotal(count, ratio);
            var money := MonetaryTotal(count, total);
            RightQuotas(count, ratio, total, money, GiftTotal(money))
  {
    hide RoundHalfEven, CeilDiv;
    assert Nearest(count, 100, RoundHalfEven(count, 100));
  }

  lemma {:induction false} DanmakuCounted(types: seq<EventType>, i: nat)
    requires i <= |types| && forall t :: t in types ==> ReplyableType(t)
    ensures DanmakuBefore(types, i) == DanmakuAmong(types[..i])
  {
    if i > 0 {
      DanmakuCounted(types, i - 1);
      assert types[i - 1] in types;
      assert types[..i] == types[..i - 1] + [types[i - 1]];
      FilterAppend((t: EventType) => t == Danmaku, types[..i - 1], types[i - 1]);
    }
  }

  lemma SyntheticIsRight(eventCount: nat, chats: seq<Event>, types: seq<EventType>, i: nat)
    requires |chats| >= 1 && i < |types| && forall t :: t in types ==> ReplyableType(t)
    ensures RightSynthetic(eventCount, chats, types, i, SyntheticEvent(eventCount, chats, types, i))
  {
    hide Position, Middle;
    DanmakuCounted(types, i);
    ParentIsMiddle(|chats|, |types|, i);
    assert RightScenario(types, i, ScenarioFor(types, i));
  }

  lemma ParentIsMiddle(count: nat, total: nat, i: nat)
    requires count >= 1 && i < total
    ensures Middle(count, total, i, ParentIndex(count, total, i))
  {
    PositionUnclamped(count, total, i);
    var a, den := (2 * i + 1) * count, 2 * total;
    assert a == a / den * den + a % den;
  }

  lemma CreatedAreRight(eventCount: nat, chats: seq<Event>, ratio: Ratio, seed: int)
    requires |chats| >= 1 && ratio.num > 0 && ratio.den > 0
    ensures RightCreated(eventCount, chats, ratio, seed,
                         SyntheticEvents(eventCount, chats, TypesFor(|chats|, ratio, seed)))
  {
    hide RightTypes, RightSynthetic, RightQuotas, SyntheticEvent, GiftTotal, MonetaryTotal, SyntheticTotal;
    var types := TypesFor(|chats|, ratio, seed);
    var total := SyntheticTotal(|chats|, ratio);
    var money := MonetaryTotal(|chats|, total);
    QuotasFit(|chats|, ratio);
    QuotasAreRight(|chats|, ratio);
    SyntheticTypes.TypesAreRight(total, GiftTotal(money), money - GiftTotal(money), seed);
    TypesAreReplyable(|chats|, ratio, seed);
    forall i: nat | i < |types|
      ensures RightSynthetic(eventCount, chats, types, i, SyntheticEvents(eventCount, chats, types)[i])
    {
      SyntheticIsRight(eventCount, chats, types, i);
    }
  }

  lemma {:induction false} IndexIsLast(combined: seq<Event>, n: nat, sequence: int)
    requires n <= |combined| && IndexOf(combined, n, sequence).Some?
    ensures var k := IndexOf(combined, n, sequence).value;
            && k < n && NotSynthetic(combined[k]) && combined[k].sequence == sequence
            && forall j :: k < j < n && NotSynthetic(combined[j]) ==> combined[j].sequence != sequence
  {
    if !(NotSynthetic(combined[n - 1]) && combined[n - 1].sequence == sequence) {
      IndexIsLast(combined, n - 1, sequence);
    }
  }

  lemma LinkedRightly(combined: seq<Event>)
    requires ParentsKnown(combined)
    ensures RightlyLinked(combined, RelinkAll(combined))
  {
    var out := RelinkAll(combined);
    forall k | 0 <= k < |out| && combined[k].payload.origin == Some(Synthetic)
      ensures combined[k].payload.parentSequence.Some? && out[k].payload.parentSequence.Some?
      ensures out[k].payload.parentSequence.value >= 0
      ensures LastWith(combined, combined[k].payload.parentSequence.value, out[k].payload.parentSequence.value)
      ensures out[k] == combined[k].(sequence := k, payload := combined[k].payload.(
                                      parentSequence := out[k].payload.parentSequence))
    {
      assert ParentKnown(combined, combined[k]);
      IndexIsLast(combined, |combined|, combined[k].payload.parentSequence.value);
    }
  }

  /** Main result. */
  lemma EnrichmentIsRight(events: seq<Event>, ratio: Ratio, seed: int)
    requires ratio.den > 0 && forall e :: e in events ==> NotSynthetic(e)
    ensures RightEnrichment(events, ratio, seed, EnrichOutcome(events, ratio, seed))
  {
    FilterAlike(Replyable, (e: Event) => ReplyableType(e.eventType), events);
    EnrichSucceeds(events, ratio, seed);
    hide RightCreated, RightlyLinked, ParentsKnown, TypesFor, LooksSynthetic;
    var chats := Filter(Replyable, events);
    if EnrichOutcome(events, ratio, seed).Ok? {
      var created, combined := SyntheticEvents(|events|, chats, TypesFor(|chats|, ratio, seed)),
          Combined(events, ratio, seed);
      CreatedAreRight(|events|, chats, ratio, seed);
      SortPermutes(ByTime, events + created);
      ByTimeIsPreorder();
      SortSorts(ByTime, events + created);
      LinkedRightly(combined);
    }
  }

  // ----- The loops

  method EnrichScenarios(events: seq<Event>, ratio: Ratio, seed: int) returns (r: Result<seq<Event>, EnrichError>)
    requires ratio.den > 0
    ensures r == EnrichOutcome(events, ratio, seed)
    ensures (forall e :: e in events ==> NotSynthetic(e)) ==> RightEnrichment(events, ratio, seed, r)
  {
    hide RightEnrichment, LooksSynthetic, ParentsKnown, Combined;
    if forall e :: e in events ==> NotSynthetic(e) { EnrichmentIsRight(events, ratio, seed); }
    if ratio.num <= 0 { return Err(BadRatio); }
    var chats := Filter(Replyable, events);
    if chats == [] { return Err(NoReplyable); }
    if exists e :: e in chats && LooksSynthetic(e) { return Err(NotRealOnly); }
    r := InsertScenarios(events, chats, ratio, seed);
  }

  /** The part behind the checks. */
  method InsertScenarios(events: seq<Event>, chats: seq<Event>, ratio: Ratio, seed: int)
    returns (r: Result<seq<Event>, EnrichError>)
    requires ratio.den > 0 && ratio.num > 0 && chats == Filter(Replyable, events) && chats != []
    ensures var combined := Combined(events, ratio, seed);
            r == if ParentsKnown(combined) then Ok(RelinkAll(combined)) else Err(MissingParent)
  {
    hide RightTypes, ParentsKnown, EventTypes, CeilDiv, RoundHalfEven;
    var total := SyntheticTotal(|chats|, ratio);
    var money := MonetaryTotal(|chats|, total);
    QuotasFit(|chats|, ratio);
    var types := SyntheticEventTypes(total, GiftTotal(money), money - GiftTotal(money), seed);
    var synthetic := CreateSynthetic(|events|, chats, types);
    var combined := Sort(ByTime, events + synthetic);
    r := Relink(combined);
  }

  /** The creation loop with its running danmaku index. */
  method CreateSynthetic(eventCount: nat, chats: seq<Event>, types: seq<EventType>) returns (synthetic: seq<Event>)
    requires |chats| >= 1
    ensures synthetic == SyntheticEvents(eventCount, chats, types)
  {
    synthetic := [];
    var danmakuIndex := 0;
    for i := 0 to |types|
      invariant danmakuIndex == DanmakuBefore(types, i)
      invariant synthetic == SyntheticEvents(eventCount, chats, types)[..i]
    {
      var parent := chats[ParentIndex(|chats|, |types|, i)];
      var scenario := GIFT_SCENARIO;
      if types[i].SuperChat? {
        scenario := SUPER_CHAT_SCENARIO;
      } else if !types[i].Gift? {
        scenario := DANMAKU_SCENARIOS[danmakuIndex % |DANMAKU_SCENARIOS|];
        danmakuIndex := danmakuIndex + 1;
      }
      var created := Event(
        eventCount + i + 1, parent.offsetMs + 1, types[i], SyntheticActor(i + 1), SYNTHETIC_PREFIX + scenario.content,
        Payload(Some(Synthetic), None, Some(scenario.intent), Some(scenario.name), Some(parent.sequence), None,
                ExtraPayload(types[i])));
      assert created == SyntheticEvent(eventCount, chats, types, i);
      synthetic := synthetic + [created];
    }
  }

  /** The sequence dictionary and the renumbering loop. */
  method Relink(combined: seq<Event>) returns (r: Result<seq<Event>, EnrichError>)
    ensures r == if ParentsKnown(combined) then Ok(RelinkAll(combined)) else Err(MissingParent)
  {
    var indexes: map<int, nat> := map[];
    for i := 0 to |combined|
      invariant forall s :: s in indexes <==> IndexOf(combined, i, s).Some?
      invariant forall s :: s in indexes ==> indexes[s] == IndexOf(combined, i, s).value
    {
      if !MarkedSynthetic(combined[i]) { indexes := indexes[combined[i].sequence := i]; }
    }
    var result: seq<Event> := [];
    for i := 0 to |combined|
      invariant |result| == i
      invariant forall k :: 0 <= k < i ==> ParentKnown(combined, combined[k]) && result[k] == Relinked(combined, k)
    {
      var e := combined[i];
      var payload := e.payload;
      if MarkedSynthetic(e) {
        if payload.parentSequence.None? || payload.parentSequence.value !in indexes { return Err(MissingParent); }
        payload := payload.(parentSequence := Some(indexes[payload.parentSequence.value]));
      }
      result := result + [e.(sequence := i, payload := payload)];
    }
    assert ParentsKnown(combined);
    assert result == RelinkAll(combined);
    r := Ok(result);
  }
}
