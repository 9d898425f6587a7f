/** Contextual cleaning of a real stream: `BalancedCleaner.clean` and `DecisionCache`. */
module Cleaning {
  import opened Wrappers
  import opened Sorting
  import opened Distinct
  import opened Events
  import opened Semantic
  import opened Enrichment

  /** The text functions, left uninterpreted; `dropReason` reads the stripped text. */
  datatype CleanRules = CleanRules(
    strip: string -> string,
    normalize: string -> string,
    dropReason: string -> Option<string>,
    inferIntent: string -> Option<string>,
    hash: string -> string,
    language: Language,
    duplicateWindowMs: int,
    contextWindowMs: int,
    batchSize: int)

  datatype CleanError = BadBatchSize | ProcessorError | EmptyRetainedText

  datatype DropRecord = DropRecord(sourceSequence: int, textHash: string, reason: string)

  /** A retained event with its final text and intent. */
  datatype Item = Item(event: Event, text: string, intent: string)

  datatype CleaningResult = CleaningResult(events: seq<Event>, drops: seq<DropRecord>, translated: nat)

  /** What the deterministic pass decides about one event: keep it, drop it, or ask the model. */
  datatype Verdict = Keep(text: string, intent: string) | Discard(reason: string) | Ask

  const MIN_COPYPASTA_LENGTH := 24
  const MIN_COPYPASTA_REPEATS := 3

  /** What the repeats are counted by: the normalized text as it arrived. */
  function CountKey(e: Event, rules: CleanRules): string {
    rules.normalize(e.text)
  }

  /** What duplicates are recognized by: the normalized stripped text. */
  function Key(e: Event, rules: CleanRules): string {
    rules.normalize(rules.strip(e.text))
  }

  function Repeats(events: seq<Event>, rules: CleanRules, n: nat, key: string): nat
    requires n <= |events|
  {
    if n == 0 then 0
    else Repeats(events, rules, n - 1, key) + if Replyable(events[n - 1]) && CountKey(events[n - 1], rules) == key
        then 1 else 0
  }

  predicate Copypasta(events: seq<Event>, rules: CleanRules, key: string) {
    |key| >= MIN_COPYPASTA_LENGTH && Repeats(events, rules, |events|, key) >= MIN_COPYPASTA_REPEATS
  }

  predicate CleanChat(e: Event, rules: CleanRules) {
    Replyable(e) && rules.dropReason(rules.strip(e.text)).None?
  }

  predicate SeenClean(events: seq<Event>, rules: CleanRules, n: nat, key: string)
    requires n <= |events|
  {
    n > 0
        && ((CleanChat(events[n - 1], rules) && Key(events[n - 1], rules) == key)
        || SeenClean(events, rules, n - 1, key))
  }

  /** The reason the deterministic rules give for event `i`, if any. */
  function DropReason(events: seq<Event>, rules: CleanRules, i: nat): Option<string>
    requires i < |events|
    decreases i, 1
  {
    var e := events[i];
    var key := Key(e, rules);
    var base := rules.dropReason(rules.strip(e.text));
    if base.Some? then base
    else if Copypasta(events, rules, key) && SeenClean(events, rules, i, key) then Some("copypasta")
    else
      var last := LastKept(events, rules, i, e.actorId, key);
      if last.Some? && e.offsetMs - events[last.value].offsetMs <= rules.duplicateWindowMs
          then Some("same_actor_duplicate") else None
  }

  /** The latest replyable event before `n` that was not dropped, of this actor with this normalized text. */
  function LastKept(events: seq<Event>, rules: CleanRules, n: nat, actor: ActorId, key: string): (r: Option<nat>)
    requires n <= |events|
    ensures r.Some? ==> r.value < n
    decreases n, 0
  {
    if n == 0 then None
    else if Replyable(events[n - 1]) && events[n - 1].actorId == actor && Key(events[n - 1], rules) == key
            && DropReason(events, rules, n - 1).None? then Some(n - 1)
    else LastKept(events, rules, n - 1, actor, key)
  }

  function VerdictOn(events: seq<Event>, rules: CleanRules, i: nat): Verdict
    requires i < |events|
  {
    var e := events[i];
    if !Replyable(e) then Keep(e.text, "non_replyable")
    else
      var reason := DropReason(events, rules, i);
      var text := rules.strip(e.text);
      if reason.Some? then Discard(reason.value)
      else if rules.language.isChinese(text) && rules.inferIntent(text).Some?
          then Keep(text, rules.inferIntent(text).value)
      else Ask
  }

  /** The verdict once the model has decided the sequences in `done`. */
  function Settled(events: seq<Event>, rules: CleanRules, decisions: map<int, Decision>, done: set<int>,
                   i: nat): Verdict
    requires i < |events|
  {
    var v, s := VerdictOn(events, rules, i), events[i].sequence;
    if v.Ask? && s in done && s in decisions then
      var d := decisions[s];
      if d.keep then Keep(rules.language.localize(rules.strip(d.textZh)), d.intent) else Discard(d.reason)
    else v
  }

  function Items(events: seq<Event>, rules: CleanRules, decisions: map<int, Decision>, done: set<int>,
                 n: nat): seq<Item>
    requires n <= |events|
  {
    if n == 0 then []
    else
      var front, v := Items(events, rules, decisions, done, n - 1), Settled(events, rules, decisions, done, n - 1);
      if v.Keep? then front + [Item(events[n - 1], v.text, v.intent)] else front
  }

  function RecordOf(e: Event, rules: CleanRules, reason: string): DropRecord {
    DropRecord(e.sequence, rules.hash(e.text), reason)
  }

  function Drops(events: seq<Event>, rules: CleanRules, decisions: map<int, Decision>, done: set<int>,
                 n: nat): seq<DropRecord>
    requires n <= |events|
  {
    if n == 0 then []
    else
      var front, v := Drops(events, rules, decisions, done, n - 1), Settled(events, rules, decisions, done, n - 1);
      if v.Discard? then front + [RecordOf(events[n - 1], rules, v.reason)] else front
  }

  /** Asked, decided, kept, and with a text other than the stripped source. */
  predicate Translated(events: seq<Event>, rules: CleanRules, decisions: map<int, Decision>, done: set<int>, i: nat)
    requires i < |events|
  {
    var v := Settled(events, rules, decisions, done, i);
    VerdictOn(events, rules, i).Ask? && v.Keep? && v.text != rules.strip(events[i].text)
  }

  function TranslatedCount(events: seq<Event>, rules: CleanRules, decisions: map<int, Decision>, done: set<int>,
                           n: nat): nat
    requires n <= |events|
  {
    if n == 0 then 0
    else
      TranslatedCount(events, rules, decisions, done, n - 1)
      + if Translated(events, rules, decisions, done, n - 1) then 1 else 0
  }

  function Asked(events: seq<Event>, rules: CleanRules, n: nat): (r: set<int>)
    requires n <= |events|
    ensures forall s :: s in r <==>
              exists i :: 0 <= i < n && events[i].sequence == s && VerdictOn(events, rules, i).Ask?
  {
    set i | 0 <= i < n && VerdictOn(events, rules, i).Ask? :: events[i].sequence
  }

  predicate ItemOrder(a: Item, b: Item) {
    ByTime(a.event, b.event)
  }

  predicate DropOrder(a: DropRecord, b: DropRecord) {
    a.sourceSequence <= b.sourceSequence
  }

  /** `_as_real_event`. */
  function AsReal(item: Item, sequence: int): Event {
    item.event.(
      sequence := sequence,
      text := item.text,
      payload := item.event.payload.(origin := Some(Real), sourceSequence := Some(item.event.sequence),
                                     intent := Some(item.intent)))
  }

  function AsRealAll(items: seq<Item>): (r: seq<Event>)
    ensures |r| == |items| && forall i :: 0 <= i < |r| ==> r[i] == AsReal(items[i], i)
  {
    seq(|items|, i requires 0 <= i < |items| => AsReal(items[i], i))
  }

  /** The cleaned stream for a given set of model decisions. */
  function Cleaned(events: seq<Event>, rules: CleanRules, decisions: map<int, Decision>): CleaningResult {
    var done := decisions.Keys;
    CleaningResult(
      AsRealAll(Sort(ItemOrder, Items(events, rules, decisions, done, |events|))),
      Sort(DropOrder, Drops(events, rules, decisions, done, |events|)),
      TranslatedCount(events, rules, decisions, done, |events|))
  }

  /** Every retained text is non-empty after localization. */
  predicate TextsRetained(events: seq<Event>, rules: CleanRules, decisions: map<int, Decision>) {
    forall i :: 0 <= i < |events| && VerdictOn(events, rules, i).Ask? ==>
      var v := Settled(events, rules, decisions, decisions.Keys, i);
      v.Keep? ==> v.text != ""
  }

  // ----- What cleaning keeps

  function ItemSequence(x: Item): int { x.event.sequence }

  function DropSequence(x: DropRecord): int { x.sourceSequence }

  function EventSequence(e: Event): int { e.sequence }

  predicate ItemReplyable(x: Item) { Replyable(x.event) }

  ghost predicate Accounted(items: seq<Item>, drops: seq<DropRecord>, events: seq<Event>) {
    && multiset(Map(ItemSequence, items)) + multiset(Map(DropSequence, drops)) == multiset(Map(EventSequence, events))
    && |items| + |drops| == |events|
  }

  lemma AccountedStep(items: seq<Item>, drops: seq<DropRecord>, events: seq<Event>, e: Event, item: Item,
                      drop: DropRecord)
    requires Accounted(items, drops, events) && item.event == e && drop.sourceSequence == e.sequence
    ensures Accounted(items + [item], drops, events + [e])
    ensures Accounted(items, drops + [drop], events + [e])
  {
    MapAppend(EventSequence, events, e);
    MapAppend(ItemSequence, items, item);
    MapAppend(DropSequence, drops, drop);
  }

  lemma {:induction false} EveryEventSettles(events: seq<Event>, rules: CleanRules, decisions: map<int, Decision>,
                                             n: nat)
    requires n <= |events| && Asked(events, rules, |events|) <= decisions.Keys
    ensures Accounted(Items(events, rules, decisions, decisions.Keys, n),
                      Drops(events, rules, decisions, decisions.Keys, n), events[..n])
  {
    hide Settled, Asked, Accounted;
    if n == 0 {
      NothingToAccount();
    } else {
      EveryEventSettles(events, rules, decisions, n - 1);
      var e := events[n - 1];
      var v := Settled(events, rules, decisions, decisions.Keys, n - 1);
      assert events[..n] == events[..n - 1] + [e];
      AskedIsDecided(events, rules, decisions, n - 1);
      AccountedStep(Items(events, rules, decisions, decisions.Keys, n - 1),
                    Drops(events, rules, decisions, decisions.Keys, n - 1),
                    events[..n - 1], e, if v.Keep? then Item(e, v.text, v.intent) else Item(e, "", ""),
                    RecordOf(e, rules, if v.Discard? then v.reason else ""));
    }
  }

  lemma NothingToAccount()
    ensures Accounted([], [], [])
  {}

  lemma AskedIsDecided(events: seq<Event>, rules: CleanRules, decisions: map<int, Decision>, i: nat)
    requires i < |events| && Asked(events, rules, |events|) <= decisions.Keys
    ensures !Settled(events, rules, decisions, decisions.Keys, i).Ask?
  {
    if VerdictOn(events, rules, i).Ask? { assert events[i].sequence in Asked(events, rules, |events|); }
  }

  function SourceSequence(e: Event): int {
    if e.payload.sourceSequence.Some? then e.payload.sourceSequence.value else 0
  }

  /** Main result: every source event ends up exactly once, either in the kept stream or in the drop list. */
  lemma Conservation(events: seq<Event>, rules: CleanRules, decisions: map<int, Decision>)
    requires Asked(events, rules, |events|) <= decisions.Keys
    ensures var r := Cleaned(events, rules, decisions);
            multiset(Map(SourceSequence, r.events)) + multiset(Map(DropSequence, r.drops))
            == multiset(Map(EventSequence, events))
  {
    hide Items, Drops, Asked, VerdictOn, Settled;
    var items, drops := Items(events, rules, decisions, decisions.Keys, |events|),
        Drops(events, rules, decisions, decisions.Keys, |events|);
    EveryEventSettles(events, rules, decisions, |events|);
    assert events[..|events|] == events;
    SortPermutes(ItemOrder, items);
    SortPermutes(DropOrder, drops);
    MapMultiset(ItemSequence, Sort(ItemOrder, items), items);
    MapMultiset(DropSequence, Sort(DropOrder, drops), drops);
    assert Map(SourceSequence, Cleaned(events, rules, decisions).events) == Map(ItemSequence, Sort(ItemOrder, items));
  }

  predicate KeptSource(events: seq<Event>, n: nat, x: Item)
    requires n <= |events|
  {
    x.event in events[..n]
  }

  lemma {:induction false} ItemsFromEvents(events: seq<Event>, rules: CleanRules, decisions: map<int, Decision>,
                                           done: set<int>, n: nat)
    requires n <= |events|
    ensures forall x :: x in Items(events, rules, decisions, done, n) ==> KeptSource(events, n, x)
  {
    hide Settled;
    if n > 0 {
      ItemsFromEvents(events, rules, decisions, done, n - 1);
      assert events[..n] == events[..n - 1] + [events[n - 1]];
    }
  }

  lemma ItemOrderIsPreorder()
    ensures TotalPreorder(ItemOrder)
  {
    ByTimeIsPreorder();
  }

  /** Main result: the kept stream is numbered 0..n-1 in (offset, source sequence) order, so no source
      sequence repeats, and every kept event is marked real and points at its source. */
  lemma CleanedOrder(events: seq<Event>, rules: CleanRules, decisions: map<int, Decision>)
    requires DistinctSequences(events) && Asked(events, rules, |events|) <= decisions.Keys
    ensures var out := Cleaned(events, rules, decisions).events;
            && SequencesAreIndexes(out) && OffsetsAscend(out)
            && (forall i, j :: 0 <= i < j < |out| ==>
                  out[i].offsetMs < out[j].offsetMs
                      || (out[i].offsetMs == out[j].offsetMs && SourceSequence(out[i]) < SourceSequence(out[j])))
            && (forall i, j :: 0 <= i < j < |out| ==> SourceSequence(out[i]) != SourceSequence(out[j]))
            && (forall e :: e in out ==> e.payload.origin == Some(Real))
            && ((forall e :: e in events ==> e.offsetMs >= 0) ==> Timeline(out))
  {
    hide Items, Asked, VerdictOn, Settled, TranslatedCount, Drops;
    var items := Items(events, rules, decisions, decisions.Keys, |events|);
    var sorted := Sort(ItemOrder, items);
    ItemOrderIsPreorder();
    SortSorts(ItemOrder, items);
    SortPermutes(ItemOrder, items);
    SortKeepsElements(ItemOrder, items);
    ItemsFromEvents(events, rules, decisions, decisions.Keys, |events|);
    ItemSequencesDistinct(events, rules, decisions, |events|);
    MapMultiset(ItemSequence, sorted, items);
    PermutedNoRepeats(Map(ItemSequence, items), Map(ItemSequence, sorted));
    var out := Cleaned(events, rules, decisions).events;
    forall i, j | 0 <= i < j < |out|
      ensures out[i].offsetMs <= out[j].offsetMs && SourceSequence(out[i]) != SourceSequence(out[j])
      ensures out[i].offsetMs < out[j].offsetMs || SourceSequence(out[i]) < SourceSequence(out[j])
    {
      assert ItemOrder(sorted[i], sorted[j]);
      assert Map(ItemSequence, sorted)[i] != Map(ItemSequence, sorted)[j];
    }
    if forall e :: e in events ==> e.offsetMs >= 0 {
      forall i | 0 <= i < |out| ensures out[i].offsetMs >= 0 {
        assert sorted[i] in items;
        assert KeptSource(events, |events|, sorted[i]);
      }
    }
  }

  lemma {:induction false} ItemSequencesDistinct(events: seq<Event>, rules: CleanRules, decisions: map<int, Decision>,
          n: nat)
    requires DistinctSequences(events) && n <= |events|
    ensures NoRepeats(Map(ItemSequence, Items(events, rules, decisions, decisions.Keys, n)))
  {
    hide Settled;
    if n > 0 {
      ItemSequencesDistinct(events, rules, decisions, n - 1);
      ItemsFromEvents(events, rules, decisions, decisions.Keys, n - 1);
      var items := Items(events, rules, decisions, decisions.Keys, n - 1);
      forall i | 0 <= i < |items| ensures items[i].event.sequence != events[n - 1].sequence {
        assert KeptSource(events, n - 1, items[i]);
        var k :| 0 <= k < n - 1 && events[..n - 1][k] == items[i].event;
      }
    }
  }

  /** A replyable event settles as an item, possibly translated, or as a drop; any other event as an item. */
  lemma SettlesOnce(events: seq<Event>, rules: CleanRules, decisions: map<int, Decision>, i: nat)
    requires i < |events| && Asked(events, rules, |events|) <= decisions.Keys
    ensures var v := Settled(events, rules, decisions, decisions.Keys, i);
            && !v.Ask?
            && (!Replyable(events[i]) ==> v.Keep?)
            && (Translated(events, rules, decisions, decisions.Keys, i) ==> v.Keep? && Replyable(events[i]))
  {
    hide DropReason, Asked;
    AskedIsDecided(events, rules, decisions, i);
  }

  /** How the replyable events split, and that no more are translated than retained. */
  lemma {:induction false} ReplyableConserved(events: seq<Event>, rules: CleanRules, decisions: map<int, Decision>,
          n: nat)
    requires n <= |events| && Asked(events, rules, |events|) <= decisions.Keys
    ensures var done := decisions.Keys;
            && RetainedCount(events, rules, decisions, n) + |Drops(events, rules, decisions, done, n)| ==
               CountReplyable(events[..n])
            && TranslatedCount(events, rules, decisions, done, n) <= RetainedCount(events, rules, decisions, n)
  {
    hide Asked, Settled, Translated, Replyable, RetainedCount, Drops, TranslatedCount;
    if n == 0 {
      NothingRetained(events, rules, decisions);
    } else {
      ReplyableConserved(events, rules, decisions, n - 1);
      SettlesOnce(events, rules, decisions, n - 1);
      RetainedStep(events, rules, decisions, n - 1);
      DroppedStep(events, rules, decisions, n - 1);
      assert events[..n] == events[..n - 1] + [events[n - 1]];
      FilterAppend(Replyable, events[..n - 1], events[n - 1]);
    }
  }

  function RetainedCount(events: seq<Event>, rules: CleanRules, decisions: map<int, Decision>, n: nat): nat
    requires n <= |events|
  {
    |Filter(ItemReplyable, Items(events, rules, decisions, decisions.Keys, n))|
  }

  lemma NothingRetained(events: seq<Event>, rules: CleanRules, decisions: map<int, Decision>)
    ensures RetainedCount(events, rules, decisions, 0) == 0 ==
            TranslatedCount(events, rules, decisions, decisions.Keys, 0)
    ensures Drops(events, rules, decisions, decisions.Keys, 0) == []
  {}

  lemma DroppedStep(events: seq<Event>, rules: CleanRules, decisions: map<int, Decision>, i: nat)
    requires i < |events|
    ensures |Drops(events, rules, decisions, decisions.Keys, i + 1)|
            == |Drops(events, rules, decisions, decisions.Keys, i)|
               + if Settled(events, rules, decisions, decisions.Keys, i).Discard? then 1 else 0
    ensures TranslatedCount(events, rules, decisions, decisions.Keys, i + 1)
            == TranslatedCount(events, rules, decisions, decisions.Keys, i)
               + if Translated(events, rules, decisions, decisions.Keys, i) then 1 else 0
  {
    hide Settled, Translated;
  }

  lemma RetainedStep(events: seq<Event>, rules: CleanRules, decisions: map<int, Decision>, i: nat)
    requires i < |events|
    ensures RetainedCount(events, rules, decisions, i + 1)
            == RetainedCount(events, rules, decisions, i)
               + if Settled(events, rules, decisions, decisions.Keys, i).Keep? && Replyable(events[i]) then 1 else 0
  {
    hide Settled, Replyable;
    var v := Settled(events, rules, decisions, decisions.Keys, i);
    if v.Keep? { FilterAppend(ItemReplyable, Items(events, rules, decisions, decisions.Keys, i),
                              Item(events[i], v.text, v.intent)); }
  }

  /** Main result for the pipeline's counts: retained plus dropped is what was replyable, every other event
      is kept, and no more are translated than retained. */
  lemma CleanedCounts(events: seq<Event>, rules: CleanRules, decisions: map<int, Decision>)
    requires Asked(events, rules, |events|) <= decisions.Keys
    ensures var r := Cleaned(events, rules, decisions);
            && CountReplyable(r.events) + |r.drops| == CountReplyable(events)
            && r.translated <= CountReplyable(r.events)
            && |r.events| - CountReplyable(r.events) == |events| - CountReplyable(events)
  {
    hide Items, Asked, Settled, TranslatedCount, Drops;
    var items := Items(events, rules, decisions, decisions.Keys, |events|);
    var drops := Drops(events, rules, decisions, decisions.Keys, |events|);
    ReplyableConserved(events, rules, decisions, |events|);
    EveryEventSettles(events, rules, decisions, |events|);
    assert events[..|events|] == events;
    SortPermutes(ItemOrder, items);
    SortPermutes(DropOrder, drops);
    FilterCountPermutation(ItemReplyable, Sort(ItemOrder, items), items);
    FilterAcross(ItemReplyable, Sort(ItemOrder, items), Cleaned(events, rules, decisions).events);
  }

  lemma {:induction false} FilterAcross(p: Item -> bool, items: seq<Item>, events: seq<Event>)
    requires |items| == |events| && forall i :: 0 <= i < |items| ==> p(items[i]) == Replyable(events[i])
    ensures |Filter(p, items)| == CountReplyable(events)
  {
    if items != [] { FilterAcross(p, items[1..], events[1..]); }
  }
}
