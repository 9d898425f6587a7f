/** The provenance and marker checks of the validator, `_validate_v2_provenance`, on what the producers store. */
module Provenance {
  import opened Wrappers
  import opened Sorting
  import opened LogText
  import opened Events
  import opened Enrichment
  import opened Sanitizer
  import Semantic
  import Cleaning
  import CleaningRun
  import MediumWorkload
  import HighWorkload

  // ----- The checks

  /** `_nonempty_string`. */
  predicate Given(v: Option<string>) {
    v.Some? && Strip(v.value) != ""
  }

  predicate Natural(v: Option<int>) {
    v.Some? && v.value >= 0
  }

  /** A real event names its source and its intent, and nothing that belongs to a synthetic one. */
  predicate RealMarked(e: Event) {
    && e.payload.origin == Some(Real) && Natural(e.payload.sourceSequence) && Given(e.payload.intent)
    && e.payload.scenario.None? && e.payload.parentSequence.None?
  }

  /** A synthetic event is marked in its text, its actor and its payload. */
  predicate SyntheticMarked(e: Event) {
    && SYNTHETIC_PREFIX <= e.text && FourDigits(e.actorId)
    && Given(e.payload.scenario) && Natural(e.payload.parentSequence) && Given(e.payload.intent)
    && e.payload.sourceSequence.None?
  }

  /** A real event that looks synthetic. */
  predicate Disguised(e: Event) {
    e.actorId.SyntheticActor? || e.actorId.SyntheticLookalike? || SYNTHETIC_PREFIX <= e.text
  }

  predicate WellMarked(e: Event) {
    Replyable(e) ==> if MarkedSynthetic(e) then SyntheticMarked(e) else RealMarked(e) && !Disguised(e)
  }

  /** The marker and real-provenance checks over a stored stream. */
  predicate ProvenanceAccepted(events: seq<Event>) {
    forall i :: 0 <= i < |events| ==> WellMarked(events[i])
  }

  // ----- What is asked of the scrubber

  /** Scrubbing puts a placeholder in place of what it finds, so no value becomes blank or stops being blank, the
      synthetic prefix stays, and a viewer's number never makes or breaks one. */
  ghost predicate Careful(s: Scrubber) {
    && (forall v: string :: Strip(s.value(v)) == "" <==> Strip(v) == "")
    && (forall t: string, a: ActorId :: FourDigits(a) && SYNTHETIC_PREFIX <= t ==> SYNTHETIC_PREFIX <= s.text(t, a, a))
    && (forall t: string, a: ActorId, m: nat, n: nat ::
          SYNTHETIC_PREFIX <= s.text(t, a, Viewer(m)) <==> SYNTHETIC_PREFIX <= s.text(t, a, Viewer(n)))
  }

  lemma CarefulExists()
    ensures Careful(Scrubber((text, actor, alias) => text, value => value))
  {}

  // ----- Real events

  /** The text a real event is stored with, whatever number its viewer gets. */
  function PublicText(s: Scrubber, e: Event): string {
    s.text(e.text, e.actorId, if KeyOf(e).None? then NoActor else Viewer(1))
  }

  /** The event passes once it is stored. */
  predicate Presentable(s: Scrubber, e: Event) {
    Replyable(e) ==> RealMarked(e) && !(SYNTHETIC_PREFIX <= PublicText(s, e))
  }

  ghost predicate AllReal(events: seq<Event>) {
    forall e :: e in events ==> e.payload.origin == Some(Real)
  }

  ghost predicate AllPresentable(s: Scrubber, events: seq<Event>) {
    forall e :: e in events ==> Presentable(s, e)
  }

  lemma RealStored(order: seq<ActorKey>, e: Event, s: Scrubber)
    requires Careful(s) && e.payload.origin == Some(Real)
    requires AliasedKey(e).Some? ==> AliasedKey(e).value in order
    ensures WellMarked(CleanEvent(order, e, s)) <==> Presentable(s, e)
  {
    hide Strip, PositionOf;
    GivenScrubbed(s, e.payload.intent);
    if KeyOf(e).Some? {
      var n := PositionOf(order, KeyOf(e).value) + 1;
      assert SYNTHETIC_PREFIX <= s.text(e.text, e.actorId, Viewer(n)) <==>
             SYNTHETIC_PREFIX <= s.text(e.text, e.actorId, Viewer(1));
    }
  }

  lemma GivenScrubbed(s: Scrubber, v: Option<string>)
    requires Careful(s)
    ensures Given(ScrubOption(s, v)) <==> Given(v)
  {
    hide Strip;
  }

  /** A stored real stream passes exactly when each of its events is presentable. */
  lemma RealStreamAccepted(events: seq<Event>, s: Scrubber)
    requires Careful(s) && AllReal(events)
    ensures ProvenanceAccepted(Sanitized(events, s)) <==> AllPresentable(s, events)
  {
    hide Careful, Presentable, WellMarked, CleanEvent;
    forall i | 0 <= i < |events| ensures WellMarked(Sanitized(events, s)[i]) <==> Presentable(s, events[i]) {
      RealStored(Seen(events, i + 1), events[i], s);
    }
  }

  // ----- Synthetic events

  predicate Word(s: string) {
    s != "" && !Whitespace(s[0])
  }

  lemma {:induction false} WordStays(s: string)
    requires Word(s)
    ensures Strip(s) != ""
  {
    if |s| > 1 && Whitespace(s[|s| - 1]) { WordStays(s[..|s| - 1]); }
  }

  lemma ScenarioGiven(types: seq<EventType>, i: nat)
    requires i < |types|
    ensures Strip(ScenarioFor(types, i).name) != "" && Strip(ScenarioFor(types, i).intent) != ""
  {
    hide Strip, DanmakuBefore;
    assert Word(GIFT_SCENARIO.name) && Word(GIFT_SCENARIO.intent);
    assert Word(SUPER_CHAT_SCENARIO.name) && Word(SUPER_CHAT_SCENARIO.intent);
    var k := DanmakuBefore(types, i) % |DANMAKU_SCENARIOS|;
    assert Word(DANMAKU_SCENARIOS[k].name) && Word(DANMAKU_SCENARIOS[k].intent);
    WordStays(ScenarioFor(types, i).name);
    WordStays(ScenarioFor(types, i).intent);
  }

  /** A relinked synthetic event passes once stored exactly when its number has four digits. */
  lemma SyntheticStored(order: seq<ActorKey>, e: Event, created: Event, eventCount: nat, chats: seq<Event>,
                        types: seq<EventType>, i: nat, s: Scrubber)
    requires Careful(s) && |chats| >= 1 && i < |types| && ReplyableType(types[i])
    requires created == SyntheticEvent(eventCount, chats, types, i)
    requires e == created.(sequence := e.sequence,
                           payload := created.payload.(parentSequence := e.payload.parentSequence))
    requires Natural(e.payload.parentSequence)
    requires AliasedKey(e).Some? ==> AliasedKey(e).value in order
    ensures WellMarked(CleanEvent(order, e, s)) <==> i < 9999
  {
    hide Strip, PositionOf, ScenarioFor, ParentIndex;
    ScenarioGiven(types, i);
    GivenScrubbed(s, e.payload.intent);
    GivenScrubbed(s, e.payload.scenario);
    assert SYNTHETIC_PREFIX <= e.text;
  }

  /** Every event of the enriched stream is an input event under a new number or a relinked created one. */
  lemma EnrichedFrom(events: seq<Event>, ratio: Ratio, seed: int, p: nat) returns (i: nat)
    requires ratio.den > 0 && AllReal(events) && EnrichOutcome(events, ratio, seed).Ok?
    requires p < |EnrichOutcome(events, ratio, seed).value|
    ensures var e := EnrichOutcome(events, ratio, seed).value[p];
            if MarkedSynthetic(e) then
              var chats := Filter(Replyable, events);
              var types := TypesFor(|chats|, ratio, seed);
              && i < |types| && Natural(e.payload.parentSequence)
              && var created := SyntheticEvent(|events|, chats, types, i);
                 e == created.(sequence := p, payload := created.payload.(parentSequence := e.payload.parentSequence))
            else
              i < |events| && e == Renumbered(events[i], p)
  {
    hide TypesFor, ScenarioFor, ParentIndex;
    var combined := Combined(events, ratio, seed);
    if MarkedSynthetic(combined[p]) {
      i := MarkedIsCreated(events, ratio, seed, p);
    } else {
      var chats := Filter(Replyable, events);
      var created := SyntheticEvents(|events|, chats, TypesFor(|chats|, ratio, seed));
      SortKeepsElements(ByTime, events + created);
      SyntheticEventsAreMarked(|events|, chats, TypesFor(|chats|, ratio, seed));
      assert combined[p] in events + created;
      i :| 0 <= i < |events| && events[i] == combined[p];
    }
  }

  /** And each of them is there. */
  lemma EnrichedHolds(events: seq<Event>, ratio: Ratio, seed: int, e: Event) returns (p: nat)
    requires ratio.den > 0 && AllReal(events) && EnrichOutcome(events, ratio, seed).Ok?
    requires var chats := Filter(Replyable, events);
             e in events + SyntheticEvents(|events|, chats, TypesFor(|chats|, ratio, seed))
    ensures var out := EnrichOutcome(events, ratio, seed).value;
            p < |out| && out[p] == e.(sequence := p, payload := out[p].payload)
            && (e.payload.origin == Some(Real) ==> out[p].payload == e.payload)
            && (e.payload.origin == Some(Synthetic) ==>
                  Natural(out[p].payload.parentSequence)
                  && out[p].payload == e.payload.(parentSequence := out[p].payload.parentSequence))
  {
    hide TypesFor, ScenarioFor, ParentIndex, SyntheticEvent;
    var chats := Filter(Replyable, events);
    var combined := Combined(events, ratio, seed);
    SortKeepsElements(ByTime, events + SyntheticEvents(|events|, chats, TypesFor(|chats|, ratio, seed)));
    p :| 0 <= p < |combined| && combined[p] == e;
  }

  /** Main result: an enriched stream passes exactly when its real events are presentable and it needs no synthetic
      actor past `synthetic_9999`. */
  lemma EnrichedAccepted(events: seq<Event>, ratio: Ratio, seed: int, s: Scrubber)
    requires ratio.den > 0 && AllReal(events) && EnrichOutcome(events, ratio, seed).Ok? && Careful(s)
    ensures ProvenanceAccepted(Sanitized(EnrichOutcome(events, ratio, seed).value, s))
            <==> AllPresentable(s, events) && SyntheticTotal(CountReplyable(events), ratio) <= 9999
  {
    hide EnrichOutcome, Careful, WellMarked, CleanEvent, Presentable, TypesFor, SyntheticEvent;
    var stored := Sanitized(EnrichOutcome(events, ratio, seed).value, s);
    if AllPresentable(s, events) && SyntheticTotal(CountReplyable(events), ratio) <= 9999 {
      forall p | 0 <= p < |stored| ensures WellMarked(stored[p]) {
        EnrichedEventAccepted(events, ratio, seed, s, p);
      }
    }
    if ProvenanceAccepted(stored) {
      forall e | e in events ensures Presentable(s, e) {
        RealEventSurvives(events, ratio, seed, s, e);
      }
      if SyntheticTotal(CountReplyable(events), ratio) > 9999 {
        LateActorFails(events, ratio, seed, s);
      }
    }
  }

  lemma EnrichedPositive(events: seq<Event>, ratio: Ratio, seed: int)
    requires ratio.den > 0 && EnrichOutcome(events, ratio, seed).Ok?
    ensures ratio.num > 0 && Filter(Replyable, events) != []
  {}

  lemma PresentableRenumbered(s: Scrubber, e: Event, n: int)
    ensures Presentable(s, Renumbered(e, n)) <==> Presentable(s, e)
  {
    hide Strip;
  }

  lemma EnrichedEventAccepted(events: seq<Event>, ratio: Ratio, seed: int, s: Scrubber, p: nat)
    requires ratio.den > 0 && AllReal(events) && EnrichOutcome(events, ratio, seed).Ok? && Careful(s)
    requires AllPresentable(s, events) && SyntheticTotal(CountReplyable(events), ratio) <= 9999
    requires p < |EnrichOutcome(events, ratio, seed).value|
    ensures WellMarked(Sanitized(EnrichOutcome(events, ratio, seed).value, s)[p])
  {
    EnrichedPositive(events, ratio, seed);
    hide EnrichOutcome, Careful, WellMarked, CleanEvent, Presentable, TypesFor, SyntheticEvent;
    var out := EnrichOutcome(events, ratio, seed).value;
    var e := out[p];
    var i := EnrichedFrom(events, ratio, seed, p);
    if MarkedSynthetic(e) {
      var chats := Filter(Replyable, events);
      var types := TypesFor(|chats|, ratio, seed);
      TypesAreReplyable(|chats|, ratio, seed);
      SyntheticStored(Seen(out, p + 1), e, SyntheticEvent(|events|, chats, types, i), |events|, chats, types, i, s);
    } else {
      assert events[i] in events;
      PresentableRenumbered(s, events[i], p);
      RealStored(Seen(out, p + 1), e, s);
    }
  }

  lemma RealEventSurvives(events: seq<Event>, ratio: Ratio, seed: int, s: Scrubber, e: Event)
    requires ratio.den > 0 && AllReal(events) && EnrichOutcome(events, ratio, seed).Ok? && Careful(s)
    requires ProvenanceAccepted(Sanitized(EnrichOutcome(events, ratio, seed).value, s)) && e in events
    ensures Presentable(s, e)
  {
    EnrichedPositive(events, ratio, seed);
    hide EnrichOutcome, Careful, WellMarked, CleanEvent, Presentable, TypesFor, SyntheticEvent;
    var out := EnrichOutcome(events, ratio, seed).value;
    var p := EnrichedHolds(events, ratio, seed, e);
    assert out[p] == Renumbered(e, p);
    PresentableRenumbered(s, e, p);
    assert WellMarked(Sanitized(out, s)[p]);
    RealStored(Seen(out, p + 1), out[p], s);
  }

  /** The ten-thousandth synthetic actor has five digits. */
  lemma LateActorFails(events: seq<Event>, ratio: Ratio, seed: int, s: Scrubber)
    requires ratio.den > 0 && AllReal(events) && EnrichOutcome(events, ratio, seed).Ok? && Careful(s)
    requires SyntheticTotal(CountReplyable(events), ratio) > 9999
    ensures !ProvenanceAccepted(Sanitized(EnrichOutcome(events, ratio, seed).value, s))
  {
    EnrichedPositive(events, ratio, seed);
    hide EnrichOutcome, Careful, WellMarked, CleanEvent, TypesFor;
    var chats := Filter(Replyable, events);
    var types := TypesFor(|chats|, ratio, seed);
    var created := SyntheticEvents(|events|, chats, types);
    var out := EnrichOutcome(events, ratio, seed).value;
    TypesAreReplyable(|chats|, ratio, seed);
    var late := created[9999];
    assert late in events + created;
    var p := EnrichedHolds(events, ratio, seed, late);
    hide SyntheticEvent;
    SyntheticStored(Seen(out, p + 1), out[p], late, |events|, chats, types, 9999, s);
    assert !WellMarked(Sanitized(out, s)[p]);
  }

  // ----- The derivations

  /** Compression keeps what the checks read. */
  lemma HighPresentable(events: seq<Event>, durationMs: int, c: HighWorkload.Compression, s: Scrubber)
    requires HighWorkload.Rational(c) && HighWorkload.HighOutcome(events, durationMs, c).Ok?
    ensures AllPresentable(s, HighWorkload.HighOutcome(events, durationMs, c).value.events)
            <==> AllPresentable(s, events)
  {
    hide HighWorkload.HighOutcome, Presentable;
    HighWorkload.OrderPreserved(events, durationMs, c);
    var out := HighWorkload.HighOutcome(events, durationMs, c).value.events;
    forall i | 0 <= i < |events| ensures Presentable(s, out[i]) <==> Presentable(s, events[i]) {
      PresentableMoved(s, events[i], i, out[i].offsetMs);
    }
    assert forall i :: 0 <= i < |events| ==> out[i] in out && events[i] in events;
  }

  lemma PresentableMoved(s: Scrubber, e: Event, n: int, offsetMs: int)
    ensures Presentable(s, e.(sequence := n, offsetMs := offsetMs)) <==> Presentable(s, e)
  {
    hide Strip;
  }

  /** Thinning only takes events away. */
  lemma MediumPresentable(events: seq<Event>, durationMs: int, settings: MediumWorkload.Settings, s: Scrubber)
    requires MediumWorkload.MediumOutcome(events, durationMs, settings).Ok? && AllPresentable(s, events)
    ensures AllPresentable(s, MediumWorkload.MediumOutcome(events, durationMs, settings).value)
  {
    hide MediumWorkload.MediumOutcome, Presentable;
    var out := MediumWorkload.MediumOutcome(events, durationMs, settings).value;
    forall e | e in out ensures Presentable(s, e) {
      MediumWorkload.MediumFromInput(events, durationMs, settings, e);
      var x :| x in events && e == Renumbered(x, e.sequence);
      PresentableRenumbered(s, x, e.sequence);
    }
  }

  // ----- The source

  /** The rules never infer a blank intent. */
  ghost predicate InfersIntents(rules: Cleaning.CleanRules) {
    forall t: string :: rules.inferIntent(t).Some? ==> Strip(rules.inferIntent(t).value) != ""
  }

  /** A source event that, if it is kept as a chat message, can be presented: its payload has no synthetic marker, the
      model's decision on it has an intent, and its new text does not start with the synthetic prefix. */
  predicate SourceFit(events: seq<Event>, rules: Cleaning.CleanRules, decisions: map<int, Semantic.Decision>,
                      s: Scrubber, i: nat)
    requires i < |events|
  {
    var e, v := events[i], Cleaning.Settled(events, rules, decisions, decisions.Keys, i);
    Replyable(e) && v.Keep? ==>
      && e.payload.scenario.None? && e.payload.parentSequence.None?
      && (Cleaning.VerdictOn(events, rules, i).Ask? ==> Strip(v.intent) != "")
      && !(SYNTHETIC_PREFIX <= PublicText(s, e.(text := v.text)))
  }

  predicate SourcesFit(events: seq<Event>, rules: Cleaning.CleanRules, decisions: map<int, Semantic.Decision>,
                       s: Scrubber) {
    forall i :: 0 <= i < |events| ==> SourceFit(events, rules, decisions, s, i)
  }

  /** One kept event. */
  lemma KeptFitsExactly(events: seq<Event>, rules: Cleaning.CleanRules, decisions: map<int, Semantic.Decision>,
                        s: Scrubber, i: nat, n: int)
    requires i < |events| && InfersIntents(rules) && events[i].sequence >= 0
    requires Cleaning.Settled(events, rules, decisions, decisions.Keys, i).Keep?
    ensures var v := Cleaning.Settled(events, rules, decisions, decisions.Keys, i);
            Presentable(s, Cleaning.AsReal(Cleaning.Item(events[i], v.text, v.intent), n))
            <==> SourceFit(events, rules, decisions, s, i)
  {
    hide Strip, Cleaning.DropReason;
    var v := Cleaning.Settled(events, rules, decisions, decisions.Keys, i);
    var x := Cleaning.AsReal(Cleaning.Item(events[i], v.text, v.intent), n);
    assert KeyOf(x) == KeyOf(events[i].(text := v.text));
  }

  lemma {:induction false} KeptIsItem(events: seq<Event>, rules: Cleaning.CleanRules,
                                      decisions: map<int, Semantic.Decision>, n: nat, i: nat)
    requires i < n <= |events| && Cleaning.Settled(events, rules, decisions, decisions.Keys, i).Keep?
    ensures var v := Cleaning.Settled(events, rules, decisions, decisions.Keys, i);
            Cleaning.Item(events[i], v.text, v.intent) in Cleaning.Items(events, rules, decisions, decisions.Keys, n)
  {
    hide Cleaning.Settled;
    if i < n - 1 { KeptIsItem(events, rules, decisions, n - 1, i); }
  }

  /** Main result: the cleaned stream is presentable exactly when every source event that is kept as a chat message
      is fit for it. */
  lemma CleanedPresentable(events: seq<Event>, rules: Cleaning.CleanRules, decisions: map<int, Semantic.Decision>,
                           s: Scrubber)
    requires InfersIntents(rules) && forall i :: 0 <= i < |events| ==> events[i].sequence >= 0
    ensures AllPresentable(s, Cleaning.Cleaned(events, rules, decisions).events)
            <==> SourcesFit(events, rules, decisions, s)
  {
    hide Presentable, SourceFit, Cleaning.Settled, Cleaning.AsReal, InfersIntents, Cleaning.Drops,
         Cleaning.TranslatedCount;
    var items := Cleaning.Items(events, rules, decisions, decisions.Keys, |events|);
    var sorted := Sort(Cleaning.ItemOrder, items);
    var out := Cleaning.Cleaned(events, rules, decisions).events;
    SortKeepsElements(Cleaning.ItemOrder, items);
    if SourcesFit(events, rules, decisions, s) {
      forall e | e in out ensures Presentable(s, e) {
        var k :| 0 <= k < |out| && out[k] == e;
        assert sorted[k] in items;
        var i := CleaningRun.ItemOrigin(events, rules, decisions, |events|, sorted[k]);
        KeptFitsExactly(events, rules, decisions, s, i, k);
      }
    }
    if AllPresentable(s, out) {
      forall i | 0 <= i < |events| ensures SourceFit(events, rules, decisions, s, i) {
        SourceFits(events, rules, decisions, s, i);
      }
    }
  }

  lemma SourceFits(events: seq<Event>, rules: Cleaning.CleanRules, decisions: map<int, Semantic.Decision>,
                   s: Scrubber, i: nat)
    requires InfersIntents(rules) && i < |events| && events[i].sequence >= 0
    requires AllPresentable(s, Cleaning.Cleaned(events, rules, decisions).events)
    ensures SourceFit(events, rules, decisions, s, i)
  {
    if !Cleaning.Settled(events, rules, decisions, decisions.Keys, i).Keep? {
      DroppedFits(events, rules, decisions, s, i);
    }
    hide Presentable, SourceFit, Cleaning.Settled, Cleaning.AsReal, InfersIntents, Cleaning.Drops,
         Cleaning.TranslatedCount;
    var v := Cleaning.Settled(events, rules, decisions, decisions.Keys, i);
    if v.Keep? {
      var items := Cleaning.Items(events, rules, decisions, decisions.Keys, |events|);
      KeptIsItem(events, rules, decisions, |events|, i);
      SortKeepsElements(Cleaning.ItemOrder, items);
      var sorted := Sort(Cleaning.ItemOrder, items);
      var k :| 0 <= k < |sorted| && sorted[k] == Cleaning.Item(events[i], v.text, v.intent);
      var out := Cleaning.Cleaned(events, rules, decisions).events;
      assert out[k] == Cleaning.AsReal(sorted[k], k) && out[k] in out;
      KeptFitsExactly(events, rules, decisions, s, i, k);
    }
  }

  lemma DroppedFits(events: seq<Event>, rules: Cleaning.CleanRules, decisions: map<int, Semantic.Decision>,
                    s: Scrubber, i: nat)
    requires i < |events| && !Cleaning.Settled(events, rules, decisions, decisions.Keys, i).Keep?
    ensures SourceFit(events, rules, decisions, s, i)
  {}

  // ----- Two concrete refusals

  const HELLO := [Event(0, 0, Danmaku, NoActor, "hello", EMPTY_PAYLOAD)]

  /** The reply of a model that keeps the message with one blank as its intent. */
  function BlankReply(): Semantic.Reply {
    Semantic.Decoded(Semantic.JObject(map["decisions" := Semantic.JList([Semantic.JObject(map[
      "sequence" := Semantic.JInt(0), "keep" := Semantic.JBool(true), "intent" := Semantic.JText(" "),
      "text_zh" := Semantic.JText("你好")])])]))
  }

  function BlankDecision(language: Semantic.Language): Semantic.Decision {
    Semantic.Decision(0, true, " ", language.localize("你好"), "unrecognized_intent")
  }

  lemma ParseOne(raw: Semantic.Json, language: Semantic.Language)
    requires Semantic.ParseDecision(raw, language).Some?
    ensures Semantic.ParseAll([raw], language) == Some([Semantic.ParseDecision(raw, language).value])
  {
    hide Semantic.ParseDecision;
    var items := [raw];
    var d := Semantic.ParseDecision(raw, language).value;
    assert items[..|items| - 1] == [] && items[|items| - 1] == raw;
    var front := Semantic.ParseAll(items[..|items| - 1], language);
    assert front.Some? && front.value == [];
    assert front.value + [d] == [d];
  }

  lemma BlankReplyParses(language: Semantic.Language)
    ensures Semantic.Parse(BlankReply(), [Semantic.Request(0, "hello", [], [])], language)
            == Some([BlankDecision(language)])
  {
    var raw := BlankReply().value.fields["decisions"].items[0];
    assert Semantic.ParseDecision(raw, language) == Some(BlankDecision(language));
    ParseOne(raw, language);
    assert Semantic.DecisionSequences([BlankDecision(language)]) == {0};
    assert Semantic.RequestSequences([Semantic.Request(0, "hello", [], [])]) == {0};
  }

  /** The parser accepts that reply, cleaning keeps the message, and the stored stream is refused. */
  lemma BlankIntentIsRefused(rules: Cleaning.CleanRules, s: Scrubber)
    requires Careful(s) && InfersIntents(rules)
    requires rules.dropReason(rules.strip("hello")).None? && rules.inferIntent(rules.strip("hello")).None?
    ensures var decisions := map[0 := BlankDecision(rules.language)];
            && Semantic.Parse(BlankReply(), [Semantic.Request(0, "hello", [], [])], rules.language)
               == Some([decisions[0]])
            && !ProvenanceAccepted(Sanitized(Cleaning.Cleaned(HELLO, rules, decisions).events, s))
  {
    BlankReplyParses(rules.language);
    var decisions := map[0 := BlankDecision(rules.language)];
    HelloIsAsked(rules);
    BlankIsBlank();
    hide Careful, InfersIntents, Cleaning.VerdictOn, Cleaning.Cleaned, Strip;
    assert !SourceFit(HELLO, rules, decisions, s, 0);
    CleanedPresentable(HELLO, rules, decisions, s);
    CleanedAllReal(HELLO, rules, decisions);
    RealStreamAccepted(Cleaning.Cleaned(HELLO, rules, decisions).events, s);
  }

  lemma BlankIsBlank()
    ensures Strip(" ") == ""
  {}

  lemma HelloIsAsked(rules: Cleaning.CleanRules)
    requires rules.dropReason(rules.strip("hello")).None? && rules.inferIntent(rules.strip("hello")).None?
    ensures Cleaning.VerdictOn(HELLO, rules, 0).Ask?
  {
    assert Cleaning.LastKept(HELLO, rules, 0, NoActor, Cleaning.Key(HELLO[0], rules)).None?;
    assert !Cleaning.SeenClean(HELLO, rules, 0, Cleaning.Key(HELLO[0], rules));
  }

  lemma CleanedAllReal(events: seq<Event>, rules: Cleaning.CleanRules, decisions: map<int, Semantic.Decision>)
    ensures AllReal(Cleaning.Cleaned(events, rules, decisions).events)
  {
    hide Cleaning.Items, Cleaning.Drops, Cleaning.TranslatedCount;
    var out := Cleaning.Cleaned(events, rules, decisions).events;
    forall e | e in out ensures e.payload.origin == Some(Real) {
      var k :| 0 <= k < |out| && out[k] == e;
    }
  }

  /** `n` real messages, one a millisecond. */
  function Chatter(n: nat): (events: seq<Event>)
    ensures |events| == n
    ensures forall i :: 0 <= i < n ==> events[i] == Event(i, i, Danmaku, NoActor, "你好", REAL_PAYLOAD)
  {
    seq(n, i => Event(i, i, Danmaku, NoActor, "你好", REAL_PAYLOAD))
  }

  const REAL_PAYLOAD := EMPTY_PAYLOAD.(origin := Some(Real), sourceSequence := Some(0), intent := Some("question"))

  /** A long run of messages is enriched without complaint, and the validator refuses the result. */
  lemma LongIsRefused(n: nat, seed: int, s: Scrubber)
    requires SyntheticTotal(n, Ratio(1, 10)) > 9999 && Careful(s)
    ensures EnrichOutcome(Chatter(n), Ratio(1, 10), seed).Ok?
    ensures !ProvenanceAccepted(Sanitized(EnrichOutcome(Chatter(n), Ratio(1, 10), seed).value, s))
  {
    hide EnrichOutcome, Careful, SyntheticTotal, ProvenanceAccepted, AllPresentable, Sanitized;
    var events := Chatter(n);
    hide Chatter;
    forall e | e in events ensures Replyable(e) && !LooksSynthetic(e) && e.payload == REAL_PAYLOAD {
      var i :| 0 <= i < |events| && events[i] == e;
    }
    FilterAll(Replyable, events);
    NoneSynthetic(n);
    EnrichSucceeds(events, Ratio(1, 10), seed);
    EnrichedAccepted(events, Ratio(1, 10), seed, s);
  }

  lemma NoneSynthetic(n: nat)
    requires SyntheticTotal(n, Ratio(1, 10)) > 9999
    ensures n > 0
  {}

  /** 99 991 real messages are one message too many. */
  lemma LongStreamIsRefused(seed: int, s: Scrubber)
    requires Careful(s)
    ensures EnrichOutcome(Chatter(99991), Ratio(1, 10), seed).Ok?
    ensures !ProvenanceAccepted(Sanitized(EnrichOutcome(Chatter(99991), Ratio(1, 10), seed).value, s))
  {
    assert SyntheticTotal(99991, Ratio(1, 10)) > 9999;
    hide EnrichOutcome, Careful, ProvenanceAccepted, Sanitized, Chatter, SyntheticTotal;
    LongIsRefused(99991, seed, s);
  }
}
