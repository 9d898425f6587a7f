/** Building and publishing a clean dataset family: `publish_clean_datasets`. */
module Pipeline {
  import opened Wrappers
  import opened Sorting
  import opened Events
  import opened Workload
  import opened Enrichment
  import opened Sanitizer
  import opened Dataset
  import Semantic
  import Cleaning
  import CleaningRun
  import MediumWorkload
  import HighWorkload
  import opened Provenance

  /** The fixed command contract: ratio 0.10, a seed, and the optional medium pair. */
  datatype Options = Options(seed: int, deriveMedium: bool, mediumRate: int, digest: MediumWorkload.Digest)

  datatype PublishError =
    | InvalidSource | OutputExists | CleaningFailed | HighFailed | EnrichFailed | MediumFailed | WriteFailed
    | StagedInvalid

  /** The remaining content checks, on language, privacy and processing metadata, are left uninterpreted. */
  datatype Environment = Environment(checksum: seq<Event> -> string, scrubber: Scrubber,
                                     contentAccepted: Stored -> bool)

  /** A staged dataset and the dataset its manifest names as parent. */
  datatype Staged = Staged(stored: Stored, parent: Stored)

  const SYNTHETIC_RATIO := Ratio(1, 10)
  const NO_SYNTHETIC := Ratio(0, 1)
  const HIGH_COMPRESSION := HighWorkload.Compression(5400000, 2, 1, 5, 100)

  /** The source checks that matter to the counts. */
  predicate SourceAccepted(source: Stored, env: Environment) {
    Timeline(source.events) && CountsAccepted(source) && env.checksum(source.events) == source.manifest.checksum
  }

  function ParentOf(entry: Staged, env: Environment): Option<Manifest>
    requires entry.stored.manifest.v2.Some?
  {
    ResolvedParent(entry.stored.manifest.v2.value.parent, entry.parent, env.checksum)
  }

  /** Every recomputation and reconciliation check of the validator. */
  ghost predicate Reconciles(entry: Staged, env: Environment) {
    && entry.stored.manifest.v2.Some?
    && entry.stored.manifest.v2.value.syntheticRatio.den > 0
    && ParentOf(entry, env).Some?
    && Timeline(entry.stored.events)
    && CountsAccepted(entry.stored)
    && WorkloadAccepted(entry.stored)
    && EffectiveAccepted(entry.stored)
    && RatioAccepted(entry.stored)
    && CleaningCountsAccepted(entry.stored, ParentOf(entry, env))
  }

  /** A stream as the cleaner and the derivations produce it. */
  ghost predicate RealStream(events: seq<Event>) {
    Timeline(events) && forall e :: e in events ==> e.payload.origin == Some(Real)
  }

  lemma RealStreamCounts(events: seq<Event>)
    requires RealStream(events)
    ensures |Filter(RealReplyable, events)| == CountReplyable(events) && |Filter(SyntheticReplyable, events)| == 0
    ensures DistinctSequences(events) && OriginsKnown(events) && SortedBy(ByTime, events)
  {
    FilterAlike(RealReplyable, Replyable, events);
    FilterNone(SyntheticReplyable, events);
    TimelineIsSorted(events);
  }

  /** A clean-real dataset reconciles when its drop count is the difference to its parent. */
  lemma CleanRealReconciles(config: WriterConfig, events: seq<Event>, durationMs: int, parent: Stored, env: Environment)
    requires RealStream(events) && WriteOutcome(config, events, durationMs).Ok?
    requires config.v2.Some? && config.v2.value.variant == CleanReal && config.v2.value.syntheticRatio == NO_SYNTHETIC
    requires config.v2.value.parent == ParentRef(parent.manifest.datasetId, env.checksum(parent.events))
    requires config.v2.value.dropped == ManifestReplyable(parent.manifest) - CountReplyable(events)
    requires match parent.manifest.v2
             case None => config.v2.value.translated <= CountReplyable(events)
             case Some(v2) => config.v2.value.translated == v2.cleaning.translated
    ensures Reconciles(Staged(WriteOutcome(config, events, durationMs).value, parent), env)
  {
    hide WorkloadOf, EventCounts, CleanEvent, Sanitized, RealOffsets, ReplyableOffsets, SyntheticTotal,
         ManifestReplyable;
    RealStreamCounts(events);
    WrittenPassesRecomputation(config, events, durationMs);
    WrittenCounts(config, events, durationMs);
    WrittenRealOrigin(config, events, durationMs);
  }

  lemma EnrichedOrigins(events: seq<Event>, seed: int)
    requires RealStream(events) && EnrichOutcome(events, SYNTHETIC_RATIO, seed).Ok?
    ensures OriginsKnown(EnrichOutcome(events, SYNTHETIC_RATIO, seed).value)
    ensures Timeline(EnrichOutcome(events, SYNTHETIC_RATIO, seed).value)
  {
    var chats := Filter(Replyable, events);
    var types := TypesFor(|chats|, SYNTHETIC_RATIO, seed);
    var all := events + SyntheticEvents(|events|, chats, types);
    var combined := Combined(events, SYNTHETIC_RATIO, seed);
    SortKeepsElements(ByTime, all);
    SyntheticEventsAreMarked(|events|, chats, types);
    var out := EnrichOutcome(events, SYNTHETIC_RATIO, seed).value;
    forall e | e in out ensures e.payload.origin == Some(Real) || e.payload.origin == Some(Synthetic) {
      var i :| 0 <= i < |out| && out[i] == e;
      assert combined[i] in all;
    }
    EnrichedTimeline(events, SYNTHETIC_RATIO, seed);
    forall e | e in events ensures e.offsetMs >= 0 {
      var i :| 0 <= i < |events| && events[i] == e;
    }
  }

  /** An enriched dataset reconciles with the clean-real dataset it was enriched from. */
  lemma CleanEnrichedReconciles(base: WriterConfig, config: WriterConfig, events: seq<Event>, durationMs: int,
                                seed: int, env: Environment)
    requires RealStream(events) && WriteOutcome(base, events, durationMs).Ok? && base.v2.Some?
    requires EnrichOutcome(events, SYNTHETIC_RATIO, seed).Ok?
    requires WriteOutcome(config, EnrichOutcome(events, SYNTHETIC_RATIO, seed).value, durationMs).Ok?
    requires config.v2.Some? && config.v2.value.variant == CleanEnriched
             && config.v2.value.syntheticRatio == SYNTHETIC_RATIO
    requires config.v2.value.dropped == base.v2.value.dropped && config.v2.value.translated == base.v2.value.translated
    requires var parent := WriteOutcome(base, events, durationMs).value;
             config.v2.value.parent == ParentRef(parent.manifest.datasetId, env.checksum(parent.events))
    ensures Reconciles(Staged(WriteOutcome(config, EnrichOutcome(events, SYNTHETIC_RATIO, seed).value,
                                           durationMs).value,
                              WriteOutcome(base, events, durationMs).value), env)
  {
    hide WorkloadOf, EventCounts, CleanEvent, Sanitized, RealOffsets, ReplyableOffsets, SyntheticTotal,
         ManifestReplyable, EnrichOutcome;
    var enriched := EnrichOutcome(events, SYNTHETIC_RATIO, seed).value;
    RealStreamCounts(events);
    EnrichedOrigins(events, seed);
    EnrichedCounts(events, SYNTHETIC_RATIO, seed);
    WrittenCounts(base, events, durationMs);
    WrittenPassesRecomputation(config, enriched, durationMs);
    WrittenCounts(config, enriched, durationMs);
    WrittenRealOrigin(config, enriched, durationMs);
  }

  lemma {:induction false} FilterBoth(events: seq<Event>)
    ensures Filter(Replyable, Filter(NotSynthetic, events)) == Filter(RealReplyable, events)
  {
    if events != [] {
      FilterBoth(events[1..]);
      if NotSynthetic(events[0]) { assert Filter(NotSynthetic, events)[1..] == Filter(NotSynthetic, events[1..]); }
    }
  }

  /** Erasing what enrichment added leaves the real offsets, and they are those of the input. */
  lemma EnrichedRealOffsets(events: seq<Event>, seed: int)
    requires RealStream(events) && EnrichOutcome(events, SYNTHETIC_RATIO, seed).Ok?
    ensures RealOffsets(EnrichOutcome(events, SYNTHETIC_RATIO, seed).value) == RealOffsets(events)
  {
    hide EnrichOutcome;
    RealStreamCounts(events);
    Erasable(events, SYNTHETIC_RATIO, seed);
    var kept := Filter(NotSynthetic, EnrichOutcome(events, SYNTHETIC_RATIO, seed).value);
    FilterBoth(EnrichOutcome(events, SYNTHETIC_RATIO, seed).value);
    FilterAlike(RealReplyable, Replyable, events);
    assert |kept| == |Map(Unnumbered, kept)| == |events|;
    forall i | 0 <= i < |events|
      ensures Replyable(kept[i]) == Replyable(events[i]) && OffsetOf(kept[i]) == OffsetOf(events[i])
    {
      assert Map(Unnumbered, kept)[i] == Map(Unnumbered, events)[i];
    }
    MapFilterPointwise(Replyable, OffsetOf, kept, events);
  }

  /** An enriched dataset passes the heat check exactly when the dataset it was enriched from does. */
  lemma EnrichedHeat(base: WriterConfig, config: WriterConfig, events: seq<Event>, durationMs: int, seed: int)
    requires RealStream(events) && WriteOutcome(base, events, durationMs).Ok?
    requires EnrichOutcome(events, SYNTHETIC_RATIO, seed).Ok?
    requires WriteOutcome(config, EnrichOutcome(events, SYNTHETIC_RATIO, seed).value, durationMs).Ok?
    requires base.v2.Some? && config.v2.Some? && base.heatTier == config.heatTier
    ensures HeatAccepted(WriteOutcome(config, EnrichOutcome(events, SYNTHETIC_RATIO, seed).value, durationMs).value)
            <==> HeatAccepted(WriteOutcome(base, events, durationMs).value)
  {
    hide EnrichOutcome, WorkloadOf, EventCounts, RealOffsets, ReplyableOffsets, PassesHeatCheck, Sanitized;
    var enriched := EnrichOutcome(events, SYNTHETIC_RATIO, seed).value;
    EnrichedRealOffsets(events, seed);
    SameRealOffsets(events, base.scrubber);
    SameRealOffsets(enriched, config.scrubber);
  }

  lemma CleanedIsReal(events: seq<Event>, rules: Cleaning.CleanRules, decisions: map<int, Semantic.Decision>)
    requires Timeline(events) && Cleaning.Asked(events, rules, |events|) <= decisions.Keys
    ensures RealStream(Cleaning.Cleaned(events, rules, decisions).events)
  {
    hide Cleaning.Cleaned, Cleaning.Asked;
    forall e | e in events ensures e.offsetMs >= 0 {
      var i :| 0 <= i < |events| && events[i] == e;
    }
    Cleaning.CleanedOrder(events, rules, decisions);
  }

  lemma HighIsReal(events: seq<Event>, durationMs: int)
    requires RealStream(events) && HighWorkload.HighOutcome(events, durationMs, HIGH_COMPRESSION).Ok?
    ensures RealStream(HighWorkload.HighOutcome(events, durationMs, HIGH_COMPRESSION).value.events)
    ensures CountReplyable(HighWorkload.HighOutcome(events, durationMs, HIGH_COMPRESSION).value.events) ==
            CountReplyable(events)
  {
    hide HighWorkload.HighOutcome;
    HighWorkload.OrderPreserved(events, durationMs, HIGH_COMPRESSION);
    var r := HighWorkload.HighOutcome(events, durationMs, HIGH_COMPRESSION).value;
    forall e | e in r.events ensures e.payload.origin == Some(Real) {
      var i :| 0 <= i < |r.events| && r.events[i] == e;
      assert events[i] in events;
    }
    FilterCountPointwise(Replyable, r.events, events);
  }

  lemma MediumIsReal(events: seq<Event>, durationMs: int, settings: MediumWorkload.Settings)
    requires RealStream(events) && MediumWorkload.MediumOutcome(events, durationMs, settings).Ok?
    ensures RealStream(MediumWorkload.MediumOutcome(events, durationMs, settings).value)
  {
    hide MediumWorkload.MediumOutcome;
    forall e | e in events ensures e.offsetMs >= 0 && NotSynthetic(e) {
      var i :| 0 <= i < |events| && events[i] == e;
    }
    MediumWorkload.MediumTimeline(events, durationMs, settings);
    forall e | e in MediumWorkload.MediumOutcome(events, durationMs, settings).value
      ensures e.payload.origin == Some(Real)
    {
      MediumWorkload.MediumFromInput(events, durationMs, settings, e);
    }
  }

  function ConfigFor(name: string, tier: HeatTier, env: Environment, parent: Manifest, dropped: int, translated: int,
                     variant: Variant): WriterConfig {
    WriterConfig(name, tier, env.checksum, env.scrubber,
                 Some(V2Config(ParentRef(parent.datasetId, parent.checksum), dropped, translated, variant,
                               if variant.CleanReal? then NO_SYNTHETIC else SYNTHETIC_RATIO)))
  }

  function OutputNames(sourceId: string, deriveMedium: bool): seq<string> {
    [sourceId + "-clean-real-v2", sourceId + "-clean-enriched-v2"]
    + if deriveMedium then [sourceId + "-medium-clean-real-v2", sourceId + "-medium-clean-enriched-v2"] else []
  }

  predicate BuildError(e: PublishError) {
    e.CleaningFailed? || e.HighFailed? || e.EnrichFailed? || e.MediumFailed? || e.WriteFailed?
  }

  /** Few enough synthetic events for four-digit actor ids. */
  predicate FewSynthetic(events: seq<Event>) {
    SyntheticTotal(CountReplyable(events), SYNTHETIC_RATIO) <= 9999
  }

  /** When the two datasets written from `events` pass the provenance check. */
  ghost predicate PairMarked(clean: Stored, enriched: Stored, events: seq<Event>, s: Scrubber) {
    Careful(s) ==>
      && (ProvenanceAccepted(clean.events) <==> AllPresentable(s, events))
      && (ProvenanceAccepted(enriched.events) <==> ProvenanceAccepted(clean.events) && FewSynthetic(clean.events))
  }

  lemma PairMarkedExactly(clean: Stored, enriched: Stored, events: seq<Event>, seed: int, s: Scrubber)
    requires RealStream(events) && EnrichOutcome(events, SYNTHETIC_RATIO, seed).Ok?
    requires clean.events == Sanitized(events, s)
    requires enriched.events == Sanitized(EnrichOutcome(events, SYNTHETIC_RATIO, seed).value, s)
    ensures PairMarked(clean, enriched, events, s)
  {
    hide Careful, ProvenanceAccepted, AllPresentable, EnrichOutcome;
    if Careful(s) {
      RealStreamAccepted(events, s);
      EnrichedAccepted(events, SYNTHETIC_RATIO, seed, s);
      SanitizedReplyable(events, s);
    }
  }

  lemma SanitizedReplyable(events: seq<Event>, s: Scrubber)
    ensures CountReplyable(Sanitized(events, s)) == CountReplyable(events)
  {
    hide CleanEvent;
    SanitizingKeepsWorkload(events, s);
    FilterCountPointwise(Replyable, Sanitized(events, s), events);
  }

  /** How a member of the family is configured, field by field. */
  ghost predicate Configured(config: WriterConfig, name: string, tier: HeatTier, env: Environment, parent: Manifest,
                       dropped: int, translated: int, variant: Variant, ratio: Ratio) {
    && config.datasetId == name && config.heatTier == tier
    && config.checksum == env.checksum && config.scrubber == env.scrubber
    && config.v2.Some?
    && config.v2.value.parent.datasetId == parent.datasetId && config.v2.value.parent.checksum == parent.checksum
    && config.v2.value.dropped == dropped && config.v2.value.translated == translated
    && config.v2.value.variant == variant && config.v2.value.syntheticRatio == ratio
  }

  /** What staging a pair promises: the clean dataset holds `events`, the enriched one holds what enrichment made of
      them, and each error says which of the three steps failed. */
  ghost predicate RightPair(realName: string, enrichedName: string, tier: HeatTier, env: Environment, parent: Stored,
                            events: seq<Event>, durationMs: int, dropped: int, translated: int, seed: int,
                            r: Result<(Staged, Staged), PublishError>) {
    exists config, clean ::
      && Configured(config, realName, tier, env, parent.manifest, dropped, translated, CleanReal, Ratio(0, 1))
      && RightWrite(config, events, durationMs, clean)
      && if clean.Err? then r == Err(WriteFailed)
         else RightSecond(enrichedName, tier, env, Staged(clean.value, parent), events, durationMs, dropped, translated,
                          seed, r)
  }

  ghost predicate RightSecond(enrichedName: string, tier: HeatTier, env: Environment, clean: Staged,
                              events: seq<Event>, durationMs: int, dropped: int, translated: int, seed: int,
                              r: Result<(Staged, Staged), PublishError>) {
    exists enriched ::
      && RightEnrichment(events, Ratio(1, 10), seed, enriched)
      && if enriched.Err? then r == Err(EnrichFailed)
         else exists config, stored ::
                && Configured(config, enrichedName, tier, env, clean.stored.manifest, dropped, translated,
                              CleanEnriched, Ratio(1, 10))
                && RightWrite(config, enriched.value, durationMs, stored)
                && if stored.Err? then r == Err(WriteFailed)
                   else r == Ok((clean, Staged(stored.value, clean.stored)))
  }

  /** What preparing the real stream promises. */
  ghost predicate RightPreparation(source: Stored, rules: Cleaning.CleanRules, model: CleaningRun.Model,
                                   decisions: map<int, Semantic.Decision>,
                                   r: Result<(seq<Event>, int, int, int), PublishError>) {
    exists cleaned ::
      && CleaningRun.RightClean(source.events, rules, model, decisions, cleaned)
      && if cleaned.Err? then r == Err(CleaningFailed)
         else if source.manifest.heatTier != High then
           r == Ok((cleaned.value.events, source.manifest.durationMs, |cleaned.value.drops|, cleaned.value.translated))
         else exists high ::
                && HighWorkload.RightHigh(cleaned.value.events, source.manifest.durationMs,
                                          HighWorkload.Compression(5400000, 2, 1, 5, 100), high)
                && if high.Err? then r == Err(HighFailed)
                   else r == Ok((high.value.events, high.value.durationMs, |cleaned.value.drops|,
                                 cleaned.value.translated))
  }

  /** What building a family promises, up to the first failing step. */
  ghost predicate RightFamily(source: Stored, options: Options, rules: Cleaning.CleanRules, model: CleaningRun.Model,
                              env: Environment, decisions: map<int, Semantic.Decision>,
                              r: Result<seq<Staged>, PublishError>) {
    exists prepared ::
      && RightPreparation(source, rules, model, decisions, prepared)
      && if prepared.Err? then r == Err(prepared.error)
         else RightMembers(source, options, env, prepared.value.0, prepared.value.1, prepared.value.2,
                           prepared.value.3, r)
  }

  ghost predicate RightMembers(source: Stored, options: Options, env: Environment, events: seq<Event>,
                               durationMs: int, dropped: int, translated: int, r: Result<seq<Staged>, PublishError>) {
    exists first ::
      && RightPair(source.manifest.datasetId + "-clean-real-v2", source.manifest.datasetId + "-clean-enriched-v2",
                   source.manifest.heatTier, env, source, events, durationMs, dropped, translated, options.seed, first)
      && if first.Err? then r == Err(first.error)
         else if !options.deriveMedium then r == Ok([first.value.0, first.value.1])
         else exists second ::
                && RightMediumPair(source.manifest.datasetId, options, env, first.value.0.stored, events, durationMs,
                                   translated, second)
                && if second.Err? then r == Err(second.error)
                   else r == Ok([first.value.0, first.value.1, second.value.0, second.value.1])
  }

  /** The medium pair is thinned from the prepared stream, and its drops are the messages thinning removed. */
  ghost predicate RightMediumPair(id: string, options: Options, env: Environment, clean: Stored, events: seq<Event>,
                                  durationMs: int, translated: int, r: Result<(Staged, Staged), PublishError>) {
    exists medium ::
      && MediumWorkload.RightMedium(events, durationMs,
                                    MediumWorkload.Settings(options.mediumRate, options.seed, options.digest), medium)
      && if medium.Err? then r == Err(MediumFailed)
         else RightPair(id + "-medium-clean-real-v2", id + "-medium-clean-enriched-v2", Medium, env, clean,
                        medium.value, durationMs, |Messages(events)| - |Messages(medium.value)|, translated,
                        options.seed, r)
  }

  function FamilyNames(id: string, deriveMedium: bool): set<string> {
    {id + "-clean-real-v2", id + "-clean-enriched-v2"}
    + if deriveMedium then {id + "-medium-clean-real-v2", id + "-medium-clean-enriched-v2"} else {}
  }

  lemma NamesListed(id: string, deriveMedium: bool)
    ensures (set n | n in OutputNames(id, deriveMedium)) == FamilyNames(id, deriveMedium)
    ensures |OutputNames(id, deriveMedium)| == if deriveMedium then 4 else 2
  {
    forall n ensures n in OutputNames(id, deriveMedium) <==> n in FamilyNames(id, deriveMedium) {}
  }

  /** What publishing promises: the first refusal in order, and else the family under its names. */
  ghost predicate RightPublication(source: Stored, options: Options, rules: Cleaning.CleanRules,
                                   model: CleaningRun.Model, env: Environment, existing: set<string>,
                                   renameFailsAt: Option<nat>, r: Result<seq<Staged>, PublishError>,
                                   present: set<string>) {
    var names := FamilyNames(source.manifest.datasetId, options.deriveMedium);
    && present == (if r.Ok? then existing + names else existing)
    && if !SourceAccepted(source, env) then r == Err(InvalidSource)
       else if names * existing != {} then r == Err(OutputExists)
       else exists family, decisions ::
              && RightFamily(source, options, rules, model, env, decisions, family)
              && if family.Err? then r == family
                 else if exists staged :: staged in family.value && !ContentAccepted(staged, env)
                   then r == Err(StagedInvalid)
                 else if renameFailsAt.Some? && renameFailsAt.value < (if options.deriveMedium then 4 else 2)
                   then r == Err(WriteFailed)
                 else r == family
  }

  /** The manifest fields the next step of the pipeline relies on. */
  lemma WrittenFields(config: WriterConfig, events: seq<Event>, durationMs: int)
    requires WriteOutcome(config, events, durationMs).Ok? && config.v2.Some?
    ensures var s := WriteOutcome(config, events, durationMs).value;
            && s.manifest.datasetId == config.datasetId && s.manifest.heatTier == config.heatTier
            && s.manifest.durationMs == durationMs && s.manifest.checksum == config.checksum(s.events)
            && s.manifest.v2.Some? && s.manifest.v2.value.cleaning.translated == config.v2.value.translated
            && s.events == Sanitized(events, config.scrubber)
  {
    hide WorkloadOf, EventCounts, CleanEvent, RealOffsets, ReplyableOffsets;
  }

  /** One clean-real dataset and the dataset enriched from it, both reconciling with their parents. */
  method StagePair(realName: string, enrichedName: string, tier: HeatTier, env: Environment, parent: Stored,
                   events: seq<Event>,
                   durationMs: int, dropped: int, translated: int, seed: int)
    returns (r: Result<(Staged, Staged), PublishError>)
    requires RealStream(events) && parent.manifest.checksum == env.checksum(parent.events)
    requires dropped == ManifestReplyable(parent.manifest) - CountReplyable(events)
    requires match parent.manifest.v2
             case None => translated <= CountReplyable(events)
             case Some(v2) => translated == v2.cleaning.translated
    ensures RightPair(realName, enrichedName, tier, env, parent, events, durationMs, dropped, translated, seed, r)
    ensures r.Err? ==> BuildError(r.error)
    ensures r.Ok? ==>
              var (clean, enriched) := r.value;
              && Reconciles(clean, env) && Reconciles(enriched, env)
              && WriteOutcome(ConfigFor(realName, tier, env, parent.manifest, dropped, translated, CleanReal), events,
                              durationMs) == Ok(clean.stored)
              && clean.parent == parent && enriched.parent == clean.stored
              && enriched.stored.manifest.datasetId == enrichedName && enriched.stored.manifest.heatTier == tier
              && enriched.stored.manifest.durationMs == durationMs
              && EnrichOutcome(events, SYNTHETIC_RATIO, seed).Ok?
              && (HeatAccepted(enriched.stored) <==> HeatAccepted(clean.stored))
              && enriched.stored.events == Sanitized(EnrichOutcome(events, SYNTHETIC_RATIO, seed).value, env.scrubber)
              && PairMarked(clean.stored, enriched.stored, events, env.scrubber)
  {
    hide PairMarked, ProvenanceAccepted, AllPresentable, SyntheticTotal, Reconciles, EnrichOutcome, Sanitized,
         WorkloadOf, EventCounts, RealOffsets, ReplyableOffsets, ManifestReplyable, HeatAccepted, RightWrite,
         RightEnrichment, WriteOutcome;
    var config := ConfigFor(realName, tier, env, parent.manifest, dropped, translated, CleanReal);
    var clean := WriteDataset(config, events, durationMs);
    if clean.Err? { return Err(WriteFailed); }
    WrittenFields(config, events, durationMs);
    CleanRealReconciles(config, events, durationMs, parent, env);
    var enriched := EnrichScenarios(events, SYNTHETIC_RATIO, seed);
    if enriched.Err? { return Err(EnrichFailed); }
    var enrichedConfig := ConfigFor(enrichedName, tier, env, clean.value.manifest, dropped, translated, CleanEnriched);
    var stored := WriteDataset(enrichedConfig, enriched.value, durationMs);
    if stored.Err? { return Err(WriteFailed); }
    WrittenFields(enrichedConfig, enriched.value, durationMs);
    CleanEnrichedReconciles(config, enrichedConfig, events, durationMs, seed, env);
    EnrichedHeat(config, enrichedConfig, events, durationMs, seed);
    PairMarkedExactly(clean.value, stored.value, events, seed, env.scrubber);
    r := Ok((Staged(clean.value, parent), Staged(stored.value, clean.value)));
  }

  lemma MessagesCounted(events: seq<Event>)
    ensures |Messages(events)| == CountReplyable(events)
  {
    OffsetsAre(events);
  }

  lemma WrittenReplyable(config: WriterConfig, events: seq<Event>, durationMs: int)
    requires WriteOutcome(config, events, durationMs).Ok?
    ensures ManifestReplyable(WriteOutcome(config, events, durationMs).value.manifest) == CountReplyable(events)
  {
    WrittenCounts(config, events, durationMs);
  }

  lemma CleanedIsPresentable(events: seq<Event>, rules: Cleaning.CleanRules, decisions: map<int, Semantic.Decision>)
    requires Timeline(events) && InfersIntents(rules)
    ensures forall s :: AllPresentable(s, Cleaning.Cleaned(events, rules, decisions).events)
                        <==> SourcesFit(events, rules, decisions, s)
  {
    hide AllPresentable, SourcesFit, InfersIntents, Cleaning.Cleaned;
    forall s
      ensures AllPresentable(s, Cleaning.Cleaned(events, rules, decisions).events)
              <==> SourcesFit(events, rules, decisions, s)
    {
      CleanedPresentable(events, rules, decisions, s);
    }
  }

  lemma HighIsPresentable(events: seq<Event>, durationMs: int)
    requires HighWorkload.HighOutcome(events, durationMs, HIGH_COMPRESSION).Ok?
    ensures forall s :: AllPresentable(s, HighWorkload.HighOutcome(events, durationMs, HIGH_COMPRESSION).value.events)
                        <==> AllPresentable(s, events)
  {
    hide AllPresentable, HighWorkload.HighOutcome;
    forall s
      ensures AllPresentable(s, HighWorkload.HighOutcome(events, durationMs, HIGH_COMPRESSION).value.events)
              <==> AllPresentable(s, events)
    {
      HighPresentable(events, durationMs, HIGH_COMPRESSION, s);
    }
  }

  /** The real part of the family: cleaning, and compression when the source is high. */
  method CleanAndCompress(source: Stored, rules: Cleaning.CleanRules, model: CleaningRun.Model)
    returns (r: Result<(seq<Event>, int, int, int), PublishError>, decisions: map<int, Semantic.Decision>)
    requires Timeline(source.events)
    ensures RightPreparation(source, rules, model, decisions, r)
    ensures r.Err? ==> BuildError(r.error)
    ensures r.Ok? ==> decisions.Keys == Cleaning.Asked(source.events, rules, |source.events|)
    ensures r.Ok? ==> CleaningRun.Attributed(
                        source.events, model, CleaningRun.Requests(source.events, rules, model, |source.events|),
                        rules.batchSize, decisions)
    ensures r.Ok? && InfersIntents(rules) ==>
              forall s :: AllPresentable(s, r.value.0) <==> SourcesFit(source.events, rules, decisions, s)
    ensures r.Ok? ==>
              var (events, durationMs, dropped, translated) := r.value;
              && RealStream(events)
              && dropped == CountReplyable(source.events) - CountReplyable(events)
              && 0 <= translated <= CountReplyable(events)
              && (!source.manifest.heatTier.High? ==> durationMs == source.manifest.durationMs)
              && (source.manifest.heatTier.High? ==>
                    PassesHeatCheck(WorkloadOf(RealOffsets(events), durationMs, High, true))
                        && durationMs >= HIGH_COMPRESSION.minDurationMs)
  {
    hide AllPresentable, SourcesFit, InfersIntents, WorkloadOf, RealOffsets, Cleaning.Asked, Cleaning.Cleaned,
         CleaningRun.Attributed, CleaningRun.Requests, Cleaning.TextsRetained, HighWorkload.HighOutcome,
         CleaningRun.RightClean, HighWorkload.RightHigh;
    var cleaned;
    cleaned, decisions := CleaningRun.Clean(source.events, rules, model);
    if cleaned.Err? { return Err(CleaningFailed), decisions; }
    if InfersIntents(rules) { CleanedIsPresentable(source.events, rules, decisions); }
    CleanedIsReal(source.events, rules, decisions);
    Cleaning.CleanedCounts(source.events, rules, decisions);
    var result := cleaned.value;
    if !source.manifest.heatTier.High? {
      return Ok((result.events, source.manifest.durationMs, |result.drops|, result.translated)), decisions;
    }
    var high := HighWorkload.DeriveHighEvents(result.events, source.manifest.durationMs, HIGH_COMPRESSION);
    if high.Err? { return Err(HighFailed), decisions; }
    HighIsPresentable(result.events, source.manifest.durationMs);
    HighIsReal(result.events, source.manifest.durationMs);
    HighWorkload.HighPassesValidator(result.events, source.manifest.durationMs, HIGH_COMPRESSION);
    HighWorkload.DurationKept(result.events, source.manifest.durationMs, HIGH_COMPRESSION);
    r := Ok((high.value.events, high.value.durationMs, |result.drops|, result.translated));
  }

  /** Main result: for every valid schema-v1 source and every model, each dataset of the family that gets
      through its transforms passes all recomputation and reconciliation checks against its parent, and its markers
      pass exactly when the kept source messages are fit and the synthetic ones few enough. */
  method BuildFamily(source: Stored, options: Options, rules: Cleaning.CleanRules, model: CleaningRun.Model,
                     env: Environment)
    returns (r: Result<seq<Staged>, PublishError>, decisions: map<int, Semantic.Decision>)
    requires SourceAccepted(source, env) && source.manifest.v2.None?
    ensures RightFamily(source, options, rules, model, env, decisions, r)
    ensures r.Err? ==> BuildError(r.error)
    ensures r.Ok? ==> decisions.Keys == Cleaning.Asked(source.events, rules, |source.events|)
    ensures r.Ok? ==> CleaningRun.Attributed(
                        source.events, model, CleaningRun.Requests(source.events, rules, model, |source.events|),
                        rules.batchSize, decisions)
    ensures r.Ok? ==> forall k :: 0 <= k < |r.value| ==> Reconciles(r.value[k], env)
    ensures r.Ok? ==>
              && |r.value| == |OutputNames(source.manifest.datasetId, options.deriveMedium)|
              && forall k :: 0 <= k < |r.value| ==> r.value[k].stored.manifest.datasetId ==
                                                    OutputNames(source.manifest.datasetId, options.deriveMedium)[k]
    ensures r.Ok? ==>
              && r.value[0].parent == source && r.value[1].parent == r.value[0].stored
              && (options.deriveMedium ==>
                  r.value[2].parent == r.value[0].stored
                  && r.value[3].parent == r.value[2].stored)
              && (HeatAccepted(r.value[1].stored) <==> HeatAccepted(r.value[0].stored))
              && (source.manifest.heatTier.High? ==> HeatAccepted(r.value[0].stored) && HeatAccepted(r.value[1].stored))
              && (options.deriveMedium ==> HeatAccepted(r.value[2].stored) && HeatAccepted(r.value[3].stored))
    ensures r.Ok? && Careful(env.scrubber) && InfersIntents(rules) ==>
              && (ProvenanceAccepted(r.value[0].stored.events)
                  <==> SourcesFit(source.events, rules, decisions, env.scrubber))
              && (ProvenanceAccepted(r.value[1].stored.events)
                  <==> ProvenanceAccepted(r.value[0].stored.events) && FewSynthetic(r.value[0].stored.events))
              && (options.deriveMedium ==>
                    && (ProvenanceAccepted(r.value[0].stored.events) ==> ProvenanceAccepted(r.value[2].stored.events))
                    && (ProvenanceAccepted(r.value[3].stored.events)
                        <==> ProvenanceAccepted(r.value[2].stored.events) && FewSynthetic(r.value[2].stored.events)))
  {
    hide PairMarked, ProvenanceAccepted, AllPresentable, SourcesFit, Careful, InfersIntents, FewSynthetic, Reconciles,
         CleaningRun.Attributed, CleaningRun.Requests, Cleaning.Asked, EnrichOutcome, WorkloadOf, EventCounts,
         RealOffsets, ReplyableOffsets, PassesHeatCheck, HeatAccepted, RealStream, CountReplyable, ManifestReplyable,
         RightPreparation, RightPair, RightMediumPair, WriteOutcome;
    var names := OutputNames(source.manifest.datasetId, options.deriveMedium);
    var prepared;
    prepared, decisions := CleanAndCompress(source, rules, model);
    if prepared.Err? { return Err(prepared.error), decisions; }
    var (events, durationMs, dropped, translated) := prepared.value;
    SourceReplyable(source);
    var tier := source.manifest.heatTier;
    var first := StagePair(names[0], names[1], tier, env, source, events, durationMs, dropped, translated,
                           options.seed);
    if first.Err? { return Err(first.error), decisions; }
    var (clean, enriched) := first.value;
    var config := ConfigFor(names[0], tier, env, source.manifest, dropped, translated, CleanReal);
    WrittenFields(config, events, durationMs);
    if tier.High? { HeatCarriesOver(config, events, durationMs); }
    FirstMarked(source, rules, decisions, clean.stored, enriched.stored, events, env.scrubber);
    if !options.deriveMedium { return Ok([clean, enriched]), decisions; }
    WrittenReplyable(config, events, durationMs);
    var second := StageMedium(source.manifest.datasetId, options, env, clean.stored, events, durationMs, translated);
    if second.Err? { return Err(second.error), decisions; }
    r := Ok([clean, enriched, second.value.0, second.value.1]);
  }

  /** The medium pair: thinning the prepared stream and staging what is left below the first clean dataset. */
  method StageMedium(id: string, options: Options, env: Environment, clean: Stored, events: seq<Event>,
                     durationMs: int, translated: int)
    returns (r: Result<(Staged, Staged), PublishError>)
    requires RealStream(events) && clean.manifest.checksum == env.checksum(clean.events)
    requires ManifestReplyable(clean.manifest) == CountReplyable(events)
    requires clean.manifest.v2.Some? && translated == clean.manifest.v2.value.cleaning.translated
    ensures RightMediumPair(id, options, env, clean, events, durationMs, translated, r)
    ensures r.Err? ==> BuildError(r.error)
    ensures r.Ok? ==>
              var (mediumClean, mediumEnriched) := r.value;
              && Reconciles(mediumClean, env) && Reconciles(mediumEnriched, env)
              && mediumClean.stored.manifest.datasetId == id + "-medium-clean-real-v2"
              && mediumEnriched.stored.manifest.datasetId == id + "-medium-clean-enriched-v2"
              && mediumClean.parent == clean && mediumEnriched.parent == mediumClean.stored
              && HeatAccepted(mediumClean.stored) && HeatAccepted(mediumEnriched.stored)
              && MediumMarked(mediumClean.stored, mediumEnriched.stored, events, env.scrubber)
  {
    hide PairMarked, ProvenanceAccepted, AllPresentable, Careful, FewSynthetic, Reconciles, EnrichOutcome, WorkloadOf,
         EventCounts, RealOffsets, ReplyableOffsets, MediumWorkload.MediumOutcome, PassesHeatCheck, HeatAccepted,
         RealStream, CountReplyable, ManifestReplyable, RightPair, MediumWorkload.RightMedium, Messages, WriteOutcome,
         MediumMarked;
    MessagesCounted(events);
    var settings := MediumWorkload.Settings(options.mediumRate, options.seed, options.digest);
    var medium := MediumWorkload.DeriveMediumEvents(events, durationMs, settings);
    if medium.Err? { return Err(MediumFailed); }
    MessagesCounted(medium.value);
    MediumIsReal(events, durationMs, settings);
    if AllPresentable(env.scrubber, events) { MediumPresentable(events, durationMs, settings, env.scrubber); }
    MediumWorkload.MediumPassesValidator(events, durationMs, settings);
    var dropped := CountReplyable(events) - CountReplyable(medium.value);
    r := StagePair(id + "-medium-clean-real-v2", id + "-medium-clean-enriched-v2", Medium, env, clean, medium.value,
                   durationMs, dropped, translated, options.seed);
    if r.Err? { return; }
    var config := ConfigFor(id + "-medium-clean-real-v2", Medium, env, clean.manifest, dropped, translated, CleanReal);
    WrittenFields(config, medium.value, durationMs);
    HeatCarriesOver(config, medium.value, durationMs);
    MediumMarkedFrom(r.value.0.stored, r.value.1.stored, events, medium.value, env.scrubber);
  }

  lemma FirstMarked(source: Stored, rules: Cleaning.CleanRules, decisions: map<int, Semantic.Decision>,
                    clean: Stored, enriched: Stored, events: seq<Event>, s: Scrubber)
    requires PairMarked(clean, enriched, events, s)
    requires InfersIntents(rules) ==> (AllPresentable(s, events) <==> SourcesFit(source.events, rules, decisions, s))
    ensures Careful(s) && InfersIntents(rules) ==>
              && (ProvenanceAccepted(clean.events) <==> SourcesFit(source.events, rules, decisions, s))
              && (ProvenanceAccepted(enriched.events)
                  <==> ProvenanceAccepted(clean.events) && FewSynthetic(clean.events))
  {
    hide ProvenanceAccepted, AllPresentable, SourcesFit, Careful, InfersIntents, FewSynthetic;
  }

  /** When the medium pair thinned from `events` passes the provenance check. */
  ghost predicate MediumMarked(clean: Stored, enriched: Stored, events: seq<Event>, s: Scrubber) {
    Careful(s) ==>
      && (AllPresentable(s, events) ==> ProvenanceAccepted(clean.events))
      && (ProvenanceAccepted(enriched.events) <==> ProvenanceAccepted(clean.events) && FewSynthetic(clean.events))
  }

  lemma MediumMarkedFrom(clean: Stored, enriched: Stored, events: seq<Event>, medium: seq<Event>, s: Scrubber)
    requires PairMarked(clean, enriched, medium, s)
    requires AllPresentable(s, events) ==> AllPresentable(s, medium)
    ensures MediumMarked(clean, enriched, events, s)
  {
    hide ProvenanceAccepted, AllPresentable, Careful, FewSynthetic;
  }

  lemma SourceReplyable(source: Stored)
    requires CountsAccepted(source)
    ensures ManifestReplyable(source.manifest) == CountReplyable(source.events)
  {
    CountedByType(source.events);
  }

  /** Sanitizing on the way to disk does not change the heat check. */
  lemma HeatCarriesOver(config: WriterConfig, events: seq<Event>, durationMs: int)
    requires WriteOutcome(config, events, durationMs).Ok? && config.v2.Some?
    requires PassesHeatCheck(WorkloadOf(RealOffsets(events), durationMs, config.heatTier, true))
    ensures HeatAccepted(WriteOutcome(config, events, durationMs).value)
  {
    hide WorkloadOf, EventCounts, PassesHeatCheck;
    SameRealOffsets(events, config.scrubber);
  }

  lemma SameRealOffsets(events: seq<Event>, s: Scrubber)
    ensures RealOffsets(Sanitized(events, s)) == RealOffsets(events)
  {
    hide CleanEvent, RealReplyable;
    SanitizingKeepsWorkload(events, s);
    MapFilterPointwise(RealReplyable, OffsetOf, Sanitized(events, s), events);
  }

  /** The checks left to reject a staged dataset: its heat tier, its markers and the content checks. */
  predicate ContentAccepted(entry: Staged, env: Environment) {
    HeatAccepted(entry.stored) && ProvenanceAccepted(entry.stored.events) && env.contentAccepted(entry.stored)
  }

  /** The validator over one staged dataset: every check, in one verdict. */
  method Validate(entry: Staged, env: Environment) returns (valid: bool)
    requires Reconciles(entry, env)
    ensures valid <==> ContentAccepted(entry, env)
  {
    var timeline := TimelineAccepted(entry.stored.events);
    var v2 := entry.stored.manifest.v2;
    valid := timeline && CountsAccepted(entry.stored) && WorkloadAccepted(entry.stored)
        && EffectiveAccepted(entry.stored)
             && v2.Some? && ParentOf(entry, env).Some? && RatioAccepted(entry.stored)
             && CleaningCountsAccepted(entry.stored, ParentOf(entry, env)) && HeatAccepted(entry.stored)
             && ProvenanceAccepted(entry.stored.events) && env.contentAccepted(entry.stored);
  }

  /** `publish_clean_datasets`: stage, validate, then rename into place; a failed rename undoes the others.
      Validation of a family built from an accepted source can fail on heat or content only. */
  method Publish(source: Stored, options: Options, rules: Cleaning.CleanRules, model: CleaningRun.Model,
                 env: Environment,
                 existing: set<string>, renameFailsAt: Option<nat>)
    returns (r: Result<seq<Staged>, PublishError>, present: set<string>)
    requires source.manifest.v2.None?
    ensures RightPublication(source, options, rules, model, env, existing, renameFailsAt, r, present)
    ensures r.Err? ==> present == existing
    ensures r.Ok? ==> present == existing + (set n | n in OutputNames(source.manifest.datasetId, options.deriveMedium))
    ensures r.Ok? ==> forall k :: 0 <= k < |r.value| ==> Reconciles(r.value[k], env) && ContentAccepted(r.value[k], env)
    ensures r == Err(InvalidSource) <==> !SourceAccepted(source, env)
    ensures r == Err(OutputExists) ==>
              exists n :: n in OutputNames(source.manifest.datasetId, options.deriveMedium) && n in existing
  {
    hide Reconciles, ContentAccepted, RightFamily, SourceAccepted, HeatAccepted, ProvenanceAccepted, SourcesFit,
         Careful, InfersIntents, FewSynthetic, CleaningRun.Attributed, CleaningRun.Requests, Cleaning.Asked;
    present := existing;
    NamesListed(source.manifest.datasetId, options.deriveMedium);
    hide OutputNames, FamilyNames;
    if !SourceAccepted(source, env) { return Err(InvalidSource), present; }
    var names := OutputNames(source.manifest.datasetId, options.deriveMedium);
    ghost var taken := FamilyNames(source.manifest.datasetId, options.deriveMedium) * existing;
    if n :| n in names && n in existing {
      assert n in taken;
      return Err(OutputExists), present;
    }
    assert taken == {};
    var family, decisions := BuildFamily(source, options, rules, model, env);
    if family.Err? { return family, present; }
    for k := 0 to |family.value|
      invariant forall j :: 0 <= j < k ==> ContentAccepted(family.value[j], env)
    {
      var valid := Validate(family.value[k], env);
      if !valid { return Err(StagedInvalid), present; }
    }
    var ok;
    ok, present := MoveIntoPlace(names, existing, renameFailsAt);
    if !ok { return Err(WriteFailed), present; }
    r := family;
  }

  /** The rename loop with its rollback. */
  method MoveIntoPlace(names: seq<string>, existing: set<string>, failsAt: Option<nat>)
      returns (ok: bool, present: set<string>)
    requires forall n :: n in names ==> n !in existing
    ensures ok <==> failsAt.None? || failsAt.value >= |names|
    ensures present == if ok then existing + (set n | n in names) else existing
  {
    present := existing;
    var published: seq<string> := [];
    for k := 0 to |names|
      invariant published == names[..k] && present == existing + (set n | n in names[..k])
      invariant failsAt.None? || failsAt.value >= k
    {
      if failsAt == Some(k) {
        present := present - (set n | n in published);
        assert present == existing;
        return false, present;
      }
      assert names[..k + 1] == names[..k] + [names[k]];
      present := present + {names[k]};
      published := published + [names[k]];
    }
    assert names[..|names|] == names;
    ok := true;
  }
}
