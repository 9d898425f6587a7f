/** Incremental dataset writing and its independent validation: `DatasetWriter` and `DatasetValidator`. */
module Dataset {
  import opened Wrappers
  import opened Rounding
  import opened Sorting
  import opened Events
  import opened Workload
  import opened Enrichment
  import opened Sanitizer

  datatype Variant = CleanReal | CleanEnriched

  datatype ParentRef = ParentRef(datasetId: string, checksum: string)

  datatype CleaningCounts = CleaningCounts(retained: int, dropped: int, translated: int, synthetic: int)

  datatype V2Section = V2Section(
    parent: ParentRef, cleaning: CleaningCounts, variant: Variant, syntheticRatio: Ratio,
        effectiveWorkload: WorkloadReport)

  datatype Manifest = Manifest(
    datasetId: string, heatTier: HeatTier, durationMs: int, eventCount: int, eventCounts: map<EventType, nat>,
    workload: WorkloadReport, checksum: string, v2: Option<V2Section>)

  /** A dataset directory: its manifest and the events of its JSONL file. */
  datatype Stored = Stored(manifest: Manifest, events: seq<Event>)

  datatype V2Config = V2Config(parent: ParentRef, dropped: int, translated: int, variant: Variant,
                               syntheticRatio: Ratio)

  /** How a writer is set up; a schema-v1 writer has no `v2` part. */
  datatype WriterConfig = WriterConfig(
    datasetId: string, heatTier: HeatTier, checksum: seq<Event> -> string, scrubber: Scrubber, v2: Option<V2Config>)

  datatype WriteError = BadConfig | AlreadyClosed | BadDuration | Unsupported

  // ----- What a manifest must say about its events

  function OfType(t: EventType): Event -> bool {
    (e: Event) => e.eventType == t
  }

  function TypeCount(events: seq<Event>, t: EventType): nat {
    |Filter(OfType(t), events)|
  }

  /** Events per type; only types that occur have an entry. */
  function EventCounts(events: seq<Event>): map<EventType, nat> {
    map e | e in events :: e.eventType := TypeCount(events, e.eventType)
  }

  function CountOr0(counts: map<EventType, nat>, t: EventType): nat {
    if t in counts then counts[t] else 0
  }

  /** `_manifest_replyable_count`. */
  function ManifestReplyable(m: Manifest): nat {
    CountOr0(m.eventCounts, Danmaku) + CountOr0(m.eventCounts, Gift) + CountOr0(m.eventCounts, SuperChat)
  }

  lemma {:induction false} TypeCountPositive(events: seq<Event>, t: EventType)
    ensures TypeCount(events, t) > 0 <==> exists e :: e in events && e.eventType == t
  {
    if e :| e in events && e.eventType == t {
      assert e in Filter(OfType(t), events);
    }
    if TypeCount(events, t) > 0 {
      assert Filter(OfType(t), events)[0] in events;
    }
  }

  lemma EventCountsAt(events: seq<Event>, t: EventType)
    ensures CountOr0(EventCounts(events), t) == TypeCount(events, t)
    ensures t in EventCounts(events) <==> TypeCount(events, t) > 0
  {
    TypeCountPositive(events, t);
  }

  /** One more event bumps one entry of the counter. */
  lemma EventCountsStep(events: seq<Event>, e: Event)
    ensures EventCounts(events + [e]) == EventCounts(events)[e.eventType := CountOr0(EventCounts(events), e.eventType)
                                                             + 1]
  {
    var a, b := EventCounts(events + [e]),
        EventCounts(events)[e.eventType := CountOr0(EventCounts(events), e.eventType) + 1];
    forall t ensures (t in a <==> t in b) && CountOr0(a, t) == CountOr0(b, t) {
      EventCountsAt(events + [e], t);
      EventCountsAt(events, t);
      FilterConcat(OfType(t), events, [e]);
    }
    SameCounts(a, b);
  }

  lemma SameCounts(a: map<EventType, nat>, b: map<EventType, nat>)
    requires forall t :: (t in a <==> t in b) && CountOr0(a, t) == CountOr0(b, t)
    ensures a == b
  {
    assert a.Keys == b.Keys;
    forall t | t in a ensures a[t] == b[t] { assert CountOr0(a, t) == CountOr0(b, t); }
  }

  /** The three replyable entries of a manifest add up to its replyable events. */
  lemma {:induction false} ReplyableByType(events: seq<Event>)
    ensures CountReplyable(events) == TypeCount(events, Danmaku) + TypeCount(events, Gift)
            + TypeCount(events, SuperChat)
  {
    if events != [] { ReplyableByType(events[1..]); }
  }

  function V2For(config: WriterConfig, events: seq<Event>, durationMs: int): Option<V2Section> {
    if config.v2.None? then None
    else
      var c := config.v2.value;
      Some(V2Section(
        c.parent,
        CleaningCounts(|RealOffsets(events)|, c.dropped, c.translated,
                       |ReplyableOffsets(events)| - |RealOffsets(events)|),
        c.variant, c.syntheticRatio,
        WorkloadOf(ReplyableOffsets(events), durationMs, config.heatTier, true)))
  }

  /** The manifest of the stored events, recomputed from scratch. */
  function ManifestFor(config: WriterConfig, events: seq<Event>, durationMs: int): Manifest {
    Manifest(
      config.datasetId, config.heatTier, durationMs, |events|, EventCounts(events),
      WorkloadOf(if config.v2.Some? then RealOffsets(events) else ReplyableOffsets(events), durationMs, config.heatTier,
                 config.v2.Some?),
      config.checksum(events),
      V2For(config, events, durationMs))
  }

  predicate ConfigAccepted(config: WriterConfig) {
    config.v2.Some? ==>
      config.v2.value.syntheticRatio.num >= 0 && config.v2.value.syntheticRatio.den > 0
      && config.v2.value.dropped >= 0 && config.v2.value.translated >= 0
  }

  lemma OffsetsAppend(events: seq<Event>, e: Event)
    ensures ReplyableOffsets(events + [e]) == ReplyableOffsets(events) + if Replyable(e) then [e.offsetMs] else []
    ensures RealOffsets(events + [e]) == RealOffsets(events) + if RealReplyable(e) then [e.offsetMs] else []
  {
    hide Replyable, RealReplyable;
    OffsetsAppendOf(Replyable, events, e);
    OffsetsAppendOf(RealReplyable, events, e);
  }

  lemma OffsetsAppendOf(p: Event -> bool, events: seq<Event>, e: Event)
    ensures OffsetsOf(Filter(p, events + [e])) == OffsetsOf(Filter(p, events)) + if p(e) then [e.offsetMs] else []
  {
    FilterConcat(p, events, [e]);
    OffsetsConcat(Filter(p, events), Filter(p, [e]));
  }

  lemma OffsetsConcat(a: seq<Event>, b: seq<Event>)
    ensures OffsetsOf(a + b) == OffsetsOf(a) + OffsetsOf(b)
  {}

  /** Writes sanitized events one by one, keeping only the accumulators the manifest needs. */
  class DatasetWriter {
    const config: WriterConfig
    const sanitizer: EventSanitizer
    var file: seq<Event>
    var counts: map<EventType, nat>
    var replyableOffsets: seq<int>
    var realReplyableOffsets: seq<int>
    var eventCount: nat
    var closed: bool

    /** Every accumulator equals what a reader of the file would recompute. */
    ghost predicate Valid()
      reads this, sanitizer
    {
      && sanitizer.Valid()
      && sanitizer.scrubber == config.scrubber
      && eventCount == |file|
      && counts == EventCounts(file)
      && replyableOffsets == ReplyableOffsets(file)
      && realReplyableOffsets == RealOffsets(file)
    }

    constructor (config: WriterConfig)
      requires ConfigAccepted(config)
      ensures Valid() && this.config == config && file == [] && !closed && sanitizer.order == []
      ensures fresh(sanitizer)
    {
      this.config := config;
      sanitizer := new EventSanitizer(config.scrubber);
      file, counts, replyableOffsets, realReplyableOffsets, eventCount, closed := [], map[], [], [], 0, false;
    }

    method Write(e: Event) returns (r: Result<Event, WriteError>)
      requires Valid()
      modifies this, sanitizer
      ensures Valid() && closed == old(closed)
      ensures old(closed) ==> r == Err(AlreadyClosed) && sanitizer.order == old(sanitizer.order)
      ensures !old(closed) ==> sanitizer.order == Noted(old(sanitizer.order), AliasedKey(e))
                               && (AliasedKey(e).Some? ==> AliasedKey(e).value in sanitizer.order)
      ensures !old(closed) ==> r == if Supported(e) then Ok(CleanEvent(sanitizer.order, e, config.scrubber))
              else Err(Unsupported)
      ensures file == if r.Ok? then old(file) + [r.value] else old(file)
    {
      hide CleanEvent, Replyable, RealReplyable, RealOffsets, ReplyableOffsets, EventCounts, Bijective, AliasedKey,
           Noted;
      if closed { return Err(AlreadyClosed); }
      var sanitized := sanitizer.Sanitize(e);
      if sanitized.Err? { return Err(Unsupported); }
      var clean := sanitized.value;
      EventCountsStep(file, clean);
      OffsetsAppend(file, clean);
      file := file + [clean];
      counts := counts[clean.eventType := CountOr0(counts, clean.eventType) + 1];
      eventCount := eventCount + 1;
      if Replyable(clean) {
        replyableOffsets := replyableOffsets + [clean.offsetMs];
      }
      if RealReplyable(clean) {
        realReplyableOffsets := realReplyableOffsets + [clean.offsetMs];
      }
      r := Ok(clean);
    }

    method Abort()
      requires Valid()
      modifies this
      ensures Valid() && closed && file == old(file)
    {
      closed := true;
    }

    method Finalize(durationMs: int) returns (r: Result<Manifest, WriteError>)
      requires Valid()
      modifies this
      ensures Valid() && file == old(file)
      ensures old(closed) ==> r == Err(AlreadyClosed) && closed
      ensures !old(closed) && durationMs <= 0 ==> r == Err(BadDuration) && !closed
      ensures !old(closed) && durationMs > 0 ==> r == Ok(ManifestFor(config, file, durationMs)) && closed
      ensures r.Ok? ==> RightManifest(config, file, durationMs, r.value)
    {
      ManifestIsRight(config, file, durationMs);
      hide RightManifest, RightWorkload, WorkloadOf, RealOffsets, ReplyableOffsets, EventCounts;
      if closed { return Err(AlreadyClosed); }
      if durationMs <= 0 { return Err(BadDuration); }
      closed := true;
      var workload := ComputeWorkload(if config.v2.Some? then realReplyableOffsets else replyableOffsets,
                                      durationMs, config.heatTier, config.v2.Some?);
      var v2: Option<V2Section> := None;
      if config.v2.Some? {
        var c := config.v2.value;
        var effective := ComputeWorkload(replyableOffsets, durationMs, config.heatTier, true);
        var synthetic := |replyableOffsets| - |realReplyableOffsets|;
        v2 := Some(V2Section(c.parent, CleaningCounts(|realReplyableOffsets|, c.dropped, c.translated, synthetic),
                             c.variant, c.syntheticRatio, effective));
      }
      r := Ok(Manifest(config.datasetId, config.heatTier, durationMs, eventCount, counts, workload,
                       config.checksum(file), v2));
    }
  }

  // ----- What a written dataset promises

  /** How many events have the type. */
  function Tally(events: seq<Event>, t: EventType): nat {
    |Filter((e: Event) => e.eventType == t, events)|
  }

  function OffsetsWhere(p: Event -> bool, events: seq<Event>): seq<int> {
    Map((e: Event) => e.offsetMs, Filter(p, events))
  }

  /** The messages, and those of them that are not marked synthetic. */
  function Messages(events: seq<Event>): seq<int> {
    OffsetsWhere((e: Event) => ReplyableType(e.eventType), events)
  }

  function RealMessages(events: seq<Event>): seq<int> {
    OffsetsWhere((e: Event) => ReplyableType(e.eventType) && e.payload.origin != Some(Synthetic), events)
  }

  /** What a manifest promises of its events: the configured columns, the counts by type, and the workload of the real
      messages, or in schema v1 of all messages; in schema v2 also what was kept and added, and the workload of all. */
  ghost predicate RightManifest(config: WriterConfig, events: seq<Event>, durationMs: int, m: Manifest) {
    && m.datasetId == config.datasetId && m.heatTier == config.heatTier && m.durationMs == durationMs
    && m.eventCount == |events| && m.checksum == config.checksum(events)
    && (forall t :: t in m.eventCounts <==> Tally(events, t) > 0)
    && (forall t :: t in m.eventCounts ==> m.eventCounts[t] == Tally(events, t))
    && RightWorkload(if config.v2.Some? then RealMessages(events) else Messages(events), durationMs, config.heatTier,
                     config.v2.Some?, m.workload)
    && (m.v2.Some? <==> config.v2.Some?)
    && (config.v2.Some? ==>
          var c, v := config.v2.value, m.v2.value;
          && v.parent == c.parent && v.variant == c.variant && v.syntheticRatio == c.syntheticRatio
          && v.cleaning.dropped == c.dropped && v.cleaning.translated == c.translated
          && v.cleaning.retained == |RealMessages(events)|
          && v.cleaning.synthetic == |Messages(events)| - |RealMessages(events)|
          && RightWorkload(Messages(events), durationMs, config.heatTier, true, v.effectiveWorkload))
  }

  /** What writing a dataset promises. */
  ghost predicate RightWrite(config: WriterConfig, events: seq<Event>, durationMs: int, r: Result<Stored, WriteError>) {
    if !ConfigAccepted(config) then r == Err(BadConfig)
    else if exists e :: e in events && e.eventType.BroadcastState? then r == Err(Unsupported)
    else if durationMs <= 0 then r == Err(BadDuration)
    else
      && r.Ok? && RightStored(events, config.scrubber, r.value.events)
      && RightManifest(config, r.value.events, durationMs, r.value.manifest)
  }

  lemma OffsetsAre(events: seq<Event>)
    ensures RealOffsets(events) == RealMessages(events) && ReplyableOffsets(events) == Messages(events)
  {
    FilterAlike(Replyable, (e: Event) => ReplyableType(e.eventType), events);
    FilterAlike(RealReplyable, (e: Event) => ReplyableType(e.eventType) && e.payload.origin != Some(Synthetic), events);
    MapsAgree(OffsetOf, (e: Event) => e.offsetMs, Filter(Replyable, events));
    MapsAgree(OffsetOf, (e: Event) => e.offsetMs, Filter(RealReplyable, events));
  }

  lemma CountsAre(events: seq<Event>, t: EventType)
    ensures t in EventCounts(events) <==> Tally(events, t) > 0
    ensures t in EventCounts(events) ==> EventCounts(events)[t] == Tally(events, t)
  {
    EventCountsAt(events, t);
    FilterAlike(OfType(t), (e: Event) => e.eventType == t, events);
  }

  lemma ManifestIsRight(config: WriterConfig, events: seq<Event>, durationMs: int)
    ensures RightManifest(config, events, durationMs, ManifestFor(config, events, durationMs))
  {
    OffsetsAre(events);
    hide EventCounts, RealOffsets, ReplyableOffsets, Messages, RealMessages, WorkloadOf, RightWorkload, Tally;
    WorkloadIsRight(if config.v2.Some? then RealOffsets(events) else ReplyableOffsets(events), durationMs,
                    config.heatTier, config.v2.Some?);
    WorkloadIsRight(ReplyableOffsets(events), durationMs, config.heatTier, true);
    forall t
      ensures t in EventCounts(events) <==> Tally(events, t) > 0
      ensures t in EventCounts(events) ==> EventCounts(events)[t] == Tally(events, t)
    {
      CountsAre(events, t);
    }
  }

  /** Main result: what is written is right. */
  lemma WriteIsRight(config: WriterConfig, events: seq<Event>, durationMs: int)
    ensures RightWrite(config, events, durationMs, WriteOutcome(config, events, durationMs))
  {
    hide RightStored, RightManifest, ManifestFor, Sanitized, ConfigAccepted;
    StoredIsRight(events, config.scrubber);
    ManifestIsRight(config, Sanitized(events, config.scrubber), durationMs);
  }

  /** `_write_dataset`: one writer, every event, one manifest. */
  method WriteDataset(config: WriterConfig, events: seq<Event>, durationMs: int) returns (r: Result<Stored, WriteError>)
    ensures r == WriteOutcome(config, events, durationMs) && RightWrite(config, events, durationMs, r)
  {
    WriteIsRight(config, events, durationMs);
    hide RightWrite, CleanEvent, AliasedKey, Noted, ManifestFor, EventCounts, RealOffsets, ReplyableOffsets, Bijective,
         DatasetWriter.Valid, Supported, ConfigAccepted;
    if !ConfigAccepted(config) { return Err(BadConfig); }
    var writer := new DatasetWriter(config);
    for i := 0 to |events|
      invariant writer.Valid() && !writer.closed && writer.config == config
      invariant fresh(writer) && fresh(writer.sanitizer)
      invariant writer.sanitizer.order == Seen(events, i)
      invariant forall k :: 0 <= k < i ==> Supported(events[k])
      invariant writer.file == Sanitized(events, config.scrubber)[..i]
    {
      var written := writer.Write(events[i]);
      if written.Err? { return Err(Unsupported); }
      assert written.value == Sanitized(events, config.scrubber)[i];
    }
    var manifest := writer.Finalize(durationMs);
    assert writer.file == Sanitized(events, config.scrubber);
    if manifest.Err? { return Err(BadDuration); }
    r := Ok(Stored(manifest.value, writer.file));
  }

  function WriteOutcome(config: WriterConfig, events: seq<Event>, durationMs: int): Result<Stored, WriteError> {
    if !ConfigAccepted(config) then Err(BadConfig)
    else if exists e :: e in events && !Supported(e) then Err(Unsupported)
    else if durationMs <= 0 then Err(BadDuration)
    else
      var stored := Sanitized(events, config.scrubber);
      Ok(Stored(ManifestFor(config, stored, durationMs), stored))
  }

  // ----- The validator

  /** `_validate_timeline`: the scan with its early return. */
  method TimelineAccepted(events: seq<Event>) returns (ok: bool)
    ensures ok <==> Timeline(events)
  {
    for index := 0 to |events|
      invariant Timeline(events[..index])
    {
      var e := events[index];
      if e.sequence != index || e.offsetMs < 0 || (index > 0 && e.offsetMs < events[index - 1].offsetMs) {
        TimelineBreaks(events, index);
        return false;
      }
      TimelineGrows(events, index);
    }
    assert events[..|events|] == events;
    ok := true;
  }

  lemma TimelineBreaks(events: seq<Event>, index: nat)
    requires index < |events|
    requires var e := events[index];
             e.sequence != index || e.offsetMs < 0 || (index > 0 && e.offsetMs < events[index - 1].offsetMs)
    ensures !Timeline(events)
  {}

  lemma TimelineGrows(events: seq<Event>, index: nat)
    requires index < |events| && Timeline(events[..index])
    requires events[index].sequence == index && events[index].offsetMs >= 0
    requires index > 0 ==> events[index - 1].offsetMs <= events[index].offsetMs
    ensures Timeline(events[..index + 1])
  {
    var a, b := events[..index], events[..index + 1];
    forall i, j | 0 <= i < j < |b| ensures b[i].offsetMs <= b[j].offsetMs {
      if j < index {
        assert a[i].offsetMs <= a[j].offsetMs;
      } else if i < index - 1 {
        assert a[i].offsetMs <= a[index - 1].offsetMs;
      }
    }
    forall i | 0 <= i < |b| ensures b[i].sequence == i && b[i].offsetMs >= 0 {
      if i < index { assert a[i] == b[i]; }
    }
  }

  predicate CountsAccepted(stored: Stored) {
    stored.manifest.eventCount == |stored.events| && stored.manifest.eventCounts == EventCounts(stored.events)
  }

  predicate WorkloadAccepted(stored: Stored) {
    var m := stored.manifest;
    m.workload == WorkloadOf(if m.v2.Some? then RealOffsets(stored.events)
                             else ReplyableOffsets(stored.events), m.durationMs, m.heatTier, m.v2.Some?)
  }

  predicate EffectiveAccepted(stored: Stored) {
    var m := stored.manifest;
    m.v2.Some? ==>
        m.v2.value.effectiveWorkload == WorkloadOf(ReplyableOffsets(stored.events), m.durationMs, m.heatTier, true)
  }

  predicate HeatAccepted(stored: Stored) {
    var m := stored.manifest;
    PassesHeatCheck(WorkloadOf(if m.v2.Some? then RealOffsets(stored.events)
                               else ReplyableOffsets(stored.events), m.durationMs, m.heatTier, m.v2.Some?))
  }

  predicate RealOrigin(e: Event) {
    Replyable(e) && e.payload.origin == Some(Real)
  }

  /** The synthetic share check of `_validate_v2_provenance`. */
  predicate RatioAccepted(stored: Stored)
    requires stored.manifest.v2.Some? && stored.manifest.v2.value.syntheticRatio.den > 0
  {
    var v2 := stored.manifest.v2.value;
    var synthetic, chats := |Filter(SyntheticReplyable, stored.events)|, |Filter(RealReplyable, stored.events)|;
    var expected := if v2.syntheticRatio.num >= 0 then SyntheticTotal(chats, v2.syntheticRatio) else -1;
    match v2.variant
    case CleanReal => synthetic == 0 && v2.syntheticRatio.num == 0
    case CleanEnriched => synthetic == expected
  }

  /** `_validate_parent`: the parent directory must be the named dataset, unchanged. */
  function ResolvedParent(ref: ParentRef, parent: Stored, checksum: seq<Event> -> string): Option<Manifest> {
    if parent.manifest.datasetId == ref.datasetId && checksum(parent.events) == ref.checksum then Some(parent.manifest)
        else None
  }

  /** The reconciliation of `_validate_v2_manifest` with the events and the parent manifest. */
  predicate CleaningCountsAccepted(stored: Stored, parent: Option<Manifest>)
    requires stored.manifest.v2.Some?
  {
    var v2 := stored.manifest.v2.value;
    var c := v2.cleaning;
    var realCount := |Filter(RealOrigin, stored.events)|;
    && c.retained >= 0 && c.dropped >= 0 && c.translated >= 0 && c.synthetic >= 0
    && c.retained == realCount
    && c.synthetic == |Filter(SyntheticReplyable, stored.events)|
    && ((parent.Some? && parent.value.v2.Some?) || c.translated <= c.retained)
    && (parent.Some? ==>
          match v2.variant
          case CleanEnriched =>
            && parent.value.v2.Some?
            && realCount == parent.value.v2.value.cleaning.retained
            && c.dropped == parent.value.v2.value.cleaning.dropped
            && c.translated == parent.value.v2.value.cleaning.translated
          case CleanReal =>
            && c.dropped == ManifestReplyable(parent.value) - realCount
            && (parent.value.v2.Some? ==> c.translated == parent.value.v2.value.cleaning.translated))
  }

  /** Main result: for any timeline the incremental manifest passes every recomputation check. */
  lemma WrittenPassesRecomputation(config: WriterConfig, events: seq<Event>, durationMs: int)
    requires WriteOutcome(config, events, durationMs).Ok? && Timeline(events)
    ensures var stored := WriteOutcome(config, events, durationMs).value;
            && Timeline(stored.events) && CountsAccepted(stored) && WorkloadAccepted(stored)
               && EffectiveAccepted(stored)
  {
    hide WorkloadOf, EventCounts, CleanEvent, RealOffsets, ReplyableOffsets;
    SanitizingKeepsWorkload(events, config.scrubber);
  }

  /** The checks that compare a manifest with its events and its parent. */
  predicate Reckoned(stored: Stored, parent: Option<Manifest>)
    requires stored.manifest.v2.Some?
  {
    && CountsAccepted(stored) && WorkloadAccepted(stored) && EffectiveAccepted(stored)
    && CleaningCountsAccepted(stored, parent)
  }

  /** A tampered manifest is caught: beside one that passes, another over the same events and parent passes exactly
      when every count, rate and reconciled figure in it is the same. Only what was translated is free, up to the
      retained messages, where the parent does not record it. */
  lemma ManifestIsForced(a: Stored, b: Stored, parent: Option<Manifest>)
    requires a.manifest.v2.Some? && b.manifest.v2.Some? && parent.Some? && Reckoned(a, parent)
    requires a.events == b.events && a.manifest.heatTier == b.manifest.heatTier
             && a.manifest.durationMs == b.manifest.durationMs
             && a.manifest.v2.value.variant == b.manifest.v2.value.variant
    ensures var (x, y) := (a.manifest.v2.value, b.manifest.v2.value);
            Reckoned(b, parent) <==>
              && a.manifest.eventCount == b.manifest.eventCount && a.manifest.eventCounts == b.manifest.eventCounts
              && a.manifest.workload == b.manifest.workload && x.effectiveWorkload == y.effectiveWorkload
              && x.cleaning.retained == y.cleaning.retained && x.cleaning.synthetic == y.cleaning.synthetic
              && x.cleaning.dropped == y.cleaning.dropped
              && if parent.value.v2.Some? then x.cleaning.translated == y.cleaning.translated
                 else 0 <= y.cleaning.translated <= y.cleaning.retained
  {
    hide WorkloadOf, EventCounts, RealOffsets, ReplyableOffsets, ManifestReplyable, RealOrigin, SyntheticReplyable;
  }

  /** The share check in products: enough synthetic messages for the ratio, and with one fewer not enough. */
  lemma ShareIsForced(stored: Stored)
    requires stored.manifest.v2.Some? && stored.manifest.v2.value.syntheticRatio.den > 0
    ensures var ratio := stored.manifest.v2.value.syntheticRatio;
            var chats := |RealMessages(stored.events)|;
            var synthetic := |Messages(stored.events)| - chats;
            RatioAccepted(stored) <==>
              if stored.manifest.v2.value.variant.CleanReal? then synthetic == 0 && ratio.num == 0
              else 0 <= ratio.num && (synthetic - 1) * ratio.den < chats * ratio.num <= synthetic * ratio.den
  {
    var ratio := stored.manifest.v2.value.syntheticRatio;
    var chats := |Filter(RealReplyable, stored.events)|;
    var synthetic := |Filter(SyntheticReplyable, stored.events)|;
    OffsetsAre(stored.events);
    ReplyableSplits(stored.events);
    RoundedUpOnce(chats * ratio.num, ratio.den, synthetic);
  }

  lemma RoundedUpOnce(num: int, den: int, q: int)
    requires den > 0
    ensures q == CeilDiv(num, den) <==> (q - 1) * den < num <= q * den
  {
    var p := CeilDiv(num, den);
    if q < p { MulMonotone(q, p - 1, den); } else if p < q { MulMonotone(p, q - 1, den); }
  }

  /** What the writer keeps of a stream in its manifest counts. */
  lemma WrittenCounts(config: WriterConfig, events: seq<Event>, durationMs: int)
    requires WriteOutcome(config, events, durationMs).Ok?
    ensures var stored := WriteOutcome(config, events, durationMs).value;
            && |Filter(RealReplyable, stored.events)| == |Filter(RealReplyable, events)|
            && |Filter(SyntheticReplyable, stored.events)| == |Filter(SyntheticReplyable, events)|
            && ManifestReplyable(stored.manifest) == CountReplyable(events)
            && (stored.manifest.v2.Some? ==>
                  && stored.manifest.v2.value.cleaning.retained == |Filter(RealReplyable, events)|
                  && stored.manifest.v2.value.cleaning.synthetic == |Filter(SyntheticReplyable, events)|)
  {
    hide WorkloadOf, CleanEvent, EventCounts, RealReplyable, SyntheticReplyable, ManifestReplyable, Sanitized,
         Supported;
    var out := Sanitized(events, config.scrubber);
    SameKinds(events, config.scrubber);
    CountedByType(out);
    ReplyableSplits(events);
    ReplyableSplits(out);
    assert ManifestReplyable(ManifestFor(config, out, durationMs)) == CountReplyable(out);
  }

  lemma CountedByType(events: seq<Event>)
    ensures forall m: Manifest :: m.eventCounts == EventCounts(events) ==>
            ManifestReplyable(m) == CountReplyable(events)
  {
    ReplyableByType(events);
    EventCountsAt(events, Danmaku);
    EventCountsAt(events, Gift);
    EventCountsAt(events, SuperChat);
  }

  lemma SameKinds(events: seq<Event>, s: Scrubber)
    ensures |Filter(RealReplyable, Sanitized(events, s))| == |Filter(RealReplyable, events)|
    ensures |Filter(SyntheticReplyable, Sanitized(events, s))| == |Filter(SyntheticReplyable, events)|
  {
    hide CleanEvent, RealReplyable, SyntheticReplyable;
    var out := Sanitized(events, s);
    SanitizingKeepsWorkload(events, s);
    FilterCountPointwise(RealReplyable, out, events);
    FilterCountPointwise(SyntheticReplyable, out, events);
  }

  lemma {:induction false} ReplyableSplits(events: seq<Event>)
    ensures CountReplyable(events) == |Filter(RealReplyable, events)| + |Filter(SyntheticReplyable, events)|
  {
    if events != [] { ReplyableSplits(events[1..]); }
  }

  /** Every replyable event is marked real or synthetic: what the pipeline's own streams satisfy. */
  predicate OriginsKnown(events: seq<Event>) {
    forall e :: e in events && Replyable(e) ==> e.payload.origin == Some(Real) || e.payload.origin == Some(Synthetic)
  }

  lemma WrittenRealOrigin(config: WriterConfig, events: seq<Event>, durationMs: int)
    requires WriteOutcome(config, events, durationMs).Ok? && OriginsKnown(events)
    ensures |Filter(RealOrigin, WriteOutcome(config, events, durationMs).value.events)| ==
            |Filter(RealReplyable, events)|
  {
    hide WorkloadOf, CleanEvent, EventCounts;
    var out := Sanitized(events, config.scrubber);
    SanitizingKeepsWorkload(events, config.scrubber);
    forall i | 0 <= i < |events| ensures RealOrigin(out[i]) == RealReplyable(events[i]) {
      assert events[i] in events;
    }
    FilterCountAcross(RealOrigin, RealReplyable, out, events);
  }

  lemma {:induction false} FilterCountAcross(p: Event -> bool, q: Event -> bool, a: seq<Event>, b: seq<Event>)
    requires |a| == |b| && forall i :: 0 <= i < |a| ==> p(a[i]) == q(b[i])
    ensures |Filter(p, a)| == |Filter(q, b)|
  {
    if a != [] { FilterCountAcross(p, q, a[1..], b[1..]); }
  }
}
