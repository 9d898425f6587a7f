/** From reviewed clips to the frozen split: what `apply_review_run` writes passes `_validate_clips`. */
module ReviewToSplit {
  import opened Wrappers
  import opened Sorting
  import opened Distinct
  import opened LogText
  import opened Ledger
  import opened Review
  import opened ReviewStores
  import opened ReviewQueue
  import opened ReviewApply
  import FreezeSplit

  /** The columns of a clip that its processing fills in. */
  predicate Measured(row: ClipRow) {
    Traceable(row) && HasPath(row)
  }

  /** A source id and a digest of 64 hexadecimal digits. */
  predicate Traceable(row: ClipRow) {
    Strip(row.sourceId) != "" && FreezeSplit.HexDigest(Strip(row.audioSha256))
  }

  /** What `_process_source` puts into a clip row: the stripped source id twice, the stripped transcript, and a
      path and digest of the audio it wrote. */
  ghost predicate Processes(process: Processor) {
    forall row: SourceRow | process(row).Some? ::
      var clip := process(row).value;
      && clip.clipId == clip.sourceId == Strip(row.sourceId) && clip.transcript == Strip(row.transcript)
      && Strip(row.sourceId) != "" && Measured(clip)
  }

  lemma StatusWords()
    ensures Strip(ACCEPTED) == ACCEPTED && Strip(REJECTED) == REJECTED
  {}

  /** A decided row with a reviewer and, when accepted, a transcript is valid exactly when it is named and, when
      accepted, measured. */
  lemma RowValidExactly(row: ClipRow)
    requires Decided(row)
    requires Strip(row.reviewer) != "" && (row.reviewStatus == ACCEPTED ==> Strip(row.transcript) != "")
    ensures FreezeSplit.RowValid(row) <==> ClipKey(row) != "" && (row.reviewStatus == ACCEPTED ==> Measured(row))
  {
    hide Strip;
    StatusWords();
    WordsDiffer();
    BlankIsNoDigest();
  }

  lemma BlankIsNoDigest()
    ensures !FreezeSplit.HexDigest("")
  {}

  /** The ids of the unresolved items that are not rejected, in queue order. */
  function AddedIds(log: seq<Entry>, items: seq<Item>): (ids: seq<string>)
    requires AllRecorded(log)
    ensures forall id :: id in ids ==>
              exists j :: 0 <= j < |items| && items[j].origin.Unresolved? && items[j].itemId == id
  {
    if items == [] then []
    else
      var front, last := AddedIds(log, items[..|items| - 1]), items[|items| - 1];
      if last.origin.Unresolved? && DecisionOn(log, last.itemId) != REJECTED then front + [last.itemId] else front
  }

  lemma {:induction false} AddedIdsDistinct(log: seq<Entry>, items: seq<Item>)
    requires AllRecorded(log) && DistinctItems(items)
    ensures NoRepeats(AddedIds(log, items))
  {
    hide DecisionOn;
    if items != [] {
      var front := items[..|items| - 1];
      assert forall i :: 0 <= i < |front| ==> front[i] == items[i];
      AddedIdsDistinct(log, front);
      assert items[|items| - 1].itemId !in AddedIds(log, front);
    }
  }

  /** The rows after the original ones are those of the added items, and valid. */
  ghost predicate AddedRows(log: seq<Entry>, clips: seq<ClipRow>, items: seq<Item>, now: seq<ClipRow>)
    requires AllRecorded(log)
  {
    && |clips| <= |now|
    && Map(ClipKey, now) == Map(ClipKey, clips) + AddedIds(log, items)
    && forall k :: |clips| <= k < |now| ==> FreezeSplit.RowValid(now[k])
  }

  lemma AddedStep(log: seq<Entry>, items: seq<Item>, n: nat)
    requires AllRecorded(log) && n < |items|
    ensures AddedIds(log, items[..n + 1])
            == if items[n].origin.Unresolved? && DecisionOn(log, items[n].itemId) != REJECTED
               then AddedIds(log, items[..n]) + [items[n].itemId] else AddedIds(log, items[..n])
  {
    hide DecisionOn;
    assert items[..n + 1][..n] == items[..n] && items[..n + 1][n] == items[n];
  }

  /** The clip added for an accepted unresolved item. */
  lemma AddedClipValid(process: Processor, items: seq<Item>, log: seq<Entry>, item: Item)
    requires AllKept(items, log) && AllRecorded(log) && Processes(process) && Settled(log, item.itemId)
    requires item.itemId == Strip(item.itemId) && DecisionOn(log, item.itemId) != REJECTED
    requires Recorded(LatestOf(log, item.itemId).value)
    requires process(NewSource(item, LatestOf(log, item.itemId).value)).Some?
    ensures var e := LatestOf(log, item.itemId).value;
            var clip := AcceptedClip(process(NewSource(item, e)).value, e);
            FreezeSplit.RowValid(clip) && ClipKey(clip) == item.itemId
  {
    var e := LatestOf(log, item.itemId).value;
    hide Strip, LatestOf, HumanNotes, Measured, AllKept;
    LatestFits(items, log, item.itemId);
    LatestKept(items, log, item.itemId);
    StripTwice(e.transcript.value.s);
    StripTwice(item.itemId);
    var clip := AcceptedClip(process(NewSource(item, e)).value, e);
    MeasuredKept(process(NewSource(item, e)).value, clip);
    StripTwice(NewSource(item, e).transcript);
    RowValidExactly(clip);
  }

  lemma MeasuredKept(row: ClipRow, next: ClipRow)
    requires Measured(row) && next.sourceId == row.sourceId && next.audioRelpath == row.audioRelpath
             && next.audioSha256 == row.audioSha256
    ensures Measured(next)
  {}

  lemma MeasuredSame(row: ClipRow, next: ClipRow)
    requires next.sourceId == row.sourceId && next.audioRelpath == row.audioRelpath
             && next.audioSha256 == row.audioSha256
    ensures Measured(next) <==> Measured(row)
  {}

  lemma KeysRewritten(clips: seq<ClipRow>, k: nat, row: ClipRow)
    requires k < |clips| && row.clipId == clips[k].clipId
    ensures Map(ClipKey, clips[k := row]) == Map(ClipKey, clips)
  {}

  lemma ApplyItemAdds(process: Processor, log: seq<Entry>, sources: seq<SourceRow>, clips: seq<ClipRow>,
                      items: seq<Item>, n: nat, b: Books)
    requires AllKept(items, log) && AllRecorded(log) && Processes(process) && QueueFits(sources, clips, items)
    requires n < |items| && Settled(log, items[n].itemId)
    requires Progress(log, sources, clips, items[..n], b) && AddedRows(log, clips, items[..n], b.clips)
    ensures var r := ApplyItem(process, log, b, items[n]);
            r.Done? ==> AddedRows(log, clips, items[..n + 1], r.b.clips)
  {
    hide Strip, IndexSources, IndexClips, DecisionOn, Recorded, HumanNotes, AllKept, Processes, NewSource,
         FreezeSplit.RowValid, ClipsSoFar, AddedIds;
    var item := items[n];
    var e := LatestOf(log, item.itemId).value;
    LatestFits(items, log, item.itemId);
    AddedStep(log, items, n);
    if item.origin.Prepared? {
      ClipIndexInRange(clips);
      var k := b.clipsById[item.itemId];
      KeysRewritten(b.clips, k, ReviewedClip(b.clips[k], item, e));
    } else if DecisionOn(log, item.itemId) != REJECTED && process(NewSource(item, e)).Some? {
      AddedClipValid(process, items, log, item);
      MapAppend(ClipKey, b.clips, AcceptedClip(process(NewSource(item, e)).value, e));
    }
  }

  lemma {:induction false} ApplyItemsAdd(process: Processor, log: seq<Entry>, sources: seq<SourceRow>,
                                         clips: seq<ClipRow>, items: seq<Item>, n: nat)
    requires AllKept(items, log) && AllRecorded(log) && Processes(process) && QueueFits(sources, clips, items)
             && n <= |items|
    requires forall i :: 0 <= i < |items| ==> Settled(log, items[i].itemId)
    ensures var r := ApplyItems(process, log, OpenBooks(sources, clips), items[..n]);
            r.Done? ==> AddedRows(log, clips, items[..n], r.b.clips)
  {
    hide AllKept, Processes, QueueFits, Settled, Progress, AddedRows, ApplyItem;
    if n == 0 {
      NothingAdded(log, clips);
    } else {
      ApplyItemsAdd(process, log, sources, clips, items, n - 1);
      ApplyKeepsProgress(process, log, sources, clips, items, n - 1);
      assert items[..n][..n - 1] == items[..n - 1] && items[..n][n - 1] == items[n - 1];
      var before := ApplyItems(process, log, OpenBooks(sources, clips), items[..n - 1]);
      if before.Done? { ApplyItemAdds(process, log, sources, clips, items, n - 1, before.b); }
    }
  }

  lemma NothingAdded(log: seq<Entry>, clips: seq<ClipRow>)
    requires AllRecorded(log)
    ensures AddedRows(log, clips, [], clips)
  {
    assert Map(ClipKey, clips) + [] == Map(ClipKey, clips);
  }

  /** Queued clips and added clips all have different ids. */
  lemma KeysDistinct(log: seq<Entry>, sources: seq<SourceRow>, clips: seq<ClipRow>, items: seq<Item>, now: seq<ClipRow>)
    requires AllRecorded(log) && QueueFits(sources, clips, items) && AddedRows(log, clips, items, now)
    ensures DistinctClips(now)
  {
    hide Strip, IndexSources, AddedIds, FreezeSplit.RowValid;
    var first, added, all := Map(ClipKey, clips), AddedIds(log, items), Map(ClipKey, now);
    AddedIdsDistinct(log, items);
    forall i, j | 0 <= i < |first| && 0 <= j < |added| ensures first[i] != added[j] {
      assert added[j] in added;
      assert first[i] in IndexClips(clips);
    }
    assert all == first + added;
    forall i, j | 0 <= i < j < |now| ensures ClipKey(now[i]) != ClipKey(now[j]) {
      assert all[i] == ClipKey(now[i]) && all[j] == ClipKey(now[j]);
    }
  }

  /** What a queued clip brings along: an id and, if it is accepted, its source and digest. */
  predicate Complete(log: seq<Entry>, clip: ClipRow)
    requires AllRecorded(log)
  {
    ClipKey(clip) != "" && (DecisionOn(log, ClipKey(clip)) == ACCEPTED ==> Traceable(clip))
  }

  /** A queued clip after its decision. */
  lemma QueuedClipExactly(log: seq<Entry>, sources: seq<SourceRow>, clips: seq<ClipRow>, items: seq<Item>,
                          now: seq<ClipRow>, k: nat)
    requires AllKept(items, log) && AllRecorded(log) && QueueFits(sources, clips, items) && k < |clips|
    requires forall j :: 0 <= j < |items| ==> ClipReviewed(log, clips, now, items[j])
    requires forall i :: 0 <= i < |now| ==> Decided(now[i])
    ensures k < |now| && (FreezeSplit.RowValid(now[k]) <==> Complete(log, clips[k]))
  {
    hide Strip, IndexSources, IndexClips, LatestOf, Recorded, AllKept, HumanNotes;
    ClipIndex(clips, k);
    var j :| 0 <= j < |items| && ItemOfClip(items[j], clips[k]);
    assert ClipReviewed(log, clips, now, items[j]);
    AcceptedClipsFilled(items, log, clips, now, items[j]);
    LatestFits(items, log, items[j].itemId);
    hide Measured;
    MeasuredSame(clips[k], now[k]);
    RowValidExactly(now[k]);
  }

  /** Main result: the clip manifest that the apply step writes passes the whole clip validator, so that the split
      can be frozen from it, exactly when every clip of the frozen manifest has an id and, if it was accepted, a
      source id and a digest of 64 hexadecimal digits. */
  lemma AppliedClipsValidExactly(process: Processor, log: seq<Entry>, sources: seq<SourceRow>, clips: seq<ClipRow>,
                                 items: seq<Item>)
    requires AllKept(items, log) && AllRecorded(log) && Ready(items, log) && QueueFits(sources, clips, items)
             && Processes(process)
    ensures var r := ApplyItems(process, log, OpenBooks(sources, clips), items);
            r.Done? ==>
              (FreezeSplit.ValidClips(Sort(ClipIdOrder, r.b.clips))
               <==> forall k :: 0 <= k < |clips| ==> Complete(log, clips[k]))
  {
    hide AllKept, Ready, QueueFits, Processes, Measured, Settled, ApplyItems, OpenBooks, ClipReviewed, Decided, ClipKey,
         ClipIdOrder, FreezeSplit.RowValid, AddedRows, DistinctClips, Complete;
    ReadySettles(items, items, log);
    ApplyBehindGate(process, log, sources, clips, items);
    ApplyItemsAdd(process, log, sources, clips, items, |items|);
    assert items[..|items|] == items;
    var r := ApplyItems(process, log, OpenBooks(sources, clips), items);
    if r.Done? {
      var now := r.b.clips;
      var sorted := Sort(ClipIdOrder, now);
      KeysDistinct(log, sources, clips, items, now);
      AddedValid(log, clips, items, now);
      forall k | 0 <= k < |clips| ensures k < |now| && (FreezeSplit.RowValid(now[k]) <==> Complete(log, clips[k])) {
        QueuedClipExactly(log, sources, clips, items, now, k);
      }
      SortPermutes(ClipIdOrder, now);
      if FreezeSplit.ValidClips(sorted) { FreezeSplit.ValidClipsIgnoreOrder(sorted, now); }
      if FreezeSplit.ValidClips(now) { FreezeSplit.ValidClipsIgnoreOrder(now, sorted); }
    }
  }

  lemma AddedValid(log: seq<Entry>, clips: seq<ClipRow>, items: seq<Item>, now: seq<ClipRow>)
    requires AllRecorded(log) && AddedRows(log, clips, items, now)
    ensures forall k :: |clips| <= k < |now| ==> FreezeSplit.RowValid(now[k])
  {}

  // ----- An accepted clip without a digest

  const SOURCES := [SourceRow("voice-1", "a.wav", "hi", "", "", "", "", "")]
  const CLIPS := [ClipRow("clip-1", "voice-1", "a.wav", "hi", 1800.0, [], "", "pending", "", "")]
  const ACCEPTING := Request("req-1", "clip-1", ACCEPTED, "anna", "hi", "")

  function OnlyItem(): Item {
    Item("clip-1", "voice-1", Prepared, 4, "a.wav", "", "hi", 1800.0, "", "", "", "", "", "")
  }

  lemma WordsStripped()
    ensures Strip("clip-1") == "clip-1" && Strip("voice-1") == "voice-1" && Strip("a.wav") == "a.wav"
    ensures Strip("hi") == "hi" && Strip("anna") == "anna" && Strip("") == "" && Lower("") == ""
  {}

  lemma OnlyItemQueued()
    ensures Queueable(_ => File, SOURCES, CLIPS, [], (_, _) => 4)
    ensures AllItems(SOURCES, CLIPS, [], (_, _) => 4) == [OnlyItem()]
  {
    WordsStripped();
    hide Strip, Lower;
    OnlySource();
    assert AllItems(SOURCES, CLIPS, [], (_, _) => 4) == [OnlyItem()];
  }

  lemma OnlySource()
    ensures IndexSources(SOURCES).Keys == {"voice-1"} && "clip-1" in IndexClips(CLIPS)
    ensures ClipKey(CLIPS[0]) == "clip-1" && HasPath(CLIPS[0])
  {
    WordsStripped();
    hide Strip, Lower;
    assert SourceKey(SOURCES[0]) == "voice-1" && ClipKey(CLIPS[0]) == "clip-1";
  }

  lemma OnlyItemFits()
    ensures QueueFits(SOURCES, CLIPS, [OnlyItem()])
  {
    OnlySource();
    hide Strip, Lower, IndexSources, IndexClips;
    assert ItemOfClip([OnlyItem()][0], CLIPS[0]);
  }

  lemma AcceptingPasses()
    ensures RequestError([OnlyItem()], ACCEPTING).None?
  {
    WordsStripped();
    assert FindItem([OnlyItem()], "clip-1") == Some(OnlyItem());
  }

  /** The one decision in the log accepts the one item, for half an hour. */
  lemma AcceptedLog(c: Codec, runId: string, stamp: Stamp)
    requires Trusted(c) && Plain(runId) && PlainStamp(stamp)
    ensures var (s, answer) := Step(c, runId, [OnlyItem()], State([], map[]), ACCEPTING, stamp);
            && Fresh(answer) && AllRecorded(s.log) && AllKept([OnlyItem()], s.log)
            && DecisionOn(s.log, "clip-1") == ACCEPTED && Ready([OnlyItem()], s.log)
  {
    var items := [OnlyItem()];
    AcceptingPasses();
    KeptFromStart(c, runId, stamp);
    var log := Step(c, runId, items, State([], map[]), ACCEPTING, stamp).0.log;
    assert FirstWith([], ACCEPTING.requestId).None?;
    assert log == [NewEntry(c, runId, items, [], ACCEPTING, stamp)];
    assert LatestOf(log, "clip-1") == Some(log[0]);
    ReadyAlone(log);
  }

  lemma KeptFromStart(c: Codec, runId: string, stamp: Stamp)
    requires Trusted(c) && Plain(runId) && PlainStamp(stamp)
    ensures var log := Step(c, runId, [OnlyItem()], State([], map[]), ACCEPTING, stamp).0.log;
            AllRecorded(log) && AllKept([OnlyItem()], log)
  {
    hide Step;
    assert PlainItems([OnlyItem()]);
    StepKeepsSound(c, runId, [OnlyItem()], State([], map[]), ACCEPTING, stamp);
    SoundRecorded(c, [OnlyItem()], Step(c, runId, [OnlyItem()], State([], map[]), ACCEPTING, stamp).0.log);
  }

  lemma ReadyAlone(log: seq<Entry>)
    requires AllRecorded(log) && DecisionOn(log, "clip-1") == ACCEPTED
    ensures Ready([OnlyItem()], log)
  {
    hide DecisionOn;
    WordsDiffer();
    var items := [OnlyItem()];
    assert items[..|items| - 1] == [];
    assert Having([], log, PENDING) == 0 && Having([], log, DEFERRED) == 0 && AcceptedDuration([], log) == 0.0;
  }

  lemma BlankIncomplete(log: seq<Entry>)
    requires AllRecorded(log) && DecisionOn(log, "clip-1") == ACCEPTED
    ensures !Complete(log, CLIPS[0])
  {
    hide DecisionOn;
    WordsStripped();
    BlankIsNoDigest();
  }

  lemma OnlyPrepared(process: Processor, log: seq<Entry>)
    requires AllRecorded(log)
    ensures !ApplyItems(process, log, OpenBooks(SOURCES, CLIPS), [OnlyItem()]).Unprocessable?
  {
    var items := [OnlyItem()];
    assert items[..0] == [];
    assert ApplyItems(process, log, OpenBooks(SOURCES, CLIPS), []) == Done(OpenBooks(SOURCES, CLIPS));
  }

  /** A concrete review: the queue takes a clip without a digest, its acceptance opens the gate, the apply step
      rewrites it, and the clip validator refuses what was written. */
  lemma BlankDigestIsRefused(c: Codec, runId: string, stamp: Stamp, process: Processor)
    requires Trusted(c) && Plain(runId) && PlainStamp(stamp) && Processes(process)
    ensures Queueable(_ => File, SOURCES, CLIPS, [], (_, _) => 4)
            && AllItems(SOURCES, CLIPS, [], (_, _) => 4) == [OnlyItem()]
    ensures var (s, answer) := Step(c, runId, [OnlyItem()], State([], map[]), ACCEPTING, stamp);
            && Fresh(answer) && AllRecorded(s.log) && Ready([OnlyItem()], s.log)
            && var r := ApplyItems(process, s.log, OpenBooks(SOURCES, CLIPS), [OnlyItem()]);
               r.Done? && !FreezeSplit.ValidClips(Sort(ClipIdOrder, r.b.clips))
  {
    OnlyItemQueued();
    OnlyItemFits();
    var items := [OnlyItem()];
    var (s, answer) := Step(c, runId, items, State([], map[]), ACCEPTING, stamp);
    AcceptingPasses();
    AcceptedLog(c, runId, stamp);
    hide Step, RequestError, Trusted, Processes, AllKept, Strip, Ready, QueueFits;
    ApplyBehindGate(process, s.log, SOURCES, CLIPS, items);
    AppliedClipsValidExactly(process, s.log, SOURCES, CLIPS, items);
    BlankIncomplete(s.log);
    OnlyPrepared(process, s.log);
  }

  lemma ReviewChangesClips(process: Processor, log: seq<Entry>)
    requires AllRecorded(log) && AllKept([OnlyItem()], log) && Ready([OnlyItem()], log)
    ensures var r := ApplyItems(process, log, OpenBooks(SOURCES, CLIPS), [OnlyItem()]);
            r.Done? && Sort(ClipIdOrder, r.b.clips) != CLIPS
  {
    hide AllKept, Ready, QueueFits, Decided, Recorded;
    OnlyItemFits();
    ApplyBehindGate(process, log, SOURCES, CLIPS, [OnlyItem()]);
    OnlyPrepared(process, log);
    var r := ApplyItems(process, log, OpenBooks(SOURCES, CLIPS), [OnlyItem()]);
    hide ApplyItems, OpenBooks, OnlyItem;
    SortKeepsDecided(r.b.clips);
    PendingUndecided();
  }

  lemma PlanOfApplied(c: Codec, runId: string, items: seq<Item>, log: seq<Entry>, process: Processor,
                      digests: Digests)
    requires AllRecorded(log) && Ready(items, log) && ReadOutcome(log, 0).Ok?
    requires digests.ofSources(SOURCES) == digests.sources && digests.ofClips(CLIPS) == digests.clips
    requires ApplyItems(process, log, OpenBooks(SOURCES, CLIPS), items).Done?
    ensures var planned := Outcome(c, runId, items, log, Manifests(SOURCES, CLIPS), digests, process, runId, false);
            && planned.Ok?
            && planned.value.0.clips ==
               Sort(ClipIdOrder, ApplyItems(process, log, OpenBooks(SOURCES, CLIPS), items).b.clips)
  {
    hide Recorded, Ready, ReadOutcome, ApplyItems, OpenBooks, Sort, ReceiptOf, StatusOf;
  }

  /** The same review plans other manifests than it found. */
  lemma ReviewPlansChange(c: Codec, runId: string, stamp: Stamp, process: Processor, digests: Digests)
    requires Trusted(c) && Plain(runId) && PlainStamp(stamp) && FrozenFrom(digests, SOURCES, CLIPS)
    requires AllRecorded(Step(c, runId, [OnlyItem()], State([], map[]), ACCEPTING, stamp).0.log)
    ensures var log := Step(c, runId, [OnlyItem()], State([], map[]), ACCEPTING, stamp).0.log;
            var planned := Outcome(c, runId, [OnlyItem()], log, Manifests(SOURCES, CLIPS), digests, process, runId,
                                   false);
            planned.Ok? && planned.value.0 != Manifests(SOURCES, CLIPS)
  {
    hide Step, Trusted, AllKept, Ready, QueueFits, FrozenFrom, Recorded, ReadOutcome, Outcome, ApplyItems, OpenBooks,
         Sort, Plain, PlainStamp, OnlyItem;
    AcceptedLog(c, runId, stamp);
    AcceptedReadable(c, runId, stamp);
    FrozenDigests(digests);
    var log := Step(c, runId, [OnlyItem()], State([], map[]), ACCEPTING, stamp).0.log;
    ReviewChangesClips(process, log);
    PlanOfApplied(c, runId, [OnlyItem()], log, process, digests);
  }

  /** With a failing receipt write the manifests change and no receipt says so. */
  lemma ReceiptIsLost(c: Codec, runId: string, stamp: Stamp, process: Processor, digests: Digests)
    requires Trusted(c) && Plain(runId) && PlainStamp(stamp) && FrozenFrom(digests, SOURCES, CLIPS)
    requires AllRecorded(Step(c, runId, [OnlyItem()], State([], map[]), ACCEPTING, stamp).0.log)
    ensures var log := Step(c, runId, [OnlyItem()], State([], map[]), ACCEPTING, stamp).0.log;
            var files := Files(Manifests(SOURCES, CLIPS), None);
            var (after, answer) := ApplyStep(c, runId, [OnlyItem()], files, digests,
                                             Attempt(log, process, runId, Writes(true, true, false)));
            answer == Err(ReceiptLost) && after.receipt.None? && after.manifests != files.manifests
  {
    hide Step, Outcome, Trusted, FrozenFrom, Recorded, OnlyItem, Plain, PlainStamp;
    ReviewPlansChange(c, runId, stamp, process, digests);
  }

  lemma FrozenDigests(digests: Digests)
    requires FrozenFrom(digests, SOURCES, CLIPS)
    ensures digests.ofSources(SOURCES) == digests.sources && digests.ofClips(CLIPS) == digests.clips
  {}

  lemma PendingUndecided()
    ensures !Decided(CLIPS[0])
  {
    WordsDiffer();
  }

  lemma AcceptedReadable(c: Codec, runId: string, stamp: Stamp)
    requires Trusted(c) && Plain(runId) && PlainStamp(stamp)
    requires AllRecorded(Step(c, runId, [OnlyItem()], State([], map[]), ACCEPTING, stamp).0.log)
    ensures ReadOutcome(Step(c, runId, [OnlyItem()], State([], map[]), ACCEPTING, stamp).0.log, 0).Ok?
  {
    hide Step;
    WordsStripped();
    assert PlainItems([OnlyItem()]) && PlainRequest(ACCEPTING);
    ReadableExactly(c, runId, [OnlyItem()], State([], map[]), ACCEPTING, stamp);
    ReadsWhole(Step(c, runId, [OnlyItem()], State([], map[]), ACCEPTING, stamp).0.log);
  }
}
