/** Writing the latest decisions back to the manifests: `apply_review_run`. */
module ReviewApply {
  import opened Wrappers
  import opened Sorting
  import opened LogText
  import opened Ledger
  import opened Review
  import opened ReviewStores
  import opened ReviewQueue
  import VodCapture

  /** `_process_source`: the clip row of a new source, or nothing when its audio cannot be processed. */
  type Processor = SourceRow -> Option<ClipRow>

  function HumanNotes(automatic: string, human: string): string {
    if human == "" then automatic
    else if automatic == "" then "human_note=" + human
    else automatic + "; human_note=" + human
  }

  /** The manifest rows as they are rewritten, with the row number of every id, and the three counters. */
  datatype Books = Books(
    sources: seq<SourceRow>, clips: seq<ClipRow>, sourcesById: map<string, nat>, clipsById: map<string, nat>,
    added: nat, excluded: nat, updates: nat)
  {
    predicate Valid() {
      && (forall id :: id in sourcesById ==> sourcesById[id] < |sources|)
      && (forall id :: id in clipsById ==> clipsById[id] < |clips|)
    }
  }

  datatype Applied = Done(b: Books) | Unprocessable(id: string) | MissingLookup

  function OpenBooks(sources: seq<SourceRow>, clips: seq<ClipRow>): (b: Books)
    ensures b.Valid()
  {
    Books(sources, clips, IndexSources(sources), IndexClips(clips), 0, 0, 0)
  }

  function NewSource(item: Item, e: Entry): SourceRow
    requires Recorded(e)
  {
    SourceRow(item.itemId, item.audioRelpath, Strip(e.transcript.value.s), item.sourceReference, item.usageRights,
              item.speaker, item.scene, item.sourceNotes)
  }

  /** A queued clip after its decision. */
  function ReviewedClip(row: ClipRow, item: Item, e: Entry): ClipRow
    requires Recorded(e)
  {
    row.(transcript := Strip(e.transcript.value.s), reviewStatus := e.decision.value.s, reviewer := e.reviewer.value.s,
         reviewNotes := HumanNotes(item.automaticReviewNotes, e.notes.value.s))
  }

  function AcceptedClip(row: ClipRow, e: Entry): ClipRow
    requires Recorded(e)
  {
    row.(reviewStatus := ACCEPTED, reviewer := e.reviewer.value.s,
         reviewNotes := HumanNotes(row.reviewNotes, e.notes.value.s))
  }

  function AddUnresolved(process: Processor, b: Books, item: Item, e: Entry): (r: Applied)
    requires b.Valid() && Recorded(e)
    ensures r.Done? ==> r.b.Valid()
  {
    if e.decision.value.s == REJECTED then Done(b.(excluded := b.excluded + 1))
    else
      match process(NewSource(item, e))
      case None => Unprocessable(item.itemId)
      case Some(clip) =>
        Done(b.(sources := b.sources + [NewSource(item, e)], clips := b.clips + [AcceptedClip(clip, e)],
                sourcesById := b.sourcesById[item.itemId := |b.sources|],
                    clipsById := b.clipsById[item.itemId := |b.clips|],
                added := b.added + 1))
  }

  function RewritePrepared(b: Books, item: Item, e: Entry): (r: Applied)
    requires b.Valid() && Recorded(e)
    ensures r.Done? ==> r.b.Valid()
  {
    if item.sourceId !in b.sourcesById || item.itemId !in b.clipsById then MissingLookup
    else
      var i, k := b.sourcesById[item.sourceId], b.clipsById[item.itemId];
      Done(b.(sources := b.sources[i := b.sources[i].(transcript := Strip(e.transcript.value.s))],
              clips := b.clips[k := ReviewedClip(b.clips[k], item, e)]))
  }

  function CountUpdate(b: Books, item: Item, e: Entry): (r: Books)
    requires Recorded(e)
    ensures r == b.(updates := r.updates)
  {
    if Strip(e.transcript.value.s) != item.transcript then b.(updates := b.updates + 1) else b
  }

  /** One queue item. */
  function ApplyItem(process: Processor, log: seq<Entry>, b: Books, item: Item): (r: Applied)
    requires AllRecorded(log) && b.Valid()
    ensures r.Done? ==> r.b.Valid()
  {
    var latest := LatestOf(log, item.itemId);
    if latest.None? then MissingLookup
    else
      var counted := CountUpdate(b, item, latest.value);
      if item.origin.Unresolved? then AddUnresolved(process, counted, item, latest.value)
      else RewritePrepared(counted, item, latest.value)
  }

  /** The whole queue, in order, stopping at the first item that fails. */
  function ApplyItems(process: Processor, log: seq<Entry>, b: Books, items: seq<Item>): (r: Applied)
    requires AllRecorded(log) && b.Valid()
    ensures r.Done? ==> r.b.Valid()
  {
    if items == [] then Done(b) else
      var before := ApplyItems(process, log, b, items[..|items| - 1]);
      if before.Done? then ApplyItem(process, log, before.b, items[|items| - 1]) else before
  }

  // ----- What the gate guarantees

  predicate Settled(log: seq<Entry>, id: string)
    requires AllRecorded(log)
  {
    LatestOf(log, id).Some? && (DecisionOn(log, id) == ACCEPTED || DecisionOn(log, id) == REJECTED)
  }

  function UnresolvedCount(items: seq<Item>): nat {
    if items == [] then 0 else
      UnresolvedCount(items[..|items| - 1]) + if items[|items| - 1].origin.Unresolved? then 1 else 0
  }

  /** The row of a queued clip once item `j` has been applied. */
  predicate ClipReviewed(log: seq<Entry>, clips: seq<ClipRow>, now: seq<ClipRow>, item: Item)
    requires AllRecorded(log)
  {
    item.origin.Prepared? ==>
      && item.itemId in IndexClips(clips) && IndexClips(clips)[item.itemId] < |clips| <= |now|
      && LatestOf(log, item.itemId).Some?
      && now[IndexClips(clips)[item.itemId]]
         == ReviewedClip(clips[IndexClips(clips)[item.itemId]], item, LatestOf(log, item.itemId).value)
  }

  /** No item so far names clip `k`. */
  predicate Untouched(clips: seq<ClipRow>, items: seq<Item>, k: nat)
    requires k < |clips|
  {
    forall j :: 0 <= j < |items| && items[j].origin.Prepared? ==> items[j].itemId != ClipKey(clips[k])
  }

  /** Clip rows after the first items: reviewed when named, untouched otherwise, accepted when new. */
  ghost predicate ClipsSoFar(log: seq<Entry>, clips: seq<ClipRow>, items: seq<Item>, now: seq<ClipRow>)
    requires AllRecorded(log)
  {
    && |clips| <= |now|
    && (forall j :: 0 <= j < |items| ==> ClipReviewed(log, clips, now, items[j]))
    && (forall k :: 0 <= k < |clips| && Untouched(clips, items, k) ==> now[k] == clips[k])
    && (forall k :: |clips| <= k < |now| ==> now[k].reviewStatus == ACCEPTED)
  }

  /** The dictionaries still find every original row where it was. */
  predicate Finds(found: map<string, nat>, start: map<string, nat>) {
    forall id :: id in start ==> id in found && found[id] == start[id]
  }

  /** The invariant of the apply loop. */
  ghost predicate Progress(log: seq<Entry>, sources: seq<SourceRow>, clips: seq<ClipRow>, items: seq<Item>, b: Books)
    requires AllRecorded(log)
  {
    && b.Valid() && |b.sources| == |sources| + b.added && |b.clips| == |clips| + b.added
    && Finds(b.sourcesById, IndexSources(sources)) && Finds(b.clipsById, IndexClips(clips))
    && ClipsSoFar(log, clips, items, b.clips)
    && b.added + b.excluded == UnresolvedCount(items)
  }

  lemma ClipIndex(clips: seq<ClipRow>, k: nat)
    requires DistinctClips(clips) && k < |clips|
    ensures ClipKey(clips[k]) in IndexClips(clips) && IndexClips(clips)[ClipKey(clips[k])] == k
  {
    hide Strip;
    var i := IndexClips(clips)[ClipKey(clips[k])];
    assert ClipKey(clips[i]) == ClipKey(clips[k]);
  }

  lemma UntouchedBefore(clips: seq<ClipRow>, items: seq<Item>, n: nat, k: nat)
    requires n < |items| && k < |clips|
    ensures Untouched(clips, items[..n + 1], k) <==>
            Untouched(clips, items[..n], k) && (items[n].origin.Prepared? ==> items[n].itemId != ClipKey(clips[k]))
  {
    hide Strip, ClipKey;
    var before, after := items[..n], items[..n + 1];
    assert after == before + [items[n]];
    assert forall j :: 0 <= j < |before| ==> before[j] == after[j];
  }

  lemma NamedOnce(clips: seq<ClipRow>, items: seq<Item>, n: nat, k: nat)
    requires DistinctItems(items) && n < |items| && k < |clips| && ClipKey(clips[k]) == items[n].itemId
    ensures Untouched(clips, items[..n], k)
  {
    hide Strip;
    var before := items[..n];
    assert forall j :: 0 <= j < |before| ==> before[j] == items[j];
  }

  /** Reviewed rows stay reviewed when another row is written. */
  lemma ReviewedStays(log: seq<Entry>, clips: seq<ClipRow>, now: seq<ClipRow>, next: seq<ClipRow>, item: Item,
                      other: Item)
    requires AllRecorded(log) && item.itemId != other.itemId && other.itemId in IndexClips(clips)
    requires var k := IndexClips(clips)[other.itemId]; k < |now| && |next| == |now| && next == now[k := next[k]]
    requires ClipReviewed(log, clips, now, item)
    ensures ClipReviewed(log, clips, next, item)
  {
    hide Strip, LatestOf, Recorded, ReviewedClip;
    if item.origin.Prepared? {
      assert ClipKey(clips[IndexClips(clips)[item.itemId]]) == item.itemId;
      assert ClipKey(clips[IndexClips(clips)[other.itemId]]) == other.itemId;
    }
  }

  /** Reviewing one more clip. */
  lemma ReviewOne(log: seq<Entry>, clips: seq<ClipRow>, items: seq<Item>, n: nat, now: seq<ClipRow>, next: seq<ClipRow>)
    requires AllRecorded(log) && DistinctItems(items) && DistinctClips(clips) && n < |items|
             && items[n].origin.Prepared?
    requires ClipsSoFar(log, clips, items[..n], now)
    requires items[n].itemId in IndexClips(clips) && LatestOf(log, items[n].itemId).Some?
    requires var k := IndexClips(clips)[items[n].itemId];
             k < |clips| && next == now[k := ReviewedClip(now[k], items[n], LatestOf(log, items[n].itemId).value)]
    ensures ClipsSoFar(log, clips, items[..n + 1], next)
  {
    hide ReviewedClip, LatestOf, Recorded, Strip, Untouched;
    var k := IndexClips(clips)[items[n].itemId];
    assert ClipKey(clips[k]) == items[n].itemId;
    NamedOnce(clips, items, n, k);
    var after := items[..n + 1];
    assert after[n] == items[n];
    hide IndexClips;
    forall j | 0 <= j < |after| ensures ClipReviewed(log, clips, next, after[j]) {
      assert after[j] == items[j];
      if j < n {
        assert ClipReviewed(log, clips, now, items[..n][j]);
        ReviewedStays(log, clips, now, next, items[j], items[n]);
      }
    }
    forall i | 0 <= i < |clips| && Untouched(clips, after, i) ensures next[i] == clips[i] {
      UntouchedBefore(clips, items, n, i);
    }
  }

  /** An unresolved item leaves the queued clips alone and may add one accepted clip. */
  lemma PassUnresolved(log: seq<Entry>, clips: seq<ClipRow>, items: seq<Item>, n: nat, now: seq<ClipRow>,
                       more: seq<ClipRow>)
    requires AllRecorded(log) && n < |items| && items[n].origin.Unresolved?
    requires ClipsSoFar(log, clips, items[..n], now)
    requires forall k :: 0 <= k < |more| ==> more[k].reviewStatus == ACCEPTED
    ensures ClipsSoFar(log, clips, items[..n + 1], now + more)
  {
    hide ReviewedClip, LatestOf, Recorded, Strip, IndexClips, Untouched;
    var next, after := now + more, items[..n + 1];
    forall j | 0 <= j < |after| ensures ClipReviewed(log, clips, next, after[j]) {
      if j < n { assert ClipReviewed(log, clips, now, items[..n][j]) && items[..n][j] == after[j]; }
    }
    forall k | 0 <= k < |clips| && Untouched(clips, after, k) ensures next[k] == clips[k] {
      UntouchedBefore(clips, items, n, k);
    }
  }

  lemma LatestFits(items: seq<Item>, log: seq<Entry>, id: string)
    requires AllRecorded(log) && LatestOf(log, id).Some?
    ensures Recorded(LatestOf(log, id).value) && DecisionOn(log, id) == LatestOf(log, id).value.decision.value.s
  {}

  lemma UnresolvedStep(items: seq<Item>, n: nat)
    requires n < |items|
    ensures UnresolvedCount(items[..n + 1]) == UnresolvedCount(items[..n])
            + if items[n].origin.Unresolved? then 1 else 0
  {
    assert items[..n + 1][..n] == items[..n];
  }

  /** One settled item: no lookup fails, and the loop invariant survives. */
  lemma ApplyItemKeepsProgress(process: Processor, log: seq<Entry>, sources: seq<SourceRow>, clips: seq<ClipRow>,
                               items: seq<Item>, n: nat, b: Books)
    requires AllRecorded(log) && QueueFits(sources, clips, items) && n < |items| && Settled(log, items[n].itemId)
    requires Progress(log, sources, clips, items[..n], b)
    ensures var r := ApplyItem(process, log, b, items[n]);
            !r.MissingLookup? && (r.Done? ==> Progress(log, sources, clips, items[..n + 1], r.b))
  {
    hide ReviewedClip, Strip, ClipsSoFar, NewSource, IndexSources, IndexClips, Recorded, DecisionOn;
    var item := items[n];
    var e := LatestOf(log, item.itemId).value;
    LatestFits(items, log, item.itemId);
    UnresolvedStep(items, n);
    ClipIndexInRange(clips);
    if item.origin.Prepared? {
      ReviewOne(log, clips, items, n, b.clips,
                b.clips[b.clipsById[item.itemId] := ReviewedClip(b.clips[b.clipsById[item.itemId]], item, e)]);
    } else {
      PassUnresolved(log, clips, items, n, b.clips, []);
      assert b.clips + [] == b.clips;
      var made := process(NewSource(item, e));
      if made.Some? { PassUnresolved(log, clips, items, n, b.clips, [AcceptedClip(made.value, e)]); }
    }
  }

  lemma ClipIndexInRange(clips: seq<ClipRow>)
    ensures forall id :: id in IndexClips(clips) ==> IndexClips(clips)[id] < |clips|
  {}

  lemma OpenProgress(log: seq<Entry>, sources: seq<SourceRow>, clips: seq<ClipRow>)
    requires AllRecorded(log)
    ensures Progress(log, sources, clips, [], OpenBooks(sources, clips))
  {}

  lemma {:induction false} ApplyKeepsProgress(process: Processor, log: seq<Entry>, sources: seq<SourceRow>,
          clips: seq<ClipRow>,
                                              items: seq<Item>, n: nat)
    requires AllRecorded(log) && QueueFits(sources, clips, items) && n <= |items|
    requires forall i :: 0 <= i < |items| ==> Settled(log, items[i].itemId)
    ensures var r := ApplyItems(process, log, OpenBooks(sources, clips), items[..n]);
            !r.MissingLookup? && (r.Done? ==> Progress(log, sources, clips, items[..n], r.b))
  {
    hide Progress, QueueFits, Settled, ApplyItem, OpenBooks;
    if n == 0 {
      OpenProgress(log, sources, clips);
    } else {
      ApplyKeepsProgress(process, log, sources, clips, items, n - 1);
      assert items[..n][..n - 1] == items[..n - 1] && items[..n][n - 1] == items[n - 1];
      var before := ApplyItems(process, log, OpenBooks(sources, clips), items[..n - 1]);
      if before.Done? { ApplyItemKeepsProgress(process, log, sources, clips, items, n - 1, before.b); }
    }
  }

  lemma ReadySettles(all: seq<Item>, items: seq<Item>, log: seq<Entry>)
    requires AllKept(all, log) && AllRecorded(log) && Ready(items, log)
    ensures forall i :: 0 <= i < |items| ==> Settled(log, items[i].itemId)
  {
    hide DecisionOn, LatestOf, AllKept;
    ReadyExactly(all, items, log);
  }

  predicate Decided(row: ClipRow) {
    row.reviewStatus == ACCEPTED || row.reviewStatus == REJECTED
  }

  /** Main result: behind the gate no lookup ever fails; every clip row is left accepted or rejected, with the
      latest decision of its own item; and the unresolved items are all either added or excluded. */
  lemma ApplyBehindGate(process: Processor, log: seq<Entry>, sources: seq<SourceRow>, clips: seq<ClipRow>,
                        items: seq<Item>)
    requires AllKept(items, log) && AllRecorded(log) && Ready(items, log) && QueueFits(sources, clips, items)
    ensures var r := ApplyItems(process, log, OpenBooks(sources, clips), items);
            && !r.MissingLookup?
            && (r.Done? ==>
                  && r.b.added + r.b.excluded == UnresolvedCount(items)
                  && |r.b.sources| == |sources| + r.b.added && |r.b.clips| == |clips| + r.b.added
                  && (forall j :: 0 <= j < |items| ==> ClipReviewed(log, clips, r.b.clips, items[j]))
                  && (forall k :: 0 <= k < |r.b.clips| ==> Decided(r.b.clips[k])))
  {
    hide Ready, AllKept, ApplyItems, ApplyItem, OpenBooks, Settled;
    ReadySettles(items, items, log);
    ApplyKeepsProgress(process, log, sources, clips, items, |items|);
    assert items[..|items|] == items;
    var r := ApplyItems(process, log, OpenBooks(sources, clips), items);
    if r.Done? { AllDecided(log, sources, clips, items, r.b.clips); }
  }

  lemma AllDecided(log: seq<Entry>, sources: seq<SourceRow>, clips: seq<ClipRow>, items: seq<Item>, now: seq<ClipRow>)
    requires AllRecorded(log) && QueueFits(sources, clips, items) && ClipsSoFar(log, clips, items, now)
    requires forall i :: 0 <= i < |items| ==> Settled(log, items[i].itemId)
    ensures forall k :: 0 <= k < |now| ==> Decided(now[k])
  {
    hide Recorded, LatestOf, Strip, IndexSources, IndexClips;
    forall k | 0 <= k < |now| ensures Decided(now[k]) {
      if k < |clips| {
        ClipIndex(clips, k);
        var j :| 0 <= j < |items| && ItemOfClip(items[j], clips[k]);
        assert ClipReviewed(log, clips, now, items[j]) && Settled(log, items[j].itemId);
        LatestFits(items, log, items[j].itemId);
      }
    }
  }

  /** A clip that ends up accepted has a non-blank transcript and reviewer, as the clip validator demands. */
  lemma AcceptedClipsFilled(items: seq<Item>, log: seq<Entry>, clips: seq<ClipRow>, now: seq<ClipRow>, item: Item)
    requires AllKept(items, log) && AllRecorded(log) && item.origin.Prepared? && ClipReviewed(log, clips, now, item)
    ensures var row := now[IndexClips(clips)[item.itemId]];
            && (row.reviewStatus == ACCEPTED || row.reviewStatus == REJECTED || row.reviewStatus == DEFERRED)
            && Strip(row.reviewer) != "" && (row.reviewStatus == ACCEPTED ==> Strip(row.transcript) != "")
  {
    hide Strip, IndexClips, LatestOf, HumanNotes;
    var e := LatestOf(log, item.itemId).value;
    LatestKept(items, log, item.itemId);
    StripTwice(e.transcript.value.s);
  }

  lemma LatestKept(items: seq<Item>, log: seq<Entry>, id: string)
    requires AllKept(items, log) && LatestOf(log, id).Some?
    ensures Kept(items, LatestOf(log, id).value)
  {
    hide Kept;
    var i :| 0 <= i < |log| && log[i] == LatestOf(log, id).value;
  }

  // ----- What the write-back promises

  /** The event decides this word. */
  predicate Decides(e: Option<Entry>, word: string) {
    e.Some? && e.value.decision == Some(Text(word))
  }

  /** The stripped transcript of the latest event on an item. */
  function FinalText(log: seq<Entry>, item: Item): string
    requires AllRecorded(log) && LatestOf(log, item.itemId).Some?
  {
    RecordedTexts(log, item.itemId);
    Strip(LatestOf(log, item.itemId).value.transcript.value.s)
  }

  lemma RecordedTexts(log: seq<Entry>, id: string)
    requires AllRecorded(log) && LatestOf(log, id).Some?
    ensures Recorded(LatestOf(log, id).value)
  {}

  predicate WithNote(automatic: string, human: string, notes: string) {
    notes == if human == "" then automatic
             else if automatic == "" then "human_note=" + human else automatic + "; human_note=" + human
  }

  /** The item rewrites source row `i`. */
  predicate Rewrites(sources: seq<SourceRow>, item: Item, i: nat) {
    item.origin.Prepared? && item.sourceId in IndexSources(sources) && IndexSources(sources)[item.sourceId] == i
  }

  /** A source row keeps everything but its transcript, which is that of the last item of the queue on it. */
  ghost predicate RightSource(log: seq<Entry>, sources: seq<SourceRow>, items: seq<Item>, i: nat, row: SourceRow)
    requires AllRecorded(log) && i < |sources|
  {
    && row == sources[i].(transcript := row.transcript)
    && ((forall j :: 0 <= j < |items| ==> !Rewrites(sources, items[j], i)) ==> row == sources[i])
    && forall j :: 0 <= j < |items| && Rewrites(sources, items[j], i)
                   && (forall k :: j < k < |items| ==> !Rewrites(sources, items[k], i))
                   ==> LatestOf(log, items[j].itemId).Some? && row.transcript == FinalText(log, items[j])
  }

  /** A queued clip keeps everything but what was reviewed. */
  ghost predicate RightClip(log: seq<Entry>, item: Item, before: ClipRow, after: ClipRow)
    requires AllRecorded(log)
  {
    && LatestOf(log, item.itemId).Some?
    && var e := LatestOf(log, item.itemId).value;
       && after == before.(transcript := FinalText(log, item), reviewStatus := after.reviewStatus,
                           reviewer := after.reviewer, reviewNotes := after.reviewNotes)
       && e.decision == Some(Text(after.reviewStatus)) && e.reviewer == Some(Text(after.reviewer))
       && e.notes.Some? && e.notes.value.Text?
       && WithNote(item.automaticReviewNotes, e.notes.value.s, after.reviewNotes)
  }

  /** The rows added for an unresolved item: its own columns with the reviewed text, and the processed clip,
      accepted. */
  ghost predicate RightAddition(process: Processor, log: seq<Entry>, item: Item, source: SourceRow, clip: ClipRow)
    requires AllRecorded(log)
  {
    && LatestOf(log, item.itemId).Some?
    && var e := LatestOf(log, item.itemId).value;
       && source == SourceRow(item.itemId, item.audioRelpath, FinalText(log, item), item.sourceReference,
                              item.usageRights, item.speaker, item.scene, item.sourceNotes)
       && process(source).Some?
       && clip == process(source).value.(reviewStatus := "accepted", reviewer := clip.reviewer,
                                         reviewNotes := clip.reviewNotes)
       && e.reviewer == Some(Text(clip.reviewer)) && e.notes.Some? && e.notes.value.Text?
       && WithNote(process(source).value.reviewNotes, e.notes.value.s, clip.reviewNotes)
  }

  /** The unresolved items that enter the manifests, in queue order, and those that are left out. */
  ghost function Entering(log: seq<Entry>, items: seq<Item>): seq<Item> {
    Filter((i: Item) => i.origin.Unresolved? && !Decides(LatestOf(log, i.itemId), "rejected"), items)
  }

  ghost function LeftOut(log: seq<Entry>, items: seq<Item>): seq<Item> {
    Filter((i: Item) => i.origin.Unresolved? && Decides(LatestOf(log, i.itemId), "rejected"), items)
  }

  ghost function Retold(log: seq<Entry>, items: seq<Item>): seq<Item>
    requires AllRecorded(log)
  {
    Filter((i: Item) => LatestOf(log, i.itemId).Some? && FinalText(log, i) != i.transcript, items)
  }

  /** What the rewritten rows and the three counters promise. */
  ghost predicate RightBooks(process: Processor, log: seq<Entry>, sources: seq<SourceRow>, clips: seq<ClipRow>,
                             items: seq<Item>, b: Books)
    requires AllRecorded(log)
  {
    var entering := Entering(log, items);
    && |b.sources| == |sources| + |entering| && |b.clips| == |clips| + |entering|
    && (forall i :: 0 <= i < |sources| ==> RightSource(log, sources, items, i, b.sources[i]))
    && (forall j :: 0 <= j < |items| && items[j].origin.Prepared? ==>
          && items[j].itemId in IndexClips(clips) && IndexClips(clips)[items[j].itemId] < |clips|
          && RightClip(log, items[j], clips[IndexClips(clips)[items[j].itemId]],
                       b.clips[IndexClips(clips)[items[j].itemId]]))
    && (forall k :: 0 <= k < |clips| && Untouched(clips, items, k) ==> b.clips[k] == clips[k])
    && (forall k :: 0 <= k < |entering| ==>
          RightAddition(process, log, entering[k], b.sources[|sources| + k], b.clips[|clips| + k]))
    && b.added == |entering| && b.excluded == |LeftOut(log, items)| && b.updates == |Retold(log, items)|
  }

  lemma ReviewedIsRight(log: seq<Entry>, item: Item, before: ClipRow)
    requires AllRecorded(log) && LatestOf(log, item.itemId).Some? && Recorded(LatestOf(log, item.itemId).value)
    ensures RightClip(log, item, before, ReviewedClip(before, item, LatestOf(log, item.itemId).value))
  {
    hide Strip, LatestOf;
  }

  lemma AdditionIsRight(process: Processor, log: seq<Entry>, item: Item)
    requires AllRecorded(log) && LatestOf(log, item.itemId).Some? && Recorded(LatestOf(log, item.itemId).value)
    requires process(NewSource(item, LatestOf(log, item.itemId).value)).Some?
    ensures var e := LatestOf(log, item.itemId).value;
            var source := NewSource(item, e);
            RightAddition(process, log, item, source, AcceptedClip(process(source).value, e))
  {
    hide Strip, LatestOf;
  }

  /** One more item in the three selections. */
  lemma SelectionsStep(log: seq<Entry>, items: seq<Item>, n: nat)
    requires AllRecorded(log) && n < |items| && LatestOf(log, items[n].itemId).Some?
    requires Recorded(LatestOf(log, items[n].itemId).value)
    ensures var item, e := items[n], LatestOf(log, items[n].itemId).value;
            && Entering(log, items[..n + 1]) == Entering(log, items[..n])
               + (if item.origin.Unresolved? && e.decision.value.s != REJECTED then [item] else [])
            && |LeftOut(log, items[..n + 1])| == |LeftOut(log, items[..n])|
               + (if item.origin.Unresolved? && e.decision.value.s == REJECTED then 1 else 0)
            && |Retold(log, items[..n + 1])| == |Retold(log, items[..n])|
               + (if Strip(e.transcript.value.s) != item.transcript then 1 else 0)
  {
    hide Strip, LatestOf;
    assert items[..n + 1] == items[..n] + [items[n]];
    FilterAppend((i: Item) => i.origin.Unresolved? && !Decides(LatestOf(log, i.itemId), "rejected"), items[..n],
                 items[n]);
    FilterAppend((i: Item) => i.origin.Unresolved? && Decides(LatestOf(log, i.itemId), "rejected"), items[..n],
                 items[n]);
    FilterAppend((i: Item) => LatestOf(log, i.itemId).Some? && FinalText(log, i) != i.transcript, items[..n], items[n]);
  }

  /** The source rows after one more item. */
  ghost predicate SourcesSoFar(log: seq<Entry>, sources: seq<SourceRow>, items: seq<Item>, now: seq<SourceRow>)
    requires AllRecorded(log)
  {
    |sources| <= |now| && forall i :: 0 <= i < |sources| ==> RightSource(log, sources, items, i, now[i])
  }

  lemma OneMoreItem(items: seq<Item>, n: nat)
    requires n < |items|
    ensures |items[..n + 1]| == n + 1 && items[..n + 1][n] == items[n]
    ensures forall j :: 0 <= j < n ==> items[..n + 1][j] == items[..n][j]
  {}

  lemma SourceKept(log: seq<Entry>, sources: seq<SourceRow>, items: seq<Item>, n: nat, i: nat, row: SourceRow)
    requires AllRecorded(log) && n < |items| && i < |sources| && RightSource(log, sources, items[..n], i, row)
    requires !Rewrites(sources, items[n], i)
    ensures RightSource(log, sources, items[..n + 1], i, row)
  {
    hide Strip, LatestOf, IndexSources, FinalText, Recorded, Rewrites;
    OneMoreItem(items, n);
    var before, after := items[..n], items[..n + 1];
    if forall j :: 0 <= j < |after| ==> !Rewrites(sources, after[j], i) {
      forall j | 0 <= j < n ensures !Rewrites(sources, before[j], i) { assert after[j] == before[j]; }
    }
    forall j | 0 <= j < |after| && Rewrites(sources, after[j], i)
               && forall k :: j < k < |after| ==> !Rewrites(sources, after[k], i)
      ensures LatestOf(log, after[j].itemId).Some? && row.transcript == FinalText(log, after[j])
    {
      assert j < n && after[j] == before[j];
      forall k | j < k < n ensures !Rewrites(sources, before[k], i) { assert after[k] == before[k]; }
    }
  }

  lemma SourceReplaced(log: seq<Entry>, sources: seq<SourceRow>, items: seq<Item>, n: nat, i: nat, row: SourceRow)
    requires AllRecorded(log) && n < |items| && i < |sources| && RightSource(log, sources, items[..n], i, row)
    requires LatestOf(log, items[n].itemId).Some? && Rewrites(sources, items[n], i)
    ensures RightSource(log, sources, items[..n + 1], i, row.(transcript := FinalText(log, items[n])))
  {
    hide Strip, LatestOf, IndexSources, FinalText, Recorded, Rewrites;
    OneMoreItem(items, n);
    var after, next := items[..n + 1], row.(transcript := FinalText(log, items[n]));
    assert Rewrites(sources, after[n], i);
    assert next == sources[i].(transcript := next.transcript);
    forall j | 0 <= j < |after| && Rewrites(sources, after[j], i)
               && forall k :: j < k < |after| ==> !Rewrites(sources, after[k], i)
      ensures LatestOf(log, after[j].itemId).Some? && next.transcript == FinalText(log, after[j])
    {
      assert j == n;
    }
  }

  lemma SourcesStep(log: seq<Entry>, sources: seq<SourceRow>, items: seq<Item>, n: nat, now: seq<SourceRow>,
                    next: seq<SourceRow>)
    requires AllRecorded(log) && n < |items| && SourcesSoFar(log, sources, items[..n], now)
    requires LatestOf(log, items[n].itemId).Some?
    requires if items[n].origin.Prepared? then
               && items[n].sourceId in IndexSources(sources) && IndexSources(sources)[items[n].sourceId] < |sources|
               && var k := IndexSources(sources)[items[n].sourceId];
                  next == now[k := now[k].(transcript := FinalText(log, items[n]))]
             else now <= next
    ensures SourcesSoFar(log, sources, items[..n + 1], next)
  {
    hide Strip, LatestOf, IndexSources, Recorded, RightSource, FinalText;
    forall i | 0 <= i < |sources| ensures RightSource(log, sources, items[..n + 1], i, next[i]) {
      if Rewrites(sources, items[n], i) {
        SourceReplaced(log, sources, items, n, i, now[i]);
      } else {
        SourceKept(log, sources, items, n, i, now[i]);
      }
    }
  }

  lemma PreparedStep(process: Processor, log: seq<Entry>, sources: seq<SourceRow>, clips: seq<ClipRow>,
                     items: seq<Item>, n: nat, b: Books)
    requires AllRecorded(log) && QueueFits(sources, clips, items) && n < |items| && items[n].origin.Prepared?
    requires Settled(log, items[n].itemId)
    requires Progress(log, sources, clips, items[..n], b) && RightSoFar(process, log, sources, clips, items[..n], b)
    ensures var r := ApplyItem(process, log, b, items[n]);
            r.Done? ==> RightSoFar(process, log, sources, clips, items[..n + 1], r.b)
  {
    hide Strip, LatestOf, IndexClips, Recorded, ClipsSoFar, SourcesSoFar, RightAddition, Entering, LeftOut,
         Retold, ReviewedClip, DecisionOn;
    var item := items[n];
    LatestFits(items, log, item.itemId);
    SelectionsStep(log, items, n);
    ClipIndexInRange(clips);
    var r := ApplyItem(process, log, b, item);
    if r.Done? { SourcesStep(log, sources, items, n, b.sources, r.b.sources); }
  }

  lemma NewStep(process: Processor, log: seq<Entry>, sources: seq<SourceRow>, clips: seq<ClipRow>,
                items: seq<Item>, n: nat, b: Books)
    requires AllRecorded(log) && n < |items| && items[n].origin.Unresolved? && Settled(log, items[n].itemId)
    requires Progress(log, sources, clips, items[..n], b) && RightSoFar(process, log, sources, clips, items[..n], b)
    ensures var r := ApplyItem(process, log, b, items[n]);
            r.Done? ==> RightSoFar(process, log, sources, clips, items[..n + 1], r.b)
  {
    hide Strip, LatestOf, IndexClips, IndexSources, Recorded, ClipsSoFar, SourcesSoFar, RightAddition, Entering,
         LeftOut, Retold, AcceptedClip, NewSource, DecisionOn, FinalText;
    var item := items[n];
    LatestFits(items, log, item.itemId);
    var e := LatestOf(log, item.itemId).value;
    SelectionsStep(log, items, n);
    var r := ApplyItem(process, log, b, item);
    if r.Done? {
      SourcesStep(log, sources, items, n, b.sources, r.b.sources);
      if process(NewSource(item, e)).Some? { AdditionIsRight(process, log, item); }
    }
  }

  /** One more item keeps the promise so far. */
  lemma BooksStep(process: Processor, log: seq<Entry>, sources: seq<SourceRow>, clips: seq<ClipRow>, items: seq<Item>,
                  n: nat, b: Books)
    requires AllRecorded(log) && QueueFits(sources, clips, items) && n < |items| && Settled(log, items[n].itemId)
    requires Progress(log, sources, clips, items[..n], b) && RightSoFar(process, log, sources, clips, items[..n], b)
    ensures var r := ApplyItem(process, log, b, items[n]);
            r.Done? ==> RightSoFar(process, log, sources, clips, items[..n + 1], r.b)
  {
    hide QueueFits, Settled, Progress, RightSoFar, ApplyItem;
    if items[n].origin.Prepared? {
      PreparedStep(process, log, sources, clips, items, n, b);
    } else {
      NewStep(process, log, sources, clips, items, n, b);
    }
  }

  /** The promise without the queued clips, which `ClipsSoFar` has. */
  ghost predicate RightSoFar(process: Processor, log: seq<Entry>, sources: seq<SourceRow>, clips: seq<ClipRow>,
                             items: seq<Item>, b: Books)
    requires AllRecorded(log)
  {
    var entering := Entering(log, items);
    && |b.sources| == |sources| + |entering| && |b.clips| == |clips| + |entering|
    && SourcesSoFar(log, sources, items, b.sources)
    && (forall k :: 0 <= k < |entering| ==>
          RightAddition(process, log, entering[k], b.sources[|sources| + k], b.clips[|clips| + k]))
    && b.added == |entering| && b.excluded == |LeftOut(log, items)| && b.updates == |Retold(log, items)|
  }

  lemma NothingSoFar(process: Processor, log: seq<Entry>, sources: seq<SourceRow>, clips: seq<ClipRow>)
    requires AllRecorded(log)
    ensures RightSoFar(process, log, sources, clips, [], OpenBooks(sources, clips))
  {
    hide IndexSources, IndexClips;
  }

  lemma {:induction false} BooksAreRightSoFar(process: Processor, log: seq<Entry>, sources: seq<SourceRow>,
                                              clips: seq<ClipRow>, items: seq<Item>, n: nat)
    requires AllRecorded(log) && QueueFits(sources, clips, items) && n <= |items|
    requires forall i :: 0 <= i < |items| ==> Settled(log, items[i].itemId)
    ensures var r := ApplyItems(process, log, OpenBooks(sources, clips), items[..n]);
            r.Done? ==> RightSoFar(process, log, sources, clips, items[..n], r.b)
  {
    hide QueueFits, Settled, Progress, ApplyItem, RightSoFar, OpenBooks;
    if n == 0 {
      NothingSoFar(process, log, sources, clips);
    } else {
      BooksAreRightSoFar(process, log, sources, clips, items, n - 1);
      ApplyKeepsProgress(process, log, sources, clips, items, n - 1);
      assert items[..n][..n - 1] == items[..n - 1] && items[..n][n - 1] == items[n - 1];
      var before := ApplyItems(process, log, OpenBooks(sources, clips), items[..n - 1]);
      if before.Done? { BooksStep(process, log, sources, clips, items, n - 1, before.b); }
    }
  }

  /** Main result: behind the gate the write-back does what it promises. */
  lemma BooksAreRight(process: Processor, log: seq<Entry>, sources: seq<SourceRow>, clips: seq<ClipRow>,
                      items: seq<Item>)
    requires AllKept(items, log) && AllRecorded(log) && Ready(items, log) && QueueFits(sources, clips, items)
    ensures var r := ApplyItems(process, log, OpenBooks(sources, clips), items);
            r.Done? ==> RightBooks(process, log, sources, clips, items, r.b)
  {
    hide AllKept, Ready, QueueFits, ApplyItems, OpenBooks, Settled;
    ReadySettles(items, items, log);
    BooksAreRightSoFar(process, log, sources, clips, items, |items|);
    ApplyKeepsProgress(process, log, sources, clips, items, |items|);
    assert items[..|items|] == items;
    var r := ApplyItems(process, log, OpenBooks(sources, clips), items);
    if r.Done? { ClipsAreRight(process, log, sources, clips, items, r.b); }
  }

  lemma ClipsAreRight(process: Processor, log: seq<Entry>, sources: seq<SourceRow>, clips: seq<ClipRow>,
                      items: seq<Item>, b: Books)
    requires AllRecorded(log) && RightSoFar(process, log, sources, clips, items, b)
    requires ClipsSoFar(log, clips, items, b.clips)
    ensures RightBooks(process, log, sources, clips, items, b)
  {
    hide Strip, LatestOf, IndexSources, IndexClips, Recorded, RightSource, RightAddition, Entering, LeftOut, Retold,
         ReviewedClip, RightClip, Untouched;
    forall j | 0 <= j < |items| && items[j].origin.Prepared?
      ensures items[j].itemId in IndexClips(clips) && IndexClips(clips)[items[j].itemId] < |clips|
      ensures RightClip(log, items[j], clips[IndexClips(clips)[items[j].itemId]],
                        b.clips[IndexClips(clips)[items[j].itemId]])
    {
      assert ClipReviewed(log, clips, b.clips, items[j]);
      LatestFits(items, log, items[j].itemId);
      ReviewedIsRight(log, items[j], clips[IndexClips(clips)[items[j].itemId]]);
    }
  }

  /** The fold fails only where a new item's audio cannot be processed. */
  lemma {:induction false} FailsAtAudio(process: Processor, log: seq<Entry>, sources: seq<SourceRow>,
                                        clips: seq<ClipRow>, items: seq<Item>, n: nat)
    requires AllRecorded(log) && QueueFits(sources, clips, items) && n <= |items|
    requires forall i :: 0 <= i < |items| ==> Settled(log, items[i].itemId)
    ensures ApplyItems(process, log, OpenBooks(sources, clips), items[..n]).Done? <==>
            forall i :: 0 <= i < n ==> Processable(process, log, items[i])
  {
    hide QueueFits, Settled, Progress, ApplyItem, OpenBooks, Processable;
    if n > 0 {
      FailsAtAudio(process, log, sources, clips, items, n - 1);
      ApplyKeepsProgress(process, log, sources, clips, items, n - 1);
      assert items[..n][..n - 1] == items[..n - 1] && items[..n][n - 1] == items[n - 1];
      var before := ApplyItems(process, log, OpenBooks(sources, clips), items[..n - 1]);
      if before.Done? { ItemFailsAtAudio(process, log, sources, clips, items, n - 1, before.b); }
    }
  }

  /** An unresolved item that is not rejected has audio that can be processed. */
  ghost predicate Processable(process: Processor, log: seq<Entry>, item: Item)
    requires AllRecorded(log)
  {
    item.origin.Unresolved? && LatestOf(log, item.itemId).Some? && !Decides(LatestOf(log, item.itemId), "rejected") ==>
      process(SourceRow(item.itemId, item.audioRelpath, FinalText(log, item), item.sourceReference, item.usageRights,
                        item.speaker, item.scene, item.sourceNotes)).Some?
  }

  lemma ItemFailsAtAudio(process: Processor, log: seq<Entry>, sources: seq<SourceRow>, clips: seq<ClipRow>,
                         items: seq<Item>, n: nat, b: Books)
    requires AllRecorded(log) && QueueFits(sources, clips, items) && n < |items| && Settled(log, items[n].itemId)
    requires Progress(log, sources, clips, items[..n], b)
    ensures ApplyItem(process, log, b, items[n]).Done? <==> Processable(process, log, items[n])
  {
    hide Strip, LatestOf, IndexSources, IndexClips, ClipsSoFar, ReviewedClip, AcceptedClip, DecisionOn;
    LatestFits(items, log, items[n].itemId);
  }

  // ----- The apply step

  datatype ApplyError =
    | NotConfirmed | AlreadyApplied | UnreadableLog(error: LogError) | NotReady | SourcesChanged | ClipsChanged
    | Failed(cause: Applied) | WriteFailed | ReceiptLost

  datatype Receipt = Receipt(
    runId: string, eventCount: nat, head: string, accepted: nat, rejected: nat, acceptedDuration: real,
    updates: nat, added: nat, excluded: nat)

  /** The digests of the two manifests, and those the run recorded when its queue was frozen. */
  datatype Digests = Digests(ofSources: seq<SourceRow> -> string, ofClips: seq<ClipRow> -> string, sources: string,
                             clips: string)

  predicate ClipIdOrder(a: ClipRow, b: ClipRow) {
    VodCapture.StringAtMost(a.clipId, b.clipId)
  }

  datatype Manifests = Manifests(sources: seq<SourceRow>, clips: seq<ClipRow>)

  function ReceiptOf(runId: string, status: Status, b: Books): Receipt {
    Receipt(runId, status.eventCount, status.head, status.counts.accepted, status.counts.rejected,
            status.acceptedDuration,
            b.updates, b.added, b.excluded)
  }

  /** What `apply_review_run` writes, or why it does not. */
  function Outcome(c: Codec, runId: string, items: seq<Item>, log: seq<Entry>, m: Manifests, digests: Digests,
                   process: Processor, confirm: string, applied: bool): Result<(Manifests, Receipt), ApplyError>
    requires AllRecorded(log)
  {
    if confirm != runId then Err(NotConfirmed)
    else if applied then Err(AlreadyApplied)
    else if ReadOutcome(log, 0).Err? then Err(UnreadableLog(ReadOutcome(log, 0).error))
    else if !Ready(items, log) then Err(NotReady)
    else if digests.ofSources(m.sources) != digests.sources then Err(SourcesChanged)
    else if digests.ofClips(m.clips) != digests.clips then Err(ClipsChanged)
    else
      var r := ApplyItems(process, log, OpenBooks(m.sources, m.clips), items);
      if !r.Done? then Err(Failed(r))
      else Ok((Manifests(r.b.sources, Sort(ClipIdOrder, r.b.clips)), ReceiptOf(runId, StatusOf(c, items, log), r.b)))
  }

  /** What lies in the workspace: the two manifests and `apply-receipt.json`. */
  datatype Files = Files(manifests: Manifests, receipt: Option<Receipt>)

  /** Which of the three writes succeed. */
  datatype Writes = Writes(sources: bool, clips: bool, receipt: bool)

  /** One call of `apply_review_run`: its log, the audio processing, the confirmation and the fate of its writes. */
  datatype Attempt = Attempt(log: seq<Entry>, process: Processor, confirm: string, writes: Writes)

  /** A failed manifest write is rolled back; a failed receipt write is not. */
  function ApplyStep(c: Codec, runId: string, items: seq<Item>, files: Files, digests: Digests, call: Attempt)
      : (Files, Result<Receipt, ApplyError>)
    requires AllRecorded(call.log)
  {
    match Outcome(c, runId, items, call.log, files.manifests, digests, call.process, call.confirm, files.receipt.Some?)
    case Err(e) => (files, Err(e))
    case Ok((m, made)) =>
      if !call.writes.sources || !call.writes.clips then (files, Err(WriteFailed))
      else if !call.writes.receipt then (files.(manifests := m), Err(ReceiptLost))
      else (Files(m, Some(made)), Ok(made))
  }

  /** The rewriting loop: rows are updated in place through the dictionaries. */
  method ApplyLoop(process: Processor, log: seq<Entry>, sources: seq<SourceRow>, clips: seq<ClipRow>, items: seq<Item>)
    returns (r: Applied)
    requires AllRecorded(log)
    ensures r == ApplyItems(process, log, OpenBooks(sources, clips), items)
  {
    hide ApplyItem, OpenBooks;
    var latest := Latest(log);
    var books := OpenBooks(sources, clips);
    for n := 0 to |items|
      invariant books.Valid()
      invariant ApplyItems(process, log, OpenBooks(sources, clips), items[..n]) == Done(books)
    {
      assert items[..n + 1][..n] == items[..n] && items[..n + 1][n] == items[n];
      var step := ApplyOne(process, log, latest, books, items[n]);
      if !step.Done? {
        FailureStays(process, log, OpenBooks(sources, clips), items, n + 1);
        assert items[..|items|] == items;
        return step;
      }
      books := step.b;
    }
    assert items[..|items|] == items;
    r := Done(books);
  }

  /** Nothing after a failed item is looked at. */
  lemma {:induction false} FailureStays(process: Processor, log: seq<Entry>, b: Books, items: seq<Item>, n: nat)
    requires AllRecorded(log) && b.Valid() && n <= |items| && !ApplyItems(process, log, b, items[..n]).Done?
    ensures ApplyItems(process, log, b, items) == ApplyItems(process, log, b, items[..n])
    decreases |items|
  {
    hide ApplyItem;
    if n == |items| {
      assert items[..n] == items;
    } else {
      var front := items[..|items| - 1];
      assert front[..n] == items[..n];
      FailureStays(process, log, b, front, n);
    }
  }

  /** The body of that loop. */
  method ApplyOne(process: Processor, log: seq<Entry>, latest: map<string, Entry>, b: Books, item: Item)
      returns (r: Applied)
    requires AllRecorded(log) && b.Valid()
    requires forall id :: id in latest <==> LatestOf(log, id).Some?
    requires forall id :: id in latest ==> latest[id] == LatestOf(log, id).value
    ensures r == ApplyItem(process, log, b, item)
  {
    hide Strip, LatestOf, HumanNotes;
    if item.itemId !in latest { return MissingLookup; }
    var event := latest[item.itemId];
    LatestFits([], log, item.itemId);
    var counted := CountUpdate(b, item, event);
    if item.origin.Unresolved? {
      if event.decision.value.s == REJECTED { return Done(counted.(excluded := counted.excluded + 1)); }
      var row := NewSource(item, event);
      var made := process(row);
      if made.None? { return Unprocessable(item.itemId); }
      var clip := AcceptedClip(made.value, event);
      return Done(counted.(
        sources := counted.sources + [row], clips := counted.clips + [clip],
        sourcesById := counted.sourcesById[item.itemId := |counted.sources|],
        clipsById := counted.clipsById[item.itemId := |counted.clips|], added := counted.added + 1));
    }
    r := RewritePrepared(counted, item, event);
  }

  /** The log behind an open gate, with its status. */
  method PassGate(store: ReviewStore) returns (r: Result<(seq<Entry>, Status), ApplyError>)
    requires store.Valid()
    modifies store`status
    ensures store.Valid() && AllRecorded(store.log)
    ensures r == if ReadOutcome(store.log, 0).Err? then Err(UnreadableLog(ReadOutcome(store.log, 0).error))
                 else if !Ready(store.items, store.log) then Err(NotReady)
                 else Ok((store.log, StatusOf(store.codec, store.items, store.log)))
  {
    hide Read, Readable, Recorded, StatusOf, ReadOutcome, Ready, ReviewStore.Valid;
    store.ReadsOwnLog();
    ReadsWhole(store.log);
    var status := store.CurrentStatus();
    var events := Events(store.codec, store.file);
    if events.Err? { return Err(UnreadableLog(events.error)); }
    StatusReady(store.codec, store.items, store.log);
    if !status.value.ready { return Err(NotReady); }
    r := Ok((events.value, status.value));
  }

  /** Everything `apply_review_run` does before it writes. */
  method Prepare(store: ReviewStore, m: Manifests, digests: Digests, process: Processor, confirm: string, applied: bool)
    returns (r: Result<(Manifests, Receipt), ApplyError>)
    requires store.Valid()
    modifies store`status
    ensures store.Valid() && AllRecorded(store.log)
    ensures r == Outcome(store.codec, store.runId, store.items, store.log, m, digests, process, confirm, applied)
  {
    hide Recorded, StatusOf, ReadOutcome, ApplyItems, OpenBooks, ClipIdOrder, Ready, ReviewStore.Valid, Read, Readable,
         Sort;
    store.ReadsOwnLog();
    if confirm != store.runId { return Err(NotConfirmed); }
    if applied { return Err(AlreadyApplied); }
    var gate := PassGate(store);
    if gate.Err? { return Err(gate.error); }
    var (events, status) := gate.value;
    if digests.ofSources(m.sources) != digests.sources { return Err(SourcesChanged); }
    if digests.ofClips(m.clips) != digests.clips { return Err(ClipsChanged); }
    var books := ApplyLoop(process, events, m.sources, m.clips, store.items);
    if !books.Done? { return Err(Failed(books)); }
    r := Ok((Manifests(books.b.sources, Sort(ClipIdOrder, books.b.clips)), ReceiptOf(store.runId, status, books.b)));
  }

  lemma StoreKeeps(store: ReviewStore)
    requires store.Valid()
    ensures AllKept(store.items, store.log) && AllRecorded(store.log)
  {
    hide Trusted;
    SoundRecorded(store.codec, store.items, store.log);
  }

  class Workspace {
    var manifests: Manifests
    /** `apply-receipt.json`. */
    var receipt: Option<Receipt>

    function Current(): Files
      reads this
    {
      Files(manifests, receipt)
    }

    /** `apply_review_run`: the two manifests are written one after the other and put back when either fails; the
        receipt is written last, and nothing is put back when that fails. */
    method Apply(store: ReviewStore, digests: Digests, process: Processor, confirm: string, writes: Writes)
      returns (r: Result<Receipt, ApplyError>)
      requires store.Valid()
      modifies this, store`status
      ensures store.Valid() && AllRecorded(store.log)
      ensures (Current(), r) == ApplyStep(store.codec, store.runId, store.items, old(Current()), digests,
                                          Attempt(store.log, process, confirm, writes))
      ensures QueueFits(old(manifests).sources, old(manifests).clips, store.items) ==>
                RightApply(store.codec, store.runId, store.items, old(Current()), digests,
                           Attempt(store.log, process, confirm, writes), Current(), r)
    {
      hide Outcome, ReviewStore.Valid, RightApply, QueueFits, AllKept;
      StoreKeeps(store);
      if QueueFits(manifests.sources, manifests.clips, store.items) {
        ApplyIsRight(store.codec, store.runId, store.items, Current(), digests,
                     Attempt(store.log, process, confirm, writes));
      }
      var planned := Prepare(store, manifests, digests, process, confirm, receipt.Some?);
      if planned.Err? { return Err(planned.error); }
      var (m, made) := planned.value;
      var before := manifests;
      var written := writes.sources;
      if written {
        manifests := manifests.(sources := m.sources);
        written := writes.clips;
      }
      if written {
        manifests := manifests.(clips := m.clips);
      } else {
        manifests := before;
        return Err(WriteFailed);
      }
      if !writes.receipt { return Err(ReceiptLost); }
      receipt := Some(made);
      r := Ok(made);
    }
  }

  // ----- What a whole apply promises

  /** Why an apply is refused before it looks at any row, in this order. */
  ghost predicate RightRefusal(runId: string, items: seq<Item>, files: Files, digests: Digests, call: Attempt,
                               e: ApplyError)
    requires AllRecorded(call.log)
  {
    var m := files.manifests;
    if call.confirm != runId then e == NotConfirmed
    else if files.receipt.Some? then e == AlreadyApplied
    else if !Readable(call.log) then e.UnreadableLog?
    else if !Ready(items, call.log) then e == NotReady
    else if digests.ofSources(m.sources) != digests.sources then e == SourcesChanged
    else digests.ofClips(m.clips) != digests.clips && e == ClipsChanged
  }

  ghost predicate Admitted(runId: string, items: seq<Item>, files: Files, digests: Digests, call: Attempt)
    requires AllRecorded(call.log)
  {
    && call.confirm == runId && files.receipt.None? && Readable(call.log) && Ready(items, call.log)
    && digests.ofSources(files.manifests.sources) == digests.sources
    && digests.ofClips(files.manifests.clips) == digests.clips
  }

  /** The manifests and the receipt that an admitted apply plans: the rewritten sources, the rewritten clips by their
      ids, and the counts of the status and of the rewriting. */
  ghost predicate RightPlan(c: Codec, runId: string, items: seq<Item>, files: Files, call: Attempt, m: Manifests,
                            made: Receipt)
    requires AllRecorded(call.log)
  {
    exists b: Books, status: Status ::
      && RightBooks(call.process, call.log, files.manifests.sources, files.manifests.clips, items, b)
      && RightStatus(c, items, call.log, status)
      && m.sources == b.sources && multiset(m.clips) == multiset(b.clips) && SortedBy(ClipIdOrder, m.clips)
      && made == Receipt(runId, status.eventCount, status.head, status.counts.accepted, status.counts.rejected,
                         status.acceptedDuration, b.updates, b.added, b.excluded)
  }

  /** What an apply promises. It is refused for a reason that holds, fails exactly when some new audio cannot be
      processed, and otherwise writes the plan: not at all when a manifest write fails, and without the receipt when
      only that write fails. */
  ghost predicate RightApply(c: Codec, runId: string, items: seq<Item>, files: Files, digests: Digests, call: Attempt,
                             after: Files, r: Result<Receipt, ApplyError>)
    requires AllRecorded(call.log)
  {
    if !Admitted(runId, items, files, digests, call) then
      after == files && r.Err? && RightRefusal(runId, items, files, digests, call, r.error)
    else if exists i :: i in items && !Processable(call.process, call.log, i) then
      after == files && r.Err? && r.error.Failed? && r.error.cause.Unprocessable?
    else
      exists m, made ::
        RightPlan(c, runId, items, files, call, m, made) && RightWrites(files, call.writes, m, made, after, r)
  }

  predicate RightWrites(files: Files, writes: Writes, m: Manifests, made: Receipt, after: Files,
                        r: Result<Receipt, ApplyError>) {
    if !(writes.sources && writes.clips) then after == files && r == Err(WriteFailed)
    else if !writes.receipt then after == Files(m, None) && r == Err(ReceiptLost)
    else after == Files(m, Some(made)) && r == Ok(made)
  }

  lemma StepOfPlan(c: Codec, runId: string, items: seq<Item>, files: Files, digests: Digests, call: Attempt)
    requires AllRecorded(call.log)
    ensures var planned := Outcome(c, runId, items, call.log, files.manifests, digests, call.process, call.confirm,
                                   files.receipt.Some?);
            var (after, r) := ApplyStep(c, runId, items, files, digests, call);
            && (planned.Err? ==> after == files && r == Err(planned.error))
            && (planned.Ok? && files.receipt.None? ==>
                  RightWrites(files, call.writes, planned.value.0, planned.value.1, after, r))
  {
    hide Outcome, Recorded;
  }

  lemma UnadmittedIsRefused(c: Codec, runId: string, items: seq<Item>, files: Files, digests: Digests, call: Attempt)
    requires AllRecorded(call.log)
    ensures var planned := Outcome(c, runId, items, call.log, files.manifests, digests, call.process, call.confirm,
                                   files.receipt.Some?);
            if Admitted(runId, items, files, digests, call) then
              var done := ApplyItems(call.process, call.log, OpenBooks(files.manifests.sources, files.manifests.clips),
                                     items);
              planned == if !done.Done? then Err(Failed(done))
                         else Ok((Manifests(done.b.sources, Sort(ClipIdOrder, done.b.clips)),
                                  ReceiptOf(runId, StatusOf(c, items, call.log), done.b)))
            else planned.Err? && RightRefusal(runId, items, files, digests, call, planned.error)
  {
    ReadsWhole(call.log);
    hide Readable, ReadOutcome, Ready, ApplyItems, OpenBooks, StatusOf, ClipIdOrder, Sort, Recorded;
  }

  lemma PlanIsRight(c: Codec, runId: string, items: seq<Item>, files: Files, call: Attempt, b: Books)
    requires AllKept(items, call.log) && AllRecorded(call.log)
    requires RightBooks(call.process, call.log, files.manifests.sources, files.manifests.clips, items, b)
    ensures RightPlan(c, runId, items, files, call, Manifests(b.sources, Sort(ClipIdOrder, b.clips)),
                      ReceiptOf(runId, StatusOf(c, items, call.log), b))
  {
    hide RightBooks, RightStatus, AllKept, Recorded, ClipIdOrder, StatusOf;
    StatusIsRight(c, items, items, call.log);
    SortPermutes(ClipIdOrder, b.clips);
    ClipIdOrderIsPreorder();
    SortSorts(ClipIdOrder, b.clips);
  }

  lemma ClipIdOrderIsPreorder()
    ensures TotalPreorder(ClipIdOrder)
  {
    forall a, b ensures ClipIdOrder(a, b) || ClipIdOrder(b, a) { VodCapture.StringAtMostTotal(a.clipId, b.clipId); }
    forall a, b, c | ClipIdOrder(a, b) && ClipIdOrder(b, c) ensures ClipIdOrder(a, c) {
      VodCapture.StringAtMostTransitive(a.clipId, b.clipId, c.clipId);
    }
  }

  lemma ProcessableExactly(process: Processor, log: seq<Entry>, sources: seq<SourceRow>, clips: seq<ClipRow>,
                           items: seq<Item>)
    requires AllKept(items, log) && AllRecorded(log) && Ready(items, log) && QueueFits(sources, clips, items)
    ensures var done := ApplyItems(process, log, OpenBooks(sources, clips), items);
            && (done.Done? <==> forall i :: i in items ==> Processable(process, log, i))
            && !done.MissingLookup?
  {
    hide AllKept, Ready, QueueFits, ApplyItems, OpenBooks, Settled, Processable;
    ReadySettles(items, items, log);
    FailsAtAudio(process, log, sources, clips, items, |items|);
    ApplyKeepsProgress(process, log, sources, clips, items, |items|);
    assert items[..|items|] == items;
  }

  lemma NoReceipt(runId: string, items: seq<Item>, files: Files, digests: Digests, call: Attempt)
    requires AllRecorded(call.log)
    ensures Admitted(runId, items, files, digests, call) ==> files.receipt.None? && Ready(items, call.log)
  {
    hide Ready, Readable, Recorded;
  }

  /** The plan of an admitted apply, or the audio that stops it. */
  lemma AdmittedPlan(c: Codec, runId: string, items: seq<Item>, files: Files, digests: Digests, call: Attempt)
    requires AllKept(items, call.log) && AllRecorded(call.log)
    requires QueueFits(files.manifests.sources, files.manifests.clips, items)
    requires Admitted(runId, items, files, digests, call)
    ensures var planned := Outcome(c, runId, items, call.log, files.manifests, digests, call.process, call.confirm,
                                   files.receipt.Some?);
            if exists i :: i in items && !Processable(call.process, call.log, i) then
              planned.Err? && planned.error.Failed? && planned.error.cause.Unprocessable?
            else planned.Ok? && RightPlan(c, runId, items, files, call, planned.value.0, planned.value.1)
  {
    UnadmittedIsRefused(c, runId, items, files, digests, call);
    NoReceipt(runId, items, files, digests, call);
    hide Admitted, Ready, Outcome, AllKept, QueueFits, ApplyItems, OpenBooks, RightPlan, RightBooks, Processable,
         StatusOf, ReceiptOf, Sort, Recorded, ClipIdOrder;
    var m := files.manifests;
    var done := ApplyItems(call.process, call.log, OpenBooks(m.sources, m.clips), items);
    ProcessableExactly(call.process, call.log, m.sources, m.clips, items);
    if done.Done? {
      BooksAreRight(call.process, call.log, m.sources, m.clips, items);
      PlanIsRight(c, runId, items, files, call, done.b);
    }
  }

  /** Main result: on the manifests its queue fits, every apply does what it promises. */
  lemma ApplyIsRight(c: Codec, runId: string, items: seq<Item>, files: Files, digests: Digests, call: Attempt)
    requires AllKept(items, call.log) && AllRecorded(call.log)
    requires QueueFits(files.manifests.sources, files.manifests.clips, items)
    ensures var (after, r) := ApplyStep(c, runId, items, files, digests, call);
            RightApply(c, runId, items, files, digests, call, after, r)
  {
    StepOfPlan(c, runId, items, files, digests, call);
    NoReceipt(runId, items, files, digests, call);
    if Admitted(runId, items, files, digests, call) {
      AdmittedPlan(c, runId, items, files, digests, call);
    } else {
      UnadmittedIsRefused(c, runId, items, files, digests, call);
    }
    hide Admitted, Ready, Outcome, AllKept, QueueFits, RightPlan, RightRefusal, Processable, ApplyStep, RightWrites,
         Recorded, ApplyItems;
  }

  // ----- All or nothing, and a lost receipt

  /** Nothing was written, or everything was. */
  predicate AllOrNothing(before: Files, after: Files, planned: Result<(Manifests, Receipt), ApplyError>) {
    after == before || (planned.Ok? && after == Files(planned.value.0, Some(planned.value.1)))
  }

  /** An apply is all or nothing exactly when it is refused, a manifest write fails, the receipt write succeeds, or
      there was nothing to change in the manifests. */
  lemma AllOrNothingExactly(c: Codec, runId: string, items: seq<Item>, files: Files, digests: Digests, call: Attempt)
    requires AllRecorded(call.log)
    ensures var planned := Outcome(c, runId, items, call.log, files.manifests, digests, call.process, call.confirm,
                                   files.receipt.Some?);
            AllOrNothing(files, ApplyStep(c, runId, items, files, digests, call).0, planned)
            <==> || planned.Err? || !call.writes.sources || !call.writes.clips || call.writes.receipt
                 || planned.value.0 == files.manifests
  {
    hide ReadOutcome, ApplyItems, Ready, StatusOf, OpenBooks, ClipIdOrder, Sort, Recorded;
  }

  predicate AllReadLogs(calls: seq<Attempt>) {
    forall i :: 0 <= i < |calls| ==> AllRecorded(calls[i].log)
  }

  /** The workspace after any further calls. */
  function ApplyRuns(c: Codec, runId: string, items: seq<Item>, files: Files, digests: Digests, calls: seq<Attempt>)
      : Files
    requires AllReadLogs(calls)
  {
    if calls == [] then files
    else
      var n := |calls| - 1;
      ApplyStep(c, runId, items, ApplyRuns(c, runId, items, files, digests, calls[..n]), digests, calls[n]).0
  }

  /** Manifests other than the frozen ones refuse every call. */
  lemma ChangedRefused(c: Codec, runId: string, items: seq<Item>, files: Files, digests: Digests, call: Attempt,
                       sources: seq<SourceRow>, clips: seq<ClipRow>)
    requires AllRecorded(call.log) && FrozenFrom(digests, sources, clips)
    requires files.manifests != Manifests(sources, clips)
    ensures var (after, answer) := ApplyStep(c, runId, items, files, digests, call);
            && after == files && answer.Err?
            && (call.confirm == runId && files.receipt.None? && ReadOutcome(call.log, 0).Ok? && Ready(items, call.log)
                ==> answer.error == SourcesChanged || answer.error == ClipsChanged)
  {
    hide ReadOutcome, ApplyItems, Ready, StatusOf, OpenBooks, ClipIdOrder, Sort, Recorded;
  }

  lemma {:induction false} ChangedStays(c: Codec, runId: string, items: seq<Item>, files: Files, digests: Digests,
                                        calls: seq<Attempt>, sources: seq<SourceRow>, clips: seq<ClipRow>)
    requires AllReadLogs(calls) && FrozenFrom(digests, sources, clips)
    requires files.manifests != Manifests(sources, clips)
    ensures ApplyRuns(c, runId, items, files, digests, calls) == files
  {
    hide ApplyStep, FrozenFrom, Recorded;
    if calls != [] {
      var n := |calls| - 1;
      ChangedStays(c, runId, items, files, digests, calls[..n], sources, clips);
      ChangedRefused(c, runId, items, files, digests, calls[n], sources, clips);
    }
  }

  /** Main result: once the receipt of an apply that changed the manifests is lost, no later call ever changes the
      workspace again; each one fails, and behind an open gate it is the manifests' own digests that refuse it. */
  lemma LostReceiptIsStuck(c: Codec, runId: string, items: seq<Item>, files: Files, digests: Digests, call: Attempt,
                           later: seq<Attempt>, again: Attempt, sources: seq<SourceRow>, clips: seq<ClipRow>)
    requires AllRecorded(call.log) && AllReadLogs(later) && AllRecorded(again.log)
    requires FrozenFrom(digests, sources, clips)
    requires ApplyStep(c, runId, items, files, digests, call).1 == Err(ReceiptLost)
    requires ApplyStep(c, runId, items, files, digests, call).0.manifests != files.manifests
    ensures var after := ApplyStep(c, runId, items, files, digests, call).0;
            var end := ApplyRuns(c, runId, items, after, digests, later);
            var (last, answer) := ApplyStep(c, runId, items, end, digests, again);
            && after.receipt.None? && end == after && last == after && answer.Err?
            && (again.confirm == runId && ReadOutcome(again.log, 0).Ok? && Ready(items, again.log)
                ==> answer.error == SourcesChanged || answer.error == ClipsChanged)
  {
    WrittenFromFrozen(c, runId, items, files, digests, call, sources, clips);
    hide ReadOutcome, Ready, Recorded, ApplyStep, FrozenFrom;
    var after := ApplyStep(c, runId, items, files, digests, call).0;
    ChangedStays(c, runId, items, after, digests, later, sources, clips);
    ChangedRefused(c, runId, items, after, digests, again, sources, clips);
  }

  lemma WrittenFromFrozen(c: Codec, runId: string, items: seq<Item>, files: Files, digests: Digests, call: Attempt,
                          sources: seq<SourceRow>, clips: seq<ClipRow>)
    requires AllRecorded(call.log) && FrozenFrom(digests, sources, clips)
    requires ApplyStep(c, runId, items, files, digests, call).1 == Err(ReceiptLost)
    ensures files.manifests == Manifests(sources, clips) && files.receipt.None?
    ensures ApplyStep(c, runId, items, files, digests, call).0.receipt.None?
  {
    hide ReadOutcome, ApplyItems, Ready, StatusOf, OpenBooks, ClipIdOrder, Sort, Recorded;
  }

  /** Repeating a call whose receipt was lost, now with every write succeeding, works exactly when the first one had
      nothing to change in the manifests. */
  lemma RetryExactly(c: Codec, runId: string, items: seq<Item>, files: Files, digests: Digests, call: Attempt,
                     sources: seq<SourceRow>, clips: seq<ClipRow>)
    requires AllRecorded(call.log) && FrozenFrom(digests, sources, clips)
    requires ApplyStep(c, runId, items, files, digests, call).1 == Err(ReceiptLost)
    ensures var after := ApplyStep(c, runId, items, files, digests, call).0;
            ApplyStep(c, runId, items, after, digests, call.(writes := Writes(true, true, true))).1.Ok?
            <==> after.manifests == files.manifests
  {
    WrittenFromFrozen(c, runId, items, files, digests, call, sources, clips);
    hide FrozenFrom, Outcome, Recorded;
    var after := ApplyStep(c, runId, items, files, digests, call).0;
    if after.manifests != files.manifests {
      ChangedRefused(c, runId, items, after, digests, call.(writes := Writes(true, true, true)), sources, clips);
    }
  }

  lemma StatusReady(c: Codec, items: seq<Item>, log: seq<Entry>)
    requires AllRecorded(log)
    ensures StatusOf(c, items, log).ready == Ready(items, log)
  {}

  ghost predicate FrozenFrom(digests: Digests, sources: seq<SourceRow>, clips: seq<ClipRow>) {
    && digests.sources == digests.ofSources(sources) && digests.clips == digests.ofClips(clips)
    && (forall other :: digests.ofSources(other) == digests.sources ==> other == sources)
    && (forall other :: digests.ofClips(other) == digests.clips ==> other == clips)
  }

  /** Main result about a whole apply: on the manifests the queue was frozen from it can only fail through a
      refused precondition or unreadable audio, and what it writes has every clip decided and balanced counts. */
  lemma AppliedManifests(c: Codec, runId: string, items: seq<Item>, log: seq<Entry>, m: Manifests, digests: Digests,
                         process: Processor, confirm: string, applied: bool, sources: seq<SourceRow>,
                             clips: seq<ClipRow>)
    requires AllKept(items, log) && AllRecorded(log) && QueueFits(sources, clips, items)
             && FrozenFrom(digests, sources, clips)
    ensures var r := Outcome(c, runId, items, log, m, digests, process, confirm, applied);
            && r != Err(Failed(MissingLookup))
            && (r.Ok? ==>
                  && m == Manifests(sources, clips) && Ready(items, log)
                  && r.value.1.added + r.value.1.excluded == UnresolvedCount(items)
                  && r.value.1.accepted + r.value.1.rejected == |items|
                  && |r.value.0.sources| == |sources| + r.value.1.added
                     && |r.value.0.clips| == |clips| + r.value.1.added
                  && (forall k :: 0 <= k < |r.value.0.clips| ==> Decided(r.value.0.clips[k])))
  {
    hide AllKept, QueueFits, ApplyItems, OpenBooks, ClipIdOrder, Decided, ReadOutcome, Having, AcceptedDuration,
         TranscriptChanges;
    var r := Outcome(c, runId, items, log, m, digests, process, confirm, applied);
    if Ready(items, log) && m == Manifests(sources, clips) {
      ApplyBehindGate(process, log, sources, clips, items);
      CountsSumToQueue(items, items, log);
      var done := ApplyItems(process, log, OpenBooks(sources, clips), items);
      if done.Done? { SortKeepsDecided(done.b.clips); }
    }
  }

  lemma SortKeepsDecided(rows: seq<ClipRow>)
    requires forall k :: 0 <= k < |rows| ==> Decided(rows[k])
    ensures |Sort(ClipIdOrder, rows)| == |rows|
    ensures forall k :: 0 <= k < |Sort(ClipIdOrder, rows)| ==> Decided(Sort(ClipIdOrder, rows)[k])
  {
    hide Decided, ClipIdOrder;
    SortPermutes(ClipIdOrder, rows);
    SortKeepsElements(ClipIdOrder, rows);
    var sorted := Sort(ClipIdOrder, rows);
    forall k | 0 <= k < |sorted| ensures Decided(sorted[k]) { assert sorted[k] in rows; }
  }
}
