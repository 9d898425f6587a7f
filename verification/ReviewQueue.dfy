/** Building the frozen review queue from the manifests: `create_review_run`. */
module ReviewQueue {
  import opened Wrappers
  import opened Sorting
  import opened Distinct
  import opened LogText
  import opened Review
  import VodCapture

  datatype SourceRow = SourceRow(
    sourceId: string, audioRelpath: string, transcript: string, sourceReference: string, usageRights: string,
    speaker: string, scene: string, notes: string)

  /** A row of `clips.csv`; `metrics` holds the measured columns. */
  datatype ClipRow = ClipRow(
    clipId: string, sourceId: string, audioRelpath: string, transcript: string, duration: real, metrics: seq<string>,
    audioSha256: string, reviewStatus: string, reviewer: string, reviewNotes: string)

  /** What a path inside the project leads to: a file, no file, or a place outside. */
  datatype Audio = File | NoFile | Outside

  /** What the non-empty relative paths lead to. */
  type AudioFiles = string -> Audio

  /** The empty path leads to the root itself, which is no file. */
  function AudioAt(files: AudioFiles, path: string): Audio {
    if path == "" then NoFile else files(path)
  }

  /** A row of the raw manifest with the audio it points at. */
  datatype RawRow = RawRow(
    wemId: string, asr: string, text: string, audio: Audio, audioRelpath: string, audioSha256: string, duration: real,
    scene: string, sourceReference: string, speaker: string)

  // ----- The two dictionaries, row number by stripped id

  function IndexBy<T>(key: T -> string, rows: seq<T>): (m: map<string, nat>)
    ensures forall id :: id in m ==> m[id] < |rows| && key(rows[m[id]]) == id
    ensures forall i :: 0 <= i < |rows| ==> key(rows[i]) in m
  {
    if rows == [] then map[] else
      var front := rows[..|rows| - 1];
      assert forall i :: 0 <= i < |front| ==> front[i] == rows[i];
      IndexBy(key, front)[key(rows[|rows| - 1]) := |rows| - 1]
  }

  function SourceKey(row: SourceRow): string {
    Strip(row.sourceId)
  }

  function ClipKey(row: ClipRow): string {
    Strip(row.clipId)
  }

  /** The row number of every stripped source id. */
  function IndexSources(rows: seq<SourceRow>): map<string, nat> {
    IndexBy(SourceKey, rows)
  }

  function IndexClips(rows: seq<ClipRow>): map<string, nat> {
    IndexBy(ClipKey, rows)
  }

  // ----- The queue

  datatype QueueError =
    | DuplicateSource | UnknownSource(id: string) | MissingAudio | OutsideProject | DuplicateItem

  /** The priority that the automatic flags and source notes give a clip. */
  type Priorities = (ClipRow, SourceRow) -> int

  function PreparedItem(clip: ClipRow, source: SourceRow, priority: Priorities): Item {
    Item(Strip(clip.clipId), Strip(clip.sourceId), Prepared, priority(clip, source), Strip(clip.audioRelpath),
         Lower(Strip(clip.audioSha256)), Strip(clip.transcript), clip.duration, Strip(source.scene),
         Strip(source.sourceReference), Strip(source.usageRights), Strip(source.speaker), Strip(source.notes),
         Strip(clip.reviewNotes))
  }

  function AudioFault(audio: Audio): Option<QueueError> {
    match audio
    case File => None
    case NoFile => Some(MissingAudio)
    case Outside => Some(OutsideProject)
  }

  /** Why a clip cannot be queued: an unregistered source, or an audio path that leads to no file of the project. */
  function ClipFault(files: AudioFiles, sources: seq<SourceRow>, clip: ClipRow): Option<QueueError> {
    if Strip(clip.sourceId) !in IndexSources(sources) then Some(UnknownSource(Strip(clip.sourceId)))
    else AudioFault(AudioAt(files, Strip(clip.audioRelpath)))
  }

  /** The item of a clip whose source is registered. */
  function ItemFor(sources: seq<SourceRow>, clip: ClipRow, priority: Priorities): Item
    requires Strip(clip.sourceId) in IndexSources(sources)
  {
    PreparedItem(clip, sources[IndexSources(sources)[Strip(clip.sourceId)]], priority)
  }

  predicate Registered(sources: seq<SourceRow>, clips: seq<ClipRow>) {
    forall k :: 0 <= k < |clips| ==> Strip(clips[k].sourceId) in IndexSources(sources)
  }

  function PreparedItems(sources: seq<SourceRow>, clips: seq<ClipRow>, priority: Priorities): seq<Item>
    requires Registered(sources, clips)
  {
    seq(|clips|, k requires 0 <= k < |clips| => ItemFor(sources, clips[k], priority))
  }

  function UnresolvedId(raw: RawRow): string {
    "tohsakarin_" + Strip(raw.wemId)
  }

  lemma UnresolvedIdStripped(raw: RawRow)
    ensures Strip(UnresolvedId(raw)) == UnresolvedId(raw)
  {
    var id, w := UnresolvedId(raw), Strip(raw.wemId);
    StripRightEnds(StripLeft(raw.wemId));
    assert id[0] == 't' && id[|id| - 1] == if w == "" then '_' else w[|w| - 1];
  }

  function UnresolvedItem(raw: RawRow): Item {
    Item(UnresolvedId(raw), UnresolvedId(raw), Unresolved, 0, raw.audioRelpath, raw.audioSha256, "", raw.duration,
         raw.scene,
         raw.sourceReference, "local_research_only; game_asset; do_not_redistribute", raw.speaker,
         "transcript_source=manual_review; match=unresolved; confidence=0.000; review_required=true",
         "auto_flags=not_processed")
  }

  predicate QueueOrder(a: Item, b: Item) {
    a.priority < b.priority
    || (a.priority == b.priority
        && (if a.scene == b.scene then VodCapture.StringAtMost(a.itemId, b.itemId)
            else VodCapture.StringAtMost(a.scene, b.scene)))
  }

  function ItemIds(items: seq<Item>): set<string> {
    set i | 0 <= i < |items| :: items[i].itemId
  }

  predicate DistinctItems(items: seq<Item>) {
    forall i, j :: 0 <= i < j < |items| ==> items[i].itemId != items[j].itemId
  }

  lemma DistinctFront(items: seq<Item>)
    requires items != []
    ensures var front, last := items[..|items| - 1], items[|items| - 1];
            DistinctItems(items) <==> DistinctItems(front) && last.itemId !in ItemIds(front)
  {
    var front, last := items[..|items| - 1], items[|items| - 1];
    assert forall i :: 0 <= i < |front| ==> front[i] == items[i];
    if last.itemId in ItemIds(front) {
      var i :| 0 <= i < |front| && front[i].itemId == last.itemId;
      assert items[i].itemId == items[|items| - 1].itemId;
    }
  }

  lemma NothingRepeats()
    ensures DistinctItems([])
  {}

  lemma {:induction false} DistinctBySize(items: seq<Item>)
    ensures |ItemIds(items)| <= |items|
    ensures |ItemIds(items)| == |items| <==> DistinctItems(items)
  {
    hide DistinctItems;
    if items == [] {
      NothingRepeats();
    } else {
      var front, last := items[..|items| - 1], items[|items| - 1];
      DistinctBySize(front);
      DistinctFront(items);
      assert forall i :: 0 <= i < |front| ==> front[i] == items[i];
      assert ItemIds(items) == ItemIds(front) + {last.itemId};
      if last.itemId in ItemIds(front) { assert ItemIds(items) == ItemIds(front); }
    }
  }

  /** An item for audio that has no source yet. */
  predicate NewItem(sources: seq<SourceRow>, item: Item) {
    && item.origin.Unresolved? && item.sourceId == item.itemId == Strip(item.itemId)
    && item.itemId !in IndexSources(sources)
  }

  /** What the apply step relies on: the queue holds one item per clip, whose source is registered and whose audio
      path is not blank, and its other items name no clip and no source. */
  ghost predicate QueueFits(sources: seq<SourceRow>, clips: seq<ClipRow>, items: seq<Item>) {
    && DistinctItems(items)
    && (forall j :: 0 <= j < |items| && items[j].origin.Prepared? ==>
          items[j].sourceId in IndexSources(sources) && items[j].itemId in IndexClips(clips))
    && (forall j :: 0 <= j < |items| && items[j].origin.Unresolved? ==>
          NewItem(sources, items[j]) && items[j].itemId !in IndexClips(clips))
    && (forall k :: 0 <= k < |clips| ==> exists j :: 0 <= j < |items| && ItemOfClip(items[j], clips[k]))
    && (forall k :: 0 <= k < |clips| ==> HasPath(clips[k]))
    && DistinctClips(clips)
  }

  predicate DistinctClips(clips: seq<ClipRow>) {
    forall i, j :: 0 <= i < j < |clips| ==> ClipKey(clips[i]) != ClipKey(clips[j])
  }

  predicate HasPath(clip: ClipRow) {
    Strip(clip.audioRelpath) != ""
  }

  predicate ItemOfClip(item: Item, clip: ClipRow) {
    item.origin.Prepared? && item.itemId == ClipKey(clip)
  }

  /** The items before sorting: one per clip, then the unresolved ones. */
  ghost predicate Queued(sources: seq<SourceRow>, clips: seq<ClipRow>, items: seq<Item>) {
    && |clips| <= |items|
    && (forall k :: 0 <= k < |clips| ==> ItemOfClip(items[k], clips[k]) && items[k].sourceId in IndexSources(sources))
    && (forall k :: 0 <= k < |clips| ==> HasPath(clips[k]))
    && (forall k :: |clips| <= k < |items| ==> NewItem(sources, items[k]))
  }

  function ItemKey(item: Item): string {
    item.itemId
  }

  lemma DistinctPermutation(a: seq<Item>, b: seq<Item>)
    requires multiset(a) == multiset(b) && DistinctItems(a)
    ensures DistinctItems(b)
  {
    var keys, others := Map(ItemKey, a), Map(ItemKey, b);
    MapMultiset(ItemKey, a, b);
    PermutedNoRepeats(keys, others);
    assert forall i :: 0 <= i < |b| ==> others[i] == b[i].itemId;
  }

  lemma QueuedFits(sources: seq<SourceRow>, clips: seq<ClipRow>, items: seq<Item>, sorted: seq<Item>)
    requires Queued(sources, clips, items) && DistinctItems(items) && multiset(sorted) == multiset(items)
    ensures QueueFits(sources, clips, sorted)
  {
    hide IndexSources, Strip, NewItem, HasPath;
    DistinctPermutation(items, sorted);
    QueuedClipsDistinct(sources, clips, items);
    forall j | 0 <= j < |sorted|
      ensures sorted[j].origin.Prepared? ==>
              sorted[j].sourceId in IndexSources(sources)
              && sorted[j].itemId in IndexClips(clips)
      ensures sorted[j].origin.Unresolved? ==> NewItem(sources, sorted[j]) && sorted[j].itemId !in IndexClips(clips)
    {
      assert sorted[j] in multiset(items);
      var k :| 0 <= k < |items| && items[k] == sorted[j];
      QueuedItemFits(sources, clips, items, k);
    }
    hide IndexClips, ClipKey, DistinctItems, DistinctClips;
    forall k | 0 <= k < |clips| ensures exists j :: 0 <= j < |sorted| && ItemOfClip(sorted[j], clips[k]) {
      assert ItemOfClip(items[k], clips[k]);
      assert items[k] in multiset(sorted);
      var j :| 0 <= j < |sorted| && sorted[j] == items[k];
    }
  }

  lemma QueuedClipsDistinct(sources: seq<SourceRow>, clips: seq<ClipRow>, items: seq<Item>)
    requires Queued(sources, clips, items) && DistinctItems(items)
    ensures DistinctClips(clips)
  {
    hide IndexSources, Strip;
    forall i, j | 0 <= i < j < |clips| ensures ClipKey(clips[i]) != ClipKey(clips[j]) {
      assert ItemOfClip(items[i], clips[i]) && ItemOfClip(items[j], clips[j]);
    }
  }

  lemma QueuedItemFits(sources: seq<SourceRow>, clips: seq<ClipRow>, items: seq<Item>, k: nat)
    requires Queued(sources, clips, items) && DistinctItems(items) && k < |items|
    ensures items[k].origin.Prepared? ==>
              items[k].sourceId in IndexSources(sources) && items[k].itemId in IndexClips(clips)
    ensures items[k].origin.Unresolved? ==> NewItem(sources, items[k]) && items[k].itemId !in IndexClips(clips)
  {
    hide IndexSources, Strip, HasPath;
    if k < |clips| { assert ItemOfClip(items[k], clips[k]); } else { NoClipNamed(sources, clips, items, k); }
  }

  lemma NoClipNamed(sources: seq<SourceRow>, clips: seq<ClipRow>, items: seq<Item>, k: nat)
    requires Queued(sources, clips, items) && DistinctItems(items) && |clips| <= k < |items|
    ensures items[k].itemId !in IndexClips(clips)
  {
    var byClip := IndexClips(clips);
    assert forall i :: 0 <= i < |clips| ==> items[i].itemId == ClipKey(clips[i]) by {
      forall i | 0 <= i < |clips|
        ensures items[i].itemId == ClipKey(clips[i])
      {
        assert ItemOfClip(items[i], clips[i]);
      }
    }
  }

  /** One prepared item per clip, or the fault of the first clip that has one. */
  method PrepareClips(files: AudioFiles, sources: seq<SourceRow>, clips: seq<ClipRow>, priority: Priorities)
      returns (r: Result<seq<Item>, QueueError>)
    ensures r.Ok? <==> forall k :: 0 <= k < |clips| ==> ClipFault(files, sources, clips[k]).None?
    ensures r.Ok? ==> Registered(sources, clips) && r.value == PreparedItems(sources, clips, priority)
    ensures r.Err? ==> exists k :: 0 <= k < |clips| && ClipFault(files, sources, clips[k]) == Some(r.error)
                                   && forall i :: 0 <= i < k ==> ClipFault(files, sources, clips[i]).None?
  {
    hide Strip, AudioAt, PreparedItem;
    var byId := IndexSources(sources);
    var items: seq<Item> := [];
    for k := 0 to |clips|
      invariant |items| == k
      invariant forall i :: 0 <= i < k ==> ClipFault(files, sources, clips[i]).None?
      invariant forall i :: 0 <= i < k ==> Strip(clips[i].sourceId) in byId
      invariant forall i :: 0 <= i < k ==> items[i] == ItemFor(sources, clips[i], priority)
    {
      var id := Strip(clips[k].sourceId);
      if id !in byId { return Err(UnknownSource(id)); }
      match AudioAt(files, Strip(clips[k].audioRelpath))
      case NoFile => return Err(MissingAudio);
      case Outside => return Err(OutsideProject);
      case File =>
      items := items + [PreparedItem(clips[k], sources[byId[id]], priority)];
    }
    r := Ok(items);
  }

  /** The raw rows that become unresolved items: not registered, and without any text. */
  predicate Textless(sources: seq<SourceRow>, raw: RawRow) {
    UnresolvedId(raw) !in IndexSources(sources) && Strip(raw.asr) == "" && Strip(raw.text) == ""
  }

  lemma UnresolvedIsNew(sources: seq<SourceRow>, raw: RawRow)
    ensures Textless(sources, raw) ==> NewItem(sources, UnresolvedItem(raw))
  {
    UnresolvedIdStripped(raw);
  }

  function UnresolvedItems(sources: seq<SourceRow>, raws: seq<RawRow>): (items: seq<Item>)
    ensures forall k :: 0 <= k < |items| ==> NewItem(sources, items[k])
  {
    if raws == [] then [] else
      var front := UnresolvedItems(sources, raws[..|raws| - 1]);
      UnresolvedIsNew(sources, raws[|raws| - 1]);
      if Textless(sources, raws[|raws| - 1]) then front + [UnresolvedItem(raws[|raws| - 1])] else front
  }

  /** Why a raw row stops the queue: it would become an item, but its audio is no file. */
  function RawFault(sources: seq<SourceRow>, raw: RawRow): Option<QueueError> {
    if Textless(sources, raw) then AudioFault(raw.audio) else None
  }

  /** The unresolved items, or the fault of the first raw row that has one. */
  method CollectUnresolved(sources: seq<SourceRow>, raws: seq<RawRow>) returns (r: Result<seq<Item>, QueueError>)
    ensures r.Ok? <==> forall k :: 0 <= k < |raws| ==> RawFault(sources, raws[k]).None?
    ensures r.Ok? ==> r.value == UnresolvedItems(sources, raws)
    ensures r.Err? ==> exists k :: 0 <= k < |raws| && RawFault(sources, raws[k]) == Some(r.error)
                                   && forall i :: 0 <= i < k ==> RawFault(sources, raws[i]).None?
  {
    hide UnresolvedItem, Textless;
    var items: seq<Item> := [];
    for n := 0 to |raws|
      invariant items == UnresolvedItems(sources, raws[..n])
      invariant forall i :: 0 <= i < n ==> RawFault(sources, raws[i]).None?
    {
      assert raws[..n + 1][..n] == raws[..n];
      if Textless(sources, raws[n]) {
        match raws[n].audio
        case NoFile => return Err(MissingAudio);
        case Outside => return Err(OutsideProject);
        case File =>
        items := items + [UnresolvedItem(raws[n])];
      }
    }
    assert raws[..|raws|] == raws;
    r := Ok(items);
  }

  lemma PreparedQueued(files: AudioFiles, sources: seq<SourceRow>, clips: seq<ClipRow>, unresolved: seq<Item>,
                       priority: Priorities)
    requires Registered(sources, clips) && forall k :: 0 <= k < |clips| ==> ClipFault(files, sources, clips[k]).None?
    requires forall k :: 0 <= k < |unresolved| ==> NewItem(sources, unresolved[k])
    ensures Queued(sources, clips, PreparedItems(sources, clips, priority) + unresolved)
  {
    hide Strip, IndexSources;
    var items := PreparedItems(sources, clips, priority) + unresolved;
    forall k | |clips| <= k < |items| ensures items[k] == unresolved[k - |clips|] {}
    forall k | 0 <= k < |clips| ensures HasPath(clips[k]) {
      assert ClipFault(files, sources, clips[k]).None?;
    }
  }

  /** The items before they are sorted. */
  function AllItems(sources: seq<SourceRow>, clips: seq<ClipRow>, raws: seq<RawRow>, priority: Priorities): seq<Item>
    requires Registered(sources, clips)
  {
    PreparedItems(sources, clips, priority) + UnresolvedItems(sources, raws)
  }

  /** What `create_review_run` asks of the manifests: distinct sources, a registered source and an audio file for every
      clip, an audio file for every new item, and distinct item ids. */
  predicate Queueable(files: AudioFiles, sources: seq<SourceRow>, clips: seq<ClipRow>, raws: seq<RawRow>,
                      priority: Priorities) {
    && |IndexSources(sources)| == |sources| && Registered(sources, clips)
    && (forall k :: 0 <= k < |clips| ==> AudioAt(files, Strip(clips[k].audioRelpath)).File?)
    && (forall k :: 0 <= k < |raws| && Textless(sources, raws[k]) ==> raws[k].audio.File?)
    && DistinctItems(AllItems(sources, clips, raws, priority))
  }

  lemma NoFaultExactly(files: AudioFiles, sources: seq<SourceRow>, clips: seq<ClipRow>)
    ensures (forall k :: 0 <= k < |clips| ==> ClipFault(files, sources, clips[k]).None?)
            <==> Registered(sources, clips)
                 && forall k :: 0 <= k < |clips| ==> AudioAt(files, Strip(clips[k].audioRelpath)).File?
  {
    hide Strip, AudioAt, IndexSources;
    assert forall k :: 0 <= k < |clips| ==>
      (ClipFault(files, sources, clips[k]).None?
       <==> Strip(clips[k].sourceId) in IndexSources(sources) && AudioAt(files, Strip(clips[k].audioRelpath)).File?);
  }

  // ----- The promise, on the fields of the manifests

  ghost predicate NamedIn(sources: seq<SourceRow>, id: string) {
    exists i :: 0 <= i < |sources| && Strip(sources[i].sourceId) == id
  }

  ghost predicate SourcesRepeat(sources: seq<SourceRow>) {
    exists i, j :: 0 <= i < j < |sources| && Strip(sources[i].sourceId) == Strip(sources[j].sourceId)
  }

  /** What is wrong with an audio path. */
  function PathFault(audio: Audio, blank: bool): Option<QueueError> {
    if blank || audio.NoFile? then Some(MissingAudio) else if audio.Outside? then Some(OutsideProject) else None
  }

  /** What is wrong with a clip. */
  ghost predicate ClipStops(files: AudioFiles, sources: seq<SourceRow>, clip: ClipRow, e: Option<QueueError>) {
    var path := Strip(clip.audioRelpath);
    if !NamedIn(sources, Strip(clip.sourceId)) then e == Some(UnknownSource(Strip(clip.sourceId)))
    else e == PathFault(files(path), path == "")
  }

  /** A raw row that no source names and that has no text of either kind. */
  ghost predicate Unheard(sources: seq<SourceRow>, raw: RawRow) {
    && !NamedIn(sources, "tohsakarin_" + Strip(raw.wemId)) && Strip(raw.asr) == "" && Strip(raw.text) == ""
  }

  ghost function UnheardIn(sources: seq<SourceRow>): RawRow -> bool {
    raw => Unheard(sources, raw)
  }

  /** The queued form of a clip: its own stripped fields and those of its source. */
  ghost predicate RightPrepared(sources: seq<SourceRow>, clip: ClipRow, priority: Priorities, item: Item) {
    && item.itemId == Strip(clip.clipId) && item.sourceId == Strip(clip.sourceId) && item.origin == Prepared
    && item.audioRelpath == Strip(clip.audioRelpath) && item.audioSha256 == Lower(Strip(clip.audioSha256))
    && item.transcript == Strip(clip.transcript) && item.duration == clip.duration
    && item.automaticReviewNotes == Strip(clip.reviewNotes)
    && exists i :: 0 <= i < |sources| && Strip(sources[i].sourceId) == item.sourceId
                   && SourceFields(sources[i], item) && item.priority == priority(clip, sources[i])
  }

  predicate SourceFields(source: SourceRow, item: Item) {
    && item.scene == Strip(source.scene) && item.sourceReference == Strip(source.sourceReference)
    && item.usageRights == Strip(source.usageRights) && item.speaker == Strip(source.speaker)
    && item.sourceNotes == Strip(source.notes)
  }

  /** The queued form of an unheard recording. */
  predicate RightUnresolved(raw: RawRow, item: Item) {
    && item.itemId == item.sourceId == "tohsakarin_" + Strip(raw.wemId) && item.origin == Unresolved
    && item.priority == 0 && item.transcript == "" && item.audioRelpath == raw.audioRelpath
    && item.audioSha256 == raw.audioSha256 && item.duration == raw.duration && item.scene == raw.scene
    && item.sourceReference == raw.sourceReference && item.speaker == raw.speaker
    && item.usageRights == "local_research_only; game_asset; do_not_redistribute"
    && item.sourceNotes ==
       "transcript_source=manual_review; match=unresolved; confidence=0.000; review_required=true"
    && item.automaticReviewNotes == "auto_flags=not_processed"
  }

  /** By priority, then scene, then id. */
  predicate InQueueOrder(a: Item, b: Item) {
    && a.priority <= b.priority
    && (a.priority == b.priority ==> VodCapture.StringAtMost(a.scene, b.scene))
    && (a.priority == b.priority && a.scene == b.scene ==> VodCapture.StringAtMost(a.itemId, b.itemId))
  }

  ghost predicate ClipsStop(files: AudioFiles, sources: seq<SourceRow>, clips: seq<ClipRow>, k: nat, e: QueueError) {
    && k < |clips| && ClipStops(files, sources, clips[k], Some(e))
    && forall i :: 0 <= i < k ==> ClipStops(files, sources, clips[i], None)
  }

  ghost predicate RawStops(sources: seq<SourceRow>, raws: seq<RawRow>, k: nat, e: QueueError) {
    && k < |raws| && Unheard(sources, raws[k]) && PathFault(raws[k].audio, false) == Some(e)
    && forall i :: 0 <= i < k && Unheard(sources, raws[i]) ==> PathFault(raws[i].audio, false) == None
  }

  /** The items the manifests ask for, before sorting. */
  ghost predicate RightItems(sources: seq<SourceRow>, clips: seq<ClipRow>, raws: seq<RawRow>, priority: Priorities,
                             items: seq<Item>) {
    var unheard := Filter(UnheardIn(sources), raws);
    && |items| == |clips| + |unheard|
    && (forall k :: 0 <= k < |clips| ==> RightPrepared(sources, clips[k], priority, items[k]))
    && (forall k :: 0 <= k < |unheard| ==> RightUnresolved(unheard[k], items[|clips| + k]))
  }

  /** What creating a queue promises: the first thing wrong with the manifests, or their items in queue order. */
  ghost predicate RightQueue(files: AudioFiles, sources: seq<SourceRow>, clips: seq<ClipRow>, raws: seq<RawRow>,
                             priority: Priorities, r: Result<seq<Item>, QueueError>) {
    if SourcesRepeat(sources) then r == Err(DuplicateSource)
    else if exists k, e :: ClipsStop(files, sources, clips, k, e) then
      r.Err? && exists k :: ClipsStop(files, sources, clips, k, r.error)
    else if exists k, e :: RawStops(sources, raws, k, e) then r.Err? && exists k :: RawStops(sources, raws, k, r.error)
    else
      exists items: seq<Item> ::
        && RightItems(sources, clips, raws, priority, items)
        && if exists i, j :: 0 <= i < j < |items| && items[i].itemId == items[j].itemId then r == Err(DuplicateItem)
           else r.Ok? && multiset(r.value) == multiset(items) && SortedBy(InQueueOrder, r.value)
  }

  lemma NamedExactly(sources: seq<SourceRow>, id: string)
    ensures id in IndexSources(sources) <==> NamedIn(sources, id)
  {
    hide Strip;
    if i :| 0 <= i < |sources| && Strip(sources[i].sourceId) == id { assert SourceKey(sources[i]) == id; }
    if id in IndexSources(sources) { assert SourceKey(sources[IndexSources(sources)[id]]) == id; }
  }

  lemma {:induction false} RepeatExactly(sources: seq<SourceRow>)
    ensures |IndexSources(sources)| <= |sources|
    ensures |IndexSources(sources)| != |sources| <==> SourcesRepeat(sources)
  {
    hide Strip;
    if sources != [] {
      var front, id := sources[..|sources| - 1], SourceKey(sources[|sources| - 1]);
      RepeatExactly(front);
      NamedExactly(front, id);
      RepeatsAtEnd(sources);
      KeyAdded(IndexSources(front), id, |sources| - 1);
    }
  }

  lemma KeyAdded(m: map<string, nat>, id: string, n: nat)
    ensures |m[id := n]| == if id in m then |m| else |m| + 1
  {
    assert m[id := n].Keys == m.Keys + {id};
    if id in m { assert m.Keys + {id} == m.Keys; }
  }

  lemma RepeatsAtEnd(sources: seq<SourceRow>)
    requires sources != []
    ensures var front := sources[..|sources| - 1];
            SourcesRepeat(sources)
            <==> SourcesRepeat(front) || NamedIn(front, Strip(sources[|sources| - 1].sourceId))
  {
    hide Strip;
    var n := |sources| - 1;
    var front := sources[..n];
    if NamedIn(front, Strip(sources[n].sourceId)) {
      var i :| 0 <= i < |front| && Strip(front[i].sourceId) == Strip(sources[n].sourceId);
      assert Strip(sources[i].sourceId) == Strip(sources[n].sourceId);
    }
    if SourcesRepeat(front) {
      var i, j :| 0 <= i < j < |front| && Strip(front[i].sourceId) == Strip(front[j].sourceId);
      assert Strip(sources[i].sourceId) == Strip(sources[j].sourceId);
    }
    if i, j :| 0 <= i < j < |sources| && Strip(sources[i].sourceId) == Strip(sources[j].sourceId) {
      assert front[i] == sources[i];
      if j < n { assert front[j] == sources[j]; }
    }
  }

  lemma ClipStopsExactly(files: AudioFiles, sources: seq<SourceRow>, clip: ClipRow, e: Option<QueueError>)
    ensures ClipFault(files, sources, clip) == e <==> ClipStops(files, sources, clip, e)
  {
    hide Strip, IndexSources;
    NamedExactly(sources, Strip(clip.sourceId));
  }

  lemma UnheardExactly(sources: seq<SourceRow>, raw: RawRow)
    ensures Textless(sources, raw) <==> Unheard(sources, raw)
    ensures RawFault(sources, raw) == if Unheard(sources, raw) then PathFault(raw.audio, false) else None
  {
    hide Strip, IndexSources;
    NamedExactly(sources, UnresolvedId(raw));
  }

  lemma PreparedIsRight(sources: seq<SourceRow>, clip: ClipRow, priority: Priorities)
    requires Strip(clip.sourceId) in IndexSources(sources)
    ensures RightPrepared(sources, clip, priority, ItemFor(sources, clip, priority))
  {
    hide Strip, Lower, IndexSources;
    var id := Strip(clip.sourceId);
    NamedAt(sources, id);
    var source := sources[IndexSources(sources)[id]];
    assert SourceFields(source, ItemFor(sources, clip, priority));
  }

  lemma NamedAt(sources: seq<SourceRow>, id: string)
    requires id in IndexSources(sources)
    ensures IndexSources(sources)[id] < |sources| && Strip(sources[IndexSources(sources)[id]].sourceId) == id
  {
    assert SourceKey(sources[IndexSources(sources)[id]]) == id;
  }

  lemma {:induction false} UnresolvedAre(sources: seq<SourceRow>, raws: seq<RawRow>)
    ensures var unheard := Filter(UnheardIn(sources), raws);
            UnresolvedItems(sources, raws) == Map(UnresolvedItem, unheard)
  {
    hide Strip, Unheard, Textless, UnresolvedItem;
    if raws != [] {
      var front, last := raws[..|raws| - 1], raws[|raws| - 1];
      assert raws == front + [last];
      UnresolvedAre(sources, front);
      UnheardExactly(sources, last);
      FilterAppend(UnheardIn(sources), front, last);
      if Unheard(sources, last) { MapAppend(UnresolvedItem, Filter(UnheardIn(sources), front), last); }
    }
  }

  lemma ItemsAreRight(sources: seq<SourceRow>, clips: seq<ClipRow>, raws: seq<RawRow>, priority: Priorities)
    requires Registered(sources, clips)
    ensures RightItems(sources, clips, raws, priority, AllItems(sources, clips, raws, priority))
  {
    hide Strip, IndexSources, RightPrepared, ItemFor, UnresolvedItems;
    var items := AllItems(sources, clips, raws, priority);
    UnresolvedAre(sources, raws);
    var unheard := Filter(UnheardIn(sources), raws);
    forall k | 0 <= k < |clips| ensures RightPrepared(sources, clips[k], priority, items[k]) {
      PreparedIsRight(sources, clips[k], priority);
    }
    forall k | 0 <= k < |unheard| ensures RightUnresolved(unheard[k], items[|clips| + k]) {
      assert items[|clips| + k] == UnresolvedItem(unheard[k]);
    }
  }

  lemma QueueOrderIsPreorder()
    ensures TotalPreorder(QueueOrder) && forall a, b :: QueueOrder(a, b) ==> InQueueOrder(a, b)
  {
    forall a, b ensures QueueOrder(a, b) || QueueOrder(b, a) {
      VodCapture.StringAtMostTotal(a.scene, b.scene);
      VodCapture.StringAtMostTotal(a.itemId, b.itemId);
    }
    forall a, b, c | QueueOrder(a, b) && QueueOrder(b, c) ensures QueueOrder(a, c) { QueueOrderChains(a, b, c); }
    forall a, b | QueueOrder(a, b) ensures InQueueOrder(a, b) {
      VodCapture.StringAtMostTotal(a.scene, a.scene);
    }
  }

  lemma QueueOrderChains(a: Item, b: Item, c: Item)
    requires QueueOrder(a, b) && QueueOrder(b, c)
    ensures QueueOrder(a, c)
  {
    if a.priority == b.priority == c.priority {
      if a.scene == b.scene == c.scene {
        VodCapture.StringAtMostTransitive(a.itemId, b.itemId, c.itemId);
      } else if a.scene != b.scene && b.scene != c.scene {
        VodCapture.StringAtMostTransitive(a.scene, b.scene, c.scene);
        if a.scene == c.scene { VodCapture.StringAtMostAntisymmetric(a.scene, b.scene); }
      }
    }
  }

  lemma SortedIsRight(items: seq<Item>)
    ensures var sorted := Sort(QueueOrder, items);
            multiset(sorted) == multiset(items) && SortedBy(InQueueOrder, sorted)
  {
    hide QueueOrder, InQueueOrder;
    QueueOrderIsPreorder();
    SortSorts(QueueOrder, items);
    SortPermutes(QueueOrder, items);
  }

  lemma DistinctMeans(items: seq<Item>)
    ensures DistinctItems(items) <==> !exists i, j :: 0 <= i < j < |items| && items[i].itemId == items[j].itemId
  {}

  lemma ClipsStopWhen(files: AudioFiles, sources: seq<SourceRow>, clips: seq<ClipRow>)
    ensures forall k: nat, e :: ClipsStop(files, sources, clips, k, e) <==>
              k < |clips| && ClipFault(files, sources, clips[k]) == Some(e)
              && forall i :: 0 <= i < k ==> ClipFault(files, sources, clips[i]).None?
  {
    hide ClipFault, ClipStops;
    forall i, e | 0 <= i < |clips|
      ensures ClipFault(files, sources, clips[i]) == e <==> ClipStops(files, sources, clips[i], e)
    {
      ClipStopsExactly(files, sources, clips[i], e);
    }
  }

  lemma RawStopsWhen(sources: seq<SourceRow>, raws: seq<RawRow>)
    ensures forall k: nat, e :: RawStops(sources, raws, k, e) <==>
              k < |raws| && RawFault(sources, raws[k]) == Some(e)
              && forall i :: 0 <= i < k ==> RawFault(sources, raws[i]).None?
  {
    hide RawFault, Unheard, PathFault, Textless;
    forall i | 0 <= i < |raws|
      ensures RawFault(sources, raws[i]) ==
              if Unheard(sources, raws[i]) then PathFault(raws[i].audio, false) else None
    {
      UnheardExactly(sources, raws[i]);
    }
  }

  /** `create_review_run`, from the manifests to the frozen queue: it succeeds exactly on queueable manifests, with
      the sorted items, which fit the manifests. */
  method CreateQueue(files: AudioFiles, sources: seq<SourceRow>, clips: seq<ClipRow>, raws: seq<RawRow>,
                     priority: Priorities)
    returns (r: Result<seq<Item>, QueueError>)
    ensures r.Ok? <==> Queueable(files, sources, clips, raws, priority)
    ensures r.Ok? ==> r.value == Sort(QueueOrder, AllItems(sources, clips, raws, priority))
                      && QueueFits(sources, clips, r.value)
    ensures RightQueue(files, sources, clips, raws, priority, r)
    ensures r == Err(DuplicateSource) <==> |sources| != |IndexSources(sources)|
    ensures r.Err? && r.error.UnknownSource? ==>
              exists k :: 0 <= k < |clips| && Strip(clips[k].sourceId) == r.error.id
                  && r.error.id !in IndexSources(sources)
  {
    hide Strip, IndexSources, Queued, QueueFits, PreparedItem, UnresolvedItems, NewItem, DistinctItems, ItemIds,
         QueueOrder, Textless, Registered, PreparedItems, AudioAt, RightItems, ClipsStop, RawStops, SourcesRepeat,
         InQueueOrder;
    RepeatExactly(sources);
    ClipsStopWhen(files, sources, clips);
    RawStopsWhen(sources, raws);
    if |IndexSources(sources)| != |sources| { return Err(DuplicateSource); }
    NoFaultExactly(files, sources, clips);
    var prepared := PrepareClips(files, sources, clips, priority);
    if prepared.Err? { return prepared; }
    var unresolved := CollectUnresolved(sources, raws);
    if unresolved.Err? { return unresolved; }
    PreparedQueued(files, sources, clips, unresolved.value, priority);
    var items := prepared.value + unresolved.value;
    DistinctBySize(items);
    ItemsAreRight(sources, clips, raws, priority);
    DistinctMeans(items);
    if |ItemIds(items)| != |items| { return Err(DuplicateItem); }
    var sorted := Sort(QueueOrder, items);
    SortedIsRight(items);
    QueuedFits(sources, clips, items, sorted);
    r := Ok(sorted);
  }
}
