/** The frozen train/validation split and its validator: `scripts/train/workspace.py`. */
module FreezeSplit {
  import opened Wrappers
  import opened Rounding
  import opened Sorting
  import opened Distinct
  import opened LogText
  import opened ReviewQueue
  import opened VodCapture

  const TRAIN := "train"
  const VALIDATION := "validation"

  datatype SplitRow = SplitRow(clipId: string, sourceId: string, split: string, audioSha256: string, revision: string)

  /** What the dataset revision hashes of one clip. */
  datatype StableClip = StableClip(clipId: string, sourceId: string, audioSha256: string)

  /** `validation_ratio` as an exact fraction. */
  datatype Config = Config(num: nat, den: nat, seed: string)

  /** The SHA-256 digests in hexadecimal: of a seed and a source, and of a whole dataset. */
  datatype Hashes = Hashes(rank: (string, string) -> string, revision: (Config, seq<StableClip>) -> string)

  // ----- Constants of the split file

  lemma SplitWords()
    ensures Strip(TRAIN) == TRAIN && Strip(VALIDATION) == VALIDATION && TRAIN != VALIDATION
  {
    assert TRAIN[0] == 't' && VALIDATION[0] == 'v';
  }

  // ----- Clip rows

  predicate HexChar(c: char) {
    '0' <= c <= '9' || 'a' <= c <= 'f' || 'A' <= c <= 'F'
  }

  predicate HexDigest(s: string) {
    |s| == 64 && forall i :: 0 <= i < |s| ==> HexChar(s[i])
  }

  predicate IsAccepted(row: ClipRow) {
    Strip(row.reviewStatus) == "accepted"
  }

  predicate KnownStatus(row: ClipRow) {
    var s := Strip(row.reviewStatus);
    s == "pending" || s == "accepted" || s == "rejected"
  }

  predicate AcceptedFilled(row: ClipRow) {
    && Strip(row.sourceId) != "" && Strip(row.audioRelpath) != "" && Strip(row.transcript) != ""
    && Strip(row.audioSha256) != "" && Strip(row.reviewer) != ""
  }

  /** What one row must hold by itself. */
  predicate RowValid(row: ClipRow) {
    && ClipKey(row) != "" && KnownStatus(row)
    && (IsAccepted(row) ==> AcceptedFilled(row) && HexDigest(Strip(row.audioSha256)))
  }

  predicate ValidClips(rows: seq<ClipRow>) {
    (forall i :: 0 <= i < |rows| ==> RowValid(rows[i])) && DistinctClips(rows)
  }

  datatype ClipError = BlankClipId | DuplicateClipId | BadStatus | BlankField | BadDigest

  /** The faults of one row; a blank digest is reported as a blank field only. */
  function RowErrors(row: ClipRow, seen: set<string>): (errors: seq<ClipError>)
    ensures errors == [] <==> RowValid(row) && ClipKey(row) !in seen
  {
    (if ClipKey(row) == "" then [BlankClipId] else if ClipKey(row) in seen then [DuplicateClipId] else [])
    + (if KnownStatus(row) then [] else [BadStatus])
    + (if IsAccepted(row) && !AcceptedFilled(row) then [BlankField] else [])
    + (if IsAccepted(row) && Strip(row.audioSha256) != "" && !HexDigest(Strip(row.audioSha256)) then [BadDigest]
       else [])
  }

  /** `_validate_clips`: no error exactly when every row is valid and the stripped ids are distinct. */
  method ValidateClips(rows: seq<ClipRow>) returns (errors: seq<ClipError>)
    ensures errors == [] <==> ValidClips(rows)
  {
    hide RowValid, ClipKey;
    errors := [];
    var seen: set<string> := {};
    for i := 0 to |rows|
      invariant forall k :: 0 <= k < i ==> ClipKey(rows[k]) in seen
      invariant forall id :: id in seen ==> exists k :: 0 <= k < i && ClipKey(rows[k]) == id
      invariant errors == [] <==> ValidClips(rows[..i])
    {
      ValidClipsStep(rows, i);
      errors := errors + RowErrors(rows[i], seen);
      seen := seen + {ClipKey(rows[i])};
    }
    assert rows[..|rows|] == rows;
  }

  lemma ValidClipsStep(rows: seq<ClipRow>, i: nat)
    requires i < |rows|
    ensures ValidClips(rows[..i + 1]) <==>
            ValidClips(rows[..i]) && RowValid(rows[i]) && forall k :: 0 <= k < i ==>
                ClipKey(rows[k]) != ClipKey(rows[i])
  {
    hide RowValid, ClipKey;
    var before, after := rows[..i], rows[..i + 1];
    assert forall k :: 0 <= k < i ==> before[k] == after[k] == rows[k];
    assert after[i] == rows[i];
    if ValidClips(before) && RowValid(rows[i]) && forall k :: 0 <= k < i ==> ClipKey(rows[k]) != ClipKey(rows[i]) {
      assert DistinctClips(after);
    }
  }

  // ----- The split

  function AcceptedRows(clips: seq<ClipRow>): seq<ClipRow> {
    Filter(IsAccepted, clips)
  }

  function SourceOf(row: ClipRow): string {
    Strip(row.sourceId)
  }

  /** Every non-blank source once, in order of first appearance. */
  function DistinctSources(rows: seq<ClipRow>): (ids: seq<string>)
    ensures forall id :: id in ids <==> id != "" && exists k :: 0 <= k < |rows| && SourceOf(rows[k]) == id
    ensures NoRepeats(ids)
  {
    if rows == [] then [] else
      var front, id := rows[..|rows| - 1], SourceOf(rows[|rows| - 1]);
      assert forall k :: 0 <= k < |front| ==> front[k] == rows[k];
      var ids := DistinctSources(front);
      if id == "" || id in ids then ids else ids + [id]
  }

  /** Every source once, in string order. */
  function SortedSources(rows: seq<ClipRow>): seq<string> {
    Sort(StringAtMost, DistinctSources(rows))
  }

  function Ranked(h: Hashes, seed: string, rows: seq<ClipRow>): seq<string> {
    Sort((a, b) => StringAtMost(h.rank(seed, a), h.rank(seed, b)), SortedSources(rows))
  }

  /** The rounded share of the sources, kept between one and all but one. */
  function ValidationCount(n: nat, config: Config): int
    requires config.den > 0
  {
    var rounded := RoundHalfEven(n * config.num, config.den);
    var capped := if rounded < n - 1 then rounded else n - 1;
    if capped < 1 then 1 else capped
  }

  predicate ConfigValid(config: Config) {
    0 < config.num < config.den && Strip(config.seed) != ""
  }

  predicate ByClipId(a: ClipRow, b: ClipRow) {
    StringAtMost(a.clipId, b.clipId)
  }

  predicate ByStableId(a: StableClip, b: StableClip) {
    StringAtMost(a.clipId, b.clipId)
  }

  function StableOf(row: ClipRow): StableClip {
    StableClip(ClipKey(row), SourceOf(row), Lower(Strip(row.audioSha256)))
  }

  /** `_dataset_revision`. */
  function Revision(h: Hashes, config: Config, rows: seq<ClipRow>): string {
    h.revision(config, Sort(ByStableId, Map(StableOf, rows)))
  }

  function RowOf(row: ClipRow, validation: seq<string>, revision: string): SplitRow {
    SplitRow(ClipKey(row), SourceOf(row), if SourceOf(row) in validation then VALIDATION else TRAIN,
             Lower(Strip(row.audioSha256)), revision)
  }

  function ValidationSources(h: Hashes, config: Config, rows: seq<ClipRow>): (ids: seq<string>)
    requires ConfigValid(config) && |SortedSources(rows)| >= 2
    ensures |ids| == ValidationCount(|SortedSources(rows)|, config) && 1 <= |ids| < |SortedSources(rows)|
  {
    SortPermutes((a, b) => StringAtMost(h.rank(config.seed, a), h.rank(config.seed, b)), SortedSources(rows));
    Ranked(h, config.seed, rows)[..ValidationCount(|SortedSources(rows)|, config)]
  }

  function SplitRows(h: Hashes, config: Config, rows: seq<ClipRow>): (split: seq<SplitRow>)
    requires ConfigValid(config) && |SortedSources(rows)| >= 2
    ensures |split| == |rows|
  {
    var validation := ValidationSources(h, config, rows);
    var revision := Revision(h, config, rows);
    SortPermutes(ByClipId, rows);
    Map((row: ClipRow) => RowOf(row, validation, revision), Sort(ByClipId, rows))
  }

  // ----- The validator of the stored split

  predicate CoversExactly(clips: seq<ClipRow>, rows: seq<SplitRow>) {
    && AcceptedRows(clips) != []
    && (forall r :: r in rows ==> exists c :: c in AcceptedRows(clips) && ClipKey(c) == Strip(r.clipId))
    && (forall c :: c in AcceptedRows(clips) ==> exists r :: r in rows && ClipKey(c) == Strip(r.clipId))
  }

  predicate NoLeak(rows: seq<SplitRow>) {
    forall i, j :: 0 <= i < |rows| && 0 <= j < |rows| && Strip(rows[i].sourceId) == Strip(rows[j].sourceId)
                   ==> Strip(rows[i].split) == Strip(rows[j].split)
  }

  predicate BothHalves(rows: seq<SplitRow>) {
    && (forall i :: 0 <= i < |rows| ==> Strip(rows[i].split) == TRAIN || Strip(rows[i].split) == VALIDATION)
    && (exists i :: 0 <= i < |rows| && Strip(rows[i].split) == TRAIN)
    && (exists i :: 0 <= i < |rows| && Strip(rows[i].split) == VALIDATION)
  }

  predicate OneRevision(rows: seq<SplitRow>) {
    rows != [] && Strip(rows[0].revision) != "" && forall i :: 0 <= i < |rows| ==>
        Strip(rows[i].revision) == Strip(rows[0].revision)
  }

  predicate FrozenValid(clips: seq<ClipRow>, rows: seq<SplitRow>) {
    CoversExactly(clips, rows) && NoLeak(rows) && BothHalves(rows) && OneRevision(rows)
  }

  // ----- Orders and rearrangements

  lemma StringOrder()
    ensures TotalPreorder(StringAtMost)
  {
    forall a, b ensures StringAtMost(a, b) || StringAtMost(b, a) { StringAtMostTotal(a, b); }
    forall a, b, c | StringAtMost(a, b) && StringAtMost(b, c)
      ensures StringAtMost(a, c)
    {
      StringAtMostTransitive(a, b, c);
    }
  }

  lemma ClipOrders()
    ensures TotalPreorder(ByClipId) && TotalPreorder(ByStableId)
  {
    StringOrder();
    hide StringAtMost;
    assert forall a, b :: ByClipId(a, b) || ByClipId(b, a);
    assert forall a, b, c :: ByClipId(a, b) && ByClipId(b, c) ==> ByClipId(a, c);
    assert forall a, b :: ByStableId(a, b) || ByStableId(b, a);
    assert forall a, b, c :: ByStableId(a, b) && ByStableId(b, c) ==> ByStableId(a, c);
  }

  lemma StringsDistinguished(s: seq<string>)
    ensures Distinguishes(StringAtMost, s)
  {
    forall i, j | 0 <= i < |s| && 0 <= j < |s| && StringAtMost(s[i], s[j]) && StringAtMost(s[j], s[i])
      ensures s[i] == s[j]
    {
      StringAtMostAntisymmetric(s[i], s[j]);
    }
  }

  /** No two rows of these share a stripped clip id. */
  ghost predicate KeyedRows(rows: seq<ClipRow>) {
    forall a, b :: a in rows && b in rows && ClipKey(a) == ClipKey(b) ==> a == b
  }

  lemma ValidKeyed(clips: seq<ClipRow>)
    requires ValidClips(clips)
    ensures KeyedRows(AcceptedRows(clips))
  {
    hide ClipKey, RowValid, IsAccepted;
    forall a, b | a in AcceptedRows(clips) && b in AcceptedRows(clips) && ClipKey(a) == ClipKey(b) ensures a == b {
      assert a in clips && b in clips;
      var i :| 0 <= i < |clips| && clips[i] == a;
      var j :| 0 <= j < |clips| && clips[j] == b;
      assert i == j;
    }
  }

  lemma RowsDistinguished(rows: seq<ClipRow>)
    requires KeyedRows(rows)
    ensures Distinguishes(ByClipId, Sort(ByClipId, rows))
  {
    hide StringAtMost, Strip;
    SortKeepsElements(ByClipId, rows);
    var s := Sort(ByClipId, rows);
    forall i, j | 0 <= i < |s| && 0 <= j < |s| && ByClipId(s[i], s[j]) && ByClipId(s[j], s[i]) ensures s[i] == s[j] {
      StringAtMostAntisymmetric(s[i].clipId, s[j].clipId);
      assert s[i] in rows && s[j] in rows;
    }
  }

  lemma StableDistinguished(rows: seq<ClipRow>)
    requires KeyedRows(rows)
    ensures Distinguishes(ByStableId, Sort(ByStableId, Map(StableOf, rows)))
  {
    hide StringAtMost, Strip, ClipKey, Lower, SourceOf;
    var stable := Map(StableOf, rows);
    SortKeepsElements(ByStableId, stable);
    var s := Sort(ByStableId, stable);
    forall i, j | 0 <= i < |s| && 0 <= j < |s| && ByStableId(s[i], s[j]) && ByStableId(s[j], s[i])
      ensures s[i] == s[j]
    {
      StringAtMostAntisymmetric(s[i].clipId, s[j].clipId);
      assert s[i] in stable && s[j] in stable;
      var p :| 0 <= p < |rows| && stable[p] == s[i];
      var q :| 0 <= q < |rows| && stable[q] == s[j];
      assert rows[p] in rows && rows[q] in rows;
      assert stable[p] == StableOf(rows[p]) && stable[q] == StableOf(rows[q]);
    }
  }

  lemma SourcesAlike(a: seq<ClipRow>, b: seq<ClipRow>)
    requires multiset(a) == multiset(b)
    ensures SortedSources(a) == SortedSources(b)
  {
    hide StringAtMost, SourceOf, NoRepeats;
    var p, q := DistinctSources(a), DistinctSources(b);
    forall x | x in p ensures x in q { SourceMoves(a, b, x); }
    forall x | x in q ensures x in p { SourceMoves(b, a, x); }
    SameMembers(p, q);
    StringOrder();
    StringsDistinguished(Sort(StringAtMost, p));
    SortAlike(StringAtMost, p, q);
  }

  lemma SourceMoves(a: seq<ClipRow>, b: seq<ClipRow>, x: string)
    requires multiset(a) == multiset(b) && x in DistinctSources(a)
    ensures x in DistinctSources(b)
  {
    hide SourceOf;
    var k :| 0 <= k < |a| && SourceOf(a[k]) == x;
    assert a[k] in multiset(b);
    var j :| 0 <= j < |b| && b[j] == a[k];
  }

  /** Main result: the split and its revision do not depend on the order of the clip rows. */
  lemma SplitIgnoresOrder(h: Hashes, config: Config, clips: seq<ClipRow>, other: seq<ClipRow>)
    requires ConfigValid(config) && ValidClips(clips) && multiset(clips) == multiset(other)
    ensures var a, b := AcceptedRows(clips), AcceptedRows(other);
            && SortedSources(a) == SortedSources(b)
            && Revision(h, config, a) == Revision(h, config, b)
            && (|SortedSources(a)| >= 2 ==> SplitRows(h, config, a) == SplitRows(h, config, b))
  {
    var a, b := AcceptedRows(clips), AcceptedRows(other);
    hide ValidClips, DistinctSources, KeyedRows, StableOf, RowOf, ByClipId, ByStableId, IsAccepted, Distinguishes,
         TotalPreorder;
    FilterCountPermutation(IsAccepted, clips, other);
    ValidKeyed(clips);
    SourcesAlike(a, b);
    ClipOrders();
    RowsDistinguished(a);
    SortAlike(ByClipId, a, b);
    StableDistinguished(a);
    MapMultiset(StableOf, a, b);
    SortAlike(ByStableId, Map(StableOf, a), Map(StableOf, b));
  }

  /** Validity of the clip manifest does not depend on row order either. */
  lemma ValidClipsIgnoreOrder(clips: seq<ClipRow>, other: seq<ClipRow>)
    requires ValidClips(clips) && multiset(clips) == multiset(other)
    ensures ValidClips(other)
  {
    hide RowValid;
    forall i | 0 <= i < |other| ensures RowValid(other[i]) {
      assert other[i] in multiset(clips);
      var k :| 0 <= k < |clips| && clips[k] == other[i];
    }
    var keys, others := Map(ClipKey, clips), Map(ClipKey, other);
    MapMultiset(ClipKey, clips, other);
    assert NoRepeats(keys);
    PermutedNoRepeats(keys, others);
    forall i, j | 0 <= i < j < |other| ensures ClipKey(other[i]) != ClipKey(other[j]) {
      assert others[i] == ClipKey(other[i]) && others[j] == ClipKey(other[j]);
    }
  }

  // ----- The written split passes the validator

  /** The revision digest is non-empty hexadecimal text. */
  ghost predicate HexRevision(h: Hashes) {
    forall config, clips :: Strip(h.revision(config, clips)) != ""
  }

  /** Every split row is the image of an accepted row, and every accepted row has one. */
  lemma SplitRowsAre(h: Hashes, config: Config, rows: seq<ClipRow>)
    requires ConfigValid(config) && |SortedSources(rows)| >= 2
    ensures Images(rows, SplitRows(h, config, rows), ValidationSources(h, config, rows), Revision(h, config, rows))
  {
    hide RowOf, ValidationSources, Revision, ByClipId, SortedSources, ConfigValid;
    SortPermutes(ByClipId, rows);
    SortKeepsElements(ByClipId, rows);
    var split, sorted := SplitRows(h, config, rows), Sort(ByClipId, rows);
    var ids, revision := ValidationSources(h, config, rows), Revision(h, config, rows);
    assert forall i :: 0 <= i < |split| ==> split[i] == RowOf(sorted[i], ids, revision);
    hide SplitRows;
    forall i | 0 <= i < |split| ensures IsImage(rows, split[i], ids, revision) {
      assert sorted[i] in rows;
    }
    forall c | c in rows ensures RowOf(c, ids, revision) in split {
      assert c in sorted;
      var k :| 0 <= k < |sorted| && sorted[k] == c;
      assert split[k] == RowOf(sorted[k], ids, revision);
    }
  }

  lemma RowStripped(c: ClipRow, ids: seq<string>, revision: string)
    ensures var r := RowOf(c, ids, revision);
            && Strip(r.clipId) == ClipKey(c) && Strip(r.sourceId) == SourceOf(c)
            && Strip(r.split) == (if SourceOf(c) in ids then VALIDATION else TRAIN) && r.revision == revision
  {
    hide Strip;
    StripTwice(c.clipId);
    StripTwice(c.sourceId);
    SplitWords();
  }

  lemma SourceHasRow(rows: seq<ClipRow>, id: string)
    requires id in DistinctSources(rows)
    ensures exists c :: c in rows && SourceOf(c) == id
  {
    hide SourceOf, NoRepeats;
    var k :| 0 <= k < |rows| && SourceOf(rows[k]) == id;
    assert rows[k] in rows;
  }

  lemma RankedMembers(h: Hashes, seed: string, rows: seq<ClipRow>)
    ensures multiset(Ranked(h, seed, rows)) == multiset(DistinctSources(rows))
    ensures NoRepeats(Ranked(h, seed, rows)) && |Ranked(h, seed, rows)| == |SortedSources(rows)|
  {
    hide DistinctSources, StringAtMost;
    SortPermutes(StringAtMost, DistinctSources(rows));
    SortPermutes((a, b) => StringAtMost(h.rank(seed, a), h.rank(seed, b)), SortedSources(rows));
    RepeatFree(rows);
    PermutedNoRepeats(DistinctSources(rows), Ranked(h, seed, rows));
  }

  lemma RepeatFree(rows: seq<ClipRow>)
    ensures NoRepeats(DistinctSources(rows))
  {}

  lemma BeyondPrefix(ids: seq<string>, n: nat)
    requires NoRepeats(ids) && n < |ids|
    ensures ids[n] !in ids[..n]
  {
    assert forall k :: 0 <= k < n ==> ids[..n][k] == ids[k];
  }

  /** The sources chosen for validation are some, but not all, of the sources. */
  lemma SourcesSplit(h: Hashes, config: Config, rows: seq<ClipRow>)
    requires ConfigValid(config) && |SortedSources(rows)| >= 2
    ensures exists c :: c in rows && SourceOf(c) in ValidationSources(h, config, rows)
    ensures exists c :: c in rows && SourceOf(c) !in ValidationSources(h, config, rows)
  {
    var ranked, chosen := Ranked(h, config.seed, rows), ValidationSources(h, config, rows);
    hide DistinctSources, SourceOf, Ranked, NoRepeats, SortedSources, ConfigValid, ValidationCount;
    RankedMembers(h, config.seed, rows);
    assert chosen == ranked[..|chosen|];
    hide ValidationSources;
    BeyondPrefix(ranked, |chosen|);
    assert ranked[0] in multiset(DistinctSources(rows)) && ranked[|chosen|] in multiset(DistinctSources(rows));
    SourceHasRow(rows, ranked[0]);
    SourceHasRow(rows, ranked[|chosen|]);
    assert chosen[0] == ranked[0];
  }

  /** What the validator sees of one written row. */
  predicate RowFits(r: SplitRow, ids: seq<string>, revision: string) {
    r.revision == revision && Strip(r.split) == if Strip(r.sourceId) in ids then VALIDATION else TRAIN
  }

  lemma FitsGiveValid(split: seq<SplitRow>, ids: seq<string>, revision: string, i: nat, j: nat)
    requires forall k :: 0 <= k < |split| ==> RowFits(split[k], ids, revision)
    requires i < |split| && j < |split| && Strip(split[i].sourceId) in ids && Strip(split[j].sourceId) !in ids
    requires Strip(revision) != ""
    ensures NoLeak(split) && BothHalves(split) && OneRevision(split)
  {
    hide Strip;
    assert RowFits(split[i], ids, revision) && RowFits(split[j], ids, revision);
    forall k | 0 <= k < |split|
      ensures split[k].revision == revision && Strip(split[k].split) == if Strip(split[k].sourceId) in ids
              then VALIDATION else TRAIN
    {
      assert RowFits(split[k], ids, revision);
    }
  }

  /** The written rows are exactly the images of the accepted ones. */
  ghost predicate Images(rows: seq<ClipRow>, split: seq<SplitRow>, ids: seq<string>, revision: string) {
    && (forall i :: 0 <= i < |split| ==> IsImage(rows, split[i], ids, revision))
    && (forall c :: c in rows ==> RowOf(c, ids, revision) in split)
  }

  predicate IsImage(rows: seq<ClipRow>, r: SplitRow, ids: seq<string>, revision: string) {
    exists c :: c in rows && r == RowOf(c, ids, revision)
  }

  lemma ImageAt(rows: seq<ClipRow>, split: seq<SplitRow>, ids: seq<string>, revision: string, i: nat)
    requires Images(rows, split, ids, revision) && i < |split|
    ensures RowFits(split[i], ids, revision) && exists c :: c in rows && ClipKey(c) == Strip(split[i].clipId)
  {
    hide RowOf, Strip, ClipKey, SourceOf;
    assert IsImage(rows, split[i], ids, revision);
    var c :| c in rows && split[i] == RowOf(c, ids, revision);
    RowStripped(c, ids, revision);
  }

  lemma ImageOf(rows: seq<ClipRow>, split: seq<SplitRow>, ids: seq<string>, revision: string, c: ClipRow)
      returns (i: nat)
    requires Images(rows, split, ids, revision) && c in rows
    ensures i < |split| && ClipKey(c) == Strip(split[i].clipId) && Strip(split[i].sourceId) == SourceOf(c)
  {
    hide RowOf, Strip, ClipKey, SourceOf;
    RowStripped(c, ids, revision);
    assert RowOf(c, ids, revision) in split;
    i :| 0 <= i < |split| && split[i] == RowOf(c, ids, revision);
  }

  lemma ImagesCover(clips: seq<ClipRow>, split: seq<SplitRow>, ids: seq<string>, revision: string)
    requires Images(AcceptedRows(clips), split, ids, revision) && AcceptedRows(clips) != []
    ensures CoversExactly(clips, split)
  {
    hide Strip, ClipKey, Images, AcceptedRows;
    var rows := AcceptedRows(clips);
    forall r | r in split ensures exists c :: c in rows && ClipKey(c) == Strip(r.clipId) {
      var i :| 0 <= i < |split| && split[i] == r;
      ImageAt(rows, split, ids, revision, i);
    }
    forall c | c in rows ensures exists r :: r in split && ClipKey(c) == Strip(r.clipId) {
      var i := ImageOf(rows, split, ids, revision, c);
      assert split[i] in split;
    }
  }

  lemma ImagesValid(rows: seq<ClipRow>, split: seq<SplitRow>, ids: seq<string>, revision: string, chosen: ClipRow,
                    left: ClipRow)
    requires Images(rows, split, ids, revision)
    requires chosen in rows && SourceOf(chosen) in ids && left in rows && SourceOf(left) !in ids
             && Strip(revision) != ""
    ensures NoLeak(split) && BothHalves(split) && OneRevision(split)
  {
    hide Strip, SourceOf, ClipKey, Images, RowFits, NoLeak, BothHalves, OneRevision;
    forall k | 0 <= k < |split| ensures RowFits(split[k], ids, revision) { ImageAt(rows, split, ids, revision, k); }
    var i := ImageOf(rows, split, ids, revision, chosen);
    var j := ImageOf(rows, split, ids, revision, left);
    FitsGiveValid(split, ids, revision, i, j);
  }

  /** Main result: whatever the hashes, the split that is written is accepted by the validator. */
  lemma WrittenSplitIsValid(h: Hashes, config: Config, clips: seq<ClipRow>)
    requires ConfigValid(config) && HexRevision(h) && |SortedSources(AcceptedRows(clips))| >= 2
    ensures FrozenValid(clips, SplitRows(h, config, AcceptedRows(clips)))
  {
    var rows := AcceptedRows(clips);
    RevisionNonBlank(h, config, rows);
    hide ConfigValid, SplitRows, ValidationSources, Revision, SortedSources, Images, Strip, ClipKey, SourceOf,
         AcceptedRows, HexRevision, NoLeak, BothHalves, OneRevision, CoversExactly;
    var split := SplitRows(h, config, rows);
    var ids, revision := ValidationSources(h, config, rows), Revision(h, config, rows);
    SplitRowsAre(h, config, rows);
    SourcesSplit(h, config, rows);
    var chosen: ClipRow :| chosen in rows && SourceOf(chosen) in ids;
    var left: ClipRow :| left in rows && SourceOf(left) !in ids;
    ImagesValid(rows, split, ids, revision, chosen, left);
    ImagesCover(clips, split, ids, revision);
  }

  lemma RevisionNonBlank(h: Hashes, config: Config, rows: seq<ClipRow>)
    requires HexRevision(h)
    ensures Strip(Revision(h, config, rows)) != ""
  {}

  /** Main result about the choice itself: a written row is in validation exactly when its source was chosen,
      the number chosen is the clamped rounded share, and no chosen source ranks after one left in training. */
  lemma SplitByRank(h: Hashes, config: Config, rows: seq<ClipRow>, i: nat, a: string, b: string)
    requires ConfigValid(config) && |SortedSources(rows)| >= 2 && i < |rows|
    requires var ids := ValidationSources(h, config, rows); a in ids && b in SortedSources(rows) && b !in ids
    ensures var split, ids := SplitRows(h, config, rows), ValidationSources(h, config, rows);
            && (split[i].split == VALIDATION <==> split[i].sourceId in ids)
            && (split[i].split == TRAIN <==> split[i].sourceId !in ids)
            && NoRepeats(ids) && |ids| == ValidationCount(|SortedSources(rows)|, config)
            && StringAtMost(h.rank(config.seed, a), h.rank(config.seed, b))
  {
    hide DistinctSources, SourceOf, NoRepeats, SortedSources, StringAtMost, ValidationCount, Revision, Strip, Images;
    SplitRowsAre(h, config, rows);
    RankedMembers(h, config.seed, rows);
    PrefixNoRepeats(Ranked(h, config.seed, rows), |ValidationSources(h, config, rows)|);
    ChosenRankFirst(h, config, rows, a, b);
    ImageSplit(rows, SplitRows(h, config, rows), ValidationSources(h, config, rows), Revision(h, config, rows), i);
  }

  lemma PrefixNoRepeats(s: seq<string>, n: nat)
    requires NoRepeats(s) && n <= |s|
    ensures NoRepeats(s[..n])
  {
    assert forall k :: 0 <= k < n ==> s[..n][k] == s[k];
  }

  lemma ImageSplit(rows: seq<ClipRow>, split: seq<SplitRow>, ids: seq<string>, revision: string, i: nat)
    requires Images(rows, split, ids, revision) && i < |split|
    ensures split[i].split == if split[i].sourceId in ids then VALIDATION else TRAIN
    ensures TRAIN != VALIDATION
  {
    hide SourceOf, ClipKey, Lower;
    assert IsImage(rows, split[i], ids, revision);
    SplitWords();
  }

  lemma RankOrder(h: Hashes, seed: string)
    ensures TotalPreorder((a, b) => StringAtMost(h.rank(seed, a), h.rank(seed, b)))
  {
    StringOrder();
    hide StringAtMost;
    var le := (a, b) => StringAtMost(h.rank(seed, a), h.rank(seed, b));
    assert forall a, b :: le(a, b) || le(b, a);
    assert forall a, b, c :: le(a, b) && le(b, c) ==> le(a, c);
  }

  lemma ChosenRankFirst(h: Hashes, config: Config, rows: seq<ClipRow>, a: string, b: string)
    requires ConfigValid(config) && |SortedSources(rows)| >= 2
    requires var ids := ValidationSources(h, config, rows); a in ids && b in SortedSources(rows) && b !in ids
    ensures StringAtMost(h.rank(config.seed, a), h.rank(config.seed, b))
  {
    hide StringAtMost, SortedSources, ValidationCount, ConfigValid;
    var le := (x, y) => StringAtMost(h.rank(config.seed, x), h.rank(config.seed, y));
    var ranked, ids := Ranked(h, config.seed, rows), ValidationSources(h, config, rows);
    assert ranked == Sort(le, SortedSources(rows));
    RankOrder(h, config.seed);
    SortSorts(le, SortedSources(rows));
    SortKeepsElements(le, SortedSources(rows));
    RankedMembers(h, config.seed, rows);
    assert ids == ranked[..|ids|];
    assert forall k :: 0 <= k < |ids| ==> ids[k] == ranked[k];
    var i :| 0 <= i < |ids| && ids[i] == a;
    var j :| 0 <= j < |ranked| && ranked[j] == b;
    assert le(ranked[i], ranked[j]);
  }

  // ----- `_validate_frozen_dataset`

  datatype FrozenError = NotCovered | Leak | MissingHalf | BadRevision

  /** One stored row as the validator reads it. */
  function SourceIn(r: SplitRow): string {
    Strip(r.sourceId)
  }

  function HalfIn(r: SplitRow): string {
    Strip(r.split)
  }

  /** `source_splits`: the halves seen for every source, each once. */
  ghost predicate SplitsSeen(found: map<string, seq<string>>, rows: seq<SplitRow>) {
    && (forall id :: id in found ==> found[id] != [] && NoRepeats(found[id]))
    && (forall i :: 0 <= i < |rows| ==> SourceIn(rows[i]) in found && HalfIn(rows[i]) in found[SourceIn(rows[i])])
    && (forall id, w :: id in found && w in found[id] ==> Seen(rows, id, w))
  }

  predicate Seen(rows: seq<SplitRow>, id: string, w: string) {
    exists i :: 0 <= i < |rows| && SourceIn(rows[i]) == id && HalfIn(rows[i]) == w
  }

  /** Records one half seen for a source. */
  function Note(found: map<string, seq<string>>, id: string, w: string): map<string, seq<string>> {
    var halves := if id in found then found[id] else [];
    found[id := if w in halves then halves else halves + [w]]
  }

  lemma NoteSeen(found: map<string, seq<string>>, rows: seq<SplitRow>, i: nat)
    requires i < |rows| && SplitsSeen(found, rows[..i])
    ensures SplitsSeen(Note(found, SourceIn(rows[i]), HalfIn(rows[i])), rows[..i + 1])
  {
    hide SourceIn, HalfIn;
    var before, after := rows[..i], rows[..i + 1];
    var id, w := SourceIn(rows[i]), HalfIn(rows[i]);
    var next := Note(found, id, w);
    assert after == before + [rows[i]];
    forall k | 0 <= k < |after| ensures SourceIn(after[k]) in next && HalfIn(after[k]) in next[SourceIn(after[k])] {
      if k < i { assert after[k] == before[k]; }
    }
    forall other, v | other in next && v in next[other] ensures Seen(after, other, v) {
      if other == id && v == w {
        assert after[i] == rows[i];
      } else {
        assert Seen(before, other, v);
        var k :| 0 <= k < |before| && SourceIn(before[k]) == other && HalfIn(before[k]) == v;
        assert after[k] == before[k];
      }
    }
  }

  lemma SingleHalves(found: map<string, seq<string>>, rows: seq<SplitRow>)
    requires SplitsSeen(found, rows)
    ensures (forall id :: id in found ==> |found[id]| == 1) <==> NoLeak(rows)
  {
    hide Strip;
    if forall id :: id in found ==> |found[id]| == 1 {
      forall i, j | 0 <= i < |rows| && 0 <= j < |rows| && SourceIn(rows[i]) == SourceIn(rows[j])
        ensures HalfIn(rows[i]) == HalfIn(rows[j])
      {
        assert HalfIn(rows[i]) in found[SourceIn(rows[i])] && HalfIn(rows[j]) in found[SourceIn(rows[i])];
      }
      assert forall i :: 0 <= i < |rows| ==>
          Strip(rows[i].sourceId) == SourceIn(rows[i])
          && Strip(rows[i].split) == HalfIn(rows[i]);
    } else {
      var id :| id in found && |found[id]| != 1;
      TwoHalves(found, rows, id);
    }
  }

  lemma TwoHalves(found: map<string, seq<string>>, rows: seq<SplitRow>, id: string)
    requires SplitsSeen(found, rows) && id in found && |found[id]| != 1
    ensures !NoLeak(rows)
  {
    hide Strip;
    var v, w := found[id][0], found[id][1];
    assert Seen(rows, id, v) && Seen(rows, id, w);
    var i :| 0 <= i < |rows| && SourceIn(rows[i]) == id && HalfIn(rows[i]) == v;
    var j :| 0 <= j < |rows| && SourceIn(rows[j]) == id && HalfIn(rows[j]) == w;
    assert Strip(rows[i].sourceId) == Strip(rows[j].sourceId) && Strip(rows[i].split) != Strip(rows[j].split);
  }

  /** One half of every source: the first one seen. */
  function HalvesPicked(found: map<string, seq<string>>): set<string>
    requires forall id :: id in found ==> found[id] != []
  {
    set id | id in found :: found[id][0]
  }

  lemma HalvesMeet(found: map<string, seq<string>>, rows: seq<SplitRow>)
    requires SplitsSeen(found, rows) && forall id :: id in found ==> |found[id]| == 1
    ensures HalvesPicked(found) == {TRAIN, VALIDATION} <==> BothHalves(rows)
  {
    hide Strip;
    forall w
      ensures w in HalvesPicked(found) <==> exists i :: 0 <= i < |rows| && HalfIn(rows[i]) == w
    {
      PickedIsSeen(found, rows, w);
    }
    assert forall i :: 0 <= i < |rows| ==> Strip(rows[i].split) == HalfIn(rows[i]);
    if BothHalves(rows) {
      assert TRAIN in HalvesPicked(found) && VALIDATION in HalvesPicked(found);
      assert forall w :: w in HalvesPicked(found) ==> w == TRAIN || w == VALIDATION;
    } else if HalvesPicked(found) == {TRAIN, VALIDATION} {
      assert TRAIN in HalvesPicked(found) && VALIDATION in HalvesPicked(found);
      forall i | 0 <= i < |rows| ensures HalfIn(rows[i]) == TRAIN || HalfIn(rows[i]) == VALIDATION {
        assert HalfIn(rows[i]) in HalvesPicked(found);
      }
    }
  }

  lemma PickedIsSeen(found: map<string, seq<string>>, rows: seq<SplitRow>, w: string)
    requires SplitsSeen(found, rows) && forall id :: id in found ==> |found[id]| == 1
    ensures w in HalvesPicked(found) <==> exists i :: 0 <= i < |rows| && HalfIn(rows[i]) == w
  {
    hide SourceIn, HalfIn;
    if w in HalvesPicked(found) {
      var id :| id in found && found[id][0] == w;
      assert Seen(rows, id, w);
    }
    if i :| 0 <= i < |rows| && HalfIn(rows[i]) == w {
      assert w in found[SourceIn(rows[i])];
      assert found[SourceIn(rows[i])][0] == w;
    }
  }

  function RevisionsIn(rows: seq<SplitRow>): set<string> {
    set i | 0 <= i < |rows| :: Strip(rows[i].revision)
  }

  lemma SingleRevision(rows: seq<SplitRow>)
    ensures |RevisionsIn(rows)| == 1 && "" !in RevisionsIn(rows) <==> OneRevision(rows)
  {
    hide Strip;
    var all := RevisionsIn(rows);
    if rows == [] {
      assert all == {};
    } else {
      var first := Strip(rows[0].revision);
      assert first in all;
      if forall i :: 0 <= i < |rows| ==> Strip(rows[i].revision) == first {
        assert all == {first};
      } else {
        var i :| 0 <= i < |rows| && Strip(rows[i].revision) != first;
        assert {first, Strip(rows[i].revision)} <= all;
        SubsetSize({first, Strip(rows[i].revision)}, all);
      }
    }
  }

  function AcceptedIds(clips: seq<ClipRow>): set<string> {
    set c | c in AcceptedRows(clips) :: ClipKey(c)
  }

  function SplitIds(rows: seq<SplitRow>): set<string> {
    set r | r in rows :: Strip(r.clipId)
  }

  lemma IdsCover(clips: seq<ClipRow>, rows: seq<SplitRow>)
    ensures AcceptedIds(clips) != {} && SplitIds(rows) == AcceptedIds(clips) <==> CoversExactly(clips, rows)
  {
    hide Strip, ClipKey;
    var accepted := AcceptedRows(clips);
    hide AcceptedRows;
    if accepted != [] { assert ClipKey(accepted[0]) in AcceptedIds(clips); }
    if AcceptedIds(clips) != {} && SplitIds(rows) == AcceptedIds(clips) {
      forall r | r in rows
        ensures exists c :: c in accepted && ClipKey(c) == Strip(r.clipId)
      {
        assert Strip(r.clipId) in SplitIds(rows);
      }
      forall c | c in accepted
        ensures exists r :: r in rows && ClipKey(c) == Strip(r.clipId)
      {
        assert ClipKey(c) in AcceptedIds(clips);
      }
    }
    if CoversExactly(clips, rows) {
      forall id ensures id in SplitIds(rows) <==> id in AcceptedIds(clips) {}
    }
  }

  /** `_validate_frozen_dataset`: silent exactly on a valid split. */
  method ValidateFrozen(clips: seq<ClipRow>, rows: seq<SplitRow>) returns (errors: seq<FrozenError>)
    ensures errors == [] <==> FrozenValid(clips, rows)
  {
    hide Strip, SourceIn, HalfIn, CoversExactly, NoLeak, BothHalves, OneRevision, AcceptedIds, SplitIds;
    errors := [];
    IdsCover(clips, rows);
    if AcceptedIds(clips) == {} || SplitIds(rows) != AcceptedIds(clips) { errors := errors + [NotCovered]; }
    var found: map<string, seq<string>> := map[];
    var revisions: set<string> := {};
    for i := 0 to |rows|
      invariant SplitsSeen(found, rows[..i])
      invariant revisions == RevisionsIn(rows[..i])
    {
      hide SplitsSeen, Note;
      NoteSeen(found, rows, i);
      RevisionsStep(rows, i);
      found := Note(found, SourceIn(rows[i]), HalfIn(rows[i]));
      revisions := revisions + {Strip(rows[i].revision)};
    }
    assert rows[..|rows|] == rows;
    SingleHalves(found, rows);
    SingleRevision(rows);
    if exists id :: id in found && |found[id]| != 1 {
      errors := errors + [Leak];
    } else {
      HalvesMeet(found, rows);
    }
    if HalvesPicked(found) != {TRAIN, VALIDATION} { errors := errors + [MissingHalf]; }
    if |revisions| != 1 || "" in revisions { errors := errors + [BadRevision]; }
  }

  lemma RevisionsStep(rows: seq<SplitRow>, i: nat)
    requires i < |rows|
    ensures RevisionsIn(rows[..i + 1]) == RevisionsIn(rows[..i]) + {Strip(rows[i].revision)}
  {
    hide Strip;
    var before, after := rows[..i], rows[..i + 1];
    assert forall k :: 0 <= k < i ==> before[k] == after[k];
    assert after[i] == rows[i];
    forall x | x in RevisionsIn(before) ensures x in RevisionsIn(after) {
      var k :| 0 <= k < |before| && Strip(before[k].revision) == x;
      assert Strip(after[k].revision) == x;
    }
    assert Strip(after[i].revision) in RevisionsIn(after);
  }

  // ----- Freezing

  datatype Summary = Summary(revision: string, trainSources: int, validationSources: int, trainClips: nat,
                             validationClips: nat)

  datatype FreezeError = InvalidWorkspace | AlreadyFrozen | TooFewSources

  predicate InTrain(r: SplitRow) {
    r.split == TRAIN
  }

  function SummaryOf(split: seq<SplitRow>, sources: nat, validation: nat, revision: string): Summary {
    var train := |Filter(InTrain, split)|;
    Summary(revision, sources - validation, validation, train, |split| - train)
  }

  // ----- What freezing promises

  ghost function Accepted(clips: seq<ClipRow>): seq<ClipRow> {
    Filter((c: ClipRow) => Strip(c.reviewStatus) == "accepted", clips)
  }

  /** The sources of the accepted clips. */
  ghost function Sources(clips: seq<ClipRow>): set<string> {
    set c | c in Accepted(clips) && Strip(c.sourceId) != "" :: Strip(c.sourceId)
  }

  /** Ranked by their digests, and by name where two digests agree. */
  predicate RankedBefore(h: Hashes, seed: string, a: string, b: string) {
    var p, q := h.rank(seed, a), h.rank(seed, b);
    StringAtMost(p, q) && (p == q ==> StringAtMost(a, b))
  }

  /** The sources in the validation half: the nearest whole number to the configured share, but at least one and not
      all of them, and those that rank first. */
  ghost predicate RightChoice(h: Hashes, config: Config, sources: set<string>, chosen: set<string>) {
    && chosen <= sources && 1 <= |chosen| < |sources|
    && (exists share: int ::
          Nearest(|sources| * config.num, config.den, share)
          && (if share < 1 then |chosen| == 1 else if share >= |sources| then |chosen| == |sources| - 1
              else |chosen| == share))
    && forall a, b :: a in chosen && b in sources && b !in chosen ==> RankedBefore(h, config.seed, a, b)
  }

  /** One row per accepted clip in the order of the clip ids, each with its stripped ids, the half of its source, its
      lower-case digest and the revision. */
  ghost predicate RightRows(clips: seq<ClipRow>, chosen: set<string>, revision: string, split: seq<SplitRow>) {
    exists rows: seq<ClipRow> ::
      && multiset(rows) == multiset(Accepted(clips)) && SortedBy(ByClipId, rows) && |split| == |rows|
      && forall k :: 0 <= k < |rows| ==>
           split[k] == SplitRow(Strip(rows[k].clipId), Strip(rows[k].sourceId),
                                if Strip(rows[k].sourceId) in chosen then "validation" else "train",
                                Lower(Strip(rows[k].audioSha256)), revision)
  }

  /** The digest of the configuration and of the accepted clips, by their ids. */
  ghost predicate RightRevision(h: Hashes, config: Config, clips: seq<ClipRow>, revision: string) {
    exists stable: seq<StableClip> ::
      && multiset(stable)
         == multiset(Map((c: ClipRow) => StableClip(Strip(c.clipId), Strip(c.sourceId), Lower(Strip(c.audioSha256))),
                         Accepted(clips)))
      && SortedBy(ByStableId, stable) && revision == h.revision(config, stable)
  }

  ghost predicate RightSummary(sources: set<string>, chosen: set<string>, split: seq<SplitRow>, revision: string,
                               s: Summary) {
    s == Summary(revision, |sources| - |chosen|, |chosen|,
                 |Filter((r: SplitRow) => r.split == "train", split)|,
                 |Filter((r: SplitRow) => r.split == "validation", split)|)
  }

  /** What `freeze_split` promises. */
  ghost predicate RightFreeze(h: Hashes, config: Config, clips: seq<ClipRow>, otherFaults: bool,
                              stored: Option<seq<SplitRow>>, force: bool,
                              r: Result<(seq<SplitRow>, Summary), FreezeError>) {
    if otherFaults || !(0 < config.num < config.den) || Strip(config.seed) == "" || !ValidClips(clips) then
      r == Err(InvalidWorkspace)
    else if stored.Some? && !force then r == Err(AlreadyFrozen)
    else if |Sources(clips)| < 2 then r == Err(TooFewSources)
    else
      && r.Ok? && FrozenValid(clips, r.value.0)
      && exists chosen, revision ::
           && RightChoice(h, config, Sources(clips), chosen) && RightRevision(h, config, clips, revision)
           && RightRows(clips, chosen, revision, r.value.0)
           && RightSummary(Sources(clips), chosen, r.value.0, revision, r.value.1)
  }

  function Members(ids: seq<string>): set<string> {
    set id | id in ids
  }

  lemma {:induction false} MembersSize(ids: seq<string>)
    requires NoRepeats(ids)
    ensures |Members(ids)| == |ids|
  {
    if ids != [] {
      var front := ids[..|ids| - 1];
      MembersSize(front);
      assert ids == front + [ids[|ids| - 1]];
      assert Members(ids) == Members(front) + {ids[|ids| - 1]};
      assert ids[|ids| - 1] !in front;
    }
  }

  lemma AcceptedAre(clips: seq<ClipRow>)
    ensures AcceptedRows(clips) == Accepted(clips)
  {
    FilterAlike(IsAccepted, (c: ClipRow) => Strip(c.reviewStatus) == "accepted", clips);
  }

  /** The sorted source list holds the sources, each once. */
  lemma SourcesAre(clips: seq<ClipRow>)
    ensures Members(SortedSources(AcceptedRows(clips))) == Sources(clips)
    ensures |SortedSources(AcceptedRows(clips))| == |Sources(clips)|
    ensures NoRepeats(SortedSources(AcceptedRows(clips))) && SortedBy(StringAtMost, SortedSources(AcceptedRows(clips)))
  {
    AcceptedAre(clips);
    hide StringAtMost, Strip, Accepted, AcceptedRows;
    var rows := AcceptedRows(clips);
    var ids, sorted := DistinctSources(rows), SortedSources(rows);
    SortPermutes(StringAtMost, ids);
    SortKeepsElements(StringAtMost, ids);
    StringOrder();
    SortSorts(StringAtMost, ids);
    PermutedNoRepeats(ids, sorted);
    forall id ensures id in Members(sorted) <==> id in Sources(clips) {
      if id in Sources(clips) {
        var c :| c in rows && Strip(c.sourceId) == id;
        var k :| 0 <= k < |rows| && rows[k] == c;
        assert SourceOf(rows[k]) == id;
      }
      if id in sorted {
        var k :| 0 <= k < |rows| && SourceOf(rows[k]) == id;
        assert rows[k] in rows;
      }
    }
    MembersSize(sorted);
  }

  lemma RankedIsRefined(h: Hashes, config: Config, rows: seq<ClipRow>)
    ensures var ranked := Ranked(h, config.seed, rows);
            forall i, j :: 0 <= i < j < |ranked| ==> RankedBefore(h, config.seed, ranked[i], ranked[j])
  {
    hide DistinctSources, StringAtMost;
    var le := (a, b) => StringAtMost(h.rank(config.seed, a), h.rank(config.seed, b));
    var sorted := SortedSources(rows);
    StringOrder();
    SortSorts(StringAtMost, DistinctSources(rows));
    SortRefined(le, StringAtMost, sorted);
    RankOrder(h, config.seed);
    RefinedIsPreorder(le, StringAtMost);
    SortSorts(Refined(le, StringAtMost), sorted);
    var ranked := Ranked(h, config.seed, rows);
    forall i, j | 0 <= i < j < |ranked| ensures RankedBefore(h, config.seed, ranked[i], ranked[j]) {
      assert Refined(le, StringAtMost)(ranked[i], ranked[j]);
      if h.rank(config.seed, ranked[i]) == h.rank(config.seed, ranked[j]) {
        assert le(ranked[j], ranked[i]);
      }
    }
  }

  lemma RefinedIsPreorder<T(!new)>(le: (T, T) -> bool, tie: (T, T) -> bool)
    requires TotalPreorder(le) && TotalPreorder(tie)
    ensures TotalPreorder(Refined(le, tie))
  {}

  lemma ChoiceIsRight(h: Hashes, config: Config, clips: seq<ClipRow>)
    requires ConfigValid(config) && |SortedSources(AcceptedRows(clips))| >= 2
    ensures RightChoice(h, config, Sources(clips), Members(ValidationSources(h, config, AcceptedRows(clips))))
  {
    var rows := AcceptedRows(clips);
    SourcesAre(clips);
    RankedMembers(h, config.seed, rows);
    RankedIsRefined(h, config, rows);
    hide DistinctSources, StringAtMost, Sources, AcceptedRows, RankedBefore, Strip, NoRepeats, RoundHalfEven;
    var ranked, ids, n := Ranked(h, config.seed, rows), ValidationSources(h, config, rows), |Sources(clips)|;
    assert ids == ranked[..|ids|];
    RankedAreSources(h, config, clips);
    PrefixNoRepeats(ranked, |ids|);
    MembersSize(ids);
    assert Nearest(n * config.num, config.den, RoundHalfEven(n * config.num, config.den));
    forall a, b | a in Members(ids) && b in Sources(clips) && b !in Members(ids)
      ensures RankedBefore(h, config.seed, a, b)
    {
      var i :| 0 <= i < |ids| && ids[i] == a;
      var j :| 0 <= j < |ranked| && ranked[j] == b;
      PrefixHolds(ranked, |ids|, j);
    }
  }

  lemma PrefixHolds(s: seq<string>, n: nat, j: nat)
    requires n <= |s|
    ensures j < n ==> s[j] in s[..n]
  {}

  lemma RankedAreSources(h: Hashes, config: Config, clips: seq<ClipRow>)
    ensures forall id :: id in Ranked(h, config.seed, AcceptedRows(clips)) <==> id in Sources(clips)
  {
    SourcesAre(clips);
    hide DistinctSources, StringAtMost, Sources, AcceptedRows, Strip, NoRepeats;
    var sorted := SortedSources(AcceptedRows(clips));
    SortKeepsElements((a, b) => StringAtMost(h.rank(config.seed, a), h.rank(config.seed, b)), sorted);
    assert forall id :: id in sorted <==> id in Members(sorted);
  }

  lemma RowsAreRight(h: Hashes, config: Config, clips: seq<ClipRow>)
    requires ConfigValid(config) && |SortedSources(AcceptedRows(clips))| >= 2
    ensures var rows := AcceptedRows(clips);
            RightRows(clips, Members(ValidationSources(h, config, rows)), Revision(h, config, rows),
                      SplitRows(h, config, rows))
  {
    AcceptedAre(clips);
    hide StringAtMost, Strip, Accepted, AcceptedRows, SortedSources, ValidationSources, Revision, Lower;
    var rows := AcceptedRows(clips);
    SortPermutes(ByClipId, rows);
    ClipOrders();
    SortSorts(ByClipId, rows);
    var sorted, split := Sort(ByClipId, rows), SplitRows(h, config, rows);
    forall k | 0 <= k < |sorted|
      ensures split[k] == SplitRow(Strip(sorted[k].clipId), Strip(sorted[k].sourceId),
                                   if Strip(sorted[k].sourceId) in Members(ValidationSources(h, config, rows))
                                   then "validation" else "train",
                                   Lower(Strip(sorted[k].audioSha256)), Revision(h, config, rows))
    {}
  }

  lemma RevisionIsRight(h: Hashes, config: Config, clips: seq<ClipRow>)
    ensures RightRevision(h, config, clips, Revision(h, config, AcceptedRows(clips)))
  {
    AcceptedAre(clips);
    hide StringAtMost, Strip, Accepted, AcceptedRows, Lower;
    var rows := AcceptedRows(clips);
    var stable := Map(StableOf, rows);
    MapsAgree(StableOf, (c: ClipRow) => StableClip(Strip(c.clipId), Strip(c.sourceId), Lower(Strip(c.audioSha256))),
              rows);
    SortPermutes(ByStableId, stable);
    ClipOrders();
    SortSorts(ByStableId, stable);
  }

  lemma {:induction false} HalvesCount(split: seq<SplitRow>)
    requires forall r :: r in split ==> r.split == "train" || r.split == "validation"
    ensures |Filter(InTrain, split)| == |Filter((r: SplitRow) => r.split == "train", split)|
    ensures |split| - |Filter(InTrain, split)| == |Filter((r: SplitRow) => r.split == "validation", split)|
  {
    if split != [] {
      HalvesCount(split[1..]);
      WordsDiffer();
    }
  }

  lemma WordsDiffer()
    ensures "train" != "validation"
  {
    assert "train"[0] != "validation"[0];
  }

  lemma HalvesOnly(clips: seq<ClipRow>, chosen: set<string>, revision: string, split: seq<SplitRow>)
    requires RightRows(clips, chosen, revision, split)
    ensures forall r :: r in split ==> r.split == "train" || r.split == "validation"
  {
    hide Strip, Lower, Accepted;
  }

  lemma SummaryIsRight(h: Hashes, config: Config, clips: seq<ClipRow>, split: seq<SplitRow>)
    requires ConfigValid(config) && |SortedSources(AcceptedRows(clips))| >= 2
    requires var rows := AcceptedRows(clips);
             RightRows(clips, Members(ValidationSources(h, config, rows)), Revision(h, config, rows), split)
    ensures var rows := AcceptedRows(clips);
            var ids, revision := ValidationSources(h, config, rows), Revision(h, config, rows);
            RightSummary(Sources(clips), Members(ids), split, revision,
                         SummaryOf(split, |SortedSources(rows)|, |ids|, revision))
  {
    hide SortedSources, AcceptedRows, Revision, RightRows, Sources, NoRepeats, ValidationCount;
    SourcesAre(clips);
    var rows := AcceptedRows(clips);
    var ids := ValidationSources(h, config, rows);
    HalvesOnly(clips, Members(ids), Revision(h, config, rows), split);
    HalvesCount(split);
    ChosenOnce(h, config, rows);
    MembersSize(ids);
  }

  /** Main result: what freezing writes is right. */
  lemma FreezeIsRight(h: Hashes, config: Config, clips: seq<ClipRow>)
    requires HexRevision(h) && ConfigValid(config) && ValidClips(clips) && |SortedSources(AcceptedRows(clips))| >= 2
    ensures var rows := AcceptedRows(clips);
            var split, ids, revision := SplitRows(h, config, rows), ValidationSources(h, config, rows),
                Revision(h, config, rows);
            && FrozenValid(clips, split) && RightChoice(h, config, Sources(clips), Members(ids))
            && RightRevision(h, config, clips, revision) && RightRows(clips, Members(ids), revision, split)
            && RightSummary(Sources(clips), Members(ids), split, revision,
                            SummaryOf(split, |SortedSources(rows)|, |ids|, revision))
  {
    hide SortedSources, AcceptedRows, Revision, SplitRows, ValidationSources, FrozenValid, RightChoice, RightRevision,
         RightRows, RightSummary, Sources, SummaryOf, ValidClips, HexRevision;
    WrittenSplitIsValid(h, config, clips);
    ChoiceIsRight(h, config, clips);
    RevisionIsRight(h, config, clips);
    RowsAreRight(h, config, clips);
    SummaryIsRight(h, config, clips, SplitRows(h, config, AcceptedRows(clips)));
  }

  lemma ChosenOnce(h: Hashes, config: Config, rows: seq<ClipRow>)
    requires ConfigValid(config) && |SortedSources(rows)| >= 2
    ensures NoRepeats(ValidationSources(h, config, rows))
  {
    RankedMembers(h, config.seed, rows);
    PrefixNoRepeats(Ranked(h, config.seed, rows), |ValidationSources(h, config, rows)|);
  }

  /** `freeze_split`; `otherFaults` says whether the configuration or another manifest is at fault. */
  method Freeze(h: Hashes, config: Config, clips: seq<ClipRow>, otherFaults: bool, stored: Option<seq<SplitRow>>,
                force: bool)
    returns (r: Result<(seq<SplitRow>, Summary), FreezeError>)
    requires HexRevision(h) && config.den > 0
    ensures r == Err(InvalidWorkspace) <==> !ValidClips(clips) || !ConfigValid(config) || otherFaults
    ensures r == Err(AlreadyFrozen) ==> stored.Some? && !force
    ensures r.Ok? ==> stored.None? || force
    ensures r == Err(TooFewSources) ==> |SortedSources(AcceptedRows(clips))| < 2
    ensures r.Ok? ==>
              && |SortedSources(AcceptedRows(clips))| >= 2 && ConfigValid(config)
              && r.value.0 == SplitRows(h, config, AcceptedRows(clips))
              && FrozenValid(clips, r.value.0)
              && r.value.1.trainSources >= 1 && r.value.1.validationSources >= 1
              && r.value.1.trainSources + r.value.1.validationSources == |SortedSources(AcceptedRows(clips))|
              && r.value.1.trainClips + r.value.1.validationClips == |AcceptedRows(clips)|
              && r.value.1.revision == Revision(h, config, AcceptedRows(clips))
    ensures RightFreeze(h, config, clips, otherFaults, stored, force, r)
  {
    SourcesAre(clips);
    hide RightChoice, RightRevision, RightRows, RightSummary, Sources, ValidClips, SortedSources, AcceptedRows,
         FrozenValid, HexRevision, Revision, Strip;
    var faults := ValidateClips(clips);
    if faults != [] || !ConfigValid(config) || otherFaults { return Err(InvalidWorkspace); }
    if stored.Some? && !force { return Err(AlreadyFrozen); }
    var accepted := AcceptedRows(clips);
    var sources := SortedSources(accepted);
    if |sources| < 2 { return Err(TooFewSources); }
    var validation := ValidationSources(h, config, accepted);
    var split := SplitRows(h, config, accepted);
    FreezeIsRight(h, config, clips);
    r := Ok((split, SummaryOf(split, |sources|, |validation|, Revision(h, config, accepted))));
  }
}
