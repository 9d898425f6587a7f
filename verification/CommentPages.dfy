/** The pages of a recorded chat and the comments read from them: `TwitchVodCollector.capture` up to its sort. */
module CommentPages {
  import opened Wrappers
  import opened Sorting
  import opened Distinct
  import opened RateCap
  import opened Prefilter
  import opened VodCapture
  import opened Events

  datatype Comment = Comment(id: string, record: ChatRecord)

  /** One edge of a page: its offset if it has one, and the comment it parses to if it does. */
  datatype Edge = Edge(offset: Option<real>, comment: Option<Comment>)

  datatype Page = Page(offset: int, edges: seq<Edge>)

  /** The page the service returns for an offset. */
  type Fetch = int -> seq<Edge>

  /** The captured seconds, both ends included. */
  datatype Window = Window(start: nat, duration: nat) {
    function End(): nat {
      start + duration
    }
  }

  const FULL_PAGE := 59

  // ----- Which pages are fetched

  predicate Increasing(offsets: seq<int>) {
    forall i, j :: 0 <= i < j < |offsets| ==> offsets[i] < offsets[j]
  }

  function InitialOffsets(w: Window, step: int): (r: seq<int>)
    requires step > 0
    ensures Increasing(r) && forall i :: 0 <= i < |r| ==> w.start <= r[i] <= w.End()
  {
    var r := seq(w.duration / step + 1, i requires 0 <= i => w.start + i * step);
    StepsIncrease(w, step, r);
    r
  }

  lemma StepsIncrease(w: Window, step: int, r: seq<int>)
    requires step > 0 && |r| == w.duration / step + 1 && forall i :: 0 <= i < |r| ==> r[i] == w.start + i * step
    ensures Increasing(r) && forall i :: 0 <= i < |r| ==> w.start <= r[i] <= w.End()
  {
    forall i, j | 0 <= i < j < |r| ensures r[i] < r[j] {
      StepsApart(i, j, step);
    }
    forall i | 0 <= i < |r| ensures w.start <= r[i] <= w.End() {
      if i > 0 { StepsApart(0, i, step); }
      if i < w.duration / step { StepsApart(i, w.duration / step, step); }
    }
  }

  lemma StepsApart(i: nat, j: nat, step: nat)
    requires i < j
    ensures i * step + step <= j * step
  {
    Times(j - i, step);
    assert j * step == i * step + (j - i) * step;
  }

  /** `_page_needs_refinement`: a full page that ends inside its step. */
  predicate NeedsRefinement(p: Page, step: int) {
    && |p.edges| >= FULL_PAGE
    && p.edges[|p.edges| - 1].offset.Some?
    && p.edges[|p.edges| - 1].offset.value < (p.offset + step) as real
  }

  /** The seconds between a page and the next one, up to the end of the window. */
  function Between(offset: int, step: int, end: int): (r: seq<int>)
    ensures Increasing(r) && forall t :: t in r <==> offset < t < offset + step && t <= end
  {
    var last := if offset + step - 1 <= end then offset + step - 1 else end;
    var r := if last <= offset then [] else seq(last - offset, i requires 0 <= i => offset + 1 + i);
    RunHolds(offset, last, r);
    r
  }

  lemma RunHolds(offset: int, last: int, r: seq<int>)
    requires |r| == (if last <= offset then 0 else last - offset) && forall i :: 0 <= i < |r| ==> r[i] == offset + 1 + i
    ensures forall t :: t in r <==> offset < t <= last
  {
    forall t | offset < t <= last ensures t in r {
      assert r[t - offset - 1] == t;
    }
  }

  function ExtraOffsets(pages: seq<Page>, step: int, end: int): seq<int> {
    if pages == [] then [] else
      var last := pages[|pages| - 1];
      ExtraOffsets(pages[..|pages| - 1], step, end)
      + if NeedsRefinement(last, step) then Between(last.offset, step, end) else []
  }

  function PagesAt(fetch: Fetch, offsets: seq<int>): (r: seq<Page>)
    ensures |r| == |offsets| && forall i :: 0 <= i < |r| ==> r[i] == Page(offsets[i], fetch(offsets[i]))
  {
    seq(|offsets|, i requires 0 <= i < |offsets| => Page(offsets[i], fetch(offsets[i])))
  }

  predicate PageOrder(a: Page, b: Page) {
    a.offset <= b.offset
  }

  /** `_fetch_offsets`: whatever the order in which the requests complete, the pages come in offset order. */
  method FetchOffsets(fetch: Fetch, offsets: seq<int>, completed: seq<int>) returns (pages: seq<Page>)
    requires Increasing(offsets) && multiset(completed) == multiset(offsets)
    ensures pages == PagesAt(fetch, offsets)
  {
    pages := [];
    for n := 0 to |completed|
      invariant pages == PagesAt(fetch, completed[..n])
    {
      pages := pages + [Page(completed[n], fetch(completed[n]))];
    }
    assert completed[..|completed|] == completed;
    SortedPages(fetch, offsets, completed);
    pages := Sort(PageOrder, pages);
  }

  lemma SortedPages(fetch: Fetch, offsets: seq<int>, completed: seq<int>)
    requires Increasing(offsets) && multiset(completed) == multiset(offsets)
    ensures Sort(PageOrder, PagesAt(fetch, completed)) == PagesAt(fetch, offsets)
  {
    var f := (o: int) => Page(o, fetch(o));
    var a, b := PagesAt(fetch, offsets), PagesAt(fetch, completed);
    assert a == Map(f, offsets) && b == Map(f, completed);
    MapMultiset(f, offsets, completed);
    SortOfSorted(PageOrder, a);
    SortAlike(PageOrder, a, b);
  }

  predicate Stepped(pages: seq<Page>, step: int) {
    forall i, j :: 0 <= i < j < |pages| ==> pages[i].offset + step <= pages[j].offset
  }

  lemma InitialStepped(fetch: Fetch, w: Window, step: int)
    requires step > 0
    ensures Stepped(PagesAt(fetch, InitialOffsets(w, step)), step)
  {
    var r := InitialOffsets(w, step);
    forall i, j | 0 <= i < j < |r| ensures r[i] + step <= r[j] {
      StepsApart(i, j, step);
    }
  }

  /** An extra offset lies strictly inside the step of a page that needs refinement. */
  lemma {:induction false} ExtraExactly(pages: seq<Page>, step: int, end: int, t: int)
    ensures t in ExtraOffsets(pages, step, end) <==>
            exists p :: p in pages && NeedsRefinement(p, step) && p.offset < t < p.offset + step && t <= end
  {
    hide NeedsRefinement;
    if pages != [] {
      var front, last := pages[..|pages| - 1], pages[|pages| - 1];
      ExtraExactly(front, step, end, t);
      assert pages == front + [last];
    }
  }

  lemma IncreasingJoin(a: seq<int>, b: seq<int>, middle: int)
    requires Increasing(a) && Increasing(b)
    requires (forall x :: x in a ==> x < middle) && forall x :: x in b ==> middle < x
    ensures Increasing(a + b)
  {
    forall i, j | 0 <= i < j < |a + b| ensures (a + b)[i] < (a + b)[j] {
      if i < |a| <= j { assert a[i] in a && b[j - |a|] in b; }
    }
  }

  /** Main result: no offset is requested twice. The extra offsets increase too, and none was requested before. */
  lemma {:induction false} NothingFetchedTwice(pages: seq<Page>, step: int, end: int)
    requires step > 0 && Stepped(pages, step)
    ensures Increasing(ExtraOffsets(pages, step, end))
    ensures forall p, t :: p in pages && t in ExtraOffsets(pages, step, end) ==> t != p.offset
  {
    hide NeedsRefinement;
    if pages != [] {
      var front, last := pages[..|pages| - 1], pages[|pages| - 1];
      NothingFetchedTwice(front, step, end);
      forall t | t in ExtraOffsets(front, step, end) ensures t < last.offset {
        ExtraExactly(front, step, end, t);
        var q :| q in front && q.offset < t < q.offset + step;
        var j :| 0 <= j < |front| && front[j] == q;
        assert pages[j] == q;
      }
      if NeedsRefinement(last, step) {
        IncreasingJoin(ExtraOffsets(front, step, end), Between(last.offset, step, end), last.offset);
      }
      forall p, t | p in pages && t in ExtraOffsets(pages, step, end) ensures t != p.offset {
        ExtraExactly(pages, step, end, t);
        var q :| q in pages && q.offset < t < q.offset + step;
        var i :| 0 <= i < |pages| && pages[i] == p;
        var j :| 0 <= j < |pages| && pages[j] == q;
      }
    }
  }

  // ----- Which comments the pages give

  predicate Inside(c: Comment, w: Window) {
    w.start as real <= c.record.offset <= w.End() as real
  }

  /** The parsed comments of one page that lie inside the window. */
  function CommentsOf(edges: seq<Edge>, w: Window): seq<Comment> {
    if edges == [] then [] else
      var last := edges[|edges| - 1].comment;
      CommentsOf(edges[..|edges| - 1], w) + if last.Some? && Inside(last.value, w) then [last.value] else []
  }

  function AllComments(pages: seq<Page>, w: Window): seq<Comment> {
    if pages == [] then [] else
      AllComments(pages[..|pages| - 1], w) + CommentsOf(pages[|pages| - 1].edges, w)
  }

  /** The dictionary's keys, in the order of their first appearance. */
  function Ids(cs: seq<Comment>): (ids: seq<string>)
    ensures NoRepeats(ids)
    ensures forall id :: id in ids <==> exists i :: 0 <= i < |cs| && cs[i].id == id
  {
    if cs == [] then [] else
      var front, last := Ids(cs[..|cs| - 1]), cs[|cs| - 1];
      if last.id in front then front else front + [last.id]
  }

  /** The dictionary: the last record of every id. */
  function Records(cs: seq<Comment>): (m: map<string, ChatRecord>)
    ensures forall id :: id in m <==> id in Ids(cs)
  {
    if cs == [] then map[] else Records(cs[..|cs| - 1])[cs[|cs| - 1].id := cs[|cs| - 1].record]
  }

  const NO_RECORD := ChatRecord(0.0, "", "", "")

  /** The values of a dictionary in the order of its keys. */
  function Values(ids: seq<string>, records: map<string, ChatRecord>): seq<ChatRecord> {
    Map(id => if id in records then records[id] else NO_RECORD, ids)
  }

  function Collected(cs: seq<Comment>): seq<ChatRecord> {
    Values(Ids(cs), Records(cs))
  }

  lemma Nothing(w: Window)
    ensures AllComments([], w) == [] && CommentsOf([], w) == [] && Ids([]) == [] && Records([]) == map[]
  {}

  lemma EdgeStep(edges: seq<Edge>, w: Window, k: nat)
    requires k < |edges|
    ensures var parsed := edges[k].comment;
            CommentsOf(edges[..k + 1], w)
            == CommentsOf(edges[..k], w) + if parsed.Some? && Inside(parsed.value, w) then [parsed.value] else []
  {
    assert edges[..k + 1][..k] == edges[..k];
  }

  lemma PageStep(pages: seq<Page>, w: Window, p: nat)
    requires p < |pages|
    ensures AllComments(pages[..p + 1], w) == AllComments(pages[..p], w) + CommentsOf(pages[p].edges, w)
  {
    assert pages[..p + 1][..p] == pages[..p];
  }

  lemma DictionaryStep(seen: seq<Comment>, c: Comment)
    ensures Ids(seen + [c]) == if c.id in Records(seen) then Ids(seen) else Ids(seen) + [c.id]
    ensures Records(seen + [c]) == Records(seen)[c.id := c.record]
  {
    assert (seen + [c])[..|seen|] == seen;
  }

  /** The first comment with its id, and the last one. */
  predicate FirstOfId(cs: seq<Comment>, k: nat) {
    k < |cs| && forall j :: 0 <= j < k ==> cs[j].id != cs[k].id
  }

  predicate LastOfId(cs: seq<Comment>, id: string, k: nat) {
    k < |cs| && cs[k].id == id && forall j :: k < j < |cs| ==> cs[j].id != id
  }

  ghost predicate CameLast(cs: seq<Comment>, id: string, record: ChatRecord) {
    exists m: nat :: LastOfId(cs, id, m) && record == cs[m].record
  }

  /** What collecting promises: in the order in which the ids first appear, the record each came with last. */
  ghost predicate RightCollection(cs: seq<Comment>, records: seq<ChatRecord>) {
    exists firsts: seq<nat> :: FirstPlaces(cs, firsts) && |records| == |firsts|
                               && forall k :: 0 <= k < |firsts| ==> CameLast(cs, cs[firsts[k]].id, records[k])
  }

  /** Exactly the places where an id appears first, in order. */
  ghost predicate FirstPlaces(cs: seq<Comment>, firsts: seq<nat>) {
    && (forall k :: 0 <= k < |firsts| ==> firsts[k] < |cs|)
    && (forall j, k :: 0 <= j < k < |firsts| ==> firsts[j] < firsts[k])
    && forall i: nat :: i in firsts <==> FirstOfId(cs, i)
  }

  predicate NamesAt(cs: seq<Comment>, firsts: seq<nat>, ids: seq<string>) {
    |ids| == |firsts| && forall k :: 0 <= k < |firsts| ==> firsts[k] < |cs| && ids[k] == cs[firsts[k]].id
  }

  lemma {:induction false} PlacesOfIds(cs: seq<Comment>) returns (firsts: seq<nat>)
    ensures FirstPlaces(cs, firsts) && NamesAt(cs, firsts, Ids(cs))
  {
    hide FirstPlaces, NamesAt;
    if cs == [] {
      NoPlaces();
      return [];
    }
    var n := |cs| - 1;
    firsts := PlacesOfIds(cs[..n]);
    NewIdIsFirst(cs);
    OnePlaceMore(cs, firsts);
    OneNameMore(cs, firsts, Ids(cs[..n]));
    if FirstOfId(cs, n) { firsts := firsts + [n]; }
  }

  lemma NoPlaces()
    ensures FirstPlaces([], []) && NamesAt([], [], [])
  {}

  lemma NewIdIsFirst(cs: seq<Comment>)
    requires cs != []
    ensures FirstOfId(cs, |cs| - 1) <==> cs[|cs| - 1].id !in Ids(cs[..|cs| - 1])
  {}

  lemma OneNameMore(cs: seq<Comment>, firsts: seq<nat>, ids: seq<string>)
    requires cs != [] && NamesAt(cs[..|cs| - 1], firsts, ids)
    ensures NamesAt(cs, firsts, ids) && NamesAt(cs, firsts + [|cs| - 1], ids + [cs[|cs| - 1].id])
  {}

  lemma OnePlaceMore(cs: seq<Comment>, firsts: seq<nat>)
    requires cs != [] && FirstPlaces(cs[..|cs| - 1], firsts)
    ensures FirstPlaces(cs, if FirstOfId(cs, |cs| - 1) then firsts + [|cs| - 1] else firsts)
  {
    var n := |cs| - 1;
    forall i: nat | i < n ensures FirstOfId(cs, i) <==> FirstOfId(cs[..n], i) {}
    var all := if FirstOfId(cs, n) then firsts + [n] else firsts;
    assert forall i: nat :: i in all <==> i in firsts || (i == n && FirstOfId(cs, n));
  }

  lemma CollectedIsRight(cs: seq<Comment>)
    ensures RightCollection(cs, Collected(cs))
  {
    hide Ids, Records, CameLast;
    var firsts := PlacesOfIds(cs);
    forall k | 0 <= k < |firsts| ensures CameLast(cs, cs[firsts[k]].id, Collected(cs)[k]) {
      assert Ids(cs)[k] in Ids(cs);
      RecordIsLast(cs, Ids(cs)[k]);
    }
  }

  lemma {:induction false} RecordIsLast(cs: seq<Comment>, id: string)
    requires id in Records(cs)
    ensures CameLast(cs, id, Records(cs)[id])
  {
    hide Ids, CameLast;
    if cs[|cs| - 1].id == id {
      EndCameLast(cs);
    } else {
      RecordIsLast(cs[..|cs| - 1], id);
      CameLastStays(cs, id, Records(cs)[id]);
    }
  }

  lemma EndCameLast(cs: seq<Comment>)
    requires cs != []
    ensures CameLast(cs, cs[|cs| - 1].id, cs[|cs| - 1].record)
  {
    assert LastOfId(cs, cs[|cs| - 1].id, |cs| - 1);
  }

  lemma CameLastStays(cs: seq<Comment>, id: string, record: ChatRecord)
    requires cs != [] && CameLast(cs[..|cs| - 1], id, record) && cs[|cs| - 1].id != id
    ensures CameLast(cs, id, record)
  {
    var front := cs[..|cs| - 1];
    var m: nat :| LastOfId(front, id, m) && record == front[m].record;
    assert LastOfId(cs, id, m);
  }

  /** The loop over pages and edges and its dictionary. */
  method Collect(pages: seq<Page>, w: Window) returns (records: seq<ChatRecord>)
    ensures records == Collected(AllComments(pages, w)) && RightCollection(AllComments(pages, w), records)
  {
    hide Ids, Records, CommentsOf, AllComments, Inside, RightCollection;
    CollectedIsRight(AllComments(pages, w));
    var ids: seq<string>, found: map<string, ChatRecord> := [], map[];
    ghost var seen: seq<Comment> := [];
    Nothing(w);
    for p := 0 to |pages|
      invariant seen == AllComments(pages[..p], w) && ids == Ids(seen) && found == Records(seen)
    {
      var edges := pages[p].edges;
      for k := 0 to |edges|
        invariant seen == AllComments(pages[..p], w) + CommentsOf(edges[..k], w)
        invariant ids == Ids(seen) && found == Records(seen)
      {
        var parsed := edges[k].comment;
        EdgeStep(edges, w, k);
        if parsed.Some? && Inside(parsed.value, w) {
          var c := parsed.value;
          DictionaryStep(seen, c);
          if c.id !in found { ids := ids + [c.id]; }
          found := found[c.id := c.record];
          seen := seen + [c];
        }
      }
      assert edges[..|edges|] == edges;
      PageStep(pages, w, p);
    }
    assert pages[..|pages|] == pages;
    records := Values(ids, found);
  }

  /** An id always comes with the same comment. */
  ghost predicate OneRecord(cs: seq<Comment>) {
    forall c, d :: c in cs && d in cs && c.id == d.id ==> c == d
  }

  /** An author always comes with the same name. */
  ghost predicate OneName(cs: seq<Comment>) {
    forall c, d :: c in cs && d in cs && c.record.actorId == d.record.actorId ==>
      c.record.actorName == d.record.actorName
  }

  lemma {:induction false} RecordOfComment(cs: seq<Comment>, c: Comment)
    requires OneRecord(cs) && c in cs
    ensures c.id in Records(cs) && Records(cs)[c.id] == c.record
  {
    var front, last := cs[..|cs| - 1], cs[|cs| - 1];
    assert cs == front + [last];
    if c.id != last.id { RecordOfComment(front, c); }
  }

  lemma CommentOfId(cs: seq<Comment>, id: string) returns (c: Comment)
    requires id in Ids(cs)
    ensures c in cs && c.id == id
  {
    var i :| 0 <= i < |cs| && cs[i].id == id;
    c := cs[i];
  }

  lemma SameRecords(a: seq<Comment>, b: seq<Comment>)
    requires OneRecord(a) && forall c :: c in a <==> c in b
    ensures Records(a) == Records(b) && multiset(Collected(a)) == multiset(Collected(b))
  {
    hide Ids, Records;
    assert OneRecord(b);
    forall id ensures id in Ids(a) <==> id in Ids(b) {
      if id in Ids(a) { var c := CommentOfId(a, id); RecordOfComment(b, c); }
      if id in Ids(b) { var c := CommentOfId(b, id); RecordOfComment(a, c); }
    }
    forall id | id in Records(a) ensures Records(a)[id] == Records(b)[id] {
      var c := CommentOfId(a, id);
      RecordOfComment(a, c);
      RecordOfComment(b, c);
    }
    assert Records(a) == Records(b);
    SameMembers(Ids(a), Ids(b));
    var f := id => if id in Records(a) then Records(a)[id] else NO_RECORD;
    MapMultiset(f, Ids(a), Ids(b));
  }

  lemma CollectedFrom(cs: seq<Comment>, r: ChatRecord)
    requires OneRecord(cs) && r in Collected(cs)
    ensures exists c :: c in cs && c.record == r
  {
    hide Ids, Records;
    var i :| 0 <= i < |Ids(cs)| && Collected(cs)[i] == r;
    var c := CommentOfId(cs, Ids(cs)[i]);
    RecordOfComment(cs, c);
  }

  lemma TiesAreEqual(cs: seq<Comment>)
    requires OneRecord(cs) && OneName(cs)
    ensures Distinguishes(CaptureOrder, Sort(CaptureOrder, Collected(cs)))
  {
    hide Collected;
    var s := Sort(CaptureOrder, Collected(cs));
    SortKeepsElements(CaptureOrder, Collected(cs));
    forall i, j | 0 <= i < |s| && 0 <= j < |s| && CaptureOrder(s[i], s[j]) && CaptureOrder(s[j], s[i])
      ensures s[i] == s[j]
    {
      CollectedFrom(cs, s[i]);
      CollectedFrom(cs, s[j]);
      if s[i].actorId != s[j].actorId {
        StringAtMostAntisymmetric(s[i].actorId, s[j].actorId);
      } else {
        StringAtMostAntisymmetric(s[i].text, s[j].text);
      }
    }
  }

  /** Main result: overlapping, repeated and reordered pages change nothing. Two fetches that saw the same comments
      sort to the same capture. */
  lemma SameCommentsSameCapture(a: seq<Comment>, b: seq<Comment>)
    requires OneRecord(a) && OneName(a) && forall c :: c in a <==> c in b
    ensures Sort(CaptureOrder, Collected(a)) == Sort(CaptureOrder, Collected(b))
  {
    hide Collected;
    SameRecords(a, b);
    CaptureOrderIsPreorder();
    TiesAreEqual(a);
    SortAlike(CaptureOrder, Collected(a), Collected(b));
  }

  // ----- Which comments the pages miss

  ghost predicate InTime(chat: seq<Comment>) {
    forall i, j :: 0 <= i < j < |chat| ==> chat[i].record.offset <= chat[j].record.offset
  }

  ghost predicate DistinctIds(cs: seq<Comment>) {
    forall i, j :: 0 <= i < j < |cs| ==> cs[i].id != cs[j].id
  }

  /** A chat in time order, each comment with an id of its own. */
  ghost predicate Chat(chat: seq<Comment>) {
    InTime(chat) && DistinctIds(chat)
  }

  /** The position of the first comment at or after an offset. */
  function From(chat: seq<Comment>, offset: real): (n: nat)
    requires InTime(chat)
    ensures n <= |chat| && forall i :: 0 <= i < |chat| ==> (chat[i].record.offset < offset <==> i < n)
  {
    if chat == [] || chat[0].record.offset >= offset then 0 else 1 + From(chat[1..], offset)
  }

  function EdgeOf(c: Comment): Edge {
    Edge(Some(c.record.offset), Some(c))
  }

  function Min(a: int, b: int): int {
    if a <= b then a else b
  }

  /** The comments from an offset on, at most `size` of them. */
  ghost function Answer(chat: seq<Comment>, size: nat, offset: real): seq<Edge>
    requires Chat(chat)
  {
    var lo := From(chat, offset);
    Map(EdgeOf, chat[lo..Min(lo + size, |chat|)])
  }

  /** The service answers every offset that way. */
  ghost predicate Serves(fetch: Fetch, chat: seq<Comment>, size: nat)
    requires Chat(chat)
  {
    forall o: int :: o >= 0 ==> fetch(o) == Answer(chat, size, o as real)
  }

  function FetchedOffsets(fetch: Fetch, w: Window, step: int): seq<int>
    requires step > 0
  {
    var initial := InitialOffsets(w, step);
    initial + ExtraOffsets(PagesAt(fetch, initial), step, w.End())
  }

  /** The comments of the window found on the pages of `capture`. */
  function Found(fetch: Fetch, w: Window, step: int): seq<Comment>
    requires step > 0
  {
    AllComments(PagesAt(fetch, FetchedOffsets(fetch, w, step)), w)
  }

  lemma {:induction false} CommentsOfExactly(edges: seq<Edge>, w: Window, c: Comment)
    ensures c in CommentsOf(edges, w) <==> Inside(c, w) && exists e :: e in edges && e.comment == Some(c)
  {
    hide Inside;
    if edges != [] {
      CommentsOfExactly(edges[..|edges| - 1], w, c);
      assert edges == edges[..|edges| - 1] + [edges[|edges| - 1]];
    }
  }

  lemma {:induction false} AllCommentsExactly(pages: seq<Page>, w: Window, c: Comment)
    ensures c in AllComments(pages, w) <==>
            Inside(c, w) && exists p :: p in pages && exists e :: e in p.edges && e.comment == Some(c)
  {
    if pages != [] {
      var front, last := pages[..|pages| - 1], pages[|pages| - 1];
      AllCommentsExactly(front, w, c);
      CommentsOfExactly(last.edges, w, c);
      assert pages == front + [last];
    }
  }

  predicate OnPage(chat: seq<Comment>, size: nat, o: int, k: nat)
    requires Chat(chat)
  {
    From(chat, o as real) <= k < From(chat, o as real) + size
  }

  lemma PageHolds(fetch: Fetch, chat: seq<Comment>, size: nat, o: int, c: Comment)
    requires Chat(chat) && Serves(fetch, chat, size) && o >= 0
    ensures (exists e :: e in fetch(o) && e.comment == Some(c)) <==>
            exists k :: 0 <= k < |chat| && chat[k] == c && OnPage(chat, size, o, k)
  {
    hide Serves, From, InTime, DistinctIds, EdgeOf;
    Answered(fetch, chat, size, o);
    var lo := From(chat, o as real);
    if k :| 0 <= k < |chat| && chat[k] == c && OnPage(chat, size, o, k) {
      assert fetch(o)[k - lo] == EdgeOf(chat[k]);
      EdgeHolds(c, c);
    }
    if e :| e in fetch(o) && e.comment == Some(c) {
      var i :| 0 <= i < |fetch(o)| && fetch(o)[i] == e;
      EdgeHolds(chat[lo + i], c);
      assert OnPage(chat, size, o, lo + i);
    }
  }

  lemma EdgeHolds(c: Comment, d: Comment)
    ensures EdgeOf(c).comment == Some(d) <==> c == d
  {}

  lemma Answered(fetch: Fetch, chat: seq<Comment>, size: nat, o: int)
    requires Chat(chat) && Serves(fetch, chat, size) && o >= 0
    ensures var lo := From(chat, o as real);
            && |fetch(o)| == Min(size, |chat| - lo)
            && forall i :: 0 <= i < |fetch(o)| ==> fetch(o)[i] == EdgeOf(chat[lo + i])
  {
    hide EdgeOf, InTime, DistinctIds, Answer;
    assert fetch(o) == Answer(chat, size, o as real);
    AnswerHolds(chat, size, o as real);
  }

  lemma AnswerHolds(chat: seq<Comment>, size: nat, offset: real)
    requires Chat(chat)
    ensures var lo, r := From(chat, offset), Answer(chat, size, offset);
            |r| == Min(size, |chat| - lo) && forall i :: 0 <= i < |r| ==> r[i] == EdgeOf(chat[lo + i])
  {
    hide EdgeOf, InTime, DistinctIds;
  }

  /** A comment of the chat is found exactly when a fetched page reaches it. */
  lemma FoundExactly(fetch: Fetch, chat: seq<Comment>, size: nat, w: Window, step: int, k: nat)
    requires Chat(chat) && Serves(fetch, chat, size) && step > 0 && k < |chat|
    ensures chat[k] in Found(fetch, w, step) <==>
            Inside(chat[k], w) && exists o :: o in FetchedOffsets(fetch, w, step) && OnPage(chat, size, o, k)
  {
    hide Serves, FetchedOffsets, AllComments;
    var offsets := FetchedOffsets(fetch, w, step);
    var pages := PagesAt(fetch, offsets);
    AllCommentsExactly(pages, w, chat[k]);
    OffsetsInside(fetch, w, step);
    forall o | o in offsets
      ensures OnPage(chat, size, o, k) <==> exists e :: e in fetch(o) && e.comment == Some(chat[k])
    {
      PageHolds(fetch, chat, size, o, chat[k]);
    }
    if o :| o in offsets && OnPage(chat, size, o, k) {
      var i :| 0 <= i < |offsets| && offsets[i] == o;
      assert pages[i] in pages;
    }
    if p :| p in pages && exists e :: e in p.edges && e.comment == Some(chat[k]) {
      var i :| 0 <= i < |pages| && pages[i] == p;
      assert OnPage(chat, size, offsets[i], k);
    }
  }

  lemma OffsetsInside(fetch: Fetch, w: Window, step: int)
    requires step > 0
    ensures forall o :: o in FetchedOffsets(fetch, w, step) ==> w.start <= o <= w.End()
  {
    hide NeedsRefinement;
    var initial := InitialOffsets(w, step);
    forall o | o in FetchedOffsets(fetch, w, step) ensures w.start <= o <= w.End() {
      ExtraExactly(PagesAt(fetch, initial), step, w.End(), o);
    }
  }

  predicate InSecond(c: Comment, t: int, w: Window) {
    t as real <= c.record.offset < (t + 1) as real && Inside(c, w)
  }

  /** The comments of the window in the whole second `t`. */
  function SecondCount(chat: seq<Comment>, t: int, w: Window): nat {
    |Filter((c: Comment) => InSecond(c, t, w), chat)|
  }

  lemma InOrder(chat: seq<Comment>, i: nat, j: nat)
    requires Chat(chat)
    ensures i <= j < |chat| ==> chat[i].record.offset <= chat[j].record.offset
  {}

  lemma FromMonotone(chat: seq<Comment>, x: real, y: real)
    requires Chat(chat) && x <= y
    ensures From(chat, x) <= From(chat, y)
  {
    var n := From(chat, x);
    if n > 0 { assert chat[n - 1].record.offset < x; }
  }

  /** A second holds more than `size` comments exactly when a page that starts with it misses one of them. */
  lemma SecondOverflows(chat: seq<Comment>, t: int, w: Window, size: nat)
    requires Chat(chat) && w.start <= t
    ensures SecondCount(chat, t, w) > size <==>
            From(chat, t as real) + size < |chat| && InSecond(chat[From(chat, t as real) + size], t, w)
  {
    var lo := From(chat, t as real);
    var hi := lo;
    while hi < |chat| && InSecond(chat[hi], t, w)
      invariant lo <= hi <= |chat|
      invariant forall i :: lo <= i < hi ==> InSecond(chat[i], t, w)
    {
      hi := hi + 1;
    }
    forall i | hi <= i < |chat| ensures !InSecond(chat[i], t, w) {
      InOrder(chat, hi, i);
    }
    CountedRange((c: Comment) => InSecond(c, t, w), chat, lo, hi);
  }

  /** A selection that holds on one range of positions keeps as many elements as the range has. */
  lemma CountedRange<T>(p: T -> bool, s: seq<T>, lo: nat, hi: nat)
    requires lo <= hi <= |s| && forall i :: 0 <= i < |s| ==> (p(s[i]) <==> lo <= i < hi)
    ensures |Filter(p, s)| == hi - lo
  {
    var a, b, c := s[..lo], s[lo..hi], s[hi..];
    assert s == a + b + c;
    FilterConcat(p, a + b, c);
    FilterConcat(p, a, b);
    FilterNone(p, a);
    FilterAll(p, b);
    FilterNone(p, c);
  }

  /** The largest initial offset not after `t`. */
  lemma BlockOf(w: Window, step: int, t: int) returns (o: int)
    requires step > 0 && w.start <= t <= w.End()
    ensures o in InitialOffsets(w, step) && o <= t < o + step
  {
    var i := (t - w.start) / step;
    assert i <= w.duration / step by { DivisionMonotone(t - w.start, w.duration, step); }
    o := w.start + i * step;
    assert InitialOffsets(w, step)[i] == o;
  }

  lemma DivisionMonotone(a: nat, b: nat, d: nat)
    requires d > 0 && a <= b
    ensures a / d <= b / d
  {
    var p, q := a / d, b / d;
    assert a == p * d + a % d && b == q * d + b % d;
    if p > q { Times(p - q, d); }
  }

  lemma Times(n: nat, d: nat)
    requires n >= 1
    ensures n * d >= d
  {}

  /** The page of a step that needs no refinement reaches every comment before the next one. */
  lemma SparsePageReaches(fetch: Fetch, chat: seq<Comment>, size: nat, step: int, o: int, k: nat)
    requires Chat(chat) && Serves(fetch, chat, size) && size >= FULL_PAGE && o >= 0 && k < |chat|
    requires o as real <= chat[k].record.offset < (o + step) as real
    requires !NeedsRefinement(Page(o, fetch(o)), step)
    ensures OnPage(chat, size, o, k)
  {
    var lo := From(chat, o as real);
    var n := |fetch(o)|;
    assert n == Min(size, |chat| - lo);
    if n >= FULL_PAGE {
      assert fetch(o)[n - 1] == EdgeOf(chat[lo + n - 1]);
      assert chat[lo + n - 1].record.offset >= (o + step) as real;
    }
  }

  /** No second of the window holds more comments than a page. */
  ghost predicate SecondsFit(chat: seq<Comment>, size: nat, w: Window) {
    forall t: int :: w.start <= t <= w.End() ==> SecondCount(chat, t, w) <= size
  }

  /** Every comment of the window is found. */
  ghost predicate NothingMissed(fetch: Fetch, chat: seq<Comment>, w: Window, step: int)
    requires step > 0
  {
    forall k :: 0 <= k < |chat| && Inside(chat[k], w) ==> chat[k] in Found(fetch, w, step)
  }

  lemma FittingIsFound(fetch: Fetch, chat: seq<Comment>, size: nat, w: Window, step: int, k: nat)
    requires Chat(chat) && Serves(fetch, chat, size) && size >= FULL_PAGE && step > 0
    requires k < |chat| && Inside(chat[k], w) && SecondsFit(chat, size, w)
    ensures chat[k] in Found(fetch, w, step)
  {
    hide Serves, NeedsRefinement, InitialOffsets, SecondCount, Found;
    var t := chat[k].record.offset.Floor;
    var o := BlockOf(w, step, t);
    var initial := InitialOffsets(w, step);
    var pages := PagesAt(fetch, initial);
    SecondOverflows(chat, t, w, size);
    InOrder(chat, From(chat, t as real) + size, k);
    assert OnPage(chat, size, t, k);
    var i :| 0 <= i < |initial| && initial[i] == o;
    assert pages[i] in pages && pages[i] == Page(o, fetch(o));
    if t > o && !NeedsRefinement(pages[i], step) {
      SparsePageReaches(fetch, chat, size, step, o, k);
    } else if t > o {
      ExtraExactly(pages, step, w.End(), t);
    }
    FoundExactly(fetch, chat, size, w, step, k);
  }

  /** Main result: when the service answers with pages of 59 comments or more, the capture misses nothing of the window
      exactly when no whole second of it holds more comments than a page, whatever the step between pages. */
  lemma CompleteExactly(fetch: Fetch, chat: seq<Comment>, size: nat, w: Window, step: int)
    requires Chat(chat) && Serves(fetch, chat, size) && size >= FULL_PAGE && step > 0
    ensures NothingMissed(fetch, chat, w, step) <==> SecondsFit(chat, size, w)
  {
    hide Serves, Found, SecondCount, InTime, DistinctIds;
    if SecondsFit(chat, size, w) {
      forall k | 0 <= k < |chat| && Inside(chat[k], w) ensures chat[k] in Found(fetch, w, step) {
        FittingIsFound(fetch, chat, size, w, step, k);
      }
    } else {
      var t: int :| w.start <= t <= w.End() && SecondCount(chat, t, w) > size;
      var k := OverflowIsMissed(fetch, chat, size, w, step, t);
    }
  }

  /** A second with more comments than a page loses the first comment that its page no longer holds. */
  lemma OverflowIsMissed(fetch: Fetch, chat: seq<Comment>, size: nat, w: Window, step: int, t: int) returns (k: nat)
    requires Chat(chat) && Serves(fetch, chat, size) && step > 0
    requires w.start <= t && SecondCount(chat, t, w) > size
    ensures k < |chat| && InSecond(chat[k], t, w) && chat[k] !in Found(fetch, w, step)
  {
    hide Serves, FetchedOffsets, Found, SecondCount, InTime, DistinctIds, OnPage;
    SecondOverflows(chat, t, w, size);
    k := From(chat, t as real) + size;
    FoundExactly(fetch, chat, size, w, step, k);
    forall o | o in FetchedOffsets(fetch, w, step) ensures !OnPage(chat, size, o, k) {
      PageStartsElsewhere(chat, size, t, o, k);
    }
  }

  lemma PageStartsElsewhere(chat: seq<Comment>, size: nat, t: int, o: int, k: nat)
    requires Chat(chat) && k == From(chat, t as real) + size && k < |chat| && chat[k].record.offset < (t + 1) as real
    ensures !OnPage(chat, size, o, k)
  {
    if o <= t { FromMonotone(chat, o as real, t as real); }
  }

  /** The service a chat and a page size determine. */
  ghost function Service(chat: seq<Comment>, size: nat): Fetch
    requires Chat(chat)
  {
    (o: int) => Answer(chat, size, o as real)
  }

  /** `n` comments at one moment. */
  function Busy(n: nat, at: real): seq<Comment> {
    seq(n, i requires 0 <= i => Comment(seq(i, _ => 'x'), ChatRecord(at, "author", "author", "hi")))
  }

  lemma BusyChat(n: nat, at: real)
    ensures Chat(Busy(n, at))
  {
    var chat := Busy(n, at);
    forall i, j | 0 <= i < j < n ensures chat[i].id != chat[j].id {
      assert |chat[i].id| == i && |chat[j].id| == j;
    }
  }

  /** Sixty comments in one second, served in pages of 59: the capture loses one, whatever its step. */
  lemma BusySecondLosesOne(w: Window, step: int)
    requires step > 0
    ensures Chat(Busy(60, w.start as real))
    ensures var chat := Busy(60, w.start as real);
            Serves(Service(chat, 59), chat, 59) && !NothingMissed(Service(chat, 59), chat, w, step)
  {
    hide NothingMissed, SecondCount;
    var chat := Busy(60, w.start as real);
    BusyChat(60, w.start as real);
    assert From(chat, w.start as real) == 0;
    SecondOverflows(chat, w.start, w, 59);
    CompleteExactly(Service(chat, 59), chat, 59, w, step);
  }

  // ----- The capture against the chat

  /** The records of the chat inside the window, in chat order. */
  function WindowRecords(chat: seq<Comment>, w: Window): seq<ChatRecord> {
    Map((c: Comment) => c.record, Filter((c: Comment) => Inside(c, w), chat))
  }

  lemma {:induction false} FilterDistinct(p: Comment -> bool, cs: seq<Comment>)
    requires DistinctIds(cs)
    ensures DistinctIds(Filter(p, cs))
  {
    if cs != [] {
      FilterDistinct(p, cs[1..]);
      forall x | x in Filter(p, cs[1..]) ensures x.id != cs[0].id {
        var j :| 0 <= j < |cs[1..]| && cs[1..][j] == x;
        assert cs[j + 1] == x;
      }
    }
  }

  lemma {:induction false} DistinctCollected(cs: seq<Comment>)
    requires DistinctIds(cs)
    ensures Ids(cs) == Map((c: Comment) => c.id, cs) && Collected(cs) == Map((c: Comment) => c.record, cs)
  {
    DistinctIdList(cs);
    assert OneRecord(cs);
    forall i | 0 <= i < |cs| ensures Collected(cs)[i] == cs[i].record {
      RecordOfComment(cs, cs[i]);
    }
  }

  lemma {:induction false} DistinctIdList(cs: seq<Comment>)
    requires DistinctIds(cs)
    ensures Ids(cs) == Map((c: Comment) => c.id, cs)
  {
    if cs != [] {
      var front := cs[..|cs| - 1];
      DistinctIdList(front);
      assert cs[|cs| - 1].id !in Ids(front);
    }
  }

  /** A list without repeats inside another of the same length misses nothing of it. */
  lemma FullSublist<T>(a: seq<T>, b: seq<T>, x: T)
    requires NoRepeats(a) && NoRepeats(b) && |a| == |b| && x in b && forall y :: y in a ==> y in b
    ensures x in a
  {
    forall y ensures multiset(a)[y] <= multiset(b)[y] {
      if y in a {
        var i :| 0 <= i < |a| && a[i] == y;
        var j :| 0 <= j < |b| && b[j] == y;
        OccursOnce(a, i);
        OccursOnce(b, j);
      }
    }
    assert multiset(b) == multiset(a) + (multiset(b) - multiset(a));
    assert |multiset(b) - multiset(a)| == 0;
    assert x in multiset(b);
  }

  lemma FoundInChat(fetch: Fetch, chat: seq<Comment>, size: nat, w: Window, step: int, c: Comment)
    requires Chat(chat) && Serves(fetch, chat, size) && step > 0 && c in Found(fetch, w, step)
    ensures c in Filter((c: Comment) => Inside(c, w), chat)
  {
    hide Serves, AllComments, FetchedOffsets;
    var offsets := FetchedOffsets(fetch, w, step);
    var pages := PagesAt(fetch, offsets);
    AllCommentsExactly(pages, w, c);
    var p :| p in pages && exists e :: e in p.edges && e.comment == Some(c);
    var i :| 0 <= i < |pages| && pages[i] == p;
    OffsetsInside(fetch, w, step);
    assert offsets[i] in offsets;
    PageHolds(fetch, chat, size, offsets[i], c);
  }

  /** Main result: what `capture` sorts is the whole window of the chat, in the same order, exactly when no whole second
      of it holds more comments than a page. */
  lemma CaptureIsWindowExactly(fetch: Fetch, chat: seq<Comment>, size: nat, w: Window, step: int)
    requires Chat(chat) && Serves(fetch, chat, size) && size >= FULL_PAGE && step > 0 && OneName(chat)
    ensures Sort(CaptureOrder, Collected(Found(fetch, w, step))) == Sort(CaptureOrder, WindowRecords(chat, w))
            <==> SecondsFit(chat, size, w)
  {
    hide Serves, Found, SecondsFit, Collected, Ids, Records;
    var found, inside := Found(fetch, w, step), Filter((c: Comment) => Inside(c, w), chat);
    FilterDistinct((c: Comment) => Inside(c, w), chat);
    DistinctCollected(inside);
    CompleteExactly(fetch, chat, size, w, step);
    forall c | c in found ensures c in inside { FoundInChat(fetch, chat, size, w, step, c); }
    assert OneRecord(inside) && OneRecord(found) && OneName(found);
    if NothingMissed(fetch, chat, w, step) {
      SameCommentsSameCapture(found, inside);
    } else {
      var k :| 0 <= k < |chat| && Inside(chat[k], w) && chat[k] !in found;
      MissingIsShorter(found, inside, chat[k]);
      SortPermutes(CaptureOrder, Collected(found));
      SortPermutes(CaptureOrder, WindowRecords(chat, w));
    }
  }

  lemma OnlyOne(cs: seq<Comment>, c: Comment, d: Comment)
    requires DistinctIds(cs) && c in cs && d in cs && c.id == d.id
    ensures c == d
  {}

  lemma MissingIsShorter(found: seq<Comment>, inside: seq<Comment>, missed: Comment)
    requires DistinctIds(inside) && missed in inside && missed !in found && forall c :: c in found ==> c in inside
    ensures |Collected(found)| != |inside|
  {
    hide Records;
    DistinctIdList(inside);
    assert |Collected(found)| == |Ids(found)|;
    forall id | id in Ids(found) ensures id in Ids(inside) { var c := CommentOfId(found, id); }
    if |Ids(found)| == |Ids(inside)| {
      FullSublist(Ids(found), Ids(inside), missed.id);
      var c := CommentOfId(found, missed.id);
      OnlyOne(inside, c, missed);
    }
  }

  // ----- The whole capture

  /** The manifest's note on how comments were selected. */
  datatype Derivation =
    Derivation(kind: Kind, rateCap: Option<nat>, observed: nat, eligible: Option<nat>, selected: nat)

  datatype Kind = QualityRateCap | RateCap | QualitySelection

  /** Written only when something was selected; the prefilter's count only when it was used. */
  function NoteOf(cap: Option<nat>, prefilter: bool, observed: nat, eligible: nat, selected: nat): Option<Derivation> {
    if cap.None? && !prefilter then None
    else
      var kind := if cap.Some? && prefilter then QualityRateCap else if cap.Some? then RateCap else QualitySelection;
      Some(Derivation(kind, cap, observed, if prefilter then Some(eligible) else None, selected))
  }

  /** What the note promises: none for an unshaped capture, and else the counts of the stages that ran. */
  predicate RightNote(cap: Option<nat>, prefilter: bool, observed: nat, eligible: nat, selected: nat,
                      note: Option<Derivation>) {
    && (note.Some? <==> cap.Some? || prefilter)
    && (note.Some? ==>
          && note.value.rateCap == cap && note.value.observed == observed && note.value.selected == selected
          && (note.value.eligible.Some? <==> prefilter) && (prefilter ==> note.value.eligible.value == eligible)
          && (note.value.kind == RateCap <==> !prefilter) && (note.value.kind == QualitySelection <==> cap.None?))
  }

  lemma NoteIsRight(cap: Option<nat>, prefilter: bool, observed: nat, eligible: nat, selected: nat)
    ensures RightNote(cap, prefilter, observed, eligible, selected,
                      NoteOf(cap, prefilter, observed, eligible, selected))
  {}

  /** The two rounds of requests and the dictionary of what they gave. */
  method FetchWindow(fetch: Fetch, w: Window, step: int, first: seq<int>, second: seq<int>)
    returns (records: seq<ChatRecord>)
    requires step > 0 && multiset(first) == multiset(InitialOffsets(w, step))
    requires multiset(second) == multiset(ExtraOffsets(PagesAt(fetch, InitialOffsets(w, step)), step, w.End()))
    ensures records == Collected(Found(fetch, w, step))
    ensures forall r :: r in records ==> w.start as real <= r.offset <= w.End() as real
  {
    hide NeedsRefinement, Collected, AllComments;
    var initial := InitialOffsets(w, step);
    var pages := FetchOffsets(fetch, initial, first);
    InitialStepped(fetch, w, step);
    NothingFetchedTwice(pages, step, w.End());
    var extra := ExtraOffsets(pages, step, w.End());
    var more := FetchOffsets(fetch, extra, second);
    assert pages + more == PagesAt(fetch, initial + extra);
    records := Collect(pages + more, w);
    CollectedInside(pages + more, w);
  }

  /** `capture`: the pages, the comments, the stored stream and the note. `first` and `second` are the orders in which
      the two rounds of requests complete. */
  method CaptureVod(fetch: Fetch, w: Window, step: int, first: seq<int>, second: seq<int>, cap: Option<nat>,
                    rules: TextRules, prefilter: bool, actor: ActorReader)
    returns (selected: seq<Indexed>, events: seq<Event>, note: Option<Derivation>)
    requires step > 0 && (cap.Some? ==> 1 <= cap.value <= 300)
    requires multiset(first) == multiset(InitialOffsets(w, step))
    requires multiset(second) == multiset(ExtraOffsets(PagesAt(fetch, InitialOffsets(w, step)), step, w.End()))
    ensures var ordered := Sort(CaptureOrder, Collected(Found(fetch, w, step)));
            var eligible := Eligible(ordered, rules, prefilter);
            && ChosenInOrder(selected, ordered)
            && selected == Shaped(eligible, cap)
            && |selected| <= |eligible| <= |ordered| && |events| == |selected|
            && note == NoteOf(cap, prefilter, |ordered|, |eligible|, |selected|)
    ensures Timeline(events) && events == StoredEvents(selected, w.start, cap.Some? || prefilter, actor)
    ensures exists ordered, eligible ::
              && RightCapture(Collected(Found(fetch, w, step)), w.start, cap, rules, prefilter, actor, ordered,
                              eligible, selected, events)
              && RightNote(cap, prefilter, |ordered|, |eligible|, |selected|, note)
  {
    hide RightCapture, RightNote, Found, Collected, Sort, Eligible, Shaped, CaptureOrder, TotalPreorder, Timeline,
         StoredEvents, NoteOf, ChosenInOrder;
    var records := FetchWindow(fetch, w, step, first, second);
    var ordered, eligible;
    ordered, eligible, selected, events := Capture(records, w.start, cap, rules, prefilter, actor);
    note := NoteOf(cap, prefilter, |ordered|, |eligible|, |selected|);
    NoteIsRight(cap, prefilter, |ordered|, |eligible|, |selected|);
  }

  lemma CollectedInside(pages: seq<Page>, w: Window)
    ensures forall r :: r in Collected(AllComments(pages, w)) ==> w.start as real <= r.offset <= w.End() as real
  {
    hide AllComments, Ids;
    var cs := AllComments(pages, w);
    forall c | c in cs ensures Inside(c, w) { AllCommentsExactly(pages, w, c); }
    forall r | r in Collected(cs) ensures w.start as real <= r.offset <= w.End() as real {
      var i :| 0 <= i < |Ids(cs)| && Collected(cs)[i] == r;
      RecordFromComments(cs, Ids(cs)[i]);
    }
  }

  lemma {:induction false} RecordFromComments(cs: seq<Comment>, id: string)
    requires id in Records(cs)
    ensures exists c :: c in cs && c.id == id && c.record == Records(cs)[id]
  {
    var last := cs[|cs| - 1];
    assert last in cs;
    if id != last.id { RecordFromComments(cs[..|cs| - 1], id); }
  }
}
