/** From raw chat comments to a stored timeline: `TwitchVodCollector.capture`. */
module VodCapture {
  import opened Wrappers
  import opened Rounding
  import opened Sorting
  import opened RateCap
  import opened Prefilter
  import opened Events

  /** Python's lexicographic string comparison. */
  predicate StringAtMost(a: string, b: string) {
    a == [] || (b != [] && (a[0] < b[0] || (a[0] == b[0] && StringAtMost(a[1..], b[1..]))))
  }

  /** The sort key `(offset, actor id, text)`. */
  predicate CaptureOrder(a: ChatRecord, b: ChatRecord) {
    || a.offset < b.offset
    || (a.offset == b.offset && a.actorId != b.actorId && StringAtMost(a.actorId, b.actorId))
    || (a.offset == b.offset && a.actorId == b.actorId && StringAtMost(a.text, b.text))
  }

  lemma {:induction false} StringAtMostTotal(a: string, b: string)
    ensures StringAtMost(a, b) || StringAtMost(b, a)
  {
    if a != [] && b != [] && a[0] == b[0] { StringAtMostTotal(a[1..], b[1..]); }
  }

  lemma {:induction false} StringAtMostTransitive(a: string, b: string, c: string)
    requires StringAtMost(a, b) && StringAtMost(b, c)
    ensures StringAtMost(a, c)
  {
    if a != [] && b != [] && c != [] && a[0] == b[0] == c[0] { StringAtMostTransitive(a[1..], b[1..], c[1..]); }
  }

  lemma {:induction false} StringAtMostAntisymmetric(a: string, b: string)
    requires StringAtMost(a, b) && StringAtMost(b, a)
    ensures a == b
  {
    if a != [] && b != [] {
      StringAtMostAntisymmetric(a[1..], b[1..]);
      assert a == [a[0]] + a[1..] && b == [b[0]] + b[1..];
    }
  }

  lemma CaptureOrderIsPreorder()
    ensures TotalPreorder(CaptureOrder)
  {
    forall a, b ensures CaptureOrder(a, b) || CaptureOrder(b, a) {
      StringAtMostTotal(a.actorId, b.actorId);
      StringAtMostTotal(a.text, b.text);
    }
    forall a, b, c | CaptureOrder(a, b) && CaptureOrder(b, c) ensures CaptureOrder(a, c) {
      CaptureOrderTransitive(a, b, c);
    }
  }

  lemma CaptureOrderTransitive(a: ChatRecord, b: ChatRecord, c: ChatRecord)
    requires CaptureOrder(a, b) && CaptureOrder(b, c)
    ensures CaptureOrder(a, c)
  {
    if a.offset == b.offset == c.offset {
      if a.actorId == b.actorId == c.actorId {
        StringAtMostTransitive(a.text, b.text, c.text);
      } else if a.actorId != b.actorId && b.actorId != c.actorId {
        StringAtMostTransitive(a.actorId, b.actorId, c.actorId);
        if a.actorId == c.actorId { StringAtMostAntisymmetric(a.actorId, b.actorId); }
      }
    }
  }

  /** Recognizes which of the actor patterns a source name spells. */
  type ActorReader = string -> ActorId

  /** The stored event of one selected comment; offsets become whole milliseconds from the window start. */
  function StoredEvent(chosen: Indexed, sequence: nat, startSeconds: int, shaped: bool, actor: ActorReader): Event {
    Event(
      sequence,
      RoundReal((chosen.record.offset - startSeconds as real) * 1000.0),
      Danmaku,
      actor(chosen.record.actorName),
      chosen.record.text,
      EMPTY_PAYLOAD.(userId := Some(chosen.record.actorId),
                     sourceSequence := if shaped then Some(chosen.sourceSequence) else None))
  }

  function StoredEvents(selected: seq<Indexed>, startSeconds: int, shaped: bool,
                        actor: ActorReader): (events: seq<Event>)
    ensures |events| == |selected|
  {
    seq(|selected|, i requires 0 <= i < |selected| => StoredEvent(selected[i], i, startSeconds, shaped, actor))
  }

  /** What a stored comment holds: its own text and author, the nearest whole millisecond, and its position in the
      sorted capture when shaping may have left others out. */
  ghost predicate RightEvent(chosen: Indexed, i: nat, startSeconds: int, shaped: bool, actor: ActorReader, e: Event) {
    var exact := (chosen.record.offset - startSeconds as real) * 1000.0;
    && e.sequence == i && e.eventType == Danmaku
    && e.text == chosen.record.text && e.actorId == actor(chosen.record.actorName)
    && exact - 0.5 <= e.offsetMs as real <= exact + 0.5
    && (e.offsetMs as real == exact - 0.5 || e.offsetMs as real == exact + 0.5 ==> e.offsetMs % 2 == 0)
    && e.payload.userId == Some(chosen.record.actorId)
    && (e.payload.sourceSequence == if shaped then Some(chosen.sourceSequence) else None)
    && e.payload == EMPTY_PAYLOAD.(userId := e.payload.userId, sourceSequence := e.payload.sourceSequence)
  }

  lemma StoredIsRight(selected: seq<Indexed>, startSeconds: int, shaped: bool, actor: ActorReader)
    ensures var events := StoredEvents(selected, startSeconds, shaped, actor);
            forall i :: 0 <= i < |selected| ==>
              RightEvent(selected[i], i, startSeconds, shaped, actor, events[i])
  {}

  ghost predicate ChosenInOrder(selected: seq<Indexed>, records: seq<ChatRecord>) {
    && (forall i :: 0 <= i < |selected| ==>
          selected[i].sourceSequence < |records| && records[selected[i].sourceSequence] == selected[i].record)
    && (forall i, j :: 0 <= i < j < |selected| ==> selected[i].sourceSequence < selected[j].sourceSequence)
  }

  lemma {:induction false} SurvivorsInOrder(records: seq<ChatRecord>, rules: TextRules, n: nat)
    requires n <= |records|
    ensures ChosenInOrder(Survivors(records, rules, n), records)
    ensures forall i :: 0 <= i < |Survivors(records, rules, n)| ==> Survivors(records, rules, n)[i].sourceSequence < n
  {
    if n > 0 { SurvivorsInOrder(records, rules, n - 1); }
  }

  lemma PickInOrder(chosen: seq<Indexed>, records: seq<ChatRecord>, idx: seq<nat>)
    requires ChosenInOrder(chosen, records) && Subsequence(|chosen|, idx)
    ensures ChosenInOrder(Pick(chosen, idx), records)
  {
    forall i, j | 0 <= i < j < |idx| ensures Pick(chosen, idx)[i].sourceSequence < Pick(chosen, idx)[j].sourceSequence {
      assert idx[i] < idx[j];
    }
  }

  lemma InOrderAscends(chosen: seq<Indexed>, records: seq<ChatRecord>)
    requires OffsetSorted(records) && ChosenInOrder(chosen, records)
    ensures Ascending(Offsets(chosen))
  {
    var v := Offsets(chosen);
    forall i, j | 0 <= i < j < |v| ensures v[i] <= v[j] {
      assert chosen[i].sourceSequence < chosen[j].sourceSequence;
      assert v[i] == records[chosen[i].sourceSequence].offset && v[j] == records[chosen[j].sourceSequence].offset;
    }
  }

  lemma StoredTimeline(chosen: seq<Indexed>, startSeconds: int, shaped: bool, actor: ActorReader)
    requires Ascending(Offsets(chosen))
    requires forall i :: 0 <= i < |chosen| ==> startSeconds as real <= chosen[i].record.offset
    ensures Timeline(StoredEvents(chosen, startSeconds, shaped, actor))
  {
    var events, v := StoredEvents(chosen, startSeconds, shaped, actor), Offsets(chosen);
    forall i, j | 0 <= i < j < |events| ensures events[i].offsetMs <= events[j].offsetMs {
      assert v[i] <= v[j];
      RoundRealMonotone((v[i] - startSeconds as real) * 1000.0, (v[j] - startSeconds as real) * 1000.0);
    }
    forall i | 0 <= i < |events| ensures events[i].offsetMs >= 0 {
      RoundRealMonotone(0.0, (chosen[i].record.offset - startSeconds as real) * 1000.0);
    }
  }

  lemma OrderedComments(comments: seq<ChatRecord>)
    ensures OffsetSorted(Sort(CaptureOrder, comments)) && SortedBy(CaptureOrder, Sort(CaptureOrder, comments))
    ensures multiset(Sort(CaptureOrder, comments)) == multiset(comments)
            && |Sort(CaptureOrder, comments)| == |comments|
  {
    var ordered := Sort(CaptureOrder, comments);
    CaptureOrderIsPreorder();
    SortSorts(CaptureOrder, comments);
    SortPermutes(CaptureOrder, comments);
    forall i, j | 0 <= i < j < |ordered| ensures ordered[i].offset <= ordered[j].offset {
      assert CaptureOrder(ordered[i], ordered[j]);
    }
  }

  lemma ChosenFromComments(chosen: seq<Indexed>, comments: seq<ChatRecord>, startSeconds: nat)
    requires ChosenInOrder(chosen, Sort(CaptureOrder, comments))
    requires forall c :: c in comments ==> startSeconds as real <= c.offset
    ensures forall i :: 0 <= i < |chosen| ==> startSeconds as real <= chosen[i].record.offset
  {
    SortKeepsElements(CaptureOrder, comments);
    forall i | 0 <= i < |chosen| ensures startSeconds as real <= chosen[i].record.offset {
      assert chosen[i].record == Sort(CaptureOrder, comments)[chosen[i].sourceSequence];
    }
  }

  /** The comments the prefilter leaves, each with its position. */
  function Eligible(ordered: seq<ChatRecord>, rules: TextRules, prefilter: bool): seq<Indexed> {
    if prefilter then Survivors(ordered, rules, |ordered|)
    else seq(|ordered|, i requires 0 <= i < |ordered| => Indexed(i, ordered[i]))
  }

  /** The comments the rate cap leaves. */
  function Shaped(eligible: seq<Indexed>, cap: Option<nat>): seq<Indexed>
    requires cap.Some? ==> cap.value >= 1
  {
    if cap.None? then eligible else Pick(eligible, Greedy(Offsets(eligible), |eligible|, cap.value))
  }

  lemma EligibleInOrder(ordered: seq<ChatRecord>, rules: TextRules, prefilter: bool)
    ensures ChosenInOrder(Eligible(ordered, rules, prefilter), ordered)
  {
    SurvivorsInOrder(ordered, rules, |ordered|);
  }

  /** What a capture promises, stage by stage: the sorted comments, those the filter leaves, those the cap leaves, and
      the events stored for them. */
  ghost predicate RightCapture(comments: seq<ChatRecord>, startSeconds: nat, cap: Option<nat>, rules: TextRules,
                               prefilter: bool, actor: ActorReader, ordered: seq<ChatRecord>, eligible: seq<Indexed>,
                               selected: seq<Indexed>, events: seq<Event>) {
    && multiset(ordered) == multiset(comments) && SortedBy(CaptureOrder, ordered)
    && (if prefilter then WellFiltered(ordered, rules, eligible)
        else |eligible| == |ordered| && forall i :: 0 <= i < |ordered| ==> eligible[i] == Indexed(i, ordered[i]))
    && (if cap.Some? then RightShape(eligible, cap.value, selected) else selected == eligible)
    && |events| == |selected|
    && forall i :: 0 <= i < |events| ==>
         RightEvent(selected[i], i, startSeconds, cap.Some? || prefilter, actor, events[i])
  }

  /** The window of comments, sorted, filtered, capped and renumbered. Every choice the two shaping
      steps make is stated over the sorted comments, and the stored stream is a valid timeline. */
  method Capture(comments: seq<ChatRecord>, startSeconds: nat, cap: Option<nat>, rules: TextRules, prefilter: bool,
                 actor: ActorReader)
    returns (ordered: seq<ChatRecord>, eligible: seq<Indexed>, selected: seq<Indexed>, events: seq<Event>)
    requires cap.Some? ==> 1 <= cap.value <= 300
    requires forall c :: c in comments ==> startSeconds as real <= c.offset
    ensures ordered == Sort(CaptureOrder, comments) && OffsetSorted(ordered)
    ensures eligible == Eligible(ordered, rules, prefilter)
    ensures ChosenInOrder(eligible, ordered) && Ascending(Offsets(eligible))
    ensures selected == Shaped(eligible, cap)
    ensures ChosenInOrder(selected, ordered) && |selected| <= |eligible| <= |ordered| == |comments|
    ensures events == StoredEvents(selected, startSeconds, cap.Some? || prefilter, actor) && Timeline(events)
    ensures RightCapture(comments, startSeconds, cap, rules, prefilter, actor, ordered, eligible, selected, events)
  {
    hide RightEvent, RightShape, WellFiltered, ChosenInOrder, Timeline, Greedy, Survivors, Sort, SortedBy,
         CaptureOrder, OffsetSorted, Ascending;
    ordered := Sort(CaptureOrder, comments);
    OrderedComments(comments);
    eligible := PrefilterRecords(ordered, rules, prefilter);
    EligibleInOrder(ordered, rules, prefilter);
    InOrderAscends(eligible, ordered);
    ChosenAtMost(eligible, ordered);
    selected := ShapeRate(eligible, cap);
    if cap.Some? {
      PickInOrder(eligible, ordered, Greedy(Offsets(eligible), |eligible|, cap.value));
      SubsequenceAtMost(|eligible|, Greedy(Offsets(eligible), |eligible|, cap.value));
    }
    InOrderAscends(selected, ordered);
    events := StoredEvents(selected, startSeconds, cap.Some? || prefilter, actor);
    StoredIsRight(selected, startSeconds, cap.Some? || prefilter, actor);
    ChosenFromComments(selected, comments, startSeconds);
    StoredTimeline(selected, startSeconds, cap.Some? || prefilter, actor);
  }

  lemma {:induction false} SubsequenceAtMost(n: nat, idx: seq<nat>)
    requires Subsequence(n, idx)
    ensures |idx| <= n
  {
    if idx != [] {
      var front := idx[..|idx| - 1];
      forall i | 0 <= i < |front| ensures front[i] < idx[|idx| - 1] { assert idx[i] < idx[|idx| - 1]; }
      SubsequenceAtMost(idx[|idx| - 1], front);
    }
  }

  lemma ChosenAtMost(chosen: seq<Indexed>, records: seq<ChatRecord>)
    requires ChosenInOrder(chosen, records)
    ensures |chosen| <= |records|
  {
    var idx := seq(|chosen|, i requires 0 <= i < |chosen| => chosen[i].sourceSequence);
    SubsequenceAtMost(|records|, idx);
  }
}
