/** The livestream event and its relative timeline, shared by every dataset stage. */
module Events {
  import opened Wrappers
  import opened Sorting

  datatype EventType =
    | Danmaku | Gift | SuperChat
    | Enter | Follow | LikeBatch | PopularitySnapshot | ConnectionState | BroadcastState | Unknown

  datatype Origin = Real | Synthetic | OtherOrigin(name: string)

  /** An actor id by the patterns the code tests: `viewer_` and a number of at least four digits, `synthetic_` and
      one, another string that starts with `synthetic_`, or any other string. */
  datatype ActorId =
    | NoActor
    | Viewer(number: nat)
    | SyntheticActor(number: nat)
    | SyntheticLookalike(suffix: string)
    | Named(name: string)

  /** The provenance keys of a payload, the raw `user_id`, and every other key. */
  datatype Payload = Payload(
    origin: Option<Origin>,
    sourceSequence: Option<int>,
    intent: Option<string>,
    scenario: Option<string>,
    parentSequence: Option<int>,
    userId: Option<string>,
    rest: map<string, string>)

  const EMPTY_PAYLOAD := Payload(None, None, None, None, None, None, map[])

  datatype Event = Event(
    sequence: int,
    offsetMs: int,
    eventType: EventType,
    actorId: ActorId,
    text: string,
    payload: Payload)

  predicate ReplyableType(t: EventType) {
    t.Danmaku? || t.Gift? || t.SuperChat?
  }

  predicate Replyable(e: Event) {
    ReplyableType(e.eventType)
  }

  predicate MarkedSynthetic(e: Event) {
    e.payload.origin == Some(Synthetic)
  }

  predicate NotSynthetic(e: Event) {
    !MarkedSynthetic(e)
  }

  /** Replyable and not marked synthetic: what the real workload counts. */
  predicate RealReplyable(e: Event) {
    Replyable(e) && !MarkedSynthetic(e)
  }

  predicate SyntheticReplyable(e: Event) {
    Replyable(e) && MarkedSynthetic(e)
  }

  /** The check the derivations make before they accept an event as real. */
  predicate LooksSynthetic(e: Event) {
    MarkedSynthetic(e) || e.actorId.SyntheticActor? || e.actorId.SyntheticLookalike?
  }

  /** The sort key `(offset_ms, sequence)`. */
  predicate ByTime(a: Event, b: Event) {
    a.offsetMs < b.offsetMs || (a.offsetMs == b.offsetMs && a.sequence <= b.sequence)
  }

  lemma ByTimeIsPreorder()
    ensures TotalPreorder(ByTime)
  {}

  function Renumbered(e: Event, index: int): Event {
    e.(sequence := index)
  }

  /** `enumerate`: each event takes its index as sequence. */
  function Renumber(events: seq<Event>): (r: seq<Event>)
    ensures |r| == |events|
    ensures forall i :: 0 <= i < |events| ==> r[i] == Renumbered(events[i], i)
  {
    seq(|events|, i requires 0 <= i < |events| => Renumbered(events[i], i))
  }

  predicate OffsetsAscend(events: seq<Event>) {
    forall i, j :: 0 <= i < j < |events| ==> events[i].offsetMs <= events[j].offsetMs
  }

  predicate SequencesAreIndexes(events: seq<Event>) {
    forall i :: 0 <= i < |events| ==> events[i].sequence == i
  }

  /** A stored timeline: contiguous sequences from 0 and non-negative, non-decreasing offsets. */
  predicate Timeline(events: seq<Event>) {
    && SequencesAreIndexes(events)
    && OffsetsAscend(events)
    && forall i :: 0 <= i < |events| ==> events[i].offsetMs >= 0
  }

  lemma TimelineIsSorted(events: seq<Event>)
    requires SequencesAreIndexes(events) && OffsetsAscend(events)
    ensures SortedBy(ByTime, events)
  {}

  lemma SortedAscends(events: seq<Event>)
    requires SortedBy(ByTime, events)
    ensures OffsetsAscend(Renumber(events))
  {
    var r := Renumber(events);
    forall i, j | 0 <= i < j < |r| ensures r[i].offsetMs <= r[j].offsetMs {
      assert ByTime(events[i], events[j]);
    }
  }

  lemma SortedEarlier(events: seq<Event>, i: nat, j: nat)
    requires SortedBy(ByTime, events) && i < |events| && j < |events|
    requires events[i].offsetMs < events[j].offsetMs
    ensures i < j
  {}

  function CountReplyable(events: seq<Event>): nat {
    |Filter(Replyable, events)|
  }
}
