/** In-memory sanitization of one capture: `EventSanitizer`. */
module Sanitizer {
  import opened Wrappers
  import opened Events
  import opened Distinct

  datatype SanitizeError = NoPayloadKeys

  /** Text and value scrubbing, left uninterpreted. */
  datatype Scrubber = Scrubber(text: (string, ActorId, ActorId) -> string, value: string -> string)

  datatype ActorKey = Uid(id: string) | Name(actor: ActorId)

  /** `synthetic_` and exactly four digits. */
  predicate FourDigits(a: ActorId) {
    a.SyntheticActor? && a.number <= 9999
  }

  /** An event whose actor id is kept as it is. */
  predicate Exempt(e: Event) {
    e.payload.origin == Some(Synthetic) && FourDigits(e.actorId)
  }

  function KeyOf(e: Event): Option<ActorKey> {
    if e.payload.userId.Some? && e.payload.userId.value != "" && e.payload.userId.value != "0"
        then Some(Uid(e.payload.userId.value))
    else if e.actorId.NoActor? then None
    else Some(Name(e.actorId))
  }

  /** The key an event needs an alias for. */
  function AliasedKey(e: Event): Option<ActorKey> {
    if Exempt(e) then None else KeyOf(e)
  }

  /** The whitelisted keys beyond provenance; every type but `BroadcastState` has an entry. */
  function ExtraKeys(t: EventType): set<string> {
    match t
    case Gift => {"gift_name", "gift_num"}
    case SuperChat => {"price"}
    case LikeBatch => {"count"}
    case PopularitySnapshot => {"popularity"}
    case ConnectionState => {"connected", "message"}
    case Unknown => {"command"}
    case _ => {}
  }

  function ScrubOption(s: Scrubber, v: Option<string>): Option<string> {
    if v.None? then None else Some(s.value(v.value))
  }

  function ScrubOrigin(s: Scrubber, o: Option<Origin>): Option<Origin> {
    if o.Some? && o.value.OtherOrigin? then Some(OtherOrigin(s.value(o.value.name))) else o
  }

  /** Whitelisted keys only; only replyable types may carry provenance. */
  function CleanPayload(t: EventType, p: Payload, s: Scrubber): Payload {
    var rest := map key | key in p.rest && key in ExtraKeys(t) :: s.value(p.rest[key]);
    if ReplyableType(t)
    then Payload(ScrubOrigin(s, p.origin), p.sourceSequence, ScrubOption(s, p.intent), ScrubOption(s, p.scenario),
                 p.parentSequence, None, rest)
    else EMPTY_PAYLOAD.(rest := rest)
  }

  /** The keys seen so far, in order of first appearance: key `i` has alias `i + 1`. */
  function Noted(order: seq<ActorKey>, key: Option<ActorKey>): seq<ActorKey> {
    if key.None? || key.value in order then order else order + [key.value]
  }

  function PositionOf(order: seq<ActorKey>, key: ActorKey): (i: nat)
    requires key in order
    ensures i < |order| && order[i] == key
    ensures forall j :: 0 <= j < i ==> order[j] != key
  {
    if order[0] == key then 0 else 1 + PositionOf(order[1..], key)
  }

  /** The actor id the dataset stores, once the event's key is among those seen. */
  function AliasIn(order: seq<ActorKey>, e: Event): ActorId
    requires AliasedKey(e).Some? ==> AliasedKey(e).value in order
  {
    if Exempt(e) then e.actorId
    else if KeyOf(e).None? then NoActor
    else Viewer(PositionOf(order, KeyOf(e).value) + 1)
  }

  function CleanEvent(order: seq<ActorKey>, e: Event, s: Scrubber): Event
    requires AliasedKey(e).Some? ==> AliasedKey(e).value in order
  {
    Event(e.sequence, e.offsetMs, e.eventType, AliasIn(order, e), s.text(e.text, e.actorId, AliasIn(order, e)),
          CleanPayload(e.eventType, e.payload, s))
  }

  /** The keys seen in the first `n` events, in order of first appearance. */
  function Seen(events: seq<Event>, n: nat): seq<ActorKey>
    requires n <= |events|
  {
    if n == 0 then [] else Noted(Seen(events, n - 1), AliasedKey(events[n - 1]))
  }

  /** What a fresh sanitizer stores for a whole stream. */
  function Sanitized(events: seq<Event>, s: Scrubber): (r: seq<Event>)
    ensures |r| == |events|
    ensures forall i :: 0 <= i < |r| ==> r[i] == CleanEvent(Seen(events, i + 1), events[i], s)
  {
    seq(|events|, i requires 0 <= i < |events| => CleanEvent(Seen(events, i + 1), events[i], s))
  }

  predicate Supported(e: Event) {
    !e.eventType.BroadcastState?
  }

  /** The dictionary maps exactly the seen keys, one to one, onto 1..n in order of first appearance. */
  ghost predicate Bijective(aliases: map<ActorKey, nat>, order: seq<ActorKey>) {
    && NoRepeats(order)
    && (forall key :: key in aliases <==> key in order)
    && |aliases| == |order|
    && (forall i :: 0 <= i < |order| ==> order[i] in aliases && aliases[order[i]] == i + 1)
  }

  lemma BijectiveStep(aliases: map<ActorKey, nat>, order: seq<ActorKey>, key: ActorKey)
    requires Bijective(aliases, order) && key !in order
    ensures Bijective(aliases[key := |aliases| + 1], order + [key])
  {
    var grown := aliases[key := |aliases| + 1];
    assert grown.Keys == aliases.Keys + {key};
    assert key !in aliases.Keys;
    assert |grown| == |grown.Keys| == |aliases.Keys| + 1;
  }

  /** The sanitizer object; `order` is its ghost history of first appearances. */
  class EventSanitizer {
    var aliases: map<ActorKey, nat>
    ghost var order: seq<ActorKey>
    const scrubber: Scrubber

    ghost predicate Valid()
      reads this
    {
      Bijective(aliases, order)
    }

    constructor (scrubber: Scrubber)
      ensures Valid() && order == [] && this.scrubber == scrubber
    {
      aliases, order := map[], [];
      this.scrubber := scrubber;
    }

    method Alias(key: ActorKey) returns (number: nat)
      requires Valid()
      modifies this
      ensures Valid() && order == Noted(old(order), Some(key))
      ensures key in order && number == PositionOf(order, key) + 1
    {
      if key !in aliases {
        BijectiveStep(aliases, order, key);
        aliases := aliases[key := |aliases| + 1];
        order := order + [key];
      }
      number := aliases[key];
      ghost var i := PositionOf(order, key);
      assert aliases[order[i]] == i + 1;
    }

    /** The actor id stored for an event. */
    method AliasFor(e: Event) returns (alias: ActorId)
      requires Valid()
      modifies this
      ensures Valid() && order == Noted(old(order), AliasedKey(e))
      ensures AliasedKey(e).Some? ==> AliasedKey(e).value in order
      ensures alias == AliasIn(order, e)
    {
      hide Valid, PositionOf, Exempt, KeyOf;
      alias := NoActor;
      if Exempt(e) {
        alias := e.actorId;
      } else if KeyOf(e).Some? {
        var number := Alias(KeyOf(e).value);
        alias := Viewer(number);
      }
    }

    /** The alias is assigned before the payload whitelist is looked up, so even a rejected event counts as seen. */
    method Sanitize(e: Event) returns (r: Result<Event, SanitizeError>)
      requires Valid()
      modifies this
      ensures Valid() && order == Noted(old(order), AliasedKey(e))
      ensures AliasedKey(e).Some? ==> AliasedKey(e).value in order
      ensures r == if Supported(e) then Ok(CleanEvent(order, e, scrubber)) else Err(NoPayloadKeys)
    {
      hide Valid, CleanPayload, AliasIn, AliasedKey, Noted;
      var alias := AliasFor(e);
      if e.eventType.BroadcastState? { return Err(NoPayloadKeys); }
      r := Ok(Event(e.sequence, e.offsetMs, e.eventType, alias, scrubber.text(e.text, e.actorId, alias),
                    CleanPayload(e.eventType, e.payload, scrubber)));
    }
  }

  // ----- What sanitizing twice does

  /** The aliases of the first `n` stored viewers, as the keys a second pass sees. */
  function ViewerKeys(n: nat): (r: seq<ActorKey>)
    ensures |r| == n && forall i :: 0 <= i < n ==> r[i] == Name(Viewer(i + 1))
  {
    seq(n, (i: nat) => Name(Viewer(i + 1)))
  }

  lemma ViewerPosition(n: nat, i: nat)
    requires i < n
    ensures ViewerKeys(n)[i] in ViewerKeys(n) && PositionOf(ViewerKeys(n), Name(Viewer(i + 1))) == i
  {
    assert ViewerKeys(n)[i] == Name(Viewer(i + 1));
  }

  lemma ViewerNoted(n: nat, i: nat)
    requires i <= n
    ensures Noted(ViewerKeys(n), Some(Name(Viewer(i + 1)))) == ViewerKeys(if i < n then n else n + 1)
  {
    if i < n {
      ViewerPosition(n, i);
    } else {
      assert Name(Viewer(n + 1)) !in ViewerKeys(n);
    }
  }

  /** A second pass sees the stored viewers in the order of their numbers. */
  lemma {:induction false} SecondPassOrder(events: seq<Event>, s: Scrubber, n: nat)
    requires n <= |events| && forall i :: 0 <= i < n && Exempt(events[i]) ==> Replyable(events[i])
    ensures Seen(Sanitized(events, s), n) == ViewerKeys(|Seen(events, n)|)
  {
    hide CleanEvent, AliasedKey, ViewerKeys, Exempt, Noted;
    if n > 0 {
      SecondPassOrder(events, s, n - 1);
      SecondPassStep(events, s, n - 1);
    }
  }

  /** The key a stored event shows to the next sanitizer. */
  lemma StoredKey(order: seq<ActorKey>, e: Event, s: Scrubber)
    requires AliasedKey(e).Some? ==> AliasedKey(e).value in order
    requires Exempt(e) ==> Replyable(e)
    ensures var out := CleanEvent(order, e, s);
            match AliasedKey(e)
            case None => AliasedKey(out).None? && (Exempt(out) || out.actorId.NoActor?)
            case Some(key) =>
                !Exempt(out) && out.actorId == Viewer(PositionOf(order, key) + 1)
                && KeyOf(out) == Some(Name(out.actorId))
  {}

  /** One stored event, seen by the next sanitizer after the stored viewers so far. */
  lemma StoredStep(before: seq<ActorKey>, e: Event, s: Scrubber)
    requires Exempt(e) ==> Replyable(e)
    ensures var after := Noted(before, AliasedKey(e));
            && (AliasedKey(e).Some? ==> AliasedKey(e).value in after)
            && var out := CleanEvent(after, e, s);
               && Noted(ViewerKeys(|before|), AliasedKey(out)) == ViewerKeys(|after|)
               && (AliasedKey(out).Some? ==> AliasedKey(out).value in ViewerKeys(|after|))
               && AliasIn(ViewerKeys(|after|), out) == out.actorId
  {
    var after := Noted(before, AliasedKey(e));
    NotedStep(before, AliasedKey(e));
    StoredKey(after, e, s);
    hide CleanEvent, ViewerKeys, Exempt, KeyOf, Replyable, PositionOf, Noted;
    if AliasedKey(e).Some? {
      var i := PositionOf(after, AliasedKey(e).value);
      ViewerNoted(|before|, i);
      ViewerPosition(|after|, i);
    } else {
      NotedStep(ViewerKeys(|before|), AliasedKey(CleanEvent(after, e, s)));
    }
  }

  lemma SecondPassStep(events: seq<Event>, s: Scrubber, n: nat)
    requires n < |events| && (Exempt(events[n]) ==> Replyable(events[n]))
    requires Seen(Sanitized(events, s), n) == ViewerKeys(|Seen(events, n)|)
    ensures Seen(Sanitized(events, s), n + 1) == ViewerKeys(|Seen(events, n + 1)|)
    ensures AliasIn(Seen(Sanitized(events, s), n + 1), Sanitized(events, s)[n]) == Sanitized(events, s)[n].actorId
  {
    hide CleanEvent, ViewerKeys, Exempt, Replyable, Noted, AliasIn, AliasedKey;
    StoredStep(Seen(events, n), events[n], s);
  }

  lemma NotedStep(order: seq<ActorKey>, key: Option<ActorKey>)
    ensures var after := Noted(order, key);
            match key
            case None => after == order
            case Some(k) => k in after && PositionOf(after, k) <= |order|
                            && |after| == if PositionOf(after, k) < |order| then |order| else |order| + 1
  {
    if key.Some? && key.value in order {
      var i := PositionOf(order, key.value);
    } else if key.Some? {
      PositionOfNew(order, key.value);
    }
  }

  lemma {:induction false} PositionOfNew(order: seq<ActorKey>, key: ActorKey)
    requires key !in order
    ensures PositionOf(order + [key], key) == |order|
  {
    if order != [] {
      assert (order + [key])[1..] == order[1..] + [key];
      PositionOfNew(order[1..], key);
    }
  }

  lemma LosesOrigin(order: seq<ActorKey>, e: Event, s: Scrubber)
    requires Exempt(e) && !Replyable(e)
    ensures var out := CleanEvent(order, e, s);
            out.actorId == e.actorId && !Exempt(out) && KeyOf(out) == Some(Name(e.actorId))
  {}

  ghost predicate SameActors(a: seq<Event>, b: seq<Event>) {
    |a| == |b| && forall i :: 0 <= i < |a| ==> a[i].actorId == b[i].actorId
  }

  /** Main result: running a fresh sanitizer over its own output leaves every actor id unchanged exactly
      when every event that kept a synthetic actor is replyable; other types lose the origin that exempts them. */
  lemma SecondPassKeepsActors(events: seq<Event>, s: Scrubber)
    ensures SameActors(Sanitized(Sanitized(events, s), s), Sanitized(events, s))
            <==> forall i :: 0 <= i < |events| && Exempt(events[i]) ==> Replyable(events[i])
  {
    hide CleanPayload, ViewerKeys, Seen, PositionOf;
    var once := Sanitized(events, s);
    var twice := Sanitized(once, s);
    if forall i :: 0 <= i < |events| && Exempt(events[i]) ==> Replyable(events[i]) {
      forall i | 0 <= i < |events| ensures twice[i].actorId == once[i].actorId {
        SecondPassOrder(events, s, i);
        SecondPassStep(events, s, i);
      }
    } else {
      var i :| 0 <= i < |events| && Exempt(events[i]) && !Replyable(events[i]);
      LosesOrigin(Seen(events, i + 1), events[i], s);
      assert twice[i].actorId == AliasIn(Seen(once, i + 1), once[i]);
    }
  }

  /** A concrete event: a synthetic viewer entering keeps its actor the first time and becomes a viewer the second. */
  lemma EnteringLosesActor(s: Scrubber)
    ensures var events := [Event(0, 0, Enter, SyntheticActor(7), "", EMPTY_PAYLOAD.(origin := Some(Synthetic)))];
            !SameActors(Sanitized(Sanitized(events, s), s), Sanitized(events, s))
  {
    var e := Event(0, 0, Enter, SyntheticActor(7), "", EMPTY_PAYLOAD.(origin := Some(Synthetic)));
    SecondPassKeepsActors([e], s);
    assert Exempt([e][0]) && !Replyable([e][0]);
  }

  /** The aliases a stream receives are exactly 1..n, one per distinct key, in order of first appearance. */
  lemma {:induction false} SeenIsDistinct(events: seq<Event>, n: nat)
    requires n <= |events|
    ensures NoRepeats(Seen(events, n))
    ensures forall key :: key in Seen(events, n) <==> exists i :: 0 <= i < n && AliasedKey(events[i]) == Some(key)
  {
    if n > 0 {
      SeenIsDistinct(events, n - 1);
      var before, k := Seen(events, n - 1), AliasedKey(events[n - 1]);
      forall key ensures key in Seen(events, n) <==> exists i :: 0 <= i < n && AliasedKey(events[i]) == Some(key) {
        if key in Seen(events, n) && key !in before { assert AliasedKey(events[n - 1]) == Some(key); }
        if i :| 0 <= i < n && AliasedKey(events[i]) == Some(key) {
          if i < n - 1 { assert key in before; }
        }
      }
    }
  }

  lemma {:induction false} SeenGrows(events: seq<Event>, m: nat, n: nat)
    requires m <= n <= |events|
    ensures Seen(events, m) <= Seen(events, n)
  {
    if m < n { SeenGrows(events, m, n - 1); }
  }

  lemma KeySeen(events: seq<Event>, i: nat)
    requires i < |events| && AliasedKey(events[i]).Some?
    ensures AliasedKey(events[i]).value in Seen(events, i + 1)
  {}

  /** Two events share a stored actor exactly when they share a key. */
  lemma SameAliasIffSameKey(events: seq<Event>, s: Scrubber, i: nat, j: nat)
    requires i < j < |events| && AliasedKey(events[i]).Some? && AliasedKey(events[j]).Some?
    ensures Sanitized(events, s)[i].actorId == Sanitized(events, s)[j].actorId
            <==> AliasedKey(events[i]) == AliasedKey(events[j])
  {
    hide KeyOf, Noted, CleanPayload, Seen;
    KeySeen(events, i);
    KeySeen(events, j);
    SeenGrows(events, i + 1, j + 1);
    SeenIsDistinct(events, j + 1);
    var a, b := PositionOf(Seen(events, i + 1), KeyOf(events[i]).value),
        PositionOf(Seen(events, j + 1), KeyOf(events[j]).value);
    assert Seen(events, j + 1)[a] == KeyOf(events[i]).value;
  }

  /** Sanitizing changes nothing the timeline and the workload look at. */
  lemma SanitizingKeepsWorkload(events: seq<Event>, s: Scrubber)
    ensures var out := Sanitized(events, s);
            && (Timeline(events) ==> Timeline(out))
            && forall i :: 0 <= i < |events| ==>
                 && out[i].sequence == events[i].sequence && out[i].offsetMs == events[i].offsetMs
                    && out[i].eventType == events[i].eventType
                 && (Replyable(events[i])
                     && (events[i].payload.origin.None? || !events[i].payload.origin.value.OtherOrigin?)
                     ==> out[i].payload.origin == events[i].payload.origin)
                 && (RealReplyable(events[i]) <==> RealReplyable(out[i]))
                 && (SyntheticReplyable(events[i]) <==> SyntheticReplyable(out[i]))
  {}

  // ----- What the stored events promise

  /** Event `j` needs an alias for this key. */
  predicate Uses(events: seq<Event>, j: nat, key: ActorKey)
    requires j < |events|
  {
    var e := events[j];
    && !(e.payload.origin == Some(Synthetic) && FourDigits(e.actorId))
    && key == (if e.payload.userId.Some? && e.payload.userId.value != "" && e.payload.userId.value != "0"
               then Uid(e.payload.userId.value) else Name(e.actorId))
    && !(key.Name? && e.actorId.NoActor?)
  }

  /** Used before the first use of `key`. */
  ghost predicate UsedBefore(events: seq<Event>, key: ActorKey, other: ActorKey) {
    exists j: nat :: j < |events| && Uses(events, j, other)
                     && forall m :: 0 <= m <= j ==> !Uses(events, m, key)
  }

  /** The keys that appear before this one does. */
  ghost function KeysBefore(events: seq<Event>, key: ActorKey): set<ActorKey> {
    set j: nat | j < |events| && AliasedKey(events[j]).Some? && UsedBefore(events, key, AliasedKey(events[j]).value)
              :: AliasedKey(events[j]).value
  }

  /** The payload keys that an event of the type may have beyond provenance. */
  predicate Allowed(t: EventType, key: string) {
    match t
    case Gift => key == "gift_name" || key == "gift_num"
    case SuperChat => key == "price"
    case LikeBatch => key == "count"
    case PopularitySnapshot => key == "popularity"
    case ConnectionState => key == "connected" || key == "message"
    case Unknown => key == "command"
    case _ => false
  }

  predicate ScrubbedText(s: Scrubber, before: Option<string>, after: Option<string>) {
    (before.Some? <==> after.Some?) && (before.Some? ==> after.value == s.value(before.value))
  }

  /** A message keeps its provenance, its texts scrubbed; nothing else has any, no raw id survives, and of the other
      keys exactly the allowed ones do, scrubbed. */
  ghost predicate RightPayload(t: EventType, before: Payload, after: Payload, s: Scrubber) {
    && after.userId.None?
    && (forall key :: key in after.rest <==> key in before.rest && Allowed(t, key))
    && (forall key :: key in after.rest ==> after.rest[key] == s.value(before.rest[key]))
    && if ReplyableType(t) then
         && after.sourceSequence == before.sourceSequence && after.parentSequence == before.parentSequence
         && ScrubbedText(s, before.intent, after.intent) && ScrubbedText(s, before.scenario, after.scenario)
         && (if before.origin.Some? && before.origin.value.OtherOrigin?
             then after.origin == Some(OtherOrigin(s.value(before.origin.value.name)))
             else after.origin == before.origin)
       else
         after.origin.None? && after.sourceSequence.None? && after.parentSequence.None? && after.intent.None?
         && after.scenario.None?
  }

  /** A kept synthetic actor stays, an event without actor and raw id has none, and any other gets the number of its key
      in the order of first appearance. */
  ghost predicate RightActor(events: seq<Event>, i: nat, actor: ActorId)
    requires i < |events|
  {
    var e := events[i];
    && (e.payload.origin == Some(Synthetic) && FourDigits(e.actorId) ==> actor == e.actorId)
    && (forall key :: Uses(events, i, key) ==> actor == Viewer(|KeysBefore(events, key)| + 1))
    && (!(e.payload.origin == Some(Synthetic) && FourDigits(e.actorId)) && (forall key :: !Uses(events, i, key))
        ==> actor == NoActor)
  }

  /** What is stored for a stream. */
  ghost predicate RightStored(events: seq<Event>, s: Scrubber, out: seq<Event>) {
    && |out| == |events|
    && forall i :: 0 <= i < |events| ==>
         && out[i].sequence == events[i].sequence && out[i].offsetMs == events[i].offsetMs
         && out[i].eventType == events[i].eventType && RightActor(events, i, out[i].actorId)
         && out[i].text == s.text(events[i].text, events[i].actorId, out[i].actorId)
         && RightPayload(events[i].eventType, events[i].payload, out[i].payload, s)
  }

  lemma UsesExactly(events: seq<Event>, j: nat, key: ActorKey)
    requires j < |events|
    ensures Uses(events, j, key) <==> AliasedKey(events[j]) == Some(key)
  {}

  lemma PayloadIsRight(t: EventType, p: Payload, s: Scrubber)
    ensures RightPayload(t, p, CleanPayload(t, p, s), s)
  {}

  /** The keys ahead of a key in the list of first appearances are those used before it. */
  lemma {:induction false} AheadIsBefore(events: seq<Event>, n: nat, key: ActorKey, other: ActorKey)
    requires n <= |events| && key in Seen(events, n)
    ensures other in Seen(events, n)[..PositionOf(Seen(events, n), key)] <==>
            exists j: nat :: j < n && AliasedKey(events[j]) == Some(other)
                             && forall m :: 0 <= m <= j ==> AliasedKey(events[m]) != Some(key)
  {
    var order := Seen(events, n);
    var p := PositionOf(order, key);
    var front := Seen(events, n - 1);
    SeenIsDistinct(events, n - 1);
    hide AliasedKey, NoRepeats;
    if key in front {
      AheadIsBefore(events, n - 1, key, other);
      PositionStays(front, order, key);
      var first :| 0 <= first < n - 1 && AliasedKey(events[first]) == Some(key);
    } else {
      assert AliasedKey(events[n - 1]) == Some(key) && order == front + [key];
      PositionAtEnd(front, key);
      assert order[..p] == front;
    }
  }

  lemma PositionStays(front: seq<ActorKey>, order: seq<ActorKey>, key: ActorKey)
    requires front <= order && key in front
    ensures key in order && PositionOf(order, key) == PositionOf(front, key)
    ensures order[..PositionOf(order, key)] == front[..PositionOf(front, key)]
  {
    var p, q := PositionOf(order, key), PositionOf(front, key);
    assert order[q] == front[q];
    assert forall i :: 0 <= i < |front| ==> front[i] == order[i];
  }

  lemma PositionAtEnd(front: seq<ActorKey>, key: ActorKey)
    requires key !in front
    ensures key in front + [key] && PositionOf(front + [key], key) == |front|
  {
    var order := front + [key];
    assert order[|front|] == key;
    var p := PositionOf(order, key);
    assert forall i :: 0 <= i < |front| ==> order[i] == front[i];
  }

  lemma KeysBeforeAre(events: seq<Event>, key: ActorKey)
    requires key in Seen(events, |events|)
    ensures var order := Seen(events, |events|);
            |KeysBefore(events, key)| == PositionOf(order, key)
  {
    var order := Seen(events, |events|);
    var ahead := order[..PositionOf(order, key)];
    SeenIsDistinct(events, |events|);
    hide Seen, PositionOf, AliasedKey;
    forall other ensures other in KeysBefore(events, key) <==> other in ahead {
      AheadIsBefore(events, |events|, key, other);
      BeforeExactly(events, key, other);
    }
    PrefixDistinct(order, |ahead|);
    assert KeysBefore(events, key) == ElementsOf(ahead);
    ElementsSize(ahead);
  }

  lemma BeforeExactly(events: seq<Event>, key: ActorKey, other: ActorKey)
    ensures other in KeysBefore(events, key) <==>
            exists j: nat :: j < |events| && AliasedKey(events[j]) == Some(other)
                             && forall m :: 0 <= m <= j ==> AliasedKey(events[m]) != Some(key)
  {
    hide AliasedKey;
    forall j: nat, k | j < |events| ensures Uses(events, j, k) <==> AliasedKey(events[j]) == Some(k) {
      UsesExactly(events, j, k);
    }
  }

  function ElementsOf(s: seq<ActorKey>): set<ActorKey> {
    set x | x in s
  }

  lemma {:induction false} ElementsSize(s: seq<ActorKey>)
    requires NoRepeats(s)
    ensures |ElementsOf(s)| == |s|
  {
    if s != [] {
      var front := s[..|s| - 1];
      ElementsSize(front);
      assert s == front + [s[|s| - 1]] && s[|s| - 1] !in front;
      assert ElementsOf(s) == ElementsOf(front) + {s[|s| - 1]};
    }
  }

  lemma PrefixDistinct(s: seq<ActorKey>, n: nat)
    requires NoRepeats(s) && n <= |s|
    ensures NoRepeats(s[..n])
  {}

  lemma ActorIsRight(events: seq<Event>, s: Scrubber, i: nat)
    requires i < |events|
    ensures RightActor(events, i, Sanitized(events, s)[i].actorId)
  {
    var e := events[i];
    var order := Seen(events, i + 1);
    hide CleanPayload;
    forall key | Uses(events, i, key)
      ensures Sanitized(events, s)[i].actorId == Viewer(|KeysBefore(events, key)| + 1)
    {
      UsesExactly(events, i, key);
      SeenGrows(events, i + 1, |events|);
      PositionStays(order, Seen(events, |events|), key);
      KeysBeforeAre(events, key);
    }
    if AliasedKey(e).Some? { UsesExactly(events, i, AliasedKey(e).value); }
  }

  /** Main result: what the sanitizer stores is right. */
  lemma StoredIsRight(events: seq<Event>, s: Scrubber)
    ensures RightStored(events, s, Sanitized(events, s))
  {
    hide RightActor, RightPayload, CleanPayload, AliasIn, Seen;
    forall i | 0 <= i < |events|
      ensures var out := Sanitized(events, s)[i];
              && out.sequence == events[i].sequence && out.offsetMs == events[i].offsetMs
              && out.eventType == events[i].eventType && RightActor(events, i, out.actorId)
              && out.text == s.text(events[i].text, events[i].actorId, out.actorId)
              && RightPayload(events[i].eventType, events[i].payload, out.payload, s)
    {
      ActorIsRight(events, s, i);
      PayloadIsRight(events[i].eventType, events[i].payload, s);
    }
  }
}
