/** The events file of a dataset as text: what the validator loads of what the writer wrote. */
module DatasetFile {
  import opened Wrappers
  import opened Sorting
  import opened Events
  import opened Sanitizer
  import opened Dataset
  import opened LogText
  import opened JsonLines

  predicate PlainOption(v: Option<string>) {
    v.Some? ==> Plain(v.value)
  }

  predicate PlainActor(a: ActorId) {
    match a
    case SyntheticLookalike(suffix) => Plain(suffix)
    case Named(name) => Plain(name)
    case _ => true
  }

  /** No text of the event holds U+0085, U+2028 or U+2029. */
  predicate PlainEvent(e: Event) {
    && Plain(e.text) && PlainActor(e.actorId)
    && PlainOption(e.payload.intent) && PlainOption(e.payload.scenario) && PlainOption(e.payload.userId)
    && (e.payload.origin.Some? && e.payload.origin.value.OtherOrigin? ==> Plain(e.payload.origin.value.name))
    && (forall key :: key in e.payload.rest ==> Plain(key) && Plain(e.payload.rest[key]))
  }

  /** A parsed line: not an object with a known type and a payload object, or its type, its payload, whether it has
      fields of no event, and the event if its sequence and offset are numbers. */
  datatype RawLine = NotEvent | Fields(stray: bool, eventType: EventType, payload: Payload, event: Option<Event>)

  datatype Fault = InvalidEvent | UnknownFields | NotWhitelisted

  /** `json.dumps` of an event, and the reading of a line. */
  datatype EventLines = EventLines(dump: Event -> string, read: string -> RawLine)

  /** Every payload key is one its type may have. */
  predicate Whitelisted(t: EventType, p: Payload) {
    && p.userId.None? && (forall key :: key in p.rest ==> key in ExtraKeys(t))
    && (ReplyableType(t) || p == EMPTY_PAYLOAD.(rest := p.rest))
  }

  /** The event a line adds, if any. A type without a whitelist entry raises a key error. */
  function EventOf(raw: RawLine): Option<Event> {
    if raw.NotEvent? || raw.eventType.BroadcastState? then None else raw.event
  }

  /** The faults a line adds, in order; only schema v2 minds unknown fields. */
  function FaultsOf(raw: RawLine, v2: bool): seq<Fault> {
    if raw.NotEvent? then [InvalidEvent]
    else
      (if v2 && raw.stray then [UnknownFields] else [])
      + if raw.eventType.BroadcastState? then [InvalidEvent]
        else
          (if Whitelisted(raw.eventType, raw.payload) then [] else [NotWhitelisted])
          + if raw.event.None? then [InvalidEvent] else []
  }

  /** What `_load_events` returns: the events of the lines that parse, and the faults. */
  function Loaded(l: EventLines, v2: bool, lines: seq<string>): (r: (seq<Event>, seq<Fault>)) {
    if lines == [] then ([], []) else
      var (events, faults) := Loaded(l, v2, lines[..|lines| - 1]);
      var raw := l.read(lines[|lines| - 1]);
      (events + if EventOf(raw).Some? then [EventOf(raw).value] else [], faults + FaultsOf(raw, v2))
  }

  lemma LoadedStep(l: EventLines, v2: bool, lines: seq<string>, n: nat)
    requires n < |lines|
    ensures var before, raw := Loaded(l, v2, lines[..n]), l.read(lines[n]);
            Loaded(l, v2, lines[..n + 1])
            == (before.0 + if EventOf(raw).Some? then [EventOf(raw).value] else [], before.1 + FaultsOf(raw, v2))
  {
    hide FaultsOf, EventOf;
    assert lines[..n + 1][..n] == lines[..n] && lines[..n + 1][n] == lines[n];
  }

  /** The body of the loop: what one line adds. */
  method TakeLine(raw: RawLine, v2: bool) returns (event: Option<Event>, faults: seq<Fault>)
    ensures event == EventOf(raw) && faults == FaultsOf(raw, v2)
  {
    hide Whitelisted;
    if raw.NotEvent? { return None, [InvalidEvent]; }
    faults := if v2 && raw.stray then [UnknownFields] else [];
    if raw.eventType.BroadcastState? { return None, faults + [InvalidEvent]; }
    if !Whitelisted(raw.eventType, raw.payload) { faults := faults + [NotWhitelisted]; }
    event := raw.event;
    if event.None? { faults := faults + [InvalidEvent]; }
  }

  /** `_load_events`: the loop goes on past a bad line, and keeps an event whose payload alone is at fault. */
  method LoadEvents(l: EventLines, v2: bool, file: string) returns (events: seq<Event>, faults: seq<Fault>)
    ensures (events, faults) == Loaded(l, v2, SplitLines(file))
    ensures RightLoad(l, v2, SplitLines(file), events, faults)
  {
    hide SplitLines, FaultsOf, EventOf, AllRight;
    var lines := SplitLines(file);
    ghost var given, found := LoadIsRight(l, v2, lines);
    events, faults := [], [];
    for n := 0 to |lines|
      invariant (events, faults) == Loaded(l, v2, lines[..n])
    {
      LoadedStep(l, v2, lines, n);
      var event, more := TakeLine(l.read(lines[n]), v2);
      events := events + if event.Some? then [event.value] else [];
      faults := faults + more;
    }
    assert lines[..|lines|] == lines;
  }

  // ----- What loading promises

  /** Where a fault stands among those of its line. */
  function Place(f: Fault): nat {
    match f
    case UnknownFields => 0
    case NotWhitelisted => 1
    case InvalidEvent => 2
  }

  /** What one line gives: its event or the fault that it has none, and each other fault it earns, once, in order. */
  ghost predicate RightLine(raw: RawLine, v2: bool, event: seq<Event>, faults: seq<Fault>) {
    && (event == [] <==> InvalidEvent in faults)
    && (event != [] ==> raw.Fields? && raw.event.Some? && event == [raw.event.value])
    && (InvalidEvent in faults <==> raw.NotEvent? || raw.eventType == BroadcastState || raw.event == None)
    && (UnknownFields in faults <==> raw.Fields? && v2 && raw.stray)
    && (NotWhitelisted in faults <==>
        raw.Fields? && raw.eventType != BroadcastState && !Whitelisted(raw.eventType, raw.payload))
    && forall i, j :: 0 <= i < j < |faults| ==> Place(faults[i]) < Place(faults[j])
  }

  ghost predicate AllRight(l: EventLines, v2: bool, lines: seq<string>, given: seq<seq<Event>>,
                           found: seq<seq<Fault>>) {
    && |given| == |found| == |lines|
    && forall n :: 0 <= n < |lines| ==> RightLine(l.read(lines[n]), v2, given[n], found[n])
  }

  /** What loading a file promises: the events and the faults of its lines, in line order. */
  ghost predicate RightLoad(l: EventLines, v2: bool, lines: seq<string>, events: seq<Event>, faults: seq<Fault>) {
    exists given, found ::
      AllRight(l, v2, lines, given, found) && events == Flat(given) && faults == Flat(found)
  }

  /** At most one fault of each kind, in order. */
  lemma InPlaces(a: seq<Fault>, b: seq<Fault>, c: seq<Fault>)
    requires (a == [] || a == [UnknownFields]) && (b == [] || b == [NotWhitelisted]) && (c == [] || c == [InvalidEvent])
    ensures var all := a + (b + c);
            && (UnknownFields in all <==> a != []) && (NotWhitelisted in all <==> b != [])
            && (InvalidEvent in all <==> c != [])
            && forall i, j :: 0 <= i < j < |all| ==> Place(all[i]) < Place(all[j])
  {
    var all := a + (b + c);
    assert forall f :: f in all <==> f in a || f in b || f in c;
    assert forall i :: 0 <= i < |all| ==> all[i] == if i < |a| then a[i] else if i - |a| < |b| then b[i - |a|]
                                                    else c[i - |a| - |b|];
  }

  lemma LineIsRight(raw: RawLine, v2: bool)
    ensures RightLine(raw, v2, if EventOf(raw).Some? then [EventOf(raw).value] else [], FaultsOf(raw, v2))
  {
    hide Whitelisted, Place;
    var broadcast := raw.Fields? && raw.eventType.BroadcastState?;
    var a := if raw.Fields? && v2 && raw.stray then [UnknownFields] else [];
    var b := if raw.NotEvent? || broadcast || Whitelisted(raw.eventType, raw.payload) then [] else [NotWhitelisted];
    var c := if raw.NotEvent? || broadcast || raw.event.None? then [InvalidEvent] else [];
    InPlaces(a, b, c);
    assert FaultsOf(raw, v2) == a + (b + c);
  }

  lemma OneMoreLine(l: EventLines, v2: bool, lines: seq<string>, given: seq<seq<Event>>, found: seq<seq<Fault>>,
                    event: seq<Event>, faults: seq<Fault>)
    requires lines != [] && AllRight(l, v2, lines[..|lines| - 1], given, found)
    requires RightLine(l.read(lines[|lines| - 1]), v2, event, faults)
    ensures AllRight(l, v2, lines, given + [event], found + [faults])
  {
    hide RightLine;
    var front := lines[..|lines| - 1];
    assert forall n :: 0 <= n < |front| ==> front[n] == lines[n];
  }

  lemma {:induction false} LoadIsRight(l: EventLines, v2: bool, lines: seq<string>)
    returns (given: seq<seq<Event>>, found: seq<seq<Fault>>)
    ensures AllRight(l, v2, lines, given, found)
    ensures Loaded(l, v2, lines) == (Flat(given), Flat(found))
  {
    hide RightLine, FaultsOf, EventOf, AllRight;
    if lines == [] {
      NoLines(l, v2);
      return [], [];
    }
    var raw := l.read(lines[|lines| - 1]);
    given, found := LoadIsRight(l, v2, lines[..|lines| - 1]);
    LineIsRight(raw, v2);
    var event := if EventOf(raw).Some? then [EventOf(raw).value] else [];
    OneMoreLine(l, v2, lines, given, found, event, FaultsOf(raw, v2));
    FlatStep(given, event);
    FlatStep(found, FaultsOf(raw, v2));
    given, found := given + [event], found + [FaultsOf(raw, v2)];
  }

  lemma NoLines(l: EventLines, v2: bool)
    ensures AllRight(l, v2, [], [], [])
  {}

  /** The event of a line, as a codec. */
  function CodecOf(l: EventLines): LineCodec<Event> {
    LineCodec(l.dump, line => EventOf(l.read(line)))
  }

  /** A dumped event reads back with its type, its payload and no other field. */
  ghost predicate Honest(l: EventLines, events: seq<Event>) {
    && Faithful(CodecOf(l), PlainEvent, events)
    && forall e :: e in events ==> l.read(l.dump(e)) == Fields(false, e.eventType, e.payload, Some(e))
  }

  predicate AllWhitelisted(events: seq<Event>) {
    forall i :: 0 <= i < |events| ==> Whitelisted(events[i].eventType, events[i].payload)
  }

  lemma {:induction false} LoadedAll(l: EventLines, v2: bool, events: seq<Event>)
    requires Honest(l, events)
    ensures var r := Loaded(l, v2, Dumps(CodecOf(l), events));
            r.0 == events && (r.1 == [] <==> AllWhitelisted(events))
  {
    hide Whitelisted, PlainEvent;
    if events != [] {
      var front, last := events[..|events| - 1], events[|events| - 1];
      var lines := Dumps(CodecOf(l), events);
      assert events == front + [last];
      assert lines[..|lines| - 1] == Dumps(CodecOf(l), front);
      LoadedAll(l, v2, front);
      assert CodecOf(l).load(l.dump(last)) == Some(last) by { assert Handles(CodecOf(l), PlainEvent, last); }
    }
  }

  lemma {:induction false} LoadedFault(l: EventLines, v2: bool, lines: seq<string>, k: nat)
    requires k < |lines| && CodecOf(l).load(lines[k]) == None
    ensures Loaded(l, v2, lines).1 != []
  {
    if k < |lines| - 1 { LoadedFault(l, v2, lines[..|lines| - 1], k); }
  }

  /** The text of an events file. */
  function FileText(l: EventLines, events: seq<Event>): string {
    Written(Dumps(CodecOf(l), events))
  }

  /** The validator loads what the writer wrote, without a fault, exactly when no stored text holds a separator and
      every payload is whitelisted; with a separator it always reports a fault. */
  lemma LoadedExactly(l: EventLines, v2: bool, events: seq<Event>)
    requires Honest(l, events)
    ensures var r := Loaded(l, v2, SplitLines(FileText(l, events)));
            if forall i :: 0 <= i < |events| ==> PlainEvent(events[i])
            then r.0 == events && (r.1 == [] <==> AllWhitelisted(events)) else r.1 != []
  {
    hide SplitLines, Written, PlainEvent, Loaded, AllWhitelisted;
    var c := CodecOf(l);
    LoadsBackExactly(c, PlainEvent, events);
    var lines := SplitLines(FileText(l, events));
    if forall i :: 0 <= i < |events| ==> PlainEvent(events[i]) {
      DumpsWhole(l, events);
      LoadedAll(l, v2, events);
    } else {
      var k :| 0 <= k < |lines| && Loads(c, lines)[k] == None;
      LoadedFault(l, v2, lines, k);
    }
  }

  lemma DumpsWhole(l: EventLines, events: seq<Event>)
    requires Honest(l, events) && forall i :: 0 <= i < |events| ==> PlainEvent(events[i])
    ensures SplitLines(FileText(l, events)) == Dumps(CodecOf(l), events)
  {
    hide SplitLines, Written, PlainEvent, OneLine;
    var c := CodecOf(l);
    forall i | 0 <= i < |events| ensures OneLine(Dumps(c, events)[i]) {
      assert Handles(c, PlainEvent, events[i]);
    }
    WholeLines(Dumps(c, events));
  }

  /** Whatever the sanitizer stores is whitelisted. */
  lemma SanitizedWhitelisted(events: seq<Event>, s: Scrubber)
    ensures AllWhitelisted(Sanitized(events, s))
  {
    var out := Sanitized(events, s);
    forall i | 0 <= i < |out| ensures Whitelisted(out[i].eventType, out[i].payload) {
      assert out[i] == CleanEvent(Seen(events, i + 1), events[i], s);
    }
  }

  /** The recomputation checks on the text of a dataset directory: every line loads without a fault, and what is loaded
      has the timeline, the counts and the workloads its manifest states. */
  predicate FileAccepted(l: EventLines, manifest: Manifest, file: string) {
    var (events, faults) := Loaded(l, manifest.v2.Some?, SplitLines(file));
    var stored := Stored(manifest, events);
    faults == [] && Timeline(events) && CountsAccepted(stored) && WorkloadAccepted(stored) && EffectiveAccepted(stored)
  }

  /** Main result: for every timeline, the files the writer leaves pass the recomputation checks exactly when
      no text it stored holds U+0085, U+2028 or U+2029. */
  lemma WrittenFileExactly(config: WriterConfig, events: seq<Event>, durationMs: int, l: EventLines)
    requires WriteOutcome(config, events, durationMs).Ok? && Timeline(events)
    requires Honest(l, WriteOutcome(config, events, durationMs).value.events)
    ensures var stored := WriteOutcome(config, events, durationMs).value;
            FileAccepted(l, stored.manifest, FileText(l, stored.events))
            <==> forall i :: 0 <= i < |stored.events| ==> PlainEvent(stored.events[i])
  {
    hide SplitLines, Written, PlainEvent, Loaded, FileText, CountsAccepted, WorkloadAccepted, EffectiveAccepted,
         Timeline, Sanitized, ManifestFor, AllWhitelisted, Honest;
    var stored := WriteOutcome(config, events, durationMs).value;
    SanitizedWhitelisted(events, config.scrubber);
    WrittenPassesRecomputation(config, events, durationMs);
    LoadedExactly(l, stored.manifest.v2.Some?, stored.events);
    assert stored == Stored(stored.manifest, stored.events);
  }

  /** One ordinary message whose text holds U+2028, left as it is by the scrubber, makes the dataset invalid. */
  lemma BreakingMessage(config: WriterConfig, durationMs: int, l: EventLines)
    requires ConfigAccepted(config) && durationMs > 0
    requires config.scrubber.text("a\U{2028}b", Named("anna"), Viewer(1)) == "a\U{2028}b"
    requires var chat := [Event(0, 0, Danmaku, Named("anna"), "a\U{2028}b", EMPTY_PAYLOAD)];
             Honest(l, Sanitized(chat, config.scrubber))
    ensures var chat := [Event(0, 0, Danmaku, Named("anna"), "a\U{2028}b", EMPTY_PAYLOAD)];
            && WriteOutcome(config, chat, durationMs).Ok?
            && var stored := WriteOutcome(config, chat, durationMs).value;
               !FileAccepted(l, stored.manifest, FileText(l, stored.events))
  {
    var e := Event(0, 0, Danmaku, Named("anna"), "a\U{2028}b", EMPTY_PAYLOAD);
    var chat := [e];
    assert Timeline(chat);
    assert forall x :: x in chat ==> Supported(x);
    var stored := WriteOutcome(config, chat, durationMs).value;
    FirstViewer(e);
    assert Seen(chat, 1) == Noted(Seen(chat, 0), AliasedKey(e));
    assert stored.events[0] == CleanEvent([Name(Named("anna"))], e, config.scrubber);
    assert Separator(stored.events[0].text[1]);
    WrittenFileExactly(config, chat, durationMs, l);
  }

  lemma FirstViewer(e: Event)
    requires e == Event(0, 0, Danmaku, Named("anna"), "a\U{2028}b", EMPTY_PAYLOAD)
    ensures Noted([], AliasedKey(e)) == [Name(Named("anna"))]
            && PositionOf([Name(Named("anna"))], Name(Named("anna"))) == 0
    ensures AliasIn([Name(Named("anna"))], e) == Viewer(1)
  {}
}
