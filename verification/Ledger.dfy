/** The hash-chained decision log: how `_events` accepts a log, and what its head hash fixes. */
module Ledger {
  import opened Wrappers
  import opened LogText

  /** A JSON value of an event. A float is the fraction it denotes; a list or an object is kept as its text. */
  datatype Value =
    | Null | Bool(b: bool) | Int(n: int) | Float(num: int, den: nat) | Text(s: string) | Nested(json: string)

  /** An event object; an absent key is `None`, and `rest` holds every key not named here. */
  datatype Entry = Entry(
    audioSha256: Option<Value>,
    decision: Option<Value>,
    eventHash: Option<Value>,
    eventId: Option<Value>,
    itemId: Option<Value>,
    notes: Option<Value>,
    occurredAt: Option<Value>,
    origin: Option<Value>,
    originalTranscript: Option<Value>,
    previousEventHash: Option<Value>,
    previousTranscript: Option<Value>,
    requestId: Option<Value>,
    reviewer: Option<Value>,
    runId: Option<Value>,
    schemaVersion: Option<Value>,
    sequence: Option<Value>,
    sourceId: Option<Value>,
    transcript: Option<Value>,
    rest: map<string, Value>)

  datatype Parsed = NotJson | NotAnObject | Object(entry: Entry)

  /** SHA-256 of the canonical JSON of an event, `str()` of a JSON value, and `json.loads`. */
  datatype Codec = Codec(hash: Entry -> string, show: Value -> string, load: string -> Parsed)

  function Zeros(n: nat): (s: string)
    ensures |s| == n && forall i :: 0 <= i < n ==> s[i] == '0'
  {
    if n == 0 then "" else Zeros(n - 1) + "0"
  }

  /** The hash the log starts from: sixty-four zeros. */
  const EMPTY_EVENT_HASH := Zeros(64)

  datatype LogError = BadJson(line: nat) | BadObject(line: nat) | BadSequence(line: nat) | BrokenChain(line: nat)

  function Unsigned(e: Entry): Entry {
    e.(eventHash := None)
  }

  /** A JSON value as text; empty when the key is absent. */
  function Shown(c: Codec, v: Option<Value>): string {
    if v.None? then "" else c.show(v.value)
  }

  /** The value equals the number `n`: Python also lets `true` equal 1 and `2.0` equal 2. */
  predicate SequenceIs(v: Option<Value>, n: nat) {
    v.Some? && match v.value
               case Int(k) => k == n
               case Float(num, den) => den > 0 && num == n * den
               case Bool(b) => n == (if b then 1 else 0)
               case _ => false
  }

  predicate Links(c: Codec, e: Entry, n: nat, previous: string) {
    && SequenceIs(e.sequence, n)
    && e.previousEventHash == Some(Text(previous))
    && Shown(c, e.eventHash) == c.hash(Unsigned(e))
  }

  function Head(c: Codec, log: seq<Entry>): string {
    if log == [] then EMPTY_EVENT_HASH else Shown(c, log[|log| - 1].eventHash)
  }

  /** A log whose every event carries its position, its predecessor's hash and its own. */
  predicate Accepted(c: Codec, log: seq<Entry>) {
    forall i :: 0 <= i < |log| ==> Links(c, log[i], i + 1, Head(c, log[..i]))
  }

  /** `_events` from line `done + 1` on. */
  function ReadLines(c: Codec, lines: seq<string>, done: nat, previous: string): Result<seq<Entry>, LogError> {
    if lines == [] then Ok([]) else
      match c.load(lines[0])
      case NotJson => Err(BadJson(done + 1))
      case NotAnObject => Err(BadObject(done + 1))
      case Object(e) =>
        if !SequenceIs(e.sequence, done + 1) then Err(BadSequence(done + 1))
        else if !Links(c, e, done + 1, previous) then Err(BrokenChain(done + 1))
        else
          match ReadLines(c, lines[1..], done + 1, Shown(c, e.eventHash))
          case Ok(more) => Ok([e] + more)
          case Err(error) => Err(error)
  }

  function Read(c: Codec, file: string): Result<seq<Entry>, LogError> {
    ReadLines(c, SplitLines(file), 0, EMPTY_EVENT_HASH)
  }

  lemma AcceptedExtends(c: Codec, log: seq<Entry>, e: Entry)
    requires Accepted(c, log)
    ensures Accepted(c, log + [e]) <==> Links(c, e, |log| + 1, Head(c, log))
  {
    var longer := log + [e];
    assert longer[..|log|] == log;
    forall i | 0 <= i < |log| ensures longer[..i] == log[..i] && longer[i] == log[i] {}
    assert Accepted(c, longer) ==> Links(c, longer[|log|], |log| + 1, Head(c, longer[..|log|]));
    if Links(c, e, |log| + 1, Head(c, log)) {
      forall i | 0 <= i < |longer| ensures Links(c, longer[i], i + 1, Head(c, longer[..i])) {
        if i < |log| { assert Links(c, log[i], i + 1, Head(c, log[..i])); }
      }
    }
  }

  lemma AcceptedFront(c: Codec, log: seq<Entry>, k: nat)
    requires Accepted(c, log) && k <= |log|
    ensures Accepted(c, log[..k])
  {
    forall i | 0 <= i < k ensures Links(c, log[..k][i], i + 1, Head(c, log[..k][..i])) {
      assert log[..k][..i] == log[..i] && log[..k][i] == log[i];
    }
  }

  /** Whatever the reader returns is a chained continuation of what it read before. */
  lemma {:induction false} ReadIsAccepted(c: Codec, before: seq<Entry>, lines: seq<string>)
    requires Accepted(c, before)
    ensures var r := ReadLines(c, lines, |before|, Head(c, before));
            r.Ok? ==> Accepted(c, before + r.value) && |r.value| == |lines|
    decreases |lines|
  {
    hide Accepted, Links;
    var r := ReadLines(c, lines, |before|, Head(c, before));
    if r.Ok? {
      if lines == [] {
        assert before + r.value == before;
      } else {
        var e := c.load(lines[0]).entry;
        AcceptedExtends(c, before, e);
        ReadIsAccepted(c, before + [e], lines[1..]);
        assert before + r.value == before + [e] + r.value[1..];
      }
    }
  }

  // ----- What the head hash fixes

  /** SHA-256 (section 6.2 of FIPS 180-4) tells the events of these two logs apart and gives none of them the
      empty-log value. */
  predicate CollisionFree(c: Codec, a: seq<Entry>, b: seq<Entry>) {
    && (forall x, y | x in a && y in b :: c.hash(Unsigned(x)) == c.hash(Unsigned(y)) ==> Unsigned(x) == Unsigned(y))
    && (forall x | x in a :: c.hash(Unsigned(x)) != EMPTY_EVENT_HASH)
    && (forall y | y in b :: c.hash(Unsigned(y)) != EMPTY_EVENT_HASH)
  }

  lemma CollisionFreeFronts(c: Codec, a: seq<Entry>, b: seq<Entry>, m: nat, n: nat)
    requires CollisionFree(c, a, b) && m <= |a| && n <= |b|
    ensures CollisionFree(c, a[..m], b[..n])
  {
    assert forall x :: x in a[..m] ==> x in a;
    assert forall y :: y in b[..n] ==> y in b;
  }

  predicate SameEvent(c: Codec, a: Entry, b: Entry) {
    Unsigned(a) == Unsigned(b) && Shown(c, a.eventHash) == Shown(c, b.eventHash)
  }

  lemma LastLink(c: Codec, log: seq<Entry>)
    requires Accepted(c, log) && log != []
    ensures var n := |log| - 1;
            Accepted(c, log[..n]) && Links(c, log[n], n + 1, Head(c, log[..n]))
                && Head(c, log) == c.hash(Unsigned(log[n]))
  {
    AcceptedFront(c, log, |log| - 1);
  }

  /** Main result: two accepted logs with the same head hold the same events. */
  lemma {:induction false} HeadFixesLog(c: Codec, a: seq<Entry>, b: seq<Entry>)
    requires CollisionFree(c, a, b) && Accepted(c, a) && Accepted(c, b) && Head(c, a) == Head(c, b)
    ensures |a| == |b| && forall i :: 0 <= i < |a| ==> SameEvent(c, a[i], b[i])
  {
    hide Accepted;
    if a == [] || b == [] {
      if a != [] { LastLink(c, a); }
      if b != [] { LastLink(c, b); }
    } else {
      LastLink(c, a);
      LastLink(c, b);
      CollisionFreeFronts(c, a, b, |a| - 1, |b| - 1);
      var x, y := a[|a| - 1], b[|b| - 1];
      assert x in a && y in b;
      assert Unsigned(x) == Unsigned(y);
      assert x.previousEventHash == Unsigned(x).previousEventHash == y.previousEventHash;
      HeadFixesLog(c, a[..|a| - 1], b[..|b| - 1]);
      forall i | 0 <= i < |a| ensures SameEvent(c, a[i], b[i]) {
        if i < |a| - 1 { assert a[i] == a[..|a| - 1][i] && b[i] == b[..|b| - 1][i]; }
      }
    }
  }

  predicate StringHashes(log: seq<Entry>) {
    forall i :: 0 <= i < |log| ==> log[i].eventHash.Some? && log[i].eventHash.value.Text?
  }

  ghost predicate ShowsText(c: Codec) {
    forall s :: c.show(Text(s)) == s
  }

  /** When every hash is stored as a string, as the store writes it, the logs are equal. */
  lemma HeadFixesStringLog(c: Codec, a: seq<Entry>, b: seq<Entry>)
    requires CollisionFree(c, a, b) && ShowsText(c) && StringHashes(a) && StringHashes(b)
    requires Accepted(c, a) && Accepted(c, b) && Head(c, a) == Head(c, b)
    ensures a == b
  {
    hide Accepted;
    HeadFixesLog(c, a, b);
    forall i | 0 <= i < |a| ensures a[i] == b[i] {
      assert SameEvent(c, a[i], b[i]);
      assert a[i] == Unsigned(a[i]).(eventHash := a[i].eventHash);
      assert b[i] == Unsigned(b[i]).(eventHash := b[i].eventHash);
    }
  }

  // ----- Lines written by the store

  predicate HasText(v: Option<Value>) {
    v.Some? && v.value.Text?
  }

  /** The shape `record_decision` gives an event. */
  predicate Recorded(e: Entry) {
    && HasText(e.audioSha256) && HasText(e.decision) && HasText(e.eventHash) && HasText(e.eventId) && HasText(e.itemId)
    && HasText(e.notes) && HasText(e.occurredAt) && HasText(e.origin) && HasText(e.originalTranscript)
    && HasText(e.previousEventHash) && HasText(e.previousTranscript) && HasText(e.requestId) && HasText(e.reviewer)
    && HasText(e.runId) && e.schemaVersion == Some(Int(1)) && HasText(e.sourceId) && HasText(e.transcript)
    && e.sequence.Some? && e.sequence.value.Int? && e.sequence.value.n >= 0 && e.rest == map[]
  }

  function Scalars(e: Entry): seq<Field>
    requires Recorded(e)
  {
    [ Field(AudioSha256, Words(e.audioSha256.value.s)),
      Field(Decision, Words(e.decision.value.s)),
      Field(EventHash, Words(e.eventHash.value.s)),
      Field(EventId, Words(e.eventId.value.s)),
      Field(ItemId, Words(e.itemId.value.s)),
      Field(Notes, Words(e.notes.value.s)),
      Field(OccurredAt, Words(e.occurredAt.value.s)),
      Field(Origin, Words(e.origin.value.s)),
      Field(OriginalTranscript, Words(e.originalTranscript.value.s)),
      Field(PreviousEventHash, Words(e.previousEventHash.value.s)),
      Field(PreviousTranscript, Words(e.previousTranscript.value.s)),
      Field(RequestId, Words(e.requestId.value.s)),
      Field(Reviewer, Words(e.reviewer.value.s)),
      Field(RunId, Words(e.runId.value.s)),
      Field(SchemaVersion, Number(1)),
      Field(Sequence, Number(e.sequence.value.n)),
      Field(SourceId, Words(e.sourceId.value.s)),
      Field(Transcript, Words(e.transcript.value.s)) ]
  }

  /** The event as canonical JSON, keys sorted. */
  function Line(e: Entry): string
    requires Recorded(e)
  {
    ObjectText(Scalars(e))
  }

  predicate PlainEntry(e: Entry)
    requires Recorded(e)
  {
    PlainFields(Scalars(e))
  }

  /** `json.loads` gives back what `json.dumps` wrote, and refuses an object cut short. */
  ghost predicate LoadsBack(c: Codec) {
    && (forall e | Recorded(e) :: c.load(Line(e)) == Object(e))
    && (forall e, n: nat | Recorded(e) && n < |Line(e)| :: c.load(Line(e)[..n]) == NotJson)
  }

  lemma LineBreaks(e: Entry)
    requires Recorded(e)
    ensures OneLine(Line(e)) <==> PlainEntry(e)
    ensures OnlySeparators(Line(e))
  {
    hide PlainFields;
    ObjectBreaks(Scalars(e));
  }

  lemma PlainEntryIs(e: Entry)
    requires Recorded(e)
    ensures PlainEntry(e) <==>
      && Plain(e.audioSha256.value.s) && Plain(e.decision.value.s) && Plain(e.eventHash.value.s)
         && Plain(e.eventId.value.s)
      && Plain(e.itemId.value.s) && Plain(e.notes.value.s) && Plain(e.occurredAt.value.s) && Plain(e.origin.value.s)
      && Plain(e.originalTranscript.value.s) && Plain(e.previousEventHash.value.s)
         && Plain(e.previousTranscript.value.s)
      && Plain(e.requestId.value.s) && Plain(e.reviewer.value.s) && Plain(e.runId.value.s) && Plain(e.sourceId.value.s)
      && Plain(e.transcript.value.s)
  {
    hide Plain;
    var f := Scalars(e);
    assert f[0].value == Words(e.audioSha256.value.s) && f[1].value == Words(e.decision.value.s);
    assert f[2].value == Words(e.eventHash.value.s) && f[3].value == Words(e.eventId.value.s);
    assert f[4].value == Words(e.itemId.value.s) && f[5].value == Words(e.notes.value.s);
    assert f[6].value == Words(e.occurredAt.value.s) && f[7].value == Words(e.origin.value.s);
    assert f[8].value == Words(e.originalTranscript.value.s);
    assert f[9].value == Words(e.previousEventHash.value.s);
    assert f[10].value == Words(e.previousTranscript.value.s);
    assert f[11].value == Words(e.requestId.value.s) && f[12].value == Words(e.reviewer.value.s);
    assert f[13].value == Words(e.runId.value.s);
    assert f[16].value == Words(e.sourceId.value.s) && f[17].value == Words(e.transcript.value.s);
  }

  predicate AllRecorded(log: seq<Entry>) {
    forall i :: 0 <= i < |log| ==> Recorded(log[i])
  }

  function Lines(log: seq<Entry>): (lines: seq<string>)
    requires AllRecorded(log)
    ensures |lines| == |log| && forall i :: 0 <= i < |log| ==> lines[i] == Line(log[i])
  {
    seq(|log|, i requires 0 <= i < |log| => Line(log[i]))
  }

  /** The first event from `k` on that does not stay on its line, or the length. */
  function FirstCut(log: seq<Entry>, k: nat): (r: nat)
    requires AllRecorded(log) && k <= |log|
    ensures k <= r <= |log|
    ensures r < |log| ==> !PlainEntry(log[r])
    ensures forall i :: k <= i < r ==> PlainEntry(log[i])
    decreases |log| - k
  {
    if k == |log| || !PlainEntry(log[k]) then k else FirstCut(log, k + 1)
  }

  /** What reading back the lines from `k` on gives. */
  function ReadOutcome(log: seq<Entry>, k: nat): Result<seq<Entry>, LogError>
    requires AllRecorded(log) && k <= |log|
  {
    if FirstCut(log, k) == |log| then Ok(log[k..]) else Err(BadJson(FirstCut(log, k) + 1))
  }

  function Prepend(e: Entry, r: Result<seq<Entry>, LogError>): Result<seq<Entry>, LogError> {
    match r
    case Ok(more) => Ok([e] + more)
    case Err(error) => Err(error)
  }

  lemma OutcomeStep(log: seq<Entry>, k: nat)
    requires AllRecorded(log) && k < |log|
    ensures ReadOutcome(log, k) == if PlainEntry(log[k]) then Prepend(log[k], ReadOutcome(log, k + 1))
            else Err(BadJson(k + 1))
  {
    hide PlainEntry, Recorded;
    assert [log[k]] + log[k + 1..] == log[k..];
  }

  /** A whole line that links to what was read is read, and the reader moves on. */
  lemma ReadWhole(c: Codec, e: Entry, more: string, done: nat, previous: string)
    requires LoadsBack(c) && Recorded(e) && PlainEntry(e) && Links(c, e, done + 1, previous)
    ensures ReadLines(c, SplitLines(Line(e) + "\n" + more), done, previous)
            == Prepend(e, ReadLines(c, SplitLines(more), done + 1, Shown(c, e.eventHash)))
  {
    LineBreaks(e);
    LoadsWhole(c, e);
    LinksSequence(c, e, done + 1, previous);
    hide SplitLines, PlainEntry, Line, Recorded, Links, OneLine, LoadsBack, SequenceIs;
    SplitWhole(Line(e), more);
    var lines := SplitLines(Line(e) + "\n" + more);
    assert lines == [Line(e)] + SplitLines(more);
    assert lines[0] == Line(e) && lines[1..] == SplitLines(more);
  }

  lemma ReadStops(c: Codec, e: Entry, more: string, done: nat, previous: string)
    requires LoadsBack(c) && Recorded(e) && !PlainEntry(e)
    ensures ReadLines(c, SplitLines(Line(e) + "\n" + more), done, previous) == Err(BadJson(done + 1))
  {
    LineBreaks(e);
    hide SplitLines, PlainEntry, Line, Recorded, LoadsBack, OneLine;
    CutLine(c, e, more);
  }

  lemma LinkAt(c: Codec, log: seq<Entry>, k: nat)
    requires Accepted(c, log) && k < |log|
    ensures Links(c, log[k], k + 1, Head(c, log[..k])) && Head(c, log[..k + 1]) == Shown(c, log[k].eventHash)
  {}

  lemma {:induction false} ReadBackFrom(c: Codec, log: seq<Entry>, k: nat)
    requires LoadsBack(c) && AllRecorded(log) && Accepted(c, log) && k <= |log|
    ensures ReadLines(c, SplitLines(Written(Lines(log)[k..])), k, Head(c, log[..k])) == ReadOutcome(log, k)
    decreases |log| - k
  {
    var lines := Lines(log)[k..];
    if k == |log| {
      assert lines == [] && log[k..] == [];
      NothingWritten();
    } else {
      hide SplitLines, Written, PlainEntry, Line, Recorded, Links, Accepted, ReadLines, ReadOutcome, LoadsBack;
      var e, more := log[k], Written(lines[1..]);
      WrittenFront(lines);
      assert lines[0] == Line(e) && lines[1..] == Lines(log)[k + 1..];
      OutcomeStep(log, k);
      if PlainEntry(e) {
        LinkAt(c, log, k);
        ReadWhole(c, e, more, k, Head(c, log[..k]));
        ReadBackFrom(c, log, k + 1);
      } else {
        ReadStops(c, e, more, k, Head(c, log[..k]));
      }
    }
  }

  lemma NothingWritten()
    ensures SplitLines(Written([])) == []
  {}

  lemma LinksSequence(c: Codec, e: Entry, n: nat, previous: string)
    requires Links(c, e, n, previous)
    ensures SequenceIs(e.sequence, n)
  {}

  lemma LoadsWhole(c: Codec, e: Entry)
    requires LoadsBack(c) && Recorded(e)
    ensures c.load(Line(e)) == Object(e)
  {}

  lemma CutLine(c: Codec, e: Entry, more: string)
    requires LoadsBack(c) && Recorded(e) && !OneLine(Line(e))
    ensures var lines := SplitLines(Line(e) + "\n" + more); lines != [] && c.load(lines[0]) == NotJson
  {
    hide Line, Recorded, SplitLines;
    LineBreaks(e);
    var n := LineEnd(Line(e));
    OneLineWhole(Line(e));
    assert Separator(Line(e)[n]);
    SplitCut(Line(e), more);
  }

  lemma OneLineWhole(s: string)
    ensures LineEnd(s) == |s| ==> OneLine(s)
  {
    assert s == s[..|s|];
  }

  /** Main result: a chained log of recorded events is read back whole exactly when every event stays on
      its line; otherwise the reader stops at the first one that does not. */
  lemma ReadBack(c: Codec, log: seq<Entry>)
    requires LoadsBack(c) && AllRecorded(log) && Accepted(c, log)
    ensures Read(c, Written(Lines(log))) == ReadOutcome(log, 0)
    ensures Read(c, Written(Lines(log))) == Ok(log) <==> forall i :: 0 <= i < |log| ==> PlainEntry(log[i])
  {
    hide ReadLines, SplitLines, Written, PlainEntry, Accepted;
    ReadBackFrom(c, log, 0);
    assert Lines(log)[0..] == Lines(log) && log[0..] == log && log[..0] == [];
  }
}
