/** The review store's decisions as a pure state machine: `ReviewStore.record_decision`. */
module Review {
  import opened Wrappers
  import opened LogText
  import opened Ledger

  datatype ItemOrigin = Prepared | Unresolved

  function OriginText(o: ItemOrigin): string {
    match o
    case Prepared => "prepared"
    case Unresolved => "unresolved"
  }

  /** One frozen queue item. */
  datatype Item = Item(
    itemId: string,
    sourceId: string,
    origin: ItemOrigin,
    priority: int,
    audioRelpath: string,
    audioSha256: string,
    transcript: string,
    duration: real,
    scene: string,
    sourceReference: string,
    usageRights: string,
    speaker: string,
    sourceNotes: string,
    automaticReviewNotes: string)

  const ACCEPTED := "accepted"
  const REJECTED := "rejected"
  const DEFERRED := "deferred"
  const PENDING := "pending"

  predicate IsDecision(d: string) {
    d == ACCEPTED || d == REJECTED || d == DEFERRED
  }

  datatype Request = Request(
    requestId: string, itemId: string, decision: string, reviewer: string, transcript: string, notes: string)

  /** The fresh UUID and the clock reading of one call. */
  datatype Stamp = Stamp(eventId: string, now: string)

  datatype Draft = Draft(reviewer: string, transcript: string, notes: string, updatedAt: string)

  datatype StoreError =
    | BadRequestId | BadDecision | UnknownItem | BadReviewer | LongTranscript | LongNotes | EmptyTranscript
    | BadLog(error: LogError)

  // ----- Checks before the lock

  predicate RequestIdChar(c: char) {
    Alphanumeric(c) || c == '.' || c == '_' || c == ':' || c == '-'
  }

  predicate RequestIdValid(s: string) {
    3 <= |s| <= 128 && Alphanumeric(s[0]) && forall i :: 0 <= i < |s| ==> RequestIdChar(s[i])
  }

  /** The queue item of an id; of several, the last. */
  function FindItem(items: seq<Item>, id: string): (r: Option<Item>)
    ensures r.Some? ==> r.value in items && r.value.itemId == id
    ensures r.None? ==> forall i :: 0 <= i < |items| ==> items[i].itemId != id
  {
    if items == [] then None
    else if items[|items| - 1].itemId == id then Some(items[|items| - 1])
    else FindItem(items[..|items| - 1], id)
  }

  function FieldError(items: seq<Item>, itemId: string, reviewer: string, transcript: string,
                      notes: string): Option<StoreError> {
    if FindItem(items, itemId).None? then Some(UnknownItem)
    else if Strip(reviewer) == "" || |Strip(reviewer)| > 120 then Some(BadReviewer)
    else if |transcript| > 10_000 then Some(LongTranscript)
    else if |notes| > 2_000 then Some(LongNotes)
    else None
  }

  function RequestError(items: seq<Item>, q: Request): Option<StoreError> {
    if !RequestIdValid(q.requestId) then Some(BadRequestId)
    else if !IsDecision(q.decision) then Some(BadDecision)
    else
      var e := FieldError(items, q.itemId, q.reviewer, q.transcript, q.notes);
      if e.Some? then e
      else if q.decision == ACCEPTED && Strip(q.transcript) == "" then Some(EmptyTranscript)
      else None
  }

  /** What a caller must send: a well-formed request id, one of the three decisions, a known item, a reviewer of 1
      to 120 characters, bounded texts, and a transcript for whatever is accepted. */
  predicate Admissible(items: seq<Item>, q: Request) {
    && RequestIdValid(q.requestId) && IsDecision(q.decision)
    && (exists i :: 0 <= i < |items| && items[i].itemId == q.itemId)
    && 1 <= |Strip(q.reviewer)| <= 120 && |q.transcript| <= 10_000 && |q.notes| <= 2_000
    && (q.decision == ACCEPTED ==> Strip(q.transcript) != "")
  }

  /** The checks pass exactly the admissible requests. */
  lemma AdmittedExactly(items: seq<Item>, q: Request)
    ensures RequestError(items, q).None? <==> Admissible(items, q)
  {
    hide RequestIdValid, Strip;
    var found := FindItem(items, q.itemId);
    if found.Some? {
      var i :| 0 <= i < |items| && items[i] == found.value;
    }
  }

  lemma KnownItem(items: seq<Item>, q: Request)
    requires RequestError(items, q).None?
    ensures FindItem(items, q.itemId).Some?
  {}

  // ----- Lookups in the log

  /** The first event of a request. */
  function FirstWith(log: seq<Entry>, requestId: string): (r: Option<Entry>)
    ensures r.Some? ==> exists i :: 0 <= i < |log| && log[i] == r.value && r.value.requestId == Some(Text(requestId))
                                   && forall j :: 0 <= j < i ==> log[j].requestId != Some(Text(requestId))
    ensures r.None? ==> forall i :: 0 <= i < |log| ==> log[i].requestId != Some(Text(requestId))
  {
    if log == [] then None
    else if log[0].requestId == Some(Text(requestId)) then Some(log[0])
    else
      var rest := log[1..];
      var r := FirstWith(rest, requestId);
      assert forall i :: 1 <= i < |log| ==> log[i] == rest[i - 1];
      assert forall i :: 0 <= i < |rest| ==> rest[i] == log[i + 1];
      r
  }

  /** The last event of an item. */
  function LatestOf(log: seq<Entry>, id: string): (r: Option<Entry>)
    ensures r.Some? ==> exists i :: 0 <= i < |log| && log[i] == r.value && r.value.itemId == Some(Text(id))
                                   && forall j :: i < j < |log| ==> log[j].itemId != Some(Text(id))
    ensures r.None? ==> forall i :: 0 <= i < |log| ==> log[i].itemId != Some(Text(id))
  {
    if log == [] then None
    else if log[|log| - 1].itemId == Some(Text(id)) then Some(log[|log| - 1])
    else
      var front := log[..|log| - 1];
      assert forall i :: 0 <= i < |front| ==> front[i] == log[i];
      LatestOf(front, id)
  }

  // ----- One decision

  function NewEntry(c: Codec, runId: string, items: seq<Item>, log: seq<Entry>, q: Request, stamp: Stamp): Entry
    requires FindItem(items, q.itemId).Some?
  {
    var item := FindItem(items, q.itemId).value;
    var previous := LatestOf(log, q.itemId);
    var unsigned := Entry(
      Some(Text(item.audioSha256)),
      Some(Text(q.decision)),
      None,
      Some(Text(stamp.eventId)),
      Some(Text(q.itemId)),
      Some(Text(Strip(q.notes))),
      Some(Text(stamp.now)),
      Some(Text(OriginText(item.origin))),
      Some(Text(item.transcript)),
      if log == [] then Some(Text(EMPTY_EVENT_HASH)) else log[|log| - 1].eventHash,
      Some(Text(if previous.Some? then Shown(c, previous.value.transcript) else item.transcript)),
      Some(Text(q.requestId)),
      Some(Text(Strip(q.reviewer))),
      Some(Text(runId)),
      Some(Int(1)),
      Some(Int(|log| + 1)),
      Some(Text(item.sourceId)),
      Some(Text(Strip(q.transcript))),
      map[]);
    unsigned.(eventHash := Some(Text(c.hash(unsigned))))
  }

  datatype State = State(log: seq<Entry>, drafts: map<string, Draft>)

  type Answer = Result<(Entry, bool), StoreError>

  /** `record_decision`: the state it leaves and what it returns; the flag says "already recorded". */
  function Step(c: Codec, runId: string, items: seq<Item>, s: State, q: Request, stamp: Stamp): (State, Answer)
    requires AllRecorded(s.log)
  {
    if RequestError(items, q).Some? then (s, Err(RequestError(items, q).value))
    else
      match ReadOutcome(s.log, 0)
      case Err(error) => (s, Err(BadLog(error)))
      case Ok(log) =>
        match FirstWith(log, q.requestId)
        case Some(e) => (s, Ok((e, true)))
        case None =>
          var e := NewEntry(c, runId, items, log, q, stamp);
          (State(log + [e], s.drafts - {q.itemId}), Ok((e, false)))
  }

  // ----- What every call keeps

  /** The guarantees of the hash, `str` and `json` functions the store calls. */
  ghost predicate Trusted(c: Codec) {
    ShowsText(c) && LoadsBack(c) && forall e :: Plain(c.hash(e))
  }

  /** A queue line that survived `splitlines` holds no separator. */
  predicate PlainItems(items: seq<Item>) {
    forall i :: 0 <= i < |items| ==>
      Plain(items[i].itemId) && Plain(items[i].sourceId) && Plain(items[i].audioSha256) && Plain(items[i].transcript)
  }

  predicate PlainStamp(stamp: Stamp) {
    Plain(stamp.eventId) && Plain(stamp.now)
  }

  /** An event the store may have recorded for this queue. */
  predicate Kept(items: seq<Item>, e: Entry) {
    && Recorded(e)
    && FindItem(items, e.itemId.value.s).Some?
    && IsDecision(e.decision.value.s)
    && RequestIdValid(e.requestId.value.s)
    && Strip(e.reviewer.value.s) != "" && |e.reviewer.value.s| <= 120
    && |e.transcript.value.s| <= 10_000 && |e.notes.value.s| <= 2_000
    && (e.decision.value.s == ACCEPTED ==> Strip(e.transcript.value.s) != "")
  }

  predicate AllKept(items: seq<Item>, log: seq<Entry>) {
    forall i :: 0 <= i < |log| ==> Kept(items, log[i])
  }

  predicate OncePerRequest(log: seq<Entry>) {
    forall i, j :: 0 <= i < j < |log| ==> log[i].requestId != log[j].requestId
  }

  predicate Readable(log: seq<Entry>)
    requires AllRecorded(log)
  {
    forall i :: 0 <= i < |log| ==> PlainEntry(log[i])
  }

  lemma KeptRecorded(items: seq<Item>, log: seq<Entry>)
    requires AllKept(items, log)
    ensures AllRecorded(log)
  {}

  /** Main invariant: the log is chained, holds each request once, and only its last event may be cut. */
  predicate Sound(c: Codec, items: seq<Item>, log: seq<Entry>) {
    && AllKept(items, log) && Accepted(c, log) && OncePerRequest(log)
    && AllRecorded(log) && (log != [] ==> Readable(log[..|log| - 1]))
  }

  lemma ReadsWhole(log: seq<Entry>)
    requires AllRecorded(log)
    ensures Readable(log) <==> ReadOutcome(log, 0).Ok?
    ensures Readable(log) ==> ReadOutcome(log, 0) == Ok(log)
  {
    hide PlainEntry, Recorded;
    assert log[0..] == log;
  }

  lemma NewEntryLinks(c: Codec, runId: string, items: seq<Item>, log: seq<Entry>, q: Request, stamp: Stamp)
    requires ShowsText(c) && AllRecorded(log) && FindItem(items, q.itemId).Some?
    ensures var e := NewEntry(c, runId, items, log, q, stamp);
            Recorded(e) && Links(c, e, |log| + 1, Head(c, log))
  {
    var e := NewEntry(c, runId, items, log, q, stamp);
    assert Unsigned(e).(eventHash := e.eventHash) == e;
    if log != [] { assert HasText(log[|log| - 1].eventHash); }
  }

  lemma NewEntryKept(c: Codec, runId: string, items: seq<Item>, log: seq<Entry>, q: Request, stamp: Stamp)
    requires AllRecorded(log) && RequestError(items, q).None?
    ensures var e := NewEntry(c, runId, items, log, q, stamp);
            Kept(items, e) && e.requestId == Some(Text(q.requestId)) && e.itemId == Some(Text(q.itemId))
  {
    StripTwice(q.reviewer);
    StripTwice(q.transcript);
    StripShortens(q.transcript);
    StripShortens(q.notes);
    hide Strip, RequestIdValid, LatestOf;
    if log != [] { assert HasText(log[|log| - 1].eventHash); }
  }

  /** What decides whether the new event stays on its line: the three stripped texts of the request. */
  predicate PlainRequest(q: Request) {
    Plain(Strip(q.reviewer)) && Plain(Strip(q.transcript)) && Plain(Strip(q.notes))
  }

  lemma RequestIdPlain(s: string)
    requires RequestIdValid(s)
    ensures Plain(s)
  {
    forall i | 0 <= i < |s| ensures !Separator(s[i]) { assert RequestIdChar(s[i]); }
  }

  lemma WordsPlain(d: string, o: ItemOrigin)
    ensures IsDecision(d) ==> Plain(d)
    ensures Plain(OriginText(o)) && Plain(EMPTY_EVENT_HASH)
  {}

  lemma PreviousPlain(c: Codec, log: seq<Entry>, id: string)
    requires ShowsText(c) && AllRecorded(log) && Readable(log) && LatestOf(log, id).Some?
    ensures Plain(Shown(c, LatestOf(log, id).value.transcript))
  {
    var e := LatestOf(log, id).value;
    var i :| 0 <= i < |log| && log[i] == e;
    assert PlainEntry(log[i]);
    PlainEntryIs(e);
  }

  lemma HeadPlain(c: Codec, log: seq<Entry>)
    requires AllRecorded(log) && Readable(log) && log != []
    ensures Plain(log[|log| - 1].eventHash.value.s)
  {
    PlainEntryIs(log[|log| - 1]);
  }

  lemma NewEntryPlain(c: Codec, runId: string, items: seq<Item>, log: seq<Entry>, q: Request, stamp: Stamp)
    requires Trusted(c) && Plain(runId) && PlainItems(items) && PlainStamp(stamp)
    requires AllRecorded(log) && Readable(log) && RequestError(items, q).None?
    requires Recorded(NewEntry(c, runId, items, log, q, stamp))
    ensures PlainEntry(NewEntry(c, runId, items, log, q, stamp)) <==> PlainRequest(q)
  {
    var item := FindItem(items, q.itemId).value;
    RequestIdPlain(q.requestId);
    WordsPlain(q.decision, item.origin);
    if LatestOf(log, q.itemId).Some? { PreviousPlain(c, log, q.itemId); }
    if log != [] { HeadPlain(c, log); }
    hide Plain, Recorded, PlainEntry, LatestOf, Strip, LoadsBack;
    PlainEntryIs(NewEntry(c, runId, items, log, q, stamp));
  }

  lemma KeptExtends(items: seq<Item>, log: seq<Entry>, e: Entry)
    requires AllKept(items, log) && Kept(items, e)
    ensures AllKept(items, log + [e])
  {
    hide Kept;
  }

  lemma OnceExtends(log: seq<Entry>, e: Entry)
    requires OncePerRequest(log) && forall i :: 0 <= i < |log| ==> log[i].requestId != e.requestId
    ensures OncePerRequest(log + [e])
  {}

  lemma ReadableExtends(log: seq<Entry>, e: Entry)
    requires AllRecorded(log) && AllRecorded(log + [e]) && Recorded(e) && Readable(log)
    ensures (log + [e])[..|log + [e]| - 1] == log
    ensures Readable(log + [e]) <==> PlainEntry(e)
  {
    hide PlainEntry, Recorded;
    assert (log + [e])[|log|] == e;
  }

  lemma SoundExtends(c: Codec, items: seq<Item>, log: seq<Entry>, e: Entry)
    requires Sound(c, items, log) && Readable(log) && Kept(items, e) && Links(c, e, |log| + 1, Head(c, log))
    requires forall i :: 0 <= i < |log| ==> log[i].requestId != e.requestId
    ensures Sound(c, items, log + [e]) && (Readable(log + [e]) <==> PlainEntry(e))
  {
    hide Accepted, Links, Kept, Recorded, PlainEntry, AllKept, OncePerRequest, Readable, AllRecorded;
    KeptExtends(items, log, e);
    KeptRecorded(items, log + [e]);
    OnceExtends(log, e);
    AcceptedExtends(c, log, e);
    KeptIsRecorded(items, e);
    ReadableExtends(log, e);
  }

  lemma KeptIsRecorded(items: seq<Item>, e: Entry)
    requires Kept(items, e)
    ensures Recorded(e)
  {}

  /** A recorded call: what it appends and when the log stays readable. */
  lemma AppendKeepsSound(c: Codec, runId: string, items: seq<Item>, log: seq<Entry>, q: Request, stamp: Stamp)
    requires Trusted(c) && Plain(runId) && PlainItems(items) && PlainStamp(stamp)
    requires Sound(c, items, log) && Readable(log) && RequestError(items, q).None? && FirstWith(log, q.requestId).None?
    ensures var e := NewEntry(c, runId, items, log, q, stamp);
            Sound(c, items, log + [e]) && (Readable(log + [e]) <==> PlainRequest(q))
  {
    var e := NewEntry(c, runId, items, log, q, stamp);
    NewEntryLinks(c, runId, items, log, q, stamp);
    NewEntryKept(c, runId, items, log, q, stamp);
    NewEntryPlain(c, runId, items, log, q, stamp);
    hide NewEntry, Accepted, Links, Kept, Recorded, PlainEntry, PlainRequest, RequestError, Trusted, LatestOf, Sound,
         Readable;
    SoundExtends(c, items, log, e);
  }

  /** Every call keeps the invariant and only ever extends the log. */
  lemma StepKeepsSound(c: Codec, runId: string, items: seq<Item>, s: State, q: Request, stamp: Stamp)
    requires Trusted(c) && Plain(runId) && PlainItems(items) && PlainStamp(stamp) && Sound(c, items, s.log)
    ensures var next := Step(c, runId, items, s, q, stamp).0;
            Sound(c, items, next.log) && s.log <= next.log
  {
    hide Sound, PlainItems, PlainStamp, Trusted, Readable, RequestError, NewEntry, FirstWith, ReadOutcome;
    SoundRecorded(c, items, s.log);
    ReadsWhole(s.log);
    if RequestError(items, q).None? && Readable(s.log) && FirstWith(s.log, q.requestId).None? {
      AppendKeepsSound(c, runId, items, s.log, q, stamp);
    }
  }

  lemma SoundRecorded(c: Codec, items: seq<Item>, log: seq<Entry>)
    requires Sound(c, items, log)
    ensures AllKept(items, log) && AllRecorded(log) && Accepted(c, log) && OncePerRequest(log)
  {}

  /** The call wrote a new event. */
  predicate Fresh(a: Answer) {
    a.Ok? && !a.value.1
  }

  /** Main result: from a log that can be read, the log after the call can be read exactly when the call wrote
      nothing or wrote texts free of NEL, LS and PS. */
  lemma ReadableExactly(c: Codec, runId: string, items: seq<Item>, s: State, q: Request, stamp: Stamp)
    requires Trusted(c) && Plain(runId) && PlainItems(items) && PlainStamp(stamp)
    requires Sound(c, items, s.log) && AllRecorded(s.log) && Readable(s.log)
    requires AllRecorded(Step(c, runId, items, s, q, stamp).0.log)
    ensures var (next, answer) := Step(c, runId, items, s, q, stamp);
            Readable(next.log) <==> (Fresh(answer) ==> PlainRequest(q))
  {
    hide Sound, PlainItems, PlainStamp, Trusted, Readable, RequestError, NewEntry, FirstWith, ReadOutcome, PlainRequest;
    ReadsWhole(s.log);
    if RequestError(items, q).None? && FirstWith(s.log, q.requestId).None? {
      AppendKeepsSound(c, runId, items, s.log, q, stamp);
    }
  }

  /** Once a line has been cut, every later call fails and changes nothing. */
  lemma CutLogIsStuck(c: Codec, runId: string, items: seq<Item>, s: State, q: Request, stamp: Stamp)
    requires AllRecorded(s.log) && !Readable(s.log)
    ensures Step(c, runId, items, s, q, stamp).0 == s && Step(c, runId, items, s, q, stamp).1.Err?
  {
    hide Readable, RequestError, ReadOutcome;
    ReadsWhole(s.log);
  }

  // ----- Runs of calls

  datatype Call = Call(q: Request, stamp: Stamp)

  predicate PlainStamps(calls: seq<Call>) {
    forall i :: 0 <= i < |calls| ==> PlainStamp(calls[i].stamp)
  }

  /** One call on a log that is kept sound; the store of any other log is not modelled. */
  ghost function RunAll(c: Codec, runId: string, items: seq<Item>, s: State, calls: seq<Call>): (r: State)
    requires Trusted(c) && Plain(runId) && PlainItems(items) && PlainStamps(calls) && Sound(c, items, s.log)
    ensures Sound(c, items, r.log) && s.log <= r.log
  {
    if calls == [] then s else
      var n := |calls| - 1;
      var before := RunAll(c, runId, items, s, calls[..n]);
      StepKeepsSound(c, runId, items, before, calls[n].q, calls[n].stamp);
      Step(c, runId, items, before, calls[n].q, calls[n].stamp).0
  }

  /** What call `i` of a run returns. */
  ghost function AnswerAt(c: Codec, runId: string, items: seq<Item>, s: State, calls: seq<Call>, i: nat): Answer
    requires Trusted(c) && Plain(runId) && PlainItems(items) && PlainStamps(calls) && Sound(c, items, s.log)
    requires i < |calls|
  {
    Step(c, runId, items, RunAll(c, runId, items, s, calls[..i]), calls[i].q, calls[i].stamp).1
  }

  /** No call so far wrote a text with a separator. */
  ghost predicate WrotePlain(c: Codec, runId: string, items: seq<Item>, s: State, calls: seq<Call>)
    requires Trusted(c) && Plain(runId) && PlainItems(items) && PlainStamps(calls) && Sound(c, items, s.log)
  {
    forall i :: 0 <= i < |calls| ==> (Fresh(AnswerAt(c, runId, items, s, calls, i)) ==> PlainRequest(calls[i].q))
  }

  lemma WrotePlainStep(c: Codec, runId: string, items: seq<Item>, s: State, calls: seq<Call>)
    requires Trusted(c) && Plain(runId) && PlainItems(items) && PlainStamps(calls) && Sound(c, items, s.log)
    requires calls != []
    ensures var n := |calls| - 1;
            WrotePlain(c, runId, items, s, calls) <==>
            WrotePlain(c, runId, items, s, calls[..n])
            && (Fresh(AnswerAt(c, runId, items, s, calls, n)) ==> PlainRequest(calls[n].q))
  {
    hide Sound, Trusted, PlainItems, Fresh, PlainRequest, Step, RunAll;
    var n := |calls| - 1;
    var front := calls[..n];
    forall i | 0 <= i < n
      ensures AnswerAt(c, runId, items, s, front, i) == AnswerAt(c, runId, items, s, calls, i) && front[i] == calls[i]
    {
      assert front[..i] == calls[..i];
    }
  }

  /** Main result, over every run of calls: the log that results is accepted in full exactly when no call
      wrote a text with a separator. */
  lemma {:induction false} RunReadableExactly(c: Codec, runId: string, items: seq<Item>, s: State, calls: seq<Call>)
    requires Trusted(c) && Plain(runId) && PlainItems(items) && PlainStamps(calls) && Sound(c, items, s.log)
    requires Readable(s.log)
    ensures Readable(RunAll(c, runId, items, s, calls).log) <==> WrotePlain(c, runId, items, s, calls)
  {
    hide Sound, Trusted, PlainItems, Readable, Fresh, PlainRequest, WrotePlain, Step;
    if calls == [] {
      NothingWrote(c, runId, items, s);
    } else {
      var n := |calls| - 1;
      var before := RunAll(c, runId, items, s, calls[..n]);
      RunReadableExactly(c, runId, items, s, calls[..n]);
      WrotePlainStep(c, runId, items, s, calls);
      SoundRecorded(c, items, before.log);
      StepKeepsSound(c, runId, items, before, calls[n].q, calls[n].stamp);
      SoundRecorded(c, items, Step(c, runId, items, before, calls[n].q, calls[n].stamp).0.log);
      if Readable(before.log) {
        ReadableExactly(c, runId, items, before, calls[n].q, calls[n].stamp);
      } else {
        CutLogIsStuck(c, runId, items, before, calls[n].q, calls[n].stamp);
      }
    }
  }

  lemma NothingWrote(c: Codec, runId: string, items: seq<Item>, s: State)
    requires Trusted(c) && Plain(runId) && PlainItems(items) && Sound(c, items, s.log)
    ensures WrotePlain(c, runId, items, s, [])
  {}

  // ----- Where an event's transcripts come from

  /** An event repeats what the queue says of its item, and its `previous_transcript` is the transcript of the
      item's event before it, or the queue's. */
  predicate TracesItem(c: Codec, items: seq<Item>, log: seq<Entry>, k: nat)
    requires k < |log|
  {
    var e := log[k];
    && HasText(e.itemId) && FindItem(items, e.itemId.value.s).Some?
    && var item := FindItem(items, e.itemId.value.s).value;
       var previous := LatestOf(log[..k], item.itemId);
       && e.sourceId == Some(Text(item.sourceId)) && e.origin == Some(Text(OriginText(item.origin)))
       && e.audioSha256 == Some(Text(item.audioSha256)) && e.originalTranscript == Some(Text(item.transcript))
       && e.previousTranscript ==
          Some(Text(if previous.None? then item.transcript else Shown(c, previous.value.transcript)))
  }

  ghost predicate Traced(c: Codec, items: seq<Item>, log: seq<Entry>) {
    forall k :: 0 <= k < |log| ==> TracesItem(c, items, log, k)
  }

  lemma StepKeepsTraced(c: Codec, runId: string, items: seq<Item>, s: State, q: Request, stamp: Stamp)
    requires AllRecorded(s.log) && Traced(c, items, s.log)
    ensures Traced(c, items, Step(c, runId, items, s, q, stamp).0.log)
  {
    hide RequestIdValid, Strip, FieldError, FirstWith, LatestOf, FindItem, Recorded;
    ReadsWhole(s.log);
    var next := Step(c, runId, items, s, q, stamp).0.log;
    if next != s.log {
      KnownItem(items, q);
      assert next == s.log + [next[|s.log|]];
      assert next[..|s.log|] == s.log;
      forall k | 0 <= k < |next| ensures TracesItem(c, items, next, k) {
        if k < |s.log| {
          assert TracesItem(c, items, s.log, k);
          assert next[..k] == s.log[..k] && next[k] == s.log[k];
        } else {
          FoundItemId(items, q.itemId);
        }
      }
    }
  }

  lemma FoundItemId(items: seq<Item>, id: string)
    ensures FindItem(items, id).Some? ==> FindItem(items, id).value.itemId == id
  {}

  /** Over every run of calls, every event's transcripts trace back through the events of its item to the queue. */
  lemma {:induction false} RunKeepsTraced(c: Codec, runId: string, items: seq<Item>, s: State, calls: seq<Call>)
    requires Trusted(c) && Plain(runId) && PlainItems(items) && PlainStamps(calls) && Sound(c, items, s.log)
    requires Traced(c, items, s.log)
    ensures Traced(c, items, RunAll(c, runId, items, s, calls).log)
  {
    hide Sound, Trusted, PlainItems, Traced, Step;
    if calls != [] {
      var n := |calls| - 1;
      RunKeepsTraced(c, runId, items, s, calls[..n]);
      var before := RunAll(c, runId, items, s, calls[..n]);
      SoundRecorded(c, items, before.log);
      StepKeepsTraced(c, runId, items, before, calls[n].q, calls[n].stamp);
    }
  }

  // ----- What a call does

  /** The event says what the request said, its free texts stripped. */
  predicate Carries(e: Entry, q: Request) {
    && e.requestId == Some(Text(q.requestId)) && e.itemId == Some(Text(q.itemId))
    && e.decision == Some(Text(q.decision)) && e.reviewer == Some(Text(Strip(q.reviewer)))
    && e.transcript == Some(Text(Strip(q.transcript))) && e.notes == Some(Text(Strip(q.notes)))
  }

  /** The event names its run, its own id and its time, and has no key beyond the known ones. */
  predicate Marked(e: Entry, runId: string, stamp: Stamp) {
    && e.runId == Some(Text(runId)) && e.eventId == Some(Text(stamp.eventId)) && e.occurredAt == Some(Text(stamp.now))
    && e.schemaVersion == Some(Int(1)) && e.rest == map[]
  }

  /** The event of the request is in the log already. */
  predicate Asked(log: seq<Entry>, q: Request) {
    exists i :: 0 <= i < |log| && log[i].requestId == Some(Text(q.requestId))
  }

  /** What one call promises. It answers exactly an admissible request on a readable log. A request that was asked
      before is answered with an event of it and changes nothing, any other one appends an event that carries it, is
      linked to the log and traces its item, and drops the item's draft; a failing call changes nothing. */
  ghost predicate RightCall(c: Codec, runId: string, items: seq<Item>, s: State, q: Request, stamp: Stamp, next: State,
                            answer: Answer)
    requires AllRecorded(s.log)
  {
    && (answer.Ok? <==> Admissible(items, q) && Readable(s.log))
    && (answer.Err? ==> next == s && (answer.error.BadLog? <==> Admissible(items, q)))
    && (answer.Ok? ==>
          var (e, duplicate) := answer.value;
          && (duplicate <==> Asked(s.log, q))
          && (duplicate ==> next == s && e in s.log && e.requestId == Some(Text(q.requestId)))
          && (!duplicate ==>
                && next == State(s.log + [e], s.drafts - {q.itemId})
                && Carries(e, q) && Marked(e, runId, stamp)
                && Links(c, e, |s.log| + 1, Head(c, s.log)) && TracesItem(c, items, next.log, |s.log|)))
  }

  lemma NewEntryCarries(c: Codec, runId: string, items: seq<Item>, log: seq<Entry>, q: Request, stamp: Stamp)
    requires FindItem(items, q.itemId).Some?
    ensures var e := NewEntry(c, runId, items, log, q, stamp);
            Carries(e, q) && Marked(e, runId, stamp)
  {}

  /** Main result: every call does what it promises. */
  lemma StepIsRight(c: Codec, runId: string, items: seq<Item>, s: State, q: Request, stamp: Stamp)
    requires AllRecorded(s.log) && Traced(c, items, s.log) && ShowsText(c)
    ensures var (next, answer) := Step(c, runId, items, s, q, stamp);
            RightCall(c, runId, items, s, q, stamp, next, answer)
  {
    AdmittedExactly(items, q);
    ReadsWhole(s.log);
    ErrorKind(items, q);
    StepKeepsTraced(c, runId, items, s, q, stamp);
    hide Admissible, RequestError, TracesItem, Readable, ReadOutcome, Links, Carries, Marked;
    if RequestError(items, q).None? && Readable(s.log) && FirstWith(s.log, q.requestId).None? {
      KnownItem(items, q);
      NewEntryLinks(c, runId, items, s.log, q, stamp);
      NewEntryCarries(c, runId, items, s.log, q, stamp);
      hide NewEntry;
    }
  }

  lemma ErrorKind(items: seq<Item>, q: Request)
    ensures RequestError(items, q).Some? ==> !RequestError(items, q).value.BadLog?
  {}

  /** Call `k` is the last fresh one on the item. */
  ghost predicate LastFresh(c: Codec, runId: string, items: seq<Item>, s: State, calls: seq<Call>, id: string, k: nat)
    requires Trusted(c) && Plain(runId) && PlainItems(items) && PlainStamps(calls) && Sound(c, items, s.log)
    requires k < |calls|
  {
    && FreshOn(c, runId, items, s, calls, id, k)
    && forall j :: k < j < |calls| ==> !FreshOn(c, runId, items, s, calls, id, j)
  }

  ghost predicate FreshOn(c: Codec, runId: string, items: seq<Item>, s: State, calls: seq<Call>, id: string, k: nat)
    requires Trusted(c) && Plain(runId) && PlainItems(items) && PlainStamps(calls) && Sound(c, items, s.log)
    requires k < |calls|
  {
    Fresh(AnswerAt(c, runId, items, s, calls, k)) && calls[k].q.itemId == id
  }

  /** What the log says last on an item. */
  predicate Decides(log: seq<Entry>, id: string, q: Request) {
    LatestOf(log, id).Some? && Carries(LatestOf(log, id).value, q)
  }

  lemma LatestAppended(log: seq<Entry>, e: Entry, id: string)
    ensures LatestOf(log + [e], id) == if e.itemId == Some(Text(id)) then Some(e) else LatestOf(log, id)
  {
    assert (log + [e])[..|log|] == log;
  }

  lemma StepDecides(c: Codec, runId: string, items: seq<Item>, s: State, q: Request, stamp: Stamp, id: string)
    requires AllRecorded(s.log)
    ensures var (next, answer) := Step(c, runId, items, s, q, stamp);
            if Fresh(answer) && q.itemId == id then Decides(next.log, id, q)
            else LatestOf(next.log, id) == LatestOf(s.log, id)
  {
    hide RequestError, ReadOutcome, LatestOf, FirstWith;
    ReadsWhole(s.log);
    KnownItemIf(items, q);
    if RequestError(items, q).None? {
      var e := NewEntry(c, runId, items, s.log, q, stamp);
      NewEntryCarries(c, runId, items, s.log, q, stamp);
      LatestAppended(s.log, e, id);
    }
  }

  lemma KnownItemIf(items: seq<Item>, q: Request)
    ensures RequestError(items, q).None? ==> FindItem(items, q.itemId).Some?
  {}

  /** No call of the run is a fresh one on the item. */
  ghost predicate NoneFresh(c: Codec, runId: string, items: seq<Item>, s: State, calls: seq<Call>, id: string)
    requires Trusted(c) && Plain(runId) && PlainItems(items) && PlainStamps(calls) && Sound(c, items, s.log)
  {
    forall k :: 0 <= k < |calls| ==> !FreshOn(c, runId, items, s, calls, id, k)
  }

  lemma FreshFront(c: Codec, runId: string, items: seq<Item>, s: State, calls: seq<Call>, id: string)
    requires Trusted(c) && Plain(runId) && PlainItems(items) && PlainStamps(calls) && Sound(c, items, s.log)
    requires calls != []
    ensures var n := |calls| - 1;
            var front := calls[..n];
            && (NoneFresh(c, runId, items, s, calls, id) <==>
                NoneFresh(c, runId, items, s, front, id) && !FreshOn(c, runId, items, s, calls, id, n))
            && forall k: nat :: k < n ==>
                 (LastFresh(c, runId, items, s, calls, id, k) <==>
                  LastFresh(c, runId, items, s, front, id, k) && !FreshOn(c, runId, items, s, calls, id, n))
  {
    hide Sound, Trusted, PlainItems, Step, RunAll, Fresh;
    var n := |calls| - 1;
    var front := calls[..n];
    forall k: nat | k < n
      ensures FreshOn(c, runId, items, s, front, id, k) <==> FreshOn(c, runId, items, s, calls, id, k)
    {
      assert front[..k] == calls[..k] && front[k] == calls[k];
    }
    hide FreshOn;
  }

  /** Main result, over every run of calls: what the log says last on an item is what the last freshly recorded
      request on it said, or what it said before the run when there was none. */
  lemma {:induction false} RunDecides(c: Codec, runId: string, items: seq<Item>, s: State, calls: seq<Call>, id: string)
    requires Trusted(c) && Plain(runId) && PlainItems(items) && PlainStamps(calls) && Sound(c, items, s.log)
    ensures forall k: nat :: k < |calls| && LastFresh(c, runId, items, s, calls, id, k) ==>
              Decides(RunAll(c, runId, items, s, calls).log, id, calls[k].q)
    ensures NoneFresh(c, runId, items, s, calls, id) ==>
              LatestOf(RunAll(c, runId, items, s, calls).log, id) == LatestOf(s.log, id)
  {
    hide Sound, Trusted, PlainItems, Step, LatestOf, Carries, RunAll, Fresh, AnswerAt, LastFresh, NoneFresh;
    if calls == [] {
      NothingRun(c, runId, items, s);
    } else {
      var n := |calls| - 1;
      var front := calls[..n];
      var before := RunAll(c, runId, items, s, front);
      RunDecides(c, runId, items, s, front, id);
      SoundRecorded(c, items, before.log);
      StepDecides(c, runId, items, before, calls[n].q, calls[n].stamp, id);
      RunStep(c, runId, items, s, calls);
      FreshFront(c, runId, items, s, calls, id);
      LastIsFresh(c, runId, items, s, calls, id);
      assert forall k: nat :: k < n ==> front[k] == calls[k];
    }
  }

  lemma LastIsFresh(c: Codec, runId: string, items: seq<Item>, s: State, calls: seq<Call>, id: string)
    requires Trusted(c) && Plain(runId) && PlainItems(items) && PlainStamps(calls) && Sound(c, items, s.log)
    requires calls != []
    ensures LastFresh(c, runId, items, s, calls, id, |calls| - 1) <==>
            FreshOn(c, runId, items, s, calls, id, |calls| - 1)
  {
    hide FreshOn;
  }

  lemma NothingRun(c: Codec, runId: string, items: seq<Item>, s: State)
    requires Trusted(c) && Plain(runId) && PlainItems(items) && Sound(c, items, s.log)
    ensures RunAll(c, runId, items, s, []) == s
  {}

  lemma RunStep(c: Codec, runId: string, items: seq<Item>, s: State, calls: seq<Call>)
    requires Trusted(c) && Plain(runId) && PlainItems(items) && PlainStamps(calls) && Sound(c, items, s.log)
    requires calls != []
    ensures var n := |calls| - 1;
            var before := RunAll(c, runId, items, s, calls[..n]);
            && AllRecorded(before.log)
            && RunAll(c, runId, items, s, calls) == Step(c, runId, items, before, calls[n].q, calls[n].stamp).0
            && AnswerAt(c, runId, items, s, calls, n) == Step(c, runId, items, before, calls[n].q, calls[n].stamp).1
  {
    hide Step, Trusted, PlainItems;
  }

  // ----- Replayed requests

  lemma FirstWithFound(log: seq<Entry>, k: nat)
    requires OncePerRequest(log) && k < |log| && HasText(log[k].requestId)
    ensures FirstWith(log, log[k].requestId.value.s) == Some(log[k])
  {
    var id := log[k].requestId.value.s;
    var found := FirstWith(log, id);
    if found.Some? {
      var j :| 0 <= j < |log| && log[j] == found.value && found.value.requestId == Some(Text(id));
      assert j == k;
    }
  }

  /** An answered request is in the log it leaves. */
  lemma AnsweredIsLogged(c: Codec, runId: string, items: seq<Item>, s: State, q: Request, stamp: Stamp)
    requires AllRecorded(s.log)
    ensures var (next, answer) := Step(c, runId, items, s, q, stamp);
            answer.Ok? ==>
              exists k ::
                && 0 <= k < |next.log| && next.log[k] == answer.value.0
                && next.log[k].requestId == Some(Text(q.requestId))
  {
    hide RequestError;
    ReadsWhole(s.log);
    var (next, answer) := Step(c, runId, items, s, q, stamp);
    if answer.Ok? && !answer.value.1 {
      NewEntryKept(c, runId, items, s.log, q, stamp);
      assert next.log[|s.log|] == answer.value.0;
    }
  }

  /** The log after a run starts with the log after its first call. */
  lemma {:induction false} RunStarts(c: Codec, runId: string, items: seq<Item>, s: State, calls: seq<Call>)
    requires Trusted(c) && Plain(runId) && PlainItems(items) && PlainStamps(calls) && Sound(c, items, s.log)
    requires calls != []
    ensures Step(c, runId, items, s, calls[0].q, calls[0].stamp).0.log <= RunAll(c, runId, items, s, calls).log
  {
    hide Sound, Trusted, PlainItems, Step, PlainStamp;
    var n := |calls| - 1;
    var front := calls[..n];
    if n == 0 {
      assert front == [];
    } else {
      RunStarts(c, runId, items, s, front);
      StepKeepsSound(c, runId, items, RunAll(c, runId, items, s, front), calls[n].q, calls[n].stamp);
    }
  }

  /** Main result: once a request is answered, repeating its id after any further calls returns the same event
      and changes nothing, whatever the repeated call asks for, as long as it is well formed and the log can
      still be read. */
  lemma ReplayReturnsSameEvent(c: Codec, runId: string, items: seq<Item>, s: State, calls: seq<Call>, again: Call)
    requires Trusted(c) && Plain(runId) && PlainItems(items) && PlainStamps(calls) && Sound(c, items, s.log)
    requires calls != [] && Step(c, runId, items, s, calls[0].q, calls[0].stamp).1.Ok?
    requires again.q.requestId == calls[0].q.requestId && RequestError(items, again.q).None?
    requires Readable(RunAll(c, runId, items, s, calls).log)
    ensures var answer := Step(c, runId, items, s, calls[0].q, calls[0].stamp).1;
            var end := RunAll(c, runId, items, s, calls);
            Step(c, runId, items, end, again.q, again.stamp) == (end, Ok((answer.value.0, true)))
  {
    hide Trusted, PlainItems, RequestError, NewEntry, Readable, PlainStamps, ReadOutcome, RunAll;
    SoundRecorded(c, items, s.log);
    AnsweredIsLogged(c, runId, items, s, calls[0].q, calls[0].stamp);
    RunStarts(c, runId, items, s, calls);
    var (next, answer) := Step(c, runId, items, s, calls[0].q, calls[0].stamp);
    var end := RunAll(c, runId, items, s, calls);
    var k :| 0 <= k < |next.log| && next.log[k] == answer.value.0
        && next.log[k].requestId == Some(Text(calls[0].q.requestId));
    assert end.log[k] == next.log[k];
    SoundRecorded(c, items, end.log);
    FirstWithFound(end.log, k);
    ReadsWhole(end.log);
  }

  // ----- The transcript that breaks the log

  const BREAKING_TRANSCRIPT := "a\U{2028}b"

  /** A concrete decision that is answered with success and leaves a log no later call can read. */
  lemma BreakingDecision(c: Codec, runId: string, item: Item, stamp: Stamp)
    requires Trusted(c) && Plain(runId) && PlainItems([item]) && PlainStamp(stamp) && item.itemId == "clip-1"
    ensures var q := Request("req-1", "clip-1", ACCEPTED, "anna", BREAKING_TRANSCRIPT, "");
            var (next, answer) := Step(c, runId, [item], State([], map[]), q, stamp);
            Fresh(answer) && AllRecorded(next.log) && Read(c, Written(Lines(next.log))) == Err(BadJson(1))
  {
    var q := Request("req-1", "clip-1", ACCEPTED, "anna", BREAKING_TRANSCRIPT, "");
    var s := State([], map[]);
    BreakingRequestPasses(item);
    assert FirstWith([], q.requestId).None?;
    StepKeepsSound(c, runId, [item], s, q, stamp);
    ReadableExactly(c, runId, [item], s, q, stamp);
    var next := Step(c, runId, [item], s, q, stamp).0;
    ReadBack(c, next.log);
    ReadsWhole(next.log);
  }

  lemma BreakingRequestPasses(item: Item)
    requires item.itemId == "clip-1"
    ensures var q := Request("req-1", "clip-1", ACCEPTED, "anna", BREAKING_TRANSCRIPT, "");
            RequestError([item], q).None? && !PlainRequest(q)
  {
    var q := Request("req-1", "clip-1", ACCEPTED, "anna", BREAKING_TRANSCRIPT, "");
    assert FindItem([item], "clip-1") == Some(item);
    assert Strip("anna") == "anna";
    assert Strip(BREAKING_TRANSCRIPT) == BREAKING_TRANSCRIPT;
    assert Separator(BREAKING_TRANSCRIPT[1]);
  }
}
