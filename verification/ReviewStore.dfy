/** The store itself: the log file, the drafts and the status computed as a fold over the queue. */
module ReviewStores {
  import opened Wrappers
  import opened Sorting
  import opened LogText
  import opened Ledger
  import opened Review

  // ----- Status

  datatype Counts = Counts(accepted: nat, rejected: nat, deferred: nat, pending: nat)

  /** One more item with this decision. */
  function Bump(n: Counts, word: string): Counts {
    if word == ACCEPTED then n.(accepted := n.accepted + 1)
    else if word == REJECTED then n.(rejected := n.rejected + 1)
    else if word == DEFERRED then n.(deferred := n.deferred + 1)
    else n.(pending := n.pending + 1)
  }

  function CountsTotal(n: Counts): nat {
    n.accepted + n.rejected + n.deferred + n.pending
  }

  const MINIMUM_ACCEPTED_DURATION: real := 1800.0

  datatype Status = Status(
    total: nat, counts: Counts, acceptedDuration: real, transcriptChanges: nat, eventCount: nat, head: string,
        ready: bool)

  /** The latest decision on an item, or `pending`. */
  function DecisionOn(log: seq<Entry>, id: string): string
    requires AllRecorded(log)
  {
    var latest := LatestOf(log, id);
    if latest.None? then PENDING else latest.value.decision.value.s
  }

  /** The items whose latest decision is `word`. */
  function Having(items: seq<Item>, log: seq<Entry>, word: string): nat
    requires AllRecorded(log)
  {
    if items == [] then 0 else
      Having(items[..|items| - 1], log, word) + if DecisionOn(log, items[|items| - 1].itemId) == word then 1 else 0
  }

  function AcceptedDuration(items: seq<Item>, log: seq<Entry>): real
    requires AllRecorded(log)
  {
    if items == [] then 0.0 else
      AcceptedDuration(items[..|items| - 1], log)
      + if DecisionOn(log, items[|items| - 1].itemId) == ACCEPTED then items[|items| - 1].duration else 0.0
  }

  function TranscriptChanges(items: seq<Item>, log: seq<Entry>): nat
    requires AllRecorded(log)
  {
    if items == [] then 0 else
      var item := items[|items| - 1];
      var latest := LatestOf(log, item.itemId);
      TranscriptChanges(items[..|items| - 1], log)
      + if latest.Some? && latest.value.transcript.value.s != item.transcript then 1 else 0
  }

  /** Nothing is pending, nothing is deferred, and enough was accepted. */
  predicate Ready(items: seq<Item>, log: seq<Entry>)
    requires AllRecorded(log)
  {
    Having(items, log, PENDING) == 0 && Having(items, log, DEFERRED) == 0
    && AcceptedDuration(items, log) >= MINIMUM_ACCEPTED_DURATION
  }

  function CountsOf(items: seq<Item>, log: seq<Entry>): Counts
    requires AllRecorded(log)
  {
    Counts(Having(items, log, ACCEPTED), Having(items, log, REJECTED), Having(items, log, DEFERRED),
           Having(items, log, PENDING))
  }

  function StatusOf(c: Codec, items: seq<Item>, log: seq<Entry>): Status
    requires AllRecorded(log)
  {
    Status(|items|, CountsOf(items, log), AcceptedDuration(items, log), TranscriptChanges(items, log),
           |log|, Head(c, log), Ready(items, log))
  }

  lemma WordsDiffer()
    ensures ACCEPTED != REJECTED && ACCEPTED != DEFERRED && ACCEPTED != PENDING
    ensures REJECTED != DEFERRED && REJECTED != PENDING && DEFERRED != PENDING
  {
    assert ACCEPTED[0] == 'a' && REJECTED[0] == 'r' && DEFERRED[0] == 'd' && PENDING[0] == 'p';
  }

  lemma DecisionIsWord(items: seq<Item>, log: seq<Entry>, id: string)
    requires AllKept(items, log) && AllRecorded(log)
    ensures DecisionOn(log, id) == PENDING <==> LatestOf(log, id).None?
    ensures DecisionOn(log, id) == PENDING || IsDecision(DecisionOn(log, id))
  {
    WordsDiffer();
    if LatestOf(log, id).Some? {
      var i :| 0 <= i < |log| && log[i] == LatestOf(log, id).value;
      assert Kept(items, log[i]);
    }
  }

  /** The decision counts sum to the queue size. */
  lemma {:induction false} CountsSumToQueue(all: seq<Item>, items: seq<Item>, log: seq<Entry>)
    requires AllKept(all, log) && AllRecorded(log)
    ensures CountsTotal(CountsOf(items, log)) == |items|
  {
    hide AllKept, DecisionOn;
    if items != [] {
      CountsSumToQueue(all, items[..|items| - 1], log);
      DecisionIsWord(all, log, items[|items| - 1].itemId);
      WordsDiffer();
    }
  }

  lemma {:induction false} HavingNone(items: seq<Item>, log: seq<Entry>, word: string)
    requires AllRecorded(log)
    ensures Having(items, log, word) == 0 <==> forall i :: 0 <= i < |items| ==> DecisionOn(log, items[i].itemId) != word
  {
    hide DecisionOn;
    if items != [] {
      var front := items[..|items| - 1];
      HavingNone(front, log, word);
      assert forall i :: 0 <= i < |front| ==> front[i] == items[i];
    }
  }

  /** Main result: the gate opens exactly when every queued item's latest decision is accepted or rejected and
      at least thirty minutes are accepted. */
  lemma ReadyExactly(all: seq<Item>, items: seq<Item>, log: seq<Entry>)
    requires AllKept(all, log) && AllRecorded(log)
    ensures Ready(items, log) <==>
            (forall i :: 0 <= i < |items| ==>
               LatestOf(log, items[i].itemId).Some?
               && (DecisionOn(log, items[i].itemId) == ACCEPTED || DecisionOn(log, items[i].itemId) == REJECTED))
            && AcceptedDuration(items, log) >= MINIMUM_ACCEPTED_DURATION
  {
    hide AllKept, DecisionOn;
    WordsDiffer();
    HavingNone(items, log, PENDING);
    HavingNone(items, log, DEFERRED);
    forall i | 0 <= i < |items|
      ensures DecisionOn(log, items[i].itemId) != PENDING && DecisionOn(log, items[i].itemId) != DEFERRED <==>
              LatestOf(log, items[i].itemId).Some?
              && (DecisionOn(log, items[i].itemId) == ACCEPTED || DecisionOn(log, items[i].itemId) == REJECTED)
    {
      DecisionIsWord(all, log, items[i].itemId);
    }
  }

  /** The items whose latest event, if any, meets `p`. */
  ghost function Where(log: seq<Entry>, items: seq<Item>, p: (Item, Option<Entry>) -> bool): seq<Item> {
    Filter((i: Item) => p(i, LatestOf(log, i.itemId)), items)
  }

  function Total(durations: seq<real>): real {
    if durations == [] then 0.0 else Total(durations[..|durations| - 1]) + durations[|durations| - 1]
  }

  function DurationOf(i: Item): real { i.duration }

  predicate Says(latest: Option<Entry>, word: string) {
    latest.Some? && latest.value.decision == Some(Text(word))
  }

  function Saying(word: string): (Item, Option<Entry>) -> bool {
    (i, e) => Says(e, word)
  }

  predicate Undecided(i: Item, latest: Option<Entry>) {
    latest.None?
  }

  predicate Rewritten(i: Item, latest: Option<Entry>) {
    latest.Some? && latest.value.transcript != Some(Text(i.transcript))
  }

  /** What a status promises, over the latest event of every queued item. */
  ghost predicate RightStatus(c: Codec, items: seq<Item>, log: seq<Entry>, status: Status) {
    && status.total == |items| && status.eventCount == |log|
    && status.head == (if log == [] then EMPTY_EVENT_HASH else Shown(c, log[|log| - 1].eventHash))
    && status.counts.accepted == |Where(log, items, Saying("accepted"))|
    && status.counts.rejected == |Where(log, items, Saying("rejected"))|
    && status.counts.deferred == |Where(log, items, Saying("deferred"))|
    && status.counts.pending == |Where(log, items, Undecided)|
    && status.acceptedDuration == Total(Map(DurationOf, Where(log, items, Saying("accepted"))))
    && status.transcriptChanges == |Where(log, items, Rewritten)|
    && (status.ready <==>
        && (forall i :: i in items ==>
              Says(LatestOf(log, i.itemId), "accepted") || Says(LatestOf(log, i.itemId), "rejected"))
        && status.acceptedDuration >= 1800.0)
  }

  lemma SaysExactly(all: seq<Item>, log: seq<Entry>, id: string)
    requires AllKept(all, log) && AllRecorded(log)
    ensures var latest := LatestOf(log, id);
            && (latest.None? <==> DecisionOn(log, id) == PENDING)
            && (forall word: string | IsDecision(word) :: Says(latest, word) <==> DecisionOn(log, id) == word)
            && (latest.Some? ==>
                  latest.value.transcript.Some?
                  && latest.value.transcript == Some(Text(latest.value.transcript.value.s)))
  {
    DecisionIsWord(all, log, id);
    WordsDiffer();
    hide Kept, IsDecision;
    if LatestOf(log, id).Some? {
      var i :| 0 <= i < |log| && log[i] == LatestOf(log, id).value;
      assert Recorded(log[i]);
    }
  }

  lemma WhereStep(log: seq<Entry>, items: seq<Item>, p: (Item, Option<Entry>) -> bool)
    requires items != []
    ensures var n := |items| - 1;
            Where(log, items, p)
            == Where(log, items[..n], p) + if p(items[n], LatestOf(log, items[n].itemId)) then [items[n]] else []
    ensures var n := |items| - 1;
            |Where(log, items, p)|
            == |Where(log, items[..n], p)| + if p(items[n], LatestOf(log, items[n].itemId)) then 1 else 0
  {
    var n := |items| - 1;
    assert items == items[..n] + [items[n]];
    FilterAppend((i: Item) => p(i, LatestOf(log, i.itemId)), items[..n], items[n]);
  }

  lemma {:induction false} CountsWhere(all: seq<Item>, items: seq<Item>, log: seq<Entry>, word: string)
    requires AllKept(all, log) && AllRecorded(log) && IsDecision(word)
    ensures Having(items, log, word) == |Where(log, items, Saying(word))|
  {
    hide Where, DecisionOn, Says, IsDecision, AllKept;
    var p := Saying(word);
    if items == [] {
      NowhereWhere(log, p);
    } else {
      CountsWhere(all, items[..|items| - 1], log, word);
      WhereStep(log, items, p);
      SaysExactly(all, log, items[|items| - 1].itemId);
    }
  }

  lemma NowhereWhere(log: seq<Entry>, p: (Item, Option<Entry>) -> bool)
    ensures Where(log, [], p) == []
  {}

  lemma {:induction false} PendingWhere(all: seq<Item>, items: seq<Item>, log: seq<Entry>)
    requires AllKept(all, log) && AllRecorded(log)
    ensures Having(items, log, PENDING) == |Where(log, items, Undecided)|
  {
    hide Where, DecisionOn, AllKept;
    var p := Undecided;
    if items == [] {
      NowhereWhere(log, p);
    } else {
      var n := |items| - 1;
      PendingWhere(all, items[..n], log);
      WhereStep(log, items, p);
      DecisionIsWord(all, log, items[n].itemId);
      assert Having(items, log, PENDING)
             == Having(items[..n], log, PENDING) + if DecisionOn(log, items[n].itemId) == PENDING then 1 else 0;
    }
  }

  lemma {:induction false} DurationWhere(all: seq<Item>, items: seq<Item>, log: seq<Entry>)
    requires AllKept(all, log) && AllRecorded(log)
    ensures AcceptedDuration(items, log) == Total(Map(DurationOf, Where(log, items, Saying("accepted"))))
  {
    hide Where, DecisionOn, Says, AllKept;
    var p := Saying("accepted");
    if items == [] {
      NowhereWhere(log, p);
    } else {
      var n := |items| - 1;
      DurationWhere(all, items[..n], log);
      WhereStep(log, items, p);
      SaysExactly(all, log, items[n].itemId);
      TotalAppend(Where(log, items[..n], p), items[n]);
      assert IsDecision("accepted");
      assert Where(log, items[..n], p) + [] == Where(log, items[..n], p);
    }
  }

  lemma TotalAppend(items: seq<Item>, item: Item)
    ensures Total(Map(DurationOf, items + [item])) == Total(Map(DurationOf, items)) + item.duration
  {
    var all := Map(DurationOf, items + [item]);
    assert all[..|items|] == Map(DurationOf, items);
  }

  lemma {:induction false} ChangesWhere(all: seq<Item>, items: seq<Item>, log: seq<Entry>)
    requires AllKept(all, log) && AllRecorded(log)
    ensures TranscriptChanges(items, log) == |Where(log, items, Rewritten)|
  {
    hide Where, DecisionOn, AllKept;
    var p := Rewritten;
    if items == [] {
      NowhereWhere(log, p);
    } else {
      ChangesWhere(all, items[..|items| - 1], log);
      WhereStep(log, items, p);
      SaysExactly(all, log, items[|items| - 1].itemId);
    }
  }

  /** Main result: the status says what the latest events say. */
  lemma StatusIsRight(c: Codec, all: seq<Item>, items: seq<Item>, log: seq<Entry>)
    requires AllKept(all, log) && AllRecorded(log)
    ensures RightStatus(c, items, log, StatusOf(c, items, log))
  {
    CountsWhere(all, items, log, "accepted");
    CountsWhere(all, items, log, "rejected");
    CountsWhere(all, items, log, "deferred");
    PendingWhere(all, items, log);
    DurationWhere(all, items, log);
    ChangesWhere(all, items, log);
    ReadyExactly(all, items, log);
    hide Where, AllKept, DecisionOn, Having, AcceptedDuration, TranscriptChanges, Total, Ready, Recorded;
    forall i | i in items
      ensures Says(LatestOf(log, i.itemId), "accepted") <==> DecisionOn(log, i.itemId) == ACCEPTED
      ensures Says(LatestOf(log, i.itemId), "rejected") <==> DecisionOn(log, i.itemId) == REJECTED
      ensures Says(LatestOf(log, i.itemId), "accepted") || Says(LatestOf(log, i.itemId), "rejected")
              ==> LatestOf(log, i.itemId).Some?
    {
      SaysExactly(all, log, i.itemId);
    }
    hide Says;
    assert forall i :: 0 <= i < |items| ==> items[i] in items;
  }

  // ----- Folding the log

  /** `_latest`: a dictionary filled in log order, so that the last event of an item stays. */
  method Latest(log: seq<Entry>) returns (latest: map<string, Entry>)
    requires AllRecorded(log)
    ensures forall id :: id in latest <==> LatestOf(log, id).Some?
    ensures forall id :: id in latest ==> latest[id] == LatestOf(log, id).value
  {
    latest := map[];
    for i := 0 to |log|
      invariant forall id :: id in latest <==> LatestOf(log[..i], id).Some?
      invariant forall id :: id in latest ==> latest[id] == LatestOf(log[..i], id).value
    {
      assert log[..i + 1][..i] == log[..i] && log[..i + 1][i] == log[i];
      latest := latest[log[i].itemId.value.s := log[i]];
    }
    assert log[..|log|] == log;
  }

  /** What one more queue item adds to the tallies. */
  lemma TallyStep(all: seq<Item>, items: seq<Item>, log: seq<Entry>, i: nat)
    requires AllKept(all, log) && AllRecorded(log) && i < |items|
    ensures var latest := LatestOf(log, items[i].itemId);
            var word := DecisionOn(log, items[i].itemId);
            && word == (if latest.None? then PENDING else latest.value.decision.value.s)
            && CountsOf(items[..i + 1], log) == Bump(CountsOf(items[..i], log), word)
            && AcceptedDuration(items[..i + 1], log)
               == AcceptedDuration(items[..i], log) + (if word == ACCEPTED then items[i].duration else 0.0)
            && TranscriptChanges(items[..i + 1], log)
               == TranscriptChanges(items[..i], log)
                  + (if latest.Some? && latest.value.transcript.value.s != items[i].transcript then 1 else 0)
  {
    hide AllKept;
    assert items[..i + 1][..i] == items[..i] && items[..i + 1][i] == items[i];
    DecisionIsWord(all, log, items[i].itemId);
    WordsDiffer();
  }

  /** `_status_from_events`. */
  method ComputeStatus(c: Codec, all: seq<Item>, items: seq<Item>, log: seq<Entry>) returns (status: Status)
    requires AllKept(all, log) && AllRecorded(log)
    ensures status == StatusOf(c, items, log) && RightStatus(c, items, log, status)
  {
    hide RightStatus;
    StatusIsRight(c, all, items, log);
    var latest := Latest(log);
    var counts, duration, changes := Counts(0, 0, 0, 0), 0.0, 0;
    WordsDiffer();
    NoItems(log);
    for i := 0 to |items|
      invariant counts == CountsOf(items[..i], log)
      invariant duration == AcceptedDuration(items[..i], log)
      invariant changes == TranscriptChanges(items[..i], log)
    {
      hide CountsOf, AcceptedDuration, TranscriptChanges, DecisionOn, AllKept, LatestOf;
      TallyStep(all, items, log, i);
      var item := items[i];
      if item.itemId !in latest {
        counts := counts.(pending := counts.pending + 1);
      } else {
        var event := latest[item.itemId];
        counts := Bump(counts, event.decision.value.s);
        if event.decision.value.s == ACCEPTED { duration := duration + item.duration; }
        if event.transcript.value.s != item.transcript { changes := changes + 1; }
      }
    }
    assert items[..|items|] == items;
    var ready := counts.pending == 0 && counts.deferred == 0 && duration >= MINIMUM_ACCEPTED_DURATION;
    status := Status(|items|, counts, duration, changes, |log|,
                     if log == [] then EMPTY_EVENT_HASH else Shown(c, log[|log| - 1].eventHash), ready);
  }

  lemma NoItems(log: seq<Entry>)
    requires AllRecorded(log)
    ensures CountsOf([], log) == Counts(0, 0, 0, 0) && AcceptedDuration([], log) == 0.0
            && TranscriptChanges([], log) == 0
  {}

  // ----- Reading the log

  function PrependAll(read: seq<Entry>, r: Result<seq<Entry>, LogError>): Result<seq<Entry>, LogError> {
    match r
    case Ok(more) => Ok(read + more)
    case Err(error) => Err(error)
  }

  /** `_events`: line by line, stopping at the first fault. */
  method Events(c: Codec, file: string) returns (r: Result<seq<Entry>, LogError>)
    ensures r == Read(c, file)
  {
    var lines := SplitLines(file);
    var events, previous, n := [], EMPTY_EVENT_HASH, 0;
    assert lines[0..] == lines;
    NothingPrepended(ReadLines(c, lines, 0, previous));
    while n < |lines|
      invariant 0 <= n <= |lines|
      invariant Read(c, file) == PrependAll(events, ReadLines(c, lines[n..], n, previous))
    {
      assert lines[n..][0] == lines[n] && lines[n..][1..] == lines[n + 1..];
      var parsed := c.load(lines[n]);
      if parsed.NotJson? { return Err(BadJson(n + 1)); }
      if parsed.NotAnObject? { return Err(BadObject(n + 1)); }
      var event := parsed.entry;
      if !SequenceIs(event.sequence, n + 1) { return Err(BadSequence(n + 1)); }
      if event.previousEventHash != Some(Text(previous)) || Shown(c, event.eventHash) != c.hash(Unsigned(event)) {
        return Err(BrokenChain(n + 1));
      }
      PrependedStep(events, event, ReadLines(c, lines[n + 1..], n + 1, Shown(c, event.eventHash)));
      previous := Shown(c, event.eventHash);
      events := events + [event];
      n := n + 1;
    }
    assert events + [] == events;
    r := Ok(events);
  }

  lemma NothingPrepended(r: Result<seq<Entry>, LogError>)
    ensures PrependAll([], r) == r
  {
    if r.Ok? { assert [] + r.value == r.value; }
  }

  lemma PrependedStep(events: seq<Entry>, e: Entry, r: Result<seq<Entry>, LogError>)
    ensures PrependAll(events, Prepend(e, r)) == PrependAll(events + [e], r)
  {
    if r.Ok? { assert events + ([e] + r.value) == events + [e] + r.value; }
  }

  /** The search for an event of the same request. */
  method FindRequest(log: seq<Entry>, requestId: string) returns (r: Option<Entry>)
    ensures r == FirstWith(log, requestId)
  {
    assert log[0..] == log;
    for i := 0 to |log|
      invariant FirstWith(log, requestId) == FirstWith(log[i..], requestId)
    {
      assert log[i..][0] == log[i] && log[i..][1..] == log[i + 1..];
      if log[i].requestId == Some(Text(requestId)) { return Some(log[i]); }
    }
    r := None;
  }

  // ----- The store

  class ReviewStore {
    const codec: Codec
    const runId: string
    const items: seq<Item>
    /** `events.jsonl`, `drafts.json` and `status.json`. */
    var file: string
    var drafts: map<string, Draft>
    var status: Option<Status>
    /** Every event ever appended. */
    ghost var log: seq<Entry>

    ghost predicate Valid()
      reads this
    {
      && Trusted(codec) && Plain(runId) && PlainItems(items) && Sound(codec, items, log)
      && file == Written(Lines(log))
    }

    /** A fresh run: an empty log over a frozen queue. */
    constructor (codec: Codec, runId: string, items: seq<Item>)
      requires Trusted(codec) && Plain(runId) && PlainItems(items)
      ensures Valid() && log == [] && file == "" && drafts == map[]
      ensures this.codec == codec && this.runId == runId && this.items == items
    {
      this.codec, this.runId, this.items := codec, runId, items;
      file, drafts, status, log := "", map[], None, [];
    }

    /** What the store's own log reads back as. */
    lemma ReadsOwnLog()
      requires Valid()
      ensures AllRecorded(log) && Read(codec, file) == ReadOutcome(log, 0) && (Read(codec, file).Ok? <==> Readable(log))
    {
      hide Trusted, Sound, ReadOutcome, Readable, Read, Written, PlainItems;
      SoundRecorded(codec, items, log);
      TrustedLoads(codec);
      ReadBack(codec, log);
      ReadsWhole(log);
    }

    /** The checks made before the lock is taken. */
    method CheckRequest(q: Request) returns (e: Option<StoreError>)
      ensures e == RequestError(items, q)
      ensures e.None? <==> Admissible(items, q)
    {
      AdmittedExactly(items, q);
      hide Admissible;
      if !RequestIdValid(q.requestId) { return Some(BadRequestId); }
      if !IsDecision(q.decision) { return Some(BadDecision); }
      var fieldError := FieldError(items, q.itemId, q.reviewer, q.transcript, q.notes);
      if fieldError.Some? { return fieldError; }
      if q.decision == ACCEPTED && Strip(q.transcript) == "" { return Some(EmptyTranscript); }
      e := None;
    }

    /** Append one event, drop the item's draft and rewrite the status. */
    method Append(events: seq<Entry>, q: Request, stamp: Stamp) returns (event: Entry)
      requires Valid() && PlainStamp(stamp) && events == log && AllRecorded(log) && Readable(log)
      requires RequestError(items, q).None? && FirstWith(log, q.requestId).None?
      modifies this
      ensures Valid() && log == old(log) + [event] && drafts == old(drafts) - {q.itemId}
      ensures event == NewEntry(codec, runId, items, events, q, stamp)
      ensures status == Some(StatusOf(codec, items, log)) && RightStatus(codec, items, log, status.value)
    {
      hide RightStatus, StatusOf, Trusted, Sound, PlainItems, PlainStamp, Written, NewEntry, Readable, Plain, Recorded,
           Accepted, RequestError, FirstWith, AllKept, Line;
      KnownItem(items, q);
      AppendKeepsSound(codec, runId, items, log, q, stamp);
      event := NewEntry(codec, runId, items, events, q, stamp);
      SoundRecorded(codec, items, log + [event]);
      assert (log + [event])[|log|] == event;
      WrittenExtends(log, event);
      file := file + Line(event) + "\n";
      drafts := drafts - {q.itemId};
      log := log + [event];
      var now := ComputeStatus(codec, items, items, events + [event]);
      status := Some(now);
    }

    /** `record_decision`. */
    method RecordDecision(q: Request, stamp: Stamp) returns (r: Answer)
      requires Valid() && PlainStamp(stamp)
      modifies this
      ensures Valid()
      ensures AllRecorded(old(log)) && (State(log, drafts), r) ==
              Step(codec, runId, items, old(State(log, drafts)), q, stamp)
      ensures Traced(codec, items, old(log)) ==>
                Traced(codec, items, log)
                && RightCall(codec, runId, items, old(State(log, drafts)), q, stamp, State(log, drafts), r)
      ensures AllRecorded(log) && status == if Fresh(r) then Some(StatusOf(codec, items, log)) else old(status)
      ensures Fresh(r) ==> RightStatus(codec, items, log, status.value)
    {
      hide Trusted, Sound, PlainItems, PlainStamp, Read, Written, NewEntry, Readable, Plain, Recorded, Accepted,
           RequestError, FirstWith, StatusOf, ReadOutcome, RightCall, Traced, LoadsBack, AllKept,
           RightStatus;
      ReadsOwnLog();
      ReadsWhole(log);
      CallKeepsPromise(codec, runId, items, State(log, drafts), q, stamp);
      var refused := CheckRequest(q);
      if refused.Some? { return Err(refused.value); }
      var events := Events(codec, file);
      if events.Err? { return Err(BadLog(events.error)); }
      var duplicate := FindRequest(events.value, q.requestId);
      if duplicate.Some? { return Ok((duplicate.value, true)); }
      var event := Append(events.value, q, stamp);
      SoundRecorded(codec, items, log);
      r := Ok((event, false));
    }

    method SaveDraft(itemId: string, reviewer: string, transcript: string, notes: string, now: string)
      returns (r: Result<Draft, StoreError>)
      requires Valid()
      modifies this`drafts
      ensures Valid()
      ensures r == match FieldError(items, itemId, reviewer, transcript, notes)
                   case Some(e) => Err(e)
                   case None => Ok(Draft(Strip(reviewer), Strip(transcript), Strip(notes), now))
      ensures drafts == if r.Ok? then old(drafts)[itemId := r.value] else old(drafts)
    {
      var fieldError := FieldError(items, itemId, reviewer, transcript, notes);
      if fieldError.Some? { return Err(fieldError.value); }
      var draft := Draft(Strip(reviewer), Strip(transcript), Strip(notes), now);
      drafts := drafts[itemId := draft];
      r := Ok(draft);
    }

    method CurrentStatus() returns (r: Result<Status, LogError>)
      requires Valid()
      modifies this`status
      ensures Valid() && AllRecorded(log)
      ensures r.Ok? <==> Readable(log)
      ensures r.Ok? ==> r.value == StatusOf(codec, items, log) && status == Some(r.value)
      ensures r.Ok? ==> RightStatus(codec, items, log, r.value)
      ensures r.Ok? ==> CountsTotal(r.value.counts) == |items|
      ensures r.Err? ==> status == old(status)
    {
      hide Trusted, Sound, PlainItems, Read, Written, Readable, Plain, Recorded, Accepted, StatusOf, CountsOf,
           CountsTotal, AllKept, ReadOutcome, RightStatus;
      ReadsOwnLog();
      SoundRecorded(codec, items, log);
      ReadsWhole(log);
      var events := Events(codec, file);
      if events.Err? { return Err(events.error); }
      var now := ComputeStatus(codec, items, items, events.value);
      CountsSumToQueue(items, items, events.value);
      StatusCounts(codec, items, events.value);
      status := Some(now);
      r := Ok(now);
    }
  }

  lemma CallKeepsPromise(c: Codec, runId: string, items: seq<Item>, s: State, q: Request, stamp: Stamp)
    requires Trusted(c) && AllRecorded(s.log)
    ensures Traced(c, items, s.log) ==>
              var (next, answer) := Step(c, runId, items, s, q, stamp);
              Traced(c, items, next.log) && RightCall(c, runId, items, s, q, stamp, next, answer)
  {
    hide Step, RightCall, Traced, LoadsBack;
    if Traced(c, items, s.log) {
      StepIsRight(c, runId, items, s, q, stamp);
      StepKeepsTraced(c, runId, items, s, q, stamp);
    }
  }

  lemma StatusCounts(c: Codec, items: seq<Item>, log: seq<Entry>)
    requires AllRecorded(log)
    ensures StatusOf(c, items, log).counts == CountsOf(items, log)
  {}

  lemma TrustedLoads(c: Codec)
    requires Trusted(c)
    ensures LoadsBack(c)
  {}

  lemma WrittenExtends(log: seq<Entry>, e: Entry)
    requires AllRecorded(log) && AllRecorded(log + [e]) && Recorded(e)
    ensures Written(Lines(log + [e])) == Written(Lines(log)) + Line(e) + "\n"
  {
    hide Recorded, Line;
    var lines := Lines(log + [e]);
    assert (log + [e])[|log|] == e;
    assert lines[..|log|] == Lines(log);
  }
}
