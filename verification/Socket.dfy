/** Delivery tracking of the full-stack processor: `SocketIOFullStackProcessor`. */
module Socket {
  import opened Wrappers
  import opened Distinct

  type TaskId = string
  type StreamId = string

  /** The future a `process` call awaits. */
  datatype Future = Waiting | Replied(text: string) | Failed | Cancelled

  datatype Stream = Stream(task: TaskId, nextSequence: int, chunkCount: int, valid: bool)

  /** Everything the processor remembers. `emitting` and `awaiting` are the suspended `process` calls;
      `returned` records the tasks whose call returned a reply. */
  datatype State = State(
    connected: bool,
    futures: map<TaskId, Future>,
    pending: map<TaskId, seq<string>>,
    streams: map<StreamId, Stream>,
    sentenceTasks: set<TaskId>,
    audioTasks: set<TaskId>,
    live2dTasks: set<TaskId>,
    controlTasks: set<TaskId>,
    completed: nat,
    emitting: set<TaskId>,
    awaiting: set<TaskId>,
    returned: set<TaskId>)

  const INITIAL := State(false, map[], map[], map[], {}, {}, {}, {}, 0, {}, {}, {})

  /** One step of an interleaving. A payload field that is missing or mistyped is `None`. */
  datatype Event =
    | Connect
    | Close
    | Submit(task: TaskId)                 // `process` registers a fresh task and starts to emit it
    | Emitted(task: TaskId)                // the emit went through; the call now awaits its future
    | EmitFailed(task: TaskId)             // the emit raised; the registration stays behind
    | Resume(task: TaskId)                 // the awaiting call continues: its future is done
    | Timeout(task: TaskId)                // the awaiting call gives up
    | Sentence(task: TaskId, text: string)
    | Audio(task: TaskId)
    | StreamStart(stream: StreamId, task: TaskId)
    | StreamChunk(stream: StreamId, task: TaskId, sequence: Option<int>, hasData: bool)
    | StreamEnd(stream: StreamId, task: TaskId, completedStatus: bool, finalSequence: Option<int>)
    | Live2d(task: TaskId)
    | Control(task: TaskId, conversationEnd: bool)
    | ErrorReport(task: TaskId)

  /** When a step of the calling side can happen; deliveries can always happen. */
  predicate Enabled(s: State, e: Event) {
    match e
    case Submit(t) => s.connected && t !in s.futures
    case Emitted(t) => t in s.emitting
    case EmitFailed(t) => t in s.emitting
    case Resume(t) => t in s.awaiting && t in s.futures && s.futures[t] != Waiting
    case Timeout(t) => t in s.awaiting && t in s.futures && s.futures[t] == Waiting
    case _ => true
  }

  function Join(parts: seq<string>): string {
    if parts == [] then "" else Join(parts[..|parts| - 1]) + parts[|parts| - 1]
  }

  predicate AllDelivered(s: State, t: TaskId) {
    t in s.sentenceTasks && t in s.audioTasks && t in s.live2dTasks && t in s.controlTasks
  }

  /** `_maybe_complete`. */
  function CompleteIfDelivered(s: State, t: TaskId): State {
    if t in s.pending && AllDelivered(s, t) && t in s.futures && s.futures[t] == Waiting
    then s.(futures := s.futures[t := Replied(Join(s.pending[t]))])
    else s
  }

  /** The `finally` of `process`: the registration and the task's open streams go. */
  function ForgetTask(s: State, t: TaskId): State {
    s.(pending := s.pending - {t},
       streams := map id | id in s.streams && s.streams[id].task != t :: s.streams[id],
       awaiting := s.awaiting - {t})
  }

  predicate CreditsAudio(s: State, e: Event)
    requires e.StreamEnd?
  {
    && e.stream in s.streams
    && e.task == s.streams[e.stream].task
    && e.completedStatus
    && s.streams[e.stream].valid
    && s.streams[e.stream].chunkCount > 0
    && e.finalSequence == Some(s.streams[e.stream].nextSequence - 1)
    && s.streams[e.stream].task in s.pending
  }

  function AfterChunk(stream: Stream, sequence: Option<int>, hasData: bool): Stream {
    if sequence != Some(stream.nextSequence) || !hasData then stream.(valid := false)
    else stream.(nextSequence := stream.nextSequence + 1, chunkCount := stream.chunkCount + 1)
  }

  /** What one step does. */
  function Step(s: State, e: Event): State {
    match e
    case Connect => s.(connected := true)
    case Close =>
      s.(connected := false,
         futures := map t | t in s.futures :: if t in s.pending && s.futures[t] == Waiting then Failed
             else s.futures[t],
         pending := map[], streams := map[])
    case Submit(t)
        => s.(futures := s.futures[t := Waiting], pending := s.pending[t := []], emitting := s.emitting + {t})
    case Emitted(t) => s.(emitting := s.emitting - {t}, awaiting := s.awaiting + {t})
    case EmitFailed(t) => s.(emitting := s.emitting - {t})
    case Resume(t) =>
      var after := ForgetTask(s, t);
      if t in s.futures && s.futures[t].Replied? then after.(completed := s.completed + 1, returned := s.returned + {t})
          else after
    case Timeout(t) => ForgetTask(s.(futures := s.futures[t := Cancelled]), t)
    case Sentence(t, text) =>
      if t !in s.pending then s
      else CompleteIfDelivered(s.(pending := s.pending[t := s.pending[t] + [text]],
                                  sentenceTasks := s.sentenceTasks + {t}), t)
    case Audio(t) => if t !in s.pending then s else CompleteIfDelivered(s.(audioTasks := s.audioTasks + {t}), t)
    case StreamStart(id, t) =>
      if t !in s.pending || id == "" then s else s.(streams := s.streams[id := Stream(t, 0, 0, true)])
    case StreamChunk(id, t, sequence, hasData) =>
      if id !in s.streams || t != s.streams[id].task then s
      else s.(streams := s.streams[id := AfterChunk(s.streams[id], sequence, hasData)])
    case StreamEnd(id, t, _, _) =>
      var popped := s.(streams := s.streams - {id});
      if CreditsAudio(s, e) then CompleteIfDelivered(popped.(audioTasks := popped.audioTasks + {t}), t) else popped
    case Live2d(t) => if t !in s.pending then s else CompleteIfDelivered(s.(live2dTasks := s.live2dTasks + {t}), t)
    case Control(t, conversationEnd) =>
      if !conversationEnd || t !in s.pending then s
          else CompleteIfDelivered(s.(controlTasks := s.controlTasks + {t}), t)
    case ErrorReport(t) =>
      if t in s.pending && t in s.futures && s.futures[t] == Waiting then s.(futures := s.futures[t := Failed]) else s
  }

  /** The state after an interleaving, and whether every step of it was possible. */
  function Run(trace: seq<Event>): State {
    if trace == [] then INITIAL else Step(Run(trace[..|trace| - 1]), trace[|trace| - 1])
  }

  predicate Possible(trace: seq<Event>) {
    trace == [] || (Possible(trace[..|trace| - 1]) && Enabled(Run(trace[..|trace| - 1]), trace[|trace| - 1]))
  }

  // ----- Invariant

  ghost predicate Inv(s: State) {
    && (forall id :: id in s.streams ==> s.streams[id].task in s.pending)
    && s.pending.Keys <= s.futures.Keys && s.emitting <= s.futures.Keys && s.awaiting <= s.futures.Keys
    && s.emitting !! s.awaiting
    && (forall t :: t in s.futures && s.futures[t].Replied? ==> AllDelivered(s, t))
    && s.returned !! s.awaiting && s.returned !! s.emitting
    && (forall t :: t in s.returned ==> t in s.futures && s.futures[t].Replied?)
    && s.completed == |s.returned|
  }

  lemma CompletionKeepsInv(s: State, t: TaskId)
    requires Inv(s)
    ensures Inv(CompleteIfDelivered(s, t))
  {}

  lemma ForgettingKeepsInv(s: State, t: TaskId)
    requires Inv(s)
    ensures Inv(ForgetTask(s, t))
  {}

  /** A delivery only grows one of the four sets before it may complete the task. */
  lemma DeliveryKeepsInv(s: State, e: Event)
    requires Inv(s) && (e.Sentence? || e.Audio? || e.Live2d? || e.Control? || e.ErrorReport?)
    ensures Inv(Step(s, e))
  {
    hide CompleteIfDelivered;
    match e
    case Sentence(t, text) =>
      if t in s.pending {
        CompletionKeepsInv(s.(pending := s.pending[t := s.pending[t] + [text]], sentenceTasks := s.sentenceTasks + {t}),
                           t);
      }
    case Audio(t) => if t in s.pending { CompletionKeepsInv(s.(audioTasks := s.audioTasks + {t}), t); }
    case Live2d(t) => if t in s.pending { CompletionKeepsInv(s.(live2dTasks := s.live2dTasks + {t}), t); }
    case Control(t, _) => if t in s.pending { CompletionKeepsInv(s.(controlTasks := s.controlTasks + {t}), t); }
    case ErrorReport(t) =>
  }

  lemma StreamEventKeepsInv(s: State, e: Event)
    requires Inv(s) && (e.StreamStart? || e.StreamChunk? || e.StreamEnd?)
    ensures Inv(Step(s, e))
  {
    hide CompleteIfDelivered;
    if e.StreamEnd? {
      var popped := s.(streams := s.streams - {e.stream});
      CompletionKeepsInv(popped.(audioTasks := popped.audioTasks + {e.task}), e.task);
    }
  }

  /** Whether a task is delivered depends on the four task sets alone. */
  lemma SameDelivered(s: State, next: State)
    requires s.sentenceTasks == next.sentenceTasks && s.audioTasks == next.audioTasks
    requires s.live2dTasks == next.live2dTasks && s.controlTasks == next.controlTasks
    ensures forall t :: AllDelivered(next, t) <==> AllDelivered(s, t)
  {}

  lemma CallKeepsInv(s: State, e: Event)
    requires Inv(s) && Enabled(s, e)
    requires e.Connect? || e.Close? || e.Submit? || e.Emitted? || e.EmitFailed?
    ensures Inv(Step(s, e))
  {
    hide AllDelivered;
    SameDelivered(s, Step(s, e));
  }

  lemma ResumeKeepsInv(s: State, e: Event)
    requires Inv(s) && Enabled(s, e) && e.Resume?
    ensures Inv(Step(s, e))
  {
    hide AllDelivered;
    ForgettingKeepsInv(s, e.task);
    SameDelivered(ForgetTask(s, e.task), Step(s, e));
    assert e.task !in s.returned;
  }

  lemma TimeoutKeepsInv(s: State, e: Event)
    requires Inv(s) && Enabled(s, e) && e.Timeout?
    ensures Inv(Step(s, e))
  {
    hide AllDelivered;
    var cancelled := s.(futures := s.futures[e.task := Cancelled]);
    SameDelivered(s, cancelled);
    ForgettingKeepsInv(cancelled, e.task);
  }

  lemma StepKeepsInv(s: State, e: Event)
    requires Inv(s) && Enabled(s, e)
    ensures Inv(Step(s, e))
  {
    hide Inv, Step, Enabled;
    if e.Sentence? || e.Audio? || e.Live2d? || e.Control? || e.ErrorReport? {
      DeliveryKeepsInv(s, e);
    } else if e.StreamStart? || e.StreamChunk? || e.StreamEnd? {
      StreamEventKeepsInv(s, e);
    } else if e.Resume? {
      ResumeKeepsInv(s, e);
    } else if e.Timeout? {
      TimeoutKeepsInv(s, e);
    } else {
      CallKeepsInv(s, e);
    }
  }

  lemma {:induction false} RunKeepsInv(trace: seq<Event>)
    requires Possible(trace)
    ensures Inv(Run(trace))
  {
    hide Inv, Step, Enabled;
    if trace == [] {
      InitialInv();
    } else {
      RunKeepsInv(trace[..|trace| - 1]);
      StepKeepsInv(Run(trace[..|trace| - 1]), trace[|trace| - 1]);
    }
  }

  lemma InitialInv()
    ensures Inv(INITIAL)
  {}

  /** Main result: in every interleaving, open streams belong to pending tasks and the completed count
      never exceeds any of the four delivery counts. */
  lemma CompletedBounded(trace: seq<Event>)
    requires Possible(trace)
    ensures var s := Run(trace);
            && s.completed <= |s.sentenceTasks| && s.completed <= |s.audioTasks|
            && s.completed <= |s.live2dTasks| && s.completed <= |s.controlTasks|
            && forall id :: id in s.streams ==> s.streams[id].task in s.pending
  {
    RunKeepsInv(trace);
    var s := Run(trace);
    SubsetSize(s.returned, s.sentenceTasks);
    SubsetSize(s.returned, s.audioTasks);
    SubsetSize(s.returned, s.live2dTasks);
    SubsetSize(s.returned, s.controlTasks);
  }

  // ----- Replies

  /** A future that is done never changes; deliveries are never taken back. */
  lemma StepKeepsDone(s: State, e: Event, t: TaskId)
    requires Enabled(s, e) && t in s.futures
    ensures t in Step(s, e).futures
    ensures s.futures[t] != Waiting ==> Step(s, e).futures[t] == s.futures[t]
    ensures AllDelivered(s, t) ==> AllDelivered(Step(s, e), t)
  {}

  /** A reply is set only when all four deliveries have arrived, to the sentences joined in order. */
  lemma ReplyWhenDelivered(s: State, e: Event, t: TaskId)
    requires Inv(s) && Enabled(s, e) && t in s.futures && s.futures[t] == Waiting && Step(s, e).futures[t].Replied?
    ensures AllDelivered(Step(s, e), t) && t in s.pending && t in Step(s, e).pending
    ensures Step(s, e).futures[t].text == Join(Step(s, e).pending[t])
  {}

  // ----- Registrations that outlive their call

  /** A task is registered although no call is emitting or awaiting it. */
  predicate LeftBehind(s: State, t: TaskId) {
    t in s.pending && t !in s.emitting && t !in s.awaiting
  }

  /** Step `k` failed to emit a registered task, and nothing was closed since. */
  predicate FailedAt(trace: seq<Event>, t: TaskId, k: nat)
    requires k < |trace|
  {
    trace[k] == EmitFailed(t) && t in Run(trace[..k]).pending && forall j :: k < j < |trace| ==> trace[j] != Close
  }

  predicate FailedUnclosed(trace: seq<Event>, t: TaskId) {
    exists k :: 0 <= k < |trace| && FailedAt(trace, t, k)
  }

  lemma FailedStep(trace: seq<Event>, t: TaskId)
    requires trace != []
    ensures var n := |trace| - 1;
            FailedUnclosed(trace, t) <==>
            (trace[n] == EmitFailed(t) && t in Run(trace[..n]).pending)
                || (trace[n] != Close && FailedUnclosed(trace[..n], t))
  {
    hide Run;
    var n := |trace| - 1;
    var front := trace[..n];
    forall k | 0 <= k < n ensures FailedAt(trace, t, k) <==> trace[n] != Close && FailedAt(front, t, k) {
      assert front[..k] == trace[..k] && front[k] == trace[k];
      assert forall j :: k < j < n ==> front[j] == trace[j];
    }
    assert FailedAt(trace, t, n) <==> trace[n] == EmitFailed(t) && t in Run(front).pending;
  }

  lemma LeftBehindStep(s: State, e: Event, t: TaskId)
    requires Inv(s) && Enabled(s, e)
    ensures LeftBehind(Step(s, e), t) <==> (e == EmitFailed(t) && t in s.pending) || (e != Close && LeftBehind(s, t))
  {}

  /** Main result: a registration outlives its call exactly when its emit failed and the processor was not closed
      since; no delivery, timeout or later call ever removes it. */
  lemma {:induction false} LeftBehindExactly(trace: seq<Event>, t: TaskId)
    requires Possible(trace)
    ensures LeftBehind(Run(trace), t) <==> FailedUnclosed(trace, t)
  {
    hide LeftBehind, FailedUnclosed, Step, Enabled, Inv;
    if trace == [] {
      NothingLeft(t);
    } else {
      var n := |trace| - 1;
      LeftBehindExactly(trace[..n], t);
      RunKeepsInv(trace[..n]);
      LeftBehindStep(Run(trace[..n]), trace[n], t);
      FailedStep(trace, t);
    }
  }

  lemma NothingLeft(t: TaskId)
    ensures !LeftBehind(Run([]), t) && !FailedUnclosed([], t)
  {}

  /** A concrete run: connect, submit, and an emit that raises leave the task registered. */
  lemma FailedEmitLeavesTask(t: TaskId)
    ensures var trace := [Connect, Submit(t), EmitFailed(t)];
            Possible(trace) && LeftBehind(Run(trace), t)
  {
    var one, two, trace := [Connect], [Connect, Submit(t)], [Connect, Submit(t), EmitFailed(t)];
    assert one[..0] == [] && two[..1] == one && trace[..2] == two;
    assert Run(one) == Step(INITIAL, Connect);
    assert Run(two) == Step(Run(one), Submit(t));
    assert Possible(one) && Possible(two);
  }

  /** Main result: the outcome of a task, once set, is the same in every continuation of the interleaving. */
  lemma {:induction false} ReplySetOnce(trace: seq<Event>, m: nat, t: TaskId)
    requires m <= |trace| && Possible(trace)
    requires t in Run(trace[..m]).futures && Run(trace[..m]).futures[t] != Waiting
    ensures t in Run(trace).futures && Run(trace).futures[t] == Run(trace[..m]).futures[t]
  {
    hide Step, Enabled;
    if m == |trace| {
      assert trace[..m] == trace;
    } else {
      var front := trace[..|trace| - 1];
      assert front[..m] == trace[..m];
      ReplySetOnce(front, m, t);
      StepKeepsDone(Run(front), trace[|trace| - 1], t);
    }
  }

  /** The sentences of a task delivered since it was submitted. */
  function Sentences(trace: seq<Event>, t: TaskId): seq<string> {
    if trace == [] then []
    else
      var front, e := trace[..|trace| - 1], trace[|trace| - 1];
      match e
      case Submit(u) => if u == t then [] else Sentences(front, t)
      case Sentence(u, text) => if u == t then Sentences(front, t) + [text] else Sentences(front, t)
      case _ => Sentences(front, t)
  }

  lemma {:induction false} PendingSentences(trace: seq<Event>, t: TaskId)
    requires Possible(trace) && t in Run(trace).pending
    ensures Run(trace).pending[t] == Sentences(trace, t)
  {
    if trace != [] {
      var front, e := trace[..|trace| - 1], trace[|trace| - 1];
      PendingStep(Run(front), e, t);
      if t in Run(front).pending { PendingSentences(front, t); }
    }
  }

  lemma PendingStep(s: State, e: Event, t: TaskId)
    requires t in Step(s, e).pending
    ensures match e
            case Submit(u) =>
              if u == t then Step(s, e).pending[t] == []
              else t in s.pending && Step(s, e).pending[t] == s.pending[t]
            case Sentence(u, text) =>
              t in s.pending && Step(s, e).pending[t] == if u == t then s.pending[t] + [text] else s.pending[t]
            case _ => t in s.pending && Step(s, e).pending[t] == s.pending[t]
  {}

  /** Main result: the reply of a task is the concatenation, in order, of the sentences that had arrived
      when the fourth kind of delivery arrived, and all four had. */
  lemma {:induction false} ReplyIsSentences(trace: seq<Event>, t: TaskId) returns (m: nat)
    requires Possible(trace) && t in Run(trace).futures && Run(trace).futures[t].Replied?
    ensures 0 < m <= |trace|
    ensures AllDelivered(Run(trace[..m]), t)
    ensures !(t in Run(trace[..m - 1]).futures && Run(trace[..m - 1]).futures[t].Replied?)
    ensures Run(trace).futures[t].text == Join(Sentences(trace[..m], t))
  {
    hide Step, Inv, Enabled, AllDelivered, Sentences;
    assert trace != [];
    var front, e := trace[..|trace| - 1], trace[|trace| - 1];
    if t in Run(front).futures && Run(front).futures[t] != Waiting {
      StepKeepsDone(Run(front), e, t);
      m := ReplyIsSentences(front, t);
      assert front[..m] == trace[..m] && front[..m - 1] == trace[..m - 1];
    } else {
      m := |trace|;
      assert trace[..m] == trace && trace[..m - 1] == front;
      RunKeepsInv(front);
      FreshIsWaiting(Run(front), e, t);
      ReplyWhenDelivered(Run(front), e, t);
      PendingSentences(trace, t);
    }
  }

  lemma FreshIsWaiting(s: State, e: Event, t: TaskId)
    requires Enabled(s, e) && t in Step(s, e).futures && Step(s, e).futures[t].Replied?
    ensures t in s.futures
  {}

  // ----- Audio streams

  datatype Chunk = Chunk(sequence: Option<int>, hasData: bool)

  /** The chunks of a stream, from its own task, since it was last started. */
  function Chunks(trace: seq<Event>, id: StreamId): seq<Chunk> {
    if trace == [] then []
    else
      var front, e := trace[..|trace| - 1], trace[|trace| - 1];
      var s := Run(front);
      match e
      case StreamStart(i, t) => if i == id && t in s.pending && i != "" then [] else Chunks(front, id)
      case StreamChunk(i, t, sequence, hasData) =>
        if i == id && id in s.streams && s.streams[id].task == t then Chunks(front, id) + [Chunk(sequence, hasData)]
            else Chunks(front, id)
      case _ => Chunks(front, id)
  }

  /** Exactly 0, 1, ..., each with data. */
  predicate InOrder(chunks: seq<Chunk>) {
    forall i :: 0 <= i < |chunks| ==> chunks[i] == Chunk(Some(i), true)
  }

  predicate Tracks(stream: Stream, chunks: seq<Chunk>) {
    && (stream.valid <==> InOrder(chunks))
    && (stream.valid ==> stream.nextSequence == stream.chunkCount == |chunks|)
  }

  lemma TracksChunk(stream: Stream, chunks: seq<Chunk>, sequence: Option<int>, hasData: bool)
    requires Tracks(stream, chunks)
    ensures Tracks(AfterChunk(stream, sequence, hasData), chunks + [Chunk(sequence, hasData)])
  {
    var after := chunks + [Chunk(sequence, hasData)];
    if InOrder(after) {
      forall i | 0 <= i < |chunks| ensures chunks[i] == Chunk(Some(i), true) { assert after[i] == chunks[i]; }
      assert after[|chunks|] == Chunk(Some(|chunks|), true);
    }
  }

  lemma StreamStep(s: State, e: Event, id: StreamId)
    requires id in Step(s, e).streams
    ensures match e
            case StreamStart(i, t) =>
              if i == id && t in s.pending && i != "" then Step(s, e).streams[id] == Stream(t, 0, 0, true)
              else id in s.streams && Step(s, e).streams[id] == s.streams[id]
            case StreamChunk(i, t, sequence, hasData) =>
              && id in s.streams
              && Step(s, e).streams[id] == if i == id && s.streams[id].task == t
                 then AfterChunk(s.streams[id], sequence, hasData) else s.streams[id]
            case _ => id in s.streams && Step(s, e).streams[id] == s.streams[id]
  {}

  /** An open stream is valid exactly when its chunks so far are 0..n-1, each with data. */
  lemma {:induction false} StreamTracksChunks(trace: seq<Event>, id: StreamId)
    requires id in Run(trace).streams
    ensures Tracks(Run(trace).streams[id], Chunks(trace, id))
  {
    hide Step, Tracks, AfterChunk;
    if trace != [] {
      var front, e := trace[..|trace| - 1], trace[|trace| - 1];
      StreamStep(Run(front), e, id);
      if id in Run(front).streams { StreamTracksChunks(front, id); }
      if e.StreamChunk? && e.stream == id && Run(front).streams[id].task == e.task {
        TracksChunk(Run(front).streams[id], Chunks(front, id), e.sequence, e.hasData);
      }
      if e.StreamStart? { FreshStreamTracks(e.task); }
    }
  }

  lemma FreshStreamTracks(t: TaskId)
    ensures Tracks(Stream(t, 0, 0, true), [])
  {}

  /** Main result: the end of a stream credits its task with audio exactly when the stream is open for that
      pending task, reports completion, and its chunks since the start were 0..n-1 with data, n >= 1,
          and n - 1 final. */
  lemma CreditExactly(trace: seq<Event>, e: Event)
    requires e.StreamEnd?
    ensures CreditsAudio(Run(trace), e) <==>
            && e.stream in Run(trace).streams && Run(trace).streams[e.stream].task == e.task
               && e.task in Run(trace).pending
            && e.completedStatus
            && InOrder(Chunks(trace, e.stream)) && |Chunks(trace, e.stream)| >= 1
            && e.finalSequence == Some(|Chunks(trace, e.stream)| - 1)
  {
    if e.stream in Run(trace).streams { StreamTracksChunks(trace, e.stream); }
  }

  /** A task enters the audio set only through a whole-audio event or a credited stream end. */
  lemma AudioOnlyWhenDue(s: State, e: Event, t: TaskId)
    requires t !in s.audioTasks
    ensures t in Step(s, e).audioTasks <==>
            (e == Audio(t) && t in s.pending) || (e.StreamEnd? && e.task == t && CreditsAudio(s, e))
  {}

  // ----- The processor object

  class FullStackProcessor {
    var connected: bool
    var futures: map<TaskId, Future>
    var pending: map<TaskId, seq<string>>
    var streams: map<StreamId, Stream>
    var sentenceTasks: set<TaskId>
    var audioTasks: set<TaskId>
    var live2dTasks: set<TaskId>
    var controlTasks: set<TaskId>
    var completed: nat
    ghost var emitting: set<TaskId>
    ghost var awaiting: set<TaskId>
    ghost var returned: set<TaskId>

    ghost function Current(): State
      reads this
    {
      State(connected, futures, pending, streams, sentenceTasks, audioTasks, live2dTasks, controlTasks, completed,
            emitting, awaiting, returned)
    }

    constructor ()
      ensures Current() == INITIAL
    {
      connected, futures, pending, streams := false, map[], map[], map[];
      sentenceTasks, audioTasks, live2dTasks, controlTasks, completed := {}, {}, {}, {}, 0;
      emitting, awaiting, returned := {}, {}, {};
    }

    method OnConnect()
      modifies this
      ensures Current() == Step(old(Current()), Connect)
    {
      connected := true;
    }

    method OnClose()
      modifies this
      ensures Current() == Step(old(Current()), Close)
    {
      connected := false;
      futures := map t | t in futures :: if t in pending && futures[t] == Waiting then Failed else futures[t];
      pending, streams := map[], map[];
    }

    /** The first half of `process`. */
    method Begin(task: TaskId) returns (ok: bool)
      requires task !in futures
      modifies this
      ensures ok == old(connected)
      ensures Current() == if ok then Step(old(Current()), Submit(task)) else old(Current())
    {
      if !connected { return false; }
      futures, pending := futures[task := Waiting], pending[task := []];
      emitting := emitting + {task};
      ok := true;
    }

    ghost method EmitEnds(task: TaskId, ok: bool)
      requires task in emitting
      modifies `emitting, `awaiting
      ensures Current() == Step(old(Current()), if ok then Emitted(task) else EmitFailed(task))
    {
      emitting := emitting - {task};
      if ok { awaiting := awaiting + {task}; }
    }

    method Forget(task: TaskId)
      modifies `pending, `streams, `awaiting
      ensures Current() == ForgetTask(old(Current()), task)
    {
      pending := pending - {task};
      streams := map id | id in streams && streams[id].task != task :: streams[id];
      awaiting := awaiting - {task};
    }

    /** The second half of `process`, once its future is done: the reply, or `None` for the raised error. */
    method Finish(task: TaskId) returns (reply: Option<string>)
      requires Enabled(Current(), Resume(task))
      modifies this
      ensures Current() == Step(old(Current()), Resume(task))
      ensures reply == if old(futures)[task].Replied? then Some(old(futures)[task].text) else None
    {
      var outcome := futures[task];
      Forget(task);
      if !outcome.Replied? { return None; }
      completed := completed + 1;
      returned := returned + {task};
      reply := Some(outcome.text);
    }

    /** The second half of `process` when the wait times out. */
    method GiveUp(task: TaskId)
      requires Enabled(Current(), Timeout(task))
      modifies this
      ensures Current() == Step(old(Current()), Timeout(task))
    {
      futures := futures[task := Cancelled];
      Forget(task);
    }

    method MaybeComplete(task: TaskId)
      modifies `futures
      ensures Current() == CompleteIfDelivered(old(Current()), task)
    {
      if task in pending && task in futures {
        var delivered := task in sentenceTasks && task in audioTasks && task in live2dTasks && task in controlTasks;
        if delivered && futures[task] == Waiting { futures := futures[task := Replied(Join(pending[task]))]; }
      }
    }

    method OnSentence(task: TaskId, text: string)
      modifies this
      ensures Current() == Step(old(Current()), Sentence(task, text))
    {
      if task !in pending { return; }
      pending := pending[task := pending[task] + [text]];
      sentenceTasks := sentenceTasks + {task};
      MaybeComplete(task);
    }

    method OnAudio(task: TaskId)
      modifies this
      ensures Current() == Step(old(Current()), Audio(task))
    {
      if task in pending {
        audioTasks := audioTasks + {task};
        MaybeComplete(task);
      }
    }

    method OnAudioStreamStart(stream: StreamId, task: TaskId)
      modifies this
      ensures Current() == Step(old(Current()), StreamStart(stream, task))
    {
      if task !in pending || stream == "" { return; }
      streams := streams[stream := Stream(task, 0, 0, true)];
    }

    method OnAudioStreamChunk(stream: StreamId, task: TaskId, sequence: Option<int>, hasData: bool)
      modifies this
      ensures Current() == Step(old(Current()), StreamChunk(stream, task, sequence, hasData))
    {
      if stream !in streams || task != streams[stream].task { return; }
      var open := streams[stream];
      if sequence != Some(open.nextSequence) || !hasData {
        streams := streams[stream := open.(valid := false)];
        return;
      }
      streams := streams[stream := open.(nextSequence := open.nextSequence + 1, chunkCount := open.chunkCount + 1)];
    }

    method OnAudioStreamEnd(stream: StreamId, task: TaskId, completedStatus: bool, finalSequence: Option<int>)
      modifies this
      ensures Current() == Step(old(Current()), StreamEnd(stream, task, completedStatus, finalSequence))
    {
      var known := stream in streams;
      var open := if known then streams[stream] else Stream("", 0, 0, false);
      streams := streams - {stream};
      if !known || task != open.task { return; }
      var whole := completedStatus && open.valid && open.chunkCount > 0 && finalSequence == Some(open.nextSequence - 1);
      if whole && open.task in pending {
        audioTasks := audioTasks + {open.task};
        MaybeComplete(open.task);
      }
    }

    method OnLive2d(task: TaskId)
      modifies this
      ensures Current() == Step(old(Current()), Live2d(task))
    {
      if task in pending {
        live2dTasks := live2dTasks + {task};
        MaybeComplete(task);
      }
    }

    method OnControl(task: TaskId, conversationEnd: bool)
      modifies this
      ensures Current() == Step(old(Current()), Control(task, conversationEnd))
    {
      if !conversationEnd || task !in pending { return; }
      controlTasks := controlTasks + {task};
      MaybeComplete(task);
    }

    method OnError(task: TaskId)
      modifies this
      ensures Current() == Step(old(Current()), ErrorReport(task))
    {
      if task in pending && task in futures && futures[task] == Waiting { futures := futures[task := Failed]; }
    }

    /** `evidence`: in a state any interleaving can reach, completions never exceed deliveries. */
    method Evidence() returns (done: nat, sentences: nat, audio: nat, live2d: nat, control: nat)
      requires Inv(Current())
      ensures done == completed && sentences == |sentenceTasks| && audio == |audioTasks| && live2d == |live2dTasks|
              && control == |controlTasks|
      ensures done <= sentences && done <= audio && done <= live2d && done <= control
    {
      SubsetSize(returned, sentenceTasks);
      SubsetSize(returned, audioTasks);
      SubsetSize(returned, live2dTasks);
      SubsetSize(returned, controlTasks);
      return completed, |sentenceTasks|, |audioTasks|, |live2dTasks|, |controlTasks|;
    }
  }
}
