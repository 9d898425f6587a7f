/** What the delivery processor remembers, read off the interleaving itself: every part of the state is determined by
    which steps happened, and a task is replied to exactly when its fourth kind of delivery arrives. */
module SocketHistory {
  import opened Wrappers
  import opened Socket

  /** The state before step `n`. */
  function At(trace: seq<Event>, n: nat): State
    requires n <= |trace|
  {
    Run(trace[..n])
  }

  lemma AtStep(trace: seq<Event>, n: nat)
    requires n < |trace|
    ensures At(trace, n + 1) == Step(At(trace, n), trace[n])
  {
    hide Step;
    assert trace[..n + 1][..n] == trace[..n] && trace[..n + 1][n] == trace[n];
  }

  lemma {:induction false} AtPossible(trace: seq<Event>, n: nat)
    requires Possible(trace) && n <= |trace|
    ensures Possible(trace[..n]) && (n < |trace| ==> Enabled(At(trace, n), trace[n]))
    decreases |trace| - n
  {
    hide Enabled, Run;
    if n == |trace| {
      assert trace[..n] == trace;
    } else {
      AtPossible(trace, n + 1);
      assert trace[..n + 1][..n] == trace[..n] && trace[..n + 1][n] == trace[n];
    }
  }

  lemma AtStart(trace: seq<Event>)
    ensures At(trace, 0) == INITIAL
  {}

  /** Some step before `n` switched it on, and none after that switched it off. */
  ghost predicate On(n: nat, starts: nat -> bool, ends: nat -> bool) {
    exists k: nat :: k < n && starts(k) && forall j :: k < j < n ==> !ends(j)
  }

  lemma OnBefore(n: nat, starts: nat -> bool, ends: nat -> bool)
    requires On(n + 1, starts, ends) && !starts(n)
    ensures On(n, starts, ends) && !ends(n)
  {
    var k: nat :| k < n + 1 && starts(k) && forall j :: k < j < n + 1 ==> !ends(j);
    assert k < n < n + 1;
  }

  lemma OnStep(n: nat, starts: nat -> bool, ends: nat -> bool)
    ensures On(n + 1, starts, ends) <==> starts(n) || (On(n, starts, ends) && !ends(n))
  {
    if starts(n) {
      assert On(n + 1, starts, ends);
    } else if On(n, starts, ends) && !ends(n) {
      var k: nat :| k < n && starts(k) && forall j :: k < j < n ==> !ends(j);
      assert forall j :: k < j < n + 1 ==> !ends(j);
    }
    if On(n + 1, starts, ends) && !starts(n) { OnBefore(n, starts, ends); }
  }

  lemma OnStart(starts: nat -> bool, ends: nat -> bool)
    ensures !On(0, starts, ends)
  {}

  function IsStep(trace: seq<Event>, e: Event): nat -> bool {
    (k: nat) => k < |trace| && trace[k] == e
  }

  // ----- Connection and registration

  /** Connected since the last close. */
  lemma {:induction false} ConnectedExactly(trace: seq<Event>, n: nat)
    requires n <= |trace|
    ensures At(trace, n).connected <==> On(n, IsStep(trace, Connect), IsStep(trace, Close))
  {
    hide On, At;
    if n == 0 {
      AtStart(trace);
      OnStart(IsStep(trace, Connect), IsStep(trace, Close));
    } else {
      ConnectedExactly(trace, n - 1);
      AtStep(trace, n - 1);
      OnStep(n - 1, IsStep(trace, Connect), IsStep(trace, Close));
    }
  }

  /** A close, or the end of the task's own call. */
  predicate Unregisters(e: Event, t: TaskId) {
    e == Close || e == Resume(t) || e == Timeout(t)
  }

  function Unregistering(trace: seq<Event>, t: TaskId): nat -> bool {
    (k: nat) => k < |trace| && Unregisters(trace[k], t)
  }

  lemma PendingKey(s: State, e: Event, t: TaskId)
    ensures t in Step(s, e).pending <==> e == Submit(t) || (t in s.pending && !Unregisters(e, t))
  {}

  lemma FutureKey(s: State, e: Event, t: TaskId)
    ensures t in Step(s, e).futures <==> e == Submit(t) || e == Timeout(t) || t in s.futures
  {}

  lemma PendingKeys(s: State, e: Event, t: TaskId)
    ensures t in Step(s, e).pending <==> e == Submit(t) || (t in s.pending && !Unregisters(e, t))
    ensures t in Step(s, e).futures <==> e == Submit(t) || e == Timeout(t) || t in s.futures
  {
    hide Step;
    PendingKey(s, e, t);
    FutureKey(s, e, t);
  }

  /** A task is registered exactly since its submission, until a close or the end of its own call. */
  lemma {:induction false} PendingExactly(trace: seq<Event>, n: nat, t: TaskId)
    requires n <= |trace|
    ensures t in At(trace, n).pending <==> On(n, IsStep(trace, Submit(t)), Unregistering(trace, t))
  {
    hide On, At, Step, Unregisters;
    if n == 0 {
      AtStart(trace);
      OnStart(IsStep(trace, Submit(t)), Unregistering(trace, t));
    } else {
      PendingExactly(trace, n - 1, t);
      AtStep(trace, n - 1);
      PendingKeys(At(trace, n - 1), trace[n - 1], t);
      OnStep(n - 1, IsStep(trace, Submit(t)), Unregistering(trace, t));
    }
  }

  function Never(): nat -> bool {
    (k: nat) => false
  }

  /** A task has an outcome, be it only that it waits, exactly once it was submitted. */
  lemma {:induction false} SubmittedExactly(trace: seq<Event>, n: nat, t: TaskId)
    requires Possible(trace) && n <= |trace|
    ensures t in At(trace, n).futures <==> On(n, IsStep(trace, Submit(t)), Never())
  {
    hide On, At, Step;
    if n == 0 {
      AtStart(trace);
      OnStart(IsStep(trace, Submit(t)), Never());
    } else {
      SubmittedExactly(trace, n - 1, t);
      AtPossible(trace, n - 1);
      AtStep(trace, n - 1);
      PendingKeys(At(trace, n - 1), trace[n - 1], t);
      OnStep(n - 1, IsStep(trace, Submit(t)), Never());
    }
  }

  // ----- The four kinds of delivery

  /** Step `k` delivers a sentence, the whole audio, a live2d action or the end of the conversation to a task that is
      registered then. */
  predicate Sends(trace: seq<Event>, k: nat, t: TaskId, kind: Kind)
    requires k < |trace|
  {
    && t in At(trace, k).pending
    && match kind
       case Text => trace[k].Sentence? && trace[k].task == t
       case Sound => trace[k] == Audio(t) || (trace[k].StreamEnd? && trace[k].task == t && Credited(trace, k))
       case Motion => trace[k] == Live2d(t)
       case End => trace[k] == Control(t, true)
  }

  datatype Kind = Text | Sound | Motion | End

  /** The stream that ends at step `k` is open for its task, reports completion, and brought its chunks 0..n-1, n >= 1,
      each with data and the last one announced. */
  predicate Credited(trace: seq<Event>, k: nat)
    requires k < |trace| && trace[k].StreamEnd?
  {
    var e, chunks := trace[k], Chunks(trace[..k], trace[k].stream);
    && e.stream in At(trace, k).streams && At(trace, k).streams[e.stream].task == e.task
    && e.completedStatus && InOrder(chunks) && |chunks| >= 1 && e.finalSequence == Some(|chunks| - 1)
  }

  function Sending(trace: seq<Event>, t: TaskId, kind: Kind): nat -> bool {
    (k: nat) => k < |trace| && Sends(trace, k, t, kind)
  }

  function TasksOf(s: State, kind: Kind): set<TaskId> {
    match kind
    case Text => s.sentenceTasks
    case Sound => s.audioTasks
    case Motion => s.live2dTasks
    case End => s.controlTasks
  }

  lemma TextStep(s: State, e: Event, t: TaskId)
    ensures t in Step(s, e).sentenceTasks <==> t in s.sentenceTasks || (e.Sentence? && e.task == t && t in s.pending)
  {}

  lemma MotionStep(s: State, e: Event, t: TaskId)
    ensures t in Step(s, e).live2dTasks <==> t in s.live2dTasks || (e == Live2d(t) && t in s.pending)
  {}

  lemma EndStep(s: State, e: Event, t: TaskId)
    ensures t in Step(s, e).controlTasks <==> t in s.controlTasks || (e == Control(t, true) && t in s.pending)
  {}

  lemma SoundStep(s: State, e: Event, t: TaskId)
    ensures t in Step(s, e).audioTasks <==>
            t in s.audioTasks || (e == Audio(t) && t in s.pending)
            || (e.StreamEnd? && e.task == t && CreditsAudio(s, e))
  {}

  lemma TasksStep(s: State, e: Event, t: TaskId)
    ensures t in Step(s, e).sentenceTasks <==> t in s.sentenceTasks || (e.Sentence? && e.task == t && t in s.pending)
    ensures t in Step(s, e).live2dTasks <==> t in s.live2dTasks || (e == Live2d(t) && t in s.pending)
    ensures t in Step(s, e).controlTasks <==> t in s.controlTasks || (e == Control(t, true) && t in s.pending)
    ensures t in Step(s, e).audioTasks <==>
            t in s.audioTasks || (e == Audio(t) && t in s.pending)
            || (e.StreamEnd? && e.task == t && CreditsAudio(s, e))
  {
    hide Step, CreditsAudio;
    TextStep(s, e, t);
    MotionStep(s, e, t);
    EndStep(s, e, t);
    SoundStep(s, e, t);
  }

  lemma SendsStep(trace: seq<Event>, n: nat, t: TaskId, kind: Kind)
    requires n < |trace|
    ensures t in TasksOf(At(trace, n + 1), kind) <==> t in TasksOf(At(trace, n), kind) || Sends(trace, n, t, kind)
  {
    hide Step, CreditsAudio, InOrder, Chunks;
    AtStep(trace, n);
    TasksStep(At(trace, n), trace[n], t);
    if trace[n].StreamEnd? { CreditExactly(trace[..n], trace[n]); }
  }

  /** A task is in the set of a kind exactly once that kind was delivered to it. */
  lemma {:induction false} DeliveredExactly(trace: seq<Event>, n: nat, t: TaskId, kind: Kind)
    requires n <= |trace|
    ensures t in TasksOf(At(trace, n), kind) <==> On(n, Sending(trace, t, kind), Never())
  {
    hide On, At, Step, Sends;
    if n == 0 {
      AtStart(trace);
      OnStart(Sending(trace, t, kind), Never());
    } else {
      DeliveredExactly(trace, n - 1, t, kind);
      SendsStep(trace, n - 1, t, kind);
      OnStep(n - 1, Sending(trace, t, kind), Never());
    }
  }

  // ----- Streams

  predicate Opens(trace: seq<Event>, k: nat, id: StreamId, t: TaskId)
    requires k < |trace|
  {
    trace[k] == StreamStart(id, t) && id != "" && t in At(trace, k).pending
  }

  /** A stream ends, goes with its task, or is started anew for another one. */
  predicate Shuts(trace: seq<Event>, k: nat, id: StreamId, t: TaskId)
    requires k < |trace|
  {
    || (trace[k].StreamEnd? && trace[k].stream == id) || Unregisters(trace[k], t)
    || (trace[k].StreamStart? && Opens(trace, k, id, trace[k].task))
  }

  function Opening(trace: seq<Event>, id: StreamId, t: TaskId): nat -> bool {
    (k: nat) => k < |trace| && Opens(trace, k, id, t)
  }

  function Shutting(trace: seq<Event>, id: StreamId, t: TaskId): nat -> bool {
    (k: nat) => k < |trace| && Shuts(trace, k, id, t)
  }

  predicate OpenFor(s: State, id: StreamId, t: TaskId) {
    id in s.streams && s.streams[id].task == t
  }

  lemma OpenStep(s: State, e: Event, id: StreamId, t: TaskId)
    ensures OpenFor(Step(s, e), id, t) <==>
            || (e == StreamStart(id, t) && id != "" && t in s.pending)
            || (OpenFor(s, id, t) && !(e.StreamEnd? && e.stream == id) && !Unregisters(e, t)
                && !(e.StreamStart? && e.stream == id && id != "" && e.task in s.pending))
  {}

  /** A stream is open for a task exactly since it was last started for it. */
  lemma {:induction false} StreamsExactly(trace: seq<Event>, n: nat, id: StreamId, t: TaskId)
    requires n <= |trace|
    ensures OpenFor(At(trace, n), id, t) <==> On(n, Opening(trace, id, t), Shutting(trace, id, t))
  {
    hide On, At, Step, Unregisters;
    if n == 0 {
      AtStart(trace);
      OnStart(Opening(trace, id, t), Shutting(trace, id, t));
    } else {
      StreamsExactly(trace, n - 1, id, t);
      AtStep(trace, n - 1);
      OpenStep(At(trace, n - 1), trace[n - 1], id, t);
      OnStep(n - 1, Opening(trace, id, t), Shutting(trace, id, t));
    }
  }

  // ----- Outcomes

  /** The task was delivered a sentence, audio, live2d and the end. */
  predicate FullyDelivered(s: State, t: TaskId) {
    t in s.sentenceTasks && t in s.audioTasks && t in s.live2dTasks && t in s.controlTasks
  }

  /** A registered task that waits although everything has arrived. */
  predicate Overdue(s: State, t: TaskId) {
    t in s.pending && t in s.futures && s.futures[t] == Waiting && FullyDelivered(s, t)
  }

  lemma OverdueStep(s: State, e: Event, t: TaskId)
    requires !Overdue(s, t) && Inv(s) && Enabled(s, e)
    requires e == Submit(t) ==> !FullyDelivered(s, t)
    ensures !Overdue(Step(s, e), t)
  {}

  lemma UnsubmittedStep(s: State, e: Event, t: TaskId, kind: Kind)
    requires Inv(s) && t !in Step(s, e).futures
    ensures t !in s.futures && (t !in TasksOf(s, kind) ==> t !in TasksOf(Step(s, e), kind))
  {
    PendingKeys(s, e, t);
    TasksStep(s, e, t);
    hide Step;
  }

  /** A task that was never submitted has no deliveries. */
  lemma {:induction false} DeliveredWasSubmitted(trace: seq<Event>, n: nat, t: TaskId, kind: Kind)
    requires Possible(trace) && n <= |trace| && t !in At(trace, n).futures
    ensures t !in TasksOf(At(trace, n), kind)
  {
    hide At, Step, Inv, Enabled;
    if n == 0 {
      AtStart(trace);
    } else {
      AtStep(trace, n - 1);
      AtInv(trace, n - 1);
      UnsubmittedStep(At(trace, n - 1), trace[n - 1], t, kind);
      DeliveredWasSubmitted(trace, n - 1, t, kind);
    }
  }

  /** Main result: in no interleaving does a registered task wait once its four kinds of delivery have arrived. */
  lemma {:induction false} NeverOverdue(trace: seq<Event>, n: nat, t: TaskId)
    requires Possible(trace) && n <= |trace|
    ensures !Overdue(At(trace, n), t)
  {
    hide At, Step, Overdue, Inv, Enabled, TasksOf;
    if n == 0 {
      AtStart(trace);
      NothingOverdue(t);
    } else {
      NeverOverdue(trace, n - 1, t);
      AtPossible(trace, n - 1);
      AtInv(trace, n - 1);
      AtStep(trace, n - 1);
      if trace[n - 1] == Submit(t) {
        FreshSubmit(At(trace, n - 1), t);
        DeliveredWasSubmitted(trace, n - 1, t, Text);
        NotDelivered(At(trace, n - 1), t);
      }
      OverdueStep(At(trace, n - 1), trace[n - 1], t);
    }
  }

  lemma NothingOverdue(t: TaskId)
    ensures !Overdue(INITIAL, t)
  {}

  lemma AtInv(trace: seq<Event>, n: nat)
    requires Possible(trace) && n <= |trace|
    ensures Inv(At(trace, n))
  {
    hide Inv, Run;
    AtPossible(trace, n);
    RunKeepsInv(trace[..n]);
  }

  lemma FreshSubmit(s: State, t: TaskId)
    requires Enabled(s, Submit(t))
    ensures t !in s.futures
  {}

  lemma NotDelivered(s: State, t: TaskId)
    requires t !in TasksOf(s, Text)
    ensures !FullyDelivered(s, t)
  {}

  /** The steps that may bring the last kind. */
  lemma OutcomeOfDelivery(s: State, e: Event, t: TaskId)
    requires t in s.futures && s.futures[t] == Waiting && !Overdue(s, t)
    requires e.Sentence? || e.Audio? || e.Live2d? || e.Control? || e.StreamEnd?
    ensures var next := Step(s, e);
            && t in next.futures
            && next.futures[t] ==
               if t in s.pending && FullyDelivered(next, t) then Replied(Join(next.pending[t])) else Waiting
  {
    hide Join;
  }

  /** The other steps. */
  lemma OutcomeOfCall(s: State, e: Event, t: TaskId)
    requires Enabled(s, e) && t in s.futures && s.futures[t] == Waiting && !Overdue(s, t)
    requires !(e.Sentence? || e.Audio? || e.Live2d? || e.Control? || e.StreamEnd?)
    ensures var next := Step(s, e);
            && t in next.futures && (FullyDelivered(next, t) <==> FullyDelivered(s, t))
            && next.futures[t] ==
               if e == Timeout(t) then Cancelled
               else if (e == Close || e == ErrorReport(t)) && t in s.pending then Failed
               else Waiting
  {}

  /** What a step makes of a task that waits. */
  lemma OutcomeStep(s: State, e: Event, t: TaskId)
    requires Enabled(s, e) && t in s.futures && s.futures[t] == Waiting && !Overdue(s, t)
    ensures var next := Step(s, e);
            && t in next.futures
            && next.futures[t] ==
               if e == Timeout(t) then Cancelled
               else if (e == Close || e == ErrorReport(t)) && t in s.pending then Failed
               else if t in s.pending && FullyDelivered(next, t) then Replied(Join(next.pending[t]))
               else Waiting
  {
    hide Step, Enabled, FullyDelivered;
    if e.Sentence? || e.Audio? || e.Live2d? || e.Control? || e.StreamEnd? {
      OutcomeOfDelivery(s, e, t);
    } else {
      OutcomeOfCall(s, e, t);
    }
  }

  /** Main result: a waiting task is replied to by exactly the step that completes its four kinds of delivery, with
      the sentences that have arrived by then, in order; it is cancelled by its timeout, failed by an error report or
      a close, and nothing else changes its outcome. */
  lemma OutcomeExactly(trace: seq<Event>, n: nat, t: TaskId)
    requires Possible(trace) && n < |trace|
    requires t in At(trace, n).futures && At(trace, n).futures[t] == Waiting
    ensures var s, next, e := At(trace, n), At(trace, n + 1), trace[n];
            && t in next.futures
            && next.futures[t] ==
               if e == Timeout(t) then Cancelled
               else if (e == Close || e == ErrorReport(t)) && t in s.pending then Failed
               else if t in s.pending && FullyDelivered(next, t) then Replied(Join(Sentences(trace[..n + 1], t)))
               else Waiting
  {
    hide At, Step, Inv, Enabled, Overdue, Sentences, FullyDelivered;
    AtPossible(trace, n);
    AtPossible(trace, n + 1);
    AtInv(trace, n);
    AtStep(trace, n);
    NeverOverdue(trace, n, t);
    OutcomeStep(At(trace, n), trace[n], t);
    PendingKeys(At(trace, n), trace[n], t);
    NotResumed(At(trace, n), trace[n], t);
    if t in At(trace, n + 1).pending { SentencesAt(trace, n + 1, t); }
  }

  lemma NotResumed(s: State, e: Event, t: TaskId)
    requires Enabled(s, e) && t in s.futures && s.futures[t] == Waiting
    ensures e != Resume(t)
  {}

  lemma SentencesAt(trace: seq<Event>, n: nat, t: TaskId)
    requires n <= |trace| && Possible(trace[..n]) && t in At(trace, n).pending
    ensures At(trace, n).pending[t] == Sentences(trace[..n], t)
  {
    hide Step, Enabled;
    PendingSentences(trace[..n], t);
  }

  // ----- Completions

  predicate Returns(trace: seq<Event>, k: nat)
    requires k < |trace|
  {
    && trace[k].Resume? && trace[k].task in At(trace, k).futures && At(trace, k).futures[trace[k].task].Replied?
  }

  ghost function ReturnsBefore(trace: seq<Event>, n: nat): set<nat>
    requires n <= |trace|
  {
    set k: nat | k < n && Returns(trace, k)
  }

  lemma CompletedStep(s: State, e: Event)
    ensures Step(s, e).completed
            == s.completed + if e.Resume? && e.task in s.futures && s.futures[e.task].Replied? then 1 else 0
  {}

  /** The completed count is the number of calls that returned a reply. */
  lemma {:induction false} CompletedExactly(trace: seq<Event>, n: nat)
    requires n <= |trace|
    ensures At(trace, n).completed == |ReturnsBefore(trace, n)|
  {
    hide At;
    if n == 0 {
      AtStart(trace);
      assert ReturnsBefore(trace, n) == {};
    } else {
      CompletedExactly(trace, n - 1);
      AtStep(trace, n - 1);
      CompletedStep(At(trace, n - 1), trace[n - 1]);
      hide Step;
      assert ReturnsBefore(trace, n)
             == ReturnsBefore(trace, n - 1) + if Returns(trace, n - 1) then {n - 1} else {};
    }
  }
}
