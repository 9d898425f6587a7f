/** The three passes of `BalancedCleaner.clean`, and the decision cache on disk. */
module CleaningRun {
  import opened Wrappers
  import opened Sorting
  import opened Distinct
  import opened Events
  import opened Semantic
  import opened Enrichment
  import opened Cleaning
  import opened CleaningPromise

  /** The model side of a run: the cache lookup, and what each numbered batch returns or raises. */
  datatype Model = Model(cached: Event -> Option<Decision>, process: (nat, seq<Request>) -> Option<seq<Decision>>)

  // ----- Requests

  function ContextOf(e: Event): Context {
    Context(e.sequence, e.offsetMs, e.text)
  }

  /** Up to three neighbours on each side, replyable and inside the context window. */
  function RequestAt(events: seq<Event>, rules: CleanRules, i: nat): Request
    requires i < |events|
  {
    var e := events[i];
    var near := events[(if i < 3 then 0 else i - 3)..i];
    var far := events[i + 1..if i + 4 <= |events| then i + 4 else |events|];
    Request(e.sequence, e.text,
            Map(ContextOf,
                Filter((c: Event) => Replyable(c) && e.offsetMs - c.offsetMs <= rules.contextWindowMs, near)),
            Map(ContextOf, Filter((c: Event) => Replyable(c) && c.offsetMs - e.offsetMs <= rules.contextWindowMs, far)))
  }

  /** The asked events that the cache does not answer, in stream order. */
  function Requests(events: seq<Event>, rules: CleanRules, model: Model, n: nat): seq<Request>
    requires n <= |events|
  {
    if n == 0 then []
    else
      var front := Requests(events, rules, model, n - 1);
      if VerdictOn(events, rules, n - 1).Ask? && model.cached(events[n - 1]).None?
          then front + [RequestAt(events, rules, n - 1)]
      else front
  }

  // ----- The deterministic pass

  /** What the pass remembers after the first `n` events. */
  ghost predicate Remembers(events: seq<Event>, rules: CleanRules, n: nat, keptCopypasta: set<string>,
                            lastKept: map<(ActorId, string), int>)
    requires n <= |events|
  {
    && (forall key :: key in keptCopypasta <==> Copypasta(events, rules, key) && SeenClean(events, rules, n, key))
    && (forall actor, key :: (actor, key) in lastKept <==> LastKept(events, rules, n, actor, key).Some?)
    && (forall actor, key :: (actor, key) in lastKept ==>
          lastKept[(actor, key)] == events[LastKept(events, rules, n, actor, key).value].offsetMs)
  }

  method CountLongTexts(events: seq<Event>, rules: CleanRules) returns (counts: map<string, nat>)
    ensures forall key :: (key in counts && counts[key] >= MIN_COPYPASTA_REPEATS) <==> Copypasta(events, rules, key)
  {
    counts := map[];
    for n := 0 to |events|
      invariant forall key :: (if key in counts then counts[key] else 0) ==
                              if |key| >= MIN_COPYPASTA_LENGTH then Repeats(events, rules, n, key) else 0
    {
      var key := CountKey(events[n], rules);
      if Replyable(events[n]) && |key| >= MIN_COPYPASTA_LENGTH {
        counts := counts[key := (if key in counts then counts[key] else 0) + 1];
      }
    }
    forall key ensures (key in counts && counts[key] >= MIN_COPYPASTA_REPEATS) <==> Copypasta(events, rules, key) {
      assert (if key in counts then counts[key] else 0) == if |key| >= MIN_COPYPASTA_LENGTH
          then Repeats(events, rules, |events|, key) else 0;
    }
  }

  /** The reason chain for one replyable event, with the two dictionaries. */
  method FindDropReason(events: seq<Event>, rules: CleanRules, i: nat, counts: map<string, nat>,
                        keptCopypasta: set<string>, lastKept: map<(ActorId, string), int>)
    returns (reason: Option<string>, seen: set<string>)
    requires i < |events| && Replyable(events[i]) && Remembers(events, rules, i, keptCopypasta, lastKept)
    requires forall key :: (key in counts && counts[key] >= MIN_COPYPASTA_REPEATS) <==> Copypasta(events, rules, key)
    ensures reason == DropReason(events, rules, i)
    ensures forall key :: key in seen <==> Copypasta(events, rules, key) && SeenClean(events, rules, i + 1, key)
  {
    hide Copypasta;
    var e := events[i];
    var key := Key(e, rules);
    reason := rules.dropReason(rules.strip(e.text));
    seen := keptCopypasta;
    if reason.None? && key in counts && counts[key] >= MIN_COPYPASTA_REPEATS {
      if key in keptCopypasta { reason := Some("copypasta"); } else { seen := seen + {key}; }
    }
    if reason.None? && (e.actorId, key) in lastKept
        && e.offsetMs - lastKept[(e.actorId, key)] <= rules.duplicateWindowMs {
      reason := Some("same_actor_duplicate");
    }
  }

  datatype FirstPass = FirstPass(kept: seq<Item>, drops: seq<DropRecord>, requests: seq<Request>, asked: seq<int>,
                                 decisions: map<int, Decision>)

  ghost predicate FromCache(events: seq<Event>, model: Model, decisions: map<int, Decision>) {
    forall s :: s in decisions ==> exists e :: e in events && e.sequence == s && model.cached(e) == Some(decisions[s])
  }

  ghost predicate PassDone(events: seq<Event>, rules: CleanRules, model: Model, n: nat, r: FirstPass)
    requires n <= |events|
  {
    && r.kept == Items(events, rules, map[], {}, n)
    && r.drops == Drops(events, rules, map[], {}, n)
    && r.requests == Requests(events, rules, model, n)
    && r.asked == AskedInOrder(events, rules, n)
    && FromCache(events, model, r.decisions) && CachedUpTo(events, rules, model, n, r.decisions)
  }

  /** A cached decision is taken for exactly the asked events that have one. */
  ghost predicate CachedUpTo(events: seq<Event>, rules: CleanRules, model: Model, n: nat, decisions: map<int, Decision>)
    requires n <= |events|
  {
    forall s :: s in decisions <==> CachedOn(events, rules, model, n, s)
  }

  ghost predicate CachedOn(events: seq<Event>, rules: CleanRules, model: Model, n: nat, s: int)
    requires n <= |events|
  {
    exists i :: 0 <= i < n && events[i].sequence == s && VerdictOn(events, rules, i).Ask?
                && model.cached(events[i]).Some?
  }

  lemma CachedStep(events: seq<Event>, rules: CleanRules, model: Model, n: nat, s: int)
    requires n < |events|
    ensures CachedOn(events, rules, model, n + 1, s) <==>
            || CachedOn(events, rules, model, n, s)
            || (events[n].sequence == s && VerdictOn(events, rules, n).Ask? && model.cached(events[n]).Some?)
  {
    hide VerdictOn;
  }

  /** The asked sequences in stream order: the elements of the set the code keeps. */
  function AskedInOrder(events: seq<Event>, rules: CleanRules, n: nat): seq<int>
    requires n <= |events|
  {
    if n == 0 then []
    else
      var front := AskedInOrder(events, rules, n - 1);
      if VerdictOn(events, rules, n - 1).Ask? then front + [events[n - 1].sequence] else front
  }

  lemma {:induction false} AskedListed(events: seq<Event>, rules: CleanRules, n: nat)
    requires DistinctSequences(events) && n <= |events|
    ensures forall s :: s in AskedInOrder(events, rules, n) <==>
              exists i :: 0 <= i < n && events[i].sequence == s && VerdictOn(events, rules, i).Ask?
    ensures NoRepeats(AskedInOrder(events, rules, n))
  {
    hide VerdictOn;
    if n > 0 {
      AskedListed(events, rules, n - 1);
      var front := AskedInOrder(events, rules, n - 1);
      forall k | 0 <= k < |front| ensures front[k] != events[n - 1].sequence {
        assert front[k] in front;
        var i :| 0 <= i < n - 1 && events[i].sequence == front[k] && VerdictOn(events, rules, i).Ask?;
      }
    }
  }

  /** The first loop: keep, drop or ask, with a cached decision taken at once. */
  method DeterministicPass(events: seq<Event>, rules: CleanRules, model: Model) returns (r: FirstPass)
    ensures PassDone(events, rules, model, |events|, r)
  {
    hide Copypasta, RequestAt, DropReason, CachedUpTo;
    NothingCached(events, rules, model);
    var counts := CountLongTexts(events, rules);
    var keptCopypasta: set<string> := {};
    var lastKept: map<(ActorId, string), int> := map[];
    r := FirstPass([], [], [], [], map[]);
    for i := 0 to |events|
      invariant Remembers(events, rules, i, keptCopypasta, lastKept)
      invariant PassDone(events, rules, model, i, r)
    {
      var e := events[i];
      ghost var before := r.decisions;
      if !Replyable(e) {
        r := r.(kept := r.kept + [Item(e, e.text, "non_replyable")]);
      } else {
        var text, key := rules.strip(e.text), (e.actorId, Key(e, rules));
        var reason, seen := FindDropReason(events, rules, i, counts, keptCopypasta, lastKept);
        keptCopypasta := seen;
        if reason.Some? {
          r := r.(drops := r.drops + [RecordOf(e, rules, reason.value)]);
        } else {
          lastKept := lastKept[key := e.offsetMs];
          var intent := rules.inferIntent(text);
          if rules.language.isChinese(text) && intent.Some? {
            r := r.(kept := r.kept + [Item(e, text, intent.value)]);
          } else {
            r := TakeAsked(events, rules, model, i, r);
          }
        }
      }
      CachedNext(events, rules, model, i, before, r.decisions);
    }
  }

  lemma CachedNext(events: seq<Event>, rules: CleanRules, model: Model, i: nat, before: map<int, Decision>,
                   after: map<int, Decision>)
    requires i < |events| && CachedUpTo(events, rules, model, i, before)
    requires if VerdictOn(events, rules, i).Ask? then
               forall s :: s in after <==> s in before || (events[i].sequence == s && model.cached(events[i]).Some?)
             else after == before
    ensures CachedUpTo(events, rules, model, i + 1, after)
  {
    hide VerdictOn, CachedOn;
    forall s
      ensures CachedOn(events, rules, model, i + 1, s) <==>
              || CachedOn(events, rules, model, i, s)
              || (events[i].sequence == s && VerdictOn(events, rules, i).Ask? && model.cached(events[i]).Some?)
    {
      CachedStep(events, rules, model, i, s);
    }
  }

  lemma NothingCached(events: seq<Event>, rules: CleanRules, model: Model)
    ensures CachedUpTo(events, rules, model, 0, map[])
  {}

  /** The last branch of the first loop: remember the sequence, use the cache or build a request. */
  method TakeAsked(events: seq<Event>, rules: CleanRules, model: Model, i: nat, before: FirstPass)
      returns (r: FirstPass)
    requires i < |events| && VerdictOn(events, rules, i).Ask? && FromCache(events, model, before.decisions)
    ensures FromCache(events, model, r.decisions)
    ensures r.kept == before.kept && r.drops == before.drops && r.asked == before.asked + [events[i].sequence]
    ensures r.requests == if model.cached(events[i]).None? then before.requests + [RequestAt(events, rules, i)]
            else before.requests
    ensures forall s :: s in r.decisions <==>
              s in before.decisions || (events[i].sequence == s && model.cached(events[i]).Some?)
  {
    var e := events[i];
    r := before.(asked := before.asked + [e.sequence]);
    var cached := model.cached(e);
    if cached.Some? {
      r := r.(decisions := r.decisions[e.sequence := cached.value]);
    } else {
      r := r.(requests := r.requests + [RequestAt(events, rules, i)]);
    }
  }

  // ----- The model pass

  /** The requests of one batch. */
  function BatchFrom(requests: seq<Request>, start: nat, size: nat): (r: seq<Request>)
    requires start <= |requests|
    ensures |r| == if start + size <= |requests| then size else |requests| - start
    ensures forall i :: 0 <= i < |r| ==> r[i] == requests[start + i]
  {
    if start + size <= |requests| then requests[start..start + size] else requests[start..]
  }

  /** Some batch of the requests was answered with this decision. */
  ghost predicate Answered(model: Model, requests: seq<Request>, size: int, d: Decision) {
    exists batch: nat, start: nat :: AnsweredIn(model, requests, size, batch, start, d)
  }

  predicate AnsweredIn(model: Model, requests: seq<Request>, size: int, batch: nat, start: nat, d: Decision) {
    && size > 0 && start < |requests| && start == batch * size
    && var results := model.process(batch, BatchFrom(requests, start, size));
       results.Some? && d in results.value
  }

  /** Every decision in use was cached for its event, or names its own sequence and was in the answer to a batch. */
  ghost predicate Attributed(events: seq<Event>, model: Model, requests: seq<Request>, size: int,
                             decisions: map<int, Decision>) {
    forall s :: s in decisions ==>
      || (decisions[s].sequence == s && Answered(model, requests, size, decisions[s]))
      || exists e :: e in events && e.sequence == s && model.cached(e) == Some(decisions[s])
  }

  lemma AttributedStep(events: seq<Event>, model: Model, requests: seq<Request>, size: int,
                       decisions: map<int, Decision>, d: Decision)
    requires Attributed(events, model, requests, size, decisions) && Answered(model, requests, size, d)
    ensures Attributed(events, model, requests, size, decisions[d.sequence := d])
  {
    hide Answered;
  }

  /** Batch `b` of the requests. */
  function BatchAt(requests: seq<Request>, size: nat, b: nat): seq<Request> {
    if b * size <= |requests| then BatchFrom(requests, b * size, size) else []
  }

  /** Some batch was not answered. */
  ghost predicate Unanswered(model: Model, requests: seq<Request>, size: int) {
    size > 0 && exists b: nat :: b * size < |requests| && model.process(b, BatchAt(requests, size, b)).None?
  }

  /** What every batch was answered with. */
  ghost predicate AllAnswers(model: Model, requests: seq<Request>, size: int, answers: seq<seq<Decision>>) {
    && (if size <= 0 || requests == [] then answers == []
        else answers != [] && (|answers| - 1) * size < |requests| <= |answers| * size)
    && (size > 0 ==>
          forall b :: 0 <= b < |answers| ==> model.process(b, BatchAt(requests, size, b)) == Some(answers[b]))
  }

  /** The last decision in the list on a sequence. */
  predicate LastOn(all: seq<Decision>, k: nat, s: int) {
    k < |all| && all[k].sequence == s && forall j :: k < j < |all| ==> all[j].sequence != s
  }

  predicate Named(all: seq<Decision>, s: int) {
    exists d :: d in all && d.sequence == s
  }

  /** The last answered decision on a sequence, otherwise the cached one. */
  ghost predicate RightDecisions(cached: map<int, Decision>, all: seq<Decision>, decisions: map<int, Decision>) {
    && (forall s :: s in decisions <==> s in cached || Named(all, s))
    && (forall s, k: nat :: s in decisions && LastOn(all, k, s) ==> decisions[s] == all[k])
    && (forall s :: s in decisions && !Named(all, s) ==> decisions[s] == cached[s])
  }

  lemma NamedStep(all: seq<Decision>, d: Decision, s: int)
    ensures Named(all + [d], s) <==> Named(all, s) || d.sequence == s
  {
    var more := all + [d];
    assert more[|all|] == d;
    if x :| x in all && x.sequence == s { assert x in more; }
  }

  lemma LastStep(all: seq<Decision>, d: Decision, s: int, k: nat)
    ensures LastOn(all + [d], k, s) <==> if d.sequence == s then k == |all| else LastOn(all, k, s)
  {
    var more := all + [d];
    assert more[|all|] == d;
    assert forall j :: 0 <= j < |all| ==> more[j] == all[j];
  }

  lemma DecisionsStep(cached: map<int, Decision>, all: seq<Decision>, decisions: map<int, Decision>, d: Decision)
    requires RightDecisions(cached, all, decisions)
    ensures RightDecisions(cached, all + [d], decisions[d.sequence := d])
  {
    forall s ensures Named(all + [d], s) <==> Named(all, s) || d.sequence == s { NamedStep(all, d, s); }
    forall s, k: nat ensures LastOn(all + [d], k, s) <==> if d.sequence == s then k == |all| else LastOn(all, k, s) {
      LastStep(all, d, s, k);
    }
    hide Named;
  }

  /** The batches, in order, and the dictionary their decisions fill. */
  method ModelPass(events: seq<Event>, rules: CleanRules, model: Model, requests: seq<Request>,
                   cached: map<int, Decision>)
    returns (r: Option<map<int, Decision>>)
    requires rules.batchSize != 0 && FromCache(events, model, cached)
    ensures r.Some? ==> Attributed(events, model, requests, rules.batchSize, r.value)
    ensures r.None? <==> Unanswered(model, requests, rules.batchSize)
    ensures r.Some? ==> exists answers :: AllAnswers(model, requests, rules.batchSize, answers)
                                          && RightDecisions(cached, Flat(answers), r.value)
  {
    hide Answered, Attributed, RightDecisions, Flat, BatchFrom;
    var decisions := cached;
    var start, batch := 0, 0;
    ghost var answers: seq<seq<Decision>> := [];
    CachedAttributed(events, model, requests, rules.batchSize, cached);
    NothingAnswered(cached);
    while rules.batchSize > 0 && start < |requests|
      invariant start >= 0 && batch >= 0 && start == batch * rules.batchSize && |answers| == batch
      invariant rules.batchSize > 0 && batch > 0 ==> (batch - 1) * rules.batchSize < |requests|
      invariant rules.batchSize > 0 ==> forall b :: 0 <= b < batch ==>
                  model.process(b, BatchAt(requests, rules.batchSize, b)) == Some(answers[b])
      invariant Attributed(events, model, requests, rules.batchSize, decisions)
      invariant RightDecisions(cached, Flat(answers), decisions)
      decreases |requests| - start
    {
      var results := model.process(batch, BatchFrom(requests, start, rules.batchSize));
      assert BatchAt(requests, rules.batchSize, batch) == BatchFrom(requests, start, rules.batchSize);
      if results.None? { return None; }
      assert Flat(answers) + results.value[..0] == Flat(answers);
      for k := 0 to |results.value|
        invariant Attributed(events, model, requests, rules.batchSize, decisions)
        invariant RightDecisions(cached, Flat(answers) + results.value[..k], decisions)
      {
        var d := results.value[k];
        BatchAnswers(model, requests, rules.batchSize, batch, start, d);
        AttributedStep(events, model, requests, rules.batchSize, decisions, d);
        DecisionsStep(cached, Flat(answers) + results.value[..k], decisions, d);
        assert Flat(answers) + results.value[..k] + [d] == Flat(answers) + results.value[..k + 1];
        decisions := decisions[d.sequence := d];
      }
      FlatStep(answers, results.value);
      assert results.value[..|results.value|] == results.value;
      answers := answers + [results.value];
      start, batch := start + rules.batchSize, batch + 1;
    }
    AllWereAnswered(model, requests, rules.batchSize, answers, batch);
    r := Some(decisions);
  }

  lemma NothingAnswered(cached: map<int, Decision>)
    ensures RightDecisions(cached, Flat([]), cached)
  {
    assert Flat<Decision>([]) == [];
  }

  lemma AllWereAnswered(model: Model, requests: seq<Request>, size: int, answers: seq<seq<Decision>>, batch: nat)
    requires size <= 0 || batch * size >= |requests|
    requires |answers| == batch && (size <= 0 ==> batch == 0)
    requires size > 0 && batch > 0 ==> (batch - 1) * size < |requests|
    requires size > 0 ==> forall b :: 0 <= b < batch ==>
               model.process(b, BatchAt(requests, size, b)) == Some(answers[b])
    ensures AllAnswers(model, requests, size, answers) && !Unanswered(model, requests, size)
  {
    if size > 0 {
      forall b: nat | b * size < |requests| ensures b < batch {
        if b >= batch { TimesMonotone(batch, b, size); }
      }
    }
  }

  lemma TimesMonotone(a: nat, b: nat, n: nat)
    requires a <= b
    ensures a * n <= b * n
  {}

  lemma CachedAttributed(events: seq<Event>, model: Model, requests: seq<Request>, size: int,
                         decisions: map<int, Decision>)
    requires FromCache(events, model, decisions)
    ensures Attributed(events, model, requests, size, decisions)
  {}

  lemma BatchAnswers(model: Model, requests: seq<Request>, size: int, batch: nat, start: nat, d: Decision)
    requires AnsweredIn(model, requests, size, batch, start, d)
    ensures Answered(model, requests, size, d)
  {}

  // ----- The settling pass

  /** With nothing decided yet, the decisions themselves do not matter. */
  lemma {:induction false} NothingDone(events: seq<Event>, rules: CleanRules, decisions: map<int, Decision>, n: nat)
    requires n <= |events|
    ensures Items(events, rules, decisions, {}, n) == Items(events, rules, map[], {}, n)
    ensures Drops(events, rules, decisions, {}, n) == Drops(events, rules, map[], {}, n)
    ensures TranslatedCount(events, rules, decisions, {}, n) == 0
  {
    hide VerdictOn;
    if n > 0 { NothingDone(events, rules, decisions, n - 1); }
  }

  ghost predicate MovedBy(events: seq<Event>, rules: CleanRules, decisions: map<int, Decision>, done: set<int>, k: nat,
                          n: nat)
    requires k < |events| && n <= |events|
  {
    var after := done + {events[k].sequence};
    var v := Settled(events, rules, decisions, after, k);
    && multiset(Items(events, rules, decisions, after, n))
       == multiset(Items(events, rules, decisions, done, n)) + (if k < n && v.Keep?
                                                                then multiset{Item(events[k], v.text, v.intent)}
                                                                else multiset{})
    && multiset(Drops(events, rules, decisions, after, n))
       == multiset(Drops(events, rules, decisions, done, n)) + (if k < n && v.Discard?
                                                                then multiset{RecordOf(events[k], rules, v.reason)}
                                                                else multiset{})
    && TranslatedCount(events, rules, decisions, after, n)
       == TranslatedCount(events, rules, decisions, done, n)
           + (if k < n && Translated(events, rules, decisions, after, k) then 1 else 0)
  }

  /** Deciding one more sequence moves exactly its event. */
  lemma {:induction false} DoneStep(events: seq<Event>, rules: CleanRules, decisions: map<int, Decision>,
                                    done: set<int>, k: nat, n: nat)
    requires DistinctSequences(events) && k < |events| && n <= |events|
    requires VerdictOn(events, rules, k).Ask? && events[k].sequence in decisions && events[k].sequence !in done
    ensures MovedBy(events, rules, decisions, done, k, n)
  {
    hide MovedBy, VerdictOn;
    if n == 0 {
      NothingMoved(events, rules, decisions, done, k);
    } else {
      DoneStep(events, rules, decisions, done, k, n - 1);
      if n - 1 == k {
        MovedHere(events, rules, decisions, done, k);
      } else {
        MovedElsewhere(events, rules, decisions, done, k, n - 1);
      }
    }
  }

  lemma NothingMoved(events: seq<Event>, rules: CleanRules, decisions: map<int, Decision>, done: set<int>, k: nat)
    requires k < |events|
    ensures MovedBy(events, rules, decisions, done, k, 0)
  {
    hide Settled, Translated;
  }

  lemma PassStep(events: seq<Event>, rules: CleanRules, decisions: map<int, Decision>, done: set<int>, n: nat)
    requires n < |events|
    ensures var v := Settled(events, rules, decisions, done, n);
            && multiset(Items(events, rules, decisions, done, n + 1))
               == multiset(Items(events, rules, decisions, done, n))
                   + (if v.Keep? then multiset{Item(events[n], v.text, v.intent)} else multiset{})
            && multiset(Drops(events, rules, decisions, done, n + 1))
               == multiset(Drops(events, rules, decisions, done, n))
                   + (if v.Discard? then multiset{RecordOf(events[n], rules, v.reason)} else multiset{})
            && TranslatedCount(events, rules, decisions, done, n + 1)
               == TranslatedCount(events, rules, decisions, done, n)
                   + (if Translated(events, rules, decisions, done, n) then 1 else 0)
  {
    hide Settled, Translated;
  }

  lemma MovedElsewhere(events: seq<Event>, rules: CleanRules, decisions: map<int, Decision>, done: set<int>, k: nat,
                       n: nat)
    requires DistinctSequences(events) && k < |events| && n < |events| && n != k
    requires MovedBy(events, rules, decisions, done, k, n)
    ensures MovedBy(events, rules, decisions, done, k, n + 1)
  {
    hide Settled, Translated, Items, Drops, TranslatedCount, RecordOf;
    SettledElsewhere(events, rules, decisions, done, k, n);
    var after := done + {events[k].sequence};
    PassStep(events, rules, decisions, done, n);
    PassStep(events, rules, decisions, after, n);
    var v, w := Settled(events, rules, decisions, after, k), Settled(events, rules, decisions, done, n);
    AddedAlike(multiset(Items(events, rules, decisions, after, n)), multiset(Items(events, rules, decisions, done, n)),
               if k < n && v.Keep? then multiset{Item(events[k], v.text, v.intent)} else multiset{},
               if w.Keep? then multiset{Item(events[n], w.text, w.intent)} else multiset{});
    AddedAlike(multiset(Drops(events, rules, decisions, after, n)), multiset(Drops(events, rules, decisions, done, n)),
               if k < n && v.Discard? then multiset{RecordOf(events[k], rules, v.reason)} else multiset{},
               if w.Discard? then multiset{RecordOf(events[n], rules, w.reason)} else multiset{});
  }

  lemma AddedAlike<T>(a: multiset<T>, b: multiset<T>, x: multiset<T>, y: multiset<T>)
    requires a == b + x
    ensures a + y == b + y + x
  {}

  lemma MovedHere(events: seq<Event>, rules: CleanRules, decisions: map<int, Decision>, done: set<int>, k: nat)
    requires k < |events| && VerdictOn(events, rules, k).Ask? && events[k].sequence !in done
    requires MovedBy(events, rules, decisions, done, k, k)
    ensures MovedBy(events, rules, decisions, done, k, k + 1)
  {
    hide Settled, VerdictOn, Translated, Items, Drops, TranslatedCount;
    SettledHere(events, rules, decisions, done, k);
    PassStep(events, rules, decisions, done, k);
    PassStep(events, rules, decisions, done + {events[k].sequence}, k);
  }

  lemma SettledHere(events: seq<Event>, rules: CleanRules, decisions: map<int, Decision>, done: set<int>, k: nat)
    requires k < |events| && VerdictOn(events, rules, k).Ask? && events[k].sequence !in done
    ensures Settled(events, rules, decisions, done, k).Ask? && !Translated(events, rules, decisions, done, k)
  {
    hide VerdictOn;
  }

  lemma SettledElsewhere(events: seq<Event>, rules: CleanRules, decisions: map<int, Decision>, done: set<int>, k: nat,
                         i: nat)
    requires DistinctSequences(events) && k < |events| && i < |events| && i != k
    ensures Settled(events, rules, decisions, done + {events[k].sequence}, i) ==
            Settled(events, rules, decisions, done, i)
    ensures Translated(events, rules, decisions, done + {events[k].sequence}, i) ==
            Translated(events, rules, decisions, done, i)
  {
    hide VerdictOn;
  }

  ghost predicate SettledSoFar(events: seq<Event>, rules: CleanRules, decisions: map<int, Decision>, done: set<int>,
                               kept: seq<Item>, drops: seq<DropRecord>, translated: nat) {
    && multiset(kept) == multiset(Items(events, rules, decisions, done, |events|))
    && multiset(drops) == multiset(Drops(events, rules, decisions, done, |events|))
    && translated == TranslatedCount(events, rules, decisions, done, |events|)
    && forall i :: (0 <= i < |events| && events[i].sequence in done && VerdictOn(events, rules, i).Ask?
                    && Settled(events, rules, decisions, done, i).Keep?) ==>
                       Settled(events, rules, decisions, done, i).text != ""
  }

  lemma SettleOne(events: seq<Event>, rules: CleanRules, decisions: map<int, Decision>, done: set<int>, kept: seq<Item>,
                  drops: seq<DropRecord>, translated: nat, k: nat)
    requires DistinctSequences(events) && k < |events| && VerdictOn(events, rules, k).Ask?
    requires events[k].sequence in decisions && events[k].sequence !in done
    requires SettledSoFar(events, rules, decisions, done, kept, drops, translated)
    ensures var d, e := decisions[events[k].sequence], events[k];
            var text := rules.language.localize(rules.strip(d.textZh));
            var after := done + {e.sequence};
            if d.keep then
              text != "" ==>
                SettledSoFar(events, rules, decisions, after, kept + [Item(e, text, d.intent)], drops,
                             if text != rules.strip(e.text) then translated + 1 else translated)
            else SettledSoFar(events, rules, decisions, after, kept, drops + [RecordOf(e, rules, d.reason)], translated)
  {
    hide VerdictOn, Items, Drops, TranslatedCount;
    DoneStep(events, rules, decisions, done, k, |events|);
    var after := done + {events[k].sequence};
    forall i | 0 <= i < |events| && events[i].sequence in after && i != k
      ensures Settled(events, rules, decisions, after, i) == Settled(events, rules, decisions, done, i)
              && events[i].sequence in done
    {
      SettledElsewhere(events, rules, decisions, done, k, i);
    }
  }

  function Elements(s: seq<int>): set<int> {
    set x | x in s
  }

  predicate AtMost(a: int, b: int) { a <= b }

  lemma SortedElements(s: seq<int>)
    requires NoRepeats(s)
    ensures Elements(Sort(AtMost, s)) == Elements(s) && NoRepeats(Sort(AtMost, s))
  {
    SortPermutes(AtMost, s);
    SortKeepsElements(AtMost, s);
    PermutedNoRepeats(s, Sort(AtMost, s));
  }

  /** Kept with a text that localizes to nothing. */
  predicate EmptyText(rules: CleanRules, d: Decision) {
    d.keep && rules.language.localize(rules.strip(d.textZh)) == ""
  }

  /** The third loop, over the asked sequences in ascending order. */
  method SettlingPass(events: seq<Event>, rules: CleanRules, decisions: map<int, Decision>, first: FirstPass)
    returns (r: Option<(seq<Item>, seq<DropRecord>, nat)>)
    requires DistinctSequences(events) && decisions.Keys == Elements(first.asked)
    requires first.asked == AskedInOrder(events, rules, |events|)
    requires first.kept == Items(events, rules, map[], {}, |events|)
             && first.drops == Drops(events, rules, map[], {}, |events|)
    ensures r.Some? ==> SettledSoFar(events, rules, decisions, decisions.Keys, r.value.0, r.value.1, r.value.2)
    ensures r.None? ==> exists s :: s in decisions && EmptyText(rules, decisions[s])
  {
    var kept, drops, translated := first.kept, first.drops, 0;
    NothingDone(events, rules, decisions, |events|);
    AskedListed(events, rules, |events|);
    SortedElements(first.asked);
    var ordered := Sort(AtMost, first.asked);
    hide VerdictOn, SettledSoFar, Items, Drops, AskedInOrder, TranslatedCount;
    SettledAtStart(events, rules, decisions, kept, drops);
    assert Elements(ordered[..0]) == {};
    for n := 0 to |ordered|
      invariant SettledSoFar(events, rules, decisions, Elements(ordered[..n]), kept, drops, translated)
    {
      var s := ordered[n];
      NextElement(ordered, n);
      assert s in Elements(ordered);
      var k :| 0 <= k < |events| && events[k].sequence == s && VerdictOn(events, rules, k).Ask?;
      var e, d := events[k], decisions[s];
      SettleOne(events, rules, decisions, Elements(ordered[..n]), kept, drops, translated, k);
      if !d.keep {
        drops := drops + [RecordOf(e, rules, d.reason)];
      } else {
        var text := rules.language.localize(rules.strip(d.textZh));
        if text == "" {
          assert EmptyText(rules, decisions[s]);
          return None;
        }
        kept := kept + [Item(e, text, d.intent)];
        if text != rules.strip(e.text) { translated := translated + 1; }
      }
    }
    assert ordered[..|ordered|] == ordered;
    r := Some((kept, drops, translated));
  }

  lemma NextElement(s: seq<int>, n: nat)
    requires NoRepeats(s) && n < |s|
    ensures Elements(s[..n + 1]) == Elements(s[..n]) + {s[n]} && s[n] !in Elements(s[..n])
  {
    assert s[..n + 1] == s[..n] + [s[n]];
  }

  lemma SettledAtStart(events: seq<Event>, rules: CleanRules, decisions: map<int, Decision>, kept: seq<Item>,
                       drops: seq<DropRecord>)
    requires kept == Items(events, rules, decisions, {}, |events|)
             && drops == Drops(events, rules, decisions, {}, |events|)
    requires TranslatedCount(events, rules, decisions, {}, |events|) == 0
    ensures forall none: set<int> :: none == {} ==> SettledSoFar(events, rules, decisions, none, kept, drops, 0)
  {}

  /** Sorting forgets the order in which the passes collected their results. */
  lemma CollectedInAnyOrder(events: seq<Event>, rules: CleanRules, decisions: map<int, Decision>, kept: seq<Item>,
                            drops: seq<DropRecord>)
    requires DistinctSequences(events) && Asked(events, rules, |events|) <= decisions.Keys
    requires multiset(kept) == multiset(Items(events, rules, decisions, decisions.Keys, |events|))
    requires multiset(drops) == multiset(Drops(events, rules, decisions, decisions.Keys, |events|))
    ensures Sort(ItemOrder, kept) == Sort(ItemOrder, Items(events, rules, decisions, decisions.Keys, |events|))
    ensures Sort(DropOrder, drops) == Sort(DropOrder, Drops(events, rules, decisions, decisions.Keys, |events|))
  {
    hide Items, Drops, Asked;
    var items, dropped := Items(events, rules, decisions, decisions.Keys, |events|),
        Drops(events, rules, decisions, decisions.Keys, |events|);
    EveryEventSettles(events, rules, decisions, |events|);
    assert events[..|events|] == events;
    DistinctParts(Map(ItemSequence, items), Map(DropSequence, dropped), Map(EventSequence, events));
    ItemOrderIsPreorder();
    NumberedSortAlike(ItemOrder, ItemSequence, kept, items);
    NumberedSortAlike(DropOrder, DropSequence, drops, dropped);
  }

  /** The parts of a duplicate-free collection are duplicate-free. */
  lemma DistinctParts(a: seq<int>, b: seq<int>, c: seq<int>)
    requires NoRepeats(c) && multiset(a) + multiset(b) == multiset(c)
    ensures NoRepeats(a) && NoRepeats(b)
  {
    assert multiset(a + b) == multiset(c);
    PermutedNoRepeats(c, a + b);
    assert forall i :: 0 <= i < |a| ==> (a + b)[i] == a[i];
    assert forall i :: 0 <= i < |b| ==> (a + b)[|a| + i] == b[i];
  }

  /** Two collections of the same elements sort alike when a distinct number per element decides the order's ties. */
  lemma NumberedSortAlike<T(!new)>(le: (T, T) -> bool, number: T -> int, a: seq<T>, b: seq<T>)
    requires TotalPreorder(le) && multiset(a) == multiset(b) && NoRepeats(Map(number, b))
    requires forall x, y :: le(x, y) && le(y, x) ==> number(x) == number(y)
    ensures Sort(le, a) == Sort(le, b)
  {
    SortPermutes(le, a);
    var sorted := Sort(le, a);
    MapMultiset(number, b, sorted);
    PermutedNoRepeats(Map(number, b), Map(number, sorted));
    DistinctNumbersDistinguish(le, number, sorted);
    SortAlike(le, a, b);
  }

  lemma DistinctNumbersDistinguish<T(!new)>(le: (T, T) -> bool, number: T -> int, s: seq<T>)
    requires NoRepeats(Map(number, s))
    requires forall x, y :: le(x, y) && le(y, x) ==> number(x) == number(y)
    ensures Distinguishes(le, s)
  {
    forall i, j | 0 <= i < |s| && 0 <= j < |s| && le(s[i], s[j]) && le(s[j], s[i]) ensures s[i] == s[j] {
      assert Map(number, s)[i] == Map(number, s)[j];
    }
  }

  /** The messages the model is asked about, by sequence; those the cache answers; and the requests for the
      others. */
  ghost predicate RightQuestions(events: seq<Event>, rules: CleanRules, model: Model, passing: set<nat>,
                                 asked: set<int>, cached: map<int, Decision>, requests: seq<Request>) {
    && (forall s :: s in asked <==>
          exists i :: 0 <= i < |events| && WasAsked(events, rules, passing, i) && events[i].sequence == s)
    && (forall i :: 0 <= i < |events| && WasAsked(events, rules, passing, i) ==>
          && (events[i].sequence in cached <==> model.cached(events[i]).Some?)
          && (events[i].sequence in cached ==> Some(cached[events[i].sequence]) == model.cached(events[i])))
    && cached.Keys <= asked
    && exists idx: seq<nat> :: RequestsFor(events, rules, model, passing, idx, requests)
  }

  ghost predicate RequestsFor(events: seq<Event>, rules: CleanRules, model: Model, passing: set<nat>, idx: seq<nat>,
                              requests: seq<Request>) {
    && |idx| == |requests| && (forall j, k :: 0 <= j < k < |idx| ==> idx[j] < idx[k])
    && (forall i: nat :: i in idx <==> i < |events| && WasAsked(events, rules, passing, i)
                                        && model.cached(events[i]).None?)
    && forall k :: 0 <= k < |idx| ==> idx[k] < |events| && RightRequest(events, rules, idx[k], requests[k])
  }

  /** How a run ends. Without a batch size, with an unanswered batch or with answers that do not cover exactly what was
      asked it fails, and so it does when a kept text localizes to nothing; otherwise the decisions, the last answer on
      every message or else the cached one, determine the result. */
  ghost predicate RightRun(events: seq<Event>, rules: CleanRules, model: Model, asked: set<int>,
                           cached: map<int, Decision>, requests: seq<Request>, decisions: map<int, Decision>,
                           r: Result<CleaningResult, CleanError>) {
    if rules.batchSize == 0 then r == Err(BadBatchSize)
    else if Unanswered(model, requests, rules.batchSize) then r == Err(ProcessorError)
    else
      && (exists answers :: AllAnswers(model, requests, rules.batchSize, answers)
                            && RightDecisions(cached, Flat(answers), decisions))
      && if decisions.Keys != asked then r == Err(ProcessorError)
         else if exists s :: s in decisions && EmptyText(rules, decisions[s]) then r == Err(EmptyRetainedText)
         else r.Ok? && RightCleaning(events, rules, decisions, r.value)
  }

  /** The run as a whole, for some set of passing messages. */
  ghost predicate RightClean(events: seq<Event>, rules: CleanRules, model: Model, decisions: map<int, Decision>,
                             r: Result<CleaningResult, CleanError>) {
    exists passing: set<nat>, asked: set<int>, cached: map<int, Decision>, requests: seq<Request> ::
      && RightPassing(events, rules, passing)
      && RightQuestions(events, rules, model, passing, asked, cached, requests)
      && RightRun(events, rules, model, asked, cached, requests, decisions, r)
  }

  /** `clean` for any model. A successful run used exactly one decision per asked sequence and returns
      the cleaned stream those decisions determine; `RightClean` says when it succeeds. */
  method Clean(events: seq<Event>, rules: CleanRules, model: Model)
    returns (r: Result<CleaningResult, CleanError>, decisions: map<int, Decision>)
    requires DistinctSequences(events)
    ensures r.Ok? ==> decisions.Keys == Asked(events, rules, |events|)
    ensures r.Ok? ==> Attributed(events, model, Requests(events, rules, model, |events|), rules.batchSize, decisions)
    ensures r.Ok? ==> r.value == Cleaned(events, rules, decisions) && TextsRetained(events, rules, decisions)
    ensures OffsetsAscend(events) ==> RightClean(events, rules, model, decisions, r)
  {
    hide Items, Drops, Asked, AskedInOrder, Requests, Attributed, TranslatedCount, VerdictOn, Settled, RightQuestions,
         RightCleaning, RightPassing, AllAnswers, RightDecisions, Unanswered, CachedUpTo, Passing;
    if OffsetsAscend(events) { PassingIsRight(events, rules); }
    AskedIsListed(events, rules);
    var first := DeterministicPass(events, rules, model);
    QuestionsAreRight(events, rules, model, first.decisions);
    decisions := map[];
    if rules.batchSize == 0 {
      r := Err(BadBatchSize);
      Concludes(events, rules, model, Requests(events, rules, model, |events|), first.decisions, decisions, r);
      return;
    }
    var results := ModelPass(events, rules, model, first.requests, first.decisions);
    if results.None? {
      r := Err(ProcessorError);
      Concludes(events, rules, model, Requests(events, rules, model, |events|), first.decisions, decisions, r);
      return;
    }
    decisions := results.value;
    if decisions.Keys != Elements(first.asked) {
      r := Err(ProcessorError);
      Concludes(events, rules, model, Requests(events, rules, model, |events|), first.decisions, decisions, r);
      return;
    }
    if OffsetsAscend(events) { CleaningIsRight(events, rules, decisions); }
    var settled := SettlingPass(events, rules, decisions, first);
    if settled.None? {
      r := Err(EmptyRetainedText);
      Concludes(events, rules, model, Requests(events, rules, model, |events|), first.decisions, decisions, r);
      return;
    }
    var (kept, drops, translated) := settled.value;
    CollectedInAnyOrder(events, rules, decisions, kept, drops);
    RetainedAll(events, rules, decisions, kept, drops, translated);
    NoEmptyText(events, rules, decisions);
    r := Ok(CleaningResult(AsRealAll(Sort(ItemOrder, kept)), Sort(DropOrder, drops), translated));
    Concludes(events, rules, model, Requests(events, rules, model, |events|), first.decisions, decisions, r);
  }

  lemma Concludes(events: seq<Event>, rules: CleanRules, model: Model, requests: seq<Request>,
                  cached: map<int, Decision>, decisions: map<int, Decision>, r: Result<CleaningResult, CleanError>)
    requires OffsetsAscend(events) ==> RightPassing(events, rules, Passing(events, rules))
    requires RightQuestions(events, rules, model, Passing(events, rules), Asked(events, rules, |events|), cached,
                            requests)
    requires OffsetsAscend(events) ==>
               RightRun(events, rules, model, Asked(events, rules, |events|), cached, requests, decisions, r)
    ensures OffsetsAscend(events) ==> RightClean(events, rules, model, decisions, r)
  {}

  lemma NoEmptyText(events: seq<Event>, rules: CleanRules, decisions: map<int, Decision>)
    requires decisions.Keys == Asked(events, rules, |events|) && TextsRetained(events, rules, decisions)
    ensures forall s :: s in decisions ==> !EmptyText(rules, decisions[s])
  {
    hide VerdictOn;
    forall s | s in decisions ensures !EmptyText(rules, decisions[s]) {
      assert s in Asked(events, rules, |events|);
      var i :| 0 <= i < |events| && events[i].sequence == s && VerdictOn(events, rules, i).Ask?;
      assert Settled(events, rules, decisions, decisions.Keys, i)
             == if decisions[s].keep then Keep(rules.language.localize(rules.strip(decisions[s].textZh)),
                                               decisions[s].intent)
                else Discard(decisions[s].reason);
    }
  }

  lemma AskedExactly(events: seq<Event>, rules: CleanRules, i: nat)
    requires i < |events|
    ensures VerdictOn(events, rules, i).Ask? <==> WasAsked(events, rules, Passing(events, rules), i)
  {
    hide DropReason;
  }

  lemma RequestIsRight(events: seq<Event>, rules: CleanRules, i: nat)
    requires i < |events|
    ensures RightRequest(events, rules, i, RequestAt(events, rules, i))
  {
    var e := events[i];
    var near := events[(if i < 3 then 0 else i - 3)..i];
    var far := events[i + 1..if i + 4 <= |events| then i + 4 else |events|];
    assert near == From(events, i - 3, i) && far == From(events, i + 1, i + 4);
    MapsAgree(ContextOf, (c: Event) => Context(c.sequence, c.offsetMs, c.text),
              Filter((c: Event) => Replyable(c) && e.offsetMs - c.offsetMs <= rules.contextWindowMs, near));
    MapsAgree(ContextOf, (c: Event) => Context(c.sequence, c.offsetMs, c.text),
              Filter((c: Event) => Replyable(c) && c.offsetMs - e.offsetMs <= rules.contextWindowMs, far));
  }

  /** The positions the requests are for. */
  function RequestIndexes(events: seq<Event>, rules: CleanRules, model: Model, n: nat): seq<nat>
    requires n <= |events|
  {
    if n == 0 then []
    else
      RequestIndexes(events, rules, model, n - 1)
      + if VerdictOn(events, rules, n - 1).Ask? && model.cached(events[n - 1]).None? then [n - 1] else []
  }

  lemma IndexStep(events: seq<Event>, rules: CleanRules, model: Model, n: nat)
    requires n < |events|
    ensures var idx, requests := RequestIndexes(events, rules, model, n), Requests(events, rules, model, n);
            if VerdictOn(events, rules, n).Ask? && model.cached(events[n]).None? then
              && RequestIndexes(events, rules, model, n + 1) == idx + [n]
              && Requests(events, rules, model, n + 1) == requests + [RequestAt(events, rules, n)]
            else
              && RequestIndexes(events, rules, model, n + 1) == idx
              && Requests(events, rules, model, n + 1) == requests
  {
    hide VerdictOn, RequestAt;
  }

  /** Increasing positions of exactly the messages to ask about among the first `n`, each with its request. */
  ghost predicate IndexesFit(events: seq<Event>, rules: CleanRules, model: Model, n: nat, idx: seq<nat>,
                             requests: seq<Request>)
    requires n <= |events|
  {
    && |idx| == |requests| && (forall j, k :: 0 <= j < k < |idx| ==> idx[j] < idx[k])
    && (forall i: nat :: i in idx <==> i < n && VerdictOn(events, rules, i).Ask? && model.cached(events[i]).None?)
    && forall k :: 0 <= k < |idx| ==> idx[k] < n && RightRequest(events, rules, idx[k], requests[k])
  }

  lemma OneMoreIndex(events: seq<Event>, rules: CleanRules, model: Model, n: nat, idx: seq<nat>,
                     requests: seq<Request>, request: Request)
    requires n < |events| && IndexesFit(events, rules, model, n, idx, requests)
    requires RightRequest(events, rules, n, request)
    ensures if VerdictOn(events, rules, n).Ask? && model.cached(events[n]).None?
            then IndexesFit(events, rules, model, n + 1, idx + [n], requests + [request])
            else IndexesFit(events, rules, model, n + 1, idx, requests)
  {
    hide VerdictOn, RightRequest;
    assert forall i: nat :: i in idx + [n] <==> i in idx || i == n;
  }

  lemma NoIndex(events: seq<Event>, rules: CleanRules, model: Model)
    ensures IndexesFit(events, rules, model, 0, [], [])
  {}

  lemma {:induction false} IndexesAreRight(events: seq<Event>, rules: CleanRules, model: Model, n: nat)
    requires n <= |events|
    ensures IndexesFit(events, rules, model, n, RequestIndexes(events, rules, model, n),
                       Requests(events, rules, model, n))
  {
    hide VerdictOn, RightRequest, RequestAt, IndexesFit;
    if n == 0 {
      NoIndex(events, rules, model);
    } else {
      IndexesAreRight(events, rules, model, n - 1);
      RequestIsRight(events, rules, n - 1);
      IndexStep(events, rules, model, n - 1);
      hide RequestIndexes, Requests;
      OneMoreIndex(events, rules, model, n - 1, RequestIndexes(events, rules, model, n - 1),
                   Requests(events, rules, model, n - 1), RequestAt(events, rules, n - 1));
    }
  }

  lemma RequestsAreRight(events: seq<Event>, rules: CleanRules, model: Model)
    ensures RequestsFor(events, rules, model, Passing(events, rules), RequestIndexes(events, rules, model, |events|),
                        Requests(events, rules, model, |events|))
  {
    hide VerdictOn, RightRequest, Passing, WasAsked;
    IndexesAreRight(events, rules, model, |events|);
    forall i | 0 <= i < |events|
      ensures VerdictOn(events, rules, i).Ask? <==> WasAsked(events, rules, Passing(events, rules), i)
    {
      AskedExactly(events, rules, i);
    }
  }

  lemma QuestionsAreRight(events: seq<Event>, rules: CleanRules, model: Model, cached: map<int, Decision>)
    requires DistinctSequences(events) && FromCache(events, model, cached)
    requires CachedUpTo(events, rules, model, |events|, cached)
    ensures RightQuestions(events, rules, model, Passing(events, rules), Asked(events, rules, |events|), cached,
                           Requests(events, rules, model, |events|))
  {
    hide VerdictOn, RightRequest, Passing, WasAsked, RequestsFor;
    forall i | 0 <= i < |events|
      ensures VerdictOn(events, rules, i).Ask? <==> WasAsked(events, rules, Passing(events, rules), i)
    {
      AskedExactly(events, rules, i);
    }
    RequestsAreRight(events, rules, model);
    forall s | s in cached ensures s in Asked(events, rules, |events|) {
      assert CachedOn(events, rules, model, |events|, s);
    }
    forall i | 0 <= i < |events| && WasAsked(events, rules, Passing(events, rules), i)
      ensures events[i].sequence in cached <==> model.cached(events[i]).Some?
      ensures events[i].sequence in cached ==> Some(cached[events[i].sequence]) == model.cached(events[i])
    {
      CachedExactly(events, rules, model, cached, i);
    }
  }

  lemma CachedExactly(events: seq<Event>, rules: CleanRules, model: Model, cached: map<int, Decision>, i: nat)
    requires DistinctSequences(events) && FromCache(events, model, cached)
    requires CachedUpTo(events, rules, model, |events|, cached) && i < |events| && VerdictOn(events, rules, i).Ask?
    ensures events[i].sequence in cached <==> model.cached(events[i]).Some?
    ensures events[i].sequence in cached ==> Some(cached[events[i].sequence]) == model.cached(events[i])
  {
    hide VerdictOn;
    var s := events[i].sequence;
    assert CachedOn(events, rules, model, |events|, s) <==> s in cached;
    if s in cached {
      var e :| e in events && e.sequence == s && model.cached(e) == Some(cached[s]);
      var j :| 0 <= j < |events| && events[j] == e;
    }
  }

  lemma AskedIsListed(events: seq<Event>, rules: CleanRules)
    requires DistinctSequences(events)
    ensures Elements(AskedInOrder(events, rules, |events|)) == Asked(events, rules, |events|)
  {
    hide VerdictOn;
    AskedListed(events, rules, |events|);
    forall s ensures s in Elements(AskedInOrder(events, rules, |events|)) <==> s in Asked(events, rules, |events|) {
      assert s in Elements(AskedInOrder(events, rules, |events|)) <==> s in AskedInOrder(events, rules, |events|);
    }
  }

  lemma RetainedAll(events: seq<Event>, rules: CleanRules, decisions: map<int, Decision>, kept: seq<Item>,
                    drops: seq<DropRecord>, translated: nat)
    requires SettledSoFar(events, rules, decisions, decisions.Keys, kept, drops, translated)
    requires decisions.Keys == Asked(events, rules, |events|)
    ensures TextsRetained(events, rules, decisions)
  {
    hide VerdictOn, Items, Drops, TranslatedCount;
    forall i | 0 <= i < |events| && VerdictOn(events, rules, i).Ask? ensures events[i].sequence in decisions.Keys {}
  }

  // ----- What the model contributes to the stream

  /** The contract of `process_batch`, asked of every answer, and the same of what was cached. */
  ghost predicate Dependable(events: seq<Event>, rules: CleanRules, model: Model) {
    && (forall batch: nat, requests: seq<Request> | model.process(batch, requests).Some? ::
          OnePerRequest(requests, model.process(batch, requests).value, rules.language))
    && (forall e | e in events && model.cached(e).Some? && model.cached(e).value.keep ::
          rules.language.isChinese(model.cached(e).value.textZh))
  }

  /** A text that is Chinese, or the localization of a Chinese one. */
  ghost predicate FromChinese(rules: CleanRules, text: string) {
    rules.language.isChinese(text)
    || exists z: string :: rules.language.isChinese(z) && text == rules.language.localize(rules.strip(z))
  }

  lemma DecisionIsChinese(events: seq<Event>, rules: CleanRules, model: Model, requests: seq<Request>,
                          decisions: map<int, Decision>, s: int)
    requires Dependable(events, rules, model) && Attributed(events, model, requests, rules.batchSize, decisions)
    requires s in decisions && decisions[s].keep
    ensures rules.language.isChinese(decisions[s].textZh)
  {
    var d := decisions[s];
    if decisions[s].sequence == s && Answered(model, requests, rules.batchSize, d) {
      var batch: nat, start: nat :| AnsweredIn(model, requests, rules.batchSize, batch, start, d);
      var asked := BatchFrom(requests, start, rules.batchSize);
      var answer := model.process(batch, asked).value;
      assert OnePerRequest(asked, answer, rules.language);
      var i :| 0 <= i < |answer| && answer[i] == d;
    }
  }

  /** Main result: with a processor that keeps `process_batch`'s contract, every replyable message of the cleaned
      stream is Chinese or the localization of a Chinese text. */
  lemma CleanedIsChinese(events: seq<Event>, rules: CleanRules, model: Model, requests: seq<Request>,
                         decisions: map<int, Decision>, e: Event)
    requires Dependable(events, rules, model) && Attributed(events, model, requests, rules.batchSize, decisions)
    requires e in Cleaned(events, rules, decisions).events && Replyable(e)
    ensures FromChinese(rules, e.text)
  {
    hide Dependable, Attributed, VerdictOn, Drops, TranslatedCount;
    var items := Items(events, rules, decisions, decisions.Keys, |events|);
    SortKeepsElements(ItemOrder, items);
    var sorted := Sort(ItemOrder, items);
    var k :| 0 <= k < |sorted| && e == AsReal(sorted[k], k);
    assert sorted[k] in items;
    var i := ItemOrigin(events, rules, decisions, |events|, sorted[k]);
    SettledIsChinese(events, rules, model, requests, decisions, i);
  }

  lemma {:induction false} ItemOrigin(events: seq<Event>, rules: CleanRules, decisions: map<int, Decision>, n: nat,
                                      x: Item) returns (i: nat)
    requires n <= |events| && x in Items(events, rules, decisions, decisions.Keys, n)
    ensures i < n && x.event == events[i]
    ensures var v := Settled(events, rules, decisions, decisions.Keys, i);
            v.Keep? && x == Item(events[i], v.text, v.intent)
  {
    hide Settled;
    var v := Settled(events, rules, decisions, decisions.Keys, n - 1);
    if v.Keep? && x == Item(events[n - 1], v.text, v.intent) {
      i := n - 1;
    } else {
      i := ItemOrigin(events, rules, decisions, n - 1, x);
    }
  }

  lemma SettledIsChinese(events: seq<Event>, rules: CleanRules, model: Model, requests: seq<Request>,
                         decisions: map<int, Decision>, i: nat)
    requires Dependable(events, rules, model) && Attributed(events, model, requests, rules.batchSize, decisions)
    requires i < |events| && Replyable(events[i]) && Settled(events, rules, decisions, decisions.Keys, i).Keep?
    ensures FromChinese(rules, Settled(events, rules, decisions, decisions.Keys, i).text)
  {
    hide Dependable, Attributed, DropReason;
    var s := events[i].sequence;
    if VerdictOn(events, rules, i).Ask? && s in decisions {
      DecisionIsChinese(events, rules, model, requests, decisions, s);
    }
  }

  // ----- The decision cache

  datatype CacheKey = CacheKey(checksum: string, sequence: int, textHash: string)

  /** One line of the cache file; the decision's own sequence is not stored, the event's is. */
  datatype CacheLine = CacheLine(key: CacheKey, keep: bool, intent: string, textZh: string, reason: string)

  function LineOf(key: CacheKey, d: Decision): CacheLine {
    CacheLine(key, d.keep, d.intent, d.textZh, d.reason)
  }

  function DecisionOf(line: CacheLine): Decision {
    Decision(line.key.sequence, line.keep, line.intent, line.textZh, line.reason)
  }

  /** `_load`: replay of the file, later lines over earlier ones. */
  function Load(file: seq<CacheLine>): map<CacheKey, Decision> {
    if file == [] then map[]
    else Load(file[..|file| - 1])[file[|file| - 1].key := DecisionOf(file[|file| - 1])]
  }

  lemma {:induction false} LoadedSequences(file: seq<CacheLine>)
    ensures forall key :: key in Load(file) ==> Load(file)[key].sequence == key.sequence
  {
    if file != [] { LoadedSequences(file[..|file| - 1]); }
  }

  class DecisionCache {
    const checksum: string
    const hash: string -> string
    var file: seq<CacheLine>
    var entries: map<CacheKey, Decision>

    /** Replaying the file line by line gives back the entries in memory, under the sequence of their key. */
    ghost predicate Valid()
      reads this
    {
      && entries.Keys == Load(file).Keys
      && forall key :: key in entries ==> Load(file)[key] == entries[key].(sequence := key.sequence)
    }

    constructor (checksum: string, hash: string -> string, file: seq<CacheLine>)
      ensures Valid() && this.file == file && this.checksum == checksum && this.hash == hash && entries == Load(file)
    {
      LoadedSequences(file);
      this.checksum, this.hash, this.file, this.entries := checksum, hash, file, Load(file);
    }

    function KeyOf(e: Event): CacheKey {
      CacheKey(checksum, e.sequence, hash(e.text))
    }

    function Get(e: Event): Option<Decision>
      reads this
    {
      if KeyOf(e) in entries then Some(entries[KeyOf(e)]) else None
    }

    /** First write wins, nothing else changes, and the file still replays to the entries. */
    method Put(e: Event, d: Decision)
      requires Valid()
      modifies this
      ensures Valid()
      ensures Get(e) == if old(Get(e)).Some? then old(Get(e)) else Some(d)
      ensures forall other :: KeyOf(other) != KeyOf(e) ==> Get(other) == old(Get(other))
      ensures file == if old(Get(e)).Some? then old(file) else old(file) + [LineOf(KeyOf(e), d)]
    {
      if KeyOf(e) in entries { return; }
      var line := LineOf(KeyOf(e), d);
      assert (file + [line])[..|file|] == file;
      file := file + [line];
      entries := entries[KeyOf(e) := d];
    }
  }
}
