/** What `BalancedCleaner.clean` promises for given model decisions, without saying how it goes about it. */
module CleaningPromise {
  import opened Wrappers
  import opened Sorting
  import opened Events
  import opened Semantic
  import opened Cleaning

  // ----- Which messages pass the deterministic rules

  /** The same normalized stripped text. */
  predicate SameText(events: seq<Event>, rules: CleanRules, i: nat, j: nat)
    requires i < |events| && j < |events|
  {
    rules.normalize(rules.strip(events[i].text)) == rules.normalize(rules.strip(events[j].text))
  }

  /** The messages below `n` whose normalized text is `key`. */
  ghost function Carriers(events: seq<Event>, rules: CleanRules, n: nat, key: string): set<nat>
    requires n <= |events|
  {
    set i: nat | i < n && Replyable(events[i]) && rules.normalize(events[i].text) == key
  }

  /** A text of at least 24 characters that at least three messages carry. */
  ghost predicate Pasted(events: seq<Event>, rules: CleanRules, i: nat)
    requires i < |events|
  {
    var key := rules.normalize(rules.strip(events[i].text));
    |key| >= 24 && |Carriers(events, rules, |events|, key)| >= 3
  }

  /** Message `j` before `i` makes `i` a repeat: a pasted text, or the same author within the duplicate window. */
  ghost predicate RepeatsEarlier(events: seq<Event>, rules: CleanRules, j: nat, i: nat)
    requires i < |events| && j < |events|
  {
    && j < i && SameText(events, rules, j, i)
    && (Pasted(events, rules, i)
        || (events[j].actorId == events[i].actorId
            && events[i].offsetMs - events[j].offsetMs <= rules.duplicateWindowMs))
  }

  /** Exactly the messages that have no drop reason of their own and repeat no earlier passing one. */
  ghost predicate RightPassing(events: seq<Event>, rules: CleanRules, passing: set<nat>) {
    && (forall i :: i in passing ==> i < |events|)
    && (forall i: nat :: i < |events| ==>
          (i in passing <==>
           && Replyable(events[i]) && rules.dropReason(rules.strip(events[i].text)).None?
           && !RepeatsPassing(events, rules, passing, i)))
  }

  ghost predicate RepeatsPassing(events: seq<Event>, rules: CleanRules, passing: set<nat>, i: nat)
    requires i < |events|
  {
    exists j: nat :: j < i && j in passing && RepeatsEarlier(events, rules, j, i)
  }

  // ----- What becomes of every event

  datatype Fate = Stays(text: string, intent: string) | Goes(reason: string)

  /** An event that is no message stays; a message that does not pass goes with its reason; a Chinese message with a
      recognizable intent stays; on any other the decision stands. */
  ghost predicate RightFate(events: seq<Event>, rules: CleanRules, decisions: map<int, Decision>, passing: set<nat>,
                            i: nat, fate: Fate)
    requires i < |events|
  {
    var e := events[i];
    var text := rules.strip(e.text);
    if !Replyable(e) then fate == Stays(e.text, "non_replyable")
    else if i !in passing then
      fate == Goes(if rules.dropReason(text).Some? then rules.dropReason(text).value
                   else if Pasted(events, rules, i) && TextPassed(events, rules, passing, i) then "copypasta"
                   else "same_actor_duplicate")
    else if rules.language.isChinese(text) && rules.inferIntent(text).Some? then
      fate == Stays(text, rules.inferIntent(text).value)
    else
      && e.sequence in decisions
      && var d := decisions[e.sequence];
         fate == if d.keep then Stays(rules.language.localize(rules.strip(d.textZh)), d.intent) else Goes(d.reason)
  }

  ghost predicate TextPassed(events: seq<Event>, rules: CleanRules, passing: set<nat>, i: nat)
    requires i < |events|
  {
    exists j: nat :: j < i && j in passing && SameText(events, rules, j, i)
  }

  /** The model was asked about the event. */
  predicate WasAsked(events: seq<Event>, rules: CleanRules, passing: set<nat>, i: nat)
    requires i < |events|
  {
    var text := rules.strip(events[i].text);
    i in passing && !(rules.language.isChinese(text) && rules.inferIntent(text).Some?)
  }

  /** The events that stay among the first `n`. */
  function Staying(events: seq<Event>, fates: seq<Fate>, n: nat): seq<Item>
    requires n <= |events| == |fates|
  {
    if n == 0 then []
    else
      Staying(events, fates, n - 1)
      + if fates[n - 1].Stays? then [Item(events[n - 1], fates[n - 1].text, fates[n - 1].intent)] else []
  }

  function Going(events: seq<Event>, rules: CleanRules, fates: seq<Fate>, n: nat): seq<DropRecord>
    requires n <= |events| == |fates|
  {
    if n == 0 then []
    else
      Going(events, rules, fates, n - 1)
      + if fates[n - 1].Goes?
        then [DropRecord(events[n - 1].sequence, rules.hash(events[n - 1].text), fates[n - 1].reason)] else []
  }

  ghost function Reworded(events: seq<Event>, rules: CleanRules, passing: set<nat>, fates: seq<Fate>, n: nat): set<nat>
    requires n <= |events| == |fates|
  {
    set i: nat | i < n && WasAsked(events, rules, passing, i) && fates[i].Stays?
                 && fates[i].text != rules.strip(events[i].text)
  }

  /** The event that is written for an item: real, in its new place, with its new text and intent and its source. */
  predicate Published(x: Item, k: int, e: Event) {
    && e.sequence == k && e.offsetMs == x.event.offsetMs && e.eventType == x.event.eventType
    && e.actorId == x.event.actorId && e.text == x.text
    && e.payload.origin == Some(Real) && e.payload.sourceSequence == Some(x.event.sequence)
    && e.payload.intent == Some(x.intent)
    && e.payload.scenario == x.event.payload.scenario && e.payload.parentSequence == x.event.payload.parentSequence
    && e.payload.userId == x.event.payload.userId && e.payload.rest == x.event.payload.rest
  }

  /** What the result promises: every event meets its fate; those that stay are published in time order, those that go
      are listed in source order, and the reworded messages are counted. */
  ghost predicate RightCleaning(events: seq<Event>, rules: CleanRules, decisions: map<int, Decision>,
                                r: CleaningResult) {
    exists passing: set<nat>, fates: seq<Fate> ::
      && RightPassing(events, rules, passing) && |fates| == |events|
      && (forall i :: 0 <= i < |events| ==> RightFate(events, rules, decisions, passing, i, fates[i]))
      && RightResult(events, rules, passing, fates, r)
  }

  ghost predicate RightResult(events: seq<Event>, rules: CleanRules, passing: set<nat>, fates: seq<Fate>,
                              r: CleaningResult)
    requires |fates| == |events|
  {
    && (exists items: seq<Item> ::
          && multiset(items) == multiset(Staying(events, fates, |events|)) && SortedBy(ItemTime, items)
          && |r.events| == |items| && forall k :: 0 <= k < |items| ==> Published(items[k], k, r.events[k]))
    && multiset(r.drops) == multiset(Going(events, rules, fates, |events|)) && SortedBy(SourceOrder, r.drops)
    && r.translated == |Reworded(events, rules, passing, fates, |events|)|
  }

  predicate ItemTime(a: Item, b: Item) {
    a.event.offsetMs < b.event.offsetMs
    || (a.event.offsetMs == b.event.offsetMs && a.event.sequence <= b.event.sequence)
  }

  predicate SourceOrder(a: DropRecord, b: DropRecord) {
    a.sourceSequence <= b.sourceSequence
  }

  function Contexts(events: seq<Event>): seq<Context> {
    Map((e: Event) => Context(e.sequence, e.offsetMs, e.text), events)
  }

  function From(events: seq<Event>, lo: int, hi: int): seq<Event> {
    var a, b := if lo < 0 then 0 else lo, if hi > |events| then |events| else hi;
    if a <= b then events[a..b] else []
  }

  /** The request on an event: its sequence and text, and of the three events on each side the messages within the
      context window. */
  predicate RightRequest(events: seq<Event>, rules: CleanRules, i: nat, q: Request)
    requires i < |events|
  {
    var e := events[i];
    && q.sequence == e.sequence && q.text == e.text
    && q.before == Contexts(Filter((c: Event) => Replyable(c) && e.offsetMs - c.offsetMs <= rules.contextWindowMs,
                                   From(events, i - 3, i)))
    && q.after == Contexts(Filter((c: Event) => Replyable(c) && c.offsetMs - e.offsetMs <= rules.contextWindowMs,
                                  From(events, i + 1, i + 4)))
  }

  // ----- The rules of the two dictionaries are those rules

  lemma CarriersStep(events: seq<Event>, rules: CleanRules, n: nat, key: string)
    requires n < |events|
    ensures Carriers(events, rules, n + 1, key)
            == Carriers(events, rules, n, key)
               + if Replyable(events[n]) && rules.normalize(events[n].text) == key then {n} else {}
    ensures n !in Carriers(events, rules, n, key)
  {}

  lemma {:induction false} RepeatsCarriers(events: seq<Event>, rules: CleanRules, n: nat, key: string)
    requires n <= |events|
    ensures Repeats(events, rules, n, key) == |Carriers(events, rules, n, key)|
  {
    if n > 0 {
      RepeatsCarriers(events, rules, n - 1, key);
      CarriersStep(events, rules, n - 1, key);
      hide Carriers;
    }
  }

  lemma PastedIsCopypasta(events: seq<Event>, rules: CleanRules, i: nat)
    requires i < |events|
    ensures Pasted(events, rules, i) <==> Copypasta(events, rules, Key(events[i], rules))
  {
    RepeatsCarriers(events, rules, |events|, Key(events[i], rules));
  }

  /** The message has no reason to be dropped. */
  predicate Free(events: seq<Event>, rules: CleanRules, i: nat)
    requires i < |events|
  {
    Replyable(events[i]) && DropReason(events, rules, i).None?
  }

  lemma {:induction false} SeenIntro(events: seq<Event>, rules: CleanRules, n: nat, j: nat)
    requires j < n <= |events| && CleanChat(events[j], rules)
    ensures SeenClean(events, rules, n, Key(events[j], rules))
  {
    if j < n - 1 { SeenIntro(events, rules, n - 1, j); }
  }

  lemma {:induction false} LatestIsFree(events: seq<Event>, rules: CleanRules, n: nat, actor: ActorId, key: string)
    requires n <= |events|
    ensures var last := LastKept(events, rules, n, actor, key);
            last.Some? ==>
              && last.value < n && Free(events, rules, last.value) && events[last.value].actorId == actor
              && Key(events[last.value], rules) == key
  {
    if n > 0 { LatestIsFree(events, rules, n - 1, actor, key); }
  }

  lemma {:induction false} LatestIsLatest(events: seq<Event>, rules: CleanRules, n: nat, j: nat)
    requires j < n <= |events| && Free(events, rules, j)
    ensures var last := LastKept(events, rules, n, events[j].actorId, Key(events[j], rules));
            last.Some? && j <= last.value
  {
    if j < n - 1 { LatestIsLatest(events, rules, n - 1, j); }
  }

  /** The first clean message of a text is free. */
  lemma {:induction false} FirstClean(events: seq<Event>, rules: CleanRules, n: nat, key: string) returns (first: nat)
    requires n <= |events| && SeenClean(events, rules, n, key)
    ensures first < n && Free(events, rules, first) && Key(events[first], rules) == key
  {
    if SeenClean(events, rules, n - 1, key) {
      first := FirstClean(events, rules, n - 1, key);
    } else {
      first := n - 1;
      LatestIsFree(events, rules, first, events[first].actorId, key);
      var last := LastKept(events, rules, first, events[first].actorId, key);
      if last.Some? { SeenIntro(events, rules, first, last.value); }
    }
  }

  /** A message has no reason exactly when it is clean and repeats no earlier free one. */
  lemma FreeExactly(events: seq<Event>, rules: CleanRules, i: nat)
    requires OffsetsAscend(events) && i < |events| && Replyable(events[i])
    ensures Free(events, rules, i) <==>
            rules.dropReason(rules.strip(events[i].text)).None?
            && !exists j: nat :: j < i && Free(events, rules, j) && RepeatsEarlier(events, rules, j, i)
  {
    var key := Key(events[i], rules);
    PastedIsCopypasta(events, rules, i);
    LatestIsFree(events, rules, i, events[i].actorId, key);
    hide Pasted;
    if rules.dropReason(rules.strip(events[i].text)).None? {
      if j: nat :| j < i && Free(events, rules, j) && RepeatsEarlier(events, rules, j, i) {
        RepeatIsDropped(events, rules, j, i);
      }
      if !Free(events, rules, i) && Copypasta(events, rules, key) && SeenClean(events, rules, i, key) {
        var first := FirstClean(events, rules, i, key);
        assert RepeatsEarlier(events, rules, first, i);
      } else if !Free(events, rules, i) {
        var last := LastKept(events, rules, i, events[i].actorId, key).value;
        assert RepeatsEarlier(events, rules, last, i);
      }
    }
  }

  lemma RepeatIsDropped(events: seq<Event>, rules: CleanRules, j: nat, i: nat)
    requires OffsetsAscend(events) && i < |events| && Replyable(events[i]) && j < i && Free(events, rules, j)
    requires RepeatsEarlier(events, rules, j, i) && rules.dropReason(rules.strip(events[i].text)).None?
    ensures !Free(events, rules, i)
  {
    PastedIsCopypasta(events, rules, i);
    FreeIsClean(events, rules, j);
    if Pasted(events, rules, i) {
      SeenIntro(events, rules, i, j);
    } else {
      LatestIsLatest(events, rules, i, j);
      var last := LastKept(events, rules, i, events[j].actorId, Key(events[j], rules)).value;
      assert j == last || events[j].offsetMs <= events[last].offsetMs;
    }
  }

  lemma FreeIsClean(events: seq<Event>, rules: CleanRules, j: nat)
    requires j < |events| && Free(events, rules, j)
    ensures CleanChat(events[j], rules)
  {}

  ghost function Passing(events: seq<Event>, rules: CleanRules): set<nat> {
    set i: nat | i < |events| && Free(events, rules, i)
  }

  lemma PassingIsRight(events: seq<Event>, rules: CleanRules)
    requires OffsetsAscend(events)
    ensures RightPassing(events, rules, Passing(events, rules))
  {
    hide RepeatsEarlier, DropReason;
    forall i: nat | i < |events|
      ensures i in Passing(events, rules) <==>
              && Replyable(events[i]) && rules.dropReason(rules.strip(events[i].text)).None?
              && !RepeatsPassing(events, rules, Passing(events, rules), i)
    {
      if Replyable(events[i]) {
        FreeExactly(events, rules, i);
        hide Free;
      }
    }
  }

  // ----- The fates

  function FateOf(v: Verdict): Fate {
    match v
    case Keep(text, intent) => Stays(text, intent)
    case Discard(reason) => Goes(reason)
    case Ask => Goes("")
  }

  function Fates(events: seq<Event>, rules: CleanRules, decisions: map<int, Decision>): (fates: seq<Fate>)
    ensures |fates| == |events|
    ensures forall i :: 0 <= i < |fates| ==>
              fates[i] == FateOf(Settled(events, rules, decisions, decisions.Keys, i))
  {
    seq(|events|, i requires 0 <= i < |events| => FateOf(Settled(events, rules, decisions, decisions.Keys, i)))
  }

  /** The reason the chain gives, in those terms. */
  lemma ReasonIsRight(events: seq<Event>, rules: CleanRules, i: nat)
    requires i < |events| && Replyable(events[i]) && DropReason(events, rules, i).Some?
    ensures var text := rules.strip(events[i].text);
            DropReason(events, rules, i).value
            == if rules.dropReason(text).Some? then rules.dropReason(text).value
               else if Pasted(events, rules, i) && TextPassed(events, rules, Passing(events, rules), i) then "copypasta"
               else "same_actor_duplicate"
  {
    var key := Key(events[i], rules);
    PastedIsCopypasta(events, rules, i);
    hide Pasted;
    if rules.dropReason(rules.strip(events[i].text)).None? && Copypasta(events, rules, key) {
      if SeenClean(events, rules, i, key) {
        var first := FirstClean(events, rules, i, key);
        assert first in Passing(events, rules) && SameText(events, rules, first, i);
      }
      if j: nat :| j < i && j in Passing(events, rules) && SameText(events, rules, j, i) {
        FreeIsClean(events, rules, j);
        SeenIntro(events, rules, i, j);
      }
    }
  }

  lemma FateIsRight(events: seq<Event>, rules: CleanRules, decisions: map<int, Decision>, i: nat)
    requires i < |events| && Asked(events, rules, |events|) <= decisions.Keys
    ensures RightFate(events, rules, decisions, Passing(events, rules), i, Fates(events, rules, decisions)[i])
    ensures VerdictOn(events, rules, i).Ask? <==> WasAsked(events, rules, Passing(events, rules), i)
  {
    AskedIsDecided(events, rules, decisions, i);
    if Replyable(events[i]) && DropReason(events, rules, i).Some? { ReasonIsRight(events, rules, i); }
    hide DropReason, Asked, Pasted, TextPassed;
  }

  lemma {:induction false} StayingIsItems(events: seq<Event>, rules: CleanRules, decisions: map<int, Decision>, n: nat)
    requires n <= |events|
    ensures Staying(events, Fates(events, rules, decisions), n) == Items(events, rules, decisions, decisions.Keys, n)
  {
    hide Settled;
    if n > 0 { StayingIsItems(events, rules, decisions, n - 1); }
  }

  lemma {:induction false} GoingIsDrops(events: seq<Event>, rules: CleanRules, decisions: map<int, Decision>, n: nat)
    requires n <= |events| && Asked(events, rules, |events|) <= decisions.Keys
    ensures Going(events, rules, Fates(events, rules, decisions), n)
            == Drops(events, rules, decisions, decisions.Keys, n)
  {
    hide Settled, Asked;
    if n > 0 {
      GoingIsDrops(events, rules, decisions, n - 1);
      AskedIsDecided(events, rules, decisions, n - 1);
    }
  }

  /** The model was asked about the message, and it stays with another text. */
  predicate RewordedAt(events: seq<Event>, rules: CleanRules, passing: set<nat>, fates: seq<Fate>, i: nat)
    requires i < |events| == |fates|
  {
    WasAsked(events, rules, passing, i) && fates[i].Stays? && fates[i].text != rules.strip(events[i].text)
  }

  lemma RewordedStep(events: seq<Event>, rules: CleanRules, passing: set<nat>, fates: seq<Fate>, n: nat)
    requires n < |events| == |fates|
    ensures Reworded(events, rules, passing, fates, n + 1)
            == Reworded(events, rules, passing, fates, n)
               + if RewordedAt(events, rules, passing, fates, n) then {n} else {}
    ensures n !in Reworded(events, rules, passing, fates, n)
  {
    hide WasAsked;
  }

  lemma RewordedHere(events: seq<Event>, rules: CleanRules, decisions: map<int, Decision>, i: nat)
    requires i < |events| && Asked(events, rules, |events|) <= decisions.Keys
    ensures RewordedAt(events, rules, Passing(events, rules), Fates(events, rules, decisions), i)
            <==> Translated(events, rules, decisions, decisions.Keys, i)
  {
    FateIsRight(events, rules, decisions, i);
    hide Settled, Asked, WasAsked, VerdictOn, Passing, RightFate;
  }

  lemma {:induction false} RewordedIsTranslated(events: seq<Event>, rules: CleanRules, decisions: map<int, Decision>,
                                                n: nat)
    requires n <= |events| && Asked(events, rules, |events|) <= decisions.Keys
    ensures |Reworded(events, rules, Passing(events, rules), Fates(events, rules, decisions), n)|
            == TranslatedCount(events, rules, decisions, decisions.Keys, n)
  {
    hide Settled, Asked, RewordedAt, Translated, Passing, Fates;
    if n > 0 {
      RewordedIsTranslated(events, rules, decisions, n - 1);
      RewordedStep(events, rules, Passing(events, rules), Fates(events, rules, decisions), n - 1);
      RewordedHere(events, rules, decisions, n - 1);
      hide Reworded;
    }
  }

  /** Main result: cleaning does what it promises, for every set of decisions that covers what was asked. */
  lemma CleaningIsRight(events: seq<Event>, rules: CleanRules, decisions: map<int, Decision>)
    requires OffsetsAscend(events) && Asked(events, rules, |events|) <= decisions.Keys
    ensures RightCleaning(events, rules, decisions, Cleaned(events, rules, decisions))
  {
    hide RightPassing, RightFate, Asked, Reworded, Staying, Going, Items, Drops, TranslatedCount, Passing;
    var fates := Fates(events, rules, decisions);
    PassingIsRight(events, rules);
    forall i | 0 <= i < |events|
      ensures RightFate(events, rules, decisions, Passing(events, rules), i, fates[i])
    {
      FateIsRight(events, rules, decisions, i);
    }
    ResultIsRight(events, rules, decisions);
  }

  lemma ResultIsRight(events: seq<Event>, rules: CleanRules, decisions: map<int, Decision>)
    requires Asked(events, rules, |events|) <= decisions.Keys
    ensures RightResult(events, rules, Passing(events, rules), Fates(events, rules, decisions),
                        Cleaned(events, rules, decisions))
  {
    hide Asked, Reworded, Staying, Going, Items, Drops, TranslatedCount, Passing, Fates;
    var n := |events|;
    StayingIsItems(events, rules, decisions, n);
    GoingIsDrops(events, rules, decisions, n);
    RewordedIsTranslated(events, rules, decisions, n);
    var items, drops := Items(events, rules, decisions, decisions.Keys, n),
        Drops(events, rules, decisions, decisions.Keys, n);
    SortPermutes(ItemOrder, items);
    SortPermutes(DropOrder, drops);
    ItemOrderIsPreorder();
    SortSorts(ItemOrder, items);
    SortSorts(DropOrder, drops);
    var sorted := Sort(ItemOrder, items);
    assert SortedBy(ItemTime, sorted) by {
      forall i, j | 0 <= i < j < |sorted| ensures ItemTime(sorted[i], sorted[j]) {
        assert ItemOrder(sorted[i], sorted[j]);
      }
    }
    var out := Cleaned(events, rules, decisions).events;
    forall k | 0 <= k < |sorted| ensures Published(sorted[k], k, out[k]) {}
    assert SortedBy(SourceOrder, Sort(DropOrder, drops)) by {
      var all := Sort(DropOrder, drops);
      forall i, j | 0 <= i < j < |all| ensures SourceOrder(all[i], all[j]) { assert DropOrder(all[i], all[j]); }
    }
  }
}
