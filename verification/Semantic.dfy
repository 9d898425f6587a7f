/** The strict batch loop around an untrusted language model: `StrictLLMSemanticProcessor`. */
module Semantic {
  import opened Wrappers
  import opened Sorting

  /** A decoded JSON value; `JNumber` is any number that is not an integer. */
  datatype Json =
    | JNull | JBool(b: bool) | JInt(n: int) | JNumber | JText(s: string)
    | JList(items: seq<Json>) | JObject(fields: map<string, Json>)

  /** One call to the model: the client may raise, the text may not be JSON, or it decodes to any value. */
  datatype Reply = ClientRaised | NotJson | Decoded(value: Json)

  datatype Context = Context(sequence: int, offsetMs: int, text: string)

  datatype Request = Request(sequence: int, text: string, before: seq<Context>, after: seq<Context>)

  datatype Decision = Decision(sequence: int, keep: bool, intent: string, textZh: string, reason: string)

  datatype Policy = Fail | Drop

  /** The two text functions, left uninterpreted. */
  datatype Language = Language(isChinese: string -> bool, localize: string -> string)

  datatype BatchError = TooLarge | ClientError | Exhausted

  datatype Outcome = Returned(decisions: seq<Decision>) | Raised(error: BatchError)

  const MAX_ATTEMPTS := 3
  const MAX_BATCH := 40

  /** One element of the `decisions` list, field by field; `None` for any field that is missing or mistyped. */
  function ParseDecision(raw: Json, language: Language): Option<Decision> {
    if !raw.JObject? then None
    else
      var f := raw.fields;
      if !("sequence" in f && "keep" in f && "intent" in f && "text_zh" in f) then None
      else
        var reason := if "reason" in f then f["reason"] else JText("unrecognized_intent");
        if !(f["sequence"].JInt? && f["keep"].JBool? && f["intent"].JText? && f["text_zh"].JText? && reason.JText?)
            then None
        else
          var keep := f["keep"].b;
          if (keep && f["intent"].s == "") || (!keep && reason.s == "") then None
          else Some(Decision(
                      f["sequence"].n, keep, f["intent"].s,
                      if keep then language.localize(f["text_zh"].s) else f["text_zh"].s,
                      if reason.s == "" then "unrecognized_intent" else reason.s))
  }

  function ParseAll(items: seq<Json>, language: Language): (r: Option<seq<Decision>>)
    ensures r.Some? ==> |r.value| == |items|
  {
    if items == [] then Some([])
    else
      var front, last := ParseAll(items[..|items| - 1], language), ParseDecision(items[|items| - 1], language);
      if front.None? || last.None? then None else Some(front.value + [last.value])
  }

  function RequestSequences(requests: seq<Request>): set<int> {
    set r | r in requests :: r.sequence
  }

  function DecisionSequences(decisions: seq<Decision>): set<int> {
    set d | d in decisions :: d.sequence
  }

  /** `_parse`: every element well formed, and the sequences reconcile with what was asked. */
  function Parse(reply: Reply, pending: seq<Request>, language: Language): (r: Option<seq<Decision>>)
    ensures r.Some? ==> |r.value| == |pending| && DecisionSequences(r.value) == RequestSequences(pending)
  {
    if !reply.Decoded? || !reply.value.JObject? || "decisions" !in reply.value.fields ||
    !reply.value.fields["decisions"].JList? then None
    else
      var parsed := ParseAll(reply.value.fields["decisions"].items, language);
      if parsed.None? then None
      else if DecisionSequences(parsed.value) != RequestSequences(pending) || |parsed.value| != |pending| then None
      else parsed
  }

  /** A kept decision whose text is not Chinese-dominant. */
  function Invalid(language: Language): Decision -> bool {
    (d: Decision) => d.keep && !language.isChinese(d.textZh)
  }

  function InvalidSequences(decisions: seq<Decision>, language: Language): (r: seq<int>) {
    Map((d: Decision) => d.sequence, Filter(Invalid(language), decisions))
  }

  /** The decisions not marked invalid enter the dictionary in order; the last one wins. */
  function Resolve(resolved: map<int, Decision>, decisions: seq<Decision>, invalid: seq<int>): map<int, Decision> {
    if decisions == [] then resolved
    else
      var before, d := Resolve(resolved, decisions[..|decisions| - 1], invalid), decisions[|decisions| - 1];
      if d.sequence in invalid then before else before[d.sequence := d]
  }

  /** The request with this sequence; the last one wins. */
  function RequestFor(requests: seq<Request>, sequence: int): (r: Request)
    requires sequence in RequestSequences(requests)
    ensures r in requests && r.sequence == sequence
  {
    var last := requests[|requests| - 1];
    assert requests == requests[..|requests| - 1] + [last];
    if last.sequence == sequence then last else RequestFor(requests[..|requests| - 1], sequence)
  }

  datatype Progress = Running | Finished | ClientFailed

  datatype BatchState = BatchState(
    resolved: map<int, Decision>, pending: seq<Request>, finalNonChinese: seq<int>, progress: Progress, calls: nat)

  /** Resolved and pending partition the requested sequences; every resolved decision is the right one to return. */
  ghost predicate Partitioned(state: BatchState, requests: seq<Request>, language: Language) {
    && state.resolved.Keys !! RequestSequences(state.pending)
    && state.resolved.Keys + RequestSequences(state.pending) == RequestSequences(requests)
    && (forall r :: r in state.pending ==> r in requests)
    && (forall s :: s in state.resolved ==>
          state.resolved[s].sequence == s && (state.resolved[s].keep ==> language.isChinese(state.resolved[s].textZh)))
  }

  /** The requests for the invalid sequences, in their order. */
  function Retry(requests: seq<Request>, invalid: seq<int>): (r: seq<Request>)
    requires forall s :: s in invalid ==> s in RequestSequences(requests)
    ensures |r| == |invalid| && forall i :: 0 <= i < |r| ==> r[i] == RequestFor(requests, invalid[i])
  {
    seq(|invalid|, i requires 0 <= i < |invalid| => RequestFor(requests, invalid[i]))
  }

  lemma InvalidArePending(decisions: seq<Decision>, pending: seq<Request>, requests: seq<Request>, language: Language)
    requires DecisionSequences(decisions) == RequestSequences(pending)
    requires forall r :: r in pending ==> r in requests
    ensures forall s :: s in InvalidSequences(decisions, language) ==>
              s in RequestSequences(pending) && s in RequestSequences(requests)
  {
    var invalid := InvalidSequences(decisions, language);
    forall s | s in invalid ensures s in RequestSequences(pending) && s in RequestSequences(requests) {
      var i :| 0 <= i < |invalid| && invalid[i] == s;
      assert Filter(Invalid(language), decisions)[i] in decisions;
      assert s in DecisionSequences(decisions);
      var r :| r in pending && r.sequence == s;
      assert r in requests;
    }
  }

  /** One attempt: a call, and what its reply does to the batch. */
  function Attempt(state: BatchState, requests: seq<Request>, reply: Reply, language: Language): BatchState
    requires forall r :: r in state.pending ==> r in requests
  {
    if reply.ClientRaised? then state.(progress := ClientFailed, calls := state.calls + 1)
    else
      match Parse(reply, state.pending, language)
      case None => state.(finalNonChinese := [], calls := state.calls + 1)
      case Some(decisions) =>
        var invalid := InvalidSequences(decisions, language);
        InvalidArePending(decisions, state.pending, requests, language);
        var resolved := Resolve(state.resolved, decisions, invalid);
        if invalid == [] then BatchState(resolved, [], [], Finished, state.calls + 1)
        else BatchState(resolved, Retry(requests, invalid), invalid, Running, state.calls + 1)
  }

  /** The batch after at most `n` attempts. */
  function StateAfter(requests: seq<Request>, replies: seq<Reply>, n: nat, language: Language): (r: BatchState)
    requires n <= |replies|
    ensures forall q :: q in r.pending ==> q in requests
  {
    if n == 0 then BatchState(map[], requests, [], Running, 0)
    else
      var before := StateAfter(requests, replies, n - 1, language);
      if before.progress.Running? then
        AttemptKeepsRequests(before, requests, replies[n - 1], language);
        Attempt(before, requests, replies[n - 1], language)
      else before
  }

  lemma AttemptKeepsRequests(state: BatchState, requests: seq<Request>, reply: Reply, language: Language)
    requires forall r :: r in state.pending ==> r in requests
    ensures forall q :: q in Attempt(state, requests, reply, language).pending ==> q in requests
  {}

  function ForcedDrop(sequence: int): Decision {
    Decision(sequence, false, "", "", "non_chinese_after_retries")
  }

  function ForceDrops(resolved: map<int, Decision>, sequences: seq<int>): map<int, Decision> {
    if sequences == [] then resolved
    else ForceDrops(resolved,
                    sequences[..|sequences| - 1])[sequences[|sequences| - 1] := ForcedDrop(sequences[|sequences| - 1])]
  }

  /** The dictionary `process_batch` reads its result from. */
  function FinalDecisions(state: BatchState): map<int, Decision> {
    if state.progress.Finished? then state.resolved else ForceDrops(state.resolved, state.finalNonChinese)
  }

  predicate Succeeds(state: BatchState, policy: Policy) {
    state.progress.Finished? || (state.progress.Running? && policy.Drop? && state.finalNonChinese != [])
  }

  // ----- What every sequence of replies leads to

  lemma {:induction false} ResolveKeys(resolved: map<int, Decision>, decisions: seq<Decision>, invalid: seq<int>)
    ensures var r := Resolve(resolved, decisions, invalid);
            && r.Keys == resolved.Keys + (set d | d in decisions && d.sequence !in invalid :: d.sequence)
            && forall s :: s in r ==>
               (s in resolved && r[s] == resolved[s])
               || (r[s] in decisions && r[s].sequence == s && s !in invalid)
  {
    if decisions != [] {
      var front, d := decisions[..|decisions| - 1], decisions[|decisions| - 1];
      assert decisions == front + [d];
      ResolveKeys(resolved, front, invalid);
      assert (set x | x in decisions && x.sequence !in invalid :: x.sequence)
             == (set x | x in front && x.sequence !in invalid :: x.sequence)
                 + if d.sequence in invalid then {} else {d.sequence};
    }
  }

  lemma InvalidListed(decisions: seq<Decision>, language: Language, d: Decision)
    requires d in decisions && Invalid(language)(d)
    ensures d.sequence in InvalidSequences(decisions, language)
  {
    var f := Filter(Invalid(language), decisions);
    var i :| 0 <= i < |f| && f[i] == d;
    assert InvalidSequences(decisions, language)[i] == d.sequence;
  }

  /** A decision that is not among the invalid ones is Chinese when kept. */
  lemma ValidIsChinese(decisions: seq<Decision>, language: Language, d: Decision)
    requires d in decisions && d.sequence !in InvalidSequences(decisions, language)
    ensures d.keep ==> language.isChinese(d.textZh)
  {
    if Invalid(language)(d) { InvalidListed(decisions, language, d); }
  }

  lemma RetrySequences(requests: seq<Request>, invalid: seq<int>)
    requires forall s :: s in invalid ==> s in RequestSequences(requests)
    ensures RequestSequences(Retry(requests, invalid)) == set s | s in invalid
  {
    var r := Retry(requests, invalid);
    forall s ensures s in RequestSequences(r) <==> s in invalid {
      if s in invalid {
        var i :| 0 <= i < |invalid| && invalid[i] == s;
        assert r[i] in r && r[i].sequence == s;
      }
      if s in RequestSequences(r) {
        var q :| q in r && q.sequence == s;
        var i :| 0 <= i < |r| && r[i] == q;
        assert invalid[i] == s;
      }
    }
  }

  lemma ResolvedAndRetried(decisions: seq<Decision>, pending: seq<Request>, invalid: seq<int>)
    requires DecisionSequences(decisions) == RequestSequences(pending)
    ensures (set d | d in decisions && d.sequence !in invalid :: d.sequence) ==
            RequestSequences(pending) - (set s | s in invalid)
  {
    forall s
      ensures s in (set d | d in decisions && d.sequence !in invalid :: d.sequence)
              <==> s in RequestSequences(pending) && s !in invalid
    {
      assert s in DecisionSequences(decisions) <==> s in RequestSequences(pending);
    }
  }

  lemma AttemptPartitions(state: BatchState, requests: seq<Request>, reply: Reply, language: Language)
    requires Partitioned(state, requests, language)
    ensures Partitioned(Attempt(state, requests, reply, language), requests, language)
  {
    hide Parse, InvalidSequences, Resolve;
    var parsed := Parse(reply, state.pending, language);
    if !reply.ClientRaised? && parsed.Some? {
      ParsedPartitions(state, requests, parsed.value, language);
    }
  }

  lemma ParsedPartitions(state: BatchState, requests: seq<Request>, decisions: seq<Decision>, language: Language)
    requires Partitioned(state, requests, language)
    requires DecisionSequences(decisions) == RequestSequences(state.pending)
    ensures var invalid := InvalidSequences(decisions, language);
            && (forall s :: s in invalid ==> s in RequestSequences(requests))
            && var pending := if invalid == [] then [] else Retry(requests, invalid);
               Partitioned(state.(resolved := Resolve(state.resolved, decisions, invalid), pending := pending),
                           requests, language)
  {
    hide InvalidSequences, Resolve, DecisionSequences;
    var invalid := InvalidSequences(decisions, language);
    InvalidArePending(decisions, state.pending, requests, language);
    var resolved := Resolve(state.resolved, decisions, invalid);
    ResolveKeys(state.resolved, decisions, invalid);
    RetrySequences(requests, invalid);
    ResolvedAndRetried(decisions, state.pending, invalid);
    forall s | s in resolved
      ensures resolved[s].sequence == s && (resolved[s].keep ==> language.isChinese(resolved[s].textZh))
    {
      if !(s in state.resolved && resolved[s] == state.resolved[s]) {
        ValidIsChinese(decisions, language, resolved[s]);
      }
    }
  }

  /** Main invariant: whatever the model answers, resolved and pending partition the requested sequences. */
  lemma {:induction false} AlwaysPartitioned(requests: seq<Request>, replies: seq<Reply>, n: nat, language: Language)
    requires n <= |replies|
    ensures Partitioned(StateAfter(requests, replies, n, language), requests, language)
    ensures StateAfter(requests, replies, n, language).calls <= n
    ensures StateAfter(requests, replies, n, language).progress.Running? ==>
              StateAfter(requests, replies, n, language).calls == n
    ensures StateAfter(requests, replies, n, language).progress.Finished? ==>
            StateAfter(requests, replies, n, language).pending == []
  {
    hide Partitioned;
    if n == 0 {
      StartsPartitioned(requests, language);
    } else {
      AlwaysPartitioned(requests, replies, n - 1, language);
      var before := StateAfter(requests, replies, n - 1, language);
      if before.progress.Running? { AttemptPartitions(before, requests, replies[n - 1], language); }
    }
  }

  lemma StartsPartitioned(requests: seq<Request>, language: Language)
    ensures Partitioned(BatchState(map[], requests, [], Running, 0), requests, language)
  {}

  /** The non-Chinese sequences remembered for a forced drop are those the last attempt, parsed in full,
      still kept with non-Chinese text. */
  lemma {:induction false} FinalNonChineseIsFresh(requests: seq<Request>, replies: seq<Reply>, n: nat,
          language: Language, sequence: int)
    requires 0 < n <= |replies|
    requires StateAfter(requests, replies, n, language).progress.Running?
    requires sequence in StateAfter(requests, replies, n, language).finalNonChinese
    ensures var parsed := Parse(replies[n - 1], StateAfter(requests, replies, n - 1, language).pending, language);
            && parsed.Some?
            && (exists d :: d in parsed.value && d.sequence == sequence && d.keep && !language.isChinese(d.textZh))
            && sequence in RequestSequences(StateAfter(requests, replies, n, language).pending)
  {
    var before := StateAfter(requests, replies, n - 1, language);
    var decisions := Parse(replies[n - 1], before.pending, language).value;
    var f := Filter(Invalid(language), decisions);
    var invalid := InvalidSequences(decisions, language);
    var i :| 0 <= i < |invalid| && invalid[i] == sequence;
    assert f[i] in f;
    InvalidArePending(decisions, before.pending, requests, language);
    RetrySequences(requests, invalid);
  }

  lemma {:induction false} ForceDropsAt(resolved: map<int, Decision>, sequences: seq<int>)
    ensures var r := ForceDrops(resolved, sequences);
            && r.Keys == resolved.Keys + (set s | s in sequences)
            && forall s :: s in r ==> r[s] == if s in sequences then ForcedDrop(s) else resolved[s]
  {
    if sequences != [] {
      var front := sequences[..|sequences| - 1];
      assert sequences == front + [sequences[|sequences| - 1]];
      ForceDropsAt(resolved, front);
    }
  }

  /** While the batch runs after a parsed attempt, the remembered sequences are exactly the pending ones. */
  lemma FinalCoversPending(requests: seq<Request>, replies: seq<Reply>, n: nat, language: Language)
    requires n <= |replies| && StateAfter(requests, replies, n, language).finalNonChinese != []
    ensures var state := StateAfter(requests, replies, n, language);
            state.progress.Running? ==> RequestSequences(state.pending) == set s | s in state.finalNonChinese
    decreases n
  {
    if n > 0 {
      var before := StateAfter(requests, replies, n - 1, language);
      if before.progress.Running? {
        var parsed := Parse(replies[n - 1], before.pending, language);
        if !replies[n - 1].ClientRaised? && parsed.Some? {
          InvalidArePending(parsed.value, before.pending, requests, language);
          RetrySequences(requests, InvalidSequences(parsed.value, language));
        }
      }
    }
  }

  /** Main result: when the batch succeeds there is exactly one decision per request, in request order, each
      kept text is Chinese, and a forced drop happens only to a sequence the third attempt parsed and left non-Chinese.
      */
  lemma BatchResult(requests: seq<Request>, replies: seq<Reply>, policy: Policy, language: Language)
    requires |replies| == MAX_ATTEMPTS && Succeeds(StateAfter(requests, replies, MAX_ATTEMPTS, language), policy)
    ensures var state := StateAfter(requests, replies, MAX_ATTEMPTS, language);
            var final := FinalDecisions(state);
            && final.Keys == RequestSequences(requests)
            && (forall s :: s in final ==>
                final[s].sequence == s
                && (final[s].keep ==> language.isChinese(final[s].textZh)))
            && (forall s :: s in final && !(s in state.resolved && final[s] == state.resolved[s]) ==>
                  && final[s] == ForcedDrop(s) && policy.Drop? && state.calls == MAX_ATTEMPTS
                  && var parsed := Parse(replies[2], StateAfter(requests, replies, 2, language).pending, language);
                     && parsed.Some?
                     && exists d :: d in parsed.value && d.sequence == s && d.keep && !language.isChinese(d.textZh))
  {
    hide Parse, Attempt, InvalidSequences;
    var state := StateAfter(requests, replies, MAX_ATTEMPTS, language);
    AlwaysPartitioned(requests, replies, MAX_ATTEMPTS, language);
    if !state.progress.Finished? {
      ForceDropsAt(state.resolved, state.finalNonChinese);
      FinalCoversPending(requests, replies, MAX_ATTEMPTS, language);
      var final := FinalDecisions(state);
      forall s | s in final && !(s in state.resolved && final[s] == state.resolved[s])
        ensures final[s] == ForcedDrop(s) && s in state.finalNonChinese
      {}
      forall s | s in state.finalNonChinese
        ensures var parsed := Parse(replies[2], StateAfter(requests, replies, 2, language).pending, language);
                && parsed.Some?
                && exists d :: d in parsed.value && d.sequence == s && d.keep && !language.isChinese(d.textZh)
      {
        FinalNonChineseIsFresh(requests, replies, MAX_ATTEMPTS, language, s);
      }
    }
  }

  // ----- When a batch succeeds, and with what

  /** The element holds this decision, field by field. */
  predicate HoldsDecision(raw: Json, d: Decision, language: Language) {
    && raw.JObject? && "sequence" in raw.fields && "keep" in raw.fields && "intent" in raw.fields
    && "text_zh" in raw.fields
    && raw.fields["sequence"] == JInt(d.sequence) && raw.fields["keep"] == JBool(d.keep)
    && raw.fields["intent"] == JText(d.intent) && (d.keep ==> d.intent != "")
    && raw.fields["text_zh"].JText?
    && d.textZh == (if d.keep then language.localize(raw.fields["text_zh"].s) else raw.fields["text_zh"].s)
    && (if "reason" in raw.fields && raw.fields["reason"] != JText("") then
          raw.fields["reason"] == JText(d.reason)
        else
          d.reason == "unrecognized_intent" && ("reason" in raw.fields ==> d.keep))
  }

  /** The reply is a list of decisions, one on each pending request and on nothing else. */
  predicate ReadsAs(reply: Reply, pending: seq<Request>, decisions: seq<Decision>, language: Language) {
    && reply.Decoded? && reply.value.JObject? && "decisions" in reply.value.fields
    && reply.value.fields["decisions"].JList?
    && var items := reply.value.fields["decisions"].items;
       && |items| == |decisions| == |pending|
       && (forall i :: 0 <= i < |items| ==> HoldsDecision(items[i], decisions[i], language))
       && (forall d :: d in decisions ==> exists r :: r in pending && r.sequence == d.sequence)
       && (forall r :: r in pending ==> exists d :: d in decisions && d.sequence == r.sequence)
  }

  lemma ParsesDecision(raw: Json, d: Decision, language: Language)
    ensures ParseDecision(raw, language) == Some(d) <==> HoldsDecision(raw, d, language)
  {}

  lemma {:induction false} ParsesAll(items: seq<Json>, decisions: seq<Decision>, language: Language)
    ensures ParseAll(items, language) == Some(decisions) <==>
            |items| == |decisions| && forall i :: 0 <= i < |items| ==> HoldsDecision(items[i], decisions[i], language)
  {
    hide ParseDecision, HoldsDecision;
    if items != [] && decisions != [] {
      var n, m := |items| - 1, |decisions| - 1;
      ParsesAll(items[..n], decisions[..m], language);
      ParsesDecision(items[n], decisions[m], language);
      assert decisions == decisions[..m] + [decisions[m]];
    }
  }

  lemma SameSequences(decisions: seq<Decision>, pending: seq<Request>)
    ensures DecisionSequences(decisions) == RequestSequences(pending) <==>
            && (forall d :: d in decisions ==> exists r :: r in pending && r.sequence == d.sequence)
            && (forall r :: r in pending ==> exists d :: d in decisions && d.sequence == r.sequence)
  {
    if DecisionSequences(decisions) == RequestSequences(pending) {
      forall d | d in decisions ensures exists r :: r in pending && r.sequence == d.sequence {
        assert d.sequence in RequestSequences(pending);
      }
      forall r | r in pending ensures exists d :: d in decisions && d.sequence == r.sequence {
        assert r.sequence in DecisionSequences(decisions);
      }
    }
  }

  /** What the parser accepts, and what it makes of it. */
  lemma ParseExactly(reply: Reply, pending: seq<Request>, decisions: seq<Decision>, language: Language)
    ensures Parse(reply, pending, language) == Some(decisions) <==> ReadsAs(reply, pending, decisions, language)
  {
    hide ParseAll, HoldsDecision, DecisionSequences, RequestSequences;
    if reply.Decoded? && reply.value.JObject? && "decisions" in reply.value.fields
       && reply.value.fields["decisions"].JList? {
      ParsesAll(reply.value.fields["decisions"].items, decisions, language);
      SameSequences(decisions, pending);
    }
  }

  /** The model decided on a text that is not Chinese. */
  predicate Bad(d: Decision, language: Language) {
    d.keep && !language.isChinese(d.textZh)
  }

  ghost predicate Reads(reply: Reply, pending: seq<Request>, language: Language) {
    exists decisions :: ReadsAs(reply, pending, decisions, language)
  }

  /** The reply settles every pending request. */
  ghost predicate Decides(reply: Reply, pending: seq<Request>, language: Language) {
    exists decisions :: ReadsAs(reply, pending, decisions, language)
                        && forall d :: d in decisions ==> !Bad(d, language)
  }

  function RequestSequence(r: Request): int { r.sequence }

  function DecisionSequence(d: Decision): int { d.sequence }

  /** The requests left open: the same ones after a reply that does not read, otherwise those it decided badly. */
  ghost predicate Leaves(before: seq<Request>, reply: Reply, after: seq<Request>, language: Language) {
    && (!Reads(reply, before, language) ==> after == before)
    && forall decisions :: ReadsAs(reply, before, decisions, language) ==>
         Map(RequestSequence, after)
         == Map(DecisionSequence, Filter((d: Decision) => Bad(d, language), decisions))
  }

  /** `open[n]` are the requests still open before reply `n`. */
  ghost predicate Trail(requests: seq<Request>, replies: seq<Reply>, open: seq<seq<Request>>, language: Language) {
    && |open| == |replies| + 1 && open[0] == requests
    && forall n :: 0 <= n < |replies| ==> Leaves(open[n], replies[n], open[n + 1], language)
  }

  ghost predicate Stops(reply: Reply, pending: seq<Request>, language: Language) {
    reply.ClientRaised? || Decides(reply, pending, language)
  }

  predicate Open(pending: seq<Request>, sequence: int) {
    exists r :: r in pending && r.sequence == sequence
  }

  /** Reply `k` settled the sequence with this decision: it was open before the reply and not after it. */
  ghost predicate SettledBy(replies: seq<Reply>, open: seq<seq<Request>>, language: Language, k: nat, sequence: int,
                            d: Decision)
    requires k < |replies| && |open| == |replies| + 1
  {
    && Open(open[k], sequence) && !Open(open[k + 1], sequence)
    && d.sequence == sequence && !Bad(d, language)
    && exists decisions :: ReadsAs(replies[k], open[k], decisions, language) && d in decisions
  }

  /** The decision returned on a sequence after `calls` replies. */
  ghost predicate RightDecision(replies: seq<Reply>, open: seq<seq<Request>>, language: Language, calls: nat,
                                sequence: int, d: Decision)
    requires calls <= |replies| && |open| == |replies| + 1
  {
    if Open(open[calls], sequence) then d == Decision(sequence, false, "", "", "non_chinese_after_retries")
    else exists k: nat :: k < calls && SettledBy(replies, open, language, k, sequence, d)
  }

  /** How a batch ends. It calls until the client fails or a reply settles everything open, at most three times; then
      it fails with the client, returns, or, when nothing stopped it, returns exactly if the policy is to drop and the
      last reply reads. What it returns is the settling decision of every sequence, in request order, and a forced drop
      for what is still open. */
  ghost predicate Concluded(requests: seq<Request>, replies: seq<Reply>, policy: Policy, language: Language,
                            open: seq<seq<Request>>, outcome: Outcome, calls: nat)
    requires |replies| == MAX_ATTEMPTS && |open| == |replies| + 1
  {
    && 1 <= calls <= MAX_ATTEMPTS
    && (forall n :: 0 <= n < calls - 1 ==> !Stops(replies[n], open[n], language))
    && (calls < MAX_ATTEMPTS ==> Stops(replies[calls - 1], open[calls - 1], language))
    && var reply, pending := replies[calls - 1], open[calls - 1];
       && (outcome.Returned? <==>
           Decides(reply, pending, language)
           || (!reply.ClientRaised? && policy.Drop? && Reads(reply, pending, language)))
       && (!outcome.Returned? ==> outcome == Raised(if reply.ClientRaised? then ClientError else Exhausted))
       && (outcome.Returned? ==>
             && |outcome.decisions| == |requests|
             && forall i :: 0 <= i < |requests| ==>
                  RightDecision(replies, open, language, calls, requests[i].sequence, outcome.decisions[i]))
  }

  lemma ReadsExactly(reply: Reply, pending: seq<Request>, language: Language)
    ensures Reads(reply, pending, language) <==> Parse(reply, pending, language).Some?
    ensures Decides(reply, pending, language) <==>
            Parse(reply, pending, language).Some?
            && InvalidSequences(Parse(reply, pending, language).value, language) == []
  {
    hide Parse, ReadsAs;
    forall decisions
      ensures ReadsAs(reply, pending, decisions, language) <==> Parse(reply, pending, language) == Some(decisions)
    {
      ParseExactly(reply, pending, decisions, language);
    }
    var parsed := Parse(reply, pending, language);
    if parsed.Some? {
      NoneInvalid(parsed.value, language);
      assert ReadsAs(reply, pending, parsed.value, language);
    }
  }

  lemma NoneInvalid(decisions: seq<Decision>, language: Language)
    ensures InvalidSequences(decisions, language) == [] <==> forall d :: d in decisions ==> !Bad(d, language)
  {
    if InvalidSequences(decisions, language) == [] {
      forall d | d in decisions ensures !Bad(d, language) {
        if Bad(d, language) { InvalidListed(decisions, language, d); }
      }
    } else {
      assert Filter(Invalid(language), decisions)[0] in decisions;
    }
  }

  lemma OpenExactly(pending: seq<Request>, s: int)
    ensures Open(pending, s) <==> s in RequestSequences(pending)
    ensures Open(pending, s) <==> s in Map(RequestSequence, pending)
  {
    var all := Map(RequestSequence, pending);
    if r :| r in pending && r.sequence == s {
      var i :| 0 <= i < |pending| && pending[i] == r;
      assert all[i] == s;
    }
    if s in all {
      var i :| 0 <= i < |all| && all[i] == s;
      assert pending[i] in pending;
    }
  }

  /** The parser looks at the sequences of the pending requests only. */
  lemma ParseAlike(reply: Reply, a: seq<Request>, b: seq<Request>, language: Language)
    requires Map(RequestSequence, a) == Map(RequestSequence, b)
    ensures Parse(reply, a, language) == Parse(reply, b, language)
  {
    hide ParseAll;
    assert |a| == |Map(RequestSequence, a)| == |b|;
    forall s ensures s in RequestSequences(a) <==> s in RequestSequences(b) {
      OpenExactly(a, s);
      OpenExactly(b, s);
    }
  }

  lemma BadIsInvalid(decisions: seq<Decision>, language: Language)
    ensures InvalidSequences(decisions, language)
            == Map(DecisionSequence, Filter((d: Decision) => Bad(d, language), decisions))
  {
    FilterAlike(Invalid(language), (d: Decision) => Bad(d, language), decisions);
  }

  lemma RetryMap(requests: seq<Request>, invalid: seq<int>)
    requires forall s :: s in invalid ==> s in RequestSequences(requests)
    ensures Map(RequestSequence, Retry(requests, invalid)) == invalid
  {}

  /** The running batch and the open requests go together. */
  ghost predicate Follows(requests: seq<Request>, replies: seq<Reply>, open: seq<seq<Request>>, language: Language,
                          n: nat)
    requires n <= |replies| && |open| == |replies| + 1
  {
    var state := StateAfter(requests, replies, n, language);
    && state.progress.Running? && state.calls == n
    && Map(RequestSequence, state.pending) == Map(RequestSequence, open[n])
    && (state.finalNonChinese != [] <==> n > 0 && Reads(replies[n - 1], open[n - 1], language))
    && (forall m :: 0 <= m < n ==> !Stops(replies[m], open[m], language))
  }

  lemma FollowsStart(requests: seq<Request>, replies: seq<Reply>, open: seq<seq<Request>>, language: Language)
    requires Trail(requests, replies, open, language)
    ensures Follows(requests, replies, open, language, 0)
  {}

  lemma AttemptUnread(state: BatchState, requests: seq<Request>, reply: Reply, language: Language)
    requires forall r :: r in state.pending ==> r in requests
    requires !reply.ClientRaised? && Parse(reply, state.pending, language).None?
    ensures Attempt(state, requests, reply, language) == state.(finalNonChinese := [], calls := state.calls + 1)
  {}

  /** A reply that does not read leaves resolved and open as they were, and the batch goes on. */
  lemma FollowsUnread(requests: seq<Request>, replies: seq<Reply>, open: seq<seq<Request>>, language: Language, n: nat)
    requires Trail(requests, replies, open, language) && n < |replies|
    requires Follows(requests, replies, open, language, n)
    requires !replies[n].ClientRaised? && !Reads(replies[n], open[n], language)
    ensures Follows(requests, replies, open, language, n + 1)
    ensures StateAfter(requests, replies, n + 1, language).resolved ==
            StateAfter(requests, replies, n, language).resolved
  {
    var state := StateAfter(requests, replies, n, language);
    NextState(requests, replies, n, language);
    ParseAlike(replies[n], state.pending, open[n], language);
    ReadsExactly(replies[n], open[n], language);
    AttemptUnread(state, requests, replies[n], language);
    hide StateAfter, Parse, Attempt, ReadsAs, Reads, Decides, InvalidSequences;
    assert Leaves(open[n], replies[n], open[n + 1], language);
  }

  /** What a parsed reply does to a running batch. */
  lemma AttemptRead(state: BatchState, requests: seq<Request>, reply: Reply, decisions: seq<Decision>,
                    language: Language)
    requires forall r :: r in state.pending ==> r in requests
    requires !reply.ClientRaised? && Parse(reply, state.pending, language) == Some(decisions)
    ensures var invalid, after := InvalidSequences(decisions, language), Attempt(state, requests, reply, language);
            && after.calls == state.calls + 1
            && after.resolved == Resolve(state.resolved, decisions, invalid)
            && (invalid == [] ==> after.progress.Finished?)
            && (invalid != [] ==>
                  after.progress == Running && after.finalNonChinese == invalid
                  && Map(RequestSequence, after.pending) == invalid)
  {
    hide Parse, InvalidSequences, Resolve;
    InvalidArePending(decisions, state.pending, requests, language);
  }

  lemma LeavesBad(before: seq<Request>, reply: Reply, after: seq<Request>, decisions: seq<Decision>, language: Language)
    requires Leaves(before, reply, after, language) && ReadsAs(reply, before, decisions, language)
    ensures Map(RequestSequence, after) == InvalidSequences(decisions, language)
  {
    hide ReadsAs, InvalidSequences;
    BadIsInvalid(decisions, language);
  }

  lemma TrailLeaves(requests: seq<Request>, replies: seq<Reply>, open: seq<seq<Request>>, language: Language, n: nat)
    requires Trail(requests, replies, open, language) && n < |replies|
    ensures Leaves(open[n], replies[n], open[n + 1], language)
  {}

  lemma StateRead(requests: seq<Request>, replies: seq<Reply>, language: Language, n: nat, decisions: seq<Decision>)
    requires n < |replies| && StateAfter(requests, replies, n, language).progress.Running?
    requires !replies[n].ClientRaised?
    requires Parse(replies[n], StateAfter(requests, replies, n, language).pending, language) == Some(decisions)
    ensures var before, state, invalid := StateAfter(requests, replies, n, language),
                StateAfter(requests, replies, n + 1, language), InvalidSequences(decisions, language);
            && state.calls == before.calls + 1 && state.resolved == Resolve(before.resolved, decisions, invalid)
            && (invalid == [] ==> state.progress.Finished?)
            && (invalid != [] ==>
                  state.progress == Running && state.finalNonChinese == invalid
                  && Map(RequestSequence, state.pending) == invalid)
  {
    hide Parse, InvalidSequences, Resolve, StateAfter;
    NextState(requests, replies, n, language);
    AttemptRead(StateAfter(requests, replies, n, language), requests, replies[n], decisions, language);
  }

  /** A reply that reads settles some sequences and leaves the others open. */
  lemma FollowsRead(requests: seq<Request>, replies: seq<Reply>, open: seq<seq<Request>>, language: Language, n: nat,
                    decisions: seq<Decision>)
    requires Trail(requests, replies, open, language) && n < |replies|
    requires Follows(requests, replies, open, language, n)
    requires !replies[n].ClientRaised? && ReadsAs(replies[n], open[n], decisions, language)
    ensures var before, state, invalid := StateAfter(requests, replies, n, language),
                StateAfter(requests, replies, n + 1, language), InvalidSequences(decisions, language);
            && state.calls == n + 1 && state.resolved == Resolve(before.resolved, decisions, invalid)
            && Map(RequestSequence, open[n + 1]) == invalid
            && (Decides(replies[n], open[n], language) ==> state.progress.Finished?)
            && (!Decides(replies[n], open[n], language) ==> Follows(requests, replies, open, language, n + 1))
  {
    hide StateAfter, Parse, ReadsAs, Reads, Decides, InvalidSequences, Resolve, Leaves;
    TrailLeaves(requests, replies, open, language, n);
    LeavesBad(open[n], replies[n], open[n + 1], decisions, language);
    hide Trail;
    ParseAlike(replies[n], StateAfter(requests, replies, n, language).pending, open[n], language);
    ParseExactly(replies[n], open[n], decisions, language);
    ReadsExactly(replies[n], open[n], language);
    StateRead(requests, replies, language, n, decisions);
  }

  lemma FollowsRaised(requests: seq<Request>, replies: seq<Reply>, open: seq<seq<Request>>, language: Language, n: nat)
    requires n < |replies| && |open| == |replies| + 1 && Follows(requests, replies, open, language, n)
    requires replies[n].ClientRaised?
    ensures var state := StateAfter(requests, replies, n + 1, language);
            state.calls == n + 1 && state.progress.ClientFailed?
  {
    hide Parse;
    NextState(requests, replies, n, language);
  }

  /** Every decision of the dictionary was settled by one of the replies. */
  ghost predicate AllSettled(replies: seq<Reply>, open: seq<seq<Request>>, language: Language, n: nat,
                             resolved: map<int, Decision>)
    requires n <= |replies| && |open| == |replies| + 1
  {
    forall s :: s in resolved ==>
      exists k: nat :: k < n && SettledBy(replies, open, language, k, s, resolved[s])
  }

  lemma SettledNow(replies: seq<Reply>, open: seq<seq<Request>>, language: Language, n: nat,
                   decisions: seq<Decision>, s: int, d: Decision)
    requires n < |replies| && |open| == |replies| + 1
    requires ReadsAs(replies[n], open[n], decisions, language) && d in decisions && d.sequence == s
    requires Map(RequestSequence, open[n + 1]) == InvalidSequences(decisions, language)
    requires s !in InvalidSequences(decisions, language)
    ensures SettledBy(replies, open, language, n, s, d)
  {
    hide InvalidSequences;
    ValidIsChinese(decisions, language, d);
    OpenExactly(open[n + 1], s);
  }

  lemma SettledStep(replies: seq<Reply>, open: seq<seq<Request>>, language: Language, n: nat,
                    resolved: map<int, Decision>, decisions: seq<Decision>)
    requires n < |replies| && |open| == |replies| + 1 && AllSettled(replies, open, language, n, resolved)
    requires ReadsAs(replies[n], open[n], decisions, language)
    requires Map(RequestSequence, open[n + 1]) == InvalidSequences(decisions, language)
    ensures AllSettled(replies, open, language, n + 1,
                       Resolve(resolved, decisions, InvalidSequences(decisions, language)))
  {
    hide Resolve, InvalidSequences, SettledBy, ReadsAs;
    var invalid := InvalidSequences(decisions, language);
    var after := Resolve(resolved, decisions, invalid);
    ResolveKeys(resolved, decisions, invalid);
    forall s | s in after
      ensures exists k: nat :: k < n + 1 && SettledBy(replies, open, language, k, s, after[s])
    {
      if s in resolved && after[s] == resolved[s] {
        var k: nat :| k < n && SettledBy(replies, open, language, k, s, resolved[s]);
        assert SettledBy(replies, open, language, k, s, after[s]);
      } else {
        SettledNow(replies, open, language, n, decisions, s, after[s]);
      }
    }
  }

  /** The run up to reply `n`: still going, or stopped by one reply. */
  ghost predicate RunsTo(requests: seq<Request>, replies: seq<Reply>, open: seq<seq<Request>>, language: Language,
                         n: nat)
    requires n <= |replies| && |open| == |replies| + 1
  {
    var state := StateAfter(requests, replies, n, language);
    && state.calls <= n && AllSettled(replies, open, language, state.calls, state.resolved)
    && (Follows(requests, replies, open, language, n) || StoppedBy(replies, open, language, state))
  }

  ghost predicate StoppedBy(replies: seq<Reply>, open: seq<seq<Request>>, language: Language, state: BatchState)
    requires state.calls <= |replies| && |open| == |replies| + 1
  {
    && state.calls >= 1 && !state.progress.Running?
    && Stops(replies[state.calls - 1], open[state.calls - 1], language)
    && (state.progress.ClientFailed? <==> replies[state.calls - 1].ClientRaised?)
    && (state.progress.Finished? ==> open[state.calls] == [])
    && forall m :: 0 <= m < state.calls - 1 ==> !Stops(replies[m], open[m], language)
  }

  lemma {:induction false} AlwaysRuns(requests: seq<Request>, replies: seq<Reply>, open: seq<seq<Request>>,
                                      language: Language, n: nat)
    requires Trail(requests, replies, open, language) && n <= |replies|
    ensures StateAfter(requests, replies, n, language).calls <= n
    ensures RunsTo(requests, replies, open, language, n)
  {
    if n == 0 {
      FollowsStart(requests, replies, open, language);
      Start(requests, replies, language);
    } else {
      AlwaysRuns(requests, replies, open, language, n - 1);
      var before := StateAfter(requests, replies, n - 1, language);
      if before.progress.Running? {
        assert Follows(requests, replies, open, language, n - 1);
        RunsOn(requests, replies, open, language, n - 1);
      } else {
        StoppedStays(requests, replies, n - 1, n, language);
      }
    }
  }

  lemma RunsOn(requests: seq<Request>, replies: seq<Reply>, open: seq<seq<Request>>, language: Language, n: nat)
    requires Trail(requests, replies, open, language) && n < |replies|
    requires Follows(requests, replies, open, language, n)
    requires AllSettled(replies, open, language, n, StateAfter(requests, replies, n, language).resolved)
    ensures StateAfter(requests, replies, n + 1, language).calls <= n + 1
    ensures RunsTo(requests, replies, open, language, n + 1)
  {
    hide StateAfter, ReadsAs, SettledBy, Resolve, Leaves;
    var state := StateAfter(requests, replies, n, language);
    if replies[n].ClientRaised? {
      FollowsRaised(requests, replies, open, language, n);
      RaisedKeeps(requests, replies, n, language);
    } else if decisions :| ReadsAs(replies[n], open[n], decisions, language) {
      FollowsRead(requests, replies, open, language, n, decisions);
      SettledStep(replies, open, language, n, state.resolved, decisions);
      ReadsExactlyOne(replies[n], open[n], decisions, language);
    } else {
      FollowsUnread(requests, replies, open, language, n);
    }
  }

  lemma RaisedKeeps(requests: seq<Request>, replies: seq<Reply>, n: nat, language: Language)
    requires n < |replies| && replies[n].ClientRaised? && StateAfter(requests, replies, n, language).progress.Running?
    ensures StateAfter(requests, replies, n + 1, language).resolved ==
            StateAfter(requests, replies, n, language).resolved
  {
    NextState(requests, replies, n, language);
  }

  lemma ReadsExactlyOne(reply: Reply, pending: seq<Request>, decisions: seq<Decision>, language: Language)
    requires ReadsAs(reply, pending, decisions, language)
    ensures Decides(reply, pending, language) <==> InvalidSequences(decisions, language) == []
  {
    hide Parse, ReadsAs, InvalidSequences;
    ParseExactly(reply, pending, decisions, language);
    ReadsExactly(reply, pending, language);
  }

  /** Main result: however the three replies read, the batch ends as `Concluded` says. */
  lemma BatchConcludes(requests: seq<Request>, replies: seq<Reply>, policy: Policy, language: Language,
                       open: seq<seq<Request>>, outcome: Outcome)
    requires |replies| == MAX_ATTEMPTS && requests != [] && Trail(requests, replies, open, language)
    requires Delivered(requests, StateAfter(requests, replies, MAX_ATTEMPTS, language), policy, outcome)
    ensures Concluded(requests, replies, policy, language, open, outcome,
                      StateAfter(requests, replies, MAX_ATTEMPTS, language).calls)
  {
    hide StateAfter, ReadsAs, Leaves, AllSettled, FinalDecisions;
    var state := StateAfter(requests, replies, MAX_ATTEMPTS, language);
    AlwaysRuns(requests, replies, open, language, MAX_ATTEMPTS);
    DecidesReads(replies[state.calls - 1], open[state.calls - 1], language);
    if outcome.Returned? {
      forall i | 0 <= i < |requests|
        ensures RightDecision(replies, open, language, state.calls, requests[i].sequence, outcome.decisions[i])
      {
        FinalIsRight(requests, replies, policy, language, open, requests[i].sequence);
      }
    }
  }

  lemma DecidesReads(reply: Reply, pending: seq<Request>, language: Language)
    ensures Decides(reply, pending, language) ==> Reads(reply, pending, language) && !reply.ClientRaised?
  {}

  lemma FinalIsRight(requests: seq<Request>, replies: seq<Reply>, policy: Policy, language: Language,
                     open: seq<seq<Request>>, s: int)
    requires |replies| == MAX_ATTEMPTS && |open| == |replies| + 1
    requires RunsTo(requests, replies, open, language, MAX_ATTEMPTS)
    requires var state := StateAfter(requests, replies, MAX_ATTEMPTS, language);
             Succeeds(state, policy) && s in FinalDecisions(state)
    ensures var state := StateAfter(requests, replies, MAX_ATTEMPTS, language);
            state.calls <= MAX_ATTEMPTS
            && RightDecision(replies, open, language, state.calls, s, FinalDecisions(state)[s])
  {
    hide StateAfter, ReadsAs, SettledBy, ForceDrops, Reads, Stops, Partitioned;
    var state := StateAfter(requests, replies, MAX_ATTEMPTS, language);
    OpenExactly(open[state.calls], s);
    if state.progress.Finished? {
      assert !Open(open[state.calls], s);
    } else {
      OpenExactly(state.pending, s);
      ForceDropsAt(state.resolved, state.finalNonChinese);
      FinalCoversPending(requests, replies, MAX_ATTEMPTS, language);
    }
  }

  /** There is such a trail for any replies. */
  lemma {:induction false} TrailExists(requests: seq<Request>, replies: seq<Reply>, language: Language)
    returns (open: seq<seq<Request>>)
    ensures Trail(requests, replies, open, language)
  {
    if replies == [] {
      open := [requests];
    } else {
      var n := |replies| - 1;
      var front := TrailExists(requests, replies[..n], language);
      var after := LeavesSomething(front[n], replies[n], language);
      open := front + [after];
      forall k | 0 <= k < |replies| ensures Leaves(open[k], replies[k], open[k + 1], language) {
        if k < n { assert Leaves(front[k], replies[..n][k], front[k + 1], language); }
      }
    }
  }

  lemma LeavesSomething(before: seq<Request>, reply: Reply, language: Language) returns (after: seq<Request>)
    ensures Leaves(before, reply, after, language)
  {
    hide ReadsAs, Parse;
    ReadsExactly(reply, before, language);
    var parsed := Parse(reply, before, language);
    if parsed.Some? {
      InvalidArePending(parsed.value, before, before, language);
      after := Retry(before, InvalidSequences(parsed.value, language));
      RetryMap(before, InvalidSequences(parsed.value, language));
      BadIsInvalid(parsed.value, language);
      forall decisions | ReadsAs(reply, before, decisions, language) ensures decisions == parsed.value {
        ParseExactly(reply, before, decisions, language);
      }
    } else {
      after := before;
    }
  }

  // ----- The loop

  /** The batch returns one decision per request, in request order, exactly when it succeeds. */
  ghost predicate Delivered(requests: seq<Request>, state: BatchState, policy: Policy, outcome: Outcome) {
    if Succeeds(state, policy) then
      && outcome.Returned? && |outcome.decisions| == |requests|
      && forall i :: 0 <= i < |requests| ==>
           requests[i].sequence in FinalDecisions(state)
           && outcome.decisions[i] == FinalDecisions(state)[requests[i].sequence]
    else
      outcome == Raised(if state.progress.ClientFailed? then ClientError else Exhausted)
  }

  /** One decision per request, in request order, every kept text Chinese-dominant. */
  predicate OnePerRequest(requests: seq<Request>, decisions: seq<Decision>, language: Language) {
    && |decisions| == |requests|
    && forall i :: 0 <= i < |requests| ==>
         decisions[i].sequence == requests[i].sequence
             && (decisions[i].keep ==> language.isChinese(decisions[i].textZh))
  }

  /** `process_batch` against any three replies. */
  method ProcessBatch(requests: seq<Request>, replies: seq<Reply>, policy: Policy, language: Language)
    returns (outcome: Outcome, calls: nat)
    requires |replies| == MAX_ATTEMPTS
    ensures calls <= MAX_ATTEMPTS
    ensures outcome.Returned? ==> OnePerRequest(requests, outcome.decisions, language)
    ensures |requests| > MAX_BATCH ==> outcome == Raised(TooLarge) && calls == 0
    ensures requests == [] ==> outcome == Returned([]) && calls == 0
    ensures 0 < |requests| <= MAX_BATCH ==>
              var state := StateAfter(requests, replies, MAX_ATTEMPTS, language);
              calls == state.calls && Delivered(requests, state, policy, outcome)
    ensures 0 < |requests| <= MAX_BATCH ==>
              forall open :: Trail(requests, replies, open, language) ==>
                Concluded(requests, replies, policy, language, open, outcome, calls)
  {
    hide Trail, Concluded, StateAfter, Partitioned, Attempt, FinalDecisions, RequestSequences, Delivered, Succeeds,
         Parse;
    calls := 0;
    if |requests| > MAX_BATCH { return Raised(TooLarge), 0; }
    if requests == [] { return Returned([]), 0; }
    var state := BatchState(map[], requests, [], Running, 0);
    Start(requests, replies, language);
    for attempt := 0 to MAX_ATTEMPTS
      invariant state == StateAfter(requests, replies, attempt, language)
      invariant state.progress.Running? && calls == attempt == state.calls
    {
      NextState(requests, replies, attempt, language);
      calls := calls + 1;
      state := OneAttempt(state, requests, replies[attempt], language);
      if !state.progress.Running? {
        StoppedStays(requests, replies, attempt + 1, MAX_ATTEMPTS, language);
        outcome := Deliver(requests, replies, state, policy, language);
        AllConclude(requests, replies, policy, language, outcome);
        return outcome, calls;
      }
    }
    outcome := Deliver(requests, replies, state, policy, language);
    AllConclude(requests, replies, policy, language, outcome);
  }

  lemma AllConclude(requests: seq<Request>, replies: seq<Reply>, policy: Policy, language: Language, outcome: Outcome)
    requires |replies| == MAX_ATTEMPTS && requests != []
    requires Delivered(requests, StateAfter(requests, replies, MAX_ATTEMPTS, language), policy, outcome)
    ensures forall open :: Trail(requests, replies, open, language) ==>
              Concluded(requests, replies, policy, language, open, outcome,
                        StateAfter(requests, replies, MAX_ATTEMPTS, language).calls)
  {
    hide StateAfter, Concluded, Delivered;
    forall open | Trail(requests, replies, open, language)
      ensures Concluded(requests, replies, policy, language, open, outcome,
                        StateAfter(requests, replies, MAX_ATTEMPTS, language).calls)
    {
      BatchConcludes(requests, replies, policy, language, open, outcome);
    }
  }

  lemma Start(requests: seq<Request>, replies: seq<Reply>, language: Language)
    ensures StateAfter(requests, replies, 0, language) == BatchState(map[], requests, [], Running, 0)
  {}

  lemma NextState(requests: seq<Request>, replies: seq<Reply>, n: nat, language: Language)
    requires n < |replies| && StateAfter(requests, replies, n, language).progress.Running?
    ensures StateAfter(requests, replies, n + 1, language)
            == Attempt(StateAfter(requests, replies, n, language), requests, replies[n], language)
    ensures StateAfter(requests, replies, n + 1, language).calls == StateAfter(requests, replies, n, language).calls + 1
  {
    hide Parse, InvalidSequences;
  }

  /** The end of the batch: the collected list, the forced drops, or the error. */
  method Deliver(requests: seq<Request>, ghost replies: seq<Reply>, state: BatchState, policy: Policy,
                 ghost language: Language)
    returns (outcome: Outcome)
    requires |replies| == MAX_ATTEMPTS && state == StateAfter(requests, replies, MAX_ATTEMPTS, language)
    ensures Delivered(requests, state, policy, outcome)
    ensures outcome.Returned? ==> OnePerRequest(requests, outcome.decisions, language)
  {
    hide StateAfter, Parse, RequestSequences, FinalDecisions;
    if state.progress.ClientFailed? { return Raised(ClientError); }
    if state.progress.Finished? || (policy.Drop? && state.finalNonChinese != []) {
      BatchResult(requests, replies, policy, language);
      return Returned(Collect(requests, FinalDecisions(state)));
    }
    outcome := Raised(Exhausted);
  }

  /** The decisions in request order. */
  function Collect(requests: seq<Request>, decisions: map<int, Decision>): (r: seq<Decision>)
    requires decisions.Keys == RequestSequences(requests)
    ensures |r| == |requests|
    ensures forall i :: 0 <= i < |r| ==> requests[i].sequence in decisions && r[i] == decisions[requests[i].sequence]
  {
    seq(|requests|, i requires 0 <= i < |requests| =>
      assert requests[i].sequence in RequestSequences(requests); decisions[requests[i].sequence])
  }

  lemma {:induction false} StoppedStays(requests: seq<Request>, replies: seq<Reply>, m: nat, n: nat, language: Language)
    requires m <= n <= |replies| && !StateAfter(requests, replies, m, language).progress.Running?
    ensures StateAfter(requests, replies, n, language) == StateAfter(requests, replies, m, language)
  {
    if m < n { StoppedStays(requests, replies, m, n - 1, language); }
  }

  /** The body of the retry loop, with its decision loop. */
  method OneAttempt(state: BatchState, requests: seq<Request>, reply: Reply, language: Language) returns (r: BatchState)
    requires forall q :: q in state.pending ==> q in requests
    ensures r == Attempt(state, requests, reply, language)
  {
    hide Parse, InvalidSequences, RequestSequences;
    if reply.ClientRaised? { return state.(progress := ClientFailed, calls := state.calls + 1); }
    var parsed := ParseReply(reply, state.pending, language);
    if parsed.None? { return state.(finalNonChinese := [], calls := state.calls + 1); }
    var decisions := parsed.value;
    var invalid := InvalidSequences(decisions, language);
    var resolved := state.resolved;
    for i := 0 to |decisions|
      invariant resolved == Resolve(state.resolved, decisions[..i], invalid)
    {
      assert decisions[..i + 1][..i] == decisions[..i];
      if decisions[i].sequence !in invalid { resolved := resolved[decisions[i].sequence := decisions[i]]; }
    }
    assert decisions[..|decisions|] == decisions;
    InvalidArePending(decisions, state.pending, requests, language);
    if invalid == [] { return BatchState(resolved, [], [], Finished, state.calls + 1); }
    r := BatchState(resolved, Retry(requests, invalid), invalid, Running, state.calls + 1);
  }

  /** `_parse` with its element loop. */
  method ParseReply(reply: Reply, pending: seq<Request>, language: Language) returns (r: Option<seq<Decision>>)
    ensures r == Parse(reply, pending, language)
  {
    if !reply.Decoded? || !reply.value.JObject? || "decisions" !in reply.value.fields { return None; }
    var raw := reply.value.fields["decisions"];
    if !raw.JList? { return None; }
    var decisions: seq<Decision> := [];
    for i := 0 to |raw.items|
      invariant ParseAll(raw.items[..i], language) == Some(decisions)
    {
      assert raw.items[..i + 1][..i] == raw.items[..i];
      var parsed := ParseDecision(raw.items[i], language);
      if parsed.None? {
        ParseStops(raw.items, i, language);
        return None;
      }
      decisions := decisions + [parsed.value];
    }
    assert raw.items[..|raw.items|] == raw.items;
    if DecisionSequences(decisions) != RequestSequences(pending) || |decisions| != |pending| { return None; }
    r := Some(decisions);
  }

  lemma {:induction false} ParseStops(items: seq<Json>, i: nat, language: Language)
    requires i < |items| && ParseDecision(items[i], language).None?
    ensures ParseAll(items, language).None?
  {
    if i < |items| - 1 { ParseStops(items[..|items| - 1], i, language); }
  }
}
