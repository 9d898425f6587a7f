/** Copypasta and same-actor deduplication: `TwitchVodCollector._prefilter`. */
module Prefilter {
  import opened Wrappers
  import opened RateCap

  const MIN_COPYPASTA_LENGTH := 24
  const MIN_COPYPASTA_REPEATS := 3
  const DUPLICATE_SECONDS := 30.0

  /** The two text rules, left uninterpreted: duplicate normalization, and the deterministic drop
      reason of the stripped text. */
  datatype TextRules = TextRules(normalize: string -> string, dropReason: string -> Option<string>)

  /** How many of the first `n` records carry the normalized text `key`. */
  function Repeats(records: seq<ChatRecord>, rules: TextRules, n: nat, key: string): nat
    requires n <= |records|
  {
    if n == 0 then 0
    else Repeats(records, rules, n - 1, key) + if rules.normalize(records[n - 1].text) == key then 1 else 0
  }

  /** A long text repeated often enough in the whole capture. */
  predicate Copypasta(records: seq<ChatRecord>, rules: TextRules, key: string) {
    |key| >= MIN_COPYPASTA_LENGTH && Repeats(records, rules, |records|, key) >= MIN_COPYPASTA_REPEATS
  }

  predicate Clean(records: seq<ChatRecord>, rules: TextRules, i: nat)
    requires i < |records|
  {
    rules.dropReason(records[i].text).None?
  }

  function Key(records: seq<ChatRecord>, rules: TextRules, i: nat): string
    requires i < |records|
  {
    rules.normalize(records[i].text)
  }

  predicate SameActorText(records: seq<ChatRecord>, rules: TextRules, i: nat, j: nat)
    requires i < |records| && j < |records|
  {
    records[i].actorId == records[j].actorId && Key(records, rules, i) == Key(records, rules, j)
  }

  /** One of the first `n` records survives the deterministic rules with the normalized text `key`. */
  predicate SeenClean(records: seq<ChatRecord>, rules: TextRules, n: nat, key: string)
    requires n <= |records|
  {
    n > 0
        && ((Clean(records, rules, n - 1) && Key(records, rules, n - 1) == key)
        || SeenClean(records, rules, n - 1, key))
  }

  predicate CleanBefore(records: seq<ChatRecord>, rules: TextRules, i: nat)
    requires i < |records|
  {
    SeenClean(records, rules, i, Key(records, rules, i))
  }

  lemma {:induction false} SeenCleanIntro(records: seq<ChatRecord>, rules: TextRules, n: nat, j: nat)
    requires j < n <= |records| && Clean(records, rules, j)
    ensures SeenClean(records, rules, n, Key(records, rules, j))
  {
    if j < n - 1 { SeenCleanIntro(records, rules, n - 1, j); }
  }

  /** The rule of the filter: what decides that record `i` stays. */
  predicate Kept(records: seq<ChatRecord>, rules: TextRules, i: nat)
    requires i < |records|
    decreases i, 1
  {
    && Clean(records, rules, i)
    && !(Copypasta(records, rules, Key(records, rules, i)) && CleanBefore(records, rules, i))
    && var last := LastKept(records, rules, i, records[i].actorId, Key(records, rules, i));
       last.None? || records[i].offset - records[last.value].offset > DUPLICATE_SECONDS
  }

  /** The latest kept record before `n` of this actor with this normalized text. */
  function LastKept(records: seq<ChatRecord>, rules: TextRules, n: nat, actor: string, key: string): (r: Option<nat>)
    requires n <= |records|
    ensures r.Some? ==> r.value < n && records[r.value].actorId == actor && Key(records, rules, r.value) == key
    decreases n, 0
  {
    if n == 0 then None
    else if Kept(records, rules, n - 1) && records[n - 1].actorId == actor && Key(records, rules, n - 1) == key
        then Some(n - 1)
    else LastKept(records, rules, n - 1, actor, key)
  }

  /** The records among the first `n` that stay, each with its position in the capture. */
  function Survivors(records: seq<ChatRecord>, rules: TextRules, n: nat): seq<Indexed>
    requires n <= |records|
  {
    if n == 0 then []
    else
      var front := Survivors(records, rules, n - 1);
      if Kept(records, rules, n - 1) then front + [Indexed(n - 1, records[n - 1])] else front
  }

  lemma {:induction false} LastKeptIsLatest(records: seq<ChatRecord>, rules: TextRules, n: nat, i: nat)
    requires i < n <= |records| && Kept(records, rules, i)
    ensures var last := LastKept(records, rules, n, records[i].actorId, Key(records, rules, i));
            last.Some? && i <= last.value && Kept(records, rules, last.value)
  {
    if i < n - 1 { LastKeptIsLatest(records, rules, n - 1, i); }
  }

  lemma {:induction false} LastKeptIsKept(records: seq<ChatRecord>, rules: TextRules, n: nat, actor: string,
                                          key: string)
    requires n <= |records|
    ensures var last := LastKept(records, rules, n, actor, key);
            last.Some? ==> Kept(records, rules, last.value)
  {
    if n > 0 { LastKeptIsKept(records, rules, n - 1, actor, key); }
  }

  ghost predicate OffsetSorted(records: seq<ChatRecord>) {
    forall i, j :: 0 <= i < j < |records| ==> records[i].offset <= records[j].offset
  }

  /** Any two kept records of one actor with one text, adjacent or not, are more than 30 seconds apart. */
  lemma KeptDuplicatesAreFarApart(records: seq<ChatRecord>, rules: TextRules, i: nat, j: nat)
    requires OffsetSorted(records) && i < j < |records|
    requires Kept(records, rules, i) && Kept(records, rules, j) && SameActorText(records, rules, i, j)
    ensures records[j].offset - records[i].offset > DUPLICATE_SECONDS
  {
    LastKeptIsLatest(records, rules, j, i);
    var last := LastKept(records, rules, j, records[i].actorId, Key(records, rules, i)).value;
    assert i == last || records[i].offset <= records[last].offset;
  }

  /** The first record with its text that survives the deterministic rules is always kept. */
  lemma FirstCleanIsKept(records: seq<ChatRecord>, rules: TextRules, i: nat)
    requires i < |records| && Clean(records, rules, i) && !CleanBefore(records, rules, i)
    ensures Kept(records, rules, i)
  {
    var last := LastKept(records, rules, i, records[i].actorId, Key(records, rules, i));
    LastKeptIsKept(records, rules, i, records[i].actorId, Key(records, rules, i));
    if last.Some? { SeenCleanIntro(records, rules, i, last.value); }
  }

  lemma {:induction false} FirstClean(records: seq<ChatRecord>, rules: TextRules, n: nat, key: string)
      returns (first: nat)
    requires n <= |records| && SeenClean(records, rules, n, key)
    ensures first < n && Key(records, rules, first) == key
    ensures Clean(records, rules, first) && !CleanBefore(records, rules, first)
  {
    if SeenClean(records, rules, n - 1, key) {
      first := FirstClean(records, rules, n - 1, key);
    } else {
      first := n - 1;
    }
  }

  /** Of a copypasta text with any record surviving the deterministic rules, exactly one record stays. */
  lemma CopypastaKeptOnce(records: seq<ChatRecord>, rules: TextRules, i: nat)
    requires i < |records| && Clean(records, rules, i) && Copypasta(records, rules, Key(records, rules, i))
    ensures exists first: nat ::
              && first <= i && Kept(records, rules, first) && Key(records, rules, first) == Key(records, rules, i)
              && forall k: nat :: k < |records| && k != first && Key(records, rules, k) == Key(records, rules, i)
                                  ==> !Kept(records, rules, k)
  {
    var key := Key(records, rules, i);
    var first := FirstClean(records, rules, i + 1, key);
    FirstCleanIsKept(records, rules, first);
    forall k: nat | k < |records| && k != first && Key(records, rules, k) == key
      ensures !Kept(records, rules, k)
    {
      if first < k {
        SeenCleanIntro(records, rules, k, first);
      } else if Clean(records, rules, k) {
        SeenCleanIntro(records, rules, first, k);
      }
    }
  }

  /** Nothing that survives the deterministic rules is dropped without an earlier kept record of its text. */
  lemma DroppedHasKeptWitness(records: seq<ChatRecord>, rules: TextRules, i: nat)
    requires i < |records| && Clean(records, rules, i) && !Kept(records, rules, i)
    ensures exists j: nat ::
              && j < i && Kept(records, rules, j) && Key(records, rules, j) == Key(records, rules, i)
              && (Copypasta(records, rules, Key(records, rules, i))
                  || (SameActorText(records, rules, i, j)
                      && records[i].offset - records[j].offset <= DUPLICATE_SECONDS))
  {
    if Copypasta(records, rules, Key(records, rules, i)) && CleanBefore(records, rules, i) {
      var first := FirstClean(records, rules, i, Key(records, rules, i));
      FirstCleanIsKept(records, rules, first);
    } else {
      LastKeptIsKept(records, rules, i, records[i].actorId, Key(records, rules, i));
    }
  }

  // ----- What the filter returns

  /** Record `i` is in the result, at its position. */
  predicate Stays(eligible: seq<Indexed>, records: seq<ChatRecord>, i: nat)
    requires i < |records|
  {
    Indexed(i, records[i]) in eligible
  }

  /** Nothing but records at their positions, in order. */
  ghost predicate PartOf(eligible: seq<Indexed>, records: seq<ChatRecord>) {
    && (forall k :: 0 <= k < |eligible| ==>
          eligible[k].sourceSequence < |records| && eligible[k].record == records[eligible[k].sourceSequence])
    && (forall j, k :: 0 <= j < k < |eligible| ==> eligible[j].sourceSequence < eligible[k].sourceSequence)
  }

  lemma NotYet(front: seq<Indexed>, records: seq<ChatRecord>, i: nat)
    requires i < |records| && forall k :: 0 <= k < |front| ==> front[k].sourceSequence < i
    ensures !Stays(front, records, i)
  {}

  /** The survivors are exactly the records the rule keeps. */
  lemma {:induction false} SurvivorsExactly(records: seq<ChatRecord>, rules: TextRules, n: nat)
    requires n <= |records|
    ensures PartOf(Survivors(records, rules, n), records)
    ensures forall k :: 0 <= k < |Survivors(records, rules, n)| ==> Survivors(records, rules, n)[k].sourceSequence < n
    ensures forall i :: 0 <= i < n ==> (Stays(Survivors(records, rules, n), records, i) <==> Kept(records, rules, i))
  {
    hide Kept;
    if n > 0 {
      SurvivorsExactly(records, rules, n - 1);
      var front, all := Survivors(records, rules, n - 1), Survivors(records, rules, n);
      forall i | 0 <= i < n ensures Stays(all, records, i) <==> Kept(records, rules, i) {
        if i == n - 1 { NotYet(front, records, i); }
      }
    }
  }

  /** The positions below `n` that carry a normalized text. */
  ghost function Carriers(records: seq<ChatRecord>, rules: TextRules, n: nat, key: string): set<nat>
    requires n <= |records|
  {
    set i: nat | i < n && rules.normalize(records[i].text) == key
  }

  /** A text of at least 24 characters on at least three records. */
  ghost predicate Pasted(records: seq<ChatRecord>, rules: TextRules, i: nat)
    requires i < |records|
  {
    var key := rules.normalize(records[i].text);
    |key| >= 24 && |Carriers(records, rules, |records|, key)| >= 3
  }

  lemma CarriersStep(records: seq<ChatRecord>, rules: TextRules, n: nat, key: string)
    requires n < |records|
    ensures Carriers(records, rules, n + 1, key)
            == Carriers(records, rules, n, key) + if rules.normalize(records[n].text) == key then {n} else {}
    ensures n !in Carriers(records, rules, n, key)
  {}

  lemma {:induction false} RepeatsCarriers(records: seq<ChatRecord>, rules: TextRules, n: nat, key: string)
    requires n <= |records|
    ensures Repeats(records, rules, n, key) == |Carriers(records, rules, n, key)|
  {
    if n > 0 {
      RepeatsCarriers(records, rules, n - 1, key);
      CarriersStep(records, rules, n - 1, key);
      hide Carriers;
    }
  }

  lemma PastedIsCopypasta(records: seq<ChatRecord>, rules: TextRules, i: nat)
    requires i < |records|
    ensures Pasted(records, rules, i) <==> Copypasta(records, rules, Key(records, rules, i))
  {
    RepeatsCarriers(records, rules, |records|, Key(records, rules, i));
  }

  /** The same normalized text. */
  predicate SameText(records: seq<ChatRecord>, rules: TextRules, i: nat, j: nat)
    requires i < |records| && j < |records|
  {
    rules.normalize(records[i].text) == rules.normalize(records[j].text)
  }

  /** Record `j` before `i` makes `i` a repeat: a pasted text, or the same author within 30 seconds. */
  ghost predicate RepeatsEarlier(records: seq<ChatRecord>, rules: TextRules, j: nat, i: nat)
    requires i < |records| && j < |records|
  {
    && j < i && SameText(records, rules, j, i)
    && (Pasted(records, rules, i)
        || (records[j].actorId == records[i].actorId && records[i].offset - records[j].offset <= 30.0))
  }

  /** What the filter promises of its result, without saying how it is computed: it holds records in order, each free
      of a deterministic drop reason and repeating no earlier record of the result, and it leaves out only records with
      a drop reason and repeats of an earlier record of the result. */
  ghost predicate WellFiltered(records: seq<ChatRecord>, rules: TextRules, eligible: seq<Indexed>) {
    && PartOf(eligible, records)
    && (forall i :: 0 <= i < |records| ==>
          (Stays(eligible, records, i) <==>
           rules.dropReason(records[i].text).None? && !RepeatsStaying(records, rules, eligible, i)))
  }

  ghost predicate RepeatsStaying(records: seq<ChatRecord>, rules: TextRules, eligible: seq<Indexed>, i: nat)
    requires i < |records|
  {
    exists j :: 0 <= j < i && Stays(eligible, records, j) && RepeatsEarlier(records, rules, j, i)
  }

  /** The rule in those terms. */
  lemma KeptExactly(records: seq<ChatRecord>, rules: TextRules, i: nat)
    requires OffsetSorted(records) && i < |records|
    ensures Kept(records, rules, i) <==>
            rules.dropReason(records[i].text).None?
            && !exists j :: 0 <= j < i && Kept(records, rules, j) && RepeatsEarlier(records, rules, j, i)
  {
    PastedIsCopypasta(records, rules, i);
    if j :| 0 <= j < i && Kept(records, rules, i) && Kept(records, rules, j) && RepeatsEarlier(records, rules, j, i) {
      if Pasted(records, rules, i) {
        SeenCleanIntro(records, rules, i, j);
      } else {
        KeptDuplicatesAreFarApart(records, rules, j, i);
      }
      assert false;
    }
    if Clean(records, rules, i) && !Kept(records, rules, i) {
      DroppedHasKeptWitness(records, rules, i);
    }
  }

  /** Main result: the survivors are what the filter promises. */
  lemma SurvivorsWellFiltered(records: seq<ChatRecord>, rules: TextRules)
    requires OffsetSorted(records)
    ensures WellFiltered(records, rules, Survivors(records, rules, |records|))
  {
    hide Kept, RepeatsEarlier;
    var eligible := Survivors(records, rules, |records|);
    SurvivorsExactly(records, rules, |records|);
    forall i | 0 <= i < |records|
      ensures Stays(eligible, records, i) <==>
              rules.dropReason(records[i].text).None? && !RepeatsStaying(records, rules, eligible, i)
    {
      KeptExactly(records, rules, i);
    }
  }

  /** And only they are: the promise determines the result. */
  lemma WellFilteredUnique(records: seq<ChatRecord>, rules: TextRules, a: seq<Indexed>, b: seq<Indexed>)
    requires WellFiltered(records, rules, a) && WellFiltered(records, rules, b)
    ensures a == b
  {
    hide RepeatsEarlier;
    forall i: nat | i < |records| ensures Stays(a, records, i) <==> Stays(b, records, i) {
      StaysAlike(records, rules, a, b, i);
    }
    SamePart(records, a, b);
  }

  lemma {:induction false} StaysAlike(records: seq<ChatRecord>, rules: TextRules, a: seq<Indexed>, b: seq<Indexed>,
                                      i: nat)
    requires WellFiltered(records, rules, a) && WellFiltered(records, rules, b) && i < |records|
    ensures Stays(a, records, i) <==> Stays(b, records, i)
  {
    hide RepeatsEarlier;
    forall j: nat | j < i ensures Stays(a, records, j) <==> Stays(b, records, j) {
      StaysAlike(records, rules, a, b, j);
    }
    assert RepeatsStaying(records, rules, a, i) <==> RepeatsStaying(records, rules, b, i);
  }

  /** Two ordered selections of the same records are equal. */
  lemma {:induction false} SamePart(records: seq<ChatRecord>, a: seq<Indexed>, b: seq<Indexed>)
    requires PartOf(a, records) && PartOf(b, records)
    requires forall i: nat :: i < |records| ==> (Stays(a, records, i) <==> Stays(b, records, i))
    ensures a == b
  {
    if a == [] || b == [] {
      if a != [] { assert Stays(a, records, a[0].sourceSequence); }
      if b != [] { assert Stays(b, records, b[0].sourceSequence); }
    } else {
      var x, y := a[|a| - 1], b[|b| - 1];
      assert Stays(a, records, x.sourceSequence) && Stays(b, records, y.sourceSequence);
      LastAlike(records, a, b);
      var front, other := a[..|a| - 1], b[..|b| - 1];
      forall i: nat | i < |records| ensures Stays(front, records, i) <==> Stays(other, records, i) {
        FrontStays(records, a, i);
        FrontStays(records, b, i);
      }
      SamePart(records, front, other);
      assert a == front + [x] && b == other + [y];
    }
  }

  lemma LastAlike(records: seq<ChatRecord>, a: seq<Indexed>, b: seq<Indexed>)
    requires PartOf(a, records) && PartOf(b, records) && a != [] && b != []
    requires Stays(b, records, a[|a| - 1].sourceSequence) && Stays(a, records, b[|b| - 1].sourceSequence)
    ensures a[|a| - 1] == b[|b| - 1]
  {
    var j :| 0 <= j < |b| && b[j].sourceSequence == a[|a| - 1].sourceSequence;
    var k :| 0 <= k < |a| && a[k].sourceSequence == b[|b| - 1].sourceSequence;
  }

  lemma FrontStays(records: seq<ChatRecord>, a: seq<Indexed>, i: nat)
    requires PartOf(a, records) && a != [] && i < |records|
    ensures Stays(a[..|a| - 1], records, i) <==> Stays(a, records, i) && i != a[|a| - 1].sourceSequence
  {
    var front := a[..|a| - 1];
    assert a == front + [a[|a| - 1]];
    if Stays(front, records, i) {
      var k :| 0 <= k < |front| && front[k] == Indexed(i, records[i]);
      assert a[k] == front[k];
    }
  }

  /** `Counter` over the normalized texts that are long enough. */
  method CountLongTexts(records: seq<ChatRecord>, rules: TextRules) returns (counts: map<string, nat>)
    ensures forall key :: (if key in counts then counts[key] else 0) ==
                          if |key| >= MIN_COPYPASTA_LENGTH then Repeats(records, rules, |records|, key) else 0
  {
    counts := map[];
    for n := 0 to |records|
      invariant forall key :: (if key in counts then counts[key] else 0) ==
                              if |key| >= MIN_COPYPASTA_LENGTH then Repeats(records, rules, n, key) else 0
    {
      var key := rules.normalize(records[n].text);
      if |key| >= MIN_COPYPASTA_LENGTH {
        counts := counts[key := (if key in counts then counts[key] else 0) + 1];
      }
    }
  }

  /** The filter loop with its seen-set and last-kept dictionary. */
  method PrefilterRecords(records: seq<ChatRecord>, rules: TextRules, enabled: bool) returns (eligible: seq<Indexed>)
    ensures enabled ==> eligible == Survivors(records, rules, |records|)
    ensures enabled && OffsetSorted(records) ==> WellFiltered(records, rules, eligible)
    ensures !enabled ==> |eligible| == |records| && forall i :: 0 <= i < |records| ==>
            eligible[i] == Indexed(i, records[i])
  {
    if !enabled {
      eligible := seq(|records|, i requires 0 <= i < |records| => Indexed(i, records[i]));
      return;
    }
    var counts := CountLongTexts(records, rules);
    var keptCopypasta: set<string> := {};
    var lastKept: map<(string, string), real> := map[];
    eligible := [];
    for i := 0 to |records|
      invariant eligible == Survivors(records, rules, i)
      invariant forall key :: key in keptCopypasta <==>
                              Copypasta(records, rules, key) && SeenClean(records, rules, i, key)
      invariant forall actor, key :: (actor, key) in lastKept <==> LastKept(records, rules, i, actor, key).Some?
      invariant forall actor, key :: (actor, key) in lastKept ==>
                                       lastKept[(actor, key)] ==
                                           records[LastKept(records, rules, i, actor, key).value].offset
    {
      var record := records[i];
      var normalized := rules.normalize(record.text);
      var reason := rules.dropReason(record.text);
      if reason.None? && normalized in counts && counts[normalized] >= MIN_COPYPASTA_REPEATS {
        if normalized in keptCopypasta {
          reason := Some("copypasta");
        } else {
          keptCopypasta := keptCopypasta + {normalized};
        }
      }
      var key := (record.actorId, normalized);
      if reason.None? && key in lastKept && record.offset - lastKept[key] <= DUPLICATE_SECONDS {
        reason := Some("same_actor_duplicate");
      }
      assert reason.None? <==> Kept(records, rules, i);
      if reason.None? {
        lastKept := lastKept[key := record.offset];
        eligible := eligible + [Indexed(i, record)];
      }
    }
    if OffsetSorted(records) { SurvivorsWellFiltered(records, rules); }
  }
}
