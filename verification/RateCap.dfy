/** Sliding-window rate cap of a captured chat: `TwitchVodCollector._shape_rate`. */
module RateCap {
  import opened Wrappers

  /** One chat comment: source offset in seconds, author, author name, text. */
  datatype ChatRecord = ChatRecord(offset: real, actorId: string, actorName: string, text: string)

  /** A comment with its position in the offset-sorted capture. */
  datatype Indexed = Indexed(sourceSequence: nat, record: ChatRecord)

  const WINDOW := 60.0

  function Offsets(records: seq<Indexed>): (v: seq<real>) {
    seq(|records|, i requires 0 <= i < |records| => records[i].record.offset)
  }

  predicate Ascending(v: seq<real>) {
    forall i, j :: 0 <= i < j < |v| ==> v[i] <= v[j]
  }

  /** Strictly increasing positions below `n`: the index form of a subsequence. */
  predicate Subsequence(n: nat, idx: seq<nat>) {
    && (forall i :: 0 <= i < |idx| ==> idx[i] < n)
    && (forall i, j :: 0 <= i < j < |idx| ==> idx[i] < idx[j])
  }

  function Pick<T>(s: seq<T>, idx: seq<nat>): (r: seq<T>)
    requires forall i :: 0 <= i < |idx| ==> idx[i] < |s|
  {
    seq(|idx|, i requires 0 <= i < |idx| => s[idx[i]])
  }

  predicate Within(offset: real, t: real) {
    t <= offset < t + WINDOW
  }

  /** How many of the first `n` chosen records fall in the half-open window starting at `t`. */
  function InWindow(v: seq<real>, idx: seq<nat>, n: nat, t: real): (count: nat)
    requires Subsequence(|v|, idx) && n <= |idx|
  {
    if n == 0 then 0
    else InWindow(v, idx, n - 1, t) + if Within(v[idx[n - 1]], t) then 1 else 0
  }

  /** The promise of the cap: no 60-second window, wherever it starts, holds more than `cap` chosen records. */
  ghost predicate WindowSafe(v: seq<real>, idx: seq<nat>, cap: nat)
    requires Subsequence(|v|, idx)
  {
    forall t: real :: InWindow(v, idx, |idx|, t) <= cap
  }

  /** Choice `j` lies at least a window after the choice `cap` places before it. */
  predicate Apart(v: seq<real>, idx: seq<nat>, j: nat, cap: nat)
    requires Subsequence(|v|, idx)
  {
    cap <= j < |idx| ==> v[idx[j]] - v[idx[j - cap]] >= WINDOW
  }

  ghost predicate Spaced(v: seq<real>, idx: seq<nat>, cap: nat)
    requires Subsequence(|v|, idx)
  {
    forall j: nat :: Apart(v, idx, j, cap)
  }

  lemma Ordered(v: seq<real>, idx: seq<nat>, i: nat, j: nat)
    requires Ascending(v) && Subsequence(|v|, idx) && i <= j < |idx|
    ensures v[idx[i]] <= v[idx[j]]
  {
    assert i < j ==> idx[i] < idx[j];
  }

  lemma {:induction false} InWindowStep(v: seq<real>, idx: seq<nat>, k: nat, n: nat, t: real)
    requires Subsequence(|v|, idx) && k <= n <= |idx|
    ensures InWindow(v, idx, k, t) <= InWindow(v, idx, n, t) <= InWindow(v, idx, k, t) + (n - k)
    ensures (forall i :: k <= i < n ==> Within(v[idx[i]], t)) ==>
            InWindow(v, idx, n, t) == InWindow(v, idx, k, t) + (n - k)
    ensures (forall i :: k <= i < n ==> !Within(v[idx[i]], t)) ==> InWindow(v, idx, n, t) == InWindow(v, idx, k, t)
  {
    if k < n { InWindowStep(v, idx, k, n - 1, t); }
  }

  lemma {:induction false} SpacedBoundsWindow(v: seq<real>, idx: seq<nat>, n: nat, cap: nat, t: real)
    requires cap >= 1 && Ascending(v) && Subsequence(|v|, idx) && Spaced(v, idx, cap) && n <= |idx|
    ensures InWindow(v, idx, n, t) <= cap
  {
    if n <= cap {
      InWindowStep(v, idx, 0, n, t);
    } else if Within(v[idx[n - 1]], t) {
      var k := n - cap;
      InWindowStep(v, idx, k, n, t);
      assert Apart(v, idx, n - 1, cap);
      forall i | 0 <= i < k ensures !Within(v[idx[i]], t) { Ordered(v, idx, i, k - 1); }
      InWindowStep(v, idx, 0, k, t);
    } else {
      SpacedBoundsWindow(v, idx, n - 1, cap, t);
    }
  }

  /** Choices closer than a window, `cap` places apart, overfill the window that starts at the first. */
  lemma CrowdedWindow(v: seq<real>, idx: seq<nat>, cap: nat, j: nat)
    requires Ascending(v) && Subsequence(|v|, idx) && !Apart(v, idx, j, cap)
    ensures InWindow(v, idx, |idx|, v[idx[j - cap]]) > cap
  {
    var i, t := j - cap, v[idx[j - cap]];
    forall k | i <= k <= j ensures Within(v[idx[k]], t) {
      Ordered(v, idx, i, k);
      Ordered(v, idx, k, j);
    }
    InWindowStep(v, idx, i, j + 1, t);
    InWindowStep(v, idx, j + 1, |idx|, t);
  }

  /** The two ways of stating the cap agree on offset-sorted records. */
  lemma WindowSafeIffSpaced(v: seq<real>, idx: seq<nat>, cap: nat)
    requires cap >= 1 && Ascending(v) && Subsequence(|v|, idx)
    ensures WindowSafe(v, idx, cap) <==> Spaced(v, idx, cap)
  {
    if Spaced(v, idx, cap) {
      forall t: real ensures InWindow(v, idx, |idx|, t) <= cap { SpacedBoundsWindow(v, idx, |idx|, cap, t); }
    } else {
      var j: nat :| !Apart(v, idx, j, cap);
      CrowdedWindow(v, idx, cap, j);
    }
  }

  /** Greedy choice over the first `n` records: take a record unless the last `cap` taken are too close. */
  function Greedy(v: seq<real>, n: nat, cap: nat): (idx: seq<nat>)
    requires n <= |v| && cap >= 1
    ensures Subsequence(n, idx)
  {
    if n == 0 then []
    else
      var g := Greedy(v, n - 1, cap);
      if Full(v, g, n - 1, cap) then g else g + [n - 1]
  }

  /** The last `cap` choices all lie less than a window before record `n`. */
  predicate Full(v: seq<real>, g: seq<nat>, n: nat, cap: nat)
    requires n < |v| && cap >= 1 && Subsequence(n, g)
  {
    |g| >= cap && v[g[|g| - cap]] > v[n] - WINDOW
  }

  lemma SpacedAppend(v: seq<real>, g: seq<nat>, n: nat, cap: nat, j: nat)
    requires n < |v| && cap >= 1 && Subsequence(n, g) && !Full(v, g, n, cap)
    requires Apart(v, g, j, cap)
    ensures Apart(v, g + [n], j, cap)
  {}

  lemma {:induction false} GreedySpaced(v: seq<real>, n: nat, cap: nat)
    requires n <= |v| && cap >= 1
    ensures Spaced(v, Greedy(v, n, cap), cap)
  {
    if n > 0 {
      GreedySpaced(v, n - 1, cap);
      var g := Greedy(v, n - 1, cap);
      if !Full(v, g, n - 1, cap) {
        var h := g + [n - 1];
        forall j: nat ensures Apart(v, h, j, cap) { SpacedAppend(v, g, n - 1, cap, j); }
      }
    }
  }

  /** `g` is at least as long as the first `m` of `other`, and none of its choices comes later. */
  ghost predicate Ahead(g: seq<nat>, other: seq<nat>, m: nat)
    requires m <= |other|
  {
    m <= |g| && forall i :: 0 <= i < m ==> g[i] <= other[i]
  }

  /** Greedy stays ahead: among the first `n` records it has chosen at least as many, each no later. */
  lemma {:induction false} GreedyStaysAhead(v: seq<real>, n: nat, cap: nat, other: seq<nat>, m: nat)
    requires n <= |v| && cap >= 1 && Ascending(v) && m <= |other|
    requires Subsequence(|v|, other) && Spaced(v, other, cap)
    requires m > 0 ==> other[m - 1] < n
    ensures Ahead(Greedy(v, n, cap), other, m)
  {
    if m > 0 {
      if other[m - 1] < n - 1 {
        GreedyStaysAhead(v, n - 1, cap, other, m);
        assert Ahead(Greedy(v, n - 1, cap), other, m);
      } else {
        assert m > 1 ==> other[m - 2] < other[m - 1];
        GreedyStaysAhead(v, n - 1, cap, other, m - 1);
        GreedyTakesInTime(v, n, cap, other, m);
      }
    }
  }

  lemma GreedyTakesInTime(v: seq<real>, n: nat, cap: nat, other: seq<nat>, m: nat)
    requires 0 < n <= |v| && cap >= 1 && Ascending(v) && 0 < m <= |other|
    requires Subsequence(|v|, other) && Spaced(v, other, cap) && other[m - 1] == n - 1
    requires Ahead(Greedy(v, n - 1, cap), other, m - 1)
    ensures Ahead(Greedy(v, n, cap), other, m)
  {
    var g := Greedy(v, n - 1, cap);
    if |g| >= m {
      assert g[m - 1] < n - 1;
    } else if |g| >= cap {
      var i := m - 1 - cap;
      assert Apart(v, other, m - 1, cap);
      assert g[i] <= other[i] < |v|;
      assert v[g[i]] <= v[other[i]];
      assert !Full(v, g, n - 1, cap);
    }
  }

  /** Main result: the greedy selection obeys the cap and no subsequence obeying it is longer. */
  lemma GreedySafeAndOptimal(v: seq<real>, cap: nat)
    requires cap >= 1 && Ascending(v)
    ensures WindowSafe(v, Greedy(v, |v|, cap), cap)
    ensures forall other: seq<nat> :: Subsequence(|v|, other) && WindowSafe(v, other, cap)
                                      ==> |other| <= |Greedy(v, |v|, cap)|
  {
    var g := Greedy(v, |v|, cap);
    GreedySpaced(v, |v|, cap);
    WindowSafeIffSpaced(v, g, cap);
    forall other: seq<nat> | Subsequence(|v|, other) && WindowSafe(v, other, cap)
      ensures |other| <= |g|
    {
      WindowSafeIffSpaced(v, other, cap);
      GreedyStaysAhead(v, |v|, cap, other, |other|);
    }
  }

  /** The deque is the tail of the selected offsets; everything popped lies a window before `latest`. */
  ghost predicate DequeInvariant(v: seq<real>, g: seq<nat>, recent: seq<real>, latest: real)
    requires Subsequence(|v|, g)
  {
    && |recent| <= |g|
    && (forall i :: 0 <= i < |recent| ==> recent[i] == v[g[|g| - |recent| + i]])
    && forall i :: 0 <= i < |g| - |recent| ==> v[g[i]] <= latest - WINDOW
  }

  /** Popping from the left keeps the deque invariant while moving its bound to the new record. */
  lemma PopKeeps(v: seq<real>, g: seq<nat>, before: seq<real>, popped: nat, earlier: real, latest: real)
    requires Subsequence(|v|, g) && DequeInvariant(v, g, before, earlier) && earlier <= latest
    requires popped <= |before| && forall i :: 0 <= i < popped ==> before[i] <= latest - WINDOW
    ensures DequeInvariant(v, g, before[popped..], latest)
  {
    var d := |g| - |before|;
    forall i | 0 <= i < d + popped ensures v[g[i]] <= latest - WINDOW {
      if i >= d { assert before[i - d] == v[g[i]]; }
    }
  }

  /** Once stale offsets are popped, the length of the deque decides exactly what the greedy rule decides. */
  lemma DequeDecides(v: seq<real>, n: nat, g: seq<nat>, cap: nat, recent: seq<real>)
    requires n < |v| && cap >= 1 && Ascending(v) && Subsequence(n, g)
    requires DequeInvariant(v, g, recent, v[n])
    requires recent == [] || recent[0] > v[n] - WINDOW
    ensures Full(v, g, n, cap) <==> |recent| >= cap
    ensures !Full(v, g, n, cap) ==> DequeInvariant(v, g + [n], recent + [v[n]], v[n])
  {
    if |recent| >= cap {
      assert recent[0] == v[g[|g| - |recent|]];
      Ordered(v, g, |g| - |recent|, |g| - cap);
    }
  }

  /** One record of the deque loop refines one greedy step. */
  lemma DequeStep(v: seq<real>, n: nat, cap: nat, before: seq<real>, popped: nat)
    requires n < |v| && cap >= 1 && Ascending(v)
    requires DequeInvariant(v, Greedy(v, n, cap), before, if n == 0 then v[0] else v[n - 1])
    requires popped <= |before| && forall i :: 0 <= i < popped ==> before[i] <= v[n] - WINDOW
    requires popped == |before| || before[popped] > v[n] - WINDOW
    ensures var recent := before[popped..];
            && Greedy(v, n + 1, cap) == (if |recent| < cap then Greedy(v, n, cap) + [n] else Greedy(v, n, cap))
            && DequeInvariant(v, Greedy(v, n + 1, cap), if |recent| < cap then recent + [v[n]] else recent, v[n])
  {
    PopKeeps(v, Greedy(v, n, cap), before, popped, if n == 0 then v[0] else v[n - 1], v[n]);
    DequeDecides(v, n, Greedy(v, n, cap), cap, before[popped..]);
  }

  lemma PickAppend<T>(s: seq<T>, idx: seq<nat>, n: nat)
    requires n < |s| && Subsequence(n, idx)
    ensures Pick(s, idx + [n]) == Pick(s, idx) + [s[n]]
  {}

  /** Increasing positions whose records keep a minute between every choice and the one `cap` places before. */
  ghost predicate Capped(records: seq<Indexed>, cap: nat, idx: seq<nat>) {
    && (forall i :: 0 <= i < |idx| ==> idx[i] < |records|)
    && (forall i, j :: 0 <= i < j < |idx| ==> idx[i] < idx[j])
    && forall i, j :: 0 <= i && j == i + cap && j < |idx| ==>
         records[idx[j]].record.offset - records[idx[i]].record.offset >= 60.0
  }

  /** What shaping promises: a capped choice that no capped choice outdoes in number or, choice by choice, in time.
      There is only one. */
  ghost predicate RightShape(records: seq<Indexed>, cap: nat, selected: seq<Indexed>) {
    exists idx: seq<nat> ::
      && Capped(records, cap, idx)
      && |selected| == |idx| && (forall i :: 0 <= i < |idx| ==> selected[i] == records[idx[i]])
      && forall other: seq<nat> :: Capped(records, cap, other) ==> NoLater(idx, other)
  }

  predicate NoLater(idx: seq<nat>, other: seq<nat>) {
    |other| <= |idx| && forall i :: 0 <= i < |other| ==> idx[i] <= other[i]
  }

  lemma CappedIsSpaced(records: seq<Indexed>, cap: nat, idx: seq<nat>)
    ensures Capped(records, cap, idx) <==>
            Subsequence(|records|, idx) && Spaced(Offsets(records), idx, cap)
  {
    if Subsequence(|records|, idx) && Spaced(Offsets(records), idx, cap) {
      forall i, j | 0 <= i && j == i + cap && j < |idx|
        ensures records[idx[j]].record.offset - records[idx[i]].record.offset >= 60.0
      {
        assert Apart(Offsets(records), idx, j, cap);
      }
    }
    if Capped(records, cap, idx) {
      forall j: nat ensures Apart(Offsets(records), idx, j, cap) {
        if cap <= j < |idx| { assert j == (j - cap) + cap; }
      }
    }
  }

  lemma ShapeIsRight(records: seq<Indexed>, cap: nat)
    requires cap >= 1 && Ascending(Offsets(records))
    ensures RightShape(records, cap, Pick(records, Greedy(Offsets(records), |records|, cap)))
  {
    var v := Offsets(records);
    var idx := Greedy(v, |v|, cap);
    GreedySpaced(v, |v|, cap);
    CappedIsSpaced(records, cap, idx);
    forall other: seq<nat> | Capped(records, cap, other) ensures NoLater(idx, other) {
      CappedIsSpaced(records, cap, other);
      GreedyStaysAhead(v, |v|, cap, other, |other|);
    }
  }

  /** Two shapes of one capture are one. */
  lemma ShapeUnique(records: seq<Indexed>, cap: nat, a: seq<Indexed>, b: seq<Indexed>)
    requires RightShape(records, cap, a) && RightShape(records, cap, b)
    ensures a == b
  {
    var i: seq<nat> :| Capped(records, cap, i) && |a| == |i| && (forall k :: 0 <= k < |i| ==> a[k] == records[i[k]])
                       && forall other: seq<nat> :: Capped(records, cap, other) ==> NoLater(i, other);
    var j: seq<nat> :| Capped(records, cap, j) && |b| == |j| && (forall k :: 0 <= k < |j| ==> b[k] == records[j[k]])
                       && forall other: seq<nat> :: Capped(records, cap, other) ==> NoLater(j, other);
    assert NoLater(i, j) && NoLater(j, i);
  }

  /** The deque loop. On offset-sorted records its result is the greedy selection. */
  method ShapeRate(records: seq<Indexed>, cap: Option<nat>) returns (selected: seq<Indexed>)
    requires cap.Some? ==> 1 <= cap.value <= 300
    ensures cap.None? ==> selected == records
    ensures cap.Some? && Ascending(Offsets(records)) ==>
              && selected == Pick(records, Greedy(Offsets(records), |records|, cap.value))
              && RightShape(records, cap.value, selected)
  {
    if cap.None? { return records; }
    selected := [];
    var recent: seq<real> := [];
    ghost var v := Offsets(records);
    for n := 0 to |records|
      invariant Ascending(v) ==>
                  selected == Pick(records, Greedy(v, n, cap.value))
      invariant Ascending(v) && v != [] ==>
                  DequeInvariant(v, Greedy(v, n, cap.value), recent, if n == 0 then v[0] else v[n - 1])
    {
      var offset := records[n].record.offset;
      ghost var before, popped: nat := recent, 0;
      while recent != [] && recent[0] <= offset - WINDOW
        invariant popped <= |before| && recent == before[popped..]
        invariant forall i :: 0 <= i < popped ==> before[i] <= offset - WINDOW
        decreases |recent|
      {
        popped := popped + 1;
        recent := recent[1..];
      }
      if Ascending(v) {
        DequeStep(v, n, cap.value, before, popped);
        PickAppend(records, Greedy(v, n, cap.value), n);
      }
      if |recent| < cap.value {
        recent := recent + [offset];
        selected := selected + [records[n]];
      }
    }
    if Ascending(v) { ShapeIsRight(records, cap.value); }
  }
}
