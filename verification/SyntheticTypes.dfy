/** Where gifts and super chats go among the synthetic events: `_synthetic_event_types`. */
module SyntheticTypes {
  import opened Rounding
  import opened Sorting
  import opened Workload
  import opened Events

  /** The middle of one of `parts` equal stretches, no later than the last place. */
  function Position(total: int, parts: int, index: nat): int
    requires total >= 1 && parts >= 1
  {
    Min(total - 1, (2 * index + 1) * total / (2 * parts))
  }

  lemma PositionInRange(total: int, parts: int, index: nat)
    requires total >= 1 && parts >= 1
    ensures 0 <= Position(total, parts, index) < total
  {
    MulMonotone(0, 2 * index + 1, total);
    DivMonotone(0, (2 * index + 1) * total, 2 * parts);
  }

  /** The clamp to `total - 1` is never needed inside the index range. */
  lemma PositionUnclamped(total: int, parts: int, index: nat)
    requires 1 <= total && index < parts
    ensures Position(total, parts, index) == (2 * index + 1) * total / (2 * parts)
  {
    MulMonotone(2 * index + 1, 2 * parts - 1, total);
    assert (2 * parts - 1) * total == total * (2 * parts) - total;
    DivBelow((2 * index + 1) * total, 2 * parts, total);
  }

  /** Consecutive positions differ whenever there is room, so the repair loop finds nothing to repair. */
  lemma PositionStep(total: int, parts: int, index: nat)
    requires 1 <= parts <= total && index + 1 < parts
    ensures Position(total, parts, index) < Position(total, parts, index + 1)
  {
    PositionUnclamped(total, parts, index);
    PositionUnclamped(total, parts, index + 1);
    var a, b := (2 * index + 1) * total, (2 * (index + 1) + 1) * total;
    assert b == a + 2 * total;
    DivMonotone(a + 2 * parts, b, 2 * parts);
    DivStep(a + 2 * parts, 2 * parts);
  }

  lemma {:induction false} PositionsDistinct(total: int, parts: int, i: nat, j: nat)
    requires 1 <= parts <= total && i < j < parts
    ensures 0 <= Position(total, parts, i) < Position(total, parts, j) < total
  {
    PositionInRange(total, parts, i);
    PositionInRange(total, parts, j);
    PositionStep(total, parts, j - 1);
    if i < j - 1 { PositionsDistinct(total, parts, i, j - 1); }
  }

  ghost predicate Increasing(q: seq<int>, n: int) {
    && (forall i, j :: 0 <= i < j < |q| ==> q[i] < q[j])
    && (forall i :: 0 <= i < |q| ==> 0 <= q[i] < n)
  }

  lemma PositionsIncrease(total: int, parts: int)
    requires 0 <= parts <= total
    ensures forall i, j :: 0 <= i < j < parts ==> Position(total, parts, i) < Position(total, parts, j)
    ensures forall i :: 0 <= i < parts ==> 0 <= Position(total, parts, i) < total
  {
    forall i, j | 0 <= i < j < parts ensures Position(total, parts, i) < Position(total, parts, j) {
      PositionsDistinct(total, parts, i, j);
    }
    forall i | 0 <= i < parts ensures 0 <= Position(total, parts, i) < total {
      PositionInRange(total, parts, i);
    }
  }

  /** All monetary positions, in ordinal order. */
  function Positions(total: int, parts: int): (r: seq<int>)
    requires 0 <= parts <= total
    ensures |r| == parts && Increasing(r, total)
  {
    PositionsIncrease(total, parts);
    seq(parts, i requires 0 <= i < parts => Position(total, parts, i))
  }

  /** How many of the first `n` types are `t`. */
  function CountUpTo(types: seq<EventType>, n: nat, t: EventType): nat
    requires n <= |types|
  {
    if n == 0 then 0 else CountUpTo(types, n - 1, t) + if types[n - 1] == t then 1 else 0
  }

  function Count(types: seq<EventType>, t: EventType): nat {
    CountUpTo(types, |types|, t)
  }

  lemma {:induction false} CountUpdate(types: seq<EventType>, p: nat, x: EventType, n: nat, t: EventType)
    requires p < |types| && n <= |types|
    ensures CountUpTo(types[p := x], n, t)
            == CountUpTo(types, n, t) + (if p < n && x == t then 1 else 0) - (if p < n && types[p] == t then 1 else 0)
  {
    if n > 0 { CountUpdate(types, p, x, n - 1, t); }
  }

  lemma {:induction false} CountPrepend(x: EventType, types: seq<EventType>, n: nat, t: EventType)
    requires n <= |types|
    ensures CountUpTo([x] + types, n + 1, t) == CountUpTo(types, n, t) + if x == t then 1 else 0
  {
    if n > 0 { CountPrepend(x, types, n - 1, t); }
  }

  /** The monetary types in position order, from ordinal `k` on. */
  function MonetaryTypes(k: nat, gifts: nat, superChats: nat, seed: int): (r: seq<EventType>)
    ensures |r| == gifts + superChats
    decreases gifts + superChats
  {
    if gifts + superChats == 0 then []
    else if ((k + seed) % 3 == 2 && superChats > 0) || gifts == 0 then
      [SuperChat] + MonetaryTypes(k + 1, gifts, superChats - 1, seed)
    else
      [Gift] + MonetaryTypes(k + 1, gifts - 1, superChats, seed)
  }

  lemma {:induction false} MonetaryCounts(k: nat, gifts: nat, superChats: nat, seed: int, t: EventType)
    ensures Count(MonetaryTypes(k, gifts, superChats, seed), t)
            == if t == Gift then gifts else if t == SuperChat then superChats else 0
    decreases gifts + superChats
  {
    if gifts + superChats > 0 {
      var superChat := ((k + seed) % 3 == 2 && superChats > 0) || gifts == 0;
      var x := if superChat then SuperChat else Gift;
      var g, s := if superChat then gifts else gifts - 1, if superChat then superChats - 1 else superChats;
      var rest := MonetaryTypes(k + 1, g, s, seed);
      assert MonetaryTypes(k, gifts, superChats, seed) == [x] + rest;
      MonetaryCounts(k + 1, g, s, seed, t);
      CountPrepend(x, rest, |rest|, t);
    }
  }

  /** `total` danmaku, with the first `k` types of `money` at the first `k` positions. */
  function Placed(total: int, positions: seq<int>, money: seq<EventType>, k: nat): (r: seq<EventType>)
    requires Increasing(positions, total) && |positions| == |money| && k <= |money| && total >= 0
    ensures |r| == total
  {
    if k == 0 then seq(total, _ => Danmaku)
    else Placed(total, positions, money, k - 1)[positions[k - 1] := money[k - 1]]
  }

  function EventTypes(total: int, gifts: nat, superChats: nat, seed: int): (r: seq<EventType>)
    requires gifts + superChats <= total
    ensures |r| == total
  {
    Placed(total, Positions(total, gifts + superChats), MonetaryTypes(0, gifts, superChats, seed), gifts + superChats)
  }

  lemma {:induction false} PlacedElsewhere(total: int, positions: seq<int>, money: seq<EventType>, k: nat, p: nat)
    requires Increasing(positions, total) && |positions| == |money| && k <= |money| && p < total
    requires forall i :: 0 <= i < k ==> positions[i] != p
    ensures Placed(total, positions, money, k)[p] == Danmaku
  {
    if k > 0 { PlacedElsewhere(total, positions, money, k - 1, p); }
  }

  lemma {:induction false} PlacedCount(total: int, positions: seq<int>, money: seq<EventType>, k: nat, t: EventType)
    requires Increasing(positions, total) && |positions| == |money| && k <= |money| && total >= 0
    ensures Count(Placed(total, positions, money, k), t)
            == CountUpTo(money, k, t) + (if t == Danmaku then total - k else 0)
  {
    if k == 0 {
      AllDanmaku(total, total, t);
    } else {
      var before, p := Placed(total, positions, money, k - 1), positions[k - 1];
      PlacedCount(total, positions, money, k - 1, t);
      PlacedElsewhere(total, positions, money, k - 1, p);
      CountUpdate(before, p, money[k - 1], total, t);
    }
  }

  lemma {:induction false} AllDanmaku(total: nat, n: nat, t: EventType)
    requires n <= total
    ensures CountUpTo(seq(total, _ => Danmaku), n, t) == if t == Danmaku then n else 0
  {
    if n > 0 { AllDanmaku(total, n - 1, t); }
  }

  /** Main result: for every seed, exactly the asked number of gifts and super chats, the rest danmaku. */
  lemma EventTypeCounts(total: int, gifts: nat, superChats: nat, seed: int, t: EventType)
    requires gifts + superChats <= total
    ensures Count(EventTypes(total, gifts, superChats, seed), t) ==
            match t
            case Gift => gifts
            case SuperChat => superChats
            case Danmaku => total - gifts - superChats
            case _ => 0
  {
    PlacedCount(total, Positions(total, gifts + superChats), MonetaryTypes(0, gifts, superChats, seed),
                gifts + superChats, t);
    MonetaryCounts(0, gifts, superChats, seed, t);
  }

  // ----- What the placement promises

  /** Place `p` holds the middle of stretch `k`, of `parts` equal ones. */
  predicate Middle(total: int, parts: int, k: nat, p: nat) {
    2 * parts * p <= (2 * k + 1) * total < 2 * parts * (p + 1)
  }

  function Before(types: seq<EventType>, p: nat, t: EventType): nat
    requires p <= |types|
  {
    |Filter((x: EventType) => x == t, types[..p])|
  }

  /** The middles of equal stretches hold the gifts and super chats: every third ordinal, shifted by the seed, a super
      chat while there are any left, otherwise a gift while there are any left. Everything else is danmaku. */
  ghost predicate RightTypes(types: seq<EventType>, gifts: nat, superChats: nat, seed: int) {
    forall p: nat :: p < |types| ==> RightPlace(types, gifts, superChats, seed, p)
  }

  ghost predicate RightPlace(types: seq<EventType>, gifts: nat, superChats: nat, seed: int, p: nat)
    requires p < |types|
  {
    var parts := gifts + superChats;
    && ((forall k: nat :: k < parts ==> !Middle(|types|, parts, k, p)) ==> types[p] == Danmaku)
    && forall k: nat :: k < parts && Middle(|types|, parts, k, p) ==>
         types[p] == if (k + seed) % 3 == 2 && Before(types, p, SuperChat) < superChats then SuperChat
                     else if Before(types, p, Gift) < gifts then Gift else SuperChat
  }

  lemma {:induction false} BeforeIsCount(types: seq<EventType>, p: nat, t: EventType)
    requires p <= |types|
    ensures Before(types, p, t) == CountUpTo(types, p, t)
  {
    if p > 0 {
      BeforeIsCount(types, p - 1, t);
      assert types[..p] == types[..p - 1] + [types[p - 1]];
      FilterAppend((x: EventType) => x == t, types[..p - 1], types[p - 1]);
    }
  }

  lemma MiddleExactly(total: int, parts: int, k: nat, p: nat)
    requires 1 <= parts <= total && k < parts
    ensures Middle(total, parts, k, p) <==> p == Position(total, parts, k)
  {
    PositionUnclamped(total, parts, k);
    var a, den := (2 * k + 1) * total, 2 * parts;
    var q := a / den;
    assert a == q * den + a % den;
    if Middle(total, parts, k, p) {
      DivUnique(a, den, p, a - p * den);
    }
  }

  lemma {:induction false} CountTail(types: seq<EventType>, m: nat, n: nat, t: EventType)
    requires m <= n <= |types| && forall i :: m <= i < n ==> types[i] != t
    ensures CountUpTo(types, n, t) == CountUpTo(types, m, t)
  {
    if m < n { CountTail(types, m, n - 1, t); }
  }

  /** Which monetary type the `k`-th is, from those before it. */
  lemma {:induction false} MoneyAt(start: nat, gifts: nat, superChats: nat, seed: int, k: nat)
    requires k < gifts + superChats
    ensures var money := MonetaryTypes(start, gifts, superChats, seed);
            money[k] == if (start + k + seed) % 3 == 2 && CountUpTo(money, k, SuperChat) < superChats then SuperChat
                        else if CountUpTo(money, k, Gift) < gifts then Gift else SuperChat
    decreases gifts + superChats
  {
    var superChat := ((start + seed) % 3 == 2 && superChats > 0) || gifts == 0;
    var x := if superChat then SuperChat else Gift;
    var g, s := if superChat then gifts else gifts - 1, if superChat then superChats - 1 else superChats;
    var rest := MonetaryTypes(start + 1, g, s, seed);
    assert MonetaryTypes(start, gifts, superChats, seed) == [x] + rest;
    if k > 0 {
      MoneyAt(start + 1, g, s, seed, k - 1);
      CountPrepend(x, rest, k - 1, SuperChat);
      CountPrepend(x, rest, k - 1, Gift);
    }
  }

  lemma {:induction false} PlacedAt(total: int, positions: seq<int>, money: seq<EventType>, n: nat, k: nat)
    requires Increasing(positions, total) && |positions| == |money| && k < n <= |money| && total >= 0
    ensures Placed(total, positions, money, n)[positions[k]] == money[k]
  {
    if k < n - 1 { PlacedAt(total, positions, money, n - 1, k); }
  }

  /** Before the place of ordinal `k` lie the first `k` monetary types. */
  lemma PlacedBefore(total: int, positions: seq<int>, money: seq<EventType>, k: nat, t: EventType)
    requires Increasing(positions, total) && |positions| == |money| && k < |money| && total >= 0 && t != Danmaku
    ensures CountUpTo(Placed(total, positions, money, |money|), positions[k], t) == CountUpTo(money, k, t)
  {
    var p := positions[k];
    PlacedPrefix(total, positions, money, k, |money|, t);
    var early := Placed(total, positions, money, k);
    forall i | p <= i < total ensures early[i] != t { PlacedElsewhere(total, positions, money, k, i); }
    CountTail(early, p, total, t);
    PlacedCount(total, positions, money, k, t);
  }

  lemma {:induction false} PlacedPrefix(total: int, positions: seq<int>, money: seq<EventType>, k: nat, n: nat,
                                        t: EventType)
    requires Increasing(positions, total) && |positions| == |money| && k <= n <= |money| && k < |money| && total >= 0
    ensures CountUpTo(Placed(total, positions, money, n), positions[k], t)
            == CountUpTo(Placed(total, positions, money, k), positions[k], t)
  {
    if k < n {
      PlacedPrefix(total, positions, money, k, n - 1, t);
      CountUpdate(Placed(total, positions, money, n - 1), positions[n - 1], money[n - 1], positions[k], t);
    }
  }

  /** Main result. */
  lemma TypesAreRight(total: int, gifts: nat, superChats: nat, seed: int)
    requires gifts + superChats <= total
    ensures RightTypes(EventTypes(total, gifts, superChats, seed), gifts, superChats, seed)
  {
    hide Middle, Placed, MonetaryTypes, Before, Position;
    var parts := gifts + superChats;
    var types := EventTypes(total, gifts, superChats, seed);
    forall p: nat | p < total ensures RightPlace(types, gifts, superChats, seed, p)
    {
      forall k: nat | k < parts ensures Middle(total, parts, k, p) <==> p == Position(total, parts, k) {
        MiddleExactly(total, parts, k, p);
      }
      PlaceIsRight(total, gifts, superChats, seed, p);
    }
  }

  lemma PlaceIsRight(total: int, gifts: nat, superChats: nat, seed: int, p: nat)
    requires gifts + superChats <= total && p < total
    ensures var parts, types := gifts + superChats, EventTypes(total, gifts, superChats, seed);
            && ((forall k: nat :: k < parts ==> p != Position(total, parts, k)) ==> types[p] == Danmaku)
            && forall k: nat :: k < parts && p == Position(total, parts, k) ==>
                 types[p] == if (k + seed) % 3 == 2 && Before(types, p, SuperChat) < superChats then SuperChat
                             else if Before(types, p, Gift) < gifts then Gift else SuperChat
  {
    hide Placed, MonetaryTypes, Before, Position;
    var parts, types := gifts + superChats, EventTypes(total, gifts, superChats, seed);
    var positions, money := Positions(total, parts), MonetaryTypes(0, gifts, superChats, seed);
    if forall k: nat :: k < parts ==> p != Position(total, parts, k) {
      PlacedElsewhere(total, positions, money, parts, p);
    }
    BeforeIsCount(types, p, SuperChat);
    BeforeIsCount(types, p, Gift);
    forall k: nat | k < parts && p == Position(total, parts, k)
      ensures types[p] == if (k + seed) % 3 == 2 && Before(types, p, SuperChat) < superChats then SuperChat
                          else if Before(types, p, Gift) < gifts then Gift else SuperChat
    {
      assert positions[k] == p;
      PlacedAt(total, positions, money, parts, k);
      PlacedBefore(total, positions, money, k, SuperChat);
      PlacedBefore(total, positions, money, k, Gift);
      MoneyAt(0, gifts, superChats, seed, k);
    }
  }

  /** `sorted` of a set of indexes below `n`. */
  function Ascend(s: set<int>, n: nat): seq<int> {
    if n == 0 then [] else Ascend(s, n - 1) + if n - 1 in s then [n - 1] else []
  }

  lemma {:induction false} AscendOfIncreasing(s: set<int>, n: nat, q: seq<int>)
    requires Increasing(q, n)
    requires forall x :: 0 <= x < n ==> (x in s <==> x in q)
    ensures Ascend(s, n) == q
  {
    if n > 0 {
      if n - 1 in s {
        var front := WithoutLargest(q, n);
        AscendOfIncreasing(s, n - 1, front);
      } else {
        assert n - 1 !in q;
        assert forall i :: 0 <= i < |q| ==> q[i] in q;
        AscendOfIncreasing(s, n - 1, q);
      }
    } else {
      NothingBelowZero(q);
    }
  }

  lemma NothingBelowZero(q: seq<int>)
    requires Increasing(q, 0)
    ensures q == []
  {
    if |q| > 0 { FirstInRange(q, 0); }
  }

  lemma FirstInRange(q: seq<int>, n: int)
    requires Increasing(q, n) && |q| > 0
    ensures 0 <= q[0] < n
  {}

  lemma WithoutLargest(q: seq<int>, n: nat) returns (front: seq<int>)
    requires Increasing(q, n) && n > 0 && n - 1 in q
    ensures q == front + [n - 1] && Increasing(front, n - 1)
    ensures forall x :: 0 <= x < n - 1 ==> (x in front <==> x in q)
  {
    var k :| 0 <= k < |q| && q[k] == n - 1;
    LastIsLargest(q, n, k);
    front := q[..k];
    forall i | 0 <= i < k ensures 0 <= front[i] < n - 1 { IncreasingAt(q, n, i, k); }
  }

  lemma LastIsLargest(q: seq<int>, n: int, k: nat)
    requires Increasing(q, n) && k < |q| && q[k] == n - 1
    ensures k == |q| - 1
  {
    if k < |q| - 1 { IncreasingAt(q, n, k, |q| - 1); }
  }

  lemma IncreasingAt(q: seq<int>, n: int, i: nat, j: nat)
    requires Increasing(q, n) && i < j < |q|
    ensures q[i] < q[j] < n
  {}

  lemma {:induction false} InitialRangeFits(s: set<int>, n: nat)
    requires forall i :: 0 <= i < n ==> i in s
    ensures n <= |s|
  {
    if n > 0 { InitialRangeFits(s - {n - 1}, n - 1); }
  }

  /** The quota loop: it turns the positions, in order, into gifts and super chats. */
  method FillQuota(total: nat, ordered: seq<int>, gifts: nat, superChats: nat, seed: int)
      returns (result: seq<EventType>)
    requires Increasing(ordered, total) && |ordered| == gifts + superChats
    ensures result == Placed(total, ordered, MonetaryTypes(0, gifts, superChats, seed), |ordered|)
  {
    result := seq(total, _ => Danmaku);
    var giftsLeft, superChatsLeft := gifts, superChats;
    ghost var money := MonetaryTypes(0, gifts, superChats, seed);
    for ordinal := 0 to |ordered|
      invariant giftsLeft >= 0 && superChatsLeft >= 0
      invariant giftsLeft + superChatsLeft == |ordered| - ordinal
      invariant money[ordinal..] == MonetaryTypes(ordinal, giftsLeft, superChatsLeft, seed)
      invariant result == Placed(total, ordered, money, ordinal)
    {
      var preferSuperChat := (ordinal + seed) % 3 == 2;
      assert money[ordinal] == money[ordinal..][0];
      assert money[ordinal + 1..] == money[ordinal..][1..];
      if preferSuperChat && superChatsLeft > 0 {
        result := result[ordered[ordinal] := SuperChat];
        superChatsLeft := superChatsLeft - 1;
      } else if giftsLeft > 0 {
        result := result[ordered[ordinal] := Gift];
        giftsLeft := giftsLeft - 1;
      } else {
        result := result[ordered[ordinal] := SuperChat];
        superChatsLeft := superChatsLeft - 1;
      }
    }
  }

  /** The position set, the repair loop and the quota loop. */
  method SyntheticEventTypes(total: int, gifts: nat, superChats: nat, seed: int) returns (result: seq<EventType>)
    requires gifts + superChats <= total
    ensures result == EventTypes(total, gifts, superChats, seed) && RightTypes(result, gifts, superChats, seed)
  {
    TypesAreRight(total, gifts, superChats, seed);
    hide RightTypes;
    var parts := gifts + superChats;
    var positions := set index | 0 <= index < parts :: Position(total, parts, index);
    ghost var initial := positions;
    while |positions| < parts
      invariant |initial| == parts ==> positions == initial
      decreases parts - |positions|
    {
      var index := 0;
      while index in positions
        invariant forall i :: 0 <= i < index ==> i in positions
        decreases |positions| - index
      {
        InitialRangeFits(positions, index + 1);
        index := index + 1;
      }
      positions := positions + {index};
    }
    // All positions were distinct from the start, so the repair added none.
    ListedOnce(total, parts, initial);
    AscendOfIncreasing(positions, total, Positions(total, parts));
    result := FillQuota(total, Ascend(positions, total), gifts, superChats, seed);
  }

  /** The position set holds each listed position, and as many of them as were asked for. */
  lemma ListedOnce(total: int, parts: int, positions: set<int>)
    requires 0 <= parts <= total
    requires positions == set index | 0 <= index < parts :: Position(total, parts, index)
    ensures |positions| == parts
    ensures forall x :: x in positions <==> x in Positions(total, parts)
  {
    var listed := Positions(total, parts);
    forall x ensures x in positions <==> x in listed {
      if x in listed {
        var i :| 0 <= i < |listed| && listed[i] == x;
        assert x == Position(total, parts, i);
      }
      if x in positions {
        var i :| 0 <= i < parts && x == Position(total, parts, i);
        assert listed[i] == x;
      }
    }
    SetOfIncreasing(listed, total, positions);
  }

  lemma {:induction false} SetOfIncreasing(q: seq<int>, n: int, s: set<int>)
    requires Increasing(q, n)
    requires forall x :: x in s <==> x in q
    ensures |s| == |q|
  {
    if q == [] {
      assert forall x :: x !in s;
    } else {
      var last, front := q[|q| - 1], q[..|q| - 1];
      assert q == front + [last];
      assert last !in front;
      SetOfIncreasing(front, n, s - {last});
    }
  }
}
