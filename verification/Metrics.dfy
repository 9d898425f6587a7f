/** Ranking metrics of retrieved chunks: `evaluations/rag/metrics.py`, over exact reals. */
module Metrics {
  import opened Wrappers
  import opened Distinct

  /** The weight of the 0-based rank `i`; the code uses `1 / log2(i + 2)`. */
  type Discount = nat -> real

  ghost predicate Decreasing(d: Discount) {
    (forall i: nat :: d(i) > 0.0) && (forall i: nat, j: nat :: i <= j ==> d(j) <= d(i))
  }

  ghost predicate StrictlyDecreasing(d: Discount) {
    Decreasing(d) && forall i: nat, j: nat :: i < j ==> d(j) < d(i)
  }

  function Elements<T(==)>(s: seq<T>): set<T> {
    set x | x in s
  }

  /** Length of `retrieved[:k]` for a positive `k`. */
  function Top(length: nat, k: int): nat {
    if k <= 0 then 0 else if k <= length then k else length
  }

  /** `_intersect_count` for a positive `k`. */
  function IntersectCount<T(==)>(retrieved: seq<T>, expected: seq<T>, k: int): nat {
    |Elements(retrieved[..Top(|retrieved|, k)]) * Elements(expected)|
  }

  function Recall<T(==)>(retrieved: seq<T>, expected: seq<T>, k: int): real {
    if expected == [] || k <= 0 then 0.0 else IntersectCount(retrieved, expected, k) as real / |expected| as real
  }

  function Precision<T(==)>(retrieved: seq<T>, expected: seq<T>, k: int): real {
    if retrieved == [] || k <= 0 then 0.0
        else IntersectCount(retrieved, expected, k) as real / Top(|retrieved|, k) as real
  }

  /** The rank of the first retrieved chunk that is expected. */
  function FirstHit<T(==)>(retrieved: seq<T>, expected: seq<T>): (r: Option<nat>)
    ensures r.Some? ==> r.value < |retrieved| && retrieved[r.value] in expected
    ensures forall i :: 0 <= i < (if r.Some? then r.value else |retrieved|) ==> retrieved[i] !in expected
  {
    if retrieved == [] then None
    else if retrieved[0] in expected then Some(0)
    else
      match FirstHit(retrieved[1..], expected)
      case None => None
      case Some(i) => Some(i + 1)
  }

  function Mrr<T(==)>(retrieved: seq<T>, expected: seq<T>): real {
    match FirstHit(retrieved, expected)
    case None => 0.0
    case Some(i) => 1.0 / (i + 1) as real
  }

  /** Relevant chunks among the first `n`, counted with repetition. */
  function Hits<T(==)>(retrieved: seq<T>, expected: seq<T>, n: nat): (h: nat)
    requires n <= |retrieved|
    ensures h <= n
  {
    if n == 0 then 0 else Hits(retrieved, expected, n - 1) + if retrieved[n - 1] in expected then 1 else 0
  }

  function Dcg<T(==)>(retrieved: seq<T>, expected: seq<T>, n: nat, d: Discount): real
    requires n <= |retrieved|
  {
    if n == 0 then 0.0 else Dcg(retrieved, expected, n - 1, d) + if retrieved[n - 1] in expected then d(n - 1) else 0.0
  }

  /** The sum of the first `n` discounts. */
  function Ideal(n: nat, d: Discount): real {
    if n == 0 then 0.0 else Ideal(n - 1, d) + d(n - 1)
  }

  function IdealLength(expected: nat, k: int): nat {
    Top(expected, k)
  }

  function Ndcg<T(==)>(retrieved: seq<T>, expected: seq<T>, k: int, d: Discount): real {
    if k <= 0 then 0.0
    else
      var idcg := Ideal(IdealLength(|expected|, k), d);
      if idcg == 0.0 then 0.0 else Dcg(retrieved, expected, Top(|retrieved|, k), d) / idcg
  }

  // ----- Set sizes

  lemma {:induction false} ElementsFit<T>(s: seq<T>)
    ensures |Elements(s)| <= |s|
  {
    if s != [] {
      var front := s[..|s| - 1];
      ElementsFit(front);
      assert s == front + [s[|s| - 1]];
      assert Elements(s) == Elements(front) + {s[|s| - 1]};
    }
  }

  lemma ElementsExtend<T>(s: seq<T>, n: nat)
    requires NoRepeats(s) && n < |s|
    ensures Elements(s[..n + 1]) == Elements(s[..n]) + {s[n]} && s[n] !in Elements(s[..n])
  {
    assert s[..n + 1] == s[..n] + [s[n]];
  }

  lemma MeetGrows<T>(a: set<T>, b: set<T>, x: T)
    requires x !in a
    ensures |(a + {x}) * b| == if x in b then |a * b| + 1 else |a * b|
  {
    assert (a + {x}) * b == if x in b then a * b + {x} else a * b;
  }

  /** In a duplicate-free list, hits are distinct expected chunks. */
  lemma {:induction false} HitsAreDistinct<T>(retrieved: seq<T>, expected: seq<T>, n: nat)
    requires NoRepeats(retrieved) && n <= |retrieved|
    ensures Hits(retrieved, expected, n) == |Elements(retrieved[..n]) * Elements(expected)|
  {
    hide NoRepeats;
    if n == 0 {
      assert Elements(retrieved[..0]) * Elements(expected) == {};
    } else {
      HitsAreDistinct(retrieved, expected, n - 1);
      ElementsExtend(retrieved, n - 1);
      MeetGrows(Elements(retrieved[..n - 1]), Elements(expected), retrieved[n - 1]);
    }
  }

  lemma HitsFitExpected<T>(retrieved: seq<T>, expected: seq<T>, n: nat)
    requires NoRepeats(retrieved) && n <= |retrieved|
    ensures Hits(retrieved, expected, n) <= |expected|
  {
    HitsAreDistinct(retrieved, expected, n);
    SubsetSize(Elements(retrieved[..n]) * Elements(expected), Elements(expected));
    ElementsFit(expected);
  }

  // ----- The rearrangement bound

  /** Hits at any `h` distinct ranks weigh no more than the first `h` discounts. */
  lemma {:induction false} DcgAtMostIdeal<T>(retrieved: seq<T>, expected: seq<T>, n: nat, d: Discount)
    requires Decreasing(d) && n <= |retrieved|
    ensures 0.0 <= Dcg(retrieved, expected, n, d) <= Ideal(Hits(retrieved, expected, n), d)
  {
    if n > 0 { DcgAtMostIdeal(retrieved, expected, n - 1, d); }
  }

  lemma {:induction false} IdealGrows(m: nat, n: nat, d: Discount)
    requires Decreasing(d) && m <= n
    ensures Ideal(m, d) <= Ideal(n, d)
    ensures m < n ==> Ideal(m, d) < Ideal(n, d)
  {
    if m < n { IdealGrows(m, n - 1, d); }
  }

  lemma RatioBounds(a: real, b: real)
    requires 0.0 <= a && b > 0.0
    ensures 0.0 <= a / b && (a / b <= 1.0 <==> a <= b) && (a / b == 1.0 <==> a == b)
  {}

  /** nDCG stays within [0, 1] whenever no more hits are counted than there are expected chunks. */
  lemma NdcgBounded<T>(retrieved: seq<T>, expected: seq<T>, k: int, d: Discount)
    requires Decreasing(d) && Hits(retrieved, expected, Top(|retrieved|, k)) <= |expected|
    ensures 0.0 <= Ndcg(retrieved, expected, k, d) <= 1.0
  {
    var n, m := Top(|retrieved|, k), IdealLength(|expected|, k);
    if k > 0 && m > 0 {
      DcgAtMostIdeal(retrieved, expected, n, d);
      IdealGrows(Hits(retrieved, expected, n), m, d);
      IdealGrows(0, m, d);
      RatioBounds(Dcg(retrieved, expected, n, d), Ideal(m, d));
    }
  }

  /** Main result: for a duplicate-free ranking nDCG lies in [0, 1], even when `expected` repeats chunks. */
  lemma NdcgOfDistinctBounded<T>(retrieved: seq<T>, expected: seq<T>, k: int, d: Discount)
    requires Decreasing(d) && NoRepeats(retrieved)
    ensures 0.0 <= Ndcg(retrieved, expected, k, d) <= 1.0
  {
    HitsFitExpected(retrieved, expected, Top(|retrieved|, k));
    NdcgBounded(retrieved, expected, k, d);
  }

  lemma {:induction false} UniformSums<T>(retrieved: seq<T>, expected: seq<T>, n: nat, m: nat)
    requires n <= |retrieved|
    ensures Dcg(retrieved, expected, n, (i: nat) => 1.0) == Hits(retrieved, expected, n) as real
    ensures Ideal(m, (i: nat) => 1.0) == m as real
    decreases n + m
  {
    if n > 0 { UniformSums(retrieved, expected, n - 1, m); }
    if m > 0 { UniformSums(retrieved, expected, n, m - 1); }
  }

  /** Without that assumption: every decreasing discount gives at most 1 exactly when the counted hits do
      not exceed the expected chunks. */
  lemma NdcgBoundedExactly<T>(retrieved: seq<T>, expected: seq<T>, k: int)
    ensures (forall d: Discount :: Decreasing(d) ==> Ndcg(retrieved, expected, k, d) <= 1.0)
            <==> Hits(retrieved, expected, Top(|retrieved|, k)) <= |expected|
  {
    var n, m := Top(|retrieved|, k), IdealLength(|expected|, k);
    if Hits(retrieved, expected, n) <= |expected| {
      forall d: Discount | Decreasing(d) ensures Ndcg(retrieved, expected, k, d) <= 1.0 {
        NdcgBounded(retrieved, expected, k, d);
      }
    } else {
      var uniform: Discount := (i: nat) => 1.0;
      UniformSums(retrieved, expected, n, m);
      NothingExpected(retrieved, expected, n);
      RatioBounds(Hits(retrieved, expected, n) as real, m as real);
      assert Ndcg(retrieved, expected, k, uniform) > 1.0;
      assert Decreasing(uniform);
    }
  }

  /** The ranks an ideal ranking fills are all hits, and the counted hits are more than those. */
  predicate HitsOverflow<T(==)>(retrieved: seq<T>, expected: seq<T>, k: int) {
    var n, m := Top(|retrieved|, k), IdealLength(|expected|, k);
    && m <= n && (forall i :: 0 <= i < m ==> retrieved[i] in expected)
    && Hits(retrieved, expected, n) > m
  }

  /** Hits beyond a front full of hits only add to its weight. */
  lemma {:induction false} FullFrontWeighs<T>(retrieved: seq<T>, expected: seq<T>, m: nat, n: nat, d: Discount)
    requires Decreasing(d) && m <= n <= |retrieved| && forall i :: 0 <= i < m ==> retrieved[i] in expected
    ensures Dcg(retrieved, expected, n, d) >= Ideal(m, d) && Hits(retrieved, expected, n) >= m
    ensures Hits(retrieved, expected, n) > m ==> Dcg(retrieved, expected, n, d) > Ideal(m, d)
    decreases n
  {
    if n > m { FullFrontWeighs(retrieved, expected, m, n - 1, d); }
    else if m > 0 { FullFrontWeighs(retrieved, expected, m - 1, n - 1, d); }
  }

  /** Weight 1 up to rank `j` and the small weight `tail` after it. */
  function Cliff(j: nat, tail: real): Discount {
    (i: nat) => if i <= j then 1.0 else tail
  }

  /** With rank `j` missed or not retrieved, a cliff behind it leaves less than `j + 1` whole hits. */
  lemma {:induction false} CliffSums<T>(retrieved: seq<T>, expected: seq<T>, n: nat, m: nat, j: nat, tail: real)
    requires n <= |retrieved| && tail > 0.0 && (j < n ==> retrieved[j] !in expected)
    ensures Dcg(retrieved, expected, n, Cliff(j, tail)) <= (if n <= j then n else j) as real + n as real * tail
    ensures Ideal(m, Cliff(j, tail)) >= (if m <= j + 1 then m else j + 1) as real
    decreases n + m
  {
    if n > 0 { CliffSums(retrieved, expected, n - 1, m, j, tail); }
    if m > 0 { CliffSums(retrieved, expected, n, m - 1, j, tail); }
  }

  /** An ideal rank that is not a hit leaves some decreasing discount at most 1. */
  lemma MissIsBounded<T>(retrieved: seq<T>, expected: seq<T>, k: int, j: nat)
    requires k > 0 && j < IdealLength(|expected|, k) && j <= Top(|retrieved|, k)
    requires j < Top(|retrieved|, k) ==> retrieved[j] !in expected
    ensures exists d: Discount :: Decreasing(d) && Ndcg(retrieved, expected, k, d) <= 1.0
  {
    var n, m := Top(|retrieved|, k), IdealLength(|expected|, k);
    var tail := 1.0 / (n + 1) as real;
    var d := Cliff(j, tail);
    CliffSums(retrieved, expected, n, m, j, tail);
    assert n as real * tail <= 1.0;
    assert Decreasing(d);
    DcgAtMostIdeal(retrieved, expected, n, d);
    RatioBounds(Dcg(retrieved, expected, n, d), Ideal(m, d));
    assert Ndcg(retrieved, expected, k, d) <= 1.0;
  }

  /** Main result, which reaches the logarithmic discount of the code: nDCG exceeds 1 for every decreasing discount
      exactly when the first min(|expected|, k) ranks are all hits and there are more hits than that. */
  lemma NdcgExceedsExactly<T>(retrieved: seq<T>, expected: seq<T>, k: int)
    ensures (forall d: Discount :: Decreasing(d) ==> Ndcg(retrieved, expected, k, d) > 1.0)
            <==> HitsOverflow(retrieved, expected, k)
  {
    var n, m := Top(|retrieved|, k), IdealLength(|expected|, k);
    if HitsOverflow(retrieved, expected, k) {
      NothingExpected(retrieved, expected, n);
      forall d: Discount | Decreasing(d) ensures Ndcg(retrieved, expected, k, d) > 1.0 {
        FullFrontWeighs(retrieved, expected, m, n, d);
        IdealGrows(0, m, d);
        RatioBounds(Dcg(retrieved, expected, n, d), Ideal(m, d));
      }
    } else {
      SomeDiscountBounds(retrieved, expected, k);
    }
  }

  lemma SomeDiscountBounds<T>(retrieved: seq<T>, expected: seq<T>, k: int)
    requires !HitsOverflow(retrieved, expected, k)
    ensures exists d: Discount :: Decreasing(d) && Ndcg(retrieved, expected, k, d) <= 1.0
  {
    var n, m := Top(|retrieved|, k), IdealLength(|expected|, k);
    var uniform: Discount := (i: nat) => 1.0;
    if Hits(retrieved, expected, n) <= |expected| {
      NdcgBounded(retrieved, expected, k, uniform);
    } else if j :| 0 <= j < m && j < n && retrieved[j] !in expected {
      MissIsBounded(retrieved, expected, k, j);
    } else if n < m {
      MissIsBounded(retrieved, expected, k, n);
    }
  }

  /** One expected chunk retrieved twice: nDCG exceeds 1, at the code's discount and every other. */
  lemma RepeatedHitExceeds(d: Discount)
    requires Decreasing(d)
    ensures Ndcg([0, 0], [0], 2, d) > 1.0
  {
    var retrieved, expected := [0, 0], [0];
    assert Hits(retrieved, expected, 1) == 1 && Hits(retrieved, expected, 2) == 2;
    NdcgExceedsExactly(retrieved, expected, 2);
  }

  lemma {:induction false} NothingExpected<T>(retrieved: seq<T>, expected: seq<T>, n: nat)
    requires n <= |retrieved|
    ensures expected == [] ==> Hits(retrieved, expected, n) == 0
  {
    if n > 0 { NothingExpected(retrieved, expected, n - 1); }
  }

  /** The hits among the first `n` come before every miss. */
  predicate HitsFirst<T(==)>(retrieved: seq<T>, expected: seq<T>, n: nat)
    requires n <= |retrieved|
  {
    forall i :: 0 <= i < n ==> (retrieved[i] in expected <==> i < Hits(retrieved, expected, n))
  }

  lemma HitsFirstStep<T>(retrieved: seq<T>, expected: seq<T>, n: nat)
    requires n < |retrieved|
    ensures HitsFirst(retrieved, expected, n + 1) <==>
            HitsFirst(retrieved, expected, n) && (retrieved[n] in expected ==> Hits(retrieved, expected, n) == n)
  {
    if HitsFirst(retrieved, expected, n + 1) && retrieved[n] in expected && Hits(retrieved, expected, n) < n {
      MissBefore(retrieved, expected, n);
    }
  }

  lemma DiscountAt(d: Discount, i: nat, j: nat)
    requires StrictlyDecreasing(d) && i <= j
    ensures Decreasing(d) && d(j) <= d(i) && (d(j) == d(i) <==> i == j)
  {}

  lemma SumsMeet(a: real, b: real, x: real, y: real)
    requires a <= b && x <= y
    ensures a + x == b + y <==> a == b && x == y
  {}

  lemma {:induction false} DcgIdealExactly<T>(retrieved: seq<T>, expected: seq<T>, n: nat, d: Discount)
    requires StrictlyDecreasing(d) && n <= |retrieved|
    ensures Dcg(retrieved, expected, n, d) == Ideal(Hits(retrieved, expected, n), d)
            <==> HitsFirst(retrieved, expected, n)
  {
    hide HitsFirst, StrictlyDecreasing, Decreasing;
    if n == 0 {
      NothingFirst(retrieved, expected);
    } else {
      var h := Hits(retrieved, expected, n - 1);
      DcgIdealExactly(retrieved, expected, n - 1, d);
      DiscountAt(d, h, n - 1);
      DcgAtMostIdeal(retrieved, expected, n - 1, d);
      HitsFirstStep(retrieved, expected, n - 1);
      SumsMeet(Dcg(retrieved, expected, n - 1, d), Ideal(h, d), d(n - 1), d(h));
    }
  }

  lemma NothingFirst<T>(retrieved: seq<T>, expected: seq<T>)
    ensures HitsFirst(retrieved, expected, 0)
  {}

  lemma {:induction false} MissBefore<T>(retrieved: seq<T>, expected: seq<T>, n: nat)
    requires n <= |retrieved| && Hits(retrieved, expected, n) < n
    ensures exists i :: 0 <= i < n && retrieved[i] !in expected
  {
    if retrieved[n - 1] in expected { MissBefore(retrieved, expected, n - 1); }
  }

  /** Main result: for a duplicate-free ranking and a strictly decreasing discount, nDCG is 1 exactly when the
      first min(|expected|, k) chunks are all relevant. */
  lemma PerfectExactly<T>(retrieved: seq<T>, expected: seq<T>, k: int, d: Discount)
    requires StrictlyDecreasing(d) && NoRepeats(retrieved) && expected != [] && k > 0
    ensures var m := IdealLength(|expected|, k);
            Ndcg(retrieved, expected, k, d) == 1.0 <==> m <= |retrieved| && forall i :: 0 <= i < m ==>
                retrieved[i] in expected
  {
    var n, m := Top(|retrieved|, k), IdealLength(|expected|, k);
    var h := Hits(retrieved, expected, n);
    HitsFitExpected(retrieved, expected, n);
    DcgAtMostIdeal(retrieved, expected, n, d);
    DcgIdealExactly(retrieved, expected, n, d);
    IdealGrows(h, m, d);
    IdealGrows(0, m, d);
    RatioBounds(Dcg(retrieved, expected, n, d), Ideal(m, d));
    if m <= |retrieved| && forall i :: 0 <= i < m ==> retrieved[i] in expected {
      AllHits(retrieved, expected, m, n);
      FirstMissesAfter(retrieved, expected, m, n);
    }
  }

  lemma {:induction false} AllHits<T>(retrieved: seq<T>, expected: seq<T>, m: nat, n: nat)
    requires m <= n <= |retrieved| && forall i :: 0 <= i < m ==> retrieved[i] in expected
    ensures Hits(retrieved, expected, n) >= m
    decreases n
  {
    if n > m { AllHits(retrieved, expected, m, n - 1); }
    else if m > 0 { AllHits(retrieved, expected, m - 1, n - 1); }
  }

  /** With exactly `m` hits, all in front, everything after them misses. */
  lemma {:induction false} FirstMissesAfter<T>(retrieved: seq<T>, expected: seq<T>, m: nat, n: nat)
    requires m <= n <= |retrieved| && forall i :: 0 <= i < m ==> retrieved[i] in expected
    ensures Hits(retrieved, expected, n) == m ==> HitsFirst(retrieved, expected, n)
    decreases n
  {
    if n > m {
      AllHits(retrieved, expected, m, n - 1);
      FirstMissesAfter(retrieved, expected, m, n - 1);
    }
  }

  // ----- Recall, precision and reciprocal rank

  lemma TopPrefix<T>(retrieved: seq<T>, j: int, k: int)
    requires j <= k
    ensures Elements(retrieved[..Top(|retrieved|, j)]) <= Elements(retrieved[..Top(|retrieved|, k)])
  {
    var a, b := retrieved[..Top(|retrieved|, j)], retrieved[..Top(|retrieved|, k)];
    assert forall i :: 0 <= i < |a| ==> a[i] == b[i];
  }

  lemma DivMonotone(a: real, b: real, c: real)
    requires a <= b && c > 0.0
    ensures a / c <= b / c
  {}

  /** Recall never falls as k grows. */
  lemma RecallMonotone<T>(retrieved: seq<T>, expected: seq<T>, j: int, k: int)
    requires j <= k
    ensures Recall(retrieved, expected, j) <= Recall(retrieved, expected, k)
  {
    TopPrefix(retrieved, j, k);
    SubsetSize(Elements(retrieved[..Top(|retrieved|, j)]) * Elements(expected),
               Elements(retrieved[..Top(|retrieved|, k)]) * Elements(expected));
    if expected != [] && k > 0 {
      DivMonotone(0.0, IntersectCount(retrieved, expected, k) as real, |expected| as real);
      if j > 0 {
        DivMonotone(IntersectCount(retrieved, expected, j) as real, IntersectCount(retrieved, expected, k) as real,
                    |expected| as real);
      }
    }
  }

  /** Recall and precision lie in [0, 1] for every input. */
  lemma ShareBounds<T>(retrieved: seq<T>, expected: seq<T>, k: int)
    ensures 0.0 <= Recall(retrieved, expected, k) <= 1.0
    ensures 0.0 <= Precision(retrieved, expected, k) <= 1.0
  {
    var top := retrieved[..Top(|retrieved|, k)];
    var both := Elements(top) * Elements(expected);
    SubsetSize(both, Elements(expected));
    SubsetSize(both, Elements(top));
    ElementsFit(expected);
    ElementsFit(top);
    if expected != [] { RatioBounds(|both| as real, |expected| as real); }
    if top != [] { RatioBounds(|both| as real, |top| as real); }
  }

  lemma ReciprocalOrder(a: nat, b: nat)
    requires a > 0 && b > 0
    ensures 1.0 / a as real >= 1.0 / b as real <==> a <= b
  {}

  /** The first k hold an expected chunk exactly when the first hit lies among them. */
  lemma HitInTop<T>(retrieved: seq<T>, expected: seq<T>, k: int)
    requires k > 0
    ensures IntersectCount(retrieved, expected, k) > 0 <==>
            FirstHit(retrieved, expected).Some?
            && FirstHit(retrieved, expected).value < k
  {
    var top := retrieved[..Top(|retrieved|, k)];
    var both := Elements(top) * Elements(expected);
    var first := FirstHit(retrieved, expected);
    if first.Some? && first.value < k {
      assert top[first.value] in both;
      SubsetSize({top[first.value]}, both);
    } else {
      assert forall j :: 0 <= j < |top| ==> top[j] == retrieved[j] && retrieved[j] !in expected;
      assert both == {};
    }
  }

  /** The reciprocal rank reaches 1/k exactly when recall at k is positive: both say the first k hold a hit. */
  lemma MrrMeetsRecall<T>(retrieved: seq<T>, expected: seq<T>, k: int)
    requires k > 0
    ensures Mrr(retrieved, expected) >= 1.0 / k as real <==> Recall(retrieved, expected, k) > 0.0
  {
    hide FirstHit, IntersectCount;
    HitInTop(retrieved, expected, k);
    RatioPositive(1.0, k as real);
    if expected == [] {
      assert FirstHit(retrieved, expected).None?;
    } else {
      RatioPositive(IntersectCount(retrieved, expected, k) as real, |expected| as real);
    }
    if FirstHit(retrieved, expected).Some? { ReciprocalOrder(FirstHit(retrieved, expected).value + 1, k); }
  }

  lemma RatioPositive(a: real, b: real)
    requires a >= 0.0 && b > 0.0
    ensures a / b > 0.0 <==> a > 0.0
  {}

  // ----- The promises, without the functions above

  /** The distinct expected chunks among the first k retrieved. */
  ghost function Found<T>(retrieved: seq<T>, expected: seq<T>, k: int): set<T> {
    set x | x in expected && exists i :: 0 <= i < k && i < |retrieved| && retrieved[i] == x
  }

  lemma FoundIs<T>(retrieved: seq<T>, expected: seq<T>, k: int)
    ensures Found(retrieved, expected, k) == Elements(retrieved[..Top(|retrieved|, k)]) * Elements(expected)
  {
    var top := retrieved[..Top(|retrieved|, k)];
    forall x | x in expected ensures x in Found(retrieved, expected, k) <==> x in top {
      if i :| 0 <= i < |top| && top[i] == x { assert retrieved[i] == x; }
      if i :| 0 <= i < k && i < |retrieved| && retrieved[i] == x { assert top[i] == x; }
    }
  }

  /** `share` of `n` things is `count` of them. */
  predicate Shares(share: real, n: int, count: nat) {
    share * n as real == count as real
  }

  lemma QuotientShares(count: nat, n: nat)
    requires n > 0
    ensures Shares(count as real / n as real, n, count)
  {}

  lemma NothingShares(n: int)
    ensures Shares(0.0, n, 0)
  {}

  /** Recall shares them out over the expected chunks. */
  lemma RecallIsRight<T>(retrieved: seq<T>, expected: seq<T>, k: int)
    ensures Shares(Recall(retrieved, expected, k), |expected|, |Found(retrieved, expected, k)|)
  {
    FoundIs(retrieved, expected, k);
    hide Shares, Found;
    if expected == [] || k <= 0 {
      assert Elements(retrieved[..Top(|retrieved|, k)]) * Elements(expected) == {};
      NothingShares(|expected|);
    } else {
      QuotientShares(IntersectCount(retrieved, expected, k), |expected|);
    }
  }

  /** Precision shares them out over the retrieved chunks, at most k of them. */
  lemma PrecisionIsRight<T>(retrieved: seq<T>, expected: seq<T>, k: int)
    ensures var n := if k <= |retrieved| then k else |retrieved|;
            && (k > 0 ==> Shares(Precision(retrieved, expected, k), n, |Found(retrieved, expected, k)|))
            && (n <= 0 ==> Precision(retrieved, expected, k) == 0.0)
  {
    FoundIs(retrieved, expected, k);
    hide Shares, Found;
    if retrieved == [] {
      assert Elements(retrieved[..Top(|retrieved|, k)]) * Elements(expected) == {};
      NothingShares(0);
    } else if k > 0 {
      QuotientShares(IntersectCount(retrieved, expected, k), Top(|retrieved|, k));
    }
  }

  /** The partial sums of `weight`. */
  ghost predicate Accumulates(weight: nat -> real, n: nat, sums: seq<real>) {
    |sums| == n + 1 && sums[0] == 0.0 && forall i :: 0 <= i < n ==> sums[i + 1] == sums[i] + weight(i)
  }

  function GainAt<T(==)>(retrieved: seq<T>, expected: seq<T>, d: Discount): nat -> real {
    (i: nat) => if i < |retrieved| && retrieved[i] in expected then d(i) else 0.0
  }

  /** What nDCG promises: the discounted hits among the first k over the discounts of as many first ranks as there are
      expected chunks. */
  ghost predicate RightNdcg<T>(retrieved: seq<T>, expected: seq<T>, k: int, d: Discount, score: real) {
    if k <= 0 then score == 0.0
    else
      exists gains, ideals ::
        && Accumulates(GainAt(retrieved, expected, d), k, gains)
        && Accumulates(d, |expected|, ideals)
        && Quotient(gains[k], ideals[if k <= |expected| then k else |expected|], score)
  }

  predicate Quotient(gain: real, ideal: real, score: real) {
    if ideal == 0.0 then score == 0.0 else score * ideal == gain
  }

  lemma GainsAre<T>(retrieved: seq<T>, expected: seq<T>, d: Discount, n: nat) returns (gains: seq<real>)
    ensures Accumulates(GainAt(retrieved, expected, d), n, gains)
    ensures gains[n] == Dcg(retrieved, expected, Top(|retrieved|, n), d)
  {
    gains := seq(n + 1, i requires 0 <= i => Dcg(retrieved, expected, Top(|retrieved|, i), d));
  }

  lemma IdealsAre(d: Discount, n: nat) returns (ideals: seq<real>)
    ensures Accumulates(d, n, ideals) && forall i :: 0 <= i <= n ==> ideals[i] == Ideal(i, d)
  {
    ideals := seq(n + 1, i requires 0 <= i => Ideal(i, d));
  }

  lemma QuotientIs(gain: real, ideal: real)
    ensures Quotient(gain, ideal, if ideal == 0.0 then 0.0 else gain / ideal)
  {}

  lemma NdcgIsRight<T>(retrieved: seq<T>, expected: seq<T>, k: int, d: Discount)
    ensures RightNdcg(retrieved, expected, k, d, Ndcg(retrieved, expected, k, d))
  {
    if k > 0 {
      hide Dcg, Ideal, Quotient, GainAt;
      var gains := GainsAre(retrieved, expected, d, k);
      var ideals := IdealsAre(d, |expected|);
      var ideal := Ideal(IdealLength(|expected|, k), d);
      QuotientIs(gains[k], ideal);
      assert ideals[if k <= |expected| then k else |expected|] == ideal;
      assert Quotient(gains[k], ideal, Ndcg(retrieved, expected, k, d));
    }
  }

  predicate Reciprocal(score: real, rank: int) {
    score * rank as real == 1.0
  }

  lemma ReciprocalIs(rank: int)
    requires rank > 0
    ensures Reciprocal(1.0 / rank as real, rank)
  {}

  /** What the reciprocal rank promises. */
  ghost predicate RightMrr<T>(retrieved: seq<T>, expected: seq<T>, score: real) {
    if exists i :: 0 <= i < |retrieved| && retrieved[i] in expected
    then exists i :: 0 <= i < |retrieved| && retrieved[i] in expected && Reciprocal(score, i + 1)
                     && forall j :: 0 <= j < i ==> retrieved[j] !in expected
    else score == 0.0
  }

  // ----- The loops

  method NdcgAtK<T(==)>(retrieved: seq<T>, expected: seq<T>, k: int, d: Discount) returns (score: real)
    ensures score == Ndcg(retrieved, expected, k, d) && RightNdcg(retrieved, expected, k, d, score)
  {
    NdcgIsRight(retrieved, expected, k, d);
    hide RightNdcg;
    if k <= 0 { return 0.0; }
    var dcg := 0.0;
    for i := 0 to Top(|retrieved|, k)
      invariant dcg == Dcg(retrieved, expected, i, d)
    {
      if retrieved[i] in expected { dcg := dcg + d(i); }
    }
    var idcg := 0.0;
    for i := 0 to IdealLength(|expected|, k)
      invariant idcg == Ideal(i, d)
    {
      idcg := idcg + d(i);
    }
    if idcg == 0.0 { return 0.0; }
    score := dcg / idcg;
  }

  /** The scan with its early return: the reciprocal of the first hit's rank, 0 when there is none. */
  method MeanReciprocalRank<T(==)>(retrieved: seq<T>, expected: seq<T>) returns (score: real)
    ensures score == Mrr(retrieved, expected) && RightMrr(retrieved, expected, score)
  {
    hide RightMrr, Mrr;
    NoHit(retrieved, expected);
    if expected == [] { return 0.0; }
    for i := 0 to |retrieved|
      invariant forall j :: 0 <= j < i ==> retrieved[j] !in expected
    {
      if retrieved[i] in expected {
        HitAt(retrieved, expected, i);
        return 1.0 / (i + 1) as real;
      }
    }
    score := 0.0;
  }

  lemma HitAt<T>(retrieved: seq<T>, expected: seq<T>, i: nat)
    requires i < |retrieved| && retrieved[i] in expected && forall j :: 0 <= j < i ==> retrieved[j] !in expected
    ensures Mrr(retrieved, expected) == 1.0 / (i + 1) as real
    ensures RightMrr(retrieved, expected, 1.0 / (i + 1) as real)
  {
    ReciprocalIs(i + 1);
    hide Reciprocal;
    assert FirstHit(retrieved, expected) == Some(i);
  }

  lemma NoHit<T>(retrieved: seq<T>, expected: seq<T>)
    ensures (forall j :: 0 <= j < |retrieved| ==> retrieved[j] !in expected) ==>
              Mrr(retrieved, expected) == 0.0 && RightMrr(retrieved, expected, 0.0)
  {}
}
