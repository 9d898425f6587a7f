/** Python's stable `sorted`, and the selections a comprehension makes. */
module Sorting {
  ghost predicate TotalPreorder<T(!new)>(le: (T, T) -> bool) {
    && (forall x, y :: le(x, y) || le(y, x))
    && (forall x, y, z :: le(x, y) && le(y, z) ==> le(x, z))
  }

  predicate SortedBy<T>(le: (T, T) -> bool, s: seq<T>) {
    forall i, j :: 0 <= i < j < |s| ==> le(s[i], s[j])
  }

  /** Places `x` before the first element it does not exceed. */
  function Insert<T>(le: (T, T) -> bool, x: T, s: seq<T>): seq<T> {
    if s == [] then [x]
    else if le(x, s[0]) then [x] + s
    else [s[0]] + Insert(le, x, s[1..])
  }

  function Sort<T>(le: (T, T) -> bool, s: seq<T>): seq<T> {
    if s == [] then [] else Insert(le, s[0], Sort(le, s[1..]))
  }

  function Filter<T>(p: T -> bool, s: seq<T>): (r: seq<T>)
    ensures forall x :: x in r ==> x in s && p(x)
    ensures forall x :: x in s && p(x) ==> x in r
    ensures |r| <= |s|
  {
    if s == [] then []
    else if p(s[0]) then [s[0]] + Filter(p, s[1..])
    else Filter(p, s[1..])
  }

  function Map<T, U>(f: T -> U, s: seq<T>): (r: seq<U>)
    ensures |r| == |s| && forall i :: 0 <= i < |s| ==> r[i] == f(s[i])
  {
    seq(|s|, i requires 0 <= i < |s| => f(s[i]))
  }

  /** The parts one after another. */
  function Flat<T>(parts: seq<seq<T>>): seq<T> {
    if parts == [] then [] else Flat(parts[..|parts| - 1]) + parts[|parts| - 1]
  }

  lemma FlatStep<T>(parts: seq<seq<T>>, more: seq<T>)
    ensures Flat(parts + [more]) == Flat(parts) + more
  {
    assert (parts + [more])[..|parts|] == parts;
  }

  lemma MapsAgree<T, U>(f: T -> U, g: T -> U, s: seq<T>)
    requires forall i :: 0 <= i < |s| ==> f(s[i]) == g(s[i])
    ensures Map(f, s) == Map(g, s)
  {}

  lemma {:induction false} InsertPermutes<T>(le: (T, T) -> bool, x: T, s: seq<T>)
    ensures multiset(Insert(le, x, s)) == multiset(s) + multiset{x}
    ensures |Insert(le, x, s)| == |s| + 1
  {
    if s != [] && !le(x, s[0]) {
      InsertPermutes(le, x, s[1..]);
      assert s == [s[0]] + s[1..];
    }
  }

  lemma {:induction false} SortPermutes<T>(le: (T, T) -> bool, s: seq<T>)
    ensures multiset(Sort(le, s)) == multiset(s)
    ensures |Sort(le, s)| == |s|
  {
    if s != [] {
      SortPermutes(le, s[1..]);
      InsertPermutes(le, s[0], Sort(le, s[1..]));
      assert s == [s[0]] + s[1..];
    }
  }

  lemma SortKeepsElements<T>(le: (T, T) -> bool, s: seq<T>)
    ensures forall x :: x in s ==> x in Sort(le, s)
    ensures forall x :: x in Sort(le, s) ==> x in s
  {
    SortPermutes(le, s);
    forall x | x in s ensures x in Sort(le, s) {
      assert x in multiset(s);
    }
    forall x | x in Sort(le, s) ensures x in s {
      assert x in multiset(Sort(le, s));
    }
  }

  lemma {:induction false} InsertSorts<T(!new)>(le: (T, T) -> bool, x: T, s: seq<T>)
    requires TotalPreorder(le) && SortedBy(le, s)
    ensures SortedBy(le, Insert(le, x, s))
  {
    if s != [] && !le(x, s[0]) {
      InsertSorts(le, x, s[1..]);
      var rest := Insert(le, x, s[1..]);
      InsertPermutes(le, x, s[1..]);
      forall j | 0 <= j < |rest| ensures le(s[0], rest[j]) {
        assert rest[j] in multiset(rest);
        assert rest[j] == x || rest[j] in s[1..];
      }
    }
  }

  lemma {:induction false} SortSorts<T(!new)>(le: (T, T) -> bool, s: seq<T>)
    requires TotalPreorder(le)
    ensures SortedBy(le, Sort(le, s))
  {
    if s != [] {
      SortSorts(le, s[1..]);
      InsertSorts(le, s[0], Sort(le, s[1..]));
    }
  }

  lemma {:induction false} SortOfSorted<T>(le: (T, T) -> bool, s: seq<T>)
    requires SortedBy(le, s)
    ensures Sort(le, s) == s
  {
    if |s| > 1 {
      SortOfSorted(le, s[1..]);
      assert le(s[0], s[1]);
    }
  }

  lemma {:induction false} FilterInsert<T(!new)>(le: (T, T) -> bool, p: T -> bool, x: T, s: seq<T>)
    requires TotalPreorder(le) && SortedBy(le, s)
    ensures Filter(p, Insert(le, x, s)) == if p(x) then Insert(le, x, Filter(p, s)) else Filter(p, s)
  {
    if s == [] {
    } else if le(x, s[0]) {
      var f := Filter(p, s);
      if f != [] {
        assert f[0] in s;
        assert le(s[0], f[0]) by {
          var k :| 0 <= k < |s| && s[k] == f[0];
          assert k == 0 ==> le(s[0], s[0]);
        }
      }
      assert ([x] + s)[1..] == s;
    } else {
      FilterInsert(le, p, x, s[1..]);
      var t := [s[0]] + Insert(le, x, s[1..]);
      assert t[1..] == Insert(le, x, s[1..]);
      if p(s[0]) && p(x) {
        assert Filter(p, s)[1..] == Filter(p, s[1..]);
      }
    }
  }

  /** A stable sort commutes with selecting a sub-collection. */
  lemma {:induction false} FilterSort<T(!new)>(le: (T, T) -> bool, p: T -> bool, s: seq<T>)
    requires TotalPreorder(le)
    ensures Filter(p, Sort(le, s)) == Sort(le, Filter(p, s))
  {
    if s != [] {
      FilterSort(le, p, s[1..]);
      SortSorts(le, s[1..]);
      FilterInsert(le, p, s[0], Sort(le, s[1..]));
      if p(s[0]) { assert Filter(p, s)[1..] == Filter(p, s[1..]); }
    }
  }

  /** By `le`, and among what `le` cannot tell apart by `tie`. */
  function Refined<T>(le: (T, T) -> bool, tie: (T, T) -> bool): (T, T) -> bool {
    (a, b) => le(a, b) && (le(b, a) ==> tie(a, b))
  }

  lemma {:induction false} InsertRefined<T>(le: (T, T) -> bool, tie: (T, T) -> bool, x: T, s: seq<T>)
    requires forall y :: y in s ==> tie(x, y)
    ensures Insert(Refined(le, tie), x, s) == Insert(le, x, s)
  {
    if s != [] { InsertRefined(le, tie, x, s[1..]); }
  }

  /** A stable sort keeps the order of what it cannot tell apart. */
  lemma {:induction false} SortRefined<T>(le: (T, T) -> bool, tie: (T, T) -> bool, s: seq<T>)
    requires SortedBy(tie, s)
    ensures Sort(Refined(le, tie), s) == Sort(le, s)
  {
    if s != [] {
      SortRefined(le, tie, s[1..]);
      SortKeepsElements(le, s[1..]);
      forall y | y in Sort(le, s[1..]) ensures tie(s[0], y) {
        var i :| 0 <= i < |s[1..]| && s[1..][i] == y;
        assert s[i + 1] == y;
      }
      InsertRefined(le, tie, s[0], Sort(le, s[1..]));
    }
  }

  /** Elements the order cannot tell apart are equal. */
  ghost predicate Distinguishes<T>(le: (T, T) -> bool, s: seq<T>) {
    forall i, j :: 0 <= i < |s| && 0 <= j < |s| && le(s[i], s[j]) && le(s[j], s[i]) ==> s[i] == s[j]
  }

  lemma SameHead<T>(le: (T, T) -> bool, a: seq<T>, b: seq<T>)
    requires SortedBy(le, a) && SortedBy(le, b) && Distinguishes(le, a)
    requires multiset(a) == multiset(b) && a != []
    ensures b != [] && a[0] == b[0]
  {
    assert a[0] in multiset(b);
    assert b[0] in multiset(a);
    var i :| 0 <= i < |a| && a[i] == b[0];
    var j :| 0 <= j < |b| && b[j] == a[0];
    if i > 0 && j > 0 {
      assert le(a[0], a[i]) && le(b[0], b[j]);
    }
  }

  lemma TailKeeps<T>(le: (T, T) -> bool, s: seq<T>)
    requires SortedBy(le, s) && s != []
    ensures SortedBy(le, s[1..])
    ensures Distinguishes(le, s) ==> Distinguishes(le, s[1..])
  {
    if Distinguishes(le, s) {
      var t := s[1..];
      forall i, j | 0 <= i < |t| && 0 <= j < |t| && le(t[i], t[j]) && le(t[j], t[i]) ensures t[i] == t[j] {
        assert t[i] == s[i + 1] && t[j] == s[j + 1];
      }
    }
  }

  /** Two sorted arrangements of the same elements coincide when ties are equal elements. */
  lemma {:induction false} SortedUnique<T>(le: (T, T) -> bool, a: seq<T>, b: seq<T>)
    requires SortedBy(le, a) && SortedBy(le, b) && Distinguishes(le, a)
    requires multiset(a) == multiset(b)
    ensures a == b
  {
    if a == [] {
      assert |b| == |multiset(b)| == 0;
    } else {
      SameHead(le, a, b);
      var ta, tb := a[1..], b[1..];
      assert a == [a[0]] + ta && b == [a[0]] + tb;
      assert multiset(ta) == multiset(tb) by {
        assert multiset(ta) == multiset(a) - multiset{a[0]};
        assert multiset(tb) == multiset(b) - multiset{a[0]};
      }
      TailKeeps(le, a);
      TailKeeps(le, b);
      SortedUnique(le, ta, tb);
    }
  }

  lemma {:induction false} FilterConcat<T>(p: T -> bool, a: seq<T>, b: seq<T>)
    ensures Filter(p, a + b) == Filter(p, a) + Filter(p, b)
  {
    if a == [] {
      assert a + b == b;
    } else {
      var head := if p(a[0]) then [a[0]] else [];
      calc {
        Filter(p, a + b);
        { assert (a + b)[1..] == a[1..] + b && (a + b)[0] == a[0]; }
        head + Filter(p, a[1..] + b);
        { FilterConcat(p, a[1..], b); }
        head + (Filter(p, a[1..]) + Filter(p, b));
        (head + Filter(p, a[1..])) + Filter(p, b);
        Filter(p, a) + Filter(p, b);
      }
    }
  }

  lemma {:induction false} FilterAll<T>(p: T -> bool, s: seq<T>)
    requires forall x :: x in s ==> p(x)
    ensures Filter(p, s) == s
  {
    if s != [] { FilterAll(p, s[1..]); }
  }

  lemma {:induction false} FilterNone<T>(p: T -> bool, s: seq<T>)
    requires forall x :: x in s ==> !p(x)
    ensures Filter(p, s) == []
  {
    if s != [] { FilterNone(p, s[1..]); }
  }

  /** Conditions that agree on the elements select alike. */
  lemma {:induction false} FilterAlike<T>(p: T -> bool, q: T -> bool, s: seq<T>)
    requires forall x :: x in s ==> p(x) == q(x)
    ensures Filter(p, s) == Filter(q, s)
  {
    if s != [] { FilterAlike(p, q, s[1..]); }
  }

  lemma {:induction false} FilterMultiset<T>(p: T -> bool, s: seq<T>, x: T)
    ensures multiset(Filter(p, s))[x] == if p(x) then multiset(s)[x] else 0
  {
    if s != [] {
      FilterMultiset(p, s[1..], x);
      assert s == [s[0]] + s[1..];
    }
  }

  /** How many elements a selection keeps does not depend on their order. */
  lemma {:induction false} FilterCountPermutation<T(!new)>(p: T -> bool, a: seq<T>, b: seq<T>)
    requires multiset(a) == multiset(b)
    ensures multiset(Filter(p, a)) == multiset(Filter(p, b))
    ensures |Filter(p, a)| == |Filter(p, b)|
  {
    forall x: T ensures multiset(Filter(p, a))[x] == multiset(Filter(p, b))[x] {
      FilterMultiset(p, a, x);
      FilterMultiset(p, b, x);
    }
    assert multiset(Filter(p, a)) == multiset(Filter(p, b));
  }

  lemma RemoveMultiset<T>(s: seq<T>, k: nat)
    requires k < |s|
    ensures multiset(s) == multiset(s[..k] + s[k + 1..]) + multiset{s[k]}
  {
    assert s == s[..k] + [s[k]] + s[k + 1..];
  }

  lemma MapRemove<T, U>(f: T -> U, s: seq<T>, k: nat)
    requires k < |s|
    ensures multiset(Map(f, s)) == multiset(Map(f, s[..k] + s[k + 1..])) + multiset{f(s[k])}
  {
    var m := Map(f, s);
    RemoveMultiset(m, k);
    assert m[..k] + m[k + 1..] == Map(f, s[..k] + s[k + 1..]);
  }

  lemma MapAppend<T, U>(f: T -> U, s: seq<T>, x: T)
    ensures Map(f, s + [x]) == Map(f, s) + [f(x)]
    ensures multiset(Map(f, s + [x])) == multiset(Map(f, s)) + multiset{f(x)}
  {
    assert Map(f, s + [x]) == Map(f, s) + [f(x)];
  }

  lemma MapCons<T, U>(f: T -> U, x: T, s: seq<T>)
    ensures Map(f, [x] + s) == [f(x)] + Map(f, s)
  {}

  /** Selections that agree position by position have the same images. */
  lemma {:induction false} MapFilterPointwise<T, U>(p: T -> bool, f: T -> U, a: seq<T>, b: seq<T>)
    requires |a| == |b|
    requires forall i :: 0 <= i < |a| ==> p(a[i]) == p(b[i]) && (p(a[i]) ==> f(a[i]) == f(b[i]))
    ensures Map(f, Filter(p, a)) == Map(f, Filter(p, b))
  {
    if a != [] {
      MapFilterPointwise(p, f, a[1..], b[1..]);
      if p(a[0]) {
        MapCons(f, a[0], Filter(p, a[1..]));
        MapCons(f, b[0], Filter(p, b[1..]));
      }
    }
  }

  lemma FilterAppend<T>(p: T -> bool, s: seq<T>, x: T)
    ensures Filter(p, s + [x]) == Filter(p, s) + if p(x) then [x] else []
    ensures |Filter(p, s + [x])| == |Filter(p, s)| + if p(x) then 1 else 0
  {
    FilterConcat(p, s, [x]);
  }

  lemma RestMatches<T>(a: seq<T>, b: seq<T>, k: nat)
    requires multiset(a) == multiset(b) && a != [] && k < |b| && b[k] == a[0]
    ensures multiset(a[1..]) == multiset(b[..k] + b[k + 1..])
  {
    var x := a[0];
    assert a == [x] + a[1..];
    RemoveMultiset(b, k);
    assert multiset(a[1..]) == multiset(a) - multiset{x};
    assert multiset(b[..k] + b[k + 1..]) == multiset(b) - multiset{x};
  }

  /** Mapping a rearrangement rearranges the images. */
  lemma {:induction false} MapMultiset<T, U>(f: T -> U, a: seq<T>, b: seq<T>)
    requires multiset(a) == multiset(b)
    ensures multiset(Map(f, a)) == multiset(Map(f, b))
  {
    if a == [] {
      assert |b| == |multiset(b)| == 0;
    } else {
      assert a[0] in multiset(b);
      var k :| 0 <= k < |b| && b[k] == a[0];
      RestMatches(a, b, k);
      MapMultiset(f, a[1..], b[..k] + b[k + 1..]);
      MapRemove(f, b, k);
      assert Map(f, a) == [f(a[0])] + Map(f, a[1..]);
    }
  }

  /** Two rearrangements sort alike when the order tells distinct elements apart. */
  lemma SortAlike<T(!new)>(le: (T, T) -> bool, a: seq<T>, b: seq<T>)
    requires TotalPreorder(le) && multiset(a) == multiset(b) && Distinguishes(le, Sort(le, a))
    ensures Sort(le, a) == Sort(le, b)
  {
    hide Distinguishes, TotalPreorder, SortedBy;
    SortSorts(le, a);
    SortSorts(le, b);
    SortPermutes(le, a);
    SortPermutes(le, b);
    SortedUnique(le, Sort(le, a), Sort(le, b));
  }

  /** Selections that agree position by position keep equally many. */
  lemma {:induction false} FilterCountPointwise<T>(p: T -> bool, a: seq<T>, b: seq<T>)
    requires |a| == |b| && forall i :: 0 <= i < |a| ==> p(a[i]) == p(b[i])
    ensures |Filter(p, a)| == |Filter(p, b)|
  {
    if a != [] { FilterCountPointwise(p, a[1..], b[1..]); }
  }
}
