/** Lists without repeats and finite sets: counting what occurs once. */
module Distinct {
  ghost predicate NoRepeats<T>(s: seq<T>) {
    forall i, j :: 0 <= i < j < |s| ==> s[i] != s[j]
  }

  lemma OccursTwice<T>(s: seq<T>, i: nat, j: nat)
    requires i < j < |s| && s[i] == s[j]
    ensures multiset(s)[s[i]] >= 2
  {
    assert s == s[..i] + [s[i]] + s[i + 1..j] + [s[j]] + s[j + 1..];
  }

  lemma OccursOnce<T>(s: seq<T>, p: nat)
    requires p < |s| && NoRepeats(s)
    ensures multiset(s)[s[p]] == 1
  {
    var before, after := s[..p], s[p + 1..];
    assert s == before + [s[p]] + after;
    forall i | 0 <= i < |before| ensures before[i] != s[p] { assert before[i] == s[i]; }
    forall i | 0 <= i < |after| ensures after[i] != s[p] { assert after[i] == s[p + 1 + i]; }
    assert s[p] !in multiset(before) && s[p] !in multiset(after);
  }

  /** Rearranging a list without repeats leaves it without repeats. */
  lemma PermutedNoRepeats<T>(a: seq<T>, b: seq<T>)
    requires multiset(a) == multiset(b) && NoRepeats(a)
    ensures NoRepeats(b)
  {
    forall i, j | 0 <= i < j < |b| ensures b[i] != b[j] {
      if b[i] == b[j] {
        OccursTwice(b, i, j);
        assert b[i] in multiset(a);
        var p :| 0 <= p < |a| && a[p] == b[i];
        OccursOnce(a, p);
      }
    }
  }

  /** Lists without repeats and with the same members are rearrangements of each other. */
  lemma SameMembers<T(!new)>(a: seq<T>, b: seq<T>)
    requires NoRepeats(a) && NoRepeats(b) && forall x :: x in a <==> x in b
    ensures multiset(a) == multiset(b)
  {
    forall x ensures multiset(a)[x] == multiset(b)[x] {
      if x in a {
        var i :| 0 <= i < |a| && a[i] == x;
        var j :| 0 <= j < |b| && b[j] == x;
        OccursOnce(a, i);
        OccursOnce(b, j);
      } else {
        assert x !in multiset(a) && x !in multiset(b);
      }
    }
  }

  lemma SubsetSize<T>(a: set<T>, b: set<T>)
    requires a <= b
    ensures |a| <= |b|
  {
    assert b == a + (b - a);
  }
}
