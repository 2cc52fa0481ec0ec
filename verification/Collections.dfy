/** Sequences without repetitions, and how many elements sets and sequences have. */
module Collections {
  predicate Distinct<T(==)>(s: seq<T>) {
    forall i, j | 0 <= i < j < |s| :: s[i] != s[j]
  }

  function Elements<T>(s: seq<T>): set<T> {
    set x | x in s
  }

  /** n numbers counted up. */
  function Range(from: nat, n: nat): (s: seq<nat>)
    ensures |s| == n && forall i | 0 <= i < n :: s[i] == from + i
  {
    seq(n, i requires 0 <= i < n => from + i)
  }

  /** A sequence has as many different elements as positions exactly when it has no repetition. */
  lemma {:induction false} ElementsSize<T>(s: seq<T>)
    ensures |Elements(s)| <= |s|
    ensures |Elements(s)| == |s| <==> Distinct(s)
  {
    if s != [] {
      var front, last := s[..|s| - 1], s[|s| - 1];
      ElementsSize(front);
      assert Elements(s) == Elements(front) + {last};
      if last in front {
        assert Elements(s) == Elements(front);
        var k :| 0 <= k < |front| && front[k] == last;
        assert s[k] == s[|s| - 1];
      } else if !Distinct(front) {
        var i, j :| 0 <= i < j < |front| && front[i] == front[j];
        assert s[i] == s[j];
      }
    }
  }

  lemma {:induction false} SubsetSize<T>(a: set<T>, b: set<T>)
    requires a <= b
    ensures |a| <= |b|
  {
    if a != {} {
      var x :| x in a;
      SubsetSize(a - {x}, b - {x});
    }
  }

  lemma SameSize<T>(a: set<T>, b: set<T>)
    requires a <= b && |a| == |b|
    ensures a == b
  {
    assert b == a + (b - a);
  }

  lemma MinusSubset<T>(a: set<T>, b: set<T>)
    requires b <= a
    ensures |a - b| == |a| - |b|
  {
    assert a == (a - b) + b;
  }

  /** As many distinct elements, all taken from b: then all of b. */
  lemma DistinctCover<T>(a: seq<T>, b: seq<T>)
    requires Distinct(a) && Distinct(b) && |a| == |b| && forall x | x in a :: x in b
    ensures forall x | x in b :: x in a
  {
    ElementsSize(a);
    ElementsSize(b);
    SameSize(Elements(a), Elements(b));
    forall x | x in b ensures x in a { assert x in Elements(b); }
  }

  lemma {:induction false} DistinctCounts<T>(s: seq<T>)
    requires Distinct(s)
    ensures forall x :: multiset(s)[x] == if x in s then 1 else 0
  {
    if s != [] {
      var front, last := s[..|s| - 1], s[|s| - 1];
      DistinctCounts(front);
      assert s == front + [last];
    }
  }

  lemma RepeatsShowInCounts<T>(s: seq<T>)
    requires forall x :: multiset(s)[x] <= 1
    ensures Distinct(s)
  {
    forall i, j | 0 <= i < j < |s| ensures s[i] != s[j] {
      var a, b := s[..i + 1], s[i + 1..];
      assert s == a + b && s[i] in a && s[j] in b;
      assert multiset(a)[s[j]] + multiset(b)[s[j]] == multiset(s)[s[j]] <= 1;
      assert s[j] !in a;
    }
  }

  /** A rearrangement of a sequence without repetitions has none. */
  lemma SameElementsDistinct<T>(s: seq<T>, t: seq<T>)
    requires Distinct(s) && multiset(s) == multiset(t)
    ensures Distinct(t) && |t| == |s| && forall x :: x in s <==> x in t
  {
    DistinctCounts(s);
    RepeatsShowInCounts(t);
    assert |t| == |multiset(t)| == |multiset(s)| == |s|;
    forall x ensures x in s <==> x in t { assert x in multiset(s) <==> x in multiset(t); }
  }

  lemma RemovedElements<T>(s: seq<T>, k: nat)
    requires k < |s|
    ensures multiset(s[..k] + s[k + 1..]) == multiset(s) - multiset{s[k]}
    ensures s[k] in multiset(s)
  {
    assert s == s[..k] + [s[k]] + s[k + 1..];
  }
}
