/** generatePermutations: every ordering of its input, each exactly once. */
module Permutations {
  import opened Collections

  function Without<T>(arr: seq<T>, i: nat): seq<T>
    requires i < |arr|
  {
    arr[..i] + arr[i + 1..]
  }

  function Prepend<T>(x: T, ps: seq<seq<T>>): seq<seq<T>> {
    seq(|ps|, k requires 0 <= k < |ps| => [x] + ps[k])
  }

  function Perms<T>(arr: seq<T>): seq<seq<T>>
    decreases |arr|, 0, 0
  {
    if |arr| <= 1 then [arr] else PermsUpTo(arr, |arr|)
  }

  /** The orderings that start with one of the first i elements. */
  function PermsUpTo<T>(arr: seq<T>, i: nat): seq<seq<T>>
    requires i <= |arr|
    decreases |arr| - 1, 1, i
  {
    if i == 0 then [] else PermsUpTo(arr, i - 1) + Prepend(arr[i - 1], Perms(Without(arr, i - 1)))
  }

  function Factorial(n: nat): nat {
    if n == 0 then 1 else n * Factorial(n - 1)
  }

  // ---- Soundness and count

  lemma WithoutKeeps<T>(arr: seq<T>, i: nat)
    requires i < |arr|
    ensures multiset(arr) == multiset(Without(arr, i)) + multiset{arr[i]}
    ensures Distinct(arr) ==> Distinct(Without(arr, i))
  {
    assert arr == arr[..i] + [arr[i]] + arr[i + 1..];
  }

  lemma PrependMembers<T>(x: T, ps: seq<seq<T>>)
    ensures |Prepend(x, ps)| == |ps|
    ensures forall q | q in Prepend(x, ps) :: q != [] && q[0] == x && q[1..] in ps
  {
    forall q | q in Prepend(x, ps) ensures q != [] && q[0] == x && q[1..] in ps {
      var k :| 0 <= k < |ps| && q == Prepend(x, ps)[k];
      assert q[1..] == ps[k];
    }
  }

  ghost predicate Orderings<T>(ps: seq<seq<T>>, arr: seq<T>) {
    forall p | p in ps :: multiset(p) == multiset(arr)
  }

  lemma PrependOrderings<T>(arr: seq<T>, i: nat, ps: seq<seq<T>>)
    requires i < |arr| && Orderings(ps, Without(arr, i))
    ensures Orderings(Prepend(arr[i], ps), arr)
  {
    PrependMembers(arr[i], ps);
    WithoutKeeps(arr, i);
    forall q | q in Prepend(arr[i], ps) ensures multiset(q) == multiset(arr) {
      assert q == [q[0]] + q[1..];
    }
  }

  lemma {:induction false} PermsSound<T>(arr: seq<T>)
    ensures Orderings(Perms(arr), arr)
    decreases |arr|, 0, 0
  {
    if |arr| >= 2 { PermsUpToSound(arr, |arr|); }
  }

  lemma {:induction false} PermsUpToSound<T>(arr: seq<T>, i: nat)
    requires i <= |arr| && |arr| >= 2
    ensures Orderings(PermsUpTo(arr, i), arr)
    decreases |arr| - 1, 1, i
  {
    if i > 0 {
      PermsUpToSound(arr, i - 1);
      PermsSound(Without(arr, i - 1));
      PrependOrderings(arr, i - 1, Perms(Without(arr, i - 1)));
    }
  }

  lemma {:induction false} PermsCount<T>(arr: seq<T>)
    ensures |Perms(arr)| == Factorial(|arr|)
    decreases |arr|, 0, 0
  {
    if |arr| <= 1 {
      assert Factorial(0) == 1 && Factorial(1) == 1;
    } else {
      PermsUpToCount(arr, |arr|, Factorial(|arr| - 1));
    }
  }

  lemma {:induction false} PermsUpToCount<T>(arr: seq<T>, i: nat, each: nat)
    requires i <= |arr| && |arr| >= 2 && each == Factorial(|arr| - 1)
    ensures |PermsUpTo(arr, i)| == i * each
    decreases |arr| - 1, 1, i
  {
    if i > 0 {
      PermsUpToCount(arr, i - 1, each);
      PermsCount(Without(arr, i - 1));
      assert (i - 1) * each + each == i * each;
    }
  }

  // ---- Completeness

  /** The head of an ordering stands somewhere in the input, and its tail orders the others. */
  lemma PickHead<T>(arr: seq<T>, p: seq<T>) returns (i: nat)
    requires multiset(p) == multiset(arr) && p != []
    ensures i < |arr| && arr[i] == p[0] && multiset(p[1..]) == multiset(Without(arr, i))
  {
    assert p == [p[0]] + p[1..];
    assert p[0] in multiset(arr);
    assert p[0] in arr;
    i :| 0 <= i < |arr| && arr[i] == p[0];
    WithoutKeeps(arr, i);
    assert multiset(p[1..]) == multiset(p) - multiset{p[0]};
    assert multiset(Without(arr, i)) == multiset(arr) - multiset{arr[i]};
  }

  lemma {:induction false} PermsComplete<T>(arr: seq<T>, p: seq<T>)
    requires multiset(p) == multiset(arr)
    ensures p in Perms(arr)
    decreases |arr|
  {
    assert |p| == |multiset(p)| == |multiset(arr)| == |arr|;
    if |arr| == 1 {
      assert arr == [arr[0]] && p == [p[0]];
      assert p[0] in multiset(p);
    } else if |arr| >= 2 {
      var i := PickHead(arr, p);
      assert p == [p[0]] + p[1..];
      PermsComplete(Without(arr, i), p[1..]);
      InPrepend(p[0], Perms(Without(arr, i)), p[1..]);
      UpToGrows(arr, i, |arr|, p);
    }
  }

  lemma InPrepend<T>(x: T, ps: seq<seq<T>>, q: seq<T>)
    requires q in ps
    ensures [x] + q in Prepend(x, ps)
  {
    var k :| 0 <= k < |ps| && ps[k] == q;
    assert Prepend(x, ps)[k] == [x] + q;
  }

  lemma {:induction false} UpToGrows<T>(arr: seq<T>, i: nat, j: nat, p: seq<T>)
    requires i < j <= |arr| && p in Prepend(arr[i], Perms(Without(arr, i)))
    ensures p in PermsUpTo(arr, j)
    decreases j
  {
    if i < j - 1 { UpToGrows(arr, i, j - 1, p); }
  }

  // ---- No ordering twice

  lemma {:induction false} PermsDistinct<T>(arr: seq<T>)
    requires Distinct(arr)
    ensures Distinct(Perms(arr))
    decreases |arr|, 0, 0
  {
    if |arr| >= 2 { PermsUpToDistinct(arr, |arr|); }
  }

  lemma {:induction false} PermsUpToDistinct<T>(arr: seq<T>, i: nat)
    requires Distinct(arr) && i <= |arr| && |arr| >= 2
    ensures Distinct(PermsUpTo(arr, i))
    ensures forall p | p in PermsUpTo(arr, i) :: p != [] && p[0] in arr[..i]
    decreases |arr| - 1, 1, i
  {
    if i > 0 {
      PermsUpToDistinct(arr, i - 1);
      WithoutKeeps(arr, i - 1);
      var ps := Perms(Without(arr, i - 1));
      PermsDistinct(Without(arr, i - 1));
      var added := Prepend(arr[i - 1], ps);
      PrependMembers(arr[i - 1], ps);
      forall j, k | 0 <= j < k < |added| ensures added[j] != added[k] {
        assert added[j][1..] == ps[j] && added[k][1..] == ps[k];
      }
      assert arr[i - 1] !in arr[..i - 1];
      assert arr[..i] == arr[..i - 1] + [arr[i - 1]];
      JoinDistinct(PermsUpTo(arr, i - 1), added);
    }
  }

  lemma JoinDistinct<T>(a: seq<T>, b: seq<T>)
    requires Distinct(a) && Distinct(b) && forall x | x in a :: x !in b
    ensures Distinct(a + b)
  {
    forall i, j | 0 <= i < j < |a + b| ensures (a + b)[i] != (a + b)[j] {
      if i < |a| <= j { assert a[i] in a && b[j - |a|] in b; }
    }
  }

  /** The enumeration of distinct elements is exactly the orderings of them, each once, |arr|! in all. */
  lemma PermsExact<T>(arr: seq<T>)
    requires Distinct(arr)
    ensures forall p :: p in Perms(arr) <==> multiset(p) == multiset(arr)
    ensures Distinct(Perms(arr)) && |Perms(arr)| == Factorial(|arr|)
  {
    PermsSound(arr);
    PermsCount(arr);
    PermsDistinct(arr);
    forall p | multiset(p) == multiset(arr) ensures p in Perms(arr) { PermsComplete(arr, p); }
  }

  // ---- The generator

  /** The recursive generator: nested loops over the first element and the orderings of the others. */
  method GeneratePermutations<T>(arr: seq<T>) returns (result: seq<seq<T>>)
    ensures result == Perms(arr)
    decreases |arr|
  {
    if |arr| <= 1 { return [arr]; }
    result := [];
    for i := 0 to |arr|
      invariant result == PermsUpTo(arr, i)
    {
      var current := arr[i];
      var remainingPerms := GeneratePermutations(Without(arr, i));
      ghost var before := result;
      for k := 0 to |remainingPerms|
        invariant result == before + Prepend(current, remainingPerms)[..k]
      {
        result := result + [[current] + remainingPerms[k]];
      }
      assert Prepend(current, remainingPerms)[..|remainingPerms|] == Prepend(current, remainingPerms);
    }
  }
}
