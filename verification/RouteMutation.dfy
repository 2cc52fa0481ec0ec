/** Reordering a delivery's stops: the complete-set check and the two-pass renumbering under a unique index. */
module RouteMutation {
  import opened Collections
  import opened Wrappers

  // ---- Sorting, for the contiguity check

  function Insert(x: int, s: seq<int>): seq<int> {
    if s == [] || x <= s[0] then [x] + s else [s[0]] + Insert(x, s[1..])
  }

  function Sort(s: seq<int>): seq<int> {
    if s == [] then [] else Insert(s[0], Sort(s[1..]))
  }

  predicate Least(x: int, s: seq<int>) {
    forall y | y in s :: x <= y
  }

  predicate Sorted(s: seq<int>) {
    s == [] || (Least(s[0], s[1..]) && Sorted(s[1..]))
  }

  lemma {:induction false} InsertElements(x: int, s: seq<int>)
    ensures multiset(Insert(x, s)) == multiset(s) + multiset{x}
  {
    if s != [] {
      assert s == [s[0]] + s[1..];
      InsertElements(x, s[1..]);
    }
  }

  lemma {:induction false} InsertSorts(x: int, s: seq<int>)
    requires Sorted(s)
    ensures Sorted(Insert(x, s))
  {
    if s != [] && x > s[0] {
      InsertSorts(x, s[1..]);
      InsertElements(x, s[1..]);
      var r := Insert(x, s[1..]);
      forall y | y in r ensures s[0] <= y {
        assert y in multiset(r);
        assert y == x || y in s[1..];
      }
      assert ([s[0]] + r)[1..] == r;
    } else {
      assert ([x] + s)[1..] == s;
      if s != [] { assert s == [s[0]] + s[1..]; }
    }
  }

  lemma {:induction false} SortSorts(s: seq<int>)
    ensures Sorted(Sort(s)) && multiset(Sort(s)) == multiset(s)
  {
    if s != [] {
      SortSorts(s[1..]);
      InsertSorts(s[0], Sort(s[1..]));
      InsertElements(s[0], Sort(s[1..]));
      assert s == [s[0]] + s[1..];
    }
  }

  lemma HeadIsLeast(s: seq<int>, x: int)
    requires s != [] && Sorted(s) && x in multiset(s)
    ensures s[0] <= x
  {
    assert s == [s[0]] + s[1..];
    assert x in s;
  }

  lemma SameHeads(a: seq<int>, b: seq<int>)
    requires a != [] && b != [] && Sorted(a) && Sorted(b) && multiset(a) == multiset(b)
    ensures a[0] == b[0] && multiset(a[1..]) == multiset(b[1..])
  {
    assert a[0] in multiset(b) && b[0] in multiset(a);
    HeadIsLeast(a, b[0]);
    HeadIsLeast(b, a[0]);
    TailElements(a);
    TailElements(b);
  }

  lemma TailElements(s: seq<int>)
    requires s != []
    ensures multiset(s[1..]) == multiset(s) - multiset{s[0]}
  {
    assert s == [s[0]] + s[1..];
  }

  /** Two sorted sequences with the same elements are the same. */
  lemma {:induction false} SortedUnique(a: seq<int>, b: seq<int>)
    requires Sorted(a) && Sorted(b) && multiset(a) == multiset(b)
    ensures a == b
    decreases a
  {
    assert |a| == |multiset(a)| == |multiset(b)| == |b|;
    if a != [] {
      SameHeads(a, b);
      SortedUnique(a[1..], b[1..]);
      assert a == [a[0]] + a[1..] && b == [b[0]] + b[1..];
    }
  }

  lemma {:induction false} RangeSorted(from: nat, n: nat)
    ensures Sorted(Range(from, n))
    decreases n
  {
    if n > 0 {
      RangeSorted(from + 1, n - 1);
      assert Range(from, n)[1..] == Range(from + 1, n - 1);
    }
  }

  // ---- The complete-set check

  datatype Verdict = Accepted | InvalidStopSet | InvalidStopSequence

  function ValidateCompleteStopSet(stops: seq<string>, submitted: seq<string>, sequences: Option<seq<int>>): Verdict {
    var expectedIds := Elements(stops);
    var submittedIds := Elements(submitted);
    var hasExactIds :=
      && |expectedIds| > 0
      && |submitted| == |expectedIds|
      && |submittedIds| == |expectedIds|
      && forall id | id in submitted :: id in expectedIds;
    if !hasExactIds then InvalidStopSet
    else if sequences.Some? && exists i | 0 <= i < |Sort(sequences.value)| :: Sort(sequences.value)[i] != i + 1
    then InvalidStopSequence
    else Accepted
  }

  /** The id check accepts exactly the orderings of a nonempty stop list. */
  lemma IdsExact(stops: seq<string>, submitted: seq<string>)
    requires Distinct(stops)
    ensures ValidateCompleteStopSet(stops, submitted, None) == Accepted <==> stops != [] && multiset(submitted) == multiset(stops)
  {
    var expectedIds, submittedIds := Elements(stops), Elements(submitted);
    ElementsSize(stops);
    ElementsSize(submitted);
    DistinctCounts(stops);
    if ValidateCompleteStopSet(stops, submitted, None) == Accepted {
      SameSize(submittedIds, expectedIds);
      DistinctCounts(submitted);
      assert stops == [] ==> expectedIds == {};
      forall x ensures x in submitted <==> x in stops { assert x in submittedIds <==> x in expectedIds; }
    }
    if stops != [] && multiset(submitted) == multiset(stops) {
      RepeatsShowInCounts(submitted);
      assert |submitted| == |multiset(submitted)| == |stops|;
      forall id | id in submitted ensures id in expectedIds { assert id in multiset(submitted); }
      assert stops[0] in expectedIds;
    }
  }

  /** The sequence check accepts exactly the orderings of 1..N. */
  lemma SequencesExact(stops: seq<string>, submitted: seq<string>, sequences: seq<int>)
    ensures ValidateCompleteStopSet(stops, submitted, Some(sequences)) == Accepted
       <==> ValidateCompleteStopSet(stops, submitted, None) == Accepted && multiset(sequences) == multiset(Range(1, |sequences|))
  {
    SortSorts(sequences);
    var n := |sequences|;
    assert |Sort(sequences)| == |multiset(Sort(sequences))| == |multiset(sequences)| == n;
    if multiset(sequences) == multiset(Range(1, n)) {
      RangeSorted(1, n);
      SortedUnique(Sort(sequences), Range(1, n));
    }
    if forall i | 0 <= i < n :: Sort(sequences)[i] == i + 1 {
      assert Sort(sequences) == Range(1, n);
    }
  }

  // ---- Writing under a unique index

  type Sequences = map<string, int>

  predicate Clashes(rows: Sequences, id: string, value: int) {
    exists x | x in rows :: x != id && rows[x] == value
  }

  /** One row update: refused for an unknown row, or when another row has the value. */
  function Write(rows: Sequences, id: string, value: int): Option<Sequences> {
    if id !in rows || Clashes(rows, id, value) then None else Some(rows[id := value])
  }

  datatype Item = Item(id: string, sequence: int)

  function Signed(negate: bool, value: int): int {
    if negate then -value else value
  }

  /** The first k writes of a pass; None when one of them is refused. */
  function Pass(rows: Sequences, items: seq<Item>, negate: bool, k: nat): Option<Sequences>
    requires k <= |items|
  {
    if k == 0 then Some(rows)
    else
      var before := Pass(rows, items, negate, k - 1);
      if before.None? then None else Write(before.value, items[k - 1].id, Signed(negate, items[k - 1].sequence))
  }

  ghost predicate AllDistinct(rows: Sequences) {
    forall x, y | x in rows && y in rows && rows[x] == rows[y] :: x == y
  }

  /** The ids of the first k items. */
  function Done(items: seq<Item>, k: nat): set<string>
    requires k <= |items|
  {
    set i | 0 <= i < k :: items[i].id
  }

  predicate Gives(target: Sequences, item: Item) {
    item.id in target && target[item.id] == item.sequence
  }

  /** What the check has accepted: every row once, with the number `target` gives it, all positive and different. */
  ghost predicate Renumbering(rows: Sequences, items: seq<Item>, target: Sequences) {
    && (forall i, j | 0 <= i < j < |items| :: items[i].id != items[j].id)
    && (forall i | 0 <= i < |items| :: Gives(target, items[i]) && items[i].sequence >= 1)
    && Done(items, |items|) == rows.Keys == target.Keys
    && AllDistinct(target)
  }

  /** The rows when the ids in `done` carry their number, signed, and the others what they had. */
  function Mixed(rows: Sequences, target: Sequences, done: set<string>, negate: bool): Sequences
    requires rows.Keys == target.Keys
  {
    map x | x in rows :: if x in done then Signed(negate, target[x]) else rows[x]
  }

  /** The k-th write of a pass finds its number taken, when all writes before it went through. */
  ghost predicate Blocked(rows: Sequences, items: seq<Item>, target: Sequences, negate: bool, k: nat)
    requires rows.Keys == target.Keys && k < |items|
  {
    Clashes(Mixed(rows, target, Done(items, k), negate), items[k].id, Signed(negate, items[k].sequence))
  }

  ghost predicate NoneBlocked(rows: Sequences, items: seq<Item>, target: Sequences, negate: bool, k: nat)
    requires rows.Keys == target.Keys && k <= |items|
  {
    forall i | 0 <= i < k :: !Blocked(rows, items, target, negate, i)
  }

  /** A row still waiting in the first pass holds the negated number that is written next. */
  ghost predicate Leftover(rows: Sequences, items: seq<Item>, k: nat)
    requires k < |items|
  {
    exists x | x in rows && x !in Done(items, k + 1) :: rows[x] == -items[k].sequence
  }

  ghost predicate NoLeftovers(rows: Sequences, items: seq<Item>)
  {
    forall i | 0 <= i < |items| :: !Leftover(rows, items, i)
  }

  lemma WriteKeepsDistinct(rows: Sequences, id: string, value: int)
    requires AllDistinct(rows) && Write(rows, id, value).Some?
    ensures AllDistinct(Write(rows, id, value).value)
  {
  }

  lemma DoneGrows(items: seq<Item>, k: nat)
    requires k < |items| && forall i, j | 0 <= i < j < |items| :: items[i].id != items[j].id
    ensures Done(items, k + 1) == Done(items, k) + {items[k].id} && items[k].id !in Done(items, k)
    ensures items[k].id in Done(items, |items|)
  {
  }

  lemma MixedGrows(rows: Sequences, target: Sequences, done: set<string>, negate: bool, id: string)
    requires rows.Keys == target.Keys && id in rows
    ensures Mixed(rows, target, done, negate)[id := Signed(negate, target[id])] == Mixed(rows, target, done + {id}, negate)
  {
  }

  /** A write that does not clash moves one row on and keeps the numbers distinct. */
  lemma OneWrite(rows: Sequences, items: seq<Item>, target: Sequences, negate: bool, k: nat)
    requires Renumbering(rows, items, target) && k < |items| && !Blocked(rows, items, target, negate, k)
    requires AllDistinct(Mixed(rows, target, Done(items, k), negate))
    ensures Write(Mixed(rows, target, Done(items, k), negate), items[k].id, Signed(negate, items[k].sequence))
         == Some(Mixed(rows, target, Done(items, k + 1), negate))
    ensures AllDistinct(Mixed(rows, target, Done(items, k + 1), negate))
  {
    var now := Mixed(rows, target, Done(items, k), negate);
    DoneGrows(items, k);
    assert items[k].id in rows.Keys;
    MixedGrows(rows, target, Done(items, k), negate, items[k].id);
    WriteKeepsDistinct(now, items[k].id, Signed(negate, items[k].sequence));
  }

  /** After k writes the rows are where the renumbering wants them, and distinct. */
  ghost predicate InStep(rows: Sequences, items: seq<Item>, target: Sequences, negate: bool, k: nat)
    requires rows.Keys == target.Keys && k <= |items|
  {
    var now := Mixed(rows, target, Done(items, k), negate);
    Pass(rows, items, negate, k) == Some(now) && AllDistinct(now)
  }

  lemma StartsInStep(rows: Sequences, items: seq<Item>, target: Sequences, negate: bool)
    requires rows.Keys == target.Keys && AllDistinct(rows)
    ensures InStep(rows, items, target, negate, 0)
  {
    assert Done(items, 0) == {};
    assert Mixed(rows, target, Done(items, 0), negate) == rows;
  }

  lemma PassStep(rows: Sequences, items: seq<Item>, target: Sequences, negate: bool, k: nat)
    requires Renumbering(rows, items, target) && k < |items| && InStep(rows, items, target, negate, k)
    ensures if Blocked(rows, items, target, negate, k) then Pass(rows, items, negate, k + 1) == None
            else InStep(rows, items, target, negate, k + 1)
  {
    if !Blocked(rows, items, target, negate, k) { OneWrite(rows, items, target, negate, k); }
  }

  lemma NoneBlockedGrows(rows: Sequences, items: seq<Item>, target: Sequences, negate: bool, k: nat)
    requires rows.Keys == target.Keys && k < |items|
    ensures NoneBlocked(rows, items, target, negate, k + 1)
       <==> NoneBlocked(rows, items, target, negate, k) && !Blocked(rows, items, target, negate, k)
  {
  }

  ghost predicate PassAt(rows: Sequences, items: seq<Item>, target: Sequences, negate: bool, k: nat)
    requires rows.Keys == target.Keys && k <= |items|
  {
    if NoneBlocked(rows, items, target, negate, k) then InStep(rows, items, target, negate, k)
    else Pass(rows, items, negate, k) == None
  }

  lemma PassAtStep(rows: Sequences, items: seq<Item>, target: Sequences, negate: bool, k: nat)
    requires Renumbering(rows, items, target) && k < |items| && PassAt(rows, items, target, negate, k)
    ensures PassAt(rows, items, target, negate, k + 1)
  {
    NoneBlockedGrows(rows, items, target, negate, k);
    if NoneBlocked(rows, items, target, negate, k) { PassStep(rows, items, target, negate, k); }
  }

  /** After any number of writes of either pass: refused if one was blocked, otherwise in step and distinct. */
  lemma {:induction false} PassExact(rows: Sequences, items: seq<Item>, target: Sequences, negate: bool, k: nat)
    requires AllDistinct(rows) && Renumbering(rows, items, target) && k <= |items|
    ensures PassAt(rows, items, target, negate, k)
    decreases k
  {
    if k == 0 {
      StartsInStep(rows, items, target, negate);
    } else {
      PassExact(rows, items, target, negate, k - 1);
      PassAtStep(rows, items, target, negate, k - 1);
    }
  }

  /** First pass: a write is blocked exactly by a leftover. */
  lemma BlockedByLeftover(rows: Sequences, items: seq<Item>, target: Sequences, k: nat)
    requires Renumbering(rows, items, target) && k < |items|
    ensures Blocked(rows, items, target, true, k) <==> Leftover(rows, items, k)
  {
    DoneGrows(items, k);
    var now := Mixed(rows, target, Done(items, k), true);
    assert items[k].id in rows.Keys;
    if Clashes(now, items[k].id, -items[k].sequence) {
      var x :| x in now && x != items[k].id && now[x] == -items[k].sequence;
      assert x !in Done(items, k);
      assert rows[x] == -items[k].sequence;
    }
    if Leftover(rows, items, k) {
      var x :| x in rows && x !in Done(items, k + 1) && rows[x] == -items[k].sequence;
      assert now[x] == -items[k].sequence;
    }
  }

  function Negated(target: Sequences): Sequences {
    map x | x in target :: -target[x]
  }

  /** Second pass, over negated numbers: nothing blocks. */
  lemma NothingBlocks(target: Sequences, items: seq<Item>, k: nat)
    requires Renumbering(Negated(target), items, target) && k < |items|
    ensures !Blocked(Negated(target), items, target, false, k)
  {
    DoneGrows(items, k);
    forall x | x in target ensures target[x] >= 1 {
      assert x in Done(items, |items|);
    }
  }

  /** Both passes. */
  function Renumber(rows: Sequences, items: seq<Item>): Option<Sequences> {
    var negated := Pass(rows, items, true, |items|);
    if negated.None? then None else Pass(negated.value, items, false, |items|)
  }

  lemma FirstPass(rows: Sequences, items: seq<Item>, target: Sequences)
    requires AllDistinct(rows) && Renumbering(rows, items, target)
    ensures Pass(rows, items, true, |items|) == if NoLeftovers(rows, items) then Some(Negated(target)) else None
  {
    PassExact(rows, items, target, true, |items|);
    forall k | 0 <= k < |items| ensures Blocked(rows, items, target, true, k) <==> Leftover(rows, items, k) {
      BlockedByLeftover(rows, items, target, k);
    }
    assert Mixed(rows, target, Done(items, |items|), true) == Negated(target);
  }

  lemma SecondPass(items: seq<Item>, target: Sequences, k: nat)
    requires Renumbering(Negated(target), items, target) && k <= |items|
    ensures InStep(Negated(target), items, target, false, k)
  {
    forall i | 0 <= i < k ensures !Blocked(Negated(target), items, target, false, i) {
      NothingBlocks(target, items, i);
    }
    PassExact(Negated(target), items, target, false, k);
  }

  /** The renumbering goes through exactly when no write meets a leftover, and then it is the requested one. */
  lemma RenumberExact(rows: Sequences, items: seq<Item>, target: Sequences)
    requires AllDistinct(rows) && Renumbering(rows, items, target)
    ensures Renumber(rows, items) == if NoLeftovers(rows, items) then Some(target) else None
  {
    FirstPass(rows, items, target);
    if NoLeftovers(rows, items) {
      SecondPass(items, target, |items|);
      assert Mixed(Negated(target), target, Done(items, |items|), false) == target;
    }
  }

  /** From positive numbers, as deliveries are created with, it always goes through; rows stay distinct after every write. */
  lemma PositiveRowsRenumber(rows: Sequences, items: seq<Item>, target: Sequences, k: nat)
    requires AllDistinct(rows) && Renumbering(rows, items, target) && forall x | x in rows :: rows[x] >= 1
    requires k <= |items|
    ensures Renumber(rows, items) == Some(target)
    ensures Pass(rows, items, true, k).Some? && AllDistinct(Pass(rows, items, true, k).value)
    ensures var negated := Pass(rows, items, true, |items|);
            negated.Some? && Pass(negated.value, items, false, k).Some? && AllDistinct(Pass(negated.value, items, false, k).value)
  {
    forall i | 0 <= i < |items| ensures !Leftover(rows, items, i) && !Blocked(rows, items, target, true, i) {
      BlockedByLeftover(rows, items, target, i);
    }
    FirstPass(rows, items, target);
    RenumberExact(rows, items, target);
    PassExact(rows, items, target, true, k);
    SecondPass(items, target, k);
  }

  function Ids(items: seq<Item>): (ids: seq<string>)
    ensures |ids| == |items| && forall i | 0 <= i < |items| :: ids[i] == items[i].id
  {
    seq(|items|, i requires 0 <= i < |items| => items[i].id)
  }

  function Numbers(items: seq<Item>): (numbers: seq<int>)
    ensures |numbers| == |items| && forall i | 0 <= i < |items| :: numbers[i] == items[i].sequence
  {
    seq(|items|, i requires 0 <= i < |items| => items[i].sequence)
  }

  function Target(items: seq<Item>): Sequences {
    if items == [] then map[] else Target(items[1..])[items[0].id := items[0].sequence]
  }

  lemma TailDistinct(items: seq<Item>)
    requires Distinct(Ids(items)) && items != []
    ensures Distinct(Ids(items[1..])) && Ids(items) == [items[0].id] + Ids(items[1..])
    ensures forall i | 1 <= i < |items| :: items[i].id != items[0].id
  {
    assert Ids(items) == [items[0].id] + Ids(items[1..]);
    forall i | 1 <= i < |items| ensures items[i].id != items[0].id { assert Ids(items)[0] != Ids(items)[i]; }
  }

  lemma {:induction false} TargetAt(items: seq<Item>, i: nat)
    requires Distinct(Ids(items)) && i < |items|
    ensures Gives(Target(items), items[i])
    decreases i
  {
    TailDistinct(items);
    if i > 0 { TargetAt(items[1..], i - 1); }
  }

  lemma {:induction false} TargetKeys(items: seq<Item>)
    requires Distinct(Ids(items))
    ensures Target(items).Keys == Elements(Ids(items))
  {
    if items != [] {
      TailDistinct(items);
      TargetKeys(items[1..]);
    }
  }

  lemma AcceptedIsDistinct(stops: seq<string>, items: seq<Item>)
    requires Distinct(stops) && ValidateCompleteStopSet(stops, Ids(items), Some(Numbers(items))) == Accepted
    ensures Distinct(Ids(items)) && Distinct(Numbers(items))
    ensures forall x :: x in stops <==> x in Ids(items)
    ensures forall n :: n in Numbers(items) <==> 1 <= n <= |stops|
  {
    IdsExact(stops, Ids(items));
    SequencesExact(stops, Ids(items), Numbers(items));
    SameElementsDistinct(stops, Ids(items));
    var counting := Range(1, |items|);
    SameElementsDistinct(counting, Numbers(items));
    assert |stops| == |multiset(stops)| == |items|;
    forall n ensures n in counting <==> 1 <= n <= |items| {
      if 1 <= n <= |items| { assert counting[n - 1] == n; }
    }
  }

  lemma DifferentNumbersDifferentTargets(items: seq<Item>)
    requires Distinct(Ids(items)) && Distinct(Numbers(items))
    ensures AllDistinct(Target(items))
  {
    TargetKeys(items);
    var ids, numbers, target := Ids(items), Numbers(items), Target(items);
    forall x, y | x in target && y in target && target[x] == target[y] ensures x == y {
      var i :| 0 <= i < |items| && ids[i] == x;
      var j :| 0 <= j < |items| && ids[j] == y;
      TargetAt(items, i);
      TargetAt(items, j);
      assert numbers[i] == numbers[j];
    }
  }

  lemma TargetValues(items: seq<Item>, n: int)
    requires Distinct(Ids(items))
    ensures n in Target(items).Values <==> n in Numbers(items)
  {
    TargetKeys(items);
    var ids, numbers, target := Ids(items), Numbers(items), Target(items);
    if n in numbers {
      var i :| 0 <= i < |numbers| && numbers[i] == n;
      TargetAt(items, i);
      assert items[i].id in target && target[items[i].id] == n;
    }
    if n in target.Values {
      var x :| x in target && target[x] == n;
      var i :| 0 <= i < |items| && ids[i] == x;
      TargetAt(items, i);
      assert numbers[i] == n;
    }
  }

  lemma AllDone(items: seq<Item>)
    ensures Done(items, |items|) == Elements(Ids(items))
  {
    forall x ensures x in Done(items, |items|) <==> x in Ids(items) {
      if x in Ids(items) {
        var i :| 0 <= i < |items| && Ids(items)[i] == x;
        assert items[i].id == x;
      }
      if x in Done(items, |items|) {
        var i :| 0 <= i < |items| && items[i].id == x;
        assert Ids(items)[i] == x;
      }
    }
  }

  lemma IsRenumbering(items: seq<Item>, rows: Sequences)
    requires Distinct(Ids(items)) && Distinct(Numbers(items)) && forall n | n in Numbers(items) :: n >= 1
    requires rows.Keys == Elements(Ids(items))
    ensures Renumbering(rows, items, Target(items))
  {
    TargetKeys(items);
    DifferentNumbersDifferentTargets(items);
    AllDone(items);
    forall i | 0 <= i < |items| ensures Gives(Target(items), items[i]) && items[i].sequence >= 1 {
      TargetAt(items, i);
      assert Numbers(items)[i] in Numbers(items);
    }
    forall i, j | 0 <= i < j < |items| ensures items[i].id != items[j].id { assert Ids(items)[i] != Ids(items)[j]; }
  }

  /** A reorder that passes the check is a renumbering of the delivery's stops by exactly 1..N. */
  lemma AcceptedIsRenumbering(stops: seq<string>, items: seq<Item>, rows: Sequences)
    requires Distinct(stops) && ValidateCompleteStopSet(stops, Ids(items), Some(Numbers(items))) == Accepted
    requires rows.Keys == Elements(stops)
    ensures Distinct(Ids(items)) && Renumbering(rows, items, Target(items))
    ensures forall n :: n in Target(items).Values <==> 1 <= n <= |stops|
  {
    AcceptedIsDistinct(stops, items);
    IsRenumbering(items, rows);
    forall n ensures n in Target(items).Values <==> 1 <= n <= |stops| { TargetValues(items, n); }
  }

  /** A checked reorder of positively numbered stops ends with every stop at its requested number. */
  lemma ReorderDelivers(stops: seq<string>, items: seq<Item>, rows: Sequences)
    requires Distinct(stops) && ValidateCompleteStopSet(stops, Ids(items), Some(Numbers(items))) == Accepted
    requires rows.Keys == Elements(stops) && AllDistinct(rows) && forall x | x in rows :: rows[x] >= 1
    ensures var after := Renumber(rows, items);
            && after.Some? && after.value.Keys == rows.Keys && AllDistinct(after.value)
            && (forall n :: n in after.value.Values <==> 1 <= n <= |stops|)
            && forall i | 0 <= i < |items| :: Gives(after.value, items[i])
  {
    AcceptedIsRenumbering(stops, items, rows);
    PositiveRowsRenumber(rows, items, Target(items), 0);
  }

  // ---- The service

  class StopTable {
    var sequence: Sequences

    constructor (rows: Sequences)
      ensures sequence == rows
    {
      sequence := rows;
    }

    method UpdateSequence(id: string, value: int) returns (ok: bool)
      modifies this
      ensures ok == Write(old(sequence), id, value).Some?
      ensures sequence == if ok then old(sequence)[id := value] else old(sequence)
    {
      ok := id in sequence && !Clashes(sequence, id, value);
      if ok { sequence := sequence[id := value]; }
    }

    method WritePass(items: seq<Item>, negate: bool) returns (ok: bool)
      modifies this
      ensures ok == Pass(old(sequence), items, negate, |items|).Some?
      ensures ok ==> sequence == Pass(old(sequence), items, negate, |items|).value
    {
      ok := true;
      for k := 0 to |items|
        invariant Pass(old(sequence), items, negate, k) == Some(sequence)
      {
        ok := UpdateSequence(items[k].id, Signed(negate, items[k].sequence));
        if !ok {
          RefusedStays(old(sequence), items, negate, k + 1, |items|);
          return;
        }
      }
    }

    /** The update loops of a reorder inside their transaction: all writes, or none. */
    method ReorderStops(items: seq<Item>) returns (ok: bool)
      modifies this
      ensures ok == Renumber(old(sequence), items).Some?
      ensures sequence == if ok then Renumber(old(sequence), items).value else old(sequence)
    {
      var before := sequence;
      ok := WritePass(items, true);
      if ok { ok := WritePass(items, false); }
      if !ok { sequence := before; }
    }
  }

  lemma {:induction false} RefusedStays(rows: Sequences, items: seq<Item>, negate: bool, k: nat, n: nat)
    requires k <= n <= |items| && Pass(rows, items, negate, k).None?
    ensures Pass(rows, items, negate, n).None?
    decreases n
  {
    if k < n { RefusedStays(rows, items, negate, k, n - 1); }
  }
}
