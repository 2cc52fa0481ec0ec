/** Overlapping updates of one driver's cached location: each reads the cache in one Redis call and writes it in another. */
module CacheUpdates {
  import opened Wrappers
  import opened LocationCache

  /** An update between its read and its write. */
  datatype Update = Update(payload: Cached, read: Option<Cached>)

  /** `finished` is history only: the payloads of the updates that have ended, in order. */
  datatype State = State(cache: Option<Cached>, updates: map<nat, Update>, finished: seq<Cached>)

  datatype Action = Get(id: nat, payload: Cached) | Set(id: nat)

  function Next(s: State, a: Action): State {
    match a
    case Get(id, payload) => if id in s.updates then s else s.(updates := s.updates[id := Update(payload, s.cache)])
    case Set(id) =>
      if id !in s.updates then s
      else
        var Update(payload, read) := s.updates[id];
        State(if Overwrites(read, payload) then Some(payload) else s.cache, s.updates - {id}, s.finished + [payload])
  }

  function Run(s: State, run: seq<Action>): State
    decreases run
  {
    if run == [] then s else Run(Next(s, run[0]), run[1..])
  }

  const NOTHING_CACHED := State(None, map[], [])

  /** An update with nothing between its read and its write. */
  lemma AloneIsSetLatest(s: State, id: nat, payload: Cached)
    requires id !in s.updates
    ensures Run(s, [Get(id, payload), Set(id)]) == State(SetLatest(s.cache, payload), s.updates, s.finished + [payload])
  {
    var t := Next(s, Get(id, payload));
    assert t.updates - {id} == s.updates;
    assert Run(t, [Set(id)]) == Next(t, Set(id));
  }

  // ---- Going back in time

  predicate Lower(before: Option<int>, after: Option<int>) {
    before.Some? && (after.None? || after.value < before.value)
  }

  /** A write that its read allowed, while the date cached by now is later than its own. */
  predicate StaleWrite(s: State, a: Action) {
    && a.Set? && a.id in s.updates
    && Overwrites(s.updates[a.id].read, s.updates[a.id].payload)
    && Lower(CachedTime(s.cache), CachedTime(Some(s.updates[a.id].payload)))
  }

  /** A step lowers the cached date exactly when it is such a write. */
  lemma LowersExactly(s: State, a: Action)
    ensures Lower(CachedTime(s.cache), CachedTime(Next(s, a).cache)) <==> StaleWrite(s, a)
  {
    if a.Set? && a.id in s.updates && Overwrites(s.updates[a.id].read, s.updates[a.id].payload) {
      assert Next(s, a).cache == Some(s.updates[a.id].payload);
    } else {
      assert Next(s, a).cache == s.cache;
    }
  }

  /** The cache holds one of the finished updates, and none of them is later. */
  ghost predicate HoldsLatest(s: State) {
    && (s.cache.None? <==> s.finished == [])
    && (s.cache.Some? ==>
          && s.cache.value in s.finished && Dated(s.cache.value)
          && forall p | p in s.finished :: Dated(p) && TimeOf(p) <= TimeOf(s.cache.value))
  }

  /** Updates in flight carry a date, and read no later one than is cached now. */
  ghost predicate ReadsBehind(s: State) {
    forall id | id in s.updates ::
      Dated(s.updates[id].payload) && !Lower(CachedTime(s.updates[id].read), CachedTime(s.cache))
  }

  predicate DatedAction(a: Action) {
    a.Get? ==> Dated(a.payload)
  }

  lemma HoldsStep(s: State, a: Action)
    requires HoldsLatest(s) && ReadsBehind(s) && DatedAction(a)
    ensures HoldsLatest(Next(s, a)) <==> !StaleWrite(s, a)
    ensures !StaleWrite(s, a) ==> ReadsBehind(Next(s, a))
  {
    var t := Next(s, a);
    if a.Set? && a.id in s.updates {
      var Update(payload, read) := s.updates[a.id];
      assert payload in t.finished;
      assert forall p | p in s.finished :: p in t.finished;
      assert forall p | p in t.finished :: p in s.finished || p == payload;
    }
  }

  ghost predicate EverStale(s: State, run: seq<Action>)
    decreases run
  {
    !HoldsLatest(s) || (run != [] && EverStale(Next(s, run[0]), run[1..]))
  }

  predicate HasStaleWrite(s: State, run: seq<Action>)
    decreases run
  {
    run != [] && (StaleWrite(s, run[0]) || HasStaleWrite(Next(s, run[0]), run[1..]))
  }

  /** Over any run of dated updates the cache ever holds another than the latest finished one if and only if the run has
      a stale write. */
  lemma {:induction false} StaleExactly(s: State, run: seq<Action>)
    requires HoldsLatest(s) && ReadsBehind(s) && forall a | a in run :: DatedAction(a)
    ensures EverStale(s, run) <==> HasStaleWrite(s, run)
    decreases run
  {
    if run != [] {
      assert run[0] in run;
      HoldsStep(s, run[0]);
      if StaleWrite(s, run[0]) {
        assert EverStale(Next(s, run[0]), run[1..]);
      } else {
        StaleExactly(Next(s, run[0]), run[1..]);
      }
    }
  }

  /** So without one, from an empty cache, the cached date is the greatest of all finished updates. */
  lemma {:induction false} CachedIsGreatest(s: State, run: seq<Action>)
    requires HoldsLatest(s) && ReadsBehind(s) && (forall a | a in run :: DatedAction(a)) && !HasStaleWrite(s, run)
    ensures HoldsLatest(Run(s, run))
    decreases run
  {
    if run != [] {
      assert run[0] in run;
      HoldsStep(s, run[0]);
      CachedIsGreatest(Next(s, run[0]), run[1..]);
    }
  }

  lemma GreatestFromNothing(run: seq<Action>)
    requires (forall a | a in run :: DatedAction(a)) && !HasStaleWrite(NOTHING_CACHED, run)
    ensures HoldsLatest(Run(NOTHING_CACHED, run))
  {
    CachedIsGreatest(NOTHING_CACHED, run);
  }

  /** With one it is not: two updates both read an empty cache, the newer one writes, then the older one. */
  lemma OverlapLeavesOlder(older: Cached, newer: Cached)
    requires Dated(older) && Dated(newer) && TimeOf(older) < TimeOf(newer)
    ensures var run := [Get(0, older), Get(1, newer), Set(1), Set(0)];
            Run(NOTHING_CACHED, run) == State(Some(older), map[], [newer, older]) && HasStaleWrite(NOTHING_CACHED, run)
  {
    var s1 := Next(NOTHING_CACHED, Get(0, older));
    var s2 := Next(s1, Get(1, newer));
    assert s2.updates == map[0 := Update(older, None), 1 := Update(newer, None)];
    var s3 := Next(s2, Set(1));
    assert s3 == State(Some(newer), map[0 := Update(older, None)], [newer]);
    assert StaleWrite(s3, Set(0));
    var s4 := Next(s3, Set(0));
    assert s4 == State(Some(older), map[], [newer, older]);
    assert Run(s3, [Set(0)]) == s4 && HasStaleWrite(s3, [Set(0)]);
    assert Run(s2, [Set(1), Set(0)]) == s4 && HasStaleWrite(s2, [Set(1), Set(0)]);
    assert Run(s1, [Get(1, newer), Set(1), Set(0)]) == s4 && HasStaleWrite(s1, [Get(1, newer), Set(1), Set(0)]);
  }
}
