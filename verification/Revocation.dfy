/** Revocation keys in Redis, and the bounded map that remembers the writes that failed. */
module Revocation {
  const MAX_UNCERTAIN := 10000
  const UNCERTAIN_TTL := 15 * 60 * 1000
  /** Every caller passes 900 seconds. */
  const REVOCATION_TTL := 900 * 1000

  datatype Entry = Entry(key: string, expiresAt: int)

  /** A map in insertion order, as its iteration sees it. */
  type Entries = seq<Entry>

  /** `redis` gives each stored key's expiry. */
  datatype State = State(uncertain: Entries, redis: map<string, int>)

  /** The synchronous stretches between awaits, and the moment Redis carries out a SET: it may do so and the call
      still throw, and calls may overlap. */
  datatype Event =
    | Asked(key: string, now: int, connected: bool)
    | Answered(key: string, now: int, threw: bool)
    | Writing(key: string, now: int, connected: bool)
    | Applied(key: string, now: int)
    | Written(key: string, now: int, threw: bool)

  function Prune(m: Entries, now: int): Entries {
    if m == [] then [] else (if m[0].expiresAt <= now then [] else [m[0]]) + Prune(m[1..], now)
  }

  function Delete(m: Entries, key: string): Entries {
    if m == [] then [] else (if m[0].key == key then [] else [m[0]]) + Delete(m[1..], key)
  }

  predicate Has(m: Entries, key: string) {
    exists e | e in m :: e.key == key
  }

  /** Setting a key that is present keeps its place. */
  function Put(m: Entries, key: string, expiresAt: int): Entries {
    if m == [] then [Entry(key, expiresAt)]
    else if m[0].key == key then [Entry(key, expiresAt)] + m[1..]
    else [m[0]] + Put(m[1..], key, expiresAt)
  }

  /** The oldest entry makes room in a full map, unless its key is empty: an empty string is falsy. */
  function Evict(m: Entries, key: string): Entries {
    if !Has(m, key) && |m| >= MAX_UNCERTAIN && m[0].key != "" then Delete(m, m[0].key) else m
  }

  function Mark(m: Entries, key: string, now: int): Entries {
    Put(Evict(Prune(m, now), key), key, now + UNCERTAIN_TTL)
  }

  predicate Stored(redis: map<string, int>, key: string, now: int) {
    key in redis && now < redis[key]
  }

  /** The event marks its key uncertain. */
  predicate Marks(e: Event) {
    match e
    case Asked(_, _, _) => false
    case Answered(_, _, threw) => threw
    case Writing(_, _, connected) => !connected
    case Applied(_, _) => false
    case Written(_, _, threw) => threw
  }

  function Next(s: State, e: Event): State {
    if Marks(e) then s.(uncertain := Mark(s.uncertain, e.key, e.now))
    else
      match e
      case Asked(_, now, _) => s.(uncertain := Prune(s.uncertain, now))
      case Answered(_, _, _) => s
      case Writing(_, now, _) => s.(uncertain := Prune(s.uncertain, now))
      case Applied(key, now) => s.(redis := s.redis[key := now + REVOCATION_TTL])
      case Written(key, _, _) => s.(uncertain := Delete(s.uncertain, key))
  }

  function Run(s: State, run: seq<Event>): State
    decreases run
  {
    if run == [] then s else Run(Next(s, run[0]), run[1..])
  }

  /** The start of isRevoked answers null without asking Redis. */
  predicate AnswersNull(s: State, key: string, now: int, connected: bool) {
    Has(Prune(s.uncertain, now), key) || !connected
  }

  ghost predicate DistinctKeys(m: Entries) {
    forall i, j | 0 <= i < j < |m| :: m[i].key != m[j].key
  }

  /** The key is remembered as uncertain at least until the deadline. */
  ghost predicate Marked(m: Entries, key: string, deadline: int) {
    exists e | e in m :: e.key == key && e.expiresAt >= deadline
  }

  predicate StoredUntil(redis: map<string, int>, key: string, deadline: int) {
    key in redis && redis[key] >= deadline
  }

  ghost predicate Covered(s: State, key: string, deadline: int) {
    Marked(s.uncertain, key, deadline) || StoredUntil(s.redis, key, deadline)
  }

  /** A mark for another, new key on a full map whose oldest entry is this key. */
  predicate Displaces(s: State, e: Event, key: string) {
    && Marks(e) && e.key != key && key != ""
    && var m := Prune(s.uncertain, e.now);
       !Has(m, e.key) && |m| >= MAX_UNCERTAIN && m[0].key == key
  }

  /** A write of the key comes back acknowledged. */
  predicate Succeeds(e: Event, key: string) {
    e.Written? && !e.threw && e.key == key
  }

  // ---- The map

  lemma {:induction false} PruneElements(m: Entries, now: int)
    ensures forall e :: e in Prune(m, now) <==> e in m && e.expiresAt > now
    ensures |Prune(m, now)| <= |m|
  {
    if m != [] { PruneElements(m[1..], now); }
  }

  lemma {:induction false} DeleteElements(m: Entries, key: string)
    ensures forall e :: e in Delete(m, key) <==> e in m && e.key != key
    ensures |Delete(m, key)| <= |m| && (Has(m, key) ==> |Delete(m, key)| < |m|)
  {
    if m != [] {
      DeleteElements(m[1..], key);
      if Has(m, key) && m[0].key != key {
        var e :| e in m && e.key == key;
        assert e in m[1..];
      }
    }
  }

  lemma {:induction false} PutElements(m: Entries, key: string, at: int)
    requires DistinctKeys(m)
    ensures forall e :: e in Put(m, key, at) <==> e == Entry(key, at) || (e in m && e.key != key)
    ensures |Put(m, key, at)| == |m| + if Has(m, key) then 0 else 1
    ensures DistinctKeys(Put(m, key, at))
  {
    if m != [] {
      DistinctTail(m);
      if m[0].key == key {
        assert m[0] in m;
        assert forall e :: e in m <==> e == m[0] || e in m[1..];
        forall e | e in m[1..] ensures e.key != key { }
        DistinctHead(Entry(key, at), m[1..]);
      } else {
        PutElements(m[1..], key, at);
        assert Has(m, key) <==> Has(m[1..], key) by {
          if Has(m, key) {
            var e :| e in m && e.key == key;
            assert e in m[1..];
          }
        }
        DistinctHead(m[0], Put(m[1..], key, at));
      }
    }
  }

  lemma DistinctTail(m: Entries)
    requires DistinctKeys(m) && m != []
    ensures DistinctKeys(m[1..]) && forall e | e in m[1..] :: e.key != m[0].key
  {
  }

  lemma DistinctHead(e: Entry, m: Entries)
    requires DistinctKeys(m) && forall x | x in m :: x.key != e.key
    ensures DistinctKeys([e] + m)
  {
  }

  lemma {:induction false} PruneDistinct(m: Entries, now: int)
    requires DistinctKeys(m)
    ensures DistinctKeys(Prune(m, now))
  {
    if m != [] {
      DistinctTail(m);
      PruneDistinct(m[1..], now);
      PruneElements(m[1..], now);
      DistinctHead(m[0], Prune(m[1..], now));
    }
  }

  lemma {:induction false} DeleteDistinct(m: Entries, key: string)
    requires DistinctKeys(m)
    ensures DistinctKeys(Delete(m, key))
  {
    if m != [] {
      DistinctTail(m);
      DeleteDistinct(m[1..], key);
      DeleteElements(m[1..], key);
      DistinctHead(m[0], Delete(m[1..], key));
    }
  }

  /** After a mark: the key with its new expiry, and what was there and neither expired nor displaced. */
  lemma MarkElements(m: Entries, key: string, now: int)
    requires DistinctKeys(m)
    ensures DistinctKeys(Mark(m, key, now))
    ensures var p := Prune(m, now);
            forall e :: e in Mark(m, key, now) <==>
              e == Entry(key, now + UNCERTAIN_TTL)
              || (e in p && e.key != key && !(!Has(p, key) && |p| >= MAX_UNCERTAIN && p[0].key == e.key != ""))
  {
    var p := Prune(m, now);
    PruneDistinct(m, now);
    if p != [] {
      DeleteElements(p, p[0].key);
      DeleteDistinct(p, p[0].key);
    }
    PutElements(Evict(p, key), key, now + UNCERTAIN_TTL);
  }

  // ---- Size

  ghost predicate Bounded(m: Entries) {
    DistinctKeys(m) && !Has(m, "") && |m| <= MAX_UNCERTAIN
  }

  lemma MarkBounded(m: Entries, key: string, now: int)
    requires Bounded(m) && key != ""
    ensures Bounded(Mark(m, key, now))
  {
    var p := Prune(m, now);
    MarkElements(m, key, now);
    PruneElements(m, now);
    PruneDistinct(m, now);
    if p != [] {
      assert p[0] in p;
      DeleteElements(p, p[0].key);
      DeleteDistinct(p, p[0].key);
    }
    PutElements(Evict(p, key), key, now + UNCERTAIN_TTL);
  }

  lemma StepBounded(s: State, e: Event)
    requires Bounded(s.uncertain) && e.key != ""
    ensures Bounded(Next(s, e).uncertain)
  {
    if Marks(e) {
      MarkBounded(s.uncertain, e.key, e.now);
    } else {
      PruneElements(s.uncertain, e.now);
      PruneDistinct(s.uncertain, e.now);
      DeleteElements(s.uncertain, e.key);
      DeleteDistinct(s.uncertain, e.key);
    }
  }

  /** With non-empty keys the map never exceeds its limit. */
  lemma {:induction false} RunBounded(s: State, run: seq<Event>)
    requires Bounded(s.uncertain) && forall e | e in run :: e.key != ""
    ensures Bounded(Run(s, run).uncertain)
    decreases run
  {
    if run != [] {
      StepBounded(s, run[0]);
      RunBounded(Next(s, run[0]), run[1..]);
    }
  }

  /** An empty key at the head of a full map stops eviction: every new key makes the map grow. */
  lemma EmptyHeadOverflows(m: Entries, key: string, now: int)
    requires DistinctKeys(m) && |Prune(m, now)| >= MAX_UNCERTAIN && Prune(m, now)[0].key == "" && !Has(Prune(m, now), key)
    ensures |Mark(m, key, now)| == |Prune(m, now)| + 1 > MAX_UNCERTAIN
  {
    PruneDistinct(m, now);
    PutElements(Prune(m, now), key, now + UNCERTAIN_TTL);
  }

  /** A new key meets a full map with an empty key at its head. */
  predicate Overflows(m: Entries, key: string, now: int) {
    var p := Prune(m, now);
    |p| >= MAX_UNCERTAIN && !Has(p, key) && p[0].key == ""
  }

  /** A mark takes a map of at most the limit above it exactly when it meets that. */
  lemma OverflowsExactly(m: Entries, key: string, now: int)
    requires DistinctKeys(m) && |m| <= MAX_UNCERTAIN
    ensures |Mark(m, key, now)| > MAX_UNCERTAIN <==> Overflows(m, key, now)
  {
    var p := Prune(m, now);
    PruneElements(m, now);
    PruneDistinct(m, now);
    if p != [] {
      assert p[0] in p;
      DeleteElements(p, p[0].key);
      DeleteDistinct(p, p[0].key);
    }
    PutElements(Evict(p, key), key, now + UNCERTAIN_TTL);
  }

  predicate OverflowStep(s: State, e: Event) {
    Marks(e) && Overflows(s.uncertain, e.key, e.now)
  }

  ghost predicate EverOver(s: State, run: seq<Event>)
    decreases run
  {
    |s.uncertain| > MAX_UNCERTAIN || (run != [] && EverOver(Next(s, run[0]), run[1..]))
  }

  predicate HasOverflow(s: State, run: seq<Event>)
    decreases run
  {
    run != [] && (OverflowStep(s, run[0]) || HasOverflow(Next(s, run[0]), run[1..]))
  }

  lemma OverflowStepExactly(s: State, e: Event)
    requires DistinctKeys(s.uncertain) && |s.uncertain| <= MAX_UNCERTAIN
    ensures |Next(s, e).uncertain| > MAX_UNCERTAIN <==> OverflowStep(s, e)
  {
    if Marks(e) { OverflowsExactly(s.uncertain, e.key, e.now); }
    PruneElements(s.uncertain, e.now);
    DeleteElements(s.uncertain, e.key);
  }

  /** Over any run, whatever the keys, the map ever exceeds its limit if and only if a mark meets that. */
  lemma {:induction false} EverOverExactly(s: State, run: seq<Event>)
    requires DistinctKeys(s.uncertain) && |s.uncertain| <= MAX_UNCERTAIN
    ensures EverOver(s, run) <==> HasOverflow(s, run)
    decreases run
  {
    if run != [] {
      OverflowStepExactly(s, run[0]);
      StepDistinct(s, run[0]);
      if OverflowStep(s, run[0]) {
        assert EverOver(Next(s, run[0]), run[1..]);
      } else {
        EverOverExactly(Next(s, run[0]), run[1..]);
      }
    }
  }

  // ---- Memory

  lemma StepDistinct(s: State, e: Event)
    requires DistinctKeys(s.uncertain)
    ensures DistinctKeys(Next(s, e).uncertain)
  {
    if Marks(e) { MarkElements(s.uncertain, e.key, e.now); }
    PruneDistinct(s.uncertain, e.now);
    DeleteDistinct(s.uncertain, e.key);
  }

  /** A marked key is lost, before its time, exactly by a write of it that succeeds or by being displaced. */
  lemma MarkedStep(s: State, e: Event, key: string, deadline: int)
    requires DistinctKeys(s.uncertain) && Marked(s.uncertain, key, deadline) && e.now < deadline <= e.now + UNCERTAIN_TTL
    ensures Marked(Next(s, e).uncertain, key, deadline) <==> !Succeeds(e, key) && !Displaces(s, e, key)
  {
    var entry :| entry in s.uncertain && entry.key == key && entry.expiresAt >= deadline;
    PruneElements(s.uncertain, e.now);
    var p := Prune(s.uncertain, e.now);
    assert entry in p;
    if Marks(e) {
      MarkElements(s.uncertain, e.key, e.now);
      var after := Mark(s.uncertain, e.key, e.now);
      if e.key == key {
        assert Entry(key, e.now + UNCERTAIN_TTL) in after;
      } else if !Displaces(s, e, key) {
        assert entry in after;
      }
    } else {
      DeleteElements(s.uncertain, e.key);
      assert e.Written? && e.key != key ==> entry in Next(s, e).uncertain;
    }
  }

  /** A step by which a covered key is no longer: its mark is dropped while Redis does not back it that long. */
  predicate Loses(s: State, e: Event, key: string, deadline: int) {
    (Succeeds(e, key) || Displaces(s, e, key)) && !StoredUntil(s.redis, key, deadline)
  }

  /** A setRevocation that failed, or one that Redis carries out. */
  predicate Revokes(e: Event) {
    (e.Writing? && !e.connected) || (e.Written? && e.threw) || e.Applied?
  }

  /** Both cover the key for fifteen minutes. */
  lemma RevokesCovers(s: State, e: Event)
    requires DistinctKeys(s.uncertain) && Revokes(e)
    ensures Marks(e) ==> Marked(Next(s, e).uncertain, e.key, e.now + UNCERTAIN_TTL)
    ensures Covered(Next(s, e), e.key, e.now + UNCERTAIN_TTL)
  {
    if Marks(e) {
      MarkElements(s.uncertain, e.key, e.now);
      assert Entry(e.key, e.now + UNCERTAIN_TTL) in Mark(s.uncertain, e.key, e.now);
    }
  }

  /** Redis keeps what it has until the deadline: later writes only extend it. */
  lemma StoredStays(s: State, e: Event, key: string, deadline: int)
    requires StoredUntil(s.redis, key, deadline) && deadline <= e.now + REVOCATION_TTL
    ensures StoredUntil(Next(s, e).redis, key, deadline)
  {
  }

  /** One step uncovers a covered key exactly by losing it. */
  lemma CoveredStep(s: State, e: Event, key: string, deadline: int)
    requires DistinctKeys(s.uncertain) && Covered(s, key, deadline) && e.now < deadline <= e.now + UNCERTAIN_TTL
    ensures Covered(Next(s, e), key, deadline) <==> !Loses(s, e, key, deadline)
  {
    if StoredUntil(s.redis, key, deadline) {
      StoredStays(s, e, key, deadline);
    } else {
      MarkedStep(s, e, key, deadline);
    }
  }

  /** Events between a write and its deadline, in time order. */
  ghost predicate Within(from: int, run: seq<Event>, until: int) {
    && (forall e | e in run :: from <= e.now < until)
    && (forall i, j | 0 <= i < j < |run| :: run[i].now <= run[j].now)
  }

  ghost predicate NeverLost(s: State, run: seq<Event>, key: string, deadline: int)
    decreases run
  {
    run == [] || (!Loses(s, run[0], key, deadline) && NeverLost(Next(s, run[0]), run[1..], key, deadline))
  }

  ghost predicate NeverDisplaced(s: State, run: seq<Event>, key: string)
    decreases run
  {
    run == [] || (!Displaces(s, run[0], key) && NeverDisplaced(Next(s, run[0]), run[1..], key))
  }

  lemma {:induction false} CoveredRun(s: State, run: seq<Event>, key: string, from: int)
    requires DistinctKeys(s.uncertain) && Covered(s, key, from + UNCERTAIN_TTL)
    requires Within(from, run, from + UNCERTAIN_TTL) && NeverLost(s, run, key, from + UNCERTAIN_TTL)
    ensures DistinctKeys(Run(s, run).uncertain) && Covered(Run(s, run), key, from + UNCERTAIN_TTL)
    decreases run
  {
    if run != [] {
      assert run[0] in run;
      CoveredStep(s, run[0], key, from + UNCERTAIN_TTL);
      StepDistinct(s, run[0]);
      CoveredRun(Next(s, run[0]), run[1..], key, from);
    }
  }

  lemma {:induction false} StoredRun(s: State, run: seq<Event>, key: string, from: int)
    requires StoredUntil(s.redis, key, from + UNCERTAIN_TTL) && Within(from, run, from + UNCERTAIN_TTL)
    ensures StoredUntil(Run(s, run).redis, key, from + UNCERTAIN_TTL)
    decreases run
  {
    if run != [] {
      assert run[0] in run;
      StoredStays(s, run[0], key, from + UNCERTAIN_TTL);
      StoredRun(Next(s, run[0]), run[1..], key, from);
    }
  }

  /** isRevoked over its whole course: null at the start, or what Redis says at the end, or null if that throws. */
  function Answer(s: State, ask: Event, during: seq<Event>, reply: Event): (answer: NullableBool)
    requires ask.Asked? && reply.Answered?
  {
    if AnswersNull(s, ask.key, ask.now, ask.connected) || reply.threw then Null
    else Known(Stored(Run(Next(s, ask), during).redis, ask.key, reply.now))
  }

  datatype NullableBool = Null | Known(value: bool)

  /** After a revocation failed or took effect, no isRevoked started within fifteen minutes answers false, whatever runs
      before and during it, unless the key was lost before it started. */
  lemma NeverForgotten(s: State, write: Event, before: seq<Event>, ask: Event, during: seq<Event>, reply: Event)
    requires DistinctKeys(s.uncertain) && Revokes(write)
    requires ask.Asked? && reply.Answered? && ask.key == reply.key == write.key
    requires Within(write.now, before + [ask] + during + [reply], write.now + UNCERTAIN_TTL)
    requires NeverLost(Next(s, write), before, write.key, write.now + UNCERTAIN_TTL)
    ensures Answer(Run(Next(s, write), before), ask, during, reply) != Known(false)
  {
    var all := before + [ask] + during + [reply];
    var key, deadline := write.key, write.now + UNCERTAIN_TTL;
    RevokesCovers(s, write);
    StepDistinct(s, write);
    WithinPart(write.now, all, deadline, 0, |before|);
    assert all[..|before|] == before;
    CoveredRun(Next(s, write), before, key, write.now);
    var now := Run(Next(s, write), before);
    assert all[|before|] == ask && all[|all| - 1] == reply;
    assert ask in all && reply in all;
    if !AnswersNull(now, key, ask.now, ask.connected) {
      UnmarkedIsStored(now, key, ask.now, deadline);
      StoredStays(now, ask, key, deadline);
      WithinPart(write.now, all, deadline, |before| + 1, |before| + 1 + |during|);
      assert all[|before| + 1..|before| + 1 + |during|] == during;
      StoredRun(Next(now, ask), during, key, write.now);
    }
  }

  lemma WithinPart(from: int, run: seq<Event>, until: int, i: nat, j: nat)
    requires Within(from, run, until) && i <= j <= |run|
    ensures Within(from, run[i..j], until)
  {
  }

  lemma UnmarkedIsStored(s: State, key: string, now: int, deadline: int)
    requires Covered(s, key, deadline) && now < deadline && !Has(Prune(s.uncertain, now), key)
    ensures StoredUntil(s.redis, key, deadline)
  {
    PruneElements(s.uncertain, now);
  }

  /** A connected isRevoked asked and answered at one moment says false. */
  predicate SaysFalse(s: State, key: string, now: int) {
    Answer(s, Asked(key, now, true), [], Answered(key, now, false)) == Known(false)
  }

  ghost predicate FalsePossible(s: State, key: string, clock: int, deadline: int) {
    exists now :: clock <= now < deadline && SaysFalse(s, key, now)
  }

  /** A key is covered exactly when no isRevoked from now on and before the deadline would say false. */
  lemma CoveredExactly(s: State, key: string, clock: int, deadline: int)
    requires clock < deadline
    ensures Covered(s, key, deadline) <==> !FalsePossible(s, key, clock, deadline)
  {
    if Covered(s, key, deadline) {
      forall now | clock <= now < deadline ensures !SaysFalse(s, key, now) {
        if !AnswersNull(s, key, now, true) { UnmarkedIsStored(s, key, now, deadline); }
      }
    } else {
      PruneElements(s.uncertain, deadline - 1);
      assert SaysFalse(s, key, deadline - 1);
    }
  }

  /** At the start or after some event of the run, an isRevoked could still say false before the deadline. */
  ghost predicate EverForgotten(s: State, run: seq<Event>, key: string, clock: int, deadline: int)
    decreases run
  {
    || FalsePossible(s, key, clock, deadline)
    || (run != [] && EverForgotten(Next(s, run[0]), run[1..], key, run[0].now, deadline))
  }

  /** While a key is covered, an isRevoked before the deadline ever says false if and only if the run loses the key. */
  lemma {:induction false} ForgottenExactly(s: State, run: seq<Event>, key: string, clock: int, deadline: int)
    requires DistinctKeys(s.uncertain) && Covered(s, key, deadline)
    requires clock < deadline <= clock + UNCERTAIN_TTL && Within(clock, run, deadline)
    ensures EverForgotten(s, run, key, clock, deadline) <==> !NeverLost(s, run, key, deadline)
    decreases run
  {
    CoveredExactly(s, key, clock, deadline);
    if run != [] {
      var t, at := Next(s, run[0]), run[0].now;
      assert run[0] in run;
      CoveredStep(s, run[0], key, deadline);
      StepDistinct(s, run[0]);
      CoveredExactly(t, key, at, deadline);
      if Covered(t, key, deadline) {
        ForgottenExactly(t, run[1..], key, at, deadline);
      } else {
        assert EverForgotten(t, run[1..], key, at, deadline);
      }
    }
  }

  /** After a revocation failed or took effect, some isRevoked within fifteen minutes could say false, at some point of a
      run, if and only if the run loses the key. */
  lemma RevocationForgottenExactly(s: State, write: Event, run: seq<Event>)
    requires DistinctKeys(s.uncertain) && Revokes(write)
    requires Within(write.now, run, write.now + UNCERTAIN_TTL)
    ensures EverForgotten(Next(s, write), run, write.key, write.now, write.now + UNCERTAIN_TTL)
       <==> !NeverLost(Next(s, write), run, write.key, write.now + UNCERTAIN_TTL)
  {
    RevokesCovers(s, write);
    StepDistinct(s, write);
    ForgottenExactly(Next(s, write), run, write.key, write.now, write.now + UNCERTAIN_TTL);
  }

  /** After a failed write, isRevoked answers null, unless the key is written again or displaced. */
  lemma {:induction false} FailedWriteAnswersNull(s: State, run: seq<Event>, key: string, from: int, now: int, connected: bool)
    requires DistinctKeys(s.uncertain) && Marked(s.uncertain, key, from + UNCERTAIN_TTL)
    requires Within(from, run, from + UNCERTAIN_TTL) && NeverDisplaced(s, run, key)
    requires forall e | e in run :: !Succeeds(e, key)
    requires from <= now < from + UNCERTAIN_TTL
    ensures AnswersNull(Run(s, run), key, now, connected)
    decreases run
  {
    if run == [] {
      PruneElements(s.uncertain, now);
      var e :| e in s.uncertain && e.key == key && e.expiresAt >= from + UNCERTAIN_TTL;
      assert e in Prune(s.uncertain, now);
    } else {
      assert run[0] in run;
      MarkedStep(s, run[0], key, from + UNCERTAIN_TTL);
      StepDistinct(s, run[0]);
      FailedWriteAnswersNull(Next(s, run[0]), run[1..], key, from, now, connected);
    }
  }

  /** Overlapping writes: the late acknowledgement of a SET that took effect earlier drops the mark of one that failed
      since, and between the two expiries isRevoked answers false. */
  lemma LateAcknowledgementForgets(s: State, acknowledged: Event, ask: Event, reply: Event, deadline: int)
    requires acknowledged.Written? && !acknowledged.threw && ask.Asked? && reply.Answered? && ask.connected && !reply.threw
    requires acknowledged.key == ask.key == reply.key && ask.key in s.redis
    requires Marked(s.uncertain, ask.key, deadline) && s.redis[ask.key] <= reply.now && ask.now <= reply.now < deadline
    ensures Answer(s, ask, [], reply) == Null
    ensures Answer(Next(s, acknowledged), ask, [], reply) == Known(false)
  {
    PruneElements(s.uncertain, ask.now);
    var e :| e in s.uncertain && e.key == ask.key && e.expiresAt >= deadline;
    assert e in Prune(s.uncertain, ask.now);
    DeleteElements(s.uncertain, ask.key);
    PruneElements(Delete(s.uncertain, ask.key), ask.now);
  }

  /** It happens to an empty service: two writes of a key overlap, the one that failed last is forgotten when the other
      is acknowledged, and isRevoked says false before the failed one's fifteen minutes are over. */
  lemma LossReached(key: string)
    ensures var s := Run(State([], map[]), [Writing(key, 0, true), Applied(key, 0), Writing(key, 5, true)]);
            var failed := Next(s, Written(key, 10, true));
            && !FalsePossible(failed, key, 10, 10 + UNCERTAIN_TTL)
            && SaysFalse(Next(failed, Written(key, 11, false)), key, REVOCATION_TTL)
            && REVOCATION_TTL < 10 + UNCERTAIN_TTL
  {
    var run := [Writing(key, 0, true), Applied(key, 0), Writing(key, 5, true)];
    ShortRun(State([], map[]), run);
    var s := Run(State([], map[]), run);
    assert s == State([], map[key := REVOCATION_TTL]);
    var failed := Next(s, Written(key, 10, true));
    RevokesCovers(s, Written(key, 10, true));
    CoveredExactly(failed, key, 10, 10 + UNCERTAIN_TTL);
    LateAcknowledgementForgets(failed, Written(key, 11, false), Asked(key, REVOCATION_TTL, true),
                               Answered(key, REVOCATION_TTL, false), 10 + UNCERTAIN_TTL);
  }

  /** Failing again does not move a key to the back: at the head of a full map it is displaced by the next new failure. */
  lemma FreshFailureDisplaced(s: State, again: Event, other: Event)
    requires DistinctKeys(s.uncertain) && Marks(again) && Marks(other) && again.now <= other.now
    requires |s.uncertain| == MAX_UNCERTAIN && s.uncertain[0].key == again.key != "" && !Has(s.uncertain, other.key)
    requires forall e | e in s.uncertain :: e.expiresAt > other.now
    requires other.now < again.now + UNCERTAIN_TTL
    ensures Displaces(Next(s, again), other, again.key)
    ensures !Has(Next(Next(s, again), other).uncertain, again.key)
  {
    PruneNone(s.uncertain, again.now);
    assert s.uncertain[0] in s.uncertain;
    var after := Mark(s.uncertain, again.key, again.now);
    MarkElements(s.uncertain, again.key, again.now);
    assert again.key != other.key;
    assert after == [Entry(again.key, again.now + UNCERTAIN_TTL)] + s.uncertain[1..];
    PruneNone(after, other.now);
    assert !Has(after, other.key);
    MarkElements(after, other.key, other.now);
  }

  lemma {:induction false} PruneNone(m: Entries, now: int)
    requires forall e | e in m :: e.expiresAt > now
    ensures Prune(m, now) == m
  {
    if m != [] { PruneNone(m[1..], now); }
  }

  // ---- The service

  /** What becomes of the SET: refused without a connection, or sent, perhaps carried out, and answered or not. */
  datatype Outcome = NotConnected | Acknowledged(applied: int, done: int) | Threw(applied: int, carriedOut: bool, done: int)

  /** The events of one setRevocation with nothing in between. */
  function Course(key: string, now: int, outcome: Outcome): seq<Event> {
    match outcome
    case NotConnected => [Writing(key, now, false)]
    case Acknowledged(applied, done) => [Writing(key, now, true), Applied(key, applied), Written(key, done, false)]
    case Threw(applied, carriedOut, done) =>
      [Writing(key, now, true)] + (if carriedOut then [Applied(key, applied)] else []) + [Written(key, done, true)]
  }

  lemma CourseEffect(s: State, key: string, now: int, outcome: Outcome)
    ensures var pruned := Prune(s.uncertain, now);
            Run(s, Course(key, now, outcome)) ==
              match outcome
              case NotConnected => State(Mark(s.uncertain, key, now), s.redis)
              case Acknowledged(applied, _) => State(Delete(pruned, key), s.redis[key := applied + REVOCATION_TTL])
              case Threw(applied, carriedOut, done) =>
                State(Mark(pruned, key, done), if carriedOut then s.redis[key := applied + REVOCATION_TTL] else s.redis)
  {
    ShortRun(s, Course(key, now, outcome));
  }

  class RedisService {
    var uncertainRevocationKeys: seq<Entry>
    var redis: map<string, int>

    ghost function View(): State
      reads this
    {
      State(uncertainRevocationKeys, redis)
    }

    constructor ()
      ensures View() == State([], map[])
    {
      uncertainRevocationKeys, redis := [], map[];
    }

    method PruneUncertainRevocationKeys(now: int)
      modifies this`uncertainRevocationKeys
      ensures View() == old(View()).(uncertain := Prune(old(uncertainRevocationKeys), now))
    {
      var kept := [];
      for i := 0 to |uncertainRevocationKeys|
        invariant uncertainRevocationKeys == old(uncertainRevocationKeys)
        invariant kept == Prune(uncertainRevocationKeys[..i], now)
      {
        var entry := uncertainRevocationKeys[i];
        PruneOneMore(uncertainRevocationKeys, i, now);
        if entry.expiresAt > now { kept := kept + [entry]; }
      }
      assert uncertainRevocationKeys[..|uncertainRevocationKeys|] == uncertainRevocationKeys;
      uncertainRevocationKeys := kept;
    }

    method MarkRevocationUncertain(key: string, now: int)
      modifies this`uncertainRevocationKeys
      ensures View() == old(View()).(uncertain := Mark(old(uncertainRevocationKeys), key, now))
    {
      PruneUncertainRevocationKeys(now);
      if !Has(uncertainRevocationKeys, key) && |uncertainRevocationKeys| >= MAX_UNCERTAIN {
        var oldestKey := uncertainRevocationKeys[0].key;
        if oldestKey != "" { uncertainRevocationKeys := Delete(uncertainRevocationKeys, oldestKey); }
      }
      uncertainRevocationKeys := Put(uncertainRevocationKeys, key, now + UNCERTAIN_TTL);
    }

    method SetRevocation(key: string, now: int, outcome: Outcome)
      modifies this
      ensures View() == Run(old(View()), Course(key, now, outcome))
    {
      CourseEffect(View(), key, now, outcome);
      PruneUncertainRevocationKeys(now);
      if outcome.NotConnected? {
        PruneTwice(old(uncertainRevocationKeys), now);
        MarkRevocationUncertain(key, now);
        return;
      }
      if outcome.Acknowledged? || outcome.carriedOut { redis := redis[key := outcome.applied + REVOCATION_TTL]; }
      if outcome.Acknowledged? {
        uncertainRevocationKeys := Delete(uncertainRevocationKeys, key);
      } else {
        MarkRevocationUncertain(key, outcome.done);
      }
    }

    /** `done` is when EXISTS runs, or throws. */
    method IsRevoked(key: string, now: int, connected: bool, done: int, threw: bool) returns (answer: NullableBool)
      modifies this
      ensures var asked := Next(old(View()), Asked(key, now, connected));
              View() == if AnswersNull(old(View()), key, now, connected) then asked else Next(asked, Answered(key, done, threw))
      ensures answer == Answer(old(View()), Asked(key, now, connected), [], Answered(key, done, threw))
    {
      PruneUncertainRevocationKeys(now);
      if Has(uncertainRevocationKeys, key) || !connected { return Null; }
      if threw {
        MarkRevocationUncertain(key, done);
        return Null;
      }
      answer := Known(Stored(redis, key, done));
    }
  }

  lemma {:induction false} PruneConcat(a: Entries, b: Entries, now: int)
    ensures Prune(a + b, now) == Prune(a, now) + Prune(b, now)
  {
    if a == [] {
      assert a + b == b;
    } else {
      PruneConcat(a[1..], b, now);
      assert (a + b)[0] == a[0] && (a + b)[1..] == a[1..] + b;
      var head := if a[0].expiresAt <= now then [] else [a[0]];
      assert head + (Prune(a[1..], now) + Prune(b, now)) == head + Prune(a[1..], now) + Prune(b, now);
    }
  }

  lemma PruneOneMore(m: Entries, i: nat, now: int)
    requires i < |m|
    ensures Prune(m[..i + 1], now) == if m[i].expiresAt > now then Prune(m[..i], now) + [m[i]] else Prune(m[..i], now)
  {
    assert m[..i + 1] == m[..i] + [m[i]];
    PruneConcat(m[..i], [m[i]], now);
    assert Prune(m[..i], now) + [] == Prune(m[..i], now);
    assert Prune([m[i]], now) == if m[i].expiresAt > now then [m[i]] else [];
  }

  lemma PruneTwice(m: Entries, now: int)
    ensures Prune(Prune(m, now), now) == Prune(m, now)
  {
    PruneElements(m, now);
    PruneNone(Prune(m, now), now);
  }

  /** Unfolds a short run. */
  lemma ShortRun(s: State, run: seq<Event>)
    ensures |run| == 1 ==> Run(s, run) == Next(s, run[0])
    ensures |run| == 2 ==> Run(s, run) == Next(Next(s, run[0]), run[1])
    ensures |run| == 3 ==> Run(s, run) == Next(Next(Next(s, run[0]), run[1]), run[2])
  {
    if |run| >= 2 { assert Run(s, run) == Run(Next(s, run[0]), run[1..]); }
    if |run| == 3 { assert Run(Next(s, run[0]), run[1..]) == Run(Next(Next(s, run[0]), run[1]), run[1..][1..]); }
  }
}
