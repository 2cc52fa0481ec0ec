/** What setting a revocation and asking for one come to, with times and sizes written out. */
module RevocationOutcomes {
  import opened Revocation

  // ---- The map

  lemma {:induction false} PutExact(m: Entries, key: string, at: int)
    requires DistinctKeys(m)
    ensures !Has(m, key) ==> Put(m, key, at) == m + [Entry(key, at)]
    ensures forall i | 0 <= i < |m| && m[i].key == key :: Put(m, key, at) == m[i := Entry(key, at)]
  {
    if m != [] && m[0].key != key {
      DistinctTail(m);
      PutExact(m[1..], key, at);
      assert m == [m[0]] + m[1..];
      if !Has(m, key) {
        forall e | e in m[1..] ensures e.key != key { assert e in m; }
        assert Put(m, key, at) == [m[0]] + (m[1..] + [Entry(key, at)]);
      }
      forall i | 0 <= i < |m| && m[i].key == key ensures Put(m, key, at) == m[i := Entry(key, at)] {
        assert m[1..][i - 1] == m[i];
        assert m[i := Entry(key, at)] == [m[0]] + m[1..][i - 1 := Entry(key, at)];
      }
    } else if m != [] {
      assert m[0] in m;
      assert [Entry(key, at)] + m[1..] == m[0 := Entry(key, at)];
    }
  }

  lemma {:induction false} DeleteAbsent(m: Entries, key: string)
    requires !Has(m, key)
    ensures Delete(m, key) == m
  {
    if m != [] {
      assert m[0] in m;
      forall e | e in m[1..] ensures e.key != key { assert e in m; }
      DeleteAbsent(m[1..], key);
    }
  }

  lemma DeleteHead(m: Entries)
    requires DistinctKeys(m) && m != []
    ensures Delete(m, m[0].key) == m[1..]
  {
    DistinctTail(m);
    DeleteAbsent(m[1..], m[0].key);
  }

  /** A key that is marked again keeps its place, a new one goes to the end, and of ten thousand the oldest goes. */
  lemma MarkExact(m: Entries, key: string, now: int)
    requires DistinctKeys(m) && forall e | e in m :: e.expiresAt > now
    ensures forall i | 0 <= i < |m| && m[i].key == key :: Mark(m, key, now) == m[i := Entry(key, now + 900_000)]
    ensures !Has(m, key) && |m| < 10_000 ==> Mark(m, key, now) == m + [Entry(key, now + 900_000)]
    ensures !Has(m, key) && |m| == 10_000 && m[0].key != "" ==> Mark(m, key, now) == m[1..] + [Entry(key, now + 900_000)]
  {
    PruneNone(m, now);
    PutExact(m, key, now + 900_000);
    forall i | 0 <= i < |m| && m[i].key == key ensures Mark(m, key, now) == m[i := Entry(key, now + 900_000)] {
      assert m[i] in m;
    }
    if !Has(m, key) && |m| == 10_000 && m[0].key != "" {
      DeleteHead(m);
      DistinctTail(m);
      forall e | e in m[1..] ensures e.key != key { assert e in m; }
      PutExact(m[1..], key, now + 900_000);
    }
  }

  // ---- Asking

  function Ask(s: State, key: string, now: int, connected: bool, threw: bool): NullableBool {
    Answer(s, Asked(key, now, connected), [], Answered(key, now, threw))
  }

  ghost predicate Uncertain(s: State, key: string, now: int) {
    exists e | e in s.uncertain :: e.key == key && now < e.expiresAt
  }

  /** Null for a key that is uncertain, or if Redis is not there or throws; otherwise whether Redis still has the key. */
  lemma AskExact(s: State, key: string, now: int, connected: bool, threw: bool)
    ensures Ask(s, key, now, connected, threw) ==
              if Uncertain(s, key, now) || !connected || threw then Null else Known(key in s.redis && now < s.redis[key])
  {
    PruneElements(s.uncertain, now);
    if Uncertain(s, key, now) {
      var e :| e in s.uncertain && e.key == key && now < e.expiresAt;
      assert e in Prune(s.uncertain, now);
    }
  }

  lemma MarkedUntil(m: Entries, redis: map<string, int>, key: string, now: int, at: int)
    requires DistinctKeys(m)
    ensures Uncertain(State(Mark(m, key, now), redis), key, at) <==> at < now + 900_000
  {
    MarkElements(m, key, now);
    assert Entry(key, now + 900_000) in Mark(m, key, now);
  }

  /** Asking and writing clear the expired marks and no other, a reply changes nothing, and one that throws makes its key
      uncertain for fifteen minutes. */
  lemma EventsLeave(s: State, key: string, now: int, at: int)
    requires DistinctKeys(s.uncertain)
    ensures var t := Next(s, Asked(key, now, true));
            t.redis == s.redis && forall e :: e in t.uncertain <==> e in s.uncertain && now < e.expiresAt
    ensures Next(s, Asked(key, now, false)) == Next(s, Asked(key, now, true)) == Next(s, Writing(key, now, true))
    ensures Next(s, Answered(key, now, false)) == s
    ensures Next(s, Answered(key, now, true)).redis == s.redis
    ensures Uncertain(Next(s, Answered(key, now, true)), key, at) <==> at < now + 900_000
  {
    PruneElements(s.uncertain, now);
    MarkedUntil(s.uncertain, s.redis, key, now, at);
  }

  // ---- Setting, then asking

  /** An acknowledged revocation is answered with true for fifteen minutes and with false after them. One that failed is
      answered with null for fifteen minutes, and after them with what Redis has. */
  lemma SetThenAsk(s: State, key: string, now: int, outcome: Outcome, at: int)
    requires DistinctKeys(s.uncertain)
    ensures var t := Run(s, Course(key, now, outcome));
            var before := Known(key in s.redis && at < s.redis[key]);
            Ask(t, key, at, true, false) ==
              match outcome
              case NotConnected => if at < now + 900_000 then Null else before
              case Acknowledged(applied, _) => Known(at < applied + 900_000)
              case Threw(applied, carriedOut, done) =>
                if at < done + 900_000 then Null else if carriedOut then Known(at < applied + 900_000) else before
  {
    CourseEffect(s, key, now, outcome);
    var t := Run(s, Course(key, now, outcome));
    AskExact(t, key, at, true, false);
    PruneDistinct(s.uncertain, now);
    match outcome
    case NotConnected => MarkedUntil(s.uncertain, t.redis, key, now, at);
    case Acknowledged(applied, _) => DeleteElements(Prune(s.uncertain, now), key);
    case Threw(applied, carriedOut, done) => MarkedUntil(Prune(s.uncertain, now), t.redis, key, done, at);
  }
}
