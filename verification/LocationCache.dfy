/** Batch telemetry of one driver: per-point checks, idempotency keys, velocity flags, and the latest-location cache. */
module LocationCache {
  import opened Collections
  import opened Wrappers

  const FUTURE_MARGIN := 300000
  const STALE := 3600000
  const MAX_ACCURACY := 50.0
  const MAX_SPEED := 41.67

  /** `recordedAt` is in milliseconds, None when the string parses to no date. */
  datatype Point = Point(
    latitude: real, longitude: real, accuracy: real, recordedAt: Option<int>, delivery: Option<string>, key: Option<string>)

  datatype Code = DeliveryNotFound | DeliveryNotAssigned | InvalidCoordinates | LowAccuracy
                | TimestampInvalid | TimestampFuture | TimestampStale

  datatype Status = Valid | AnomalyVelocity

  /** What the driver's cache key holds. */
  datatype Cached = Malformed | Location(latitude: real, longitude: real, recordedAt: Option<int>, delivery: Option<string>)

  /** What ingestion looks up but does not change: who drives each delivery, whether the driver has a user row, the clock,
      and the distance between two coordinates. */
  datatype Setting = Setting(
    driver: string, drivers: map<string, Option<string>>, hasUser: bool, receivedAt: int,
    distance: (real, real, real, real) -> real)

  datatype Tables = Tables(stored: seq<(Point, Status)>, records: map<string, Status>, cache: Option<Cached>)

  datatype Outcome = Ingested(status: Status, idempotent: bool) | Rejected(code: Code)

  datatype BatchError = BatchError(index: nat, code: Code)

  // ---- The cache

  function CachedTime(cache: Option<Cached>): Option<int> {
    if cache.Some? && cache.value.Location? then cache.value.recordedAt else None
  }

  /** setLatestLocation: not when both dates are valid and the new one is not strictly later. */
  predicate Overwrites(cache: Option<Cached>, payload: Cached) {
    CachedTime(cache).None? || CachedTime(Some(payload)).None? || CachedTime(Some(payload)).value > CachedTime(cache).value
  }

  function SetLatest(cache: Option<Cached>, payload: Cached): Option<Cached> {
    if Overwrites(cache, payload) then Some(payload) else cache
  }

  function SetAll(cache: Option<Cached>, payloads: seq<Cached>): Option<Cached> {
    if payloads == [] then cache
    else SetLatest(SetAll(cache, payloads[..|payloads| - 1]), payloads[|payloads| - 1])
  }

  predicate Dated(payload: Cached) {
    payload.Location? && payload.recordedAt.Some?
  }

  function TimeOf(payload: Cached): int
    requires Dated(payload)
  {
    payload.recordedAt.value
  }

  /** Position i holds the greatest date, and no earlier position does. */
  ghost predicate FirstLatest(payloads: seq<Cached>, i: nat)
    requires i < |payloads| && forall j | 0 <= j < |payloads| :: Dated(payloads[j])
  {
    && (forall j | 0 <= j < |payloads| :: TimeOf(payloads[j]) <= TimeOf(payloads[i]))
    && (forall j | 0 <= j < i :: TimeOf(payloads[j]) < TimeOf(payloads[i]))
  }

  /** After any updates one after another the cache holds the latest of them, the first to arrive among equals. */
  lemma {:induction false} CacheIsLatest(payloads: seq<Cached>) returns (i: nat)
    requires payloads != [] && forall j | 0 <= j < |payloads| :: Dated(payloads[j])
    ensures i < |payloads| && FirstLatest(payloads, i) && SetAll(None, payloads) == Some(payloads[i])
    decreases payloads
  {
    var n := |payloads| - 1;
    var before := payloads[..n];
    assert forall j | 0 <= j < n :: before[j] == payloads[j];
    assert Dated(payloads[n]);
    if n == 0 {
      i := 0;
    } else {
      var k := CacheIsLatest(before);
      i := if TimeOf(payloads[n]) > TimeOf(before[k]) then n else k;
      assert before[k] == payloads[k];
    }
  }

  // ---- One point

  function ClockSkew(recordedAt: Option<int>, receivedAt: int): Option<Code> {
    if recordedAt.None? then Some(TimestampInvalid)
    else if recordedAt.value > receivedAt + FUTURE_MARGIN then Some(TimestampFuture)
    else if recordedAt.value < receivedAt - STALE then Some(TimestampStale)
    else None
  }

  function DeliveryCheck(s: Setting, delivery: Option<string>): Option<Code> {
    if delivery.None? then None
    else if delivery.value !in s.drivers then Some(DeliveryNotFound)
    else if s.drivers[delivery.value] != Some(s.driver) then Some(DeliveryNotAssigned)
    else None
  }

  function PointCheck(s: Setting, p: Point): Option<Code> {
    if !(-90.0 <= p.latitude <= 90.0 && -180.0 <= p.longitude <= 180.0) then Some(InvalidCoordinates)
    else if !(0.0 < p.accuracy <= MAX_ACCURACY) then Some(LowAccuracy)
    else ClockSkew(p.recordedAt, s.receivedAt)
  }

  /** The velocity flag, against the cached location, when the point is strictly later. */
  function Flag(s: Setting, cache: Option<Cached>, p: Point): Status
    requires p.recordedAt.Some?
  {
    if CachedTime(cache).None? || p.recordedAt.value <= CachedTime(cache).value then Valid
    else
      var c := cache.value;
      var seconds := (p.recordedAt.value - c.recordedAt.value) as real / 1000.0;
      if s.distance(c.latitude, c.longitude, p.latitude, p.longitude) / seconds > MAX_SPEED then AnomalyVelocity else Valid
  }

  function PayloadOf(p: Point): Cached {
    Location(p.latitude, p.longitude, p.recordedAt, p.delivery)
  }

  predicate Keyed(s: Setting, p: Point) {
    p.key.Some? && s.hasUser
  }

  /** The checks come in this order: delivery, replay, then the point itself. */
  function Process(s: Setting, t: Tables, p: Point): (Tables, Outcome) {
    if DeliveryCheck(s, p.delivery).Some? then (t, Rejected(DeliveryCheck(s, p.delivery).value))
    else if Keyed(s, p) && p.key.value in t.records then (t, Ingested(t.records[p.key.value], true))
    else if PointCheck(s, p).Some? then (t, Rejected(PointCheck(s, p).value))
    else
      var status := Flag(s, t.cache, p);
      (Tables(t.stored + [(p, status)],
              if Keyed(s, p) then t.records[p.key.value := status] else t.records,
              SetLatest(t.cache, PayloadOf(p))),
       Ingested(status, false))
  }

  function ProcessAll(s: Setting, t: Tables, points: seq<Point>): (Tables, seq<Outcome>) {
    if points == [] then (t, [])
    else
      var (now, outcomes) := ProcessAll(s, t, points[..|points| - 1]);
      var (after, outcome) := Process(s, now, points[|points| - 1]);
      (after, outcomes + [outcome])
  }

  // ---- What a batch comes to, whatever its order

  datatype Fate = Refused(code: Code) | Replayed | Kept

  /** What becomes of a point, given the keys recorded before the batch. */
  function FateOf(s: Setting, records: set<string>, p: Point): Fate {
    if DeliveryCheck(s, p.delivery).Some? then Refused(DeliveryCheck(s, p.delivery).value)
    else if Keyed(s, p) && p.key.value in records then Replayed
    else if PointCheck(s, p).Some? then Refused(PointCheck(s, p).value)
    else Kept
  }

  /** No two points of the batch have the same idempotency key; keys of a driver without a user row do not matter. */
  ghost predicate KeysDiffer(s: Setting, points: seq<Point>) {
    s.hasUser ==> forall i, j | 0 <= i < j < |points| :: points[i].key.Some? ==> points[i].key != points[j].key
  }

  /** An outcome without its velocity flag. */
  function Kind(outcome: Outcome): Fate {
    match outcome
    case Rejected(code) => Refused(code)
    case Ingested(_, idempotent) => if idempotent then Replayed else Kept
  }

  function Kinds(outcomes: seq<Outcome>): (kinds: seq<Fate>)
    ensures |kinds| == |outcomes| && forall i | 0 <= i < |outcomes| :: kinds[i] == Kind(outcomes[i])
  {
    seq(|outcomes|, i requires 0 <= i < |outcomes| => Kind(outcomes[i]))
  }

  /** The date is that of the cache before the batch or of a kept point, and none of these is later. */
  ghost predicate Newest(s: Setting, t: Tables, points: seq<Point>, time: Option<int>) {
    && (time.None? ==> CachedTime(t.cache).None? && forall p | p in points :: !FateOf(s, t.records.Keys, p).Kept?)
    && (time.Some? ==>
          && (CachedTime(t.cache) == time || exists p | p in points :: FateOf(s, t.records.Keys, p).Kept? && p.recordedAt == time)
          && (CachedTime(t.cache).Some? ==> CachedTime(t.cache).value <= time.value)
          && forall p | p in points && FateOf(s, t.records.Keys, p).Kept? :: p.recordedAt.value <= time.value)
  }

  function Fates(s: Setting, records: set<string>, points: seq<Point>): (fates: seq<Fate>)
    ensures |fates| == |points| && forall i | 0 <= i < |points| :: fates[i] == FateOf(s, records, points[i])
  {
    seq(|points|, i requires 0 <= i < |points| => FateOf(s, records, points[i]))
  }

  lemma {:induction false} RecordsGrow(s: Setting, t: Tables, points: seq<Point>, key: string)
    ensures var after := ProcessAll(s, t, points).0;
            (key in t.records ==> key in after.records)
            && (key in after.records ==> key in t.records || exists p | p in points :: p.key == Some(key))
    decreases points
  {
    if points != [] { RecordsGrow(s, t, points[..|points| - 1], key); }
  }

  /** No other point of the batch records a point's key. */
  lemma FateUnchanged(s: Setting, t: Tables, points: seq<Point>)
    requires points != [] && KeysDiffer(s, points)
    ensures var n := |points| - 1;
            FateOf(s, ProcessAll(s, t, points[..n]).0.records.Keys, points[n]) == FateOf(s, t.records.Keys, points[n])
  {
    var n := |points| - 1;
    var p := points[n];
    if Keyed(s, p) {
      RecordsGrow(s, t, points[..n], p.key.value);
      forall x | x in points[..n] ensures x.key != p.key {
        var i :| 0 <= i < n && points[i] == x;
      }
    }
  }

  /** With differing keys, a point meets its fate wherever in the batch it stands. */
  lemma {:induction false} FatesMet(s: Setting, t: Tables, points: seq<Point>)
    requires KeysDiffer(s, points)
    ensures var (after, outcomes) := ProcessAll(s, t, points);
            && Kinds(outcomes) == Fates(s, t.records.Keys, points)
            && Newest(s, t, points, CachedTime(after.cache))
    decreases points
  {
    if points != [] {
      var n := |points| - 1;
      var before, p := points[..n], points[n];
      FatesMet(s, t, before);
      var (now, outcomes) := ProcessAll(s, t, before);
      FateUnchanged(s, t, points);
      NewestGrows(s, t, before, p, now);
      assert points == before + [p];
      assert Kind(Process(s, now, p).1) == FateOf(s, t.records.Keys, p);
      assert Kinds(outcomes + [Process(s, now, p).1]) == Kinds(outcomes) + [Kind(Process(s, now, p).1)];
      assert Fates(s, t.records.Keys, points) == Fates(s, t.records.Keys, before) + [FateOf(s, t.records.Keys, p)];
    }
  }

  lemma NewestGrows(s: Setting, t: Tables, before: seq<Point>, p: Point, now: Tables)
    requires Newest(s, t, before, CachedTime(now.cache)) && FateOf(s, now.records.Keys, p) == FateOf(s, t.records.Keys, p)
    ensures Newest(s, t, before + [p], CachedTime(Process(s, now, p).0.cache))
  {
  }

  lemma HeadElsewhere<T>(p: seq<T>, q: seq<T>) returns (k: nat)
    requires multiset(p) == multiset(q) && p != []
    ensures k < |q| && q[k] == p[0] && multiset(p[..0] + p[1..]) == multiset(q[..k] + q[k + 1..])
  {
    assert p[0] in multiset(q);
    k :| 0 <= k < |q| && q[k] == p[0];
    RemovedElements(q, k);
    RemovedElements(p, 0);
  }

  lemma {:induction false} SameFates(s: Setting, records: set<string>, p: seq<Point>, q: seq<Point>)
    requires multiset(p) == multiset(q)
    ensures multiset(Fates(s, records, p)) == multiset(Fates(s, records, q))
    decreases |p|
  {
    if p == [] {
      assert |multiset(q)| == |q|;
    } else {
      var k := HeadElsewhere(p, q);
      SameFates(s, records, p[..0] + p[1..], q[..k] + q[k + 1..]);
      FatesWithout(s, records, q, k);
      FatesWithout(s, records, p, 0);
    }
  }

  lemma FatesWithout(s: Setting, records: set<string>, points: seq<Point>, k: nat)
    requires k < |points|
    ensures multiset(Fates(s, records, points))
         == multiset(Fates(s, records, points[..k] + points[k + 1..])) + multiset{FateOf(s, records, points[k])}
  {
    var fates := Fates(s, records, points);
    RemovedElements(fates, k);
    assert fates[..k] + fates[k + 1..] == Fates(s, records, points[..k] + points[k + 1..]);
  }

  /** A batch with differing keys does the same in any order: the same dates win, and the same points are refused for the
      same reasons, replayed or kept. */
  lemma OrderDoesNotMatter(s: Setting, t: Tables, p: seq<Point>, q: seq<Point>)
    requires multiset(p) == multiset(q) && KeysDiffer(s, p) && KeysDiffer(s, q)
    ensures CachedTime(ProcessAll(s, t, p).0.cache) == CachedTime(ProcessAll(s, t, q).0.cache)
    ensures multiset(Kinds(ProcessAll(s, t, p).1)) == multiset(Kinds(ProcessAll(s, t, q).1))
  {
    FatesMet(s, t, p);
    FatesMet(s, t, q);
    SameFates(s, t.records.Keys, p, q);
    forall x ensures x in p <==> x in q { assert x in multiset(p) <==> x in multiset(q); }
    NewestUnique(s, t, p, q, CachedTime(ProcessAll(s, t, p).0.cache), CachedTime(ProcessAll(s, t, q).0.cache));
  }

  lemma NewestUnique(s: Setting, t: Tables, p: seq<Point>, q: seq<Point>, a: Option<int>, b: Option<int>)
    requires Newest(s, t, p, a) && Newest(s, t, q, b) && forall x :: x in p <==> x in q
    ensures a == b
  {
  }

  /** The velocity flags do depend on the order: the earlier point must come first for the later one to be flagged. */
  lemma FlagsDependOnOrder(s: Setting, records: map<string, Status>, a: Point, b: Point)
    requires a.delivery == b.delivery == None && a.key == b.key == None
    requires PointCheck(s, a) == PointCheck(s, b) == None && a.recordedAt.value < b.recordedAt.value
    requires var seconds := (b.recordedAt.value - a.recordedAt.value) as real / 1000.0;
             s.distance(a.latitude, a.longitude, b.latitude, b.longitude) / seconds > MAX_SPEED
    ensures var t := Tables([], records, None);
            && ProcessAll(s, t, [a, b]).1 == [Ingested(Valid, false), Ingested(AnomalyVelocity, false)]
            && ProcessAll(s, t, [b, a]).1 == [Ingested(Valid, false), Ingested(Valid, false)]
  {
    var t := Tables([], records, None);
    PairProcessed(s, t, a, b);
    PairProcessed(s, t, b, a);
  }

  /** Two points under one key: the first to come is kept and the other only replayed, so the order decides the cache. */
  lemma SharedKeyOrderMatters(s: Setting, a: Point, b: Point)
    requires a.delivery == b.delivery == None && a.key == b.key != None && s.hasUser
    requires PointCheck(s, a) == PointCheck(s, b) == None && a.recordedAt.value < b.recordedAt.value
    ensures var t := Tables([], map[], None);
            && ProcessAll(s, t, [a, b]).0.cache == Some(PayloadOf(a))
            && ProcessAll(s, t, [b, a]).0.cache == Some(PayloadOf(b))
  {
    var t := Tables([], map[], None);
    PairProcessed(s, t, a, b);
    PairProcessed(s, t, b, a);
  }

  lemma PairProcessed(s: Setting, t: Tables, a: Point, b: Point)
    ensures var (now, x) := Process(s, t, a);
            var (after, y) := Process(s, now, b);
            ProcessAll(s, t, [a, b]) == (after, [x, y])
  {
    assert [a, b][..1] == [a] && [a][..0] == [];
    assert ProcessAll(s, t, [a][..0]) == (t, []);
    var (now, x) := Process(s, t, a);
    assert ProcessAll(s, t, [a]) == (now, [] + [x]);
    assert [] + [x] == [x] && [x] + [Process(s, now, b).1] == [x, Process(s, now, b).1];
  }

  // ---- The service

  lemma BatchStep(s: Setting, t: Tables, points: seq<Point>, i: nat)
    requires i < |points|
    ensures var (now, outcomes) := ProcessAll(s, t, points[..i]);
            var (after, outcome) := Process(s, now, points[i]);
            ProcessAll(s, t, points[..i + 1]) == (after, outcomes + [outcome])
  {
    assert points[..i + 1][..i] == points[..i];
  }

  function Successes(outcomes: seq<Outcome>): seq<Outcome> {
    if outcomes == [] then []
    else
      var n := |outcomes| - 1;
      Successes(outcomes[..n]) + if outcomes[n].Ingested? then [outcomes[n]] else []
  }

  /** Successes and errors share the outcomes out between them. */
  lemma {:induction false} NoneUncounted(outcomes: seq<Outcome>)
    ensures |Successes(outcomes)| + |Errors(outcomes)| == |outcomes|
  {
    if outcomes != [] { NoneUncounted(outcomes[..|outcomes| - 1]); }
  }

  lemma OneMoreOutcome(outcomes: seq<Outcome>, o: Outcome)
    ensures Successes(outcomes + [o]) == Successes(outcomes) + if o.Ingested? then [o] else []
    ensures Errors(outcomes + [o]) == Errors(outcomes) + if o.Rejected? then [BatchError(|outcomes|, o.code)] else []
  {
    assert (outcomes + [o])[..|outcomes|] == outcomes;
  }

  function Errors(outcomes: seq<Outcome>): seq<BatchError> {
    if outcomes == [] then []
    else
      var n := |outcomes| - 1;
      Errors(outcomes[..n]) + if outcomes[n].Rejected? then [BatchError(n, outcomes[n].code)] else []
  }

  /** The errors of a batch are its rejected points, each with its index and reason. */
  lemma {:induction false} ErrorsExact(outcomes: seq<Outcome>, e: BatchError)
    ensures e in Errors(outcomes) <==> e.index < |outcomes| && outcomes[e.index] == Rejected(e.code)
    decreases outcomes
  {
    if outcomes != [] { ErrorsExact(outcomes[..|outcomes| - 1], e); }
  }

  class TrackingService {
    const setting: Setting
    var stored: seq<(Point, Status)>
    var records: map<string, Status>
    var cache: Option<Cached>

    ghost function View(): Tables
      reads this
    {
      Tables(stored, records, cache)
    }

    constructor (setting: Setting)
      ensures View() == Tables([], map[], None) && this.setting == setting
    {
      this.setting, stored, records, cache := setting, [], map[], None;
    }

    /** The half of setLatestLocation after its read: `existing` is what it read, the cache may have moved on since. */
    method WriteIfNewer(existing: Option<Cached>, payload: Cached) returns (updated: bool)
      modifies this`cache
      ensures updated == Overwrites(existing, payload) && cache == if updated then Some(payload) else old(cache)
    {
      if existing.Some? && existing.value.Location? && existing.value.recordedAt.Some? {
        var cachedTime := existing.value.recordedAt.value;
        if payload.Location? && payload.recordedAt.Some? && payload.recordedAt.value <= cachedTime { return false; }
      }
      cache := Some(payload);
      updated := true;
    }

    /** The whole of it, when nothing runs between its read and its write. */
    method SetLatestLocation(payload: Cached) returns (updated: bool)
      modifies this`cache
      ensures cache == SetLatest(old(cache), payload) && updated == Overwrites(old(cache), payload)
    {
      var existing := cache;
      updated := WriteIfNewer(existing, payload);
    }

    method ProcessTelemetry(point: Point) returns (outcome: Outcome)
      modifies this
      ensures (View(), outcome) == Process(setting, old(View()), point)
    {
      if point.delivery.Some? {
        if point.delivery.value !in setting.drivers { return Rejected(DeliveryNotFound); }
        if setting.drivers[point.delivery.value] != Some(setting.driver) { return Rejected(DeliveryNotAssigned); }
      }
      if point.key.Some? && setting.hasUser && point.key.value in records {
        return Ingested(records[point.key.value], true);
      }
      var refusal := PointCheck(setting, point);
      if refusal.Some? { return Rejected(refusal.value); }
      var status := Flag(setting, cache, point);
      stored := stored + [(point, status)];
      if point.key.Some? && setting.hasUser { records := records[point.key.value := status]; }
      var _ := SetLatestLocation(PayloadOf(point));
      outcome := Ingested(status, false);
    }

    /** Points one by one; every point is accepted or rejected, with its index and reason. */
    method ProcessBatch(points: seq<Point>) returns (accepted: seq<Outcome>, rejected: seq<BatchError>)
      modifies this
      ensures |accepted| + |rejected| == |points|
      ensures View() == ProcessAll(setting, old(View()), points).0
      ensures accepted == Successes(ProcessAll(setting, old(View()), points).1)
      ensures rejected == Errors(ProcessAll(setting, old(View()), points).1)
    {
      accepted, rejected := [], [];
      ghost var outcomes := [];
      for i := 0 to |points|
        invariant |outcomes| == i && (View(), outcomes) == ProcessAll(setting, old(View()), points[..i])
        invariant accepted == Successes(outcomes) && rejected == Errors(outcomes)
      {
        BatchStep(setting, old(View()), points, i);
        var outcome := ProcessTelemetry(points[i]);
        OneMoreOutcome(outcomes, outcome);
        outcomes := outcomes + [outcome];
        match outcome
        case Ingested(_, _) => accepted := accepted + [outcome];
        case Rejected(code) => rejected := rejected + [BatchError(i, code)];
      }
      assert points[..|points|] == points;
      NoneUncounted(outcomes);
    }
  }
}
