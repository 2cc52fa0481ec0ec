/** What telemetry points come to, with limits written out: refusals, flags, replays, stored points, the cached location. */
module LocationOutcomes {
  import opened Wrappers
  import opened LocationCache

  // ---- Refusals

  /** A point passes its own checks exactly within the bounds of the earth, fifty metres, five minutes ahead and an hour
      behind. */
  lemma ChecksExact(s: Setting, p: Point)
    ensures PointCheck(s, p) == None <==>
      && -90.0 <= p.latitude <= 90.0 && -180.0 <= p.longitude <= 180.0
      && 0.0 < p.accuracy <= 50.0
      && p.recordedAt.Some? && s.receivedAt - 3_600_000 <= p.recordedAt.value <= s.receivedAt + 300_000
  {
  }

  /** A refusal names the first check that fails: coordinates, accuracy, then the time. */
  predicate Fails(s: Setting, p: Point, code: Code) {
    var inBounds := -90.0 <= p.latitude <= 90.0 && -180.0 <= p.longitude <= 180.0;
    var exact := 0.0 < p.accuracy <= 50.0;
    match code
    case DeliveryNotFound => p.delivery.Some? && p.delivery.value !in s.drivers
    case DeliveryNotAssigned => p.delivery.Some? && p.delivery.value in s.drivers && s.drivers[p.delivery.value] != Some(s.driver)
    case InvalidCoordinates => !inBounds
    case LowAccuracy => inBounds && !exact
    case TimestampInvalid => inBounds && exact && p.recordedAt.None?
    case TimestampFuture => inBounds && exact && p.recordedAt.Some? && p.recordedAt.value > s.receivedAt + 300_000
    case TimestampStale => inBounds && exact && p.recordedAt.Some? && p.recordedAt.value < s.receivedAt - 3_600_000
  }

  predicate OfDelivery(code: Code) {
    code == DeliveryNotFound || code == DeliveryNotAssigned
  }

  // ---- One point

  /** A point is flagged when it is later than the cached one and the way between the two takes more than 41.67 metres a
      second. */
  predicate TooFast(s: Setting, cache: Option<Cached>, p: Point) {
    && cache.Some? && cache.value.Location? && cache.value.recordedAt.Some? && p.recordedAt.Some?
    && p.recordedAt.value > cache.value.recordedAt.value
    && s.distance(cache.value.latitude, cache.value.longitude, p.latitude, p.longitude) * 1000.0
       > 41.67 * (p.recordedAt.value - cache.value.recordedAt.value) as real
  }

  lemma FlagExact(s: Setting, cache: Option<Cached>, p: Point)
    requires p.recordedAt.Some?
    ensures Flag(s, cache, p) == if TooFast(s, cache, p) then AnomalyVelocity else Valid
  {
    if CachedTime(cache).Some? && p.recordedAt.value > CachedTime(cache).value {
      var c := cache.value;
      var ms := (p.recordedAt.value - c.recordedAt.value) as real;
      var d := s.distance(c.latitude, c.longitude, p.latitude, p.longitude);
      QuotientAbove(d, ms);
    }
  }

  lemma QuotientAbove(d: real, ms: real)
    requires ms > 0.0
    ensures d / (ms / 1000.0) > 41.67 <==> d * 1000.0 > 41.67 * ms
  {
    var q := d / (ms / 1000.0);
    assert q * (ms / 1000.0) == d;
    assert q * ms == d * 1000.0;
    if q > 41.67 { assert q * ms > 41.67 * ms; } else { assert q * ms <= 41.67 * ms; }
  }

  /** The cached location gives way to any point, unless both have a date and the point's is not later. */
  predicate GivesWay(cache: Option<Cached>, p: Point) {
    match cache
    case None => true
    case Some(Malformed) => true
    case Some(Location(_, _, at, _)) => at.None? || p.recordedAt.None? || at.value < p.recordedAt.value
  }

  /** The delivery comes first, then a replay with the status recorded under the key, then the point's own checks; a point
      that passes is stored with its flag, recorded under its key if its driver has a user, and cached if it may be. */
  lemma ProcessExact(s: Setting, t: Tables, p: Point)
    ensures var (after, outcome) := Process(s, t, p);
            if exists code :: OfDelivery(code) && Fails(s, p, code) then
              after == t && outcome.Rejected? && OfDelivery(outcome.code) && Fails(s, p, outcome.code)
            else if p.key.Some? && s.hasUser && p.key.value in t.records then
              after == t && outcome == Ingested(t.records[p.key.value], true)
            else if exists code :: Fails(s, p, code) then
              after == t && outcome.Rejected? && Fails(s, p, outcome.code)
            else
              var status := if TooFast(s, t.cache, p) then AnomalyVelocity else Valid;
              && outcome == Ingested(status, false)
              && after.stored == t.stored + [(p, status)]
              && after.records == (if p.key.Some? && s.hasUser then t.records[p.key.value := status] else t.records)
              && after.cache ==
                   if GivesWay(t.cache, p) then Some(Location(p.latitude, p.longitude, p.recordedAt, p.delivery)) else t.cache
  {
    var refusal := DeliveryCheck(s, p.delivery);
    if refusal.Some? {
      assert OfDelivery(refusal.value) && Fails(s, p, refusal.value);
    } else if PointCheck(s, p).Some? {
      assert Fails(s, p, PointCheck(s, p).value);
    } else {
      FlagExact(s, t.cache, p);
    }
  }

  // ---- A batch

  /** The points that were stored, in order, each with its flag. */
  function Kept(points: seq<Point>, outcomes: seq<Outcome>): seq<(Point, Status)>
    requires |points| == |outcomes|
  {
    if points == [] then []
    else
      var n := |points| - 1;
      Kept(points[..n], outcomes[..n])
      + if outcomes[n].Ingested? && !outcomes[n].idempotent then [(points[n], outcomes[n].status)] else []
  }

  /** One outcome a point, and what is stored is what was ingested and not replayed, in order. */
  lemma {:induction false} StoredExact(s: Setting, t: Tables, points: seq<Point>)
    ensures var (after, outcomes) := ProcessAll(s, t, points);
            |outcomes| == |points| && after.stored == t.stored + Kept(points, outcomes)
    decreases points
  {
    if points == [] {
      assert t.stored + [] == t.stored;
    } else {
      var n := |points| - 1;
      StoredExact(s, t, points[..n]);
      var (now, outcomes) := ProcessAll(s, t, points[..n]);
      var (after, outcome) := Process(s, now, points[n]);
      assert (outcomes + [outcome])[..n] == outcomes;
      ProcessExact(s, now, points[n]);
      if outcome.Ingested? && !outcome.idempotent {
        assert t.stored + Kept(points[..n], outcomes) + [(points[n], outcome.status)]
            == t.stored + (Kept(points[..n], outcomes) + [(points[n], outcome.status)]);
      } else {
        assert Kept(points[..n], outcomes) + [] == Kept(points[..n], outcomes);
      }
    }
  }

  /** The accepted points of a batch are its ingested ones, in order. */
  lemma {:induction false} SuccessesExact(a: seq<Outcome>, b: seq<Outcome>, o: Outcome)
    ensures Successes([]) == [] && Successes([o]) == if o.Ingested? then [o] else []
    ensures Successes(a + b) == Successes(a) + Successes(b)
    decreases b
  {
    OneMoreOutcome([], o);
    assert [] + [o] == [o];
    if b == [] {
      assert a + b == a && Successes(a) + [] == Successes(a);
    } else {
      var n := |b| - 1;
      SuccessesExact(a, b[..n], o);
      assert a + b == a + b[..n] + [b[n]] && b == b[..n] + [b[n]];
      OneMoreOutcome(a + b[..n], b[n]);
      OneMoreOutcome(b[..n], b[n]);
    }
  }
}
