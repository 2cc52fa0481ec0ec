/** Proof of delivery is recorded once: per stop, per idempotency key, and in what submitters are told. */
module PodOnce {
  import opened Wrappers
  import opened DeliveryRows

  // ---- The invariant

  ghost predicate DistinctIds(pods: map<StopId, Pod>) {
    forall p, q | p in pods && q in pods && pods[p].id == pods[q].id :: p == q
  }

  predicate IsDelivered(r: Rows, stop: StopId) {
    stop in r.stops && r.stops[stop] == Delivered
  }

  ghost predicate PodsSound(r: Rows) {
    && DistinctIds(r.pods)
    && forall p | p in r.pods :: IsDelivered(r, p) && r.pods[p].id < r.nextId
  }

  /** A committed record is never a placeholder: it names the POD its own submit created, and that submit alone. */
  ghost predicate RecordsMatch(pods: map<StopId, Pod>, records: map<Key, Body>) {
    && (forall k | k in records ::
          var b := records[k]; b.PodBody? && b.stop in pods && pods[b.stop] == Pod(b.podId, Some(k)))
    && (forall p | p in pods && pods[p].byKey.Some? ::
          pods[p].byKey.value in records && records[pods[p].byKey.value] == PodBody(p, pods[p].id))
  }

  ghost predicate RowsOnce(r: Rows) {
    PodsSound(r) && RecordsMatch(r.pods, r.records)
  }

  /** A submit that read its stop as DELIVERED, or waits to replay, still finds what it will answer with. */
  ghost predicate PodCallSound(r: Rows, c: Call) {
    match c
    case PodLookup(_, stop, stopRead, _) => stopRead == Delivered ==> IsDelivered(r, stop)
    case PodFetch(_, stop) => IsDelivered(r, stop)
    case PodReplay(key, _) => key.Some? && key.value in r.records
    case _ => true
  }

  /** The POD id a reply carries is the POD of its stop, or the one recorded under its key. */
  ghost predicate AnswerSound(r: Rows, a: Answer) {
    a.podId.Some? ==>
      || (a.stop in r.pods && r.pods[a.stop].id == a.podId.value)
      || (a.key.Some? && a.key.value in r.records && r.records[a.key.value].PodBody?
          && r.records[a.key.value].podId == a.podId.value)
  }

  /** The submit that wrote a record was answered with what it recorded. */
  ghost predicate RecordAnswered(records: map<Key, Body>, replies: seq<Answer>, key: Key)
    requires key in records
  {
    records[key].PodBody? && Answer(Some(key), records[key].stop, Some(records[key].podId)) in replies
  }

  ghost predicate RepliesSound(r: Rows, replies: seq<Answer>) {
    && (forall a | a in replies :: AnswerSound(r, a))
    && (forall k | k in r.records :: RecordAnswered(r.records, replies, k))
  }

  ghost predicate Once(s: State) {
    && RowsOnce(s.rows)
    && (forall id | id in s.calls :: PodCallSound(s.rows, s.calls[id]))
    && RepliesSound(s.rows, s.replies)
  }

  // ---- One step

  /** PODs and records are written once and never change; DELIVERED stays. */
  ghost predicate Keeps(r: Rows, t: Rows) {
    && (forall p | p in r.pods :: p in t.pods && t.pods[p] == r.pods[p])
    && (forall k | k in r.records :: k in t.records && t.records[k] == r.records[k])
    && (forall id | IsDelivered(r, id) :: IsDelivered(t, id))
  }

  /** Writes that leave PODs and records alone, and every DELIVERED stop. */
  lemma SamePodsOnce(r: Rows, t: Rows)
    requires RowsOnce(r) && t.pods == r.pods && t.records == r.records && t.nextId >= r.nextId
    requires forall id | IsDelivered(r, id) :: IsDelivered(t, id)
    ensures RowsOnce(t) && Keeps(r, t)
  {
  }

  lemma AddRecordMatches(pods: map<StopId, Pod>, records: map<Key, Body>, stop: StopId, id: nat, byKey: Option<Key>)
    requires RecordsMatch(pods, records) && stop !in pods && (byKey.Some? ==> byKey.value !in records)
    ensures RecordsMatch(pods[stop := Pod(id, byKey)],
                         if byKey.Some? then records[byKey.value := PodBody(stop, id)] else records)
  {
  }

  lemma AddPodSound(r: Rows, t: Rows, stop: StopId, pod: Pod)
    requires PodsSound(r) && stop in r.stops && stop !in r.pods && pod.id == r.nextId
    requires t.stops == r.stops[stop := Delivered] && t.pods == r.pods[stop := pod] && t.nextId == r.nextId + 1
    ensures PodsSound(t)
  {
    forall p, q | p in t.pods && q in t.pods && t.pods[p].id == t.pods[q].id ensures p == q {
      if p != stop && q != stop { assert r.pods[p].id == r.pods[q].id; }
    }
  }

  /** A new POD row, under a new id, for a stop that has none. */
  lemma AddPodOnce(r: Rows, t: Rows, stop: StopId, byKey: Option<Key>)
    requires RowsOnce(r) && stop in r.stops && stop !in r.pods
    requires byKey.Some? ==> byKey.value !in r.records
    requires t.stops == r.stops[stop := Delivered] && t.pods == r.pods[stop := Pod(r.nextId, byKey)]
    requires t.records == if byKey.Some? then r.records[byKey.value := PodBody(stop, r.nextId)] else r.records
    requires t.nextId == r.nextId + 1
    ensures RowsOnce(t) && Keeps(r, t)
  {
    AddRecordMatches(r.pods, r.records, stop, r.nextId, byKey);
    AddPodSound(r, t, stop, Pod(r.nextId, byKey));
  }

  /** The unique index on a stop's POD never rejects a submit: a stop that can be claimed has none. */
  lemma PodIndexNeverFires(r: Rows, stop: StopId)
    requires PodsSound(r) && stop in r.stops && r.stops[stop] in {Unloading, Arrived}
    ensures stop !in r.pods
  {
  }

  /** The stop was claimable and had no POD; it gets one under a fresh id and, with a key not used before, its record. */
  ghost predicate AddsPod(r: Rows, t: Rows, key: Option<Key>, stop: StopId) {
    && stop in r.stops && r.stops[stop] in {Unloading, Arrived} && !TerminalDelivery(r.status)
    && stop !in r.pods && (forall p | p in r.pods :: r.pods[p].id != r.nextId)
    && (key.Some? ==> key.value !in r.records)
    && t.stops == r.stops[stop := Delivered] && t.pods == r.pods[stop := Pod(r.nextId, key)]
    && t.records == (if key.Some? then r.records[key.value := PodBody(stop, r.nextId)] else r.records)
    && t.nextId == r.nextId + 1 && t.status == r.status && t.tickets == r.tickets
  }

  /** The transaction adds one POD under a fresh id with its record, or nothing, and it adds one exactly when its stop
      can be claimed under an unused key. */
  lemma CommitPodOnce(r: Rows, key: Option<Key>, stop: StopId)
    requires RowsOnce(r)
    ensures var t := CommitPod(r, key, stop).rows;
      && RowsOnce(t) && Keeps(r, t)
      && (t == r || AddsPod(r, t, key, stop))
      && (t != r <==> stop in r.stops && r.stops[stop] in {Unloading, Arrived} && !TerminalDelivery(r.status)
                      && (key.Some? ==> key.value !in r.records))
  {
    var t := CommitPod(r, key, stop).rows;
    if stop in r.stops && r.stops[stop] in {Unloading, Arrived} { PodIndexNeverFires(r, stop); }
    if t != r { AddPodOnce(r, t, stop, key); }
  }

  lemma ResolveOnce(r: Rows, k: nat, verdict: ConflictStatus)
    requires RowsOnce(r)
    ensures RowsOnce(CommitResolve(r, k, verdict)) && Keeps(r, CommitResolve(r, k, verdict))
  {
    var t := CommitResolve(r, k, verdict);
    if t.pods == r.pods { SamePodsOnce(r, t); } else { AddPodOnce(r, t, r.tickets[k].stop, None); }
  }

  /** Every other call leaves PODs and records alone; stop operations never start from DELIVERED. */
  lemma OtherCallsKeep(r: Rows, c: Call)
    requires !c.PodCommit? && !c.TicketResolve?
    ensures var t := Advance(r, c).rows;
      && t.pods == r.pods && t.records == r.records && t.nextId >= r.nextId
      && forall id | IsDelivered(r, id) :: IsDelivered(t, id)
  {
  }

  lemma CallOnce(r: Rows, c: Call)
    requires RowsOnce(r)
    ensures RowsOnce(Advance(r, c).rows) && Keeps(r, Advance(r, c).rows)
  {
    match c
    case PodCommit(key, stop) => CommitPodOnce(r, key, stop);
    case TicketResolve(k, verdict) => ResolveOnce(r, k, verdict);
    case _ => OtherCallsKeep(r, c); SamePodsOnce(r, Advance(r, c).rows);
  }

  lemma CallAnswers(r: Rows, c: Call)
    requires RowsOnce(r) && PodCallSound(r, c)
    ensures Advance(r, c).next.Some? ==> PodCallSound(Advance(r, c).rows, Advance(r, c).next.value)
    ensures Advance(r, c).answer.Some? ==> AnswerSound(Advance(r, c).rows, Advance(r, c).answer.value)
  {
    if c.PodCommit? && c.stop in r.stops && r.stops[c.stop] in {Unloading, Arrived} {
      PodIndexNeverFires(r, c.stop);
    }
  }

  /** Replies stay true while PODs and records only grow. */
  lemma RepliesKept(r: Rows, t: Rows, replies: seq<Answer>)
    requires Keeps(r, t) && RepliesSound(r, replies)
    ensures forall a | a in replies :: AnswerSound(t, a)
    ensures forall k | k in r.records :: RecordAnswered(t.records, replies, k)
  {
    forall k | k in r.records ensures RecordAnswered(t.records, replies, k) {
      assert RecordAnswered(r.records, replies, k);
    }
  }

  /** A record is answered by the very step that writes it. */
  lemma NewRecordAnswered(r: Rows, c: Call, key: Key)
    requires key in Advance(r, c).rows.records && key !in r.records
    ensures Advance(r, c).answer.Some?
    ensures RecordAnswered(Advance(r, c).rows.records, [Advance(r, c).answer.value], key)
  {
  }

  lemma RepliesStep(r: Rows, c: Call, replies: seq<Answer>)
    requires RowsOnce(r) && PodCallSound(r, c) && RepliesSound(r, replies)
    ensures var o := Advance(r, c);
            RepliesSound(o.rows, if o.answer.Some? then replies + [o.answer.value] else replies)
  {
    CallOnce(r, c);
    CallAnswers(r, c);
    var o := Advance(r, c);
    RepliesKept(r, o.rows, replies);
    forall k | k in o.rows.records && k !in r.records
      ensures o.answer.Some? && RecordAnswered(o.rows.records, [o.answer.value], k)
    {
      NewRecordAnswered(r, c, k);
    }
  }

  /** What other submits wait for stays while PODs and records only grow. */
  lemma CallsKept(r: Rows, t: Rows, c: Call)
    requires Keeps(r, t) && PodCallSound(r, c)
    ensures PodCallSound(t, c)
  {
  }

  lemma CallOnceStep(s: State, id: nat)
    requires Once(s) && id in s.calls
    ensures Once(Next(s, Step(id))) && Keeps(s.rows, Next(s, Step(id)).rows)
  {
    var o := Advance(s.rows, s.calls[id]);
    CallOnce(s.rows, s.calls[id]);
    CallAnswers(s.rows, s.calls[id]);
    RepliesStep(s.rows, s.calls[id], s.replies);
    forall k | k in s.calls ensures PodCallSound(o.rows, s.calls[k]) { CallsKept(s.rows, o.rows, s.calls[k]); }
  }

  lemma WritesStatusOnly(r: Rows, a: Action)
    ensures Write(r, a) == r.(status := Write(r, a).status)
  {
  }

  lemma WriteOnce(s: State, a: Action)
    requires Once(s) && !a.Begin? && !a.Step?
    ensures Once(Next(s, a)) && Keeps(s.rows, Next(s, a).rows)
  {
    var t := Write(s.rows, a);
    WritesStatusOnly(s.rows, a);
    assert Next(s, a) == s.(rows := t);
    SamePodsOnce(s.rows, t);
    forall k | k in s.calls ensures PodCallSound(t, s.calls[k]) { CallsKept(s.rows, t, s.calls[k]); }
    RepliesKept(s.rows, t, s.replies);
  }

  lemma OnceStep(s: State, a: Action)
    requires Once(s)
    ensures Once(Next(s, a)) && Keeps(s.rows, Next(s, a).rows)
  {
    match a
    case Begin(id, q) =>
    case Step(id) => if id in s.calls { CallOnceStep(s, id); }
    case _ => WriteOnce(s, a);
  }

  // ---- Whole runs

  /** In every run PODs and records are only ever added, and everything said about them stays true. */
  lemma {:induction false} RunOnce(s: State, run: seq<Action>)
    requires Once(s)
    ensures Once(Run(s, run)) && Keeps(s.rows, Run(s, run).rows)
    decreases run
  {
    if run != [] {
      OnceStep(s, run[0]);
      RunOnce(Next(s, run[0]), run[1..]);
    }
  }

  /** One idempotency key creates at most one POD, in any run. */
  lemma OnePodPerKey(ids: set<StopId>, run: seq<Action>, p: StopId, q: StopId)
    requires var r := Run(Created(ids), run).rows;
             p in r.pods && q in r.pods && r.pods[p].byKey.Some? && r.pods[p].byKey == r.pods[q].byKey
    ensures p == q
  {
    RunOnce(Created(ids), run);
  }

  /** A replay tells a submit what the submit that wrote the record was told: the POD that one created. */
  lemma ReplayTellsCreatorsAnswer(s: State, key: Key, stop: StopId)
    requires Once(s) && key in s.rows.records
    ensures var told := Replay(s.rows, key, stop).answer;
            && told.Some? && told.value.podId.Some?
            && exists p | p in s.rows.pods :: s.rows.pods[p] == Pod(told.value.podId.value, Some(key))
                                              && Answer(Some(key), p, told.value.podId) in s.replies
  {
    assert RecordAnswered(s.rows.records, s.replies, key);
    var p := s.rows.records[key].stop;
    assert p in s.rows.pods;
  }
}
