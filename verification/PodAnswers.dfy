/** Which POD the submits under one idempotency key are told. */
module PodAnswers {
  import opened Wrappers
  import opened DeliveryRows
  import opened PodOnce

  // ---- The recorded POD, or another

  ghost predicate CreatedUnder(pods: map<StopId, Pod>, id: nat, key: Key) {
    exists p | p in pods :: pods[p] == Pod(id, Some(key))
  }

  /** The answer names a POD that no submit under the answer's key created. */
  ghost predicate NamesAnother(pods: map<StopId, Pod>, a: Answer) {
    a.key.Some? && a.podId.Some? && !CreatedUnder(pods, a.podId.value, a.key.value)
  }

  /** A submit under a key that read its stop as delivered, by a POD that was not created under that key. */
  predicate FetchesAnother(r: Rows, c: Call) {
    c.PodFetch? && c.key.Some? && c.stop in r.pods && r.pods[c.stop].byKey != c.key
  }

  /** A submit is told a POD other than the one recorded under its key exactly when it is such a fetch. */
  lemma ToldAnotherByFetch(r: Rows, c: Call)
    requires RowsOnce(r) && PodCallSound(r, c) && Advance(r, c).answer.Some?
    ensures NamesAnother(Advance(r, c).rows.pods, Advance(r, c).answer.value) <==> FetchesAnother(r, c)
  {
    var a, pods := Advance(r, c).answer.value, Advance(r, c).rows.pods;
    if c.PodCommit? {
      CommitAnswer(r, c);
    } else if !c.PodFetch? && a.key.Some? {
      assert a.key.value in r.records;
      var b := r.records[a.key.value];
      assert b.stop in pods && pods[b.stop] == Pod(b.podId, a.key);
    }
  }

  /** The submit that creates a POD is told it. */
  lemma CommitAnswer(r: Rows, c: Call)
    requires c.PodCommit? && Advance(r, c).answer.Some?
    ensures var a := Advance(r, c).answer.value;
            a.podId == Some(r.nextId) && c.stop in Advance(r, c).rows.pods
            && Advance(r, c).rows.pods[c.stop] == Pod(r.nextId, a.key)
  {
  }

  /** A submit of the stop under the key was told another POD than the key's. */
  ghost predicate ToldAnother(s: State, key: Key, stop: StopId) {
    exists a | a in s.replies :: a.key == Some(key) && a.stop == stop && NamesAnother(s.rows.pods, a)
  }

  predicate TellingStep(s: State, a: Action, key: Key, stop: StopId) {
    && a.Step? && a.id in s.calls && FetchesAnother(s.rows, s.calls[a.id])
    && s.calls[a.id].key == Some(key) && s.calls[a.id].stop == stop
  }

  ghost predicate HasTelling(s: State, run: seq<Action>, key: Key, stop: StopId)
    decreases run
  {
    run != [] && (TellingStep(s, run[0], key, stop) || HasTelling(Next(s, run[0]), run[1..], key, stop))
  }

  /** What an answer names stays its key's POD, or another's. */
  lemma NamesStays(r: Rows, t: Rows, a: Answer)
    requires RowsOnce(r) && RowsOnce(t) && Keeps(r, t) && AnswerSound(r, a)
    ensures NamesAnother(t.pods, a) <==> NamesAnother(r.pods, a)
  {
    if a.key.Some? && a.podId.Some? {
      var p :| p in r.pods && r.pods[p].id == a.podId.value;
      assert t.pods[p] == r.pods[p];
      if CreatedUnder(t.pods, a.podId.value, a.key.value) {
        var q :| q in t.pods && t.pods[q] == Pod(a.podId.value, a.key);
        assert p == q;
      }
    }
  }

  lemma ToldStep(s: State, a: Action, key: Key, stop: StopId)
    requires Once(s)
    ensures ToldAnother(Next(s, a), key, stop) <==> ToldAnother(s, key, stop) || TellingStep(s, a, key, stop)
  {
    OnceStep(s, a);
    var t := Next(s, a);
    forall x | x in s.replies ensures NamesAnother(t.rows.pods, x) <==> NamesAnother(s.rows.pods, x) {
      NamesStays(s.rows, t.rows, x);
    }
    if a.Step? && a.id in s.calls && Advance(s.rows, s.calls[a.id]).answer.Some? {
      var o := Advance(s.rows, s.calls[a.id]);
      ToldAnotherByFetch(s.rows, s.calls[a.id]);
      assert t.replies == s.replies + [o.answer.value];
      assert o.answer.value in t.replies;
    } else {
      assert t.replies == s.replies;
    }
  }

  /** Over any run: some submit of a stop under a key is told another POD if and only if one fetched it. */
  lemma {:induction false} ToldAnotherExactly(s: State, run: seq<Action>, key: Key, stop: StopId)
    requires Once(s)
    ensures ToldAnother(Run(s, run), key, stop) <==> ToldAnother(s, key, stop) || HasTelling(s, run, key, stop)
    decreases run
  {
    if run != [] {
      OnceStep(s, run[0]);
      ToldStep(s, run[0], key, stop);
      ToldAnotherExactly(Next(s, run[0]), run[1..], key, stop);
    }
  }

  // ---- When the answers under one key differ

  /** The answer is to a submit under the key and names a POD. */
  predicate Names(a: Answer, key: Key) {
    a.key == Some(key) && a.podId.Some?
  }

  ghost predicate AnswersDiffer(s: State, key: Key) {
    exists a, b | a in s.replies && b in s.replies :: Names(a, key) && Names(b, key) && a.podId != b.podId
  }

  /** Another POD than the key's is the POD of the stop submitted. */
  lemma AnotherIsTheStops(s: State, a: Answer)
    requires Once(s) && a in s.replies && NamesAnother(s.rows.pods, a)
    ensures a.stop in s.rows.pods && s.rows.pods[a.stop].id == a.podId.value && s.rows.pods[a.stop].byKey != a.key
  {
    assert AnswerSound(s.rows, a);
    if a.key.value in s.rows.records {
      var b := s.rows.records[a.key.value];
      assert b.stop in s.rows.pods && s.rows.pods[b.stop] == Pod(b.podId, a.key);
    }
  }

  /** An answer that names no other POD names the recorded one. */
  lemma OwnIsRecorded(s: State, a: Answer, key: Key)
    requires Once(s) && Names(a, key) && !NamesAnother(s.rows.pods, a)
    ensures key in s.rows.records && s.rows.records[key].PodBody? && s.rows.records[key].podId == a.podId.value
  {
    var p :| p in s.rows.pods && s.rows.pods[p] == Pod(a.podId.value, Some(key));
    assert s.rows.pods[p].byKey.value in s.rows.records;
  }

  lemma DifferingAnswers(s: State, key: Key, a: Answer, b: Answer)
    requires Once(s) && a in s.replies && b in s.replies && Names(a, key) && Names(b, key) && a.podId != b.podId
    ensures || (ToldAnother(s, key, a.stop) && ToldAnother(s, key, b.stop) && a.stop != b.stop)
            || ((ToldAnother(s, key, a.stop) || ToldAnother(s, key, b.stop)) && key in s.rows.records)
  {
    if NamesAnother(s.rows.pods, a) { AnotherIsTheStops(s, a); } else { OwnIsRecorded(s, a, key); }
    if NamesAnother(s.rows.pods, b) { AnotherIsTheStops(s, b); } else { OwnIsRecorded(s, b, key); }
  }

  /** A recorded key and another POD told under it: the submit that wrote the record was told a different one. */
  lemma RecordedDiffers(s: State, key: Key, stop: StopId)
    requires Once(s) && key in s.rows.records && ToldAnother(s, key, stop)
    ensures AnswersDiffer(s, key)
  {
    var a :| a in s.replies && a.key == Some(key) && a.stop == stop && NamesAnother(s.rows.pods, a);
    AnotherIsTheStops(s, a);
    assert RecordAnswered(s.rows.records, s.replies, key);
    var b := Answer(Some(key), s.rows.records[key].stop, Some(s.rows.records[key].podId));
    assert s.rows.pods[b.stop] == Pod(b.podId.value, Some(key));
    assert Names(a, key) && Names(b, key) && a.podId != b.podId;
  }

  lemma TwoStopsDiffer(s: State, key: Key, p: StopId, q: StopId)
    requires Once(s) && p != q && ToldAnother(s, key, p) && ToldAnother(s, key, q)
    ensures AnswersDiffer(s, key)
  {
    var a :| a in s.replies && a.key == Some(key) && a.stop == p && NamesAnother(s.rows.pods, a);
    var b :| b in s.replies && b.key == Some(key) && b.stop == q && NamesAnother(s.rows.pods, b);
    AnotherIsTheStops(s, a);
    AnotherIsTheStops(s, b);
    assert Names(a, key) && Names(b, key) && a.podId != b.podId;
  }

  /** A submit under the key is told another POD and the key ends up recorded, by the submit of a stop of its own; or
      submits of two stops are told others' PODs. */
  ghost predicate KeySplits(s: State, run: seq<Action>, key: Key) {
    || (key in Run(s, run).rows.records && exists p :: HasTelling(s, run, key, p))
    || exists p, q :: p != q && HasTelling(s, run, key, p) && HasTelling(s, run, key, q)
  }

  /** Over any run of a new delivery, two submits under one key are told different PODs if and only if the key splits. */
  lemma AnswersDifferExactly(ids: set<StopId>, run: seq<Action>, key: Key)
    ensures AnswersDiffer(Run(Created(ids), run), key) <==> KeySplits(Created(ids), run, key)
  {
    var s0 := Created(ids);
    var s := Run(s0, run);
    RunOnce(s0, run);
    forall p ensures ToldAnother(s, key, p) <==> HasTelling(s0, run, key, p) {
      ToldAnotherExactly(s0, run, key, p);
    }
    if AnswersDiffer(s, key) {
      var a, b :| a in s.replies && b in s.replies && Names(a, key) && Names(b, key) && a.podId != b.podId;
      DifferingAnswers(s, key, a, b);
      assert HasTelling(s0, run, key, a.stop) || HasTelling(s0, run, key, b.stop);
    }
    if KeySplits(s0, run, key) {
      if p, q :| p != q && HasTelling(s0, run, key, p) && HasTelling(s0, run, key, q) {
        TwoStopsDiffer(s, key, p, q);
      } else {
        var p :| HasTelling(s0, run, key, p);
        RecordedDiffers(s, key, p);
      }
    }
  }

  /** A run without a submit that is told another POD tells all submits under a key one POD, whatever stops they name. */
  lemma RecordedAnswersAgree(ids: set<StopId>, run: seq<Action>, key: Key, a: Answer, b: Answer)
    requires forall p :: !HasTelling(Created(ids), run, key, p)
    requires var s := Run(Created(ids), run); a in s.replies && b in s.replies
    requires a.key == b.key == Some(key) && a.podId.Some? && b.podId.Some?
    ensures a.podId == b.podId
  {
    AnswersDifferExactly(ids, run, key);
    assert Names(a, key) && Names(b, key);
  }

  // ---- Submits that keep a key to one stop

  /** What the clients must see to: every submit the run begins under the key is for the one stop. */
  predicate KeyNamesOneStop(run: seq<Action>, key: Key, stop: StopId) {
    forall a | a in run && a.Begin? && a.request.PodRequest? && a.request.key == Some(key) :: a.request.stop == stop
  }

  predicate CallNames(c: Call, key: Key, stop: StopId) {
    (c.PodLookup? || c.PodFetch? || c.PodCommit? || c.PodReplay?) && c.key == Some(key) ==> c.stop == stop
  }

  ghost predicate AllName(s: State, key: Key, stop: StopId) {
    && (forall a | a in s.replies && a.key == Some(key) :: a.stop == stop)
    && (forall id | id in s.calls :: CallNames(s.calls[id], key, stop))
  }

  lemma CallKeepsNames(r: Rows, c: Call, key: Key, stop: StopId)
    requires CallNames(c, key, stop)
    ensures Advance(r, c).next.Some? ==> CallNames(Advance(r, c).next.value, key, stop)
    ensures Advance(r, c).answer.Some? && Advance(r, c).answer.value.key == Some(key) ==> Advance(r, c).answer.value.stop == stop
  {
  }

  lemma {:induction false} NamesKept(s: State, run: seq<Action>, key: Key, stop: StopId)
    requires AllName(s, key, stop) && KeyNamesOneStop(run, key, stop)
    ensures AllName(Run(s, run), key, stop)
    decreases run
  {
    if run != [] {
      assert run[0] in run;
      if run[0].Step? && run[0].id in s.calls { CallKeepsNames(s.rows, s.calls[run[0].id], key, stop); }
      assert AllName(Next(s, run[0]), key, stop);
      NamesKept(Next(s, run[0]), run[1..], key, stop);
    }
  }

  /** Whatever runs in between, submits of one stop under one key are all told the same POD. */
  lemma RepliesAgree(ids: set<StopId>, run: seq<Action>, key: Key, stop: StopId, a: Answer, b: Answer)
    requires KeyNamesOneStop(run, key, stop)
    requires var s := Run(Created(ids), run); a in s.replies && b in s.replies
    requires a.key == b.key == Some(key) && a.podId.Some? && b.podId.Some?
    ensures a.podId == b.podId
  {
    RunOnce(Created(ids), run);
    NamesKept(Created(ids), run, key, stop);
    var s := Run(Created(ids), run);
    assert AnswerSound(s.rows, a) && AnswerSound(s.rows, b);
    if key in s.rows.records {
      assert RecordAnswered(s.rows.records, s.replies, key);
    }
  }

  // ---- A key for two stops

  lemma {:induction false} RunConcat(s: State, a: seq<Action>, b: seq<Action>)
    ensures Run(s, a + b) == Run(Run(s, a), b)
    decreases a
  {
    if a == [] {
      assert a + b == b;
    } else {
      assert (a + b)[0] == a[0] && (a + b)[1..] == a[1..] + b;
      RunConcat(Next(s, a[0]), a[1..], b);
    }
  }

  lemma ThreeSteps(s: State, a: Action, b: Action, c: Action)
    ensures Run(s, [a, b, c]) == Next(Next(Next(s, a), b), c)
  {
    assert [a, b, c][1..] == [b, c] && [b, c][1..] == [c];
    assert Run(Next(Next(s, a), b), [c]) == Next(Next(Next(s, a), b), c);
    assert Run(Next(s, a), [b, c]) == Run(Next(Next(s, a), b), [c]);
  }

  function Submit(id: nat, key: Option<Key>, stop: StopId): seq<Action> {
    [Begin(id, PodRequest(key, stop)), Step(id), Step(id)]
  }

  /** A submit of a delivered stop under a key not recorded: the stop's POD, and nothing written. */
  lemma ToldExistingPod(s: State, id: nat, key: Key, a: StopId)
    requires Once(s) && id !in s.calls && key !in s.rows.records && a in s.rows.pods
    ensures Run(s, Submit(id, Some(key), a)) == s.(replies := s.replies + [Answer(Some(key), a, Some(s.rows.pods[a].id))])
  {
    var s1 := Next(s, Begin(id, PodRequest(Some(key), a)));
    assert s1.calls[id] == PodLookup(Some(key), a, Delivered, s.rows.status);
    var s2 := Next(s1, Step(id));
    assert s2.calls[id] == PodFetch(Some(key), a);
    assert Next(s2, Step(id)).calls == s.calls;
    ThreeSteps(s, Begin(id, PodRequest(Some(key), a)), Step(id), Step(id));
  }

  /** A submit of an arrived stop of an open delivery: a new POD, and an auto-complete call to follow. */
  lemma ToldNewPod(s: State, id: nat, key: Option<Key>, b: StopId)
    requires Once(s) && id !in s.calls && (key.Some? ==> key.value !in s.rows.records)
    requires b in s.rows.stops && s.rows.stops[b] == Arrived && !TerminalDelivery(s.rows.status)
    ensures Run(s, Submit(id, key, b))
         == State(WritePod(s.rows, key, b), s.calls[id := AutoRead], s.replies + [Answer(key, b, Some(s.rows.nextId))])
  {
    PodIndexNeverFires(s.rows, b);
    var s1 := Next(s, Begin(id, PodRequest(key, b)));
    assert s1.calls[id] == PodLookup(key, b, Arrived, s.rows.status);
    var s2 := Next(s1, Step(id));
    assert s2.calls[id] == PodCommit(key, b);
    assert Next(s2, Step(id)).calls == s.calls[id := AutoRead];
    ThreeSteps(s, Begin(id, PodRequest(key, b)), Step(id), Step(id));
  }

  /** Under a key that names two stops answers need not agree: a submit of a stop already delivered is told that stop's
      POD without recording the key, and the next stop submitted under the key gets a POD of its own. */
  lemma SharedKeyRepliesDiffer(s: State, id: nat, key: Key, a: StopId, b: StopId)
    requires Once(s) && id !in s.calls && key !in s.rows.records
    requires a in s.rows.pods && b in s.rows.stops && s.rows.stops[b] == Arrived && !TerminalDelivery(s.rows.status)
    ensures var podA := s.rows.pods[a].id;
            && Run(Run(s, Submit(id, Some(key), a)), Submit(id, Some(key), b)).replies
            == s.replies + [Answer(Some(key), a, Some(podA)), Answer(Some(key), b, Some(s.rows.nextId))]
            && podA != s.rows.nextId
  {
    ToldExistingPod(s, id, key, a);
    var t := Run(s, Submit(id, Some(key), a));
    RunOnce(s, Submit(id, Some(key), a));
    ToldNewPod(t, id, Some(key), b);
  }

  // ---- Reached from a new delivery

  function BothArrived(a: StopId, b: StopId): State {
    State(Rows(EnRoute, map[a := Arrived, b := Arrived], map[], map[], map[], 0), map[], [])
  }

  function FirstDelivered(a: StopId, b: StopId): State {
    State(Rows(EnRoute, map[a := Delivered, b := Arrived], map[a := Pod(0, None)], map[], map[], 1), map[],
          [Answer(None, a, Some(0))])
  }

  function Arriving(a: StopId, b: StopId): seq<Action> {
    [Assign, Accept, Start] + [Begin(0, StopRequest(Arrive, a)), Step(0), Begin(0, StopRequest(Arrive, b))] + [Step(0)]
  }

  lemma ReachesBothArrived(a: StopId, b: StopId)
    requires a != b
    ensures Run(Created({a, b}), Arriving(a, b)) == BothArrived(a, b)
  {
    var s0 := Created({a, b});
    var s1 := Run(s0, [Assign, Accept, Start]);
    ThreeSteps(s0, Assign, Accept, Start);
    assert s1 == State(Rows(EnRoute, map[a := Waiting, b := Waiting], map[], map[], map[], 0), map[], []);
    var more := [Begin(0, StopRequest(Arrive, a)), Step(0), Begin(0, StopRequest(Arrive, b))];
    ThreeSteps(s1, Begin(0, StopRequest(Arrive, a)), Step(0), Begin(0, StopRequest(Arrive, b)));
    var x := Next(s1, Begin(0, StopRequest(Arrive, a)));
    assert x.calls == map[0 := StopClaim(Arrive, a)];
    var y := Next(x, Step(0));
    assert y.calls == map[];
    var s2 := Next(y, Begin(0, StopRequest(Arrive, b)));
    assert s2.calls == map[0 := StopClaim(Arrive, b)];
    assert Run(s2, [Step(0)]) == Next(s2, Step(0));
    RunConcat(s0, [Assign, Accept, Start], more);
    RunConcat(s0, [Assign, Accept, Start] + more, [Step(0)]);
  }

  lemma SubmitsFirst(a: StopId, b: StopId)
    requires a != b
    ensures Run(BothArrived(a, b), Submit(0, None, a)) == FirstDelivered(a, b).(calls := map[0 := AutoRead])
  {
    var s := BothArrived(a, b);
    ToldNewPod(s, 0, None, a);
    assert WritePod(s.rows, None, a) == FirstDelivered(a, b).rows;
  }

  /** The auto-complete call finds the second stop open and gives up. */
  lemma AutoGivesUp(a: StopId, b: StopId)
    requires a != b
    ensures Run(FirstDelivered(a, b).(calls := map[0 := AutoRead]), [Step(0)]) == FirstDelivered(a, b)
  {
    var t := FirstDelivered(a, b).(calls := map[0 := AutoRead]);
    assert t.rows.stops[b] == Arrived;
    assert Run(t, [Step(0)]) == Next(t, Step(0));
    assert Next(t, Step(0)).calls == map[];
  }

  lemma ReachesFirstDelivered(a: StopId, b: StopId)
    requires a != b
    ensures Run(Created({a, b}), Arriving(a, b) + Submit(0, None, a) + [Step(0)]) == FirstDelivered(a, b)
  {
    var s0 := Created({a, b});
    ReachesBothArrived(a, b);
    RunConcat(s0, Arriving(a, b), Submit(0, None, a));
    SubmitsFirst(a, b);
    RunConcat(s0, Arriving(a, b) + Submit(0, None, a), [Step(0)]);
    AutoGivesUp(a, b);
  }

  /** It happens to a new delivery: two submits under one key are told the PODs 0 and 1. */
  lemma SharedKeyFromNew(a: StopId, b: StopId, key: Key)
    requires a != b
    ensures var run := Arriving(a, b) + Submit(0, None, a) + [Step(0)] + Submit(0, Some(key), a) + Submit(0, Some(key), b);
            Run(Created({a, b}), run).replies
            == [Answer(None, a, Some(0)), Answer(Some(key), a, Some(0)), Answer(Some(key), b, Some(1))]
  {
    var s0, first := Created({a, b}), Arriving(a, b) + Submit(0, None, a) + [Step(0)];
    ReachesFirstDelivered(a, b);
    RunOnce(s0, first);
    SharedKeyRepliesDiffer(FirstDelivered(a, b), 0, key, a, b);
    RunConcat(s0, first, Submit(0, Some(key), a));
    RunConcat(s0, first + Submit(0, Some(key), a), Submit(0, Some(key), b));
  }
}
