/** Exactly when the sequence numbers of a call keep their order, as accepted and as sent on. */
module SignalOrder {
  import opened Wrappers
  import opened CallSignalling

  // ---- Accepted numbers

  /** A sender's key, alive or not, holds the last number accepted from it. */
  ghost predicate KeyIsLast(keys: Keys, accepted: seq<Signal>, sender: string) {
    var numbers := From(sender, accepted);
    && Increasing(numbers)
    && (numbers == [] <==> sender !in keys)
    && (numbers != [] ==> keys[sender].value == numbers[|numbers| - 1])
  }

  ghost predicate Ordered(s: Store) {
    forall sender :: KeyIsLast(s.sequences, s.accepted, sender)
  }

  ghost predicate AcceptedInOrder(s: Store) {
    forall sender :: Increasing(From(sender, s.accepted))
  }

  /** A check that finds its sender's key expired, with a number that is not above the one it held. */
  predicate StaleCheck(s: Store, c: Call, now: int) {
    && c.SeqCheck? && c.signal.sender in s.sequences && !Alive(s.sequences, c.signal.sender, now)
    && c.signal.seqNo <= s.sequences[c.signal.sender].value
  }

  lemma AppendIncreasing(numbers: seq<int>, n: int)
    requires Increasing(numbers)
    ensures Increasing(numbers + [n]) <==> numbers == [] || n > numbers[|numbers| - 1]
  {
    if numbers != [] && Increasing(numbers + [n]) {
      assert (numbers + [n])[|numbers| - 1] < (numbers + [n])[|numbers|];
    }
  }

  lemma CheckExactly(s: Store, g: Signal, now: int, sender: string)
    requires KeyIsLast(s.sequences, s.accepted, sender)
    ensures var t := CheckSequence(s, g, now).0;
            && (Increasing(From(sender, t.accepted)) <==> !(g.sender == sender && StaleCheck(s, SeqCheck(g), now)))
            && (Increasing(From(sender, t.accepted)) ==> KeyIsLast(t.sequences, t.accepted, sender))
  {
    FromGrows(sender, s.accepted, g);
    AppendIncreasing(From(sender, s.accepted), g.seqNo);
  }

  /** One call's step breaks the order of accepted numbers exactly when it is a stale check. */
  lemma CallKeepsOrder(s: Store, c: Call, underLimit: bool, now: int)
    requires Ordered(s)
    ensures var t := Advance(s, c, underLimit, now).0;
            (AcceptedInOrder(t) <==> !StaleCheck(s, c, now)) && (AcceptedInOrder(t) ==> Ordered(t))
  {
    var t := Advance(s, c, underLimit, now).0;
    if c.SeqCheck? {
      forall sender
        ensures Increasing(From(sender, t.accepted)) <==> !(c.signal.sender == sender && StaleCheck(s, c, now))
        ensures Increasing(From(sender, t.accepted)) ==> KeyIsLast(t.sequences, t.accepted, sender)
      {
        assert KeyIsLast(s.sequences, s.accepted, sender);
        CheckExactly(s, c.signal, now, sender);
      }
      if AcceptedInOrder(t) { assert Increasing(From(c.signal.sender, t.accepted)); }
    } else {
      assert t.sequences == s.sequences && t.accepted == s.accepted;
      forall sender ensures Increasing(From(sender, t.accepted)) && KeyIsLast(t.sequences, t.accepted, sender) {
        assert KeyIsLast(s.sequences, s.accepted, sender);
      }
    }
  }

  predicate StaleStep(s: State, a: Action, now: int) {
    now >= s.clock && a.Step? && a.id in s.calls && StaleCheck(s.store, s.calls[a.id], now)
  }

  lemma OrderStep(s: State, a: Action, now: int)
    requires Ordered(s.store)
    ensures AcceptedInOrder(Next(s, a, now).store) <==> !StaleStep(s, a, now)
    ensures !StaleStep(s, a, now) ==> Ordered(Next(s, a, now).store)
  {
    if now >= s.clock && a.Step? && a.id in s.calls {
      CallKeepsOrder(s.store, s.calls[a.id], a.underLimit, now);
    } else {
      assert Next(s, a, now).store == s.store;
      forall sender ensures Increasing(From(sender, s.store.accepted)) {
        assert KeyIsLast(s.store.sequences, s.store.accepted, sender);
      }
    }
  }

  ghost predicate EverDisordered(s: State, run: seq<Timed>)
    decreases run
  {
    !AcceptedInOrder(s.store) || (run != [] && EverDisordered(Next(s, run[0].action, run[0].at), run[1..]))
  }

  predicate HasStaleCheck(s: State, run: seq<Timed>)
    decreases run
  {
    run != [] && (StaleStep(s, run[0].action, run[0].at) || HasStaleCheck(Next(s, run[0].action, run[0].at), run[1..]))
  }

  /** Over any run the numbers accepted from some sender ever fail to increase if and only if the run has a stale check. */
  lemma {:induction false} OrderExactly(s: State, run: seq<Timed>)
    requires Ordered(s.store)
    ensures EverDisordered(s, run) <==> HasStaleCheck(s, run)
    ensures !HasStaleCheck(s, run) ==> Ordered(Run(s, run).store)
    decreases run
  {
    forall sender ensures Increasing(From(sender, s.store.accepted)) {
      assert KeyIsLast(s.store.sequences, s.store.accepted, sender);
    }
    if run != [] {
      var t := Next(s, run[0].action, run[0].at);
      OrderStep(s, run[0].action, run[0].at);
      if StaleStep(s, run[0].action, run[0].at) {
        assert EverDisordered(t, run[1..]);
      } else {
        OrderExactly(t, run[1..]);
      }
    }
  }

  /** A key outlives its session, so a stale check is one that runs after the session's time is up. */
  lemma StaleIsLate(s: State, a: Action, now: int)
    requires Sound(s) && StaleStep(s, a, now)
    ensures Late(s, a, now)
  {
    assert KeyRight(s.store.session, s.store.sequences, s.store.accepted, s.calls[a.id].signal.sender);
  }

  lemma {:induction false} InTimeIsNotStale(s: State, run: seq<Timed>)
    requires Sound(s) && NoneLate(s, run)
    ensures !HasStaleCheck(s, run)
    decreases run
  {
    if run != [] {
      if StaleStep(s, run[0].action, run[0].at) { StaleIsLate(s, run[0].action, run[0].at); }
      SoundStep(s, run[0].action, run[0].at);
      InTimeIsNotStale(Next(s, run[0].action, run[0].at), run[1..]);
    }
  }

  // ---- What is sent on

  /** A number the script lets through, other than by a stale check, was never accepted from that sender before. */
  lemma AcceptedIsNew(s: Store, g: Signal, now: int)
    requires Ordered(s) && !StaleCheck(s, SeqCheck(g), now)
    requires SetSequence(s.sequences, g.sender, g.seqNo, SEQUENCE_TTL_MS, now).1
    ensures g.seqNo !in From(g.sender, s.accepted) && g !in s.accepted
    ensures forall n | n in From(g.sender, s.accepted) :: n < g.seqNo
  {
    assert KeyIsLast(s.sequences, s.accepted, g.sender);
    var numbers := From(g.sender, s.accepted);
    forall n | n in numbers ensures n < g.seqNo {
      var i :| 0 <= i < |numbers| && numbers[i] == n;
      assert i == |numbers| - 1 || numbers[i] < numbers[|numbers| - 1];
    }
    if g in s.accepted {
      var k :| 0 <= k < |s.accepted| && s.accepted[k] == g;
      FromHas(s.accepted, k);
    }
  }

  /** Nothing is sent on twice, and nothing that was not accepted. */
  ghost predicate SentOnce(s: Store) {
    && (forall g | g in s.relayed :: g in s.accepted)
    && (forall i, j | 0 <= i < j < |s.relayed| :: s.relayed[i] != s.relayed[j])
  }

  /** A waiting candidate is accepted, not yet sent on, and waits once. */
  ghost predicate RelaysOnce(s: State) {
    && SentOnce(s.store)
    && (forall id | id in s.calls && s.calls[id].IceRelay? ::
          s.calls[id].signal in s.store.accepted && s.calls[id].signal !in s.store.relayed)
    && (forall a, b | a in s.calls && b in s.calls && s.calls[a].IceRelay? && s.calls[a] == s.calls[b] :: a == b)
  }

  lemma SentOnceGrows(s: Store, t: Store, g: Signal)
    requires SentOnce(s) && g !in s.relayed && g in t.accepted && t.relayed == s.relayed + [g]
    requires forall x | x in s.accepted :: x in t.accepted
    ensures SentOnce(t)
  {
  }

  lemma CallSendsOnce(s: Store, c: Call, underLimit: bool, now: int)
    requires Ordered(s) && SentOnce(s) && !StaleCheck(s, c, now)
    requires c.IceRelay? ==> c.signal in s.accepted && c.signal !in s.relayed
    ensures var (t, next) := Advance(s, c, underLimit, now);
      && SentOnce(t)
      && (forall x | x in s.accepted :: x in t.accepted)
      && (forall x | x in t.relayed && x !in s.relayed :: x !in s.accepted || c == IceRelay(x))
      && (next.Some? && next.value.IceRelay? ==>
            next.value.signal in t.accepted && next.value.signal !in s.accepted && next.value.signal !in t.relayed)
  {
    var (t, next) := Advance(s, c, underLimit, now);
    if c.SeqCheck? && t != s { AcceptedIsNew(s, c.signal, now); }
    if t.relayed != s.relayed { SentOnceGrows(s, t, c.signal); }
  }

  lemma RelaysStep(s: State, a: Action, now: int)
    requires Ordered(s.store) && RelaysOnce(s) && !StaleStep(s, a, now)
    ensures RelaysOnce(Next(s, a, now))
  {
    if now >= s.clock && a.Step? && a.id in s.calls {
      CallSendsOnce(s.store, s.calls[a.id], a.underLimit, now);
    }
  }

  /** While the accepted numbers are in order, each accepted signal is sent on at most once. */
  lemma {:induction false} RelayedAtMostOnce(s: State, run: seq<Timed>)
    requires Ordered(s.store) && RelaysOnce(s) && !HasStaleCheck(s, run)
    ensures RelaysOnce(Run(s, run))
    decreases run
  {
    if run != [] {
      OrderStep(s, run[0].action, run[0].at);
      RelaysStep(s, run[0].action, run[0].at);
      RelayedAtMostOnce(Next(s, run[0].action, run[0].at), run[1..]);
    }
  }

  /** The signal a step sends on. */
  function SentBy(s: Store, c: Call, underLimit: bool, now: int): Option<Signal> {
    match c
    case SeqCheck(g) =>
      if SetSequence(s.sequences, g.sender, g.seqNo, SEQUENCE_TTL_MS, now).1 && !g.ice then Some(g) else None
    case IceRelay(g) => if underLimit then Some(g) else None
    case _ => None
  }

  predicate Reaches(numbers: seq<int>, n: int) {
    exists m | m in numbers :: m >= n
  }

  /** What a step sends on is not above something already sent on for its sender. */
  predicate Overtaken(s: Store, c: Call, underLimit: bool, now: int) {
    && SentBy(s, c, underLimit, now).Some?
    && var g := SentBy(s, c, underLimit, now).value;
       Reaches(From(g.sender, s.relayed), g.seqNo)
  }

  ghost predicate RelayedInOrder(s: Store) {
    forall sender :: Increasing(From(sender, s.relayed))
  }

  lemma ReachedExactly(numbers: seq<int>, n: int)
    requires Increasing(numbers)
    ensures Increasing(numbers + [n]) <==> !Reaches(numbers, n)
  {
    AppendIncreasing(numbers, n);
    if Reaches(numbers, n) {
      var i :| 0 <= i < |numbers| && numbers[i] >= n;
      assert i == |numbers| - 1 || numbers[i] < numbers[|numbers| - 1];
    } else if numbers != [] {
      assert numbers[|numbers| - 1] in numbers;
    }
  }

  lemma SentGrows(s: Store, g: Signal, sender: string)
    requires Increasing(From(sender, s.relayed))
    ensures Increasing(From(sender, s.relayed + [g])) <==> !(g.sender == sender && Reaches(From(sender, s.relayed), g.seqNo))
  {
    FromGrows(sender, s.relayed, g);
    ReachedExactly(From(sender, s.relayed), g.seqNo);
    if g.sender != sender { assert From(sender, s.relayed) + [] == From(sender, s.relayed); }
  }

  /** One call's step breaks the order of what is sent on exactly when it sends on something overtaken. */
  lemma CallKeepsRelayOrder(s: Store, c: Call, underLimit: bool, now: int)
    requires RelayedInOrder(s)
    ensures RelayedInOrder(Advance(s, c, underLimit, now).0) <==> !Overtaken(s, c, underLimit, now)
  {
    var t, sent := Advance(s, c, underLimit, now).0, SentBy(s, c, underLimit, now);
    assert t.relayed == if sent.Some? then s.relayed + [sent.value] else s.relayed;
    if Overtaken(s, c, underLimit, now) {
      assert Increasing(From(sent.value.sender, s.relayed));
      SentGrows(s, sent.value, sent.value.sender);
      assert !Increasing(From(sent.value.sender, t.relayed));
    } else {
      forall sender ensures Increasing(From(sender, t.relayed)) {
        assert Increasing(From(sender, s.relayed));
        if sent.Some? { SentGrows(s, sent.value, sender); }
      }
    }
  }

  /** While the accepted numbers are in order, only a candidate that waited is ever overtaken. */
  lemma OnlyCandidatesOvertaken(s: State, a: Action, now: int)
    requires Ordered(s.store) && SentOnce(s.store) && !StaleStep(s, a, now) && now >= s.clock
    requires a.Step? && a.id in s.calls && Overtaken(s.store, s.calls[a.id], a.underLimit, now)
    ensures s.calls[a.id].IceRelay?
  {
    var c := s.calls[a.id];
    if c.SeqCheck? {
      AcceptedIsNew(s.store, c.signal, now);
      var n :| n in From(c.signal.sender, s.store.relayed) && n >= c.signal.seqNo;
      SentWasAccepted(s.store.relayed, s.store.accepted, c.signal.sender, n);
    }
  }

  lemma {:induction false} FromMember(sender: string, signals: seq<Signal>, n: int) returns (k: nat)
    requires n in From(sender, signals)
    ensures k < |signals| && signals[k].sender == sender && signals[k].seqNo == n
  {
    k := |signals| - 1;
    if !(signals[k].sender == sender && signals[k].seqNo == n) { k := FromMember(sender, signals[..k], n); }
  }

  lemma SentWasAccepted(relayed: seq<Signal>, accepted: seq<Signal>, sender: string, n: int)
    requires (forall g | g in relayed :: g in accepted) && n in From(sender, relayed)
    ensures n in From(sender, accepted)
  {
    var k := FromMember(sender, relayed, n);
    assert relayed[k] in accepted;
    var i :| 0 <= i < |accepted| && accepted[i] == relayed[k];
    FromHas(accepted, i);
  }

  predicate OvertakenStep(s: State, a: Action, now: int) {
    now >= s.clock && a.Step? && a.id in s.calls && Overtaken(s.store, s.calls[a.id], a.underLimit, now)
  }

  ghost predicate EverSentOutOfOrder(s: State, run: seq<Timed>)
    decreases run
  {
    !RelayedInOrder(s.store) || (run != [] && EverSentOutOfOrder(Next(s, run[0].action, run[0].at), run[1..]))
  }

  predicate HasOvertaken(s: State, run: seq<Timed>)
    decreases run
  {
    run != [] && (OvertakenStep(s, run[0].action, run[0].at) || HasOvertaken(Next(s, run[0].action, run[0].at), run[1..]))
  }

  /** Over any run the numbers sent on for some sender ever fail to increase if and only if something overtaken is sent on. */
  lemma {:induction false} RelayOrderExactly(s: State, run: seq<Timed>)
    requires RelayedInOrder(s.store)
    ensures EverSentOutOfOrder(s, run) <==> HasOvertaken(s, run)
    decreases run
  {
    if run != [] {
      var t := Next(s, run[0].action, run[0].at);
      if run[0].at >= s.clock && run[0].action.Step? && run[0].action.id in s.calls {
        CallKeepsRelayOrder(s.store, s.calls[run[0].action.id], run[0].action.underLimit, run[0].at);
      } else {
        assert t.store == s.store;
      }
      if OvertakenStep(s, run[0].action, run[0].at) {
        assert EverSentOutOfOrder(t, run[1..]);
      } else {
        RelayOrderExactly(t, run[1..]);
      }
    }
  }

  // ---- What overtakes

  /** Of one sender's signals with increasing numbers the later has the higher. */
  lemma {:induction false} LaterIsHigher(signals: seq<Signal>, i: nat, j: nat)
    requires i < j < |signals| && signals[i].sender == signals[j].sender
    requires Increasing(From(signals[i].sender, signals))
    ensures signals[i].seqNo < signals[j].seqNo
  {
    var sender, rest, last := signals[i].sender, signals[..|signals| - 1], signals[|signals| - 1];
    var before := From(sender, rest);
    if last.sender == sender {
      assert From(sender, signals) == before + [last.seqNo];
      ExtendIncreasing(before, [], last.seqNo);
    } else {
      assert From(sender, signals) == before + [] == before;
    }
    if j < |signals| - 1 {
      LaterIsHigher(rest, i, j);
    } else {
      FromHas(rest, i);
      var k :| 0 <= k < |before| && before[k] == signals[i].seqNo;
      assert From(sender, signals)[k] < From(sender, signals)[|before|];
    }
  }

  /** A signal of its sender accepted after it has been sent on. */
  ghost predicate Passed(s: Store, g: Signal) {
    exists i, j | 0 <= i < j < |s.accepted| ::
      s.accepted[i] == g && s.accepted[j].sender == g.sender && s.accepted[j] in s.relayed
  }

  lemma OvertakenWasPassed(s: Store, g: Signal, n: int)
    requires Ordered(s) && SentOnce(s) && g in s.accepted && g !in s.relayed
    requires n in From(g.sender, s.relayed) && n >= g.seqNo
    ensures Passed(s, g)
  {
    assert KeyIsLast(s.sequences, s.accepted, g.sender);
    var k := FromMember(g.sender, s.relayed, n);
    assert s.relayed[k] in s.accepted;
    var j :| 0 <= j < |s.accepted| && s.accepted[j] == s.relayed[k];
    var i :| 0 <= i < |s.accepted| && s.accepted[i] == g;
    if j < i { LaterIsHigher(s.accepted, j, i); }
  }

  /** A waiting candidate is overtaken exactly when a later signal of its sender went out before it. */
  lemma OvertakenIsPassed(s: Store, g: Signal, now: int)
    requires Ordered(s) && SentOnce(s) && g in s.accepted && g !in s.relayed
    ensures Overtaken(s, IceRelay(g), true, now) <==> Passed(s, g)
  {
    if Overtaken(s, IceRelay(g), true, now) {
      var n :| n in From(g.sender, s.relayed) && n >= g.seqNo;
      OvertakenWasPassed(s, g, n);
    }
    if Passed(s, g) {
      assert KeyIsLast(s.sequences, s.accepted, g.sender);
      var i, j :| 0 <= i < j < |s.accepted| && s.accepted[i] == g && s.accepted[j].sender == g.sender && s.accepted[j] in s.relayed;
      LaterIsHigher(s.accepted, i, j);
      var k :| 0 <= k < |s.relayed| && s.relayed[k] == s.accepted[j];
      FromHas(s.relayed, k);
    }
  }

  /** A candidate that waited is sent on after a signal of its sender that was accepted later. */
  ghost predicate PassedStep(s: State, a: Action, now: int) {
    && now >= s.clock && a.Step? && a.id in s.calls && s.calls[a.id].IceRelay? && a.underLimit
    && Passed(s.store, s.calls[a.id].signal)
  }

  lemma OvertakenStepIsPassed(s: State, a: Action, now: int)
    requires Ordered(s.store) && RelaysOnce(s) && !StaleStep(s, a, now)
    ensures OvertakenStep(s, a, now) <==> PassedStep(s, a, now)
  {
    if OvertakenStep(s, a, now) { OnlyCandidatesOvertaken(s, a, now); }
    if now >= s.clock && a.Step? && a.id in s.calls && s.calls[a.id].IceRelay? {
      OvertakenIsPassed(s.store, s.calls[a.id].signal, now);
    }
  }

  ghost predicate HasPassed(s: State, run: seq<Timed>)
    decreases run
  {
    run != [] && (PassedStep(s, run[0].action, run[0].at) || HasPassed(Next(s, run[0].action, run[0].at), run[1..]))
  }

  lemma {:induction false} OvertakenRunIsPassed(s: State, run: seq<Timed>)
    requires Ordered(s.store) && RelaysOnce(s) && !HasStaleCheck(s, run)
    ensures HasOvertaken(s, run) <==> HasPassed(s, run)
    decreases run
  {
    if run != [] {
      OvertakenStepIsPassed(s, run[0].action, run[0].at);
      OrderStep(s, run[0].action, run[0].at);
      RelaysStep(s, run[0].action, run[0].at);
      OvertakenRunIsPassed(Next(s, run[0].action, run[0].at), run[1..]);
    }
  }

  /** Over any run without a stale check, the numbers sent on for some sender ever fail to increase if and only if a
      candidate that waited goes out after a signal its sender had accepted later. */
  lemma DisorderIsPassed(s: State, run: seq<Timed>)
    requires Ordered(s.store) && RelaysOnce(s) && RelayedInOrder(s.store) && !HasStaleCheck(s, run)
    ensures EverSentOutOfOrder(s, run) <==> HasPassed(s, run)
  {
    RelayOrderExactly(s, run);
    OvertakenRunIsPassed(s, run);
  }

  /** Offers and answers, in order. */
  function Direct(signals: seq<Signal>): seq<Signal> {
    if signals == [] then []
    else
      var last := signals[|signals| - 1];
      Direct(signals[..|signals| - 1]) + if last.ice then [] else [last]
  }

  lemma DirectGrows(signals: seq<Signal>, g: Signal)
    ensures Direct(signals + [g]) == Direct(signals) + if g.ice then [] else [g]
  {
    assert (signals + [g])[..|signals|] == signals;
  }

  ghost predicate DirectInOrder(s: State) {
    && Direct(s.store.relayed) == Direct(s.store.accepted)
    && forall id | id in s.calls && s.calls[id].IceRelay? :: s.calls[id].signal.ice
  }

  lemma SequenceKeepsDirect(s: Store, g: Signal, now: int)
    requires Direct(s.relayed) == Direct(s.accepted)
    ensures var (t, next) := CheckSequence(s, g, now);
            Direct(t.relayed) == Direct(t.accepted) && (next.Some? ==> next.value == IceRelay(g) && g.ice)
  {
    DirectGrows(s.accepted, g);
    DirectGrows(s.relayed, g);
  }

  lemma CallKeepsDirect(s: Store, c: Call, underLimit: bool, now: int)
    requires Direct(s.relayed) == Direct(s.accepted) && (c.IceRelay? ==> c.signal.ice)
    ensures var (t, next) := Advance(s, c, underLimit, now);
            Direct(t.relayed) == Direct(t.accepted) && (next.Some? && next.value.IceRelay? ==> next.value.signal.ice)
  {
    match c
    case SeqCheck(g) => SequenceKeepsDirect(s, g, now);
    case IceRelay(g) => DirectGrows(s.relayed, g);
    case NonceCheck(g) => assert CheckNonce(s, g, now).0.relayed == s.relayed && CheckNonce(s, g, now).0.accepted == s.accepted;
    case _ =>
  }

  lemma DirectStep(s: State, a: Action, now: int)
    requires DirectInOrder(s)
    ensures DirectInOrder(Next(s, a, now))
  {
    if a.Step? && a.id in s.calls { CallKeepsDirect(s.store, s.calls[a.id], a.underLimit, now); }
  }

  /** Dropping the candidates leaves the other numbers increasing. */
  lemma {:induction false} DirectIncreases(sender: string, signals: seq<Signal>)
    requires Increasing(From(sender, signals))
    ensures Increasing(From(sender, Direct(signals)))
    ensures forall n | n in From(sender, Direct(signals)) :: n in From(sender, signals)
  {
    if signals != [] {
      var rest, last := signals[..|signals| - 1], signals[|signals| - 1];
      var before := From(sender, rest);
      if last.sender == sender {
        assert From(sender, signals) == before + [last.seqNo];
        ExtendIncreasing(before, [], last.seqNo);
      } else {
        assert From(sender, signals) == before + [] == before;
      }
      DirectIncreases(sender, rest);
      var direct := From(sender, Direct(rest));
      if last.sender == sender { ExtendIncreasing(before, direct, last.seqNo); }
      if last.ice {
        assert Direct(signals) == Direct(rest) + [] == Direct(rest);
      } else {
        assert Direct(signals) == Direct(rest) + [last];
        FromGrows(sender, Direct(rest), last);
      }
    }
  }

  /** Offers and answers of one sender leave the server in strictly increasing order while the accepted numbers are. */
  lemma {:induction false} OffersAndAnswersIncrease(s: State, run: seq<Timed>, sender: string)
    requires Ordered(s.store) && DirectInOrder(s) && !HasStaleCheck(s, run)
    ensures Increasing(From(sender, Direct(Run(s, run).store.relayed)))
    decreases run
  {
    if run == [] {
      assert KeyIsLast(s.store.sequences, s.store.accepted, sender);
      DirectIncreases(sender, s.store.accepted);
    } else {
      OrderStep(s, run[0].action, run[0].at);
      DirectStep(s, run[0].action, run[0].at);
      OffersAndAnswersIncrease(Next(s, run[0].action, run[0].at), run[1..], sender);
    }
  }

  /** From a new invitation without a stale check: accepted numbers and relayed offers and answers increase, nothing goes
      out twice, and only a passed candidate is ever out of order. */
  lemma NewCallKeepsOrder(invitedAt: int, run: seq<Timed>, sender: string)
    requires !HasStaleCheck(Invited(invitedAt), run)
    ensures var s := Run(Invited(invitedAt), run).store;
            && Increasing(From(sender, s.accepted))
            && Increasing(From(sender, Direct(s.relayed)))
            && SentOnce(s)
    ensures EverSentOutOfOrder(Invited(invitedAt), run) <==> HasPassed(Invited(invitedAt), run)
  {
    OrderExactly(Invited(invitedAt), run);
    DisorderIsPassed(Invited(invitedAt), run);
    assert KeyIsLast(Run(Invited(invitedAt), run).store.sequences, Run(Invited(invitedAt), run).store.accepted, sender);
    OffersAndAnswersIncrease(Invited(invitedAt), run, sender);
    RelayedAtMostOnce(Invited(invitedAt), run);
  }

  // ---- Where it ends

  lemma {:induction false} RunConcat(s: State, a: seq<Timed>, b: seq<Timed>)
    ensures Run(s, a + b) == Run(Run(s, a), b)
    decreases a
  {
    if a == [] {
      assert a + b == b;
    } else {
      assert (a + b)[0] == a[0] && (a + b)[1..] == a[1..] + b;
      RunConcat(Next(s, a[0].action, a[0].at), a[1..], b);
    }
  }

  /** A call accepted at time 0 in which 5 was sent on at once. */
  function FiveSent(sender: string): State {
    var g := Signal(sender, "n5", 5, 0, false);
    State(Store(Session(Active, Some(0), ACTIVE_MS), map["n5" := Entry(1, NONCE_TTL_MS)],
                map[sender := Entry(5, SEQUENCE_TTL_MS)], [g], [g]), map[], 0)
  }

  lemma RunThree(s: State, a: Timed, b: Timed, c: Timed)
    ensures Run(s, [a, b, c]) == Next(Next(Next(s, a.action, a.at), b.action, b.at), c.action, c.at)
  {
    var s1 := Next(s, a.action, a.at);
    var s2 := Next(s1, b.action, b.at);
    assert [a, b, c][1..] == [b, c] && [b, c][1..] == [c];
    assert Run(s2, [c]) == Next(s2, c.action, c.at);
    assert Run(s1, [b, c]) == Run(s2, [c]);
  }

  lemma RunTwo(s: State, a: Timed, b: Timed)
    ensures Run(s, [a, b]) == Next(Next(s, a.action, a.at), b.action, b.at)
  {
    assert [a, b][1..] == [b];
    assert Run(Next(s, a.action, a.at), [b]) == Next(Next(s, a.action, a.at), b.action, b.at);
  }

  function CallTaken(): State {
    State(Store(Session(Active, Some(0), ACTIVE_MS), map[], map[], [], []), map[], 0)
  }

  lemma ReachesTaken()
    ensures Run(Invited(0), [Timed(BeginRespond(0, true), 0), Timed(Step(0, true), 0)]) == CallTaken()
  {
    RunTwo(Invited(0), Timed(BeginRespond(0, true), 0), Timed(Step(0, true), 0));
    var s1 := Next(Invited(0), BeginRespond(0, true), 0);
    assert s1.calls == map[0 := RespondClaim(true, 0)];
    assert SetCall(s1.calls, 0, None) == map[];
  }

  /** A signal handled at once, up to its relay or its wait for the rate limit. */
  function Sending(g: Signal): seq<Timed> {
    [Timed(BeginSignal(0, g), 0), Timed(Step(0, true), 0), Timed(Step(0, true), 0)]
  }

  lemma Sent(s: State, g: Signal)
    requires s.clock == 0 && s.calls == map[] && MaySignal(s.store.session, 0) && g.timestamp == 0
    requires g.nonce !in s.store.nonces && (g.sender in s.store.sequences ==> g.seqNo > s.store.sequences[g.sender].value)
    ensures Run(s, Sending(g))
         == State(Store(s.store.session, s.store.nonces[g.nonce := Entry(1, NONCE_TTL_MS)],
                        s.store.sequences[g.sender := Entry(g.seqNo, SEQUENCE_TTL_MS)],
                        s.store.accepted + [g], if g.ice then s.store.relayed else s.store.relayed + [g]),
                  if g.ice then map[0 := IceRelay(g)] else map[], 0)
  {
    RunThree(s, Timed(BeginSignal(0, g), 0), Timed(Step(0, true), 0), Timed(Step(0, true), 0));
    var s1 := Next(s, BeginSignal(0, g), 0);
    assert s1.calls == map[0 := NonceCheck(g)];
    var s2 := Next(s1, Step(0, true), 0);
    assert s2.calls == map[0 := SeqCheck(g)];
    assert SetCall(s2.calls, 0, None) == map[];
  }

  lemma ReachesFive(sender: string) returns (run: seq<Timed>)
    ensures Run(Invited(0), run) == FiveSent(sender)
  {
    var g, taking := Signal(sender, "n5", 5, 0, false), [Timed(BeginRespond(0, true), 0), Timed(Step(0, true), 0)];
    ReachesTaken();
    Sent(CallTaken(), g);
    RunConcat(Invited(0), taking, Sending(g));
    run := taking + Sending(g);
  }

  /** The same call with 6, a candidate, accepted and waiting for its rate limit. */
  function CandidateWaits(sender: string): State {
    var g := Signal(sender, "n6", 6, 0, true);
    var s := FiveSent(sender).store;
    State(s.(accepted := s.accepted + [g], sequences := map[sender := Entry(6, SEQUENCE_TTL_MS)],
             nonces := s.nonces["n6" := Entry(1, NONCE_TTL_MS)]),
          map[0 := IceRelay(g)], 0)
  }

  lemma ReachesWaiting(sender: string) returns (run: seq<Timed>)
    ensures Run(Invited(0), run) == CandidateWaits(sender)
  {
    var g := Signal(sender, "n6", 6, 0, true);
    var five := ReachesFive(sender);
    Sent(FiveSent(sender), g);
    RunConcat(Invited(0), five, Sending(g));
    run := five + Sending(g);
  }

  lemma OfferPasses(sender: string, offer: Signal)
    requires offer == Signal(sender, "n7", 7, 0, false)
    ensures var s := CandidateWaits(sender);
            var t := Run(s, [Timed(BeginSignal(1, offer), 0), Timed(Step(1, true), 0), Timed(Step(1, true), 0)]);
            t.store.relayed == s.store.relayed + [offer] && t.clock == 0 && t.calls == s.calls
  {
    var s := CandidateWaits(sender);
    RunThree(s, Timed(BeginSignal(1, offer), 0), Timed(Step(1, true), 0), Timed(Step(1, true), 0));
    var s1 := Next(s, BeginSignal(1, offer), 0);
    assert s1.calls == s.calls[1 := NonceCheck(offer)];
    var s2 := Next(s1, Step(1, true), 0);
    assert s2.calls == s.calls[1 := SeqCheck(offer)];
    assert SetCall(s2.calls, 1, None) == s.calls;
  }

  /** A candidate that waits for its rate limit can be overtaken: 7 goes out before 6. */
  lemma CandidateOvertaken(sender: string)
    ensures var offer := Signal(sender, "n7", 7, 0, false);
            var run := [Timed(BeginSignal(1, offer), 0), Timed(Step(1, true), 0), Timed(Step(1, true), 0)];
            var passed := Run(CandidateWaits(sender), run);
            From(sender, Next(passed, Step(0, true), 0).store.relayed) == [5, 7, 6]
  {
    var s := CandidateWaits(sender);
    var offer := Signal(sender, "n7", 7, 0, false);
    OfferPasses(sender, offer);
    FromGrows(sender, [], s.store.relayed[0]);
    FromGrows(sender, s.store.relayed, offer);
    FromGrows(sender, s.store.relayed + [offer], s.calls[0].signal);
  }

  /** A handler let in just before the end and held up past it finds the key expired: 3 goes out after 5. */
  lemma LateCheckBreaksOrder(sender: string)
    ensures var g := Signal(sender, "n3", 3, ACTIVE_MS - 1, false);
            var run := [Timed(BeginSignal(0, g), ACTIVE_MS - 1), Timed(Step(0, true), ACTIVE_MS - 1), Timed(Step(0, true), ACTIVE_MS)];
            From(sender, Run(FiveSent(sender), run).store.relayed) == [5, 3]
  {
    var g := Signal(sender, "n3", 3, ACTIVE_MS - 1, false);
    var s := FiveSent(sender);
    RunThree(s, Timed(BeginSignal(0, g), ACTIVE_MS - 1), Timed(Step(0, true), ACTIVE_MS - 1), Timed(Step(0, true), ACTIVE_MS));
    var s1 := Next(s, BeginSignal(0, g), ACTIVE_MS - 1);
    assert s1.calls == map[0 := NonceCheck(g)];
    var s2 := Next(s1, Step(0, true), ACTIVE_MS - 1);
    assert s2.calls == map[0 := SeqCheck(g)];
    FromGrows(sender, s.store.relayed, g);
    FromGrows(sender, [], s.store.relayed[0]);
  }

  /** Both happen to a new invitation. */
  lemma DisorderReached(sender: string) returns (overtaken: seq<Timed>, late: seq<Timed>)
    ensures From(sender, Run(Invited(0), overtaken).store.relayed) == [5, 7, 6]
    ensures From(sender, Run(Invited(0), late).store.relayed) == [5, 3]
  {
    var waiting := ReachesWaiting(sender);
    var offer := Signal(sender, "n7", 7, 0, false);
    var passing := [Timed(BeginSignal(1, offer), 0), Timed(Step(1, true), 0), Timed(Step(1, true), 0)];
    CandidateOvertaken(sender);
    RunConcat(Invited(0), waiting, passing);
    RunConcat(Invited(0), waiting + passing, [Timed(Step(0, true), 0)]);
    overtaken := waiting + passing + [Timed(Step(0, true), 0)];
    var passed := Run(CandidateWaits(sender), passing);
    assert Run(passed, [Timed(Step(0, true), 0)]) == Next(passed, Step(0, true), 0);
    var five := ReachesFive(sender);
    var g := Signal(sender, "n3", 3, ACTIVE_MS - 1, false);
    var held := [Timed(BeginSignal(0, g), ACTIVE_MS - 1), Timed(Step(0, true), ACTIVE_MS - 1), Timed(Step(0, true), ACTIVE_MS)];
    LateCheckBreaksOrder(sender);
    RunConcat(Invited(0), five, held);
    late := five + held;
  }
}
