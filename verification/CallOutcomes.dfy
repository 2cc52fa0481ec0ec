/** What the calls of one session come to, with statuses and times written out, and what its end stops. */
module CallOutcomes {
  import opened Wrappers
  import opened CallSignalling
  import opened SignalHandlers
  import opened SignalOrder

  // ---- The session

  /** An invitation is accepted for an hour, or declined, before its thirty seconds are over; otherwise it stays as it is. */
  lemma RespondExact(invitedAt: int, accept: bool, now: int)
    ensures var s := Invited(invitedAt).store;
            Serve(s, Respond(accept), now).session ==
              if now < invitedAt + 30_000 then
                if accept then Session(Active, Some(now), now + 3_600_000) else Session(Declined, None, invitedAt + 30_000)
              else Session(Pending, None, invitedAt + 30_000)
  {
  }

  /** Only a pending session that has not expired can be responded to, and only one that has can time out. */
  lemma ServeExact(s: Store, accept: bool, now: int)
    ensures Serve(s, Respond(accept), now) ==
              if s.session.status == Pending && now < s.session.expiresAt then
                s.(session := if accept then Session(Active, Some(now), now + 3_600_000)
                              else Session(Declined, None, s.session.expiresAt))
              else s
    ensures Serve(s, Watchdog, now) ==
              if s.session.status == Pending && s.session.expiresAt <= now then s.(session := s.session.(status := TimedOut)) else s
    ensures Serve(s, HangUp, now) == s.(session := s.session.(status := Ended))
  {
  }

  /** In any interleaving: what a waiting response, watchdog or end leaves of the session it finds. */
  lemma ClaimsExact(s: State, id: nat, underLimit: bool, now: int)
    requires now >= s.clock && id in s.calls
    ensures var t, from := Next(s, Step(id, underLimit), now), s.store.session;
            match s.calls[id]
            case RespondClaim(accept, readAt) =>
              t == State(s.store.(session :=
                           if from.status != Pending || from.expiresAt <= readAt then from
                           else if accept then Session(Active, Some(readAt), readAt + 3_600_000)
                           else Session(Declined, None, from.expiresAt)),
                         s.calls - {id}, now)
            case TimeoutClaim =>
              t == State(s.store.(session :=
                           if from.status == Pending && from.expiresAt <= now then from.(status := TimedOut) else from),
                         s.calls - {id}, now)
            case EndWrite => t == State(s.store.(session := from.(status := Ended)), s.calls - {id}, now)
            case _ => t.store.session == from
  {
  }

  /** What a handler reads first decides whether it goes on: a signal does exactly in an ACTIVE session before its time is
      up, a response in a PENDING one before its time is up, the watchdog in a PENDING one, an end in one that has not
      ended. */
  lemma LetInExactly(s: State, id: nat, g: Signal, accept: bool, now: int)
    requires now >= s.clock && id !in s.calls
    ensures Next(s, BeginSignal(id, g), now).calls ==
              if s.store.session.status == Active && now < s.store.session.expiresAt then s.calls[id := NonceCheck(g)] else s.calls
    ensures Next(s, BeginRespond(id, accept), now).calls ==
              if s.store.session.status == Pending && now < s.store.session.expiresAt
              then s.calls[id := RespondClaim(accept, now)] else s.calls
    ensures Next(s, BeginTimeout(id), now).calls ==
              if s.store.session.status == Pending then s.calls[id := TimeoutClaim] else s.calls
    ensures Next(s, BeginEnd(id), now).calls == if s.store.session.status != Ended then s.calls[id := EndWrite] else s.calls
  {
  }

  // ---- A signal

  /** The session takes signals, the timestamp is at most thirty seconds off, and the nonce is not in use. */
  predicate Fresh(s: Store, g: Signal, now: int) {
    && s.session.status == Active && now < s.session.expiresAt
    && -30_000 <= now - g.timestamp <= 30_000
    && (g.nonce in s.nonces ==> s.nonces[g.nonce].expiresAt <= now)
  }

  /** The number is above the sender's last one, as long as that is remembered. */
  predicate Newer(s: Store, g: Signal, now: int) {
    g.sender in s.sequences && now < s.sequences[g.sender].expiresAt ==> s.sequences[g.sender].value < g.seqNo
  }

  /** A signal that is fresh takes its nonce for a minute; if its number is newer too, the number is kept for an hour and
      the signal accepted, and sent on unless it is a candidate over its limit. Any other leaves no trace. */
  lemma HandleExact(s: Store, g: Signal, underLimit: bool, now: int)
    ensures Handle(s, g, underLimit, now) ==
              if !Fresh(s, g, now) then s
              else
                var nonces := s.nonces[g.nonce := Entry(1, now + 60_000)];
                if !Newer(s, g, now) then s.(nonces := nonces)
                else Store(s.session, nonces, s.sequences[g.sender := Entry(g.seqNo, now + 3_600_000)], s.accepted + [g],
                           if g.ice && !underLimit then s.relayed else s.relayed + [g])
  {
  }

  /** The steps of a signal handler with nothing in between are the whole handler. */
  lemma SignalAlone(s: State, id: nat, g: Signal, underLimit: bool, now: int)
    requires now >= s.clock && id !in s.calls
    ensures var step := Timed(Step(id, underLimit), now);
            Run(s, [Timed(BeginSignal(id, g), now), step, step, step]) == State(Handle(s.store, g, underLimit, now), s.calls, now)
  {
    var a, step := Timed(BeginSignal(id, g), now), Timed(Step(id, underLimit), now);
    var s1 := Next(s, a.action, now);
    var s2 := Next(s1, step.action, now);
    var s3 := Next(s2, step.action, now);
    var s4 := Next(s3, step.action, now);
    assert Run(s, [a, step, step, step]) == s4 by {
      assert [a, step, step, step][1..] == [step, step, step];
      assert [step, step, step][1..] == [step, step] && [step, step][1..] == [step];
      assert Run(s3, [step]) == s4;
      assert Run(s2, [step, step]) == s4;
      assert Run(s1, [step, step, step]) == s4;
    }
    assert s1.calls - {id} == s.calls;
    if id in s1.calls {
      assert s2.calls - {id} == s.calls;
      if id in s2.calls { assert s3.calls - {id} == s.calls; }
    }
  }

  // ---- Whole handlers

  /** The calls of one request, one after another at one instant. */
  function Handled(q: Request, at: int): seq<Timed> {
    match q
    case Respond(accept) => [Timed(BeginRespond(0, accept), at), Timed(Step(0, true), at)]
    case Watchdog => [Timed(BeginTimeout(0), at), Timed(Step(0, true), at)]
    case HangUp => [Timed(BeginEnd(0), at), Timed(Step(0, true), at)]
    case Send(g, underLimit) =>
      var step := Timed(Step(0, underLimit), at);
      [Timed(BeginSignal(0, g), at), step, step, step]
  }

  lemma {:induction false} PastChangesNothing(s: State, run: seq<Timed>)
    requires forall x | x in run :: x.at < s.clock
    ensures Run(s, run) == s
    decreases run
  {
    if run != [] {
      assert run[0] in run;
      PastChangesNothing(s, run[1..]);
    }
  }

  lemma HandledAlone(s: State, q: Request, at: int)
    requires s.calls == map[]
    ensures Run(s, Handled(q, at)) == if at < s.clock then s else State(Serve(s.store, q, at), map[], at)
  {
    if at < s.clock {
      PastChangesNothing(s, Handled(q, at));
    } else if q.Send? {
      SignalAlone(s, 0, q.signal, q.underLimit, at);
    } else {
      var a, step := Handled(q, at)[0], Timed(Step(0, true), at);
      RunTwo(s, a, step);
      var s1 := Next(s, a.action, at);
      assert s1.calls - {0} == map[];
      if 0 in s1.calls { ClaimsExact(s1, 0, true, at); }
    }
  }

  function AllHandled(run: seq<TimedRequest>): seq<Timed> {
    if run == [] then [] else Handled(run[0].request, run[0].at) + AllHandled(run[1..])
  }

  /** Serving requests whole is the same as carrying the calls of each out with nothing in between. */
  lemma {:induction false} ServedIsHandled(s: State, run: seq<TimedRequest>)
    requires s.calls == map[]
    ensures Run(s, AllHandled(run)).store == ServeAll(s.store, s.clock, run)
    decreases run
  {
    if run != [] {
      var q, at := run[0].request, run[0].at;
      HandledAlone(s, q, at);
      RunConcat(s, Handled(q, at), AllHandled(run[1..]));
      ServedIsHandled(Run(s, Handled(q, at)), run[1..]);
    }
  }

  // ---- After the end

  predicate Signals(c: Call, g: Signal) {
    (c.NonceCheck? || c.SeqCheck? || c.IceRelay?) && c.signal == g
  }

  ghost predicate InFlight(calls: map<nat, Call>, g: Signal) {
    exists id | id in calls :: Signals(calls[id], g)
  }

  /** The call is over, and whatever has been accepted or sent on since, or still could be, was on its way before. */
  ghost predicate Quiet(ended: State, now: State) {
    && now.store.session.status == Ended
    && (forall g | InFlight(now.calls, g) :: InFlight(ended.calls, g))
    && (forall g | g in now.store.accepted :: g in ended.store.accepted || InFlight(ended.calls, g))
    && (forall g | g in now.store.relayed :: g in ended.store.relayed || InFlight(ended.calls, g))
  }

  lemma AdvanceQuiet(s: Store, c: Call, underLimit: bool, now: int)
    ensures var (t, next) := Advance(s, c, underLimit, now);
      && (forall g | g in t.accepted :: g in s.accepted || Signals(c, g))
      && (forall g | g in t.relayed :: g in s.relayed || Signals(c, g))
      && (next.Some? ==> forall g | Signals(next.value, g) :: Signals(c, g))
  {
  }

  lemma QuietStep(ended: State, s: State, a: Action, now: int)
    requires Quiet(ended, s)
    ensures Quiet(ended, Next(s, a, now))
  {
    var t := Next(s, a, now);
    SessionStep(s, a, now);
    if now >= s.clock && a.Step? && a.id in s.calls {
      AdvanceQuiet(s.store, s.calls[a.id], a.underLimit, now);
      forall g | Signals(s.calls[a.id], g) ensures InFlight(ended.calls, g) { assert InFlight(s.calls, g); }
    }
    forall g | InFlight(t.calls, g) ensures InFlight(ended.calls, g) {
      var id :| id in t.calls && Signals(t.calls[id], g);
      if id in s.calls && s.calls[id] == t.calls[id] { assert InFlight(s.calls, g); }
    }
  }

  lemma {:induction false} QuietRun(ended: State, s: State, run: seq<Timed>)
    requires Quiet(ended, s)
    ensures Quiet(ended, Run(s, run))
    decreases run
  {
    if run != [] {
      QuietStep(ended, s, run[0].action, run[0].at);
      QuietRun(ended, Next(s, run[0].action, run[0].at), run[1..]);
    }
  }

  /** Once the waiting end of a call has had its turn, nothing is accepted or sent on in any run that was not already past
      authorization then; a signal begun later never is. */
  lemma EndSilences(s: State, id: nat, underLimit: bool, now: int, run: seq<Timed>)
    requires now >= s.clock && id in s.calls && s.calls[id].EndWrite?
    ensures var ended := Next(s, Step(id, underLimit), now);
            ended.store.session.status == Ended && Quiet(ended, Run(ended, run))
  {
    var ended := Next(s, Step(id, underLimit), now);
    QuietRun(ended, ended, run);
  }

  /** With whole handlers, ending a call ends its signalling. */
  lemma {:induction false} HangUpSilences(s: Store, clock: int, run: seq<TimedRequest>)
    requires s.session.status == Ended
    ensures var t := ServeAll(s, clock, run);
            t.accepted == s.accepted && t.relayed == s.relayed && t.session.status == Ended
    decreases run
  {
    if run != [] {
      if run[0].at < clock {
        HangUpSilences(s, clock, run[1..]);
      } else {
        HangUpSilences(Serve(s, run[0].request, run[0].at), run[0].at, run[1..]);
      }
    }
  }

  /** From any moment: hang up, and whatever is requested after it leaves what was sent on alone. */
  lemma AfterHangUp(s: Store, at: int, clock: int, run: seq<TimedRequest>)
    requires at >= clock
    ensures var t := ServeAll(s, clock, [TimedRequest(HangUp, at)] + run);
            t.accepted == s.accepted && t.relayed == s.relayed && t.session.status == Ended
  {
    var all := [TimedRequest(HangUp, at)] + run;
    assert all[1..] == run;
    HangUpSilences(Serve(s, HangUp, at), at, run);
  }
}
