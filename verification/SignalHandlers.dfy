/** The signalling handlers run whole, and the services they call. */
module SignalHandlers {
  import opened Wrappers
  import opened CallSignalling

  // ---- Handlers as one step

  datatype Request =
    | Respond(accept: bool)
    | Watchdog
    | HangUp
    | Send(signal: Signal, underLimit: bool)

  /** A signal through authorization, nonce, sequence and rate limit at one instant. */
  function Handle(s: Store, g: Signal, underLimit: bool, now: int): Store {
    if !MaySignal(s.session, now) then s
    else
      var (afterNonce, next) := CheckNonce(s, g, now);
      if next.None? then afterNonce
      else
        var (afterSeq, last) := CheckSequence(afterNonce, g, now);
        if last.None? then afterSeq else Advance(afterSeq, last.value, underLimit, now).0
  }

  function Serve(s: Store, q: Request, now: int): Store {
    match q
    case Respond(accept) =>
      if s.session.expiresAt > now && s.session.status == Pending then s.(session := ClaimResponse(s.session, accept, now)) else s
    case Watchdog => s.(session := ClaimTimeout(s.session, now))
    case HangUp => s.(session := s.session.(status := Ended))
    case Send(g, underLimit) => Handle(s, g, underLimit, now)
  }

  datatype TimedRequest = TimedRequest(request: Request, at: int)

  /** Requests in the order of their times. */
  function ServeAll(s: Store, clock: int, run: seq<TimedRequest>): Store
    decreases run
  {
    if run == [] then s
    else if run[0].at < clock then ServeAll(s, clock, run[1..])
    else ServeAll(Serve(s, run[0].request, run[0].at), run[0].at, run[1..])
  }

  /** What was sent on for a sender is in order, and part of what was accepted. */
  ghost predicate InOrder(accepted: seq<Signal>, relayed: seq<Signal>, sender: string) {
    && Increasing(From(sender, relayed))
    && forall n | n in From(sender, relayed) :: n in From(sender, accepted)
  }

  ghost predicate AllInOrder(s: Store) {
    forall sender :: InOrder(s.accepted, s.relayed, sender)
  }

  /** One more accepted signal, sent on or held back by the rate limit. */
  lemma SendKeepsOrder(accepted: seq<Signal>, relayed: seq<Signal>, g: Signal, sender: string)
    requires InOrder(accepted, relayed, sender) && Increasing(From(sender, accepted + [g]))
    ensures InOrder(accepted + [g], relayed, sender) && InOrder(accepted + [g], relayed + [g], sender)
  {
    FromGrows(sender, accepted, g);
    FromGrows(sender, relayed, g);
    if g.sender == sender { ExtendIncreasing(From(sender, accepted), From(sender, relayed), g.seqNo); }
  }

  lemma HandleAppends(s: Store, g: Signal, underLimit: bool, now: int)
    ensures var t := Handle(s, g, underLimit, now);
      || (t.accepted == s.accepted && t.relayed == s.relayed)
      || (t.accepted == s.accepted + [g] && (t.relayed == s.relayed || t.relayed == s.relayed + [g]))
  {
  }

  lemma HandleSound(s: Store, clock: int, g: Signal, underLimit: bool, now: int)
    requires StoreSound(s, clock) && MaySignal(s.session, now) && clock <= now
    ensures StoreSound(Handle(s, g, underLimit, now), now)
  {
    CallKeepsStore(s, NonceCheck(g), underLimit, clock, now);
    var (afterNonce, next) := CheckNonce(s, g, now);
    if next.Some? { CallKeepsStore(afterNonce, SeqCheck(g), underLimit, now, now); }
  }

  lemma ServeInOrder(s: Store, clock: int, q: Request, now: int)
    requires StoreSound(s, clock) && AllInOrder(s) && clock <= now
    ensures StoreSound(Serve(s, q, now), now) && AllInOrder(Serve(s, q, now))
  {
    var t := Serve(s, q, now);
    if q.Send? && MaySignal(s.session, now) {
      HandleSound(s, clock, q.signal, q.underLimit, now);
      HandleAppends(s, q.signal, q.underLimit, now);
      forall sender ensures InOrder(t.accepted, t.relayed, sender) {
        assert InOrder(s.accepted, s.relayed, sender);
        assert KeyRight(t.session, t.sequences, t.accepted, sender);
        if t.accepted != s.accepted { SendKeepsOrder(s.accepted, s.relayed, q.signal, sender); }
      }
    } else {
      forall sender ensures InOrder(t.accepted, t.relayed, sender) { assert InOrder(s.accepted, s.relayed, sender); }
      forall sender ensures KeyRight(t.session, t.sequences, t.accepted, sender) {
        assert KeyRight(s.session, s.sequences, s.accepted, sender);
      }
    }
  }

  /** With each handler one step, all numbers sent on for a sender strictly increase over the whole call, candidates
      included: the sequence key outlives every moment at which the session lets a signal in. */
  lemma {:induction false} WholeHandlersIncrease(s: Store, clock: int, run: seq<TimedRequest>)
    requires StoreSound(s, clock) && AllInOrder(s)
    ensures AllInOrder(ServeAll(s, clock, run))
    decreases run
  {
    if run != [] {
      if run[0].at < clock {
        WholeHandlersIncrease(s, clock, run[1..]);
      } else {
        ServeInOrder(s, clock, run[0].request, run[0].at);
        WholeHandlersIncrease(Serve(s, run[0].request, run[0].at), run[0].at, run[1..]);
      }
    }
  }

  lemma NewCallIncreases(invitedAt: int, run: seq<TimedRequest>, sender: string)
    ensures Increasing(From(sender, ServeAll(Invited(invitedAt).store, invitedAt, run).relayed))
  {
    var s := Invited(invitedAt).store;
    WholeHandlersIncrease(s, invitedAt, run);
    assert InOrder(ServeAll(s, invitedAt, run).accepted, ServeAll(s, invitedAt, run).relayed, sender);
  }

  /** The script keeps a sender's order exactly while its key is alive. */
  lemma OrderKeptWhileAlive(keys: Keys, sender: string, ttl: int, now: int)
    requires sender in keys
    ensures (forall n :: SetSequence(keys, sender, n, ttl, now).1 ==> n > keys[sender].value) <==> Alive(keys, sender, now)
  {
    assert !Alive(keys, sender, now) ==> SetSequence(keys, sender, keys[sender].value, ttl, now).1;
  }

  // ---- The services

  class Service {
    var session: Session
    var nonces: Keys
    var sequences: Keys
    ghost var accepted: seq<Signal>
    ghost var relayed: seq<Signal>

    ghost function View(): Store
      reads this
    {
      Store(session, nonces, sequences, accepted, relayed)
    }

    constructor (now: int)
      ensures View() == Invited(now).store
    {
      session, nonces, sequences, accepted, relayed := Session(Pending, None, now + PENDING_MS), map[], map[], [], [];
    }

    method SetNxEx(key: string, ttl: int, now: int) returns (claimed: bool)
      modifies this`nonces
      ensures (nonces, claimed) == SetNx(old(nonces), key, 1, ttl, now)
    {
      if key in nonces && now < nonces[key].expiresAt { return false; }
      nonces := nonces[key := Entry(1, now + ttl)];
      claimed := true;
    }

    method VerifyAndSetSequence(key: string, seqNo: int, ttl: int, now: int) returns (valid: bool)
      modifies this`sequences
      ensures (sequences, valid) == SetSequence(old(sequences), key, seqNo, ttl, now)
    {
      if key in sequences && now < sequences[key].expiresAt {
        var current := sequences[key].value;
        if current >= seqNo { return false; }
      }
      sequences := sequences[key := Entry(seqNo, now + ttl)];
      valid := true;
    }

    method RespondToCall(accept: bool, now: int) returns (claimed: bool)
      modifies this`session
      ensures View() == Serve(old(View()), Respond(accept), now)
      ensures claimed == (old(session).status == Pending && old(session).expiresAt > now)
    {
      if session.expiresAt <= now || session.status != Pending { return false; }
      session := if accept then Session(Active, Some(now), now + ACTIVE_MS) else Session(Declined, None, session.expiresAt);
      claimed := true;
    }

    method HandlePendingTimeout(now: int)
      modifies this`session
      ensures View() == Serve(old(View()), Watchdog, now)
    {
      if session.status == Pending && session.expiresAt <= now {
        session := session.(status := TimedOut);
      }
    }

    method EndCall()
      modifies this`session
      ensures View() == Serve(old(View()), HangUp, 0)
    {
      if session.status != Ended { session := session.(status := Ended); }
    }

    /** validateWebrtcAntiReplay: skew, then nonce, then sequence. */
    method ValidateAntiReplay(g: Signal, now: int) returns (clean: bool)
      modifies this`nonces, this`sequences, this`accepted
      ensures clean ==> g.timestamp - MAX_SKEW_MS <= now <= g.timestamp + MAX_SKEW_MS
      ensures clean ==> !Alive(old(nonces), g.nonce, now)
      ensures clean && Alive(old(sequences), g.sender, now) ==> old(sequences)[g.sender].value < g.seqNo
      ensures clean == (CheckNonce(old(View()), g, now).1.Some?
                        && SetSequence(old(sequences), g.sender, g.seqNo, SEQUENCE_TTL_MS, now).1)
      ensures View() == if CheckNonce(old(View()), g, now).1.None? then CheckNonce(old(View()), g, now).0
                        else CheckSequence(CheckNonce(old(View()), g, now).0, g, now).0.(relayed := old(relayed))
    {
      if now - g.timestamp > MAX_SKEW_MS || g.timestamp - now > MAX_SKEW_MS { return false; }
      var claimed := SetNxEx(g.nonce, NONCE_TTL_MS, now);
      if !claimed { return false; }
      clean := VerifyAndSetSequence(g.sender, g.seqNo, SEQUENCE_TTL_MS, now);
      if clean { accepted := accepted + [g]; }
    }

    /** A signal handler: access, anti-replay, rate limit for candidates, relay. */
    method HandleSignal(g: Signal, underLimit: bool, now: int) returns (sent: bool)
      modifies this
      ensures View() == Handle(old(View()), g, underLimit, now)
      ensures sent == (relayed == old(relayed) + [g])
    {
      if !(session.status == Active && session.expiresAt > now) { return false; }
      var clean := ValidateAntiReplay(g, now);
      if !clean { return false; }
      if g.ice && !underLimit { return false; }
      relayed := relayed + [g];
      sent := true;
    }
  }
}
