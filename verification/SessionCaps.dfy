/** What a login and a rotation do to a user's active sessions when nothing runs in between. */
module SessionCaps {
  import opened Collections
  import opened Wrappers
  import opened Sessions

  /** The state a non-driver login leaves when nothing runs in between. */
  function AfterLogin(s: State, user: nat, found: seq<nat>, now: int): State {
    Create(s.(sessions := RevokeAll(s.sessions, Elements(Victims(found)))), user, s.next, now)
  }

  // ---- The steps of a login add up to it

  function Steps(call: nat, n: nat): seq<Action> {
    if n == 0 then [] else [Step(call)] + Steps(call, n - 1)
  }

  lemma RevokeTwice(m: map<nat, Session>, a: set<nat>, b: set<nat>)
    ensures RevokeAll(RevokeAll(m, a), b) == RevokeAll(m, a + b)
  {
  }

  lemma {:induction false} EvictionSteps(s: State, call: nat, user: nat, victims: seq<nat>, now: int)
    requires call in s.calls && s.calls[call] == Evict(user, victims, now)
    ensures Run(s, Steps(call, |victims| + 1))
         == SetCall(Create(s.(sessions := RevokeAll(s.sessions, Elements(victims))), user, s.next, now), call, None)
    decreases victims
  {
    var t := Next(s, Step(call));
    if victims == [] {
      assert RevokeAll(s.sessions, {}) == s.sessions;
      assert Run(s, [Step(call)]) == t;
    } else {
      EvictionSteps(t, call, user, victims[1..], now);
      RevokeTwice(s.sessions, {victims[0]}, Elements(victims[1..]));
      assert {victims[0]} + Elements(victims[1..]) == Elements(victims);
      assert t.calls - {call} == s.calls - {call};
      assert Steps(call, |victims| + 1)[1..] == Steps(call, |victims|);
    }
  }

  lemma LoginSteps(s: State, call: nat, user: nat, found: seq<nat>, now: int)
    requires call !in s.calls && IsAnswer(s.sessions, user, found)
    ensures Run(s, [BeginLogin(call, user, found, now)] + Steps(call, |Victims(found)| + 1))
         == AfterLogin(s, user, found, now)
  {
    var t := Next(s, BeginLogin(call, user, found, now));
    EvictionSteps(t, call, user, Victims(found), now);
    var run := [BeginLogin(call, user, found, now)] + Steps(call, |Victims(found)| + 1);
    assert run[1..] == Steps(call, |Victims(found)| + 1);
    assert t.calls - {call} == s.calls;
  }

  // ---- What one login does

  lemma AnswerCounts(sessions: map<nat, Session>, user: nat, found: seq<nat>)
    requires IsAnswer(sessions, user, found)
    ensures ActiveIds(sessions, user) == Elements(found) && |ActiveIds(sessions, user)| == |found|
  {
    ElementsSize(found);
  }

  lemma CreateActive(s: State, user: nat, family: nat, now: int, u: nat)
    requires Sound(s)
    ensures ActiveIds(Create(s, user, family, now).sessions, u) == ActiveIds(s.sessions, u) + if u == user then {s.next} else {}
  {
  }

  lemma RevokeActive(sessions: map<nat, Session>, ids: set<nat>, u: nat)
    ensures ActiveIds(RevokeAll(sessions, ids), u) == ActiveIds(sessions, u) - ids
  {
  }

  /** A login ends the victims, adds one session, and touches nobody else's. */
  lemma LoginActive(s: State, user: nat, found: seq<nat>, now: int, u: nat)
    requires Sound(s) && IsAnswer(s.sessions, user, found)
    ensures ActiveIds(AfterLogin(s, user, found, now).sessions, u)
         == if u == user then ActiveIds(s.sessions, u) - Elements(Victims(found)) + {s.next} else ActiveIds(s.sessions, u)
  {
    var victims := Elements(Victims(found));
    RevokeAllSound(s, victims);
    RevokeActive(s.sessions, victims, u);
    CreateActive(s.(sessions := RevokeAll(s.sessions, victims)), user, s.next, now, u);
    forall id | id in victims ensures Active(s.sessions, user, id) { }
    if u != user { assert ActiveIds(s.sessions, u) - victims == ActiveIds(s.sessions, u); }
  }

  /** The victims are exactly the surplus over four. */
  lemma LoginCount(s: State, user: nat, found: seq<nat>, now: int)
    requires Sound(s) && IsAnswer(s.sessions, user, found)
    ensures var before := |ActiveIds(s.sessions, user)|;
            |ActiveIds(AfterLogin(s, user, found, now).sessions, user)| == (if before < 4 then before else 4) + 1
  {
    var victims := Victims(found);
    LoginActive(s, user, found, now, user);
    AnswerCounts(s.sessions, user, found);
    ElementsSize(victims);
    assert Elements(victims) <= Elements(found);
    MinusSubset(Elements(found), Elements(victims));
    forall id | id in found ensures id != s.next { assert Active(s.sessions, user, id); }
  }

  /** No evicted session was refreshed after one that is kept. */
  lemma LoginEvictsOldest(s: State, user: nat, found: seq<nat>, gone: nat, kept: nat)
    requires IsAnswer(s.sessions, user, found)
    requires gone in Victims(found) && Active(s.sessions, user, kept) && kept !in Victims(found)
    ensures gone in s.sessions && s.sessions[gone].refreshedAt <= s.sessions[kept].refreshedAt
  {
    var i :| 0 <= i < |Victims(found)| && Victims(found)[i] == gone;
    var j :| 0 <= j < |found| && found[j] == kept;
    assert Active(s.sessions, user, found[i]);
    forall k | 0 <= k < |Victims(found)| ensures found[k] in Victims(found) { assert found[k] == Victims(found)[k]; }
    assert i < |Victims(found)| <= j;
  }

  // ---- A rotation with nothing in between

  ghost function AfterRotation(s: State, token: nat, now: int): State {
    Run(s, [Lookup(0, token, now), Step(0)])
  }

  lemma RotateSteps(s: State, token: nat, now: int)
    requires s.calls == map[]
    ensures AfterRotation(s, token, now) == Next(Next(s, Lookup(0, token, now)), Step(0))
    ensures AfterRotation(s, token, now).calls == map[]
  {
    var s1 := Next(s, Lookup(0, token, now));
    assert Run(s1, [Step(0)]) == Next(s1, Step(0));
    assert [Lookup(0, token, now), Step(0)][1..] == [Step(0)];
  }

  /** The claim of an active session swaps it for its successor. */
  lemma ClaimActive(s: State, call: nat, id: nat, now: int, user: nat)
    requires Sound(s) && id in s.sessions && !s.sessions[id].revoked
    ensures ActiveIds(DoClaim(s, call, id, now).sessions, user)
         == if s.sessions[id].user == user then ActiveIds(s.sessions, user) - {id} + {s.next} else ActiveIds(s.sessions, user)
  {
    var row := s.sessions[id];
    var t := s.(sessions := s.sessions[id := row.(revoked := true, refreshedAt := now)], rotated := s.rotated + [id]);
    assert ActiveIds(t.sessions, user) == ActiveIds(s.sessions, user) - {id};
    if row.user != user { assert id !in ActiveIds(s.sessions, user); }
    assert DoClaim(s, call, id, now).sessions == Create(t, row.user, row.family, now).sessions;
    assert Sound(t);
    CreateActive(t, row.user, row.family, now, user);
  }

  lemma SwapSize(a: set<nat>, x: nat, y: nat)
    requires x in a
    ensures |a - {x} + {y}| <= |a|
  {
    assert |a - {x}| == |a| - 1;
    if y in a - {x} { assert a - {x} + {y} == a - {x}; }
  }

  /** Rotation replaces one active session or revokes a family: no user gains a session. */
  lemma RotateKeepsCount(s: State, token: nat, now: int, user: nat)
    requires Sound(s) && s.calls == map[]
    ensures |ActiveIds(AfterRotation(s, token, now).sessions, user)| <= |ActiveIds(s.sessions, user)|
  {
    RotateSteps(s, token, now);
    var s1 := Next(s, Lookup(0, token, now));
    if 0 in s1.calls && s1.calls[0].Claim? {
      ClaimActive(s1, 0, token, now, user);
      if s.sessions[token].user == user {
        assert token in ActiveIds(s.sessions, user);
        SwapSize(ActiveIds(s.sessions, user), token, s.next);
      }
    } else if 0 in s1.calls {
      RevokeActive(s.sessions, FamilyIds(s.sessions, s1.calls[0].family), user);
      SubsetSize(ActiveIds(s.sessions, user) - FamilyIds(s.sessions, s1.calls[0].family), ActiveIds(s.sessions, user));
    }
  }
}
