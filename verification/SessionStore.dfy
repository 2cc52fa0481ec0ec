/** The session service over its table, one request at a time; the steps it is made of are those of Sessions. */
module SessionStore {
  import opened Collections
  import opened Wrappers
  import opened Sessions
  import opened SessionCaps
  import opened SessionLineage

  datatype RotateResult = InvalidToken | ReuseDetected | Rotated(id: nat)

  class Store {
    var sessions: map<nat, Session>
    var next: nat

    /** The table with no request in flight. */
    ghost function Idle(): State
      reads this
    {
      State(sessions, map[], next, [])
    }

    ghost predicate Holds(s: State)
      reads this
    {
      sessions == s.sessions && next == s.next
    }

    constructor ()
      ensures Idle() == NO_SESSIONS
    {
      sessions, next := map[], 0;
    }

    method Insert(user: nat, family: nat, now: int) returns (id: nat)
      modifies this
      ensures Holds(Create(old(Idle()), user, family, now)) && id == old(next)
    {
      id := next;
      sessions, next := sessions[next := Session(user, family, false, now + LIFETIME, now)], next + 1;
    }

    /** Login of a driver: every active session is announced as revoked and revoked, then one is created. */
    method CreateDriverSession(user: nat, now: int) returns (id: nat, announced: set<nat>)
      modifies this
      ensures Holds(DoLoginDriver(old(Idle()), user, now))
      ensures announced == ActiveIds(old(sessions), user) && ActiveIds(sessions, user) - announced <= {id}
    {
      announced := ActiveIds(sessions, user);
      sessions := map k | k in sessions :: if Active(sessions, user, k) then Revoke(sessions[k]) else sessions[k];
      id := Insert(user, next, now);
    }

    /** Login of anyone else; `found` is the answer of the query for active sessions, oldest refresh first. */
    method CreateSession(user: nat, found: seq<nat>, now: int) returns (id: nat, announced: seq<nat>)
      requires IsAnswer(sessions, user, found)
      modifies this
      ensures Holds(AfterLogin(old(Idle()), user, found, now))
      ensures id == old(next) && announced == Victims(found)
    {
      announced := [];
      if |found| >= MAX_SESSIONS {
        var toEvict := found[..|found| - 4];
        var i := 0;
        while i < |toEvict|
          invariant 0 <= i <= |toEvict| && announced == toEvict[..i] && next == old(next)
          invariant sessions == RevokeAll(old(sessions), Elements(toEvict[..i]))
        {
          assert Active(old(sessions), user, found[i]);
          sessions := sessions[toEvict[i] := Revoke(sessions[toEvict[i]])];
          announced := announced + [toEvict[i]];
          assert Elements(toEvict[..i + 1]) == Elements(toEvict[..i]) + {toEvict[i]};
          i := i + 1;
        }
      }
      id := Insert(user, next, now);
    }

    /** The compare-and-set of a rotation and the successor it then creates. */
    method ClaimAndCreate(id: nat, now: int) returns (successor: Option<nat>)
      requires id in sessions
      modifies this
      ensures Holds(DoClaim(old(Idle()), 0, id, now))
      ensures successor == if old(sessions)[id].revoked then None else Some(old(next))
    {
      if sessions[id].revoked { return None; }
      var row := sessions[id];
      sessions := sessions[id := row.(revoked := true, refreshedAt := now)];
      var created := Insert(row.user, row.family, now);
      successor := Some(created);
    }

    method RevokeTokenFamily(family: nat)
      modifies this`sessions
      ensures sessions == RevokeAll(old(sessions), FamilyIds(old(sessions), family))
    {
      sessions := map k | k in sessions :: if sessions[k].family == family then Revoke(sessions[k]) else sessions[k];
    }

    /** Rotation: unknown token, reuse (and then no session of the family survives), or a successor. */
    method RotateSession(token: nat, now: int) returns (r: RotateResult)
      modifies this
      ensures Holds(AfterRotation(old(Idle()), token, now))
      ensures r.InvalidToken? <==> token !in old(sessions)
      ensures r.Rotated? <==> token in old(sessions) && !old(sessions)[token].revoked && old(sessions)[token].expiresAt > now
      ensures r.ReuseDetected? ==> forall k | k in sessions && sessions[k].family == old(sessions)[token].family :: sessions[k].revoked
      ensures r.Rotated? && Sound(old(Idle())) ==> r.id == old(next) && Succeeds(old(Idle()), Idle(), token, now)
    {
      ghost var before := Idle();
      RotateSteps(before, token, now);
      if Sound(before) { RotateAlone(before, 0, token, now); }
      if token !in sessions { return InvalidToken; }
      if sessions[token].revoked || sessions[token].expiresAt <= now {
        RevokeTokenFamily(sessions[token].family);
        return ReuseDetected;
      }
      var successor := ClaimAndCreate(token, now);
      r := Rotated(successor.value);
    }

    method RevokeSession(id: nat, user: Option<nat>) returns (revoked: bool)
      modifies this`sessions
      ensures revoked == (id in old(sessions) && (user.None? || old(sessions)[id].user == user.value))
      ensures sessions == if revoked then RevokeAll(old(sessions), {id}) else old(sessions)
    {
      if id !in sessions || (user.Some? && sessions[id].user != user.value) { return false; }
      sessions := sessions[id := Revoke(sessions[id])];
      revoked := true;
    }

    method RevokeAllUserSessions(user: nat)
      modifies this`sessions
      ensures sessions == RevokeAll(old(sessions), ActiveIds(old(sessions), user)) && ActiveIds(sessions, user) == {}
    {
      sessions := map k | k in sessions :: if Active(sessions, user, k) then Revoke(sessions[k]) else sessions[k];
    }
  }
}
