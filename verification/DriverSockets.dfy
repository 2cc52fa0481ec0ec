/** One live socket per driver: exactly which registrations break it. */
module DriverSockets {
  import opened Connections

  /** Each live socket with a driver id is its driver's registered one. */
  ghost predicate Registered(c: Conns) {
    forall id | id in c.sockets && c.sockets[id].driverId != "" ::
      c.sockets[id].driverId in c.drivers && c.drivers[c.sockets[id].driverId] == id
  }

  predicate Shares(c: Conns, a: string, b: string) {
    a in c.sockets && b in c.sockets && a != b && c.sockets[a].driverId != "" && c.sockets[a].driverId == c.sockets[b].driverId
  }

  /** Some driver has two live sockets. */
  ghost predicate TwoLive(c: Conns) {
    exists a, b | a in c.sockets && b in c.sockets :: Shares(c, a, b)
  }

  /** A registration that brings a driver id without the DRIVER role, while another live socket has that driver id. */
  predicate SlipsPast(c: Conns, op: Op) {
    && op.RegisterOp? && op.data.userId != "" && op.data.driverId != "" && op.data.role != "DRIVER"
    && exists other | other in c.sockets :: other != op.id && c.sockets[other].driverId == op.data.driverId
  }

  /** A superseded socket is gone at once, and its own late removal then changes nothing. */
  lemma LateRemovalIsHarmless(c: Conns, id: string, d: Data)
    requires Valid(c) && (id in c.sockets ==> c.sockets[id] == d) && Superseded(c, id, d).Some? && d.userId != ""
    ensures var t := Register(c, id, d); var gone := Superseded(c, id, d).value;
      gone !in t.sockets && Remove(t, gone) == t && t.drivers[d.driverId] == id
  {
    RegisterValid(c, id, d);
  }

  /** A registration that slips past leaves two live sockets of one driver; any other leaves each one registered. */
  lemma RegisterExactly(c: Conns, id: string, d: Data)
    requires Valid(c) && Registered(c) && KeepsData(c, RegisterOp(id, d)) && "" !in c.sockets
    ensures SlipsPast(c, RegisterOp(id, d)) ==> TwoLive(Register(c, id, d))
    ensures !SlipsPast(c, RegisterOp(id, d)) ==> Registered(Register(c, id, d))
  {
    RegisterValid(c, id, d);
    var t := Register(c, id, d);
    if SlipsPast(c, RegisterOp(id, d)) {
      var other :| other in c.sockets && other != id && c.sockets[other].driverId == d.driverId;
      assert Shares(t, id, other);
    }
  }

  lemma {:induction false} RemoveEachRegistered(c: Conns, ids: seq<string>)
    requires Registered(c)
    ensures Registered(RemoveEach(c, ids)) && RemoveEach(c, ids).sockets.Keys <= c.sockets.Keys
    decreases ids
  {
    if ids != [] {
      assert Registered(Remove(c, ids[0]));
      RemoveEachRegistered(Remove(c, ids[0]), ids[1..]);
    }
  }

  lemma ApplyExactly(c: Conns, op: Op)
    requires Valid(c) && Registered(c) && KeepsData(c, op) && "" !in c.sockets && (op.RegisterOp? ==> op.id != "")
    ensures "" !in Apply(c, op).sockets
    ensures TwoLive(Apply(c, op)) <==> SlipsPast(c, op)
    ensures !SlipsPast(c, op) ==> Registered(Apply(c, op))
  {
    match op {
      case RegisterOp(id, d) =>
        RegisterValid(c, id, d);
        RegisterExactly(c, id, d);
      case RemoveOp(id) => RemoveEachRegistered(c, [id]);
      case DisconnectOp(kind, key) => RemoveEachRegistered(c, Lookup(c, kind, key));
    }
  }

  ghost predicate EverTwoLive(c: Conns, ops: seq<Op>)
    decreases ops
  {
    TwoLive(c) || (ops != [] && EverTwoLive(Apply(c, ops[0]), ops[1..]))
  }

  predicate HasSlip(c: Conns, ops: seq<Op>)
    decreases ops
  {
    ops != [] && (SlipsPast(c, ops[0]) || HasSlip(Apply(c, ops[0]), ops[1..]))
  }

  /** Over any run a driver ever has two live sockets if and only if a registration slips past. Socket ids are not empty. */
  lemma {:induction false} TwoLiveExactly(c: Conns, ops: seq<Op>)
    requires Valid(c) && Registered(c) && "" !in c.sockets
    requires AllKeepData(c, ops) && forall op | op in ops && op.RegisterOp? :: op.id != ""
    ensures EverTwoLive(c, ops) <==> HasSlip(c, ops)
    decreases ops
  {
    if ops != [] {
      assert ops[0] in ops;
      ApplyValid(c, ops[0]);
      ApplyExactly(c, ops[0]);
      if SlipsPast(c, ops[0]) {
        assert EverTwoLive(Apply(c, ops[0]), ops[1..]);
      } else {
        TwoLiveExactly(Apply(c, ops[0]), ops[1..]);
      }
    }
  }

  predicate DriverIdNeedsRole(op: Op) {
    op.RegisterOp? && op.data.driverId != "" ==> op.data.role == "DRIVER"
  }

  lemma {:induction false} RolesDoNotSlip(c: Conns, ops: seq<Op>)
    requires forall op | op in ops :: DriverIdNeedsRole(op)
    ensures !HasSlip(c, ops)
    decreases ops
  {
    if ops != [] {
      assert ops[0] in ops;
      RolesDoNotSlip(Apply(c, ops[0]), ops[1..]);
    }
  }

  lemma {:induction false} NeverAtEnd(c: Conns, ops: seq<Op>)
    requires !EverTwoLive(c, ops)
    ensures !TwoLive(ApplyAll(c, ops))
    decreases ops
  {
    if ops != [] { NeverAtEnd(Apply(c, ops[0]), ops[1..]); }
  }

  /** With driver ids on DRIVER sockets only, no driver ever has two live sockets. */
  lemma DriverSocketUnique(ops: seq<Op>)
    requires AllKeepData(NO_SOCKETS, ops) && forall op | op in ops && op.RegisterOp? :: op.id != ""
    requires forall op | op in ops :: DriverIdNeedsRole(op)
    ensures !TwoLive(ApplyAll(NO_SOCKETS, ops))
  {
    RolesDoNotSlip(NO_SOCKETS, ops);
    TwoLiveExactly(NO_SOCKETS, ops);
    NeverAtEnd(NO_SOCKETS, ops);
  }

  /** A driver id on a socket of another role does slip past: two live sockets, one driver. */
  lemma OtherRoleSlipsPast()
    ensures var ops := [RegisterOp("a", Data("u", "s", "d", "drv", "OWNER")), RegisterOp("b", Data("u", "s", "d", "drv", "OWNER"))];
            var s := ApplyAll(NO_SOCKETS, ops).sockets;
            "a" in s && "b" in s && s["a"].driverId == s["b"].driverId == "drv"
  {
    var x := Data("u", "s", "d", "drv", "OWNER");
    var c1 := Register(NO_SOCKETS, "a", x);
    var c2 := Register(c1, "b", x);
    assert ApplyAll(c1, [RegisterOp("b", x)]) == c2;
  }
}
