/**
The socket connection manager: five indexes kept by hand, and the one map of live sockets they refine.

An insertion-ordered Set of ids is a sequence without repetitions. The empty string stands for every falsy key
(undefined, null, ""). A socket is its id and the identity data bound to it at the handshake.
*/
module Connections {
  import opened Collections
  import opened Wrappers

  datatype Data = Data(userId: string, sessionId: string, deviceId: string, driverId: string, role: string)

  datatype Kind = ByUser | BySession | ByDevice

  type Index = map<string, seq<string>>

  datatype Conns = Conns(sockets: map<string, Data>, users: Index, sessions: Index, devices: Index, drivers: map<string, string>)

  function KeyOf(kind: Kind, d: Data): string {
    match kind
    case ByUser => d.userId
    case BySession => d.sessionId
    case ByDevice => d.deviceId
  }

  function IndexOf(c: Conns, kind: Kind): Index {
    match kind
    case ByUser => c.users
    case BySession => c.sessions
    case ByDevice => c.devices
  }

  // ---- One index

  function Drop(ids: seq<string>, id: string): (r: seq<string>) {
    if ids == [] then [] else (if ids[0] == id then [] else [ids[0]]) + Drop(ids[1..], id)
  }

  function Add(index: Index, key: string, id: string): Index {
    if key == "" then index
    else if key !in index then index[key := [id]]
    else if id in index[key] then index
    else index[key := index[key] + [id]]
  }

  function Delete(index: Index, key: string, id: string): Index {
    if key == "" || key !in index then index
    else
      var rest := Drop(index[key], id);
      if rest == [] then index - {key} else index[key := rest]
  }

  /** One entry lists exactly the live sockets that carry its key, each once. */
  ghost predicate EntryRight(index: Index, sockets: map<string, Data>, kind: Kind, key: string) {
    if key in index then
      && Distinct(index[key]) && index[key] != [] && key != ""
      && (forall id | id in index[key] :: id in sockets && KeyOf(kind, sockets[id]) == key)
      && (forall id | id in sockets && KeyOf(kind, sockets[id]) == key :: id in index[key])
    else forall id | id in sockets && KeyOf(kind, sockets[id]) == key :: key == ""
  }

  /** The index refines the live map: every key's entry is right, and no empty entry is kept. */
  ghost predicate Refines(index: Index, sockets: map<string, Data>, kind: Kind) {
    forall key :: EntryRight(index, sockets, kind, key)
  }

  lemma {:induction false} DropExact(ids: seq<string>, id: string)
    ensures forall x :: x in Drop(ids, id) <==> x in ids && x != id
    ensures Distinct(ids) ==> Distinct(Drop(ids, id))
    ensures id !in ids ==> Drop(ids, id) == ids
  {
    if ids != [] {
      DropExact(ids[1..], id);
      assert ids == [ids[0]] + ids[1..];
      if Distinct(ids) {
        assert forall k | 0 <= k < |ids| - 1 :: ids[1..][k] == ids[k + 1] != ids[0];
        assert ids[0] !in Drop(ids[1..], id);
      }
    }
  }

  lemma AddRefines(index: Index, sockets: map<string, Data>, kind: Kind, id: string, data: Data)
    requires Refines(index, sockets, kind) && (id in sockets ==> sockets[id] == data)
    ensures Refines(Add(index, KeyOf(kind, data), id), sockets[id := data], kind)
  {
    var after, live := Add(index, KeyOf(kind, data), id), sockets[id := data];
    forall key ensures EntryRight(after, live, kind, key) {
      assert EntryRight(index, sockets, kind, key);
    }
  }

  lemma DeleteRefines(index: Index, sockets: map<string, Data>, kind: Kind, id: string)
    requires Refines(index, sockets, kind) && id in sockets
    ensures Refines(Delete(index, KeyOf(kind, sockets[id]), id), sockets - {id}, kind)
  {
    var k := KeyOf(kind, sockets[id]);
    var after, live := Delete(index, k, id), sockets - {id};
    forall key ensures EntryRight(after, live, kind, key) {
      assert EntryRight(index, sockets, kind, key);
      if key in index { DropExact(index[key], id); }
      if key == k && key in index && key !in after {
        forall x | x in index[key] ensures x == id { assert x !in Drop(index[key], id); }
      }
    }
  }

  // ---- The manager's operations

  function Remove(c: Conns, id: string): Conns {
    if id !in c.sockets then c
    else
      var d := c.sockets[id];
      Conns(c.sockets - {id},
            Delete(c.users, d.userId, id),
            Delete(c.sessions, d.sessionId, id),
            Delete(c.devices, d.deviceId, id),
            if d.driverId != "" && d.driverId in c.drivers && c.drivers[d.driverId] == id
            then c.drivers - {d.driverId} else c.drivers)
  }

  /** The older live socket a driver's new one pushes out. */
  function Superseded(c: Conns, id: string, d: Data): Option<string> {
    if d.role == "DRIVER" && d.driverId != "" && d.driverId in c.drivers
       && c.drivers[d.driverId] != "" && c.drivers[d.driverId] != id && c.drivers[d.driverId] in c.sockets
    then Some(c.drivers[d.driverId]) else None
  }

  function Insert(c: Conns, id: string, d: Data): Conns {
    Conns(c.sockets[id := d],
          Add(c.users, d.userId, id),
          Add(c.sessions, d.sessionId, id),
          Add(c.devices, d.deviceId, id),
          if d.driverId != "" then c.drivers[d.driverId := id] else c.drivers)
  }

  function Register(c: Conns, id: string, d: Data): Conns {
    if d.userId == "" then c
    else
      var older := Superseded(c, id, d);
      Insert(if older.Some? then Remove(c, older.value) else c, id, d)
  }

  function RemoveEach(c: Conns, ids: seq<string>): Conns
    decreases ids
  {
    if ids == [] then c else RemoveEach(Remove(c, ids[0]), ids[1..])
  }

  function Lookup(c: Conns, kind: Kind, key: string): seq<string> {
    if key in IndexOf(c, kind) then IndexOf(c, kind)[key] else []
  }

  // ---- The invariant

  /** A driver entry points at a live socket of that driver. */
  ghost predicate DriversRight(c: Conns) {
    forall d | d in c.drivers :: d != "" && c.drivers[d] in c.sockets && c.sockets[c.drivers[d]].driverId == d
  }

  ghost predicate Valid(c: Conns) {
    && (forall kind :: Refines(IndexOf(c, kind), c.sockets, kind))
    && DriversRight(c)
  }

  const NO_SOCKETS := Conns(map[], map[], map[], map[], map[])

  lemma RemoveValid(c: Conns, id: string)
    requires Valid(c)
    ensures Valid(Remove(c, id)) && Remove(c, id).sockets == c.sockets - {id}
  {
    if id in c.sockets {
      forall kind ensures Refines(IndexOf(Remove(c, id), kind), c.sockets - {id}, kind) {
        DeleteRefines(IndexOf(c, kind), c.sockets, kind, id);
      }
    } else {
      assert c.sockets - {id} == c.sockets;
    }
  }

  lemma InsertValid(c: Conns, id: string, d: Data)
    requires Valid(c) && (id in c.sockets ==> c.sockets[id] == d)
    ensures Valid(Insert(c, id, d))
  {
    forall kind ensures Refines(IndexOf(Insert(c, id, d), kind), c.sockets[id := d], kind) {
      AddRefines(IndexOf(c, kind), c.sockets, kind, id, d);
    }
  }

  /** Registering adds one live socket and removes at most the superseded one. */
  lemma RegisterValid(c: Conns, id: string, d: Data)
    requires Valid(c) && (id in c.sockets ==> c.sockets[id] == d)
    ensures Valid(Register(c, id, d))
    ensures d.userId != "" ==>
              var s := Superseded(c, id, d);
              Register(c, id, d).sockets == (c.sockets - if s.Some? then {s.value} else {})[id := d]
  {
    var s := Superseded(c, id, d);
    if s.Some? {
      RemoveValid(c, s.value);
      InsertValid(Remove(c, s.value), id, d);
    } else {
      InsertValid(c, id, d);
      assert c.sockets - {} == c.sockets;
    }
  }

  /** A socket without a user is not registered. Any other is live with its data and is its driver's, and of the sockets
      that were live before exactly one can go: the one the same driver had, when the new one is a DRIVER's. */
  lemma RegisterLeaves(c: Conns, id: string, d: Data)
    requires Valid(c) && (id in c.sockets ==> c.sockets[id] == d)
    ensures d.userId == "" ==> Register(c, id, d) == c
    ensures d.userId != "" ==>
              var t := Register(c, id, d);
              && id in t.sockets && t.sockets[id] == d
              && (d.driverId != "" ==> d.driverId in t.drivers && t.drivers[d.driverId] == id)
              && (forall x | x in t.sockets && x != id :: x in c.sockets && t.sockets[x] == c.sockets[x])
              && (forall x | x in c.sockets && x !in t.sockets ::
                    x != id && d.role == "DRIVER" && d.driverId in c.drivers && c.drivers[d.driverId] == x)
              && (d.role == "DRIVER" && d.driverId != "" && d.driverId in c.drivers ==>
                    c.drivers[d.driverId] in {"", id} || c.drivers[d.driverId] !in t.sockets)
  {
    RegisterValid(c, id, d);
  }

  /** A lookup lists exactly the live sockets that carry the key. */
  lemma LookupExact(c: Conns, kind: Kind, key: string)
    requires Valid(c) && key != ""
    ensures Distinct(Lookup(c, kind, key))
    ensures forall id :: id in Lookup(c, kind, key) <==> id in c.sockets && KeyOf(kind, c.sockets[id]) == key
  {
    assert EntryRight(IndexOf(c, kind), c.sockets, kind, key);
  }

  /** Users, sessions and devices are looked up by the field of that name. */
  lemma LookupByField(c: Conns, key: string, id: string)
    requires Valid(c) && key != ""
    ensures id in Lookup(c, ByUser, key) <==> id in c.sockets && c.sockets[id].userId == key
    ensures id in Lookup(c, BySession, key) <==> id in c.sockets && c.sockets[id].sessionId == key
    ensures id in Lookup(c, ByDevice, key) <==> id in c.sockets && c.sockets[id].deviceId == key
  {
    LookupExact(c, ByUser, key);
    LookupExact(c, BySession, key);
    LookupExact(c, ByDevice, key);
  }

  lemma {:induction false} RemoveEachValid(c: Conns, ids: seq<string>)
    requires Valid(c)
    ensures Valid(RemoveEach(c, ids)) && RemoveEach(c, ids).sockets == c.sockets - (set id | id in ids)
    decreases ids
  {
    if ids == [] {
      assert c.sockets - {} == c.sockets;
    } else {
      RemoveValid(c, ids[0]);
      RemoveEachValid(Remove(c, ids[0]), ids[1..]);
      assert (set id | id in ids) == {ids[0]} + (set id | id in ids[1..]);
    }
  }

  /** Disconnecting by a key leaves exactly the live sockets without it. */
  lemma DisconnectExact(c: Conns, kind: Kind, key: string)
    requires Valid(c) && key != ""
    ensures var t := RemoveEach(c, Lookup(c, kind, key));
      && Valid(t)
      && forall id :: id in t.sockets <==> id in c.sockets && KeyOf(kind, c.sockets[id]) != key
  {
    LookupExact(c, kind, key);
    RemoveEachValid(c, Lookup(c, kind, key));
  }

  // ---- Runs

  datatype Op =
    | RegisterOp(id: string, data: Data)
    | RemoveOp(id: string)
    | DisconnectOp(kind: Kind, key: string)

  function Apply(c: Conns, op: Op): Conns {
    match op
    case RegisterOp(id, d) => Register(c, id, d)
    case RemoveOp(id) => Remove(c, id)
    case DisconnectOp(kind, key) => RemoveEach(c, Lookup(c, kind, key))
  }

  function ApplyAll(c: Conns, ops: seq<Op>): Conns
    decreases ops
  {
    if ops == [] then c else ApplyAll(Apply(c, ops[0]), ops[1..])
  }

  /** A socket keeps the identity data of its handshake: registering a live one again does not change it. */
  predicate KeepsData(c: Conns, op: Op) {
    op.RegisterOp? && op.id in c.sockets ==> c.sockets[op.id] == op.data
  }

  predicate AllKeepData(c: Conns, ops: seq<Op>)
    decreases ops
  {
    ops == [] || (KeepsData(c, ops[0]) && AllKeepData(Apply(c, ops[0]), ops[1..]))
  }

  lemma ApplyValid(c: Conns, op: Op)
    requires Valid(c) && KeepsData(c, op)
    ensures Valid(Apply(c, op))
  {
    match op
    case RegisterOp(id, d) => RegisterValid(c, id, d);
    case RemoveOp(id) => RemoveValid(c, id);
    case DisconnectOp(kind, key) => RemoveEachValid(c, Lookup(c, kind, key));
  }

  /** After any run, whatever roles and driver ids the sockets have, the five indexes agree with the live sockets. */
  lemma {:induction false} RunValid(c: Conns, ops: seq<Op>)
    requires Valid(c) && AllKeepData(c, ops)
    ensures Valid(ApplyAll(c, ops))
    decreases ops
  {
    if ops != [] {
      ApplyValid(c, ops[0]);
      RunValid(Apply(c, ops[0]), ops[1..]);
    }
  }

  // ---- The service

  class Manager {
    var sockets: map<string, Data>
    var userSockets: Index
    var sessionSockets: Index
    var deviceSockets: Index
    var driverSockets: map<string, string>

    ghost function View(): Conns
      reads this
    {
      Conns(sockets, userSockets, sessionSockets, deviceSockets, driverSockets)
    }

    constructor ()
      ensures View() == NO_SOCKETS
    {
      sockets, userSockets, sessionSockets, deviceSockets, driverSockets := map[], map[], map[], map[], map[];
    }

    method RemoveSocket(id: string)
      modifies this
      ensures View() == Remove(old(View()), id)
    {
      if id !in sockets { return; }
      var data := sockets[id];
      if data.userId != "" && data.userId in userSockets {
        var rest := Drop(userSockets[data.userId], id);
        userSockets := if rest == [] then userSockets - {data.userId} else userSockets[data.userId := rest];
      }
      sessionSockets := Delete(sessionSockets, data.sessionId, id);
      deviceSockets := Delete(deviceSockets, data.deviceId, id);
      if data.driverId != "" && data.driverId in driverSockets && driverSockets[data.driverId] == id {
        driverSockets := driverSockets - {data.driverId};
      }
      sockets := sockets - {id};
    }

    method MapUser(userId: string, id: string)
      requires userId != ""
      modifies this`userSockets
      ensures userSockets == Add(old(userSockets), userId, id)
    {
      if userId !in userSockets { userSockets := userSockets[userId := []]; }
      if id !in userSockets[userId] {
        userSockets := userSockets[userId := userSockets[userId] + [id]];
      }
      assert [] + [id] == [id];
    }

    /** `superseded` is the socket that is told to go and disconnected. */
    method RegisterSocket(id: string, data: Data) returns (superseded: Option<string>)
      modifies this
      ensures View() == Register(old(View()), id, data)
      ensures superseded == if data.userId == "" then None else Superseded(old(View()), id, data)
    {
      superseded := None;
      if data.userId == "" { return; }
      if data.role == "DRIVER" && data.driverId != "" && data.driverId in driverSockets {
        var existing := driverSockets[data.driverId];
        if existing != "" && existing != id && existing in sockets {
          superseded := Some(existing);
          RemoveSocket(existing);
        }
      }
      sockets := sockets[id := data];
      MapUser(data.userId, id);
      sessionSockets := Add(sessionSockets, data.sessionId, id);
      deviceSockets := Add(deviceSockets, data.deviceId, id);
      if data.driverId != "" { driverSockets := driverSockets[data.driverId := id]; }
    }

    /** Live sockets under a key; ids that are no longer live are filtered out, of which a valid manager has none. */
    method GetSockets(kind: Kind, key: string) returns (found: seq<string>)
      requires Valid(View())
      ensures found == Lookup(View(), kind, key)
    {
      var index := if kind == ByUser then userSockets else if kind == BySession then sessionSockets else deviceSockets;
      found := [];
      if key !in index { return; }
      assert EntryRight(IndexOf(View(), kind), sockets, kind, key);
      for i := 0 to |index[key]|
        invariant found == index[key][..i]
      {
        if index[key][i] in sockets { found := found + [index[key][i]]; }
      }
    }

    /** disconnectUser, disconnectSession and disconnectDevice: every live socket under the key is removed. */
    method Disconnect(kind: Kind, key: string) returns (count: nat)
      requires Valid(View())
      modifies this
      ensures View() == RemoveEach(old(View()), Lookup(old(View()), kind, key))
      ensures count == |Lookup(old(View()), kind, key)| && Valid(View())
    {
      var found := GetSockets(kind, key);
      var i := 0;
      while i < |found|
        invariant 0 <= i <= |found|
        invariant RemoveEach(View(), found[i..]) == RemoveEach(old(View()), found)
      {
        assert found[i..][0] == found[i] && found[i..][1..] == found[i + 1..];
        RemoveSocket(found[i]);
        i := i + 1;
      }
      count := |found|;
      RemoveEachValid(old(View()), found);
    }
  }
}
