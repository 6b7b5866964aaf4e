/**
 Relay connections from join to prune, with their steps interleaved in any order.
 */
module RelayRuns {
  import opened RelayRegistry
  import Tickets

  /** Serving frames; out of its loop and unregistered; done. */
  datatype Phase = Serving | Leaving | Gone

  datatype Connection = Connection(
    room: string,
    capability: Tickets.Capability,
    user: string,
    phase: Phase,
    replaced: bool)
  {
    function Key(): string {
      RoomKey(room, capability)
    }
  }

  datatype World = World(rooms: Registry, connections: map<ConnectionId, Connection>)

  const START: World := World(map[], map[])

  datatype Action =
    | Joins(id: ConnectionId, room: string, capability: Tickets.Capability, user: string)
    | Leaves(id: ConnectionId)
    | Prunes(id: ConnectionId)

  predicate Enabled(w: World, a: Action) {
    match a
    case Joins(id, _, _, _) => id !in w.connections
    case Leaves(id) => id in w.connections && w.connections[id].phase == Serving
    case Prunes(id) => id in w.connections && w.connections[id].phase == Leaving
  }

  function Next(w: World, a: Action): World
    requires Enabled(w, a)
  {
    match a
    case Joins(id, room, capability, user) =>
      var key := RoomKey(room, capability);
      if Full(w.rooms, key, user) then w
      else
        var peers := PeersIn(w.rooms, key);
        var told :=
          if user in peers && peers[user] in w.connections
          then w.connections[peers[user] := w.connections[peers[user]].(replaced := true)]
          else w.connections;
        World(WithPeer(w.rooms, key, user, id), told[id := Connection(room, capability, user, Serving, false)])
    case Leaves(id) =>
      var c := w.connections[id];
      World(WithoutPeer(w.rooms, c.Key(), c.user, id), w.connections[id := c.(phase := Leaving)])
    case Prunes(id) =>
      var c := w.connections[id];
      World(Pruned(w.rooms, c.Key()), w.connections[id := c.(phase := Gone)])
  }

  // ---- invariant ----------------------------------------------------------------------------------

  predicate Current(w: World, id: ConnectionId) {
    id in w.connections && w.connections[id].phase == Serving && !w.connections[id].replaced
  }

  predicate IsRegistered(w: World, id: ConnectionId)
    requires id in w.connections
  {
    Registered(w.rooms, w.connections[id].Key(), w.connections[id].user, id)
  }

  ghost predicate SmallRooms(rooms: Registry) {
    forall key :: |PeersIn(rooms, key)| <= ROOM_CAPACITY
  }

  /** The registry holds exactly the connections that still serve and were not replaced. */
  ghost predicate RegistryIsCurrent(w: World) {
    && (forall key, user, id :: Registered(w.rooms, key, user, id) ==>
          Current(w, id) && w.connections[id].Key() == key && w.connections[id].user == user)
    && (forall id :: Current(w, id) ==> IsRegistered(w, id))
  }

  predicate LeavesRoom(w: World, id: ConnectionId, key: string) {
    id in w.connections && w.connections[id].phase == Leaving && w.connections[id].Key() == key
  }

  /** An empty room is about to be pruned. */
  ghost predicate EmptyRoomsArePruned(w: World) {
    forall key :: key in w.rooms && w.rooms[key] == map[] ==> exists id :: LeavesRoom(w, id, key)
  }

  ghost predicate Inv(w: World) {
    SmallRooms(w.rooms) && RegistryIsCurrent(w) && EmptyRoomsArePruned(w)
  }

  // ---- what the map steps do to registrations ------------------------------------------------------

  lemma WithPeerRegisters(rooms: Registry, key: string, user: string, id: ConnectionId)
    requires !Full(rooms, key, user)
    ensures forall k, u, i :: Registered(WithPeer(rooms, key, user, id), k, u, i) <==>
      if k == key && u == user then i == id else Registered(rooms, k, u, i)
  {
  }

  lemma WithoutPeerUnregisters(rooms: Registry, key: string, user: string, id: ConnectionId)
    ensures forall k, u, i :: Registered(WithoutPeer(rooms, key, user, id), k, u, i) <==>
      Registered(rooms, k, u, i) && !(k == key && u == user && i == id)
  {
  }

  lemma PruningKeepsRegistrations(rooms: Registry, key: string)
    ensures forall k, u, i :: Registered(Pruned(rooms, key), k, u, i) <==> Registered(rooms, k, u, i)
  {
  }

  lemma StepsKeepRoomsSmall(w: World, a: Action)
    requires Enabled(w, a) && SmallRooms(w.rooms)
    ensures SmallRooms(Next(w, a).rooms)
  {
    var rooms := Next(w, a).rooms;
    forall key ensures |PeersIn(rooms, key)| <= ROOM_CAPACITY {
      var before, after := PeersIn(w.rooms, key), PeersIn(rooms, key);
      assert |before| <= ROOM_CAPACITY;
      if a.Leaves? {
        var c := w.connections[a.id];
        if after != before {
          assert after == before - {c.user};
          assert before.Keys == after.Keys + {c.user} && |before.Keys| == |after.Keys| + 1;
        }
      }
    }
  }

  lemma JoinKeepsRegistry(w: World, a: Action)
    requires RegistryIsCurrent(w) && Enabled(w, a) && a.Joins?
    ensures RegistryIsCurrent(Next(w, a))
  {
    hide WithPeer, RoomKey;
    var key, after := RoomKey(a.room, a.capability), Next(w, a);
    if !Full(w.rooms, key, a.user) {
      WithPeerRegisters(w.rooms, key, a.user, a.id);
      var peers := PeersIn(w.rooms, key);
      assert a.user in peers ==> Registered(w.rooms, key, a.user, peers[a.user]);
      forall k, u, i | Registered(after.rooms, k, u, i)
        ensures Current(after, i) && after.connections[i].Key() == k && after.connections[i].user == u
      {
        if k != key || u != a.user {
          assert Registered(w.rooms, k, u, i);
        }
      }
      forall i | Current(after, i) ensures IsRegistered(after, i) {
        if i != a.id {
          assert Current(w, i) && IsRegistered(w, i);
        }
      }
    }
  }

  lemma LeaveKeepsRegistry(w: World, a: Action)
    requires RegistryIsCurrent(w) && Enabled(w, a) && !a.Joins?
    ensures RegistryIsCurrent(Next(w, a))
  {
    hide WithoutPeer, Pruned, RoomKey;
    var after := Next(w, a);
    WithoutPeerUnregisters(w.rooms, w.connections[a.id].Key(), w.connections[a.id].user, a.id);
    PruningKeepsRegistrations(w.rooms, w.connections[a.id].Key());
    forall k, u, i | Registered(after.rooms, k, u, i)
      ensures Current(after, i) && after.connections[i].Key() == k && after.connections[i].user == u
    {
      assert Registered(w.rooms, k, u, i);
    }
    forall i | Current(after, i) ensures IsRegistered(after, i) {
      assert Current(w, i) && IsRegistered(w, i);
    }
  }

  lemma StepsKeepEmptyRoomsPruned(w: World, a: Action)
    requires EmptyRoomsArePruned(w) && RegistryIsCurrent(w) && Enabled(w, a)
    ensures EmptyRoomsArePruned(Next(w, a))
  {
    hide RoomKey;
    var after := Next(w, a);
    forall key | key in after.rooms && after.rooms[key] == map[] ensures exists id :: LeavesRoom(after, id, key) {
      if key in w.rooms && w.rooms[key] == map[] {
        var id :| LeavesRoom(w, id, key);
        assert LeavesRoom(after, id, key);
      } else {
        assert LeavesRoom(after, a.id, key);
      }
    }
  }

  lemma StepsKeepInv(w: World, a: Action)
    requires Inv(w) && Enabled(w, a)
    ensures Inv(Next(w, a))
  {
    hide SmallRooms, RegistryIsCurrent, EmptyRoomsArePruned, Next;
    StepsKeepRoomsSmall(w, a);
    StepsKeepEmptyRoomsPruned(w, a);
    if a.Joins? {
      JoinKeepsRegistry(w, a);
    } else {
      LeaveKeepsRegistry(w, a);
    }
  }

  // ---- runs -----------------------------------------------------------------------------------------

  predicate EnabledAll(w: World, run: seq<Action>)
    decreases |run|
  {
    run == [] || (Enabled(w, run[0]) && EnabledAll(Next(w, run[0]), run[1..]))
  }

  function After(w: World, run: seq<Action>): World
    requires EnabledAll(w, run)
    decreases |run|
  {
    if run == [] then w else After(Next(w, run[0]), run[1..])
  }

  lemma {:induction false} RunsKeepInv(w: World, run: seq<Action>)
    requires Inv(w) && EnabledAll(w, run)
    ensures Inv(After(w, run))
    decreases |run|
  {
    hide Inv, Next;
    if run != [] {
      StepsKeepInv(w, run[0]);
      RunsKeepInv(Next(w, run[0]), run[1..]);
    }
  }

  lemma StartIsGood()
    ensures Inv(START)
  {
  }

  lemma RoomsHaveConnections(w: World)
    requires Inv(w) && w.rooms != map[]
    ensures exists c :: c in w.connections && w.connections[c].phase != Gone
  {
    var k :| k in w.rooms;
    if w.rooms[k] == map[] {
      var c :| LeavesRoom(w, c, k);
      assert w.connections[c].phase == Leaving;
    } else {
      var u :| u in w.rooms[k];
      assert Registered(w.rooms, k, u, w.rooms[k][u]);
    }
  }

  /**
   Under every interleaving: no room holds more than two users, a connection is in the registry
   exactly while it serves and was not replaced, and once every connection is gone so is every room.
   */
  lemma RelayIsSafe(run: seq<Action>, id: ConnectionId, key: string)
    requires EnabledAll(START, run)
    ensures var w := After(START, run);
            && |PeersIn(w.rooms, key)| <= ROOM_CAPACITY
            && (id in w.connections ==> (IsRegistered(w, id) <==> Current(w, id)))
            && ((forall c :: c in w.connections ==> w.connections[c].phase == Gone) ==> w.rooms == map[])
  {
    hide EnabledAll, After;
    StartIsGood();
    RunsKeepInv(START, run);
    if After(START, run).rooms != map[] {
      RoomsHaveConnections(After(START, run));
    }
  }

  /** A replaced connection's clean-up leaves every registration, its replacement's first, in place. */
  lemma ReplacedCleanupIsHarmless(w: World, id: ConnectionId, key: string, user: string, other: ConnectionId)
    requires Inv(w) && id in w.connections && w.connections[id].replaced
    requires Enabled(w, Leaves(id)) || Enabled(w, Prunes(id))
    ensures var a := if Enabled(w, Leaves(id)) then Leaves(id) else Prunes(id);
            Registered(Next(w, a).rooms, key, user, other) <==> Registered(w.rooms, key, user, other)
  {
    hide RoomKey, WithoutPeer, Pruned;
    var c := w.connections[id];
    assert !Current(w, id);
    WithoutPeerUnregisters(w.rooms, c.Key(), c.user, id);
    PruningKeepsRegistrations(w.rooms, c.Key());
  }

  /** A current connection stays registered until its user joins again there or it leaves itself. */
  lemma CurrentStaysUntil(w: World, a: Action, id: ConnectionId)
    requires Inv(w) && Enabled(w, a) && Current(w, id)
    ensures var c := w.connections[id];
            var replacing := a.Joins? && RoomKey(a.room, a.capability) == c.Key() && a.user == c.user;
            Registered(Next(w, a).rooms, c.Key(), c.user, id) <==> a != Leaves(id) && !replacing
  {
    hide RoomKey, WithoutPeer, WithPeer, Pruned;
    assert IsRegistered(w, id);
    if a.Joins? {
      if !Full(w.rooms, RoomKey(a.room, a.capability), a.user) {
        WithPeerRegisters(w.rooms, RoomKey(a.room, a.capability), a.user, a.id);
      }
    } else {
      var c := w.connections[a.id];
      WithoutPeerUnregisters(w.rooms, c.Key(), c.user, a.id);
      PruningKeepsRegistrations(w.rooms, c.Key());
    }
  }

  // ---- whom a frame reaches ---------------------------------------------------------------------------

  lemma CapabilityNamesDiffer(c: Tickets.Capability)
    ensures |c.Name()| == (if c == Tickets.ProbeCapability then 5 else 17) && ':' !in c.Name()
  {
  }

  lemma ColonInside(x: string, n: string, y: string, m: string)
    requires x + ":" + n == y + ":" + m && |n| < |m|
    ensures ':' in m
  {
    assert (x + ":" + n)[|x|] == ':';
    assert (y + ":" + m)[|x|] == m[|x| - |y| - 1];
  }

  /** The room and the capability can be read back from a registry key, whatever the room's name. */
  lemma RoomKeysAreInjective(r: string, c: Tickets.Capability, s: string, d: Tickets.Capability)
    requires RoomKey(r, c) == RoomKey(s, d)
    ensures r == s && c == d
  {
    CapabilityNamesDiffer(c);
    CapabilityNamesDiffer(d);
    hide Tickets.Capability.Name;
    if |c.Name()| < |d.Name()| {
      ColonInside(r, c.Name(), s, d.Name());
    } else if |d.Name()| < |c.Name()| {
      ColonInside(s, d.Name(), r, c.Name());
    } else {
      assert r == RoomKey(r, c)[..|r|] == s;
    }
  }

  /**
   A frame of a registered connection goes to one connection at most: the current one of the
   other user in the same room with the same capability.
   */
  lemma FramesReachTheOtherPeer(w: World, id: ConnectionId)
    requires Inv(w) && Current(w, id)
    ensures var c := w.connections[id];
            && |Recipients(w.rooms, c.Key(), id)| <= 1
            && (forall d :: d in Recipients(w.rooms, c.Key(), id) ==>
                  && Current(w, d) && w.connections[d].room == c.room && w.connections[d].capability == c.capability
                  && w.connections[d].user != c.user)
  {
    var c := w.connections[id];
    var peers := PeersIn(w.rooms, c.Key());
    var others := Recipients(w.rooms, c.Key(), id);
    assert IsRegistered(w, id);
    forall d | d in others
      ensures Current(w, d) && w.connections[d].room == c.room && w.connections[d].capability == c.capability
      ensures w.connections[d].user != c.user && w.connections[d].user in peers && peers[w.connections[d].user] == d
    {
      var user :| user in peers && peers[user] != id && peers[user] == d;
      assert Registered(w.rooms, c.Key(), user, d);
      RoomKeysAreInjective(w.connections[d].room, w.connections[d].capability, c.room, c.capability);
    }
    AtMostOneOther(w, c, id, others);
  }

  lemma ThreeUsers(peers: map<string, ConnectionId>, u: string, v: string, x: string)
    requires u in peers && v in peers && x in peers && u != v && v != x && u != x
    ensures |peers| >= 3
  {
    assert |{u, v, x}| == 3;
    assert peers.Keys == {u, v, x} + (peers.Keys - {u, v, x});
  }

  lemma AtMostOneOther(w: World, c: Connection, id: ConnectionId, others: set<ConnectionId>)
    requires SmallRooms(w.rooms) && Registered(w.rooms, c.Key(), c.user, id)
    requires forall d :: d in others ==>
      && d in w.connections && w.connections[d].user != c.user
      && w.connections[d].user in PeersIn(w.rooms, c.Key())
      && PeersIn(w.rooms, c.Key())[w.connections[d].user] == d
    ensures |others| <= 1
  {
    if |others| > 1 {
      var d :| d in others;
      assert others != {d};
      var e :| e in others && e != d;
      ThreeUsers(PeersIn(w.rooms, c.Key()), c.user, w.connections[d].user, w.connections[e].user);
    }
  }

  /** A frame comes back to its sender's own user exactly when the sender was replaced and the replacement is there. */
  lemma FramesReturnExactlyWhen(w: World, id: ConnectionId)
    requires Inv(w) && id in w.connections && w.connections[id].phase == Serving
    ensures var c := w.connections[id];
            (exists d :: d in Recipients(w.rooms, c.Key(), id) && Current(w, d) && w.connections[d].user == c.user)
            <==> c.replaced && c.user in PeersIn(w.rooms, c.Key())
  {
    var c := w.connections[id];
    var peers := PeersIn(w.rooms, c.Key());
    if c.replaced && c.user in peers {
      var d := peers[c.user];
      assert Registered(w.rooms, c.Key(), c.user, d);
      assert d in Recipients(w.rooms, c.Key(), id);
    }
    if !c.replaced {
      FramesReachTheOtherPeer(w, id);
    }
    forall d | d in Recipients(w.rooms, c.Key(), id) && Current(w, d) && w.connections[d].user == c.user
      ensures c.user in peers
    {
      var user :| user in peers && peers[user] == d;
      assert Registered(w.rooms, c.Key(), user, d);
    }
  }
}
