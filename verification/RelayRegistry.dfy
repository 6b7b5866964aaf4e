/**
 The relay's registry of connections: joining, replacing, leaving and broadcasting, step by step
 and interleaved at will.
 */
module RelayRegistry {
  import opened Text
  import Tickets

  type ConnectionId = nat

  type Registry = map<string, map<string, ConnectionId>>

  const ROOM_CAPACITY: nat := 2

  // ---- one locked step on the map ----------------------------------------------------------------

  function RoomKey(room: string, capability: Tickets.Capability): string {
    room + ":" + capability.Name()
  }

  function PeersIn(rooms: Registry, key: string): map<string, ConnectionId> {
    if key in rooms then rooms[key] else map[]
  }

  predicate Full(rooms: Registry, key: string, user: string) {
    |PeersIn(rooms, key)| >= ROOM_CAPACITY && user !in PeersIn(rooms, key)
  }

  function WithPeer(rooms: Registry, key: string, user: string, id: ConnectionId): Registry {
    if Full(rooms, key, user) then rooms else rooms[key := PeersIn(rooms, key)[user := id]]
  }

  predicate Registered(rooms: Registry, key: string, user: string, id: ConnectionId) {
    key in rooms && user in rooms[key] && rooms[key][user] == id
  }

  function WithoutPeer(rooms: Registry, key: string, user: string, id: ConnectionId): Registry {
    if Registered(rooms, key, user, id) then rooms[key := rooms[key] - {user}] else rooms
  }

  function Pruned(rooms: Registry, key: string): Registry {
    if key in rooms && rooms[key] == map[] then rooms - {key} else rooms
  }

  /** Whom a broadcast is sent to. */
  function Recipients(rooms: Registry, key: string, skip: ConnectionId): set<ConnectionId> {
    set user | user in PeersIn(rooms, key) && PeersIn(rooms, key)[user] != skip :: PeersIn(rooms, key)[user]
  }

  class Relay {
    var rooms: Registry

    constructor ()
      ensures rooms == map[]
    {
      rooms := map[];
    }

    method Join(key: string, user: string, id: ConnectionId) returns (accepted: bool, previous: Option<ConnectionId>)
      modifies this
      ensures rooms == WithPeer(old(rooms), key, user, id) && accepted == !Full(old(rooms), key, user)
      ensures previous == if user in PeersIn(old(rooms), key) then Some(PeersIn(old(rooms), key)[user]) else None
      ensures accepted <==> user in PeersIn(old(rooms), key) || |PeersIn(old(rooms), key)| < 2
      ensures accepted ==> PeersIn(rooms, key) == PeersIn(old(rooms), key)[user := id]
      ensures !accepted ==> rooms == old(rooms)
      ensures forall other :: other != key ==>
        (other in rooms <==> other in old(rooms)) && PeersIn(rooms, other) == PeersIn(old(rooms), other)
    {
      if key !in rooms {
        rooms := rooms[key := map[]];
      }
      var room: map<string, ConnectionId> := rooms[key];
      if |room| >= ROOM_CAPACITY && user !in room {
        return false, None;
      }
      previous := if user in room then Some(room[user]) else None;
      rooms := rooms[key := room[user := id]];
      accepted := true;
    }

    method Leave(key: string, user: string, id: ConnectionId)
      modifies this
      ensures rooms == WithoutPeer(old(rooms), key, user, id)
      ensures rooms.Keys == old(rooms).Keys
      ensures forall other :: other in rooms && other != key ==> rooms[other] == old(rooms)[other]
      ensures forall u :: u in PeersIn(rooms, key) <==>
        u in PeersIn(old(rooms), key) && !(u == user && PeersIn(old(rooms), key)[u] == id)
      ensures forall u :: u in PeersIn(rooms, key) ==> PeersIn(rooms, key)[u] == PeersIn(old(rooms), key)[u]
    {
      if key in rooms && user in rooms[key] && rooms[key][user] == id {
        rooms := rooms[key := rooms[key] - {user}];
      }
    }

    method Prune(key: string)
      modifies this
      ensures rooms == Pruned(old(rooms), key)
      ensures forall other :: other in rooms <==> other in old(rooms) && (other == key ==> old(rooms)[key] != map[])
      ensures forall other :: PeersIn(rooms, other) == PeersIn(old(rooms), other)
    {
      if key in rooms && rooms[key] == map[] {
        rooms := rooms - {key};
      }
    }

    /** Offers a frame to each peer's queue; `accepting` are the connections whose queue takes it. */
    method Broadcast(key: string, skip: ConnectionId, accepting: set<ConnectionId>)
      returns (sent: nat, delivered: set<ConnectionId>)
      ensures delivered == Recipients(rooms, key, skip) * accepting
      ensures sent == |set user | user in PeersIn(rooms, key) && PeersIn(rooms, key)[user] != skip
                                  && PeersIn(rooms, key)[user] in accepting|
    {
      sent, delivered := 0, {};
      if key in rooms {
        var room: map<string, ConnectionId> := rooms[key];
        var rest := room.Keys;
        ghost var reached: set<string> := {};
        while rest != {}
          invariant rest <= room.Keys && sent == |reached|
          invariant reached == set user | user in room && user !in rest && room[user] != skip && room[user] in accepting
          invariant delivered == set user | user in reached :: room[user]
          decreases |rest|
        {
          var user :| user in rest;
          rest := rest - {user};
          if room[user] != skip {
            if room[user] in accepting {
              sent, delivered := sent + 1, delivered + {room[user]};
              reached := reached + {user};
            }
          }
        }
        assert reached == set user | user in PeersIn(rooms, key) && PeersIn(rooms, key)[user] != skip
                                     && PeersIn(rooms, key)[user] in accepting;
      }
    }
  }
}
