/**
 The socket server as an object: the `rooms` store, socket.io's membership
 relation and the outbox are fields, and each socket event is a method that
 updates them in place, one event at a time.
 */
module RoomServer {
  import opened SyncState

  class Server {
    /** Room id to current document text. */
    var rooms: map<RoomId, string>
    /** socket.io's rooms: which connection has joined which room. */
    var members: set<(ConnId, RoomId)>
    /** Every message emitted so far, in emission order. */
    var outbox: seq<Msg>

    /** The server's state as a value. */
    function State(): SyncState.State
      reads this
    {
      SyncState.State(rooms, members, outbox)
    }

    /** A fresh process: no rooms, no memberships, nothing sent. */
    constructor ()
      ensures State() == Initial
    {
      rooms := map[];
      members := {};
      outbox := [];
    }

    /** The `join-room` handler. */
    method Join(c: ConnId, r: RoomId)
      modifies this
      ensures State() == Step(old(State()), JoinRoom(c, r))
      ensures members == old(members) + {(c, r)}
      ensures r in old(rooms) ==> rooms == old(rooms) && outbox == old(outbox) + [InitCode(c, old(rooms)[r])]
      ensures r !in old(rooms) ==> rooms == old(rooms)[r := Seed] && outbox == old(outbox)
    {
      members := members + {(c, r)};
      if r in rooms {
        outbox := outbox + [InitCode(c, rooms[r])];
      } else {
        rooms := rooms[r := Seed];
      }
    }

    /** The `code-change` handler: store the text, then send it to the room's other members. */
    method CodeChange(c: ConnId, r: RoomId, code: string)
      modifies this
      ensures State() == Step(old(State()), SyncState.CodeChange(c, r, code))
      ensures rooms == old(rooms)[r := code] && members == old(members)
      ensures outbox == old(outbox) + [CodeUpdate(Peers(old(members), r, c), code)]
      ensures c !in outbox[|outbox| - 1].peers
    {
      rooms := rooms[r := code];
      var to := set p | p in members && p.1 == r && p.0 != c :: p.0;
      outbox := outbox + [CodeUpdate(to, code)];
    }

    /** The `disconnect` event: the handler only logs, and socket.io drops the connection's memberships. */
    method Disconnect(c: ConnId)
      modifies this
      ensures State() == Step(old(State()), SyncState.Disconnect(c))
      ensures rooms == old(rooms) && outbox == old(outbox)
      ensures forall p :: p in members <==> p in old(members) && p.0 != c
    {
      members := set p | p in members && p.0 != c;
    }

    /** The health endpoint's `activeRooms`: how many rooms exist. */
    function Size(): (n: nat)
      reads this
      ensures n == ActiveRooms(State())
      ensures n == 0 <==> rooms == map[]
    {
      |rooms|
    }
  }
}
