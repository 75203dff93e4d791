/**
 The state of the collaborative-editing server and the three socket events
 that change it, as values.

 The server keeps one process-wide map from room id to the room's document
 text. socket.io keeps, beside it, which connection has joined which room.
 Every message the server emits is recorded, in emission order, in an
 outbox together with the connections it is addressed to.
 */
module SyncState {

  /** socket.io connection ids and room ids are client- or transport-supplied strings. */
  type ConnId = string
  type RoomId = string

  /** The text a room is seeded with when it is first joined. */
  const Seed: string := "// Start coding here...\n"

  /** A message emitted by the server. */
  datatype Msg =
    /** `init-code`, emitted on the joining socket only. */
    | InitCode(to: ConnId, code: string)
    /** `code-update`, emitted through `socket.to(roomId)`: every member of the room but the sender. */
    | CodeUpdate(peers: set<ConnId>, code: string)

  /** True when message `m` is addressed to connection `c`. */
  predicate AddressedTo(m: Msg, c: ConnId)
  {
    match m
    case InitCode(to, _) => to == c
    case CodeUpdate(peers, _) => c in peers
  }

  /** An event delivered to one socket's handlers. */
  datatype Event =
    | JoinRoom(conn: ConnId, room: RoomId)
    | CodeChange(conn: ConnId, room: RoomId, code: string)
    | Disconnect(conn: ConnId)

  /**
   The whole observable state: the `rooms` store, socket.io's room
   membership relation, and every message sent so far.
   */
  datatype State = State(rooms: map<RoomId, string>, members: set<(ConnId, RoomId)>, outbox: seq<Msg>)

  /** The state at process start: no rooms, nobody connected, nothing sent. */
  const Initial: State := State(map[], {}, [])

  /** The `activeRooms` figure of the health endpoint: the number of keys in `rooms`. */
  function ActiveRooms(s: State): nat
  {
    |s.rooms|
  }

  /** The connections `socket.to(room)` reaches when `sender` emits: the room's members other than the sender. */
  function Peers(members: set<(ConnId, RoomId)>, room: RoomId, sender: ConnId): (to: set<ConnId>)
    ensures forall x :: x in to <==> (x, room) in members && x != sender
  {
    set p | p in members && p.1 == room && p.0 != sender :: p.0
  }

  /**
   `join-room`: the socket joins the room; a known room's text is sent back to
   that socket alone, an unknown room is seeded and nothing is sent.
   */
  function JoinNext(s: State, c: ConnId, r: RoomId): State
  {
    var members := s.members + {(c, r)};
    if r in s.rooms then
      State(s.rooms, members, s.outbox + [InitCode(c, s.rooms[r])])
    else
      State(s.rooms[r := Seed], members, s.outbox)
  }

  /**
   `code-change`: the room's text is overwritten unconditionally (creating the
   entry if need be), and the new text is sent to the room's other members.
   */
  function CodeChangeNext(s: State, c: ConnId, r: RoomId, code: string): State
  {
    State(s.rooms[r := code], s.members, s.outbox + [CodeUpdate(Peers(s.members, r, c), code)])
  }

  /**
   `disconnect`: the handler itself only logs; socket.io drops every room
   membership of the connection.
   */
  function DisconnectNext(s: State, c: ConnId): State
  {
    State(s.rooms, (set p | p in s.members && p.0 != c), s.outbox)
  }

  /** One event, handled to completion. */
  function Step(s: State, e: Event): State
  {
    match e
    case JoinRoom(c, r) => JoinNext(s, c, r)
    case CodeChange(c, r, code) => CodeChangeNext(s, c, r, code)
    case Disconnect(c) => DisconnectNext(s, c)
  }

  /** A sequence of events, handled one after another in arrival order. */
  function Run(s: State, evs: seq<Event>): State
    decreases |evs|
  {
    if evs == [] then s else Run(Step(s, evs[0]), evs[1..])
  }

  /** True when `e` is an edit of room `r`. */
  predicate EditsRoom(e: Event, r: RoomId)
  {
    e.CodeChange? && e.room == r
  }

  /** True when `e` is a join by connection `c`. */
  predicate JoinBy(e: Event, c: ConnId)
  {
    e.JoinRoom? && e.conn == c
  }
}
