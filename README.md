# Room synchronisation of the collaborative IDE server

The backend of the collaborative IDE keeps one document per room. A
process-wide map `rooms` holds each room's current text. Three socket
events change the server's state:

- `join-room` puts the socket in the room. If the room exists, its text is
  sent back to that socket alone as `init-code`. If it does not, the room is
  seeded with `// Start coding here...\n`, and nothing is sent.
- `code-change` overwrites the room's text unconditionally and sends the new
  text as `code-update` to every other member of the room.
- `disconnect` only logs. socket.io itself then drops every room membership
  of the connection.

The health endpoint reports the number of rooms as `activeRooms`.

The model has three modules:

- `SyncState` (`sync_state.dfy`) holds the state as a value: the room store,
  socket.io's membership relation as a set of (connection, room) pairs, and
  an outbox that lists every emitted message with its recipients. It also
  defines one transition function per event (`JoinNext`, `CodeChangeNext`,
  `DisconnectNext`), `Step` to dispatch an event and `Run` to handle a
  sequence of events in arrival order.
- `RoomServer` (`room_server.dfy`) is the server as an object. Its fields
  are updated in place by one method per event, and each method is proved
  to produce exactly the `Step` of the old state.
- `SyncProperties` (`sync_properties.dfy`) proves what the handlers
  guarantee, for one event and for any sequence of events. Seeding happens
  at most once, the last edit wins, the sender never receives its own edit,
  a disconnected connection receives nothing until it joins again, and rooms
  are never removed.

## Model

| member | source | states |
|---|---|---|
| `SyncState.Peers` | backend/server.js:47 | `socket.to(roomId)` reaches a connection exactly when it is a member of the room and is not the sender |
| `RoomServer.Server.constructor` | backend/server.js:22 | the process starts with no rooms, no memberships and nothing sent |
| `RoomServer.Server.Join` | backend/server.js:29-39 | the new state is the `join-room` step: the membership is added; a known room is left unchanged and its text goes to the joiner as `init-code`; an unknown room is seeded and nothing is sent |
| `RoomServer.Server.CodeChange` | backend/server.js:42-48 | the new state is the `code-change` step: the text is stored under the room, memberships are unchanged, and one `code-update` with that text goes to the room's other members, never to the sender |
| `RoomServer.Server.Disconnect` | backend/server.js:51-53 | the new state is the `disconnect` step: rooms and outbox unchanged, exactly the connection's memberships dropped |
| `RoomServer.Server.Size` | backend/server.js:61 | `activeRooms` is the number of rooms, and is zero exactly when there are no rooms |
| `SyncProperties.JoinUnknownRoomSeeds` | backend/server.js:34-38 | joining an unknown room adds exactly that key, holding the seed text, and sends no message |
| `SyncProperties.JoinKnownRoomReplies` | backend/server.js:34-35 | joining a known room leaves the store unchanged and appends one `init-code` carrying the stored text, addressed to the joiner only |
| `SyncProperties.JoinIsAdditive` | backend/server.js:30 | joining adds exactly one membership and keeps every earlier one, in other rooms too |
| `SyncProperties.CodeChangeOverwrites` | backend/server.js:44 | after an edit the room holds the edit's text, the room is created if it was never joined, every other room's text is unchanged, and memberships are unchanged |
| `SyncProperties.CodeUpdateRecipients` | backend/server.js:47 | an edit appends exactly one `code-update` with its text; its recipients are exactly the room's members other than the sender |
| `SyncProperties.CodeChangeIdempotent` | backend/server.js:44 | handling an edit twice leaves the same store and memberships as handling it once; only a second identical `code-update` is added |
| `SyncProperties.DisconnectKeepsRooms` | backend/server.js:51-53 | disconnecting changes no room text, sends nothing, and drops exactly the connection's memberships |
| `SyncProperties.RoomsNeverRemoved` | backend/server.js:22-61 | over any sequence of events every room stays, so `activeRooms` never decreases |
| `SyncProperties.TextKeptWithoutEdits` | backend/server.js:34-37 | over any sequence of events with no edit of a room, that room's text is unchanged, so joins never re-seed |
| `SyncProperties.SeedAtMostOnce` | backend/server.js:34-37 | a room joined, then joined again with no edit of it in between, still holds the seed text, and the second joiner is sent the seed text |
| `SyncProperties.LastWriteWins` | backend/server.js:44 | whatever events came before, after an edit of a room and no later edit of it, the room holds that edit's text |
| `SyncProperties.EditsOfOneRoom` | backend/server.js:44 | after a non-empty sequence of edits of one room, the room holds the last edit's text |
| `SyncProperties.DetachedReceivesNothing` | backend/server.js:47 | a connection in no room that joins nothing stays in no room and is sent no message |
| `SyncProperties.NothingAfterDisconnect` | backend/server.js:51-53 | after a disconnect, until the connection joins again, no message is addressed to it |
| `SyncProperties.TwoClientScenario` | backend/server.js:29-48 | two clients join room "abc" and the first edits it to "hello": the first joiner gets no `init-code`, the second gets the seed text, the store holds "hello", and only the second client receives the update |

## Left out

- The `/run` endpoint (backend/server.js:76-140) runs user code through `eval` with a swapped `console.log`. Its behaviour belongs to the JavaScript interpreter and has no effect on room state. The commented-out Judge0 block is a remote HTTP call and is not live code.
- Express, CORS, the HTTP server start-up and every `console.log` are I/O plumbing. Only the `activeRooms` value of the health endpoint is modelled, as `Size`.
- socket.io's transport is not modelled: delivery, ordering, buffering and loss. A send is an entry appended to the outbox. Room membership is an abstract relation with socket.io's own behaviour: `socket.join` adds a membership and a disconnect drops all of a connection's memberships.
- socket.io also places every socket in a room named after its own id. The model leaves this out, so an edit whose room id equals some socket's id does not reach that socket here.
- Payloads are taken to be strings. The source does not validate them: a `code-change` with a missing `roomId` or `code` stores JavaScript `undefined` rather than being dropped. The model keeps the no-validation behaviour and drops nothing, but it has no value for `undefined` and no case for a missing payload, which makes the destructuring throw.
- Concurrency is not modelled. Node runs each handler to completion one at a time, so each event is one atomic step.
- The front end (frontend/src/App.jsx) is UI state and is not part of this model. It listens for `update-code` while the server emits `code-update`, and it never handles `init-code`.
- Two stricter behaviours that one might expect are not in the server code, so the model does not add them. A malformed edit is not dropped: `rooms.set` runs unconditionally at backend/server.js:44. There is no explicit leave on disconnect: the handler at backend/server.js:51-53 only logs, and socket.io removes the memberships.
