# Chat relay session engine, in Dafny

This project models the per-connection session state machine of a small real-time chat relay. It is the
socket handler registered by `io.on('connection', …)` in `server.js`. Each connection gets two fields:

- `socket.username`, which the `username` event sets;
- `socket.room`, which the `room` event switches.

The handler refuses out-of-order or malformed requests. A refusal is an `errorMessage` sent to the sender alone.
On success it moves the connection between rooms and fans events out to exact recipient sets. `socket.emit`
sends to the sender. `socket.to(room).emit` sends to the room's members other than the sender.

Files and modules:

- `js_values.dfy`, module `JsValues`: the JavaScript semantics the handlers rely on. This covers payload values,
  truthiness, `String()` / property-key conversion and `String.prototype.trim`. Number conversion and `trim`
  come with partner lemmas: a numeral reads back as its number, and `trim` gives `""` exactly on white space only.
- `registry.dfy`, module `Registry`: room membership (`join`, `leave`), emits to a recipient set, and `Inbox`,
  what one connection receives from a sequence of emits.
- `handlers.dfy`, module `Handlers`: the session state (`Conn`, `State`), the invariant `Valid`, one transition
  function per inbound event (`OnUsername`, `OnRoom`, `OnMessage`, `OnTyping`, `OnStopTyping`, plus
  `OnConnect` / `OnDisconnect` for the transport), the dispatch table and `Run` over a sequence of events.
- `properties.dfy`, module `Properties`: what each handler guarantees. This covers the invariant, the field
  and membership changes, and exactly who receives what, in which order.
- `server.dfy`, module `Server`: class `ChatServer`. Its fields are `conns`, `rooms` and `outbox`, and it has one
  method per inbound event, each updating the fields in place. Every method's `ensures` ties the new fields
  and the appended outbox entries to the transition function, and keeps `Valid()`.
- `as_written.dfy`, module `AsWritten`: two handlers exactly as the code is written, where the code departs
  from what it evidently intends (see Findings). The rest of the model uses the corrected handlers.
- `example.dfy`, module `Example`: a two-user exchange, stated as verified methods on `ChatServer`. Alice joins
  "Lobby" and then bob joins, and alice is told. Alice then says "hi", and only bob receives it.

Session invariant (`Handlers.Valid`): a connection is in room `k` exactly when it is live and its `room` field
names `k`. Three things follow:

- a connection is in at most one room;
- it is in one exactly when `room` is set;
- that room is the one `room` names.

Also, a connection has a room only once it has a name, and a stored name is never white space only.

Rooms are keyed by the property key of the room value (`ToJsString`). The transport keeps rooms as keys of a
plain object, so the number 5 and the string "5" name the same room.

Choices where the behaviour of `server.js` may be unexpected:

- The inbound event names are `username`, `room`, `message`, `typing` and `stop typing`.
- A name may be set again at any time, and the last one wins. No rule makes the first name permanent.
- Switching rooms always sends the "has left" notice to the old room.
- The `message` payload is relayed as `content` exactly as received, whatever its shape.
- Disconnect cleanup is not in `server.js`; the transport does it. `OnDisconnect` models it as leaving every
  room, with no notice.
- `typing` / `stop typing` without a room is not a no-op in the code as written (see Findings).

## Model

| member | source | states |
|---|---|---|
| JsValues.ToJsString | server.js:42 | `String(v)`: the result is empty exactly for the empty string, and a string converts to itself |
| JsValues.Digits | server.js:60 | the numeral of a room number: non-empty, decimal digits only, no leading zero |
| JsValues.DigitsRoundTrip | server.js:60 | reading the numeral back gives the number |
| JsValues.IntToStringRoundTrip | server.js:60 | a negative or non-negative integer room value's key reads back as that integer, so distinct numbers name distinct rooms |
| JsValues.TrimStart | server.js:39 | drops exactly the leading white space: the result is a suffix, the dropped part is white space, the result does not start with any |
| JsValues.TrimEnd | server.js:39 | drops exactly the trailing white space, symmetrically |
| JsValues.Trim | server.js:39 | a non-empty result starts and ends with a non-space |
| JsValues.TrimEmptyIff | server.js:39 | `s.trim()` is empty if and only if every character of `s` is white space |
| Registry.Join | server.js:60 | `socket.join`: adds the connection to that room only, idempotently |
| Registry.Leave | server.js:53 | `socket.leave`: removes the connection from that room only; no error if absent |
| Registry.LeaveAll | server.js:36 | on connection close the connection leaves every room and nothing else changes |
| Registry.ToRoom | server.js:54-57 | `socket.to(room).emit` reaches exactly the room's members other than the sender |
| Registry.InboxConcat | server.js:52-71 | a recipient sees the emits of consecutive calls in the order they were made |
| Handlers.Init | server.js:36 | no connection exists before the first `connection` event; the invariant holds |
| Properties.NameTruthy | server.js:46 | for a well-formed connection, `!socket.username` holds exactly when no name is set |
| Properties.MembershipOf | server.js:52-60 | under the invariant, a connection is in room `k` if and only if its `room` field names `k` |
| Properties.UsernameAccepted | server.js:38-43 | a truthy name that is not all white space is stored as `String(username)`, replacing any earlier name; room, memberships and other connections unchanged; nothing emitted; invariant kept |
| Properties.UsernameRefused | server.js:39-41 | a falsy or blank name changes nothing and sends exactly one "No username!" `errorMessage`, to the sender only |
| Properties.RoomRefused | server.js:46-51 | without a name, "Username not set!"; otherwise with a falsy room, "No room!"; to the sender only, with no state or membership change |
| Properties.RoomSwitch | server.js:52-60 | after an accepted request `room` is the requested room and the connection is in that room and no other (a single membership when re-requesting the current room); others' fields and memberships unchanged; invariant kept |
| Properties.LeftNoticeReaches | server.js:52-58 | the "has left" notice reaches exactly the other connections whose room was the sender's old room, and nobody when it had none |
| Properties.WelcomeReaches | server.js:61-67 | the welcome goes to the joiner alone and only when the requested room is "Welcome Room" |
| Properties.JoinedNoticeReaches | server.js:68-71 | the "has joined" notice reaches exactly the connections already in the requested room, never the joiner |
| Properties.RoomNotices | server.js:52-72 | every connection's deliveries from a room request, in order: at most one "has left", then the welcome, then at most one "has joined"; the joiner receives only the welcome |
| Properties.RoomEmitOrder | server.js:52-71 | the emits of an accepted request, by position: the "has left" notice first when a room was set, then the welcome to the joiner when the room is "Welcome Room", and the "has joined" notice last; nothing else |
| Properties.MessageSpec | server.js:76-84 | without a room, one "No rooms joined!" to the sender and no broadcast; in a room, `{username: stored name, content: payload}` reaches exactly the other connections in the same room; no echo, no state change |
| Properties.RelaySpec | server.js:86-92 | `typing` / `stop typing` deliver the stored name, under the same event name, to exactly the other connections in the sender's room; no error, no state change |
| Properties.ConnectSpec | server.js:36 | a new connection has no name, no room and no membership; the rooms and every existing connection are unchanged; nothing emitted; invariant kept |
| Properties.DisconnectSpec | server.js:36 | a closed connection is gone and is in no room; the other connections' fields and memberships are unchanged; nothing emitted; invariant kept |
| Properties.DispatchKeepsValid | server.js:36-93 | every event handler in the table keeps the session invariant |
| Properties.RunKeepsValid | server.js:36-93 | the invariant holds after any sequence of events |
| Properties.JoinsAccumulate | server.js:45-73 | after named connections request the same room one after another, its members are exactly its earlier members plus every requester |
| AsWritten.UsernameAsWrittenOnStrings | server.js:38-43 | on string payloads the code as written and the corrected handler agree |
| AsWritten.NonStringNotBlank | server.js:42 | `String(v)` of a non-string is never blank |
| AsWritten.UsernameAsWrittenThrows | server.js:39-42 | as written every truthy non-string name throws and stores nothing; the corrected handler stores `String(v)` |
| AsWritten.UsernameFortyTwo | server.js:39-42 | the name 42: as written a TypeError, corrected the name "42" |
| AsWritten.RelayAsWrittenInRoom | server.js:86-92 | with a room set, the code as written and the corrected relay agree |
| AsWritten.RelayAsWrittenReachesOutsider | server.js:86-92 | as written, `typing` from a connection without a room reaches a member of the room named "undefined"; corrected, it reaches nobody |
| JsValues.Truthy | server.js:39 | JavaScript truthiness, the `!x` tests at server.js:39, 46, 49, 52 and 77; its consequences are stated by `Properties.NameTruthy` and `AsWritten.NonStringNotBlank` |
| JsValues.IntToString | server.js:60 | the key of an integer room value; `JsValues.IntToStringRoundTrip` states that it reads back |
| JsValues.IsJsSpace | server.js:39 | the white space `trim` removes; `JsValues.TrimEmptyIff` states the `!username.trim()` test in its terms |
| Registry.ToSender | server.js:40 | `socket.emit`, also at server.js:47, 50, 62 and 78: to the sender alone, stated by `Registry.InboxOne` and the refusal lemmas |
| Registry.Inbox | server.js:52-71 | what one connection receives from a sequence of emits, split over concatenation by `Registry.InboxConcat` |
| Handlers.Valid | server.js:52-60 | the session invariant; kept by every handler (`Properties.DispatchKeepsValid`, `Properties.RunKeepsValid`) |
| Handlers.OnConnect | server.js:36 | a new connection; stated by `Properties.ConnectSpec` |
| Handlers.OnDisconnect | server.js:36 | connection close; stated by `Properties.DisconnectSpec` |
| Handlers.OnUsername | server.js:38-43 | the `username` handler; stated by `Properties.UsernameAccepted` and `Properties.UsernameRefused` |
| Handlers.LeaveCurrent | server.js:52-53 | leaving the current room; stated by `Properties.RoomSwitch` |
| Handlers.LeftNotice | server.js:54-57 | the "has left" notice; stated by `Properties.LeftNoticeReaches` |
| Handlers.Welcome | server.js:61-67 | the welcome; stated by `Properties.WelcomeReaches` |
| Handlers.OnRoom | server.js:45-73 | the `room` handler; stated by `Properties.RoomRefused`, `Properties.RoomSwitch`, `Properties.RoomNotices` and `Properties.RoomEmitOrder` |
| Handlers.OnMessage | server.js:76-84 | the `message` handler; stated by `Properties.MessageSpec` |
| Handlers.Relay | server.js:86-92 | the corrected `typing` / `stop typing` relay; stated by `Properties.RelaySpec` |
| Handlers.OnTyping | server.js:86-88 | `typing` through `Relay` |
| Handlers.OnStopTyping | server.js:90-92 | `stop typing` through `Relay` |
| Handlers.Dispatch | server.js:36-93 | the handler table; stated by `Properties.DispatchKeepsValid` |
| Handlers.Run | server.js:36-93 | events one at a time; stated by `Properties.RunKeepsValid` and `Properties.JoinsAccumulate` |
| AsWritten.OnUsernameAsWritten | server.js:39-42 | the `username` handler as written; stated by `AsWritten.UsernameAsWrittenOnStrings`, `AsWritten.UsernameAsWrittenThrows` and `AsWritten.UsernameFortyTwo` |
| AsWritten.RelayAsWritten | server.js:86-92 | the relay as written; stated by `AsWritten.RelayAsWrittenInRoom` and `AsWritten.RelayAsWrittenReachesOutsider` |
| Server.ChatServer.constructor | server.js:12 | an empty server: no connections, no rooms, nothing sent; invariant holds |
| Server.ChatServer.Connect | server.js:36 | adds the fresh connection to the fields as `OnConnect` says; nothing sent |
| Server.ChatServer.Disconnect | server.js:36 | removes the connection and its memberships as `OnDisconnect` says; nothing sent |
| Server.ChatServer.Username | server.js:38-43 | updates the fields and appends exactly the emits of `OnUsername`; keeps the invariant |
| Server.ChatServer.Room | server.js:45-73 | updates the fields and appends exactly the emits of `OnRoom`, in order; keeps the invariant |
| Server.ChatServer.Message | server.js:76-84 | leaves the fields unchanged and appends exactly the emits of `OnMessage` |
| Server.ChatServer.Relay | server.js:86-92 | leaves the fields unchanged and appends exactly the emits of `Relay` |
| Server.ChatServer.Typing | server.js:86-88 | the `typing` event through `Relay` |
| Server.ChatServer.StopTyping | server.js:90-92 | the `stop typing` event through `Relay` |
| Example.Named | server.js:38-43 | a fresh connection that sends a valid name has that name, no room, and receives nothing |
| Example.AliceJoins | server.js:45-72 | alice alone in "Lobby": the "has joined" notice has no recipient |
| Example.BobJoins | server.js:68-71 | when bob joins "Lobby", exactly alice is told "bob has joined" |
| Example.AliceSpeaks | server.js:80-83 | alice's "hi" goes to bob alone, under her stored name |

## Left out

- HTTP plumbing is not modelled: Express, webpack, compression, static routes and `server.listen`
  (server.js:1-33, 97-100). It is I/O over libraries that are not part of this model.
- client/index.js (React components, `prompt`/`alert`, rendering, random list keys) is not part of this model;
  it is user-interface code.
- The socket.io transport is not modelled. The `join` callback (server.js:60) is taken to run at once and in
  order. socket.io's own deferred bookkeeping around `leave`/`join` is not modelled, so `socket.join` and
  `socket.leave` are plain set operations. Re-requesting the current room is where the two may differ: the model
  keeps the connection in the room, while socket.io 2.x may leave it out after `leave` and `join` back to back.
- socket.io also puts every connection in a private room named by its id. That room is not modelled: connection
  ids are opaque numbers here, so a room request that names another connection's id is not distinguished.
- Connections run concurrently in the real system. Here events are applied one at a time (`Run`), as the
  single-threaded event loop runs them.
- Delivery is not modelled: the outbox records what was emitted, to whom, in order. Transport framing,
  acknowledgements and the order among the recipients of one emit are left out.
- `console.log` output is left out; it has no effect on state or recipients.
- The welcome text: `WelcomeText` keeps its first sentence with the user's name, and `WelcomeTail` stands for
  the fixed remainder of the text.
- `ToJsString`: numbers are integers written in plain decimal. Fractions, `NaN`, infinities and the exponent
  notation JavaScript uses from 1e21 on are not modelled.
- `JsValue` has no arrays and no binary payloads. Every object converts to "[object Object]", and property keys
  with special meaning on plain objects (such as "__proto__") are not treated specially.
- `IsJsSpace`: strings are sequences of Unicode code points rather than UTF-16 code units. `trim` removes the
  ECMAScript white space and line terminator code points listed there.
- `Dispatch` ignores an event from an id that has no live connection, and a second `connection` event for a
  live id. The transport never produces either.

## Findings

| source | as written | input that shows it | evidently intended | confidence | as-written member | corrected member |
|---|---|---|---|---|---|---|
| server.js:39-42 | `username.trim()` runs before `String(username)`. A truthy non-string has no `trim` method, so the handler throws a TypeError and stores nothing. The `String` conversion can then only ever see strings. | a `username` event whose payload is the number 42 | convert first, so 42 is stored as the name "42" | not executed; medium: the payload is whatever the client emits, and this client sends strings | AsWritten.UsernameAsWrittenThrows | Properties.UsernameAccepted |
| server.js:86-92 | `socket.to(socket.room)` runs even when `socket.room` is unset. Used as a room name, `undefined` becomes the key "undefined". | connection 1 joins a room named "undefined"; connection 2, with no room, sends `typing`; connection 1 receives `typing` with an undefined name | without a room, nothing is sent | not executed; medium: depends on the transport keeping rooms as plain-object keys, as socket.io 2.x does | AsWritten.RelayAsWrittenReachesOutsider | Properties.RelaySpec |
