/** Room membership and outbound events, standing in for socket.io's
    `join`, `leave`, `socket.emit` and `socket.to(room).emit`. */
module Registry {
  import opened JsValues

  /** The transport's opaque, unique identifier of a connection. */
  type ConnId = nat

  /** Room key to member connections. A room name is used as a property key
      by the transport, so the key of a room value `v` is `ToJsString(v)`. */
  type Rooms = map<string, set<ConnId>>

  /** One emit call: the event name and payload, sent to every connection in
      `to` (`{sender}` for `socket.emit`, the room's members minus the sender
      for `socket.to(room).emit`). */
  datatype Emit = Emit(to: set<ConnId>, event: string, payload: JsValue)

  /** What one recipient sees of an emit. */
  datatype Delivery = Delivery(event: string, payload: JsValue)

  /** Members of a room; a room nobody has joined has none. */
  function Members(rooms: Rooms, key: string): set<ConnId> {
    if key in rooms then rooms[key] else {}
  }

  /** `socket.join(room)`: adds the connection, idempotently. */
  function Join(rooms: Rooms, key: string, c: ConnId): (r: Rooms)
    ensures forall k :: Members(r, k) == if k == key then Members(rooms, k) + {c} else Members(rooms, k)
  {
    rooms[key := Members(rooms, key) + {c}]
  }

  /** `socket.leave(room)`: removes the connection; not an error if it was not a member. */
  function Leave(rooms: Rooms, key: string, c: ConnId): (r: Rooms)
    ensures forall k :: Members(r, k) == if k == key then Members(rooms, k) - {c} else Members(rooms, k)
  {
    if key in rooms then rooms[key := rooms[key] - {c}] else rooms
  }

  /** What the transport does on disconnect: the connection leaves every room. */
  function LeaveAll(rooms: Rooms, c: ConnId): (r: Rooms)
    ensures forall k :: Members(r, k) == Members(rooms, k) - {c}
  {
    map k | k in rooms :: rooms[k] - {c}
  }

  /** `socket.emit(event, payload)`: to the sender only. */
  function ToSender(c: ConnId, event: string, payload: JsValue): Emit {
    Emit({c}, event, payload)
  }

  /** `socket.to(room).emit(event, payload)`: to every member of the room but
      the sender; to nobody when the room has no other member. */
  function ToRoom(rooms: Rooms, key: string, sender: ConnId, event: string, payload: JsValue): (e: Emit)
    ensures forall x :: x in e.to <==> x in Members(rooms, key) && x != sender
  {
    Emit(Members(rooms, key) - {sender}, event, payload)
  }

  /** The deliveries connection `x` receives from a sequence of emits, in order. */
  function Inbox(emits: seq<Emit>, x: ConnId): seq<Delivery> {
    if emits == [] then []
    else (if x in emits[0].to then [Delivery(emits[0].event, emits[0].payload)] else []) + Inbox(emits[1..], x)
  }

  /** A single emit reaches `x` once if `x` is a recipient and not at all otherwise. */
  lemma InboxOne(e: Emit, x: ConnId)
    ensures Inbox([e], x) == if x in e.to then [Delivery(e.event, e.payload)] else []
  {
    assert [e][1..] == [];
  }

  /** Emits made one after another reach each recipient in that order. */
  lemma {:induction false} InboxConcat(a: seq<Emit>, b: seq<Emit>, x: ConnId)
    ensures Inbox(a + b, x) == Inbox(a, x) + Inbox(b, x)
  {
    if a != [] {
      assert (a + b)[0] == a[0];
      assert (a + b)[1..] == a[1..] + b;
      InboxConcat(a[1..], b, x);
    } else {
      assert a + b == b;
    }
  }
}
