/** The socket handler as the stateful object it is: per-connection fields,
    the transport's room registry and everything emitted so far. Each method
    handles one inbound event in place and is tied, field for field, to the
    transition of `Handlers` whose properties `Properties` proves. */
module Server {
  import opened JsValues
  import opened Registry
  import opened Handlers
  import Properties

  class ChatServer {
    /** `socket.username` and `socket.room` of every live connection. */
    var conns: map<ConnId, Conn>
    /** The transport's room membership. */
    var rooms: Rooms
    /** Every emit made so far, in order. */
    var outbox: seq<Emit>

    function Model(): State
      reads this
    {
      State(conns, rooms)
    }

    ghost predicate Valid()
      reads this
    {
      Handlers.Valid(Model())
    }

    /** What connection `x` has been sent so far, in order. */
    function Received(x: ConnId): seq<Delivery>
      reads this
    {
      Inbox(outbox, x)
    }

    constructor ()
      ensures Valid()
      ensures conns == map[] && rooms == map[] && outbox == []
    {
      conns := map[];
      rooms := map[];
      outbox := [];
    }

    /** The `connection` event: a fresh connection with no name and no room. */
    method Connect(c: ConnId)
      requires Valid() && c !in conns
      modifies this
      ensures Valid()
      ensures Model() == OnConnect(old(Model()), c).next
      ensures outbox == old(outbox)
    {
      Properties.ConnectSpec(Model(), c);
      conns := conns[c := Conn(None, None)];
    }

    /** Transport close: the connection leaves every room, silently. */
    method Disconnect(c: ConnId)
      requires Valid() && c in conns
      modifies this
      ensures Valid()
      ensures Model() == OnDisconnect(old(Model()), c).next
      ensures outbox == old(outbox)
    {
      Properties.DisconnectSpec(Model(), c);
      rooms := LeaveAll(rooms, c);
      conns := conns - {c};
    }

    /** The `username` event. */
    method Username(c: ConnId, username: JsValue)
      requires Valid() && c in conns
      modifies this
      ensures Valid()
      ensures Model() == OnUsername(old(Model()), c, username).next
      ensures outbox == old(outbox) + OnUsername(old(Model()), c, username).emits
    {
      Properties.DispatchKeepsValid(Model(), c, UsernameEvent(username));
      if !Truthy(username) || Trim(ToJsString(username)) == "" {
        outbox := outbox + [ErrorTo(c, NoUsername)];
        return;
      }
      conns := conns[c := conns[c].(username := Some(ToJsString(username)))];
    }

    /** The `room` event. */
    method Room(c: ConnId, requestedRoom: JsValue)
      requires Valid() && c in conns
      modifies this
      ensures Valid()
      ensures Model() == OnRoom(old(Model()), c, requestedRoom).next
      ensures outbox == old(outbox) + OnRoom(old(Model()), c, requestedRoom).emits
    {
      Properties.DispatchKeepsValid(Model(), c, RoomEvent(requestedRoom));
      var conn := conns[c];
      if !Truthy(UsernameValue(conn)) {
        outbox := outbox + [ErrorTo(c, UsernameNotSet)];
        return;
      }
      if !Truthy(requestedRoom) {
        outbox := outbox + [ErrorTo(c, NoRoom)];
        return;
      }
      var name := conn.username.value;
      var members := rooms;
      var emits: seq<Emit> := [];
      if Truthy(RoomValue(conn)) {
        var current := ToJsString(conn.room.value);
        members := Leave(members, current, c);
        emits := emits + [ToRoom(members, current, c, "message", SystemMessage(name + " has left"))];
      }
      var key := ToJsString(requestedRoom);
      members := Join(members, key, c);
      if requestedRoom == Str(WelcomeRoom) {
        emits := emits + [ToSender(c, "message", SystemMessage(WelcomeText(name)))];
      }
      emits := emits + [ToRoom(members, key, c, "message", SystemMessage(name + " has joined"))];
      conns, rooms, outbox := conns[c := conn.(room := Some(requestedRoom))], members, outbox + emits;
    }

    /** The `message` event. */
    method Message(c: ConnId, message: JsValue)
      requires Valid() && c in conns
      modifies this
      ensures Valid()
      ensures Model() == old(Model())
      ensures outbox == old(outbox) + OnMessage(old(Model()), c, message).emits
    {
      var conn := conns[c];
      if !Truthy(RoomValue(conn)) {
        outbox := outbox + [ErrorTo(c, NoRoomsJoined)];
        return;
      }
      outbox := outbox + [ToRoom(rooms, ToJsString(conn.room.value), c, "message", ChatMessage(UsernameValue(conn), message))];
    }

    /** The shared body of `typing` and `stop typing`. */
    method Relay(c: ConnId, event: string)
      requires Valid() && c in conns
      modifies this
      ensures Valid()
      ensures Model() == old(Model())
      ensures outbox == old(outbox) + Handlers.Relay(old(Model()), c, event).emits
    {
      var conn := conns[c];
      if Truthy(RoomValue(conn)) {
        outbox := outbox + [ToRoom(rooms, ToJsString(conn.room.value), c, event, UsernameValue(conn))];
      }
    }

    /** The `typing` event. */
    method Typing(c: ConnId)
      requires Valid() && c in conns
      modifies this
      ensures Valid()
      ensures Model() == old(Model())
      ensures outbox == old(outbox) + OnTyping(old(Model()), c).emits
    {
      Relay(c, "typing");
    }

    /** The `stop typing` event. */
    method StopTyping(c: ConnId)
      requires Valid() && c in conns
      modifies this
      ensures Valid()
      ensures Model() == old(Model())
      ensures outbox == old(outbox) + OnStopTyping(old(Model()), c).emits
    {
      Relay(c, "stop typing");
    }
  }
}
