/** The per-connection session state machine of the socket handler
    (`io.on('connection', ...)`): one transition per inbound event, giving the
    new state and the emits the handler makes, in the order it makes them. */
module Handlers {
  import opened JsValues
  import opened Registry

  datatype Option<T> = None | Some(value: T)

  /** The two fields a handler keeps on its socket, `socket.username` and
      `socket.room`; both start unset. */
  datatype Conn = Conn(username: Option<string>, room: Option<JsValue>)

  /** All live connections and the room registry. */
  datatype State = State(conns: map<ConnId, Conn>, rooms: Rooms)

  /** The outcome of handling one event. */
  datatype Step = Step(next: State, emits: seq<Emit>)

  const NoUsername := "No username!"
  const UsernameNotSet := "Username not set!"
  const NoRoom := "No room!"
  const NoRoomsJoined := "No rooms joined!"
  const SystemName := "System"
  const WelcomeRoom := "Welcome Room"
  /** Abbreviates the fixed remainder of the welcome text, which is not modelled word for word. */
  const WelcomeTail := " You are in the Welcome Room."

  /** The value of `socket.username`, `undefined` while unset. */
  function UsernameValue(conn: Conn): JsValue {
    if conn.username.Some? then Str(conn.username.value) else Undefined
  }

  /** The value of `socket.room`, `undefined` while unset. */
  function RoomValue(conn: Conn): JsValue {
    if conn.room.Some? then conn.room.value else Undefined
  }

  /** The registry key of the room that connection `c`'s `room` field names. */
  function RoomKey(s: State, c: ConnId): Option<string> {
    if c in s.conns && s.conns[c].room.Some? then Some(ToJsString(s.conns[c].room.value)) else None
  }

  /** A `message` payload `{username, content}`. */
  function ChatMessage(username: JsValue, content: JsValue): JsValue {
    Obj(map["username" := username, "content" := content])
  }

  function SystemMessage(text: string): JsValue {
    ChatMessage(Str(SystemName), Str(text))
  }

  function WelcomeText(name: string): string {
    "Welcome " + name + "!" + WelcomeTail
  }

  function ErrorTo(c: ConnId, text: string): Emit {
    ToSender(c, "errorMessage", Str(text))
  }

  /** A name the `username` handler accepts: not white space only. */
  predicate ValidName(name: string) {
    !AllSpace(name)
  }

  /** A connection is in a room only once it has a name, and both fields hold
      what the handlers store into them. */
  predicate ConnOk(conn: Conn) {
    && (conn.username.Some? ==> ValidName(conn.username.value))
    && (conn.room.Some? ==> conn.username.Some? && Truthy(conn.room.value))
  }

  /** The session invariant: a connection is a member of room `k` exactly when
      it is live and its `room` field names `k`. So every connection is in at
      most one room, and in one exactly when its `room` field is set. */
  ghost predicate Valid(s: State) {
    && (forall c | c in s.conns :: ConnOk(s.conns[c]))
    && (forall c, k :: c in Members(s.rooms, k) <==> RoomKey(s, c) == Some(k))
  }

  function Init(): (s: State)
    ensures Valid(s) && s.conns == map[]
  {
    State(map[], map[])
  }

  // ---------------------------------------------------------------------------
  // Connection lifetime (done by the transport)

  /** A new connection starts with neither a name nor a room. */
  function OnConnect(s: State, c: ConnId): Step
    requires c !in s.conns
  {
    Step(s.(conns := s.conns[c := Conn(None, None)]), [])
  }

  /** On close the transport removes the connection from every room; nobody is notified. */
  function OnDisconnect(s: State, c: ConnId): Step
    requires c in s.conns
  {
    Step(State(s.conns - {c}, LeaveAll(s.rooms, c)), [])
  }

  // ---------------------------------------------------------------------------
  // The five inbound events

  /** `username`: a falsy or blank name is refused with an error to the sender;
      any other value is stored as `String(username)`, replacing an earlier name. */
  function OnUsername(s: State, c: ConnId, v: JsValue): Step
    requires c in s.conns
  {
    if !Truthy(v) || Trim(ToJsString(v)) == "" then
      Step(s, [ErrorTo(c, NoUsername)])
    else
      Step(s.(conns := s.conns[c := s.conns[c].(username := Some(ToJsString(v)))]), [])
  }

  /** The registry after `socket.leave(socket.room)`, when a room is set. */
  function LeaveCurrent(rooms: Rooms, c: ConnId, conn: Conn): Rooms {
    if Truthy(RoomValue(conn)) then Leave(rooms, ToJsString(RoomValue(conn)), c) else rooms
  }

  /** The "has left" notice to the room being left, when a room is set. */
  function LeftNotice(afterLeave: Rooms, c: ConnId, conn: Conn, name: string): seq<Emit> {
    if Truthy(RoomValue(conn)) then
      [ToRoom(afterLeave, ToJsString(RoomValue(conn)), c, "message", SystemMessage(name + " has left"))]
    else []
  }

  /** The welcome, to the joiner alone, when the requested room is the Welcome Room. */
  function Welcome(c: ConnId, v: JsValue, name: string): seq<Emit> {
    if v == Str(WelcomeRoom) then [ToSender(c, "message", SystemMessage(WelcomeText(name)))] else []
  }

  /** `room`: needs a name, then a truthy room; leaves the current room with a
      notice to those left behind, joins the requested room, welcomes the
      joiner to the Welcome Room and tells the room's other members. */
  function OnRoom(s: State, c: ConnId, v: JsValue): Step
    requires c in s.conns
  {
    var conn := s.conns[c];
    if !Truthy(UsernameValue(conn)) then
      Step(s, [ErrorTo(c, UsernameNotSet)])
    else if !Truthy(v) then
      Step(s, [ErrorTo(c, NoRoom)])
    else
      var name := conn.username.value;
      var afterLeave := LeaveCurrent(s.rooms, c, conn);
      var key := ToJsString(v);
      var afterJoin := Join(afterLeave, key, c);
      var joinedNotice := ToRoom(afterJoin, key, c, "message", SystemMessage(name + " has joined"));
      Step(State(s.conns[c := conn.(room := Some(v))], afterJoin),
           LeftNotice(afterLeave, c, conn, name) + Welcome(c, v, name) + [joinedNotice])
  }

  /** `message`: refused without a room; otherwise relayed, under the stored
      name, to the other members of the sender's room. */
  function OnMessage(s: State, c: ConnId, v: JsValue): Step
    requires c in s.conns
  {
    var conn := s.conns[c];
    if !Truthy(RoomValue(conn)) then
      Step(s, [ErrorTo(c, NoRoomsJoined)])
    else
      Step(s, [ToRoom(s.rooms, ToJsString(conn.room.value), c, "message", ChatMessage(UsernameValue(conn), v))])
  }

  /** `typing` and `stop typing`: the sender's name, under the same event name,
      to the other members of its room. Without a room nothing is sent (this is
      the corrected behaviour; `AsWritten.RelayAsWritten` is the code as written). */
  function Relay(s: State, c: ConnId, event: string): Step
    requires c in s.conns
  {
    var conn := s.conns[c];
    if !Truthy(RoomValue(conn)) then
      Step(s, [])
    else
      Step(s, [ToRoom(s.rooms, ToJsString(conn.room.value), c, event, UsernameValue(conn))])
  }

  function OnTyping(s: State, c: ConnId): Step
    requires c in s.conns
  {
    Relay(s, c, "typing")
  }

  function OnStopTyping(s: State, c: ConnId): Step
    requires c in s.conns
  {
    Relay(s, c, "stop typing")
  }

  // ---------------------------------------------------------------------------
  // Dispatch: the handler table registered for every connection

  datatype Event =
    | Connection
    | Disconnection
    | UsernameEvent(username: JsValue)
    | RoomEvent(requestedRoom: JsValue)
    | MessageEvent(message: JsValue)
    | TypingEvent
    | StopTypingEvent

  /** Routes an event of connection `c` to its handler. Only a live connection
      sends events and ids are never reused, so the remaining cases do nothing. */
  function Dispatch(s: State, c: ConnId, e: Event): Step {
    if e.Connection? then
      if c in s.conns then Step(s, []) else OnConnect(s, c)
    else if c !in s.conns then
      Step(s, [])
    else
      match e
      case Disconnection => OnDisconnect(s, c)
      case UsernameEvent(v) => OnUsername(s, c, v)
      case RoomEvent(v) => OnRoom(s, c, v)
      case MessageEvent(v) => OnMessage(s, c, v)
      case TypingEvent => OnTyping(s, c)
      case StopTypingEvent => OnStopTyping(s, c)
  }

  /** Events handled one at a time, in order. */
  function Run(s: State, events: seq<(ConnId, Event)>): Step
    decreases |events|
  {
    if events == [] then Step(s, [])
    else
      var first := Dispatch(s, events[0].0, events[0].1);
      var rest := Run(first.next, events[1..]);
      Step(rest.next, first.emits + rest.emits)
  }
}
