/** Two handlers as the code is written, where it departs from what it
    evidently intends. The rest of the model uses the corrected handlers in
    `Handlers`; the lemmas here show where the two differ and where they agree. */
module AsWritten {
  import opened JsValues
  import opened Registry
  import opened Handlers

  /** A handler invocation either returns, after its emits, or throws. */
  datatype Outcome = Returned(step: Step) | ThrewTypeError

  /** `username` as written: `username.trim()` is evaluated before the
      `String(username)` conversion, and a number, a boolean or an object has no
      `trim` method, so any truthy non-string throws and nothing is stored. */
  function OnUsernameAsWritten(s: State, c: ConnId, v: JsValue): Outcome
    requires c in s.conns
  {
    if !Truthy(v) then Returned(Step(s, [ErrorTo(c, NoUsername)]))
    else if !v.Str? then ThrewTypeError
    else if Trim(v.s) == "" then Returned(Step(s, [ErrorTo(c, NoUsername)]))
    else Returned(Step(s.(conns := s.conns[c := s.conns[c].(username := Some(v.s))]), []))
  }

  /** On string payloads, which are what the client sends, the code as written
      and the corrected handler agree. */
  lemma UsernameAsWrittenOnStrings(s: State, c: ConnId, name: string)
    requires c in s.conns
    ensures OnUsernameAsWritten(s, c, Str(name)) == Returned(OnUsername(s, c, Str(name)))
  {
  }

  /** The string form of a non-string value is never blank. */
  lemma {:induction false} NonStringNotBlank(v: JsValue)
    requires !v.Str?
    ensures !AllSpace(ToJsString(v))
  {
    var r := ToJsString(v);
    assert r[0] == '-' || '0' <= r[0] <= '9' || r[0] in "untf[";
    assert !IsJsSpace(r[0]);
  }

  /** Every truthy non-string throws as written, while the corrected handler
      stores its string form, which is what the `String` call intends. */
  lemma UsernameAsWrittenThrows(s: State, c: ConnId, v: JsValue)
    requires c in s.conns && Truthy(v) && !v.Str?
    ensures OnUsernameAsWritten(s, c, v) == ThrewTypeError
    ensures OnUsername(s, c, v).next.conns[c].username == Some(ToJsString(v))
  {
    NonStringNotBlank(v);
    TrimEmptyIff(ToJsString(v));
  }

  /** The concrete case: the number 42 as a name. */
  lemma UsernameFortyTwo(s: State, c: ConnId)
    requires c in s.conns
    ensures OnUsernameAsWritten(s, c, Num(42)) == ThrewTypeError
    ensures OnUsername(s, c, Num(42)).next.conns[c].username == Some("42")
  {
    assert Digits(4) == "4";
    assert ToJsString(Num(42)) == "42";
    UsernameAsWrittenThrows(s, c, Num(42));
  }

  /** `typing` / `stop typing` as written: `socket.to(socket.room)` runs even
      when `socket.room` is unset, and `undefined` used as a room name is the
      property key "undefined". */
  function RelayAsWritten(s: State, c: ConnId, event: string): Step
    requires c in s.conns
  {
    var conn := s.conns[c];
    Step(s, [ToRoom(s.rooms, ToJsString(RoomValue(conn)), c, event, UsernameValue(conn))])
  }

  /** With a room joined, the code as written and the corrected relay agree. */
  lemma RelayAsWrittenInRoom(s: State, c: ConnId, event: string)
    requires c in s.conns && Truthy(RoomValue(s.conns[c]))
    ensures RelayAsWritten(s, c, event) == Relay(s, c, event)
  {
  }

  /** Connection 1 has joined a room named "undefined"; connection 2 has
      neither a name nor a room. When 2 sends `typing`, the code as written
      delivers it to 1, outside any room 2 is in; the corrected relay sends nothing. */
  lemma RelayAsWrittenReachesOutsider()
    ensures var s := State(map[1 := Conn(Some("ann"), Some(Str("undefined"))), 2 := Conn(None, None)],
                           map["undefined" := {1}]);
      && Valid(s)
      && RoomKey(s, 2) == None
      && Inbox(RelayAsWritten(s, 2, "typing").emits, 1) == [Delivery("typing", Undefined)]
      && Inbox(Relay(s, 2, "typing").emits, 1) == []
  {
    var s := State(map[1 := Conn(Some("ann"), Some(Str("undefined"))), 2 := Conn(None, None)],
                   map["undefined" := {1}]);
    assert !IsJsSpace("ann"[0]);
    forall x, k ensures x in Members(s.rooms, k) <==> RoomKey(s, x) == Some(k) {
    }
    var e := RelayAsWritten(s, 2, "typing").emits;
    assert ToJsString(RoomValue(s.conns[2])) == "undefined";
    assert Members(s.rooms, "undefined") - {2} == {1};
    assert e == [Emit({1}, "typing", Undefined)];
    InboxOne(e[0], 1);
  }
}
