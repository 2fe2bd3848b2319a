/** What each handler guarantees: the invariant it keeps, how it changes the
    session fields and room membership, and exactly who receives what. */
module Properties {
  import opened JsValues
  import opened Registry
  import opened Handlers

  /** A stored name is never empty, so `!socket.username` holds exactly when no name is set. */
  lemma NameTruthy(conn: Conn)
    requires ConnOk(conn)
    ensures Truthy(UsernameValue(conn)) <==> conn.username.Some?
  {
    if conn.username.Some? {
      assert conn.username.value != "" by {
        assert !AllSpace(conn.username.value);
      }
    }
  }

  /** The invariant read from one connection's side: it is in the room its
      field names and in no other. */
  lemma MembershipOf(s: State, c: ConnId, k: string)
    requires Valid(s)
    ensures c in Members(s.rooms, k) <==> RoomKey(s, c) == Some(k)
  {
  }

  /** A change that keeps the room registry and what every `room` field names
      keeps the invariant, provided every connection is still well formed. */
  lemma SameRoomsKeepValid(s: State, t: State)
    requires Valid(s)
    requires t.rooms == s.rooms
    requires forall x :: RoomKey(t, x) == RoomKey(s, x)
    requires forall x | x in t.conns :: ConnOk(t.conns[x])
    ensures Valid(t)
  {
    forall x, k ensures x in Members(t.rooms, k) <==> RoomKey(t, x) == Some(k) {
      MembershipOf(s, x, k);
    }
  }

  // ---------------------------------------------------------------------------
  // username

  /** Renaming a connection keeps the invariant. */
  lemma RenameKeepsValid(s: State, c: ConnId, name: string)
    requires Valid(s) && c in s.conns && ValidName(name)
    ensures Valid(s.(conns := s.conns[c := s.conns[c].(username := Some(name))]))
  {
    var t := s.(conns := s.conns[c := s.conns[c].(username := Some(name))]);
    assert forall x :: RoomKey(t, x) == RoomKey(s, x);
    SameRoomsKeepValid(s, t);
  }

  /** A truthy name that is not white space only is stored as `String(username)`,
      replacing any earlier one; the room field and all memberships stay. */
  lemma UsernameAccepted(s: State, c: ConnId, v: JsValue)
    requires Valid(s) && c in s.conns
    requires Truthy(v) && !AllSpace(ToJsString(v))
    ensures Valid(OnUsername(s, c, v).next)
    ensures OnUsername(s, c, v).next.conns.Keys == s.conns.Keys
    ensures OnUsername(s, c, v).next.conns[c].username == Some(ToJsString(v))
    ensures OnUsername(s, c, v).next.conns[c].room == s.conns[c].room
    ensures forall x | x in s.conns && x != c :: OnUsername(s, c, v).next.conns[x] == s.conns[x]
    ensures OnUsername(s, c, v).next.rooms == s.rooms
    ensures OnUsername(s, c, v).emits == []
  {
    TrimEmptyIff(ToJsString(v));
    RenameKeepsValid(s, c, ToJsString(v));
  }

  /** A falsy or blank name changes nothing and earns the sender alone one error. */
  lemma UsernameRefused(s: State, c: ConnId, v: JsValue)
    requires c in s.conns
    requires !Truthy(v) || AllSpace(ToJsString(v))
    ensures var st := OnUsername(s, c, v);
      && st.next == s
      && forall x :: Inbox(st.emits, x) == if x == c then [Delivery("errorMessage", Str(NoUsername))] else []
  {
    TrimEmptyIff(ToJsString(v));
    var st := OnUsername(s, c, v);
    forall x ensures Inbox(st.emits, x) == if x == c then [Delivery("errorMessage", Str(NoUsername))] else [] {
      InboxOne(ErrorTo(c, NoUsername), x);
    }
  }

  // ---------------------------------------------------------------------------
  // room

  /** The two refusals, checked in this order, go to the sender alone and change nothing. */
  lemma RoomRefused(s: State, c: ConnId, v: JsValue)
    requires Valid(s) && c in s.conns
    requires s.conns[c].username.None? || !Truthy(v)
    ensures var st := OnRoom(s, c, v);
      && st.next == s
      && forall x :: Inbox(st.emits, x) ==
           if x == c then [Delivery("errorMessage", Str(if s.conns[c].username.None? then UsernameNotSet else NoRoom))]
           else []
  {
    var st := OnRoom(s, c, v);
    NameTruthy(s.conns[c]);
    forall x ensures Inbox(st.emits, x) ==
        if x == c then [Delivery("errorMessage", Str(if s.conns[c].username.None? then UsernameNotSet else NoRoom))] else []
    {
      InboxOne(st.emits[0], x);
    }
  }

  /** An accepted request moves the connection into the requested room and out
      of every other, keeps the invariant and touches no other connection. */
  lemma RoomSwitch(s: State, c: ConnId, v: JsValue)
    requires Valid(s) && c in s.conns
    requires s.conns[c].username.Some? && Truthy(v)
    ensures var st := OnRoom(s, c, v);
      && Valid(st.next)
      && st.next.conns.Keys == s.conns.Keys
      && st.next.conns[c] == Conn(s.conns[c].username, Some(v))
      && (forall x | x in s.conns && x != c :: st.next.conns[x] == s.conns[x])
      && (forall k :: c in Members(st.next.rooms, k) <==> k == ToJsString(v))
      && (forall x, k | x != c :: x in Members(st.next.rooms, k) <==> x in Members(s.rooms, k))
  {
    var st := OnRoom(s, c, v);
    NameTruthy(s.conns[c]);
    var key := ToJsString(v);
    assert RoomKey(st.next, c) == Some(key);
    assert forall x | x != c :: RoomKey(st.next, x) == RoomKey(s, x);
    forall k ensures c in Members(st.next.rooms, k) <==> k == key {
      MembershipOf(s, c, k);
    }
    forall x, k | x != c ensures x in Members(st.next.rooms, k) <==> x in Members(s.rooms, k) {
    }
    forall x, k ensures x in Members(st.next.rooms, k) <==> RoomKey(st.next, x) == Some(k) {
      if x != c {
        MembershipOf(s, x, k);
      }
    }
  }

  /** The "has left" notice reaches exactly the other connections in the room being left. */
  lemma LeftNoticeReaches(s: State, c: ConnId, x: ConnId)
    requires Valid(s) && c in s.conns && s.conns[c].username.Some?
    ensures var conn := s.conns[c];
      Inbox(LeftNotice(LeaveCurrent(s.rooms, c, conn), c, conn, conn.username.value), x) ==
        if x != c && RoomKey(s, c).Some? && RoomKey(s, x) == RoomKey(s, c)
        then [Delivery("message", SystemMessage(conn.username.value + " has left"))] else []
  {
    var conn := s.conns[c];
    var notice := LeftNotice(LeaveCurrent(s.rooms, c, conn), c, conn, conn.username.value);
    assert Truthy(RoomValue(conn)) <==> RoomKey(s, c).Some?;
    if Truthy(RoomValue(conn)) {
      InboxOne(notice[0], x);
      MembershipOf(s, x, ToJsString(RoomValue(conn)));
    }
  }

  /** The welcome reaches the joiner alone, and only for the Welcome Room. */
  lemma WelcomeReaches(c: ConnId, v: JsValue, name: string, x: ConnId)
    ensures Inbox(Welcome(c, v, name), x) ==
      if x == c && v == Str(WelcomeRoom) then [Delivery("message", SystemMessage(WelcomeText(name)))] else []
  {
    if v == Str(WelcomeRoom) {
      InboxOne(Welcome(c, v, name)[0], x);
    }
  }

  /** The "has joined" notice reaches exactly the connections already in the requested room. */
  lemma JoinedNoticeReaches(s: State, c: ConnId, v: JsValue, x: ConnId)
    requires Valid(s) && c in s.conns && s.conns[c].username.Some?
    ensures var conn := s.conns[c];
      var key := ToJsString(v);
      Inbox([ToRoom(Join(LeaveCurrent(s.rooms, c, conn), key, c), key, c, "message",
                    SystemMessage(conn.username.value + " has joined"))], x) ==
        if x != c && RoomKey(s, x) == Some(key)
        then [Delivery("message", SystemMessage(conn.username.value + " has joined"))] else []
  {
    var conn := s.conns[c];
    var key := ToJsString(v);
    InboxOne(ToRoom(Join(LeaveCurrent(s.rooms, c, conn), key, c), key, c, "message",
                    SystemMessage(conn.username.value + " has joined")), x);
    MembershipOf(s, x, key);
  }

  /** Who hears about an accepted request: the old room's remaining members
      get one "has left", then the joiner alone gets the welcome if the room is
      the Welcome Room, then the new room's other members get one "has joined".
      Membership is read from the `room` fields before the request. */
  lemma RoomNotices(s: State, c: ConnId, v: JsValue)
    requires Valid(s) && c in s.conns
    requires s.conns[c].username.Some? && Truthy(v)
    ensures var st := OnRoom(s, c, v);
      var name := s.conns[c].username.value;
      && (forall x :: Inbox(st.emits, x) ==
            (if x != c && RoomKey(s, c).Some? && RoomKey(s, x) == RoomKey(s, c)
             then [Delivery("message", SystemMessage(name + " has left"))] else [])
            + (if x == c && v == Str(WelcomeRoom)
               then [Delivery("message", SystemMessage(WelcomeText(name)))] else [])
            + (if x != c && RoomKey(s, x) == Some(ToJsString(v))
               then [Delivery("message", SystemMessage(name + " has joined"))] else []))
      && Inbox(st.emits, c) ==
           if v == Str(WelcomeRoom) then [Delivery("message", SystemMessage(WelcomeText(name)))] else []
  {
    var conn := s.conns[c];
    var name := conn.username.value;
    NameTruthy(conn);
    var key := ToJsString(v);
    var afterLeave := LeaveCurrent(s.rooms, c, conn);
    var left := LeftNotice(afterLeave, c, conn, name);
    var welcome := Welcome(c, v, name);
    var joined := [ToRoom(Join(afterLeave, key, c), key, c, "message", SystemMessage(name + " has joined"))];
    assert OnRoom(s, c, v).emits == left + welcome + joined;
    forall x ensures Inbox(left + welcome + joined, x) == Inbox(left, x) + Inbox(welcome, x) + Inbox(joined, x) {
      InboxConcat(left + welcome, joined, x);
      InboxConcat(left, welcome, x);
    }
    forall x ensures Inbox(left, x) ==
        if x != c && RoomKey(s, c).Some? && RoomKey(s, x) == RoomKey(s, c)
        then [Delivery("message", SystemMessage(name + " has left"))] else []
    {
      LeftNoticeReaches(s, c, x);
    }
    forall x ensures Inbox(welcome, x) ==
        if x == c && v == Str(WelcomeRoom) then [Delivery("message", SystemMessage(WelcomeText(name)))] else []
    {
      WelcomeReaches(c, v, name, x);
    }
    forall x ensures Inbox(joined, x) ==
        if x != c && RoomKey(s, x) == Some(key) then [Delivery("message", SystemMessage(name + " has joined"))] else []
    {
      JoinedNoticeReaches(s, c, v, x);
    }
  }

  // ---------------------------------------------------------------------------
  // message

  /** The order in which an accepted request emits: the "has left" notice to
      the old room first, when there was one, then the welcome, when the room
      is the Welcome Room, and the "has joined" notice last, always. */
  lemma RoomEmitOrder(s: State, c: ConnId, v: JsValue)
    requires Valid(s) && c in s.conns
    requires s.conns[c].username.Some? && Truthy(v)
    ensures var e := OnRoom(s, c, v).emits;
      var name := s.conns[c].username.value;
      && |e| == (if RoomKey(s, c).Some? then 1 else 0) + (if v == Str(WelcomeRoom) then 1 else 0) + 1
      && e[|e| - 1].event == "message"
      && e[|e| - 1].payload == SystemMessage(name + " has joined")
      && (v == Str(WelcomeRoom) ==> e[|e| - 2] == Emit({c}, "message", SystemMessage(WelcomeText(name))))
      && (RoomKey(s, c).Some? ==> e[0].event == "message" && e[0].payload == SystemMessage(name + " has left"))
  {
    NameTruthy(s.conns[c]);
  }

  /** Without a room the sender alone gets an error and nothing is relayed;
      in a room, exactly the other connections in the same room receive
      `{username, content}` with the sender's stored name. */
  lemma MessageSpec(s: State, c: ConnId, v: JsValue)
    requires Valid(s) && c in s.conns
    ensures var st := OnMessage(s, c, v);
      && st.next == s
      && (RoomKey(s, c).None? ==>
            forall x :: Inbox(st.emits, x) == if x == c then [Delivery("errorMessage", Str(NoRoomsJoined))] else [])
      && (RoomKey(s, c).Some? ==>
            && s.conns[c].username.Some?
            && forall x :: Inbox(st.emits, x) ==
                 if x != c && RoomKey(s, x) == RoomKey(s, c)
                 then [Delivery("message", ChatMessage(Str(s.conns[c].username.value), v))] else [])
  {
    var st := OnMessage(s, c, v);
    assert st.emits == [st.emits[0]];
    NameTruthy(s.conns[c]);
    if RoomKey(s, c).None? {
      forall x ensures Inbox(st.emits, x) == if x == c then [Delivery("errorMessage", Str(NoRoomsJoined))] else [] {
        InboxOne(st.emits[0], x);
      }
    } else {
      forall x ensures Inbox(st.emits, x) ==
          if x != c && RoomKey(s, x) == RoomKey(s, c)
          then [Delivery("message", ChatMessage(Str(s.conns[c].username.value), v))] else []
      {
        InboxOne(st.emits[0], x);
        MembershipOf(s, x, RoomKey(s, c).value);
      }
    }
  }

  // ---------------------------------------------------------------------------
  // typing / stop typing

  /** The sender's stored name goes, under the same event name, to exactly the
      other connections in its room; no state changes and there is no error. */
  lemma RelaySpec(s: State, c: ConnId, event: string)
    requires Valid(s) && c in s.conns
    ensures var st := Relay(s, c, event);
      && st.next == s
      && (RoomKey(s, c).Some? ==> s.conns[c].username.Some?)
      && forall x :: Inbox(st.emits, x) ==
           if x != c && RoomKey(s, c).Some? && RoomKey(s, x) == RoomKey(s, c)
           then [Delivery(event, Str(s.conns[c].username.value))] else []
  {
    var st := Relay(s, c, event);
    if RoomKey(s, c).Some? {
      assert st.emits == [st.emits[0]];
      forall x ensures Inbox(st.emits, x) ==
          if x != c && RoomKey(s, x) == RoomKey(s, c) then [Delivery(event, Str(s.conns[c].username.value))] else []
      {
        InboxOne(st.emits[0], x);
        MembershipOf(s, x, RoomKey(s, c).value);
      }
    }
  }

  // ---------------------------------------------------------------------------
  // connection lifetime

  lemma ConnectSpec(s: State, c: ConnId)
    requires Valid(s) && c !in s.conns
    ensures var st := OnConnect(s, c);
      && Valid(st.next)
      && st.next.conns.Keys == s.conns.Keys + {c}
      && st.next.conns[c] == Conn(None, None)
      && (forall x | x in s.conns :: st.next.conns[x] == s.conns[x])
      && st.next.rooms == s.rooms
      && (forall k :: c !in Members(st.next.rooms, k))
      && st.emits == []
  {
    var st := OnConnect(s, c);
    forall k ensures c !in Members(st.next.rooms, k) {
      MembershipOf(s, c, k);
    }
    forall x, k ensures x in Members(st.next.rooms, k) <==> RoomKey(st.next, x) == Some(k) {
      MembershipOf(s, x, k);
    }
  }

  /** Closing leaves no stale membership and notifies nobody. */
  lemma DisconnectSpec(s: State, c: ConnId)
    requires Valid(s) && c in s.conns
    ensures var st := OnDisconnect(s, c);
      && Valid(st.next)
      && st.next.conns.Keys == s.conns.Keys - {c}
      && (forall x | x in st.next.conns :: st.next.conns[x] == s.conns[x])
      && (forall k :: c !in Members(st.next.rooms, k))
      && (forall x, k | x != c :: x in Members(st.next.rooms, k) <==> x in Members(s.rooms, k))
      && st.emits == []
  {
    var st := OnDisconnect(s, c);
    forall x, k ensures x in Members(st.next.rooms, k) <==> RoomKey(st.next, x) == Some(k) {
      MembershipOf(s, x, k);
    }
  }

  // ---------------------------------------------------------------------------
  // sequences of events

  lemma DispatchKeepsValid(s: State, c: ConnId, e: Event)
    requires Valid(s)
    ensures Valid(Dispatch(s, c, e).next)
  {
    if e.Connection? {
      if c !in s.conns { ConnectSpec(s, c); }
    } else if c in s.conns {
      match e
      case Disconnection => DisconnectSpec(s, c);
      case UsernameEvent(v) =>
        TrimEmptyIff(ToJsString(v));
        if Truthy(v) && !AllSpace(ToJsString(v)) { UsernameAccepted(s, c, v); } else { UsernameRefused(s, c, v); }
      case RoomEvent(v) =>
        if s.conns[c].username.None? || !Truthy(v) { RoomRefused(s, c, v); } else { RoomSwitch(s, c, v); }
      case MessageEvent(v) => MessageSpec(s, c, v);
      case TypingEvent => RelaySpec(s, c, "typing");
      case StopTypingEvent => RelaySpec(s, c, "stop typing");
    }
  }

  /** The session invariant holds after any sequence of events. */
  lemma {:induction false} RunKeepsValid(s: State, events: seq<(ConnId, Event)>)
    requires Valid(s)
    ensures Valid(Run(s, events).next)
    decreases |events|
  {
    if events != [] {
      DispatchKeepsValid(s, events[0].0, events[0].1);
      RunKeepsValid(Dispatch(s, events[0].0, events[0].1).next, events[1..]);
    }
  }

  function RoomRequests(cs: seq<ConnId>, v: JsValue): (events: seq<(ConnId, Event)>)
    ensures |events| == |cs|
    ensures forall i | 0 <= i < |cs| :: events[i] == (cs[i], RoomEvent(v))
  {
    if cs == [] then [] else [(cs[0], RoomEvent(v))] + RoomRequests(cs[1..], v)
  }

  /** One accepted room request adds its sender to the requested room and
      keeps every connection's name. */
  lemma RoomRequestStep(s: State, c: ConnId, v: JsValue)
    requires Valid(s) && c in s.conns && s.conns[c].username.Some? && Truthy(v)
    ensures Valid(OnRoom(s, c, v).next)
    ensures OnRoom(s, c, v).next.conns.Keys == s.conns.Keys
    ensures forall x | x in s.conns :: OnRoom(s, c, v).next.conns[x].username == s.conns[x].username
    ensures Members(OnRoom(s, c, v).next.rooms, ToJsString(v)) == Members(s.rooms, ToJsString(v)) + {c}
  {
    RoomSwitch(s, c, v);
  }

  /** Running the requests of `cs` is running the first one, then the rest. */
  lemma RunRequestsCons(s: State, cs: seq<ConnId>, v: JsValue)
    requires cs != [] && cs[0] in s.conns
    ensures Run(s, RoomRequests(cs, v)).next == Run(OnRoom(s, cs[0], v).next, RoomRequests(cs[1..], v)).next
  {
    var events := RoomRequests(cs, v);
    assert events[1..] == RoomRequests(cs[1..], v);
    assert Dispatch(s, cs[0], RoomEvent(v)) == OnRoom(s, cs[0], v);
  }

  lemma ElementsCons(cs: seq<ConnId>)
    requires cs != []
    ensures (set x | x in cs) == {cs[0]} + (set x | x in cs[1..])
  {
    assert forall x | x in cs :: x == cs[0] || x in cs[1..];
  }

  /** Named connections requesting the same room one after another all end up
      in it: none is lost, and none appears twice since members form a set. */
  lemma {:induction false} JoinsAccumulate(s: State, cs: seq<ConnId>, v: JsValue)
    requires Valid(s) && Truthy(v)
    requires forall x | x in cs :: x in s.conns && s.conns[x].username.Some?
    ensures Members(Run(s, RoomRequests(cs, v)).next.rooms, ToJsString(v))
         == Members(s.rooms, ToJsString(v)) + (set x | x in cs)
    decreases |cs|
  {
    if cs != [] {
      var tail := cs[1..];
      var next := OnRoom(s, cs[0], v).next;
      RunRequestsCons(s, cs, v);
      RoomRequestStep(s, cs[0], v);
      assert forall x | x in tail :: x in cs;
      JoinsAccumulate(next, tail, v);
      ElementsCons(cs);
    }
  }
}
