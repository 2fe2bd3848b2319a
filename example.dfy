/** A two-user exchange against `ChatServer`, checked with the handlers'
    contracts: alice joins "Lobby" alone, bob joins and alice is told,
    alice says "hi" and only bob receives it. */
module Example {
  import opened JsValues
  import opened Registry
  import opened Handlers
  import opened Server
  import Properties

  const Alice := Conn(Some("alice"), Some(Str("Lobby")))
  const Bob := Conn(Some("bob"), Some(Str("Lobby")))
  const AliceJoined := Emit({}, "message", SystemMessage("alice has joined"))
  const BobJoined := Emit({1}, "message", SystemMessage("bob has joined"))
  const AliceSaysHi := Emit({2}, "message", ChatMessage(Str("alice"), Str("hi")))

  /** A new connection `c` that has set the name `name`. */
  method Named(server: ChatServer, c: ConnId, name: string)
    requires server.Valid() && c !in server.conns && name != "" && !IsJsSpace(name[0])
    modifies server
    ensures server.Valid()
    ensures server.conns == old(server.conns)[c := Conn(Some(name), None)]
    ensures server.rooms == old(server.rooms) && server.outbox == old(server.outbox)
  {
    server.Connect(c);
    Properties.UsernameAccepted(server.Model(), c, Str(name));
    server.Username(c, Str(name));
  }

  method AliceJoins() returns (server: ChatServer)
    ensures fresh(server) && server.Valid()
    ensures server.conns == map[1 := Alice] && server.rooms == map["Lobby" := {1}]
    ensures server.outbox == [AliceJoined]
  {
    server := new ChatServer();
    Named(server, 1, "alice");
    ghost var named := server.Model();
    assert Join(named.rooms, "Lobby", 1) == map["Lobby" := {1}] by {
      assert Members(named.rooms, "Lobby") + {1} == {1};
    }
    assert !Truthy(RoomValue(named.conns[1]));
    assert "alice" + " has joined" == "alice has joined";
    assert Members(map["Lobby" := {1}], "Lobby") - {1} == {};
    server.Room(1, Str("Lobby"));
    assert server.Model() == State(map[1 := Alice], map["Lobby" := {1}]);
  }

  method BobJoins(server: ChatServer)
    requires server.Valid()
    requires server.conns == map[1 := Alice, 2 := Conn(Some("bob"), None)]
    requires server.rooms == map["Lobby" := {1}]
    modifies server
    ensures server.Valid()
    ensures server.conns == map[1 := Alice, 2 := Bob] && server.rooms == map["Lobby" := {1, 2}]
    ensures server.outbox == old(server.outbox) + [BobJoined]
  {
    ghost var named := server.Model();
    assert Join(named.rooms, "Lobby", 2) == map["Lobby" := {1, 2}] by {
      assert Members(named.rooms, "Lobby") + {2} == {1, 2};
    }
    assert !Truthy(RoomValue(named.conns[2]));
    assert "bob" + " has joined" == "bob has joined";
    assert Members(map["Lobby" := {1, 2}], "Lobby") - {2} == {1};
    assert named.conns[2 := Bob] == map[1 := Alice, 2 := Bob];
    assert OnRoom(named, 2, Str("Lobby")) == Step(State(map[1 := Alice, 2 := Bob], map["Lobby" := {1, 2}]), [BobJoined]);
    server.Room(2, Str("Lobby"));
    assert server.Model() == State(map[1 := Alice, 2 := Bob], map["Lobby" := {1, 2}]);
    assert server.outbox == old(server.outbox) + [BobJoined];
  }

  method AliceSpeaks(server: ChatServer)
    requires server.Valid()
    requires server.conns == map[1 := Alice, 2 := Bob] && server.rooms == map["Lobby" := {1, 2}]
    modifies server
    ensures server.outbox == old(server.outbox) + [AliceSaysHi]
  {
    assert Members(server.rooms, "Lobby") - {1} == {2};
    server.Message(1, Str("hi"));
  }

  method Lobby() {
    var server := AliceJoins();
    Named(server, 2, "bob");
    assert server.conns == map[1 := Alice, 2 := Conn(Some("bob"), None)];
    BobJoins(server);
    AliceSpeaks(server);
    assert server.outbox == [AliceJoined] + [BobJoined] + [AliceSaysHi];
    InboxConcat([AliceJoined] + [BobJoined], [AliceSaysHi], 1);
    InboxConcat([AliceJoined] + [BobJoined], [AliceSaysHi], 2);
    InboxConcat([AliceJoined], [BobJoined], 1);
    InboxConcat([AliceJoined], [BobJoined], 2);
    InboxOne(AliceJoined, 1);
    InboxOne(AliceJoined, 2);
    InboxOne(BobJoined, 1);
    InboxOne(BobJoined, 2);
    InboxOne(AliceSaysHi, 1);
    InboxOne(AliceSaysHi, 2);
    assert server.Received(1) == [Delivery("message", SystemMessage("bob has joined"))];
    assert server.Received(2) == [Delivery("message", ChatMessage(Str("alice"), Str("hi")))];
  }
}
