/** Short runs of the server and client models, with their outcomes proved. */
module Scenarios {
  import opened Wrappers
  import opened MessageModel
  import opened Protocol
  import opened ChatServer
  import opened ClientApp
  import opened MessageItem

  /** Connections 1 and 2, with alice (1) in r1. */
  method AliceInR1() returns (server: Server)
    ensures fresh(server) && server.Valid()
    ensures server.sockets == map[1 := SocketData(Some("alice"), Some("r1")), 2 := Unjoined]
    ensures server.rooms == map["r1" := [1]] && server.store == []
  {
    server := new Server();
    server.OnConnection(1);
    server.OnConnection(2);
    assert server.Members("r1") == [];
    var out := server.OnJoinRoom(1, JoinPayload(Some("alice"), Some("r1")), 10);
    assert AddMember([], 1) == [1];
  }

  /** alice (1) and then bob (2) in r1, nothing stored. */
  method AliceAndBobInR1() returns (server: Server)
    ensures fresh(server) && server.Valid()
    ensures server.sockets == map[1 := SocketData(Some("alice"), Some("r1")), 2 := SocketData(Some("bob"), Some("r1"))]
    ensures server.rooms == map["r1" := [1, 2]] && server.store == []
  {
    server := AliceInR1();
    assert server.Members("r1") == [1];
    var out := server.OnJoinRoom(2, JoinPayload(Some("bob"), Some("r1")), 12);
    assert AddMember([1], 2) == [1, 2];
  }

  /** When bob joins r1 after alice, the room gets the user list
      ["alice", "bob"] in joining order, and everyone but bob gets the
      notice that bob has joined. */
  method TwoUsersJoin() {
    var server := AliceInR1();
    var out := server.OnJoinRoom(2, JoinPayload(Some("bob"), Some("r1")), 12);
    assert server.Members("r1") == [1, 2];
    assert out[1].payload == Users(["alice", "bob"]);
    assert out[2] == Emit(ToRoomExceptCaller("r1"), ChatMessageEvent, Item(Notice("bob" + JoinedSuffix, 12)));
  }

  /** alice alone in the room sends "hi": it is stored as `sent`, and a
      later `message_seen` for it marks it `seen` and is announced under the
      name `message_status_updated`. */
  method LoneSenderThenSeen() {
    var server := new Server();
    server.OnConnection(1);
    var out := server.OnJoinRoom(1, JoinPayload(Some("alice"), Some("r1")), 10);
    out := server.OnChatMessage(ChatPayload(Some("r1"), Some("alice"), Some("hi")), 11);
    var m := server.store[0];
    assert m.status == Sent && m.author == "alice";
    assert SeenEmission(Some(Saved(m)), true, "bob") == [ClientEmit(MessageSeenEvent, SeenRequest(m.id))];
    out := server.OnMessageSeen(m.id);
    assert server.store[0] == m.(status := Seen);
    assert out == [Emit(ToRoom("r1"), StatusUpdatedEvent, Item(Saved(m.(status := Seen))))];
  }

  /** The client does not subscribe to `message_status_updated`, so the
      update of the previous run leaves alice's copy showing one check. */
  method StatusUpdateIsIgnored(alice: App, m: Message)
    requires alice.Valid() && alice.username == "alice" && alice.messages == [Saved(m)]
    requires m.author == "alice" && m.status == Sent
    modifies alice
  {
    alice.Receive(StatusUpdatedEvent, Item(Saved(m.(status := Seen))));
    assert alice.messages == [Saved(m)];
    assert StatusIndicator(alice.messages[0], "alice") == SingleCheck;
  }

  /** With two connections in the room a new message starts `seen`, and the
      receiving client has nothing to report. */
  method MessageToOccupiedRoomStartsSeen() {
    var server := AliceAndBobInR1();
    var out := server.OnChatMessage(ChatPayload(Some("r1"), Some("alice"), Some("hi")), 3);
    var m := server.store[0];
    assert m.status == Seen;
    assert server.Recipients(out[0].target, 1) == [1, 2];
    assert SeenEmission(Some(Saved(m)), true, "bob") == [];
  }

  /** A connection that joins a second room stays in the first, where its
      name becomes the latest one. */
  method RejoinKeepsEarlierRoom() {
    var server := AliceAndBobInR1();
    var out := server.OnJoinRoom(2, JoinPayload(Some("bobby"), Some("r2")), 3);
    assert server.Members("r2") == [2];
    assert server.Members("r1") == [1, 2];
    var users := server.UsersInRoom("r1");
    assert users[0] == "alice" && users[1] == "bobby";
  }
}
