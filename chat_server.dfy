/** The socket event router of chat-server/index.js as a state machine over
    the connected sockets and their `socket.data`, the adapter's room
    membership, and the messages collection (an in-memory log standing in for
    MongoDB). Each handler runs as one atomic step and returns, in order, the
    emits it makes. */
module ChatServer {
  import opened Wrappers
  import opened Seqs
  import opened MessageModel
  import opened Protocol

  type ConnId = nat

  /** `socket.data`: empty on connection, both fields set by a successful
      `join_room`. */
  datatype SocketData = SocketData(username: Option<string>, room: Option<string>)

  const Unjoined := SocketData(None, None)

  const JoinedSuffix := " has joined the chat."
  const LeftSuffix := " has left the chat."

  /** Inbound payloads; a field the client left out is `None`. */
  datatype JoinPayload = JoinPayload(username: Option<string>, room: Option<string>)
  datatype ChatPayload = ChatPayload(room: Option<string>, author: Option<string>, text: Option<string>)
  datatype TypingPayload = TypingPayload(room: string, username: string)

  // ----- Queries on the messages collection -----

  /** `Message.find({ room })`: the room's documents in store order. */
  function RoomMessages(store: seq<Message>, room: string): (r: seq<Message>)
    ensures forall m | m in r :: m in store && m.room == room
    ensures forall m | m in store && m.room == room :: m in r
    ensures forall m :: multiset(r)[m] == if m.room == room then multiset(store)[m] else 0
  {
    if store == [] then []
    else
      assert store == [store[0]] + store[1..];
      (if store[0].room == room then [store[0]] else []) + RoomMessages(store[1..], room)
  }

  ghost predicate SortedByTime(s: seq<Message>) {
    forall i, j | 0 <= i < j < |s| :: s[i].timestamp <= s[j].timestamp
  }

  /** Inserts `m` before the first document with a later or equal timestamp. */
  function InsertByTime(s: seq<Message>, m: Message): (r: seq<Message>)
    ensures multiset(r) == multiset(s) + multiset{m}
    ensures forall x | x in r :: x in s || x == m
  {
    if s == [] || m.timestamp <= s[0].timestamp then [m] + s
    else
      assert s == [s[0]] + s[1..];
      [s[0]] + InsertByTime(s[1..], m)
  }

  lemma {:induction false} InsertByTimeSorted(s: seq<Message>, m: Message)
    requires SortedByTime(s)
    ensures SortedByTime(InsertByTime(s, m))
  {
    if s == [] || m.timestamp <= s[0].timestamp {
      var r := [m] + s;
      forall i, j | 0 <= i < j < |r| ensures r[i].timestamp <= r[j].timestamp {
        if i == 0 {
          assert r[j] == s[j - 1];
        } else {
          assert r[i] == s[i - 1] && r[j] == s[j - 1];
        }
      }
    } else {
      var tail := s[1..];
      assert SortedByTime(tail) by {
        forall i, j | 0 <= i < j < |tail| ensures tail[i].timestamp <= tail[j].timestamp {
          assert tail[i] == s[i + 1] && tail[j] == s[j + 1];
        }
      }
      InsertByTimeSorted(tail, m);
      var rest := InsertByTime(tail, m);
      forall x | x in rest ensures s[0].timestamp <= x.timestamp {
        if x != m {
          var k :| 0 <= k < |tail| && tail[k] == x;
          assert s[k + 1] == x;
        }
      }
      var r := [s[0]] + rest;
      assert r == InsertByTime(s, m);
      forall i, j | 0 <= i < j < |r| ensures r[i].timestamp <= r[j].timestamp {
        if i == 0 {
          assert r[j] == rest[j - 1] && rest[j - 1] in rest;
        } else {
          assert r[i] == rest[i - 1] && r[j] == rest[j - 1];
        }
      }
    }
  }

  /** `.sort({ timestamp: 'asc' })`, as an insertion sort. */
  function SortByTime(s: seq<Message>): (r: seq<Message>)
    ensures SortedByTime(r)
    ensures multiset(r) == multiset(s)
  {
    if s == [] then []
    else
      assert s == [s[0]] + s[1..];
      var sortedTail := SortByTime(s[1..]);
      InsertByTimeSorted(sortedTail, s[0]);
      InsertByTime(sortedTail, s[0])
  }

  /** The history a joining connection receives. */
  function RoomHistory(store: seq<Message>, room: string): seq<Message> {
    SortByTime(RoomMessages(store, room))
  }

  /** The history holds exactly the stored documents of the room, each as
      often as in the room's log, in ascending timestamp order. */
  lemma HistoryIsRoomLogInTimeOrder(store: seq<Message>, room: string)
    ensures var h := RoomHistory(store, room);
      && SortedByTime(h)
      && multiset(h) == multiset(RoomMessages(store, room))
      && (forall m | m in h :: m in store && m.room == room)
      && (forall m | m in store && m.room == room :: m in h)
  {
    var h, log := RoomHistory(store, room), RoomMessages(store, room);
    forall m | m in h ensures m in store && m.room == room {
      assert m in multiset(h);
      assert m in multiset(log);
    }
    forall m | m in store && m.room == room ensures m in h {
      assert m in log;
      assert m in multiset(log);
      assert m in multiset(h);
    }
  }

  /** `findById`: the position of the document with this `_id`. */
  function IndexOfId(store: seq<Message>, id: MessageId): (k: Option<nat>)
    ensures k.Some? ==> k.value < |store| && store[k.value].id == id
    ensures k.None? ==> forall i | 0 <= i < |store| :: store[i].id != id
  {
    if store == [] then None
    else if store[0].id == id then Some(0)
    else
      match IndexOfId(store[1..], id)
      case None => None
      case Some(j) => Some(j + 1)
  }

  /** The collection after `updateMany({ _id: id }, { status: 'seen' })`: the
      reference meaning of the seen update. */
  function MarkSeen(store: seq<Message>, id: MessageId): (r: seq<Message>)
    ensures |r| == |store|
    ensures forall i | 0 <= i < |store| ::
      r[i] == if store[i].id == id then store[i].(status := Seen) else store[i]
  {
    if store == [] then []
    else [if store[0].id == id then store[0].(status := Seen) else store[0]] + MarkSeen(store[1..], id)
  }

  /** Marking a message seen twice is the same as marking it once. */
  lemma {:induction false} MarkSeenIdempotent(store: seq<Message>, id: MessageId)
    ensures MarkSeen(MarkSeen(store, id), id) == MarkSeen(store, id)
  {
    var once := MarkSeen(store, id);
    var twice := MarkSeen(once, id);
    assert |twice| == |once|;
    forall i | 0 <= i < |once| ensures twice[i] == once[i] {
    }
  }

  /** The seen update only ever moves a status to `seen`, keeps every other
      field, keeps `seen` statuses, and leaves the log as it is when the id is
      unknown. */
  lemma MarkSeenOnlyRaisesStatus(store: seq<Message>, id: MessageId)
    ensures var r := MarkSeen(store, id);
      && (forall i | 0 <= i < |store| :: r[i].(status := store[i].status) == store[i])
      && (forall i | 0 <= i < |store| :: r[i].status == store[i].status || r[i].status == Seen)
      && (forall i | 0 <= i < |store| && store[i].status == Seen :: r[i].status == Seen)
      && ((forall i | 0 <= i < |store| :: store[i].id != id) ==> r == store)
  {
    var r := MarkSeen(store, id);
    if forall i | 0 <= i < |store| :: store[i].id != id {
      assert |r| == |store|;
      forall i | 0 <= i < |store| ensures r[i] == store[i] {
      }
    }
  }

  ghost predicate UniqueIds(store: seq<Message>) {
    forall i, j | 0 <= i < j < |store| :: store[i].id != store[j].id
  }

  /** With unique ids the seen update touches the one document `findById`
      finds. */
  lemma MarkSeenAtIndex(store: seq<Message>, id: MessageId)
    requires UniqueIds(store)
    ensures IndexOfId(store, id).Some? ==>
      var k := IndexOfId(store, id).value;
      MarkSeen(store, id) == store[k := store[k].(status := Seen)]
    ensures IndexOfId(store, id).None? ==> MarkSeen(store, id) == store
  {
    var r := MarkSeen(store, id);
    match IndexOfId(store, id)
    case Some(k) =>
      var u := store[k := store[k].(status := Seen)];
      forall i | 0 <= i < |store| ensures r[i] == u[i] {
      }
    case None =>
      forall i | 0 <= i < |store| ensures r[i] == store[i] {
      }
  }

  // ----- Room membership -----

  /** A socket is either fresh or has both a truthy username and room. */
  ghost predicate JoinedOrFresh(d: SocketData) {
    d == Unjoined || (Present(d.username) && Present(d.room))
  }

  /** A room of the adapter: non-empty, each connection once, and every
      member a connected socket that has joined under a username. */
  ghost predicate MembersOk(ms: seq<ConnId>, sockets: map<ConnId, SocketData>) {
    && ms != []
    && NoDup(ms)
    && forall c | c in ms :: c in sockets && Present(sockets[c].username)
  }

  /** `socket.join(room)`: the room's connection set with `c` added. */
  function AddMember(ms: seq<ConnId>, c: ConnId): seq<ConnId> {
    if c in ms then ms else ms + [c]
  }

  /** The adapter's rooms once `c` has left all of them; a room left empty
      is deleted. */
  function LeaveAll(rooms: map<string, seq<ConnId>>, c: ConnId): map<string, seq<ConnId>> {
    map r | r in rooms && Without(rooms[r], c) != [] :: Without(rooms[r], c)
  }

  /** `sockets.map(socket => socket.data.username)`. */
  function NamesOf(ms: seq<ConnId>, sockets: map<ConnId, SocketData>): (names: seq<string>)
    requires forall c | c in ms :: c in sockets && sockets[c].username.Some?
    ensures |names| == |ms|
    ensures forall i | 0 <= i < |ms| :: sockets[ms[i]].username == Some(names[i])
  {
    if ms == [] then []
    else [sockets[ms[0]].username.value] + NamesOf(ms[1..], sockets)
  }

  /** The server's invariant: every socket is fresh or joined, every room
      is a well-formed membership list, and `_id`s are unique and below the
      next one to be handed out. */
  ghost predicate ServerOk(
    sockets: map<ConnId, SocketData>, rooms: map<string, seq<ConnId>>,
    store: seq<Message>, nextId: MessageId)
  {
    && (forall c | c in sockets :: JoinedOrFresh(sockets[c]))
    && (forall r | r in rooms :: MembersOk(rooms[r], sockets))
    && UniqueIds(store)
    && (forall i | 0 <= i < |store| :: store[i].id < nextId)
  }

  /** A successful `join_room` keeps the invariant, and every room of the
      connection keeps its members. */
  lemma JoinKeepsServerOk(
    sockets: map<ConnId, SocketData>, rooms: map<string, seq<ConnId>>,
    store: seq<Message>, nextId: MessageId, c: ConnId, d: SocketData, room: string)
    requires ServerOk(sockets, rooms, store, nextId) && c in sockets
    requires Present(d.username) && d.room == Some(room) && room != ""
    ensures var rooms' := rooms[room := AddMember(if room in rooms then rooms[room] else [], c)];
      && ServerOk(sockets[c := d], rooms', store, nextId)
      && forall r | r in rooms :: r in rooms' && rooms[r] <= rooms'[r]
  {
    var sockets' := sockets[c := d];
    var ms := if room in rooms then rooms[room] else [];
    var rooms' := rooms[room := AddMember(ms, c)];
    forall r | r in rooms' ensures MembersOk(rooms'[r], sockets') {
      if r == room {
        assert forall x | x in rooms'[r] :: x in ms || x == c;
        if c !in ms {
          assert NoDup(ms + [c]) by {
            forall i, j | 0 <= i < j < |ms + [c]| ensures (ms + [c])[i] != (ms + [c])[j] {
              if j < |ms| {
                assert (ms + [c])[i] == ms[i] && (ms + [c])[j] == ms[j];
              } else {
                assert (ms + [c])[i] == ms[i] && ms[i] in ms;
              }
            }
          }
        }
      } else {
        assert rooms'[r] == rooms[r];
      }
    }
  }

  class Server {
    /** The connected sockets and their `socket.data`. */
    var sockets: map<ConnId, SocketData>
    /** The adapter's rooms, each with its connections in joining order. */
    var rooms: map<string, seq<ConnId>>
    /** The messages collection, in insertion order. */
    var store: seq<Message>
    /** The `_id` the store hands out next. */
    var nextId: MessageId

    ghost predicate Valid()
      reads this
    {
      ServerOk(sockets, rooms, store, nextId)
    }

    constructor ()
      ensures Valid()
      ensures sockets == map[] && rooms == map[] && store == [] && nextId == 0
    {
      sockets, rooms, store, nextId := map[], map[], [], 0;
    }

    /** The connections in `room`, none for an unknown room. */
    function Members(room: string): seq<ConnId>
      reads this
    {
      if room in rooms then rooms[room] else []
    }

    /** `io.sockets.adapter.rooms.get(room)`'s size, 0 for an unknown room. */
    function Occupancy(room: Option<string>): nat
      reads this
    {
      if room.Some? && room.value in rooms then |rooms[room.value]| else 0
    }

    /** `getUsersInRoom(room)`: one username per connection of the room, in
      joining order; two connections under one name give it twice. */
    function UsersInRoom(room: string): (users: seq<string>)
      reads this
      requires Valid()
      ensures |users| == |Members(room)|
      ensures forall i | 0 <= i < |users| :: sockets[Members(room)[i]].username == Some(users[i])
    {
      NamesOf(Members(room), sockets)
    }

    /** The connections an emit made by `caller` reaches. */
    function Recipients(t: Target, caller: ConnId): seq<ConnId>
      reads this
    {
      match t
      case ToCaller => [caller]
      case ToRoom(r) => Members(r)
      case ToRoomExceptCaller(r) => Without(Members(r), caller)
    }

    /** `io.on('connection')`: a new socket with empty `socket.data`. */
    method OnConnection(c: ConnId)
      requires Valid() && c !in sockets
      modifies this
      ensures Valid()
      ensures sockets == old(sockets)[c := Unjoined]
      ensures rooms == old(rooms) && store == old(store) && nextId == old(nextId)
    {
      sockets := sockets[c := Unjoined];
    }

    /** `join_room`. */
    method OnJoinRoom(c: ConnId, data: JoinPayload, now: nat) returns (out: seq<Emit>)
      requires Valid() && c in sockets
      modifies this
      ensures Valid()
      ensures store == old(store) && nextId == old(nextId)
      ensures !(Present(data.username) && Present(data.room)) ==>
        sockets == old(sockets) && rooms == old(rooms) && out == []
      ensures Present(data.username) && Present(data.room) ==>
        var room := data.room.value;
        && sockets == old(sockets)[c := SocketData(data.username, data.room)]
        && rooms == old(rooms)[room := AddMember(old(Members(room)), c)]
        && out == [
             Emit(ToCaller, ChatHistoryEvent, History(RoomHistory(store, room))),
             Emit(ToRoom(room), RoomUsersEvent, Users(UsersInRoom(room))),
             Emit(ToRoomExceptCaller(room), ChatMessageEvent,
                  Item(Notice(data.username.value + JoinedSuffix, now)))]
      // Joining never leaves a room joined before.
      ensures forall r | r in old(rooms) :: r in rooms && old(rooms)[r] <= rooms[r]
    {
      if Present(data.username) && Present(data.room) {
        var name, room := data.username.value, data.room.value;
        JoinKeepsServerOk(sockets, rooms, store, nextId, c, SocketData(data.username, data.room), room);
        rooms := rooms[room := AddMember(Members(room), c)];
        sockets := sockets[c := SocketData(data.username, data.room)];
        var history := RoomHistory(store, room);
        out := [Emit(ToCaller, ChatHistoryEvent, History(history))];
        var users := UsersInRoom(room);
        out := out + [Emit(ToRoom(room), RoomUsersEvent, Users(users))];
        var notice := Notice(name + JoinedSuffix, now);
        out := out + [Emit(ToRoomExceptCaller(room), ChatMessageEvent, Item(notice))];
      } else {
        out := [];
      }
    }

    /** `chat message`: the initial status is `seen` when more than one
      connection is in the room, else `sent`; the sender need not have
      joined. A document that fails validation is neither stored nor sent. */
    method OnChatMessage(data: ChatPayload, now: nat) returns (out: seq<Emit>)
      requires Valid()
      modifies this
      ensures Valid()
      ensures sockets == old(sockets) && rooms == old(rooms)
      ensures old(store) <= store && |store| <= |old(store)| + 1
      ensures |store| == |old(store)| + 1 <==> Present(data.room) && Present(data.author) && Present(data.text)
      ensures |store| == |old(store)| ==> out == [] && nextId == old(nextId)
      ensures |store| == |old(store)| + 1 ==>
        var m := store[|old(store)|];
        && Some(m.room) == data.room && Some(m.author) == data.author && Some(m.text) == data.text
        && m.status == (if Occupancy(data.room) > 1 then Seen else Sent)
        && m.kind == DefaultKind && m.fileUrl == DefaultFileUrl && m.reactions == [] && m.timestamp == now
        && (forall i | 0 <= i < |old(store)| :: old(store)[i].id != m.id)
        && out == [Emit(ToRoom(m.room), ChatMessageEvent, Item(Saved(m)))]
    {
      var status := if Occupancy(data.room) > 1 then Seen else Sent;
      var input := MessageInput(data.room, data.author, data.text, None, None, Some(status), None, None);
      var r := NewMessage(input, nextId, now);
      if r.Success? {
        store := store + [r.value];
        nextId := nextId + 1;
        out := [Emit(ToRoom(r.value.room), ChatMessageEvent, Item(Saved(r.value)))];
      } else {
        out := [];
      }
    }

    /** `typing_start`: relayed to the rest of the room, nothing stored. */
    method OnTypingStart(data: TypingPayload) returns (out: seq<Emit>)
      ensures out == [Emit(ToRoomExceptCaller(data.room), TypingStartEvent, Name(data.username))]
    {
      out := [Emit(ToRoomExceptCaller(data.room), TypingStartEvent, Name(data.username))];
    }

    /** `typing_stop`: relayed to the rest of the room, nothing stored. */
    method OnTypingStop(data: TypingPayload) returns (out: seq<Emit>)
      ensures out == [Emit(ToRoomExceptCaller(data.room), TypingStopEvent, Name(data.username))]
    {
      out := [Emit(ToRoomExceptCaller(data.room), TypingStopEvent, Name(data.username))];
    }

    /** `message_seen`: `findByIdAndUpdate(id, { status: 'seen' }, { new: true })`,
      then the updated document to its room, or nothing for an unknown id. */
    method OnMessageSeen(id: MessageId) returns (out: seq<Emit>)
      requires Valid()
      modifies this
      ensures Valid()
      ensures sockets == old(sockets) && rooms == old(rooms) && nextId == old(nextId)
      ensures store == MarkSeen(old(store), id)
      ensures out == [] <==> forall i | 0 <= i < |old(store)| :: old(store)[i].id != id
      ensures out != [] ==> exists i | 0 <= i < |store| ::
        && store[i].id == id && store[i].status == Seen
        && out == [Emit(ToRoom(store[i].room), StatusUpdatedEvent, Item(Saved(store[i])))]
    {
      MarkSeenAtIndex(store, id);
      var k := IndexOfId(store, id);
      if k.Some? {
        var updated := store[k.value].(status := Seen);
        store := store[k.value := updated];
        assert store[k.value] == updated;
        out := [Emit(ToRoom(updated.room), StatusUpdatedEvent, Item(Saved(updated)))];
      } else {
        out := [];
      }
    }

    /** `disconnect`: the socket has already left all its rooms when the
      handler runs; a socket that joined announces the new user list and its
      departure to its last room, one that never joined says nothing. */
    method OnDisconnect(c: ConnId, now: nat) returns (out: seq<Emit>)
      requires Valid() && c in sockets
      modifies this
      ensures Valid()
      ensures sockets == old(sockets) - {c}
      ensures rooms == LeaveAll(old(rooms), c)
      ensures forall r | r in rooms :: c !in rooms[r]
      ensures store == old(store) && nextId == old(nextId)
      ensures out == [] <==> old(sockets[c]) == Unjoined
      ensures old(sockets[c]) != Unjoined ==>
        var room := old(sockets[c]).room.value;
        out == [
          Emit(ToRoom(room), RoomUsersEvent, Users(UsersInRoom(room))),
          Emit(ToRoom(room), ChatMessageEvent,
               Item(Notice(old(sockets[c]).username.value + LeftSuffix, now)))]
      ensures forall e | e in out :: c !in Recipients(e.target, c)
    {
      var d := sockets[c];
      rooms := LeaveAll(rooms, c);
      sockets := sockets - {c};
      if Present(d.username) && Present(d.room) {
        var room := d.room.value;
        var users := UsersInRoom(room);
        out := [Emit(ToRoom(room), RoomUsersEvent, Users(users))];
        out := out + [Emit(ToRoom(room), ChatMessageEvent, Item(Notice(d.username.value + LeftSuffix, now)))];
      } else {
        out := [];
      }
    }
  }
}
