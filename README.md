# Abyssinia chat: a verified model of the room and message coordination

This project models, in Dafny, the core of a small real-time chat system.
It has three parts:

- the socket.io event router of the Node server. It keeps each connection's
  `socket.data` (`username`, `room`), the adapter's room membership, and the
  MongoDB `messages` collection, which here is an in-memory log;
- the Mongoose `Message` schema, with its required paths and defaults;
- the React client's list updaters, join-form validation, room-id
  derivation, send guard, and the per-message "seen" report and status
  indicator.

Modules, one per source file or shared concern:

| file | module | models |
|---|---|---|
| `message_model.dfy` | `MessageModel` | `chat-server/models/message.js` |
| `chat_server.dfy` | `ChatServer` | `chat-server/index.js` (class `Server`) |
| `client_app.dfy` | `ClientApp` | `front/src/App.js` (class `App` and its updaters) |
| `message_item.dfy` | `MessageItem` | `front/src/components/MessageItem.js` |
| `protocol.dfy` | `Protocol` | event names and payloads used by both sides |
| `js_text.dfy` | `JsText` | the JavaScript string semantics the client depends on: `trim`, `toLowerCase`, `length`, `<` |
| `seqs.dfy`, `wrappers.dfy` | `Seqs`, `Wrappers` | `filter` and `new Set` on sequences; `Option` and `Result` |
| `scenarios.dfy` | `Scenarios` | short server and client runs whose outcomes are asserted |

Each server handler is a method of `ChatServer.Server`. It runs as one
atomic step and returns its emits in order. An emit is a target, an event
name and a payload. The target is the caller only (`socket.emit`), the
whole room (`io.to(room)`) or the room without the caller
(`socket.broadcast.to(room)`). Clocks are parameters (`now`). The store
hands out `_id`s from a counter.

Behaviour of the code that the model keeps as written:

- `socket.join(room)` adds a room but never leaves an earlier one, while
  `socket.data` is overwritten. So after a second join the connection is in
  both rooms. The older room's user list then shows the newer name.
  `OnJoinRoom` states this ("joining never leaves a room joined before"),
  and `Scenarios.RejoinKeepsEarlierRoom` shows it (there bob's connection later joins r2 under a new name). A design where a
  connection is in at most one room is therefore not what the code does.
- The initial status counts connections, not distinct names. An unknown
  room counts 0.
- `chat message` does not check that the sender has joined.
- A document that fails validation (a missing or empty room, author or
  text) is neither stored nor broadcast. This is the `try`/`catch` around
  `save()`.
- The schema's default status is `seen`.
- After `message_seen` the server emits `message_status_updated`. The
  client subscribes to `message_updated`, so a seen update never reaches
  the client's list. `ClientApp.App.Receive` states that events the client
  does not listen to change nothing, and
  `Scenarios.StatusUpdateIsIgnored` shows the sender's copy still showing
  one check.
- On `disconnect` the socket has already left all its rooms. Only the room
  last written to `socket.data.room` hears about the departure. If the
  socket was the room's last member, the room is gone and the user list
  sent is empty.
- Any message whose author is `System` is rendered as a system row,
  including one a user named "System" sent.
- In the client's `message_updated` handler, two messages without `_id`
  compare equal (`undefined === undefined`).

## Model

| member | source | states |
|---|---|---|
| `MessageModel.NewMessage` | chat-server/models/message.js:6-42 | A document is created exactly when room, author and text are given and non-empty and every reaction has an emoji and a user. A failure names exactly which of room, author and text are missing. On success the id, room, author and text are the supplied ones, and the reactions are the supplied ones, in order. |
| `MessageModel.DefaultsApply` | chat-server/models/message.js:19-41 | With only the required paths given, the document gets type `text`, an empty file URL, status `seen`, no reactions and the current time. |
| `MessageModel.SuppliedValueOverrides` | chat-server/models/message.js:19-41 | Supplying type, file URL, status or timestamp changes that field only. Every other field keeps its value or default. |
| `MessageModel.SuppliedReactionsOverride` | chat-server/models/message.js:19-41 | Supplying complete reactions sets the document's reactions to them, in order. Every other field keeps its value or default. |
| `ChatServer.RoomMessages` | chat-server/index.js:61 | The query result holds a document if and only if it is stored with that room, and each such document as often as the store holds it. |
| `ChatServer.InsertByTime` | chat-server/index.js:61 | Inserting adds exactly the one document (as a multiset) and nothing else. |
| `ChatServer.InsertByTimeSorted` | chat-server/index.js:61 | Inserting into a timestamp-sorted list keeps it sorted. |
| `ChatServer.SortByTime` | chat-server/index.js:61 | The sorted history is in ascending timestamp order and is a permutation of its input. |
| `ChatServer.HistoryIsRoomLogInTimeOrder` | chat-server/index.js:61-62 | `chat_history` is sorted by timestamp. It holds each of the room's stored documents as often as the log does, and no other document. |
| `ChatServer.IndexOfId` | chat-server/index.js:118-122 | The lookup returns a position holding a document with that id, or reports that no stored document has it. |
| `ChatServer.MarkSeen` | chat-server/index.js:118-122 | The seen update keeps the log's length and sets status `seen` on exactly the documents with that id. |
| `ChatServer.MarkSeenIdempotent` | chat-server/index.js:116-131 | Marking a message seen twice gives the same log as marking it once. |
| `ChatServer.MarkSeenOnlyRaisesStatus` | chat-server/index.js:118-122 | The update changes no field but status. It only moves a status to `seen`, keeps `seen` statuses, and leaves the log unchanged for an unknown id. |
| `ChatServer.MarkSeenAtIndex` | chat-server/index.js:118-122 | With unique ids, the update touches exactly the one document the lookup finds. For an unknown id it touches nothing. |
| `ChatServer.NamesOf` | chat-server/index.js:18 | One name per connection, in the connections' order: each connection's `socket.data.username`. |
| `ChatServer.Server.UsersInRoom` | chat-server/index.js:14-20 | `room_users` has one entry per connection in the room, that connection's username, in joining order. An unknown room gives none. |
| `ChatServer.Server.OnConnection` | chat-server/index.js:43-44 | A new connection has empty `socket.data`. Nothing else changes. |
| `ChatServer.Server.OnJoinRoom` | chat-server/index.js:49-79 | With a missing or empty username or room, nothing changes and nothing is emitted. Otherwise the connection's data is exactly the new username and room, it is added to the room, and it stays in every earlier room. The store is unchanged. The emits are, in order: the room's history to the caller; `room_users` to the room; the "has joined" notice to the room without the caller. |
| `ChatServer.JoinKeepsServerOk` | chat-server/index.js:51-55 | A successful join keeps the server's invariant: every connection is fresh or joined under a non-empty name and room, every room is a non-empty list of joined connections without repeats, and ids stay unique. Every room the connection was in keeps all its members. |
| `ChatServer.Server.OnChatMessage` | chat-server/index.js:82-102 | At most one document is appended, and earlier ones are unchanged. One is appended exactly when room, author and text are given and non-empty. It has a fresh id, the given fields, status `seen` if the room has more than one connection and `sent` otherwise, and the schema defaults. It is broadcast to the whole room, sender included. Otherwise nothing is stored or sent. Membership never changes. |
| `ChatServer.Server.OnTypingStart` | chat-server/index.js:104-107 | The username is relayed as `typing_start` to the room without the caller. No state changes. |
| `ChatServer.Server.OnTypingStop` | chat-server/index.js:111-114 | The username is relayed as `typing_stop` to the room without the caller. No state changes. |
| `ChatServer.Server.OnMessageSeen` | chat-server/index.js:116-131 | The log becomes `MarkSeen` of the old log, and membership is unchanged. Nothing is emitted exactly when no document has the id. Otherwise one `message_status_updated` carrying the updated (`seen`) document goes to that document's room. |
| `ChatServer.Server.OnDisconnect` | chat-server/index.js:135-156 | The connection is removed, is in no room, and rooms left empty are deleted. The store is unchanged. A never-joined connection emits nothing. A joined one emits, in order, the fresh `room_users` of its last room and the "has left" notice, both to that whole room. The leaving connection receives neither. |
| `Scenarios.AliceInR1` | chat-server/index.js:43-79 | Two connections, and alice joining r1: the sockets, rooms and store are exactly those of that run. |
| `Scenarios.AliceAndBobInR1` | chat-server/index.js:43-79 | Then bob joining r1: r1 holds both connections in joining order, and nothing is stored. |
| `Seqs.Without` | front/src/App.js:30 | Removing a value: the result holds exactly the other elements, has no duplicates if the input had none, and equals the input when the value is absent. |
| `Seqs.WithoutConcat` | front/src/App.js:30 | Removal commutes with concatenation, so the remaining elements keep their order. |
| `Seqs.Dedup` | front/src/App.js:29 | `[...new Set(s)]` has no duplicates, has the same elements as `s`, and is `s` itself when `s` has no duplicates. |
| `ClientApp.AddTypingUserLaws` | front/src/App.js:29 | `typing_start` gives a list without duplicates: the old names plus the user. Adding the same user again changes nothing. On a duplicate-free list a new user goes at the end and a known one changes nothing. |
| `ClientApp.RemoveTypingUserLaws` | front/src/App.js:30 | `typing_stop` removes every occurrence of the user and keeps every other name, in order. Removing twice is removing once, and no duplicates are introduced. |
| `ClientApp.ReplaceById` | front/src/App.js:31-37 | The list keeps its length and order. Exactly the entries whose `_id` equals the update's are replaced by it. |
| `ClientApp.ReplaceByIdLaws` | front/src/App.js:31-37 | Replacing is idempotent and changes nothing when no entry has the id. A saved-document update never replaces a system notice. |
| `ClientApp.App.constructor` | front/src/App.js:10-19 | The client starts not joined, with empty names, room, error and lists. |
| `ClientApp.App.Receive` | front/src/App.js:25-47 | `chat_history` replaces the list wholesale. `chat message` appends at the end. `room_users` replaces the user list. `typing_start`/`typing_stop` add or remove a typing user. `message_updated` replaces by id. Any other event, `message_status_updated` included, changes nothing. The typing list never has duplicates. |
| `ClientApp.SortedPair` | front/src/App.js:72 | `[a, b].sort()` is the two names, in code-unit order. |
| `ClientApp.RoomIdSymmetric` | front/src/App.js:72 | Swapping the two names gives the same room id. |
| `ClientApp.DecideJoinChecksInOrder` | front/src/App.js:60-72 | Names equal after trim and lower-casing are refused whatever their length. Otherwise a trimmed name shorter than two UTF-16 units is refused. Otherwise the join is accepted with the sorted, `-`-joined id of the untrimmed names. |
| `ClientApp.DecideJoinSymmetric` | front/src/App.js:60-72 | The join decision, room included, does not depend on the order of the two names. |
| `ClientApp.AcceptedJoinIsWellFormed` | front/src/App.js:66-74 | An accepted join sends a non-empty username and room, so the server's `join_room` guard accepts it. |
| `ClientApp.App.JoinChat` | front/src/App.js:55-76 | A refused join sets the matching error, emits nothing, and leaves `hasJoined` and the room unchanged. An accepted join clears the error, sets the room, emits exactly one `join_room` with the untrimmed username and the room, and sets `hasJoined`. |
| `ClientApp.App.SendMessage` | front/src/App.js:79-88 | One `chat message` with the untrimmed text is emitted, and the input cleared, exactly when the trimmed input is non-empty and a username is set. Otherwise nothing is emitted and the input is kept. |
| `JsText.Trim` | front/src/App.js:60 | `trim` returns the window of the string whose outside, before and after, is all white space, and that window neither starts nor ends with white space. It is empty exactly when the string is all white space. |
| `JsText.TrimIdempotent` | front/src/App.js:66 | Trimming twice is trimming once. |
| `JsText.Utf16Injective` | front/src/App.js:72 | Different strings have different UTF-16 code units, so the sort's comparison only ties on equal names. |
| `JsText.LessAsymmetric` | front/src/App.js:72 | The code-unit order is asymmetric. |
| `JsText.LessTrichotomous` | front/src/App.js:72 | Of two code-unit sequences, one is below the other or they are equal. |
| `JsText.StringLessTotal` | front/src/App.js:72 | Of two strings, one is below the other under `<`, or they are equal. |
| `MessageItem.SeenEmission` | front/src/components/MessageItem.js:16-29 | At most one `message_seen` is emitted, and it carries `msg._id`. One is emitted exactly when the message, its `_id`, the socket and the current user are all present, the author is not the current user, and the status is not `seen`. |
| `MessageItem.NoSeenReportForOwnSeenOrNotice` | front/src/components/MessageItem.js:18-27 | Nothing is reported for one's own message, for a message already `seen`, or for a system notice. |
| `MessageItem.StatusIndicator` | front/src/components/MessageItem.js:31-37 | An indicator shows exactly on the current user's own messages. It is the double check exactly when the status is `seen`, otherwise the single check. |
| `MessageItem.Render` | front/src/components/MessageItem.js:39-67 | A `System` author gives the system row with the text, never the author or status layout. Any other message gives a bubble with the text: marked as one's own exactly when the author is the current user, labelled with the author exactly when it is not, and with a status indicator exactly on one's own. |

## Left out

- Transport and setup: socket.io transport, CORS, `server.listen`, `mongoose.connect` and all console logging (chat-server/index.js:3-41, 159-161).
- socket.io's automatic room named after each socket's id is not modelled. The model's rooms are only those joined through `join_room`.
- Storage failures are not modelled: an unreachable store, or a failing history query on join. The only failure modelled is `chat message`'s validation error, which stores and emits nothing.
- Message ids are natural numbers. A string that is not a valid ObjectId makes `findByIdAndUpdate` throw, and the handler catches it. That gives the same no-emit outcome as an unknown id, and the model has no such ids.
- Mongoose's own `_id` on each reaction entry and the document's `__v` version key are not modelled.
- Concurrency: the interleaving of handlers at `await` points is not modelled. Each handler is one atomic step.
- Reaction add/replace/remove and file upload: no code in these files does either.
- Payload shapes: payload fields are strings or absent. Non-string values and a missing payload object (which would throw) are not modelled. Typing payloads always carry both strings.
- MongoDB's order among equal timestamps is unspecified. The model's insertion sort happens to be stable, but only "sorted and a permutation" is stated.
- `JsText.ToLowerAscii`: only ASCII letters are lower-cased. JavaScript's full Unicode case mapping is not modelled.
- `MessageItem.SeenEmission`: models one run of the effect. When React re-runs it (its dependency list) is not modelled.
- The typing debounce (front/src/App.js:90-96), the scroll effect (front/src/App.js:49-51) and `formatTimestamp` (front/src/components/MessageItem.js:7-10) are timers, DOM calls and locale formatting.
- front/src/ChatPage.js and front/src/components/UserList.js are presentational JSX and are not part of this model.
