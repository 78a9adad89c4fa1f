/** The event names and payloads exchanged between the chat server
    (chat-server/index.js) and the browser client (front/src/App.js,
    front/src/components/MessageItem.js). */
module Protocol {
  import opened Wrappers
  import opened MessageModel

  // Client to server.
  const JoinRoomEvent := "join_room"
  const MessageSeenEvent := "message_seen"
  // Both directions.
  const ChatMessageEvent := "chat message"
  const TypingStartEvent := "typing_start"
  const TypingStopEvent := "typing_stop"
  // Server to client.
  const ChatHistoryEvent := "chat_history"
  const RoomUsersEvent := "room_users"
  /** What the server emits after a `message_seen`. */
  const StatusUpdatedEvent := "message_status_updated"
  /** What the client subscribes to for updated messages. */
  const MessageUpdatedEvent := "message_updated"

  /** The author of join and leave announcements. */
  const SystemAuthor := "System"

  /** A message as it travels in a `chat message` event: a saved document,
      or a join/leave notice `{author: 'System', text, timestamp}` that has
      no `_id`, room or status. */
  datatype ChatItem = Saved(record: Message) | Notice(text: string, timestamp: nat)

  /** `msg._id` (absent on a notice). */
  function IdOf(m: ChatItem): Option<MessageId> {
    match m
    case Saved(r) => Some(r.id)
    case Notice(_, _) => None
  }

  function AuthorOf(m: ChatItem): string {
    match m
    case Saved(r) => r.author
    case Notice(_, _) => SystemAuthor
  }

  /** `msg.status` (absent on a notice). */
  function StatusOf(m: ChatItem): Option<string> {
    match m
    case Saved(r) => Some(r.status)
    case Notice(_, _) => None
  }

  function TextOf(m: ChatItem): string {
    match m
    case Saved(r) => r.text
    case Notice(t, _) => t
  }

  /** Who an emit goes to: `socket.emit` (the calling connection only),
      `io.to(room)` (every connection in the room) or
      `socket.broadcast.to(room)` (the room without the caller). */
  datatype Target = ToCaller | ToRoom(room: string) | ToRoomExceptCaller(room: string)

  /** Payloads of server emits. */
  datatype Payload =
    | History(messages: seq<Message>)
    | Users(names: seq<string>)
    | Item(item: ChatItem)
    | Name(username: string)

  datatype Emit = Emit(target: Target, event: string, payload: Payload)

  /** Payloads the client sends. */
  datatype Request =
    | JoinRequest(username: string, room: string)
    | ChatRequest(room: string, author: string, text: string)
    | SeenRequest(id: MessageId)

  datatype ClientEmit = ClientEmit(event: string, request: Request)
}
