/** The browser client of front/src/App.js: the list updaters bound to the
    socket's events, the join form's validation and room-id derivation, and
    the send guard. */
module ClientApp {
  import opened Wrappers
  import opened Seqs
  import opened MessageModel
  import opened Protocol
  import opened JsText

  // ----- Updaters of the socket subscriptions -----

  /** `[...new Set([...prev, user])]`. */
  function AddTypingUser(prev: seq<string>, user: string): seq<string> {
    Dedup(prev + [user])
  }

  /** The typing list never holds a name twice, gains exactly `user`, and
      adding the same user again changes nothing; on a list without
      duplicates a new user goes at the end and a known one changes nothing. */
  lemma AddTypingUserLaws(prev: seq<string>, user: string)
    ensures var r := AddTypingUser(prev, user);
      && NoDup(r)
      && user in r
      && (forall x | x in prev :: x in r)
      && (forall x | x in r :: x in prev || x == user)
      && AddTypingUser(r, user) == r
      && (NoDup(prev) ==> r == if user in prev then prev else prev + [user])
  {
    var r := AddTypingUser(prev, user);
    assert (r + [user])[..|r|] == r;
    assert (prev + [user])[..|prev|] == prev;
  }

  /** `prev.filter((u) => u !== user)`. */
  function RemoveTypingUser(prev: seq<string>, user: string): seq<string> {
    Without(prev, user)
  }

  /** Every occurrence of `user` goes, every other name stays, the names
      that stay keep their order, and removing twice is removing once. */
  lemma RemoveTypingUserLaws(prev: seq<string>, user: string, front: seq<string>, back: seq<string>)
    requires prev == front + back
    ensures var r := RemoveTypingUser(prev, user);
      && user !in r
      && (forall x | x in prev && x != user :: x in r)
      && r == RemoveTypingUser(front, user) + RemoveTypingUser(back, user)
      && RemoveTypingUser(r, user) == r
      && (NoDup(prev) ==> NoDup(r))
  {
    WithoutConcat(front, back, user);
  }

  /** `prev.map((msg) => msg._id === updated._id ? updated : msg)`; two
      messages without `_id` compare equal, as `undefined === undefined`
      does. */
  function ReplaceById(prev: seq<ChatItem>, updated: ChatItem): (r: seq<ChatItem>)
    ensures |r| == |prev|
    ensures forall i | 0 <= i < |prev| :: r[i] == if IdOf(prev[i]) == IdOf(updated) then updated else prev[i]
  {
    if prev == [] then []
    else [if IdOf(prev[0]) == IdOf(updated) then updated else prev[0]] + ReplaceById(prev[1..], updated)
  }

  /** Replacing is idempotent, leaves the list alone when no entry has the
      id, and never touches a notice when the update is a saved document. */
  lemma ReplaceByIdLaws(prev: seq<ChatItem>, updated: ChatItem)
    ensures var r := ReplaceById(prev, updated);
      && ReplaceById(r, updated) == r
      && ((forall i | 0 <= i < |prev| :: IdOf(prev[i]) != IdOf(updated)) ==> r == prev)
      && (updated.Saved? ==> forall i | 0 <= i < |prev| && prev[i].Notice? :: r[i] == prev[i])
  {
    var r := ReplaceById(prev, updated);
    var rr := ReplaceById(r, updated);
    assert |rr| == |r|;
    forall i | 0 <= i < |r| ensures rr[i] == r[i] {
    }
    if forall i | 0 <= i < |prev| :: IdOf(prev[i]) != IdOf(updated) {
      forall i | 0 <= i < |prev| ensures r[i] == prev[i] {
      }
    }
  }

  /** A history of saved documents as the client holds them. */
  function SavedItems(ms: seq<Message>): (r: seq<ChatItem>)
    ensures |r| == |ms| && forall i | 0 <= i < |ms| :: r[i] == Saved(ms[i])
  {
    seq(|ms|, i requires 0 <= i < |ms| => Saved(ms[i]))
  }

  /** The events the mount effect subscribes to. */
  predicate Listens(event: string) {
    event in {ChatHistoryEvent, ChatMessageEvent, RoomUsersEvent, TypingStartEvent, TypingStopEvent, MessageUpdatedEvent}
  }

  // ----- The join form -----

  const SameNameError := "Your name and the other user's name cannot be the same."
  const TooShortError := "Both names must be at least 2 characters long."

  /** `s.trim().toLowerCase()`. */
  function Normalized(s: string): string {
    ToLowerAscii(Trim(s))
  }

  /** `[a, b].sort()`: the default comparison on code units, stable. */
  function SortedPair(a: string, b: string): (p: (string, string))
    ensures (p.0 == a && p.1 == b) || (p.0 == b && p.1 == a)
    ensures !StringLess(p.1, p.0)
  {
    if StringLess(b, a) then
      LessAsymmetric(Utf16(b), Utf16(a));
      (b, a)
    else (a, b)
  }

  /** `[a, b].sort().join('-')`. */
  function RoomId(a: string, b: string): string {
    var p := SortedPair(a, b);
    p.0 + "-" + p.1
  }

  /** The room id does not depend on who starts the conversation. */
  lemma RoomIdSymmetric(a: string, b: string)
    ensures RoomId(a, b) == RoomId(b, a)
  {
    StringLessTotal(a, b);
    if StringLess(a, b) {
      LessAsymmetric(Utf16(a), Utf16(b));
    } else if StringLess(b, a) {
      LessAsymmetric(Utf16(b), Utf16(a));
    }
  }

  datatype JoinOutcome = SameName | TooShort | Accepted(room: string)

  /** `handleJoinChat`'s checks and the room it derives. */
  function DecideJoin(username: string, otherUser: string): JoinOutcome {
    if Normalized(username) == Normalized(otherUser) then SameName
    else if Utf16Length(Trim(username)) < 2 || Utf16Length(Trim(otherUser)) < 2 then TooShort
    else Accepted(RoomId(username, otherUser))
  }

  /** Equal names (after trimming and lower-casing) are refused whatever
      their length, so that check comes first; otherwise a trimmed name
      shorter than two code units is refused; otherwise the join is accepted
      with the room id of the untrimmed names. */
  lemma DecideJoinChecksInOrder(username: string, otherUser: string)
    ensures var d := DecideJoin(username, otherUser);
      && (d.SameName? <==> Normalized(username) == Normalized(otherUser))
      && (d.TooShort? <==>
            Normalized(username) != Normalized(otherUser)
            && (Utf16Length(Trim(username)) < 2 || Utf16Length(Trim(otherUser)) < 2))
      && (d.Accepted? <==>
            Normalized(username) != Normalized(otherUser)
            && Utf16Length(Trim(username)) >= 2 && Utf16Length(Trim(otherUser)) >= 2)
      && (d.Accepted? ==> d.room == RoomId(username, otherUser))
  {
  }

  /** Swapping the two names gives the same decision and the same room. */
  lemma DecideJoinSymmetric(a: string, b: string)
    ensures DecideJoin(a, b) == DecideJoin(b, a)
  {
    RoomIdSymmetric(a, b);
  }

  /** An accepted join sends a truthy username and room, so the server's
      `join_room` guard lets it through. */
  lemma AcceptedJoinIsWellFormed(username: string, otherUser: string)
    ensures DecideJoin(username, otherUser).Accepted? ==>
      && Present(Some(username)) && Present(Some(otherUser))
      && Present(Some(DecideJoin(username, otherUser).room))
  {
    if DecideJoin(username, otherUser).Accepted? {
      assert |Utf16(Trim(username))| >= 2 && |Utf16(Trim(otherUser))| >= 2;
    }
  }

  class App {
    var hasJoined: bool
    var username: string
    var otherUser: string
    var room: string
    var error: string
    var messages: seq<ChatItem>
    var usersInRoom: seq<string>
    var typingUsers: seq<string>
    /** The value of the message form's input element. */
    var messageInput: string

    ghost predicate Valid()
      reads this
    {
      NoDup(typingUsers)
    }

    constructor ()
      ensures Valid()
      ensures !hasJoined && username == "" && otherUser == "" && room == "" && error == ""
      ensures messages == [] && usersInRoom == [] && typingUsers == [] && messageInput == ""
    {
      hasJoined, username, otherUser, room, error := false, "", "", "", "";
      messages, usersInRoom, typingUsers, messageInput := [], [], [], "";
    }

    /** One event arriving on the socket, through the subscriptions of the
      mount effect; anything else is not listened to and changes nothing. */
    method Receive(event: string, payload: Payload)
      requires Valid()
      modifies this`messages, this`usersInRoom, this`typingUsers
      ensures Valid()
      ensures messages ==
        if event == ChatHistoryEvent && payload.History? then SavedItems(payload.messages)
        else if event == ChatMessageEvent && payload.Item? then old(messages) + [payload.item]
        else if event == MessageUpdatedEvent && payload.Item? then ReplaceById(old(messages), payload.item)
        else old(messages)
      ensures usersInRoom == if event == RoomUsersEvent && payload.Users? then payload.names else old(usersInRoom)
      ensures typingUsers ==
        if event == TypingStartEvent && payload.Name? then AddTypingUser(old(typingUsers), payload.username)
        else if event == TypingStopEvent && payload.Name? then RemoveTypingUser(old(typingUsers), payload.username)
        else old(typingUsers)
      ensures !Listens(event) ==>
        messages == old(messages) && usersInRoom == old(usersInRoom) && typingUsers == old(typingUsers)
    {
      if event == ChatHistoryEvent && payload.History? {
        messages := SavedItems(payload.messages);
      } else if event == ChatMessageEvent && payload.Item? {
        messages := messages + [payload.item];
      } else if event == RoomUsersEvent && payload.Users? {
        usersInRoom := payload.names;
      } else if event == TypingStartEvent && payload.Name? {
        AddTypingUserLaws(typingUsers, payload.username);
        typingUsers := AddTypingUser(typingUsers, payload.username);
      } else if event == TypingStopEvent && payload.Name? {
        typingUsers := RemoveTypingUser(typingUsers, payload.username);
      } else if event == MessageUpdatedEvent && payload.Item? {
        messages := ReplaceById(messages, payload.item);
      }
    }

    /** `handleJoinChat`. */
    method JoinChat() returns (out: seq<ClientEmit>)
      modifies this`room, this`hasJoined, this`error
      ensures match DecideJoin(old(username), old(otherUser))
        case SameName =>
          error == SameNameError && out == [] && room == old(room) && hasJoined == old(hasJoined)
        case TooShort =>
          error == TooShortError && out == [] && room == old(room) && hasJoined == old(hasJoined)
        case Accepted(id) =>
          error == "" && hasJoined && room == id && out == [ClientEmit(JoinRoomEvent, JoinRequest(old(username), id))]
    {
      error := "";
      var decision := DecideJoin(username, otherUser);
      if decision.SameName? {
        error := SameNameError;
        out := [];
      } else if decision.TooShort? {
        error := TooShortError;
        out := [];
      } else {
        room := decision.room;
        out := [ClientEmit(JoinRoomEvent, JoinRequest(username, room))];
        hasJoined := true;
      }
    }

    /** `handleSendMessage`: sends the untrimmed input when it is not all
      white space and a username is set, then clears the input. */
    method SendMessage() returns (out: seq<ClientEmit>)
      modifies this`messageInput
      ensures Trim(old(messageInput)) != "" && username != "" ==>
        out == [ClientEmit(ChatMessageEvent, ChatRequest(room, username, old(messageInput)))]
        && messageInput == ""
      ensures !(Trim(old(messageInput)) != "" && username != "") ==>
        out == [] && messageInput == old(messageInput)
    {
      if Trim(messageInput) != "" && username != "" {
        out := [ClientEmit(ChatMessageEvent, ChatRequest(room, username, messageInput))];
        messageInput := "";
      } else {
        out := [];
      }
    }
  }
}
