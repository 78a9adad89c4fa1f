/** The `Message` document of chat-server/models/message.js: its fields, the
    three required strings, the required parts of a reaction, and the
    defaults Mongoose fills in when a field is not supplied. */
module MessageModel {
  import opened Wrappers

  /** The store-assigned `_id`. */
  type MessageId = nat

  const DefaultKind := "text"
  const DefaultFileUrl := ""
  const Seen := "seen"
  const Sent := "sent"
  /** The schema's default status is `seen`, not `sent`. */
  const DefaultStatus := Seen

  datatype Reaction = Reaction(emoji: string, user: string)

  /** A persisted message; `kind` is the schema's `type` path. */
  datatype Message = Message(
    id: MessageId,
    room: string,
    author: string,
    text: string,
    kind: string,
    fileUrl: string,
    status: string,
    reactions: seq<Reaction>,
    timestamp: nat)

  /** What a caller passes to `new Message({...})`: every path may be absent. */
  datatype ReactionInput = ReactionInput(emoji: Option<string>, user: Option<string>)

  datatype MessageInput = MessageInput(
    room: Option<string>,
    author: Option<string>,
    text: Option<string>,
    kind: Option<string>,
    fileUrl: Option<string>,
    status: Option<string>,
    reactions: Option<seq<ReactionInput>>,
    timestamp: Option<nat>)

  /** The input with only the given required paths and nothing else. */
  function RequiredOnly(room: string, author: string, text: string): MessageInput {
    MessageInput(Some(room), Some(author), Some(text), None, None, None, None, None)
  }

  /** A path that failed validation. */
  datatype Path = RoomPath | AuthorPath | TextPath | ReactionEmojiPath(index: nat) | ReactionUserPath(index: nat)

  /** Mongoose's `required` check on a String path: the value is given and is
      not the empty string. This is also JavaScript truthiness of a
      string-valued field, which the server's guards test. */
  predicate Present(v: Option<string>) {
    v.Some? && v.value != ""
  }

  predicate ReactionComplete(x: ReactionInput) {
    Present(x.emoji) && Present(x.user)
  }

  predicate AllReactionsComplete(rs: seq<ReactionInput>) {
    forall i | 0 <= i < |rs| :: ReactionComplete(rs[i])
  }

  /** Every path whose `required` check fails. */
  function MissingPaths(input: MessageInput): set<Path> {
    var rs := input.reactions.GetOr([]);
    (if Present(input.room) then {} else {RoomPath})
    + (if Present(input.author) then {} else {AuthorPath})
    + (if Present(input.text) then {} else {TextPath})
    + (set i | 0 <= i < |rs| && !Present(rs[i].emoji) :: ReactionEmojiPath(i))
    + (set i | 0 <= i < |rs| && !Present(rs[i].user) :: ReactionUserPath(i))
  }

  function CastReactions(rs: seq<ReactionInput>): (r: seq<Reaction>)
    requires AllReactionsComplete(rs)
  {
    seq(|rs|, i requires 0 <= i < |rs| => Reaction(rs[i].emoji.value, rs[i].user.value))
  }

  /** Builds and validates a document the way `new Message(input)` followed by
      `save()` does; `id` is the store's fresh `_id` and `now` the clock reading
      used by the `Date.now` default. */
  function NewMessage(input: MessageInput, id: MessageId, now: nat): (r: Result<Message, set<Path>>)
    ensures r.Success? <==>
      Present(input.room) && Present(input.author) && Present(input.text)
      && AllReactionsComplete(input.reactions.GetOr([]))
    ensures r.Failure? ==>
      && (RoomPath in r.error <==> !Present(input.room))
      && (AuthorPath in r.error <==> !Present(input.author))
      && (TextPath in r.error <==> !Present(input.text))
    ensures r.Success? ==>
      && r.value.id == id
      && Some(r.value.room) == input.room
      && Some(r.value.author) == input.author
      && Some(r.value.text) == input.text
    ensures r.Success? ==>
      var rs := input.reactions.GetOr([]);
      && |r.value.reactions| == |rs|
      && forall i | 0 <= i < |rs| ::
           Some(r.value.reactions[i].emoji) == rs[i].emoji && Some(r.value.reactions[i].user) == rs[i].user
  {
    var missing := MissingPaths(input);
    if missing != {} then
      Failure(missing)
    else
      var rs := input.reactions.GetOr([]);
      assert forall i | 0 <= i < |rs| :: ReactionComplete(rs[i]) by {
        forall i | 0 <= i < |rs| ensures ReactionComplete(rs[i]) {
          assert ReactionEmojiPath(i) !in missing && ReactionUserPath(i) !in missing;
        }
      }
      Success(Message(
        id,
        input.room.value,
        input.author.value,
        input.text.value,
        input.kind.GetOr(DefaultKind),
        input.fileUrl.GetOr(DefaultFileUrl),
        input.status.GetOr(DefaultStatus),
        CastReactions(rs),
        input.timestamp.GetOr(now)))
  }

  /** A document given only its required paths gets every default: type
      `text`, an empty file URL, status `seen`, no reactions and the current
      time. */
  lemma DefaultsApply(room: string, author: string, text: string, id: MessageId, now: nat)
    requires room != "" && author != "" && text != ""
    ensures NewMessage(RequiredOnly(room, author, text), id, now)
         == Success(Message(id, room, author, text, "text", "", "seen", [], now))
  {
    assert MissingPaths(RequiredOnly(room, author, text)) == {};
  }

  /** Supplying one optional path changes that field of the document and no
      other: every other field keeps the value (or default) it had. */
  lemma SuppliedValueOverrides(input: MessageInput, id: MessageId, now: nat, s: string, t: nat)
    requires NewMessage(input, id, now).Success?
    ensures var m := NewMessage(input, id, now).value;
      && NewMessage(input.(kind := Some(s)), id, now) == Success(m.(kind := s))
      && NewMessage(input.(fileUrl := Some(s)), id, now) == Success(m.(fileUrl := s))
      && NewMessage(input.(status := Some(s)), id, now) == Success(m.(status := s))
      && NewMessage(input.(timestamp := Some(t)), id, now) == Success(m.(timestamp := t))
  {
    var m := NewMessage(input, id, now).value;
    assert MissingPaths(input) == {};
    assert MissingPaths(input.(kind := Some(s))) == {};
    assert MissingPaths(input.(fileUrl := Some(s))) == {};
    assert MissingPaths(input.(status := Some(s))) == {};
    assert MissingPaths(input.(timestamp := Some(t))) == {};
  }

  /** Supplying complete reactions replaces the reactions, in order, and
      leaves every other field at its value or default. */
  lemma SuppliedReactionsOverride(input: MessageInput, id: MessageId, now: nat, rs: seq<ReactionInput>)
    requires NewMessage(input, id, now).Success? && AllReactionsComplete(rs)
    ensures NewMessage(input.(reactions := Some(rs)), id, now)
         == Success(NewMessage(input, id, now).value.(reactions := CastReactions(rs)))
  {
    var missing := MissingPaths(input);
    assert missing == {};
    var old_rs := input.reactions.GetOr([]);
    forall i | 0 <= i < |old_rs| ensures ReactionComplete(old_rs[i]) {
      assert ReactionEmojiPath(i) !in missing && ReactionUserPath(i) !in missing;
    }
    assert MissingPaths(input.(reactions := Some(rs))) == {};
  }
}
