/** One row of the message list, front/src/components/MessageItem.js: the
    effect that reports a message as seen, the status indicator, and the
    choice between a system row and a chat bubble. */
module MessageItem {
  import opened Wrappers
  import opened MessageModel
  import opened Protocol

  /** The mount effect: the `message_seen` emits it makes for `msg`.
      `msg` is `None` when the prop is missing, `hasSocket` says whether the
      socket prop is set, and an empty `currentUser` is falsy. */
  function SeenEmission(msg: Option<ChatItem>, hasSocket: bool, currentUser: string): (out: seq<ClientEmit>)
    ensures |out| <= 1
    ensures out != [] <==>
      && msg.Some? && IdOf(msg.value).Some? && hasSocket && currentUser != ""
      && AuthorOf(msg.value) != currentUser
      && StatusOf(msg.value) != Some(Seen)
    ensures out != [] ==> out == [ClientEmit(MessageSeenEvent, SeenRequest(IdOf(msg.value).value))]
  {
    if msg.None? || IdOf(msg.value).None? || !hasSocket || currentUser == "" then []
    else
      var isMyMessage := AuthorOf(msg.value) == currentUser;
      var isAlreadySeen := StatusOf(msg.value) == Some(Seen);
      if !isMyMessage && !isAlreadySeen then [ClientEmit(MessageSeenEvent, SeenRequest(IdOf(msg.value).value))]
      else []
  }

  /** Neither one's own message nor a message already seen is reported, and
      a system notice, having no id, never is. */
  lemma NoSeenReportForOwnSeenOrNotice(m: ChatItem, hasSocket: bool, currentUser: string)
    ensures AuthorOf(m) == currentUser ==> SeenEmission(Some(m), hasSocket, currentUser) == []
    ensures StatusOf(m) == Some(Seen) ==> SeenEmission(Some(m), hasSocket, currentUser) == []
    ensures m.Notice? ==> SeenEmission(Some(m), hasSocket, currentUser) == []
  {
  }

  datatype Indicator = NoIndicator | SingleCheck | DoubleCheck

  /** `renderMessageStatus`. */
  function StatusIndicator(msg: ChatItem, currentUser: string): (r: Indicator)
    ensures r != NoIndicator <==> AuthorOf(msg) == currentUser
    ensures r == DoubleCheck <==> AuthorOf(msg) == currentUser && StatusOf(msg) == Some(Seen)
  {
    if AuthorOf(msg) != currentUser then NoIndicator
    else if StatusOf(msg) == Some(Seen) then DoubleCheck
    else SingleCheck
  }

  /** What the component renders: a centred system row with the text, or a
      bubble aligned by authorship, with the author's name on others'
      messages and the status indicator on one's own. */
  datatype Row =
    | SystemRow(text: string)
    | Bubble(mine: bool, authorLabel: Option<string>, text: string, indicator: Indicator)

  function Render(msg: ChatItem, currentUser: string): (r: Row)
    ensures r.SystemRow? <==> AuthorOf(msg) == SystemAuthor
    ensures r.SystemRow? ==> r.text == TextOf(msg)
    ensures r.Bubble? ==>
      && r.text == TextOf(msg)
      && r.mine == (AuthorOf(msg) == currentUser)
      && (r.authorLabel.Some? <==> !r.mine)
      && (r.authorLabel.Some? ==> r.authorLabel.value == AuthorOf(msg))
      && (r.indicator != NoIndicator <==> r.mine)
      && (r.indicator == DoubleCheck <==> r.mine && StatusOf(msg) == Some(Seen))
  {
    if AuthorOf(msg) == SystemAuthor then SystemRow(TextOf(msg))
    else
      var isMyMessage := AuthorOf(msg) == currentUser;
      Bubble(
        isMyMessage,
        if isMyMessage then None else Some(AuthorOf(msg)),
        TextOf(msg),
        if isMyMessage then StatusIndicator(msg, currentUser) else NoIndicator)
  }
}
