/** The server's chat handlers (gemini-backend/controllers/chatController.js)
    as pure transitions of the persisted store. Each handler receives the
    store and the request's parts, and returns the response it sends with the
    store as it is afterwards. The completion service's answer, the freshly
    generated chat id and a failing store write are parameters. */
module ChatController {
  import opened ChatTypes
  import opened JsText

  /** The persisted documents: each known user's chats, in insertion order. */
  type Store = map<UserId, seq<Chat>>

  /** The JSON bodies the handlers send. */
  datatype Body =
    | Notice(message: string)
    | ChatList(chats: seq<Chat>)
    | OneChat(chat: Chat)
    | Reply(reply: string, chatId: ChatId)

  datatype Response =
    | Respond(status: nat, body: Body)
      /** The handler threw before answering (it dereferenced a missing
          user); no response is sent. */
    | Crashed

  datatype Handled = Handled(response: Response, store: Store)

  const UserNotFound := "User not found"
  const ChatNotFound := "Chat not found"
  const MessageRequired := "Message is required."
  const NoResponse := "Sorry, no response."
  const UpstreamError := "Error communicating with Gemini API"
  const ChatDeleted := "Chat deleted successfully"
  const DeleteError := "Server error while deleting chat"

  /** The parts of the completion service's JSON answer the relay reads; every
      link of `candidates[0].content.parts[0].text` may be missing. */
  datatype Part = Part(text: Option<string>)
  datatype Content = Content(parts: Option<seq<Part>>)
  datatype Candidate = Candidate(content: Option<Content>)
  datatype Completion = Completion(candidates: Option<seq<Candidate>>)

  /** The completion call: it throws (network error, non-2xx status, or the
      store write after it failing), or answers with a body. */
  datatype Upstream = UpstreamFailed | UpstreamOk(completion: Completion)

  /** `after` differs from `before` at most in the chat list of `uid`. */
  predicate OnlyUserChanged(before: Store, after: Store, uid: UserId) {
    && after.Keys == before.Keys
    && forall u :: u in before && u != uid ==> after[u] == before[u]
  }

  /** `after` is `before` with exactly the messages `question` (from the user)
      then `answer` (from the bot) appended to the first chat of `uid` whose
      id is `chatId`; every other chat, and every other user, is unchanged. */
  predicate AppendedPair(before: Store, after: Store, uid: UserId, chatId: ChatId, question: string, answer: string)
  {
    && uid in before
    && uid in after
    && OnlyUserChanged(before, after, uid)
    && |after[uid]| == |before[uid]|
    && match FirstIndexOf(before[uid], chatId)
       case None => false
       case Some(k) =>
         && after[uid][k].id == chatId
         && after[uid][k].title == before[uid][k].title
         && after[uid][k].messages == before[uid][k].messages + [Message(User, question), Message(Bot, answer)]
         && forall j :: 0 <= j < |before[uid]| && j != k ==> after[uid][j] == before[uid][j]
  }

  /** GET /chat: the caller's chats, or 404 for an unknown user. */
  function GetChats(store: Store, uid: UserId): (h: Handled)
    ensures h.store == store
    ensures uid !in store <==> h.response == Respond(404, Notice(UserNotFound))
    ensures uid in store ==> h.response == Respond(200, ChatList(store[uid]))
  {
    if uid !in store then Handled(Respond(404, Notice(UserNotFound)), store)
    else Handled(Respond(200, ChatList(store[uid])), store)
  }

  /** POST /chat/new: appends an empty chat titled `title` under the id the
      store generated, and answers 201 with the list's last element. The user
      is not checked: a missing one makes the handler throw. */
  function CreateNewChat(store: Store, uid: UserId, title: string, newId: ChatId): (h: Handled)
    ensures uid !in store ==> h == Handled(Crashed, store)
    ensures uid in store ==>
      && OnlyUserChanged(store, h.store, uid)
      && uid in h.store
      && |h.store[uid]| == |store[uid]| + 1
      && h.store[uid][..|store[uid]|] == store[uid]
      && h.store[uid][|store[uid]|] == Chat(newId, title, [])
      && h.response == Respond(201, OneChat(Chat(newId, title, [])))
  {
    if uid !in store then Handled(Crashed, store)
    else
      var chats := store[uid] + [Chat(newId, title, [])];
      Handled(Respond(201, OneChat(chats[|chats| - 1])), store[uid := chats])
  }

  /** GET /chat/:chatId: the first of the caller's own chats with that id.
      The user is not checked: a missing one makes the handler throw. */
  function GetChatById(store: Store, uid: UserId, chatId: ChatId): (h: Handled)
    ensures h.store == store
    ensures uid !in store ==> h.response == Crashed
    ensures uid in store && !HasChat(store[uid], chatId) ==> h.response == Respond(404, Notice(ChatNotFound))
    ensures uid in store && HasChat(store[uid], chatId) ==>
      && h.response.Respond? && h.response.status == 200 && h.response.body.OneChat?
      && h.response.body.chat in store[uid]
      && h.response.body.chat.id == chatId
  {
    if uid !in store then Handled(Crashed, store)
    else
      match FirstIndexOf(store[uid], chatId)
      case None => Handled(Respond(404, Notice(ChatNotFound)), store)
      case Some(k) => Handled(Respond(200, OneChat(store[uid][k])), store)
  }

  /** `candidates?.[0]?.content?.parts?.[0]?.text`: None wherever a link of
      the chain is missing or a list is empty. */
  function FirstPartText(c: Completion): Option<string> {
    if c.candidates.None? || |c.candidates.value| == 0 then None
    else
      var content := c.candidates.value[0].content;
      if content.None? then None
      else
        var parts := content.value.parts;
        if parts.None? || |parts.value| == 0 then None
        else parts.value[0].text
  }

  /** The reply the relay stores and returns: the first part's text, or the
      fixed apology when that text is missing or empty. */
  function ExtractReply(c: Completion): (r: string)
    ensures r != ""
    ensures FirstPartText(c) == Some(r) || r == NoResponse
    ensures FirstPartText(c).Some? && FirstPartText(c).value != "" ==> r == FirstPartText(c).value
  {
    match FirstPartText(c)
    case Some(text) => if text != "" then text else NoResponse
    case None => NoResponse
  }

  /** JavaScript's `!message` is false: the field is present and not "". */
  predicate IsPresent(message: Option<string>) {
    message.Some? && message.value != ""
  }

  /** POST /chat/:chatId/message. The message is checked first, then the
      user, then the chat; the two new messages are pushed in memory and the
      document is saved only after the completion call answered, so a failed
      call persists nothing. */
  function AddMessageToChat(store: Store, uid: UserId, chatId: ChatId, message: Option<string>, upstream: Upstream): (h: Handled)
    ensures !IsPresent(message) ==> h == Handled(Respond(400, Notice(MessageRequired)), store)
    ensures message.None? || message == Some("") ==> h == Handled(Respond(400, Notice(MessageRequired)), store)
    ensures message.Some? && message.value != "" ==> h.response != Respond(400, Notice(MessageRequired))
    ensures IsPresent(message) && uid !in store ==> h == Handled(Respond(404, Notice(UserNotFound)), store)
    ensures IsPresent(message) && uid in store && !HasChat(store[uid], chatId) ==>
      h == Handled(Respond(404, Notice(ChatNotFound)), store)
    ensures upstream.UpstreamFailed? ==> h.store == store
    ensures IsPresent(message) && uid in store && HasChat(store[uid], chatId) && upstream.UpstreamFailed? ==>
      h.response == Respond(500, Notice(UpstreamError))
    ensures IsPresent(message) && uid in store && HasChat(store[uid], chatId) && upstream.UpstreamOk? ==>
      && h.response == Respond(200, Reply(ExtractReply(upstream.completion), chatId))
      && AppendedPair(store, h.store, uid, chatId, message.value, ExtractReply(upstream.completion))
    ensures h.store != store <==> h.response.Respond? && h.response.status == 200
  {
    if !IsPresent(message) then Handled(Respond(400, Notice(MessageRequired)), store)
    else if uid !in store then Handled(Respond(404, Notice(UserNotFound)), store)
    else
      match FirstIndexOf(store[uid], chatId)
      case None => Handled(Respond(404, Notice(ChatNotFound)), store)
      case Some(k) =>
        var chat := store[uid][k];
        match upstream
        case UpstreamFailed => Handled(Respond(500, Notice(UpstreamError)), store)
        case UpstreamOk(completion) =>
          var reply := ExtractReply(completion);
          var pair := [Message(User, message.value), Message(Bot, reply)];
          var updated := chat.(messages := chat.messages + pair);
          var after := store[uid := store[uid][k := updated]];
          assert after[uid][k].messages != store[uid][k].messages by {
            assert |after[uid][k].messages| == |chat.messages| + 2;
          }
          Handled(Respond(200, Reply(reply, chat.id)), after)
  }

  /** DELETE /chat/:chatId: removes every chat of `uid` with that id. Zero
      modified documents — an unknown user or no such chat — answers 404; a
      failing store operation answers 500. */
  function DeleteChat(store: Store, uid: UserId, chatId: ChatId, storeFails: bool): (h: Handled)
    ensures storeFails ==> h == Handled(Respond(500, Notice(DeleteError)), store)
    ensures !storeFails && (uid !in store || !HasChat(store[uid], chatId)) ==>
      h == Handled(Respond(404, Notice(ChatNotFound)), store)
    ensures !storeFails && uid in store && HasChat(store[uid], chatId) ==>
      && h.response == Respond(200, Notice(ChatDeleted))
      && OnlyUserChanged(store, h.store, uid)
      && uid in h.store
      && h.store[uid] == WithoutChat(store[uid], chatId)
      && |h.store[uid]| < |store[uid]|
  {
    if storeFails then Handled(Respond(500, Notice(DeleteError)), store)
    else if uid !in store || !HasChat(store[uid], chatId) then Handled(Respond(404, Notice(ChatNotFound)), store)
    else Handled(Respond(200, Notice(ChatDeleted)), store[uid := WithoutChat(store[uid], chatId)])
  }

  // ---------------------------------------------------------------------
  // Properties relating several handlers
  // ---------------------------------------------------------------------

  /** A chat created under a fresh id is what a later read of that id returns. */
  lemma CreateThenGet(store: Store, uid: UserId, title: string, newId: ChatId)
    requires uid in store
    requires !HasChat(store[uid], newId)
    ensures var after := CreateNewChat(store, uid, title, newId).store;
            GetChatById(after, uid, newId).response == Respond(200, OneChat(Chat(newId, title, [])))
  {
    var after := CreateNewChat(store, uid, title, newId).store;
    var n := |store[uid]|;
    assert forall j :: 0 <= j < n ==> after[uid][j] == store[uid][j];
    assert FirstIndexOf(after[uid], newId) == Some(n);
  }

  /** After a successful relay, reading the chat back shows the earlier
      messages followed by the user's text and the reply, in that order. */
  lemma AddThenGet(store: Store, uid: UserId, chatId: ChatId, message: Option<string>, completion: Completion)
    requires IsPresent(message) && uid in store && HasChat(store[uid], chatId)
    ensures var h := AddMessageToChat(store, uid, chatId, message, UpstreamOk(completion));
            var k := FirstIndexOf(store[uid], chatId).value;
            GetChatById(h.store, uid, chatId).response ==
              Respond(200, OneChat(Chat(chatId, store[uid][k].title,
                store[uid][k].messages + [Message(User, message.value), Message(Bot, ExtractReply(completion))])))
  {
    var h := AddMessageToChat(store, uid, chatId, message, UpstreamOk(completion));
    var k := FirstIndexOf(store[uid], chatId).value;
    assert forall j :: 0 <= j < |store[uid]| ==> h.store[uid][j].id == store[uid][j].id;
    assert FirstIndexOf(h.store[uid], chatId) == Some(k);
  }

  /** A message of white space only passes the presence check: it is stored
      and relayed like any other. */
  lemma BlankMessageAccepted(store: Store, uid: UserId, chatId: ChatId, message: string, upstream: Upstream)
    requires message != "" && AllWhitespace(message)
    ensures AddMessageToChat(store, uid, chatId, Some(message), upstream).response != Respond(400, Notice(MessageRequired))
    ensures uid in store && HasChat(store[uid], chatId) && upstream.UpstreamOk? ==>
      AddMessageToChat(store, uid, chatId, Some(message), upstream).response == Respond(200, Reply(ExtractReply(upstream.completion), chatId))
  {
  }

  /** A failed completion call leaves every chat with the message count it
      had: the user's message is not kept. */
  lemma FailedRelayKeepsNoMessage(store: Store, uid: UserId, chatId: ChatId, message: Option<string>)
    requires uid in store && HasChat(store[uid], chatId)
    ensures var after := AddMessageToChat(store, uid, chatId, message, UpstreamFailed).store;
            var k := FirstIndexOf(store[uid], chatId).value;
            uid in after && |after[uid][k].messages| == |store[uid][k].messages|
  {
  }

  /** Deletion answers 404 exactly when it removed nothing. */
  lemma DeleteNotFoundIffUnchanged(store: Store, uid: UserId, chatId: ChatId)
    ensures var h := DeleteChat(store, uid, chatId, false);
            h.response.status == 404 <==> h.store == store
  {
    var h := DeleteChat(store, uid, chatId, false);
    if uid in store && HasChat(store[uid], chatId) {
      assert |h.store[uid]| < |store[uid]|;
    }
  }

  /** After a deletion no chat of the user carries the id, and every chat with
      another id is still there. */
  lemma DeleteThenGet(store: Store, uid: UserId, chatId: ChatId)
    requires uid in store
    ensures var after := DeleteChat(store, uid, chatId, false).store;
            && uid in after
            && GetChatById(after, uid, chatId).response == Respond(404, Notice(ChatNotFound))
            && forall c :: c in store[uid] && c.id != chatId ==> c in after[uid]
  {
  }
}
