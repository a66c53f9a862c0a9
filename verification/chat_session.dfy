/** The browser's chat page (src/components/Home.jsx) as a state machine.
    Every handler is one atomic transition from a session to the next
    session together with the HTTP requests it issued, in order; the answers
    to those requests are parameters. */
module ChatSession {
  import opened ChatTypes
  import opened JsText

  /** The active chat: a stored chat, or the "new" placeholder used before the
      first message of a conversation creates it. */
  datatype ChatRef = NewChat | Existing(id: ChatId)

  /** The confirmation dialog and the action its Confirm button runs. */
  datatype Modal = Closed | ConfirmDelete(target: ChatId) | ConfirmLogout

  /** Which screen is shown: the chat page, or the sign-in page logout leads to. */
  datatype Page = HomePage | EntryPage

  datatype Request =
    | ListChats                                  // GET /chat
    | LoadChat(id: ChatId)                       // GET /chat/:id
    | CreateChat(title: string)                  // POST /chat/new
    | PostMessage(chat: Option<ChatId>, text: string)  // POST /chat/:id/message; None is the `null` id
    | RemoveChat(id: ChatId)                     // DELETE /chat/:id
    | SignOut                                    // POST /logout

  /** The page's state: the bearer token it holds, the sidebar's chats, the
      active chat (`None` before any selection), the transcript shown, the
      text box, the pending-reply flag and the dialog. */
  datatype Session = Session(
    token: Option<string>,
    page: Page,
    chats: seq<Chat>,
    active: Option<ChatRef>,
    messages: seq<Message>,
    input: string,
    isLoading: bool,
    modal: Modal)

  datatype Step = Step(next: Session, requests: seq<Request>)

  const SendErrorText := "Sorry, an error occurred. Please try again."
  const NewConversation := "New Conversation"
  const Welcome := "Welcome!"
  const Ellipsis := "..."
  /** Sidebar titles longer than this many characters are cut. */
  const TitleLimit := 28

  /** The page as it is first mounted with `token`. */
  function Mount(token: Option<string>): Session {
    Session(token, HomePage, [], None, [], "", false, Closed)
  }

  /** What is left after logout: no token, the entry page, and a chat page
      that starts from scratch when it is next mounted. */
  function SignedOut(): Session {
    Mount(None).(page := EntryPage)
  }

  /** JavaScript's `!token` is false. */
  predicate HasToken(token: Option<string>) {
    token.Some? && token.value != ""
  }

  function Reverse<T>(xs: seq<T>): (r: seq<T>)
    ensures |r| == |xs|
    ensures forall i :: 0 <= i < |xs| ==> r[i] == xs[|xs| - 1 - i]
  {
    if |xs| == 0 then [] else Reverse(xs[1..]) + [xs[0]]
  }

  /** Typing in the text box: nothing but the text box changes. */
  function TypeInput(s: Session, text: string): (t: Session)
    ensures t.input == text
    ensures t.(input := s.input) == s
  {
    s.(input := text)
  }

  /** `handleNewChat`: switch to the "new" placeholder with an empty
      transcript, without a request. */
  function HandleNewChat(s: Session): (t: Session)
    ensures t.active == Some(NewChat) && t.messages == []
    ensures t.chats == s.chats && t.input == s.input && t.modal == s.modal
  {
    s.(active := Some(NewChat), messages := [])
  }

  /** `selectChat`: re-selecting the active chat does nothing; otherwise the
      active chat changes at once, the placeholder clears the transcript
      locally, and a stored chat is loaded — a failed load keeps the old
      transcript under the new active id. */
  function SelectChat(s: Session, target: ChatRef, load: Fetch<Option<seq<Message>>>): (st: Step)
    ensures s.active == Some(target) ==> st == Step(s, [])
    ensures s.active != Some(target) ==>
      && st.next == s.(active := Some(target), messages := st.next.messages)
      && (target == NewChat ==> st.next.messages == [] && st.requests == [])
      && (target.Existing? ==> st.requests == [LoadChat(target.id)])
      && (target.Existing? && load.Failed? ==> st.next.messages == s.messages)
      && (target.Existing? && load.Fetched? ==> st.next.messages == load.data.GetOr([]))
  {
    if s.active == Some(target) then Step(s, [])
    else
      var moved := s.(active := Some(target));
      match target
      case NewChat => Step(moved.(messages := []), [])
      case Existing(id) =>
        match load
        case Failed => Step(moved, [LoadChat(id)])
        case Fetched(found) => Step(moved.(messages := found.GetOr([])), [LoadChat(id)])
  }

  /** The effect run when the page mounts or the token changes: without a
      token nothing happens; otherwise the chat list is fetched and kept in
      reverse, and its last element — the first chat the server stored — is
      selected, or the placeholder when there are no chats. */
  function FetchChats(s: Session, list: Fetch<seq<Chat>>, load: Fetch<Option<seq<Message>>>): (st: Step)
    ensures !HasToken(s.token) ==> st == Step(s, [])
    ensures HasToken(s.token) && list.Failed? ==> st == Step(s, [ListChats])
    ensures HasToken(s.token) && list.Fetched? ==>
      && st.next == s.(chats := Reverse(list.data), active := st.next.active, messages := st.next.messages)
      && |st.requests| >= 1 && st.requests[0] == ListChats
      && (|list.data| == 0 ==> st.next.active == Some(NewChat) && st.next.messages == [] && st.requests == [ListChats])
      && (|list.data| > 0 ==> st.next.active == Some(Existing(list.data[0].id)))
    ensures HasToken(s.token) && list.Fetched? && |list.data| > 0 ==>
      var first := list.data[0].id;
      && (s.active == Some(Existing(first)) ==> st.requests == [ListChats] && st.next.messages == s.messages)
      && (s.active != Some(Existing(first)) ==> st.requests == [ListChats, LoadChat(first)])
      && (s.active != Some(Existing(first)) && load.Failed? ==> st.next.messages == s.messages)
      && (s.active != Some(Existing(first)) && load.Fetched? ==> st.next.messages == load.data.GetOr([]))
  {
    if !HasToken(s.token) then Step(s, [])
    else
      match list
      case Failed => Step(s, [ListChats])
      case Fetched(fetched) =>
        var listed := s.(chats := Reverse(fetched));
        if |listed.chats| > 0 then
          assert listed.chats[|listed.chats| - 1] == fetched[0];
          var picked := SelectChat(listed, Existing(listed.chats[|listed.chats| - 1].id), load);
          Step(picked.next, [ListChats] + picked.requests)
        else
          Step(HandleNewChat(listed), [ListChats])
  }

  /** The id a message is posted to when the active chat is not the
      placeholder (`null` before any selection). */
  function PostTarget(active: Option<ChatRef>): Option<ChatId> {
    match active
    case Some(Existing(id)) => Some(id)
    case _ => None
  }

  /** The bot bubble shown after a send: the server's reply when the request
      succeeded with a non-empty `reply`, the fixed apology otherwise. */
  function BotBubble(post: Fetch<Option<string>>): (m: Message)
    ensures m.sender == Bot && m.text != ""
    ensures m.text == SendErrorText || post == Fetched(Some(m.text))
    ensures post.Fetched? && post.data.Some? && post.data.value != "" ==> m.text == post.data.value
  {
    if post.Fetched? && post.data.Some? && post.data.value != "" then Message(Bot, post.data.value)
    else Message(Bot, SendErrorText)
  }

  /** The `finally` of a send: append the bot bubble and stop loading. */
  function Settle(s: Session, bubble: Message, requests: seq<Request>): Step {
    Step(s.(messages := s.messages + [bubble], isLoading := false), requests)
  }

  /** `handleSend`. Blank input changes nothing. Otherwise the trimmed text is
      shown at once, the text box is cleared, the placeholder is first turned
      into a stored chat titled with that text, and the text is posted; the
      transcript ends exactly two messages longer and loading is over. */
  function HandleSend(s: Session, create: Fetch<Chat>, post: Fetch<Option<string>>): (st: Step)
    ensures Trim(s.input) == "" ==> st == Step(s, [])
    ensures Trim(s.input) != "" ==>
      && |st.next.messages| == |s.messages| + 2
      && st.next.messages[..|s.messages|] == s.messages
      && st.next.messages[|s.messages|] == Message(User, Trim(s.input))
      && st.next.messages[|s.messages| + 1].sender == Bot
      && st.next.input == ""
      && !st.next.isLoading
      && st.next.modal == s.modal && st.next.token == s.token && st.next.page == s.page
    ensures Trim(s.input) != "" && s.active != Some(NewChat) ==>
      && st.next.chats == s.chats
      && st.next.active == s.active
      && st.requests == [PostMessage(PostTarget(s.active), Trim(s.input))]
      && st.next.messages[|s.messages| + 1] == BotBubble(post)
    ensures Trim(s.input) != "" && s.active == Some(NewChat) && create.Fetched? ==>
      && st.next.chats == s.chats + [create.data]
      && st.next.active == Some(Existing(create.data.id))
      && st.requests == [CreateChat(Trim(s.input)), PostMessage(Some(create.data.id), Trim(s.input))]
      && st.next.messages[|s.messages| + 1] == BotBubble(post)
    ensures Trim(s.input) != "" && s.active == Some(NewChat) && create.Failed? ==>
      && st.next.chats == s.chats
      && st.next.active == s.active
      && st.requests == [CreateChat(Trim(s.input))]
      && st.next.messages[|s.messages| + 1] == Message(Bot, SendErrorText)
  {
    var text := Trim(s.input);
    if text == "" then Step(s, [])
    else
      var shown := s.(messages := s.messages + [Message(User, text)], input := "", isLoading := true);
      if s.active == Some(NewChat) then
        match create
        case Failed => Settle(shown, Message(Bot, SendErrorText), [CreateChat(text)])
        case Fetched(chat) =>
          var adopted := shown.(chats := shown.chats + [chat], active := Some(Existing(chat.id)));
          Settle(adopted, BotBubble(post), [CreateChat(text), PostMessage(Some(chat.id), text)])
      else
        Settle(shown, BotBubble(post), [PostMessage(PostTarget(s.active), text)])
  }

  /** `handleDeleteChat` before confirmation: only the dialog opens. */
  function AskDelete(s: Session, id: ChatId): (t: Session)
    ensures t.modal == ConfirmDelete(id)
    ensures t.(modal := s.modal) == s
  {
    s.(modal := ConfirmDelete(id))
  }

  /** `handleLogout` before confirmation: only the dialog opens. */
  function AskLogout(s: Session): (t: Session)
    ensures t.modal == ConfirmLogout
    ensures t.(modal := s.modal) == s
  {
    s.(modal := ConfirmLogout)
  }

  /** The dialog's Cancel button: the dialog closes and nothing else changes. */
  function Dismiss(s: Session): (t: Session)
    ensures t.modal == Closed
    ensures t.(modal := s.modal) == s
  {
    s.(modal := Closed)
  }

  /** The confirmed delete. A refused request changes nothing but the
      dialog. A successful one drops the chat from the sidebar and, when it
      was the active chat, selects the last chat left or the placeholder.
      The dialog closes in every case. */
  function DeleteConfirmed(s: Session, id: ChatId, deleted: bool, load: Fetch<Option<seq<Message>>>): (st: Step)
    ensures st.next.modal == Closed
    ensures |st.requests| >= 1 && st.requests[0] == RemoveChat(id)
    ensures !deleted ==> st == Step(s.(modal := Closed), [RemoveChat(id)])
    ensures deleted ==> st.next.chats == WithoutChat(s.chats, id)
    ensures deleted && s.active != Some(Existing(id)) ==>
      st == Step(s.(chats := WithoutChat(s.chats, id), modal := Closed), [RemoveChat(id)])
    ensures deleted && s.active == Some(Existing(id)) && |WithoutChat(s.chats, id)| == 0 ==>
      st.next.active == Some(NewChat) && st.next.messages == [] && st.requests == [RemoveChat(id)]
    ensures deleted && s.active == Some(Existing(id)) ==>
      st.next == s.(chats := WithoutChat(s.chats, id), active := st.next.active, messages := st.next.messages, modal := Closed)
    ensures deleted && s.active == Some(Existing(id)) && |WithoutChat(s.chats, id)| > 0 ==>
      var rest := WithoutChat(s.chats, id);
      && st.next.active == Some(Existing(rest[|rest| - 1].id))
      && st.requests == [RemoveChat(id), LoadChat(rest[|rest| - 1].id)]
      && (load.Failed? ==> st.next.messages == s.messages)
      && (load.Fetched? ==> st.next.messages == load.data.GetOr([]))
  {
    if !deleted then Step(s.(modal := Closed), [RemoveChat(id)])
    else
      var rest := WithoutChat(s.chats, id);
      var pruned := s.(chats := rest);
      if s.active == Some(Existing(id)) then
        if |rest| > 0 then
          var picked := SelectChat(pruned, Existing(rest[|rest| - 1].id), load);
          Step(picked.next.(modal := Closed), [RemoveChat(id)] + picked.requests)
        else
          Step(HandleNewChat(pruned).(modal := Closed), [RemoveChat(id)])
      else
        Step(pruned.(modal := Closed), [RemoveChat(id)])
  }

  /** The confirmed logout: the server is told, and whatever it answers the
      client drops its token and its chat state and shows the entry page. */
  function LogoutConfirmed(s: Session, serverOk: bool): (st: Step)
    ensures st.requests == [SignOut]
    ensures st.next.token == None && st.next.page == EntryPage
    ensures st.next.chats == [] && st.next.messages == [] && st.next.active == None
    ensures st.next.modal == Closed && !st.next.isLoading && st.next.input == ""
  {
    Step(SignedOut(), [SignOut])
  }

  /** The sidebar's label for a chat title: titles over 28 characters are cut
      to their first 28 followed by "...". */
  function ShortTitle(title: string): (r: string)
    ensures |r| <= TitleLimit + |Ellipsis|
    ensures |title| <= TitleLimit ==> r == title
    ensures |title| > TitleLimit ==> |r| == TitleLimit + |Ellipsis| && r[..TitleLimit] == title[..TitleLimit] && r[TitleLimit..] == Ellipsis
  {
    if |title| > TitleLimit then title[..TitleLimit] + Ellipsis else title
  }

  /** `getChatTitle`: the header above the transcript. */
  function ChatTitle(s: Session): (r: string)
    ensures r != ""
    ensures s.active == Some(NewChat) ==> r == NewConversation
    ensures s.active == None ==> r == Welcome
  {
    if s.active == Some(NewChat) then NewConversation
    else
      var id := PostTarget(s.active);
      if id.None? then Welcome
      else
        match FirstIndexOf(s.chats, id.value)
        case None => Welcome
        case Some(k) => if s.chats[k].title != "" then s.chats[k].title else Welcome
  }

  // ---------------------------------------------------------------------
  // Properties of the transitions
  // ---------------------------------------------------------------------

  /** Selecting is idempotent: once a chat is selected, selecting it again is
      a no-op that issues no request, whatever any load would have answered. */
  lemma SelectChatIdempotent(s: Session, target: ChatRef, first: Fetch<Option<seq<Message>>>, second: Fetch<Option<seq<Message>>>)
    ensures var once := SelectChat(s, target, first).next;
            SelectChat(once, target, second) == Step(once, [])
  {
  }

  /** The "New Chat" button and selecting the placeholder agree, except when
      the placeholder is already active: then selecting keeps the transcript
      (say, an unanswered message) while the button clears it. */
  lemma NewChatVersusSelectNew(s: Session, load: Fetch<Option<seq<Message>>>)
    ensures s.active != Some(NewChat) ==> SelectChat(s, NewChat, load) == Step(HandleNewChat(s), [])
    ensures s.active == Some(NewChat) ==>
      SelectChat(s, NewChat, load) == Step(s, []) && HandleNewChat(s) == s.(messages := [])
  {
  }

  /** The initial load selects the first chat the server listed — the oldest
      one, since chats are appended as they are created — and, as the
      sidebar shows the list reversed, that chat is the bottom entry. */
  lemma FetchChatsSelectsFirstListed(s: Session, fetched: seq<Chat>, load: Fetch<Option<seq<Message>>>)
    requires HasToken(s.token) && |fetched| > 0
    ensures var st := FetchChats(s, Fetched(fetched), load);
            var shown := st.next.chats;
            && st.next.active == Some(Existing(fetched[0].id))
            && shown[|shown| - 1] == fetched[0]
  {
  }

  /** After a confirmed, successful delete of the active chat, the chat now
      active is never the deleted one, and it is still in the sidebar. */
  lemma DeleteActiveMovesAway(s: Session, id: ChatId, load: Fetch<Option<seq<Message>>>)
    requires s.active == Some(Existing(id))
    ensures var st := DeleteConfirmed(s, id, true, load);
            && st.next.active != Some(Existing(id))
            && (st.next.active == Some(NewChat) || (st.next.active.Some? && HasChat(st.next.chats, st.next.active.value.id)))
  {
  }

  /** Logout does not depend on the server's answer, nor on the state it
      started from. */
  lemma LogoutIgnoresServer(s: Session, t: Session, a: bool, b: bool)
    ensures LogoutConfirmed(s, a) == LogoutConfirmed(t, b)
  {
  }

  /** The header shows the title of the first sidebar entry with the active
      id, when that title is not empty. */
  lemma ChatTitleOfActive(s: Session, id: ChatId)
    requires s.active == Some(Existing(id))
    ensures HasChat(s.chats, id) ==>
      var k := FirstIndexOf(s.chats, id).value;
      ChatTitle(s) == if s.chats[k].title != "" then s.chats[k].title else Welcome
    ensures !HasChat(s.chats, id) ==> ChatTitle(s) == Welcome
  {
  }

  /** Sending from a text box holding only white space changes nothing and
      sends nothing. */
  lemma BlankSendIsNoop(s: Session, create: Fetch<Chat>, post: Fetch<Option<string>>)
    requires AllWhitespace(s.input)
    ensures HandleSend(s, create, post) == Step(s, [])
  {
    TrimBlankIff(s.input);
  }
}
