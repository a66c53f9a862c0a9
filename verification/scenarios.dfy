/** The browser page and the server handlers together: the requests a client
    transition issues are served by the handlers, and the client sees what
    the handlers answered. These lemmas follow whole conversations across
    the two sides. */
module Scenarios {
  import opened ChatTypes
  import opened JsText
  import opened ChatController
  import opened ChatSession

  /** What axios hands the page for a GET /chat answer: non-2xx statuses reject. */
  function ListView(h: Handled): (f: Fetch<seq<Chat>>)
    ensures f.Fetched? <==> h.response.Respond? && h.response.status == 200 && h.response.body.ChatList?
    ensures f.Fetched? ==> f.data == h.response.body.chats
  {
    if h.response.Respond? && h.response.status == 200 && h.response.body.ChatList? then Fetched(h.response.body.chats)
    else Failed
  }

  /** What axios hands the page for a POST /chat/new answer. */
  function CreatedView(h: Handled): (f: Fetch<Chat>)
    ensures f.Fetched? <==> h.response.Respond? && h.response.status == 201 && h.response.body.OneChat?
    ensures f.Fetched? ==> f.data == h.response.body.chat
  {
    if h.response.Respond? && h.response.status == 201 && h.response.body.OneChat? then Fetched(h.response.body.chat)
    else Failed
  }

  /** What axios hands the page for a POST /chat/:id/message answer: non-2xx
      statuses reject. */
  function ReplyView(h: Handled): (f: Fetch<Option<string>>)
    ensures f.Fetched? <==> h.response.Respond? && h.response.status == 200 && h.response.body.Reply?
    ensures f.Fetched? ==> f.data == Some(h.response.body.reply)
  {
    if h.response.Respond? && h.response.status == 200 && h.response.body.Reply? then Fetched(Some(h.response.body.reply))
    else Failed
  }

  /** The server side of a first message: creating a chat and posting to it
      leaves one more chat at the end of the user's list, holding the
      question and the reply when the relay succeeded and nothing otherwise,
      and the page sees the new chat and the reply. */
  lemma {:induction false} CreateThenPost(store: Store, uid: UserId, text: string, newId: ChatId, upstream: Upstream)
    requires uid in store && !HasChat(store[uid], newId) && text != ""
    ensures var created := CreateNewChat(store, uid, text, newId);
            var relayed := AddMessageToChat(created.store, uid, newId, Some(text), upstream);
            var n := |store[uid]|;
            && CreatedView(created) == Fetched(Chat(newId, text, []))
            && uid in relayed.store
            && |relayed.store[uid]| == n + 1
            && relayed.store[uid][n].id == newId && relayed.store[uid][n].title == text
            && (upstream.UpstreamOk? ==>
                  var reply := ExtractReply(upstream.completion);
                  && ReplyView(relayed) == Fetched(Some(reply))
                  && relayed.store[uid][n].messages == [Message(User, text), Message(Bot, reply)])
            && (upstream.UpstreamFailed? ==>
                  ReplyView(relayed) == Failed && relayed.store[uid][n].messages == [])
  {
    var n := |store[uid]|;
    var created := CreateNewChat(store, uid, text, newId);
    CreateThenGet(store, uid, text, newId);
    assert FirstIndexOf(created.store[uid], newId) == Some(n);
    var relayed := AddMessageToChat(created.store, uid, newId, Some(text), upstream);
    if upstream.UpstreamOk? {
      var reply := ExtractReply(upstream.completion);
      assert AppendedPair(created.store, relayed.store, uid, newId, text, reply);
    }
  }

  /** The first message of a new conversation, end to end. The page asks for
      a chat titled with the trimmed text and posts that text to it; the
      server ends with one more chat holding exactly that text and the reply,
      and when the relay succeeded the page shows the same two messages the
      server stored. When the relay failed the page shows the question and an
      apology while the server keeps the chat empty. */
  lemma {:induction false} FirstMessageOfNewChat(store: Store, uid: UserId, newId: ChatId, s: Session, upstream: Upstream)
    requires uid in store && !HasChat(store[uid], newId)
    requires s.active == Some(NewChat) && s.messages == [] && Trim(s.input) != ""
    ensures var text := Trim(s.input);
            var created := CreateNewChat(store, uid, text, newId);
            var relayed := AddMessageToChat(created.store, uid, newId, Some(text), upstream);
            var st := HandleSend(s, CreatedView(created), ReplyView(relayed));
            && st.requests == [CreateChat(text), PostMessage(Some(newId), text)]
            && st.next.active == Some(Existing(newId))
            && uid in relayed.store
            && |relayed.store[uid]| == |store[uid]| + 1
            && var stored := relayed.store[uid][|store[uid]|];
               && stored.id == newId && stored.title == text
               && (upstream.UpstreamOk? ==> stored.messages == st.next.messages && |stored.messages| == 2)
               && (upstream.UpstreamFailed? ==> stored.messages == [] && |st.next.messages| == 2)
  {
    var text := Trim(s.input);
    CreateThenPost(store, uid, text, newId, upstream);
    var created := CreateNewChat(store, uid, text, newId);
    var relayed := AddMessageToChat(created.store, uid, newId, Some(text), upstream);
    var st := HandleSend(s, Fetched(Chat(newId, text, [])), ReplyView(relayed));
    assert |st.next.messages| == 2 && st.next.messages[0] == Message(User, text);
    if upstream.UpstreamOk? {
      var reply := ExtractReply(upstream.completion);
      assert st.next.messages[1] == BotBubble(Fetched(Some(reply)));
    }
  }

  /** The initial load against the server: a known user's sidebar is their
      stored list reversed, with the first stored chat active; for an unknown
      user the list request is refused and the page stays as mounted. */
  lemma LoadShowsStoredChats(store: Store, uid: UserId, token: string, load: Fetch<Option<seq<Message>>>)
    requires token != ""
    ensures var st := FetchChats(Mount(Some(token)), ListView(GetChats(store, uid)), load);
            && (uid in store ==> st.next.chats == Reverse(store[uid]))
            && (uid in store && |store[uid]| > 0 ==> st.next.active == Some(Existing(store[uid][0].id)))
            && (uid in store && |store[uid]| == 0 ==> st.next.active == Some(NewChat))
            && (uid !in store ==> st == Step(Mount(Some(token)), [ListChats]))
  {
  }

  /** The user with no chats: the page lands on the placeholder. When the
      completion call succeeds, the first send leaves the server with exactly
      one chat holding two messages, the ones the page shows; when it fails,
      that chat stays empty while the page shows the question and an apology. */
  lemma EmptyAccountFirstSend(store: Store, uid: UserId, newId: ChatId, token: string, text: string, upstream: Upstream)
    requires uid in store && store[uid] == [] && token != ""
    requires Trim(text) != ""
    ensures var loaded := FetchChats(Mount(Some(token)), ListView(GetChats(store, uid)), Failed).next;
            var typed := TypeInput(loaded, text);
            var created := CreateNewChat(store, uid, Trim(text), newId);
            var relayed := AddMessageToChat(created.store, uid, newId, Some(Trim(text)), upstream);
            var st := HandleSend(typed, CreatedView(created), ReplyView(relayed));
            && loaded.active == Some(NewChat)
            && uid in relayed.store && |relayed.store[uid]| == 1
            && relayed.store[uid][0].title == Trim(text)
            && (upstream.UpstreamOk? ==>
                  |relayed.store[uid][0].messages| == 2 && st.next.messages == relayed.store[uid][0].messages)
            && (upstream.UpstreamFailed? ==>
                  |relayed.store[uid][0].messages| == 0 && |st.next.messages| == 2)
  {
    LoadShowsStoredChats(store, uid, token, Failed);
    var loaded := FetchChats(Mount(Some(token)), ListView(GetChats(store, uid)), Failed).next;
    var typed := TypeInput(loaded, text);
    FirstMessageOfNewChat(store, uid, newId, typed, upstream);
  }

  /** Reversal commutes with removing a chat. */
  lemma {:induction false} ReverseWithoutChat(xs: seq<Chat>, id: ChatId)
    ensures Reverse(WithoutChat(xs, id)) == WithoutChat(Reverse(xs), id)
  {
    if |xs| > 0 {
      var x := xs[0];
      var w := WithoutChat(xs[1..], id);
      assert Reverse(xs) == Reverse(xs[1..]) + [x];
      WithoutChatAppend(Reverse(xs[1..]), [x], id);
      ReverseWithoutChat(xs[1..], id);
      assert WithoutChat(Reverse(xs), id) == Reverse(w) + WithoutChat([x], id);
      if x.id == id {
        assert WithoutChat(xs, id) == w;
        assert WithoutChat([x], id) == [];
        assert Reverse(w) + [] == Reverse(w);
      } else {
        assert WithoutChat(xs, id) == [x] + w;
        assert WithoutChat([x], id) == [x];
        assert ([x] + w)[1..] == w;
        assert Reverse([x] + w) == Reverse(w) + [x];
      }
    }
  }

  /** A delete confirmed by the server keeps the sidebar equal to the
      server's list, reversed, as the initial load laid it out. */
  lemma DeleteKeepsSidebarInStep(store: Store, uid: UserId, chatId: ChatId, s: Session, load: Fetch<Option<seq<Message>>>)
    requires uid in store && HasChat(store[uid], chatId)
    requires s.chats == Reverse(store[uid])
    ensures var h := DeleteChat(store, uid, chatId, false);
            var st := DeleteConfirmed(s, chatId, h.response.status == 200, load);
            uid in h.store && st.next.chats == Reverse(h.store[uid])
  {
    ReverseWithoutChat(store[uid], chatId);
  }

  /** Removing the id of the last chat, carried by no other chat, drops just
      that last chat. */
  lemma {:induction false} WithoutDistinctLast(chats: seq<Chat>)
    requires |chats| >= 1
    requires forall j :: 0 <= j < |chats| - 1 ==> chats[j].id != chats[|chats| - 1].id
    ensures WithoutChat(chats, chats[|chats| - 1].id) == chats[..|chats| - 1]
  {
    var n := |chats|;
    var last := chats[n - 1];
    var front := chats[..n - 1];
    assert chats == front + [last];
    WithoutChatAppend(front, [last], last.id);
    assert forall j :: 0 <= j < |front| ==> front[j].id != last.id;
    assert |WithoutChat(front, last.id)| == |front|;
    WithoutAbsentChat(front, last.id);
    assert WithoutChat([last], last.id) == [];
    assert front + [] == front;
  }

  /** Deleting the active chat when it is the bottom sidebar entry, and no
      other entry carries its id, selects the entry just above it. */
  lemma {:induction false} DeleteBottomActiveSelectsPrevious(s: Session, load: Fetch<Option<seq<Message>>>)
    requires |s.chats| >= 2
    requires forall j :: 0 <= j < |s.chats| - 1 ==> s.chats[j].id != s.chats[|s.chats| - 1].id
    requires s.active == Some(Existing(s.chats[|s.chats| - 1].id))
    ensures var n := |s.chats|;
            var st := DeleteConfirmed(s, s.chats[n - 1].id, true, load);
            && st.next.chats == s.chats[..n - 1]
            && st.next.active == Some(Existing(s.chats[n - 2].id))
  {
    var n := |s.chats|;
    var id := s.chats[n - 1].id;
    WithoutDistinctLast(s.chats);
    var rest := WithoutChat(s.chats, id);
    assert |rest| == n - 1 && rest[n - 2] == s.chats[n - 2];
    var st := DeleteConfirmed(s, id, true, load);
    assert st.next.active == Some(Existing(rest[|rest| - 1].id));
  }
}
