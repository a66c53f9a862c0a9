/** Entities shared by the chat server and the browser client: the chats a
    user owns and the messages inside them, plus the small wrappers the
    transitions are written with. */
module ChatTypes {

  /** Identifiers are opaque strings; the document store generates chat ids,
      so the model receives them as parameters. */
  type UserId = string
  type ChatId = string

  datatype Option<+T> = None | Some(value: T) {
    /** The value, or `default` when there is none (JavaScript's `x || d` on a possibly missing field). */
    function GetOr(default: T): T {
      match this
      case Some(v) => v
      case None => default
    }
  }

  /** Who wrote a message: the signed-in person or the completion service. */
  datatype Sender = User | Bot

  /** One turn of a conversation. The server's wall-clock timestamp is not modelled. */
  datatype Message = Message(sender: Sender, text: string)

  /** A titled conversation owned by exactly one user. */
  datatype Chat = Chat(id: ChatId, title: string, messages: seq<Message>)

  /** How a browser request ended as the client observes it: rejected (network
      error or non-2xx status) or answered with a body. */
  datatype Fetch<+T> = Failed | Fetched(data: T)

  predicate HasChat(chats: seq<Chat>, id: ChatId) {
    exists j :: 0 <= j < |chats| && chats[j].id == id
  }

  /** Position of the first chat carrying `id`; both Mongoose's `chats.id(..)`
      and JavaScript's `Array.prototype.find` return the first match. */
  function FirstIndexOf(chats: seq<Chat>, id: ChatId): (r: Option<nat>)
    ensures r.Some? ==> r.value < |chats| && chats[r.value].id == id
    ensures r.Some? ==> forall j :: 0 <= j < r.value ==> chats[j].id != id
    ensures r.None? ==> forall j :: 0 <= j < |chats| ==> chats[j].id != id
    ensures r.Some? <==> HasChat(chats, id)
  {
    if |chats| == 0 then None
    else if chats[0].id == id then Some(0)
    else
      match FirstIndexOf(chats[1..], id)
      case None => None
      case Some(k) => Some(k + 1)
  }

  /** The chats whose id differs from `id`, in their original order
      (`chats.filter(c => c._id !== id)`, and the store's `$pull`). */
  function WithoutChat(chats: seq<Chat>, id: ChatId): (r: seq<Chat>)
    ensures |r| <= |chats|
    ensures forall j :: 0 <= j < |r| ==> r[j].id != id
    ensures forall c :: c in r <==> c in chats && c.id != id
    ensures |r| == |chats| <==> !HasChat(chats, id)
  {
    if |chats| == 0 then []
    else
      var rest := WithoutChat(chats[1..], id);
      assert HasChat(chats, id) <==> chats[0].id == id || HasChat(chats[1..], id) by {
        if HasChat(chats[1..], id) {
          var j :| 0 <= j < |chats[1..]| && chats[1..][j].id == id;
          assert chats[j + 1].id == id;
        }
        if HasChat(chats, id) && chats[0].id != id {
          var j :| 0 <= j < |chats| && chats[j].id == id;
          assert chats[1..][j - 1].id == id;
        }
      }
      if chats[0].id == id then rest else [chats[0]] + rest
  }

  /** Filtering commutes with concatenation: together with its effect on a
      single chat this pins `WithoutChat` down, order included. */
  lemma {:induction false} WithoutChatAppend(a: seq<Chat>, b: seq<Chat>, id: ChatId)
    ensures WithoutChat(a + b, id) == WithoutChat(a, id) + WithoutChat(b, id)
    decreases |a|
  {
    if |a| == 0 {
      assert a + b == b;
    } else {
      assert (a + b)[1..] == a[1..] + b;
      WithoutChatAppend(a[1..], b, id);
    }
  }

  /** Removing an id no chat carries changes nothing. */
  lemma {:induction false} WithoutAbsentChat(chats: seq<Chat>, id: ChatId)
    requires !HasChat(chats, id)
    ensures WithoutChat(chats, id) == chats
  {
    if |chats| > 0 {
      assert chats[0].id != id;
      var rest := WithoutChat(chats[1..], id);
      assert WithoutChat(chats, id) == [chats[0]] + rest;
      assert |rest| == |chats[1..]|;
      WithoutAbsentChat(chats[1..], id);
      assert chats == [chats[0]] + chats[1..];
    }
  }
}
