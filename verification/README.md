# ChatFree chat core in Dafny

ChatFree is a small web chat application. A React page sends a user's
messages to an Express controller. The controller stores each user's chats in
a document store and relays each message to a generative-language completion
service. This project models the core of both sides as pure transitions over
immutable data:

- **Server chat handlers** (`ChatController`). The store is a map from user id
  to that user's chats. Each handler takes the store and the request and
  returns the response plus the store afterwards. The handlers are `getChats`,
  `createNewChat`, `getChatById`, `addMessageToChat` and `deleteChat`. The
  completion service's answer, the generated chat id and a failing delete
  are parameters.
- **Client chat page** (`ChatSession`). The state holds the token, the
  sidebar chats, the active chat, the transcript, the text box, the loading
  flag and the confirmation dialog. Each handler returns the next state and
  the HTTP requests it issued. The answers to those requests are parameters.
  The same module holds the sidebar title truncation and the header title.
- **Markdown renderer** (`Markdown`). It splits a reply chunk into list items
  and paragraphs, as `renderMarkdown` does.
- **Sign-up form** (`SignupForm`). It models the password-match hints and the
  submit handler's validation and messages.
- **Shared pieces.** `ChatTypes` holds chats, messages, the option type and
  lookups by id. `JsText` holds JavaScript's `trim`, its white-space class,
  and `split`/`join`.
- **End to end** (`Scenarios`). It runs client transitions against the
  server handlers.

Three behaviours of the code are easy to miss:

- **A failed completion call persists nothing.** The handler pushes the
  user's message before calling the completion service. The only
  `user.save()` comes after the bot reply is pushed
  (gemini-backend/controllers/chatController.js:60). When the call fails,
  the catch branch answers 500 without saving, so the store is unchanged.
  See `ChatController.FailedRelayKeepsNoMessage` and
  `Scenarios.FirstMessageOfNewChat`.
- **A whitespace-only message is accepted.** The presence check only tests
  `!message` (gemini-backend/controllers/chatController.js:40). A non-empty
  message of white space is stored and relayed. See
  `ChatController.BlankMessageAccepted`.
- **The initial load selects the oldest chat.** The page reverses the
  server's list and then selects the last element of the reversed list
  (src/components/Home.jsx:295-298). That element is the first chat the
  server stored. See `ChatSession.FetchChatsSelectsFirstListed`.

## Model

| member | source | states |
|---|---|---|
| ChatTypes.FirstIndexOf | gemini-backend/controllers/chatController.js:45 | The result is the first position holding the id. No earlier chat carries it. None means no chat carries it. |
| ChatTypes.WithoutChat | src/components/Home.jsx:386 | The result keeps exactly the chats with a different id. It is shorter than the input exactly when some chat carried the id. |
| ChatTypes.WithoutChatAppend | src/components/Home.jsx:386 | Filtering by id commutes with concatenation, so the survivors keep their order. |
| ChatTypes.WithoutAbsentChat | gemini-backend/controllers/chatController.js:85-88 | Removing an id that no chat carries leaves the list as it was. |
| JsText.LeadingBlanks | src/components/Home.jsx:334 | The count covers only white space, and the character after it, if any, is not white space. |
| JsText.TrailingBlanks | src/components/Home.jsx:334 | The count covers only white space at the end, and the character before it, if any, is not white space. |
| JsText.TrimBounds | src/components/Home.jsx:334 | The trimmed text is the slice between the leading blanks and the trailing blanks of what follows them. |
| JsText.Trim | src/components/Home.jsx:334 | Neither end of a trimmed string is white space. |
| JsText.TrimIsInfix | src/components/Home.jsx:334 | The trimmed text is a contiguous middle part of the input, and only white space was cut from either side. |
| JsText.TrimBlankIff | src/components/Home.jsx:335 | Input trims to the empty string exactly when it is all white space. |
| JsText.Split | src/components/Home.jsx:231 | Splitting yields at least one piece, and no piece contains the separator. |
| JsText.JoinSplit | src/components/Home.jsx:231 | Joining the pieces of a split gives back the original chunk. |
| JsText.SplitJoin | src/components/Home.jsx:231 | Splitting a join of separator-free pieces gives back the pieces. |
| JsText.JoinAllWhitespace | src/components/Home.jsx:231 | A chunk joined with line feeds is all white space exactly when every line is. |
| ChatController.GetChats | gemini-backend/controllers/chatController.js:10-12 | An unknown user gets 404 "User not found". A known user gets their chat list unchanged. The store never changes. |
| ChatController.CreateNewChat | gemini-backend/controllers/chatController.js:19-25 | The user's list grows by one and its old entries are unchanged. The new chat has the requested title and no messages, sits last, and is returned with 201. Other users are untouched. A missing user makes the handler throw. |
| ChatController.GetChatById | gemini-backend/controllers/chatController.js:31-34 | The result is a chat from the caller's own list with the requested id, or 404 "Chat not found". The store never changes. A missing user makes the handler throw. |
| ChatController.ExtractReply | gemini-backend/controllers/chatController.js:57 | The reply is never empty. It is the first candidate's first part text when that text exists and is non-empty. Otherwise it is "Sorry, no response.". |
| ChatController.AddMessageToChat | gemini-backend/controllers/chatController.js:39-66 | Checks run in order: message present, a missing or empty message answering 400 "Message is required." and any other passing, then user (else 404 "User not found"), then chat (else 404 "Chat not found"). On success exactly the user text and then the reply are appended to that chat, and nothing else changes. An upstream failure answers 500 and leaves the store unchanged. The store changes exactly when the answer is 200. |
| ChatController.DeleteChat | gemini-backend/controllers/chatController.js:80-100 | A store failure answers 500. An unknown user or an absent chat answers 404 with the store unchanged. Otherwise the answer is 200 and only that user's list changes: it loses every chat with the id. |
| ChatController.CreateThenGet | gemini-backend/controllers/chatController.js:19-34 | A chat created under a fresh id is exactly what a later read of that id returns. |
| ChatController.AddThenGet | gemini-backend/controllers/chatController.js:45-62 | After a successful relay, reading the chat back shows the old messages, then the user text, then the reply. |
| ChatController.BlankMessageAccepted | gemini-backend/controllers/chatController.js:40-62 | A non-empty message made only of white space is not rejected with 400. For an existing chat with a successful completion, it gets the normal 200 reply. |
| ChatController.FailedRelayKeepsNoMessage | gemini-backend/controllers/chatController.js:48-66 | After an upstream failure the target chat has as many messages as before. The user message is not kept. |
| ChatController.DeleteNotFoundIffUnchanged | gemini-backend/controllers/chatController.js:85-96 | Without a store failure, deletion answers 404 exactly when it removed nothing. |
| ChatController.DeleteThenGet | gemini-backend/controllers/chatController.js:85-96 | After deletion, reading the id gives 404. Every chat with another id is still stored. |
| Markdown.DigitRun | src/components/Home.jsx:236 | The result is the length of the maximal run of ASCII digits at the start. |
| Markdown.SpaceRun | src/components/Home.jsx:236 | The result is the length of the maximal run of white space at the start, as the greedy `\s+` takes it. |
| Markdown.MarkerLength | src/components/Home.jsx:236 | A reported marker length covers a whole marker: `*`, `-`, or digits followed by `.`. |
| Markdown.ListPrefix | src/components/Home.jsx:237 | A reported prefix length is positive and within the line. |
| Markdown.MarkerIsUnique | src/components/Home.jsx:236 | Any marker at the start of a line is the one `MarkerLength` reports. |
| Markdown.ListPrefixIsLongestMatch | src/components/Home.jsx:236-237 | `ListPrefix` returns the longest prefix of the line in the language `(\*\|-\|\d+\.)\s+`. It returns none exactly when no prefix is in that language. |
| Markdown.IndentedLineIsNotListItem | src/components/Home.jsx:236 | A line that starts with white space is never a list item, even when a marker follows. |
| Markdown.ListItemHasNoLeadingBlank | src/components/Home.jsx:237 | A list item never starts with white space: the greedy `\s+` removes all of it after the marker. |
| Markdown.NonBlank | src/components/Home.jsx:231 | The kept lines are exactly the input lines that do not trim to empty, and the result is no longer than the input. |
| Markdown.RenderMarkdown | src/components/Home.jsx:230-262 | The result is null exactly when no line is non-blank. Otherwise the block holds the list items and the paragraphs of the non-blank lines, which together count every such line. |
| Markdown.ListItemsAreStrippedLines | src/components/Home.jsx:236-237 | The list items are exactly the matching lines with the matched marker and white space removed. |
| Markdown.ParagraphsAreUnmatchedLines | src/components/Home.jsx:238-244 | The paragraphs are exactly the lines that do not match, unchanged. |
| Markdown.RenderedLines | src/components/Home.jsx:230-262 | In a rendered block, each non-blank line of the chunk appears as a list item with its marker stripped when it matches the pattern, and unchanged as a paragraph when it does not. |
| Markdown.PartitionCount | src/components/Home.jsx:235-245 | Every line becomes exactly one list item or exactly one paragraph. |
| Markdown.ListItemsAppend | src/components/Home.jsx:235-238 | List items keep the relative order of their lines. |
| Markdown.ParagraphsAppend | src/components/Home.jsx:239-244 | Paragraphs keep the relative order of their lines. |
| Markdown.NonBlankAppend | src/components/Home.jsx:231 | Dropping blank lines keeps the remaining lines in order. |
| Markdown.NonBlankEmptyIff | src/components/Home.jsx:231 | Nothing survives the blank-line filter exactly when every line is all white space. |
| Markdown.RenderNothingIffBlank | src/components/Home.jsx:247-262 | The renderer returns null exactly when the whole chunk is white space. |
| ChatSession.Reverse | src/components/Home.jsx:295 | The result has the same length as the input, with each element mirrored. |
| ChatSession.TypeInput | src/components/Home.jsx:666 | The text box holds the typed text, and nothing else in the session changes. |
| ChatSession.HandleNewChat | src/components/Home.jsx:370-374 | The placeholder becomes active with an empty transcript. The sidebar, the text box and the dialog are kept. |
| ChatSession.SelectChat | src/components/Home.jsx:315-329 | Selecting the active chat again is a no-op with no request. Otherwise the active id changes, and only the transcript may change with it. The placeholder clears the transcript without a request. A stored chat issues one load. A failed load keeps the old transcript. A successful load shows the fetched messages, or none if they are absent. |
| ChatSession.FetchChats | src/components/Home.jsx:291-305 | Without a token nothing happens. A failed list changes nothing. A fetched list is stored reversed, and only the sidebar, the active chat and the transcript change. An empty list activates the placeholder with an empty transcript. Otherwise the first chat the server listed becomes active. If it was not already active, it is loaded: a failed load keeps the transcript and a successful one shows the fetched messages. |
| ChatSession.BotBubble | src/components/Home.jsx:352-363 | The bot bubble holds the server's non-empty reply. Otherwise it holds "Sorry, an error occurred. Please try again.". |
| ChatSession.HandleSend | src/components/Home.jsx:332-367 | Blank input changes nothing and sends nothing. Otherwise the transcript grows by exactly two: the user's trimmed text, then a bot bubble. The text box is cleared and loading ends false. The token, the page and the dialog are unchanged. With the placeholder active, a chat titled with the text is created first, appended to the sidebar and made active, and the text is posted to it. If creation fails nothing is posted. Otherwise the sidebar and the active id are unchanged. |
| ChatSession.AskDelete | src/components/Home.jsx:377-382 | Asking to delete opens the dialog for that chat, and nothing else changes. |
| ChatSession.AskLogout | src/components/Home.jsx:405-409 | Asking to log out opens the logout dialog, and nothing else changes. |
| ChatSession.Dismiss | src/components/Home.jsx:542-544 | Cancel closes the dialog, and nothing else changes. |
| ChatSession.DeleteConfirmed | src/components/Home.jsx:383-400 | The dialog always closes. A failed delete changes nothing else. A successful delete removes the id from the sidebar. If the deleted chat was active, the last remaining chat is selected and loaded, or the placeholder is activated when none remain. Only the sidebar, the active chat, the transcript and the dialog change. A failed load keeps the transcript, and a successful one shows the fetched messages. Otherwise the active chat and transcript are kept. |
| ChatSession.LogoutConfirmed | src/components/Home.jsx:410-420 | Confirmed logout posts one logout request. It always ends with no token, no chats, no transcript, no active chat, an empty text box, no loading, a closed dialog and the entry page. |
| ChatSession.ShortTitle | src/components/Home.jsx:493-495 | A title of at most 28 characters is shown as is. A longer one becomes its first 28 characters plus "...", 31 characters in all. |
| ChatSession.ChatTitle | src/components/Home.jsx:533-536 | The header is never empty. It is "New Conversation" for the placeholder and "Welcome!" before any selection. |
| ChatSession.SelectChatIdempotent | src/components/Home.jsx:316 | Selecting the same chat a second time is a no-op with no request, whatever the loads answer. |
| ChatSession.NewChatVersusSelectNew | src/components/Home.jsx:315-322 | Selecting the placeholder equals the New Chat button, except when the placeholder is already active. Then selecting keeps the transcript and the button clears it. |
| ChatSession.FetchChatsSelectsFirstListed | src/components/Home.jsx:295-298 | The initial load activates the first chat the server listed, which is the bottom sidebar entry. |
| ChatSession.DeleteActiveMovesAway | src/components/Home.jsx:386-393 | After deleting the active chat, the deleted id is no longer active. The new active chat is the placeholder or a chat still in the sidebar. |
| ChatSession.LogoutIgnoresServer | src/components/Home.jsx:410-419 | The logout result depends neither on the server's answer nor on the prior state. |
| ChatSession.ChatTitleOfActive | src/components/Home.jsx:535 | With a stored chat active, the header shows the title of the first sidebar chat with that id, or "Welcome!" when that title is empty. |
| ChatSession.BlankSendIsNoop | src/components/Home.jsx:334-335 | Sending all-white-space input changes nothing and sends nothing. |
| SignupForm.RefusalText | src/components/Signup.jsx:53 | The error text is never empty. It is the server's non-empty message, or else the fixed fallback. |
| SignupForm.HandleSignup | src/components/Signup.jsx:29-57 | The typed fields never change. A request is sent exactly when the two passwords are equal. Different passwords give "Passwords do not match!" with no success text and loading untouched. Equal passwords send the registration and end loading. Success shows the success text with no error. Refusal shows the server's or the fallback error with no success text. |
| SignupForm.HintsExclusive | src/components/Signup.jsx:65-66 | The two hints are never both shown. Neither is shown while a field is empty. With both fields filled in, exactly one is shown. |
| SignupForm.HintsPredictSubmit | src/components/Signup.jsx:34-37 | While the mismatch hint shows, a submit sends nothing and reports the mismatch. While the match hint shows, a submit sends the registration. |
| SignupForm.SubmitForgetsEarlierMessages | src/components/Signup.jsx:31-32 | Error and success texts left from an earlier submit never affect the next one. |
| Scenarios.ListView | src/components/Home.jsx:294-296 | The page receives a chat list exactly when the server answered 200 with a list, and it receives that list. |
| Scenarios.CreatedView | src/components/Home.jsx:343-344 | The page receives a chat exactly when the server answered 201 with a chat, and it receives that chat. |
| Scenarios.ReplyView | src/components/Home.jsx:349-352 | The page receives a reply exactly when the server answered 200 with a reply, and it receives that reply. |
| Scenarios.CreateThenPost | gemini-backend/controllers/chatController.js:20-66 | Creating a chat and posting to it appends one chat to the user's list. That chat holds the question and the reply when the relay succeeded, and nothing when it failed. The page sees the new chat, and the reply exactly in the success case. |
| Scenarios.FirstMessageOfNewChat | src/components/Home.jsx:341-354 | The first send from the placeholder creates one server chat with the trimmed text as title and posts to it. On success the page shows exactly the two messages the server stored. On an upstream failure the page shows two messages while the server chat stays empty. |
| Scenarios.LoadShowsStoredChats | src/components/Home.jsx:291-305 | Against the server's GET /chat, a known user's sidebar is their stored list reversed, with the first stored chat active, or the placeholder when there are none. For an unknown user the 404 leaves the page as mounted. |
| Scenarios.EmptyAccountFirstSend | src/components/Home.jsx:297-300 | A user with no chats lands on the placeholder. Their first send leaves one server chat titled with the text. When the completion call succeeds, it holds two messages, the ones the page shows. When it fails, it stays empty while the page shows two messages. |
| Scenarios.ReverseWithoutChat | src/components/Home.jsx:386 | Reversing and removing an id commute. |
| Scenarios.DeleteKeepsSidebarInStep | src/components/Home.jsx:385-387 | After a delete the server accepted, the sidebar is still the server's list in reverse. |
| Scenarios.WithoutDistinctLast | src/components/Home.jsx:386 | Removing the id of the last chat, when no other chat carries it, drops exactly that chat. |
| Scenarios.DeleteBottomActiveSelectsPrevious | src/components/Home.jsx:388-390 | When no other entry shares its id, deleting the active bottom entry selects the entry just above it. |

## Left out

- HTTP, axios, Mongoose and MongoDB are not modelled. The store is an in-memory map. The completion call, every browser request and the generated chat id are parameters.
- Logging (`console.error`, `console.log`) is not modelled. It has no effect on state or answers.
- Timestamps from `new Date()` are not modelled. A message is its sender and text.
- Asynchronous interleaving is not modelled. Each handler is one atomic transition, so a late load that overwrites newer state, and batched `setState`, are left out.
- React rendering is not modelled: JSX layout, animation, icons, the code-block copy button with its timer, sidebar toggles, autoscroll and the dialog markup.
- `renderMessageContent` is not modelled. Its pattern is six literal backticks with no capture groups, so its code path reads an undefined group.
- `chatWithGemini` is not modelled. It is an unimplemented stub.
- The login page, route guards, profile page, router wiring and OAuth buttons are not part of this model. From the auth context, only logout's effect of clearing the token is kept (`ChatSession.SignedOut`).
- ChatController.CreateNewChat: failing store calls are not modelled. A failing `save()` in `createNewChat`, or a failing `findById` in `getChats`, `getChatById` and `addMessageToChat`, rejects the handler, because each of those calls is outside any `try`. Only `deleteChat`, and `addMessageToChat` around its `save()`, catch such failures. Both catches are modelled.
- ChatController.AddMessageToChat: a failing `save()` after a successful completion is folded into the upstream failure. Both give the same 500 answer and the same unchanged store.
- ChatController.AddMessageToChat: only string or missing `message` fields are modelled. Other JSON values (numbers, objects) are left out.
- ChatController.CreateNewChat: a missing `title` field is not modelled. The title is always a string.
- ChatController.DeleteChat: a chat id that the store cannot cast to an object id is not modelled. It would surface through the 500 branch.
- ChatSession.ShortTitle: lengths count Unicode characters, not UTF-16 code units. The two differ only for characters outside the Basic Multilingual Plane.
- ChatSession.LogoutConfirmed: navigation unmounts the chat page. This is modelled as resetting the page state to a fresh, signed-out one on the entry page.
- SignupForm.HandleSignup: the redirect two seconds after success is left out because it is a timer. The browser's `required` check on empty fields is left out because the browser enforces it, not the handler.
- Crashed handler responses are modelled as `Crashed`, with no answer sent. On the client side, `Scenarios.CreatedView` and `Scenarios.ReplyView` treat a crash like any other non-success answer, as a rejected request. Whether and when the browser request actually settles is not modelled.
