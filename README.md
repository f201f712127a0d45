# Chat client conversation store and relay, modelled in Dafny

This project models the two pieces of logic in a small browser chat client for
a generative-AI service.

**The conversation store** (script.js) is an in-memory table that maps a
conversation id to a record `{messages, isPinned}`. It also has an active id,
`currentChatId`. On load, a stored value in the legacy shape (a bare message
array) is migrated to a record. The history list shows pinned conversations
first, and within each pin group the ids descend. The handlers are:
- `loadChat`
- `startNewChat`
- `handlePinToggle`
- `handleDeleteChat`, which hands the active selection on when the active chat is deleted
- `sendMessage`

They change the table in place. Some of them write the whole table to storage.

**The relay** (api/proxy.js) is a serverless handler. It checks the method, the
configured key and project id, and the request's `type`, `history` and `prompt`,
in a fixed order. It then calls either the text-generation or the
image-generation upstream, and turns the answer into `{response, type}` or
`{error}`.

Files:
- `wrappers.dfy` — `Option` and `Result`.
- `js_string.dfy` — three JavaScript string operations:
  - `trim`;
  - the string order used for `localeCompare`;
  - decimal rendering of `Date.now()` in the chat id.
- `conversations.dfy` — the stored values and the migration loop, plus:
  - the listing comparator and the sorted listing;
  - a proof that the sorted listing is unique;
  - the history title rule.
- `chat_store.dfy` — class `Store`: the table, the key order (insertion order,
  as `Object.keys` gives it), the active id and the last saved snapshot. The
  handlers are its methods.
- `relay.dfy` — the handler as a pure function. It takes the request, the
  environment and how each upstream call ends. The same guard order is also
  stated a second way, as a list of guards.

What the model takes as parameters:
- The clock: `now`, from which the id `chat_<now>` is built.
- The confirmation dialog: `confirmed`.
- The user's typed text: `input`.
- The relay's answer: `reply`, where `None` means the request failed.
- The upstream results: values of `Upstream<T>`.

Storage is the field `saved`. `Store.Load` receives the already decoded table.

The model follows the code in some behaviours that are easy to misread:
- Deleting the active chat does not select the first chat in listing order.
  The code loads `Object.keys(conversations)[0]`, the first remaining key in
  insertion order (`Store.DeleteChat`).
- Store operations on absent ids do not report an error. They silently do
  nothing (`LoadChat`, `TogglePin`, `DeleteChat`).
- Only a missing storage value falls back to `{}`. Unparsable JSON throws.
- A missing image payload is not an error. The relay answers 200 with
  `response` undefined (`Relay.HandleImage` returns `Success(None)`).
- `startNewChat` does not save. Neither does a failed send: the user message
  stays in memory, unsaved.
- The 405 reply's body is `{message}`, not `{error}`.

Two JavaScript behaviours are modelled explicitly:
- The empty id counts as "no active chat" in `sendMessage`, because `""` is falsy.
- `startNewChat` on an id that already exists overwrites that record in place.

## Model

| member | source | states |
|---|---|---|
| `Conversations.MigrateAll` | script.js:22-30 | the in-place loop over the keys leaves, under every key, a legacy array wrapped as `{messages, isPinned: false}` and a record unchanged, with the key set kept |
| `Conversations.MigratedEntries` | script.js:22-30 | migration keeps the key set, wraps legacy arrays as unpinned records and leaves records untouched |
| `Conversations.SaveThenLoad` | script.js:35-37 | loading what saving wrote gives back exactly the saved table |
| `Conversations.LoadSaveLoad` | script.js:17-37 | load, save, load: the second load equals the first (no double wrapping) |
| `Conversations.MigrationIdempotent` | script.js:22-30 | on the storage shape, migrating twice equals migrating once |
| `Conversations.CompareStrings` | script.js:64 | the string comparison is 0 exactly for equal strings and negative exactly when the first sorts before the second |
| `Conversations.CompareMeaning` | script.js:59-65 | negative exactly when the first id is pinned and the second not, or the pins agree and the second id sorts before the first; 0 exactly for the same pin and the same id |
| `Conversations.CompareConsistent` | script.js:59-65 | the comparator is consistent: 0 only for the same id, antisymmetric in sign, and transitive |
| `Conversations.Insert` | script.js:59-65 | inserting into an ordered listing adds exactly that id and keeps the listing ordered |
| `Conversations.Listing` | script.js:59-65 | the listing is a permutation of the ids and, for distinct ids, ordered by the comparator |
| `Conversations.OrderedMeansPinnedFirstThenDescending` | script.js:59-65 | in the listing every pinned id comes before every unpinned one, and same-pin ids are in descending order |
| `Conversations.OrderedUnique` | script.js:203-209 | two ordered arrangements of the same ids are equal, so any correct sort gives `Listing` |
| `Conversations.ListingHead` | script.js:203-210 | the first listed id is one of the ids and precedes every other id |
| `Conversations.FirstUserText` | script.js:69 | absent exactly when no message has role 'user'; otherwise the text of the first user message |
| `Conversations.Title` | script.js:69-79 | the title is 'New Chat' or the text of some user message, and whenever a user message exists it is the text of one |
| `Conversations.TitleRule` | script.js:79 | the title is 'New Chat' without a user message, otherwise the first user message's text |
| `JsString.TrimStart` | script.js:141 | removes exactly the leading whitespace: a suffix of the input, all dropped characters whitespace, no whitespace left in front |
| `JsString.TrimEnd` | script.js:141 | removes exactly the trailing whitespace: a prefix of the input, all dropped characters whitespace, no whitespace left at the end |
| `JsString.TrimIsSlice` | script.js:141 | the trimmed text is the contiguous slice of the input that starts after the leading whitespace, and everything cut before it is whitespace |
| `JsString.TrimCutsTrailing` | script.js:141 | everything cut after that slice is whitespace too |
| `JsString.TrimEdges` | script.js:141 | the trimmed text, when non-empty, neither starts nor ends with whitespace |
| `JsString.TrimEmptyIff` | script.js:141-142 | the trimmed input is empty exactly when the input is all whitespace |
| `JsString.LessIrreflexive` | script.js:64 | no string sorts before itself |
| `JsString.LessTransitive` | script.js:64 | the string order is transitive |
| `JsString.LessTotal` | script.js:64 | of two different strings one sorts before the other |
| `JsString.Decimal` | script.js:107 | the rendering of a number is a non-empty string of decimal digits, without a leading zero except for 0 |
| `JsString.DecimalValue` | script.js:107 | the digit string a number renders as denotes that number in decimal |
| `JsString.DecimalInjective` | script.js:107 | different numbers render as different digit strings |
| `ChatStore.ChatId` | script.js:107 | a new chat id is 'chat_' followed by the clock's digits |
| `ChatStore.ChatIdInjective` | script.js:107 | different clock readings give different chat ids |
| `ChatStore.KeysWithout` | script.js:124-129 | after `delete`, the key order holds exactly the other keys, each once; its first key is the first key of the old order other than the deleted one |
| `ChatStore.KeysWithoutKeepsOrder` | script.js:124 | any two keys left after `delete` appear in the same relative order as before |
| `ChatStore.TogglePinned` | script.js:116 | a toggle flips only that entry's pin; its messages and every other entry are unchanged, and an absent id changes nothing |
| `ChatStore.TogglePinTwice` | script.js:114-119 | toggling the same id twice restores the table |
| `ChatStore.Appended` | script.js:149 | a push appends one message to the end of that conversation and changes nothing else |
| `ChatStore.Exchanged` | script.js:144-172 | one whole send adds the new id to the key set when a chat is started, grows that conversation by the user message and then, on success, the reply, in that order, keeps its pin (a started chat is unpinned) and changes no other conversation |
| `ChatStore.HistoryOf` | script.js:59-79 | one row per id in listing order, with that conversation's title and pin, marked active exactly when its id is the active id |
| `ChatStore.HistoryRows` | script.js:67-75 | every conversation has a row, and when the active id names one, exactly one row is active |
| `ChatStore.Store.History` | script.js:57-96 | the history list has one row per conversation and covers every conversation; rows are in listing order (pinned first, then descending id); each row carries its conversation's title and pin, and is active exactly when its id is the active id |
| `ChatStore.Store.Load` | script.js:17-30 | start-up holds the migrated table in the stored key order, no active chat, and storage unchanged |
| `ChatStore.Store.Save` | script.js:35-37 | storage afterwards holds the whole table, in key order, in the record shape |
| `ChatStore.Store.LoadChat` | script.js:98-104 | an absent id changes nothing; a present id becomes active and the chat window is emptied once; nothing else changes |
| `ChatStore.Store.StartNewChat` | script.js:106-111 | an empty, unpinned record is stored under the new id, appended to the key order if new, and made active; the chat window is emptied twice; storage is untouched |
| `ChatStore.Store.TogglePin` | script.js:114-119 | an absent id changes nothing; a present one has only its pin flipped, and the table is saved |
| `ChatStore.Store.DeleteChat` | script.js:121-137 | an absent id or a declined confirmation changes nothing. Otherwise exactly that key is removed and the table saved. Deleting the active chat makes the first remaining key active, or starts a fresh chat when none remains, emptying the chat window as those handlers do. Deleting another chat keeps the active id and the window |
| `ChatStore.Store.EnsureLiveChat` | script.js:144-146 | a live active chat is kept with nothing changed; otherwise a new chat is started and made active, with its table, key order, active id and window-clear count as `startNewChat` leaves them |
| `ChatStore.Store.Push` | script.js:149 | the active chat grows by the one message and the store stays consistent |
| `ChatStore.Store.BeginSend` | script.js:141-158 | whitespace-only input changes nothing. Otherwise a chat is started if none is live, and the table becomes `Exchanged` with no reply: the trimmed text is the active chat's last message, with role 'user'. The returned history is that chat's messages, and the returned indicator is the window-clear count once the chat is ensured |
| `ChatStore.Store.CompleteSend` | script.js:159-178 | when the chat window was emptied after the typing indicator was shown, `removeChild` throws and nothing changes; so does a failed request. Otherwise the reply is appended as a 'model' message to the active chat and the table saved. Every handler that changes the active chat empties the window, so this is the chat the send began in |
| `ChatStore.Store.SendMessage` | script.js:140-179 | whitespace-only input changes nothing. Otherwise the key order gains the new id only when a fresh chat is started under an unused id, and the table becomes `Exchanged`: the active chat's messages grow by the user message and then, on success, the reply, in that order, and other conversations are unchanged. The table is saved only on success |
| `ChatStore.Store.Initialize` | script.js:201-213 | with stored chats, the first id in listing order becomes active (it precedes every other id) and the window is emptied once; with none, a new chat is started |
| `Relay.CandidateText` | api/proxy.js:20 | present exactly when the optional chain `candidates?.[0]?.content?.parts?.[0]` reaches a part, and then that part's text |
| `Relay.ChatReplyText` | api/proxy.js:20 | the first candidate's first part text when it is non-empty, else the fixed fallback; never empty |
| `Relay.HandleChat` | api/proxy.js:4-21 | succeeds exactly on an ok upstream, with the reply text the response data yields, never empty; a non-ok status becomes 'Chat API Error: ' plus the body text, and a thrown error keeps its own message |
| `Relay.HandleImage` | api/proxy.js:24-67 | succeeds exactly on an ok upstream with non-empty predictions, returning the first one's payload. A non-ok status becomes 'Image API Error: ' plus the body text. Missing or empty predictions become 'API returned no predictions.' A thrown error keeps its own message |
| `Relay.Dispatch` | api/proxy.js:82-101 | after the guards: 200 with the branch's `type` on success, otherwise 500 with `{error}` |
| `Relay.Handle` | api/proxy.js:71-102 | the status is one of 200, 400, 405, 500. It is 405 exactly for non-POST, with the body 'Method Not Allowed'. 400 and 500 carry `{error}`. On 200 the body's `type` is the branch taken |
| `Relay.FirstFailing` | api/proxy.js:72-91 | finds the first failing guard's reply, or none exactly when every guard passes |
| `Relay.HandleFollowsGuardOrder` | api/proxy.js:72-91 | the handler answers with the first failing guard, in the order method, key, project id, prompt, history, and otherwise calls upstream |
| `Relay.NonPostIsRejected` | api/proxy.js:72-74 | any method but POST gives 405, whatever the body, configuration or upstream |
| `Relay.MissingKeyComesFirst` | api/proxy.js:76-80 | a POST without an API key gives 500 'API key not configured.' for every `type`, `history` and `prompt` |
| `Relay.ImageChecksProjectThenPrompt` | api/proxy.js:84-86 | for an image request, a missing project id gives 500 whatever the prompt; with a project id, a missing prompt gives 400 'Image prompt is missing.' |
| `Relay.NonImageKindsAreChat` | api/proxy.js:84-91 | every `type` other than 'image', absent included, gets the same answer, and a missing history there gives 400 'Chat history is missing.' |
| `Relay.UpstreamFailureIs500` | api/proxy.js:97-100 | once the guards pass, a failing helper becomes 500 with its error message |
| `Relay.SuccessExactly` | api/proxy.js:88-95 | 200 exactly when every guard passes and the branch's helper succeeds, and the response is that helper's result |
| `Relay.ChatSuccessHasText` | api/proxy.js:93 | a successful chat answer always carries a non-empty response text |

## Left out

- DOM work is not modelled: `addMessage`, `showTypingIndicator`, the
  `innerHTML` of the history list, the SVG icons and the event wiring. The rows
  `displayHistory` renders appear only as `HistoryItem` values.
- `localStorage` and `JSON.parse`/`JSON.stringify` are not modelled. `Store.Load`
  starts from a decoded table, and `saved` stands for what storage holds. The
  exception unparsable JSON throws is not represented.
- `fetch`, `node-fetch`, the dynamic `import` and `await` are network I/O. Their
  outcomes are inputs: `reply` on the client, `Upstream<T>` on the relay.
- Interleaving at the client's `await` is modelled by splitting `sendMessage`
  into `BeginSend` and `CompleteSend`, between which other handlers may run.
  The typing indicator is tracked only by the count of times the chat window
  was emptied (`windowClears`): a handler that empties it makes `CompleteSend`
  a no-op, as the throwing `removeChild` does. `SendMessage` covers the case
  where nothing runs in between. `CompleteSend` treats every handler that ran
  during the send as having run before `fetch` resolved. One that runs while
  the body is read (the second `await`, after `removeChild`) would let the
  reply go to the chat active at that point; that case is not modelled.
- The first, discarded image request (api/proxy.js:29-40) is left out; its
  result is never used. A rejection of it would also become a 500.
- The credential's place in the URL or a header is upstream configuration, and
  is left out.
- `process.env` reads are the `Env` input. A request whose `body` is undefined
  is left out: the destructuring at api/proxy.js:78 would throw outside the
  `try`.
- `console.log` and `console.error` are left out.
- CompareStrings: models `localeCompare` as plain code-point order, without
  locale collation.
- Object.keys order is modelled as insertion order. Ids that look like array
  indices, which JavaScript lists first, are left out; so are names inherited
  from `Object.prototype`. Chat ids always start with `chat_`.
- Message parts beyond the first are left out, and so is content type: the
  client reads and writes only `parts[0].text`. A non-boolean `isPinned` or
  `type` value is left out too.
- The client's error message `addMessage('ai', …)` is left out. It is only
  displayed, never stored.
