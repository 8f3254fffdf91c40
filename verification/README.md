# AI chat bot: sessions, transcripts and the chat store

This project models the three cooperating pieces of the AI chat bot web
application in Dafny and proves properties of them:

- the browser's chat controller `AdvancedChatBot` (static/script.js): the
  transcript, the pending-send flag, the current session id and the
  connection state, with sending, history loading, session switching,
  creation, deletion, renaming and the automatic title of a new chat;
- the Flask request handlers (app.py): a visitor's cookie session
  `{user_id?, session_id?}` over the store, the ownership checks, the
  replacement of a deleted current session, the routing between Gemini and
  the backup responder, and the keyword rules of the backup responder;
- the chat store `ChatDatabase` (database.py): users, chat sessions,
  messages and settings, with the history and session-list queries.

Everything is a pure function over immutable values. Whatever comes from
outside is a parameter: the clock (`now: nat`), the Gemini reply
(`Option<string>`), and the outcome of every browser fetch.

| file | module | models |
|---|---|---|
| options.dfy | `Options` | the optional value used throughout |
| text.dfy | `Text` | JavaScript `trim` and `\s` white space, Python `strip` white space, ASCII `lower`, substring test |
| seqs.dfy | `Seqs` | filter (`WHERE`), stable insertion sort (`ORDER BY`), prefix (`LIMIT`), sums |
| store.dfy | `Store` | database.py |
| server.dfy | `Server` | app.py |
| title.dfy | `Title` | the title derivation of static/script.js |
| client.dfy | `Client` | the rest of static/script.js |
| scenarios.dfy | `Scenarios` | properties spanning browser, server and store |

Modelling choices:

- **Row ids.** The default engine is SQLite. A new row's id is one more
  than the largest id, and rows are kept in id order, so the id is the last
  row's id plus one. As in SQLite, deleting the newest session and then
  creating one hands out the same id again (`Scenarios.DeletedIdReused`).
- **Timestamps.** `now: nat` is the clock and ties are possible. The history
  order is claimed only as non-decreasing. Rows with equal timestamps keep
  insertion order, which SQL leaves unspecified.
- **Foreign keys.** SQLite does not enforce them, so a message saved for an
  unknown session is still stored. `Store.NoOrphans` is kept by every
  handler as long as a visitor's current session is not deleted by someone
  else. The chat handler saves to whatever session the cookie names,
  without checking that it exists, so a stale cookie does leave messages
  of no session (`Scenarios.StaleCookieOrphansMessages`).
- **White space.** JavaScript's `trim` and `\s` and Python's `str.strip`
  use different sets of white-space characters. Both sets are modelled:
  - U+001C..U+001F and U+0085 are Python white space only;
  - U+FEFF is JavaScript white space only.

  The scenarios show the consequences (see below).
- **The shared anonymous user.** Every visitor is created as 'Anonymous',
  and usernames are unique. So all visitors share one user and can act on
  each other's sessions. This is reproduced, not fixed
  (`Store.SharedAnonymousUser`, `Scenarios.SharedUserBreaksIsolation`).

## Model

| member | source | states |
|---|---|---|
| Text.JsTrim | static/script.js:232 | the result is the piece of the input left after removing JavaScript white space at both ends; it is empty exactly when the input is all white space, and otherwise starts and ends with a non-space |
| Text.PyStrip | app.py:110 | the same for Python's `str.strip()` white space |
| Store.CreateUser | database.py:88-99 | the returned id belongs to a user with that name; the store changes exactly when the name is new, and then exactly one user with a fresh id is appended; validity is kept |
| Store.SharedAnonymousUser | database.py:88-99 | creating the same username a second time returns the first id and changes nothing |
| Store.CreateChatSession | database.py:101-107 | exactly one session is appended, owned by the given user, with a fresh id and no messages; users, messages and settings are untouched |
| Store.MetadataRoundTrip | database.py:115 | metadata reads back as written, and an absent or empty object reads back as `{}`; only non-empty metadata is stored |
| Store.SaveMessage | database.py:109-123 | exactly one message is appended; `updated_at` of that session, and only that session, is bumped; its message count grows by one and every other count stays; ids and owners stay |
| Store.GetChatHistory | database.py:125-144 | only that session's messages, in non-decreasing timestamp order, at most `limit` of them and exactly `limit` when the session has more; all of them when the limit does not cut; a cut keeps the earliest; in a valid store no row is listed twice |
| Store.GetUserSessions | database.py:146-183 | exactly the user's sessions, as many as the user owns, most recently updated first, each with its message count |
| Store.UserMessageTotal | database.py:146-183 | in a valid store, the message counts of a user's session list add up to the number of stored messages that belong to the user's sessions |
| Store.UpdateSessionName | database.py:185-191 | an existing session gets the new name and `updated_at`; every other session is untouched; an unknown id changes nothing |
| Store.DeleteSession | database.py:193-198 | the session is gone together with all its messages; every other session and message stays; an unknown id changes nothing |
| Store.SaveUserSetting | database.py:201-212 | an upsert: a row is added exactly when the (user, key) pair is new; at most one row per pair is kept |
| Store.SettingRoundTrip | database.py:201-217 | after saving a value, reading that (user, key) returns it |
| Store.SettingFrame | database.py:201-217 | saving one (user, key) leaves the value read for every other pair unchanged |
| Store.GetUserSetting | database.py:214-217 | a missing setting reads as the default |
| Server.Classify | app.py:74-89 | the backup responder's rule is chosen by case-insensitive substring tests in a fixed priority: hello/hi, then "how are you", name, help, bye, and the echo only when none applies |
| Server.GreetingMatchesInsideWords | app.py:78-79 | the tests match substrings, not words: "Is this working?" is answered as a greeting |
| Server.Route | app.py:130-154 | 'Gemini AI' is the label exactly when the service is not 'deepseek' and Gemini gave a non-empty answer, and then the reply is that answer; any other label comes with the backup answer; 'Backup AI (Gemini failed)' is used exactly for a failed 'gemini' request |
| Server.BackupResponse | app.py:74-89 | the first of the hello/hi, 'how are you', name, help and bye tests that the lower-cased message passes picks its fixed reply; the message is echoed back exactly when none applies |
| Server.DeepseekNeverConsultsGemini | app.py:141-144 | a 'deepseek' request does not depend on the Gemini result |
| Server.Index | app.py:91-100 | after the page load the visitor has a user and a current session; existing ones are kept; the cookie stays consistent with the store |
| Server.Chat | app.py:106-158 | a missing body yields the error-handler reply; an empty stripped message yields 400 and changes nothing; otherwise the answer is 200 with the routed reply and label for the stripped message and requested service (default 'auto'), and exactly two messages are appended to the current session, 'user' with the requested service, then 'ai' with the reply and the service the reply names; the cookie stays consistent |
| Server.ChatHistory | app.py:160-175 | without a current session the history is empty; otherwise it is that session's messages in timestamp order, at most `limit` (default 50) and exactly `limit` when the session has more, the ones left out being no earlier than the ones kept, and in a valid store no row twice |
| Server.UserSessions | app.py:177-190 | the listed ids are exactly the visitor's sessions; no user gives an empty list |
| Server.OwnsMeansOwned | app.py:222-224 | the handlers' ownership test through the session list agrees with the session's `user_id` |
| Server.CreateSession | app.py:192-212 | exactly one session is appended, owned by the visitor, carrying the returned id and the requested name (default 'New Chat'), and the existing sessions are unchanged; it holds no messages in a consistent store, and the current session is not changed; a missing body fails with 500 after the user was created |
| Server.SwitchSession | app.py:214-233 | 400 without a user, 404 for a session the user does not own, and nothing changes then; success exactly for an owned id, which becomes current; the current id changes only to an owned id |
| Server.DeleteSession | app.py:235-259 | 400 without a user, 404 for a session not owned, and nothing changes then; on success the session's messages are gone; deleting another session keeps the cookie; deleting the current one makes an empty session current |
| Server.RenameSession | app.py:261-286 | 400 without a user; 500 without a body; 400 for a name that is empty after stripping, before the ownership check; 404 when not owned; on success exactly the sessions with that id get the stripped name and the new update time, and users, settings, messages and every other session are unchanged |
| Server.DatabaseStats | app.py:288-307 | the totals are the table sizes; a visitor without a user has zero sessions and messages; otherwise the session total is the number of sessions the user owns and, in a valid store, the message total is the number of messages in those sessions |
| Store.GetDatabaseStats | database.py:219-224 | the three counts are the table sizes; in a valid store the session count is the number of distinct session ids |
| Server.HealthCheck | app.py:102-104 | always 200, and neither the store nor the cookie changes |
| Server.ClearSession | app.py:309-318 | the cookie is emptied and the store is untouched |
| Server.CurrentSession | app.py:320-335 | the answer names the cookie's session, and its user only when there is a session |
| Title.StripFences | static/script.js:833 | removes characters only; text with at most two backticks is unchanged |
| Title.FencesKeepPlain | static/script.js:833 | text before the first backtick is kept as it is |
| Title.FenceSpanRemoved | static/script.js:833 | a fenced block whose body has no backtick is removed, fences included |
| Title.StripInline | static/script.js:834 | removes characters only and leaves at most one backtick; text with at most one backtick is unchanged |
| Title.InlineKeepsPlain | static/script.js:834 | text before the first backtick is kept as it is |
| Title.InlineSpanRemoved | static/script.js:834 | an inline span whose body has no backtick is removed, backticks included |
| Title.CollapseIsCollapsed | static/script.js:835 | after collapsing, the only white space is a single plain space between non-spaces |
| Title.CollapseKeepsVisible | static/script.js:835 | collapsing keeps every visible character, in order |
| Title.CollapseFixes | static/script.js:835 | text that is already collapsed is unchanged |
| Title.CleanText | static/script.js:832-836 | the cleaned text has at most one backtick, no white space but single spaces, and none at either end |
| Title.CleanTextKeepsVisible | static/script.js:832-836 | the non-space characters left once code is removed all survive, in order, and no other non-space character appears |
| Title.CleanTextEmpty | static/script.js:832-837 | the cleaned text is empty exactly when only white space is left once code is removed |
| Title.CleanTextIdempotent | static/script.js:832-836 | cleaning a cleaned text changes nothing |
| Title.Shorten | static/script.js:838-839 | a text of at most 40 characters is the title itself; a longer one is cut to its first 40 characters plus '…' |
| Title.AutoRename | static/script.js:828-846 | a rename is requested exactly when there is a non-zero current session id and the cleaned text is non-empty; it names that session and the shortened cleaned text, which is 1 to 41 characters long |
| Title.LongTextIsCut | static/script.js:838-839 | a first message of 41 letters gets a title of its first 40 and '…' |
| Title.CodeOnlyGivesNoTitle | static/script.js:834-837 | a message that is only inline code gets no title |
| Client.UpdateActivity | static/script.js:612-617 | activity records the time and leaves the page online; nothing else changes |
| Client.ProbeHealth | static/script.js:634-644 | one health probe leaves the page online exactly when it was answered 2xx |
| Client.RequestedService | static/script.js:261 | the selection when it is non-empty, otherwise 'auto' |
| Client.BeginSend | static/script.js:231-248 | a send is refused exactly when the trimmed input is empty or a reply is pending; otherwise the trimmed message is appended as the user's entry, the pending flag is raised exactly when the typing indicator exists, and an auto-rename is requested only for the first entry of the transcript |
| Client.ReplyEntry | static/script.js:271-286 | the bot entry is the server's reply tagged with its service on 2xx, and the error text tagged 'error' otherwise |
| Client.SettleSend | static/script.js:265-290 | exactly one bot entry is appended; the pending flag is lowered; a failure marks the page offline |
| Client.Send | static/script.js:231-290 | an accepted send adds exactly the user's entry and then one bot entry, leaves no send pending and the page offline exactly when the request failed; a send is refused exactly when the send button is disabled |
| Client.SendButtonMatchesGuard | static/script.js:399-404 | the send button is disabled exactly when a send would be refused |
| Client.PendingSendBlocks | static/script.js:231-248 | with the typing indicator present, a pending send refuses every other send |
| Client.NoIndicatorAllowsDoubleSend | static/script.js:366-372 | without the typing indicator two messages go out before the first is answered |
| Client.DisplayName | static/script.js:567-575 | 'gemini', 'deepseek', 'auto' and 'error' are shown as 'Gemini AI', 'Free Backup AI', 'Auto Select' and 'Error'; every other name is shown as it is |
| Client.DisplayNameSettles | static/script.js:567-575 | a shown label is shown as itself again |
| Client.ServiceTag | static/script.js:306-310 | only bot bubbles with a non-empty service carry a tag |
| Client.Render | static/script.js:746-760 | one bubble per loaded row, in order, without a service tag; 'user' rows show as the user and all others as the bot |
| Client.LoadHistory | static/script.js:718-738 | on 2xx the transcript is replaced by exactly the server's rows, which are rendered; otherwise the transcript is kept |
| Client.RefreshCurrentSession | static/script.js:775-787 | a 2xx answer sets the current id to the server's; otherwise nothing changes |
| Client.SwitchSession | static/script.js:853-880 | on 2xx the switched-to id becomes current unless the refresh says otherwise, the history is reloaded and the welcome is shown exactly for an empty transcript; otherwise nothing changes |
| Client.NewSessionName | static/script.js:804-807 | the given name when it is non-empty, otherwise 'New Chat' |
| Client.CreateNewSession | static/script.js:804-826 | on 2xx the created session is switched to; otherwise nothing changes |
| Client.DeleteSession | static/script.js:882-901 | nothing changes unless the user confirms and the server answers 2xx; then the current id is refreshed and the history reloaded |
| Client.RenameSession | static/script.js:903-919 | the transcript never changes; a 2xx answer refreshes the current id |
| Client.RenameDecision | static/script.js:983-991 | a rename is sent exactly when the trimmed name is non-empty and differs from the original, and it is the trimmed name |
| Scenarios.SendRoundTrip | static/script.js:254-276 | a send the server accepts ends with a bot entry showing exactly the stored answer and the service stored with it |
| Scenarios.ServerLabelsShownAsIs | static/script.js:567-575 | the browser shows the server's service labels unchanged |
| Scenarios.RoutedLabelsShownAsIs | app.py:130-154 | whatever service a chat is routed to, the browser shows its label unchanged |
| Scenarios.NewSessionRoundTrip | static/script.js:804-826 | a session created from the browser is listed for the visitor, switching to it succeeds, its history is empty, and the browser ends up on it showing the welcome message |
| Scenarios.DeleteCurrentThenReload | app.py:249-253 | after the current session is deleted the reloaded history, and the transcript, are empty |
| Scenarios.SharedUserBreaksIsolation | app.py:93-98 | a second visitor shares the first visitor's user, may delete the first visitor's current session, and leaves the first visitor's cookie naming a session that no longer exists |
| Scenarios.StaleCookieOrphansMessages | app.py:120-127 | a chat whose cookie names a session that no longer exists is saved anyway, leaving messages that belong to no session |
| Scenarios.DeletedIdReused | app.py:249-253 | deleting the newest session while it is current makes a replacement session with the same id current |
| Scenarios.SeparatorMessageLooksLikeOutage | app.py:110-114 | a message of U+001C passes the browser's check, is refused by the server with 400, and leaves the browser showing the send error and offline |
| Scenarios.ByteOrderMarkRefused | static/script.js:232-233 | the browser refuses a message of U+FEFF that the server would accept |
| Scenarios.SeparatorRenameRefused | app.py:269-272 | an inline rename to U+001C passes the browser's check and is refused by the server |

## Left out

- Presentation: DOM updates, `formatMessage`, `escapeHtml`, notifications,
  sounds, particles, resize handling and character-count colours.
- `newChat` and `clearChat` (the Ctrl+N and Ctrl+K shortcuts): these
  transitions are not modelled. They empty the local transcript but keep
  the current session id, so the next send would auto-rename a server
  session that already holds messages.
- `formatDate`, `getCurrentTime`, `generateChatId` and `generateMessageId`:
  clock, float and random values. Local entries carry no id or timestamp.
- The localStorage fallback of `loadChatHistory` and the backup in
  `saveChatHistory`, and the theme and settings storage. When a history
  fetch fails, the model leaves the transcript as it was.
- The 30-second health interval. Only the effect of one probe is modelled
  (`Client.ProbeHealth`).
- `get_gemini_response`: an outbound HTTP call, passed in as `Option<string>`.
- Flask, CORS and cookie signing, the security headers, the secret-key
  check, the SQLAlchemy engine and the JSON encoding of metadata.
- Interleaving of overlapping asynchronous browser operations. Each is
  atomic and its outcome is a parameter.
- The launchers server_manager.py, start_server.py and api/index.py.
- Other database engines. A PostgreSQL sequence would not reuse a deleted
  id.
- Non-ASCII case mapping. `Text.Lower` maps ASCII letters only.
- String lengths in UTF-16 units. JavaScript's `slice(0, 40)` counts UTF-16
  units; the model counts characters.
- JSON `null` and non-string values in request bodies. A field is either a
  string or absent.
- The unreachable `else 1` of `create_user`: the name that caused the
  integrity error always exists.
- The user-table cascade: users are never deleted.
- Client.Render: the ids and timestamps of the rendered bubbles are not
  modelled.
- Client.DisplayName: the browser looks the name up in a plain object, so
  a name such as "toString", "constructor" or "__proto__" would show the
  inherited member instead of itself; the model shows every unknown name
  as it is. The server only ever sends its own labels.
