# Pixel Chat: session and conversation bookkeeping

Pixel Chat is a single-user chat front end for a hosted completion API. The user types a prompt and
the backend answers in the voice of "Pixel". Every exchange is filed into a local archive of
conversations, and the user can reopen any of them later. This project models the bookkeeping behind
that, all of it in `app.py`:

- the live session: the message list, the archive of conversations and the optional current
  conversation id;
- the five operations that change the session: save, load, "New Chat", "Delete Current" and a
  chat-input submission;
- the pure helpers around them: the persona prompt put in front of the request sent to the backend,
  the sidebar's recent list, each conversation's title, label and user-message count, and the model
  picker's default index.

Layout, one module per file:

- `wrappers.dfy` (`Wrappers`): `Option`.
- `text.dfy` (`Text`): Python's `str.strip()` (its exact whitespace set), the slice `s[:n]`, and the
  "cut and append ..." rule.
- `chat.dfy` (`Chat`): `Message`, the persona prompt, the request list and the "Error:" prefix.
- `archive.dfy` (`Archive`): `Conversation`, the first-match search by id (as a function and as the
  loop the script runs), the delete filter and the recent-10 list.
- `sidebar.dfy` (`Sidebar`): titles, labels, the user-message count and the default model index.
- `session.dfy` (`Session`): each operation as a function on a `SessionState` value, the lemmas
  about those functions, and the class `ChatSession`. The class holds the three fields and updates
  them in place. Each of its methods is proved to reach the corresponding function's result.

The wall clock, the backend and storage are parameters, not modelled code:

- `nowId` is the `YYYYMMDD_HHMMSS` id that `datetime.now()` would give;
- `stamp` is the ISO timestamp;
- `reply` is the backend's answer;
- `hasClient` says whether a backend client is configured;
- the constructor takes the archive read at start-up.

Python truthiness is kept. A current id counts as set only when it is present and not `""`
(`Truthy`). An empty prompt does nothing.

Points of the code's behaviour that the model keeps exactly:

- **Ids are not guaranteed distinct.** The save path never checks that a new id is unused
  (app.py:234-238). A session with no current id is appended without any search, so a clock id
  that is already archived creates a duplicate. Loading then takes the first match and deleting
  removes every match. `SaveCollisionOverwritesOlder` shows what follows: the next save of that
  session overwrites the older conversation. The lemmas that need distinct ids say so in their
  preconditions (`FreshId`, `UniqueIds`).
- **Error replies are saved like any other reply.** A reply starting with "Error:" is only displayed
  differently (app.py:634-635, `shownAsError`). It is then appended as an assistant turn and saved
  (app.py:640-643).
- **Without a client, the prompt is still appended to the session** before the client is checked
  (app.py:611, 616), but nothing is saved.
- The sidebar title is `""` when a conversation has no user message (app.py:413).
  Only the button label substitutes "Empty conversation" (app.py:433).
- "Delete Current" is drawn inside the branch that runs only for a non-empty archive (app.py:406),
  and only when a current id is set (app.py:486).

## Model

| member | source | states |
|---|---|---|
| `Chat.WithPersona` | app.py:182-206 | The request always opens with a system message. The original list follows unchanged. Exactly one message, the persona prompt, is added, and only when the list is empty or does not open with a system message. |
| `Chat.WithPersonaIdempotent` | app.py:199-206 | Injecting into an already injected list changes nothing, so the persona is never sent twice. |
| `Chat.IsErrorReply` | app.py:634 | A reply counts as an error exactly when it is "Error:" followed by some text. |
| `Archive.FirstIndexOf` | app.py:227-232 | The result is the position of the first entry with the id. It is None exactly when no entry has that id. |
| `Archive.FindById` | app.py:244-248 | The search loop that stops at the first match returns exactly `FirstIndexOf`. |
| `Archive.FirstIndexOfAppended` | app.py:236-237 | After appending an entry whose id was not archived, a search for that id finds the new last entry. |
| `Archive.FirstIndexOfReplaced` | app.py:234-235 | Replacing the first match by an entry with the same id leaves it the first match. |
| `Archive.RemoveById` | app.py:489-492 | The delete filter keeps every entry with a different id and drops every entry with the id. |
| `Archive.RemoveByIdConcat` | app.py:489-492 | The filter distributes over concatenation, so kept entries stay in their original order. |
| `Archive.RemoveByIdAbsent` | app.py:489-492 | Removing an id that no entry carries leaves the archive unchanged. |
| `Archive.RemoveByIdSplice` | app.py:489-492 | With distinct ids, removing entry i's id cuts out exactly entry i. |
| `Archive.RemoveByIdKeepsUnique` | app.py:489-492 | The filter never creates duplicate ids. |
| `Archive.Reversed` | app.py:409 | `reversed(s)` has as many entries as s. |
| `Archive.ReversedAt` | app.py:409 | Entry k of `reversed(s)` is entry `len(s)-1-k` of s. |
| `Archive.Recent` | app.py:409 | The sidebar lists min(10, n) conversations. Entry k is the (k+1)-th newest, so the last ten appear newest first. |
| `Text.SkipLeading` | app.py:418 | The leading scan of `strip()` (Python's `str.isspace` set) stops at the first non-whitespace position, and everything it skipped is whitespace. |
| `Text.SkipTrailing` | app.py:418 | The trailing scan stops after the last non-whitespace character, and everything it skipped is whitespace. |
| `Text.Strip` | app.py:418-419 | `strip()` is no longer than its input and has no whitespace at either end. |
| `Text.StripFixesStripped` | app.py:418-419 | `strip()` leaves a string unchanged exactly when it has no whitespace at either end. Stripping twice equals stripping once. |
| `Text.StripIsSlice` | app.py:418-419 | There are cut points i <= j such that `strip()` is the slice `s[i:j]` and everything before i and after j is whitespace. |
| `Text.StripIsUniqueSlice` | app.py:418-419 | Any slice with only whitespace around it and none at its own ends is `strip()`. With `StripIsSlice`, this determines `strip()` completely. |
| `Text.Take` | app.py:418 | `s[:n]` has length min(n, len(s)) and is a prefix of s. |
| `Text.Truncate` | app.py:418-420 | A string within the limit is unchanged. A longer one becomes its first n characters followed by "...". |
| `Sidebar.FirstUserContent` | app.py:416-421 | The result is the content of the first message with role "user". It is None exactly when there is none. |
| `Sidebar.UserMessageCount` | app.py:414 | The count never exceeds the number of messages. It is 0 exactly when no message has role "user", and equals the length exactly when every message has. With `UserMessageCountConcat`, this fixes the count as the number of user messages. |
| `Sidebar.UserMessageCountConcat` | app.py:414 | The count of a concatenation is the sum of the counts. |
| `Sidebar.UserMessageCountPositive` | app.py:413-421 | The count is positive exactly when there is a first user message to take the title from. |
| `Sidebar.SidebarTitle` | app.py:413-421 | The title is "" when there is no user message. It is at most 43 characters and never starts with whitespace. |
| `Sidebar.SidebarTitleCases` | app.py:413-421 | The title is "" with no user message. Otherwise it is the stripped content, cut to 40 characters with "..." appended exactly when the stripped content is longer than 40. It is at most 43 characters. |
| `Sidebar.DisplayTitle` | app.py:433-435 | The label is never empty and is at most 38 characters. A non-empty title of at most 35 characters is shown as is. A longer one shows its first 35 characters followed by "...". |
| `Sidebar.DisplayTitleOfTruncated` | app.py:433-435 | Cutting a 40-cut title again at 35 equals one 35-cut of the original. An empty title becomes "Empty conversation". |
| `Sidebar.DisplayTitleOfSidebarTitle` | app.py:413-436 | The button label is "Empty conversation" when there is no user message or its stripped content is empty. Otherwise it is the stripped first user message cut to 35 characters, with "..." exactly when that message is longer. |
| `Sidebar.IndexOf` | app.py:352 | `list.index` returns the first position that holds the value. |
| `Sidebar.DefaultModelIndex` | app.py:345-354 | The preselected index is always a valid option. It points at the stored model (default "gpt-3.5-turbo") when that model is offered, and is 0 otherwise. |
| `Sidebar.DefaultModelIndexFallsBack` | app.py:345-354 | A missing or unknown stored model preselects "gpt-3.5-turbo". |
| `Session.Saved` | app.py:217-240 | Saving never changes the session's messages. The archive grows by at most one entry. A non-empty session ends up filed under a current id that the archive holds. |
| `Session.Loaded` | app.py:242-248 | Loading never changes the archive and changes nothing when no entry has the id. Otherwise the current id becomes the id and the messages are those of the first entry with it. |
| `Session.Cleared` | app.py:398-400 | "New Chat" keeps the archive, empties the messages and clears the current id. |
| `Session.Deleted` | app.py:486-495 | When not offered, nothing changes. Otherwise the messages are emptied, the current id is cleared and no entry with the old current id remains. |
| `Session.CanDelete` | app.py:406-486 | "Delete Current" is offered only with a non-empty archive and a set current id. In a consistent session, a set current id is enough, so the extra condition of a non-empty archive never hides the button there. |
| `Session.SaveEmptyIsNoop` | app.py:219 | Saving an empty session changes neither the archive nor the current id. |
| `Session.SaveReplacesFirstMatch` | app.py:227-235 | With a set and archived current id, the first entry with that id is replaced in place. The length, every other entry and the current id are unchanged. |
| `Session.SaveAppendsOtherwise` | app.py:221-238 | Otherwise the session is appended after the untouched earlier entries, under the current id if set and else the clock id. That id becomes current. |
| `Session.SaveKeepsConsistent` | app.py:217-240 | Saving preserves "a set current id names an archived conversation". |
| `Session.SaveIdempotent` | app.py:217-240 | Saving twice with the same timestamp equals saving once, provided a new conversation gets an unused id. |
| `Session.SaveThenLoad` | app.py:217-248 | Loading the conversation just saved gives back the same session, provided a new conversation gets an unused id. |
| `Session.SaveKeepsUniqueIds` | app.py:221-238 | Distinct ids stay distinct when a new conversation gets an unused id. |
| `Session.SaveCollisionOverwritesOlder` | app.py:221-248 | With no current id and a clock id that is already archived, saving creates a duplicate id. The next save then overwrites the older entry and leaves the appended one stale. |
| `Session.LoadKeepsConsistent` | app.py:242-248 | Loading preserves the session invariant. |
| `Session.DeleteKeepsConsistent` | app.py:486-495 | Deleting preserves the session invariant. |
| `Session.DeleteRemovesExactlyCurrent` | app.py:486-495 | Delete keeps exactly the entries with other ids, in order. With distinct ids and a consistent session it removes exactly the current entry. |
| `Session.DeleteKeepsUniqueIds` | app.py:489-492 | Deleting keeps ids distinct. |
| `Session.DeleteThenLoad` | app.py:489-495 | After deleting, loading the deleted id changes nothing. |
| `Session.Submitted` | app.py:609-643 | An empty prompt changes nothing. The old messages are always kept as a prefix. Without a client, neither the archive nor the current id changes. |
| `Session.SubmitAppendsTurnPair` | app.py:609-643 | With a client, the messages grow by exactly two: the prompt as a user turn, then the reply as an assistant turn, even an "Error:" reply. The user count rises by one. The session ends up filed under an archived current id. |
| `Session.SubmitPersists` | app.py:626-643 | After a submission with a client, loading the current id gives back the same session, provided a new conversation gets an unused id. |
| `Session.SubmitOnSavedSessionUpdatesInPlace` | app.py:640-643 | A second submission on a filed session keeps the archive's length and the current id. |
| `Session.SubmitFromFreshStart` | app.py:609-643 | The first submission from an empty start files exactly one conversation, holding the prompt and the reply, under the clock id. |
| `Session.SubmitWithoutClient` | app.py:611-618 | Without a client only the user turn is appended. The archive and the current id stay unchanged. |
| `Session.SubmitKeepsConsistent` | app.py:609-643 | Submitting preserves the session invariant. |
| `Session.SavedConversationListedFirst` | app.py:409 | A newly appended conversation heads the sidebar's recent list. |
| `Session.ChatSession.constructor` | app.py:145-154 | Start-up gives an empty session over the stored archive with no current id. |
| `Session.ChatSession.SaveCurrentConversation` | app.py:217-240 | The in-place save, with its search loop, reaches `Saved` and keeps the invariant. |
| `Session.ChatSession.LoadConversation` | app.py:242-248 | The in-place load reaches `Loaded` and keeps the invariant. |
| `Session.ChatSession.NewChat` | app.py:398-400 | The in-place "New Chat" reaches `Cleared`. |
| `Session.ChatSession.DeleteCurrent` | app.py:486-495 | The in-place delete reports whether it was offered and reaches `Deleted`. |
| `Session.ChatSession.Submit` | app.py:609-643 | The in-place submission reaches `Submitted`. It returns the request list (`WithPersona` of the messages up to the prompt) exactly when a request is made, and reports an "Error:" reply as shown in error. |

## Left out

- Rendering, CSS and the injected JavaScript (app.py:19-109, 254-604): presentation only.
- Creating the OpenAI client and calling the network (`get_openai_client`, `client.chat.completions.create`): foreign library and I/O. The reply is an input, and `hasClient` stands for the client's presence.
- Converting exceptions into `"Error: ..."` strings, including the "client not initialized" reply of `get_openai_response`: these depend on foreign exceptions, and `Submit` never reaches the no-client reply because it checks the client first.
- Reading and writing `conversations.json` and `preferences.json`: file I/O. The archive read at start-up is the constructor's argument, and the writes after save and delete are not modelled.
- `datetime.now()`: the clock id and the timestamp are parameters.
- The temperature slider, its Focused/Balanced/Creative label and the preferences writes around it: float values driven by a UI widget. The code does not clamp a stored value; only the slider bounds what the user picks (app.py:371-379).
- The API-key widgets, `st.rerun()` and `load_dotenv`: UI and environment plumbing.
- Stored records are typed. A conversation or message missing a key (the `get(..., default)` fallbacks) is not represented.
- `Sidebar.DefaultModelIndex` takes the stored model as an optional string. A stored value of another JSON type is not represented.
