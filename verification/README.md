# Tattoo-studio booking chat: a Dafny model of the chat turn

The server answers a visitor's chat message in one `/chat` request. It keeps a
`sessionData` map from session id to an entry holding a JSON "memory" string
and a conversation array. It pushes the user turn and rolls the conversation
down to its last four messages. It sends a system prompt, which carries the
memory, followed by that conversation to a chat-completion API, and pushes the
raw reply. It then looks in the reply for a hidden block
`#DATA: {…} #ENDDATA [#FORWARD_TELEGRAM#]`. The block's brace body becomes
the new memory, and the whole block is cut out of the visible text. Finally,
if the text still holds `#FORWARD_TELEGRAM#`, the server removes that marker,
renders the memory into a "Booking Summary" message, relays it to a Telegram
chat, and answers with the cleaned text.

A second, small piece is also modelled: `getArtistsData` turns the rows of a
Google Sheets range into artist records.

The model has seven modules, one per file:

- `wrappers.dfy`: `Option`.
- `strings.dfy` (`Strings`): the JavaScript string operations the handler
  uses.
  - The whitespace class shared by the regular-expression escape `\s` and
    `trim`.
  - `trim`, `indexOf` and `includes`.
  - `replace` with a string pattern, which removes only the first occurrence.
- `data_block.dfy` (`DataBlock`): the regular expression
  `/#DATA:\s*({[\s\S]*?})\s*#ENDDATA\s*(#FORWARD_TELEGRAM#)?/m`.
  - An explicit scanner (`MatchAt`, `FindMatch`, `Exec`).
  - Independently, a declarative predicate `IsMatch` that says what a match is
    under JavaScript's rules: greedy `\s*`, lazy `[\s\S]*?`, greedy optional
    group.
  - Lemmas proving that the scanner returns exactly the leftmost match.
  - Step 9 of the handler (`ExtractData`).
- `prompt.dfy` (`Prompt`): `buildSystemPrompt`, the message list sent to the
  completion API, and the rolling window.
- `handoff.dfy` (`Handoff`): the summary template and steps 10-11
  (`Forward`).
- `chat_server.dfy` (`ChatServer`): the handler in its imperative form.
  - A `Session` class (the memory and conversation fields the handler updates
    in place).
  - A `SessionStore` class (the `sessionData` map) whose `Chat` method is the
    request handler.
  - Its pure counterpart `Respond`, which `Chat` is proved against.
- `sheets.dfy` (`Sheets`): the row-to-artist conversion.

Three foreign calls are parameters of the handler:
- the completion API: `complete: seq<Message> -> Option<string>`, where None
  means the call threw;
- `JSON.parse`: `parseJson: string -> Option<Booking>`, where None means it
  threw;
- the Telegram send: `send: string -> bool`, where false means it was
  rejected.

The session cookie and the freshly minted id are inputs. The instruction text
`baseSystemPrompt` is an opaque constant, the `instructions` field of the
store.

The model follows the code as written, including these behaviours, which a
reader of the handler's comments might not expect:
- When a `#DATA` block matches, the memory becomes the captured body without
  any JSON check. The `try` around the assignment at app.js:530-534 cannot
  fail.
- Step 9 trims the reply only when a block matches. A reply without a block is
  trimmed only if step 10 then finds the marker in it; otherwise it is
  returned untrimmed.
- A new session starts with the default JSON memory, not an empty one.
- A failed completion leaves the pushed user turn in the conversation.
- Only the first `#FORWARD_TELEGRAM#` is removed, so a second one reaches the
  visitor (`Handoff.SecondMarkerLeaks`).
- Cutting the `#DATA` block out can join the text on its two sides into a new
  marker, for example `#FORWARD_` before the block and `TELEGRAM#` after it.
  Step 10 then sees a marker that the reply never held outside the block, so
  `TrailingMarkerConsumed` requires the block to end the reply and no marker
  before it.

## Model

| member | source | states |
|---|---|---|
| `Prompt.ShownMemory` | app.js:454 | an empty memory is shown as the default JSON, any other memory as itself, and what is shown is never empty |
| `Prompt.BuildSystemPrompt` | app.js:452-461 | the system prompt is a newline, the instructions, the memory heading, the memory as shown and a newline: the instructions and the shown memory read back out of it unchanged, so an empty memory reads back as the default |
| `Prompt.AssemblePrompt` | app.js:498-504 | the message list has one more entry than the conversation; its first entry is a system message, the only one when the conversation holds no system turn, and carries the memory from before the turn; the conversation follows unchanged |
| `Prompt.Window` | app.js:492-495 | the rolling window keeps min(4, n) of n turns, and they are the last ones, in arrival order |
| `Prompt.WindowPush` | app.js:490-495 | windowing after every push gives the same conversation as windowing the whole history once, so the stored conversation is always the last min(4, n) of the n turns pushed |
| `Strings.IsSpace` | app.js:526-536 | the characters `\s` matches and `trim` strips: ECMAScript's WhiteSpace and LineTerminator characters |
| `Strings.SkipSpace` | app.js:526 | a greedy `\s*` stops at the end of the string or at a non-whitespace character |
| `Strings.SkipSpaceUnique` | app.js:526 | a maximal whitespace run has only one end, so `\s*` can end nowhere else |
| `Strings.TrimBoundsSpace` | app.js:536 | `trim` removes only whitespace, from both ends, and yields nothing only for an all-whitespace string |
| `Strings.Trim` | app.js:536 | `trim` never lengthens a string, and what it keeps starts and ends with non-whitespace (`TrimBoundsSpace` states that everything cut is whitespace at the two ends) |
| `Strings.IndexOfFromFirst` | app.js:540 | `indexOf` from a position finds the first occurrence at or after it, and -1 means there is none |
| `Strings.IndexOf` | app.js:540 | `indexOf` returns a position where the pattern occurs with no occurrence before it, and -1 only when the pattern occurs nowhere |
| `Strings.IndexOfAt` | app.js:540 | the first position where the pattern occurs is what `indexOf` returns |
| `Strings.ContainsAt` | app.js:540 | `includes` is true whenever the pattern occurs at some position, and `indexOf` is at most that position |
| `Strings.Contains` | app.js:540 | `includes` is `indexOf` finding an occurrence (`ContainsAt` and `NotContains` state both directions of "occurs somewhere") |
| `Strings.NotContains` | app.js:540 | `includes` is false when the pattern occurs nowhere (with `ContainsAt`, both directions of "occurs somewhere") |
| `Strings.RemoveFirst` | app.js:541 | `replace` with a string leaves the text alone when the pattern does not occur, and otherwise shortens it by exactly the pattern's length |
| `Strings.RemoveFirstSpec` | app.js:541 | `replace` with a string cuts out exactly the first occurrence: the text before it followed by the text after it |
| `Strings.RemoveFirstKeepsLater` | app.js:541 | a second, separate occurrence of the pattern survives `replace` |
| `Strings.TrimKeeps` | app.js:541 | `trim` never removes an occurrence of a pattern that starts and ends with non-whitespace |
| `Strings.TrimOfPadded` | app.js:536 | trimming a string whose tail is whitespace keeps only text from before that tail |
| `DataBlock.IsMatch` | app.js:526 | what a match of the pattern at a position is under JavaScript's rules: `#DATA:`, a greedy `\s*`, a brace body closed by the first `}` that `\s*#ENDDATA` can follow, a greedy `\s*`, and the marker whenever it is there (`MatchAtSound`, `MatchAtComplete` and `ExecLeftmost` tie the scanner to it) |
| `DataBlock.FindClose` | app.js:526 | the lazy `[\s\S]*?` body, tried from a position, ends at or after it and inside the reply |
| `DataBlock.FindCloseCloses` | app.js:526 | the body found ends at a `}` that `\s*#ENDDATA` can follow |
| `DataBlock.FindCloseSkips` | app.js:526 | that `}` is the first such one, and when none is found there is none at all |
| `DataBlock.MatchAt` | app.js:526 | a match tried at one position starts there, with its parts in order between a `{` and a `}` |
| `DataBlock.FindMatch` | app.js:527 | the search for a match starts at or after its starting point |
| `DataBlock.MatchAtSound` | app.js:526-527 | whatever the scanner finds is a match of the regular expression |
| `DataBlock.MatchAtComplete` | app.js:526-527 | every match of the regular expression is exactly what the scanner finds at its position |
| `DataBlock.MatchUnique` | app.js:526 | greedy and lazy quantifiers leave at most one match per starting position |
| `DataBlock.FindMatchReaches` | app.js:527 | the search reaches every position from its start on where the pattern matches |
| `DataBlock.Exec` | app.js:527 | what `exec` returns is laid out like the pattern inside the reply: room for `#DATA:` before the body's `{`, the body's `}` before room for `#ENDDATA` (`ExecSound` and `ExecLeftmost` state it is the leftmost match) |
| `DataBlock.ExecLeftmost` | app.js:527 | `exec` finds a match whenever there is one, and no match starts before the one it returns |
| `DataBlock.ExecSound` | app.js:527 | what `exec` returns is a match of the regular expression |
| `DataBlock.Body` | app.js:529 | group 1 starts with `{` and ends with `}` |
| `DataBlock.Excise` | app.js:536 | removing the match shortens the reply |
| `DataBlock.ExtractWith` | app.js:527-537 | with no match, memory and reply are unchanged and the reply is not trimmed; with a match, the memory is a brace body and the text is trimmed and shorter than the reply |
| `DataBlock.ExtractData` | app.js:527-537 | step 9 leaves the reply and the memory untouched exactly when `exec` finds no match |
| `DataBlock.ExtractedMemoryIsLeftmostBody` | app.js:526-537 | the new memory is exactly the body of the leftmost `#DATA` block, and the text is the reply without that block, trimmed |
| `DataBlock.TrailingMarkerConsumed` | app.js:526-540 | a marker that follows `#ENDDATA` after only whitespace is cut out with the block; when the block ends the reply (only whitespace after it) and no marker comes before it, the text has none afterwards |
| `Handoff.OrElse` | app.js:546-553 | `v \|\| fallback` shows the fallback for a falsy value and a truthy value's own text otherwise, even when that text is empty |
| `Handoff.SummaryLines` | app.js:544-554 | the template has 11 lines, the first and the last empty; when no field holds a newline, no line does |
| `Handoff.HeadingsOneLine` | app.js:545-553 | the heading and every label of the template are single lines |
| `Handoff.Summary` | app.js:544-554 | the summary text is the template lines joined by newlines (`SummaryReadsBack` and `FalsyFieldsRendering` state what it reads as) |
| `Handoff.SplitJoin` | app.js:544-554 | splitting the summary into lines undoes the multi-line template, as long as no field holds a newline |
| `Handoff.SummaryReadsBack` | app.js:544-554 | when no field holds a newline, the summary read line by line is exactly the template lines: the heading followed by one labelled line per field, in the fixed order, 11 lines with the leading and trailing empty ones |
| `Handoff.FalsyFieldsRendering` | app.js:546-553 | a field leaves its label with nothing after it exactly when it is falsy or truthy with empty text; the date line says "(not specified)" exactly when the date is falsy or is that very text, and is left bare only by a truthy date with empty text such as `[]` |
| `Handoff.Forward` | app.js:540-563 | without the marker the text is returned untouched and nothing is sent; with it, the text has the first marker removed and is trimmed; a summary is built exactly when the memory parses, and it is delivered exactly when the send succeeds |
| `Handoff.TextIgnoresDelivery` | app.js:556-562 | the response text does not depend on whether the memory parses or the send succeeds |
| `Handoff.SecondMarkerLeaks` | app.js:540-541 | a text with two separate markers still shows one to the visitor after the handoff |
| `Handoff.ConsumedMarkerNoHandoff` | app.js:526-540 | a marker written right after `#ENDDATA` triggers no summary when the block ends the reply and no marker precedes it |
| `ChatServer.ErrorText` | app.js:467-569 | the two error bodies (lines 467 and 569), "No message provided" and "Failed to get response from OpenAI", are never empty |
| `ChatServer.SessionKey` | app.js:471-475 | the session id is the cookie when it is set and non-empty, and the minted id otherwise |
| `ChatServer.Respond` | app.js:489-522 | after a turn the stored conversation holds one to four messages |
| `ChatServer.WindowKeepsLastTwo` | app.js:519-522 | pushing onto a non-empty window keeps the previous last turn right before the new one |
| `ChatServer.Replied` | app.js:516-566 | steps 8 to 11 after a reply (`RepliedOutcome` states what they yield) |
| `ChatServer.RepliedOutcome` | app.js:516-566 | after a reply the conversation ends with the user turn and the raw reply, `#DATA` block included; the memory is the block's body, or unchanged when there is none, and then the response is the reply as it went into step 10 |
| `ChatServer.RespondFailed` | app.js:567-569 | a failed completion is answered with a 500 and the error body, no handoff, the memory kept and the pushed user turn still last |
| `ChatServer.RespondReplied` | app.js:489-522 | a completed turn answers 200 and its last two stored turns are the user turn and the raw reply |
| `ChatServer.RespondOutcome` | app.js:489-569 | the turn answers 500 exactly when the completion fails |
| `ChatServer.RelaySummary` | app.js:540-563 | the handoff as the handler runs it gives the response text and handoff that `Forward` specifies |
| `ChatServer.Session.constructor` | app.js:479-482 | a new entry holds the default memory and an empty conversation |
| `ChatServer.Session.Push` | app.js:490-495 | `push` then the `while … shift()` loop leave the window of the old conversation plus the turn, ending with the turn, and leave the memory alone |
| `ChatServer.Session.Converse` | app.js:485-569 | steps 3 to 11 leave the session, the status, the body and the handoff as `Respond` specifies, starting from the session's memory and conversation before the turn |
| `ChatServer.Session.Absorb` | app.js:516-566 | steps 8 to 11 leave the session and the answer as the `#DATA` extraction followed by the forward step specifies |
| `ChatServer.SessionStore.constructor` | app.js:31 | the store starts empty |
| `ChatServer.SessionStore.Open` | app.js:477-485 | an unknown id gets a fresh entry with the default memory and an empty conversation; a known id keeps its entry; no other id's entry changes |
| `ChatServer.SessionStore.Chat` | app.js:463-571 | a missing or empty message gets a 400 and touches no session; otherwise the cookie is set only for a minted id, the request's session exists afterwards (old or fresh), every other id keeps its entry, only that session object may change, and the turn runs on the memory and conversation it held before |
| `Sheets.RowToArtist` | googleSheets.js:49-55 | field i of a record is the row's cell i, and is undefined exactly when the row has at most i cells |
| `Sheets.RowRoundTrip` | googleSheets.js:49-55 | a row of at most five cells can be rebuilt from its record |
| `Sheets.ExtraCellsIgnored` | googleSheets.js:49-55 | cells past column E are never read |
| `Sheets.MapRows` | googleSheets.js:49-55 | the map yields one record per row, record i built from row i |
| `Sheets.MapRowsAppend` | googleSheets.js:49 | mapping preserves the order of the rows |
| `Sheets.ArtistsFromRows` | googleSheets.js:40-57 | a missing or empty list of rows yields no artists; otherwise there are `rows.length - 1` of them, entry i built from `rows[i+1]` |
| `Sheets.HeaderSkippedRowsAppended` | googleSheets.js:45-46 | the header row never becomes a record, and rows added below the table become records added at the end |

## Left out

- The Express wiring: static serving, the redirect, cookie parsing, the JSON body middleware and `app.listen`. The cookie value and `uuidv4()` are inputs of `Chat`, and `setCookie` says when the cookie is set.
- The OpenAI client and its call (app.js:507-516). They are network I/O, so the reply, or a failure, is the result of the `complete` parameter.
- The Telegram bot (app.js:21-28). It is network I/O, so a send's success or failure is the result of the `send` parameter.
- The text of `baseSystemPrompt`. It is constant text for the model with no logic of its own, so it is an arbitrary string.
- The internals of `JSON.parse`. It is a parameter from memory text to an optional record of the eight summary fields. Each field is either falsy or truthy with the text a template literal shows for it (`Handoff.JsonField`), so how JavaScript turns a truthy number, array or object into text is not modelled.
- The commented-out upload code, all of `googleCalendar.js`, the credential loading and fetch in `googleSheets.js` (lines 13-38), and `test.mjs`. These are foreign SDK calls or contain no logic.
- `async`/`await` and concurrency. Each request is one sequential step over the store, so requests that interleave at the `await` points are not modelled.
- Non-string request bodies and a non-string or null reply content. The message and the reply are strings.
- Strings are sequences of Unicode code points, not UTF-16 code units. This matters only for characters outside the Basic Multilingual Plane, which no constant and no whitespace character here involves.
- `ChatServer.SessionStore.Chat`: that no other session's memory or conversation changes is stated by its `modifies` clause (only the request's own session object may change), not by an `ensures`.
- `ChatServer.Session.Push`: the history invariant (the conversation is the last min(4, n) of all n turns ever pushed) is stated about the window function by `Prompt.WindowPush`, not kept as a ghost history field.
- The console logging in the `catch` blocks. It has no effect on the response.
