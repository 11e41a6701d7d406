# telao bot core in Dafny

This project models the logic inside the entry point of the telao WhatsApp bot
(`telao/index.js`). The bot connects to WhatsApp through the Baileys socket
library and answers commands in groups. Most of that file is glue around the
socket. Four pieces of logic sit inside the glue, and they are what is modelled
and proved here:

1. **Inbound text and command routing.** The `messages.upsert` listener takes
   the text of the first message of a batch and strips four directional
   formatting marks. It then trims and lower-cases the text. It runs the
   receipt-photo handler (only for an image from a group) and the pix
   detector, then picks at most one command handler. The pick is made by a
   first-match `if`/`else` chain. (Modules `InboundText`, `Routing`, and
   `Events.OnMessagesUpsert`.)
2. **The pending list** `pendingMessages`. An error notice whose send fails is
   appended to it. When the connection opens, every entry is sent, and the
   list is emptied only if all the sends succeed. (Class
   `Outbox.PendingMessages`.)
3. **The connection-update decision.** A close with the logged-out status ends
   the process. Any other close restarts the bot after 3000 ms. An open starts
   the group scheduler and then, unless starting it threw, flushes the pending
   list. (Module `Connection`, and
   `Events.OnConnectionUpdate`.)
4. **The welcome message.** Each participant added to a group gets a greeting
   that mentions the user part of their JID. The greeting goes out as an image
   caption when a profile picture URL was found, and as plain text otherwise.
   (Module `Welcome`.)

The string operations the code relies on (`startsWith`, `endsWith`, `trim`,
`toLowerCase`, `split("@")[0]`) are defined in module `JsString`.
`StartsWith` and `EndsWith` are defined directly as predicates. Each of the
others has a contract that says what it computes.

Things the socket decides are parameters of the model. That covers whether a
send or a handler throws (`sendOk`, `throwsAt`, `replyOk`, `schedulerThrows`)
and which profile picture URL was found (`pictureAt`).

Facts worth knowing, all proved:

- After normalisation the text holds none of U+200E, U+200F, U+2068 and
  U+2069, and it has no white space at either end. Lower-casing keeps both
  facts (`InboundText.Normalise`, `InboundText.LowerText`).
- A command handler is chosen exactly when the lower-cased text starts with
  `@` or `/` (`Routing.Route`).
- The third pattern of the purchase rule, `"@remove rentanas"`, can never
  fire: the earlier `"@remove"` prefix rule always takes such a text
  (`Routing.RemoveRentanasShadowed`, `Routing.RouteCompra`).
- `"@concorrencia"` reaches its handler only from a group JID. From a private
  chat it falls through to the generic handler
  (`Routing.ConcorrenciaByOrigin`).
- A flush that has any failed send keeps the whole list, including the
  entries that did go out (`Outbox.PendingMessages.FlushAll`). They would be
  sent again at the next open only if the process survived the failed
  flush; see "Left out" for why it may not.
- Only error notices whose reply failed are kept for later (line 167,
  `Events.OnMessagesUpsert`). A flush sends all entries at once and keeps all
  of them when any send fails (lines 96-99, `Outbox.PendingMessages.FlushAll`).
  Only `messages[0]` of a batch is routed (line 114, `Events.FirstMessage`).
- `iniciarAgendamento(sock)` at line 94 is called before the flush and
  without a `try`. If it throws, the listener stops and the pending list is
  not flushed (`Connection.Decide`, `Events.OnConnectionUpdate`).

## Model

| member | source | states |
|---|---|---|
| `JsString.TrimStart` | telao/index.js:123 | the result is the suffix of the input that starts at its first non-white-space character; everything cut off is white space |
| `JsString.TrimEnd` | telao/index.js:123 | the result is the prefix of the input that ends at its last non-white-space character; everything cut off is white space |
| `JsString.Trim` | telao/index.js:123 | `trim()` leaves no white space at either end, and uses only characters of the input |
| `JsString.TrimPadded` | telao/index.js:123 | trimming white space + core + white space gives exactly the core, when the core has no white space at either end |
| `JsString.TrimIdempotent` | telao/index.js:123 | trimming is the identity on already-trimmed text, and trimming twice equals trimming once |
| `JsString.LowerCase` | telao/index.js:125 | `toLowerCase()` keeps the length, leaves no upper-case letter, keeps every other character in place, and maps each upper-case letter to the lower-case letter 32 code points above it |
| `JsString.LowerCaseIdempotent` | telao/index.js:125 | lower-casing twice equals lower-casing once |
| `JsString.SplitHead` | telao/index.js:185 | `split(sep)[0]` is a prefix of the input with no separator in it; it ends at the first separator or at the end of the input |
| `JsString.SplitHeadOfJoin` | telao/index.js:185 | `split` of user + separator + rest gives back the user part, when the user part holds no separator |
| `InboundText.FirstTruthy` | telao/index.js:118-122 | the chain of JavaScript `or` operators ending in "": the result is empty exactly when no field is a non-empty string; otherwise it is the first such field |
| `InboundText.ExtractPrecedence` | telao/index.js:118-122 | `conversation` wins over `extendedTextMessage.text`, which wins over `text`; with none of them, or no message content, the text is "" |
| `InboundText.StripMarks` | telao/index.js:123 | the regex replace leaves none of the four marks and adds no character that was not in the input |
| `InboundText.StripMarksCounts` | telao/index.js:123 | only the four marks are removed: every other character keeps its number of occurrences |
| `InboundText.StripMarksAppend` | telao/index.js:123 | stripping distributes over concatenation, so it works character by character |
| `InboundText.StripMarksNoop` | telao/index.js:123 | text without marks is left unchanged by the strip |
| `InboundText.Normalise` | telao/index.js:118-123 | `messageText` has no mark and no white space at either end |
| `InboundText.NormaliseIdempotent` | telao/index.js:118-123 | normalising clean text changes nothing, so normalising twice equals normalising once |
| `InboundText.LowerText` | telao/index.js:118-125 | `lowerText` still has no mark and no white space at either end, has no upper-case letter, and is as long as `messageText` |
| `Routing.Route` | telao/index.js:140-160 | the first-match chain picks a command handler exactly when the text starts with `@` or `/` |
| `Routing.RouteRemove` | telao/index.js:142-143 | Remove is chosen exactly for texts starting with "@remove" or "/remove" |
| `Routing.RouteBan` | telao/index.js:144-145 | Ban is chosen exactly for texts starting with "@ban" or "/ban" |
| `Routing.RouteCompra` | telao/index.js:150-151 | Compra is chosen exactly for texts starting with "@compra" or "@rentanas"; its third pattern adds nothing |
| `Routing.RouteExact` | telao/index.js:140-157 | each exact-match rule (list competitors, payments, group on/off, competition from a group, price table, mention everyone) is chosen exactly when the text is its literal |
| `Routing.RemoveRentanasShadowed` | telao/index.js:142-151 | any text starting with "@remove rentanas" goes to Remove, never to Compra |
| `Routing.ConcorrenciaByOrigin` | telao/index.js:152-159 | "@concorrencia" goes to Concorrer from a group JID and to the generic handler otherwise |
| `Routing.Dispatch` | telao/index.js:127-160 | the photo handler is called exactly for an image from a group; the pix detector is always called; calls keep the order photo, pix, command; each is called at most once; the one command called is the routed handler, and only when there is one |
| `Routing.PlainTextCallsNoCommand` | telao/index.js:135-160 | a text without `@` or `/` calls no command handler |
| `Outbox.PendingMessages.constructor` | telao/index.js:30 | the pending list starts empty |
| `Outbox.PendingMessages.Push` | telao/index.js:167 | a failed error reply appends exactly one entry at the end and changes nothing else |
| `Outbox.PendingMessages.FlushAll` | telao/index.js:96-99 | every pending entry is sent, in order; the list becomes empty exactly when every send succeeded, and is otherwise kept whole |
| `Connection.CloseStatus` | telao/index.js:80 | the close reason is the Boom status code of the last error, or 500 when there is no Boom error |
| `Connection.Decide` | telao/index.js:72-101 | the pairing code is shown exactly when `qr` is non-empty; logged-out close means exit(0) with no restart; any other close means one restart after 3000 ms; open means start the scheduler, then flush unless starting the scheduler threw; effects keep the listener's order and happen at most once |
| `Connection.LoggedOutIsTerminal` | telao/index.js:83-86 | a logged-out close never schedules a restart, and the exit is its last effect |
| `Connection.UnknownCloseReconnects` | telao/index.js:80-89 | a close without a Boom error schedules a restart |
| `Welcome.GreetingShape` | telao/index.js:186-193 | the trimmed template is exactly "@" + name + the greeting body |
| `Welcome.GreetingNamesUser` | telao/index.js:185-193 | for a JID user@server the greeting mentions exactly "@user" |
| `Welcome.WelcomeMessage` | telao/index.js:195-200 | the send goes to the group and mentions the participant; it is an image captioned with the greeting when a non-empty picture URL was found, and the greeting as text otherwise |
| `Welcome.WelcomeCarriesTrimmedTemplate` | telao/index.js:185-200 | the caption or text of each welcome send is exactly the template, naming the user part of the JID, after `trim()` |
| `Welcome.WelcomeAll` | telao/index.js:182-206 | for an "add" action there is one send per participant, in order, whatever happened to earlier sends; any other action sends nothing |
| `Events.FirstMessage` | telao/index.js:111-114 | a message is routed only when the batch is present and non-empty, and then it is `messages[0]` |
| `Events.BatchPlanFirstOnly` | telao/index.js:111-133 | an absent or empty batch calls nothing; the plan of a batch is that of its first message alone, and it always calls the pix detector |
| `Events.OnMessagesUpsert` | telao/index.js:111-170 | the plan's calls run until the first that throws; a throw sends one error notice to the sender, and the notice is appended to the pending list only if that send fails |
| `Events.OnReactions` | telao/index.js:174-178 | reactions are handled in order; a handler that throws stops the loop after that reaction |
| `Events.OnConnectionUpdate` | telao/index.js:79-101 | the effects are those of `Decide`; the pending list is flushed exactly on an open update whose scheduler start did not throw, and is untouched otherwise |

## Left out

- Socket creation, the WhatsApp version lookup, the MongoDB auth load, the
  multi-file auth folder and `saveCreds` (lines 36-60, 105-108). These are
  calls into the socket library and the file system.
- QR rendering with `QRCode.toDataURL` (lines 72-77). Only the decision to
  show a non-empty pairing code is modelled, as the `ShowQr` effect. A
  rendering failure would reject the listener before the close/open branch;
  that case is not modelled.
- The periodic table check `setInterval(..., 60000)` (lines 63-66), the HTTP
  liveness server (lines 222-225), the top-level start and its `exit(1)`
  (lines 213-220), and all console logging. The log-only sigil test on line
  135 is left out too.
- Timers and process exit. `setTimeout` and `process.exit` are effect values
  (`Restart`, `Exit`), not actions.
- The internals of every imported handler (lines 14-28). Their files are not
  part of this model. Each handler is an opaque call, and whether it throws
  is a parameter (`throwsAt` for the message handlers, `schedulerThrows` for
  `iniciarAgendamento`, which is not awaited: only a synchronous throw stops
  the listener, and a later rejection of its promise is not modelled).
- `Outbox.PendingMessages.FlushAll`: the sends run concurrently under
  `Promise.all`. The model runs them in order and decides the result from
  all the outcomes. An entry pushed while a flush is in flight would be wiped
  by the reset to `[]` at line 99, and the model does not capture that race.
- `JsString.LowerCase`: only ASCII and Latin-1 capitals are mapped. The rest
  of Unicode case mapping is not modelled, including context-dependent and
  length-changing cases. The routing facts rely only on the ASCII command
  literals, and `@` and `/` are never produced by lower-casing.
- Strings are sequences of Unicode code points, not UTF-16 code units. Every
  character the code tests is in the Basic Multilingual Plane, so only
  lengths of text with emoji would differ.
- `Connection.CloseStatus`: `new Boom(error)` is reduced to "the error's
  status code if it is a Boom error, else 500". Boom's other options are not
  modelled.
- In the message listener, exceptions raised outside its `try` block are not
  modelled, for example a message with no `key`. A non-string value in a
  text field is not modelled either.
- The error notice is sent without a `mentions` field. The model writes it as
  a text payload with an empty mention list.
- `Outbox.PendingMessages.FlushAll`, `Events.OnConnectionUpdate`,
  `Events.OnReactions`: a throw that escapes a listener (a throwing
  `iniciarAgendamento` at line 94, a failed send in the flush at line 98, a
  throwing `handleReaction` at line 177) leaves the
  listener's promise rejected, and nothing in the file handles that
  rejection. Under Node's default behaviour this ends the process, and the
  in-memory pending list with it. The model stops at the throw: it returns
  what was done up to that point and does not model what the runtime does
  next.
