# Telegram relay bot — a Dafny model of its message handler

The bot relays messages from visitors to one administrator. Each visitor
message is forwarded to the admin. When the admin replies to a forwarded
copy, the reply is copied back to the visitor. The admin can also `/block`,
`/unblock` and `/checkblock` a visitor by replying to one of that visitor's
forwarded copies. A visitor's first relayed message sends the admin a
one-time "new visitor" notice. A remote keyword file can trigger an
auto-reply to the visitor.

The model treats one webhook delivery as a pure step function:

    OnMessage(store, config, message, fetched) -> Step(store', effects)

- `store` is the key-value namespace. It is a `map<string, JsValue>` holding
  the JSON values that a `get(key, { type: "json" })` decodes. A key that was
  never written reads as `None`.
- `config` carries `ADMIN_UID` and the webhook secret.
- `fetched` carries what the handler awaits from outside: the welcome text,
  the keyword file, the auto-reply body, and the `forwardMessage` answer
  (`ok`, `result.message_id`).
- `effects` lists the outbound `sendMessage` / `copyMessage` /
  `forwardMessage` calls, in the order the handler makes them.

Modules:

- `JsStrings` (`js_strings.dfy`) holds the JavaScript string primitives the
  handler uses: `trim` with the ECMAScript white-space set, `split` on one
  character, `includes`, and `Number.prototype.toString` for integers.
- `Keywords` (`keywords.dfy`) is the auto-reply matcher. It splits the file
  on `/\r?\n/`, trims, drops blank lines, splits each line on `|`, trims, and
  drops empty keywords. There are three versions: a declarative
  `Triggered`, the early-exit loop `AutoReplyTriggered`, and a reference
  definition `KeywordHit` stated on the raw pieces of the file. All three
  are proved equal.
- `KvStore` (`kv_store.dfy`) defines the store, JavaScript truthiness,
  string coercion, and the three key families `msg-map-<id>`,
  `msg-map-first-<id>` and `isblocked-<id>`. It proves that the key
  families never collide.
- `Relay` (`relay.dfy`) holds the dispatcher, the visitor path, the three
  admin commands, and the webhook secret gate.
- `RelayProperties` (`relay_properties.dfy`) holds properties that span
  several calls:
  - the reply round trip;
  - the notice being sent only once per visitor;
  - block and unblock taking effect;
  - `/unblock` idempotence;
  - which store keys each path reads;
  - the invariant that every mapping points at a visitor.

Two comparisons are modelled exactly as the code writes them:

- worker.js line 91 compares `chat.id.toString()` with `ADMIN_UID`. `IsAdminChat` is
  therefore string equality with the decimal rendering.
- worker.js line 180 compares the decoded mapping with `ADMIN_UID` using `===`.
  `SameAsAdmin` is therefore equality of JSON values, so the number `1001`
  never equals the string `"1001"`.

Because of worker.js line 180, the self-block guard cannot fire once `ADMIN_UID` is a
string. Every mapping the handler writes is a number (worker.js line 171), and
`SelfBlockGuardNeverFires` proves that this holds for every store built
from an empty one. The guard is never needed anyway: a mapping never points
at the admin's own chat, so the string form of the mapping differs from
`ADMIN_UID` too. The refusal text `不能屏蔽自己` ("cannot block yourself",
worker.js line 181) shows that the guard is meant to stop the admin from blocking
themself. The model follows the code: it refuses only when the strict
comparison holds.

An unmapped reply is not guarded in the code (worker.js lines 102, 179, 191, 200).
The lookup yields `None`, and the model carries on with it:

- a copy goes to the `None` destination (JavaScript `null`);
- `/block` and `/unblock` write the key `isblocked-null`;
- the confirmation reads `UID:null`.

## Model

| member | source | states |
|---|---|---|
| `JsStrings.Trim` | worker.js:142 | The result has no white space at either end. It is empty exactly when the input is all white space. A string that is already trimmed comes back unchanged. |
| `JsStrings.TrimIsSlice` | worker.js:142 | Trimming keeps a contiguous slice of the input. Everything cut off on either side is white space. |
| `JsStrings.Split` | worker.js:151 | `split('|')` always yields at least one piece, and no piece contains the separator. |
| `JsStrings.JoinSplit` | worker.js:151 | Joining the pieces of a split with the separator gives back the original text. |
| `JsStrings.SplitJoin` | worker.js:151 | Splitting a join of separator-free pieces gives back those pieces, so split and join are inverse in both directions. |
| `JsStrings.Contains` | worker.js:152 | `text.includes(kw)`: a keyword longer than the text is never included, and the empty keyword is included in every text. |
| `JsStrings.ContainsInfix` | worker.js:152 | A text made of any prefix, then `kw`, then any suffix includes `kw`. |
| `JsStrings.ContainsIsInfix` | worker.js:152 | A text that includes `kw` is some prefix, then `kw`, then some suffix, so `Contains` means "occurs somewhere" and nothing else. |
| `JsStrings.NumberToString` | worker.js:91 | The decimal rendering of an id is non-empty. It starts with `-` exactly for negative ids and otherwise with a digit. |
| `JsStrings.NumberToStringIsDecimal` | worker.js:91 | After the optional `-`, the rendering of an id is a non-empty run of decimal digits that reads back to the id's magnitude, with no leading zero except for `0` itself. |
| `JsStrings.NumberToStringInjective` | worker.js:91 | Distinct ids have distinct string forms, so the string comparison with `ADMIN_UID` singles out one chat. |
| `JsStrings.ParseNatToString` | worker.js:91 | Reading the digits back yields the number. This round trip underlies injectivity. |
| `Keywords.Lines` | worker.js:140-141 | `split(/\r?\n/)` yields at least one line, and no line contains a line feed. |
| `Keywords.LinesWithoutCR` | worker.js:141 | For a file without carriage returns, the lines are exactly the pieces between line feeds. |
| `Keywords.LinesAreSplitWithoutCR` | worker.js:141 | For any file, there are exactly as many lines as pieces between line feeds. Every line but the last is its piece without one trailing carriage return, so CR LF ends a line like LF. The last line is its piece unchanged. A carriage return not followed by a line feed stays in its line. |
| `Keywords.TrimNonEmpty` | worker.js:142-143 | Every kept piece is non-empty and trimmed. Every input piece that is non-empty once trimmed is kept, in trimmed form. |
| `Keywords.TrimNonEmptyAppend` | worker.js:142-143 | Trimming and filtering a concatenation gives the concatenation of the results, so the kept pieces keep their input order. |
| `Keywords.TrimNonEmptyKeepsOnlyTrimmed` | worker.js:142-143 | Every kept piece is the trimmed form of some input piece. Nothing is invented. |
| `Keywords.TriggeredIffKeywordHit` | worker.js:140-156 | The auto-reply fires iff some non-blank trimmed line has a non-empty trimmed `|`-separated token that occurs, case-sensitively, in the text. Both directions are proved. |
| `Keywords.SomeIncluded` | worker.js:152 | The scan that stops at the first included keyword returns true iff some keyword of the line occurs in the text. |
| `Keywords.ScanLines` | worker.js:149-156 | The loop that stops at the first line with an included keyword returns true iff some line of the list has a keyword the text includes. |
| `Keywords.AutoReplyTriggered` | worker.js:140-156 | Running that loop over the filtered lines of the keyword file sets `triggered` iff the reference definition of a keyword hit holds. |
| `Keywords.NoKeywordsInBlankLine` | worker.js:151 | A line of only white space and `|`, such as `|` or ` | `, yields no keyword. |
| `Keywords.BlankFileNeverTriggers` | worker.js:140-152 | A keyword file of only white space, line breaks and `|` never triggers the auto-reply, whatever the text. |
| `Keywords.PipeSeparatedExample` | worker.js:151-152 | The keyword file `foo|bar` fires on every text that includes `foo`. |
| `Keywords.FooInSentence` | worker.js:151-152 | The keyword file `foo|bar` fires on the text `say foo now`. |
| `Keywords.CaseSensitiveExample` | worker.js:152 | The keyword `foo` does not fire on the text `FOO`. |
| `KvStore.Truthy` | worker.js:117-123 | A value read from the store is truthy iff it is none of the ECMAScript falsy values a decoded value can be: `null`, `false`, `0` and `""`. |
| `KvStore.ToJsString` | worker.js:183-184 | `null` renders as `null`. A number renders to a non-empty string other than `null`, which starts with `-` exactly for negative numbers. A boolean renders as `true` or `false`. A string renders as itself. |
| `KvStore.ToJsStringNumInjective` | worker.js:183-184 | Different numbers render to different strings, so different visitors get different block keys. |
| `KvStore.KeyFamiliesDisjoint` | worker.js:116-125 | No `msg-map-<id>` key equals a `msg-map-first-<id>` key or an `isblocked-` key. No first-contact key equals a block key. |
| `KvStore.MapKeyInjective` | worker.js:171 | Different forwarded-message ids get different mapping keys. |
| `KvStore.FirstKeyInjective` | worker.js:123-125 | Different chat ids get different first-contact keys. |
| `Relay.IsAdminChat` | worker.js:91 | A numeric or boolean `ADMIN_UID` never matches a chat id's `toString()`. A matching `ADMIN_UID` is a non-empty string that starts with `-` exactly when the chat id is negative. |
| `Relay.SameAsAdmin` | worker.js:180 | `null` never equals `ADMIN_UID`. A number or a boolean never equals a string `ADMIN_UID`. A string equals it iff the texts are equal. |
| `Relay.HasText` | worker.js:136 | `if (message.text)` holds iff the text is present and truthy as a JavaScript string. |
| `Relay.IsCommand` | worker.js:98-100 | Every command text is present, starts with `/` and is at least six characters long. |
| `Relay.CommandsNeedWholeText` | worker.js:98-100 | A command with any non-empty text added before or after it is no longer a command. |
| `Relay.NoticeUserId` | worker.js:127 | `message.from?.id || chatId`: the sender's id when a sender is present and the id is truthy, otherwise the chat id. |
| `Relay.NewVisitorNotice` | worker.js:129-132 | The notice starts with the new-visitor heading, the display name and the user-id label, and ends with the decimal rendering of the user id. Its length is the sum of those parts, so nothing lies between them. |
| `Relay.DisplayName` | worker.js:126 | The name starts with `@`, followed by the user name, exactly when a non-empty user name exists. Otherwise it is `(没有用户名)`. |
| `Relay.RelayEffects` | worker.js:136-168 | The relay part of the visitor path is the auto-reply to the visitor, exactly when the text is non-empty and a keyword hits it, followed by the forward to `ADMIN_UID`. Nothing else is sent. |
| `Relay.GuestMessage` | worker.js:114-173 | A blocked visitor gets only `You are blocked`, and nothing is written. Otherwise the new-visitor notice goes first, exactly when the first-contact flag was falsy, and the flag is truthy afterwards, exactly `true` when it was falsy. `msg-map-<result id>` maps to the visitor iff the forward was `ok`, and no other mapping changes. No key other than the first-contact key and that mapping key changes. A visitor message never causes a copy. It is forwarded to the admin iff the visitor's block flag is falsy. |
| `Relay.MarkFirstContact` | worker.js:123-125 | Afterwards the first-contact flag is truthy; when it was falsy it is now exactly `true`. A store whose flag was already truthy is unchanged. No mapping and no other key changes. |
| `Relay.RecordForward` | worker.js:170-172 | `msg-map-<result id>` maps to the visitor chat when the forward was `ok`, and the store is unchanged otherwise. No other mapping, no first-contact flag and no other key changes. |
| `Relay.Block` | worker.js:178-185 | When the mapped value `===` `ADMIN_UID`, the only call is the refusal `不能屏蔽自己` and the store is unchanged. Otherwise `isblocked-<value>` becomes `true`, nothing else changes, and `UID:<value> 屏蔽成功` is sent to the admin. |
| `Relay.Unblock` | worker.js:190-194 | `isblocked-<value>` becomes `false` whatever it was, nothing else changes, and the confirmation is sent. |
| `Relay.CheckReportDistinguishes` | worker.js:202 | The blocked and not-blocked reports for one id are different texts. |
| `Relay.CheckBlock` | worker.js:199-203 | `/checkblock` leaves the store unchanged. It sends one report, which says blocked exactly when the flag of the mapped visitor is truthy. |
| `Relay.AdminMessage` | worker.js:91-103 | An admin message makes exactly one call, never a forward. It never changes a mapping or first-contact key. Without `reply_to_message.chat` the call is the usage hint and the store is unchanged. A reply whose text is exactly `/block`, `/unblock` or `/checkblock` is handled by `Block`, `Unblock` or `CheckBlock`. Any other reply becomes a copy to the mapped visitor, with no write. |
| `Relay.OnMessage` | worker.js:84-108 | Text `/start` is answered with the welcome text in the sender's chat, even for the admin, with no write. Any other message is handled by `Route`. Every message causes one to three calls. |
| `Relay.Route` | worker.js:91-108 | A message from the admin chat makes exactly one call, never a forward. It never changes a mapping or first-contact key. It gets the usage hint when it has no `reply_to_message.chat`. A reply whose text is exactly a command goes to that command's handler, and `/checkblock` leaves the store unchanged. Any other reply becomes a copy to the mapped visitor. A message from any other chat is handled by the visitor path. |
| `Relay.OnUpdate` | worker.js:75-79 | An update without a message changes nothing and makes no call. An update with a message is handled by `OnMessage`. |
| `Relay.HandleWebhook` | worker.js:63-70 | The request is refused with 403 iff the secret header is not exactly `SECRET`. A refused request changes nothing and makes no call. An accepted request is handled by `OnUpdate`, so an accepted update without a message changes nothing either. |
| `RelayProperties.AtMostOneAdminChat` | worker.js:91 | At most one chat id passes the admin check. |
| `RelayProperties.ReplyReachesVisitor` | worker.js:102-103 | After a visitor's message is forwarded with `ok`, an admin reply to the forwarded copy that is not a command is copied to that visitor's chat, with no write. |
| `RelayProperties.GuestKeepsBlockFlag` | worker.js:114-173 | The visitor path never changes any block flag. |
| `RelayProperties.SecondMessageNoNotice` | worker.js:123-133 | A second message from the same unblocked visitor produces no new-visitor notice, only the auto-reply (if any) and the forward. |
| `RelayProperties.BlockThenVisitorBlocked` | worker.js:178-185 | After `/block` on a copy mapped to visitor `c`, the next message from `c` gets only `You are blocked`. |
| `RelayProperties.UnblockThenVisitorRelayed` | worker.js:190-194 | After `/unblock` on a copy mapped to visitor `c`, the next message from `c` is forwarded to the admin. |
| `RelayProperties.UnblockIdempotent` | worker.js:190-194 | Repeating `/unblock` yields the same store and the same confirmation. |
| `RelayProperties.CheckBlockReportsLastCommand` | worker.js:199-203 | `/checkblock` reports blocked right after a successful `/block`, and not blocked right after `/unblock`. |
| `RelayProperties.NoTextSkipsKeywordStep` | worker.js:136-161 | For a message without text, the keyword file and the auto-reply body cannot change the outcome. |
| `RelayProperties.ReadsOnlyReadKeys` | worker.js:84-203 | Two stores that agree on the keys a path reads give the same calls and write the same values. Those keys are the block and first-contact keys for a visitor, the mapping key for a reply, and the mapped block key for `/checkblock`. |
| `RelayProperties.OnMessageKeepsMappingsVisitors` | worker.js:171 | Every handler call keeps every mapping pointing at a number whose string form is not `ADMIN_UID`. |
| `RelayProperties.RunKeepsMappingsVisitors` | worker.js:171 | Any sequence of handler calls keeps that invariant. |
| `RelayProperties.SelfBlockGuardNeverFires` | worker.js:180 | On any store built from an empty one with a string `ADMIN_UID`, the self-block comparison is false. The mapped value's string form is not `ADMIN_UID` either. |
| `RelayProperties.BlockExample` | worker.js:178-185 | Replying `/block` to message 42, mapped to 1001, sets `isblocked-1001` to `true` and sends `UID:1001 屏蔽成功` to the admin. |
| `RelayProperties.BlockedVisitorExample` | worker.js:116-120 | Visitor 2002 with `isblocked-2002` set gets `You are blocked`, and the store is unchanged. |

## Left out

- Every `fetch`, `apiUrl` and `URLSearchParams` call is left out: the Telegram requests, the query building, and the downloads of the welcome, keyword and auto-reply texts. Their results are parameters (`Fetched`), and the requests become `Effect` records.
- A failing `fetch`, store read or write is not modelled. In the code such a failure is an unhandled rejection that silently ends the background task. The model assumes every awaited call returns.
- The `addEventListener` routing, the "No handler" response and `event.waitUntil` are left out (worker.js lines 47-58 and line 68). They are runtime wiring with no logic of their own.
- `registerWebhook` and `unRegisterWebhook` are left out (worker.js lines 208-220). They pass straight through to the platform API.
- Cloudflare KV serialisation is left out. The store holds decoded JSON values, so putting the number `1001` and reading it back as JSON gives `Num(1001)`.
- Concurrent deliveries, and the lost updates between a read and a later write, are left out. Each call is modelled as atomic.
- Telegram ids are unbounded integers. JavaScript numbers are doubles, which are exact only below 2^53. Telegram ids stay below that bound.
- `forwardReq.ok` is modelled as a boolean. A non-boolean `ok` is not modelled.
- Strings are sequences of Unicode scalar values, while JavaScript uses UTF-16 code units. For well-formed text, `includes` and `trim` give the same answers either way.
