# teams2desk-link, modelled in Dafny

teams2desk-link connects Microsoft Teams to a service desk. A user picks a Teams message, and a React page (the create-case page and its export panel) turns it into a case: a title, a transcript, a manager and a contact. The page posts the case to an Azure Function (`api/create-case`). That function forwards the case, with Basic authentication, to the service desk's REST API (easitGO).

Next to this path sit several Teams bot webhooks:
- the full Teams bot (`api/bot`, and its twin `api/messages`);
- three simpler bot endpoints (`api/bot-simple`, `api/bot-auth`, `api/bot-messages`);
- a credentials diagnostic (`api/jwt-test`).

The project models every handler as a pure function from its inputs to the response it sets and the replies it sends. Each Dafny module follows one source file:

| module | source | what it holds |
|---|---|---|
| `Js` | — | The JavaScript semantics the handlers rely on: `||` defaulting, truthiness, optional chaining, object literals with `undefined` values, `includes`, `trim`, `substring`, `toLowerCase`, `replace(/p/g, q)` and number-to-string. |
| `Http`, `Activities` | — | The Azure Functions request/response shapes, and the Bot Framework activity fields the bots read. |
| `TimestampPattern` | `src/components/ExportPanel.tsx` | The regular expression `/\[\w+.*?\d{2}-\d{2}\s+\d{2}:\d{2}\]/g`, with its backtracking order. |
| `ExportPanel` | `src/components/ExportPanel.tsx` | Title generation, the transcript, the export gate, the button hint, the handling of the answer, the case-URL extraction, and the auto-populate effect. |
| `CreateCasePage` | `src/pages/CreateCase.tsx` | Building the selected message from the query string once the Teams SDK has settled. |
| `CreateCase` | `api/create-case/index.js` | The proxy: preflight, configuration gate, upstream payload, Basic credentials, error mapping. |
| `Utf8`, `Base64`, `BasicAuth` | `api/create-case/index.js` | The `Authorization` header: UTF-8 (RFC 3629), then base64 (section 4 of RFC 4648), under the "Basic" scheme (section 2 of RFC 7617). |
| `TeamsBot` | `api/bot/index.js`, `api/messages/index.js` | The four Teams handlers, the activity dispatch, send failures, and the entry point. |
| `BotSimple` | `api/bot-simple/index.js` | The exact-match bot that answers with an Activity in the HTTP body. |
| `BotAuth` | `api/bot-auth/index.js` | The authorization-header gate and the echo turn. |
| `BotMessages` | `api/bot-messages/index.js` | The smaller command table behind a POST gate. |
| `JwtTest` | `api/jwt-test/index.js` | The masked configuration report and the missing-variable check. |

The process environment, the clock, the browser locale, the answers of `fetch` and of the service desk, and what the Bot Framework adapter does with a request in `api/bot`, `api/messages` and `api/bot-messages` (up to its final answer in `api/bot-messages`) are all inputs to the model.

## Where the code and the intended design differ

The model follows the code in each of these places:

- The case title the panel generates comes from the first selected message's content, not from the transcript (`ExportPanel.tsx:116`).
  - A message whose cleaned content is empty yields an empty title, which is still sent.
- `api/create-case` checks neither manager nor contact; it forwards whatever it is sent.
  - The only client-side check is the panel's gate.
  - A missing configuration is a 500, not a 503.
- No Teams bot handler checks authentication itself, and none of their own code sets a 401 (`TeamsBot.NoUnauthorizedStatus`).
  - `api/bot` and `api/messages` hand every non-GET, non-OPTIONS request to `CloudAdapter.process` and turn an exception that escapes it into a 500.
  - An unauthenticated POST is refused by `CloudAdapter.process` itself, which writes its own answer (a 401, as the library is written) through the response object; the model leaves that answer to the adapter (`AdapterRun.Refused`: the handler sets nothing and nothing is sent, `TeamsBot.ErrorMapping`).
  - `api/bot-auth` answers 401 itself, and only when the `Authorization` header is missing (it is never verified).
- A reply that fails to send does not become a 500 in `api/bot`.
  - The adapter's `onTurnError` sends "The bot encountered an error." instead (`TeamsBot.TurnReplies`).
- The `OPTIONS` answer of `api/bot` and `api/messages` is a bare 200 with an empty body and no CORS headers.
- `api/bot-auth` never echoes anything (`BotAuth.NeverReplies`).
  - It builds the turn context from the HTTP request object (`api/bot-auth/index.js:52`), and the adapter takes that object as the activity. The request object has no `type`, so the echo rule never fires.
  - The body it reads into `activity` two lines earlier is evidently the activity meant; `BotAuth.HandleIntended` runs the turn on it and echoes messages (`BotAuth.MessageEchoes`). See "## Findings".
- `api/bot-messages` answers every POST with a 500 (`BotMessages.EveryPostFails`).
  - It passes the Functions `context` as the adapter's response object (`api/bot-messages/index.js:12`). `processActivity` always ends by calling `res.status(...)`, which `context` does not have, so it throws a TypeError after the turn, and the catch turns that into `500 {"error": "res.status is not a function"}`. Any reply of the turn has been sent by then.
  - `BotMessages.IntendedEndpoint` is the handler with a usable response object (`BotMessages.IntendedOutcomes`). See "## Findings".
- Editing the title in the panel re-runs the auto-populate effect, whose dependencies include the title.
  - That effect writes the message's manager and contact back over anything the user typed (`ExportPanel.TitleEditRestoresPeople`).

## Model

| member | source | states |
|---|---|---|
| CreateCase.Preflight | api/create-case/index.js:5-16 | An OPTIONS request gets the 200 with the four CORS headers, and no upstream call is made. |
| CreateCase.NoCallNoDependence | api/create-case/index.js:18-49 | Whenever the proxy makes no upstream call, its answer is the same whatever the upstream would have done. |
| CreateCase.ConfigurationGate | api/create-case/index.js:42-49 | For a request with a body and a loggable title, the upstream call is made exactly when endpoint, username and password are all non-empty; otherwise the answer is the configuration failure. The identifier is not checked. |
| CreateCase.CallContents | api/create-case/index.js:62-73 | The call goes to the configured endpoint with the payload built from the body. Its credentials are the username and the username followed by the identifier, and a receiver parses them back when the username has no colon. |
| CreateCase.UnsetIdentifier | api/create-case/index.js:64 | With the identifier unset, the password is the username followed by the word "undefined". |
| CreateCase.PayloadFields | api/create-case/index.js:52-60 | The payload holds exactly the received title, description, manager and contact (each only if present) and the three fixed fields "Microsoft Teams", "Normal", "IT Support". |
| CreateCase.UpstreamRejection | api/create-case/index.js:75-84 | A non-2xx upstream status is a failure whose message contains the status and quotes at most 200 characters of the upstream body (all of it when short). |
| CreateCase.UnreadableRejection | api/create-case/index.js:75-76 | When the body of a non-2xx answer cannot be read, the request fails with the read's own error message. |
| CreateCase.UpstreamSuccess | api/create-case/index.js:86-96 | A 2xx upstream answer with a JSON body is relayed as a 200 with that body. |
| CreateCase.FailureBody | api/create-case/index.js:98-111 | The failure body carries the fixed error text, and the error's message exactly when there is one. |
| CreateCase.Outcomes | api/create-case/index.js:5-111 | Every answer is a 200 or a 500. Every 500 carries the fixed error text. A 200 to a non-preflight request means the upstream call was made and answered 2xx with JSON. |
| CreateCase.UpstreamOutcome | api/create-case/index.js:62-111 | Past the gate, the call is always made, and a network failure, a non-2xx status or unparsable JSON each give the 500 failure body. |
| BasicAuth.Header | api/create-case/index.js:70 | The header starts with the scheme "Basic ". |
| BasicAuth.RoundTrip | api/create-case/index.js:70 | Stripping the scheme, decoding base64 and UTF-8, and splitting at the first colon gives back the user-id and password, when the user-id has no colon. |
| BasicAuth.ColonInUserIsAmbiguous | api/create-case/index.js:70 | With a colon in the user-id, moving text across the colon gives the same header, so the credentials cannot be recovered. |
| Base64.RoundTrip | api/create-case/index.js:70 | Decoding the base64 encoding of any byte string gives the byte string back. |
| Base64.Injective | api/create-case/index.js:70 | Distinct byte strings have distinct base64 encodings. |
| Base64.Encode | api/create-case/index.js:70 | The encoding has 4 characters per started group of 3 bytes. |
| Base64.EncodeIsAscii | api/create-case/index.js:70 | Every character of the encoding is an alphabet character or the padding `=`. |
| Base64.ValueOfCharOf | api/create-case/index.js:70 | The alphabet maps each 6-bit value to a distinct character, never `=`. |
| Utf8.RoundTrip | api/create-case/index.js:70 | Decoding the UTF-8 encoding of any string gives the string back. |
| Utf8.Injective | api/create-case/index.js:70 | Distinct strings have distinct UTF-8 encodings. |
| Utf8.EncodeChar | api/create-case/index.js:70 | A code point takes 1 to 4 bytes, and 1 byte exactly when it is below 0x80. |
| Utf8.AsciiIsIdentity | api/create-case/index.js:70 | An ASCII string encodes to its own character codes. |
| JwtTest.PreviewRevealsPrefix | api/jwt-test/index.js:18 | The identifier preview shows at most the first 8 characters of the value, then "...". |
| JwtTest.MaskRevealsSuffix | api/jwt-test/index.js:19 | The password mask is "***" and at most the last 4 characters of the secret. |
| JwtTest.MissingVarsExact | api/jwt-test/index.js:51-55 | A variable is listed as missing exactly when it is unset or empty, and the list keeps the order AppId, AppPassword, AppType, TenantId. |
| JwtTest.PostOutcome | api/jwt-test/index.js:37-86 | A POST is a 400 listing the missing variables exactly when one is missing. Otherwise it is a 200 echoing the simulated message (text defaulting to "test") and the app type. |
| JwtTest.GetReport | api/jwt-test/index.js:16-34 | GET shows "NOT SET" for an identifier or password exactly when it is unset or empty, the app type or "NOT SET", and the time of the request. |
| TeamsBot.MembersAddedByScope | api/bot/index.js:35-51 | Members added in personal scope get one welcome per member other than the bot. In channel scope they get one team welcome per entry that is the bot. In any other scope they get nothing. In personal scope, adding only the bot sends nothing. |
| TeamsBot.PersonalWelcomes | api/bot/index.js:40-44 | In personal scope the loop sends the personal welcome once per added member that is not the bot. |
| TeamsBot.ChannelWelcomes | api/bot/index.js:45-48 | In channel scope the loop sends the team welcome once per added entry that is the bot. |
| TeamsBot.OtherScopesSilent | api/bot/index.js:40-49 | Outside personal and channel scope the loop sends nothing. |
| TeamsBot.ThanksIffTeamWelcome | api/bot/index.js:62-72 | In channel scope the conversation update thanks at most once, and it does so exactly when the members-added handler sends a team welcome. |
| TeamsBot.OnInstallationUpdateAdd | api/bot/index.js:54-59 | An installation add sends the install welcome exactly when the scope is channel. |
| TeamsBot.OnMessage | api/bot/index.js:75-100 | A message gets exactly one reply: the greeting, the help text, or the echo of the activity's text after mention removal; the echo is sent exactly when the table finds neither a greeting token nor "help". |
| TeamsBot.EchoDiffers | api/bot/index.js:86-97 | No echo reads like the greeting or the help text. |
| TeamsBot.EchoQuotesStrippedText | api/bot/index.js:78-97 | The echo quotes the text mention removal wrote back into the activity when that call returned, and the raw text when it threw. |
| TeamsBot.MentionedEcho | api/bot/index.js:78-97 | "<at>Bot</at> z", stripped to "z", is echoed as "Echo: z", without the mention. |
| TeamsBot.BareMentionEcho | api/bot/index.js:78-97 | A bare mention, stripped to "", is echoed as "Echo: (empty)". |
| TeamsBot.GreetingBeforeHelp | api/bot/index.js:86-87 | Any command text containing "hi", "hello" or "hej" gets the greeting, whatever else it contains. |
| TeamsBot.HelpWithoutGreeting | api/bot/index.js:88-95 | Command text containing "help" and none of the greeting tokens gets the help text. |
| TeamsBot.CaseInsensitive | api/bot/index.js:77 | Texts that differ only in letter case are classified alike. |
| TeamsBot.StrippedTextDecides | api/bot/index.js:79-80 | Once mention removal yields non-blank text, the raw text no longer affects the command. |
| TeamsBot.BlankStrippedFallsBack | api/bot/index.js:77-81 | When mention removal fails or yields blank text, the command text is the lower-cased raw text, untrimmed. |
| TeamsBot.BotAddedAlone | api/bot/index.js:35-72 | A conversation update adding only the bot sends the thanks then the team welcome in channel scope, and nothing in personal scope. |
| TeamsBot.PeopleJoiningChannelSilent | api/bot/index.js:62-72 | A channel conversation update that adds only people sends nothing. |
| TeamsBot.PersonalConversationUpdate | api/bot/index.js:35-51 | A personal conversation update welcomes each added person once and never thanks. |
| TeamsBot.MessageGetsOneReply | api/bot/index.js:75-100 | Every message activity gets exactly one reply. |
| TeamsBot.TurnReplies | api/bot/index.js:21-27 | Without a send failure the planned replies go out in order. When a send throws, the replies before it go out, followed by the error notice. |
| TeamsBot.MethodGate | api/bot/index.js:107-118 | OPTIONS and GET are answered without the adapter, with an empty body or the liveness text, and no reply is sent. |
| TeamsBot.ErrorMapping | api/messages/index.js:134-162 | Every other method reaches the adapter. An exception that escapes it becomes a 500 carrying the error, and one before the turn sends no reply. The handler leaves the response to the adapter exactly when the turn ran cleanly or the adapter refused the request itself, and a refusal sends nothing. |
| TeamsBot.NoUnauthorizedStatus | api/bot/index.js:107-242 | The only statuses the entry point sets itself are 200 and 500; a 401 can come only from the adapter's own answer. |
| TeamsBot.ErrorBodyFields | api/bot/index.js:237-241 | The 500 body names `error` and `stack` exactly when the error has them. |
| TeamsBot.GreetingExamples | api/bot/index.js:86 | "hi help" greets, and so does "this", which contains "hi". |
| TeamsBot.EmptyEchoes | api/bot/index.js:86-97 | Empty text falls through to the echo. |
| BotSimple.ExactMatchCommands | api/bot-simple/index.js:34-49 | The text greets exactly when it lower-cases to "hi" or "hello", and asks for help exactly when it lower-cases to "help". Otherwise a text containing "case" or "ticket" gets the case hint. |
| BotSimple.DistinctReplies | api/bot-simple/index.js:34-49 | The welcome, help, case and echo replies are pairwise different. |
| BotSimple.ReplyNamesCommand | api/bot-simple/index.js:34-49 | Equal replies mean equal commands. |
| BotSimple.HiThereIsNoGreeting | api/bot-simple/index.js:34 | "hi there" is not a greeting. |
| BotSimple.MissingTextIsHi | api/bot-simple/index.js:27-35 | A POST with missing or empty text is read as "hi" and welcomed with a 200. |
| BotSimple.ReplyMirrorsRouting | api/bot-simple/index.js:54-71 | The reply's recipient, conversation, channel and replyToId are the inbound sender, conversation, channel and id, each defaulted only when missing or empty. The sender is the bot. |
| BotSimple.NoBodyDefaults | api/bot-simple/index.js:27-71 | With no body, every routing field takes its default and the reply is the welcome. |
| BotSimple.AlwaysAnActivity | api/bot-simple/index.js:25-103 | Every POST gets an Activity from the bot: the command reply with a 200 exactly when the text is a string, else the error Activity with a 500 and no replyToId. |
| BotSimple.PreflightAndProbe | api/bot-simple/index.js:3-23 | OPTIONS and GET get a 200 without an Activity: the CORS headers or the readiness text. |
| BotAuth.OnTurn | api/bot-auth/index.js:21-28 | A message activity gets exactly one reply and any other activity none. |
| BotAuth.MissingHeaderRejects | api/bot-auth/index.js:37-45 | Without an authorization header the answer is the same 401 whatever else happens; the turn never runs and nothing is sent. |
| BotAuth.NeverReplies | api/bot-auth/index.js:47-61 | As written, the turn runs on the request object, which is no message activity: no reply is ever sent, the transport's behaviour makes no difference, and a request with a header and a body always gets a 200. |
| BotAuth.MessageEchoes | api/bot-auth/index.js:47-61 | With the turn run on the body's activity, as intended, a delivered message activity with a header yields exactly one reply, "Echo: " and its text, and a 200; as written, the same request gets no reply. |
| BotAuth.NonMessageSilent | api/bot-auth/index.js:47-61 | A non-message activity gets a 200 and no reply, even with a broken transport. |
| BotAuth.StatusSummary | api/bot-auth/index.js:30-70 | Every status is 200, 401 or 500. A 200 means the turn ran, and a 500 means nothing was delivered. |
| BotMessages.Turn | api/bot-messages/index.js:12-22 | Each turn sends exactly one of the three replies. |
| BotMessages.MissingTextApologises | api/bot-messages/index.js:13-20 | Missing or empty text gets the apology. |
| BotMessages.AgreesWithTeamsTable | api/bot-messages/index.js:15-21 | This table decides like the Teams bot's table, except that "hej" greets only there. |
| BotMessages.HejApologises | api/bot-messages/index.js:15-21 | "hej" gets the apology here. |
| BotMessages.MethodGate | api/bot-messages/index.js:9-35 | Any method but POST gets the same 200 without processing. A POST reaches the adapter, and an exception before the turn is a 500 with no reply. |
| BotMessages.EveryPostFails | api/bot-messages/index.js:11-29 | As written, every POST ends as the same `500 {"error": "res.status is not a function"}`, whatever the adapter did; a turn that ran has still sent its one reply, and a run with no turn sent nothing. |
| BotMessages.IntendedOutcomes | api/bot-messages/index.js:11-29 | With a usable response object, a POST is a 500 exactly when the adapter or the turn throws, carrying that error's message, and otherwise the adapter's own answer stands; the replies and the method gate are those of the code as written. |
| ExportPanel.TitleShape | src/components/ExportPanel.tsx:72-81 | The title is the cleaned content when that has at most 100 characters, and otherwise its first 100 characters followed by "...". |
| ExportPanel.CleanContentIsClean | src/components/ExportPanel.tsx:74-77 | The cleaned content holds no `&nbsp;` and neither starts nor ends with whitespace. |
| ExportPanel.PlainShortTextIsTitle | src/components/ExportPanel.tsx:72-81 | A short text with no bracket, no entity and no surrounding whitespace is its own title. |
| ExportPanel.FormatAppend | src/components/ExportPanel.tsx:83-90 | The transcript of two selections in a row is their two transcripts joined by a blank line. |
| ExportPanel.FormatSmall | src/components/ExportPanel.tsx:83-90 | No messages give "", and one message gives its line alone. |
| ExportPanel.FormatContainsEveryMessage | src/components/ExportPanel.tsx:83-90 | Every selected message's `[time] sender: content` line appears in the transcript. |
| ExportPanel.GateIffCanExport | src/components/ExportPanel.tsx:93-111 | The request is sent exactly when there is a selection and both manager and contact are non-empty, which for an idle panel is the button's enabled state. Each refusal raises its own toast. |
| ExportPanel.HintMatchesGate | src/components/ExportPanel.tsx:327-331 | For an idle panel the hint shows exactly when the gate would refuse, and names the same reason. |
| ExportPanel.RequestContents | src/components/ExportPanel.tsx:115-122 | The request carries the typed title, or else the title generated from the first message, plus the whole transcript, manager, contact and messages. |
| ExportPanel.UrlPriority | src/components/ExportPanel.tsx:150-163 | The URL comes from the nested list when present (no fall-through), else a top-level `URL_Selfservice`, else `caseUrl`, else none. |
| ExportPanel.FindSelfServiceSpec | src/components/ExportPanel.tsx:155-158 | The first entry named `URL_Selfservice` decides, and its content is the URL when truthy. |
| ExportPanel.NoEntryNoUrl | src/components/ExportPanel.tsx:155-158 | A list without that entry and without null entries yields no URL. |
| ExportPanel.FoundUrlIsTruthy | src/components/ExportPanel.tsx:156-157 | A URL found in the list is always a truthy value. |
| ExportPanel.ExportOutcome | src/components/ExportPanel.tsx:111-198 | A request is sent exactly when the gate allows, and the panel ends idle. Only a parsed 2xx answer whose URL extraction succeeds shows the success toast; it clears the title and shows the extracted URL. Every failure leaves the URL cleared and the title untouched. |
| ExportPanel.UnreadableErrorReported | src/components/ExportPanel.tsx:139-140 | When the body of a non-2xx answer cannot be read, the request was sent and the toast describes the read's own failure. |
| ExportPanel.ServerErrorReported | src/components/ExportPanel.tsx:139-189 | A non-2xx answer is reported with its status and body, or as a network error when the body mentions "fetch". |
| ExportPanel.NoFetchInServerMessage | src/components/ExportPanel.tsx:142 | "fetch" occurs in the server-error message only if it occurs in the body. |
| ExportPanel.AutoPopulateFields | src/components/ExportPanel.tsx:35-70 | The effect changes only manager, contact and title, leaves everything alone for an empty selection, never replaces a typed title, and never copies the "Teams User" placeholder name. |
| ExportPanel.AutoPopulatePriority | src/components/ExportPanel.tsx:50-68 | Manager e-mail beats manager name, and contact e-mail beats a contact name other than "Teams User". A field with no source keeps its value. An empty title is generated from non-empty content. |
| ExportPanel.AutoPopulateIdempotent | src/components/ExportPanel.tsx:35-70 | Running the effect on its own result changes nothing. |
| ExportPanel.TitleEditRestoresPeople | src/components/ExportPanel.tsx:70 | Editing the title re-runs the effect, which restores the message's manager and contact e-mails. |
| ExportPanel.PopulatedMessageCanExport | src/components/ExportPanel.tsx:50-62 | A message naming a manager and a real contact enables the export without typing. |
| ExportPanel.SuccessRegeneratesTitle | src/components/ExportPanel.tsx:175-176 | After a success clears the title, the effect generates it again from the first message. |
| CreateCasePage.SelectionShape | src/pages/CreateCase.tsx:99-100 | Before the Teams SDK settles there is nothing to export; afterwards there is exactly one message. |
| CreateCasePage.ExtractedMessage | src/pages/CreateCase.tsx:104-141 | The message content is `text`, else `messageText`, else the placeholder, so never empty. Sender and id are never empty, the contact name repeats the sender, and a failed SDK gives a null context. |
| CreateCasePage.NoContactBlocksExport | src/pages/CreateCase.tsx:107-108 | A query string naming no contact leaves the contact empty, so the export is refused until one is typed. |
| CreateCasePage.EmailsMakeExportReady | src/pages/CreateCase.tsx:108-110 | With both e-mails in the query string, the panel can export at once, to exactly those two. |
| CreateCasePage.PlaceholderTitle | src/pages/CreateCase.tsx:128 | Without message text, the generated title is the placeholder sentence itself. |
| TimestampPattern.MatchAtIffMatches | src/components/ExportPanel.tsx:75 | The matcher succeeds at an offset exactly when the pattern can match there. |
| TimestampPattern.MatchAtSound | src/components/ExportPanel.tsx:75 | What the matcher returns is a match of the pattern. |
| TimestampPattern.MatchAtComplete | src/components/ExportPanel.tsx:75 | Wherever the pattern can match, the matcher finds a match. |
| TimestampPattern.StripFromUnmatched | src/components/ExportPanel.tsx:75 | Where no match starts, the replacement copies the text through unchanged. |
| TimestampPattern.StripFromFirstMatch | src/components/ExportPanel.tsx:75 | The replacement keeps the text before the first match, deletes that match whole and resumes right after it, so the result is the input with its leftmost non-overlapping matches removed. |
| TimestampPattern.StripDeletesMatches | src/components/ExportPanel.tsx:75 | Every character kept comes from the input. |
| TimestampPattern.NoBracketUnchanged | src/components/ExportPanel.tsx:75 | Text without `[` is left unchanged. |
| TimestampPattern.StripsSenderTimestamp | src/components/ExportPanel.tsx:75 | "[Anna 12-05 10:30]!" becomes "!". |
| Js.ReplaceAllLeavesNone | src/components/ExportPanel.tsx:76 | After replacing every `&nbsp;` by a space (or any pattern by a non-empty text sharing no character with it), no occurrence is left. |
| Js.TrimIsInfix | src/components/ExportPanel.tsx:77 | `trim` removes a run of whitespace from each end and nothing else. |
| Js.TrimEnds | src/components/ExportPanel.tsx:77 | A trimmed string neither starts nor ends with whitespace. |
| Js.TrimKeepsAbsence | src/components/ExportPanel.tsx:77 | What does not occur in a string does not occur in its trim. |
| Js.PrefixSubstring | src/components/ExportPanel.tsx:79 | `substring(0, n)` is the first `n` characters, or the whole string when shorter. |
| Js.NatToStringRoundTrip | api/create-case/index.js:83 | The decimal rendering of a status reads back as the status. |
| Js.IncludesIffOccurs | api/bot/index.js:86 | `includes` holds exactly when the text occurs at some offset. |
| Js.ObjectField | api/create-case/index.js:52-60 | In an object literal, a key no other entry repeats is present exactly when its value is defined, and then holds that value. |
| Js.ToLower | api/bot/index.js:77 | Lower-casing keeps the length and maps each character on its own. |

## Left out

- Logging, `console` output and the JWT debug decoding in `api/bot` (`api/bot/index.js:120-184`) are not modelled.
  - One of them can change a response: a truthy non-string `text` in the body makes the debug log at `api/bot/index.js:182` call `substring` on it and throw before the adapter runs. The model covers that only as an exception before the turn (`AdapterRun.ThrewBeforeTurn`), which is an input.
- The Bot Framework SDK is not modelled; it is an input (`AdapterRun`, `TeamsTurn`, the `stripped` text). This covers `CloudAdapter.process` (including the status of any answer it writes itself, such as its 401 for an unauthenticated request), JWT validation, `BotFrameworkAdapter.processActivity` (except its final `res.status` call, `BotMessages.ResStatusError`) and `TurnContext.removeRecipientMention`.
  - `removeRecipientMention` also writes the mention-stripped text back into `activity.text` and returns that text; the model reads the echo from the returned `stripped` text accordingly (`TeamsBot.TextAfterStrip`). Which mention it strips is not modelled. Of `BotFrameworkAdapter.createContext` only the fact that its argument becomes the turn's activity is modelled (`BotAuth.RequestAsActivity`).
  - The SDK's dispatch order is assumed: conversation-update handlers, then members-added handlers. An installation update counts as an add for the actions "add" and "add-upgrade".
- The Teams SDK (`app.initialize`, `app.getContext`) becomes a `settled` flag and an optional context. The order of React state updates and re-renders is not modelled.
- React rendering, the error boundary, the preview card and the toasts' styling are not modelled; a toast is its title, description and variant.
- Network calls, the clock and the browser locale are parameters.
  - `Date.now()`, `toISOString()` and `toLocaleString()` give the values `now`, `isoNow` and `localeTime`.
- `api/health` and `api/log-debug` are context, not part of this model.
- Strings are sequences of Unicode scalar values. JavaScript's UTF-16 code units differ only for characters outside the Basic Multilingual Plane, where `length`, `substring` and the title limit count differently.
- Js.ToLower: lower-cases ASCII letters only; JavaScript's full Unicode case mapping is not modelled.
- JSON numbers are integers, because nothing in the core reads a fractional number.
- ExportPanel.ErrorDescription: every error the panel can meet is an `Error`. The default text "Failed to create case. Please try again." for a thrown non-`Error` value is therefore unreachable in the model.
- `api/jwt-test`'s catch block (`api/jwt-test/index.js:88-98`) is not modelled: no statement in its `try` block can throw for a parsed body.
- TeamsBot.TurnReplies: assumes the `onTurnError` notice itself is delivered. A second send failure inside `onTurnError` is swallowed by its `catch {}` and not modelled.
- TeamsBot.ErrorMapping: assumes every thrown value is an object that `JSON.stringify` accepts; under that assumption the 500 depends only on the error's message and stack.
  - A thrown `null` or `undefined` makes the catch block's own `error.name` throw (`api/bot/index.js:197`, `api/messages/index.js:144`).
  - An error with a circular reference or a BigInt field makes `JSON.stringify(error, null, 2)` throw (`api/bot/index.js:195`).
  - In both cases the catch block fails before `context.res` is set, so the function ends without the 500. `JsError` cannot express such values, so this is not modelled.
- BotAuth.HandleIntended: reads the body's `type` and `text` only when they are strings. A non-string `text` would be rendered by JavaScript's own conversion in the echo; the model treats it as absent.
- Reading the body of an answer can fail (`response.text()` or `response.json()` rejecting); both are inputs (`CreateCase.UpstreamText`, `CreateCase.UpstreamJson`, `ExportPanel.BodyText`, `ExportPanel.ParsedBody`).

## Findings

| source | as written | input that shows it | evidently intended | confidence | as-written member | corrected member |
|---|---|---|---|---|---|---|
| api/bot-auth/index.js:52 | The turn context is created from the HTTP request object, so the turn's activity has no `type` and the echo rule never fires. | A POST with an `Authorization` header and the body `{"type": "message", "text": "hi"}`: the answer is a 200 and no reply is sent. | The turn runs on the activity in the body (`activity`, read at line 48), and the message is answered with "Echo: hi". | not executed; rests on `BotFrameworkAdapter.createContext` taking its argument as the activity | BotAuth.NeverReplies | BotAuth.MessageEchoes |
| api/bot-messages/index.js:12 | The Functions `context` is passed as `processActivity`'s response object; the adapter's closing `res.status(...)` call throws a TypeError on it, so every POST becomes a 500. | A POST of a message activity with text "hi": the reply "Hello there! 👋" is sent, then the answer is `500 {"error": "res.status is not a function"}`. | A response object the adapter can write to: a turn that completes is answered by the adapter, and only a real failure is a 500. | not executed; rests on `BotFrameworkAdapter.processActivity` ending with `res.status(status)` | BotMessages.EveryPostFails | BotMessages.IntendedOutcomes |
