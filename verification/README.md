# WhatsApp session service and simulated assistant, in Dafny

This project models the core of a chatbot back end:

- `WhatsAppService` (`chatbot-backend/src/modules/whatsapp/whatsapp.service.ts`) keeps one
  WhatsApp browser session per company. Its state is three in-memory maps keyed by session
  name: the driver client, the connection state (`SocketState`) and the last QR code. It
  offers these operations:
  - `createSession`
  - `getQRCode`
  - `getSessionStatus`
  - the private `recoverSession`
  - `sendMessage`, which includes Brazilian phone-number normalisation
  - `disconnectSession`
  - the two listings
  - `isSessionConnected`
- The simulated assistant of `chatbot-backend/src/utils/trainAI.ts` has three parts:
  - training hands the company data on;
  - a keyword responder answers by the first matching rule;
  - a sentiment scorer counts positive and negative words.

The browser-automation driver is not modelled. Instead, a run of it is a *trace* of the
events that reach the service, in order (module `Driver`):

- a QR code (`catchQR`)
- a status report (`statusFind`)
- the creation promise resolving with a client
- the creation promise rejecting with a message
- the recovery timer firing

The callbacks that write into the registry are these:
- `catchQR` during creation, which stores the QR code;
- `statusFind`, which stores the mapped status;
- a resolving promise, which stores the client with status CONNECTED (during recovery only while
  recovery is unsettled).

Recovery's `catchQR`, both `.catch` handlers and the timer write nothing; they only settle the
call. A latch (the `qrCodeResolved` / `resolved` flags
together with the fact that a promise settles once) makes the **first settling event alone**
decide what the caller receives. The runs are folds over the trace, so later events still
write into the maps exactly as the callbacks do.

The modules are:

- `Wrappers`: `Option` and `Result`.
- `Strings`: substring search, ASCII/Latin-1 lower-casing, digit filtering, and newline
  join/split.
- `SocketStates`: the six states and the `statusFind` table.
- `SessionRegistry`: the three maps, the queries, `disconnectSession` and the listings.
- `Driver`: the event type and "first index where".
- `Creation`, `Recovery`, `Phone` and `Sending`: the operations of the same names.
- `Responder`: `trainAI.ts`.

Two invariants run through the service model:

- `Consistent`: every name with a client or a QR code has a status, and only CONNECTED,
  QR_READY and DISCONNECTED are ever stored.
- `OnlyTouches`: an operation on one session name changes no other name's entries.

Every operation on the registry is proved to preserve both.

## Model

| member | source | states |
|---|---|---|
| SocketStates.MapStatusFind | chatbot-backend/src/modules/whatsapp/whatsapp.service.ts:44-55 | a driver status maps to CONNECTED exactly for isLogged/inChat and to QR_READY exactly for qrReadSuccess/qrReadFail; every string gets one of the three stored states |
| SocketStates.StatusTable | chatbot-backend/src/modules/whatsapp/whatsapp.service.ts:47-54 | each row of the six-entry table, and DISCONNECTED for every string outside the table |
| SessionRegistry.GetSessionStatus | chatbot-backend/src/modules/whatsapp/whatsapp.service.ts:107-109 | a status is reported exactly for names in the status map, and it is the stored one |
| SessionRegistry.IsSessionConnected | chatbot-backend/src/modules/whatsapp/whatsapp.service.ts:327-330 | connected exactly when the reported status is CONNECTED, whether or not a client is held |
| SessionRegistry.GetQRCode | chatbot-backend/src/modules/whatsapp/whatsapp.service.ts:92-105 | three exclusive outcomes: the stored non-empty QR code whatever the status; otherwise nothing exactly when CONNECTED; otherwise the "not available" error |
| SessionRegistry.StaleQrSurvivesConnection | chatbot-backend/src/modules/whatsapp/whatsapp.service.ts:74-75 | storing the client does not clear the QR code, so an old QR code is still served for a connected session |
| SessionRegistry.DisconnectSession | chatbot-backend/src/modules/whatsapp/whatsapp.service.ts:289-301 | a logout is attempted exactly when a client is held; success removes the name from all three maps; failure leaves every map unchanged and reports the wrapped message; no client means no change; other names are untouched and consistency is kept |
| SessionRegistry.DisconnectForgetsSession | chatbot-backend/src/modules/whatsapp/whatsapp.service.ts:294-296 | after a successful disconnect the name has no status, is not connected, and getQRCode fails for it |
| SessionRegistry.Enumerate | chatbot-backend/src/modules/whatsapp/whatsapp.service.ts:304 | a finite key set becomes a duplicate-free sequence with exactly its members |
| SessionRegistry.GetAllSessions | chatbot-backend/src/modules/whatsapp/whatsapp.service.ts:303-305 | the listing holds exactly the names that have a client, each once |
| SessionRegistry.GetAllSessionsWithStatus | chatbot-backend/src/modules/whatsapp/whatsapp.service.ts:307-325 | one row per name in the union of the client and status maps, each once, with that name's status (or none) and whether a client is held |
| SessionRegistry.ListingOfConsistentRegistry | chatbot-backend/src/modules/whatsapp/whatsapp.service.ts:307-325 | in a consistent registry the union listed is just the status map's names, and every listed status is one of the three stored states |
| Creation.SessionNameFor | chatbot-backend/src/modules/whatsapp/whatsapp.service.ts:19 | the given session name if it is present and non-empty, otherwise company_ followed by the company id |
| Creation.CreationStep | chatbot-backend/src/modules/whatsapp/whatsapp.service.ts:35-85 | one driver callback writes only under its own session name and keeps consistency; a settled outcome never changes, and a pending one is settled by exactly a QR code, the client or a rejection, with the matching outcome |
| Creation.CreationRun | chatbot-backend/src/modules/whatsapp/whatsapp.service.ts:30-85 | a driver run writes only under its own session name, keeps the registry consistent, and never yields the guard's refusal |
| Creation.CreateSession | chatbot-backend/src/modules/whatsapp/whatsapp.service.ts:18-90 | refused, with the registry untouched, exactly when the name already has a client and its status is CONNECTED; otherwise exactly the driver run (registry and outcome), which touches only that name and keeps the registry consistent |
| Creation.CreationFirstOutcomeWins | chatbot-backend/src/modules/whatsapp/whatsapp.service.ts:31-43 | the caller's outcome is set by the first QR, client or rejection event in the trace (paired with that QR, authenticated, or failed); with none the call is still pending |
| Creation.CreationOutcomeLatched | chatbot-backend/src/modules/whatsapp/whatsapp.service.ts:39-41 | once the outcome is settled, any further events leave it unchanged |
| Creation.CreationRegistryFollowsLastEvents | chatbot-backend/src/modules/whatsapp/whatsapp.service.ts:37-38 | callbacks write whether or not the latch is closed: the stored QR is the last one emitted, the status is the one written by the last QR, status or client event, and the client is the last one resolved |
| Creation.CreationQrIsLastEmitted | chatbot-backend/src/modules/whatsapp/whatsapp.service.ts:37 | the QR map under the name holds the last QR code of the trace, or its old entry if none was emitted |
| Creation.CreationStatusIsLastWritten | chatbot-backend/src/modules/whatsapp/whatsapp.service.ts:38 | the status under the name is QR_READY, the mapped driver status or CONNECTED, following the last event that writes one |
| Creation.CreationClientIsLastResolved | chatbot-backend/src/modules/whatsapp/whatsapp.service.ts:74-75 | the client under the name is the one the promise resolved with, even after a QR code settled the call |
| Creation.QrThenClientExample | chatbot-backend/src/modules/whatsapp/whatsapp.service.ts:35-43 | on a fresh service, a QR code followed by the client gives the caller the QR code, while the status moves from QR_READY to CONNECTED and the client is stored |
| Creation.QrRetrievableAfterPairing | chatbot-backend/src/modules/whatsapp/whatsapp.service.ts:92-97 | after a paired creation, getQRCode returns the most recent QR code the driver emitted |
| Creation.CreationAllowedAfterDisconnect | chatbot-backend/src/modules/whatsapp/whatsapp.service.ts:22-27 | after a successful disconnect of a session, creating it again is never refused as already connected |
| Recovery.ClassifyRejection | chatbot-backend/src/modules/whatsapp/whatsapp.service.ts:188-200 | a rejection becomes the desynchronisation error exactly when its message contains "browser is already running"; otherwise it is passed on unchanged |
| Recovery.RecoveryStep | chatbot-backend/src/modules/whatsapp/whatsapp.service.ts:144-202 | one recovery callback: a status report always writes its mapped state; the client is stored, with CONNECTED, only while nothing has settled; a QR code writes nothing; a settled outcome never changes, and a pending one is settled by every event except a status report |
| Recovery.RecoveryRun | chatbot-backend/src/modules/whatsapp/whatsapp.service.ts:142-202 | a recovery run writes only under its own name, never changes the QR map, and keeps consistency; if it recovered a client, that client is stored |
| Recovery.RecoverSession | chatbot-backend/src/modules/whatsapp/whatsapp.service.ts:128-216 | recovery always settles (the timer settles a trace that did not); the registry is exactly the one the driver run leaves, timeout included; a recovered client is the stored one; the QR map is unchanged; only that name is touched; consistency is kept |
| Recovery.RecoveryFirstOutcomeWins | chatbot-backend/src/modules/whatsapp/whatsapp.service.ts:137-210 | the first non-status event decides: a QR code means re-pairing is required, the client means recovered, a rejection is classified, the timer means timeout; with none, timeout |
| Recovery.RecoveryRunFirstOutcome | chatbot-backend/src/modules/whatsapp/whatsapp.service.ts:146-147 | for any trace prefix, the outcome is unsettled exactly until the first settling event, and that event's outcome afterwards |
| Recovery.LateClientIsDropped | chatbot-backend/src/modules/whatsapp/whatsapp.service.ts:179-187 | the client map changes exactly when the winning event is the client; a client arriving after a QR code, rejection or timeout is never stored |
| Recovery.RecoveryStatusIsLastWritten | chatbot-backend/src/modules/whatsapp/whatsapp.service.ts:151-162 | the status recovery leaves under the name: CONNECTED overridden by later status reports when the client wins; otherwise the last status report, or the old entry |
| Recovery.RecoveredSessionIsConnected | chatbot-backend/src/modules/whatsapp/whatsapp.service.ts:179-185 | when the client wins recovery and no status report follows, that client is recovered and the session is CONNECTED |
| Recovery.RecoveryErrorsNeverMentionBrowser | chatbot-backend/src/modules/whatsapp/whatsapp.service.ts:188-208 | no error message recovery rejects with contains "browser is already running" |
| Recovery.FixedMessagesAvoidBrowser | chatbot-backend/src/modules/whatsapp/whatsapp.service.ts:148-208 | none of the three fixed recovery messages contains the browser phrase |
| Recovery.DesynchronizedExample | chatbot-backend/src/modules/whatsapp/whatsapp.service.ts:192-196 | a first rejection whose message contains the browser phrase anywhere ends in the desynchronisation error |
| Recovery.QrFirstNeedsRePairing | chatbot-backend/src/modules/whatsapp/whatsapp.service.ts:144-150 | a QR code as the first event ends recovery with the "pair again" error |
| Recovery.TimerFirstTimesOut | chatbot-backend/src/modules/whatsapp/whatsapp.service.ts:205-210 | the timer firing first ends recovery with the timeout error |
| Phone.NormalizePhone | chatbot-backend/src/modules/whatsapp/whatsapp.service.ts:259-277 | a number is accepted exactly when its digits number at least 12, or are 10 or 11 without a leading 55; an accepted number is all digits, at least 12 long, and gains 55 exactly in the 10/11-digit case; the country-code error is raised exactly for fewer than 10 digits without a leading 55, and every other refusal is the too-short error carrying the digit count |
| Phone.WhatsAppAddress | chatbot-backend/src/modules/whatsapp/whatsapp.service.ts:281 | the address is the formatted number followed by exactly "@c.us" |
| Phone.NormalizeIdempotent | chatbot-backend/src/modules/whatsapp/whatsapp.service.ts:259-277 | normalising a formatted number gives it back unchanged |
| Phone.AddressKeepsNumber | chatbot-backend/src/modules/whatsapp/whatsapp.service.ts:279-282 | the digits of the address are exactly the formatted number, so normalising the address gives the same result as normalising the original input |
| Phone.NationalNumberGetsCountryCode | chatbot-backend/src/modules/whatsapp/whatsapp.service.ts:264-268 | a 10- or 11-digit national number without a leading 55 is sent to 55 + digits + @c.us |
| Phone.FullNumberUnchanged | chatbot-backend/src/modules/whatsapp/whatsapp.service.ts:263-277 | a 13-digit number already beginning with 55 is accepted unchanged |
| Phone.ThreeDigitsRefused | chatbot-backend/src/modules/whatsapp/whatsapp.service.ts:269-270 | a three-digit number is refused for lacking the country code |
| Phone.AreaCode55NationalNumberRefused | chatbot-backend/src/modules/whatsapp/whatsapp.service.ts:264-276 | a 10- or 11-digit number beginning with 55 gets no prefix and is refused as too short, reporting its length |
| Strings.KeepDigits | chatbot-backend/src/modules/whatsapp/whatsapp.service.ts:259 | the filtered number holds only digits, is no longer than the input, and contains exactly the digit characters of the input |
| Sending.SendMessage | chatbot-backend/src/modules/whatsapp/whatsapp.service.ts:218-287 | sendText is called only for a connected session with an accepted number, with the stored client, the formatted address and the text; conversely, with a client held or recovered, a CONNECTED status and an accepted number it is called with that client; with a refused number the phone error is returned and nothing is sent; when no client is held and recovery fails, the result is the "session not found" error carrying recovery's message, nothing is sent and the registry is recovery's; whenever no client is held, the registry afterwards is the one recovery leaves; the result is true exactly when sendText was called and delivered; a driver rejection becomes the send error; a held client means the registry is untouched; other names are untouched and consistency is kept |
| Sending.RecoveredClientIsSent | chatbot-backend/src/modules/whatsapp/whatsapp.service.ts:224-283 | with no client held, a recovery won by the driver's client and followed by no status report, and an accepted number, sendText is called with that client, the formatted address and the text |
| Sending.Dispatch | chatbot-backend/src/modules/whatsapp/whatsapp.service.ts:250-286 | with a client in hand, sendText is called exactly when the status is CONNECTED and the number is accepted, with that client, the formatted address and the text; otherwise the error is "not connected" with the status, or the phone error; the result is true exactly when sendText delivered; the registry is unchanged |
| Sending.SendRequiresConnected | chatbot-backend/src/modules/whatsapp/whatsapp.service.ts:250-255 | if the status after lookup or recovery is not CONNECTED, the call fails without sending, and with a client in hand the error carries that status |
| Sending.SendNeverReportsInaccessible | chatbot-backend/src/modules/whatsapp/whatsapp.service.ts:242-244 | the "running but not accessible" error is never raised, because no recovery error mentions the browser phrase it tests for |
| Sending.DesynchronizedSend | chatbot-backend/src/modules/whatsapp/whatsapp.service.ts:236-246 | with no client and a recovery rejected for the running browser, the caller gets the "session not found" error carrying the desynchronisation message, and nothing is sent |
| Responder.TrainAIWithCompanyData | chatbot-backend/src/utils/trainAI.ts:22-39 | the knowledge carries the company name, description and product list unchanged |
| Responder.DetectIntent | chatbot-backend/src/utils/trainAI.ts:53-84 | the responder falls back exactly when no rule of the table matches, and any other intent belongs to a rule that matches |
| Responder.IntentIsFirstMatchingRule | chatbot-backend/src/utils/trainAI.ts:53-91 | the keyword chain is a first match over the rule table: rule i fires exactly when it matches and no earlier rule does, and the fallback fires exactly when none match |
| Responder.RuleMatches | chatbot-backend/src/utils/trainAI.ts:53-84 | each rule matches exactly when one of its two keywords occurs in the lower-cased message |
| Responder.ProdutosImpliesProduto | chatbot-backend/src/utils/trainAI.ts:61 | the catalogue rule's second keyword is subsumed by its first |
| Responder.ProductLine | chatbot-backend/src/utils/trainAI.ts:62 | a catalogue line names the product and its price, and contains a line break only if one of them does |
| Responder.AnswerFor | chatbot-backend/src/utils/trainAI.ts:52-91 | the answer for each intent has the confidence that identifies that intent (0.9 greeting, 0.8 catalogue or contact, 0.7 pricing, 0.5 fallback), names the company in the greeting and fallback texts, offers three actions only in the fallback, is the product listing between the fixed header and footer for the catalogue, and is the fixed pricing or contact text for those intents |
| Responder.GenerateAIResponse | chatbot-backend/src/utils/trainAI.ts:42-92 | the reply answers the intent detected in the lower-cased message: confidence is 0.9 exactly for greetings, 0.8 exactly for catalogue or contact, 0.7 exactly for pricing and 0.5 exactly for the fallback; greeting and fallback answers name the company; the fallback offers three actions and every other answer two; the catalogue answer is header, product listing and footer; the pricing and contact answers are their fixed texts |
| Responder.CatalogueListsEveryProduct | chatbot-backend/src/utils/trainAI.ts:61-67 | for single-line product texts, the catalogue answer is header, listing and footer, and splitting the listing on newlines gives back exactly one line per trained product, in order |
| Responder.ResponseIgnoresCase | chatbot-backend/src/utils/trainAI.ts:50 | the answer to a message equals the answer to its lower-cased form |
| Strings.ToLower | chatbot-backend/src/utils/trainAI.ts:50 | lower-casing keeps the length, leaves no ASCII or Latin-1 capital, and keeps every other character in place |
| Strings.AsciiLowerCase | chatbot-backend/src/utils/trainAI.ts:50 | each of the 26 ASCII capitals becomes its own small letter, as the alphabet tables pair them |
| Strings.Latin1LowerCase | chatbot-backend/src/utils/trainAI.ts:99 | each of the 30 Latin-1 capitals (À to Þ without the multiplication sign) becomes its own small letter |
| Responder.ShoutedGreetingGreets | chatbot-backend/src/utils/trainAI.ts:50-52 | the upper-case message "OI" is answered as a greeting |
| Responder.HitCountCountsOccurringWords | chatbot-backend/src/utils/trainAI.ts:101-102 | the filtered count is the number of listed words that occur in the message |
| Responder.HitCount | chatbot-backend/src/utils/trainAI.ts:101-102 | the count of listed words present is at most the list length, and zero exactly when no listed word occurs |
| Responder.AnalyzeSentiment | chatbot-backend/src/utils/trainAI.ts:95-107 | positive exactly when more positive than negative words occur, negative exactly for the reverse, neutral exactly on a tie |
| Responder.SentimentIgnoresCase | chatbot-backend/src/utils/trainAI.ts:99 | the sentiment of a message equals that of its lower-cased form |
| Responder.NaoGosteiIsNeutral | chatbot-backend/src/utils/trainAI.ts:96-106 | "não gostei" hits "gostei" on the positive side and "não gostei" on the negative side, so it scores neutral |

## Left out

- The driver (`wppconnect.create`, `sendText`, `logout`) is not modelled. Its behaviour is an
  input: a trace of events, a `SendReply` or a `LogoutReply`.
- Puppeteer options and `autoClose`: these configure the browser inside the driver. What they
  cause, such as the auto-close of an unpaired session, reaches the service only as driver events
  (a status report or a rejection), which the event trace already covers.
- `killBrowserProcess` (whatsapp.service.ts:111-126): a private method nothing calls; it only checks
  whether the session's token directory exists and logs.
- Console logging is not modelled.
- The ten-second timer: it is an explicit `TimedOut` event. A recovery trace that ends
  unsettled counts as timed out, because the real timer always fires eventually.
- `Sending.SendMessage` takes as its recovery trace the events the driver delivers to recovery
  before the call resumes. Callbacks that arrive after the caller resumes are not modelled.
- Concurrent calls are not modelled; each operation runs to completion on one registry. This
  covers two `createSession` runs for the same name and a `statusFind` arriving during a
  `sendMessage`.
- The listings are sets turned into duplicate-free sequences. JavaScript `Map`/`Set`
  insertion order is not modelled.
- `toLowerCase` is modelled for ASCII and the Latin-1 capitals only.
- Product prices are carried as the text JavaScript prints for the number. Number-to-string
  formatting is not modelled.
- `trainAIWithCompanyData` returns a JSON string, and `generateAIResponse` parses it back. The
  model passes the `Knowledge` record directly. The JSON round trip and the `trainedAt`
  timestamp are not modelled.
- Error values are modelled as their message strings or as error constructors. JavaScript
  `Error` objects and stack traces are not modelled.
- Responder.GenerateAIResponse: states how many actions each answer suggests, not their labels,
  and that the greeting and fallback texts name the company, not the rest of their wording.
- Responder.AnswerFor: the same two omissions as GenerateAIResponse, which it implements.
