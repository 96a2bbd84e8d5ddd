# Meeting summarizer: a Dafny model of its decision logic

The application is a single page plus two server routes:

- **Editor page** (`app/page.js`). The user pastes or uploads a meeting transcript, adds an optional instruction, asks for a summary, edits it, and emails it.
- **Summarisation route** (`POST /api/summarize`). It validates the transcript and picks the instruction. It clips the transcript to 20,000 characters and builds a prompt for Gemini. From Gemini's answer it takes the text of the first candidate.
- **Email route** (`POST /api/send`). It validates the summary and normalises the recipients (comma-split, trimmed, empties dropped). It then answers from mock mode, reports missing configuration, or sends the email through Resend.

This project models the decision logic of those three files as pure Dafny functions over an abstract JSON value, and proves what they promise.

| file | module | contents |
|---|---|---|
| `optional.dfy` | `Optional` | `Option` (None stands for `undefined`) and `Result` (a value, or the text of a thrown error) |
| `text.dfy` | `Text` | the JavaScript string operations used: `trim`, `split`/`join`, `filter(Boolean)`, `slice(0, n)`, ASCII `toLowerCase`, `endsWith` |
| `json.dfy` | `Json` | JSON values; property read `v?.key`, truthiness, `String(v)`, `JSON.stringify` |
| `http.dfy` | `Http` | replies, the outcomes of reading the request and of the upstream call, the environment, `safeJson` |
| `recipients.dfy` | `RecipientList` | the recipient-string normalisation and its laws |
| `send_route.dfy` | `SendRoute` | the email route |
| `summarize_route.dfy` | `SummarizeRoute` | the summarisation route |
| `editor.dfy` | `Editor` | the page: its state, the file allow-list, the button predicates, the error line, every transition |
| `session.dfy` | `Session` | the page and the routes together |

The routes take their I/O as inputs:

- `parse` stands for `JSON.parse`: `Some(value)`, or `None` when it throws.
- `upstream` stands for the single `fetch` to Gemini or Resend. It maps the outgoing request to `Answer(ok, rawText)`, or to `Unreachable(thrown)` when `fetch` throws, where `thrown` is `String(e)` of the error.
- `Inbound` is what `await req.json()` produced, or `Unparsable(thrown)` with `String(e)` of the error it threw.
- `Env` is the environment. A variable counts as set when it is present and non-empty, which is JavaScript truthiness.

Page transitions return a new `State`. Each transition states, with `SameExcept`, the fields it does not touch.

Two behaviours of the code worth noting:

- `HandleFile` does change the state on a rejected file. It clears the error and the notice, then sets the rejection error (lines 20-28 of `app/page.js`).
- A truthy `prompt` that is not a string makes `prompt.trim()` throw. The route then answers with the catch-all 500 "Unexpected error" (`SummarizeRoute.Instruction`).

## Model

| member | source | states |
|---|---|---|
| Text.Trim | app/api/send/route.js:19 | the trimmed text is a slice of the input with only whitespace cut from either end; it has no whitespace at either end, is empty exactly when the input is blank, and leaves already-trimmed text unchanged |
| Text.Clip | app/api/summarize/route.js:24-25 | the clipped transcript is the prefix of length min(length, 20000), and the whole transcript when it fits |
| Text.SplitJoin | app/api/send/route.js:18 | splitting the comma-join of comma-free entries gives the entries back |
| Text.SplitAllBlank | app/api/send/route.js:17-20 | every piece of the split is blank exactly when the string holds only separators and whitespace |
| Text.LowerAscii | app/page.js:23 | lower-casing keeps the length and leaves no upper-case ASCII letter: each one becomes its lower-case letter and every other character is kept |
| Json.Lookup | app/api/send/route.js:82 | a property read finds a value exactly when the object has the key, and the value found is bound to that key |
| Json.Stringify | app/page.js:67 | `JSON.stringify` of any value is non-empty, and its first character is `"`, `[` or `{` exactly for strings, arrays and objects |
| Http.FailureWithDetails | app/api/summarize/route.js:65-68 | the error reply carries the status, the error text under `error` and the details under `details` |
| Http.Unexpected | app/api/send/route.js:85-89 | the catch-all reply is 500 "Unexpected error" with the error text as details |
| Http.SafeJson | app/api/summarize/route.js:104-110 | the parsed value when the text parses, otherwise an object whose `raw` is the text; it never fails |
| Http.SafeJsonFallbackText | app/api/summarize/route.js:104-110 | text that does not parse is reported as the JSON `{"raw":...}` holding the quoted text |
| RecipientList.SplitRecipients | app/api/send/route.js:16-20 | every entry is non-empty, trimmed and comma-free; the list is empty exactly when the string holds only commas and whitespace |
| RecipientList.SplitRecipientsIdempotent | app/api/send/route.js:16-20 | joining the entries with commas and normalising again gives the same entries |
| RecipientList.SplitRecipientsAppend | app/api/send/route.js:16-20 | entries keep their order: the entries of `a,b` are those of `a` followed by those of `b` |
| RecipientList.SplitRecipientsSingle | app/api/send/route.js:16-20 | a comma-free string gives no entry when blank and its trimmed self otherwise |
| RecipientList.SplitRecipientsTrailingComma | app/api/send/route.js:16-20 | a trailing comma adds no entry |
| RecipientList.SplitRecipientsExample | app/api/send/route.js:16-20 | `"a@x.com, b@y.com ,"` gives `["a@x.com", "b@y.com"]` |
| SendRoute.RejectsSummary | app/api/send/route.js:5 | the guard rejects exactly the values that are not a string with a non-whitespace character |
| SendRoute.Recipients | app/api/send/route.js:13-21 | an array is kept as it is, a string becomes its normalised entries in order, and anything else gives no recipients |
| SendRoute.SubjectOrDefault | app/api/send/route.js:53 | the subject when it is truthy, otherwise the string "Meeting Summary" |
| SendRoute.MockReply | app/api/send/route.js:30-35 | the mock reply is 200 with `ok` true, id "mock-id", the recipient list and the subject |
| SendRoute.Prepare | app/api/send/route.js:5-55 | summary check first, then recipients (400 exactly when either fails), then mock mode, then API key before sender (500 exactly when configuration is missing); a payload is built exactly when both checks pass, mock mode is off and both credentials are set; the payload carries the key, sender, non-empty recipients, defaulted subject and the summary unchanged |
| SendRoute.DeliveryId | app/api/send/route.js:82 | the id is the body's `id` when that is truthy, otherwise the whole body |
| SendRoute.ReceiptId | app/api/send/route.js:66-84 | an accepted email whose answer is not JSON reports the object `{raw}` as its id; one whose JSON has a non-empty string `id` reports that id |
| SendRoute.Complete | app/api/send/route.js:66-84 | a failed fetch gives the catch-all reply; a non-ok status gives 502 "Email send failed" with the safely parsed body as details; success gives 200 with `ok` true and the delivery id |
| SendRoute.Post | app/api/send/route.js:1-91 | the status is one of 200, 400, 500 and 502; 400 exactly when the body's summary or recipients are rejected; an unreadable or null body gives the catch-all 500 |
| SendRoute.MockIgnoresConfiguration | app/api/send/route.js:29-35 | in mock mode the reply does not depend on the credentials, the parser or the upstream service |
| SendRoute.MockReplyShape | app/api/send/route.js:29-35 | a valid request in mock mode gets 200, id "mock-id" and the normalised recipient list |
| SummarizeRoute.RejectsTranscript | app/api/summarize/route.js:5 | the guard rejects exactly the values that are not a string with a non-whitespace character |
| SummarizeRoute.Instruction | app/api/summarize/route.js:19-21 | a non-blank string prompt gives its trimmed text; a falsy or blank one gives the default; any other truthy value throws; every instruction is non-empty and trimmed |
| SummarizeRoute.UserPrompt | app/api/summarize/route.js:27-39 | the prompt is the rule lines, the instruction line, an empty line, `Transcript:` and the clipped transcript, so it ends with the clipped transcript |
| SummarizeRoute.PromptCarriesClippedTranscript | app/api/summarize/route.js:24-39 | a transcript over 20,000 characters reaches the model as exactly its first 20,000 characters, and a shorter one reaches it whole |
| SummarizeRoute.Prepare | app/api/summarize/route.js:5-39 | 400 exactly when the transcript is rejected; then 500 when the key is missing; the call is made exactly when both pass and the instruction does not throw, with the key and the prompt built from the clipped transcript |
| SummarizeRoute.PartsPipeline | app/api/summarize/route.js:76-79 | the map/filter pipeline keeps exactly the non-empty string texts of the parts, in order |
| SummarizeRoute.PartsSummaryMeaning | app/api/summarize/route.js:75-80 | the joined summary is empty exactly when no part has a non-empty string text; splitting it on newlines gives the texts back when none contains a newline |
| SummarizeRoute.ExtractSummary | app/api/summarize/route.js:72-83 | the joined part texts of the first candidate when non-empty, otherwise `content.text` when it is a string, otherwise empty |
| SummarizeRoute.BlankPartHidesContentText | app/api/summarize/route.js:75-83 | a part whose text is only whitespace is kept, so `content.text` is not consulted |
| SummarizeRoute.Complete | app/api/summarize/route.js:63-95 | a failed fetch gives the catch-all reply; a non-ok status gives 502 "LLM request failed" with the safely parsed body; a blank summary gives 500 "No summary generated" with the data; 200 exactly when the summary is non-blank, carrying it |
| SummarizeRoute.Post | app/api/summarize/route.js:1-102 | the status is one of 200, 400, 500 and 502; a 200 reply carries a non-blank string summary; 400 exactly when the transcript is rejected; an unreadable or null body gives the catch-all 500 |
| Editor.HandleFile | app/page.js:19-33 | error and notice are cleared; no file changes nothing else; a rejected name sets only the error; an accepted one replaces the transcript with the file's text and records the name as given |
| Editor.CanGenerate | app/page.js:166 | Generate is enabled exactly when nothing is loading and the transcript is not blank |
| Editor.CanSend | app/page.js:214 | Send is enabled exactly when nothing is sending and both the summary and the recipients are not blank |
| Editor.ErrorText | app/page.js:73 | the shown error text is never empty and is the message itself when that is non-empty |
| Editor.DetailsSuffix | app/page.js:67 | no details when they are falsy; string details appended whole; other details as at most 500 characters of their JSON, a prefix of it |
| Editor.FailureMessage | app/page.js:67-68 | the error line is the reply's error (or the fallback) followed by the details, and is never empty |
| Editor.GenerateRequest | app/page.js:63 | the posted body carries the transcript and the instruction as strings |
| Editor.GenerateStart | app/page.js:56-58 | starting clears both alert lines and raises the loading flag, nothing else |
| Editor.GenerateFinish | app/page.js:65-76 | success replaces only the summary and the notice; failure sets only the error line; a 2xx `null` body shows the TypeError from reading `summary` of null; the loading flag drops either way |
| Editor.SendRequest | app/page.js:87 | the posted body carries the summary, the recipient string and the subject |
| Editor.SendStart | app/page.js:80-82 | starting clears both alert lines and raises the sending flag, nothing else |
| Editor.SendFinish | app/page.js:89-99 | success sets only the notice; failure sets only the error line; the sending flag drops either way |
| Editor.ClearTranscript | app/page.js:174 | only the transcript is emptied, and Generate is then disabled |
| Editor.ClearSummary | app/page.js:222 | only the summary is emptied, and Send is then disabled |
| Editor.Edit | app/page.js:147 | typing into an input replaces its own field and nothing else |
| Editor.AllowedIgnoresCase | app/page.js:23-25 | a name is accepted exactly when its lower-cased form is |
| Editor.AllowedFileExamples | app/page.js:23-25 | "Notes.TXT" and "a.markdown" are accepted and "notes.pdf" is not |
| Editor.GenerateCycle | app/page.js:55-77 | after a generate round trip the flag is down, exactly one alert line shows, and only the summary and the alerts may have changed |
| Editor.SendCycle | app/page.js:79-100 | after a send round trip the flag is down, exactly one alert line shows, and no typed field has changed |
| Session.GenerateAgreesWithRoute | app/page.js:166 | the route rejects the page's request exactly when the transcript is blank, so an enabled Generate never gets 400 |
| Session.GenerateReplyUsable | app/page.js:70-71 | a successful summarisation reply always carries a string summary, which the page shows with its notice |
| Session.RouteErrorShown | app/page.js:67-68 | a route's `{error}` reply is shown as the error text, and string details follow after the label |
| Session.SendAgreesWithRoute | app/api/send/route.js:5-27 | the email route rejects the page's request exactly when the summary is blank or the recipients hold only commas and whitespace |
| Session.CommaOnlyRecipients | app/page.js:214 | the recipient string "," enables Send, yet the route answers 400 and the page shows "At least one recipient is required" |
| Session.MockSendSucceeds | app/api/send/route.js:30-35 | in mock mode an enabled Send with at least one address ends with the success notice and no error |
| Session.LiveSendSucceeds | app/api/send/route.js:57-84 | with both credentials set and Resend accepting, an enabled Send with at least one address gets 200 with `ok` true and ends with the success notice and no error |
| Session.UnparsableUpstreamFailureShown | app/page.js:66-68 | an upstream failure whose body is not JSON is shown as the route's error, the details label and at most 500 characters of `{"raw":...}`, for both routes |

## Left out

- The network. `fetch`, the URLs, the request headers (including the `Authorization` bearer header), `encodeURIComponent` of the key and the response headers are outside the model. The upstream call is a function parameter.
- Gemini's request envelope. The `contents`/`parts` wrapper and the 0.3 temperature are not modelled. `LlmRequest` holds the key and the prompt only, and numbers in this model are integers.
- `JSON.parse` is a parameter, not a parser. `JSON.stringify` is modelled for integer numbers, and objects are lists of properties with distinct keys.
- Text semantics. Strings are sequences of characters: `length` and `slice` count characters, not UTF-16 code units. `toLowerCase` is modelled for ASCII letters only.
- `Editor.ErrorText`: the thrown error's own name is taken to be `Error`. For another error class with an empty message the page would show that class's name instead.
- `Editor.GenerateFinish`: requires that a 2xx reply whose body is not `null` carries a string `summary`. For any other such body the page stores a non-string and its next render throws at `summary.length` (line 194 of `app/page.js`) or `summary.trim()` (line 214), which a state model does not represent. A `null` body is modelled: reading `data.summary` throws inside the `try`, the error line shows the TypeError's message, and loading drops. `Session.GenerateReplyUsable` shows that the summarisation route never sends such a reply.
- The texts of runtime TypeErrors, such as destructuring a `null` body or calling `trim` on a non-string prompt. They are written with the V8 wording, which the model does not derive.
- The unused expression on line 73 of `app/api/summarize/route.js`. It has no effect.
- React plumbing. Rendering, JSX, CSS, `toLocaleString`, drag events, the drag-highlight flag, the hidden file input, and reading a file with `file.text()` are out. `HandleFile` receives the file's name and text; a failed read is not modelled.
- Concurrency between an in-flight request and further edits is out. Each reply is applied to the state it is given.
