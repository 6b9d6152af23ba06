# Gmail label classifier: a Dafny model of the classification run

This project models the "run classification" pipeline of a small Gmail
labelling service. A user has labels of their own:

- The `POST /api/classify` handler (backend/server.js) fetches those labels and lists up to 20 unread inbox messages.
- For each message it builds `{from, subject, body: snippet}` and asks `classifyEmailWithGemini` (backend/geminiClassifier.js) for a label.
- It adds the label to the message when one is chosen.
- It replies with the number of messages it labelled, or with a 500 when anything throws.

The model has four modules:

- `Strings` (strings.dfy): ASCII models of `trim`, `toLowerCase` and `join`.
- `GeminiClassifier` (gemini_classifier.dfy): the label selector as a pure function. `Classify` returns `Selected(label)` or `NoDecision`, together with the prompt it sent, if any. The Gemini reply for that prompt is an input, `Text(text)` or `Failure`, and the presence of the API key is a flag.
- `ClassifyEndpoint` (classify_endpoint.dfy): the handler.
  - `ClassifyRun` is the specification of one run. It returns the response and the trace of every external call in order (`ListLabels`, `ListMessages`, `GetMessage`, `AskOracle`, `ModifyMessage`). `Tally` is the specification of the message loop and `Visit` of one iteration.
  - `HandleClassify`, its loop `ClassifyMessages` and the loop body `VisitMessage` are imperative: a counter, a growing call list, and an early return on a thrown error. `HandleClassify` is proved equal to `ClassifyRun`, `ClassifyMessages` to `Tally`, and `VisitMessage` to `Visit`.
  - What Gmail answers is an input (`Mailbox`, `ListedMessage`). Each listed message carries its `get` result, the oracle's reply to its prompt, and whether `modify` succeeds.
- `ClassifyProperties` (also classify_endpoint.dfy): what a run guarantees. `ModifyLog` projects the trace to the `(messageId, labelId)` pairs of the `modify` calls, and `FetchedIds` to the ids fetched.

`Scenarios` (scenarios.dfy) works concrete runs through the model.

Behaviour of the code that the model keeps:

- A message without a `From` or `Subject` header makes `headers.find(...).value` throw, so the whole run fails with a 500.
- A failed `messages.modify` throws too, so it also fails the whole run; labels applied to earlier messages stay applied.
- A missing API key makes `classifyEmailWithGemini` return `"NONE"` for every message. The run goes on, messages are still fetched, and the count is 0 (`RunWithoutApiKey`).
- The response carries only the count of messages labelled.
- An empty or missing reply text is matched like any other name: it selects a label whose name is the empty string, if the catalog has one.

## Model

| member | source | states |
|---|---|---|
| Strings.Lower | backend/geminiClassifier.js:75 | `toLowerCase` keeps the length and lower-cases each character independently (ASCII A-Z) |
| Strings.LowerDiffers | backend/geminiClassifier.js:75 | names of different lengths, or with first letters that differ ignoring case, never become equal once lower-cased |
| Strings.TrimStart | backend/geminiClassifier.js:69 | the result is the suffix of the input that starts at its first non-space; everything dropped is whitespace |
| Strings.TrimEnd | backend/geminiClassifier.js:69 | the result is the prefix of the input that ends at its last non-space; everything dropped is whitespace |
| Strings.Trim | backend/geminiClassifier.js:69 | a trimmed reply neither starts nor ends with whitespace |
| Strings.TrimSlice | backend/geminiClassifier.js:69 | a trimmed reply is a contiguous slice of the reply, with only whitespace cut off on either side |
| Strings.TrimPadded | backend/geminiClassifier.js:69 | trimming a word padded with whitespace on both sides gives back exactly the word |
| Strings.Join | backend/geminiClassifier.js:30 | `join(sep)`: the empty list gives "", one element gives itself; `JoinAppend` states how it grows, so the names appear in order with `sep` between neighbours |
| Strings.JoinAppend | backend/geminiClassifier.js:30 | `join(", ")` keeps order: joining one more name appends the separator and that name |
| GeminiClassifier.Names | backend/geminiClassifier.js:30 | `map(l => l.name)` lists every label's name, in catalog order |
| GeminiClassifier.HasBody | backend/geminiClassifier.js:24 | the guard `!emailContent.body`: the snippet is present and non-empty; `Classify` states that the oracle is asked exactly when it holds and the key is present |
| GeminiClassifier.Prefix | backend/geminiClassifier.js:42 | `substring(0, n)`: the result is the first `n` characters, or the whole string when it is shorter |
| GeminiClassifier.BuildPrompt | backend/geminiClassifier.js:30-42 | the prompt lists all label names joined by ", " in catalog order, carries the sender and subject, and carries the first 1500 characters of the body (all of it when shorter) |
| GeminiClassifier.ReplyName | backend/geminiClassifier.js:69 | the name looked up: the trimmed text, or "" without text; `MissingTextIsEmptyReply`, `PaddedReplySelectsSameLabel` and `ReplyCaseIgnored` state what it means for the outcome |
| GeminiClassifier.FirstMatch | backend/geminiClassifier.js:75 | `find` returns the first label whose lower-cased name equals the lower-cased reply, or nothing when no label matches |
| GeminiClassifier.Classify | backend/geminiClassifier.js:9-95 | the oracle is asked, with the built prompt, exactly when the key is present and the body is non-empty; a decision is always a whole catalog entry matching the trimmed reply; an oracle failure yields no decision; otherwise the first matching label is selected, and there is no decision only when nothing matches |
| GeminiClassifier.SelectsFirstMatching | backend/geminiClassifier.js:75-80 | when several labels match, the first one in catalog order is returned |
| GeminiClassifier.UnknownReplyIsNoDecision | backend/geminiClassifier.js:81-86 | a reply that names no catalog label yields `NONE` |
| GeminiClassifier.MissingTextIsEmptyReply | backend/geminiClassifier.js:69 | a response without text is classified exactly like the empty reply |
| GeminiClassifier.PaddedReplySelectsSameLabel | backend/geminiClassifier.js:69 | whitespace around the reply does not change the classification |
| GeminiClassifier.FirstMatchIgnoresCase | backend/geminiClassifier.js:75 | two names equal up to case find the same label |
| GeminiClassifier.ReplyCaseIgnored | backend/geminiClassifier.js:69-75 | replies equal up to case and surrounding whitespace classify identically |
| GeminiClassifier.SameMatchSameClassification | backend/geminiClassifier.js:69-86 | the reply enters the result only through the label it matches |
| GeminiClassifier.InvoicesSelectsInvoices | backend/geminiClassifier.js:69-80 | the reply "Invoices" selects the label named "invoices", as the full label object |
| ClassifyEndpoint.UserLabels | backend/server.js:88 | the catalog holds exactly the labels of type `user` and is no longer than the label list |
| ClassifyEndpoint.UserLabelsAppend | backend/server.js:88 | the filter keeps the original order |
| ClassifyEndpoint.FindHeaderFirst | backend/server.js:106-107 | the header lookup is absent exactly when no header has that name, and otherwise yields the value of the first header with that name |
| ClassifyEndpoint.FindHeader | backend/server.js:106-107 | `headers.find(h => h.name === name).value`, absent where `.value` would throw; `FindHeaderFirst` states it |
| ClassifyEndpoint.ContentOf | backend/server.js:104-109 | the `emailContent` of a fetched message: sender and subject from the first matching headers, body from the snippet; absent when either header is missing, which `VisitFacts` turns into a thrown iteration |
| ClassifyEndpoint.Visit | backend/server.js:103-123 | the specification of one iteration; `VisitMessage` is proved equal to it and `VisitFacts` states what it does |
| ClassifyEndpoint.Tally | backend/server.js:102-124 | the specification of the loop, stopping at the first thrown iteration; `ClassifyMessages` is proved equal to it, and `TallyLog`, `TallyAborts`, `TallyFetchesAll` and `TallyStopsAtFirstAbort` state what it does |
| ClassifyEndpoint.ListedOf | backend/server.js:99 | an absent `messages` field is read as the empty list; `RunWithoutMessages` states that such a run completes with count 0 |
| ClassifyEndpoint.ClassifyRun | backend/server.js:81-132 | the specification of one run: its reply and every external call in order; `HandleClassify` is proved equal to it and the `ClassifyProperties.Run` lemmas state what it guarantees |
| ClassifyEndpoint.TallyStops | backend/server.js:102-131 | once an iteration has thrown, the later messages change nothing |
| ClassifyEndpoint.TallyNext | backend/server.js:102-124 | one more iteration adds its calls and, when it labels, one to the count |
| ClassifyEndpoint.VisitMessage | backend/server.js:103-123 | the loop body's calls and effect are those of one iteration of the specification |
| ClassifyEndpoint.ClassifyMessages | backend/server.js:84-124 | the counting loop with its early return computes `Tally`: the count, the calls in order, and whether it threw |
| ClassifyEndpoint.HandleClassify | backend/server.js:81-132 | the handler's reply and calls are those of `ClassifyRun` |
| ClassifyProperties.VisitFacts | backend/server.js:103-123 | an iteration fetches exactly its own message. It throws exactly when the fetch fails, a header is missing, or the modify fails. It labels exactly when a label is chosen and the modify succeeds. It makes at most one modify, for that message with the chosen label's id |
| ClassifyProperties.TallySnoc | backend/server.js:102-124 | the loop over one more message is the loop so far followed by that message's iteration, unless it had thrown |
| ClassifyProperties.AssignmentsSnoc | backend/server.js:113-123 | the labelling of one more message adds its pair when a label is chosen for it |
| ClassifyProperties.TallyLog | backend/server.js:102-124 | the count never exceeds the number of messages; a loop that does not throw applies exactly `Assignments`, and its count equals the number of modifies |
| ClassifyProperties.TallyAborts | backend/server.js:102-131 | the loop throws exactly when one of its iterations throws |
| ClassifyProperties.TallyFetchesAll | backend/server.js:102-103 | a loop that does not throw fetches every message once, in query order |
| ClassifyProperties.TallyStopsAtFirstAbort | backend/server.js:102-131 | a loop that throws stops at the first message whose iteration throws: no earlier iteration threw, exactly the messages up to it were fetched, in order, and the labels applied are those chosen for the earlier messages plus the failing modify, if that is what threw |
| ClassifyProperties.TallyLabelsFromCatalog | backend/server.js:113-121 | every modify is for a listed message with the id of a catalog label |
| ClassifyProperties.TallyWithoutKey | backend/geminiClassifier.js:11-14 | without an API key the loop asks no oracle, makes no modify and counts 0 |
| ClassifyProperties.RunEmptyCatalog | backend/server.js:89-91 | an empty user catalog replies "no custom labels" after the label listing alone: no message listing, fetch, oracle call or modify |
| ClassifyProperties.RunWithoutMessages | backend/server.js:99 | a listing without a `messages` field completes with count 0 and no call after the listing |
| ClassifyProperties.RunCount | backend/server.js:97-126 | a completed run's count equals the number of modifies and never exceeds the number of listed messages, so never exceeds 20 when the provider honours `maxResults` |
| ClassifyProperties.RunAppliesAssignments | backend/server.js:102-124 | a completed run has labelled exactly the messages a label was chosen for, once each, in query order, each with the chosen label's id |
| ClassifyProperties.RunVisitsInOrder | backend/server.js:102-131 | a completed run fetched every listed message once in order; a run that fails in the loop stopped at the first message whose iteration threw, with the fetches and labels of `TallyStopsAtFirstAbort` |
| ClassifyProperties.RunLabelsFromCatalog | backend/server.js:111-121 | every label applied is a user label of the catalog, on a message the query listed |
| ClassifyProperties.RunFails | backend/server.js:128-131 | a run fails, with no count, exactly when a listing throws or a visited message throws (fetch, missing `From`/`Subject`, modify) |
| ClassifyProperties.RunWithoutApiKey | backend/geminiClassifier.js:11-14 | without an API key a run asks no oracle, labels nothing and reports count 0 |
| Scenarios.CompletedRun | backend/server.js:102-126 | a run whose loop does not throw completes with the labelling `Assignments` and its size as count |
| Scenarios.AbortedRun | backend/server.js:102-131 | a run whose loop throws fails, and the modifies made before the throw remain |
| Scenarios.ThreeMessageRun | backend/server.js:81-132 | labels {INBOX, Finance, Travel} and replies "Finance", "NONE", "Travel" give count 2, labelling m1 with L1 and m3 with L2 |
| Scenarios.OnlySystemLabels | backend/server.js:88-91 | a mailbox with only system labels gets the "no custom labels" reply |
| Scenarios.MissingSubjectAborts | backend/server.js:106-131 | a message without `Subject` after a labelled one fails the run; the earlier label stays applied |

## Left out

- OAuth, sessions, `isLoggedIn` and `getGmailClient`: authentication plumbing outside the pipeline.
- The label CRUD endpoints and the server start-up: pass-throughs with no policy.
- backend/server.js (other routes), frontend/src/Components/Dashboard.jsx and Login.jsx: UI and HTTP plumbing, not part of this model.
- The real Gmail and Gemini calls, `async`/`await`, `console.log` and `process.env`: each answer is an input instead (`Mailbox`, `ListedMessage`, `OracleReply`, the `hasApiKey` flag). The timing of the calls, and any concurrency, are not modelled.
- The prompt wording: only its filled-in parts (`Prompt`) are modelled, not the free text around them.
- Strings.Trim: removes only the six ASCII whitespace characters. JavaScript's `trim` also removes Unicode spaces and line terminators.
- Strings.Lower: lower-cases only A-Z. JavaScript's `toLowerCase` is Unicode-aware.
- GeminiClassifier.BuildPrompt: counts characters, where `substring(0, 1500)` counts UTF-16 code units.
- `new GoogleGenAI(...)` throwing is not modelled: it sits outside the `try`, so it would reject the promise and fail the run.
- The `!emailContent` guard is not modelled: the handler always passes an object.
- A header whose `value` is undefined is not modelled: headers always carry a string.
- A `labels.list` answer without a `labels` field is folded into `Threw`, since `.filter` on `undefined` throws.
- A `messages.get` answer without `payload.headers` is folded into `Threw`, since `.find` on `undefined` throws: `Message` always carries a header list.
- ClassifyProperties.RunCount: the 20-message cap is the provider's promise, not the handler's. The bound of 20 holds under `HonoursMaxResults`.
- The reply texts are reduced to tags (`NoCustomLabels`, `Complete(count)`, `Failed`); the HTTP status and message strings are not modelled.
