# Model Arena: the dispatch-and-aggregate core in Dafny

Model Arena sends one prompt to several text-generation backends at once and
shows each backend's reply and latency as it arrives, then names the fastest
successful one. This project models the logic of `src/App.jsx` that does that
work, sequentially:

- `callModel` (module `Caller`): the endpoint path chosen from the
  descriptor's `isGroq` flag, the request body with its optional `system` and
  `temperature` keys, and the normalisation of every way a call can end
  (connection failure, non-ok status, unreadable JSON, a reply) into an
  outcome record that always carries its elapsed time.
- `String.prototype.trim` and the decimal rendering of a status code inside
  a template literal (module `JsText`), which the guard of `runArena` and the
  HTTP error message depend on.
- `fastestResult` (module `Ranking`): `Object.values` in key-insertion order
  (ids are taken not to be array-index strings, see "## Left out"), the
  eligibility filter, a stable sort by elapsed time, and the first element.
- `toggleModel`, the catalog filter that picks a batch's backends,
  `MODELS.find` and `resultsList` (module `Selection`).
- The state that `runArena` resets and that each completion updates (module
  `Dispatch`, class `Arena`): the selection, the result object with its key
  insertion order, the pending set, the `abortRef` flag, and the winner
  banner's condition.
- Runs built from the contracts alone (module `Scenarios`): a batch of three
  that settles with the 50-unit reply named fastest, and a completion from a
  superseded batch.

The network is an input: an `Exchange` value says how `fetch` ended, what
status arrived, the raw body text and how reading it as JSON went. Elapsed
times are abstract natural numbers. Completions arrive by calling
`Arena.Ingest` in any order, which stands for the tasks finishing out of
order.

Each completion is written only if `abortRef.current` is false
(`src/App.jsx:159`): the flag's name and that guard show that completions
of an abandoned batch are meant to be dropped. In the code the flag is only
ever set to `false` (`src/App.jsx:142,152`), so the guard never fires and
nothing cancels a batch. The model follows the code (`Arena.Ingest` stores
every completion while the flag is clear) and keeps the flag as the field
`aborted`. The guarded step the flag is evidently meant to give is modelled
beside it as `Arena.IngestCurrent`, which checks a per-batch generation
token (see "## Findings").

## Model

| member | source | states |
|---|---|---|
| Caller.EndpointRoundTrip | src/App.jsx:25-27 | The endpoint path reads back as the descriptor's route flag and id (`"/" + id` for Groq, `"/bedrock/" + id` otherwise), exactly when the descriptor is not a Groq id beginning with `bedrock/`. |
| Caller.EndpointsDistinct | src/App.jsx:25-27 | Two such descriptors share an endpoint only when they share both route and id. |
| Caller.BuildPayload | src/App.jsx:30-35 | The body has the prompt as its only user message and the given `max_tokens`; `system` is present exactly when the system prompt is non-empty and then equals it; `temperature` is present exactly when one was given and then equals it. |
| Caller.CallModel | src/App.jsx:24-58 | One call posts to the descriptor's URL with the body above, and resolves to the normalised outcome of the exchange. |
| Caller.JoinTextsAppend | src/App.jsx:52 | Joining segment texts works segment by segment, in order. |
| Caller.JoinTextsEmptyIff | src/App.jsx:52 | The joined text is empty exactly when every segment's text is missing or empty. |
| Caller.ReplyTextMeaning | src/App.jsx:52 | The reply text is never empty: it is the joined segment texts when some segment has text, and the stringified body when content is missing or all segments are empty. |
| Caller.UsageOrEmpty | src/App.jsx:53 | A missing usage becomes the empty record with no token counts, not zeros; a present one passes through. |
| Caller.HttpErrorRoundTrip | src/App.jsx:49 | The message `"HTTP <status>: <body>"` keeps both the status and the raw body: they can be read back from it. |
| Caller.NormalizeOutcome | src/App.jsx:46-56 | Every outcome names the backend and carries an elapsed time; `fetch` throwing and the JSON read throwing give the thrown message with the time measured at the catch; a non-ok status gives the HTTP error message with status and body; an ok status with a body gives a success with the non-empty reply text, the usage or the empty record, and the stop reason. |
| JsText.TrimEmptyIffBlank | src/App.jsx:151 | The trimmed prompt is empty exactly when every character of it is whitespace or a line terminator. |
| JsText.TrimStart | src/App.jsx:151 | Trimming the front removes a whitespace-only prefix and leaves a suffix that is empty or starts with a non-whitespace character. |
| JsText.TrimEnd | src/App.jsx:151 | Trimming the back removes a whitespace-only suffix and leaves a prefix that is empty or ends with a non-whitespace character. |
| JsText.DecimalString | src/App.jsx:49 | A status renders as a non-empty string of decimal digits with no leading zero. |
| JsText.DecimalRoundTrip | src/App.jsx:49 | The rendered digits read back as the status. |
| Ranking.ValuesListsEveryKey | src/App.jsx:174 | Over the key-insertion order, `Object.values` lists exactly one outcome per stored key: as many entries as keys, and each key's outcome at that key's place in the order. |
| Ranking.CandidatesMembers | src/App.jsx:174 | The filter keeps an outcome exactly when it has non-empty text and non-zero elapsed. |
| Ranking.CandidatesAppend | src/App.jsx:174 | The filter keeps input order: filtering two parts gives the two filtered parts one after the other. |
| Ranking.InsertSorted | src/App.jsx:174 | Inserting into a sequence sorted by elapsed keeps it sorted. |
| Ranking.InsertPermutes | src/App.jsx:174 | Inserting adds exactly the inserted outcome. |
| Ranking.SortByElapsed | src/App.jsx:174 | The sort yields a sequence of the same length sorted by elapsed time. |
| Ranking.SortPermutes | src/App.jsx:174 | The sort is a permutation of its input. |
| Ranking.FastestStep | src/App.jsx:174 | The fastest of a sequence is an eligible first outcome unless the rest holds a strictly faster one, so ties go to the earlier outcome. |
| Ranking.FastestSpec | src/App.jsx:174 | There is no fastest result exactly when no outcome is eligible; otherwise it is an eligible outcome no slower than any eligible one, and strictly faster than every eligible one before it. |
| Selection.Remove | src/App.jsx:146 | Filtering out an id leaves exactly the other ids of the selection. |
| Selection.RemoveAbsent | src/App.jsx:146 | Filtering out an absent id changes nothing. |
| Selection.RemoveAppend | src/App.jsx:146 | The filter works part by part, keeping order. |
| Selection.ToggleFlips | src/App.jsx:144-148 | Toggling flips whether the id is selected and leaves every other id's membership alone. |
| Selection.ToggleKeepsOthers | src/App.jsx:144-148 | With the toggled id taken out, the selection is the same sequence before and after, so the other ids keep their relative order. |
| Selection.ToggleAbsentRoundTrip | src/App.jsx:144-148 | An absent id is appended at the end, and toggling it again restores the selection. |
| Selection.ModelsToRunMembers | src/App.jsx:154 | A batch runs exactly the catalog entries whose id is selected. |
| Selection.ModelsToRunAppend | src/App.jsx:154 | The entries to run keep catalog order. |
| Selection.Find | src/App.jsx:170 | The lookup finds nothing exactly when no catalog entry has the id; what it finds is a catalog entry with that id. |
| Selection.FindFirst | src/App.jsx:170 | Of several entries with the same id, the first is found. |
| Selection.ResultsList | src/App.jsx:169-172 | One card per selected id, in selection order; a card has an outcome exactly when one is stored for its id, then shows that outcome and its backend, and otherwise shows the catalog entry found for its id. |
| Dispatch.Arena.constructor | src/App.jsx:138-142 | The initial state: the initial selection, no results, nothing pending, the flag clear, no batch started. |
| Dispatch.Arena.ToggleModel | src/App.jsx:144-148 | The selection becomes its toggle and nothing else changes. |
| Dispatch.Arena.StartBatch | src/App.jsx:150-155 | Nothing changes when the trimmed prompt is empty or nothing is selected; otherwise the results are cleared, the flag is cleared, the selected catalog entries are returned in catalog order, their ids become pending, and the state stays accounted for. |
| Dispatch.Arena.Store | src/App.jsx:160-161 | The outcome is stored under its id (a new key goes last in insertion order, an existing one keeps its place), the id is no longer pending, and nothing else changes. |
| Dispatch.Arena.Ingest | src/App.jsx:159-161 | As written: the completion is stored unless the flag is set; the pending and stored ids still make up the batch when the id belongs to the current batch, and no longer do when it does not. |
| Dispatch.Arena.IngestCurrent | src/App.jsx:159-161 | Corrected: a completion is stored only while its batch is the current one, and otherwise changes nothing; every completion keeps pending and stored ids disjoint and together equal to the batch. |
| Dispatch.Arena.Winner | src/App.jsx:326 | The banner shows only when nothing is pending and more than one result is stored, and then names the fastest eligible outcome, ties going to the earliest inserted; in that state it shows whenever some outcome is eligible. |
| Scenarios.SettledBatch | src/App.jsx:150-174 | Three backends answering after 50, failing, and answering after 200: once all are in, nothing is pending, three outcomes are stored and the 50 one is named fastest. |
| Scenarios.StaleCompletionStored | src/App.jsx:159-161 | A completion of a superseded batch is stored into the new batch, whose stored and pending ids then no longer equal the ids it ran. |
| Scenarios.StaleCompletionDropped | src/App.jsx:159-161 | With the generation check the same completion is dropped and the new batch stays untouched. |

## Left out

- `fetch`, the request headers and the bearer credential, `res.text()` and `res.json()` are network I/O; their results are the input `Exchange`.
- `performance.now()` and the tokens-per-second figure are wall-clock floating point; elapsed time is an abstract natural number.
- `JSON.stringify(data)` is a foreign serialiser; its result is a non-empty string carried in the parsed body.
- `Promise.allSettled` and the async fan-out are concurrency; completion order is the order of the calls to `Arena.Ingest`.
- `ModelCard`, the page layout, `toFixed` formatting, the settings panel and the preset buttons are presentation.
- The `MODELS` and `PRESETS` constants: the catalog is a parameter.
- `vite.config.js` is development-server proxy configuration and is not part of this model.
- Replies whose `content` is not an array, whose segments are `null`, or whose `text` is not a string, and a failure of `res.text()` itself, are not modelled: segments are records with an optional string text.
- Ranking.Values: `Object.values` lists keys that are array indices (`"0"`, `"42"`) first, in ascending numeric order, before the other keys in insertion order; the model keeps plain insertion order, so it matches the program only for ids that are not array-index strings, and for such ids the tie-break of `Ranking.FastestSpec` and `Dispatch.Arena.Winner` would differ.
- Caller.CallModel: `max_tokens` and `temperature` are an integer and a real number rather than JavaScript numbers, and a thrown value is assumed to carry a `message` string.
- Dispatch.Arena.StartBatch: the system prompt, token limit and temperature of the batch are not stored in the arena; they go to `CallModel` directly.

## Findings

| source | as written | input that shows it | evidently intended | confidence | as-written member | corrected member |
|---|---|---|---|---|---|---|
| src/App.jsx:159 | The completion guard tests `abortRef.current`, which is only ever set to `false`; the prompt's Ctrl+Enter handler calls `runArena` even while a batch is pending (only the button is disabled), so a late completion of the previous batch is written into the new one. | Run backend a; toggle the selection to b; press Ctrl+Enter while a is pending; a's reply then arrives. | Completions of a superseded batch are dropped, so the stored and pending ids of the current batch always equal the ids it ran. | medium, not executed | Scenarios.StaleCompletionStored | Dispatch.Arena.IngestCurrent |
