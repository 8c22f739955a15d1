# Transcript insight and LinkedIn icebreaker sync — a Dafny model

The application lets a user submit two kinds of records: sales-call
transcripts and LinkedIn "icebreaker" requests (a prospect's profile plus a
pitch deck). A FastAPI server validates each request, asks a language model
for an analysis, and stores the row in a database. A React page keeps the two
lists in sync with the server and shows the outcome of the most recent
operation.

This project models the logic on both sides:

- **Client reducer** (`frontend/app/page.js`). The page's `useState` cells
  form one `Sync.State`:
  - two record lists,
  - two drafts,
  - an error slot and a success slot,
  - two loading flags.

  Each handler becomes a pure transition from a request outcome to the next
  state: field edits, create (success / non-2xx / thrown), delete (success /
  non-2xx / thrown) and the mount-time list loads. `ErrorFormat` models how
  FastAPI's `detail` is rendered into the error slot.
- **Server rules** (`backend/main.py`):
  - `Validation` holds the length bounds of the request models and the
    validation entries a rejected body produces.
  - `Endpoints` covers prompt selection, the create endpoints' status mapping
    and the unconditional delete.
  - `Feed` covers `content_type` tagging, the stable newest-first sort,
    Python slicing and the list endpoints' inclusive ranges.
- **Client meets server** (`ClientServer`). These lemmas follow a draft
  through the request body, the endpoint and back into client state.

Modules: `Wrappers`, `Text` (JavaScript `join`, number rendering), `Records`,
`Wire`, `ErrorFormat`, `Forms`, `Sync`, `Validation`, `Feed`, `Endpoints`,
`ClientServer`.

Behaviour worth knowing:

- The status is two independent slots (`error`, `success`), not one tagged
  slot. A successful delete sets `success` without clearing `error`, so both
  can be visible at once.
- A successful create always prepends, even when the id is already listed.
  There is no idempotence on ids (`Sync.DuplicateCreateListsTwice`).
- A non-2xx delete changes nothing. No error message is set. Only a thrown
  request sets "Failed to delete …".
- An empty `detail` array is truthy in JavaScript, so it sets the error slot
  to "" rather than the fallback.
- There is no per-action in-flight lock in the handlers. Only the two submit
  buttons are disabled while their kind's create is loading
  (frontend/app/page.js:340, 465-466). The delete buttons are never disabled
  (frontend/app/page.js:516-523, 588), so a second delete of the same id can
  be sent while the first is in flight. Button state is rendering and is not
  modelled; `Sync.DeleteTwiceSameAsOnce` shows that the second successful
  delete leaves the list as the first did.

## Model

| member | source | states |
|---|---|---|
| `Records.RemoveId` | frontend/app/page.js:192 | every record with the id is gone, every other record stays in its original order (subsequence), and an absent id leaves the list unchanged |
| `Records.RemoveIdKeepsCounts` | frontend/app/page.js:192 | a record with a different id occurs in the result exactly as many times as in the input, duplicates included (`Records.OccurrencesIsMultiplicity` equates this count with multiset multiplicity) |
| `Records.RemoveIdAfterPrepend` | frontend/app/page.js:192 | removing the id of a record just put at the head gives back a list that did not contain that id |
| `Forms.SetTranscriptField` | frontend/app/page.js:71-77 | editing one transcript input sets that field to the value and every other field keeps its value |
| `Forms.SetIcebreakerField` | frontend/app/page.js:79-85 | editing one icebreaker input sets that field to the value and every other field keeps its value |
| `Forms.TranscriptEditLaws` | frontend/app/page.js:71-77 | re-entering a field's current value is a no-op; of two edits to the same field the later one wins |
| `Sync.EditTranscript` | frontend/app/page.js:71-77 | a transcript field edit changes that draft field only; lists, messages, flags and the other draft are untouched |
| `Sync.EditIcebreaker` | frontend/app/page.js:79-85 | an icebreaker field edit changes that draft field only; everything else is untouched |
| `Sync.BeginCreate` | frontend/app/page.js:87-90 | starting a create clears both message slots and sets that kind's loading flag; the other flag, the lists and the drafts are untouched |
| `Sync.FinishCreate` | frontend/app/page.js:107-132 | loading is off after every outcome. Success: the row is prepended (length +1), the draft is reset to exactly its initial value (all empty; icebreaker `role_level` "Mid-level") and the success text is set. Non-2xx: the error is the rendered detail, list and drafts unchanged. Thrown: the network-error text, list and drafts unchanged. The other kind is never touched; well-kinded lists stay well-kinded |
| `Sync.SubmitCreate` | frontend/app/page.js:87-132 | after a whole create handler, success means success text and empty error, any failure leaves the success slot empty and the list and drafts unchanged |
| `Sync.Delete` | frontend/app/page.js:185-198 | success removes exactly the records with the id (order kept, every other record kept as many times as it occurred, absent id a no-op) and sets the success text without clearing the error; non-2xx changes nothing; thrown sets "Failed to delete …" and keeps the list |
| `Sync.Load` | frontend/app/page.js:47-69 | a 2xx list replaces the kind's list; a non-2xx list changes nothing; a thrown transcript load sets "Failed to fetch transcripts" while a thrown icebreaker load changes nothing; the success slot, both loading flags and both drafts are never touched |
| `Sync.CreateAllNewestFirst` | frontend/app/page.js:109 | after successive successful creates the list is the created rows in reverse acknowledgement order followed by the old list |
| `Sync.DuplicateCreateListsTwice` | frontend/app/page.js:158 | acknowledging the same row twice lists it twice: creates are not idempotent on ids |
| `Sync.DeleteUndoesCreate` | frontend/app/page.js:192 | deleting the id of a just-created record with a fresh id restores the list |
| `Sync.DeleteTwiceSameAsOnce` | frontend/app/page.js:207 | a second successful delete of the same id leaves the list as the first did |
| `Sync.RejectedCreateKeepsListAndDraft` | frontend/app/page.js:118-127 | a rejected create keeps the list and both drafts and shows the rendered detail |
| `ErrorFormat.CreateErrorMessage` | frontend/app/page.js:119-126 | an array detail is the entries' renderings ("<loc joined by '.'>: <msg>") joined by ", " (an empty array gives ""); a non-empty string detail is shown verbatim; an empty or missing detail gives the per-kind fallback |
| `ErrorFormat.EntriesTextAppend` | frontend/app/page.js:122 | the rendering of two runs of entries is their renderings joined by ", " |
| `ErrorFormat.LocTextRecoverable` | frontend/app/page.js:122 | a location of keys without '.' is recovered by splitting its rendering on '.' |
| `ErrorFormat.MissingPitchDeckMessage` | frontend/app/page.js:170-173 | a missing `pitch_deck` is shown as "body.pitch_deck: field required" |
| `ErrorFormat.IndexLocMessage` | frontend/app/page.js:172 | an integer location step is printed in decimal, e.g. "body.12: bad" |
| `Text.SplitOfJoin` | frontend/app/page.js:122 | joining pieces that do not contain the separator and splitting again gives back the pieces |
| `Text.JoinOfSplit` | frontend/app/page.js:122 | splitting on a character and joining on it again gives back the string |
| `Validation.FieldErrors` | backend/main.py:37-40 | a string member yields no entry exactly when it is present and within `min_length`..`max_length`, otherwise exactly one entry located at `body.<member>` |
| `Validation.TranscriptErrorsExact` | backend/main.py:36-41 | a transcript body has no entries iff company_name is 1..100 chars, attendees 1..500, date parses and transcript ≥ 10; each member is reported iff its own constraint fails; `custom_prompt` is never reported |
| `Validation.IcebreakerErrorsExact` | backend/main.py:43-49 | an icebreaker body has no entries iff prospect_name and company_name are 1..100 chars, linkedin_bio and pitch_deck ≥ 10 and role_level (if present) ≤ 50; each member is reported iff its own constraint fails |
| `Validation.ValidateTranscript` | backend/main.py:36-41 | accepted iff every constraint holds, and then the values are carried over as sent; otherwise the non-empty list of entries |
| `Validation.ValidateIcebreaker` | backend/main.py:43-49 | accepted iff every constraint holds; an absent role_level becomes "Mid-level", a present one is kept; otherwise the non-empty list of entries |
| `Endpoints.ChoosePrompt` | backend/main.py:128 | the caller's prompt is used iff it is present and non-empty, otherwise the kind's default |
| `Endpoints.CatchAll` | backend/main.py:259-260 | an exception caught by the handler's catch-all always becomes status 500 |
| `Endpoints.CreateTranscriptAsWritten` | backend/main.py:252-260 | as written: an accepted body whose insert returned no rows gets status 500; every other input gets the same response as the corrected endpoint |
| `Endpoints.CreateTranscript` | backend/main.py:231-260 | a rejected body gets 422 with its entries; an accepted one with a successful insert gets the stored row carrying the sent values and the analysis generated for the chosen prompt; an empty insert gets 400 (corrected); a database exception gets 500 |
| `Endpoints.CreateIcebreakerAsWritten` | backend/main.py:288-296 | as written: an accepted body whose insert returned no rows gets status 500; every other input gets the same response as the corrected endpoint |
| `Endpoints.CreateIcebreaker` | backend/main.py:262-296 | as for transcripts; the stored role level is the sent one, or "Mid-level" when absent |
| `Endpoints.EmptyTranscriptInsertReportedAs500` | backend/main.py:256-260 | for every accepted transcript body an empty insert yields 500 "400: Failed to create transcript" as written, and 400 in the corrected endpoint |
| `Endpoints.EmptyIcebreakerInsertReportedAs500` | backend/main.py:292-296 | the same for icebreakers, with "400: Failed to create LinkedIn icebreaker" |
| `Endpoints.DeleteRow` | backend/main.py:377-397 | without a database exception the confirmation is sent and every row with the id is removed, other rows kept in order and with their multiplicity; with one, status 500 and the table unchanged |
| `Endpoints.DeleteOfAbsentIdSucceeds` | backend/main.py:383-384 | deleting an id no row has still answers with the confirmation and changes no row |
| `Feed.Tag` | backend/main.py:341-350 | every tagged item carries its row and the table's `content_type` |
| `Feed.Sort` | backend/main.py:354 | the result is ordered by `created_at` descending and is a permutation of the input |
| `Feed.SortIsStable` | backend/main.py:354 | for every timestamp, the items carrying it keep their input order |
| `Feed.SortKeepsTranscriptsFirstOnTies` | backend/main.py:353-354 | when all transcripts precede all icebreakers in the input, transcripts stay ahead of icebreakers among equal timestamps |
| `Feed.PySlice` | backend/main.py:357 | a Python slice is the contiguous run of the sequence between the normalised start and stop bounds, empty when stop is not after start |
| `Feed.PageShape` | backend/main.py:357 | with non-negative offset and limit the page holds `max(0, min(limit, len - offset))` items, item j being item `offset + j` |
| `Feed.CombinedFeed` | backend/main.py:330-361 | the feed page is newest first, transcripts ahead on ties, every item is tagged by the table it came from, and with non-negative bounds it holds `max(0, min(limit, total - offset))` items, item j being item `offset + j` of the sorted combined feed |
| `Feed.FullFeedIsEveryRow` | backend/main.py:353-357 | a page from 0 with a large enough limit holds every row of both tables exactly once |
| `Feed.RangeInclusive` | backend/main.py:305 | a range read succeeds iff the start is non-negative and the end is not below start − 1; then it holds `max(0, min(to + 1, len) − from)` items, item j being row `from + j` |
| `Feed.DefaultListPage` | backend/main.py:298-328 | with the default query (`limit` 10, `offset` 0) a list request succeeds with `min(10, rows)` rows, item j being row j of the newest-first order, and no row left off the page is newer than a row on it |
| `Feed.DefaultFeedPage` | backend/main.py:330-361 | with the default query (`limit` 20, `offset` 0) the feed holds the `min(20, total)` newest items of both tables, item j being item j of the sorted combined feed |
| `Feed.ListPage` | backend/main.py:298-328 | the list endpoint succeeds iff offset and limit are non-negative; a page holds `max(0, min(limit, rows − offset))` rows, item j being row `offset + j` of the newest-first order, each from the kind's table and tagged with its content type |
| `ClientServer.TranscriptRequest` | frontend/app/page.js:98-104 | the body carries the typed company name, attendees and transcript; the date string is always sent, so the server sees it as parsed exactly when its parser accepts the string, and never as missing; the prompt is sent as `null` exactly when the draft's prompt is empty |
| `ClientServer.IcebreakerRequest` | frontend/app/page.js:146-153 | every member is sent as the typed value, `role_level` included (so it is never absent at the server); the prompt is sent as `null` exactly when the draft's prompt is empty |
| `ClientServer.CreateOutcomeOf` | frontend/app/page.js:107-127 | a create response is read as the created row iff it is 2xx, otherwise as a rejection carrying its `detail`; a received response is never a thrown request |
| `ClientServer.DeleteOutcomeOf` | frontend/app/page.js:191-194 | a delete response is a deletion iff it is 2xx, otherwise a refusal; a received response is never a thrown request |
| `ClientServer.ListOutcomeOf` | frontend/app/page.js:50-53 | a list response replaces the list iff it is 2xx, with exactly the response's rows in order; otherwise the list is left alone |
| `ClientServer.MountLoadKeepsNewestRows` | frontend/app/page.js:47-69 | the mount loads send no query string, so a successful load leaves the client with the `min(10, rows)` newest rows of the table, newest first, taken from the table; the other list and the drafts are untouched |
| `ClientServer.DraftPromptChoice` | frontend/app/page.js:103 | since an empty prompt is sent as null, the server uses the draft's prompt iff it is non-empty |
| `ClientServer.SubmitAcceptedTranscript` | frontend/app/page.js:92-117 | an accepted draft with a successful insert puts at the head of the list a row with the typed values and the server's parse of the typed date; the rest is the old list, the draft is reset and the success text is shown |
| `ClientServer.SubmitRejectedTranscript` | frontend/app/page.js:118-123 | a draft the server rejects shows one "body.<member>: <msg>" per failing member, never an empty error; the list and draft are kept |
| `ClientServer.SubmitAcceptedIcebreaker` | frontend/app/page.js:140-167 | an accepted icebreaker draft with a successful insert puts a row with the typed values at the head of the list, resets the draft to its initial value and shows the success text |
| `ClientServer.SubmitRejectedIcebreaker` | frontend/app/page.js:168-173 | a rejected icebreaker draft shows one "body.<member>: <msg>" per failing member, never empty; the list and draft are kept |
| `ClientServer.EmptyRoleLevelIsStoredEmpty` | frontend/app/page.js:151 | the form always sends role_level, so an emptied role level is stored as "" and the "Mid-level" default never applies |
| `ClientServer.DeleteOfAbsentIdShowsSuccess` | backend/main.py:383-384 | deleting an id the server no longer has shows the client's success text and leaves the list unchanged |
| `ClientServer.FailedServerDeleteChangesNothing` | frontend/app/page.js:191-194 | a delete that fails in the database is a non-2xx answer, which leaves the client state unchanged |

## Left out

- HTTP and JSON. `fetch`, `response.json()` and the base-URL and environment
  handling are left out. A body that fails to parse throws inside the
  handler's `try`. For a create that is the `Thrown` outcome (network-error
  text). For a mount load it is `LoadThrown`, which for transcripts sets
  "Failed to fetch transcripts". The delete handlers never read a body, so
  `DeleteThrown` only stands for a request that itself threw.
- The `useEffect` bootstrap ordering. Each list load is an independent
  `Sync.Load` transition.
- Rendering. This covers JSX, `formatDate` (locale-dependent) and the
  prompt-placeholder template, which are presentation only.
- The language-model call and its fallback texts. The model passes them in as
  the `generate` parameter. The default prompt texts are represented by
  `Endpoints.DefaultPrompt(kind)` rather than copied.
- The database. Insert and delete outcomes are inputs. `Feed.RangeInclusive`
  treats a negative offset or limit as a database error (status 500). How the
  database really answers such a range is not part of the source.
- `Endpoints.CreateTranscript`: the 2xx body is `result.data[0]`, the row
  the database returns (backend/main.py:253-255). The model builds that row
  from the validated request values, the generated analysis and the database's
  id and `created_at` (`Endpoints.Inserted`). It assumes the database echoes
  the inserted columns unchanged. The same assumption carries into
  `ClientServer.SubmitAcceptedTranscript`.
- `Endpoints.CreateIcebreaker`: the same assumption for `result.data[0]` at
  backend/main.py:289-291, and for `ClientServer.SubmitAcceptedIcebreaker`.
- Database order among rows with equal `created_at`. In the list endpoints the
  model uses the same stable sort as the feed.
- Date and datetime parsing. `created_at` is an integer key. The server's
  date parser is the `parse` parameter of `ClientServer.TranscriptRequest`;
  at the server a `date` member is classified as absent, unparsable or
  parsed (`Validation.DateInput`).
- Pydantic type coercion, `null` members and non-string JSON values. Messages
  follow pydantic 1 wording.
- Non-string, non-array `detail` values (numbers, objects) in the client's
  error formatting, and location steps other than strings and integers.
- JavaScript's computed `[name]` key with an input name outside the form's
  fields. Fields are a closed enumeration.
- `GET /transcripts/{id}`, `GET /`, CORS and `uvicorn` startup. These are
  outside the modelled core.
- Concurrency between in-flight requests and last-write-wins on the shared
  slots. Each outcome is one atomic transition.
- `Endpoints.CatchAll`: the text "<status>: <detail>" assumes Starlette's
  string form of `HTTPException`. The status 500 does not depend on it.

## Findings

| source | as written | input that shows it | evidently intended | confidence | as-written member | corrected member |
|---|---|---|---|---|---|---|
| backend/main.py:252-260 | the `HTTPException(400, "Failed to create transcript")` raised when the insert returns no rows is inside the `try`, so `except Exception` re-raises it as 500 | a valid transcript body whose insert returns an empty `data` list | status 400 with detail "Failed to create transcript" | high, not executed | `Endpoints.CreateTranscriptAsWritten` (`Endpoints.EmptyTranscriptInsertReportedAs500`) | `Endpoints.CreateTranscript` |
| backend/main.py:288-296 | the same for `HTTPException(400, "Failed to create LinkedIn icebreaker")` | a valid icebreaker body whose insert returns an empty `data` list | status 400 with detail "Failed to create LinkedIn icebreaker" | high, not executed | `Endpoints.CreateIcebreakerAsWritten` (`Endpoints.EmptyIcebreakerInsertReportedAs500`) | `Endpoints.CreateIcebreaker` |
