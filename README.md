# medical-data-admin: the ingestion and browsing core, in Dafny

medical-data-admin is a small web admin tool. It loads medical records into
a hosted table store and browses them. Records come from three places:

- rows of a spreadsheet;
- tab-separated text pasted into a form;
- a single record typed into a form.

Each is normalised into the seven-field record (`disease`, `drug`,
`medicine`, `tridose`, `pss`, `planet`, `author`, plus an optional store id).
The list is then cut into batches of 1000. Each batch is posted, in order,
to a server endpoint, which checks the body and inserts the rows into the
store. The first failure stops the upload. A second view pages through the
stored rows twenty at a time.

The model has one module per source file. Four shared modules support them:

- `Wrappers` holds `Option` and `Result`.
- `Exceptions` holds what a `throw` carries.
- `JsString` holds JavaScript's `trim` and `split`.
- `Json` holds parsed JSON values, truthiness, `typeof` and `String(v)`.

A fifth shared module, `Paging`, holds page counting and the clamped
Previous/Next buttons.

Pure code becomes functions with lemmas. The React components become
classes, whose `useState` variables are fields. The loops become methods
with invariants: the `for` loop of `chunkArray` (the module-level method
`ProcessData.ChunkArray`), the `forEach` of the paste form's line parsing
and the `for` loop of the upload. Each method is proved against the
functions that specify it.

Nothing outside the program is modelled:

- The store is not modelled. Each store wrapper takes the store's answer as
  a parameter. It returns the requests it made and what it returned or
  threw.
- The network is not modelled. The upload loop gets a function from post
  number to the reply for that post.
- The browser is not modelled. The route handler is given the result of
  parsing the request body.

Some behaviour of the code worth knowing:

- Blank pasted text gives one record with all fields empty, not an empty
  list (`BulkPasteForm.BlankPasteGivesOneEmptyRecord`).
- Upload batches hold 1000 records, although the comment above the upload
  function (components/DataPreview.tsx:30) says 400.
- After a failed upload, `currentChunk` is the 1-based number of the batch
  that failed. So `currentChunk - 1` batches completed, which is
  `FirstFailure`.
- The upload loop does not call the store itself. It posts each batch to
  the server endpoint app/api/upload/route.ts, which calls the store
  (`DataPreview.PostBodyAccepted` connects the two).

## Model

| member | source | states |
|---|---|---|
| Types.MedicalRecord.With | components/ManualAddForm.tsx:25-28 | `{...prev, [field]: value}` sets field `f` to `v` and keeps the id and every other field |
| Types.RecordsEqual | lib/types.ts:21-31 | a record is determined by its id and its seven fields |
| JsString.TrimStartIsSuffix | components/BulkPasteForm.tsx:31 | the start-trimmed string is a suffix of the input and does not begin with whitespace |
| JsString.TrimStartDropsWhitespace | components/BulkPasteForm.tsx:31 | every character cut from the front is ECMAScript whitespace |
| JsString.TrimEndIsPrefix | components/BulkPasteForm.tsx:31 | the end-trimmed string is a prefix of the input and does not end with whitespace |
| JsString.TrimEndDropsWhitespace | components/BulkPasteForm.tsx:31 | every character cut from the back is whitespace |
| JsString.AllWhitespaceTrimsAway | components/BulkPasteForm.tsx:31 | a string of whitespace only start-trims to nothing |
| JsString.TrimIsMiddle | components/BulkPasteForm.tsx:38 | `trim()` returns a contiguous slice of its input with no whitespace at either end |
| JsString.TrimEmpty | components/ManualAddForm.tsx:34 | `s.trim() === ''` exactly when every character of `s` is whitespace |
| JsString.TrimNoPadding | components/BulkPasteForm.tsx:38 | a string with no whitespace at either end is its own trim |
| JsString.Split | components/BulkPasteForm.tsx:33 | `split` returns at least one piece, and no piece contains the separator |
| JsString.JoinSplit | components/BulkPasteForm.tsx:33 | joining the pieces with the separator gives back the string |
| JsString.SplitJoin | components/BulkPasteForm.tsx:33 | splitting a join of separator-free pieces gives back the pieces |
| JsString.SplitNoSeparator | components/BulkPasteForm.tsx:31-33 | text without the separator splits into just itself |
| JsString.SplitCount | components/BulkPasteForm.tsx:31 | there is one more piece than there are separators |
| Paging.CeilDiv | components/DataTable.tsx:50 | `Math.ceil(n / size)`: the fewest pages of `size` that hold `n` items; 0 only when there are no items |
| Paging.CeilDivUnique | components/DataTable.tsx:50 | the two bounds of the page count determine it |
| Paging.ButtonsStayInRange | components/DataTable.tsx:127-140 | Previous gives `max(1, p-1)`, Next gives `min(total, p+1)`; from a page in `1..total` both stay in `1..total` |
| ProcessData.NormaliseRow | lib/processData.ts:38-46 | the record has no id, and each field is the value the row's two accepted spellings supply |
| ProcessData.NormaliseRows | lib/processData.ts:36-47 | one record per row, in row order |
| ProcessData.LookupPrecedence | lib/processData.ts:39-45 | a non-empty lowercase cell wins; otherwise the Capitalised cell, when present; and when each spelling is missing or empty the field is `''` |
| ProcessData.FieldComesFromItsColumns | lib/processData.ts:39-45 | every field is `''` or the value of one of its own two columns, never undefined |
| ProcessData.OnlyRecognisedColumnsMatter | lib/processData.ts:36-47 | rows that agree on the fourteen recognised columns give the same record, whatever else they hold |
| ProcessData.UpperCaseHeaderIgnored | lib/processData.ts:43 | a `PSS` column is not recognised and leaves `pss` empty |
| ProcessData.MixedCaseRowExample | lib/processData.ts:39-45 | a row with `Disease` and `Drug` headers fills those two fields and leaves the others `''` |
| ProcessData.Chunks | lib/processData.ts:64-70 | every batch is non-empty and at most `n` long, and all but the last are exactly `n` long |
| ProcessData.ChunkArray | lib/processData.ts:64-70 | the index-stepping loop builds exactly `Chunks(a, n)`; it needs `n > 0` unless the array is empty, otherwise the loop never ends |
| ProcessData.ChunksFlatten | lib/processData.ts:64-70 | concatenating the batches in order gives back the input, with nothing dropped, duplicated or reordered |
| ProcessData.ChunksCount | lib/processData.ts:66 | there are `ceil(|a| / n)` batches, and none for an empty array |
| ProcessData.ChunkAt | lib/processData.ts:66-67 | batch `k` is `a[k*n .. min((k+1)*n, |a|)]` |
| ProcessData.ChunksExample | lib/processData.ts:64-70 | 2500 records in batches of 1000 make batches of 1000, 1000 and 500 |
| Types.FieldOrderIsPermutation | components/BulkPasteForm.tsx:11-19 | the column order `fields`, which is also the order of the manual form's inputs, names each of the seven fields exactly once |
| BulkPasteForm.ParseLines | components/BulkPasteForm.tsx:32-41 | one record per line, in line order |
| BulkPasteForm.ParseLine | components/BulkPasteForm.tsx:33-40 | the `forEach` over `fields` builds exactly the line's record |
| BulkPasteForm.BulkPasteForm.constructor | components/BulkPasteForm.tsx:22 | the text area starts empty |
| BulkPasteForm.BulkPasteForm.HandleChange | components/BulkPasteForm.tsx:26-28 | the text area takes the new value and the record list is untouched |
| BulkPasteForm.BulkPasteForm.HandleParse | components/BulkPasteForm.tsx:30-44 | the new list is the old list, unchanged, followed by the parsed records of the text |
| BulkPasteForm.ParsedCount | components/BulkPasteForm.tsx:31-32 | there is one record per `\n`-separated line of the outer-trimmed text: one more than its newlines |
| BulkPasteForm.BlankPasteGivesOneEmptyRecord | components/BulkPasteForm.tsx:31-39 | blank or whitespace-only text gives exactly one record with all seven fields `''` |
| BulkPasteForm.ExtraValuesIgnored | components/BulkPasteForm.tsx:36-39 | values past the seventh do not affect the record |
| BulkPasteForm.LineFields | components/BulkPasteForm.tsx:33-39 | field `f` is the trimmed value in `f`'s column, or `''` when the line has fewer values |
| BulkPasteForm.SingleLine | components/BulkPasteForm.tsx:31-32 | a line with no newline and no surrounding whitespace parses to its own record alone |
| BulkPasteForm.SevenValues | components/BulkPasteForm.tsx:31-39 | seven tab-joined values that need no trimming give the record holding them in column order |
| BulkPasteForm.LeadingTabShiftsFirstLine | components/BulkPasteForm.tsx:31 | the outer `trim` removes a leading tab, so `"\tv"` puts `v` in `disease`, not in `drug` |
| ManualAddForm.Values | components/ManualAddForm.tsx:33 | `Object.values(formData)`: 8 values with an id, 7 without; the id first when present, then field `f`'s text at position `Position(f)` after it, and each of those values is its field's text |
| ManualAddForm.AnyFilledIff | components/ManualAddForm.tsx:33-35 | `.some` holds exactly when some value passes the test |
| ManualAddForm.HasValueIff | components/ManualAddForm.tsx:33-35 | a form counts as entered exactly when it has an id or a field that is non-blank after trimming |
| ManualAddForm.EmptyRecordIsBlank | components/ManualAddForm.tsx:11-19 | `emptyRecord` has no id, all seven fields `''`, and does not count as entered |
| ManualAddForm.TypedValueMakesAddable | components/ManualAddForm.tsx:24-35 | after typing a non-blank value into any input, the form counts as entered |
| ManualAddForm.ManualAddForm.constructor | components/ManualAddForm.tsx:22 | the form starts as `emptyRecord` |
| ManualAddForm.ManualAddForm.HandleChange | components/ManualAddForm.tsx:24-29 | input `f` takes the value; the other inputs, the id and the list are untouched |
| ManualAddForm.ManualAddForm.HandleAddRecord | components/ManualAddForm.tsx:31-41 | if entered, the form is appended untrimmed and reset to `emptyRecord`; otherwise the list and the form are both unchanged |
| Supabase.ClientKey | lib/supabase.ts:6-7 | the service key whenever one is given, otherwise the anonymous key |
| Supabase.EmptyServiceKeyWins | lib/supabase.ts:7 | an empty service key is still chosen over a non-empty anonymous key |
| Supabase.UploadChunk | lib/supabase.ts:10-40 | missing or empty rows: no request and `undefined`. Otherwise: one insert of exactly those rows into the configured table with the client key, then the store's error rethrown unchanged or its data returned |
| Supabase.RangeWidth | lib/supabase.ts:49-50 | the inclusive range holds exactly `pageSize` rows |
| Supabase.RangesContiguous | lib/supabase.ts:49-50 | `to(p) + 1 = from(p+1)`: consecutive pages meet with no gap and no overlap |
| Supabase.DefaultRange | lib/supabase.ts:45-50 | the defaults, page 1 and size 50, ask for rows 0 to 49 |
| Supabase.RowInExactlyOnePage | lib/supabase.ts:49-50 | row `i` is in the range of page `i / pageSize + 1` and of no other |
| Supabase.FetchedPageIsBatch | lib/supabase.ts:49-56 | the rows of page `p` are batch `p-1` of the table cut into batches of `pageSize`, and there are none past the last page |
| Supabase.FetchRecords | lib/supabase.ts:43-74 | always exactly one select for the page's range, with the defaults filling absent arguments; the answer is returned as it is, and any error is rethrown unchanged |
| Supabase.DeleteRecords | lib/supabase.ts:77-101 | missing or empty ids: no request and `undefined`. Otherwise: one delete of all the ids, then `true`, or the store's error rethrown |
| Json.NatTextValue | components/DataPreview.tsx:53 | the decimal text `String(n)` gives for a number denotes that number |
| Json.RecordJson | components/DataPreview.tsx:48 | the serialised record has each field as a string under its own name, and `id` only when present |
| Json.ConfigJson | components/DataPreview.tsx:48 | the serialised settings are a truthy object |
| Json.ConfigRoundTrip | app/api/upload/route.ts:34 | the settings the route reads back from the posted body are the ones the page sent |
| Json.RecordRoundTrip | app/api/upload/route.ts:34 | a record serialised into the post reads back as the same record, so the row the route hands to the insert carries exactly the record's id and fields |
| Json.RecordsRoundTrip | app/api/upload/route.ts:34 | every row of a posted batch, as `uploadChunk` receives it from the route, reads back as the batch's record at the same position |
| Json.RecordsJson | components/DataPreview.tsx:48 | the posted array holds each record's object, in order |
| UploadRoute.IsBodyShapeIff | app/api/upload/route.ts:13-20 | the shape test holds exactly for an object with a truthy `config` property and an array `records` property |
| UploadRoute.Post | app/api/upload/route.ts:22-51 | parse failure gives 500 (the `Error`'s message or "Unknown error"); bad shape gives 400 "Invalid request body"; insert failure gives 502 (the message or "Supabase error"); otherwise 200 `{success: true}`; only a well-shaped body with rows reaches the store, as one insert of those rows |
| UploadRoute.EmptyRecordsSucceed | app/api/upload/route.ts:33-43 | a well-shaped body with no rows answers 200 without any store request |
| UploadRoute.NonErrorStoreFailure | app/api/upload/route.ts:35-40 | a thrown value that is not an `Error` is reported as 502 "Supabase error" |
| DataPreview.ErrorMessage | components/DataPreview.tsx:64-65 | the shown error always carries the "Error uploading data: " prefix |
| DataPreview.EmptyMessageFallsBack | components/DataPreview.tsx:51-53 | an error body with no message or an empty one reports "Failed to upload chunk" |
| DataPreview.RouteMessageShown | components/DataPreview.tsx:51-53 | a non-empty message in the route's error answer is what the preview shows |
| DataPreview.PostBodyAccepted | components/DataPreview.tsx:45-49 | every posted batch passes the route's shape test; the route inserts exactly that batch with the page's key and table, and answers 200 on success or 502 on failure |
| DataPreview.FirstFailure | components/DataPreview.tsx:42-54 | the index of the first failed post: all earlier posts succeeded, and it failed unless it equals the batch count |
| DataPreview.FirstFailureIs | components/DataPreview.tsx:42-54 | the first failure is the only index with those two properties |
| DataPreview.ProgressOf | components/DataPreview.tsx:72 | 0 with no batches; otherwise `100c/t` rounded to the nearest integer, with halves rounded up |
| DataPreview.ProgressUnique | components/DataPreview.tsx:72 | any integer within that rounding of `100c/t` is the shown progress |
| DataPreview.ProgressBounds | components/DataPreview.tsx:72 | the progress stays in `0..100`, and it reaches 100 when `currentChunk = totalChunks` |
| DataPreview.ProgressMonotone | components/DataPreview.tsx:72 | the progress never decreases as `currentChunk` grows |
| DataPreview.SliceIndex | components/DataPreview.tsx:28 | `slice`'s index: `min(i, len)` for `i >= 0`, `len + i` for a negative `i` within the array, 0 below that |
| DataPreview.PagedDataIsBatch | components/DataPreview.tsx:26-28 | `totalPages = ceil(|data| / 10)` is the number of 10-record batches; page `p` shows batch `p-1`, and nothing past the last page |
| DataPreview.DisplayedChunkCount | components/DataPreview.tsx:83 | the displayed "Total chunks" equals the number of batches the loop sends |
| DataPreview.DataPreview.constructor | components/DataPreview.tsx:14-25 | the initial state: page 1, not uploading, no batches, no error, no success |
| DataPreview.DataPreview.UploadChunks | components/DataPreview.tsx:31-70 | `totalChunks` is the batch count. Batches are posted in order up to and including the first failure, and none after it. While batch `i` is posted, `currentChunk` is `i+1`, `uploading` is true, `totalChunks` is shown, and there is no error and no success yet. On failure: the prefixed error, no success, no completion call, `currentChunk` at the failed batch. On full success: success, one completion call, no error. `uploading` ends false |
| DataPreview.DataPreview.PostChunks | components/DataPreview.tsx:42-60 | the loop posts batch `i` only after batches `0..i-1` succeeded, with `currentChunk` at `i+1` and the rest of the state untouched while it is posted, and stops at the first failure |
| DataPreview.DataPreview.Previous | components/DataPreview.tsx:118 | page becomes `max(1, page-1)`, stays in range, and nothing else changes |
| DataPreview.DataPreview.Next | components/DataPreview.tsx:122 | page becomes `min(totalPages, page+1)`, stays in range, and nothing else changes |
| DataTable.ShownRange | components/DataTable.tsx:124 | on a page in range, "Showing x to y" has `1 <= x <= y <= totalRecords`, spans at most 20 rows, and names the rows the fetch asked for |
| DataTable.LastPageEndsAtTotal | components/DataTable.tsx:124 | on the last page the shown range ends at `totalRecords` |
| DataTable.DataTable.constructor | components/DataTable.tsx:12-16 | the initial state: no records, loading, no error, page 1, total 0 |
| DataTable.DataTable.BeginLoad | components/DataTable.tsx:19-22 | `loading` is set and one select for the current page's twenty rows goes out; nothing else changes |
| DataTable.DataTable.FinishLoad | components/DataTable.tsx:22-30 | success: `records := data or []`, `totalRecords := count or 0`, error cleared. Failure: records and total kept, error prefixed "Error loading records: ". `loading` ends false either way |
| DataTable.DataTable.Previous | components/DataTable.tsx:128 | page becomes `max(1, page-1)`, stays in range, and nothing else changes |
| DataTable.DataTable.Next | components/DataTable.tsx:135 | page becomes `min(totalPages, page+1)`, stays in range, and nothing else changes |

## Left out

- Spreadsheet decoding is not modelled: the XLSX workbook, CSV conversion, PapaParse and FileReader (lib/processData.ts:18-35, 48-61). These belong to foreign libraries and browser I/O. The model starts from the decoded rows, as maps from header to text.
- The hosted store client, `createClient` and `fetch` are not modelled; they are external services. Their answers are parameters. `Supabase.StoreRange` states the assumed meaning of `.range(from, to)` over a table in a fixed order.
- Timing is not modelled: `Date.now`, the elapsed-seconds display, `toFixed`, and the 500 ms pause between posts. These are wall-clock values and floating point.
- The simulated progress bar of the paste form is not modelled: its `loading` and `progress` state and `simulateUpload`. These are timers and floating point.
- React effect scheduling is not modelled: when `loadRecords` re-runs on a page or setting change, and batching of state updates. Each state update takes effect at once.
- Concurrency is not modelled: a fetch interleaved with an upload, or a second click during a load.
- The rendering components and app/page.tsx (localStorage, tabs) are not modelled, nor is the single-insert route app/api/manual-add/route.ts. They are UI wiring and thin library calls.
- Console logging and the serialisation of errors for the log are left out; they are output only.
- The view's button rules are not preconditions: `totalPages > 1` hides the page buttons, and the disabled states (`page === 1`, `page === totalPages`, `uploading || success`) block them. The methods are total, and staying in range is stated for a page that starts in range.
- Props changing between renders are not modelled. `data` and `config` are constant fields. `onUploadComplete` is modelled as a counter of its calls.
- The commented-out delete handler of the table (components/DataTable.tsx:37-48) is not modelled. `deleteRecords` is modelled as the wrapper alone.
- DataPreview.ProgressOf: computes the exact rounding of `100c/t`. The code computes `c / t * 100` in floating point, which can land on the other side of a half.
- ProcessData.ChunkArray: the batch size is an integer. Fractional sizes, which JavaScript would accept, are not modelled.
- JSON numbers are integers; fractions and exponents are not modelled. Parsing a serialised value is taken to give the value back.
- Records carry only the seven fields and the id. The index signature of lib/types.ts:30 allows extra properties; those are not modelled, except that the route forwards whatever rows it is given.
- Json.ConfigOf: a setting that is not a string reads as `''`. JavaScript would pass the value itself on to the client. A `serviceKey` that is not a string and not `null` reads as `''`.
- Json.Get reads only the keys a parsed object holds. Properties built into every array or object (`length`, `constructor`, `toString`) are not modelled; the code reads none of them.
- DataPreview.FailureText: the texts of errors raised by the runtime are part of the thrown value given to the model. These include a failed `fetch` and a body that is not JSON. The exception is reading `message` off a `null` body, for which V8's wording is used.
