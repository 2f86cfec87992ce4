# Installation dashboard: data path model

This project models the data path of a small installation-tracking
dashboard. Rows of a spreadsheet export are imported into a SQLite table
(`data_sync_sqlite.py`). A tiny HTTP API serves that table
(`simple_api.py`). A browser client fetches the rows
(`src/services/apiService.js`), folds them into one summary per room and
sorts the list. The client filters the list with the search form
(`src/hooks/useReportData.js`, `src/components/SearchFilters.jsx`) and
resolves one room's details.

The model is written in Dafny, one module per concern:

- `Wrappers`, `Strings`, `Sequences`, `Dicts`, `Records`: option and result
  types, the string operations both languages use, subsequences, ordered
  JavaScript objects and Python dicts, and the record shapes.
- `RecordSource` (`fetchData` and its fallbacks) and `ReportTransform`
  (`transformToReportData`) model `apiService.js`.
- `RoomDetailResolver` models `getRoomDetails` in `apiService.js`.
- `ReportHooks` models the `select` filter and the query functions in
  `useReportData.js`.
- `SearchFilters` models submitting, clearing and the "active" badge of the
  search form.
- `SimpleApi` models routing, error bodies, query-string parsing, the
  `get_data` query builder and the response shape of `simple_api.py`.
- `DataSync` models the TSV import of `data_sync_sqlite.py`: line
  splitting, padding, cell mapping, `safe_int`/`safe_float` and the row
  loop that skips failing lines.
- `EndToEnd` links the client's requests to what the API does with them.

Loops that the source writes imperatively are Dafny methods with loop
invariants, each proved equal to a specification function:

- the parameter loop of `fetchData`
- the deduplication loop of `transformToReportData`
- the filter blocks and the row loop of `get_data`
- the padding loop and the row loop of `parse_and_insert_data`

The network, the database, the clock, date parsing and float parsing are
inputs of the model:

- What `fetch` did is an `Outcome`.
- A date is turned into a number by a `dateKey` function.
- The database query is an `execute` function.
- `int(float(...))` and `float(...)` are parameter functions.
- The insert refusals are a set of line numbers.

## Model

| member | source | states |
|---|---|---|
| RecordSource.SearchParams | src/services/apiService.js:9-13 | the query never has more entries than the parameter object |
| RecordSource.SearchParamsExact | src/services/apiService.js:9-13 | a parameter appears in the query, with its rendered text, exactly when it is not `null`, `undefined` or `''` |
| RecordSource.AppendSearchParams | src/services/apiService.js:9-13 | the `forEach` loop appends exactly the sent parameters, in key order |
| RecordSource.FetchData | src/services/apiService.js:4-47 | success exactly for an `ok` response with a JSON body, returning that body; a non-`ok` response fails with exactly `HttpErrorMessage`: `HTTP error! status: <status>` followed by ` - <error>` or ` - <statusText>` as `HttpErrorSuffix` states; a `TypeError` mentioning `fetch` becomes the connectivity message; any other error propagates unchanged |
| RecordSource.HttpErrorSuffix | src/services/apiService.js:22-33 | the HTTP error message adds ` - error` from a JSON body when it has one, and ` - statusText` when the body is not JSON |
| RecordSource.GetAllData | src/services/apiService.js:49-64 | the fetched `data` array, `[]` when it is missing, and `[]` whenever fetching fails |
| RecordSource.GetStats | src/services/apiService.js:121-134 | the fetched statistics, or the all-zero statistics whenever fetching fails |
| RecordSource.GetProjects | src/services/apiService.js:136-143 | the fetched project list, or `{ projects: [] }` whenever fetching fails |
| RecordSource.RequestsSent | src/services/apiService.js:49-83 | `getAllData()` requests `/api/data?limit=1000&offset=0`; the room details request `/api/data?limit=1000` |
| RecordSource.FallbacksNeverFail | src/services/apiService.js:49-143 | a rejected fetch never escapes `getAllData`, `getStats` or `getProjects`, and a body without `data` reads as `[]` |
| Dicts.SpreadLookup | src/services/apiService.js:51-55 | after `{...obj, ...extra}` each key reads the value from `extra` when `extra` has it, otherwise its old value |
| ReportTransform.FirstRowOf | src/services/apiService.js:149-176 | the index of the first row with a room key and the given room number, with no such row before it |
| ReportTransform.Dedup | src/services/apiService.js:149-176 | the deduplicated list is never longer than the input |
| ReportTransform.DedupRooms | src/services/apiService.js:150-162 | the listed room numbers are exactly those of the rows whose project code and unit number are both non-empty |
| ReportTransform.DedupDistinct | src/services/apiService.js:161-162 | no room number is listed twice |
| ReportTransform.DedupFirstWins | src/services/apiService.js:161-174 | each listed room is the summary of the first row of that room |
| ReportTransform.DedupIgnoresRow | src/services/apiService.js:155-161 | a row without a room key, or of a room already seen, changes nothing in the result |
| ReportTransform.Insert | src/services/apiService.js:178-184 | inserting adds exactly the one entry (multiset) |
| ReportTransform.SortSummaries | src/services/apiService.js:178-184 | the sort is a permutation of its input |
| ReportTransform.CompareFlip | src/services/apiService.js:178-184 | swapping the two entries negates the comparator |
| ReportTransform.CompareTransitive | src/services/apiService.js:178-184 | the comparator is transitive when all entries have a date or none has |
| ReportTransform.InsertSorted | src/services/apiService.js:178-184 | insertion keeps a list sorted by the comparator |
| ReportTransform.SortSorted | src/services/apiService.js:178-184 | the sorted list is ordered by the comparator when all entries have a date or none has |
| ReportTransform.SortDistinct | src/services/apiService.js:178-184 | sorting keeps room numbers distinct |
| ReportTransform.TransformToReportData | src/services/apiService.js:145-185 | the loop with its seen-rooms set computes the specification `ReportData` (deduplicate, then sort) |
| ReportTransform.ReportDataProperties | src/services/apiService.js:145-185 | one entry per keyed room, no duplicates, each the summary of the room's first row with `id` equal to the room number, a permutation of the deduplicated rows, sorted when the dating is uniform |
| ReportTransform.DedupDating | src/services/apiService.js:169-172 | when every keyed row has an install date so does every summary, and likewise for none |
| ReportTransform.FirstCustomerKept | src/services/apiService.js:161-166 | of two rows of one room, the first row's customer is kept |
| ReportTransform.MixedDatesNotTransitive | src/services/apiService.js:180-183 | with dated and undated entries mixed, the comparator is not transitive |
| RoomDetailResolver.ParseAtFirstDash | src/services/apiService.js:70-76 | an identifier parses exactly when it has a dash; the project code is the text before the first dash and the unit number is the rest |
| RoomDetailResolver.ParseFormatRoundTrip | src/services/apiService.js:70-76 | a dash-free project code and any unit number, joined with `-`, parse back to themselves |
| RoomDetailResolver.ParseExamples | src/services/apiService.js:69-76 | `SKWG2-B1-308` is project `SKWG2`, unit `B1-308`; `ABC` does not parse |
| RoomDetailResolver.RoomRows | src/services/apiService.js:87-91 | the room's rows are exactly the input rows with that project code and unit number, in input order |
| RoomDetailResolver.RoomRowsCounts | src/services/apiService.js:87-91 | every matching row is kept as many times as it occurs in the input, and no other row is kept |
| RoomDetailResolver.ToItems | src/services/apiService.js:106-116 | one item per row |
| RoomDetailResolver.GetRoomDetails | src/services/apiService.js:66-119 | no room, without fetching, for an empty or dash-free identifier; otherwise it fails exactly when the fetch fails, and resolves the room from the fetched rows |
| RoomDetailResolver.NotFoundCases | src/services/apiService.js:67-95 | no room exactly when the identifier is empty, has no dash, or matches no row |
| RoomDetailResolver.FoundRoom | src/services/apiService.js:97-118 | a found room's header is the identifier with the first row's customer and address; item `i` is row `i` with id `identifier-i` |
| RoomDetailResolver.ItemIdsDistinct | src/services/apiService.js:115 | item ids are pairwise distinct |
| RoomDetailResolver.EmptyPartsStillMatch | src/services/apiService.js:70-91 | `-U` matches rows with an empty project code, and `P-` rows with an empty unit number |
| RoomDetailResolver.SingleMatchingRow | src/services/apiService.js:70-118 | with a dash-free project code and one input row that matches, the header is the identifier with that row's customer and address and the one item is that row at position 0 |
| ReportHooks.FilterItems | src/hooks/useReportData.js:19-34 | an item is kept exactly when it is in the input and matches all three patterns, and the kept items are a subsequence of the input |
| ReportHooks.FilterCounts | src/hooks/useReportData.js:22-33 | a matching item is kept as often as it occurs, and any other item is dropped |
| ReportHooks.FilterDependsOnPatterns | src/hooks/useReportData.js:23-32 | only the `roomNumber`, `customerName` and `addressNo` patterns matter |
| ReportHooks.FilterWithoutPatterns | src/hooks/useReportData.js:23-32 | with all three patterns empty, the list comes back unchanged |
| ReportHooks.EmptyFiltersKeepAll | src/hooks/useReportData.js:19-34 | `{}` selects the whole list |
| ReportHooks.FilterIdempotent | src/hooks/useReportData.js:22-33 | filtering twice is filtering once |
| ReportHooks.FilterMonotone | src/hooks/useReportData.js:22-33 | a stricter filter selects a subsequence of what a looser one selects |
| ReportHooks.AddingPatternNarrows | src/hooks/useReportData.js:23-32 | adding a pattern never enlarges the selection |
| ReportHooks.CaseInsensitive | src/hooks/useReportData.js:24-30 | matching ignores letter case on both sides |
| Strings.ContainsIffOccurs | src/hooks/useReportData.js:24 | `includes` holds exactly when the pattern occurs at some position |
| ReportHooks.ExamplePatternFound | src/hooks/useReportData.js:23-24 | pattern `70401` matches room `70401-0209` |
| ReportHooks.ExampleTextMissing | src/hooks/useReportData.js:23-24 | `70401` does not occur in `70402-0100` |
| ReportHooks.ExamplePatternMissing | src/hooks/useReportData.js:23-24 | pattern `70401` rejects room `70402-0100` |
| ReportHooks.RoomNumberOnly | src/hooks/useReportData.js:23-32 | a room-number-only filter decides on the room number alone |
| ReportHooks.KeepFirstOfTwo | src/hooks/useReportData.js:22-33 | of two items of which only the first matches, only the first is kept |
| ReportHooks.RoomNumberExample | src/hooks/useReportData.js:19-34 | `{ roomNumber: '70401' }` keeps `70401-0209` and drops `70402-0100` |
| ReportHooks.ReportQueryFn | src/hooks/useReportData.js:10-17 | a throw gives the single mock room; otherwise exactly `transformToReportData`'s list (`ReportData`), a reordering of the deduplicated rows whose properties `ReportDataProperties` proves |
| ReportHooks.FailedFetchListsNothing | src/hooks/useReportData.js:10-17 | a failed fetch shows an empty list, not the mock room, because `getAllData` swallows the error |
| ReportHooks.RoomDetailsQueryFn | src/hooks/useReportData.js:43-49 | any failure of `getRoomDetails` gives no room |
| ReportHooks.UseRoomDetails | src/hooks/useReportData.js:40-54 | disabled exactly for an empty identifier; no room when the fetch fails; otherwise the room resolved from the fetched rows |
| SearchFilters.FilledIffNotBlank | src/components/SearchFilters.jsx:16 | a value counts exactly when it has a character that `trim` would keep |
| SearchFilters.OnSubmit | src/components/SearchFilters.jsx:14-19 | the reported filters are entries of the form, unchanged, each with a filled value |
| SearchFilters.OnSubmitDropsBlanks | src/components/SearchFilters.jsx:15-17 | an entry is dropped exactly when its value is empty or only whitespace |
| SearchFilters.OnSubmitIdempotent | src/components/SearchFilters.jsx:15-17 | submitting the reported filters again changes nothing |
| SearchFilters.ActiveIffSubmitNonEmpty | src/components/SearchFilters.jsx:26 | the form shows itself as filtering exactly when submitting would report a filter |
| SearchFilters.ClearFilters | src/components/SearchFilters.jsx:21-24 | clearing restores the initial values and reports `{}` |
| SearchFilters.ClearShowsAll | src/components/SearchFilters.jsx:21-24 | after clearing, the list shows every room |
| SearchFilters.UnrecognisedFieldsSelectAll | src/components/SearchFilters.jsx:14-19 | a filter only on fields the list ignores selects the whole list |
| SimpleApi.Route | simple_api.py:20-42 | a path has a handler exactly when it is one of the four endpoints; `/api/data` goes to `get_data` |
| SimpleApi.EndpointList | simple_api.py:20-23 | the 404 body lists the four endpoints in order |
| SimpleApi.ErrorBodyContents | simple_api.py:56-58 | the error body leads with `error`; each key of the extra data holds its value, and `error` holds the message unless the extra data overrides it |
| SimpleApi.ErrorBodyWithOneEntry | simple_api.py:56-58 | one extra entry under another key gives `{error, key}` in that order |
| SimpleApi.DoGet | simple_api.py:13-47 | 404 exactly for an unknown path, with the endpoint list; for a served path, 200 with exactly the handler's response when it returns, and 500 with `Internal server error` and the handler's exception text when it raises |
| SimpleApi.ParseQs | simple_api.py:16 | every name has at least one value, and no value is blank |
| SimpleApi.ParseQsNames | simple_api.py:16 | a name is present exactly when some pair gives it a non-blank value |
| SimpleApi.ParseQsValues | simple_api.py:16 | a name's values are exactly the non-blank values the pairs give it, in the order they occur |
| SimpleApi.FirstValueRead | simple_api.py:110-131 | the `[0]` that `get_data` reads for a name is the first non-blank value given to it |
| SimpleApi.Applicable | simple_api.py:110-126 | the applied filters are exactly the given columns whose first value is non-blank after stripping, in the fixed order |
| SimpleApi.ConditionsAt | simple_api.py:113-125 | the condition of each applied filter is `column = ?`, in the order the filters are applied |
| SimpleApi.FilterParamsAt | simple_api.py:111-126 | the parameter of each applied filter is its stripped first value, in the order the filters are applied |
| SimpleApi.Pagination | simple_api.py:128-134 | the limit never exceeds 1000 and the offset is never negative |
| SimpleApi.PaginationOfIntegers | simple_api.py:130-131 | integers given as text come back with the limit capped at 1000 and the offset floored at 0 |
| SimpleApi.PaginationDefaults | simple_api.py:129-134 | absent names give 100 and 0; one unparsable value resets both |
| Strings.PyIntOfDecimal | simple_api.py:130-131 | `int()` reads back any integer written in decimal |
| SimpleApi.AddFilter | simple_api.py:110-114 | one filter block appends the column's condition and value exactly when that filter applies |
| SimpleApi.BuildDataQuery | simple_api.py:106-149 | the SQL is the column list, then the `WHERE` clause of the applied filters, then the order clause; the parameters are the filter values, then limit and offset |
| SimpleApi.DataQueryAligned | simple_api.py:107-149 | condition `i` and parameter `i` belong to the same applied filter; at most three filters, in fixed order |
| SimpleApi.NoFilterNoWhere | simple_api.py:145-146 | with no filter applied there is no `WHERE` clause |
| SimpleApi.RowToDictByName | simple_api.py:157-179 | each selected column of a row is found under its own name |
| SimpleApi.DataResponseContents | simple_api.py:182-189 | one object per row with every column's value; the pagination echoes the limit and offset, and `returned_count` equals the number of rows |
| SimpleApi.BuildDataResponse | simple_api.py:155-179 | the row loop builds the specification response |
| SimpleApi.GetDataResponse | simple_api.py:100-189 | the SQL run is the column list, the `WHERE` clause of the applied filters and the order clause; its parameters are the applied filter values followed by limit and offset; the response is built from the rows it returns, with the pagination computed from the query string |
| DataSync.FetchTsvLines | data_sync_sqlite.py:86 | at least one line, and no line holds a `\n` |
| DataSync.LinesRoundTrip | data_sync_sqlite.py:86 | lines joined with `\n` come back unchanged when the text has no surrounding whitespace |
| DataSync.CarriageReturnSurvives | data_sync_sqlite.py:86 | with `\r\n` line ends, the `\r` stays at the end of the header line |
| DataSync.Pad | data_sync_sqlite.py:116-117 | the padded row is as wide as the header (or wider), keeps its cells, and adds only `''` |
| DataSync.PadRow | data_sync_sqlite.py:116-117 | the `while` loop pads exactly like `Pad` |
| DataSync.PadKeepsCells | data_sync_sqlite.py:116-157 | padding never changes what a cell position reads |
| DataSync.PadKeepsNumbers | data_sync_sqlite.py:152-163 | padding never changes what a numeric cell reads |
| DataSync.PadKeepsRecord | data_sync_sqlite.py:116-163 | padding first changes nothing in the record |
| DataSync.RemoveCommas | data_sync_sqlite.py:209 | no comma is left, other characters are kept, and text without commas is unchanged |
| DataSync.SafeInt | data_sync_sqlite.py:206-211 | `None` for blank text; otherwise exactly the converted number when the conversion succeeds and `None` on a `ValueError`; the overflow escapes exactly when the conversion overflows |
| DataSync.SafeFloat | data_sync_sqlite.py:213-218 | `None` for blank text, otherwise the parsed value of the text without commas |
| DataSync.WhitespaceIsBlank | data_sync_sqlite.py:209 | whitespace-only text is blank, so it converts to `None` |
| DataSync.MapRowFields | data_sync_sqlite.py:121-163 | a row maps unless a sales cell overflows; key columns read their fixed positions; `floor_level` loses only trailing `\r`/`\n`; every record has the sync timestamp |
| DataSync.MapLines | data_sync_sqlite.py:111 | one result per data line |
| DataSync.Kept | data_sync_sqlite.py:111-200 | the table never has more rows than there are data lines |
| DataSync.InsertedRows | data_sync_sqlite.py:111-200 | never more rows than data lines |
| DataSync.KeptStep | data_sync_sqlite.py:112-200 | a further line adds its record unless mapping it raised or its insert was refused |
| DataSync.ParsedRecords | data_sync_sqlite.py:95-97 | nothing is inserted without a data line |
| DataSync.ParseAndInsertData | data_sync_sqlite.py:91-204 | the loop inserts exactly `ParsedRecords`, and the count equals the rows inserted |
| DataSync.KeptFrom | data_sync_sqlite.py:111-200 | every kept record is the record of a line that mapped and whose insert was not refused |
| DataSync.LinesThatRaiseAreSkipped | data_sync_sqlite.py:111-200 | every record in the table comes from a data line whose mapping and insert did not raise, so a raising line is skipped |
| DataSync.KeptIncludes | data_sync_sqlite.py:198-200 | every record that mapped and was not refused is inserted |
| DataSync.KeptAll | data_sync_sqlite.py:193 | with no failure, every line is inserted |
| DataSync.KeptMonotone | data_sync_sqlite.py:198-200 | more refusals only remove records, keeping the others in order |
| DataSync.SharedTimestamp | data_sync_sqlite.py:108 | all records of one import carry the same timestamp |
| DataSync.OtherLinesGoOn | data_sync_sqlite.py:198-200 | a failing line never stops the others: every line that maps and is accepted is in the table |
| DataSync.EveryLineInserted | data_sync_sqlite.py:111-193 | with no refusal and no overflow, there is exactly one record per data line |
| DataSync.MoreFailuresFewerRows | data_sync_sqlite.py:198-200 | the table with more refusals is a subsequence of the one with fewer |
| EndToEnd.FirstPageQuery | simple_api.py:16 | the query strings `limit=1000&offset=0` and `limit=1000` parse to their obvious maps |
| SimpleApi.PaginationOfLimitAlone | simple_api.py:130-131 | with only a limit given and read as an integer, the offset defaults to 0 and the limit is capped at 1000 |
| EndToEnd.FirstPageUnfiltered | simple_api.py:110-126 | the first-page queries apply no filter |
| EndToEnd.AllDataRequestServed | src/services/apiService.js:49-57 | `getAllData()` is routed to `get_data` with limit 1000, offset 0 and no filter |
| EndToEnd.RoomDetailsRequestServed | src/services/apiService.js:79-83 | the room details request gets the same first page: limit 1000, offset 0, no filter |

## Left out

- Network, HTTP server and database I/O are not modelled: sockets, `urlopen`, CORS headers, `do_OPTIONS`, `sqlite3` connections and `commit`. Their results are inputs (`Outcome`, `execute`, `rejected`).
- `get_stats`, `get_projects` and `get_status_summary`: their SQL aggregates are database queries. Only the client's handling of their responses is modelled.
- `create_database`, `show_stats`, the command-line entry point and the progress prints of the import.
- React Query caching, staleness and retries. A disabled query is modelled as `None`.
- Form rendering and `isExpanded` state in `SearchFilters.jsx`.
- `urlparse` and the percent-decoding of `parse_qs`: `ParseQs` takes already decoded `(name, value)` pairs.
- `new Date(...)` parsing: the comparator takes a `dateKey` function.
- ReportTransform.SortSorted: `dateKey` returns an integer, so an `install_date` that `new Date` cannot parse (giving `NaN`, a comparator result `Array.prototype.sort` treats as `0`) is not modelled. Sortedness under uniform dating, also in `ReportTransform.ReportDataProperties`, assumes every date parses.
- RoomDetailResolver.FoundRoom: the room header interpolates the raw `project_code` and `unit_no` without `|| ''`, so a row with a null or missing field gives `null-U` or `undefined-U` in the source. Record fields are plain strings with `""` for missing, so `ResolveRoom`, `FoundRoom` and `EmptyPartsStillMatch` give `-U` there.
- Floating point: `float()` and `int(float())` are parameter functions.
- Unicode: `Lower` folds ASCII letters only, and `localeCompare` is modelled as code-point comparison. The Thai text in the data has no letter case.
- `Strings.PyInt`: does not accept `_` digit separators or non-ASCII digits, both of which Python's `int()` accepts. It also reads text of any length, while `int()` on Python 3.11 and later (and patched earlier releases) raises `ValueError` on more than 4300 digits, which would make the pagination fall back to `(100, 0)`.
- ReportTransform.SortSummaries: a stable insertion sort stands in for `Array.prototype.sort`. With dated and undated rooms mixed, the comparator is inconsistent (`ReportTransform.MixedDatesNotTransitive`), and the engine's order may differ from the model's.
- ReportTransform.ReportDataProperties: proves sortedness only when every room has a date or none has, because the comparator is not an order otherwise.
- SimpleApi.DoGet: when a handler raises, the model returns the 500 reply that `send_error_response` builds. It leaves out that the 200 status line and headers were already written at that point, so the client receives a 200 response.
- SimpleApi.BaseQuery: the SQL text has the line breaks and indentation of the source's triple-quoted literal collapsed to single spaces. The statement SQLite runs is the same, but the text is not byte for byte the source's.
- SimpleApi.Pagination: the limit has no lower bound, because the source clamps only from above. A negative limit goes through to SQL, where SQLite reads it as "no limit". That SQL behaviour is not modelled.
- DataSync.ParseAndInsertData: a database insert failure is modelled as the line number being in `rejected`. Why the insert failed is not modelled.
- DataSync.SafeInt: `int(float(x))` overflowing on an infinite value raises `OverflowError`, which `safe_int` does not catch. The model therefore skips that row, as the row loop's `except` does.
- Room identifiers are not unique: project `A`, unit `B-C` and project `A-B`, unit `C` both give `A-B-C`. `transformToReportData` keeps only the first. `getRoomDetails` always splits at the first dash, so it finds only the first reading.

### Behaviour that follows the code

- A failed list fetch shows an empty list, not the mock room: `getAllData` catches the error itself, so the hook's fallback to `getMockData` is reached only if the transform throws (`ReportHooks.FailedFetchListsNothing`).
- `getRoomDetails` does not check that the parsed parts are non-empty: `-U` matches rows with an empty project code (`RoomDetailResolver.EmptyPartsStillMatch`). The list itself never shows such a room.
- The connectivity error is a plain `Error` with a fixed message, modelled as that message.
