# Resume pipeline: a Dafny model

The system turns resume PDFs in a Google Drive folder into rows of a Google Sheet.
main.py, a Cloud Function, lists the folder and sorts its files by the number at the
start of their names. For each file it downloads the PDF and extracts its text. It asks
a language model for a flat JSON object with twelve fixed fields, retrying once if the
output is not valid JSON. It then appends a 15-column row. The columns are the index
and name parsed from the file name, a sharing link, and the twelve fields. A batch run
first writes a header row. A single run processes one file by id, and the HTTP handler
maps its outcome to a status code. ta_app_script.js is an Apps Script trigger. It calls
the Cloud Function for every folder file whose id is not yet in column B of a "Log"
sheet. For each call that does not throw, it logs `[index, fileId, cleanName, timestamp]`.

The model has these modules, one per file:

- `Wrappers`: `Option` and `Result`.
- `Text`: Python's `str.strip`, the `\s` and ASCII `\d` classes, and runs of digits.
- `Json`: the decoded JSON values, plus the Python operations main.py applies to them:
  - `dict.get`, where the last duplicate key wins;
  - truthiness;
  - the `AttributeError` message.
- `RowBuilder`: the row built in `append_to_sheet`, made of three parts:
  - `os.path.splitext`;
  - a hand-written matcher for `(\d+)\.\s*(.+)`, proved greedy against a declarative
    description of all matches;
  - `sanitize_field` and the 15-cell row.
- `ResumeParser`: the prompt, which embeds the first 10000 characters of the resume
  text, and the two-attempt parse. The model call and `json.loads` are oracles.
- `Drive`: the paged folder listing is a `while` loop over the successive responses.
- `PdfText`: page texts are joined with `+=` in a loop.
- `BatchOrder`: the sort key, with `None` standing for `float("inf")`. The stable sort:
  - is specified as an insertion sort on sequences;
  - is implemented in place on an array;
  - is proved sorted, a permutation and stable, and proved equal to every stable sort by
    the same key.
- `Pipeline`:
  - the per-file pipeline, as a function of the services;
  - the output sheet, as a class whose state is its log of writes;
  - the batch loop and the single-file run.
- `Handler`: the `main(request)` status mapping.
- `UploadLog`: `onNewFileUpload`, with the log sheet as a class and the folder loop as a
  `while` loop.

Two points where the code does less than one might expect, and the model follows the code:

- The parser does not check that the output has exactly the twelve keys. The code
  accepts any JSON value. Missing keys become `""` and extra keys are ignored. A value
  that is not an object fails later, at `.get` in `append_to_sheet`. The model
  (`BuildRow`, `ProcessFile`) does the same.
- The index column is not an integer. The code writes the matched digit string itself,
  so `"007"` stays `"007"`. Only the sort key is an integer.

Because the extension is removed before the pattern is matched, a name without an
extension loses its name part: `"167. David Kim"` gives `("", "")`
(`NameFieldsExampleWithoutExtension`).

## Model

| member | source | states |
|---|---|---|
| Text.StripIsInfix | main.py:152 | `strip()` gives the infix of the name between a whitespace prefix and a whitespace suffix; the result is empty or starts and ends with a non-whitespace character |
| Text.StripOfStripped | main.py:129 | a string that starts and ends with non-whitespace is unchanged by `strip()` |
| Text.StripIdempotent | main.py:129 | stripping twice is stripping once |
| Text.DigitRun | main.py:155 | the longest ASCII-digit prefix: all digits, followed by the end or a non-digit |
| Text.DigitRunStopsAt | main.py:199 | a digit prefix followed by a non-digit is the whole digit run |
| Json.GetFindsLast | main.py:172 | `data.get(field, "")` gives the default for a missing key and otherwise the value of the key's last occurrence |
| Json.GetIgnoresOtherKeys | main.py:172 | members under other keys do not change what `get` returns |
| RowBuilder.RFind | main.py:152 | the position of the last occurrence of a character, or -1 when it does not occur |
| RowBuilder.SplitExtParts | main.py:152 | `splitext` splits a path into root + extension; the extension is empty or a dot followed by no dot or slash; it is non-empty exactly when the last path component has a dot after its leading dots |
| RowBuilder.RootDropsLastExtension | main.py:152 | the root of `base.ext` is `base` when `base` has a character other than a dot and neither part has a slash (only the last extension goes) |
| RowBuilder.RootWithoutDot | main.py:152 | a name without a dot is its own root |
| RowBuilder.LastNonNewline | main.py:155 | the last position from `lo` on that is not a newline, or every position from `lo` is a newline |
| RowBuilder.MatchIndexPatternSound | main.py:155 | a match found by the hand-written matcher is a match of `(\d+)\.\s*(.+)` anchored at the start |
| RowBuilder.MatchDigitsAreMaximal | main.py:155 | in every match, group 1 is the whole leading digit run |
| RowBuilder.MatchIndexPatternIsGreedy | main.py:155-161 | the matcher finds a match exactly when one exists, and the one it finds is the one the backtracking engine tries first (longest digits, then longest `\s*`, then longest `.+`) |
| RowBuilder.MatchBeatsOther | main.py:155 | any match is preceded, in backtracking order, by the one the matcher returns |
| RowBuilder.IndexAndNameOfWellFormed | main.py:155-158 | for `digits.ws rest`, where `rest` starts with non-whitespace and has no newline, index is exactly `digits` (not normalised) and name is `rest` |
| RowBuilder.MatchAt | main.py:155 | the matcher's result on a root with a known digit run, space run and newline-free tail |
| RowBuilder.IndexEmptyIffNoMatch | main.py:156-161 | index is empty exactly when the pattern does not match, and then both index and name are `""` |
| RowBuilder.Sanitize | main.py:166-169 | lists and dicts become their `json.dumps` string; every other value, numbers and null included, passes through unchanged; the result is never a list or dict |
| RowBuilder.BuildRowCases | main.py:171-173 | a row is built exactly when the parsed value is a dict. Then it is index, name, link and the fields. Otherwise the error is `'<type>' object has no attribute 'get'` |
| RowBuilder.OrderedRowShape | main.py:163 | the row has 15 cells, one per entry of `ORDERED_FIELDS`; the first three are index, name and the sharing link of the file id |
| RowBuilder.OrderedRowColumn | main.py:171-172 | column k (3 ≤ k < 15) is the sanitized `get(ORDERED_FIELDS[k], "")` |
| RowBuilder.MissingFieldIsEmpty | main.py:172 | a field missing from the object gives the cell `""` |
| RowBuilder.PresentFieldCell | main.py:166-172 | a present field gives its last value, dumped when structured and unchanged otherwise |
| RowBuilder.RowCellsAreFlat | main.py:166-173 | no cell of the row is a list or a dict |
| RowBuilder.RowDependsOnlyOnSchemaKeys | main.py:171-173 | two objects that agree on the twelve field keys give the same row |
| RowBuilder.ExtraKeysIgnored | main.py:172 | keys outside the twelve fields do not change the row |
| RowBuilder.StripResumeFile | main.py:152 | stripping leaves alone a name that starts with digits and ends with non-whitespace |
| RowBuilder.RootOfResumeFile | main.py:152 | the stripped root of `digits.ws name.ext` is `digits.ws name` |
| RowBuilder.NameFieldsOfResumeFile | main.py:152-158 | an uploaded `digits. name.ext` gives index `digits` and name `name` |
| RowBuilder.NameFieldsExample | main.py:157-158 | `"167. David Kim.pdf"` gives `("167", "David Kim")` |
| RowBuilder.DigitsAloneDoNotMatch | main.py:159-161 | a bare digit string gives `("", "")` |
| RowBuilder.StripDigitsDotRest | main.py:152 | stripping leaves alone `digits.rest` when `rest` ends with non-whitespace |
| RowBuilder.RootOfDigitsDotRest | main.py:152 | with no other dot, `splitext` treats `.rest` as the extension and the root is `digits` |
| RowBuilder.NameWithoutExtensionLosesName | main.py:152-161 | an extension-less `digits.rest` has root `digits`, which does not match: index and name are `""` |
| RowBuilder.NameFieldsExampleWithoutExtension | main.py:152-161 | `"167. David Kim"` gives `("", "")` |
| ResumeParser.Truncate | main.py:125 | `resume_text[:10000]`: a prefix of the text, at most 10000 long, the whole text when shorter and exactly 10000 long otherwise |
| ResumeParser.RetryPromptExtendsFirst | main.py:136 | the retry prompt is the first prompt followed by the fixed retry suffix |
| ResumeParser.PromptEmbedsExcerpt | main.py:122-126 | the excerpt appears right after the file-name part, and exactly the prompt's closing whitespace follows it |
| ResumeParser.PromptEmbedsTruncatedText | main.py:102-126 | the prompt is the instructions and file name, then the truncated text, then exactly the closing whitespace: nothing else of the text is in it |
| ResumeParser.AtMostOneRetry | main.py:128-145 | one or two calls; the first is on the first prompt; a second is made exactly when the first call returned output that does not parse, and it is the retry |
| ResumeParser.FirstAttemptParses | main.py:128-132 | if the first stripped output parses, its value is returned after one call |
| ResumeParser.SecondFailureIsFatal | main.py:133-145 | if both outputs fail to parse, two calls are made and the second decode error is raised with the stripped retry output |
| ResumeParser.ParsedComesFromLastOutput | main.py:129-141 | a parsed result is the decoding of the stripped output of the last call |
| ResumeParser.CallFailureNotRetried | main.py:128 | an exception from the model call is not retried: one call, and the run fails with it |
| ResumeParser.ParseSeesOnlyPrefix | main.py:125 | texts that agree on their first 10000 characters are parsed identically |
| Drive.LastPage | main.py:73-75 | the first response without a next-page token |
| Drive.ListFilesInFolder | main.py:59-77 | the loop returns the files of every page up to the first one without a token, and makes exactly one call per page up to it |
| Drive.FilesOfAppend | main.py:72 | `extend` over consecutive pages concatenates their files |
| Drive.FilesOfMembers | main.py:72 | a file is collected exactly when some page lists it |
| Drive.ListedFilesMembers | main.py:64-77 | a file is returned exactly when a page up to the last lists it |
| Drive.PagesAfterLastIgnored | main.py:74-75 | responses after the last page change nothing |
| Drive.LastPageIsFirst | main.py:74-75 | the listing stops at the first response without a token |
| PdfText.ExtractText | main.py:90-97 | the loop's text is the concatenation of the page texts |
| PdfText.ConcatAppend | main.py:94-96 | the text of consecutive page runs is the concatenation of theirs |
| PdfText.PageTextInPlace | main.py:94-96 | each page's text appears, unchanged, right after the text of the pages before it |
| BatchOrder.SortKeyCases | main.py:198-200 | the key is absent (infinity) exactly when the stripped name does not start with a digit; otherwise it is the value of the whole leading digit run, with no period needed |
| BatchOrder.LeadingZeroKeepsValue | main.py:200 | `int()` ignores leading zeros |
| BatchOrder.InsertAfterMultiset | main.py:202 | inserting adds exactly the inserted file |
| BatchOrder.InsertAfterElements | main.py:202 | inserting adds one element and nothing else |
| BatchOrder.InsertAfterSorted | main.py:202 | inserting into a sorted list keeps it sorted |
| BatchOrder.InsertAfterWithKey | main.py:202 | the inserted file goes after every file with the same key |
| BatchOrder.SortBySorted | main.py:202 | the sorted listing is in nondecreasing key order |
| BatchOrder.SortByPermutation | main.py:202 | the sorted listing is a permutation of the listing |
| BatchOrder.SortByStable | main.py:202 | files with equal keys keep their listing order |
| BatchOrder.UnkeyedLast | main.py:200-202 | after a file without leading digits, every file is one without leading digits |
| BatchOrder.WithKeyMembers | main.py:202 | the files with a given key are the listed files with that key |
| BatchOrder.SortedLastAgree | main.py:202 | two sorted lists with the same per-key order end with the same file |
| BatchOrder.StableSortUnique | main.py:202 | two sorted lists with the same per-key order are equal |
| BatchOrder.StableSortIsSortBy | main.py:202 | every stable sort of the listing by the key (Timsort's result included) is the modelled sort |
| BatchOrder.InsertInPlace | main.py:202 | shifting in place inserts `a[i]` into the sorted prefix after every element with a key no greater, leaving the rest of the array alone |
| BatchOrder.SortInPlace | main.py:202 | `files.sort(key=extract_index)` in place: the array becomes the stable sort of its old contents |
| Pipeline.HeaderRowNamesColumns | main.py:183-184 | the header has one cell per entry of `ORDERED_FIELDS`, in order |
| Pipeline.Spreadsheet.constructor | main.py:57 | a new sheet handle has made no writes |
| Pipeline.Spreadsheet.WriteHeader | main.py:183-190 | `write_sheet_header` adds one update of `raw_output!A1` with the header |
| Pipeline.Spreadsheet.AppendRow | main.py:175-180 | the append adds one write of the row to `raw_output!A2` |
| Pipeline.ParsedOutputOrigin | main.py:207-209 | a parsed value comes from downloading the file, joining its page texts and parsing that text under the file's name |
| Pipeline.ProcessFileRow | main.py:207-210 | a file yields a row exactly when its parsed output is a dict, and then the row is `BuildRow`'s; a non-dict fails with the `.get` error |
| Pipeline.ProcessedRowShape | main.py:210 | a file's row has 15 cells: index and name from its name, then its link |
| Pipeline.FirstFailure | main.py:203-210 | every file before the position succeeds, and the file at it fails |
| Pipeline.AppendsOf | main.py:175-180 | one append of each row to `raw_output!A2`, in order |
| Pipeline.ListAndSort | main.py:195-202 | the files to process are the listed files, stably sorted by key |
| Pipeline.RunBatch | main.py:193-210 | the batch writes the header, then the rows of the sorted files before the first failure, and ends with that failure or completes |
| Pipeline.WriteRows | main.py:203-210 | the loop appends the rows of the files before the first failure, in order, and reports that failure |
| Pipeline.BatchWritesInOrder | main.py:193-210 | the header write comes first, followed by exactly one append per file before the first failure, in sorted order |
| Pipeline.RowsOfSucceeding | main.py:203-210 | when every file succeeds, there is one row per file, in order |
| Pipeline.BatchResultCases | main.py:203-210 | the batch completes exactly when every file succeeds; otherwise it aborts at the first failing file, after writing the header and the rows of the files before it |
| Pipeline.RunSingle | main.py:214-223 | a single run appends the file's row when it succeeds, writes nothing when it fails, and never writes a header |
| Pipeline.SingleMatchesBatchRow | main.py:214-223 | a single run gives the batch's row for the file under its metadata name |
| Handler.StatusCodes | main.py:229-239 | 400 exactly when the body is an object with a falsy `file_id`; 200 exactly when it is an object with a truthy `file_id` whose run succeeds; otherwise 500 with `❌ Error: ` and a message |
| Handler.NonObjectBody | main.py:231-232 | a body that `get_json` reads as no JSON (`None`), or JSON that is not an object, gives 500 with the `.get` error |
| Handler.MissingKeyIs400 | main.py:232-234 | an object without `file_id` gives `("Missing file_id", 400)` |
| Handler.PipelineFailureIs500 | main.py:236-239 | a failing run gives 500 with its message |
| Handler.RunOnlyForTruthyId | main.py:232-234 | when the id is missing or falsy, the pipeline is not consulted |
| UploadLog.LogSheet.constructor | ta_app_script.js:3 | the sheet starts with the given rows |
| UploadLog.LogSheet.AppendRow | ta_app_script.js:41 | `appendRow` adds the row at the end |
| UploadLog.LoggedIdsInColumnB | ta_app_script.js:5-12 | a non-empty file id is in the column-B snapshot exactly when some row holds it in its second cell, so a file counts as new exactly when no row logs it |
| UploadLog.JsIndexCases | ta_app_script.js:14-15 | the index is non-empty exactly when the name starts with digits followed by a period, and is then that digit run |
| UploadLog.JsIndexOfIndexedName | ta_app_script.js:14-15 | `digits.rest` gives index `digits`, extension included in the match |
| UploadLog.CleanNameRemovesOneSuffix | ta_app_script.js:18 | the clean name is a prefix of the name, four shorter exactly when the name ends in `.pdf` in any case, and the name itself otherwise |
| UploadLog.CleanNameOnce | ta_app_script.js:18 | only one trailing `.pdf` is removed |
| UploadLog.OnNewFileUpload | ta_app_script.js:1-47 | the rows appended are the rows of the new files whose call returned, in folder order, and the calls made are for exactly the new files, all judged against the column-B snapshot taken before the loop |
| UploadLog.LoggedPositionsExact | ta_app_script.js:7-46 | a file is logged exactly when it is new and its call returned; the logged positions increase |
| UploadLog.LogRowsFollowPositions | ta_app_script.js:36-44 | the k-th appended row is `[index, fileId, cleanName, time]` of the k-th logged file |
| UploadLog.TriggeredExactlyNew | ta_app_script.js:12-37 | the Cloud Function is called for an id exactly when some file with it is new |
| UploadLog.SnapshotNotRefreshed | ta_app_script.js:5-12 | new files are tested against the snapshot only, never against rows appended during the loop: an id listed twice and new is logged twice, in order |
| UploadLog.LoggedRowsWereNew | ta_app_script.js:36-44 | every appended row belongs to a new file whose call returned |

## Left out

- Credentials, client construction and configuration (main.py:14-26, 46-57): vendor setup with no logic.
- `download_resume_file`'s chunk loop (main.py:80-88): the download is an oracle from the file id to bytes or an error.
- PDF parsing with `fitz` (main.py:90-97): the library becomes an oracle giving the page texts. The model keeps the `+=` loop. `ocr_threshold` is never used.
- The language model, `json.loads` and `json.dumps`: oracles, with two consequences for the model call.
  - ResumeParser.PromptText: the model oracle receives a `Request`, not the prompt string itself. `PromptText` gives the string that request stands for, and the prompt lemmas are about that string.
  - The answer is a function of the file id and the request. Different files, and the two attempts for one file, are answered independently. Asking the same request twice for the same file, which the code never does within one run, would get the same answer.
- Drive listing details (main.py:59-77): the responses are given in order instead of being looked up by page token, and a failing list call is not modelled.
  - Drive.ListFilesInFolder: requires some response to end the listing. Without one the source loops forever.
- The sort algorithm: Python's Timsort is modelled by a stable insertion sort. `StableSortIsSortBy` shows any stable sort by the same key gives the same list.
- The infinite key `float("inf")` is `None`. It is ordered after every number, which is the only way the key is used.
- BatchOrder.SortKey: a leading digit run longer than the interpreter's int-conversion limit (4300 digits by default) makes `int()` raise, which aborts `files.sort` and the batch after the header. The model gives every digit run its value, so this exception path is not modelled.
- ResumeParser.ParseWithRetry: only `json.JSONDecodeError` leads to the retry. Any other exception from `json.loads`, such as a `RecursionError` on very deeply nested output, escapes without a retry. The model treats every `Err` from the `loads` oracle as a decode error, so this path is not modelled.
- Sheets API failures: sheet writes never fail.
- `valueInputOption='RAW'` formatting and Apps Script's coercion of appended values are left out. Cells are kept as the values written.
- The spreadsheet id and the folder id: constants of the deployment.
- `print` and `Logger.log` output: not modelled.
- `new Date()` timestamps are given by position, through `clock`. Whether `UrlFetchApp.fetch` throws is also given by position, through `fetchOk`. The fetch response text is only logged, so it is not modelled.
- `getRange("B:B")` returns empty cells below the last row. They cannot equal a file id, so the snapshot holds one cell per existing row.
- `loggedIds.indexOf` compares with `===`. The model compares the id as a text cell, and a timestamp cell never equals an id.
- Python's `\d` also matches non-ASCII decimal digits. The model uses ASCII digits, and Python's `isspace` set for `\s`. The trailing `\s*` of the Apps Script pattern does not affect its group, so it is not modelled.
- A truthy `file_id` that is not a string is passed on to the run as is. What Drive does with it is part of the run oracle.
- `Json.Value`'s `Float` is a real, so it has no NaN and no ±infinity. `json.loads` produces these from `NaN`, `Infinity`, `-Infinity` or `1e999`. Neither their truthiness in `if not file_id` nor their cells in a row are modelled.
- Handler.NonObjectBody: a JSON body nested deeper than the decoder's recursion limit makes `get_json` raise a `RecursionError`, which `silent=True` does not turn into `None`. The handler still answers 500, but with the recursion error's message, not the `.get` error. `body: Option<Value>` cannot express this case, so the message is not modelled.
