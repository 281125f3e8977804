# Financial Reconciliation Agent: a verified model of its deterministic core

The agent answers questions about payment and bank transactions. A FastAPI endpoint
(`/recon_agent`) receives a question and the chat history. It asks a hosted language model
whether the question is relevant and whether it asks for a list, then does one of three things:

- it returns a greeting;
- it returns a list placeholder;
- it runs the query pipeline. The pipeline writes SQL with the model, runs it against SQL
  Server, decides whether to export the rows as a CSV file to Azure Blob Storage, and has the
  model word the answer.

Every hard decision is the language model's. This project models the deterministic code
around those calls:

- the chat-history helpers;
- the classifier post-processing (greeting override, fail-open default);
- the SQL clean-up and fallbacks;
- the export decision;
- the result envelope and the size gate;
- the answer composer's branches and download-address post-processing;
- the CSV projection, file naming and upload;
- the endpoint's routing, with its context filled in stage by stage.

Each model call, the database, the clock and the storage I/O are inputs:

- a model call is a `Completion` (either `CallFailed(error)` or `Completed(content)`); the
  answering model is a function from the prompt's contents to a `Completion`;
- the database is a function from the statement text it receives to a `DbOutcome` (a driver
  error, or column names and raw rows);
- the clock readings are stamp strings;
- the storage settings and whether the file write and the upload succeed are a `StorageEnv`.

The blob container is a class whose `blobs` map the export updates in place.

Files:

- `common.dfy`: `Option`; the database cell `Value`; the result envelope `ResultDoc` as its
  readers parse it, with `Unreadable` for text that does not parse; `Completion`.
- `text.dfy`: the Python string operations used. `strip()` over the full `isspace` set,
  `in`, `replace(p, '')` and ASCII `lower()`.
- `chat_history.dfy`: `_format_chat_history` and `_extract_last_interaction`.
- `query_plugin.dfy`: `check_relevance`, `generate_sql`, `process_list_query` and
  `should_generate_csv`.
- `database_plugin.dfy`: `execute_query` and `check_result_size`.
- `response_plugin.dfy`: `format_response`.
- `storage_plugin.dfy`: `generate_csv`, `_save_to_csv` and `_upload_to_blob_storage`.
- `endpoint.dfy`: `recon_agent_endpoint`.

Where the code loops or updates state, the model is imperative:

- the history formatter's string-building loop;
- the reverse scan with `break`;
- `check_relevance`'s in-place patch of the response;
- the flag loop of the export decision;
- the nested row-building loops of `execute_query`;
- the projection loop and the container update of `generate_csv`;
- the endpoint's step-by-step `variables` context.

Each such method is proved equal to a specification function. The lemmas state the properties
about those functions.

## Model

| member | source | states |
|---|---|---|
| Text.TrimEmptyIffBlank | plugins/query_plugin.py:99 | `s.strip()` is empty exactly when every character of `s` is whitespace, so `user_name and user_name.strip()` is truthy exactly for a name with some non-space character |
| Text.RemoveFenceLeavesNoFence | plugins/query_plugin.py:359 | after every "```" is removed, left to right, no "```" remains, even where removals bring backticks together |
| ChatHistory.FormatChatHistory | plugins/query_plugin.py:34-52 | the loop yields "No previous conversation." for an unreadable or empty history and for a list with any element that is not an object (`entry.get` raises); otherwise the concatenation in order of "User: q\n" (only for a truthy q, rendered as `str()` does) and "Assistant: a\n" (only for a truthy a) per entry |
| ChatHistory.TranscriptAppend | plugins/query_plugin.py:41-48 | entries contribute independently and in order: the transcript of two histories joined is the two transcripts joined |
| ChatHistory.TranscriptOne | plugins/query_plugin.py:43-47 | one entry contributes its user line, then its assistant line |
| ChatHistory.TranscriptEmptyIff | plugins/query_plugin.py:41-49 | a list of objects formats to "" exactly when every question and answer is falsy (missing, "", or a falsy non-string value) |
| ChatHistory.NoHistoryFormatsToSentence | plugins/query_plugin.py:37-52 | an unreadable or empty history, or one with an element that is not an object, gives exactly "No previous conversation." |
| ChatHistory.ExtractLastInteraction | plugins/query_plugin.py:54-76 | the reverse scan with `break` returns the newest entry whose stripped question and answer are both non-empty, stripped; None when it runs out, or when it first meets an element that is not an object or a field that is not a string (the `get`/`strip` raise) |
| ChatHistory.NoneIffNoneReached | plugins/query_plugin.py:61-76 | there is no last interaction exactly when every answered entry has a newer element the scan raises on; in a history where nothing raises, exactly when no entry is answered |
| ChatHistory.ReachedAnsweredIsFound | plugins/query_plugin.py:63-71 | an answered entry with nothing raising after it guarantees that the scan finds an interaction |
| ChatHistory.LatestIsNewestAnswered | plugins/query_plugin.py:63-71 | the interaction found is some answered entry, stripped, and every later entry is unanswered and does not make the scan raise |
| ChatHistory.OlderEntriesUnread | plugins/query_plugin.py:63-71 | the `break` at the newest answered entry means anything older, including elements the formatter raises on, does not change the result |
| ChatHistory.OlderNonObjectSilencesOnlyTranscript | plugins/query_plugin.py:42-52 | for `[7, {question: "q", answer: "a"}]` the formatter answers the fixed sentence while the extractor returns `{q, a}` |
| ChatHistory.NullQuestionSilencesOnlyExtractor | plugins/query_plugin.py:42-76 | a newer entry with a null question makes the extractor answer None (`strip` raises) while the formatter skips the null and prints the other lines |
| ChatHistory.LastInteractionIsStripped | plugins/query_plugin.py:64-70 | the interaction's question and answer are non-empty and carry no surrounding whitespace |
| QueryPlugin.CheckRelevance | plugins/query_plugin.py:82-158 | the classification: the fail-open value when the call or parse fails or `is_relevant` is missing; otherwise the verdict, with its response replaced by the greeting exactly when it is not relevant and a last interaction exists |
| QueryPlugin.FailureFailsOpen | plugins/query_plugin.py:151-158 | any failure gives exactly relevant, response "", not a list request |
| QueryPlugin.ClassifiedKeepsVerdict | plugins/query_plugin.py:143-149 | the verdict's `is_relevant` and `is_list_request` pass through; the response changes only for a non-relevant query with a last interaction |
| QueryPlugin.GreetingNamesLastQuestion | plugins/query_plugin.py:143-147 | the greeting, when used, contains the last interaction's question |
| QueryPlugin.GreetingNamesOnlyRealNames | plugins/query_plugin.py:99 | the greeting opens with "Hi, " + name for a name with non-space text, and with "Hi!" otherwise |
| QueryPlugin.StripFences | plugins/query_plugin.py:359 | the cleaned SQL has no "```" and no surrounding whitespace |
| QueryPlugin.StripFencesKeepsPlainText | plugins/query_plugin.py:359 | text without backticks is only stripped |
| QueryPlugin.GenerateSql | plugins/query_plugin.py:164-366 | a failed call gives the fixed `SELECT TOP 10 …` fallback; otherwise the reply is fence-free and stripped |
| QueryPlugin.ProcessListQuery | plugins/query_plugin.py:372-498 | csv_url is always null; success gives the cleaned SQL and the fixed placeholder; failure gives the fallback SQL and the apology carrying the error |
| QueryPlugin.ShouldGenerateCsv | plugins/query_plugin.py:504-536 | the flag loop answers "false" for an unsuccessful or unreadable result; otherwise "true" exactly when the lower-cased input contains one of the six indicators or row_count > 20 |
| QueryPlugin.CsvDecisionIgnoresCase | plugins/query_plugin.py:526 | the decision does not depend on the input's letter case |
| QueryPlugin.MoreWordsKeepExport | plugins/query_plugin.py:526 | appending text to a question that triggers an export still triggers it |
| QueryPlugin.ExportThresholdIsStrict | plugins/query_plugin.py:529-530 | with no indicator, 20 rows give "false" and 21 give "true" |
| DatabasePlugin.CleanQuery | plugins/database_plugin.py:71 | the cleaned statement has no backtick and no surrounding whitespace |
| DatabasePlugin.CleanQueryKeepsPlainText | plugins/database_plugin.py:71 | a statement without backticks or "sql" is only stripped |
| DatabasePlugin.Convert | plugins/database_plugin.py:108-111 | a set or complex number becomes the string of its `str()` text; every other value is kept unchanged; no set or complex number remains |
| DatabasePlugin.RowUpToKeys | plugins/database_plugin.py:105-111 | the row dict's keys are exactly the column names stored so far |
| DatabasePlugin.RowUpToValues | plugins/database_plugin.py:105-111 | a column name maps to the converted value at its last index: a later duplicate name wins |
| DatabasePlugin.Envelope | plugins/database_plugin.py:103-129 | success carries the column names, one row per fetched row, `row_count` = number of rows and no error; failure carries only `success: false` and the error |
| DatabasePlugin.ExecuteQuery | plugins/database_plugin.py:59-129 | the nested loops give the envelope of what the database returns for the cleaned statement, including the `IndexError` for a short row |
| DatabasePlugin.ResultRowsAreShapedRows | plugins/database_plugin.py:103-118 | each output row maps every column name to the converted value at that column's index (the last index for a repeated name), with exactly the column names as keys |
| DatabasePlugin.DriverFailureIsReported | plugins/database_plugin.py:123-129 | a driver error gives `{success: false, error: msg}` with no rows or count |
| DatabasePlugin.CheckResultSize | plugins/database_plugin.py:135-166 | too large exactly when row_count > 10000 (missing read as 0), with the matching message; an unreadable result is too large |
| DatabasePlugin.SizeGateCountsFetchedRows | plugins/database_plugin.py:147-150 | on executed results, the gate fires exactly for a successful result with more than 10000 fetched rows |
| ResponsePlugin.AppendDownloadUrl | plugins/response_plugin.py:123-124 | a non-empty address leaves the marker in the answer; the answer is unchanged for an empty address or one already marked; otherwise the address is appended after "\n\nDownload URL: " |
| ResponsePlugin.MarkerInLead | plugins/response_plugin.py:124 | the appended text contains "Download URL:" |
| ResponsePlugin.AppendDownloadUrlIdempotent | plugins/response_plugin.py:123-124 | appending the address twice equals appending it once |
| ResponsePlugin.FormatResponse | plugins/response_plugin.py:57-130 | unreadable result: apology with the error; failed result: the error report, "Unknown error" by default; no rows: "No data found for the prompt."; more than 10000 rows: the fixed refusal, in that order |
| ResponsePlugin.EarlyRepliesIgnoreModel | plugins/response_plugin.py:77-90 | the fixed replies do not depend on the model |
| ResponsePlugin.ModelSeesFirstRows | plugins/response_plugin.py:104-107 | a worded result shows the model the first min(50, n) rows in order, the total row_count and the address |
| ResponsePlugin.ReplyCarriesUrlOrError | plugins/response_plugin.py:120-130 | a completed call's reply carries the marker when an address is given; a failed call's reply is the apology with its error |
| ResponsePlugin.WordedAnswerCarriesUrl | plugins/response_plugin.py:120-126 | a worded answer for a non-empty address always contains "Download URL:" |
| ResponsePlugin.SizeGateIsStrict | plugins/response_plugin.py:89-90 | 10000 rows are worded; 10001 are refused |
| StoragePlugin.ProjectRow | plugins/storage_plugin.py:46 | one value per column, in column order; a missing key gives None |
| StoragePlugin.BasenameAfterSlash | plugins/storage_plugin.py:126 | `os.path.basename` of dir + "/" + name is name when name has no "/" |
| StoragePlugin.TempFileName | plugins/storage_plugin.py:54 | the temporary file is named `query_results_<stamp>.csv` |
| StoragePlugin.BlobNameInjective | plugins/storage_plugin.py:125-127 | equal-length stamps give the same blob name only for the same stamp and file name, so same-second exports overwrite each other |
| StoragePlugin.UploadToBlobStorage | plugins/storage_plugin.py:100-143 | no address and no change when a setting is missing or the upload fails; otherwise the file is stored under `<stamp>_<basename>`, replacing any blob of that name, and the address is returned |
| StoragePlugin.SaveToCsv | plugins/storage_plugin.py:73-98 | a failed write gives None and no upload; otherwise the file uploaded is the header row followed by the rows in order |
| StoragePlugin.ExportOf | plugins/storage_plugin.py:23-71 | "null" and nothing published for an unsuccessful result, no rows, a failed write, missing settings or a failed upload |
| StoragePlugin.GenerateCsv | plugins/storage_plugin.py:23-71 | the projection loop and upload answer the export's address and add exactly the published blob to the container |
| StoragePlugin.NullIffNothingPublished | plugins/storage_plugin.py:38-67 | the answer is "null" exactly when nothing is uploaded; otherwise it is the uploaded blob's address and the blob holds the header and the projected records |
| StoragePlugin.RecordsProjectRows | plugins/storage_plugin.py:41-47 | the records keep the rows' order and number, and each lists the row's values in column order |
| StoragePlugin.ExportAddress | plugins/storage_plugin.py:125-137 | the address is account + "/" + container + "/" + stamp + "_query_results_<file stamp>.csv" |
| Endpoint.ExportFollowsDecision | main.py:132 | the case-insensitive test accepts exactly the decision "true" |
| Endpoint.ReconAgentEndpoint | main.py:62-151 | the method answers `Respond` and updates the container by exactly the blob the export publishes |
| Endpoint.RunQueryPipeline | main.py:109-147 | the query branch, stage by stage over the context, answers the pipeline's response and publishes its blob |
| Endpoint.MissingInputIsServerError | main.py:149-151 | a missing or empty chat_input (the 400 of lines 70-71) ends as a 500 with detail "Error processing request: 400: Please provide a valid question in the request body" |
| Endpoint.NotRelevantAnswersAtOnce | main.py:91-98 | not relevant: the classifier's response (the greeting when a last interaction exists, "" when missing), csv_url None, nothing uploaded |
| Endpoint.NotRelevantConsultsOnlyClassifier | main.py:96-98 | a non-relevant answer depends on no stage after classification |
| Endpoint.QueryRouteRunsPipeline | main.py:91-110 | a failed classification, a missing `is_relevant`, or relevant with `is_list_request` false or missing, runs the query pipeline; every other reply answers without an address or upload |
| Endpoint.ListRequestIsPlaceholder | main.py:100-108 | a list request answers the list plugin's placeholder or apology with csv_url None and no upload |
| Endpoint.ListRequestRunsNoQuery | main.py:100-108 | a list request's answer depends on neither the database, the SQL writer, the storage nor the answering model |
| Endpoint.ExportIffRequested | main.py:131-138 | csv_url is set exactly when the decision lower-cases to "true", and is then the storage result verbatim; only then is anything uploaded, at an address other than "null" |
| Endpoint.AnswerWordsExecutedResult | main.py:112-147 | the answer is worded from the result of running the written SQL, that SQL, and `csv_url or ""` |
| Endpoint.DatabaseErrorIsReported | main.py:118-147 | a database error is answered with its message, no csv_url and no upload |
| Endpoint.FailedExportAdvertisesNull | main.py:138-147 | with more than 20 rows, storage unconfigured and a model that answers, csv_url is "null", nothing is uploaded, and the worded answer still contains "Download URL:" |
| Endpoint.OversizedResultIsStillExported | main.py:125-147 | more than 10000 rows are refused in words, yet csv_url is still set because the export is still requested |

## Where the code's comments and its behaviour differ

The model follows the behaviour:

- plugins/query_plugin.py:480 says the caller goes on to execute the list query's SQL and
  export the rows. main.py:100-108 returns the list plugin's placeholder text with a null
  csv_url instead: no SQL runs and nothing is exported (`ListRequestIsPlaceholder`,
  `ListRequestRunsNoQuery`).
- More than 10000 rows are refused in words yet still exported. The export decision only asks
  for more than 20 rows (`OversizedResultIsStillExported`).
- plugins/storage_plugin.py:52 and :124 call the file and blob names unique. Both are stamped
  only to the second, and the upload overwrites. Two exports in the same second therefore get
  one address, the later replacing the earlier (`BlobNameInjective`, `UploadToBlobStorage`).

## Left out

- The language-model calls and their prompt texts: each call is an input. The classifier's
  reply is reduced to its three keys after `json.loads`; other keys (`refers_to_previous`,
  `list_reasoning`) pass through untouched and are not modelled.
- The pymssql connection, `_setup_database` and `get_schema` in database_plugin.py: foreign
  libraries. The database is a function from statement text to outcome.
- File I/O, `csv.writer` quoting and the removal of the temporary file: the file is its header
  and records; whether the write and the upload succeed are inputs.
- `datetime.now()`: the two stamps are inputs.
- The Semantic Kernel layer in main.py:80-145: `kernel.create_new_context`, `kernel.run_async`
  and the `str(result)` hand-off of each stage's output. The model calls the plugin functions
  directly and passes their results as values.
- `json.dumps`/`json.loads` between stages: the envelope is passed as a value. `default=str`
  turns dates and decimals into text; those values stay in the `Other` constructor as they are.
- FastAPI, async/await, environment variables and logging. The 500's detail assumes that
  `str()` of an `HTTPException` renders as "<status>: <detail>".
- Python truthiness of non-boolean JSON values in the classification, and a non-string
  `chat_input`: the fields are modelled as booleans and strings.
- The `str()` rendering and the truthiness of a non-string `question` or `answer` in the chat
  history: both are given with the value (`ChatHistory.NotText`), not computed from JSON.
- `lower()` and `strip()` beyond ASCII letters and the `isspace` set: no Unicode case folding.
- response_plugin.py:33-51 repeats `_format_chat_history` verbatim. It is modelled once, by
  `ChatHistory.FormatChatHistory`.
- QueryPlugin.GenerateSql: the contract does not say that the fallback statement is free of
  "```"; it says the result is that fixed statement.
- Endpoint.RunQueryPipeline: the order of the stages is stated as data flow, not as a
  recorded trace. Each stage is given the previous stage's output (`AnswerWordsExecutedResult`,
  `ExportIffRequested`), and the method calls the stages in the code's order.
