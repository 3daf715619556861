# Serverless RAG without a database, modelled in Dafny

This project models the decision logic of a serverless retrieval-augmented-generation (RAG)
sample for AWS. PDF documents dropped into a material bucket are chunked, embedded and
appended to a FAISS index. The index is kept as two files (`index.faiss` and `index.pkl`) in
a vector bucket. A retrieving Lambda copies that index to `/tmp/vectorstore` once per
instance and answers questions with a RetrievalQA chain. A publisher Lambda replaces the
retrieving function's published versions with a fresh one. The web front end does three
things:
- it lists objects and charts metrics;
- it classifies the embedding function's log streams;
- it chats with the newest published version of the retrieving function.

Everything the code hands to a library is a parameter of the model (an oracle) or abstract
state. That includes PDF loading, text splitting, Bedrock embeddings and generation, FAISS
search and every AWS SDK call. What remains is modelled in the form the code takes:
- Pure expressions are `function`s with lemmas.
- Loops are `method`s with invariants.
- Objects whose fields are updated in place are `class`es: the S3 bucket, the Lambda's disk,
  an in-memory FAISS store, the Lambda service's versions, the dashboard's `Map` and the chat
  page's history entries.

Modules, one per source file plus shared helpers:
- `Wrappers`: `Option` and `Result`.
- `Text`: substring search, joining, number rendering, JavaScript `parseInt`, Python
  `str.replace` and ASCII lower-casing.
- `PosixPath`: the `os.path` functions used.
- `Sorting`: the stable sort of JavaScript `Array.prototype.sort`, as a function and as an
  in-place array method proved equal to it.
- `Documents` and `Storage`: documents, buckets, the local disk and the FAISS store.
- `AwsClient` (aws.tsx), `Dashboard`, `EmbeddingPage`, `Conversations`, `PublishVersion`,
  `EmbeddingWorker`, `RetrievalEnvelope` (the handler shared by both retrieving Lambdas),
  `RetrievingContainer` and `RetrievingFunction`.
- `EndToEnd`: lemmas that connect the parts.

Two orders are fixed by the model:
- An S3 listing returns keys in the order they were first written.
- A directory walk returns files in the order they were created.

## Model

| member | source | states |
|---|---|---|
| AwsClient.MaxBy | web/src/components/commons/aws.tsx:120 | `Math.max` over a spread: absent exactly for no data; otherwise at least every value and equal to one of them |
| AwsClient.SumByPermutation | web/src/components/commons/aws.tsx:260 | a `reduce` sum does not depend on the order of the terms |
| AwsClient.MaxByPermutation | web/src/components/commons/aws.tsx:266 | a maximum does not depend on the order of the values |
| AwsClient.CalculateChartHeight | web/src/components/commons/aws.tsx:114-127 | 50 for missing or empty data; otherwise 5 when the largest value (as `MaxBy` gives it) is 0, and that largest value times (1 + margin) when it is not, negative values included |
| AwsClient.ChartHeightCoversData | web/src/components/commons/aws.tsx:120-126 | with a positive maximum and a non-negative margin, the ceiling is the scaled maximum and at least every y |
| AwsClient.ChartHeightOfZeros | web/src/components/commons/aws.tsx:121-123 | data with no value above 0 and some value equal to 0 (such as [-1, 0]) gives 5 whatever the margin |
| AwsClient.DefaultMarginHeadroom | web/src/components/commons/aws.tsx:114-127 | with the default margin 0.1 that both dashboard charts use (Dashboard index.tsx lines 237 and 290), a positive maximum gives the ceiling 1.1 times it, strictly above every value |
| AwsClient.ReduceMaxIsMaximum | web/src/components/commons/aws.tsx:148 | the `Math.max` fold without NaN is the maximum of the start value and every element |
| AwsClient.ReduceMaxNaN | web/src/components/commons/aws.tsx:147-148 | one NaN from `parseInt` makes the whole fold NaN |
| AwsClient.VersionNumbersMembers | web/src/components/commons/aws.tsx:145-147 | a number is in the filtered and mapped list exactly when some non-$LATEST version parses to it |
| AwsClient.LatestVersionIsMaximum | web/src/components/commons/aws.tsx:145-148 | when all versions parse, the chosen version is at least every non-$LATEST version, and a positive choice is one of them |
| AwsClient.LatestVersionFallsBack | web/src/components/commons/aws.tsx:145-148 | no numbered version, or one that does not parse, gives version 0 |
| AwsClient.QualifiedNameCarriesVersion | web/src/components/commons/aws.tsx:151 | version 0 gives the bare name; a positive version gives `name:` followed by text that `parseInt` reads back as the version |
| AwsClient.SearchCall | web/src/components/commons/aws.tsx:132-164 | succeeds exactly when the session, the listing, the invocation and a returned (not errored) handler all succeed; the result is the handler's body |
| AwsClient.InvokeSearchLambda | web/src/components/commons/aws.tsx:130-171 | never fails: the body on success, otherwise `{result: error message, references: []}` |
| AwsClient.ReferencesOnlyFromHandler | web/src/components/commons/aws.tsx:160-170 | an answer with references is exactly the body of a returned handler response |
| AwsClient.ListObject | web/src/components/commons/aws.tsx:53-56 | an absent `Contents` gives []; otherwise the array is sorted in place, newest first (stably), and returned |
| AwsClient.DailyAll | web/src/components/commons/aws.tsx:267-272 | one daily row per datapoint, in order, with missing statistics as 0 |
| AwsClient.MetricsOf | web/src/components/commons/aws.tsx:253-273 | the total of the sums, the mean of the averages (0 for none), the largest maximum, all as of the unsorted datapoints; one daily row per datapoint (the same rows, as a multiset), in ascending date order |
| AwsClient.GetLambdaDurationMetrics | web/src/components/commons/aws.tsx:253-273 | the array is sorted in place by ascending timestamp, the result is `MetricsOf` the datapoints as they arrived, and row i is datapoint i of the sorted array |
| AwsClient.DailyAllPermutation | web/src/components/commons/aws.tsx:267-272 | datapoints that are a permutation of each other give daily rows that are one too |
| AwsClient.DailyRowsAddUpToTotal | web/src/components/commons/aws.tsx:255-272 | the daily rows' sums add up to `totalDurationMs` |
| Dashboard.Rows | web/src/components/pages/Dashboard/index.tsx:151-154 | one row per key in Map insertion order, each the stat with its cost |
| Dashboard.NewKeysFacts | web/src/components/pages/Dashboard/index.tsx:97-144 | the insertion order lists each day once: exactly the days already present or named by a timestamped point |
| Dashboard.DurationFoldFacts | web/src/components/pages/Dashboard/index.tsx:100-108 | the duration pass keeps every entry under its own day, and its keys are the old keys plus the days of the timestamped points |
| Dashboard.InvocationFoldFacts | web/src/components/pages/Dashboard/index.tsx:130-144 | the same for the invocations pass |
| Dashboard.UntimedPointIgnored | web/src/components/pages/Dashboard/index.tsx:101 | a point without a Timestamp changes neither the map nor its order in either pass (the second pass is at line 131) |
| Dashboard.LastOnDayDays | web/src/components/pages/Dashboard/index.tsx:101-102 | a day has a last point exactly when some timestamped point falls on it |
| Dashboard.DurationFoldLookup | web/src/components/pages/Dashboard/index.tsx:102-106 | after the duration pass, a day's entry comes wholly from the last duration point of that day (the later point wins), with 0 invocations and a missing Sum as 0 |
| Dashboard.InvocationFoldLookup | web/src/components/pages/Dashboard/index.tsx:133-141 | an existing entry changes only its invocations (from the last point of its day); a new day gets sumMs 0, the date of its first point and the sum of its last |
| Dashboard.FirstOnDayDays | web/src/components/pages/Dashboard/index.tsx:130-142 | a day has a first point exactly when some timestamped point falls on it |
| Dashboard.MergedEntry | web/src/components/pages/Dashboard/index.tsx:97-144 | a day is in the merged map exactly when either series names it. A day only in durations has 0 invocations. A day only in invocations has sumMs 0 and the last invocation point's sum. A day in both has the last duration point's sum and date and the last invocation point's sum |
| Dashboard.MergedOrderFacts | web/src/components/pages/Dashboard/index.tsx:97-151 | the insertion order lists each key of the merged map exactly once |
| Dashboard.DailyRowsFacts | web/src/components/pages/Dashboard/index.tsx:97-159 | the rows' days are exactly the days either series names, no two rows share a day, rows are ordered newest first, and each row is the merged stat of its own day with the cost of its own duration |
| Dashboard.CostFacts | web/src/components/pages/Dashboard/index.tsx:147-154 | cost is 0 exactly when sumMs is 0, and monotone in sumMs |
| Dashboard.DailyStatsMap.constructor | web/src/components/pages/Dashboard/index.tsx:97 | an empty Map with an empty insertion order |
| Dashboard.DailyStatsMap.Set | web/src/components/pages/Dashboard/index.tsx:102 | `set` replaces the value; a new key goes to the end of the order and an existing one keeps its place (the same call at line 137) |
| Dashboard.DailyStatsMap.SetInvocations | web/src/components/pages/Dashboard/index.tsx:134-135 | the in-place field update changes only `invocations` of that entry |
| Dashboard.DailyStatsMap.AddDurations | web/src/components/pages/Dashboard/index.tsx:100-108 | the first `forEach` leaves the map and order of the duration fold |
| Dashboard.DailyStatsMap.AddInvocations | web/src/components/pages/Dashboard/index.tsx:130-144 | the second `forEach` leaves the map and order of the invocations fold |
| Dashboard.DailyStatsMap.ValuesWithCost | web/src/components/pages/Dashboard/index.tsx:151-154 | a fresh array of the values in insertion order, each with its cost |
| Dashboard.FetchDailyStats | web/src/components/pages/Dashboard/index.tsx:97-161 | the rows handed to the table are `DailyRows` of the two series, so DailyRowsFacts applies |
| EmbeddingPage.Messages | web/src/components/pages/Embedding/index.tsx:91 | one message per event, and a missing message counts as "" |
| EmbeddingPage.DetermineLogStatus | web/src/components/pages/Embedding/index.tsx:90-101 | complete exactly when "COMPLETE TASK" occurs, whatever else occurs; otherwise error exactly when "ERROR" or "Task timed out" occurs; otherwise processing |
| EmbeddingPage.NoEventsIsProcessing | web/src/components/pages/Embedding/index.tsx:91-99 | no events give processing |
| EmbeddingPage.MarkerInOneMessage | web/src/components/pages/Embedding/index.tsx:91-92 | a marker inside one message occurs in the joined text |
| EmbeddingPage.CompleteAcrossAdjacentEvents | web/src/components/pages/Embedding/index.tsx:92-95 | "COMPLETE" ending one event and "TASK" starting the next still read as complete, through the single-space join |
| EmbeddingPage.TopStreams | web/src/components/pages/Embedding/index.tsx:111-118 | at most ten streams of the input, newest first by lastIngestionTime, then creationTime, then 0, and none left out is newer than one kept |
| EmbeddingPage.StatusAll | web/src/components/pages/Embedding/index.tsx:117-130 | an order-preserving map of the per-stream status |
| EmbeddingPage.StreamRowsFacts | web/src/components/pages/Embedding/index.tsx:117-128 | row i is the i-th newest stream. Its status is unknown exactly when the stream has no name, error when the fetch fails, and otherwise the classification of the fetched events, which the row keeps |
| EmbeddingPage.StatusLabelsFacts | web/src/components/pages/Embedding/index.tsx:365-374 | each of the three statuses has its own label; only other values show 不明 |
| EmbeddingPage.ModalEvents | web/src/components/pages/Embedding/index.tsx:438 | the same events, newest first, a missing timestamp as 0 |
| Conversations.ChatEntry.constructor | web/src/components/pages/Conversations/index.tsx:27-41 | an entry with the given text, author flag, references and fold flag |
| Conversations.ChatPage.constructor | web/src/components/pages/Conversations/index.tsx:27-43 | empty history, empty question, not loading |
| Conversations.ChatPage.SetValue | web/src/components/pages/Conversations/index.tsx:197 | only the question text changes |
| Conversations.ChatPage.BeginRequest | web/src/components/pages/Conversations/index.tsx:46-47 | loading starts; the history becomes the snapshot plus a fresh user entry for the question |
| Conversations.ChatPage.FinishRequest | web/src/components/pages/Conversations/index.tsx:51-57 | the history becomes the snapshot plus a fresh user entry (no references) and a fresh folded answer entry; loading ends |
| Conversations.ChatPage.HandleInvokeLambda | web/src/components/pages/Conversations/index.tsx:45-58 | the history grows by exactly the question and the answer, whose text and references are those `invokeSearchLambda` returns; loading is off at the end |
| Conversations.ChatPage.ToggleReferences | web/src/components/pages/Conversations/index.tsx:107-110 | the clicked entry's flag is negated (unset becomes true) in place; no other entry's flag changes |
| Conversations.ChatPage.ToggleWhileWaiting | web/src/components/pages/Conversations/index.tsx:45-58 | a toggle made during a request survives its answer (the toggle at lines 107-110), because the snapshot shares the entry object |
| Conversations.PageCellReadsBack | web/src/components/pages/Conversations/index.tsx:153 | without a page label (missing or empty) the page cell is the page number, followed by " / total" exactly when a total is set; parseInt reads the number back |
| Conversations.CellFallbacks | web/src/components/pages/Conversations/index.tsx:144-153 | a set title or author is shown; a missing or empty one falls back to the source or "-"; a set page label is shown as it is, followed by " / total" exactly when a total is set |
| Conversations.ReferencesCount | web/src/components/pages/Conversations/index.tsx:128 | a header exists exactly when there are references (stored at line 104), and it shows their number |
| Conversations.ReferenceRows | web/src/components/pages/Conversations/index.tsx:141-156 | one row per reference, in order, built from the three cell rules |
| Conversations.ReferenceTable | web/src/components/pages/Conversations/index.tsx:131-158 | an unfolded entry shows one row per reference (stored at line 104), in order, each from the cell rules; a folded one shows no table |
| Conversations.AnswerStartsFolded | web/src/components/pages/Conversations/index.tsx:128-131 | a fresh answer (created folded at lines 51-56) shows its count but no table |
| PublishVersion.LambdaService.constructor | cdk/functions/publishversion/main.py:13-14 | the service holds the given versions and description |
| PublishVersion.AfterDeletesKeeps | cdk/functions/publishversion/main.py:21-26 | deleting adds nothing, never removes $LATEST, and never removes an unlisted version |
| PublishVersion.AfterDeletesExact | cdk/functions/publishversion/main.py:21-26 | for an exact listing, every listed version except $LATEST is deleted and nothing else is |
| PublishVersion.DeleteFunctionVersions | cdk/functions/publishversion/main.py:18-28 | a failed listing deletes nothing; otherwise the versions are those of the delete loop, which stops at the first failing delete; the description is untouched |
| PublishVersion.Published | cdk/functions/publishversion/main.py:30-57 | a version exactly when the update, the first status read and the publish succeed, and then the one published; None on any exception |
| PublishVersion.PublishIgnoresStatus | cdk/functions/publishversion/main.py:41-53 | the status value read plays no part in what gets published |
| PublishVersion.CreateNewVersion | cdk/functions/publishversion/main.py:30-57 | with MAX_RETRIES from line 15, the loop polls once and sleeps at most once (not at all after "Success"); `retries` ends at 0 or 10, never at MAX_RETRIES, so the timeout is never raised; it returns `Published`, and the version is added to the service |
| PublishVersion.HandlerResponse | cdk/functions/publishversion/main.py:63-76 | 200 exactly for a non-empty version; otherwise 500 with "Failed to publish new version" |
| PublishVersion.PublishedMessageNamesVersion | cdk/functions/publishversion/main.py:64 | the success message is the prefix, then `function:version` |
| PublishVersion.LambdaHandler | cdk/functions/publishversion/main.py:59-76 | a failed delete does not stop the publish; the response and the versions held afterwards are those of the run |
| PublishVersion.CleanRunLeavesLatestAndNew | cdk/functions/publishversion/main.py:18-57 | after an exact listing and a successful publish, the function holds only $LATEST and the new version |
| EmbeddingWorker.ObjectKey | cdk/containers/embedding/app.py:88-89 | the key is that of the first S3 record in the first SQS message's body; fails when either is missing |
| EmbeddingWorker.OnlyFirstRecordRead | cdk/containers/embedding/app.py:88-89 | later records and messages are ignored |
| EmbeddingWorker.MaterialPathFacts | cdk/containers/embedding/app.py:97 | the document is saved directly in the material directory under the key's base name |
| EmbeddingWorker.Chunking | cdk/containers/embedding/app.py:35-54 | a path whose lower-cased extension is ".pdf" and that loads gives exactly the loader's chunks; any other path, or a load that raises, gives [] |
| EmbeddingWorker.PdfGateNeedsSuffix | cdk/containers/embedding/app.py:36-40 | a file that passes the gate ends in ".pdf" in some mix of cases |
| EmbeddingWorker.PdfGateIgnoresCase | cdk/containers/embedding/app.py:36-40 | a document named stem plus any case variant of ".pdf" (such as "x.PDF") passes the gate applied at line 97 |
| EmbeddingWorker.PdfDocumentIsChunked | cdk/containers/embedding/app.py:95-99 | a downloaded document named stem plus any case variant of ".pdf" that loads is chunked into exactly the loader's chunks |
| EmbeddingWorker.StemSplit | cdk/containers/embedding/app.py:36 | `os.path.splitext` of `dir/name.ext` splits before the extension |
| EmbeddingWorker.Inserted | cdk/containers/embedding/app.py:57-66 | the saved index always ends with the new chunks |
| EmbeddingWorker.InsertedCases | cdk/containers/embedding/app.py:60-66 | a loading index keeps its chunks in front; a failed load or add gives the new chunks alone |
| EmbeddingWorker.InsertDocument | cdk/containers/embedding/app.py:57-66 | fails on an empty chunk list, where both `add_documents` and `from_documents` raise, and then changes nothing; otherwise as `AddOrBuild` |
| EmbeddingWorker.AddOrBuild | cdk/containers/embedding/app.py:57-66 | for some chunks, succeeds exactly when the folder can be saved into (no file at it, no directory at either index file) and load-and-add or the fallback build succeeds; a failed save in the `try` falls through to the fallback; on success the folder exists and its index is `Inserted`; on failure no file but `index.faiss` changes |
| EmbeddingWorker.FailedSaveBlocks | cdk/containers/embedding/app.py:62-66 | a save that failed leaves the folder unsaveable, so the fallback save of line 66 fails too, and it changed no file but `index.faiss` |
| EmbeddingWorker.LoadVectorData | cdk/containers/embedding/app.py:69-76 | succeeds exactly when every non-folder key can be written at `os.path.join(temp_dir, key)`; then each key is there; on failure, a prefix of the keys was copied |
| EmbeddingWorker.UploadIndex | cdk/containers/embedding/app.py:27-31 | every file below the directory, in walk order, is put under its bare file name; the listing is the old one followed by each new key once, in upload order (`UploadedListing`) |
| Storage.UploadedListingFacts | cdk/containers/embedding/app.py:29-31 | the walk's uploads keep the old listing in front, list no key twice, and list exactly the keys of the uploaded bucket |
| EmbeddingWorker.UploadWalked | cdk/containers/embedding/app.py:30-31 | one walked file is put under its base name when it lies below the directory, and a new name is listed last; the bucket is otherwise unchanged |
| EmbeddingWorker.FlatUpload | cdk/containers/embedding/app.py:29-31 | for files directly in the directory, each is under its name and every other key keeps its object |
| EmbeddingWorker.IndexSurvivesDocument | cdk/containers/embedding/app.py:96-100 | writing the document outside the vector directory does not change the index loaded from it |
| EmbeddingWorker.FetchVectors | cdk/containers/embedding/app.py:92-94 | the temporary directory is created only when new; succeeds exactly when every key can then be written; a flat bucket, with no file or directory below the new directory yet, is copied in full and nothing outside the directory changes |
| EmbeddingWorker.FetchDocument | cdk/containers/embedding/app.py:96-98 | succeeds exactly when the material directory is new, the key exists, the key has a base name (a folder marker "docs/" names the directory itself and raises) and no directory stands at the target; then only the document's file is written (the download of lines 79-81) |
| EmbeddingWorker.MaterialPathNamesFile | cdk/containers/embedding/app.py:97 | the target is directly in the material directory, is not that directory, and names a file exactly when the key has a base name |
| EmbeddingWorker.DownloadLine | cdk/containers/embedding/app.py:80 | the download log line is never the "COMPLETE TASK" line |
| EmbeddingWorker.IndexMaterial | cdk/containers/embedding/app.py:95-100 | never logs "COMPLETE TASK"; succeeds exactly when the material directory is new, the key exists and has a base name, no directory is at its target, the document gives chunks, the vector folder can be saved into, and load-and-add or the fallback build succeeds; then the document is written and the two index files replaced by `Inserted` |
| EmbeddingWorker.CanSaveBesideDocument | cdk/containers/embedding/app.py:97-100 | fetching the document into the material directory does not change whether the index can be saved in the vector directory |
| EmbeddingWorker.IndexDocument | cdk/containers/embedding/app.py:92-100 | never logs "COMPLETE TASK"; for a flat bucket it succeeds exactly when the key exists, has a base name, the document gives chunks, and an index is saved; the saved index is the old chunks plus the new ones (or the new ones only) |
| EmbeddingWorker.FreshSaves | cdk/containers/embedding/app.py:92-100 | after the bucket is copied into the new temporary directory the index can still be saved there |
| EmbeddingWorker.LambdaHandler | cdk/containers/embedding/app.py:85-106 | "COMPLETE TASK" is the last line and only on success, which returns 200; a failure the model has (all of them before `upload_index`) leaves the vector bucket alone. For a flat bucket, success happens exactly when the key is found and has a base name, the document gives chunks, and an index is saved, and the bucket then holds the new index with every other object unchanged |
| EmbeddingWorker.SavedRunUploads | cdk/containers/embedding/app.py:100-103 | the saved index files sit directly in the temporary directory and go up under their names |
| EmbeddingWorker.RoundTripIndex | cdk/containers/embedding/app.py:94-103 | download, insert and upload leave the bucket's top-level index equal to the saved one |
| EmbeddingWorker.RoundTripKeeps | cdk/containers/embedding/app.py:94-103 | every object other than the two index files keeps its content |
| EmbeddingWorker.RoundTripKeys | cdk/containers/embedding/app.py:94-103 | the bucket holds its old keys plus the two index files, all bare names |
| EmbeddingWorker.RoundTrip | cdk/containers/embedding/app.py:94-103 | the four facts above together |
| RetrievalEnvelope.Question | cdk/containers/retrieving/app.py:70 | the event's question, or "EC2とはなんですか？" only when the member is absent |
| RetrievalEnvelope.References | cdk/containers/retrieving/app.py:75 | the metadata of each source document, with the same length and order |
| RetrievalEnvelope.Respond | cdk/containers/retrieving/app.py:75-81 | always 200, with the answer text and one reference per source document |
| RetrievalEnvelope.Handle | cdk/functions/retrieving/main.py:84-95 | succeeds exactly when the chain answers the question; the response is then `Respond` of that answer; a chain error propagates |
| RetrievalEnvelope.EmptyQuestionKept | cdk/functions/retrieving/main.py:85 | an empty question is kept; only an absent one is replaced |
| RetrievalEnvelope.ReferencesAppend | cdk/functions/retrieving/main.py:88 | references of concatenated document lists concatenate |
| RetrievingContainer.TargetIsConcatenation | cdk/containers/retrieving/app.py:32 | `replace("", "")` is the identity, so the target is `VECTOR_PATH/key` |
| RetrievingContainer.DownloadsEachKey | cdk/containers/retrieving/app.py:29-34 | every non-folder key that exists ends up at the path string `VECTOR_PATH/key` with its own object, no two keys sharing that string |
| RetrievingContainer.NestedKeyNeedsFolder | cdk/containers/retrieving/app.py:26-34 | a key inside a sub-folder fails unless that sub-folder already exists, since only VECTOR_PATH is created |
| RetrievingContainer.LoadVectorData | cdk/containers/retrieving/app.py:25-34 | VECTOR_PATH is created only when absent; folder keys are skipped; succeeds exactly when every other key can be written at its target, and then the files are the downloads |
| RetrievingContainer.ContainerInstance.ColdStart | cdk/containers/retrieving/app.py:37-65 | the chain is built once over the index loaded from VECTOR_PATH; for a flat bucket and a disk with no file at VECTOR_PATH and nothing below it, that is exactly the bucket's index |
| RetrievingContainer.ContainerInstance.Invoke | cdk/containers/retrieving/app.py:68-81 | after a failed cold start the handler never runs: an error and no log; otherwise it logs "INVOKE HANDLER" first and "COMPLETE TASK" exactly when the chain answered, then returns 200 with the answer and its references; the chain is not rebuilt |
| RetrievingFunction.FetchedPaths | cdk/functions/retrieving/main.py:29-35 | both index files are distinct files joined directly below VECTOR_PATH |
| RetrievingFunction.LoadVectorData | cdk/functions/retrieving/main.py:24-39 | VECTOR_PATH is created only when absent; exactly `index.faiss` and then `index.pkl` are downloaded; fails exactly when VECTOR_PATH is no directory, either object is missing, or a directory stands at either file |
| RetrievingFunction.FunctionInstance.Init | cdk/functions/retrieving/main.py:74-82 | `qa` is built once over the bucket's top-level index; it fails exactly when that index is missing, a file stands at VECTOR_PATH, or a directory at either index file |
| RetrievingFunction.FunctionInstance.Invoke | cdk/functions/retrieving/main.py:84-95 | returned exactly when the chain built by init answers; then 200 with the answer and its references |
| Storage.ObjectStore.constructor | cdk/containers/embedding/app.py:23 | an empty bucket |
| Storage.ObjectStore.Put | cdk/containers/embedding/app.py:31 | the key holds the object; a new key goes to the end of the listing |
| Storage.LocalFs.constructor | cdk/containers/embedding/app.py:92 | a disk holding only the given directories |
| Storage.LocalFs.MakeDirs | cdk/functions/retrieving/main.py:25-26 | `os.makedirs` fails on a file at the path even with `exist_ok`, and on a directory without it; otherwise the directory exists afterwards; files unchanged |
| Storage.LocalFs.WriteFile | cdk/functions/retrieving/main.py:30-33 | a write succeeds exactly when the parent directory exists, the path has a base name and no directory is at it; then only that file changes |
| Storage.Download | cdk/functions/retrieving/main.py:30-39 | `download_file` succeeds exactly when the key exists and a file can be written at the target; then only the target changes |
| Storage.Upload | cdk/containers/embedding/app.py:31 | `upload_file` succeeds exactly when the local file exists; then only that key changes, and a new key goes to the end of the listing; a failure changes neither objects nor listing |
| Storage.FaissIndex.constructor | cdk/containers/embedding/app.py:65 | `from_documents` indexes exactly the given chunks |
| Storage.FaissIndex.AddDocuments | cdk/containers/embedding/app.py:61 | new chunks go after the existing ones |
| Storage.FaissIndex.SaveLocal | cdk/containers/embedding/app.py:62-66 | succeeds exactly when no file is at the folder and no directory at either index file; then the folder exists and both index files load back as the same chunks; a failure has written at most `index.faiss` |
| Storage.DownloadedFrame | cdk/containers/embedding/app.py:71-76 | a path no key targets keeps its content, and a new path was a target |
| Storage.DownloadedAt | cdk/containers/embedding/app.py:71-76 | a key whose target no other key shares is downloaded there |
| Storage.DownloadKey | cdk/containers/embedding/app.py:72-76 | one loop pass: a folder key is skipped; otherwise the key is downloaded or the listing is unwritable |
| Storage.DownloadAll | cdk/containers/retrieving/app.py:29-34 | the copy loop: succeeds exactly when every non-folder key can be written at its target; then the files are the downloads in listing order; on failure a prefix was copied |
| Storage.UploadedFrame | cdk/containers/embedding/app.py:29-31 | a key no file is uploaded under is present afterwards exactly when it was, with its old object |
| Storage.UploadedOnlyUploads | cdk/containers/embedding/app.py:29-31 | a key that is new afterwards is the base name of some uploaded file |
| Storage.UploadedAt | cdk/containers/embedding/app.py:29-31 | a file that is alone with its base name ends up under that key |
| Storage.LoadedIsBucketIndex | cdk/containers/retrieving/app.py:38 | the index loaded from a copy of a flat bucket is the bucket's own index |
| Storage.FlatTarget | cdk/containers/embedding/app.py:74 | for a bare name both path rules give `dir/key`, and the key is no folder marker |
| Storage.FlatDownload | cdk/containers/embedding/app.py:69-76 | a flat bucket copied into an empty directory is held there, each object under its key at a file path directly in it, and nothing outside changes |
| Storage.FlatWritable | cdk/containers/embedding/app.py:71-76 | every key of a flat listing can be written into a directory that exists and has no directory below it |
| PosixPath.SplitExt | cdk/containers/embedding/app.py:36 | `os.path.splitext`: the two parts make up the path, and the extension is empty or a dot followed by no '/' and no other dot |
| PosixPath.BasenameJoin | cdk/containers/embedding/app.py:97 | the base name of `join(dir, name)` for a name without '/' is the name |
| PosixPath.DirnameJoin | cdk/containers/embedding/app.py:97 | the directory of `join(dir, name)` is the directory |
| PosixPath.SplitExtOfSuffix | cdk/containers/embedding/app.py:36 | a path ending in an extension with one dot splits there |
| Text.ParseIntNatToStringPrefix | web/src/components/commons/aws.tsx:147 | `parseInt` reads a rendered number back, whatever non-digit text follows |
| Text.IncludesIff | web/src/components/pages/Embedding/index.tsx:94-96 | `includes` holds exactly when the marker occurs |
| Text.JoinContainsPart | web/src/components/pages/Embedding/index.tsx:92 | each part occurs in the joined text |
| Text.ReplaceEmptyByEmpty | cdk/containers/retrieving/app.py:32 | Python's `s.replace("", "")` is `s` |
| Sorting.SortDescFacts | web/src/components/commons/aws.tsx:54 | the sort is a permutation, ordered by descending key, and stable |
| Sorting.SortDescTake | web/src/components/pages/Embedding/index.tsx:111-118 | a prefix of the sort holds the largest elements, in order |
| Sorting.SortInPlace | web/src/components/commons/aws.tsx:255 | the in-place sort leaves the array equal to the functional stable sort (the same sort at line 54) |
| EndToEnd.EventsOf | web/src/components/pages/Embedding/index.tsx:90-92 | the events of a run carry its log lines in order |
| EndToEnd.CompleteLineShowsComplete | cdk/containers/embedding/app.py:104 | a stream holding the worker's "COMPLETE TASK" line is shown as complete |
| EndToEnd.SuccessfulRunShowsComplete | cdk/containers/embedding/app.py:104-106 | the stream of a successful embedding run is shown as complete |
| EndToEnd.NumberIsNotLatest | web/src/components/commons/aws.tsx:146 | a published version number is never filtered out as $LATEST |
| EndToEnd.CleanPublishIsInvoked | web/src/components/commons/aws.tsx:145-151 | after a clean publish of version n, the client invokes `function:n` |
| EndToEnd.PublishedVersionNumber | web/src/components/commons/aws.tsx:146-147 | a version the publisher names n is numbered, not $LATEST, and parses back as n |
| EndToEnd.ChatShowsHandlerAnswer | web/src/components/commons/aws.tsx:160-170 | the chat shows the chain's answer and its references; when the chain raises, it shows the JSON parse error and no references |

## Left out

- I/O is an oracle or a parameter: authentication, the web client's calls to S3, CloudWatch, CloudWatch Logs and Lambda, and `fetchAuthSession`. The Python workers' S3 transfers are the methods of `Storage`, with the failures stated there. So are Bedrock embeddings and generation, PDF loading, the text splitter, FAISS search, the prompt template and the RetrievalQA chain.
- `putObject`, `getMetrics`, `listLogStreams` and `getLogEvents` in aws.tsx only forward SDK calls; they are the oracles the pages are given.
- JSON encoding and decoding are structured values; `json.dumps` and `JSON.parse` are taken to be inverse.
- Environment variable fallbacks (`??`) and the region choice are not modelled.
- S3 listing pagination is not modelled. A listing gives the keys in first-write order, not in S3's key order.
- `os.walk` gives files in creation order.
- `Promise.all` in the log stream fetch is modelled as a sequential map that keeps order.
- Floating point is `real`, with no IEEE-754 rounding and no NaN; `Math.max` of no values (-Infinity) is `None`.
- `parseInt` gives exact integers with no precision limit, and JavaScript numbers are not bounded.
- `AsciiLower` lower-cases ASCII letters only; Python's `str.lower` also folds other scripts.
- Dates are millisecond integers; the day key `toISOString().split('T')[0]` is the UTC day `t / 86400000`.
- Log lines are modelled where the code logs a fixed text and for the embedding worker's "Download <key> to <path>" line (app.py:80). Left out in the embedding worker: "splited_data chunks length N" (app.py:49), the printed exceptions (app.py:53 and app.py:64), the per-key "file_path: ..." line (app.py:75) and the printed event (app.py:86). Left out in the retrieving container: the printed target path (app.py:33) and the printed answer (app.py:73). Left out in the retrieving function: the printed result (main.py:91). Left out in the publisher: its printed and logged error and result messages (main.py:28, 56, 65 and 72).
- Removing temporary directories when a `with` block ends is not modelled.
- A `TemporaryDirectory` is modelled as creating a directory that must not exist yet. Its random name is a parameter.
- `delete_function` is modelled as failing only on a version the service does not hold. Other service errors are not modelled.
- URL-encoded S3 keys in event notifications are taken as they stand.
- Rendering, i18n, locale formatting, the Home page, the architecture diagram, `formatBytes` and the CDK stacks are not part of this model.
- EmbeddingWorker.LambdaHandler: requires the material bucket and the vector bucket to be different objects. The repository configures two buckets, and aliasing them is not modelled.
- EmbeddingWorker.LambdaHandler: describes the resulting bucket only when every key is a bare file name, which is the shape the worker itself keeps the bucket in. Other keys are only bounded by Storage.DownloadAll.
- RetrievingContainer.DownloadsEachKey: local paths are strings, and "//", "." and ".." components are not resolved. Keys such as "index.faiss" and "./index.faiss" are two files in the model and one on disk. The same holds for every path in Storage.LocalFs.
- Storage.Download: fails only for a missing key or a target that cannot be written. S3's other errors (network, access denied, throttling) are not modelled.
- Storage.Upload: fails only for a missing local file. S3's other errors (network, access denied, throttling) are not modelled. So EmbeddingWorker.UploadIndex cannot fail part-way, and a new `index.faiss` next to the old `index.pkl` after a failed upload is outside the model. EmbeddingWorker.LambdaHandler's promise that a failure leaves the vector bucket unchanged covers only the failures the model has.
- Storage.LoadedIsBucketIndex: compares success and the loaded chunks but not the error message, which names the path.
- RetrievingContainer.ContainerInstance.ColdStart: identifies the chain's index with the bucket's only for a bucket of bare file names and a disk with no file at VECTOR_PATH and nothing below it. Otherwise it states only that the index is loaded from VECTOR_PATH.
- AwsClient.MissingBodyMessage: is the message V8 (Node.js, Chrome) gives for `JSON.parse(undefined)`; other JavaScript engines word this SyntaxError differently.
- Storage.LocalFs.MakeDirs: creates only the directory named, not missing parents; every directory the workers create sits in an existing one (`/tmp` or a new temporary directory).
- Storage.LocalFs.WriteFile: fails for a missing parent, an empty base name or a directory at the path; permissions, full disks and the other causes of an `OSError` are not modelled.
- PublishVersion.CreateNewVersion: time and `sleep` are represented by the count of sleeps and the formatted time string passed in.
