# SEC filings pipeline — a verified Dafny model

This project models the core of an AWS Step Functions pipeline. The pipeline ingests SEC EDGAR company submissions, stores recent filings, cleans the filing documents, embeds them, and scores their sentiment. The model has four parts.

1. **The completion barrier** (`CompletionBarrier`, the filings-queue Lambda). It runs a bounded loop of zero-visibility peeks at the sentiment queue. The loop resolves the FilingsQueue task token with success at the first peek that sees no message tagged with the run's `batch_id`. After five polls that all saw tagged messages, it resolves with an `ExecutionTimeout` failure. Any exception resolves it with `ExecutionError`. A callback whose own client call raises never reaches Step Functions; the model tracks which callbacks were delivered. The model keeps this heuristic exactly as written. "Success" means one peek of at most ten messages saw none of the batch. It does not mean the queue is empty.
2. **The workflow definition and its interpreter** (`Asl`, `Pipeline`, `WorkQueue`).
   - `Asl` is a small interpreter for the Amazon States Language subset the definition uses: Task and Parallel states, `Next`/`End`, `Parameters`, `Retry` (ErrorEquals, IntervalSeconds, MaxAttempts, BackoffRate) and `Catch`. Stage outcomes come from an oracle.
   - `Pipeline` writes the declared state machine as a Dafny value and proves its properties:
     - the shape of the graph;
     - ErrorHandler is an absorbing sink;
     - the retry schedule of 30 s then 60 s;
     - the order of the Parallel join;
     - every run settles.
   - `WorkQueue` holds the sentiment queue's redrive and consumer-mapping settings.
3. **Pure string and data transforms**:
   - `Text`: `str.zfill`, `split`, `replace`;
   - `SecKeys`: submissions keys, filing keys and their parser, archive URLs;
   - `Markup`: the `<[^<]+?>` tag stripper and the whitespace collapse;
   - `Embeddings`: chunking;
   - `CompanyProc`: company-facts renaming and recent-filing selection.
4. **Stage control flow with abstract effects**: the handlers of company-ingest, company-proc, filings-ingest, embeddings, sentiment and error-handler (`CompanyIngest`, `CompanyProc`, `FilingsIngest`, `Embeddings`, `Sentiment`, `ErrorReport`).
   - S3, SQS, HTTP, OpenAI, Postgres and Step Functions calls are function-typed parameters. Each one returns `Option` or `Exit` for success or failure.
   - A handler's result is its list of effects plus its exit. The exit is `Return(json)` or `Raise(type, message)`.
   - The `BadRequest:`, `DatabaseConnectionError:` and `InternalServerError:` prefixes are modelled as the handlers build them.

Shared modules: `Wrappers` (`Option`), `Json` (decoded JSON values with Python truthiness and iteration) and `Runtime` (`Exit`, `d[key]`, `d.get`, and the `raise Exception(f"{prefix}: {e}")` wrapper). The Python runtime is 3.12, so error messages use its wording (`__main__.py:18`).

Delays in the retry schedule are `real` numbers, because BackoffRate is the float 2.0. Everything else uses unbounded integers and `seq<char>` strings.

## Model

| member | source | states |
|---|---|---|
| CompletionBarrier.Matching | src/filings-queue/handler.py:29-36 | a message is kept iff its `batch_id` attribute's string value equals the run's batch id; messages without the attribute never match |
| CompletionBarrier.DrainedRun | src/filings-queue/handler.py:38-49 | the first peek that sees no batch message is followed by exactly one `send_task_success`, with no further peek, sleep or failure call; k earlier matching peeks mean k+1 receives and k sleeps |
| CompletionBarrier.TimedOutRun | src/filings-queue/handler.py:51-59 | five peeks that all see the batch give five receives, five sleeps (one after the last peek too), then exactly one `send_task_failure` "ExecutionTimeout" and no success |
| CompletionBarrier.CrashedRun | src/filings-queue/handler.py:61-64 | a peek that raises ends the loop with one `send_task_failure` "ExecutionError" whose cause is the exception text, and no success |
| CompletionBarrier.MissingKeyRun | src/filings-queue/handler.py:12-13 | a missing `task_token` or `batch_id` raises before any peek or callback |
| CompletionBarrier.EveryRunBounded | src/filings-queue/handler.py:14-27 | whatever the queue does: at most five receive calls, each a peek of at most ten messages with VisibilityTimeout 0 and no wait, and never more sleeps than peeks |
| CompletionBarrier.PollFromShape | src/filings-queue/handler.py:18-52 | the poll loop's log is one peek-and-sleep round per peek that saw the batch, then the stopping peek, or nothing after five rounds |
| CompletionBarrier.PollFromBounded | src/filings-queue/handler.py:18-52 | the poll loop alone makes at most one peek per remaining attempt, each the fixed peek request, sleeps only after a peek, and sends no callback |
| CompletionBarrier.ExactlyOneCallback | src/filings-queue/handler.py:17-64 | with both event keys present and no Step Functions call raising, exactly one of success or failure is sent, as the last call |
| CompletionBarrier.DeliveredAll | src/filings-queue/handler.py:40-64 | when no Step Functions call raises, every logged call reaches Step Functions |
| CompletionBarrier.DeliveredCallbacks | src/filings-queue/handler.py:17-64 | after the poll loop's own calls, what reaches Step Functions is the intended callback if it did not raise, else the `except` clause's ExecutionError report if that did not raise (and the first call was not already that report), else nothing |
| CompletionBarrier.SuccessDespiteQueuedMessages | src/filings-queue/handler.py:29-49 | a peek that sees only another batch's messages resolves the token with success, so success does not mean the queue is empty |
| Asl.FirstMatch | __main__.py:241-249 | the retrier or catcher chosen is the first one whose ErrorEquals matches the error; no earlier one matches |
| Asl.TaskFailedMatcher | __main__.py:243 | "States.TaskFailed" matches every error except "States.Timeout" and "States.Runtime" |
| Asl.AllMatcher | __main__.py:249 | "States.ALL" matches every error except "States.Runtime" |
| Asl.Find | __main__.py:233-351 | a state is found under a name iff some declared state carries that name, and what is found is that state |
| Asl.RetryDelayGeometric | __main__.py:244-246 | the first wait is IntervalSeconds and each later wait is the previous one times BackoffRate |
| Asl.RetryDelayMonotone | __main__.py:246 | with a backoff rate of at least 1 the waits never shrink |
| Asl.RetryStep | __main__.py:241-248 | a matching failure with retries left is followed by the wait for that retry and a new attempt of the same state on the same input |
| Asl.RetryThenSucceed | __main__.py:241-248 | a Task with one retrier whose attempts fail k matching times and then succeed, within MaxAttempts, is retried exactly k times with waits delay(from+1)..delay(from+k) on the same input, and ends with the succeeding attempt's output |
| Asl.SucceedStep | __main__.py:333-336 | a succeeding attempt of a state marked `End` finishes the run with that attempt |
| Asl.RetriesExhausted | __main__.py:241-249 | once the retries are used up, a failure goes to the first matching catcher with {"Error","Cause"} as input, or fails the run when none matches |
| Asl.BranchesJoinInOrder | __main__.py:282-330 | when every branch succeeds, the Parallel result lists the branch outputs in declared order, each branch having run on the same input |
| Asl.BranchFailureSurfaces | __main__.py:282-331 | when earlier branches succeed and a branch fails, the Parallel state fails with that branch's error and cause |
| Pipeline.MainLineOrder | __main__.py:232-336 | following `Next` from StartAt visits CompanyIngest, CompanyProc, FilingsIngest, ParallelProcessing, FinalReport, and FinalReport ends the machine |
| Pipeline.NamesDistinct | __main__.py:233-351 | the six top-level state names are pairwise different |
| Pipeline.FindEach | __main__.py:233-351 | each of the six names resolves to the state declared under it |
| Pipeline.WorkflowWellFormed | __main__.py:226-355 | state names are unique, and every `Next` and every catcher target names a defined state, in the branches too |
| Pipeline.CatchesGoToErrorHandler | __main__.py:249-345 | every top-level state other than ErrorHandler catches "States.ALL" into ErrorHandler |
| Pipeline.ErrorHandlerAbsorbing | __main__.py:347-351 | a run that enters ErrorHandler invokes it once (unless its Parameters fail, a States.Runtime error) with no retry and no catch, and ends with exactly that invocation's outcome |
| Pipeline.DeclaredErrorHandler | __main__.py:347-351 | the declared ErrorHandler is a sink (End, no Retry, no Catch) and hands its input to the Lambda unchanged |
| Pipeline.RetrySchedule | __main__.py:241-248 | every retrying state uses [States.TaskFailed], 30 s, MaxAttempts 2, rate 2.0, which allows at most two retries waiting 30 s then 60 s |
| Pipeline.ParallelShape | __main__.py:282-331 | ParallelProcessing has exactly the branches Embeddings then FilingsQueue; each is one Task that retries but has no Catch, so a branch failure reaches the Parallel state's Catch |
| Pipeline.ParallelOutputOrder | __main__.py:282-330 | when both branches succeed, the Parallel output is [Embeddings output, FilingsQueue output] |
| Pipeline.ParallelFailure | __main__.py:288-331 | a failing branch's error becomes ParallelProcessing's failure |
| Pipeline.StageInputs | __main__.py:238-315 | CompanyIngest and CompanyProc receive {cik_list: CIK_LIST}; Embeddings receives only `file_names`; FilingsQueue receives its function name and a payload of `batch_id` and the task token |
| Pipeline.OnlyCallbackTask | __main__.py:307-317 | FilingsQueue is the only `waitForTaskToken` task; every other task invokes a Lambda directly |
| Pipeline.EveryRunSettles | __main__.py:226-355 | whatever the stages do, a run finishes, and a failed run fails with States.Runtime or with ErrorHandler's own error: every stage failure is routed to ErrorHandler |
| Pipeline.TimeoutIsRetried | __main__.py:318-325 | a barrier timeout whose callback goes through resolves the token with "ExecutionTimeout", which the branch retrier matches (the wait and re-run that follow a match are Asl.RetryStep) |
| Pipeline.Resolution | __main__.py:309-315 | over the calls that reached Step Functions, a task token stays unresolved iff no delivered callback is addressed to it |
| Pipeline.ResolutionSingleUse | __main__.py:309 | the first delivered callback for a task token decides it; callbacks delivered later change nothing |
| Pipeline.BarrierOutcomes | src/filings-queue/handler.py:38-64 | a barrier run whose callback goes through resolves the task with success, "ExecutionTimeout" or "ExecutionError" as the loop ended; one whose callback raised is resolved by the `except` clause's "ExecutionError" carrying that error; the token stays unresolved iff the first Step Functions call raised and either there was no second call (a peek raised) or the second raised too |
| Pipeline.ThrottledSuccess | src/filings-queue/handler.py:40-64 | a drained run whose `send_task_success` raised "Throttled" resolves the task with ExecutionError "Throttled", not success; if the report raises too, the token stays unresolved |
| Pipeline.DeclaredCatchNeverReports | __main__.py:347-351 | as declared, ErrorHandler gets only {Error, Cause}; its Lambda raises KeyError 'Execution' before writing, so no report is ever saved |
| Pipeline.CorrectedCatchReports | __main__.py:347-351 | when ErrorHandler's Parameters pass the execution id and name with the caught error and cause, exactly one report carrying them is written and the run ends normally |
| Pipeline.CorrectedKeepsShape | __main__.py:226-355 | the corrected definition is still well formed, has the same main line, and every run of it settles |
| WorkQueue.FateFrom | __main__.py:142-145 | a message is received at most three times, and it is dead-lettered only once it has been received three times |
| WorkQueue.DeadLetteredIffThreeFailures | __main__.py:137-146 | with the consumer as the only reader, a message is dead-lettered iff its first three deliveries fail and it is received again; otherwise the first successful delivery consumes it |
| WorkQueue.PeeksExhaustRedrive | __main__.py:142-145 | three barrier peeks spend the whole redrive budget, so the next receive dead-letters the message without delivering it |
| WorkQueue.Batches | __main__.py:209-219 | the consumer mapping hands the sentiment Lambda one message per invocation: each delivered message is a batch of its own (delivery order is the queue's, not modelled) |
| Text.Zfill | src/company-ingest/handler.py:19 | `zfill(w)` has length max(w, len), keeps the original as a suffix (after a leading sign), and the padding is all '0' |
| Text.RemoveAll | src/company-proc/handler.py:64 | `replace("-", "")` leaves no '-' and keeps every other character and its count |
| Text.RemoveAllAppend | src/company-proc/handler.py:64 | removal distributes over concatenation, so the kept characters stay in their original order |
| Text.RemoveAllOne | src/company-proc/handler.py:64 | a single character is deleted exactly when it is the removed one; with RemoveAllAppend this pins the result down completely |
| Text.JoinSplit | src/embeddings/handler.py:35-38 | joining the pieces of `s.split(c)` with `c` gives back `s` |
| Text.SplitJoin | src/embeddings/handler.py:35-38 | splitting a join of separator-free pieces gives back the pieces |
| Text.SplitCount | src/embeddings/handler.py:35-38 | a string splits into one more piece than it has separators |
| SecKeys.SubmissionsKeyShape | src/company-ingest/handler.py:19-30 | for a CIK of at most ten digits the key is "submissions/CIK" + the CIK right-aligned in ten zero-padded characters + ".json", and the URL is that key under https://data.sec.gov/ |
| SecKeys.ParseFilingKey | src/embeddings/handler.py:35-38 | parsing succeeds iff the key has at least three '/' parts and the third splits on '_' into exactly two; the CIK is the second part |
| SecKeys.ParseFilingKeyRoundTrip | src/embeddings/handler.py:35-38 | parsing "filings/{cik}/{form}_{acc}.txt" with no '/', '_' or '.' in the parts gives back (cik, form, acc) |
| SecKeys.ParseFilingKeyRejectsUnderscoreForm | src/embeddings/handler.py:37 | a form containing '_' produces a key the parser rejects |
| SecKeys.ArchiveUrlParts | src/company-proc/handler.py:64-66 | the archive URL is the EDGAR data prefix followed by the CIK, the accession number without '-', and the primary document, as three '/'-separated parts |
| Markup.TagEndFirst | src/filings-ingest/handler.py:66 | a tag at the front ends at the FIRST '>' at least two characters later with no '<' before it (lazy match), and there is none when no such '>' exists |
| Markup.StripTagsOnlyDeletes | src/filings-ingest/handler.py:66 | tag stripping only deletes characters: the result's multiset is contained in the input's |
| Markup.StripTagsKeepsPlainText | src/filings-ingest/handler.py:66 | text without '<' passes through unchanged |
| Markup.StripTagsDropsTag | src/filings-ingest/handler.py:66 | '<' + a non-empty body without '<' or '>' + '>' is deleted whatever follows |
| Markup.StripTagsNotIdempotent | src/filings-ingest/handler.py:66 | one pass can leave a tag behind ("<x<y>>" becomes "<x>"), so stripping is not idempotent |
| Markup.StripTagsScan | src/filings-ingest/handler.py:66 | the left-to-right scan loop builds the same text as the recursive definition |
| Markup.SqueezeShape | src/filings-ingest/handler.py:67 | after `re.sub(r'\s+', ' ', s)` no two whitespace characters are adjacent, the result is empty iff the input is, and it starts with whitespace iff the input does |
| Markup.SqueezeWords | src/filings-ingest/handler.py:67 | `re.sub(r'\s+', ' ', s)` is the words of `s` (its maximal non-whitespace runs) with exactly one ' ' between neighbours, plus one ' ' for a leading and one for a trailing whitespace run |
| Markup.CollapseWhitespaceWords | src/filings-ingest/handler.py:67 | `re.sub(r'\s+', ' ', s).strip()` equals `" ".join(s.split())`: every whitespace run between two words becomes exactly one space and the runs at the ends vanish |
| Markup.CollapseWhitespaceShape | src/filings-ingest/handler.py:67 | cleaned text has no leading or trailing whitespace, every whitespace is a single ' ' between non-whitespace, and the non-whitespace text is unchanged |
| Markup.CollapseWhitespaceIdempotent | src/filings-ingest/handler.py:67 | collapsing already collapsed text changes nothing |
| CompanyIngest.Visit | src/company-ingest/handler.py:19-37 | one company fetches "https://data.sec.gov/submissions/CIK{padded}.json", and stores exactly what it fetched under "submissions/CIK{padded}.json" when the fetch succeeds |
| CompanyIngest.IngestAllEffects | src/company-ingest/handler.py:18-43 | the loop fetches each company's URL in list order and stores exactly the documents EDGAR returned; per-company errors are swallowed |
| CompanyIngest.IngestAllFailure | src/company-ingest/handler.py:18-19 | the loop stops at the first non-string CIK with the AttributeError `zfill` raises on it |
| CompanyIngest.HandleOutcome | src/company-ingest/handler.py:11-49 | the stage returns OK iff `cik_list` is a non-empty list of strings (or a non-empty string); a missing or empty list is "BadRequest: No CIK values provided" with no effect |
| CompanyIngest.NonStringCikAborts | src/company-ingest/handler.py:18-49 | a non-string CIK aborts the run with InternalServerError after the companies before it were visited |
| CompanyIngest.HandleEffects | src/company-ingest/handler.py:17-45 | a non-empty list of string CIKs returns {"CompanyIngest": "OK"}, fetches every company's URL in order, and stores the documents it got |
| CompanyProc.CompanyFacts | src/company-proc/handler.py:17-31 | `get_company_facts` gives exactly the twelve columns; each holds its attribute's value or null; tickers and exchanges hold [] when theirs is missing or falsy |
| CompanyProc.RenamingBijective | src/company-proc/handler.py:18-31 | the column/attribute renaming is a bijection |
| CompanyProc.CompanyFactsRestore | src/company-proc/handler.py:17-31 | reading the facts row back under the original names gives the document's twelve attributes |
| CompanyProc.Zip | src/company-proc/handler.py:88-90 | zip yields as many rows as the shortest of the four arrays, row i taking the i-th element of each |
| CompanyProc.KeptRows | src/company-proc/handler.py:87-103 | the reference filter: exactly the rows whose form is 10-K, 8-K or 10-Q |
| CompanyProc.SelectFromFirst | src/company-proc/handler.py:87-103 | the loop with its break at two keeps the first two wanted-form rows of the reference filter, in order |
| CompanyProc.RecentFilingsSelect | src/company-proc/handler.py:80-103 | the recent filings are the first two zipped rows whose form is 10-K, 8-K or 10-Q, in source order |
| CompanyProc.RecentFilingsMissing | src/company-proc/handler.py:81-85 | a document without `filings` or `recent` has no recent filings |
| CompanyProc.RecentFilingsBounded | src/company-proc/handler.py:91-101 | at most two filings are kept, each of a wanted form |
| CompanyProc.FilingWrites | src/company-proc/handler.py:62-77 | one filing row per selected filing, each with the archive URL formed from the CIK, the dashless accession and the primary document |
| CompanyProc.FilingArchiveUrls | src/company-proc/handler.py:64-66 | each filing row's URL splits into the CIK as listed, the accession number without '-', and the primary document |
| CompanyProc.ProcessCik | src/company-proc/handler.py:128-139 | a company that succeeds read its submissions key and wrote one facts row followed by at most two filing rows under its CIK |
| CompanyProc.ProcessCikWrites | src/company-proc/handler.py:128-139 | a company succeeds iff its CIK is a string, its document is stored and is an object, its recent filings render and every write is accepted; its writes are then the company_facts row of that document followed by the company_filings rows of its kept recent filings |
| CompanyProc.TransactionAfterLastFailure | src/company-proc/handler.py:126-145 | a rollback discards every write made before it, including earlier successful companies' writes; the commit holds exactly the writes of the companies after the last failure |
| CompanyProc.LastFailureDiscardsAll | src/company-proc/handler.py:140-145 | when the last company fails, nothing is committed, however many succeeded before it |
| CompanyProc.NoFailureKeepsAll | src/company-proc/handler.py:126-145 | with no failure, every company's writes are committed in list order |
| CompanyProc.EmptyListRejected | src/company-proc/handler.py:112-115 | a missing or empty `cik_list` raises "BadRequest: No CIK values provided" before any connection is opened |
| CompanyProc.HandleCommits | src/company-proc/handler.py:117-156 | the run returns {"CompanyProc": "OK"} iff connect and commit succeed, whatever happened to each company; a failing connect or commit is a DatabaseConnectionError |
| CompanyProc.HandleReads | src/company-proc/handler.py:127-132 | once connected, one submissions key is read per string CIK, in list order |
| CompanyProc.ReadsWhatIngestStored | src/company-proc/handler.py:129-130 | for the same CIK list, the keys read are exactly the keys company-ingest writes, so every document it stored is read |
| FilingsIngest.CleanShape | src/filings-ingest/handler.py:64-67 | the stored text is the words of the unescaped, tag-stripped document joined by single spaces; so it has no whitespace at either end and keeps the non-whitespace in order |
| FilingsIngest.Visit | src/filings-ingest/handler.py:57-92 | one filing is fetched, stored under "filings/{cik}/{form}_{acc}.txt" with its cleaned text, then announced with a message naming that key; it is delivered iff fetch, store and send all succeed |
| FilingsIngest.Handle | src/filings-ingest/handler.py:20-107 | a failing query is an InternalServerError with no effects; otherwise the stage returns normally (the corrected handler) |
| FilingsIngest.IngestPartition | src/filings-ingest/handler.py:52-98 | `file_names` lists, in input order, exactly the filings whose store and send succeeded, and `failed_files` the others, under their own keys (corrected) |
| FilingsIngest.HandleResult | src/filings-ingest/handler.py:99-104 | the result has exactly batch_id, file_names, failed_files and file_count; file_count equals len(file_names); file_names and failed_files list the succeeding and the failing keys, each in input order, and every filing lands in one of the two lists |
| FilingsIngest.HandleTagsMessages | src/filings-ingest/handler.py:50-90 | every message carries the one batch id minted for the run and the bucket, follows the store of the key it names, and its body matches that filing |
| FilingsIngest.HandleStoresCleanText | src/filings-ingest/handler.py:60-73 | every stored object holds the cleaned text of the document fetched just before it |
| FilingsIngest.HandleAsWritten | src/filings-ingest/handler.py:52-107 | the handler as written: a failing query is an InternalServerError, and every raise is wrapped as an Exception |
| FilingsIngest.AsWrittenFileNames | src/filings-ingest/handler.py:52-97 | since the append comes after the store and the send, the as-written loop, when it finishes, lists exactly the announced filings in `file_names`, in input order |
| FilingsIngest.AsWrittenTagged | src/filings-ingest/handler.py:72-90 | every message the as-written loop sends carries the batch id and follows the store of the file it names |
| FilingsIngest.HandleAsWrittenResult | src/filings-ingest/handler.py:50-104 | the handler as written tags every message and, when it returns, reports the batch id, the announced filings in order and their count; only `failed_files` can differ from the corrected handler |
| FilingsIngest.FirstFetchFailureAborts | src/filings-ingest/handler.py:93-97 | as written, a failed fetch of the first filing makes the `except` clause raise, failing the whole stage; the corrected handler records that filing as failed and returns |
| FilingsIngest.StaleFailedName | src/filings-ingest/handler.py:93-97 | as written, a delivered filing followed by one whose fetch fails puts the first filing's key in both lists and never names the second |
| FilingsIngest.AsWrittenAgreesWhenFetched | src/filings-ingest/handler.py:57-97 | when every fetch succeeds the as-written and corrected loops agree |
| Embeddings.ChunkTextPartition | src/embeddings/handler.py:18-19 | the chunks joined give the text back; each is non-empty and at most the chunk size long (7200 in the handler), all but the last exactly that long; empty text has no chunks |
| Embeddings.ChunkAt | src/embeddings/handler.py:18-19 | chunk k is the slice from the k-th start of `range(0, len, size)`, size long or up to the end |
| Embeddings.ChunkTextCount | src/embeddings/handler.py:18-19 | there is one chunk per start inside the text |
| Embeddings.EmbedAll | src/embeddings/handler.py:29-32 | the embeddings are those of the chunks, in chunk order, or none if any call fails |
| Embeddings.ProcessFile | src/embeddings/handler.py:21-48 | a processed file was readable and its key parsed; the result names the parsed CIK, form and accession, and its k-th embedding is the embedding of the k-th chunk; conversely a string key whose text reads, whose chunks all embed and whose name parses gives a result, so exactly the exceptions become None |
| Embeddings.ProcessFileNamesFiling | src/embeddings/handler.py:35-45 | a key filings-ingest wrote, for a readable and embeddable file, yields exactly the filing it was made from |
| Embeddings.ProcessFileRejectsBadName | src/embeddings/handler.py:37-48 | a file name that does not split into exactly two parts on '_' gives None, not an exception |
| Embeddings.RowsOf | src/embeddings/handler.py:99-104 | the rows of a processed file are (filing_id, k, embedding k) for k = 0..n-1 in chunk order |
| Embeddings.ResendPrefix | src/embeddings/handler.py:106-114 | re-sending rows already upserted, followed by new ones, leaves the same table as sending each row once |
| Embeddings.StoreAll | src/embeddings/handler.py:86-114 | the storing loop completes iff every result's UPDATE finds its filing |
| Embeddings.StoreAllOnce | src/embeddings/handler.py:85-114 | although `embedding_batch` is never reset and each `executemany` re-sends all rows so far, the final table equals one upsert of every row |
| Embeddings.OverridesUnique | src/embeddings/handler.py:106-114 | a (filing_id, chunk_index) key set by exactly one row holds that row's embedding |
| Embeddings.OverridesOfResults | src/embeddings/handler.py:99-114 | when every result has a filing of its own, the rows of all results set (filing_id, k) to that result's k-th embedding |
| Embeddings.HandleProcessed | src/embeddings/handler.py:51-121 | whatever order the results complete in: the run returns iff every result's filing is found; files_processed is the number of non-None results; the table becomes one upsert of all rows; a missing filing is an InternalServerError that commits nothing |
| Embeddings.HandleStoresEmbeddings | src/embeddings/handler.py:85-115 | when no two processed files share a filing, each file's k-th embedding ends up in the table under (filing_id, k) |
| Embeddings.ConnectFailure | src/embeddings/handler.py:54-59 | a failed connection is a DatabaseConnectionError that changes nothing |
| Embeddings.Successes | src/embeddings/handler.py:70-73 | the non-None results, in order: a result is kept iff it came back from some file |
| Embeddings.SuccessesCount | src/embeddings/handler.py:70-78 | the number of kept results equals the number of files whose processing returned a result |
| ErrorReport.Report | src/error-handler/handler.py:15-21 | the report has exactly execution_arn, state_name, error, cause and timestamp |
| ErrorReport.ReportKey | src/error-handler/handler.py:24-27 | the key is "pipeline-reports/" + the compact timestamp + "-errors.json" |
| ErrorReport.ReportKeyInjective | src/error-handler/handler.py:26-27 | distinct timestamps give distinct keys |
| ErrorReport.HandleReports | src/error-handler/handler.py:10-38 | a report goes to the "sec-filings" bucket iff the event carries Execution.Id and Execution.Name; error and cause default to "Unknown error" and "Unknown cause"; otherwise the handler raises before writing |
| ErrorReport.WriteFailureSwallowed | src/error-handler/handler.py:29-38 | a failed S3 write is swallowed: the handler ends the same way whether or not `put_object` raises |
| ErrorReport.NoExecutionNoReport | src/error-handler/handler.py:10-11 | an event without Execution raises KeyError 'Execution' and writes nothing |
| Sentiment.Name | src/sentiment/handler.py:60-61 | the stored sentiment is always one of POSITIVE, NEUTRAL, NEGATIVE |
| Sentiment.NamesAreLabels | src/sentiment/handler.py:60-61 | each of the three labels is stored as its own one of POSITIVE, NEUTRAL, NEGATIVE |
| Sentiment.Save | src/sentiment/handler.py:13-42 | a record is written iff connect and update succeed and the message has cik and accession_number; the update sets only the sentiment of that (cik, accession_number); a failed connection stops with "DatabaseConnectionError: …" and a missing cik with KeyError 'cik' |
| Sentiment.Process | src/sentiment/handler.py:54-74 | a written record had a string body, and its sentiment is the label drawn for it |
| Sentiment.RecordsStopAtFirstFailure | src/sentiment/handler.py:54-75 | records are written in order, one update each, up to the first that fails; that record's error is the failure and nothing after it is written |
| Sentiment.RecordsAllWritten | src/sentiment/handler.py:54-77 | the loop finishes without failure iff every record succeeds |
| Sentiment.OccursAt | src/sentiment/handler.py:47 | the substring test for `'Records' in event` on a string holds iff the word occurs at some offset |
| Sentiment.HasRecords | src/sentiment/handler.py:47 | `'Records' in event` gives a boolean for an object (whether it has the key), a list or a string, and raises TypeError for any other value |
| Sentiment.NoMessagesWritesNothing | src/sentiment/handler.py:47-52 | an object event gets the 204 reply iff it has no Records or an empty one, and then nothing is written |
| Sentiment.HandleRecords | src/sentiment/handler.py:45-81 | for a non-empty record list: 200 iff every record succeeds, with one update per record in order; otherwise InternalServerError with the first failing record's error, after the earlier records' updates |
| Sentiment.WellFormedRecordWrites | src/sentiment/handler.py:23-35 | a well-formed message whose connection and write succeed becomes one update of its filing's sentiment to the drawn label |

## Left out

- Provisioning (bucket, layer, IAM roles and policies, Lambda creation, exports, `__main__.py:39-222` and `357-398`): this is infrastructure, not behaviour. Only the state machine document, the queue redrive settings and the consumer-mapping settings are modelled.
- External services: real S3, SQS, Postgres, HTTP, OpenAI and Step Functions calls are oracle parameters. Library and AWS-side semantics are not modelled: visibility leasing, long polling, and the error Step Functions returns to a callback that arrives after the token was already resolved (Pipeline.Resolution models the rule itself: the first delivered callback decides). A token left unresolved (Pipeline.BarrierOutcomes gives `None`) is not fed into the workflow run model, whose FilingsQueue outcome comes from its oracle; since the task declares no TimeoutSeconds, the execution would wait for it indefinitely.
- Environment variables are assumed present. A missing `os.environ[...]` KeyError is not modelled.
- Decoding, read and JSON-parse failures are folded into the corresponding oracle's failure.
- Wall-clock time: `time.sleep` is counted, not timed. The `datetime` renderings in the error report are parameters (`isoTime`, `compactTime`).
- `html.unescape` is a parameter of the filings-ingest environment (`Env.unescape`). Entity decoding is not modelled.
- The random SentimentScore floats and `round` are left out because they are never stored. The random label is an oracle indexed by the record's position.
- The FinalReport Lambda (`arns["final-report"]`, `__main__.py:335`) is not part of this model: its source is not available, so it is an opaque stage like the others.
- Logging and `print` output.
- Concurrency:
  - The ThreadPoolExecutor fan-out and `as_completed` order in embeddings: `Embeddings.Handle` takes the completion order as any rearrangement of the successful results (`Rearranges`).
  - The Parallel state's two branches run one after the other in declared order. When both would fail, the Embeddings failure is reported. In the service, whichever branch fails first in time decides.
  - The consumer mapping's MaxConcurrency of 5 is recorded as a constant only.
- Visibility timeout, long-poll wait, batching window and dead-letter retention of the queues are recorded as constants. Only the redrive count and the batch size carry behaviour.
- Asl.Execute: the interpreter runs on fuel. Every state entry, retry and branch entry costs one unit. `Pipeline.EveryRunSettles` shows the fixed `Fuel` constant is always enough for the declared definition, so the bound leaves nothing of it unmodelled.
- Asl: a failing Lambda's error name is the Python exception type, and its Cause is the message. The JSON error envelope Lambda builds is not modelled.
- Asl.RetryThenSucceed: follows the ASL rule that MaxAttempts counts retries, so MaxAttempts 2 allows two retries (30 s, then 60 s).
- Json.Iterate: iterating a JSON object (Python yields its keys) is modelled as a TypeError. This affects a `cik_list`, `file_names` or `Records` given as an object, where the error message also differs from Python's.
- CompanyProc.FilingWrites: a primary document that is a list or object is treated as a failing INSERT. The SQL rendering psycopg2 would give it is not modelled.
- CompanyProc.ProcessCik: the facts and filing INSERTs are recorded as `SaveFacts`/`SaveFiling` writes that the database oracle accepts or rejects. Column-level SQL, `ARRAY[...]` wrapping and the `last_updated` timestamp are not modelled.
- Embeddings.StoreAll: the UPDATE also sets `processed = TRUE` on the filing. Only its returned id is modelled. Database errors from `execute`/`executemany` other than a missing filing are not modelled.
- CompanyIngest: the per-company `results` list is built but never returned, so it is not modelled.

## Findings

| source | as written | input that shows it | evidently intended | confidence | as-written member | corrected member |
|---|---|---|---|---|---|---|
| __main__.py:347-351 | Each Catch replaces the state's input with {"Error", "Cause"}. ErrorHandler declares no Parameters. Its Lambda reads `event["Execution"]["Id"]` first (src/error-handler/handler.py:10), so it raises KeyError 'Execution' before writing. | Any caught stage failure, e.g. CompanyIngest raising "BadRequest: …" after its retries | ErrorHandler receives the execution id and name with the caught error and cause, writes one report, and ends normally | medium, not executed | Pipeline.DeclaredCatchNeverReports | Pipeline.CorrectedCatchReports |
| src/filings-ingest/handler.py:93-97 | The `except` clause appends `file_name`, which is assigned only after a successful fetch. A first-filing fetch failure raises UnboundLocalError, failing the whole stage. A later fetch failure appends the previous filing's key. | The first filing's fetch fails; or filing 1 is delivered and filing 2's fetch fails | A failing filing is recorded under its own key and the loop continues | high, not executed | FilingsIngest.FirstFetchFailureAborts | FilingsIngest.IngestPartition |
