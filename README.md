# Resume/job matcher: the analysis job lifecycle in Dafny

This project models the lifecycle of one analysis job in the resume/job
matcher and proves properties of that model. A user uploads a resume PDF and
a job description. The back end checks the upload, extracts the PDF's text,
stores a `pending` record and starts a background run. The run marks the
record `processing`, asks the language model for a JSON verdict (up to three
attempts) and ends the record `completed` with a score, skills and
suggestions, or `failed` with the error text. In the browser, the upload
form polls the record until it is terminal or 60 rounds have passed. The
result page polls with no ceiling and a cancellation flag, and then picks
what to render. The history page lists the user's records with a score
badge. Toasts are queued and dismissed by id.

One Dafny module per source file:

| module | source | form |
|---|---|---|
| `AnalyzePage` | frontend/src/pages/AnalyzePage.jsx | class `AnalyzeForm` whose methods update the form state; polling is a `while` loop proved against the function `AfterPoll` |
| `ResultPage` | frontend/src/pages/ResultPage.jsx | class `ResultPoller` (state plus the `cancelled` flag); render-branch choice is a function |
| `HistoryPage` | frontend/src/pages/HistoryPage.jsx | pure `ScoreBadge` and screen functions; class `HistoryView` for the load effect |
| `ScoreCard` | frontend/src/components/ScoreCard.jsx | pure `GetColor`, `Round`, dial text |
| `ToastContext` | frontend/src/context/ToastContext.jsx | class `ToastProvider` with the id counter and the toast list |
| `Router` | backend/app/analysis/router.py | `Admit` (ordered checks) and method `CreateAnalysis` over the table; pure lookup and listing |
| `Service` | backend/app/analysis/service.py | method `RunAnalysis` updating the table in place, with commits recorded |
| `AiEngine` | backend/app/analysis/ai_engine.py | pure prompt and JSON extraction; the retry loop as method `Retry` proved against `RetryFrom` |
| `PdfParser` | backend/app/analysis/pdf_parser.py | method `ExtractTextFromPdf` (loop over pages) proved against `ExtractText` |
| `Models`, `Schemas` | backend/app/models.py, backend/app/schemas.py | the record and response datatypes, the table as a class |
| `Text`, `Wrappers` | (shared) | Python `strip`, JavaScript `trim`, `join`, slicing, decimal rendering; `Option`, `Result` |

Foreign calls are parameters of the model:
- the status fetches of a page are a function from the attempt number to a reply (`server`), or the sequence of replies;
- PyMuPDF is a function from bytes to an open error or the list of page texts (`fitz`);
- `json.loads` is `loads`, pydantic validation is `validate`, and the k-th POST to Ollama is `ollama(prompt, k)`;
- the uuid default and the database clock are `freshId` and `now`.

Behaviours of the code that the proofs make explicit:
- A PDF page holding only white space is not skipped. Its raw text is not empty, so it contributes an empty part, and the pages around it end up separated by four newlines (`PdfParser.BlankPageKeepsItsSeparator`).
- The prompt alone does not determine the resume and the job description: a resume containing the job-description header reads as a shorter resume (`AiEngine.ResumeCanImitateJobHeader`).
- A history badge's colour uses the raw score while its text uses the rounded one, so 69.5 shows "70% match" in the yellow band (`HistoryPage.RoundedTextCanCrossBand`).
- The result page never shows "Analysis not found" from its own fetches: a missing record is a thrown fetch and stores the load-failure message (`ResultPage.NotFoundTextUnreachable`).
- After the result page's cleanup, the fetch that was already scheduled still sends its GET; it only leaves the state alone (`ResultPage.ResultPoller.Run`).
- A POST that throws leaves the form's progress text at "Uploading..." (`AnalyzePage.AnalyzeForm.HandleSubmit`).
- `run_analysis` does not look at the record's current status, so a second run of a finished record processes it again (`Service.RunAnalysis` has no status precondition).

What the code does not have: the history page has no pagination and no delete; the result page's poller has no attempt ceiling and stops at the first fetch that throws; and a cancelled chain still sends the GET it had already scheduled.

## Model

| member | source | states |
|---|---|---|
| ScoreCard.GetColor | frontend/src/components/ScoreCard.jsx:6-10 | "Strong Match" (green) exactly when the score is at least 70, "Partial Match" (yellow) exactly when it is in [40, 70), "Weak Match" (red) exactly when it is below 40 |
| ScoreCard.GetColorMonotone | frontend/src/components/ScoreCard.jsx:6-10 | raising the score never moves it to a weaker band |
| ScoreCard.Round | frontend/src/components/ScoreCard.jsx:41 | `Math.round` gives the integer within half a unit, halves going up |
| ScoreCard.DialText | frontend/src/components/ScoreCard.jsx:40-42 | the dial shows a decimal integer followed by "%", and the number reads back as the rounded score |
| HistoryPage.ScoreTone | frontend/src/pages/HistoryPage.jsx:21-26 | green exactly from 70, yellow exactly in [40, 70), red exactly below 40 |
| HistoryPage.ScoreBadge | frontend/src/pages/HistoryPage.jsx:5-33 | "Failed" in red for a failed record whatever the score; gray "Processing..." for a processing record and "Pending" otherwise while there is no completed score; for a completed score, its band's colour and a text ending in "% match" |
| HistoryPage.BadgeNamesRoundedScore | frontend/src/pages/HistoryPage.jsx:30 | the number before "% match" is a decimal rendering that reads back as `Math.round(score)` |
| HistoryPage.BadgeBandsMatchScoreCard | frontend/src/pages/HistoryPage.jsx:21-26 | the badge bands coincide with the score dial's bands in ScoreCard.jsx |
| HistoryPage.RoundedTextCanCrossBand | frontend/src/pages/HistoryPage.jsx:21-30 | a completed 69.5 shows "70% match" in yellow |
| HistoryPage.CountLabel | frontend/src/pages/HistoryPage.jsx:62 | the label is the item count in decimal followed by " analysis total" for one item and " analyses total" otherwise |
| HistoryPage.CountLabelSingularIff | frontend/src/pages/HistoryPage.jsx:62 | the label ends in " analysis total" exactly when there is one item |
| HistoryPage.RowsOf | frontend/src/pages/HistoryPage.jsx:101-125 | one row per item, in the order received, each with its link, preview and badge |
| HistoryPage.ScreenOf | frontend/src/pages/HistoryPage.jsx:48-127 | a spinner exactly while loading; then the count label, the error banner exactly when there is an error, the empty state exactly when the list is empty, otherwise rows linking to `/result/{id}` with each item's badge |
| HistoryPage.HistoryView.constructor | frontend/src/pages/HistoryPage.jsx:36-38 | starts with no items, loading, no error |
| HistoryPage.HistoryView.Load | frontend/src/pages/HistoryPage.jsx:40-46 | success stores the list; failure sets "Failed to load history" and keeps the list; loading ends either way |
| HistoryPage.FailedLoadShowsEmptyHistory | frontend/src/pages/HistoryPage.jsx:44-79 | a failed first load shows "0 analyses total", the banner and the empty state |
| HistoryPage.EmptyCountLabel | frontend/src/pages/HistoryPage.jsx:62 | an empty history is labelled "0 analyses total" |
| ResultPage.FirstEndDecides | frontend/src/pages/ResultPage.jsx:17-35 | the first completed, failed or thrown reply decides the state, and exactly that many GETs are sent, however many non-terminal replies came before |
| ResultPage.Settle | frontend/src/pages/ResultPage.jsx:17-35 | the settled view is either the one the page started from or the view one chain-ending reply (completed, failed or thrown) in the sequence produces |
| ResultPage.NoEndKeepsWaiting | frontend/src/pages/ResultPage.jsx:25-28 | non-terminal records keep the chain fetching (no attempt ceiling) and leave the state unchanged |
| ResultPage.ChainAtLeast | frontend/src/pages/ResultPage.jsx:25-28 | a chain whose first k-1 replies are non-terminal sends at least k GETs |
| ResultPage.SettledErrorIsLoadFailure | frontend/src/pages/ResultPage.jsx:29-33 | the only error the chain stores is "Failed to load analysis results.", and once loading ends there is an error exactly when no record was stored |
| ResultPage.SkillsBlockOf | frontend/src/pages/ResultPage.jsx:112-118 | badges exactly when the list is present and non-empty (the same list), the placeholder text otherwise |
| ResultPage.Render | frontend/src/pages/ResultPage.jsx:41-158 | the branches in order: waiting exactly while loading; the error (or "Analysis not found") when there is an error or no record; the failure screen with `error_message` or "An unexpected error occurred." for a failed record; else the results, with the dial colour of the score (null as 0), the dial text of the rounded score, both skills blocks, the suggestions only when non-empty, and the record's job description |
| ResultPage.ScreenAfterFirstEnd | frontend/src/pages/ResultPage.jsx:14-76 | what the page shows after the first terminal reply: the load failure for a thrown fetch, the failure screen for a failed record, the results in the score's colour for a completed one |
| ResultPage.NotFoundTextUnreachable | frontend/src/pages/ResultPage.jsx:50-53 | the fetch chain never leads to the "Analysis not found" screen |
| ResultPage.ResultPoller.constructor | frontend/src/pages/ResultPage.jsx:10-15 | no record, loading, no error, not cancelled, no GET yet |
| ResultPage.ResultPoller.Cleanup | frontend/src/pages/ResultPage.jsx:38 | sets the `cancelled` flag |
| ResultPage.ResultPoller.FetchResult | frontend/src/pages/ResultPage.jsx:17-35 | one GET; when cancelled, no state change and no reschedule; otherwise the state update of the reply, rescheduling exactly for a non-terminal record |
| ResultPage.ResultPoller.Run | frontend/src/pages/ResultPage.jsx:10-39 | one run of the effect from whatever state the page holds (the initial state on mount, the previous run's state after the route `id` changes): without cancellation before the chain ends, the GETs and the state `Settle` gives for the replies; with it, one GET per reply handled up to and including the one at cancellation, and the state left as it was |
| ResultPage.ErrorOutlivesIdChange | frontend/src/pages/ResultPage.jsx:10-39 | once a load has failed, a new `id` keeps the error screen whatever the new chain receives, since no reply clears `error` |
| ResultPage.PreviousRecordShownWhileWaiting | frontend/src/pages/ResultPage.jsx:10-39 | after a new `id`, the page renders what it rendered before while the new chain sees only non-terminal replies |
| AnalyzePage.ProgressLabel | frontend/src/pages/AnalyzePage.jsx:64 | "AI is analyzing your resume..." exactly for `processing`, "Queued..." for every other status |
| AnalyzePage.PollTrace | frontend/src/pages/AnalyzePage.jsx:50-53 | n rounds are 2n effects |
| AnalyzePage.PollTraceAlternates | frontend/src/pages/AnalyzePage.jsx:50-53 | every fetch comes right after its own 2000 ms wait; no fetch before the first wait |
| AnalyzePage.PollFrom | frontend/src/pages/AnalyzePage.jsx:48-71 | a navigation names an attempt within the 60 whose reply is a completed record; a reported failure names one whose reply is a failed record, with its `error_message` or "Analysis failed. Please try again." |
| AnalyzePage.PollStep | frontend/src/pages/AnalyzePage.jsx:50-67 | one round: completed ends with navigation, failed ends with the message, anything else goes on; the label follows a reply and survives a throw |
| AnalyzePage.PollBounded | frontend/src/pages/AnalyzePage.jsx:49-50 | polling sends between 1 and 60 status fetches |
| AnalyzePage.FirstTerminalDecides | frontend/src/pages/AnalyzePage.jsx:55-63 | the first completed reply navigates at that attempt; the first failed one ends with `error_message` or "Analysis failed. Please try again." |
| AnalyzePage.TimedOutIff | frontend/src/pages/AnalyzePage.jsx:50-70 | polling times out exactly when none of the 60 replies is terminal |
| AnalyzePage.AfterPoll | frontend/src/pages/AnalyzePage.jsx:48-71 | polling keeps every earlier effect as a prefix, never starts a submission, and unless it navigates it ends the submission with a non-empty error |
| AnalyzePage.GetCountAppend | frontend/src/pages/AnalyzePage.jsx:53 | the fetches in two effect lists add up |
| AnalyzePage.PollTraceGets | frontend/src/pages/AnalyzePage.jsx:50-53 | n polling rounds send exactly n status fetches |
| AnalyzePage.PollFetchesCounted | frontend/src/pages/AnalyzePage.jsx:48-71 | polling adds to the page's effects exactly as many status fetches as its outcome counts |
| AnalyzePage.ThrownFetchesKeepLabel | frontend/src/pages/AnalyzePage.jsx:65-67 | thrown fetches leave the progress text as it was |
| AnalyzePage.AllThrownTimesOut | frontend/src/pages/AnalyzePage.jsx:65-70 | a server that only throws gives 60 waits and fetches, then the timeout error with `submitting` false and the label unchanged |
| AnalyzePage.BlankIffTrimEmpty | frontend/src/pages/AnalyzePage.jsx:81 | the blank test is exactly "`trim()` leaves nothing" |
| AnalyzePage.BlankIffAllSpace | frontend/src/pages/AnalyzePage.jsx:81 | a description is blank exactly when every character is JavaScript white space |
| AnalyzePage.AnalyzeForm.constructor | frontend/src/pages/AnalyzePage.jsx:8-13 | no file, not dragging, empty texts, not submitting |
| AnalyzePage.AnalyzeForm.HandleDrag | frontend/src/pages/AnalyzePage.jsx:15-23 | enter and over highlight the drop zone, leave clears it, other events change nothing |
| AnalyzePage.AnalyzeForm.HandleDrop | frontend/src/pages/AnalyzePage.jsx:25-36 | a PDF replaces the file and clears the error; any other drop, also one without a file, keeps the file and sets "Please upload a PDF file"; the highlight is off |
| AnalyzePage.AnalyzeForm.HandleFileChange | frontend/src/pages/AnalyzePage.jsx:38-46 | no selection changes nothing; a PDF replaces the file and clears the error; another type sets the error and keeps the file |
| AnalyzePage.AnalyzeForm.EditJobDescription | frontend/src/pages/AnalyzePage.jsx:188 | the textarea sets the description |
| AnalyzePage.AnalyzeForm.PollForResult | frontend/src/pages/AnalyzePage.jsx:48-71 | error, submitting, progress text and effects end as `AfterPoll` says: the trace of rounds up to the deciding reply, then navigation, the failure message or the timeout |
| AnalyzePage.AnalyzeForm.HandleSubmit | frontend/src/pages/AnalyzePage.jsx:73-104 | no file or a blank description sets the matching error and sends nothing; a thrown POST shows its detail or "Failed to submit. Please try again." and stops submitting; an accepted POST shows "Processing..." and polls the new id |
| Text.OrElse | frontend/src/pages/AnalyzePage.jsx:60 | JavaScript's `or` of a nullable text and a default: the text when it is present and non-empty, the default otherwise |
| Text.StripShape | backend/app/analysis/pdf_parser.py:29 | `strip()` keeps an infix with no white space at either end and cuts only white space |
| Text.StripEmptyIff | backend/app/analysis/router.py:52 | stripping leaves nothing exactly when all characters are white space |
| Text.StripKeepsTrimmed | backend/app/analysis/pdf_parser.py:29 | a text with no white space at its ends is left as it is |
| Text.Take | backend/app/analysis/router.py:123 | `s[:n]` is the first min(n, len) characters |
| Text.AsciiLower | backend/app/analysis/router.py:30 | lower-casing keeps the length and maps each character |
| Text.NatDigits | frontend/src/pages/HistoryPage.jsx:62 | decimal digits, non-empty, no leading zero |
| Text.NatDigitsRoundTrip | frontend/src/pages/HistoryPage.jsx:62 | the digits of n read back as n |
| Text.IntToDecimalRoundTrip | frontend/src/pages/HistoryPage.jsx:30 | the rendering of any integer reads back as that integer |
| ToastContext.Without | frontend/src/context/ToastContext.jsx:14 | keeps exactly the toasts with another id |
| ToastContext.WithoutSplits | frontend/src/context/ToastContext.jsx:14 | the filter works piece by piece, so the kept toasts keep their order |
| ToastContext.WithoutAbsent | frontend/src/context/ToastContext.jsx:14 | removing an id nobody has changes nothing |
| ToastContext.WithoutDropsOne | frontend/src/context/ToastContext.jsx:14 | with distinct ids, removing a present id drops exactly that toast and keeps the rest in order |
| ToastContext.WithoutKeepsIncreasing | frontend/src/context/ToastContext.jsx:11-14 | removal keeps the ids increasing, hence distinct |
| ToastContext.UseToast | frontend/src/context/ToastContext.jsx:44-48 | the provider's value, or the error "useToast must be used within ToastProvider" exactly when there is none |
| ToastContext.ToastProvider.constructor | frontend/src/context/ToastContext.jsx:5-8 | no toasts; the counter where it was |
| ToastContext.ToastProvider.AddToast | frontend/src/context/ToastContext.jsx:10-16 | the id is the incremented counter, above every id issued before; the toast is appended with the others unchanged; default kind "info"; ids stay increasing |
| ToastContext.ToastProvider.Dismiss | frontend/src/context/ToastContext.jsx:13-15 | the timer drops the toasts with that id; ids stay increasing |
| ToastContext.ToastProvider.Success | frontend/src/context/ToastContext.jsx:18 | appends a "success" toast with a fresh id |
| ToastContext.ToastProvider.Error | frontend/src/context/ToastContext.jsx:19 | appends an "error" toast with a fresh id |
| ToastContext.ToastProvider.Info | frontend/src/context/ToastContext.jsx:20 | appends an "info" toast with a fresh id |
| Models.Find | backend/app/analysis/service.py:19-22 | the position of a row with that id, or none exactly when no row has it |
| Models.AppendFreshKeepsUnique | backend/app/models.py:30-31 | a row with a new id keeps the primary key unique |
| Models.Database.Commit | backend/app/analysis/service.py:29 | the current table is recorded as committed |
| Service.CreateAnalysisRecord | backend/app/analysis/service.py:53-67 | a `pending` record with the given user, resume text and description and no result fields |
| Service.MarkProcessing | backend/app/analysis/service.py:28 | the status becomes `processing` and every other field is kept |
| Service.Finish | backend/app/analysis/service.py:37-48 | a model result makes the record `completed` with its score, both skill lists, the suggestions and the completion time; an error makes it `failed` with the error text; no other field changes |
| Service.RunLifecycle | backend/app/analysis/service.py:28-50 | pending to processing to exactly one terminal status: `completed` exactly when the model call succeeded, with score, skills, suggestions and completion time; `failed` exactly when it raised, with the error text and no result; identity and inputs unchanged |
| Service.CreatedRecordRunsThroughTransitions | backend/app/analysis/service.py:28-67 | a record as created, run once, goes pending, processing, then completed exactly when the model call succeeded or failed otherwise, and no allowed change leaves that status |
| Service.RerunLeavesTransitions | backend/app/analysis/service.py:28-50 | run on a record that is already completed or failed, `run_analysis` first sets `processing`, which is not an allowed change, and ends terminal again |
| Service.RunAnalysis | backend/app/analysis/service.py:16-50 | an unknown id changes nothing; otherwise the record is committed as `processing` first, then the model is called with its own resume and description and the outcome is written and committed, other rows unchanged |
| Router.NameCheckedFirst | backend/app/analysis/router.py:30-34 | the 400 "Only PDF files are accepted" comes exactly when the name is missing, empty or does not end in ".pdf" in any case |
| Router.Admit | backend/app/analysis/router.py:30-56 | a request is admitted exactly when the name ends in ".pdf" (any case), the file is at most 10 MiB, the parser finds text and the stripped description is non-empty; it then carries that text and the stripped description; a refusal is a 400, or a 422 exactly when the parser failed after the name and size checks passed |
| Router.SizeLimitInclusive | backend/app/analysis/router.py:38-42 | for a PDF name, "File too large" comes exactly above 10 MiB; exactly 10 MiB passes |
| Router.ExtractionBeforeDescription | backend/app/analysis/router.py:44-56 | an unreadable PDF gives 422 with the parser's message even when the description is blank |
| Router.AdmittedDescriptionIsStripped | backend/app/analysis/router.py:52-64 | an accepted request stores the parser's text and a non-empty stripped description |
| Router.CreateAnalysis | backend/app/analysis/router.py:20-71 | a refused request returns its error and leaves the table and commits alone; an accepted one appends one pending record, commits and answers with its id and `pending` |
| Router.FindOwned | backend/app/analysis/router.py:81-87 | a row with this id and this user, or none exactly when there is no such row |
| Router.GetAnalysis | backend/app/analysis/router.py:74-102 | 404 "Analysis not found" exactly when no row has this id and this user; otherwise that row's fields |
| Router.ToResponse | backend/app/analysis/router.py:91-102 | the response carries each of the record's ten fields unchanged |
| Router.ForeignRecordLooksMissing | backend/app/analysis/router.py:81-89 | another user's record answers 404 like a missing one |
| Router.Preview | backend/app/analysis/router.py:123 | the text itself up to 120 characters; otherwise its first 120 and "...", 123 in all |
| Router.ToListItem | backend/app/analysis/router.py:118-125 | a list item keeps the id, status, score and creation time, and its preview is the description cut to at most 123 characters |
| Router.OwnedBy | backend/app/analysis/router.py:113 | only the user's rows, each as often as stored |
| Router.Insert | backend/app/analysis/router.py:114 | inserting into a newest-first list keeps it newest first and adds exactly that row |
| Router.NewestFirst | backend/app/analysis/router.py:114 | the same rows, ordered by `created_at` descending |
| Router.ListingIsOwnNewestFirst | backend/app/analysis/router.py:105-127 | the listing holds exactly the user's records, newest first, each with its preview |
| Router.ListAnalyses | backend/app/analysis/router.py:105-127 | one item per record of the user, newest first by creation time |
| AiEngine.PromptLayout | backend/app/analysis/ai_engine.py:58-63 | the prompt is the instructions, the resume header, the resume, the job header and the description, in that order |
| AiEngine.BuildPrompt | backend/app/analysis/ai_engine.py:58-63 | the prompt is as long as its five pieces together and ends with the job description |
| AiEngine.PromptDeterminesInputs | backend/app/analysis/ai_engine.py:58-63 | given the resume's length, the prompt determines both inputs |
| AiEngine.ResumeCanImitateJobHeader | backend/app/analysis/ai_engine.py:58-63 | without that length it does not: a resume containing the job header gives the same prompt as a shorter one |
| AiEngine.SkipSpace | backend/app/analysis/ai_engine.py:75 | `\s*` consumes the longest run of white space |
| AiEngine.CloseFrom | backend/app/analysis/ai_engine.py:75 | the lazy `.*?` stops at the first `}` followed by white space and a fence |
| AiEngine.FencedAt | backend/app/analysis/ai_engine.py:75 | a match at a position is a `{`…`}` group |
| AiEngine.FencedAtIsTheMatch | backend/app/analysis/ai_engine.py:75 | nothing at a position exactly when the pattern cannot match there; otherwise the group opens at the only `{` the fence, the optional "json" and the white space allow, and closes at the earliest `}` a fence follows, as the lazy `.*?` prefers |
| AiEngine.FencedBlock | backend/app/analysis/ai_engine.py:75 | the search result is a `{`…`}` group |
| AiEngine.FencedBlockIsLeftmost | backend/app/analysis/ai_engine.py:75 | a found block is the match at the leftmost position where the pattern matches |
| AiEngine.FencedBlockNoneIff | backend/app/analysis/ai_engine.py:75 | the search finds nothing exactly when no position matches |
| AiEngine.IndexOf | backend/app/analysis/ai_engine.py:83 | the first occurrence of a character |
| AiEngine.LastIndexOf | backend/app/analysis/ai_engine.py:83 | the last occurrence of a character |
| AiEngine.BraceSpanIsLeftmostLongest | backend/app/analysis/ai_engine.py:83 | the greedy span runs from the first `{` to the last `}`, and there is none exactly when no `}` follows a `{` |
| AiEngine.BraceSpan | backend/app/analysis/ai_engine.py:83 | a found span is at least two characters, opens with `{` and closes with `}` |
| AiEngine.ExtractJson | backend/app/analysis/ai_engine.py:66-90 | on failure the message is the fixed prefix and at most the first 300 characters of the stripped text |
| AiEngine.ExtractJsonOrder | backend/app/analysis/ai_engine.py:68-88 | the whole text, then the fenced block, then the brace span: the first that parses wins, and it fails exactly when all three fail |
| AiEngine.Clamp | backend/app/analysis/ai_engine.py:128 | the score ends in [0, 100], unchanged when already inside |
| AiEngine.TryOnce | backend/app/analysis/ai_engine.py:114-125 | an HTTP failure is reported with its own message; a success means the model replied, its text parsed as JSON and the validator accepted the parsed value |
| AiEngine.RetryFrom | backend/app/analysis/ai_engine.py:113-140 | at most three POSTs and at least one more from any attempt left; failure only after all three, with the "Failed to get valid analysis from Ollama after 3 attempts: " prefix before the last error; success is the last attempt's validated result with its score clamped |
| AiEngine.RetryBounded | backend/app/analysis/ai_engine.py:113-130 | one to three POSTs, and a returned score lies in [0, 100] |
| AiEngine.FirstSuccessWins | backend/app/analysis/ai_engine.py:113-130 | the first attempt that parses and validates is returned, clamped, and no later POST is made |
| AiEngine.AllAttemptsFail | backend/app/analysis/ai_engine.py:132-140 | failure exactly when all three attempts fail, after three POSTs, naming the last error |
| AiEngine.Retry | backend/app/analysis/ai_engine.py:111-140 | the loop's result and POST count are those of `RetryFrom`; every POST carries the same prompt; the score is clamped |
| AiEngine.AnalyzeResume | backend/app/analysis/ai_engine.py:93-140 | the retry loop over the built prompt: the same outcome, one to three POSTs of that prompt, a score in [0, 100] |
| PdfParser.NonEmptyPages | backend/app/analysis/pdf_parser.py:22-24 | only pages whose raw text is not empty, each one of the document's pages |
| PdfParser.NonEmptyPagesSnoc | backend/app/analysis/pdf_parser.py:22-24 | one more page adds itself to the kept pages exactly when its text is not empty |
| PdfParser.Contributions | backend/app/analysis/pdf_parser.py:21-25 | the parts are the stripped texts of the pages whose raw text is not empty, one per such page, in page order |
| PdfParser.ExtractTextFromPdf | backend/app/analysis/pdf_parser.py:4-36 | the page loop computes `ExtractText`: the open error, the scanned-image error, or the joined and stripped text, which is non-empty with no white space at its ends |
| PdfParser.ExtractText | backend/app/analysis/pdf_parser.py:4-36 | an unopenable file reports "Could not open PDF: " and the library's message; an opened one fails only with the scanned-image message; returned text is non-empty |
| PdfParser.JoinAllSpace | backend/app/analysis/pdf_parser.py:29 | joining with "\n\n" gives white space exactly when every part is white space |
| PdfParser.StrippedAllSpace | backend/app/analysis/pdf_parser.py:25 | a page's stripped text is white space exactly when the page is |
| PdfParser.PyStripEmptyIff | backend/app/analysis/pdf_parser.py:29-30 | the result is empty exactly when the joined text is all white space |
| PdfParser.StripSingle | backend/app/analysis/pdf_parser.py:25 | a one-character page strips to nothing exactly when the character is white space, and to itself otherwise |
| PdfParser.ContributionsAllSpace | backend/app/analysis/pdf_parser.py:22-25 | the parts are all white space exactly when the pages are |
| PdfParser.NoTextIffBlankPages | backend/app/analysis/pdf_parser.py:22-34 | the scanned-image error comes exactly when every page is white space or empty |
| PdfParser.ExtractedTextIsTrimmed | backend/app/analysis/pdf_parser.py:29-36 | a returned text is non-empty with no white space at either end |
| PdfParser.BlankPageKeepsItsSeparator | backend/app/analysis/pdf_parser.py:22-29 | pages "A", " ", "B" give "A\n\n\n\nB" |

## Left out

- Timers: the 2000 ms waits are `Wait` effects, the reschedule of the result page is the next reply, and a toast's `duration` is not modelled (its timer is the `Dismiss` call).
- HTTP: axios and httpx calls are replies chosen by the caller of the model; status codes other than the detail text of a thrown POST are not modelled.
- AnalyzePage.AnalyzeForm.HandleSubmit: `pollForResult` is not awaited in the source; the model runs it to the end inside the submit, so events that interleave with polling are not modelled.
- AnalyzePage.AnalyzeForm.HandleSubmit: on the two form errors `submitting` keeps its value instead of being stated false; the submit button is disabled while submitting, which the model does not track.
- AnalyzePage.AnalyzeForm.HandleSubmit: a thrown POST's `detail` is a string or absent; a non-string `detail` (such as a validation list) is not modelled.
- ResultPage.ResultPoller.Run: the cleanup runs between replies, and the old chain's last GET is counted before the new run starts; a change of route `id` is the cleanup followed by another `Run` on the same poller, whose state carries over.
- HistoryPage: the `toLocaleDateString` formatting of `created_at` is not modelled; the timestamp is passed through.
- ScoreCard: the SVG circumference and offset arithmetic is display geometry and is left out; scores are reals, so NaN and infinities are not modelled, and a null score counts as 0 as in JavaScript.
- ToastContext.ToastProvider.AddToast: returns the new id (the source returns nothing) so that callers can name the toast; the module-level counter is passed to the constructor, so sharing it between providers is the caller's part.
- ToastContext: the styling of toasts by kind is not modelled.
- Router.CreateAnalysis: the rate limit, the authentication dependency (the user is a parameter), `db.refresh` and the scheduling of `run_analysis` as a background task are framework behaviour; the fresh uuid is a precondition.
- Router.NewestFirst: rows with equal `created_at` come in one fixed order, while SQL leaves their order open; only the descending order and the same rows are promised.
- Router.GetAnalysis: the three list columns hold JSON text in the table; the model stores the lists, and `json.dumps`/`json.loads` are taken to round-trip.
- Service.RunAnalysis: the allowed status changes are a property of a record's first run only; the service does not enforce that `completed` and `failed` are final, and a second run moves a finished record back to `processing` (`Service.RerunLeavesTransitions`).
- Service.RunAnalysis: logging, the session's own failures and exceptions other than the model call's are not modelled; `datetime.now` is the parameter `now`.
- AiEngine: `json.loads`, pydantic validation and the HTTP call are parameters; the model name, URL, temperature and other payload options have no effect in the model.
- AiEngine.SkipSpace: Python's `\s` in a `str` pattern is taken as the `str.isspace` set.
- PdfParser: opening the document, `page.get_text` and `doc.close` are PyMuPDF's part; the open error's text is what `fitz` yields.
- Text.AsciiLower: lower-cases ASCII letters only; Python's `lower()` also maps other letters, which cannot change whether a name ends in ".pdf" unless a non-ASCII letter lower-cases to an ASCII one.
- Authentication, landing, login and navigation pages and the presentational components are outside the job lifecycle.
