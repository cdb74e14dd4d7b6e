# Resume screening: a verified model

The application ranks uploaded resumes against a job description.

- A React client collects the description and the resume files.
- It posts them as a multipart form to a Django view.
- For each file the view extracts the text and finds the description's skill phrases in it. It combines a semantic similarity with the share of skills matched, and returns the results sorted by final score.
- The client adds row ids and goes to a results page. That page shows a searchable table, summary cards, colour-coded scores and a CSV export.

This project models that core in Dafny and proves what each part promises.

- `Views` is the screening view (`views.py`). `post`, `extract_keywords_from_jd` and `extract_text_from_pdf` are loops, proved against specification functions. Text extraction, the keyword set, `sorted(set(...))` and the stable `sorted(..., reverse=True)` are functions with lemmas.
- `ResumeUpload` is the drag-and-drop upload component. Its state is a class whose handlers are methods. Each method's new state is a pure transition of the old one: validation, file list edits, and the `loading`/`error`/`success` flags before and after the request. The client-side ids and the file icons are functions.
- `ResumeForm` is the plain upload form: a two-phase button, first "send" and then "show results".
- `ResultsTable` covers the table's data logic: the search filter, the CSV text, the average and best-match cards, the description panel and the colour bands.
- `ResultsPage` is the guard and three-way render of the results page.
- `ThemeProvider` is the light/dark colour mode.
- The shared modules are:
  - `Wrappers`: option and outcome types.
  - `Text`: the string operations of JavaScript and Python that the code uses.
  - `Screening`: the records that travel between the parts.
  - `FormData`: the multipart body and how the view reads it back.
  - `Sorting`: both sorts.
- `Csv` is the corrected export described under Findings.
- `Pipeline` connects the parts. In the model, whose library functions never fail, a valid client submission is always ranked by the view and shown as a table, with usable row ids and the top score in the best-match card.

Inputs the code does not compute itself are parameters of the model:

- the machine-learning and parsing libraries (noun chunks, phrase matches, the embedding similarity, PDF pages, DOCX text);
- rounding to two decimals;
- number formatting.

A request's outcome is given as `Succeeded(data)` or `Failed`.

## Model

| member | source | states |
|---|---|---|
| `Views.ExtractorForIff` | resume_screening_application/screening_app/views.py:50-55 | A name ending in `.pdf` uses the PDF path, else one ending in `.docx` uses docx, else no extractor (text `''`); the three cases are exclusive and exhaustive. |
| `Views.ConcatAppend` | resume_screening_application/screening_app/views.py:58-61 | Appending a page appends its text to the concatenation. |
| `Views.ExtractTextFromPdf` | resume_screening_application/screening_app/views.py:57-62 | The accumulating loop returns exactly the concatenation of the page texts, in page order. |
| `Views.ExtractKeywordsFromJd` | resume_screening_application/screening_app/views.py:64-71 | The loop over the noun chunks of the lower-cased description returns exactly the set of stripped chunks having one to three words. |
| `Views.StripStable` | resume_screening_application/screening_app/views.py:68 | Trimming leaves a string unchanged exactly when it does not start (or end) with whitespace. |
| `Views.StripIdempotent` | resume_screening_application/screening_app/views.py:68 | Stripping twice is stripping once. |
| `Views.KeywordsIff` | resume_screening_application/screening_app/views.py:66-71 | A phrase is a keyword iff it is the strip of some chunk with 1–3 words; every keyword is already stripped and non-blank. |
| `Views.ExtractInfoSorted` | resume_screening_application/screening_app/views.py:73-79 | The matched skills are strictly ascending (sorted, no duplicates) and are exactly the distinct phrase matches. |
| `Views.SkillScore` | resume_screening_application/screening_app/views.py:36 | The ratio is 0 when there are no description skills, otherwise ratio × total = matched; it lies in [0, 1] when matched ≤ total. |
| `Views.DistinctWithin` | resume_screening_application/screening_app/views.py:79 | A duplicate-free list drawn from a set is no longer than the set. |
| `Views.SkillRatioBounded` | resume_screening_application/screening_app/views.py:33-36 | When every phrase match is a description skill, the skill ratio lies in [0, 1]. |
| `Views.SkillRatioExceedsOne` | resume_screening_application/screening_app/views.py:74-79 | A matcher that reports the one skill `front-end` as both `front-end` and `front - end` gives two matched skills, in code-point order, and a ratio of 2. |
| `Views.DistinctCard` | resume_screening_application/screening_app/views.py:79 | A list without repeats has exactly as many distinct members as elements. |
| `Views.FoundSkills` | resume_screening_application/screening_app/views.py:74-79 | The skills counted are exactly the description's skills that some match is reported for. |
| `Views.FoundSkillRatio` | resume_screening_application/screening_app/views.py:36 | The intended ratio, which counts each found skill once, always lies in [0, 1], and ratio × total = number of skills found. |
| `Views.FoundSkillRatioCountsOnce` | resume_screening_application/screening_app/views.py:74-79 | The two spellings of `front-end` count once, giving a ratio of 1. |
| `Views.FoundSkillRatioAgrees` | resume_screening_application/screening_app/views.py:33-36 | When every matched text is a description skill, the ratio as written equals the intended one. |
| `Views.ScoreFiles` | resume_screening_application/screening_app/views.py:31-45 | One result per uploaded file. |
| `Views.ScoreFilesNames` | resume_screening_application/screening_app/views.py:31-45 | The i-th result comes from the i-th uploaded file: it carries that file's name (`"name": file.name`) and no id. `Views.ScreenNames` carries the names through the ranking. |
| `Views.Post` | resume_screening_application/screening_app/views.py:18-48 | The view's loop answers exactly `Screen` of the description and the files the form carries. |
| `Views.ScreenRejectsIff` | resume_screening_application/screening_app/views.py:19-23 | The answer is a 400 with the fixed message exactly when the description is empty or there are no files. |
| `Views.ScreenRanked` | resume_screening_application/screening_app/views.py:31-48 | A successful answer has one result per file, is a permutation of the per-file results, is non-increasing in final score, keeps upload order among equal scores, and carries no ids. |
| `Views.InsertNames` | resume_screening_application/screening_app/views.py:47 | Inserting a result adds its name to the multiset of names. |
| `Views.RankNames` | resume_screening_application/screening_app/views.py:47 | Ranking keeps the multiset of names. |
| `Views.ScreenNames` | resume_screening_application/screening_app/views.py:31-47 | The ranked answer names each uploaded file exactly as often as it was uploaded. |
| `Sorting.InsertPermutation` | resume_screening_application/screening_app/views.py:47 | Insertion by score adds exactly the inserted element. |
| `Sorting.InsertSorted` | resume_screening_application/screening_app/views.py:47 | Insertion by score keeps a non-increasing list non-increasing. |
| `Sorting.RankPermutation` | resume_screening_application/screening_app/views.py:47 | The ranking is a permutation of its input. |
| `Sorting.RankSorted` | resume_screening_application/screening_app/views.py:47 | The ranking is non-increasing in final score. |
| `Sorting.InsertWithScore` | resume_screening_application/screening_app/views.py:47 | Insertion places the new element before every equal-score element already present. |
| `Sorting.RankStable` | resume_screening_application/screening_app/views.py:47 | For every score, the results with it appear in the ranking in their original order (stability under `reverse=True`). |
| `Sorting.InsertUnique` | resume_screening_application/screening_app/views.py:79 | Adding a string to a strictly ascending list keeps it strictly ascending with one more member at most. |
| `Sorting.SortedUnique` | resume_screening_application/screening_app/views.py:79 | `sorted(set(xs))` is strictly ascending and has exactly the members of `xs`. |
| `Sorting.AscendingPairwise` | resume_screening_application/screening_app/views.py:79 | In a strictly ascending list every earlier element is below every later one. |
| `Sorting.AscendingDistinct` | resume_screening_application/screening_app/views.py:79 | A strictly ascending list has no duplicates. |
| `Sorting.AscendingLeast` | resume_screening_application/screening_app/views.py:79 | The head of a strictly ascending list is its least member. |
| `Sorting.AscendingUnique` | resume_screening_application/screening_app/views.py:79 | Two strictly ascending lists with the same members are equal, so `sorted(set(...))` has one answer. |
| `Text.Lower` | resume-frontend/src/components/ResultsTable.jsx:228-231 | Lower-casing keeps the length and maps each character. |
| `Text.OccursContains` | resume-frontend/src/components/ResultsTable.jsx:229-231 | An occurrence at some position makes `includes` true. |
| `Text.ContainsIff` | resume-frontend/src/components/ResultsTable.jsx:229-231 | `includes` holds exactly when the text occurs at some position. |
| `Text.ContainsEmpty` | resume-frontend/src/components/ResultsTable.jsx:229 | Every string includes `''`. |
| `Text.Split` | resume-frontend/src/components/ResultsTable.jsx:256-259 | Splitting never yields an empty list. |
| `Text.JoinSplit` | resume-frontend/src/components/ResultsTable.jsx:256-259 | Joining the pieces of a split with its separator restores the string. |
| `Text.SplitAfterWord` | resume-frontend/src/components/ResultsTable.jsx:248-254 | A separator-free prefix stays glued to the first piece of the split. |
| `Text.SplitJoin` | resume-frontend/src/components/ResultsTable.jsx:248-259 | Splitting the join of separator-free pieces restores the pieces. |
| `Text.TrimStart` | resume-frontend/src/components/ResumeUpload.jsx:112 | The result is a suffix without leading whitespace, and only whitespace was removed. |
| `Text.TrimEnd` | resume-frontend/src/components/ResumeUpload.jsx:112 | The result is a prefix without trailing whitespace, and only whitespace was removed. |
| `Text.BlankIff` | resume-frontend/src/components/ResumeUpload.jsx:112 | `!s.trim()` holds exactly when every character is whitespace. |
| `Text.TakeWord` | resume_screening_application/screening_app/views.py:69 | The first word is the longest whitespace-free prefix. |
| `Text.WordsEmptyIff` | resume_screening_application/screening_app/views.py:69 | `split()` gives no words exactly when the string is blank. |
| `Text.SeparatorsAreOnlyPythonSpace` | resume_screening_application/screening_app/views.py:68 | For every string, Python's `strip` drops a leading separator U+001C to U+001F, while JavaScript's `trim` (ResumeUpload.jsx:112) keeps it as the first character. |
| `Text.LexIrreflexive` | resume_screening_application/screening_app/views.py:79 | No string sorts before itself. |
| `Text.LexTransitive` | resume_screening_application/screening_app/views.py:79 | String order is transitive. |
| `Text.LexTotal` | resume_screening_application/screening_app/views.py:79 | Of two different strings one sorts first. |
| `Text.LexAntisymmetric` | resume_screening_application/screening_app/views.py:79 | No two strings each sort before the other. |
| `FormData.BuildForm` | resume-frontend/src/components/ResumeForm.jsx:26-30 | The append loop builds the description part followed by one `resumes` part per file, in index order. |
| `FormData.ResumePartsRead` | resume_screening_application/screening_app/views.py:20 | `getlist('resumes')` on the file parts returns the files in order. |
| `FormData.FormRoundTrip` | resume-frontend/src/components/ResumeUpload.jsx:126-130 | The view reads back exactly the description and every file, in order, from the body the client builds. |
| `ResumeUpload.ValidationError` | resume-frontend/src/components/ResumeUpload.jsx:112-120 | A blank description gives the description message (checked first); otherwise no files gives the files message; otherwise no message. |
| `ResumeUpload.SubmitEnabledIff` | resume-frontend/src/components/ResumeUpload.jsx:440 | The button is enabled exactly when not loading and validation passes. |
| `ResumeUpload.Dropped` | resume-frontend/src/components/ResumeUpload.jsx:57-64 | The old files come first, unchanged, then the accepted ones in their order. |
| `ResumeUpload.RemoveAt` | resume-frontend/src/components/ResumeUpload.jsx:92-100 | Exactly element `i` is removed: one shorter, the rest in order, the multiset less that one file. |
| `ResumeUpload.DropThenRemove` | resume-frontend/src/components/ResumeUpload.jsx:57-100 | Removing the file just dropped restores the list. |
| `ResumeUpload.AssignIds` | resume-frontend/src/components/ResumeUpload.jsx:146-149 | One output item per response item. |
| `ResumeUpload.BlankDescriptionRejected` | resume-frontend/src/components/ResumeUpload.jsx:112-115 | A blank description sets its message, changes nothing else and sends nothing, whatever the files. |
| `ResumeUpload.NoFilesRejected` | resume-frontend/src/components/ResumeUpload.jsx:117-120 | No files sets its message, changes nothing else and sends nothing. |
| `ResumeUpload.ValidSubmissionSends` | resume-frontend/src/components/ResumeUpload.jsx:122-130 | A valid submission only sets `loading` and sends a body carrying the description and every file in order. |
| `ResumeUpload.RequestIff` | resume-frontend/src/components/ResumeUpload.jsx:112-132 | A request is sent exactly when validation passes, and then `loading` is true. |
| `ResumeUpload.RespondedClearsLoading` | resume-frontend/src/components/ResumeUpload.jsx:153-161 | After success or failure `loading` is false and the files and description are untouched. |
| `ResumeUpload.RespondedOutcome` | resume-frontend/src/components/ResumeUpload.jsx:146-161 | Success sets `success` and navigates to `/results` with the id-tagged results and the submitted description; failure sets the retry message and navigates nowhere. |
| `ResumeUpload.AssignIdsSpec` | resume-frontend/src/components/ResumeUpload.jsx:146-149 | Every field but `id` is kept; an item without an id gets `index + 1`; an item's own id wins. |
| `ResumeUpload.AssignIdsDistinct` | resume-frontend/src/components/ResumeUpload.jsx:146-149 | Items without ids get distinct ids in 1..n. |
| `ResumeUpload.IconFor` | resume-frontend/src/components/ResumeUpload.jsx:81-89 | The PDF icon exactly for `application/pdf`; the document icon exactly for other types containing `word` or `document`; else the generic icon. |
| `ResumeUpload.EndsWithContains` | resume-frontend/src/components/ResumeUpload.jsx:84 | A suffix is included in the string. |
| `ResumeUpload.AcceptedTypeIcons` | resume-frontend/src/components/ResumeUpload.jsx:50-54 | Among the accepted types, PDF gets the PDF icon and both Word types get the document icon. |
| `ResumeUpload.UploadForm.constructor` | resume-frontend/src/components/ResumeUpload.jsx:42-46 | Empty description, no files, not loading, no error, no success. |
| `ResumeUpload.UploadForm.SetJobDescription` | resume-frontend/src/components/ResumeUpload.jsx:257 | Only the description changes. |
| `ResumeUpload.UploadForm.OnDrop` | resume-frontend/src/components/ResumeUpload.jsx:57-64 | Only the file list changes, to `Dropped`. |
| `ResumeUpload.UploadForm.RemoveFile` | resume-frontend/src/components/ResumeUpload.jsx:92-100 | Only the file list changes, to `RemoveAt`. |
| `ResumeUpload.UploadForm.ClearFiles` | resume-frontend/src/components/ResumeUpload.jsx:103-106 | The file list becomes empty; nothing else changes. |
| `ResumeUpload.UploadForm.Submit` | resume-frontend/src/components/ResumeUpload.jsx:109-132 | The new state and the request sent are those of `Submitted`. |
| `ResumeUpload.UploadForm.Complete` | resume-frontend/src/components/ResumeUpload.jsx:134-162 | The new state and the navigation are those of `Responded`. |
| `ResumeUpload.UploadForm.DismissError` | resume-frontend/src/components/ResumeUpload.jsx:467 | Only the error is cleared. |
| `ResumeUpload.UploadForm.DismissSuccess` | resume-frontend/src/components/ResumeUpload.jsx:484 | Only the success flag is cleared. |
| `ResumeForm.ButtonLabel` | resume-frontend/src/components/ResumeForm.jsx:89-93 | "Evaluating..." exactly while uploading, else "Check Results" exactly once uploaded, else "Rank the resumes". |
| `ResumeForm.UploadedSubmitNavigates` | resume-frontend/src/components/ResumeForm.jsx:20-24 | Once uploaded, submit navigates to `/results` with the stored results and no description, changing no state and sending nothing. |
| `ResumeForm.FirstSubmitSends` | resume-frontend/src/components/ResumeForm.jsx:26-33 | Before that, submit sets `isUploading` and sends the description and every file in index order. |
| `ResumeForm.RespondedOutcome` | resume-frontend/src/components/ResumeForm.jsx:40-46 | `isUploading` ends false; success stores the data and sets `isUploaded`; failure changes nothing else. |
| `ResumeForm.UploadLifecycle` | resume-frontend/src/components/ResumeForm.jsx:17-47 | During the request the button reads "Evaluating..." and is disabled. After success it reads "Check Results", is enabled, and the next press shows the received results. |
| `ResumeForm.FailedUploadRetries` | resume-frontend/src/components/ResumeForm.jsx:43-46 | A failed first request returns the form to its previous state, labelled "Rank the resumes". |
| `ResumeForm.ResumeForm.constructor` | resume-frontend/src/components/ResumeForm.jsx:6-10 | Empty description, resumes and results; not uploading; not uploaded. |
| `ResumeForm.ResumeForm.SetJobDescription` | resume-frontend/src/components/ResumeForm.jsx:57 | Only the description changes. |
| `ResumeForm.ResumeForm.HandleFileChange` | resume-frontend/src/components/ResumeForm.jsx:13-15 | Only the file list changes, to the new selection. |
| `ResumeForm.ResumeForm.Submit` | resume-frontend/src/components/ResumeForm.jsx:17-33 | The new state and the action are those of `Submitted`. |
| `ResumeForm.ResumeForm.Complete` | resume-frontend/src/components/ResumeForm.jsx:35-46 | The new state is that of `Responded`. |
| `ThemeProvider.Toggled` | resume-frontend/src/components/ThemeProvider.jsx:17 | `light` becomes `dark` and every other value becomes `light`, so the result is always a mode. |
| `ThemeProvider.ToggleTwice` | resume-frontend/src/components/ThemeProvider.jsx:17 | From `light` or `dark`, two toggles restore the mode. |
| `ThemeProvider.ColorModeProvider.ColorMode` | resume-frontend/src/components/ThemeProvider.jsx:14-22 | The published mode is the state's mode. |
| `ThemeProvider.ColorModeProvider.constructor` | resume-frontend/src/components/ThemeProvider.jsx:11 | The initial mode is `light`. |
| `ThemeProvider.ColorModeProvider.ToggleColorMode` | resume-frontend/src/components/ThemeProvider.jsx:16-18 | The mode becomes `Toggled(old mode)`, stays in {light, dark}, and is what the context publishes. |
| `ResultsPage.RenderResults` | resume-frontend/src/pages/ResultsPage.jsx:22-101 | It redirects exactly when there is no state or no results. An empty list shows the "No Results Found" panel. A non-empty list shows the table with the results and description unchanged. |
| `ResultsPage.AllExitsToUpload` | resume-frontend/src/pages/ResultsPage.jsx:23-33 | The redirect, the back button and the "Go to Upload" button all lead to `/upload`. |
| `ResultsPage.NonEmptyShowsTable` | resume-frontend/src/pages/ResultsPage.jsx:27-64 | A non-empty list renders the table and back button with exactly the received results and description. |
| `ResultsTable.FilterSubsequence` | resume-frontend/src/components/ResultsTable.jsx:227-234 | The filtered rows are a subsequence of the results, in their order. |
| `ResultsTable.FilterCounts` | resume-frontend/src/components/ResultsTable.jsx:227-234 | A matching row is kept as often as it occurs; a non-matching row never. |
| `ResultsTable.FilterKeepsIff` | resume-frontend/src/components/ResultsTable.jsx:228-233 | A row is shown iff it is in the results and the lower-cased term occurs in its lower-cased name or in one of its lower-cased skills. |
| `ResultsTable.FilterEmptyTerm` | resume-frontend/src/components/ResultsTable.jsx:228-233 | An empty term shows every row, in order. |
| `ResultsTable.HeaderAvoids` | resume-frontend/src/components/ResultsTable.jsx:245 | No header holds a comma, a line break or a quote. |
| `ResultsTable.JoinAvoids` | resume-frontend/src/components/ResultsTable.jsx:254-259 | A join contains a character only if a part or the separator does. |
| `ResultsTable.CsvLineStructure` | resume-frontend/src/components/ResultsTable.jsx:245-260 | With line-break-free fields, the file is the header line followed by one line per result (all results, not the filtered ones), `|results| + 1` lines. |
| `ResultsTable.CsvRowFields` | resume-frontend/src/components/ResultsTable.jsx:248-254 | With comma-free fields, a data line splits back into name, skills joined by `, `, semantic %, skill %, and final score, in that order. |
| `ResultsTable.CsvRowSplitsSkillList` | resume-frontend/src/components/ResultsTable.jsx:248-254 | As written, a result with two matched skills gives a data line with six comma-separated fields instead of five. |
| `ResultsTable.AverageScore` | resume-frontend/src/components/ResultsTable.jsx:391-400 | `N/A` exactly for no results; otherwise average × count = the sum of the final scores (no division by zero). |
| `ResultsTable.SumBounds` | resume-frontend/src/components/ResultsTable.jsx:392 | Per-row bounds on the score bound the sum. |
| `ResultsTable.AverageBounds` | resume-frontend/src/components/ResultsTable.jsx:399 | The average lies between any lower and upper bound of the scores. |
| `ResultsTable.AverageOfEqualScores` | resume-frontend/src/components/ResultsTable.jsx:399 | Equal scores average to that score. |
| `ResultsTable.AverageColor` | resume-frontend/src/components/ResultsTable.jsx:390-396 | Plain text exactly for no results; green exactly when the average is at least 0.6; amber exactly below. |
| `ResultsTable.BestMatch` | resume-frontend/src/components/ResultsTable.jsx:420-446 | Shown exactly when there are results, and it is then the first result. |
| `ResultsTable.BestMatchIsTop` | resume-frontend/src/components/ResultsTable.jsx:420-446 | On ranked results the best match has the highest final score. |
| `ResultsTable.DescriptionPanel` | resume-frontend/src/components/ResultsTable.jsx:513-558 | The description panel (its text comes from the navigation state read at line 59) appears, with the text, exactly when the description is present and non-empty. |
| `ResultsTable.RatioTone` | resume-frontend/src/components/ResultsTable.jsx:132-138 | The five chip bands (≥0.8, ≥0.6, ≥0.4, ≥0.2, else) are exclusive and exhaustive. |
| `ResultsTable.ScoreTone` | resume-frontend/src/components/ResultsTable.jsx:180-186 | The four score bands (≥0.75, ≥0.6, ≥0.4, else) are exclusive and exhaustive, and the info colour is never used. |
| `ResultsTable.TonesMonotone` | resume-frontend/src/components/ResultsTable.jsx:132-186 | A higher value never gets a worse band. |
| `Csv.CsvTable` | resume-frontend/src/components/ResultsTable.jsx:245-260 | The header plus one row per result. |
| `Csv.UnquotedRoundTrip` | resume-frontend/src/components/ResultsTable.jsx:248-254 | A plain field followed by a boundary reads back as itself. |
| `Csv.QuotedRoundTrip` | resume-frontend/src/components/ResultsTable.jsx:248-254 | An escaped, closed quoted field reads back as the original. |
| `Csv.FieldRoundTrip` | resume-frontend/src/components/ResultsTable.jsx:248-254 | Any written field, followed by a boundary, reads back as itself. |
| `Csv.RecordRoundTrip` | resume-frontend/src/components/ResultsTable.jsx:248-254 | A written record reads back as its fields. |
| `Csv.RowsRoundTrip` | resume-frontend/src/components/ResultsTable.jsx:256-259 | Written rows read back unchanged. |
| `Csv.QuotedCsvRoundTrip` | resume-frontend/src/components/ResultsTable.jsx:245-260 | The quoted export reads back as the header and the five fields of each result, in order, whatever the fields hold. |
| `Csv.EscapeWithoutQuotes` | resume-frontend/src/components/ResultsTable.jsx:248-254 | Escaping leaves a field without double quotes unchanged. |
| `Csv.QuoteFieldWithoutQuotes` | resume-frontend/src/components/ResultsTable.jsx:248-254 | A field without double quotes is written as it is, or wrapped in quotes when it holds a comma or a line break. |
| `Csv.EncodedRecordsUnchanged` | resume-frontend/src/components/ResultsTable.jsx:248-259 | Records none of whose fields needs quoting are written as their plain comma-joined fields. |
| `Csv.QuotingChangesNothingWhenUnneeded` | resume-frontend/src/components/ResultsTable.jsx:245-260 | When no field needs quoting, the quoted export is identical to the current one. |
| `Pipeline.NonBlankNonEmpty` | resume-frontend/src/components/ResumeUpload.jsx:112 | A non-blank description is non-empty. |
| `Pipeline.ValidSubmissionRanked` | resume_screening_application/screening_app/views.py:19-23 | The view reads the submitted description and files unchanged, so a submission the client accepts passes the view's 400 check and, with library functions that never fail, is ranked. |
| `Pipeline.AcceptedButUnread` | resume_screening_application/screening_app/views.py:50-55 | The client accepts `.doc` files and shows them with the document icon. Every file whose name ends in `.doc`, `.PDF` or `.DOCX` gives no text, because the suffix test is case-sensitive and knows only `.pdf` and `.docx`. Its skills and similarity are those of an empty text. |
| `Pipeline.AssignIdsKeepsOrder` | resume-frontend/src/components/ResumeUpload.jsx:146-149 | Adding ids keeps the ranked order. |
| `Pipeline.UploadFlowShowsTable` | resume-frontend/src/components/ResumeUpload.jsx:109-163 | A valid upload answered successfully shows the table: one row per file, distinct row ids, the submitted description in its panel, and the top score in the best-match card. |
| `Pipeline.ResumeFormFlowShowsTable` | resume-frontend/src/components/ResumeForm.jsx:17-47 | The plain form's second press shows the table with the view's answer unchanged, with no description panel and with rows that have no ids. |

## Left out

- Network: the POST request is not modelled. Its result is a parameter, `Succeeded(data)` or `Failed`. The multipart encoding is modelled as a list of parts.
- Browser effects: object URLs and their revocation, the Blob and link of the CSV download, the mock download alert, and `console` logging.
- Floating point: scores are exact reals and the 0.7/0.3 weighting is exact. `round(x, 2)` (`Nlp.round2`), `toFixed(1)` (`Formatter.fixed1`) and number-to-text (`Formatter.number`) are uninterpreted parameters.
- ResultsTable.AverageScore: returns the unrounded mean. The average card's `toFixed(2)` (ResultsTable.jsx:399) and the other `toFixed(2)` texts (the score cell at line 200 and the best-match chip at line 443) are not modelled.
- Machine-learning and parsing libraries: spaCy noun chunks and the phrase matcher, sentence embeddings and `cos_sim`, PyMuPDF and docx2txt are uninterpreted functions. `model.encode` is folded into the similarity function.
- Library failures: PyMuPDF and docx2txt are assumed never to raise. In the source, `post` does not guard `extract_text` (views.py:31-34). So a corrupt file named `.pdf` (`fitz.open`, views.py:59) or a `.docx` that is not a zip archive (`docx2txt.process`, views.py:54) makes the view answer a server error instead of a ranking, and the client then takes its failure path (ResumeUpload.jsx:158-161). Django's own upload limits, such as `DATA_UPLOAD_MAX_NUMBER_FILES`, which refuse a request before the view runs, are not modelled either.
- Views.SkillRatioBounded: requires that every phrase match is one of the description's skills. The source does not guarantee this. The matcher compares lower-cased tokens but reports the resume's own span text, spacing included, so the ratio can exceed 1 (see Findings).
- Views.Keywords: `list(set(...))` is modelled as a set; the order of that list is arbitrary in Python and is not modelled.
- Text.Words: carries no contract of its own. `WordsEmptyIff` states what the keyword filter needs.
- Text.IsSpace: whitespace is ASCII only. For JavaScript's `trim` it is space, tab, newline, carriage return, vertical tab and form feed. Python's `strip` and `split()` add the separators U+001C to U+001F. Both runtimes also treat non-ASCII spaces (such as U+00A0 and U+2028) as whitespace, and these are not modelled.
- Text.Lower: lower-casing is ASCII only. Python and JavaScript also lower-case the rest of Unicode.
- ResumeUpload.AssignIds: each response item is assumed to be a complete record with all five fields and an `id` that is absent or a natural number. An `id` of `null` or a string, which would override `index + 1`, is not modelled. Neither is the `TypeError` the table's search and export throw on an item without `name` or `matched_skills` (ResultsTable.jsx:229-230, 247-250).
- Library-enforced behaviour is not modelled:
  - react-dropzone's accepted types and 5 MB limit: the model takes the accepted files as given, and `fileRejections` is not modelled;
  - the browser's `required` check in the plain form;
  - the data grid's sorting and pagination;
  - rendering, theming, the drop-zone border colour and animation.
- Timing: the snackbars' auto-hide and the loading overlay. Only the flag values before and after a request are modelled.
- ResumeUpload.Responded: a response body that is not a list would make `map` (ResumeUpload.jsx:146) throw and end in the failure path. It is treated as `Failed`. ResumeForm stores `response.data` as it is (ResumeForm.jsx:40) and applies no `map`.
- ResumeForm: the component is not mounted by any route in `App.jsx`. It is modelled as written.

## Findings

| source | as written | input that shows it | evidently intended | confidence | as-written member | corrected member |
|---|---|---|---|---|---|---|
| resume-frontend/src/components/ResultsTable.jsx:248-254 | The data line joins its fields with `,` without quoting, while the skills field is itself joined with `, `. | A result with matched skills `["python", "sql"]` (and comma-free other fields): every data line splits into six fields under a five-column header. | Fields holding a comma, quote or line break are quoted as in section 2 of RFC 4180, so each line reads back as five fields. | not executed | `ResultsTable.CsvRowSplitsSkillList` | `Csv.QuotedCsvRoundTrip` |
| resume_screening_application/screening_app/views.py:74-79 | `skill_score` is the number of distinct matched span texts over the number of description skills. The matcher compares lower-cased tokens, but the span text keeps the resume's own spacing. | The description skill `front-end` (tokens `front`, `-`, `end`) and a resume that writes both `front-end` and `front - end`: two matched texts over one skill give a `skill_match_ratio` of 2. | Each description skill found counts once, so the ratio stays in [0, 1]. For example, register each skill under its own match id and count the distinct ids. | not executed | `Views.SkillRatioExceedsOne` | `Views.FoundSkillRatio` |

`Views.ScoreFile`, and with it `Post` and `Screen`, keeps the ratio as written, so the view's model states what the source computes. `Views.FoundSkillRatioAgrees` shows that the two ratios coincide whenever every matched text is one of the description's own skills.
