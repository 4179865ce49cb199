# Resumable crawl and incremental batch translation, in Dafny

This project models the sequential core of two scripts and proves properties of that model.

- `GoogleAutoCompleteSuggestions.py` asks a search engine for the autocomplete suggestions of
  936 queries built from a root word. It appends them to a text file and keeps a JSON progress
  list, so that an interrupted run resumes where it stopped.
- `batch_translate.py` translates the cleaned lines of a word list in batches. It skips words
  that already have a translation in an earlier CSV output and writes every word with its old or
  new translation, in input order.

The browser, the translation engine and the file formats are replaced by values:

- the suggestion fetcher is a function `string -> seq<string>`;
- the translator is a function `string -> Result<string>`, where `Err(m)` stands for an
  exception whose `str(e)` is `m`;
- the files are maps from file names to contents (`Crawl.Disk`);
- the CSV input and output are a sequence of lines, a map of earlier translations and the
  sequence of rows.

Modules:

- `Common`: options, results, order-preserving filtering by a key set, flattening.
- `Text`: Python's `str.strip`, `sep.join` and `str.split(sep)`. Whitespace is the set of code
  points Python's `str.isspace` accepts.
- `Autocomplete`: query generation and file names.
- `Crawl`: the files and the resume loop, as a class with methods and loop invariants. A
  keyboard interrupt is a parameter: it names the fetch during which it arrives and the point
  within it: during the fetch; after the suggestions are appended and before the query is added
  to `processed_queries` (line 134); or after that.
- `Plan`: the pure list steps of `main`: cleaning, the remaining words, the batch-size clamp and
  the slicing.
- `Batch`: `translate_batch`, with the same steps inside `translate_worker`.
- `Worker`: the work queue as a class, and one worker's loop.
- `Program`: `main` of the translator, from the cleaned words to the rows written.

The crawler has no retries, no back-off, no throttling, no relevance filter and no
de-duplication of output lines. Only the two waits in `get_google_suggestions` turn a failure
into an empty list (GoogleAutoCompleteSuggestions.py:45-47 and 58-60); that query is then
recorded as done like any other. Every other browser failure raises: `driver.get` (line 38),
the search box calls (lines 49-51) and the reading of the suggestions (lines 63-64). Such an
exception is not caught by `except KeyboardInterrupt` (line 140), so the run ends with that
query unrecorded and without a further save of the progress list.

Some edge cases of the translator's `main` are modelled as outcomes of `Program.TranslateFile`:

- In the process-pool mode, `--threads 0` raises ZeroDivisionError at line 259, and a negative
  count makes the pool raise ValueError (`Crashed`).
- In the thread mode, no worker is started when `--threads` is below 1. A worker takes nothing
  when `--batch_size` is below 1. In both cases `unfinished_tasks` never reaches 0, so the
  progress loop never ends (`Hangs`).
- `main` never puts the `None` end signal on the queue. Workers stop when the queue is empty.
  The end-signal handling of `translate_worker` is still modelled: `Worker.Drain` takes batch
  after batch until one is empty, and `Worker.RunWorker` leaves exactly the batches, queue and
  re-put count that `Drain` gives, end signal or not.

## Model

| member | source | states |
|---|---|---|
| Common.Filter | batch_translate.py:241 | a list comprehension with an `in` or `not in` test: the elements whose membership matches, in their order; never more than the input |
| Autocomplete.Query | GoogleAutoCompleteSuggestions.py:118-120 | the f-string of one query: the root, a space and the two characters |
| Autocomplete.AllQueries | GoogleAutoCompleteSuggestions.py:115-120 | there are exactly 26 × 36 = 936 queries |
| Autocomplete.GenerateQueries | GoogleAutoCompleteSuggestions.py:115-120 | the nested loops build exactly the query list: query i has first letter i / 36 and second character i % 36 (26 letters, then 10 digits) |
| Autocomplete.Letter | GoogleAutoCompleteSuggestions.py:116-118 | `chr(97 + k)` for k < 26 is a lower-case letter |
| Autocomplete.Digit | GoogleAutoCompleteSuggestions.py:119-120 | the formatted number k < 10 is a decimal digit |
| Autocomplete.QueryShape | GoogleAutoCompleteSuggestions.py:118-120 | every query is the root, a space, a lower-case letter, then a letter or a digit |
| Autocomplete.QueryComplete | GoogleAutoCompleteSuggestions.py:116-120 | every string of that shape is generated |
| Autocomplete.QueryOrder | GoogleAutoCompleteSuggestions.py:116-120 | first letters ascend; within one first letter, the letter queries come before the digit queries, each in ascending order |
| Autocomplete.QueriesDistinct | GoogleAutoCompleteSuggestions.py:116-120 | no query is generated twice |
| Autocomplete.SafeRootWord | GoogleAutoCompleteSuggestions.py:123 | same length; every space becomes `_`; every other character is unchanged |
| Autocomplete.ProgressFileName | GoogleAutoCompleteSuggestions.py:111 | the progress file of a root is the root followed by `_progress.json` |
| Autocomplete.OutputFileName | GoogleAutoCompleteSuggestions.py:132 | the output file of a root is its safe form followed by `.txt` |
| Crawl.Lines | GoogleAutoCompleteSuggestions.py:76-78 | the text one call of `save_suggestions_to_file` appends: each suggestion followed by a line feed, in order |
| Crawl.LinesConcat | GoogleAutoCompleteSuggestions.py:76-78 | writing two lists of suggestions one after the other writes their concatenation |
| Crawl.LinesAsJoin | GoogleAutoCompleteSuggestions.py:76-78 | the written text is the suggestions joined by line feeds, with a final line feed |
| Crawl.LinesRoundTrip | GoogleAutoCompleteSuggestions.py:76-78 | splitting the written text at line feeds gives back every suggestion once, in order, duplicates kept, and then an empty remainder |
| Crawl.Output | GoogleAutoCompleteSuggestions.py:131-132 | everything appended to the output file for the given queries, in fetch order: the lines of each query's suggestions |
| Crawl.Loaded | GoogleAutoCompleteSuggestions.py:86-89 | the progress list a crawl starts from: the stored list, or the empty list when the file is missing |
| Crawl.Opened | GoogleAutoCompleteSuggestions.py:76 | the output text a crawl appends to: the old content, or empty when the file is missing |
| Crawl.Disk.LoadProgress | GoogleAutoCompleteSuggestions.py:80-89 | the list stored in the progress file, or the empty list when there is none |
| Crawl.Disk.SaveProgress | GoogleAutoCompleteSuggestions.py:91-98 | the progress file holds exactly the given list, which `load_progress` then returns; text files are unchanged |
| Crawl.Disk.AppendSuggestions | GoogleAutoCompleteSuggestions.py:70-78 | the file becomes its old content (empty if missing) followed by each suggestion and a line feed, in order; nothing else changes |
| Crawl.Pending | GoogleAutoCompleteSuggestions.py:126-128 | the generated queries not in the loaded progress list, in generation order |
| Crawl.PendingFacts | GoogleAutoCompleteSuggestions.py:126-128 | the queries still to do are distinct and are exactly the generated queries not yet in the progress list |
| Crawl.Run | GoogleAutoCompleteSuggestions.py:100-105 | an input that is empty after stripping ends the run and touches no file; otherwise the crawl runs for the stripped root |
| Crawl.Resume | GoogleAutoCompleteSuggestions.py:111-143 | the crawl of a root over its generated queries, with its own progress and output files, leaves the state `Visited` describes |
| Crawl.Visited | GoogleAutoCompleteSuggestions.py:125-143 | the files after a crawl: the progress list extended by the recorded queries, the output extended by their suggestions (and by the interrupted query's after an interrupt between appending its suggestions and adding it to `processed_queries`); a completed crawl records every pending query, an interrupted one the pending queries before the interrupted one, and that one too when the interrupt came in the pause |
| Crawl.Visit | GoogleAutoCompleteSuggestions.py:125-143 | done queries are skipped. The progress list grows only at its end, by pending queries in order, each recorded after its suggestions were appended. Without an interrupt every pending query is recorded. An interrupt leaves its query unrecorded, unless it comes after the query was added to `processed_queries`; the progress so far is saved |
| Crawl.Handle | GoogleAutoCompleteSuggestions.py:130-142 | an interrupt during the fetch appends nothing and saves the old list. One after the append but before the query is added to `processed_queries` (line 134) appends the suggestions and saves the old list. Otherwise the suggestions are appended and the list is saved with the query added |
| Crawl.PartialSkip | GoogleAutoCompleteSuggestions.py:127-128 | a query already in the progress list changes no file and is not fetched |
| Crawl.PartialRecord | GoogleAutoCompleteSuggestions.py:131-135 | a new query appends its suggestions and is then recorded at the end of the list |
| Crawl.PartialInterrupted | GoogleAutoCompleteSuggestions.py:140-142 | an interrupt at any of the three points ends the run in the state described by `Visited` |
| Crawl.PartialCompleted | GoogleAutoCompleteSuggestions.py:126 | a loop run to the end records every pending query |
| Crawl.CompletedRecordsAll | GoogleAutoCompleteSuggestions.py:126-135 | after a completed crawl every generated query is in the progress list; the queries added are distinct and none was there before |
| Crawl.RecordedAreNew | GoogleAutoCompleteSuggestions.py:126-142 | whatever the outcome, the progress list afterwards is the old list followed by the queries added; these are generated queries, distinct, and none was in the old list |
| Text.Strip | GoogleAutoCompleteSuggestions.py:102 | `str.strip()`: the text without whitespace at either end |
| Text.LeadingSpaces | GoogleAutoCompleteSuggestions.py:102 | the whitespace counted at the start ends at a non-space character or at the end |
| Text.TrailingSpaces | GoogleAutoCompleteSuggestions.py:102 | the whitespace counted at the end ends at a non-space character or at the start |
| Text.StripFacts | batch_translate.py:222 | the stripped text neither starts nor ends with whitespace; it is a slice of the input with only whitespace before and after it |
| Text.StripIdempotent | batch_translate.py:222 | stripping a stripped word changes nothing |
| Text.StripRemovesNewline | batch_translate.py:219-222 | a line from `readlines()` has no line feed left after stripping |
| Text.Join | batch_translate.py:135 | `sep.join(ws)`: the elements with the separator between neighbours |
| Text.Split | batch_translate.py:141 | `s.split(sep)`: the pieces between non-overlapping occurrences of the separator, scanned left to right; there is at least one piece |
| Text.JoinSplit | batch_translate.py:179 | joining the pieces of a split with the separator gives back the text |
| Text.SplitJoin | batch_translate.py:173-179 | when no element holds the separator's first character, splitting the joined list gives the list back |
| Plan.Clean | batch_translate.py:222 | there are never more words than lines |
| Plan.CleanWords | batch_translate.py:222 | every cleaned word is non-empty and already stripped |
| Plan.CleanConcat | batch_translate.py:222 | cleaning works line by line, so it keeps the order of the lines |
| Plan.CleanLine | batch_translate.py:222 | a line contributes its stripped text exactly when that text is not empty, at its place |
| Plan.CleanMembers | batch_translate.py:222 | a word is kept if and only if it is the non-empty stripped text of some line |
| Plan.Remaining | batch_translate.py:241 | the words without an earlier translation, in order; never more than the words |
| Plan.RemainingFacts | batch_translate.py:241-246 | the remaining words are exactly the words without a translation, in order; there are none if and only if every word has one; the filter distributes over concatenation |
| Plan.FloorDiv | batch_translate.py:259 | Python's `//`: the quotient rounded towards negative infinity, for either sign of the divisor |
| Plan.BatchSize | batch_translate.py:259 | fails exactly when the thread count is 0. Otherwise the size is at least 1 and at most the requested size when that is at least 1. It is 1, the requested size, or `n // (2 * threads) + 1` |
| Plan.Batches | batch_translate.py:260 | the consecutive slices of k elements, the last one possibly shorter |
| Plan.BatchesSizes | batch_translate.py:260 | every batch has 1 to k elements; all but the last have exactly k |
| Plan.BatchesAt | batch_translate.py:260 | batch j is the slice `s[j*k : j*k + k]` |
| Plan.BatchesFlatten | batch_translate.py:260 | concatenating the batches gives the input back |
| Plan.BatchesCount | batch_translate.py:260 | there are ceil(n / k) batches: none for an empty input; otherwise (m - 1)·k < n ≤ m·k |
| Plan.BatchesCons | batch_translate.py:260 | a full first slice, or the whole rest, is followed by the batches of what remains |
| Batch.Individual | batch_translate.py:155-159 | a word translated on its own gets its translation, or `ERROR: ` followed by the exception's message |
| Batch.Parts | batch_translate.py:173-182 | a successful batch translation whose split matches gives one piece per word |
| Batch.Aligned | batch_translate.py:182-184 | writing piece i under word i in order has exactly the batch's words as keys |
| Batch.Fallback | batch_translate.py:189-197 | translating every word on its own has exactly the batch's words as keys |
| Batch.Translated | batch_translate.py:170-198 | whatever the translator returns or raises, the keys are exactly the batch's words |
| Batch.AlignedAt | batch_translate.py:182-184 | a word gets the piece at its last occurrence |
| Batch.TranslatedValues | batch_translate.py:170-198 | when the pieces line up, word i gets piece i (last occurrence wins). Otherwise, or when the batch call raises, each word gets its own translation, or `"ERROR: "` plus the message when that raises |
| Batch.AlignedWhenSeparatorsKept | batch_translate.py:173-184 | a translator that keeps the separators, with pieces free of line feeds, gives each word its own piece |
| Batch.TranslateInto | batch_translate.py:170-198 | the loops write exactly the entries of `Translated` over the given dictionary |
| Batch.OneByOne | batch_translate.py:185-188 | the unprotected word-by-word loop fails exactly when some word's translation raises. Without failure it writes every translation. After a failure, the later full fallback overwrites what it wrote |
| Batch.AlignedInto | batch_translate.py:182-184 | the aligned loop writes exactly `Aligned` over the dictionary |
| Batch.FallbackInto | batch_translate.py:189-197 | the `except` loop writes exactly `Fallback` over the dictionary |
| Batch.TranslateBatch | batch_translate.py:170-198 | `translate_batch` returns exactly `Translated` |
| Batch.Accumulated | batch_translate.py:283-285 | the dictionary after merging the results of the batches one after another over a starting dictionary |
| Batch.AccumulatedKeys | batch_translate.py:283-285 | merging batch results one after another keeps the old keys and adds exactly the batch words; words of no batch keep their old entry |
| Batch.AccumulatedAt | batch_translate.py:283-285 | a word ends with the translation from the last batch that holds it |
| Worker.Words | batch_translate.py:119-127 | a queue has at least as many entries as words |
| Worker.WordsConcat | batch_translate.py:119-127 | words and end signals of two runs of entries add up |
| Worker.NoStopsAllWords | batch_translate.py:294-295 | a queue without end signals holds one word per entry |
| Worker.WorkQueue.Put | batch_translate.py:122 | `put` appends the entry and counts one more unfinished task |
| Worker.WorkQueue.GetNowait | batch_translate.py:119 | a non-blocking `get` removes the first entry, or raises `queue.Empty` on an empty queue; the task count is unchanged |
| Worker.WorkQueue.TaskDone | batch_translate.py:163 | `task_done` counts one task less, and raises when none is unfinished |
| Worker.Take | batch_translate.py:116-129 | what the inner loop takes from the queue: the batch, whether it met the end signal, and the entries left with that signal put back at the end |
| Worker.TakeShape | batch_translate.py:116-129 | a worker takes at most `batch_size` words, the first ones in order, and never an end signal. The words and the number of end signals in the queue are kept. The batch is empty exactly when `batch_size` < 1, the queue is empty or it starts with the end signal. Without an end signal it takes min(`batch_size`, queue length) words |
| Worker.TakeFront | batch_translate.py:117-127 | the batch is the words at the front of the queue, entry for entry |
| Worker.TakeStops | batch_translate.py:117-129 | a take that meets the end signal stops at the first one, before `batch_size` words and before the end of the queue, removes it and puts it back at the end (lines 120-124); otherwise it stops after `batch_size` words or at the end of the queue and leaves the rest of the queue as it was |
| Worker.TakeAfter | batch_translate.py:117-127 | taking continues from the words already taken |
| Worker.TakeBatch | batch_translate.py:116-129 | the inner loop takes exactly what `Take` describes and counts the re-put end signal as a task |
| Worker.ProgressStep | batch_translate.py:113-163 | one translated batch keeps the worker's bookkeeping: words taken in order, task count, batch limits |
| Worker.ProgressEnd | batch_translate.py:125-132 | the worker stops when it takes nothing; without an end signal the queue is then empty and the batches are those of `Plan.Batches` |
| Worker.Drain | batch_translate.py:113-132 | the worker's batches taken one after another until one is empty, with the entries left and the number of end signals put back |
| Worker.DrainOrder | batch_translate.py:113-132 | the drained batches followed by the words left are the queue's words in order |
| Worker.DrainSizes | batch_translate.py:117-132 | each drained batch has 1 to `batch_size` words; the number of end signals in the queue is unchanged |
| Worker.SignalFirst | batch_translate.py:120-126 | a queue that starts with the end signal gives no batch: the signal goes to the back and the worker returns |
| Worker.DrainWords | batch_translate.py:113-132 | a queue without an end signal is emptied in the batches of `Plan.Batches` and nothing is put back |
| Worker.RunWorker | batch_translate.py:112-167 | the shared dictionary gets each batch's translations in order. The batches are the queue's words in order, each of 1 to `batch_size` words. `task_done` is called once per word taken, so the outer `except` is never reached. The batches, the queue left and the re-put count are exactly those of `Drain`, end signal or not; with no end signal and `batch_size` ≥ 1, the queue is emptied in the batches of `Plan.Batches` |
| Worker.BatchesTake | batch_translate.py:116-129 | without an end signal, each batch is the next slice of `Plan.Batches` |
| Program.RowsAre | batch_translate.py:328-335 | the rows to write: one per word in input order, with the earlier translation when there is one and otherwise the new one |
| Program.OrderedRows | batch_translate.py:332-335 | the rows follow the input order and hold a word if and only if it has a merged translation, with that translation |
| Program.PoolTranslate | batch_translate.py:264-285 | the pool's results are merged in task order |
| Program.FillQueue | batch_translate.py:291-295 | the queue holds the remaining words in order, each an unfinished task |
| Program.ThreadTranslate | batch_translate.py:287-320 | the thread mode hangs exactly when `--threads` or `--batch_size` is below 1; otherwise the results are those of the batches of `Plan.Batches` |
| Program.MergedCovers | batch_translate.py:328-329 | after the merge every word has a translation: its earlier one, or the new one |
| Program.TranslateFile | batch_translate.py:222-335 | there is nothing to do exactly when every cleaned word already has a translation. The pool mode crashes exactly when `--threads` is below 1; the thread mode hangs exactly when `--threads` or `--batch_size` is below 1. Otherwise there is one row per cleaned word, in input order: its earlier translation if it had one, else its new one from the batches of that mode |

## Left out

- Browser automation in `get_google_suggestions` is not modelled: the fetcher is a parameter. A
  failed wait returns an empty list, which the fetcher may return too.
- Argos Translate is a parameter, `install_translation_package` is not modelled, and neither is
  the GPU check or the command-line parsing. The translator is assumed to give the same answer
  for the same text.
- JSON and CSV formats, file existence checks, the encoding and the backup-file fallback are not
  modelled. The crawler's files are maps of contents, and the CSV data is a map of earlier
  translations plus the rows to write.
- The crawler's keyboard interrupt is modelled only at three points. The first is during the
  fetch. The second is after the suggestions are appended and before the query is added to
  `processed_queries` (line 134). The third is after that line. An interrupt before
  `save_progress` (line 135) and one in the pause (line 138) leave the same files, because the
  `except` saves the list that already holds the query. An interrupt in the middle of a file write, and exceptions other than a keyboard interrupt (such as the
  browser failures listed above), are not modelled.
- Concurrency is not modelled. The process pool's tasks are run one after another. The thread
  mode's workers are run one after another to completion, so the first one does all the work.
  Interleaved batches across threads, the daemon threads and the `tqdm` polling loops are not
  modelled.
- Sleeps, timing and the words-per-second figure are not modelled.
- Worker.RunWorker: requires `|q.items| <= q.unfinished`, which holds for the queue `main`
  fills. Under it `task_done` never raises, so the worker's outer `except` (lines 165-167) is
  never taken and is not modelled.
