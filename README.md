# clinical-deepdive core, modelled in Dafny

clinical-deepdive searches the xDD literature service for COVID-19 papers,
runs spaCy matchers over each paper's texts to find clinical variables
and diseases, and writes one tab-separated line (or one JSON line) per
distinct row built from a (disease name, variable match) pair of a paper. This project models the decision logic of that pipeline:

- `deep_get` and the lock-free `FastWriteCounter` (`utils.dfy`);
- `try_parse_dt`, `to_rows`, `to_rows_es`, the `hashabledict`
  deduplication and the CSV line format (`rows.dfy`, `strings.dfy`,
  `dates.dfy`);
- the two `process_page_result` page processors built by `context_result`
  and `context_result_es`, and the header that `run` writes before anything
  else (`app.dfy`);
- the retry loop `retry_search_sem`, the `pager` batches, and the
  `search_xdd` and `search_xdd_es` crawls (`search.dfy`).

JSON values are the `JsonData.Json` datatype. Python's truthiness is
`JsonData.Truthy`. A Python exception is a `JsonData.Exc` value carried in a
`Result` or `Option`.

The foreign parts are parameters:
- The spaCy matchers are an `App.Annotator` (text to matches).
- `dateparser.parse` is a `Rows.Parser` (token to optional date).
- The HTTP server is a `Search.Server`: the outcome of each attempt on each
  page index.
- The output file is an `App.Sink` that records every write in order.
- The page processor handed to the search is a `Search.Callback`.

Python's `asyncio.gather` is modelled as the list of results in request
order. The completion order of `asyncio.as_completed` is an arbitrary
choice inside `Search.DeliverCompleted`.

The model follows the code as written; in particular:
- `retry_search_sem` re-raises the last `ClientResponseError` after the last
  attempt and never waits: its `asyncio.sleep` is not awaited.
- `context_result`, the processor `run` uses, never increments the counter.
- `context_result_es` builds its rows with `to_rows` (rows carry `gddid`),
  not `to_rows_es`. It increments the counter before building them.
- `search_xdd_es` passes the seed page to the callback only after it has
  read `total_results` and built the task list.

## Model

| member | source | states |
|---|---|---|
| JsonData.Get | src/clinical_deepdive/utils.py:15-16 | `d.get(k)`: the value of k, or `None` when k is absent |
| JsonData.GetOr | src/clinical_deepdive/app.py:178 | `d.get(k, default)`: the default exactly when k is absent |
| JsonData.First | src/clinical_deepdive/app.py:137 | `j[0]` answers exactly for a non-empty list or string; a list gives its first element; a dict raises `KeyError` |
| JsonData.Field | src/clinical_deepdive/search.py:55 | `j[k]` answers exactly when j is a dict holding k, with k's value; a dict without k raises `KeyError(k)` |
| JsonData.Len | src/clinical_deepdive/search.py:43 | `len` is defined exactly for lists, strings and dicts, and is 0 exactly when the value is falsy |
| JsonData.Elements | src/clinical_deepdive/app.py:169 | iterating a list gives its elements; any other value that iterates without failing (an empty dict or string) gives nothing; `None`, numbers and booleans raise |
| JsonData.FloorDiv10 | src/clinical_deepdive/search.py:55 | `n // 10` is the floor of n / 10, also for negative n; strings, lists, dicts and `None` raise `TypeError` |
| Utils.Parts | src/clinical_deepdive/utils.py:13 | a non-empty path has at least one key, so `parts[0]` exists |
| Utils.DeepGet | src/clinical_deepdive/utils.py:6-18 | a falsy `d` or an empty path gives `d` itself, not the default; a truthy non-dict `d` raises (no `get`); a first key that is missing or maps to `None` gives the default |
| Utils.DeepGetDotted | src/clinical_deepdive/utils.py:13 | a string path looks up the same value as the list of its `.`-separated parts |
| Utils.DeepGetOneKey | src/clinical_deepdive/utils.py:13 | `deep_get(d, "a")` equals `deep_get(d, ["a"])` |
| Utils.DeepGetTwoKeys | src/clinical_deepdive/utils.py:13 | `deep_get(d, "a.b")` equals `deep_get(d, ["a", "b"])` |
| Utils.Lookup | src/clinical_deepdive/utils.py:14-18 | the reference lookup: with no keys left it is the value itself |
| Utils.DeepGetChain | src/clinical_deepdive/utils.py:10-18 | along a chain of truthy dicts with non-null values the whole way, the result is the value at the end of the path |
| Utils.DeepGetStopsAtFalsy | src/clinical_deepdive/utils.py:10-11 | when the value reached after i keys is falsy (such as `{}`) but not `None`, lookup stops there and returns that value, not the default |
| Utils.FastWriteCounter.constructor | src/clinical_deepdive/utils.py:34-38 | a fresh counter has its position at `init`, no reads counted, and reports `init` |
| Utils.FastWriteCounter.Increment | src/clinical_deepdive/utils.py:40-41 | advances the position by one step, leaves `_number_of_read` alone, and raises the reported value by `step`; keeps position = init + step*(increments + reads) and `_number_of_read` = step*reads |
| Utils.FastWriteCounter.Value | src/clinical_deepdive/utils.py:43-48 | returns init + step*increments; advances the position and `_number_of_read` by one step each, so the reported value is unchanged and the invariant is kept |
| Utils.ReadTwice | src/clinical_deepdive/utils.py:45-48 | two reads with no increment between them return the same number |
| Utils.CountIncrements | src/clinical_deepdive/utils.py:34-48 | a fresh counter driven through any interleaving of increments and reads: each read reports init + step × (the increments before it), and the final value is init + step × (all increments) |
| Strings.Split | src/clinical_deepdive/app.py:43 | `str.split(sep)`: at least one part, no part contains the separator, and joining the parts gives back the string |
| Strings.SplitNoSep | src/clinical_deepdive/app.py:43 | a string without the separator splits into itself alone |
| Strings.SplitCons | src/clinical_deepdive/app.py:43 | the part before the first separator comes first, then the split of the rest |
| Strings.SplitHasSeveralParts | src/clinical_deepdive/app.py:43 | the split has a second part exactly when the separator occurs |
| Strings.SplitJoin | src/clinical_deepdive/app.py:124 | splitting tab-joined parts that contain no tab gives the parts back |
| Strings.Join | src/clinical_deepdive/app.py:124 | `sep.join(parts)`: when no part holds the separator, the result holds it exactly when there are at least two parts |
| Strings.LastIndex | src/clinical_deepdive/app.py:45 | the index of the last occurrence, or -1 exactly when there is none |
| Strings.BeforeLast | src/clinical_deepdive/app.py:45 | `s.rsplit(c, 1)[0]`: the whole string without `c`; otherwise the prefix before the last `c` |
| Strings.LastIndexAfter | src/clinical_deepdive/app.py:45 | in `a + c + b` with no `c` in `b`, the last `c` is at index \|a\| |
| Strings.BeforeLastOf | src/clinical_deepdive/app.py:45 | cutting `a + c + b`, with no `c` in `b`, gives `a` |
| Dates.DigitChar | src/clinical_deepdive/app.py:48 | the decimal digit character of k |
| Dates.Digits | src/clinical_deepdive/app.py:48 | exactly `width` decimal digits |
| Dates.ParseIsoDate | src/clinical_deepdive/app.py:48 | only a ten-character string reads as a date |
| Dates.DigitsRoundTrip | src/clinical_deepdive/app.py:48 | zero-padded digits read back as the number they encode |
| Dates.IsoDate | src/clinical_deepdive/app.py:48 | `str(date)` is `YYYY-MM-DD`: ten characters, digits with dashes at positions 4 and 7 |
| Dates.IsoDateRoundTrip | src/clinical_deepdive/app.py:48 | reading an ISO date string back gives the date |
| Dates.IsoDateInjective | src/clinical_deepdive/app.py:48 | different dates give different strings |
| Dates.IsoDateExample | src/clinical_deepdive/app.py:41 | 6 March 2020 is written `2020-03-06` |
| Rows.DateComponent | src/clinical_deepdive/app.py:43 | there is a second `/`-component exactly when the DOI contains `/`, and it has no `/` in it |
| Rows.DateComponentOf | src/clinical_deepdive/app.py:43 | for `a/b` and `a/b/tail` the component is `b` |
| Rows.DateToken | src/clinical_deepdive/app.py:43-45 | no token without a `/` or with an empty second component; otherwise the token is that component cut before its last `.` |
| Rows.DateTokenOf | src/clinical_deepdive/app.py:41-45 | for `prefix/date.serial` (the shape `10.1101/2020.03.06.20031955`) the token is `date` |
| Rows.DateTokenWithoutDot | src/clinical_deepdive/app.py:45 | a component with no `.` is the token as a whole |
| Rows.TryParseDt | src/clinical_deepdive/app.py:39-49 | `""` exactly when there is no token or the parser yields nothing; otherwise the ISO date of the parse |
| Rows.TryParseDtRoundTrip | src/clinical_deepdive/app.py:46-48 | a non-empty result reads back as the parser's date |
| Rows.TryParseDtOf | src/clinical_deepdive/app.py:39-49 | for `prefix/date.serial` the result is the ISO date of `parse(date)`, or `""` |
| Rows.RowKeys | src/clinical_deepdive/app.py:62-71 | every row has a disease and a sentence; a row has `gddid` exactly when it came from `to_rows` |
| Rows.RowGet | src/clinical_deepdive/app.py:124 | `row.get(k, "")`: a key the row does not have gives `""` |
| Rows.WithExtracted | src/clinical_deepdive/app.py:89-114 | the document with its `extracted` entry attached is a truthy dict that has that entry |
| Rows.CommonFields | src/clinical_deepdive/app.py:136-141 | the fields every row of a document shares; `gddid` is present exactly for `to_rows`, and `dt` is `try_parse_dt(doi)` |
| Rows.Estimate | src/clinical_deepdive/app.py:153 | the first of the variable's numbers, or `""` when there are none |
| Rows.MakeRow | src/clinical_deepdive/app.py:145-155 | a row takes its disease and its variable, estimate and sentence from the match, and url, gddid, doi, year and dt from the document |
| Rows.DistinctNames | src/clinical_deepdive/app.py:136 | the set of `matched_on` names: no repeats, and exactly the names of the disease matches |
| Rows.RowsOf | src/clinical_deepdive/app.py:144-157 | the inner loop: one row per variable match, in order |
| Rows.Product | src/clinical_deepdive/app.py:142-157 | the nested loops of `to_rows`: no variable matches give no rows (its length and members are stated by `Rows.ProductLength` and `Rows.ProductMembers`) |
| Rows.ProductLength | src/clinical_deepdive/app.py:142-157 | the nested loops build \|diseases\| × \|variables\| rows |
| Rows.RowsOfHas | src/clinical_deepdive/app.py:144-157 | each variable match gives its row |
| Rows.ProductHas | src/clinical_deepdive/app.py:142-157 | every (disease, variable) pair gives its row |
| Rows.ProductOnly | src/clinical_deepdive/app.py:142-157 | every row built comes from some (disease, variable) pair |
| Rows.ProductMembers | src/clinical_deepdive/app.py:142-157 | a row is built exactly when it is the row of a (disease, variable) pair |
| Rows.HashKey | src/clinical_deepdive/app.py:22-23 | `hash(frozenset(self))` depends only on the key set: every row with the same kind of keys (with or without `gddid`) has the same hash |
| Rows.SetAdd | src/clinical_deepdive/app.py:21-23 | adding to a set: the result holds exactly the old rows and the new one, and a set without duplicates stays without duplicates |
| Rows.SetAddByEquality | src/clinical_deepdive/app.py:21-23 | adding to a set of `hashabledict`s ignores the row exactly when an equal row is there: the key-set hash only picks the bucket |
| Rows.Dedupe | src/clinical_deepdive/app.py:160 | `list(set(rows))`: no two equal rows, the same rows as the input, and no more of them |
| Rows.DedupeKeepsSameKeyRows | src/clinical_deepdive/app.py:21-23 | two different rows with the same keys, and so the same hash, are both kept |
| Rows.DistinctCount | src/clinical_deepdive/app.py:160 | a list without repeats has as many elements as its set |
| Rows.RowsFor | src/clinical_deepdive/app.py:134-161 | the rows of a document are produced exactly when its shared fields can be read, the shared fields' exception otherwise; the rows have no duplicates |
| Rows.RowsForMembers | src/clinical_deepdive/app.py:134-161 | every row comes from a distinct disease name and a variable match, with the document's shared fields, and every such pair has its row |
| Rows.RowsForBound | src/clinical_deepdive/app.py:157-161 | no two rows are equal; there are at most \|distinct diseases\| × \|variables\| rows |
| Rows.RowsForEmpty | src/clinical_deepdive/app.py:142-144 | no diseases or no variables gives no rows |
| Rows.ToRows | src/clinical_deepdive/app.py:134-161 | the loops compute the rows of `RowsFor`, with `gddid` |
| Rows.ToRowsEs | src/clinical_deepdive/app.py:52-76 | the loops compute the rows of `RowsFor`, without `gddid` |
| Rows.CrossRows | src/clinical_deepdive/app.py:142-157 | the nested loops build the product of diseases and variables |
| Rows.AppendRows | src/clinical_deepdive/app.py:144-157 | the inner loop appends the disease's row for each variable match |
| Rows.ColumnValues | src/clinical_deepdive/app.py:124 | the columns' values, `""` for a missing key, in column order; a non-string value raises `TypeError` in `join` |
| Rows.CsvLine | src/clinical_deepdive/app.py:124 | the line can be formed exactly when every value is a string, and it ends in a newline |
| Rows.CsvLineFields | src/clinical_deepdive/app.py:124 | with no tab in the values, splitting the line (without its newline) on tabs gives back each column's value in column order |
| App.HeaderNoTabs | src/clinical_deepdive/app.py:240-250 | no header name contains a tab |
| App.HeaderSplitJoin | src/clinical_deepdive/app.py:240-253 | splitting the joined header on tabs gives the names back |
| App.HeaderLine | src/clinical_deepdive/app.py:240-253 | the header line ends in a newline and, without it, splits on tabs into exactly the nine column names in order |
| App.Sink.constructor | src/clinical_deepdive/app.py:239 | a newly opened output holds nothing |
| App.Sink.Write | src/clinical_deepdive/app.py:123 | a write appends its text and changes nothing else |
| App.OpenOutput | src/clinical_deepdive/app.py:252-253 | with CSV output the header line is the first and only write before any row; otherwise nothing is written |
| App.RowLine | src/clinical_deepdive/app.py:121-129 | a row's text is its CSV line in CSV mode, else its JSON and a newline |
| App.LinesOf | src/clinical_deepdive/app.py:221-227 | at most one line per row; no exception exactly when every row's line can be formed |
| App.LinesOfComplete | src/clinical_deepdive/app.py:221-227 | with no exception, exactly one line per row, in row order |
| App.LinesOfStops | src/clinical_deepdive/app.py:121-129 | when row k is the first whose line cannot be formed, rows 0..k-1 have been written one line each in order, and row k's exception is raised |
| App.WriteRows | src/clinical_deepdive/app.py:220-227 | appends exactly the rows' lines to the output and raises what forming them raises |
| App.PageObjects | src/clinical_deepdive/app.py:168 | a page's object list; a page without `objects` raises `TypeError` (iterating `None`) |
| App.ChildContents | src/clinical_deepdive/app.py:178 | one text per child, its `content` or `""`; fails exactly when a child is not a dict |
| App.DocumentTexts | src/clinical_deepdive/app.py:171-184 | succeeds exactly when the five `deep_get` lookups succeed, the document is a dict and its `children` iterate into dicts; then the texts are content, summary, then each child's `content`, in that order, and the title is `bibjson.title` |
| App.NonEmpty | src/clinical_deepdive/app.py:184-186 | a text is kept exactly when it is one of the texts and truthy; no more texts are kept than given |
| App.Annotate | src/clinical_deepdive/app.py:184-213 | the loop over the texts only adds matches to what was found before; it raises exactly when some truthy text, or the title, is not a string, and then raises `TypeError` |
| App.AnnotateOne | src/clinical_deepdive/app.py:184-213 | one non-empty text adds its variable matches, and its disease matches followed by the title's disease matches |
| App.AnnotateAppend | src/clinical_deepdive/app.py:184 | the loop over `texts + [t]` is the loop over `texts` followed by one step for `t`; an exception stops it |
| App.AnnotateSkipsEmpty | src/clinical_deepdive/app.py:184-186 | empty texts are skipped: the matches equal those of the non-empty texts alone |
| App.AnnotateAllEmpty | src/clinical_deepdive/app.py:184-186 | with only empty texts nothing is matched and nothing raises |
| App.ContextRows | src/clinical_deepdive/app.py:171-219 | rows are built only when the document's texts can be read and give variable matches and disease matches, and then they are the rows of `to_rows`; an exception reading or annotating the texts is raised |
| App.ContextDocument | src/clinical_deepdive/app.py:169-227 | a document of `context_result` never counts |
| App.ContextDocumentGate | src/clinical_deepdive/app.py:218 | a document with no variable matches or no disease matches writes nothing and raises nothing |
| App.ContextDocumentWrites | src/clinical_deepdive/app.py:218-227 | a document with variable and disease matches whose lines can all be formed writes one line per row of `to_rows`, in row order, and counts and raises nothing |
| App.Chain | src/clinical_deepdive/app.py:169-227 | the loop over the page's documents ends without an exception exactly when no document raises |
| App.ChainHits | src/clinical_deepdive/app.py:85-129 | without an exception, the page's count is the number of documents that count |
| App.ChainSilent | src/clinical_deepdive/app.py:169-227 | documents that write and count nothing make a page that writes and counts nothing |
| App.ChainWrites | src/clinical_deepdive/app.py:169-227 | without an exception, no document raised and the page writes the documents' lines in document order |
| App.ChainNoHits | src/clinical_deepdive/app.py:169-227 | documents that never count make a page that never counts |
| App.ContextPage | src/clinical_deepdive/app.py:164-229 | `context_result`'s page processor never increments the counter |
| App.ProcessPage | src/clinical_deepdive/app.py:167-227 | writes exactly the page's lines from `ContextPage` and raises its exception |
| App.ProcessDocument | src/clinical_deepdive/app.py:171-227 | writes exactly the document's lines from `ContextDocument` and raises its exception |
| App.EsDocument | src/clinical_deepdive/app.py:86-129 | a document of `context_result_es` counts at most once; a readable document with no variable match writes nothing, counts nothing and raises nothing, whatever its disease matches and title; a readable document with a variable match counts once and writes the lines of its `to_rows` rows, raising what `to_rows` or forming a line raises |
| App.EsDocumentCounts | src/clinical_deepdive/app.py:99-120 | a document counts exactly when its content has a variable match, whether or not it has disease matches; with no disease match it writes nothing |
| App.EsPage | src/clinical_deepdive/app.py:82-129 | `context_result_es` increments the counter at most once per document of the page, and not at all when the page has no object list |
| App.ChainAtMostOne | src/clinical_deepdive/app.py:85-120 | documents that each count at most once make a run that counts at most once per document |
| App.EsPageHits | src/clinical_deepdive/app.py:85-119 | without an exception, the counter goes up once per document that counts |
| App.ProcessPageEs | src/clinical_deepdive/app.py:82-129 | writes exactly the page's lines from `EsPage`, increments the counter by the page's count, and never reads it |
| App.ProcessDocumentEs | src/clinical_deepdive/app.py:86-129 | writes the document's lines and increments the counter by its count |
| Search.RetryFrom | src/clinical_deepdive/search.py:21-29 | the loop from attempt i on has made at least i attempts |
| Search.RetrySearch | src/clinical_deepdive/search.py:19-29 | the attempt loop computes the result and attempt count of `RetryFrom` |
| Search.RetryPastFailures | src/clinical_deepdive/search.py:25-27 | a `ClientResponseError` before the last attempt only moves on to the next attempt |
| Search.RetrySucceeds | src/clinical_deepdive/search.py:21-24 | when the first k attempts fail with `ClientResponseError` and k < retries, and attempt k+1 answers, the answer is returned after exactly k+1 attempts |
| Search.RetryGivesUp | src/clinical_deepdive/search.py:21-29 | when all attempts fail with `ClientResponseError`, the last error is raised after exactly `retries` attempts |
| Search.RetryOtherFailure | src/clinical_deepdive/search.py:22-25 | any other exception propagates from the attempt that raises it, with no retry |
| Search.RetryBounds | src/clinical_deepdive/search.py:21 | the result is `None` exactly when `retries <= 0`, and then no attempt is made; otherwise at most `retries` attempts are made |
| Search.PageResult | src/clinical_deepdive/search.py:19-29 | a page answered on the first attempt gives its body |
| Search.FetchPage | src/clinical_deepdive/search.py:19-29 | a page fetch computes `PageResult` |
| Search.Range | src/clinical_deepdive/search.py:34 | `batch_size` consecutive page indices from `lo` |
| Search.Pager.constructor | src/clinical_deepdive/search.py:32 | the page counter starts at 0 |
| Search.Pager.NextBatch | src/clinical_deepdive/search.py:33-34 | a batch is the next `size` consecutive indices, and the counter moves past them |
| Search.GatherFrom | src/clinical_deepdive/search.py:34 | a gathered batch from request i on has one result per remaining request |
| Search.Gather | src/clinical_deepdive/search.py:34 | a gathered batch has one result per request |
| Search.GatherFromOk | src/clinical_deepdive/search.py:34 | when every remaining request answers, gathering keeps the earlier results in place and puts each answer at its request's position |
| Search.GatherOk | src/clinical_deepdive/search.py:34 | `gather` succeeds exactly when every request answers, and its results are in request order |
| Search.GatherAnswered | src/clinical_deepdive/search.py:34 | when every request answers, result j is page j's answer |
| Search.GatherFails | src/clinical_deepdive/search.py:34 | one failing request makes the whole batch fail |
| Search.GatherFirstFailure | src/clinical_deepdive/search.py:34 | the batch raises the exception of the first failing request in request order |
| Search.GatherBatch | src/clinical_deepdive/search.py:41 | awaiting a batch computes `Gather` |
| Search.IsEmptyPage | src/clinical_deepdive/search.py:43 | a page without `objects` counts as empty, a list counts as empty when it has no elements, and a body that is not a dict raises |
| Search.Deliver | src/clinical_deepdive/search.py:42-47 | the batch loop from result i: at most one page passed on per remaining result, and with no exception and no `_break` every remaining page is passed on |
| Search.DeliverFilters | src/clinical_deepdive/search.py:42-48 | without an exception, exactly the non-empty pages of the batch go to the callback, in index order, and `_break` is set exactly when some page of the batch is empty |
| Search.DeliverNonEmpty | src/clinical_deepdive/search.py:42-47 | only pages of the batch that are not empty go to the callback |
| Search.DeliverBatch | src/clinical_deepdive/search.py:42-47 | the loop over a batch's results computes `Deliver` |
| Search.RunBatch | src/clinical_deepdive/search.py:41-47 | a batch raises exactly what its `gather` raises, and then passes nothing on and does not break; a batch that raises nothing had every request answered |
| Search.FetchAndDeliver | src/clinical_deepdive/search.py:41-47 | fetching a batch and passing its pages on computes `RunBatch` |
| Search.Batches | src/clinical_deepdive/search.py:40-41 | the step of the `async for` loop: for every first page index it runs `RunBatch` on the batch starting there |
| Search.XddFrom | src/clinical_deepdive/search.py:40-49 | the loop from page `first`, with a batch left to run, requests pages `first` .. `first`+B-1 first |
| Search.Xdd | src/clinical_deepdive/search.py:36-49 | `search_xdd`, with a batch left to run, requests pages 0 .. B-1 first |
| Search.XddOutOfFuel | src/clinical_deepdive/search.py:40 | no batch left to run adds nothing to what was requested and delivered |
| Search.XddAfter | src/clinical_deepdive/search.py:40-49 | one batch step: an exception ends the search, `_break` ends it after the batch, otherwise the search goes on from the next batch |
| Search.XddAfterBatch | src/clinical_deepdive/search.py:40-49 | the same step, for the batch just fetched and passed on |
| Search.NextRow | src/clinical_deepdive/search.py:40-49 | one iteration of the `async for` loop: the next batch's pages, what was passed on, and how the search goes on |
| Search.SearchXdd | src/clinical_deepdive/search.py:36-49 | the crawl computes `Xdd`: the pages requested, the pages passed to the callback in order, and how it ended |
| Search.ConsecutiveAppend | src/clinical_deepdive/search.py:32-34 | consecutive runs of indices joined end to end stay consecutive |
| Search.XddFetchedConsecutive | src/clinical_deepdive/search.py:31-34 | from page `first`, the search requests `first`, `first`+1, ... in order, at most B per batch |
| Search.XddRequestsFromZero | src/clinical_deepdive/search.py:31-34 | the search requests pages 0, 1, 2, ... in order, so batch n covers n·B .. n·B+B-1 |
| Search.XddStopsAtEmptyBatch | src/clinical_deepdive/search.py:43-49 | a batch with an empty page and no exception ends the search: its non-empty pages are passed on in index order and nothing later is requested |
| Search.XddContinuesAfterFullBatch | src/clinical_deepdive/search.py:42-49 | a batch with no empty page and no exception passes all its pages on, and the search goes on with the next batch |
| Search.MembersAppend | src/clinical_deepdive/search.py:40-47 | if each of two runs passes on only pages it requested that are non-empty, so do the two runs together |
| Search.RunBatchNonEmpty | src/clinical_deepdive/search.py:41-47 | pages a batch passes on were requested in it and are not empty |
| Search.XddDeliversOnly | src/clinical_deepdive/search.py:40-49 | from any batch, every page passed on was requested and is non-empty |
| Search.XddDeliversNonEmpty | src/clinical_deepdive/search.py:36-49 | an empty page is never passed to the callback |
| Search.XddNeverStops | src/clinical_deepdive/search.py:33-48 | with batches of zero pages, nothing is requested and the loop never breaks |
| Search.XddEmptyBatches | src/clinical_deepdive/search.py:31-49 | `batch_size == 0` requests nothing and never terminates: the search only runs out of batches |
| Search.XddFiveFullPages | src/clinical_deepdive/search.py:31-49 | with non-empty pages 0..4, empty pages after them and B = 3, pages 0..5 are requested and 0..4 passed on |
| Search.XddFiveFromRuns | src/clinical_deepdive/search.py:40-49 | the same crawl, from its two batch runs |
| Search.FiveFirstBatch | src/clinical_deepdive/search.py:41-47 | the first batch, pages 0..2, passes all three on and goes on |
| Search.FiveSecondBatch | src/clinical_deepdive/search.py:41-48 | the second batch, pages 3..5, passes 3 and 4 on and breaks |
| Search.EsPageCount | src/clinical_deepdive/search.py:55 | the further page count is `total_results // 10` (floor division); a missing `total_results` raises `KeyError` |
| Search.EsTasks | src/clinical_deepdive/search.py:56-57 | the tasks after the seed are pages 1 .. `pages`, one per page, none when `pages` is not positive |
| Search.EsPageCountExample | src/clinical_deepdive/search.py:53-57 | 25 results: a count of 2, so the seed and its tasks are pages 0, 1 and 2 |
| Search.DeliverCompleted | src/clinical_deepdive/search.py:62-72 | in completion order, each task's page is passed on at most once; no exception exactly when every page answers and is accepted, and then each is passed on exactly once |
| Search.SearchXddEs | src/clinical_deepdive/search.py:51-72 | requests the seed page 0; a failing seed or count raises before anything is passed on; the seed is passed on first; when the callback raises on the seed only page 0 was requested, since the other tasks are scheduled only by `as_completed`; otherwise pages 1 .. `total_results // 10` are requested; each page is passed on at most once, and exactly once when the crawl finishes, which happens exactly when every page answers and is accepted |

## Left out

- I/O, concurrency and scheduling are not modelled: the aiohttp session, the aiofiles writes,
  the semaphore, and the threading lock in `value`. Writes are recorded in order in `App.Sink`;
  `gather` is a list of results in request order; `as_completed` is an arbitrary completion
  order.
- The orchestration in `run` and `main` is left out, as is `config.py`. Only the header write
  is kept (`App.OpenOutput`).
- spaCy, its matchers and `config_matcher` are a foreign library. They are an abstract
  `App.Annotator`, so the model does not say which text spans match.
- App.Annotate: spaCy is taken to raise `TypeError` when it is given a text or a title that is
  not a string, as spaCy 2's tokenizer does; other spaCy versions may raise differently.
- App.EsDocument: relies on the same assumption for `nlp(txt)` on the content and `nlp(title)`
  on the title.
- `dateparser.parse` is a foreign parser. It is an abstract `Rows.Parser`.
- `json.dumps` of a row is an abstract function in `App.Settings`.
- URL templates and `urllib.parse.quote_plus` are a library call. A page is addressed by its
  index.
- The `asyncio.sleep` in the retry loop is never awaited. The model has no delay.
- logging, tqdm progress bars and timing output are presentation only.
- `co_callback=None` is not modelled: the callback is always present.
- Python set iteration order is arbitrary. `Rows.DistinctNames` and `Rows.Dedupe` fix the
  first-occurrence order as a modelling choice. The contracts of `Rows.RowsFor` and its lemmas do
  not depend on it, but the contracts of the writers (`App.WriteRows`, `App.LinesOfComplete`,
  `App.ProcessPage`, `App.ProcessDocument`, `App.ProcessPageEs`, `App.ProcessDocumentEs`) state a
  document's lines in that order, where the source writes them in set order.
- JSON numbers are integers. Floats, and `1 == True`-style equalities across types, are not
  modelled.
- Iterating a non-empty dict or string where the code expects a list is modelled as an
  immediate `AttributeError` (the `.get` the code then calls on a key or character), not as
  iteration over keys or characters.
- A spaCy span's `sent.text` is the string `sentence` of a match.
- Search.SearchXdd: the unbounded `while True` loop is bounded by `maxBatches`. A search that
  has not stopped after that many batches ends with `OutOfFuel`, which the source cannot do.
- Search.GatherFirstFailure: `asyncio.gather` raises whichever exception occurs first in time;
  the model picks the failing request with the lowest index in request order.
- Search.DeliverCompleted: which failing task raises depends on the completion order, so the
  contract says only that some exception is raised, not which one.
- Utils.FastWriteCounter.Value: the lock is not modelled. The counter is proved for sequential
  use only.
