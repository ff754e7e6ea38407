# litLearn in Dafny

litLearn is a browser tool for triaging research papers. Papers enter an
inbox, by CSV import or by hand, with a DOI, a title and an added date.
While reading a paper the user drafts a structured excerpt: main claims,
topics, key concepts, critical notes, citability from 1 to 10, relevant
projects and an expiry in years. A completed paper is then resurfaced on
a spaced-repetition schedule whose intervals follow a Fibonacci table
counted in weeks.

This project models the logic behind those steps and proves what it
promises. Each module follows one source file:

- `Fibonacci` (`src/utils/fibonacci.js`): the 12-entry interval table with its clamps, the next review date, and the expiry test with its 999-year sentinel.
- `Review` (`src/pages/Review.jsx`):
  - the page's own 11-entry table, capped at 89;
  - the due queue;
  - the recall transition;
  - the three-paper session, as a class over the shared store.
- `Dashboard` (`src/pages/Dashboard.jsx`): the status counts, the stricter reminder list (citability at least 7 and at least one project), its first five entries and the three actionable ones.
- `Reading` (`src/pages/Reading.jsx`):
  - paper selection;
  - the blank excerpt and the excerpt merge;
  - completion checks and seeding of the review state;
  - PDF file names;
  - the reading page as a class.
- `DataContext` (`src/context/DataContext.jsx`): the shared store of papers and settings as a class, and the id-keyed paper update and settings merge it applies.
- `Search` (`src/pages/Search.jsx`): the filters, the sortable result list, the sort toggle and the topic list, which is built by a loop.
- `Inbox` (`src/pages/Inbox.jsx`):
  - CSV row classification into preview, error report or silently skipped duplicate;
  - the import;
  - the manual add.
- `Csv` (`src/utils/csv.js`): the DOI and date validators, and the `yyyy-MM-dd` format they share with the inbox.
- `ExcerptForm`, `TagInput` and `PdfViewer` (`src/components/reading/`):
  - field edits and suggestion adoption;
  - the AI button threshold;
  - tag entry;
  - the page plan and text cut of the AI text extraction;
  - page navigation.
- `Timer` (`src/components/reading/Timer.jsx`) and `Header` (`src/components/layout/Header.jsx`): the countdown text and colour, and the page title.
- `Settings` (`src/pages/Settings.jsx`): the settings form, its project list and the backup import.
- `Records`, `Dates`, `Strings`, `Lists`, `Sorting` and `Wrappers`: the paper records, the calendar, and the JavaScript string and array operations the pages compose.

How the modules are written:

- Stateful parts are classes with `modifies` clauses:
  - the store;
  - the review session;
  - the reading, inbox, search and settings pages;
  - the PDF pager.
- The loops of the source are methods with loop invariants, each proved against a function that specifies it:
  - CSV row classification;
  - the topic collection;
  - the two page-plan loops and the text accumulation of the PDF extraction.
- Everything else is functions and lemmas.
- Results that the host computes are parameters:
  - the host's date parsing;
  - today's date;
  - new ids;
  - whether a save succeeded.

Dates are calendar triples with a day numbering (`Dates.Ordinal`). `setFullYear` rolls 29 February over to 1 March. The review page compares an instant with a time of day, `now` plus whole weeks, against a midnight expiry. That instant is modelled as `Dates.Instant`.

Where the program's pages differ from one another, the model follows each page as written:

- The review page's queue does not require citability 7 or a project, unlike the dashboard's reminder list; `Dashboard.ReviewQueueIsWider` exhibits a paper that one list shows and the other does not.
- The 999-year "never expires" sentinel is special-cased only in `src/utils/fibonacci.js`. The review page replaces a missing or zero expiry by 999 and adds 999 years literally; see `Review.SentinelExpiresHere`.
- The two interval tables are kept apart: 12 entries up to 144 weeks in `src/utils/fibonacci.js`, 11 entries up to 89 weeks in the review page.
- A negative Fibonacci index is not treated as 0. On the review page a recall from index -2 or below reads outside the table, and `Review.RecallUpdate` returns `None` for it.

## Model

| member | source | states |
|---|---|---|
| Fibonacci.GetFibonacciWeeks | src/utils/fibonacci.js:1-7 | every interval the lookup returns lies between 1 and 144 weeks |
| Fibonacci.GetFibonacciWeeksClamps | src/utils/fibonacci.js:3-6 | a negative index gives the first entry 1, an index of 12 or more the last entry 144, any other index its table entry |
| Fibonacci.FibonacciWeeksRecurrence | src/utils/fibonacci.js:1 | each table entry is the sum of the two before it |
| Fibonacci.GetFibonacciWeeksMonotone | src/utils/fibonacci.js:1-7 | the interval never shrinks as the index grows |
| Fibonacci.GetFibonacciWeeksStep | src/utils/fibonacci.js:1-7 | the interval at the next index is never smaller |
| Fibonacci.CalculateNextReviewDate | src/utils/fibonacci.js:9-14 | the next review date is a valid date exactly `7 * weeks` days after the current one |
| Fibonacci.NextReviewDateBounds | src/utils/fibonacci.js:9-14 | the next review date is strictly later, between one and 144 weeks away |
| Fibonacci.IsExpired | src/utils/fibonacci.js:16-25 | a paper is expired only with a horizon other than 999 years and a review day strictly after the added date plus the years; `Fibonacci.IsExpiredMeaning` proves the converse |
| Fibonacci.IsExpiredMeaning | src/utils/fibonacci.js:16-25 | with 999 years nothing is expired; otherwise expired exactly when the review day is strictly after the added date plus the years, so the horizon day itself is not expired |
| Fibonacci.IsExpiredMonotone | src/utils/fibonacci.js:23-24 | a later review date never turns an expired paper back into a current one |
| Dates.AddYears | src/utils/fibonacci.js:19-21 | `setFullYear` on a valid date gives a valid date (29 February rolls over to 1 March) |
| Dates.YearLength | src/utils/fibonacci.js:11-12 | the day count from one January 1st to the next is 366 exactly in leap years |
| Dates.NextDayOrdinal | src/utils/fibonacci.js:11-12 | the next calendar day is valid and exactly one day number later |
| Dates.AddDays | src/utils/fibonacci.js:11-12 | moving a valid date on by days always gives a valid date; `Dates.AddDaysOrdinal` proves it lands exactly `n` days later |
| Dates.AddWeeks | src/pages/Review.jsx:59 | `addWeeks` keeps the time of day and gives a valid instant from a valid one; `Dates.AddWeeksOrdinal` proves the `7 * w` days |
| Dates.AddDaysOrdinal | src/utils/fibonacci.js:11-12 | `setDate(getDate() + n)` gives a valid date exactly `n` day numbers later |
| Dates.AddWeeksOrdinal | src/pages/Review.jsx:59 | `addWeeks` keeps the time of day and moves the instant exactly `7 * w` days |
| Review.ReviewWeeks | src/pages/Review.jsx:6-10 | the lookup is defined exactly for non-negative indices, and then lies between 1 and 89 weeks |
| Review.ReviewWeeksClamps | src/pages/Review.jsx:8-9 | every index from 10 on gets the last entry, 89 weeks |
| Review.ReviewWeeksAgainstFibonacciTable | src/pages/Review.jsx:6-10 | the page's table agrees with src/utils/fibonacci.js on indices 0 to 10 and stays at 89 where that one gives 144 |
| Review.ByReviewDayPreorder | src/pages/Review.jsx:29-31 | ordering by review date compares any two papers and is transitive, so the sort is well defined |
| Review.DueReviews | src/pages/Review.jsx:21-32 | the queue is a permutation of the papers that are completed, scheduled, not expired and due today or earlier, sorted by next review day; papers due on the same day keep their collection order |
| Review.SameDayKeepsOrder | src/pages/Review.jsx:29-31 | sorting by next review day is stable: for every day, the papers due that day come out in collection order |
| Review.DueReviewsMembership | src/pages/Review.jsx:22-28 | a paper is in the queue exactly when it is one of the papers and due |
| Review.RecallUpdate | src/pages/Review.jsx:43-76 | recall: index + 1 and that index's interval; failure: index 0 and one week; the history gains exactly one entry at the end with the day and outcome; no write exactly when the lookup fails on a negative index |
| Review.RecallPatch | src/pages/Review.jsx:67-76 | merged into any paper, the patch replaces its review state and nothing else |
| Review.RecallSchedule | src/pages/Review.jsx:54-60 | the next review is exactly `7 * interval` days after the judgment, and `expired` holds exactly when that instant is past the added date plus `expiry_years` (0 or missing: 999) years |
| Review.FailureForgetsProgress | src/pages/Review.jsx:48-51 | a failed recall gives the same state whatever the old index or interval: index 0, one week |
| Review.EntriesAt | src/pages/Review.jsx:62-65 | the `k`-th appended history entry records the day and outcome of the `k`-th judgment |
| Review.ReplayStep | src/pages/Review.jsx:43-76 | one judgment from a non-negative index always writes, keeps the index non-negative and appends exactly its date and verdict to the history |
| Review.ReplayHistory | src/pages/Review.jsx:62-65 | a sequence of judgments from a non-negative index always writes, and appends exactly one entry per judgment after the unchanged earlier history |
| Review.RecallStreak | src/pages/Review.jsx:45-47 | `n` correct recalls in a row from index `i` reach index `i + n` and that index's interval |
| Review.ExpiresNearHorizon | src/pages/Review.jsx:54-60 | a horizon less than a week ahead expires the paper whatever the outcome |
| Review.KeepsFarFromHorizon | src/pages/Review.jsx:54-60 | a horizon more than 89 weeks ahead never expires it |
| Review.SentinelExpiresHere | src/pages/Review.jsx:54-57 | the page adds the 999 years literally: a paper added on 2000-01-01 without an excerpt and judged on 2999-01-01 comes out expired, while `isExpired` of src/utils/fibonacci.js with 999 years never expires it |
| Review.JudgedPaperLeavesQueue | src/pages/Review.jsx:21-32 | judging the paper at position `i` on the session day takes exactly that paper out of the re-derived queue (as multisets), so the queue shrinks by one |
| Review.ViewOfCard | src/pages/Review.jsx:101-102 | a card is shown exactly when fewer than three were judged and the index lies in the queue, and the card is a paper of the queue |
| Review.NextIndexAsWritten | src/pages/Review.jsx:84-86 | the index advances by one exactly when another paper follows in the old queue and this judgment keeps the count below three |
| Review.NextIndex | src/pages/Review.jsx:84-86 | the corrected rule keeps the index, because the judged paper has already left the queue |
| Review.AsWrittenEndsSessionEarly | src/pages/Review.jsx:84-102 | with two due papers the rule as written ends the session after one judgment although a due paper remains, and reports none remaining |
| Review.SessionVisitsEveryDuePaper | src/pages/Review.jsx:84-102 | with the corrected rule, a card is shown after a judgment exactly when the cap is not reached and a paper is still due, that card is the earliest due paper, and a finished session reports every paper still due |
| Review.ReviewSession.constructor | src/pages/Review.jsx:15-19 | the session starts at index 0 with no judgments and a hidden, empty answer |
| Review.ReviewSession.HandleRecall | src/pages/Review.jsx:37-87 | with a current paper and a successful lookup: the store holds the recall update of that paper, one more judgment is counted and the card is reset; otherwise nothing changes |
| Review.ReviewSession.Record | src/pages/Review.jsx:67-86 | the paper list is the id-keyed update with the patch, a failed save sets only the error, the count grows by one and the card is reset |
| Review.ReviewSession.RevealAnswer | src/pages/Review.jsx:155 | shows the answer and changes nothing else |
| Review.ReviewSession.TypeAnswer | src/pages/Review.jsx:146 | replaces the typed answer and changes nothing else |
| Review.ReviewSession.ToggleDetails | src/pages/Review.jsx:180 | flips the details and changes nothing else |
| Dashboard.StatusCountsPartition | src/pages/Dashboard.jsx:30-32 | the inbox, reading and completed counts add up to the number of papers |
| Dashboard.DueToday | src/pages/Dashboard.jsx:34-45 | every paper reminded of passes the reminder test, and there are no more of them than papers |
| Dashboard.DueTodayMembership | src/pages/Dashboard.jsx:34-45 | a paper is reminded of exactly when it is completed, scheduled, not expired, of citability at least 7 (missing counts as 0), has a project, and is due today or earlier |
| Dashboard.RemindersAreDue | src/pages/Dashboard.jsx:34-45 | every reminded paper is also in the review page's queue |
| Dashboard.ReviewQueueIsWider | src/pages/Dashboard.jsx:39-41 | the converse fails: a due paper of citability 5 is in the review page's queue but not reminded of |
| Dashboard.UpcomingReviews | src/pages/Dashboard.jsx:50-68 | at most five reminders, `min(5, reminders)` of them: the first entries of the stable sort by next review day, so for every day the reminders shown for it are the first ones due that day in collection order |
| Dashboard.SameDayShownFirst | src/pages/Dashboard.jsx:64-67 | for every day, the papers of that day among the first m of a list are the first papers of that day in it |
| Dashboard.RemindersAmong | src/pages/Dashboard.jsx:50-67 | papers drawn from the reminders pass the reminder test |
| Dashboard.UpcomingReviewsAreEarliest | src/pages/Dashboard.jsx:64-67 | a reminder left out of the five is due no earlier than any listed one |
| Dashboard.Annotate | src/pages/Dashboard.jsx:113-121 | entry `i` shows the `i`-th upcoming paper and is actionable exactly when `i < 3`, otherwise labelled waiting |
| Dashboard.StartCount | src/pages/Dashboard.jsx:133 | the announced count is at most three and at most the number of reminders, and equals one of them |
| Dashboard.CountActionablePrefix | src/pages/Dashboard.jsx:116 | a list whose first `k` entries are the actionable ones counts `k` actionable entries |
| Dashboard.StartCountMatchesActionable | src/pages/Dashboard.jsx:113-135 | the start button announces exactly as many papers as the list marks actionable |
| DataContext.MergePaper | src/context/DataContext.jsx:175 | every key the patch carries wins, every other key of the paper is kept, and id, DOI, title and added date never change |
| DataContext.MergePaperEmpty | src/context/DataContext.jsx:175 | an empty patch changes nothing |
| DataContext.MergePaperThen | src/context/DataContext.jsx:175 | two successive merges are one merge with the combined patch |
| DataContext.MergePaperIdempotent | src/context/DataContext.jsx:175 | merging the same patch twice is merging it once |
| DataContext.UpdatePaperList | src/context/DataContext.jsx:173-176 | same length and ids in the same order; papers with another id are unchanged, the matching ones merged with the patch |
| DataContext.UpdatePaperAt | src/context/DataContext.jsx:173-176 | with unique ids, updating the paper at position `i` replaces exactly that element |
| DataContext.UpdatePaperAbsent | src/context/DataContext.jsx:173-176 | updating an id no paper has leaves the list as it is |
| DataContext.UpdatePaperKeepsUniqueIds | src/context/DataContext.jsx:173-176 | unique ids stay unique |
| DataContext.UpdatePaperListThen | src/context/DataContext.jsx:173-176 | two updates of the same paper are one update with the combined patch |
| DataContext.MergeSettings | src/context/DataContext.jsx:155-157 | every key of the new settings wins, every absent key keeps its old value |
| DataContext.MergeSettingsEmpty | src/context/DataContext.jsx:156 | an empty update changes nothing |
| DataContext.MergeSettingsThen | src/context/DataContext.jsx:155-157 | two successive settings updates are one update with the combined patch |
| DataContext.LoadedSettings | src/context/DataContext.jsx:128-134 | every key the settings file carries overrides its default, and every missing key takes its default (empty key, `openai`, 60 minutes, the five projects, expiry options 1, 5, 10 and 999) |
| DataContext.DataStore.constructor | src/context/DataContext.jsx:58-62 | no papers, the default settings, loading, no error |
| DataContext.DataStore.InitializeData | src/context/DataContext.jsx:121-141 | without a handle nothing changes; a successful load replaces the papers and the settings (defaults overridden) and clears the error; a failed load keeps both and records the error; loading ends either way |
| DataContext.DataStore.UpdatePapers | src/context/DataContext.jsx:143-153 | the list is replaced first; a failed save with a directory keeps the new list and only records the error |
| DataContext.DataStore.UpdateSettings | src/context/DataContext.jsx:155-166 | the settings become the merge of the old ones with the update; a failed save only records its error |
| DataContext.DataStore.AddPaper | src/context/DataContext.jsx:168-171 | the paper is appended after every existing paper |
| DataContext.DataStore.UpdatePaper | src/context/DataContext.jsx:173-178 | the list becomes the id-keyed update of the old list |
| DataContext.DataStore.ClearError | src/context/DataContext.jsx:180 | clears the error and nothing else |
| Reading.SelectPaper | src/pages/Reading.jsx:34-46 | with a route id: the first paper with that id, none exactly when no paper has it; without one: the first paper being read if there is one, else the first inbox paper, none exactly when neither exists |
| Reading.CreateEmptyExcerpt | src/pages/Reading.jsx:78-89 | a blank excerpt of citability 5 and expiry 5 years, with no completion date, no minutes and no `key_concepts` |
| Reading.MergeExcerpt | src/pages/Reading.jsx:147-149 | for each of the eleven keys: the update's value when it carries the key, else the excerpt's own |
| Reading.MergeExcerptEmpty | src/pages/Reading.jsx:148 | an empty update changes nothing |
| Reading.MergeExcerptIdempotent | src/pages/Reading.jsx:148 | merging the same update twice is merging it once |
| Reading.ValidateCompletion | src/pages/Reading.jsx:154-162 | completion passes exactly with claims of at least 50 characters and at least two final topics; short claims give the claims message first, otherwise too few topics give the topics message |
| Reading.EmptyExcerptCannotComplete | src/pages/Reading.jsx:154-158 | a freshly started excerpt is rejected with the claims message |
| Reading.TimeSpentMinutes | src/pages/Reading.jsx:171 | the minutes are the nearest whole minute: within half a minute of the seconds, halves rounded up |
| Reading.TimeSpentMinutesUnique | src/pages/Reading.jsx:171 | any whole minute within that half-minute window is the result |
| Reading.Sanitize | src/pages/Reading.jsx:103 | same length; every `/`, `\` and `:` becomes `-`, every other character is kept, and none of the three remains |
| Reading.SanitizeIdempotent | src/pages/Reading.jsx:103 | sanitising twice is sanitising once |
| Reading.PdfFileName | src/pages/Reading.jsx:103 | the sanitised DOI followed by `.pdf`, free of path characters |
| Reading.PdfFileNameCollision | src/pages/Reading.jsx:103 | two DOIs share a file name exactly when they have one length and differ only where both hold `/`, `\`, `:` or `-` |
| Reading.PdfPath | src/utils/storage.js:52-58 | the saved PDF's path is `pdfs/` followed by the file name built from the DOI |
| Reading.SeedReviewState | src/pages/Reading.jsx:174-180 | the first review is exactly seven days after completion, at index 0 and interval 1, with empty history, not expired |
| Reading.CompletionPatch | src/pages/Reading.jsx:168-187 | merged into any paper, the patch sets status `completed`, the completed excerpt and the seeded review state and keeps the identity fields and the PDF path |
| Reading.CompletedPaperDueInAWeek | src/pages/Reading.jsx:174-186 | a completed paper is due for review on a day exactly when that day is at least seven days after completion |
| Reading.ReadingPage.constructor | src/pages/Reading.jsx:19-27 | no paper, no excerpt, no PDF, the timer stopped at 0, not saving, no error |
| Reading.ReadingPage.SelectFromStore | src/pages/Reading.jsx:34-53 | the selected paper is opened with its own excerpt or a blank one; without a selection nothing changes |
| Reading.ReadingPage.ChangeExcerpt | src/pages/Reading.jsx:147-149 | the excerpt becomes the merge of the old one with the update; nothing else changes |
| Reading.ReadingPage.SetTimerRunning | src/pages/Reading.jsx:310-325 | starts or pauses the timer without touching the time spent |
| Reading.ReadingPage.Tick | src/components/reading/Timer.jsx:5-10 | while the timer runs, one second more is counted; otherwise nothing changes |
| Reading.ReadingPage.UploadPdf | src/pages/Reading.jsx:98-113 | a saved PDF records the path `pdfs/` plus the sanitised file name, moves the paper to `reading` and shows the PDF, leaving the page's error as it was; a failed save only sets the error; without a paper nothing changes; the store's error follows its own save. Because the store's papers change, the page's selection effect runs next, which is `Reading.ReadingPage.SelectFromStore` |
| Reading.ReadingPage.HandleComplete | src/pages/Reading.jsx:151-197 | the PDF flag is never touched; without paper or excerpt nothing changes; a failed check sets its message and writes nothing; otherwise the paper is written completed with the completed excerpt and seeded review state, and the page always navigates home with no error |
| Reading.ReadingPage.Complete | src/pages/Reading.jsx:164-196 | the PDF flag is kept; the paper list is the id-keyed update with the patch and the store's error follows its save, saving ends, the error is cleared and the page navigates home, because neither the store's save nor the draft deletion throws |
| Timer.Remaining | src/components/reading/Timer.jsx:15 | the remaining time is never negative: the duration minus the elapsed seconds when that is positive, else 0 |
| Timer.RemainingCountsDown | src/components/reading/Timer.jsx:8-15 | each tick lowers the remaining time by one second until it stops at zero |
| Timer.ClockParts | src/components/reading/Timer.jsx:16-17 | whole minutes and seconds below 60 that add back up to the remaining time |
| Timer.PadTwo | src/components/reading/Timer.jsx:41 | a numeral shorter than two characters gets one leading `0`; longer ones are kept; the original is the tail |
| Timer.PadTwoValue | src/components/reading/Timer.jsx:41 | padding keeps a numeral a numeral of the same value |
| Timer.DecimalTwoDigits | src/components/reading/Timer.jsx:41 | a number's numeral has at most two digits exactly when the number is below 100 |
| Timer.ColonJoin | src/components/reading/Timer.jsx:41 | two numerals around a colon form a clock reading whose two sides are those numerals |
| Timer.ClockText | src/components/reading/Timer.jsx:41 | with seconds below 100 the text is a clock reading, digits, a colon and two digits; `Timer.ClockTextReadsBack` proves it splits back into its numbers |
| Timer.ClockTextReadsBack | src/components/reading/Timer.jsx:41 | `MM:SS` splits back into the minutes and seconds it was made from, and is five characters long exactly under 100 minutes |
| Timer.Display | src/components/reading/Timer.jsx:15-41 | the countdown text is always a clock reading; `Timer.DisplayReadsBack` proves it reads back as the remaining seconds |
| Timer.DisplayReadsBack | src/components/reading/Timer.jsx:15-41 | the countdown text reads back as the remaining seconds, and is five characters long exactly under 6000 seconds |
| Timer.ToneOf | src/components/reading/Timer.jsx:21-35 | time up exactly at zero, orange exactly from 1 to 300 s, yellow exactly from 301 to 600 s, grey exactly above |
| Timer.Notice | src/components/reading/Timer.jsx:43-45 | the time-up notice shows exactly when the tone is time up |
| Timer.ToneMonotone | src/components/reading/Timer.jsx:21-35 | less remaining time never gives a calmer tone |
| Timer.ToneEscalates | src/components/reading/Timer.jsx:8-35 | as seconds tick, the tone only escalates |
| PdfViewer.Range | src/components/reading/PdfViewer.jsx:70-80 | the consecutive pages from `lo` up to but excluding `hi` |
| PdfViewer.PlannedPages | src/components/reading/PdfViewer.jsx:66-80 | every planned page lies inside the document |
| PdfViewer.PlannedPagesShape | src/components/reading/PdfViewer.jsx:66-80 | the plan is strictly increasing, has min(pages, 5) entries, starts at page 1, ends at the last page, and covers every page of a document of at most four pages |
| PdfViewer.FreshPage | src/components/reading/PdfViewer.jsx:76-79 | a page the second loop reaches is never already in the list |
| PdfViewer.LoopsMakePlan | src/components/reading/PdfViewer.jsx:70-80 | the pages of the two loops together are the plan |
| PdfViewer.PagesToExtract | src/components/reading/PdfViewer.jsx:67-80 | the page list the two loops build is the plan |
| PdfViewer.GatheredSnoc | src/components/reading/PdfViewer.jsx:82-88 | reading one more page appends exactly that page's text and a blank line |
| PdfViewer.GatheredPrefix | src/components/reading/PdfViewer.jsx:82-89 | the text of fewer pages is a prefix of the text of all pages |
| PdfViewer.Slice | src/components/reading/PdfViewer.jsx:91 | a prefix of the text, of length the smaller of its length and the limit |
| PdfViewer.CutText | src/components/reading/PdfViewer.jsx:82-91 | the cut text is a prefix of the text of all planned pages, and all of it when that is below 15000 characters |
| PdfViewer.Gather | src/components/reading/PdfViewer.jsx:82-89 | the text is that of the first pages read, each read only while the text so far was below 15000 characters, stopping at the end or at the limit |
| PdfViewer.ExtractText | src/components/reading/PdfViewer.jsx:61-95 | the result is the text of the planned pages read before the limit, cut to 15000 characters |
| PdfViewer.PrevPage | src/components/reading/PdfViewer.jsx:134 | one page back, never below page 1 |
| PdfViewer.NextPage | src/components/reading/PdfViewer.jsx:135 | one page on, never past the last page |
| PdfViewer.PrevThenNext | src/components/reading/PdfViewer.jsx:134-135 | back then on returns to the start page unless it was page 1 |
| PdfViewer.NextThenPrev | src/components/reading/PdfViewer.jsx:134-135 | on then back returns to the start page unless it was the last page |
| PdfViewer.Pager.constructor | src/components/reading/PdfViewer.jsx:17-18 | page 1 of 0 before a document loads |
| PdfViewer.Pager.Load | src/components/reading/PdfViewer.jsx:44-45 | the page count is the document's and page 1 is shown, inside the document when it has a page |
| PdfViewer.Pager.Prev | src/components/reading/PdfViewer.jsx:134 | the page becomes the previous one and stays inside the document |
| PdfViewer.Pager.Next | src/components/reading/PdfViewer.jsx:135 | the page becomes the next one and stays inside the document |
| Search.Matching | src/pages/Search.jsx:34-72 | the `filter` callback keeps a paper exactly when the query, status, project, citability and expiry filters all admit it; `Search.FieldHitMatches`, `Search.LongerQueryNarrows` and `Search.OpenFiltersKeepAll` state what those filters mean |
| Search.FieldHitMatches | src/pages/Search.jsx:37-48 | a paper whose lower-cased field contains the lower-cased query is found |
| Search.LongerQueryNarrows | src/pages/Search.jsx:37-48 | typing more never brings back a paper: a paper found by a query is found by every part of it |
| Search.NoExcerptFailsProjectFilter | src/pages/Search.jsx:55-58 | a paper without an excerpt never passes a non-empty project filter |
| Search.OpenFiltersKeepAll | src/pages/Search.jsx:34-72 | with every filter open and a range holding each citability, the filter keeps the whole list in order |
| Search.NoLaterTotal | src/pages/Search.jsx:73-95 | any two papers are comparable by title, citability or added date |
| Search.NoLaterTrans | src/pages/Search.jsx:73-95 | the column orders are transitive |
| Search.DateNoLaterIsTextOrder | src/pages/Search.jsx:85-94 | comparing the `yyyy-MM-dd` texts of two dates, as the comparator does with `added_date`, orders them exactly as their year, month and day do |
| Search.OrderIsPreorder | src/pages/Search.jsx:73-95 | either direction of each column is a total preorder, so sorting by it is well defined |
| Search.Results | src/pages/Search.jsx:34-96 | the results are a reordering of the filtered papers, exactly the papers the filters admit, sorted by the chosen column and direction |
| Search.ResultsEnds | src/pages/Search.jsx:91-94 | ascending starts with a paper no later than any admitted one, descending with one no earlier |
| Search.ToggleSort | src/pages/Search.jsx:98-105 | the clicked column becomes the sort column; clicking the current one flips the direction, another one starts descending |
| Search.ToggleSortTwice | src/pages/Search.jsx:98-105 | clicking the current column twice restores its direction; a new column's second click sorts ascending |
| Search.TopicCollected | src/pages/Search.jsx:28-30 | every final topic of every excerpt is collected |
| Search.TopicSource | src/pages/Search.jsx:28-30 | every collected topic comes from some paper's excerpt |
| Search.AllTopicListsMembership | src/pages/Search.jsx:26-30 | a topic is collected exactly when some paper's excerpt lists it |
| Search.DedupStep | src/pages/Search.jsx:27-29 | adding a topic to the set appends it exactly when it is new |
| Search.TopicStep | src/pages/Search.jsx:29 | one more topic of a paper extends the set by it exactly when it is new |
| Search.AllTopicListsStep | src/pages/Search.jsx:28-30 | one more paper appends exactly its topics |
| Search.AddTopics | src/pages/Search.jsx:29 | adding a paper's topics in order gives the set of everything added so far |
| Search.AllTopics | src/pages/Search.jsx:26-32 | the topic list is sorted, duplicate-free and holds exactly the topics some excerpt lists |
| Search.AllTopicsProperties | src/pages/Search.jsx:26-32 | the specified topic list is sorted, duplicate-free and holds exactly the topics in use |
| Search.SortedTopics | src/pages/Search.jsx:31 | sorting a duplicate-free topic list keeps it duplicate-free and orders it |
| Search.SearchPage.constructor | src/pages/Search.jsx:17-24 | empty query, no filters, citability 1 to 10, expired hidden, newest added first |
| Search.SearchPage.SetCriteria | src/pages/Search.jsx:17-22 | the filters change and the sort stays |
| Search.SearchPage.ToggleSortClicked | src/pages/Search.jsx:98-105 | the sort becomes the toggled one and the filters stay |
| Inbox.MessagesDiffer | src/pages/Inbox.jsx:38-51 | the three row messages are pairwise different, so a report tells its checks apart |
| Inbox.RowErrors | src/pages/Inbox.jsx:36-54 | the DOI message appears exactly when the DOI is missing or lacks the `10.` prefix, the title message exactly when the title is missing or blank, the date message exactly when a given date does not parse; no message exactly when all three pass |
| Inbox.ExistingDoisMembership | src/pages/Inbox.jsx:22 | a string is an existing DOI exactly when it is some paper's lower-cased DOI |
| Inbox.IsDuplicateAsWritten | src/pages/Inbox.jsx:116 | on a DOI without surrounding white space the test as written agrees with the trimmed test; `Inbox.TrailingSpaceEscapesDuplicateCheck` shows where they part |
| Inbox.LowerTrailingSpace | src/pages/Inbox.jsx:56 | a DOI ending in white space never lower-cases to a trimmed stored DOI |
| Inbox.TrailingSpaceEscapesDuplicateCheck | src/pages/Inbox.jsx:116 | a stored DOI typed again with trailing spaces passes the duplicate test as written, though it trims to the stored DOI and the trimmed test catches it |
| Inbox.Classify | src/pages/Inbox.jsx:35-66 | a row is rejected exactly when it has messages, reported at file line index + 2; skipped exactly when clean and its trimmed DOI is a duplicate (the corrected test, see Findings); otherwise previewed as exactly its trimmed DOI, its trimmed title and its parsed date or today |
| Inbox.Outcomes | src/pages/Inbox.jsx:35 | one outcome per row |
| Inbox.OutcomesAt | src/pages/Inbox.jsx:35-66 | the outcome at each position is that row's own classification with its own index |
| Inbox.OutcomesPartition | src/pages/Inbox.jsx:58-66 | previewed, rejected and skipped rows add up to all rows |
| Inbox.AcceptedSources | src/pages/Inbox.jsx:60-66 | every preview entry comes from an accepted row |
| Inbox.RejectedSources | src/pages/Inbox.jsx:58-59 | every report comes from a rejected row |
| Inbox.ReportsSound | src/pages/Inbox.jsx:58-59 | every report names a row by its file line and carries that row's messages, at least one |
| Inbox.DraftsSound | src/pages/Inbox.jsx:60-66 | every preview entry is the trimmed DOI, trimmed title and date of one of the rows, with a DOI starting with `10.`, a non-empty title, and a DOI matching no existing one |
| Inbox.ClassificationSound | src/pages/Inbox.jsx:22-67 | against the store's DOIs, reports name their rows, and the preview holds only well-formed new papers, each built from one of the rows |
| Inbox.OutcomesStep | src/pages/Inbox.jsx:35-67 | each row's outcome is appended after those of the rows before it |
| Inbox.ClassifyRows | src/pages/Inbox.jsx:31-71 | the preview is the accepted drafts and the error list the rejected reports, in file order |
| Inbox.NewPaper | src/pages/Inbox.jsx:83-92 | a paper with the given id, DOI, title and date, in the inbox, with no PDF, excerpt or review state |
| Inbox.NewPapers | src/pages/Inbox.jsx:83-92 | one new inbox paper per preview entry, carrying its DOI, title and date and its own fresh id |
| Inbox.InboxPapers | src/pages/Inbox.jsx:141 | exactly the papers with status `inbox`, as many as the dashboard counts under that status |
| Inbox.ImportJoinsInbox | src/pages/Inbox.jsx:83-94 | an import puts its new papers, in preview order, at the end of the inbox list |
| Inbox.ImportedDoisAreNew | src/pages/Inbox.jsx:56-94 | no imported paper's DOI matches that of a paper already in the store |
| Inbox.PrefixedNotBlank | src/pages/Inbox.jsx:106 | a DOI starting with `10.` is never blank, so the blank test adds nothing to the prefix test |
| Inbox.ManualCheck | src/pages/Inbox.jsx:104-119 | a manual paper passes exactly with a `10.` DOI, a non-blank title and a new trimmed DOI; otherwise the first failing check's message, in order DOI, title, duplicate |
| Inbox.ManualCheckAsWritten | src/pages/Inbox.jsx:106-119 | as written, a manual paper passes exactly with a `10.` DOI, a non-blank title and an untrimmed DOI not among the existing ones |
| Inbox.ManualAddKeepsDistinctDois | src/pages/Inbox.jsx:116-134 | adding a paper that passes the corrected checks keeps the DOIs distinct ignoring case |
| Inbox.ManualAddAsWrittenDuplicates | src/pages/Inbox.jsx:116-134 | as written, a stored DOI typed again with trailing spaces is added and the store then holds that DOI twice |
| Inbox.AsWrittenPasses | src/pages/Inbox.jsx:106-119 | the checks as written accept a stored DOI followed by white space |
| Inbox.RepeatedDoi | src/pages/Inbox.jsx:134 | appending a paper with a stored DOI makes the DOIs no longer distinct |
| Inbox.InboxPage.constructor | src/pages/Inbox.jsx:13-20 | no preview, no errors, empty inputs, not importing or adding |
| Inbox.InboxPage.TypeManual | src/pages/Inbox.jsx:17-18 | the inputs take the typed values and nothing else changes |
| Inbox.InboxPage.FileSelected | src/pages/Inbox.jsx:24-76 | a parsed file sets the preview and errors to the classification of its rows; a failed parse reports one error at line 0; the inputs stay |
| Inbox.InboxPage.HandleImport | src/pages/Inbox.jsx:78-101 | with no preview nothing is written; otherwise the store gains the new papers in order, the preview and errors clear and the page goes home; the store's loading flag is kept and its error changes only when a save fails |
| Inbox.InboxPage.AcceptManual | src/pages/Inbox.jsx:121-138 | the store gains the paper, the inputs and error clear and adding ends; the store's loading flag is kept and its error changes only when a save fails |
| Inbox.InboxPage.Reject | src/pages/Inbox.jsx:106-118 | the error shows the message and nothing else changes |
| Inbox.InboxPage.ManualAdd | src/pages/Inbox.jsx:103-139 | a failing check shows its message and writes nothing; a passing one appends the paper with trimmed DOI and title dated today and clears the inputs; the store's loading flag is kept and its error changes only when a save fails |
| Csv.ValidateDOI | src/utils/csv.js:18-21 | an accepted DOI is present and not blank, and every DOI starting with `10.` is accepted; `Csv.ValidateDOIAcceptsPadded` shows the converse fails |
| Csv.BlankFailsValidateDOI | src/utils/csv.js:18-21 | a blank string is never a valid DOI |
| Csv.ValidateDOIIgnoresLeadingSpace | src/utils/csv.js:18-21 | leading white space does not change whether a DOI is valid |
| Csv.PaddedTrim | src/utils/csv.js:20 | trimming a DOI behind white space trims the white space away too |
| Csv.StartsWithPrefixValidates | src/utils/csv.js:18-21 | every string starting with `10.` is a valid DOI |
| Csv.ValidateDOIAcceptsPadded | src/utils/csv.js:18-21 | a `10.` DOI behind white space is valid though it does not start with `10.`, so validity is weaker than the prefix test the inbox uses |
| Csv.ValidateDate | src/utils/csv.js:23-30 | a date is accepted exactly when it matches `yyyy-MM-dd` and the host finds it valid, so the emptiness test is redundant; `Csv.ValidDateShape` proves an accepted text is the formatting of its date |
| Csv.ValidDateShape | src/utils/csv.js:23-30 | every accepted date text is exactly the `yyyy-MM-dd` formatting of the date it spells |
| Csv.Digits | src/pages/Inbox.jsx:64 | exactly `w` characters, all digits |
| Csv.ValueOfDigits | src/pages/Inbox.jsx:64 | zero-padded digits read back as the number when it fits in the width |
| Csv.DigitsLexOrder | src/pages/Search.jsx:85-94 | zero-padded numbers of one width compare as text exactly as they compare as numbers |
| Csv.DigitsOfValue | src/pages/Inbox.jsx:64 | a digit string written back at its own width is itself |
| Csv.FormatDate | src/pages/Inbox.jsx:64 | `yyyy-MM-dd` text matches the date pattern that `validateDate` demands |
| Csv.ReadFormattedDate | src/pages/Inbox.jsx:64 | formatting a date and reading the text gives the date back |
| Csv.FormatReadDate | src/utils/csv.js:25-26 | reading a pattern string and formatting the date gives the string back |
| Csv.DigitsBound | src/utils/csv.js:25 | `w` digits denote a number below 10 to the `w` |
| TagInput.BatchTags | src/components/reading/TagInput.jsx:13-16 | the batch holds exactly the trimmed comma pieces that are non-empty and not yet a tag: every item is such a piece and every such piece is an item |
| TagInput.FreshPiecesTrimmed | src/components/reading/TagInput.jsx:13-16 | the pieces the filter keeps are non-empty, trimmed and new, because each is trimmed before the filter |
| TagInput.FreshPiecesKept | src/components/reading/TagInput.jsx:13-16 | the filter keeps every fresh trimmed piece and nothing that is not a trimmed piece |
| TagInput.BatchOfPiece | src/components/reading/TagInput.jsx:13-16 | text without a comma yields its trimmed text when that is non-empty and new, else nothing |
| TagInput.BatchTagsConcat | src/components/reading/TagInput.jsx:13-16 | the parts on either side of a comma yield their tags one after the other, so the batch keeps the input order |
| TagInput.HandleKeyDown | src/components/reading/TagInput.jsx:7-31 | Enter on non-blank text clears it and appends either the trimmed single tag unless present or the batch unless empty, only ever extending the list; Enter on blank text does nothing; Backspace on empty text drops the last tag; other keys do nothing |
| TagInput.SingleTagKeepsNoDups | src/components/reading/TagInput.jsx:22-25 | entering a single tag keeps a duplicate-free list duplicate-free |
| TagInput.BatchOfRepeat | src/components/reading/TagInput.jsx:13-16 | the batch `x,x` yields `x` twice |
| TagInput.RepeatIsBatch | src/components/reading/TagInput.jsx:8-12 | the text `x,x` is non-blank and contains a comma, so it is handled as a batch |
| TagInput.BatchKeepsRepeats | src/components/reading/TagInput.jsx:12-20 | on an empty list, entering `x,x` adds `x` twice: a batch filters only against the tags already there |
| TagInput.RemoveTag | src/components/reading/TagInput.jsx:33-35 | the tag is gone and every other tag stays, with nothing added |
| TagInput.RemoveTagKeepsOrder | src/components/reading/TagInput.jsx:33-35 | removal keeps the remaining tags in their order |
| TagInput.BackspaceThenEnter | src/components/reading/TagInput.jsx:22-29 | Backspace and then entering the removed last tag again restores the list |
| Settings.SessionInput | src/pages/Settings.jsx:131 | never zero: a parsed non-zero number is kept, zero or text that does not parse gives 60 |
| Settings.AddProject | src/pages/Settings.jsx:26-31 | a project is added exactly when its trimmed name is non-blank and not yet listed, and then it is appended trimmed, keeping the list duplicate-free |
| Settings.AddProjectIgnoresPadding | src/pages/Settings.jsx:26-31 | a name added once is not added again with white space in front |
| Settings.RemoveProject | src/pages/Settings.jsx:33-35 | the name is gone, every other project stays, and a duplicate-free list stays duplicate-free |
| Settings.AddThenRemoveProject | src/pages/Settings.jsx:26-35 | removing a project just added restores the list |
| Settings.SaveKeepsExpiryOptions | src/pages/Settings.jsx:15-21 | saving the form sets exactly its four values and keeps the stored expiry options |
| Settings.SettingsForm.constructor | src/pages/Settings.jsx:8-13 | the form shows the stored values, with `openai` for an empty provider and 60 for a zero duration, an empty project input and no saved notice |
| Settings.SettingsForm.TypeProject | src/pages/Settings.jsx:12 | the project input takes the typed text and nothing else changes |
| Settings.SettingsForm.SetSessionDuration | src/pages/Settings.jsx:131 | the duration becomes the parsed input or 60 and nothing else changes |
| Settings.SettingsForm.AddProjectClicked | src/pages/Settings.jsx:26-31 | an accepted name is appended and the input cleared; otherwise nothing changes |
| Settings.SettingsForm.RemoveProjectClicked | src/pages/Settings.jsx:33-35 | the project list loses that name and nothing else changes |
| Settings.SettingsForm.HandleSave | src/pages/Settings.jsx:15-24 | the stored settings take the four form values and keep their expiry options; the papers stay; the saved notice shows; the store's loading flag is kept and its error changes only when a save fails |
| Settings.SettingsForm.HandleImport | src/pages/Settings.jsx:52-75 | an array of papers replaces the papers; present settings are merged and the form shows them with their fallbacks; a missing part or an unreadable file leaves that part as it was; the store's loading flag is kept and its error changes only when a save fails |
| Header.BasePath | src/components/layout/Header.jsx:14 | a slash followed by a segment containing no slash |
| Header.Title | src/components/layout/Header.jsx:15 | the listed title of the base path, or `LitLearn` when none is listed |
| Header.SplitRoute | src/components/layout/Header.jsx:14 | splitting `/seg` or `/seg/rest` at slashes gives `seg` as the second piece |
| Header.BasePathOfNested | src/components/layout/Header.jsx:14 | `/seg` and every route below it have base path `/seg` |
| Header.BasePathIdempotent | src/components/layout/Header.jsx:14 | a base path is its own base path |
| Header.TitleOfNested | src/components/layout/Header.jsx:14-15 | every route below a page shows that page's title |
| Header.ListedRouteTitle | src/components/layout/Header.jsx:3-15 | each listed page shows its own title on its route and on every route below it |
| ExcerptForm.WithTextPart | src/components/reading/ExcerptForm.jsx:28-31 | the named part takes the value and the other two parts are kept |
| ExcerptForm.WithListPart | src/components/reading/ExcerptForm.jsx:28-31 | the named part takes the value and the other two are kept, or empty when the field was missing |
| ExcerptForm.TextFieldChange | src/components/reading/ExcerptForm.jsx:26-33 | merged into the excerpt, the change gives the named part of the named text field the value; `ExcerptForm.TextFieldChangeReplacesOnePart` proves nothing else changes |
| ExcerptForm.ListFieldChange | src/components/reading/ExcerptForm.jsx:26-33 | merged into the excerpt, the change leaves the named list field present with the named part set to the value, even where `key_concepts` was missing; `ExcerptForm.ListFieldChangeReplacesOnePart` proves nothing else changes |
| ExcerptForm.TextFieldChangeReplacesOnePart | src/components/reading/ExcerptForm.jsx:26-33 | merged into the excerpt, a text-field change replaces that one part of that one field and keeps everything else |
| ExcerptForm.ListFieldChangeReplacesOnePart | src/components/reading/ExcerptForm.jsx:26-33 | merged into the excerpt, a list-field change replaces that one part of that one field and keeps everything else |
| ExcerptForm.AdoptText | src/components/reading/ExcerptForm.jsx:72-73 | the adopted text has no white space at its ends and is no longer than draft, blank line and suggestion together |
| ExcerptForm.AdoptTextKeepsDraft | src/components/reading/ExcerptForm.jsx:72-73 | a trimmed non-empty draft is kept in full at the start of the adopted text |
| ExcerptForm.AdoptTextBlankDraft | src/components/reading/ExcerptForm.jsx:72-73 | with a blank draft the adopted text is the trimmed suggestion |
| ExcerptForm.AdoptList | src/components/reading/ExcerptForm.jsx:75 | the adopted list is duplicate-free and holds exactly the entries of the draft and of the suggestion |
| ExcerptForm.AdoptListKeepsDraft | src/components/reading/ExcerptForm.jsx:75 | a duplicate-free draft stays, in order, at the front of the adopted list |
| ExcerptForm.AdoptSuggestion | src/components/reading/ExcerptForm.jsx:70-78 | a text field's final becomes the adopted text, a list field's the adopted list; it throws exactly for a missing `key_concepts` or a field without parts |
| ExcerptForm.SplitSuggestion | src/components/reading/ExcerptForm.jsx:59 | every item is non-empty, trimmed and free of commas |
| ExcerptForm.TrimAllNoComma | src/components/reading/ExcerptForm.jsx:59 | trimming comma-free pieces keeps them comma-free |
| ExcerptForm.TrimInfix | src/components/reading/ExcerptForm.jsx:59 | trimming adds no character |
| ExcerptForm.Prefixed | src/components/reading/ExcerptForm.jsx:51 | each piece preceded by one space |
| ExcerptForm.Spaced | src/components/reading/ExcerptForm.jsx:51 | the first piece kept, each later one preceded by one space |
| ExcerptForm.JoinPrefixed | src/components/reading/ExcerptForm.jsx:51 | joining space-prefixed pieces with `,` is a space followed by the pieces joined with `, ` |
| ExcerptForm.CommaThenSpace | src/components/reading/ExcerptForm.jsx:51 | a comma before a space-prefixed piece is the `, ` separator |
| ExcerptForm.JoinSpaced | src/components/reading/ExcerptForm.jsx:51 | joining with `, ` is joining the spaced pieces with `,` |
| ExcerptForm.SplitSuggestionJoin | src/components/reading/ExcerptForm.jsx:51-60 | a list sent as `items.join(', ')` and returned unchanged splits back into the same items, when each is non-empty, trimmed and comma-free |
| ExcerptForm.CanRequestAi | src/components/reading/ExcerptForm.jsx:80-86 | the button is enabled exactly with at least 50 claim characters, 2 topics, 1 key concept or 20 note characters; other fields never; a missing `key_concepts` throws |
| ExcerptForm.CanRequestAiMonotone | src/components/reading/ExcerptForm.jsx:80-86 | typing more into a text field never disables its button |
| ExcerptForm.FreshExcerptKeyConceptsThrow | src/components/reading/ExcerptForm.jsx:83 | on a freshly started excerpt the key-concepts test throws, since the blank excerpt has no `key_concepts` |
| ExcerptForm.AddSuggested | src/components/reading/ExcerptForm.jsx:178-179 | a clicked suggestion ends up in `final`, appended only when absent, keeping it duplicate-free and the other parts unchanged |
| ExcerptForm.ToggleProject | src/components/reading/ExcerptForm.jsx:238-244 | checking appends the project; unchecking removes it and keeps every other project |
| ExcerptForm.ToggleProjectRoundTrip | src/components/reading/ExcerptForm.jsx:238-244 | checking and then unchecking an unchecked project restores the list |
| ExcerptForm.CitabilityLabel | src/components/reading/ExcerptForm.jsx:7-13 | a label exists exactly for scores 1 to 10 |
| ExcerptForm.CitabilityLabelPairs | src/components/reading/ExcerptForm.jsx:7-13 | two scores share a label exactly when they fall in the same pair 1-2, 3-4, 5-6, 7-8, 9-10 |
| ExcerptForm.NotesEditAsWritten | src/components/reading/ExcerptForm.jsx:363-366 | the two stale patches leave `final` at the typed text and `user_input` at its old value |
| ExcerptForm.NotesEdit | src/components/reading/ExcerptForm.jsx:363-366 | the intended edit is one patch that carries only `critical_notes`, with `user_input` and `final` both the typed text |
| ExcerptForm.NotesEditAsWrittenLosesInput | src/components/reading/ExcerptForm.jsx:363-366 | as written, typed notes never reach `user_input`: the second stale patch restores the old one |
| ExcerptForm.NotesEditSetsBoth | src/components/reading/ExcerptForm.jsx:363-366 | the intended edit sets both `user_input` and `final` to the typed text and keeps everything else |
| ExcerptForm.ConceptsEditAsWritten | src/components/reading/ExcerptForm.jsx:314-317 | the two stale patches leave `final` at the entered tags and `user_input` at its old value, empty when `key_concepts` was missing |
| ExcerptForm.ConceptsEdit | src/components/reading/ExcerptForm.jsx:314-317 | the intended edit is one patch that carries only `key_concepts`, with `user_input` and `final` both the entered tags |
| ExcerptForm.ConceptsEditAsWrittenLosesInput | src/components/reading/ExcerptForm.jsx:314-317 | as written, entered key concepts never reach `user_input` |
| ExcerptForm.ConceptsEditSetsBoth | src/components/reading/ExcerptForm.jsx:314-317 | the intended edit sets both parts of `key_concepts` to the entered tags and keeps everything else |
| ExcerptForm.TopicsEditAsWritten | src/components/reading/ExcerptForm.jsx:147-152 | while `final` is empty the tags land in `final` and `user_input` keeps its old value; otherwise `user_input` takes the tags and `final` stays |
| ExcerptForm.TopicsEdit | src/components/reading/ExcerptForm.jsx:147-152 | the intended edit is one patch that carries only `topics`, with `user_input` the entered tags |
| ExcerptForm.TopicsEditAsWrittenLosesInput | src/components/reading/ExcerptForm.jsx:147-152 | as written, topics entered while `final` is empty land in `final` but not in `user_input` |
| ExcerptForm.TopicsEditSetsInput | src/components/reading/ExcerptForm.jsx:147-152 | the intended edit always records the entered topics in `user_input`, seeds `final` only while it is empty, and keeps everything else |
| Strings.TrimStart | src/utils/csv.js:20 | a suffix of the string, after only white space, starting with no white space |
| Strings.TrimEnd | src/utils/csv.js:20 | a prefix of the string, before only white space, ending with no white space |
| Strings.Trim | src/utils/csv.js:20 | the result has no white space at either end and is no longer than the input |
| Strings.TrimEmptyIffBlank | src/pages/Inbox.jsx:111 | `trim()` is empty, the falsy case, exactly when the string is white space only |
| Strings.TrimOfTrimmed | src/components/reading/TagInput.jsx:15 | trimming a string without white space at its ends changes nothing |
| Strings.TrimIdempotent | src/components/reading/TagInput.jsx:15 | trimming twice is trimming once |
| Strings.TrimSkipsLeadingSpace | src/utils/csv.js:20 | white space in front never survives `trim` |
| Strings.TrimEndSkipsTrailingSpace | src/pages/Inbox.jsx:125 | white space behind never survives the end trim |
| Strings.TrimTrailingSpace | src/pages/Inbox.jsx:125 | a trimmed non-empty string followed by white space trims back to itself |
| Strings.TrimKeepsSolidPrefix | src/pages/Inbox.jsx:62 | a prefix without white space, such as `10.`, survives `trim` |
| Strings.TrimEndKeepsSolidPrefix | src/pages/Inbox.jsx:62 | a prefix without white space survives the end trim |
| Strings.Lower | src/pages/Inbox.jsx:22 | same length, each character lower-cased |
| Strings.LowerConcat | src/pages/Search.jsx:46 | lower-casing a concatenation lower-cases each part |
| Strings.ContainsAt | src/pages/Search.jsx:48 | an occurrence at any position makes `includes` true |
| Strings.ContainsFind | src/pages/Search.jsx:48 | a contained string occurs at some position |
| Strings.ContainsWitness | src/pages/Search.jsx:48 | `includes` holds exactly when the string occurs at some position |
| Strings.ContainsInfix | src/pages/Search.jsx:48 | the middle of a concatenation is contained in it |
| Strings.ContainsEmpty | src/pages/Search.jsx:48 | every string includes the empty string |
| Strings.Split | src/components/reading/TagInput.jsx:14 | at least one piece, none holding the separator |
| Strings.JoinSplit | src/components/reading/TagInput.jsx:14 | joining the pieces of a split with the separator restores the string |
| Strings.SplitJoin | src/components/reading/TagInput.jsx:14 | splitting a join of separator-free pieces restores the pieces |
| Strings.SplitSolid | src/components/layout/Header.jsx:14 | a separator-free head stays at the head of the first piece |
| Strings.SplitAtSep | src/components/reading/TagInput.jsx:14 | splitting at a separator gives the pieces of the left side followed by those of the right side |
| Strings.TrimAll | src/components/reading/TagInput.jsx:15 | one trimmed string per item |
| Strings.TrimAllConcat | src/components/reading/TagInput.jsx:15 | trimming each item of a concatenation trims each part |
| Strings.ContainsTrans | src/pages/Search.jsx:48 | a substring of a substring is a substring |
| Strings.ContainsAfterPrefix | src/pages/Search.jsx:46-48 | text put in front keeps every substring |
| Strings.LowerContains | src/pages/Search.jsx:46-48 | lower-casing keeps substrings |
| Strings.JoinContainsPart | src/pages/Search.jsx:46-48 | every part is a substring of the joined text |
| Strings.LexTotal | src/pages/Search.jsx:31 | any two strings are comparable |
| Strings.LexTrans | src/pages/Search.jsx:31 | the string order is transitive |
| Strings.LexAntisymmetric | src/pages/Search.jsx:31 | two strings each no greater than the other are equal |
| Strings.LexLeConcat | src/pages/Search.jsx:85-94 | texts whose heads have one length compare by their heads first, then by their rests |
| Strings.Decimal | src/components/reading/Timer.jsx:41 | one or more digits, no leading zero, a single digit exactly below 10 |
| Strings.ValueOfDecimal | src/components/reading/Timer.jsx:41 | the digits read back as the number |
| Strings.ValueLeadingZero | src/components/reading/Timer.jsx:41 | a leading zero does not change a numeral's value |
| Lists.Filter | src/pages/Search.jsx:35-36 | no longer than the input, and every element kept passes the test |
| Lists.FilterTake | src/pages/Dashboard.jsx:67 | filtering the first n elements gives a prefix of filtering them all |
| Lists.FilterMembership | src/pages/Search.jsx:35-36 | an element is kept exactly when it is in the input and passes the test |
| Lists.FilterMultiset | src/pages/Search.jsx:35-36 | a filter keeps a sub-multiset of the input |
| Lists.FilterConcat | src/pages/Search.jsx:35-36 | filtering a concatenation filters each part and keeps the order |
| Lists.FilterAll | src/pages/Search.jsx:35-36 | a filter every element passes returns the input |
| Lists.FilterReplaceDropped | src/pages/Review.jsx:21-32 | replacing a kept element by a dropped one removes exactly that element from the filtered list |
| Lists.FilterPartition | src/pages/Search.jsx:35-36 | the kept and the dropped parts add up to the input |
| Lists.FindFirst | src/pages/Reading.jsx:37-46 | the first position whose element passes, or none when none passes |
| Lists.RemoveAll | src/components/reading/TagInput.jsx:33-35 | the element is gone, every other element stays, nothing is added |
| Lists.RemoveAbsent | src/components/reading/TagInput.jsx:33-35 | removing an absent element changes nothing |
| Lists.RemoveAllConcat | src/components/reading/TagInput.jsx:33-35 | removal keeps the order of the rest |
| Lists.RemoveAllNoDups | src/pages/Settings.jsx:33-35 | removal keeps a duplicate-free list duplicate-free |
| Lists.AddIfAbsent | src/components/reading/ExcerptForm.jsx:178-179 | the element is present afterwards, appended only when absent, and a duplicate-free list stays so |
| Lists.AddIfAbsentIdempotent | src/components/reading/ExcerptForm.jsx:178-179 | adding twice is adding once |
| Lists.Dedup | src/pages/Search.jsx:31 | duplicate-free, holding exactly the input's elements |
| Lists.DedupOfNoDups | src/components/reading/ExcerptForm.jsx:75 | a duplicate-free list is its own de-duplication |
| Lists.DedupSnoc | src/components/reading/ExcerptForm.jsx:75 | de-duplicating one more element keeps the earlier result as a prefix |
| Lists.DedupPrefix | src/components/reading/ExcerptForm.jsx:75 | de-duplicating a longer list extends that of its prefix |
| Lists.NoDupsCount | src/pages/Search.jsx:31 | in a duplicate-free list every element occurs at most once |
| Lists.NoDupsPermutation | src/pages/Search.jsx:31 | a reordering of a duplicate-free list is duplicate-free |
| Sorting.Insert | src/pages/Search.jsx:73 | the element is added once and nothing else changes in the multiset |
| Sorting.SortBy | src/pages/Search.jsx:73 | a permutation of the input |
| Sorting.InsertFilterKept | src/pages/Review.jsx:29-31 | inserting an element ahead of everything it ties with puts it first among its ties and keeps the others in order |
| Sorting.InsertFilterDropped | src/pages/Review.jsx:29-31 | inserting an element leaves the order of the elements it does not tie with unchanged |
| Sorting.SortByStable | src/pages/Review.jsx:29-31 | the sort is stable: elements that tie with one another keep their input order |
| Sorting.InsertSorted | src/pages/Search.jsx:73 | inserting into a sorted list under a total preorder keeps it sorted |
| Sorting.SortBySorted | src/pages/Search.jsx:73 | under a total preorder the result is sorted |
| Sorting.TakeSorted | src/pages/Dashboard.jsx:63-66 | the first `n` of a sorted list are sorted and drawn from it |
| Sorting.TakeSortedBound | src/pages/Dashboard.jsx:63-66 | an element left out after the first `n` comes no earlier than each of them |
| Sorting.SortByMembership | src/pages/Search.jsx:31 | sorting keeps exactly the same elements |

## Left out

- Files, the browser's IndexedDB and directory handles (`src/utils/storage.js`) are not part of this model. Whether saving, loading or deleting succeeds is a parameter of the operations that do it.
- The AI calls (`src/hooks/useAi.js`) go over the network, so they are not modelled. Their suggestions are inputs to the excerpt operations.
- CSV parsing by Papa Parse is not modelled: the parsed rows are the input of the import.
- `Csv.ValidateDate` takes the host's date parsing as an oracle. This covers date-fns `parse`/`isValid` and the `new Date(...)` round trip. Time zones and daylight saving time are not modelled, and the time of day appears only in `Dates.Instant`.
- `Lower` folds only ASCII letters, while JavaScript's `toLowerCase` folds all of Unicode.
- New ids (`uuid`) and the current date are parameters.
- Floating-point values are not modelled: the PDF zoom, the splitter position and the timer's progress percentage.
- The timer's `setInterval` plumbing is reduced to one `Reading.ReadingPage.Tick` per second.
- The following Reading page effects are left out:
  - loading a saved draft on mount (`src/pages/Reading.jsx:55-65`);
  - the autosave every 30 seconds (`src/pages/Reading.jsx:67-76`).
- The two-second reset of the settings page's "saved" notice is left out.
- The settings export download (`handleExport`) and the API-key and provider inputs of the settings page are left out. They only write fields that are merged like every other setting.
- The PDF library's loading, rendering and canvas handling are not modelled. Neither are `getPage` and text-extraction failures: a document is its pages' text items.
- PdfViewer.Chunk gives an empty page text for a page outside the document, where `getPage` would reject. `PdfViewer.PlannedPages` never holds such a page.
- Search.Results orders by the source's comparator, which never answers "equal". The order among papers with equal keys therefore depends on the engine's sort, and the model fixes one.
- Internationalisation, routing and navigation are not modelled; a navigation is a flag in the result. The same holds for `App.jsx`, `Layout.jsx`, `Sidebar.jsx`, `LanguageSwitcher.jsx` and `AiSuggestion.jsx`, which only lay out what the modelled pages compute.
- Reading.ReadingPage.ChangeExcerpt requires an open excerpt. The form that calls it is shown only when a paper is selected.
- ExcerptForm.AdoptSuggestion returns `None` for a list field without a suggestion block. The source throws there when it spreads the missing `key_concepts` object.
- Records.ReviewState holds only the five fields that the reading and review pages write. A backup whose papers carry other fields is not modelled.
- Duplicate rows within one CSV file are all previewed, because only DOIs already in the store are checked. The model keeps this behaviour.
- Inbox.Classify tests duplicates on the trimmed DOI, as the corrected manual add does. The test as written is `Inbox.IsDuplicateAsWritten`; see Findings.
- Review.ReviewSession.Record keeps the index after a judgment, by the corrected rule `Review.NextIndex`. The program advances it (`Review.NextIndexAsWritten`, see Findings), so the page as modelled does not skip the next due paper as the program does.
- Review.ReviewSession.HandleRecall runs `Record`, so it also keeps the index by the corrected rule instead of advancing it.
- Inbox.InboxPage.ManualAdd runs the corrected `Inbox.ManualCheck`, which trims the DOI before the duplicate test. The program tests the untrimmed DOI (`Inbox.ManualCheckAsWritten`, see Findings), so the page as modelled refuses a padded duplicate that the program adds.
- Reading.ValidateCompletion counts the 50-character minimum in Unicode characters. JavaScript's `length` counts UTF-16 code units, so text containing characters above U+FFFF, such as emoji, reaches 50 sooner in the program.
- ExcerptForm.CanRequestAi counts its length thresholds in Unicode characters, not in UTF-16 code units as the program does.
- PdfViewer.ExtractText counts the 15000-character limit and cut in Unicode characters. The program counts UTF-16 code units and may cut a surrogate pair in half.
- Strings.LexLe compares characters by code point, while JavaScript compares UTF-16 code units. The two orders differ only between characters above U+FFFF and those from U+E000 to U+FFFF. This affects the title order of `Search.Results` and the order of `Search.AllTopics`.

## Findings

| source | as written | input that shows it | evidently intended | confidence | as-written member | corrected member |
|---|---|---|---|---|---|---|
| src/pages/Review.jsx:84-86 | after a judgment the index advances by one, although the judged paper is no longer due and leaves the recomputed queue | two papers due today: after the first judgment the index is 1, the queue has length 1, and the session ends reporting none remaining | keep the index, so that the next due paper moves into its place | not executed | Review.AsWrittenEndsSessionEarly | Review.SessionVisitsEveryDuePaper |
| src/components/reading/ExcerptForm.jsx:363-366 | typing critical notes sends two patches built from the same stale excerpt; the second writes back the old `user_input` | an excerpt with empty notes, then the text "x" typed | both `user_input` and `final` become the typed text | not executed | ExcerptForm.NotesEditAsWrittenLosesInput | ExcerptForm.NotesEditSetsBoth |
| src/components/reading/ExcerptForm.jsx:314-317 | entering key concepts sends two patches from the same stale excerpt; the second restores `user_input` | an excerpt whose `key_concepts` has empty lists, then the tag "a" entered | both parts of `key_concepts` become the entered tags | not executed | ExcerptForm.ConceptsEditAsWrittenLosesInput | ExcerptForm.ConceptsEditSetsBoth |
| src/components/reading/ExcerptForm.jsx:147-152 | while `final` topics are empty, the second patch restores the old `user_input` | an excerpt with no topics, then the topic "a" entered | the topics reach `user_input`, and `final` is seeded with them | not executed | ExcerptForm.TopicsEditAsWrittenLosesInput | ExcerptForm.TopicsEditSetsInput |
| src/pages/Inbox.jsx:116 | the duplicate test lowercases the DOI as typed, but the stored DOI is trimmed (the CSV test on line 56 does the same) | the store holds "10.1/x"; "10.1/x " is typed with a title | the typed DOI is trimmed before the duplicate test, so the add is refused | not executed | Inbox.ManualAddAsWrittenDuplicates | Inbox.ManualAddKeepsDistinctDois |
