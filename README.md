# Flashcards and census: a Dafny model

This project models two parts of a Next.js application, in Dafny.

The first is a language-learning **flashcards** app:
- the SM-2 spaced-repetition scheduler;
- the progress record kept in the browser's localStorage and the `useProgress` hook over it;
- the home page, where CEFR levels are selected and AI generation is requested;
- the `/api/flashcards` route;
- the `/api/generate-ai` route, which asks a language model for cards and stores them with fresh frequency ranks;
- the batch script that generates 1000 cards across the six levels;
- the learn page's queue order and swipe handling.

The second is a **census** database:
- the Tim PNKB (marriage-age) composition route;
- the analytics, list and details routes;
- the import of rows from Google Sheets;
- the census-table page that drives the list route.

Several things outside the model are turned into parameters:
- the clock (`now`);
- the language model's reply and `JSON.parse`;
- the Sheets fetch;
- the database's answers (an insert's saved count, a failed lookup or create).

Database queries are modelled by their selection semantics: a `Where` value and `Select`/`Matches` over a table of records. JavaScript's string and number behaviour is written out in `JsText`:
- truthiness and `||` fallbacks;
- `parseInt` with `NaN`;
- `trim`, `split` and `join`.

Stable `Array.prototype.sort` with a numeric comparator, and the default string sort, are written out in `Sorting`.

Where the source hands a library something other than what it expects, the model keeps both versions: the behaviour as written, with a lemma exhibiting the discrepancy, and the intended behaviour, which the rest of the model uses (see "## Findings").

## Model

| member | source | states |
|---|---|---|
| Scheduler.InitialProgress | lib/spacedRepetition.js:10-19 | a fresh record is valid, new, due now, with easiness 2.5 and no repetitions |
| Scheduler.RoundedProduct | lib/spacedRepetition.js:40 | the result is `Math.round(interval * easiness)` (easiness in tenths): within half a unit of the exact product |
| Scheduler.CalculateNextReview | lib/spacedRepetition.js:27-75 | a review happens now and is never new again; a hit steps repetitions and the interval 1, 6, then round(interval·easiness) and raises easiness by 0.1; a miss resets repetitions and interval to 0, makes the card due at once and lowers easiness by 0.2; easiness never falls below 1.3 |
| Scheduler.HitIntervalGrows | lib/spacedRepetition.js:36-42 | after the first repetition a hit never shortens the interval |
| Scheduler.ReviewPreservesValid | lib/spacedRepetition.js:27-75 | the review keeps every record invariant (easiness floor, intervals 1 and 6 for the first two repetitions, known exactly from the third hit, due time = review time + interval) |
| Scheduler.ReplayEasinessFloor | lib/spacedRepetition.js:31-74 | after any non-empty series of reviews easiness is at least 1.3 |
| Scheduler.ReplayPreservesValid | lib/spacedRepetition.js:27-75 | any series of reviews keeps the record valid |
| Scheduler.ThreeHitsFromNew | lib/spacedRepetition.js:31-55 | three hits from a new card give intervals 1, 6 and 16 days, easiness 2.6, 2.7 and 2.8, and make it known after the third |
| Scheduler.ReviewDueTimes | lib/spacedRepetition.js:56-84 | a missed card is due again at once; a hit card is not due until its new interval has passed |
| Scheduler.GetPriority | lib/spacedRepetition.js:92-108 | a new card scores 1000; an overdue card scores above 2000; a card not yet due scores 0 |
| Scheduler.IsDue | lib/spacedRepetition.js:81-83 | a card is due once now reaches its due time; for a reviewed card that is exactly when its interval has passed since the last review |
| Scheduler.PriorityIncreasesWithLateness | lib/spacedRepetition.js:97-103 | the later an overdue card is reviewed, the higher its score |
| Scheduler.DueAtBoundaryScoresZero | lib/spacedRepetition.js:82-103 | at exactly its review time a card is due yet scores 0 |
| Scheduler.PriorityOrdering | lib/spacedRepetition.js:92-108 | an overdue card outranks a new card, and a new card outranks one not yet due |
| Scheduler.KnownPercentage | lib/spacedRepetition.js:116-119 | 0 with no cards; otherwise the percentage rounded to the nearest integer, between 0 and 100 |
| Scheduler.PercentageBounds | lib/spacedRepetition.js:116-119 | the rounding identity behind `Math.round(known / total * 100)` |
| ProgressStore.ApplySettings | lib/localStorage.js:109-113 | each field given in the patch replaces the stored one; the other fields stay |
| ProgressStore.ApplyStats | lib/localStorage.js:31-36 | the stored stats fields override the defaults one by one |
| ProgressStore.GetLocalData | lib/localStorage.js:23-41 | nothing stored gives the defaults; a stored record is merged over the defaults field by field |
| ProgressStore.SaveLoadRoundTrip | lib/localStorage.js:23-55 | loading what was saved gives back the same data |
| ProgressStore.EmptyRecordLoadsDefaults | lib/localStorage.js:31-36 | an empty stored object loads as the defaults |
| ProgressStore.ApplySettingsLaws | lib/localStorage.js:109-113 | an empty patch changes nothing; applying a patch twice is the same as once |
| ProgressStore.GetCardProgress | lib/localStorage.js:62-65 | a stored card's record, or a fresh initial record for an unseen card |
| ProgressStore.KnownIds | lib/localStorage.js:81-84 | exactly the stored cards whose status is known |
| ProgressStore.CountKnownUpdate | lib/localStorage.js:72-87 | rewriting one card's record changes the known count only by that card: minus one if it was known, plus one if it now is |
| ProgressStore.WithCardProgress | lib/localStorage.js:72-87 | the card's record is replaced and the others kept; reviews count up by one; known words are recounted; the study date is set; settings are untouched |
| ProgressStore.WithCardProgressKeepsValid | lib/localStorage.js:72-87 | storing a valid record keeps every stored record valid |
| ProgressStore.RewriteCountsTwice | lib/localStorage.js:72-87 | two updates of one card leave the second record, count two reviews and recount the known words |
| ProgressStore.DueCardIds | lib/localStorage.js:137-144 | exactly the stored cards that are due now |
| ProgressStore.NewCardCount | lib/localStorage.js:151-154 | the number of ids without progress: 0 iff all are stored, all iff none is |
| ProgressStore.NewCardCountAfterWrite | lib/localStorage.js:72-87 | with the new-card count of lines 151-154: updating a card that is already stored, or not in the list, leaves the new-card count unchanged |
| ProgressStore.Store.Load | lib/localStorage.js:23-41 | the store's data is what `getLocalData` returns for the stored record |
| ProgressStore.Store.UpdateCardProgress | lib/localStorage.js:72-87 | the new data is `WithCardProgress` of the old |
| ProgressStore.Store.UpdateSettings | lib/localStorage.js:109-113 | settings are patched; progress and stats are unchanged |
| ProgressStore.Store.UpdatePreferredLevels | lib/localStorage.js:127-131 | only the preferred levels change |
| ReviewHook.ReviewResult | hooks/useProgress.js:24-34 | the next record is computed from the stored record, or from a fresh one for an unseen card |
| ReviewHook.FirstReview | hooks/useProgress.js:24-34 | a first hit gives a 1-day interval and one repetition; a first miss gives repetitions 0 |
| ReviewHook.ReviewKeepsValid | hooks/useProgress.js:24-34 | a review through the hook keeps all stored records valid |
| ReviewHook.ReviewKnownWords | hooks/useProgress.js:24-34 | a review moves the known-word count by at most one, and a miss never raises it |
| ReviewHook.ProgressHook.constructor | hooks/useProgress.js:11-16 | the hook starts with the default stats |
| ReviewHook.ProgressHook.LoadStats | hooks/useProgress.js:19-21 | the hook's stats become the stored stats |
| ReviewHook.ProgressHook.ReviewCard | hooks/useProgress.js:24-34 | the store gets the scheduled record and updated stats; other cards are unchanged; the hook's stats follow the store |
| Census.OrUnknown | app/api/census/analytics/route.js:171-221 | `value \|\| 'Unknown'`: the value when truthy, otherwise "Unknown" |
| Census.Select | app/api/census/list/route.js:57-67 | exactly the records that match the where clause, in table order |
| Census.Matches | app/api/census/list/route.js:22-55 | the `where` semantics: the empty filter matches every record; an age constraint never matches a record without an age, and a search never matches a record with neither name nor birthplace |
| Census.SelectAppend | app/api/census/list/route.js:57-67 | selecting from two tables one after the other gives the first selection followed by the second, so each record keeps its multiplicity and place |
| Census.SelectSingle | app/api/census/list/route.js:57-67 | a one-record table yields that record exactly when it matches; an empty table yields nothing |
| Census.SelectAll | app/api/census/list/route.js:23 | an empty where clause selects every record |
| Census.PageParam | app/api/census/list/route.js:18-19 | `parseInt(x) \|\| default`: the parsed value, or the default when absent, NaN or 0 |
| Census.PageParamDecimal | app/api/census/list/route.js:18-19 | a positive decimal page reads back as itself |
| Census.PageParamNegative | app/api/census/list/route.js:18-19 | a negative decimal parameter reads back as that negative number, which is truthy and so kept |
| Census.PageParamFallback | app/api/census/list/route.js:18-19 | "0", "" and "abc" fall back to the default |
| Census.Skip | app/api/census/list/route.js:20 | page 1 skips nothing; a valid page never skips a negative number |
| Census.SkipConsecutive | app/api/census/list/route.js:20 | consecutive pages start one limit apart |
| Census.TotalPages | app/api/census/list/route.js:102 | `Math.ceil(total / limit)`: just enough pages to hold every record |
| Census.TotalPagesCover | app/api/census/list/route.js:102 | every record falls on a page between 1 and the total number of pages |
| Census.PageSlice | app/api/census/list/route.js:64-65 | skip/take: up to `limit` records starting at the skip offset |
| Census.PageSliceNonEmpty | app/api/census/list/route.js:98-103 | a page is non-empty iff its number is at most the total number of pages |
| TimPnkb.BuildWhere | app/api/census/tim-pnkb/route.js:9-25 | ages 21 to 35, plus an equality for each given location filter other than "all" |
| TimPnkb.WhereSelectsMarriageAge | app/api/census/tim-pnkb/route.js:9-25 | a record matches iff its age is within 21..35 and it agrees with every active filter |
| TimPnkb.CountGender | app/api/census/tim-pnkb/route.js:50-59 | the number of records with that gender, at most the total |
| TimPnkb.GenderCountsBound | app/api/census/tim-pnkb/route.js:50-59 | male and female counts together do not exceed the total |
| TimPnkb.ByGender | app/api/census/tim-pnkb/route.js:50-59 | an entry for L and one for P exactly when present, with their counts; L first |
| TimPnkb.Labels | app/api/census/tim-pnkb/route.js:62-89 | each record's field value, or "Unknown" |
| TimPnkb.TallyFacts | app/api/census/tim-pnkb/route.js:62-89 | the reduce gives one entry per distinct label, carrying its number of occurrences |
| TimPnkb.Tally | app/api/census/tim-pnkb/route.js:62-66 | the counting Map's entries: no more entries than labels, and at least one when there is a label |
| TimPnkb.Breakdown | app/api/census/tim-pnkb/route.js:62-69 | the sorted breakdown is a reordering of the counting Map's entries, non-empty when there are records |
| TimPnkb.BreakdownFacts | app/api/census/tim-pnkb/route.js:62-89 | the sorted breakdown is a correct tally, ordered by falling count, and sums to the total |
| TimPnkb.BreakdownTieOrder | app/api/census/tim-pnkb/route.js:62-69 | two breakdown entries with equal counts come in the order their labels first appear among the records |
| TimPnkb.TallyOrder | app/api/census/tim-pnkb/route.js:62-66 | the counting Map lists each label once, in the order of its first occurrence |
| TimPnkb.Singles | app/api/census/tim-pnkb/route.js:92-96 | the number of records whose marital status is "Belum Menikah" or "Lajang", or who have no status at all |
| TimPnkb.SinglesBounds | app/api/census/tim-pnkb/route.js:92-96 | singles equals the "Belum Menikah" and "Lajang" counts of the marital breakdown plus the records without a status, which all fall under its "Unknown" label; so it lies between the two counts and the two counts plus "Unknown" |
| TimPnkb.CountBy | app/api/census/tim-pnkb/route.js:62-89 | the loop computes the tally of the field's labels |
| TimPnkb.Compose | app/api/census/tim-pnkb/route.js:47-109 | the response carries the total, the records, the gender list, the three breakdowns and the singles count |
| Entries.SumPermutation | app/api/census/analytics/route.js:189 | reordering entries keeps their total |
| Entries.DistinctNamesPermutation | app/api/census/analytics/route.js:189 | reordering keeps names distinct |
| Entries.SortByValueDesc | app/api/census/analytics/route.js:189 | `sort((a, b) => b.value - a.value)`: a permutation, by falling value, with the same total |
| Entries.SortByValueDescStable | app/api/census/analytics/route.js:189 | entries with equal values keep their relative order |
| Entries.SortByValueDescTieOrder | app/api/census/tim-pnkb/route.js:69 | two sorted entries with equal values come from input positions in the same order |
| Sorting.StableSort | app/learn/page.jsx:33-37 | a numeric-comparator sort: ordered by the key and a permutation |
| Sorting.StableSortStable | app/learn/page.jsx:33-37 | elements with equal keys keep their input order |
| Sorting.StableSortTieOrder | app/learn/page.jsx:33-37 | any two sorted elements with equal keys sit at input positions in the same order |
| Sorting.StableSortConstantKey | app/learn/page.jsx:33-37 | with one key for all, the order is unchanged |
| Sorting.SortStrings | app/api/census/analytics/route.js:228-230 | the default sort: lexicographically ordered and a permutation |
| Analytics.BuildWhere | app/api/census/analytics/route.js:15-18 | one equality for each given location filter other than "all" |
| Analytics.LocationWhereMeaning | app/api/census/analytics/route.js:15-18 | a record matches iff it agrees with every active filter |
| Analytics.PresentFields | app/api/census/analytics/route.js:110-124 | the filtered columns, each once, in the order desa, kelompok, sheet |
| Analytics.PushKeepsBuilt | app/api/census/analytics/route.js:110-124 | each pushed condition names placeholder $k for the k-th parameter |
| Analytics.BuildAgeQuery | app/api/census/analytics/route.js:110-124 | one condition and one parameter per filtered column; condition i reads parameter i+1 |
| Analytics.PlaceholderReadsBack | app/api/census/analytics/route.js:110-124 | a condition's placeholder decodes to its parameter's position |
| Analytics.WhereClause | app/api/census/analytics/route.js:126 | empty iff there are no conditions, otherwise starts with "WHERE " |
| Analytics.AgeBucketExactlyOne | app/api/census/analytics/route.js:130-139 | each age 0..60 falls in exactly one bucket; above 60 in "60+"; missing or negative in "Unknown" |
| Analytics.MapRows | app/api/census/analytics/route.js:171-221 | one entry per group row, named by its key or "Unknown" |
| Analytics.MapRowsKeepsTotal | app/api/census/analytics/route.js:171-221 | the mapped entries sum to the groups' total |
| Analytics.UnknownRows | app/api/census/analytics/route.js:171-221 | an entry is "Unknown" iff its key is empty or literally "Unknown" |
| Analytics.IndexOf | app/api/census/analytics/route.js:182 | `indexOf`: the first position, or -1 iff absent |
| Analytics.SortByAgeCategory | app/api/census/analytics/route.js:180-183 | a permutation ordered by position in the category order list |
| Analytics.AgeCategoryOrdering | app/api/census/analytics/route.js:180-183 | listed categories come in list order; unlisted names come first |
| Analytics.Shape | app/api/census/analytics/route.js:167-232 | the response: totals, mapped groups, sorted breakdowns and sorted filter options, with the age categories in the fixed category order |
| CensusList.BuildWhere | app/api/census/list/route.js:23-54 | age equality, attribute filters other than "all", and the name/birthplace search |
| CensusList.ListWhereMeaning | app/api/census/list/route.js:23-54 | a record matches iff its age, filters and search all agree |
| CensusList.UnfilteredList | app/api/census/list/route.js:23-54 | with no filters, or only "all", every record is listed |
| CensusList.ListPagination | app/api/census/list/route.js:98-103 | page and limit are the parameters read at lines 18-19 through `parseInt(x) \|\| default`, so page defaults to 1 and limit to 50; total pages cover the total |
| CensusList.ListData | app/api/census/list/route.js:60-67 | for a usable page and limit, that page's slice of the selection, of exactly min(limit, records after the skip) rows; otherwise no data |
| CensusList.ListPagesAgree | app/api/census/list/route.js:57-103 | the count and the page are taken over the same selection, so the page fits within the total pages |
| CensusList.FilterOptions | app/api/census/list/route.js:70-93 | each value present in the column, once |
| CensusDetails.Bound | app/api/census/details/route.js:44-54 | a truthy bound is parsed; an absent one gives no bound |
| CensusDetails.LocationFields | app/api/census/details/route.js:12-20 | one equality for each location filter other than "all" |
| CensusDetails.SetAttribute | app/api/census/details/route.js:21-41 | a truthy attribute is added as given, "all" included |
| CensusDetails.PersonalFields | app/api/census/details/route.js:21-32 | the gender, category, age-category and marital equalities |
| CensusDetails.BackgroundFields | app/api/census/details/route.js:33-41 | the education, blood-type and kemubalighan equalities |
| CensusDetails.AgeRange | app/api/census/details/route.js:44-54 | an age window when either bound is given, otherwise no age constraint |
| CensusDetails.BuildWhere | app/api/census/details/route.js:9-54 | the where clause is the union of the three parts and the age window |
| CensusDetails.DetailsAgeMeaning | app/api/census/details/route.js:44-54 | without bounds any age passes; with bounds only ages within the given ones |
| CensusDetails.AttributeAllIsLiteral | app/api/census/details/route.js:33-35 | an attribute "all" is matched literally, unlike the location filters |
| CensusDetails.MarriageAgeDrillDown | app/api/census/details/route.js:44-54 | the bounds 21 and 35 select the same ages as the Tim PNKB route |
| CensusDetails.DetailsPagination | app/api/census/details/route.js:86-95 | page and limit are the parameters read at lines 57-58 through `parseInt(x) \|\| default`, so page defaults to 1 and limit to 100; total pages cover the total |
| CensusImport.ParseAge | app/api/census/import/route.js:9-13 | an empty cell gives null; otherwise the parsed integer, or null when it is NaN |
| CensusImport.ParseAgeDecimal | app/api/census/import/route.js:9-13 | a decimal prefix is read as that number |
| CensusImport.ParseAgeNoDigits | app/api/census/import/route.js:9-13 | text without digits gives null |
| CensusImport.NormalizeDate | app/api/census/import/route.js:15-19 | an empty cell gives null; otherwise the trimmed text |
| CensusImport.NormalizeDateFacts | app/api/census/import/route.js:15-19 | blank text gives ""; normalising twice is normalising once |
| CensusImport.Cell | app/api/census/import/route.js:88-133 | a cell exists iff its column is within the row |
| CensusImport.BlankRowMeaning | app/api/census/import/route.js:83-85 | a row is skipped iff every cell is whitespace |
| CensusImport.MapRow | app/api/census/import/route.js:112-133 | each text column becomes its cell or null; the date is normalised; the age parsed; the sheet recorded |
| CensusImport.Decide | app/api/census/import/route.js:88-151 | a duplicate iff the name or the birth date is present and a record with the same key is already stored; otherwise created, unless the create fails |
| CensusImport.Classify | app/api/census/import/route.js:83-151 | blank iff the row is blank |
| CensusImport.AnonymousRowsAreCreated | app/api/census/import/route.js:95-133 | a row without name and birth date skips the duplicate check and is created |
| CensusImport.RowsAccounted | app/api/census/import/route.js:79-151 | imported, duplicates and errors add up to the non-blank rows |
| CensusImport.RunRows | app/api/census/import/route.js:79-148 | the row loop's table and counters; no row is counted more than once |
| CensusImport.ImportSheets | app/api/census/import/route.js:54-161 | the sheet loop's table and totals; every sheet whose fetch throws adds at least one error |
| CensusImport.StepKeepsUnique | app/api/census/import/route.js:95-133 | each step keeps name and birth date unique among identifiable records |
| CensusImport.RunRowsKeepsUnique | app/api/census/import/route.js:79-148 | a whole sheet keeps that uniqueness |
| CensusImport.ImportTotals | app/api/census/import/route.js:54-173 | the totals add up over all sheets; a failed sheet counts one error |
| CensusImport.NoFaultNoRowErrors | app/api/census/import/route.js:145-151 | without database failures a sheet reports no row errors |
| CensusImport.CensusTable.constructor | app/api/census/import/route.js:37-50 | the table holds the given records |
| CensusImport.CensusTable.ImportRows | app/api/census/import/route.js:79-148 | the loop reaches the same table and counters as the row-by-row specification |
| CensusImport.CensusTable.ImportRow | app/api/census/import/route.js:80-141 | one loop iteration: the table and counters after it are one step of the row-by-row specification |
| CensusImport.CensusTable.Import | app/api/census/import/route.js:37-180 | without a connection, failure and the table unchanged; otherwise the table is emptied, every sheet imported, and the totals reported |
| CensusTablePage.HandleFilterChange | app/census-table/page.jsx:72-75 | the one filter is set, the others kept, and the page reset to 1 |
| CensusTablePage.ClearFilters | app/census-table/page.jsx:252-261 | every filter back to its initial value; pagination kept |
| CensusTablePage.ChangeThenClear | app/census-table/page.jsx:252-261 | with the handler of lines 72-75: a change then a clear leaves the initial filters on page 1 |
| CensusTablePage.Optional | app/census-table/page.jsx:51-55 | a filter is sent iff it is non-empty and not "all" |
| CensusTablePage.QueryParams | app/census-table/page.jsx:46-55 | page and limit come first, then only the sent filters |
| CensusTablePage.GetAppend | app/census-table/page.jsx:46-55 | reading a parameter finds its first occurrence |
| CensusTablePage.QueryParamsRead | app/census-table/page.jsx:46-55 | each filter parameter reads back as the filter, or as absent when not sent |
| CensusTablePage.QueryReadsBack | app/census-table/page.jsx:46-55 | the list route reads back the page's own page, limit and filters |
| CensusTablePage.PageQueryMeaning | app/census-table/page.jsx:46-57 | the route selects the records the page's filters mean, and serves the page asked for |
| CensusTablePage.ShowingMatchesRows | app/census-table/page.jsx:341 | "Showing a to b of n" counts exactly the rows on the page |
| CensusTablePage.ShowingFrom | app/census-table/page.jsx:341 | "Showing a": at least 1 on any page from 1 on |
| CensusTablePage.ShowingTo | app/census-table/page.jsx:341 | "to b": never past the total, and less than one page after a |
| CensusTablePage.PageWindow | app/census-table/page.jsx:352-362 | at most five page buttons, each numbered by the window rule |
| CensusTablePage.PageNumber | app/census-table/page.jsx:353-362 | each button's page number, within 1..total pages for a current page in range |
| CensusTablePage.PageWindowFacts | app/census-table/page.jsx:352-362 | the buttons are consecutive, within 1..total pages, and include the current page |
| CensusTablePage.Previous | app/census-table/page.jsx:344-350 | disabled exactly on page 1; otherwise it leads to an earlier page |
| CensusTablePage.Next | app/census-table/page.jsx:379-385 | disabled exactly on the last page; otherwise it leads to a later page |
| CensusTablePage.ButtonsStayInRange | app/census-table/page.jsx:344-385 | Previous and Next, when enabled, lead to a page within range |
| FlashcardsPage.Remove | app/flashcards/page.jsx:86-96 | every occurrence of the level removed, everything else kept |
| FlashcardsPage.RemoveConcat | app/flashcards/page.jsx:86-96 | `filter` keeps the order: removing from a concatenation removes from each part |
| FlashcardsPage.RemoveSingle | app/flashcards/page.jsx:86-96 | a single level stays exactly when it is not the one removed |
| FlashcardsPage.RemoveAbsent | app/flashcards/page.jsx:86-96 | removing an absent level changes nothing |
| FlashcardsPage.ToggleLevel | app/flashcards/page.jsx:86-96 | a present level is removed, an absent one appended |
| FlashcardsPage.ToggleTwice | app/flashcards/page.jsx:86-96 | toggling twice restores the selected set, and the list itself when the level was absent |
| FlashcardsPage.StartLearning | app/flashcards/page.jsx:98-106 | no navigation iff nothing is selected; otherwise the learn page with the levels joined by commas |
| FlashcardsPage.HomePage.constructor | app/flashcards/page.jsx:15 | nothing selected and nothing generating |
| FlashcardsPage.HomePage.LoadPreferences | app/flashcards/page.jsx:17-33 | the stored preferred levels become the selection |
| FlashcardsPage.HomePage.HandleLevelToggle | app/flashcards/page.jsx:86-96 | the toggled selection is kept and persisted; nothing else in the store changes |
| FlashcardsPage.HomePage.BeginGenerate | app/flashcards/page.jsx:47-59 | generation starts iff none is running and the user confirms, and then marks the level |
| FlashcardsPage.HomePage.FinishGenerate | app/flashcards/page.jsx:82 | the generating level is cleared |
| FlashcardsRoute.Limit | app/api/flashcards/route.js:10 | the parsed limit when given, otherwise 50 |
| FlashcardsRoute.Plan | app/api/flashcards/route.js:14-19 | all cards iff no levels are given; otherwise comma-free levels that join back to the parameter |
| FlashcardsRoute.Respond | app/api/flashcards/route.js:21-25 | the cards and their number |
| FlashcardsRoute.SelectionRoundTrip | app/flashcards/page.jsx:98-106 | the levels chosen on the home page reach the route intact, with limit 100 |
| FlashcardsRoute.PlanReadsLevels | app/api/flashcards/route.js:14-19 | joined comma-free levels split back into themselves |
| GenerateAi.Count | app/api/generate-ai/route.js:16 | the default 50 applies only when no count is given |
| GenerateAi.PrototypeKeyPassesGuard | app/api/generate-ai/route.js:18-23 | "toString" passes the level check as written, though it is not a CEFR level |
| GenerateAi.GuardPassesAsWritten | app/api/generate-ai/route.js:18 | the level check as written: every CEFR level passes and nothing empty passes; that inherited property names pass too is PrototypeKeyPassesGuard |
| GenerateAi.ValidLevel | app/api/generate-ai/route.js:18 | the level check as intended: a present level that is one of the six, never an inherited property name |
| GenerateAi.GuardsAgreeOffPrototype | app/api/generate-ai/route.js:18-23 | away from prototype property names, the written check and the intended one agree |
| GenerateAi.StripMarker | app/api/generate-ai/route.js:81-84 | the global replace never lengthens the text |
| GenerateAi.ExtractJson | app/api/generate-ai/route.js:78-84 | an unfenced reply is its trimmed content; a fenced one loses every fence; the result is trimmed |
| GenerateAi.StripFenceFree | app/api/generate-ai/route.js:84 | no "```" is left after the second replace |
| GenerateAi.StripBacktickFreePrefix | app/api/generate-ai/route.js:81-84 | text before the first backtick is kept as it is |
| GenerateAi.FencedReplyYieldsBody | app/api/generate-ai/route.js:78-84 | a reply "```json\n body \n```", padded with whitespace, yields exactly the body |
| GenerateAi.MaxRank | app/api/generate-ai/route.js:91-96 | the highest existing rank, and none iff there are no cards |
| GenerateAi.StartRank | app/api/generate-ai/route.js:96 | 1 with no cards, otherwise one above the highest rank |
| GenerateAi.Context | app/api/generate-ai/route.js:106 | the conversation context, else the sentence, else null |
| GenerateAi.WithMeta | app/api/generate-ai/route.js:99-109 | each card keeps its fields and gets the context, the level and rank start+i |
| GenerateAi.NewRanksFresh | app/api/generate-ai/route.js:91-109 | the new ranks are above every existing one, consecutive and increasing |
| GenerateAi.Post | app/api/generate-ai/route.js:14-135 | 400 for an invalid level; a result iff reply, parse and insert all succeed, reporting the number of cards generated and saved; otherwise 500 with nothing written |
| GenerateAi.WrittenLevelsAreCefr | app/api/generate-ai/route.js:99-115 | behind the guard of lines 18-23, every row written is tagged with a CEFR level |
| GenerateScript.DistributionTotal | scripts/generate-ai-flashcards.js:152-159 | the distribution covers the six levels in order and totals 1000 |
| GenerateScript.Batches | scripts/generate-ai-flashcards.js:167-168 | `Math.ceil(count / 50)` |
| GenerateScript.BatchCountRange | scripts/generate-ai-flashcards.js:171 | each batch asks for between 1 and 50 cards |
| GenerateScript.BatchesSumToCount | scripts/generate-ai-flashcards.js:167-171 | the batches together ask for exactly the level's count |
| GenerateScript.SaveRows | scripts/generate-ai-flashcards.js:115-138 | each card tagged with the level and rank start+i |
| GenerateScript.SaveRanksFresh | scripts/generate-ai-flashcards.js:120-132 | the new ranks are above every existing one and consecutive |
| GenerateScript.FailedStays | scripts/generate-ai-flashcards.js:184-187 | once a level fails, later batches add nothing |
| GenerateScript.FailureAbandonsLevel | scripts/generate-ai-flashcards.js:184-187 | a failed batch ends the level with the totals gathered so far |
| GenerateScript.FaithfulLevel | scripts/generate-ai-flashcards.js:167-178 | when every batch returns what it asks for, a level generates its full count |
| GenerateScript.FaithfulRunGeneratesThousand | scripts/generate-ai-flashcards.js:152-188 | with such a generator the run generates 1000 cards |
| GenerateScript.ProcessLevel | scripts/generate-ai-flashcards.js:167-187 | the batch loop computes the level's specified tally |
| GenerateScript.GenerateForAllLevels | scripts/generate-ai-flashcards.js:161-190 | the level loop computes the specified run totals |
| GenerateScript.ParseArgs | scripts/generate-ai-flashcards.js:199-217 | "all" runs every level; otherwise the level (default A1) and a non-zero count: the parsed third argument, or 50 when it is absent or reads as NaN or 0 |
| GenerateScript.ArgsReadCount | scripts/generate-ai-flashcards.js:203 | a positive decimal count reads back as itself |
| GenerateScript.RunSingle | scripts/generate-ai-flashcards.js:205-213 | success iff generation and saving succeed, reporting the saved count |
| LearnPage.PriorityOf | lib/spacedRepetition.js:92-108 | an id instead of a record scores 0 |
| LearnPage.LearnOrderAsWritten | app/learn/page.jsx:33-37 | the page's sort as written is a permutation |
| LearnPage.AsWrittenKeepsFetchOrder | app/learn/page.jsx:33-37 | as written, the cards keep the order they were fetched in |
| LearnPage.LearnOrder | app/learn/page.jsx:33-37 | the intended sort: a permutation by falling priority |
| LearnPage.DueCardsFirst | app/learn/page.jsx:33-37 | in the intended order overdue cards come before new and not-yet-due ones |
| LearnPage.OverdueCardShownLate | app/learn/page.jsx:33-37 | a not-due card fetched first stays first as written, but comes second as intended |
| LearnPage.KnownAsWritten | lib/localStorage.js:81-84 | exactly the entries that are records with status known |
| LearnPage.SwipeAsWritten | app/learn/page.jsx:52-64 | the swipe stores the string 'good' or 'again' as the card's entry |
| LearnPage.SwipeRightForgetsKnownCard | app/learn/page.jsx:59-64 | as written, "I know it" on a known card removes it from the known words |
| LearnPage.SwipeRightKeepsKnown | app/learn/page.jsx:59-64 | as intended, "I know it" keeps a known card known and the count unchanged |
| LearnPage.Session.constructor | app/learn/page.jsx:17-50 | a session starts at the first card |
| LearnPage.Session.MoveToNext | app/learn/page.jsx:66-73 | the next card, or done after the last |
| LearnPage.Session.Swipe | app/learn/page.jsx:52-73 | the current card is reviewed through the hook as a hit or a miss, and the session moves on |

## Left out

- I/O: the clock, HTTP, localStorage, React state and rendering, `console` logging and alerts are outside the model. `now`, the stored record, the user's confirmation and every external answer are parameters.
- The database: Prisma queries are modelled by their selection semantics only. The order of `findMany` results (`orderBy nama`, `createdAt`) and of `groupBy` rows is not modelled; the table's order stands in for it.
- The database's own behaviour is not modelled: `createMany` with `skipDuplicates`, uniqueness constraints and the count it returns. The saved count is an input.
- The language model and `JSON.parse`: the reply text and the parser are parameters. The prompt text and `LEVEL_DESCRIPTIONS` beyond the set of level names are not modelled, so the `count` field only reaches the prompt and is otherwise unused.
- The Google Sheets client: the fetched rows of each sheet are a parameter. A missing client or a failed clear of the table is one `connected` flag.
- Floating point: easiness is kept in exact tenths and the priority in exact reals. Binary drift and `Math.round` ties on non-representable values are not modelled.
- Case folding: `mode: 'insensitive'` is modelled as ASCII lower-casing. Unicode case rules and UTF-16 code units are not modelled.
- `parseInt` beyond the digits: exponent notation and precision loss on very long numbers are not modelled.
- The clock: reviewing an unseen card reads `Date.now()` twice, once in getInitialProgress (lib/spacedRepetition.js:15) for the fresh record and once in calculateNextReview (lib/spacedRepetition.js:28). Both reads are one `now` parameter here, so the initial `nextReview` and the review time coincide.
- getStudyStreak (lib/spacedRepetition.js:126-145) is not modelled: it is computed over the review-date text and no core operation calls it.
- ProgressStore.DueCardIds: returns the due card ids as a set. The order of the source's list, which follows `Object.entries` of the stored progress, is not modelled.
- clearAllData, exportData and importData (lib/localStorage.js:159-187) are not modelled: they are whole-record JSON copies.
- The trivial getters are covered through the record they return, with no members of their own: getSettings, getStats, getAllProgress, getProgress and getAllCardProgress.
- `saveLocalData`'s JSON encoding is reduced to the stored record. The shared `DEFAULT_DATA` object that the spread copies alias is not modelled.
- Census.AgeMatches: a NaN bound or a NaN `age` parameter is taken to match no record. This is an assumption about how Prisma treats a NaN in `equals`/`gte`/`lte`, which is not modelled.
- CensusList.ListData: with a negative skip or take the model returns no data. What Prisma returns for a negative `skip` or `take` is not modelled.
- The flashcards route passes on a zero or NaN limit unchecked. FlashcardsRoute.Limit models the value passed on, not what Prisma does with it.
- The `select` projections of the details route and of the Tim PNKB route (app/api/census/tim-pnkb/route.js:29-41) are not modelled, and neither are the record's `createdAt`/`id` columns. Every record carries all the census columns, so TimPnkb.Compose returns whole records where the route returns the selected columns.
- Filter-option lists are modelled as sets of distinct present values. Their order (`orderBy`) is not modelled.
- URL encoding of query parameters is not modelled: values travel as given.
- The census-table page sends `search` with the other filters. A search of "all" is dropped by the page like any other "all" value.
- The script's rate-limit `sleep` and its progress output are not modelled.
- The script's single-level mode does not check the level.
- GenerateScript.SaveRows: the spread keeps every field of the generated card, `conversationSentence` included; the row models the fields the table stores.
- The desa and sinsar analytics pages, the census stats and [id] routes, the seed routes and the other scripts are not part of this model.

## Findings

| source | as written | input that shows it | evidently intended | confidence | as-written member | corrected member |
|---|---|---|---|---|---|---|
| app/api/generate-ai/route.js:18-23 | `!level \|\| !LEVEL_DESCRIPTIONS[level]` looks the level up on a plain object, so inherited `Object.prototype` properties count as levels | `{ "level": "toString" }` passes the check and is written as the cards' `cefrLevel` | only the six CEFR levels are accepted | high (not executed) | GenerateAi.GuardPassesAsWritten, GenerateAi.PrototypeKeyPassesGuard | GenerateAi.ValidLevel, GenerateAi.WrittenLevelsAreCefr |
| app/learn/page.jsx:33-37 | `getPriority(a.id, progress)` passes a card id where a progress record is expected, so every card scores 0 and the sort keeps the fetch order | a card not yet due fetched before an overdue one is shown first | cards ordered by their own progress, overdue first | high (not executed) | LearnPage.LearnOrderAsWritten, LearnPage.OverdueCardShownLate | LearnPage.LearnOrder, LearnPage.DueCardsFirst |
| app/learn/page.jsx:52-64 | `updateCardProgress(id, 'good')` / `'again'` stores the string as the card's progress instead of a scheduled record | swiping right on a known card lowers the known-word count by one | the card is rescheduled through `calculateNextReview` | high (not executed) | LearnPage.SwipeAsWritten, LearnPage.SwipeRightForgetsKnownCard | LearnPage.SwipeRightKeepsKnown, LearnPage.Session.Swipe |
