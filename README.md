# VirtualLabsRedesign core, modelled in Dafny

This project models the logic at the core of the VirtualLabsRedesign web
application, a catalogue of virtual laboratory experiments. It covers:

- **The in-memory store** (`Storage`, with `Schema` and `Seed`). The server keeps
  a catalogue of eight seeded experiments keyed by id and one preferences record.
  The record is updated by a shallow merge. A JavaScript `Map` keeps insertion
  order, so it is modelled as a `map` together with the `seq` of its keys.
- **The star toggle** (`Starred`). Both the experiment page and the experiment
  card compute the new starred list the same way: drop the id if it is present,
  append it otherwise. They post only that field to the store.
- **The home catalogue** (`Catalogue`). A case-insensitive search over title,
  description and discipline, combined with the filters "all", "popular",
  "recent" and "starred".
- **The workspace dispatch** (`WorkspaceDispatch`). The interactive workspace of
  an experiment page is chosen from its title alone.
- **The bubble-sort stepper** (`BubbleSortStepper`). The sorting workspace and the
  older experiment workspace hold the same `resetArray`/`bubbleSort` code, so one
  class models both. A run copies the displayed array into a fresh `array<int>`
  and sorts it in place by adjacent swaps. It counts every comparison and shows
  the array after every swap.
- **The pre/post-test quiz** (`PrePostTest`). A state machine over the question
  index, the answers, the results flag and the explanation flag. It is scored by
  a left-to-right fold.
- **The workshop data table** (`WorkshopTable`). A search over every cell,
  per-column text filters, a stable sort on one column in either direction, and
  the CSV text of the export.
- **The facilitator outreach page** (`Facilitator`). A lightbox over sixteen
  images with wrap-around keyboard navigation, and the tab and sub-menu state of
  the workshop and nodal-centre panels. A workshop year is carried in an option
  id `data-<year>` and decoded with `replace` and `parseInt`.

`Common` holds what the modules share:

- `Option`, which stands for `undefined`/`null`
- ASCII `toLowerCase`
- `includes` on strings
- `filter` on arrays
- `join`/`split`

Three facts about the code shape the model:

- **Step counter.** The counter of the bubble-sort stepper goes up once per
  comparison, whether or not the pair is swapped.
- **No early exit.** The best-case text of the experiment workspace says sorted
  input takes `n - 1` comparisons in one pass. The code has no early exit, so
  every run makes `n(n-1)/2` comparisons (`BubbleSortStepper.NoEarlyExit`).
- **Theme.** The `theme` preference is free text in the table schema.

## Model

| member | source | states |
|---|---|---|
| Common.Lower | client/src/pages/home.tsx:25-27 | `toLowerCase` on ASCII: same length, each character lower-cased on its own |
| Common.Contains | client/src/pages/home.tsx:25-27 | `includes`; its meaning is carried by `ContainsIff` and `ContainsEmpty` |
| Common.ContainsIff | client/src/pages/home.tsx:25-27 | a string contains another exactly when the other occurs at some position of it |
| Common.ContainsEmpty | client/src/pages/home.tsx:25-27 | every string contains the empty string |
| Common.Filter | client/src/pages/home.tsx:24-42 | `filter` never lengthens its input; `FilterMembers`, `FilterIsSubsequence`, `FilterMultiset` and `FilterConcat` carry the rest |
| Common.FilterMembers | client/src/pages/home.tsx:24-42 | an element is kept exactly when it is in the input and satisfies the predicate |
| Common.FilterIsSubsequence | client/src/pages/home.tsx:24-42 | the kept elements are in their input order |
| Common.FilterMultiset | client/src/pages/home.tsx:24-42 | no element is kept more often than the input has it |
| Common.FilterConcat | client/src/pages/experiment.tsx:30 | filtering a concatenation filters each part |
| Common.FilterSame | client/src/components/workshop-data-table.tsx:128-134 | two predicates that agree on every element keep the same elements |
| Common.FilterKeepsAll | client/src/components/workshop-data-table.tsx:119-127 | a predicate true of every element keeps the whole input |
| Common.Split | client/src/components/workshop-data-table.tsx:101-108 | splitting always gives at least one piece; `SplitJoin` makes it the inverse of `join` |
| Common.SplitJoin | client/src/components/workshop-data-table.tsx:101-108 | splitting a join on a separator no piece contains gives back the pieces |
| Common.JoinAvoids | client/src/components/workshop-data-table.tsx:101-108 | a join avoids a character that no piece and not the separator contain |
| Schema.ParseDifficulty | shared/schema.ts:38 | exactly the three spellings Beginner, Intermediate, Advanced are accepted, each as its own difficulty |
| Storage.InitialPreferencesAreTableDefaults | shared/schema.ts:24-30 | the record the store starts with is the row the preferences table creates for key 1 from an insert that supplies no field |
| Seed.SeedIds | server/storage.ts:25-262 | the seed holds eight records whose ids are 1 to 8 in seed order |
| Seed.SeedTitles | server/storage.ts:25-262 | the seeded titles in order |
| Seed.SeedRatings | server/storage.ts:25-262 | the seeded ratings in order: 4, 3, 4, 3, 4, 4, 4, 4 |
| Seed.SeedQuestionsWellFormed | server/storage.ts:25-262 | every seeded question's correct answer indexes one of its own options |
| Storage.Merge | server/storage.ts:277-280 | each field the patch supplies overwrites the current one; every other field and the id are kept |
| Storage.MergeIdempotent | server/storage.ts:278 | applying the same patch twice equals applying it once |
| Storage.MergeLastWriterWins | server/storage.ts:278 | after two patches, each field the second patch supplies has its value, and each field it omits is as the first patch left it |
| Storage.MergeNoFields | server/storage.ts:278 | a patch with no field leaves the record unchanged |
| Storage.MemStorage.constructor | server/storage.ts:14-263 | the catalogue is the seed keyed by each record's id, in seed order, with keys 1 to 8, and the preferences are the initial record |
| Storage.MemStorage.SetEach | server/storage.ts:262 | setting each record under its id gives keys in record order, each holding its own record |
| Storage.MemStorage.GetExperiments | server/storage.ts:265-267 | the values in insertion order are the seed list, eight records long |
| Storage.MemStorage.GetExperiment | server/storage.ts:269-271 | a record is found exactly for the ids 1 to 8, and it is the seeded record with that id |
| Storage.MemStorage.GetPreferences | server/storage.ts:273-275 | returns the current record; what updates do to it is stated by `Merge`, `UpdatePreferences` and `UpdateThemeThenRead` |
| Storage.MemStorage.UpdatePreferences | server/storage.ts:277-280 | the new record is the merge of the old one with the patch and is returned; the catalogue invariant is kept |
| Storage.UpdateThemeThenRead | server/storage.ts:273-280 | the record read before is the stored one, the record read after is the new stored one, it shows the new theme with every other field as before, and the store stays valid |
| Starred.CurrentStarred | client/src/pages/experiment.tsx:27 | the starred list is empty while preferences are not loaded, and otherwise the stored list |
| Starred.RemoveAll | client/src/pages/experiment.tsx:30 | the id is absent afterwards, and every other id is present exactly when it was before |
| Starred.IsStarred | client/src/components/experiment-card.tsx:22 | `includes` with a missing record read as not starred; `StarRequest` and `StarRequestMerged` state how a toggle changes it |
| Starred.Toggle | client/src/pages/experiment.tsx:29-31 | the new starred list of the page and of the card; `ToggleFlipsMembership`, `ToggleKeepsOthersInOrder`, `ToggleTwiceAbsent`, `ToggleTwicePresent` and `ToggleKeepsNoDuplicates` state what it does |
| Starred.ToggleFlipsMembership | client/src/pages/experiment.tsx:29-31 | toggling flips the membership of the toggled id and keeps the membership of every other id |
| Starred.ToggleKeepsOthersInOrder | client/src/pages/experiment.tsx:29-31 | the other ids keep their relative order |
| Starred.ToggleTwiceAbsent | client/src/pages/experiment.tsx:29-31 | toggling an absent id twice restores the list exactly |
| Starred.ToggleTwicePresent | client/src/pages/experiment.tsx:29-31 | toggling a present id twice leaves one copy of it, at the end |
| Starred.ToggleKeepsNoDuplicates | client/src/components/experiment-card.tsx:27-30 | a starred list without duplicates stays without duplicates |
| Starred.StarRequest | client/src/pages/experiment.tsx:33-35 | the request body supplies only the starred list, and the id is in it exactly when it was not starred |
| Starred.StarRequestMerged | client/src/components/experiment-card.tsx:27-34 | storing the request flips the star of that id, keeps every other star and keeps theme, font size, contrast and id |
| Starred.StarTwiceRestores | client/src/components/experiment-card.tsx:27-34 | starring and then unstarring an unstarred experiment restores the preferences exactly |
| Catalogue.FilterExperiments | client/src/pages/home.tsx:24-42 | the result keeps catalogue order, holds no experiment more often than the catalogue, and an experiment is in it exactly when it matches the search and the active filter accepts it |
| Catalogue.MatchesSearch | client/src/pages/home.tsx:25-27 | the lower-cased query is in the title, description or discipline; `EmptyQueryMatches` shows the empty query matches all |
| Catalogue.FilterAccepts | client/src/pages/home.tsx:31-41 | the filter switch; `RecentIsAll`, `StarredWithoutPreferences` and `PopularEmptyQuery` state its cases |
| Catalogue.Popular4 | client/src/pages/home.tsx:33 | a missing rating counts as 0 and the rating must be at least 4; `PopularRatings` and `PopularOnSeed` apply it to the seed |
| Catalogue.Keep | client/src/pages/home.tsx:24-42 | the search test and then the filter switch; `FilterExperiments` states which experiments it keeps |
| Catalogue.EmptyQueryMatches | client/src/pages/home.tsx:25-27 | the empty query matches every experiment |
| Catalogue.EmptyQueryShowsAll | client/src/pages/home.tsx:24-42 | with the empty query the "all" filter shows the whole catalogue |
| Catalogue.RecentIsAll | client/src/pages/home.tsx:34-36 | "recent" shows exactly what "all" shows |
| Catalogue.StarredWithoutPreferences | client/src/pages/home.tsx:37-38 | without loaded preferences the starred filter shows nothing |
| Catalogue.PopularEmptyQuery | client/src/pages/home.tsx:32-33 | with the empty query the popular filter is the rating test alone, a missing rating counting as 0 |
| Catalogue.PopularRatings | client/src/pages/home.tsx:33 | over ratings 4, 3, 4, 3, 4, 4, 4, 4 the rating test keeps positions 0, 2, 4, 5, 6 and 7 |
| Catalogue.PopularOfRatings | client/src/pages/home.tsx:32-33 | the popular filter over ids 1 to 8 with the seed's ratings keeps ids 1, 3, 5, 6, 7 and 8 |
| Catalogue.PopularOnSeed | client/src/pages/home.tsx:32-33 | on the seeded catalogue the popular filter keeps ids 1, 3, 5, 6, 7 and 8 in that order |
| WorkspaceDispatch.WorkspaceForTitle | client/src/components/experiment-workspaces/index.tsx:14-35 | each workspace is chosen exactly for its listed titles, and every other title is not found |
| WorkspaceDispatch.WorkspaceFor | client/src/components/experiment-workspaces/index.tsx:12-35 | the workspace of an experiment; `DependsOnlyOnTitle` states it reads the title only |
| WorkspaceDispatch.DependsOnlyOnTitle | client/src/components/experiment-workspaces/index.tsx:12-14 | two experiments with the same title get the same workspace |
| WorkspaceDispatch.CaseSensitive | client/src/components/experiment-workspaces/index.tsx:14-17 | titles are compared exactly, so a lower-cased title is not found |
| WorkspaceDispatch.SeedHasWorkspaces | client/src/components/experiment-workspaces/index.tsx:14-35 | every seeded experiment gets a workspace, each of the expected kind |
| BubbleSortStepper.SortingWorkspace.constructor | client/src/components/experiment-workspaces/sorting-workspace.tsx:13-15 | the workspace starts on the initial array, not sorting, at step 0 |
| BubbleSortStepper.SortingWorkspace.ResetArray | client/src/components/experiment-workspaces/sorting-workspace.tsx:67-74 | back to the initial array, step 0, not sorting |
| BubbleSortStepper.SortingWorkspace.BubbleSort | client/src/components/experiment-workspaces/sorting-workspace.tsx:76-100 | the array ends ascending and is a permutation of the array at the start; the counter grows by exactly n(n-1)/2 without a reset; sorted input is left unchanged; sorting is off again |
| BubbleSortStepper.SortingWorkspace.BubblePass | client/src/components/experiment-workspaces/sorting-workspace.tsx:86-96 | one pass counts n-i-1 comparisons, keeps the elements, and moves the largest element of the unsorted prefix onto the sorted suffix |
| BubbleSortStepper.CompareAndSwapStep | client/src/components/experiment-workspaces/sorting-workspace.tsx:88-90 | one compare-and-swap keeps the elements and the sorted suffix, carries the largest element seen one place right, and changes nothing in sorted input |
| BubbleSortStepper.CompareAndSwap | client/src/components/experiment-workspaces/sorting-workspace.tsx:88-90 | one inner step on the array as a value; `CompareAndSwapStep` states what it keeps and `CompareAndSwapAt` performs it in place |
| BubbleSortStepper.CompareAndSwapAt | client/src/components/experiment-workspaces/sorting-workspace.tsx:88-90 | the array becomes the compare-and-swap of the old array at j, and a swap is reported exactly when the left neighbour was the larger |
| BubbleSortStepper.SortingWorkspace.CountedCompareAndSwap | client/src/components/experiment-workspaces/sorting-workspace.tsx:87-90 | one inner step counts one comparison, compares and swaps at j, and the shown array is the copy afterwards |
| BubbleSortStepper.Swap | client/src/components/experiment-workspaces/sorting-workspace.tsx:89 | exchanges the two neighbours and nothing else |
| BubbleSortStepper.ComparisonsTotal | client/src/components/experiment-workspace.tsx:82-94 | the first p passes over n elements make p(2n-p-1)/2 comparisons |
| BubbleSortStepper.FullRunComparisons | client/src/components/experiment-workspace.tsx:82-94 | a full run over n elements makes n(n-1)/2 comparisons |
| BubbleSortStepper.NoEarlyExit | client/src/components/experiment-workspace.tsx:313-316 | the initial array takes 21 comparisons, and for three or more elements any run takes more than the n-1 the page describes for sorted input |
| BubbleSortStepper.SortedPermutationUnique | client/src/components/experiment-workspace.tsx:73-97 | two ascending arrangements of the same elements are equal, so the sorted result is determined by the input |
| BubbleSortStepper.SortedHeadMin | client/src/components/experiment-workspace.tsx:73-97 | the first element of an ascending array is at most each of its elements |
| BubbleSortStepper.SortedTail | client/src/components/experiment-workspace.tsx:73-97 | after its first element an ascending array is still ascending |
| BubbleSortStepper.SortedInitialArray | client/src/components/experiment-workspace.tsx:64-67 | the only ascending permutation of the initial array is 11, 12, 22, 25, 34, 64, 90 |
| BubbleSortStepper.ResetThenRun | client/src/components/experiment-workspace.tsx:64-97 | a reset followed by a full run shows 11, 12, 22, 25, 34, 64, 90 at step 21, not sorting |
| PrePostTest.ScoreUpTo | client/src/components/pre-post-test.tsx:29-33 | the score of the first n questions is at most n |
| PrePostTest.Score | client/src/components/pre-post-test.tsx:29-33 | the score is at most the number of questions |
| PrePostTest.ScoreCountsCorrect | client/src/components/pre-post-test.tsx:29-33 | the score is the number of questions whose recorded answer equals the correct one; an unanswered question never counts |
| PrePostTest.FullMarks | client/src/components/pre-post-test.tsx:29-33 | full marks exactly when every question is answered correctly |
| PrePostTest.Correct | client/src/components/pre-post-test.tsx:31 | the recorded answer equals the correct one, never for an unanswered question; `ScoreCountsCorrect`, `FullMarks` and `NoMarks` count it |
| PrePostTest.NoMarks | client/src/components/pre-post-test.tsx:29-33 | no marks exactly when no question is answered correctly |
| PrePostTest.ScoreAfterAnswer | client/src/components/pre-post-test.tsx:23-33 | changing one answer changes the score only by that question's contribution |
| PrePostTest.ScoreUnaffected | client/src/components/pre-post-test.tsx:23-33 | questions before k do not see a change to the answer of question k |
| PrePostTest.ViewAsWritten | client/src/components/pre-post-test.tsx:51-118 | outside the results screen, the component throws exactly when the question index is not on the list |
| PrePostTest.QuestionScreen | client/src/components/pre-post-test.tsx:110-189 | the question screen shows question current+1 of the total; Next/Finish is enabled exactly when the question is answered; the explanation shows exactly when toggled on and non-empty; Finish replaces Next exactly on the last question |
| PrePostTest.HasExplanation | client/src/components/pre-post-test.tsx:178-183 | the explanation is present and non-empty; `QuestionScreen` and `Quiz.ToggleExplanation` use it for the button |
| PrePostTest.EmptySeedTestsCrash | client/src/components/pre-post-test.tsx:110-118 | every seeded experiment but the first has empty tests, and opening either test throws |
| PrePostTest.ViewGuarded | client/src/components/pre-post-test.tsx:51-118 | the corrected rendering never throws; it shows an empty state exactly for an empty list outside the results, and otherwise agrees with the code as written |
| PrePostTest.Quiz.constructor | client/src/components/pre-post-test.tsx:18-21 | the quiz starts at question 0 with no answers, no results and no explanation |
| PrePostTest.Quiz.Screen | client/src/components/pre-post-test.tsx:51-118 | the corrected rendering (`ViewGuarded`) of the quiz state: it never throws, shows the empty state exactly for an empty list outside the results, and otherwise shows what the code as written shows |
| PrePostTest.Quiz.HandleAnswer | client/src/components/pre-post-test.tsx:23-27 | records the answer of the current question and keeps every other answer and the rest of the state |
| PrePostTest.Quiz.GoToNextQuestion | client/src/components/pre-post-test.tsx:35-42 | before the last question, moves on and hides the explanation; at the last, shows the results; the answers are kept |
| PrePostTest.Quiz.ClickNext | client/src/components/pre-post-test.tsx:185-189 | with no answer to the current question nothing happens; otherwise it acts as goToNextQuestion; every question before the current one stays answered |
| PrePostTest.Quiz.ResetTest | client/src/components/pre-post-test.tsx:44-49 | back to the starting state |
| PrePostTest.Quiz.ToggleExplanation | client/src/components/pre-post-test.tsx:178-183 | flips the explanation flag when the question has a non-empty explanation, and does nothing otherwise |
| PrePostTest.AnswerAll | client/src/components/pre-post-test.tsx:23-108 | answering both questions of a fresh two-question quiz through the enabled buttons reaches the results with the number of correct answers out of 2 |
| WorkshopTable.Keys | client/src/components/workshop-data-table.tsx:102 | the column names of a row in cell order |
| WorkshopTable.Values | client/src/components/workshop-data-table.tsx:104 | the cell texts of a row in cell order |
| WorkshopTable.LookupFirst | client/src/components/workshop-data-table.tsx:130 | a lookup finds a cell exactly when the row has that column, and then finds the first cell of that column |
| WorkshopTable.Lookup | client/src/components/workshop-data-table.tsx:130 | `row[key]`; `LookupFirst` states which cell it finds |
| WorkshopTable.CellText | client/src/components/workshop-data-table.tsx:130 | `String(row[key])`; `CellTextOfRow` states it |
| WorkshopTable.CellTextOfRow | client/src/components/workshop-data-table.tsx:130 | a cell reads as the first cell of its column, and as "undefined" when the row has no such column |
| WorkshopTable.MatchesSearch | client/src/components/workshop-data-table.tsx:120-127 | the search test of one row; `FilteredRows` and `UnfilteredData` state its effect |
| WorkshopTable.MatchesFilters | client/src/components/workshop-data-table.tsx:128-134 | every column filter test of one row; `FilteredRows` and `EmptyFilterValue` state its effect |
| WorkshopTable.LexLess | client/src/components/workshop-data-table.tsx:141-142 | JavaScript `<` on strings; `LexIrreflexive`, `LexAsymmetric`, `LexTotal` and `LexTransitive` make it a strict total order |
| WorkshopTable.LexIrreflexive | client/src/components/workshop-data-table.tsx:141-142 | no string is less than itself under JavaScript's string order |
| WorkshopTable.LexAsymmetric | client/src/components/workshop-data-table.tsx:141-142 | the string order is asymmetric |
| WorkshopTable.LexTotal | client/src/components/workshop-data-table.tsx:141-142 | two different strings are ordered one way or the other |
| WorkshopTable.LexTransitive | client/src/components/workshop-data-table.tsx:141-142 | the string order is transitive |
| WorkshopTable.NextSort | client/src/components/workshop-data-table.tsx:86-91 | the new sort is on the clicked column, descending exactly when it was ascending on that column before |
| WorkshopTable.SortClicks | client/src/components/workshop-data-table.tsx:86-91 | clicks on one column cycle ascending, descending, ascending, and a new column starts ascending |
| WorkshopTable.Insert | client/src/components/workshop-data-table.tsx:135-144 | an insertion adds exactly one row |
| WorkshopTable.Sort | client/src/components/workshop-data-table.tsx:135-144 | the sort keeps the number of rows |
| WorkshopTable.InsertMultiset | client/src/components/workshop-data-table.tsx:135-144 | an insertion adds the row to the multiset of rows |
| WorkshopTable.SortMultiset | client/src/components/workshop-data-table.tsx:135-144 | the sort is a permutation |
| WorkshopTable.SortUnconfigured | client/src/components/workshop-data-table.tsx:136 | without a sort configuration the order is kept |
| WorkshopTable.PrecedesAsymmetric | client/src/components/workshop-data-table.tsx:138-143 | two rows never precede each other |
| WorkshopTable.Precedes | client/src/components/workshop-data-table.tsx:135-144 | the comparator is negative; `PrecedesAsymmetric`, `SortOrdered` and `SortStable` state its use |
| WorkshopTable.InsertLast | client/src/components/workshop-data-table.tsx:135-144 | after an insertion the last row is the inserted one or the former last |
| WorkshopTable.InsertOrdered | client/src/components/workshop-data-table.tsx:135-144 | an insertion into rows with no neighbours out of order leaves none out of order |
| WorkshopTable.SortOrdered | client/src/components/workshop-data-table.tsx:135-144 | the sort leaves no neighbours strictly out of order |
| WorkshopTable.InsertStable | client/src/components/workshop-data-table.tsx:135-144 | an insertion keeps the order within any class of mutually tied rows, with the new row after them |
| WorkshopTable.SortStable | client/src/components/workshop-data-table.tsx:135-144 | the sort is stable: within any class of mutually tied rows the relative order is kept |
| WorkshopTable.EqualCellsKeepOrder | client/src/components/workshop-data-table.tsx:138-143 | rows with equal cells in the sorted column, and rows without that column, keep their order |
| WorkshopTable.SortedThroughout | client/src/components/workshop-data-table.tsx:135-144 | when every row has the sorted column, no later row strictly precedes an earlier one |
| WorkshopTable.ChainOrdered | client/src/components/workshop-data-table.tsx:135-144 | neighbour order extends to any pair of rows when every row has the column |
| WorkshopTable.FilteredRows | client/src/components/workshop-data-table.tsx:119-144 | exactly the rows matching the search and every column filter are shown, each at most as often as in the data |
| WorkshopTable.FilteredData | client/src/components/workshop-data-table.tsx:119-144 | `filteredData`; `FilteredRows`, `Pipeline`, `SortStable` and `UnfilteredData` state what it shows |
| WorkshopTable.Pipeline | client/src/components/workshop-data-table.tsx:119-144 | two filters and a sort keep exactly the rows that pass both filters, none more often than in the input |
| WorkshopTable.EmptyFilterValue | client/src/components/workshop-data-table.tsx:128-134 | an empty filter text on a column shows the same rows as no filter on it |
| WorkshopTable.UnfilteredData | client/src/components/workshop-data-table.tsx:119-144 | with no search, no filters and no sort the data is shown as it is |
| WorkshopTable.ExportText | client/src/components/workshop-data-table.tsx:100-108 | there is no export text exactly when there is no data row to take the header from |
| WorkshopTable.RowLine | client/src/components/workshop-data-table.tsx:103-106 | one quoted row line; `RowLineCells` and `LinesAvoidNewline` state it |
| WorkshopTable.HeaderLine | client/src/components/workshop-data-table.tsx:102 | the header line; `ExportLines` and `LinesAvoidNewline` state it |
| WorkshopTable.LinesAvoidNewline | client/src/components/workshop-data-table.tsx:101-107 | header and row lines contain no newline when no column name or cell does |
| WorkshopTable.ExportLines | client/src/components/workshop-data-table.tsx:101-108 | splitting the export at newlines gives the header of the first data row, then one line per shown row in order |
| WorkshopTable.RowLineCells | client/src/components/workshop-data-table.tsx:103-106 | splitting a row line at commas gives each cell wrapped in double quotes, in order |
| WorkshopTable.TableState.constructor | client/src/components/workshop-data-table.tsx:42-49 | the table starts with no data, no search, no filters and no sort |
| WorkshopTable.TableState.Shown | client/src/components/workshop-data-table.tsx:119-144 | the rows the table shows from its state; `FilteredRows` states which |
| WorkshopTable.TableState.SetData | client/src/components/workshop-data-table.tsx:69 | the parsed rows replace the data |
| WorkshopTable.TableState.SetSearchQuery | client/src/components/workshop-data-table.tsx:162 | the search text is replaced |
| WorkshopTable.TableState.HandleSort | client/src/components/workshop-data-table.tsx:86-91 | the configuration becomes the next sort of the clicked column |
| WorkshopTable.TableState.HandleFilter | client/src/components/workshop-data-table.tsx:93-98 | sets the filter of one column and keeps every other column's filter |
| WorkshopTable.TableState.HandleExport | client/src/components/workshop-data-table.tsx:100-108 | the export text of the data and the rows shown; its shape is stated by `ExportText`, `ExportLines` and `RowLineCells` |
| Facilitator.JsRemainder | client/src/pages/iam/facilitator.tsx:106 | JavaScript's truncating remainder a - b·trunc(a/b) for a positive divisor: in range, with the sign of the dividend |
| Facilitator.NavigateInRange | client/src/pages/iam/facilitator.tsx:103-108 | a step back or forward from an image lands on an image: the neighbour, counted round the end |
| Facilitator.NavigateIndex | client/src/pages/iam/facilitator.tsx:106 | the new lightbox index; `NavigateInRange`, `NavigateWraps`, `NavigateInverse` and `NavigateRound` state it |
| Facilitator.NavigateWraps | client/src/pages/iam/facilitator.tsx:103-108 | forward from the last image gives the first, and back from the first gives the last |
| Facilitator.NavigateInverse | client/src/pages/iam/facilitator.tsx:103-108 | a step forward and a step back cancel, in either order |
| Facilitator.NavigateRound | client/src/pages/iam/facilitator.tsx:103-108 | k steps forward reach image (start + k) mod 16 |
| Facilitator.NatToString | client/src/pages/iam/facilitator.tsx:132 | the decimal text of a natural number is non-empty and all digits |
| Facilitator.DigitPrefix | client/src/pages/iam/facilitator.tsx:586 | the digits parseInt reads are the longest prefix of the text made of decimal digits |
| Facilitator.ParseInt | client/src/pages/iam/facilitator.tsx:586 | `parseInt`; `ParseIntOfDigits`, `ParseIntOfNegatedDigits` and `ParseIntToString` state what it reads |
| Facilitator.YearOption | client/src/pages/iam/facilitator.tsx:132 | the option id of a year button; `YearRoundTrip` states it decodes back |
| Facilitator.DecodeYear | client/src/pages/iam/facilitator.tsx:586 | the year handed to the workshop table; `YearRoundTrip` states it inverts `YearOption` |
| Facilitator.ParseIntToString | client/src/pages/iam/facilitator.tsx:586 | parseInt reads back the decimal text of every safe integer (magnitude at most 2^53 - 1) |
| Facilitator.ParseIntOfDigits | client/src/pages/iam/facilitator.tsx:586 | parseInt of a non-empty digit string is the number those digits spell |
| Facilitator.ParseIntOfNegatedDigits | client/src/pages/iam/facilitator.tsx:586 | parseInt of a minus sign followed by digits is the negated number those digits spell |
| Facilitator.YearRoundTrip | client/src/pages/iam/facilitator.tsx:575-586 | for every safe integer year, a year option starts with "data-", its title shows the year as written, and its decode gives the year back |
| Facilitator.DataOptionIsNoMenuId | client/src/pages/iam/facilitator.tsx:530-575 | an id with the "data-" prefix is none of the three workshop sub-menu ids |
| Facilitator.WorkshopPanelFor | client/src/pages/iam/facilitator.tsx:474-586 | the workshop menu shows exactly when no or an empty option is active; a "data-" option shows the data of its decoded year |
| Facilitator.NodalPanelFor | client/src/pages/iam/facilitator.tsx:603-667 | the nodal menu shows exactly when no or an empty option is active |
| Facilitator.YearPanelOpened | client/src/pages/iam/facilitator.tsx:575-586 | the button of any safe integer year opens the data panel of that same year |
| Facilitator.PanelsOpened | client/src/pages/iam/facilitator.tsx:49-63 | each sub-menu entry opens its own panel, and every safe integer year's button opens the data of that year |
| Facilitator.OutreachPage.constructor | client/src/pages/iam/facilitator.tsx:67-71 | no image selected, lightbox closed, gallery tab, no sub-menu option |
| Facilitator.OutreachPage.OpenLightbox | client/src/pages/iam/facilitator.tsx:92-96 | selects the image, opens the lightbox and hides body overflow |
| Facilitator.OutreachPage.CloseLightbox | client/src/pages/iam/facilitator.tsx:98-101 | closes the lightbox and restores body overflow; the selection is kept |
| Facilitator.OutreachPage.NavigateLightbox | client/src/pages/iam/facilitator.tsx:103-108 | nothing happens without a selection; otherwise the wrapped neighbour is selected, and a selection in range stays in range |
| Facilitator.OutreachPage.HandleKeyDown | client/src/pages/iam/facilitator.tsx:111-122 | keys are ignored while the lightbox is closed; Escape closes it and sets body overflow to "auto"; ArrowLeft and ArrowRight step back and forward, change nothing without a selection, and keep the overflow; other keys change nothing; a selection in range stays in range |
| Facilitator.OutreachPage.HandleWorkshopOptionSelect | client/src/pages/iam/facilitator.tsx:125-128 | the option becomes active on the workshops tab |
| Facilitator.OutreachPage.HandleWorkshopYearSelect | client/src/pages/iam/facilitator.tsx:131-134 | the active option becomes the year's option on the workshops tab, which for a safe integer year shows the data panel of exactly that year |
| Facilitator.OutreachPage.HandleNodalOptionSelect | client/src/pages/iam/facilitator.tsx:137-140 | the option becomes active on the nodal tab |
| Facilitator.OutreachPage.SelectTab | client/src/pages/iam/facilitator.tsx:180-269 | the tab button's tab becomes active |
| Facilitator.OutreachPage.BackToWorkshopMenu | client/src/pages/iam/facilitator.tsx:533-578 | the back button of a workshop panel returns to the workshop menu |
| Facilitator.OutreachPage.BackToNodalMenu | client/src/pages/iam/facilitator.tsx:634-670 | the back button of a nodal-centre panel returns to the nodal menu |

## Left out

- Timers, vibration and device orientation are not modelled. This covers the 500 ms pause after each swap, `navigator.vibrate`, and the tilt handler that sorts the array with the built-in sort. They are I/O and sensor events.
- Interleaving is not modelled. A reset or a sensor sort that lands while `bubbleSort` is awaiting its timer is outside the model: each method runs to completion.
- The workspace's `array` state is the field `displayed`, because `array` is a reserved word in Dafny.
- React Query (fetching, caching, invalidation) and the HTTP routes are not modelled. The model works on the values they deliver: the experiment list, the preferences record, the parsed CSV rows. Neither is the race between two star toggles that both read the same stale preferences.
- The experiment page reads its id with `parseInt` on the route parameter. The star toggle takes that id as an integer, so a non-numeric route (`NaN`) is outside the model.
- The server accepts an untyped request body in `updatePreferences`. The model takes a well-typed partial record.
- Loading the workshop CSV is not modelled: `fetch`, Papa Parse, and the row type. Rows are sequences of (column, text) pairs. Every cell is text, so the export's branch for non-string values never applies. Columns within a row are assumed to have distinct names, and an object's special ordering of integer-like keys is not modelled.
- The export stops at the CSV text. The Blob, object URL, download link and file name are I/O.
- WorkshopTable.ExportText: quotes inside a cell are not escaped. This follows the code, so `RowLineCells` requires that no cell contains a comma.
- WorkshopTable.Sort: the source calls `Array.prototype.sort`, which is stable since ES2019. The model is a stable insertion sort. When some rows lack the sorted column, the comparator is not a consistent order and the engine's result is implementation-defined. The model's result is then one admissible outcome, and `SortedThroughout` is stated only for rows that all have the column.
- Common.Lower: `toLowerCase` is modelled on ASCII letters only. Full Unicode case mapping is not modelled.
- WorkshopTable.LexLess: characters are compared by code point, where JavaScript compares UTF-16 code units. The two differ only outside the Basic Multilingual Plane.
- Facilitator.ParseIntToString: JavaScript numbers are doubles, and the model's integers are unbounded. The round trip is stated for safe integers only: above 2^53 not every integer is representable, and from 1e21 on `${n}` switches to exponent notation, which `parseInt` does not read back. The listed years are 2018 to 2024.
- Facilitator.YearRoundTrip, Facilitator.YearPanelOpened, Facilitator.PanelsOpened: the year is a safe integer, for the same reason.
- Facilitator.OutreachPage.HandleWorkshopYearSelect: the panel it opens is stated for safe integer years, for the same reason; the option it stores is stated for every year.
- Facilitator.ParseInt: leading white space and the `0x` prefix are not modelled, since option ids never contain them.
- The results screen's floating-point percentage and its pass/fail message at 70% are not modelled. The score and total it shows are modelled.
- The gallery's random shuffle (`Math.random`) and the masonry, grid and carousel layouts are not modelled. Only the sixteen-image count and the lightbox index are.
- Presentational parts are left out: scroll and animation hooks, theme handling, the navigation header, placeholder panels, the video player, the cursors, and the static pages.
- The data-structure, cryptography, NLP and graph workspaces are reached only through `WorkspaceDispatch`. Their contents are not part of this model.

## Findings

| source | as written | input that shows it | evidently intended | confidence | as-written member | corrected member |
|---|---|---|---|---|---|---|
| client/src/components/pre-post-test.tsx:110-118 | the question screen reads `questions[currentQuestion].difficulty` without checking the list, and the store seeds experiments 2 to 8 with empty `preTest` and `postTest` | opening the pre-test of experiment 2, "Stacks and Queues": `questions` is `[]`, so `currentQ` is `undefined` and reading `difficulty` throws | an empty test shows an empty state instead of throwing | not executed | PrePostTest.EmptySeedTestsCrash | PrePostTest.ViewGuarded |
