# Talent finder scoring core, modelled in Dafny

Three Streamlit scripts help an event organiser score a competition:

- **talentfinder.py** adds a `total marks` column to a marks table. The total is `mark1 + mark2 + mark3`, with an empty mark counting as 0. The script then sorts the rows by total and adds a competition `Rank`. It can right-join the result with a roster on `Chest No` and offer the table for download as `<event name>_results.xlsx`.
- **talentfinderX.py** does the same. It also gives configurable `Points` to ranks 1, 2 and 3, builds a dictionary of tied totals (`identify_ties`) and fills a `Tie Status` column from it.
- **talentfinderpro.py** groups a results table by a category, sums `Points` per group, and keeps the top `n` groups. It computes the distinct counts used in the summary and builds the download file name from the competition title.

The model represents a pandas frame as a `Table`, made of a column list and a sequence of rows. A row maps column names to `Cell`s (NaN, a number or text), and a column a row lacks reads as NaN. The code that mutates a frame in place — `calculate_total_and_rank`, the `Tie Status` loop and the missing-column fill in `main` — works on a `Frame` class. That class has `columns` and `rows` fields and the methods `SetColumn` (`df[c] = v`), `SetWhere` (`df.loc[df[k].isin(keys), c] = v`) and `AddMissingColumns`. The joins, the grouping and the string code are functions.

Modules:

- `Seqs` and `Sorting` hold sequence helpers and the descending sort.
- `Tables` holds cells, rows, tables and `Frame`.
- `Scoring` holds totals and ranks.
- `Ties` models `identify_ties`.
- `Merging` models the right join.
- `TalentFinder`, `TalentFinderX` and `TalentFinderPro` model the three scripts.

pandas `sort_values` uses an unstable sort by default, so nothing here promises an order among rows with equal totals or equal sums. Every sorted result is stated as sorted non-increasing and as a permutation of its input. The model's own sort (an insertion sort) is one such order. The same holds for `get_top_performers`: groups with equal summed `Points` may come in any order, and the result is promised only non-increasing.

## Model

| member | source | states |
|---|---|---|
| Tables.Frame.SetColumn | talentfinder.py:9 | `df[name] = values`: an existing column keeps its place and a new one goes last; row `i` gets `values[i]` in that column and nothing else; a well-formed frame stays well-formed |
| Tables.Frame.SetWhere | talentfinderX.py:32 | `df.loc[df[key].isin(keys), name] = v`: exactly the rows whose key cell is among `keys` get `v` in column `name`; every other row is unchanged |
| Tables.Frame.AddMissingColumns | talentfinder.py:61-65 | every required column is present afterwards; the new ones are appended in required order and read NaN; every old cell is unchanged |
| Tables.WithColumn | talentfinder.py:9 | the column list after an assignment contains the assigned column and keeps the names distinct |
| Tables.MissingColumns | talentfinder.py:61 | a column is listed exactly when it is required and absent; no duplicates |
| Tables.NaNColumnKeepsOthers | talentfinder.py:64-65 | adding one NaN column keeps every earlier cell and reads NaN everywhere else |
| Sorting.SortDesc | talentfinder.py:12 | the result is a permutation of the input, ordered non-increasing by the score |
| Scoring.WithTotalIsMarkSum | talentfinder.py:9 | after the assignment the row's `total marks` is the sum of its three marks, a missing mark counting as 0 |
| Scoring.MarkSum | talentfinder.py:9 | definition: `mark1 + mark2 + mark3` with a missing mark read as 0; WithTotalIsMarkSum states it is what the total column holds |
| Scoring.WithTotal | talentfinder.py:9 | definition: the row with `total marks` written; WithTotalIsMarkSum and OtherColumnKeepsTotal state its properties |
| Scoring.Rank | talentfinder.py:15 | definition: 1 + the number of rows with a strictly greater total (`method='min'`, descending); RankBounds, RankInSortedTable, RankPermutation and SharedFirstSkipsSecond state its properties |
| Scoring.RankColumn | talentfinder.py:15 | definition: the `Rank` column, one rank per row; CalculateTotalAndRank states the ranks it writes |
| Scoring.OtherColumnKeepsTotal | talentfinderX.py:18-32 | writing `Rank`, `Points` or `Tie Status` leaves the total, and its agreement with the marks, unchanged |
| Scoring.SortByTotal | talentfinder.py:12 | a fresh frame with the same columns; its rows are a permutation of the caller's, sorted non-increasing by total |
| Scoring.RankBounds | talentfinder.py:15 | 1 ≤ Rank ≤ row count; equal totals have equal rank; a strictly greater total has a strictly smaller rank |
| Scoring.RankPermutation | talentfinder.py:15 | a rank depends only on the multiset of rows, not on their order |
| Scoring.RankSameTotals | talentfinder.py:15 | a rank depends only on the totals: rows that agree on totals give the same ranks |
| Scoring.RankInSortedTable | talentfinder.py:12-15 | in sorted rows a rank is at most position + 1, and exactly position + 1 at the first row of each run of equal totals (a tie leaves a gap after it) |
| Scoring.TopTotalRanksFirst | talentfinder.py:15 | a row whose total nobody exceeds has rank 1 |
| Scoring.SharedFirstSkipsSecond | talentfinder.py:15 | when two rows share rank 1, no row has rank 2 |
| TalentFinder.RequiredColumnsDistinct | talentfinder.py:60 | the six required and merge column names are distinct |
| TalentFinder.FillRequiredColumns | talentfinder.py:60-65 | all six required columns exist afterwards and the cells already present keep their values |
| TalentFinder.CalculateTotalAndRank | talentfinder.py:7-17 | the caller's frame gains `total marks` = sum of its marks. The returned fresh frame holds the caller's rows in a non-increasing order, each with the total equal to its mark sum and `Rank` = 1 + the number of rows with a strictly greater total |
| Merging.Combine | talentfinder.py:24-29 | a joined row has exactly the merged columns |
| Merging.JoinedFor | talentfinder.py:24-29 | each marks row yields at least one joined row, each with the merged columns |
| Merging.JoinAll | talentfinder.py:24-29 | the unsorted join has at least one row per marks row, all with the merged columns |
| Merging.CombineCarries | talentfinder.py:24-29 | a joined row has the marks row's Chest No and selected marks under their result names, and the roster row's other cells (NaN without a roster row) |
| Merging.JoinedForShape | talentfinder.py:24-29 | a row yielded for marks row `k` joins `k` with a roster row of the same Chest No, or with none when no roster row has it |
| Merging.JoinAllLength | talentfinder.py:24-29 | with distinct roster Chest Nos, the join has exactly one row per marks row |
| Merging.Merge | talentfinder.py:20-35 | no result exactly when either side lacks `Chest No`. It fails exactly when a selected column is missing, the names clash after `_x`/`_y` suffixing, `total marks` is absent, or `Chest No` is not among the selected columns. Otherwise the table has the merged columns, is well formed, is a permutation of the join and is sorted non-increasing by total |
| Merging.MergeKeepsMarksRows | talentfinder.py:24-31 | right join: every marks row appears in the merged table with its Chest No and its selected marks |
| Merging.MergeKeepsPairs | talentfinder.py:24-29 | right join, roster side: every roster row with a marks row's Chest No is joined with that marks row in a merged row of its own (one row per match when a Chest No repeats in the roster) |
| Merging.JoinAllContains | talentfinder.py:24-29 | every row a marks row yields is in the unsorted join |
| Merging.MergedColumns | talentfinder.py:24-29 | definition: the roster's columns in place (a shared name suffixed `_x`), then the selected marks columns without the key (a shared name suffixed `_y`); Merge and MergedColumnsDisjoint state its properties |
| Merging.MergeRowOrigin | talentfinder.py:24-31 | every merged row joins some marks row with its matching roster row (or with NaN when there is none); the join adds no other rows |
| Merging.MergeOneToOne | talentfinder.py:24-29 | with distinct roster Chest Nos, the merged table has exactly as many rows as the marks table |
| Merging.MergedColumnsDisjoint | talentfinder.py:24-29 | when the roster shares only `Chest No` with the selected columns, nothing is suffixed and the names stay distinct |
| Merging.MergeSucceeds | talentfinder.py:22-32 | distinct selected columns, all present on the marks side, including `Chest No` and `total marks`, with a roster that has `Chest No` and no other shared name, always give a merged table |
| TalentFinder.MergeWithMasterData | talentfinder.py:20-35 | no result exactly when either side lacks `Chest No`; a merged table has the roster columns then the five marks-side columns, is well formed and sorted non-increasing by total |
| TalentFinder.MergeWithMasterDataSucceeds | talentfinder.py:22-32 | a results table with the six columns and a roster sharing only `Chest No` always merges |
| TalentFinder.ResultFileName | talentfinder.py:102-132 | no file name exactly when the event name is empty; otherwise it is the event name followed by `_results.xlsx` |
| TalentFinder.ResultFileNameInjective | talentfinder.py:132 | different event names give different file names |
| TalentFinder.Downloadable | talentfinder.py:116-120 | the download refuses exactly when the merge found no `Chest No`, fails exactly when the merge failed, and otherwise offers the merged table under the given name |
| TalentFinder.DownloadResult | talentfinder.py:102-134 | the download is refused exactly when the event name is empty, and the frame is left alone. A mark column that is missing or holds text fails the calculation. Otherwise the edited frame gains `total marks` = the sum of each row's marks, and `computed` is the recomputed result with the `CalculateTotalAndRank` properties (sorted permutation, total = mark sum, rank formula). Without a roster exactly `computed` is offered as `<event>_results.xlsx`. With a roster the outcome is that of merging `computed` with it |
| Ties.IdentifyTies | talentfinderX.py:37-54 | the result is the tie dictionary: its totals strictly decrease, each is above 0 and shared by at least two rows, its Chest Nos are those of the rows with that total, and every such total has an entry |
| Ties.TieCandidates | talentfinderX.py:42-45 | definition: the rows with a positive total that another such row shares; CandidateIsTied, CandidatesWithTotal and TiedIsListed state its properties |
| Ties.FillGroups | talentfinderX.py:48-52 | one dictionary entry per distinct total, in the given order, each listing the candidates' Chest Nos for that total |
| Ties.NonZeroKeepsTotal | talentfinderX.py:42 | for a positive total, dropping rows with total 0 or less keeps every row with that total |
| Ties.CandidatesWithTotal | talentfinderX.py:42-45 | the candidates with a tied total are all the rows with that total |
| Ties.CandidateIsTied | talentfinderX.py:42-45 | every candidate's total is above 0 and shared by two or more rows |
| Ties.TiedIsListed | talentfinderX.py:42-45 | every tied total is some candidate's total |
| Ties.GroupChests | talentfinderX.py:51-52 | the list built for a tied total holds the Chest Nos of exactly the rows with that total |
| Ties.TieGroupsCorrect | talentfinderX.py:45-52 | the loop over the distinct totals of the sorted candidates builds the tie dictionary |
| Ties.TieGroupsSound | talentfinderX.py:50-52 | every entry the loop builds is a tied total with the right Chest Nos |
| Ties.TieGroupsComplete | talentfinderX.py:50-52 | every tied total gets an entry |
| Ties.TiedRowListed | talentfinderX.py:48-52 | a row whose total is tied has its Chest No in some group |
| Ties.ListedChestIsTied | talentfinderX.py:48-52 | a listed Chest No belongs to a row whose total is tied |
| Ties.TieMapEmptyIff | talentfinderX.py:42-52 | the tie dictionary has an entry exactly when two rows share a total above 0 |
| Ties.ListedIffTied | talentfinderX.py:48-52 | with distinct Chest Nos, a row is listed exactly when its total is tied |
| Ties.TieMapAlike | talentfinderX.py:21-27 | rows that agree position by position on totals and Chest Nos have the same tie dictionary, so writing `Points` before `identify_ties` does not change it |
| Ties.TieMapPermutation | talentfinderX.py:15-27 | the tie dictionary does not depend on row order |
| Ties.SameCountsSameTieMap | talentfinderX.py:42-52 | equal per-total counts and Chest Nos give the same tie dictionary |
| TalentFinderX.RequiredColumnsDistinct | talentfinderX.py:126 | the eight required and merge column names are distinct |
| TalentFinderX.ScoredCells | talentfinderX.py:18-32 | scoring a row keeps its total, its Chest No and the agreement of the total with the marks, and writes the rank, the points for it and the tie flag |
| TalentFinderX.InSomeGroupStep | talentfinderX.py:31-32 | after one more loop step a Chest No is listed exactly when it was already listed or is in the new group |
| TalentFinderX.PointsFor | talentfinderX.py:21-24 | definition: the configured value for ranks 1, 2 and 3 and 0 otherwise; PointsFollowTotals, TopTotalGetsFirst and PodiumOfDistinctTotals state its properties |
| TalentFinderX.AwardPoints | talentfinderX.py:21-24 | `Points` is added and nothing else changes. A row whose `Rank` cell is 1, 2 or 3 gets the first, second or third value. Any other rank, NaN included, gets 0 |
| TalentFinderX.PointsForRankCell | talentfinderX.py:21-24 | a `Rank` cell holding the whole rank k earns exactly the points of rank k; a cell that is not 1, 2 or 3 earns 0 |
| TalentFinderX.FlagTies | talentfinderX.py:30-32 | `Tie Status` is added; a row reads `Tied` exactly when its Chest No is in some tie group, and the empty string otherwise; nothing else changes |
| TalentFinderX.CalculateTotalAndRank | talentfinderX.py:7-34 | the caller's frame gains the totals. The fresh result holds the caller's rows in non-increasing order of total, each with its rank, its points for that rank and its tie flag. The returned groups are the tie dictionary of both the caller's rows and the result, and are non-empty exactly when two mark sums above 0 agree |
| TalentFinderX.ScoredRows | talentfinderX.py:15-32 | the steps sort, rank, award points, identify ties and flag ties yield the scored rows, and the tie dictionary found on the pointed frame is that of the caller's rows |
| TalentFinderX.ScoredFromCells | talentfinderX.py:18-32 | the scored rows are sorted, keep the dictionary, and each holds total = mark sum, Rank = 1 + the number of strictly greater totals, the points of that rank and the tie flag |
| TalentFinderX.PointsFollowTotals | talentfinderX.py:21-24 | when first ≥ second ≥ third, a greater or equal total never earns fewer points |
| TalentFinderX.TopTotalGetsFirst | talentfinderX.py:21-24 | every row with the highest total, alone or tied, earns the first-place points |
| TalentFinderX.PodiumOfDistinctTotals | talentfinderX.py:18-24 | in a sorted table of three or more rows whose first three totals differ, those rows earn first, second and third, and every row with a total below the third earns 0 |
| TalentFinderX.TiesFollowMarkSums | talentfinderX.py:42-52 | once the totals are written, the tie dictionary is non-empty exactly when two mark sums above 0 agree, which is when `identify_ties` reads `Chest No` |
| TalentFinderX.TieStatusMarksTies | talentfinderX.py:30-32 | with distinct Chest Nos, `Tie Status` is `Tied` exactly when at least two rows share the row's total and it is above 0, and `''` otherwise |
| TalentFinderX.FillRequiredColumns | talentfinderX.py:126-131 | all eight required columns exist afterwards and the cells already present keep their values |
| TalentFinderX.MergeWithMasterData | talentfinderX.py:57-72 | no result exactly when either side lacks `Chest No`; a merged table has the roster columns then the seven marks-side columns, is well formed and sorted non-increasing by total |
| TalentFinderX.MergeWithMasterDataSucceeds | talentfinderX.py:59-69 | a results table with the eight columns and a roster sharing only `Chest No` always merges |
| TalentFinderX.DownloadResult | talentfinderX.py:183-219 | the same guard and outcomes as the first script's download. The calculation also fails, after `total marks` is written to the edited frame, when the frame has no `Chest No` column and two mark sums above 0 agree: `identify_ties` then looks up `Chest No` and pandas raises `KeyError`, which the `except` reports. `computed` and `groups` are the result of scoring the edited frame with the given point values: ranks, the points for them, tie flags and the tie dictionary. The offered table is `computed` itself, or its merge with the roster |
| TalentFinderPro.KeyColumns | talentfinderpro.py:15-29 | group columns exist exactly for `Student`, `Church`, `Section` and `Region`; they are non-empty, distinct and do not include `Points` |
| TalentFinderPro.Head | talentfinderpro.py:17 | `head(n)` is a prefix of length min(n, size), or for a negative n all but the last -n entries |
| TalentFinderPro.GetTopPerformers | talentfinderpro.py:13-29 | `None` exactly for an unknown category. Otherwise a well-formed table with the group columns and `Points`, one row per kept standing |
| TalentFinderPro.TopPerformersRows | talentfinderpro.py:16-29 | each returned row carries its group's key cells and, under `Points`, the sum of `Points` over the input rows with that key |
| TalentFinderPro.TopKeyWidth | talentfinderpro.py:16-17 | every kept key has one cell per group column |
| TalentFinderPro.GroupKeysMember | talentfinderpro.py:16 | a key is a group exactly when some row has it with no NaN in it |
| TalentFinderPro.TopIsStanding | talentfinderpro.py:16-17 | each kept entry is a group of the input with its summed points |
| TalentFinderPro.TopSorted | talentfinderpro.py:17 | the kept entries are sorted non-increasing by summed points |
| TalentFinderPro.TopCount | talentfinderpro.py:13-17 | at most n entries for n ≥ 0, and never more than there are groups |
| TalentFinderPro.TopDistinct | talentfinderpro.py:16-17 | each group key appears at most once |
| TalentFinderPro.SortedPosition | talentfinderpro.py:16-17 | every group appears in the sorted standings with its sum |
| TalentFinderPro.TopMaximal | talentfinderpro.py:16-17 | no omitted group has a larger sum than any kept one |
| TalentFinderPro.TopAllWhenFew | talentfinderpro.py:16-17 | with at most n groups, every group is kept with its sum |
| TalentFinderPro.GroupSum | talentfinderpro.py:16 | definition: the sum of `Points` over the rows with the key, NaN counting as 0; TopPerformersRows states that each returned row carries it |
| TalentFinderPro.Standings | talentfinderpro.py:16 | definition: one standing per group, with its sum; TopIsStanding and SortedPosition state its properties |
| TalentFinderPro.TopStandings | talentfinderpro.py:17 | definition: the standings sorted by sum, then `head(n)`; TopSorted, TopCount, TopDistinct, TopMaximal and TopAllWhenFew state its properties |
| TalentFinderPro.NUniqueIsValueCount | talentfinderpro.py:94-95 | `nunique()` is the number of distinct non-NaN values in the column |
| TalentFinderPro.NUnique | talentfinderpro.py:94 | definition: the number of distinct non-NaN cells of the column; NUniqueIsValueCount states it is the size of the value set |
| TalentFinderPro.SummaryCounts | talentfinderpro.py:93-128 | Student gives exactly the counts `Total Students` (distinct ID Nos) and `Total Churches`. Church gives only `Total Churches`, Section only `Total Sections`, and any other category only `Total Regions`. Each value is the column's `nunique()` |
| TalentFinderPro.ReplaceSpaces | talentfinderpro.py:135 | same length; every space becomes `_` and every other character stays |
| TalentFinderPro.ReplaceSpacesLeavesNone | talentfinderpro.py:135 | no space is left, and a string without spaces is unchanged |
| TalentFinderPro.ReplaceSpacesIdempotent | talentfinderpro.py:135 | replacing twice is replacing once |
| TalentFinderPro.DownloadFileNameHasNoSpaces | talentfinderpro.py:135 | for a category without spaces the file name has no spaces |
| TalentFinderPro.DownloadFileNameParts | talentfinderpro.py:135 | the file name is the title with spaces replaced, then `_`, the category and `_results.xlsx` (length, prefix and suffix) |
| TalentFinderPro.DownloadFileName | talentfinderpro.py:135 | definition: the title with spaces replaced, then `_`, the category and `_results.xlsx`; DownloadFileNameParts and DownloadFileNameHasNoSpaces state its properties |

## Left out

- Streamlit rendering, the data editor, buttons and `display_tie_information` are presentation only. The editor's mark limits (0 to 100 in steps of 0.5) are not imposed; marks are arbitrary reals.
- Reading and writing Excel files (`read_excel`, `ExcelWriter`, `BytesIO`, `export_results_to_excel`) and the plotly chart are not modelled. The download step is modelled up to the table and the file name it would carry.
- The top-level `except Exception` is modelled only as the `CalcFailed`/`MergeFailed` outcomes of the download. Other library exceptions are not modelled.
- The "Average Points per …" mean of group means with `round(..., 2)` is floating-point arithmetic and is not modelled.
- Floating point in general: marks, totals and points are exact reals, so rounding of float sums is not modelled. NaN totals cannot arise because the marks are read with `fillna(0)`.
- Order among rows with equal totals, and among groups with equal sums, is not promised (the sort is unstable). Within a tie group the Chest Nos are compared as a multiset. The group order before the sort in `get_top_performers` is first appearance, not the sorted-key order pandas uses; only the post-sort properties are stated.
- dtype coercion is not modelled: `Rank` is written as a number and `Points` as a whole number.
- Int/float dtype changes caused by `df.loc` writes are not modelled.
- The NaN handling of `groupby` beyond dropping keys with NaN is not modelled.
- NaN matching in `isin` and in the join key is modelled as equality of the `Missing` cell, which is what pandas does for these calls.
- TalentFinder.CalculateTotalAndRank: requires the three mark columns to exist and hold numbers or NaN. The download methods route the other case to `CalcFailed`, where pandas raises.
- TalentFinderX.CalculateTotalAndRank: the same precondition on the mark columns, for the same reason. It also requires that the frame has a `Chest No` column or no two mark sums above 0 agree (`ChestNoLookupFails` is false). Otherwise `tied_entries['Chest No']` raises `KeyError` (talentfinderX.py:52), and `DownloadResult` routes that case to `CalcFailed`.
- TalentFinderPro.GetTopPerformers: requires `Points` to hold numbers or NaN. A missing group or `Points` column reads as NaN, where pandas raises `KeyError`.
- TalentFinderPro.SummaryCounts: states the distinct counts only, not the "Average Points per …" entries beside them.
- TalentFinderX.TieStatusMarksTies and Ties.ListedIffTied: assume distinct Chest Nos. With a repeated Chest No, `isin` flags every row carrying it, including one whose own total is not tied.
- Merging.Merge: a suffix clash that pandas would resolve or reject differently is modelled as `Failed`.
- Merging.Merge: the unsorted row order of the join is not promised, only the sorted result.
- `load_and_process_data`, `create_visualization` and the Streamlit `main` functions are not part of this model, except for the fill loop and the download branch.
