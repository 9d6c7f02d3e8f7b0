# Review-bot study pipeline: decision logic in Dafny

This project models the decision logic of a study pipeline. The study compares
pull requests (PRs) written by AI agents, and how automated review bots
review them. Three scripts of the pipeline hold that logic, and each is a
Dafny module here:

- **Preprocessing** (`src/02_preprocess.py`, module `Preprocess`).
  - It keeps the PRs with a present, non-negative review duration (`pr_clean`).
  - It gives every PR a reviewer type: bot, human or none. Participant logins
    from the reviews table and then the comments table are folded into a
    per-PR map. "bot" is written unconditionally; "human" only fills keys that
    are still absent.
  - It derives the `status` and `is_ai` flags.
  - It builds the RQ1 table, the RQ3 table (AI-authored PRs), and the RQ2 table.
    The RQ2 table is the comments inner-joined with `pr_clean` on
    `pr_id = id`, then restricted to AI-authored PRs.
- **Comment classification** (`src/04_metrics_rq2.py`, modules `Text`,
  `CommentClassifier`, `CommentExpansion`).
  - Keyword search gives each comment a multi-label category list and a
    sentiment. The search is case-insensitive and looks for substrings.
  - A rule picks the column that holds the comment text.
  - A loop fans each comment out to one row per category label.
  - Per-category and per-(category, sentiment) counts are taken over those rows.
- **Closed-loop comparison** (`src/05_metrics_rq3.py`, module `ClosedLoop`).
  - It splits the AI-authored PRs into a closed-loop and an open-loop cohort.
  - It computes the closed-loop proportion and the merge counts, with their
    zero guards.
  - It decides which descriptive and test rows the `results` list receives.
  - It builds the four-row summary table with its "N/A" markers.

The statistics (median, mean, Mann-Whitney U, chi-square, Cliff's delta) are
library calls on floats. The model records *which* of them is computed and
shown, never their values.

Tables are modelled as values (module `Frames`):
- A cell is missing, a number or a string.
- A row is its index label plus a map from column name to cell.
- A table is its column names plus its rows.
- A boolean-mask selection is `Filter`.

Two loops of the source are Dafny methods with loop invariants, each proved
against a specification function:
- the expansion loop (`CommentExpansion.Expand`);
- the reviewer-type fold (`Preprocess.FoldPass`, used twice by
  `Preprocess.DetectReviewerTypes`), with `_pick_login_col` as
  `Preprocess.PickLoginCol`.

The RQ3 script is straight-line code that appends to a list and to seven
column lists. `ClosedLoop.Results` and `ClosedLoop.SummaryFor` do the same.

The model follows what the code does in three places where a reader might
expect otherwise:
- A missing comment text gets the empty category list, not `["other"]`. The
  "other" row for it appears only in the expansion loop.
- When no column looks like a text column, the code falls back to the first
  column with a warning instead of failing.
- The chi-square test runs as soon as the contingency table has one cell
  (`size > 0`). It is not held back for a degenerate table with a single
  cohort (`ClosedLoop.CrosstabSize`).

On the RQ2 table, `comment_id` is never the comment's own id:
- If the comment table has no `id` column, the join brings in the PR's `id`,
  so `comment_id` is the PR id.
- If the comment table has an `id` column, the join renames it `id_x`, so
  `row.get("id", idx)` falls back to the row's position.

`comment_id` only feeds a per-category `count`, and the model proves it is
never missing there. So the counts equal the number of expanded rows
(`CommentExpansion.Rq2CommentIds`).

## Model

| member | source | states |
|---|---|---|
| Text.ContainsIffOccurs | src/04_metrics_rq2.py:70 | Python's substring test `keyword in text` holds exactly when the keyword occurs at some position of the text |
| Text.ContainsTransitive | src/04_metrics_rq2.py:119 | a phrase inside a phrase found in the text is itself found in the text |
| Text.CountContained | src/04_metrics_rq2.py:119-120 | the number of keywords found is at most the number of keywords, and is zero exactly when no keyword is found |
| Text.CountIsMatchedPositions | src/04_metrics_rq2.py:119-120 | the count is the number of distinct keyword positions found, so each keyword adds at most 1 however often it occurs |
| Frames.Filter | src/02_preprocess.py:44-47 | a boolean-mask selection keeps exactly the rows satisfying the mask, and no more rows than it was given |
| Frames.FilterCounts | src/02_preprocess.py:44-47 | a selection keeps each satisfying row as often as it occurs and drops every other row |
| Frames.FilterAppend | src/02_preprocess.py:44-47 | selecting from two blocks of rows gives the selection of the first followed by that of the second, so the kept rows stay in their original order |
| CommentClassifier.Labels | src/04_metrics_rq2.py:67-86 | the label list holds a category exactly when its verdict holds, "other" exactly when none holds (and then alone), never empty, in the fixed order without repeats |
| CommentClassifier.Categorize | src/04_metrics_rq2.py:53-86 | a missing text gets []; otherwise the list is non-empty, each of corrective/style/security/testing is present iff one of its keywords is a substring of the lower-cased text, "other" iff none matched and then alone, labels in the fixed order |
| CommentClassifier.PositiveCount | src/04_metrics_rq2.py:108-119 | at most 11 distinct positive phrases count |
| CommentClassifier.NegativeCount | src/04_metrics_rq2.py:114-120 | at most 12 distinct negative phrases count |
| CommentClassifier.AnalyzeSentiment | src/04_metrics_rq2.py:89-127 | a missing text is neutral; otherwise positive iff strictly more positive phrases, negative iff strictly more negative ones, neutral iff tied (0-0 included) |
| CommentClassifier.NoPhraseIsNeutral | src/04_metrics_rq2.py:119-127 | a text with no phrase of either list is neutral |
| CommentClassifier.LooksGoodCountsTwice | src/04_metrics_rq2.py:108-119 | overlapping phrases both count: a text containing "looks good" scores at least two positive phrases |
| CommentClassifier.FirstTextLike | src/04_metrics_rq2.py:149 | finds the first column whose lower-cased name contains "comment", "text" or "content", or reports that none does |
| CommentClassifier.CommentColumn | src/04_metrics_rq2.py:149-153 | "body" when present, else the first text-like column, else the first column; none only for a table without columns |
| CommentExpansion.Classified | src/04_metrics_rq2.py:155-166 | one classified comment per row, carrying the row's `pr_id`, its comment id (`id` cell, or the index label without an `id` column), the categories and the sentiment of the text in the chosen column; the category list is empty exactly when that text is missing, and a missing text is neutral |
| CommentExpansion.Expand | src/04_metrics_rq2.py:160-178 | the loop's output is the expansion of the comments in comment order: one row per label, one "other" row for an empty list |
| CommentExpansion.ExpansionSize | src/04_metrics_rq2.py:160-178 | the expansion has max(1, number of labels) rows per comment in total, hence at least one row per comment |
| CommentExpansion.ExpansionTraces | src/04_metrics_rq2.py:161-178 | every expanded row carries the pr id, comment id and sentiment of a comment, one of its labels ("other" for an empty list), and the multi-label flag exactly when that comment has several labels |
| CommentExpansion.RowsForShareIds | src/04_metrics_rq2.py:162-178 | all rows of one comment share its ids and sentiment, and there are max(1, labels) of them |
| CommentExpansion.CategoryCount | src/04_metrics_rq2.py:187-188 | a category's count is at most the number of rows, and 0 exactly when no row has that category |
| CommentExpansion.SentimentCount | src/04_metrics_rq2.py:199 | a (category, sentiment) count is at most the number of rows, and 0 exactly when no row has both |
| CommentExpansion.SentimentsPartitionCategory | src/04_metrics_rq2.py:199-202 | the positive, negative and neutral counts of a category add up to that category's count |
| CommentExpansion.CategoriesPartitionRows | src/04_metrics_rq2.py:187-190 | the five category counts add up to the number of expanded rows |
| CommentExpansion.CategoryCountAppend | src/04_metrics_rq2.py:187-190 | the count of a category over two blocks of rows is the sum of the two counts |
| CommentExpansion.LabelRowsCount | src/04_metrics_rq2.py:162-170 | a label list without repeats yields one row of a category exactly when the category is in the list |
| CommentExpansion.RowsForCount | src/04_metrics_rq2.py:162-178 | one comment contributes one row to a category it carries and none to any other |
| CommentExpansion.CategoryCountIsCommentCount | src/04_metrics_rq2.py:160-190 | with labels in the classifier's order, a category's row count equals the number of comments carrying it |
| CommentExpansion.ClassifiedIsOrdered | src/04_metrics_rq2.py:155 | every classified comment's label list is in the fixed order without repeats |
| CommentExpansion.Rq2RowCommentId | src/04_metrics_rq2.py:166 | on the RQ2 table the comment id is the PR id when the comment table has no `id` column, the join position when it has one, and present either way |
| CommentExpansion.Rq2CommentIds | src/04_metrics_rq2.py:161-190 | every classified RQ2 comment and every expanded row has a present comment id, so counting `comment_id` per category counts every row |
| CommentExpansion.Distribution | src/04_metrics_rq2.py:189 | a category's `sentiment_distribution` has an entry for exactly the sentiments that occur among its rows, each with its number of rows |
| CommentExpansion.DistributionSumsToCount | src/04_metrics_rq2.py:187-192 | the values of a category's sentiment distribution add up to that category's count |
| CommentExpansion.StatsEntries | src/04_metrics_rq2.py:187-192 | the entries come one per category with rows, in alphabetical order of the category labels |
| CommentExpansion.StatsEntriesFacts | src/04_metrics_rq2.py:187-192 | every entry carries its category's row count (positive) and its sentiment distribution |
| CommentExpansion.NameOrderIsAlphabetical | src/04_metrics_rq2.py:187 | the order of the entries is Python's string order on the category labels, the order `groupby` sorts its keys in |
| CommentExpansion.CategoryStats | src/04_metrics_rq2.py:180-192 | fails (the `groupby` key error) exactly when there are no expanded rows; otherwise one entry per category with rows, carrying that category's row count and its sentiment distribution, in alphabetical order of the labels |
| CommentExpansion.CategoryStatsCovers | src/04_metrics_rq2.py:187-192 | on a non-empty expansion, a category has an entry exactly when it has rows |
| CommentExpansion.SumCountsAppend | src/04_metrics_rq2.py:187-192 | the total of two blocks of entries is the sum of their totals |
| CommentExpansion.CategoryStatsTotal | src/04_metrics_rq2.py:187-195 | on a non-empty expansion, the counts of `category_stats` add up to the number of expanded rows |
| CommentExpansion.StatsFailOnlyWithoutComments | src/04_metrics_rq2.py:160-190 | the category statistics fail exactly when the comment table has no rows, since every comment yields at least one expanded row |
| CommentExpansion.Rq2TextColumn | src/04_metrics_rq2.py:149-150 | a comment table with a "body" column keeps it through the RQ2 join, so the comment text is read from "body" |
| Preprocess.FirstPresent | src/02_preprocess.py:75-80 | the first candidate, in list order, that is a column; none exactly when no candidate is a column |
| Preprocess.PickLoginCol | src/02_preprocess.py:75-80 | the early-return loop returns the first candidate present among the columns, and none iff no candidate is present |
| Preprocess.PrIdColumn | src/02_preprocess.py:90-91 | "pr_id" if present, else "pull_request_id" if present, else none |
| Preprocess.Keys | src/02_preprocess.py:102 | the group keys are exactly the non-missing PR ids of the table, each once |
| Preprocess.Grouped | src/02_preprocess.py:102 | one group per PR id, none of them missing, no id twice, and every group holds at least one login |
| Preprocess.PassAt | src/02_preprocess.py:103-108 | after a pass a key is mapped iff it was mapped or appears in a group; it is "bot" iff it was "bot" or one of its groups has a bot login; otherwise it keeps its old value or becomes "human" |
| Preprocess.FoldPass | src/02_preprocess.py:103-118 | the loop computes the pass over the groups in order, and a key that was "bot" stays "bot" |
| Preprocess.TwoPassLabel | src/02_preprocess.py:94-122 | after both passes a PR is "bot" iff a bot login appears in either source, "human" iff it appears in either source without one, "none" otherwise |
| Preprocess.GroupOrderIrrelevant | src/02_preprocess.py:102-108 | a pass gives the same map for any order of the same groups, so sorted and first-appearance key order agree |
| Preprocess.PassOrderIrrelevant | src/02_preprocess.py:96-118 | running the comment pass before the review pass gives the same labels |
| Preprocess.LoginsForBot | src/02_preprocess.py:102-105 | the login list grouped for a PR holds a bot login iff some row of that PR has one |
| Preprocess.GroupedFacts | src/02_preprocess.py:102-105 | a PR id appears in the grouped table iff some row carries it, and its group has a bot login iff one of those rows does |
| Preprocess.PassGroupsFacts | src/02_preprocess.py:97-105 | a pass whose PR-id or login column is missing contributes no group; otherwise grouping is read back at row level |
| Preprocess.DetectReviewerTypes | src/02_preprocess.py:94-124 | every PR id gets the row-level label: "bot" iff some login of that PR in reviews or comments contains a bot keyword, "human" iff it appears in a source with no such login, "none" otherwise; with both passes skipped the map is empty |
| Preprocess.Lookup | src/02_preprocess.py:121-122 | a PR with an entry gets that entry's type, a PR without one gets "none" |
| Preprocess.BotLoginWins | src/02_preprocess.py:104-106 | one bot login in either source makes the PR "bot", whatever else reviewed it |
| Preprocess.PrClean | src/02_preprocess.py:44-47 | `pr_clean` keeps exactly the PRs whose review duration is present and non-negative |
| Preprocess.Status | src/02_preprocess.py:59 | merged 1 maps to "merged", 0 to "closed", anything else to missing |
| Preprocess.IsAi | src/02_preprocess.py:140 | `is_ai` is 1 iff the author type is "ai", and 0 otherwise |
| Preprocess.Rq3Data | src/02_preprocess.py:169-171 | the RQ3 table keeps exactly the AI-authored PRs of `pr_clean` |
| Preprocess.MatchingPrs | src/02_preprocess.py:149-154 | the PRs a comment joins with are exactly those of `pr_clean` whose id is the comment's `pr_id` |
| Preprocess.JoinedColumns | src/02_preprocess.py:149-154 | the join keeps every column of the comment table other than `id`, adds `author_type`, and has an `id` column iff the comment table has none; otherwise the clashing ids become `id_x` and `id_y` |
| Preprocess.JoinedCellMapsArePairs | src/02_preprocess.py:149-154 | the joined rows are exactly the matching (comment, PR) pairs: nothing else, and every pair |
| Preprocess.Rq2Join | src/02_preprocess.py:149-154 | the joined table has the joined columns, positional index labels, and each row built from a matching (comment, PR) pair |
| Preprocess.JoinKeepsPairs | src/02_preprocess.py:149-154 | every matching (comment, PR) pair gives a row of the join |
| Preprocess.Rq2Data | src/02_preprocess.py:157-159 | the RQ2 table keeps exactly the joined rows whose PR is AI-authored |
| Preprocess.Rq2RowSource | src/02_preprocess.py:149-159 | every RQ2 row comes from a comment and an AI-authored PR of `pr_clean` that it matches, and keeps that comment's `pr_id` |
| Preprocess.Rq2KeepsAiComments | src/02_preprocess.py:149-159 | every comment on an AI-authored PR of `pr_clean` is in the RQ2 table |
| Preprocess.Rq1Data | src/02_preprocess.py:59-140 | one RQ1 row per PR of `pr_clean`, in order, copying its id, author type, review duration, merged flag and comment count; `status` is "merged" iff merged is 1, "closed" iff 0, missing otherwise; `is_ai` is 1 iff the author type is "ai" and 0 otherwise; the reviewer type is the map's entry ("none" when absent) |
| Preprocess.Rq1ReviewerTypes | src/02_preprocess.py:94-137 | with the detected map, every RQ1 row carries the row-level reviewer label of its PR |
| ClosedLoop.Cohort | src/05_metrics_rq3.py:44-47 | a cohort is no larger than the RQ3 table and every row in it has that cohort's flag (1 closed, 0 open) |
| ClosedLoop.CohortsPartition | src/05_metrics_rq3.py:44-47 | the cohorts hold only rows with flag 1 and 0 respectively; together with the rows whose flag is missing or any other value they account for every row once, so closed + open ≤ total |
| ClosedLoop.Proportion | src/05_metrics_rq3.py:60-61 | the proportion lies in [0, 1], is 0 for an empty table, and otherwise times the total gives the closed count |
| ClosedLoop.Durations | src/05_metrics_rq3.py:72-73 | dropping missing durations leaves at most the cohort's size, and nothing exactly when every duration is missing |
| ClosedLoop.CommentCounts | src/05_metrics_rq3.py:120-121 | dropping missing comment counts leaves at most the cohort's size, and nothing exactly when every count is missing |
| ClosedLoop.DurationsArePresent | src/05_metrics_rq3.py:72-84 | the durations are those of the PRs that have one, in order, so a duration row's `count` is the number of such PRs |
| ClosedLoop.CommentCountsArePresent | src/05_metrics_rq3.py:120-130 | the comment counts are those of the PRs that have one, in order, so a comment row's `count` is the number of such PRs |
| ClosedLoop.MergeRateOf | src/05_metrics_rq3.py:100-101 | the merge rate is 0 for an empty cohort, and otherwise times the cohort size gives the merged count |
| ClosedLoop.MergedBounded | src/05_metrics_rq3.py:100-117 | with every `merged` flag 0 or 1, the merged count lies between 0 and the cohort size and the merge rate in [0, 1] |
| ClosedLoop.CrosstabSize | src/05_metrics_rq3.py:170-175 | the contingency table has a cell iff some row has a closed-loop flag: one cohort suffices |
| ClosedLoop.DescribedRows | src/05_metrics_rq3.py:72-97 | the descriptive rows of a metric are one per cohort whose sample is non-empty, carrying that sample's size |
| ClosedLoop.TestRows | src/05_metrics_rq3.py:149-199 | a rank-sum row per metric whose two samples are non-empty, the chi-square row iff the contingency table has a cell, and nothing else |
| ClosedLoop.EmittedIsExpected | src/05_metrics_rq3.py:57-199 | the emitted list holds exactly the expected rows |
| ClosedLoop.AppendDescribed | src/05_metrics_rq3.py:75-97 | (used for durations here and for comment counts at lines 123-143) appends a descriptive row for the closed-loop sample, then one for the open-loop sample, each only when that sample is non-empty and carrying its size |
| ClosedLoop.AppendTests | src/05_metrics_rq3.py:149-199 | appends the duration rank-sum row, the chi-square row and the comment rank-sum row, in that order, each exactly when its guard holds |
| ClosedLoop.Results | src/05_metrics_rq3.py:57-203 | `results` starts with the proportion row, holds a row iff it is expected (both merge-rate rows always, a descriptive row per non-empty sample with its count, a rank-sum row iff both samples are non-empty, the chi-square row iff the contingency table has a cell), in emission order |
| ClosedLoop.AppendComparedRow | src/05_metrics_rq3.py:237-251 | appends one summary row: the six cells of the compared metric when compared, six "N/A" otherwise, earlier rows unchanged |
| ClosedLoop.ProportionSummary | src/05_metrics_rq3.py:217-234 | the summary starts with the proportion row: the proportion under the closed-loop median, "N/A" in the other five columns |
| ClosedLoop.AppendMergeRow | src/05_metrics_rq3.py:255-261 | appends the merge-rate row: both merge rates, the chi-square p-value only when the test ran, "N/A" elsewhere, earlier rows unchanged |
| ClosedLoop.SummaryFor | src/05_metrics_rq3.py:217-279 | for the three guards: four rows in the fixed order, all seven columns of length 4, each row's cells as the source writes them; a compared row holds "N/A" iff its comparison did not run; the merge p-value is "N/A" iff the test did not run; every shown quantity sits in its own metric's row |
| ClosedLoop.ComparedAllOrNothing | src/05_metrics_rq3.py:237-278 | a compared row has an "N/A" iff the comparison did not run, is then all "N/A", and shows only quantities of its own metric |
| ClosedLoop.BuildSummary | src/05_metrics_rq3.py:217-279 | the summary has the four metric names in order and equal-length columns; the proportion row is "N/A" everywhere except the closed-loop median; the duration and comment rows contain "N/A" iff one of their samples is empty, and are then all "N/A"; the merge p-value is "N/A" iff the chi-square test did not run; every shown quantity sits in its own metric's row |

## Left out

- Reading and writing parquet and CSV files, `print` logging, directory creation, and `src/06_visualizations.py` and `src/paths.py`. These are I/O with no decision logic.
- The statistics: median, mean, std, quantiles, Mann-Whitney U, chi-square, Cliff's delta, and the `.2f` / `.2%` / `.4f` formatting. These are floating-point library calls. A summary cell records which quantity it shows, not its text.
- The RQ2 resolution and merge-rate analysis that follows the category statistics in `src/04_metrics_rq2.py` (line 205 onward). It is not part of this model.
- The percentage columns of `category_stats` and `sentiment_by_category` (`round(2)` of a float ratio). The model keeps the integer counts.
- `Text.Lower` lower-cases ASCII letters only. Python's `str.lower` also folds non-ASCII letters.
- pandas `groupby` orders its keys by sort order. `Preprocess.Keys` uses first-appearance order instead, and `Preprocess.GroupOrderIrrelevant` shows that the map does not depend on the order of the groups.
- The unused `pr_reviews_auto` selection (`src/02_preprocess.py:54`).
- Columns overwritten in place (the login columns, `reviewer_type`, `status`, `is_ai`, `categories`, `sentiment`) are modelled as values computed from the table. The in-place update of the shared table is not modelled.
- A comment table without a `pr_id` column, or with its own `author_type` column, makes the source fail with a key error. `Preprocess.Rq2Join` and `Preprocess.Rq2Data` require `author_type` to be absent, and a missing `pr_id` reads as a missing cell that joins nothing.
- The row order of the inner join follows the comment order and then the `pr_clean` order. Only which rows the join holds is proved, not their order.
- CommentExpansion.SentimentCount: also gives counts (all 0) for an empty expansion, where the source has already stopped at the `category_stats` key error (`CommentExpansion.CategoryStats` is `None` there).
- The percentages divide by the number of RQ2 comments; `CommentExpansion.StatsFailOnlyWithoutComments` shows that divisor is non-zero whenever the statistics exist.
- `ClosedLoop.MergedBounded` and `ClosedLoop.Proportion` use Dafny reals. Float rounding is not modelled.
