# Movie streaming ETL and analytics — a Dafny model

This project models the data-processing core of a small movie-streaming
analytics pipeline and proves properties of it in Dafny.

Two core stages come from `etl_pipeline.py`:

- `clean_data` fills and drops missing values in three tables: the watch logs, the movie catalogue and the users.
- `transform_data` builds the analytical tables from them:
  - the watch summary, with a completion ratio per watch;
  - per-user engagement, with an engagement level;
  - genre popularity per country;
  - daily and weekly active users.

The aggregations that `data_analysis.py` computes over those tables are modelled too:

- retention by signup cohort;
- the genre popularity ranking and its "top five + Others" pie slices;
- chart title shortening;
- DAU/WAU stickiness;
- the top genre of each country, and the countries each genre dominates;
- the cells of the Excel executive summary.

## How the model is laid out

- Tables are sequences of record datatypes (`tables.dfy`).
- A nullable cell is an `Option`.
- Timestamps and dates are integer day numbers.
- `datetime.now()`, the ISO calendar (`isoWeek`) and the month of a date (`monthOf`) are parameters.
- `grouping.dfy` defines pandas' group-by, `nunique`, `sum`, `size`, the left merge and the inner merge once, generically over a key function. The other modules use them from there.
  - A group-by over a key function drops rows whose key is missing, as pandas does.
  - Its groups come in first-appearance order.
- Float division is modelled as IEEE division (`Division.Divide`): a nonzero number over zero is an infinity, and 0/0 is NaN (`None`).
  - The source relies on this.
  - `(watch_time / duration).clip(0, 1)` turns an infinity into 0 or 1.
  - `pd.cut` puts `+inf` in the top bin.
- Source code that mutates state is modelled as imperative Dafny:
  - `Cleaning.CleanData` overwrites the columns of the caller's tables in place; here they are arrays.
  - `GenreCountryAnalysis.GenreCountries` builds the `genre_countries` dict in a loop.
  - `ExcelExport.ExportToExcel` fills a `Sheet` object. Each section is a loop with the source's row counter. The genre and region loops keep its `row < 13` and `row < 24` guards, and the recommendations keep its `[:8]` slice. Merged ranges are formatting only in this export, which is the corrected export of "## Findings".
  - `ExcelMerges` (`excel_merges.dfy`) runs the same cell assignments, with the source's `merge_cells` steps between them, under openpyxl's rule for merged ranges. Merging A{r}:G{r} makes B{r} to G{r} read-only, and an assignment to one of them raises. This is the export as written.
  - Each such method is proved equal to a function of its inputs, and the properties are lemmas about those functions.

Behaviour of the code that is easy to misread; the model follows the code:

- Engagement bins are right-closed:
  - the bins are (0, 30], (30, 120] and (120, inf];
  - an average daily watch of 0, a negative one, or minus infinity gets no level;
  - plus infinity (a zero-day signup with positive watch time) is Heavy.
- The duration fallback median (etl_pipeline.py:98) is taken over the duration column after the genre-median fill.
  - It is not taken over the originally measured durations alone.
- A watch whose movie duration is 0 gets completion 1 (or 0 for a negative watch time) from the clip of an infinity. It is not left missing.
  - Only 0/0 and missing inputs give a missing completion (`Transform.Completion`).
- The pipeline's own user_engagement table only holds users with at least one watch.
  - So every cohort's retention rate computed from it is 1 (`EngagementAnalysis.RetentionOfPipelineIsFull`).

## Model

| member | source | states |
|---|---|---|
| Cleaning.FillWatchTime | etl_pipeline.py:85 | a missing watch_time becomes 0; a present one is kept; no other field changes |
| Cleaning.DropMissingKeys | etl_pipeline.py:87 | never more rows than the input; a single row survives exactly when it has both user_id and movie_id |
| Cleaning.DropMissingKeysSurvivors | etl_pipeline.py:87 | exactly the rows with both user_id and movie_id survive, unchanged, with their multiplicity |
| Cleaning.DropMissingKeysConcat | etl_pipeline.py:87 | dropping distributes over concatenation, so the survivors keep their original order |
| Cleaning.CleanLogsReady | etl_pipeline.py:85-87 | every cleaned watch row has both join keys and a watch time |
| Cleaning.FillGenre | etl_pipeline.py:91 | a missing genre becomes "Unknown"; a present one is kept |
| Cleaning.Durations | etl_pipeline.py:93-98 | the measured durations; empty exactly when no movie has one |
| Cleaning.GenreDurations | etl_pipeline.py:95 | the measured durations of one genre; empty exactly when that genre has none |
| Cleaning.DurationsContents | etl_pipeline.py:97-98 | the values the overall median is taken from: each duration as often as the rows that measure it |
| Cleaning.OverallMedian | etl_pipeline.py:97-98 | no contract; the median of the duration column after the genre-median fill, and its properties are Cleaning.DurationFill, Cleaning.NoMissingDuration and Cleaning.DurationsStayInRange |
| Cleaning.GenreDurationsContents | etl_pipeline.py:95 | the values a genre median is taken from: each duration as often as the rows of that genre that measure it |
| Cleaning.GenreMedian | etl_pipeline.py:95 | the genre-median transform is defined exactly for a row with a genre that has measured durations |
| Cleaning.FillDurations | etl_pipeline.py:96 | fillna with a column, row by row: present durations kept, missing ones take the aligned value |
| Cleaning.FillDurationsInPlace | etl_pipeline.py:96 | the in-place column assignment yields FillDurations of the old column |
| Cleaning.ApplyInPlace | etl_pipeline.py:85 | an in-place column assignment applies the row function to every row and nothing else |
| Cleaning.CleanMovies | etl_pipeline.py:89-98 | row count, ids, titles and years are preserved; every genre is present, with "Unknown" for missing ones |
| Cleaning.DurationFill | etl_pipeline.py:94-98 | a measured duration is kept; a missing one takes its genre's median if the genre has measured durations, else the overall median after the genre fill |
| Cleaning.NoMissingDuration | etl_pipeline.py:97-98 | once any movie has a measured duration, no duration is missing after cleaning |
| Cleaning.DurationsStayInRange | etl_pipeline.py:95-98 | every filled duration lies within any range bounding the measured ones |
| Cleaning.FillCountry | etl_pipeline.py:104 | a missing country becomes "Unknown"; a present one is kept |
| Cleaning.FillAgeGroup | etl_pipeline.py:106 | a missing age group becomes "Unknown"; a present one is kept |
| Cleaning.CleanUsers | etl_pipeline.py:103-106 | each user row keeps its fields, with country and age group filled with "Unknown" |
| Cleaning.CleanData | etl_pipeline.py:66-109 | the three tables after the stage: watch_time filled in place, logs without keys dropped, movies and users cleaned in place |
| Stats.Median | etl_pipeline.py:95-98 | Series.median is defined exactly for a nonempty column |
| Stats.MedianWithinBounds | etl_pipeline.py:95-98 | a median lies within any bounds on the values |
| Stats.MedianOrderIndependent | etl_pipeline.py:95 | the median does not depend on row order |
| Stats.Sort | etl_pipeline.py:95 | the sorted column is ascending and a permutation of the input |
| Division.Divide | etl_pipeline.py:148 | float division: NaN exactly for 0/0, an infinity of the numerator's sign over 0, the exact quotient otherwise |
| Division.Clip | etl_pipeline.py:148 | clip(0, 1) keeps values in range and maps values below, above and infinities to the nearest bound |
| Transform.WithMovie | etl_pipeline.py:132-137 | a merged row carries the watch row and the matched movie's columns, or missing ones without a match |
| Transform.WithUser | etl_pipeline.py:140-145 | a merged row carries the enriched row and the matched user's columns, or missing ones without a match |
| Transform.FullData | etl_pipeline.py:132-145 | the left merges never lose a watch row |
| Transform.FullDataRows | etl_pipeline.py:132-145 | with unique movie and user ids, full_data has one row per watch row, in order, joined to the looked-up movie and user |
| Grouping.LeftJoinUnique | etl_pipeline.py:132-145 | a left merge on a unique right key keeps each left row once, in order, combined with its match or with nothing |
| Transform.Completion | etl_pipeline.py:148 | completion lies in [0, 1]; it is defined exactly when both inputs are present and not 0/0; it is the clipped ratio, and 1 or 0 over a zero duration |
| Transform.Summarize | etl_pipeline.py:151-152 | a watch_summary row holds the full_data row's selected columns and its completion |
| Transform.WatchSummary | etl_pipeline.py:151-152 | one summary row per full_data row, in order |
| Transform.UserTotalsTable | etl_pipeline.py:156-167 | one row per distinct present user_id, with that user's summed watch time and row count |
| Transform.DaysSinceSignup | etl_pipeline.py:178-179 | days since signup are defined exactly for a known signup date, and signup plus days is now |
| Transform.AvgDailyWatch | etl_pipeline.py:182-183 | watch time over days, with NaN filled by 0 and a positive or negative time over zero days an infinity |
| Transform.EngagementLevel | etl_pipeline.py:186-192 | each level holds exactly for its right-closed bin; no level exactly for non-positive averages and minus infinity |
| Transform.Engage | etl_pipeline.py:169-192 | a user_engagement row: the aggregates, the user's columns or missing ones, and the derived days, average and level |
| Transform.UserEngagement | etl_pipeline.py:156-192 | no contract; the user totals left-merged to users and derived by Engage, and its properties are Transform.EngagementRows, Transform.EngagementCoversUsers and Transform.EngagementConservesTotals |
| Transform.EngagementRows | etl_pipeline.py:156-175 | with unique user ids, user_engagement has one row per watching user, with watch_count = row count >= 1 and watch_time = summed time |
| Transform.EngagementCoversUsers | etl_pipeline.py:156-175 | every user id present in full_data appears in user_engagement |
| Transform.EngagementConservesTotals | etl_pipeline.py:156-167 | watch_count sums to the rows with a user id; watch_time sums to their total watch time |
| Grouping.GroupSizesAddUp | etl_pipeline.py:159 | the group sizes of a group-by add up to the number of rows with a key |
| Grouping.GroupSumsAddUp | etl_pipeline.py:156 | the group sums of a group-by add up to the sum over the rows with a key |
| Transform.GenreCountryCounts | etl_pipeline.py:196 | one row per (country, genre) present, holding its group size, which is at least 1 |
| Transform.CountryTotalAtLeast | etl_pipeline.py:205 | a country's total is at least each of its rows' counts |
| Transform.Normalise | etl_pipeline.py:204-214 | popularity_score is watch_count over the (positive) country total; other columns are kept |
| Transform.GenreTrends | etl_pipeline.py:196-217 | no contract; the normalised group counts, and its properties are Transform.PopularitySumsToOne, Transform.PopularityBounds and Transform.TrendCountsConserved |
| Transform.SharesSumToOne | etl_pipeline.py:205-214 | over any count table a country's scores sum to 1 |
| Transform.PopularitySumsToOne | etl_pipeline.py:196-217 | the popularity scores of each country in genre_trends sum to 1 |
| Transform.PopularityBounds | etl_pipeline.py:214 | every popularity score lies in (0, 1] |
| Transform.TrendCountsConserved | etl_pipeline.py:196 | the counts sum to the rows with both country and genre, and each (country, genre) pair occurs once |
| Transform.DailyActiveUsers | etl_pipeline.py:221-224 | one row per date present, holding the number of distinct users of that date |
| Transform.WeeklyActiveUsers | etl_pipeline.py:227-231 | one row per ISO week present, holding the number of distinct users of that week |
| Transform.DauBounds | etl_pipeline.py:221-231 | a day's active users are at most its row count and at most its week's active users, and its week is in the weekly table |
| Transform.TransformData | etl_pipeline.py:115-237 | the five outputs are the tables defined above; with unique ids the summary has one row per watch; every completion is in [0, 1] |
| EngagementAnalysis.Cohort | data_analysis.py:68-73 | total_users and active_users are the cohort's user count (>= 1) and its count with watch_count > 0; the rate is their ratio, in [0, 1] |
| EngagementAnalysis.CohortActivity | data_analysis.py:69-73 | one cohort row per signup month present |
| EngagementAnalysis.ActiveMeansWatched | data_analysis.py:71 | a user counts as active in a cohort exactly when it is in that cohort and has watched |
| EngagementAnalysis.RetentionOfPipelineIsFull | data_analysis.py:68-73 | over the pipeline's user_engagement table every retention rate is 1 |
| ContentAnalysis.GenreSizes | data_analysis.py:104 | one entry per genre present, holding its row count |
| ContentAnalysis.SortByCount | data_analysis.py:104 | the value counts in non-increasing order of count, a permutation of the entries |
| ContentAnalysis.GenrePopularityEntries | data_analysis.py:104 | value_counts is non-increasing, each count is its genre's row count (>= 1), and every genre present has an entry |
| ContentAnalysis.GenrePopularity | data_analysis.py:104 | no contract; value_counts as the genre sizes sorted by count, and its properties are ContentAnalysis.GenrePopularityEntries, GenrePopularityCounts, GenrePopularityCovers, GenrePopularityDistinct and GenrePopularityTotal |
| ContentAnalysis.GenrePopularityCounts | data_analysis.py:104 | each value count is its genre's row count, at least 1 |
| ContentAnalysis.GenrePopularityCovers | data_analysis.py:104 | every genre occurring in a row has an entry |
| ContentAnalysis.GenrePopularityDistinct | data_analysis.py:104 | no genre has two entries |
| ContentAnalysis.GenrePopularityTotal | data_analysis.py:104 | the counts add up to the rows with a genre |
| ContentAnalysis.Head | data_analysis.py:112 | head(5) is the prefix of length min(5, n) |
| ContentAnalysis.OthersCount | data_analysis.py:113 | iloc[5:].sum() is 0 for at most five entries and the total of the rest otherwise |
| ContentAnalysis.SetEntryGet | data_analysis.py:117 | the merged dict maps "Others" to its count and leaves every other label unchanged |
| ContentAnalysis.PieConservesTotal | data_analysis.py:112-117 | unless a top-five genre is called "Others", the slices add up to all counts |
| ContentAnalysis.PieSlices | data_analysis.py:112-117 | no contract; the top five plus an "Others" slice when the rest is positive, and its properties are ContentAnalysis.PieConservesTotal, PieShape and OthersSliceWhenMoreThanFive |
| ContentAnalysis.PieShape | data_analysis.py:112-117 | at most six slices, the first being the top five genres |
| ContentAnalysis.OthersSliceWhenMoreThanFive | data_analysis.py:113-117 | an "Others" slice appears exactly when there are more than five genres (or one is so named), holding the rest's total |
| ContentAnalysis.ShortTitle | data_analysis.py:174 | titles under 15 characters are kept, longer ones cut to 12 plus "...", never longer than 15 |
| ContentAnalysis.ShortTitleStable | data_analysis.py:174 | shortening is idempotent and preserves the first 12 characters |
| ActivityAnalysis.WeekMean | data_analysis.py:220-224 | a week's mean DAU is the sum of its daily counts over its (positive) number of days |
| ActivityAnalysis.AvgDauPerWeek | data_analysis.py:224 | one mean per ISO week present in the DAU table |
| ActivityAnalysis.WeekMeanWithin | data_analysis.py:224 | a week's mean lies between 0 and any bound on its daily counts |
| Grouping.InnerJoinRows | data_analysis.py:227-232 | an inner merge holds a combined row for every matching pair, and only such rows |
| ActivityAnalysis.StickinessRows | data_analysis.py:227-235 | every stickiness row comes from a week in both tables, holding DAU mean / WAU; every such week has a row |
| ActivityAnalysis.Stickiness | data_analysis.py:227-235 | no contract; the inner merge of the weekly DAU means with WAU, and its properties are ActivityAnalysis.StickinessRows and StickinessOfPipelineAtMostOne |
| ActivityAnalysis.StickinessOfPipelineAtMostOne | data_analysis.py:220-235 | over the pipeline's DAU and WAU tables every stickiness is in [0, 1], or NaN for a zero WAU |
| ActivityAnalysis.Mean | data_analysis.py:238 | Series.mean skips NaN: missing for no values or both infinities, an infinity when only that one occurs, else the arithmetic mean |
| ActivityAnalysis.MeanWithin | data_analysis.py:238 | a finite mean of values in [0, hi] lies in [0, hi] |
| ActivityAnalysis.AverageStickiness | data_analysis.py:238 | no contract; Mean of the stickiness column, and its property is ActivityAnalysis.AverageStickinessOfPipeline |
| ActivityAnalysis.AverageStickinessOfPipeline | data_analysis.py:238 | over the pipeline's tables the average stickiness is missing or in [0, 1] |
| GenreCountryAnalysis.FirstMax | data_analysis.py:367 | idxmax of a country: none exactly without rows; the row of largest count, strictly above every earlier row of the country |
| GenreCountryAnalysis.TopIndex | data_analysis.py:367 | the first row of the country with the largest watch count |
| GenreCountryAnalysis.TopGenres | data_analysis.py:367 | one top row per country present |
| GenreCountryAnalysis.TopGenresAreMaximal | data_analysis.py:367 | a top row is a row of genre_trends, with a watch count no smaller than any row of its country |
| GenreCountryAnalysis.TopGenresOnePerCountry | data_analysis.py:367 | the top rows have distinct countries and cover every country |
| GenreCountryAnalysis.TopCountry | data_analysis.py:367 | the i-th top row is for the i-th country, with that country's top genre |
| GenreCountryAnalysis.CountriesOf | data_analysis.py:409 | the countries listed for a genre are exactly those whose top row has that genre |
| GenreCountryAnalysis.TopGenreByCountry | data_analysis.py:443 | the i-th pair is the country and genre of the i-th top row; with GenreCountryAnalysis.TopGenresOnePerCountry the countries are distinct, so the dict loses nothing |
| GenreCountryAnalysis.GenreCountries | data_analysis.py:407-411 | the loop builds the map of each unique genre with a nonempty country list to that list |
| GenreCountryAnalysis.GenreCountriesInverse | data_analysis.py:407-411 | every listed country list is nonempty, each country is listed under its top genre, and only there |
| ExcelExport.Sheet.Put | data_analysis.py:713 | a cell assignment replaces exactly that cell |
| ExcelExport.EngagementWrites | data_analysis.py:710-716 | the engagement section fails exactly when it has levels and their counts total zero |
| ExcelExport.WriteEngagement | data_analysis.py:710-716 | the row loop performs the section's writes, or stops with A5 and B5 written at the first division by a zero total |
| ExcelExport.PercentagesSumTo100 | data_analysis.py:711-715 | with a positive total the engagement percentages add up to 100 |
| ExcelExport.EngagementShape | data_analysis.py:710-716 | the rows of n engagement levels are rows 5 to 4 + n |
| ExcelExport.EngagementRowAt | data_analysis.py:710-716 | level i is written to row 5 + i with its name, count and percentage |
| ExcelExport.WriteGenres | data_analysis.py:723-729 | the guarded loop performs the genre section's writes |
| ExcelExport.GenreShape | data_analysis.py:723-729 | exactly min(3, n) genre rows are written, all in rows 10 to 12 |
| ExcelExport.GenreRowAt | data_analysis.py:723-729 | genre i of the first three is written to row 10 + i, with its count and completion percentage (0 if unknown) |
| ExcelExport.WriteActivity | data_analysis.py:737-748 | the metric loop writes each label and value pair to consecutive rows from 15 (merged ranges as formatting only) |
| ExcelExport.MetricLayout | data_analysis.py:744-748 | the four metrics occupy rows 15 to 18 |
| ExcelExport.WriteRegions | data_analysis.py:754-759 | the guarded loop performs the region section's writes |
| ExcelExport.RegionShape | data_analysis.py:754-759 | exactly min(4, n) country rows are written, all in rows 20 to 23 |
| ExcelExport.RegionRowAt | data_analysis.py:754-759 | country i of the first four is written to row 20 + i with its top genre |
| ExcelExport.Numbered | data_analysis.py:764 | a recommendation line is three characters longer than the text: the digit of its position from 1, then ". ", then the text |
| ExcelExport.NumberedInjective | data_analysis.py:764 | different positions or texts give different lines: the line gives back both |
| ExcelExport.RecommendationRows | data_analysis.py:762-766 | one written row per recommendation shown |
| ExcelExport.WriteRecommendations | data_analysis.py:762-766 | the loop over the first eight recommendations writes them from row 25 |
| ExcelExport.RecommendationLayout | data_analysis.py:762-766 | at most eight recommendations, numbered from 1, in rows 25 to 32 |
| ExcelExport.WritePreamble | data_analysis.py:679-708 | the title, the five section headers and the engagement column labels are written |
| ExcelExport.ExportToExcel | data_analysis.py:671-782 | with merged ranges as formatting only (the fourth metric's label overwrites the "Regional Trends" header in A18): the saved sheet is the result of all section writes in order, or nothing is saved when the engagement percentage divides by zero |
| ExcelExport.ExportedCells | data_analysis.py:671-782 | no contract; the corrected export's saved sheet, and its properties are ExcelExport.ExportedGenreRow, ExportedRegionRow and ExportedPeakHour, with ExportToExcel proved equal to it |
| ExcelExport.ExportedGenreRow | data_analysis.py:719-759 | in the saved sheet, rows 10 to 12 still show the first three genres: no later section overwrites them |
| ExcelExport.ExportedPeakHour | data_analysis.py:737-748 | with merged ranges as formatting only, row 18 of the saved sheet shows "Peak Viewing Hour" and the peak hour; the label overwrites the "Regional Trends" header in A18 |
| ExcelMerges.CoveredBy | data_analysis.py:700 | merging A{r}:G{r} covers B{r} to G{r} but not the top-left A{r} |
| ExcelMerges.Step | data_analysis.py:696-701 | an assignment raises exactly when its cell is covered by an earlier merge; a merge clears and covers B to G of its row |
| ExcelMerges.Run | data_analysis.py:671-782 | a run that has not raised has covered exactly the cells of the merges performed |
| ExcelMerges.RunStaysFailed | data_analysis.py:781-782 | once a step raises, no later step runs and nothing is saved |
| ExcelMerges.BlockedAssign | data_analysis.py:696-747 | an assignment to a cell that an earlier merge covers makes the export fail |
| ExcelMerges.ExportAsWrittenNeverSaves | data_analysis.py:685-782 | as written, no report is ever saved: the peak hour's B18 lies in the merged A18:G18 header |
| ExcelMerges.ExportAsWritten | data_analysis.py:671-782 | no contract; the export as written, merges included, and its property is ExcelMerges.ExportAsWrittenNeverSaves |
| ExcelExport.ExportedRegionRow | data_analysis.py:751-766 | in the saved sheet, rows 20 to 23 still show the first four countries: the recommendations start below |

## Left out

- Extraction and loading: reading the CSV files, writing the SQLite database, the sample-data generator and the orchestration and logging. These are I/O; the model starts from in-memory tables.
- Timestamp and date parsing (`pd.to_datetime`): timestamps are integer day numbers and the ISO week and month of a day are parameters, as is `datetime.now()`.
- Transform.DaysSinceSignup: the whole days since signup are the difference of day numbers. The source floors the exact time difference (etl_pipeline.py:178-179), which is one day less when the signup's time of day is later than now's. For example, a signup at 18:00 on day 9 with now at 09:00 on day 10 gives 0 days in the source, so an infinite average and the level Heavy. The model gives 1 day and the average watch_time / 1.
- The hour of day of a timestamp and the peak viewing hour: the export takes the peak hour as an input.
- `pd.to_numeric(..., errors='coerce')` on durations: durations are already numbers or missing, so the coercion of non-numeric text to NaN is not modelled.
- The join keys of the movie and user tables are never missing in the model; pandas would match a NaN key to a NaN key in a merge.
- Group order: groups come in first-appearance order, whereas pandas sorts group keys. Every table holds the same rows, but the row order differs. Because `GenreCountryAnalysis.FirstMax` takes the first maximum in row order, the order also decides ties. When two genres of a country have the same largest count, pandas' idxmax over genre_trends sorted by (country, genre) picks the alphabetically first genre. The model picks the genre whose (country, genre) pair occurs first in full_data. So `GenreCountryAnalysis.TopGenres` can name a different genre from the source on such ties, and so can `GenreCountries` and `TopGenreByCountry`, which are built from it.
- ContentAnalysis.GenrePopularity: value_counts' order among genres with equal counts is the stable order of first appearance; pandas does not promise one.
- GenreCountryAnalysis.GenreCountries: the genre_countries dict is a Dafny `map`, which has no key order. In the source, iterating it (the print loop at data_analysis.py:413-415) follows insertion order. That order is the order of `genre_trends['genre'].unique()`, restricted to genres with countries, i.e. `Distinct(Genres(trends))` filtered. The map's keys and values are modelled, but this order is not.
- GenreCountryAnalysis.TopGenreByCountry: the country-to-genre dict is kept as the sequence of (country, genre) pairs, in country order; countries are distinct (`TopGenresOnePerCountry`), so nothing is lost.
- The country_top_genre table (etl_pipeline.py:199-201) is computed and never used by the source, so it is not modelled.
- Floating point: numbers are exact reals. ExcelExport.Report holds the average DAU, WAU and stickiness as plain numbers, so the NaN that `ActivityAnalysis.Mean` and `AverageStickiness` return (as `None`) for an empty table is not carried to the sheet, where the source writes "nan". Rounding of sums, means and ratios, and the `:.1f`/`:.2f` text formatting of the Excel cells, are not modelled (cells hold the numbers).
- Cell styling (fonts, fills, alignment), column widths, the file name and the `ImportError` branch of the export; the charts, the HTML and JSON reports and the backup copy of the analysis script.
- The rest of the analysis functions (age-group averages, top content by watch time, engagement_counts, the recommendation texts): not part of the modelled core. The report values the export shows (distribution, genre completion, averages, peak hour, recommendations) are its inputs.
- ExcelExport.WriteEngagement: a distribution with more than three levels puts its fourth count in B8. The source raises there, because B8 lies in the merged header A8:G8 (`ExcelMerges.Run`). The corrected export instead writes over A8 to C8 and into row 9, whose labels the next section then overwrites. The source only produces three levels (Light, Medium, Heavy), so no lemma about the saved engagement rows is stated.
- ExcelExport.ExportToExcel / ExcelExport.WriteActivity: these model the export with merged ranges as formatting only. In the source every run fails at the B18 assignment, and the except clause at data_analysis.py:781 skips `wb.save` (`ExcelMerges.ExportAsWrittenNeverSaves`; see "## Findings"). The corrected export's sheet does not show the "Regional Trends" header: A18 is written again by the fourth metric's label (`ExcelExport.ExportedPeakHour`).

## Findings

| source | as written | input that shows it | evidently intended | confidence | as-written member | corrected member |
|---|---|---|---|---|---|---|
| data_analysis.py:685-747 | The "Regional Trends" header is written to A18 and merged over A18:G18. The fourth activity metric, "Peak Viewing Hour", then goes to row 18, and `ws['B18'] = value` assigns to a read-only merged cell. openpyxl raises, the except clause at line 781 catches it, and `wb.save` at line 775 never runs. | Any report, for example three engagement levels with positive counts, no genres, no countries and no recommendations. | The summary is saved with all four activity metrics in rows 15 to 18. The corrected export saves it, but because the activity and regional sections both use row 18, the label "Peak Viewing Hour" overwrites the "Regional Trends" header in A18. The model does not move either section to keep both. | not executed; high for openpyxl's read-only `MergedCell.value` | ExcelMerges.ExportAsWrittenNeverSaves | ExcelExport.ExportedPeakHour |
