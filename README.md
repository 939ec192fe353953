# Customer feedback pipeline — a verified model of its deterministic core

This project models the row and aggregate logic of a customer-feedback
analysis app. The app:

1. normalises an arbitrary uploaded table into the schema
   `text, id, date, source, rating`;
2. drops rows with blank text;
3. classifies each row's sentiment from its rating;
4. embeds the texts in batches of 100 and clusters them with KMeans;
5. names each cluster, either `"Theme <id>"` or a short label from a chat model;
6. aggregates the themes into priority-ranked metrics, a weekly trend table
   and a per-theme deep dive;
7. selects the top themes and their evidence for an executive summary.

The table is a `seq` of records (`Records.Row`, `Records.Clustered`,
`Records.Themed`). Dates are day numbers (day 0 is 1970-01-01). An absent
cell (NaN, NaT or NA) is `None`.

Three services are parameters of the model, not implementations:

- the embedding service (`Embed.Service`);
- the chat service (`Label.Chat`, `Insights.SummaryChat`);
- the KMeans fit (`Cluster.KMeans`).

A request that raises is a `None` answer.

## Modules

- `Ingest`: `normalize_any_csv`, including the `\d+\.?\d*` rating scanner.
- `Clean`: `clean_feedback`.
- `Embed`: `embed_texts`, its batching loop written as a method with loop invariants.
- `Cluster`: `cluster_embeddings`, the cluster-count clamp.
- `Label`: `label_clusters_with_llm`, the per-cluster loop as a method, and the label truncation.
- `Insights`: `add_week_bucket`, `theme_metrics`, and the top-theme and evidence selection of `exec_summary_and_actions` (its evidence loop is a method).
- `App`: the script's rules (app.py:107-135, 155, 164-175) and the order in which it runs the stages.

Four modules support the others:

- `Text` gives Python's `strip`, `split`, `" ".join`, `str(int)` and string order.
- `Sorting` and `Groups` give pandas' sorted group keys and row selection.
- `Wrappers` gives `Option` and `Result`.

## Model

| member | source | states |
|---|---|---|
| Ingest.NormalizeAnyCsv | pipeline/ingest.py:15-42 | One row per input row, in order. Row `i` has id `i+1`. `text` is the stringified cell (a missing cell reads "nan"). Without a usable date column every date is the single `today`; with one, each date is the parsed cell (absent when unparseable). Without a source column every source is "unknown"; with one, it is the stringified cell. Without a rating column every rating is absent; with one, it is the scanned number |
| Ingest.ScanNumber | pipeline/ingest.py:37-38 | The rating is absent exactly when the cell has no decimal digit |
| Ingest.LeadingDigits | pipeline/ingest.py:38 | The greedy `\d+`: the longest all-digit prefix, followed by a non-digit or the end |
| Ingest.FirstDigit | pipeline/ingest.py:38 | The leftmost place the match can start: no digit before it, and a digit at it unless at the end |
| Ingest.ScanNumberSkips | pipeline/ingest.py:38 | Non-digit characters before the first digit (such as a sign) do not change the rating |
| Ingest.ScanNumberAtDigit | pipeline/ingest.py:38 | On a string that starts with a digit, the match starts there |
| Ingest.NumberAtWithPoint | pipeline/ingest.py:38 | Digits, a point and digits, followed by a non-digit, read as whole part plus fraction |
| Ingest.NumberAtWhole | pipeline/ingest.py:38 | Digits followed by neither a digit nor a point read as a whole number |
| Ingest.ScanNumberOfNatToString | pipeline/ingest.py:38 | Scanning the decimal rendering of a whole number gives the number back |
| Ingest.ScanNumberStars | pipeline/ingest.py:35-38 | "5 stars" gives 5 |
| Ingest.ScanNumberOutOf | pipeline/ingest.py:35-38 | "4/5" gives 4 |
| Ingest.ScanNumberDecimal | pipeline/ingest.py:35-38 | "4.5" gives 4.5 |
| Ingest.ScanNumberSign | pipeline/ingest.py:35-38 | "-2" gives 2, because the sign is ignored; "nan" gives absent |
| Clean.CleanRow | pipeline/clean.py:13-19 | A surviving row keeps text, id, date and rating. An absent source becomes "unknown"; a present one is unchanged |
| Clean.Keeps | pipeline/clean.py:10 | The row mask holds exactly when the text has a non-whitespace character |
| Clean.Kept | pipeline/clean.py:10 | A row yields at most one output row, its cleaned form |
| Clean.CleanFeedback | pipeline/clean.py:3-21 | The output is no longer than the input, and every output row has non-blank text and a source |
| Clean.CleanSingle | pipeline/clean.py:10 | A row survives exactly when its text holds a non-whitespace character |
| Clean.CleanAppend | pipeline/clean.py:10 | Cleaning distributes over concatenation, so survivors keep their relative order |
| Clean.CleanMembers | pipeline/clean.py:10-19 | Every row with text is in the output (cleaned). Every output row is the cleaned form of such an input row |
| Clean.CleanIdempotent | pipeline/clean.py:3-21 | Cleaning a cleaned table changes nothing |
| Clean.IdsStayIncreasing | pipeline/clean.py:10 | Strictly increasing ids stay strictly increasing |
| Clean.IdsSubset | pipeline/clean.py:10 | Every output id is an input id |
| Clean.CleanIgnoresOtherFields | pipeline/clean.py:10-19 | Dates, ratings and sources never decide which rows survive |
| App.NormalizedIdsAfterCleaning | app.py:97-105 | After normalising and cleaning, ids are strictly increasing and lie in 1..N (dense no longer) |
| Text.TrimStart | pipeline/label.py:32 | `lstrip`: a suffix of the input, what is cut is whitespace, and it starts with a non-space |
| Text.TrimEnd | pipeline/label.py:32 | `rstrip`: a prefix of the input, what is cut is whitespace, and it ends with a non-space |
| Text.Strip | pipeline/label.py:32 | Empty exactly when the input has no non-whitespace character; otherwise it starts and ends with a non-space |
| Text.StripIsMiddleSlice | pipeline/label.py:32 | `strip()` keeps a middle slice of the input, and what it cuts on both sides is whitespace |
| Text.Split | pipeline/label.py:34 | `split()` gives non-empty tokens without whitespace |
| Text.SplitJoin | pipeline/label.py:34 | Splitting a single-space join of tokens gives the tokens back |
| Text.SplitStrip | pipeline/label.py:34 | `s.strip().split() == s.split()` |
| Text.JoinIsStripped | pipeline/label.py:34 | A join of tokens has nothing to strip |
| Text.NatToStringRoundTrip | app.py:129 | Reading back `str(n)` gives `n` |
| App.DefaultNamesDistinct | app.py:129 | Different cluster ids get different default names |
| Embed.EmbedTexts | pipeline/embed.py:12-20 | The loop returns the in-order concatenation of the responses (absent once a call raises). It makes exactly the calls `CallsMade`: the batches up to and including the first failure |
| Embed.Batches | pipeline/embed.py:12-16 | Every batch is non-empty and holds at most 100 texts |
| Embed.BatchAt | pipeline/embed.py:15-16 | Batch `j` is `texts[100j .. min(100j+100, n)]` |
| Embed.FlattenBatches | pipeline/embed.py:15-16 | Concatenating the batches gives the texts back |
| Embed.BatchCount | pipeline/embed.py:15-17 | There are ceil(n/100) batches, and none for no texts |
| Embed.CallsArePrefix | pipeline/embed.py:15-17 | The calls are the batches in order; every call but the last succeeded; the run stops only after a failure |
| Embed.AllCallsMade | pipeline/embed.py:15-17 | When no call fails, every batch is sent exactly once |
| Embed.CallsMade | pipeline/embed.py:15-17 | The calls the loop makes: the batches in order, up to and including the first that raises; never more than there are batches |
| Embed.EmbedAll | pipeline/embed.py:15-18 | The concatenation of every call's vectors in call order; present exactly when no call raises |
| Embed.EmbedAllLength | pipeline/embed.py:18-20 | With one vector per text in each response, there is one vector per text overall |
| Embed.BatchedEqualsUnbatched | pipeline/embed.py:15-20 | With a service that embeds texts one by one, the batched result equals one unbatched call, and row `i` is the vector of text `i` |
| Cluster.ClusterCount | pipeline/cluster.py:8-9 | `k` when N ≥ k; otherwise max(2, N) |
| Cluster.ClusterCountBounds | pipeline/cluster.py:8-9 | When clamped, the count is ≥ 2, and ≤ N when N ≥ 2. For k ≥ 2 it lies in 2..k |
| Cluster.ClusterEmbeddings | pipeline/cluster.py:8-12 | KMeans accepts exactly when 1 ≤ count ≤ N, and then the labels are the fit's |
| Cluster.ClusterLabels | pipeline/cluster.py:11-13 | With a sound fit, there is one label per row, each below the count |
| Cluster.ClusterCountTenOfFifteen | pipeline/cluster.py:8-9 | N = 10 and k = 15 give 10 clusters |
| Cluster.SingleRowFails | pipeline/cluster.py:8-12 | One row and k ≥ 2 give 2 clusters, which KMeans rejects |
| Cluster.ClusterAccepted | pipeline/cluster.py:8-12 | From two rows on, every k ≥ 1 is accepted |
| Label.LabelClustersWithLlm | pipeline/label.py:5-37 | Returns the mapping `LabelFrom` over the sorted cluster ids (absent when a request raises). Sends exactly the requests `RequestsFrom` |
| Label.LabelEach | pipeline/label.py:13-35 | The loop over the clusters, proved against `LabelFrom` and `RequestsFrom` |
| Label.LabelClusters | pipeline/label.py:13-37 | The mapping has exactly one key per distinct cluster id. Each value is the cut-down reply to that cluster's own request, of at most 5 tokens |
| Label.ClusterKeysMembers | pipeline/label.py:13 | The loop's keys are exactly the cluster ids present |
| Label.LabelFrom | pipeline/label.py:13-35 | The mapping the loop builds over the cluster ids in order, each storing the cut-down reply; present exactly when no request raises |
| Label.RequestsFrom | pipeline/label.py:13-30 | The requests the loop sends: one per cluster in order, up to and including the first that raises; never more than there are clusters |
| Label.LabelFromKeys | pipeline/label.py:13-35 | The keys are the clusters visited |
| Label.LabelFromValues | pipeline/label.py:32-35 | Each cluster's value is the cut-down reply to its own request |
| Label.RequestsPerCluster | pipeline/label.py:13-30 | Request `j` lists the examples of cluster `j` in ascending order. With no failure there is one request per cluster |
| Label.Examples | pipeline/label.py:14 | A request lists at most 10 texts: the first texts of that cluster, in table order |
| Label.ExamplesOfCluster | pipeline/label.py:14 | Every text a request lists is the text of a row of that cluster |
| Label.ThemeLabel | pipeline/label.py:32-34 | `" ".join(reply.strip().split()[:5])`: the label's tokens are the reply's first 5 tokens |
| Label.LabelShape | pipeline/label.py:32-34 | A label has at most 5 tokens and no surrounding whitespace; its tokens are joined by single spaces |
| Label.ShortReplyKept | pipeline/label.py:32-34 | A reply of at most 5 tokens keeps them all |
| Label.BlankReply | pipeline/label.py:32-34 | An all-whitespace reply gives "" |
| Label.LabelIdempotent | pipeline/label.py:32-34 | Cutting a label down again changes nothing |
| Insights.WeekStart | pipeline/insights.py:7 | The week of a day is the Monday that starts its Monday-to-Sunday week |
| Insights.WeekOfMonday | pipeline/insights.py:7 | Any day of the week that starts on Monday `m` is bucketed to `m` |
| Insights.SameWeek | pipeline/insights.py:7 | Two days share a week label exactly when they fall in the same Monday-to-Sunday week |
| Insights.Week | pipeline/insights.py:7 | An absent date gets the "NaT" week (None), and only an absent date does |
| Insights.AddWeekBucket | pipeline/insights.py:5-8 | Same rows in the same order, each with its week added |
| Insights.IsNegative | pipeline/insights.py:16 | 1 exactly when the rating is present and ≤ 2 |
| Insights.MeanRating | pipeline/insights.py:22 | Undefined exactly when no rating is present |
| Insights.MeanBounds | pipeline/insights.py:22 | The average of the present ratings lies between their bounds |
| Insights.NegativeRateBounds | pipeline/insights.py:16-23 | The rate lies in [0, 1] and never exceeds the share of rated rows, because unrated rows count in the denominator |
| Insights.PriorityScore | pipeline/insights.py:27-29 | Undefined exactly when the average is absent |
| Insights.Aggregate | pipeline/insights.py:18-29 | The metric row of one theme's rows: its count is the number of rows, its average the mean present rating, its negative rate in [0, 1], and its score undefined exactly when no rating is present |
| Insights.Metric | pipeline/insights.py:18-29 | The metric row of a theme present in the table: its count is the number of rows of that theme, between 1 and the table size |
| Insights.PriorityMonotone | pipeline/insights.py:27-29 | When the average is ≤ 6, the score is ≥ 0 and non-decreasing in the count |
| Insights.MetricExample | pipeline/insights.py:16-29 | Ratings 1, 5 and one absent give average 3, negative rate 1/3 and score 12 |
| Insights.ThemeKeys | pipeline/insights.py:19 | The groups are the distinct themes of the table |
| Insights.SortByPriority | pipeline/insights.py:30 | Scores are non-increasing with undefined scores last, and the output is a permutation of the input |
| Insights.ThemeMetrics | pipeline/insights.py:18-30 | One row per distinct theme, sorted by priority; a permutation of the per-theme metric rows |
| Insights.ThemeMetricsPartition | pipeline/insights.py:18-21 | The themes of the rows are the distinct themes, and the counts add up to the number of rows |
| Insights.ThemeMetricsRows | pipeline/insights.py:18-29 | Every row is the metric row of a theme present: its count, mean present rating, negative rate and score |
| Insights.Head | pipeline/insights.py:35 | `head(n)` is a prefix of length min(n, size) (for negative n, all but the last -n) |
| Insights.TopThemesRankFirst | pipeline/insights.py:30-35 | No theme left out of the summary ranks strictly above one in it |
| Insights.Evidence | pipeline/insights.py:46 | At most 3 texts: the first texts of that theme, in table order |
| Insights.EvidenceOfTheme | pipeline/insights.py:46 | Every evidence text is the text of a row of that theme |
| Insights.CollectEvidence | pipeline/insights.py:44-47 | The evidence loop yields each top theme's evidence, in order |
| Insights.ExecSummaryAndActions | pipeline/insights.py:32-68 | The request is made of the first `top_n` metric rows and their evidence. The summary is the stripped reply (absent when the request raises) |
| App.Sentiment | app.py:112-116 | "unknown" exactly when the rating is absent; "negative" exactly when ≤ 2; "neutral" exactly when = 3; "positive" for every other value |
| App.SentimentMatchesIndicator | app.py:115 | The "negative" sentiment and the metrics' negative indicator agree |
| App.WithClusters | app.py:112-127 | Row `i` gets its sentiment and the `i`-th cluster label |
| App.RowTexts | app.py:126 | The `text` column, in row order |
| App.DefaultThemeName | app.py:129 | `f"Theme {c}"`: "Theme " followed by decimal digits that read back as `c` |
| App.DefaultThemeMap | app.py:129 | Every value is "Theme " followed by the decimal cluster id |
| App.DefaultThemeMapKeys | app.py:129 | The keys are exactly the cluster ids present |
| App.AssignThemes | app.py:135 | Row `i`'s theme is the mapping's value for its cluster id |
| App.SameClusterSameTheme | app.py:135 | Rows of the same cluster get the same theme |
| App.DefaultThemesFollowClusters | app.py:129-135 | Under the default names, two rows share a theme exactly when they share a cluster |
| App.LabelsCover | app.py:131-135 | A labelled mapping covers every row's cluster id |
| App.KeyLtIsStrictTotal | app.py:155 | The (week, theme) order is a strict total order, with the "NaT" week after all dated weeks |
| App.TrendKeys | app.py:155 | The groups are the distinct (week, theme) pairs present, strictly sorted |
| App.TrendCounts | app.py:155 | One row per distinct (week, theme) pair, whose size is the number of rows with that pair |
| App.TrendRowsOf | app.py:155 | Each trend row carries its key and the number of rows with that key |
| App.TrendOrdered | app.py:155 | The trend table is ordered by week, then theme |
| App.TrendKeysPresent | app.py:155 | A pair is a group exactly when some row has it |
| App.TrendRowsPresent | app.py:155 | Every trend row is a present pair of size ≥ 1; missing pairs are absent, not zero |
| App.TrendRowsComplete | app.py:155 | Every pair present has a row |
| App.TrendTotal | app.py:155 | The sizes add up to the number of rows |
| App.DeepDive | app.py:165-175 | Shows the theme's row count. Average and negative % are N/A together, exactly when no rating in the theme is present. Otherwise they are the mean present rating and 100 × (rows rated ≤ 2) / (all rows of the theme) |
| App.RatedCountZero | app.py:170 | No rating is present exactly when the rated count is 0 |
| App.DeepDiveAgrees | app.py:168-175 | The deep dive's count and average equal the metrics table's, and its percentage is 100 × the negative rate. When it shows N/A, the table's rate is 0 |
| App.ClusterIdsBelow | app.py:126-127 | With a sound fit, every cluster id is below the clamped count |
| App.Clustering | app.py:126-127 | What embedding and clustering yield: absent when an embedding request raises; otherwise, when present, row `i` is input row `i` with its sentiment and the `i`-th label KMeans gives over the batched embeddings |
| App.ClusterRows | app.py:112-127 | The embedding calls are exactly `CallsMade` over the row texts. It succeeds exactly when `Clustering` yields rows, and then returns them, so the ids are the fit's labels over the embeddings, below the clamped count for a sound fit. It fails with `EmbeddingFailed` exactly when an embedding request raises. It succeeds whenever N ≥ 2, k ≥ 1, the fit is sound and the service answers one vector per row. Its failures are neither the empty-table stop nor the labelling error |
| App.LabelsFail | app.py:131-133 | Labelling fails exactly when it is switched on, a key is set, and the request for some cluster id present raises |
| App.Present | app.py:129-155 | The default mapping is used unless labelling is on and a key is set; then the labelled mapping is used. The mapping covers every row, and the themed table, metrics and trend are computed from it. It fails exactly when a labelling request raises |
| App.Analyze | app.py:107-155 | It stops with `NoRows` ("No valid rows after cleaning.") exactly when the cleaned table is empty, and then sends no embedding request; otherwise its embedding calls are `CallsMade` over the row texts, and it fails with `EmbeddingFailed` exactly when one of them raises. It succeeds exactly when the table is non-empty, embedding and clustering yield rows (`Clustering`) and labelling does not fail on them (`LabelsFail`: labelling on, a key set and a chat request raising); it fails with the labelling error exactly when the clustering succeeded and labelling fails. On success the clustered table is `Clustering`'s and the themes, metrics and trend are those of `Presented` |

## Left out

- I/O: Streamlit widgets, session state, charts, CSV reading and upload. The services' clients and the API-key lookup are reduced to the boolean `hasKey` and to function parameters.
- App.Analyze: `hasKey` is not linked to the embedding service `svc`. In the app the same key builds the embedding client (pipeline/embed.py:9), so without a key the run fails at app.py:126; the model admits a run with `hasKey` false and an answering `svc`.
- Date parsing: `pd.to_datetime` is the parameter `parseDate` (cell text to an optional day number), and `datetime.today()` is the parameter `today`.
- Ingest.NormalizeAnyCsv: the dtype distinction between NaN, NaT and `pd.NA` is not modelled; every one of them is `None`.
- Clean.CleanRow: the `astype(str)`, `to_datetime` and `to_numeric` coercions of clean.py:7, 13 and 16 are the identity on values the ingest step has already parsed. A table that reaches `clean_feedback` some other way is not modelled.
- Ingest.ScanNumber: `\d` is taken as the ASCII digits 0-9 only. Python's regex also matches other Unicode decimal digits.
- Ingest.ScanNumber: the number is an exact `real`; conversion to float64 rounding is not modelled.
- Embed.EmbedTexts: vectors are `seq<real>`; the float32 conversion of embed.py:20 is not modelled. Nor is its failure on ragged responses: `np.array(..., dtype=float32)` raises when the vectors differ in length, while the model passes them on to the fit.
- Cluster.ClusterEmbeddings: the KMeans fit (seeding, iterations, float arithmetic) is the oracle `fit`. Only the clamp and scikit-learn's bounds check are modelled. `KMeansSound` states what the fit is assumed to promise.
- App.AssignThemes: requires the mapping to cover every row's cluster. With the default or a labelled mapping it does (`DefaultThemeMapKeys`, `LabelsCover`). A missing key would give NaN in pandas, which is not modelled.
- Insights.SortByPriority: ties are kept in group order. pandas' default quicksort does not promise this, so only the order of scores and the permutation are what pandas guarantees.
- Insights.ExecSummaryAndActions: the bullet and prompt text (insights.py:37-41, 47-58) and the `:.2f`/`:.0%` formatting are not modelled. The request is modelled by its content: the top metric rows and the evidence texts.
- Label.LabelClustersWithLlm: the prompt wording (label.py:16-21) is not modelled; the request is modelled by its list of example texts.
- App.DeepDive: the theme-selection widget (app.py:164) and the rounding for display (app.py:174-175) are not modelled; the deep dive is stated for any theme.
- Insights.Week: the week is the day number of its Monday, not pandas' "YYYY-MM-DD/YYYY-MM-DD" period string. The two order the same way.
- App.Analyze: errors are the constructors of `RunError`, not the exceptions' own types and texts (only `NoRows` is a message the app shows itself). `normalize_any_csv` and `clean_feedback` (app.py:97-105) run before it and are connected by `NormalizedIdsAfterCleaning`. The executive summary (app.py:182-186) is `ExecSummaryAndActions`.
- Label.ThemeLabel, Text.Split: whitespace is Python's `str.isspace` set of code points. Strings are sequences of code points, with no normalisation.

Four behaviours of the code that are easy to misread, as the model states them:

- `negative_rate` is the mean of the indicator over every row of the theme, rated or not (pipeline/insights.py:16, 23), so ratings 1, 5 and one absent give 1/3, not 1/2 (`Insights.MetricExample`).
- With a source column, a missing cell becomes "nan", not "unknown": `astype(str)` runs before `fillna` (pipeline/ingest.py:31).
- With a date column, an unparseable date becomes absent; it does not default to the ingestion date (pipeline/ingest.py:25).
- For a single row and k ≥ 2, the clamp gives 2 clusters, more than the one sample, which KMeans rejects (pipeline/cluster.py:8-11, `Cluster.SingleRowFails`).
