# SaaS metric derivation, modelled in Dafny

This project models the metric-derivation core of a small SaaS dashboard (`apy.py`).
The dashboard reads a workbook with a **Data** sheet and an optional **Prices** sheet.
The Data sheet has one row per plan and date, with new and lost customers and optional
active-customer, MRR, ARR, CAC and marketing-spend columns. From these rows it derives:

- clean column headers;
- a check that the required columns are present;
- active customers, as per-plan running totals of new minus lost, when that column is absent;
- per-plan price and gross-margin lookups;
- MRR, from the best available source, and ARR;
- ARPA, logo churn, gross margin, LTV, CAC and LTV/CAC for each row;
- the headline KPIs at the latest date.

Modules, one per stage of the script:

- `Wrappers`: `Option` (a blank cell, pandas' NaN) and `Result` (the pipeline's fatal error).
- `Headers`: `normalize_cols`. Headers are stripped and the three regular-expression
  rewrites are applied in order, with `re.sub` semantics. Then the alias table is
  applied entry by entry, renaming headers in place. This module also holds the
  required-column check of the Data sheet.
- `HeaderExamples`: what the three rewrites do to the header shapes a workbook uses,
  such as `Real MRR (€)`, `Churn (optional)` and `MRR Calculated (inferred €)`.
- `DataTable`: the typed Data row, plus `Schema`, the set of optional columns the sheet has.
  `SchemaOf` reads the schema from the normalized headers. It also accounts for the
  rename of `Sales & Marketing Spend (€)` (apy.py:177-178).
- `Backfill`: `ensure_active_customers`. It is a loop over an array of rows that keeps a
  `map<string, int>` of per-plan running totals. It is proved against a specification
  by per-plan prefix sums.
- `Prices`: `build_prices_maps`. When a plan repeats, its last row wins. Margins above 1
  are read as percentages.
- `Revenue`: `ensure_mrr_arr`. The MRR source is chosen in priority order. ARR is added
  only when the sheet has no ARR column.
- `Metrics`: `compute_arpa`, `compute_logo_churn`, `compute_gross_margin_per_row`,
  `compute_cac_series`, the LTV and LTV/CAC expressions, and `safe_last`.
- `Pipeline`: the script's main line. A method replaces the Data table step by step. It is
  proved equal to a function, and the function's guarantees are proved as one lemma.
- `Kpi`: the KPI block. The two weighted means are modelled as written, where numpy
  raises on some inputs, and as intended (see Findings).

Numbers are Dafny `real` (exact). Counts are `int`. Dates are opaque ordered keys (`int`).

In these places the model follows the code where a reader might expect otherwise:

- `ARR` is recomputed only when the sheet has no ARR column. An ARR column already in the
  sheet is kept, even when it is not 12 × MRR.
- Logo churn is computed row by row. Sorting by plan and date changes only the order, not
  any row's value.
- The margin is normalized twice: once when the lookup is built and once per row.
- With every MRR at the latest date equal to 0 and some LTV present, the script's LTV
  average raises an error rather than being missing (see Findings).
- The rename of `Sales & Marketing Spend (€)` (apy.py:177-178) never fires.
  normalize_cols has already rewritten that header to `Sales & Marketing Spend €`
  (`HeaderExamples.SpendSpellingNormalized`). The model accepts either spelling, so
  the result is the same.

## Model

| member | source | states |
|---|---|---|
| Headers.TrimEnd | apy.py:20 | the result is a prefix of the header; everything dropped is whitespace; the result does not end with whitespace |
| Headers.Strip | apy.py:20 | str.strip(): exactly the text between the leading run of blanks and the trailing run; it begins and ends with a non-blank character |
| Headers.StripBetween | apy.py:20 | for a header with a non-blank character, strip keeps exactly the text from the first to the last non-blank character |
| Headers.StripAddsNothing | apy.py:20 | every character of the stripped header occurs in the header |
| Headers.SpaceRun | apy.py:21-23 | greedy `\s*`: the whole run of leading whitespace, stopping at the first non-blank character |
| Headers.MatchAt | apy.py:21-23 | a match lies within the text, and a pattern ending in a literal never matches empty |
| Headers.MatchAtSound | apy.py:21-23 | what the greedy matcher returns is a match of the pattern in the reference sense (`\s*` takes any blanks, a literal itself) |
| Headers.MatchAtComplete | apy.py:21-23 | when every `\s*` is followed by a non-blank literal, any prefix that matches is exactly the one the greedy matcher returns |
| Headers.GreedyPatterns | apy.py:21-23 | all three patterns of normalize_cols have every `\s*` followed by a non-blank literal, so the matcher finds every match of them |
| Headers.MatchSpacesThen | apy.py:21-23 | a leading `\s*` takes the leading blanks, and the rest of the pattern matches after them |
| Headers.MatchLitsThen | apy.py:21-23 | leading literals match the same characters, and the rest of the pattern matches after them |
| Headers.NoMatchUpTo | apy.py:21-23 | a `\s*(`-style pattern has no match starting at or before a non-blank character when `(` does not occur up to it |
| Headers.NoMatchAt | apy.py:21-23 | such a pattern matches nowhere when its `(` occurs once and is not followed by the pattern's next literal |
| Headers.Replace | apy.py:21-23 | re.sub's left-to-right scan; deleting matches never lengthens the text (its other laws are the lemmas below) |
| Headers.ReplaceWithoutMatch | apy.py:21-23 | a text in which the pattern matches nowhere is returned unchanged |
| Headers.ReplaceStep | apy.py:21-23 | one step of the scan: a match at the front is replaced, otherwise the first character is kept |
| Headers.ReplaceAtFirstMatch | apy.py:21-23 | with the leftmost match at k, the text before k is kept, the match is replaced, and the scan resumes after the match, never inside the replacement |
| Headers.MatchNeedsLiteral | apy.py:21-23 | a `\s*(`-style pattern cannot match a text that lacks the literal character |
| Headers.ReplaceWithoutLiteral | apy.py:21-23 | re.sub with such a pattern leaves a text without that character unchanged |
| Headers.CleanHeaderWithoutParens | apy.py:19-23 | a header with no parenthesis is only stripped by the three rewrites |
| Headers.RenameAllIsLookup | apy.py:25-33 | applying the four aliases one after another equals a single lookup in the alias table, since no alias target is an alias source |
| Headers.RenameAllStep | apy.py:31-33 | each further alias entry is one more rename |
| Headers.AliasOf | apy.py:25-30 | a header equal to an alias key becomes its value; every other header is kept |
| Headers.RenameColumn | apy.py:32-33 | rename in place: every header equal to the key becomes the value, and the others are unchanged |
| Headers.NormalizedSheet | apy.py:15-34 | an absent or empty sheet gives the empty sheet; otherwise the rows are kept and each header is replaced by its cleaned and aliased form |
| Headers.NormalizeCols | apy.py:15-34 | the in-place cleaning and renaming loop yields exactly the normalized sheet: each header cleaned and then aliased |
| Headers.Rank | apy.py:143 | position of a column in the required list |
| Headers.MissingFrom | apy.py:144 | a column is reported exactly when it is required and absent, and the list is no longer than the required list |
| Headers.MissingFromOrdered | apy.py:144 | the reported columns keep the required list's order, each once |
| Headers.MissingRequired | apy.py:143-147 | the list is empty exactly when Date, Plan, New Customers and Lost Customers are all present |
| Headers.EmptySheetMissesAll | apy.py:139-147 | an absent or empty Data sheet reports all four required columns |
| HeaderExamples.ReplaceTail | apy.py:21-23 | a name without `(` and without blanks at its ends, followed by a whole match of a `\s*(` pattern: re.sub replaces exactly that tail |
| HeaderExamples.InferredTailSkipsOthers | apy.py:21-22 | the `(optional)` and `(€)` rewrites leave an `(inferred €)` tail alone |
| HeaderExamples.CleanEuroTail | apy.py:19-23 | `<name> (€)` becomes `<name> €` |
| HeaderExamples.CleanOptionalTail | apy.py:19-23 | `<name> (optional)` becomes `<name>` |
| HeaderExamples.CleanInferredTail | apy.py:19-23 | `<name> (inferred €)` becomes `<name> €` |
| HeaderExamples.CleanHeaderPadded | apy.py:19-23 | blanks around a header change nothing in the cleaned header |
| HeaderExamples.RealMrrHeader | apy.py:19-23 | ` Real MRR (€) ` cleans to `Real MRR €` |
| HeaderExamples.ChurnHeader | apy.py:19-23 | `Churn (optional)` cleans to `Churn` |
| HeaderExamples.MrrCalculatedHeader | apy.py:19-23 | `MRR Calculated (inferred €)` cleans to `MRR Calculated €` |
| HeaderExamples.RealMrrNormalized | apy.py:19-33 | ` Real MRR (€) ` normalizes to `Real MRR €`, the name the MRR step looks for |
| HeaderExamples.SpendSpellingNormalized | apy.py:19-33 | `Sales & Marketing Spend (€)` already normalizes to `Sales & Marketing Spend €`, so the later rename (apy.py:177-178) never fires |
| DataTable.SchemaOf | apy.py:177-178 | each optional column is present exactly when its normalized header is; spend is present under either spelling |
| Backfill.ClampLow | apy.py:48 | clip(lower=0): never negative, unchanged when already non-negative, 0 when negative |
| Backfill.ActiveBackfilled | apy.py:36-49 | with an Active column the table is returned unchanged; otherwise New, Lost and Active become present, each row's new and lost are its cells (0 without the column), its active count is max(0, the running new − lost of its plan up to and including the row), and every other cell is kept |
| Backfill.PlanNetStep | apy.py:44-47 | one more row adds its new − lost to its own plan's running total and to no other plan's |
| Backfill.EnsureActiveCustomers | apy.py:36-49 | the loop with a per-plan running-total map produces exactly the backfilled table |
| Backfill.NetUpToAll | apy.py:43-47 | when no row of the plan is dated after d, the date bound cuts nothing |
| Backfill.NetUpToIgnoresLater | apy.py:43-47 | rows of the plan dated after d add nothing |
| Backfill.RunningNetByDate | apy.py:43-47 | with rows in (plan, date) order, each row's running total is the sum of new − lost over the rows of its plan dated up to and including its date |
| Backfill.ActiveByDate | apy.py:43-48 | with rows in (plan, date) order, each backfilled active count is max(0, its plan's new − lost up to and including its date) |
| Backfill.TwoMonthExample | apy.py:44-48 | plan A with (10, 0) then (5, 2) gives 10 then 13 |
| Backfill.DeficitCarriedForward | apy.py:44-48 | the clamp applies to each row's final total: (0, 5) then (3, 0) gives 0 then 0, not 0 then 3 |
| Prices.ColumnByPlan | apy.py:58 | the lookup has an entry exactly for the plans that occur in the sheet |
| Prices.ColumnByPlanLastRow | apy.py:58 | a plan's entry is the cell of its last row |
| Prices.NormalizeMargin | apy.py:68 | a margin up to 1 is kept; one above 1 is a percentage (result × 100 = margin); up to 100 it ends at most 1; a non-negative margin stays non-negative |
| Prices.MarginColumn | apy.py:60-64 | "Gross Margin %" when present, else "Gross Margin", and none exactly when neither is present |
| Prices.BuildPriceMaps | apy.py:51-70 | an empty sheet or one without Plan gives empty lookups; no price column gives no price lookup; no margin column gives no margin lookup; otherwise the keys are exactly the sheet's plans |
| Prices.MarginOfLastRow | apy.py:60-69 | a plan's margin is the normalized margin cell of its last row, taken from "Gross Margin %" in preference to "Gross Margin" |
| Prices.PriceOfLastRow | apy.py:57-58 | a plan's price is the price cell of its last row |
| Revenue.EnsureMrrArr | apy.py:72-85 | both columns are present afterwards and no other cell changes; MRR comes from the chosen source; ARR is 12 × MRR unless the sheet had ARR, which is kept |
| Revenue.MrrPriority | apy.py:75-81 | existing MRR, else MRR Calculated, else price × active (unknown or blank price counts as 0) when there is a price lookup and an active column, else 0 |
| Revenue.ArrIsTwelveMrr | apy.py:83-84 | without an ARR column, ARR = 12 × MRR on every row, and is blank exactly when MRR is blank |
| Revenue.ExistingArrKept | apy.py:83 | an ARR column already present is not recomputed, even when inconsistent with MRR |
| Metrics.Arpa | apy.py:87-91 | ARPA × active = MRR when there are active customers and MRR is present; otherwise 0, never blank |
| Metrics.ActiveStart | apy.py:100 | start count = active − new + lost when that is not negative, and 0 when it is |
| Metrics.Clamp01 | apy.py:103 | clip to [0, 1]: within bounds, identity inside them, 0 below and 1 above |
| Metrics.LogoChurn | apy.py:93-103 | churn lies in [0, 1]; it is 0 when the start count is 0 or nobody was lost; churn × start = lost when 0 ≤ lost ≤ start; it is 1 when more were lost than the positive start count |
| Metrics.ChurnZeroIff | apy.py:100-103 | churn is 0 exactly when nobody was lost or the start count is 0 |
| Metrics.GrossMarginUsed | apy.py:105-110 | the margin lies in [0, 1], and is 0.80 for a plan without a margin |
| Metrics.MarginFromSheet | apy.py:105-110 | for a raw margin up to 100 in the Prices sheet, normalizing in the lookup (apy.py:68) and again per row equals a single normalization and clip |
| Metrics.PercentAndFraction | apy.py:109-110 | a raw margin of 45 and one of 0.45 both give 0.45 |
| Metrics.DoubleNormalizationAbove100 | apy.py:109 | above 100 the double pass differs: 250 becomes 0.025, where one pass and the clip give 1 |
| Metrics.Ltv | apy.py:171-173 | LTV is blank exactly when churn is 0; otherwise LTV × churn = ARPA × margin |
| Metrics.Cac | apy.py:112-120 | the explicit CAC column when present; otherwise blank with no new customers, no spend column or a blank spend cell, else CAC × new = spend |
| Metrics.LtvCacRatio | apy.py:182-183 | present exactly when LTV and CAC are present and CAC > 0, and then ratio × CAC = LTV; the blended KPI ratio (apy.py:225) uses the same rule |
| Metrics.MetricsOf | apy.py:164-183 | per row: churn and margin in [0, 1], LTV blank exactly at zero churn, the LTV/CAC rule, ARPA × active = MRR |
| Metrics.SafeLast | apy.py:122-129 | the last cell's value, or the default for an absent or empty column or a blank last cell |
| Pipeline.DeriveMetrics | apy.py:164-183 | one metrics record per row, each the metrics of that row alone |
| Pipeline.RunPipeline | apy.py:138-183 | the step-by-step main line yields exactly the pipeline's result |
| Pipeline.PipelineGuarantees | apy.py:142-183 | stops exactly when a required column is missing and reports exactly those; otherwise, for every row: backfilled counts ≥ 0, ARR = 12 × MRR without an ARR column, churn and margin in [0, 1], LTV blank exactly at zero churn, and the LTV/CAC rule |
| Pipeline.StagesKeepGuarantees | apy.py:154-183 | for any table and price maps, the backfill, MRR/ARR and metric steps keep one row per input row and give each row the per-row guarantees above |
| Pipeline.RunHasRows | apy.py:142-156 | a run that does not stop has at least one row and one metrics record per row, and backfilled active counts are never negative |
| Pipeline.WorkedExample | apy.py:154-156 | A: (10, 0), (5, 2), price 50: active 10 and 13, MRR 500 and 650, ARR 6000 and 7800 |
| Pipeline.EmptyDataStops | apy.py:139-147 | an absent or empty Data sheet stops with all four required columns reported |
| Kpi.LastDate | apy.py:211 | the latest date: some row has it and no row is later |
| Kpi.AtDate | apy.py:212 | a row is kept exactly when it is in the table and has the date |
| Kpi.AtDateOne | apy.py:212 | a single row is kept exactly when it has the date |
| Kpi.AtDateSplit | apy.py:212 | filtering a concatenation filters each part and keeps their order |
| Kpi.TotalActive | apy.py:213 | with no negative active count the total is not negative |
| Kpi.TotalMrr | apy.py:214 | blank cells add nothing: all blank gives 0, and non-negative cells give a non-negative total |
| Kpi.AllPresent | apy.py:220 | the weights without blanks, or None when one is blank |
| Kpi.NpAverage | apy.py:220 | numpy's average raises when values and weights differ in length |
| Kpi.LtvMeanAsWritten | apy.py:219-220 | blank when no row at the date has an LTV; raises when some but not all of them have one |
| Kpi.CacMeanAsWritten | apy.py:221-224 | blank when no CAC is present or the new customers sum to at most 0; otherwise raises when some but not all rows have a CAC |
| Kpi.LtvMismatchRaises | apy.py:220 | one row with an LTV and one without at the latest date: the script's LTV average raises |
| Kpi.CacMismatchRaises | apy.py:224 | one row with a CAC and one without, with new customers: the script's CAC average raises |
| Kpi.LtvZeroMrrRaises | apy.py:220 | an LTV present with total MRR 0 (no MRR column, no price table): the script's LTV average raises |
| Kpi.BlankMrrBlanksAverage | apy.py:220 | two rows with an LTV, one with a blank MRR: the script's LTV average is blank |
| Kpi.BlankMrrRowLeftOut | apy.py:220 | the intended LTV average leaves a blank-MRR row out: LTV 100 at MRR 10 next to a blank MRR gives 100 |
| Kpi.WeightedMean | apy.py:216-224 | intended mean: present exactly when the weights sum above 0, and then mean × weight sum = weighted sum |
| Kpi.WeightedAtLeast | apy.py:220 | with non-negative weights, the weighted sum is at least the smallest value times the total weight |
| Kpi.WeightedAtMost | apy.py:220 | with non-negative weights, the weighted sum is at most the largest value times the total weight |
| Kpi.WeightedMeanBetween | apy.py:220 | with non-negative weights, the mean lies between the smallest and largest value |
| Kpi.LtvMeanBetween | apy.py:220 | with no negative MRR, the blended LTV lies between the smallest and the largest LTV at the date |
| Kpi.CacMeanBetween | apy.py:223-224 | with no negative new-customer count, the blended CAC lies between the smallest and the largest CAC at the date |
| Kpi.WeightAppend | apy.py:220 | weight of a concatenation is the sum of the weights |
| Kpi.ZeroMrrWeight | apy.py:220 | with every MRR 0 the LTV weights sum to 0 |
| Kpi.ZeroMrrLtvMissing | apy.py:220 | with every MRR at the date 0, the intended LTV average is missing, neither 0 nor an error |
| Kpi.MrrValues | apy.py:220 | one MRR value per row |
| Kpi.CompleteLines | apy.py:220 | when every row has LTV and MRR, no LTV is dropped, every weight is present, and the script's weight sum and weighted sum equal those of the intended pairs |
| Kpi.LtvAgreesWhenComplete | apy.py:220 | when every row has LTV and MRR and the MRR sums above 0, the script's average equals the intended one |
| Kpi.CompleteCacs | apy.py:224 | when every row has a CAC, no CAC is dropped, the new-customer weights are all present, and the script's sums equal those of the intended pairs |
| Kpi.CacAgreesWhenComplete | apy.py:221-224 | when every row at the date has a CAC and the new customers sum above 0, the script's CAC average equals the intended one |
| Kpi.KpiSummary | apy.py:207-225 | nothing for an empty table; otherwise as-of is the latest date, and over the rows at that date the active and MRR totals are their sums, ARR total = 12 × MRR total, the LTV and CAC are the weighted means, and the ratio follows the LTV/CAC rule |
| Kpi.LinesOf | apy.py:207 | the augmented table read row by row, each row with its own metrics |
| Kpi.ActiveTotalNonNegative | apy.py:213 | with no negative active count, a non-empty table has a KPI block whose active total is not negative |
| Kpi.KpiOfRun | apy.py:207-213 | a run that does not stop always has a KPI block, and with backfilled counts its active total is not negative |

## Findings

| source | as written | input that shows it | evidently intended | confidence | as-written member | corrected member |
|---|---|---|---|---|---|---|
| apy.py:220 | `np.average` gets the LTVs with blanks dropped, but the MRR weights of every row | two plans at the latest date, one with zero churn (blank LTV): one value, two weights, numpy raises | rows with a blank LTV left out of values and weights alike | not executed | Kpi.LtvMismatchRaises | Kpi.WeightedMean |
| apy.py:224 | the CACs with blanks dropped, against the new customers of every row | two plans at the latest date, one with 0 new customers (blank CAC) and one with new customers: numpy raises | rows with a blank CAC left out of values and weights alike | not executed | Kpi.CacMismatchRaises | Kpi.WeightedMean |
| apy.py:220 | no guard on the MRR weights summing to 0, unlike the CAC guard at line 224 | no MRR column and no Prices sheet (MRR 0 everywhere), one plan losing customers (LTV 0, present): numpy raises on zero weights | the average is missing when the weights sum to 0 | not executed | Kpi.LtvZeroMrrRaises | Kpi.ZeroMrrLtvMissing |

`Kpi.KpiSummary` uses the corrected means. `Kpi.LtvAgreesWhenComplete` shows that the
corrected LTV mean gives the same value as the script's when every row at the date has both
an LTV and an MRR and the MRR sums above 0. `Kpi.CacAgreesWhenComplete` shows the same for
the CAC mean when every row has a CAC and the new customers sum above 0.

The corrected LTV mean also differs from the script's when an MRR cell at the date is blank.
numpy then propagates the NaN weight, so the script's average is blank
(`Kpi.BlankMrrBlanksAverage`). The corrected mean leaves that row out of values and weights
alike (`Kpi.BlankMrrRowLeftOut`).

## Left out

- Streamlit page setup, upload widget, sidebar filters, KPI display and charts (apy.py:7,
  132-136, 185-204, 227-276). This is presentation code. The KPI summary takes the
  already-filtered rows.
- Reading the workbook and its caching (apy.py:10-13). The model starts from the two sheets'
  headers and typed rows.
- Date parsing, dropping rows with unparseable dates, and sorting by (plan, date)
  (apy.py:150-151). Rows arrive parsed and in that order. The re-sorts inside
  ensure_active_customers and compute_logo_churn (apy.py:43, 96) are therefore the
  identity, except for the order of two rows with the same plan and date.
- Year, month and month-name columns (apy.py:159-161). They need calendar dates.
- Cohort tables (apy.py:278-302). They depend on pandas pivot/groupby `last`/`mean`
  semantics.
- Floating point, infinities and NaN arithmetic. Numbers are exact reals, and a blank cell
  is None. The inf-to-NaN replacement (apy.py:120, 173) has no counterpart, because a real
  division by a non-zero number is finite.
- Blank cells in the New, Lost and Active count columns. Counts are integers. A blank
  Active cell is read as 0 wherever the script uses it (fillna(0), the 0-to-NaN
  replacement, and the test > 0), so reading it as 0 changes no result.
- Whitespace outside the first 128 characters (such as U+0085, U+00A0 and U+3000), which
  `strip()` and `\s` also treat as blank. Non-text headers.
  Duplicate column names created by renaming. Non-numeric cells that would make
  `astype(float)` fail.
- `int(...)` on the active total (apy.py:213). The sum of integer counts is already an
  integer.
- Headers.Replace: models only patterns whose every `\s*` is followed by a non-blank
  literal, which covers the three patterns of normalize_cols. General regular expressions
  are not modelled.
- Kpi.NpAverage: models only numpy's two raising cases (length mismatch, zero weight sum)
  and blank weights. Other numpy behaviour is not modelled.
- Kpi.LtvMean: leaves out rows with a blank MRR, where the script's average is blank
  (see Findings). It does not reproduce the script's blank result there. With the MRR at
  the date summing below 0 it is missing, while numpy returns a value.
