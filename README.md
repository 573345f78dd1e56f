# Lead dashboard pipeline, modelled in Dafny

`dashboard.py` is a single-page sales dashboard. Its only real logic is a
pipeline over a spreadsheet of outreach records. Each record has an approach
timestamp (`DATA_ABORDAGEM`), a segment (`SEGMENTO`), a channel (`CANAL`)
and an outcome (`RESULTADO`). The pipeline has three stages:

1. **Loading** (`load_data`). It drops the rows whose timestamp did not
   parse. It strips and upper-cases the three text columns. It derives the
   day key `DIA` and the month key `MES_ANO`. It sets three flags from fixed
   outcome vocabularies: `TEVE_RETORNO` (the lead answered),
   `RESPOSTA_POSITIVA` and `RESPOSTA_EFETIVA`.
2. **Aggregation** (`calculate_kpis`). It computes:
   - the leads of the most recent day;
   - the daily series;
   - one statistics row per channel, built by filtering the table once per
     distinct channel in a loop;
   - the unanswered leads per segment;
   - the global no-response count and percentage.
3. **Insights** (end of `main`). It picks the channel with the best return
   rate and the segment with the most unanswered leads. Both use `idxmax`,
   so the first row wins a tie. With no channel statistics it picks nothing
   and shows a warning instead.

## Modules

- `Wrappers`: `Option`.
- `Groups`: counting with a mask, filtering, sorted distinct keys, and
  `groupby(...).size()` as `GroupBy`. It also proves the general facts about
  them: groups in strictly ascending key order, group sizes adding up to the
  row count, and complementary masks partitioning the rows.
- `Text`: Python's `str.strip()` over the full `str.isspace()` set,
  upper-casing, their composition `Normalize`, and the code-point order of
  `str` that `groupby` sorts string keys by.
- `Loader`: the sheet, row, lead and table datatypes, the vocabularies,
  `Classify`, and the spec function `CleanSheet`. `Load` is the imperative
  version: the per-column rewrite loop of `load_data`, proved equal to
  `CleanSheet`.
- `Aggregator`: the KPI datatypes and spec functions. `CalculateKpis` builds
  the KPI record field by field and appends one channel row per loop pass;
  it is proved equal to `KpisOf`. `AggregatorLaws` holds the properties of
  those functions.
- `Insights`: the first-maximum choice (`FirstMaxIndex`) and `SelectInsight`.
- `Dashboard`: the data flow of `main`. A failed load shows nothing;
  otherwise the page gets the KPIs, the lead total and the insight.

Rates are exact real numbers, `count / total * 100`. They are 0 when the
total is 0.

A sheet records which of the four columns it has. When `DATA_ABORDAGEM` or
`RESULTADO` is missing, the column lookup raises. `load_data` catches that
and returns `None`, so the model's load also returns nothing. A missing
`SEGMENTO` or `CANAL` is not a failure in the code. The loader only skips
normalising that column. `calculate_kpis` then returns an empty segment
table or an empty channel table. The model follows the code here.

## Model

| member | source | states |
|---|---|---|
| `Groups.GroupByLaws` | dashboard.py:221-224 | a `groupby(...).size()` table has strictly ascending keys, one group per distinct value, each of positive size equal to that value's number of rows; the sizes add up to the row count; no rows give no groups |
| `Groups.CountComplement` | dashboard.py:243-244 | two complementary masks together select every row exactly once |
| `Groups.CountWhereAppend` | dashboard.py:243-248 | counting a mask over two blocks of rows adds the two counts |
| `Groups.FilterAppend` | dashboard.py:179 | filtering two blocks of rows filters each and concatenates, so a filter keeps exactly the rows satisfying its mask, in order |
| `Groups.FilterSingle` | dashboard.py:179 | a single row survives the filter exactly when it satisfies the mask |
| `Groups.GroupBy` | dashboard.py:221-224 | `groupby(...).size()`: the group sizes of the sorted distinct values; its properties are `Groups.GroupByLaws` |
| `Groups.CountPositive` | dashboard.py:272-273 | a mask that some row satisfies selects at least one row |
| `Groups.CountDisjointWithin` | dashboard.py:247-248 | two disjoint masks that both lie inside a third select no more rows than it |
| `Groups.SumSizesCover` | dashboard.py:232-240 | over distinct keys that cover every row, the group sizes add up to the number of rows |
| `Text.TrimStart` | dashboard.py:184 | the result is a suffix of the input; only whitespace was dropped; it does not start with whitespace |
| `Text.TrimEnd` | dashboard.py:184 | the result is a prefix of the input; only whitespace was dropped; it does not end with whitespace |
| `Text.Trim` | dashboard.py:184 | `strip()` returns a slice of the input with only whitespace outside it and none at either of its ends |
| `Text.Normalize` | dashboard.py:184 | `str.strip().upper()` of a cell; its properties are `Text.NormalizeIsNormalized` and `Text.NormalizeIdempotent` |
| `Text.UpperChar` | dashboard.py:184 | upper-casing keeps whitespace as whitespace, leaves no lower-case letter, and fixes every other character |
| `Text.UpperNormalizes` | dashboard.py:184 | upper-casing a cell with no whitespace at its ends gives a cell with no whitespace at its ends and no lower-case letter |
| `Text.NormalizeIsNormalized` | dashboard.py:184 | a normalised cell has no whitespace at either end and no lower-case letter |
| `Text.NormalizedIsFixpoint` | dashboard.py:184 | normalising a normalised cell changes nothing |
| `Text.NormalizeIdempotent` | dashboard.py:184 | strip-then-upper applied twice equals applying it once |
| `Text.TextLessIsStrictTotalOrder` | dashboard.py:232 | the order `groupby` uses for string keys is a strict total order |
| `Loader.DayLessIsStrictTotalOrder` | dashboard.py:221-224 | chronological order on days is a strict total order |
| `Loader.Classify` | dashboard.py:192-199 | `TEVE_RETORNO` holds exactly for outcomes outside the no-response set; `RESPOSTA_POSITIVA` holds exactly for the positive outcomes; positive implies effective; effective implies a return; effective means positive or `NEGATIVO` |
| `Loader.Parsed` | dashboard.py:178-179 | the surviving rows are exactly as many as the rows with a parsed timestamp; each comes from the sheet and has a timestamp |
| `Loader.NormalizeText` | dashboard.py:181-184 | the loop over `SEGMENTO`, `CANAL`, `RESULTADO` leaves every row normalised in exactly the text columns the sheet has, and keeps the timestamp |
| `Loader.Load` | dashboard.py:171-201 | the step-by-step loader (timestamp filter, the text-column loop, keys and flags, failure on a missing timestamp or outcome column) returns exactly `CleanSheet` |
| `Loader.CleanSheet` | dashboard.py:171-201 | what `load_data` returns: nothing without a sheet or without `DATA_ABORDAGEM` or `RESULTADO`, else the cleaned leads of the parsed rows; its properties are the `Loader` lemmas below |
| `Loader.CleanSheetIsLoaded` | dashboard.py:181-199 | every loaded lead has normalised text cells (where the sheet has the column), consistent flags and keys derived from its timestamp |
| `Loader.CleanSheetCountsParsedRows` | dashboard.py:178-179 | the table has as many leads as the sheet has rows whose timestamp parsed, and every lead's timestamp comes from one of those rows |
| `Loader.CleanSheetAppend` | dashboard.py:178-199 | loading two blocks of rows together yields the leads of the first block followed by those of the second |
| `Loader.CleanSheetSingle` | dashboard.py:178-199 | a single row yields exactly its cleaned lead when its timestamp parsed, and no lead otherwise; with `CleanSheetAppend` this gives one lead per parsed row, in order |
| `Loader.CleanRowsAppend` | dashboard.py:181-199 | cleaning two blocks of parsed rows cleans each and concatenates |
| `Loader.UnparsedRowIsIgnored` | dashboard.py:178-179 | inserting a row whose timestamp did not parse, anywhere, leaves the loaded table unchanged |
| `Loader.ReloadIsIdentity` | dashboard.py:181-199 | loading again a table the loader produced yields the same table: cleaning and classification are idempotent |
| `Aggregator.Percent` | dashboard.py:251-252 | a rate is 0 for a total of 0, and otherwise the rate times the total is the count times 100 |
| `Aggregator.PercentBounds` | dashboard.py:251-252 | a rate of a part of the total lies in [0, 100] |
| `Aggregator.PercentMonotone` | dashboard.py:251-252 | a smaller count over the same total gives a rate no larger |
| `Aggregator.PercentExtremes` | dashboard.py:251-252 | no rows give 0; all rows of a non-empty total give 100 |
| `Aggregator.MaxDay` | dashboard.py:215 | the maximum day is one of the days and no day is later than it |
| `Aggregator.LeadsToday` | dashboard.py:214-217 | `leads_dia`; its properties are `AggregatorLaws.LeadsTodayLaws` |
| `Aggregator.LeadsPerDay` | dashboard.py:220-227 | `leads_por_dia`; its properties are `AggregatorLaws.LeadsPerDayLaws` |
| `Aggregator.OfChannel` | dashboard.py:238 | a channel's rows are leads of the table on that channel (that it selects all of them, once each, is `AggregatorLaws.OfChannelCount`) |
| `Aggregator.ChannelStatOf` | dashboard.py:238-263 | one row of `canal_performance`; its properties are `AggregatorLaws.ChannelStatLaws` and `AggregatorLaws.ChannelStatCounts` |
| `Aggregator.ChannelPerformance` | dashboard.py:230-267 | `canal_performance`; its properties are `AggregatorLaws.ChannelPerformanceLaws` |
| `Aggregator.ChannelStats` | dashboard.py:235-263 | one statistics row per listed channel, in the listed order, each that channel's statistics |
| `Aggregator.ChannelLoop` | dashboard.py:235-263 | the loop that filters the table once per channel and appends its row returns exactly `ChannelStats` of those channels |
| `Aggregator.SegmentNoResponse` | dashboard.py:269-278 | `sem_resposta_por_segmento`; its properties are `AggregatorLaws.SegmentNoResponseLaws` |
| `Aggregator.TotalNoResponse` | dashboard.py:282-288 | `total_sem_resposta`; its properties are `AggregatorLaws.NoResponseTotalsLaws` |
| `Aggregator.PercentNoResponse` | dashboard.py:281-289 | `percent_sem_resposta`; its properties are `AggregatorLaws.NoResponseTotalsLaws` |
| `Aggregator.KpisOf` | dashboard.py:207-289 | the `kpis` dictionary; `Aggregator.CalculateKpis` computes it and the `AggregatorLaws` lemmas state its properties |
| `Aggregator.CalculateKpis` | dashboard.py:207-289 | the field-by-field computation, with the channel loop, returns exactly `KpisOf` |
| `AggregatorLaws.OfChannelSize` | dashboard.py:238-240 | a channel's total is the number of leads whose channel it is |
| `AggregatorLaws.OfChannelCount` | dashboard.py:238-248 | any mask counted over a channel's rows gives the number of leads of the whole table on that channel satisfying it, so the selection holds each lead of the channel once |
| `AggregatorLaws.ChannelStatLaws` | dashboard.py:238-252 | per channel: total is its lead count; answered plus unanswered equals total; refusals plus positives are at most the answered; 0 <= positive rate <= return rate <= 100; both rates are 0 for a zero total |
| `AggregatorLaws.ChannelStatCounts` | dashboard.py:238-248 | a channel's total is its lead count; its unanswered, answered, `NEGATIVO` and positive counts are the numbers of leads of the whole table on that channel with that outcome; answered plus unanswered equals the total; refusals plus positives are at most the answered |
| `AggregatorLaws.ChannelStatRates` | dashboard.py:251-252 | 0 <= positive rate <= return rate <= 100, both 0 for a zero total |
| `AggregatorLaws.ChannelStatMatchesFlags` | dashboard.py:197-198 | on a loaded table, a channel's answered and positive counts equal the numbers of its leads with `TEVE_RETORNO` and with `RESPOSTA_POSITIVA` |
| `AggregatorLaws.SumTotalsIsSumSizes` | dashboard.py:232-240 | the channel totals add up to the sizes of the channel groups |
| `AggregatorLaws.ChannelPerformanceLaws` | dashboard.py:230-267 | the channel table is empty exactly for an empty table or one without `CANAL`; otherwise it has one row per distinct channel, in ascending order, each with a positive total, and the totals add up to the lead count |
| `AggregatorLaws.ChannelPerformanceSorted` | dashboard.py:232-237 | the channel rows are in strictly ascending channel order |
| `AggregatorLaws.ChannelPerformanceTotals` | dashboard.py:232-240 | every channel row names a channel of the table with a positive total, and the totals add up to the lead count |
| `AggregatorLaws.ChannelPerformanceCovers` | dashboard.py:232-237 | every lead's channel has a row |
| `AggregatorLaws.LeadsPerDayLaws` | dashboard.py:220-227 | the daily series is strictly ascending by day; it has one entry per day with leads, each counting that day's leads; the entries add up to the lead count; it is empty exactly for an empty table |
| `AggregatorLaws.LeadsPerDayCovers` | dashboard.py:220-224 | every lead's day has an entry in the daily series |
| `AggregatorLaws.LeadsTodayLaws` | dashboard.py:214-217 | `leads_dia` is 0 for an empty table; otherwise it is between 1 and the lead count and equals the last entry of the daily series, whose day is the maximum day |
| `AggregatorLaws.SegmentNoResponseLaws` | dashboard.py:270-278 | the segment counts add up to the global no-response total; the segment table is empty exactly when that total is 0; segments are ascending; each segment's count is the number of unanswered leads of that segment in the table, and is positive; every unanswered lead's segment has a row |
| `AggregatorLaws.SegmentOrder` | dashboard.py:270-278 | the segment counts add up to the no-response total; the table is empty exactly when that total is 0; segments ascend, with positive counts |
| `AggregatorLaws.SegmentSizes` | dashboard.py:272-274 | each segment's count is the number of unanswered leads of that segment in the table |
| `AggregatorLaws.SegmentCovers` | dashboard.py:272-274 | every unanswered lead's segment has a row |
| `AggregatorLaws.SegmentCount` | dashboard.py:272-274 | a segment's occurrences among the unanswered rows are the unanswered leads of that segment |
| `AggregatorLaws.SegmentWitnesses` | dashboard.py:270-275 | every segment in the table has an unanswered lead of that segment |
| `AggregatorLaws.NoResponseTotalsLaws` | dashboard.py:281-289 | the no-response total is at most the lead count; its percentage lies in [0, 100], is 0 for an empty table, and otherwise is total / leads * 100 |
| `AggregatorLaws.EmptyTableKpis` | dashboard.py:207-289 | an empty table yields zero counters and empty tables, without failure |
| `AggregatorLaws.AllUnansweredKpis` | dashboard.py:243-251 | when every outcome is a no-response one, every channel's return rate is 0 and the no-response percentage is 100 |
| `AggregatorLaws.UnansweredChannel` | dashboard.py:243-251 | a channel all of whose leads are unanswered has return rate 0 |
| `Insights.FirstMaxIndex` | dashboard.py:523 | `idxmax` returns a position holding the maximum, and every earlier position holds less |
| `Insights.SelectInsight` | dashboard.py:522-544 | with no channel rows, the insufficient-data notice; otherwise the first channel row with the best return rate and that rate, plus the first segment row with the largest count exactly when segment data exists |
| `Insights.BestIsLeastAmongTies` | dashboard.py:523 | in a channel-ordered table, the first row with the best rate has the least channel among the rows sharing that rate |
| `Insights.WorstIsLeastAmongTies` | dashboard.py:527 | in a segment-ordered table, the first row with the largest count has the least segment among the rows sharing that count |
| `Insights.BestChannelFirstAmongTies` | dashboard.py:522-524 | a non-empty table with `CANAL` always yields an insight, and its channel is the alphabetically first of the channels sharing the best return rate |
| `Insights.WorstSegmentFirstAmongTies` | dashboard.py:526-528 | when some lead is unanswered (and `SEGMENTO` and `CANAL` exist), a worst segment is always reported, and it is the alphabetically first of the segments sharing the largest no-response count |
| `Dashboard.Refresh` | dashboard.py:453-459 | a failed load shows nothing; otherwise the report holds the lead total, the KPIs of the cleaned table and the insight chosen from them |
| `Dashboard.ReportOf` | dashboard.py:453-544 | what the page shows for a loaded table: the lead total, the KPIs and the insight; `Dashboard.Refresh` and `Dashboard.UnparsedRowsExcluded` state its properties |
| `Dashboard.UnparsedRowsExcluded` | dashboard.py:178-179 | a row whose timestamp did not parse changes no figure of the report, and the lead total counts only the rows that parsed |

## Left out

- Reading the spreadsheet (`pd.read_excel`) and parsing dates (`pd.to_datetime`) are library I/O. The sheet arrives as a value; each row carries the parser's verdict as an optional timestamp; an unreadable file is the absent sheet.
- `astype(str)` on non-text cells is not modelled. Cells arrive as text.
- The memoisation by `@st.cache_data` is a framework concern. So are the error messages shown for a failed load and the exception handlers of `main`.
- Aggregator.Percent: the rates are exact rationals. The one-decimal `round(x, 1)` on binary floats is not modelled.
- Insights.SelectInsight: it compares the exact rates. Two channels whose rates differ but round to the same one-decimal value tie in the code, but not in the model.
- Text.UpperChar: upper-cases ASCII letters and the Latin-1 lower-case letters U+00E0 to U+00FE (except U+00F7), which cover Portuguese. The rest of Python's full Unicode `str.upper()` is not modelled: `ß` becoming `SS`, `ÿ`, `µ`, and letters outside Latin-1.
- The `dia_formatado` label (`strftime('%d/%m')`) is presentation and is not modelled.
- `MES_ANO` is derived as the year and month of the day. Nothing aggregates it.
- `RESPOSTA_EFETIVA` is computed and its relation to the other flags is proved. No aggregate reads it, and none does in the code either.
- The insight text (its wording and the `:.1f` formatting) is not modelled. The model returns the values the text shows.
- The CSS and HTML markup, the Streamlit layout calls, `create_charts`, the Plotly figures and the colour palette are all presentation and are not modelled.
- Dates are taken as the parser delivers them. Calendar validity and time zones are not modelled.
