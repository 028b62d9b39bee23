# Multi-query PromQL engine, chart builders and registries of OpenSearch Dashboards, in Dafny

This project models the part of OpenSearch Dashboards that runs several PromQL
queries typed into one editor. It also covers the small helpers that show their
results and the registries around the search bar.

**Splitting.** A query string is split on `;` into labelled sub-queries A, B, …, Z,
AA, AB, …. A `;` inside a single-quoted, double-quoted or backtick-quoted
literal does not split. The splitter exists in three copies:
- the shared copy (`multi_query.ts`);
- the editor copy (`multi_query_utils.ts`), which also keeps each segment's
  offsets and line numbers;
- the server copy (`promql_search_strategy.ts`).

`MultiQuery.Split` is the declarative specification, and every copy is proved
equal to it. The server copy and the label and scanner functions of the editor
and server copies are textually the shared ones. They are modelled once, in
`MultiQuery`, and cited below for each copy.

**Editor helpers.** The editor maps a cursor onto a segment and converts
offsets to line/column pairs. It also encodes `label:query` cache keys.

**Result assembler.** On the server, the per-label Prometheus results are
merged into one data frame:
- a long visualisation table with one row per (label, series, sample);
- a wide "instant" table with one row per metric signature and one
  `Value #<label>` column per successful label;
- the list of failed labels.

The single-query frame builder and the label formatter are modelled too.

**Raw table.** The raw metrics table reads the `Value #…` and `Metric` cells of
those rows back.

**Charts.** The ECharts bar and line builders turn table rows into chart
options: category values, series pivots, decorations, legend, title, tooltip
and grid.

**Registries.** Three keyed registries reject duplicates: the data source
factory, the data source service and the search bar extension registry.

Each source file is one module. Pure code becomes functions and lemmas. Loops
become methods proved against those functions. Objects whose fields change
become classes with `modifies` frames. `Wrappers`, `Strings`, `JsValues` and
`Sequences` hold shared definitions:
- the result types;
- JavaScript white space, trimming, the character-by-character string order and an
  insertion sort;
- plain objects as ordered property lists;
- distinctness.

## Model

| member | source | states |
|---|---|---|
| MultiQuery.SupportsMultiQuery | src/plugins/data/common/query/multi_query.ts:20-35 | a language supports multi-query exactly when it is `PROMQL` |
| MultiQuery.QueryLabel | src/plugins/data/common/query/multi_query.ts:43-50 | labels have one letter below index 26 and two from there on; below 702 every character is an upper-case letter; the editor copy (src/plugins/explore/public/application/utils/multi_query_utils.ts:27-35) and the server copy (src/plugins/query_enhancements/server/search/promql_search_strategy.ts:40-47) are the same function |
| MultiQuery.LabelIndexOfQueryLabel | src/plugins/data/common/query/multi_query.ts:43-50 | below 702 the label decodes back to its index |
| MultiQuery.QueryLabelInjective | src/plugins/data/common/query/multi_query.ts:43-50 | distinct indices below 702 get distinct labels |
| MultiQuery.SplitLabelsDistinct | src/plugins/data/common/query/multi_query.ts:122-137 | the queries of one split carry pairwise different labels |
| MultiQuery.AtMostOneQuoteOpen | src/plugins/data/common/query/multi_query.ts:63-78 | at every step of the scan at most one of the three quote flags is set |
| MultiQuery.EscapedCharacterKeepsState | src/plugins/data/common/query/multi_query.ts:67-69 | a character after a backslash changes no quote flag, even when that backslash is itself escaped |
| MultiQuery.IsInsideString | src/plugins/data/common/query/multi_query.ts:60-81 | the scanning loop returns whether a quote is open just before the position; the editor copy (src/plugins/explore/public/application/utils/multi_query_utils.ts:41-65) and the server copy (src/plugins/query_enhancements/server/search/promql_search_strategy.ts:52-73) are the same method |
| MultiQuery.DelimitersBelowSorted | src/plugins/data/common/query/multi_query.ts:91-104 | the delimiter positions found before `n` are strictly increasing and below `n` |
| MultiQuery.DelimitersBelowExact | src/plugins/data/common/query/multi_query.ts:97-103 | a position is found exactly when it holds the delimiter outside every quoted literal |
| MultiQuery.FindDelimiterPositions | src/plugins/data/common/query/multi_query.ts:91-104 | the loop returns exactly the unquoted delimiter positions, strictly increasing; the editor copy (src/plugins/explore/public/application/utils/multi_query_utils.ts:71-81) is the same method |
| MultiQuery.NonEmptyTrimmedTrimmed | src/plugins/data/common/query/multi_query.ts:127-134 | every kept piece is non-empty and equal to its own trim |
| MultiQuery.SplitShape | src/plugins/data/common/query/multi_query.ts:114-139 | blank input gives no queries; there are at most (unquoted delimiters + 1) queries; the k-th carries label `QueryLabel(k)`; each query is non-empty and trimmed |
| MultiQuery.SplitWithoutDelimiters | src/plugins/data/common/query/multi_query.ts:122-139 | with no unquoted `;` and non-blank input the result is the one query `A` holding the trimmed input |
| MultiQuery.BlankPiecesGiveNothing | src/plugins/data/common/query/multi_query.ts:127-134 | pieces that are all blank consume no label and give no query |
| MultiQuery.SplitMultiQueries | src/plugins/data/common/query/multi_query.ts:113-140 | the shared splitter's loop returns exactly `Split(queryString)`; the server splitter (src/plugins/query_enhancements/server/search/promql_search_strategy.ts:78-102) repeats it line for line |
| MultiQueryUtils.GetLineNumber | src/plugins/explore/public/application/utils/multi_query_utils.ts:86-94 | the loop counts the newlines before the offset, clamped to the text, and that count never exceeds the offset |
| MultiQueryUtils.SplitWithPositionsShape | src/plugins/explore/public/application/utils/multi_query_utils.ts:103-168 | blank input gives no segments; with no unquoted `;` the one segment `A` spans the whole untrimmed text from line 0; otherwise the segments are in order inside the text, `text[start..end)` is each one's query, its line numbers count the newlines before its offsets, and the k-th carries label `QueryLabel(k)` |
| MultiQueryUtils.SplitWithPositionsOrdered | src/plugins/explore/public/application/utils/multi_query_utils.ts:133-165 | every segment is non-empty and starts after the previous one ends |
| MultiQueryUtils.SplitWithPositionsProjects | src/plugins/explore/public/application/utils/multi_query_utils.ts:103-168 | dropping offsets and lines, the editor splitter returns exactly what the shared `splitMultiQueries` returns |
| MultiQueryUtils.SkipWhitespace | src/plugins/explore/public/application/utils/multi_query_utils.ts:140-150 | the two whitespace-skipping loops stop at the first and after the last non-space character of the piece |
| MultiQueryUtils.SplitPromQLQueries | src/plugins/explore/public/application/utils/multi_query_utils.ts:103-168 | the editor splitter's loops return exactly `SplitWithPositions(queryString)` |
| MultiQueryUtils.FirstHit | src/plugins/explore/public/application/utils/multi_query_utils.ts:188-218 | each search loop returns the first segment passing its test, or none when no segment does |
| MultiQueryUtils.QueryAt | src/plugins/explore/public/application/utils/multi_query_utils.ts:177-222 | the cursor lookup finds no segment exactly when there are none, and otherwise returns one of them |
| MultiQueryUtils.QueryAtOrdered | src/plugins/explore/public/application/utils/multi_query_utils.ts:177-222 | on ordered segments the five-way priority lookup picks the first segment whose end is not before the cursor, else the last segment |
| MultiQueryUtils.OrderedGapFound | src/plugins/explore/public/application/utils/multi_query_utils.ts:209-218 | when the cursor sits in a gap, the gap test finds the segment before the following one |
| MultiQueryUtils.FindQueryAtPosition | src/plugins/explore/public/application/utils/multi_query_utils.ts:177-222 | the lookup's loops return exactly `QueryAt` of the editor split |
| MultiQueryUtils.GetQueryRelativePosition | src/plugins/explore/public/application/utils/multi_query_utils.ts:231-284 | the result is missing exactly when the split is empty; otherwise it is the looked-up segment with offset cursor − start (negative in a gap) |
| MultiQueryUtils.ParseCreateCacheKey | src/plugins/explore/public/application/utils/multi_query_utils.ts:289-302 | parsing the key made from a non-empty A–Z label and a single-line query gives back that label and query |
| MultiQueryUtils.ParsedCacheKeyShape | src/plugins/explore/public/application/utils/multi_query_utils.ts:296-302 | every key that parses is the key made from what it parses to; a key not starting with a letter A–Z gives null |
| MultiQueryUtils.OffsetToLineColumn | src/plugins/explore/public/application/utils/multi_query_utils.ts:311-334 | with the offset clamped to the text, the line is 1 + the newlines before it and the column is the distance from the last such newline (from −1 when none); both are at least 1 |
| PromqlSearchStrategy.FormatMetricLabelsEmpty | src/plugins/query_enhancements/server/search/promql_search_strategy.ts:271-278 | the label text is empty exactly when no label has a non-empty value |
| PromqlSearchStrategy.FormatMetricLabelsListing | src/plugins/query_enhancements/server/search/promql_search_strategy.ts:271-278 | the text is `{k="v", …}` over exactly the non-empty labels, sorted by key |
| PromqlSearchStrategy.ObservationsExactly | src/plugins/query_enhancements/server/search/promql_search_strategy.ts:329-335 | a sample is observed exactly when it comes from a result with a response and no error, within its first `MAX_SERIES` (2000) series |
| PromqlSearchStrategy.ObservationsCount | src/plugins/query_enhancements/server/search/promql_search_strategy.ts:329-335 | there is one observation per sample of the first `MAX_SERIES` series of each successful result: their number is the sum of those sample counts |
| PromqlSearchStrategy.ObservationAt | src/plugins/query_enhancements/server/search/promql_search_strategy.ts:329-335 | observations come result by result, series by series, sample by sample: sample j of used series s of result i sits right after every sample visited before it |
| PromqlSearchStrategy.ObservationsIgnoreFailures | src/plugins/query_enhancements/server/search/promql_search_strategy.ts:330 | failed results contribute nothing: the observations equal those of the successful results alone |
| PromqlSearchStrategy.ObserveCases | src/plugins/query_enhancements/server/search/promql_search_strategy.ts:345-366 | a new signature adds an entry holding only its label's value; a strictly newer sample moves the time and sets its label's value, keeping the others; an equal-time sample overwrites its label's value; an older one changes nothing |
| PromqlSearchStrategy.ObserveRule | src/plugins/query_enhancements/server/search/promql_search_strategy.ts:351-366 | observing a known signature changes only its entry: the time becomes the maximum, the label's value is set unless the sample is older, and other entries are untouched |
| PromqlSearchStrategy.ObserveRuleNew | src/plugins/query_enhancements/server/search/promql_search_strategy.ts:354-363 | observing an unknown signature appends one entry with the sample's time and label value and keeps the earlier entries |
| PromqlSearchStrategy.ObservePreserves | src/plugins/query_enhancements/server/search/promql_search_strategy.ts:345-366 | one update keeps the entries a summary of the samples seen: distinct signatures, every sample entered, every entry at the time of one of its samples and no earlier than any, values only for labels that were seen |
| PromqlSearchStrategy.EntriesSummarise | src/plugins/query_enhancements/server/search/promql_search_strategy.ts:329-379 | after all samples, the instant entries summarise them (one entry per distinct signature, the latest time, a value for each label that reached that time) |
| PromqlSearchStrategy.LabelKeysExactly | src/plugins/query_enhancements/server/search/promql_search_strategy.ts:308-326 | the label columns are distinct, strictly sorted, and exactly the non-`__name__` keys of the used series of successful results |
| PromqlSearchStrategy.VizFieldsRoundTrip | src/plugins/query_enhancements/server/search/promql_search_strategy.ts:420-430 | the `Time`/`Series`/`Value` fields have one value per row, and reading row i back from them gives row i |
| PromqlSearchStrategy.LabelCellMeaning | src/plugins/query_enhancements/server/search/promql_search_strategy.ts:393-396 | a label cell holds the label's value when present and non-empty, and is undefined otherwise |
| PromqlSearchStrategy.InstantSchemaNames | src/plugins/query_enhancements/server/search/promql_search_strategy.ts:409-418 | the instant schema is `Time`, `Metric`, the label keys, then `Value #L` for each query label in order |
| PromqlSearchStrategy.InstantRowKeys | src/plugins/query_enhancements/server/search/promql_search_strategy.ts:384-405 | an instant row has exactly the instant schema's columns, in order |
| PromqlSearchStrategy.InstantRowCells | src/plugins/query_enhancements/server/search/promql_search_strategy.ts:384-405 | an instant row holds the entry's time, its metric text, a label cell per key and, per query label, the recorded value or null |
| PromqlSearchStrategy.MetaCounts | src/plugins/query_enhancements/server/search/promql_search_strategy.ts:433-452 | errors plus successes count every result, and there are no more used labels than successes |
| PromqlSearchStrategy.QueryErrorsExactly | src/plugins/query_enhancements/server/search/promql_search_strategy.ts:433-435 | the errors are exactly the failed results' labels and messages |
| PromqlSearchStrategy.QueryLabelsExactly | src/plugins/query_enhancements/server/search/promql_search_strategy.ts:306 | the query labels are exactly those of results with a response and no error |
| PromqlSearchStrategy.QueryErrorsInOrder | src/plugins/query_enhancements/server/search/promql_search_strategy.ts:433-435 | the k-th error is the label and message of the k-th failed result, so the errors keep input order |
| PromqlSearchStrategy.QueryLabelsInOrder | src/plugins/query_enhancements/server/search/promql_search_strategy.ts:306 | the k-th query label is the label of the k-th result with a response and no error, so the labels keep input order |
| PromqlSearchStrategy.QueryLabelsDistinct | src/plugins/query_enhancements/server/search/promql_search_strategy.ts:306 | results with pairwise different labels give pairwise different query labels |
| PromqlSearchStrategy.SplitResultsLabelsDistinct | src/plugins/query_enhancements/server/search/promql_search_strategy.ts:139-258 | the results of running the split queries, one per query and carrying its label, have pairwise different query labels, as the instant columns need |
| PromqlSearchStrategy.MultiQueryVizRows | src/plugins/query_enhancements/server/search/promql_search_strategy.ts:369-379 | the frame has one visualisation row per observed sample, in input order, with time ×1000, series `label: labels` and the sample's value; `size` is the row count |
| PromqlSearchStrategy.MultiQueryInstantRows | src/plugins/query_enhancements/server/search/promql_search_strategy.ts:384-418 | the frame has one instant row per summarised entry, laid out by the instant schema with the entry's time, label cells and per-label values |
| PromqlSearchStrategy.CollectLabelKeys | src/plugins/query_enhancements/server/search/promql_search_strategy.ts:309-326 | the nested loops adding keys to the set return exactly `LabelKeys` |
| PromqlSearchStrategy.ObserveResults | src/plugins/query_enhancements/server/search/promql_search_strategy.ts:329-379 | the second pass's loops produce exactly the replayed instant entries and the visualisation rows of all observations |
| PromqlSearchStrategy.CreateMultiQueryDataFrame | src/plugins/query_enhancements/server/search/promql_search_strategy.ts:286-456 | the assembler returns exactly `MultiQueryFrame(results, datasetId)` |
| PromqlSearchStrategy.SingleLabelKeysExactly | src/plugins/query_enhancements/server/search/promql_search_strategy.ts:465-475 | the single-query label keys are distinct, strictly sorted, and exactly the keys, `__name__` included, of its used series |
| PromqlSearchStrategy.SingleRowShape | src/plugins/query_enhancements/server/search/promql_search_strategy.ts:484-488 | when no label key is `Time` or `Value`, a single-query row has `Time`, the label keys and `Value`, with missing labels as `""` |
| PromqlSearchStrategy.LatestRowsExactly | src/plugins/query_enhancements/server/search/promql_search_strategy.ts:493-494 | the latest rows are exactly the rows whose time is the maximum, and are empty only when there are no rows |
| PromqlSearchStrategy.SingleSeriesNameFormats | src/plugins/query_enhancements/server/search/promql_search_strategy.ts:510-517 | in the model, where the default sort and `localeCompare` are the same character order, the series name built from the sorted keys with truthy values equals the label formatter's text |
| PromqlSearchStrategy.SingleFrameInstantRows | src/plugins/query_enhancements/server/search/promql_search_strategy.ts:492-500 | when no label key is `Time` or `Value`, the instant rows follow the instant schema and are exactly the rows at the latest sample time |
| PromqlSearchStrategy.TimeLabelLeavesNoInstantRows | src/plugins/query_enhancements/server/search/promql_search_strategy.ts:484-494 | when some series has a label `Time`, every row's `Time` becomes a string, so no row is at the numeric maximum and there are no instant rows |
| PromqlSearchStrategy.CreateDataFrame | src/plugins/query_enhancements/server/search/promql_search_strategy.ts:462-552 | the single-query builder returns exactly `SingleFrame(response, datasetId)` |
| MetricsRawTable.ValueColumnsExactly | src/plugins/explore/public/components/data_table/metrics_raw_table.tsx:46-57 | with some `Value #` key, there is one entry per such key, labelled by the key without `Value `, holding its value or null when undefined or null |
| MetricsRawTable.ValueColumnsSorted | src/plugins/explore/public/components/data_table/metrics_raw_table.tsx:50-51 | the entries are in the default string order of their keys, so `#AA` comes before `#B` |
| MetricsRawTable.ExtractValueColumns | src/plugins/explore/public/components/data_table/metrics_raw_table.tsx:40-67 | the loop returns exactly `ExtractedValueColumns`: the sorted value columns, else a lone unlabelled `Value`, else nothing |
| MetricsRawTable.MatchBracedExactly | src/plugins/explore/public/components/data_table/metrics_raw_table.tsx:82 | the pattern matches exactly a brace-free name, `{`, a one-line body and a final `}` |
| MetricsRawTable.LegacyLabelsExactly | src/plugins/explore/public/components/data_table/metrics_raw_table.tsx:95-107 | the older schema lists exactly the non-reserved, non-`Value #` properties with a value that is not undefined, null or empty, as `key="value"` |
| MetricsRawTable.FormatMetricString | src/plugins/explore/public/components/data_table/metrics_raw_table.tsx:74-119 | the loop returns exactly `FormattedMetric`: the `Metric` cell unchanged, or expanded one label per line; or, without it, the metric name with the older schema's labels |
| MetricsRawTable.CompactAndExpandedAgree | src/plugins/explore/public/components/data_table/metrics_raw_table.tsx:82-118 | the compact and expanded forms agree, or are `name{a, b}` and its expanded layout over the same labels |
| MetricsRawTable.InstantRowValueEntries | src/plugins/explore/public/components/data_table/metrics_raw_table.tsx:46-57 | reading back an assembler instant row gives exactly one `#L` entry per query label, holding that label's value or null |
| MetricsRawTable.InstantRowCompactMetric | src/plugins/explore/public/components/data_table/metrics_raw_table.tsx:76-80 | the compact metric text of an assembler instant row is the metric name followed by its formatted labels |
| EchartsCommon.LegendHidden | src/plugins/explore/public/components/visualizations/echarts_common/index.ts:15-17 | a hidden legend is exactly `{show: false}` |
| EchartsCommon.LegendShown | src/plugins/explore/public/components/visualizations/echarts_common/index.ts:11-26 | a shown legend has `show`, `type: scroll` and exactly the placement key of its position (default bottom); `orient: vertical` is added exactly for left and right |
| EchartsCommon.LegendShownLayout | src/plugins/explore/public/components/visualizations/echarts_common/index.ts:18-26 | the shown legend's properties, in order, for each position |
| EchartsCommon.TitleConfig | src/plugins/explore/public/components/visualizations/echarts_common/index.ts:32-41 | there is a title exactly when the options ask to show one; it is centred, and its text is the title name or else the default title |
| EchartsCommon.TooltipConfig | src/plugins/explore/public/components/visualizations/echarts_common/index.ts:46-58 | the tooltip is hidden exactly in mode `hidden`; trigger and pointer default to `axis` and `shadow` |
| EchartsCommon.GridMargins | src/plugins/explore/public/components/visualizations/echarts_common/index.ts:63-77 | bottom is 15% exactly with a bottom legend, else 3%; top is 15% exactly with a title, else 10%; left, right and containLabel are constant |
| EchartsCommon.EchartsMetadata | src/plugins/explore/public/components/visualizations/echarts_common/index.ts:82-90 | the metadata keeps the temporal flag and x field; it carries x values exactly when x is temporal and they were given |
| EchartsCommon.Dedup | src/plugins/explore/public/components/visualizations/echarts_bar/to_spec.ts:53 | `[...new Set(values)]` holds each value once and exactly the values given |
| EchartsCommon.DedupFirstOccurrence | src/plugins/explore/public/components/visualizations/echarts_bar/to_spec.ts:53 | the distinct values keep the order of their first occurrence |
| EchartsBar.DefaultSort | src/plugins/explore/public/components/visualizations/echarts_bar/to_spec.ts:54-56 | the default sort permutes the values, puts undefined last and orders the rest by their string form |
| EchartsBar.XValuesExactly | src/plugins/explore/public/components/visualizations/echarts_bar/to_spec.ts:53-56 | the category values are distinct and exactly the x values of the rows |
| EchartsBar.XValuesOrder | src/plugins/explore/public/components/visualizations/echarts_bar/to_spec.ts:53-56 | temporal categories keep first-occurrence order; others are in default string order with undefined last |
| EchartsBar.FirstMatch | src/plugins/explore/public/components/visualizations/echarts_bar/to_spec.ts:68 | `find` returns the first matching row, or none exactly when no row matches |
| EchartsBar.EchartsBarWidth | src/plugins/explore/public/components/visualizations/echarts_bar/to_spec.ts:107-108 | a non-zero width up to 1 becomes the percentage width ×100; any other width passes through |
| EchartsBar.ColourSeries | src/plugins/explore/public/components/visualizations/echarts_bar/to_spec.ts:61-75 | with a colour field there is one series per distinct colour, named by its string, with one value per category: the first matching row's metric, else 0 |
| EchartsBar.SingleSeries | src/plugins/explore/public/components/visualizations/echarts_bar/to_spec.ts:76-83 | without a colour field there is one series, named by the metric or else `Value`, with the first matching row's metric per category, else 0 |
| EchartsBar.OptionShape | src/plugins/explore/public/components/visualizations/echarts_bar/to_spec.ts:160-221 | brush/zoom and metadata x values exactly for a temporal x; category x axis and value y axis; series unstacked with `{c}` labels and the converted bar width; the tooltip, legend, title and dataset |
| EchartsBar.CreateEchartsBarSpec | src/plugins/explore/public/components/visualizations/echarts_bar/to_spec.ts:29-224 | the builder, re-sorting the categories, returns exactly `BarSpec` |
| EchartsLine.SortByXSorted | src/plugins/explore/public/components/visualizations/echarts_line/to_spec.ts:51 | the x sort leaves no point before one that is `<` it |
| EchartsLine.SortByX | src/plugins/explore/public/components/visualizations/echarts_line/to_spec.ts:51 | the x sort is a permutation of the points |
| EchartsLine.TimesAscending | src/plugins/explore/public/components/visualizations/echarts_line/to_spec.ts:51 | points with numeric x come out in ascending x |
| EchartsLine.GroupedNames | src/plugins/explore/public/components/visualizations/echarts_line/to_spec.ts:38-48 | the groups are exactly the distinct colour strings, in first-seen order |
| EchartsLine.GroupedData | src/plugins/explore/public/components/visualizations/echarts_line/to_spec.ts:41-48 | each group holds exactly its colour's rows as (x, metric) points, in row order |
| EchartsLine.GroupByColour | src/plugins/explore/public/components/visualizations/echarts_line/to_spec.ts:40-48 | the `forEach` filling the dictionary yields exactly `Grouped` |
| EchartsLine.EntriesIndexFirst | src/plugins/explore/public/components/visualizations/echarts_line/to_spec.ts:49 | `Object.entries` lists array-index names first, in ascending numeric value |
| EchartsLine.EntriesOthersInOrder | src/plugins/explore/public/components/visualizations/echarts_line/to_spec.ts:49 | the other names follow in insertion order |
| EchartsLine.EntriesOrder | src/plugins/explore/public/components/visualizations/echarts_line/to_spec.ts:49 | the enumeration order is a permutation of the names |
| EchartsLine.ColourSeries | src/plugins/explore/public/components/visualizations/echarts_line/to_spec.ts:38-52 | with a colour field: one series per distinct colour string, in enumeration order, each holding exactly that colour's points, sorted by x |
| EchartsLine.SingleSeries | src/plugins/explore/public/components/visualizations/echarts_line/to_spec.ts:53-60 | without a colour field: one series named by the metric or else `Value`, holding every row's point, sorted by x |
| EchartsLine.Smooth | src/plugins/explore/public/components/visualizations/echarts_line/to_spec.ts:63-72 | `smooth` is set exactly for line mode `smooth` |
| EchartsLine.StepOf | src/plugins/explore/public/components/visualizations/echarts_line/to_spec.ts:75-77 | `step` is `middle` exactly for line mode `stepped` |
| EchartsLine.MarkLineOf | src/plugins/explore/public/components/visualizations/echarts_line/to_spec.ts:80-104 | there is a mark line exactly when thresholds are given and non-empty, with one entry per threshold, in order, at its value and colour |
| EchartsLine.SeriesDecorations | src/plugins/explore/public/components/visualizations/echarts_line/to_spec.ts:109-127 | each series keeps its name and data; smooth and step follow the line mode; only the first series gets the mark line; area opacity exactly with area style |
| EchartsLine.OptionShape | src/plugins/explore/public/components/visualizations/echarts_line/to_spec.ts:143-191 | the x axis is `time` and unrotated exactly when temporal, else `category` at 45°; axis names fall back to column names; title, tooltip (`axis`, `cross`), legend and grid follow the style |
| EchartsLine.CreateEchartsLineSpec | src/plugins/explore/public/components/visualizations/echarts_line/to_spec.ts:12-194 | the builder, grouping and sorting in place, returns exactly `LineSpec` |
| EchartsLine.CreateEchartsMultiLineSpec | src/plugins/explore/public/components/visualizations/echarts_line/to_spec.ts:199-218 | the multi-line builder returns the same option as the line builder on the same arguments |
| DatasourceFactory.DataSourceFactory.constructor | src/plugins/data/public/data_sources/datasource/factory.ts:19-29 | a new factory has an empty table |
| DatasourceFactory.DataSourceFactory.RegisterDataSourceType | src/plugins/data/public/data_sources/datasource/factory.ts:51-62 | an unregistered key is added with its class and type and nothing else changes; a registered key fails and leaves the table unchanged; each key maps to a type with that key |
| DatasourceFactory.DataSourceFactory.GetDataSourceInstance | src/plugins/data/public/data_sources/datasource/factory.ts:73-79 | an instance is made exactly for a registered key, from that key's class and the configuration; otherwise it fails with `Unsupported data source type` |
| DatasourceFactory.FactorySingleton.GetInstance | src/plugins/data/public/data_sources/datasource/factory.ts:36-41 | every call returns the same factory; the first creates it empty |
| DatasourceFactory.InheritedKeyRefusedAsWritten | src/plugins/data/public/data_sources/datasource/factory.ts:55 | the truthiness check of the source treats the inherited `constructor` of an empty table as a registration |
| DatasourceService.DataSourceService.constructor | src/plugins/data/public/data_sources/datasource_services/datasource_service.ts:18-23 | a new service has an empty registry, published once |
| DatasourceService.DataSourceService.RegisterDataSource | src/plugins/data/public/data_sources/datasource_services/datasource_service.ts:52-66 | a new name is added, the new registry is published and `{success: true, info: ""}` returned; an existing name fails with the name-exists error and changes nothing |
| DatasourceService.AllOf | src/plugins/data/public/data_sources/datasource_services/datasource_service.ts:41 | `Promise.all` succeeds exactly when every registration does, with their results in order, and otherwise fails with the first failure |
| DatasourceService.OutcomesExactly | src/plugins/data/public/data_sources/datasource_services/datasource_service.ts:38-42 | in a batch, a source succeeds exactly when its name is neither registered nor earlier in the batch |
| DatasourceService.RegisteredAllKeys | src/plugins/data/public/data_sources/datasource_services/datasource_service.ts:38-42 | after a batch the registered names are the old ones and the batch's names |
| DatasourceService.RegisteredAllKeeps | src/plugins/data/public/data_sources/datasource_services/datasource_service.ts:38-42 | a batch never changes a name already registered |
| DatasourceService.RegisteredAllAdds | src/plugins/data/public/data_sources/datasource_services/datasource_service.ts:38-42 | each new name is registered to its first source in the batch |
| DatasourceService.DataSourceService.RegisterMultipleDataSources | src/plugins/data/public/data_sources/datasource_services/datasource_service.ts:38-42 | registering in list order yields `RegisteredAll`, publishes each successful step, and returns `AllOf` the outcomes |
| DatasourceService.FilteredExactly | src/plugins/data/public/data_sources/datasource_services/datasource_service.ts:81-87 | the filtered registry holds exactly the requested names that are registered, with their registered sources |
| DatasourceService.DataSourceService.GetDataSources | src/plugins/data/public/data_sources/datasource_services/datasource_service.ts:79-88 | without a filter or with no names the whole registry is returned; otherwise the loop returns `Filtered` |
| DatasourceService.ServiceSingleton.GetInstance | src/plugins/data/public/data_sources/datasource_services/datasource_service.ts:25-30 | every call returns the same service; the first creates it empty |
| DatasourceService.InheritedNameRefusedAsWritten | src/plugins/data/public/data_sources/datasource_services/datasource_service.ts:54 | the source's `in` check treats the inherited `toString` of an empty registry as a registered name |
| SearchBarExtensions.HasId | src/plugins/data/public/ui/search_bar_extensions/search_bar_extensions_registry.tsx:25 | `some` is true exactly when a config has the id |
| SearchBarExtensions.SearchBarExtensionsRegistry.constructor | src/plugins/data/public/ui/search_bar_extensions/search_bar_extensions_registry.tsx:19-21 | a new registry is empty |
| SearchBarExtensions.SearchBarExtensionsRegistry.Register | src/plugins/data/public/ui/search_bar_extensions/search_bar_extensions_registry.tsx:24-29 | a fresh id is appended after the earlier configs; a known id fails and leaves the list unchanged; ids stay pairwise distinct |
| SearchBarExtensions.SearchBarExtensionsRegistry.GetAll | src/plugins/data/public/ui/search_bar_extensions/search_bar_extensions_registry.tsx:32-34 | returns the registered configs |
| SearchBarExtensions.SearchBarExtensionsRegistry.Clear | src/plugins/data/public/ui/search_bar_extensions/search_bar_extensions_registry.tsx:37-39 | the list becomes empty, so any id can be registered again |

## Left out

- Strings are sequences of Unicode scalar values, while the source's `length`, indexing, `substring` and default sort work on UTF-16 code units. For text with a character outside the Basic Multilingual Plane, the model's offsets, lengths, line/column pairs and cursor lookups count that character once where JavaScript counts two (in `up{a="😀"};x` the delimiter is at offset 9 here and 10 in JavaScript), and the default string order can differ (U+FFFF sorts before such a character here and after it in JavaScript).
- Numbers are integers. `Number(value)` on sample values and the ×1000 on fractional timestamps are floating point in the source. Bar widths are reals, and the text the `%` string would print is not modelled.
- PromqlSearchStrategy.FormatMetricLabelsListing: `localeCompare` is stood in for by the character order of the default sort. Locale-specific collation is not modelled.
- The instant-entry signature is the `JSON.stringify` text of `{name, labels}`. It is modelled as the pair (metric name, labels without `__name__`), which determines it and is determined by it.
- The in-place update of `existing.valuesByQuery` is modelled as replacing the entry in the sequence of entries. No other reference to the entry exists in the source.
- PromqlSearchStrategy.MultiQueryInstantRows: assumes no label key is named `Time` or `Metric` or starts with `Value #`. With such a key, the source's row would overwrite a fixed column. It also requires the query labels to be pairwise different; SplitResultsLabelsDistinct derives that for results that carry the split queries' labels, as the executor's results do.
- PromqlSearchStrategy.LatestRowsExactly: stated for rows whose `Time` is a number. The builder's rows all have one unless a series has a label called `Time`, whose value (or `""`) then replaces every row's time; that case is covered by TimeLabelLeavesNoInstantRows instead.
- PromqlSearchStrategy.SingleFrameInstantRows: stated only when no label key is `Time` or `Value`. With a `Time` label the source's `Math.max` sees strings and no row matches, so there are no instant rows (proved as TimeLabelLeavesNoInstantRows). With a `Value` label, `row.Value = Number(value)` overwrites the label's cell and the schema names `Value` twice, so the rows no longer have the schema's columns one for one; the model computes the same rows as the source there, but the lemma says nothing about them.
- `search` and `executeMultipleQueries` are left out: asynchronous Prometheus calls, time-range parsing, a floating-point step and logging. Their output is the list of query results the assembler takes.
- Date parsing (`new Date(v).getTime()` and `toLocaleString()`) is a pair of functions passed in as `DateFns`. Invalid dates (`NaN` times) are not modelled.
- MultiQueryUtils.GetQueryRelativePosition: the synthetic new-query branch at lines 244-278 is not modelled. Its guard is never true, because the lookup always returns a segment when there is one.
- The unused `numericalColumns`, `categoricalColumns` and time-range parameters of the chart builders are not modelled.
- The fixed bar-chart defaults are constants of the model, and the `standardAxes` lookup is not modelled: always vertical, never stacked, no bar labels.
- The tooltip's percent formatter is not modelled.
- The contents of `dataZoom` and `brush` are not modelled. Only whether they are present is.
- EchartsLine.SortByX: `<` between an x value of one kind and one of another (a number and a string, say) is taken to be false, whereas JavaScript would coerce them.
- EchartsLine.SortByX: the comparator never returns 0, so the engine's order of ties is unspecified. The model fixes one such order (insertion order) and proves only what holds for every order.
- PromqlSearchStrategy.LabelCellMeaning: a label key absent from a series but named like an `Object.prototype` member (`constructor`, `toString`, `valueOf`, …) is read by the source through the prototype, so its cell holds the inherited function. The model reads own labels only and gives undefined, as the comment at line 391 intends.
- PromqlSearchStrategy.SingleRowShape: stated only when no label key is `Time` or `Value`. A `Time` label replaces the row's time with the label's value or `""`, and a `Value` label's cell is overwritten by the sample value; the model builds those rows as the source does, but the lemma does not describe them.
- PromqlSearchStrategy.SingleRowShape: for the same inherited names, the source's `|| ''` keeps the inherited function where the model gives `""`.
- PromqlSearchStrategy.SingleSeriesNameFormats: for the same inherited names, the source's series name gains a `constructor="function Object() …"` part; the proved equality with the label formatter holds for own-label lookups, which is what the model makes. It also depends on the two sorts being one order: the source sorts the keys with the default `.sort()` (code-unit order) and `formatMetricLabels` with `localeCompare`, which orders case-insensitively first. For the metric `{Zone:"x", app:"y"}` the source's series name is `{Zone="x", app="y"}` while `formatMetricLabels` gives `{app="y", Zone="x"}`; the model, using one order for both, gives the first for both.
- DatasourceFactory.DataSourceFactory.GetDataSourceInstance: for a key named like an `Object.prototype` member and never registered, the source throws a `TypeError` (the inherited value has no `dataSourceClass`); the model fails with `Unsupported data source type`, the corrected behaviour of the factory.ts:55 finding.
- DatasourceService.DataSourceService.GetDataSources: a requested name that is an `Object.prototype` member and was never registered is copied by the source's `in` test with the inherited function as its value; the model returns only registered names, the corrected behaviour of the datasource_service.ts:54 finding.
- EchartsLine.GroupByColour: colour names that are `Object.prototype` members (`constructor`, `toString`, …) make the source's grouping call `push` on an inherited function and throw. The model groups them like any other name, and EchartsLine.GroupedNames, EchartsLine.GroupedData and EchartsLine.ColourSeries describe that grouping.
- SearchBarExtensions.SearchBarExtensionsRegistry.GetAll: returns the list as a value, not the live array the source shares with its caller.
- The `createMount` function and `uiAttachment` of a search bar extension are not modelled.
- Data source classes and their constructors are not modelled. An instance is its class and the configuration it was built from.
- The `dataSources$` subject is the `published` sequence of registries it has emitted. Observers are not modelled.
- Promise scheduling is not modelled. Registration has no `await`, so each call takes effect synchronously, in list order.
- Class statics (`factory`, `dataSourceService`) are fields of a singleton holder object.
- MetricsRawTable.FormatMetricString: requires a present `Metric` cell to be a string. The source only casts it; a non-string would be returned as is or make `match` throw.
- `use_multi_query_decorations.ts`, the React components, option panels, renderers, the gauge and metric builders and the query-assist routes are not part of this model.

## Findings

| source | as written | input that shows it | evidently intended | confidence | as-written member | corrected member |
|---|---|---|---|---|---|---|
| src/plugins/data/public/data_sources/datasource/factory.ts:55 | `if (this.dataSources[key])` on a plain object sees inherited `Object.prototype` members | registering type key `constructor` on an empty factory throws "already registered" (and `getDataSourceInstance("constructor", c)` throws a `TypeError`, since the inherited `Object` function has no `dataSourceClass`) | only keys registered earlier count as registered | not executed | DatasourceFactory.InheritedKeyRefusedAsWritten | DatasourceFactory.DataSourceFactory.RegisterDataSourceType |
| src/plugins/data/public/data_sources/datasource_services/datasource_service.ts:54 | `dsName in this.dataSources` on a plain object sees inherited `Object.prototype` members | registering a data source named `toString` on an empty service throws "datasource name exists" (and a `toString` filter returns the inherited function) | only names registered earlier count as existing | not executed | DatasourceService.InheritedNameRefusedAsWritten | DatasourceService.DataSourceService.RegisterDataSource |
