# Excel chatbot core, modelled in Dafny

This project models the decision logic under an Azerbaijani-language Streamlit
chatbot that answers questions about an uploaded Excel sheet:

- **the table loader and profiler** (`utils/excel_processor.py`): cleaning a
  parsed sheet (infinities and missing cells become `""`, headers become text),
  per-column counts, and the numeric / date / categorical / text classifier;
- **the chart selector** (`utils/visualization.py`): choosing a histogram, line,
  bar, pie or scatter chart from keywords in the lower-cased query, binding the
  first suitable columns in table order or failing with the kind's own error,
  and the group means (bar) and value counts (pie) the chart shows;
- **the keyword query classifier and column extractor** (`utils/nlp_utils.py`);
- **the prompt builders and the reply post-processor** (`utils/chatgpt_utils.py`),
  which appends the `" visualization"` marker to replies that call for a chart;
- **the session state of the page** (`app.py`): upload history, selected item,
  chat list, loaded table, history-slider paging, and the reset transitions.

Modules: `Results` (a `Result` for raised exceptions and an `Option`), `Text`
(Python's `in` on strings, `str.lower`, `str.endswith`, `str(int)`, `"\n".join`),
`ExcelProcessor`, `Visualization`, `NlpUtils`, `ChatGptUtils` and `App`.

A table is a list of column names, one dtype tag per column (`Numeric`,
`Datetime`, `Object`) and rows of cells (`Num`, `Str`, `Inf`, `Missing`). The
chart selector's "categorical" columns are the `Object`-dtype columns
(`select_dtypes(include=['object'])`), not the classifier's `categorical` label.
`ProcessExcelFile` turns a column that had an infinite or missing cell into an
`Object` column, since writing `""` into a numeric or datetime column upcasts it
in pandas. The session is a class whose chat list is an object of its own,
because `load_history_item` makes the session's chat list and the item's chat
list the same Python list.

## Model

| member | source | states |
|---|---|---|
| Text.LowerIdempotent | utils/visualization.py:19 | lower-casing twice is lower-casing once |
| Text.IntToStringRoundTrip | utils/excel_processor.py:26 | the decimal text of an integer reads back as that integer |
| Text.JoinContainsPart | utils/chatgpt_utils.py:88 | every part joined with a separator occurs in the result |
| ExcelProcessor.ProcessExcelFile | utils/excel_processor.py:18-30 | a parse failure becomes a failure with the fixed prefix and the parser's message; a parsed table keeps its rows and column order, has no infinite or missing cell, every blank cell becomes `""` and every other cell is kept, names become their text; a column without a blank cell keeps its dtype and one with a blank cell becomes an object column; a well-formed sheet gives a well-formed table |
| ExcelProcessor.FailureHasPrefix | utils/excel_processor.py:29-30 | every failure message starts with "Excel faylı emal edilə bilmədi: " |
| ExcelProcessor.IntHeaderRoundTrip | utils/excel_processor.py:26 | an integer header's text reads back as the integer |
| ExcelProcessor.CountsAddUp | utils/excel_processor.py:47-48 | non-null count plus null count is the row count |
| ExcelProcessor.CleanColumnHasNoNulls | utils/excel_processor.py:22-23 | a cleaned column has no null cell and all its cells count as non-null |
| ExcelProcessor.GetColumnStatistics | utils/excel_processor.py:42-63 | one entry per column name; each entry has the column's dtype, its null count, counts adding up to the row count, its distinct-value count, and the numeric keys exactly for numeric columns |
| ExcelProcessor.ClassifyColumn | utils/excel_processor.py:78-85 | numeric iff numeric dtype, date iff datetime dtype, categorical iff object dtype and 2·distinct < rows, text iff object dtype and 2·distinct ≥ rows |
| ExcelProcessor.HalfRule | utils/excel_processor.py:82 | `nunique < len * 0.5` is exactly `2 * nunique < len` |
| ExcelProcessor.DetectColumnTypes | utils/excel_processor.py:75-87 | one label per column name, the one the first-match rule gives |
| Visualization.ChartPriority | utils/visualization.py:19-32 | histogram iff a histogram word occurs; line iff no histogram word and a line word; bar, pie likewise down the order; scatter iff no keyword at all |
| Visualization.ChartKindIsFirstMatchingRule | utils/visualization.py:22-32 | the if/elif chain is the ordered rule list histogram, line, bar, pie with scatter as default |
| Visualization.ChartKindIgnoresCase | utils/visualization.py:19 | a query and its lower-case form choose the same kind |
| Visualization.IndicesOf | utils/visualization.py:36 | `select_dtypes` lists only columns of the dtype, in strictly increasing table order |
| Visualization.IndicesOfComplete | utils/visualization.py:36 | every column of the dtype is listed |
| Visualization.IndicesOfNonEmpty | utils/visualization.py:38 | the list is non-empty iff some column has the dtype |
| Visualization.IndicesOfTwo | utils/visualization.py:64 | the list has at least two entries iff two columns have the dtype |
| Visualization.IndicesOfFirst | utils/visualization.py:41 | the first listed column is the first column of the dtype in table order |
| Visualization.IndicesOfFirstTwo | utils/visualization.py:67-68 | the first two listed columns are the first two of the dtype in table order |
| Visualization.DistinctKeys | utils/visualization.py:101 | each value of the column that is not missing once, and nothing else |
| Visualization.Occurrences | utils/visualization.py:131 | a value occurs a positive number of times iff it is in the column |
| Visualization.GroupMeansAreMeans | utils/visualization.py:101 | one bar per category that is not missing, every such category has one, and each bar times its row count is the total of the value column over its rows |
| Visualization.GroupMeansOfAAB | utils/visualization.py:101 | two rows of one category and one of another give the mean of the two and the single value |
| Visualization.GroupMeansExample | utils/visualization.py:101 | rows (A,10), (A,20), (B,5) give A = 15 and B = 5 |
| Visualization.ValueCountsAreCounts | utils/visualization.py:131 | one slice per distinct value that is not missing, every such value has one, each slice's size is the number of rows holding the value |
| Visualization.ValueCountsTotal | utils/visualization.py:131 | the slice sizes add up to the number of cells that are not missing (`count()`) |
| Visualization.MissingKeyGetsNoBar | utils/visualization.py:101 | rows (missing, u) and (a, w) give the single bar a = w: `groupby` drops the missing key |
| Visualization.MissingValueGetsNoSlice | utils/visualization.py:131 | the column missing, x gives the single slice x = 1: `value_counts` drops the missing value |
| Visualization.ValueCountsOfXXY | utils/visualization.py:131 | the column x, x, y gives slices x = 2 and y = 1 |
| Visualization.HistogramFailure | utils/visualization.py:34-46 | fails with its own message iff no column is numeric; a success is a histogram |
| Visualization.HistogramBinding | utils/visualization.py:34-46 | a histogram binds the first numeric column |
| Visualization.LinePlotFailure | utils/visualization.py:60-74 | fails with its own message iff fewer than two columns are numeric; a success is a line chart |
| Visualization.LinePlotBinding | utils/visualization.py:60-74 | x is the first numeric column and y the second |
| Visualization.BarPlotFailure | utils/visualization.py:88-107 | fails with its own message iff there is no object column or no numeric column; a success is a bar chart |
| Visualization.BarPlotBinding | utils/visualization.py:88-107 | binds the first object column and the first numeric column and reports the group means of the latter by the former |
| Visualization.PieChartFailure | utils/visualization.py:121-138 | fails with its own message iff no column is of object dtype; a success is a pie chart |
| Visualization.PieChartBinding | utils/visualization.py:121-138 | binds the first object column and reports its value counts |
| Visualization.ScatterPlotFailure | utils/visualization.py:149-163 | fails with its own message iff fewer than two columns are numeric; a success is a scatter chart |
| Visualization.ScatterPlotBinding | utils/visualization.py:149-163 | x is the first numeric column and y the second |
| Visualization.OneOfEachColumn | utils/visualization.py:64-65 | with one object and one numeric column a line plot fails and a bar chart binds that pair |
| Visualization.CreateChartOutcome | utils/visualization.py:22-32 | the builder chosen for a kind yields a chart of that kind, or fails with that kind's message exactly when the table lacks its columns |
| Visualization.CreateVisualizationOutcome | utils/visualization.py:7-32 | the chart has the chosen kind, or the call fails with that kind's message exactly when the table lacks its columns; no fallback to another kind |
| Visualization.CreateVisualizationIgnoresCase | utils/visualization.py:19-32 | a query and its lower-case form give the same chart |
| NlpUtils.ExtractColumnsFromQuery | utils/nlp_utils.py:62-79 | returns the mentioned columns, or all columns when none is mentioned |
| NlpUtils.MentionedColumnsMembership | utils/nlp_utils.py:74-77 | a column is kept iff it is a column whose lower-cased name occurs in the lower-cased query |
| NlpUtils.MentionedColumnsInOrder | utils/nlp_utils.py:74-77 | the kept columns are a subsequence of the columns |
| NlpUtils.ExtractedColumnsFallback | utils/nlp_utils.py:79 | never empty when there is a column; all columns when none is named; exactly the named ones otherwise |
| NlpUtils.ExtractedColumnsIgnoreCase | utils/nlp_utils.py:76 | extraction ignores the case of the query |
| NlpUtils.DetectQueryType | utils/nlp_utils.py:30-60 | summary iff a summary word occurs (with all columns); statistics iff no summary word and a statistics word; unknown iff no keyword, and then the column list is empty; statistics and visualisation return the extracted columns; with columns present the list is empty iff unknown |
| NlpUtils.DetectQueryTypeLowerCase | utils/nlp_utils.py:50-58 | "qrafik" is a visualisation query |
| NlpUtils.DetectQueryTypeUpperCase | utils/nlp_utils.py:53-60 | "QRAFIK" matches no group: the test is case-sensitive |
| NlpUtils.SummaryHeaderStatesCounts | utils/nlp_utils.py:94-95 | the two header lines read back as the row count and the number of columns passed in |
| NlpUtils.GenerateVisualizationResponse | utils/nlp_utils.py:134-146 | the response contains "visualization" |
| ChatGptUtils.ProcessVisualizationRequest | utils/chatgpt_utils.py:129-148 | flag iff the lower-cased reply holds one of the seven words; flagged replies get " visualization" appended, others are unchanged |
| ChatGptUtils.MarkedReplyHasMarker | utils/chatgpt_utils.py:144-148 | a flagged reply contains "visualization" |
| ChatGptUtils.ProcessVisualizationRequestStable | utils/chatgpt_utils.py:141-146 | processing the processed reply again gives the same flag |
| ChatGptUtils.PrepareSystemMessage | utils/chatgpt_utils.py:59-104 | the message is the template filled with the row count, the column count and one info line per column in order |
| ChatGptUtils.ColumnInfoLineReadsBack | utils/chatgpt_utils.py:74-81 | an info line starts with the column name, is labelled "rəqəmsal" iff the column is numeric, and its number reads back as the distinct-value count |
| ChatGptUtils.SystemMessageListsColumns | utils/chatgpt_utils.py:83-88 | every column's info line occurs in the message |
| ChatGptUtils.SystemMessageStatesShape | utils/chatgpt_utils.py:70-71 | after its fixed opening and the row label the message holds the row count as a digit run ended by a newline, then the column label and the column count the same way |
| ChatGptUtils.StatesCountsDetermined | utils/chatgpt_utils.py:70-71 | a message can be read as stating only one row count and one column count after those labels |
| ChatGptUtils.SystemMessageCountsAreExact | utils/chatgpt_utils.py:70-71 | the counts the system message can be read as stating are the table's own row and column counts |
| ChatGptUtils.PrepareUserMessage | utils/chatgpt_utils.py:106-127 | the message starts with "İstifadəçi sualı: " followed by the query verbatim and contains the sample |
| App.ValidateExcelFile | app.py:327-331 | accepted iff a file is present and its name ends in ".xlsx" or ".xls" |
| App.ValidateExcelFileExamples | app.py:327-331 | ".xlsx" and ".xls" pass; ".XLSX", ".csv" and no file do not |
| App.TotalPages | app.py:357-359 | no pages iff no items; otherwise the ceiling of items / 3 |
| App.Clamp | app.py:362 | the clamped position is a page that exists, and an existing page is kept |
| App.PagesCoverItems | app.py:357-359 | every item's page exists and the last item is on the last page |
| App.Session.constructor | app.py:301-315 | the session defaults |
| App.Session.AddToHistory | app.py:333-341 | one fresh item with an empty chat appended, earlier items and their chats untouched, the new item selected |
| App.Session.LoadHistoryItem | app.py:343-346 | the item is selected and its chat list becomes the session's chat list |
| App.Session.DrawHistorySlider | app.py:350-362 | with history the position is clamped to an existing page; without, nothing changes |
| App.Session.PreviousPage | app.py:393-396 | one page back after clamping, staying at 0 on the first page; never below 0 |
| App.Session.NextPage | app.py:401-404 | one page forward after clamping, staying put on the last page; never past it |
| App.Session.ToggleSidebar | app.py:408-410 | the sidebar flag flips and nothing else changes |
| App.Session.ClearHistory | app.py:441-447 | history and selection emptied, a new empty chat list, no table, upload view; the forgotten items' chats untouched |
| App.Session.NewFile | app.py:483-487 | a new empty chat list, no table, upload view; history and selection kept |
| App.Session.UploadFile | app.py:462-477 | a wrong extension is refused with the fixed message, a reader failure is reported with its message, and both change nothing; otherwise the cleaned table is loaded, the chat view opens and one new item joins the history, with the file's name, the upload time and a new empty chat list of its own |
| App.Session.SubmitPrompt | app.py:501-526 | an empty prompt does nothing; otherwise exactly two entries, the prompt then the processed reply, are appended to the current chat list; a chart is built from the prompt iff the reply contains "visualization", which every flagged reply does; chat lists of other items are untouched |

## Left out

- Spreadsheet parsing (`pd.read_excel`) and pandas' dtype inference: the parsed sheet or the parser's error message is an input.
- The chat service request (`get_chatgpt_response`), the API-key check at import time, and `process_query`, which only wraps them: the reply is an input of `App.Session.SubmitPrompt`.
- Plotly figure construction and layout: a chart is an abstract `ChartSpec`.
- Streamlit rendering (CSS, markdown, buttons, spinners, reruns) and the static text tables of `resources/az_language.py` and `config/settings.py`; the few keywords needed are constants.
- Floating-point statistics: the values of mean, std, min, max and median, and `generate_statistics`; bar means are exact `real` quotients.
- The loop of `generate_summary` after its first two lines, which only formats float statistics.
- `df.head().to_string()`: the rendered sample is an input of `ChatGptUtils.PrepareUserMessage`.
- The `translations` parameter of `detect_query_type`, which the source never reads.
- The `bool` dtype, float and datetime column headers, and duplicate column names (with which pandas' `df[name]` returns a frame, not a column).
- Time: `datetime.now()` is an integer timestamp parameter.
- Text.Lower: lower-cases ASCII, the Latin-1 capitals, Ğ, Ş, Ə and İ (to "i" plus U+0307) only; other characters are kept as they are.
- Visualization.GroupMeans: categories are listed in first-seen order, where pandas' `groupby` sorts them.
- Visualization.ValueCounts: values are listed in first-seen order, where pandas sorts them by count.
- ExcelProcessor.GetColumnStatistics: records only whether the mean/std/min/max keys are present, not their values, and requires distinct column names.
- ExcelProcessor.DetectColumnTypes: requires distinct column names.
- App.Session.UploadFile: requires the upload view (`show_chat` false), the only state in which the uploader is drawn, and a well-formed parsed sheet.
- App.Session.SubmitPrompt: requires the chat view (`show_chat` true), the only state in which the chat input is drawn.
- App.Session.DrawHistorySlider: `create_history_slider` is not called from `main()` in app.py, so in the running page the slider, its clamping and its buttons are never drawn; they are modelled as written.
- App.Session.ToggleSidebar: `toggle_sidebar` is not called anywhere in app.py, so the flag never flips in the running page; it is modelled as written.
