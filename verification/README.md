# Data Analyzer — a verified model of its core

Data Analyzer is a browser application. A user uploads a CSV file, and the
application:

- normalizes the parsed rows;
- computes per-column statistics and a Pearson correlation matrix over the
  numeric columns (the insight engine);
- draws that matrix as a heatmap;
- answers questions about the data by sending a language model a text
  summary of the rows followed by the question, and streams the answer
  into a chat history.

This project models that core in Dafny and proves its properties.

| file | module | models |
|---|---|---|
| `types.dfy` | `Types` | cell values, records, column statistics, the matrix, chat messages (`types.ts`) |
| `seqs.dfy` | `Seqs` | filter-map, counting, sums, min/max, `join`/`split` |
| `real_facts.dfy` | `RealFacts` | small facts of real arithmetic used by the statistics proofs |
| `data_service.dfy` | `DataService` | the insight engine (`services/dataService.ts`) |
| `gemini_service.dfy` | `GeminiService` | the prompt summary and the full prompt (`services/geminiService.ts`) |
| `app.dfy` | `App` | row cleaning, the upload/reset handlers and the chat-history updates (`App.tsx`) |
| `data_insights.dfy` | `DataInsights` | heatmap flattening, the colour scale and the total cells (`components/DataInsights.tsx`) |

Modelling choices:

- **Records.** A record is the ordered list of an object's own properties, and `Get` returns `undefined` for an absent key.
- **Numbers.**
  - A JavaScript number is a finite `real`, ±Infinity or NaN, so that `isFinite` and `isNaN` are exact.
  - `Number(string)` is a parameter `toNumber`.
  - `String(finite number)` is a parameter `showNumber`.
- **Square roots.** The model has no square root.
  - A standard deviation is kept as the `SquareRoot` of its variance.
  - A correlation is kept as `Coefficient(numerator, sumSqX, sumSqY)`, which denotes numerator / (√sumSqX · √sumSqY).
  - "|r| ≤ 1" is stated as numerator² ≤ sumSqX · sumSqY, and the diagonal 1 is `Exact(1.0)`.
  - The `denominator === 0` test is "a sum of squares is 0".
- **Loops.** Loops in the source are loops in the model, each proved against a specification function:
  - the Pearson accumulation;
  - the complete-case alignment;
  - the nested fill of the pre-allocated matrix, an `array2`;
  - the cleaning of each row;
  - the `dataForChart` pushes.
- **State.** The component state of `App` is a class with one field per state hook.
  - Chat messages are objects whose `content` and `isError` the updaters change in place.
  - A handler's effect on the whole state is stated through the snapshot `AppState` and pure transition functions.

## Model

| member | source | states |
|---|---|---|
| DataService.GetNumericValues | services/dataService.ts:4-6 | at most one value per row |
| DataService.NumericValuesMembership | services/dataService.ts:4-6 | x is among the numeric values iff some row holds the finite number x in that column |
| DataService.NumericValuesInRowOrder | services/dataService.ts:4-6 | the values of a concatenation are the values of each part, so row order is kept |
| DataService.MeanBetween | services/dataService.ts:8-11 | the mean of a non-empty list lies between its minimum and maximum |
| DataService.MeanWithin | services/dataService.ts:8-11 | values within [lo, hi] have their mean within [lo, hi] |
| DataService.MeanOfConstant | services/dataService.ts:8-11 | the mean of a constant list is that constant |
| DataService.SumSquares | services/dataService.ts:15 | the sum of squared deviations is non-negative |
| DataService.SumSquaresZero | services/dataService.ts:15 | the sum of squared deviations is 0 iff every value equals the mean used |
| DataService.StdDev | services/dataService.ts:13-17 | the variance is ≥ 0, is 0 for fewer than 2 values, and otherwise is 0 iff all values equal the mean |
| DataService.DistinctNonNull | services/dataService.ts:66-67 | the set holds exactly the non-null values, and its size is at most the number of non-null values |
| DataService.IsNumericColumn | services/dataService.ts:51 | numeric iff there is a numeric value and numeric values are strictly more than 4/5 of the non-null values (null excluded from the denominator, undefined not) |
| DataService.ThresholdExceeded | services/dataService.ts:51 | for a positive count n ≤ d, n / d > 0.8 iff 5n > 4d |
| DataService.ThresholdExamples | services/dataService.ts:51 | 9 of 10 passes the threshold, 8 of 10 does not |
| DataService.ColumnStatsOf | services/dataService.ts:47-70 | column and count; missing counts null and undefined; the isNumeric rule; a numeric column has the mean, min and max of its numeric values only, and the stdDev is `StdDev` of those values around that mean; min ≤ mean ≤ max, stdDev ≥ 0 (0 for fewer than 2 values), and there is no unique count; any other column has unique ≤ count and no numeric fields |
| DataService.Stats | services/dataService.ts:42-54 | no rows give no statistics; otherwise one entry per key of the first row, in key order, each being `ColumnStatsOf` that key, with that column and count = number of rows |
| DataService.NumericColumns | services/dataService.ts:73 | at most one name per statistics entry |
| DataService.NumericColumnsFilter | services/dataService.ts:73 | the names are taken in order, and a name is present iff some numeric entry has that column |
| DataService.CauchySchwarz | services/dataService.ts:19-38 | numerator² ≤ sumSqX · sumSqY, so the coefficient lies in [-1, 1] |
| DataService.Pearson | services/dataService.ts:19-38 | null iff the lengths differ, there are no values, or either sum of squares is 0; otherwise a coefficient with positive sums of squares in [-1, 1] |
| DataService.CalculatePearsonCorrelation | services/dataService.ts:19-38 | the accumulating loop computes exactly `Pearson` |
| DataService.SumProductsSymmetric | services/dataService.ts:30 | exchanging the two series leaves the cross sum unchanged |
| DataService.AlignedLengths | services/dataService.ts:96-105 | the two aligned vectors have equal length, at most the number of rows |
| DataService.AlignedMembership | services/dataService.ts:96-105 | (a, b) is aligned iff some row holds the finite numbers a and b in the two columns |
| DataService.AlignedInRowOrder | services/dataService.ts:96-105 | aligning a concatenation aligns each part, so row order is kept |
| DataService.AlignedSwapped | services/dataService.ts:96-105 | aligning the columns the other way round exchanges the two vectors |
| DataService.AlignColumns | services/dataService.ts:96-105 | the `k` loop pushes exactly the aligned pairs |
| DataService.CorrelationOf | services/dataService.ts:89-110 | a pair's correlation, when not null, has positive sums of squares and lies in [-1, 1] |
| DataService.ConstantWhenNoSpread | services/dataService.ts:13-17 | a non-empty list has zero spread around its mean iff all its values are equal |
| DataService.CorrelationNullWhen | services/dataService.ts:95-110 | a pair is null iff no rows align or either aligned vector is constant |
| DataService.CorrelationSymmetric | services/dataService.ts:95-112 | swapping the columns gives the same value (the transposed coefficient), null exactly when the other is |
| DataService.LinearSeriesCorrelateFully | services/dataService.ts:19-38 | the series 1, 2, 3 and 2, 4, 6 around their means give the coefficient 4 / (√2 · √8), which is exactly 1 |
| DataService.ConstantColumnUncorrelated | services/dataService.ts:95-110 | a column with a single finite value is uncorrelated (null) with every other column, both ways round |
| DataService.MatrixCell | services/dataService.ts:85-112 | 1 on the diagonal; off the diagonal, null exactly when the pair's correlation is, and otherwise a coefficient in [-1, 1] |
| DataService.InsightsOf | services/dataService.ts:41-122 | for no rows, no statistics and an empty matrix; otherwise the statistics, the numeric columns taken from them and the matrix over those columns is exactly `CorrelationTable`, which `TableShape`, `TableCell` and `CorrelationNullWhen` describe |
| DataService.TableShape | services/dataService.ts:83-112 | the matrix is n × n, has 1 on its diagonal and is symmetric |
| DataService.TableSymmetric | services/dataService.ts:111-112 | cell [i][j] equals cell [j][i] |
| DataService.TableCell | services/dataService.ts:89-112 | an off-diagonal cell is null exactly when the pair's correlation is, and otherwise is that correlation or its transpose, in [-1, 1] |
| DataService.FillPair | services/dataService.ts:85-112 | one step of the `j` loop extends the filled region, writing both [i][j] and [j][i] |
| DataService.Rows | services/dataService.ts:74 | the array has n rows of n cells |
| DataService.FilledTable | services/dataService.ts:83-119 | once every pair is filled, the array is exactly the correlation table |
| DataService.ProcessDataForInsights | services/dataService.ts:41-122 | the method returns exactly `InsightsOf`: no statistics and an empty matrix for no rows, otherwise the statistics and the table over the numeric columns |
| App.CleanValue | App.tsx:46-53 | empty string iff null; a number iff the cell is non-empty and `Number` does not give NaN, and then that number; otherwise the original string; never undefined |
| App.CleanedKeys | App.tsx:43-56 | cleaning keeps the keys of a row, in order |
| App.CleanedGet | App.tsx:43-56 | reading a key of the cleaned row gives the cleaned raw cell, or undefined when the row has no such key |
| App.CleanRow | App.tsx:44-55 | the `for key in row` loop builds exactly the cleaned row |
| App.CleanData | App.tsx:43-56 | the same number of rows, in order, each with its keys, each row cleaned |
| App.WithQuestion | App.tsx:84-87 | the old history followed by exactly the user's question and an empty model message (`StreamedAnswer` follows it through a stream) |
| App.WithChunk | App.tsx:94-101 | the length is unchanged and all but the last message are kept; a last model message gets the chunk appended; otherwise nothing changes |
| App.ChunksAccumulate | App.tsx:92-101 | two chunks in a row append their concatenation |
| App.StreamedAnswer | App.tsx:84-101 | after asking, the streamed chunks leave exactly the question and one model message holding their concatenation |
| App.ErrorText | App.tsx:104-109 | "Error: " followed by the thrown message, or by "An unknown error occurred." for a thrown non-`Error` |
| App.WithError | App.tsx:105-115 | a last model message is replaced in place (same length); otherwise exactly one error message is appended; either way the history ends with the error message and keeps the earlier messages |
| App.StreamThenError | App.tsx:84-115 | a failure after any number of chunks leaves the question followed by one error message |
| App.Views | App.tsx:21 | one message value per message object |
| App.ResetsClear | App.tsx:123-132 | both the reset and the start of an upload clear data, statistics, matrix and history; the reset leaves nothing loading or answering and no error |
| App.UploadOutcome | App.tsx:24-73 | after an upload, loading has ended and the history is empty. An error is set iff the text is missing or empty or the CSV has no data rows, and then nothing is stored. Otherwise the cleaned rows (at least one), the file name, and exactly the engine's statistics and matrix are stored |
| App.App.constructor | App.tsx:15-22 | the initial state hooks |
| App.App.ResetState | App.tsx:123-132 | the state becomes the initial state |
| App.App.BeginUpload | App.tsx:25-31 | the synchronous start of an upload |
| App.App.OnLoad | App.tsx:34-73 | the reader's load handler, as `Loaded` |
| App.App.StoreRows | App.tsx:58-67 | no cleaned rows set the "no data rows" error; otherwise the rows and their insights are stored |
| App.App.HandleFileUpload | App.tsx:24-73 | the whole upload, as `Loaded` after `UploadStarted` |
| App.App.AskQuestion | App.tsx:82-90 | the prompt sent is `FullPrompt` of the question and the current data; two messages are appended; the answer is now pending |
| App.App.AppendQuestion | App.tsx:84-87 | appends two new message objects, the user's question and an empty model message |
| App.App.ReceiveChunk | App.tsx:94-101 | changes only the last message object, as `WithChunk` |
| App.App.ReceiveError | App.tsx:103-115 | updates or appends, as `WithError` with the error text |
| App.App.FinishAnswer | App.tsx:116-118 | the answer is no longer pending; nothing else changes |
| GeminiService.NatToString | services/geminiService.ts:30 | a decimal numeral, with no leading zero unless it is "0" |
| GeminiService.NatToStringValue | services/geminiService.ts:30 | reading the numeral back gives the count |
| GeminiService.JsString | services/geminiService.ts:27 | `String(val)`: the text of a string, `showNumber` of a finite number, exactly "NaN", "Infinity" and "-Infinity" for the special numbers, "null" for null and "undefined" for undefined (`CsvField` recovers it from a field) |
| GeminiService.Escape | services/geminiService.ts:27 | escaping never shortens the text |
| GeminiService.UnescapeEscape | services/geminiService.ts:27 | halving each doubled quote undoes the doubling |
| GeminiService.UnquoteQuote | services/geminiService.ts:27 | dropping the outer quotes and halving the inner ones gives back the text |
| GeminiService.CsvField | services/geminiService.ts:27 | empty iff the value is null or undefined; otherwise unquoting the field gives back `String(val)` |
| GeminiService.SampleLines | services/geminiService.ts:26-28 | min(5, rows) lines, line k being row k's fields joined by "," |
| GeminiService.PrepareDataForPrompt | services/geminiService.ts:17-35 | exactly "The CSV file is empty." iff there are no rows; otherwise the summary ends with "\n\n" |
| GeminiService.FullPrompt | services/geminiService.ts:57-58 | the summary, then `User's Question: "`, then the question, then `"`, at these exact positions |
| GeminiService.SizeLineOneLine | services/geminiService.ts:30 | the size line holds no line break |
| GeminiService.HeadersLineOneLine | services/geminiService.ts:22-31 | the headers line holds no line break when no header does |
| GeminiService.SummaryLines | services/geminiService.ts:17-35 | when no header or sample row holds a line break, splitting the summary at line breaks gives: the size line with the row and column counts, the headers joined by ", ", a blank line, the sample heading, the sample lines in row order, and two empty lines |
| GeminiService.LinesOneLine | services/geminiService.ts:22-32 | no summary line holds a line break of its own |
| GeminiService.SummaryIsJoin | services/geminiService.ts:17-35 | the summary is its lines joined by "\n" |
| DataInsights.CorrelationHeatmap | components/DataInsights.tsx:40-55 | fewer than 2 columns give the notice and no entries; otherwise the nested loops push exactly `ChartData` |
| DataInsights.RowMajor | components/DataInsights.tsx:49-50 | the loops visit rows · n cells |
| DataInsights.RowMajorMembership | components/DataInsights.tsx:49-50 | the loops visit (i, j) iff i < rows and j < n |
| DataInsights.RowMajorSorted | components/DataInsights.tsx:49-50 | the loops visit cells in strictly increasing row-major order |
| DataInsights.ChartMembership | components/DataInsights.tsx:48-55 | an entry is in `ChartData` (what the loops push when there are at least 2 columns) iff some cell (i, j) holds its value, with x = columns[i] and y = columns[j] |
| DataInsights.ChartCount | components/DataInsights.tsx:48-55 | one entry per non-null cell, so at most n² entries |
| DataInsights.ChartRowMajor | components/DataInsights.tsx:48-55 | entry k comes from the k-th non-null cell, and the cells it comes from are in strictly increasing row-major order |
| DataInsights.ChartSymmetric | components/DataInsights.tsx:49-53 | for a symmetric matrix, (x, y, v) is in `ChartData` iff (y, x, v) is |
| DataInsights.InsightsChartRange | components/DataInsights.tsx:48-55 | for the engine's matrix every value in `ChartData` is a coefficient in [-1, 1] |
| DataInsights.InsightsChartDiagonal | components/DataInsights.tsx:48-55 | for the engine's matrix every numeric column is in `ChartData` against itself with value 1; it is drawn only when there are at least 2 numeric columns |
| DataInsights.ColorScale | components/DataInsights.tsx:57-61 | grey for null; otherwise alpha = \|value\|, and green exactly when the value is positive (`ColorOfCoefficient` gives the range and the red case) |
| DataInsights.ColorOfCoefficient | components/DataInsights.tsx:57-61 | alpha = \|value\| lies in [0, 1] and is 0 iff the value is; green iff the value is positive, red iff it is 0 or negative |
| DataInsights.TotalCells | components/DataInsights.tsx:107-123 | zero exactly when there are no rows or no columns, and otherwise at least the rows and at least the columns |
| DataInsights.TotalCellsOfInsights | components/DataInsights.tsx:107-123 | total cells = rows × statistics entries, which is rows × keys of the first row (0 for no rows) |

## Left out

- **User interface.** React rendering, hooks, styling and the recharts axes, with nothing to state beyond the values modelled above.
- **`FileReader`.** The text read is a parameter (`None` when there is none).
- **`reader.onerror`** (App.tsx:75-78). File I/O.
- **`d3.csvParse`.** A parameter `csvParse`; its own parsing is not modelled.
- **The language-model client.** The API key, the chat session, the network request and the asynchronous stream. The stream's chunks and failure are inputs to `ReceiveChunk` and `ReceiveError`.
- **`SimpleMarkdown` and the other components.** Presentation only.
- **Floating point.**
  - Reals replace doubles, so rounding, overflow to Infinity and underflow of the square-root product to 0 are not modelled.
  - The 80 % threshold is exact, so a ratio that rounds across 0.8 is not reproduced.
  - `Math.sqrt` is kept symbolic, as described above.
- **`Number(value)`.** A parameter, so its whitespace and "Infinity" parsing are not modelled.
- **Number formatting.** `String(number)` is a parameter, and `toLocaleString`/`toFixed` formatting is not modelled.
- **`numericDataCache`** (services/dataService.ts:76-81). It is filled but never read, so it has no effect.
- **Repeated property names.** A record is a list of properties, and nothing stops `csvParse` from returning a row with a repeated key, which no JavaScript object can have. On such a row `Get` reads the first occurrence, while the statistics and the prompt would list the column twice.
- **Property order of parsed rows.** Taken as the CSV header order; JavaScript's own ordering of integer-like keys is not modelled.
- **Other throw paths in the upload.** The "An unknown error occurred during parsing." branch (App.tsx:70) and exceptions thrown by the parser or the engine. In the model only `Error`s with the two messages are thrown.
- **React updater semantics.** Re-invocation of updaters and batching of state updates. Each updater is applied once, in order.
- **The rendered notice.** `CorrelationHeatmap` yields `NotEnoughColumns` for the notice.
- CorrelationHeatmap: requires a square matrix as long as `columns`, which the engine always produces (`TableShape`). A malformed matrix would make the source push undefined values or throw.
- PrepareDataForPrompt: for empty data, the prompt joins "The CSV file is empty." directly to the question marker with no line break. This follows the source.
- DataService.Mean: carries no contract of its own; its properties are the lemmas `MeanBetween`, `MeanWithin` and `MeanOfConstant`.
- ColorScale: the grey colour for `null` is defined but unreachable from the chart, because only non-null cells are drawn.
