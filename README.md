# S&P 500 tracker — a Dafny model

This project models the logic of three small stock-charting scripts. What the
scripts share is a tracked list of tickers and a filter-and-chart step over a
price dataset:

- `sp500_tracker.py` is a console loop. It reads tickers, downloads each new
  one's prices for the fixed window 2020-01-01 to 2024-01-01, and plots every
  tracked ticker's closing prices. After each successful add it offers to
  finish, to remove a ticker by its 1-based number, or to add another. It
  shows a final plot if any ticker is left.
- `newapp.py` is a web callback. It adds the typed ticker to the same kind of
  list and returns the comparison figure.
- `app.py` is a web dashboard over a date-sorted dataset. Its two callbacks
  select one company's rows in an inclusive date range. They draw the closing
  price and the traded volume of those rows.

Files and modules:

- `wrappers.dfy` (`Wrappers`): `Option`.
- `text.dfy` (`Text`): the text handling the scripts use. This covers
  `str.strip()` with Python's whitespace set, `str.lower()`, Python
  truthiness of an optional string, and `int()` on a console line with its
  round trip from `str()`. `int()` skips a slightly smaller whitespace set
  than `strip()` drops, so trimming is parameterised by the set.
- `order.dfy` (`StrOrder`): Python's order on strings, proved equal to
  dictionary order. Dates are `YYYY-MM-DD` text, so this order is also date
  order.
- `tracked.dfy` (`TrackedList`): the shared tracked list. It holds the
  `(stock_data, ticker)` entries and the case-insensitive duplicate check. It
  also holds the invariant that tickers stay distinct ignoring case, removal
  by position, one closing-price line per entry, and `get_stock_data` as a
  `Provider` class. The provider logs each download request and answers it
  with the next scripted reply.
- `tracker.dfy` (`Tracker`): the console loop. `Session` is a pure
  reference for the whole `while True` loop over the lines the user types.
  Class `StockTracker` runs it step by step: `AddTicker`, `Remove`, `Pass`
  (one pass of the loop body), `ShowAndAsk` (the part of a pass after a
  successful add), `Interact` (the loop) and `RunSession` (the loop and then
  the final plot). `Interact` is proved to end in exactly the state and with
  exactly the plots `Session` gives.
- `comparison.dfy` (`Comparison`): `newapp.py`'s `add_stock` as class
  `ComparisonApp`, and `plot_multiple_stocks` as a function.
- `dashboard.dfy` (`Dashboard`): `app.py`. It models the company list, the
  date-window slicing, the company mask, and both chart callbacks.

Two behaviours of the code are easy to miss:

- A start date later than the end date gives an empty chart. No error is
  raised (app.py:85).
- A removal number outside the list only prints a message and removes
  nothing. No error is raised (sp500_tracker.py:75-79).

## Model

| member | source | states |
|---|---|---|
| `Text.Truthy` | app.py:82 | Python truthiness of an optional text value, as `if stock_ticker:` (newapp.py:46) and `not company or …` test it: false exactly when the value is missing or the empty string |
| `Text.StripStart` | sp500_tracker.py:39 | the result is the suffix of the input left after its leading whitespace, and it does not start with whitespace |
| `Text.StripEnd` | sp500_tracker.py:39 | the result is the prefix of the input left after its trailing whitespace, and it does not end with whitespace |
| `Text.Strip` | sp500_tracker.py:39 | `strip()` is no longer than its input and neither starts nor ends with whitespace |
| `Text.TrimIgnoresPadding` | sp500_tracker.py:39 | for either whitespace set, whitespace added around a line never changes the trimmed text |
| `Text.StripIgnoresPadding` | sp500_tracker.py:60 | whitespace added around a line never changes what `strip()` returns |
| `Text.Lower` | sp500_tracker.py:45 | `lower()` keeps the length, leaves no ASCII capital, and changes only ASCII capitals, each to its small letter |
| `Text.LowerCommutesWithStrip` | sp500_tracker.py:60 | `lower()` and `strip()` can be applied in either order |
| `Text.LowerIdempotent` | sp500_tracker.py:45 | lower-casing twice is lower-casing once |
| `Text.ParseInt` | sp500_tracker.py:72 | `int()` of a blank line raises `ValueError`, and a negative result always comes from a leading `-` |
| `Text.ParseTrimmed` | sp500_tracker.py:72 | trimmed text that is empty never parses, and only a leading `-` gives a negative number |
| `Text.Show` | sp500_tracker.py:68 | `str(n)`: a `-` before the decimal digits of a negative number, the bare decimal digits otherwise; its shape is proved in `Text.ShowShape` and its reading back in `Text.ParseShow` |
| `Text.ShowShape` | sp500_tracker.py:68 | `str(n)` is a `-` exactly for a negative number, followed by the digit group of `str(abs(n))`, with no whitespace that `int()` skips at either end and never a leading `+` |
| `Text.DecimalValue` | sp500_tracker.py:68 | the digits `str()` writes spell the number, and every one of them counts toward the 4300-digit limit |
| `Text.ParseShow` | sp500_tracker.py:72 | `int()` reads back every integer that `str()` writes, up to the 4300-digit limit they share |
| `Text.ParseIntIgnoresPadding` | sp500_tracker.py:72 | `int()` ignores the whitespace it skips around the number: ASCII space, `\t` to `\r`, and non-ASCII whitespace, but not U+001C to U+001F |
| `Text.ParseShowRoundTrip` | sp500_tracker.py:72 | `int()` of `str(n)` surrounded by whitespace that `int()` skips is `n` |
| `StrOrder.LessIsLexBefore` | app.py:85 | Python's `<` on strings is dictionary order: a proper prefix comes first, otherwise the first differing character decides |
| `StrOrder.LexBeforeStep` | app.py:85 | dictionary order between non-empty strings is decided by their first characters, or when those agree by the rest |
| `StrOrder.LessTransitive` | app.py:9-12 | Python's string order is transitive |
| `StrOrder.LessTotal` | app.py:12 | any two different strings are ordered one way or the other |
| `StrOrder.NotLess` | app.py:85 | `not (a < b)` holds exactly when `b <= a` |
| `TrackedList.AlreadyAdded` | sp500_tracker.py:45 | the duplicate check is true exactly when some tracked ticker equals the new one after lower-casing both |
| `TrackedList.AppendKeepsDistinct` | sp500_tracker.py:45-54 | appending a ticker that passed the duplicate check keeps all tickers distinct ignoring case |
| `TrackedList.RemoveAt` | sp500_tracker.py:76 | `del` drops exactly one element: those before it keep their positions, those after move down by one, and the multiset loses exactly the removed element |
| `TrackedList.RemoveKeepsDistinct` | sp500_tracker.py:72-77 | removing an entry keeps the remaining tickers distinct ignoring case |
| `TrackedList.ClosingTraces` | newapp.py:21-24 | one trace per tracked entry, in list order, with x the entry's date index, y its `Close` series and name its ticker |
| `TrackedList.ClosingTracesNamed` | sp500_tracker.py:19-20 | the plotted lines are labelled by the tracked tickers, so the labels are distinct ignoring case whenever the tickers are |
| `TrackedList.Provider.GetStockData` | sp500_tracker.py:4-12 | a download logs one request for the given ticker and window, and returns the provider's next reply, where `None` is a failed download |
| `Tracker.PlotMultipleStocks` | sp500_tracker.py:14-28 | one line per tracked entry, named by its ticker with its closing prices, under the given title and fixed axis labels, with legend and grid |
| `Tracker.ParseMenu` | sp500_tracker.py:60-64 | the answer means finish exactly when its stripped text is `finish` ignoring case, and remove exactly when it is `remove` ignoring case; anything else adds another ticker |
| `Tracker.LowerMatches` | sp500_tracker.py:60 | comparing the lower-cased answer with a lower-case word is comparing the answer with that word ignoring case |
| `Tracker.MenuIgnoresCaseAndPadding` | sp500_tracker.py:60-64 | the menu choice depends on neither the case of the answer nor the whitespace around it |
| `Tracker.RemovalIndex` | sp500_tracker.py:72-75 | the position chosen for removal, when there is one, is inside the list |
| `Tracker.RemovalIndexRange` | sp500_tracker.py:72-81 | a removal happens exactly when the line parses as an integer from 1 to the list length; non-numbers and every other integer, including 0 and negatives, remove nothing |
| `Tracker.RemovalIndexOfListing` | sp500_tracker.py:66-77 | typing the number the listing prints beside entry `i`, with any whitespace `int()` skips around it, removes exactly entry `i` |
| `Tracker.AddStrippedKeepsInv` | sp500_tracker.py:41-54 | a pass of the ticker prompt keeps the tickers distinct ignoring case and every download on the fixed window |
| `Tracker.AddStrippedDownloads` | sp500_tracker.py:41-54 | a pass of the ticker prompt only appends to the download log, and every tracked ticker stays one that was downloaded |
| `Tracker.AddStrippedGrowsOnlyOnAdd` | sp500_tracker.py:52-54 | only a successful download changes the list, and it appends exactly one entry after the old ones |
| `Tracker.RemoveStepKeepsInv` | sp500_tracker.py:72-79 | the removal prompt keeps the tickers distinct ignoring case |
| `Tracker.AddTickerStep` | sp500_tracker.py:39-54 | the ticker prompt on a typed line: `strip()` the line, then do what `AddStripped` does with the stripped ticker |
| `Tracker.AddStripped` | sp500_tracker.py:41-54 | on the stripped ticker: an empty one finishes the loop with nothing changed; a case-insensitive duplicate changes nothing and downloads nothing; otherwise one download request for the fixed window is logged and one scripted reply is used, and the entry is appended only when the reply is data |
| `Tracker.RemoveStepOf` | sp500_tracker.py:70-81 | the removal prompt on a typed line: deletes position `int(line) - 1` when that is a position of the list, and otherwise keeps the list and says whether the line was not a number or out of range |
| `Tracker.RemoveStepDownloads` | sp500_tracker.py:72-79 | the removal prompt only drops entries, so every ticker left was downloaded |
| `Tracker.SessionKeeps` | sp500_tracker.py:33-81 | the whole loop keeps the invariant, tracks only downloaded tickers, only appends to the download log, and shows only comparison plots |
| `Tracker.AfterAddKeeps` | sp500_tracker.py:56-81 | the same for the rest of a pass after a successful add |
| `Tracker.Session` | sp500_tracker.py:33-81 | the `while True` loop over the lines still to be typed, starting at the ticker prompt: it ends Completed on an empty stripped ticker or on `finish`, and InputExhausted when the lines run out; after each successful add it shows one comparison plot of the list and reads the menu answer, and after `remove` the number |
| `Tracker.AfterAdd` | sp500_tracker.py:56-81 | the rest of a loop pass after a successful add: the comparison plot of the list, then `finish` ends Completed, `remove` applies `RemoveStepOf` to the next line, and any other answer returns to the ticker prompt |
| `Tracker.SessionEndsOnEmptyTicker` | sp500_tracker.py:39-42 | an empty stripped ticker line ends the session at once, completed, with nothing changed and nothing shown |
| `Tracker.SessionSkipsUnaddedTicker` | sp500_tracker.py:44-52 | a duplicate, or a failed download, keeps the list and goes on with the next line at the ticker prompt |
| `Tracker.SessionFinishAfterAdd` | sp500_tracker.py:52-63 | `finish` after a successful add completes the session with one entry appended and exactly its comparison plot shown |
| `Tracker.SessionContinuesOnOtherAnswer` | sp500_tracker.py:56-64 | any other answer than `finish` or `remove` keeps the list, shows the comparison plot, and goes on at the ticker prompt |
| `Tracker.StockTracker.constructor` | sp500_tracker.py:31 | the session starts with an empty list and no download made |
| `Tracker.StockTracker.AddTicker` | sp500_tracker.py:35-54 | an empty stripped line ends the loop and changes nothing. A case-insensitive duplicate changes nothing and downloads nothing. Otherwise there is exactly one download for the fixed window: a failure leaves the list as it was, and a success appends one entry holding the stripped ticker. The distinct-tickers and fixed-window invariant is kept |
| `Tracker.StockTracker.Remove` | sp500_tracker.py:70-81 | a valid 1-based number deletes exactly that entry and keeps the others in order; any other input leaves the list unchanged and says why |
| `Tracker.StockTracker.Pass` | sp500_tracker.py:33-81 | one pass of the loop body moves the state and the shown plots exactly as one step of `Session` does, and consumes at least one line |
| `Tracker.StockTracker.ShowAndAsk` | sp500_tracker.py:56-81 | the plot, the menu and the removal prompt move the state exactly as `AfterAdd` does |
| `Tracker.StockTracker.Interact` | sp500_tracker.py:33-81 | the loop ends how `Session` says, in the list, replies and download log `Session` gives, having shown exactly its plots |
| `Tracker.StockTracker.RunSession` | sp500_tracker.py:30-85 | the session's end and final state are those of `Session`; the plots are the loop's, then a final plot of the remaining list exactly when the session completes with a non-empty list |
| `Comparison.PlotMultipleStocks` | newapp.py:17-33 | the figure has one trace per entry, in list order, named by its ticker with its dates and closing prices; the layout depends only on the title |
| `Comparison.ComparisonApp.constructor` | newapp.py:38 | the app starts with an empty list |
| `Comparison.ComparisonApp.AddStock` | newapp.py:45-58 | a missing or empty ticker, or a case-insensitive duplicate, changes nothing and downloads nothing. Otherwise there is one download for the given window, and the entry is appended only on success. The figure of the current list is always returned, and tickers stay distinct ignoring case |
| `Dashboard.Where` | app.py:86 | a mask selection is no longer than the dataset and every row it keeps meets the condition |
| `Dashboard.WhereFromRows` | app.py:86 | every row a mask selection keeps is a dataset row |
| `Dashboard.WhereCounts` | app.py:86 | a mask selection keeps every row meeting the condition, as often as the dataset holds it, and no other row |
| `Dashboard.WhereKeepsOrder` | app.py:9 | a selection from the date-sorted dataset is date-sorted |
| `Dashboard.WhereTwice` | app.py:85-86 | selecting by one condition and then another is selecting by both |
| `Dashboard.WhereIsSlice` | app.py:85 | a selection that holds exactly on one block of positions is that slice |
| `Dashboard.WhereNone` | app.py:86 | a selection that no row meets is empty |
| `Dashboard.Before` | app.py:85 | where the slice starts: the count of leading rows dated before the start, with the next row not before it |
| `Dashboard.NotAfter` | app.py:85 | where the slice ends: the count of leading rows dated on or before the end, with the next row after it |
| `Dashboard.SelectWindow` | app.py:85 | label slicing returns only dataset rows |
| `Dashboard.SelectWindowIsWindow` | app.py:9-11 | on the date-sorted dataset, label slicing keeps exactly the rows dated within `[start, end]`, both ends included |
| `Dashboard.SelectWindowCrossed` | app.py:85 | a start later than the end selects nothing |
| `Dashboard.FilteredRows` | app.py:85-86 | the callbacks' rows are no more than the dataset's and all belong to the chosen company |
| `Dashboard.FilteredRowsAreMatches` | app.py:85-86 | the callbacks' rows are exactly the company's rows within the window, compared case-sensitively, counted as in the dataset, and in date order |
| `Dashboard.CrossedWindowHasNoRows` | app.py:110-111 | a start later than the end gives no rows and no error |
| `Dashboard.UnknownCompanyHasNoRows` | app.py:111 | a company absent from the dataset gives no rows and no error |
| `Dashboard.UpdatePriceChart` | app.py:81-99 | the price chart is withheld exactly when company, start or end is missing or empty; otherwise it is one `lines` trace with as many x as y values, under the fixed price layout |
| `Dashboard.UpdateVolumeChart` | app.py:106-124 | the volume chart is withheld exactly when company, start or end is missing or empty; otherwise it is one `bar` trace coloured `#636efa` with as many x as y values, under the fixed volume layout |
| `Dashboard.PriceChartPlotsMatches` | app.py:81-99 | no update exactly when company, start or end is missing or empty. Otherwise the chart has one trace whose points are the date and `close` of the matching rows, in date order, under the fixed price layout |
| `Dashboard.VolumeChartPlotsMatches` | app.py:106-124 | the same for the volume chart, with `volume` for y and the fixed volume layout |
| `Dashboard.ChartsShareDates` | app.py:113-115 | both charts update together and have the same x values |
| `Dashboard.InsertName` | app.py:12 | adding a name to a strictly sorted list keeps it strictly sorted and adds exactly that name |
| `Dashboard.Companies` | app.py:12 | the dropdown's companies are strictly sorted, so free of duplicates, and are exactly the names in the dataset |

## Left out

- Loading and parsing the CSV (app.py:6-11) is not modelled. The dataset is a given sequence of rows. The lemmas assume it is sorted by its `date` text, which for `YYYY-MM-DD` dates is the order the load-time sort produces.
- Dashboard.SelectWindow models label slicing by the leading-row counts. On a date-sorted index these equal pandas' binary-search positions. Slicing an unsorted index, where pandas raises for absent labels, is not modelled.
- Dates reaching the callbacks are compared as text. A date picker value with a time-of-day suffix is not modelled.
- Network downloads (sp500_tracker.py:4-12, newapp.py:7-15) are not modelled. TrackedList.Provider replies from a fixed script whose answers do not depend on the ticker asked for. A downloaded frame is reduced to its date index and `Close` column.
- Rendering is not modelled: matplotlib windows, figure size, the Dash layout, server start-up, callback wiring, hover templates and console prompts and messages. A plot is a value recording what would be drawn.
- Prices and volumes are opaque type parameters and are only copied. The title offset 0.05 is a `real` constant.
- `str.lower()` folds only ASCII letters. `int()` accepts only ASCII digits. Python's full Unicode case and digit tables are not modelled. The whitespace sets of `strip()` and of `int()` are Python's complete ones.
- Text.ParseInt: the digit limit is the default of 4300. A limit changed with `sys.set_int_max_str_digits` or `PYTHONINTMAXSTRDIGITS` is not modelled.
- Text.Show: `str()` of an integer with more than 4300 digits raises `ValueError` in the source, and Show has no such limit. So Text.ParseShow, Text.ParseShowRoundTrip and Tracker.RemovalIndexOfListing require at most 4300 digits, the range where both `str()` and `int()` succeed.
- Reading past the end of console input raises `EOFError` in the source. The model ends the session as `InputExhausted`, with no final plot.
- Comparison.ComparisonApp.AddStock takes the date window as parameters. At newapp.py:52 the names `start_date` and `end_date` are undefined, so the source raises `NameError` there. The unused `n_clicks` argument is dropped.
- Comparison.ComparisonApp.AddStock returns the figure itself. newapp.py:58 returns a `dcc.Graph` component wrapping it.
- Dashboard.PriceChartPlotsMatches and Dashboard.VolumeChartPlotsMatches model "no update" as `None`. The source's `Dash.exceptions.PreventUpdate` is not a valid attribute path (app.py:83, 108): it raises `AttributeError`, which also leaves the chart as it was.
- The dropdown's default value and the date picker's bounds (app.py:36-54) are not modelled.
