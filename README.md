# NIFTY options dashboard — derivation and decision logic

This project models, in Dafny, the logic of the trading dashboard
`dashboard.py`. The dashboard is a page of four panels over three data files
written by a separate trading bot:

1. **Candles & indicators.** The 3-minute candle file, sorted by `timestamp`,
   drawn as a candlestick chart. An RSI sub-chart with reference lines at 70
   and 30 appears when an `RSI` column exists. A MACD sub-chart appears when
   both `MACD` and `Signal` exist. Otherwise a placeholder notice is shown.
2. **Open positions.** The ledger rows whose `status` is exactly `OPEN`.
3. **Closed trades & PnL.** The ledger rows whose `status` is exactly
   `CLOSED`, ordered by `exit_time`, with a running sum `pnl_cum`. The grid
   shows the last 200 rows. The cumulative-PnL chart plots all of them.
4. **Backtest equity.** The raw equity table as one line.

Each panel ends in one of three ways (`PanelOutcome`): the file is absent, the
derived data is empty, or the panel renders. The panels differ in what they
test for emptiness. The two position panels test the filtered table. The
backtest panel tests the raw table. The candle panel never tests at all.

Everything is modelled as pure functions over sequences of rows, matching the
source, which is a chain of single pandas expressions with no loops:

- `wrappers.dfy`: `Option`, for a file that may be absent and an indicator cell that may be blank.
- `tables.dfy`: the generic table operations. `Keep` is the boolean-mask row
  selection. `SortBy` is `sort_values`. `Tail` is `tail(n)`.
- `charts.dfy`: the declarative values handed to the renderer: traces,
  charts with reference lines, notices, and `Panel` / `PanelOutcome`.
- `candles.dfy`, `positions.dfy`, `backtest.dfy`: one module per panel group.
- `dashboard.dfy`: the page over the three optional files, the outcome rules
  and panel isolation.

A loaded file is an input value: `Option<seq<Row>>`, where `None` stands for
`Path.exists()` returning false. Timestamps are integers, which are
comparable instants. `pnl` is an integer, so the prefix sums are exact.
Prices, indicator values and equity are reals that are only carried, never
computed with. The page is a function of the three inputs, so re-rendering
unchanged files gives the same derived tables.

## Model

| member | source | states |
|---|---|---|
| `Tables.Keep` | dashboard.py:54 | the selection holds only rows satisfying the mask; each satisfying row occurs exactly as often as in the input, and the others never; the rows keep their relative order (a subsequence of the input) |
| `Tables.SortBy` | dashboard.py:19 | the result is sorted non-decreasingly by the key column and is a permutation (same multiset) of the input |
| `Tables.Tail` | dashboard.py:69 | `tail(n)` has min(n, length) rows, and its row i is row length - min(n, length) + i of the table: the last rows, in order |
| `Positions.OpenPositions` | dashboard.py:54 | the open table holds exactly the ledger rows whose status is exactly "OPEN", with their multiplicities, in ledger order, and nothing else |
| `Positions.ClosedTrades` | dashboard.py:66 | the closed table is sorted by exit time and is a permutation of the ledger rows whose status is exactly "CLOSED" |
| `Positions.StatusesPartitionLedger` | dashboard.py:54-66 | every OPEN row appears in the open table and every CLOSED row in the closed table; no row is in both; a row with any other status (including another letter case) is in neither |
| `Positions.TotalPnlPermutation` | dashboard.py:68 | the total pnl of a set of trades does not depend on their order |
| `Positions.AccumulateFrom` | dashboard.py:68 | the running sum from a base keeps every trade in place and puts base plus the pnl of trades 0..i on row i |
| `Positions.WithPnlCum` | dashboard.py:68 | `cumsum` adds a column without changing the rows: row i carries the sum of pnl over rows 0..i |
| `Positions.FinalPnlCumIsClosedTotal` | dashboard.py:66-68 | the last `pnl_cum` equals the total pnl of the CLOSED rows summed in ledger order, not exit-time order |
| `Positions.FinalPnlCumIgnoresRowOrder` | dashboard.py:66-68 | two ledgers with the same rows in any order have the same number of closed trades and the same final `pnl_cum` |
| `Positions.GridIsSuffixOfAccumulatedTable` | dashboard.py:68-69 | the grid has min(n, 200) rows; they are the last rows of the full closed table, and each `pnl_cum` is the prefix sum over the FULL table (truncation happens after accumulation) |
| `Positions.PnlChart` | dashboard.py:70-71 | the "Cum PnL" chart is one trace with one point per accumulated row: x its exit time, y its `pnl_cum`; no reference lines |
| `Positions.ChartCoversAllClosedTrades` | dashboard.py:70-71 | the cumulative PnL chart is one trace over all n closed trades: x is each trade's exit time and y its prefix sum, with no reference lines |
| `Positions.GridShowsMostRecent` | dashboard.py:66-69 | every closed trade left off the grid exited no later than every trade on it |
| `Positions.GridOf250ClosedTrades` | dashboard.py:66-71 | with 250 closed trades the panel renders, the grid is rows 50..249 of the accumulated table, the chart has 250 points and the last `pnl_cum` is the total pnl |
| `Positions.CumulativePnlExample` | dashboard.py:68 | pnl 10, -5, 20 in exit-time order give `pnl_cum` 10, 5, 25 |
| `Positions.OpenPanel` | dashboard.py:52-60 | absent file gives the "not present" notice; the panel renders iff the filtered open table is non-empty, and then shows exactly that table; otherwise the "No open positions." notice |
| `Positions.ClosedPanel` | dashboard.py:64-76 | absent file gives the "not present" notice; the panel renders iff there is at least one CLOSED row, otherwise the "No closed trades yet." notice |
| `Candles.SortedCandles` | dashboard.py:19 | the rows handed to every chart are sorted by timestamp and are a permutation of the loaded rows |
| `Candles.Timestamps` | dashboard.py:23 | the x axis has one entry per row, the row's timestamp |
| `Candles.PriceChart` | dashboard.py:21-25 | the "NIFTY" candlestick has one bar per row, in row order, each bar carrying that row's timestamp and open, high, low and close |
| `Candles.Column` | dashboard.py:33 | a column's values line up with the rows; a value is present iff the row has that cell, and then equals it |
| `Candles.TimestampsPermutation` | dashboard.py:19 | reordering the rows permutes the timestamp axis the same way |
| `Candles.View` | dashboard.py:19-46 | the price, RSI and MACD charts are built from the timestamp-sorted rows; the shared x axis has one point per loaded row, is non-decreasing, holds exactly the file's timestamps, and every RSI and MACD trace uses it; the RSI and MACD cells follow the indicator rules of `RsiCell` and `MacdCell` |
| `Candles.RsiCell` | dashboard.py:29-37 | an RSI chart is produced iff "RSI" is a column; it has the single RSI trace and the reference lines are exactly {70, 30}; otherwise the "RSI not found yet." placeholder |
| `Candles.MacdCell` | dashboard.py:38-46 | a MACD chart is produced iff both "MACD" and "Signal" are columns; it holds the MACD and Signal traces and no reference lines; otherwise the "MACD/Signal not found yet." placeholder |
| `Candles.IndicatorDecisionsIndependent` | dashboard.py:31-46 | the RSI cell depends only on whether "RSI" is present and the MACD cell only on whether "MACD" and "Signal" are present |
| `Candles.CandlePanel` | dashboard.py:18-48 | the candle panel renders exactly when the file exists, with no emptiness check, and then shows `View` of the loaded table; otherwise it shows the "No candle file yet" warning |
| `Backtest.EquityChart` | dashboard.py:83-85 | one "Equity" trace with one point per row, in file order (no sort), and no reference lines |
| `Backtest.EquityPanel` | dashboard.py:80-89 | absent file gives the "not present" notice; a file with zero raw rows gives the "empty" notice; otherwise the equity chart of the raw table |
| `Dashboard.RenderPage` | dashboard.py:16-89 | the page holds, in fixed order, exactly `CandlePanel`, `OpenPanel`, `ClosedPanel` and `EquityPanel` of their own files, so every content fact proved for those panels holds on the page; per panel, "file absent" iff the file is absent; "empty" is decided after the status filter for both position panels, on the raw table for the backtest, and never for candles |
| `Dashboard.NoClosedRowsMeansNoData` | dashboard.py:66-74 | a ledger with no CLOSED row, whatever else it holds, yields the "No closed trades yet." notice |
| `Dashboard.PanelsAreIsolated` | dashboard.py:16-89 | each panel depends on its own file only, so an absent or changed file leaves the other panels unchanged |

## Left out

- Streamlit and Plotly calls (page layout, subheaders, captions, heights, `use_container_width`): they are rendering. Charts are modelled as abstract values that list their traces and reference lines.
- CSV reading (`read_csv`, `parse_dates`, `keep_default_na=False`) and column type inference: these are pandas I/O. A loaded file is an input sequence of rows. Times are modelled as comparable integers. The model does not capture a date column left unparsed as text (sorted as strings), or a `pnl` column read as text because of blank cells.
- Blank price, equity or timestamp cells: a blank `open`, `high`, `low`, `close` or `equity` cell (NaN, drawn as a gap) and a blank `timestamp` (NaT, which `sort_values` puts last) cannot be written in the model. Those fields are plain numbers; only indicator cells may be blank.
- Columns the source passes through untouched (any extra ledger column): the rows carry only the fields the logic reads.
- The two position panels call `read_csv` separately. The model gives both panels one snapshot of the ledger, so a write by the bot between the two reads is not modelled.
- Floating-point arithmetic: `pnl` is an integer, so `cumsum` is exact. Rounding is not modelled.
- Tie order in `sort_values`: pandas' default sort is not stable. The model's sort is an insertion sort, but every contract promises only "sorted and a permutation", never an order among equal keys.
- Per-panel error isolation and a "malformed data" error: the source has no `try`/`except`, so an exception in one panel stops the page. None of this is modelled.
- Rows whose status is neither "OPEN" nor "CLOSED": the source drops them silently. The model does the same (see `Positions.StatusesPartitionLedger`) and does not report them as an error.
- The refresh cycle and re-running the script: the page is one function evaluation.
