# NonLagMA strategy and backtests, modelled in Dafny

This project models the computational core of the nonlagApp trading app.

**Signal pipeline.** The pipeline is `NonLagMaStrategy` in `strategy.py`. It runs in four stages:

- It picks a price column.
- It keeps only bars whose distance from the rolling mean is below a threshold number of rolling standard deviations, forward-filling the rest (`std_filter`).
- It smooths the result with pandas' exponentially weighted mean with `adjust=False` (`clutter_filter`).
- It draws an exponential "non-lag" line with an explicit loop (`nonlag_ma`), then marks upward crossings of price over the line as 1 and downward crossings as -1 (`generate_signals`).

**Cash/position backtest.** This is the loop of the app script (`main_app.py`). It buys whole shares with all the cash on a 1, sells the whole position on a -1, logs each trade and values the account at the last close.

**Vectorised backtest.** This is `Backtest.py`. It derives a position column from long and short masks and strategy returns from the previous position and the price change. It compounds both into equity curves. From the equity curve it computes the cumulative return, the maximum drawdown and a guarded Sharpe ratio.

How values are modelled:

- Prices are exact `real`s. pandas' NaN is `Option.None`.
- A Python exception is the `Err` side of a `Result`.
- `Series.Trunc` is Python's `int()`.
- `Simulator.FloorDiv` is the floor division `cash // price`. A zero price is an error in the model (see "## Left out").

The modules follow the program:

| module | file | models |
|---|---|---|
| `Series` | series.dfy | missing values, exceptions, truncation, sums, mean and sample variance (ddof = 1) |
| `StdFilter` | std_filter.dfy | `std_filter` |
| `Smoothing` | smoothing.dfy | `clutter_filter` (pandas `ewm`, including its old-weight bookkeeping over missing values) and the `nonlag_ma` recursion |
| `Signals` | signals.dfy | the crossover masks and the signal column of `generate_signals` |
| `Strategy` | strategy.dfy | the class `NonLagMaStrategy` (fields, `nonlag_ma` as an array loop, `generate_signals` writing `result`) and the whole pipeline as one function |
| `Simulator` | simulator.dfy | `main_app.py` lines 62-82 |
| `Backtest` | backtest.dfy | `backtest_strategy` and `get_performance_metrics` |

The central result is `Strategy.PipelineNeverSignals`. As written, the pipeline never emits a signal, for any prices and any parameters:

1. The rolling standard deviation needs two samples, so the filtered series is missing at bar 0.
2. `ewm` starts from that missing value, so bar 0 stays missing.
3. In `nonlag_ma`, `ma[0]` is then NaN, and NaN arithmetic carries it to every later bar.
4. Every crossover comparison with NaN is false.

Further behaviour of the code that the model keeps:

- **Warm-up.** There is no partial window. Every bar before `period - 1` is missing (`StdFilter.WarmUpMissing`), and so is bar 0 (`StdFilter.FirstBarMissing`).
- **Constant series.** A window of identical prices has zero deviation, and `0 < threshold * 0` is false. So a constant series is filtered to missing values throughout (`StdFilter.ConstantSeriesAllMissing`).
- **Span.** The span of `clutter_filter` is `period * filter_strength` truncated by `int()`, and pandas raises `ValueError` when it is below 1 (`Smoothing.ClutterFilter`).
- **Periods.** The constructor accepts every period. A negative period raises in `rolling` (`StdFilter.Filter`), and periods 0 and 1 give no deviation at all (`StdFilter.AcceptedNeedsFullVaryingWindow`).
- **Buying.** A buy replaces the position with the new shares, so an earlier holding is lost (`Simulator.SecondBuyOverwritesExample`).
- **Maximum drawdown.** `.max()` skips missing drawdowns, which arise where the equity is 0 and has never been positive (`Backtest.MaxDrawdownIsLargest`, `Backtest.MissingDrawdownSkippedExample`).

## Model

| member | source | states |
|---|---|---|
| `Series.Trunc` | strategy.py:21 | `int()` of the span truncates toward zero: the result is within 1 of its argument, on the side of 0 |
| `Series.Mean` | strategy.py:15 | the rolling mean of a window: its sum divided by its length (a definition; `Series.MeanOfConstant` is about it) |
| `Series.SampleVariance` | strategy.py:14 | the square of pandas' rolling `std()` (ddof = 1): the squared deviations from the mean divided by `n - 1`, never negative |
| `Series.SumOfConstant` | strategy.py:15 | a window of `n` copies of `c` sums to `n * c` |
| `Series.MeanOfConstant` | strategy.py:15 | the mean of a constant window is its common value |
| `Series.SquaredDeviationZeroIff` | strategy.py:14 | the sum of squared deviations from `m` is 0 exactly when every value equals `m` |
| `Series.VarianceZeroIffConstant` | strategy.py:14 | the sample variance (ddof = 1) of a window is 0 exactly when all its prices are equal |
| `StdFilter.Window` | strategy.py:14-15 | the rolling window at bar i holds `period` prices and ends with bar i's price |
| `StdFilter.Accepted` | strategy.py:14-16 | the test of line 16 for one bar: false without a full window of at least two samples (NaN std), otherwise the squared form of `abs(src - mean) < threshold * std` |
| `StdFilter.AcceptMask` | strategy.py:16 | the boolean column of the test, one entry per bar |
| `StdFilter.AcceptanceMatchesDeviationTest` | strategy.py:16 | for any non-negative deviation `sd`, the square-root-free test used by the model holds exactly when `abs(d) < threshold * sd` holds, including for negative thresholds |
| `StdFilter.Filter` | strategy.py:13-17 | the filter raises `ValueError` exactly for a negative window and otherwise returns the masked, forward-filled series |
| `StdFilter.LatestSet` | strategy.py:17 | the index forward fill reads from is the latest set mask bit at or before the bar, or none when no earlier bit is set |
| `StdFilter.WhereForwardFill` | strategy.py:17 | `where(mask)` followed by forward fill, one value per bar (its meaning is stated by `LatestSet` and the three `ForwardFill` lemmas) |
| `StdFilter.Filtered` | strategy.py:14-17 | the output of `std_filter` for a non-negative window, one value per bar |
| `StdFilter.ForwardFillSteps` | strategy.py:17 | after `where(mask).ffill()`, a kept bar shows its own price, a rejected bar repeats the previous output, and a rejected bar 0 is missing |
| `StdFilter.ForwardFillMissingIsPrefix` | strategy.py:17 | once a bar of the filtered series is defined, every later bar is defined |
| `StdFilter.ForwardFillTakesEarlierValue` | strategy.py:17 | every defined output is the price of a kept bar at or before it |
| `StdFilter.AcceptedNeedsFullVaryingWindow` | strategy.py:14-16 | a kept bar has a full window of at least two samples, a positive threshold and a positive window variance |
| `StdFilter.FirstBarMissing` | strategy.py:14-17 | bar 0 of the filtered series is always missing, whatever the period and threshold |
| `StdFilter.WarmUpMissing` | strategy.py:14-17 | every bar before `period - 1` is missing |
| `StdFilter.ConstantSeriesAllMissing` | strategy.py:14-17 | a constant price series is filtered to missing values at every bar |
| `Smoothing.SmoothingFactor` | strategy.py:24 | `2 / (n + 1)`, the factor of both `nonlag_ma` and `ewm(span = n)` (a definition; its range is `SmoothingFactorRange`) |
| `Smoothing.SmoothingFactorRange` | strategy.py:24 | for a period or span of at least 1, `2 / (n + 1)` lies in (0, 1] |
| `Smoothing.Blend` | strategy.py:27 | the right-hand side `(1 - alpha) * ma[i - 1] + alpha * src[i]` (a definition; `BlendBetween` and `BlendOfEqual` are about it) |
| `Smoothing.BlendOfEqual` | strategy.py:27 | blending a value with itself gives that value |
| `Smoothing.BlendBetween` | strategy.py:27 | one step `(1 - alpha) * prev + alpha * cur` with alpha in (0, 1] stays within any bounds of its two inputs |
| `Smoothing.WeightedAverage` | strategy.py:21 | pandas' ewm update `(old_wt * weighted + alpha * cur) / (old_wt + alpha)` (a definition; `WeightedAverageBetween` and `WeightedAverageOfOne` are about it) |
| `Smoothing.WeightedAverageOfOne` | strategy.py:21 | when the previous old weight is 1, so that it has decayed to `1 - alpha`, the update is the plain blend `(1 - alpha) * weighted + alpha * cur` |
| `Smoothing.WeightedAverageBetween` | strategy.py:21 | pandas' update `(old_wt * weighted + alpha * cur) / (old_wt + alpha)` stays within any bounds of its two values |
| `Smoothing.EwmStep` | strategy.py:21 | one update of pandas' ewm: afterwards the average is missing exactly when it was missing and the new value is missing |
| `Smoothing.Ewm` | strategy.py:21 | `ewm(alpha, adjust=False).mean()` as one value per bar (its meaning is stated by the `Ewm` lemmas below) |
| `Smoothing.EwmStateAt` | strategy.py:21 | pandas' old weight of the ewm mean stays in [0, 1], is 1 after every observed bar and is 1 while the average is still missing |
| `Smoothing.ClutterFilter` | strategy.py:21 | `clutter_filter` raises `ValueError` exactly when `int(period * filter_strength) < 1`, and otherwise keeps the series length |
| `Smoothing.EwmFirst` | strategy.py:21 | the first smoothed value is the first input |
| `Smoothing.EwmRecursion` | strategy.py:21 | between two observed bars the smoothed series follows `y[i] = alpha * x[i] + (1 - alpha) * y[i - 1]` |
| `Smoothing.EwmHoldsOverGap` | strategy.py:21 | a missing input holds the previous smoothed value |
| `Smoothing.EwmDefinedAfterObservation` | strategy.py:21 | after the first observed input, the average is never missing again |
| `Smoothing.EwmStateMissingBeforeObservation` | strategy.py:21 | while every input is missing, the average is missing |
| `Smoothing.EwmStateBounded` | strategy.py:21 | the running average stays within any bounds of the observed inputs |
| `Smoothing.EwmMissingIffNoObservation` | strategy.py:21 | a smoothed value is missing exactly while every input up to it is missing |
| `Smoothing.EwmBounded` | strategy.py:21 | every smoothed value lies within any bounds of the observed inputs |
| `Smoothing.EwmOfConstant` | strategy.py:21 | a constant input is smoothed to the same constant |
| `Smoothing.EmaStep` | strategy.py:27 | one assignment of the loop, missing when either operand is missing (a definition; `EmaRecursion` states it for the line) |
| `Smoothing.EmaAt` | strategy.py:25-27 | `ma[i]` after the loop: `src[0]` at bar 0, else one `EmaStep` from `ma[i - 1]` (a definition; the `Ema` lemmas are about it) |
| `Smoothing.Ema` | strategy.py:23-28 | the whole `nonlag_ma` line, one value per bar |
| `Smoothing.NonLagMaLine` | strategy.py:23-28 | `nonlag_ma` raises `ZeroDivisionError` exactly for period -1 and otherwise returns a line of the input's length |
| `Smoothing.EmaRecursion` | strategy.py:25-27 | `ma[0] = src[0]`, `ma[i] = (1 - alpha) * ma[i - 1] + alpha * src[i]` when both operands exist, and missing otherwise |
| `Smoothing.EmaMissingFromStart` | strategy.py:25-27 | a missing `src[0]` makes every value of the line missing |
| `Smoothing.EmaBounded` | strategy.py:24-27 | with alpha in (0, 1] and `src[0..i]` defined, `ma[i]` is defined and lies within any bounds of `src[0..i]` |
| `Smoothing.EmaOfConstant` | strategy.py:24-27 | a constant input gives a constant line |
| `Signals.Buy` | strategy.py:48-53 | an upward crossing needs the line at both bars, and either a rising price or a falling line |
| `Signals.Sell` | strategy.py:50-54 | a downward crossing needs the line at both bars, and either a falling price or a rising line |
| `Signals.BuyMask` | strategy.py:48-53 | the buy mask after `fillna(False)`, one entry per bar |
| `Signals.SellMask` | strategy.py:50-54 | the sell mask after `fillna(False)`, one entry per bar |
| `Signals.Assign` | strategy.py:63-64 | `loc[mask, 'signal'] = v` keeps the column's length |
| `Signals.SignalColumn` | strategy.py:45-64 | the signal column: one entry per bar, each of them -1, 0 or 1 |
| `Signals.BuySellDisjoint` | strategy.py:48-50 | no bar is both an upward and a downward crossing |
| `Signals.SignalMeaning` | strategy.py:45-64 | a bar's signal is 1 exactly on a buy crossing, -1 exactly on a sell crossing, 0 exactly on neither; the sell write never overwrites a buy |
| `Signals.NoSignalWithoutLine` | strategy.py:48-54 | bar 0, and every bar where the line is missing at it or at the bar before, gets signal 0 |
| `Signals.MissingLineNeverSignals` | strategy.py:48-64 | a line missing everywhere yields a signal column of zeros |
| `Signals.CrossingExample` | strategy.py:48-64 | a rise through a flat line signals 1 only at the crossing bar; a fall through it signals -1, and coming back to touch it emits nothing. Prices 1, 3, 2, 3 over a line at 2 signal `[0, 1, 0, 1]`: two buys with no sell between them |
| `Strategy.Pipeline` | strategy.py:30-64 | `generate_signals` raises `KeyError` for a missing column and `ValueError` for a negative period or a span below 1, and otherwise returns the price column with a line and a signal column of the same length |
| `Strategy.PipelineNeverSignals` | strategy.py:14-64 | whenever the pipeline succeeds, the line is missing at every bar and every signal is 0 |
| `Strategy.NonLagMaStrategy.constructor` | strategy.py:5-11 | the constructor stores the frame and the parameters with the source's defaults, and starts with an empty result |
| `Strategy.NonLagMaStrategy.NonLagMa` | strategy.py:23-28 | the in-place loop over a copy of the input computes exactly the `nonlag_ma` line, or `ZeroDivisionError` for period -1 |
| `Strategy.NonLagMaStrategy.GenerateSignals` | strategy.py:30-66 | `generate_signals` returns the pipeline's outcome, writes the table into `result` when it succeeds, and leaves `result` unchanged when it raises |
| `Simulator.Start` | main_app.py:62-65 | the account before the loop: the capital in cash, no position, an empty log (a definition) |
| `Simulator.Step` | main_app.py:71-79 | one iteration of the loop; it fails exactly on a buy signal with positive cash at a zero price, and the failure is `ZeroDivisionError` |
| `Simulator.Replay` | main_app.py:67-79 | the account after bars 1 .. k - 1; a failure is `ZeroDivisionError` and needs a buy bar at a zero price |
| `Simulator.FloorDiv` | main_app.py:72 | for a positive price, `cash // price` is the whole number of shares `q` with `q * price <= cash < q * price + price`; a zero price is the model's only error (see the line under "Left out") |
| `Simulator.Outcome` | main_app.py:81-82 | an empty frame raises `IndexError` at the last close; otherwise the profit is the final value minus the capital |
| `Simulator.SimulateTrades` | main_app.py:62-82 | the loop computes exactly the replayed account and final summary, and returns the replayed trade log |
| `Simulator.ReplayErrorSticks` | main_app.py:67-79 | once the model's zero-price error has occurred, every later bar keeps it |
| `Simulator.StepLogsTrade` | main_app.py:71-79 | each bar keeps the existing log and appends at most one trade. The new entry records the bar's time and price, the shares and the cash after the trade. A buy sets the position to the shares bought and lowers the cash by shares times price. A sell logs the whole position, adds position times price to the cash and empties the position |
| `Simulator.BuyLeavesChange` | main_app.py:71-73 | a buy at a positive price below the cash holds `floor(cash / price) >= 1` shares, whatever was held before, and leaves `0 <= cash < price` |
| `Simulator.TradeValue` | main_app.py:71-79 | valued at the bar's close, a buy leaves cash plus holding equal to the cash before it, so an earlier holding's value is lost. A sell or an idle bar keeps cash plus holding. With a positive close, cash falls only on a buy |
| `Simulator.IdleBarChangesNothing` | main_app.py:71-79 | a sell while flat, a buy the cash cannot afford and any other signal change nothing and log nothing |
| `Simulator.ReplaySolvent` | main_app.py:62-79 | with non-negative capital and positive prices, the loop never raises, cash and position stay non-negative, and the log grows by at most one trade per bar after the first |
| `Simulator.FirstBarIgnored` | main_app.py:67 | the loop starts at bar 1, so bar 0's signal and price never affect the account |
| `Simulator.RoundTripExample` | main_app.py:62-82 | capital 100, a buy at 12 and a sell at 8 give 8 shares and 4 in cash, then a final value of 68 and a profit of -32 |
| `Simulator.SecondBuyOverwritesExample` | main_app.py:71-74 | a second buy while holding replaces the 8 shares with 1 share instead of adding to them |
| `Backtest.PositionAt` | Backtest.py:8-11 | the position of a bar is -1, 0 or 1 |
| `Backtest.PriceChange` | Backtest.py:13 | `pct_change` at bar i: `(1 + r) * close[i - 1] == close[i]` |
| `Backtest.Growth` | Backtest.py:16-17 | `(1 + r).cumprod()` at index k (a definition; `EquityCompounds` and `GrowthOfPriceChanges` are about it) |
| `Backtest.Returns` | Backtest.py:13-18 | the price changes of bars 1 .. n - 1, which are left once `dropna` removes bar 0 |
| `Backtest.StrategyReturns` | Backtest.py:14-18 | the strategy returns of bars 1 .. n - 1, one for each price change |
| `Backtest.BacktestStrategy` | Backtest.py:6-19 | `dropna` removes only the first bar, so the result has one row fewer than the input |
| `Backtest.TotalLossExample` | Backtest.py:6-19 | closes 2, 4, 0 while always long: the zero last close is accepted, `dropna` leaves 2 rows, and the last has return -1 and equity 0 |
| `Backtest.PositionMeaning` | Backtest.py:8-14 | the position is -1 exactly on short bars and 1 exactly on long bars that are not short, else 0. The return is `close[i] / close[i - 1] - 1`, and the strategy return is the previous bar's position times the bar's return |
| `Backtest.EquityCompounds` | Backtest.py:16-17 | equity starts at `1 + strategy` and then multiplies by `1 + strategy` each row; buy-and-hold does the same with the returns |
| `Backtest.GrowthOfPriceChanges` | Backtest.py:13-17 | compounding the price changes up to bar k + 1 gives `close[k + 1] / close[0]` |
| `Backtest.GrowthOfSameReturns` | Backtest.py:16-17 | equal returns up to index k give equal compounded growth |
| `Backtest.GrowthOfZeroReturns` | Backtest.py:16 | returns that are all 0 compound to 1 |
| `Backtest.BuyHoldIsPriceRelative` | Backtest.py:13-17 | buy-and-hold equity at a bar is that bar's close divided by the first close |
| `Backtest.AlwaysLongEarnsBuyHold` | Backtest.py:8-17 | a position long on every bar but the last gives equity equal to buy-and-hold |
| `Backtest.FlatKeepsEquity` | Backtest.py:8-16 | without long or short bars the equity stays 1 |
| `Backtest.PerformanceMetrics` | Backtest.py:22-25 | an empty frame raises `IndexError`; otherwise the cumulative return is the last equity minus 1 |
| `Backtest.Equities` | Backtest.py:23-24 | the equity column of the frame, one value per row |
| `Backtest.Strategies` | Backtest.py:14-25 | the `Strategy` column of the frame, one value per row, whose mean and deviation the Sharpe ratio uses |
| `Backtest.RunningMax` | Backtest.py:24 | `cummax()` at index k bounds every equity up to k and equals one of them |
| `Backtest.DrawdownAt` | Backtest.py:24 | the drawdown at index k is missing exactly when the running maximum is 0, and lies in [0, 1) when the equity there is positive |
| `Backtest.Drawdowns` | Backtest.py:24 | the drawdown column, one value per row |
| `Backtest.MaxOfDefined` | Backtest.py:24 | `Series.max()`: the largest defined entry, skipping missing ones (a definition; `MaxOfDefinedIsLargest` is about it) |
| `Backtest.MaxOfDefinedIsLargest` | Backtest.py:24 | `.max()` is defined exactly when some entry is, bounds every defined entry, and equals one of them |
| `Backtest.MaxDrawdownUpTo` | Backtest.py:24 | the maximum drawdown over indices 0 .. k (a definition; `MaxDrawdownIsLargest` is about it) |
| `Backtest.MaxDrawdownIsLargest` | Backtest.py:24 | like pandas' `.max()`, which skips NaN, the maximum drawdown is defined exactly when some drawdown is, bounds every defined one, and equals one of them |
| `Backtest.MissingDrawdownSkippedExample` | Backtest.py:24 | for equity `[-1, 0]`, the second drawdown is 0 / 0 and is skipped, so the maximum drawdown is 0 |
| `Backtest.DrawdownBounded` | Backtest.py:24 | with positive equity throughout, the maximum drawdown exists and lies in [0, 1) |
| `Backtest.NoDrawdownWhenRising` | Backtest.py:24 | equity that never falls, and is never 0, has maximum drawdown 0 |
| `Backtest.RunningMaxOfRising` | Backtest.py:24 | for equity that never falls, the running maximum is the equity itself |
| `Backtest.AnnualisationFactor` | Backtest.py:25 | `np.sqrt(252)` as the double it evaluates to: positive, with a square within 0.0001 of 252 |
| `Backtest.IsStandardDeviation` | Backtest.py:25 | what `df['Strategy'].std()` returns: missing below two rows, otherwise the non-negative number whose square is the sample variance (ddof = 1). `PerformanceMetrics` takes it as an input under this requires |
| `Backtest.Sharpe` | Backtest.py:25 | the ratio is missing exactly when the deviation is missing (fewer than two rows), and is 0 when the deviation is 0 |
| `Backtest.SharpeGuard` | Backtest.py:25 | with two or more rows, the deviation is 0 exactly when all strategy returns are equal, and then the ratio is 0. Otherwise the ratio has the sign of the mean return |
| `Backtest.SingleRowHasNoSharpe` | Backtest.py:25 | with a single row the deviation is missing, and so is the Sharpe ratio |

## Left out

- The Streamlit page, the data download and the Plotly chart (`main_app.py` lines 1-58 and 84-92) are UI and I/O. The price and signal sequences are inputs of the model.
- `Utils.py` wraps yfinance and pandas_ta. Neither library is part of this model.
- `main_app.py` line 30 calls `non_lag_ma_strategy`, which `strategy.py` does not define. The loop also reads `HA_*` columns that nothing produces and passes `sigtype`, which nothing uses. So the two files are not joined in the model: `Simulator.SimulateTrades` takes bars with a time, a signal and a close.
- `main_app.py` line 69 reads the previous row and never uses it. The model has no counterpart.
- The debug printing in `strategy.py` lines 56-60 is not modelled.
- `Simulator.FloorDiv`: a zero price is modelled as `Err(ZeroDivisionError)`, which stops the loop (`Simulator.ReplayErrorSticks`). In the source the price is a numpy `float64`. There, `cash // 0.0` returns infinity with a warning and does not raise: the position becomes infinite, the cash becomes NaN and the loop runs on. The model cannot hold infinities or NaN inside the account, so it does not follow the loop past such a bar. For positive prices the model matches the source.
- The starting capital of 10000 (`main_app.py` line 62) is a parameter of `Simulator.SimulateTrades`.
- Share counts are integers. Python keeps them as floats with integral values.
- Floating-point rounding, overflow, infinities and signed zeros are not modelled. All arithmetic is exact over `real`.
- The rounding of the three metrics (`Backtest.py` lines 28-30) is not modelled.
- Square roots are not modelled. The rolling test is stated squared, and `StdFilter.AcceptanceMatchesDeviationTest` shows it equivalent to the test with the square root. `sqrt(252)` is the double-precision value `Backtest.AnnualisationFactor`.
- `Backtest.PerformanceMetrics`: the standard deviation of the strategy column is an input. Its requires ties the input to the sample variance: its square must equal it, and it is missing below two rows.
- `Backtest.DrawdownAt`: a zero running maximum gives `None`. On an equity curve this happens only where the equity itself is 0, which is 0 / 0 and NaN in pandas. For an arbitrary sequence, a zero maximum over a negative value would be an infinite drawdown in pandas; the model gives `None` there too. The result is kept as a missing value, not a float, and `-0.0` is not told apart from `0.0`.
- `Backtest.BacktestStrategy`: it requires a non-zero close on every bar before the last. `pct_change` divides by those closes, and a zero one gives an infinite or NaN return that a real number cannot represent. A zero last close is allowed; it gives the finite return -1.
- `Backtest.BacktestStrategy`: it takes only the close column and two boolean masks. Label lists as signal selectors are not modelled. NaN in other columns, which `dropna` would also drop, is not modelled either.
- `StdFilter.Filter`: the price column is taken as fully defined. The app drops NaN rows before it runs, and rolling windows over NaN are not modelled.
- `Strategy.Pipeline`: frames are maps from column names to value sequences. Index labels, their alignment and duplicate labels are not modelled. The signal masks are assigned by position.
- `Smoothing.EwmStep`: it omits pandas' shortcut that skips the update when the new value equals the average. In exact arithmetic that update returns the same average.
- Only the `adjust=False` form of `ewm` is modelled. `min_periods` and the `fillna(method='ffill')` deprecation are not.
