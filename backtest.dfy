/** The vectorised backtest: a position column from the long and short
    masks, the strategy's returns from yesterday's position and today's price
    change, both compounded into equity curves, and the three performance
    figures computed from the result. */
module Backtest {
  import opened Series

  /** One row of the frame backtest_strategy returns; the first bar has no
      return and is dropped. */
  datatype Row = Row(close: real, position: int, ret: real, strategy: real, equity: real, buyHold: real)

  /** Position: 0, then 1 on long bars, then -1 on short bars. */
  function PositionAt(long: seq<bool>, short: seq<bool>, i: int): (p: int)
    requires |long| == |short| && 0 <= i < |long|
    ensures -1 <= p <= 1
  {
    if short[i] then -1 else if long[i] then 1 else 0
  }

  /** close.pct_change() at bar i >= 1. */
  function PriceChange(close: seq<real>, i: int): (r: real)
    requires 1 <= i < |close| && close[i - 1] != 0.0
    ensures (1.0 + r) * close[i - 1] == close[i]
  {
    close[i] / close[i - 1] - 1.0
  }

  /** (1 + r).cumprod() at index k. */
  function Growth(r: seq<real>, k: int): real
    requires 0 <= k < |r|
    decreases k
  {
    if k == 0 then 1.0 + r[0] else Mul(Growth(r, k - 1), 1.0 + r[k])
  }

  /** Every close that pct_change divides by, that is every close but the
      last, is non-zero. */
  predicate NonZeroPrices(close: seq<real>)
  {
    forall i :: 0 <= i < |close| - 1 ==> close[i] != 0.0
  }

  /** The price changes of bars 1 .. n - 1. */
  function Returns(close: seq<real>): (r: seq<real>)
    requires NonZeroPrices(close)
    ensures |r| == if |close| == 0 then 0 else |close| - 1
  {
    if |close| == 0 then []
    else seq(|close| - 1, k requires 0 <= k < |close| - 1 => PriceChange(close, k + 1))
  }

  /** Strategy of bars 1 .. n - 1: the previous bar's position times the
      bar's price change. */
  function StrategyReturns(close: seq<real>, long: seq<bool>, short: seq<bool>): (s: seq<real>)
    requires |long| == |short| == |close| && NonZeroPrices(close)
    ensures |s| == |Returns(close)|
  {
    var r := Returns(close);
    seq(|r|, k requires 0 <= k < |r| => Mul(PositionAt(long, short, k) as real, r[k]))
  }

  /** backtest_strategy on the close column and the two signal masks. */
  function BacktestStrategy(close: seq<real>, long: seq<bool>, short: seq<bool>): (rows: seq<Row>)
    requires |long| == |short| == |close| && NonZeroPrices(close)
    ensures |rows| == if |close| == 0 then 0 else |close| - 1
  {
    var r := Returns(close);
    var s := StrategyReturns(close, long, short);
    seq(|r|, k requires 0 <= k < |r| =>
      Row(close[k + 1], PositionAt(long, short, k + 1), r[k], s[k], Growth(s, k), Growth(r, k)))
  }

  /** A total loss: always long while the price goes 2, 4, 0. The zero last
      close is allowed and gives two rows, the last with return -1 and equity
      0. */
  lemma TotalLossExample()
    ensures var rows := BacktestStrategy([2.0, 4.0, 0.0], [true, true, true], [false, false, false]);
            |rows| == 2 && rows[1].ret == -1.0 && rows[1].equity == 0.0
  {
    var close := [2.0, 4.0, 0.0];
    var r := Returns(close);
    assert r == [1.0, -1.0];
    var s := StrategyReturns(close, [true, true, true], [false, false, false]);
    assert s == [1.0, -1.0];
    assert Growth(s, 0) == 2.0;
  }

  /** Each row's position is -1 exactly on a short bar, 1 exactly on a long bar
      that is not short, and 0 otherwise; its strategy return uses the
      position of the bar before. */
  lemma PositionMeaning(close: seq<real>, long: seq<bool>, short: seq<bool>, k: int)
    requires |long| == |short| == |close| && NonZeroPrices(close)
    requires 0 <= k < |BacktestStrategy(close, long, short)|
    ensures var row := BacktestStrategy(close, long, short)[k];
            (row.position == -1 <==> short[k + 1]) &&
            (row.position == 1 <==> long[k + 1] && !short[k + 1]) &&
            (row.position == 0 <==> !long[k + 1] && !short[k + 1]) &&
            row.ret == close[k + 1] / close[k] - 1.0 &&
            row.strategy == Mul(PositionAt(long, short, k) as real, row.ret)
  {
  }

  /** Equity compounds the strategy returns: it starts at 1 + strategy and
      grows by the factor 1 + strategy at every later row; buy-and-hold
      compounds the price changes the same way. */
  lemma EquityCompounds(close: seq<real>, long: seq<bool>, short: seq<bool>, k: int)
    requires |long| == |short| == |close| && NonZeroPrices(close)
    requires 0 <= k < |BacktestStrategy(close, long, short)|
    ensures var rows := BacktestStrategy(close, long, short);
            (k == 0 ==> rows[0].equity == 1.0 + rows[0].strategy && rows[0].buyHold == 1.0 + rows[0].ret) &&
            (k > 0 ==> rows[k].equity == Mul(rows[k - 1].equity, 1.0 + rows[k].strategy) &&
                       rows[k].buyHold == Mul(rows[k - 1].buyHold, 1.0 + rows[k].ret))
  {
  }

  lemma RatioChain(a: real, b: real, c: real)
    requires a != 0.0 && b != 0.0
    ensures Mul(a / b, c / a) == c / b
  {
  }

  lemma {:induction false} GrowthOfPriceChanges(close: seq<real>, k: int)
    requires NonZeroPrices(close) && 0 <= k < |Returns(close)|
    ensures Growth(Returns(close), k) == close[k + 1] / close[0]
  {
    var r := Returns(close);
    if k > 0 {
      GrowthOfPriceChanges(close, k - 1);
      assert 1.0 + r[k] == close[k + 1] / close[k];
      RatioChain(close[k], close[0], close[k + 1]);
    }
  }

  /** Buy-and-hold equity is the price relative to the first close. */
  lemma BuyHoldIsPriceRelative(close: seq<real>, long: seq<bool>, short: seq<bool>, k: int)
    requires |long| == |short| == |close| && NonZeroPrices(close)
    requires 0 <= k < |BacktestStrategy(close, long, short)|
    ensures BacktestStrategy(close, long, short)[k].buyHold == close[k + 1] / close[0]
  {
    GrowthOfPriceChanges(close, k);
  }

  lemma {:induction false} GrowthOfSameReturns(r: seq<real>, s: seq<real>, k: int)
    requires |r| == |s| && 0 <= k < |r|
    requires forall j :: 0 <= j <= k ==> r[j] == s[j]
    ensures Growth(r, k) == Growth(s, k)
  {
    if k > 0 {
      GrowthOfSameReturns(r, s, k - 1);
    }
  }

  /** Holding long on every bar but the last earns exactly buy-and-hold. */
  lemma AlwaysLongEarnsBuyHold(close: seq<real>, long: seq<bool>, short: seq<bool>, k: int)
    requires |long| == |short| == |close| && NonZeroPrices(close)
    requires 0 <= k < |BacktestStrategy(close, long, short)|
    requires forall i :: 0 <= i < |close| - 1 ==> long[i] && !short[i]
    ensures BacktestStrategy(close, long, short)[k].equity == BacktestStrategy(close, long, short)[k].buyHold
  {
    var r := Returns(close);
    var s := StrategyReturns(close, long, short);
    forall j | 0 <= j <= k ensures r[j] == s[j] {
      assert PositionAt(long, short, j) == 1;
    }
    GrowthOfSameReturns(r, s, k);
  }

  lemma {:induction false} GrowthOfZeroReturns(s: seq<real>, k: int)
    requires 0 <= k < |s|
    requires forall j :: 0 <= j <= k ==> s[j] == 0.0
    ensures Growth(s, k) == 1.0
  {
    if k > 0 {
      GrowthOfZeroReturns(s, k - 1);
    }
  }

  /** Without any long or short bar the position stays 0 and equity stays 1. */
  lemma FlatKeepsEquity(close: seq<real>, long: seq<bool>, short: seq<bool>, k: int)
    requires |long| == |short| == |close| && NonZeroPrices(close)
    requires 0 <= k < |BacktestStrategy(close, long, short)|
    requires forall i :: 0 <= i < |close| ==> !long[i] && !short[i]
    ensures BacktestStrategy(close, long, short)[k].equity == 1.0
  {
    var s := StrategyReturns(close, long, short);
    forall j | 0 <= j <= k ensures s[j] == 0.0 {
      assert PositionAt(long, short, j) == 0;
    }
    GrowthOfZeroReturns(s, k);
  }

  // ---------------------------------------------------------------------
  // get_performance_metrics

  /** sqrt(252) in double precision: the trading days of a year. */
  function AnnualisationFactor(): (r: real)
    ensures 0.0 < r && 251.9999 < Square(r) < 252.0001
  {
    15.874507866387544
  }

  datatype Metrics = Metrics(cumulativeReturn: real, maxDrawdown: Option<real>, sharpe: Option<real>)

  function Equities(rows: seq<Row>): (e: seq<real>)
    ensures |e| == |rows|
  {
    seq(|rows|, k requires 0 <= k < |rows| => rows[k].equity)
  }

  function Strategies(rows: seq<Row>): (s: seq<real>)
    ensures |s| == |rows|
  {
    seq(|rows|, k requires 0 <= k < |rows| => rows[k].strategy)
  }

  /** cummax() at index k. */
  function RunningMax(e: seq<real>, k: int): (m: real)
    requires 0 <= k < |e|
    ensures forall j :: 0 <= j <= k ==> e[j] <= m
    ensures exists j :: 0 <= j <= k && m == e[j]
    decreases k
  {
    if k == 0 then e[0]
    else
      var prev := RunningMax(e, k - 1);
      if e[k] > prev then e[k] else prev
  }

  /** (cummax - equity) / cummax at index k. A zero running maximum gives no
      number: on an equity curve it only occurs where the equity itself has
      reached 0, which makes the quotient 0 / 0. */
  function DrawdownAt(e: seq<real>, k: int): (d: Option<real>)
    requires 0 <= k < |e|
    ensures d.None? <==> RunningMax(e, k) == 0.0
    ensures 0.0 < e[k] ==> d.Some? && 0.0 <= d.value < 1.0
  {
    var m := RunningMax(e, k);
    if m == 0.0 then None
    else if 0.0 < e[k] then DrawdownOfPositive(m, e[k]); Some((m - e[k]) / m)
    else Some((m - e[k]) / m)
  }

  /** Series.max() over the entries up to index k: the largest defined entry,
      skipping missing ones, and missing only when all of them are. */
  function MaxOfDefined(d: seq<Option<real>>, k: int): Option<real>
    requires 0 <= k < |d|
    decreases k
  {
    if k == 0 then d[0]
    else
      match (MaxOfDefined(d, k - 1), d[k])
      case (Some(prev), Some(cur)) => Some(if cur > prev then cur else prev)
      case (Some(prev), None) => Some(prev)
      case (None, cur) => cur
  }

  lemma {:induction false} MaxOfDefinedIsLargest(d: seq<Option<real>>, k: int)
    requires 0 <= k < |d|
    ensures MaxOfDefined(d, k).Some? <==> exists j :: 0 <= j <= k && d[j].Some?
    ensures MaxOfDefined(d, k).Some? ==>
              (forall j :: 0 <= j <= k && d[j].Some? ==> d[j].value <= MaxOfDefined(d, k).value) &&
              (exists j :: 0 <= j <= k && MaxOfDefined(d, k) == d[j])
  {
    if k > 0 {
      MaxOfDefinedIsLargest(d, k - 1);
    }
  }

  /** The drawdown column. */
  function Drawdowns(e: seq<real>): (d: seq<Option<real>>)
    ensures |d| == |e|
  {
    seq(|e|, k requires 0 <= k < |e| => DrawdownAt(e, k))
  }

  /** The maximum drawdown over indices 0 .. k. */
  function MaxDrawdownUpTo(e: seq<real>, k: int): Option<real>
    requires 0 <= k < |e|
  {
    MaxOfDefined(Drawdowns(e), k)
  }

  /** The maximum drawdown is defined exactly when some drawdown is, bounds
      every defined drawdown, and is one of them. */
  lemma MaxDrawdownIsLargest(e: seq<real>, k: int)
    requires 0 <= k < |e|
    ensures MaxDrawdownUpTo(e, k).Some? <==> exists j :: 0 <= j <= k && DrawdownAt(e, j).Some?
    ensures MaxDrawdownUpTo(e, k).Some? ==>
              (forall j :: 0 <= j <= k && DrawdownAt(e, j).Some? ==>
                 DrawdownAt(e, j).value <= MaxDrawdownUpTo(e, k).value) &&
              (exists j :: 0 <= j <= k && MaxDrawdownUpTo(e, k) == DrawdownAt(e, j))
  {
    var d := Drawdowns(e);
    MaxOfDefinedIsLargest(d, k);
    forall j | 0 <= j <= k
      ensures d[j] == DrawdownAt(e, j)
    {
    }
    assert MaxDrawdownUpTo(e, k) == MaxOfDefined(d, k);
  }

  /** Equity [-1, 0]: the second drawdown is 0 / 0 and is skipped, so the
      maximum drawdown is the first one, 0. */
  lemma MissingDrawdownSkippedExample()
    ensures MaxDrawdownUpTo([-1.0, 0.0], 1) == Some(0.0)
  {
    var e := [-1.0, 0.0];
    assert RunningMax(e, 0) == -1.0;
    assert RunningMax(e, 1) == 0.0;
    assert Drawdowns(e)[0] == Some(0.0);
    assert Drawdowns(e)[1] == None;
  }

  /** mean / std * sqrt(252), or 0 when the deviation is 0; a missing
      deviation (fewer than two rows) gives a missing ratio. */
  function Sharpe(s: seq<real>, sd: Option<real>): (r: Option<real>)
    requires |s| > 0
    ensures r.None? <==> sd.None?
    ensures sd == Some(0.0) ==> r == Some(0.0)
  {
    match sd
    case None => None
    case Some(v) => if v != 0.0 then Some(Mean(s) / v * AnnualisationFactor()) else Some(0.0)
  }

  /** sd is the standard deviation pandas reports for the strategy column:
      missing below two rows, else the root of the sample variance. */
  predicate IsStandardDeviation(s: seq<real>, sd: Option<real>)
  {
    if |s| < 2 then sd.None? else sd.Some? && 0.0 <= sd.value && Square(sd.value) == SampleVariance(s)
  }

  /** get_performance_metrics, without the rounding; the last equity of an
      empty frame raises. */
  function PerformanceMetrics(rows: seq<Row>, sd: Option<real>): (r: Result<Metrics, Exception>)
    requires IsStandardDeviation(Strategies(rows), sd)
    ensures r.Err? <==> |rows| == 0
    ensures r.Err? ==> r.error == IndexError
    ensures r.Ok? ==> r.value.cumulativeReturn == rows[|rows| - 1].equity - 1.0
  {
    if |rows| == 0 then Err(IndexError)
    else
      var e := Equities(rows);
      Ok(Metrics(e[|e| - 1] - 1.0, MaxDrawdownUpTo(e, |e| - 1), Sharpe(Strategies(rows), sd)))
  }

  lemma DrawdownOfPositive(m: real, e: real)
    requires 0.0 < e <= m
    ensures 0.0 <= (m - e) / m < 1.0
  {
  }

  /** With positive equity throughout, the maximum drawdown exists and lies in
      [0, 1). */
  lemma {:induction false} DrawdownBounded(e: seq<real>, k: int)
    requires 0 <= k < |e|
    requires forall j :: 0 <= j < |e| ==> 0.0 < e[j]
    ensures MaxDrawdownUpTo(e, k).Some?
    ensures 0.0 <= MaxDrawdownUpTo(e, k).value < 1.0
  {
    if k > 0 {
      DrawdownBounded(e, k - 1);
    }
  }

  lemma ZeroDrawdown(m: real, e: real)
    requires m == e && m != 0.0
    ensures (m - e) / m == 0.0
  {
  }

  lemma {:induction false} RunningMaxOfRising(e: seq<real>, k: int)
    requires 0 <= k < |e|
    requires forall i :: 0 < i < |e| ==> e[i - 1] <= e[i]
    ensures RunningMax(e, k) == e[k]
  {
    if k > 0 {
      RunningMaxOfRising(e, k - 1);
    }
  }

  /** Equity that never falls, and is never 0, has no drawdown. */
  lemma {:induction false} NoDrawdownWhenRising(e: seq<real>, k: int)
    requires 0 <= k < |e|
    requires forall i :: 0 < i < |e| ==> e[i - 1] <= e[i]
    requires forall j :: 0 <= j < |e| ==> e[j] != 0.0
    ensures MaxDrawdownUpTo(e, k) == Some(0.0)
  {
    RunningMaxOfRising(e, k);
    ZeroDrawdown(RunningMax(e, k), e[k]);
    assert DrawdownAt(e, k) == Some(0.0);
    if k > 0 {
      NoDrawdownWhenRising(e, k - 1);
      assert MaxDrawdownUpTo(e, k) == Some(0.0);
    }
  }

  /** The guard of the Sharpe ratio: with two or more rows the deviation is 0
      exactly when every strategy return is the same, and then the ratio is
      0; otherwise the ratio has the sign of the mean return. */
  lemma SharpeGuard(s: seq<real>, sd: Option<real>)
    requires |s| >= 2 && IsStandardDeviation(s, sd)
    ensures sd.value == 0.0 <==> Constant(s)
    ensures Constant(s) ==> Sharpe(s, sd) == Some(0.0)
    ensures !Constant(s) ==>
              (Sharpe(s, sd).Some? &&
               (0.0 < Sharpe(s, sd).value <==> 0.0 < Mean(s)) &&
               (Sharpe(s, sd).value < 0.0 <==> Mean(s) < 0.0))
  {
    VarianceZeroIffConstant(s);
    SquareSign(sd.value);
    if !Constant(s) {
      QuotientSign(Mean(s), sd.value, AnnualisationFactor());
    }
  }

  lemma QuotientSign(x: real, y: real, c: real)
    requires 0.0 < y && 0.0 < c
    ensures 0.0 < x / y * c <==> 0.0 < x
    ensures x / y * c < 0.0 <==> x < 0.0
  {
  }

  /** A single row has no deviation and so no Sharpe ratio. */
  lemma SingleRowHasNoSharpe(rows: seq<Row>, sd: Option<real>)
    requires |rows| == 1 && IsStandardDeviation(Strategies(rows), sd)
    ensures PerformanceMetrics(rows, sd).Ok?
    ensures PerformanceMetrics(rows, sd).value.sharpe == None
  {
  }
}
