/** The cash/position backtest of the application script: starting from the
    capital in cash, every bar after the first may buy as many whole shares as
    the cash allows or sell the whole position, and each trade is logged. The
    final value marks the position to the last close. */
module Simulator {
  import opened Series

  /** One row of the frame the loop reads: its index label, its signal and its
      close price. */
  datatype Bar = Bar(time: int, signal: int, close: real)

  datatype Action = Buy | Sell

  /** One trade_log entry: time, action, price, shares and the cash after the
      trade. */
  datatype Trade = Trade(time: int, action: Action, price: real, shares: int, cashAfter: real)

  /** The loop's variables: cash, position and trade_log. */
  datatype Account = Account(cash: real, position: int, log: seq<Trade>)

  /** final_value and profit. */
  datatype Summary = Summary(finalValue: real, profit: real)

  /** cash // price: the floor of the quotient; a zero divisor is an error in
      the model. */
  function FloorDiv(x: real, y: real): (r: Result<int, Exception>)
    ensures r.Err? <==> y == 0.0
    ensures r.Err? ==> r.error == ZeroDivisionError
    ensures r.Ok? && 0.0 < y ==> Mul(r.value as real, y) <= x < Mul(r.value as real, y) + y
  {
    if y == 0.0 then Err(ZeroDivisionError)
    else
      var q := (x / y).Floor;
      FloorDivBounds(x, y, x / y, q);
      Ok(q)
  }

  lemma FloorDivBounds(x: real, y: real, q: real, f: int)
    requires y != 0.0 && q == x / y && f == q.Floor
    ensures 0.0 < y ==> Mul(f as real, y) <= x < Mul(f as real, y) + y
  {
    if 0.0 < y {
      assert Mul(q, y) == x;
      MulMonotone(y, f as real, q);
      MulStrictlyMonotone(y, q, f as real + 1.0);
      MulCommutes(y, f as real);
      MulCommutes(y, q);
      MulCommutes(y, f as real + 1.0);
      MulAddOne(f as real, y);
    }
  }

  lemma MulAddOne(x: real, y: real)
    ensures Mul(x + 1.0, y) == Mul(x, y) + y
  {
  }

  /** One iteration of the loop. A buy needs signal 1 and more cash than the
      price; it replaces the position by the number of whole shares the cash
      buys. A sell needs signal -1 and a long position; it turns the whole
      position into cash. */
  function Step(a: Account, bar: Bar): (r: Result<Account, Exception>)
    ensures r.Err? <==> bar.signal == 1 && a.cash > bar.close && bar.close == 0.0
    ensures r.Err? ==> r.error == ZeroDivisionError
  {
    if bar.signal == 1 && a.cash > bar.close then
      match FloorDiv(a.cash, bar.close)
      case Err(e) => Err(e)
      case Ok(shares) =>
        var cash := a.cash - Mul(shares as real, bar.close);
        Ok(Account(cash, shares, a.log + [Trade(bar.time, Buy, bar.close, shares, cash)]))
    else if bar.signal == -1 && a.position > 0 then
      var cash := a.cash + Mul(a.position as real, bar.close);
      Ok(Account(cash, 0, a.log + [Trade(bar.time, Sell, bar.close, a.position, cash)]))
    else
      Ok(a)
  }

  function Start(capital: real): Account
  {
    Account(capital, 0, [])
  }

  /** The account once the loop has handled bars 1 .. k - 1. */
  function Replay(bars: seq<Bar>, capital: real, k: int): (r: Result<Account, Exception>)
    requires 0 <= k <= |bars|
    ensures r.Err? ==> r.error == ZeroDivisionError
    ensures r.Err? ==> exists j :: 1 <= j < k && bars[j].signal == 1 && bars[j].close == 0.0
  {
    if k <= 1 then Ok(Start(capital))
    else
      match Replay(bars, capital, k - 1)
      case Err(e) => Err(e)
      case Ok(a) => Step(a, bars[k - 1])
  }

  /** final_value and profit after the loop; the last close of an empty frame
      raises. */
  function Outcome(bars: seq<Bar>, capital: real): (r: Result<Summary, Exception>)
    ensures |bars| == 0 ==> r == Err(IndexError)
    ensures r.Ok? ==> r.value.profit == r.value.finalValue - capital
  {
    match Replay(bars, capital, |bars|)
    case Err(e) => Err(e)
    case Ok(a) =>
      if |bars| == 0 then Err(IndexError)
      else
        var finalValue := a.cash + Mul(a.position as real, bars[|bars| - 1].close);
        Ok(Summary(finalValue, finalValue - capital))
  }

  /** The loop and the final valuation; the trade log is returned beside the
      summary. */
  method SimulateTrades(bars: seq<Bar>, capital: real) returns (outcome: Result<Summary, Exception>, tradeLog: seq<Trade>)
    ensures outcome == Outcome(bars, capital)
    ensures Replay(bars, capital, |bars|).Ok? ==> tradeLog == Replay(bars, capital, |bars|).value.log
  {
    var position := 0;
    var cash := capital;
    tradeLog := [];
    if |bars| == 0 {
      return Err(IndexError), tradeLog;
    }
    for i := 1 to |bars|
      invariant Replay(bars, capital, i) == Ok(Account(cash, position, tradeLog))
    {
      var row := bars[i];
      if row.signal == 1 && cash > row.close {
        var shares := FloorDiv(cash, row.close);
        if shares.Err? {
          assert Replay(bars, capital, i + 1) == Err(ZeroDivisionError);
          ReplayErrorSticks(bars, capital, i + 1, |bars|);
          return Err(shares.error), tradeLog;
        }
        position := shares.value;
        cash := cash - Mul(position as real, row.close);
        tradeLog := tradeLog + [Trade(row.time, Buy, row.close, position, cash)];
      } else if row.signal == -1 && position > 0 {
        cash := cash + Mul(position as real, row.close);
        tradeLog := tradeLog + [Trade(row.time, Sell, row.close, position, cash)];
        position := 0;
      }
    }
    var finalValue := cash + Mul(position as real, bars[|bars| - 1].close);
    outcome := Ok(Summary(finalValue, finalValue - capital));
  }

  /** Once the loop has raised, it stays raised. */
  lemma {:induction false} ReplayErrorSticks(bars: seq<Bar>, capital: real, k: int, m: int)
    requires 0 <= k <= m <= |bars| && Replay(bars, capital, k).Err?
    ensures Replay(bars, capital, m) == Replay(bars, capital, k)
    decreases m - k
  {
    if k < m {
      ReplayErrorSticks(bars, capital, k, m - 1);
    }
  }

  /** Every step keeps the log it found and appends at most one entry, which
      records the bar's time and price, the shares traded and the new cash; a
      buy sets the position to the shares bought, a sell empties it. */
  lemma StepLogsTrade(a: Account, bar: Bar)
    requires Step(a, bar).Ok?
    ensures var b := Step(a, bar).value;
            a.log <= b.log && |b.log| <= |a.log| + 1 &&
            (|b.log| == |a.log| ==> b == a) &&
            (|b.log| == |a.log| + 1 ==>
               var t := b.log[|a.log|];
               t.time == bar.time && t.price == bar.close && t.cashAfter == b.cash &&
               (t.action == Buy ==> bar.signal == 1 && b.position == t.shares &&
                                    b.cash == a.cash - Mul(t.shares as real, bar.close)) &&
               (t.action == Sell ==> bar.signal == -1 && t.shares == a.position && b.position == 0 &&
                                     b.cash == a.cash + Mul(a.position as real, bar.close)))
  {
  }

  /** Valued at the bar's close, a buy leaves cash plus holding equal to the
      cash before it, so the value of an earlier holding is lost; a sell or an
      idle bar keeps cash plus holding. With a positive close, cash falls only
      on a buy. */
  lemma TradeValue(a: Account, bar: Bar)
    requires Step(a, bar).Ok?
    ensures var b := Step(a, bar).value;
            bar.signal == 1 && a.cash > bar.close ==>
              b.cash + Mul(b.position as real, bar.close) == a.cash
    ensures var b := Step(a, bar).value;
            !(bar.signal == 1 && a.cash > bar.close) ==>
              b.cash + Mul(b.position as real, bar.close) == a.cash + Mul(a.position as real, bar.close)
    ensures var b := Step(a, bar).value;
            0.0 < bar.close && b.cash < a.cash ==> bar.signal == 1 && a.cash > bar.close
  {
    var b := Step(a, bar).value;
    MulByZero(0 as real, bar.close);
    if !(bar.signal == 1 && a.cash > bar.close) && bar.signal == -1 && a.position > 0 && 0.0 < bar.close {
      MulPositive(a.position as real, bar.close);
    }
  }

  /** A buy at a positive price holds at least one share and leaves less cash
      than the price; the new position depends only on the cash, so any
      earlier holding is replaced, not added to. */
  lemma BuyLeavesChange(a: Account, bar: Bar)
    requires bar.signal == 1 && 0.0 < bar.close < a.cash
    ensures Step(a, bar).Ok?
    ensures var b := Step(a, bar).value;
            1 <= b.position && 0.0 <= b.cash < bar.close &&
            b.position == (a.cash / bar.close).Floor
  {
  }

  /** A sell signal while flat, and any other signal, changes nothing. */
  lemma IdleBarChangesNothing(a: Account, bar: Bar)
    requires bar.signal != 1 || a.cash <= bar.close
    requires bar.signal != -1 || a.position <= 0
    ensures Step(a, bar) == Ok(a)
  {
  }

  /** With non-negative capital and positive prices the loop never raises,
      never holds a negative cash balance or position, and logs at most one
      trade per bar after the first. */
  lemma {:induction false} ReplaySolvent(bars: seq<Bar>, capital: real, k: int)
    requires 0 <= k <= |bars| && 0.0 <= capital
    requires forall i :: 0 <= i < |bars| ==> 0.0 < bars[i].close
    ensures Replay(bars, capital, k).Ok?
    ensures 0.0 <= Replay(bars, capital, k).value.cash
    ensures 0 <= Replay(bars, capital, k).value.position
    ensures |Replay(bars, capital, k).value.log| <= if k <= 1 then 0 else k - 1
  {
    if 1 < k {
      ReplaySolvent(bars, capital, k - 1);
      var a := Replay(bars, capital, k - 1).value;
      var bar := bars[k - 1];
      if bar.signal == 1 && a.cash > bar.close {
        BuyLeavesChange(a, bar);
      } else if bar.signal == -1 && a.position > 0 {
        MulPositive(a.position as real, bar.close);
      }
      StepLogsTrade(a, bar);
    }
  }

  /** The loop starts at bar 1: the first bar's signal and price never matter. */
  lemma {:induction false} FirstBarIgnored(bars: seq<Bar>, other: Bar, capital: real, k: int)
    requires 0 < |bars| && 0 <= k <= |bars|
    ensures Replay(bars, capital, k) == Replay([other] + bars[1..], capital, k)
  {
    if 1 < k {
      FirstBarIgnored(bars, other, capital, k - 1);
      assert ([other] + bars[1..])[k - 1] == bars[k - 1];
    }
  }

  /** With capital 100, a buy at 12 holds 8 shares and 4 in cash; a sell at 8
      brings the cash to 68, the final value, a loss of 32. */
  lemma RoundTripExample()
    ensures var bars := [Bar(0, 0, 10.0), Bar(1, 0, 10.0), Bar(2, 0, 10.0),
                         Bar(3, 1, 12.0), Bar(4, 0, 12.0), Bar(5, 0, 12.0),
                         Bar(6, -1, 8.0), Bar(7, 0, 8.0), Bar(8, 0, 8.0)];
            Replay(bars, 100.0, 4) == Ok(Account(4.0, 8, [Trade(3, Buy, 12.0, 8, 4.0)])) &&
            Outcome(bars, 100.0) == Ok(Summary(68.0, -32.0))
  {
    var bars := [Bar(0, 0, 10.0), Bar(1, 0, 10.0), Bar(2, 0, 10.0),
                 Bar(3, 1, 12.0), Bar(4, 0, 12.0), Bar(5, 0, 12.0),
                 Bar(6, -1, 8.0), Bar(7, 0, 8.0), Bar(8, 0, 8.0)];
    var bought := Account(4.0, 8, [Trade(3, Buy, 12.0, 8, 4.0)]);
    var sold := Account(68.0, 0, [Trade(3, Buy, 12.0, 8, 4.0), Trade(6, Sell, 8.0, 8, 68.0)]);
    assert (100.0 / 12.0).Floor == 8;
    assert FloorDiv(100.0, 12.0) == Ok(8);
    assert Mul(8.0, 12.0) == 96.0 && Mul(8.0, 8.0) == 64.0;
    assert Replay(bars, 100.0, 2) == Ok(Start(100.0));
    assert Replay(bars, 100.0, 3) == Ok(Start(100.0));
    assert bars[3] == Bar(3, 1, 12.0) && bars[6] == Bar(6, -1, 8.0);
    assert Start(100.0).log + [Trade(3, Buy, 12.0, 8, 4.0)] == bought.log;
    assert bought.log + [Trade(6, Sell, 8.0, 8, 68.0)] == sold.log;
    assert Step(Start(100.0), bars[3]) == Ok(bought);
    assert Replay(bars, 100.0, 4) == Ok(bought);
    assert Replay(bars, 100.0, 5) == Ok(bought);
    assert Replay(bars, 100.0, 6) == Ok(bought);
    assert Step(bought, bars[6]) == Ok(sold);
    assert Replay(bars, 100.0, 7) == Ok(sold);
    assert Replay(bars, 100.0, 8) == Ok(sold);
    assert Replay(bars, 100.0, 9) == Ok(sold);
  }

  /** A second buy while holding replaces the position: 8 shares bought at 12
      with capital 100 become 1 share after a buy at 3, and the value of the
      other 7 is gone. */
  lemma SecondBuyOverwritesExample()
    ensures var bars := [Bar(0, 0, 10.0), Bar(1, 1, 12.0), Bar(2, 1, 3.0)];
            Replay(bars, 100.0, 3) == Ok(Account(1.0, 1, [Trade(1, Buy, 12.0, 8, 4.0), Trade(2, Buy, 3.0, 1, 1.0)])) &&
            Outcome(bars, 100.0) == Ok(Summary(4.0, -96.0))
  {
    var bars := [Bar(0, 0, 10.0), Bar(1, 1, 12.0), Bar(2, 1, 3.0)];
    assert (100.0 / 12.0).Floor == 8;
    assert FloorDiv(100.0, 12.0) == Ok(8);
    assert (4.0 / 3.0).Floor == 1;
    assert FloorDiv(4.0, 3.0) == Ok(1);
    assert Mul(8.0, 12.0) == 96.0 && Mul(1.0, 3.0) == 3.0;
    var first := Account(4.0, 8, [Trade(1, Buy, 12.0, 8, 4.0)]);
    var second := Account(1.0, 1, [Trade(1, Buy, 12.0, 8, 4.0), Trade(2, Buy, 3.0, 1, 1.0)]);
    assert Start(100.0).log + [Trade(1, Buy, 12.0, 8, 4.0)] == first.log;
    assert first.log + [Trade(2, Buy, 3.0, 1, 1.0)] == second.log;
    assert Step(Start(100.0), bars[1]) == Ok(first);
    assert Step(first, bars[2]) == Ok(second);
    assert Replay(bars, 100.0, 2) == Ok(first);
    assert Replay(bars, 100.0, 3) == Ok(second);
  }
}
