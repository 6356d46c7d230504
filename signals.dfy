/** The crossover rule of generate_signals: a buy where the price crosses
    above the line, a sell where it crosses below, written into a signal column
    that starts at 0. A comparison with a missing value is false, and the
    shifted series is missing at bar 0. */
module Signals {
  import opened Series

  /** Price above the line at bar i after being at or below it at bar i - 1. */
  predicate Buy(src: seq<real>, line: seq<Option<real>>, i: int): (b: bool)
    requires |line| == |src| && 0 <= i < |src|
    // crossing up takes a rising price or a falling line
    ensures b ==> 1 <= i && line[i].Some? && line[i - 1].Some? &&
                  (src[i - 1] < src[i] || line[i].value < line[i - 1].value)
  {
    1 <= i && line[i].Some? && line[i - 1].Some? &&
    src[i] > line[i].value && src[i - 1] <= line[i - 1].value
  }

  /** Price below the line at bar i after being at or above it at bar i - 1. */
  predicate Sell(src: seq<real>, line: seq<Option<real>>, i: int): (b: bool)
    requires |line| == |src| && 0 <= i < |src|
    // crossing down takes a falling price or a rising line
    ensures b ==> 1 <= i && line[i].Some? && line[i - 1].Some? &&
                  (src[i] < src[i - 1] || line[i - 1].value < line[i].value)
  {
    1 <= i && line[i].Some? && line[i - 1].Some? &&
    src[i] < line[i].value && src[i - 1] >= line[i - 1].value
  }

  function BuyMask(src: seq<real>, line: seq<Option<real>>): (m: seq<bool>)
    requires |line| == |src|
    ensures |m| == |src|
  {
    seq(|src|, i requires 0 <= i < |src| => Buy(src, line, i))
  }

  function SellMask(src: seq<real>, line: seq<Option<real>>): (m: seq<bool>)
    requires |line| == |src|
    ensures |m| == |src|
  {
    seq(|src|, i requires 0 <= i < |src| => Sell(src, line, i))
  }

  /** frame.loc[mask, column] = v */
  function Assign(column: seq<int>, mask: seq<bool>, v: int): (r: seq<int>)
    requires |mask| == |column|
    ensures |r| == |column|
  {
    seq(|column|, i requires 0 <= i < |column| => if mask[i] then v else column[i])
  }

  /** The signal column: 0 everywhere, then 1 on buy bars, then -1 on sell
      bars. */
  function SignalColumn(src: seq<real>, line: seq<Option<real>>): (signal: seq<int>)
    requires |line| == |src|
    ensures |signal| == |src|
    ensures forall i :: 0 <= i < |signal| ==> -1 <= signal[i] <= 1
  {
    var zero := seq(|src|, _ => 0);
    Assign(Assign(zero, BuyMask(src, line), 1), SellMask(src, line), -1)
  }

  /** No bar is both a buy and a sell, so the sell write never overwrites a
      buy. */
  lemma BuySellDisjoint(src: seq<real>, line: seq<Option<real>>, i: int)
    requires |line| == |src| && 0 <= i < |src|
    ensures !(Buy(src, line, i) && Sell(src, line, i))
  {
  }

  /** Each bar's signal is 1 exactly on a buy, -1 exactly on a sell, and 0
      exactly when it is neither. */
  lemma SignalMeaning(src: seq<real>, line: seq<Option<real>>, i: int)
    requires |line| == |src| && 0 <= i < |src|
    ensures SignalColumn(src, line)[i] == 1 <==> Buy(src, line, i)
    ensures SignalColumn(src, line)[i] == -1 <==> Sell(src, line, i)
    ensures SignalColumn(src, line)[i] == 0 <==> !Buy(src, line, i) && !Sell(src, line, i)
  {
    BuySellDisjoint(src, line, i);
  }

  /** Bar 0 never signals, and neither does a bar next to a missing line
      value. */
  lemma NoSignalWithoutLine(src: seq<real>, line: seq<Option<real>>, i: int)
    requires |line| == |src| && 0 <= i < |src|
    requires i == 0 || line[i].None? || line[i - 1].None?
    ensures SignalColumn(src, line)[i] == 0
  {
    SignalMeaning(src, line, i);
  }

  /** A line that is missing throughout produces no signal at all. */
  lemma MissingLineNeverSignals(src: seq<real>, line: seq<Option<real>>)
    requires |line| == |src|
    requires forall i :: 0 <= i < |line| ==> line[i].None?
    ensures forall i :: 0 <= i < |src| ==> SignalColumn(src, line)[i] == 0
  {
    forall i | 0 <= i < |src| ensures SignalColumn(src, line)[i] == 0 {
      NoSignalWithoutLine(src, line, i);
    }
  }

  /** A price that rises through a flat line buys at the crossing bar only; a
      price that falls through it sells at that bar, and coming back to touch
      the line emits nothing, so rising again buys a second time with no
      sell in between. */
  lemma CrossingExample()
    ensures SignalColumn([1.0, 2.0, 3.0], [Some(2.0), Some(2.0), Some(2.0)]) == [0, 0, 1]
    ensures SignalColumn([3.0, 1.0, 2.0], [Some(2.0), Some(2.0), Some(2.0)]) == [0, -1, 0]
    ensures SignalColumn([1.0, 3.0, 2.0, 3.0], [Some(2.0), Some(2.0), Some(2.0), Some(2.0)]) == [0, 1, 0, 1]
  {
    var line := [Some(2.0), Some(2.0), Some(2.0)];
    SignalMeaning([1.0, 2.0, 3.0], line, 0);
    SignalMeaning([1.0, 2.0, 3.0], line, 1);
    SignalMeaning([1.0, 2.0, 3.0], line, 2);
    SignalMeaning([3.0, 1.0, 2.0], line, 0);
    SignalMeaning([3.0, 1.0, 2.0], line, 1);
    SignalMeaning([3.0, 1.0, 2.0], line, 2);
    var line4 := [Some(2.0), Some(2.0), Some(2.0), Some(2.0)];
    SignalMeaning([1.0, 3.0, 2.0, 3.0], line4, 0);
    SignalMeaning([1.0, 3.0, 2.0, 3.0], line4, 1);
    SignalMeaning([1.0, 3.0, 2.0, 3.0], line4, 2);
    SignalMeaning([1.0, 3.0, 2.0, 3.0], line4, 3);
  }
}
