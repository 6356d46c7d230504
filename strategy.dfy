/** NonLagMaStrategy: the parameters given to its constructor, the result
    frame that generate_signals fills, and the whole filter-and-crossover
    pipeline. */
module Strategy {
  import opened Series
  import StdFilter
  import Smoothing
  import Signals

  /** The columns generate_signals writes into the result frame. */
  datatype SignalTable = SignalTable(price: seq<real>, nonLagMa: seq<Option<real>>, signal: seq<int>)

  /** generate_signals as one expression: choose the price column, filter it,
      smooth it, draw the line, mark the crossings. */
  function Pipeline(df: map<string, seq<real>>, period: int, srcOption: string,
                    stdThreshold: real, filterStrength: real): (r: Result<SignalTable, Exception>)
    ensures r.Err? <==>
              srcOption !in df || period < 0 || Trunc(period as real * filterStrength) < 1
    ensures r.Err? && srcOption !in df ==> r.error == KeyError(srcOption)
    ensures r.Err? && srcOption in df ==> r.error == ValueError
    ensures r.Ok? ==> r.value.price == df[srcOption]
    ensures r.Ok? ==> |r.value.nonLagMa| == |r.value.signal| == |df[srcOption]|
  {
    if srcOption !in df then Err(KeyError(srcOption))
    else
      var src := df[srcOption];
      match StdFilter.Filter(src, period, stdThreshold)
      case Err(e) => Err(e)
      case Ok(filtered) =>
        match Smoothing.ClutterFilter(filtered, period, filterStrength)
        case Err(e) => Err(e)
        case Ok(smoothed) =>
          match Smoothing.NonLagMaLine(smoothed, period)
          case Err(e) => Err(e)
          case Ok(line) => Ok(SignalTable(src, line, Signals.SignalColumn(src, line)))
  }

  /** Whatever the prices and parameters, the pipeline never emits a signal:
      the std filter leaves bar 0 missing, the exponential average starts from
      that missing value, and nonlag_ma carries it to every later bar. */
  lemma PipelineNeverSignals(df: map<string, seq<real>>, period: int, srcOption: string,
                             stdThreshold: real, filterStrength: real)
    requires Pipeline(df, period, srcOption, stdThreshold, filterStrength).Ok?
    ensures var t := Pipeline(df, period, srcOption, stdThreshold, filterStrength).value;
            (forall i :: 0 <= i < |t.nonLagMa| ==> t.nonLagMa[i].None?) &&
            (forall i :: 0 <= i < |t.signal| ==> t.signal[i] == 0)
  {
    var src := df[srcOption];
    var filtered := StdFilter.Filtered(src, period, stdThreshold);
    var span := Trunc(period as real * filterStrength);
    Smoothing.SmoothingFactorRange(span);
    var smoothed := Smoothing.Ewm(filtered, Smoothing.SmoothingFactor(span));
    var line := Smoothing.Ema(smoothed, Smoothing.SmoothingFactor(period));
    if |src| > 0 {
      StdFilter.FirstBarMissing(src, period, stdThreshold);
      Smoothing.EwmFirst(filtered, Smoothing.SmoothingFactor(span));
      forall i | 0 <= i < |line| ensures line[i].None? {
        Smoothing.EmaMissingFromStart(smoothed, Smoothing.SmoothingFactor(period), i);
      }
    }
    Signals.MissingLineNeverSignals(src, line);
  }

  class NonLagMaStrategy {
    var df: map<string, seq<real>>
    var period: int
    var srcOption: string
    var stdThreshold: real
    var filterStrength: real
    /** The result frame; None while it holds only the index of df. */
    var result: Option<SignalTable>

    constructor(df: map<string, seq<real>>, period: int := 25, srcOption: string := "Close",
                stdThreshold: real := 0.1, filterStrength: real := 0.5)
      ensures this.df == df && this.period == period && this.srcOption == srcOption
      ensures this.stdThreshold == stdThreshold && this.filterStrength == filterStrength
      ensures result == None
    {
      this.df := df;
      this.period := period;
      this.srcOption := srcOption;
      this.stdThreshold := stdThreshold;
      this.filterStrength := filterStrength;
      result := None;
    }

    /** nonlag_ma: the line is computed in place on a copy of src. */
    method NonLagMa(src: seq<Option<real>>) returns (r: Result<seq<Option<real>>, Exception>)
      ensures r == Smoothing.NonLagMaLine(src, period)
    {
      if period == -1 {
        return Err(ZeroDivisionError);
      }
      var alpha := Smoothing.SmoothingFactor(period);
      var ma := new Option<real>[|src|];
      forall k | 0 <= k < ma.Length {
        ma[k] := src[k];
      }
      if ma.Length > 0 {
        for i := 1 to ma.Length
          invariant forall j :: 0 <= j < i ==> ma[j] == Smoothing.EmaAt(src, alpha, j)
          invariant forall j :: i <= j < ma.Length ==> ma[j] == src[j]
        {
          ma[i] := Smoothing.EmaStep(alpha, ma[i - 1], src[i]);
        }
      }
      assert ma[..] == Smoothing.Ema(src, alpha);
      r := Ok(ma[..]);
    }

    /** generate_signals: on success the result frame holds the price, the
        line and the signals; an exception leaves it as it was. */
    method GenerateSignals() returns (r: Result<SignalTable, Exception>)
      modifies this`result
      ensures r == Pipeline(df, period, srcOption, stdThreshold, filterStrength)
      ensures r.Ok? ==> result == Some(r.value)
      ensures r.Err? ==> result == old(result)
    {
      if srcOption !in df {
        return Err(KeyError(srcOption));
      }
      var src := df[srcOption];
      var filtered := StdFilter.Filter(src, period, stdThreshold);
      if filtered.Err? {
        return Err(filtered.error);
      }
      var smoothed := Smoothing.ClutterFilter(filtered.value, period, filterStrength);
      if smoothed.Err? {
        return Err(smoothed.error);
      }
      // the window check above has ruled out the period -1 that would divide by zero
      var line := NonLagMa(smoothed.value);
      var nl := line.value;
      result := Some(SignalTable(src, nl, seq(|src|, _ => 0)));
      var buy := Signals.BuyMask(src, nl);
      var sell := Signals.SellMask(src, nl);
      result := Some(result.value.(signal := Signals.Assign(result.value.signal, buy, 1)));
      result := Some(result.value.(signal := Signals.Assign(result.value.signal, sell, -1)));
      r := Ok(result.value);
    }
  }
}
