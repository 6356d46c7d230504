/** NonLagMaStrategy.std_filter: a bar is kept when its distance from the
    rolling mean is below `threshold` rolling standard deviations; a rejected
    bar takes the value of the latest kept bar (forward fill), or stays
    missing when no earlier bar was kept. */
module StdFilter {
  import opened Series

  /** The trailing window of `period` samples that ends at bar i. */
  function Window(src: seq<real>, period: int, i: int): (w: seq<real>)
    requires 1 <= period <= i + 1 <= |src|
    ensures |w| == period && w[period - 1] == src[i]
  {
    src[i + 1 - period .. i + 1]
  }

  /** The acceptance test of bar i, |src - mean| < threshold * std, written
      without the square root (see AcceptanceMatchesDeviationTest). The rolling
      standard deviation (ddof = 1) exists only for a full window of at least
      two samples; elsewhere it is missing and the comparison is false. */
  predicate Accepted(src: seq<real>, period: int, threshold: real, i: int)
    requires 0 <= i < |src|
  {
    2 <= period <= i + 1 &&
    var w := Window(src, period, i);
    0.0 <= threshold &&
    Square(src[i] - Mean(w)) < Mul(Square(threshold), SampleVariance(w))
  }

  /** For a non-negative standard deviation sd of the window, the squared test
      holds exactly when the test with the square root holds. */
  lemma AcceptanceMatchesDeviationTest(d: real, threshold: real, sd: real)
    requires 0.0 <= sd
    ensures Abs(d) < Mul(threshold, sd)
        <==> 0.0 <= threshold && Square(d) < Mul(Square(threshold), Square(sd))
  {
    var u, v := Abs(d), Mul(threshold, sd);
    if u == -d {
      SquareOfNegation(d);
    }
    SquareOfProduct(threshold, sd);
    if threshold < 0.0 {
      MulSignMixed(threshold, sd);
      SquareSign(d);
      SquareSign(threshold);
      SquareSign(sd);
      SquareOfNegation(threshold);
      SquareMonotone(0.0, u);
      SquareMonotone(-threshold, 0.0);
      MulMonotone(sd, 0.0, -threshold);
      MulMonotone(-threshold, 0.0, sd);
      SquareOfProduct(-threshold, sd);
      SquareMonotone(u, Mul(-threshold, sd));
      NegatedProduct(threshold, sd);
    } else {
      MulMonotone(threshold, 0.0, sd);
      SquareMonotone(u, v);
    }
  }

  lemma NegatedProduct(x: real, y: real)
    ensures Mul(-x, y) == -Mul(x, y)
  {
  }

  /** The boolean column of the test, one entry per bar. */
  function AcceptMask(src: seq<real>, period: int, threshold: real): (mask: seq<bool>)
    ensures |mask| == |src|
  {
    seq(|src|, i requires 0 <= i < |src| => Accepted(src, period, threshold, i))
  }

  /** The latest index j <= i where the mask is set, if any. */
  function LatestSet(mask: seq<bool>, i: int): (r: Option<int>)
    requires 0 <= i < |mask|
    ensures r.Some? ==> 0 <= r.value <= i && mask[r.value]
    ensures r.Some? ==> forall j :: r.value < j <= i ==> !mask[j]
    ensures r.None? ==> forall j :: 0 <= j <= i ==> !mask[j]
    decreases i
  {
    if mask[i] then Some(i)
    else if i == 0 then None
    else LatestSet(mask, i - 1)
  }

  /** series.where(mask).ffill(): every bar shows the value of the latest bar
      up to it where the mask is set, and is missing before the first such bar. */
  function WhereForwardFill(src: seq<real>, mask: seq<bool>): (out: seq<Option<real>>)
    requires |mask| == |src|
    ensures |out| == |src|
  {
    seq(|src|, i requires 0 <= i < |src| =>
      match LatestSet(mask, i)
      case Some(j) => Some(src[j])
      case None => None)
  }

  /** The filtered series. */
  function Filtered(src: seq<real>, period: int, threshold: real): (out: seq<Option<real>>)
    ensures |out| == |src|
  {
    WhereForwardFill(src, AcceptMask(src, period, threshold))
  }

  /** std_filter, with pandas' refusal of a negative rolling window. */
  function Filter(src: seq<real>, period: int, threshold: real): (r: Result<seq<Option<real>>, Exception>)
    ensures r.Err? <==> period < 0
    ensures r.Err? ==> r.error == ValueError
    ensures r.Ok? ==> r.value == Filtered(src, period, threshold)
  {
    if period < 0 then Err(ValueError) else Ok(Filtered(src, period, threshold))
  }

  /** Masking and forward filling: a bar where the mask is set keeps its own
      value, any other bar repeats the previous output, and the first bar is
      missing when its mask is clear. */
  lemma ForwardFillSteps(src: seq<real>, mask: seq<bool>, i: int)
    requires |mask| == |src| && 0 <= i < |src|
    ensures mask[i] ==> WhereForwardFill(src, mask)[i] == Some(src[i])
    ensures !mask[i] && i == 0 ==> WhereForwardFill(src, mask)[i] == None
    ensures !mask[i] && i > 0 ==> WhereForwardFill(src, mask)[i] == WhereForwardFill(src, mask)[i - 1]
  {
  }

  /** Missing values form a prefix: once a bar is defined, all later ones are. */
  lemma ForwardFillMissingIsPrefix(src: seq<real>, mask: seq<bool>, i: int, j: int)
    requires |mask| == |src| && 0 <= i <= j < |src|
    requires WhereForwardFill(src, mask)[i].Some?
    ensures WhereForwardFill(src, mask)[j].Some?
  {
    var k := LatestSet(mask, i).value;
    assert mask[k];
  }

  /** Every output value is an input value from the same bar or an earlier one. */
  lemma ForwardFillTakesEarlierValue(src: seq<real>, mask: seq<bool>, i: int)
    requires |mask| == |src| && 0 <= i < |src|
    requires WhereForwardFill(src, mask)[i].Some?
    ensures exists j :: 0 <= j <= i && mask[j] && WhereForwardFill(src, mask)[i] == Some(src[j])
  {
    var j := LatestSet(mask, i).value;
    assert mask[j] && WhereForwardFill(src, mask)[i] == Some(src[j]);
  }

  /** A bar is accepted only with a full window of at least two samples whose
      variance is positive; so bars before period - 1 never pass. */
  lemma AcceptedNeedsFullVaryingWindow(src: seq<real>, period: int, threshold: real, i: int)
    requires 0 <= i < |src| && Accepted(src, period, threshold, i)
    ensures 2 <= period <= i + 1
    ensures 0.0 < threshold
    ensures 0.0 < SampleVariance(Window(src, period, i))
  {
    var w := Window(src, period, i);
    var v := SampleVariance(w);
    SquareSign(src[i] - Mean(w));
    SquareSign(threshold);
    if v == 0.0 {
      MulCommutes(Square(threshold), v);
      MulByZero(v, Square(threshold));
    }
    if threshold == 0.0 {
      MulByZero(Square(threshold), v);
    }
  }

  /** The first bar is always missing after the filter, whatever the period:
      the rolling standard deviation needs two samples. */
  lemma FirstBarMissing(src: seq<real>, period: int, threshold: real)
    requires |src| > 0
    ensures Filtered(src, period, threshold)[0] == None
  {
  }

  /** Every bar before period - 1 is missing. */
  lemma WarmUpMissing(src: seq<real>, period: int, threshold: real, i: int)
    requires 0 <= i < |src| && i < period - 1
    ensures Filtered(src, period, threshold)[i] == None
  {
  }

  /** A window of identical prices has zero deviation and rejects its bar: a
      constant series is filtered to missing values throughout. */
  lemma {:induction false} ConstantSeriesAllMissing(src: seq<real>, period: int, threshold: real)
    requires Constant(src)
    ensures forall i :: 0 <= i < |src| ==> Filtered(src, period, threshold)[i] == None
  {
    forall i | 0 <= i < |src|
      ensures !AcceptMask(src, period, threshold)[i]
    {
      if 2 <= period <= i + 1 {
        var w := Window(src, period, i);
        assert Constant(w) by {
          forall k | 0 <= k < |w| ensures w[k] == w[0] {
            assert w[k] == src[i + 1 - period + k] && w[0] == src[i + 1 - period];
          }
        }
        VarianceZeroIffConstant(w);
        if Accepted(src, period, threshold, i) {
          AcceptedNeedsFullVaryingWindow(src, period, threshold, i);
        }
      }
    }
  }
}
