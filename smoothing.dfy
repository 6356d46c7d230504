/** The two exponential recursions of the strategy:
    clutter_filter, pandas' ewm(span, adjust=False).mean() with its treatment
    of missing values, and nonlag_ma, the explicit loop in which a missing
    value poisons every later one. */
module Smoothing {
  import opened Series

  /** One step of an exponential average: (1 - alpha) * prev + alpha * cur. */
  function Blend(alpha: real, prev: real, cur: real): real
  {
    Mul(1.0 - alpha, prev) + Mul(alpha, cur)
  }

  /** The smoothing factor 2 / (n + 1) that a span or a period n stands for. */
  function SmoothingFactor(n: int): real
    requires n != -1
  {
    2.0 / (n + 1) as real
  }

  lemma SmoothingFactorRange(n: int)
    requires 1 <= n
    ensures 0.0 < SmoothingFactor(n) <= 1.0
  {
    var d := (n + 1) as real;
    assert 2.0 <= d;
    DivisionBelowOne(2.0, d);
  }

  lemma DivisionBelowOne(x: real, y: real)
    requires 0.0 < x <= y
    ensures 0.0 < x / y <= 1.0
  {
  }

  lemma BlendOfEqual(a: real, v: real)
    ensures Blend(a, v, v) == v
  {
  }

  /** A blend with a factor in (0, 1] stays between any bounds of its two
      inputs. */
  lemma BlendBetween(a: real, prev: real, cur: real, lo: real, hi: real)
    requires 0.0 < a <= 1.0
    requires lo <= prev <= hi && lo <= cur <= hi
    ensures lo <= Blend(a, prev, cur) <= hi
  {
    MulMonotone(1.0 - a, lo, prev);
    MulMonotone(1.0 - a, prev, hi);
    MulMonotone(a, lo, cur);
    MulMonotone(a, cur, hi);
    BlendOfEqual(a, lo);
    BlendOfEqual(a, hi);
  }

  // ---------------------------------------------------------------------
  // pandas ewm(adjust=False).mean(), missing values not ignored

  /** The running state of pandas' ewm mean: the average so far (missing until
      the first observation) and the weight the average carries. */
  datatype EwmState = EwmState(average: Option<real>, oldWeight: real)

  /** (p * w + q * c) / (p + q) */
  function WeightedAverage(p: real, w: real, q: real, c: real): real
    requires p + q != 0.0
  {
    (Mul(p, w) + Mul(q, c)) / (p + q)
  }

  /** The state after reading one more value. While the average is missing an
      observation starts it. Once it exists, the old weight decays by
      (1 - alpha) at every bar, observed or not; an observation then mixes in
      with weight alpha and resets the old weight to 1 (adjust=False), and a
      missing value leaves the average as it is. */
  function EwmStep(alpha: real, s: EwmState, cur: Option<real>): (t: EwmState)
    requires 0.0 < alpha <= 1.0 && 0.0 <= s.oldWeight
    ensures t.average.None? <==> s.average.None? && cur.None?
  {
    match s.average
    case None => EwmState(cur, s.oldWeight)
    case Some(w) =>
      var decayed := Mul(1.0 - alpha, s.oldWeight);
      MulMonotone(1.0 - alpha, 0.0, s.oldWeight);
      match cur
      case None => EwmState(s.average, decayed)
      case Some(c) => EwmState(Some(WeightedAverage(decayed, w, alpha, c)), 1.0)
  }

  /** The state after bar i; the average starts as the first value with
      weight 1. */
  function EwmStateAt(x: seq<Option<real>>, alpha: real, i: int): (s: EwmState)
    requires 0.0 < alpha <= 1.0 && 0 <= i < |x|
    ensures 0.0 <= s.oldWeight <= 1.0
    ensures x[i].Some? ==> s.oldWeight == 1.0
    ensures s.average.None? ==> s.oldWeight == 1.0
    decreases i
  {
    if i == 0 then EwmState(x[0], 1.0)
    else
      var prev := EwmStateAt(x, alpha, i - 1);
      MulMonotone(1.0 - alpha, prev.oldWeight, 1.0);
      EwmStep(alpha, prev, x[i])
  }

  /** series.ewm(alpha=alpha, adjust=False).mean() */
  function Ewm(x: seq<Option<real>>, alpha: real): (y: seq<Option<real>>)
    requires 0.0 < alpha <= 1.0
    ensures |y| == |x|
  {
    seq(|x|, i requires 0 <= i < |x| => EwmStateAt(x, alpha, i).average)
  }

  /** clutter_filter: span is period * filter_strength truncated to an
      integer; pandas refuses a span below 1. */
  function ClutterFilter(x: seq<Option<real>>, period: int, filterStrength: real)
    : (r: Result<seq<Option<real>>, Exception>)
    ensures r.Err? <==> Trunc(period as real * filterStrength) < 1
    ensures r.Err? ==> r.error == ValueError
    ensures r.Ok? ==> |r.value| == |x|
  {
    var span := Trunc(period as real * filterStrength);
    if span < 1 then Err(ValueError)
    else
      SmoothingFactorRange(span);
      Ok(Ewm(x, SmoothingFactor(span)))
  }

  lemma WeightedAverageOfOne(a: real, w: real, c: real)
    ensures WeightedAverage(Mul(1.0 - a, 1.0), w, a, c) == Blend(a, w, c)
  {
  }

  lemma DivideAtLeast(x: real, y: real, lo: real)
    requires 0.0 < y && lo * y <= x
    ensures lo <= x / y
  {
  }

  lemma DivideAtMost(x: real, y: real, hi: real)
    requires 0.0 < y && x <= hi * y
    ensures x / y <= hi
  {
  }

  lemma WeightedAverageBetween(p: real, w: real, q: real, c: real, lo: real, hi: real)
    requires 0.0 <= p && 0.0 < q
    requires lo <= w <= hi && lo <= c <= hi
    ensures lo <= WeightedAverage(p, w, q, c) <= hi
  {
    MulMonotone(p, lo, w);
    MulMonotone(p, w, hi);
    MulMonotone(q, lo, c);
    MulMonotone(q, c, hi);
    var total := Mul(p, w) + Mul(q, c);
    assert Mul(p, lo) + Mul(q, lo) == lo * (p + q);
    assert Mul(p, hi) + Mul(q, hi) == hi * (p + q);
    DivideAtLeast(total, p + q, lo);
    DivideAtMost(total, p + q, hi);
  }

  /** The first output is the first input. */
  lemma EwmFirst(x: seq<Option<real>>, alpha: real)
    requires 0.0 < alpha <= 1.0 && |x| > 0
    ensures Ewm(x, alpha)[0] == x[0]
  {
  }

  /** Between two observed bars the output follows
      y[i] = alpha * x[i] + (1 - alpha) * y[i - 1]. */
  lemma EwmRecursion(x: seq<Option<real>>, alpha: real, i: int)
    requires 0.0 < alpha <= 1.0 && 1 <= i < |x|
    requires x[i - 1].Some? && x[i].Some?
    ensures Ewm(x, alpha)[i - 1].Some?
    ensures Ewm(x, alpha)[i] == Some(Blend(alpha, Ewm(x, alpha)[i - 1].value, x[i].value))
  {
    var prev := EwmStateAt(x, alpha, i - 1);
    EwmDefinedAfterObservation(x, alpha, i - 1, i - 1);
    WeightedAverageOfOne(alpha, prev.average.value, x[i].value);
  }

  /** A missing value holds the previous output. */
  lemma EwmHoldsOverGap(x: seq<Option<real>>, alpha: real, i: int)
    requires 0.0 < alpha <= 1.0 && 1 <= i < |x| && x[i].None?
    ensures Ewm(x, alpha)[i] == Ewm(x, alpha)[i - 1]
  {
  }

  lemma {:induction false} EwmDefinedAfterObservation(x: seq<Option<real>>, alpha: real, j: int, i: int)
    requires 0.0 < alpha <= 1.0 && 0 <= j <= i < |x| && x[j].Some?
    ensures EwmStateAt(x, alpha, i).average.Some?
  {
    if j < i {
      EwmDefinedAfterObservation(x, alpha, j, i - 1);
    }
  }

  lemma {:induction false} EwmStateMissingBeforeObservation(x: seq<Option<real>>, alpha: real, i: int)
    requires 0.0 < alpha <= 1.0 && 0 <= i < |x|
    requires forall j :: 0 <= j <= i ==> x[j].None?
    ensures EwmStateAt(x, alpha, i).average.None?
  {
    if i > 0 {
      EwmStateMissingBeforeObservation(x, alpha, i - 1);
    }
  }

  /** An output is missing exactly while every input up to it is missing. */
  lemma EwmMissingIffNoObservation(x: seq<Option<real>>, alpha: real, i: int)
    requires 0.0 < alpha <= 1.0 && 0 <= i < |x|
    ensures Ewm(x, alpha)[i].None? <==> forall j :: 0 <= j <= i ==> x[j].None?
  {
    if exists j :: 0 <= j <= i && x[j].Some? {
      var j :| 0 <= j <= i && x[j].Some?;
      EwmDefinedAfterObservation(x, alpha, j, i);
    } else {
      EwmStateMissingBeforeObservation(x, alpha, i);
    }
  }

  lemma {:induction false} EwmStateBounded(x: seq<Option<real>>, alpha: real, lo: real, hi: real, i: int)
    requires 0.0 < alpha <= 1.0 && 0 <= i < |x|
    requires forall j :: 0 <= j < |x| && x[j].Some? ==> lo <= x[j].value <= hi
    ensures EwmStateAt(x, alpha, i).average.Some? ==> lo <= EwmStateAt(x, alpha, i).average.value <= hi
  {
    if i > 0 {
      EwmStateBounded(x, alpha, lo, hi, i - 1);
      var prev := EwmStateAt(x, alpha, i - 1);
      if prev.average.Some? && x[i].Some? {
        var decayed := Mul(1.0 - alpha, prev.oldWeight);
        MulMonotone(1.0 - alpha, 0.0, prev.oldWeight);
        WeightedAverageBetween(decayed, prev.average.value, alpha, x[i].value, lo, hi);
      }
    }
  }

  /** Every output lies within any bounds of the observed inputs. */
  lemma EwmBounded(x: seq<Option<real>>, alpha: real, lo: real, hi: real, i: int)
    requires 0.0 < alpha <= 1.0 && 0 <= i < |x|
    requires forall j :: 0 <= j < |x| && x[j].Some? ==> lo <= x[j].value <= hi
    ensures Ewm(x, alpha)[i].Some? ==> lo <= Ewm(x, alpha)[i].value <= hi
  {
    EwmStateBounded(x, alpha, lo, hi, i);
  }

  /** A constant input gives a constant output. */
  lemma EwmOfConstant(x: seq<Option<real>>, alpha: real, c: real, i: int)
    requires 0.0 < alpha <= 1.0 && 0 <= i < |x|
    requires forall j :: 0 <= j < |x| ==> x[j] == Some(c)
    ensures Ewm(x, alpha)[i] == Some(c)
  {
    EwmBounded(x, alpha, c, c, i);
    EwmDefinedAfterObservation(x, alpha, 0, i);
  }

  // ---------------------------------------------------------------------
  // nonlag_ma

  /** ma[i] of nonlag_ma: ma[0] = src[0] and
      ma[i] = (1 - alpha) * ma[i - 1] + alpha * src[i]; float arithmetic with a
      missing operand gives a missing result. */
  function EmaAt(src: seq<Option<real>>, alpha: real, i: int): Option<real>
    requires 0 <= i < |src|
    decreases i
  {
    if i == 0 then src[0] else EmaStep(alpha, EmaAt(src, alpha, i - 1), src[i])
  }

  /** One assignment of the nonlag_ma loop. */
  function EmaStep(alpha: real, prev: Option<real>, cur: Option<real>): Option<real>
  {
    if prev.Some? && cur.Some? then Some(Blend(alpha, prev.value, cur.value)) else None
  }

  function Ema(src: seq<Option<real>>, alpha: real): (ma: seq<Option<real>>)
    ensures |ma| == |src|
  {
    seq(|src|, i requires 0 <= i < |src| => EmaAt(src, alpha, i))
  }

  /** nonlag_ma with its smoothing factor 2 / (period + 1); a period of -1
      divides by zero. */
  function NonLagMaLine(src: seq<Option<real>>, period: int): (r: Result<seq<Option<real>>, Exception>)
    ensures r.Err? <==> period == -1
    ensures r.Err? ==> r.error == ZeroDivisionError
    ensures r.Ok? ==> |r.value| == |src|
  {
    if period == -1 then Err(ZeroDivisionError) else Ok(Ema(src, SmoothingFactor(period)))
  }

  /** The line keeps the first value and then follows the recursion wherever
      both operands exist. */
  lemma EmaRecursion(src: seq<Option<real>>, alpha: real, i: int)
    requires 1 <= i < |src|
    ensures Ema(src, alpha)[0] == src[0]
    ensures Ema(src, alpha)[i - 1].Some? && src[i].Some? ==>
              Ema(src, alpha)[i] == Some(Blend(alpha, Ema(src, alpha)[i - 1].value, src[i].value))
    ensures Ema(src, alpha)[i - 1].None? || src[i].None? ==> Ema(src, alpha)[i] == None
  {
  }

  /** A missing first value makes the whole line missing. */
  lemma {:induction false} EmaMissingFromStart(src: seq<Option<real>>, alpha: real, i: int)
    requires 0 <= i < |src| && src[0].None?
    ensures Ema(src, alpha)[i] == None
  {
    if i > 0 {
      EmaMissingFromStart(src, alpha, i - 1);
    }
  }

  /** With a factor in (0, 1], every ma[i] is defined when src[0..i] is, and
      lies within any bounds of src[0..i]. */
  lemma {:induction false} EmaBounded(src: seq<Option<real>>, alpha: real, lo: real, hi: real, i: int)
    requires 0.0 < alpha <= 1.0 && 0 <= i < |src|
    requires forall j :: 0 <= j <= i ==> src[j].Some? && lo <= src[j].value <= hi
    ensures Ema(src, alpha)[i].Some?
    ensures lo <= Ema(src, alpha)[i].value <= hi
  {
    if i > 0 {
      EmaBounded(src, alpha, lo, hi, i - 1);
      BlendBetween(alpha, EmaAt(src, alpha, i - 1).value, src[i].value, lo, hi);
    }
  }

  /** A constant input gives a constant line. */
  lemma EmaOfConstant(src: seq<Option<real>>, alpha: real, c: real, i: int)
    requires 0.0 < alpha <= 1.0 && 0 <= i < |src|
    requires forall j :: 0 <= j < |src| ==> src[j] == Some(c)
    ensures Ema(src, alpha)[i] == Some(c)
  {
    EmaBounded(src, alpha, c, c, i);
  }
}
