/** Values shared by every stage: pandas' missing value (NaN) as an Option, an
    exception as the Err side of a Result, Python's int() on a float, and the
    sample statistics that pandas' rolling std and Series.std compute. */
module Series {

  /** A cell of a pandas column: a number, or NaN (missing). */
  datatype Option<+T> = None | Some(value: T)

  /** The outcome of a call that can raise: its value, or the exception. */
  datatype Result<+T, +E> = Ok(value: T) | Err(error: E)

  /** The Python exceptions the modelled code can raise. */
  datatype Exception =
    | KeyError(key: string)   // a column the frame does not have
    | ValueError              // a rolling window below 0, or an ewm span below 1
    | ZeroDivisionError       // 2 / (period + 1) with period -1; a zero price in the model
    | IndexError              // iloc[-1] on an empty column

  /** Python's int() applied to a float: truncation toward zero. */
  function Trunc(x: real): (r: int)
    ensures 0.0 <= x ==> 0 <= r && r as real <= x < r as real + 1.0
    ensures x < 0.0 ==> r <= 0 && r as real - 1.0 < x <= r as real
  {
    if 0.0 <= x then x.Floor else -((-x).Floor)
  }

  // Products that later proofs reason about are kept behind names, so that a
  // square is handled by the solver like any other product.

  function Mul(x: real, y: real): real
  {
    x * y
  }

  function Square(x: real): real
  {
    Mul(x, x)
  }

  lemma MulPositive(x: real, y: real)
    requires 0.0 < x && 0.0 < y
    ensures 0.0 < Mul(x, y)
  {
  }

  lemma MulNegative(x: real, y: real)
    requires x < 0.0 && y < 0.0
    ensures 0.0 < Mul(x, y)
  {
  }

  lemma MulByZero(x: real, y: real)
    requires x == 0.0
    ensures Mul(x, y) == 0.0
  {
  }

  lemma SquareSign(x: real)
    ensures 0.0 <= Square(x)
    ensures Square(x) == 0.0 <==> x == 0.0
  {
    if x < 0.0 {
      MulNegative(x, x);
    } else if 0.0 < x {
      MulPositive(x, x);
    } else {
      MulByZero(x, x);
    }
  }

  lemma MulMonotone(z: real, x: real, y: real)
    requires 0.0 <= z && x <= y
    ensures Mul(z, x) <= Mul(z, y)
  {
  }

  lemma MulStrictlyMonotone(z: real, x: real, y: real)
    requires 0.0 < z && x < y
    ensures Mul(z, x) < Mul(z, y)
  {
  }

  lemma MulCommutes(x: real, y: real)
    ensures Mul(x, y) == Mul(y, x)
  {
  }

  lemma MulSignMixed(x: real, y: real)
    requires x < 0.0 && 0.0 <= y
    ensures Mul(x, y) <= 0.0
  {
  }

  lemma SquareOfNegation(x: real)
    ensures Square(-x) == Square(x)
  {
  }

  lemma SquareOfProduct(x: real, y: real)
    ensures Square(Mul(x, y)) == Mul(Square(x), Square(y))
  {
  }

  /** On non-negative numbers, squaring preserves and reflects strict order. */
  lemma SquareMonotone(u: real, v: real)
    requires 0.0 <= u && 0.0 <= v
    ensures u < v <==> Square(u) < Square(v)
  {
    if u < v {
      MulMonotone(u, u, v);
      MulStrictlyMonotone(v, u, v);
      MulCommutes(u, v);
    } else {
      MulMonotone(v, v, u);
      MulMonotone(u, v, u);
      MulCommutes(u, v);
    }
  }

  lemma DivideNonNegative(x: real, y: real)
    requires 0.0 <= x && 0.0 < y
    ensures 0.0 <= x / y
    ensures x / y == 0.0 <==> x == 0.0
  {
  }

  function Abs(x: real): (r: real)
    ensures 0.0 <= r && (r == x || r == -x)
  {
    if x < 0.0 then -x else x
  }

  function Sum(s: seq<real>): real
  {
    if |s| == 0 then 0.0 else s[0] + Sum(s[1..])
  }

  function Mean(s: seq<real>): real
    requires |s| > 0
  {
    Sum(s) / |s| as real
  }

  /** The sum of the squared distances of the samples from m. */
  function SquaredDeviation(s: seq<real>, m: real): (r: real)
    ensures 0.0 <= r
  {
    if |s| == 0 then 0.0
    else
      var d := s[0] - m;
      SquareSign(d);
      Square(d) + SquaredDeviation(s[1..], m)
  }

  /** The sample variance (pandas' default ddof = 1); the standard deviation
      pandas reports is its square root. */
  function SampleVariance(s: seq<real>): (v: real)
    requires |s| >= 2
    ensures 0.0 <= v
  {
    var total, n := SquaredDeviation(s, Mean(s)), (|s| - 1) as real;
    DivideNonNegative(total, n);
    total / n
  }

  predicate Constant(s: seq<real>)
  {
    forall i :: 0 <= i < |s| ==> s[i] == s[0]
  }

  lemma {:induction false} SumOfConstant(s: seq<real>, c: real)
    requires forall i :: 0 <= i < |s| ==> s[i] == c
    ensures Sum(s) == |s| as real * c
  {
    if |s| > 0 {
      SumOfConstant(s[1..], c);
    }
  }

  lemma {:induction false} SquaredDeviationZeroIff(s: seq<real>, m: real)
    ensures SquaredDeviation(s, m) == 0.0 <==> forall i :: 0 <= i < |s| ==> s[i] == m
  {
    if |s| > 0 {
      var rest, d := s[1..], s[0] - m;
      SquaredDeviationZeroIff(rest, m);
      SquareSign(d);
      if SquaredDeviation(s, m) == 0.0 {
        forall i | 0 < i < |s| ensures s[i] == m {
          assert s[i] == rest[i - 1];
        }
      }
      if forall i :: 0 <= i < |s| ==> s[i] == m {
        forall i | 0 <= i < |rest| ensures rest[i] == m {
          assert rest[i] == s[i + 1];
        }
      }
    }
  }

  lemma MeanOfConstant(s: seq<real>)
    requires |s| > 0 && Constant(s)
    ensures Mean(s) == s[0]
  {
    SumOfConstant(s, s[0]);
  }

  /** The sample variance vanishes exactly on a constant sample. */
  lemma VarianceZeroIffConstant(s: seq<real>)
    requires |s| >= 2
    ensures SampleVariance(s) == 0.0 <==> Constant(s)
  {
    var m := Mean(s);
    SquaredDeviationZeroIff(s, m);
    DivideNonNegative(SquaredDeviation(s, m), (|s| - 1) as real);
    if Constant(s) {
      MeanOfConstant(s);
    }
  }
}
