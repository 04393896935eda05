/** Fractional differencing: the binomial weights and their sum. */
module FracDiff {
  import opened Common

  /** The recurrence of the weights: from the one before to the k-th. */
  function Next(before: real, d: real, k: real): real
    requires k != 0.0
  {
    -before * (d - k + 1.0) / k
  }

  /** The k-th coefficient of (1 - L)^d. */
  function Coef(d: real, k: nat): real
  {
    if k == 0 then 1.0 else Next(Coef(d, k - 1), d, k as real)
  }

  function Coefs(d: real, n: nat): seq<real>
  {
    seq(n, k requires 0 <= k < n => Coef(d, k))
  }

  function Reversed(s: seq<real>): seq<real>
  {
    seq(|s|, i requires 0 <= i < |s| => s[|s| - 1 - i])
  }

  /** Even for a size of 0 or less the source returns the single weight 1. */
  function Length(size: int): nat { if size < 1 then 1 else size }

  method Weights(d: real, size: int) returns (w: seq<real>)
    ensures w == Reversed(Coefs(d, Length(size)))
  {
    var up := [1.0];
    for k := 1 to Length(size)
      invariant up == Coefs(d, k)
    {
      assert Coefs(d, k + 1) == Coefs(d, k) + [Coef(d, k)];
      assert up[|up| - 1] == Coef(d, k - 1);
      up := up + [Next(up[|up| - 1], d, k as real)];
    }
    w := Reversed(up);
  }

  /** The product over k = 1 .. n-1 of (1 - d/k). */
  function Survival(d: real, n: nat): real
  {
    if n <= 1 then 1.0 else Survival(d, n - 1) * (1.0 - d / (n - 1) as real)
  }

  /** Each weight is minus d/k times everything that survived before it. */
  lemma {:induction false} CoefIsLoss(d: real, k: nat)
    requires k >= 1
    ensures Coef(d, k) == -(d / k as real) * Survival(d, k)
  {
    if k == 1 {
      assert Coef(d, 0) == 1.0;
    } else {
      CoefIsLoss(d, k - 1);
      var j := (k - 1) as real;
      var s := Survival(d, k - 1);
      Telescope(d, j, s);
    }
  }

  lemma Telescope(d: real, j: real, s: real)
    requires j > 0.0
    ensures -(-(d / j) * s) * (d - j) / (j + 1.0) == -(d / (j + 1.0)) * (s * (1.0 - d / j))
  {
    var r := d / j;
    assert d == r * j;
    assert -(-r * s) * (r * j - j) == r * s * j * (r - 1.0);
    assert (r * s * j * (r - 1.0)) / (j + 1.0) == -((r * j) / (j + 1.0)) * (s * (1.0 - r));
  }

  lemma {:induction false} SumOfCoefs(d: real, n: nat)
    requires n >= 1
    ensures Sum(Coefs(d, n)) == Survival(d, n)
  {
    var s := Coefs(d, n);
    assert s[..n - 1] == Coefs(d, n - 1);
    if n == 1 {
      assert s[..0] == [];
    } else {
      SumOfCoefs(d, n - 1);
      CoefIsLoss(d, n - 1);
      Factor(Survival(d, n - 1), d / (n - 1) as real);
    }
  }

  lemma Factor(s: real, r: real)
    ensures s + -r * s == s * (1.0 - r)
  {
  }

  lemma {:induction false} SumReversed(s: seq<real>)
    ensures Sum(Reversed(s)) == Sum(s)
  {
    if s != [] {
      var init, last := s[..|s| - 1], s[|s| - 1];
      assert Reversed(s) == [last] + Reversed(init);
      SumConcat([last], Reversed(init));
      assert [last][..0] == [];
      assert Sum([last]) == last;
      SumReversed(init);
    }
  }

  /** The weights sum to the product over k of (1 - d/k). */
  lemma WeightsSum(d: real, size: int)
    ensures Sum(Reversed(Coefs(d, Length(size)))) == Survival(d, Length(size))
  {
    SumReversed(Coefs(d, Length(size)));
    SumOfCoefs(d, Length(size));
  }

  /** For 0 < d < 1 every weight after the first is negative and strictly smaller in
      magnitude than the one before. */
  lemma {:induction false} WeightsFade(d: real, k: nat)
    requires 0.0 < d < 1.0 && k >= 1
    ensures Coef(d, k) < 0.0 && -Coef(d, k) < Abs(Coef(d, k - 1))
  {
    if k == 1 {
      assert Coef(d, 0) == 1.0;
    } else {
      WeightsFade(d, k - 1);
      FadeStep(-Coef(d, k - 1), d, k as real);
    }
  }

  lemma FadeStep(c: real, d: real, n: real)
    requires c > 0.0 && 0.0 < d < 1.0 && n >= 2.0
    ensures -c < Next(-c, d, n) < 0.0
  {
    var r := (n - 1.0 - d) / n;
    assert 0.0 < r < 1.0;
    Shrink(c, r);
    assert -(-c) * (d - n + 1.0) / n == -(c * r);
  }

  lemma Shrink(c: real, r: real)
    requires c > 0.0 && 0.0 < r < 1.0
    ensures 0.0 < c * r < c
  {
    assert c * (1.0 - r) > 0.0;
  }

  function Dot(w: seq<real>, x: seq<real>): real
    requires |w| == |x|
  {
    if w == [] then 0.0 else Dot(w[..|w| - 1], x[..|x| - 1]) + w[|w| - 1] * x[|x| - 1]
  }

  datatype Result = Value(v: real) | ShapeError

  /** `arr[-size:]`, which for a size of 0 or less does not mean the last entries. */
  function Tail(series: seq<real>, size: int): seq<real>
    requires size <= |series|
  {
    if size > 0 then series[|series| - size..]
    else if size == 0 then series
    else if -size <= |series| then series[-size..] else []
  }

  /** `frac_diff_series`: 0 on a short series, an error where numpy refuses the shapes. */
  method Series(series: seq<real>, d: real, size: int) returns (r: Result)
    ensures |series| < size ==> r == Value(0.0)
    ensures |series| >= size && size >= 1 ==>
              r == Value(Dot(Reversed(Coefs(d, size)), series[|series| - size..])) && r == Value(Weighted(Coefs(d, size), series))
    ensures |series| >= size && size < 1 ==>
              var tail := Tail(series, size);
              if |tail| == 1 then r == Value(tail[0]) else r.ShapeError?
  {
    if |series| < size {
      return Value(0.0);
    }
    var w := Weights(d, size);
    var window := Tail(series, size);
    if |w| != |window| {
      return ShapeError;
    }
    r := Value(Dot(w, window));
    if size >= 1 {
      SeriesIsWeighted(Coefs(d, size), series);
    }
    if size < 1 {
      OneWeight(d, window);
    }
  }

  /** A single weight is 1 and returns the single value. */
  lemma OneWeight(d: real, x: seq<real>)
    requires |x| == 1
    ensures Dot(Reversed(Coefs(d, 1)), x) == x[0]
  {
    var w := Reversed(Coefs(d, 1));
    assert w == [1.0];
    assert w[..0] == [] && Dot(w[..0], x[..0]) == 0.0;
  }

  /** The k-th coefficient times the k-th latest value, summed. */
  function Weighted(coefs: seq<real>, series: seq<real>): real
    requires |coefs| <= |series|
  {
    if coefs == [] then 0.0
    else
      var n := |coefs|;
      Weighted(coefs[..n - 1], series) + coefs[n - 1] * series[|series| - n]
  }

  lemma {:induction false} DotFromFront(w: seq<real>, x: seq<real>)
    requires |w| == |x| && w != []
    ensures Dot(w, x) == w[0] * x[0] + Dot(w[1..], x[1..])
  {
    var n := |w| - 1;
    if n == 0 {
      assert Dot(w[..0], x[..0]) == 0.0;
    } else {
      DotFromFront(w[..n], x[..n]);
      assert w[..n][1..] == w[1..][..n - 1] && x[..n][1..] == x[1..][..n - 1];
    }
  }

  /** The fractional difference is the sum over k of the k-th coefficient times the k-th
      latest value. */
  lemma {:induction false} SeriesIsWeighted(coefs: seq<real>, series: seq<real>)
    requires |coefs| <= |series|
    ensures Dot(Reversed(coefs), series[|series| - |coefs|..]) == Weighted(coefs, series)
  {
    if coefs != [] {
      var n := |coefs|;
      var w, x := Reversed(coefs), series[|series| - n..];
      SeriesIsWeighted(coefs[..n - 1], series);
      DotFromFront(w, x);
      assert w[1..] == Reversed(coefs[..n - 1]);
      assert x[1..] == series[|series| - (n - 1)..];
    }
  }

  lemma {:induction false} DotConstant(w: seq<real>, x: seq<real>, c: real)
    requires |w| == |x| && forall i :: 0 <= i < |x| ==> x[i] == c
    ensures Dot(w, x) == c * Sum(w)
  {
    if w != [] {
      DotConstant(w[..|w| - 1], x[..|x| - 1], c);
    }
  }

  /** A constant series is scaled by exactly the weight sum. */
  lemma ConstantSeries(series: seq<real>, d: real, size: nat, c: real)
    requires 1 <= size <= |series| && forall i :: 0 <= i < |series| ==> series[i] == c
    ensures Dot(Reversed(Coefs(d, size)), series[|series| - size..]) == c * Survival(d, size)
  {
    var w := Reversed(Coefs(d, size));
    WeightsSum(d, size);
    ConstantWindow(w, series, c);
  }

  lemma ConstantWindow(w: seq<real>, series: seq<real>, c: real)
    requires |w| <= |series| && forall i :: 0 <= i < |series| ==> series[i] == c
    ensures Dot(w, series[|series| - |w|..]) == c * Sum(w)
  {
    DotConstant(w, series[|series| - |w|..], c);
  }
}
