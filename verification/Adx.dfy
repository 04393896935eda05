/** Wilder's ADX(14) over high, low and close bars. */
module Adx {
  import opened Common

  const N := 14

  datatype Bar = Bar(high: real, low: real, close: real)

  /** Directional movement: the larger of the two moves if it is positive. */
  function Movement(move: real, against: real): real
  {
    if move > against && move > 0.0 then move else 0.0
  }

  function PlusDm(prev: Bar, cur: Bar): real
  {
    Movement(cur.high - prev.high, prev.low - cur.low)
  }

  function MinusDm(prev: Bar, cur: Bar): real
  {
    Movement(prev.low - cur.low, cur.high - prev.high)
  }

  function Range(x: real, y: real, z: real): real { Max(x, Max(Abs(y), Abs(z))) }

  function TrueRange(prev: Bar, cur: Bar): real
  {
    Range(cur.high - cur.low, cur.high - prev.close, cur.low - prev.close)
  }

  // The three series, one entry per bar after the first.
  function PlusDms(bars: seq<Bar>): seq<real>
  {
    seq(if |bars| == 0 then 0 else |bars| - 1, i requires 0 <= i < |bars| - 1 => PlusDm(bars[i], bars[i + 1]))
  }

  function MinusDms(bars: seq<Bar>): seq<real>
  {
    seq(if |bars| == 0 then 0 else |bars| - 1, i requires 0 <= i < |bars| - 1 => MinusDm(bars[i], bars[i + 1]))
  }

  function TrueRanges(bars: seq<Bar>): seq<real>
  {
    seq(if |bars| == 0 then 0 else |bars| - 1, i requires 0 <= i < |bars| - 1 => TrueRange(bars[i], bars[i + 1]))
  }

  /** The k-th smoothed value: the sum of the first N, then decay by 1/N and add. */
  function Smooth(xs: seq<real>, k: nat): real
    requires N + k <= |xs|
  {
    if k == 0 then Sum(xs[..N]) else Smooth(xs, k - 1) - Smooth(xs, k - 1) / N as real + xs[N + k - 1]
  }

  function WilderSpec(xs: seq<real>): seq<real>
  {
    if |xs| < N then [] else seq(|xs| - N + 1, k requires 0 <= k < |xs| - N + 1 => Smooth(xs, k))
  }

  method Wilder(xs: seq<real>) returns (out: seq<real>)
    ensures out == WilderSpec(xs)
  {
    if |xs| < N {
      return [];
    }
    out := [Sum(xs[..N])];
    for k := 1 to |xs| - N + 1
      invariant out == seq(k, i requires 0 <= i < k => Smooth(xs, i))
    {
      assert out[|out| - 1] == Smooth(xs, k - 1);
      out := out + [out[|out| - 1] - out[|out| - 1] / N as real + xs[N + k - 1]];
    }
  }

  // ----- the ingredients, in plain terms

  /** The larger of the two moves counts if it is positive, the other not, and on a tie
      neither; the true range is the largest of the three ranges. */
  lemma BarInPlainTerms(prev: Bar, cur: Bar)
    ensures var up, down := cur.high - prev.high, prev.low - cur.low;
            && PlusDm(prev, cur) == (if up > down && up > 0.0 then up else 0.0)
            && MinusDm(prev, cur) == (if down > up && down > 0.0 then down else 0.0)
    ensures var tr := TrueRange(prev, cur);
            && tr >= cur.high - cur.low && tr >= cur.high - prev.close && tr >= prev.close - cur.high
            && tr >= cur.low - prev.close && tr >= prev.close - cur.low
            && (tr == cur.high - cur.low || tr == cur.high - prev.close || tr == prev.close - cur.high
                || tr == cur.low - prev.close || tr == prev.close - cur.low)
  {
  }

  /** Entry i of each series compares bar i + 1 with bar i. */
  lemma SeriesInPlainTerms(bars: seq<Bar>, i: nat)
    requires i + 1 < |bars|
    ensures |PlusDms(bars)| == |bars| - 1 && |MinusDms(bars)| == |bars| - 1 && |TrueRanges(bars)| == |bars| - 1
    ensures var up, down := bars[i + 1].high - bars[i].high, bars[i].low - bars[i + 1].low;
            && PlusDms(bars)[i] == (if up > down && up > 0.0 then up else 0.0)
            && MinusDms(bars)[i] == (if down > up && down > 0.0 then down else 0.0)
            && TrueRanges(bars)[i] == TrueRange(bars[i], bars[i + 1])
  {
    BarInPlainTerms(bars[i], bars[i + 1]);
  }

  /** What is left of a value after k decays of one part in 14. */
  function Decay(k: nat): real
  {
    if k == 0 then 1.0 else Decay(k - 1) * 13.0 / 14.0
  }

  /** Entries 14 .. 13 + k, each decayed by its age at entry 13 + k. */
  function Decayed(xs: seq<real>, k: nat): real
    requires 14 + k <= |xs|
  {
    if k == 0 then 0.0 else Decayed(xs, k - 1) * 13.0 / 14.0 + xs[13 + k]
  }

  /** A smoothed value is the sum of the first 14 entries and the later ones, each decayed
      by its age. */
  lemma {:induction false} SmoothInClosedForm(xs: seq<real>, k: nat)
    requires 14 + k <= |xs|
    ensures Smooth(xs, k) == Decay(k) * Sum(xs[..14]) + Decayed(xs, k)
  {
    if k > 0 {
      SmoothInClosedForm(xs, k - 1);
      OneDecay(Decay(k - 1), Sum(xs[..14]), Decayed(xs, k - 1), xs[13 + k], Smooth(xs, k - 1));
    }
  }

  lemma OneDecay(d: real, s: real, rest: real, x: real, before: real)
    requires before == d * s + rest
    ensures before - before / 14.0 + x == d * 13.0 / 14.0 * s + (rest * 13.0 / 14.0 + x)
  {
    assert d * 13.0 / 14.0 * s == d * s * 13.0 / 14.0;
  }

  /** A decayed entry of age j counts for (13/14)^j. */
  lemma {:induction false} DecayedIsWeighted(xs: seq<real>, k: nat, j: nat)
    requires j <= k && 14 + k <= |xs|
    ensures Decayed(xs, k) == Decay(k - j) * Decayed(xs, j) + Later(xs, j, k)
    decreases k - j
  {
    if j < k {
      DecayedIsWeighted(xs, k, j + 1);
      Distribute(Decay(k - j - 1), Decayed(xs, j), xs[14 + j]);
    } else {
      assert Decay(0) == 1.0;
    }
  }

  function Later(xs: seq<real>, j: nat, k: nat): real
    requires j <= k && 14 + k <= |xs|
    decreases k - j
  {
    if j == k then 0.0 else Decay(k - j - 1) * xs[14 + j] + Later(xs, j + 1, k)
  }

  lemma Distribute(d: real, r: real, x: real)
    ensures d * (r * 13.0 / 14.0 + x) == d * 13.0 / 14.0 * r + d * x
  {
  }

  // ----- smoothing keeps order

  lemma {:induction false} SumMonotone(a: seq<real>, b: seq<real>)
    requires |a| == |b| && forall i :: 0 <= i < |a| ==> a[i] <= b[i]
    ensures Sum(a) <= Sum(b)
  {
    if a != [] {
      SumMonotone(a[..|a| - 1], b[..|b| - 1]);
    }
  }

  lemma {:induction false} SumNonNegative(a: seq<real>)
    requires forall i :: 0 <= i < |a| ==> a[i] >= 0.0
    ensures Sum(a) >= 0.0
  {
    if a != [] {
      SumNonNegative(a[..|a| - 1]);
    }
  }

  function Plus(a: seq<real>, b: seq<real>): seq<real>
    requires |a| == |b|
  {
    seq(|a|, i requires 0 <= i < |a| => a[i] + b[i])
  }

  lemma {:induction false} SumOfPlus(a: seq<real>, b: seq<real>)
    requires |a| == |b|
    ensures Sum(Plus(a, b)) == Sum(a) + Sum(b)
  {
    if a != [] {
      var n := |a| - 1;
      SumOfPlus(a[..n], b[..n]);
      assert Plus(a, b)[..n] == Plus(a[..n], b[..n]);
    }
  }

  lemma {:induction false} SmoothIsLinear(a: seq<real>, b: seq<real>, k: nat)
    requires |a| == |b| && N + k <= |a|
    ensures Smooth(Plus(a, b), k) == Smooth(a, k) + Smooth(b, k)
  {
    if k == 0 {
      assert Plus(a, b)[..N] == Plus(a[..N], b[..N]);
      SumOfPlus(a[..N], b[..N]);
    } else {
      SmoothIsLinear(a, b, k - 1);
    }
  }

  lemma {:induction false} SmoothMonotone(a: seq<real>, b: seq<real>, k: nat)
    requires |a| == |b| && N + k <= |a| && forall i :: 0 <= i < |a| ==> a[i] <= b[i]
    ensures Smooth(a, k) <= Smooth(b, k)
  {
    if k == 0 {
      SumMonotone(a[..N], b[..N]);
    } else {
      SmoothMonotone(a, b, k - 1);
    }
  }

  lemma {:induction false} SmoothNonNegative(a: seq<real>, k: nat)
    requires N + k <= |a| && forall i :: 0 <= i < |a| ==> a[i] >= 0.0
    ensures Smooth(a, k) >= 0.0
  {
    if k == 0 {
      SumNonNegative(a[..N]);
    } else {
      SmoothNonNegative(a, k - 1);
    }
  }

  /** Closes inside their bars. */
  ghost predicate WellFormed(bars: seq<Bar>)
  {
    forall i :: 0 <= i < |bars| ==> bars[i].low <= bars[i].close <= bars[i].high
  }

  /** The smoothed directional movements never exceed the smoothed true range, so the
      two directional indices together are at most 100. */
  lemma MovementWithinRange(bars: seq<Bar>, k: nat)
    requires WellFormed(bars) && N + k <= |bars| - 1
    ensures Smooth(PlusDms(bars), k) >= 0.0 && Smooth(MinusDms(bars), k) >= 0.0
    ensures Smooth(PlusDms(bars), k) + Smooth(MinusDms(bars), k) <= Smooth(TrueRanges(bars), k)
  {
    var plus, minus, tr := PlusDms(bars), MinusDms(bars), TrueRanges(bars);
    SmoothNonNegative(plus, k);
    SmoothNonNegative(minus, k);
    SmoothIsLinear(plus, minus, k);
    forall i | 0 <= i < |plus| ensures Plus(plus, minus)[i] <= tr[i] {
      assert bars[i].low <= bars[i].close <= bars[i].high;
    }
    SmoothMonotone(Plus(plus, minus), tr, k);
  }

  function Di(dm: real, tr: real): real
    requires tr != 0.0
  {
    100.0 * dm / tr
  }

  lemma IndicesSumTo100(bars: seq<Bar>, k: nat)
    requires WellFormed(bars) && N + k <= |bars| - 1 && Smooth(TrueRanges(bars), k) > 0.0
    ensures var tr := Smooth(TrueRanges(bars), k);
            var plus, minus := Di(Smooth(PlusDms(bars), k), tr), Di(Smooth(MinusDms(bars), k), tr);
            plus >= 0.0 && minus >= 0.0 && plus + minus <= 100.0
  {
    MovementWithinRange(bars, k);
    var tr := Smooth(TrueRanges(bars), k);
    var p, m := Smooth(PlusDms(bars), k), Smooth(MinusDms(bars), k);
    Share(p, m, tr);
  }

  lemma Share(p: real, m: real, tr: real)
    requires p >= 0.0 && m >= 0.0 && p + m <= tr && tr > 0.0
    ensures 100.0 * p / tr >= 0.0 && 100.0 * m / tr >= 0.0 && 100.0 * p / tr + 100.0 * m / tr <= 100.0
  {
    assert 100.0 * p / tr + 100.0 * m / tr == 100.0 * (p + m) / tr;
    assert (p + m) / tr <= 1.0;
  }

  // ----- the index

  /** A DX, or nothing where the source skips the bar. */
  function Dx(p: real, m: real, tr: real): Option<real>
  {
    if tr <= 0.0 then None
    else
      var plus, minus := Di(p, tr), Di(m, tr);
      if plus + minus == 0.0 then None else Some(100.0 * Abs(plus - minus) / (plus + minus))
  }

  /** A DX is 100 times the difference of the movements over their sum; bars without range
      or movement give none. */
  lemma DxInPlainTerms(p: real, m: real, tr: real)
    requires p >= 0.0 && m >= 0.0
    ensures Dx(p, m, tr).Some? <==> tr > 0.0 && p + m > 0.0
    ensures Dx(p, m, tr).Some? ==> Dx(p, m, tr).value * (p + m) == 100.0 * (if p >= m then p - m else m - p)
  {
    if tr > 0.0 {
      var plus, minus := Di(p, tr), Di(m, tr);
      assert plus * tr == 100.0 * p && minus * tr == 100.0 * m;
      Sides(p, m, tr, plus, minus);
    }
  }

  lemma Sides(p: real, m: real, tr: real, plus: real, minus: real)
    requires p >= 0.0 && m >= 0.0 && tr > 0.0 && plus * tr == 100.0 * p && minus * tr == 100.0 * m
    ensures plus + minus == 0.0 <==> p + m == 0.0
    ensures plus + minus != 0.0 ==> 100.0 * Abs(plus - minus) / (plus + minus) * (p + m) == 100.0 * (if p >= m then p - m else m - p)
  {
    var sum, gap := plus + minus, plus - minus;
    assert sum * tr == 100.0 * (p + m);
    assert gap * tr == 100.0 * (p - m);
    if sum != 0.0 {
      var v := 100.0 * Abs(gap) / sum;
      assert v * sum == 100.0 * Abs(gap);
      assert Abs(gap) * tr == 100.0 * (if p >= m then p - m else m - p);
      Cancel(v * (p + m), 100.0 * (if p >= m then p - m else m - p), v, sum, tr, Abs(gap), p + m);
    }
  }

  lemma Cancel(x: real, y: real, v: real, sum: real, tr: real, gap: real, pm: real)
    requires tr > 0.0 && x == v * pm && v * sum == 100.0 * gap && sum * tr == 100.0 * pm && gap * tr == y
    ensures x == y
  {
    assert 100.0 * x == v * (100.0 * pm) == v * (sum * tr) == v * sum * tr == 100.0 * gap * tr == 100.0 * y;
  }

  lemma DxInRange(p: real, m: real, tr: real)
    requires p >= 0.0 && m >= 0.0
    ensures Dx(p, m, tr).Some? ==> 0.0 <= Dx(p, m, tr).value <= 100.0
  {
    if Dx(p, m, tr).Some? {
      var plus, minus := Di(p, tr), Di(m, tr);
      assert plus >= 0.0 && minus >= 0.0;
      RatioInRange(Abs(plus - minus), plus + minus);
    }
  }

  lemma RatioInRange(a: real, b: real)
    requires 0.0 <= a <= b && b > 0.0
    ensures 0.0 <= 100.0 * a / b <= 100.0
  {
    assert a / b <= 1.0;
    assert 100.0 * a / b == 100.0 * (a / b);
  }

  ghost predicate InRange(s: seq<real>)
  {
    forall i :: 0 <= i < |s| ==> 0.0 <= s[i] <= 100.0
  }

  lemma {:induction false} SumInRange(s: seq<real>)
    requires InRange(s)
    ensures 0.0 <= Sum(s) <= 100.0 * |s| as real
  {
    if s != [] {
      SumInRange(s[..|s| - 1]);
    }
  }

  /** Wilder's average of the DX series: the mean of the first N, then (13 adx + v)/14. */
  function Average(dxs: seq<real>, k: nat): real
    requires N + k <= |dxs|
  {
    if k == 0 then Sum(dxs[..N]) / N as real
    else (Average(dxs, k - 1) * (N - 1) as real + dxs[N + k - 1]) / N as real
  }

  lemma {:induction false} AverageInRange(dxs: seq<real>, k: nat)
    requires InRange(dxs) && N + k <= |dxs|
    ensures 0.0 <= Average(dxs, k) <= 100.0
  {
    if k == 0 {
      SumInRange(dxs[..N]);
    } else {
      AverageInRange(dxs, k - 1);
    }
  }

  /** Wilder's average in closed form: the mean of the first 14 values and 1/14 of each
      later one, each decayed by its age. */
  lemma {:induction false} AverageInClosedForm(dxs: seq<real>, k: nat)
    requires 14 + k <= |dxs|
    ensures Average(dxs, k) == (Decay(k) * Sum(dxs[..14]) + Decayed(dxs, k)) / 14.0
  {
    if k > 0 {
      AverageInClosedForm(dxs, k - 1);
      OneDecay(Decay(k - 1), Sum(dxs[..14]), Decayed(dxs, k - 1), dxs[13 + k],
               Decay(k - 1) * Sum(dxs[..14]) + Decayed(dxs, k - 1));
    }
  }

  function DxAt(bars: seq<Bar>, k: nat): Option<real>
    requires N + k < |bars|
  {
    Dx(Smooth(PlusDms(bars), k), Smooth(MinusDms(bars), k), Smooth(TrueRanges(bars), k))
  }

  /** The DX values in order, without the skipped bars. */
  function Dxs(bars: seq<Bar>, n: nat): seq<real>
    requires N + n <= |bars|
  {
    if n == 0 then []
    else
      var d := DxAt(bars, n - 1);
      Dxs(bars, n - 1) + if d.Some? then [d.value] else []
  }

  /** The values of the first n bars that have one, at the indices `at`. */
  ghost predicate ValuesAt(values: seq<Option<real>>, dxs: seq<real>, at: seq<nat>)
  {
    && |at| == |dxs|
    && (forall i :: 0 <= i < |at| ==> at[i] < |values| && values[at[i]] == Some(dxs[i]))
    && (forall i, j :: 0 <= i < j < |at| ==> at[i] < at[j])
    && (forall k :: 0 <= k < |values| && values[k].Some? ==> k in at)
  }

  lemma ValuesSnoc(values: seq<Option<real>>, dxs: seq<real>, at: seq<nat>, v: Option<real>)
    requires ValuesAt(values, dxs, at)
    ensures v.None? ==> ValuesAt(values + [v], dxs, at)
    ensures v.Some? ==> ValuesAt(values + [v], dxs + [v.value], at + [|values|])
  {
    if v.Some? {
      var at' := at + [|values|];
      forall k | 0 <= k <= |values| && (values + [v])[k].Some? ensures k in at' {
        if k < |values| {
          assert k in at;
        } else {
          assert at'[|at|] == k;
        }
      }
    }
  }

  function DxValues(bars: seq<Bar>, n: nat): seq<Option<real>>
    requires N + n <= |bars|
  {
    seq(n, k requires 0 <= k < n => DxAt(bars, k))
  }

  /** The DX values are those of the bars that have one, all of them, in order. */
  lemma {:induction false} DxsInOrder(bars: seq<Bar>, n: nat) returns (at: seq<nat>)
    requires N + n <= |bars|
    ensures ValuesAt(DxValues(bars, n), Dxs(bars, n), at)
  {
    at := [];
    if n > 0 {
      at := DxsInOrder(bars, n - 1);
      assert DxValues(bars, n) == DxValues(bars, n - 1) + [DxAt(bars, n - 1)];
      ValuesSnoc(DxValues(bars, n - 1), Dxs(bars, n - 1), at, DxAt(bars, n - 1));
      if DxAt(bars, n - 1).Some? {
        at := at + [n - 1];
      }
    }
  }

  function Zip(highs: seq<real>, lows: seq<real>, closes: seq<real>): seq<Bar>
    requires |highs| == |lows| == |closes|
  {
    seq(|closes|, i requires 0 <= i < |closes| => Bar(highs[i], lows[i], closes[i]))
  }

  /** ADX of series of any length, well formed or not, is in [0, 100]; series of
      different lengths give 0. */
  method Adx14(highs: seq<real>, lows: seq<real>, closes: seq<real>) returns (adx: real)
    ensures 0.0 <= adx <= 100.0
    ensures adx == if |highs| == |lows| == |closes| then AdxSpec(Zip(highs, lows, closes)) else 0.0
  {
    if |highs| != |closes| || |lows| != |closes| {
      return 0.0;
    }
    adx := AdxOfBars(Zip(highs, lows, closes));
  }

  method AdxOfBars(bars: seq<Bar>) returns (adx: real)
    ensures 0.0 <= adx <= 100.0
    ensures adx == AdxSpec(bars)
    ensures |bars| < 28 || |Dxs(bars, |bars| - 14)| < 14 ==> adx == 0.0
    ensures |bars| >= 28 && |Dxs(bars, |bars| - 14)| >= 14 ==>
              adx == Average(Dxs(bars, |bars| - 14), |Dxs(bars, |bars| - 14)| - 14)
  {
    if |bars| < 2 * N {
      return 0.0;
    }
    var dxs := CollectDxs(bars);
    if |dxs| < N {
      return 0.0;
    }
    adx := Sum(dxs[..N]) / N as real;
    for k := N to |dxs|
      invariant adx == Average(dxs, k - N)
    {
      adx := (adx * (N - 1) as real + dxs[k]) / N as real;
    }
    AverageInRange(dxs, |dxs| - N);
  }

  function AdxSpec(bars: seq<Bar>): real
  {
    if |bars| < 2 * N then 0.0
    else
      var dxs := Dxs(bars, |bars| - N);
      if |dxs| < N then 0.0 else Average(dxs, |dxs| - N)
  }

  method CollectDxs(bars: seq<Bar>) returns (dxs: seq<real>)
    requires |bars| >= 2 * N
    ensures dxs == Dxs(bars, |bars| - N) && InRange(dxs)
  {
    var plus, minus, tr := Movements(bars);
    var ps := Wilder(plus);
    var ms := Wilder(minus);
    var trs := Wilder(tr);
    dxs := [];
    for k := 0 to |trs|
      invariant dxs == Dxs(bars, k)
    {
      var d := Dx(ps[k], ms[k], trs[k]);
      if d.Some? {
        dxs := dxs + [d.value];
      }
    }
    DxsInRange(bars, |trs|);
  }

  lemma DxAtInRange(bars: seq<Bar>, k: nat)
    requires N + k < |bars|
    ensures DxAt(bars, k).Some? ==> 0.0 <= DxAt(bars, k).value <= 100.0
  {
    SmoothNonNegative(PlusDms(bars), k);
    SmoothNonNegative(MinusDms(bars), k);
    DxInRange(Smooth(PlusDms(bars), k), Smooth(MinusDms(bars), k), Smooth(TrueRanges(bars), k));
  }

  lemma {:induction false} DxsInRange(bars: seq<Bar>, n: nat)
    requires N + n <= |bars|
    ensures InRange(Dxs(bars, n))
  {
    if n > 0 {
      DxsInRange(bars, n - 1);
      DxAtInRange(bars, n - 1);
    }
  }

  method Movements(bars: seq<Bar>) returns (plus: seq<real>, minus: seq<real>, tr: seq<real>)
    requires |bars| >= 1
    ensures plus == PlusDms(bars) && minus == MinusDms(bars) && tr == TrueRanges(bars)
  {
    plus, minus, tr := [], [], [];
    for i := 1 to |bars|
      invariant plus == PlusDms(bars)[..i - 1] && minus == MinusDms(bars)[..i - 1] && tr == TrueRanges(bars)[..i - 1]
    {
      plus := plus + [PlusDm(bars[i - 1], bars[i])];
      minus := minus + [MinusDm(bars[i - 1], bars[i])];
      tr := tr + [TrueRange(bars[i - 1], bars[i])];
    }
  }
}
