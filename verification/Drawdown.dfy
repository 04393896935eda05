/** Maximum drawdown: the one-pass loop of the backtest KPIs and the array form of the
    Monte Carlo summary. */
module Drawdown {
  import opened Common

  /** Equity before the first trade and after each one. */
  function Curve(pnls: seq<real>): (e: seq<real>)
    ensures |e| == |pnls| + 1
  {
    if pnls == [] then [0.0]
    else
      var before := Curve(pnls[..|pnls| - 1]);
      before + [before[|pnls| - 1] + pnls[|pnls| - 1]]
  }

  /** A curve starts at 0 and moves by one result at a time. */
  lemma {:induction false} CurveSteps(pnls: seq<real>)
    ensures Curve(pnls)[0] == 0.0
    ensures forall k :: 0 <= k < |pnls| ==> Curve(pnls)[k + 1] == Curve(pnls)[k] + pnls[k]
  {
    if pnls != [] {
      var init := pnls[..|pnls| - 1];
      CurveSteps(init);
      forall k | 0 <= k < |init| ensures Curve(pnls)[k + 1] == Curve(pnls)[k] + pnls[k] {
        assert Curve(init)[k + 1] == Curve(init)[k] + init[k];
      }
    }
  }

  /** Each point of the curve is the sum of the results so far. */
  lemma {:induction false} CurveIsSum(pnls: seq<real>, j: nat)
    requires j <= |pnls|
    ensures Curve(pnls)[j] == Sum(pnls[..j])
  {
    CurveSteps(pnls);
    if j > 0 {
      CurveIsSum(pnls, j - 1);
      assert pnls[..j][..j - 1] == pnls[..j - 1];
      assert Curve(pnls)[j - 1 + 1] == Curve(pnls)[j - 1] + pnls[j - 1];
    }
  }

  /** `d` is the least change from a point at or after `first` to the same or a later one. */
  ghost predicate LeastDrop(e: seq<real>, first: nat, d: real)
  {
    && (forall i, j :: first <= i <= j < |e| ==> d <= e[j] - e[i])
    && (exists i, j :: first <= i <= j < |e| && d == e[j] - e[i])
  }

  /** `low` is the least value after the start. */
  ghost predicate Lowest(e: seq<real>, low: real)
  {
    && (forall j :: 1 <= j < |e| ==> low <= e[j])
    && (exists j :: 1 <= j < |e| && low == e[j])
  }

  /** After n results: the highest point so far, and the least drop so far. */
  ghost predicate SoFar(e: seq<real>, n: nat, peak: real, mdd: real)
  {
    n < |e| && Highest(e[..n + 1], peak) && LeastDrop(e[..n + 1], 0, mdd)
  }

  ghost predicate Highest(e: seq<real>, peak: real)
  {
    (forall i :: 0 <= i < |e| ==> e[i] <= peak) && exists i :: 0 <= i < |e| && e[i] == peak
  }

  lemma HighestSnoc(e: seq<real>, x: real, peak: real)
    requires Highest(e, peak)
    ensures Highest(e + [x], Max(peak, x))
  {
    var e' := e + [x];
    if x <= peak {
      var i :| 0 <= i < |e| && e[i] == peak;
      assert e'[i] == peak;
    } else {
      assert e'[|e|] == x;
    }
  }

  /** One more point: the drops that end there are largest from the highest point. */
  lemma LeastDropSnoc(e: seq<real>, x: real, peak: real, mdd: real)
    requires Highest(e + [x], peak) && LeastDrop(e, 0, mdd)
    ensures LeastDrop(e + [x], 0, Min(mdd, x - peak))
  {
    var e' := e + [x];
    if mdd <= x - peak {
      var i, j :| 0 <= i <= j < |e| && mdd == e[j] - e[i];
      assert mdd == e'[j] - e'[i];
    } else {
      var i :| 0 <= i < |e'| && e'[i] == peak;
      assert x - peak == e'[|e|] - e'[i];
    }
  }

  /** The KPI loop, with the peak starting at 0. */
  method MaxDrawdown(pnls: seq<real>) returns (mdd: real)
    ensures LeastDrop(Curve(pnls), 0, mdd)
    ensures mdd <= 0.0
  {
    ghost var e := Curve(pnls);
    CurveSteps(pnls);
    var equity, peak := 0.0, 0.0;
    mdd := 0.0;
    StartOfCurve(e);
    for n := 0 to |pnls|
      invariant equity == e[n] && mdd <= 0.0 && SoFar(e, n, peak, mdd)
    {
      equity := equity + pnls[n];
      SoFarStep(e, n, peak, mdd);
      peak := Max(peak, equity);
      mdd := Min(mdd, equity - peak);
    }
    assert e[..|e|] == e;
  }

  lemma SoFarStep(e: seq<real>, n: nat, peak: real, mdd: real)
    requires SoFar(e, n, peak, mdd) && n + 1 < |e|
    ensures SoFar(e, n + 1, Max(peak, e[n + 1]), Min(mdd, e[n + 1] - Max(peak, e[n + 1])))
  {
    assert e[..n + 1] + [e[n + 1]] == e[..n + 2];
    HighestSnoc(e[..n + 1], e[n + 1], peak);
    LeastDropSnoc(e[..n + 1], e[n + 1], Max(peak, e[n + 1]), mdd);
  }

  lemma StartOfCurve(e: seq<real>)
    requires |e| > 0 && e[0] == 0.0
    ensures SoFar(e, 0, 0.0, 0.0)
  {
    var s := e[..1];
    assert s[0] == 0.0;
    assert 0.0 == s[0] - s[0];
  }

  // ----- the array form

  /** `np.maximum.accumulate` */
  function RunningMax(s: seq<real>): (r: seq<real>)
    ensures |r| == |s|
  {
    if |s| <= 1 then s
    else
      var r := RunningMax(s[..|s| - 1]);
      r + [Max(r[|r| - 1], s[|s| - 1])]
  }

  function LeastGap(s: seq<real>, t: seq<real>): real
    requires |s| == |t| > 0
  {
    var n := |s| - 1;
    if n == 0 then s[0] - t[0] else Min(LeastGap(s[..n], t[..n]), s[n] - t[n])
  }

  /** `max_drawdown_usd` of the Monte Carlo summary: `cumsum` is the curve without its start. */
  function McDrawdown(pnls: seq<real>): real
  {
    if pnls == [] then 0.0 else LeastGap(Curve(pnls)[1..], RunningMax(Curve(pnls)[1..]))
  }

  lemma {:induction false} RunningMaxIsMax(s: seq<real>, k: nat) returns (at: nat)
    requires k < |s|
    ensures forall i :: 0 <= i <= k ==> s[i] <= RunningMax(s)[k]
    ensures at <= k && s[at] == RunningMax(s)[k]
    decreases |s|
  {
    at := 0;
    if |s| > 1 {
      var init := s[..|s| - 1];
      if k < |s| - 1 {
        at := RunningMaxIsMax(init, k);
        assert forall i :: 0 <= i <= k ==> s[i] == init[i];
      } else {
        at := RunningMaxIsMax(init, k - 1);
        assert forall i :: 0 <= i < k ==> s[i] == init[i];
        if s[k] > RunningMax(init)[k - 1] {
          at := k;
        }
      }
    }
  }

  lemma {:induction false} LeastGapIsLeast(s: seq<real>, t: seq<real>) returns (at: nat)
    requires |s| == |t| > 0
    ensures forall k :: 0 <= k < |s| ==> LeastGap(s, t) <= s[k] - t[k]
    ensures at < |s| && LeastGap(s, t) == s[at] - t[at]
  {
    var n := |s| - 1;
    at := n;
    if n > 0 {
      var before := LeastGapIsLeast(s[..n], t[..n]);
      forall k | 0 <= k < n ensures LeastGap(s, t) <= s[k] - t[k] {
        assert LeastGap(s[..n], t[..n]) <= s[..n][k] - t[..n][k];
      }
      if LeastGap(s, t) != s[n] - t[n] {
        at := before;
      }
    }
  }

  lemma GapIsDrop(s: seq<real>)
    requires s != []
    ensures LeastDrop(s, 0, LeastGap(s, RunningMax(s)))
  {
    var peak := RunningMax(s);
    var d := LeastGap(s, peak);
    var to := LeastGapIsLeast(s, peak);
    forall i, j | 0 <= i <= j < |s| ensures d <= s[j] - s[i] {
      var _ := RunningMaxIsMax(s, j);
      assert s[i] <= peak[j];
    }
    var from := RunningMaxIsMax(s, to);
    assert d == s[to] - s[from];
  }

  /** The Monte Carlo form measures drops from the equity after the first trade on. */
  lemma McIsLeastDrop(pnls: seq<real>)
    requires pnls != []
    ensures LeastDrop(Curve(pnls), 1, McDrawdown(pnls))
  {
    var e := Curve(pnls);
    var s := e[1..];
    var d := McDrawdown(pnls);
    GapIsDrop(s);
    forall i, j | 1 <= i <= j < |e| ensures d <= e[j] - e[i] {
      assert s[i - 1] == e[i] && s[j - 1] == e[j];
    }
    var i, j :| 0 <= i <= j < |s| && d == s[j] - s[i];
    assert d == e[j + 1] - e[i + 1];
  }

  lemma StartOnlyAdds(e: seq<real>, all: real, later: real, low: real)
    requires |e| > 1 && e[0] == 0.0
    requires LeastDrop(e, 0, all) && LeastDrop(e, 1, later) && Lowest(e, low)
    ensures all <= later && all <= low
  {
    var m :| 1 <= m < |e| && low == e[m];
    assert all <= e[m] - e[0];
  }

  /** Counting the start as a peak adds exactly the lowest equity to the candidates. */
  lemma StartAsPeak(e: seq<real>, all: real, later: real, low: real)
    requires |e| > 1 && e[0] == 0.0
    requires LeastDrop(e, 0, all) && LeastDrop(e, 1, later) && Lowest(e, low)
    ensures all == Min(later, low)
  {
    StartOnlyAdds(e, all, later, low);
    var a, b :| 0 <= a <= b < |e| && all == e[b] - e[a];
    EveryDropCounts(e, later, low, a, b);
  }

  lemma EveryDropCounts(e: seq<real>, later: real, low: real, a: nat, b: nat)
    requires |e| > 1 && e[0] == 0.0 && a <= b < |e|
    requires forall i, j :: 1 <= i <= j < |e| ==> later <= e[j] - e[i]
    requires forall j :: 1 <= j < |e| ==> low <= e[j]
    ensures Min(later, low) <= e[b] - e[a]
    decreases b == 0
  {
    if b == 0 {
      EveryDropCounts(e, later, low, 1, 1);
    }
  }

  /** The KPI drawdown is the Monte Carlo drawdown or the lowest equity, whichever is lower. */
  lemma DrawdownsRelate(pnls: seq<real>, kpi: real, low: real)
    requires pnls != [] && LeastDrop(Curve(pnls), 0, kpi) && Lowest(Curve(pnls), low)
    ensures kpi == Min(McDrawdown(pnls), low)
  {
    McIsLeastDrop(pnls);
    CurveSteps(pnls);
    StartAsPeak(Curve(pnls), kpi, McDrawdown(pnls), low);
  }
}
