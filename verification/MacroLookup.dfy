/** The closed-bar candle window behind every macro snapshot: found by bisection on a
    parallel list of timestamps when serving, by a linear scan when training. The
    snapshot is a function of the window alone. */
module MacroLookup {
  import opened Common
  import opened StableSort

  datatype Candle = Candle(ts: real, high: real, low: real, close: real)

  function Ts(): Candle -> real { (c: Candle) => c.ts }

  function Timestamps(candles: seq<Candle>): seq<real>
  {
    seq(|candles|, i requires 0 <= i < |candles| => candles[i].ts)
  }

  function ClosedBy(cutoff: real): Candle -> bool { (c: Candle) => c.ts <= cutoff }

  /** `s[-n:]` for a positive n; nothing for other n. */
  function LastOf(s: seq<Candle>, n: int): seq<Candle>
    requires n <= |s|
  {
    if n <= 0 then [] else s[|s| - n..]
  }

  /** The last `lookback` candles whose bar has closed by the cutoff. */
  function WindowAt(candles: seq<Candle>, cutoff: real, lookback: int): Option<seq<Candle>>
  {
    var eligible := Filter(ClosedBy(cutoff), candles);
    if |eligible| < lookback then None else Some(LastOf(eligible, lookback))
  }

  // ----- bisection

  ghost predicate Nondecreasing(tss: seq<real>)
  {
    forall i, j :: 0 <= i < j < |tss| ==> tss[i] <= tss[j]
  }

  /** `bisect_right` */
  method BisectRight(tss: seq<real>, x: real) returns (idx: nat)
    requires Nondecreasing(tss)
    ensures idx <= |tss|
    ensures forall i :: 0 <= i < idx ==> tss[i] <= x
    ensures forall i :: idx <= i < |tss| ==> x < tss[i]
  {
    var lo, hi := 0, |tss|;
    while lo < hi
      invariant 0 <= lo <= hi <= |tss|
      invariant forall i :: 0 <= i < lo ==> tss[i] <= x
      invariant forall i :: hi <= i < |tss| ==> x < tss[i]
    {
      var mid := (lo + hi) / 2;
      if x < tss[mid] {
        hi := mid;
      } else {
        lo := mid + 1;
      }
    }
    idx := lo;
  }

  /** In an ordered list the eligible candles are a prefix. */
  lemma EligibleIsPrefix(candles: seq<Candle>, cutoff: real, idx: nat)
    requires idx <= |candles|
    requires forall i :: 0 <= i < idx ==> candles[i].ts <= cutoff
    requires forall i :: idx <= i < |candles| ==> cutoff < candles[i].ts
    ensures Filter(ClosedBy(cutoff), candles) == candles[..idx]
  {
    PrefixClosed(candles, cutoff, idx);
    SuffixNotClosed(candles, cutoff, idx);
    FilterConcat(ClosedBy(cutoff), candles[..idx], candles[idx..]);
    assert candles == candles[..idx] + candles[idx..];
  }

  lemma PrefixClosed(candles: seq<Candle>, cutoff: real, idx: nat)
    requires idx <= |candles| && forall i :: 0 <= i < idx ==> candles[i].ts <= cutoff
    ensures Filter(ClosedBy(cutoff), candles[..idx]) == candles[..idx]
  {
    FilterAll(ClosedBy(cutoff), candles[..idx]);
  }

  lemma SuffixNotClosed(candles: seq<Candle>, cutoff: real, idx: nat)
    requires idx <= |candles| && forall i :: idx <= i < |candles| ==> cutoff < candles[i].ts
    ensures Filter(ClosedBy(cutoff), candles[idx..]) == []
  {
    FilterNone(ClosedBy(cutoff), candles[idx..]);
  }

  /** `_snapshot_from_window` up to the snapshot itself. */
  method SnapshotWindow(candles: seq<Candle>, tss: seq<real>, asOf: real, lookback: int)
    returns (window: Option<seq<Candle>>)
    requires tss == Timestamps(candles) && Ordered(Ts(), candles)
    ensures window == WindowAt(candles, asOf - 300.0, lookback)
  {
    var cutoff := asOf - 300.0;
    forall i, j | 0 <= i < j < |tss| ensures tss[i] <= tss[j] {
      assert Ts()(candles[i]) <= Ts()(candles[j]);
    }
    var idx := BisectRight(tss, cutoff);
    forall i | 0 <= i < |candles| ensures candles[i].ts == tss[i] {
    }
    EligibleIsPrefix(candles, cutoff, idx);
    if idx < lookback {
      return None;
    }
    window := Some(if lookback <= 0 then [] else candles[idx - lookback..idx]);
  }

  // ----- the training code

  /** Python's `int()`: truncation toward zero. */
  function Trunc(x: real): int { if x >= 0.0 then x.Floor else -((-x).Floor) }

  /** It never moves a number away from zero, nor by a whole unit. */
  lemma TruncInPlainTerms(x: real)
    ensures if x >= 0.0 then x - 1.0 < Trunc(x) as real <= x else x <= Trunc(x) as real < x + 1.0
  {
  }

  /** `_macro_at` of the training pipeline, up to the snapshot. */
  method TrainingWindow(candles: seq<Candle>, asOf: real) returns (window: Option<seq<Candle>>)
    ensures window == WindowAt(candles, (Trunc(asOf) - 300) as real, 34)
  {
    var cutoff := (Trunc(asOf) - 300) as real;
    var eligible: seq<Candle> := [];
    for i := 0 to |candles|
      invariant eligible == Filter(ClosedBy(cutoff), candles[..i])
    {
      assert candles[..i + 1] == candles[..i] + [candles[i]];
      FilterConcat(ClosedBy(cutoff), candles[..i], [candles[i]]);
      if candles[i].ts <= cutoff {
        eligible := eligible + [candles[i]];
      }
    }
    assert candles[..|candles|] == candles;
    window := if |eligible| < 34 then None else Some(eligible[|eligible| - 34..]);
  }

  predicate Integral(x: real) { x.Floor as real == x }

  /** Training and serving use the same window at every integer time, and at every
      nonnegative time as long as candles open on whole seconds. */
  lemma TrainingMatchesServing(candles: seq<Candle>, asOf: real)
    requires Integral(asOf) || (asOf >= 0.0 && forall i :: 0 <= i < |candles| ==> Integral(candles[i].ts))
    ensures WindowAt(candles, (Trunc(asOf) - 300) as real, 34) == WindowAt(candles, asOf - 300.0, 34)
  {
    var a, b := ClosedBy((Trunc(asOf) - 300) as real), ClosedBy(asOf - 300.0);
    if Integral(asOf) {
      TruncOfIntegral(asOf);
    } else {
      forall i | 0 <= i < |candles| ensures a(candles[i]) == b(candles[i]) {
        WholeSeconds(candles[i].ts, asOf);
      }
    }
    FilterCongruent(a, b, candles);
  }

  lemma TruncOfIntegral(x: real)
    requires Integral(x)
    ensures Trunc(x) as real == x
  {
    assert (-x).Floor == -x.Floor;
  }

  lemma WholeSeconds(ts: real, asOf: real)
    requires Integral(ts) && asOf >= 0.0
    ensures ts <= (Trunc(asOf) - 300) as real <==> ts <= asOf - 300.0
  {
    var n := ts.Floor;
    assert ts == n as real;
    if ts <= asOf - 300.0 {
      assert (n + 300) as real <= asOf;
      assert n + 300 <= asOf.Floor;
    }
  }

  // ----- no look-ahead, and any long enough cache will do

  /** Candles that have not closed by the cutoff never change the window. */
  lemma NoLookAhead(candles: seq<Candle>, later: seq<Candle>, cutoff: real, lookback: int)
    requires forall i :: 0 <= i < |later| ==> later[i].ts > cutoff
    ensures WindowAt(candles + later, cutoff, lookback) == WindowAt(candles, cutoff, lookback)
  {
    FilterConcat(ClosedBy(cutoff), candles, later);
    FilterNone(ClosedBy(cutoff), later);
    assert Filter(ClosedBy(cutoff), candles + later) == Filter(ClosedBy(cutoff), candles);
  }

  /** A cache cut to any suffix with enough eligible candles gives the same window. */
  lemma SuffixIsEnough(candles: seq<Candle>, cut: nat, cutoff: real, lookback: int)
    requires cut <= |candles|
    requires |Filter(ClosedBy(cutoff), candles[cut..])| >= lookback
    ensures WindowAt(candles[cut..], cutoff, lookback) == WindowAt(candles, cutoff, lookback)
  {
    assert candles == candles[..cut] + candles[cut..];
    var dropped, kept := Filter(ClosedBy(cutoff), candles[..cut]), Filter(ClosedBy(cutoff), candles[cut..]);
    FilterConcat(ClosedBy(cutoff), candles[..cut], candles[cut..]);
    assert LastOf(dropped + kept, lookback) == LastOf(kept, lookback);
  }

  // ----- the providers

  class MacroProvider {
    var candles: seq<Candle>
    var tss: seq<real>
    const lookback: int

    ghost predicate Valid()
      reads this
    {
      tss == Timestamps(candles) && Ordered(Ts(), candles)
    }

    /** The in-memory provider sorts what it is given. */
    constructor Fixed(candles: seq<Candle>, lookback: int)
      ensures Valid() && this.candles == Sort(Ts(), candles) && this.lookback == lookback
    {
      SortIsStable(Ts(), candles);
      this.candles := Sort(Ts(), candles);
      this.tss := Timestamps(Sort(Ts(), candles));
      this.lookback := lookback;
    }

    /** The live provider replaces its cache with rows ordered by the query. */
    method Refresh(rows: seq<Candle>)
      requires Ordered(Ts(), rows)
      modifies this
      ensures Valid() && candles == rows
    {
      candles := rows;
      tss := Timestamps(rows);
    }

    method SnapshotAt(asOf: real) returns (window: Option<seq<Candle>>)
      requires Valid()
      ensures window == WindowAt(candles, asOf - 300.0, lookback)
    {
      window := SnapshotWindow(candles, tss, asOf, lookback);
    }
  }
}
