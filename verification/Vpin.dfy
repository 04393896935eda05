/** VPIN: trades poured into volume buckets, order imbalance averaged over the last ones. */
module Vpin {
  import opened Common

  datatype VolumeTrade = VolumeTrade(qty: real, isBuy: bool)

  const SLACK := 0.000000001

  /** A closed bucket: the volume bought and sold in it. */
  datatype Bucket = Bucket(buy: real, sell: real)

  // The volume of the trades with a positive quantity, per side.
  function TradedBuy(trades: seq<VolumeTrade>): real
  {
    if |trades| == 0 then 0.0
    else
      var t := trades[|trades| - 1];
      TradedBuy(trades[..|trades| - 1]) + if t.qty > 0.0 && t.isBuy then t.qty else 0.0
  }

  function TradedSell(trades: seq<VolumeTrade>): real
  {
    if |trades| == 0 then 0.0
    else
      var t := trades[|trades| - 1];
      TradedSell(trades[..|trades| - 1]) + if t.qty > 0.0 && !t.isBuy then t.qty else 0.0
  }

  // What a list of buckets holds, per side.
  function HeldBuy(buckets: seq<Bucket>): real
  {
    if |buckets| == 0 then 0.0 else HeldBuy(buckets[..|buckets| - 1]) + buckets[|buckets| - 1].buy
  }

  function HeldSell(buckets: seq<Bucket>): real
  {
    if |buckets| == 0 then 0.0 else HeldSell(buckets[..|buckets| - 1]) + buckets[|buckets| - 1].sell
  }

  /** The volume bought among the first `v` units of volume on the tape. */
  function BoughtBy(trades: seq<VolumeTrade>, v: real): real
  {
    if |trades| == 0 then 0.0
    else
      var init, t := trades[..|trades| - 1], trades[|trades| - 1];
      var before := TradedBuy(init) + TradedSell(init);
      if v <= before || t.qty <= 0.0 then BoughtBy(init, v)
      else TradedBuy(init) + if t.isBuy then v - before else 0.0
  }

  /** The first k buckets hold the first units of volume on the tape, for every k: the
      buckets are filled in order of arrival. */
  ghost predicate InArrivalOrder(closed: seq<Bucket>, trades: seq<VolumeTrade>)
  {
    forall k :: 0 <= k <= |closed| ==> Boundary(closed[..k], trades)
  }

  ghost predicate Boundary(buckets: seq<Bucket>, trades: seq<VolumeTrade>)
  {
    var v := HeldBuy(buckets) + HeldSell(buckets);
    v <= TradedBuy(trades) + TradedSell(trades) && HeldBuy(buckets) == BoughtBy(trades, v)
  }

  lemma TradedIsNonNegative(trades: seq<VolumeTrade>)
    ensures TradedBuy(trades) >= 0.0 && TradedSell(trades) >= 0.0
  {
  }

  /** Nothing is bought before the first unit, and all of it by the last. */
  lemma {:induction false} BoughtAtEnds(trades: seq<VolumeTrade>)
    ensures BoughtBy(trades, 0.0) == 0.0
    ensures BoughtBy(trades, TradedBuy(trades) + TradedSell(trades)) == TradedBuy(trades)
  {
    if |trades| > 0 {
      BoughtAtEnds(trades[..|trades| - 1]);
      TradedIsNonNegative(trades[..|trades| - 1]);
    }
  }

  /** A later trade moves no boundary. */
  lemma LaterTrade(closed: seq<Bucket>, trades: seq<VolumeTrade>, t: VolumeTrade)
    requires InArrivalOrder(closed, trades)
    ensures InArrivalOrder(closed, trades + [t])
  {
    assert (trades + [t])[..|trades|] == trades;
    forall k | 0 <= k <= |closed| ensures Boundary(closed[..k], trades + [t]) {
      assert Boundary(closed[..k], trades);
    }
  }

  /** A bucket closed `part` into the last trade, after everything before it. */
  lemma BucketCloses(closed: seq<Bucket>, b: Bucket, trades: seq<VolumeTrade>, t: VolumeTrade, part: real)
    requires InArrivalOrder(closed, trades + [t]) && 0.0 < part <= t.qty
    requires HeldBuy(closed) + b.buy == TradedBuy(trades) + if t.isBuy then part else 0.0
    requires HeldSell(closed) + b.sell == TradedSell(trades) + if t.isBuy then 0.0 else part
    ensures InArrivalOrder(closed + [b], trades + [t])
  {
    assert (trades + [t])[..|trades|] == trades;
    HeldSnoc(closed, b);
    forall k | 0 <= k <= |closed| + 1 ensures Boundary((closed + [b])[..k], trades + [t]) {
      if k <= |closed| {
        assert (closed + [b])[..k] == closed[..k];
        assert Boundary(closed[..k], trades + [t]);
      } else {
        assert (closed + [b])[..k] == closed + [b];
      }
    }
  }

  function Imbalance(b: Bucket, volume: real): real
    requires volume > 0.0
  {
    Abs(b.buy - b.sell) / volume
  }

  function Imbalances(closed: seq<Bucket>, volume: real): seq<real>
    requires volume > 0.0
  {
    seq(|closed|, i requires 0 <= i < |closed| => Imbalance(closed[i], volume))
  }

  ghost predicate Full(b: Bucket, volume: real)
  {
    b.buy >= 0.0 && b.sell >= 0.0 && volume - SLACK <= b.buy + b.sell <= volume
  }

  /** An unfinished bucket: empty, or short of the volume by more than the slack. */
  ghost predicate Open(buy: real, sell: real, volume: real)
  {
    buy >= 0.0 && sell >= 0.0 && (buy + sell == 0.0 || buy + sell < volume - SLACK)
  }

  /** Full buckets and an open one that together hold `totalBuy` and `totalSell`. */
  ghost predicate Poured(closed: seq<Bucket>, buy: real, sell: real, volume: real, totalBuy: real, totalSell: real)
  {
    && Open(buy, sell, volume)
    && (forall i :: 0 <= i < |closed| ==> Full(closed[i], volume))
    && HeldBuy(closed) + buy == totalBuy
    && HeldSell(closed) + sell == totalSell
  }

  lemma TradedSnoc(trades: seq<VolumeTrade>, i: nat)
    requires i < |trades|
    ensures var t := trades[i];
            && TradedBuy(trades[..i + 1]) == TradedBuy(trades[..i]) + (if t.qty > 0.0 && t.isBuy then t.qty else 0.0)
            && TradedSell(trades[..i + 1]) == TradedSell(trades[..i]) + (if t.qty > 0.0 && !t.isBuy then t.qty else 0.0)
  {
    assert trades[..i + 1][..i] == trades[..i];
  }

  lemma HeldSnoc(closed: seq<Bucket>, b: Bucket)
    ensures HeldBuy(closed + [b]) == HeldBuy(closed) + b.buy
    ensures HeldSell(closed + [b]) == HeldSell(closed) + b.sell
  {
    assert (closed + [b])[..|closed|] == closed;
  }

  /** Closing a full bucket. */
  lemma StillPoured(closed: seq<Bucket>, buy: real, sell: real, volume: real, totalBuy: real, totalSell: real)
    requires (forall i :: 0 <= i < |closed| ==> Full(closed[i], volume)) && Full(Bucket(buy, sell), volume)
    requires HeldBuy(closed) + buy == totalBuy && HeldSell(closed) + sell == totalSell
    ensures Poured(closed + [Bucket(buy, sell)], 0.0, 0.0, volume, totalBuy, totalSell)
  {
    HeldSnoc(closed, Bucket(buy, sell));
  }

  // ----- termination of the pouring loop

  lemma Fraction(x: real, v: real)
    requires v > 0.0 && 0.0 <= x <= v
    ensures 0.0 <= x / v <= 1.0
  {
  }

  /** A whole number of volumes that covers a trade. */
  lemma Cover(qty: real, volume: real) returns (n: nat)
    requires volume > 0.0 && qty > 0.0
    ensures qty <= n as real * volume
  {
    var x := qty / volume;
    assert x * volume == qty && x > 0.0;
    n := x.Floor + 1;
    assert x <= n as real;
    Multiply(x, n as real, volume);
  }

  lemma Multiply(x: real, y: real, v: real)
    requires x <= y && v > 0.0
    ensures x * v <= y * v
  {
  }

  /** The rest of the trade fits into the budgeted volumes, one of which a bucket that
      was already open may not have in full. */
  ghost predicate Covered(remaining: real, fill: real, volume: real, budget: int)
  {
    remaining > 0.0 ==> budget >= 1 && remaining <= (budget - if fill > 0.0 then 1 else 0) as real * volume
  }

  lemma CoverStart(qty: real, fill: real, volume: real, n: nat)
    requires volume > 0.0 && qty <= n as real * volume
    ensures Covered(qty, fill, volume, n + 1)
  {
    OneLess(n + 1, volume);
  }

  lemma OneLess(n: int, volume: real)
    ensures (n - 1) as real * volume == n as real * volume - volume
  {
  }

  lemma Positive(n: int, volume: real, x: real)
    requires volume > 0.0 && 0.0 < x <= n as real * volume
    ensures n >= 1
  {
    if n <= 0 {
      Multiply(n as real, 0.0, volume);
    }
  }

  /** A round that closes a bucket uses up one budgeted volume. */
  lemma OneRoundLess(remaining: real, rest: real, fill: real, volume: real, budget: int)
    requires volume > 0.0 && rest > 0.0 && Covered(remaining, fill, volume, budget)
    requires rest == remaining - (volume - fill) && 0.0 <= fill < volume
    ensures Covered(rest, 0.0, volume, budget - 1)
  {
    if fill == 0.0 {
      OneLess(budget, volume);
    }
    assert rest <= (budget - 1) as real * volume;
    Positive(budget - 1, volume, rest);
  }

  // ----- the algorithm

  /** Pours one positive trade, closing every bucket it completes. The loop goes round
      at most once per volume the trade covers, plus once for the bucket it found. */
  method PourTrade(qty: real, isBuy: bool, volume: real, buyBefore: real, sellBefore: real, closedBefore: seq<Bucket>,
                   ghost tape: seq<VolumeTrade>)
    returns (buy: real, sell: real, closed: seq<Bucket>)
    requires volume > 0.0 && qty > 0.0
    requires Poured(closedBefore, buyBefore, sellBefore, volume, TradedBuy(tape), TradedSell(tape))
    requires InArrivalOrder(closedBefore, tape)
    ensures Poured(closed, buy, sell, volume,
                   TradedBuy(tape) + (if isBuy then qty else 0.0), TradedSell(tape) + (if isBuy then 0.0 else qty))
    ensures InArrivalOrder(closed, tape + [VolumeTrade(qty, isBuy)])
  {
    buy, sell, closed := buyBefore, sellBefore, closedBefore;
    var fill := buy + sell;
    var remaining := qty;
    ghost var totalBuy, totalSell := TradedBuy(tape), TradedSell(tape);
    ghost var b, s := totalBuy, totalSell;
    ghost var cover := Cover(qty, volume);
    ghost var budget: int := cover + 1;
    CoverStart(qty, fill, volume, cover);
    LaterTrade(closed, tape, VolumeTrade(qty, isBuy));
    while remaining > 0.0
      invariant 0.0 <= remaining <= qty && fill == buy + sell && Poured(closed, buy, sell, volume, b, s)
      invariant if isBuy then b + remaining == totalBuy + qty && s == totalSell
                else b == totalBuy && s + remaining == totalSell + qty
      invariant InArrivalOrder(closed, tape + [VolumeTrade(qty, isBuy)])
      invariant Covered(remaining, fill, volume, budget)
      decreases budget
    {
      ghost var left, was := remaining, fill;
      var room := volume - fill;
      var chunk := Min(room, remaining);
      if isBuy {
        buy, b := buy + chunk, b + chunk;
      } else {
        sell, s := sell + chunk, s + chunk;
      }
      fill := fill + chunk;
      remaining := remaining - chunk;
      if fill >= volume - SLACK {
        StillPoured(closed, buy, sell, volume, b, s);
        BucketCloses(closed, Bucket(buy, sell), tape, VolumeTrade(qty, isBuy), qty - remaining);
        closed := closed + [Bucket(buy, sell)];
        buy, sell, fill := 0.0, 0.0, 0.0;
      }
      if remaining > 0.0 {
        OneRoundLess(left, remaining, was, volume, budget);
      }
      budget := budget - 1;
    }
  }

  /** Pours the next trade unless its quantity is not positive. */
  method PourNext(trades: seq<VolumeTrade>, i: nat, volume: real, buyBefore: real, sellBefore: real, closedBefore: seq<Bucket>)
    returns (buy: real, sell: real, closed: seq<Bucket>)
    requires volume > 0.0 && i < |trades|
    requires Poured(closedBefore, buyBefore, sellBefore, volume, TradedBuy(trades[..i]), TradedSell(trades[..i]))
    requires InArrivalOrder(closedBefore, trades[..i])
    ensures Poured(closed, buy, sell, volume, TradedBuy(trades[..i + 1]), TradedSell(trades[..i + 1]))
    ensures InArrivalOrder(closed, trades[..i + 1])
  {
    buy, sell, closed := buyBefore, sellBefore, closedBefore;
    TradedSnoc(trades, i);
    assert trades[..i + 1] == trades[..i] + [trades[i]];
    if trades[i].qty > 0.0 {
      buy, sell, closed := PourTrade(trades[i].qty, trades[i].isBuy, volume, buy, sell, closed, trades[..i]);
    } else {
      LaterTrade(closed, trades[..i], trades[i]);
    }
  }

  /** All trades, bucketed: on either side nothing is lost and nothing counted twice,
      every closed bucket is full to within the slack, and they fill in order of arrival. */
  method FillBuckets(trades: seq<VolumeTrade>, volume: real) returns (buy: real, sell: real, closed: seq<Bucket>)
    requires volume > 0.0
    ensures Poured(closed, buy, sell, volume, TradedBuy(trades), TradedSell(trades))
    ensures InArrivalOrder(closed, trades)
  {
    buy, sell, closed := 0.0, 0.0, [];
    assert InArrivalOrder([], trades[..0]);
    for i := 0 to |trades|
      invariant Poured(closed, buy, sell, volume, TradedBuy(trades[..i]), TradedSell(trades[..i]))
      invariant InArrivalOrder(closed, trades[..i])
    {
      buy, sell, closed := PourNext(trades, i, volume, buy, sell, closed);
    }
    assert trades[..|trades|] == trades;
  }

  function Mean(s: seq<real>): real
    requires s != []
  {
    Sum(s) / |s| as real
  }

  function LastOf(s: seq<real>, n: nat): seq<real>
  {
    if |s| <= n then s else s[|s| - n..]
  }

  /** The sum of |buy - sell| / volume over the buckets from index k on. */
  function ImbalanceFrom(closed: seq<Bucket>, volume: real, k: nat): real
    requires volume > 0.0 && k <= |closed|
    decreases |closed| - k
  {
    if k == |closed| then 0.0
    else
      var b := closed[k];
      (if b.buy >= b.sell then b.buy - b.sell else b.sell - b.buy) / volume + ImbalanceFrom(closed, volume, k + 1)
  }

  /** Its mean over the last n buckets. */
  function MeanImbalance(closed: seq<Bucket>, volume: real, n: nat): real
    requires volume > 0.0 && 1 <= n <= |closed|
  {
    ImbalanceFrom(closed, volume, |closed| - n) / n as real
  }

  lemma {:induction false} SumFrom(closed: seq<Bucket>, volume: real, k: nat)
    requires volume > 0.0 && k <= |closed|
    ensures Sum(Imbalances(closed, volume)[k..]) == ImbalanceFrom(closed, volume, k)
    decreases |closed| - k
  {
    var s := Imbalances(closed, volume);
    if k < |closed| {
      SumFrom(closed, volume, k + 1);
      assert s[k..] == [s[k]] + s[k + 1..];
      SumConcat([s[k]], s[k + 1..]);
      assert [s[k]][..0] == [] && Sum([s[k]]) == s[k];
    }
  }

  lemma MeanIsPlain(closed: seq<Bucket>, volume: real, nBuckets: int)
    requires volume > 0.0 && nBuckets >= 1 && closed != []
    ensures Mean(LastOf(Imbalances(closed, volume), nBuckets))
         == MeanImbalance(closed, volume, if |closed| < nBuckets then |closed| else nBuckets)
  {
    var n := if |closed| < nBuckets then |closed| else nBuckets;
    var s := Imbalances(closed, volume);
    SumFrom(closed, volume, |closed| - n);
    assert LastOf(s, nBuckets) == s[|closed| - n..];
  }

  /** VPIN lies in [0, 1] and is the mean imbalance of the last buckets of a bucketing
      that conserves volume. */
  method Vpin(trades: seq<VolumeTrade>, volume: real, nBuckets: int)
    returns (r: real, buy: real, sell: real, closed: seq<Bucket>)
    ensures 0.0 <= r <= 1.0
    ensures volume <= 0.0 || nBuckets < 1 || trades == [] ==> r == 0.0
    ensures volume > 0.0 && nBuckets >= 1 && trades != [] ==>
              && Poured(closed, buy, sell, volume, TradedBuy(trades), TradedSell(trades))
              && InArrivalOrder(closed, trades)
              && r == if closed == [] then 0.0 else MeanImbalance(closed, volume, if |closed| < nBuckets then |closed| else nBuckets)
  {
    r, buy, sell, closed := 0.0, 0.0, 0.0, [];
    if volume <= 0.0 || nBuckets < 1 || trades == [] {
      return;
    }
    buy, sell, closed := FillBuckets(trades, volume);
    if closed != [] {
      TailInRange(closed, volume, nBuckets);
      MeanIsPlain(closed, volume, nBuckets);
      r := Mean(LastOf(Imbalances(closed, volume), nBuckets));
    }
  }

  lemma {:induction false} SumInRange(s: seq<real>)
    requires s != [] && forall i :: 0 <= i < |s| ==> 0.0 <= s[i] <= 1.0
    ensures 0.0 <= Sum(s) <= |s| as real
  {
    if |s| == 1 {
      assert s[..0] == [];
    } else {
      SumInRange(s[..|s| - 1]);
    }
  }

  lemma TailInRange(closed: seq<Bucket>, volume: real, n: nat)
    requires volume > 0.0 && n >= 1 && closed != []
    requires forall i :: 0 <= i < |closed| ==> Full(closed[i], volume)
    ensures 0.0 <= Mean(LastOf(Imbalances(closed, volume), n)) <= 1.0
  {
    var tail := LastOf(Imbalances(closed, volume), n);
    forall i | 0 <= i < |tail| ensures 0.0 <= tail[i] <= 1.0 {
      var b := closed[|closed| - |tail| + i];
      Fraction(Abs(b.buy - b.sell), volume);
      assert tail[i] == Imbalance(b, volume);
    }
    SumInRange(tail);
    Fraction(Sum(tail), |tail| as real);
  }

  lemma {:induction false} HeldBetween(closed: seq<Bucket>, least: real, most: real)
    requires forall i :: 0 <= i < |closed| ==> least <= closed[i].buy + closed[i].sell <= most
    ensures |closed| as real * least <= HeldBuy(closed) + HeldSell(closed) <= |closed| as real * most
  {
    if |closed| > 0 {
      HeldBetween(closed[..|closed| - 1], least, most);
      OneLess(|closed|, least);
      OneLess(|closed|, most);
    }
  }

  /** The number of closed buckets is pinned by the volume they hold. */
  lemma BucketCount(closed: seq<Bucket>, volume: real)
    requires forall i :: 0 <= i < |closed| ==> Full(closed[i], volume)
    ensures |closed| as real * (volume - SLACK) <= HeldBuy(closed) + HeldSell(closed) <= |closed| as real * volume
  {
    HeldBetween(closed, volume - SLACK, volume);
  }
}
