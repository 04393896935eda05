/** Avellaneda-Stoikov quoting for a binary market, over the reals. The bridge
    standard deviation only ever enters squared, so its square is modelled; the
    logarithm of the fill-intensity term is a nonnegative input `logTerm`. */
module Quoting {
  import opened Common

  datatype ASParams = ASParams(
    gamma: real, windowSeconds: int, spreadFloorBps: real, spreadCeilingBps: real, tauTerminal: real)

  predicate ValidWindow(p: ASParams)
  {
    p.windowSeconds != 0
  }

  /** The variance divides by the window length, except where it returns 0 first. */
  predicate Computable(pFair: real, t: real, window: int)
  {
    window != 0 || t >= 0.0 || !(0.0 < pFair < 1.0)
  }

  const LO := 0.001
  const HI := 0.999

  function Clamp(x: real): real { Max(LO, Min(HI, x)) }

  function SigmaSquared(pFair: real, t: real, window: int): (v: real)
    requires Computable(pFair, t, window)
    ensures v >= 0.0
    ensures v == 0.0 <==> !(0.0 < pFair < 1.0) || t >= window as real
    ensures v > 0.0 && window < 0 ==> v == pFair * (1.0 - pFair)
  {
    if !(0.0 < pFair < 1.0) then 0.0
    else if t >= window as real then 0.0
    else
      ScaledVariance(pFair, window as real - Max(0.0, t), window as real);
      pFair * (1.0 - pFair) * (window as real - Max(0.0, t)) / window as real
  }

  /** What is left of the window has its sign, and is all of a negative one. */
  lemma ScaledVariance(p: real, left: real, window: real)
    requires 0.0 < p < 1.0 && ((left > 0.0 && window > 0.0) || left == window < 0.0)
    ensures p * (1.0 - p) * left / window > 0.0
    ensures left == window ==> p * (1.0 - p) * left / window == p * (1.0 - p)
  {
    var v := p * (1.0 - p);
    assert v > 0.0;
    if window > 0.0 {
      assert v * left > 0.0;
    } else {
      assert v * window / window == v;
    }
  }

  function ReservationPrice(pFair: real, q: real, p: ASParams, t: real): real
    requires Computable(pFair, t, p.windowSeconds)
  {
    var v := SigmaSquared(pFair, t, p.windowSeconds);
    if v == 0.0 then pFair
    else
      var skew := q * p.gamma * v * Max(0.0, p.windowSeconds as real - t);
      Min(HI, Max(LO, pFair - skew))
  }

  /** The fill-intensity term of the spread. */
  function Intensity(gamma: real, k: real, logTerm: real): real
  {
    if k > 0.0 && gamma > 0.0 then 2.0 / gamma * logTerm else 0.0
  }

  function OptimalTotalSpread(pFair: real, k: real, logTerm: real, p: ASParams, t: real): real
    requires Computable(pFair, t, p.windowSeconds)
  {
    var v := SigmaSquared(pFair, t, p.windowSeconds);
    var inventoryRisk := p.gamma * v * Max(0.0, p.windowSeconds as real - t);
    ClampSpread(p, inventoryRisk + Intensity(p.gamma, k, logTerm))
  }

  function ClampSpread(p: ASParams, delta: real): real
  {
    Min(p.spreadCeilingBps / 10000.0, Max(p.spreadFloorBps / 10000.0, delta))
  }

  function OptimalBidAsk(pFair: real, q: real, k: real, logTerm: real, p: ASParams, t: real): (real, real)
    requires Computable(pFair, t, p.windowSeconds)
  {
    var r := ReservationPrice(pFair, q, p, t);
    var half := OptimalTotalSpread(pFair, k, logTerm, p, t) / 2.0;
    var bid := Clamp(r - half);
    var ask := Clamp(r + half);
    if bid >= ask then (Max(LO, r - 0.005), Min(HI, r + 0.005)) else (bid, ask)
  }

  predicate InQuotingWindow(t: real, p: ASParams, entryStart: real)
  {
    entryStart <= t <= p.windowSeconds as real - p.tauTerminal
  }

  predicate InActiveZone(pFair: real, zoneLo: real, zoneHi: real, deadLo: real, deadHi: real)
  {
    zoneLo <= pFair <= zoneHi && !(deadLo <= pFair <= deadHi)
  }

  // ----- what every quote satisfies

  predicate Quotable(pFair: real, p: ASParams, t: real)
  {
    Computable(pFair, t, p.windowSeconds) && LO <= pFair <= HI && p.spreadFloorBps > 0.0 && p.spreadCeilingBps > 0.0
  }

  /** The reservation price stays strictly inside the clamp range, so the clamps
      never collapse the two quotes and the degenerate branch is dead. */
  lemma NotDegenerate(pFair: real, q: real, k: real, logTerm: real, p: ASParams, t: real)
    requires Quotable(pFair, p, t)
    ensures var r := ReservationPrice(pFair, q, p, t);
            var half := OptimalTotalSpread(pFair, k, logTerm, p, t) / 2.0;
            LO <= r <= HI && half > 0.0 &&
            OptimalBidAsk(pFair, q, k, logTerm, p, t) == (Clamp(r - half), Clamp(r + half)) &&
            Clamp(r - half) < Clamp(r + half)
  {
  }

  /** For every inventory, time and fill intensity the quotes are ordered, inside
      the price range and no wider than the ceiling; at zero inventory they
      bracket the fair price. */
  lemma QuotesAreSound(pFair: real, q: real, k: real, logTerm: real, p: ASParams, t: real)
    requires Quotable(pFair, p, t)
    ensures var (bid, ask) := OptimalBidAsk(pFair, q, k, logTerm, p, t);
            && LO <= bid < ask <= HI
            && ask - bid <= p.spreadCeilingBps / 10000.0
            && (q == 0.0 ==> bid <= pFair <= ask)
  {
    NotDegenerate(pFair, q, k, logTerm, p, t);
    if q == 0.0 {
      assert q * p.gamma * SigmaSquared(pFair, t, p.windowSeconds) == 0.0;
    }
  }

  lemma SkewMonotone(q1: real, q2: real, c: real)
    requires q1 <= q2 && c >= 0.0
    ensures q1 * c <= q2 * c
  {
  }

  lemma ReservationMonotone(pFair: real, q1: real, q2: real, p: ASParams, t: real)
    requires Computable(pFair, t, p.windowSeconds) && p.gamma >= 0.0 && q1 <= q2
    ensures ReservationPrice(pFair, q2, p, t) <= ReservationPrice(pFair, q1, p, t)
  {
    var v := SigmaSquared(pFair, t, p.windowSeconds);
    var left := Max(0.0, p.windowSeconds as real - t);
    NonNegativeProduct(p.gamma, v, left);
    SkewMonotone(q1, q2, p.gamma * v * left);
    Regroup(q1, p.gamma, v, left);
    Regroup(q2, p.gamma, v, left);
  }

  lemma NonNegativeProduct(a: real, b: real, c: real)
    requires a >= 0.0 && b >= 0.0 && c >= 0.0
    ensures a * b * c >= 0.0
  {
    assert a * b >= 0.0;
  }

  lemma ClampMonotone(x: real, y: real)
    requires x <= y
    ensures Clamp(x) <= Clamp(y)
  {
  }

  /** A longer inventory never raises either quote. */
  lemma QuotesLeanAgainstInventory(
    pFair: real, q1: real, q2: real, k: real, logTerm: real, p: ASParams, t: real)
    requires Quotable(pFair, p, t) && p.gamma >= 0.0 && q1 <= q2
    ensures OptimalBidAsk(pFair, q2, k, logTerm, p, t).0 <= OptimalBidAsk(pFair, q1, k, logTerm, p, t).0
    ensures OptimalBidAsk(pFair, q2, k, logTerm, p, t).1 <= OptimalBidAsk(pFair, q1, k, logTerm, p, t).1
  {
    NotDegenerate(pFair, q1, k, logTerm, p, t);
    NotDegenerate(pFair, q2, k, logTerm, p, t);
    ReservationMonotone(pFair, q1, q2, p, t);
    var half := OptimalTotalSpread(pFair, k, logTerm, p, t) / 2.0;
    var r1, r2 := ReservationPrice(pFair, q1, p, t), ReservationPrice(pFair, q2, p, t);
    ClampMonotone(r2 - half, r1 - half);
    ClampMonotone(r2 + half, r1 + half);
  }

  lemma Regroup(q: real, g: real, v: real, left: real)
    ensures q * g * v * left == q * (g * v * left)
  {
  }

  lemma IntensityMonotone(gamma: real, k1: real, k2: real, lo: real, hi: real)
    requires 0.0 < k1 <= k2 && lo <= hi
    ensures Intensity(gamma, k2, lo) <= Intensity(gamma, k1, hi)
  {
    if gamma > 0.0 {
      PositiveQuotient(2.0, gamma);
      SkewMonotone(lo, hi, 2.0 / gamma);
    }
  }

  lemma PositiveQuotient(x: real, y: real)
    requires x > 0.0 && y > 0.0
    ensures x / y > 0.0
  {
  }

  lemma ClampSpreadMonotone(p: ASParams, x: real, y: real)
    requires x <= y
    ensures ClampSpread(p, x) <= ClampSpread(p, y)
  {
  }

  lemma SpreadMonotone(pFair: real, k1: real, k2: real, lo: real, hi: real, p: ASParams, t: real)
    requires Computable(pFair, t, p.windowSeconds) && 0.0 < k1 <= k2 && lo <= hi
    ensures OptimalTotalSpread(pFair, k2, lo, p, t) <= OptimalTotalSpread(pFair, k1, hi, p, t)
  {
    IntensityMonotone(p.gamma, k1, k2, lo, hi);
    var risk := p.gamma * SigmaSquared(pFair, t, p.windowSeconds) * Max(0.0, p.windowSeconds as real - t);
    ClampSpreadMonotone(p, risk + Intensity(p.gamma, k2, lo), risk + Intensity(p.gamma, k1, hi));
  }

  ghost predicate Nondecreasing(ln: real -> real)
  {
    forall x, y :: x <= y ==> ln(x) <= ln(y)
  }

  lemma RatioFalls(gamma: real, k1: real, k2: real)
    requires gamma >= 0.0 && 0.0 < k1 <= k2
    ensures gamma / k2 <= gamma / k1
  {
    assert gamma / k1 * k1 == gamma && gamma / k2 * k2 == gamma;
    assert gamma / k2 * (k2 - k1) >= 0.0;
  }

  lemma WiderSpreadWiderQuotes(pFair: real, q: real, k1: real, k2: real, log1: real, log2: real, p: ASParams, t: real)
    requires Quotable(pFair, p, t)
    requires OptimalTotalSpread(pFair, k2, log2, p, t) <= OptimalTotalSpread(pFair, k1, log1, p, t)
    ensures OptimalBidAsk(pFair, q, k1, log1, p, t).0 <= OptimalBidAsk(pFair, q, k2, log2, p, t).0
    ensures OptimalBidAsk(pFair, q, k2, log2, p, t).1 <= OptimalBidAsk(pFair, q, k1, log1, p, t).1
  {
    NotDegenerate(pFair, q, k1, log1, p, t);
    NotDegenerate(pFair, q, k2, log2, p, t);
    var half1 := OptimalTotalSpread(pFair, k1, log1, p, t) / 2.0;
    var half2 := OptimalTotalSpread(pFair, k2, log2, p, t) / 2.0;
    var r := ReservationPrice(pFair, q, p, t);
    ClampMonotone(r - half1, r - half2);
    ClampMonotone(r + half2, r + half1);
  }

  /** For any nondecreasing logarithm the quotes widen on both sides, or stay, when the
      fill intensity falls. */
  lemma WiderWhenFillsAreRare(pFair: real, q: real, k1: real, k2: real, ln: real -> real, p: ASParams, t: real)
    requires Quotable(pFair, p, t) && 0.0 < k1 <= k2 && Nondecreasing(ln)
    ensures var rare := OptimalBidAsk(pFair, q, k1, ln(1.0 + p.gamma / k1), p, t);
            var frequent := OptimalBidAsk(pFair, q, k2, ln(1.0 + p.gamma / k2), p, t);
            rare.0 <= frequent.0 && frequent.1 <= rare.1
  {
    var log1, log2 := ln(1.0 + p.gamma / k1), ln(1.0 + p.gamma / k2);
    if p.gamma > 0.0 {
      RatioFalls(p.gamma, k1, k2);
      SpreadMonotone(pFair, k1, k2, log2, log1, p, t);
    }
    WiderSpreadWiderQuotes(pFair, q, k1, k2, log1, log2, p, t);
  }

  /** Without any assumption on the fair price the bid stays above the lower clamp,
      and the ask is positive unless the fair price lies at or below -0.005. */
  lemma QuotesArePositive(pFair: real, q: real, k: real, logTerm: real, p: ASParams, t: real)
    requires Computable(pFair, t, p.windowSeconds)
    ensures OptimalBidAsk(pFair, q, k, logTerm, p, t).0 >= LO
    ensures pFair > -0.005 ==> OptimalBidAsk(pFair, q, k, logTerm, p, t).1 > 0.0
  {
  }

  // ----- the quotes in closed form

  /** The inventory risk in closed form: gamma times the bridge variance times the time left. */
  function Risk(gamma: real, pFair: real, t: real, w: real): real
    requires t < w ==> w != 0.0
  {
    if t >= w then 0.0 else gamma * pFair * (1.0 - pFair) * (w - Max(0.0, t)) * (w - t) / w
  }

  lemma RiskIsProduct(gamma: real, pFair: real, p: ASParams, t: real)
    requires Computable(pFair, t, p.windowSeconds) && 0.0 < pFair < 1.0
    ensures var w := p.windowSeconds as real;
            gamma * SigmaSquared(pFair, t, p.windowSeconds) * Max(0.0, w - t) == Risk(gamma, pFair, t, w)
  {
    var w := p.windowSeconds as real;
    if t < w {
      Reassociate(gamma, pFair, 1.0 - pFair, w - Max(0.0, t), w - t, w);
    }
  }

  lemma Reassociate(g: real, a: real, b: real, since: real, left: real, w: real)
    requires w != 0.0
    ensures g * (a * b * since / w) * left == g * a * b * since * left / w
  {
    var v := a * b * since / w;
    var x := g * v * left;
    assert v * w == a * b * since;
    assert x * w == g * (v * w) * left;
    Divide(x, g * a * b * since * left, w);
  }

  lemma Divide(x: real, y: real, w: real)
    requires w != 0.0 && x * w == y
    ensures x == y / w
  {
  }

  lemma SpreadInClosedForm(pFair: real, k: real, logTerm: real, p: ASParams, t: real)
    requires Computable(pFair, t, p.windowSeconds) && 0.0 < pFair < 1.0
    ensures OptimalTotalSpread(pFair, k, logTerm, p, t)
         == Min(p.spreadCeilingBps / 10000.0, Max(p.spreadFloorBps / 10000.0,
                Risk(p.gamma, pFair, t, p.windowSeconds as real) + if k > 0.0 && p.gamma > 0.0 then 2.0 / p.gamma * logTerm else 0.0))
  {
    RiskIsProduct(p.gamma, pFair, p, t);
  }

  lemma ReservationInClosedForm(pFair: real, q: real, p: ASParams, t: real)
    requires Computable(pFair, t, p.windowSeconds) && LO <= pFair <= HI
    ensures ReservationPrice(pFair, q, p, t) == Min(HI, Max(LO, pFair - Risk(q * p.gamma, pFair, t, p.windowSeconds as real)))
  {
    RiskIsProduct(q * p.gamma, pFair, p, t);
  }

  /** Quotes half a spread on either side of a price that is first moved into the range. */
  lemma QuotesAround(r: real, half: real)
    requires half > 0.0
    ensures var inside := Min(HI, Max(LO, r));
            && Clamp(inside - half) == (if r > 0.999 then Max(0.001, 0.999 - half) else if r < 0.001 then 0.001 else Max(0.001, r - half))
            && Clamp(inside + half) == (if r > 0.999 then 0.999 else if r < 0.001 then Min(0.999, 0.001 + half) else Min(0.999, r + half))
  {
  }

  /** Both quotes, from the parameters alone: half a spread around the fair price less
      the skew. If that price leaves the range, the quote on that side sits at its end
      and the other one half a spread inside. */
  lemma QuotesInClosedForm(pFair: real, q: real, k: real, logTerm: real, p: ASParams, t: real)
    requires Quotable(pFair, p, t)
    ensures var w := p.windowSeconds as real;
            var wish := Risk(p.gamma, pFair, t, w) + if k > 0.0 && p.gamma > 0.0 then 2.0 / p.gamma * logTerm else 0.0;
            var half := Min(p.spreadCeilingBps / 10000.0, Max(p.spreadFloorBps / 10000.0, wish)) / 2.0;
            var r := pFair - Risk(q * p.gamma, pFair, t, w);
            && OptimalBidAsk(pFair, q, k, logTerm, p, t).0
               == (if r > 0.999 then Max(0.001, 0.999 - half) else if r < 0.001 then 0.001 else Max(0.001, r - half))
            && OptimalBidAsk(pFair, q, k, logTerm, p, t).1
               == (if r > 0.999 then 0.999 else if r < 0.001 then Min(0.999, 0.001 + half) else Min(0.999, r + half))
  {
    NotDegenerate(pFair, q, k, logTerm, p, t);
    SpreadInClosedForm(pFair, k, logTerm, p, t);
    ReservationInClosedForm(pFair, q, p, t);
    QuotesAround(pFair - Risk(q * p.gamma, pFair, t, p.windowSeconds as real), OptimalTotalSpread(pFair, k, logTerm, p, t) / 2.0);
  }

  lemma MiddleOf(r: real, half: real, bid: real, ask: real)
    requires bid == if r > 0.999 then Max(0.001, 0.999 - half) else if r < 0.001 then 0.001 else Max(0.001, r - half)
    requires ask == if r > 0.999 then 0.999 else if r < 0.001 then Min(0.999, 0.001 + half) else Min(0.999, r + half)
    requires 0.001 < bid && ask < 0.999
    ensures bid == r - half && ask == r + half
  {
  }

  /** Inside the range, the middle of the quotes is the fair price less q shares' risk and
      their distance is the clamp of the inventory risk and the intensity term. */
  lemma MiddleAndWidth(pFair: real, q: real, k: real, logTerm: real, p: ASParams, t: real)
    requires Quotable(pFair, p, t)
    requires 0.001 < OptimalBidAsk(pFair, q, k, logTerm, p, t).0 && OptimalBidAsk(pFair, q, k, logTerm, p, t).1 < 0.999
    ensures var (bid, ask) := OptimalBidAsk(pFair, q, k, logTerm, p, t);
            var w := p.windowSeconds as real;
            var wish := Risk(p.gamma, pFair, t, w) + if k > 0.0 && p.gamma > 0.0 then 2.0 / p.gamma * logTerm else 0.0;
            && bid + ask == 2.0 * (pFair - Risk(q * p.gamma, pFair, t, w))
            && ask - bid == Min(p.spreadCeilingBps / 10000.0, Max(p.spreadFloorBps / 10000.0, wish))
  {
    var w := p.windowSeconds as real;
    var wish := Risk(p.gamma, pFair, t, w) + if k > 0.0 && p.gamma > 0.0 then 2.0 / p.gamma * logTerm else 0.0;
    QuotesInClosedForm(pFair, q, k, logTerm, p, t);
    MiddleOf(pFair - Risk(q * p.gamma, pFair, t, w), Min(p.spreadCeilingBps / 10000.0, Max(p.spreadFloorBps / 10000.0, wish)) / 2.0,
             OptimalBidAsk(pFair, q, k, logTerm, p, t).0, OptimalBidAsk(pFair, q, k, logTerm, p, t).1);
  }

  /** The risk of q shares is q times that of one, and inside the window it is gamma times
      p (1 - p) times the squared time left over the window. */
  lemma RiskInTime(q: real, gamma: real, pFair: real, t: real, w: real)
    requires t < w && w != 0.0
    ensures Risk(q * gamma, pFair, t, w) == q * Risk(gamma, pFair, t, w)
    ensures t >= 0.0 ==> Risk(gamma, pFair, t, w) == gamma * pFair * (1.0 - pFair) * (w - t) * (w - t) / w
  {
    var since, left := w - Max(0.0, t), w - t;
    assert t >= 0.0 ==> since == left;
    var x := gamma * pFair * (1.0 - pFair) * since * left;
    assert Risk(gamma, pFair, t, w) == x / w;
    assert q * gamma * pFair * (1.0 - pFair) * since * left == q * x;
    Scaled(q, x, w);
  }

  lemma Scaled(q: real, x: real, w: real)
    requires w != 0.0
    ensures q * x / w == q * (x / w)
  {
  }
}
