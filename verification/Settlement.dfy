/** Settlement of a binary position, in the backtest and in paper trading. */
module Settlement {
  import opened Common

  datatype Resolution = Win | Loss | Error

  /** `fill_model.settle`. */
  function Settle(side: Side, entry: real, stake: real, fee: real, wentUp: bool): (Resolution, real, real)
  {
    if entry <= 0.0 then (Error, 0.0, -stake - fee)
    else
      var shares := stake / entry;
      var wins := (side.YesUp? && wentUp) || (!side.YesUp? && !wentUp);
      var exit := if wins then 1.0 else 0.0;
      (if wins then Win else Loss, exit, shares * exit - stake - fee)
  }

  /** Paper trading compares the settle price with the window's open strictly. */
  predicate PaperWentUp(open: real, close: real) { close > open }

  /** `_won_market` of the backtest: a tie resolves up. */
  predicate WonMarket(open: real, final: real, side: Side)
  {
    open > 0.0 && final > 0.0 && (if side.YesUp? then final >= open else !(final >= open))
  }

  function ResolvePnl(entry: real, stake: real, won: bool): real
  {
    if entry <= 0.0 then -stake
    else if won then stake / entry * 1.0 - stake else -stake
  }

  function ParabolicFee(k: real, entry: real, stake: real): real { k * entry * (1.0 - entry) * stake }

  /** Paper trading only settles against a positive open. From there both sides name the
      same winner exactly when the prices differ and are positive, or when a missing
      close meets an up position; then they book the same profit for equal fees. */
  lemma SettlementsAgree(open: real, close: real, side: Side, entry: real, stake: real, fee: real)
    requires open > 0.0 && entry > 0.0
    ensures var paper := Settle(side, entry, stake, fee, PaperWentUp(open, close));
            var won := WonMarket(open, close, side);
            && ((paper.0 == Win <==> won) <==> if close <= 0.0 then side.YesUp? else close != open)
            && ((paper.0 == Win <==> won) ==> paper.2 == ResolvePnl(entry, stake, won) - fee)
  {
  }

  /** On a tie exactly one of the two calls the position a win. */
  lemma TieSplitsWinners(open: real, side: Side, entry: real, stake: real, fee: real)
    requires open > 0.0 && entry > 0.0
    ensures WonMarket(open, open, side) <==>
            Settle(side, entry, stake, fee, PaperWentUp(open, open)).0 == Loss
  {
  }

  /** A closed trade cannot lose more than its stake and the largest parabolic fee, and
      a winning one does not lose. */
  lemma WorstTrade(entry: real, stake: real, won: bool, k: real)
    requires 0.0 < entry <= 0.99 && stake >= 0.0 && 0.0 <= k <= 1.0
    ensures 0.0 <= ParabolicFee(k, entry, stake) <= stake * (k / 4.0)
    ensures ResolvePnl(entry, stake, won) - ParabolicFee(k, entry, stake) >= -(stake * (1.0 + k / 4.0))
    ensures won ==> ResolvePnl(entry, stake, won) - ParabolicFee(k, entry, stake) >= 0.0
  {
    FeeBound(k, entry, stake);
    if won {
      WinCoversFee(entry, stake, k);
    }
    assert stake * (1.0 + k / 4.0) == stake + stake * (k / 4.0);
  }

  lemma FeeBound(k: real, p: real, stake: real)
    requires 0.0 < p < 1.0 && stake >= 0.0 && k >= 0.0
    ensures 0.0 <= ParabolicFee(k, p, stake) <= stake * (k / 4.0)
  {
    var v := p * (1.0 - p);
    assert 0.0 < v <= 0.25 by {
      assert (p - 0.5) * (p - 0.5) >= 0.0;
      assert (p - 0.5) * (p - 0.5) == 0.25 - v;
    }
    var ks := k * stake;
    assert ks >= 0.0;
    assert 0.0 <= ks * v <= ks * 0.25;
    assert ParabolicFee(k, p, stake) == ks * v by {
      assert k * p * (1.0 - p) == k * v;
      assert k * v * stake == ks * v;
    }
    assert stake * (k / 4.0) == ks * 0.25;
  }

  lemma WinCoversFee(p: real, stake: real, k: real)
    requires 0.0 < p <= 0.99 && stake >= 0.0 && 0.0 <= k <= 1.0
    ensures stake / p - stake - ParabolicFee(k, p, stake) >= 0.0
  {
    var shares := stake / p;
    assert shares * p == stake && shares >= 0.0;
    var q := 1.0 - p;
    assert ParabolicFee(k, p, stake) == (k * p * p) * (q * shares) by {
      assert k * p * q * (shares * p) == (k * p * p) * (q * shares);
    }
    Product(q, shares);
    assert k * p * p <= 1.0 by {
      assert p * p <= 1.0 && p * p >= 0.0;
      assert k * (p * p) <= 1.0 * (p * p);
      assert k * p * p == k * (p * p);
    }
    Scale(k * p * p, q * shares);
    assert shares - stake == q * shares;
  }

  lemma Product(a: real, b: real)
    requires a >= 0.0 && b >= 0.0
    ensures a * b >= 0.0
  {
  }

  lemma Scale(a: real, x: real)
    requires a <= 1.0 && x >= 0.0
    ensures a * x <= x
  {
    assert (1.0 - a) * x >= 0.0;
  }
}
