/** The deterministic backtest: per-market replay under one shared risk manager. The
    strategy and the fill lottery are arbitrary: each tick carries the decision the
    strategy takes on it and the number the generator draws on it. */
module Backtest {
  import opened Common
  import opened Risk
  import opened Settlement

  datatype BtConfig = BtConfig(
    earliest: real, latest: real, stake: real, fillProbability: real, slippageBps: real,
    applyFee: bool, feeK: real, bypassRisk: bool, risk: RiskConfig)

  /** A tick after the indicators were recomputed. A missing price is 0. */
  datatype Ctx = Ctx(
    risk: RiskCtx, tInWindow: real, windowCloseTs: real, openPrice: real, spot: real, chainlink: real,
    yesBid: real, yesAsk: real, noBid: real, noAsk: real, enter: bool, side: Side, draw: real)

  /** Whether the loader supplies canonical settle prices, and this market's if so. */
  datatype SettleSource = FromTicks | FromLoader(price: Option<real>)

  datatype Market = Market(slug: string, ticks: seq<Ctx>, source: SettleSource)

  datatype Position = Position(side: Side, entryTs: real, entryPrice: real)

  datatype Trade = Trade(idx: nat, slug: string, side: Side, entryPrice: real, exitTs: real, won: bool, pnl: real, fee: real)

  datatype Counts = Counts(evaluated: nat, riskSkip: nat, enter: nat, skip: nat, fillMiss: nat, priceDrop: nat)

  datatype BtState = BtState(risk: RiskState, position: Option<Position>, trades: seq<Trade>, counts: Counts, nMarkets: nat, nTicks: nat)

  /** A run starts with whatever risk manager it is handed. */
  function Begin(risk: RiskState): BtState { BtState(risk, None, [], Counts(0, 0, 0, 0, 0, 0), 0, 0) }

  // ----- one tick

  function FillPrice(c: BtConfig, x: Ctx): real
  {
    var mid := if x.side.YesUp? then (x.yesBid + x.yesAsk) / 2.0 else (x.noBid + x.noAsk) / 2.0;
    var limit := if x.side.YesUp? then x.yesAsk else x.noAsk;
    Min(limit + mid * c.slippageBps / 10000.0, 0.99)
  }

  function Decide(c: BtConfig, b: BtState, x: Ctx): BtState
  {
    if !x.enter then b.(counts := b.counts.(skip := b.counts.skip + 1))
    else
      var n := b.counts.(enter := b.counts.enter + 1);
      if x.draw > c.fillProbability then b.(counts := n.(fillMiss := n.fillMiss + 1))
      else if FillPrice(c, x) <= 0.0 then b.(counts := n.(priceDrop := n.priceDrop + 1))
      else b.(counts := n, position := Some(Position(x.side, x.risk.ts, FillPrice(c, x))))
  }

  function TickStep(c: BtConfig, b: BtState, x: Ctx): BtState
  {
    var b0 := b.(nTicks := b.nTicks + 1);
    if b.position.Some? || !(c.earliest <= x.tInWindow <= c.latest) then b0
    else
      var b1 := b0.(counts := b.counts.(evaluated := b.counts.evaluated + 1));
      if c.bypassRisk then Decide(c, b1, x)
      else
        var b2 := b1.(risk := AfterAsking(c.risk, b.risk, x.risk));
        if !Allowed(c.risk, b.risk, x.risk) then b2.(counts := b2.counts.(riskSkip := b2.counts.riskSkip + 1))
        else Decide(c, b2, x)
  }

  function Ticks(c: BtConfig, b: BtState, ticks: seq<Ctx>): BtState
  {
    if ticks == [] then b else TickStep(c, Ticks(c, b, ticks[..|ticks| - 1]), ticks[|ticks| - 1])
  }

  // ----- one market

  function FirstOpen(ticks: seq<Ctx>): real
  {
    if ticks == [] then 0.0
    else if ticks[0].openPrice != 0.0 then ticks[0].openPrice
    else FirstOpen(ticks[1..])
  }

  function OpenPrice(ticks: seq<Ctx>): real
    requires ticks != []
  {
    if FirstOpen(ticks) != 0.0 then FirstOpen(ticks) else ticks[0].spot
  }

  function FinalPrice(ticks: seq<Ctx>): real
    requires ticks != []
  {
    var last := ticks[|ticks| - 1];
    if last.chainlink != 0.0 then last.chainlink else last.spot
  }

  function CloseTs(ticks: seq<Ctx>): real
    requires ticks != []
  {
    if ticks[0].windowCloseTs != 0.0 then ticks[0].windowCloseTs else ticks[|ticks| - 1].risk.ts
  }

  predicate Replayed(m: Market)
  {
    m.ticks != [] && !(m.source.FromLoader? && m.source.price.None?)
  }

  function TradeOf(c: BtConfig, b: BtState, m: Market): Trade
    requires Replayed(m) && b.position.Some?
  {
    var p := b.position.value;
    var final := if m.source.FromLoader? then m.source.price.value else FinalPrice(m.ticks);
    var won := WonMarket(OpenPrice(m.ticks), final, p.side);
    var fee := if c.applyFee && p.entryPrice > 0.0 then ParabolicFee(c.feeK, p.entryPrice, c.stake) else 0.0;
    Trade(|b.trades|, m.slug, p.side, p.entryPrice, CloseTs(m.ticks), won,
          ResolvePnl(p.entryPrice, c.stake, won) - fee, fee)
  }

  function CloseMarket(c: BtConfig, b: BtState, m: Market): BtState
    requires Replayed(m)
  {
    if b.position.None? then b
    else
      var t := TradeOf(c, b, m);
      b.(trades := b.trades + [t], position := None,
         risk := if c.bypassRisk then b.risk else Closed(c.risk, b.risk, t.pnl, t.exitTs))
  }

  function MarketStep(c: BtConfig, b: BtState, m: Market): BtState
  {
    if m.ticks == [] then b
    else
      var b1 := b.(nMarkets := b.nMarkets + 1);
      if !Replayed(m) then b1 else CloseMarket(c, Ticks(c, b1, m.ticks), m)
  }

  function Markets(c: BtConfig, risk: RiskState, markets: seq<Market>): BtState
  {
    if markets == [] then Begin(risk)
    else MarketStep(c, Markets(c, risk, markets[..|markets| - 1]), markets[|markets| - 1])
  }

  // ----- accounting

  predicate PriceOk(p: real) { 0.0 < p <= 0.99 }

  ghost predicate Accounts(b: BtState)
  {
    var n := b.counts;
    && n.evaluated == n.riskSkip + n.enter + n.skip
    && n.enter == n.fillMiss + n.priceDrop + |b.trades| + (if b.position.Some? then 1 else 0)
    && |b.trades| + (if b.position.Some? then 1 else 0) <= b.nMarkets
    && (forall i :: 0 <= i < |b.trades| ==> b.trades[i].idx == i && PriceOk(b.trades[i].entryPrice))
    && (b.position.Some? ==> PriceOk(b.position.value.entryPrice))
  }

  /** One tick changes at most the counts and the position. */
  lemma TickAccounts(c: BtConfig, b: BtState, x: Ctx)
    requires Accounts(b) && |b.trades| < b.nMarkets
    ensures var b' := TickStep(c, b, x);
            Accounts(b') && b'.trades == b.trades && b'.nMarkets == b.nMarkets && b'.nTicks == b.nTicks + 1
  {
  }

  lemma {:induction false} TicksAccount(c: BtConfig, b: BtState, ticks: seq<Ctx>)
    requires Accounts(b) && |b.trades| < b.nMarkets
    ensures Accounts(Ticks(c, b, ticks))
    ensures Ticks(c, b, ticks).trades == b.trades && Ticks(c, b, ticks).nMarkets == b.nMarkets
    ensures Ticks(c, b, ticks).nTicks == b.nTicks + |ticks|
  {
    if ticks != [] {
      TicksAccount(c, b, ticks[..|ticks| - 1]);
      TickAccounts(c, Ticks(c, b, ticks[..|ticks| - 1]), ticks[|ticks| - 1]);
    }
  }

  /** Each iterated market adds at most one trade, and that trade is its own. */
  lemma MarketAccounts(c: BtConfig, b: BtState, m: Market)
    requires Accounts(b) && b.position.None?
    ensures var b' := MarketStep(c, b, m);
            && Accounts(b') && b'.position.None?
            && b.trades <= b'.trades && |b'.trades| <= |b.trades| + 1
            && (|b'.trades| == |b.trades| + 1 ==> b'.trades[|b.trades|].slug == m.slug && Replayed(m))
  {
    if m.ticks != [] && Replayed(m) {
      TicksAccount(c, b.(nMarkets := b.nMarkets + 1), m.ticks);
    }
  }

  /** In every backtest: evaluations are risk skips, entries and skips; entries are
      fill misses, dropped prices and trades; trades are numbered 0..n-1, at most one
      per market, at prices in (0, 0.99]. */
  lemma {:induction false} BacktestAccounts(c: BtConfig, risk: RiskState, markets: seq<Market>)
    ensures Accounts(Markets(c, risk, markets)) && Markets(c, risk, markets).position.None?
  {
    if markets != [] {
      BacktestAccounts(c, risk, markets[..|markets| - 1]);
      MarketAccounts(c, Markets(c, risk, markets[..|markets| - 1]), markets[|markets| - 1]);
    }
  }

  /** Each trade has a market of its own, in order. */
  ghost predicate Owned(trades: seq<Trade>, markets: seq<Market>, owner: seq<nat>)
  {
    && |owner| == |trades|
    && (forall i :: 0 <= i < |trades| ==>
          owner[i] < |markets| && Replayed(markets[owner[i]]) && trades[i].slug == markets[owner[i]].slug)
    && (forall i, j :: 0 <= i < j < |owner| ==> owner[i] < owner[j])
  }

  /** No market gives two trades: the trades belong to replayed markets, each to one of
      its own, in the order of iteration. */
  lemma {:induction false} OneTradePerMarket(c: BtConfig, risk: RiskState, markets: seq<Market>) returns (owner: seq<nat>)
    ensures Owned(Markets(c, risk, markets).trades, markets, owner)
  {
    owner := [];
    if markets != [] {
      var init, m := markets[..|markets| - 1], markets[|markets| - 1];
      owner := OneTradePerMarket(c, risk, init);
      var before, after := Markets(c, risk, init).trades, Markets(c, risk, markets).trades;
      BacktestAccounts(c, risk, init);
      MarketAccounts(c, Markets(c, risk, init), m);
      OwnedLater(before, init, owner, m);
      assert init + [m] == markets;
      if |after| > |before| {
        OwnedSnoc(before, markets, owner, after[|before|]);
        assert after == before + [after[|before|]];
        owner := owner + [|init|];
      }
    }
  }

  lemma OwnedLater(trades: seq<Trade>, markets: seq<Market>, owner: seq<nat>, m: Market)
    requires Owned(trades, markets, owner)
    ensures Owned(trades, markets + [m], owner) && forall i :: 0 <= i < |owner| ==> owner[i] < |markets|
  {
    forall i | 0 <= i < |trades| ensures (markets + [m])[owner[i]] == markets[owner[i]] {
      assert owner[i] < |markets|;
    }
  }

  lemma OwnedSnoc(trades: seq<Trade>, markets: seq<Market>, owner: seq<nat>, t: Trade)
    requires markets != [] && Owned(trades, markets, owner)
    requires forall i :: 0 <= i < |owner| ==> owner[i] < |markets| - 1
    requires Replayed(markets[|markets| - 1]) && t.slug == markets[|markets| - 1].slug
    ensures Owned(trades + [t], markets, owner + [|markets| - 1])
  {
  }

  // ----- the daily loss and trade limits

  /** Nonnegative limits and stake, and a fee factor between 0 and 1. */
  predicate SaneRisk(c: BtConfig)
  {
    c.risk.lossLimit >= 0.0 && c.risk.tradeLimit >= 0 && c.stake >= 0.0 && 0.0 <= c.feeK <= 1.0
  }

  function WorstDay(c: BtConfig): real
  {
    -(c.risk.lossLimit + c.stake * (1.0 + c.feeK / 4.0))
  }

  /** The daily figures are within limits; while a position is open, the entry that
      opened it found them strictly inside. */
  ghost predicate WithinLimits(c: BtConfig, b: BtState)
  {
    && b.risk.dailyPnl >= WorstDay(c)
    && 0 <= b.risk.dailyTrades <= c.risk.tradeLimit
    && (b.position.Some? ==>
          b.risk.dailyPnl > -c.risk.lossLimit && b.risk.dailyTrades < c.risk.tradeLimit
          && PriceOk(b.position.value.entryPrice))
  }

  lemma WorstDayIsNegative(c: BtConfig)
    requires SaneRisk(c)
    ensures WorstDay(c) <= 0.0 && c.stake * (1.0 + c.feeK / 4.0) >= 0.0
  {
    assert c.stake * (1.0 + c.feeK / 4.0) >= 0.0;
  }

  lemma TickWithinLimits(c: BtConfig, b: BtState, x: Ctx)
    requires SaneRisk(c) && !c.bypassRisk && WithinLimits(c, b)
    ensures WithinLimits(c, TickStep(c, b, x))
  {
    WorstDayIsNegative(c);
  }

  lemma {:induction false} TicksWithinLimits(c: BtConfig, b: BtState, ticks: seq<Ctx>)
    requires SaneRisk(c) && !c.bypassRisk && WithinLimits(c, b)
    ensures WithinLimits(c, Ticks(c, b, ticks))
  {
    if ticks != [] {
      TicksWithinLimits(c, b, ticks[..|ticks| - 1]);
      TickWithinLimits(c, Ticks(c, b, ticks[..|ticks| - 1]), ticks[|ticks| - 1]);
    }
  }

  lemma TradeIsNotWorse(c: BtConfig, b: BtState, m: Market)
    requires SaneRisk(c) && Replayed(m) && b.position.Some? && PriceOk(b.position.value.entryPrice)
    ensures TradeOf(c, b, m).pnl >= -(c.stake * (1.0 + c.feeK / 4.0))
  {
    var t := TradeOf(c, b, m);
    WorstTrade(t.entryPrice, c.stake, t.won, c.feeK);
    WorstTrade(t.entryPrice, c.stake, t.won, 0.0);
    assert c.stake * (1.0 + c.feeK / 4.0) == c.stake + c.stake * (c.feeK / 4.0);
  }

  /** A close after an entry that found the limits open, on the same day or a later one. */
  lemma BookedDay(c: RiskConfig, s: RiskState, pnl: real, now: real, worst: real)
    requires c.lossLimit >= 0.0 && worst >= 0.0 && pnl >= -worst
    requires s.dailyPnl > -c.lossLimit && 0 <= s.dailyTrades < c.tradeLimit
    ensures Closed(c, s, pnl, now).dailyPnl >= -(c.lossLimit + worst)
    ensures 0 <= Closed(c, s, pnl, now).dailyTrades <= c.tradeLimit
  {
  }

  lemma CloseWithinLimits(c: BtConfig, b: BtState, m: Market)
    requires SaneRisk(c) && !c.bypassRisk && WithinLimits(c, b) && Replayed(m)
    ensures WithinLimits(c, CloseMarket(c, b, m))
  {
    if b.position.Some? {
      var t := TradeOf(c, b, m);
      TradeIsNotWorse(c, b, m);
      WorstDayIsNegative(c);
      BookedDay(c.risk, b.risk, t.pnl, t.exitTs, c.stake * (1.0 + c.feeK / 4.0));
    }
  }

  /** A new risk manager is within limits. */
  lemma FreshManagerWithinLimits(c: BtConfig, day: int)
    requires SaneRisk(c)
    ensures WithinLimits(c, Begin(NewDay(day)))
  {
    WorstDayIsNegative(c);
  }

  /** In every risk-on backtest that starts within limits, at every point -- after any
      markets and any ticks of the next one, across any day rolls -- the day's result
      stays above minus the loss limit and one worst trade, and the day's trades within
      their limit. */
  lemma {:induction false} DailyLossIsBounded(c: BtConfig, risk: RiskState, markets: seq<Market>, ticks: seq<Ctx>)
    requires SaneRisk(c) && !c.bypassRisk && WithinLimits(c, Begin(risk))
    ensures WithinLimits(c, Markets(c, risk, markets))
    ensures WithinLimits(c, Ticks(c, Markets(c, risk, markets), ticks))
  {
    if markets != [] {
      var init, m := markets[..|markets| - 1], markets[|markets| - 1];
      DailyLossIsBounded(c, risk, init, m.ticks);
      if m.ticks != [] && Replayed(m) {
        var b1 := Markets(c, risk, init).(nMarkets := Markets(c, risk, init).nMarkets + 1);
        TicksWithinLimits(c, b1, m.ticks);
        CloseWithinLimits(c, Ticks(c, b1, m.ticks), m);
      }
    }
    TicksWithinLimits(c, Markets(c, risk, markets), ticks);
  }

  // ----- the driver

  /** The replay loop over a risk manager object. */
  method RunBacktest(c: BtConfig, rm: RiskManager, markets: seq<Market>)
    returns (trades: seq<Trade>, counts: Counts, nMarkets: nat, nTicks: nat)
    requires rm.c == c.risk
    modifies rm
    ensures BtState(rm.state, None, trades, counts, nMarkets, nTicks) == Markets(c, old(rm.state), markets)
    ensures forall i :: 0 <= i < |trades| ==> trades[i].idx == i && PriceOk(trades[i].entryPrice)
    ensures |trades| <= nMarkets <= |markets|
  {
    trades, counts, nMarkets, nTicks := [], Counts(0, 0, 0, 0, 0, 0), 0, 0;
    for i := 0 to |markets|
      invariant BtState(rm.state, None, trades, counts, nMarkets, nTicks) == Markets(c, old(rm.state), markets[..i])
      invariant nMarkets <= i
    {
      assert markets[..i + 1][..i] == markets[..i];
      trades, counts, nMarkets, nTicks := ReplayMarket(c, rm, markets[i], trades, counts, nMarkets, nTicks);
    }
    assert markets[..|markets|] == markets;
    BacktestAccounts(c, old(rm.state), markets);
  }

  /** One market: its ticks, then the settlement of the position they left. */
  method ReplayMarket(c: BtConfig, rm: RiskManager, m: Market, trades0: seq<Trade>, counts0: Counts, nMarkets0: nat, nTicks0: nat)
    returns (trades: seq<Trade>, counts: Counts, nMarkets: nat, nTicks: nat)
    requires rm.c == c.risk
    modifies rm
    ensures BtState(rm.state, None, trades, counts, nMarkets, nTicks)
         == MarketStep(c, BtState(old(rm.state), None, trades0, counts0, nMarkets0, nTicks0), m).(position := None)
    ensures nMarkets <= nMarkets0 + 1
    ensures MarketStep(c, BtState(old(rm.state), None, trades0, counts0, nMarkets0, nTicks0), m).position.None?
  {
    trades, counts, nMarkets, nTicks := trades0, counts0, nMarkets0, nTicks0;
    if m.ticks == [] {
      return;
    }
    nMarkets := nMarkets + 1;
    if m.source.FromLoader? && m.source.price.None? {
      return;
    }
    var open := FindOpen(m.ticks);
    var final := if m.source.FromLoader? then m.source.price.value else FinalPrice(m.ticks);
    var position;
    position, counts, nTicks := ReplayTicks(c, rm, m.ticks, counts, nTicks, BtState(rm.state, None, trades, counts, nMarkets, nTicks));
    if position.Some? {
      var p := position.value;
      var won := WonMarket(open, final, p.side);
      var fee := if c.applyFee && p.entryPrice > 0.0 then ParabolicFee(c.feeK, p.entryPrice, c.stake) else 0.0;
      var pnl := ResolvePnl(p.entryPrice, c.stake, won) - fee;
      var exit := CloseTs(m.ticks);
      trades := trades + [Trade(|trades|, m.slug, p.side, p.entryPrice, exit, won, pnl, fee)];
      if !c.bypassRisk {
        rm.OnTradeClosed(pnl, exit);
      }
    }
  }

  method ReplayTicks(c: BtConfig, rm: RiskManager, ticks: seq<Ctx>, counts0: Counts, nTicks0: nat, ghost b: BtState)
    returns (position: Option<Position>, counts: Counts, nTicks: nat)
    requires rm.c == c.risk
    requires b.risk == rm.state && b.position.None? && b.counts == counts0 && b.nTicks == nTicks0
    modifies rm
    ensures Ticks(c, b, ticks) == b.(risk := rm.state, position := position, counts := counts, nTicks := nTicks)
  {
    position, counts, nTicks := None, counts0, nTicks0;
    for j := 0 to |ticks|
      invariant Ticks(c, b, ticks[..j]) == b.(risk := rm.state, position := position, counts := counts, nTicks := nTicks)
    {
      assert ticks[..j + 1][..j] == ticks[..j];
      var x := ticks[j];
      nTicks := nTicks + 1;
      if position.Some? || !(c.earliest <= x.tInWindow <= c.latest) {
        continue;
      }
      position, counts := Evaluate(c, rm, x, counts, Ticks(c, b, ticks[..j]));
    }
    assert ticks[..|ticks|] == ticks;
  }

  /** Risk gate, strategy, fill lottery and entry price, while flat and in the window. */
  method Evaluate(c: BtConfig, rm: RiskManager, x: Ctx, before: Counts, ghost b: BtState)
    returns (position: Option<Position>, counts: Counts)
    requires rm.c == c.risk && c.earliest <= x.tInWindow <= c.latest
    requires b.risk == rm.state && b.position.None? && b.counts == before
    modifies rm
    ensures TickStep(c, b, x) == b.(risk := rm.state, position := position, counts := counts, nTicks := b.nTicks + 1)
  {
    position := None;
    counts := before.(evaluated := before.evaluated + 1);
    if !c.bypassRisk {
      var allowed := rm.CanEnter(x.risk);
      if !allowed {
        counts := counts.(riskSkip := counts.riskSkip + 1);
        return;
      }
    }
    if !x.enter {
      counts := counts.(skip := counts.skip + 1);
      return;
    }
    counts := counts.(enter := counts.enter + 1);
    if x.draw > c.fillProbability {
      counts := counts.(fillMiss := counts.fillMiss + 1);
      return;
    }
    var price := FillPrice(c, x);
    if price <= 0.0 {
      counts := counts.(priceDrop := counts.priceDrop + 1);
      return;
    }
    position := Some(Position(x.side, x.risk.ts, price));
  }

  method FindOpen(ticks: seq<Ctx>) returns (open: real)
    requires ticks != []
    ensures open == OpenPrice(ticks)
  {
    var i := 0;
    assert ticks[0..] == ticks;
    while i < |ticks|
      invariant 0 <= i <= |ticks|
      invariant FirstOpen(ticks[i..]) == FirstOpen(ticks)
    {
      if ticks[i].openPrice != 0.0 {
        return ticks[i].openPrice;
      }
      assert ticks[i..][1..] == ticks[i + 1..];
      i := i + 1;
    }
    open := ticks[0].spot;
  }
}
