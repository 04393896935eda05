/** What a backtest records, from the raw ticks: every trade was entered on a tick that
    allowed it, at that tick's price, won or lost by the market's own prices, and paid and
    charged accordingly; and the day's loss, summed over the trades themselves, is bounded. */
module BacktestBooks {
  import opened Common
  import opened Risk
  import opened Settlement
  import opened Backtest

  // ----- the prices of a market, from its ticks

  /** `p` is the first nonzero open price, or the first spot if there is none. */
  ghost predicate IsOpenPrice(ticks: seq<Ctx>, p: real)
  {
    if exists i :: 0 <= i < |ticks| && ticks[i].openPrice != 0.0
    then exists i :: 0 <= i < |ticks| && ticks[i].openPrice != 0.0 && p == ticks[i].openPrice
                     && forall j :: 0 <= j < i ==> ticks[j].openPrice == 0.0
    else ticks != [] && p == ticks[0].spot
  }

  lemma {:induction false} FirstOpenIsFirst(ticks: seq<Ctx>)
    ensures FirstOpen(ticks) == 0.0 <==> forall i :: 0 <= i < |ticks| ==> ticks[i].openPrice == 0.0
    ensures FirstOpen(ticks) != 0.0 ==>
              exists i :: 0 <= i < |ticks| && ticks[i].openPrice != 0.0 && FirstOpen(ticks) == ticks[i].openPrice
                          && forall j :: 0 <= j < i ==> ticks[j].openPrice == 0.0
  {
    if ticks != [] {
      var rest := ticks[1..];
      FirstOpenIsFirst(rest);
      if ticks[0].openPrice != 0.0 {
        assert FirstOpen(ticks) == ticks[0].openPrice;
      } else {
        assert forall i :: 1 <= i < |ticks| ==> ticks[i] == rest[i - 1];
        if FirstOpen(rest) != 0.0 {
          var i :| 0 <= i < |rest| && rest[i].openPrice != 0.0 && FirstOpen(rest) == rest[i].openPrice
                   && forall j :: 0 <= j < i ==> rest[j].openPrice == 0.0;
          assert ticks[i + 1].openPrice != 0.0 && forall j :: 0 <= j < i + 1 ==> ticks[j].openPrice == 0.0;
        }
      }
    }
  }

  lemma OpenPriceIsOpen(ticks: seq<Ctx>)
    requires ticks != []
    ensures IsOpenPrice(ticks, OpenPrice(ticks))
  {
    FirstOpenIsFirst(ticks);
  }

  /** The price a market settles at: the loader's, else the last tick's chainlink price, else its spot. */
  ghost predicate IsSettlePrice(m: Market, p: real)
  {
    match m.source
    case FromLoader(price) => price == Some(p)
    case FromTicks =>
      m.ticks != [] && var last := m.ticks[|m.ticks| - 1]; p == if last.chainlink != 0.0 then last.chainlink else last.spot
  }

  // ----- one trade

  /** The price of an entry: the ask of the side plus the slippage on its mid, at most 0.99. */
  ghost predicate IsEntryPrice(c: BtConfig, x: Ctx, p: real)
  {
    var bid, ask := if x.side.YesUp? then x.yesBid else x.noBid, if x.side.YesUp? then x.yesAsk else x.noAsk;
    var slipped := ask + (bid + ask) / 2.0 * c.slippageBps / 10000.0;
    p == if slipped < 0.99 then slipped else 0.99
  }

  /** The tick on which a position was entered. */
  ghost predicate EnteredOn(c: BtConfig, x: Ctx, side: Side, entryPrice: real)
  {
    && x.enter && c.earliest <= x.tInWindow <= c.latest && x.draw <= c.fillProbability
    && side == x.side && IsEntryPrice(c, x, entryPrice) && entryPrice > 0.0
  }

  /** What a trade must record of the market it was made in. */
  ghost predicate Recorded(c: BtConfig, m: Market, t: Trade, open: real, settle: real)
  {
    && IsOpenPrice(m.ticks, open) && IsSettlePrice(m, settle) && t.slug == m.slug && t.entryPrice > 0.0
    && (t.won <==> open > 0.0 && settle > 0.0 && (t.side.YesUp? <==> settle >= open))
    && t.pnl + t.fee == (if t.won then c.stake / t.entryPrice - c.stake else -c.stake)
    && t.fee == (if c.applyFee then c.feeK * t.entryPrice * (1.0 - t.entryPrice) * c.stake else 0.0)
    && m.ticks != [] && t.exitTs == (if m.ticks[0].windowCloseTs != 0.0 then m.ticks[0].windowCloseTs else m.ticks[|m.ticks| - 1].risk.ts)
  }

  /** Recorded, and entered on one of the market's ticks. */
  ghost predicate Explained(c: BtConfig, m: Market, t: Trade)
  {
    && (exists open, settle :: Recorded(c, m, t, open, settle))
    && exists j :: 0 <= j < |m.ticks| && EnteredOn(c, m.ticks[j], t.side, t.entryPrice)
  }

  lemma FillPriceIsEntryPrice(c: BtConfig, x: Ctx)
    ensures IsEntryPrice(c, x, FillPrice(c, x))
  {
    var bid, ask := if x.side.YesUp? then x.yesBid else x.noBid, if x.side.YesUp? then x.yesAsk else x.noAsk;
    assert (if x.side.YesUp? then (x.yesBid + x.yesAsk) / 2.0 else (x.noBid + x.noAsk) / 2.0) == (bid + ask) / 2.0;
  }

  lemma TradeIsRecorded(c: BtConfig, b: BtState, m: Market)
    requires Replayed(m) && b.position.Some? && b.position.value.entryPrice > 0.0
    ensures exists open, settle :: Recorded(c, m, TradeOf(c, b, m), open, settle)
  {
    var t := TradeOf(c, b, m);
    var settle := if m.source.FromLoader? then m.source.price.value else FinalPrice(m.ticks);
    OpenPriceIsOpen(m.ticks);
    PaysByOutcome(t.entryPrice, c.stake, t.won);
    FeeInClosedForm(c.feeK, t.entryPrice, c.stake);
    assert Recorded(c, m, t, OpenPrice(m.ticks), settle);
  }

  lemma PaysByOutcome(entry: real, stake: real, won: bool)
    requires entry > 0.0
    ensures ResolvePnl(entry, stake, won) == if won then stake / entry - stake else -stake
  {
  }

  lemma FeeInClosedForm(k: real, entry: real, stake: real)
    ensures ParabolicFee(k, entry, stake) == k * entry * (1.0 - entry) * stake
  {
  }

  // ----- one tick and one market, in plain terms

  /** How far a tick gets: outside, stopped by risk, skipped, missed, without a price, or entered. */
  lemma TickInPlainTerms(c: BtConfig, b: BtState, x: Ctx, price: real)
    requires IsEntryPrice(c, x, price)
    ensures var evaluated := b.position.None? && c.earliest <= x.tInWindow <= c.latest;
            var allowed := evaluated && (c.bypassRisk || Allowed(c.risk, b.risk, x.risk));
            var enters := allowed && x.enter;
            var filled := enters && x.draw <= c.fillProbability;
            var b' := TickStep(c, b, x);
            && b'.nTicks == b.nTicks + 1 && b'.trades == b.trades && b'.nMarkets == b.nMarkets
            && b'.counts.evaluated == b.counts.evaluated + (if evaluated then 1 else 0)
            && b'.counts.riskSkip == b.counts.riskSkip + (if evaluated && !allowed then 1 else 0)
            && b'.counts.skip == b.counts.skip + (if allowed && !x.enter then 1 else 0)
            && b'.counts.enter == b.counts.enter + (if enters then 1 else 0)
            && b'.counts.fillMiss == b.counts.fillMiss + (if enters && x.draw > c.fillProbability then 1 else 0)
            && b'.counts.priceDrop == b.counts.priceDrop + (if filled && price <= 0.0 then 1 else 0)
            && b'.position == (if filled && price > 0.0 then Some(Position(x.side, x.risk.ts, price)) else b.position)
            && b'.risk == (if evaluated && !c.bypassRisk then Next(c.risk, b.risk, Ask(x.risk)) else b.risk)
  {
    FillPriceIsEntryPrice(c, x);
    assert price == FillPrice(c, x);
  }

  /** A market with ticks is iterated; unless its settle price is missing it is replayed,
      and the position it leaves becomes the one new trade and is booked. */
  lemma MarketInPlainTerms(c: BtConfig, b: BtState, m: Market)
    requires Accounts(b) && b.position.None?
    ensures var b' := MarketStep(c, b, m);
            var replayed := m.ticks != [] && m.source != FromLoader(None);
            && b'.nMarkets == b.nMarkets + (if m.ticks == [] then 0 else 1)
            && (!replayed ==> b' == b.(nMarkets := b'.nMarkets))
            && (replayed ==>
                  var p := Ticks(c, b.(nMarkets := b.nMarkets + 1), m.ticks).position;
                  && |b'.trades| == |b.trades| + (if p.Some? then 1 else 0) && b.trades <= b'.trades
                  && (p.Some? ==> var t := b'.trades[|b.trades|];
                        t.idx == |b.trades| && t.side == p.value.side && t.entryPrice == p.value.entryPrice))
  {
    if m.ticks != [] && Replayed(m) {
      TicksAccount(c, b.(nMarkets := b.nMarkets + 1), m.ticks);
    }
  }

  /** A position entered while replaying some ticks was entered on one of them. */
  ghost predicate Held(c: BtConfig, b: BtState, ticks: seq<Ctx>)
  {
    b.position.Some? ==>
      exists j :: 0 <= j < |ticks| && EnteredOn(c, ticks[j], b.position.value.side, b.position.value.entryPrice)
  }

  lemma TickEnters(c: BtConfig, b: BtState, x: Ctx)
    requires b.position.None?
    ensures var p := TickStep(c, b, x).position;
            p.Some? ==> EnteredOn(c, x, p.value.side, p.value.entryPrice)
  {
    FillPriceIsEntryPrice(c, x);
  }

  lemma TickHolds(c: BtConfig, b: BtState, x: Ctx)
    requires b.position.Some?
    ensures TickStep(c, b, x).position == b.position
  {
  }

  lemma {:induction false} TicksHold(c: BtConfig, b: BtState, ticks: seq<Ctx>)
    requires b.position.None?
    ensures Held(c, Ticks(c, b, ticks), ticks)
  {
    if ticks != [] {
      var init, x := ticks[..|ticks| - 1], ticks[|ticks| - 1];
      var before := Ticks(c, b, init);
      TicksHold(c, b, init);
      if before.position.Some? {
        TickHolds(c, before, x);
        var j :| 0 <= j < |init| && EnteredOn(c, init[j], before.position.value.side, before.position.value.entryPrice);
        assert ticks[j] == init[j];
      } else {
        TickEnters(c, before, x);
        assert ticks[|init|] == x;
      }
    }
  }

  lemma MarketExplains(c: BtConfig, b: BtState, m: Market)
    requires Accounts(b) && b.position.None?
    ensures var b' := MarketStep(c, b, m);
            |b'.trades| > |b.trades| ==> Explained(c, m, b'.trades[|b.trades|])
  {
    if m.ticks != [] && Replayed(m) {
      var b1 := b.(nMarkets := b.nMarkets + 1);
      var b2 := Ticks(c, b1, m.ticks);
      TicksAccount(c, b1, m.ticks);
      TicksHold(c, b1, m.ticks);
      if b2.position.Some? {
        TradeIsRecorded(c, b2, m);
      }
    }
  }

  ghost predicate AllExplained(c: BtConfig, trades: seq<Trade>, markets: seq<Market>, owner: seq<nat>)
  {
    && |owner| == |trades|
    && (forall i :: 0 <= i < |trades| ==> owner[i] < |markets| && Explained(c, markets[owner[i]], trades[i]))
    && (forall i, j :: 0 <= i < j < |owner| ==> owner[i] < owner[j])
  }

  /** In every backtest each trade has a market of its own, in the order of iteration, and
      records what that market's ticks and prices say. */
  lemma {:induction false} TradesAreExplained(c: BtConfig, risk: RiskState, markets: seq<Market>) returns (owner: seq<nat>)
    ensures AllExplained(c, Markets(c, risk, markets).trades, markets, owner)
  {
    owner := [];
    if markets != [] {
      var init, m := markets[..|markets| - 1], markets[|markets| - 1];
      var before, after := Markets(c, risk, init).trades, Markets(c, risk, markets).trades;
      owner := TradesAreExplained(c, risk, init);
      BacktestAccounts(c, risk, init);
      MarketAccounts(c, Markets(c, risk, init), m);
      MarketExplains(c, Markets(c, risk, init), m);
      ExplainedLater(c, before, init, m, owner);
      assert init + [m] == markets;
      if |after| > |before| {
        ExplainedSnoc(c, before, init, m, owner, after[|before|]);
        assert after == before + [after[|before|]];
        owner := owner + [|init|];
      }
    }
  }

  lemma ExplainedLater(c: BtConfig, trades: seq<Trade>, markets: seq<Market>, m: Market, owner: seq<nat>)
    requires AllExplained(c, trades, markets, owner)
    ensures AllExplained(c, trades, markets + [m], owner)
  {
    forall i | 0 <= i < |trades| ensures owner[i] < |markets + [m]| && Explained(c, (markets + [m])[owner[i]], trades[i]) {
      assert (markets + [m])[owner[i]] == markets[owner[i]];
    }
  }

  lemma ExplainedSnoc(c: BtConfig, trades: seq<Trade>, markets: seq<Market>, m: Market, owner: seq<nat>, t: Trade)
    requires AllExplained(c, trades, markets, owner) && Explained(c, m, t)
    ensures AllExplained(c, trades + [t], markets + [m], owner + [|markets|])
  {
    ExplainedLater(c, trades, markets, m, owner);
    assert (markets + [m])[|markets|] == m;
  }

  // ----- the events the risk manager sees

  function TickEvents(c: BtConfig, b: BtState, x: Ctx): seq<RiskEvent>
  {
    if b.position.Some? || !(c.earliest <= x.tInWindow <= c.latest) || c.bypassRisk then [] else [Ask(x.risk)]
  }

  function TicksEvents(c: BtConfig, b: BtState, ticks: seq<Ctx>): seq<RiskEvent>
  {
    if ticks == [] then []
    else
      var init := ticks[..|ticks| - 1];
      TicksEvents(c, b, init) + TickEvents(c, Ticks(c, b, init), ticks[|ticks| - 1])
  }

  function MarketEvents(c: BtConfig, b: BtState, m: Market): seq<RiskEvent>
  {
    if !Replayed(m) then []
    else
      var b1 := b.(nMarkets := b.nMarkets + 1);
      var b2 := Ticks(c, b1, m.ticks);
      TicksEvents(c, b1, m.ticks) + CloseEvents(c, b2, m)
  }

  function RunEvents(c: BtConfig, risk: RiskState, markets: seq<Market>): seq<RiskEvent>
  {
    if markets == [] then []
    else
      var init := markets[..|markets| - 1];
      RunEvents(c, risk, init) + MarketEvents(c, Markets(c, risk, init), markets[|markets| - 1])
  }

  lemma {:induction false} RunConcat(c: RiskConfig, s: RiskState, a: seq<RiskEvent>, b: seq<RiskEvent>)
    ensures RunFrom(c, s, a + b) == RunFrom(c, RunFrom(c, s, a), b)
  {
    if b == [] {
      assert a + b == a;
    } else {
      assert (a + b)[..|a + b| - 1] == a + b[..|b| - 1];
      RunConcat(c, s, a, b[..|b| - 1]);
    }
  }

  lemma RunOne(c: RiskConfig, s: RiskState, e: RiskEvent)
    ensures RunFrom(c, s, [e]) == Next(c, s, e)
  {
    assert [e][..0] == [] && RunFrom(c, s, [e][..0]) == s;
  }

  lemma TickRisk(c: BtConfig, b: BtState, x: Ctx)
    ensures TickStep(c, b, x).risk == RunFrom(c.risk, b.risk, TickEvents(c, b, x)) && Booked(TickEvents(c, b, x)) == []
  {
    RunOne(c.risk, b.risk, Ask(x.risk));
    OneBooked(Ask(x.risk));
  }

  lemma {:induction false} TicksRisk(c: BtConfig, b: BtState, ticks: seq<Ctx>)
    ensures Ticks(c, b, ticks).risk == RunFrom(c.risk, b.risk, TicksEvents(c, b, ticks)) && Booked(TicksEvents(c, b, ticks)) == []
  {
    if ticks != [] {
      var init, x := ticks[..|ticks| - 1], ticks[|ticks| - 1];
      TicksRisk(c, b, init);
      TickRisk(c, Ticks(c, b, init), x);
      RunConcat(c.risk, b.risk, TicksEvents(c, b, init), TickEvents(c, Ticks(c, b, init), x));
      BookedConcat(TicksEvents(c, b, init), TickEvents(c, Ticks(c, b, init), x));
    }
  }

  function Results(trades: seq<Trade>): seq<real>
  {
    seq(|trades|, i requires 0 <= i < |trades| => trades[i].pnl)
  }

  function CloseEvents(c: BtConfig, b: BtState, m: Market): seq<RiskEvent>
    requires Replayed(m)
  {
    if b.position.None? || c.bypassRisk then []
    else var t := TradeOf(c, b, m); [Book(t.pnl, t.exitTs)]
  }

  lemma BookOne(c: RiskConfig, s: RiskState, pnl: real, at: real)
    ensures Closed(c, s, pnl, at) == RunFrom(c, s, [Book(pnl, at)]) && Booked([Book(pnl, at)]) == [pnl]
  {
    RunOne(c, s, Book(pnl, at));
    OneBooked(Book(pnl, at));
  }

  lemma ResultsSnoc(trades: seq<Trade>, t: Trade)
    ensures Results(trades + [t]) == Results(trades) + [t.pnl]
  {
  }

  lemma CloseRisk(c: BtConfig, b: BtState, m: Market)
    requires !c.bypassRisk && Replayed(m)
    ensures var b' := CloseMarket(c, b, m);
            && b'.risk == RunFrom(c.risk, b.risk, CloseEvents(c, b, m))
            && Results(b'.trades) == Results(b.trades) + Booked(CloseEvents(c, b, m))
  {
    if b.position.Some? {
      BookOne(c.risk, b.risk, TradeOf(c, b, m).pnl, TradeOf(c, b, m).exitTs);
      ResultsSnoc(b.trades, TradeOf(c, b, m));
    }
  }

  /** A market's events move the risk state as its replay does, and book its trade's result. */
  lemma MarketRisk(c: BtConfig, b: BtState, m: Market)
    requires !c.bypassRisk && Accounts(b) && b.position.None?
    ensures var b' := MarketStep(c, b, m);
            && b'.risk == RunFrom(c.risk, b.risk, MarketEvents(c, b, m))
            && Results(b'.trades) == Results(b.trades) + Booked(MarketEvents(c, b, m))
  {
    if Replayed(m) {
      var b1 := b.(nMarkets := b.nMarkets + 1);
      var b2 := Ticks(c, b1, m.ticks);
      TicksAccount(c, b1, m.ticks);
      TicksRisk(c, b1, m.ticks);
      CloseRisk(c, b2, m);
      RunConcat(c.risk, b.risk, TicksEvents(c, b1, m.ticks), CloseEvents(c, b2, m));
      BookedConcat(TicksEvents(c, b1, m.ticks), CloseEvents(c, b2, m));
    }
  }

  /** The risk manager of a run goes through the run's events, whose bookings are the trades. */
  lemma {:induction false} RunRisk(c: BtConfig, risk: RiskState, markets: seq<Market>)
    requires !c.bypassRisk
    ensures Markets(c, risk, markets).risk == RunFrom(c.risk, risk, RunEvents(c, risk, markets))
    ensures Results(Markets(c, risk, markets).trades) == Booked(RunEvents(c, risk, markets))
  {
    if markets != [] {
      var init, m := markets[..|markets| - 1], markets[|markets| - 1];
      RunRisk(c, risk, init);
      BacktestAccounts(c, risk, init);
      MarketRisk(c, Markets(c, risk, init), m);
      RunConcat(c.risk, risk, RunEvents(c, risk, init), MarketEvents(c, Markets(c, risk, init), m));
      BookedConcat(RunEvents(c, risk, init), MarketEvents(c, Markets(c, risk, init), m));
    }
  }

  // ----- the daily loss, over the trades

  /** The events since the last roll are the last ones, and so are their bookings. */
  lemma BookedLast(events: seq<RiskEvent>)
    ensures var n := |Booked(SinceRoll(events))|;
            n <= |Booked(events)| && Booked(SinceRoll(events)) == Booked(events)[|Booked(events)| - n..]
  {
    if events != [] {
      var k := SinceRollIsTheLastDay(events);
      assert events == events[..k] + events[k..];
      BookedConcat(events[..k], events[k..]);
    }
  }

  /** The events of a run so far: of the markets replayed and of the ticks of the next one. */
  function EventsSoFar(c: BtConfig, day: int, markets: seq<Market>, ticks: seq<Ctx>): seq<RiskEvent>
  {
    RunEvents(c, NewDay(day), markets) + TicksEvents(c, Markets(c, NewDay(day), markets), ticks)
  }

  lemma FiguresSoFar(c: BtConfig, day: int, markets: seq<Market>, ticks: seq<Ctx>)
    requires !c.bypassRisk
    ensures var b := Markets(c, NewDay(day), markets);
            var today := Booked(SinceRoll(EventsSoFar(c, day, markets, ticks)));
            && Ticks(c, b, ticks).risk.dailyPnl == Sum(today) && Ticks(c, b, ticks).risk.dailyTrades == |today|
            && Booked(EventsSoFar(c, day, markets, ticks)) == Results(b.trades)
  {
    var b := Markets(c, NewDay(day), markets);
    RunRisk(c, NewDay(day), markets);
    TicksRisk(c, b, ticks);
    RunConcat(c.risk, NewDay(day), RunEvents(c, NewDay(day), markets), TicksEvents(c, b, ticks));
    BookedConcat(RunEvents(c, NewDay(day), markets), TicksEvents(c, b, ticks));
    DailyFigures(c.risk, day, EventsSoFar(c, day, markets, ticks));
  }

  /** The trades behind the bookings since the last change of date. */
  function LastTrades(trades: seq<Trade>, events: seq<RiskEvent>): seq<Trade>
  {
    var n := |Booked(SinceRoll(events))|;
    if n <= |trades| then trades[|trades| - n..] else trades
  }

  lemma LastTradesAreBooked(trades: seq<Trade>, events: seq<RiskEvent>)
    requires Booked(events) == Results(trades)
    ensures Results(LastTrades(trades, events)) == Booked(SinceRoll(events))
  {
    BookedLast(events);
  }

  /** The trades of a run closed since the last change of date. */
  function TradesToday(c: BtConfig, day: int, markets: seq<Market>, ticks: seq<Ctx>): seq<Trade>
  {
    LastTrades(Markets(c, NewDay(day), markets).trades, EventsSoFar(c, day, markets, ticks))
  }

  /** The risk manager's figures are those of these trades. */
  lemma FiguresAreTheTrades(c: BtConfig, day: int, markets: seq<Market>, ticks: seq<Ctx>)
    requires !c.bypassRisk
    ensures var risk := Ticks(c, Markets(c, NewDay(day), markets), ticks).risk;
            var today := Results(TradesToday(c, day, markets, ticks));
            risk.dailyPnl == Sum(today) && risk.dailyTrades == |today|
  {
    FiguresSoFar(c, day, markets, ticks);
    LastTradesAreBooked(Markets(c, NewDay(day), markets).trades, EventsSoFar(c, day, markets, ticks));
  }

  lemma LimitsInPlainTerms(c: BtConfig, b: BtState)
    requires WithinLimits(c, b)
    ensures b.risk.dailyTrades <= c.risk.tradeLimit
    ensures b.risk.dailyPnl >= -(c.risk.lossLimit + c.stake * (1.0 + c.feeK / 4.0))
  {
  }

  /** In every risk-on backtest with a new risk manager, at every point, the trades closed
      since the last change of date are within their limit, and their results add up to no
      less than minus the loss limit and one stake with the largest fee. */
  lemma TradesOfADayAreBounded(c: BtConfig, day: int, markets: seq<Market>, ticks: seq<Ctx>)
    requires !c.bypassRisk && c.risk.lossLimit >= 0.0 && c.risk.tradeLimit >= 0 && c.stake >= 0.0 && 0.0 <= c.feeK <= 1.0
    ensures |Results(TradesToday(c, day, markets, ticks))| <= c.risk.tradeLimit
    ensures Sum(Results(TradesToday(c, day, markets, ticks))) >= -(c.risk.lossLimit + c.stake * (1.0 + c.feeK / 4.0))
  {
    FreshManagerWithinLimits(c, day);
    DailyLossIsBounded(c, NewDay(day), markets, ticks);
    LimitsInPlainTerms(c, Ticks(c, Markets(c, NewDay(day), markets), ticks));
    FiguresAreTheTrades(c, day, markets, ticks);
  }
}
