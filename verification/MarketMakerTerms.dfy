/** The market-making step in plain terms: when a market is quoted, what rests on each
    side, and where every resting order of a run came from. */
module MarketMakerTerms {
  import opened Common
  import opened Quoting
  import opened LimitBook
  import opened MarketMaker
  import opened MarketMakerLoop
  import opened RestingQuotes
  import Guard = SafetyGuard

  // ----- when a market is quoted

  predicate StartsWith(s: string, prefix: string)
  {
    |prefix| <= |s| && forall i :: 0 <= i < |prefix| ==> s[i] == prefix[i]
  }

  /** The market is listened to, its price in the zone and outside the dead zone, its time in
      the quoting window and before the terminal one, and no kill is running. */
  lemma MayQuoteInPlainTerms(c: ValidConfig, s: Strategy, t: Tick)
    ensures var kill := Guard.MarketOf(s.guard, t.slug).killedUntil;
            var w := c.quoting.windowSeconds as real;
            MayQuote(c, s, t) <==>
              && (c.slugPattern.None? || StartsWith(t.slug, c.slugPattern.value))
              && c.zoneLo <= t.implied && t.implied <= c.zoneHi && (t.implied < c.deadLo || t.implied > c.deadHi)
              && c.entryStart <= t.tInWindow && t.tInWindow <= w - c.quoting.tauTerminal
              && t.tInWindow <= w - c.guard.tauTerminal
              && (kill == None || t.clock(0) >= kill.value)
  {
    if c.slugPattern.Some? {
      PrefixIsStart(t.slug, c.slugPattern.value);
    }
  }

  lemma PrefixIsStart(s: string, prefix: string)
    ensures prefix <= s <==> StartsWith(s, prefix)
  {
    if StartsWith(s, prefix) {
      assert s[..|prefix|] == prefix;
    }
  }

  // ----- what rests on a side

  /** Filling this many shares on the side would leave the position, at the market's price,
      beyond the cap. */
  predicate Overshoots(c: ValidConfig, q: real, t: Tick, side: Side, size: real)
  {
    var after := if side.YesUp? then q + size else q - size;
    after * t.implied > c.guard.cap || -(after * t.implied) > c.guard.cap
  }

  lemma BlockedInPlainTerms(c: ValidConfig, g: Guard.GuardState, t: Tick, side: Side, size: real)
    ensures SideBlocked(c, g, t, side, size) <==> Overshoots(c, Guard.Inventory(g, t.slug), t, side, size)
  {
    Signed(Guard.Inventory(g, t.slug), Sign(side), size, t.implied, c.guard.cap);
  }

  lemma Signed(q: real, sign: real, size: real, p: real, cap: real)
    requires sign == 1.0 || sign == -1.0
    ensures var after := if sign == 1.0 then q + size else q - size;
            Guard.Exceeds(q, sign, size, p, cap) <==> after * p > cap || -(after * p) > cap
  {
    var after := if sign == 1.0 then q + size else q - size;
    assert sign * size == if sign == 1.0 then size else -size;
    assert q + sign * size == after;
  }

  /** The shares of a new quote. */
  lemma SizeInPlainTerms(c: ValidConfig, s: Strategy, t: Tick)
    ensures SizeNow(c, s, t) == c.stake / (if Targets(c, s, t).0 > 0.001 then Targets(c, s, t).0 else 0.001)
    ensures Targets(c, s, t) == OptimalBidAsk(t.implied, Guard.Inventory(s.guard, t.slug), t.k, t.logTerm, c.quoting, t.tInWindow)
  {
  }

  /** The id of a quote: strategy, market, microseconds of the tick, side and seed. */
  lemma IdInPlainTerms(c: ValidConfig, t: Tick, side: Side)
    requires !side.NoSide?
    ensures CoidFor(c, t, side) == Coid(c.name, t.slug, (t.ts * 1000000.0 + 0.5).Floor, side, if side.YesUp? then "bid" else "ask")
  {
  }

  /** Nothing rests on a side that may not quote or would overshoot; a live quote that is
      less than a cent from its target stays; otherwise a new one at the target rests. */
  lemma RestingInPlainTerms(c: ValidConfig, s: Strategy, t: Tick, side: Side)
    requires !side.NoSide?
    ensures var size := SizeNow(c, s, t);
            var target := if side.YesUp? then Targets(c, s, t).0 else Targets(c, s, t).1;
            var e := Existing(s, t, side);
            Resting(c, s, t, side)
            == if !MayQuote(c, s, t) || Overshoots(c, Guard.Inventory(s.guard, t.slug), t, side, size) then None
               else if e.Some? && -0.01 < e.value.price - target < 0.01 then e
               else Some(LiveQuote(CoidFor(c, t, side), side, target, size))
  {
    BlockedInPlainTerms(c, s.guard, t, side, SizeNow(c, s, t));
    RestingFor(c, s, t, side, TargetOf(c, s, t, side), SizeNow(c, s, t));
  }

  lemma RestingFor(c: ValidConfig, s: Strategy, t: Tick, side: Side, target: real, size: real)
    ensures var e := Existing(s, t, side);
            SideResting(c, s, t, side, target, size)
            == if SideBlocked(c, s.guard, t, side, size) then None
               else if e.Some? && -0.01 < e.value.price - target < 0.01 then e
               else Some(LiveQuote(CoidFor(c, t, side), side, target, size))
  {
  }

  // ----- where orders come from

  /** The order of a quote placed on this tick. */
  ghost predicate PlacedOn(c: ValidConfig, t: Tick, o: LimitOrder)
  {
    && o.strategy == c.name && o.instrument == t.slug + "-YES.POLYMARKET" && o.tsPlaced == t.ts
    && o.ttl == (if c.ttlSeconds > 0 then Some(c.ttlSeconds as real) else None)
    && o.side == (if o.coid.side.YesUp? then Buy else Sell)
    && o.coid == Coid(c.name, t.slug, (t.ts * 1000000.0 + 0.5).Floor, o.coid.side, if o.coid.side.YesUp? then "bid" else "ask")
    && o.price > 0.0 && o.qty > 0.0
  }

  /** Quotes the strategy asks for: for this market, with the configured life and its seed. */
  ghost predicate AsksFor(c: ValidConfig, t: Tick, a: Action)
  {
    !a.CancelQuote? ==> a.quote == QuoteFor(c, t, a.quote.side, a.quote.price, a.quote.qty)
  }

  lemma {:induction false} DispatchPlaces(c: ValidConfig, orders: seq<LimitOrder>, actions: seq<Action>, t: Tick)
    requires forall i :: 0 <= i < |actions| ==> AsksFor(c, t, actions[i])
    ensures forall o :: o in DispatchAll(c, orders, actions, t).orders ==> o in orders || PlacedOn(c, t, o)
  {
    if actions != [] {
      var init := actions[..|actions| - 1];
      DispatchPlaces(c, orders, init, t);
      OnePlaces(c, DispatchAll(c, orders, init, t).orders, actions[|actions| - 1], t);
    }
  }

  lemma OnePlaces(c: ValidConfig, orders: seq<LimitOrder>, a: Action, t: Tick)
    requires AsksFor(c, t, a)
    ensures forall o :: o in Dispatch(c, orders, a, t).orders ==> o in orders || PlacedOn(c, t, o)
  {
    match a
    case PostQuote(_) =>
    case CancelQuote(coid) => WithoutMember(orders, {coid});
    case ReplaceQuote(replaced, _) => WithoutMember(orders, {replaced});
  }

  lemma OnTickAsks(c: ValidConfig, s: Strategy, t: Tick)
    ensures forall i :: 0 <= i < |OnTick(c, s, t).actions| ==> AsksFor(c, t, OnTick(c, s, t).actions[i])
  {
    if MayQuote(c, s, t) {
      TickIsTwoSteps(c, s, t);
    }
  }

  /** Every order resting after a tick rested before it or was placed on it. */
  lemma TickPlaces(c: ValidConfig, w: World, t: Tick)
    ensures forall o :: o in HandleTick(c, w, t).orders ==> o in w.orders || PlacedOn(c, t, o)
  {
    if !t.paused {
      var actions := OnTick(c, w.strategy, t).actions;
      var d := DispatchAll(c, w.orders, actions, t);
      OnTickAsks(c, w.strategy, t);
      DispatchPlaces(c, w.orders, actions, t);
      var inst := InstrumentYes(t.slug);
      WithoutMember(d.orders, Ids(Filled(d.orders, inst, t.implied, t.ts)) + Ids(Lapsed(d.orders, inst, t.ts)));
    }
  }

  /** Every order that rests in a run was placed on one of its ticks: with that tick's time,
      market and id, the configured life, and the book side of its quote. */
  lemma {:induction false} OrdersWerePlaced(c: ValidConfig, ticks: seq<Tick>, o: LimitOrder) returns (i: nat)
    requires o in RunTicks(c, ticks).orders
    ensures i < |ticks| && PlacedOn(c, ticks[i], o)
  {
    var init := ticks[..|ticks| - 1];
    TickPlaces(c, RunTicks(c, init), ticks[|ticks| - 1]);
    i := |init|;
    if o in RunTicks(c, init).orders {
      i := OrdersWerePlaced(c, init, o);
    }
  }

  // ----- what the driver does with an action

  /** A post that the global caps let through is placed; a replacement is placed if the old
      order was still there; a placement needs a positive price and size and a new id. */
  lemma DispatchInPlainTerms(c: ValidConfig, orders: seq<LimitOrder>, a: Action, t: Tick, o: LimitOrder)
    requires !a.CancelQuote? ==> o == OrderFor(c, t, a.quote)
    ensures var rest := if a.PostQuote? then orders
                        else Filter(NotIn({if a.CancelQuote? then a.coid else a.replaced}), orders);
            var tries := (a.PostQuote? && !(if a.quote.side.YesUp? then t.dropBid else t.dropAsk))
                         || (a.ReplaceQuote? && exists x :: x in orders && x.coid == a.replaced);
            var good := !o.side.Unknown? && o.price > 0.0 && o.qty > 0.0;
            var d := Dispatch(c, orders, a, t);
            && (d.raised <==> tries && !good)
            && (d.dropped <==> a.PostQuote? && !tries)
            && (!a.CancelQuote? ==> d.orders == rest + (if tries && good && o.coid !in Ids(rest) then [o] else []))
            && (a.CancelQuote? ==> d.orders == rest)
  {
    if a.ReplaceQuote? && a.replaced !in Ids(orders) {
      FilterAll(NotIn({a.replaced}), orders);
    }
  }

  /** The fills a tick adds: those of the matcher, unless the driver is paused, a placement
      raised an error, or the price is not strictly between 0 and 1. */
  lemma TickFillsInPlainTerms(c: ValidConfig, w: World, t: Tick)
    ensures var d := DispatchAll(c, w.orders, OnTick(c, w.strategy, t).actions, t);
            var hits := if !t.paused && !d.raised && 0.0 < t.implied < 1.0
                        then Filled(d.orders, t.slug + "-YES.POLYMARKET", t.implied, t.ts) else [];
            var fills := HandleTick(c, w, t).fills;
            && w.fills <= fills && FillsInPlainTerms(hits, t.ts, c.makerFeeBps, fills[|w.fills|..])
  {
    FillsArePlain(Filled(DispatchAll(c, w.orders, OnTick(c, w.strategy, t).actions, t).orders, InstrumentYes(t.slug), t.implied, t.ts),
                  t.ts, c.makerFeeBps);
  }
}
