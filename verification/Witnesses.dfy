/** Reachable runs in which the market-making loop does not keep what its documentation
    suggests: the exact cap, and agreement of ledger and book. */
module Witnesses {
  import opened Common
  import opened Quoting
  import opened LimitBook
  import opened MarketMaker
  import opened MarketMakerLoop
  import opened RestingQuotes
  import opened MarketMakerSync
  import opened InventoryCap
  import Guard = SafetyGuard

  predicate Sample(c: ValidConfig)
  {
    && c.slugPattern.None? && c.zoneLo == 0.1 && c.zoneHi == 0.5 && c.deadLo == 0.6 && c.deadHi == 0.7
    && c.entryStart == 0.0 && c.stake == 20.0
    && c.quoting.gamma == 0.0 && c.quoting.windowSeconds == 900 && c.quoting.tauTerminal == 30.0
    && c.quoting.spreadFloorBps == 100.0 && c.quoting.spreadCeilingBps == 100.0
    && c.guard.cap == 20.6 && c.guard.tauTerminal == 30.0
  }

  predicate Quiet(t: Tick, p: real)
  {
    t.tInWindow == 100.0 && t.implied == p && !t.paused
  }

  predicate Undropped(t: Tick) { !t.dropBid && !t.dropAsk }

  /** With no risk aversion and a fixed spread of one cent the quotes are half a cent away. */
  lemma SampleTargets(c: ValidConfig, s: Strategy, t: Tick)
    requires Sample(c) && Quiet(t, t.implied) && 0.2 <= t.implied <= 0.3
    ensures Targets(c, s, t) == (t.implied - 0.005, t.implied + 0.005)
  {
    assert c.quoting.gamma * SigmaSquared(t.implied, t.tInWindow, 900) == 0.0;
    assert Guard.Inventory(s.guard, t.slug) * c.quoting.gamma == 0.0;
  }

  lemma SampleMayQuote(c: ValidConfig, s: Strategy, t: Tick)
    requires Sample(c) && Quiet(t, t.implied) && 0.2 <= t.implied <= 0.3 && s.guard == Guard.EMPTY_GUARD
    ensures MayQuote(c, s, t) && AfterKillCheck(c, s, t) == s
  {
  }

  lemma SampleOpen(c: ValidConfig, s: Strategy, t: Tick, side: Side, qty: real)
    requires Sample(c) && s.guard == Guard.EMPTY_GUARD && t.implied > 0.0 && 0.0 <= qty * t.implied <= 20.6
    ensures !SideBlocked(c, s.guard, t, side, qty)
  {
    SignedSize(0.0, Sign(side), qty);
    assert (0.0 + Sign(side) * qty) * t.implied == if side.YesUp? then qty * t.implied else -(qty * t.implied);
  }

  function SampleQuote(c: ValidConfig, t: Tick, side: Side, price: real): LiveQuote
  {
    LiveQuote(CoidFor(c, t, side), side, price, 100.0)
  }

  function SampleOrder(c: ValidConfig, t: Tick, side: Side, price: real): LimitOrder
  {
    LimitOrder(CoidFor(c, t, side), c.name, InstrumentYes(t.slug), BookSideOf(side), price, 100.0, t.ts,
               if c.ttlSeconds > 0 then Some(c.ttlSeconds as real) else None)
  }

  /** Two quotes of 100 shares around 0.205. */
  lemma SampleFirst(c: ValidConfig, t: Tick)
    requires Sample(c) && Quiet(t, 0.205)
    ensures var r := OnTick(c, START.strategy, t);
            && r.strategy.guard == Guard.EMPTY_GUARD
            && Live(r.strategy.ledger, t.slug) == [SampleQuote(c, t, YesUp, 0.2), SampleQuote(c, t, YesDown, 0.21)]
            && r.actions == [PostQuote(QuoteFor(c, t, YesUp, 0.2, 100.0))] + [PostQuote(QuoteFor(c, t, YesDown, 0.21, 100.0))]
  {
    var s := START.strategy;
    SampleTargets(c, s, t);
    SampleMayQuote(c, s, t);
    assert NominalSize(c, 0.2) == 100.0;
    SampleOpen(c, s, t, YesUp, 100.0);
    var up := SideStep(c, s, t, YesUp, 0.2, 100.0, t.clock(1));
    assert Live(up.strategy.ledger, t.slug) == [SampleQuote(c, t, YesUp, 0.2)];
    SampleOpen(c, up.strategy, t, YesDown, 100.0);
    assert ExistingFor([SampleQuote(c, t, YesUp, 0.2)], YesDown).None?;
  }

  lemma SampleBook(c: ValidConfig, t: Tick)
    requires Sample(c) && Quiet(t, 0.205) && Undropped(t)
    ensures DispatchAll(c, [], [PostQuote(QuoteFor(c, t, YesUp, 0.2, 100.0))] + [PostQuote(QuoteFor(c, t, YesDown, 0.21, 100.0))], t)
         == Dispatched([SampleOrder(c, t, YesUp, 0.2), SampleOrder(c, t, YesDown, 0.21)], false, false)
  {
    var bid, ask := PostQuote(QuoteFor(c, t, YesUp, 0.2, 100.0)), PostQuote(QuoteFor(c, t, YesDown, 0.21, 100.0));
    DispatchConcat(c, [], [bid], [ask], t);
    DispatchSingle(c, [], bid, t);
    DispatchSingle(c, [SampleOrder(c, t, YesUp, 0.2)], ask, t);
  }

  lemma SomeMember(s: seq<LimitOrder>)
    ensures s != [] ==> exists o :: o in s
  {
    if s != [] {
      assert s[0] in s;
    }
  }

  /** A tick that hits nothing changes nothing. */
  lemma NothingHit(orders: seq<LimitOrder>, instrument: string, px: real, ts: real)
    requires forall o :: o in orders ==> !ExpiredAt(o, ts) && !Crossed(o, px)
    ensures Filled(orders, instrument, px, ts) == [] && AfterTick(orders, instrument, px, ts) == orders
  {
    var filled, lapsed := Filled(orders, instrument, px, ts), Lapsed(orders, instrument, ts);
    FilledMember(orders, instrument, px, ts);
    SomeMember(filled);
    SomeMember(lapsed);
    assert Ids(filled) + Ids(lapsed) == {};
    FilterAll(NotIn({}), orders);
  }

  /** Neither order is hit at 0.205, so both rest. */
  lemma AfterFirst(c: ValidConfig, t: Tick)
    requires Sample(c) && Quiet(t, 0.205) && Undropped(t)
    ensures var w := HandleTick(c, START, t);
            && w.strategy.guard == Guard.EMPTY_GUARD
            && Live(w.strategy.ledger, t.slug) == [SampleQuote(c, t, YesUp, 0.2), SampleQuote(c, t, YesDown, 0.21)]
            && w.orders == [SampleOrder(c, t, YesUp, 0.2), SampleOrder(c, t, YesDown, 0.21)]
  {
    SampleFirst(c, t);
    SampleBook(c, t);
    NothingHit([SampleOrder(c, t, YesUp, 0.2), SampleOrder(c, t, YesDown, 0.21)], InstrumentYes(t.slug), t.implied, t.ts);
  }

  /** At 0.21 both quotes are less than a cent off and stay, at their old size. */
  lemma SampleSecond(c: ValidConfig, s: Strategy, first: Tick, t: Tick)
    requires Sample(c) && Quiet(t, 0.21) && first.slug == t.slug && s.guard == Guard.EMPTY_GUARD
    requires Live(s.ledger, t.slug) == [SampleQuote(c, first, YesUp, 0.2), SampleQuote(c, first, YesDown, 0.21)]
    ensures OnTick(c, s, t) == Reply(s, [])
  {
    SampleTargets(c, s, t);
    SampleMayQuote(c, s, t);
    var size := NominalSize(c, 0.205);
    assert size * 0.205 == 20.0;
    SampleOpen(c, s, t, YesUp, size);
    SampleOpen(c, s, t, YesDown, size);
    var quotes := Live(s.ledger, t.slug);
    assert ExistingFor(quotes, YesUp) == Some(quotes[0]);
    assert quotes[1..] == [quotes[1]];
    assert ExistingFor(quotes, YesDown) == Some(quotes[1]);
  }

  /** The ask is hit, alone. */
  lemma SampleHit(c: ValidConfig, first: Tick, t: Tick)
    requires Quiet(t, 0.21) && first.slug == t.slug && c.ttlSeconds == 0
    ensures Filled([SampleOrder(c, first, YesUp, 0.2), SampleOrder(c, first, YesDown, 0.21)], InstrumentYes(t.slug), 0.21, t.ts)
         == [SampleOrder(c, first, YesDown, 0.21)]
  {
    var bid, ask := SampleOrder(c, first, YesUp, 0.2), SampleOrder(c, first, YesDown, 0.21);
    OneHit(bid, ask, InstrumentYes(t.slug), 0.21, t.ts);
  }

  lemma FilterPair(p: LimitOrder -> bool, a: LimitOrder, b: LimitOrder)
    ensures Filter(p, [a, b]) == (if p(a) then [a] else []) + if p(b) then [b] else []
  {
    assert [a, b][..1] == [a] && [a][..0] == [];
    assert Filter(p, [a]) == if p(a) then [a] else [];
  }

  /** Of two orders of the instrument only the second is hit. */
  lemma OneHit(a: LimitOrder, b: LimitOrder, instrument: string, px: real, ts: real)
    requires a.instrument == instrument && b.instrument == instrument && !Hit(px, ts)(a) && Hit(px, ts)(b)
    ensures Filled([a, b], instrument, px, ts) == [b]
  {
    FillsAreFifo([a, b], instrument, px, ts);
    FilterPair(Of(instrument), a, b);
    FilterPair(Hit(px, ts), a, b);
    SingleMultiset(Filled([a, b], instrument, px, ts), b);
  }

  lemma SingleMultiset(s: seq<LimitOrder>, x: LimitOrder)
    requires multiset(s) == multiset{x}
    ensures s == [x]
  {
    assert |multiset(s)| == 1;
    assert s[0] in multiset(s);
  }

  lemma SampleNet(c: ValidConfig, w: World, first: Tick, t: Tick)
    requires Sample(c) && c.ttlSeconds == 0 && Quiet(t, 0.21) && first.slug == t.slug && w.strategy.guard == Guard.EMPTY_GUARD
    requires Live(w.strategy.ledger, t.slug) == [SampleQuote(c, first, YesUp, 0.2), SampleQuote(c, first, YesDown, 0.21)]
    requires w.orders == [SampleOrder(c, first, YesUp, 0.2), SampleOrder(c, first, YesDown, 0.21)]
    ensures NetFills(FillsOf(FilledNow(c, w, t), t.ts, c.makerFeeBps), InstrumentYes(t.slug)) == -100.0
  {
    SampleSecond(c, w.strategy, first, t);
    DispatchEmpty(c, w.orders, t);
    SampleHit(c, first, t);
    var fills := FillsOf([SampleOrder(c, first, YesDown, 0.21)], t.ts, c.makerFeeBps);
    assert fills[..0] == [];
    assert NetFills(fills, InstrumentYes(t.slug)) == -100.0;
  }

  /** The exact cap is not kept: two ticks, no drops, no expiry, one ask filled. */
  lemma CapCanBeExceeded(c: ValidConfig, first: Tick, t: Tick)
    requires Sample(c) && c.ttlSeconds == 0 && Quiet(first, 0.205) && Undropped(first) && Quiet(t, 0.21) && first.slug == t.slug
    ensures WithinCap(c, RunTicks(c, [first]).strategy, t)
    ensures !WithinCap(c, RunTicks(c, [first, t]).strategy, t)
  {
    TwoTicks(c, first, t);
    var w := RunTicks(c, [first]);
    AfterFirst(c, first);
    SampleNet(c, w, first, t);
    RunKeepsInv(c, [first]);
    MovedByFills(c, w, t);
    assert Guard.Inventory(RunTicks(c, [first, t]).strategy.guard, t.slug) == -100.0;
  }

  lemma TwoTicks(c: ValidConfig, first: Tick, t: Tick)
    ensures RunTicks(c, [first]) == HandleTick(c, START, first)
    ensures RunTicks(c, [first, t]) == HandleTick(c, RunTicks(c, [first]), t)
  {
    assert [first][..0] == [] && [first, t][..1] == [first];
  }

  // ----- ledger and book can part

  lemma StartAgrees(c: ValidConfig)
    ensures Inv(c, START) && InSync(START)
  {
  }

  lemma SampleStart(c: ValidConfig, t: Tick)
    requires Sample(c) && Quiet(t, 0.205)
    ensures MayQuote(c, START.strategy, t) && SizeNow(c, START.strategy, t) == 100.0
    ensures TargetOf(c, START.strategy, t, YesUp) == 0.2 && TargetOf(c, START.strategy, t, YesDown) == 0.21
    ensures forall side :: Existing(START.strategy, t, side).None?
    ensures forall side :: !SideBlocked(c, START.strategy.guard, t, side, 100.0)
  {
    SampleTargets(c, START.strategy, t);
    SampleMayQuote(c, START.strategy, t);
    assert NominalSize(c, 0.2) == 100.0;
    forall side ensures !SideBlocked(c, START.strategy.guard, t, side, 100.0) {
      SampleOpen(c, START.strategy, t, side, 100.0);
    }
  }

  /** On the first tick a side slips exactly if the global caps drop its quote. */
  lemma SampleSlips(c: ValidConfig, t: Tick)
    requires Sample(c) && Quiet(t, 0.205)
    ensures Slip(c, START, t) <==> t.dropBid || t.dropAsk
  {
    SampleStart(c, t);
  }

  /** A quote that the global caps drop stays in the ledger without an order. */
  lemma DroppedQuoteParts(c: ValidConfig, t: Tick)
    requires Sample(c) && Quiet(t, 0.205) && (t.dropBid || t.dropAsk)
    ensures !InSync(RunTicks(c, [t]))
  {
    assert [t][..0] == [];
    StartAgrees(c);
    SampleSlips(c, t);
    SyncStep(c, START, t);
  }

  /** So does a quote whose order expires: ten seconds later both quotes are kept. */
  lemma ExpiredQuoteParts(c: ValidConfig, first: Tick, t: Tick)
    requires Sample(c) && c.ttlSeconds == 10 && Quiet(first, 0.205) && Undropped(first)
    requires Quiet(t, 0.205) && t.slug == first.slug && t.ts == first.ts + 10.0
    ensures InSync(RunTicks(c, [first])) && !InSync(RunTicks(c, [first, t]))
  {
    TwoTicks(c, first, t);
    var w := RunTicks(c, [first]);
    StartAgrees(c);
    SampleSlips(c, first);
    SyncStep(c, START, first);
    AfterFirst(c, first);
    StepKeepsInv(c, START, first);
    SampleLapses(c, w, first, t);
    SyncStep(c, w, t);
  }

  lemma SampleLapses(c: ValidConfig, w: World, first: Tick, t: Tick)
    requires Sample(c) && c.ttlSeconds == 10 && Quiet(t, 0.205) && t.slug == first.slug && t.ts == first.ts + 10.0
    requires w.strategy.guard == Guard.EMPTY_GUARD
    requires Live(w.strategy.ledger, t.slug) == [SampleQuote(c, first, YesUp, 0.2), SampleQuote(c, first, YesDown, 0.21)]
    requires w.orders == [SampleOrder(c, first, YesUp, 0.2), SampleOrder(c, first, YesDown, 0.21)]
    ensures Slip(c, w, t)
  {
    SampleKeeps(c, w.strategy, first, t);
    var bid := w.orders[0];
    assert bid in w.orders && bid.coid.slug == t.slug && bid.coid.side == YesUp;
    assert ExpiredAt(bid, t.ts);
    assert Lapses(c, w, t, YesUp);
  }

  lemma SampleKeeps(c: ValidConfig, s: Strategy, first: Tick, t: Tick)
    requires Sample(c) && Quiet(t, 0.205) && first.slug == t.slug && s.guard == Guard.EMPTY_GUARD
    requires Live(s.ledger, t.slug) == [SampleQuote(c, first, YesUp, 0.2), SampleQuote(c, first, YesDown, 0.21)]
    ensures Keeps(c, s, t, YesUp)
  {
    SampleTargets(c, s, t);
    SampleMayQuote(c, s, t);
    assert NominalSize(c, 0.2) == 100.0;
    SampleOpen(c, s, t, YesUp, 100.0);
    var quotes := Live(s.ledger, t.slug);
    assert ExistingFor(quotes, YesUp) == Some(quotes[0]);
  }
}
