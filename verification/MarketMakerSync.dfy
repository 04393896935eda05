/** Ledger and book hold the same quotes exactly as long as nothing is dropped, refused
    or expired, which can be told from the state before the tick. */
module MarketMakerSync {
  import opened Common
  import opened LimitBook
  import opened MarketMaker
  import opened MarketMakerLoop
  import opened RestingQuotes
  import Guard = SafetyGuard

  ghost predicate SyncOn(ledger: Ledger, ids: set<Coid>, slug: string, side: Side)
  {
    forall q :: q in Live(ledger, slug) && q.side == side ==> q.coid in ids
  }

  ghost predicate InSync(w: World)
  {
    forall slug, q :: q in Live(w.strategy.ledger, slug) ==> q.coid in Ids(w.orders)
  }

  function Opposite(side: Side): Side { if side.YesUp? then YesDown else YesUp }

  /** A side that agreed before agrees after its step exactly if nothing was refused
      or raised; the other side is not affected. */
  lemma SideSync(c: ValidConfig, s: Strategy, orders: seq<LimitOrder>, t: Tick, side: Side,
                 price: real, qty: real, now: real)
    requires LedgerOk(c, s.ledger) && BookOk(c, s.ledger, orders) && Listens(c, t.slug)
    requires SizeOk(c, qty) && (c.stake <= 0.0 ==> qty <= 0.0) && !side.NoSide?
    requires SyncOn(s.ledger, Ids(orders), t.slug, side)
    ensures var r := SideStep(c, s, t, side, price, qty, now);
            var d := DispatchAll(c, orders, r.actions, t);
            && (SyncOn(r.strategy.ledger, Ids(d.orders), t.slug, side) <==> !d.raised && !d.dropped)
            && (SyncOn(r.strategy.ledger, Ids(d.orders), t.slug, Opposite(side))
                <==> SyncOn(s.ledger, Ids(orders), t.slug, Opposite(side)))
  {
    var r := SideStep(c, s, t, side, price, qty, now);
    var d := DispatchAll(c, orders, r.actions, t);
    SideLedger(c, s, t, side, price, qty, now);
    SideBook(c, s, orders, t, side, price, qty, now);
    OtherSideSync(c, s.ledger, r.strategy.ledger, Ids(orders), Ids(d.orders), t.slug, side);
    SideSyncSelf(c, s, orders, t, side, price, qty, now);
  }

  lemma OtherSideSync(c: ValidConfig, before: Ledger, after: Ledger, ids: set<Coid>, ids': set<Coid>, slug: string, side: Side)
    requires LedgerOk(c, before) && !side.NoSide? && SameElsewhere(ids, ids', slug, side)
    requires forall q: LiveQuote :: q.side != side ==> (q in Live(after, slug) <==> q in Live(before, slug))
    ensures SyncOn(after, ids', slug, Opposite(side)) <==> SyncOn(before, ids, slug, Opposite(side))
  {
    LiveOk(c, before, slug);
    forall q | q in Live(before, slug) && q.side == Opposite(side)
      ensures q.coid in ids' <==> q.coid in ids
    {
      var i :| 0 <= i < |Live(before, slug)| && Live(before, slug)[i] == q;
      assert q.coid.side != side;
    }
  }

  lemma SideSyncSelf(c: ValidConfig, s: Strategy, orders: seq<LimitOrder>, t: Tick, side: Side,
                     price: real, qty: real, now: real)
    requires LedgerOk(c, s.ledger) && BookOk(c, s.ledger, orders) && Listens(c, t.slug)
    requires SizeOk(c, qty) && (c.stake <= 0.0 ==> qty <= 0.0) && !side.NoSide?
    requires SyncOn(s.ledger, Ids(orders), t.slug, side)
    ensures var r := SideStep(c, s, t, side, price, qty, now);
            var d := DispatchAll(c, orders, r.actions, t);
            SyncOn(r.strategy.ledger, Ids(d.orders), t.slug, side) <==> !d.raised && !d.dropped
  {
    var r := SideStep(c, s, t, side, price, qty, now);
    var quotes := Live(s.ledger, t.slug);
    var existing := ExistingFor(quotes, side);
    var quote := LiveQuote(CoidFor(c, t, side), side, price, qty);
    ExistingForFinds(quotes, side);
    SideLedger(c, s, t, side, price, qty, now);
    DispatchEmpty(c, orders, t);
    if r.actions != [] {
      DispatchSingle(c, orders, r.actions[0], t);
      if existing.None? {
        PostKeepsBook(c, s, orders, t, side, price, qty);
        assert quote in Live(r.strategy.ledger, t.slug);
      } else if !SideBlocked(c, s.guard, t, side, qty) {
        var e := existing.value;
        ReplaceKeepsBook(c, s, orders, t, side, price, qty, e);
        UntrackKeepsOthers(c, s.ledger, t.slug, e.coid);
        LiveOk(c, s.ledger, t.slug);
        assert e.coid in Ids(orders);
        assert quote in Live(r.strategy.ledger, t.slug);
        forall q | q in Live(r.strategy.ledger, t.slug) && q.side == side ensures q == quote {
          if q in Live(Untrack(s.ledger, t.slug, e.coid), t.slug) {
            OneQuotePerSide(c, t.slug, quotes, q, e);
          }
        }
      }
    }
  }

  /** What the tick itself would report: a refused or dropped placement, or an expiry. */
  ghost predicate Reported(c: ValidConfig, w: World, t: Tick)
  {
    var d := DispatchAll(c, w.orders, OnTick(c, w.strategy, t).actions, t);
    !t.paused && (d.dropped || d.raised
                  || (MatcherRuns(t, d) && Lapsed(d.orders, InstrumentYes(t.slug), t.ts) != []))
  }

  /** A quote that is kept, but whose order has expired. */
  ghost predicate Lapses(c: ValidConfig, w: World, t: Tick, side: Side)
  {
    Keeps(c, w.strategy, t, side) &&
    exists o :: o in w.orders && o.coid.slug == t.slug && o.coid.side == side && ExpiredAt(o, t.ts)
  }

  /** Something will take an order from the book, or keep one out, behind the ledger's
      back: told from the state before the tick. */
  ghost predicate Slip(c: ValidConfig, w: World, t: Tick)
  {
    && !t.paused
    && (|| Slips(c, w.strategy, t, YesUp) || Slips(c, w.strategy, t, YesDown)
        || (0.0 < t.implied < 1.0 && (Lapses(c, w, t, YesUp) || Lapses(c, w, t, YesDown))))
  }

  /** The ledger of one market against the resting ids. */
  ghost predicate MarketSync(ledger: Ledger, ids: set<Coid>, slug: string)
  {
    forall q :: q in Live(ledger, slug) ==> q.coid in ids
  }

  lemma TwoSides(c: ValidConfig, ledger: Ledger, ids: set<Coid>, slug: string)
    requires LedgerOk(c, ledger)
    ensures MarketSync(ledger, ids, slug) <==> SyncOn(ledger, ids, slug, YesUp) && SyncOn(ledger, ids, slug, YesDown)
  {
    LiveOk(c, ledger, slug);
  }

  lemma DispatchSync(c: ValidConfig, w: World, t: Tick)
    requires Inv(c, w) && MarketSync(w.strategy.ledger, Ids(w.orders), t.slug)
    ensures var r := OnTick(c, w.strategy, t);
            var d := DispatchAll(c, w.orders, r.actions, t);
            && (MarketSync(r.strategy.ledger, Ids(d.orders), t.slug) <==> !d.raised && !d.dropped)
            && (forall slug :: slug != t.slug ==> Live(r.strategy.ledger, slug) == Live(w.strategy.ledger, slug))
            && (forall coid: Coid :: coid.slug != t.slug ==> (coid in Ids(d.orders) <==> coid in Ids(w.orders)))
  {
    var r := OnTick(c, w.strategy, t);
    var d := DispatchAll(c, w.orders, r.actions, t);
    var s := AfterKillCheck(c, w.strategy, t);
    if !Listens(c, t.slug) {
      DispatchEmpty(c, w.orders, t);
    } else if !MayQuote(c, w.strategy, t) {
      CancelAllBook(c, s, w.orders, t);
    } else {
      var (bid, ask) := Targets(c, w.strategy, t);
      var qty := NominalSize(c, bid);
      var up := SideStep(c, s, t, YesUp, bid, qty, t.clock(1));
      var down := SideStep(c, up.strategy, t, YesDown, ask, qty, t.clock(2));
      var d1 := DispatchAll(c, w.orders, up.actions, t);
      SizeIsOk(c, bid);
      TwoSides(c, s.ledger, Ids(w.orders), t.slug);
      SideLedger(c, s, t, YesUp, bid, qty, t.clock(1));
      SideBook(c, s, w.orders, t, YesUp, bid, qty, t.clock(1));
      SideSync(c, s, w.orders, t, YesUp, bid, qty, t.clock(1));
      SideLedger(c, up.strategy, t, YesDown, ask, qty, t.clock(2));
      DispatchConcat(c, w.orders, up.actions, down.actions, t);
      TwoSides(c, down.strategy.ledger, Ids(d.orders), t.slug);
      if !d1.raised {
        SideBook(c, up.strategy, d1.orders, t, YesDown, ask, qty, t.clock(2));
        SideSync(c, up.strategy, d1.orders, t, YesDown, ask, qty, t.clock(2));
      }
    }
  }

  lemma MatchedHere(c: ValidConfig, s: Strategy, orders: seq<LimitOrder>, t: Tick)
    requires LedgerOk(c, s.ledger) && BookOk(c, s.ledger, orders)
    ensures var inst := InstrumentYes(t.slug);
            var filled, lapsed := Filled(orders, inst, t.implied, t.ts), Lapsed(orders, inst, t.ts);
            && (forall o :: o in filled || o in lapsed ==>
                  o in orders && o.coid.slug == t.slug && QuoteOf(o) in Live(s.ledger, t.slug))
            && Ids(filled) !! Ids(lapsed)
  {
    var inst := InstrumentYes(t.slug);
    var filled, lapsed := Filled(orders, inst, t.implied, t.ts), Lapsed(orders, inst, t.ts);
    FilledMember(orders, inst, t.implied, t.ts);
    forall o | o in filled || o in lapsed
      ensures o.coid.slug == t.slug && QuoteOf(o) in Live(s.ledger, t.slug)
    {
      assert Backed(c, s.ledger, o);
      InstrumentInjective(o.coid.slug, t.slug);
    }
    forall x, o | x in filled && o in lapsed ensures x.coid != o.coid {
      if x.coid == o.coid {
        DistinctMember(orders, o, x);
      }
    }
  }

  /** Dropping filled quotes and removing filled and lapsed orders keeps agreement
      exactly if nothing lapsed. */
  lemma SyncThroughRemoval(before: Ledger, after: Ledger, slug: string, ids: set<Coid>, filled: set<Coid>, lapsed: set<Coid>)
    requires forall q :: q in Live(after, slug) <==> q in Live(before, slug) && q.coid !in filled
    requires filled <= ids && filled !! lapsed
    requires forall coid :: coid in lapsed ==> exists q :: q in Live(before, slug) && q.coid == coid
    ensures MarketSync(after, ids - filled - lapsed, slug) <==> MarketSync(before, ids, slug) && lapsed == {}
  {
    if coid :| coid in lapsed {
      var q :| q in Live(before, slug) && q.coid == coid;
      assert q in Live(after, slug);
    }
  }

  /** Matching preserves agreement exactly if nothing expired. */
  lemma MatchSync(c: ValidConfig, s: Strategy, orders: seq<LimitOrder>, t: Tick)
    requires LedgerOk(c, s.ledger) && BookOk(c, s.ledger, orders)
    ensures var inst := InstrumentYes(t.slug);
            var filled := Filled(orders, inst, t.implied, t.ts);
            var after := OnFills(c, s, t, FillsOf(filled, t.ts, c.makerFeeBps));
            && (MarketSync(after.ledger, Ids(AfterTick(orders, inst, t.implied, t.ts)), t.slug)
                <==> MarketSync(s.ledger, Ids(orders), t.slug) && Lapsed(orders, inst, t.ts) == [])
            && (forall coid: Coid :: coid.slug != t.slug ==>
                  (coid in Ids(AfterTick(orders, inst, t.implied, t.ts)) <==> coid in Ids(orders)))
  {
    var inst := InstrumentYes(t.slug);
    var filled, lapsed := Filled(orders, inst, t.implied, t.ts), Lapsed(orders, inst, t.ts);
    var after := OnFills(c, s, t, FillsOf(filled, t.ts, c.makerFeeBps)).ledger;
    MatchKeepsInv(c, s, orders, t);
    MatchedHere(c, s, orders, t);
    forall coid | coid in Ids(lapsed) ensures exists q :: q in Live(s.ledger, t.slug) && q.coid == coid {
      var o :| o in lapsed && o.coid == coid;
      assert QuoteOf(o) in Live(s.ledger, t.slug);
    }
    SyncThroughRemoval(s.ledger, after, t.slug, Ids(orders), Ids(filled), Ids(lapsed));
    assert lapsed == [] <==> Ids(lapsed) == {} by {
      if lapsed != [] {
        assert lapsed[0].coid in Ids(lapsed);
      }
    }
  }

  /** From agreement, ledger and book agree after a tick if and only if it reports no
      refused, dropped or expired quote. */
  lemma ReportedIff(c: ValidConfig, w: World, t: Tick)
    requires Inv(c, w) && InSync(w)
    ensures InSync(HandleTick(c, w, t)) <==> !Reported(c, w, t)
  {
    if !t.paused {
      var r := OnTick(c, w.strategy, t);
      var d := DispatchAll(c, w.orders, r.actions, t);
      var w' := HandleTick(c, w, t);
      DispatchSync(c, w, t);
      OnTickKeepsInv(c, w, t);
      if MatcherRuns(t, d) {
        MatchSync(c, r.strategy, d.orders, t);
        MatchKeepsInv(c, r.strategy, d.orders, t);
      }
      assert MarketSync(w'.strategy.ledger, Ids(w'.orders), t.slug) <==> !Reported(c, w, t);
      OneMarketDecides(c, w, w', t.slug);
    }
  }

  /** If nothing changed elsewhere, agreement is agreement on the one market. */
  lemma OneMarketDecides(c: ValidConfig, w: World, w': World, slug: string)
    requires Inv(c, w) && InSync(w)
    requires forall other :: other != slug ==> Live(w'.strategy.ledger, other) == Live(w.strategy.ledger, other)
    requires forall coid: Coid :: coid.slug != slug ==> (coid in Ids(w'.orders) <==> coid in Ids(w.orders))
    ensures InSync(w') <==> MarketSync(w'.strategy.ledger, Ids(w'.orders), slug)
  {
    if MarketSync(w'.strategy.ledger, Ids(w'.orders), slug) {
      forall other, q | q in Live(w'.strategy.ledger, other) ensures q.coid in Ids(w'.orders) {
        if other != slug {
          assert q in Live(w.strategy.ledger, other);
          LiveOk(c, w.strategy.ledger, other);
          var i :| 0 <= i < |Live(w.strategy.ledger, other)| && Live(w.strategy.ledger, other)[i] == q;
        }
      }
    }
  }

  // ----- the report, told from the state before the tick

  lemma ExistingRests(w: World, t: Tick, side: Side)
    requires InSync(w)
    ensures Existing(w.strategy, t, side).Some? ==> Existing(w.strategy, t, side).value.coid in Ids(w.orders)
  {
    ExistingForFinds(Live(w.strategy.ledger, t.slug), side);
  }

  lemma UpSlips(c: ValidConfig, w: World, t: Tick)
    requires Inv(c, w) && InSync(w) && MayQuote(c, w.strategy, t)
    ensures var d := DispatchAll(c, w.orders, UpStep(c, w.strategy, t).actions, t);
            && (d.raised || d.dropped <==> Slips(c, w.strategy, t, YesUp))
            && SameElsewhere(Ids(w.orders), Ids(d.orders), t.slug, YesUp)
  {
    var s := w.strategy;
    var s1 := AfterKillCheck(c, s, t);
    var price, qty := TargetOf(c, s, t, YesUp), SizeNow(c, s, t);
    StepsAreIndependent(c, s, t);
    ExistingRests(w, t, YesUp);
    SameFate(c, s, s1, t, YesUp, price, qty);
    SideSlipsIff(c, s1, w.orders, t, YesUp, price, qty, t.clock(1));
    SizeIsOk(c, Targets(c, s, t).0);
    SideBook(c, s1, w.orders, t, YesUp, price, qty, t.clock(1));
  }

  lemma DownSlips(c: ValidConfig, w: World, t: Tick, orders: seq<LimitOrder>)
    requires Inv(c, w) && InSync(w) && MayQuote(c, w.strategy, t)
    requires SameElsewhere(Ids(w.orders), Ids(orders), t.slug, YesUp)
    ensures var d := DispatchAll(c, orders, DownStep(c, w.strategy, t).actions, t);
            d.raised || d.dropped <==> Slips(c, w.strategy, t, YesDown)
  {
    var s := w.strategy;
    var up := UpStep(c, s, t).strategy;
    var price, qty := TargetOf(c, s, t, YesDown), SizeNow(c, s, t);
    StepsAreIndependent(c, s, t);
    ExistingRests(w, t, YesDown);
    ExistingIsOnSide(c, s, t, YesDown);
    SameFate(c, s, up, t, YesDown, price, qty);
    SideSlipsIff(c, up, orders, t, YesDown, price, qty, t.clock(2));
  }

  lemma ExistingIsOnSide(c: ValidConfig, s: Strategy, t: Tick, side: Side)
    requires LedgerOk(c, s.ledger)
    ensures Existing(s, t, side).Some? ==> Existing(s, t, side).value.coid.side == side
  {
    ExistingForFinds(Live(s.ledger, t.slug), side);
    LiveOk(c, s.ledger, t.slug);
  }

  /** Dispatching fails exactly if one of the sides slips. */
  lemma DispatchSlipsIff(c: ValidConfig, w: World, t: Tick)
    requires Inv(c, w) && InSync(w)
    ensures var d := DispatchAll(c, w.orders, OnTick(c, w.strategy, t).actions, t);
            d.raised || d.dropped <==> Slips(c, w.strategy, t, YesUp) || Slips(c, w.strategy, t, YesDown)
  {
    var s := w.strategy;
    if MayQuote(c, s, t) {
      TickIsTwoSteps(c, s, t);
      UpSlips(c, w, t);
      var up, down := UpStep(c, s, t).actions, DownStep(c, s, t).actions;
      DispatchConcat(c, w.orders, up, down, t);
      DownSlips(c, w, t, DispatchAll(c, w.orders, up, t).orders);
    } else if Listens(c, t.slug) {
      CancelAllBook(c, AfterKillCheck(c, s, t), w.orders, t);
    } else {
      DispatchEmpty(c, w.orders, t);
    }
  }

  /** An order placed on this very tick. */
  predicate JustPlaced(t: Tick, o: LimitOrder)
  {
    o.tsPlaced == t.ts && (o.ttl.Some? ==> o.ttl.value > 0.0)
  }

  lemma {:induction false} DispatchOrigin(c: ValidConfig, orders: seq<LimitOrder>, actions: seq<Action>, t: Tick)
    ensures forall o :: o in DispatchAll(c, orders, actions, t).orders ==> o in orders || JustPlaced(t, o)
  {
    if actions != [] {
      var init := actions[..|actions| - 1];
      DispatchOrigin(c, orders, init, t);
      OneOrigin(c, DispatchAll(c, orders, init, t).orders, actions[|actions| - 1], t);
    }
  }

  lemma OneOrigin(c: ValidConfig, orders: seq<LimitOrder>, a: Action, t: Tick)
    ensures forall o :: o in Dispatch(c, orders, a, t).orders ==> o in orders || JustPlaced(t, o)
  {
    match a
    case PostQuote(_) =>
    case CancelQuote(coid) => WithoutMember(orders, {coid});
    case ReplaceQuote(replaced, _) => WithoutMember(orders, {replaced});
  }

  /** An order that no action names stays. */
  lemma {:induction false} DispatchSpares(c: ValidConfig, orders: seq<LimitOrder>, actions: seq<Action>, t: Tick, o: LimitOrder)
    requires o in orders && forall i :: 0 <= i < |actions| ==> TouchesOnly(actions[i], Opposite(o.coid.side))
    requires !o.coid.side.NoSide?
    ensures o in DispatchAll(c, orders, actions, t).orders
  {
    if actions != [] {
      var init, a := actions[..|actions| - 1], actions[|actions| - 1];
      DispatchSpares(c, orders, init, t, o);
      var before := DispatchAll(c, orders, init, t).orders;
      assert TouchesOnly(a, Opposite(o.coid.side));
      match a
      case PostQuote(_) =>
      case CancelQuote(coid) => WithoutMember(before, {coid});
      case ReplaceQuote(replaced, _) => WithoutMember(before, {replaced});
    }
  }

  /** The order of a kept quote survives the dispatch. */
  lemma KeptStays(c: ValidConfig, w: World, t: Tick, o: LimitOrder)
    requires Inv(c, w) && o in w.orders && !o.coid.side.NoSide? && Keeps(c, w.strategy, t, o.coid.side)
    ensures o in DispatchAll(c, w.orders, OnTick(c, w.strategy, t).actions, t).orders
  {
    var s := w.strategy;
    var up := UpStep(c, s, t);
    TickIsTwoSteps(c, s, t);
    StepsAreIndependent(c, s, t);
    SideActions(c, AfterKillCheck(c, s, t), t, YesUp, TargetOf(c, s, t, YesUp), SizeNow(c, s, t), t.clock(1));
    SideActions(c, up.strategy, t, YesDown, TargetOf(c, s, t, YesDown), SizeNow(c, s, t), t.clock(2));
    SameFate(c, s, AfterKillCheck(c, s, t), t, YesUp, TargetOf(c, s, t, YesUp), SizeNow(c, s, t));
    SameFate(c, s, up.strategy, t, YesDown, TargetOf(c, s, t, YesDown), SizeNow(c, s, t));
    var actions := OnTick(c, s, t).actions;
    assert actions == if o.coid.side.YesUp? then DownStep(c, s, t).actions else up.actions;
    DispatchSpares(c, w.orders, actions, t, o);
  }

  lemma SomeLapsed(orders: seq<LimitOrder>, instrument: string, ts: real)
    ensures Lapsed(orders, instrument, ts) != []
       <==> exists o :: o in orders && o.instrument == instrument && ExpiredAt(o, ts)
  {
    FilledMember(orders, instrument, 0.0, ts);
    var lapsed := Lapsed(orders, instrument, ts);
    if lapsed != [] {
      assert lapsed[0] in lapsed;
    }
  }

  /** An order that expires on the tick belongs to a kept quote. */
  lemma ExpiredWasKept(c: ValidConfig, w: World, t: Tick, o: LimitOrder)
    requires Inv(c, w) && o.instrument == InstrumentYes(t.slug) && ExpiredAt(o, t.ts)
    requires o in DispatchAll(c, w.orders, OnTick(c, w.strategy, t).actions, t).orders
    ensures Lapses(c, w, t, o.coid.side) && !o.coid.side.NoSide?
  {
    var r := OnTick(c, w.strategy, t);
    OnTickKeepsInv(c, w, t);
    DispatchOrigin(c, w.orders, r.actions, t);
    assert Backed(c, r.strategy.ledger, o);
    InstrumentInjective(o.coid.slug, t.slug);
    SidesMatch(c, r.strategy.ledger, o);
    RestingIsLive(c, w, t, o.coid.side);
    OrderOnSide(c, w.strategy, w.orders, t, o.coid.side, o);
    RestsWhereItWas(c, w.strategy, t, o.coid.side, QuoteOf(o));
  }

  /** An existing quote that also rests after the reaction was kept. */
  lemma RestsWhereItWas(c: ValidConfig, s: Strategy, t: Tick, side: Side, q: LiveQuote)
    requires Existing(s, t, side) == Some(q) && Resting(c, s, t, side) == Some(q)
    ensures Keeps(c, s, t, side)
  {
  }

  /** Under agreement the lapses of the sides are what the matcher finds expired. */
  lemma LapsesIff(c: ValidConfig, w: World, t: Tick)
    requires Inv(c, w)
    ensures Lapsed(DispatchAll(c, w.orders, OnTick(c, w.strategy, t).actions, t).orders, InstrumentYes(t.slug), t.ts) != []
       <==> Lapses(c, w, t, YesUp) || Lapses(c, w, t, YesDown)
  {
    var orders := DispatchAll(c, w.orders, OnTick(c, w.strategy, t).actions, t).orders;
    var inst := InstrumentYes(t.slug);
    SomeLapsed(orders, inst, t.ts);
    if o :| o in orders && o.instrument == inst && ExpiredAt(o, t.ts) {
      ExpiredWasKept(c, w, t, o);
    }
    forall side: Side | !side.NoSide? && Lapses(c, w, t, side)
      ensures exists o :: o in orders && o.instrument == inst && ExpiredAt(o, t.ts)
    {
      var o :| o in w.orders && o.coid.slug == t.slug && o.coid.side == side && ExpiredAt(o, t.ts);
      assert Backed(c, w.strategy.ledger, o);
      KeptStays(c, w, t, o);
    }
  }

  /** What a tick reports can be told before it. */
  lemma SlipIff(c: ValidConfig, w: World, t: Tick)
    requires Inv(c, w) && InSync(w)
    ensures Reported(c, w, t) <==> Slip(c, w, t)
  {
    DispatchSlipsIff(c, w, t);
    LapsesIff(c, w, t);
  }

  /** From agreement, a tick keeps ledger and book in agreement if and only if no side
      that places a quote is refused or dropped, and no kept quote has expired: a
      condition on the state before the tick and the tick alone. */
  lemma SyncStep(c: ValidConfig, w: World, t: Tick)
    requires Inv(c, w) && InSync(w)
    ensures InSync(HandleTick(c, w, t)) <==> !Slip(c, w, t)
  {
    ReportedIff(c, w, t);
    SlipIff(c, w, t);
  }

  /** Nothing can slip: no TTL, no global caps, and a configuration that cannot raise. */
  ghost predicate Airtight(c: ValidConfig, ticks: seq<Tick>)
  {
    && c.ttlSeconds <= 0 && c.stake > 0.0 && c.zoneLo > -0.005
    && forall i :: 0 <= i < |ticks| ==> !ticks[i].dropBid && !ticks[i].dropAsk
  }

  lemma NoDrops(c: ValidConfig, orders: seq<LimitOrder>, actions: seq<Action>, t: Tick)
    requires !t.dropBid && !t.dropAsk
    ensures !DispatchAll(c, orders, actions, t).dropped
  {
  }

  lemma NothingLapses(c: ValidConfig, ledger: Ledger, orders: seq<LimitOrder>, inst: string, ts: real)
    requires BookOk(c, ledger, orders) && c.ttlSeconds <= 0
    ensures Lapsed(orders, inst, ts) == []
  {
    forall o | o in Queue(orders, inst) ensures !LapsedAt(ts)(o) {
      QueueMember(orders, inst, o);
      assert Backed(c, ledger, o);
    }
    FilterNone(LapsedAt(ts), Queue(orders, inst));
  }

  lemma AirtightTick(c: ValidConfig, w: World, t: Tick)
    requires Inv(c, w) && Airtight(c, [t])
    ensures !Reported(c, w, t)
  {
    var r := OnTick(c, w.strategy, t);
    assert !([t][0].dropBid) && !([t][0].dropAsk);
    OnTickKeepsInv(c, w, t);
    NoDrops(c, w.orders, r.actions, t);
    NothingLapses(c, r.strategy.ledger, DispatchAll(c, w.orders, r.actions, t).orders, InstrumentYes(t.slug), t.ts);
  }

  /** Without TTL and global-cap drops ledger and book hold the same quotes after
      every tick of every run. */
  lemma {:induction false} RunStaysInSync(c: ValidConfig, ticks: seq<Tick>)
    requires Airtight(c, ticks)
    ensures InSync(RunTicks(c, ticks))
    ensures forall slug :: (set q | q in Live(RunTicks(c, ticks).strategy.ledger, slug))
                        == (set o | o in RunTicks(c, ticks).orders && o.coid.slug == slug :: QuoteOf(o))
  {
    if ticks != [] {
      var init, t := ticks[..|ticks| - 1], ticks[|ticks| - 1];
      RunStaysInSync(c, init);
      RunKeepsInv(c, init);
      AirtightTick(c, RunTicks(c, init), t);
      ReportedIff(c, RunTicks(c, init), t);
    }
    RunKeepsInv(c, ticks);
    SyncIsEquality(c, RunTicks(c, ticks));
  }

  lemma SyncIsEquality(c: ValidConfig, w: World)
    requires Inv(c, w) && InSync(w)
    ensures forall slug :: (set q | q in Live(w.strategy.ledger, slug))
                        == (set o | o in w.orders && o.coid.slug == slug :: QuoteOf(o))
  {
    forall slug
      ensures (set q | q in Live(w.strategy.ledger, slug)) == (set o | o in w.orders && o.coid.slug == slug :: QuoteOf(o))
    {
      var quotes := Live(w.strategy.ledger, slug);
      forall q | q in quotes ensures exists o :: o in w.orders && o.coid.slug == slug && QuoteOf(o) == q {
        var o :| o in w.orders && o.coid == q.coid;
        LiveOk(c, w.strategy.ledger, slug);
        assert Backed(c, w.strategy.ledger, o);
        OneQuotePerSide(c, slug, quotes, q, QuoteOf(o));
      }
      forall o | o in w.orders && o.coid.slug == slug ensures QuoteOf(o) in quotes {
        assert Backed(c, w.strategy.ledger, o);
      }
    }
  }
}
