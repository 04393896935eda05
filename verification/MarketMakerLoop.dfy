/** What every run of the market-making loop keeps: resting orders are backed by the
    ledger, inventory is the net of the fills, and it is bounded. */
module MarketMakerLoop {
  import opened Common
  import opened Quoting
  import opened LimitBook
  import opened MarketMaker
  import Guard = SafetyGuard

  // ----- the invariant

  /** The quotes of one market: at most one per side, each under its own id. */
  ghost predicate QuotesOk(c: ValidConfig, slug: string, quotes: seq<LiveQuote>)
  {
    && (forall i :: 0 <= i < |quotes| ==>
          quotes[i].coid.slug == slug && quotes[i].coid.side == quotes[i].side && !quotes[i].side.NoSide?)
    && (forall i, j :: 0 <= i < j < |quotes| ==> quotes[i].side != quotes[j].side)
    && (quotes != [] ==> Listens(c, slug))
    && (c.stake > 0.0 ==> forall i :: 0 <= i < |quotes| ==> 0.0 < quotes[i].qty <= c.stake / 0.001)
  }

  ghost predicate LedgerOk(c: ValidConfig, ledger: Ledger)
  {
    forall slug :: slug in ledger ==> QuotesOk(c, slug, ledger[slug])
  }

  function QuoteOf(o: LimitOrder): LiveQuote
  {
    LiveQuote(o.coid, o.coid.side, o.price, o.qty)
  }

  /** A resting order with its ledger entry: same id, side, price and size. */
  ghost predicate Backed(c: ValidConfig, ledger: Ledger, o: LimitOrder)
  {
    && o.strategy == c.name
    && o.instrument == InstrumentYes(o.coid.slug)
    && o.side == BookSideOf(o.coid.side)
    && (o.ttl.Some? ==> c.ttlSeconds > 0)
    && WellPriced(o)
    && QuoteOf(o) in Live(ledger, o.coid.slug)
  }

  ghost predicate BookOk(c: ValidConfig, ledger: Ledger, orders: seq<LimitOrder>)
  {
    && Distinct(orders)
    && (forall o :: o in orders ==> Backed(c, ledger, o))
    && (c.stake <= 0.0 ==> orders == [])
  }

  ghost predicate Inv(c: ValidConfig, w: World)
  {
    LedgerOk(c, w.strategy.ledger) && BookOk(c, w.strategy.ledger, w.orders)
  }

  lemma LiveOk(c: ValidConfig, ledger: Ledger, slug: string)
    requires LedgerOk(c, ledger)
    ensures QuotesOk(c, slug, Live(ledger, slug))
  {
  }

  lemma OneQuotePerSide(c: ValidConfig, slug: string, quotes: seq<LiveQuote>, a: LiveQuote, b: LiveQuote)
    requires QuotesOk(c, slug, quotes) && a in quotes && b in quotes
    requires a.side == b.side || a.coid == b.coid
    ensures a == b
  {
    var i :| 0 <= i < |quotes| && quotes[i] == a;
    var j :| 0 <= j < |quotes| && quotes[j] == b;
    assert quotes[i].side == quotes[j].side;
    assert i == j;
  }

  lemma InstrumentInjective(a: string, b: string)
    ensures InstrumentYes(a) == InstrumentYes(b) <==> a == b
  {
    if InstrumentYes(a) == InstrumentYes(b) {
      assert |a| == |b|;
      assert a == InstrumentYes(a)[..|a|];
      assert b == InstrumentYes(b)[..|b|];
    }
  }

  // ----- ledger operations

  lemma {:induction false} ExistingForFinds(quotes: seq<LiveQuote>, side: Side)
    ensures var e := ExistingFor(quotes, side);
            if e.Some? then e.value in quotes && e.value.side == side
            else forall q :: q in quotes ==> q.side != side
  {
    if quotes != [] && quotes[0].side != side {
      ExistingForFinds(quotes[1..], side);
      assert quotes == [quotes[0]] + quotes[1..];
    }
  }

  lemma {:induction false} FilterQuotesOk(c: ValidConfig, slug: string, p: LiveQuote -> bool, quotes: seq<LiveQuote>)
    requires QuotesOk(c, slug, quotes)
    ensures QuotesOk(c, slug, Filter(p, quotes))
  {
    if quotes != [] {
      var init, last := quotes[..|quotes| - 1], quotes[|quotes| - 1];
      FilterQuotesOk(c, slug, p, init);
      forall q | q in Filter(p, init) ensures q.side != last.side {
        FilterMember(p, init, q);
        OneQuoteInit(c, slug, quotes, q);
      }
    }
  }

  lemma OneQuoteInit(c: ValidConfig, slug: string, quotes: seq<LiveQuote>, q: LiveQuote)
    requires QuotesOk(c, slug, quotes) && quotes != [] && q in quotes[..|quotes| - 1]
    ensures q.side != quotes[|quotes| - 1].side
  {
    var i :| 0 <= i < |quotes| - 1 && quotes[..|quotes| - 1][i] == q;
    assert quotes[i] == q;
  }

  lemma UntrackKeepsOthers(c: ValidConfig, ledger: Ledger, slug: string, coid: Coid)
    requires LedgerOk(c, ledger)
    ensures LedgerOk(c, Untrack(ledger, slug, coid))
    ensures forall other :: other != slug ==> Live(Untrack(ledger, slug, coid), other) == Live(ledger, other)
    ensures forall q :: q in Live(Untrack(ledger, slug, coid), slug) <==> q in Live(ledger, slug) && q.coid != coid
  {
    LiveOk(c, ledger, slug);
    FilterQuotesOk(c, slug, OtherThan(coid), Live(ledger, slug));
    forall q
      ensures q in Live(Untrack(ledger, slug, coid), slug) <==> q in Live(ledger, slug) && q.coid != coid
    {
      FilterMember(OtherThan(coid), Live(ledger, slug), q);
    }
  }

  ghost predicate SizeOk(c: ValidConfig, qty: real)
  {
    c.stake > 0.0 ==> 0.0 < qty <= c.stake / 0.001
  }

  lemma TrackKeepsOk(c: ValidConfig, ledger: Ledger, slug: string, q: LiveQuote)
    requires LedgerOk(c, ledger) && Listens(c, slug) && SizeOk(c, q.qty)
    requires q.coid.slug == slug && q.coid.side == q.side && !q.side.NoSide?
    requires forall x :: x in Live(ledger, slug) ==> x.side != q.side
    ensures LedgerOk(c, TrackNew(ledger, slug, q))
  {
    var quotes := Live(ledger, slug);
    LiveOk(c, ledger, slug);
    assert QuotesOk(c, slug, quotes + [q]) by {
      forall i | 0 <= i < |quotes| ensures quotes[i].side != q.side {
        assert quotes[i] in quotes;
      }
    }
  }

  // ----- one side of the quoting step

  /** What a side step does to the ledger: the other side and the other markets stay,
      a blocked side is emptied, an open one ends with a quote within one cent. */
  lemma SideLedger(c: ValidConfig, s: Strategy, t: Tick, side: Side, price: real, qty: real, now: real)
    requires LedgerOk(c, s.ledger) && Listens(c, t.slug) && SizeOk(c, qty) && !side.NoSide?
    ensures var after := SideStep(c, s, t, side, price, qty, now).strategy;
            && LedgerOk(c, after.ledger)
            && (forall slug :: slug != t.slug ==> Live(after.ledger, slug) == Live(s.ledger, slug))
            && (forall q: LiveQuote :: q.side != side ==> (q in Live(after.ledger, t.slug) <==> q in Live(s.ledger, t.slug)))
            && (SideBlocked(c, s.guard, t, side, qty) ==>
                  forall q :: q in Live(after.ledger, t.slug) ==> q.side != side)
            && (!SideBlocked(c, s.guard, t, side, qty) ==>
                  exists q :: q in Live(after.ledger, t.slug) && q.side == side && Abs(q.price - price) < 0.01)
            && after.guard.inventory == s.guard.inventory
  {
    var quotes := Live(s.ledger, t.slug);
    var existing := ExistingFor(quotes, side);
    var quote := LiveQuote(CoidFor(c, t, side), side, price, qty);
    ExistingForFinds(quotes, side);
    LiveOk(c, s.ledger, t.slug);
    if existing.Some? {
      var e := existing.value;
      UntrackKeepsOthers(c, s.ledger, t.slug, e.coid);
      forall q | q in quotes ensures q.coid != e.coid <==> q.side != side {
        if q.coid == e.coid || q.side == side {
          OneQuotePerSide(c, t.slug, quotes, q, e);
        }
      }
      if !SideBlocked(c, s.guard, t, side, qty) {
        if Abs(e.price - price) >= 0.01 {
          TrackKeepsOk(c, Untrack(s.ledger, t.slug, e.coid), t.slug, quote);
          assert quote in Live(SideStep(c, s, t, side, price, qty, now).strategy.ledger, t.slug);
        } else {
          assert e in Live(SideStep(c, s, t, side, price, qty, now).strategy.ledger, t.slug);
        }
      }
    } else if !SideBlocked(c, s.guard, t, side, qty) {
      TrackKeepsOk(c, s.ledger, t.slug, quote);
      assert quote in Live(SideStep(c, s, t, side, price, qty, now).strategy.ledger, t.slug);
    }
  }

  lemma DispatchEmpty(c: ValidConfig, orders: seq<LimitOrder>, t: Tick)
    ensures DispatchAll(c, orders, [], t) == Dispatched(orders, false, false)
  {
  }

  lemma DispatchSingle(c: ValidConfig, orders: seq<LimitOrder>, a: Action, t: Tick)
    ensures DispatchAll(c, orders, [a], t) == Dispatch(c, orders, a, t)
  {
    assert [a][..0] == [];
    DispatchEmpty(c, orders, t);
  }

  /** An order of this market and side is the one of the existing quote. */
  lemma OrderOnSide(c: ValidConfig, s: Strategy, orders: seq<LimitOrder>, t: Tick, side: Side, o: LimitOrder)
    requires LedgerOk(c, s.ledger) && BookOk(c, s.ledger, orders)
    requires o in orders && o.coid.slug == t.slug && o.coid.side == side
    ensures ExistingFor(Live(s.ledger, t.slug), side) == Some(QuoteOf(o))
  {
    var quotes := Live(s.ledger, t.slug);
    ExistingForFinds(quotes, side);
    LiveOk(c, s.ledger, t.slug);
    assert Backed(c, s.ledger, o);
    var e := ExistingFor(quotes, side);
    if e.Some? {
      OneQuotePerSide(c, t.slug, quotes, e.value, QuoteOf(o));
    }
  }

  lemma PlaceKeepsBook(c: ValidConfig, ledger: Ledger, orders: seq<LimitOrder>, o: LimitOrder)
    requires BookOk(c, ledger, orders)
    requires WellPriced(o) ==> Backed(c, ledger, o)
    requires c.stake <= 0.0 ==> !WellPriced(o)
    ensures BookOk(c, ledger, PlaceOrder(orders, o).orders)
    ensures PlaceOrder(orders, o).raised <==> !WellPriced(o)
    ensures Ids(PlaceOrder(orders, o).orders) == Ids(orders) + if WellPriced(o) then {o.coid} else {}
  {
    assert forall x :: x in orders ==> x.coid in Ids(orders);
  }

  lemma RemoveKeepsBook(c: ValidConfig, before: Ledger, after: Ledger, orders: seq<LimitOrder>, ids: set<Coid>)
    requires BookOk(c, before, orders)
    requires forall o :: o in orders && o.coid !in ids ==> QuoteOf(o) in Live(after, o.coid.slug)
    ensures BookOk(c, after, Without(orders, ids))
    ensures Ids(Without(orders, ids)) == Ids(orders) - ids
  {
    WithoutMember(orders, ids);
    FilterDistinct(NotIn(ids), orders);
    forall o | o in Without(orders, ids) ensures Backed(c, after, o) {
      assert Backed(c, before, o);
    }
    forall coid ensures coid in Ids(Without(orders, ids)) <==> coid in Ids(orders) - ids {
      if coid in Ids(orders) - ids {
        var o :| o in orders && o.coid == coid;
        assert o in Without(orders, ids);
      }
    }
  }

  /** Ids outside one market and side rest after as they did before. */
  ghost predicate SameElsewhere(before: set<Coid>, after: set<Coid>, slug: string, side: Side)
  {
    forall coid: Coid :: !(coid.slug == slug && coid.side == side) ==> (coid in after <==> coid in before)
  }

  /** Placing a tracked quote under an id that does not rest. */
  lemma PlaceQuote(c: ValidConfig, ledger: Ledger, orders: seq<LimitOrder>, t: Tick, side: Side, price: real, qty: real)
    requires BookOk(c, ledger, orders) && !side.NoSide? && (c.stake <= 0.0 ==> qty <= 0.0)
    requires LiveQuote(CoidFor(c, t, side), side, price, qty) in Live(ledger, t.slug)
    ensures var d := PlaceOrder(orders, OrderFor(c, t, QuoteFor(c, t, side, price, qty)));
            && BookOk(c, ledger, d.orders)
            && (d.raised <==> price <= 0.0 || qty <= 0.0) && !d.dropped
            && Ids(d.orders) == Ids(orders) + if d.raised then {} else {CoidFor(c, t, side)}
  {
    PlaceKeepsBook(c, ledger, orders, OrderFor(c, t, QuoteFor(c, t, side, price, qty)));
  }

  /** A new quote on an empty side. */
  lemma PostKeepsBook(c: ValidConfig, s: Strategy, orders: seq<LimitOrder>, t: Tick, side: Side, price: real, qty: real)
    requires LedgerOk(c, s.ledger) && BookOk(c, s.ledger, orders) && !side.NoSide?
    requires (c.stake <= 0.0 ==> qty <= 0.0)
    requires ExistingFor(Live(s.ledger, t.slug), side).None?
    ensures var ledger := TrackNew(s.ledger, t.slug, LiveQuote(CoidFor(c, t, side), side, price, qty));
            var d := Dispatch(c, orders, PostQuote(QuoteFor(c, t, side, price, qty)), t);
            && BookOk(c, ledger, d.orders)
            && (d.raised ==> price <= 0.0 || qty <= 0.0)
            && SameElsewhere(Ids(orders), Ids(d.orders), t.slug, side)
            && (CoidFor(c, t, side) in Ids(d.orders) <==> !d.raised && !d.dropped)
  {
    var ledger := TrackNew(s.ledger, t.slug, LiveQuote(CoidFor(c, t, side), side, price, qty));
    SideMembership(c, s, orders, t, side);
    RemoveKeepsBook(c, s.ledger, ledger, orders, {});
    FilterAll(NotIn({}), orders);
    var o := OrderFor(c, t, QuoteFor(c, t, side, price, qty));
    assert CoidFor(c, t, side) !in Ids(orders);
    PlaceKeepsBook(c, ledger, orders, o);
  }

  /** Moving the quote of a side: its order, if any, is popped and the new one placed. */
  lemma ReplaceKeepsBook(c: ValidConfig, s: Strategy, orders: seq<LimitOrder>, t: Tick, side: Side,
                         price: real, qty: real, e: LiveQuote)
    requires LedgerOk(c, s.ledger) && BookOk(c, s.ledger, orders) && !side.NoSide?
    requires (c.stake <= 0.0 ==> qty <= 0.0)
    requires ExistingFor(Live(s.ledger, t.slug), side) == Some(e)
    ensures var ledger := TrackNew(Untrack(s.ledger, t.slug, e.coid), t.slug,
                                   LiveQuote(CoidFor(c, t, side), side, price, qty));
            var d := Dispatch(c, orders, ReplaceQuote(e.coid, QuoteFor(c, t, side, price, qty)), t);
            && BookOk(c, ledger, d.orders)
            && (d.raised ==> price <= 0.0 || qty <= 0.0)
            && SameElsewhere(Ids(orders), Ids(d.orders), t.slug, side)
            && (e.coid in Ids(orders) ==> (CoidFor(c, t, side) in Ids(d.orders) <==> !d.raised))
            && !d.dropped
  {
    var ledger := TrackNew(Untrack(s.ledger, t.slug, e.coid), t.slug, LiveQuote(CoidFor(c, t, side), side, price, qty));
    ReplaceRemoves(c, s, orders, t, side, LiveQuote(CoidFor(c, t, side), side, price, qty), e);
    if e.coid in Ids(orders) {
      PlaceQuote(c, ledger, Without(orders, {e.coid}), t, side, price, qty);
      SameWithOneMore(Ids(orders), Ids(Without(orders, {e.coid})),
                      Ids(PlaceOrder(Without(orders, {e.coid}), OrderFor(c, t, QuoteFor(c, t, side, price, qty))).orders),
                      t.slug, side, CoidFor(c, t, side));
    } else {
      assert Without(orders, {e.coid}) == orders by { FilterAll(NotIn({e.coid}), orders); }
    }
  }

  lemma SameWithOneMore(before: set<Coid>, rest: set<Coid>, after: set<Coid>, slug: string, side: Side, coid: Coid)
    requires SameElsewhere(before, rest, slug, side) && coid.slug == slug && coid.side == side
    requires after == rest || after == rest + {coid}
    ensures SameElsewhere(before, after, slug, side)
  {
  }

  /** Popping the order of a moved quote leaves none of its side, and a backed book. */
  lemma ReplaceRemoves(c: ValidConfig, s: Strategy, orders: seq<LimitOrder>, t: Tick, side: Side, quote: LiveQuote, e: LiveQuote)
    requires LedgerOk(c, s.ledger) && BookOk(c, s.ledger, orders)
    requires ExistingFor(Live(s.ledger, t.slug), side) == Some(e)
    ensures var rest := Without(orders, {e.coid});
            && BookOk(c, TrackNew(Untrack(s.ledger, t.slug, e.coid), t.slug, quote), rest)
            && SameElsewhere(Ids(orders), Ids(rest), t.slug, side)
            && (forall coid :: coid in Ids(rest) ==> !(coid.slug == t.slug && coid.side == side))
            && quote in Live(TrackNew(Untrack(s.ledger, t.slug, e.coid), t.slug, quote), t.slug)
  {
    var middle := Untrack(s.ledger, t.slug, e.coid);
    var ledger := TrackNew(middle, t.slug, quote);
    ExistingForFinds(Live(s.ledger, t.slug), side);
    LiveOk(c, s.ledger, t.slug);
    UntrackKeepsOthers(c, s.ledger, t.slug, e.coid);
    SideMembership(c, s, orders, t, side);
    assert forall q :: q in Live(middle, t.slug) ==> q in Live(ledger, t.slug);
    RemoveKeepsBook(c, s.ledger, ledger, orders, {e.coid});
  }

  /** Cancelling the quote of a side pops its order. */
  lemma CancelKeepsBook(c: ValidConfig, s: Strategy, orders: seq<LimitOrder>, t: Tick, side: Side, e: LiveQuote)
    requires LedgerOk(c, s.ledger) && BookOk(c, s.ledger, orders)
    requires ExistingFor(Live(s.ledger, t.slug), side) == Some(e)
    ensures BookOk(c, Untrack(s.ledger, t.slug, e.coid), Without(orders, {e.coid}))
    ensures SameElsewhere(Ids(orders), Ids(Without(orders, {e.coid})), t.slug, side)
  {
    ExistingForFinds(Live(s.ledger, t.slug), side);
    LiveOk(c, s.ledger, t.slug);
    UntrackKeepsOthers(c, s.ledger, t.slug, e.coid);
    SideMembership(c, s, orders, t, side);
    RemoveKeepsBook(c, s.ledger, Untrack(s.ledger, t.slug, e.coid), orders, {e.coid});
  }

  /** Every resting order is still backed after one side step, and the step touches
      only the ids of its own market and side. */
  lemma SideBook(c: ValidConfig, s: Strategy, orders: seq<LimitOrder>, t: Tick, side: Side,
                 price: real, qty: real, now: real)
    requires LedgerOk(c, s.ledger) && BookOk(c, s.ledger, orders)
    requires (c.stake <= 0.0 ==> qty <= 0.0) && !side.NoSide?
    ensures var r := SideStep(c, s, t, side, price, qty, now);
            var d := DispatchAll(c, orders, r.actions, t);
            && BookOk(c, r.strategy.ledger, d.orders)
            && (d.raised ==> price <= 0.0 || qty <= 0.0)
            && SameElsewhere(Ids(orders), Ids(d.orders), t.slug, side)
  {
    var r := SideStep(c, s, t, side, price, qty, now);
    var existing := ExistingFor(Live(s.ledger, t.slug), side);
    DispatchEmpty(c, orders, t);
    if r.actions != [] {
      DispatchSingle(c, orders, r.actions[0], t);
      if existing.None? {
        PostKeepsBook(c, s, orders, t, side, price, qty);
      } else if SideBlocked(c, s.guard, t, side, qty) {
        CancelKeepsBook(c, s, orders, t, side, existing.value);
      } else {
        ReplaceKeepsBook(c, s, orders, t, side, price, qty, existing.value);
      }
    }
  }

  /** Every order outside this market and side keeps its quote through the step, and
      every order on it carries the id of the existing quote. */
  lemma SideMembership(c: ValidConfig, s: Strategy, orders: seq<LimitOrder>, t: Tick, side: Side)
    requires LedgerOk(c, s.ledger) && BookOk(c, s.ledger, orders)
    ensures forall o :: o in orders ==> QuoteOf(o) in Live(s.ledger, o.coid.slug)
    ensures forall o :: o in orders && o.coid.slug == t.slug && o.coid.side == side ==>
              ExistingFor(Live(s.ledger, t.slug), side) == Some(QuoteOf(o))
  {
    forall o | o in orders
      ensures QuoteOf(o) in Live(s.ledger, o.coid.slug)
      ensures o.coid.slug == t.slug && o.coid.side == side ==>
                ExistingFor(Live(s.ledger, t.slug), side) == Some(QuoteOf(o))
    {
      assert Backed(c, s.ledger, o);
      if o.coid.slug == t.slug && o.coid.side == side {
        OrderOnSide(c, s, orders, t, side, o);
      }
    }
  }

  // ----- cancelling a whole market

  function Coids(quotes: seq<LiveQuote>): set<Coid>
  {
    set q | q in quotes :: q.coid
  }

  lemma {:induction false} CancelsPopAll(c: ValidConfig, orders: seq<LimitOrder>, quotes: seq<LiveQuote>, t: Tick)
    ensures DispatchAll(c, orders, CancelsFor(quotes), t)
         == Dispatched(Without(orders, Coids(quotes)), false, false)
  {
    if quotes == [] {
      FilterAll(NotIn({}), orders);
      assert Coids(quotes) == {};
    } else {
      var init, last := quotes[..|quotes| - 1], quotes[|quotes| - 1];
      var actions := CancelsFor(quotes);
      assert actions[..|actions| - 1] == CancelsFor(init);
      CancelsPopAll(c, orders, init, t);
      WithoutTwice(orders, Coids(init), {last.coid});
      assert Coids(quotes) == Coids(init) + {last.coid};
    }
  }

  lemma {:induction false} CancelsKeepInventory(c: ValidConfig, g: Guard.GuardState, slug: string, n: nat, clock: nat -> real)
    ensures CancelsRecorded(c, g, slug, n, clock).inventory == g.inventory
  {
    if n > 0 {
      CancelsKeepInventory(c, g, slug, n - 1, clock);
    }
  }

  /** Every order of a market carries the id of one of its quotes. */
  lemma OrdersAreQuoted(c: ValidConfig, ledger: Ledger, orders: seq<LimitOrder>, slug: string)
    requires LedgerOk(c, ledger) && BookOk(c, ledger, orders)
    ensures forall o :: o in orders ==> QuoteOf(o) in Live(ledger, o.coid.slug)
    ensures forall o :: o in orders && o.coid.slug == slug ==> o.coid in Coids(Live(ledger, slug))
    ensures forall coid :: coid in Coids(Live(ledger, slug)) ==> coid.slug == slug
  {
    LiveOk(c, ledger, slug);
    forall o | o in orders
      ensures QuoteOf(o) in Live(ledger, o.coid.slug)
      ensures o.coid.slug == slug ==> o.coid in Coids(Live(ledger, slug))
    {
      assert Backed(c, ledger, o);
      if o.coid.slug == slug {
        assert QuoteOf(o) in Live(ledger, slug);
      }
    }
  }

  lemma CancelAllLedger(c: ValidConfig, s: Strategy, t: Tick)
    requires LedgerOk(c, s.ledger)
    ensures var r := CancelAllFor(c, s, t);
            && LedgerOk(c, r.strategy.ledger) && Live(r.strategy.ledger, t.slug) == []
            && (forall slug :: slug != t.slug ==> Live(r.strategy.ledger, slug) == Live(s.ledger, slug))
            && r.strategy.guard.inventory == s.guard.inventory
            && r.actions == CancelsFor(Live(s.ledger, t.slug))
  {
    CancelsKeepInventory(c, s.guard, t.slug, |Live(s.ledger, t.slug)|, t.clock);
  }

  /** Giving up a market empties its ledger and its part of the book. */
  lemma CancelAllBook(c: ValidConfig, s: Strategy, orders: seq<LimitOrder>, t: Tick)
    requires LedgerOk(c, s.ledger) && BookOk(c, s.ledger, orders)
    ensures var r := CancelAllFor(c, s, t);
            var d := DispatchAll(c, orders, r.actions, t);
            && LedgerOk(c, r.strategy.ledger) && BookOk(c, r.strategy.ledger, d.orders)
            && !d.raised && !d.dropped
            && Live(r.strategy.ledger, t.slug) == []
            && (forall slug :: slug != t.slug ==> Live(r.strategy.ledger, slug) == Live(s.ledger, slug))
            && (forall coid: Coid :: coid.slug != t.slug ==> (coid in Ids(d.orders) <==> coid in Ids(orders)))
            && r.strategy.guard.inventory == s.guard.inventory
  {
    var quotes := Live(s.ledger, t.slug);
    CancelAllLedger(c, s, t);
    CancelsPopAll(c, orders, quotes, t);
    OrdersAreQuoted(c, s.ledger, orders, t.slug);
    RemoveKeepsBook(c, s.ledger, CancelAllFor(c, s, t).strategy.ledger, orders, Coids(quotes));
  }

  // ----- the strategy's whole reaction, dispatched

  lemma {:induction false} DispatchConcat(c: ValidConfig, orders: seq<LimitOrder>, a: seq<Action>, b: seq<Action>, t: Tick)
    ensures var d := DispatchAll(c, orders, a, t);
            DispatchAll(c, orders, a + b, t) ==
            if d.raised then d
            else var e := DispatchAll(c, d.orders, b, t); e.(dropped := d.dropped || e.dropped)
  {
    if b == [] {
      assert a + b == a;
    } else {
      assert (a + b)[..|a + b| - 1] == a + b[..|b| - 1];
      DispatchConcat(c, orders, a, b[..|b| - 1], t);
    }
  }

  lemma SizeIsOk(c: ValidConfig, bid: real)
    ensures SizeOk(c, NominalSize(c, bid))
    ensures c.stake <= 0.0 ==> NominalSize(c, bid) <= 0.0
  {
    var m := Max(bid, 0.001);
    assert m >= 0.001;
    if c.stake > 0.0 {
      Quotient(c.stake, 0.001, m);
    } else {
      assert -c.stake / m >= 0.0;
    }
  }

  lemma Quotient(x: real, a: real, b: real)
    requires x > 0.0 && 0.0 < a <= b
    ensures 0.0 < x / b <= x / a
  {
    assert x / b * b == x;
    assert x / a * a == x;
    assert x / a * b >= x;
  }

  lemma OnTickKeepsInv(c: ValidConfig, w: World, t: Tick)
    requires Inv(c, w)
    ensures var r := OnTick(c, w.strategy, t);
            var d := DispatchAll(c, w.orders, r.actions, t);
            && LedgerOk(c, r.strategy.ledger) && BookOk(c, r.strategy.ledger, d.orders)
            && r.strategy.guard.inventory == w.strategy.guard.inventory
            && (d.raised ==> MayQuote(c, w.strategy, t) && (c.stake <= 0.0 || t.implied <= -0.005))
  {
    if Listens(c, t.slug) {
      var s := AfterKillCheck(c, w.strategy, t);
      if !MayQuote(c, w.strategy, t) {
        CancelAllBook(c, s, w.orders, t);
      } else {
        var (bid, ask) := Targets(c, w.strategy, t);
        var qty := NominalSize(c, bid);
        var up := SideStep(c, s, t, YesUp, bid, qty, t.clock(1));
        var down := SideStep(c, up.strategy, t, YesDown, ask, qty, t.clock(2));
        SizeIsOk(c, bid);
        QuotesArePositive(t.implied, Guard.Inventory(w.strategy.guard, t.slug), t.k, t.logTerm,
                          c.quoting, t.tInWindow);
        SideLedger(c, s, t, YesUp, bid, qty, t.clock(1));
        SideBook(c, s, w.orders, t, YesUp, bid, qty, t.clock(1));
        SideLedger(c, up.strategy, t, YesDown, ask, qty, t.clock(2));
        DispatchConcat(c, w.orders, up.actions, down.actions, t);
        var d := DispatchAll(c, w.orders, up.actions, t);
        if d.raised {
          assert d.orders == [];
        } else {
          SideBook(c, up.strategy, d.orders, t, YesDown, ask, qty, t.clock(2));
        }
      }
    } else {
      DispatchEmpty(c, w.orders, t);
    }
  }

  // ----- fills

  function SignedQty(f: LimitFill): real { if f.side.Buy? then f.qty else -f.qty }

  /** Bought minus sold, over the fills of one instrument. */
  function NetFills(fills: seq<LimitFill>, instrument: string): real
  {
    if fills == [] then 0.0
    else
      var f := fills[|fills| - 1];
      NetFills(fills[..|fills| - 1], instrument) + if f.instrument == instrument then SignedQty(f) else 0.0
  }

  lemma {:induction false} NetConcat(a: seq<LimitFill>, b: seq<LimitFill>, instrument: string)
    ensures NetFills(a + b, instrument) == NetFills(a, instrument) + NetFills(b, instrument)
  {
    if b == [] {
      assert a + b == a;
    } else {
      assert (a + b)[..|a + b| - 1] == a + b[..|b| - 1];
      NetConcat(a, b[..|b| - 1], instrument);
    }
  }

  function FillIds(fills: seq<LimitFill>): set<Coid>
  {
    set f | f in fills :: f.coid
  }

  lemma FillIdsSnoc(fills: seq<LimitFill>)
    requires fills != []
    ensures FillIds(fills) == FillIds(fills[..|fills| - 1]) + {fills[|fills| - 1].coid}
  {
    assert fills == fills[..|fills| - 1] + [fills[|fills| - 1]];
  }

  ghost predicate DropsExactly(c: ValidConfig, before: Ledger, after: Ledger, slug: string, ids: set<Coid>)
  {
    && LedgerOk(c, after)
    && (forall other :: other != slug ==> Live(after, other) == Live(before, other))
    && (forall q :: q in Live(after, slug) <==> q in Live(before, slug) && q.coid !in ids)
  }

  lemma DropOneMore(c: ValidConfig, before: Ledger, middle: Ledger, slug: string, ids: set<Coid>, coid: Coid)
    requires DropsExactly(c, before, middle, slug, ids)
    ensures DropsExactly(c, before, Untrack(middle, slug, coid), slug, ids + {coid})
  {
    UntrackKeepsOthers(c, middle, slug, coid);
  }

  /** Reporting fills drops exactly their quotes. */
  lemma {:induction false} OnFillsLedger(c: ValidConfig, s: Strategy, t: Tick, fills: seq<LimitFill>)
    requires LedgerOk(c, s.ledger)
    ensures DropsExactly(c, s.ledger, OnFills(c, s, t, fills).ledger, t.slug, FillIds(fills))
  {
    if fills != [] {
      var init, f := fills[..|fills| - 1], fills[|fills| - 1];
      OnFillsLedger(c, s, t, init);
      FillIdsSnoc(fills);
      DropOneMore(c, s.ledger, OnFills(c, s, t, init).ledger, t.slug, FillIds(init), f.coid);
    }
  }

  /** Reporting fills moves the market's inventory by their net and no other. */
  lemma {:induction false} OnFillsInventory(c: ValidConfig, s: Strategy, t: Tick, fills: seq<LimitFill>, slug: string)
    requires forall i :: 0 <= i < |fills| ==> fills[i].instrument == InstrumentYes(t.slug)
    ensures Guard.Inventory(OnFills(c, s, t, fills).guard, slug) == Guard.Inventory(s.guard, slug)
              + if slug == t.slug then NetFills(fills, InstrumentYes(t.slug)) else 0.0
  {
    if fills != [] {
      OnFillsInventory(c, s, t, fills[..|fills| - 1], slug);
    }
  }

  lemma FillIdsAreOrderIds(orders: seq<LimitOrder>, ts: real, feeBps: real)
    ensures FillIds(FillsOf(orders, ts, feeBps)) == Ids(orders)
  {
    var fills := FillsOf(orders, ts, feeBps);
    forall coid ensures coid in FillIds(fills) <==> coid in Ids(orders) {
      if coid in FillIds(fills) {
        var f :| f in fills && f.coid == coid;
        var i :| 0 <= i < |fills| && fills[i] == f;
        assert orders[i].coid == coid;
      }
      if coid in Ids(orders) {
        var o :| o in orders && o.coid == coid;
        var i :| 0 <= i < |orders| && orders[i] == o;
        assert fills[i].coid == coid;
      }
    }
  }

  /** Matching against a backed book leaves it backed by the ledger after the fills. */
  lemma MatchKeepsInv(c: ValidConfig, s: Strategy, orders: seq<LimitOrder>, t: Tick)
    requires LedgerOk(c, s.ledger) && BookOk(c, s.ledger, orders)
    ensures var inst := InstrumentYes(t.slug);
            var filled := Filled(orders, inst, t.implied, t.ts);
            var after := OnFills(c, s, t, FillsOf(filled, t.ts, c.makerFeeBps));
            && LedgerOk(c, after.ledger)
            && BookOk(c, after.ledger, AfterTick(orders, inst, t.implied, t.ts))
            && (forall slug :: slug != t.slug ==> Live(after.ledger, slug) == Live(s.ledger, slug))
            && (forall q :: q in Live(after.ledger, t.slug) <==> q in Live(s.ledger, t.slug) && q.coid !in Ids(filled))
            && Ids(AfterTick(orders, inst, t.implied, t.ts)) == Ids(orders) - Ids(filled) - Ids(Lapsed(orders, inst, t.ts))
  {
    var inst := InstrumentYes(t.slug);
    var filled, lapsed := Filled(orders, inst, t.implied, t.ts), Lapsed(orders, inst, t.ts);
    var fills := FillsOf(filled, t.ts, c.makerFeeBps);
    FilledMember(orders, inst, t.implied, t.ts);
    OnFillsLedger(c, s, t, fills);
    FillIdsAreOrderIds(filled, t.ts, c.makerFeeBps);
    var after := OnFills(c, s, t, fills).ledger;
    forall o | o in orders && o.coid !in Ids(filled) + Ids(lapsed)
      ensures QuoteOf(o) in Live(after, o.coid.slug)
    {
      assert Backed(c, s.ledger, o);
    }
    RemoveKeepsBook(c, s.ledger, after, orders, Ids(filled) + Ids(lapsed));
  }

  // ----- the invariant over every run

  lemma StepKeepsInv(c: ValidConfig, w: World, t: Tick)
    requires Inv(c, w)
    ensures Inv(c, HandleTick(c, w, t))
  {
    if !t.paused {
      var r := OnTick(c, w.strategy, t);
      var d := DispatchAll(c, w.orders, r.actions, t);
      OnTickKeepsInv(c, w, t);
      if MatcherRuns(t, d) {
        MatchKeepsInv(c, r.strategy, d.orders, t);
      }
    }
  }

  lemma {:induction false} RunKeepsInv(c: ValidConfig, ticks: seq<Tick>)
    ensures Inv(c, RunTicks(c, ticks))
  {
    if ticks != [] {
      RunKeepsInv(c, ticks[..|ticks| - 1]);
      StepKeepsInv(c, RunTicks(c, ticks[..|ticks| - 1]), ticks[|ticks| - 1]);
    }
  }

  /** After every tick of every run each resting order is in the ledger with the same
      id, side, price and size, and a market has at most one order per side. No
      assumption on configuration, ticks, caps or expiry. */
  lemma RestingOrdersAreBacked(c: ValidConfig, ticks: seq<Tick>)
    ensures var w := RunTicks(c, ticks);
            && (forall o :: o in w.orders ==> Backed(c, w.strategy.ledger, o))
            && (forall a, b :: a in w.orders && b in w.orders && a.coid.slug == b.coid.slug && a.side == b.side ==> a == b)
  {
    RunKeepsInv(c, ticks);
    var w := RunTicks(c, ticks);
    forall a, b | a in w.orders && b in w.orders && a.coid.slug == b.coid.slug && a.side == b.side
      ensures a == b
    {
      assert Backed(c, w.strategy.ledger, a) && Backed(c, w.strategy.ledger, b);
      LiveOk(c, w.strategy.ledger, a.coid.slug);
      SidesMatch(c, w.strategy.ledger, a);
      SidesMatch(c, w.strategy.ledger, b);
      OneQuotePerSide(c, a.coid.slug, Live(w.strategy.ledger, a.coid.slug), QuoteOf(a), QuoteOf(b));
      DistinctMember(w.orders, a, b);
    }
  }

  lemma SidesMatch(c: ValidConfig, ledger: Ledger, o: LimitOrder)
    requires LedgerOk(c, ledger) && Backed(c, ledger, o)
    ensures !o.coid.side.NoSide?
  {
    LiveOk(c, ledger, o.coid.slug);
    var quotes := Live(ledger, o.coid.slug);
    var i :| 0 <= i < |quotes| && quotes[i] == QuoteOf(o);
  }

  lemma {:induction false} NothingToDrop(c: ValidConfig, s: Strategy, t: Tick, fills: seq<LimitFill>)
    requires Live(s.ledger, t.slug) == []
    ensures Live(OnFills(c, s, t, fills).ledger, t.slug) == []
  {
    if fills != [] {
      NothingToDrop(c, s, t, fills[..|fills| - 1]);
    }
  }

  lemma GivenUpLedger(c: ValidConfig, w: World, t: Tick)
    requires Inv(c, w) && !MayQuote(c, w.strategy, t)
    ensures Live(OnTick(c, w.strategy, t).strategy.ledger, t.slug) == []
  {
    if Listens(c, t.slug) {
      CancelAllBook(c, AfterKillCheck(c, w.strategy, t), w.orders, t);
    } else {
      LiveOk(c, w.strategy.ledger, t.slug);
    }
  }

  /** A tick on which the strategy may not quote -- wrong zone or time, killed, or in
      the terminal window -- leaves nothing of that market in ledger or book. */
  lemma NoQuotingNoOrders(c: ValidConfig, w: World, t: Tick)
    requires Inv(c, w) && !t.paused && !MayQuote(c, w.strategy, t)
    ensures var w' := HandleTick(c, w, t);
            Live(w'.strategy.ledger, t.slug) == [] && forall o :: o in w'.orders ==> o.coid.slug != t.slug
  {
    var w' := HandleTick(c, w, t);
    var r := OnTick(c, w.strategy, t);
    var d := DispatchAll(c, w.orders, r.actions, t);
    GivenUpLedger(c, w, t);
    NothingToDrop(c, r.strategy, t,
                  FillsOf(Filled(d.orders, InstrumentYes(t.slug), t.implied, t.ts), t.ts, c.makerFeeBps));
    StepKeepsInv(c, w, t);
    forall o | o in w'.orders ensures o.coid.slug != t.slug {
      assert Backed(c, w'.strategy.ledger, o);
    }
  }

  // ----- quotes follow their targets

  ghost predicate SideTracks(c: ValidConfig, s: Strategy, t: Tick, quotes: seq<LiveQuote>, side: Side, price: real, qty: real)
  {
    if SideBlocked(c, s.guard, t, side, qty) then forall q :: q in quotes ==> q.side != side
    else exists q :: q in quotes && q.side == side && Abs(q.price - price) < 0.01
  }

  lemma SideStepTracks(c: ValidConfig, s: Strategy, t: Tick, side: Side, price: real, qty: real, now: real)
    requires LedgerOk(c, s.ledger) && Listens(c, t.slug) && SizeOk(c, qty) && !side.NoSide?
    ensures SideTracks(c, s, t, Live(SideStep(c, s, t, side, price, qty, now).strategy.ledger, t.slug), side, price, qty)
  {
    SideLedger(c, s, t, side, price, qty, now);
  }

  lemma TrackingPersists(c: ValidConfig, s: Strategy, s': Strategy, t: Tick, quotes: seq<LiveQuote>, quotes': seq<LiveQuote>,
                         side: Side, price: real, qty: real)
    requires SideTracks(c, s, t, quotes, side, price, qty)
    requires s.guard.inventory == s'.guard.inventory
    requires forall q: LiveQuote :: q.side == side ==> (q in quotes <==> q in quotes')
    ensures SideTracks(c, s', t, quotes', side, price, qty)
  {
  }

  /** After the strategy has reacted, a side that the inventory cap blocks has no quote
      and an open side has one within a cent of its current optimum. */
  lemma QuotesTrackTargets(c: ValidConfig, w: World, t: Tick)
    requires Inv(c, w) && MayQuote(c, w.strategy, t)
    ensures var quotes := Live(OnTick(c, w.strategy, t).strategy.ledger, t.slug);
            var targets := Targets(c, w.strategy, t);
            && SideTracks(c, w.strategy, t, quotes, YesUp, targets.0, NominalSize(c, targets.0))
            && SideTracks(c, w.strategy, t, quotes, YesDown, targets.1, NominalSize(c, targets.0))
  {
    var s := AfterKillCheck(c, w.strategy, t);
    var (bid, ask) := Targets(c, w.strategy, t);
    var qty := NominalSize(c, bid);
    SizeIsOk(c, bid);
    var up := SideStep(c, s, t, YesUp, bid, qty, t.clock(1)).strategy;
    SideStepTracks(c, s, t, YesUp, bid, qty, t.clock(1));
    SideLedger(c, s, t, YesUp, bid, qty, t.clock(1));
    var down := SideStep(c, up, t, YesDown, ask, qty, t.clock(2)).strategy;
    SideStepTracks(c, up, t, YesDown, ask, qty, t.clock(2));
    SideLedger(c, up, t, YesDown, ask, qty, t.clock(2));
    var quotes := Live(down.ledger, t.slug);
    TrackingPersists(c, s, w.strategy, t, Live(up.ledger, t.slug), quotes, YesUp, bid, qty);
    TrackingPersists(c, up, w.strategy, t, quotes, quotes, YesDown, ask, qty);
  }

  // ----- inventory

  /** A market's inventory is what was bought minus what was sold, over the whole run. */
  lemma {:induction false} InventoryIsNetFills(c: ValidConfig, ticks: seq<Tick>, slug: string)
    ensures Guard.Inventory(RunTicks(c, ticks).strategy.guard, slug)
         == NetFills(RunTicks(c, ticks).fills, InstrumentYes(slug))
  {
    if ticks != [] {
      var init, t := ticks[..|ticks| - 1], ticks[|ticks| - 1];
      var w := RunTicks(c, init);
      InventoryIsNetFills(c, init, slug);
      RunKeepsInv(c, init);
      InventoryStep(c, w, t, slug);
    }
  }

  lemma {:induction false} NetOfOthers(fills: seq<LimitFill>, instrument: string, other: string)
    requires instrument != other
    requires forall i :: 0 <= i < |fills| ==> fills[i].instrument == instrument
    ensures NetFills(fills, other) == 0.0
  {
    if fills != [] {
      NetOfOthers(fills[..|fills| - 1], instrument, other);
    }
  }

  /** The fills a tick adds, and the inventory they move. */
  lemma InventoryStep(c: ValidConfig, w: World, t: Tick, slug: string)
    requires Inv(c, w)
    ensures var w' := HandleTick(c, w, t);
            Guard.Inventory(w'.strategy.guard, slug) - Guard.Inventory(w.strategy.guard, slug)
            == NetFills(w'.fills, InstrumentYes(slug)) - NetFills(w.fills, InstrumentYes(slug))
  {
    if !t.paused {
      var r := OnTick(c, w.strategy, t);
      var d := DispatchAll(c, w.orders, r.actions, t);
      OnTickKeepsInv(c, w, t);
      if MatcherRuns(t, d) {
        var inst := InstrumentYes(t.slug);
        var filled := Filled(d.orders, inst, t.implied, t.ts);
        var fills := FillsOf(filled, t.ts, c.makerFeeBps);
        FillInstruments(d.orders, t, c.makerFeeBps);
        OnFillsInventory(c, r.strategy, t, fills, slug);
        NetConcat(w.fills, fills, InstrumentYes(slug));
        InstrumentInjective(slug, t.slug);
        if slug != t.slug {
          NetOfOthers(fills, inst, InstrumentYes(slug));
        }
      }
    }
  }

  lemma FillInstruments(orders: seq<LimitOrder>, t: Tick, feeBps: real)
    ensures var fills := FillsOf(Filled(orders, InstrumentYes(t.slug), t.implied, t.ts), t.ts, feeBps);
            forall i :: 0 <= i < |fills| ==> fills[i].instrument == InstrumentYes(t.slug)
  {
    var filled := Filled(orders, InstrumentYes(t.slug), t.implied, t.ts);
    FilledMember(orders, InstrumentYes(t.slug), t.implied, t.ts);
    forall i | 0 <= i < |filled| ensures filled[i].instrument == InstrumentYes(t.slug) {
      assert filled[i] in filled;
    }
  }

  /** Any quote still live after the strategy's reaction is on a side that passed the
      cap projection in this very tick. */
  lemma LiveMeansProjected(c: ValidConfig, w: World, t: Tick, q: LiveQuote)
    requires Inv(c, w) && q in Live(OnTick(c, w.strategy, t).strategy.ledger, t.slug)
    ensures MayQuote(c, w.strategy, t)
    ensures !SideBlocked(c, w.strategy.guard, t, q.side, NominalSize(c, Targets(c, w.strategy, t).0))
  {
    if !MayQuote(c, w.strategy, t) {
      GivenUpLedger(c, w, t);
      assert false;
    }
    QuotesTrackTargets(c, w, t);
    OnTickKeepsInv(c, w, t);
    LiveOk(c, OnTick(c, w.strategy, t).strategy.ledger, t.slug);
  }

  ghost function Bound(c: ValidConfig): real
    requires c.zoneLo > 0.0
  {
    Max(c.guard.cap, 0.0) / c.zoneLo + c.stake / 0.001
  }

  lemma CapInShares(x: real, p: real, lo: real, cap: real)
    requires 0.0 < lo <= p && Abs(x * p) <= cap
    ensures Abs(x) <= cap / lo
  {
    assert Abs(x) * lo <= Abs(x) * p == Abs(x * p);
    assert cap / lo * lo == cap;
  }

  /** The shares bought and sold by a set of fills with at most one per side. */
  lemma NetOfOnePerSide(orders: seq<LimitOrder>, ts: real, feeBps: real, inst: string, most: real)
    requires forall i :: 0 <= i < |orders| ==>
               orders[i].instrument == inst && !orders[i].side.Unknown? && 0.0 < orders[i].qty <= most
    requires forall i, j :: 0 <= i < j < |orders| ==> orders[i].side != orders[j].side
    requires most >= 0.0
    ensures var net := NetFills(FillsOf(orders, ts, feeBps), inst);
            && ((forall o :: o in orders ==> !o.side.Buy?) ==> net <= 0.0)
            && ((forall o :: o in orders ==> !o.side.Sell?) ==> net >= 0.0)
            && -most <= net <= most
  {
    var fills := FillsOf(orders, ts, feeBps);
    assert |orders| <= 2;
    if |orders| == 1 {
      assert fills[..0] == [];
      assert NetFills(fills, inst) == SignedQty(fills[0]);
      assert orders[0] in orders;
    } else if |orders| == 2 {
      assert fills[..1] == [fills[0]] && [fills[0]][..0] == [];
      assert NetFills([fills[0]], inst) == SignedQty(fills[0]);
      assert NetFills(fills, inst) == SignedQty(fills[0]) + SignedQty(fills[1]);
      assert orders[0] in orders && orders[1] in orders;
    }
  }

  /** What the matcher would fill on a tick. */
  function WouldFill(c: ValidConfig, w: World, t: Tick): seq<LimitOrder>
  {
    Filled(DispatchAll(c, w.orders, OnTick(c, w.strategy, t).actions, t).orders, InstrumentYes(t.slug), t.implied, t.ts)
  }

  /** An order that fills is on a side that passed the projection in this very tick. */
  lemma FilledIsProjected(c: ValidConfig, w: World, t: Tick, o: LimitOrder)
    requires Inv(c, w) && c.stake > 0.0 && o in WouldFill(c, w, t)
    ensures Backed(c, OnTick(c, w.strategy, t).strategy.ledger, o) && o.coid.slug == t.slug && !o.coid.side.NoSide?
    ensures 0.0 < o.qty <= c.stake / 0.001
    ensures MayQuote(c, w.strategy, t)
    ensures !SideBlocked(c, w.strategy.guard, t, o.coid.side, NominalSize(c, Targets(c, w.strategy, t).0))
  {
    var r := OnTick(c, w.strategy, t);
    var d := DispatchAll(c, w.orders, r.actions, t);
    OnTickKeepsInv(c, w, t);
    FilledMember(d.orders, InstrumentYes(t.slug), t.implied, t.ts);
    assert Backed(c, r.strategy.ledger, o);
    InstrumentInjective(o.coid.slug, t.slug);
    SidesMatch(c, r.strategy.ledger, o);
    LiveMeansProjected(c, w, t, QuoteOf(o));
    QuoteSize(c, r.strategy.ledger, t.slug, QuoteOf(o));
  }

  lemma QuoteSize(c: ValidConfig, ledger: Ledger, slug: string, q: LiveQuote)
    requires LedgerOk(c, ledger) && c.stake > 0.0 && q in Live(ledger, slug)
    ensures 0.0 < q.qty <= c.stake / 0.001
  {
    LiveOk(c, ledger, slug);
  }

  /** Backed orders of one market are the same order if they are on the same side. */
  lemma SameSideSameOrder(c: ValidConfig, ledger: Ledger, a: LimitOrder, b: LimitOrder)
    requires LedgerOk(c, ledger) && Backed(c, ledger, a) && Backed(c, ledger, b)
    requires a.coid.slug == b.coid.slug && !a.coid.side.NoSide? && !b.coid.side.NoSide? && a.side == b.side
    ensures a.coid == b.coid
  {
    LiveOk(c, ledger, a.coid.slug);
    OneQuotePerSide(c, a.coid.slug, Live(ledger, a.coid.slug), QuoteOf(a), QuoteOf(b));
  }

  lemma FilledAreProjected(c: ValidConfig, w: World, t: Tick)
    requires Inv(c, w) && c.stake > 0.0
    ensures var filled := WouldFill(c, w, t);
            && (forall i :: 0 <= i < |filled| ==>
                  filled[i].instrument == InstrumentYes(t.slug) && !filled[i].side.Unknown?
                  && 0.0 < filled[i].qty <= c.stake / 0.001)
            && (forall i, j :: 0 <= i < j < |filled| ==> filled[i].side != filled[j].side)
            && (forall o :: o in filled ==>
                  MayQuote(c, w.strategy, t) && o.side == BookSideOf(o.coid.side) && !o.coid.side.NoSide?
                  && !SideBlocked(c, w.strategy.guard, t, o.coid.side, NominalSize(c, Targets(c, w.strategy, t).0)))
  {
    var filled := WouldFill(c, w, t);
    var ledger := OnTick(c, w.strategy, t).strategy.ledger;
    OnTickKeepsInv(c, w, t);
    FilledDistinct(DispatchAll(c, w.orders, OnTick(c, w.strategy, t).actions, t).orders, InstrumentYes(t.slug), t.implied, t.ts);
    forall i | 0 <= i < |filled|
      ensures Backed(c, ledger, filled[i]) && filled[i].coid.slug == t.slug && !filled[i].coid.side.NoSide?
      ensures 0.0 < filled[i].qty <= c.stake / 0.001
      ensures MayQuote(c, w.strategy, t)
      ensures !SideBlocked(c, w.strategy.guard, t, filled[i].coid.side, NominalSize(c, Targets(c, w.strategy, t).0))
    {
      FilledIsProjected(c, w, t, filled[i]);
    }
    forall i, j | 0 <= i < j < |filled| ensures filled[i].side != filled[j].side {
      if filled[i].side == filled[j].side {
        SameSideSameOrder(c, ledger, filled[i], filled[j]);
      }
    }
  }

  /** One tick cannot push a market beyond the bound, even if both sides fill. */
  lemma BoundStep(c: ValidConfig, w: World, t: Tick, slug: string)
    requires Inv(c, w) && c.zoneLo > 0.0 && c.stake > 0.0
    requires Abs(Guard.Inventory(w.strategy.guard, slug)) <= Bound(c)
    ensures Abs(Guard.Inventory(HandleTick(c, w, t).strategy.guard, slug)) <= Bound(c)
  {
    InventoryStep(c, w, t, slug);
    var r := OnTick(c, w.strategy, t);
    var d := DispatchAll(c, w.orders, r.actions, t);
    if !t.paused && MatcherRuns(t, d) {
      var inst := InstrumentYes(t.slug);
      var filled := WouldFill(c, w, t);
      var fills := FillsOf(filled, t.ts, c.makerFeeBps);
      NetConcat(w.fills, fills, InstrumentYes(slug));
      if slug != t.slug {
        InstrumentInjective(slug, t.slug);
        FillInstruments(d.orders, t, c.makerFeeBps);
        NetOfOthers(fills, inst, InstrumentYes(slug));
      } else {
        FilledAreProjected(c, w, t);
        NetOfOnePerSide(filled, t.ts, c.makerFeeBps, inst, c.stake / 0.001);
        SideRoom(c, w, t, filled);
      }
    }
  }

  /** An open bid side means there is room above, an open ask side that there is room below. */
  lemma SideHasRoom(c: ValidConfig, s: Strategy, t: Tick, side: Side, qty: real)
    requires 0.0 < c.zoneLo <= t.implied && qty > 0.0
    requires !SideBlocked(c, s.guard, t, side, qty)
    ensures var q, room := Guard.Inventory(s.guard, t.slug), Max(c.guard.cap, 0.0) / c.zoneLo;
            if side.YesUp? then q <= room else q >= -room
  {
    RoomInShares(Guard.Inventory(s.guard, t.slug), qty, t.implied, c.zoneLo, c.guard.cap, Sign(side));
  }

  lemma RoomInShares(q: real, qty: real, p: real, lo: real, cap: real, sign: real)
    requires 0.0 < lo <= p && qty > 0.0 && (sign == 1.0 || sign == -1.0) && Abs((q + sign * qty) * p) <= cap
    ensures if sign == 1.0 then q <= Max(cap, 0.0) / lo else q >= -(Max(cap, 0.0) / lo)
  {
    var signed := if sign == 1.0 then qty else -qty;
    assert sign * qty == signed;
    CapInShares(q + signed, p, lo, cap);
    Scaled(cap, Max(cap, 0.0), lo);
  }

  lemma Scaled(a: real, b: real, lo: real)
    requires a <= b && lo > 0.0
    ensures a / lo <= b / lo
  {
  }

  lemma SideRoom(c: ValidConfig, w: World, t: Tick, filled: seq<LimitOrder>)
    requires c.zoneLo > 0.0 && c.stake > 0.0
    requires forall o :: o in filled ==>
               MayQuote(c, w.strategy, t) && o.side == BookSideOf(o.coid.side) && !o.coid.side.NoSide?
               && !SideBlocked(c, w.strategy.guard, t, o.coid.side, NominalSize(c, Targets(c, w.strategy, t).0))
    ensures var q, room := Guard.Inventory(w.strategy.guard, t.slug), Max(c.guard.cap, 0.0) / c.zoneLo;
            forall o :: o in filled ==> if o.side.Buy? then q <= room else q >= -room
  {
    var qty := NominalSize(c, Targets(c, w.strategy, t).0);
    SizeIsOk(c, Targets(c, w.strategy, t).0);
    forall o | o in filled
      ensures var q, room := Guard.Inventory(w.strategy.guard, t.slug), Max(c.guard.cap, 0.0) / c.zoneLo;
              if o.side.Buy? then q <= room else q >= -room
    {
      SideHasRoom(c, w.strategy, t, o.coid.side, qty);
    }
  }

  /** In every run with a positive zone floor and stake, no market's inventory exceeds
      cap / zoneLo + stake / 0.001 shares in absolute value. */
  lemma {:induction false} InventoryIsBounded(c: ValidConfig, ticks: seq<Tick>, slug: string)
    requires c.zoneLo > 0.0 && c.stake > 0.0
    ensures Abs(Guard.Inventory(RunTicks(c, ticks).strategy.guard, slug)) <= Bound(c)
  {
    if ticks == [] {
      assert Max(c.guard.cap, 0.0) / c.zoneLo >= 0.0;
    } else {
      var init, t := ticks[..|ticks| - 1], ticks[|ticks| - 1];
      InventoryIsBounded(c, init, slug);
      RunKeepsInv(c, init);
      BoundStep(c, RunTicks(c, init), t, slug);
    }
  }
}
