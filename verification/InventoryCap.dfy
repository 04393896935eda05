/** The inventory cap in money. The guard projects the size a quote would have now, but
    a quote that moved less than a cent keeps the size it was posted with. What a tick can
    do to the position is decided by the sizes that rest on its two sides, which are known
    before the tick. */
module InventoryCap {
  import opened Common
  import opened LimitBook
  import opened MarketMaker
  import opened MarketMakerLoop
  import opened RestingQuotes
  import opened MarketMakerSync
  import Guard = SafetyGuard

  predicate FitsAt(c: ValidConfig, t: Tick, q: real) { Abs(q * t.implied) <= c.guard.cap }

  /** The market's position at the tick's price is within the cap. */
  predicate WithinCap(c: ValidConfig, s: Strategy, t: Tick)
  {
    FitsAt(c, t, Guard.Inventory(s.guard, t.slug))
  }

  /** What the matcher fills on a tick. */
  function FilledNow(c: ValidConfig, w: World, t: Tick): seq<LimitOrder>
  {
    var d := DispatchAll(c, w.orders, OnTick(c, w.strategy, t).actions, t);
    if !t.paused && MatcherRuns(t, d) then WouldFill(c, w, t) else []
  }

  /** A position between two ends that are within the cap is within it. */
  lemma InBetween(lo: real, x: real, hi: real, p: real, cap: real)
    requires lo <= x <= hi && Abs(lo * p) <= cap && Abs(hi * p) <= cap
    ensures Abs(x * p) <= cap
  {
    var a, b, c := lo * p, x * p, hi * p;
    Distributes(x, lo, p);
    Distributes(hi, x, p);
    ProductSign(x - lo, p);
    ProductSign(hi - x, p);
    if p >= 0.0 {
      Squeeze(a, b, c, cap);
    } else {
      Squeeze(c, b, a, cap);
    }
  }

  lemma Distributes(x: real, y: real, p: real)
    ensures (x - y) * p == x * p - y * p
  {
  }

  lemma ProductSign(d: real, p: real)
    requires d >= 0.0
    ensures if p >= 0.0 then d * p >= 0.0 else d * p <= 0.0
  {
  }

  lemma Squeeze(a: real, b: real, c: real, cap: real)
    requires a <= b <= c && Abs(a) <= cap && Abs(c) <= cap
    ensures Abs(b) <= cap
  {
  }

  lemma SignedSize(q: real, sign: real, size: real)
    ensures sign == 1.0 ==> q + sign * size == q + size
    ensures sign == -1.0 ==> q + sign * size == q - size
  {
  }

  /** Moving from a position that is within the cap toward one that would be. */
  lemma Toward(q: real, end: real, after: real, p: real, cap: real)
    requires Abs(q * p) <= cap && Abs(end * p) <= cap
    requires q <= after <= end || end <= after <= q
    ensures Abs(after * p) <= cap
  {
    if q <= after <= end {
      InBetween(q, after, end, p, cap);
    } else {
      InBetween(end, after, q, p, cap);
    }
  }

  lemma SignedEnd(q: real, sign: real, size: real, end: real, p: real, cap: real)
    requires Abs((q + sign * size) * p) <= cap
    requires (sign == 1.0 && end == q + size) || (sign == -1.0 && end == q - size)
    ensures Abs(end * p) <= cap
  {
    SignedSize(q, sign, size);
    assert q + sign * size == end;
  }

  /** An open side has room for the projected size. */
  lemma OpenSide(c: ValidConfig, s: Strategy, t: Tick, side: Side, size: real, end: real)
    requires !SideBlocked(c, s.guard, t, side, size)
    requires var q := Guard.Inventory(s.guard, t.slug); if side.YesUp? then end == q + size else end == q - size
    ensures FitsAt(c, t, end)
  {
    SignedEnd(Guard.Inventory(s.guard, t.slug), Sign(side), size, end, t.implied, c.guard.cap);
  }

  lemma StaysInside(c: ValidConfig, t: Tick, q: real, end: real, after: real)
    requires FitsAt(c, t, q) && FitsAt(c, t, end)
    requires q <= after <= end || end <= after <= q
    ensures FitsAt(c, t, after)
  {
    Toward(q, end, after, t.implied, c.guard.cap);
  }

  lemma MovedByFills(c: ValidConfig, w: World, t: Tick)
    requires Inv(c, w)
    ensures Guard.Inventory(HandleTick(c, w, t).strategy.guard, t.slug)
         == Guard.Inventory(w.strategy.guard, t.slug)
          + NetFills(FillsOf(FilledNow(c, w, t), t.ts, c.makerFeeBps), InstrumentYes(t.slug))
  {
    InventoryStep(c, w, t, t.slug);
    NetConcat(w.fills, FillsOf(FilledNow(c, w, t), t.ts, c.makerFeeBps), InstrumentYes(t.slug));
  }

  // ----- what fills is what rests

  /** A filled order is the one of its side's resting quote. */
  lemma FilledRests(c: ValidConfig, w: World, t: Tick, o: LimitOrder)
    requires Inv(c, w) && o in FilledNow(c, w, t)
    ensures o.side == BookSideOf(o.coid.side) && !o.coid.side.NoSide? && o.instrument == InstrumentYes(t.slug)
    ensures Resting(c, w.strategy, t, o.coid.side) == Some(QuoteOf(o))
  {
    var r := OnTick(c, w.strategy, t);
    var d := DispatchAll(c, w.orders, r.actions, t);
    OnTickKeepsInv(c, w, t);
    FilledMember(d.orders, InstrumentYes(t.slug), t.implied, t.ts);
    assert Backed(c, r.strategy.ledger, o);
    InstrumentInjective(o.coid.slug, t.slug);
    SidesMatch(c, r.strategy.ledger, o);
    RestingIsLive(c, w, t, o.coid.side);
  }

  lemma FilledNowDistinct(c: ValidConfig, w: World, t: Tick)
    requires Inv(c, w)
    ensures Distinct(FilledNow(c, w, t))
  {
    OnTickKeepsInv(c, w, t);
    FilledDistinct(DispatchAll(c, w.orders, OnTick(c, w.strategy, t).actions, t).orders, InstrumentYes(t.slug), t.implied, t.ts);
  }

  predicate Bought(filled: seq<LimitOrder>) { exists o :: o in filled && o.side.Buy? }
  predicate Sold(filled: seq<LimitOrder>) { exists o :: o in filled && o.side.Sell? }

  /** The net of at most one fill a side, of known sizes. */
  lemma NetOfPattern(orders: seq<LimitOrder>, ts: real, feeBps: real, inst: string, up: real, down: real)
    requires forall i :: 0 <= i < |orders| ==> orders[i].instrument == inst && !orders[i].side.Unknown?
    requires forall i :: 0 <= i < |orders| ==> orders[i].qty == if orders[i].side.Buy? then up else down
    requires forall i, j :: 0 <= i < j < |orders| ==> orders[i].side != orders[j].side
    ensures NetFills(FillsOf(orders, ts, feeBps), inst)
         == (if Bought(orders) then up else 0.0) - (if Sold(orders) then down else 0.0)
  {
    var fills := FillsOf(orders, ts, feeBps);
    assert |orders| <= 2;
    if |orders| == 1 {
      assert fills[..0] == [];
      assert NetFills(fills, inst) == SignedQty(fills[0]);
      assert orders[0] in orders;
    } else if |orders| == 2 {
      assert fills[..1] == [fills[0]] && [fills[0]][..0] == [];
      assert NetFills([fills[0]], inst) == SignedQty(fills[0]);
      assert NetFills(fills, inst) == SignedQty(fills[0]) + SignedQty(fills[1]);
      assert orders[0] in orders && orders[1] in orders;
    }
  }

  function SizeOf(q: Option<LiveQuote>): real { if q.Some? then q.value.qty else 0.0 }

  /** The position after the resting sides named by `up` and `down` have filled. */
  function Moved(c: ValidConfig, s: Strategy, t: Tick, up: bool, down: bool): real
  {
    Guard.Inventory(s.guard, t.slug)
    + (if up then SizeOf(Resting(c, s, t, YesUp)) else 0.0)
    - (if down then SizeOf(Resting(c, s, t, YesDown)) else 0.0)
  }

  /** The fills of a tick: one a side at most, of the resting sizes. */
  lemma FilledSizes(c: ValidConfig, w: World, t: Tick)
    requires Inv(c, w)
    ensures var filled := FilledNow(c, w, t);
            && (forall i :: 0 <= i < |filled| ==>
                  && filled[i].instrument == InstrumentYes(t.slug) && !filled[i].side.Unknown?
                  && filled[i].qty == SizeOf(Resting(c, w.strategy, t, if filled[i].side.Buy? then YesUp else YesDown)))
            && (forall i, j :: 0 <= i < j < |filled| ==> filled[i].side != filled[j].side)
  {
    var filled := FilledNow(c, w, t);
    FilledNowDistinct(c, w, t);
    forall i | 0 <= i < |filled|
      ensures filled[i].side == BookSideOf(filled[i].coid.side) && !filled[i].coid.side.NoSide?
      ensures filled[i].instrument == InstrumentYes(t.slug)
      ensures Resting(c, w.strategy, t, filled[i].coid.side) == Some(QuoteOf(filled[i]))
    {
      FilledRests(c, w, t, filled[i]);
    }
  }

  /** Every tick moves the position by the resting size of the sides that fill. */
  lemma TickFollowsAPattern(c: ValidConfig, w: World, t: Tick)
    requires Inv(c, w)
    ensures var filled := FilledNow(c, w, t);
            Guard.Inventory(HandleTick(c, w, t).strategy.guard, t.slug)
            == Moved(c, w.strategy, t, Bought(filled), Sold(filled))
  {
    var up, down := SizeOf(Resting(c, w.strategy, t, YesUp)), SizeOf(Resting(c, w.strategy, t, YesDown));
    MovedByFills(c, w, t);
    FilledSizes(c, w, t);
    NetOfPattern(FilledNow(c, w, t), t.ts, c.makerFeeBps, InstrumentYes(t.slug), up, down);
  }

  // ----- the exact condition

  /** Whatever subset of the resting sides fills, the position stays within the cap. */
  ghost predicate EveryPatternFits(c: ValidConfig, s: Strategy, t: Tick)
  {
    forall up, down :: FitsAt(c, t, Moved(c, s, t, up, down))
  }

  /** The size of each quote that is kept, rather than posted anew, fits on its own. */
  predicate KeptSizesFit(c: ValidConfig, s: Strategy, t: Tick)
  {
    && (Keeps(c, s, t, YesUp) ==> FitsAt(c, t, Guard.Inventory(s.guard, t.slug) + Existing(s, t, YesUp).value.qty))
    && (Keeps(c, s, t, YesDown) ==> FitsAt(c, t, Guard.Inventory(s.guard, t.slug) - Existing(s, t, YesDown).value.qty))
  }

  /** A quote posted on this tick has the projected size, which fits. */
  lemma NewSizeFits(c: ValidConfig, s: Strategy, t: Tick, side: Side, end: real)
    requires Resting(c, s, t, side).Some? && !Keeps(c, s, t, side)
    requires var q, size := Guard.Inventory(s.guard, t.slug), SizeOf(Resting(c, s, t, side));
             if side.YesUp? then end == q + size else end == q - size
    ensures FitsAt(c, t, end)
  {
    OpenSide(c, s, t, side, SizeNow(c, s, t), end);
  }

  /** What a side leaves if it fills alone. */
  lemma SideFits(c: ValidConfig, s: Strategy, t: Tick, side: Side, end: real)
    requires WithinCap(c, s, t) && KeptSizesFit(c, s, t) && !side.NoSide?
    requires var q, size := Guard.Inventory(s.guard, t.slug), SizeOf(Resting(c, s, t, side));
             if side.YesUp? then end == q + size else end == q - size
    ensures FitsAt(c, t, end)
  {
    if Resting(c, s, t, side).Some? && !Keeps(c, s, t, side) {
      NewSizeFits(c, s, t, side, end);
    }
  }

  lemma SizesArePositive(c: ValidConfig, s: Strategy, t: Tick, side: Side)
    requires LedgerOk(c, s.ledger) && c.stake > 0.0
    ensures SizeOf(Resting(c, s, t, side)) >= 0.0
  {
    SizeIsOk(c, Targets(c, s, t).0);
    ExistingForFinds(Live(s.ledger, t.slug), side);
    LiveOk(c, s.ledger, t.slug);
  }

  /** Both sides at once end between the two ends. */
  lemma BothFit(c: ValidConfig, t: Tick, q: real, up: real, down: real, after: real)
    requires FitsAt(c, t, q) && FitsAt(c, t, up) && FitsAt(c, t, down)
    requires down <= q <= up && down <= after <= up
    ensures FitsAt(c, t, after)
  {
    if after >= q {
      StaysInside(c, t, q, up, after);
    } else {
      StaysInside(c, t, q, down, after);
    }
  }

  lemma PatternFits(c: ValidConfig, s: Strategy, t: Tick, up: bool, down: bool)
    requires LedgerOk(c, s.ledger) && c.stake > 0.0 && WithinCap(c, s, t) && KeptSizesFit(c, s, t)
    ensures FitsAt(c, t, Moved(c, s, t, up, down))
  {
    var q := Guard.Inventory(s.guard, t.slug);
    var hi, lo := q + SizeOf(Resting(c, s, t, YesUp)), q - SizeOf(Resting(c, s, t, YesDown));
    SizesArePositive(c, s, t, YesUp);
    SizesArePositive(c, s, t, YesDown);
    SideFits(c, s, t, YesUp, hi);
    SideFits(c, s, t, YesDown, lo);
    BothFit(c, t, q, hi, lo, Moved(c, s, t, up, down));
  }

  /** The exact condition: from a position within the cap, every hit pattern of the
      resting sides keeps it if and only if each kept quote's own size fits. */
  lemma PatternsFitIff(c: ValidConfig, s: Strategy, t: Tick)
    requires LedgerOk(c, s.ledger) && c.stake > 0.0 && WithinCap(c, s, t)
    ensures EveryPatternFits(c, s, t) <==> KeptSizesFit(c, s, t)
  {
    if KeptSizesFit(c, s, t) {
      forall up, down ensures FitsAt(c, t, Moved(c, s, t, up, down)) {
        PatternFits(c, s, t, up, down);
      }
    }
    if EveryPatternFits(c, s, t) {
      AlonePattern(c, s, t);
    }
  }

  lemma AlonePattern(c: ValidConfig, s: Strategy, t: Tick)
    requires FitsAt(c, t, Moved(c, s, t, true, false)) && FitsAt(c, t, Moved(c, s, t, false, true))
    ensures KeptSizesFit(c, s, t)
  {
    assert Keeps(c, s, t, YesUp) ==> Moved(c, s, t, true, false) == Guard.Inventory(s.guard, t.slug) + Existing(s, t, YesUp).value.qty;
    assert Keeps(c, s, t, YesDown) ==> Moved(c, s, t, false, true) == Guard.Inventory(s.guard, t.slug) - Existing(s, t, YesDown).value.qty;
  }

  /** So a tick keeps the cap if, before it, each kept quote's own size fits. */
  lemma KeptSizesKeepTheCap(c: ValidConfig, w: World, t: Tick)
    requires Inv(c, w) && WithinCap(c, w.strategy, t) && KeptSizesFit(c, w.strategy, t)
    ensures WithinCap(c, HandleTick(c, w, t).strategy, t)
  {
    var filled := FilledNow(c, w, t);
    TickFollowsAPattern(c, w, t);
    if c.stake > 0.0 {
      PatternFits(c, w.strategy, t, Bought(filled), Sold(filled));
    } else {
      NothingFills(c, w, t);
    }
  }

  lemma NothingFills(c: ValidConfig, w: World, t: Tick)
    requires Inv(c, w) && c.stake <= 0.0
    ensures FilledNow(c, w, t) == []
  {
    OnTickKeepsInv(c, w, t);
  }

  /** In particular if no kept quote is larger than a new one would be. */
  lemma ProjectedSizesKeepTheCap(c: ValidConfig, w: World, t: Tick)
    requires Inv(c, w) && WithinCap(c, w.strategy, t)
    requires forall side :: Keeps(c, w.strategy, t, side) ==>
               Existing(w.strategy, t, side).value.qty <= SizeNow(c, w.strategy, t)
    ensures WithinCap(c, HandleTick(c, w, t).strategy, t)
  {
    if c.stake > 0.0 {
      SmallerFits(c, w.strategy, t, YesUp);
      SmallerFits(c, w.strategy, t, YesDown);
      KeptSizesKeepTheCap(c, w, t);
    } else {
      TickFollowsAPattern(c, w, t);
      NothingFills(c, w, t);
    }
  }

  lemma SmallerFits(c: ValidConfig, s: Strategy, t: Tick, side: Side)
    requires LedgerOk(c, s.ledger) && c.stake > 0.0 && WithinCap(c, s, t) && !side.NoSide?
    requires Keeps(c, s, t, side) ==> Existing(s, t, side).value.qty <= SizeNow(c, s, t)
    ensures Keeps(c, s, t, side) ==>
              var q, size := Guard.Inventory(s.guard, t.slug), Existing(s, t, side).value.qty;
              FitsAt(c, t, if side.YesUp? then q + size else q - size)
  {
    if Keeps(c, s, t, side) {
      SizesArePositive(c, s, t, side);
      var q, size := Guard.Inventory(s.guard, t.slug), SizeNow(c, s, t);
      var end := if side.YesUp? then q + size else q - size;
      OpenSide(c, s, t, side, size, end);
      var kept := Existing(s, t, side).value.qty;
      StaysInside(c, t, q, end, if side.YesUp? then q + kept else q - kept);
    }
  }

  // ----- exactly what a tick does, in agreement with the book

  /** The tick's price crosses the resting quote of the side. */
  predicate IsHit(c: ValidConfig, s: Strategy, t: Tick, side: Side)
  {
    var q := Resting(c, s, t, side);
    && !t.paused && 0.0 < t.implied < 1.0 && q.Some?
    && (if side.YesUp? then t.implied <= q.value.price else t.implied >= q.value.price)
  }

  lemma FilledIsHit(c: ValidConfig, w: World, t: Tick, o: LimitOrder)
    requires Inv(c, w) && o in FilledNow(c, w, t)
    ensures IsHit(c, w.strategy, t, o.coid.side)
  {
    FilledRests(c, w, t, o);
    FilledMember(DispatchAll(c, w.orders, OnTick(c, w.strategy, t).actions, t).orders, InstrumentYes(t.slug), t.implied, t.ts);
  }

  /** A resting quote has its order in the book, if nothing slips. */
  lemma RestingHasOrder(c: ValidConfig, w: World, t: Tick, side: Side) returns (o: LimitOrder)
    requires Inv(c, w) && InSync(w) && !side.NoSide? && Resting(c, w.strategy, t, side).Some? && !t.paused && !Slip(c, w, t)
    ensures o in DispatchAll(c, w.orders, OnTick(c, w.strategy, t).actions, t).orders
    ensures QuoteOf(o) == Resting(c, w.strategy, t, side).value
    ensures o.side == BookSideOf(side) && o.instrument == InstrumentYes(t.slug)
  {
    var r := OnTick(c, w.strategy, t);
    var d := DispatchAll(c, w.orders, r.actions, t);
    var q := Resting(c, w.strategy, t, side).value;
    OnTickKeepsInv(c, w, t);
    SlipIff(c, w, t);
    DispatchSync(c, w, t);
    RestsOnSide(w.strategy, c, t, side);
    RestingIsLive(c, w, t, side);
    LiveOk(c, r.strategy.ledger, t.slug);
    assert q in Live(r.strategy.ledger, t.slug);
    o :| o in d.orders && o.coid == q.coid;
    assert Backed(c, r.strategy.ledger, o);
    OneQuotePerSide(c, t.slug, Live(r.strategy.ledger, t.slug), QuoteOf(o), q);
  }

  lemma RestsOnSide(s: Strategy, c: ValidConfig, t: Tick, side: Side)
    ensures Resting(c, s, t, side).Some? ==> Resting(c, s, t, side).value.side == side
  {
    ExistingForFinds(Live(s.ledger, t.slug), side);
  }

  lemma HitIsFilled(c: ValidConfig, w: World, t: Tick, side: Side) returns (o: LimitOrder)
    requires Inv(c, w) && InSync(w) && !side.NoSide? && IsHit(c, w.strategy, t, side) && !Slip(c, w, t)
    ensures o in FilledNow(c, w, t) && o.side == BookSideOf(side)
  {
    o := RestingHasOrder(c, w, t, side);
    SlipIff(c, w, t);
    FilledMember(DispatchAll(c, w.orders, OnTick(c, w.strategy, t).actions, t).orders, InstrumentYes(t.slug), t.implied, t.ts);
    assert o !in Lapsed(DispatchAll(c, w.orders, OnTick(c, w.strategy, t).actions, t).orders, InstrumentYes(t.slug), t.ts);
  }

  /** From agreement and without a slip, the sides that fill are exactly those whose
      resting price the tick crosses, so whether the tick keeps the cap is decided before it. */
  lemma CapKeptIff(c: ValidConfig, w: World, t: Tick)
    requires Inv(c, w) && InSync(w) && !Slip(c, w, t)
    ensures var after := Moved(c, w.strategy, t, IsHit(c, w.strategy, t, YesUp), IsHit(c, w.strategy, t, YesDown));
            && Guard.Inventory(HandleTick(c, w, t).strategy.guard, t.slug) == after
            && (WithinCap(c, HandleTick(c, w, t).strategy, t) <==> FitsAt(c, t, after))
  {
    TickFollowsAPattern(c, w, t);
    FillsAreHits(c, w, t);
  }

  lemma FillsAreHits(c: ValidConfig, w: World, t: Tick)
    requires Inv(c, w) && InSync(w) && !Slip(c, w, t)
    ensures Bought(FilledNow(c, w, t)) <==> IsHit(c, w.strategy, t, YesUp)
    ensures Sold(FilledNow(c, w, t)) <==> IsHit(c, w.strategy, t, YesDown)
  {
    var filled := FilledNow(c, w, t);
    forall o | o in filled ensures IsHit(c, w.strategy, t, o.coid.side) && o.side == BookSideOf(o.coid.side) && !o.coid.side.NoSide? {
      FilledRests(c, w, t, o);
      FilledIsHit(c, w, t, o);
    }
    if IsHit(c, w.strategy, t, YesUp) {
      var o := HitIsFilled(c, w, t, YesUp);
    }
    if IsHit(c, w.strategy, t, YesDown) {
      var o := HitIsFilled(c, w, t, YesDown);
    }
  }
}
