/** The quote that each side of a market will have once the strategy has reacted to a
    tick, told from the state before the tick. */
module RestingQuotes {
  import opened Common
  import opened LimitBook
  import opened MarketMaker
  import opened MarketMakerLoop
  import Guard = SafetyGuard

  // ----- one side, for given price and size

  function Existing(s: Strategy, t: Tick, side: Side): Option<LiveQuote>
  {
    ExistingFor(Live(s.ledger, t.slug), side)
  }

  /** The live quote moved less than a cent and keeps its price and its size. */
  predicate SideKeeps(c: ValidConfig, s: Strategy, t: Tick, side: Side, price: real, qty: real)
  {
    var e := Existing(s, t, side);
    !SideBlocked(c, s.guard, t, side, qty) && e.Some? && Abs(e.value.price - price) < 0.01
  }

  function SideResting(c: ValidConfig, s: Strategy, t: Tick, side: Side, price: real, qty: real): Option<LiveQuote>
  {
    if SideBlocked(c, s.guard, t, side, qty) then None
    else if SideKeeps(c, s, t, side, price, qty) then Existing(s, t, side)
    else Some(LiveQuote(CoidFor(c, t, side), side, price, qty))
  }

  /** A quote is to be placed and will not be: the book refuses it, or the global caps do. */
  predicate SideSlips(c: ValidConfig, s: Strategy, t: Tick, side: Side, price: real, qty: real)
  {
    && !SideBlocked(c, s.guard, t, side, qty) && !SideKeeps(c, s, t, side, price, qty)
    && (price <= 0.0 || qty <= 0.0 || (Existing(s, t, side).None? && CapDrops(t, side)))
  }

  /** A side step leaves exactly the resting quote on its side. */
  lemma SideRests(c: ValidConfig, s: Strategy, t: Tick, side: Side, price: real, qty: real, now: real)
    requires LedgerOk(c, s.ledger)
    ensures forall q: LiveQuote :: q.side == side ==>
              (q in Live(SideStep(c, s, t, side, price, qty, now).strategy.ledger, t.slug)
               <==> SideResting(c, s, t, side, price, qty) == Some(q))
  {
    var quotes := Live(s.ledger, t.slug);
    ExistingForFinds(quotes, side);
    LiveOk(c, s.ledger, t.slug);
    var existing := ExistingFor(quotes, side);
    if existing.Some? {
      UntrackKeepsOthers(c, s.ledger, t.slug, existing.value.coid);
      forall q | q in quotes && q.side == side ensures q == existing.value {
        OneQuotePerSide(c, t.slug, quotes, q, existing.value);
      }
    }
  }

  /** In agreement with the book, dispatching a side fails exactly if the side slips. */
  lemma SideSlipsIff(c: ValidConfig, s: Strategy, orders: seq<LimitOrder>, t: Tick, side: Side, price: real, qty: real, now: real)
    requires Existing(s, t, side).Some? ==> Existing(s, t, side).value.coid in Ids(orders)
    ensures var d := DispatchAll(c, orders, SideStep(c, s, t, side, price, qty, now).actions, t);
            d.raised || d.dropped <==> SideSlips(c, s, t, side, price, qty)
  {
    var actions := SideStep(c, s, t, side, price, qty, now).actions;
    DispatchEmpty(c, orders, t);
    if actions != [] {
      DispatchSingle(c, orders, actions[0], t);
    }
  }

  /** The actions of a side name only orders of that side, and there are none if the
      side keeps its quote. */
  lemma SideActions(c: ValidConfig, s: Strategy, t: Tick, side: Side, price: real, qty: real, now: real)
    requires LedgerOk(c, s.ledger)
    ensures var actions := SideStep(c, s, t, side, price, qty, now).actions;
            && (forall i :: 0 <= i < |actions| ==> TouchesOnly(actions[i], side))
            && (SideKeeps(c, s, t, side, price, qty) ==> actions == [])
  {
    var quotes := Live(s.ledger, t.slug);
    ExistingForFinds(quotes, side);
    LiveOk(c, s.ledger, t.slug);
  }

  predicate TouchesOnly(a: Action, side: Side)
  {
    (a.CancelQuote? ==> a.coid.side == side) && (a.ReplaceQuote? ==> a.replaced.side == side)
  }

  /** What is found of a side does not depend on the other side's quotes. */
  lemma SameSide(c: ValidConfig, s: Strategy, s': Strategy, t: Tick, side: Side)
    requires LedgerOk(c, s.ledger) && LedgerOk(c, s'.ledger)
    requires forall q: LiveQuote :: q.side == side ==> (q in Live(s.ledger, t.slug) <==> q in Live(s'.ledger, t.slug))
    ensures Existing(s, t, side) == Existing(s', t, side)
  {
    ExistingForFinds(Live(s.ledger, t.slug), side);
    ExistingForFinds(Live(s'.ledger, t.slug), side);
    LiveOk(c, s.ledger, t.slug);
    var e, e' := Existing(s, t, side), Existing(s', t, side);
    if e.Some? && e'.Some? {
      OneQuotePerSide(c, t.slug, Live(s.ledger, t.slug), e.value, e'.value);
    }
  }

  // ----- the whole tick

  function TargetOf(c: ValidConfig, s: Strategy, t: Tick, side: Side): real
  {
    if side.YesUp? then Targets(c, s, t).0 else Targets(c, s, t).1
  }

  function SizeNow(c: ValidConfig, s: Strategy, t: Tick): real { NominalSize(c, Targets(c, s, t).0) }

  predicate Keeps(c: ValidConfig, s: Strategy, t: Tick, side: Side)
  {
    MayQuote(c, s, t) && SideKeeps(c, s, t, side, TargetOf(c, s, t, side), SizeNow(c, s, t))
  }

  function Resting(c: ValidConfig, s: Strategy, t: Tick, side: Side): Option<LiveQuote>
  {
    if MayQuote(c, s, t) then SideResting(c, s, t, side, TargetOf(c, s, t, side), SizeNow(c, s, t)) else None
  }

  predicate Slips(c: ValidConfig, s: Strategy, t: Tick, side: Side)
  {
    MayQuote(c, s, t) && SideSlips(c, s, t, side, TargetOf(c, s, t, side), SizeNow(c, s, t))
  }

  /** The two side steps of a tick. */
  function UpStep(c: ValidConfig, s: Strategy, t: Tick): Reply
  {
    SideStep(c, AfterKillCheck(c, s, t), t, YesUp, TargetOf(c, s, t, YesUp), SizeNow(c, s, t), t.clock(1))
  }

  function DownStep(c: ValidConfig, s: Strategy, t: Tick): Reply
  {
    SideStep(c, UpStep(c, s, t).strategy, t, YesDown, TargetOf(c, s, t, YesDown), SizeNow(c, s, t), t.clock(2))
  }

  lemma TickIsTwoSteps(c: ValidConfig, s: Strategy, t: Tick)
    requires MayQuote(c, s, t)
    ensures OnTick(c, s, t) == Reply(DownStep(c, s, t).strategy, UpStep(c, s, t).actions + DownStep(c, s, t).actions)
  {
  }

  /** What the second step finds of its own side is what the tick found. */
  lemma StepsAreIndependent(c: ValidConfig, s: Strategy, t: Tick)
    requires LedgerOk(c, s.ledger) && MayQuote(c, s, t)
    ensures var s1, s2 := AfterKillCheck(c, s, t), UpStep(c, s, t).strategy;
            && LedgerOk(c, s1.ledger) && LedgerOk(c, s2.ledger)
            && Existing(s1, t, YesUp) == Existing(s, t, YesUp) && Existing(s2, t, YesDown) == Existing(s, t, YesDown)
            && s1.guard.inventory == s.guard.inventory && s2.guard.inventory == s.guard.inventory
  {
    SizeIsOk(c, Targets(c, s, t).0);
    KillCheckFrame(c, s, t);
    UpLeavesDown(c, s, AfterKillCheck(c, s, t), t, TargetOf(c, s, t, YesUp), SizeNow(c, s, t), t.clock(1));
  }

  lemma KillCheckFrame(c: ValidConfig, s: Strategy, t: Tick)
    ensures AfterKillCheck(c, s, t).ledger == s.ledger && AfterKillCheck(c, s, t).guard.inventory == s.guard.inventory
  {
  }

  lemma UpLeavesDown(c: ValidConfig, s: Strategy, s1: Strategy, t: Tick, price: real, qty: real, now: real)
    requires LedgerOk(c, s.ledger) && Listens(c, t.slug) && SizeOk(c, qty)
    requires s1.ledger == s.ledger && s1.guard.inventory == s.guard.inventory
    ensures var s2 := SideStep(c, s1, t, YesUp, price, qty, now).strategy;
            && LedgerOk(c, s2.ledger)
            && Existing(s2, t, YesDown) == Existing(s, t, YesDown)
            && s2.guard.inventory == s.guard.inventory
  {
    SideLedger(c, s1, t, YesUp, price, qty, now);
    SameSide(c, s, SideStep(c, s1, t, YesUp, price, qty, now).strategy, t, YesDown);
  }

  /** A side that is found as before has the same fate as before. */
  lemma SameFate(c: ValidConfig, s: Strategy, s': Strategy, t: Tick, side: Side, price: real, qty: real)
    requires s'.guard.inventory == s.guard.inventory && Existing(s', t, side) == Existing(s, t, side)
    ensures SideKeeps(c, s', t, side, price, qty) == SideKeeps(c, s, t, side, price, qty)
    ensures SideResting(c, s', t, side, price, qty) == SideResting(c, s, t, side, price, qty)
    ensures SideSlips(c, s', t, side, price, qty) == SideSlips(c, s, t, side, price, qty)
  {
    SameBlock(c, s.guard, s'.guard, t, side, qty);
  }

  lemma SameBlock(c: ValidConfig, g: Guard.GuardState, g': Guard.GuardState, t: Tick, side: Side, qty: real)
    requires g'.inventory == g.inventory
    ensures SideBlocked(c, g', t, side, qty) == SideBlocked(c, g, t, side, qty)
  {
    assert Guard.Inventory(g', t.slug) == Guard.Inventory(g, t.slug);
  }

  lemma UpRests(c: ValidConfig, s: Strategy, t: Tick)
    requires LedgerOk(c, s.ledger) && MayQuote(c, s, t)
    ensures forall q: LiveQuote :: q.side == YesUp ==>
              (q in Live(UpStep(c, s, t).strategy.ledger, t.slug) <==> Resting(c, s, t, YesUp) == Some(q))
  {
    StepsAreIndependent(c, s, t);
    SameFate(c, s, AfterKillCheck(c, s, t), t, YesUp, TargetOf(c, s, t, YesUp), SizeNow(c, s, t));
    SideRests(c, AfterKillCheck(c, s, t), t, YesUp, TargetOf(c, s, t, YesUp), SizeNow(c, s, t), t.clock(1));
  }

  lemma DownRests(c: ValidConfig, s: Strategy, t: Tick)
    requires LedgerOk(c, s.ledger) && MayQuote(c, s, t)
    ensures forall q: LiveQuote :: q.side == YesDown ==>
              (q in Live(DownStep(c, s, t).strategy.ledger, t.slug) <==> Resting(c, s, t, YesDown) == Some(q))
    ensures forall q: LiveQuote :: q.side == YesUp ==>
              (q in Live(DownStep(c, s, t).strategy.ledger, t.slug) <==> q in Live(UpStep(c, s, t).strategy.ledger, t.slug))
  {
    StepsAreIndependent(c, s, t);
    SizeIsOk(c, Targets(c, s, t).0);
    var up := UpStep(c, s, t).strategy;
    SameFate(c, s, up, t, YesDown, TargetOf(c, s, t, YesDown), SizeNow(c, s, t));
    SideRests(c, up, t, YesDown, TargetOf(c, s, t, YesDown), SizeNow(c, s, t), t.clock(2));
    SideLedger(c, up, t, YesDown, TargetOf(c, s, t, YesDown), SizeNow(c, s, t), t.clock(2));
  }

  /** After the reaction each side has exactly its resting quote. */
  lemma RestingIsLive(c: ValidConfig, w: World, t: Tick, side: Side)
    requires Inv(c, w) && !side.NoSide?
    ensures forall q: LiveQuote :: q.side == side ==>
              (q in Live(OnTick(c, w.strategy, t).strategy.ledger, t.slug) <==> Resting(c, w.strategy, t, side) == Some(q))
  {
    if !MayQuote(c, w.strategy, t) {
      GivenUpLedger(c, w, t);
    } else {
      TickIsTwoSteps(c, w.strategy, t);
      UpRests(c, w.strategy, t);
      DownRests(c, w.strategy, t);
    }
  }
}
