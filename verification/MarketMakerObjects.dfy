/** The strategy and driver objects, method by method as the source updates them, each
    proved to take the step the functions of `MarketMaker` describe. */
module MarketMakerObjects {
  import opened Common
  import opened Quoting
  import opened LimitBook
  import opened MarketMaker
  import Loop = MarketMakerLoop
  import Guard = SafetyGuard

  class MMRebateV1 {
    const c: ValidConfig
    const safety: Guard.MMSafetyGuard
    var liveQuotes: Ledger

    ghost predicate Valid()
    {
      safety.p == c.guard
    }

    ghost function State(): Strategy
      reads this, safety
    {
      Strategy(liveQuotes, safety.State())
    }

    constructor (c: ValidConfig)
      ensures Valid() && fresh(safety) && this.c == c
      ensures State() == START.strategy
    {
      this.c := c;
      safety := new Guard.MMSafetyGuard(c.guard);
      liveQuotes := map[];
    }

    method OnTick(t: Tick) returns (actions: seq<Action>)
      requires Valid()
      modifies this, safety
      ensures Reply(State(), actions) == MarketMaker.OnTick(c, old(State()), t)
    {
      if c.slugPattern.Some? && !(c.slugPattern.value <= t.slug) {
        return [];
      }
      if !InActiveZone(t.implied, c.zoneLo, c.zoneHi, c.deadLo, c.deadHi) {
        actions := CancelAllForMarket(t);
        return;
      }
      if !InQuotingWindow(t.tInWindow, c.quoting, c.entryStart) {
        actions := CancelAllForMarket(t);
        return;
      }
      var killed := safety.IsMarketKilled(t.slug, t.clock(0));
      if killed {
        actions := CancelAllForMarket(t);
        return;
      }
      var terminal := safety.BlockTerminal(t.tInWindow, c.quoting.windowSeconds);
      if terminal {
        actions := CancelAllForMarket(t);
        return;
      }
      var inventory := if t.slug in safety.inventory then safety.inventory[t.slug] else 0.0;
      var (bid, ask) := OptimalBidAsk(t.implied, inventory, t.k, t.logTerm, c.quoting, t.tInWindow);
      var qty := c.stake / Max(bid, 0.001);
      var up := PostOrReplaceSide(t, YesUp, bid, qty, t.clock(1));
      var down := PostOrReplaceSide(t, YesDown, ask, qty, t.clock(2));
      actions := up + down;
    }

    method CancelAllForMarket(t: Tick) returns (actions: seq<Action>)
      requires Valid()
      modifies this, safety
      ensures Reply(State(), actions) == CancelAllFor(c, old(State()), t)
    {
      var live := if t.slug in liveQuotes then liveQuotes[t.slug] else [];
      actions := CancelsFor(live);
      if actions != [] {
        RecordCancels(t.slug, |live|, t.clock);
        liveQuotes := liveQuotes[t.slug := []];
      }
    }

    /** One guard record per cancelled quote. */
    method RecordCancels(slug: string, n: nat, clock: nat -> real)
      requires Valid()
      modifies safety
      ensures safety.State() == CancelsRecorded(c, old(safety.State()), slug, n, clock)
    {
      for i := 0 to n
        invariant safety.State() == CancelsRecorded(c, old(safety.State()), slug, i, clock)
      {
        safety.RecordCancelAt(slug, clock(i + 1));
      }
    }

    method PostOrReplaceSide(t: Tick, side: Side, price: real, qty: real, now: real) returns (actions: seq<Action>)
      requires Valid()
      modifies this, safety
      ensures Reply(State(), actions) == SideStep(c, old(State()), t, side, price, qty, now)
    {
      var blocked := safety.BlockPostQuote(t.slug, Sign(side), qty, t.implied);
      var existing := Existing(t.slug, side);
      if blocked {
        if existing.None? {
          return [];
        }
        UntrackQuote(t.slug, existing.value.coid);
        safety.RecordCancelAt(t.slug, now);
        return [CancelQuote(existing.value.coid)];
      }
      var quote := LiveQuote(CoidFor(c, t, side), side, price, qty);
      if existing.None? {
        TrackQuote(t.slug, quote);
        return [PostQuote(QuoteFor(c, t, side, price, qty))];
      }
      if Abs(existing.value.price - price) >= 0.01 {
        UntrackQuote(t.slug, existing.value.coid);
        TrackQuote(t.slug, quote);
        safety.RecordCancelAt(t.slug, now);
        return [ReplaceQuote(existing.value.coid, QuoteFor(c, t, side, price, qty))];
      }
      return [];
    }

    method Existing(slug: string, side: Side) returns (found: Option<LiveQuote>)
      ensures found == ExistingFor(Live(liveQuotes, slug), side)
    {
      var quotes := if slug in liveQuotes then liveQuotes[slug] else [];
      var i := 0;
      assert quotes[0..] == quotes;
      while i < |quotes|
        invariant 0 <= i <= |quotes|
        invariant ExistingFor(quotes[i..], side) == ExistingFor(quotes, side)
      {
        if quotes[i].side == side {
          return Some(quotes[i]);
        }
        assert quotes[i..][1..] == quotes[i + 1..];
        i := i + 1;
      }
      found := None;
    }

    method TrackQuote(slug: string, q: LiveQuote)
      modifies this`liveQuotes
      ensures liveQuotes == TrackNew(old(liveQuotes), slug, q)
    {
      liveQuotes := liveQuotes[slug := (if slug in liveQuotes then liveQuotes[slug] else []) + [q]];
    }

    method UntrackQuote(slug: string, coid: Coid)
      modifies this`liveQuotes
      ensures liveQuotes == Untrack(old(liveQuotes), slug, coid)
    {
      var live := if slug in liveQuotes then liveQuotes[slug] else [];
      liveQuotes := liveQuotes[slug := Filter(OtherThan(coid), live)];
    }

    method OnFill(slug: string, f: LimitFill, now: real)
      requires Valid()
      modifies this, safety
      ensures State() == MarketMaker.OnFill(c, old(State()), slug, f, now)
    {
      var side := if f.side.Buy? then YesUp else YesDown;
      safety.RecordInventoryAfterFill(slug, if side == YesUp then 1.0 else -1.0, f.qty);
      safety.RecordFillAt(slug, now);
      UntrackQuote(slug, f.coid);
    }
  }

  class MMPaperDriver {
    const strategy: MMRebateV1
    const book: LimitBookSim
    var paused: bool
    var today: Option<int>
    var dailyTrades: nat
    ghost var fills: seq<LimitFill>

    ghost predicate Valid()
      reads this, strategy, strategy.safety, book
    {
      && strategy.Valid() && book.Valid()
      && book.makerFeeBps == strategy.c.makerFeeBps
      && Loop.Inv(strategy.c, State())
    }

    ghost function State(): World
      reads this, strategy, strategy.safety, book
    {
      World(strategy.State(), book.orders, fills)
    }

    constructor (c: ValidConfig)
      ensures Valid() && fresh(strategy) && fresh(strategy.safety) && fresh(book)
      ensures strategy.c == c && State() == START && today == None && dailyTrades == 0
    {
      var s := new MMRebateV1(c);
      strategy := s;
      book := new LimitBookSim(c.makerFeeBps);
      paused, today, dailyTrades := false, None, 0;
      fills := [];
    }

    method Roll(ts: real)
      modifies this`today, this`dailyTrades
      ensures today == Some(UtcDay(ts))
      ensures dailyTrades == if old(today) == today then old(dailyTrades) else 0
    {
      if today != Some(UtcDay(ts)) {
        today, dailyTrades := Some(UtcDay(ts)), 0;
      }
    }

    /** One tick of the driver: the joint state takes exactly one step, so every state the
        object reaches satisfies the loop invariant, and the trade counter of the day
        moves by the fills. */
    method HandleTick(t: Tick)
      requires Valid() && t.paused == paused
      modifies this`fills, this`today, this`dailyTrades, strategy, strategy.safety, book
      ensures Valid()
      ensures State() == MarketMaker.HandleTick(strategy.c, old(State()), t)
      ensures today == Some(UtcDay(t.ts)) && |fills| >= |old(fills)|
      ensures dailyTrades == (if old(today) == today then old(dailyTrades) else 0) + |fills| - |old(fills)|
    {
      Loop.StepKeepsInv(strategy.c, State(), t);
      Roll(t.ts);
      if paused {
        return;
      }
      var actions := strategy.OnTick(t);
      var raised, dropped := DispatchActions(actions, t);
      if raised || !(0.0 < t.implied < 1.0) {
        return;
      }
      var matched := book.OnTick(InstrumentYes(t.slug), t.implied, t.ts);
      fills := fills + matched;
      ReportFills(matched, t);
    }

    /** The loop over actions; an error while placing leaves it early. */
    method DispatchActions(actions: seq<Action>, t: Tick) returns (raised: bool, ghost dropped: bool)
      requires book.Valid()
      modifies book
      ensures book.Valid()
      ensures Dispatched(book.orders, raised, dropped) == DispatchAll(strategy.c, old(book.orders), actions, t)
    {
      raised, dropped := false, false;
      var i := 0;
      while i < |actions| && !raised
        invariant 0 <= i <= |actions| && book.Valid()
        invariant Dispatched(book.orders, raised, dropped) == DispatchAll(strategy.c, old(book.orders), actions[..i], t)
      {
        assert actions[..i + 1][..|actions[..i + 1]| - 1] == actions[..i];
        var failed, refused := DispatchAction(actions[i], t);
        raised, dropped := failed, dropped || refused;
        i := i + 1;
      }
      assert actions[..i] + actions[i..] == actions;
      Loop.DispatchConcat(strategy.c, old(book.orders), actions[..i], actions[i..], t);
    }

    /** The loop over fills, each reported to the strategy. */
    method ReportFills(matched: seq<LimitFill>, t: Tick)
      requires strategy.Valid()
      modifies this`dailyTrades, strategy, strategy.safety
      ensures strategy.State() == OnFills(strategy.c, old(strategy.State()), t, matched)
      ensures dailyTrades == old(dailyTrades) + |matched|
    {
      for j := 0 to |matched|
        invariant dailyTrades == old(dailyTrades) + j
        invariant strategy.State() == OnFills(strategy.c, old(strategy.State()), t, matched[..j])
      {
        assert matched[..j + 1][..|matched[..j + 1]| - 1] == matched[..j];
        strategy.OnFill(t.slug, matched[j], t.clock(3 + j));
        dailyTrades := dailyTrades + 1;
      }
      assert matched[..|matched|] == matched;
    }

    method DispatchAction(a: Action, t: Tick) returns (raised: bool, ghost dropped: bool)
      requires book.Valid()
      modifies book
      ensures book.Valid()
      ensures Dispatched(book.orders, raised, dropped) == Dispatch(strategy.c, old(book.orders), a, t)
    {
      raised, dropped := false, false;
      match a
      case PostQuote(q) =>
        if CapDrops(t, q.side) {
          dropped := true;
          return;
        }
        var result := book.Place(OrderFor(strategy.c, t, q));
        raised := result.ValueError?;
      case CancelQuote(coid) =>
        var _ := book.Cancel(coid);
      case ReplaceQuote(replaced, q) =>
        var before := book.orders;
        var ok := book.Cancel(replaced);
        if ok {
          var result := book.Place(OrderFor(strategy.c, t, q));
          raised := result.ValueError?;
        } else {
          FilterAll(NotIn({replaced}), before);
        }
    }
  }
}
