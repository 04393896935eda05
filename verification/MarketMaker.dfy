/** One market-making instance as a function of its joint state: the quote ledger and
    guard of `MMRebateV1`, the resting orders of its `LimitBookSim`, and the fills the
    driver has reported. One tick is one step. */
module MarketMaker {
  import opened Common
  import opened Quoting
  import opened LimitBook
  import Guard = SafetyGuard

  datatype Config = Config(
    name: string, slugPattern: Option<string>,
    zoneLo: real, zoneHi: real, deadLo: real, deadHi: real,
    entryStart: real, stake: real, ttlSeconds: int, quoting: ASParams,
    guard: Guard.GuardParams, makerFeeBps: real)

  type ValidConfig = c: Config | ValidWindow(c.quoting)
    witness Config("", None, 0.0, 0.0, 0.0, 0.0, 0.0, 0.0, 0, ASParams(0.0, 1, 0.0, 0.0, 0.0),
                   Guard.GuardParams(0.0, 0.0, 0, 0, 0, 0, 0.0, false), 0.0)

  /** A tick with everything the step reads from outside: the fill intensity `k` and
      its logarithmic term, the pause switch, the verdict of the global caps for a
      new bid and a new ask, and the wall-clock reading of each call site. */
  datatype Tick = Tick(
    slug: string, ts: real, tInWindow: real, implied: real, k: real, logTerm: real,
    paused: bool, dropBid: bool, dropAsk: bool, clock: nat -> real)

  datatype LiveQuote = LiveQuote(coid: Coid, side: Side, price: real, qty: real)

  datatype NewQuote = NewQuote(side: Side, price: real, qty: real, slug: string, ttlSeconds: int, seed: string)

  datatype Action = PostQuote(quote: NewQuote) | CancelQuote(coid: Coid) | ReplaceQuote(replaced: Coid, quote: NewQuote)

  type Ledger = map<string, seq<LiveQuote>>

  datatype Strategy = Strategy(ledger: Ledger, guard: Guard.GuardState)

  datatype Reply = Reply(strategy: Strategy, actions: seq<Action>)

  function Micros(ts: real): int { (ts * 1000000.0 + 0.5).Floor }

  function Sign(side: Side): real { if side.YesUp? then 1.0 else -1.0 }

  function Seed(side: Side): string { if side.YesUp? then "bid" else "ask" }

  function BookSideOf(side: Side): BookSide { if side.YesUp? then Buy else Sell }

  function InstrumentYes(slug: string): string { slug + "-YES.POLYMARKET" }

  // ----- the strategy's ledger

  function Live(ledger: Ledger, slug: string): seq<LiveQuote>
  {
    if slug in ledger then ledger[slug] else []
  }

  function ExistingFor(quotes: seq<LiveQuote>, side: Side): Option<LiveQuote>
  {
    if quotes == [] then None
    else if quotes[0].side == side then Some(quotes[0])
    else ExistingFor(quotes[1..], side)
  }

  function OtherThan(coid: Coid): LiveQuote -> bool { (q: LiveQuote) => q.coid != coid }

  function Untrack(ledger: Ledger, slug: string, coid: Coid): Ledger
  {
    ledger[slug := Filter(OtherThan(coid), Live(ledger, slug))]
  }

  function TrackNew(ledger: Ledger, slug: string, q: LiveQuote): Ledger
  {
    ledger[slug := Live(ledger, slug) + [q]]
  }

  // ----- the strategy's reaction to a tick

  function CancelsFor(quotes: seq<LiveQuote>): seq<Action>
  {
    seq(|quotes|, i requires 0 <= i < |quotes| => CancelQuote(quotes[i].coid))
  }

  function CancelsRecorded(c: ValidConfig, g: Guard.GuardState, slug: string, n: nat, clock: nat -> real):
    Guard.GuardState
  {
    if n == 0 then g else Guard.Cancelled(c.guard, CancelsRecorded(c, g, slug, n - 1, clock), slug, clock(n))
  }

  function CancelAllFor(c: ValidConfig, s: Strategy, t: Tick): Reply
  {
    var live := Live(s.ledger, t.slug);
    if live == [] then Reply(s, [])
    else Reply(Strategy(s.ledger[t.slug := []], CancelsRecorded(c, s.guard, t.slug, |live|, t.clock)),
               CancelsFor(live))
  }

  predicate SideBlocked(c: ValidConfig, g: Guard.GuardState, t: Tick, side: Side, qty: real)
  {
    Guard.Blocks(c.guard, g, t.slug, Sign(side), qty, t.implied)
  }

  function QuoteFor(c: ValidConfig, t: Tick, side: Side, price: real, qty: real): NewQuote
  {
    NewQuote(side, price, qty, t.slug, c.ttlSeconds, Seed(side))
  }

  function CoidFor(c: ValidConfig, t: Tick, side: Side): Coid
  {
    Coid(c.name, t.slug, Micros(t.ts), side, Seed(side))
  }

  /** `_post_or_replace_side`; `now` is the reading of the guard's clock on this side. */
  function SideStep(c: ValidConfig, s: Strategy, t: Tick, side: Side, price: real, qty: real, now: real): Reply
  {
    var existing := ExistingFor(Live(s.ledger, t.slug), side);
    var quote := LiveQuote(CoidFor(c, t, side), side, price, qty);
    if SideBlocked(c, s.guard, t, side, qty) then
      if existing.None? then Reply(s, [])
      else Reply(Strategy(Untrack(s.ledger, t.slug, existing.value.coid),
                          Guard.Cancelled(c.guard, s.guard, t.slug, now)),
                 [CancelQuote(existing.value.coid)])
    else if existing.None? then
      Reply(s.(ledger := TrackNew(s.ledger, t.slug, quote)), [PostQuote(QuoteFor(c, t, side, price, qty))])
    else if Abs(existing.value.price - price) >= 0.01 then
      Reply(Strategy(TrackNew(Untrack(s.ledger, t.slug, existing.value.coid), t.slug, quote),
                     Guard.Cancelled(c.guard, s.guard, t.slug, now)),
            [ReplaceQuote(existing.value.coid, QuoteFor(c, t, side, price, qty))])
    else Reply(s, [])
  }

  predicate Listens(c: ValidConfig, slug: string)
  {
    c.slugPattern.None? || c.slugPattern.value <= slug
  }

  /** The zone and time gates that come before the guard is asked. */
  predicate GatesOpen(c: ValidConfig, t: Tick)
  {
    && InActiveZone(t.implied, c.zoneLo, c.zoneHi, c.deadLo, c.deadHi)
    && InQuotingWindow(t.tInWindow, c.quoting, c.entryStart)
  }

  predicate MayQuote(c: ValidConfig, s: Strategy, t: Tick)
  {
    && Listens(c, t.slug)
    && GatesOpen(c, t)
    && !Guard.Killed(Guard.MarketOf(s.guard, t.slug), t.clock(0))
    && !(t.tInWindow > c.quoting.windowSeconds as real - c.guard.tauTerminal)
  }

  function Targets(c: ValidConfig, s: Strategy, t: Tick): (real, real)
  {
    OptimalBidAsk(t.implied, Guard.Inventory(s.guard, t.slug), t.k, t.logTerm, c.quoting, t.tInWindow)
  }

  function NominalSize(c: ValidConfig, bid: real): real
  {
    c.stake / Max(bid, 0.001)
  }

  /** The strategy after the guard was asked about a kill. */
  function AfterKillCheck(c: ValidConfig, s: Strategy, t: Tick): Strategy
  {
    if GatesOpen(c, t) then s.(guard := Guard.KillChecked(s.guard, t.slug, t.clock(0))) else s
  }

  function OnTick(c: ValidConfig, s: Strategy, t: Tick): Reply
  {
    if !Listens(c, t.slug) then Reply(s, [])
    else
      var s1 := AfterKillCheck(c, s, t);
      if !MayQuote(c, s, t) then CancelAllFor(c, s1, t)
      else
        var (bid, ask) := Targets(c, s, t);
        var qty := NominalSize(c, bid);
        var up := SideStep(c, s1, t, YesUp, bid, qty, t.clock(1));
        var down := SideStep(c, up.strategy, t, YesDown, ask, qty, t.clock(2));
        Reply(down.strategy, up.actions + down.actions)
  }

  /** `on_fill`: move the inventory, record the fill, drop the quote. */
  function OnFill(c: ValidConfig, s: Strategy, slug: string, f: LimitFill, now: real): Strategy
  {
    var side := if f.side.Buy? then YesUp else YesDown;
    Strategy(Untrack(s.ledger, slug, f.coid),
             Guard.FillRecorded(c.guard, Guard.InventoryMoved(s.guard, slug, Sign(side), f.qty), slug, now))
  }

  function OnFills(c: ValidConfig, s: Strategy, t: Tick, fills: seq<LimitFill>): Strategy
  {
    if fills == [] then s
    else OnFill(c, OnFills(c, s, t, fills[..|fills| - 1]), t.slug, fills[|fills| - 1], t.clock(2 + |fills|))
  }

  // ----- the driver

  function OrderFor(c: ValidConfig, t: Tick, q: NewQuote): LimitOrder
  {
    LimitOrder(Coid(c.name, t.slug, Micros(t.ts), q.side, q.seed), c.name, InstrumentYes(t.slug),
               BookSideOf(q.side), q.price, q.qty, t.ts,
               if q.ttlSeconds > 0 then Some(q.ttlSeconds as real) else None)
  }

  /** The book after some actions; `raised` if placing one failed with an error, which
      abandons the rest of the tick, and `dropped` if the global caps refused one. */
  datatype Dispatched = Dispatched(orders: seq<LimitOrder>, raised: bool, dropped: bool)

  function PlaceOrder(orders: seq<LimitOrder>, o: LimitOrder): Dispatched
  {
    if !WellPriced(o) then Dispatched(orders, true, false)
    else if o.coid in Ids(orders) then Dispatched(orders, false, false)
    else Dispatched(orders + [o], false, false)
  }

  predicate CapDrops(t: Tick, side: Side) { if side.YesUp? then t.dropBid else t.dropAsk }

  function Dispatch(c: ValidConfig, orders: seq<LimitOrder>, a: Action, t: Tick): Dispatched
  {
    match a
    case PostQuote(q) =>
      if CapDrops(t, q.side) then Dispatched(orders, false, true)
      else PlaceOrder(orders, OrderFor(c, t, q))
    case CancelQuote(coid) => Dispatched(Without(orders, {coid}), false, false)
    case ReplaceQuote(replaced, q) =>
      if replaced in Ids(orders) then PlaceOrder(Without(orders, {replaced}), OrderFor(c, t, q))
      else Dispatched(orders, false, false)
  }

  function DispatchAll(c: ValidConfig, orders: seq<LimitOrder>, actions: seq<Action>, t: Tick): Dispatched
  {
    if actions == [] then Dispatched(orders, false, false)
    else
      var d := DispatchAll(c, orders, actions[..|actions| - 1], t);
      if d.raised then d
      else
        var e := Dispatch(c, d.orders, actions[|actions| - 1], t);
        e.(dropped := d.dropped || e.dropped)
  }

  datatype World = World(strategy: Strategy, orders: seq<LimitOrder>, fills: seq<LimitFill>)

  const START := World(Strategy(map[], Guard.EMPTY_GUARD), [], [])

  predicate MatcherRuns(t: Tick, d: Dispatched)
  {
    !d.raised && 0.0 < t.implied < 1.0
  }

  function HandleTick(c: ValidConfig, w: World, t: Tick): World
  {
    if t.paused then w
    else
      var reply := OnTick(c, w.strategy, t);
      var d := DispatchAll(c, w.orders, reply.actions, t);
      if !MatcherRuns(t, d) then World(reply.strategy, d.orders, w.fills)
      else
        var inst := InstrumentYes(t.slug);
        var fills := FillsOf(Filled(d.orders, inst, t.implied, t.ts), t.ts, c.makerFeeBps);
        World(OnFills(c, reply.strategy, t, fills),
              AfterTick(d.orders, inst, t.implied, t.ts),
              w.fills + fills)
  }

  function RunTicks(c: ValidConfig, ticks: seq<Tick>): World
  {
    if ticks == [] then START
    else HandleTick(c, RunTicks(c, ticks[..|ticks| - 1]), ticks[|ticks| - 1])
  }
}
