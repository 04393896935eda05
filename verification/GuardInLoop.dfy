/** The guard inside the market-making loop: each market of a run goes through the guard's
    history of that market's own cancels, fills and kill checks, so what is proved about
    histories holds in the loop. */
module GuardInLoop {
  import opened Common
  import opened LimitBook
  import opened MarketMaker
  import opened MarketMakerLoop
  import Guard = SafetyGuard

  // ----- histories as folds

  function Apply(p: Guard.GuardParams, st: Guard.MarketState, e: Guard.Event): Guard.MarketState
  {
    match e
    case Cancel(now) => Guard.RecordCancel(p, st, now)
    case Fill(now) => Guard.RecordFill(p, st, now)
    case Check(now) => Guard.CheckKilled(st, now)
  }

  function Fold(p: Guard.GuardParams, st: Guard.MarketState, events: seq<Guard.Event>): Guard.MarketState
  {
    if events == [] then st else Apply(p, Fold(p, st, events[..|events| - 1]), events[|events| - 1])
  }

  lemma {:induction false} FoldConcat(p: Guard.GuardParams, st: Guard.MarketState, a: seq<Guard.Event>, b: seq<Guard.Event>)
    ensures Fold(p, st, a + b) == Fold(p, Fold(p, st, a), b)
  {
    if b == [] {
      assert a + b == a;
    } else {
      assert (a + b)[..|a + b| - 1] == a + b[..|b| - 1];
      FoldConcat(p, st, a, b[..|b| - 1]);
    }
  }

  lemma {:induction false} HistoryIsFold(p: Guard.GuardParams, events: seq<Guard.Event>)
    ensures Guard.Run(p, events).st == Fold(p, Guard.FRESH, events)
  {
    if events != [] {
      HistoryIsFold(p, events[..|events| - 1]);
    }
  }

  lemma FoldOne(p: Guard.GuardParams, st: Guard.MarketState, e: Guard.Event)
    ensures Fold(p, st, [e]) == Apply(p, st, e)
  {
    assert [e][..0] == [];
    assert Fold(p, st, [e][..0]) == st;
  }

  // ----- the events of a tick

  function CancelEvents(n: nat, clock: nat -> real): seq<Guard.Event>
  {
    seq(n, i requires 0 <= i < n => Guard.Cancel(clock(i + 1)))
  }

  function FillEvents(n: nat, clock: nat -> real): seq<Guard.Event>
  {
    seq(n, i requires 0 <= i < n => Guard.Fill(clock(3 + i)))
  }

  /** A side is cancelled when it is blocked or moved with a quote on it. */
  function SideEvents(c: ValidConfig, s: Strategy, t: Tick, side: Side, price: real, qty: real, now: real): seq<Guard.Event>
  {
    var e := ExistingFor(Live(s.ledger, t.slug), side);
    if e.Some? && (SideBlocked(c, s.guard, t, side, qty) || Abs(e.value.price - price) >= 0.01) then [Guard.Cancel(now)] else []
  }

  function ReactionEvents(c: ValidConfig, s: Strategy, t: Tick): seq<Guard.Event>
  {
    if !MayQuote(c, s, t) then CancelEvents(|Live(s.ledger, t.slug)|, t.clock)
    else
      var (bid, ask) := Targets(c, s, t);
      var qty := NominalSize(c, bid);
      var s1 := AfterKillCheck(c, s, t);
      SideEvents(c, s1, t, YesUp, bid, qty, t.clock(1))
      + SideEvents(c, SideStep(c, s1, t, YesUp, bid, qty, t.clock(1)).strategy, t, YesDown, ask, qty, t.clock(2))
  }

  function CheckEvents(c: ValidConfig, t: Tick): seq<Guard.Event>
  {
    if GatesOpen(c, t) then [Guard.Check(t.clock(0))] else []
  }

  function OnTickEvents(c: ValidConfig, s: Strategy, t: Tick): seq<Guard.Event>
  {
    if !Listens(c, t.slug) then [] else CheckEvents(c, t) + ReactionEvents(c, s, t)
  }

  function TickEvents(c: ValidConfig, w: World, t: Tick): seq<Guard.Event>
  {
    if t.paused then []
    else
      var d := DispatchAll(c, w.orders, OnTick(c, w.strategy, t).actions, t);
      OnTickEvents(c, w.strategy, t) + if MatcherRuns(t, d) then FillEvents(|WouldFill(c, w, t)|, t.clock) else []
  }

  /** The guard's events of one market over a run. */
  function MarketEvents(c: ValidConfig, ticks: seq<Tick>, slug: string): seq<Guard.Event>
  {
    if ticks == [] then []
    else
      var init, t := ticks[..|ticks| - 1], ticks[|ticks| - 1];
      MarketEvents(c, init, slug) + if t.slug == slug then TickEvents(c, RunTicks(c, init), t) else []
  }

  // ----- the guard takes exactly these events

  /** From g to g' one market took some events and the others none. */
  ghost predicate Took(p: Guard.GuardParams, g: Guard.GuardState, g': Guard.GuardState, slug: string, events: seq<Guard.Event>)
  {
    && Guard.MarketOf(g', slug) == Fold(p, Guard.MarketOf(g, slug), events)
    && forall other :: other != slug ==> Guard.MarketOf(g', other) == Guard.MarketOf(g, other)
  }

  lemma TookConcat(p: Guard.GuardParams, g: Guard.GuardState, g1: Guard.GuardState, g2: Guard.GuardState, slug: string,
                   a: seq<Guard.Event>, b: seq<Guard.Event>)
    requires Took(p, g, g1, slug, a) && Took(p, g1, g2, slug, b)
    ensures Took(p, g, g2, slug, a + b)
  {
    FoldConcat(p, Guard.MarketOf(g, slug), a, b);
  }

  lemma TookCancel(p: Guard.GuardParams, g: Guard.GuardState, slug: string, now: real)
    ensures Took(p, g, Guard.Cancelled(p, g, slug, now), slug, [Guard.Cancel(now)])
  {
    FoldOne(p, Guard.MarketOf(g, slug), Guard.Cancel(now));
  }

  lemma TookFill(p: Guard.GuardParams, g: Guard.GuardState, slug: string, sign: real, qty: real, now: real)
    ensures Took(p, g, Guard.FillRecorded(p, Guard.InventoryMoved(g, slug, sign, qty), slug, now), slug, [Guard.Fill(now)])
  {
    FoldOne(p, Guard.MarketOf(g, slug), Guard.Fill(now));
  }

  lemma TookCheck(p: Guard.GuardParams, g: Guard.GuardState, slug: string, now: real)
    ensures Took(p, g, Guard.KillChecked(g, slug, now), slug, [Guard.Check(now)])
  {
    FoldOne(p, Guard.MarketOf(g, slug), Guard.Check(now));
  }

  lemma TookNothing(p: Guard.GuardParams, g: Guard.GuardState, slug: string)
    ensures Took(p, g, g, slug, [])
  {
  }

  lemma {:induction false} CancelsTook(c: ValidConfig, g: Guard.GuardState, slug: string, n: nat, clock: nat -> real)
    ensures Took(c.guard, g, CancelsRecorded(c, g, slug, n, clock), slug, CancelEvents(n, clock))
  {
    if n == 0 {
      TookNothing(c.guard, g, slug);
    } else {
      var before := CancelsRecorded(c, g, slug, n - 1, clock);
      CancelsTook(c, g, slug, n - 1, clock);
      TookCancel(c.guard, before, slug, clock(n));
      TookConcat(c.guard, g, before, CancelsRecorded(c, g, slug, n, clock), slug, CancelEvents(n - 1, clock), [Guard.Cancel(clock(n))]);
      assert CancelEvents(n, clock) == CancelEvents(n - 1, clock) + [Guard.Cancel(clock(n))];
    }
  }

  lemma OnFillTook(c: ValidConfig, s: Strategy, slug: string, f: LimitFill, now: real)
    ensures Took(c.guard, s.guard, OnFill(c, s, slug, f, now).guard, slug, [Guard.Fill(now)])
  {
    TookFill(c.guard, s.guard, slug, Sign(if f.side.Buy? then YesUp else YesDown), f.qty, now);
  }

  lemma {:induction false} FillsTook(c: ValidConfig, s: Strategy, t: Tick, fills: seq<LimitFill>)
    ensures Took(c.guard, s.guard, OnFills(c, s, t, fills).guard, t.slug, FillEvents(|fills|, t.clock))
  {
    if fills == [] {
      TookNothing(c.guard, s.guard, t.slug);
    } else {
      var n, init, f := |fills| - 1, fills[..|fills| - 1], fills[|fills| - 1];
      var before := OnFills(c, s, t, init);
      FillsTook(c, s, t, init);
      OnFillTook(c, before, t.slug, f, t.clock(3 + n));
      TookConcat(c.guard, s.guard, before.guard, OnFills(c, s, t, fills).guard, t.slug,
                 FillEvents(n, t.clock), [Guard.Fill(t.clock(3 + n))]);
      assert FillEvents(n + 1, t.clock) == FillEvents(n, t.clock) + [Guard.Fill(t.clock(3 + n))];
    }
  }

  lemma SideTook(c: ValidConfig, s: Strategy, t: Tick, side: Side, price: real, qty: real, now: real)
    ensures Took(c.guard, s.guard, SideStep(c, s, t, side, price, qty, now).strategy.guard, t.slug,
                 SideEvents(c, s, t, side, price, qty, now))
  {
    TookNothing(c.guard, s.guard, t.slug);
    TookCancel(c.guard, s.guard, t.slug, now);
  }

  lemma CheckTook(c: ValidConfig, s: Strategy, t: Tick)
    ensures Took(c.guard, s.guard, AfterKillCheck(c, s, t).guard, t.slug, CheckEvents(c, t))
    ensures AfterKillCheck(c, s, t).ledger == s.ledger
  {
    TookNothing(c.guard, s.guard, t.slug);
    TookCheck(c.guard, s.guard, t.slug, t.clock(0));
  }

  lemma ReactionTook(c: ValidConfig, s: Strategy, t: Tick)
    requires Listens(c, t.slug)
    ensures Took(c.guard, AfterKillCheck(c, s, t).guard, OnTick(c, s, t).strategy.guard, t.slug, ReactionEvents(c, s, t))
  {
    var s1 := AfterKillCheck(c, s, t);
    CheckTook(c, s, t);
    if !MayQuote(c, s, t) {
      TookNothing(c.guard, s1.guard, t.slug);
      CancelsTook(c, s1.guard, t.slug, |Live(s.ledger, t.slug)|, t.clock);
    } else {
      var (bid, ask) := Targets(c, s, t);
      var qty := NominalSize(c, bid);
      var up := SideStep(c, s1, t, YesUp, bid, qty, t.clock(1)).strategy;
      SideTook(c, s1, t, YesUp, bid, qty, t.clock(1));
      SideTook(c, up, t, YesDown, ask, qty, t.clock(2));
      TookConcat(c.guard, s1.guard, up.guard, OnTick(c, s, t).strategy.guard, t.slug,
                 SideEvents(c, s1, t, YesUp, bid, qty, t.clock(1)), SideEvents(c, up, t, YesDown, ask, qty, t.clock(2)));
    }
  }

  lemma OnTickTook(c: ValidConfig, s: Strategy, t: Tick)
    ensures Took(c.guard, s.guard, OnTick(c, s, t).strategy.guard, t.slug, OnTickEvents(c, s, t))
  {
    if Listens(c, t.slug) {
      CheckTook(c, s, t);
      ReactionTook(c, s, t);
      TookConcat(c.guard, s.guard, AfterKillCheck(c, s, t).guard, OnTick(c, s, t).strategy.guard, t.slug,
                 CheckEvents(c, t), ReactionEvents(c, s, t));
    } else {
      TookNothing(c.guard, s.guard, t.slug);
    }
  }

  lemma TickTook(c: ValidConfig, w: World, t: Tick)
    ensures Took(c.guard, w.strategy.guard, HandleTick(c, w, t).strategy.guard, t.slug, TickEvents(c, w, t))
  {
    if t.paused {
      TookNothing(c.guard, w.strategy.guard, t.slug);
    } else {
      var r := OnTick(c, w.strategy, t).strategy;
      var d := DispatchAll(c, w.orders, OnTick(c, w.strategy, t).actions, t);
      OnTickTook(c, w.strategy, t);
      if MatcherRuns(t, d) {
        var fills := FillsOf(WouldFill(c, w, t), t.ts, c.makerFeeBps);
        FillsTook(c, r, t, fills);
        TookConcat(c.guard, w.strategy.guard, r.guard, HandleTick(c, w, t).strategy.guard, t.slug,
                   OnTickEvents(c, w.strategy, t), FillEvents(|fills|, t.clock));
      } else {
        assert TickEvents(c, w, t) == OnTickEvents(c, w.strategy, t);
      }
    }
  }

  /** In every run each market's guard state is the history of its own events. */
  lemma {:induction false} GuardFollowsTheLoop(c: ValidConfig, ticks: seq<Tick>, slug: string)
    ensures Guard.MarketOf(RunTicks(c, ticks).strategy.guard, slug) == Guard.Run(c.guard, MarketEvents(c, ticks, slug)).st
  {
    HistoryIsFold(c.guard, MarketEvents(c, ticks, slug));
    if ticks != [] {
      var init, t := ticks[..|ticks| - 1], ticks[|ticks| - 1];
      GuardFollowsTheLoop(c, init, slug);
      HistoryIsFold(c.guard, MarketEvents(c, init, slug));
      TickTook(c, RunTicks(c, init), t);
      if t.slug == slug {
        FoldConcat(c.guard, Guard.FRESH, MarketEvents(c, init, slug), TickEvents(c, RunTicks(c, init), t));
      } else {
        assert MarketEvents(c, ticks, slug) == MarketEvents(c, init, slug);
      }
    }
  }

  // ----- and they come in order

  /** The wall clock never runs back, within a tick or from one to the next. */
  ghost predicate ClockRuns(ticks: seq<Tick>)
  {
    && (forall i :: 0 <= i < |ticks| ==> Rising(ticks[i].clock))
    && (forall i, j, a: nat, b: nat :: 0 <= i < j < |ticks| ==> ticks[i].clock(a) <= ticks[j].clock(b))
  }

  ghost predicate Rising(clock: nat -> real)
  {
    forall a: nat, b: nat :: a <= b ==> clock(a) <= clock(b)
  }

  ghost predicate Within(events: seq<Guard.Event>, lo: real, hi: real)
  {
    forall i :: 0 <= i < |events| ==> lo <= events[i].now <= hi
  }

  lemma OrderedConcat(a: seq<Guard.Event>, b: seq<Guard.Event>, lo: real, mid: real, mid': real, hi: real)
    requires Guard.Chronological(a) && Within(a, lo, mid) && Guard.Chronological(b) && Within(b, mid', hi)
    requires lo <= mid <= mid' <= hi
    ensures Guard.Chronological(a + b) && Within(a + b, lo, hi)
  {
  }

  lemma SideInOrder(c: ValidConfig, s: Strategy, t: Tick, side: Side, price: real, qty: real, now: real)
    ensures Guard.Chronological(SideEvents(c, s, t, side, price, qty, now))
    ensures Within(SideEvents(c, s, t, side, price, qty, now), now, now)
  {
  }

  lemma TwoQuotesAtMost(c: ValidConfig, ledger: Ledger, slug: string)
    requires LedgerOk(c, ledger)
    ensures |Live(ledger, slug)| <= 2
  {
    LiveOk(c, ledger, slug);
    ThirdRepeats(Live(ledger, slug));
  }

  lemma ThirdRepeats(quotes: seq<LiveQuote>)
    requires forall i :: 0 <= i < |quotes| ==> !quotes[i].side.NoSide?
    ensures |quotes| > 2 ==> exists i, j :: 0 <= i < j < |quotes| && quotes[i].side == quotes[j].side
  {
    if |quotes| > 2 {
      var a, b, d := quotes[0], quotes[1], quotes[2];
      assert a.side == b.side || a.side == d.side || b.side == d.side;
    }
  }

  lemma ReactionInOrder(c: ValidConfig, s: Strategy, t: Tick)
    requires LedgerOk(c, s.ledger) && Rising(t.clock)
    ensures Guard.Chronological(ReactionEvents(c, s, t)) && Within(ReactionEvents(c, s, t), t.clock(1), t.clock(2))
  {
    if !MayQuote(c, s, t) {
      TwoQuotesAtMost(c, s.ledger, t.slug);
    } else {
      var (bid, ask) := Targets(c, s, t);
      var qty := NominalSize(c, bid);
      var s1 := AfterKillCheck(c, s, t);
      var up := SideStep(c, s1, t, YesUp, bid, qty, t.clock(1)).strategy;
      SideInOrder(c, s1, t, YesUp, bid, qty, t.clock(1));
      SideInOrder(c, up, t, YesDown, ask, qty, t.clock(2));
      OrderedConcat(SideEvents(c, s1, t, YesUp, bid, qty, t.clock(1)), SideEvents(c, up, t, YesDown, ask, qty, t.clock(2)),
                    t.clock(1), t.clock(1), t.clock(2), t.clock(2));
    }
  }

  lemma OnTickInOrder(c: ValidConfig, s: Strategy, t: Tick)
    requires LedgerOk(c, s.ledger) && Rising(t.clock)
    ensures Guard.Chronological(OnTickEvents(c, s, t)) && Within(OnTickEvents(c, s, t), t.clock(0), t.clock(2))
  {
    if Listens(c, t.slug) {
      ReactionInOrder(c, s, t);
      OrderedConcat(CheckEvents(c, t), ReactionEvents(c, s, t), t.clock(0), t.clock(0), t.clock(1), t.clock(2));
    }
  }

  lemma TickInOrder(c: ValidConfig, w: World, t: Tick)
    requires Inv(c, w) && Rising(t.clock)
    ensures var n := |WouldFill(c, w, t)|;
            Guard.Chronological(TickEvents(c, w, t)) && Within(TickEvents(c, w, t), t.clock(0), t.clock(3 + n))
  {
    var n := |WouldFill(c, w, t)|;
    OnTickInOrder(c, w.strategy, t);
    OrderedConcat(OnTickEvents(c, w.strategy, t), FillEvents(n, t.clock), t.clock(0), t.clock(2), t.clock(3), t.clock(3 + n));
    assert OnTickEvents(c, w.strategy, t) + [] == OnTickEvents(c, w.strategy, t);
  }

  /** Bounded by every bound of the ticks' readings. */
  ghost predicate Bounded(events: seq<Guard.Event>, ticks: seq<Tick>)
  {
    forall hi :: Above(ticks, hi) ==> forall i :: 0 <= i < |events| ==> events[i].now <= hi
  }

  ghost predicate Above(ticks: seq<Tick>, hi: real)
  {
    forall i, k: nat :: 0 <= i < |ticks| ==> ticks[i].clock(k) <= hi
  }

  lemma Appended(a: seq<Guard.Event>, b: seq<Guard.Event>, mid: real)
    requires Guard.Chronological(a) && Guard.Chronological(b)
    requires (forall i :: 0 <= i < |a| ==> a[i].now <= mid) && forall i :: 0 <= i < |b| ==> mid <= b[i].now
    ensures Guard.Chronological(a + b)
  {
  }

  lemma {:induction false} EventsInOrder(c: ValidConfig, ticks: seq<Tick>, slug: string)
    requires ClockRuns(ticks)
    ensures Guard.Chronological(MarketEvents(c, ticks, slug)) && Bounded(MarketEvents(c, ticks, slug), ticks)
  {
    if ticks != [] {
      var init, t := ticks[..|ticks| - 1], ticks[|ticks| - 1];
      var w := RunTicks(c, init);
      var before, events := MarketEvents(c, init, slug), TickEvents(c, w, t);
      InitRuns(ticks);
      EventsInOrder(c, init, slug);
      RunKeepsInv(c, init);
      TickInOrder(c, w, t);
      Appended(before, events, t.clock(0));
      forall hi | Above(ticks, hi) ensures forall i :: 0 <= i < |MarketEvents(c, ticks, slug)| ==> MarketEvents(c, ticks, slug)[i].now <= hi {
        InitAbove(ticks, hi);
        assert t.clock(3 + |WouldFill(c, w, t)|) <= hi;
      }
    }
  }

  lemma InitAbove(ticks: seq<Tick>, hi: real)
    requires ticks != [] && Above(ticks, hi)
    ensures Above(ticks[..|ticks| - 1], hi)
  {
    var init := ticks[..|ticks| - 1];
    forall i, k: nat | 0 <= i < |init| ensures init[i].clock(k) <= hi {
      assert ticks[i].clock(k) <= hi;
    }
  }

  lemma InitRuns(ticks: seq<Tick>)
    requires ticks != [] && ClockRuns(ticks)
    ensures ClockRuns(ticks[..|ticks| - 1])
    ensures Above(ticks[..|ticks| - 1], ticks[|ticks| - 1].clock(0)) && Rising(ticks[|ticks| - 1].clock)
  {
    var init, last := ticks[..|ticks| - 1], |ticks| - 1;
    assert forall i :: 0 <= i < |init| ==> init[i] == ticks[i];
    forall i, k: nat | 0 <= i < |init| ensures init[i].clock(k) <= ticks[last].clock(0) {
      assert ticks[i].clock(k) <= ticks[last].clock(0);
    }
  }

  // ----- so the loop inherits what histories keep

  /** In every run, a market is only ever killed after enough breaches in the kill window. */
  lemma KillsInTheLoopAreJustified(c: ValidConfig, ticks: seq<Tick>, slug: string, until: real)
    requires ClockRuns(ticks)
    requires Guard.MarketOf(RunTicks(c, ticks).strategy.guard, slug).killedUntil == Some(until)
    ensures Guard.JustifiedKill(c.guard, Guard.Run(c.guard, MarketEvents(c, ticks, slug)).breachLog, until)
  {
    GuardFollowsTheLoop(c, ticks, slug);
    EventsInOrder(c, ticks, slug);
    Guard.KillsAreJustified(c.guard, MarketEvents(c, ticks, slug), until);
  }

  /** In every run the queued breaches of a market are a minute apart, at most K + 1 of
      them; and a threshold above that never stops a market. */
  lemma BreachesInTheLoopAreRare(c: ValidConfig, ticks: seq<Tick>, slug: string)
    requires ClockRuns(ticks)
    ensures var st := Guard.MarketOf(RunTicks(c, ticks).strategy.guard, slug);
            && Guard.Spaced(st.breaches) && |st.breaches| <= Guard.Minutes(c.guard) + 1
            && (c.guard.killThreshold > Guard.Minutes(c.guard) + 1 ==> st.killedUntil == None)
  {
    GuardFollowsTheLoop(c, ticks, slug);
    EventsInOrder(c, ticks, slug);
    Guard.BreachesAreRare(c.guard, MarketEvents(c, ticks, slug));
    if c.guard.killThreshold > Guard.Minutes(c.guard) + 1 {
      Guard.UnreachableThreshold(c.guard, MarketEvents(c, ticks, slug));
    }
  }

  /** Every cancel of every run is a breach, and kills the market, exactly when the logs of
      the market's earlier events say so. */
  lemma CancelsInTheLoopExactly(c: ValidConfig, ticks: seq<Tick>, slug: string, i: nat)
    requires ClockRuns(ticks) && i < |MarketEvents(c, ticks, slug)| && MarketEvents(c, ticks, slug)[i].Cancel?
    ensures var events := MarketEvents(c, ticks, slug);
            Guard.CancelTakesEffect(c.guard, Guard.CancelTimes(events[..i]), Guard.FillTimes(events[..i]),
                                    Guard.Run(c.guard, events[..i]), Guard.Run(c.guard, events[..i + 1]), events[i].now)
  {
    EventsInOrder(c, ticks, slug);
    Guard.EveryCancelExactly(c.guard, MarketEvents(c, ticks, slug), i);
  }
}
