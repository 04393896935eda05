/** The risk manager that gates entries: day roll, cooldown, rolling-loss pause, daily
    limits and the circuit breaker. */
module Risk {
  import opened Common
  import opened SlidingWindow

  datatype RiskConfig = RiskConfig(
    cooldown: real, lossLimit: real, tradeLimit: int,
    minEdgeBps: real, minZ: real, minDepth: real, maxSpread: real,
    pauseThreshold: real, pauseWindow: real, pauseDuration: real)

  datatype Close = Close(at: real, pnl: real)

  datatype RiskState = RiskState(
    day: int, cooldownUntil: real, dailyPnl: real, dailyTrades: int,
    tripped: bool, recent: seq<Close>, pauseUntil: real)

  datatype RiskCtx = RiskCtx(ts: real, spreadBps: real, depthYes: real, depthNo: real, z: real, edge: real)

  function NewDay(day: int): RiskState { RiskState(day, 0.0, 0.0, 0, false, [], 0.0) }

  function At(): Close -> real { (c: Close) => c.at }

  function Pnls(closes: seq<Close>): seq<real>
  {
    seq(|closes|, i requires 0 <= i < |closes| => closes[i].pnl)
  }

  function RollDay(s: RiskState, now: real): RiskState
  {
    if UtcDay(now) != s.day then NewDay(UtcDay(now)) else s
  }

  /** The gates that depend on the risk state, in the source's order. */
  predicate StateAllows(c: RiskConfig, s: RiskState, now: real)
  {
    && !s.tripped && now >= s.pauseUntil && now >= s.cooldownUntil
    && s.dailyTrades < c.tradeLimit && s.dailyPnl > -c.lossLimit
  }

  /** The gates that depend on the market. */
  predicate MarketAllows(c: RiskConfig, x: RiskCtx)
  {
    && x.spreadBps <= c.maxSpread
    && Min(x.depthYes, x.depthNo) >= c.minDepth
    && Abs(x.z) >= c.minZ
    && Abs(x.edge) * 10000.0 >= c.minEdgeBps
  }

  /** The breaker trips when only the loss limit stands in the way. */
  predicate Trips(c: RiskConfig, s: RiskState, now: real)
  {
    && !s.tripped && now >= s.pauseUntil && now >= s.cooldownUntil
    && s.dailyTrades < c.tradeLimit && s.dailyPnl <= -c.lossLimit
  }

  predicate Allowed(c: RiskConfig, s: RiskState, x: RiskCtx)
  {
    StateAllows(c, RollDay(s, x.ts), x.ts) && MarketAllows(c, x)
  }

  function AfterAsking(c: RiskConfig, s: RiskState, x: RiskCtx): RiskState
  {
    var r := RollDay(s, x.ts);
    if Trips(c, r, x.ts) then r.(tripped := true) else r
  }

  /** The rolling window as trimmed on a close. */
  function Trimmed(c: RiskConfig, recent: seq<Close>, pnl: real, now: real): seq<Close>
  {
    DropBefore(At(), recent + [Close(now, pnl)], now - c.pauseWindow)
  }

  predicate PausesOn(c: RiskConfig, s: RiskState, pnl: real, now: real)
  {
    c.pauseThreshold > 0.0 && Sum(Pnls(Trimmed(c, RollDay(s, now).recent, pnl, now))) <= -c.pauseThreshold
  }

  function Closed(c: RiskConfig, s: RiskState, pnl: real, now: real): RiskState
  {
    var r := RollDay(s, now);
    var booked := r.(dailyPnl := r.dailyPnl + pnl, dailyTrades := r.dailyTrades + 1,
                     cooldownUntil := now + c.cooldown);
    if c.pauseThreshold <= 0.0 then booked
    else if PausesOn(c, s, pnl, now) then booked.(recent := [], pauseUntil := now + c.pauseDuration)
    else booked.(recent := Trimmed(c, r.recent, pnl, now))
  }

  // ----- runs

  datatype RiskEvent = Ask(ctx: RiskCtx) | Book(pnl: real, now: real)

  function TimeOf(e: RiskEvent): real { if e.Ask? then e.ctx.ts else e.now }

  function Next(c: RiskConfig, s: RiskState, e: RiskEvent): RiskState
  {
    match e
    case Ask(x) => AfterAsking(c, s, x)
    case Book(pnl, now) => Closed(c, s, pnl, now)
  }

  function RunFrom(c: RiskConfig, s: RiskState, events: seq<RiskEvent>): RiskState
  {
    if events == [] then s
    else Next(c, RunFrom(c, s, events[..|events| - 1]), events[|events| - 1])
  }

  ghost predicate Chronological(events: seq<RiskEvent>)
  {
    forall i, j :: 0 <= i < j < |events| ==> TimeOf(events[i]) <= TimeOf(events[j])
  }

  /** The closes since the last day roll or pause, as a complete log. */
  function ClosesSince(c: RiskConfig, s: RiskState, log: seq<Close>, e: RiskEvent): seq<Close>
  {
    var kept := if UtcDay(TimeOf(e)) != s.day then [] else log;
    match e
    case Ask(_) => kept
    case Book(pnl, now) => if PausesOn(c, s, pnl, now) then [] else kept + [Close(now, pnl)]
  }

  function LogOf(c: RiskConfig, events: seq<RiskEvent>): seq<Close>
  {
    if events == [] then []
    else
      var init := events[..|events| - 1];
      ClosesSince(c, RunFrom(c, NewDay(0), init), LogOf(c, init), events[|events| - 1])
  }

  /** A queue is a log cut to the window that ends at the log's latest close. */
  ghost predicate WindowOf(c: RiskConfig, recent: seq<Close>, log: seq<Close>)
  {
    if log == [] then recent == []
    else recent == Filter(Since(At(), log[|log| - 1].at - c.pauseWindow), log)
  }

  /** A close appended to queue and log, with the queue trimmed. */
  lemma CloseSlides(c: RiskConfig, recent: seq<Close>, log: seq<Close>, pnl: real, now: real)
    requires WindowOf(c, recent, log) && Ordered(At(), log) && AtMost(At(), log, now)
    ensures WindowOf(c, Trimmed(c, recent, pnl, now), log + [Close(now, pnl)])
    ensures Ordered(At(), log + [Close(now, pnl)]) && AtMost(At(), log + [Close(now, pnl)], now)
  {
    var close := Close(now, pnl);
    OrderedSnoc(At(), log, close);
    var cutoff := if log == [] then now - c.pauseWindow else log[|log| - 1].at - c.pauseWindow;
    Slide(At(), log, recent, cutoff, [close], now - c.pauseWindow);
  }

  lemma WindowStep(c: RiskConfig, s: RiskState, log: seq<Close>, e: RiskEvent)
    requires c.pauseThreshold > 0.0
    requires WindowOf(c, s.recent, log) && Ordered(At(), log) && AtMost(At(), log, TimeOf(e))
    ensures var log' := ClosesSince(c, s, log, e);
            WindowOf(c, Next(c, s, e).recent, log') && Ordered(At(), log') && AtMost(At(), log', TimeOf(e))
  {
    if e.Book? {
      var kept := if UtcDay(e.now) != s.day then [] else log;
      CloseSlides(c, RollDay(s, e.now).recent, kept, e.pnl, e.now);
    }
  }

  /** For nondecreasing time, `recent_pnls` is exactly the closes since the last day
      roll or pause that lie in the rolling window. */
  lemma {:induction false} RecentPnlsAreTheWindow(c: RiskConfig, events: seq<RiskEvent>)
    requires c.pauseThreshold > 0.0 && Chronological(events)
    ensures WindowOf(c, RunFrom(c, NewDay(0), events).recent, LogOf(c, events))
    ensures Ordered(At(), LogOf(c, events))
    ensures events != [] ==> AtMost(At(), LogOf(c, events), TimeOf(events[|events| - 1]))
  {
    if events != [] {
      var init, e := events[..|events| - 1], events[|events| - 1];
      RecentPnlsAreTheWindow(c, init);
      assert init != [] ==> TimeOf(init[|init| - 1]) <= TimeOf(e);
      WindowStep(c, RunFrom(c, NewDay(0), init), LogOf(c, init), e);
    }
  }

  // ----- what a close forbids

  ghost predicate SameDay(day: int, events: seq<RiskEvent>)
  {
    forall i :: 0 <= i < |events| ==> UtcDay(TimeOf(events[i])) == day
  }

  ghost predicate NotBefore(t: real, events: seq<RiskEvent>)
  {
    forall i :: 0 <= i < |events| ==> TimeOf(events[i]) >= t
  }

  lemma {:induction false} LatchesHold(c: RiskConfig, s: RiskState, t0: real, pause: real, events: seq<RiskEvent>)
    requires s.day == UtcDay(t0) && SameDay(s.day, events) && NotBefore(t0, events)
    requires s.cooldownUntil >= t0 + c.cooldown && s.pauseUntil >= pause && pause <= t0 + c.pauseDuration
    ensures var s' := RunFrom(c, s, events);
            s'.day == s.day && s'.cooldownUntil >= t0 + c.cooldown && s'.pauseUntil >= pause
  {
    if events != [] {
      LatchesHold(c, s, t0, pause, events[..|events| - 1]);
      assert TimeOf(events[|events| - 1]) >= t0;
    }
  }

  /** After a close, every entry on that UTC day is denied until the cooldown ends, and
      if the close triggered a pause until the pause ends, whatever happens between. */
  lemma CloseForbidsEntries(c: RiskConfig, s: RiskState, pnl: real, t0: real, events: seq<RiskEvent>, x: RiskCtx)
    requires SameDay(UtcDay(t0), events) && NotBefore(t0, events) && UtcDay(x.ts) == UtcDay(t0)
    requires x.ts < t0 + c.cooldown || (PausesOn(c, s, pnl, t0) && x.ts < t0 + c.pauseDuration)
    ensures !Allowed(c, RunFrom(c, Closed(c, s, pnl, t0), events), x)
  {
    var s1 := Closed(c, s, pnl, t0);
    LatchesHold(c, s1, t0, if PausesOn(c, s, pnl, t0) then t0 + c.pauseDuration else Min(s1.pauseUntil, t0 + c.pauseDuration), events);
  }

  /** A tripped breaker stays tripped, and denies, for the rest of its UTC day. */
  lemma {:induction false} BreakerHolds(c: RiskConfig, s: RiskState, events: seq<RiskEvent>, x: RiskCtx)
    requires s.tripped && SameDay(s.day, events) && UtcDay(x.ts) == s.day
    ensures RunFrom(c, s, events).tripped && RunFrom(c, s, events).day == s.day
    ensures !Allowed(c, RunFrom(c, s, events), x)
  {
    if events != [] {
      BreakerHolds(c, s, events[..|events| - 1], x);
    }
  }

  // ----- the daily figures, from the events

  /** The events since the last change of date. */
  function SinceRoll(events: seq<RiskEvent>): seq<RiskEvent>
  {
    if |events| <= 1 then events
    else
      var init, e := events[..|events| - 1], events[|events| - 1];
      if UtcDay(TimeOf(e)) == UtcDay(TimeOf(init[|init| - 1])) then SinceRoll(init) + [e] else [e]
  }

  lemma {:induction false} SinceRollIsTheLastDay(events: seq<RiskEvent>) returns (k: nat)
    requires events != []
    ensures k < |events| && SinceRoll(events) == events[k..]
    ensures SameDay(UtcDay(TimeOf(events[|events| - 1])), events[k..])
    ensures k > 0 ==> UtcDay(TimeOf(events[k - 1])) != UtcDay(TimeOf(events[k]))
  {
    k := |events| - 1;
    if |events| > 1 {
      var init := events[..|events| - 1];
      if UtcDay(TimeOf(events[|events| - 1])) == UtcDay(TimeOf(init[|init| - 1])) {
        k := SinceRollIsTheLastDay(init);
        assert events[k..] == init[k..] + [events[|events| - 1]];
      }
    }
  }

  /** The results booked by some events, in order. */
  function Booked(events: seq<RiskEvent>): seq<real>
  {
    if events == [] then []
    else
      var e := events[|events| - 1];
      Booked(events[..|events| - 1]) + if e.Book? then [e.pnl] else []
  }

  lemma {:induction false} BookedConcat(a: seq<RiskEvent>, b: seq<RiskEvent>)
    ensures Booked(a + b) == Booked(a) + Booked(b)
  {
    if b == [] {
      assert a + b == a;
    } else {
      assert (a + b)[..|a + b| - 1] == a + b[..|b| - 1];
      BookedConcat(a, b[..|b| - 1]);
    }
  }

  /** A close adds its result, counts one trade and starts a cooldown; a new day starts
      from nothing. */
  lemma StepFigures(c: RiskConfig, s: RiskState, e: RiskEvent)
    ensures var r := if UtcDay(TimeOf(e)) == s.day then s else NewDay(UtcDay(TimeOf(e)));
            var s' := Next(c, s, e);
            && s'.day == UtcDay(TimeOf(e))
            && s'.dailyPnl == r.dailyPnl + (if e.Book? then e.pnl else 0.0)
            && s'.dailyTrades == r.dailyTrades + (if e.Book? then 1 else 0)
            && s'.cooldownUntil == (if e.Book? then e.now + c.cooldown else r.cooldownUntil)
  {
  }

  /** In every run of a new manager the daily result is the sum of what was booked since
      the last change of date, and the daily trades are its number. */
  lemma {:induction false} DailyFigures(c: RiskConfig, day: int, events: seq<RiskEvent>)
    ensures var s := RunFrom(c, NewDay(day), events);
            && s.day == (if events == [] then day else UtcDay(TimeOf(events[|events| - 1])))
            && s.dailyPnl == Sum(Booked(SinceRoll(events))) && s.dailyTrades == |Booked(SinceRoll(events))|
  {
    if events != [] {
      var init, e := events[..|events| - 1], events[|events| - 1];
      DailyFigures(c, day, init);
      StepFigures(c, RunFrom(c, NewDay(day), init), e);
      BookedConcat(SinceRoll(init), [e]);
      OneBooked(e);
      SumConcat(Booked(SinceRoll(init)), Booked([e]));
      assert |events| == 1 ==> init == [] && events == [e];
    }
  }

  lemma OneBooked(e: RiskEvent)
    ensures Booked([e]) == if e.Book? then [e.pnl] else []
    ensures Sum(Booked([e])) == if e.Book? then e.pnl else 0.0
  {
    assert [e][..0] == [];
    assert e.Book? ==> [e.pnl][..0] == [];
  }

  // ----- the gates, in plain terms

  /** An entry is allowed when the breaker, the pause, the cooldown, the daily limits and
      the four market gates all permit it, on the figures of its own day. */
  lemma AllowedInPlainTerms(c: RiskConfig, s: RiskState, x: RiskCtx)
    ensures var r := if UtcDay(x.ts) == s.day then s else NewDay(UtcDay(x.ts));
            Allowed(c, s, x) <==>
              && !r.tripped && x.ts >= r.pauseUntil && x.ts >= r.cooldownUntil
              && r.dailyTrades < c.tradeLimit && r.dailyPnl > -c.lossLimit
              && x.spreadBps <= c.maxSpread && x.depthYes >= c.minDepth && x.depthNo >= c.minDepth
              && (x.z >= c.minZ || -x.z >= c.minZ)
              && (x.edge * 10000.0 >= c.minEdgeBps || -x.edge * 10000.0 >= c.minEdgeBps)
  {
  }

  /** The breaker trips, whatever the market gates say, on the first attempt that only the
      loss limit stands against; asking changes nothing else but the day. */
  lemma AskingInPlainTerms(c: RiskConfig, s: RiskState, x: RiskCtx)
    ensures var r := if UtcDay(x.ts) == s.day then s else NewDay(UtcDay(x.ts));
            var s' := Next(c, s, Ask(x));
            && s' == r.(tripped := s'.tripped)
            && (s'.tripped <==>
                  (r.tripped || (x.ts >= r.pauseUntil && x.ts >= r.cooldownUntil
                                 && r.dailyTrades < c.tradeLimit && r.dailyPnl <= -c.lossLimit)))
  {
  }

  lemma PausesOnIff(c: RiskConfig, s: RiskState, kept: seq<Close>, pnl: real, now: real)
    requires c.pauseThreshold > 0.0
    requires WindowOf(c, RollDay(s, now).recent, kept) && Ordered(At(), kept) && AtMost(At(), kept, now)
    ensures PausesOn(c, s, pnl, now)
       <==> Sum(Pnls(Filter(Since(At(), now - c.pauseWindow), kept + [Close(now, pnl)]))) <= -c.pauseThreshold
  {
    CloseSlides(c, RollDay(s, now).recent, kept, pnl, now);
  }

  lemma ClosingInPlainTerms(c: RiskConfig, s: RiskState, log: seq<Close>, pnl: real, now: real)
    requires c.pauseThreshold > 0.0
    ensures var pauses := PausesOn(c, s, pnl, now);
            && Next(c, s, Book(pnl, now)).pauseUntil
               == (if pauses then now + c.pauseDuration else if UtcDay(now) == s.day then s.pauseUntil else 0.0)
            && ClosesSince(c, s, log, Book(pnl, now))
               == (if pauses then [] else (if UtcDay(now) == s.day then log else []) + [Close(now, pnl)])
  {
  }

  /** With the threshold off a close never pauses. */
  lemma NoPauseWhenOff(c: RiskConfig, s: RiskState, pnl: real, now: real)
    requires c.pauseThreshold <= 0.0
    ensures Next(c, s, Book(pnl, now)).pauseUntil == if UtcDay(now) == s.day then s.pauseUntil else 0.0
  {
  }

  /** The closes since the last roll or pause, once one more is booked. */
  function ClosesWith(c: RiskConfig, events: seq<RiskEvent>, pnl: real, now: real): seq<Close>
  {
    (if UtcDay(now) == RunFrom(c, NewDay(0), events).day then LogOf(c, events) else []) + [Close(now, pnl)]
  }

  /** A close pauses exactly when the closes since the last roll or pause that lie in the
      rolling window, this one included, have lost the threshold; and only then are they
      forgotten. */
  lemma PausesInPlainTerms(c: RiskConfig, events: seq<RiskEvent>, pnl: real, now: real)
    requires c.pauseThreshold > 0.0 && Chronological(events + [Book(pnl, now)])
    ensures var s := RunFrom(c, NewDay(0), events);
            var closes := ClosesWith(c, events, pnl, now);
            var pauses := Sum(Pnls(Filter(Since(At(), now - c.pauseWindow), closes))) <= -c.pauseThreshold;
            && RunFrom(c, NewDay(0), events + [Book(pnl, now)]).pauseUntil
               == (if pauses then now + c.pauseDuration else if UtcDay(now) == s.day then s.pauseUntil else 0.0)
            && LogOf(c, events + [Book(pnl, now)]) == if pauses then [] else closes
  {
    var s := RunFrom(c, NewDay(0), events);
    InitIsChronological(events, Book(pnl, now));
    RecentPnlsAreTheWindow(c, events);
    assert (events + [Book(pnl, now)])[..|events|] == events;
    PausesOnIff(c, s, if UtcDay(now) == s.day then LogOf(c, events) else [], pnl, now);
    ClosingInPlainTerms(c, s, LogOf(c, events), pnl, now);
  }

  lemma InitIsChronological(events: seq<RiskEvent>, e: RiskEvent)
    requires Chronological(events + [e])
    ensures Chronological(events) && (events != [] ==> TimeOf(events[|events| - 1]) <= TimeOf(e))
  {
    assert forall i :: 0 <= i < |events| ==> (events + [e])[i] == events[i];
    assert (events + [e])[|events|] == e;
  }

  // ----- the manager object

  class RiskManager {
    const c: RiskConfig
    var state: RiskState

    constructor (c: RiskConfig)
      ensures this.c == c && state == NewDay(0)
    {
      this.c := c;
      state := NewDay(UtcDay(0.0));
    }

    method Roll(now: real)
      modifies this
      ensures state == RollDay(old(state), now)
    {
      if UtcDay(now) != state.day {
        state := NewDay(UtcDay(now));
      }
    }

    method CanEnter(x: RiskCtx) returns (ok: bool)
      modifies this
      ensures ok <==> Allowed(c, old(state), x)
      ensures state == AfterAsking(c, old(state), x)
    {
      Roll(x.ts);
      if state.tripped { return false; }
      if x.ts < state.pauseUntil { return false; }
      if x.ts < state.cooldownUntil { return false; }
      if state.dailyTrades >= c.tradeLimit { return false; }
      if state.dailyPnl <= -c.lossLimit {
        state := state.(tripped := true);
        return false;
      }
      if x.spreadBps > c.maxSpread { return false; }
      if Min(x.depthYes, x.depthNo) < c.minDepth { return false; }
      if Abs(x.z) < c.minZ { return false; }
      if Abs(x.edge) * 10000.0 < c.minEdgeBps { return false; }
      return true;
    }

    method OnTradeClosed(pnl: real, now: real)
      modifies this
      ensures state == Closed(c, old(state), pnl, now)
    {
      Roll(now);
      state := state.(dailyPnl := state.dailyPnl + pnl, dailyTrades := state.dailyTrades + 1,
                      cooldownUntil := now + c.cooldown);
      if c.pauseThreshold > 0.0 {
        var recent := PopOld(At(), state.recent + [Close(now, pnl)], now - c.pauseWindow);
        state := state.(recent := recent);
        var total := 0.0;
        for i := 0 to |recent|
          invariant total == Sum(Pnls(recent)[..i])
          invariant state == RollDay(old(state), now).(
                               dailyPnl := RollDay(old(state), now).dailyPnl + pnl,
                               dailyTrades := RollDay(old(state), now).dailyTrades + 1,
                               cooldownUntil := now + c.cooldown, recent := recent)
        {
          assert Pnls(recent)[..i + 1][..i] == Pnls(recent)[..i];
          total := total + recent[i].pnl;
        }
        assert Pnls(recent)[..|recent|] == Pnls(recent);
        if total <= -c.pauseThreshold {
          state := state.(pauseUntil := now + c.pauseDuration, recent := []);
        }
      }
    }
  }
}
