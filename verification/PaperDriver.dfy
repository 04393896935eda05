/** The paper driver object: its fields as each stretch of code between two awaits
    updates them, proved to take the steps of `PaperLifecycle` and so to keep every
    position accounted for. */
module PaperDriverObject {
  import opened Common
  import opened PaperLifecycle

  class PaperDriver {
    const c: DriverConfig

    var openPositions: seq<Position>
    var tradeTaken: set<string>
    var dailyPnl: real
    var dailyTrades: nat
    var today: Option<int>
    var paused: bool

    // Where the two tasks are suspended.
    var handler: Task
    var watchdog: Task
    var expired: seq<Expired>

    // What the database tables of orders and fills record.
    var entered: seq<Position>
    ghost var settled: seq<Position>
    ghost var wentUp: seq<bool>
    ghost var timedOut: seq<Position>
    ghost var committed: seq<real>

    ghost function State(): Driver
      reads this
    {
      Driver(openPositions, tradeTaken, dailyPnl, dailyTrades, today, paused, handler, watchdog, expired,
             entered, settled, wentUp, timedOut, committed)
    }

    constructor (c: DriverConfig)
      ensures this.c == c && State() == START
    {
      this.c := c;
      openPositions, tradeTaken, dailyPnl, dailyTrades, today, paused := [], {}, 0.0, 0, None, false;
      handler, watchdog, expired := Idle, Idle, [];
      entered, settled, wentUp, timedOut, committed := [], [], [], [], [];
    }

    method Roll(ts: real)
      modifies this
      ensures State() == RollDay(old(State()), ts)
    {
      if today != Some(UtcDay(ts)) {
        today := Some(UtcDay(ts));
        dailyPnl, dailyTrades, tradeTaken := 0.0, 0, {};
        committed := [];
      }
    }

    /** `_handle_tick` up to the await of a settlement or of an entry. */
    method HandleTick(t: PaperTick)
      requires handler.Idle?
      modifies this
      ensures State() == Next(c, old(State()), Tick(t))
    {
      Roll(t.ts);
      if paused {
        return;
      }
      var pos := Find(openPositions, t.slug);
      if dailyPnl <= c.pauseThreshold {
        if pos.None? && t.slug !in tradeTaken {
          tradeTaken := tradeTaken + {t.slug};
        }
      }
      if pos.Some? {
        if t.tInWindow >= 300.0 {
          handler := Querying(t.slug, pos.value);
        }
        return;
      }
      if t.slug in tradeTaken {
        if t.tInWindow >= 300.0 {
          tradeTaken := tradeTaken - {t.slug};
        }
        return;
      }
      if !(c.earliest <= t.tInWindow <= c.latest) {
        return;
      }
      if dailyPnl <= c.pauseThreshold {
        return;
      }
      if !t.riskAllows || !t.enter {
        return;
      }
      handler := Entering(t);
    }

    /** The continuation of `_handle_tick` once `try_enter` has answered. */
    method FinishEntry(fill: Option<real>)
      requires handler.Entering?
      modifies this
      ensures State() == Next(c, old(State()), EntryDone(fill))
    {
      var t := handler.tick;
      handler := Idle;
      if t.tInWindow > c.latest - LATE_ENTRY_GUARD || fill.None? {
        return;
      }
      var pos := Position(|entered|, t.slug, t.side, fill.value, c.stake, t.closeTs);
      openPositions := Pop(openPositions, t.slug) + [pos];
      tradeTaken := tradeTaken + {t.slug};
      dailyTrades := dailyTrades + 1;
      entered := entered + [pos];
    }

    /** The end of `_settle_via_watchdog` and the start of `_settle_from_values`. */
    method FinishQueries(who: Who, outcome: Outcome)
      requires TaskOf(State(), who).Querying?
      modifies this
      ensures State() == Next(c, old(State()), QueryDone(who, outcome))
    {
      var slug := if who.Handler? then handler.slug else watchdog.slug;
      var task := Idle;
      var pos := Find(openPositions, slug);
      if !outcome.NotYet? && pos.Some? {
        openPositions := Pop(openPositions, slug);
        if outcome.TimedOut? {
          timedOut := timedOut + [pos.value];
        } else {
          task := Committing(pos.value, outcome.wentUp);
        }
      }
      if who.Handler? { handler := task; } else { watchdog := task; }
    }

    /** The continuation of `_settle_from_values` once the exit is recorded. */
    method FinishSettle(who: Who)
      requires TaskOf(State(), who).Committing?
      modifies this
      ensures State() == Next(c, old(State()), SettleDone(who))
      ensures var task := if who.Handler? then old(handler) else old(watchdog);
              var p := task.settling;
              dailyPnl == old(dailyPnl) + if p.entryPrice > 0.0 && (p.side.YesUp? <==> task.wentUp) then p.stake / p.entryPrice - p.stake else -p.stake
    {
      var task := if who.Handler? then handler else watchdog;
      var pnl := Payout(task.settling, task.wentUp);
      PayoutInPlainTerms(task.settling, task.wentUp);
      dailyPnl := dailyPnl + pnl;
      settled, wentUp := settled + [task.settling], wentUp + [task.wentUp];
      committed := committed + [pnl];
      if who.Handler? { handler := Idle; } else { watchdog := Idle; }
    }

    /** One sweep of the watchdog loop: exactly the overdue positions are queued. */
    method ScanExpired(now: real)
      requires watchdog.Idle? && expired == []
      modifies this`expired
      ensures State() == Next(c, old(State()), Scan(now))
      ensures forall e :: e in expired
                     <==> e.pos in openPositions && e.slug == e.pos.slug && e.pos.closeTs > 0.0 && now - e.pos.closeTs > 15.0
    {
      var found: seq<Expired> := [];
      for i := 0 to |openPositions|
        invariant found == ExpiredOf(openPositions[..i], now) && State() == old(State())
      {
        assert openPositions[..i + 1][..i] == openPositions[..i];
        var p := openPositions[i];
        if p.closeTs > 0.0 && now - p.closeTs > 15.0 {
          found := found + [Expired(p.slug, p)];
        }
      }
      assert openPositions[..|openPositions|] == openPositions;
      SweepIsExact(openPositions, now);
      expired := found;
    }

    method StartNext()
      requires watchdog.Idle? && expired != []
      modifies this
      ensures State() == Next(c, old(State()), NextExpired)
      ensures watchdog == Querying(old(expired)[0].slug, old(expired)[0].pos) && expired == old(expired)[1..]
    {
      watchdog := Querying(expired[0].slug, expired[0].pos);
      expired := expired[1..];
    }

    method HandleControl(pause: bool)
      modifies this`paused
      ensures State() == Next(c, old(State()), Control(pause)) && paused == pause
    {
      paused := pause;
    }

    /** The event loop resumes a task; a step no task is ready for does nothing. */
    method Resume(s: Step)
      modifies this
      ensures State() == Next(c, old(State()), s)
    {
      match s
      case Tick(t) => if handler.Idle? { HandleTick(t); }
      case EntryDone(fill) => if handler.Entering? { FinishEntry(fill); }
      case QueryDone(who, outcome) =>
        var ready := if who.Handler? then handler.Querying? else watchdog.Querying?;
        if ready { FinishQueries(who, outcome); }
      case SettleDone(who) =>
        var ready := if who.Handler? then handler.Committing? else watchdog.Committing?;
        if ready { FinishSettle(who); }
      case Scan(now) => if watchdog.Idle? && expired == [] { ScanExpired(now); }
      case NextExpired => if watchdog.Idle? && expired != [] { StartNext(); }
      case Control(pause) => HandleControl(pause);
    }

    /** Whatever the order in which tasks are resumed, the object goes through a run of the
        lifecycle, so every position it ever entered is accounted for exactly once. */
    method EventLoop(steps: seq<Step>)
      requires State() == START
      modifies this
      ensures State() == Run(c, steps) && Conserved(State())
    {
      for i := 0 to |steps|
        invariant State() == Run(c, steps[..i])
      {
        assert steps[..i + 1][..i] == steps[..i];
        Resume(steps[i]);
      }
      assert steps[..|steps|] == steps;
      RunConserves(c, steps);
    }
  }
}
