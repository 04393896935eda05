/** The paper lifecycle when ticks and watchdog sweeps read one clock that never runs
    back, and no window closes before its first 300 s are over. A position is then open
    until its window has passed, so entries before the window opens do no harm. */
module PaperLiveClock {
  import opened Common
  import opened Settlement
  import opened PaperLifecycle

  function TimeOf(s: Step): Option<real>
  {
    match s
    case Tick(t) => Some(t.ts)
    case Scan(now) => Some(now)
    case _ => None
  }

  ghost predicate ClosesOnTime(opens: string -> int, t: PaperTick)
  {
    t.closeTs >= 300.0 * opens(t.slug) as real + 300.0
  }

  /** One nondecreasing clock for ticks and sweeps. */
  ghost predicate Live(opens: string -> int, steps: seq<Step>)
  {
    && WellTimed(opens, steps)
    && (forall i :: 0 <= i < |steps| && steps[i].Tick? ==> ClosesOnTime(opens, steps[i].tick))
    && (forall i, j :: 0 <= i < j < |steps| && TimeOf(steps[i]).Some? && TimeOf(steps[j]).Some? ==>
          TimeOf(steps[i]).value <= TimeOf(steps[j]).value)
  }

  /** No entry can happen 300 s into a window or later. */
  predicate EntriesBeforeFive(c: DriverConfig)
  {
    c.latest < 300.0 + LATE_ENTRY_GUARD || c.earliest > c.latest - LATE_ENTRY_GUARD
  }

  /** The latest time anything was told. */
  function Now(steps: seq<Step>): Option<real>
  {
    if steps == [] then None
    else if TimeOf(steps[|steps| - 1]).Some? then TimeOf(steps[|steps| - 1])
    else Now(steps[..|steps| - 1])
  }

  ghost predicate PassedBy(opens: string -> int, slug: string, now: Option<real>)
  {
    now.Some? && Passed(opens, slug, now.value)
  }

  ghost predicate NotBefore(now: Option<real>, later: Option<real>)
  {
    now.Some? ==> later.Some? && now.value <= later.value
  }

  predicate IsOpen(open: seq<Position>, slug: string) { exists p :: p in open && p.slug == slug }

  /** What is entered is open, or its window has passed. */
  ghost predicate OpenOrPassed(opens: string -> int, entered: seq<Position>, open: seq<Position>, now: Option<real>)
  {
    && OncePerSlug(entered)
    && (forall i :: 0 <= i < |entered| ==> IsOpen(open, entered[i].slug) || PassedBy(opens, entered[i].slug, now))
    && (forall p :: p in open ==> p.closeTs >= 300.0 * opens(p.slug) as real + 300.0)
  }

  /** A settlement is only ever under way for a window that has passed. */
  ghost predicate TaskPassed(opens: string -> int, task: Task, now: Option<real>)
  {
    task.Querying? ==> PassedBy(opens, task.slug, now)
  }

  ghost predicate QueuePassed(opens: string -> int, queue: seq<Expired>, now: Option<real>)
  {
    forall i :: 0 <= i < |queue| ==> PassedBy(opens, queue[i].slug, now)
  }

  /** An entry under way is a first one, or comes too late to be filled. */
  ghost predicate EntryOk(c: DriverConfig, opens: string -> int, task: Task, entered: seq<Position>)
  {
    task.Entering? ==>
      && ClosesOnTime(opens, task.tick) && c.earliest <= task.tick.tInWindow
      && (task.tick.tInWindow >= 300.0 || forall i :: 0 <= i < |entered| ==> entered[i].slug != task.tick.slug)
  }

  ghost predicate LiveSafe(c: DriverConfig, opens: string -> int, d: Driver, now: Option<real>)
  {
    && OpenOrPassed(opens, d.entered, d.open, now)
    && QueuePassed(opens, d.queue, now)
    && TaskPassed(opens, d.handler, now) && TaskPassed(opens, d.watchdog, now)
    && EntryOk(c, opens, d.handler, d.entered)
  }

  lemma TimePasses(c: DriverConfig, opens: string -> int, d: Driver, now: Option<real>, later: Option<real>)
    requires LiveSafe(c, opens, d, now) && NotBefore(now, later)
    ensures LiveSafe(c, opens, d, later)
  {
  }

  /** Where a handled tick leaves the handler. */
  lemma TickTask(c: DriverConfig, d: Driver, t: PaperTick)
    requires d.handler.Idle?
    ensures var task := OnTick(c, d, t).handler;
            && (task.Querying? ==> task.slug == t.slug && t.tInWindow >= 300.0)
            && (task.Entering? ==> task.tick == t && c.earliest <= t.tInWindow && Find(d.open, t.slug).None?)
  {
  }

  lemma TickKeepsLiveSafe(c: DriverConfig, opens: string -> int, d: Driver, t: PaperTick)
    requires d.handler.Idle? && LiveSafe(c, opens, d, Some(t.ts)) && OnSchedule(opens, t) && ClosesOnTime(opens, t)
    ensures LiveSafe(c, opens, OnTick(c, d, t), Some(t.ts))
  {
    TickFrame(c, d, t);
    TickTask(c, d, t);
    FindFinds(d.open, t.slug);
  }

  lemma OpenGrows(opens: string -> int, entered: seq<Position>, open: seq<Position>, now: Option<real>, pos: Position)
    requires OpenOrPassed(opens, entered, open, now)
    requires forall i :: 0 <= i < |entered| ==> entered[i].slug != pos.slug
    requires pos.closeTs >= 300.0 * opens(pos.slug) as real + 300.0
    ensures OpenOrPassed(opens, entered + [pos], open + [pos], now)
  {
    assert pos in open + [pos];
    forall i | 0 <= i < |entered| ensures IsOpen(open + [pos], entered[i].slug) || PassedBy(opens, entered[i].slug, now) {
      if IsOpen(open, entered[i].slug) {
        var p :| p in open && p.slug == entered[i].slug;
        assert p in open + [pos];
      }
    }
  }

  lemma EntryKeepsLiveSafe(c: DriverConfig, opens: string -> int, d: Driver, now: Option<real>, t: PaperTick, fill: Option<real>)
    requires EntriesBeforeFive(c) && Conserved(d) && d.handler == Entering(t) && LiveSafe(c, opens, d, now)
    ensures LiveSafe(c, opens, OnEntryDone(c, d, t, fill), now)
  {
    var d' := OnEntryDone(c, d, t, fill);
    if d'.entered != d.entered {
      PopRemoves(d.open, t.slug);
      OpenGrows(opens, d.entered, d.open, now, d'.entered[|d.entered|]);
    }
  }

  /** Popping a market whose window has passed. */
  lemma PopPassed(opens: string -> int, entered: seq<Position>, open: seq<Position>, now: Option<real>, slug: string)
    requires OneEach(open) && OpenOrPassed(opens, entered, open, now) && PassedBy(opens, slug, now)
    ensures OpenOrPassed(opens, entered, Pop(open, slug), now)
  {
    PopRemoves(open, slug);
    forall i | 0 <= i < |entered| ensures IsOpen(Pop(open, slug), entered[i].slug) || PassedBy(opens, entered[i].slug, now) {
      if entered[i].slug != slug && IsOpen(open, entered[i].slug) {
        var p :| p in open && p.slug == entered[i].slug;
        assert p in Pop(open, slug);
      }
    }
  }

  lemma QueryKeepsLiveSafe(c: DriverConfig, opens: string -> int, d: Driver, now: Option<real>, who: Who, outcome: Outcome)
    requires OneEach(d.open) && LiveSafe(c, opens, d, now) && TaskOf(d, who).Querying?
    ensures LiveSafe(c, opens, OnQueryDone(d, who, TaskOf(d, who).slug, outcome), now)
  {
    PopPassed(opens, d.entered, d.open, now, TaskOf(d, who).slug);
  }

  /** A sweep only finds positions whose window has passed. */
  lemma SweepPassed(opens: string -> int, open: seq<Position>, now: real)
    requires forall p :: p in open ==> p.closeTs >= 300.0 * opens(p.slug) as real + 300.0
    ensures QueuePassed(opens, ExpiredOf(open, now), Some(now))
  {
    SweepIsExact(open, now);
    var queue := ExpiredOf(open, now);
    forall i | 0 <= i < |queue| ensures PassedBy(opens, queue[i].slug, Some(now)) {
      assert queue[i] in queue;
    }
  }

  lemma StepKeepsLiveSafe(c: DriverConfig, opens: string -> int, d: Driver, now: Option<real>, s: Step)
    requires EntriesBeforeFive(c) && Conserved(d) && LiveSafe(c, opens, d, now)
    requires s.Tick? ==> OnSchedule(opens, s.tick) && ClosesOnTime(opens, s.tick)
    requires TimeOf(s).Some? ==> NotBefore(now, TimeOf(s))
    ensures LiveSafe(c, opens, Next(c, d, s), if TimeOf(s).Some? then TimeOf(s) else now)
  {
    match s
    case Tick(t) =>
      TimePasses(c, opens, d, now, Some(t.ts));
      if d.handler.Idle? {
        TickKeepsLiveSafe(c, opens, d, t);
      }
    case EntryDone(fill) => if d.handler.Entering? { EntryKeepsLiveSafe(c, opens, d, now, d.handler.tick, fill); }
    case QueryDone(who, outcome) => if TaskOf(d, who).Querying? { QueryKeepsLiveSafe(c, opens, d, now, who, outcome); }
    case SettleDone(who) =>
    case Scan(at) =>
      TimePasses(c, opens, d, now, Some(at));
      SweepPassed(opens, d.open, at);
    case NextExpired =>
    case Control(_) =>
  }

  lemma {:induction false} NowIsATime(steps: seq<Step>) returns (i: nat)
    requires Now(steps).Some?
    ensures i < |steps| && TimeOf(steps[i]) == Now(steps)
  {
    i := |steps| - 1;
    if TimeOf(steps[i]).None? {
      i := NowIsATime(steps[..i]);
    }
  }

  lemma InitIsLive(opens: string -> int, steps: seq<Step>)
    requires steps != [] && Live(opens, steps)
    ensures Live(opens, steps[..|steps| - 1])
    ensures TimeOf(steps[|steps| - 1]).Some? ==> NotBefore(Now(steps[..|steps| - 1]), TimeOf(steps[|steps| - 1]))
  {
    var init := steps[..|steps| - 1];
    InitIsWellTimed(opens, steps);
    assert forall i :: 0 <= i < |init| ==> init[i] == steps[i];
    if Now(init).Some? {
      var i := NowIsATime(init);
    }
  }

  lemma {:induction false} RunIsLiveSafe(c: DriverConfig, opens: string -> int, steps: seq<Step>)
    requires EntriesBeforeFive(c) && Live(opens, steps)
    ensures LiveSafe(c, opens, Run(c, steps), Now(steps))
  {
    if steps != [] {
      var init := steps[..|steps| - 1];
      InitIsLive(opens, steps);
      RunIsLiveSafe(c, opens, init);
      RunConserves(c, init);
      StepKeepsLiveSafe(c, opens, Run(c, init), Now(init), steps[|steps| - 1]);
    }
  }

  // ----- the condition is exact

  lemma SettlesWithoutLoss(stake: real)
    ensures Settle(YesUp, 0.5, stake, 0.0, stake >= 0.0).2 >= 0.0
  {
  }

  /** The handler settles the position itself, on a tick past the first 300 s. */
  lemma HandlerSettles(c: DriverConfig, t: PaperTick, d: Driver)
    requires Entered(d, t, Position(0, t.slug, t.side, 0.5, c.stake, t.closeTs)) && t.side == YesUp && t.tInWindow >= 300.0
    ensures var d' := Next(c, Next(c, Next(c, d, Tick(t)), QueryDone(Handler, Resolved(c.stake >= 0.0))), SettleDone(Handler));
            && d'.open == [] && d'.taken == {t.slug} && d'.dailyPnl >= 0.0 && d'.today == Some(UtcDay(t.ts))
            && d'.handler.Idle? && !d'.paused && d'.entered == d.entered
  {
    var pos := d.open[0];
    AloneIsFound(pos);
    SettlesWithoutLoss(c.stake);
    var d1 := Next(c, d, Tick(t));
    assert d1.taken == {t.slug} && d1.handler == Querying(t.slug, pos);
    var d2 := Next(c, d1, QueryDone(Handler, Resolved(c.stake >= 0.0)));
    assert d2.open == [] && d2.handler == Committing(pos, c.stake >= 0.0);
  }

  lemma AloneIsFound(p: Position)
    ensures Find([p], p.slug) == Some(p) && Pop([p], p.slug) == []
  {
    assert [p][..0] == [];
    assert Filter(HasSlug(p.slug), [p]) == [p];
    FilterNone(NotSlug(p.slug), [p]);
  }

  /** Enter, settle and forget, all at one time. */
  function EnterAndSettle(c: DriverConfig, t: PaperTick): seq<Step>
  {
    [Tick(t), EntryDone(Some(0.5)), Tick(t), QueryDone(Handler, Resolved(c.stake >= 0.0)), SettleDone(Handler)]
  }

  lemma ForgetsTheMarket(c: DriverConfig, t: PaperTick)
    requires c.earliest <= t.tInWindow <= c.latest - LATE_ENTRY_GUARD && c.pauseThreshold < 0.0
    requires t.riskAllows && t.enter && t.side == YesUp && t.tInWindow >= 300.0
    ensures var d := Run(c, EnterAndSettle(c, t) + [Tick(t)]);
            && d.open == [] && d.taken == {} && d.dailyPnl >= 0.0 && d.today == Some(UtcDay(t.ts))
            && d.handler.Idle? && !d.paused && |d.entered| == 1 && d.entered[0].slug == t.slug
  {
    var s := EnterAndSettle(c, t);
    FiveSteps(c, s);
    AfterEntry(c, t);
    HandlerSettles(c, t, Next(c, Next(c, START, Tick(t)), EntryDone(Some(0.5))));
    RunSnoc(c, s, Tick(t));
    assert Find([], t.slug).None?;
  }

  lemma LiveEntersTwice(c: DriverConfig) returns (opens: string -> int, steps: seq<Step>)
    requires !EntriesBeforeFive(c) && c.pauseThreshold < 0.0
    ensures Live(opens, steps) && !OncePerSlug(Run(c, steps).entered)
  {
    opens := _ => 0;
    var at := Max(300.0, c.earliest);
    var t := PaperTick("m", at, at, 300.0, true, true, YesUp);
    ForgetsTheMarket(c, t);
    EntersAgain(c, EnterAndSettle(c, t) + [Tick(t)], t);
    steps := EnterAndSettle(c, t) + [Tick(t)] + [Tick(t)] + [EntryDone(Some(0.5))];
    OneTimeIsLive(c, opens, t);
  }

  lemma OneTimeIsLive(c: DriverConfig, opens: string -> int, t: PaperTick)
    requires OnSchedule(opens, t) && ClosesOnTime(opens, t)
    ensures Live(opens, EnterAndSettle(c, t) + [Tick(t)] + [Tick(t)] + [EntryDone(Some(0.5))])
  {
    var steps := EnterAndSettle(c, t) + [Tick(t)] + [Tick(t)] + [EntryDone(Some(0.5))];
    assert forall i :: 0 <= i < |steps| ==> (steps[i].Tick? ==> steps[i].tick == t) && !steps[i].Scan?;
  }

  ghost predicate LiveEntersOnce(c: DriverConfig)
  {
    forall opens: string -> int, steps | Live(opens, steps) :: OncePerSlug(Run(c, steps).entered)
  }

  /** On a live clock no run enters a market twice if and only if entries end before the
      first 300 s do, or the threshold stops all trading. */
  lemma LiveEntersOnceIff(c: DriverConfig)
    ensures LiveEntersOnce(c) <==> EntriesBeforeFive(c) || c.pauseThreshold >= 0.0
  {
    if EntriesBeforeFive(c) {
      forall opens: string -> int, steps | Live(opens, steps) ensures OncePerSlug(Run(c, steps).entered) {
        RunIsLiveSafe(c, opens, steps);
      }
    } else if c.pauseThreshold >= 0.0 {
      forall opens: string -> int, steps | Live(opens, steps) ensures OncePerSlug(Run(c, steps).entered) {
        NeverTrades(c, steps);
      }
    } else {
      var opens, steps := LiveEntersTwice(c);
    }
  }
}
