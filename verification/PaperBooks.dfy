/** What the steps of the paper lifecycle do, in plain terms, and what a run books: every
    entry is a tick that allowed it, and every settled position is paid for its own side. */
module PaperBooks {
  import opened Common
  import opened PaperLifecycle

  predicate IsOpen(open: seq<Position>, slug: string) { exists p :: p in open && p.slug == slug }

  lemma FoundIffOpen(open: seq<Position>, slug: string)
    ensures Find(open, slug).Some? <==> IsOpen(open, slug)
    ensures Find(open, slug).Some? ==> Find(open, slug).value in open && Find(open, slug).value.slug == slug
  {
    FindFinds(open, slug);
  }

  // ----- the steps

  /** A new day forgets the result, the trade count and the markets taken. */
  lemma RollInPlainTerms(d: Driver, ts: real)
    ensures var d' := RollDay(d, ts);
            && d'.today == Some(UtcDay(ts))
            && (if d.today == Some(UtcDay(ts)) then d' == d
                else d'.dailyPnl == 0.0 && d'.dailyTrades == 0 && d'.taken == {} && d'.committed == []
                     && d'.open == d.open && d'.entered == d.entered && d'.settled == d.settled)
  {
  }

  /** When a tick enters, when it settles, and which markets it marks or forgets. */
  lemma TickInPlainTerms(c: DriverConfig, d: Driver, t: PaperTick)
    requires d.handler.Idle?
    ensures var rolled := d.today != Some(UtcDay(t.ts));
            var pnl := if rolled then 0.0 else d.dailyPnl;
            var taken := if rolled then {} else d.taken;
            var isOpen := IsOpen(d.open, t.slug);
            var d' := Next(c, d, Tick(t));
            && d'.dailyPnl == pnl && d'.open == d.open && d'.entered == d.entered
            && (d'.handler.Entering? <==>
                  && !d.paused && !isOpen && t.slug !in taken && pnl > c.pauseThreshold
                  && c.earliest <= t.tInWindow <= c.latest && t.riskAllows && t.enter)
            && (d'.handler.Querying? <==> !d.paused && isOpen && t.tInWindow >= 300.0)
            && (d'.handler.Entering? ==> d'.handler.tick == t)
            && (d'.handler.Querying? ==> d'.handler.slug == t.slug && d'.handler.pos in d.open && d'.handler.pos.slug == t.slug)
            && d'.taken == (if d.paused || isOpen || (t.slug !in taken && pnl > c.pauseThreshold) then taken
                            else if t.tInWindow >= 300.0 then taken - {t.slug} else taken + {t.slug})
  {
    FoundIffOpen(d.open, t.slug);
  }

  /** An entry is booked with the fields of its tick, unless it comes too late. */
  lemma EntryInPlainTerms(c: DriverConfig, d: Driver, fill: Option<real>)
    requires OneEach(d.open) && d.handler.Entering? && Find(d.open, d.handler.tick.slug).None?
    ensures var t := d.handler.tick;
            var d' := Next(c, d, EntryDone(fill));
            && d'.handler.Idle?
            && (if fill.Some? && t.tInWindow <= c.latest - 5.0
                then var pos := Position(|d.entered|, t.slug, t.side, fill.value, c.stake, t.closeTs);
                     && d'.entered == d.entered + [pos] && d'.open == d.open + [pos]
                     && d'.taken == d.taken + {t.slug} && d'.dailyTrades == d.dailyTrades + 1
                else d'.entered == d.entered && d'.open == d.open && d'.taken == d.taken && d'.dailyTrades == d.dailyTrades)
  {
    PopRemoves(d.open, d.handler.tick.slug);
  }

  /** The end of the queries pops the market's position: to be paid for the outcome that
      was found, or given up. */
  lemma QueryInPlainTerms(c: DriverConfig, d: Driver, who: Who, outcome: Outcome)
    requires OneEach(d.open) && TaskOf(d, who).Querying?
    ensures var slug := TaskOf(d, who).slug;
            var d' := Next(c, d, QueryDone(who, outcome));
            var task := TaskOf(d', who);
            && (task.Committing? || task.Idle?)
            && (task.Committing? <==> outcome.Resolved? && IsOpen(d.open, slug))
            && (task.Committing? ==> task.wentUp == outcome.wentUp && task.settling in d.open && task.settling.slug == slug)
            && (forall p :: p in d'.open <==> p in d.open && (p.slug != slug || outcome.NotYet?))
            && (outcome.TimedOut? && IsOpen(d.open, slug) ==> |d'.timedOut| == |d.timedOut| + 1)
  {
    FoundIffOpen(d.open, TaskOf(d, who).slug);
    PopRemoves(d.open, TaskOf(d, who).slug);
  }

  // ----- what a run enters

  /** A tick that allowed the entry, and the fill that answered it. */
  ghost predicate EnteredBy(c: DriverConfig, steps: seq<Step>, pos: Position, n: nat, i: nat, j: nat)
  {
    && i < j < |steps| && steps[i].Tick? && steps[j].EntryDone? && steps[j].fill.Some?
    && var t := steps[i].tick;
       && pos == Position(n, t.slug, t.side, steps[j].fill.value, c.stake, t.closeTs)
       && t.riskAllows && t.enter && c.earliest <= t.tInWindow <= c.latest - 5.0
  }

  ghost predicate Begun(c: DriverConfig, steps: seq<Step>, task: Task)
  {
    task.Entering? ==> task.tick.riskAllows && task.tick.enter && c.earliest <= task.tick.tInWindow
                       && exists i :: 0 <= i < |steps| && steps[i] == Tick(task.tick)
  }

  lemma BegunLater(c: DriverConfig, steps: seq<Step>, s: Step, task: Task)
    requires Begun(c, steps, task)
    ensures Begun(c, steps + [s], task)
  {
    if task.Entering? {
      var i :| 0 <= i < |steps| && steps[i] == Tick(task.tick);
      assert (steps + [s])[i] == Tick(task.tick);
    }
  }

  /** Which step a waiting entry began with. */
  lemma {:induction false} EntryBegan(c: DriverConfig, steps: seq<Step>)
    ensures Begun(c, steps, Run(c, steps).handler)
  {
    if steps != [] {
      var init, s := steps[..|steps| - 1], steps[|steps| - 1];
      var d := Run(c, init);
      EntryBegan(c, init);
      BegunLater(c, init, s, d.handler);
      assert init + [s] == steps;
      if s.Tick? && d.handler.Idle? {
        TickInPlainTerms(c, d, s.tick);
        assert steps[|init|] == s;
      } else {
        HandlerOnlyBeginsOnTicks(c, d, s);
      }
    }
  }

  lemma HandlerOnlyBeginsOnTicks(c: DriverConfig, d: Driver, s: Step)
    requires !(s.Tick? && d.handler.Idle?)
    ensures Next(c, d, s).handler.Entering? ==> Next(c, d, s).handler == d.handler
    ensures !(s.EntryDone? && d.handler.Entering?) ==> Next(c, d, s).entered == d.entered
  {
  }

  /** Every position a run enters has the fields of a tick that allowed it and the price of
      the fill that answered it. */
  lemma {:induction false} EntriesAreAllowed(c: DriverConfig, steps: seq<Step>, n: nat) returns (i: nat, j: nat)
    requires n < |Run(c, steps).entered|
    ensures EnteredBy(c, steps, Run(c, steps).entered[n], n, i, j)
  {
    var init, s := steps[..|steps| - 1], steps[|steps| - 1];
    var d := Run(c, init);
    RunConserves(c, init);
    if n < |d.entered| {
      i, j := EntriesAreAllowed(c, init, n);
      EntriesGrow(c, d, s);
    } else {
      EntryBegan(c, init);
      FreshEntry(c, d, s);
      i :| 0 <= i < |init| && init[i] == Tick(d.handler.tick);
      j := |init|;
    }
  }

  lemma EntriesGrow(c: DriverConfig, d: Driver, s: Step)
    ensures |d.entered| <= |Next(c, d, s).entered| && Next(c, d, s).entered[..|d.entered|] == d.entered
  {
  }

  lemma FreshEntry(c: DriverConfig, d: Driver, s: Step)
    requires Conserved(d) && |Next(c, d, s).entered| > |d.entered|
    ensures s.EntryDone? && s.fill.Some? && d.handler.Entering? && d.handler.tick.tInWindow <= c.latest - 5.0
    ensures var t := d.handler.tick;
            Next(c, d, s).entered == d.entered + [Position(|d.entered|, t.slug, t.side, s.fill.value, c.stake, t.closeTs)]
  {
    if s.Tick? && d.handler.Idle? {
      TickInPlainTerms(c, d, s.tick);
    } else {
      HandlerOnlyBeginsOnTicks(c, d, s);
      EntryInPlainTerms(c, d, s.fill);
    }
  }

  // ----- what a run pays

  /** What settling a position pays: a win the shares less the stake, else minus the stake. */
  function Due(p: Position, wentUp: bool): real
  {
    if p.entryPrice > 0.0 && (p.side.YesUp? <==> wentUp) then p.stake / p.entryPrice - p.stake else -p.stake
  }

  /** The amounts committed today are due to the positions settled last. */
  ghost predicate PaidAsDue(settled: seq<Position>, wentUp: seq<bool>, committed: seq<real>)
  {
    && |wentUp| == |settled| && |committed| <= |settled|
    && forall i :: 0 <= i < |committed| ==>
         committed[i] == Due(settled[|settled| - |committed| + i], wentUp[|settled| - |committed| + i])
  }

  lemma PaidOneMore(settled: seq<Position>, wentUp: seq<bool>, committed: seq<real>, p: Position, up: bool)
    requires PaidAsDue(settled, wentUp, committed)
    ensures PaidAsDue(settled + [p], wentUp + [up], committed + [Due(p, up)])
  {
  }

  lemma OtherStepsPayNothing(c: DriverConfig, d: Driver, s: Step)
    requires !(s.SettleDone? && TaskOf(d, s.who).Committing?)
    ensures var d' := Next(c, d, s);
            d'.settled == d.settled && d'.wentUp == d.wentUp && (d'.committed == d.committed || d'.committed == [])
  {
  }

  lemma SettlingPaysDue(c: DriverConfig, d: Driver, who: Who)
    requires TaskOf(d, who).Committing?
    ensures var task := TaskOf(d, who);
            var d' := Next(c, d, SettleDone(who));
            && d'.settled == d.settled + [task.settling] && d'.wentUp == d.wentUp + [task.wentUp]
            && d'.committed == d.committed + [Due(task.settling, task.wentUp)]
  {
    PayoutInPlainTerms(TaskOf(d, who).settling, TaskOf(d, who).wentUp);
  }

  lemma StepPaysAsDue(c: DriverConfig, d: Driver, s: Step)
    requires PaidAsDue(d.settled, d.wentUp, d.committed)
    ensures PaidAsDue(Next(c, d, s).settled, Next(c, d, s).wentUp, Next(c, d, s).committed)
  {
    if s.SettleDone? && TaskOf(d, s.who).Committing? {
      SettlingPaysDue(c, d, s.who);
      PaidOneMore(d.settled, d.wentUp, d.committed, TaskOf(d, s.who).settling, TaskOf(d, s.who).wentUp);
    } else {
      OtherStepsPayNothing(c, d, s);
    }
  }

  /** In every run each amount committed since the last day roll is what its position was
      due for the outcome found, and the day's result is their sum. */
  lemma {:induction false} RunPaysAsDue(c: DriverConfig, steps: seq<Step>)
    ensures var d := Run(c, steps);
            PaidAsDue(d.settled, d.wentUp, d.committed) && d.dailyPnl == Sum(d.committed)
  {
    RunConserves(c, steps);
    if steps != [] {
      var init := steps[..|steps| - 1];
      RunPaysAsDue(c, init);
      StepPaysAsDue(c, Run(c, init), steps[|steps| - 1]);
    }
  }
}
