/** The life of a paper position. The tick handler and the settle watchdog are two
    tasks of one event loop: they interleave only at awaits, so each step below is what
    one task does between two of them. The verdicts of the risk manager, the strategy,
    the execution client and the price queries are arbitrary. */
module PaperLifecycle {
  import opened Common
  import opened Settlement

  datatype DriverConfig = DriverConfig(earliest: real, latest: real, pauseThreshold: real, stake: real)

  /** The execution client refuses an entry within this many seconds of `latest`. */
  const LATE_ENTRY_GUARD := 5.0

  datatype PaperTick = PaperTick(
    slug: string, ts: real, tInWindow: real, closeTs: real, riskAllows: bool, enter: bool, side: Side)

  datatype Position = Position(id: nat, slug: string, side: Side, entryPrice: real, stake: real, closeTs: real)

  /** Where a task is suspended. */
  datatype Task =
    | Idle
    | Entering(tick: PaperTick)
    | Querying(slug: string, pos: Position)
    | Committing(settling: Position, wentUp: bool)

  datatype Expired = Expired(slug: string, pos: Position)

  /** `open` is an insertion-ordered dict keyed by slug. The last five fields are the
      history the properties speak about; `wentUp` stands beside `settled`. */
  datatype Driver = Driver(
    open: seq<Position>, taken: set<string>, dailyPnl: real, dailyTrades: nat, today: Option<int>, paused: bool,
    handler: Task, watchdog: Task, queue: seq<Expired>,
    entered: seq<Position>, settled: seq<Position>, wentUp: seq<bool>, timedOut: seq<Position>, committed: seq<real>)

  const START := Driver([], {}, 0.0, 0, None, false, Idle, Idle, [], [], [], [], [], [])

  datatype Who = Handler | Watchdog

  /** How the price queries of a settlement end. */
  datatype Outcome = Resolved(wentUp: bool) | TimedOut | NotYet

  datatype Step =
    | Tick(tick: PaperTick)
    | EntryDone(fill: Option<real>)
    | QueryDone(who: Who, outcome: Outcome)
    | SettleDone(who: Who)
    | Scan(now: real)
    | NextExpired
    | Control(pause: bool)

  // ----- the open positions

  function HasSlug(slug: string): Position -> bool { (p: Position) => p.slug == slug }
  function NotSlug(slug: string): Position -> bool { (p: Position) => p.slug != slug }

  function Find(open: seq<Position>, slug: string): Option<Position>
  {
    var hits := Filter(HasSlug(slug), open);
    if hits == [] then None else Some(hits[0])
  }

  function Pop(open: seq<Position>, slug: string): seq<Position> { Filter(NotSlug(slug), open) }

  // ----- the steps

  function RollDay(d: Driver, ts: real): Driver
  {
    if d.today == Some(UtcDay(ts)) then d
    else d.(today := Some(UtcDay(ts)), dailyPnl := 0.0, dailyTrades := 0, taken := {}, committed := [])
  }

  /** `_handle_tick` up to its first await. */
  function OnTick(c: DriverConfig, d0: Driver, t: PaperTick): Driver
  {
    var d := RollDay(d0, t.ts);
    if d.paused then d
    else
      var isOpen := Find(d.open, t.slug);
      var stopped := d.dailyPnl <= c.pauseThreshold;
      var taken := if stopped && isOpen.None? then d.taken + {t.slug} else d.taken;
      var d1 := d.(taken := taken);
      if isOpen.Some? then
        if t.tInWindow >= 300.0 then d1.(handler := Querying(t.slug, isOpen.value)) else d1
      else if t.slug in taken then
        if t.tInWindow >= 300.0 then d1.(taken := taken - {t.slug}) else d1
      else if !(c.earliest <= t.tInWindow <= c.latest) then d1
      else if stopped then d1
      else if !t.riskAllows || !t.enter then d1
      else d1.(handler := Entering(t))
  }

  /** The rest of `_handle_tick` after `try_enter`, which fills at a price or not. */
  function OnEntryDone(c: DriverConfig, d: Driver, t: PaperTick, fill: Option<real>): Driver
  {
    if fill.None? || t.tInWindow > c.latest - LATE_ENTRY_GUARD then d.(handler := Idle)
    else
      var pos := Position(|d.entered|, t.slug, t.side, fill.value, c.stake, t.closeTs);
      d.(open := Pop(d.open, t.slug) + [pos], taken := d.taken + {t.slug}, dailyTrades := d.dailyTrades + 1,
         handler := Idle, entered := d.entered + [pos])
  }

  function TaskOf(d: Driver, who: Who): Task { if who.Handler? then d.handler else d.watchdog }

  function WithTask(d: Driver, who: Who, task: Task): Driver
  {
    if who.Handler? then d.(handler := task) else d.(watchdog := task)
  }

  /** The end of the queries: `_settle_from_values` pops the slug and hands the position
      to the execution client; a timeout only pops it. */
  function OnQueryDone(d: Driver, who: Who, slug: string, outcome: Outcome): Driver
  {
    var pos := Find(d.open, slug);
    if outcome.NotYet? || pos.None? then WithTask(d, who, Idle)
    else if outcome.TimedOut? then
      WithTask(d.(open := Pop(d.open, slug), timedOut := d.timedOut + [pos.value]), who, Idle)
    else
      WithTask(d.(open := Pop(d.open, slug)), who, Committing(pos.value, outcome.wentUp))
  }

  /** What settling pays; the fee was charged on entry. */
  function Payout(p: Position, wentUp: bool): real
  {
    Settle(p.side, p.entryPrice, p.stake, 0.0, wentUp).2
  }

  /** Without a fee, a win pays stake / entry, and everything else loses the stake. */
  lemma PayoutInPlainTerms(p: Position, wentUp: bool)
    ensures Payout(p, wentUp)
         == if p.entryPrice > 0.0 && (p.side.YesUp? <==> wentUp) then p.stake / p.entryPrice - p.stake else -p.stake
  {
  }

  function OnSettleDone(d: Driver, who: Who, pos: Position, up: bool, pnl: real): Driver
  {
    WithTask(d.(dailyPnl := d.dailyPnl + pnl, settled := d.settled + [pos], wentUp := d.wentUp + [up],
                committed := d.committed + [pnl]), who, Idle)
  }

  /** The window closed more than 15 s ago. */
  predicate Overdue(p: Position, now: real) { p.closeTs > 0.0 && now - p.closeTs > 15.0 }

  /** The overdue positions, in the order of the dict. */
  function ExpiredOf(open: seq<Position>, now: real): seq<Expired>
  {
    if open == [] then []
    else
      var p := open[|open| - 1];
      ExpiredOf(open[..|open| - 1], now) + if Overdue(p, now) then [Expired(p.slug, p)] else []
  }

  /** A step that its task is not ready for leaves the driver as it is. */
  function Next(c: DriverConfig, d: Driver, s: Step): Driver
  {
    match s
    case Tick(t) => if d.handler.Idle? then OnTick(c, d, t) else d
    case EntryDone(fill) => if d.handler.Entering? then OnEntryDone(c, d, d.handler.tick, fill) else d
    case QueryDone(who, outcome) =>
      if TaskOf(d, who).Querying? then OnQueryDone(d, who, TaskOf(d, who).slug, outcome) else d
    case SettleDone(who) =>
      var task := TaskOf(d, who);
      if task.Committing? then OnSettleDone(d, who, task.settling, task.wentUp, Payout(task.settling, task.wentUp)) else d
    case Scan(now) =>
      if d.watchdog.Idle? && d.queue == [] then d.(queue := ExpiredOf(d.open, now)) else d
    case NextExpired =>
      if d.watchdog.Idle? && d.queue != [] then
        d.(watchdog := Querying(d.queue[0].slug, d.queue[0].pos), queue := d.queue[1..]) else d
    case Control(pause) => d.(paused := pause)
  }

  function Run(c: DriverConfig, steps: seq<Step>): Driver
  {
    if steps == [] then START else Next(c, Run(c, steps[..|steps| - 1]), steps[|steps| - 1])
  }

  // ----- conservation

  ghost function InFlight(t: Task): multiset<Position>
  {
    if t.Committing? then multiset{t.settling} else multiset{}
  }

  ghost predicate OneEach(open: seq<Position>)
  {
    forall i, j :: 0 <= i < j < |open| ==> open[i].slug != open[j].slug
  }

  /** Every entered position is in exactly one place, under its own number. */
  ghost predicate Accounted(open: seq<Position>, handler: Task, watchdog: Task,
                            entered: seq<Position>, settled: seq<Position>, timedOut: seq<Position>)
  {
    && OneEach(open)
    && (handler.Entering? ==> Find(open, handler.tick.slug).None?)
    && (forall i :: 0 <= i < |entered| ==> entered[i].id == i)
    && multiset(entered) == multiset(settled) + multiset(timedOut) + multiset(open) + InFlight(handler) + InFlight(watchdog)
  }

  ghost predicate Conserved(d: Driver)
  {
    && Accounted(d.open, d.handler, d.watchdog, d.entered, d.settled, d.timedOut)
    && d.dailyPnl == Sum(d.committed)
  }

  lemma FindFinds(open: seq<Position>, slug: string)
    ensures var p := Find(open, slug);
            if p.Some? then p.value in open && p.value.slug == slug else forall x :: x in open ==> x.slug != slug
  {
    var hits := Filter(HasSlug(slug), open);
    if hits != [] {
      FilterMember(HasSlug(slug), open, hits[0]);
      assert hits[0] in hits;
    }
    forall x | x in open ensures hits == [] ==> x.slug != slug {
      FilterMember(HasSlug(slug), open, x);
    }
  }

  lemma {:induction false} PopRemoves(open: seq<Position>, slug: string)
    requires OneEach(open)
    ensures OneEach(Pop(open, slug))
    ensures forall p :: p in Pop(open, slug) <==> p in open && p.slug != slug
    ensures Find(open, slug).Some? ==> multiset(open) == multiset(Pop(open, slug)) + multiset{Find(open, slug).value}
    ensures Find(open, slug).None? ==> Pop(open, slug) == open
  {
    forall p ensures p in Pop(open, slug) <==> p in open && p.slug != slug {
      FilterMember(NotSlug(slug), open, p);
    }
    FindFinds(open, slug);
    PopKeepsOneEach(open, slug);
    if Find(open, slug).None? {
      FilterAll(NotSlug(slug), open);
    } else {
      PopSplits(open, slug, Find(open, slug).value);
    }
  }

  lemma {:induction false} PopKeepsOneEach(open: seq<Position>, slug: string)
    requires OneEach(open)
    ensures OneEach(Pop(open, slug))
  {
    if open != [] {
      var init, last := open[..|open| - 1], open[|open| - 1];
      PopKeepsOneEach(init, slug);
      forall p | p in Pop(init, slug) ensures p.slug != last.slug {
        FilterMember(NotSlug(slug), init, p);
      }
    }
  }

  lemma {:induction false} PopSplits(open: seq<Position>, slug: string, p: Position)
    requires OneEach(open) && p in open && p.slug == slug
    ensures multiset(open) == multiset(Pop(open, slug)) + multiset{p}
  {
    var init, last := open[..|open| - 1], open[|open| - 1];
    assert open == init + [last];
    if last == p {
      assert forall x :: x in init ==> x.slug != slug;
      FilterAll(NotSlug(slug), init);
    } else {
      assert p in init;
      assert last.slug != slug;
      PopSplits(init, slug, p);
    }
  }

  /** A sweep finds exactly the overdue positions, each under its own slug. */
  lemma {:induction false} SweepIsExact(open: seq<Position>, now: real)
    ensures forall e :: e in ExpiredOf(open, now)
                   <==> e.pos in open && e.slug == e.pos.slug && e.pos.closeTs > 0.0 && now - e.pos.closeTs > 15.0
  {
    if open != [] {
      var init, last := open[..|open| - 1], open[|open| - 1];
      SweepIsExact(init, now);
      assert open == init + [last];
      assert forall p :: p in open <==> p in init || p == last;
    }
  }

  /** What a tick can touch before its first await. */
  lemma TickFrame(c: DriverConfig, d: Driver, t: PaperTick)
    requires d.handler.Idle?
    ensures var d' := OnTick(c, d, t);
            && d'.open == d.open && d'.watchdog == d.watchdog && d'.queue == d.queue && d'.paused == d.paused
            && d'.entered == d.entered && d'.settled == d.settled && d'.timedOut == d.timedOut
            && d'.today == Some(UtcDay(t.ts))
            && d'.dailyPnl == RollDay(d, t.ts).dailyPnl && d'.committed == RollDay(d, t.ts).committed
            && !d'.handler.Committing?
            && (d'.handler.Entering? ==> d'.handler.tick == t && Find(d.open, t.slug).None? && t.slug !in d'.taken
                                         && c.earliest <= t.tInWindow <= c.latest)
            && (d'.handler.Querying? ==> Find(d.open, d'.handler.slug) == Some(d'.handler.pos))
  {
  }

  lemma TickConserves(c: DriverConfig, d: Driver, t: PaperTick)
    requires Conserved(d) && d.handler.Idle?
    ensures Conserved(OnTick(c, d, t))
  {
    TickFrame(c, d, t);
  }

  lemma Snoc(open: seq<Position>, pos: Position)
    requires OneEach(open) && forall x :: x in open ==> x.slug != pos.slug
    ensures OneEach(open + [pos])
  {
  }

  lemma EntryCounts(open: seq<Position>, watchdog: Task, entered: seq<Position>,
                    settled: seq<Position>, timedOut: seq<Position>, pos: Position)
    requires multiset(entered) == multiset(settled) + multiset(timedOut) + multiset(open) + InFlight(Idle) + InFlight(watchdog)
    ensures multiset(entered + [pos])
         == multiset(settled) + multiset(timedOut) + multiset(open + [pos]) + InFlight(Idle) + InFlight(watchdog)
  {
  }

  lemma EntryAccounts(open: seq<Position>, t: PaperTick, watchdog: Task, entered: seq<Position>,
                      settled: seq<Position>, timedOut: seq<Position>, pos: Position)
    requires Accounted(open, Entering(t), watchdog, entered, settled, timedOut)
    requires pos.slug == t.slug && pos.id == |entered|
    ensures Pop(open, t.slug) == open
    ensures Accounted(open + [pos], Idle, watchdog, entered + [pos], settled, timedOut)
  {
    PopRemoves(open, t.slug);
    FindFinds(open, t.slug);
    Snoc(open, pos);
    EntryCounts(open, watchdog, entered, settled, timedOut, pos);
  }

  lemma EntryConserves(c: DriverConfig, d: Driver, t: PaperTick, fill: Option<real>)
    requires Conserved(d) && d.handler == Entering(t)
    ensures Conserved(OnEntryDone(c, d, t, fill))
  {
    var d' := OnEntryDone(c, d, t, fill);
    if d'.entered != d.entered {
      EntryAccounts(d.open, t, d.watchdog, d.entered, d.settled, d.timedOut, d'.entered[|d.entered|]);
    }
  }

  /** A popped position moves to the timed-out ones or into flight. */
  lemma PopAccounts(open: seq<Position>, h: Task, w: Task, entered: seq<Position>, settled: seq<Position>,
                    timedOut: seq<Position>, slug: string, h': Task, w': Task, timedOut': seq<Position>)
    requires Accounted(open, h, w, entered, settled, timedOut) && Find(open, slug).Some?
    requires h'.Entering? ==> h' == h
    requires multiset(timedOut') + InFlight(h') + InFlight(w')
          == multiset(timedOut) + InFlight(h) + InFlight(w) + multiset{Find(open, slug).value}
    ensures Accounted(Pop(open, slug), h', w', entered, settled, timedOut')
  {
    PopRemoves(open, slug);
    if h'.Entering? {
      StillNotFound(open, slug, h'.tick.slug);
    }
    Rearranged(multiset(settled), multiset(timedOut), multiset(open), InFlight(h), InFlight(w),
               multiset(timedOut'), multiset(Pop(open, slug)), InFlight(h'), InFlight(w'), Find(open, slug).value);
  }

  lemma Rearranged(s: multiset<Position>, t: multiset<Position>, o: multiset<Position>, h: multiset<Position>, w: multiset<Position>,
                   t': multiset<Position>, o': multiset<Position>, h': multiset<Position>, w': multiset<Position>, p: Position)
    requires o == o' + multiset{p} && t' + h' + w' == t + h + w + multiset{p}
    ensures s + t + o + h + w == s + t' + o' + h' + w'
  {
    forall x ensures (s + t + o + h + w)[x] == (s + t' + o' + h' + w')[x] {
      assert (t' + h' + w')[x] == (t + h + w + multiset{p})[x];
    }
  }

  lemma TimeoutConserves(d: Driver, who: Who, slug: string, p: Position)
    requires Conserved(d) && !TaskOf(d, who).Committing? && Find(d.open, slug) == Some(p)
    ensures Conserved(WithTask(d.(open := Pop(d.open, slug), timedOut := d.timedOut + [p]), who, Idle))
  {
    var d' := WithTask(d.(open := Pop(d.open, slug), timedOut := d.timedOut + [p]), who, Idle);
    PopAccounts(d.open, d.handler, d.watchdog, d.entered, d.settled, d.timedOut,
                slug, d'.handler, d'.watchdog, d'.timedOut);
  }

  lemma FlightConserves(d: Driver, who: Who, slug: string, p: Position, wentUp: bool)
    requires Conserved(d) && !TaskOf(d, who).Committing? && Find(d.open, slug) == Some(p)
    ensures Conserved(WithTask(d.(open := Pop(d.open, slug)), who, Committing(p, wentUp)))
  {
    var d' := WithTask(d.(open := Pop(d.open, slug)), who, Committing(p, wentUp));
    PopAccounts(d.open, d.handler, d.watchdog, d.entered, d.settled, d.timedOut,
                slug, d'.handler, d'.watchdog, d'.timedOut);
  }

  lemma GivingUpConserves(d: Driver, who: Who)
    requires Conserved(d) && !TaskOf(d, who).Committing?
    ensures Conserved(WithTask(d, who, Idle))
  {
    assert InFlight(TaskOf(d, who)) == InFlight(Idle);
  }

  lemma QueryConserves(d: Driver, who: Who, outcome: Outcome)
    requires Conserved(d) && TaskOf(d, who).Querying?
    ensures Conserved(OnQueryDone(d, who, TaskOf(d, who).slug, outcome))
  {
    var slug := TaskOf(d, who).slug;
    var pos := Find(d.open, slug);
    if !outcome.NotYet? && pos.Some? {
      var p := pos.value;
      if outcome.TimedOut? {
        TimeoutConserves(d, who, slug, p);
      } else {
        FlightConserves(d, who, slug, p, outcome.wentUp);
      }
    } else {
      GivingUpConserves(d, who);
    }
  }

  lemma CommitAccounts(open: seq<Position>, h: Task, w: Task, entered: seq<Position>, settled: seq<Position>,
                       timedOut: seq<Position>, h': Task, w': Task, p: Position)
    requires Accounted(open, h, w, entered, settled, timedOut)
    requires h'.Entering? ==> h' == h
    requires InFlight(h) + InFlight(w) == InFlight(h') + InFlight(w') + multiset{p}
    ensures Accounted(open, h', w', entered, settled + [p], timedOut)
  {
    assert multiset(settled + [p]) == multiset(settled) + multiset{p};
    Committed(multiset(settled), multiset(timedOut), multiset(open), InFlight(h), InFlight(w), InFlight(h'), InFlight(w'), p);
  }

  lemma Committed(s: multiset<Position>, t: multiset<Position>, o: multiset<Position>, h: multiset<Position>, w: multiset<Position>,
                  h': multiset<Position>, w': multiset<Position>, p: Position)
    requires h + w == h' + w' + multiset{p}
    ensures s + t + o + h + w == (s + multiset{p}) + t + o + h' + w'
  {
    forall x ensures (s + t + o + h + w)[x] == ((s + multiset{p}) + t + o + h' + w')[x] {
      assert (h + w)[x] == (h' + w' + multiset{p})[x];
    }
  }

  lemma CommitConserves(d: Driver, who: Who, pnl: real)
    requires Conserved(d) && TaskOf(d, who).Committing?
    ensures Conserved(OnSettleDone(d, who, TaskOf(d, who).settling, TaskOf(d, who).wentUp, pnl))
  {
    var p := TaskOf(d, who).settling;
    var d' := OnSettleDone(d, who, p, TaskOf(d, who).wentUp, pnl);
    CommitAccounts(d.open, d.handler, d.watchdog, d.entered, d.settled, d.timedOut, d'.handler, d'.watchdog, p);
    assert (d.committed + [pnl])[..|d.committed|] == d.committed;
  }

  /** What a sweep, the next expired position and the pause switch can touch. */
  lemma WatchdogFrame(c: DriverConfig, d: Driver, s: Step)
    requires s.Scan? || s.NextExpired? || s.Control?
    ensures var d' := Next(c, d, s);
            && d'.open == d.open && d'.handler == d.handler && d'.entered == d.entered && d'.settled == d.settled
            && d'.timedOut == d.timedOut && d'.dailyPnl == d.dailyPnl && d'.committed == d.committed
            && InFlight(d'.watchdog) == InFlight(d.watchdog)
  {
  }

  lemma SameFlight(open: seq<Position>, h: Task, w: Task, w': Task, entered: seq<Position>, settled: seq<Position>, timedOut: seq<Position>)
    requires Accounted(open, h, w, entered, settled, timedOut) && InFlight(w) == InFlight(w')
    ensures Accounted(open, h, w', entered, settled, timedOut)
  {
  }

  lemma WatchdogConserves(c: DriverConfig, d: Driver, s: Step)
    requires Conserved(d) && (s.Scan? || s.NextExpired? || s.Control?)
    ensures Conserved(Next(c, d, s))
  {
    WatchdogFrame(c, d, s);
    SameFlight(d.open, d.handler, d.watchdog, Next(c, d, s).watchdog, d.entered, d.settled, d.timedOut);
  }

  lemma StepConserves(c: DriverConfig, d: Driver, s: Step)
    requires Conserved(d)
    ensures Conserved(Next(c, d, s))
  {
    if s.Tick? && d.handler.Idle? {
      TickConserves(c, d, s.tick);
    } else if s.EntryDone? && d.handler.Entering? {
      EntryConserves(c, d, d.handler.tick, s.fill);
    } else if s.QueryDone? && TaskOf(d, s.who).Querying? {
      QueryConserves(d, s.who, s.outcome);
    } else if s.SettleDone? && TaskOf(d, s.who).Committing? {
      CommitConserves(d, s.who, Payout(TaskOf(d, s.who).settling, TaskOf(d, s.who).wentUp));
    } else if s.Scan? || s.NextExpired? || s.Control? {
      WatchdogConserves(c, d, s);
    }
  }

  lemma StillNotFound(open: seq<Position>, popped: string, slug: string)
    requires OneEach(open) && Find(open, slug).None?
    ensures Find(Pop(open, popped), slug).None?
  {
    FindFinds(open, slug);
    FindFinds(Pop(open, popped), slug);
    PopRemoves(open, popped);
  }

  /** Under any interleaving: entered = settled + timed out + open + in flight, and the
      day's result is the sum of what was committed since the last day roll. */
  lemma {:induction false} RunConserves(c: DriverConfig, steps: seq<Step>)
    ensures Conserved(Run(c, steps))
  {
    if steps != [] {
      RunConserves(c, steps[..|steps| - 1]);
      StepConserves(c, Run(c, steps[..|steps| - 1]), steps[|steps| - 1]);
    }
  }

  /** So no position is settled twice, or settled after it timed out or while it is open. */
  lemma SettledAtMostOnce(c: DriverConfig, steps: seq<Step>, p: Position)
    ensures var d := Run(c, steps);
            multiset(d.settled)[p] + multiset(d.timedOut)[p] + multiset(d.open)[p]
              + InFlight(d.handler)[p] + InFlight(d.watchdog)[p] <= 1
  {
    RunConserves(c, steps);
    var d := Run(c, steps);
    NumberedOnce(d.entered, p);
  }

  lemma {:induction false} NumberedOnce(entered: seq<Position>, p: Position)
    requires forall i :: 0 <= i < |entered| ==> entered[i].id == i
    ensures multiset(entered)[p] <= 1
  {
    if entered != [] {
      var init, last := entered[..|entered| - 1], entered[|entered| - 1];
      assert entered == init + [last];
      NumberedOnce(init, p);
      if p == last {
        assert forall x :: x in init ==> x.id < last.id;
        assert p !in multiset(init);
      }
    }
  }

  // ----- no market is entered twice

  /** Windows open on whole multiples of 300 s, and ticks tell the time since then. */
  ghost predicate OnSchedule(opens: string -> int, t: PaperTick)
  {
    t.tInWindow == Max(0.0, t.ts - 300.0 * opens(t.slug) as real)
  }

  /** Scheduled ticks in nondecreasing time; everything else in between is arbitrary. */
  ghost predicate WellTimed(opens: string -> int, steps: seq<Step>)
  {
    && (forall i :: 0 <= i < |steps| && steps[i].Tick? ==> OnSchedule(opens, steps[i].tick))
    && (forall i, j :: 0 <= i < j < |steps| && steps[i].Tick? && steps[j].Tick? ==> steps[i].tick.ts <= steps[j].tick.ts)
  }

  /** No entry can happen outside (0, 300) seconds into a window. */
  predicate EntriesInside(c: DriverConfig)
  {
    || c.latest < LATE_ENTRY_GUARD
    || c.earliest > c.latest - LATE_ENTRY_GUARD
    || (c.earliest > 0.0 && c.latest < 300.0 + LATE_ENTRY_GUARD)
  }

  /** The window's first five minutes are over. */
  ghost predicate Passed(opens: string -> int, slug: string, clock: real)
  {
    clock >= 300.0 * opens(slug) as real + 300.0
  }

  /** A five-minute slot lies within one UTC day. */
  lemma SlotInOneDay(k: int, ts: real)
    requires 300.0 * k as real <= ts < 300.0 * k as real + 300.0
    ensures UtcDay(ts) == k / 288
  {
    var n := k / 288;
    assert 288 * n <= k <= 288 * n + 287;
    assert 86400.0 * n as real <= ts < 86400.0 * (n as real + 1.0);
    DayBounds(ts, n);
  }

  lemma DayBounds(ts: real, n: int)
    requires 86400.0 * n as real <= ts < 86400.0 * (n as real + 1.0)
    ensures UtcDay(ts) == n
  {
    var x := ts / 86400.0;
    assert x * 86400.0 == ts;
    assert n as real <= x < n as real + 1.0;
  }

  /** An entered market is marked as taken on its own day, or its window has passed. */
  ghost predicate Guarded(opens: string -> int, d: Driver, slug: string, clock: real)
  {
    Passed(opens, slug, clock) || (slug in d.taken && UtcDay(clock) == opens(slug) / 288)
  }

  ghost predicate OncePerSlug(entered: seq<Position>)
  {
    forall i, j :: 0 <= i < j < |entered| ==> entered[i].slug != entered[j].slug
  }

  ghost predicate NoReentry(c: DriverConfig, opens: string -> int, d: Driver, clock: real)
  {
    && OncePerSlug(d.entered)
    && (forall i :: 0 <= i < |d.entered| ==> Guarded(opens, d, d.entered[i].slug, clock))
    && (d.entered != [] ==> d.today == Some(UtcDay(clock)))
    && (d.handler.Entering? ==>
          && d.handler.tick.ts == clock && OnSchedule(opens, d.handler.tick)
          && c.earliest <= d.handler.tick.tInWindow <= c.latest
          && d.handler.tick.slug !in d.taken
          && d.today == Some(UtcDay(clock)))
  }

  /** Time moving on keeps every entered market guarded: a day roll, or forgetting the
      market, only happens after its window has passed. */
  lemma TickKeepsGuard(c: DriverConfig, opens: string -> int, d: Driver, clock: real, t: PaperTick, slug: string)
    requires d.handler.Idle? && OnSchedule(opens, t) && clock <= t.ts
    requires Guarded(opens, d, slug, clock) && d.today == Some(UtcDay(clock))
    ensures Guarded(opens, OnTick(c, d, t), slug, t.ts)
  {
    var k := opens(slug);
    if !Passed(opens, slug, t.ts) {
      assert slug in d.taken && UtcDay(clock) == k / 288;
      SlotInOneDay(k, 300.0 * k as real + 299.0);
      var last := Max(t.ts, 300.0 * k as real);
      SlotInOneDay(k, last);
      UtcDayMonotone(clock, t.ts);
      UtcDayMonotone(t.ts, last);
      assert UtcDay(t.ts) == UtcDay(clock);
      assert RollDay(d, t.ts) == d;
    }
  }

  lemma TickKeepsNoReentry(c: DriverConfig, opens: string -> int, d: Driver, clock: real, t: PaperTick)
    requires d.handler.Idle? && OnSchedule(opens, t) && clock <= t.ts && NoReentry(c, opens, d, clock)
    ensures NoReentry(c, opens, OnTick(c, d, t), t.ts)
  {
    TickFrame(c, d, t);
    forall i | 0 <= i < |d.entered| ensures Guarded(opens, OnTick(c, d, t), d.entered[i].slug, t.ts) {
      TickKeepsGuard(c, opens, d, clock, t, d.entered[i].slug);
    }
  }

  lemma EntryKeepsNoReentry(c: DriverConfig, opens: string -> int, d: Driver, clock: real, t: PaperTick, fill: Option<real>)
    requires EntriesInside(c) && d.handler == Entering(t) && NoReentry(c, opens, d, clock)
    ensures NoReentry(c, opens, OnEntryDone(c, d, t, fill), clock)
  {
    var d' := OnEntryDone(c, d, t, fill);
    if d'.entered != d.entered {
      assert 0.0 < t.tInWindow < 300.0;
      SlotInOneDay(opens(t.slug), t.ts);
      forall i | 0 <= i < |d.entered| ensures d.entered[i].slug != t.slug {
        assert Guarded(opens, d, d.entered[i].slug, clock);
      }
      assert forall i :: 0 <= i < |d'.entered| ==> Guarded(opens, d', d'.entered[i].slug, clock);
    }
  }

  /** Steps of neither kind touch what the guard looks at. */
  lemma OtherStepsKeepNoReentry(c: DriverConfig, opens: string -> int, d: Driver, clock: real, s: Step)
    requires !s.Tick? && !s.EntryDone? && NoReentry(c, opens, d, clock)
    ensures NoReentry(c, opens, Next(c, d, s), clock)
  {
    var d' := Next(c, d, s);
    assert d'.entered == d.entered && d'.taken == d.taken && d'.today == d.today;
    assert d'.handler == d.handler || !d'.handler.Entering?;
    assert forall i :: 0 <= i < |d.entered| ==> Guarded(opens, d, d.entered[i].slug, clock);
  }

  /** The time of the last tick handled. */
  ghost function Clock(c: DriverConfig, steps: seq<Step>): real
  {
    if steps == [] then 0.0
    else
      var init, s := steps[..|steps| - 1], steps[|steps| - 1];
      if s.Tick? && Run(c, init).handler.Idle? then s.tick.ts else Clock(c, init)
  }

  lemma {:induction false} ClockIsATick(c: DriverConfig, steps: seq<Step>) returns (i: nat)
    requires Run(c, steps).today.Some?
    ensures i < |steps| && steps[i].Tick? && steps[i].tick.ts == Clock(c, steps)
  {
    var init, s := steps[..|steps| - 1], steps[|steps| - 1];
    if s.Tick? && Run(c, init).handler.Idle? {
      i := |steps| - 1;
    } else {
      i := ClockIsATick(c, init);
    }
  }

  /** Before the first tick nothing was entered; from then on no market is re-entered. */
  ghost predicate Safe(c: DriverConfig, opens: string -> int, d: Driver, clock: real)
  {
    if d.today.None? then d.entered == [] && !d.handler.Entering? else NoReentry(c, opens, d, clock)
  }

  lemma TickKeepsSafe(c: DriverConfig, opens: string -> int, d: Driver, clock: real, t: PaperTick)
    requires d.handler.Idle? && OnSchedule(opens, t) && Safe(c, opens, d, clock)
    requires d.today.Some? ==> clock <= t.ts
    ensures Safe(c, opens, OnTick(c, d, t), t.ts)
  {
    TickFrame(c, d, t);
    TickKeepsNoReentry(c, opens, d, if d.today.Some? then clock else t.ts, t);
  }

  lemma OtherStepsKeepSafe(c: DriverConfig, opens: string -> int, d: Driver, clock: real, s: Step)
    requires EntriesInside(c) && Safe(c, opens, d, clock) && !(s.Tick? && d.handler.Idle?)
    ensures Safe(c, opens, Next(c, d, s), clock)
  {
    if s.EntryDone? && d.handler.Entering? {
      EntryKeepsNoReentry(c, opens, d, clock, d.handler.tick, s.fill);
    } else if !s.Tick? && !s.EntryDone? && d.today.Some? {
      OtherStepsKeepNoReentry(c, opens, d, clock, s);
    }
  }

  lemma {:induction false} RunIsSafe(c: DriverConfig, opens: string -> int, steps: seq<Step>)
    requires EntriesInside(c) && WellTimed(opens, steps)
    ensures Safe(c, opens, Run(c, steps), Clock(c, steps))
  {
    if steps != [] {
      var init, s := steps[..|steps| - 1], steps[|steps| - 1];
      InitIsWellTimed(opens, steps);
      RunIsSafe(c, opens, init);
      var d := Run(c, init);
      if s.Tick? && d.handler.Idle? {
        if d.today.Some? {
          var i := ClockIsATick(c, init);
          assert steps[i].tick.ts <= steps[|steps| - 1].tick.ts;
        }
        TickKeepsSafe(c, opens, d, Clock(c, init), s.tick);
      } else {
        OtherStepsKeepSafe(c, opens, d, Clock(c, init), s);
      }
    }
  }

  lemma InitIsWellTimed(opens: string -> int, steps: seq<Step>)
    requires steps != [] && WellTimed(opens, steps)
    ensures WellTimed(opens, steps[..|steps| - 1])
  {
    var init := steps[..|steps| - 1];
    assert forall i :: 0 <= i < |init| ==> init[i] == steps[i];
  }

  /** If entries only happen inside the first 300 s of a window, then with scheduled
      ticks in nondecreasing time no market is entered twice, whatever the watchdog,
      the queries and the pause switch do in between. */
  lemma NoMarketTwice(c: DriverConfig, opens: string -> int, steps: seq<Step>)
    requires EntriesInside(c) && WellTimed(opens, steps)
    ensures OncePerSlug(Run(c, steps).entered)
  {
    RunIsSafe(c, opens, steps);
  }

  // ----- and the condition is exact

  lemma RunSnoc(c: DriverConfig, steps: seq<Step>, s: Step)
    ensures Run(c, steps + [s]) == Next(c, Run(c, steps), s)
  {
    assert (steps + [s])[..|steps|] == steps;
  }

  lemma OnlyOne(p: Position, now: real)
    requires Overdue(p, now)
    ensures Find([p], p.slug) == Some(p) && Pop([p], p.slug) == []
    ensures ExpiredOf([p], now) == [Expired(p.slug, p)]
  {
    assert [p][..0] == [];
    assert Filter(HasSlug(p.slug), [p]) == [p];
    FilterNone(NotSlug(p.slug), [p]);
  }

  /** A market is entered, and the watchdog takes the position into settlement. */
  function EnterAndExpire(t: PaperTick): seq<Step>
  {
    [Tick(t), EntryDone(Some(0.5)), Scan(t.closeTs + 16.0), NextExpired, QueryDone(Watchdog, Resolved(true))]
  }

  lemma AfterExpiry(c: DriverConfig, t: PaperTick)
    requires c.earliest <= t.tInWindow <= c.latest - LATE_ENTRY_GUARD && c.pauseThreshold < 0.0
    requires t.riskAllows && t.enter && t.closeTs > 0.0
    ensures var d := Run(c, EnterAndExpire(t));
            && d.open == [] && d.taken == {t.slug} && d.dailyPnl == 0.0 && d.today == Some(UtcDay(t.ts))
            && d.handler.Idle? && !d.paused && |d.entered| == 1 && d.entered[0].slug == t.slug
  {
    var s := EnterAndExpire(t);
    var d1 := Next(c, START, s[0]);
    var d2 := Next(c, d1, s[1]);
    var d3 := Next(c, d2, s[2]);
    var d4 := Next(c, d3, s[3]);
    AfterEntry(c, t);
    AfterSweep(c, t, d2);
    FiveSteps(c, s);
  }

  lemma AfterEntry(c: DriverConfig, t: PaperTick)
    requires c.earliest <= t.tInWindow <= c.latest - LATE_ENTRY_GUARD && c.pauseThreshold < 0.0 && t.riskAllows && t.enter
    ensures var d := Next(c, Next(c, START, Tick(t)), EntryDone(Some(0.5)));
            Entered(d, t, Position(0, t.slug, t.side, 0.5, c.stake, t.closeTs))
  {
    assert Find([], t.slug).None?;
    var d1 := Next(c, START, Tick(t));
    assert d1.handler == Entering(t) && d1.dailyPnl == 0.0;
  }

  ghost predicate Entered(d: Driver, t: PaperTick, pos: Position)
  {
    && d.open == [pos] && d.entered == [pos] && d.taken == {t.slug} && d.dailyPnl == 0.0 && d.today == Some(UtcDay(t.ts))
    && d.handler.Idle? && d.watchdog.Idle? && d.queue == [] && !d.paused
  }

  lemma AfterSweep(c: DriverConfig, t: PaperTick, d: Driver)
    requires Entered(d, t, Position(0, t.slug, t.side, 0.5, c.stake, t.closeTs)) && t.closeTs > 0.0
    ensures var d' := Next(c, Next(c, Next(c, d, Scan(t.closeTs + 16.0)), NextExpired), QueryDone(Watchdog, Resolved(true)));
            && d'.open == [] && d'.taken == d.taken && d'.dailyPnl == d.dailyPnl && d'.today == d.today
            && d'.handler == d.handler && d'.paused == d.paused && d'.entered == d.entered
  {
    var pos := d.open[0];
    OnlyOne(pos, t.closeTs + 16.0);
    var d3 := Next(c, d, Scan(t.closeTs + 16.0));
    assert d3.queue == [Expired(t.slug, pos)];
    var d4 := Next(c, d3, NextExpired);
    assert d4.watchdog == Querying(t.slug, pos);
  }

  lemma FiveSteps(c: DriverConfig, s: seq<Step>)
    requires |s| == 5
    ensures Run(c, s) == Next(c, Next(c, Next(c, Next(c, Next(c, START, s[0]), s[1]), s[2]), s[3]), s[4])
  {
    RunSnoc(c, [], s[0]);
    RunSnoc(c, s[..1], s[1]);
    RunSnoc(c, s[..2], s[2]);
    RunSnoc(c, s[..3], s[3]);
    RunSnoc(c, s[..4], s[4]);
    assert s[..1] == [] + [s[0]] && s[..2] == s[..1] + [s[1]] && s[..3] == s[..2] + [s[2]];
    assert s[..4] == s[..3] + [s[3]] && s == s[..4] + [s[4]];
  }

  /** A second entry of the market, from a driver that has forgotten it. */
  lemma EntersAgain(c: DriverConfig, steps: seq<Step>, t: PaperTick)
    requires c.earliest <= t.tInWindow <= c.latest - LATE_ENTRY_GUARD && c.pauseThreshold < 0.0 && t.riskAllows && t.enter
    requires var d := RollDay(Run(c, steps), t.ts);
             && d.open == [] && t.slug !in d.taken && d.dailyPnl > c.pauseThreshold && d.handler.Idle? && !d.paused
             && |d.entered| == 1 && d.entered[0].slug == t.slug
    ensures !OncePerSlug(Run(c, steps + [Tick(t)] + [EntryDone(Some(0.5))]).entered)
  {
    RunSnoc(c, steps, Tick(t));
    RunSnoc(c, steps + [Tick(t)], EntryDone(Some(0.5)));
    assert Find([], t.slug).None?;
    var d1 := Run(c, steps + [Tick(t)]);
    assert d1.handler == Entering(t);
    var d2 := Run(c, steps + [Tick(t)] + [EntryDone(Some(0.5))]);
    assert |d2.entered| == 2 && d2.entered[0].slug == d2.entered[1].slug;
  }

  /** A market entered on one day, settled, and entered again on the next. */
  lemma EntersOnTwoDays(c: DriverConfig, a: PaperTick, b: PaperTick)
    requires c.earliest <= a.tInWindow <= c.latest - LATE_ENTRY_GUARD && c.pauseThreshold < 0.0
    requires a.riskAllows && a.enter && a.closeTs > 0.0 && b == a.(ts := b.ts) && UtcDay(a.ts) != UtcDay(b.ts)
    ensures !OncePerSlug(Run(c, EnterAndExpire(a) + [Tick(b)] + [EntryDone(Some(0.5))]).entered)
  {
    AfterExpiry(c, a);
    EntersAgain(c, EnterAndExpire(a), b);
  }

  lemma TwiceIsWellTimed(opens: string -> int, a: PaperTick, b: PaperTick)
    requires OnSchedule(opens, a) && OnSchedule(opens, b) && a.ts <= b.ts
    ensures WellTimed(opens, EnterAndExpire(a) + [Tick(b)] + [EntryDone(Some(0.5))])
  {
  }

  /** A window that opens at midnight, seen one second before and at midnight. The
      watchdog's clock has passed the window's close before the tick of midnight is handled:
      ticks more than five minutes late. */
  lemma EntersBeforeMidnightAndAfter(c: DriverConfig, opens: string -> int) returns (steps: seq<Step>)
    requires c.earliest <= 0.0 && c.latest >= LATE_ENTRY_GUARD && c.pauseThreshold < 0.0 && opens("m") == 288
    ensures WellTimed(opens, steps) && !OncePerSlug(Run(c, steps).entered)
  {
    var a := PaperTick("m", 86399.0, 0.0, 86700.0, true, true, YesUp);
    var b := a.(ts := 86400.0);
    DayBounds(86399.0, 0);
    DayBounds(86400.0, 1);
    EntersOnTwoDays(c, a, b);
    TwiceIsWellTimed(opens, a, b);
    steps := EnterAndExpire(a) + [Tick(b)] + [EntryDone(Some(0.5))];
  }

  /** A tick past the first 300 s, which enters, forgets and enters again. */
  lemma EntersAfterFiveMinutes(c: DriverConfig, opens: string -> int) returns (steps: seq<Step>)
    requires c.latest >= 300.0 + LATE_ENTRY_GUARD && c.earliest <= c.latest - LATE_ENTRY_GUARD
    requires c.pauseThreshold < 0.0 && opens("m") == 0
    ensures WellTimed(opens, steps) && !OncePerSlug(Run(c, steps).entered)
  {
    var at := Max(300.0, c.earliest);
    var a := PaperTick("m", at, at, 300.0, true, true, YesUp);
    AfterExpiry(c, a);
    var first := EnterAndExpire(a);
    RunSnoc(c, first, Tick(a));
    assert Find([], a.slug).None?;
    EntersAgain(c, first + [Tick(a)], a);
    steps := first + [Tick(a)] + [Tick(a)] + [EntryDone(Some(0.5))];
  }

  /** A driver that can trade and can enter before a window opens, or after its first
      300 s, has a run that enters a market twice. */
  lemma EntersTwice(c: DriverConfig) returns (opens: string -> int, steps: seq<Step>)
    requires !EntriesInside(c) && c.pauseThreshold < 0.0
    ensures WellTimed(opens, steps) && !OncePerSlug(Run(c, steps).entered)
  {
    if c.earliest <= 0.0 {
      opens := _ => 288;
      steps := EntersBeforeMidnightAndAfter(c, opens);
    } else {
      opens := _ => 0;
      steps := EntersAfterFiveMinutes(c, opens);
    }
  }

  /** A driver whose pause threshold is not negative starts stopped and stays stopped. */
  ghost predicate Stopped(d: Driver)
  {
    && d.open == [] && d.entered == [] && d.queue == [] && d.dailyPnl == 0.0
    && d.handler.Idle? && d.watchdog.Idle?
  }

  lemma StepStaysStopped(c: DriverConfig, d: Driver, s: Step)
    requires c.pauseThreshold >= 0.0 && Stopped(d)
    ensures Stopped(Next(c, d, s))
  {
    match s
    case Tick(t) => assert Find([], t.slug).None?;
    case Scan(_) =>
    case EntryDone(_) =>
    case QueryDone(_, _) =>
    case SettleDone(_) =>
    case NextExpired =>
    case Control(_) =>
  }

  lemma {:induction false} NeverTrades(c: DriverConfig, steps: seq<Step>)
    requires c.pauseThreshold >= 0.0
    ensures Stopped(Run(c, steps))
  {
    if steps != [] {
      NeverTrades(c, steps[..|steps| - 1]);
      StepStaysStopped(c, Run(c, steps[..|steps| - 1]), steps[|steps| - 1]);
    }
  }

  ghost predicate EntersOnce(c: DriverConfig)
  {
    forall opens: string -> int, steps | WellTimed(opens, steps) :: OncePerSlug(Run(c, steps).entered)
  }

  /** So no run enters a market twice exactly when entries stay inside the first
      300 s, or the threshold stops all trading. */
  lemma EntersOnceIff(c: DriverConfig)
    ensures EntersOnce(c) <==> EntriesInside(c) || c.pauseThreshold >= 0.0
  {
    if EntriesInside(c) {
      forall opens: string -> int, steps | WellTimed(opens, steps) ensures OncePerSlug(Run(c, steps).entered) {
        NoMarketTwice(c, opens, steps);
      }
    } else if c.pauseThreshold >= 0.0 {
      forall opens: string -> int, steps | WellTimed(opens, steps) ensures OncePerSlug(Run(c, steps).entered) {
        NeverTrades(c, steps);
      }
    } else {
      var opens, steps := EntersTwice(c);
    }
  }

  // ----- a settlement closes the position it was computed for

  ghost predicate TaskKnown(t: Task, entered: seq<Position>)
  {
    t.Querying? ==> t.pos in entered && t.pos.slug == t.slug
  }

  ghost predicate QueueKnown(queue: seq<Expired>, entered: seq<Position>)
  {
    forall i :: 0 <= i < |queue| ==> queue[i].pos in entered && queue[i].pos.slug == queue[i].slug
  }

  ghost predicate OpenKnown(open: seq<Position>, entered: seq<Position>)
  {
    forall p :: p in open ==> p in entered
  }

  /** The positions a task or the queue refers to were all entered, under their slug. */
  ghost predicate Known(d: Driver)
  {
    && OpenKnown(d.open, d.entered) && QueueKnown(d.queue, d.entered)
    && TaskKnown(d.handler, d.entered) && TaskKnown(d.watchdog, d.entered)
  }

  lemma TickKeepsKnown(c: DriverConfig, d: Driver, t: PaperTick)
    requires Known(d) && d.handler.Idle?
    ensures Known(OnTick(c, d, t))
  {
    TickFrame(c, d, t);
    var task := OnTick(c, d, t).handler;
    if task.Querying? {
      FindFinds(d.open, task.slug);
    }
  }

  lemma EntryKeepsKnown(c: DriverConfig, d: Driver, fill: Option<real>)
    requires OneEach(d.open) && Known(d) && d.handler.Entering?
    ensures Known(OnEntryDone(c, d, d.handler.tick, fill))
  {
    PopRemoves(d.open, d.handler.tick.slug);
  }

  lemma QueryKeepsKnown(d: Driver, who: Who, outcome: Outcome)
    requires OneEach(d.open) && Known(d) && TaskOf(d, who).Querying?
    ensures Known(OnQueryDone(d, who, TaskOf(d, who).slug, outcome))
  {
    PopRemoves(d.open, TaskOf(d, who).slug);
  }

  lemma StepKeepsKnown(c: DriverConfig, d: Driver, s: Step)
    requires OneEach(d.open) && Known(d)
    ensures Known(Next(c, d, s))
  {
    match s
    case Tick(t) => if d.handler.Idle? { TickKeepsKnown(c, d, t); }
    case EntryDone(fill) => if d.handler.Entering? { EntryKeepsKnown(c, d, fill); }
    case QueryDone(who, outcome) => if TaskOf(d, who).Querying? { QueryKeepsKnown(d, who, outcome); }
    case SettleDone(who) =>
    case Scan(now) => SweepIsExact(d.open, now);
    case NextExpired =>
    case Control(_) =>
  }

  lemma {:induction false} RunKeepsKnown(c: DriverConfig, steps: seq<Step>)
    ensures Known(Run(c, steps))
  {
    if steps != [] {
      RunKeepsKnown(c, steps[..|steps| - 1]);
      RunConserves(c, steps[..|steps| - 1]);
      StepKeepsKnown(c, Run(c, steps[..|steps| - 1]), steps[|steps| - 1]);
    }
  }

  /** The settlement pops by slug, long after it looked the position up. In a safe
      configuration what it pops is still the very position its prices are for. */
  lemma SettlesWhatItLookedUp(c: DriverConfig, opens: string -> int, steps: seq<Step>, who: Who)
    requires EntriesInside(c) && WellTimed(opens, steps) && TaskOf(Run(c, steps), who).Querying?
    ensures var d := Run(c, steps);
            var found := Find(d.open, TaskOf(d, who).slug);
            found.Some? ==> found.value == TaskOf(d, who).pos
  {
    var d := Run(c, steps);
    var task := TaskOf(d, who);
    RunKeepsKnown(c, steps);
    NoMarketTwice(c, opens, steps);
    FindFinds(d.open, task.slug);
    var found := Find(d.open, task.slug);
    if found.Some? {
      var i :| 0 <= i < |d.entered| && d.entered[i] == found.value;
      var j :| 0 <= j < |d.entered| && d.entered[j] == task.pos;
      assert i == j;
    }
  }
}
