/** The market-making safety guard: inventory cap, sliding cancel/fill windows,
    breach deduplication and the market kill. Wall-clock readings are in seconds. */
module SafetyGuard {
  import opened Common
  import opened SlidingWindow

  const MINUTE := 60.0

  function Time(): real -> real { (t: real) => t }

  datatype GuardParams = GuardParams(
    cap: real, ratioMax: real, windowMin: int, killThreshold: int, killWindowMin: int,
    resumeMin: int, tauTerminal: real, autoKill: bool)

  datatype MarketState = MarketState(
    cancels: seq<real>, fills: seq<real>, breaches: seq<real>, killedUntil: Option<real>)

  const FRESH := MarketState([], [], [], None)

  // ----- one market

  // The lengths of the two sliding windows, in seconds.
  function Window(p: GuardParams): real { p.windowMin as real * 60.0 }
  function KillWindow(p: GuardParams): real { p.killWindowMin as real * 60.0 }

  function Gc(p: GuardParams, st: MarketState, now: real): MarketState
  {
    st.(cancels := DropBefore(Time(), st.cancels, now - Window(p)),
        fills := DropBefore(Time(), st.fills, now - Window(p)),
        breaches := DropBefore(Time(), st.breaches, now - KillWindow(p)))
  }

  function Ratio(st: MarketState): real
  {
    |st.cancels| as real / (if |st.fills| >= 1 then |st.fills| else 1) as real
  }

  /** A breach counts at most once a minute. */
  predicate Breaching(p: GuardParams, st: MarketState, now: real)
  {
    Ratio(st) > p.ratioMax &&
    !(st.breaches != [] && now - st.breaches[|st.breaches| - 1] < MINUTE)
  }

  function MaybeBreach(p: GuardParams, st: MarketState, now: real): MarketState
  {
    if !Breaching(p, st, now) then st
    else
      var breaches := st.breaches + [now];
      st.(breaches := breaches,
          killedUntil := if |breaches| >= p.killThreshold && p.autoKill
                         then Some(now + p.resumeMin as real * 60.0) else st.killedUntil)
  }

  function RecordCancel(p: GuardParams, st: MarketState, now: real): MarketState
  {
    MaybeBreach(p, Gc(p, st.(cancels := st.cancels + [now]), now), now)
  }

  function RecordFill(p: GuardParams, st: MarketState, now: real): MarketState
  {
    Gc(p, st.(fills := st.fills + [now]), now)
  }

  predicate Killed(st: MarketState, now: real)
  {
    st.killedUntil.Some? && now < st.killedUntil.value
  }

  /** Asking whether a market is killed forgets a kill that has run out. */
  function CheckKilled(st: MarketState, now: real): MarketState
  {
    if st.killedUntil.Some? && now >= st.killedUntil.value then st.(killedUntil := None) else st
  }

  // ----- every history of one market

  datatype Event = Cancel(now: real) | Fill(now: real) | Check(now: real)

  /** The guard's queues beside the complete logs they summarise. */
  datatype Trace = Trace(st: MarketState, cancelLog: seq<real>, fillLog: seq<real>, breachLog: seq<real>)

  function Advance(p: GuardParams, t: Trace, e: Event): Trace
  {
    match e
    case Cancel(now) =>
      var swept := Gc(p, t.st.(cancels := t.st.cancels + [now]), now);
      Trace(RecordCancel(p, t.st, now), t.cancelLog + [now], t.fillLog,
            if Breaching(p, swept, now) then t.breachLog + [now] else t.breachLog)
    case Fill(now) => t.(st := RecordFill(p, t.st, now), fillLog := t.fillLog + [now])
    case Check(now) => t.(st := CheckKilled(t.st, now))
  }

  function Run(p: GuardParams, events: seq<Event>): Trace
  {
    if events == [] then Trace(FRESH, [], [], [])
    else Advance(p, Run(p, events[..|events| - 1]), events[|events| - 1])
  }

  ghost predicate Chronological(events: seq<Event>)
  {
    forall i, j :: 0 <= i < j < |events| ==> events[i].now <= events[j].now
  }

  function Between(lo: real, hi: real): real -> bool { (t: real) => lo <= t <= hi }

  /** A minute or more apart, each from each. */
  ghost predicate Spaced(s: seq<real>)
  {
    forall i, j :: 0 <= i < j < |s| ==> s[j] - s[i] >= MINUTE
  }

  lemma {:induction false} SpacedApart(s: seq<real>, i: nat, j: nat)
    requires Spaced(s) && i <= j < |s|
    ensures s[j] - s[i] >= (j - i) as real * 60.0
    decreases j
  {
    if i < j {
      SpacedApart(s, i, j - 1);
      assert s[j] - s[j - 1] >= MINUTE;
    }
  }

  lemma {:induction false} DropKeepsSpacing(q: seq<real>, cutoff: real)
    requires Spaced(q)
    ensures Spaced(DropBefore(Time(), q, cutoff))
  {
    if q != [] && q[0] < cutoff {
      DropKeepsSpacing(q[1..], cutoff);
    }
  }

  /** A queue is exactly the part of a chronological log in the window ending at `last`. */
  ghost predicate Exact(log: seq<real>, queue: seq<real>, width: real, last: real)
  {
    && Ordered(Time(), log) && AtMost(Time(), log, last)
    && queue == Filter(Since(Time(), last - width), log)
  }

  /** Appending the present to queue and log, and trimming the queue. */
  lemma AppendExact(log: seq<real>, queue: seq<real>, width: real, last: real, now: real)
    requires Exact(log, queue, width, last) && last <= now
    ensures Exact(log + [now], DropBefore(Time(), queue + [now], now - width), width, now)
  {
    OrderedSnoc(Time(), log, now);
    Slide(Time(), log, queue, last - width, [now], now - width);
  }

  /** Trimming alone. */
  lemma TrimExact(log: seq<real>, queue: seq<real>, width: real, last: real, now: real)
    requires Exact(log, queue, width, last) && last <= now
    ensures Exact(log, DropBefore(Time(), queue, now - width), width, now)
  {
    assert log + [] == log && queue + [] == queue;
    Slide(Time(), log, queue, last - width, [], now - width);
  }

  /** The queue of breaches against their log. The queue is trimmed before a breach is
      added, so with a negative kill window it holds that breach and nothing else. */
  ghost predicate BreachQueue(p: GuardParams, log: seq<real>, queue: seq<real>, last: real)
  {
    if p.killWindowMin >= 0 then Exact(log, queue, KillWindow(p), last)
    else Ordered(Time(), log) && AtMost(Time(), log, last) && (queue == [] || queue == [last])
  }

  /** The breach log and queue, a minute apart, and the kill they justify. */
  ghost predicate BreachesOk(p: GuardParams, log: seq<real>, queue: seq<real>, killedUntil: Option<real>, last: real)
  {
    && BreachQueue(p, log, queue, last)
    && Spaced(queue)
    && (p.killWindowMin >= 1 ==> Spaced(log))
    && (killedUntil.Some? ==> JustifiedKill(p, log, killedUntil.value))
  }

  /** A kill until `until` was decided at `until - resume`, with enough breaches in
      the kill window that ends there; a negative window counts as one of length 0. */
  ghost predicate JustifiedKill(p: GuardParams, breachLog: seq<real>, until: real)
  {
    var decided := until - p.resumeMin as real * 60.0;
    p.autoKill && |Filter(Between(decided - Reach(p), decided), breachLog)| >= p.killThreshold
  }

  function Reach(p: GuardParams): real { Max(KillWindow(p), 0.0) }

  /** What every chronological history of a market keeps. `last` is the time of the
      latest record, `clock` the time of the latest event. */
  ghost predicate Faithful(p: GuardParams, t: Trace, last: real, clock: real)
  {
    && last <= clock
    && Exact(t.cancelLog, t.st.cancels, Window(p), last)
    && Exact(t.fillLog, t.st.fills, Window(p), last)
    && BreachesOk(p, t.breachLog, t.st.breaches, t.st.killedUntil, last)
  }

  lemma TrimBreaches(p: GuardParams, log: seq<real>, queue: seq<real>, killedUntil: Option<real>, last: real, now: real)
    requires BreachesOk(p, log, queue, killedUntil, last) && last <= now
    ensures BreachesOk(p, log, DropBefore(Time(), queue, now - KillWindow(p)), killedUntil, now)
    ensures p.killWindowMin < 0 ==> DropBefore(Time(), queue, now - KillWindow(p)) == []
  {
    DropKeepsSpacing(queue, now - KillWindow(p));
    if p.killWindowMin >= 0 {
      TrimExact(log, queue, KillWindow(p), last, now);
    } else if queue == [last] {
      assert queue[1..] == [];
    }
  }

  lemma JustificationGrows(p: GuardParams, log: seq<real>, x: real, until: real)
    requires JustifiedKill(p, log, until)
    ensures JustifiedKill(p, log + [x], until)
  {
    var decided := until - p.resumeMin as real * 60.0;
    FilterConcat(Between(decided - Reach(p), decided), log, [x]);
  }

  /** A kill decided by a full queue is justified by that queue. */
  lemma KillDecided(p: GuardParams, log: seq<real>, queue: seq<real>, now: real)
    requires p.autoKill && |queue + [now]| >= p.killThreshold
    requires BreachQueue(p, log + [now], queue + [now], now)
    ensures JustifiedKill(p, log + [now], now + p.resumeMin as real * 60.0)
  {
    if p.killWindowMin >= 0 {
      FilterCongruent(Since(Time(), now - KillWindow(p)), Between(now - KillWindow(p), now), log + [now]);
    } else {
      FilterConcat(Between(now, now), log, [now]);
      assert Filter(Between(now, now), [now]) == [now];
    }
  }

  /** A deduplicated breach extends queue and log and keeps both spaced. */
  lemma BreachExtends(p: GuardParams, log: seq<real>, queue: seq<real>, now: real)
    requires BreachQueue(p, log, queue, now) && Spaced(queue)
    requires p.killWindowMin < 0 ==> queue == []
    requires p.killWindowMin >= 1 ==> Spaced(log)
    requires queue != [] ==> now - queue[|queue| - 1] >= MINUTE
    ensures BreachQueue(p, log + [now], queue + [now], now) && Spaced(queue + [now])
    ensures p.killWindowMin >= 1 ==> Spaced(log + [now])
  {
    SpacedSnoc(queue, now);
    if p.killWindowMin >= 0 {
      QueueExtends(log, queue, KillWindow(p), now);
    } else {
      OrderedSnoc(Time(), log, now);
    }
    if p.killWindowMin >= 1 {
      RecentBreachQueued(log, queue, KillWindow(p), now);
      SpacedSnoc(log, now);
    }
  }

  lemma QueueExtends(log: seq<real>, queue: seq<real>, width: real, now: real)
    requires width >= 0.0 && Exact(log, queue, width, now)
    ensures Exact(log + [now], queue + [now], width, now)
  {
    OrderedSnoc(Time(), log, now);
    FilterConcat(Since(Time(), now - width), log, [now]);
    assert Filter(Since(Time(), now - width), [now]) == [now];
  }

  /** A breach of the last minute is still in a queue of a minute or more, at its end. */
  lemma RecentBreachQueued(log: seq<real>, queue: seq<real>, width: real, now: real)
    requires width >= 60.0 && Exact(log, queue, width, now)
    requires queue != [] ==> now - queue[|queue| - 1] >= MINUTE
    ensures log != [] ==> now - log[|log| - 1] >= MINUTE
  {
  }

  lemma SpacedSnoc(s: seq<real>, x: real)
    requires Spaced(s) && (s != [] ==> x - s[|s| - 1] >= MINUTE)
    ensures Spaced(s + [x])
  {
    forall i | 0 <= i < |s| ensures x - s[i] >= MINUTE {
      assert i < |s| - 1 ==> s[|s| - 1] - s[i] >= MINUTE;
    }
  }

  lemma BreachRecorded(p: GuardParams, log: seq<real>, st: MarketState, now: real)
    requires BreachesOk(p, log, st.breaches, st.killedUntil, now) && Breaching(p, st, now)
    requires p.killWindowMin < 0 ==> st.breaches == []
    ensures var st' := MaybeBreach(p, st, now);
            BreachesOk(p, log + [now], st'.breaches, st'.killedUntil, now)
  {
    BreachExtends(p, log, st.breaches, now);
    KillRecorded(p, log, st, now);
  }

  lemma KillRecorded(p: GuardParams, log: seq<real>, st: MarketState, now: real)
    requires st.killedUntil.Some? ==> JustifiedKill(p, log, st.killedUntil.value)
    requires BreachQueue(p, log + [now], st.breaches + [now], now) && Breaching(p, st, now)
    ensures var st' := MaybeBreach(p, st, now);
            st'.killedUntil.Some? ==> JustifiedKill(p, log + [now], st'.killedUntil.value)
  {
    if |st.breaches + [now]| >= p.killThreshold && p.autoKill {
      KillDecided(p, log, st.breaches, now);
    } else if st.killedUntil.Some? {
      JustificationGrows(p, log, now, st.killedUntil.value);
    }
  }

  /** The components after a sweep, put together. */
  lemma Assemble(p: GuardParams, cancelLog: seq<real>, cancels: seq<real>, fillLog: seq<real>, fills: seq<real>,
                 breachLog: seq<real>, breaches: seq<real>, killedUntil: Option<real>, now: real)
    requires Exact(cancelLog, cancels, Window(p), now)
    requires Exact(fillLog, fills, Window(p), now)
    requires BreachesOk(p, breachLog, breaches, killedUntil, now)
    ensures Faithful(p, Trace(MarketState(cancels, fills, breaches, killedUntil), cancelLog, fillLog, breachLog), now, now)
  {
  }

  // The queues after a sweep, as expressions of the queues before.
  function Kept(p: GuardParams, queue: seq<real>, now: real): seq<real> { DropBefore(Time(), queue, now - Window(p)) }
  function KeptBreaches(p: GuardParams, queue: seq<real>, now: real): seq<real> { DropBefore(Time(), queue, now - KillWindow(p)) }

  lemma AppendKept(p: GuardParams, log: seq<real>, queue: seq<real>, last: real, now: real)
    requires Exact(log, queue, Window(p), last) && last <= now
    ensures Exact(log + [now], Kept(p, queue + [now], now), Window(p), now)
  {
    AppendExact(log, queue, Window(p), last, now);
  }

  lemma TrimKept(p: GuardParams, log: seq<real>, queue: seq<real>, last: real, now: real)
    requires Exact(log, queue, Window(p), last) && last <= now
    ensures Exact(log, Kept(p, queue, now), Window(p), now)
  {
    TrimExact(log, queue, Window(p), last, now);
  }

  lemma TrimKeptBreaches(p: GuardParams, log: seq<real>, queue: seq<real>, killedUntil: Option<real>, last: real, now: real)
    requires BreachesOk(p, log, queue, killedUntil, last) && last <= now
    ensures BreachesOk(p, log, KeptBreaches(p, queue, now), killedUntil, now)
    ensures p.killWindowMin < 0 ==> KeptBreaches(p, queue, now) == []
  {
    TrimBreaches(p, log, queue, killedUntil, last, now);
  }

  /** A fill, component by component. */
  lemma FillStep(p: GuardParams, cancelLog: seq<real>, cancels: seq<real>, fillLog: seq<real>, fills: seq<real>,
                 breachLog: seq<real>, breaches: seq<real>, killedUntil: Option<real>, last: real, now: real)
    requires last <= now
    requires Exact(cancelLog, cancels, Window(p), last)
    requires Exact(fillLog, fills, Window(p), last)
    requires BreachesOk(p, breachLog, breaches, killedUntil, last)
    ensures Faithful(p, Trace(MarketState(Kept(p, cancels, now), Kept(p, fills + [now], now), KeptBreaches(p, breaches, now), killedUntil),
                              cancelLog, fillLog + [now], breachLog), now, now)
  {
    TrimKept(p, cancelLog, cancels, last, now);
    AppendKept(p, fillLog, fills, last, now);
    TrimKeptBreaches(p, breachLog, breaches, killedUntil, last, now);
    Assemble(p, cancelLog, Kept(p, cancels, now), fillLog + [now], Kept(p, fills + [now], now),
             breachLog, KeptBreaches(p, breaches, now), killedUntil, now);
  }

  lemma FillOutcome(p: GuardParams, t: Trace, now: real)
    ensures Advance(p, t, Fill(now))
         == Trace(MarketState(Kept(p, t.st.cancels, now), Kept(p, t.st.fills + [now], now),
                              KeptBreaches(p, t.st.breaches, now), t.st.killedUntil),
                  t.cancelLog, t.fillLog + [now], t.breachLog)
  {
  }

  lemma FillIsFaithful(p: GuardParams, t: Trace, last: real, clock: real, now: real)
    requires Faithful(p, t, last, clock) && clock <= now
    ensures Faithful(p, Advance(p, t, Fill(now)), now, now)
  {
    FillOutcome(p, t, now);
    FillStep(p, t.cancelLog, t.st.cancels, t.fillLog, t.st.fills, t.breachLog, t.st.breaches, t.st.killedUntil, last, now);
  }

  /** A cancel that raises no breach, component by component. */
  lemma CancelStep(p: GuardParams, cancelLog: seq<real>, cancels: seq<real>, fillLog: seq<real>, fills: seq<real>,
                   breachLog: seq<real>, breaches: seq<real>, killedUntil: Option<real>, last: real, now: real)
    requires last <= now
    requires Exact(cancelLog, cancels, Window(p), last)
    requires Exact(fillLog, fills, Window(p), last)
    requires BreachesOk(p, breachLog, breaches, killedUntil, last)
    ensures Faithful(p, Trace(MarketState(Kept(p, cancels + [now], now), Kept(p, fills, now), KeptBreaches(p, breaches, now), killedUntil),
                              cancelLog + [now], fillLog, breachLog), now, now)
    ensures p.killWindowMin < 0 ==> KeptBreaches(p, breaches, now) == []
  {
    AppendKept(p, cancelLog, cancels, last, now);
    TrimKept(p, fillLog, fills, last, now);
    TrimKeptBreaches(p, breachLog, breaches, killedUntil, last, now);
    Assemble(p, cancelLog + [now], Kept(p, cancels + [now], now), fillLog, Kept(p, fills, now),
             breachLog, KeptBreaches(p, breaches, now), killedUntil, now);
  }

  /** The state of a cancel before breaches are looked at. */
  function Swept(p: GuardParams, st: MarketState, now: real): MarketState
  {
    MarketState(Kept(p, st.cancels + [now], now), Kept(p, st.fills, now), KeptBreaches(p, st.breaches, now), st.killedUntil)
  }

  lemma CancelOutcome(p: GuardParams, t: Trace, now: real)
    ensures var swept := Swept(p, t.st, now);
            Advance(p, t, Cancel(now))
            == Trace(MaybeBreach(p, swept, now), t.cancelLog + [now], t.fillLog,
                     if Breaching(p, swept, now) then t.breachLog + [now] else t.breachLog)
  {
    assert Swept(p, t.st, now) == Gc(p, t.st.(cancels := t.st.cancels + [now]), now);
  }

  /** Looking at breaches after the sweep. */
  lemma BreachStep(p: GuardParams, st: MarketState, cancelLog: seq<real>, fillLog: seq<real>, breachLog: seq<real>, now: real)
    requires Faithful(p, Trace(st, cancelLog, fillLog, breachLog), now, now)
    requires Breaching(p, st, now) && (p.killWindowMin < 0 ==> st.breaches == [])
    ensures Faithful(p, Trace(MaybeBreach(p, st, now), cancelLog, fillLog, breachLog + [now]), now, now)
  {
    var st' := MaybeBreach(p, st, now);
    BreachRecorded(p, breachLog, st, now);
    Assemble(p, cancelLog, st.cancels, fillLog, st.fills, breachLog + [now], st'.breaches, st'.killedUntil, now);
    assert st' == MarketState(st.cancels, st.fills, st'.breaches, st'.killedUntil);
  }

  lemma CancelIsFaithful(p: GuardParams, t: Trace, last: real, clock: real, now: real)
    requires Faithful(p, t, last, clock) && clock <= now
    ensures Faithful(p, Advance(p, t, Cancel(now)), now, now)
  {
    CancelOutcome(p, t, now);
    CancelStep(p, t.cancelLog, t.st.cancels, t.fillLog, t.st.fills, t.breachLog, t.st.breaches, t.st.killedUntil, last, now);
    if Breaching(p, Swept(p, t.st, now), now) {
      BreachStep(p, Swept(p, t.st, now), t.cancelLog + [now], t.fillLog, t.breachLog, now);
    }
  }

  lemma AdvanceIsFaithful(p: GuardParams, t: Trace, last: real, clock: real, e: Event) returns (last': real)
    requires Faithful(p, t, last, clock) && clock <= e.now
    ensures Faithful(p, Advance(p, t, e), last', e.now)
    ensures !e.Check? ==> last' == e.now
  {
    match e
    case Check(now) => last' := last;
    case Fill(now) => last' := now; FillIsFaithful(p, t, last, clock, now);
    case Cancel(now) => last' := now; CancelIsFaithful(p, t, last, clock, now);
  }

  /** `start` is any time not after the first event. */
  lemma {:induction false} RunIsFaithful(p: GuardParams, events: seq<Event>, start: real) returns (last: real)
    requires Chronological(events)
    requires events != [] ==> start <= events[0].now
    ensures Faithful(p, Run(p, events), last, if events == [] then start else events[|events| - 1].now)
    ensures events != [] && !events[|events| - 1].Check? ==> last == events[|events| - 1].now
  {
    if events == [] {
      last := start;
    } else {
      var init, e := events[..|events| - 1], events[|events| - 1];
      var before := RunIsFaithful(p, init, start);
      last := AdvanceIsFaithful(p, Run(p, init), before,
                                if init == [] then start else init[|init| - 1].now, e);
    }
  }

  /** After each record the queues are the complete history cut to their windows. The
      breach queue of a negative kill window holds at most the breach just recorded. */
  lemma WindowsAreExact(p: GuardParams, events: seq<Event>)
    requires Chronological(events)
    requires events != [] && !events[|events| - 1].Check?
    ensures var t, now := Run(p, events), events[|events| - 1].now;
            && Exact(t.cancelLog, t.st.cancels, Window(p), now)
            && Exact(t.fillLog, t.st.fills, Window(p), now)
            && BreachQueue(p, t.breachLog, t.st.breaches, now)
  {
    var _ := RunIsFaithful(p, events, events[0].now);
  }

  lemma SpacedIsShort(queue: seq<real>, width: int, last: real)
    requires Spaced(queue) && width >= 0
    requires forall i :: 0 <= i < |queue| ==> last - width as real * 60.0 <= queue[i] <= last
    ensures |queue| <= width + 1
  {
    if queue != [] {
      SpacedApart(queue, 0, |queue| - 1);
    }
  }

  /** Queued breaches are a minute apart, so a window of K minutes holds at most K + 1;
      with a window of a minute or more, so are all breaches ever raised. */
  lemma BreachesAreRare(p: GuardParams, events: seq<Event>)
    requires Chronological(events)
    ensures Spaced(Run(p, events).st.breaches)
    ensures |Run(p, events).st.breaches| <= Minutes(p) + 1
    ensures p.killWindowMin >= 1 ==> Spaced(Run(p, events).breachLog)
  {
    var last := RunIsFaithful(p, events, if events == [] then 0.0 else events[0].now);
    var t := Run(p, events);
    if p.killWindowMin >= 0 {
      QueueInWindow(t.breachLog, t.st.breaches, KillWindow(p), last);
      SpacedIsShort(t.st.breaches, p.killWindowMin, last);
    }
  }

  function Minutes(p: GuardParams): nat { if p.killWindowMin >= 0 then p.killWindowMin else 0 }

  lemma QueueInWindow(log: seq<real>, queue: seq<real>, width: real, last: real)
    requires Exact(log, queue, width, last)
    ensures forall i :: 0 <= i < |queue| ==> last - width <= queue[i] <= last
  {
    forall i | 0 <= i < |queue| ensures last - width <= queue[i] <= last {
      FilterMember(Since(Time(), last - width), log, queue[i]);
      var j :| 0 <= j < |log| && log[j] == queue[i];
    }
  }

  /** A killed market had at least `killThreshold` breaches inside the kill window
      that ended when the kill was decided. */
  lemma KillsAreJustified(p: GuardParams, events: seq<Event>, until: real)
    requires Chronological(events)
    requires Run(p, events).st.killedUntil == Some(until)
    ensures JustifiedKill(p, Run(p, events).breachLog, until)
  {
    var _ := RunIsFaithful(p, events, if events == [] then 0.0 else events[0].now);
  }

  /** So a threshold above K + 1 can never be met. */
  lemma {:induction false} UnreachableThreshold(p: GuardParams, events: seq<Event>)
    requires Chronological(events) && p.killThreshold > Minutes(p) + 1
    ensures Run(p, events).st.killedUntil == None
  {
    if events != [] {
      UnreachableThreshold(p, events[..|events| - 1]);
      BreachesAreRare(p, events);
    }
  }

  // ----- exactly when a breach is raised and a market killed

  // The times of the cancels and of the fills in a history.
  function CancelTimes(events: seq<Event>): seq<real>
  {
    if events == [] then []
    else
      var e := events[|events| - 1];
      CancelTimes(events[..|events| - 1]) + if e.Cancel? then [e.now] else []
  }

  function FillTimes(events: seq<Event>): seq<real>
  {
    if events == [] then []
    else
      var e := events[|events| - 1];
      FillTimes(events[..|events| - 1]) + if e.Fill? then [e.now] else []
  }

  lemma {:induction false} LogsAreTimes(p: GuardParams, events: seq<Event>)
    ensures Run(p, events).cancelLog == CancelTimes(events) && Run(p, events).fillLog == FillTimes(events)
  {
    if events != [] {
      LogsAreTimes(p, events[..|events| - 1]);
    }
  }

  /** How many entries of a log lie within the last `minutes` minutes. */
  function Recent(log: seq<real>, now: real, minutes: int): nat
  {
    |Filter(Since(Time(), now - minutes as real * 60.0), log)|
  }

  /** A cancel in a history is a breach if the cancels in the window, this one included,
      exceed `ratioMax` per fill in it, and no breach still in the kill window is less
      than a minute old. */
  ghost predicate IsBreach(p: GuardParams, cancels: seq<real>, fills: seq<real>, breaches: seq<real>, now: real)
  {
    && TooManyCancels(p, cancels + [now], fills, now)
    && NoneFresh(breaches, now - p.killWindowMin as real * 60.0, now)
  }

  /** No entry from the cutoff on is less than a minute old. */
  ghost predicate NoneFresh(log: seq<real>, cutoff: real, now: real)
  {
    forall i :: 0 <= i < |log| && log[i] >= cutoff ==> now - log[i] >= 60.0
  }

  /** A breach is recorded exactly when the cancel is one, and the market is killed, for
      the resume time from now, exactly when it is, kills are on and the kill window then
      holds the threshold of breaches. */
  ghost predicate CancelTakesEffect(p: GuardParams, cancels: seq<real>, fills: seq<real>, before: Trace, after: Trace, now: real)
  {
    var breach := IsBreach(p, cancels, fills, before.breachLog, now);
    && after.breachLog == (if breach then before.breachLog + [now] else before.breachLog)
    && after.st.killedUntil
       == if breach && p.autoKill && Recent(before.breachLog, now, p.killWindowMin) + 1 >= p.killThreshold
          then Some(now + p.resumeMin as real * 60.0) else before.st.killedUntil
  }

  /** The queues after the sweep of a cancel are the logs cut to their windows. */
  lemma SweptIsExact(p: GuardParams, t: Trace, last: real, clock: real, now: real)
    requires Faithful(p, t, last, clock) && clock <= now
    ensures var st := Swept(p, t.st, now);
            && st.cancels == Filter(Since(Time(), now - Window(p)), t.cancelLog + [now])
            && st.fills == Filter(Since(Time(), now - Window(p)), t.fillLog)
            && st.breaches == Filter(Since(Time(), now - KillWindow(p)), t.breachLog)
            && Ordered(Time(), t.breachLog)
  {
    AppendKept(p, t.cancelLog, t.st.cancels, last, now);
    TrimKept(p, t.fillLog, t.st.fills, last, now);
    BreachesCut(p, t.breachLog, t.st.breaches, t.st.killedUntil, last, now);
  }

  lemma BreachesCut(p: GuardParams, log: seq<real>, queue: seq<real>, killedUntil: Option<real>, last: real, now: real)
    requires BreachesOk(p, log, queue, killedUntil, last) && last <= now
    ensures KeptBreaches(p, queue, now) == Filter(Since(Time(), now - KillWindow(p)), log) && Ordered(Time(), log)
  {
    TrimKeptBreaches(p, log, queue, killedUntil, last, now);
    if p.killWindowMin < 0 {
      FilterNone(Since(Time(), now - KillWindow(p)), log);
    }
  }

  lemma RatioExceeds(cancels: nat, fills: nat, most: real)
    requires fills >= 1
    ensures cancels as real / fills as real > most <==> cancels as real > most * fills as real
  {
    var r := cancels as real / fills as real;
    assert r * fills as real == cancels as real;
    assert (r - most) * fills as real == cancels as real - most * fills as real;
  }

  lemma RatioIff(st: MarketState, most: real)
    ensures Ratio(st) > most <==> |st.cancels| as real > most * (if |st.fills| == 0 then 1 else |st.fills|) as real
  {
    RatioExceeds(|st.cancels|, if |st.fills| >= 1 then |st.fills| else 1, most);
  }

  /** Looking at the last queued breach is looking at all of them. */
  lemma LastIsLatest(log: seq<real>, queue: seq<real>, cutoff: real, now: real)
    requires Ordered(Time(), log) && queue == Filter(Since(Time(), cutoff), log)
    ensures (queue != [] && now - queue[|queue| - 1] < 60.0) <==> !NoneFresh(log, cutoff, now)
  {
    FilterOrdered(Time(), Since(Time(), cutoff), log);
    if queue != [] {
      FilterMember(Since(Time(), cutoff), log, queue[|queue| - 1]);
      var j :| 0 <= j < |log| && log[j] == queue[|queue| - 1];
    }
    forall i | 0 <= i < |log| && log[i] >= cutoff ensures queue != [] && log[i] <= queue[|queue| - 1] {
      FilterMember(Since(Time(), cutoff), log, log[i]);
      var k :| 0 <= k < |queue| && queue[k] == log[i];
      assert k < |queue| - 1 ==> Time()(queue[k]) <= Time()(queue[|queue| - 1]);
    }
  }

  lemma FreshFromLog(p: GuardParams, st: MarketState, breaches: seq<real>, now: real)
    requires st.breaches == Filter(Since(Time(), now - KillWindow(p)), breaches) && Ordered(Time(), breaches)
    ensures (st.breaches != [] && now - st.breaches[|st.breaches| - 1] < MINUTE)
       <==> !NoneFresh(breaches, now - p.killWindowMin as real * 60.0, now)
  {
    LastIsLatest(breaches, st.breaches, now - KillWindow(p), now);
  }

  /** More cancels in the window than `ratioMax` for every fill in it. */
  ghost predicate TooManyCancels(p: GuardParams, cancels: seq<real>, fills: seq<real>, now: real)
  {
    Recent(cancels, now, p.windowMin) as real
    > p.ratioMax * (if Recent(fills, now, p.windowMin) == 0 then 1 else Recent(fills, now, p.windowMin)) as real
  }

  lemma RatioFromLogs(p: GuardParams, st: MarketState, cancels: seq<real>, fills: seq<real>, now: real)
    requires |st.cancels| == Recent(cancels, now, p.windowMin) && |st.fills| == Recent(fills, now, p.windowMin)
    ensures Ratio(st) > p.ratioMax <==> TooManyCancels(p, cancels, fills, now)
  {
    RatioIff(st, p.ratioMax);
  }

  lemma KillIff(p: GuardParams, st: MarketState, now: real)
    ensures MaybeBreach(p, st, now).killedUntil
         == if Breaching(p, st, now) && p.autoKill && |st.breaches| + 1 >= p.killThreshold
            then Some(now + p.resumeMin as real * 60.0) else st.killedUntil
  {
  }

  /** Whether the swept state breaches, and how many breaches it holds, from the logs. */
  lemma SweptFromLogs(p: GuardParams, t: Trace, last: real, clock: real, now: real)
    requires Faithful(p, t, last, clock) && clock <= now
    ensures Breaching(p, Swept(p, t.st, now), now) <==> IsBreach(p, t.cancelLog, t.fillLog, t.breachLog, now)
    ensures |Swept(p, t.st, now).breaches| == Recent(t.breachLog, now, p.killWindowMin)
  {
    SweptIsExact(p, t, last, clock, now);
    FromLogs(p, Swept(p, t.st, now), t.cancelLog, t.fillLog, t.breachLog, now);
  }

  lemma FromLogs(p: GuardParams, st: MarketState, cancels: seq<real>, fills: seq<real>, breaches: seq<real>, now: real)
    requires st.cancels == Filter(Since(Time(), now - Window(p)), cancels + [now])
    requires st.fills == Filter(Since(Time(), now - Window(p)), fills)
    requires st.breaches == Filter(Since(Time(), now - KillWindow(p)), breaches) && Ordered(Time(), breaches)
    ensures Breaching(p, st, now) <==> IsBreach(p, cancels, fills, breaches, now)
    ensures |st.breaches| == Recent(breaches, now, p.killWindowMin)
  {
    RatioFromLogs(p, st, cancels + [now], fills, now);
    FreshFromLog(p, st, breaches, now);
  }

  lemma CancelFromLogs(p: GuardParams, t: Trace, last: real, clock: real, now: real)
    requires Faithful(p, t, last, clock) && clock <= now
    ensures CancelTakesEffect(p, t.cancelLog, t.fillLog, t, Advance(p, t, Cancel(now)), now)
  {
    SweptFromLogs(p, t, last, clock, now);
    CancelOutcome(p, t, now);
    KillIff(p, Swept(p, t.st, now), now);
  }

  lemma AdvanceRun(p: GuardParams, events: seq<Event>, e: Event)
    ensures Run(p, events + [e]) == Advance(p, Run(p, events), e)
  {
    assert (events + [e])[..|events|] == events;
  }

  /** In every chronological history a cancel takes exactly that effect, told from the times
      of the earlier cancels and fills and the earlier breaches. */
  lemma CancelExactly(p: GuardParams, events: seq<Event>, now: real)
    requires Chronological(events + [Cancel(now)])
    ensures var before, after := Run(p, events), Run(p, events + [Cancel(now)]);
            CancelTakesEffect(p, CancelTimes(events), FillTimes(events), before, after, now)
  {
    AdvanceRun(p, events, Cancel(now));
    LogsAreTimes(p, events);
    var last, clock := FaithfulAt(p, events, Cancel(now));
    CancelFromLogs(p, Run(p, events), last, clock, now);
  }

  /** So does every cancel inside a longer history. */
  lemma EveryCancelExactly(p: GuardParams, events: seq<Event>, i: nat)
    requires Chronological(events) && i < |events| && events[i].Cancel?
    ensures CancelTakesEffect(p, CancelTimes(events[..i]), FillTimes(events[..i]),
                              Run(p, events[..i]), Run(p, events[..i + 1]), events[i].now)
  {
    assert events[..i + 1] == events[..i] + [Cancel(events[i].now)];
    PrefixInOrder(events, i + 1);
    CancelExactly(p, events[..i], events[i].now);
  }

  lemma PrefixInOrder(events: seq<Event>, n: nat)
    requires Chronological(events) && n <= |events|
    ensures Chronological(events[..n])
  {
  }

  lemma FaithfulAt(p: GuardParams, events: seq<Event>, e: Event) returns (last: real, clock: real)
    requires Chronological(events + [e])
    ensures Faithful(p, Run(p, events), last, clock) && clock <= e.now
  {
    assert forall i :: 0 <= i < |events| ==> (events + [e])[i] == events[i];
    assert (events + [e])[|events|] == e;
    clock := if events == [] then e.now else events[|events| - 1].now;
    last := RunIsFaithful(p, events, if events == [] then e.now else events[0].now);
  }

  /** Fills raise no breach and leave kills alone; asking forgets a kill that has run out
      and changes nothing else. */
  lemma OtherEventsExactly(p: GuardParams, events: seq<Event>, now: real)
    ensures var before, after := Run(p, events), Run(p, events + [Fill(now)]);
            after.breachLog == before.breachLog && after.st.killedUntil == before.st.killedUntil
    ensures var before, after := Run(p, events), Run(p, events + [Check(now)]);
            && after.breachLog == before.breachLog
            && (after.st.killedUntil == None <==> before.st.killedUntil.None? || now >= before.st.killedUntil.value)
            && (after.st.killedUntil.Some? ==> after.st == before.st)
  {
    AdvanceRun(p, events, Fill(now));
    AdvanceRun(p, events, Check(now));
  }

  // ----- the guard over all markets

  datatype GuardState = GuardState(markets: map<string, MarketState>, inventory: map<string, real>)

  const EMPTY_GUARD := GuardState(map[], map[])

  function MarketOf(g: GuardState, slug: string): MarketState
  {
    if slug in g.markets then g.markets[slug] else FRESH
  }

  function Inventory(g: GuardState, slug: string): real
  {
    if slug in g.inventory then g.inventory[slug] else 0.0
  }

  function Cancelled(p: GuardParams, g: GuardState, slug: string, now: real): GuardState
  {
    g.(markets := g.markets[slug := RecordCancel(p, MarketOf(g, slug), now)])
  }

  function FillRecorded(p: GuardParams, g: GuardState, slug: string, now: real): GuardState
  {
    g.(markets := g.markets[slug := RecordFill(p, MarketOf(g, slug), now)])
  }

  function KillChecked(g: GuardState, slug: string, now: real): GuardState
  {
    if slug in g.markets then g.(markets := g.markets[slug := CheckKilled(g.markets[slug], now)]) else g
  }

  function InventoryMoved(g: GuardState, slug: string, sign: real, qty: real): GuardState
  {
    g.(inventory := g.inventory[slug := Inventory(g, slug) + sign * qty])
  }

  predicate Exceeds(q: real, sign: real, qty: real, pMarket: real, cap: real)
  {
    Abs((q + sign * qty) * pMarket) > cap
  }

  /** Would the worst case of filling this quote exceed the inventory cap? */
  predicate Blocks(p: GuardParams, g: GuardState, slug: string, sign: real, qty: real, pMarket: real)
  {
    Exceeds(Inventory(g, slug), sign, qty, pMarket, p.cap)
  }

  /** In a run of the whole guard each market goes through exactly the history of
      its own events, whatever happens to the others. */
  datatype GuardEvent = GuardEvent(slug: string, event: Event)

  function GuardRun(p: GuardParams, events: seq<GuardEvent>): GuardState
  {
    if events == [] then EMPTY_GUARD else GuardStep(p, GuardRun(p, events[..|events| - 1]), events[|events| - 1])
  }

  function GuardStep(p: GuardParams, g: GuardState, e: GuardEvent): GuardState
  {
    match e.event
    case Cancel(now) => Cancelled(p, g, e.slug, now)
    case Fill(now) => FillRecorded(p, g, e.slug, now)
    case Check(now) => KillChecked(g, e.slug, now)
  }

  function EventsOf(slug: string, events: seq<GuardEvent>): seq<Event>
  {
    if events == [] then []
    else
      var rest := EventsOf(slug, events[..|events| - 1]);
      var e := events[|events| - 1];
      if e.slug == slug then rest + [e.event] else rest
  }

  lemma StepOfMarket(p: GuardParams, g: GuardState, e: GuardEvent, slug: string, t: Trace)
    requires MarketOf(g, slug) == t.st
    ensures MarketOf(GuardStep(p, g, e), slug) == if e.slug == slug then Advance(p, t, e.event).st else t.st
  {
  }

  lemma {:induction false} MarketsAreIndependent(p: GuardParams, events: seq<GuardEvent>, slug: string)
    ensures MarketOf(GuardRun(p, events), slug) == Run(p, EventsOf(slug, events)).st
  {
    if events != [] {
      var init, e := events[..|events| - 1], events[|events| - 1];
      MarketsAreIndependent(p, init, slug);
      StepOfMarket(p, GuardRun(p, init), e, slug, Run(p, EventsOf(slug, init)));
      if e.slug == slug {
        var mine := EventsOf(slug, events);
        assert mine[..|mine| - 1] == EventsOf(slug, init);
      }
    }
  }

  // ----- the guard object

  class MMSafetyGuard {
    const p: GuardParams
    var markets: map<string, MarketState>
    var inventory: map<string, real>

    ghost function State(): GuardState
      reads this
    {
      GuardState(markets, inventory)
    }

    constructor (p: GuardParams)
      ensures this.p == p && State() == EMPTY_GUARD
    {
      this.p := p;
      markets, inventory := map[], map[];
    }

    method BlockPostQuote(slug: string, sign: real, qty: real, pMarket: real) returns (blocked: bool)
      ensures blocked <==> Blocks(p, State(), slug, sign, qty, pMarket)
    {
      var current := if slug in inventory then inventory[slug] else 0.0;
      var projected := current + sign * qty;
      blocked := Abs(projected * pMarket) > p.cap;
    }

    method BlockTerminal(t: real, window: int) returns (blocked: bool)
      ensures blocked <==> t > window as real - p.tauTerminal
    {
      blocked := t > window as real - p.tauTerminal;
    }

    method RecordInventoryAfterFill(slug: string, sign: real, qty: real)
      modifies this`inventory
      ensures State() == InventoryMoved(old(State()), slug, sign, qty)
    {
      var cur := if slug in inventory then inventory[slug] else 0.0;
      inventory := inventory[slug := cur + sign * qty];
    }

    method RecordCancelAt(slug: string, now: real)
      modifies this`markets
      ensures State() == Cancelled(p, old(State()), slug, now)
    {
      var st := if slug in markets then markets[slug] else FRESH;
      st := st.(cancels := st.cancels + [now]);
      st := GcWindow(st, now);
      if Ratio(st) > p.ratioMax {
        if !(st.breaches != [] && now - st.breaches[|st.breaches| - 1] < MINUTE) {
          st := st.(breaches := st.breaches + [now]);
          if |st.breaches| >= p.killThreshold && p.autoKill {
            st := st.(killedUntil := Some(now + p.resumeMin as real * 60.0));
          }
        }
      }
      markets := markets[slug := st];
    }

    method RecordFillAt(slug: string, now: real)
      modifies this`markets
      ensures State() == FillRecorded(p, old(State()), slug, now)
    {
      var st := if slug in markets then markets[slug] else FRESH;
      st := GcWindow(st.(fills := st.fills + [now]), now);
      markets := markets[slug := st];
    }

    method IsMarketKilled(slug: string, now: real) returns (killed: bool)
      modifies this`markets
      ensures killed <==> Killed(MarketOf(old(State()), slug), now)
      ensures State() == KillChecked(old(State()), slug, now)
    {
      if slug !in markets {
        return false;
      }
      if markets[slug].killedUntil.None? {
        assert markets[slug := markets[slug]] == markets;
        return false;
      }
      killed := now < markets[slug].killedUntil.value;
      if !killed {
        markets := markets[slug := markets[slug].(killedUntil := None)];
      } else {
        assert markets[slug := markets[slug]] == markets;
      }
    }

    method GcWindow(st: MarketState, now: real) returns (swept: MarketState)
      ensures swept == Gc(p, st, now)
    {
      var cancels := PopOld(Time(), st.cancels, now - Window(p));
      var fills := PopOld(Time(), st.fills, now - Window(p));
      var breaches := PopOld(Time(), st.breaches, now - KillWindow(p));
      swept := MarketState(cancels, fills, breaches, st.killedUntil);
    }
  }
}
