/** The in-memory limit order book: placement, cancellation, matching and expiry.
    A Python dict keeps insertion order, so the resting orders are a sequence
    whose client order ids are pairwise different. */
module LimitBook {
  import opened Common
  import opened StableSort

  /** A client order id: a truncated SHA-256 of these five fields, taken to be
      injective. The timestamp enters the key with six decimals. */
  datatype Coid = Coid(strategy: string, slug: string, micros: int, side: Side, seed: string)

  datatype BookSide = Buy | Sell | Unknown(name: string)

  datatype LimitOrder = LimitOrder(
    coid: Coid, strategy: string, instrument: string, side: BookSide,
    price: real, qty: real, tsPlaced: real, ttl: Option<real>)

  datatype LimitFill = LimitFill(
    coid: Coid, strategy: string, instrument: string, side: BookSide,
    price: real, qty: real, ts: real, fee: real)

  predicate ExpiredAt(o: LimitOrder, now: real)
  {
    o.ttl.Some? && now >= o.tsPlaced + o.ttl.value
  }

  predicate Crossed(o: LimitOrder, px: real)
  {
    (o.side.Buy? && px <= o.price) || (o.side.Sell? && px >= o.price)
  }

  predicate WellPriced(o: LimitOrder)
  {
    !o.side.Unknown? && o.price > 0.0 && o.qty > 0.0
  }

  function Ids(orders: seq<LimitOrder>): set<Coid>
  {
    set o | o in orders :: o.coid
  }

  ghost predicate Distinct(orders: seq<LimitOrder>)
  {
    forall i, j :: 0 <= i < j < |orders| ==> orders[i].coid != orders[j].coid
  }

  // The conditions of the source's comprehensions, named so that equal arguments
  // give the same function.
  function Of(instrument: string): LimitOrder -> bool { (o: LimitOrder) => o.instrument == instrument }
  function LapsedAt(ts: real): LimitOrder -> bool { (o: LimitOrder) => ExpiredAt(o, ts) }
  function Hit(px: real, ts: real): LimitOrder -> bool { (o: LimitOrder) => !ExpiredAt(o, ts) && Crossed(o, px) }
  function NotIn(ids: set<Coid>): LimitOrder -> bool { (o: LimitOrder) => o.coid !in ids }
  function In(ids: set<Coid>): LimitOrder -> bool { (o: LimitOrder) => o.coid in ids }

  function Matching(strategy: Option<string>, instrument: Option<string>, side: Option<BookSide>):
    LimitOrder -> bool
  {
    (o: LimitOrder) =>
      (strategy.None? || o.strategy == strategy.value) &&
      (instrument.None? || o.instrument == instrument.value) &&
      (side.None? || o.side == side.value)
  }

  // ----- removal

  /** The book after popping every id in `ids`. */
  function Without(orders: seq<LimitOrder>, ids: set<Coid>): seq<LimitOrder>
  {
    Filter(NotIn(ids), orders)
  }

  lemma WithoutMember(orders: seq<LimitOrder>, ids: set<Coid>)
    ensures forall o :: o in Without(orders, ids) <==> o in orders && o.coid !in ids
  {
    forall o ensures o in Without(orders, ids) <==> o in orders && o.coid !in ids {
      FilterMember(NotIn(ids), orders, o);
    }
  }

  lemma {:induction false} FilterDistinct(p: LimitOrder -> bool, orders: seq<LimitOrder>)
    requires Distinct(orders)
    ensures Distinct(Filter(p, orders))
  {
    if orders != [] {
      var init, last := orders[..|orders| - 1], orders[|orders| - 1];
      FilterDistinct(p, init);
      forall o | o in Filter(p, init) ensures o.coid != last.coid {
        FilterMember(p, init, o);
      }
    }
  }

  lemma DistinctMember(orders: seq<LimitOrder>, a: LimitOrder, b: LimitOrder)
    requires Distinct(orders) && a in orders && b in orders && a.coid == b.coid
    ensures a == b
  {
    var i :| 0 <= i < |orders| && orders[i] == a;
    var j :| 0 <= j < |orders| && orders[j] == b;
    assert i == j;
  }

  /** Popping one id after another is popping them together. */
  lemma WithoutTwice(orders: seq<LimitOrder>, a: set<Coid>, b: set<Coid>)
    ensures Without(Without(orders, a), b) == Without(orders, a + b)
  {
    var both := NotIn(a + b);
    FilterImplied(both, NotIn(a), orders);
    var kept := Filter(NotIn(a), orders);
    forall i | 0 <= i < |kept| ensures NotIn(b)(kept[i]) == both(kept[i]) {
      FilterMember(NotIn(a), orders, kept[i]);
    }
    FilterCongruent(NotIn(b), both, kept);
  }

  // ----- the queue of one instrument

  function Placed(): LimitOrder -> real { (o: LimitOrder) => o.tsPlaced }

  // ----- one tick of the matcher

  function Queue(orders: seq<LimitOrder>, instrument: string): seq<LimitOrder>
  {
    Sort(Placed(), Filter(Of(instrument), orders))
  }

  function Filled(orders: seq<LimitOrder>, instrument: string, px: real, ts: real): seq<LimitOrder>
  {
    Filter(Hit(px, ts), Queue(orders, instrument))
  }

  function Lapsed(orders: seq<LimitOrder>, instrument: string, ts: real): seq<LimitOrder>
  {
    Filter(LapsedAt(ts), Queue(orders, instrument))
  }

  function AfterTick(orders: seq<LimitOrder>, instrument: string, px: real, ts: real): seq<LimitOrder>
  {
    Without(orders, Ids(Filled(orders, instrument, px, ts)) + Ids(Lapsed(orders, instrument, ts)))
  }

  function FillOf(o: LimitOrder, ts: real, feeBps: real): LimitFill
  {
    LimitFill(o.coid, o.strategy, o.instrument, o.side, o.price, o.qty, ts,
              feeBps * 0.0001 * o.price * o.qty)
  }

  function FillsOf(orders: seq<LimitOrder>, ts: real, feeBps: real): seq<LimitFill>
  {
    seq(|orders|, i requires 0 <= i < |orders| => FillOf(orders[i], ts, feeBps))
  }

  lemma QueueMember(orders: seq<LimitOrder>, instrument: string, o: LimitOrder)
    ensures o in Queue(orders, instrument) <==> o in orders && o.instrument == instrument
  {
    SortIsStable(Placed(), Filter(Of(instrument), orders));
    FilterMember(Of(instrument), orders, o);
    assert o in Queue(orders, instrument) <==> o in multiset(Queue(orders, instrument));
    assert o in Filter(Of(instrument), orders) <==> o in multiset(Filter(Of(instrument), orders));
  }

  lemma FilledMember(orders: seq<LimitOrder>, instrument: string, px: real, ts: real)
    ensures forall o :: o in Filled(orders, instrument, px, ts)
                   <==> o in orders && o.instrument == instrument && !ExpiredAt(o, ts) && Crossed(o, px)
    ensures forall o :: o in Lapsed(orders, instrument, ts)
                   <==> o in orders && o.instrument == instrument && ExpiredAt(o, ts)
  {
    forall o
      ensures o in Filled(orders, instrument, px, ts)
         <==> o in orders && o.instrument == instrument && !ExpiredAt(o, ts) && Crossed(o, px)
      ensures o in Lapsed(orders, instrument, ts)
         <==> o in orders && o.instrument == instrument && ExpiredAt(o, ts)
    {
      QueueMember(orders, instrument, o);
      FilterMember(Hit(px, ts), Queue(orders, instrument), o);
      FilterMember(LapsedAt(ts), Queue(orders, instrument), o);
    }
  }

  /** After a tick, exactly the orders that were neither crossed nor expired, or that
      belong to another instrument, still rest. */
  lemma AfterTickMember(orders: seq<LimitOrder>, instrument: string, px: real, ts: real)
    requires Distinct(orders)
    ensures forall o ::
              o in AfterTick(orders, instrument, px, ts) <==>
              o in orders && !(o.instrument == instrument && (ExpiredAt(o, ts) || Crossed(o, px)))
    ensures Distinct(AfterTick(orders, instrument, px, ts))
  {
    var filled, lapsed := Filled(orders, instrument, px, ts), Lapsed(orders, instrument, ts);
    FilledMember(orders, instrument, px, ts);
    WithoutMember(orders, Ids(filled) + Ids(lapsed));
    FilterDistinct(NotIn(Ids(filled) + Ids(lapsed)), orders);
    forall o | o in orders
      ensures o.coid in Ids(filled) + Ids(lapsed) <==> o in filled || o in lapsed
    {
      if o.coid in Ids(filled) + Ids(lapsed) {
        var x :| (x in filled || x in lapsed) && x.coid == o.coid;
        DistinctMember(orders, o, x);
      }
    }
  }

  lemma InsertMember(queue: seq<LimitOrder>, o: LimitOrder)
    ensures forall x :: x in Insert(Placed(), queue, o) ==> x in queue || x == o
  {
    InsertAdds(Placed(), queue, o);
    forall x | x in Insert(Placed(), queue, o) ensures x in queue || x == o {
      assert x in multiset(Insert(Placed(), queue, o));
    }
  }

  lemma DistinctSnoc(queue: seq<LimitOrder>, o: LimitOrder)
    ensures Distinct(queue + [o]) <==> Distinct(queue) && forall x :: x in queue ==> x.coid != o.coid
  {
    if Distinct(queue + [o]) {
      assert forall i :: 0 <= i < |queue| ==> (queue + [o])[i] == queue[i];
      assert (queue + [o])[|queue|] == o;
    }
  }

  lemma {:induction false} InsertDistinct(queue: seq<LimitOrder>, o: LimitOrder)
    requires Distinct(queue) && forall x :: x in queue ==> x.coid != o.coid
    ensures Distinct(Insert(Placed(), queue, o))
  {
    if queue == [] || queue[|queue| - 1].tsPlaced <= o.tsPlaced {
      DistinctSnoc(queue, o);
    } else {
      var init, last := queue[..|queue| - 1], queue[|queue| - 1];
      assert queue == init + [last];
      DistinctSnoc(init, last);
      InsertDistinct(init, o);
      InsertMember(init, o);
      DistinctSnoc(Insert(Placed(), init, o), last);
    }
  }

  lemma {:induction false} SortDistinct(s: seq<LimitOrder>)
    requires Distinct(s)
    ensures Distinct(Sort(Placed(), s))
  {
    if s != [] {
      var init, last := s[..|s| - 1], s[|s| - 1];
      SortDistinct(init);
      SortIsStable(Placed(), init);
      forall x | x in Sort(Placed(), init) ensures x.coid != last.coid {
        assert x in multiset(Sort(Placed(), init));
        assert x in init;
      }
      InsertDistinct(Sort(Placed(), init), last);
    }
  }

  lemma FilledDistinct(orders: seq<LimitOrder>, instrument: string, px: real, ts: real)
    requires Distinct(orders)
    ensures Distinct(Filled(orders, instrument, px, ts))
  {
    FilterDistinct(Of(instrument), orders);
    SortDistinct(Filter(Of(instrument), orders));
    FilterDistinct(Hit(px, ts), Queue(orders, instrument));
  }

  /** The fills of a tick are the crossed, unexpired orders of its instrument, first
      by placement time and then by position in the book. */
  lemma FillsAreFifo(orders: seq<LimitOrder>, instrument: string, px: real, ts: real)
    ensures Ordered(Placed(), Filled(orders, instrument, px, ts))
    ensures multiset(Filled(orders, instrument, px, ts))
         == multiset(Filter(Hit(px, ts), Filter(Of(instrument), orders)))
    ensures forall t :: Filter(KeyIs(Placed(), t), Filled(orders, instrument, px, ts))
                     == Filter(KeyIs(Placed(), t), Filter(Hit(px, ts), Filter(Of(instrument), orders)))
  {
    var mine := Filter(Of(instrument), orders);
    SortIsStable(Placed(), mine);
    FilterOrdered(Placed(), Hit(px, ts), Sort(Placed(), mine));
    forall o
      ensures multiset(Filter(Hit(px, ts), Sort(Placed(), mine)))[o] == multiset(Filter(Hit(px, ts), mine))[o]
    {
      FilterCount(Hit(px, ts), Sort(Placed(), mine), o);
      FilterCount(Hit(px, ts), mine, o);
    }
    forall t
      ensures Filter(KeyIs(Placed(), t), Filter(Hit(px, ts), Sort(Placed(), mine)))
           == Filter(KeyIs(Placed(), t), Filter(Hit(px, ts), mine))
    {
      FilterCommutes(KeyIs(Placed(), t), Hit(px, ts), Sort(Placed(), mine));
      FilterCommutes(KeyIs(Placed(), t), Hit(px, ts), mine);
    }
  }

  /** A tick of one instrument leaves the orders of every other one as they were,
      in the same order, and leaves none of its own crossed or expired. */
  lemma TickIsolation(orders: seq<LimitOrder>, instrument: string, px: real, ts: real, other: string)
    requires Distinct(orders)
    ensures other != instrument ==>
              Filter(Of(other), AfterTick(orders, instrument, px, ts)) == Filter(Of(other), orders)
    ensures forall o :: o in AfterTick(orders, instrument, px, ts) && o.instrument == instrument ==>
              !ExpiredAt(o, ts) && !Crossed(o, px)
  {
    AfterTickMember(orders, instrument, px, ts);
    if other != instrument {
      var gone := Ids(Filled(orders, instrument, px, ts)) + Ids(Lapsed(orders, instrument, ts));
      forall o | o in orders && Of(other)(o) ensures NotIn(gone)(o) {
        FilterMember(NotIn(gone), orders, o);
      }
      FilterImplied(Of(other), NotIn(gone), orders);
    }
  }

  /** Who fills and who lapses, in plain terms. */
  lemma TickInPlainTerms(orders: seq<LimitOrder>, instrument: string, px: real, ts: real, o: LimitOrder)
    requires Distinct(orders) && o in orders
    ensures var mine := o.instrument == instrument;
            var expired := o.ttl.Some? && ts >= o.tsPlaced + o.ttl.value;
            var crossed := (o.side == Buy && px <= o.price) || (o.side == Sell && px >= o.price);
            && (o in Filled(orders, instrument, px, ts) <==> mine && !expired && crossed)
            && (o in Lapsed(orders, instrument, ts) <==> mine && expired)
            && (o in AfterTick(orders, instrument, px, ts) <==> !(mine && (expired || crossed)))
  {
    FilledMember(orders, instrument, px, ts);
    AfterTickMember(orders, instrument, px, ts);
  }

  /** A fill is its order's id, strategy, instrument, side, price and size, at the tick's
      time, for the maker fee in basis points of price times size. */
  ghost predicate FillsInPlainTerms(orders: seq<LimitOrder>, ts: real, feeBps: real, fills: seq<LimitFill>)
  {
    && |fills| == |orders|
    && forall i :: 0 <= i < |fills| ==>
         && fills[i].coid == orders[i].coid && fills[i].strategy == orders[i].strategy
         && fills[i].instrument == orders[i].instrument && fills[i].side == orders[i].side
         && fills[i].price == orders[i].price && fills[i].qty == orders[i].qty && fills[i].ts == ts
         && fills[i].fee == feeBps * 0.0001 * (orders[i].price * orders[i].qty)
  }

  lemma FillsArePlain(orders: seq<LimitOrder>, ts: real, feeBps: real)
    ensures FillsInPlainTerms(orders, ts, feeBps, FillsOf(orders, ts, feeBps))
  {
    forall i | 0 <= i < |orders|
      ensures feeBps * 0.0001 * orders[i].price * orders[i].qty == feeBps * 0.0001 * (orders[i].price * orders[i].qty)
    {
      Regroup(feeBps * 0.0001, orders[i].price, orders[i].qty);
    }
  }

  lemma Regroup(a: real, b: real, c: real)
    ensures a * b * c == a * (b * c)
  {
  }

  /** Cancelling by filters keeps exactly the orders that some filter excludes. */
  lemma CancelAllKeeps(orders: seq<LimitOrder>, strategy: Option<string>, instrument: Option<string>, side: Option<BookSide>)
    requires Distinct(orders)
    ensures forall o :: o in Without(orders, Ids(Filter(Matching(strategy, instrument, side), orders))) <==>
              (o in orders
               && !((strategy.None? || o.strategy == strategy.value) && (instrument.None? || o.instrument == instrument.value)
                    && (side.None? || o.side == side.value)))
  {
    var matching := Matching(strategy, instrument, side);
    var victims := Filter(matching, orders);
    WithoutMember(orders, Ids(victims));
    forall o | o in orders ensures o.coid in Ids(victims) <==> matching(o) {
      FilterMember(matching, orders, o);
      if o.coid in Ids(victims) {
        var x :| x in victims && x.coid == o.coid;
        FilterMember(matching, orders, x);
        DistinctMember(orders, o, x);
      }
    }
  }

  // ----- every run of the book

  datatype BookOp =
    | Place(order: LimitOrder)
    | Cancel(coid: Coid)
    | CancelAll(strategy: Option<string>, instrument: Option<string>, side: Option<BookSide>)
    | Tick(inst: string, px: real, ts: real)

  /** The book together with the fate of every order it ever accepted. */
  datatype BookTrace = BookTrace(
    orders: seq<LimitOrder>,
    placed: multiset<LimitOrder>, filled: multiset<LimitOrder>,
    cancelled: multiset<LimitOrder>, expired: multiset<LimitOrder>)

  const EMPTY_TRACE := BookTrace([], multiset{}, multiset{}, multiset{}, multiset{})

  predicate Accepts(orders: seq<LimitOrder>, o: LimitOrder)
  {
    WellPriced(o) && o.coid !in Ids(orders)
  }

  function Step(b: BookTrace, op: BookOp): BookTrace
  {
    match op
    case Place(o) =>
      if Accepts(b.orders, o) then b.(orders := b.orders + [o], placed := b.placed + multiset{o}) else b
    case Cancel(coid) =>
      b.(orders := Without(b.orders, {coid}),
         cancelled := b.cancelled + multiset(Filter(In({coid}), b.orders)))
    case CancelAll(strategy, instrument, side) =>
      var victims := Filter(Matching(strategy, instrument, side), b.orders);
      b.(orders := Without(b.orders, Ids(victims)), cancelled := b.cancelled + multiset(victims))
    case Tick(instrument, px, ts) =>
      b.(orders := AfterTick(b.orders, instrument, px, ts),
         filled := b.filled + multiset(Filled(b.orders, instrument, px, ts)),
         expired := b.expired + multiset(Lapsed(b.orders, instrument, ts)))
  }

  function Run(ops: seq<BookOp>): BookTrace
  {
    if ops == [] then EMPTY_TRACE else Step(Run(ops[..|ops| - 1]), ops[|ops| - 1])
  }

  /** Every accepted order is accounted for exactly once. */
  ghost predicate Conserved(b: BookTrace)
  {
    && Distinct(b.orders)
    && b.placed == multiset(b.orders) + b.filled + b.cancelled + b.expired
  }

  /** Removing the ids of some resting orders removes exactly those orders. */
  lemma RemovalSplits(orders: seq<LimitOrder>, gone: seq<LimitOrder>)
    requires Distinct(orders) && multiset(gone) <= multiset(orders)
    ensures multiset(orders) == multiset(Without(orders, Ids(gone))) + multiset(gone)
    ensures Distinct(Without(orders, Ids(gone)))
  {
    FilterDistinct(NotIn(Ids(gone)), orders);
    forall o
      ensures multiset(orders)[o] == multiset(Without(orders, Ids(gone)))[o] + multiset(gone)[o]
    {
      FilterCount(NotIn(Ids(gone)), orders, o);
      AtMostOnce(orders, o);
      if o.coid in Ids(gone) {
        var x :| x in gone && x.coid == o.coid;
        assert x in multiset(gone) && x in multiset(orders);
        if o in orders {
          DistinctMember(orders, o, x);
          assert 1 <= multiset(gone)[o] <= multiset(orders)[o] <= 1;
        } else {
          assert o !in multiset(orders);
        }
      } else {
        assert o !in gone;
        assert o !in multiset(gone);
      }
    }
  }

  lemma {:induction false} AtMostOnce(orders: seq<LimitOrder>, o: LimitOrder)
    requires Distinct(orders)
    ensures multiset(orders)[o] <= 1
  {
    if orders != [] {
      var init, last := orders[..|orders| - 1], orders[|orders| - 1];
      assert orders == init + [last];
      AtMostOnce(init, o);
      if last == o {
        assert forall x :: x in init ==> x.coid != last.coid;
        assert o !in multiset(init);
      }
    }
  }

  /** Orders leave the book for one of the other places. */
  lemma LeavingConserves(b: BookTrace, b': BookTrace, gone: multiset<LimitOrder>)
    requires Conserved(b) && Distinct(b'.orders) && b'.placed == b.placed
    requires multiset(b.orders) == multiset(b'.orders) + gone
    requires b'.filled + b'.cancelled + b'.expired == b.filled + b.cancelled + b.expired + gone
    ensures Conserved(b')
  {
    forall o ensures b'.placed[o] == (multiset(b'.orders) + b'.filled + b'.cancelled + b'.expired)[o] {
      assert (b'.filled + b'.cancelled + b'.expired)[o] == (b.filled + b.cancelled + b.expired + gone)[o];
    }
  }

  lemma PlaceConserves(b: BookTrace, o: LimitOrder)
    requires Conserved(b) && Accepts(b.orders, o)
    ensures Conserved(b.(orders := b.orders + [o], placed := b.placed + multiset{o}))
  {
    assert forall x :: x in b.orders ==> x.coid in Ids(b.orders);
    assert multiset(b.orders + [o]) == multiset(b.orders) + multiset{o};
  }

  lemma CancelConserves(b: BookTrace, gone: seq<LimitOrder>)
    requires Conserved(b) && multiset(gone) <= multiset(b.orders)
    ensures Conserved(b.(orders := Without(b.orders, Ids(gone)), cancelled := b.cancelled + multiset(gone)))
  {
    RemovalSplits(b.orders, gone);
    LeavingConserves(b, b.(orders := Without(b.orders, Ids(gone)), cancelled := b.cancelled + multiset(gone)), multiset(gone));
  }

  lemma StepConserves(b: BookTrace, op: BookOp)
    requires Conserved(b)
    ensures Conserved(Step(b, op))
  {
    match op
    case Place(o) =>
      if Accepts(b.orders, o) {
        PlaceConserves(b, o);
      }
    case Cancel(coid) =>
      FilterIsSub(In({coid}), b.orders);
      CancelConserves(b, Filter(In({coid}), b.orders));
      CancelOne(b.orders, coid);
    case CancelAll(strategy, instrument, side) =>
      FilterIsSub(Matching(strategy, instrument, side), b.orders);
      CancelConserves(b, Filter(Matching(strategy, instrument, side), b.orders));
    case Tick(instrument, px, ts) =>
      TickSplits(b.orders, instrument, px, ts);
      LeavingConserves(b, Step(b, op),
                       multiset(Filled(b.orders, instrument, px, ts)) + multiset(Lapsed(b.orders, instrument, ts)));
  }

  lemma FilterIsSub(p: LimitOrder -> bool, orders: seq<LimitOrder>)
    ensures multiset(Filter(p, orders)) <= multiset(orders)
  {
    forall o ensures multiset(Filter(p, orders))[o] <= multiset(orders)[o] {
      FilterCount(p, orders, o);
    }
  }

  lemma CancelOne(orders: seq<LimitOrder>, coid: Coid)
    ensures Without(orders, {coid}) == Without(orders, Ids(Filter(In({coid}), orders)))
  {
    var gone := Filter(In({coid}), orders);
    forall o | o in orders ensures NotIn({coid})(o) == NotIn(Ids(gone))(o) {
      FilterMember(In({coid}), orders, o);
      if o.coid in Ids(gone) {
        var x :| x in gone && x.coid == o.coid;
        FilterMember(In({coid}), orders, x);
      }
    }
    FilterCongruent(NotIn({coid}), NotIn(Ids(gone)), orders);
  }

  lemma TickSplits(orders: seq<LimitOrder>, instrument: string, px: real, ts: real)
    requires Distinct(orders)
    ensures Distinct(AfterTick(orders, instrument, px, ts))
    ensures multiset(orders) == multiset(AfterTick(orders, instrument, px, ts))
                              + multiset(Filled(orders, instrument, px, ts))
                              + multiset(Lapsed(orders, instrument, ts))
  {
    var filled, lapsed := Filled(orders, instrument, px, ts), Lapsed(orders, instrument, ts);
    GoneWereResting(orders, instrument, px, ts);
    RemovalSplits(orders, filled + lapsed);
    assert Ids(filled + lapsed) == Ids(filled) + Ids(lapsed);
  }

  /** What fills and what lapses rested, and no order does both. */
  lemma GoneWereResting(orders: seq<LimitOrder>, instrument: string, px: real, ts: real)
    ensures multiset(Filled(orders, instrument, px, ts) + Lapsed(orders, instrument, ts)) <= multiset(orders)
  {
    var mine := Filter(Of(instrument), orders);
    var queue := Sort(Placed(), mine);
    SortIsStable(Placed(), mine);
    forall o
      ensures multiset(Filter(Hit(px, ts), queue) + Filter(LapsedAt(ts), queue))[o] <= multiset(orders)[o]
    {
      FilterCount(Hit(px, ts), queue, o);
      FilterCount(LapsedAt(ts), queue, o);
      FilterCount(Of(instrument), orders, o);
    }
  }

  /** Over any sequence of operations, each accepted order is in exactly one of
      resting, filled, cancelled and expired. */
  lemma {:induction false} RunConserves(ops: seq<BookOp>)
    ensures Conserved(Run(ops))
  {
    if ops != [] {
      RunConserves(ops[..|ops| - 1]);
      StepConserves(Run(ops[..|ops| - 1]), ops[|ops| - 1]);
    }
  }

  // ----- the simulator object

  datatype PlaceResult = Accepted | Duplicate | ValueError

  class LimitBookSim {
    var orders: seq<LimitOrder>
    const makerFeeBps: real

    ghost predicate Valid()
      reads this
    {
      Distinct(orders)
    }

    constructor (makerFeeBps: real)
      ensures Valid() && orders == [] && this.makerFeeBps == makerFeeBps
    {
      orders := [];
      this.makerFeeBps := makerFeeBps;
    }

    method Place(order: LimitOrder) returns (r: PlaceResult)
      requires Valid()
      modifies this
      ensures Valid()
      ensures r.ValueError? <==> !(order.side in {Buy, Sell}) || order.price <= 0.0 || order.qty <= 0.0
      ensures r.Duplicate? <==> !r.ValueError? && order.coid in Ids(old(orders))
      ensures orders == if r.Accepted? then old(orders) + [order] else old(orders)
    {
      if order.side.Unknown? || order.price <= 0.0 || order.qty <= 0.0 {
        return ValueError;
      }
      if order.coid in Ids(orders) {
        return Duplicate;
      }
      assert forall o :: o in orders ==> o.coid in Ids(orders);
      orders := orders + [order];
      return Accepted;
    }

    method Cancel(coid: Coid) returns (ok: bool)
      requires Valid()
      modifies this
      ensures Valid()
      ensures ok <==> coid in Ids(old(orders))
      ensures orders == Without(old(orders), {coid})
    {
      ok := coid in Ids(orders);
      FilterDistinct(NotIn({coid}), orders);
      orders := Without(orders, {coid});
    }

    method CancelAll(strategy: Option<string>, instrument: Option<string>, side: Option<BookSide>)
      returns (n: nat)
      requires Valid()
      modifies this
      ensures Valid()
      ensures var victims := Filter(Matching(strategy, instrument, side), old(orders));
              n == |victims| && orders == Without(old(orders), Ids(victims))
      ensures forall o :: o in orders <==>
                (o in old(orders)
                 && !((strategy.None? || o.strategy == strategy.value) && (instrument.None? || o.instrument == instrument.value)
                      && (side.None? || o.side == side.value)))
    {
      CancelAllKeeps(orders, strategy, instrument, side);
      var victims := Filter(Matching(strategy, instrument, side), orders);
      PopAll(victims);
      n := |victims|;
    }

    /** The loops that pop one victim after another. */
    method PopAll(victims: seq<LimitOrder>)
      requires Valid()
      modifies this
      ensures Valid()
      ensures orders == Without(old(orders), Ids(victims))
    {
      assert Ids(victims[..0]) == {};
      FilterAll(NotIn({}), orders);
      for i := 0 to |victims|
        invariant Valid()
        invariant orders == Without(old(orders), Ids(victims[..i]))
      {
        WithoutTwice(old(orders), Ids(victims[..i]), {victims[i].coid});
        assert Ids(victims[..i + 1]) == Ids(victims[..i]) + {victims[i].coid};
        FilterDistinct(NotIn({victims[i].coid}), orders);
        orders := Without(orders, {victims[i].coid});
      }
      assert victims[..|victims|] == victims;
    }

    /** Evicts expired orders, fills crossed ones and returns the fills in FIFO order. */
    method OnTick(instrument: string, px: real, ts: real) returns (fills: seq<LimitFill>)
      requires Valid()
      modifies this
      ensures Valid()
      ensures fills == FillsOf(Filled(old(orders), instrument, px, ts), ts, makerFeeBps)
      ensures FillsInPlainTerms(Filled(old(orders), instrument, px, ts), ts, makerFeeBps, fills)
      ensures orders == AfterTick(old(orders), instrument, px, ts)
    {
      FillsArePlain(Filled(orders, instrument, px, ts), ts, makerFeeBps);
      var ordered := Sort(Placed(), Filter(Of(instrument), orders));
      var hits: seq<LimitOrder> := [];
      var expired: seq<LimitOrder> := [];
      fills := [];
      for i := 0 to |ordered|
        invariant orders == old(orders)
        invariant hits == Filter(Hit(px, ts), ordered[..i])
        invariant expired == Filter(LapsedAt(ts), ordered[..i])
        invariant fills == FillsOf(hits, ts, makerFeeBps)
      {
        var o := ordered[i];
        assert ordered[..i + 1] == ordered[..i] + [o];
        FilterConcat(Hit(px, ts), ordered[..i], [o]);
        FilterConcat(LapsedAt(ts), ordered[..i], [o]);
        if ExpiredAt(o, ts) {
          expired := expired + [o];
        } else if Crossed(o, px) {
          hits := hits + [o];
          fills := fills + [FillOf(o, ts, makerFeeBps)];
        }
      }
      assert ordered[..|ordered|] == ordered;
      PopAll(hits);
      PopAll(expired);
      WithoutTwice(old(orders), Ids(hits), Ids(expired));
    }
  }
}
