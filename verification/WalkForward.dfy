/** Walk-forward folds: the research builder and the engine's split loop. Times are in
    seconds since the epoch; the source only ever adds whole days, and a sum outside the
    years 1 to 9999 raises an OverflowError. */
module WalkForward {

  const DAY := 86400

  datatype Fold = Fold(idx: nat, isFrom: int, isTo: int, oosFrom: int, oosTo: int)

  datatype Result = Folds(folds: seq<Fold>) | ValueError | OverflowError

  // The range of a datetime.
  const FIRST := -62135596800
  const LAST := 253402300799

  predicate InRange(t: int) { FIRST <= t <= LAST }

  /** The idx-th fold of a walk. */
  function FoldAt(from: int, isDays: int, oosDays: int, stepDays: int, idx: nat): Fold
  {
    var anchor := from + idx * stepDays * DAY;
    Fold(idx, anchor, anchor + isDays * DAY, anchor + isDays * DAY, anchor + isDays * DAY + oosDays * DAY)
  }

  /** The first window starts at `from` and each one a step after the one before; the
      out-of-sample part follows the in-sample part, and both have their length in days. */
  lemma FoldsInPlainTerms(from: int, isDays: int, oosDays: int, stepDays: int, idx: nat)
    ensures FoldAt(from, isDays, oosDays, stepDays, 0).isFrom == from
    ensures var f, next := FoldAt(from, isDays, oosDays, stepDays, idx), FoldAt(from, isDays, oosDays, stepDays, idx + 1);
            && f.idx == idx && next.isFrom == f.isFrom + stepDays * 86400
            && f.isTo == f.isFrom + isDays * 86400 && f.oosFrom == f.isTo && f.oosTo == f.oosFrom + oosDays * 86400
  {
    assert (idx + 1) * stepDays * DAY == idx * stepDays * DAY + stepDays * DAY;
  }

  /** How many folds fit before `to`. */
  function Count(from: int, to: int, isDays: int, oosDays: int, stepDays: int): nat
    requires stepDays > 0
  {
    var slack := to - from - (isDays + oosDays) * DAY;
    if slack < 0 then 0 else slack / (stepDays * DAY) + 1
  }

  function AllFolds(from: int, isDays: int, oosDays: int, stepDays: int, n: nat): seq<Fold>
  {
    seq(n, i requires 0 <= i < n => FoldAt(from, isDays, oosDays, stepDays, i))
  }

  /** Folds fit exactly up to the closed-form count. */
  lemma FitsIffCounted(from: int, to: int, isDays: int, oosDays: int, stepDays: int, idx: nat)
    requires stepDays > 0
    ensures FoldAt(from, isDays, oosDays, stepDays, idx).oosTo <= to
       <==> idx < Count(from, to, isDays, oosDays, stepDays)
  {
    var slack := to - from - (isDays + oosDays) * DAY;
    var step := stepDays * DAY;
    assert FoldAt(from, isDays, oosDays, stepDays, idx).oosTo == from + idx * stepDays * DAY + (isDays + oosDays) * DAY;
    assert idx * stepDays * DAY == idx * step;
    if slack >= 0 {
      QuotientBound(slack, step, idx);
    } else {
      assert idx * step >= 0;
    }
  }

  lemma QuotientBound(x: int, d: int, k: nat)
    requires x >= 0 && d > 0
    ensures k * d <= x <==> k <= x / d
  {
    var q := x / d;
    assert x == q * d + x % d;
    if k <= q {
      Monotone(k, q, d);
    } else {
      Monotone(q + 1, k, d);
      assert (q + 1) * d == q * d + d;
    }
  }

  lemma Monotone(a: int, b: int, d: int)
    requires a <= b && d > 0
    ensures a * d <= b * d
  {
  }

  // ----- how a walk ends

  predicate Representable(f: Fold)
  {
    InRange(f.isFrom) && InRange(f.isTo) && InRange(f.oosTo)
  }

  /** The walk stops at a fold that cannot be represented or does not fit. */
  predicate Stops(from: int, to: int, isDays: int, oosDays: int, stepDays: int, idx: nat)
  {
    var f := FoldAt(from, isDays, oosDays, stepDays, idx);
    !Representable(f) || f.oosTo > to
  }

  ghost predicate Ends(from: int, to: int, isDays: int, oosDays: int, stepDays: int)
  {
    exists idx: nat :: Stops(from, to, isDays, oosDays, stepDays, idx)
  }

  /** With a step of 0 or less every later fold fits once the first does. */
  lemma BackwardFoldsFit(from: int, to: int, isDays: int, oosDays: int, stepDays: int, idx: nat)
    requires stepDays <= 0 && FoldAt(from, isDays, oosDays, stepDays, 0).oosTo <= to
    ensures FoldAt(from, isDays, oosDays, stepDays, idx).oosTo <= to
  {
    assert idx * stepDays <= 0;
  }

  /** Some fold does not fit exactly when the step is positive or the first does not. */
  lemma SomeFoldFailsIff(from: int, to: int, isDays: int, oosDays: int, stepDays: int)
    ensures (exists idx: nat :: FoldAt(from, isDays, oosDays, stepDays, idx).oosTo > to)
       <==> stepDays > 0 || FoldAt(from, isDays, oosDays, stepDays, 0).oosTo > to
  {
    if stepDays > 0 {
      var n := Count(from, to, isDays, oosDays, stepDays);
      FitsIffCounted(from, to, isDays, oosDays, stepDays, n);
      assert FoldAt(from, isDays, oosDays, stepDays, n).oosTo > to;
    } else if FoldAt(from, isDays, oosDays, stepDays, 0).oosTo <= to {
      forall idx: nat ensures FoldAt(from, isDays, oosDays, stepDays, idx).oosTo <= to {
        BackwardFoldsFit(from, to, isDays, oosDays, stepDays, idx);
      }
    }
  }

  /** Stepping back leaves the calendar. */
  lemma BackwardOverflows(from: int, isDays: int, oosDays: int, stepDays: int) returns (idx: nat)
    requires stepDays < 0 && InRange(from)
    ensures !Representable(FoldAt(from, isDays, oosDays, stepDays, idx))
  {
    idx := from - FIRST + 1;
    StepBack(idx, stepDays);
  }

  lemma StepBack(idx: nat, stepDays: int)
    requires stepDays < 0
    ensures idx * stepDays * DAY <= 0 - idx
  {
    var days := idx * stepDays;
    assert days <= 0 - idx;
  }

  /** A walk ends unless the step is 0 and its one window fits and can be represented. */
  lemma EndsIff(from: int, to: int, isDays: int, oosDays: int, stepDays: int)
    requires InRange(from)
    ensures Ends(from, to, isDays, oosDays, stepDays)
       <==> stepDays != 0 || Stops(from, to, isDays, oosDays, stepDays, 0)
  {
    if stepDays > 0 {
      SomeFoldFailsIff(from, to, isDays, oosDays, stepDays);
      var idx: nat :| FoldAt(from, isDays, oosDays, stepDays, idx).oosTo > to;
      assert Stops(from, to, isDays, oosDays, stepDays, idx);
    } else if stepDays < 0 {
      var idx := BackwardOverflows(from, isDays, oosDays, stepDays);
      assert Stops(from, to, isDays, oosDays, stepDays, idx);
    } else {
      forall idx: nat ensures Stops(from, to, isDays, oosDays, stepDays, idx) <==> Stops(from, to, isDays, oosDays, stepDays, 0) {
        assert idx * stepDays == 0;
      }
    }
  }

  /** The result of a walk that first stops at `stop`. */
  ghost predicate StopsFirst(from: int, to: int, isDays: int, oosDays: int, stepDays: int, stop: nat)
  {
    && Stops(from, to, isDays, oosDays, stepDays, stop)
    && forall idx: nat :: idx < stop ==> !Stops(from, to, isDays, oosDays, stepDays, idx)
  }

  /** A walk that stops at a representable fold has passed exactly the counted ones. */
  lemma StopIsCount(from: int, to: int, isDays: int, oosDays: int, stepDays: int, stop: nat)
    requires stepDays > 0 && StopsFirst(from, to, isDays, oosDays, stepDays, stop)
    ensures stop <= Count(from, to, isDays, oosDays, stepDays)
    ensures Representable(FoldAt(from, isDays, oosDays, stepDays, stop)) ==> stop == Count(from, to, isDays, oosDays, stepDays)
  {
    var n := Count(from, to, isDays, oosDays, stepDays);
    FitsIffCounted(from, to, isDays, oosDays, stepDays, n);
    FitsIffCounted(from, to, isDays, oosDays, stepDays, stop);
    assert Stops(from, to, isDays, oosDays, stepDays, n);
  }

  /** The outcome of a walk: its windows, or the overflow that ends it. */
  ghost predicate Walked(from: int, to: int, isDays: int, oosDays: int, stepDays: int, r: Result)
  {
    !r.ValueError? &&
    exists stop: nat ::
      && StopsFirst(from, to, isDays, oosDays, stepDays, stop)
      && (r.OverflowError? <==> !Representable(FoldAt(from, isDays, oosDays, stepDays, stop)))
      && (r.Folds? ==> r.folds == AllFolds(from, isDays, oosDays, stepDays, stop))
  }

  /** So research builder and engine loop agree wherever both walk. */
  lemma SameWalk(from: int, to: int, isDays: int, oosDays: int, stepDays: int, a: Result, b: Result)
    requires Walked(from, to, isDays, oosDays, stepDays, a) && Walked(from, to, isDays, oosDays, stepDays, b)
    ensures a == b
  {
    var i: nat :| && StopsFirst(from, to, isDays, oosDays, stepDays, i)
                  && (a.OverflowError? <==> !Representable(FoldAt(from, isDays, oosDays, stepDays, i)))
                  && (a.Folds? ==> a.folds == AllFolds(from, isDays, oosDays, stepDays, i));
    var j: nat :| && StopsFirst(from, to, isDays, oosDays, stepDays, j)
                  && (b.OverflowError? <==> !Representable(FoldAt(from, isDays, oosDays, stepDays, j)))
                  && (b.Folds? ==> b.folds == AllFolds(from, isDays, oosDays, stepDays, j));
    assert i == j;
  }

  /** For a positive step a walk yields the counted folds exactly if they and the one
      after them can be represented; for a negative one it yields nothing unless the
      first fold does not fit. */
  lemma WalkOutcome(from: int, to: int, isDays: int, oosDays: int, stepDays: int, r: Result)
    requires Walked(from, to, isDays, oosDays, stepDays, r)
    ensures stepDays > 0 ==>
              var n := Count(from, to, isDays, oosDays, stepDays);
              && (r.Folds? <==> forall idx: nat :: idx <= n ==> Representable(FoldAt(from, isDays, oosDays, stepDays, idx)))
              && (r.Folds? ==> r.folds == AllFolds(from, isDays, oosDays, stepDays, n))
    ensures stepDays <= 0 ==>
              var first := FoldAt(from, isDays, oosDays, stepDays, 0);
              (r.Folds? <==> Representable(first) && first.oosTo > to) && (r.Folds? ==> r.folds == [])
  {
    var stop: nat :| && StopsFirst(from, to, isDays, oosDays, stepDays, stop)
                     && (r.OverflowError? <==> !Representable(FoldAt(from, isDays, oosDays, stepDays, stop)))
                     && (r.Folds? ==> r.folds == AllFolds(from, isDays, oosDays, stepDays, stop));
    if stepDays > 0 {
      StopIsCount(from, to, isDays, oosDays, stepDays, stop);
      if r.Folds? {
        forall idx: nat | idx <= stop ensures Representable(FoldAt(from, isDays, oosDays, stepDays, idx)) {
          assert idx < stop ==> !Stops(from, to, isDays, oosDays, stepDays, idx);
        }
      }
    } else {
      var first := FoldAt(from, isDays, oosDays, stepDays, 0);
      if stop > 0 {
        assert !Stops(from, to, isDays, oosDays, stepDays, 0);
        BackwardFoldsFit(from, to, isDays, oosDays, stepDays, stop);
      }
    }
  }

  /** `build_folds` */
  method BuildFolds(from: int, to: int, isDays: int, oosDays: int, stepDays: int) returns (r: Result)
    requires InRange(from)
    ensures r.ValueError? <==> isDays <= 0 || oosDays <= 0 || stepDays <= 0 || to <= from
    ensures !r.ValueError? ==> Walked(from, to, isDays, oosDays, stepDays, r)
  {
    if isDays <= 0 || oosDays <= 0 || stepDays <= 0 {
      return ValueError;
    }
    if to <= from {
      return ValueError;
    }
    EndsIff(from, to, isDays, oosDays, stepDays);
    ghost var stop: nat :| Stops(from, to, isDays, oosDays, stepDays, stop);
    var folds := [];
    var anchor, idx: nat := from, 0;
    while true
      invariant idx <= stop && anchor == from + idx * stepDays * DAY
      invariant forall k: nat :: k < idx ==> !Stops(from, to, isDays, oosDays, stepDays, k)
      invariant folds == AllFolds(from, isDays, oosDays, stepDays, idx)
      decreases stop - idx
    {
      var isTo := anchor + isDays * DAY;
      var oosTo := isTo + oosDays * DAY;
      if !InRange(anchor) || !InRange(isTo) || !InRange(oosTo) {
        return OverflowError;
      }
      if oosTo > to {
        break;
      }
      folds := folds + [Fold(idx, anchor, isTo, isTo, oosTo)];
      idx := idx + 1;
      anchor := anchor + stepDays * DAY;
    }
    r := Folds(folds);
  }

  /** The split loop of the engine. It does not validate its arguments: it ends unless
      the step is 0 and its one window fits, and takes the walk of the research builder. */
  method EngineSplits(from: int, to: int, trainDays: int, testDays: int, stepDays: int) returns (r: Result)
    requires InRange(from) && Ends(from, to, trainDays, testDays, stepDays)
    ensures Walked(from, to, trainDays, testDays, stepDays, r)
  {
    ghost var stop: nat :| Stops(from, to, trainDays, testDays, stepDays, stop);
    var splits := [];
    var cursor, fold: nat := from, 0;
    while true
      invariant fold <= stop && cursor == from + fold * stepDays * DAY
      invariant forall k: nat :: k < fold ==> !Stops(from, to, trainDays, testDays, stepDays, k)
      invariant splits == AllFolds(from, trainDays, testDays, stepDays, fold)
      decreases stop - fold
    {
      var trainTo := cursor + trainDays * DAY;
      var testTo := trainTo + testDays * DAY;
      if !InRange(cursor) || !InRange(trainTo) || !InRange(testTo) {
        return OverflowError;
      }
      if testTo > to {
        break;
      }
      splits := splits + [Fold(fold, cursor, trainTo, trainTo, testTo)];
      cursor := cursor + stepDays * DAY;
      fold := fold + 1;
    }
    r := Folds(splits);
  }

  /** The CLI replays one fold by walking from its start to its end: exactly one split,
      with the fold's own windows. */
  lemma OneFoldWalk(f: Fold, isDays: int, oosDays: int)
    requires oosDays > 0 && isDays > 0
    requires f.isTo == f.isFrom + isDays * DAY && f.oosFrom == f.isTo && f.oosTo == f.oosFrom + oosDays * DAY
    ensures Count(f.isFrom, f.oosTo, (f.isTo - f.isFrom) / DAY, (f.oosTo - f.oosFrom) / DAY,
                  if oosDays > 1 then oosDays else 1) == 1
    ensures AllFolds(f.isFrom, (f.isTo - f.isFrom) / DAY, (f.oosTo - f.oosFrom) / DAY, if oosDays > 1 then oosDays else 1, 1)
         == [f.(idx := 0)]
  {
    assert (f.isTo - f.isFrom) / DAY == isDays;
    assert (f.oosTo - f.oosFrom) / DAY == oosDays;
  }

  /** Out-of-sample windows never overlap and leave no gap when the step is their length. */
  lemma StepIsOosTiles(from: int, isDays: int, oosDays: int, idx: nat)
    ensures FoldAt(from, isDays, oosDays, oosDays, idx).oosTo == FoldAt(from, isDays, oosDays, oosDays, idx + 1).oosFrom
  {
    assert (idx + 1) * oosDays * DAY == idx * oosDays * DAY + oosDays * DAY;
  }
}
