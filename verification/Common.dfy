/** Vocabulary shared by every component: optional values, outcome-token sides,
    UTC days, and the sequence operations the source writes as comprehensions. */
module Common {

  datatype Option<+T> = None | Some(value: T)

  /** `trading.engine.types.Side`. */
  datatype Side = YesUp | YesDown | NoSide

  function Max(a: real, b: real): real { if a >= b then a else b }

  function Min(a: real, b: real): real { if a <= b then a else b }

  function Abs(a: real): real { if a >= 0.0 then a else -a }

  /** The UTC calendar day of a POSIX timestamp in seconds. Formatting the day as
      text is injective, so days are compared as integers. */
  function UtcDay(ts: real): int { (ts / 86400.0).Floor }

  lemma UtcDayMonotone(a: real, b: real)
    requires a <= b
    ensures UtcDay(a) <= UtcDay(b)
  {
    assert a / 86400.0 <= b / 86400.0;
  }

  function Sum(s: seq<real>): real
  {
    if s == [] then 0.0 else Sum(s[..|s| - 1]) + s[|s| - 1]
  }

  lemma {:induction false} SumConcat(a: seq<real>, b: seq<real>)
    ensures Sum(a + b) == Sum(a) + Sum(b)
  {
    if b == [] {
      assert a + b == a;
    } else {
      assert (a + b)[..|a + b| - 1] == a + b[..|b| - 1];
      SumConcat(a, b[..|b| - 1]);
    }
  }

  /** A list comprehension with a condition, in list order. */
  function Filter<T>(p: T -> bool, s: seq<T>): seq<T>
  {
    if s == [] then []
    else
      var rest := Filter(p, s[..|s| - 1]);
      if p(s[|s| - 1]) then rest + [s[|s| - 1]] else rest
  }

  lemma {:induction false} FilterConcat<T>(p: T -> bool, a: seq<T>, b: seq<T>)
    ensures Filter(p, a + b) == Filter(p, a) + Filter(p, b)
  {
    if b == [] {
      assert a + b == a;
    } else {
      assert (a + b)[..|a + b| - 1] == a + b[..|b| - 1];
      FilterConcat(p, a, b[..|b| - 1]);
    }
  }

  lemma {:induction false} FilterMember<T>(p: T -> bool, s: seq<T>, x: T)
    ensures x in Filter(p, s) <==> x in s && p(x)
  {
    if s != [] {
      FilterMember(p, s[..|s| - 1], x);
      assert s == s[..|s| - 1] + [s[|s| - 1]];
    }
  }

  lemma {:induction false} FilterAll<T>(p: T -> bool, s: seq<T>)
    requires forall x :: x in s ==> p(x)
    ensures Filter(p, s) == s
  {
    if s != [] {
      FilterAll(p, s[..|s| - 1]);
    }
  }

  lemma {:induction false} FilterNone<T>(p: T -> bool, s: seq<T>)
    requires forall x :: x in s ==> !p(x)
    ensures Filter(p, s) == []
  {
    if s != [] {
      FilterNone(p, s[..|s| - 1]);
    }
  }

  lemma {:induction false} FilterCongruent<T>(p: T -> bool, q: T -> bool, s: seq<T>)
    requires forall i :: 0 <= i < |s| ==> p(s[i]) == q(s[i])
    ensures Filter(p, s) == Filter(q, s)
  {
    if s != [] {
      FilterCongruent(p, q, s[..|s| - 1]);
    }
  }

  lemma {:induction false} FilterCount<T>(p: T -> bool, s: seq<T>, x: T)
    ensures multiset(Filter(p, s))[x] == if p(x) then multiset(s)[x] else 0
  {
    if s != [] {
      FilterCount(p, s[..|s| - 1], x);
      assert s == s[..|s| - 1] + [s[|s| - 1]];
    }
  }

  lemma {:induction false} FilterCommutes<T>(p: T -> bool, q: T -> bool, s: seq<T>)
    ensures Filter(p, Filter(q, s)) == Filter(q, Filter(p, s))
  {
    if s != [] {
      var init, last := s[..|s| - 1], s[|s| - 1];
      FilterCommutes(p, q, init);
      FilterConcat(p, Filter(q, init), [last]);
      FilterConcat(q, Filter(p, init), [last]);
    }
  }

  /** A condition that the first filter already implies changes nothing. */
  lemma {:induction false} FilterImplied<T>(p: T -> bool, q: T -> bool, s: seq<T>)
    requires forall x :: x in s && p(x) ==> q(x)
    ensures Filter(p, Filter(q, s)) == Filter(p, s)
  {
    if s != [] {
      var init, last := s[..|s| - 1], s[|s| - 1];
      FilterImplied(p, q, init);
      FilterConcat(p, Filter(q, init), [last]);
      FilterConcat(p, init, [last]);
      assert s == init + [last];
      assert last in s;
    }
  }

  /** Nondecreasing by a key. */
  ghost predicate Ordered<T>(when: T -> real, s: seq<T>)
  {
    forall i, j :: 0 <= i < j < |s| ==> when(s[i]) <= when(s[j])
  }

  lemma {:induction false} FilterOrdered<T>(when: T -> real, p: T -> bool, s: seq<T>)
    requires Ordered(when, s)
    ensures Ordered(when, Filter(p, s))
  {
    if s != [] {
      var init, last := s[..|s| - 1], s[|s| - 1];
      FilterOrdered(when, p, init);
      forall x | x in Filter(p, init) ensures when(x) <= when(last) {
        FilterMember(p, init, x);
        var i :| 0 <= i < |init| && init[i] == x;
        assert s[i] == x;
      }
    }
  }
}
