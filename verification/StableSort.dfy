/** Python's `sorted(..., key=...)`: ordered by key, a permutation, and stable. */
module StableSort {
  import opened Common

  /** Stable insertion: after every element whose key is not larger. */
  function Insert<T>(key: T -> real, s: seq<T>, x: T): seq<T>
  {
    if s == [] || key(s[|s| - 1]) <= key(x) then s + [x]
    else Insert(key, s[..|s| - 1], x) + [s[|s| - 1]]
  }

  function Sort<T>(key: T -> real, s: seq<T>): seq<T>
  {
    if s == [] then [] else Insert(key, Sort(key, s[..|s| - 1]), s[|s| - 1])
  }

  function KeyIs<T>(key: T -> real, k: real): T -> bool { (x: T) => key(x) == k }

  lemma {:induction false} InsertAdds<T>(key: T -> real, s: seq<T>, x: T)
    ensures multiset(Insert(key, s, x)) == multiset(s) + multiset{x}
  {
    if !(s == [] || key(s[|s| - 1]) <= key(x)) {
      assert s == s[..|s| - 1] + [s[|s| - 1]];
      InsertAdds(key, s[..|s| - 1], x);
    }
  }

  lemma {:induction false} InsertOrders<T>(key: T -> real, s: seq<T>, x: T)
    requires Ordered(key, s)
    ensures Ordered(key, Insert(key, s, x))
  {
    if s == [] || key(s[|s| - 1]) <= key(x) {
      assert forall i :: 0 <= i < |s| ==> key(s[i]) <= key(s[|s| - 1]);
    } else {
      var init, last := s[..|s| - 1], s[|s| - 1];
      InsertOrders(key, init, x);
      var r := Insert(key, init, x);
      forall i | 0 <= i < |r| ensures key(r[i]) <= key(last) {
        InsertAdds(key, init, x);
        assert r[i] in multiset(r);
        assert r[i] in init || r[i] == x;
      }
    }
  }

  lemma {:induction false} InsertIsStable<T>(key: T -> real, s: seq<T>, x: T, k: real)
    ensures Filter(KeyIs(key, k), Insert(key, s, x)) == Filter(KeyIs(key, k), s + [x])
  {
    if !(s == [] || key(s[|s| - 1]) <= key(x)) {
      var init, last := s[..|s| - 1], s[|s| - 1];
      var p := KeyIs(key, k);
      InsertIsStable(key, init, x, k);
      calc {
        Filter(p, Insert(key, s, x));
        { FilterConcat(p, Insert(key, init, x), [last]); }
        Filter(p, init + [x]) + Filter(p, [last]);
        { FilterConcat(p, init, [x]); }
        Filter(p, init) + Filter(p, [x]) + Filter(p, [last]);
        Filter(p, init) + Filter(p, [last]) + Filter(p, [x]);
        { FilterConcat(p, init, [last]); assert s == init + [last]; }
        Filter(p, s) + Filter(p, [x]);
        { FilterConcat(p, s, [x]); }
        Filter(p, s + [x]);
      }
    }
  }

  lemma {:induction false} SortIsStable<T>(key: T -> real, s: seq<T>)
    ensures Ordered(key, Sort(key, s))
    ensures multiset(Sort(key, s)) == multiset(s)
    ensures forall k :: Filter(KeyIs(key, k), Sort(key, s)) == Filter(KeyIs(key, k), s)
  {
    if s != [] {
      var init, last := s[..|s| - 1], s[|s| - 1];
      assert s == init + [last];
      SortIsStable(key, init);
      InsertAdds(key, Sort(key, init), last);
      InsertOrders(key, Sort(key, init), last);
      forall k ensures Filter(KeyIs(key, k), Sort(key, s)) == Filter(KeyIs(key, k), s) {
        InsertIsStable(key, Sort(key, init), last, k);
        FilterConcat(KeyIs(key, k), Sort(key, init), [last]);
        FilterConcat(KeyIs(key, k), init, [last]);
      }
    }
  }
}
