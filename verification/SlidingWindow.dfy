/** A queue of timestamped entries that is appended at the right and trimmed from the
    left. Over a chronological history it equals the history cut to the window. */
module SlidingWindow {
  import opened Common

  /** `while q and q[0] < cutoff: q.popleft()` */
  function DropBefore<T>(when: T -> real, q: seq<T>, cutoff: real): seq<T>
  {
    if q != [] && when(q[0]) < cutoff then DropBefore(when, q[1..], cutoff) else q
  }

  ghost predicate AtMost<T>(when: T -> real, s: seq<T>, bound: real)
  {
    forall i :: 0 <= i < |s| ==> when(s[i]) <= bound
  }

  function Since<T>(when: T -> real, cutoff: real): T -> bool { (x: T) => when(x) >= cutoff }

  lemma OrderedSnoc<T>(when: T -> real, s: seq<T>, x: T)
    requires Ordered(when, s) && AtMost(when, s, when(x))
    ensures Ordered(when, s + [x])
  {
  }

  lemma {:induction false} DropIsFilter<T>(when: T -> real, q: seq<T>, cutoff: real)
    requires Ordered(when, q)
    ensures DropBefore(when, q, cutoff) == Filter(Since(when, cutoff), q)
  {
    if q != [] && when(q[0]) < cutoff {
      DropIsFilter(when, q[1..], cutoff);
      FilterConcat(Since(when, cutoff), [q[0]], q[1..]);
      assert [q[0]] + q[1..] == q;
    } else {
      forall x | x in q ensures Since(when, cutoff)(x) {
        var i :| 0 <= i < |q| && q[i] == x;
      }
      FilterAll(Since(when, cutoff), q);
    }
  }

  /** Sliding forward: appending `extra` to the queue and dropping what is older than
      the new cutoff is filtering the whole extended history. */
  lemma Slide<T>(when: T -> real, log: seq<T>, queue: seq<T>, oldCutoff: real, extra: seq<T>, cutoff: real)
    requires Ordered(when, log + extra) && oldCutoff <= cutoff
    requires queue == Filter(Since(when, oldCutoff), log)
    ensures DropBefore(when, queue + extra, cutoff) == Filter(Since(when, cutoff), log + extra)
  {
    var p := Since(when, cutoff);
    assert Ordered(when, log) by {
      assert forall i :: 0 <= i < |log| ==> log[i] == (log + extra)[i];
    }
    assert Ordered(when, extra) by {
      assert forall i :: 0 <= i < |extra| ==> extra[i] == (log + extra)[|log| + i];
    }
    FilterOrdered(when, Since(when, oldCutoff), log);
    forall i, j | 0 <= i < |queue| && 0 <= j < |extra| ensures when(queue[i]) <= when(extra[j]) {
      FilterMember(Since(when, oldCutoff), log, queue[i]);
      var k :| 0 <= k < |log| && log[k] == queue[i];
      assert when((log + extra)[k]) <= when((log + extra)[|log| + j]);
    }
    DropIsFilter(when, queue + extra, cutoff);
    FilterConcat(p, queue, extra);
    FilterConcat(p, log, extra);
    FilterImplied(p, Since(when, oldCutoff), log);
  }

  method PopOld<T>(when: T -> real, queue: seq<T>, cutoff: real) returns (q: seq<T>)
    ensures q == DropBefore(when, queue, cutoff)
    ensures Ordered(when, queue) ==> q == Filter(Since(when, cutoff), queue)
  {
    q := queue;
    while q != [] && when(q[0]) < cutoff
      invariant DropBefore(when, q, cutoff) == DropBefore(when, queue, cutoff)
    {
      q := q[1..];
    }
    if Ordered(when, queue) {
      DropIsFilter(when, queue, cutoff);
    }
  }
}
