/**
 The watermark of `main`: the largest processed id, or `None` before anything
 has been processed. It is passed to the remote as `since_id`.
 */
module Watermarks {
  import opened Items

  /** Set extensionality at the empty set, stated so that a member can be picked. */
  lemma EmptyIfNoMember(s: set<int>)
    ensures (forall x :: x !in s) ==> s == {}
  {
    if forall x :: x !in s {
      assert forall x :: x in s <==> x in {};
    }
  }

  /** The greatest element of a non-empty set of ids. */
  ghost function MaxId(s: set<int>): (m: int)
    requires s != {}
    ensures m in s
    ensures forall y :: y in s ==> y <= m
    decreases s
  {
    EmptyIfNoMember(s);
    var x :| x in s;
    if s == {x} then x
    else
      var m' := MaxId(s - {x});
      assert forall y :: y in s ==> y == x || y in s - {x};
      if x < m' then m' else x
  }

  /** `max(processed_tweets) if processed_tweets else None`. */
  ghost function Watermark(seen: set<int>): (w: Option<int>)
    ensures w.None? <==> seen == {}
    ensures w.Some? ==> w.value in seen && forall x :: x in seen ==> x <= w.value
  {
    if seen == {} then None else Some(MaxId(seen))
  }

  /** Order on watermarks: no watermark is below every watermark. */
  predicate AtMost(a: Option<int>, b: Option<int>)
  {
    a.None? || (b.Some? && a.value <= b.value)
  }

  /** A watermark is determined by being the greatest member of the set. */
  lemma WatermarkIsGreatest(seen: set<int>, m: int)
    requires m in seen && forall x :: x in seen ==> x <= m
    ensures Watermark(seen) == Some(m)
  {
  }

  /** Adding ids to the set never lowers the watermark. */
  lemma WatermarkMonotone(s: set<int>, t: set<int>)
    requires s <= t
    ensures AtMost(Watermark(s), Watermark(t))
  {
  }

  /**
   The scan Python's `max` performs over the set: visit every id once and keep
   the largest so far.
   */
  method ComputeWatermark(seen: set<int>) returns (w: Option<int>)
    ensures w == Watermark(seen)
  {
    w := None;
    var rest := seen;
    while rest != {}
      invariant rest <= seen
      invariant w.None? <==> rest == seen
      invariant w.Some? ==> w.value in seen
      invariant w.Some? ==> forall y :: y in seen - rest ==> y <= w.value
      decreases rest
    {
      EmptyIfNoMember(rest);
      var x :| x in rest;
      assert forall y :: y in seen - (rest - {x}) ==> y == x || y in seen - rest;
      if w.None? || w.value < x {
        w := Some(x);
      }
      rest := rest - {x};
    }
    assert seen - rest == seen;
    if w.Some? {
      WatermarkIsGreatest(seen, w.value);
    }
  }
}
