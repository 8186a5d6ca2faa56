/**
 * A one-shot quorum collector: it stores values until exactly `threshold`
 * of them have arrived, hands all of them out once, and ignores everything
 * after that.
 */
module Combiner {
  import opened Wrappers

  /** The abstract state of a collector. */
  datatype State<T> = State(values: seq<T>, threshold: nat, idx: nat)

  /** The collector's invariant: `idx` counts the stored values and never passes the threshold. */
  predicate Inv<T>(s: State<T>) {
    |s.values| == s.idx <= s.threshold
  }

  function Init<T>(threshold: nat): (s: State<T>)
    requires threshold > 0
    ensures Inv(s) && s.values == [] && s.threshold == threshold
  {
    State([], threshold, 0)
  }

  /** One `combine` call: the new state and what the call returns. */
  function Step<T>(s: State<T>, v: T): (res: (State<T>, Option<seq<T>>))
    requires Inv(s)
    ensures Inv(res.0) && res.0.threshold == s.threshold
    ensures s.idx >= s.threshold ==> res == (s, None)
    ensures s.idx < s.threshold ==> res.0.values == s.values + [v]
    ensures res.1.Some? <==> s.idx + 1 == s.threshold
    ensures res.1.Some? ==> res.1.value == res.0.values && |res.1.value| == s.threshold
  {
    if s.idx >= s.threshold then (s, None)
    else
      var s' := s.(values := s.values + [v], idx := s.idx + 1);
      (s', if s'.idx == s'.threshold then Some(s'.values) else None)
  }

  /** Feeds `vs` to the collector in order; the states end up in `.0`, the returned values in `.1`. */
  function Run<T>(s: State<T>, vs: seq<T>): (res: (State<T>, seq<Option<seq<T>>>))
    requires Inv(s)
    ensures Inv(res.0) && |res.1| == |vs|
    decreases |vs|
  {
    if vs == [] then (s, [])
    else
      var (s1, o) := Step(s, vs[0]);
      var (s2, os) := Run(s1, vs[1..]);
      (s2, [o] + os)
  }

  /**
   * A fresh collector fed any sequence of values answers `Some` on exactly one call,
   * the `threshold`-th, and that answer is the first `threshold` values in arrival order.
   */
  lemma {:induction false} OneShot<T>(threshold: nat, vs: seq<T>, i: nat)
    requires threshold > 0 && i < |vs|
    ensures Run(Init<T>(threshold), vs).1[i].Some? <==> i == threshold - 1
    ensures i == threshold - 1 ==> Run(Init<T>(threshold), vs).1[i] == Some(vs[..threshold])
  {
    RunFrom(Init<T>(threshold), vs, i);
    if i == threshold - 1 {
      assert [] + vs[..i + 1] == vs[..threshold];
    }
  }

  /** The general form of `OneShot`, from any reachable state. */
  lemma {:induction false} RunFrom<T>(s: State<T>, vs: seq<T>, i: nat)
    requires Inv(s) && i < |vs|
    ensures Run(s, vs).1[i].Some? <==> s.idx + i + 1 == s.threshold
    ensures s.idx + i + 1 == s.threshold ==>
      Run(s, vs).1[i] == Some(s.values + vs[..i + 1])
    decreases i
  {
    var (s1, o) := Step(s, vs[0]);
    if i > 0 {
      RunFrom(s1, vs[1..], i - 1);
      if s.idx < s.threshold {
        assert vs[1..][..i] == vs[1..i + 1];
        assert s.values + [vs[0]] + vs[1..i + 1] == s.values + vs[..i + 1];
      }
    } else {
      assert vs[..1] == [vs[0]];
    }
  }

  /** A collector whose fields are updated in place, as in the source. */
  class Combiner<T> {
    var values: seq<T>
    var threshold: nat
    var idx: nat

    function Abs(): State<T>
      reads this
    {
      State(values, threshold, idx)
    }

    constructor (threshold: nat)
      requires threshold > 0
      ensures Abs() == Init(threshold)
    {
      this.values := [];
      this.threshold := threshold;
      this.idx := 0;
    }

    method Combine(v: T) returns (r: Option<seq<T>>)
      requires Inv(Abs())
      modifies this
      ensures (Abs(), r) == Step(old(Abs()), v)
    {
      if idx >= threshold {
        return None;
      }
      values := values + [v];
      idx := idx + 1;
      if idx == threshold {
        r := Some(values);
      } else {
        r := None;
      }
    }
  }
}
