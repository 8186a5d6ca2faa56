/**
 * The network actor: expands each submitted message to its targets, stamps
 * it to arrive one jiffy from now, and pushes it through the latency and
 * bandwidth queues; a step hands out whatever the bandwidth queue yields.
 */
module Network {
  import opened Wrappers
  import opened Jiffy
  import opened Message
  import opened Latency
  import opened Bandwidth
  import Clock

  /** Where a process sends a message; `dscale`/`matrix` use the first three, `simulator` the other three. */
  datatype Destination = Broadcast | BroadcastWithinPool(pool: string) | To(to: ProcessId) | SendSelf

  /**
   * The pool every process joins at build time; `broadcast` sends within it.
   * The version of `dscale/src/topology.rs` modelled here does not define its
   * string, so a stand-in name is used; nothing depends on its spelling.
   */
  const GLOBAL_POOL: string := "GLOBAL_POOL"

  /** One buffered send: who sends, to where, what. */
  datatype Outgoing<M> = Outgoing(source: ProcessId, dest: Destination, message: MessagePtr<M>)

  datatype SubmitError =
    | InvalidPool        // "Invalid pool name"
    | UnknownProcess     // "Invalid ProcessId"
    | NoRoute            // "No distr found"

  /**
   * The processes a message goes to: every process for `Broadcast`, the pool's
   * listing for `BroadcastWithinPool`, the one id for `To`, the sender itself
   * for `SendSelf`.
   */
  function Targets(d: Destination, source: ProcessId, procs: seq<ProcessId>, pools: map<string, seq<ProcessId>>)
    : (r: Result<seq<ProcessId>, SubmitError>)
    ensures r.Err? <==> d.BroadcastWithinPool? && d.pool !in pools
  {
    match d
    case Broadcast => Ok(procs)
    case BroadcastWithinPool(p) => if p in pools then Ok(pools[p]) else Err(InvalidPool)
    case To(t) => Ok([t])
    case SendSelf => Ok([source])
  }

  /** Pools list only processes. */
  predicate PoolsWithin(procs: seq<ProcessId>, pools: map<string, seq<ProcessId>>) {
    forall p, i :: p in pools && 0 <= i < |pools[p]| ==> pools[p][i] in procs
  }

  /**
   * The targets are all processes exactly when the destination does not name
   * some other id outright; a broadcast reaches each process, in order.
   */
  lemma TargetsAreProcesses(d: Destination, source: ProcessId, procs: seq<ProcessId>, pools: map<string, seq<ProcessId>>)
    requires PoolsWithin(procs, pools) && source in procs
    requires Targets(d, source, procs, pools).Ok?
    ensures (forall t :: t in Targets(d, source, procs, pools).value ==> t in procs) <==> !(d.To? && d.to !in procs)
    ensures d.Broadcast? ==> Targets(d, source, procs, pools).value == procs
  {
    var ts := Targets(d, source, procs, pools).value;
    if d.To? {
      assert ts[0] == d.to;
    } else if d.BroadcastWithinPool? {
      forall t | t in ts ensures t in procs {
        var i :| 0 <= i < |ts| && ts[i] == t;
      }
    }
  }

  /** The message once per target, each due one jiffy after `now`. */
  function Routed<M>(source: ProcessId, targets: seq<ProcessId>, now: Jiffies, m: MessagePtr<M>): (r: seq<RoutedMessage<M>>)
    ensures |r| == |targets|
    ensures forall i :: 0 <= i < |r| ==>
      r[i].source == source && r[i].dest == targets[i] && r[i].message == m && r[i].arrival.ticks == now.ticks + 1
  {
    var at := AddTicks(now, 1);
    assert at.ticks == now.ticks + 1;
    seq(|targets|, i requires 0 <= i < |targets| => RoutedMessage(at, source, targets[i], m))
  }

  /** `ms` delayed by latency samples drawn in order from the stream `draw`, starting at position `offset`. */
  function Delay<M>(ms: seq<RoutedMessage<M>>, draw: nat -> nat, offset: nat): (r: seq<RoutedMessage<M>>)
    ensures |r| == |ms|
    ensures forall i :: 0 <= i < |ms| ==> r[i] == Delayed(ms[i], draw(offset + i))
  {
    seq(|ms|, i requires 0 <= i < |ms| => Delayed(ms[i], draw(offset + i)))
  }

  /** One more message delayed extends the delayed prefix by that message. */
  lemma DelayStep<M>(base: seq<RoutedMessage<M>>, ms: seq<RoutedMessage<M>>, p: nat, draw: nat -> nat, offset: nat)
    requires p < |ms|
    ensures base + Delay(ms[..p], draw, offset) + [Delayed(ms[p], draw(offset + p))] == base + Delay(ms[..p + 1], draw, offset)
  {
    assert ms[..p + 1] == ms[..p] + [ms[p]];
    DelayConcat(ms[..p], [ms[p]], draw, offset);
    AppendAssoc(base, Delay(ms[..p], draw, offset), [Delayed(ms[p], draw(offset + p))]);
  }

  lemma DelayConcat<M>(a: seq<RoutedMessage<M>>, b: seq<RoutedMessage<M>>, draw: nat -> nat, offset: nat)
    ensures Delay(a + b, draw, offset) == Delay(a, draw, offset) + Delay(b, draw, offset + |a|)
  {
  }

  /** Every message in `ms` goes between a pair the latency topology covers. */
  predicate Covered<M>(ms: seq<RoutedMessage<M>>, routes: set<(ProcessId, ProcessId)>) {
    forall i :: 0 <= i < |ms| ==> (ms[i].source, ms[i].dest) in routes
  }

  /** A send whose destination exists, whose targets are all processes, and whose every hop has a latency distribution. */
  predicate Deliverable<M>(m: MessagePtr<M>, source: ProcessId, dest: Destination, now: Jiffies,
                           procs: seq<ProcessId>, pools: map<string, seq<ProcessId>>, routes: set<(ProcessId, ProcessId)>)
  {
    var ts := Targets(dest, source, procs, pools);
    ts.Ok? && (forall t :: t in ts.value ==> t in procs) && Covered(Routed(source, ts.value, now, m), routes)
  }

  /**
   * Pushes `ms` in order onto a `dscale`/`matrix` latency queue, stopping at
   * the first pair without a latency distribution; `pushed` counts what went in.
   */
  method PushAll<M>(q: LatencyQueue<M>, ms: seq<RoutedMessage<M>>, draw: nat -> nat, offset: nat)
    returns (r: Result<(), SubmitError>, pushed: nat)
    modifies q.queue
    ensures pushed <= |ms| && Covered(ms[..pushed], q.routes)
    ensures q.queue.items == old(q.queue.items) + Delay(ms[..pushed], draw, offset)
    ensures r.Ok? <==> Covered(ms, q.routes)
    ensures r.Ok? ==> pushed == |ms|
    ensures r.Err? ==> r.error == NoRoute && pushed < |ms| && (ms[pushed].source, ms[pushed].dest) !in q.routes
  {
    pushed := 0;
    while pushed < |ms|
      invariant pushed <= |ms| && Covered(ms[..pushed], q.routes)
      invariant q.queue.items == old(q.queue.items) + Delay(ms[..pushed], draw, offset)
    {
      var p := q.Push(ms[pushed], draw(offset + pushed));
      if p.Err? {
        return Err(NoRoute), pushed;
      }
      assert ms[..pushed + 1] == ms[..pushed] + [ms[pushed]];
      DelayConcat(ms[..pushed], [ms[pushed]], draw, offset);
      pushed := pushed + 1;
    }
    assert ms[..pushed] == ms;
    r := Ok(());
  }

  /** All targets of the messages in `ms` are below `n`. */
  lemma DelayKeepsEnds<M>(ms: seq<RoutedMessage<M>>, draw: nat -> nat, offset: nat, n: nat)
    ensures DestsBelow(ms, n) ==> DestsBelow(Delay(ms, draw, offset), n)
    ensures SourcesBelow(ms, n) ==> SourcesBelow(Delay(ms, draw, offset), n)
  {
  }

  /** `dscale`'s network actor over its bandwidth queue. */
  class DscaleNetwork<M> {
    const queue: BandwidthQueue<M>
    /** The process ids in ascending order (the nursery's keys). */
    const procs: seq<ProcessId>
    const pools: map<string, seq<ProcessId>>

    ghost predicate Valid()
      reads this, queue, queue.buffers, queue.global.queue
    {
      queue.Valid() && PoolsWithin(procs, pools) &&
      (forall i :: 0 <= i < |procs| ==> procs[i] < |queue.totalPassed|)
    }

    constructor (queue: BandwidthQueue<M>, procs: seq<ProcessId>, pools: map<string, seq<ProcessId>>)
      requires queue.Valid() && PoolsWithin(procs, pools)
      requires forall i :: 0 <= i < |procs| ==> procs[i] < |queue.totalPassed|
      ensures Valid() && this.queue == queue && this.procs == procs && this.pools == pools
    {
      this.queue := queue;
      this.procs := procs;
      this.pools := pools;
    }

    /**
     * `SubmitSingleMessage`: one routed message per target, pushed in target
     * order. Targets that are not processes are refused before anything is
     * pushed.
     */
    method SubmitSingleMessage(m: MessagePtr<M>, source: ProcessId, dest: Destination, now: Jiffies,
                               draw: nat -> nat, offset: nat)
      returns (r: Result<(), SubmitError>, pushed: nat)
      requires Valid()
      modifies queue.global.queue
      ensures Valid()
      ensures r.Ok? <==> Deliverable(m, source, dest, now, procs, pools, queue.global.routes)
      ensures r.Ok? ==> Targets(dest, source, procs, pools).Ok?
      ensures r.Ok? ==> (queue.global.queue.items ==
        old(queue.global.queue.items) + Delay(Routed(source, Targets(dest, source, procs, pools).value, now, m), draw, offset))
      ensures r.Ok? ==> pushed == |Targets(dest, source, procs, pools).value|
    {
      var ts := Targets(dest, source, procs, pools);
      if ts.Err? {
        return Err(InvalidPool), 0;
      }
      var targets := ts.value;
      var k := 0;
      while k < |targets|
        invariant k <= |targets| && forall j :: 0 <= j < k ==> targets[j] in procs
      {
        if targets[k] !in procs {
          return Err(UnknownProcess), 0;
        }
        k := k + 1;
      }
      var ms := Routed(source, targets, now, m);
      assert DestsBelow(ms, |queue.totalPassed|) by {
        forall j | 0 <= j < |ms| ensures ms[j].dest < |queue.totalPassed| {
          var i :| 0 <= i < |procs| && procs[i] == targets[j];
        }
      }
      r, pushed := PushAll(queue.global, ms, draw, offset);
      DelayKeepsEnds(ms[..pushed], draw, offset, |queue.totalPassed|);
    }

    /** `Submit`: every buffered send in order, with samples drawn from one stream; stops at the first error. */
    method Submit(events: seq<Outgoing<M>>, now: Jiffies, draw: nat -> nat) returns (r: Result<(), SubmitError>)
      requires Valid()
      modifies queue.global.queue
      ensures Valid()
      ensures r.Ok? ==> (queue.global.queue.items ==
        old(queue.global.queue.items) + Delay(Expand(events, |events|, procs, pools, now), draw, 0))
    {
      var offset := 0;
      var i := 0;
      while i < |events|
        invariant Valid() && i <= |events| && offset == |Expand(events, i, procs, pools, now)|
        invariant queue.global.queue.items == old(queue.global.queue.items) + Delay(Expand(events, i, procs, pools, now), draw, 0)
      {
        var e := events[i];
        ghost var done := Expand(events, i, procs, pools, now);
        ghost var before := queue.global.queue.items;
        var s, pushed := SubmitSingleMessage(e.message, e.source, e.dest, now, draw, offset);
        if s.Err? {
          return s;
        }
        ExpandNext(events, i, procs, pools, now, draw, old(queue.global.queue.items), before, queue.global.queue.items, offset);
        offset := offset + pushed;
        i := i + 1;
      }
      r := Ok(());
    }

    /** `Step`: the message the bandwidth queue yields, to be handed to its destination, if any. */
    method Step(now: Jiffies) returns (r: Option<RoutedMessage<M>>)
      requires Valid()
      modifies queue, queue.global.queue, queue.buffers
      ensures Valid()
      ensures r.Some? ==> (multiset(old(queue.global.queue.items) + old(queue.buffers.items)) ==
        multiset(queue.global.queue.items + queue.buffers.items) + multiset{r.value})
      ensures old(queue.global.queue.items) == [] && old(queue.buffers.items) == [] ==>
        r.None? && queue.global.queue.items == [] && queue.buffers.items == []
      ensures r.None? <==> ((old(queue.global.queue.items) == [] && old(queue.buffers.items) == []) ||
        (ServesLatency(old(queue.global.queue.items), old(queue.buffers.items)) && queue.bandwidth != Decimal.USIZE_MAX))
      ensures ServesLatency(old(queue.global.queue.items), old(queue.buffers.items)) && queue.bandwidth == Decimal.USIZE_MAX ==>
        r.Some? && Dequeued(old(queue.global.queue.items), queue.global.queue.items, r.value) &&
        queue.buffers.items == old(queue.buffers.items)
      ensures ServesLatency(old(queue.global.queue.items), old(queue.buffers.items)) && queue.bandwidth != Decimal.USIZE_MAX ==>
        MovedHead(old(queue.global.queue.items), queue.global.queue.items, old(queue.buffers.items), queue.buffers.items,
                  queue.Adjust(old(queue.totalPassed), now))
      ensures !ServesLatency(old(queue.global.queue.items), old(queue.buffers.items)) && old(queue.buffers.items) != [] ==>
        r.Some? && Dequeued(old(queue.buffers.items), queue.buffers.items, r.value) &&
        queue.global.queue.items == old(queue.global.queue.items)
      ensures r.Some? ==> IsClosest(r.value.arrival, old(queue.global.queue.items), old(queue.buffers.items))
      ensures NotBefore(old(queue.global.queue.items), now) && NotBefore(old(queue.buffers.items), now) ==>
        NotBefore(queue.global.queue.items, now) && NotBefore(queue.buffers.items, now)
    {
      ghost var l0, b0 := queue.global.queue.items, queue.buffers.items;
      r := queue.Pop(now);
      if r.Some? {
        ServedFacts(l0, queue.global.queue.items, b0, queue.buffers.items, r.value, now);
      } else if ServesLatency(l0, b0) && NotBefore(l0, now) && NotBefore(b0, now) {
        SqueezeKeepsNotBefore(queue, old(queue.totalPassed), now);
        NotBeforeAfterMove(l0, queue.global.queue.items, b0, queue.buffers.items, queue.Adjust(old(queue.totalPassed), now), now);
      }
    }

    /** `PeekClosest` delegates to the bandwidth queue. */
    method PeekClosest() returns (r: Option<Jiffies>)
      ensures r.None? <==> queue.global.queue.items == [] && queue.buffers.items == []
      ensures r.Some? ==> IsClosest(r.value, queue.global.queue.items, queue.buffers.items)
    {
      r := queue.PeekClosest();
    }
  }

  /** `matrix`'s network actor: the same expansion, over the `matrix` bandwidth queue. */
  class MatrixNetwork<M> {
    const queue: MatrixBandwidthQueue<M>
    /** The process ids in ascending order. */
    const procs: seq<ProcessId>
    const pools: map<string, seq<ProcessId>>

    ghost predicate Valid()
      reads this, queue, queue.buffers, queue.global.queue
    {
      queue.Valid() && PoolsWithin(procs, pools) &&
      (forall i :: 0 <= i < |procs| ==> procs[i] < |queue.totalPassed|)
    }

    constructor (queue: MatrixBandwidthQueue<M>, procs: seq<ProcessId>, pools: map<string, seq<ProcessId>>)
      requires queue.Valid() && PoolsWithin(procs, pools)
      requires forall i :: 0 <= i < |procs| ==> procs[i] < |queue.totalPassed|
      ensures Valid() && this.queue == queue && this.procs == procs && this.pools == pools
    {
      this.queue := queue;
      this.procs := procs;
      this.pools := pools;
    }

    method SubmitSingleMessage(m: MessagePtr<M>, source: ProcessId, dest: Destination, now: Jiffies,
                               draw: nat -> nat, offset: nat)
      returns (r: Result<(), SubmitError>, pushed: nat)
      requires Valid()
      modifies queue.global.queue
      ensures Valid()
      ensures r.Ok? <==> Deliverable(m, source, dest, now, procs, pools, queue.global.routes)
      ensures r.Ok? ==> Targets(dest, source, procs, pools).Ok?
      ensures r.Ok? ==> (queue.global.queue.items ==
        old(queue.global.queue.items) + Delay(Routed(source, Targets(dest, source, procs, pools).value, now, m), draw, offset))
      ensures r.Ok? ==> pushed == |Targets(dest, source, procs, pools).value|
    {
      var ts := Targets(dest, source, procs, pools);
      if ts.Err? {
        return Err(InvalidPool), 0;
      }
      var targets := ts.value;
      var k := 0;
      while k < |targets|
        invariant k <= |targets| && forall j :: 0 <= j < k ==> targets[j] in procs
      {
        if targets[k] !in procs {
          return Err(UnknownProcess), 0;
        }
        k := k + 1;
      }
      var ms := Routed(source, targets, now, m);
      assert DestsBelow(ms, |queue.totalPassed|) by {
        forall j | 0 <= j < |ms| ensures ms[j].dest < |queue.totalPassed| {
          var i :| 0 <= i < |procs| && procs[i] == targets[j];
        }
      }
      r, pushed := PushAll(queue.global, ms, draw, offset);
      DelayKeepsEnds(ms[..pushed], draw, offset, |queue.totalPassed|);
    }

    /** `SubmitMessages`: drains the buffered sends in order; stops at the first error. */
    method SubmitMessages(events: seq<Outgoing<M>>, now: Jiffies, draw: nat -> nat) returns (r: Result<(), SubmitError>)
      requires Valid()
      modifies queue.global.queue
      ensures Valid()
      ensures r.Ok? ==> (queue.global.queue.items ==
        old(queue.global.queue.items) + Delay(Expand(events, |events|, procs, pools, now), draw, 0))
    {
      var offset := 0;
      var i := 0;
      while i < |events|
        invariant Valid() && i <= |events| && offset == |Expand(events, i, procs, pools, now)|
        invariant queue.global.queue.items == old(queue.global.queue.items) + Delay(Expand(events, i, procs, pools, now), draw, 0)
      {
        var e := events[i];
        ghost var before := queue.global.queue.items;
        var s, pushed := SubmitSingleMessage(e.message, e.source, e.dest, now, draw, offset);
        if s.Err? {
          return s;
        }
        ExpandNext(events, i, procs, pools, now, draw, old(queue.global.queue.items), before, queue.global.queue.items, offset);
        offset := offset + pushed;
        i := i + 1;
      }
      r := Ok(());
    }

    /** `Step`: a message from the buffers, to be handed to its destination; a move out of the latency queue yields nothing. */
    method Step(now: Jiffies) returns (r: Option<RoutedMessage<M>>)
      requires Valid()
      modifies queue, queue.global.queue, queue.buffers
      ensures Valid()
      ensures r.Some? ==> Dequeued(old(queue.buffers.items), queue.buffers.items, r.value)
      ensures r.Some? ==> queue.global.queue.items == old(queue.global.queue.items)
      ensures r.None? ==> |queue.global.queue.items| + |queue.buffers.items| == |old(queue.global.queue.items)| + |old(queue.buffers.items)|
      ensures r.None? <==> ((old(queue.global.queue.items) == [] && old(queue.buffers.items) == []) ||
        ServesLatency(old(queue.global.queue.items), old(queue.buffers.items)))
      ensures old(queue.global.queue.items) == [] && old(queue.buffers.items) == [] ==>
        queue.global.queue.items == [] && queue.buffers.items == []
      ensures ServesLatency(old(queue.global.queue.items), old(queue.buffers.items)) ==>
        MovedHead(old(queue.global.queue.items), queue.global.queue.items, old(queue.buffers.items), queue.buffers.items,
                  queue.Adjust(old(queue.totalPassed), now))
      ensures r.Some? ==> IsClosest(r.value.arrival, old(queue.global.queue.items), old(queue.buffers.items))
      ensures NotBefore(old(queue.global.queue.items), now) && NotBefore(old(queue.buffers.items), now) ==>
        NotBefore(queue.global.queue.items, now) && NotBefore(queue.buffers.items, now)
    {
      ghost var l0, b0 := queue.global.queue.items, queue.buffers.items;
      r := queue.Pop(now);
      if r.None? && ServesLatency(l0, b0) {
        var i: nat :| IsEarliest(l0, i) && queue.global.queue.items == RemoveAt(l0, i) && queue.buffers.items == b0 + [queue.Adjust(old(queue.totalPassed), now)(l0[i])];
        if NotBefore(l0, now) && NotBefore(b0, now) {
          MatrixSqueezeKeepsNotBefore(queue, old(queue.totalPassed), now);
          NotBeforeAfterMove(l0, queue.global.queue.items, b0, queue.buffers.items, queue.Adjust(old(queue.totalPassed), now), now);
        }
      } else if r.Some? {
        ServedIsClosest(l0, queue.global.queue.items, b0, queue.buffers.items, r.value);
      }
    }

    method PeekClosest() returns (r: Option<Jiffies>)
      ensures r.None? <==> queue.global.queue.items == [] && queue.buffers.items == []
      ensures r.Some? ==> IsClosest(r.value, queue.global.queue.items, queue.buffers.items)
    {
      r := queue.PeekClosest();
    }
  }

  /** No message in `q` is due before `t`. */
  predicate NotBefore<M>(q: seq<RoutedMessage<M>>, t: Jiffies) {
    forall j :: 0 <= j < |q| ==> Le(t, q[j].arrival)
  }

  /** Moving a message into the buffers never makes it due earlier, so nothing becomes due before `t`. */
  lemma NotBeforeAfterMove<M>(l0: seq<RoutedMessage<M>>, l: seq<RoutedMessage<M>>, b0: seq<RoutedMessage<M>>,
                              b: seq<RoutedMessage<M>>, adjust: RoutedMessage<M> -> RoutedMessage<M>, t: Jiffies)
    requires MovedHead(l0, l, b0, b, adjust) && NotBefore(l0, t) && NotBefore(b0, t)
    requires forall x: RoutedMessage<M> :: Le(t, x.arrival) ==> Le(t, adjust(x).arrival)
    ensures NotBefore(l, t) && NotBefore(b, t)
  {
    var i: nat :| IsEarliest(l0, i) && l == RemoveAt(l0, i) && b == b0 + [adjust(l0[i])];
    RemoveAtNotBefore(l0, i, t);
    AppendNotBefore(b0, adjust(l0[i]), t);
  }

  /** Removing one message keeps the rest due no earlier than `t`. */
  lemma RemoveAtNotBefore<M>(q: seq<RoutedMessage<M>>, i: nat, t: Jiffies)
    requires i < |q| && NotBefore(q, t)
    ensures NotBefore(RemoveAt(q, i), t)
  {
    var r := RemoveAt(q, i);
    assert r == q[..i] + q[i + 1..];
    forall j | 0 <= j < |r| ensures Le(t, r[j].arrival) {
      if j < i {
        assert r[j] == q[j];
      } else {
        assert r[j] == q[j + 1];
      }
    }
  }

  /** Appending a message due no earlier than `t` keeps the queue due no earlier than `t`. */
  lemma AppendNotBefore<M>(q: seq<RoutedMessage<M>>, x: RoutedMessage<M>, t: Jiffies)
    requires NotBefore(q, t) && Le(t, x.arrival)
    ensures NotBefore(q + [x], t)
  {
    forall j | 0 <= j < |q + [x]| ensures Le(t, (q + [x])[j].arrival) {
      if j < |q| {
        assert (q + [x])[j] == q[j];
      }
    }
  }

  /**
   * A message served from the buffers is due no later than anything left in
   * either queue, so the clock may be moved forward to it.
   */
  lemma NotBeforeAfterDelivery<M>(l: seq<RoutedMessage<M>>, b0: seq<RoutedMessage<M>>, b: seq<RoutedMessage<M>>,
                                  m: RoutedMessage<M>, t: Jiffies)
    requires !ServesLatency(l, b0) && Dequeued(b0, b, m) && NotBefore(b0, t)
    ensures Le(t, m.arrival) && NotBefore(l, m.arrival) && NotBefore(b, m.arrival)
  {
    DequeuedFacts(b0, b, m);
    RemainingNotBefore(b0, b, m.arrival);
    if l != [] {
      assert Lt(MinArrival(b0), MinArrival(l));
    }
  }

  /** What is left of a queue after removals is due no earlier than the queue was. */
  lemma RemainingNotBefore<M>(q: seq<RoutedMessage<M>>, q': seq<RoutedMessage<M>>, t: Jiffies)
    requires NotBefore(q, t) && forall x :: x in q' ==> x in q
    ensures NotBefore(q', t)
  {
    forall j | 0 <= j < |q'| ensures Le(t, q'[j].arrival) {
      assert q'[j] in q;
    }
  }

  /** The earliest pending time of two queues is unique. */
  lemma ClosestUnique<M>(t: Jiffies, u: Jiffies, l: seq<RoutedMessage<M>>, b: seq<RoutedMessage<M>>)
    requires IsClosest(t, l, b) && IsClosest(u, l, b)
    ensures t == u
  {
    if exists j :: 0 <= j < |l| && l[j].arrival == t {
      var j :| 0 <= j < |l| && l[j].arrival == t;
      assert Le(u, l[j].arrival);
    } else {
      var j :| 0 <= j < |b| && b[j].arrival == t;
      assert Le(u, b[j].arrival);
    }
    if exists j :: 0 <= j < |l| && l[j].arrival == u {
      var j :| 0 <= j < |l| && l[j].arrival == u;
      assert Le(t, l[j].arrival);
    } else {
      var j :| 0 <= j < |b| && b[j].arrival == u;
      assert Le(t, b[j].arrival);
    }
  }

  /** Whatever is due at the earliest pending time `t` or later is not due before `t`. */
  lemma ClosestBoundsQueues<M>(t: Jiffies, l: seq<RoutedMessage<M>>, b: seq<RoutedMessage<M>>)
    requires IsClosest(t, l, b)
    ensures NotBefore(l, t) && NotBefore(b, t)
  {
  }

  /**
   * A message served from the latency queue (the earlier head, ties included)
   * is due at the earliest pending time; so is one served from the buffers.
   */
  lemma ServedIsClosest<M>(l0: seq<RoutedMessage<M>>, l: seq<RoutedMessage<M>>, b0: seq<RoutedMessage<M>>,
                           b: seq<RoutedMessage<M>>, m: RoutedMessage<M>)
    requires (ServesLatency(l0, b0) && Dequeued(l0, l, m) && b == b0) ||
             (!ServesLatency(l0, b0) && Dequeued(b0, b, m) && l == l0)
    ensures IsClosest(m.arrival, l0, b0)
    ensures NotBefore(l, m.arrival) && NotBefore(b, m.arrival)
  {
    if ServesLatency(l0, b0) && Dequeued(l0, l, m) && b == b0 {
      DequeuedFacts(l0, l, m);
      var i :| 0 <= i < |l0| && l0[i] == m;
      forall j | 0 <= j < |l| ensures Le(m.arrival, l[j].arrival) {
        assert l[j] in l0;
      }
    } else {
      DequeuedFacts(b0, b, m);
      var i :| 0 <= i < |b0| && b0[i] == m;
      NotBeforeAfterDelivery(l, b0, b, m, m.arrival);
      if l0 != [] {
        assert Lt(MinArrival(b0), MinArrival(l0));
      }
    }
  }

  /**
   * Serving one message from either queue removes exactly that message, which
   * is due at the earliest pending time, and leaves nothing due before `now`
   * that was not before.
   */
  lemma ServedFacts<M>(l0: seq<RoutedMessage<M>>, l: seq<RoutedMessage<M>>, b0: seq<RoutedMessage<M>>,
                       b: seq<RoutedMessage<M>>, m: RoutedMessage<M>, now: Jiffies)
    requires (ServesLatency(l0, b0) && Dequeued(l0, l, m) && b == b0) ||
             (!ServesLatency(l0, b0) && Dequeued(b0, b, m) && l == l0)
    ensures multiset(l0 + b0) == multiset(l + b) + multiset{m}
    ensures IsClosest(m.arrival, l0, b0)
    ensures NotBefore(l0, now) && NotBefore(b0, now) ==> NotBefore(l, now) && NotBefore(b, now)
  {
    ServedConserves(l0, l, b0, b, m);
    ServedIsClosest(l0, l, b0, b, m);
    if NotBefore(l0, now) && NotBefore(b0, now) {
      ClosestNotBefore(now, m.arrival, l0, b0);
      NotBeforeEarlier(l, now, m.arrival);
      NotBeforeEarlier(b, now, m.arrival);
    }
  }

  /** Serving one message from either queue removes exactly that message from the two together. */
  lemma ServedConserves<M>(l0: seq<RoutedMessage<M>>, l: seq<RoutedMessage<M>>, b0: seq<RoutedMessage<M>>,
                           b: seq<RoutedMessage<M>>, m: RoutedMessage<M>)
    requires (ServesLatency(l0, b0) && Dequeued(l0, l, m) && b == b0) ||
             (!ServesLatency(l0, b0) && Dequeued(b0, b, m) && l == l0)
    ensures multiset(l0 + b0) == multiset(l + b) + multiset{m}
  {
    if ServesLatency(l0, b0) && Dequeued(l0, l, m) && b == b0 {
      DequeuedFacts(l0, l, m);
    } else {
      DequeuedFacts(b0, b, m);
    }
  }

  /** When nothing pending is due before `t`, neither is the earliest pending time `u`. */
  lemma ClosestNotBefore<M>(t: Jiffies, u: Jiffies, l: seq<RoutedMessage<M>>, b: seq<RoutedMessage<M>>)
    requires IsClosest(u, l, b) && NotBefore(l, t) && NotBefore(b, t)
    ensures Le(t, u)
  {
  }

  /** A queue due no earlier than `u` is due no earlier than any `t` before `u`. */
  lemma NotBeforeEarlier<M>(q: seq<RoutedMessage<M>>, t: Jiffies, u: Jiffies)
    requires Le(t, u) && NotBefore(q, u)
    ensures NotBefore(q, t)
  {
  }

  /**
   * Moving a message into the buffers at `now` leaves it due at `now` or
   * later, whether or not it was squeezed (`dscale`).
   */
  lemma SqueezeKeepsNotBefore<M>(q: BandwidthQueue<M>, totals: seq<nat>, now: Jiffies)
    ensures forall x: RoutedMessage<M> :: Le(now, x.arrival) ==> Le(now, q.Adjust(totals, now)(x).arrival)
  {
  }

  /** The same for `matrix`'s queue, which leaves messages alone when unbounded. */
  lemma MatrixSqueezeKeepsNotBefore<M>(q: MatrixBandwidthQueue<M>, totals: seq<nat>, now: Jiffies)
    ensures forall x: RoutedMessage<M> :: Le(now, x.arrival) ==> Le(now, q.Adjust(totals, now)(x).arrival)
  {
  }

  /** Messages pushed at `now` through the latency queue are never due before `now`. */
  lemma RoutedNotBefore<M>(source: ProcessId, targets: seq<ProcessId>, now: Jiffies, m: MessagePtr<M>, draw: nat -> nat, offset: nat)
    ensures NotBefore(Delay(Routed(source, targets, now, m), draw, offset), now)
  {
  }

  /** `simulator`'s network actor, which also advances the clock to each delivered message. */
  datatype StepResult<M> =
    | Deadlock                      // the queues are empty: `Step` returns false
    | Arrived                       // a message moved out of the latency queue
    | Execute(m: RoutedMessage<M>)  // the clock is at `m`'s arrival; `m` goes to its destination
    | NoSuchProcess(m: RoutedMessage<M>)  // "Invalid proccess id"

  class SimulatorNetwork<M> {
    const queue: SimulatorBandwidthQueue<M>
    /** The process ids in ascending order (the `BTreeMap`'s keys). */
    const procs: seq<ProcessId>
    const clock: Clock.Clock

    /** Nothing queued is due before the clock. */
    ghost predicate Valid()
      reads this, queue, queue.buffers, queue.global.queue, clock
    {
      queue.Valid() && (forall i :: 0 <= i < |procs| ==> procs[i] < |queue.bufferSizes|) &&
      NotBefore(queue.global.queue.items, clock.now) && NotBefore(queue.buffers.items, clock.now)
    }

    constructor (queue: SimulatorBandwidthQueue<M>, procs: seq<ProcessId>, clock: Clock.Clock)
      requires queue.Valid() && forall i :: 0 <= i < |procs| ==> procs[i] < |queue.bufferSizes|
      requires NotBefore(queue.global.queue.items, clock.now) && NotBefore(queue.buffers.items, clock.now)
      ensures Valid() && this.queue == queue && this.procs == procs && this.clock == clock
    {
      this.queue := queue;
      this.procs := procs;
      this.clock := clock;
    }

    /**
     * `SubmitSingleMessage`: one message per target, each due at
     * `base_arrival_time` plus its latency; `draw` yields delays within the
     * latency bound.
     */
    method SubmitSingleMessage(m: MessagePtr<M>, source: ProcessId, dest: Destination, draw: nat -> nat, offset: nat)
      returns (pushed: nat)
      requires Valid() && source in procs && !dest.BroadcastWithinPool?
      requires forall k :: draw(k) <= queue.global.maxLatency.ticks
      modifies queue.global.queue
      ensures Valid()
      ensures queue.global.queue.items ==
        old(queue.global.queue.items) + Delay(Routed(source, Targets(dest, source, procs, map[]).value, clock.now, m), draw, offset)
      ensures pushed == |Targets(dest, source, procs, map[]).value|
    {
      var targets := Targets(dest, source, procs, map[]).value;
      var ms := Routed(source, targets, clock.now, m);
      assert SourcesBelow(ms, |queue.bufferSizes|) by {
        var i :| 0 <= i < |procs| && procs[i] == source;
      }
      pushed := 0;
      while pushed < |ms|
        invariant pushed <= |ms| && Valid()
        invariant queue.global.queue.items == old(queue.global.queue.items) + Delay(ms[..pushed], draw, offset)
      {
        DelayStep(old(queue.global.queue.items), ms, pushed, draw, offset);
        queue.Push(ms[pushed], draw(offset + pushed));
        RoutedNotBefore(source, targets, clock.now, m, draw, offset);
        pushed := pushed + 1;
      }
      assert ms[..pushed] == ms;
    }

    /** `SubmitMessages`: everything one process sent, in order. */
    method SubmitMessages(source: ProcessId, messages: seq<(Destination, MessagePtr<M>)>, draw: nat -> nat)
      requires Valid() && source in procs && forall i :: 0 <= i < |messages| ==> !messages[i].0.BroadcastWithinPool?
      requires forall k :: draw(k) <= queue.global.maxLatency.ticks
      modifies queue.global.queue
      ensures Valid()
      ensures queue.global.queue.items == old(queue.global.queue.items) +
        Delay(Expand(Sends(source, messages), |messages|, procs, map[], clock.now), draw, 0)
    {
      var events := Sends(source, messages);
      var offset := 0;
      var i := 0;
      while i < |messages|
        invariant Valid() && i <= |messages| && offset == |Expand(events, i, procs, map[], clock.now)|
        invariant queue.global.queue.items == old(queue.global.queue.items) + Delay(Expand(events, i, procs, map[], clock.now), draw, 0)
      {
        ghost var before := queue.global.queue.items;
        var pushed := SubmitSingleMessage(messages[i].1, source, messages[i].0, draw, offset);
        ExpandNext(events, i, procs, map[], clock.now, draw, old(queue.global.queue.items), before, queue.global.queue.items, offset);
        offset := offset + pushed;
        i := i + 1;
      }
    }

    /**
     * `Start`: each process, in `procs` order, is bootstrapped with its
     * configuration (its own id and the process count) and what it sends is
     * submitted at once, the `k`-th process drawing latencies from `draws(k)`.
     */
    method Start(boot: Configuration -> seq<(Destination, MessagePtr<M>)>, draws: nat -> (nat -> nat))
      requires Valid()
      requires forall c, i :: 0 <= i < |boot(c)| ==> !boot(c)[i].0.BroadcastWithinPool?
      requires forall k, j :: draws(k)(j) <= queue.global.maxLatency.ticks
      modifies queue.global.queue
      ensures Valid()
      ensures queue.global.queue.items == old(queue.global.queue.items) + StartQueued(procs, |procs|, boot, draws, clock.now)
    {
      for k := 0 to |procs|
        invariant Valid()
        invariant queue.global.queue.items == old(queue.global.queue.items) + StartQueued(procs, k, boot, draws, clock.now)
      {
        Boot(k, boot, draws);
        AppendAssoc(old(queue.global.queue.items), StartQueued(procs, k, boot, draws, clock.now), Booted(procs, k, boot, draws, clock.now));
      }
    }

    /** The bootstrap of process `procs[k]`: its sends submitted with the `k`-th stream of samples. */
    method Boot(k: nat, boot: Configuration -> seq<(Destination, MessagePtr<M>)>, draws: nat -> (nat -> nat))
      requires Valid() && k < |procs|
      requires forall c, i :: 0 <= i < |boot(c)| ==> !boot(c)[i].0.BroadcastWithinPool?
      requires forall k, j :: draws(k)(j) <= queue.global.maxLatency.ticks
      modifies queue.global.queue
      ensures Valid()
      ensures queue.global.queue.items == old(queue.global.queue.items) + Booted(procs, k, boot, draws, clock.now)
    {
      var sends := boot(Configuration(procs[k], |procs|));
      assert forall i :: 0 <= i < |sends| ==> !sends[i].0.BroadcastWithinPool?;
      var draw := draws(k);
      assert forall j :: draw(j) <= queue.global.maxLatency.ticks;
      SubmitMessages(procs[k], sends, draw);
    }

    /**
     * `Step`: false only when both queues are empty; a move out of the latency
     * queue delivers nothing; otherwise the clock moves forward to the
     * delivered message, which never needs it to go back.
     */
    method Step() returns (r: StepResult<M>)
      requires Valid()
      modifies queue, queue.global.queue, queue.buffers, clock
      ensures Valid() && Le(old(clock.now), clock.now)
      ensures r.Deadlock? <==> old(queue.global.queue.items) == [] && old(queue.buffers.items) == []
      ensures r.Deadlock? ==> clock.now == old(clock.now) && queue.global.queue.items == [] && queue.buffers.items == []
      ensures r.Arrived? ==> (clock.now == old(clock.now) &&
        MovedHead(old(queue.global.queue.items), queue.global.queue.items, old(queue.buffers.items), queue.buffers.items,
                  queue.Adjust(old(queue.bufferSizes))))
      ensures r.Execute? ==> (r.m.dest in procs && clock.now == r.m.arrival &&
        Dequeued(old(queue.buffers.items), queue.buffers.items, r.m) && queue.global.queue.items == old(queue.global.queue.items))
      ensures r.NoSuchProcess? ==> r.m.dest !in procs
    {
      ghost var l0, b0 := queue.global.queue.items, queue.buffers.items;
      var p := queue.Pop();
      match p
      case Nothing =>
        assert queue.global.queue.items == [] && queue.buffers.items == [];
        assert NotBefore(queue.global.queue.items, clock.now) && NotBefore(queue.buffers.items, clock.now);
        r := Deadlock;
      case ArrivedByLatency =>
        JoinNeverEarlier(queue, old(queue.bufferSizes));
        NotBeforeAfterMove(l0, queue.global.queue.items, b0, queue.buffers.items, queue.Adjust(old(queue.bufferSizes)), clock.now);
        r := Arrived;
      case Delivered(m) =>
        NotBeforeAfterDelivery(l0, b0, queue.buffers.items, m, clock.now);
        clock.FastForward(m.arrival);
        if m.dest in procs {
          r := Execute(m);
        } else {
          r := NoSuchProcess(m);
        }
    }
  }

  lemma AppendAssoc<T>(a: seq<T>, b: seq<T>, c: seq<T>)
    ensures a + (b + c) == (a + b) + c
  {
  }

  /** What a `simulator` process is bootstrapped with. */
  datatype Configuration = Configuration(assignedId: ProcessId, procNum: nat)

  /** What the first `k` processes queue when bootstrapped at `now`. */
  function StartQueued<M>(procs: seq<ProcessId>, k: nat, boot: Configuration -> seq<(Destination, MessagePtr<M>)>,
                          draws: nat -> (nat -> nat), now: Jiffies): seq<RoutedMessage<M>>
    requires k <= |procs|
  {
    if k == 0 then [] else StartQueued(procs, k - 1, boot, draws, now) + Booted(procs, k - 1, boot, draws, now)
  }

  /** What process `procs[k]` queues when bootstrapped at `now`, with the `k`-th stream of samples. */
  function Booted<M>(procs: seq<ProcessId>, k: nat, boot: Configuration -> seq<(Destination, MessagePtr<M>)>,
                     draws: nat -> (nat -> nat), now: Jiffies): seq<RoutedMessage<M>>
    requires k < |procs|
  {
    var sends := boot(Configuration(procs[k], |procs|));
    Delay(Expand(Sends(procs[k], sends), |sends|, procs, map[], now), draws(k), 0)
  }

  /** Every message a send expands to comes from the send's source. */
  lemma {:induction false} ExpandKeepsSource<M>(events: seq<Outgoing<M>>, k: nat, procs: seq<ProcessId>,
                                               pools: map<string, seq<ProcessId>>, now: Jiffies, s: ProcessId)
    requires k <= |events| && forall i :: 0 <= i < |events| ==> events[i].source == s
    ensures forall j :: 0 <= j < |Expand(events, k, procs, pools, now)| ==> Expand(events, k, procs, pools, now)[j].source == s
  {
    if k > 0 {
      ExpandKeepsSource(events, k - 1, procs, pools, now, s);
      var a: seq<RoutedMessage<M>>, b: seq<RoutedMessage<M>> := Expand(events, k - 1, procs, pools, now), Expansion(events[k - 1], procs, pools, now);
      forall j | 0 <= j < |a + b| ensures (a + b)[j].source == s {
        if j < |a| {
          assert (a + b)[j] == a[j];
        } else {
          assert (a + b)[j] == b[j - |a|];
        }
      }
    }
  }

  /**
   * Every message queued at start comes from a bootstrapped process and is
   * due no earlier than one jiffy after the start time.
   */
  lemma {:induction false} StartQueuedFromProcesses<M>(procs: seq<ProcessId>, k: nat,
                                                      boot: Configuration -> seq<(Destination, MessagePtr<M>)>,
                                                      draws: nat -> (nat -> nat), now: Jiffies)
    requires k <= |procs|
    ensures forall j :: 0 <= j < |StartQueued(procs, k, boot, draws, now)| ==>
      StartQueued(procs, k, boot, draws, now)[j].source in procs[..k] &&
      StartQueued(procs, k, boot, draws, now)[j].arrival.ticks > now.ticks
  {
    if k > 0 {
      StartQueuedFromProcesses(procs, k - 1, boot, draws, now);
      BootedFromProcess(procs, k - 1, boot, draws, now);
      AppendFromProcesses(StartQueued(procs, k - 1, boot, draws, now), Booted(procs, k - 1, boot, draws, now),
                          procs[..k - 1], procs[k - 1], now);
      assert procs[..k] == procs[..k - 1] + [procs[k - 1]];
    }
  }

  /** Messages from `ps`, followed by messages from `p`, all come from `ps + [p]`; the due times carry over. */
  lemma AppendFromProcesses<M>(a: seq<RoutedMessage<M>>, b: seq<RoutedMessage<M>>, ps: seq<ProcessId>, p: ProcessId,
                               now: Jiffies)
    requires forall j :: 0 <= j < |a| ==> a[j].source in ps && a[j].arrival.ticks > now.ticks
    requires forall j :: 0 <= j < |b| ==> b[j].source == p && b[j].arrival.ticks > now.ticks
    ensures forall j :: 0 <= j < |a + b| ==> (a + b)[j].source in ps + [p] && (a + b)[j].arrival.ticks > now.ticks
  {
    forall j | 0 <= j < |a + b| ensures (a + b)[j].source in ps + [p] && (a + b)[j].arrival.ticks > now.ticks {
      if j < |a| {
        assert (a + b)[j] == a[j];
      } else {
        assert (a + b)[j] == b[j - |a|];
      }
    }
  }

  /** Everything one bootstrapped process queues comes from it and is due after the start time. */
  lemma BootedFromProcess<M>(procs: seq<ProcessId>, k: nat, boot: Configuration -> seq<(Destination, MessagePtr<M>)>,
                             draws: nat -> (nat -> nat), now: Jiffies)
    requires k < |procs|
    ensures forall j :: 0 <= j < |Booted(procs, k, boot, draws, now)| ==>
      Booted(procs, k, boot, draws, now)[j].source == procs[k] &&
      Booted(procs, k, boot, draws, now)[j].arrival.ticks > now.ticks
  {
    var sends := boot(Configuration(procs[k], |procs|));
    var es := Sends(procs[k], sends);
    ExpandKeepsSource(es, |sends|, procs, map[], now, procs[k]);
    ExpandAfterNow(es, |sends|, procs, map[], now);
    var ex := Expand(es, |sends|, procs, map[], now);
    var b: seq<RoutedMessage<M>> := Delay(ex, draws(k), 0);
    forall j | 0 <= j < |b| ensures b[j].source == procs[k] && b[j].arrival.ticks > now.ticks {
      assert b[j] == Delayed(ex[j], draws(k)(j));
    }
  }

  /** Sends submitted at `now` expand to messages due strictly after `now`. */
  lemma {:induction false} ExpandAfterNow<M>(events: seq<Outgoing<M>>, k: nat, procs: seq<ProcessId>,
                                            pools: map<string, seq<ProcessId>>, now: Jiffies)
    requires k <= |events|
    ensures forall j :: 0 <= j < |Expand(events, k, procs, pools, now)| ==> Expand(events, k, procs, pools, now)[j].arrival.ticks == now.ticks + 1
  {
    if k > 0 {
      ExpandAfterNow(events, k - 1, procs, pools, now);
      var a: seq<RoutedMessage<M>>, b: seq<RoutedMessage<M>> := Expand(events, k - 1, procs, pools, now), Expansion(events[k - 1], procs, pools, now);
      forall j | 0 <= j < |a + b| ensures (a + b)[j].arrival.ticks == now.ticks + 1 {
        if j < |a| {
          assert (a + b)[j] == a[j];
        } else {
          assert (a + b)[j] == b[j - |a|];
        }
      }
    }
  }

  /** Joining a sender's buffer only ever delays a message. */
  lemma JoinNeverEarlier<M>(q: SimulatorBandwidthQueue<M>, sizes: seq<nat>)
    ensures forall x: RoutedMessage<M> :: Le(x.arrival, q.Adjust(sizes)(x).arrival)
  {
    forall x: RoutedMessage<M> ensures Le(x.arrival, q.Adjust(sizes)(x).arrival) {
      assert q.Adjust(sizes)(x) == JoinBuffer(x, sizes, q.bandwidth);
    }
  }

  /** A process's sends as buffered events. */
  function Sends<M>(source: ProcessId, messages: seq<(Destination, MessagePtr<M>)>): (es: seq<Outgoing<M>>)
    ensures |es| == |messages|
    ensures forall i :: 0 <= i < |es| ==> es[i] == Outgoing(source, messages[i].0, messages[i].1)
  {
    seq(|messages|, i requires 0 <= i < |messages| => Outgoing(source, messages[i].0, messages[i].1))
  }

  /** The routed messages one send expands to (nothing when its pool does not exist). */
  function Expansion<M>(e: Outgoing<M>, procs: seq<ProcessId>, pools: map<string, seq<ProcessId>>, now: Jiffies)
    : seq<RoutedMessage<M>>
  {
    var ts := Targets(e.dest, e.source, procs, pools);
    if ts.Ok? then Routed(e.source, ts.value, now, e.message) else []
  }

  /** The routed messages the first `k` sends of `events` expand to, in order. */
  function Expand<M>(events: seq<Outgoing<M>>, k: nat, procs: seq<ProcessId>, pools: map<string, seq<ProcessId>>, now: Jiffies)
    : seq<RoutedMessage<M>>
    requires k <= |events|
  {
    if k == 0 then [] else Expand(events, k - 1, procs, pools, now) + Expansion(events[k - 1], procs, pools, now)
  }

  /** One more send submitted extends the pushed messages by its expansion, with the samples that follow. */
  lemma ExpandNext<M>(events: seq<Outgoing<M>>, i: nat, procs: seq<ProcessId>, pools: map<string, seq<ProcessId>>,
                      now: Jiffies, draw: nat -> nat, start: seq<RoutedMessage<M>>,
                      before: seq<RoutedMessage<M>>, after: seq<RoutedMessage<M>>, offset: nat)
    requires i < |events| && offset == |Expand(events, i, procs, pools, now)|
    requires Targets(events[i].dest, events[i].source, procs, pools).Ok?
    requires before == start + Delay(Expand(events, i, procs, pools, now), draw, 0)
    requires after == before + Delay(Routed(events[i].source, Targets(events[i].dest, events[i].source, procs, pools).value,
                                            now, events[i].message), draw, offset)
    ensures after == start + Delay(Expand(events, i + 1, procs, pools, now), draw, 0)
    ensures offset + |Targets(events[i].dest, events[i].source, procs, pools).value| == |Expand(events, i + 1, procs, pools, now)|
  {
    var done := Expand(events, i, procs, pools, now);
    var next := Routed(events[i].source, Targets(events[i].dest, events[i].source, procs, pools).value, now, events[i].message);
    assert Expand(events, i + 1, procs, pools, now) == done + next;
    DelayAppend(start, done, next, draw);
  }

  /** Delaying two runs one after the other is delaying them together. */
  lemma DelayAppend<M>(start: seq<RoutedMessage<M>>, a: seq<RoutedMessage<M>>, b: seq<RoutedMessage<M>>, draw: nat -> nat)
    ensures start + Delay(a, draw, 0) + Delay(b, draw, |a|) == start + Delay(a + b, draw, 0)
  {
    DelayConcat(a, b, draw, 0);
    AppendAssoc(start, Delay(a, draw, 0), Delay(b, draw, |a|));
  }

  /** Sends submitted at `now` expand to messages stamped one jiffy later, never due before `now`. */
  lemma {:induction false} ExpandNotBefore<M>(events: seq<Outgoing<M>>, k: nat, procs: seq<ProcessId>,
                                              pools: map<string, seq<ProcessId>>, now: Jiffies)
    requires k <= |events|
    ensures NotBefore(Expand(events, k, procs, pools, now), now)
  {
    if k > 0 {
      ExpandNotBefore(events, k - 1, procs, pools, now);
      NotBeforeConcat(Expand(events, k - 1, procs, pools, now), Expansion(events[k - 1], procs, pools, now), now);
    }
  }

  /** Latency delays only postpone messages. */
  lemma DelayNotBefore<M>(ms: seq<RoutedMessage<M>>, draw: nat -> nat, offset: nat, t: Jiffies)
    requires NotBefore(ms, t)
    ensures NotBefore(Delay(ms, draw, offset), t)
  {
    forall j | 0 <= j < |ms| ensures Le(t, Delay(ms, draw, offset)[j].arrival) {
      assert Le(ms[j].arrival, Delayed(ms[j], draw(offset + j)).arrival);
    }
  }

  lemma NotBeforeConcat<M>(a: seq<RoutedMessage<M>>, b: seq<RoutedMessage<M>>, t: Jiffies)
    requires NotBefore(a, t) && NotBefore(b, t)
    ensures NotBefore(a + b, t)
  {
    forall j | 0 <= j < |a + b| ensures Le(t, (a + b)[j].arrival) {
      if j < |a| {
        assert (a + b)[j] == a[j];
      } else {
        assert (a + b)[j] == b[j - |a|];
      }
    }
  }
}
