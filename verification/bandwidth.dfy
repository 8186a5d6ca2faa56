/**
 * The NIC bandwidth model. Messages leave the latency queue into a second
 * min-heap of "squeezed" messages whose arrival is pushed back when the
 * bytes already sent exceed what the bandwidth allows; a pop serves
 * whichever heap has the earlier head, the latency queue on ties.
 */
module Bandwidth {
  import opened Wrappers
  import opened Jiffy
  import opened Message
  import opened Latency
  import Decimal

  /** Bytes per jiffy. */
  datatype BandwidthDescription = Unbounded | Bounded(bytesPerJiffy: nat)

  /** The bandwidth a queue works with: `Unbounded` is `usize::MAX`. */
  function BandwidthOf(d: BandwidthDescription): (bw: nat)
    ensures d.Unbounded? ==> bw == Decimal.USIZE_MAX
    ensures d.Bounded? ==> bw == d.bytesPerJiffy
  {
    match d
    case Unbounded => Decimal.USIZE_MAX
    case Bounded(b) => b
  }

  /** Bytes of the messages of `q` addressed to process `d`. */
  function SizeTo<M>(q: seq<RoutedMessage<M>>, d: ProcessId): nat
    decreases |q|
  {
    if q == [] then 0
    else (if q[|q| - 1].dest == d then q[|q| - 1].message.size else 0) + SizeTo(q[..|q| - 1], d)
  }

  /** Bytes of the messages of `q` sent by process `s`. */
  function SizeFrom<M>(q: seq<RoutedMessage<M>>, s: ProcessId): nat
    decreases |q|
  {
    if q == [] then 0
    else (if q[|q| - 1].source == s then q[|q| - 1].message.size else 0) + SizeFrom(q[..|q| - 1], s)
  }

  /** Delivering one more message adds its bytes to its destination's total only. */
  lemma SizeToAppend<M>(q: seq<RoutedMessage<M>>, m: RoutedMessage<M>, d: ProcessId)
    ensures SizeTo(q + [m], d) == SizeTo(q, d) + (if m.dest == d then m.message.size else 0)
  {
    assert (q + [m])[..|q + [m]| - 1] == q;
  }

  lemma {:induction false} SizeFromConcat<M>(a: seq<RoutedMessage<M>>, b: seq<RoutedMessage<M>>, s: ProcessId)
    ensures SizeFrom(a + b, s) == SizeFrom(a, s) + SizeFrom(b, s)
    decreases |b|
  {
    if b != [] {
      assert (a + b)[..|a + b| - 1] == a + b[..|b| - 1];
      SizeFromConcat(a, b[..|b| - 1], s);
    } else {
      assert a + b == a;
    }
  }

  /** Taking a message out of a buffer takes its bytes off its sender's total. */
  lemma SizeFromRemoveAt<M>(q: seq<RoutedMessage<M>>, i: nat, s: ProcessId)
    requires i < |q|
    ensures SizeFrom(q, s) == SizeFrom(RemoveAt(q, i), s) + (if q[i].source == s then q[i].message.size else 0)
  {
    assert q == q[..i] + [q[i]] + q[i + 1..];
    SizeFromConcat(q[..i] + [q[i]], q[i + 1..], s);
    SizeFromConcat(q[..i], [q[i]], s);
    SizeFromConcat(q[..i], q[i + 1..], s);
  }

  /**
   * A message moved into the buffers when `total` bytes have already passed
   * to its destination. When the new total is more than `bw` bytes per tick
   * up to `now` allow, it arrives at the tick in which the new total will
   * have passed; otherwise its arrival is kept.
   */
  function Squeeze<M>(m: RoutedMessage<M>, total: nat, bw: nat, now: Jiffies): (s: RoutedMessage<M>)
    requires bw > 0
    ensures s == m.(arrival := s.arrival)
    ensures total + m.message.size <= Mul(bw, now) ==> s == m
    ensures total + m.message.size > Mul(bw, now) ==>
      Le(now, s.arrival) && s.arrival.ticks * bw <= total + m.message.size < (s.arrival.ticks + 1) * bw
  {
    var newTotal := total + m.message.size;
    if newTotal > Mul(bw, now) then
      var t := newTotal / bw;
      SqueezedNotBeforeNow(newTotal, bw, now.ticks);
      m.(arrival := Jiffies(t))
    else m
  }

  lemma SqueezedNotBeforeNow(newTotal: nat, bw: nat, now: nat)
    requires bw > 0 && newTotal > bw * now
    ensures now <= newTotal / bw
    ensures (newTotal / bw) * bw <= newTotal < (newTotal / bw + 1) * bw
  {
    var q := newTotal / bw;
    assert newTotal == q * bw + newTotal % bw && newTotal % bw < bw;
    MulMonotone(q + 1, now, bw);
    assert (q + 1) * bw == q * bw + bw;
  }

  lemma MulMonotone(a: nat, b: nat, c: nat)
    ensures a <= b ==> a * c <= b * c
  {
    if a <= b {
      assert b * c == a * c + (b - a) * c;
    }
  }

  /**
   * A message moved out of the latency queue at the moment it arrives (the
   * clock stands at its arrival time) is never delivered earlier than that.
   */
  lemma SqueezeNeverEarlier<M>(m: RoutedMessage<M>, total: nat, bw: nat)
    requires bw > 0
    ensures Le(m.arrival, Squeeze(m, total, bw, m.arrival).arrival)
  {
  }

  /** Every message in `q` is addressed to a process below `n`. */
  predicate DestsBelow<M>(q: seq<RoutedMessage<M>>, n: nat) {
    forall j :: 0 <= j < |q| ==> q[j].dest < n
  }

  /** Every message in `q` was sent by a process below `n`. */
  predicate SourcesBelow<M>(q: seq<RoutedMessage<M>>, n: nat) {
    forall j :: 0 <= j < |q| ==> q[j].source < n
  }

  lemma DequeuedBelow<M>(q: seq<RoutedMessage<M>>, q': seq<RoutedMessage<M>>, m: RoutedMessage<M>, n: nat)
    requires Dequeued(q, q', m)
    ensures DestsBelow(q, n) ==> DestsBelow(q', n) && m.dest < n
    ensures SourcesBelow(q, n) ==> SourcesBelow(q', n) && m.source < n
  {
    var i: nat :| IsEarliest(q, i) && m == q[i] && q' == RemoveAt(q, i);
    assert forall j :: 0 <= j < |q'| ==> q'[j] == (if j < i then q[j] else q[j + 1]);
  }

  /** `totals` with `n` more bytes counted for process `d`. */
  function Credit(totals: seq<nat>, d: nat, n: nat): (t: seq<nat>)
    requires d < |totals|
    ensures |t| == |totals|
  {
    totals[d := totals[d] + n]
  }

  /** `totals` with `n` bytes taken off process `d`: the inverse of `Credit`. */
  function Debit(totals: seq<nat>, d: nat, n: nat): (t: seq<nat>)
    requires d < |totals| && n <= totals[d]
    ensures |t| == |totals| && Credit(t, d, n) == totals
  {
    totals[d := totals[d] - n]
  }

  /** Buffer sizes that count the bytes each sender has buffered keep doing so when a message joins. */
  lemma SizesAfterMove<M>(sizes: seq<nat>, b: seq<RoutedMessage<M>>, m: RoutedMessage<M>)
    requires m.source < |sizes|
    requires forall s :: 0 <= s < |sizes| ==> sizes[s] == SizeFrom(b, s)
    ensures forall s :: 0 <= s < |sizes| ==>
      Credit(sizes, m.source, m.message.size)[s] == SizeFrom(b + [m], s)
  {
    forall s | 0 <= s < |sizes|
      ensures Credit(sizes, m.source, m.message.size)[s] == SizeFrom(b + [m], s)
    {
      SizeFromConcat(b, [m], s);
      assert [m][..0] == [];
    }
  }

  /** ... and when one leaves; the sender's entry always covers the leaving message. */
  lemma SizesAfterDelivery<M>(sizes: seq<nat>, q: seq<RoutedMessage<M>>, q': seq<RoutedMessage<M>>, m: RoutedMessage<M>)
    requires Dequeued(q, q', m) && m.source < |sizes|
    requires forall s :: 0 <= s < |sizes| ==> sizes[s] == SizeFrom(q, s)
    ensures m.message.size <= sizes[m.source]
    ensures forall s :: 0 <= s < |sizes| ==>
      Debit(sizes, m.source, m.message.size)[s] == SizeFrom(q', s)
  {
    var i: nat :| IsEarliest(q, i) && m == q[i] && q' == RemoveAt(q, i);
    SizeFromRemoveAt(q, i, m.source);
    forall s | 0 <= s < |sizes|
      ensures Debit(sizes, m.source, m.message.size)[s] == SizeFrom(q', s)
    {
      SizeFromRemoveAt(q, i, s);
    }
  }

  function Sum(t: seq<nat>): nat
    decreases |t|
  {
    if t == [] then 0 else Sum(t[..|t| - 1]) + t[|t| - 1]
  }

  /** Totals that count the bytes delivered per destination keep doing so after one more delivery. */
  lemma TotalsAfterDelivery<M>(totals: seq<nat>, delivered: seq<RoutedMessage<M>>, m: RoutedMessage<M>)
    requires m.dest < |totals|
    requires forall d :: 0 <= d < |totals| ==> totals[d] == SizeTo(delivered, d)
    ensures forall d :: 0 <= d < |totals| ==>
      Credit(totals, m.dest, m.message.size)[d] == SizeTo(delivered + [m], d)
  {
    forall d | 0 <= d < |totals|
      ensures Credit(totals, m.dest, m.message.size)[d] == SizeTo(delivered + [m], d)
    {
      SizeToAppend(delivered, m, d);
    }
  }

  /** The latency queue is served when it has the earlier head, ties included. */
  predicate ServesLatency<M>(l: seq<RoutedMessage<M>>, b: seq<RoutedMessage<M>>) {
    l != [] && (b == [] || Le(MinArrival(l), MinArrival(b)))
  }

  /** `t` is the earliest arrival time in `l` and `b` together. */
  predicate IsClosest<M>(t: Jiffies, l: seq<RoutedMessage<M>>, b: seq<RoutedMessage<M>>) {
    (forall j :: 0 <= j < |l| ==> Le(t, l[j].arrival)) &&
    (forall j :: 0 <= j < |b| ==> Le(t, b[j].arrival)) &&
    ((exists j :: 0 <= j < |l| && l[j].arrival == t) || (exists j :: 0 <= j < |b| && b[j].arrival == t))
  }

  /** The head times of the two heaps merged as `peek_closest` / `PeekClosest` does: the earlier one. */
  method Closest<M>(l: Option<RoutedMessage<M>>, b: Option<RoutedMessage<M>>,
                    ls: seq<RoutedMessage<M>>, bs: seq<RoutedMessage<M>>) returns (r: Option<Jiffies>)
    requires l.None? <==> ls == []
    requires l.Some? ==> IsHead(ls, l.value)
    requires b.None? <==> bs == []
    requires b.Some? ==> IsHead(bs, b.value)
    ensures r.None? <==> ls == [] && bs == []
    ensures r.Some? ==> IsClosest(r.value, ls, bs)
  {
    match (l, b)
    case (None, None) => r := None;
    case (Some(m), None) => r := Some(m.arrival);
    case (None, Some(m)) => r := Some(m.arrival);
    case (Some(lm), Some(bm)) =>
      r := if Le(lm.arrival, bm.arrival) then Some(lm.arrival) else Some(bm.arrival);
  }

  /** Which heap `pop` serves, decided on the heads it peeks. */
  lemma ServesLatencyByHeads<M>(ls: seq<RoutedMessage<M>>, bs: seq<RoutedMessage<M>>,
                                l: Option<RoutedMessage<M>>, b: Option<RoutedMessage<M>>)
    requires l.None? <==> ls == []
    requires l.Some? ==> IsHead(ls, l.value)
    requires b.None? <==> bs == []
    requires b.Some? ==> IsHead(bs, b.value)
    ensures ServesLatency(ls, bs) <==> l.Some? && (b.None? || Le(l.value.arrival, b.value.arrival))
  {
    if l.Some? {
      var i: nat :| IsEarliest(ls, i) && l.value == ls[i];
      EarliestHasMinArrival(ls, i);
    }
    if b.Some? {
      var i: nat :| IsEarliest(bs, i) && b.value == bs[i];
      EarliestHasMinArrival(bs, i);
    }
  }

  /** `b` is `b0` with the head of `l0` appended after `adjust`, and `l` is `l0` without that head. */
  ghost predicate MovedHead<M>(l0: seq<RoutedMessage<M>>, l: seq<RoutedMessage<M>>,
                               b0: seq<RoutedMessage<M>>, b: seq<RoutedMessage<M>>,
                               adjust: RoutedMessage<M> -> RoutedMessage<M>) {
    exists i: nat :: IsEarliest(l0, i) && l == RemoveAt(l0, i) && b == b0 + [adjust(l0[i])]
  }

  /**
   * `dscale`: per-destination byte totals; with unbounded bandwidth a
   * message is handed out straight from the latency queue.
   */
  class BandwidthQueue<M> {
    const bandwidth: nat
    const global: LatencyQueue<M>
    const buffers: TimePriorityMessageQueue<M>
    var totalPassed: seq<nat>
    /** The messages handed out from the buffers so far. */
    ghost var delivered: seq<RoutedMessage<M>>

    /** Each destination's total is the byte count of what the buffers delivered to it. */
    ghost predicate Valid()
      reads this, buffers, global.queue
    {
      global.queue != buffers && bandwidth > 0 &&
      DestsBelow(global.queue.items, |totalPassed|) && DestsBelow(buffers.items, |totalPassed|) &&
      (forall d :: 0 <= d < |totalPassed| ==> totalPassed[d] == SizeTo(delivered, d))
    }

    /** How a message is adjusted on its way into the buffers, given the totals at that moment. */
    function Adjust(totals: seq<nat>, now: Jiffies): RoutedMessage<M> -> RoutedMessage<M>
    {
      (m: RoutedMessage<M>) => if bandwidth > 0 && m.dest < |totals| then Squeeze(m, totals[m.dest], bandwidth, now) else m
    }

    constructor (d: BandwidthDescription, procNum: nat, global: LatencyQueue<M>)
      requires BandwidthOf(d) > 0
      requires DestsBelow(global.queue.items, procNum + 1)
      ensures Valid() && fresh(buffers)
      ensures bandwidth == BandwidthOf(d) && this.global == global
      ensures totalPassed == seq(procNum + 1, _ => 0) && buffers.items == [] && delivered == []
    {
      bandwidth := BandwidthOf(d);
      this.global := global;
      buffers := new TimePriorityMessageQueue();
      totalPassed := seq(procNum + 1, _ => 0);
      delivered := [];
    }

    /** Every submitted message goes to the latency queue first. */
    method Push(m: RoutedMessage<M>, sample: nat) returns (r: Result<(), RouteError>)
      requires Valid() && m.dest < |totalPassed|
      modifies global.queue
      ensures Valid()
      ensures r.Ok? <==> (m.source, m.dest) in global.routes
      ensures r.Ok? ==> global.queue.items == old(global.queue.items) + [Delayed(m, sample)]
      ensures r.Err? ==> global.queue.items == old(global.queue.items)
    {
      r := global.Push(m, sample);
    }

    /** `peek_closest`: the earliest pending time, without changing anything. */
    method PeekClosest() returns (r: Option<Jiffies>)
      ensures r.None? <==> global.queue.items == [] && buffers.items == []
      ensures r.Some? ==> IsClosest(r.value, global.queue.items, buffers.items)
    {
      var l := global.Peek();
      var b := buffers.Peek();
      r := Closest(l, b, global.queue.items, buffers.items);
    }

    /**
     * `pop` at the clock's current time `now`: nothing when both heaps are
     * empty; otherwise the heap with the earlier head, ties going to the
     * latency queue, is served.
     */
    method Pop(now: Jiffies) returns (r: Option<RoutedMessage<M>>)
      requires Valid()
      modifies this, global.queue, buffers
      ensures Valid()
      ensures old(global.queue.items) == [] && old(buffers.items) == [] ==>
        r.None? && global.queue.items == [] && buffers.items == [] && totalPassed == old(totalPassed)
      ensures ServesLatency(old(global.queue.items), old(buffers.items)) && bandwidth == Decimal.USIZE_MAX ==>
        r.Some? && Dequeued(old(global.queue.items), global.queue.items, r.value) &&
        buffers.items == old(buffers.items) && totalPassed == old(totalPassed)
      ensures ServesLatency(old(global.queue.items), old(buffers.items)) && bandwidth != Decimal.USIZE_MAX ==>
        r.None? && totalPassed == old(totalPassed) &&
        MovedHead(old(global.queue.items), global.queue.items, old(buffers.items), buffers.items, Adjust(old(totalPassed), now))
      ensures !ServesLatency(old(global.queue.items), old(buffers.items)) && old(buffers.items) != [] ==>
        global.queue.items == old(global.queue.items) &&
        r.Some? && Dequeued(old(buffers.items), buffers.items, r.value) &&
        totalPassed == Credit(old(totalPassed), r.value.dest, r.value.message.size)
    {
      var l := global.Peek();
      var b := buffers.Peek();
      ServesLatencyByHeads(global.queue.items, buffers.items, l, b);
      if l.None? && b.None? {
        r := None;
      } else if l.Some? && (b.None? || Le(l.value.arrival, b.value.arrival)) {
        r := DeliverFromLatencyQueue(now);
      } else {
        r := DeliverFromBuffer();
      }
    }

    method DeliverFromLatencyQueue(now: Jiffies) returns (r: Option<RoutedMessage<M>>)
      requires Valid() && global.queue.items != []
      modifies this, global.queue, buffers
      ensures Valid()
      ensures bandwidth == Decimal.USIZE_MAX ==>
        r.Some? && Dequeued(old(global.queue.items), global.queue.items, r.value) &&
        buffers.items == old(buffers.items) && totalPassed == old(totalPassed)
      ensures bandwidth != Decimal.USIZE_MAX ==>
        r.None? && totalPassed == old(totalPassed) &&
        MovedHead(old(global.queue.items), global.queue.items, old(buffers.items), buffers.items, Adjust(old(totalPassed), now))
    {
      if bandwidth == Decimal.USIZE_MAX {
        r := global.Pop();
        DequeuedBelow(old(global.queue.items), global.queue.items, r.value, |totalPassed|);
      } else {
        MoveToBuffers(now);
        r := None;
      }
    }

    method MoveToBuffers(now: Jiffies)
      requires Valid() && global.queue.items != []
      modifies this, global.queue, buffers
      ensures Valid()
      ensures totalPassed == old(totalPassed) && delivered == old(delivered)
      ensures MovedHead(old(global.queue.items), global.queue.items, old(buffers.items), buffers.items, Adjust(old(totalPassed), now))
    {
      var p := global.Pop();
      var m := p.value;
      DequeuedBelow(old(global.queue.items), global.queue.items, m, |totalPassed|);
      ghost var i: nat :| IsEarliest(old(global.queue.items), i) && m == old(global.queue.items)[i] &&
        global.queue.items == RemoveAt(old(global.queue.items), i);
      buffers.Push(Squeeze(m, totalPassed[m.dest], bandwidth, now));
      assert buffers.items == old(buffers.items) + [Adjust(totalPassed, now)(old(global.queue.items)[i])];
    }

    method DeliverFromBuffer() returns (r: Option<RoutedMessage<M>>)
      requires Valid() && buffers.items != []
      modifies this, buffers
      ensures Valid()
      ensures r.Some? && Dequeued(old(buffers.items), buffers.items, r.value)
      ensures totalPassed == Credit(old(totalPassed), r.value.dest, r.value.message.size)
    {
      r := buffers.Pop();
      var m := r.value;
      DequeuedBelow(old(buffers.items), buffers.items, m, |totalPassed|);
      TotalsAfterDelivery(totalPassed, delivered, m);
      totalPassed := Credit(totalPassed, m.dest, m.message.size);
      delivered := delivered + [m];
    }
  }

  /**
   * `matrix`: like `dscale` but without the unbounded fast path; every
   * message passes through the buffers, unbounded ones with their arrival
   * time unchanged.
   */
  class MatrixBandwidthQueue<M> {
    const bandwidth: nat
    const global: LatencyQueue<M>
    const buffers: TimePriorityMessageQueue<M>
    var totalPassed: seq<nat>
    ghost var delivered: seq<RoutedMessage<M>>

    ghost predicate Valid()
      reads this, buffers, global.queue
    {
      global.queue != buffers && bandwidth > 0 && |totalPassed| > 0 &&
      DestsBelow(global.queue.items, |totalPassed|) && DestsBelow(buffers.items, |totalPassed|) &&
      (forall d :: 0 <= d < |totalPassed| ==> totalPassed[d] == SizeTo(delivered, d))
    }

    function Adjust(totals: seq<nat>, now: Jiffies): RoutedMessage<M> -> RoutedMessage<M>
    {
      (m: RoutedMessage<M>) =>
        if bandwidth == Decimal.USIZE_MAX then m
        else if bandwidth > 0 && m.dest < |totals| then Squeeze(m, totals[m.dest], bandwidth, now)
        else m
    }

    constructor (d: BandwidthDescription, procNum: nat, global: LatencyQueue<M>)
      requires BandwidthOf(d) > 0
      requires DestsBelow(global.queue.items, procNum + 1)
      ensures Valid() && fresh(buffers)
      ensures bandwidth == BandwidthOf(d) && this.global == global
      ensures totalPassed == seq(procNum + 1, _ => 0) && buffers.items == [] && delivered == []
    {
      bandwidth := BandwidthOf(d);
      this.global := global;
      buffers := new TimePriorityMessageQueue();
      totalPassed := seq(procNum + 1, _ => 0);
      delivered := [];
    }

    method Push(m: RoutedMessage<M>, sample: nat) returns (r: Result<(), RouteError>)
      requires Valid() && m.dest < |totalPassed|
      modifies global.queue
      ensures Valid()
      ensures r.Ok? <==> (m.source, m.dest) in global.routes
      ensures r.Ok? ==> global.queue.items == old(global.queue.items) + [Delayed(m, sample)]
      ensures r.Err? ==> global.queue.items == old(global.queue.items)
    {
      r := global.Push(m, sample);
    }

    /** `GetAvgTotalPasedBytes`: the mean of the per-process totals, rounded down. */
    function AvgTotalPassedBytes(): (r: nat)
      reads this, buffers, global.queue
      requires Valid()
      ensures r * |totalPassed| <= Sum(totalPassed) < (r + 1) * |totalPassed|
    {
      Sum(totalPassed) / |totalPassed|
    }

    method PeekClosest() returns (r: Option<Jiffies>)
      ensures r.None? <==> global.queue.items == [] && buffers.items == []
      ensures r.Some? ==> IsClosest(r.value, global.queue.items, buffers.items)
    {
      var l := global.Peek();
      var b := buffers.Peek();
      r := Closest(l, b, global.queue.items, buffers.items);
    }

    /** `Pop`: a message taken from the latency queue is only moved, and the call yields nothing. */
    method Pop(now: Jiffies) returns (r: Option<RoutedMessage<M>>)
      requires Valid()
      modifies this, global.queue, buffers
      ensures Valid()
      ensures old(global.queue.items) == [] && old(buffers.items) == [] ==>
        r.None? && global.queue.items == [] && buffers.items == [] && totalPassed == old(totalPassed)
      ensures ServesLatency(old(global.queue.items), old(buffers.items)) ==>
        r.None? && totalPassed == old(totalPassed) &&
        MovedHead(old(global.queue.items), global.queue.items, old(buffers.items), buffers.items, Adjust(old(totalPassed), now))
      ensures !ServesLatency(old(global.queue.items), old(buffers.items)) && old(buffers.items) != [] ==>
        global.queue.items == old(global.queue.items) &&
        r.Some? && Dequeued(old(buffers.items), buffers.items, r.value) &&
        totalPassed == Credit(old(totalPassed), r.value.dest, r.value.message.size)
    {
      var l := global.Peek();
      var b := buffers.Peek();
      ServesLatencyByHeads(global.queue.items, buffers.items, l, b);
      if l.None? && b.None? {
        r := None;
      } else if l.Some? && (b.None? || Le(l.value.arrival, b.value.arrival)) {
        MoveToBuffers(now);
        r := None;
      } else {
        r := DeliverFromBuffer();
      }
    }

    method MoveToBuffers(now: Jiffies)
      requires Valid() && global.queue.items != []
      modifies this, global.queue, buffers
      ensures Valid()
      ensures totalPassed == old(totalPassed) && delivered == old(delivered)
      ensures MovedHead(old(global.queue.items), global.queue.items, old(buffers.items), buffers.items, Adjust(old(totalPassed), now))
    {
      var p := global.Pop();
      var m := p.value;
      DequeuedBelow(old(global.queue.items), global.queue.items, m, |totalPassed|);
      ghost var i: nat :| IsEarliest(old(global.queue.items), i) && m == old(global.queue.items)[i] &&
        global.queue.items == RemoveAt(old(global.queue.items), i);
      if bandwidth == Decimal.USIZE_MAX {
        buffers.Push(m);
      } else {
        buffers.Push(Squeeze(m, totalPassed[m.dest], bandwidth, now));
      }
      assert buffers.items == old(buffers.items) + [Adjust(totalPassed, now)(old(global.queue.items)[i])];
    }

    method DeliverFromBuffer() returns (r: Option<RoutedMessage<M>>)
      requires Valid() && buffers.items != []
      modifies this, buffers
      ensures Valid()
      ensures r.Some? && Dequeued(old(buffers.items), buffers.items, r.value)
      ensures totalPassed == Credit(old(totalPassed), r.value.dest, r.value.message.size)
    {
      r := buffers.Pop();
      var m := r.value;
      DequeuedBelow(old(buffers.items), buffers.items, m, |totalPassed|);
      TotalsAfterDelivery(totalPassed, delivered, m);
      totalPassed := Credit(totalPassed, m.dest, m.message.size);
      delivered := delivered + [m];
    }
  }

  /** What the `simulator` queue's `pop` yields. */
  datatype PopOutcome<M> = ArrivedByLatency | Nothing | Delivered(m: RoutedMessage<M>)

  /** The arrival delay of a message that joins its sender's buffer, which then holds `buffered` bytes. */
  function BufferDelay<M>(m: RoutedMessage<M>, buffered: nat, bw: nat): (d: RoutedMessage<M>)
    requires bw > 0
    ensures d == m.(arrival := d.arrival) && Le(m.arrival, d.arrival)
    ensures buffered < bw ==> d == m
  {
    m.(arrival := AddTicks(m.arrival, buffered / bw))
  }

  /** `m` as it joins its sender's buffer, given the buffer sizes before it joins. */
  function JoinBuffer<M>(m: RoutedMessage<M>, sizes: seq<nat>, bw: nat): RoutedMessage<M>
  {
    if bw > 0 && m.source < |sizes| then BufferDelay(m, sizes[m.source] + m.message.size, bw) else m
  }

  /**
   * `simulator`: per-sender buffer sizes. A message moved into the buffers
   * adds its size to its sender's buffer and is delayed by the buffer size
   * over the bandwidth; delivering it takes the size off again.
   */
  class SimulatorBandwidthQueue<M> {
    const bandwidth: nat
    const global: UniformLatencyQueue<M>
    const buffers: TimePriorityMessageQueue<M>
    var bufferSizes: seq<nat>

    /** Each sender's buffer size is the byte count of its messages still waiting in the buffers. */
    ghost predicate Valid()
      reads this, buffers, global.queue
    {
      global.queue != buffers && bandwidth > 0 &&
      SourcesBelow(global.queue.items, |bufferSizes|) && SourcesBelow(buffers.items, |bufferSizes|) &&
      (forall s :: 0 <= s < |bufferSizes| ==> bufferSizes[s] == SizeFrom(buffers.items, s))
    }

    function Adjust(sizes: seq<nat>): RoutedMessage<M> -> RoutedMessage<M>
    {
      (m: RoutedMessage<M>) => JoinBuffer(m, sizes, bandwidth)
    }

    constructor (d: BandwidthDescription, procNum: nat, global: UniformLatencyQueue<M>)
      requires BandwidthOf(d) > 0
      requires SourcesBelow(global.queue.items, procNum + 1)
      ensures Valid() && fresh(buffers)
      ensures bandwidth == BandwidthOf(d) && this.global == global
      ensures bufferSizes == seq(procNum + 1, _ => 0) && buffers.items == []
    {
      bandwidth := BandwidthOf(d);
      this.global := global;
      buffers := new TimePriorityMessageQueue();
      bufferSizes := seq(procNum + 1, _ => 0);
    }

    method Push(m: RoutedMessage<M>, delay: nat)
      requires Valid() && m.source < |bufferSizes| && delay <= global.maxLatency.ticks
      modifies global.queue
      ensures Valid()
      ensures global.queue.items == old(global.queue.items) + [Delayed(m, delay)]
    {
      global.Push(m, delay);
    }

    /** `pop`: moving a message out of the latency queue is reported as `ArrivedByLatency`. */
    method Pop() returns (r: PopOutcome<M>)
      requires Valid()
      modifies this, global.queue, buffers
      ensures Valid()
      ensures |bufferSizes| == |old(bufferSizes)|
      ensures r.Nothing? <==> old(global.queue.items) == [] && old(buffers.items) == []
      ensures r.Nothing? ==> bufferSizes == old(bufferSizes) && global.queue.items == [] && buffers.items == []
      ensures ServesLatency(old(global.queue.items), old(buffers.items)) ==>
        r.ArrivedByLatency? &&
        MovedHead(old(global.queue.items), global.queue.items, old(buffers.items), buffers.items, Adjust(old(bufferSizes)))
      ensures !ServesLatency(old(global.queue.items), old(buffers.items)) && old(buffers.items) != [] ==>
        global.queue.items == old(global.queue.items) &&
        r.Delivered? && Dequeued(old(buffers.items), buffers.items, r.m) &&
        r.m.source < |old(bufferSizes)| && r.m.message.size <= old(bufferSizes)[r.m.source] &&
        bufferSizes == Debit(old(bufferSizes), r.m.source, r.m.message.size)
    {
      var l := global.Peek();
      var b := buffers.Peek();
      ServesLatencyByHeads(global.queue.items, buffers.items, l, b);
      if l.None? && b.None? {
        r := Nothing;
      } else if l.Some? && (b.None? || Le(l.value.arrival, b.value.arrival)) {
        MoveToBuffers();
        r := ArrivedByLatency;
      } else {
        r := DeliverFromBuffer();
      }
    }

    method MoveToBuffers()
      requires Valid() && global.queue.items != []
      modifies this, global.queue, buffers
      ensures Valid() && |bufferSizes| == |old(bufferSizes)|
      ensures MovedHead(old(global.queue.items), global.queue.items, old(buffers.items), buffers.items, Adjust(old(bufferSizes)))
    {
      var p := global.Pop();
      var m := p.value;
      DequeuedBelow(old(global.queue.items), global.queue.items, m, |bufferSizes|);
      ghost var i: nat :| IsEarliest(old(global.queue.items), i) && m == old(global.queue.items)[i] &&
        global.queue.items == RemoveAt(old(global.queue.items), i);
      var moved := JoinBuffer(m, bufferSizes, bandwidth);
      SizesAfterMove(bufferSizes, buffers.items, moved);
      buffers.Push(moved);
      bufferSizes := Credit(bufferSizes, m.source, m.message.size);
    }

    method DeliverFromBuffer() returns (r: PopOutcome<M>)
      requires Valid() && buffers.items != []
      modifies this, buffers
      ensures Valid()
      ensures r.Delivered? && Dequeued(old(buffers.items), buffers.items, r.m)
      ensures r.m.source < |old(bufferSizes)| && r.m.message.size <= old(bufferSizes)[r.m.source]
      ensures bufferSizes == Debit(old(bufferSizes), r.m.source, r.m.message.size)
    {
      var p := buffers.Pop();
      var m := p.value;
      DequeuedBelow(old(buffers.items), buffers.items, m, |bufferSizes|);
      SizesAfterDelivery(bufferSizes, old(buffers.items), buffers.items, m);
      bufferSizes := Debit(bufferSizes, m.source, m.message.size);
      r := Delivered(m);
    }
  }
}
