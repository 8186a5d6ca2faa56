/**
 * The latency queue: every submitted message is delayed by a latency
 * sample, then waits in a min-heap by arrival time.
 */
module Latency {
  import opened Wrappers
  import opened Jiffy
  import opened Message

  datatype RouteError = NoDistribution  // "No distr found"

  /** A message once the latency `delay` has been added to its arrival time. */
  function Delayed<M>(m: RoutedMessage<M>, delay: nat): (d: RoutedMessage<M>)
    ensures Le(m.arrival, d.arrival) && Sub(d.arrival, m.arrival) == Ok(Jiffies(delay))
    ensures d.source == m.source && d.dest == m.dest && d.message == m.message
  {
    m.(arrival := AddTicks(m.arrival, delay))
  }

  /**
   * `dscale`: the delay is drawn from the distribution the latency topology
   * gives the (source, destination) pair; `routes` are the pairs it covers and
   * `sample` is the drawn value.
   */
  class LatencyQueue<M> {
    const routes: set<(ProcessId, ProcessId)>
    const queue: TimePriorityMessageQueue<M>

    constructor (routes: set<(ProcessId, ProcessId)>)
      ensures this.routes == routes && queue.items == [] && fresh(queue)
    {
      this.routes := routes;
      queue := new TimePriorityMessageQueue();
    }

    method Push(m: RoutedMessage<M>, sample: nat) returns (r: Result<(), RouteError>)
      modifies queue
      ensures r.Ok? <==> (m.source, m.dest) in routes
      ensures r.Ok? ==> queue.items == old(queue.items) + [Delayed(m, sample)]
      ensures r.Err? ==> queue.items == old(queue.items)
    {
      if (m.source, m.dest) !in routes {
        return Err(NoDistribution);
      }
      queue.Push(Delayed(m, sample));
      return Ok(());
    }

    method Pop() returns (r: Option<RoutedMessage<M>>)
      modifies queue
      ensures r.None? <==> old(queue.items) == []
      ensures r.None? ==> queue.items == []
      ensures r.Some? ==> Dequeued(old(queue.items), queue.items, r.value)
    {
      r := queue.Pop();
    }

    method Peek() returns (r: Option<RoutedMessage<M>>)
      ensures r.None? <==> queue.items == []
      ensures r.Some? ==> IsHead(queue.items, r.value)
    {
      r := queue.Peek();
    }
  }

  /** `simulator`: the delay is drawn uniformly from `0..=max_latency`; `delay` is the drawn value. */
  class UniformLatencyQueue<M> {
    const maxLatency: Jiffies
    const queue: TimePriorityMessageQueue<M>

    constructor (maxLatency: Jiffies)
      ensures this.maxLatency == maxLatency && queue.items == [] && fresh(queue)
    {
      this.maxLatency := maxLatency;
      queue := new TimePriorityMessageQueue();
    }

    method Push(m: RoutedMessage<M>, delay: nat)
      requires delay <= maxLatency.ticks
      modifies queue
      ensures queue.items == old(queue.items) + [Delayed(m, delay)]
    {
      queue.Push(Delayed(m, delay));
    }

    method Pop() returns (r: Option<RoutedMessage<M>>)
      modifies queue
      ensures r.None? <==> old(queue.items) == []
      ensures r.None? ==> queue.items == []
      ensures r.Some? ==> Dequeued(old(queue.items), queue.items, r.value)
    {
      r := queue.Pop();
    }

    method Peek() returns (r: Option<RoutedMessage<M>>)
      ensures r.None? <==> queue.items == []
      ensures r.Some? ==> IsHead(queue.items, r.value)
    {
      r := queue.Peek();
    }
  }
}
