/**
 * The access objects through which a running process talks to the
 * simulation: sends and timer requests are buffered, tagged with the process
 * on execution, and drained to the network and timer actors after each step.
 */
module Access {
  import opened Wrappers
  import opened Jiffy
  import opened Message
  import opened Network
  import opened Timers
  import Tso

  /** The timer requests a process buffers for `delays`, under the consecutive ids from `first`. */
  function Requests(pid: ProcessId, first: nat, delays: seq<Jiffies>): (r: seq<TimerRequest>)
    ensures |r| == |delays|
    ensures forall i :: 0 <= i < |r| ==> r[i] == TimerRequest(pid, first + i, delays[i])
  {
    seq(|delays|, i requires 0 <= i < |delays| => TimerRequest(pid, first + i, delays[i]))
  }

  /** `dscale`'s `SimulationAccess`. */
  class DscaleAccess<M> {
    var processOnExecution: ProcessId
    var scheduledMessages: seq<Outgoing<M>>
    var scheduledTimers: seq<TimerRequest>
    const network: DscaleNetwork<M>
    const timers: TimerHeap

    /** `new`: no process on execution yet (id 0) and nothing buffered. */
    constructor (network: DscaleNetwork<M>, timers: TimerHeap)
      ensures processOnExecution == 0 && scheduledMessages == [] && scheduledTimers == []
      ensures this.network == network && this.timers == timers
    {
      processOnExecution := 0;
      scheduledMessages := [];
      scheduledTimers := [];
      this.network := network;
      this.timers := timers;
    }

    /** `list_pool`: the pool's members; an unknown pool name is an error ("Invalid pool name"). */
    function ListPool(name: string): (r: Result<seq<ProcessId>, SubmitError>)
      reads this, network
      ensures r.Ok? <==> name in network.pools
      ensures r.Ok? ==> r.value == network.pools[name]
    {
      if name in network.pools then Ok(network.pools[name]) else Err(InvalidPool)
    }

    /** `broadcast_within_pool`: buffers one send to the pool, from the process on execution. */
    method BroadcastWithinPool(pool: string, m: MessagePtr<M>)
      modifies this
      ensures scheduledMessages == old(scheduledMessages) + [Outgoing(processOnExecution, Destination.BroadcastWithinPool(pool), m)]
      ensures processOnExecution == old(processOnExecution) && scheduledTimers == old(scheduledTimers)
    {
      scheduledMessages := scheduledMessages + [Outgoing(processOnExecution, Destination.BroadcastWithinPool(pool), m)];
    }

    /** `broadcast`: a send within the global pool. */
    method Broadcast(m: MessagePtr<M>)
      modifies this
      ensures scheduledMessages == old(scheduledMessages) + [Outgoing(processOnExecution, Destination.BroadcastWithinPool(GLOBAL_POOL), m)]
      ensures processOnExecution == old(processOnExecution) && scheduledTimers == old(scheduledTimers)
    {
      BroadcastWithinPool(GLOBAL_POOL, m);
    }

    /** `send_to`: buffers one send to `to`. */
    method SendTo(to: ProcessId, m: MessagePtr<M>)
      modifies this
      ensures scheduledMessages == old(scheduledMessages) + [Outgoing(processOnExecution, Destination.To(to), m)]
      ensures processOnExecution == old(processOnExecution) && scheduledTimers == old(scheduledTimers)
    {
      scheduledMessages := scheduledMessages + [Outgoing(processOnExecution, Destination.To(to), m)];
    }

    /**
     * `send_random_from_pool`: a send to the pool member at `choice`, the
     * index the random generator picks. An unknown pool or an empty one is an
     * error, and nothing is buffered.
     */
    method SendRandomFromPool(pool: string, m: MessagePtr<M>, choice: nat) returns (r: Result<ProcessId, SubmitError>)
      modifies this
      ensures r.Ok? <==> pool in network.pools && choice < |network.pools[pool]|
      ensures r.Ok? ==> (r.value == network.pools[pool][choice] &&
        scheduledMessages == old(scheduledMessages) + [Outgoing(processOnExecution, Destination.To(r.value), m)])
      ensures r.Err? ==> scheduledMessages == old(scheduledMessages)
      ensures processOnExecution == old(processOnExecution) && scheduledTimers == old(scheduledTimers)
    {
      var listing := ListPool(pool);
      if listing.Err? || choice >= |listing.value| {
        return Err(InvalidPool);
      }
      var target := listing.value[choice];
      SendTo(target, m);
      r := Ok(target);
    }

    /** `schedule_timer_after`: buffers a timer under a fresh id from the oracle, and returns that id. */
    method ScheduleTimerAfter(after: Jiffies, tso: Tso.Tso) returns (id: nat)
      modifies this, tso
      ensures id == old(tso.counter) && tso.counter == id + 1
      ensures scheduledTimers == old(scheduledTimers) + [TimerRequest(processOnExecution, id, after)]
      ensures processOnExecution == old(processOnExecution) && scheduledMessages == old(scheduledMessages)
    {
      id := tso.GlobalUniqueId();
      scheduledTimers := scheduledTimers + [TimerRequest(processOnExecution, id, after)];
    }

    /**
     * `drain`: each buffer goes to its actor only when it holds something, and
     * is left empty. A send the network refuses ends the drain with that error.
     */
    method Drain(now: Jiffies, draw: nat -> nat) returns (r: Result<(), SubmitError>)
      requires network.Valid()
      modifies this, network.queue.global.queue, timers
      ensures network.Valid() && processOnExecution == old(processOnExecution)
      ensures old(scheduledMessages) == [] ==> network.queue.global.queue.items == old(network.queue.global.queue.items)
      ensures r.Ok? ==> (network.queue.global.queue.items == old(network.queue.global.queue.items) +
        Delay(Expand(old(scheduledMessages), |old(scheduledMessages)|, network.procs, network.pools, now), draw, 0))
      ensures r.Ok? ==> timers.entries == old(timers.entries) + Scheduled(old(scheduledTimers), now)
      ensures r.Ok? ==> scheduledMessages == [] && scheduledTimers == []
    {
      if scheduledMessages != [] {
        r := network.Submit(scheduledMessages, now, draw);
        scheduledMessages := [];
        if r.Err? {
          return;
        }
      }
      if scheduledTimers != [] {
        timers.Submit(scheduledTimers, now);
        scheduledTimers := [];
      }
      r := Ok(());
    }

    /**
     * One process callback's calls, as buffered: its sends in order, and its
     * timers in order, each under the next id the oracle hands out.
     */
    method Record(sends: seq<(Destination, MessagePtr<M>)>, delays: seq<Jiffies>, tso: Tso.Tso)
      modifies this, tso
      ensures scheduledMessages == old(scheduledMessages) + Sends(processOnExecution, sends)
      ensures scheduledTimers == old(scheduledTimers) + Requests(processOnExecution, old(tso.counter), delays)
      ensures tso.counter == old(tso.counter) + |delays| && processOnExecution == old(processOnExecution)
    {
      scheduledMessages := scheduledMessages + Sends(processOnExecution, sends);
      for i := 0 to |delays|
        invariant tso.counter == old(tso.counter) + i && processOnExecution == old(processOnExecution)
        invariant scheduledMessages == old(scheduledMessages) + Sends(processOnExecution, sends)
        invariant scheduledTimers == old(scheduledTimers) + Requests(processOnExecution, old(tso.counter), delays[..i])
      {
        var id := ScheduleTimerAfter(delays[i], tso);
        assert Requests(processOnExecution, old(tso.counter), delays[..i + 1]) ==
          Requests(processOnExecution, old(tso.counter), delays[..i]) + [TimerRequest(processOnExecution, id, delays[i])];
      }
      assert delays[..|delays|] == delays;
    }

    /** `set_process`: the process whose callback runs next. */
    method SetProcess(id: ProcessId)
      modifies this
      ensures processOnExecution == id
      ensures scheduledMessages == old(scheduledMessages) && scheduledTimers == old(scheduledTimers)
    {
      processOnExecution := id;
    }

    /** `rank`: the id last given to `set_process`. */
    function Rank(): (r: ProcessId)
      reads this
      ensures r == processOnExecution
    {
      processOnExecution
    }
  }

  /** `matrix`'s `SimulationAccess`: the same buffers, drained unconditionally. */
  class MatrixAccess<M> {
    var processOnExecution: ProcessId
    var scheduledMessages: seq<Outgoing<M>>
    var scheduledTimers: seq<TimerRequest>
    const network: MatrixNetwork<M>
    const timers: TimerHeap

    constructor (network: MatrixNetwork<M>, timers: TimerHeap)
      ensures processOnExecution == 0 && scheduledMessages == [] && scheduledTimers == []
      ensures this.network == network && this.timers == timers
    {
      processOnExecution := 0;
      scheduledMessages := [];
      scheduledTimers := [];
      this.network := network;
      this.timers := timers;
    }

    /** `ListPool`: the pool's members; an unknown pool is an error ("Pool does not exist"). */
    function ListPool(name: string): (r: Result<seq<ProcessId>, SubmitError>)
      reads this, network
      ensures r.Ok? <==> name in network.pools
      ensures r.Ok? ==> r.value == network.pools[name]
    {
      if name in network.pools then Ok(network.pools[name]) else Err(InvalidPool)
    }

    method BroadcastWithinPool(pool: string, m: MessagePtr<M>)
      modifies this
      ensures scheduledMessages == old(scheduledMessages) + [Outgoing(processOnExecution, Destination.BroadcastWithinPool(pool), m)]
      ensures processOnExecution == old(processOnExecution) && scheduledTimers == old(scheduledTimers)
    {
      scheduledMessages := scheduledMessages + [Outgoing(processOnExecution, Destination.BroadcastWithinPool(pool), m)];
    }

    /** `Broadcast`: a send to every process (the `Broadcast` destination, not a pool). */
    method Broadcast(m: MessagePtr<M>)
      modifies this
      ensures scheduledMessages == old(scheduledMessages) + [Outgoing(processOnExecution, Destination.Broadcast, m)]
      ensures processOnExecution == old(processOnExecution) && scheduledTimers == old(scheduledTimers)
    {
      scheduledMessages := scheduledMessages + [Outgoing(processOnExecution, Destination.Broadcast, m)];
    }

    method SendTo(to: ProcessId, m: MessagePtr<M>)
      modifies this
      ensures scheduledMessages == old(scheduledMessages) + [Outgoing(processOnExecution, Destination.To(to), m)]
      ensures processOnExecution == old(processOnExecution) && scheduledTimers == old(scheduledTimers)
    {
      scheduledMessages := scheduledMessages + [Outgoing(processOnExecution, Destination.To(to), m)];
    }

    method ScheduleTimerAfter(after: Jiffies, tso: Tso.Tso) returns (id: nat)
      modifies this, tso
      ensures id == old(tso.counter) && tso.counter == id + 1
      ensures scheduledTimers == old(scheduledTimers) + [TimerRequest(processOnExecution, id, after)]
      ensures processOnExecution == old(processOnExecution) && scheduledMessages == old(scheduledMessages)
    {
      id := tso.GlobalUniqueId();
      scheduledTimers := scheduledTimers + [TimerRequest(processOnExecution, id, after)];
    }

    /** `Drain`: both buffers go to their actors every time, and are left empty. */
    method Drain(now: Jiffies, draw: nat -> nat) returns (r: Result<(), SubmitError>)
      requires network.Valid()
      modifies this, network.queue.global.queue, timers
      ensures network.Valid() && processOnExecution == old(processOnExecution)
      ensures r.Ok? ==> (network.queue.global.queue.items == old(network.queue.global.queue.items) +
        Delay(Expand(old(scheduledMessages), |old(scheduledMessages)|, network.procs, network.pools, now), draw, 0))
      ensures r.Ok? ==> timers.entries == old(timers.entries) + Scheduled(old(scheduledTimers), now)
      ensures r.Ok? ==> scheduledMessages == [] && scheduledTimers == []
    {
      r := network.SubmitMessages(scheduledMessages, now, draw);
      scheduledMessages := [];
      if r.Err? {
        return;
      }
      timers.Submit(scheduledTimers, now);
      scheduledTimers := [];
    }

    /**
     * One process callback's calls, as buffered: its sends in order, and its
     * timers in order, each under the next id the oracle hands out.
     */
    method Record(sends: seq<(Destination, MessagePtr<M>)>, delays: seq<Jiffies>, tso: Tso.Tso)
      modifies this, tso
      ensures scheduledMessages == old(scheduledMessages) + Sends(processOnExecution, sends)
      ensures scheduledTimers == old(scheduledTimers) + Requests(processOnExecution, old(tso.counter), delays)
      ensures tso.counter == old(tso.counter) + |delays| && processOnExecution == old(processOnExecution)
    {
      scheduledMessages := scheduledMessages + Sends(processOnExecution, sends);
      for i := 0 to |delays|
        invariant tso.counter == old(tso.counter) + i && processOnExecution == old(processOnExecution)
        invariant scheduledMessages == old(scheduledMessages) + Sends(processOnExecution, sends)
        invariant scheduledTimers == old(scheduledTimers) + Requests(processOnExecution, old(tso.counter), delays[..i])
      {
        var id := ScheduleTimerAfter(delays[i], tso);
        assert Requests(processOnExecution, old(tso.counter), delays[..i + 1]) ==
          Requests(processOnExecution, old(tso.counter), delays[..i]) + [TimerRequest(processOnExecution, id, delays[i])];
      }
      assert delays[..|delays|] == delays;
    }

    method SetProcess(id: ProcessId)
      modifies this
      ensures processOnExecution == id
      ensures scheduledMessages == old(scheduledMessages) && scheduledTimers == old(scheduledTimers)
    {
      processOnExecution := id;
    }

    /** `CurrentId`: the id last given to `SetProcess`. */
    function CurrentId(): (r: ProcessId)
      reads this
      ensures r == processOnExecution
    {
      processOnExecution
    }
  }

  /**
   * `simulator`'s `SimulationAccess`, handed to a process for one callback:
   * it only collects sends, and knows the time the callback runs at.
   */
  class SimulatorAccess<M> {
    var scheduledEvents: seq<(Destination, MessagePtr<M>)>
    const currentTime: Jiffies

    constructor (currentTime: Jiffies)
      ensures scheduledEvents == [] && this.currentTime == currentTime
    {
      scheduledEvents := [];
      this.currentTime := currentTime;
    }

    method Broadcast(m: MessagePtr<M>)
      modifies this
      ensures scheduledEvents == old(scheduledEvents) + [(Destination.Broadcast, m)]
    {
      scheduledEvents := scheduledEvents + [(Destination.Broadcast, m)];
    }

    method SendTo(to: ProcessId, m: MessagePtr<M>)
      modifies this
      ensures scheduledEvents == old(scheduledEvents) + [(Destination.To(to), m)]
    {
      scheduledEvents := scheduledEvents + [(Destination.To(to), m)];
    }

    method SendSelf(m: MessagePtr<M>)
      modifies this
      ensures scheduledEvents == old(scheduledEvents) + [(Destination.SendSelf, m)]
    {
      scheduledEvents := scheduledEvents + [(Destination.SendSelf, m)];
    }

    /** `CurrentTime`: the time given at construction. */
    function CurrentTime(): (r: Jiffies)
      reads this
      ensures r == currentTime
    {
      currentTime
    }
  }

  /** `simulator`'s `OutgoingMessages`: a plain list of (destination, message). */
  class OutgoingMessages<M> {
    var sends: seq<(Destination, MessagePtr<M>)>

    constructor ()
      ensures sends == []
    {
      sends := [];
    }

    method Broadcast(m: MessagePtr<M>)
      modifies this
      ensures sends == old(sends) + [(Destination.Broadcast, m)]
    {
      sends := sends + [(Destination.Broadcast, m)];
    }

    method SendTo(to: ProcessId, m: MessagePtr<M>)
      modifies this
      ensures sends == old(sends) + [(Destination.To(to), m)]
    {
      sends := sends + [(Destination.To(to), m)];
    }

    method SendSelf(m: MessagePtr<M>)
      modifies this
      ensures sends == old(sends) + [(Destination.SendSelf, m)]
    {
      sends := sends + [(Destination.SendSelf, m)];
    }
  }
}
