/**
 * The run loops of `dscale` and `matrix`: pick the actor (network, then
 * timers) with the earliest pending event, move the clock forward to it, let
 * it step, let the woken process react, and drain what it buffered.
 *
 * A process's callbacks are not part of this model; what a process does when
 * woken is given as a `Reaction` (the messages it sends and the delays of the
 * timers it schedules), one per step, so any process behaviour is covered.
 */
module Simulation {
  import opened Wrappers
  import opened Jiffy
  import opened Message
  import opened Bandwidth
  import opened Network
  import opened Timers
  import opened Access
  import Decimal
  import Clock
  import Tso

  /** What a woken process buffers: its sends, and the delays of its timers. */
  datatype Reaction<M> = Reaction(sends: seq<(Destination, MessagePtr<M>)>, timers: seq<Jiffies>)

  /** What `pid`'s sends put on the latency queue when drained at `now`: expanded per target, then delayed. */
  function Queued<M>(pid: ProcessId, sends: seq<(Destination, MessagePtr<M>)>, procs: seq<ProcessId>,
                     pools: map<string, seq<ProcessId>>, now: Jiffies, draw: nat -> nat): seq<RoutedMessage<M>>
  {
    var out := Sends(pid, sends);
    Delay(Expand(out, |out|, procs, pools, now), draw, 0)
  }

  /**
   * Among the actors from `k` on, `i` holds the earliest pending time `t`,
   * and no actor before it has a time as early: the first actor wins ties.
   */
  predicate EarliestAmong(times: seq<Option<Jiffies>>, k: nat, t: Jiffies, i: nat) {
    k <= i < |times| && times[i] == Some(t) &&
    (forall j :: k <= j < i ==> times[j].None? || Lt(t, times[j].value)) &&
    (forall j :: i < j < |times| ==> times[j].None? || Le(t, times[j].value))
  }

  predicate IsFirstEarliest(times: seq<Option<Jiffies>>, t: Jiffies, i: nat) {
    EarliestAmong(times, 0, t, i)
  }

  /** The earliest time and the actor that holds it are determined by the actors' times. */
  lemma FirstEarliestUnique(times: seq<Option<Jiffies>>, t: Jiffies, i: nat, u: Jiffies, k: nat)
    requires IsFirstEarliest(times, t, i) && IsFirstEarliest(times, u, k)
    ensures t == u && i == k
  {
  }

  /**
   * `matrix`'s `PeekClosest`: the minimum over the actors that have a next
   * time, the first one on ties (`min_by_key`), among the actors from `k` on.
   */
  function EarliestFrom(times: seq<Option<Jiffies>>, k: nat): (r: Option<(Jiffies, nat)>)
    requires k <= |times|
    ensures r.None? <==> forall j :: k <= j < |times| ==> times[j].None?
    ensures r.Some? ==> EarliestAmong(times, k, r.value.0, r.value.1)
    decreases |times| - k
  {
    if k == |times| then None
    else
      var rest := EarliestFrom(times, k + 1);
      match times[k]
      case None => rest
      case Some(t) => if rest.Some? && Lt(rest.value.0, t) then rest else Some((t, k))
  }

  /**
   * `dscale`'s `peek_closest`: a scan that starts from `usize::MAX` and takes
   * an actor only when its time is strictly earlier than the best so far, so
   * the first actor wins ties, and a time of `usize::MAX` or more is never
   * taken.
   */
  method PeekClosestScan(times: seq<Option<Jiffies>>) returns (r: Option<(Jiffies, nat)>)
    ensures r.Some? ==> IsFirstEarliest(times, r.value.0, r.value.1) && r.value.0.ticks < Decimal.USIZE_MAX
    ensures r.None? <==> forall j :: 0 <= j < |times| ==> times[j].None? || times[j].value.ticks >= Decimal.USIZE_MAX
  {
    var minTime := Jiffies(Decimal.USIZE_MAX);
    var sha: Option<nat> := None;
    for k := 0 to |times|
      invariant sha.None? ==> (minTime == Jiffies(Decimal.USIZE_MAX) &&
        forall j :: 0 <= j < k ==> times[j].None? || times[j].value.ticks >= Decimal.USIZE_MAX)
      invariant sha.Some? ==> (sha.value < k && minTime.ticks < Decimal.USIZE_MAX &&
        times[sha.value] == Some(minTime) &&
        (forall j :: 0 <= j < sha.value ==> times[j].None? || Lt(minTime, times[j].value)) &&
        (forall j :: sha.value < j < k ==> times[j].None? || Le(minTime, times[j].value)))
    {
      if times[k].Some? && Lt(times[k].value, minTime) {
        minTime := times[k].value;
        sha := Some(k);
      }
    }
    if sha.None? {
      return None;
    }
    r := Some((minTime, sha.value));
  }

  /**
   * Whatever `dscale`'s scan picks, `matrix`'s `min_by_key` picks too: the
   * first actor with the earliest time.
   */
  lemma SelectionsAgree(times: seq<Option<Jiffies>>, t: Jiffies, i: nat)
    requires IsFirstEarliest(times, t, i)
    ensures EarliestFrom(times, 0) == Some((t, i))
  {
    var r := EarliestFrom(times, 0);
    assert r.Some?;
    FirstEarliestUnique(times, t, i, r.value.0, r.value.1);
  }

  /** The sends the processes buffer on start, in the order they start. */
  function BootSends<M>(procs: seq<ProcessId>, boot: ProcessId -> Reaction<M>): (r: seq<Outgoing<M>>)
  {
    if procs == [] then [] else BootSends(procs[..|procs| - 1], boot) + Sends(procs[|procs| - 1], boot(procs[|procs| - 1]).sends)
  }

  /** The timers the processes request on start, numbered on from `first` in the order they start. */
  function BootTimers<M>(procs: seq<ProcessId>, boot: ProcessId -> Reaction<M>, first: nat): (r: seq<TimerRequest>)
  {
    if procs == [] then []
    else
      var earlier := BootTimers(procs[..|procs| - 1], boot, first);
      earlier + Requests(procs[|procs| - 1], first + |earlier|, boot(procs[|procs| - 1]).timers)
  }

  /** Every send buffered on start comes from a process that was started. */
  lemma {:induction false} BootSendsFromStarted<M>(procs: seq<ProcessId>, boot: ProcessId -> Reaction<M>)
    ensures forall i :: 0 <= i < |BootSends(procs, boot)| ==> BootSends(procs, boot)[i].source in procs
  {
    if procs != [] {
      var init, last := procs[..|procs| - 1], procs[|procs| - 1];
      BootSendsFromStarted(init, boot);
      var a: seq<Outgoing<M>>, b: seq<Outgoing<M>> := BootSends(init, boot), Sends(last, boot(last).sends);
      forall i | 0 <= i < |a + b| ensures (a + b)[i].source in procs {
        if i < |a| {
          assert (a + b)[i] == a[i] && a[i].source in init;
        } else {
          assert (a + b)[i] == b[i - |a|];
        }
      }
    }
  }

  /**
   * The timers requested on start get the ids `first`, `first + 1`, ... in
   * the order they are requested, so no two share an id, and each belongs to
   * a started process.
   */
  lemma {:induction false} BootTimerIdsInOrder<M>(procs: seq<ProcessId>, boot: ProcessId -> Reaction<M>, first: nat)
    ensures forall i :: 0 <= i < |BootTimers(procs, boot, first)| ==>
      BootTimers(procs, boot, first)[i].tid == first + i && BootTimers(procs, boot, first)[i].pid in procs
  {
    if procs != [] {
      var init, last := procs[..|procs| - 1], procs[|procs| - 1];
      BootTimerIdsInOrder(init, boot, first);
      var a: seq<TimerRequest> := BootTimers(init, boot, first);
      var b: seq<TimerRequest> := Requests(last, first + |a|, boot(last).timers);
      forall i | 0 <= i < |a + b| ensures (a + b)[i].tid == first + i && (a + b)[i].pid in procs {
        if i < |a| {
          assert (a + b)[i] == a[i] && a[i].pid in init;
        } else {
          assert (a + b)[i] == b[i - |a|];
        }
      }
    }
  }

  /** The timer taken out is due at the earliest timer time. */
  lemma FiredIsDue(t0: seq<TimerEntry>, e: TimerEntry, future: Jiffies)
    requires IsMinEntry(t0, e) && exists j :: 0 <= j < |t0| && t0[j].at == future
    requires forall j :: 0 <= j < |t0| ==> Le(future, t0[j].at)
    ensures e.at == future
  {
    var j :| 0 <= j < |t0| && t0[j].at == future;
    assert KeyLe(e, t0[j]);
    var k :| 0 <= k < |t0| && t0[k] == e;
  }

  /** What one step of the run loop did. */
  datatype Outcome<M> =
    | Deadlock                           // no actor has an event: "DEADLOCK!"
    | Moved                              // the network moved a message into the buffers; no process woke
    | Delivered(m: RoutedMessage<M>)     // `m` went to its destination
    | Fired(e: TimerEntry)               // the timer `e` went to its process
    | NoSuchProcess(pid: ProcessId)      // "Invalid ProcessId"
    | Refused(err: SubmitError)          // a buffered send the network could not route

  /** How a run ended. */
  datatype RunOutcome<M> = Finished | Deadlocked | Crashed(o: Outcome<M>) | OutOfFuel

  /** `dscale`'s `Simulation`: the network actor, then the timer actor. */
  class DscaleSimulation<M> {
    const network: DscaleNetwork<M>
    const timers: TimerHeap
    const access: DscaleAccess<M>
    const clock: Clock.Clock
    const tso: Tso.Tso
    const timeBudget: Jiffies

    /** The access buffers are empty between steps, and nothing pending is due before the clock. */
    ghost predicate Valid()
      reads this, network, network.queue, network.queue.buffers, network.queue.global.queue, timers, access, clock
    {
      network.Valid() && access.network == network && access.timers == timers &&
      access.scheduledMessages == [] && access.scheduledTimers == [] &&
      NotBefore(network.queue.global.queue.items, clock.now) &&
      NotBefore(network.queue.buffers.items, clock.now) &&
      DueNotBefore(timers.entries, clock.now)
    }

    /** No pending event of either actor is due before `t`. */
    ghost predicate NothingDueBefore(t: Jiffies)
      reads network, network.queue, network.queue.buffers, network.queue.global.queue, timers
    {
      NotBefore(network.queue.global.queue.items, t) && NotBefore(network.queue.buffers.items, t) &&
      DueNotBefore(timers.entries, t)
    }

    constructor (network: DscaleNetwork<M>, timers: TimerHeap, access: DscaleAccess<M>, clock: Clock.Clock,
                 tso: Tso.Tso, timeBudget: Jiffies)
      requires network.Valid() && access.network == network && access.timers == timers
      requires access.scheduledMessages == [] && access.scheduledTimers == []
      requires NotBefore(network.queue.global.queue.items, clock.now) && NotBefore(network.queue.buffers.items, clock.now)
      requires DueNotBefore(timers.entries, clock.now)
      ensures Valid()
      ensures this.network == network && this.timers == timers && this.access == access
      ensures this.clock == clock && this.tso == tso && this.timeBudget == timeBudget
    {
      this.network := network;
      this.timers := timers;
      this.access := access;
      this.clock := clock;
      this.tso := tso;
      this.timeBudget := timeBudget;
    }

    /**
     * The woken process `pid` reacts, and what it buffered is drained at
     * `now`; the network refusing a send ends the step.
     */
    method React(pid: ProcessId, react: Reaction<M>, draw: nat -> nat) returns (ok: Result<(), SubmitError>)
      requires network.Valid() && access.network == network && access.timers == timers
      requires access.scheduledMessages == [] && access.scheduledTimers == []
      requires NothingDueBefore(clock.now)
      modifies access, tso, network.queue.global.queue, timers
      ensures ok.Ok? ==> Valid()
      ensures tso.counter == old(tso.counter) + |react.timers|
      ensures ok.Ok? ==> (network.queue.global.queue.items ==
        old(network.queue.global.queue.items) + Queued(pid, react.sends, network.procs, network.pools, clock.now, draw))
      ensures ok.Ok? ==> timers.entries == old(timers.entries) + Scheduled(Requests(pid, old(tso.counter), react.timers), clock.now)
    {
      access.SetProcess(pid);
      access.Record(react.sends, react.timers, tso);
      assert access.scheduledMessages == Sends(pid, react.sends);
      assert access.scheduledTimers == Requests(pid, old(tso.counter), react.timers);
      ghost var l0, t0 := network.queue.global.queue.items, timers.entries;
      ghost var sends, reqs := access.scheduledMessages, access.scheduledTimers;
      ok := access.Drain(clock.now, draw);
      if ok.Ok? {
        ExpandNotBefore(sends, |sends|, network.procs, network.pools, clock.now);
        DelayNotBefore(Expand(sends, |sends|, network.procs, network.pools, clock.now), draw, 0, clock.now);
        NotBeforeConcat(l0, Delay(Expand(sends, |sends|, network.procs, network.pools, clock.now), draw, 0), clock.now);
        ScheduledNotBefore(reqs, clock.now);
        DueNotBeforeConcat(t0, Scheduled(reqs, clock.now), clock.now);
      }
    }

    /**
     * `step`: the actor with the earliest pending event (the network on
     * ties) steps at that time, which is never before the clock; a woken
     * process reacts with `react`, drawing latencies from `draw`.
     */
    method Step(react: Reaction<M>, draw: nat -> nat) returns (r: Outcome<M>)
      requires Valid()
      modifies clock, network.queue, network.queue.global.queue, network.queue.buffers, timers, access, tso
      ensures Le(old(clock.now), clock.now)
      ensures r.Deadlock? <==> old(NothingDueBefore(Jiffies(Decimal.USIZE_MAX)))
      ensures r.Deadlock? ==> clock.now == old(clock.now) && NothingDueBefore(Jiffies(Decimal.USIZE_MAX))
      ensures r.Delivered? ==> (clock.now == r.m.arrival && r.m.dest in network.procs &&
        IsClosest(r.m.arrival, old(network.queue.global.queue.items), old(network.queue.buffers.items)))
      ensures r.Fired? ==> clock.now == r.e.at && IsMinEntry(old(timers.entries), r.e) && r.e.pid in network.procs
      ensures r.Fired? || r.Delivered? ==> tso.counter == old(tso.counter) + |react.timers|
      ensures r.Deadlock? || r.Moved? || r.Delivered? || r.Fired? ==> Valid()
      ensures r.Moved? ==> (
        MovedHead(old(network.queue.global.queue.items), network.queue.global.queue.items,
                  old(network.queue.buffers.items), network.queue.buffers.items,
                  network.queue.Adjust(old(network.queue.totalPassed), clock.now)) &&
        timers.entries == old(timers.entries) && tso.counter == old(tso.counter))
      ensures r.Delivered? ==> exists l1 ::
        network.queue.global.queue.items ==
          l1 + Queued(r.m.dest, react.sends, network.procs, network.pools, clock.now, draw) &&
        ((Dequeued(old(network.queue.global.queue.items), l1, r.m) && network.queue.buffers.items == old(network.queue.buffers.items)) ||
         (l1 == old(network.queue.global.queue.items) && Dequeued(old(network.queue.buffers.items), network.queue.buffers.items, r.m)))
      ensures r.Delivered? ==> timers.entries == old(timers.entries) + Scheduled(Requests(r.m.dest, old(tso.counter), react.timers), clock.now)
      ensures r.Fired? ==> (network.queue.buffers.items == old(network.queue.buffers.items) &&
        network.queue.global.queue.items ==
          old(network.queue.global.queue.items) + Queued(r.e.pid, react.sends, network.procs, network.pools, clock.now, draw) &&
        multiset(timers.entries) == multiset(old(timers.entries)) - multiset{r.e} +
          multiset(Scheduled(Requests(r.e.pid, old(tso.counter), react.timers), clock.now)))
    {
      var nt := network.PeekClosest();
      var tt := timers.PeekClosest();
      var pick := PeekClosestScan([nt, tt]);
      if pick.None? {
        NothingDueAtOrAfterMax(nt, tt);
        return Outcome.Deadlock;
      }
      var future := pick.value.0;
      PickedIsDue(nt, tt, future, pick.value.1);
      assert NothingDueBefore(future) && Le(clock.now, future);
      clock.FastForward(future);
      if pick.value.1 == 0 {
        r := NetworkTurn(react, draw);
      } else {
        r := TimerTurn(react, draw);
      }
    }

    /**
     * The network actor's turn, the clock already at its closest time: one
     * network step, and a delivered message wakes its destination, whose
     * reaction is drained at that time.
     */
    method NetworkTurn(react: Reaction<M>, draw: nat -> nat) returns (r: Outcome<M>)
      requires Valid() && IsClosest(clock.now, network.queue.global.queue.items, network.queue.buffers.items)
      modifies network.queue, network.queue.global.queue, network.queue.buffers, timers, access, tso
      ensures r.Moved? || r.Delivered? || r.NoSuchProcess? || r.Refused?
      ensures r.Moved? || r.Delivered? ==> Valid()
      ensures r.Moved? ==> (
        MovedHead(old(network.queue.global.queue.items), network.queue.global.queue.items,
                  old(network.queue.buffers.items), network.queue.buffers.items,
                  network.queue.Adjust(old(network.queue.totalPassed), clock.now)) &&
        timers.entries == old(timers.entries) && tso.counter == old(tso.counter))
      ensures r.Delivered? ==> (r.m.arrival == clock.now && r.m.dest in network.procs &&
        IsClosest(r.m.arrival, old(network.queue.global.queue.items), old(network.queue.buffers.items)) &&
        tso.counter == old(tso.counter) + |react.timers|)
      ensures r.Delivered? ==> exists l1 ::
        network.queue.global.queue.items ==
          l1 + Queued(r.m.dest, react.sends, network.procs, network.pools, clock.now, draw) &&
        ((Dequeued(old(network.queue.global.queue.items), l1, r.m) && network.queue.buffers.items == old(network.queue.buffers.items)) ||
         (l1 == old(network.queue.global.queue.items) && Dequeued(old(network.queue.buffers.items), network.queue.buffers.items, r.m)))
      ensures r.Delivered? ==> timers.entries == old(timers.entries) + Scheduled(Requests(r.m.dest, old(tso.counter), react.timers), clock.now)
    {
      ghost var l0, b0 := network.queue.global.queue.items, network.queue.buffers.items;
      var m := network.Step(clock.now);
      if m.None? {
        return Moved;
      }
      ClosestUnique(m.value.arrival, clock.now, l0, b0);
      if m.value.dest !in network.procs {
        return Outcome.NoSuchProcess(m.value.dest);
      }
      ghost var l1 := network.queue.global.queue.items;
      var ok := React(m.value.dest, react, draw);
      if ok.Err? {
        return Refused(ok.error);
      }
      r := Outcome.Delivered(m.value);
      assert network.queue.global.queue.items ==
        l1 + Queued(r.m.dest, react.sends, network.procs, network.pools, clock.now, draw);
    }

    /**
     * The timer actor's turn, the clock already at its earliest due time:
     * the smallest timer fires and wakes its process, whose reaction is
     * drained at that time.
     */
    method TimerTurn(react: Reaction<M>, draw: nat -> nat) returns (r: Outcome<M>)
      requires Valid() && exists j :: 0 <= j < |timers.entries| && timers.entries[j].at == clock.now
      modifies timers, access, tso, network.queue.global.queue
      ensures r.Fired? || r.NoSuchProcess? || r.Refused?
      ensures r.Fired? ==> (Valid() && r.e.at == clock.now && IsMinEntry(old(timers.entries), r.e) &&
        r.e.pid in network.procs && tso.counter == old(tso.counter) + |react.timers|)
      ensures r.Fired? ==> (network.queue.global.queue.items ==
          old(network.queue.global.queue.items) + Queued(r.e.pid, react.sends, network.procs, network.pools, clock.now, draw) &&
        multiset(timers.entries) == multiset(old(timers.entries)) - multiset{r.e} +
          multiset(Scheduled(Requests(r.e.pid, old(tso.counter), react.timers), clock.now)))
    {
      hide Queued, Scheduled, Requests;
      ghost var t0 := timers.entries;
      var e := timers.Step();
      FiredIsDue(t0, e, clock.now);
      if e.pid !in network.procs {
        return Outcome.NoSuchProcess(e.pid);
      }
      var ok := React(e.pid, react, draw);
      if ok.Err? {
        return Refused(ok.error);
      }
      r := Fired(e);
    }

    /**
     * `start`: the network actor starts every process in ascending id order,
     * each buffering what `boot` says it does on start, and the buffers are
     * drained once at the current time; the timer actor's start does nothing.
     */
    method Start(boot: ProcessId -> Reaction<M>, draw: nat -> nat) returns (ok: Result<(), SubmitError>)
      requires Valid()
      modifies access, tso, network.queue.global.queue, timers
      ensures ok.Ok? ==> Valid()
      ensures tso.counter == old(tso.counter) + |BootTimers(network.procs, boot, old(tso.counter))|
      ensures ok.Ok? ==> (network.queue.global.queue.items == old(network.queue.global.queue.items) +
        Delay(Expand(BootSends(network.procs, boot), |BootSends(network.procs, boot)|, network.procs, network.pools, clock.now), draw, 0))
      ensures ok.Ok? ==> timers.entries == old(timers.entries) + Scheduled(BootTimers(network.procs, boot, old(tso.counter)), clock.now)
    {
      var procs := network.procs;
      for k := 0 to |procs|
        invariant access.scheduledMessages == BootSends(procs[..k], boot)
        invariant access.scheduledTimers == BootTimers(procs[..k], boot, old(tso.counter))
        invariant tso.counter == old(tso.counter) + |BootTimers(procs[..k], boot, old(tso.counter))|
        invariant network.queue.global.queue.items == old(network.queue.global.queue.items)
        invariant timers.entries == old(timers.entries)
      {
        assert procs[..k + 1][..k] == procs[..k];
        access.SetProcess(procs[k]);
        access.Record(boot(procs[k]).sends, boot(procs[k]).timers, tso);
      }
      assert procs[..|procs|] == procs;
      ghost var l0, t0 := network.queue.global.queue.items, timers.entries;
      ghost var sends, reqs := access.scheduledMessages, access.scheduledTimers;
      ok := access.Drain(clock.now, draw);
      if ok.Ok? {
        ExpandNotBefore(sends, |sends|, network.procs, network.pools, clock.now);
        DelayNotBefore(Expand(sends, |sends|, network.procs, network.pools, clock.now), draw, 0, clock.now);
        NotBeforeConcat(l0, Delay(Expand(sends, |sends|, network.procs, network.pools, clock.now), draw, 0), clock.now);
        ScheduledNotBefore(reqs, clock.now);
        DueNotBeforeConcat(t0, Scheduled(reqs, clock.now), clock.now);
      }
    }

    /**
     * `run`: start, then step while the clock is before the time budget.
     * Process `k`-th wake-up reacts with `reacts(k)` and draws latencies from
     * `draws(k + 1)` (`draws(0)` serves the start). A deadlock, an unknown
     * process or a refused send ends the run, as the source's exits and
     * panics do; `fuel` bounds the number of steps.
     */
    method Run(boot: ProcessId -> Reaction<M>, reacts: nat -> Reaction<M>, draws: nat -> (nat -> nat), fuel: nat)
      returns (o: RunOutcome<M>, steps: nat)
      requires Valid()
      modifies clock, network.queue, network.queue.global.queue, network.queue.buffers, timers, access, tso
      ensures Le(old(clock.now), clock.now) && steps <= fuel
      ensures o.Finished? ==> Valid() && !Lt(clock.now, timeBudget)
      ensures o.OutOfFuel? ==> Valid() && steps == fuel && Lt(clock.now, timeBudget)
      ensures o.Deadlocked? ==> Lt(clock.now, timeBudget) && NothingDueBefore(Jiffies(Decimal.USIZE_MAX))
    {
      var started := Start(boot, draws(0));
      if started.Err? {
        return Crashed(Outcome.Refused(started.error)), 0;
      }
      steps := 0;
      while Lt(clock.now, timeBudget) && steps < fuel
        invariant Valid() && steps <= fuel && Le(old(clock.now), clock.now)
      {
        var r := Step(reacts(steps), draws(steps + 1));
        steps := steps + 1;
        if r.Deadlock? {
          return Deadlocked, steps;
        } else if r.NoSuchProcess? || r.Refused? {
          return Crashed(r), steps;
        }
      }
      o := if Lt(clock.now, timeBudget) then OutOfFuel else Finished;
    }

    /** With no actor picked, every pending event is due at `usize::MAX` or later. */
    lemma NothingDueAtOrAfterMax(nt: Option<Jiffies>, tt: Option<Jiffies>)
      requires nt.None? <==> network.queue.global.queue.items == [] && network.queue.buffers.items == []
      requires nt.Some? ==> IsClosest(nt.value, network.queue.global.queue.items, network.queue.buffers.items)
      requires tt.None? <==> timers.entries == []
      requires tt.Some? ==> (forall j :: 0 <= j < |timers.entries| ==> Le(tt.value, timers.entries[j].at))
      requires forall j :: 0 <= j < |[nt, tt]| ==> [nt, tt][j].None? || [nt, tt][j].value.ticks >= Decimal.USIZE_MAX
      ensures NothingDueBefore(Jiffies(Decimal.USIZE_MAX))
    {
      assert [nt, tt][0] == nt && [nt, tt][1] == tt;
    }

    /** The picked time is the earliest pending event of both actors. */
    lemma PickedIsDue(nt: Option<Jiffies>, tt: Option<Jiffies>, future: Jiffies, i: nat)
      requires nt.None? <==> network.queue.global.queue.items == [] && network.queue.buffers.items == []
      requires nt.Some? ==> IsClosest(nt.value, network.queue.global.queue.items, network.queue.buffers.items)
      requires tt.None? <==> timers.entries == []
      requires tt.Some? ==> ((forall j :: 0 <= j < |timers.entries| ==> Le(tt.value, timers.entries[j].at)) &&
                             exists j :: 0 <= j < |timers.entries| && timers.entries[j].at == tt.value)
      requires IsFirstEarliest([nt, tt], future, i) && future.ticks < Decimal.USIZE_MAX
      requires Valid()
      ensures NothingDueBefore(future) && Le(clock.now, future) && !NothingDueBefore(Jiffies(Decimal.USIZE_MAX))
      ensures i == 0 ==> nt == Some(future)
      ensures i == 1 ==> tt == Some(future)
    {
      assert [nt, tt][0] == nt && [nt, tt][1] == tt;
    }

  }

  /** `matrix`'s `Simulation`: the network actor, then the timer actor. */
  class MatrixSimulation<M> {
    const network: MatrixNetwork<M>
    const timers: TimerHeap
    const access: MatrixAccess<M>
    const clock: Clock.Clock
    const tso: Tso.Tso
    const timeBudget: Jiffies

    /** The access buffers are empty between steps, and nothing pending is due before the clock. */
    ghost predicate Valid()
      reads this, network, network.queue, network.queue.buffers, network.queue.global.queue, timers, access, clock
    {
      network.Valid() && access.network == network && access.timers == timers &&
      access.scheduledMessages == [] && access.scheduledTimers == [] &&
      NotBefore(network.queue.global.queue.items, clock.now) &&
      NotBefore(network.queue.buffers.items, clock.now) &&
      DueNotBefore(timers.entries, clock.now)
    }

    /** No pending event of either actor is due before `t`. */
    ghost predicate NothingDueBefore(t: Jiffies)
      reads network, network.queue, network.queue.buffers, network.queue.global.queue, timers
    {
      NotBefore(network.queue.global.queue.items, t) && NotBefore(network.queue.buffers.items, t) &&
      DueNotBefore(timers.entries, t)
    }

    constructor (network: MatrixNetwork<M>, timers: TimerHeap, access: MatrixAccess<M>, clock: Clock.Clock,
                 tso: Tso.Tso, timeBudget: Jiffies)
      requires network.Valid() && access.network == network && access.timers == timers
      requires access.scheduledMessages == [] && access.scheduledTimers == []
      requires NotBefore(network.queue.global.queue.items, clock.now) && NotBefore(network.queue.buffers.items, clock.now)
      requires DueNotBefore(timers.entries, clock.now)
      ensures Valid()
      ensures this.network == network && this.timers == timers && this.access == access
      ensures this.clock == clock && this.tso == tso && this.timeBudget == timeBudget
    {
      this.network := network;
      this.timers := timers;
      this.access := access;
      this.clock := clock;
      this.tso := tso;
      this.timeBudget := timeBudget;
    }

    /**
     * The woken process `pid` reacts, and what it buffered is drained at
     * `now`; the network refusing a send ends the step.
     */
    method React(pid: ProcessId, react: Reaction<M>, draw: nat -> nat) returns (ok: Result<(), SubmitError>)
      requires network.Valid() && access.network == network && access.timers == timers
      requires access.scheduledMessages == [] && access.scheduledTimers == []
      requires NothingDueBefore(clock.now)
      modifies access, tso, network.queue.global.queue, timers
      ensures ok.Ok? ==> Valid()
      ensures tso.counter == old(tso.counter) + |react.timers|
      ensures ok.Ok? ==> (network.queue.global.queue.items ==
        old(network.queue.global.queue.items) + Queued(pid, react.sends, network.procs, network.pools, clock.now, draw))
      ensures ok.Ok? ==> timers.entries == old(timers.entries) + Scheduled(Requests(pid, old(tso.counter), react.timers), clock.now)
    {
      access.SetProcess(pid);
      access.Record(react.sends, react.timers, tso);
      assert access.scheduledMessages == Sends(pid, react.sends);
      assert access.scheduledTimers == Requests(pid, old(tso.counter), react.timers);
      ghost var l0, t0 := network.queue.global.queue.items, timers.entries;
      ghost var sends, reqs := access.scheduledMessages, access.scheduledTimers;
      ok := access.Drain(clock.now, draw);
      if ok.Ok? {
        ExpandNotBefore(sends, |sends|, network.procs, network.pools, clock.now);
        DelayNotBefore(Expand(sends, |sends|, network.procs, network.pools, clock.now), draw, 0, clock.now);
        NotBeforeConcat(l0, Delay(Expand(sends, |sends|, network.procs, network.pools, clock.now), draw, 0), clock.now);
        ScheduledNotBefore(reqs, clock.now);
        DueNotBeforeConcat(t0, Scheduled(reqs, clock.now), clock.now);
      }
    }

    /**
     * `Step`: the actor with the earliest pending event (`min_by_key`, so
     * the network on ties) steps at that time, which is never before the
     * clock; a woken process reacts with `react`, drawing latencies from
     * `draw`.
     */
    method Step(react: Reaction<M>, draw: nat -> nat) returns (r: Outcome<M>)
      requires Valid()
      modifies clock, network.queue, network.queue.global.queue, network.queue.buffers, timers, access, tso
      ensures Le(old(clock.now), clock.now)
      ensures r.Deadlock? <==> old(network.queue.global.queue.items == [] && network.queue.buffers.items == [] && timers.entries == [])
      ensures r.Deadlock? ==> clock.now == old(clock.now)
      ensures r.Delivered? ==> (clock.now == r.m.arrival && r.m.dest in network.procs &&
        IsClosest(r.m.arrival, old(network.queue.global.queue.items), old(network.queue.buffers.items)))
      ensures r.Fired? ==> clock.now == r.e.at && IsMinEntry(old(timers.entries), r.e) && r.e.pid in network.procs
      ensures r.Fired? || r.Delivered? ==> tso.counter == old(tso.counter) + |react.timers|
      ensures r.Deadlock? || r.Moved? || r.Delivered? || r.Fired? ==> Valid()
      ensures r.Moved? ==> (
        MovedHead(old(network.queue.global.queue.items), network.queue.global.queue.items,
                  old(network.queue.buffers.items), network.queue.buffers.items,
                  network.queue.Adjust(old(network.queue.totalPassed), clock.now)) &&
        timers.entries == old(timers.entries) && tso.counter == old(tso.counter))
      ensures r.Delivered? ==> (Dequeued(old(network.queue.buffers.items), network.queue.buffers.items, r.m) &&
        network.queue.global.queue.items ==
          old(network.queue.global.queue.items) + Queued(r.m.dest, react.sends, network.procs, network.pools, clock.now, draw) &&
        timers.entries == old(timers.entries) + Scheduled(Requests(r.m.dest, old(tso.counter), react.timers), clock.now))
      ensures r.Fired? ==> (network.queue.buffers.items == old(network.queue.buffers.items) &&
        network.queue.global.queue.items ==
          old(network.queue.global.queue.items) + Queued(r.e.pid, react.sends, network.procs, network.pools, clock.now, draw) &&
        multiset(timers.entries) == multiset(old(timers.entries)) - multiset{r.e} +
          multiset(Scheduled(Requests(r.e.pid, old(tso.counter), react.timers), clock.now)))
    {
      var nt := network.PeekClosest();
      var tt := timers.PeekClosest();
      var pick := EarliestFrom([nt, tt], 0);
      if pick.None? {
        assert [nt, tt][0] == nt && [nt, tt][1] == tt;
        return Outcome.Deadlock;
      }
      var future := pick.value.0;
      PickedIsDue(nt, tt, future, pick.value.1);
      clock.FastForward(future);
      if pick.value.1 == 0 {
        r := NetworkTurn(react, draw);
      } else {
        r := TimerTurn(react, draw);
      }
    }

    /**
     * The network actor's turn, the clock already at its closest time: one
     * network step, which either moves a message into the buffers or
     * delivers one from them, waking its destination, whose reaction is
     * drained at that time.
     */
    method NetworkTurn(react: Reaction<M>, draw: nat -> nat) returns (r: Outcome<M>)
      requires Valid() && IsClosest(clock.now, network.queue.global.queue.items, network.queue.buffers.items)
      modifies network.queue, network.queue.global.queue, network.queue.buffers, timers, access, tso
      ensures r.Moved? || r.Delivered? || r.NoSuchProcess? || r.Refused?
      ensures r.Moved? || r.Delivered? ==> Valid()
      ensures r.Moved? ==> (
        MovedHead(old(network.queue.global.queue.items), network.queue.global.queue.items,
                  old(network.queue.buffers.items), network.queue.buffers.items,
                  network.queue.Adjust(old(network.queue.totalPassed), clock.now)) &&
        timers.entries == old(timers.entries) && tso.counter == old(tso.counter))
      ensures r.Delivered? ==> (r.m.arrival == clock.now && r.m.dest in network.procs &&
        IsClosest(r.m.arrival, old(network.queue.global.queue.items), old(network.queue.buffers.items)) &&
        tso.counter == old(tso.counter) + |react.timers|)
      ensures r.Delivered? ==> (Dequeued(old(network.queue.buffers.items), network.queue.buffers.items, r.m) &&
        network.queue.global.queue.items ==
          old(network.queue.global.queue.items) + Queued(r.m.dest, react.sends, network.procs, network.pools, clock.now, draw) &&
        timers.entries == old(timers.entries) + Scheduled(Requests(r.m.dest, old(tso.counter), react.timers), clock.now))
    {
      hide Queued, Scheduled, Requests, Dequeued, MovedHead;
      ghost var l0, b0 := network.queue.global.queue.items, network.queue.buffers.items;
      var m := network.Step(clock.now);
      if m.None? {
        return Moved;
      }
      ClosestUnique(m.value.arrival, clock.now, l0, b0);
      if m.value.dest !in network.procs {
        return Outcome.NoSuchProcess(m.value.dest);
      }
      var ok := React(m.value.dest, react, draw);
      if ok.Err? {
        return Refused(ok.error);
      }
      r := Outcome.Delivered(m.value);
    }

    /**
     * The timer actor's turn, the clock already at its earliest due time:
     * the smallest timer fires and wakes its process, whose reaction is
     * drained at that time.
     */
    method TimerTurn(react: Reaction<M>, draw: nat -> nat) returns (r: Outcome<M>)
      requires Valid() && exists j :: 0 <= j < |timers.entries| && timers.entries[j].at == clock.now
      modifies timers, access, tso, network.queue.global.queue
      ensures r.Fired? || r.NoSuchProcess? || r.Refused?
      ensures r.Fired? ==> (Valid() && r.e.at == clock.now && IsMinEntry(old(timers.entries), r.e) &&
        r.e.pid in network.procs && tso.counter == old(tso.counter) + |react.timers|)
      ensures r.Fired? ==> (network.queue.global.queue.items ==
          old(network.queue.global.queue.items) + Queued(r.e.pid, react.sends, network.procs, network.pools, clock.now, draw) &&
        multiset(timers.entries) == multiset(old(timers.entries)) - multiset{r.e} +
          multiset(Scheduled(Requests(r.e.pid, old(tso.counter), react.timers), clock.now)))
    {
      hide Queued, Scheduled, Requests;
      ghost var t0 := timers.entries;
      var e := timers.Step();
      FiredIsDue(t0, e, clock.now);
      if e.pid !in network.procs {
        return Outcome.NoSuchProcess(e.pid);
      }
      var ok := React(e.pid, react, draw);
      if ok.Err? {
        return Refused(ok.error);
      }
      r := Fired(e);
    }

    /**
     * `Start`: the network actor starts every process in ascending id order,
     * each buffering what `boot` says it does on start, and the buffers are
     * drained once at the current time; the timer actor's start does nothing.
     */
    method Start(boot: ProcessId -> Reaction<M>, draw: nat -> nat) returns (ok: Result<(), SubmitError>)
      requires Valid()
      modifies access, tso, network.queue.global.queue, timers
      ensures ok.Ok? ==> Valid()
      ensures tso.counter == old(tso.counter) + |BootTimers(network.procs, boot, old(tso.counter))|
      ensures ok.Ok? ==> (network.queue.global.queue.items == old(network.queue.global.queue.items) +
        Delay(Expand(BootSends(network.procs, boot), |BootSends(network.procs, boot)|, network.procs, network.pools, clock.now), draw, 0))
      ensures ok.Ok? ==> timers.entries == old(timers.entries) + Scheduled(BootTimers(network.procs, boot, old(tso.counter)), clock.now)
    {
      var procs := network.procs;
      for k := 0 to |procs|
        invariant access.scheduledMessages == BootSends(procs[..k], boot)
        invariant access.scheduledTimers == BootTimers(procs[..k], boot, old(tso.counter))
        invariant tso.counter == old(tso.counter) + |BootTimers(procs[..k], boot, old(tso.counter))|
        invariant network.queue.global.queue.items == old(network.queue.global.queue.items)
        invariant timers.entries == old(timers.entries)
      {
        assert procs[..k + 1][..k] == procs[..k];
        access.SetProcess(procs[k]);
        access.Record(boot(procs[k]).sends, boot(procs[k]).timers, tso);
      }
      assert procs[..|procs|] == procs;
      ghost var l0, t0 := network.queue.global.queue.items, timers.entries;
      ghost var sends, reqs := access.scheduledMessages, access.scheduledTimers;
      ok := access.Drain(clock.now, draw);
      if ok.Ok? {
        ExpandNotBefore(sends, |sends|, network.procs, network.pools, clock.now);
        DelayNotBefore(Expand(sends, |sends|, network.procs, network.pools, clock.now), draw, 0, clock.now);
        NotBeforeConcat(l0, Delay(Expand(sends, |sends|, network.procs, network.pools, clock.now), draw, 0), clock.now);
        ScheduledNotBefore(reqs, clock.now);
        DueNotBeforeConcat(t0, Scheduled(reqs, clock.now), clock.now);
      }
    }

    /**
     * `Run`: start, then step while the clock is before the time budget.
     * Process `k`-th wake-up reacts with `reacts(k)` and draws latencies from
     * `draws(k + 1)` (`draws(0)` serves the start). A deadlock, an unknown
     * process or a refused send ends the run, as the source's exits and
     * panics do; `fuel` bounds the number of steps.
     */
    method Run(boot: ProcessId -> Reaction<M>, reacts: nat -> Reaction<M>, draws: nat -> (nat -> nat), fuel: nat)
      returns (o: RunOutcome<M>, steps: nat)
      requires Valid()
      modifies clock, network.queue, network.queue.global.queue, network.queue.buffers, timers, access, tso
      ensures Le(old(clock.now), clock.now) && steps <= fuel
      ensures o.Finished? ==> Valid() && !Lt(clock.now, timeBudget)
      ensures o.OutOfFuel? ==> Valid() && steps == fuel && Lt(clock.now, timeBudget)
      ensures o.Deadlocked? ==> Lt(clock.now, timeBudget)
    {
      var started := Start(boot, draws(0));
      if started.Err? {
        return Crashed(Outcome.Refused(started.error)), 0;
      }
      steps := 0;
      while Lt(clock.now, timeBudget) && steps < fuel
        invariant Valid() && steps <= fuel && Le(old(clock.now), clock.now)
      {
        var r := Step(reacts(steps), draws(steps + 1));
        steps := steps + 1;
        if r.Deadlock? {
          return Deadlocked, steps;
        } else if r.NoSuchProcess? || r.Refused? {
          return Crashed(r), steps;
        }
      }
      o := if Lt(clock.now, timeBudget) then OutOfFuel else Finished;
    }

    /** The picked time is the earliest pending event of both actors. */
    lemma PickedIsDue(nt: Option<Jiffies>, tt: Option<Jiffies>, future: Jiffies, i: nat)
      requires nt.None? <==> network.queue.global.queue.items == [] && network.queue.buffers.items == []
      requires nt.Some? ==> IsClosest(nt.value, network.queue.global.queue.items, network.queue.buffers.items)
      requires tt.None? <==> timers.entries == []
      requires tt.Some? ==> ((forall j :: 0 <= j < |timers.entries| ==> Le(tt.value, timers.entries[j].at)) &&
                             exists j :: 0 <= j < |timers.entries| && timers.entries[j].at == tt.value)
      requires IsFirstEarliest([nt, tt], future, i)
      requires Valid()
      ensures NothingDueBefore(future) && Le(clock.now, future)
      ensures i == 0 ==> nt == Some(future)
      ensures i == 1 ==> tt == Some(future)
    {
      assert [nt, tt][0] == nt && [nt, tt][1] == tt;
    }

  }

  /**
   * `simulator`'s `Simulation`: the network and its bandwidth queue, the
   * global time (the network's clock), the time limit and the count of
   * executed process steps.
   */
  class SimulatorSimulation<M> {
    const network: SimulatorNetwork<M>
    const maxSteps: Jiffies
    var eventsTotal: nat

    ghost predicate Valid()
      reads this, network, network.queue, network.queue.buffers, network.queue.global.queue, network.clock
    {
      network.Valid()
    }

    /** `new`: no events counted yet. */
    constructor (network: SimulatorNetwork<M>, maxSteps: Jiffies)
      requires network.Valid()
      ensures Valid() && this.network == network && this.maxSteps == maxSteps && eventsTotal == 0
    {
      this.network := network;
      this.maxSteps := maxSteps;
      eventsTotal := 0;
    }

    /**
     * `initial_step`: every process is bootstrapped with its id and what it
     * sends is submitted at once, one jiffy after the current time.
     */
    method InitialStep(boot: ProcessId -> seq<(Destination, MessagePtr<M>)>, draws: nat -> (nat -> nat))
      requires Valid()
      requires forall p, i :: 0 <= i < |boot(p)| ==> !boot(p)[i].0.BroadcastWithinPool?
      requires forall k, j :: draws(k)(j) <= network.queue.global.maxLatency.ticks
      modifies network.queue.global.queue
      ensures Valid() && eventsTotal == old(eventsTotal)
      ensures network.queue.global.queue.items == old(network.queue.global.queue.items) +
        StartQueued(network.procs, |network.procs|, (c: Configuration) => boot(c.assignedId), draws, network.clock.now)
    {
      var config := (c: Configuration) => boot(c.assignedId);
      forall c: Configuration, i | 0 <= i < |config(c)| ensures !config(c)[i].0.BroadcastWithinPool? {
        assert config(c) == boot(c.assignedId);
      }
      network.Start(config, draws);
    }

    /**
     * `step`: false (`Deadlock`) only when both queues are empty; a move out
     * of the latency queue changes nothing else; otherwise the global time
     * moves forward to the message, the event is counted, and what the
     * destination sends in reply (`react`) is submitted from it at the new
     * time.
     */
    method Step(react: seq<(Destination, MessagePtr<M>)>, draw: nat -> nat) returns (r: StepResult<M>)
      requires Valid()
      requires forall i :: 0 <= i < |react| ==> !react[i].0.BroadcastWithinPool?
      requires forall j :: draw(j) <= network.queue.global.maxLatency.ticks
      modifies this, network.queue, network.queue.global.queue, network.queue.buffers, network.clock
      ensures Valid() && Le(old(network.clock.now), network.clock.now)
      ensures r.Deadlock? <==> old(network.queue.global.queue.items) == [] && old(network.queue.buffers.items) == []
      ensures eventsTotal == old(eventsTotal) + (if r.Execute? || r.NoSuchProcess? then 1 else 0)
      ensures r.Deadlock? || r.Arrived? ==> network.clock.now == old(network.clock.now)
      ensures r.Deadlock? ==> network.queue.global.queue.items == [] && network.queue.buffers.items == []
      ensures r.NoSuchProcess? ==> r.m.dest !in network.procs
      ensures r.Execute? ==> (network.clock.now == r.m.arrival && r.m.dest in network.procs &&
        Dequeued(old(network.queue.buffers.items), network.queue.buffers.items, r.m) &&
        network.queue.global.queue.items == old(network.queue.global.queue.items) +
          Delay(Expand(Sends(r.m.dest, react), |react|, network.procs, map[], r.m.arrival), draw, 0))
    {
      r := network.Step();
      if r.Execute? {
        eventsTotal := eventsTotal + 1;
        network.SubmitMessages(r.m.dest, react, draw);
      } else if r.NoSuchProcess? {
        eventsTotal := eventsTotal + 1;
      }
    }

    /**
     * `run`: the initial step, then steps while the global time is below the
     * limit (`keep_running`); an empty queue panics with "Deadlock" and an
     * unknown destination with "Invalid proccess id". The `k`-th step's
     * delivered process replies with `reacts(k)` and draws from `draws(k)`;
     * `fuel` bounds the number of steps.
     */
    method Run(boot: ProcessId -> seq<(Destination, MessagePtr<M>)>, startDraws: nat -> (nat -> nat),
               reacts: nat -> seq<(Destination, MessagePtr<M>)>, draws: nat -> (nat -> nat), fuel: nat)
      returns (o: RunOutcome<M>, steps: nat)
      requires Valid()
      requires forall p, i :: 0 <= i < |boot(p)| ==> !boot(p)[i].0.BroadcastWithinPool?
      requires forall k, i :: 0 <= i < |reacts(k)| ==> !reacts(k)[i].0.BroadcastWithinPool?
      requires forall k, j :: startDraws(k)(j) <= network.queue.global.maxLatency.ticks
      requires forall k, j :: draws(k)(j) <= network.queue.global.maxLatency.ticks
      modifies this, network.queue, network.queue.global.queue, network.queue.buffers, network.clock
      ensures Valid() && Le(old(network.clock.now), network.clock.now) && steps <= fuel
      ensures old(eventsTotal) <= eventsTotal <= old(eventsTotal) + steps
      ensures o.Finished? ==> !Lt(network.clock.now, maxSteps)
      ensures o.OutOfFuel? ==> steps == fuel && Lt(network.clock.now, maxSteps)
      ensures o.Deadlocked? ==> (Lt(network.clock.now, maxSteps) &&
        network.queue.global.queue.items == [] && network.queue.buffers.items == [])
      ensures o.Crashed? ==> o.o.NoSuchProcess? && o.o.pid !in network.procs
    {
      InitialStep(boot, startDraws);
      steps := 0;
      while Lt(network.clock.now, maxSteps) && steps < fuel
        invariant Valid() && steps <= fuel && Le(old(network.clock.now), network.clock.now)
        invariant old(eventsTotal) <= eventsTotal <= old(eventsTotal) + steps
      {
        var react := reacts(steps);
        assert forall i :: 0 <= i < |react| ==> !react[i].0.BroadcastWithinPool?;
        var draw := draws(steps);
        assert forall j :: draw(j) <= network.queue.global.maxLatency.ticks;
        var r := Step(react, draw);
        steps := steps + 1;
        if r.Deadlock? {
          return Deadlocked, steps;
        } else if r.NoSuchProcess? {
          return Crashed(Outcome.NoSuchProcess(r.m.dest)), steps;
        }
      }
      o := if Lt(network.clock.now, maxSteps) then OutOfFuel else Finished;
    }
  }
}
