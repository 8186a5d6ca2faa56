# Discrete-event simulators and DAG consensus protocols, modelled in Dafny

This project models the core of a family of Rust discrete-event simulators for distributed protocols. It also models the protocols that run on them. The model is written in Dafny, and the properties that the code and its design promise are proved about it.

The simulators (`dscale`, `matrix` and the older `simulator`) drive processes with messages and timers in simulated time (`Jiffies`). Each step, the run loop picks the actor with the earliest pending event: the network on ties, then the timer heap. It moves the clock to that event and wakes the process concerned. What the process buffered is then drained into the network. The network expands a send to its targets and delays each copy by a latency sample. It then passes the copy through a bandwidth queue that delays traffic beyond a NIC's bandwidth.

The protocols model these components:

- a one-shot quorum collector (`Combiner`);
- the ABD atomic-register key-value store, with its client and the linearizability checker that judges the client history;
- Signed Echo Broadcast, in its standalone and its wrapping variant;
- the round-based DAG store in three variants;
- the DAG consensus protocols built on that store: Bullshark in two variants, Sparse Bullshark and DAG-Rider.

Files and modules:

| file | module | models |
|---|---|---|
| `wrappers.dfy` | `Wrappers` | `Option` and `Result`; a panic or failed `expect` of the source is an `Err` |
| `decimal.dfy` | `Decimal` | `usize` decimal rendering and parsing, `usize::MAX` |
| `counting.dfy` | `Counting` | cardinality facts for quorum intersection |
| `time.dfy` | `Jiffy`, `Clock`, `Tso` | `Jiffies` arithmetic and ordering, the global clock, the unique-id counter |
| `anykv.dfy` | `AnyKv`, `Configuration` | the type-tagged global store and the configuration keys kept in it |
| `message.dfy` | `Message` | message type tags and sizes, routed messages ordered by arrival |
| `latency.dfy` | `Latency` | the latency queues of the three crates |
| `bandwidth.dfy` | `Bandwidth` | the bandwidth queues of the three crates |
| `network.dfy` | `Network` | the network actors of the three crates |
| `timers.dfy` | `Timers` | the timer actor |
| `access.dfy` | `Access` | the buffers through which a process sends and schedules timers |
| `builders.dfy` | `Builders` | the simulation builders |
| `simulation.dfy` | `Simulation` | the run loops |
| `combiner.dfy` | `Combiner` | the quorum collector |
| `abd.dfy`, `abd_client.dfy` | `Abd`, `AbdClient` | the ABD replicas and registers, the client |
| `lin_checker.dfy` | `LinChecker` | the linearizability checker |
| `bcb_common.dfy`, `signed_echo.dfy`, `wrapped_signed_echo.dfy` | `BcbCommon`, `SignedEcho`, `WrappedSignedEcho` | Signed Echo Broadcast |
| `dag.dfy`, `round_dag.dfy`, `protocols_dag.dfy` | `Dag`, `RoundDag`, `ProtocolDag` | the round-based DAG stores and their searches |
| `dag_consensus.dfy`, `bullshark.dfy`, `rider.dfy` | `DagConsensus`, `Bullshark`, `Rider` | the DAG consensus protocols |

Classes model the objects whose fields the source updates in place: registers and replicas, queues, network and timer actors, builders, simulations, DAG stores and protocol processes. Their methods carry `modifies` clauses and state their new state; the few that state only part of it are named under "## Left out". Pure code is written as functions, with lemmas about them.

A vertex lives behind a shared pointer in the source. Here it is an index into an append-only arena of vertices, so pointer identity is index equality. A search over the store's slots is exact when no two allocations share a round and a source (`KeyUnique`). Without that, the search is only sound, because the source's visited marks are per slot.

## Model

| member | source | states |
|---|---|---|
| Decimal.NatToString | dscale/src/time/jiffy.rs:51-55 | `to_string` of a number: a non-empty string of decimal digits with no leading zero unless the number is 0 |
| Decimal.ParseUsize | systems/kv/src/abd_store/lin_checker.rs:112-113 | `parse::<usize>` succeeds only on an optional `+` then digits, and only with a value that fits a `usize` |
| Decimal.DigitsValueOfNatToString | dscale/src/time/jiffy.rs:51-55 | reading back the decimal numeral of `n` gives `n` |
| Decimal.ParseUsizeOfNatToString | systems/kv/src/abd_store/lin_checker.rs:112-113 | every `usize` written with `to_string` parses back to itself |
| Decimal.NatToStringInjective | dscale/src/time/jiffy.rs:45-55 | distinct numbers have distinct numerals |
| Counting.Overlap | systems/kv/src/abd_store/mod.rs:23-25 | two sets of ids below `n` share at least as many ids as their sizes together exceed `n` (the quorum-intersection count) |
| Jiffy.Add | dscale/src/time/jiffy.rs:9-15 | the sum is at least each operand, and subtracting the second operand gives back the first |
| Jiffy.Sub | dscale/src/time/jiffy.rs:17-23 | succeeds exactly when the subtrahend is not later than the minuend (otherwise the `usize` subtraction underflows); the difference added back gives the minuend |
| Jiffy.AddTicks | dscale/src/time/jiffy.rs:31-35 | adding a raw tick count is the same as adding that many jiffies |
| Jiffy.Mul | dscale/src/time/jiffy.rs:37-43 | the product is zero exactly when a factor is zero, and a positive factor never shrinks the tick count |
| Jiffy.Display | dscale/src/time/jiffy.rs:45-49 | the text is `Jiffies(`, the decimal form of the tick count, then `)` |
| Jiffy.DebugForm | dscale/src/time/jiffy.rs:51-55 | the text consists of decimal digits only |
| Jiffy.PrintedFormsInjective | dscale/src/time/jiffy.rs:45-55 | equal printed forms (either one) come from equal times |
| Clock.Clock.constructor | dscale/src/global/clock.rs:7-9 | the clock starts at zero |
| Clock.Clock.Drop | dscale/src/global/clock.rs:11-13 | dropping the clock resets it to zero |
| Clock.Clock.FastForward | dscale/src/global/clock.rs:15-19 | the clock moves to the given future time, which is not before the present |
| Tso.Tso.constructor | dscale/src/global/tso.rs:13-15 | the counter starts at zero |
| Tso.Tso.GlobalUniqueId | dscale/src/global/tso.rs:81-83 | returns the counter's old value and increments the counter |
| Tso.Tso.Drop | dscale/src/global/tso.rs:85-87 | dropping the oracle resets the counter to zero |
| Tso.IssuedIncreasing | dscale/src/global/tso.rs:17-83 | successive ids are strictly increasing and lie in `[c, c + k)`, so no id is returned twice |
| Tso.IssuedBounds | dscale/src/global/tso.rs:81-83 | the `i`-th id issued from counter `c` is `c + i` |
| AnyKv.Lookup | dscale/src/global/anykv.rs:15-24 | a typed read succeeds exactly when the key is present with a value of that type, and yields that value; a missing key is the `No key` error |
| AnyKv.LookupAfterStore | dscale/src/global/anykv.rs:9-24 | a stored value is read back under its key and type, and every other key reads as before |
| AnyKv.Store.constructor | dscale/src/global/anykv.rs:5-7 | the store starts empty |
| AnyKv.Store.Set | dscale/src/global/anykv.rs:9-13 | inserts or overwrites one key with a value of the given type |
| AnyKv.Store.Get | dscale/src/global/anykv.rs:15-24 | succeeds exactly on a present key of the right type with its value; fails with `No key` on a missing key and `Wrong type cast` otherwise |
| AnyKv.Store.GetFound | matrix/src/global/anykv.rs:15-23 | succeeds exactly on a present key of the right type; both failures are the single `No key found` error |
| AnyKv.Store.Modify | dscale/src/global/anykv.rs:26-34 | on a present key of the right type the value is replaced by `f` of it; otherwise an error and the store is unchanged |
| AnyKv.Store.ModifyIfPresent | matrix/src/global/anykv.rs:25-33 | the same update on a present key of the right type, and silently nothing otherwise |
| AnyKv.Store.Drop | dscale/src/global/anykv.rs:36-38 | empties the store |
| Configuration.SeedKey | dscale/src/global/configuration.rs:7-10 | a seed key starts with `seeds/` and never collides with the process-count key |
| Configuration.SeedKeyInjective | dscale/src/global/configuration.rs:7-10 | distinct processes have distinct seed keys |
| Configuration.SeedsAreIndependent | dscale/src/global/configuration.rs:7-18 | after process `id` is seeded it reads back `base_seed + id`, while every other process's seed and the process count read as before |
| Configuration.SetupGlobalConfiguration | dscale/src/global/configuration.rs:3-5 | stores the process count under its key |
| Configuration.SetupLocalConfiguration | dscale/src/global/configuration.rs:7-10 | stores `base_seed + id` under the process's seed key |
| Configuration.Seed | dscale/src/global/configuration.rs:12-14 | reads the executing process's seed as a `u64` |
| Configuration.ProcessNumber | dscale/src/global/configuration.rs:16-18 | reads the recorded process count as a `usize` |
| Message.WithDefaultSize | dscale/src/message.rs:196-198 | a message type that does not override `virtual_size` reports 0 bytes |
| Message.TryAs | dscale/src/message.rs:326-331 | the downcast succeeds exactly when the payload is of the requested type, and then yields the payload |
| Message.Is | dscale/src/message.rs:369-371 | `is` holds exactly when `try_as` would succeed |
| Message.As | dscale/src/message.rs:417-419 | `as_type` succeeds exactly when `is` holds, with the same payload as `try_as`; otherwise it is an error (the source's `unwrap` panic) |
| Message.OrderIsTotalPreorder | dscale/src/message.rs:435-465 | routed messages are compared by arrival time only: the order is total and transitive, and two messages are equal exactly when each is before the other |
| Message.MinArrival | dscale/src/message.rs:467 | the earliest arrival time in a non-empty queue: no message arrives earlier and some message arrives then |
| Message.EarliestHasMinArrival | dscale/src/message.rs:467 | the message the reversed heap yields first carries the earliest arrival time |
| Message.EarliestUnique | dscale/src/message.rs:467 | only one position is the one the heap yields first, so peeking and popping agree |
| Message.DequeuedFacts | dscale/src/message.rs:467 | a popped message was in the queue with the earliest arrival, the queue shrinks by exactly that message, and nothing joins it |
| Message.FindEarliest | dscale/src/message.rs:467 | the scan finds the position the heap yields first |
| Message.RemoveAt | dscale/src/network/latency.rs:40-42 | removing one position leaves the other messages, one fewer |
| Message.TimePriorityMessageQueue.constructor | dscale/src/network/latency.rs:16-22 | a new queue is empty |
| Message.TimePriorityMessageQueue.Push | dscale/src/network/latency.rs:37 | the message joins the queue |
| Message.TimePriorityMessageQueue.Peek | dscale/src/network/latency.rs:44-46 | nothing exactly when the queue is empty, otherwise the earliest-arriving message, left in place |
| Message.TimePriorityMessageQueue.Pop | dscale/src/network/latency.rs:40-42 | nothing exactly when the queue is empty (and it stays empty), otherwise the earliest-arriving message, which is removed and nothing else |
| Access.Requests | dscale/src/global/access.rs:85-90 | one timer request per delay, in order, from the process on execution, under consecutive ids from the first one given |
| Access.DscaleAccess.constructor | dscale/src/global/access.rs:30-45 | no process on execution (id 0), nothing buffered, and the given network and timer actors |
| Access.DscaleAccess.ListPool | dscale/src/global/access.rs:55-57 | the members of a known pool; an unknown pool name is an error |
| Access.DscaleAccess.BroadcastWithinPool | dscale/src/global/access.rs:64-70 | appends one send to the pool, from the process on execution, and changes nothing else |
| Access.DscaleAccess.Broadcast | dscale/src/global/access.rs:147-150 | a broadcast is a send within the global pool |
| Access.DscaleAccess.SendTo | dscale/src/global/access.rs:72-78 | appends one send to the given process, from the process on execution |
| Access.DscaleAccess.SendRandomFromPool | dscale/src/global/access.rs:59-83 | succeeds exactly when the pool exists and the drawn index is within it, then buffers a send to that member; otherwise nothing is buffered |
| Access.DscaleAccess.ScheduleTimerAfter | dscale/src/global/access.rs:85-90 | takes a fresh id from the oracle, buffers a timer request under it for the process on execution, and returns it |
| Access.DscaleAccess.Drain | dscale/src/global/access.rs:92-95 | an empty message buffer leaves the network untouched; on success the network queue gains the expanded, delayed sends, the timer heap gains the buffered timers, and both buffers are empty |
| Access.DscaleAccess.Record | dscale/src/global/access.rs:64-90 | a callback's sends are buffered in order and its timers in order under the next ids of the oracle, which advances by their number |
| Access.DscaleAccess.SetProcess | dscale/src/global/access.rs:97-99 | sets the process on execution and keeps the buffers |
| Access.DscaleAccess.Rank | dscale/src/global/access.rs:101-103 | the process last set on execution |
| Access.MatrixAccess.constructor | matrix/src/global/access.rs:22-35 | no process on execution, nothing buffered |
| Access.MatrixAccess.ListPool | matrix/src/global/access.rs:39-41 | the members of a known pool; an unknown pool is an error (`Pool does not exist`) |
| Access.MatrixAccess.BroadcastWithinPool | matrix/src/global/access.rs:43-49 | appends one send to the pool from the process on execution |
| Access.MatrixAccess.Broadcast | matrix/src/global/access.rs:51-57 | appends one send to every process (the `Broadcast` destination, not a pool) |
| Access.MatrixAccess.SendTo | matrix/src/global/access.rs:59-65 | appends one send to the given process |
| Access.MatrixAccess.ScheduleTimerAfter | matrix/src/global/access.rs:67-72 | takes a fresh id from the oracle and buffers a timer request under it |
| Access.MatrixAccess.Drain | matrix/src/global/access.rs:74-81 | on success the network queue gains the expanded, delayed sends, the timer heap the buffered timers, and both buffers are empty |
| Access.MatrixAccess.Record | matrix/src/global/access.rs:43-72 | a callback's sends are buffered in order and its timers in order under the next ids of the oracle |
| Access.MatrixAccess.SetProcess | matrix/src/global/access.rs:83-85 | sets the process on execution and keeps the buffers |
| Access.MatrixAccess.CurrentId | matrix/src/global/access.rs:87-89 | the process last set on execution |
| Access.SimulatorAccess.constructor | simulator/src/access.rs:11-16 | nothing scheduled, and the given current time |
| Access.SimulatorAccess.Broadcast | simulator/src/access.rs:22-25 | appends one event to every process |
| Access.SimulatorAccess.SendTo | simulator/src/access.rs:27-29 | appends one event to the given process |
| Access.SimulatorAccess.SendSelf | simulator/src/access.rs:31-33 | appends one event to the sender itself |
| Access.SimulatorAccess.CurrentTime | simulator/src/access.rs:35-37 | the time the access was created with |
| Access.OutgoingMessages.constructor | simulator/src/communication/outgoing_messages.rs:8-10 | nothing to send |
| Access.OutgoingMessages.Broadcast | simulator/src/communication/outgoing_messages.rs:16-18 | appends one send to every process |
| Access.OutgoingMessages.SendTo | simulator/src/communication/outgoing_messages.rs:20-22 | appends one send to the given process |
| Access.OutgoingMessages.SendSelf | simulator/src/communication/outgoing_messages.rs:24-26 | appends one send to the sender itself |
| Timers.KeyOrderIsTotal | dscale/src/time/timer_manager.rs:93 | the heap key (fire time, process id, timer id) orders entries totally and antisymmetrically |
| Timers.MinEntryUnique | dscale/src/time/timer_manager.rs:93 | a queue has only one smallest entry, so which timer fires next is determined |
| Timers.Scheduled | dscale/src/time/timer_manager.rs:126-131 | a batch of requests becomes as many entries, in order, each due at `now` plus its delay for its process and id |
| Timers.FindMin | dscale/src/time/timer_manager.rs:115-116 | the scan finds an entry no other entry precedes in key order |
| Timers.TimerHeap.constructor | dscale/src/time/timer_manager.rs:98-103 | no timer is pending |
| Timers.TimerHeap.Submit | dscale/src/time/timer_manager.rs:126-131 | each buffered request joins the heap due at `now` plus its delay |
| Timers.TimerHeap.PeekClosest | dscale/src/time/timer_manager.rs:111-113 | nothing exactly when no timer is pending, otherwise the earliest fire time, which some entry has |
| Timers.TimerHeap.Step | dscale/src/time/timer_manager.rs:115-120 | removes exactly the smallest entry (the one that fires) and every remaining timer is due no earlier |
| Timers.FiresInKeyOrder | dscale/src/time/timer_manager.rs:92-116 | the timer that fires is due first; on equal times the smaller process id goes first, then the smaller timer id |
| Timers.ScheduledNotBefore | dscale/src/time/timer_manager.rs:126-131 | timers scheduled at `now` never fire before `now` |
| Latency.Delayed | dscale/src/network/latency.rs:29-32 | the message keeps its source, destination and payload and arrives exactly `delay` later |
| Latency.LatencyQueue.constructor | dscale/src/network/latency.rs:16-22 | an empty queue over the topology's routes |
| Latency.LatencyQueue.Push | dscale/src/network/latency.rs:24-38 | a message on a known route joins the queue delayed by the sampled latency; a route the topology lacks is an error and nothing joins |
| Latency.LatencyQueue.Pop | dscale/src/network/latency.rs:40-42 | nothing exactly when empty, otherwise the earliest-arriving message, removed |
| Latency.LatencyQueue.Peek | dscale/src/network/latency.rs:44-46 | nothing exactly when empty, otherwise the earliest-arriving message, left in place |
| Latency.UniformLatencyQueue.constructor | simulator/src/network_condition/latency.rs:14-20 | an empty queue with the given maximum latency |
| Latency.UniformLatencyQueue.Push | simulator/src/network_condition/latency.rs:22-27 | the message joins the queue delayed by a drawn latency of at most the maximum |
| Latency.UniformLatencyQueue.Pop | simulator/src/network_condition/latency.rs:29-31 | nothing exactly when empty, otherwise the earliest-arriving message, removed |
| Latency.UniformLatencyQueue.Peek | simulator/src/network_condition/latency.rs:33-35 | nothing exactly when empty, otherwise the earliest-arriving message, left in place |
| Bandwidth.BandwidthOf | dscale/src/network/bandwidth.rs:258-261 | `Unbounded` works as `usize::MAX` bytes per tick, `Bounded(b)` as `b` |
| Bandwidth.SizeToAppend | dscale/src/network/bandwidth.rs:337 | one more delivered message adds its bytes to its destination's total and to no other |
| Bandwidth.SizeFromRemoveAt | simulator/src/network_condition/bandwidth.rs:89 | taking a message out of the buffers takes its bytes off its sender's buffered total only |
| Bandwidth.Squeeze | dscale/src/network/bandwidth.rs:322-326 | only the arrival time changes; a message whose new total fits in what the bandwidth allows up to `now` keeps it, otherwise it arrives at the tick when the new total will have passed |
| Bandwidth.SqueezedNotBeforeNow | dscale/src/network/bandwidth.rs:324-325 | when the new total exceeds what the bandwidth allows up to `now`, the squeezed arrival `total / bw` is not before `now` and is the tick in which the total passes |
| Bandwidth.SqueezeNeverEarlier | dscale/src/network/bandwidth.rs:314-326 | a message moved into the buffers when the clock stands at its arrival is never delivered earlier than that |
| Bandwidth.Credit | dscale/src/network/bandwidth.rs:337 | counting `n` more bytes for one process keeps the number of processes |
| Bandwidth.Debit | simulator/src/network_condition/bandwidth.rs:89 | taking bytes off one process is undone by counting them again |
| Bandwidth.SizesAfterMove | simulator/src/network_condition/bandwidth.rs:78 | buffer sizes that count each sender's buffered bytes still do after a message joins, with its size added to its sender |
| Bandwidth.SizesAfterDelivery | simulator/src/network_condition/bandwidth.rs:89 | they still do after the earliest message leaves, and the sender's entry always covers the leaving message, so the `usize` subtraction cannot underflow |
| Bandwidth.TotalsAfterDelivery | dscale/src/network/bandwidth.rs:337 | totals that count the bytes delivered to each destination still do after one more delivery |
| Bandwidth.Closest | dscale/src/network/bandwidth.rs:294-310 | nothing exactly when both heaps are empty, otherwise the earlier of the two head times |
| Bandwidth.ServesLatencyByHeads | dscale/src/network/bandwidth.rs:276-292 | the latency queue is served exactly when it has a head and the buffers have none or a later-or-equal one |
| Bandwidth.BandwidthQueue.constructor | dscale/src/network/bandwidth.rs:253-269 | the bandwidth from its description, one zero total per process and an empty buffer heap |
| Bandwidth.BandwidthQueue.Push | dscale/src/network/bandwidth.rs:271-274 | a message on a known route joins the latency queue with its sampled delay |
| Bandwidth.BandwidthQueue.PeekClosest | dscale/src/network/bandwidth.rs:294-310 | nothing exactly when both heaps are empty, otherwise the earliest pending time |
| Bandwidth.BandwidthQueue.Pop | dscale/src/network/bandwidth.rs:276-292 | with both heaps empty nothing happens; when the latency head is no later, unbounded bandwidth hands it out directly and bounded bandwidth moves it, squeezed, into the buffers and yields nothing; otherwise the earliest buffered message is handed out and its bytes counted for its destination; the per-destination totals always equal what the buffers delivered |
| Bandwidth.BandwidthQueue.DeliverFromLatencyQueue | dscale/src/network/bandwidth.rs:341-355 | unbounded: the latency head is handed out and nothing else changes; bounded: it is moved into the buffers and nothing is handed out |
| Bandwidth.BandwidthQueue.MoveToBuffers | dscale/src/network/bandwidth.rs:314-329 | the latency head leaves the latency queue and joins the buffers squeezed by its destination's total; the totals do not change |
| Bandwidth.BandwidthQueue.DeliverFromBuffer | dscale/src/network/bandwidth.rs:331-339 | the earliest buffered message is handed out and its size added to its destination's total |
| Bandwidth.MatrixBandwidthQueue.constructor | matrix/src/network/bandwidth.rs:26-42 | the bandwidth from its description, one zero total per process and an empty buffer heap |
| Bandwidth.MatrixBandwidthQueue.Push | matrix/src/network/bandwidth.rs:44-47 | a message on a known route joins the latency queue with its sampled delay |
| Bandwidth.MatrixBandwidthQueue.AvgTotalPassedBytes | matrix/src/network/bandwidth.rs:67-69 | the mean of the per-process totals rounded down |
| Bandwidth.MatrixBandwidthQueue.PeekClosest | matrix/src/network/bandwidth.rs:71-87 | nothing exactly when both heaps are empty, otherwise the earliest pending time |
| Bandwidth.MatrixBandwidthQueue.Pop | matrix/src/network/bandwidth.rs:49-65 | a message due from the latency queue is only moved into the buffers (whatever the bandwidth) and the call yields nothing; otherwise the earliest buffered message is handed out and counted |
| Bandwidth.MatrixBandwidthQueue.MoveToBuffers | matrix/src/network/bandwidth.rs:91-110 | the latency head joins the buffers, unchanged under unbounded bandwidth and squeezed otherwise |
| Bandwidth.MatrixBandwidthQueue.DeliverFromBuffer | matrix/src/network/bandwidth.rs:112-120 | the earliest buffered message is handed out and its size added to its destination's total |
| Bandwidth.BufferDelay | simulator/src/network_condition/bandwidth.rs:78-79 | only the arrival time changes, never earlier, and a buffer holding less than one tick's worth adds no delay |
| Bandwidth.SimulatorBandwidthQueue.constructor | simulator/src/network_condition/bandwidth.rs:30-46 | the bandwidth from its description, one zero buffer size per process, empty buffers |
| Bandwidth.SimulatorBandwidthQueue.Push | simulator/src/network_condition/bandwidth.rs:48-51 | the message joins the latency queue with its drawn delay |
| Bandwidth.SimulatorBandwidthQueue.Pop | simulator/src/network_condition/bandwidth.rs:53-69 | nothing exactly when both heaps are empty; a message due from the latency queue is moved into its sender's buffer and reported as arrived by latency; otherwise the earliest buffered message is handed out and its size taken off its sender, whose size always covers it |
| Bandwidth.SimulatorBandwidthQueue.MoveToBuffers | simulator/src/network_condition/bandwidth.rs:73-81 | the latency head joins the buffers delayed by its sender's new buffer size over the bandwidth |
| Bandwidth.SimulatorBandwidthQueue.DeliverFromBuffer | simulator/src/network_condition/bandwidth.rs:83-91 | the earliest buffered message is handed out and its size taken off its sender's buffer |
| Network.Targets | dscale/src/network/mod.rs:45-51 | a destination resolves to target processes, and fails exactly when it names a pool that does not exist |
| Network.TargetsAreProcesses | dscale/src/network/mod.rs:45-51 | when pools list only processes, every target is a process unless the message is addressed to an unknown id; a broadcast goes to every process |
| Network.Routed | dscale/src/network/mod.rs:55-64 | one routed message per target, in order, from the sender, carrying the message, arriving one jiffy after `now` |
| Network.Delay | dscale/src/network/latency.rs:24-38 | each routed message is delayed by its own latency sample, drawn in submission order |
| Network.PushAll | dscale/src/network/latency.rs:24-38 | the messages go onto the latency queue in order, each delayed by the next sample; it fails with "no distribution" exactly when some sender/receiver pair has no latency distribution, after pushing the prefix before it |
| Network.DscaleNetwork.constructor | dscale/src/network/mod.rs:82-98 | a network over a bandwidth queue, the process list and the pool map |
| Network.DscaleNetwork.SubmitSingleMessage | dscale/src/network/mod.rs:39-66 | a send succeeds exactly when its pool exists, every target is a process and every hop has a latency distribution; then the latency queue gains one delayed message per target, in order |
| Network.DscaleNetwork.Submit | dscale/src/network/mod.rs:128-132 | on success, the latency queue gains the expansion of every send of the batch, in order, delayed by consecutive samples |
| Network.DscaleNetwork.Step | dscale/src/network/mod.rs:109-118 | a step yields a message exactly when the queues are not both empty and it does not have to move a message: with both empty it yields nothing and changes nothing; when the latency queue's head is due first, unbounded bandwidth delivers that head straight from it, while bounded bandwidth moves it, squeezed, into the buffers and yields nothing; otherwise the buffers' head is delivered; a delivered message is at the closest time, nothing is lost, and nothing queued becomes due before `now` |
| Network.DscaleNetwork.PeekClosest | dscale/src/network/mod.rs:120-122 | the earliest time of either queue, and none exactly when both queues are empty |
| Network.MatrixNetwork.constructor | matrix/src/network/mod.rs:84-98 | a network over a bandwidth queue, the process list and the pool map |
| Network.MatrixNetwork.SubmitSingleMessage | matrix/src/network/mod.rs:36-63 | a send succeeds exactly when its pool exists, every target is a process and every hop has a latency distribution; then one delayed message per target is queued, in order |
| Network.MatrixNetwork.SubmitMessages | matrix/src/network/mod.rs:100-110 | on success, the latency queue gains the expansion of every send of the batch, in order, delayed by consecutive samples |
| Network.MatrixNetwork.Step | matrix/src/network/mod.rs:130-139 | a step yields nothing exactly when the queues are both empty (nothing changes) or the latency queue's head is due first, which then moves into the buffers with its squeezed arrival; otherwise it delivers the buffers' closest message and leaves the latency queue alone; nothing queued becomes due before `now` |
| Network.MatrixNetwork.PeekClosest | matrix/src/network/mod.rs:141-143 | the earliest time of either queue, and none exactly when both queues are empty |
| Network.NotBeforeAfterMove | dscale/src/network/bandwidth.rs:314-329 | moving the head of the latency queue into the buffers never makes a message due before the current time |
| Network.NotBeforeAfterDelivery | dscale/src/network/bandwidth.rs:331-339 | the message delivered from the buffers is due no earlier than `now`, and everything left is due no earlier than it |
| Network.ClosestUnique | dscale/src/network/mod.rs:120-122 | two queues have one closest time |
| Network.ClosestBoundsQueues | dscale/src/network/mod.rs:120-122 | nothing in either queue is due before the closest time |
| Network.ServedIsClosest | dscale/src/network/bandwidth.rs:276-292 | whichever queue a pop serves, it serves a message at the closest time, and nothing left is earlier |
| Network.ServedFacts | dscale/src/network/bandwidth.rs:276-292 | a pop removes exactly the served message from the two queues, at the closest time, keeping the queues not due before `now` |
| Network.SqueezeKeepsNotBefore | dscale/src/network/bandwidth.rs:322-326 | the bandwidth squeeze never moves a message's arrival before `now` |
| Network.MatrixSqueezeKeepsNotBefore | matrix/src/network/bandwidth.rs:91-110 | the matrix bandwidth adjustment never moves a message's arrival before `now` |
| Network.RoutedNotBefore | dscale/src/network/mod.rs:55-64 | freshly submitted messages are never due before `now` |
| Network.SimulatorNetwork.constructor | simulator/src/network/mod.rs:97-111 | a network over a bandwidth queue, the process list and the clock, with nothing queued in the past |
| Network.SimulatorNetwork.SubmitSingleMessage | simulator/src/network/mod.rs:46-72 | the latency queue gains one delayed message per target (every process, the one id, or the sender itself), in order, sent one jiffy after the clock |
| Network.SimulatorNetwork.SubmitMessages | simulator/src/network/mod.rs:40-44 | the latency queue gains the expansion of every message of the process's batch, in order, delayed by consecutive samples |
| Network.SimulatorNetwork.Start | simulator/src/network/mod.rs:113-126 | bootstrapping queues, process by process in order, what each process sends from its configuration |
| Network.SimulatorNetwork.Boot | simulator/src/network/mod.rs:118-124 | one process's bootstrap queues what it sends given its id and the process count |
| Network.SimulatorNetwork.Step | simulator/src/network/mod.rs:128-140 | the clock never goes back; a step is a deadlock exactly when both queues were empty; a move leaves the clock alone; an execution fast-forwards the clock to the delivered message, which is removed from the buffers and addressed to a known process |
| Network.ExpandKeepsSource | simulator/src/network/mod.rs:40-44 | every message a process's batch expands to comes from that process |
| Network.StartQueuedFromProcesses | simulator/src/network/mod.rs:113-126 | everything queued at start comes from a process that was bootstrapped and arrives after the start time |
| Network.ExpandAfterNow | simulator/src/network/mod.rs:40-44 | every expanded message is sent exactly one jiffy after the current time |
| Network.JoinNeverEarlier | simulator/src/network_condition/bandwidth.rs:73-81 | joining a buffer never makes a message arrive earlier |
| Network.Sends | simulator/src/communication/outgoing_messages.rs:16-26 | a process's outgoing list, each entry tagged with that process as sender, in order |
| Network.ExpandNext | dscale/src/network/mod.rs:128-132 | submitting the next send extends the queue by exactly that send's expansion, at the next sample positions |
| Network.ExpandNotBefore | dscale/src/network/mod.rs:128-132 | no expanded message is due before `now` |
| Network.DelayNotBefore | dscale/src/network/latency.rs:24-38 | latency only ever postpones arrivals |
| Builders.Ids | dscale/src/simulation_builder.rs:442-446 | the ids of a pool, in the pool's order |
| Builders.Numbered | matrix/src/simulation_builder.rs:55-59 | `size` entries with consecutive ids from `first`, each with the process made for the pool |
| Builders.AddTo | dscale/src/simulation_builder.rs:166-174 | the entry is appended to the named pool, which is created when missing; every other pool is unchanged |
| Builders.TwiceEntries | dscale/src/simulation_builder.rs:155-161 | adding processes to the global pool under its own name lists each new id twice in a row: entries `2j` and `2j + 1` are both process `first + j` |
| Builders.AddedPoolStep | dscale/src/simulation_builder.rs:155-161 | each round of `add_pool` appends the next id to the named pool and then to the global pool |
| Builders.AddFreshKeepsInvariant | dscale/src/simulation_builder.rs:155-161 | adding a fresh id to a pool and to the global pool keeps ids below the counter, every allocated id in the global pool and one handle per id |
| Builders.Partition | dscale/src/simulation_builder.rs:436-459 | the pool listing maps each pool to its ids in order; every pooled process is in the process table with its own handle, and the table holds nothing else, whatever the pools' iteration order |
| Builders.BothWays | dscale/src/simulation_builder.rs:326-345 | the pairs a description sets are symmetric: each pair is set in both directions |
| Builders.Overlay | dscale/src/simulation_builder.rs:338-345 | the covered pairs get the description's distribution, every other pair keeps its own |
| Builders.DescribedLastWins | dscale/src/simulation_builder.rs:306-348 | a pair gets the distribution of the last description that covers it |
| Builders.DescribedUntouched | dscale/src/simulation_builder.rs:306-348 | a pair no description covers keeps what it had, and none is added |
| Builders.DescribedSymmetric | dscale/src/simulation_builder.rs:306-348 | from a symmetric topology, the descriptions leave it symmetric |
| Builders.DscaleBuilder.constructor | dscale/src/simulation_builder.rs:84-93 | seed 69, a budget of 1,000,000 jiffies, ids from 1, unbounded bandwidth, no pools and no latencies |
| Builders.DscaleBuilder.AddToPool | dscale/src/simulation_builder.rs:166-174 | the entry joins the named pool, and nothing else changes |
| Builders.DscaleBuilder.AddPool | dscale/src/simulation_builder.rs:150-164 | `size` new consecutive ids join the named pool and the global pool, the id counter moves on by `size`, the settings are unchanged |
| Builders.DscaleBuilder.AddProcess | dscale/src/simulation_builder.rs:155-161 | the next id joins the named pool and then the global pool, and the counter moves on by one |
| Builders.DscaleBuilder.SetSeed | dscale/src/simulation_builder.rs:202-205 | only the seed changes |
| Builders.DscaleBuilder.SetTimeBudget | dscale/src/simulation_builder.rs:231-234 | only the time budget changes |
| Builders.DscaleBuilder.SetNicBandwidth | dscale/src/simulation_builder.rs:397-400 | only the bandwidth changes |
| Builders.DscaleBuilder.LatencyTopology | dscale/src/simulation_builder.rs:306-348 | it succeeds exactly when every named pool exists ("No pool found" otherwise); then each description in turn sets every pair between its pools, both ways; pools and settings are unchanged |
| Builders.DscaleBuilder.Build | dscale/src/simulation_builder.rs:436-459 | the settings pass through; the process table holds exactly the ids 1 up to the counter, each with its own handle and each listed in the global pool |
| Builders.FlattenHolds | matrix/src/simulation.rs:32-39 | an entry is collected exactly when some pool holds it |
| Builders.PartitionList | matrix/src/simulation.rs:29-39 | the pool listing maps each pool to its ids in order, and the process list is every pool's entries, pool by pool in iteration order |
| Builders.MatrixBuilder.NewDefault | matrix/src/simulation_builder.rs:37-46 | seed 69, a budget of 1,000,000 jiffies, latency up to 10, ids from 1, unbounded bandwidth, no pools |
| Builders.MatrixBuilder.AddPool | matrix/src/simulation_builder.rs:48-61 | the named pool (created even for size 0) gains `size` consecutive new ids, each with a made process; no global pool; the counter moves on by `size` |
| Builders.MatrixBuilder.SetSeed | matrix/src/simulation_builder.rs:63-66 | only the seed changes |
| Builders.MatrixBuilder.SetTimeBudget | matrix/src/simulation_builder.rs:68-71 | only the time budget changes |
| Builders.MatrixBuilder.SetMaxLatency | matrix/src/simulation_builder.rs:73-76 | only the maximum latency changes |
| Builders.MatrixBuilder.SetNicBandwidth | matrix/src/simulation_builder.rs:78-81 | only the bandwidth changes |
| Builders.MatrixBuilder.Build | matrix/src/simulation_builder.rs:83-97 | the unique-id counter and the clock are reset to zero; the process list holds exactly the ids 1 up to the counter |
| Builders.SimulatorBuilder.NewFromFactory | simulator/src/simulation_builder.rs:24-33 | seed 69, 1,000,000 steps, latency up to 10, five processes, unbounded bandwidth |
| Builders.SimulatorBuilder.Build | simulator/src/simulation_builder.rs:60-70 | `processCount` processes numbered 1 upwards in order, each made by the factory |
| Builders.SimulatorBuilder.BuildIdsExact | simulator/src/simulation_builder.rs:60-70 | the ids built are exactly 1 to `processCount` |
| Simulation.FirstEarliestUnique | dscale/src/simulation.rs:98-111 | the earliest pending time and the first actor holding it are determined by the actors' times |
| Simulation.EarliestFrom | matrix/src/simulation.rs:101-106 | no actor is picked exactly when no actor has a pending event; otherwise the pick is an earliest time among the actors and the first actor holding it |
| Simulation.PeekClosestScan | dscale/src/simulation.rs:98-111 | the scan picks the first actor with the earliest pending time, and that time is below `usize::MAX`; it picks nothing exactly when every pending time is `usize::MAX` or more |
| Simulation.SelectionsAgree | matrix/src/simulation.rs:101-106 | whenever the `dscale` scan picks an actor, the `matrix` `min_by_key` selection picks the same actor at the same time |
| Simulation.BootSendsFromStarted | dscale/src/simulation.rs:75-80 | every message buffered while starting comes from a process that was started |
| Simulation.BootTimerIdsInOrder | dscale/src/simulation.rs:75-80 | the timers requested on start get consecutive ids in request order, so no two share an id, and each belongs to a started process |
| Simulation.FiredIsDue | dscale/src/time/timer_manager.rs:115-120 | the timer taken out when the clock has moved to the earliest timer time is due exactly then |
| Simulation.DscaleSimulation.constructor | dscale/src/simulation.rs:23-58 | a simulation over the network actor, the timer actor and the access point, with nothing pending before the clock |
| Simulation.DscaleSimulation.React | dscale/src/network/mod.rs:68-78 | the unique-id counter advances by one per timer the woken process requests; when the network accepts the sends, each is expanded to its targets, delayed and appended to the latency queue, each timer joins the heap due at the current time plus its delay under consecutive ids, and the simulation's invariant (nothing pending before the clock, empty buffers) holds again |
| Simulation.DscaleSimulation.Step | dscale/src/simulation.rs:82-96 | the clock never goes back; a deadlock happens exactly when no event is pending before `usize::MAX`; a move puts the latency head, squeezed, into the buffers and touches nothing else; a delivered message arrives exactly at the new clock, goes to a known process and leaves its queue (the latency queue or the buffers); a fired timer is the smallest entry of the heap, due at the new clock, and leaves it; after either, the woken process's sends are appended to the latency queue and its timers join the heap |
| Simulation.DscaleSimulation.NetworkTurn | dscale/src/network/mod.rs:109-118 | with the clock at the network's closest time, a step either moves the latency head into the buffers and wakes no one, or delivers a message due exactly now to a known process, taken from the queue it was in, after which that process's sends and timers are queued |
| Simulation.DscaleSimulation.TimerTurn | dscale/src/time/timer_manager.rs:115-120 | with the clock at the earliest due timer, the smallest entry fires at exactly that time and leaves the heap, and its process's sends and timers are queued |
| Simulation.DscaleSimulation.Start | dscale/src/simulation.rs:75-80 | on success the latency queue gains, in process order, what each process sends on start, and the timer heap gains one entry per timer it asks for, numbered on from the unique-id counter |
| Simulation.DscaleSimulation.Run | dscale/src/simulation.rs:60-71 | the clock never goes back; the run finishes only once the clock reaches the time budget, and deadlocks only before the budget with nothing pending |
| Simulation.DscaleSimulation.NothingDueAtOrAfterMax | dscale/src/simulation.rs:98-111 | when the scan picks no actor, nothing is pending before `usize::MAX` |
| Simulation.DscaleSimulation.PickedIsDue | dscale/src/simulation.rs:98-111 | the picked time is the earliest pending event of both actors, not before the clock, and belongs to the picked actor |
| Simulation.MatrixSimulation.constructor | matrix/src/simulation.rs:22-62 | a simulation over the network actor, the timer actor and the access point, with nothing pending before the clock |
| Simulation.MatrixSimulation.React | matrix/src/network/mod.rs:65-80 | the unique-id counter advances by one per timer the woken process requests; when the network accepts the sends, each is expanded to its targets, delayed and appended to the latency queue, each timer joins the heap due at the current time plus its delay under consecutive ids, and the simulation's invariant (nothing pending before the clock, empty buffers) holds again |
| Simulation.MatrixSimulation.Step | matrix/src/simulation.rs:86-99 | the clock never goes back; a deadlock happens exactly when both actors have nothing pending; a move puts the latency head, squeezed, into the buffers and touches nothing else; a delivered message is the buffers' earliest and leaves them; a fired timer is the smallest entry of the heap and leaves it; after either, the woken process's sends are appended to the latency queue and its timers join the heap |
| Simulation.MatrixSimulation.NetworkTurn | matrix/src/network/mod.rs:130-139 | with the clock at the network's closest time, a step either moves the latency head into the buffers and wakes no one, or delivers the buffers' earliest message, due exactly now, to a known process, after which that process's sends and timers are queued |
| Simulation.MatrixSimulation.TimerTurn | matrix/src/simulation.rs:92-95 | with the clock at the earliest due timer, the smallest entry fires at exactly that time and leaves the heap, and its process's sends and timers are queued |
| Simulation.MatrixSimulation.Start | matrix/src/simulation.rs:79-84 | on success the latency queue gains, in process order, what each process sends on start, and the timer heap one entry per timer it asks for, numbered on from the unique-id counter |
| Simulation.MatrixSimulation.Run | matrix/src/simulation.rs:64-76 | the clock never goes back; the run finishes only once the clock reaches the time budget, and deadlocks only before it |
| Simulation.MatrixSimulation.PickedIsDue | matrix/src/simulation.rs:101-106 | the picked time is the earliest pending event of both actors, not before the clock, and belongs to the picked actor |
| Simulation.SimulatorSimulation.constructor | simulator/src/simulation.rs:32-50 | a simulation over the network, with the step limit and no events counted |
| Simulation.SimulatorSimulation.InitialStep | simulator/src/simulation.rs:105-111 | every process, in id order, is bootstrapped with its id, and what it sends is queued at once, one jiffy after the current time; no event is counted |
| Simulation.SimulatorSimulation.Step | simulator/src/simulation.rs:113-143 | the global time never goes back; a step reports false exactly when both queues are empty; a delivered or failed step counts one event; an executed step sets the time to the message's arrival and queues what the destination sends in reply |
| Simulation.SimulatorSimulation.Run | simulator/src/simulation.rs:52-62 | the time never goes back and the event count grows by at most one per step; the run ends normally only at the step limit; a deadlock or an unknown destination stops it before the limit |
| Combiner.Init | dscale/src/helpers/combiner.rs:200-210 | a new collector for a positive threshold holds no values and keeps its invariant |
| Combiner.Step | dscale/src/helpers/combiner.rs:328-341 | once the threshold is reached a call changes nothing and answers `None`; before it the value is appended, and the answer is `Some` exactly on the call that reaches the threshold, holding all `threshold` stored values |
| Combiner.OneShot | dscale/src/helpers/combiner.rs:328-341 | fed any sequence of values, a fresh collector answers `Some` on exactly one call, the `threshold`-th, with the first `threshold` values in arrival order |
| Combiner.RunFrom | dscale/src/helpers/combiner.rs:328-341 | from any reachable state, the `i`-th later call answers `Some` exactly when it brings the count to the threshold, and then with the stored values followed by the new ones |
| Combiner.Combiner.constructor | dscale/src/helpers/combiner.rs:200-210 | the object starts in the initial state for its threshold |
| Combiner.Combiner.Combine | dscale/src/helpers/combiner.rs:328-341 | the object's new state and answer are those of one step of the collector |
| BcbCommon.AdversaryThreshold | systems/dag-based/src/consistent_broadcast/mod.rs:25-27 | `(n - 1) / 3` is the largest `f` with `3f + 1 <= n` |
| BcbCommon.QuorumSize | systems/dag-based/src/consistent_broadcast/mod.rs:29-31 | the quorum is `2f + 1`: positive, at most `n`, and still reachable when `f` processes stay silent |
| BcbCommon.QuorumsShareACorrectProcess | systems/dag-based/src/consistent_broadcast/mod.rs:29-31 | with `n = 3f + 1`, two quorums share at least `f + 1` processes, hence a correct one |
| BcbCommon.QuorumSizeAsWritten | protocols/dag-based/src/consistent_broadcast/mod.rs:53-59 | `2f - 1` in `usize` has no value (it underflows) exactly when `n < 4`, and is otherwise two less than the `2f + 1` quorum |
| BcbCommon.QuorumSizeAsWrittenCounterexample | protocols/dag-based/src/consistent_broadcast/mod.rs:57-59 | with 3 processes the quorum underflows; with 4 it is one signature, so two disjoint single-signer sets each make a certificate |
| SignedEcho.VirtualSize | systems/dag-based/src/consistent_broadcast/message.rs:20-27 | an initiate costs the id plus the payload, a signature one signature, a certificate a signature per quorum member |
| SignedEcho.ByzantineConsistentBroadcast.constructor | systems/dag-based/src/consistent_broadcast/mod.rs:15-22 | nothing stored, nothing waiting, all counters zero |
| SignedEcho.ByzantineConsistentBroadcast.Start | systems/dag-based/src/consistent_broadcast/mod.rs:50-53 | learns the own id and the process count and keeps everything else |
| SignedEcho.ByzantineConsistentBroadcast.NextUniqueMessageId | systems/dag-based/src/consistent_broadcast/mod.rs:33-39 | the sequence number grows by one and the returned id, the own id with the new number, is not yet in use |
| SignedEcho.ByzantineConsistentBroadcast.ReliablyBroadcast | systems/dag-based/src/consistent_broadcast/mod.rs:43-48 | the message is stored with no signatures under a fresh id and an initiate carrying it is broadcast |
| SignedEcho.ByzantineConsistentBroadcast.Process | systems/dag-based/src/consistent_broadcast/mod.rs:55-98 | a certificate delivers and forgets its stored message, or records that it waits; another process's initiate is delivered unsigned when its certificate already came, else stored and signed back; a signature counts once and the certificate is broadcast exactly when the count reaches the quorum; a signature for a forgotten id does nothing |
| WrappedSignedEcho.VirtualSize | protocols/dag-based/src/consistent_broadcast/message.rs:22-31 | a skip costs the inner message; initiate, signature and certificate cost as in the standalone variant |
| WrappedSignedEcho.Initiates | protocols/dag-based/src/consistent_broadcast/mod.rs:69-75 | one initiate broadcast per message, in order, the `i`-th under the `i`-th id after the current sequence number |
| WrappedSignedEcho.PendingStoresEach | protocols/dag-based/src/consistent_broadcast/mod.rs:69-75 | every message of the batch is stored without signatures under its own new id |
| WrappedSignedEcho.PendingKeepsOthers | protocols/dag-based/src/consistent_broadcast/mod.rs:69-75 | entries that are not this process's newer ids keep their contents |
| WrappedSignedEcho.PendingAddsOnlyBatch | protocols/dag-based/src/consistent_broadcast/mod.rs:69-75 | every stored id was stored before or is one of the batch's new ids |
| WrappedSignedEcho.InitiatesHaveDistinctIds | protocols/dag-based/src/consistent_broadcast/mod.rs:61-75 | the instances started for a batch have pairwise distinct ids |
| WrappedSignedEcho.ByzantineConsistentBroadcast.Wrap | protocols/dag-based/src/consistent_broadcast/mod.rs:36-45 | nothing stored, nothing waiting, all counters zero |
| WrappedSignedEcho.ByzantineConsistentBroadcast.NextUniqueMessageId | protocols/dag-based/src/consistent_broadcast/mod.rs:61-67 | the sequence number grows by one and the returned id is not yet in use |
| WrappedSignedEcho.ByzantineConsistentBroadcast.InitiateBroadcasts | protocols/dag-based/src/consistent_broadcast/mod.rs:69-75 | the sequence number grows by the batch size, each message is stored unsigned under its new id, and the initiates go out in order |
| WrappedSignedEcho.ByzantineConsistentBroadcast.WithInnerAccess | protocols/dag-based/src/consistent_broadcast/mod.rs:77-86 | the broadcasts the consensus scheduled become initiated instances after it returns |
| WrappedSignedEcho.ByzantineConsistentBroadcast.Bootstrap | protocols/dag-based/src/consistent_broadcast/mod.rs:94-108 | learns the own id and the process count, then initiates whatever the consensus broadcast while bootstrapping |
| WrappedSignedEcho.ByzantineConsistentBroadcast.OnMessage | protocols/dag-based/src/consistent_broadcast/mod.rs:110-170 | a skip reaches the consensus; a certificate delivers and forgets its stored message or waits for it; another process's initiate whose certificate came is delivered and its wait entry kept, else it is stored and signed back; every signature from the quorum on re-broadcasts the certificate; whenever the consensus runs, its broadcasts become new instances |
| Abd.MaxTimestamp | systems/kv/src/abd_store/register.rs:153-158 | the result is a timestamp of the quorum and no timestamp in it is larger |
| Abd.MaxPair | systems/kv/src/abd_store/register.rs:182-187 | the result is a response of the quorum whose (timestamp, value) pair no other response exceeds |
| Abd.ReadChoosesLatest | systems/kv/src/abd_store/register.rs:181-187 | the pair a read writes back is at least every pair its read quorum reported, timestamp first and then value |
| Abd.MajorityOf | systems/kv/src/abd_store/mod.rs:23-25 | `n / 2 + 1` is a strict majority, positive, at most `n` when `n > 0`, and one less is at most half |
| Abd.MajoritiesIntersect | systems/kv/src/abd_store/mod.rs:23-25 | two quorums of that size drawn from the same `n` processes share a process |
| Abd.Register.constructor | systems/kv/src/abd_store/register.rs:59-69 | a new register has value, timestamps and counters at zero and no pending quorum |
| Abd.Register.Write | systems/kv/src/abd_store/register.rs:71-89 | bumps the read sequence number to a fresh one, opens an empty read quorum under it that resumes a write of the value, broadcasts a read request, and leaves the local pair and the write quorums alone |
| Abd.Register.Read | systems/kv/src/abd_store/register.rs:91-108 | as a write, but the new read quorum resumes a read for the client |
| Abd.Register.Serve | systems/kv/src/abd_store/register.rs:110-230 | the register moves as `Served` says: a read request is answered with the local pair and nothing changes; a write request is acknowledged and adopted only if its pair is larger, so the local pair never decreases and ends at least the request's; a response or ack for an unknown quorum is an error that changes nothing (the source's `unwrap`); otherwise it joins its quorum and the one that completes it resumes the operation |
| Abd.ServeAdoptsOnlyLarger | systems/kv/src/abd_store/register.rs:129-133 | after a write request the local pair is the request's exactly when the request's pair is larger, and otherwise is unchanged |
| Abd.Register.OnReadResponse | systems/kv/src/abd_store/register.rs:144-208 | the response joins its read quorum; on reaching the quorum size a write takes a timestamp above every one reported and a read writes back the largest pair, each opening a write quorum and broadcasting a write request; unknown sequence numbers are an error that changes nothing |
| Abd.Register.OnWriteAck | systems/kv/src/abd_store/register.rs:210-228 | the ack joins its write quorum; on reaching the quorum size the client gets `PutAck` or the value read; unknown timestamps are an error |
| Abd.Replica.constructor | systems/kv/src/abd_store/mod.rs:16-20 | a replica starts with no processes counted and no registers |
| Abd.Replica.QuorumSize | systems/kv/src/abd_store/mod.rs:23-25 | the quorum is a strict majority of the processes |
| Abd.Replica.Start | systems/kv/src/abd_store/mod.rs:35-37 | remembers the process count and keeps the registers |
| Abd.Replica.FindRegister | systems/kv/src/abd_store/mod.rs:27-31 | returns the key's register, creating a fresh zeroed one only when the key has none; other keys keep theirs |
| Abd.Replica.OnClientRequest | systems/kv/src/abd_store/mod.rs:40-52 | a get starts a read and a put a write of its value on the key's register (the existing object, or a fresh zeroed one): only its read counter and a new empty pending read quorum change, the read request goes to every replica, and every other key keeps its register object untouched |
| Abd.Replica.OnRegisterOp | systems/kv/src/abd_store/mod.rs:54-57 | a register message is served by its key's register (the existing object, or a fresh zeroed one) exactly as `Served` says with the majority quorum `MajorityOf(procNum)`; a response or ack without a pending quorum is an error; every other key keeps its register object untouched |
| AbdClient.GetRecord | systems/kv/src/abd_store/client.rs:102 | a get is recorded as `Get(` … `)` with no space or comma, and the text between the parentheses parses back as the key (every `usize` key) |
| AbdClient.PutRecord | systems/kv/src/abd_store/client.rs:107 | a put is recorded as `Put(` … `)` with no space and a comma whose comma-free sides parse back as the key and the value (every `usize` pair) |
| AbdClient.Client.constructor | systems/kv/src/abd_store/client.rs:39-47 | the key pool is 1, 3, 4, 6, 10 and the record is empty |
| AbdClient.Client.Start | systems/kv/src/abd_store/client.rs:50-53 | the first operation is scheduled 100 jiffies later |
| AbdClient.Client.ChooseKey | systems/kv/src/abd_store/client.rs:83-88 | the key is the pool entry at the drawn index |
| AbdClient.Client.ChooseValue | systems/kv/src/abd_store/client.rs:90-92 | the value is a fresh id from the unique-id counter, which moves on by one |
| AbdClient.Client.ChooseOperation | systems/kv/src/abd_store/client.rs:94-110 | records the start time and then the operation's text: a get of the drawn key when the coin is true, otherwise a put of a fresh value |
| AbdClient.Client.DoRandomOperation | systems/kv/src/abd_store/client.rs:112-117 | the chosen operation, on a key of the pool, is sent to the drawn replica; it is a get exactly when the coin is true |
| AbdClient.Client.OnMessage | systems/kv/src/abd_store/client.rs:55-75 | the response completes the record with the client, the time and the value read (none for a put ack), the record is appended to the history, and the next operation is 100 jiffies away |
| LinChecker.RemoveSpaces | systems/kv/src/abd_store/lin_checker.rs:94 | the result holds no space, and a string without spaces is unchanged |
| LinChecker.StripPrefix | systems/kv/src/abd_store/lin_checker.rs:97 | succeeds exactly when the prefix is present, and then prefix plus rest is the input |
| LinChecker.StripSuffix | systems/kv/src/abd_store/lin_checker.rs:97 | when it succeeds, rest plus suffix is the input; when the input ends with the suffix it succeeds with the part before it |
| LinChecker.Split | systems/kv/src/abd_store/lin_checker.rs:108 | `split(',')` always yields at least one piece |
| LinChecker.SplitWithout | systems/kv/src/abd_store/lin_checker.rs:108 | a string without the separator splits into itself alone |
| LinChecker.SplitAt | systems/kv/src/abd_store/lin_checker.rs:108 | splitting at the first separator gives the part before it followed by the split of the rest |
| LinChecker.ParseEntry | systems/kv/src/abd_store/lin_checker.rs:93-123 | a parsed call keeps the entry's start and end, its key and written value fit a `usize`, a read carries the entry's recorded result, and it is a read exactly when the operation (spaces removed) starts with `Get`, a write otherwise (then it starts with `Put`) |
| Decimal.NumeralHasNoSpace | systems/kv/src/abd_store/client.rs:102-107 | a recorded number contains no space, comma or closing parenthesis, so it cannot confuse the parser |
| LinChecker.ParseRecordedGet | systems/kv/src/abd_store/lin_checker.rs:96-105 | the text `Get(k)` the client records, with a recorded result `v`, parses to a read of `v` on `k` with the entry's times |
| LinChecker.ParseRecordedPut | systems/kv/src/abd_store/lin_checker.rs:106-119 | the text `Put(k,v)` the client records parses to a write of `v` on `k` with the entry's times |
| LinChecker.ParseUnansweredGet | systems/kv/src/abd_store/lin_checker.rs:99 | a get without a recorded result is dropped |
| LinChecker.NextValue | systems/kv/src/abd_store/lin_checker.rs:159-162 | after a write the register holds the written value, after a read it is unchanged |
| LinChecker.MinEndUpTo | systems/kv/src/abd_store/lin_checker.rs:135-140 | the minimum end over the first `k` unplaced calls: no unplaced call among them ends earlier, and it is one of their ends unless it is `usize::MAX` |
| LinChecker.MinEndOf | systems/kv/src/abd_store/lin_checker.rs:135-140 | the loop computes the smallest end of an unplaced call, or `usize::MAX` when all are placed |
| LinChecker.Search | systems/kv/src/abd_store/lin_checker.rs:130-172 | returns true exactly when the unplaced calls can be ordered from the current value by the backtracking rule; on success every call is placed, on failure the `used` flags are restored |
| LinChecker.CheckSingleKey | systems/kv/src/abd_store/lin_checker.rs:125-128 | the answer is the backtracking search from no call placed and register value 0 |
| LinChecker.LinearizationCons | systems/kv/src/abd_store/lin_checker.rs:142-168 | a call the search may try first (unplaced, starting no later than the minimum end, consistent with the current value), followed by a linearization of the rest, is a linearization |
| LinChecker.LinearizationHead | systems/kv/src/abd_store/lin_checker.rs:142-168 | for well-timed calls, the first call of any linearization is one the search may try first |
| LinChecker.LinearizationTail | systems/kv/src/abd_store/lin_checker.rs:157-166 | the rest of a linearization after its first call linearizes the remaining calls from the value that call leaves |
| LinChecker.ExplainedHasLinearization | systems/kv/src/abd_store/lin_checker.rs:130-172 | when the search succeeds, a linearization of the unplaced calls exists |
| LinChecker.LinearizationIsExplained | systems/kv/src/abd_store/lin_checker.rs:130-172 | for well-timed calls, when a linearization exists the search succeeds (the pruning by minimum end loses no solution) |
| LinChecker.SingleKeyDecidesLinearizability | systems/kv/src/abd_store/lin_checker.rs:125-172 | for well-timed calls the check succeeds exactly when there is an order of all calls that respects real time and in which every read returns the latest preceding write, or 0 |
| LinChecker.Parsed | systems/kv/src/abd_store/lin_checker.rs:24-29 | the calls that parse, never more than the entries |
| LinChecker.MaxEnd | systems/kv/src/abd_store/lin_checker.rs:22-26 | the largest end among the calls (0 when there is none): every call ends no later, and some call ends then |
| LinChecker.OfKeyMembers | systems/kv/src/abd_store/lin_checker.rs:27 | a key's list holds exactly the calls on that key |
| LinChecker.OfKeyOfAbsentKey | systems/kv/src/abd_store/lin_checker.rs:27 | a key without calls has an empty list and no entry in the map |
| LinChecker.EarliestReadEnd | systems/kv/src/abd_store/lin_checker.rs:66-70 | absent exactly when no call reads `v`; otherwise the end of a read of `v` that no other read of `v` ends before |
| LinChecker.Synthesized | systems/kv/src/abd_store/lin_checker.rs:63-79 | one synthesized write per missing value |
| LinChecker.EarliestReadEndPastWrite | systems/kv/src/abd_store/lin_checker.rs:66-78 | pushing a synthesized write does not change the earliest end of a read of any value |
| LinChecker.MissingWritesAppended | systems/kv/src/abd_store/lin_checker.rs:63-79 | the loop appends the synthesized writes after the original calls, each computed from the original reads alone |
| LinChecker.SynthesizedWriteEndsAtFirstRead | systems/kv/src/abd_store/lin_checker.rs:63-79 | the write synthesized for a value that was read writes that value on the key, starts at 0 and ends exactly when the first read of the value ended |
| LinChecker.InsertByEnd | systems/kv/src/abd_store/lin_checker.rs:82 | insertion adds exactly the one call to the multiset of calls |
| LinChecker.InsertByEndSorted | systems/kv/src/abd_store/lin_checker.rs:82 | inserting into a list sorted by end keeps it sorted by end |
| LinChecker.SortByEnd | systems/kv/src/abd_store/lin_checker.rs:82 | sorting is a permutation of the calls |
| LinChecker.SortByEndSorted | systems/kv/src/abd_store/lin_checker.rs:82 | the sorted calls are in non-decreasing order of end |
| LinChecker.ParsedStep | systems/kv/src/abd_store/lin_checker.rs:24-29 | one more entry adds its call to the parsed calls when it parses and nothing otherwise |
| LinChecker.AppendCall | systems/kv/src/abd_store/lin_checker.rs:26-27 | one more call raises the maximum end to its end if later and adds its key |
| LinChecker.OfKeyAppend | systems/kv/src/abd_store/lin_checker.rs:27 | one more call is appended to its own key's list only |
| LinChecker.Push | systems/kv/src/abd_store/lin_checker.rs:25-28 | pushing a parsed call keeps the map equal to the grouping, by key, of the calls seen, and the maximum equal to their latest end |
| LinChecker.GroupByKey | systems/kv/src/abd_store/lin_checker.rs:21-29 | the map groups the parsed calls by key in history order and the maximum is their latest end |
| LinChecker.AddMissingWrites | systems/kv/src/abd_store/lin_checker.rs:63-79 | the calls after the loop are the originals followed by one synthesized write per missing value, in order |
| LinChecker.CheckKey | systems/kv/src/abd_store/lin_checker.rs:35-86 | a key passes exactly when its calls, completed with the synthesized writes and sorted by end, pass the single-key search |
| LinChecker.CheckLinearizable | systems/kv/src/abd_store/lin_checker.rs:20-91 | the history passes exactly when every key that has calls passes, in whatever order the map and the set are iterated |
| LinChecker.ParsedWellTimed | systems/kv/src/abd_store/lin_checker.rs:93-123 | when every entry starts no later than it ends, so does every parsed call, and all ends fit a `usize` |
| LinChecker.PreparedWellTimed | systems/kv/src/abd_store/lin_checker.rs:63-82 | completing and sorting keeps every call starting no later than it ends |
| LinChecker.KeyCheckMeansLinearizable | systems/kv/src/abd_store/lin_checker.rs:35-86 | for a history whose entries start before they end, a key passes exactly when its completed calls have a linearization |
| Dag.VertexOrderIsTotal | systems/dag-based/src/dag_utils.rs:38-65 | comparing vertices by (round, source) is irreflexive, transitive and total, and equal keys are never ordered either way |
| Dag.ClearRows | systems/dag-based/src/dag_utils.rs:247-253 | every flag is cleared and every row keeps its length |
| Dag.Visit | systems/dag-based/src/dag_utils.rs:169-185 | looking at one edge: finding `u` means a path reaches it; otherwise the search state (seen vertices marked, reachable, queued or finished) still holds and the edge is covered; the seen set only grows |
| Dag.Expand | systems/dag-based/src/dag_utils.rs:161-185 | looking at every edge of the vertex taken from the queue: finding `u` means a path reaches it; otherwise that vertex is finished and the search state holds |
| Dag.Explore | systems/dag-based/src/dag_utils.rs:147-189 | the breadth-first search answers true only when a path from `v` reaches `u` without going below the bound round, and, when no slot is shared by two vertices with edges, always answers true when such a path exists |
| Dag.NoEscape | systems/dag-based/src/dag_utils.rs:186-188 | a search that finished without meeting `u` has seen everything reachable, so `u` is not reachable |
| Dag.DoneStep | systems/dag-based/src/dag_utils.rs:177-183 | a marked edge target with edges of its own was finished, because no flag is shared |
| Dag.OrderVisit | systems/dag-based/src/dag_utils.rs:118-140 | looking at one edge: an unmarked target is marked and queued and the ordering state (new marks reachable from `v`, queued or finished) is kept; the edge is covered |
| Dag.OrderExpand | systems/dag-based/src/dag_utils.rs:109-140 | looking at every edge of the vertex taken from the queue finishes it and keeps the ordering state |
| Dag.OrderDoneStep | systems/dag-based/src/dag_utils.rs:109-141 | once the queue is empty, the marks only grew, every newly marked slot belongs to a vertex reachable from `v`, and (one vertex per slot) every newly marked vertex and `v` have all their edge targets marked |
| Dag.Order | systems/dag-based/src/dag_utils.rs:105-141 | the marks only grow; every newly set mark is a vertex reachable from `v`; when no slot is shared, `v` and every newly marked vertex have all their edge targets marked, so everything reachable through unordered vertices is now ordered |
| Dag.SeenBound | systems/dag-based/src/dag_utils.rs:160-186 | the search sees at most one vertex per allocation, which bounds its length |
| RoundDag.VertexMessageSize | systems/dag-based/src/dag_utils.rs:77-87 | a vertex message costs at least 8 bytes, and exactly 8 only when it has no strong edges |
| RoundDag.EdgeCostsACertificate | systems/dag-based/src/dag_utils.rs:67-87 | each strong edge adds one certificate (a bit per process plus an id) to the size, and a genesis message costs the same as a vertex message |
| RoundDag.ToGc | systems/dag-based/src/dag_utils.rs:232 | the collector drops at most the stored rounds, none while at most `GC_REMAIN` are stored, and otherwise keeps exactly `GC_REMAIN` |
| RoundDag.RoundBasedDag.constructor | systems/dag-based/src/dag_utils.rs:89-96 | an empty store: no rounds, no marks, no offset, no processes |
| RoundDag.RoundBasedDag.SetRoundSize | systems/dag-based/src/dag_utils.rs:99-101 | only the round size changes |
| RoundDag.RoundBasedDag.MaxAllocatedRound | systems/dag-based/src/dag_utils.rs:201-207 | the highest allocated round is one below the allocated count, and 0 (saturating) when nothing is allocated |
| RoundDag.RoundBasedDag.Grow | systems/dag-based/src/dag_utils.rs:216-229 | that many rounds of `procNum + 1` empty slots and clear flags are appended to the three matrices; nothing else changes |
| RoundDag.RoundBasedDag.Insert | systems/dag-based/src/dag_utils.rs:241-245 | the vertex fills the slot of its round and source; every other slot and the marks are unchanged |
| RoundDag.RoundBasedDag.AddVertex | systems/dag-based/src/dag_utils.rs:191-199 | afterwards the vertex's round is allocated and its slot holds it; every other stored slot is unchanged, new rounds are empty apart from it and have `procNum + 1` slots; an already allocated round is updated in place |
| RoundDag.RoundBasedDag.ResetVisited | systems/dag-based/src/dag_utils.rs:247-253 | every `visited` flag is cleared with the rows keeping their lengths; nothing else changes |
| RoundDag.RoundBasedDag.Gc | systems/dag-based/src/dag_utils.rs:231-239 | the front rounds beyond `GC_REMAIN` leave all three matrices and are added to the offset |
| RoundDag.RoundBasedDag.PathExists | systems/dag-based/src/dag_utils.rs:147-189 | true only when a strong path from `v` reaches `u` without going below `u`'s round; when no slot is shared by two vertices with edges, true whenever such a path exists; only the `visited` marks change |
| RoundDag.RoundBasedDag.OrderFrom | systems/dag-based/src/dag_utils.rs:105-143 | the `ordered` marks only grow, each new one is a vertex reachable from `v`, and (one vertex per slot) everything reachable through vertices not ordered before is ordered; the store is then collected |
| ProtocolDag.GenesisRow | protocols/dag-based/src/dag_utils.rs:33-40 | the genesis row has one slot per process, slot `i` holding the `i`-th fresh genesis allocation |
| ProtocolDag.GenesisKeepsKeyUnique | protocols/dag-based/src/dag_utils.rs:32-45 | the genesis vertices all sit at round 0, source 0, but having no edges they keep "one vertex with edges per slot", so the searches stay exact |
| ProtocolDag.RoundBasedDag.New | protocols/dag-based/src/dag_utils.rs:25-30 | an empty store: no rounds and no flags |
| ProtocolDag.RoundBasedDag.Genesis | protocols/bullshark/src/dag.rs:23-41 | a store holding only the genesis round of `n` fresh vertices, with clear flags |
| ProtocolDag.RoundBasedDag.Init | protocols/dag-based/src/dag_utils.rs:32-45 | one genesis round of `n` fresh vertices and a clear flag row are appended |
| ProtocolDag.RoundBasedDag.CurrentMaxAllocatedRound | protocols/dag-based/src/dag_utils.rs:88-94 | the last allocated round, one below the row count |
| ProtocolDag.RoundBasedDag.Grow | protocols/dag-based/src/dag_utils.rs:98-109 | that many empty rows, as wide as round 0, and clear flag rows are appended |
| ProtocolDag.RoundBasedDag.Insert | protocols/dag-based/src/dag_utils.rs:111-115 | the vertex fills the slot of its round and source; everything else is unchanged |
| ProtocolDag.RoundBasedDag.AddVertex | protocols/dag-based/src/dag_utils.rs:78-86 | afterwards the vertex's round is allocated and its slot holds it; every other stored slot is unchanged and new rounds are empty apart from it |
| ProtocolDag.RoundBasedDag.ResetVisited | protocols/dag-based/src/dag_utils.rs:117-124 | every flag is cleared with the rows keeping their lengths; the rounds are unchanged |
| ProtocolDag.RoundBasedDag.PathExists | protocols/dag-based/src/dag_utils.rs:48-76 | true only when a strong path from `v` reaches `u`; when no slot is shared by two vertices with edges, true whenever such a path exists; only the flags change |
| DagConsensus.Arena.Alloc | systems/dag-based/src/bullshark.rs:179-189 | a new vertex gets a fresh allocation, distinct from every earlier one, and nothing allocated before changes |
| DagConsensus.Flatten | systems/dag-based/src/bullshark.rs:182-185 | the vertices a row holds, in slot order, never more than the row's slots |
| DagConsensus.FlattenMembers | systems/dag-based/src/bullshark.rs:182-187 | a vertex is among a row's flattened vertices exactly when some slot holds it |
| DagConsensus.FlattenCount | systems/dag-based/src/bullshark.rs:169-171 | the number of vertices of a row is the number of occupied slots |
| DagConsensus.LeaderId | systems/dag-based/src/bullshark.rs:196-198 | a round's leader is a process id, between 1 and `n` |
| DagConsensus.EveryProcessLeads | systems/dag-based/src/bullshark.rs:196-198 | the leadership rotates: every process leads one of any `n` consecutive rounds |
| DagConsensus.LeaderIdAsWritten | protocols/dag-based/src/bullshark.rs:145-147 | the leader as written in this variant is always one below the leader of the other variants |
| DagConsensus.LeaderIdAsWrittenIsNoProcess | protocols/dag-based/src/bullshark.rs:145-147 | since ids start at 1, the leader as written names the empty slot 0 in every round that `n` divides, so those rounds never have an anchor; with two processes no even round has one |
| DagConsensus.QuorumRowMakesGoodVertex | systems/dag-based/src/bullshark.rs:177-194 | a vertex built from a previous round holding a quorum and sent by its own source passes every other process's validity check |
| DagConsensus.Votes | systems/dag-based/src/bullshark.rs:278-287 | the vote count is at most the number of voters, and positive exactly when some voter links to the anchor |
| DagConsensus.VotersIncludeCorrect | systems/dag-based/src/bullshark.rs:157-167 | with at most `f` faulty processes, `f + 1` voters include a correct one and a quorum of `2f + 1` includes `f + 1` correct ones |
| DagConsensus.PathDescends | systems/dag-based/src/bullshark.rs:177-190 | since a vertex's edges point to the round below, a path never climbs: its end is no higher than its start |
| DagConsensus.DescendingReachFits | systems/dag-based/src/bullshark.rs:307 | because paths descend, everything a search from a stored vertex can reach has a slot in the store |
| DagConsensus.BufInsert | systems/dag-based/src/bullshark.rs:94-96 | the buffer stays sorted by (round, source); a vertex whose key is already there leaves it unchanged, otherwise the buffer gains exactly that vertex |
| DagConsensus.BufRemove | systems/dag-based/src/bullshark.rs:256 | the buffer stays sorted and loses exactly the vertex with the given key |
| DagConsensus.Reverse | systems/dag-based/src/bullshark.rs:320-324 | popping the whole stack yields its entries in reverse order |
| Bullshark.CommitThreshold | systems/dag-based/src/bullshark.rs:165-167 | the direct-commit threshold exceeds the `f` processes that may be faulty and never exceeds a quorum; Sparse Bullshark's is a full quorum |
| Bullshark.TimerDelay | protocols/dag-based/src/sparse_bullshark.rs:259-263 | a round timer exists in the systems variant and in Sparse Bullshark, and not in the protocols variant |
| Bullshark.Mask | protocols/dag-based/src/sparse_bullshark.rs:216-232 | the row keeps exactly the slots drawn, the own slot and the leader's; every other slot is emptied |
| Bullshark.SampleCandidatesMembers | protocols/dag-based/src/sparse_bullshark.rs:208-238 | a sample holds only vertices of the round, and always holds the own vertex and the anchor when they are stored |
| Bullshark.MaskOccupied | protocols/dag-based/src/sparse_bullshark.rs:216-232 | the occupied slots of a sample are the drawn ones plus the own and leader slots when occupied |
| Bullshark.SampleCandidatesSize | protocols/dag-based/src/sparse_bullshark.rs:208-238 | with at most `d` candidates the sample is all of them; otherwise it has between `d` and `d + 2` vertices, the bounds the source asserts |
| Bullshark.SearchFits | systems/dag-based/src/bullshark.rs:307 | every vertex a search from a stored vertex can reach has a slot in both mark matrices, so `path_exists` and `order_from` stay inside the store |
| Bullshark.ChainExtend | systems/dag-based/src/bullshark.rs:306-310 | stacking an earlier anchor that the last stacked anchor reaches keeps the stack a chain of anchors with strictly falling rounds |
| Bullshark.ChainOldestFirst | systems/dag-based/src/bullshark.rs:320-324 | popping a whole chain orders its anchors by strictly rising round, ending with the committed one |
| Bullshark.WalkStart | systems/dag-based/src/bullshark.rs:298 | the walk starts two rounds below an anchor, or at round 0, keeping an even round even |
| Bullshark.WalkStartAsWritten | protocols/dag-based/src/bullshark.rs:232 | the plain subtraction as written is defined exactly from round 2 |
| Bullshark.WalkStartAsWrittenUnderflows | protocols/dag-based/src/bullshark.rs:206-232 | from round 2 the subtraction agrees with `WalkStart`; the leader as written names slot 0 of round 0, which no process fills, but with the leader corrected to `r % n + 1` process 1's genesis vertex is the round-0 anchor, a round-2 vertex passes the commit guard, and the walk start below it underflows |
| Bullshark.SteadyLinks | systems/dag-based/src/bullshark.rs:118-133 | the count of a round's vertices that link to the previous anchor is at most the round's vertices, and positive exactly when one of them links |
| Bullshark.SteadyLinksAsWritten | systems/dag-based/src/bullshark.rs:118-133 | as written the count is the number of occupied slots, links or not |
| Bullshark.SteadyLinksAsWrittenOvercounts | systems/dag-based/src/bullshark.rs:118-133 | the count as written is never below the intended one, and with four processes it reaches a quorum in round 1 although no vertex of that round links to the round-0 anchor |
| Bullshark.ReadyAsWritten | systems/dag-based/src/bullshark.rs:229-241 | the two tests of `try_add_to_dag` as written panic exactly on an empty store: in the protocols crates for every vertex (`len - 1` underflows), in the systems crate for a round-1 vertex with a strong edge (round 0 is looked up) |
| Bullshark.ReadyAsWrittenPanicsEarly | systems/dag-based/src/bullshark.rs:229-241 | a round-1 vertex of four processes that passes the validity check makes every variant panic when it is delivered before any genesis vertex |
| Bullshark.Bullshark.ReadyCorrectsAsWritten | systems/dag-based/src/bullshark.rs:229-241 | on a non-empty store `Ready` is the source's test, and on an empty store no vertex is ready, so it waits in the buffer |
| Bullshark.Bullshark.constructor | systems/dag-based/src/bullshark.rs:30-43 | no process yet, round 0, waiting, empty store, buffer and stack, nothing ordered |
| Bullshark.Bullshark.Start | systems/dag-based/src/bullshark.rs:47-63 | the process learns its id and the process count, and reliably broadcasts one fresh genesis vertex of round 0 from itself, with no edges |
| Bullshark.Bullshark.Anchor | systems/dag-based/src/bullshark.rs:200-203 | an anchor found is a vertex of that round sitting in the leader's slot |
| Bullshark.Bullshark.ParentsInRound | systems/dag-based/src/bullshark.rs:177-190 | the own vertex's edges are vertices of the round below, and always include the own vertex and the anchor of that round when stored |
| Bullshark.Bullshark.ParentsSize | protocols/dag-based/src/sparse_bullshark.rs:240-248 | the own vertex links to every vertex of the round below, except in Sparse Bullshark with more than `d` of them, where it links to between `d` and `d + 2` |
| Bullshark.Bullshark.StartTimer | systems/dag-based/src/bullshark.rs:205-209 | the timer takes the next unique id, is requested with the variant's delay, and the process waits |
| Bullshark.Bullshark.AddToStore | systems/dag-based/src/bullshark.rs:248 | the vertex is stored in its slot, and no stored slot is lost |
| Bullshark.Bullshark.DrawsFor | protocols/dag-based/src/sparse_bullshark.rs:208-222 | making a vertex draws once from the generator exactly when Sparse Bullshark samples, that is when the round below has more than `d` vertices |
| Bullshark.Bullshark.TryAddToDag | systems/dag-based/src/bullshark.rs:229-262 | the vertex is added exactly when the round below it is allocated and its parents are stored, so on an empty store it is never added; then it sits in its slot and leaves the buffer; the round moves only to the vertex's round, only when that round is ahead and holds a quorum, and always then; a vertex not added changes nothing; without a jump the buffer loses exactly the vertex's key, and a leader vertex that commits orders the anchor walk below it as `TryOrdering` states, while any other leaves the log and the last ordered round alone |
| Bullshark.Bullshark.AddAndJump | systems/dag-based/src/bullshark.rs:248-254 | a ready vertex is stored in its slot and the round jumps to its round exactly when that round is ahead and holds a quorum |
| Bullshark.Bullshark.Jump | systems/dag-based/src/bullshark.rs:250-254 | the round moves to `r` exactly when `r` is ahead and holds a quorum; otherwise nothing changes |
| Bullshark.Bullshark.Settle | systems/dag-based/src/bullshark.rs:256-261 | the buffer loses exactly the entry with the vertex's key and the store is unchanged; a vertex in its round's leader slot that commits orders the greedy anchor walk below it, oldest first, and moves the last ordered round to that anchor's round; otherwise the log, the last ordered round and the ordered marks are unchanged |
| Bullshark.Bullshark.AdvanceTo | systems/dag-based/src/bullshark.rs:217-219 | the round becomes `r`, the timer restarts with the variant's delay, and one own vertex of round `r` linking to its parents is allocated, stored and broadcast |
| Bullshark.Bullshark.BroadcastVertex | systems/dag-based/src/bullshark.rs:223-227 | one own vertex of the round, linking to its parents, is allocated, stored in its slot and broadcast |
| Bullshark.Bullshark.StoreOwn | systems/dag-based/src/bullshark.rs:224-225 | the own vertex is the next allocation, with the round's parents, and sits in its slot |
| Bullshark.Bullshark.AllocOwn | systems/dag-based/src/bullshark.rs:177-190 | the own vertex is the next allocation, with the round's parents, and all its parents are stored |
| Bullshark.Bullshark.TryAdvanceRound | systems/dag-based/src/bullshark.rs:214-221 | the round advances by one exactly when the current round holds a quorum (below the round bound); then an own vertex of the new round is stored and broadcast and the timer restarts; otherwise nothing changes |
| Bullshark.Bullshark.NextRound | systems/dag-based/src/bullshark.rs:215-220 | from a round holding a quorum: the next round, its own vertex stored and broadcast, the timer restarted |
| Bullshark.Bullshark.TryOrdering | systems/dag-based/src/bullshark.rs:267-293 | when the vertex commits the anchor two rounds below (even round from 2, enough of its parents link to that anchor), the log gains, oldest first, a chain of anchors from that one down (one vertex per slot: exactly the greedy walk `Walk`, so every earlier anchor reached from the one stacked before is ordered), and the last ordered round becomes that anchor's round; otherwise nothing changes |
| Bullshark.Bullshark.OrderAnchors | systems/dag-based/src/bullshark.rs:295-318 | the log gains, oldest first, a chain that starts at the anchor, each earlier anchor reached from the one before and above the last ordered round, and (one vertex per slot) no anchor the walk reaches is skipped: the chain is `Walk`; the last ordered round becomes the anchor's round; the ordered marks only grow |
| Bullshark.Bullshark.CollectAnchors | systems/dag-based/src/bullshark.rs:296-314 | the stack becomes a chain from the anchor down, each earlier anchor reached from the one stacked before; with one vertex per slot it is exactly the greedy walk `Walk`, which stacks every anchor above the last ordered round that the last stacked one reaches |
| Bullshark.Bullshark.WalkStep | systems/dag-based/src/bullshark.rs:300-312 | one round of the walk keeps the stack a chain that, followed by the rest of the walk, is the whole greedy walk from the committed anchor |
| Bullshark.WalkedNext | systems/dag-based/src/bullshark.rs:299-312 | stacking the reached anchor (and only it, and always it with one vertex per slot) keeps the stack plus the rest of the walk equal to the greedy walk |
| Bullshark.WalkedDone | systems/dag-based/src/bullshark.rs:299 | once the round is not above the last ordered one, the stack is the greedy walk |
| Bullshark.Bullshark.ReachedAnchor | systems/dag-based/src/bullshark.rs:300-310 | an anchor is taken only when `path_exists` reaches it, and (one vertex per slot) always when a path reaches it |
| Bullshark.Bullshark.OrderHistory | systems/dag-based/src/bullshark.rs:320-324 | the stack empties into the log in reverse, and the ordered marks only grow |
| Bullshark.Bullshark.DeliverGenesis | systems/dag-based/src/bullshark.rs:69-75 | a genesis vertex fills its slot of round 0, no stored slot is lost, and the round advances by at most one |
| Bullshark.Bullshark.StoreGenesis | systems/dag-based/src/bullshark.rs:72 | the genesis vertex sits in its slot of round 0 and no stored slot is lost |
| Bullshark.Bullshark.DeliverVertex | systems/dag-based/src/bullshark.rs:77-141 | a bad vertex (too few edges, or relayed by someone else) changes nothing; otherwise it is stored or buffered, the round never goes back and no stored slot is lost; before any genesis vertex is stored a good vertex is inserted into the buffer and nothing else changes |
| Bullshark.Bullshark.Receive | systems/dag-based/src/bullshark.rs:85-96 | after draining the buffer the vertex is stored, or else buffered; the buffer gains nothing else; on an empty store the drain changes nothing and the vertex is inserted into the buffer |
| Bullshark.Bullshark.StoreOrStash | systems/dag-based/src/bullshark.rs:94-96 | the vertex is stored, or else buffered; the buffer gains nothing else; on an empty store it is inserted into the buffer and nothing else changes |
| Bullshark.Bullshark.Stash | systems/dag-based/src/bullshark.rs:95 | the buffer is the sorted insert of the vertex: it holds the vertex's key afterwards and gains nothing else |
| Bullshark.Bullshark.Drain | systems/dag-based/src/bullshark.rs:86-91 | retrying the buffered vertices only shrinks the buffer, never loses a stored slot, and never moves the round back; on an empty store no buffered vertex is ready and nothing changes |
| Bullshark.Bullshark.Steady | systems/dag-based/src/bullshark.rs:98-140 | the round advances by one exactly when the advance rule holds (no wait, the anchor stored on an even round, a quorum linking to the previous anchor on an odd one) and the round holds a quorum, which needs a stored round 0; otherwise nothing changes |
| Bullshark.Bullshark.OnTimer | systems/dag-based/src/bullshark.rs:146-152 | a stale timer changes nothing; the current one ends the wait and advances exactly when the round holds a quorum |
| Rider.WaveOf | systems/dag-based/src/rider.rs:157-159 | every round from 1 lies in a wave from 1, at one of the four places of that wave |
| Rider.WaveRoundInverse | systems/dag-based/src/rider.rs:157-159 | waves tile the rounds from 1: the round of place `k` of wave `w` maps back to `(w, k)`, every round from 1 is such a round, and wave `w` ends at round `4w` |
| Rider.FirstRoundOfWave | systems/dag-based/src/rider.rs:161-165 | a wave's leader round, its first, is 1 modulo 4 |
| Rider.LastRoundOfWave | systems/dag-based/src/rider.rs:106-107 | a round from 4 that is a multiple of 4 is the last round of wave `r / 4`, the wave `try_advance_round` decides |
| Rider.ReadyOf | systems/dag-based/src/rider.rs:78-92 | there are never more ready vertices than buffered ones, and each is an allocated vertex |
| Rider.ReadyOfMembers | systems/dag-based/src/rider.rs:78-92 | a vertex is ready exactly when it is buffered, of a round not after the current one, and all its parents are stored; the ready list keeps the buffer's key order |
| Rider.RetainedMembers | systems/dag-based/src/rider.rs:94 | `retain` keeps exactly the buffered vertices that are not ready, still in key order |
| Rider.ReadyAndRetainedSplit | systems/dag-based/src/rider.rs:78-98 | what `construct` adds and what it keeps together are the buffer, each vertex once |
| Rider.PlacedStores | systems/dag-based/src/rider.rs:96-98 | adding the ready vertices keeps the store's shape, puts each in its slot and leaves every other slot as it was |
| Rider.ReachCount | systems/dag-based/src/rider.rs:182-185 | the number of a round's vertices that reach the leader is at most the round's vertices |
| Rider.LeaderNotAbove | systems/dag-based/src/rider.rs:161-165 | the leader slot of a wave never holds the vertex of a later round |
| Rider.StackPush | systems/dag-based/src/rider.rs:193-199 | stacking an earlier wave leader reached from the top keeps the stack a chain of leaders of falling rounds, all wave leader rounds |
| Rider.DagRider.constructor | systems/dag-based/src/rider.rs:17-27 | no process yet, round 0, empty store, buffer and stack, no decided wave |
| Rider.DagRider.Start | systems/dag-based/src/rider.rs:30-50 | the process learns its id and the process count, schedules `construct`, stores a fresh genesis vertex of its own in round 0 and broadcasts it |
| Rider.DagRider.AddToStore | systems/dag-based/src/rider.rs:97 | the vertex sits in its slot, the rounds grow only to its round, and every other round is unchanged |
| Rider.DagRider.DeliverGenesis | systems/dag-based/src/rider.rs:55-59 | a delivered genesis vertex is placed in its slot of round 0 and nothing else changes in the store |
| Rider.DagRider.DeliverVertex | systems/dag-based/src/rider.rs:61-66 | a bad vertex (too few edges, or relayed by someone else) leaves the buffer unchanged; a good one is buffered |
| Rider.DagRider.OnTimer | systems/dag-based/src/rider.rs:71-73 | the timer runs `construct`: the ready vertices are added, the round may advance, and the next run is scheduled |
| Rider.DagRider.Construct | systems/dag-based/src/rider.rs:77-102 | the buffer's ready vertices are taken out and stored in their slots, the others stay buffered, and the next run is scheduled after 500 jiffies; the log only grows |
| Rider.DagRider.AddReady | systems/dag-based/src/rider.rs:78-98 | the ready vertices are stored in their slots in order and only the others stay buffered |
| Rider.DagRider.Retain | systems/dag-based/src/rider.rs:94 | the buffer keeps exactly what the ready list does not hold |
| Rider.DagRider.AddAll | systems/dag-based/src/rider.rs:96-98 | the store becomes the old one with every ready vertex placed in its slot |
| Rider.DagRider.TryAdvanceRound | systems/dag-based/src/rider.rs:104-114 | the round advances by one exactly when the current round holds a quorum (below the round bound); then the own vertex of the new round is stored and broadcast; otherwise nothing changes; earlier rounds are never touched |
| Rider.DagRider.Advance | systems/dag-based/src/rider.rs:105-113 | the next round, its own vertex (linking to every vertex of the round before) stored and broadcast, and the wave ending at the old round decided when it commits |
| Rider.DagRider.DecideWave | systems/dag-based/src/rider.rs:106-108 | a round ending a wave decides that wave exactly when it commits (one vertex per slot for "only if"); no other wave is decided |
| Rider.DagRider.BroadcastVertex | systems/dag-based/src/rider.rs:110-112 | one own vertex of the round, linking to every vertex of the round before, is allocated, stored in its slot and broadcast |
| Rider.DagRider.NewOwnVertex | systems/dag-based/src/rider.rs:135-147 | the own vertex is the next allocation, of the current round, with an edge to every vertex of the round before |
| Rider.DagRider.WaveLeader | systems/dag-based/src/rider.rs:161-165 | a wave leader found is a vertex of the wave's first round sitting in the leader's slot |
| Rider.DagRider.WaveReady | systems/dag-based/src/rider.rs:170-202 | the wave is decided only when it commits and (one vertex per slot) always then; a decided wave appends to the log, oldest first, a chain of wave leaders from its own leader down through the undecided waves, which (one vertex per slot) is exactly the greedy walk `LeaderWalk`; an undecided one orders nothing |
| Rider.DagRider.CommittedLeader | systems/dag-based/src/rider.rs:171-189 | the leader is returned only when stored and reached by a quorum of the wave's last round, and (one vertex per slot) always then |
| Rider.DagRider.PathVotes | systems/dag-based/src/rider.rs:176-185 | the count never exceeds the round's vertices that reach the leader, and (one vertex per slot) equals it |
| Rider.DagRider.Search | systems/dag-based/src/rider.rs:184 | true only when a path reaches `u` without going below its round, and (one vertex per slot) whenever one does |
| Rider.DagRider.CollectLeaders | systems/dag-based/src/rider.rs:191-199 | the stack becomes a chain of wave leaders from the decided leader down, each reached from the one stacked before, all above the last decided wave; with one vertex per slot it is exactly `LeaderWalk`, so no reached leader of an undecided wave is left out |
| Rider.DagRider.StackLeader | systems/dag-based/src/rider.rs:194-198 | the stack is unchanged or grows by the wave's leader, which exists and is reached from the top; with one vertex per slot a leader that is reached is always stacked |
| Rider.DagRider.WalkWave | systems/dag-based/src/rider.rs:193-199 | one wave of the walk keeps the stack a chain that, followed by the rest of the walk, is the whole greedy walk from the decided leader |
| Rider.LeadersWalkedNext | systems/dag-based/src/rider.rs:193-198 | stacking the reached leader (and always it with one vertex per slot) keeps the stack plus the rest of the walk equal to the greedy walk |
| Rider.LeadersWalkedDone | systems/dag-based/src/rider.rs:193 | once the wave is the last decided one, the stack is the greedy walk from the decided leader |
| Rider.DagRider.ReachedLeader | systems/dag-based/src/rider.rs:194-195 | a wave leader is taken only when `path_exists` reaches it from `leader`, and (one vertex per slot) always when a path does |
| Rider.DagRider.OrderVertices | systems/dag-based/src/rider.rs:204-208 | the stack empties into the log in reverse and the ordered marks only grow |

## Left out

- `Bandwidth.BandwidthQueue.constructor`, `Bandwidth.MatrixBandwidthQueue.constructor` and `Bandwidth.SimulatorBandwidthQueue.constructor` require a bandwidth above zero. The builders accept `Bounded(0)`, and the source then divides by zero at the first squeeze (dscale/src/network/bandwidth.rs:325, matrix/src/network/bandwidth.rs:105, simulator/src/network_condition/bandwidth.rs:79). The model leaves that panic out.
- Randomness is not modelled. Every random choice is an argument of the operation that makes it:
  - the latency samples (`draw`, `draws`);
  - the pool member picked by a random send (`choice`);
  - the ABD client's coin, key index and replica;
  - Sparse Bullshark's sampler (`sampler`).

  Seeding a generator is not modelled. `SamplerOk` states what the model assumes of Sparse Bullshark's sampler: it draws `d` distinct occupied slots whenever a row holds more than `d`.
- `HashMap` and `HashSet` iteration orders are arguments wherever the result depends on them:
  - the pool order of the builders (`order`);
  - the key and missing-value orders of the linearizability checker (`keyOrder`, `missingOrder`).
- A `BinaryHeap` is a sequence of entries, and a pop removes the first minimal entry. Rust leaves the order among equal keys unspecified, so no contract depends on it beyond "some minimal entry".
- Machine integers are unbounded `nat`s. The model does not capture `usize` wrap-around in counters, sizes and byte totals. It does keep `usize::MAX` as a named constant where the source uses it as a value: unbounded bandwidth, the starting minimum of a scan, `GC_REMAIN`.
- Floating point is not modelled:
  - the average-latency update of `order_from` (systems/dag-based/src/dag_utils.rs:124-137);
  - the float latency distributions;
  - the metrics counters.
- Not modelled: logging, progress bars, the thread-local plumbing of the globals, and `Any` downcasting.
  - The globals (clock, unique-id counter, key-value store, access buffers) are explicit objects passed to the operations that use them.
  - A boxed value carries the name of its type.
- Two pairs of source files are modelled once, because their items are identical:
  - matrix/src/global/clock.rs and matrix/src/global/tso.rs have the same members as the `dscale` clock and counter (`Clock`, `Tso`);
  - simulator/src/time/timer.rs keeps its heap exactly as dscale/src/time/timer_manager.rs does (`Timers`).
- dscale/src/communication/message.rs renames the items of dscale/src/message.rs, which `Message` models.
- protocols/bullshark/src/dag.rs differs from protocols/dag-based/src/dag_utils.rs only in how it builds the genesis round (`ProtocolDag.RoundBasedDag.New` against `Init`). `PathExists`, `Add`, `Grow`, `Insert` and `ResetVisited` are the same members of `ProtocolDag.RoundBasedDag`.
- The protocols Bullshark and Sparse Bullshark call `SetRoundSize` and `OrderFrom` on their store. Their crate's own `RoundBasedDAG` has neither, so they run here over the systems store `RoundDag.RoundBasedDag`, which has both.
- The `simulator` simulation's private helpers are part of `Simulation.SimulatorSimulation.Step` and `Run`, not members of their own: `submit_messages`, `submit_event`, `keep_running`, `set_global_time` and `execute_process_step`.
- The setters of `simulator`'s builder are field updates of the `Builders.SimulatorBuilder` datatype: `Seed`, `MaxTime`, `MaxLatency`, `ProcessInstances` and `NetworkBandwidth`.
- What a process does when woken is not modelled. The run loops take each wake-up's reaction as an argument (the messages sent and the timers scheduled).
- `Simulation.DscaleSimulation.Run`, `Simulation.MatrixSimulation.Run` and `Simulation.SimulatorSimulation.Run` take a `fuel` bound on the number of steps, because a run's termination depends on the processes' reactions. Running out of fuel is an outcome of its own.
- `Simulation.DscaleSimulation.Run` and `Simulation.MatrixSimulation.Run` stop on the first send the network refuses. These are the sends to an unknown process or along a route with no latency distribution, which the source aborts on.
- A panic, a failed `expect` or an `unwrap` of a missing entry is an `Err` result or a precondition, whichever the source's callers rule out.
- The wrapping Signed Echo Broadcast does not model the consensus it wraps. Each call into it is represented by the broadcasts it schedules.
- `RoundDag.RoundBasedDag.PathExists`, `ProtocolDag.RoundBasedDag.PathExists`, `Dag.Explore` and `Dag.Order` are exact only when no two allocations share a round and a source (`KeyUnique`); otherwise they are only sound. The same holds for the `Rider` and `Bullshark` members built on them (`Search`, `PathVotes`, `CommittedLeader`, `ReachedLeader`, `ReachedAnchor`, `DecideWave`, `WaveReady`, `CollectLeaders`, `StackLeader`, `CollectAnchors`, `OrderAnchors`, `TryOrdering`): their chains are always sound, and equal to the greedy walks `Rider.LeaderWalk` and `Bullshark.Walk` under `KeyUnique`. The reason is that the source keeps one visited mark per slot.
- `RoundDag.RoundBasedDag.AddVertex` and `ProtocolDag.RoundBasedDag.AddVertex` exclude a vertex more than one round ahead of the store. There the source's unsigned subtraction underflows, and no caller adds such a vertex.
- `ProtocolDag.RoundBasedDag.CurrentMaxAllocatedRound` requires a non-empty store, because `CurrentMaxAllocatedRound` underflows on an empty one.
- `Bullshark.Bullshark.TryAdvanceRound` and `Rider.DagRider.TryAdvanceRound` do not enter a round beyond `MAX_ROUND`, where the store would exceed `usize::MAX` rows.
- `Rider.DagRider.Advance` states only which wave it may decide. The decision itself is stated by `Rider.DagRider.DecideWave` and `Rider.DagRider.WaveReady`.
- `Rider.DagRider.OnTimer` ignores the timer id, as `on_timer` does.
- `WrappedSignedEcho.ByzantineConsistentBroadcast.OnMessage` certifies at the corrected quorum `BcbCommon.QuorumSize` (2f+1), not at the `2f - 1` of protocols/dag-based/src/consistent_broadcast/mod.rs:57-59 used at 163-164. `BcbCommon.QuorumSizeAsWritten` and `BcbCommon.QuorumSizeAsWrittenCounterexample` model the value as written (second row of "## Findings").
- `Bullshark.Bullshark.Steady` advances the Systems and Sparse variants on the corrected count `Bullshark.SteadyLinks`, where systems/dag-based/src/bullshark.rs:118-133 and protocols/dag-based/src/sparse_bullshark.rs:137-145, 155-163 count every vertex of the round. `Bullshark.SteadyLinksAsWritten` and `Bullshark.SteadyLinksAsWrittenOvercounts` model the count as written (third row of "## Findings").
- `Bullshark.Bullshark.Proceeds` is the advance rule of `Steady` and uses the same corrected count.
- `Bullshark.Bullshark.Anchor` uses the corrected leader `DagConsensus.LeaderId` (`r % n + 1`) in the Protocols variant too, where protocols/dag-based/src/bullshark.rs:145-151 has `r % n`. `DagConsensus.LeaderIdAsWritten` and `DagConsensus.LeaderIdAsWrittenIsNoProcess` model the leader as written (first row of "## Findings").
- `Bullshark.Bullshark.Settle` tests for the leader vertex with the same corrected leader in the Protocols variant.
- `Bullshark.Bullshark.TryOrdering` finds the anchor with the same corrected leader in the Protocols variant.
- `Bullshark.Bullshark.TryAddToDag`, `Bullshark.Bullshark.StoreOrStash`, `Bullshark.Bullshark.Receive`, `Bullshark.Bullshark.Drain` and `Bullshark.Bullshark.DeliverVertex` use the corrected test `Bullshark.Bullshark.Ready`: a vertex is ready only when the round below it is allocated. Before any genesis vertex is stored they buffer every good vertex. Here systems/dag-based/src/bullshark.rs:231-241 panics on a round-1 vertex, and protocols/dag-based/src/bullshark.rs:172 and sparse_bullshark.rs:286 panic on every vertex. `Bullshark.ReadyAsWritten` and `Bullshark.ReadyAsWrittenPanicsEarly` model the test as written (fifth row of "## Findings").
- `Bullshark.Bullshark.Steady` also looks for a quorum only once round 0 is stored. On an empty store the Protocols variant's `TryAdvanceRound` (protocols/dag-based/src/bullshark.rs:157-158) would index round 0 at 112-113. As written that call is never reached on an empty store, because `TryAddToDAG` panics first.
- `Bullshark.Bullshark.TryAddToDag` states its exact buffer and its ordering only when the vertex does not make the round jump. On a jump the own vertex of the new round is stored and settled first, and its ordering and `x`'s are stated only as the log growing.
- `Bullshark.Bullshark.CollectAnchors` starts the walk at the saturating `Bullshark.WalkStart` in the Protocols variant too, where protocols/dag-based/src/bullshark.rs:232 subtracts 2 in `usize`. `Bullshark.WalkStartAsWritten` and `Bullshark.WalkStartAsWrittenUnderflows` model the subtraction as written (fourth row of "## Findings").
- `Bullshark.Bullshark.BroadcastVertex` stores the own vertex of the new round directly, instead of routing it through `try_add_to_dag`. That vertex's parents are all stored and it is of the current round, so `try_add_to_dag` would add it at once.

## Findings

| source | as written | input that shows it | evidently intended | confidence | as-written member | corrected member |
|---|---|---|---|---|---|---|
| protocols/dag-based/src/bullshark.rs:145-147 | the leader of round `r` is `r % n`, but process ids run from 1 to `n` | `n = 4`, round 4: leader 0, a slot no process fills, so the round has no anchor | `r % n + 1`, as in systems/dag-based/src/bullshark.rs:196-198 | high, not executed | `DagConsensus.LeaderIdAsWritten`, `DagConsensus.LeaderIdAsWrittenIsNoProcess` | `DagConsensus.LeaderId` |
| protocols/dag-based/src/consistent_broadcast/mod.rs:57-59 | the quorum is `2f - 1` in `usize` | 3 processes: `f = 0` and the subtraction underflows; 4 processes: a quorum of 1, so two certificates need share no signer | `2f + 1`, as in systems/dag-based/src/consistent_broadcast/mod.rs:29-31 | high, not executed | `BcbCommon.QuorumSizeAsWritten`, `BcbCommon.QuorumSizeAsWrittenCounterexample` | `BcbCommon.QuorumSize` |
| systems/dag-based/src/bullshark.rs:118-133, protocols/dag-based/src/sparse_bullshark.rs:137-163 | the odd-round wait counts the vertices of the round by mapping each to whether it links to the anchor, then counts the mapped items, so every vertex counts | 4 processes, round 1 with three vertices none of which links to the round-0 anchor: the count reaches the quorum of 3 | count only the vertices that link to the anchor | medium, not executed | `Bullshark.SteadyLinksAsWritten`, `Bullshark.SteadyLinksAsWrittenOvercounts` | `Bullshark.SteadyLinks` |
| protocols/dag-based/src/bullshark.rs:232 | the ordering walk starts at `anchor.round - 2` in `usize` | with the leader corrected to `r % n + 1` (first row), process 1's genesis vertex fills the round-0 leader slot, so a round-2 vertex may commit the round-0 anchor and the walk below it underflows; with the leader as written slot 0 of round 0 stays empty and the walk is never reached | `saturating_sub(2)`, as in systems/dag-based/src/bullshark.rs:298 and protocols/dag-based/src/sparse_bullshark.rs:347 | low, not executed | `Bullshark.WalkStartAsWritten`, `Bullshark.WalkStartAsWrittenUnderflows` | `Bullshark.WalkStart` |
| systems/dag-based/src/bullshark.rs:229-241 | `try_add_to_dag` compares the vertex's round minus one with `current_max_allocated_round`, which is 0 on an empty store in the systems crate (systems/dag-based/src/dag_utils.rs:205-207) and `len - 1` in `usize` in the protocols crates (protocols/dag-based/src/bullshark.rs:172, sparse_bullshark.rs:286) | 4 processes; reliable broadcast hands process 2 the round-1 vertex of process 1 before any genesis vertex: the systems crate lets it through and looks up round 0 of an empty store, and the protocols crates underflow at once | a vertex whose round below is not allocated waits in the buffer, as one of round 2 or more already does in the systems crate | plausible, not executed | `Bullshark.ReadyAsWritten`, `Bullshark.ReadyAsWrittenPanicsEarly` | `Bullshark.Bullshark.ReadyCorrectsAsWritten`, `Bullshark.Bullshark.DeliverVertex` |
