/**
 * The timer actor: a min-heap of pending timers keyed by the full tuple
 * (fire time, process id, timer id), so equal fire times go to the smaller
 * process id first and then to the smaller timer id. `dscale`'s
 * `TimerManager` and `simulator`'s `Timers` behave identically.
 */
module Timers {
  import opened Wrappers
  import opened Jiffy
  import opened Message

  /** A pending timer: fire time, owner, id. */
  datatype TimerEntry = TimerEntry(at: Jiffies, pid: ProcessId, tid: nat)

  /** A request buffered by a process: fire `after` jiffies from when it is submitted. */
  datatype TimerRequest = TimerRequest(pid: ProcessId, tid: nat, after: Jiffies)

  /** The heap order: lexicographic on (time, process id, timer id). */
  predicate KeyLe(a: TimerEntry, b: TimerEntry) {
    a.at.ticks < b.at.ticks ||
    (a.at == b.at && (a.pid < b.pid || (a.pid == b.pid && a.tid <= b.tid)))
  }

  /** The key order is total and antisymmetric, so the smallest entry is unique. */
  lemma KeyOrderIsTotal(a: TimerEntry, b: TimerEntry)
    ensures KeyLe(a, b) || KeyLe(b, a)
    ensures KeyLe(a, b) && KeyLe(b, a) ==> a == b
  {
  }

  /** `e` is a smallest entry of `q`. */
  predicate IsMinEntry(q: seq<TimerEntry>, e: TimerEntry) {
    e in q && forall j :: 0 <= j < |q| ==> KeyLe(e, q[j])
  }

  lemma MinEntryUnique(q: seq<TimerEntry>, e: TimerEntry, f: TimerEntry)
    requires IsMinEntry(q, e) && IsMinEntry(q, f)
    ensures e == f
  {
    var i :| 0 <= i < |q| && q[i] == f;
    var k :| 0 <= k < |q| && q[k] == e;
    KeyOrderIsTotal(e, f);
    assert KeyLe(e, q[i]) && KeyLe(f, q[k]);
  }

  /** No timer in `q` fires before `t`. */
  predicate DueNotBefore(q: seq<TimerEntry>, t: Jiffies) {
    forall j :: 0 <= j < |q| ==> Le(t, q[j].at)
  }

  /** The entries a batch of requests submitted at `now` becomes, in order. */
  function Scheduled(events: seq<TimerRequest>, now: Jiffies): (r: seq<TimerEntry>)
    ensures |r| == |events|
    ensures forall i :: 0 <= i < |r| ==>
      r[i].pid == events[i].pid && r[i].tid == events[i].tid && Sub(r[i].at, now) == Ok(events[i].after)
  {
    seq(|events|, i requires 0 <= i < |events| => TimerEntry(Add(now, events[i].after), events[i].pid, events[i].tid))
  }

  /** A linear scan for a smallest entry. */
  method FindMin(q: seq<TimerEntry>) returns (i: nat)
    requires q != []
    ensures i < |q| && IsMinEntry(q, q[i])
  {
    i := 0;
    var k := 1;
    while k < |q|
      invariant i < k <= |q|
      invariant forall j :: 0 <= j < k ==> KeyLe(q[i], q[j])
    {
      if !KeyLe(q[i], q[k]) {
        KeyOrderIsTotal(q[i], q[k]);
        i := k;
      }
      k := k + 1;
    }
  }

  class TimerHeap {
    var entries: seq<TimerEntry>

    constructor ()
      ensures entries == []
    {
      entries := [];
    }

    /** `submit` / `ScheduleTimers`: each buffered request is scheduled at `now` plus its delay. */
    method Submit(events: seq<TimerRequest>, now: Jiffies)
      modifies this
      ensures entries == old(entries) + Scheduled(events, now)
    {
      var i := 0;
      while i < |events|
        invariant i <= |events|
        invariant entries == old(entries) + Scheduled(events[..i], now)
      {
        assert Scheduled(events[..i + 1], now) == Scheduled(events[..i], now) + [TimerEntry(Add(now, events[i].after), events[i].pid, events[i].tid)];
        entries := entries + [TimerEntry(Add(now, events[i].after), events[i].pid, events[i].tid)];
        i := i + 1;
      }
      assert events[..i] == events;
    }

    /** `peek_closest`: the earliest fire time, or nothing when no timer is pending. */
    method PeekClosest() returns (r: Option<Jiffies>)
      ensures r.None? <==> entries == []
      ensures r.Some? ==> (forall j :: 0 <= j < |entries| ==> Le(r.value, entries[j].at)) &&
                          exists j :: 0 <= j < |entries| && entries[j].at == r.value
    {
      if entries == [] {
        return None;
      }
      var i := FindMin(entries);
      r := Some(entries[i].at);
    }

    /**
     * `step`: takes out the smallest entry, to be fired for its process. The
     * source panics on an empty heap; the run loop only steps an actor whose
     * `peek_closest` is some time.
     */
    method Step() returns (e: TimerEntry)
      requires entries != []
      modifies this
      ensures IsMinEntry(old(entries), e)
      ensures multiset(entries) == multiset(old(entries)) - multiset{e} && |entries| == |old(entries)| - 1
      ensures DueNotBefore(entries, e.at)
    {
      var i := FindMin(entries);
      e := entries[i];
      assert entries == entries[..i] + [e] + entries[i + 1..];
      ghost var q := entries;
      entries := entries[..i] + entries[i + 1..];
      forall j | 0 <= j < |entries| ensures Le(e.at, entries[j].at) {
        if j < i {
          assert entries[j] == q[j];
        } else {
          assert entries[j] == q[j + 1];
        }
      }
    }
  }

  /**
   * The timer that fires is the one due first; among timers due at the same
   * time, the one of the smaller process id, then the one of the smaller id.
   */
  lemma FiresInKeyOrder(q: seq<TimerEntry>, e: TimerEntry, x: TimerEntry)
    requires IsMinEntry(q, e) && x in q
    ensures Le(e.at, x.at)
    ensures e.at == x.at ==> e.pid <= x.pid
    ensures e.at == x.at && e.pid == x.pid ==> e.tid <= x.tid
  {
    var j :| 0 <= j < |q| && q[j] == x;
    assert KeyLe(e, q[j]);
  }

  /** Timers scheduled at `now` never fire before `now`. */
  lemma ScheduledNotBefore(events: seq<TimerRequest>, now: Jiffies)
    ensures DueNotBefore(Scheduled(events, now), now)
  {
  }

  lemma DueNotBeforeConcat(a: seq<TimerEntry>, b: seq<TimerEntry>, t: Jiffies)
    requires DueNotBefore(a, t) && DueNotBefore(b, t)
    ensures DueNotBefore(a + b, t)
  {
    forall j | 0 <= j < |a + b| ensures Le(t, (a + b)[j].at) {
      if j < |a| {
        assert (a + b)[j] == a[j];
      } else {
        assert (a + b)[j] == b[j - |a|];
      }
    }
  }
}
