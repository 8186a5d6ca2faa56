/**
 * Messages as the simulators route them: a type-tagged payload with a
 * virtual size in bytes, and a routed message ordered by arrival time only.
 */
module Message {
  import opened Wrappers
  import opened Jiffy

  /** A process id; 0 is never given to a process. */
  type ProcessId = nat

  /** The size a message type reports when it does not override `virtual_size`. */
  const DEFAULT_VIRTUAL_SIZE: nat := 0

  /**
   * A shared pointer to a message of some concrete type. `ty` names the
   * type (what `Any` downcasting checks) and `size` is what that type's
   * `virtual_size` reports.
   */
  datatype MessagePtr<M> = MessagePtr(ty: string, size: nat, body: M)

  datatype CastError = WrongType

  /** A payload of a type that does not override `virtual_size`. */
  function WithDefaultSize<M>(ty: string, body: M): (p: MessagePtr<M>)
    ensures p.size == 0 && p.ty == ty && p.body == body
  {
    MessagePtr(ty, DEFAULT_VIRTUAL_SIZE, body)
  }

  /** `try_as::<T>`: the payload when it is of type `ty`. */
  function TryAs<M>(p: MessagePtr<M>, ty: string): (r: Option<M>)
    ensures r.Some? <==> p.ty == ty
    ensures r.Some? ==> r.value == p.body
  {
    if p.ty == ty then Some(p.body) else None
  }

  /** `is::<T>`. */
  function Is<M>(p: MessagePtr<M>, ty: string): (b: bool)
    ensures b <==> TryAs(p, ty).Some?
  {
    p.ty == ty
  }

  /** `as_type::<T>`: a payload of another type aborts. */
  function As<M>(p: MessagePtr<M>, ty: string): (r: Result<M, CastError>)
    ensures r.Ok? <==> Is(p, ty)
    ensures r.Ok? ==> Some(r.value) == TryAs(p, ty)
  {
    if p.ty == ty then Ok(p.body) else Err(WrongType)
  }

  datatype RoutedMessage<M> = RoutedMessage(arrival: Jiffies, source: ProcessId, dest: ProcessId, message: MessagePtr<M>)

  /** `RoutedMessage` equality looks at the arrival time only. */
  predicate Same<M>(a: RoutedMessage<M>, b: RoutedMessage<M>) {
    a.arrival == b.arrival
  }

  /** `RoutedMessage` ordering looks at the arrival time only. */
  predicate Before<M>(a: RoutedMessage<M>, b: RoutedMessage<M>) {
    Le(a.arrival, b.arrival)
  }

  /** The ordering is total, and two messages compare equal exactly when each is before the other. */
  lemma OrderIsTotalPreorder<M>(a: RoutedMessage<M>, b: RoutedMessage<M>, c: RoutedMessage<M>)
    ensures Before(a, b) || Before(b, a)
    ensures Before(a, b) && Before(b, c) ==> Before(a, c)
    ensures Same(a, b) <==> Before(a, b) && Before(b, a)
  {
  }

  /** `i` is the first position holding a message that no other message precedes. */
  predicate IsEarliest<M>(q: seq<RoutedMessage<M>>, i: nat) {
    i < |q| &&
    (forall j :: 0 <= j < |q| ==> Before(q[i], q[j])) &&
    (forall j :: 0 <= j < i ==> !Before(q[j], q[i]))
  }

  /** The earliest arrival time among the messages of a non-empty queue. */
  function MinArrival<M>(q: seq<RoutedMessage<M>>): (t: Jiffies)
    requires q != []
    ensures forall j :: 0 <= j < |q| ==> Le(t, q[j].arrival)
    ensures exists j :: 0 <= j < |q| && q[j].arrival == t
    decreases |q|
  {
    if |q| == 1 then q[0].arrival
    else
      var rest := MinArrival(q[1..]);
      assert forall j :: 1 <= j < |q| ==> q[j] == q[1..][j - 1];
      if Le(q[0].arrival, rest) then q[0].arrival else rest
  }

  /** The message `Peek` and `Pop` pick carries the queue's earliest arrival time. */
  lemma EarliestHasMinArrival<M>(q: seq<RoutedMessage<M>>, i: nat)
    requires IsEarliest(q, i)
    ensures q[i].arrival == MinArrival(q)
  {
    var t := MinArrival(q);
    var j :| 0 <= j < |q| && q[j].arrival == t;
    assert Before(q[i], q[j]);
  }

  /** At most one position is the first earliest, so `Peek` and `Pop` agree on it. */
  lemma EarliestUnique<M>(q: seq<RoutedMessage<M>>, i: nat, k: nat)
    requires IsEarliest(q, i) && IsEarliest(q, k)
    ensures i == k
  {
    assert Before(q[i], q[k]) && Before(q[k], q[i]);
  }

  /** `m` is what `Peek` shows: the message at the first earliest position. */
  ghost predicate IsHead<M>(q: seq<RoutedMessage<M>>, m: RoutedMessage<M>) {
    exists i: nat :: IsEarliest(q, i) && m == q[i]
  }

  /** `q'` is `q` after `Pop` took out its head `m`. */
  ghost predicate Dequeued<M>(q: seq<RoutedMessage<M>>, q': seq<RoutedMessage<M>>, m: RoutedMessage<M>) {
    exists i: nat :: IsEarliest(q, i) && m == q[i] && q' == RemoveAt(q, i)
  }

  /** A popped message has the queue's earliest arrival, and nothing else leaves or joins the queue. */
  lemma DequeuedFacts<M>(q: seq<RoutedMessage<M>>, q': seq<RoutedMessage<M>>, m: RoutedMessage<M>)
    requires Dequeued(q, q', m)
    ensures m in q && m.arrival == MinArrival(q) && IsHead(q, m)
    ensures |q'| == |q| - 1 && forall x :: x in q' ==> x in q
    ensures multiset(q) == multiset(q') + multiset{m}
  {
    var i: nat :| IsEarliest(q, i) && m == q[i] && q' == RemoveAt(q, i);
    EarliestHasMinArrival(q, i);
    forall x | x in q' ensures x in q {
      assert x in q[..i] || x in q[i + 1..];
    }
  }

  /** A linear scan for the first earliest message of a non-empty queue. */
  method FindEarliest<M>(q: seq<RoutedMessage<M>>) returns (i: nat)
    requires |q| > 0
    ensures IsEarliest(q, i)
  {
    i := 0;
    var k := 1;
    while k < |q|
      invariant 1 <= k <= |q| && i < k
      invariant forall j :: 0 <= j < k ==> Before(q[i], q[j])
      invariant forall j :: 0 <= j < i ==> !Before(q[j], q[i])
    {
      if Lt(q[k].arrival, q[i].arrival) {
        i := k;
      }
      k := k + 1;
    }
  }

  /** `q` without position `i`. */
  function RemoveAt<T>(q: seq<T>, i: nat): (r: seq<T>)
    requires i < |q|
    ensures |r| == |q| - 1
    ensures multiset(r) == multiset(q) - multiset{q[i]}
  {
    assert q == q[..i] + [q[i]] + q[i + 1..];
    q[..i] + q[i + 1..]
  }

  /**
   * `TimePriorityMessageQueue`, a min-heap by arrival time. The model keeps
   * the messages in a sequence; popping removes the first earliest one.
   * Among messages with equal arrival times a binary heap promises no
   * particular order, so this choice is one of the orders it may produce.
   */
  class TimePriorityMessageQueue<M> {
    var items: seq<RoutedMessage<M>>

    constructor ()
      ensures items == []
    {
      items := [];
    }

    method Push(m: RoutedMessage<M>)
      modifies this
      ensures items == old(items) + [m]
    {
      items := items + [m];
    }

    /** The earliest message, left in place. */
    method Peek() returns (r: Option<RoutedMessage<M>>)
      ensures r.None? <==> items == []
      ensures r.Some? ==> IsHead(items, r.value)
    {
      if items == [] {
        return None;
      }
      var i := FindEarliest(items);
      return Some(items[i]);
    }

    /** Removes and returns the earliest message; what is removed is exactly what `Peek` shows. */
    method Pop() returns (r: Option<RoutedMessage<M>>)
      modifies this
      ensures r.None? <==> old(items) == []
      ensures r.None? ==> items == []
      ensures r.Some? ==> Dequeued(old(items), items, r.value)
    {
      if items == [] {
        return None;
      }
      var i := FindEarliest(items);
      r := Some(items[i]);
      items := RemoveAt(items, i);
    }
  }
}
