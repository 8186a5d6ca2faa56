/**
 * Signed Echo Broadcast as a wrapper around a DAG consensus process: the
 * consensus's broadcasts are captured while it runs and then sent as
 * signed-echo instances, its point-to-point traffic passes through as
 * `Skip`, and a certified message is handed to it. The wrapped consensus
 * itself is not modelled: each call into it is represented by the
 * broadcasts it scheduled, passed in as `scheduled`.
 */
module WrappedSignedEcho {
  import opened Wrappers
  import opened Message
  import opened BcbCommon

  datatype BcbMessage<M> =
    | Initiate(id: BcbMessageId, m: M)
    | Signature(id: BcbMessageId)
    | Certificate(quorumSize: nat, id: BcbMessageId)
    | Skip(m: M)

  /** `VirtualSize`: a skipped message costs what it costs; the others as in the standalone variant. */
  function VirtualSize<M>(msg: BcbMessage<M>, innerSize: M -> nat): (size: nat)
    ensures msg.Skip? ==> size == innerSize(msg.m)
    ensures msg.Initiate? ==> size == ID_SIZE + innerSize(msg.m)
    ensures msg.Signature? ==> size == SIG_SIZE
    ensures msg.Certificate? ==> size == msg.quorumSize * SIG_SIZE
  {
    match msg
    case Skip(m) => innerSize(m)
    case Initiate(_, m) => ID_SIZE + innerSize(m)
    case Signature(_) => SIG_SIZE
    case Certificate(q, _) => q * SIG_SIZE
  }

  /** The broadcasts that start instances for `msgs` under the ids after `base`. */
  function Initiates<M>(pid: ProcessId, base: nat, msgs: seq<M>): (out: seq<Send<BcbMessage<M>>>)
    ensures |out| == |msgs|
    ensures forall i :: 0 <= i < |msgs| ==> out[i] == Broadcast(Initiate(BcbMessageId(pid, base + i + 1), msgs[i]))
  {
    if msgs == [] then []
    else Initiates(pid, base, msgs[..|msgs| - 1]) + [Broadcast(Initiate(BcbMessageId(pid, base + |msgs|), msgs[|msgs| - 1]))]
  }

  /** `messages` after storing each of `msgs`, unsigned, under the ids after `base`. */
  function Pending<M>(messages: map<BcbMessageId, (M, nat)>, pid: ProcessId, base: nat, msgs: seq<M>): map<BcbMessageId, (M, nat)>
  {
    if msgs == [] then messages
    else Pending(messages, pid, base, msgs[..|msgs| - 1])[BcbMessageId(pid, base + |msgs|) := (msgs[|msgs| - 1], 0)]
  }

  /** The i-th message of a batch is stored, unsigned, under the i-th id after `base`. */
  lemma {:induction false} PendingStoresEach<M>(messages: map<BcbMessageId, (M, nat)>, pid: ProcessId, base: nat, msgs: seq<M>, i: nat)
    requires i < |msgs|
    ensures BcbMessageId(pid, base + i + 1) in Pending(messages, pid, base, msgs)
    ensures Pending(messages, pid, base, msgs)[BcbMessageId(pid, base + i + 1)] == (msgs[i], 0)
  {
    if i < |msgs| - 1 {
      PendingStoresEach(messages, pid, base, msgs[..|msgs| - 1], i);
    }
  }

  /** Entries that are neither this process's nor newer than `base` are untouched. */
  lemma {:induction false} PendingKeepsOthers<M>(messages: map<BcbMessageId, (M, nat)>, pid: ProcessId, base: nat, msgs: seq<M>, id: BcbMessageId)
    requires id in messages && (id.processId != pid || id.messageId <= base)
    ensures id in Pending(messages, pid, base, msgs)
    ensures Pending(messages, pid, base, msgs)[id] == messages[id]
  {
    if msgs != [] {
      PendingKeepsOthers(messages, pid, base, msgs[..|msgs| - 1], id);
    }
  }

  /** Nothing else is added: a new key is one of the batch's ids. */
  lemma {:induction false} PendingAddsOnlyBatch<M>(messages: map<BcbMessageId, (M, nat)>, pid: ProcessId, base: nat, msgs: seq<M>, id: BcbMessageId)
    requires id in Pending(messages, pid, base, msgs)
    ensures id in messages || (id.processId == pid && base < id.messageId <= base + |msgs|)
  {
    if msgs != [] && id != BcbMessageId(pid, base + |msgs|) {
      PendingAddsOnlyBatch(messages, pid, base, msgs[..|msgs| - 1], id);
    }
  }

  class ByzantineConsistentBroadcast<M> {
    var messages: map<BcbMessageId, (M, nat)>
    var waitingCertificates: set<BcbMessageId>
    var processId: ProcessId
    var messageId: nat
    var procNum: nat

    /** Every own id stored was issued already, so the next one is fresh. */
    ghost predicate Valid()
      reads this
    {
      forall id :: id in messages && id.processId == processId ==> id.messageId <= messageId
    }

    /** `Wrap`: nothing stored, all counters zero. */
    constructor Wrap()
      ensures Valid()
      ensures messages == map[] && waitingCertificates == {}
      ensures processId == 0 && messageId == 0 && procNum == 0
    {
      messages := map[];
      waitingCertificates := {};
      processId := 0;
      messageId := 0;
      procNum := 0;
    }

    /** `NextUniqueMessageId`: the sequence number grows by one, so this process never reuses an id. */
    method NextUniqueMessageId() returns (id: BcbMessageId)
      requires Valid()
      modifies this
      ensures messageId == old(messageId) + 1 && id == BcbMessageId(processId, messageId)
      ensures id !in messages
      ensures messages == old(messages) && waitingCertificates == old(waitingCertificates)
      ensures processId == old(processId) && procNum == old(procNum)
      ensures Valid()
    {
      messageId := messageId + 1;
      id := BcbMessageId(processId, messageId);
    }

    /** `InitiateBroadcasts`: each message, in order, is stored unsigned under a fresh id and broadcast. */
    method InitiateBroadcasts(msgs: seq<M>) returns (out: seq<Send<BcbMessage<M>>>)
      requires Valid()
      modifies this
      ensures Valid()
      ensures messageId == old(messageId) + |msgs|
      ensures messages == Pending(old(messages), processId, old(messageId), msgs)
      ensures out == Initiates(processId, old(messageId), msgs)
      ensures waitingCertificates == old(waitingCertificates) && processId == old(processId) && procNum == old(procNum)
    {
      out := [];
      var i := 0;
      while i < |msgs|
        invariant i <= |msgs|
        invariant Valid()
        invariant messageId == old(messageId) + i
        invariant messages == Pending(old(messages), processId, old(messageId), msgs[..i])
        invariant out == Initiates(processId, old(messageId), msgs[..i])
        invariant waitingCertificates == old(waitingCertificates) && processId == old(processId) && procNum == old(procNum)
      {
        assert msgs[..i + 1][..i] == msgs[..i];
        var id := NextUniqueMessageId();
        messages := messages[id := (msgs[i], 0)];
        out := out + [Broadcast(Initiate(id, msgs[i]))];
        i := i + 1;
      }
      assert msgs[..i] == msgs;
    }

    /**
     * `WithInnerAccess`: the wrapped consensus runs first, and the
     * broadcasts it scheduled meanwhile are initiated after it returns.
     */
    method WithInnerAccess(scheduled: seq<M>) returns (out: seq<Send<BcbMessage<M>>>)
      requires Valid()
      modifies this
      ensures Valid()
      ensures messageId == old(messageId) + |scheduled|
      ensures messages == Pending(old(messages), processId, old(messageId), scheduled)
      ensures out == Initiates(processId, old(messageId), scheduled)
      ensures waitingCertificates == old(waitingCertificates) && processId == old(processId) && procNum == old(procNum)
    {
      out := InitiateBroadcasts(scheduled);
    }

    /** `Bootstrap`: learn the own id and the process count, then bootstrap the consensus. */
    method Bootstrap(assignedId: ProcessId, processNumber: nat, scheduled: seq<M>) returns (out: seq<Send<BcbMessage<M>>>)
      requires messages == map[]
      modifies this
      ensures Valid()
      ensures processId == assignedId && procNum == processNumber
      ensures messageId == old(messageId) + |scheduled|
      ensures messages == Pending(map[], assignedId, old(messageId), scheduled)
      ensures out == Initiates(assignedId, old(messageId), scheduled)
      ensures waitingCertificates == old(waitingCertificates)
    {
      processId := assignedId;
      procNum := processNumber;
      out := WithInnerAccess(scheduled);
    }

    /**
     * `OnMessage`: handle one message. `delivered` is what the wrapped
     * consensus receives, and `scheduled` is what it broadcasts in turn.
     */
    method OnMessage(from: ProcessId, msg: BcbMessage<M>, scheduled: seq<M>)
      returns (delivered: Option<(ProcessId, M)>, out: seq<Send<BcbMessage<M>>>)
      requires Valid()
      requires msg.Signature? && msg.id in messages ==> procNum >= 1
      modifies this
      ensures Valid()
      ensures processId == old(processId) && procNum == old(procNum)
      // Whenever the consensus runs, its broadcasts become new instances.
      ensures delivered.Some? ==>
        messageId == old(messageId) + |scheduled| &&
        out == Initiates(processId, old(messageId), scheduled)
      ensures delivered.None? ==> messageId == old(messageId)
      // Point-to-point traffic of the consensus is passed through.
      ensures msg.Skip? ==>
        delivered == Some((from, msg.m)) && waitingCertificates == old(waitingCertificates) &&
        messages == Pending(old(messages), processId, old(messageId), scheduled)
      // A certificate delivers a stored message and forgets it, or waits for the message.
      ensures msg.Certificate? && msg.id in old(messages) ==>
        delivered == Some((from, old(messages)[msg.id].0)) && waitingCertificates == old(waitingCertificates) &&
        messages == Pending(old(messages) - {msg.id}, processId, old(messageId), scheduled)
      ensures msg.Certificate? && msg.id !in old(messages) ==>
        delivered == None && out == [] &&
        messages == old(messages) && waitingCertificates == old(waitingCertificates) + {msg.id}
      // Another process's message whose certificate is already here is delivered unsigned; the wait entry stays.
      ensures msg.Initiate? && msg.id.processId != processId && msg.id in old(waitingCertificates) ==>
        delivered == Some((from, msg.m)) && waitingCertificates == old(waitingCertificates) &&
        messages == Pending(old(messages), processId, old(messageId), scheduled)
      // Otherwise it is stored (unless it is our own) and signed back to its sender.
      ensures msg.Initiate? && (msg.id.processId == processId || msg.id !in old(waitingCertificates)) ==>
        delivered == None && out == [SendTo(from, Signature(msg.id))] &&
        messages == (if msg.id.processId != processId then old(messages)[msg.id := (msg.m, 0)] else old(messages)) &&
        waitingCertificates == old(waitingCertificates)
      // Every signature from the quorum on sends the certificate (again).
      ensures msg.Signature? && msg.id in old(messages) ==>
        delivered == None && waitingCertificates == old(waitingCertificates) &&
        messages == old(messages)[msg.id := (old(messages)[msg.id].0, old(messages)[msg.id].1 + 1)] &&
        out == (if old(messages)[msg.id].1 + 1 >= QuorumSize(procNum) then [Broadcast(Certificate(QuorumSize(procNum), msg.id))] else [])
      ensures msg.Signature? && msg.id !in old(messages) ==>
        delivered == None && out == [] && messages == old(messages) && waitingCertificates == old(waitingCertificates)
    {
      match msg {
        case Skip(m) =>
          delivered := Some((from, m));
          out := WithInnerAccess(scheduled);
        case Certificate(_, id) =>
          if id in messages {
            var m := messages[id].0;
            messages := messages - {id};
            delivered := Some((from, m));
            out := WithInnerAccess(scheduled);
          } else {
            waitingCertificates := waitingCertificates + {id};
            delivered := None;
            out := [];
          }
        case Initiate(id, m) =>
          if id.processId != processId {
            if id in waitingCertificates {
              delivered := Some((from, m));
              out := WithInnerAccess(scheduled);
              return;
            }
            messages := messages[id := (m, 0)];
          }
          delivered := None;
          out := [SendTo(from, Signature(id))];
        case Signature(id) =>
          delivered := None;
          out := [];
          if id in messages {
            var count := messages[id].1 + 1;
            messages := messages[id := (messages[id].0, count)];
            if count >= QuorumSize(procNum) {
              out := [Broadcast(Certificate(QuorumSize(procNum), id))];
            }
          }
      }
    }
  }

  /** The instances started for a batch get pairwise distinct ids. */
  lemma InitiatesHaveDistinctIds<M>(pid: ProcessId, base: nat, msgs: seq<M>, i: nat, j: nat)
    requires i < j < |msgs|
    ensures Initiates(pid, base, msgs)[i].msg.id != Initiates(pid, base, msgs)[j].msg.id
  {
  }
}
