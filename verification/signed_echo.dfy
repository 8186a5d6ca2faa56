/**
 * Signed Echo Broadcast as the standalone component of the DAG protocols:
 * the sender stores its message with a signature count and broadcasts it;
 * every process that sees it stores it and signs; when the sender has a
 * quorum of signatures it broadcasts a certificate, and a process that
 * holds the message and receives the certificate delivers it.
 */
module SignedEcho {
  import opened Wrappers
  import opened Message
  import opened BcbCommon

  datatype SignedEchoMessage<M> =
    | Initiate(id: BcbMessageId, m: M)
    | Signature(id: BcbMessageId)
    | Certificate(quorumSize: nat, id: BcbMessageId)

  /** `VirtualSize`: an id plus the payload, one signature, or a quorum of signatures. */
  function VirtualSize<M>(msg: SignedEchoMessage<M>, innerSize: M -> nat): (size: nat)
    ensures msg.Initiate? ==> size == ID_SIZE + innerSize(msg.m)
    ensures msg.Signature? ==> size == SIG_SIZE
    ensures msg.Certificate? ==> size == msg.quorumSize * SIG_SIZE
  {
    match msg
    case Initiate(_, m) => ID_SIZE + innerSize(m)
    case Signature(_) => SIG_SIZE
    case Certificate(q, _) => q * SIG_SIZE
  }

  class ByzantineConsistentBroadcast<M> {
    /** Messages awaiting their certificate, with the signatures gathered so far. */
    var messages: map<BcbMessageId, (M, nat)>
    /** Ids whose certificate arrived before the message. */
    var waitingCertificates: set<BcbMessageId>
    var processId: ProcessId
    var messageId: nat
    var procNum: nat

    /** Every own id stored was issued already, so the next one is fresh. */
    ghost predicate Valid()
      reads this
    {
      forall id :: id in messages && id.processId == processId ==> id.messageId <= messageId
    }

    /** `Default`: nothing stored, all counters zero. */
    constructor ()
      ensures Valid()
      ensures messages == map[] && waitingCertificates == {}
      ensures processId == 0 && messageId == 0 && procNum == 0
    {
      messages := map[];
      waitingCertificates := {};
      processId := 0;
      messageId := 0;
      procNum := 0;
    }

    /** `Start`: learn the own id and the number of processes. */
    method Start(currentId: ProcessId, processNumber: nat)
      modifies this
      ensures old(messages) == map[] ==> Valid()
      ensures processId == currentId && procNum == processNumber
      ensures messages == old(messages) && waitingCertificates == old(waitingCertificates) && messageId == old(messageId)
    {
      processId := currentId;
      procNum := processNumber;
    }

    /** `NextUniqueMessageId`: the sequence number grows by one, so this process never reuses an id. */
    method NextUniqueMessageId() returns (id: BcbMessageId)
      requires Valid()
      modifies this
      ensures messageId == old(messageId) + 1 && id == BcbMessageId(processId, messageId)
      ensures id !in messages
      ensures messages == old(messages) && waitingCertificates == old(waitingCertificates)
      ensures processId == old(processId) && procNum == old(procNum)
      ensures Valid()
    {
      messageId := messageId + 1;
      id := BcbMessageId(processId, messageId);
    }

    /** `ReliablyBroadcast`: store the message under a fresh id with no signatures and broadcast it. */
    method ReliablyBroadcast(m: M) returns (out: Send<SignedEchoMessage<M>>)
      requires Valid()
      modifies this
      ensures Valid()
      ensures messageId == old(messageId) + 1
      ensures var id := BcbMessageId(processId, messageId);
        id !in old(messages) && messages == old(messages)[id := (m, 0)] && out == Broadcast(Initiate(id, m))
      ensures waitingCertificates == old(waitingCertificates) && processId == old(processId) && procNum == old(procNum)
    {
      var id := NextUniqueMessageId();
      messages := messages[id := (m, 0)];
      out := Broadcast(Initiate(id, m));
    }

    /**
     * `Process`: handle one protocol message and say what, if anything, is
     * delivered to the protocol above.
     */
    method Process(from: ProcessId, msg: SignedEchoMessage<M>) returns (delivered: Option<M>, out: seq<Send<SignedEchoMessage<M>>>)
      requires Valid()
      requires msg.Signature? && msg.id in messages ==> procNum >= 1
      modifies this
      ensures Valid()
      ensures processId == old(processId) && messageId == old(messageId) && procNum == old(procNum)
      // A certificate delivers a stored message and forgets it, or waits for the message.
      ensures msg.Certificate? && msg.id in old(messages) ==>
        delivered == Some(old(messages)[msg.id].0) && out == [] &&
        messages == old(messages) - {msg.id} && waitingCertificates == old(waitingCertificates)
      ensures msg.Certificate? && msg.id !in old(messages) ==>
        delivered == None && out == [] &&
        messages == old(messages) && waitingCertificates == old(waitingCertificates) + {msg.id}
      // Another process's message whose certificate is already here is delivered without signing.
      ensures msg.Initiate? && msg.id.processId != processId && msg.id in old(waitingCertificates) ==>
        delivered == Some(msg.m) && out == [] &&
        messages == old(messages) && waitingCertificates == old(waitingCertificates) - {msg.id}
      // Otherwise it is stored (unless it is our own) and signed back to its sender.
      ensures msg.Initiate? && (msg.id.processId == processId || msg.id !in old(waitingCertificates)) ==>
        delivered == None && out == [SendTo(from, Signature(msg.id))] &&
        messages == (if msg.id.processId != processId then old(messages)[msg.id := (msg.m, 0)] else old(messages)) &&
        waitingCertificates == old(waitingCertificates)
      // A signature counts once; the certificate goes out exactly when the count reaches the quorum.
      ensures msg.Signature? && msg.id in old(messages) ==>
        delivered == None && waitingCertificates == old(waitingCertificates) &&
        messages == old(messages)[msg.id := (old(messages)[msg.id].0, old(messages)[msg.id].1 + 1)] &&
        out == (if old(messages)[msg.id].1 + 1 == QuorumSize(procNum) then [Broadcast(Certificate(QuorumSize(procNum), msg.id))] else [])
      ensures msg.Signature? && msg.id !in old(messages) ==>
        delivered == None && out == [] && messages == old(messages) && waitingCertificates == old(waitingCertificates)
    {
      match msg {
        case Certificate(_, id) =>
          out := [];
          if id in messages {
            delivered := Some(messages[id].0);
            messages := messages - {id};
          } else {
            waitingCertificates := waitingCertificates + {id};
            delivered := None;
          }
        case Initiate(id, m) =>
          if id.processId != processId {
            if id in waitingCertificates {
              waitingCertificates := waitingCertificates - {id};
              return Some(m), [];
            }
            messages := messages[id := (m, 0)];
          }
          delivered := None;
          out := [SendTo(from, Signature(id))];
        case Signature(id) =>
          delivered := None;
          out := [];
          if id in messages {
            var count := messages[id].1 + 1;
            messages := messages[id := (messages[id].0, count)];
            if count == QuorumSize(procNum) {
              out := [Broadcast(Certificate(QuorumSize(procNum), id))];
            }
          }
      }
    }
  }
}
