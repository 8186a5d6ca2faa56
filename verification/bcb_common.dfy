/**
 * What the two Signed Echo Broadcast variants (Algorithm 3.17 of
 * "Introduction to Reliable and Secure Distributed Programming") share:
 * message ids, the size constants, the outbox, and the quorum arithmetic
 * over f = (n - 1) / 3 tolerated Byzantine processes.
 */
module BcbCommon {
  import opened Wrappers
  import opened Message
  import opened Counting

  /** `BCBMessageId`: two ids are equal exactly when origin and sequence number both are. */
  datatype BcbMessageId = BcbMessageId(processId: ProcessId, messageId: nat)

  /** Bytes an id adds to a broadcast message. */
  const ID_SIZE: nat := 128
  /** Bytes of one signature. */
  const SIG_SIZE: nat := 64

  /** What a handler asks the simulator to send. */
  datatype Send<T> = Broadcast(msg: T) | SendTo(to: ProcessId, msg: T)

  /** `AdversaryThreshold`: the largest f with 3f + 1 <= n. */
  function AdversaryThreshold(n: nat): (f: nat)
    requires n >= 1
    ensures 3 * f + 1 <= n < 3 * f + 4
  {
    (n - 1) / 3
  }

  /**
   * `QuorumSize` of the standalone variant, and the corrected one of the
   * wrapping variant: 2f + 1. A quorum is reachable while f processes are
   * silent.
   */
  function QuorumSize(n: nat): (q: nat)
    requires n >= 1
    ensures q == 2 * AdversaryThreshold(n) + 1
    ensures 0 < q <= n && q + AdversaryThreshold(n) <= n
  {
    2 * AdversaryThreshold(n) + 1
  }

  /**
   * With n = 3f + 1, two quorums share at least f + 1 processes, so at least
   * one correct process: a correct process signs only one message per id,
   * so no two different messages get certificates under one id.
   */
  lemma QuorumsShareACorrectProcess(n: nat, a: set<nat>, b: set<nat>)
    requires n >= 1 && n % 3 == 1
    requires forall x :: x in a + b ==> x < n
    requires |a| >= QuorumSize(n) && |b| >= QuorumSize(n)
    ensures |a * b| >= AdversaryThreshold(n) + 1
  {
    Overlap(n, a, b);
  }

  /**
   * `QuorumSize` of the wrapping variant as written: 2f - 1 in `usize`,
   * which overflows below zero (a panic) whenever f = 0, that is n < 4.
   */
  function QuorumSizeAsWritten(n: nat): (r: Option<nat>)
    requires n >= 1
    ensures r.None? <==> n < 4
    ensures r.Some? ==> r.value + 2 == QuorumSize(n)
  {
    var f := AdversaryThreshold(n);
    if 2 * f >= 1 then Some(2 * f - 1) else None
  }

  /**
   * The as-written quorum fails twice: with 3 processes it does not exist,
   * and with 4 it is a single signature, so two certificates can come from
   * disjoint signers (the sender's own signature alone suffices).
   */
  lemma QuorumSizeAsWrittenCounterexample()
    ensures QuorumSizeAsWritten(3).None?
    ensures QuorumSizeAsWritten(4) == Some(1)
    ensures |{0}| >= QuorumSizeAsWritten(4).value && |{1}| >= QuorumSizeAsWritten(4).value
    ensures {0} * {1} == {} && |{0} * {1}| < AdversaryThreshold(4) + 1
  {
    assert {0} * {1} == {};
  }
}
