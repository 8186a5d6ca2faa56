/**
 * The ABD replicated key-value store: every key is a multi-writer,
 * multi-reader atomic register in the style of Attiya, Bar-Noy and Dolev.
 * An operation first gathers a read quorum of (value, timestamp) pairs,
 * then a write quorum that installs the chosen pair, and only then answers
 * the client. Messages a replica sends are returned as an outbox.
 */
module Abd {
  import opened Wrappers
  import opened Message
  import opened Counting

  type Key = nat
  type Value = nat
  type Timestamp = nat
  type ReadSequence = nat

  /** The pool the replicas are in; quorum phases broadcast within it. */
  const REPLICA_POOL_NAME: string := "Replicas"

  datatype RegisterOp =
    | ReadRequest(r: ReadSequence)
    | ReadResponse(v: Value, t: Timestamp, r: ReadSequence)
    | WriteRequest(v: Value, t: Timestamp)
    | WriteAck(v: Value, t: Timestamp)

  datatype RoutedRegisterOp = RoutedRegisterOp(key: Key, op: RegisterOp)

  datatype ClientReq = PutRequest(key: Key, value: Value) | GetRequest(key: Key)

  datatype ClientResponse = GetResponse(value: Value) | PutAck

  /** What a replica sends: a register message to all replicas or to one process, or a client answer. */
  datatype Outgoing =
    | ToReplicas(m: RoutedRegisterOp)
    | ToProcess(to: ProcessId, m: RoutedRegisterOp)
    | Answer(client: ProcessId, resp: ClientResponse)

  /** What to do once the read quorum is in. */
  datatype ReadResume = ResumeWrite(client: ProcessId, value: Value) | ResumeRead(client: ProcessId)

  /** What to do once the write quorum is in. */
  datatype WriteResume = AckWrite(client: ProcessId) | AnswerRead(client: ProcessId, value: Value)

  datatype PendingRead = PendingRead(resume: ReadResume, quorum: seq<(Value, Timestamp, ReadSequence)>)

  datatype PendingWrite = PendingWrite(resume: WriteResume, quorum: seq<(Value, Timestamp)>)

  /** The fields of a register, as one value. */
  datatype RegisterState = RegisterState(
    localValue: Value, localTs: Timestamp, t: Timestamp, r: ReadSequence,
    pendingReads: map<ReadSequence, PendingRead>, pendingWrites: map<Timestamp, PendingWrite>)

  /** A register as `new` leaves it. */
  const Zeroed := RegisterState(0, 0, 0, 0, map[], map[])

  /** The order registers adopt pairs in: by timestamp, then by value. */
  predicate PairLt(t1: Timestamp, v1: Value, t2: Timestamp, v2: Value) {
    t1 < t2 || (t1 == t2 && v1 < v2)
  }

  /** The largest timestamp in a non-empty read quorum (`iter().max()`). */
  function MaxTimestamp(q: seq<(Value, Timestamp, ReadSequence)>): (m: Timestamp)
    requires q != []
    ensures forall i :: 0 <= i < |q| ==> q[i].1 <= m
    ensures exists i :: 0 <= i < |q| && q[i].1 == m
  {
    if |q| == 1 then q[0].1
    else
      var m := MaxTimestamp(q[..|q| - 1]);
      if q[|q| - 1].1 >= m then q[|q| - 1].1 else m
  }

  /**
   * The response with the largest (timestamp, value) pair in a non-empty
   * read quorum; among equal pairs, the last one (`max_by`).
   */
  function MaxPair(q: seq<(Value, Timestamp, ReadSequence)>): (e: (Value, Timestamp, ReadSequence))
    requires q != []
    ensures e in q
    ensures forall i :: 0 <= i < |q| ==> !PairLt(e.1, e.0, q[i].1, q[i].0)
  {
    if |q| == 1 then q[0]
    else
      var m := MaxPair(q[..|q| - 1]);
      assert forall i :: 0 <= i < |q| - 1 ==> q[..|q| - 1][i] == q[i];
      if !PairLt(q[|q| - 1].1, q[|q| - 1].0, m.1, m.0) then q[|q| - 1] else m
  }

  /**
   * What `serve` does to a register in state `s` for message `op` from
   * `from`, leaving it in state `s2` with reply `res`:
   * - a read request is answered with the local pair; nothing changes;
   * - a write request is adopted only when its pair is larger, so the
   *   local pair never decreases; it is always acknowledged;
   * - a read response joins its read quorum; the response that makes the
   *   quorum exactly `quorumSize` resumes the operation: a write picks a
   *   timestamp above every one in the quorum, a read writes back the
   *   largest pair; either opens a write quorum keyed by that timestamp
   *   and asks every replica to store the pair;
   * - a write acknowledgement joins its write quorum; the one that makes
   *   it exactly `quorumSize` answers the client.
   * A response for a sequence number or timestamp with no pending quorum
   * aborts the source (`unwrap`); here it is an error and nothing changes.
   */
  ghost predicate Served(s: RegisterState, s2: RegisterState, op: RegisterOp, from: ProcessId, k: Key, quorumSize: nat,
                         res: Result<seq<Outgoing>, string>)
  {
    s2.r == s.r && s2.pendingReads.Keys == s.pendingReads.Keys &&
    match op
    case ReadRequest(rs) =>
      res == Ok([ToProcess(from, RoutedRegisterOp(k, ReadResponse(s.localValue, s.localTs, rs)))]) && s2 == s
    case WriteRequest(v, ts) =>
      res == Ok([ToProcess(from, RoutedRegisterOp(k, WriteAck(v, ts)))]) &&
      !PairLt(s2.localTs, s2.localValue, s.localTs, s.localValue) &&
      !PairLt(s2.localTs, s2.localValue, ts, v) &&
      ((s2.localTs, s2.localValue) == (ts, v) || (s2.localTs, s2.localValue) == (s.localTs, s.localValue)) &&
      s2.t == s.t && s2.pendingReads == s.pendingReads && s2.pendingWrites == s.pendingWrites
    case ReadResponse(v, ts, rs) =>
      if rs !in s.pendingReads then res.Err? && s2 == s
      else
        var p := s.pendingReads[rs];
        var q := p.quorum + [(v, ts, rs)];
        s2.pendingReads == s.pendingReads[rs := PendingRead(p.resume, q)] &&
        s2.localValue == s.localValue && s2.localTs == s.localTs &&
        (|q| != quorumSize ==> res == Ok([]) && s2.t == s.t && s2.pendingWrites == s.pendingWrites) &&
        (|q| == quorumSize && p.resume.ResumeWrite? ==> (
          (forall i :: 0 <= i < |q| ==> q[i].1 < s2.t) && s2.t == MaxTimestamp(q) + 1 &&
          s2.pendingWrites == s.pendingWrites[s2.t := PendingWrite(AckWrite(p.resume.client), [])] &&
          res == Ok([ToReplicas(RoutedRegisterOp(k, WriteRequest(p.resume.value, s2.t)))]))) &&
        (|q| == quorumSize && p.resume.ResumeRead? ==> (s2.t == s.t &&
          s2.pendingWrites == s.pendingWrites[MaxPair(q).1 := PendingWrite(AnswerRead(p.resume.client, MaxPair(q).0), [])] &&
          res == Ok([ToReplicas(RoutedRegisterOp(k, WriteRequest(MaxPair(q).0, MaxPair(q).1)))])))
    case WriteAck(v, ts) =>
      if ts !in s.pendingWrites then res.Err? && s2 == s
      else
        var p := s.pendingWrites[ts];
        var q := p.quorum + [(v, ts)];
        s2.pendingWrites == s.pendingWrites[ts := PendingWrite(p.resume, q)] &&
        s2.localValue == s.localValue && s2.localTs == s.localTs && s2.t == s.t && s2.pendingReads == s.pendingReads &&
        (|q| != quorumSize ==> res == Ok([])) &&
        (|q| == quorumSize && p.resume.AckWrite? ==> res == Ok([Answer(p.resume.client, PutAck)])) &&
        (|q| == quorumSize && p.resume.AnswerRead? ==> res == Ok([Answer(p.resume.client, GetResponse(p.resume.value))]))
  }

  /**
   * A write request leaves the larger of the local pair and its own: the
   * register adopts it exactly when it is larger.
   */
  lemma ServeAdoptsOnlyLarger(s: RegisterState, s2: RegisterState, v: Value, ts: Timestamp, from: ProcessId, k: Key,
                              quorumSize: nat, res: Result<seq<Outgoing>, string>)
    requires Served(s, s2, WriteRequest(v, ts), from, k, quorumSize, res)
    ensures PairLt(s.localTs, s.localValue, ts, v) ==> s2.localTs == ts && s2.localValue == v
    ensures !PairLt(s.localTs, s.localValue, ts, v) ==> s2.localTs == s.localTs && s2.localValue == s.localValue
  {
  }

  class Register {
    const key: Key
    var localValue: Value
    var localTs: Timestamp
    /** The timestamp of the last write this replica coordinated. */
    var t: Timestamp
    /** The last read sequence number this replica handed out. */
    var r: ReadSequence
    var pendingReads: map<ReadSequence, PendingRead>
    var pendingWrites: map<Timestamp, PendingWrite>

    ghost function State(): RegisterState
      reads this
    {
      RegisterState(localValue, localTs, t, r, pendingReads, pendingWrites)
    }

    /** Pending read quorums are keyed by sequence numbers already handed out. */
    ghost predicate Valid()
      reads this
    {
      forall s :: s in pendingReads ==> 1 <= s <= r
    }

    /** `new`: value, timestamps and counters at zero, nothing pending. */
    constructor (key: Key)
      ensures Valid()
      ensures this.key == key && localValue == 0 && localTs == 0 && t == 0 && r == 0
      ensures pendingReads == map[] && pendingWrites == map[]
    {
      this.key := key;
      localValue := 0;
      localTs := 0;
      t := 0;
      r := 0;
      pendingReads := map[];
      pendingWrites := map[];
    }

    /**
     * `write`: a new read sequence number keys a new, empty read quorum that
     * resumes the write, and every replica is asked for its pair.
     */
    method Write(client: ProcessId, value: Value) returns (out: Outgoing)
      requires Valid()
      modifies this
      ensures Valid()
      ensures r == old(r) + 1 && r !in old(pendingReads)
      ensures pendingReads == old(pendingReads)[r := PendingRead(ResumeWrite(client, value), [])]
      ensures out == ToReplicas(RoutedRegisterOp(key, ReadRequest(r)))
      ensures localValue == old(localValue) && localTs == old(localTs) && t == old(t)
      ensures pendingWrites == old(pendingWrites)
    {
      r := r + 1;
      pendingReads := pendingReads[r := PendingRead(ResumeWrite(client, value), [])];
      out := ToReplicas(RoutedRegisterOp(key, ReadRequest(r)));
    }

    /** `read`: as `write`, but the read quorum resumes a read. */
    method Read(client: ProcessId) returns (out: Outgoing)
      requires Valid()
      modifies this
      ensures Valid()
      ensures r == old(r) + 1 && r !in old(pendingReads)
      ensures pendingReads == old(pendingReads)[r := PendingRead(ResumeRead(client), [])]
      ensures out == ToReplicas(RoutedRegisterOp(key, ReadRequest(r)))
      ensures localValue == old(localValue) && localTs == old(localTs) && t == old(t)
      ensures pendingWrites == old(pendingWrites)
    {
      r := r + 1;
      pendingReads := pendingReads[r := PendingRead(ResumeRead(client), [])];
      out := ToReplicas(RoutedRegisterOp(key, ReadRequest(r)));
    }

    /** `serve`: one register message from `from`, as `Served` says. */
    method Serve(op: RegisterOp, from: ProcessId, k: Key, quorumSize: nat) returns (res: Result<seq<Outgoing>, string>)
      requires Valid()
      modifies this
      ensures Valid() && Served(old(State()), State(), op, from, k, quorumSize, res)
    {
      match op {
        case ReadRequest(r') =>
          res := Ok([ToProcess(from, RoutedRegisterOp(k, ReadResponse(localValue, localTs, r')))]);
        case WriteRequest(v', t') =>
          if t' > localTs || (t' == localTs && v' > localValue) {
            localValue := v';
            localTs := t';
          }
          res := Ok([ToProcess(from, RoutedRegisterOp(k, WriteAck(v', t')))]);
        case ReadResponse(v', t', r') =>
          res := OnReadResponse(v', t', r', k, quorumSize);
        case WriteAck(v', t') =>
          res := OnWriteAck(v', t', quorumSize);
      }
    }

    /** A read response: see `Served`. */
    method OnReadResponse(v': Value, t': Timestamp, r': ReadSequence, k: Key, quorumSize: nat) returns (res: Result<seq<Outgoing>, string>)
      requires Valid()
      modifies this
      ensures Valid() && r == old(r) && pendingReads.Keys == old(pendingReads.Keys)
      ensures res.Err? <==> r' !in old(pendingReads)
      ensures r' in old(pendingReads) ==> (
        var p := old(pendingReads)[r'];
        var q := p.quorum + [(v', t', r')];
        pendingReads == old(pendingReads)[r' := PendingRead(p.resume, q)] &&
        localValue == old(localValue) && localTs == old(localTs) &&
        (|q| != quorumSize ==> res == Ok([]) && t == old(t) && pendingWrites == old(pendingWrites)) &&
        (|q| == quorumSize && p.resume.ResumeWrite? ==> (
          (forall i :: 0 <= i < |q| ==> q[i].1 < t) && t == MaxTimestamp(q) + 1 &&
          pendingWrites == old(pendingWrites)[t := PendingWrite(AckWrite(p.resume.client), [])] &&
          res == Ok([ToReplicas(RoutedRegisterOp(k, WriteRequest(p.resume.value, t)))]))) &&
        (|q| == quorumSize && p.resume.ResumeRead? ==> (t == old(t) &&
          pendingWrites == old(pendingWrites)[MaxPair(q).1 := PendingWrite(AnswerRead(p.resume.client, MaxPair(q).0), [])] &&
          res == Ok([ToReplicas(RoutedRegisterOp(k, WriteRequest(MaxPair(q).0, MaxPair(q).1)))]))))
      ensures r' !in old(pendingReads) ==> (localValue == old(localValue) && localTs == old(localTs) && t == old(t) &&
        pendingReads == old(pendingReads) && pendingWrites == old(pendingWrites))
    {
      if r' !in pendingReads {
        return Err("no pending read quorum");
      }
      var p := pendingReads[r'];
      var q := p.quorum + [(v', t', r')];
      pendingReads := pendingReads[r' := PendingRead(p.resume, q)];
      if |q| == quorumSize {
        match p.resume {
          case ResumeWrite(client, saved) =>
            t := MaxTimestamp(q) + 1;
            pendingWrites := pendingWrites[t := PendingWrite(AckWrite(client), [])];
            res := Ok([ToReplicas(RoutedRegisterOp(k, WriteRequest(saved, t)))]);
          case ResumeRead(client) =>
            var (vm, tm, _) := MaxPair(q);
            pendingWrites := pendingWrites[tm := PendingWrite(AnswerRead(client, vm), [])];
            res := Ok([ToReplicas(RoutedRegisterOp(k, WriteRequest(vm, tm)))]);
        }
      } else {
        res := Ok([]);
      }
    }

    /** A write acknowledgement: see `Served`. */
    method OnWriteAck(v': Value, t': Timestamp, quorumSize: nat) returns (res: Result<seq<Outgoing>, string>)
      requires Valid()
      modifies this
      ensures Valid() && r == old(r) && pendingReads == old(pendingReads)
      ensures localValue == old(localValue) && localTs == old(localTs) && t == old(t)
      ensures res.Err? <==> t' !in old(pendingWrites)
      ensures t' !in old(pendingWrites) ==> pendingWrites == old(pendingWrites)
      ensures t' in old(pendingWrites) ==> (
        var p := old(pendingWrites)[t'];
        var q := p.quorum + [(v', t')];
        pendingWrites == old(pendingWrites)[t' := PendingWrite(p.resume, q)] &&
        (|q| != quorumSize ==> res == Ok([])) &&
        (|q| == quorumSize && p.resume.AckWrite? ==> res == Ok([Answer(p.resume.client, PutAck)])) &&
        (|q| == quorumSize && p.resume.AnswerRead? ==> res == Ok([Answer(p.resume.client, GetResponse(p.resume.value))])))
    {
      if t' !in pendingWrites {
        return Err("no pending write quorum");
      }
      var p := pendingWrites[t'];
      var q := p.quorum + [(v', t')];
      pendingWrites := pendingWrites[t' := PendingWrite(p.resume, q)];
      if |q| == quorumSize {
        match p.resume {
          case AckWrite(client) =>
            res := Ok([Answer(client, PutAck)]);
          case AnswerRead(client, saved) =>
            res := Ok([Answer(client, GetResponse(saved))]);
        }
      } else {
        res := Ok([]);
      }
    }
  }

  /** The largest pair a read quorum holds is at least every pair in it, so a read never returns older than what it saw. */
  lemma ReadChoosesLatest(q: seq<(Value, Timestamp, ReadSequence)>, i: nat)
    requires q != [] && i < |q|
    ensures q[i].1 <= MaxPair(q).1
    ensures q[i].1 == MaxPair(q).1 ==> q[i].0 <= MaxPair(q).0
  {
  }

  /** The size of a majority of `n` processes. */
  function MajorityOf(n: nat): (q: nat)
    ensures 2 * q > n && q > 0
    ensures n > 0 ==> q <= n
    ensures 2 * (q - 1) <= n
  {
    n / 2 + 1
  }

  /**
   * Two majorities of the same `n` processes share a process: this is why
   * a read quorum always sees the last completed write.
   */
  lemma MajoritiesIntersect(n: nat, a: set<nat>, b: set<nat>)
    requires forall x :: x in a + b ==> x < n
    requires |a| >= MajorityOf(n) && |b| >= MajorityOf(n)
    ensures a * b != {}
  {
    Overlap(n, a, b);
  }

  class Replica {
    var procNum: nat
    var registers: map<Key, Register>

    /** Each key has its own register object, which knows its key. */
    ghost predicate Valid()
      reads this, registers.Values
    {
      (forall k :: k in registers ==> registers[k].key == k && registers[k].Valid()) &&
      (forall k, k' :: k in registers && k' in registers && k != k' ==> registers[k] != registers[k'])
    }

    constructor ()
      ensures Valid() && procNum == 0 && registers == map[]
    {
      procNum := 0;
      registers := map[];
    }

    /** `quorum_size`: a strict majority of `procNum` (the value `process_number()` had at start). */
    function QuorumSize(): (q: nat)
      reads this
      ensures q == MajorityOf(procNum)
    {
      procNum / 2 + 1
    }

    /** `start`: remembers the number of processes in the simulation. */
    method Start(processNumber: nat)
      modifies this
      ensures procNum == processNumber && registers == old(registers)
    {
      procNum := processNumber;
    }

    /** `find_register`: the key's register, or a fresh zeroed one put in its place; other keys keep theirs. */
    method FindRegister(key: Key) returns (reg: Register)
      requires Valid()
      modifies this
      ensures Valid() && procNum == old(procNum)
      ensures key in old(registers) ==> reg == old(registers)[key] && registers == old(registers)
      ensures key !in old(registers) ==> (fresh(reg) && registers == old(registers)[key := reg] &&
        reg.localValue == 0 && reg.localTs == 0 && reg.t == 0 && reg.r == 0 &&
        reg.pendingReads == map[] && reg.pendingWrites == map[])
      ensures reg.key == key && registers[key] == reg
    {
      if key in registers {
        reg := registers[key];
      } else {
        reg := new Register(key);
        registers := registers[key := reg];
      }
    }

    /**
     * `on_message` for a client request: a get becomes a read and a put a
     * write on that key's register, with the client as the one to answer.
     */
    method OnClientRequest(from: ProcessId, req: ClientReq) returns (out: Outgoing)
      requires Valid()
      modifies this, registers.Values
      ensures Valid() && procNum == old(procNum) && registers.Keys == old(registers.Keys) + {req.key}
      ensures registers[req.key].r == (if req.key in old(registers) then old(registers[req.key].r) else 0) + 1
      ensures registers[req.key].r in registers[req.key].pendingReads
      ensures req.GetRequest? ==> registers[req.key].pendingReads[registers[req.key].r] == PendingRead(ResumeRead(from), [])
      ensures req.PutRequest? ==> registers[req.key].pendingReads[registers[req.key].r] == PendingRead(ResumeWrite(from, req.value), [])
      ensures out == ToReplicas(RoutedRegisterOp(req.key, ReadRequest(registers[req.key].r)))
      ensures req.key in old(registers) ==> registers[req.key] == old(registers[req.key])
      ensures req.key !in old(registers) ==> fresh(registers[req.key])
      ensures var s := if req.key in old(registers) then old(registers[req.key].State()) else Zeroed;
        var resume := if req.GetRequest? then ResumeRead(from) else ResumeWrite(from, req.value);
        registers[req.key].State() == s.(r := s.r + 1, pendingReads := s.pendingReads[s.r + 1 := PendingRead(resume, [])])
      ensures forall k :: k in old(registers) && k != req.key ==> registers[k] == old(registers[k]) && unchanged(registers[k])
    {
      var reg := FindRegister(req.key);
      match req {
        case GetRequest(_) =>
          out := reg.Read(from);
        case PutRequest(_, value) =>
          out := reg.Write(from, value);
      }
    }

    /** `on_message` for a register message: served by that key's register with the majority quorum. */
    method OnRegisterOp(from: ProcessId, m: RoutedRegisterOp) returns (res: Result<seq<Outgoing>, string>)
      requires Valid()
      modifies this, registers.Values
      ensures Valid() && procNum == old(procNum) && registers.Keys == old(registers.Keys) + {m.key}
      ensures m.op.ReadRequest? ==> res.Ok? && |res.value| == 1 && res.value[0].ToProcess? && res.value[0].to == from
      ensures m.op.WriteRequest? ==> res == Ok([ToProcess(from, RoutedRegisterOp(m.key, WriteAck(m.op.v, m.op.t)))])
      ensures m.op.ReadResponse? ==> (res.Err? <==> m.key !in old(registers) || m.op.r !in old(registers[m.key].pendingReads))
      ensures m.op.WriteAck? ==> (res.Err? <==> m.key !in old(registers) || m.op.t !in old(registers[m.key].pendingWrites))
      ensures m.key in old(registers) ==> (registers[m.key] == old(registers[m.key]) &&
        Served(old(registers[m.key].State()), registers[m.key].State(), m.op, from, m.key, MajorityOf(procNum), res))
      ensures m.key !in old(registers) ==> (fresh(registers[m.key]) &&
        Served(Zeroed, registers[m.key].State(), m.op, from, m.key, MajorityOf(procNum), res))
      ensures forall k :: k in old(registers) && k != m.key ==> registers[k] == old(registers[k]) && unchanged(registers[k])
    {
      var q := QuorumSize();
      var reg := FindRegister(m.key);
      res := reg.Serve(m.op, from, m.key, q);
    }
  }
}
