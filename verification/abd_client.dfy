/**
 * The ABD store's client: it repeatedly picks a random get or put on a
 * random key, sends it to a random replica, records the answer in the
 * shared history and waits 100 jiffies before the next operation.
 * Randomness (the coin, the key index, the replica) is passed in.
 */
module AbdClient {
  import opened Wrappers
  import opened Jiffy
  import opened Message
  import opened Decimal
  import opened Abd
  import Tso

  /** One recorded operation: who, what (as text), its result, when it started and ended. */
  datatype HistoryEntry = HistoryEntry(client: ProcessId, operation: string, result: Option<Value>, start: Jiffies, end: Jiffies)

  /** The keys clients draw from. */
  const KEY_POOL: seq<Key> := [1, 3, 4, 6, 10]

  /** The wait between an answer and the next operation. */
  const THINK_TIME: Jiffies := Jiffies(100)

  /**
   * How a get is recorded: `Get(`, the key in decimal, `)`, with no space
   * or comma, so that the key reads back from between the parentheses.
   */
  function GetRecord(key: Key): (s: string)
    ensures |s| >= 6 && s[..4] == "Get(" && s[|s| - 1] == ')'
    ensures ' ' !in s && ',' !in s
    ensures key <= USIZE_MAX ==> ParseUsize(s[4..|s| - 1]) == Some(key)
  {
    var k := NatToString(key);
    var s := "Get(" + k + ")";
    assert s[4..|s| - 1] == k;
    NumeralHasNoSpace(key);
    if key <= USIZE_MAX then ParseUsizeOfNatToString(key); s else s
  }

  /**
   * How a put is recorded: `Put(k,v)` with both numbers in decimal and no
   * space, so that the one comma splits it back into the key and the value.
   */
  function PutRecord(key: Key, value: Value): (s: string)
    ensures |s| >= 8 && s[..4] == "Put(" && s[|s| - 1] == ')'
    ensures ' ' !in s
    ensures exists i ::
      && 4 < i < |s| - 2 && s[i] == ',' && ',' !in s[4..i] && ',' !in s[i + 1..|s| - 1]
      && (key <= USIZE_MAX && value <= USIZE_MAX ==>
            ParseUsize(s[4..i]) == Some(key) && ParseUsize(s[i + 1..|s| - 1]) == Some(value))
  {
    var s := "Put(" + NatToString(key) + "," + NatToString(value) + ")";
    PutRecordSplits(key, value, s);
    s
  }

  /** The comma of a recorded put sits right after the key's numeral. */
  lemma PutRecordSplits(key: Key, value: Value, s: string)
    requires s == "Put(" + NatToString(key) + "," + NatToString(value) + ")"
    ensures |s| >= 8 && s[..4] == "Put(" && s[|s| - 1] == ')'
    ensures ' ' !in s
    ensures exists i ::
      && 4 < i < |s| - 2 && s[i] == ',' && ',' !in s[4..i] && ',' !in s[i + 1..|s| - 1]
      && (key <= USIZE_MAX && value <= USIZE_MAX ==>
            ParseUsize(s[4..i]) == Some(key) && ParseUsize(s[i + 1..|s| - 1]) == Some(value))
  {
    var k, v := NatToString(key), NatToString(value);
    NumeralHasNoSpace(key);
    NumeralHasNoSpace(value);
    assert s == "Put(" + k + [','] + v + [')'];
    assert s[4 + |k|] == ',';
    assert s[4..4 + |k|] == k && s[5 + |k|..|s| - 1] == v;
    if key <= USIZE_MAX && value <= USIZE_MAX {
      ParseUsizeOfNatToString(key);
      ParseUsizeOfNatToString(value);
    }
    assert 4 < 4 + |k| < |s| - 2;
  }

  /** The comma of a recorded put, with the key's numeral before it and the value's after it. */
  lemma PutRecordComma(key: Key, value: Value) returns (i: nat)
    ensures var s := PutRecord(key, value);
      && 4 < i < |s| - 2 && s[i] == ',' && ',' !in s[4..i] && ',' !in s[i + 1..|s| - 1]
      && (key <= USIZE_MAX && value <= USIZE_MAX ==>
            ParseUsize(s[4..i]) == Some(key) && ParseUsize(s[i + 1..|s| - 1]) == Some(value))
  {
    hide PutRecord, ParseUsize;
    var s := PutRecord(key, value);
    i :|
      && 4 < i < |s| - 2 && s[i] == ',' && ',' !in s[4..i] && ',' !in s[i + 1..|s| - 1]
      && (key <= USIZE_MAX && value <= USIZE_MAX ==>
            ParseUsize(s[4..i]) == Some(key) && ParseUsize(s[i + 1..|s| - 1]) == Some(value));
  }

  class Client {
    const keypool: seq<Key>
    /** The operation in flight, filled in as it is chosen and answered. */
    var currentOp: HistoryEntry

    /** `default`: the fixed key pool and an empty record. */
    constructor ()
      ensures keypool == KEY_POOL
      ensures currentOp == HistoryEntry(0, "", None, Jiffies(0), Jiffies(0))
    {
      keypool := KEY_POOL;
      currentOp := HistoryEntry(0, "", None, Jiffies(0), Jiffies(0));
    }

    /** `start`: the first operation is 100 jiffies away (the random generator's seeding is not modelled). */
    method Start() returns (after: Jiffies)
      ensures after == THINK_TIME
    {
      after := THINK_TIME;
    }

    /** `choose_key`: the key at the drawn index of the pool. */
    method ChooseKey(pick: nat) returns (key: Key)
      requires pick < |keypool|
      ensures key == keypool[pick]
    {
      key := keypool[pick];
    }

    /** `choose_value`: a fresh id from the unique-id counter, so later puts write larger values. */
    method ChooseValue(tso: Tso.Tso) returns (value: Value)
      modifies tso
      ensures value == old(tso.counter) && tso.counter == value + 1
    {
      value := tso.GlobalUniqueId();
    }

    /**
     * `choose_operation`: a get when the coin is true, otherwise a put of a
     * fresh value; the start time is recorded first, then the operation's
     * text.
     */
    method ChooseOperation(coin: bool, pick: nat, now: Jiffies, tso: Tso.Tso) returns (req: ClientReq)
      requires pick < |keypool| && keypool == KEY_POOL
      modifies this, tso
      ensures req.key == KEY_POOL[pick] && currentOp.start == now
      ensures currentOp.client == old(currentOp.client) && currentOp.result == old(currentOp.result)
      ensures currentOp.end == old(currentOp.end)
      ensures coin ==> req == GetRequest(req.key) && currentOp.operation == GetRecord(req.key) && tso.counter == old(tso.counter)
      ensures !coin ==> (req == PutRequest(req.key, old(tso.counter)) && currentOp.operation == PutRecord(req.key, req.value) &&
                         tso.counter == old(tso.counter) + 1)
    {
      var key := ChooseKey(pick);
      currentOp := currentOp.(start := now);
      if coin {
        currentOp := currentOp.(operation := GetRecord(key));
        req := GetRequest(key);
      } else {
        var value := ChooseValue(tso);
        currentOp := currentOp.(operation := PutRecord(key, value));
        req := PutRequest(key, value);
      }
    }

    /** `do_random_operation` (on a timer): the chosen operation goes to the drawn replica. */
    method DoRandomOperation(replica: ProcessId, coin: bool, pick: nat, now: Jiffies, tso: Tso.Tso)
      returns (to: ProcessId, req: ClientReq)
      requires pick < |keypool| && keypool == KEY_POOL
      modifies this, tso
      ensures to == replica && req.key in KEY_POOL && currentOp.start == now
      ensures coin <==> req.GetRequest?
    {
      to := replica;
      req := ChooseOperation(coin, pick, now, tso);
    }

    /**
     * `on_message`: the answer completes the record (who, when, and the
     * value read, or nothing for a put), the record is appended to the
     * shared history, and the next operation is 100 jiffies away.
     */
    method OnMessage(rank: ProcessId, now: Jiffies, resp: ClientResponse, history: seq<HistoryEntry>)
      returns (history': seq<HistoryEntry>, after: Jiffies)
      modifies this
      ensures currentOp == old(currentOp).(client := rank, end := now, result := if resp.GetResponse? then Some(resp.value) else None)
      ensures history' == history + [currentOp]
      ensures after == THINK_TIME
    {
      currentOp := currentOp.(client := rank, end := now);
      match resp {
        case GetResponse(value) =>
          currentOp := currentOp.(result := Some(value));
        case PutAck =>
          currentOp := currentOp.(result := None);
      }
      history' := history + [currentOp];
      after := THINK_TIME;
    }
  }
}
