/**
 * The linearizability checker run over the ABD store's shared history: a
 * Wing–Gong style search, per key, for an order of the completed calls in
 * which every read returns the latest write and no call is placed after a
 * call that started after it ended.
 */
module LinChecker {
  import opened Wrappers
  import opened Jiffy
  import opened Decimal
  import opened Abd
  import opened AbdClient

  datatype Operation = Read(v: Value) | Write(v: Value)

  /** A parsed history entry: the key, what was done, and its real-time interval. */
  datatype Call = Call(key: Key, op: Operation, start: nat, end: nat)

  // ---------------------------------------------------------------------
  // Parsing the recorded text of an operation.
  // ---------------------------------------------------------------------

  /** `replace(" ", "")`. */
  function RemoveSpaces(s: string): (r: string)
    ensures forall i :: 0 <= i < |r| ==> r[i] != ' '
    ensures (forall i :: 0 <= i < |s| ==> s[i] != ' ') ==> r == s
  {
    if s == [] then [] else (if s[0] == ' ' then [] else [s[0]]) + RemoveSpaces(s[1..])
  }

  /** `strip_prefix`. */
  function StripPrefix(s: string, p: string): (r: Option<string>)
    ensures r.Some? <==> p <= s
    ensures r.Some? ==> s == p + r.value
  {
    if p <= s then Some(s[|p|..]) else None
  }

  /** `strip_suffix`. */
  function StripSuffix(s: string, p: string): (r: Option<string>)
    ensures r.Some? ==> s == r.value + p
    ensures forall a :: s == a + p ==> r == Some(a)
  {
    if |p| <= |s| && s[|s| - |p|..] == p then Some(s[..|s| - |p|]) else None
  }

  /** `split(c)`: the pieces between occurrences of `c`; there is always at least one. */
  function Split(s: string, c: char): (r: seq<string>)
    ensures |r| >= 1
    decreases |s|
  {
    if s == [] then [[]]
    else
      var rest := Split(s[1..], c);
      if s[0] == c then [[]] + rest else [[s[0]] + rest[0]] + rest[1..]
  }

  lemma {:induction false} SplitWithout(s: string, c: char)
    requires c !in s
    ensures Split(s, c) == [s]
    decreases |s|
  {
    if s != [] {
      SplitWithout(s[1..], c);
      assert [s[0]] + s[1..] == s;
    }
  }

  lemma {:induction false} SplitAt(a: string, b: string, c: char)
    requires c !in a
    ensures Split(a + [c] + b, c) == [a] + Split(b, c)
    decreases |a|
  {
    var s := a + [c] + b;
    if a == [] {
      assert s[1..] == b;
    } else {
      assert s[1..] == a[1..] + [c] + b;
      SplitAt(a[1..], b, c);
      assert [a[0]] + a[1..] == a;
    }
  }

  /** A text of the form `Name(...)`, with a four-character `Name(`, strips down to what is between the parentheses. */
  lemma StripCall(s: string, p: string)
    requires |p| == 4 && |s| >= 5 && s[..4] == p && s[|s| - 1] == ')'
    ensures StripPrefix(s, p) == Some(s[4..])
    ensures StripSuffix(s[4..], ")") == Some(s[4..|s| - 1])
  {
    var t := s[4..];
    assert t[|t| - 1..] == ")";
    assert t[..|t| - 1] == s[4..|s| - 1];
  }

  /** A text with one comma splits into the parts before and after it. */
  lemma SplitOneComma(s: string, i: nat)
    requires i < |s| && s[i] == ',' && ',' !in s[..i] && ',' !in s[i + 1..]
    ensures Split(s, ',') == [s[..i], s[i + 1..]]
  {
    hide Split;
    var k, v := s[..i], s[i + 1..];
    assert s == k + [','] + v;
    SplitAt(k, v, ',');
    SplitWithout(v, ',');
  }

  /**
   * `ParseEntry`: `Get(k)` with a recorded result becomes a read of that
   * result, `Put(k,v)` a write of `v`; spaces are ignored; anything else,
   * a get without a result, a put with other than two fields, or a number
   * that is not a `usize` is skipped.
   */
  function ParseEntry(e: HistoryEntry): (r: Option<Call>)
    ensures r.Some? ==> r.value.start == e.start.ticks && r.value.end == e.end.ticks
    ensures r.Some? ==> r.value.key <= USIZE_MAX && (r.value.op.Write? ==> r.value.op.v <= USIZE_MAX)
    ensures r.Some? && r.value.op.Read? ==> e.result == Some(r.value.op.v)
    ensures r.Some? ==> ("Get" <= RemoveSpaces(e.operation) <==> r.value.op.Read?)
    ensures r.Some? ==> "Get" <= RemoveSpaces(e.operation) || "Put" <= RemoveSpaces(e.operation)
  {
    var op := RemoveSpaces(e.operation);
    if "Get" <= op then
      var inner := StripPrefix(op, "Get(");
      if inner.None? then None
      else
        var keyText := StripSuffix(inner.value, ")");
        if keyText.None? then None
        else
          var key := ParseUsize(keyText.value);
          if key.None? || e.result.None? then None
          else Some(Call(key.value, Read(e.result.value), e.start.ticks, e.end.ticks))
    else if "Put" <= op then
      var inner := StripPrefix(op, "Put(");
      if inner.None? then None
      else
        var fields := StripSuffix(inner.value, ")");
        if fields.None? then None
        else
          var parts := Split(fields.value, ',');
          if |parts| != 2 then None
          else
            var key := ParseUsize(parts[0]);
            var value := ParseUsize(parts[1]);
            if key.None? || value.None? then None
            else Some(Call(key.value, Write(value.value), e.start.ticks, e.end.ticks))
    else None
  }

  /** A get the client recorded, with the value it read, parses back to that read. */
  lemma ParseRecordedGet(e: HistoryEntry, key: Key, value: Value)
    requires e.operation == GetRecord(key) && e.result == Some(value) && key <= USIZE_MAX
    ensures ParseEntry(e) == Some(Call(key, Read(value), e.start.ticks, e.end.ticks))
  {
    // The record's own contract is all the parser needs.
    hide GetRecord, ParseUsize, DigitsValue, RemoveSpaces, StripPrefix, StripSuffix;
    var s := e.operation;
    assert RemoveSpaces(s) == s;
    assert "Get" <= s by {
      assert s[..3] == s[..4][..3];
    }
    StripCall(s, "Get(");
  }

  /** A put the client recorded parses back to that write, whatever its result field holds. */
  lemma ParseRecordedPut(e: HistoryEntry, key: Key, value: Value)
    requires e.operation == PutRecord(key, value) && key <= USIZE_MAX && value <= USIZE_MAX
    ensures ParseEntry(e) == Some(Call(key, Write(value), e.start.ticks, e.end.ticks))
  {
    // The record's own contract is all the parser needs.
    hide PutRecord, ParseUsize, DigitsValue, RemoveSpaces, Split, StripPrefix, StripSuffix;
    var s := e.operation;
    assert RemoveSpaces(s) == s;
    assert s[0] == s[..4][0] == 'P';
    assert "Put" <= s by {
      assert s[..3] == s[..4][..3];
    }
    StripCall(s, "Put(");
    var i := PutRecordComma(key, value);
    var f := s[4..|s| - 1];
    assert f[..i - 4] == s[4..i] && f[i - 3..] == s[i + 1..|s| - 1];
    SplitOneComma(f, i - 4);
  }

  /** A get whose answer never arrived has no result and is skipped. */
  lemma ParseUnansweredGet(e: HistoryEntry, key: Key)
    requires e.operation == GetRecord(key) && e.result.None?
    ensures ParseEntry(e).None?
  {
    hide GetRecord, ParseUsize, DigitsValue, RemoveSpaces;
    assert RemoveSpaces(e.operation) == e.operation;
  }

  // ---------------------------------------------------------------------
  // The search for one key.
  // ---------------------------------------------------------------------

  /** A read is consistent when it returns the current value; a write always is. */
  predicate Consistent(op: Operation, current: Value) {
    op.Read? ==> op.v == current
  }

  /** The register's value after `op`. */
  function NextValue(op: Operation, current: Value): (v: Value)
    ensures op.Write? ==> v == op.v
    ensures op.Read? ==> v == current
  {
    match op
    case Read(_) => current
    case Write(w) => w
  }

  /** The number of calls not yet placed. */
  function CountFree(used: seq<bool>): nat {
    if used == [] then 0 else (if used[0] then 0 else 1) + CountFree(used[1..])
  }

  lemma {:induction false} CountFreeMark(used: seq<bool>, j: nat)
    requires j < |used| && !used[j]
    ensures CountFree(used[j := true]) == CountFree(used) - 1
  {
    if j > 0 {
      CountFreeMark(used[1..], j - 1);
      assert used[j := true][1..] == used[1..][j - 1 := true];
    }
  }

  lemma {:induction false} AllUsedWhenNoneFree(used: seq<bool>)
    requires CountFree(used) == 0
    ensures forall i :: 0 <= i < |used| ==> used[i]
  {
    if used != [] {
      AllUsedWhenNoneFree(used[1..]);
      forall i | 1 <= i < |used| ensures used[i] {
        assert used[i] == used[1..][i - 1];
      }
    }
  }

  lemma {:induction false} FreeIndex(used: seq<bool>) returns (i: nat)
    requires CountFree(used) > 0
    ensures i < |used| && !used[i]
  {
    if used[0] {
      var k := FreeIndex(used[1..]);
      i := k + 1;
    } else {
      i := 0;
    }
  }

  function NoneUsed(n: nat): (u: seq<bool>)
    ensures |u| == n && CountFree(u) == n
    ensures forall i :: 0 <= i < n ==> !u[i]
  {
    if n == 0 then [] else [false] + NoneUsed(n - 1)
  }

  /**
   * The smallest end among the unplaced calls of `ops[..k]`, starting from
   * `usize::MAX`: no unplaced call ends before it, and it is some unplaced
   * call's end unless it is `usize::MAX`.
   */
  function MinEndUpTo(ops: seq<Call>, used: seq<bool>, k: nat): (m: nat)
    requires |used| == |ops| && k <= |ops|
    ensures m <= USIZE_MAX
    ensures forall i :: 0 <= i < k && !used[i] ==> m <= ops[i].end
    ensures m == USIZE_MAX || exists i :: 0 <= i < k && !used[i] && ops[i].end == m
  {
    if k == 0 then USIZE_MAX
    else
      var m := MinEndUpTo(ops, used, k - 1);
      if !used[k - 1] && ops[k - 1].end < m then ops[k - 1].end else m
  }

  function MinEnd(ops: seq<Call>, used: seq<bool>): nat
    requires |used| == |ops|
  {
    MinEndUpTo(ops, used, |ops|)
  }

  /**
   * Placing call `j` next succeeds: it is unplaced, it did not start after
   * every unplaced call's end, it is consistent with the current value, and
   * the rest can be placed after it.
   */
  ghost predicate Tries(ops: seq<Call>, used: seq<bool>, current: Value, j: int)
    requires |used| == |ops|
    decreases CountFree(used), 0
  {
    0 <= j < |ops| && !used[j] && ops[j].start <= MinEnd(ops, used) && Consistent(ops[j].op, current) &&
    (CountFreeMark(used, j); Explains(ops, used[j := true], NextValue(ops[j].op, current)))
  }

  /** The unplaced calls can all be placed, starting from `current`. */
  ghost predicate Explains(ops: seq<Call>, used: seq<bool>, current: Value)
    requires |used| == |ops|
    decreases CountFree(used), 1
  {
    CountFree(used) == 0 || exists j :: Tries(ops, used, current, j)
  }

  /** The first loop of `Search`: the smallest end of an unplaced call, or `usize::MAX`. */
  method MinEndOf(ops: seq<Call>, used: array<bool>) returns (m: nat)
    requires used.Length == |ops|
    ensures m == MinEnd(ops, used[..])
  {
    m := USIZE_MAX;
    var i := 0;
    while i < |ops|
      invariant i <= |ops|
      invariant m == MinEndUpTo(ops, used[..], i)
    {
      if !used[i] && ops[i].end < m {
        m := ops[i].end;
      }
      i := i + 1;
    }
  }

  /**
   * `Search`: `count` calls are placed (marked in `used`); try each
   * candidate in index order, place it, recurse, and unplace it when that
   * fails. On failure `used` is as it was; on success every call is placed.
   */
  method Search(ops: seq<Call>, used: array<bool>, count: nat, current: Value) returns (found: bool)
    requires used.Length == |ops| && count + CountFree(used[..]) == |ops|
    modifies used
    ensures found == Explains(ops, old(used[..]), current)
    ensures found ==> forall i :: 0 <= i < used.Length ==> used[i]
    ensures !found ==> used[..] == old(used[..])
    decreases CountFree(used[..])
  {
    if count == |ops| {
      AllUsedWhenNoneFree(used[..]);
      return true;
    }
    var minEnd := MinEndOf(ops, used);
    var i := 0;
    while i < |ops|
      invariant 0 <= i <= |ops|
      invariant used[..] == old(used[..])
      invariant forall j :: 0 <= j < i ==> !Tries(ops, old(used[..]), current, j)
    {
      if !used[i] && ops[i].start <= minEnd && Consistent(ops[i].op, current) {
        ghost var before := used[..];
        used[i] := true;
        assert used[..] == before[i := true];
        CountFreeMark(before, i);
        found := Search(ops, used, count + 1, NextValue(ops[i].op, current));
        if found {
          assert Tries(ops, before, current, i);
          return;
        }
        used[i] := false;
        assert used[..] == before;
      }
      i := i + 1;
    }
    found := false;
  }

  /** `CheckSingleKey`: search from nothing placed and the initial value 0. */
  method CheckSingleKey(ops: seq<Call>) returns (ok: bool)
    ensures ok == Explains(ops, NoneUsed(|ops|), 0)
  {
    var used := new bool[|ops|](_ => false);
    assert used[..] == NoneUsed(|ops|);
    ok := Search(ops, used, 0, 0);
  }

  // ---------------------------------------------------------------------
  // What the search decides: a linearization exists.
  // ---------------------------------------------------------------------

  /** Taking the calls in `order` from `current`, every read returns the latest value written. */
  ghost predicate ReadsMatch(ops: seq<Call>, order: seq<nat>, current: Value) {
    order == [] ||
    (order[0] < |ops| && Consistent(ops[order[0]].op, current) &&
     ReadsMatch(ops, order[1..], NextValue(ops[order[0]].op, current)))
  }

  /** No call comes before a call that ended before it started. */
  ghost predicate RespectsRealTime(ops: seq<Call>, order: seq<nat>) {
    forall a, b :: 0 <= a < b < |order| && order[a] < |ops| && order[b] < |ops| ==>
      ops[order[a]].start <= ops[order[b]].end
  }

  /** `order` names only unplaced calls. */
  ghost predicate OnlyFree(ops: seq<Call>, used: seq<bool>, order: seq<nat>)
    requires |used| == |ops|
  {
    forall k :: 0 <= k < |order| ==> order[k] < |ops| && !used[order[k]]
  }

  ghost predicate Distinct(order: seq<nat>) {
    forall a, b :: 0 <= a < b < |order| ==> order[a] != order[b]
  }

  /** `order` names every unplaced call. */
  ghost predicate CoversFree(ops: seq<Call>, used: seq<bool>, order: seq<nat>)
    requires |used| == |ops|
  {
    forall i :: 0 <= i < |ops| && !used[i] ==> i in order
  }

  /** `order` lists every unplaced call exactly once, explains every read, and respects real time. */
  ghost predicate Linearization(ops: seq<Call>, used: seq<bool>, current: Value, order: seq<nat>)
    requires |used| == |ops|
  {
    OnlyFree(ops, used, order) && Distinct(order) && CoversFree(ops, used, order) &&
    ReadsMatch(ops, order, current) && RespectsRealTime(ops, order)
  }

  /** Every call starts no later than it ends, within `usize`. */
  ghost predicate WellTimed(ops: seq<Call>) {
    forall c :: c in ops ==> c.start <= c.end <= USIZE_MAX
  }

  /** A candidate the search may place first, followed by a linearization of the rest, is a linearization. */
  lemma LinearizationCons(ops: seq<Call>, used: seq<bool>, current: Value, j: nat, rest: seq<nat>)
    requires |used| == |ops| && j < |ops| && !used[j]
    requires ops[j].start <= MinEnd(ops, used) && Consistent(ops[j].op, current)
    requires Linearization(ops, used[j := true], NextValue(ops[j].op, current), rest)
    ensures Linearization(ops, used, current, [j] + rest)
  {
    var used' := used[j := true];
    var order := [j] + rest;
    assert order[1..] == rest;
    forall k | 0 <= k < |order| ensures order[k] < |ops| && !used[order[k]] {
      if k > 0 {
        assert order[k] == rest[k - 1];
      }
    }
    forall a, b | 0 <= a < b < |order| ensures order[a] != order[b] {
      assert order[b] == rest[b - 1] && !used'[rest[b - 1]];
      if a > 0 {
        assert order[a] == rest[a - 1];
      }
    }
    forall i | 0 <= i < |ops| && !used[i] ensures i in order {
      if i != j {
        assert !used'[i] && i in rest;
      }
    }
    forall a, b | 0 <= a < b < |order| && order[a] < |ops| && order[b] < |ops|
      ensures ops[order[a]].start <= ops[order[b]].end
    {
      assert order[b] == rest[b - 1] && !used[rest[b - 1]];
      if a > 0 {
        assert order[a] == rest[a - 1];
      }
    }
  }

  /** The first call of a linearization is one the search may place first. */
  lemma LinearizationHead(ops: seq<Call>, used: seq<bool>, current: Value, order: seq<nat>)
    requires |used| == |ops| && WellTimed(ops) && Linearization(ops, used, current, order) && order != []
    ensures order[0] < |ops| && !used[order[0]]
    ensures ops[order[0]].start <= MinEnd(ops, used) && Consistent(ops[order[0]].op, current)
  {
    var j := order[0];
    assert ops[j] in ops;
    var m := MinEnd(ops, used);
    if m != USIZE_MAX {
      var i :| 0 <= i < |ops| && !used[i] && ops[i].end == m;
      assert i in order;
      var b :| 0 <= b < |order| && order[b] == i;
      if b > 0 {
        assert ops[order[0]].start <= ops[order[b]].end;
      }
    }
  }

  /** What follows the first call of a linearization linearizes the rest. */
  lemma LinearizationTail(ops: seq<Call>, used: seq<bool>, current: Value, order: seq<nat>)
    requires |used| == |ops| && Linearization(ops, used, current, order) && order != []
    ensures order[0] < |ops|
    ensures Linearization(ops, used[order[0] := true], NextValue(ops[order[0]].op, current), order[1..])
  {
    var used' := used[order[0] := true];
    var rest := order[1..];
    forall k | 0 <= k < |rest| ensures rest[k] < |ops| && !used'[rest[k]] {
      assert rest[k] == order[k + 1] && order[0] != order[k + 1];
    }
    forall a, b | 0 <= a < b < |rest| ensures rest[a] != rest[b] {
      assert rest[a] == order[a + 1] && rest[b] == order[b + 1];
    }
    forall i | 0 <= i < |ops| && !used'[i] ensures i in rest {
      var p :| 0 <= p < |order| && order[p] == i;
      assert p != 0;
      assert rest[p - 1] == i;
    }
    forall a, b | 0 <= a < b < |rest| && rest[a] < |ops| && rest[b] < |ops|
      ensures ops[rest[a]].start <= ops[rest[b]].end
    {
      assert rest[a] == order[a + 1] && rest[b] == order[b + 1];
    }
  }

  /** A successful search yields a linearization. */
  lemma {:induction false} ExplainedHasLinearization(ops: seq<Call>, used: seq<bool>, current: Value)
    returns (order: seq<nat>)
    requires |used| == |ops| && Explains(ops, used, current)
    ensures Linearization(ops, used, current, order)
    decreases CountFree(used)
  {
    if CountFree(used) == 0 {
      AllUsedWhenNoneFree(used);
      return [];
    }
    var j :| Tries(ops, used, current, j);
    CountFreeMark(used, j);
    var rest := ExplainedHasLinearization(ops, used[j := true], NextValue(ops[j].op, current));
    LinearizationCons(ops, used, current, j, rest);
    order := [j] + rest;
  }

  /** Conversely, when a linearization exists, the search succeeds. */
  lemma {:induction false} LinearizationIsExplained(ops: seq<Call>, used: seq<bool>, current: Value, order: seq<nat>)
    requires |used| == |ops| && WellTimed(ops) && Linearization(ops, used, current, order)
    ensures Explains(ops, used, current)
    decreases CountFree(used)
  {
    if CountFree(used) == 0 {
      return;
    }
    var free := FreeIndex(used);
    assert free in order;
    var j := order[0];
    LinearizationHead(ops, used, current, order);
    LinearizationTail(ops, used, current, order);
    CountFreeMark(used, j);
    LinearizationIsExplained(ops, used[j := true], NextValue(ops[j].op, current), order[1..]);
    assert Tries(ops, used, current, j);
  }

  /**
   * The search over one key's calls succeeds exactly when they have a
   * linearization: a permutation of all of them, respecting real time, in
   * which every read returns the latest preceding write (or 0).
   */
  lemma SingleKeyDecidesLinearizability(ops: seq<Call>)
    requires WellTimed(ops)
    ensures Explains(ops, NoneUsed(|ops|), 0) <==> exists order :: Linearization(ops, NoneUsed(|ops|), 0, order)
  {
    if Explains(ops, NoneUsed(|ops|), 0) {
      var order := ExplainedHasLinearization(ops, NoneUsed(|ops|), 0);
    }
    if order: seq<nat> :| Linearization(ops, NoneUsed(|ops|), 0, order) {
      LinearizationIsExplained(ops, NoneUsed(|ops|), 0, order);
    }
  }

  // ---------------------------------------------------------------------
  // The whole history.
  // ---------------------------------------------------------------------

  /** The calls of the history that parse, in history order. */
  function Parsed(history: seq<HistoryEntry>): (calls: seq<Call>)
    ensures |calls| <= |history|
  {
    if history == [] then []
    else
      var last := ParseEntry(history[|history| - 1]);
      Parsed(history[..|history| - 1]) + (if last.Some? then [last.value] else [])
  }

  /** The latest end among the calls, or 0. */
  function MaxEnd(calls: seq<Call>): (m: nat)
    ensures forall c :: c in calls ==> c.end <= m
    ensures calls == [] ==> m == 0
    ensures calls != [] ==> exists c :: c in calls && c.end == m
  {
    if calls == [] then 0
    else
      var m := MaxEnd(calls[..|calls| - 1]);
      assert calls == calls[..|calls| - 1] + [calls[|calls| - 1]];
      if calls[|calls| - 1].end > m then calls[|calls| - 1].end else m
  }

  /** The calls on `key`, in order. */
  function OfKey(calls: seq<Call>, key: Key): seq<Call> {
    if calls == [] then []
    else OfKey(calls[..|calls| - 1], key) + (if calls[|calls| - 1].key == key then [calls[|calls| - 1]] else [])
  }

  /** The calls on `key` are exactly the calls whose key it is. */
  lemma {:induction false} OfKeyMembers(calls: seq<Call>, key: Key)
    ensures forall c :: c in OfKey(calls, key) <==> c in calls && c.key == key
  {
    if calls != [] {
      OfKeyMembers(calls[..|calls| - 1], key);
      assert calls == calls[..|calls| - 1] + [calls[|calls| - 1]];
    }
  }

  /** A key no call has has no calls. */
  lemma OfKeyOfAbsentKey(calls: seq<Call>, key: Key)
    ensures OfKey(calls, key) == [] || key in KeysOf(calls)
  {
    OfKeyMembers(calls, key);
    var r := OfKey(calls, key);
    if r != [] {
      assert r[0] in calls;
    }
  }

  function KeysOf(calls: seq<Call>): set<Key> {
    set c | c in calls :: c.key
  }

  /** Values some call wrote. */
  function Written(ops: seq<Call>): set<Value> {
    set c | c in ops && c.op.Write? :: c.op.v
  }

  /** Non-zero values some call read. */
  function ReadNonZero(ops: seq<Call>): set<Value> {
    set c | c in ops && c.op.Read? && c.op.v != 0 :: c.op.v
  }

  /** Values read but never written by a logged put: their writes were still pending. */
  function Missing(ops: seq<Call>): set<Value> {
    ReadNonZero(ops) - Written(ops)
  }

  /** The earliest end of a read of `v`, if any. */
  function EarliestReadEnd(ops: seq<Call>, v: Value): (r: Option<nat>)
    ensures r.None? <==> Read(v) !in (set c | c in ops :: c.op)
    ensures r.Some? ==> exists c :: c in ops && c.op == Read(v) && c.end == r.value
    ensures r.Some? ==> forall c :: c in ops && c.op == Read(v) ==> r.value <= c.end
  {
    if ops == [] then None
    else
      assert ops == [ops[0]] + ops[1..];
      var rest := EarliestReadEnd(ops[1..], v);
      if ops[0].op == Read(v) && (rest.None? || ops[0].end <= rest.value) then Some(ops[0].end)
      else rest
  }

  /** The end given to a synthesized write of `v`: the first read's end, else the history's latest end. */
  function FirstReadEnd(ops: seq<Call>, v: Value, maxTime: nat): nat {
    match EarliestReadEnd(ops, v)
    case Some(e) => e
    case None => maxTime
  }

  /** `ops` with a write synthesized for each missing value in turn, each looking at the calls so far. */
  function WithMissingWrites(ops: seq<Call>, key: Key, missing: seq<Value>, maxTime: nat): seq<Call>
    decreases |missing|
  {
    if missing == [] then ops
    else WithMissingWrites(ops + [Call(key, Write(missing[0]), 0, FirstReadEnd(ops, missing[0], maxTime))],
                           key, missing[1..], maxTime)
  }

  /** The writes synthesized from the original calls alone. */
  function Synthesized(ops: seq<Call>, key: Key, missing: seq<Value>, maxTime: nat): (w: seq<Call>)
    ensures |w| == |missing|
  {
    seq(|missing|, j requires 0 <= j < |missing| => Call(key, Write(missing[j]), 0, FirstReadEnd(ops, missing[j], maxTime)))
  }

  /** A synthesized write does not change when a read of any value ended. */
  lemma EarliestReadEndPastWrite(ops: seq<Call>, w: Call, v: Value)
    requires w.op.Write?
    ensures EarliestReadEnd(ops + [w], v) == EarliestReadEnd(ops, v)
  {
    var a := EarliestReadEnd(ops + [w], v);
    var b := EarliestReadEnd(ops, v);
    assert forall c :: c in ops + [w] && c.op == Read(v) ==> c in ops;
    assert (set c | c in ops + [w] :: c.op) == (set c | c in ops :: c.op) + {w.op};
    if a.Some? && b.Some? {
      assert a.value <= b.value && b.value <= a.value;
    }
  }

  /**
   * The synthesized writes are appended after the calls, in the order of
   * `missing`, and each takes its end from the original reads only.
   */
  lemma {:induction false} MissingWritesAppended(ops: seq<Call>, key: Key, missing: seq<Value>, maxTime: nat)
    ensures WithMissingWrites(ops, key, missing, maxTime) == ops + Synthesized(ops, key, missing, maxTime)
    decreases |missing|
  {
    if missing != [] {
      var w := Call(key, Write(missing[0]), 0, FirstReadEnd(ops, missing[0], maxTime));
      MissingWritesAppended(ops + [w], key, missing[1..], maxTime);
      forall j | 0 <= j < |missing| - 1
        ensures FirstReadEnd(ops + [w], missing[1..][j], maxTime) == FirstReadEnd(ops, missing[j + 1], maxTime)
      {
        EarliestReadEndPastWrite(ops, w, missing[j + 1]);
      }
      assert [w] + Synthesized(ops + [w], key, missing[1..], maxTime) == Synthesized(ops, key, missing, maxTime);
    }
  }

  /**
   * A write synthesized for a value some call read finishes no later than
   * every read of it, and exactly when the first of them finished.
   */
  lemma SynthesizedWriteEndsAtFirstRead(ops: seq<Call>, key: Key, missing: seq<Value>, maxTime: nat, j: nat)
    requires j < |missing| && missing[j] in ReadNonZero(ops)
    ensures var w := Synthesized(ops, key, missing, maxTime)[j];
      w == Call(key, Write(missing[j]), 0, w.end) &&
      (forall c :: c in ops && c.op == Read(missing[j]) ==> w.end <= c.end) &&
      exists c :: c in ops && c.op == Read(missing[j]) && c.end == w.end
  {
    var c :| c in ops && c.op.Read? && c.op.v != 0 && c.op.v == missing[j];
    assert c.op == Read(missing[j]);
    assert Read(missing[j]) in (set c | c in ops :: c.op);
  }

  predicate SortedByEnd(s: seq<Call>) {
    forall i, j :: 0 <= i < j < |s| ==> s[i].end <= s[j].end
  }

  /** Inserting after every call that ends no later, so equal ends keep their order. */
  function InsertByEnd(c: Call, t: seq<Call>): (r: seq<Call>)
    ensures |r| == |t| + 1 && multiset(r) == multiset(t) + multiset{c}
  {
    if t == [] || c.end < t[0].end then [c] + t
    else
      assert t == [t[0]] + t[1..];
      [t[0]] + InsertByEnd(c, t[1..])
  }

  lemma {:induction false} InsertByEndSorted(c: Call, t: seq<Call>)
    requires SortedByEnd(t)
    ensures SortedByEnd(InsertByEnd(c, t))
  {
    if t != [] && c.end >= t[0].end {
      var rest := InsertByEnd(c, t[1..]);
      InsertByEndSorted(c, t[1..]);
      var r := [t[0]] + rest;
      assert r == InsertByEnd(c, t);
      forall i, j | 0 <= i < j < |r| ensures r[i].end <= r[j].end {
        if i == 0 {
          assert r[j] == rest[j - 1] && rest[j - 1] in multiset(rest);
          if r[j] != c {
            assert r[j] in multiset(t[1..]);
            var k :| 0 <= k < |t[1..]| && t[1..][k] == r[j];
            assert t[k + 1] == r[j];
          }
        } else {
          assert r[i] == rest[i - 1] && r[j] == rest[j - 1];
        }
      }
    }
  }

  /** `sort_by_key(|op| op.end)`: a stable insertion sort by end time, a permutation of its input. */
  function SortByEnd(s: seq<Call>): (r: seq<Call>)
    ensures multiset(r) == multiset(s)
  {
    if s == [] then []
    else
      assert s == s[..|s| - 1] + [s[|s| - 1]];
      InsertByEnd(s[|s| - 1], SortByEnd(s[..|s| - 1]))
  }

  /** The sorted calls are in order of end time. */
  lemma {:induction false} SortByEndSorted(s: seq<Call>)
    ensures SortedByEnd(SortByEnd(s))
  {
    if s != [] {
      SortByEndSorted(s[..|s| - 1]);
      InsertByEndSorted(s[|s| - 1], SortByEnd(s[..|s| - 1]));
    }
  }

  /** The calls the search runs on for `key`: its calls, the synthesized writes, sorted by end. */
  function Prepared(calls: seq<Call>, key: Key, missing: seq<Value>): seq<Call> {
    SortByEnd(WithMissingWrites(OfKey(calls, key), key, missing, MaxEnd(calls)))
  }

  ghost predicate KeyLinearizable(calls: seq<Call>, key: Key, missing: seq<Value>) {
    var ops := Prepared(calls, key, missing);
    Explains(ops, NoneUsed(|ops|), 0)
  }

  /** `missing` lists each value of `s` once. */
  ghost predicate Enumerates(missing: seq<Value>, s: set<Value>) {
    (forall v :: v in missing <==> v in s) &&
    forall a, b :: 0 <= a < b < |missing| ==> missing[a] != missing[b]
  }

  lemma ParsedStep(history: seq<HistoryEntry>, i: nat, call: Option<Call>)
    requires i < |history| && call == ParseEntry(history[i])
    ensures call.Some? ==> Parsed(history[..i + 1]) == Parsed(history[..i]) + [call.value]
    ensures call.None? ==> Parsed(history[..i + 1]) == Parsed(history[..i])
  {
    assert history[..i + 1][..i] == history[..i];
  }

  lemma AppendCall(calls: seq<Call>, c: Call)
    ensures MaxEnd(calls + [c]) == if c.end > MaxEnd(calls) then c.end else MaxEnd(calls)
    ensures KeysOf(calls + [c]) == KeysOf(calls) + {c.key}
  {
    assert (calls + [c])[..|calls|] == calls;
    assert forall x :: x in calls + [c] <==> x in calls || x == c;
  }

  lemma OfKeyAppend(calls: seq<Call>, c: Call, key: Key)
    ensures OfKey(calls + [c], key) == OfKey(calls, key) + (if c.key == key then [c] else [])
  {
    assert (calls + [c])[..|calls|] == calls;
  }

  /** `keysHistory` holds `calls` grouped by key, in order, and `maxTime` is their latest end. */
  ghost predicate Grouped(keysHistory: map<Key, seq<Call>>, maxTime: nat, calls: seq<Call>) {
    maxTime == MaxEnd(calls) &&
    (forall k :: k in keysHistory <==> k in KeysOf(calls)) &&
    forall k :: k in keysHistory ==> keysHistory[k] == OfKey(calls, k)
  }

  /** The body of the grouping loop for an entry that parses: push the call onto its key's list. */
  method Push(keysHistory: map<Key, seq<Call>>, maxTime: nat, ghost calls: seq<Call>, c: Call)
    returns (keysHistory': map<Key, seq<Call>>, maxTime': nat)
    requires Grouped(keysHistory, maxTime, calls)
    ensures Grouped(keysHistory', maxTime', calls + [c])
  {
    AppendCall(calls, c);
    maxTime' := if c.end > maxTime then c.end else maxTime;
    var prior := if c.key in keysHistory then keysHistory[c.key] else [];
    if c.key !in keysHistory {
      OfKeyOfAbsentKey(calls, c.key);
    }
    keysHistory' := keysHistory[c.key := prior + [c]];
    forall k | k in keysHistory' ensures keysHistory'[k] == OfKey(calls + [c], k) {
      OfKeyAppend(calls, c, k);
    }
  }

  /** The first loop of `CheckLinearizable`: the parsed calls grouped by key, and the latest end. */
  method GroupByKey(history: seq<HistoryEntry>) returns (keysHistory: map<Key, seq<Call>>, maxTime: nat)
    ensures Grouped(keysHistory, maxTime, Parsed(history))
  {
    keysHistory := map[];
    maxTime := 0;
    var i := 0;
    while i < |history|
      invariant i <= |history|
      invariant Grouped(keysHistory, maxTime, Parsed(history[..i]))
    {
      var call := ParseEntry(history[i]);
      ParsedStep(history, i, call);
      if call.Some? {
        keysHistory, maxTime := Push(keysHistory, maxTime, Parsed(history[..i]), call.value);
      }
      i := i + 1;
    }
    assert history[..i] == history;
  }

  /** The second loop of `CheckLinearizable`: a synthesized write per missing value, in order. */
  method AddMissingWrites(ops: seq<Call>, key: Key, missing: seq<Value>, maxTime: nat) returns (r: seq<Call>)
    ensures r == WithMissingWrites(ops, key, missing, maxTime)
  {
    r := ops;
    var j := 0;
    while j < |missing|
      invariant j <= |missing|
      invariant WithMissingWrites(r, key, missing[j..], maxTime) == WithMissingWrites(ops, key, missing, maxTime)
    {
      assert missing[j..][1..] == missing[j + 1..];
      var firstReadEnd := FirstReadEnd(r, missing[j], maxTime);
      r := r + [Call(key, Write(missing[j]), 0, firstReadEnd)];
      j := j + 1;
    }
    assert missing[j..] == [];
  }

  /** One iteration of the key loop: complete the key's calls, sort them by end, search. */
  method CheckKey(ops: seq<Call>, key: Key, missing: seq<Value>, maxTime: nat) returns (ok: bool)
    ensures var prepared := SortByEnd(WithMissingWrites(ops, key, missing, maxTime));
      ok == Explains(prepared, NoneUsed(|prepared|), 0)
  {
    var completed := AddMissingWrites(ops, key, missing, maxTime);
    ok := CheckSingleKey(SortByEnd(completed));
  }

  /**
   * The iteration orders the source leaves to its hash map and hash set:
   * `keyOrder` visits the keys of the parsed calls, and `missingOrder[k]`
   * lists key `k`'s missing values once each.
   */
  ghost predicate IterationOrders(calls: seq<Call>, keyOrder: seq<Key>, missingOrder: map<Key, seq<Value>>) {
    (forall k :: k in keyOrder <==> k in KeysOf(calls)) &&
    forall k :: k in KeysOf(calls) ==> k in missingOrder && Enumerates(missingOrder[k], Missing(OfKey(calls, k)))
  }

  /**
   * `CheckLinearizable`: group the parsed calls by key, then for each key
   * (in the map's iteration order `keyOrder`) add a write for every value
   * read but never written (in the set's iteration order `missingOrder`),
   * sort by end and search. The history is linearizable when every key's
   * search succeeds; an empty history is.
   */
  method CheckLinearizable(history: seq<HistoryEntry>, keyOrder: seq<Key>, missingOrder: map<Key, seq<Value>>)
    returns (ok: bool)
    requires IterationOrders(Parsed(history), keyOrder, missingOrder)
    ensures ok <==> forall k :: k in KeysOf(Parsed(history)) ==> KeyLinearizable(Parsed(history), k, missingOrder[k])
  {
    // Parsing is settled by `GroupByKey`; the texts play no further part.
    hide ParseEntry, RemoveSpaces;
    var keysHistory, maxTime := GroupByKey(history);
    ghost var calls := Parsed(history);
    if keysHistory == map[] {
      assert KeysOf(calls) == {};
      return true;
    }
    var n := 0;
    while n < |keyOrder|
      invariant n <= |keyOrder|
      invariant forall k :: k in keyOrder[..n] ==> k in missingOrder && KeyLinearizable(calls, k, missingOrder[k])
    {
      var key := keyOrder[n];
      assert keyOrder[..n + 1] == keyOrder[..n] + [key];
      assert key in KeysOf(calls);
      var single := CheckKey(keysHistory[key], key, missingOrder[key], maxTime);
      assert keysHistory[key] == OfKey(calls, key) && maxTime == MaxEnd(calls);
      assert single == KeyLinearizable(calls, key, missingOrder[key]);
      if !single {
        return false;
      }
      assert keyOrder[..n + 1] == keyOrder[..n] + [key];
      n := n + 1;
    }
    assert keyOrder[..n] == keyOrder;
    return true;
  }

  // ---------------------------------------------------------------------
  // What the checker's verdict means.
  // ---------------------------------------------------------------------

  /** History entries whose start is no later than their end, within `usize`. */
  ghost predicate EntriesWellTimed(history: seq<HistoryEntry>) {
    forall e :: e in history ==> e.start.ticks <= e.end.ticks <= USIZE_MAX
  }

  lemma {:induction false} ParsedWellTimed(history: seq<HistoryEntry>)
    requires EntriesWellTimed(history)
    ensures WellTimed(Parsed(history)) && MaxEnd(Parsed(history)) <= USIZE_MAX
  {
    if history != [] {
      assert forall e :: e in history[..|history| - 1] ==> e in history;
      ParsedWellTimed(history[..|history| - 1]);
      assert history[|history| - 1] in history;
    }
    var calls := Parsed(history);
    if calls != [] {
      var c :| c in calls && c.end == MaxEnd(calls);
    }
  }

  lemma PreparedWellTimed(calls: seq<Call>, key: Key, missing: seq<Value>)
    requires WellTimed(calls) && MaxEnd(calls) <= USIZE_MAX
    ensures WellTimed(Prepared(calls, key, missing))
  {
    var ops := OfKey(calls, key);
    OfKeyMembers(calls, key);
    var maxTime := MaxEnd(calls);
    MissingWritesAppended(ops, key, missing, maxTime);
    var all := WithMissingWrites(ops, key, missing, maxTime);
    forall c | c in all ensures c.start <= c.end <= USIZE_MAX {
      if c !in ops {
        var j :| 0 <= j < |missing| && Synthesized(ops, key, missing, maxTime)[j] == c;
        var e := EarliestReadEnd(ops, missing[j]);
        if e.Some? {
          var r :| r in ops && r.op == Read(missing[j]) && r.end == e.value;
        }
      }
    }
    var sorted := SortByEnd(all);
    forall c | c in sorted ensures c.start <= c.end <= USIZE_MAX {
      assert c in multiset(sorted);
    }
  }

  /**
   * For a history whose entries start before they end, a key passes the
   * check exactly when its calls, with the synthesized writes, have a
   * linearization.
   */
  lemma KeyCheckMeansLinearizable(history: seq<HistoryEntry>, key: Key, missing: seq<Value>)
    requires EntriesWellTimed(history)
    ensures var ops := Prepared(Parsed(history), key, missing);
      KeyLinearizable(Parsed(history), key, missing) <==> exists order :: Linearization(ops, NoneUsed(|ops|), 0, order)
  {
    ParsedWellTimed(history);
    PreparedWellTimed(Parsed(history), key, missing);
    SingleKeyDecidesLinearizability(Prepared(Parsed(history), key, missing));
  }
}
