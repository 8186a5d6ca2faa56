/**
 * What the DAG consensus protocols (Bullshark in its variants, Sparse
 * Bullshark and DAG-Rider) share: the allocations every process points
 * into, the rows of the round store seen as lists of vertices, leader
 * rotation, vertex validity, votes, the buffer of vertices whose parents
 * are missing, and the fact that strong edges go down in round, which is
 * what keeps every search inside the store.
 */
module DagConsensus {
  import opened Wrappers
  import opened Decimal
  import opened Message
  import opened Counting
  import opened BcbCommon
  import opened Dag

  type Round = seq<Option<VertexRef>>

  /**
   * The highest round a vertex may carry: the store then holds at most
   * `USIZE_MAX` rounds.
   */
  const MAX_ROUND: nat := USIZE_MAX - 1

  /**
   * The vertices allocated so far. In the simulator a vertex pointer
   * (`Rc<Vertex>`) is shared between the sender and every receiver, so all
   * processes point into one set of allocations.
   */
  class Arena {
    var vertices: seq<Vertex>

    constructor ()
      ensures vertices == []
    {
      vertices := [];
    }

    /** `VertexPtr::new`: a fresh allocation holding `v`. */
    method Alloc(v: Vertex) returns (x: VertexRef)
      modifies this
      ensures x == |old(vertices)| && vertices == old(vertices) + [v]
    {
      x := |vertices|;
      vertices := vertices + [v];
    }
  }

  /** What a process hands to reliable broadcast: its genesis vertex or a later one. */
  datatype Announce = GenesisOf(x: VertexRef) | VertexOf(x: VertexRef)

  // Rows as lists of vertices

  /** `iter().flatten()`: the vertices of a row, in slot order. */
  function Flatten(row: Round): (r: seq<VertexRef>)
    ensures |r| <= |row|
  {
    if row == [] then []
    else
      var init := row[..|row| - 1];
      match row[|row| - 1]
      case None => Flatten(init)
      case Some(x) => Flatten(init) + [x]
  }

  /** The vertices of a row are exactly those its slots hold. */
  lemma {:induction false} FlattenMembers(row: Round)
    ensures forall e :: e in Flatten(row) <==> exists s :: 0 <= s < |row| && row[s] == Some(e)
    decreases |row|
  {
    if row != [] {
      var init := row[..|row| - 1];
      FlattenMembers(init);
      assert forall s :: 0 <= s < |init| ==> init[s] == row[s];
    }
  }

  /** The occupied slots of a row. */
  function Occupied(row: Round): set<nat>
  {
    set s | 0 <= s < |row| && row[s].Some?
  }

  /** `iter().flatten().count()`: one vertex per occupied slot. */
  lemma {:induction false} FlattenCount(row: Round)
    ensures |Flatten(row)| == |Occupied(row)|
    decreases |row|
  {
    if row != [] {
      var init := row[..|row| - 1];
      FlattenCount(init);
      var last := |row| - 1;
      if row[last].Some? {
        assert Occupied(row) == Occupied(init) + {last};
      } else {
        assert Occupied(row) == Occupied(init);
      }
    }
  }

  /** Every row of the store has `width` slots. */
  ghost predicate Rows(matrix: seq<Round>, width: nat)
  {
    forall r :: 0 <= r < |matrix| ==> |matrix[r]| == width
  }

  /** Slot `s` of row `r` holds only a vertex of round `r` and source `s`. */
  ghost predicate InSlots(arena: seq<Vertex>, matrix: seq<Round>)
  {
    forall r, s :: 0 <= r < |matrix| && 0 <= s < |matrix[r]| && matrix[r][s].Some? ==>
      matrix[r][s].value < |arena| && arena[matrix[r][s].value].round == r && arena[matrix[r][s].value].source == s
  }

  // Leaders

  /** `get_leader_id` / `GetLeaderId`: round `r` is led by process `r % n + 1`. */
  function LeaderId(r: nat, n: nat): (id: ProcessId)
    requires n >= 1
    ensures 1 <= id <= n
  {
    r % n + 1
  }

  /** The lead rotates: within any `n` consecutive rounds from `r`, process `p` leads the `k`-th. */
  lemma EveryProcessLeads(r: nat, n: nat, p: ProcessId) returns (k: nat)
    requires n >= 1 && 1 <= p <= n
    ensures k < n && LeaderId(r + k, n) == p
  {
    var a := r % n;
    var q := r / n;
    assert r == n * q + a;
    if p - 1 >= a {
      k := p - 1 - a;
      ModOfMultiplePlus(n, q, p - 1);
    } else {
      k := p - 1 - a + n;
      assert n * q + n == n * (q + 1);
      ModOfMultiplePlus(n, q + 1, p - 1);
    }
  }

  lemma ModOfMultiplePlus(n: nat, q: nat, m: nat)
    requires m < n
    ensures (n * q + m) % n == m
  {
    var x := n * q + m;
    var d := x / n;
    var e := x % n;
    assert x == n * d + e && 0 <= e < n;
    var N: int := n;
    assert N * (d - q) == m - e;
    forall k: int | k >= 1
      ensures N * k >= N
    {
      assert N * k == N + N * (k - 1);
    }
    forall k: int | k <= -1
      ensures N * k <= -N
    {
      assert N * k == -N + N * (k + 1);
    }
  }

  /**
   * `GetLeaderId` of protocols/dag-based/src/bullshark.rs as written:
   * `r % n`, one below the leader of the other variants.
   */
  function LeaderIdAsWritten(r: nat, n: nat): (id: nat)
    requires n >= 1
    ensures id < n && id + 1 == LeaderId(r, n)
  {
    r % n
  }

  /**
   * Process ids are 1, ..., n, so slot 0 of a round is never filled: with
   * the leader as written, every round that `n` divides has no anchor, and
   * with two processes no even round ever has one.
   */
  lemma LeaderIdAsWrittenIsNoProcess(arena: seq<Vertex>, matrix: seq<Round>, n: nat, r: nat)
    requires n >= 1 && InSlots(arena, matrix)
    requires forall x :: 0 <= x < |arena| ==> 1 <= arena[x].source
    requires r < |matrix| && 0 < |matrix[r]|
    ensures r % n == 0 ==> matrix[r][LeaderIdAsWritten(r, n)] == None
    ensures LeaderIdAsWritten(4, 4) == 0
    ensures forall k: nat :: LeaderIdAsWritten(2 * k, 2) == 0
  {
  }

  // Validity and votes

  /**
   * `bad_vertex` and the validity checks of the handlers: fewer strong
   * edges than a quorum, or relayed by someone other than its source.
   */
  predicate BadVertex(v: Vertex, from: ProcessId, n: nat)
    requires n >= 1
  {
    |v.edges| < QuorumSize(n) || from != v.source
  }

  /**
   * A vertex made from a row holding a quorum, sent by its own source,
   * passes every other process's validity check.
   */
  lemma QuorumRowMakesGoodVertex(row: Round, r: nat, self: ProcessId, n: nat)
    requires n >= 1 && |Occupied(row)| >= QuorumSize(n)
    ensures !BadVertex(Vertex(r, self, Flatten(row)), self, n)
  {
    FlattenCount(row);
  }

  /**
   * Whether `x` links to `a`: by pointer (`same_vertex`), or, for
   * `contains` over vertex pointers, by the vertices' (round, source).
   */
  predicate Links(arena: seq<Vertex>, x: VertexRef, a: VertexRef, byKey: bool)
    requires x < |arena| && a < |arena|
  {
    if byKey then exists k :: 0 <= k < |arena[x].edges| && arena[x].edges[k] < |arena| && SameKey(arena[arena[x].edges[k]], arena[a])
    else a in arena[x].edges
  }

  /** How many of `voters` link to `a`. */
  function Votes(arena: seq<Vertex>, voters: seq<VertexRef>, a: VertexRef, byKey: bool): (c: nat)
    requires a < |arena| && forall i :: 0 <= i < |voters| ==> voters[i] < |arena|
    ensures c <= |voters|
    ensures c > 0 <==> exists i :: 0 <= i < |voters| && Links(arena, voters[i], a, byKey)
  {
    if voters == [] then 0
    else
      var rest := Votes(arena, voters[1..], a, byKey);
      assert forall i :: 1 <= i < |voters| ==> voters[i] == voters[1..][i - 1];
      assert forall i :: 0 <= i < |voters| - 1 ==> voters[1..][i] == voters[i + 1];
      (if Links(arena, voters[0], a, byKey) then 1 else 0) + rest
  }

  /**
   * With at most `f` faulty processes, `f + 1` distinct voters include a
   * correct one, and `2f + 1` include `f + 1` correct ones.
   */
  lemma VotersIncludeCorrect(voters: set<ProcessId>, faulty: set<ProcessId>, f: nat)
    requires |faulty| <= f
    ensures |voters| >= f + 1 ==> voters - faulty != {}
    ensures |voters| >= 2 * f + 1 ==> |voters - faulty| >= f + 1
  {
    assert |voters - faulty| + |voters * faulty| == |voters|;
    SubsetCard(voters * faulty, faulty);
  }

  // Strong edges go down

  /** Every strong edge points to an allocated vertex of a lower round. */
  ghost predicate Descending(arena: seq<Vertex>)
  {
    forall x, k :: 0 <= x < |arena| && 0 <= k < |arena[x].edges| ==>
      arena[x].edges[k] < |arena| && arena[arena[x].edges[k]].round < arena[x].round
  }

  /**
   * What every vertex of a run satisfies: edges go down, sources are process
   * ids, rounds fit.
   */
  ghost predicate World(arena: seq<Vertex>, n: nat)
  {
    Descending(arena) &&
    forall x :: 0 <= x < |arena| ==> 1 <= arena[x].source <= n && arena[x].round <= MAX_ROUND
  }

  lemma DescendingWellFormed(arena: seq<Vertex>)
    requires Descending(arena)
    ensures WellFormed(arena)
  {
  }

  /** A path never climbs: its end is no higher than its start. */
  lemma {:induction false} PathDescends(arena: seq<Vertex>, p: seq<VertexRef>, lo: nat)
    requires Descending(arena) && IsPath(arena, p, lo)
    ensures arena[p[|p| - 1]].round <= arena[p[0]].round
    decreases |p|
  {
    if |p| > 1 {
      var q := p[..|p| - 1];
      assert forall i :: 0 <= i < |q| ==> q[i] == p[i];
      forall i | 0 <= i < |q| - 1
        ensures Step(arena, q, i, lo)
      {
        assert Step(arena, p, i, lo);
      }
      assert IsPath(arena, q, lo);
      PathDescends(arena, q, lo);
      assert Step(arena, p, |p| - 2, lo);
      var k :| 0 <= k < |arena[p[|p| - 2]].edges| && arena[p[|p| - 2]].edges[k] == p[|p| - 1];
    }
  }

  /**
   * Since edges go down, everything reachable from a vertex whose round is
   * stored has its slot: the searches of the store stay inside it.
   */
  lemma DescendingReachFits(arena: seq<Vertex>, marks: seq<seq<bool>>, v: VertexRef, lo: nat, width: nat)
    requires Descending(arena) && v < |arena| && arena[v].round < |marks|
    requires forall r :: 0 <= r < |marks| ==> |marks[r]| == width
    requires forall x :: 0 <= x < |arena| ==> arena[x].source < width
    ensures ReachFits(arena, marks, 0, v, lo)
  {
    forall x | 0 <= x < |arena| && Reaches(arena, v, x, lo)
      ensures Fits(arena, marks, 0, x)
    {
      var p :| IsPath(arena, p, lo) && p[0] == v && p[|p| - 1] == x;
      PathDescends(arena, p, lo);
    }
  }

  // The buffer of stalled vertices

  /**
   * A `BTreeSet<VertexPtr>` of the systems vertex order: strictly ascending
   * by (round, source), so at most one vertex per key.
   */
  ghost predicate SortedBuffer(arena: seq<Vertex>, buf: seq<VertexRef>)
  {
    (forall i :: 0 <= i < |buf| ==> buf[i] < |arena|) &&
    forall i, j :: 0 <= i < j < |buf| ==> VertexLess(arena[buf[i]], arena[buf[j]])
  }

  /** Whether the buffer holds a vertex with the key of `x`. */
  predicate HasKey(arena: seq<Vertex>, buf: seq<VertexRef>, x: VertexRef)
    requires x < |arena| && forall i :: 0 <= i < |buf| ==> buf[i] < |arena|
  {
    exists i :: 0 <= i < |buf| && SameKey(arena[buf[i]], arena[x])
  }

  /** `BTreeSet::insert`: add `x` in order, unless a vertex with its key is already there. */
  function BufInsert(arena: seq<Vertex>, buf: seq<VertexRef>, x: VertexRef): (r: seq<VertexRef>)
    requires x < |arena| && SortedBuffer(arena, buf)
    ensures SortedBuffer(arena, r)
    ensures HasKey(arena, buf, x) ==> r == buf
    ensures !HasKey(arena, buf, x) ==> forall y :: y in r <==> y in buf || y == x
  {
    if buf == [] then [x]
    else if SameKey(arena[buf[0]], arena[x]) then buf
    else if VertexLess(arena[x], arena[buf[0]]) then
      assert !HasKey(arena, buf, x) by {
        forall i | 0 <= i < |buf| ensures !SameKey(arena[buf[i]], arena[x]) {
          if i > 0 { assert VertexLess(arena[buf[0]], arena[buf[i]]); }
        }
      }
      [x] + buf
    else
      var tail := buf[1..];
      assert forall i :: 0 <= i < |tail| ==> tail[i] == buf[i + 1];
      assert HasKey(arena, buf, x) <==> HasKey(arena, tail, x) by {
        if HasKey(arena, buf, x) {
          var i :| 0 <= i < |buf| && SameKey(arena[buf[i]], arena[x]);
          assert i > 0 && SameKey(arena[tail[i - 1]], arena[x]);
        }
      }
      var rest := BufInsert(arena, tail, x);
      assert forall y :: y in rest ==> y == x || y in tail;
      VertexOrderIsTotal(arena[buf[0]], arena[x], arena[x]);
      assert forall i :: 0 <= i < |rest| ==> VertexLess(arena[buf[0]], arena[rest[i]]) by {
        forall i | 0 <= i < |rest| ensures VertexLess(arena[buf[0]], arena[rest[i]]) {
          assert rest[i] in rest;
          if rest[i] != x {
            var j :| 0 <= j < |tail| && tail[j] == rest[i];
            assert VertexLess(arena[buf[0]], arena[buf[j + 1]]);
          }
        }
      }
      assert [buf[0]] + tail == buf;
      [buf[0]] + rest
  }

  /** `BTreeSet::remove`: drop the vertex with the key of `x`, if any. */
  function BufRemove(arena: seq<Vertex>, buf: seq<VertexRef>, x: VertexRef): (r: seq<VertexRef>)
    requires x < |arena| && SortedBuffer(arena, buf)
    ensures SortedBuffer(arena, r) && !HasKey(arena, r, x)
    ensures forall y :: y in r <==> y in buf && !SameKey(arena[y], arena[x])
  {
    if buf == [] then []
    else
      var tail := buf[1..];
      assert forall i :: 0 <= i < |tail| ==> tail[i] == buf[i + 1];
      var rest := BufRemove(arena, tail, x);
      if SameKey(arena[buf[0]], arena[x]) then rest
      else [buf[0]] + rest
  }

  /** The reversal of a sequence: what popping a whole stack yields. */
  function Reverse<T>(s: seq<T>): (r: seq<T>)
    ensures |r| == |s| && forall i :: 0 <= i < |s| ==> r[i] == s[|s| - 1 - i]
  {
    if s == [] then [] else Reverse(s[1..]) + [s[0]]
  }
}
