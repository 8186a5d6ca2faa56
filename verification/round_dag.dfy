/**
 * The round-based DAG store of the systems protocols: a double-ended
 * queue of rounds, each a slot per process (plus one) that is empty or
 * holds a vertex, with two mark matrices of the same shape (`visited`
 * for `path_exists`, `ordered` for `order_from`) and the number of
 * rounds garbage-collected from the front.
 */
module RoundDag {
  import opened Wrappers
  import opened Decimal
  import opened BcbCommon
  import opened Dag

  /** Rounds kept by the collector: all of them. */
  const GC_REMAIN: nat := USIZE_MAX

  /** `certificate_size`: one bit per process and an id. */
  function CertificateSize(procNum: nat): nat
  {
    procNum / 8 + ID_SIZE
  }

  /** A vertex broadcast: `Genesis` for round 0, `Vertex` otherwise. */
  datatype VertexMessage = VertexMsg(vertex: Vertex) | GenesisMsg(vertex: Vertex)

  /** `virtual_size`: round and source (4 bytes each), then a certificate per strong edge. */
  function VertexMessageSize(msg: VertexMessage, procNum: nat): (size: nat)
    ensures size >= 8 && (msg.vertex.edges == [] <==> size == 8)
  {
    4 + 4 + CertificateSize(procNum) * |msg.vertex.edges|
  }

  /** Each strong edge adds one certificate, whatever the kind of message. */
  lemma EdgeCostsACertificate(v: Vertex, e: VertexRef, procNum: nat)
    ensures VertexMessageSize(VertexMsg(v.(edges := v.edges + [e])), procNum) ==
            VertexMessageSize(VertexMsg(v), procNum) + CertificateSize(procNum)
    ensures VertexMessageSize(GenesisMsg(v), procNum) == VertexMessageSize(VertexMsg(v), procNum)
  {
  }

  /** How many front rounds `gc` collects: those beyond `GC_REMAIN`, which a `usize` length never is. */
  function ToGc(len: nat): (n: nat)
    ensures n <= len
    ensures len <= GC_REMAIN ==> n == 0
    ensures len > GC_REMAIN ==> len - n == GC_REMAIN
  {
    if len > GC_REMAIN then len - GC_REMAIN else 0
  }

  type Round = seq<Option<VertexRef>>

  class RoundBasedDag {
    var procNum: nat
    var matrix: seq<Round>
    var visited: seq<seq<bool>>
    var ordered: seq<seq<bool>>
    var gcOffset: nat

    /** The three matrices have one shape. */
    ghost predicate Shaped()
      reads this
    {
      |visited| == |matrix| && |ordered| == |matrix| &&
      forall i :: 0 <= i < |matrix| ==> |visited[i]| == |matrix[i]| && |ordered[i]| == |matrix[i]|
    }

    /** One shape, and the row count fits a `usize`. */
    ghost predicate Valid()
      reads this
    {
      Shaped() && |matrix| <= USIZE_MAX
    }

    /** `Default`: no rounds, no processes. */
    constructor ()
      ensures Valid()
      ensures procNum == 0 && matrix == [] && visited == [] && ordered == [] && gcOffset == 0
    {
      procNum := 0;
      matrix := [];
      visited := [];
      ordered := [];
      gcOffset := 0;
    }

    /** `set_round_size`: rounds allocated from now on have `procNum + 1` slots. */
    method SetRoundSize(n: nat)
      modifies this
      ensures procNum == n
      ensures matrix == old(matrix) && visited == old(visited) && ordered == old(ordered) && gcOffset == old(gcOffset)
    {
      procNum := n;
    }

    /** `current_allocated_rounds`: rounds collected plus rounds held. */
    function AllocatedRounds(): nat
      reads this
    {
      |matrix| + gcOffset
    }

    /** `current_max_allocated_round`: the highest allocated round, or 0 when there is none. */
    function MaxAllocatedRound(): (r: nat)
      reads this
      ensures AllocatedRounds() == 0 ==> r == 0
      ensures AllocatedRounds() > 0 ==> r + 1 == AllocatedRounds()
    {
      if AllocatedRounds() > 0 then AllocatedRounds() - 1 else 0
    }

    /** `Index`: the row of an allocated, uncollected round. */
    function Row(round: nat): Round
      reads this
      requires gcOffset <= round < AllocatedRounds()
    {
      matrix[round - gcOffset]
    }

    /** `grow`: `rounds` empty rounds of `procNum + 1` slots at the back, with clear marks. */
    method Grow(rounds: nat)
      requires Valid() && |matrix| + rounds <= USIZE_MAX
      modifies this
      ensures Valid()
      ensures matrix == old(matrix) + Repeat(Repeat(None, procNum + 1), rounds)
      ensures visited == old(visited) + Repeat(Repeat(false, procNum + 1), rounds)
      ensures ordered == old(ordered) + Repeat(Repeat(false, procNum + 1), rounds)
      ensures procNum == old(procNum) && gcOffset == old(gcOffset)
    {
      var i := 0;
      while i < rounds
        invariant i <= rounds && Valid() && |matrix| == |old(matrix)| + i
        invariant matrix == old(matrix) + Repeat(Repeat(None, procNum + 1), i)
        invariant visited == old(visited) + Repeat(Repeat(false, procNum + 1), i)
        invariant ordered == old(ordered) + Repeat(Repeat(false, procNum + 1), i)
        invariant procNum == old(procNum) && gcOffset == old(gcOffset)
      {
        matrix := matrix + [Repeat(None, procNum + 1)];
        visited := visited + [Repeat(false, procNum + 1)];
        ordered := ordered + [Repeat(false, procNum + 1)];
        i := i + 1;
      }
    }

    /** `insert`: store `x` in the slot of its round and source. */
    method Insert(v: Vertex, x: VertexRef)
      requires Valid() && gcOffset <= v.round < AllocatedRounds() && v.source < |Row(v.round)|
      modifies this
      ensures visited == old(visited) && ordered == old(ordered) && procNum == old(procNum) && gcOffset == old(gcOffset)
      ensures Valid()
      ensures matrix == old(matrix)[v.round - gcOffset := old(matrix)[v.round - gcOffset][v.source := Some(x)]]
    {
      var round := v.round - gcOffset;
      matrix := matrix[round := matrix[round][v.source := Some(x)]];
    }

    /**
     * `add_vertex`: store `x` (whose vertex is `v`), first allocating its
     * round when it is the next one. A round further ahead makes the
     * source's unsigned subtraction underflow, so it is excluded.
     */
    method AddVertex(v: Vertex, x: VertexRef)
      requires Valid() && gcOffset <= v.round <= AllocatedRounds()
      requires v.round < AllocatedRounds() ==> v.source < |Row(v.round)|
      requires v.round == AllocatedRounds() ==> v.source <= procNum && |matrix| < USIZE_MAX
      modifies this
      ensures procNum == old(procNum) && gcOffset == old(gcOffset)
      ensures Valid() && |old(matrix)| <= |matrix|
      ensures v.round < AllocatedRounds() && v.source < |Row(v.round)| && Row(v.round)[v.source] == Some(x)
      ensures AllocatedRounds() == if v.round < old(AllocatedRounds()) then old(AllocatedRounds()) else v.round + 1
      ensures forall r, s :: 0 <= r < |old(matrix)| && 0 <= s < |old(matrix)[r]| && (r + gcOffset != v.round || s != v.source) ==>
        s < |matrix[r]| && matrix[r][s] == old(matrix)[r][s]
      ensures forall r, s :: |old(matrix)| <= r < |matrix| && 0 <= s < |matrix[r]| && s != v.source ==> matrix[r][s] == None
      ensures forall r :: 0 <= r < |matrix| ==> |matrix[r]| == if r < |old(matrix)| then |old(matrix)[r]| else procNum + 1
      ensures old(visited) <= visited && old(ordered) <= ordered
      ensures v.round < old(AllocatedRounds()) ==>
        matrix == old(matrix)[v.round - gcOffset := old(matrix)[v.round - gcOffset][v.source := Some(x)]]
      ensures forall r :: 0 <= r < |old(matrix)| && r + gcOffset != v.round ==> matrix[r] == old(matrix)[r]
    {
      if AllocatedRounds() > v.round {
        Insert(v, x);
      } else {
        var needAllocateRounds := AllocatedRounds() - v.round + 1;
        Grow(needAllocateRounds);
        Insert(v, x);
      }
    }

    /** `reset_visited`: every `visited` flag is cleared, rows keeping their lengths. */
    method ResetVisited()
      requires Valid()
      modifies this
      ensures Valid() && Cleared(old(visited), visited)
      ensures matrix == old(matrix) && ordered == old(ordered) && procNum == old(procNum) && gcOffset == old(gcOffset)
    {
      visited := ClearRows(visited);
    }

    /** `gc`: drop the rounds beyond `GC_REMAIN` from the front and count them in the offset. */
    method Gc()
      requires Shaped()
      modifies this
      ensures Shaped()
      ensures var n := ToGc(|old(ordered)|);
        matrix == old(matrix)[n..] && visited == old(visited)[n..] && ordered == old(ordered)[n..] &&
        gcOffset == old(gcOffset) + n && procNum == old(procNum)
    {
      var toGc := ToGc(|ordered|);
      var i := 0;
      while i < toGc
        invariant i <= toGc && Shaped()
        invariant matrix == old(matrix)[i..] && visited == old(visited)[i..] && ordered == old(ordered)[i..]
        invariant gcOffset == old(gcOffset) && procNum == old(procNum)
      {
        matrix, visited, ordered := matrix[1..], visited[1..], ordered[1..];
        i := i + 1;
      }
      gcOffset := gcOffset + toGc;
    }

    /**
     * `path_exists`: whether `u` can be reached from `v` along strong
     * edges without going below `u`'s round. Every vertex the search can
     * reach has a slot in the store.
     */
    method PathExists(arena: seq<Vertex>, v: VertexRef, u: VertexRef) returns (b: bool)
      requires Valid() && WellFormed(arena) && v < |arena| && u < |arena|
      requires ReachFits(arena, visited, gcOffset, v, arena[u].round)
      modifies this
      ensures Valid() && SameShape(old(visited), visited)
      ensures b ==> Reaches(arena, v, u, arena[u].round)
      ensures KeyUnique(arena) && Reaches(arena, v, u, arena[u].round) ==> b
      ensures matrix == old(matrix) && ordered == old(ordered) && procNum == old(procNum) && gcOffset == old(gcOffset)
    {
      if v == u {
        ReachesSelf(arena, v, arena[u].round);
        return true;
      }
      ResetVisited();
      SameShapeReachFits(arena, old(visited), visited, gcOffset, v, arena[u].round);
      ReachesSelf(arena, v, arena[u].round);
      var r: nat, s: nat := arena[v].round - gcOffset, arena[v].source;
      MarkCleared(old(visited), visited, r, s);
      visited := Mark(visited, r, s);
      SameShapeReachFits(arena, old(visited), visited, gcOffset, v, arena[u].round);
      var marks;
      b, marks := Explore(arena, visited, gcOffset, arena[u].round, v, u);
      visited := marks;
    }

    /**
     * `order_from`: mark as ordered everything reachable from `v` through
     * vertices not ordered before (`v` itself is not marked), then collect.
     */
    method OrderFrom(arena: seq<Vertex>, v: VertexRef)
      requires Valid() && WellFormed(arena) && v < |arena| && ReachFits(arena, ordered, gcOffset, v, 0)
      modifies this
      ensures Valid() && Grows(old(ordered), ordered)
      ensures NewlyReachable(arena, gcOffset, v, old(ordered), ordered)
      ensures KeyUnique(arena) ==> NewlyClosed(arena, gcOffset, v, old(ordered), ordered)
      ensures matrix == old(matrix) && visited == old(visited) && procNum == old(procNum) && gcOffset == old(gcOffset)
    {
      ordered := Order(arena, ordered, gcOffset, v);
      Gc();
      assert ordered == ordered[0..];
    }
  }
}
