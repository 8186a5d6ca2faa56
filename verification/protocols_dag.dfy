/**
 * The round-based DAG store of the protocols crate (`RoundBasedDAG` of
 * the DAG protocols and the `DAG` of Bullshark, which differ only in how
 * the genesis round is made): a vector of rounds, each a slot per
 * process that is empty or holds a vertex, and a `visited` matrix of the
 * same shape. Round `r` is row `r`; nothing is collected.
 *
 * The genesis round holds `n` distinct allocations that are all round 0,
 * source 0 with no edges: they share the `visited` flag (0, 0), which is
 * harmless because a search never goes through a vertex without edges.
 */
module ProtocolDag {
  import opened Wrappers
  import opened Dag

  type Round = seq<Option<VertexRef>>

  /** The `n` genesis vertices: round 0, source 0, no strong edges. */
  function GenesisVertices(n: nat): seq<Vertex>
  {
    Repeat(Vertex(0, 0, []), n)
  }

  /** The genesis row: allocations `first`, ..., `first + n - 1`, one per slot. */
  function GenesisRow(n: nat, first: VertexRef): (row: Round)
    ensures |row| == n && forall i :: 0 <= i < n ==> row[i] == Some(first + i)
  {
    seq(n, i => Some(first + i))
  }

  /**
   * Allocating the genesis vertices after the `arena` so far keeps one
   * vertex per slot wherever it held, since the genesis vertices have no
   * edges; and the genesis row names exactly those new allocations.
   */
  lemma GenesisKeepsKeyUnique(arena: seq<Vertex>, n: nat)
    requires KeyUnique(arena)
    requires forall x :: 0 <= x < |arena| && arena[x].round == 0 && arena[x].source == 0 ==> arena[x].edges == []
    ensures KeyUnique(arena + GenesisVertices(n))
    ensures forall i :: 0 <= i < n ==>
      GenesisRow(n, |arena|)[i].value < |arena + GenesisVertices(n)| &&
      (arena + GenesisVertices(n))[GenesisRow(n, |arena|)[i].value] == Vertex(0, 0, [])
  {
    var all := arena + GenesisVertices(n);
    forall a, b | 0 <= a < |all| && 0 <= b < |all| && a != b && SameKey(all[a], all[b])
      ensures all[a].edges == []
    {
      if a >= |arena| {
        assert all[a] == GenesisVertices(n)[a - |arena|];
      } else if b >= |arena| {
        assert all[b] == GenesisVertices(n)[b - |arena|];
        assert all[a] == arena[a];
      } else {
        assert all[a] == arena[a] && all[b] == arena[b];
      }
    }
  }

  class RoundBasedDag {
    var matrix: seq<Round>
    var visited: seq<seq<bool>>

    /** `visited` has the shape of `matrix`. */
    ghost predicate Valid()
      reads this
    {
      |visited| == |matrix| && forall i :: 0 <= i < |matrix| ==> |visited[i]| == |matrix[i]|
    }

    /** `RoundBasedDAG::New`: no rounds at all until `Init`. */
    constructor New()
      ensures Valid() && matrix == [] && visited == []
    {
      matrix := [];
      visited := [];
    }

    /** `DAG::New(n)`: the genesis round of `n` vertices, allocated as `first`, ..., `first + n - 1`. */
    constructor Genesis(n: nat, first: VertexRef)
      ensures Valid() && matrix == [GenesisRow(n, first)] && visited == [Repeat(false, n)]
    {
      matrix := [GenesisRow(n, first)];
      visited := [Repeat(false, n)];
    }

    /** `Init`: append the genesis round of `n` vertices, allocated as `first`, ..., `first + n - 1`. */
    method Init(n: nat, first: VertexRef)
      requires Valid()
      modifies this
      ensures Valid()
      ensures matrix == old(matrix) + [GenesisRow(n, first)] && visited == old(visited) + [Repeat(false, n)]
    {
      matrix := matrix + [GenesisRow(n, first)];
      visited := visited + [Repeat(false, n)];
    }

    /** `CurrentAllocatedRounds`: one row per round from 0. */
    function CurrentAllocatedRounds(): nat
      reads this
    {
      |matrix|
    }

    /**
     * `CurrentMaxAllocatedRound`: the last allocated round. The source
     * subtracts one in `usize`, which underflows on an empty store.
     */
    function CurrentMaxAllocatedRound(): (r: nat)
      reads this
      requires |matrix| >= 1
      ensures r + 1 == CurrentAllocatedRounds() && r < |matrix|
    {
      CurrentAllocatedRounds() - 1
    }

    /** `Grow`: `rounds` empty rows at the back, as wide as round 0, with clear flags. */
    method Grow(rounds: nat)
      requires Valid() && |matrix| >= 1
      modifies this
      ensures Valid()
      ensures matrix == old(matrix) + Repeat(Repeat(None, |old(matrix)[0]|), rounds)
      ensures visited == old(visited) + Repeat(Repeat(false, |old(matrix)[0]|), rounds)
    {
      var n := |matrix[0]|;
      var i := 0;
      while i < rounds
        invariant i <= rounds && Valid()
        invariant matrix == old(matrix) + Repeat(Repeat(None, n), i)
        invariant visited == old(visited) + Repeat(Repeat(false, n), i)
      {
        matrix := matrix + [Repeat(None, n)];
        visited := visited + [Repeat(false, n)];
        i := i + 1;
      }
    }

    /** `Insert`: store `x` in the slot of its round and source. */
    method Insert(v: Vertex, x: VertexRef)
      requires Valid() && v.round < |matrix| && v.source < |matrix[v.round]|
      modifies this
      ensures visited == old(visited) && Valid()
      ensures matrix == old(matrix)[v.round := old(matrix)[v.round][v.source := Some(x)]]
    {
      matrix := matrix[v.round := matrix[v.round][v.source := Some(x)]];
    }

    /**
     * `AddVertex` / `Add`: store `x` (whose vertex is `v`), first
     * allocating its round when it is the next one. A round further ahead
     * makes the source's unsigned subtraction underflow, and growing reads
     * the width of round 0, so both are excluded.
     */
    method AddVertex(v: Vertex, x: VertexRef)
      requires Valid() && v.round <= |matrix|
      requires v.round < |matrix| ==> v.source < |matrix[v.round]|
      requires v.round == |matrix| ==> |matrix| >= 1 && v.source < |matrix[0]|
      modifies this
      ensures Valid() && |old(matrix)| <= |matrix|
      ensures v.round < |matrix| && v.source < |matrix[v.round]| && matrix[v.round][v.source] == Some(x)
      ensures |matrix| == if v.round < |old(matrix)| then |old(matrix)| else v.round + 1
      ensures forall r, s :: 0 <= r < |old(matrix)| && 0 <= s < |old(matrix)[r]| && (r != v.round || s != v.source) ==>
        s < |matrix[r]| && matrix[r][s] == old(matrix)[r][s]
      ensures forall r, s :: |old(matrix)| <= r < |matrix| && 0 <= s < |matrix[r]| && s != v.source ==> matrix[r][s] == None
      ensures old(visited) <= visited
    {
      if |matrix| > v.round {
        Insert(v, x);
      } else {
        var needAllocateRounds := |matrix| - v.round + 1;
        Grow(needAllocateRounds);
        Insert(v, x);
      }
    }

    /** `ResetVisited`: every flag is cleared, rows keeping their lengths. */
    method ResetVisited()
      requires Valid()
      modifies this
      ensures Valid() && Cleared(old(visited), visited) && matrix == old(matrix)
    {
      visited := ClearRows(visited);
    }

    /**
     * `PathExists`: whether `u` can be reached from `v` along strong
     * edges. Every vertex the search can reach has a slot in the store.
     */
    method PathExists(arena: seq<Vertex>, v: VertexRef, u: VertexRef) returns (b: bool)
      requires Valid() && WellFormed(arena) && v < |arena| && u < |arena| && ReachFits(arena, visited, 0, v, 0)
      modifies this
      ensures Valid() && SameShape(old(visited), visited) && matrix == old(matrix)
      ensures b ==> Reaches(arena, v, u, 0)
      ensures KeyUnique(arena) && Reaches(arena, v, u, 0) ==> b
    {
      if v == u {
        ReachesSelf(arena, v, 0);
        return true;
      }
      ResetVisited();
      SameShapeReachFits(arena, old(visited), visited, 0, v, 0);
      ReachesSelf(arena, v, 0);
      var r: nat, s: nat := arena[v].round, arena[v].source;
      MarkCleared(old(visited), visited, r, s);
      visited := Mark(visited, r, s);
      SameShapeReachFits(arena, old(visited), visited, 0, v, 0);
      var marks;
      b, marks := Explore(arena, visited, 0, 0, v, u);
      visited := marks;
    }
  }
}
