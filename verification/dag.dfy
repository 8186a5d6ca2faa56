/**
 * What the three round-based DAG stores share: vertices, pointer identity,
 * reachability over strong edges, the round x process mark matrices, and
 * the two breadth-first searches, of `path_exists` / `PathExists` and of
 * `order_from`.
 *
 * A vertex lives behind a shared pointer (`Rc<Vertex>`) and is never
 * changed once allocated. The model numbers the allocations: `arena[x]` is
 * the vertex of allocation `x`, a strong edge is such a number, and two
 * pointers are the same vertex (`same_vertex`, `SameVertex`,
 * `IsSameVertex`) exactly when the numbers are equal.
 */
module Dag {
  import opened Message
  import opened Counting

  /** A vertex pointer: the number of its allocation. */
  type VertexRef = nat

  datatype Vertex = Vertex(round: nat, source: ProcessId, edges: seq<VertexRef>)

  /** Every strong edge points to an allocated vertex. */
  ghost predicate WellFormed(arena: seq<Vertex>)
  {
    forall x, k :: 0 <= x < |arena| && 0 <= k < |arena[x].edges| ==> arena[x].edges[k] < |arena|
  }

  /**
   * `Vertex` equality and order in the systems store: by round, then by
   * source, whatever the edges. `VertexLess` is the strict order.
   */
  predicate VertexLess(a: Vertex, b: Vertex)
  {
    a.round < b.round || (a.round == b.round && a.source < b.source)
  }

  predicate SameKey(a: Vertex, b: Vertex)
  {
    a.round == b.round && a.source == b.source
  }

  /** The (round, source) order is a strict total order on keys. */
  lemma VertexOrderIsTotal(a: Vertex, b: Vertex, c: Vertex)
    ensures !VertexLess(a, a)
    ensures VertexLess(a, b) && VertexLess(b, c) ==> VertexLess(a, c)
    ensures VertexLess(a, b) || VertexLess(b, a) || SameKey(a, b)
    ensures SameKey(a, b) ==> !VertexLess(a, b) && !VertexLess(b, a)
  {
  }

  /**
   * A path along strong edges that, after its first vertex, never goes below
   * round `lo` (the depth cut of the systems search; 0 means no cut).
   */
  ghost predicate IsPath(arena: seq<Vertex>, p: seq<VertexRef>, lo: nat)
  {
    |p| >= 1 && (forall i :: 0 <= i < |p| ==> p[i] < |arena|) &&
    forall i :: 0 <= i < |p| - 1 ==> Step(arena, p, i, lo)
  }

  /** The path's `i`-th hop follows a strong edge and stays at round `lo` or above. */
  ghost predicate Step(arena: seq<Vertex>, p: seq<VertexRef>, i: nat, lo: nat)
    requires i < |p| - 1 && p[i] < |arena|
  {
    p[i + 1] in arena[p[i]].edges && p[i + 1] < |arena| && arena[p[i + 1]].round >= lo
  }

  ghost predicate Reaches(arena: seq<Vertex>, v: VertexRef, u: VertexRef, lo: nat)
  {
    exists p :: IsPath(arena, p, lo) && p[0] == v && p[|p| - 1] == u
  }

  lemma ReachesSelf(arena: seq<Vertex>, v: VertexRef, lo: nat)
    requires v < |arena|
    ensures Reaches(arena, v, v, lo)
  {
    assert IsPath(arena, [v], lo);
  }

  lemma ReachesStep(arena: seq<Vertex>, v: VertexRef, x: VertexRef, e: VertexRef, lo: nat)
    requires Reaches(arena, v, x, lo) && x < |arena| && e < |arena|
    requires e in arena[x].edges && arena[e].round >= lo
    ensures Reaches(arena, v, e, lo)
  {
    var p :| IsPath(arena, p, lo) && p[0] == v && p[|p| - 1] == x;
    var q := p + [e];
    assert forall i :: 0 <= i < |p| ==> q[i] == p[i];
    forall i | 0 <= i < |q| - 1
      ensures Step(arena, q, i, lo)
    {
      if i < |p| - 1 {
        assert Step(arena, p, i, lo);
      }
    }
    assert IsPath(arena, q, lo);
  }

  /**
   * Distinct allocations with equal (round, source) carry no edges. The
   * stores index their marks by (round, source), so only such vertices may
   * share a mark: the genesis vertices of the protocols stores (all at
   * round 0, source 0) do, and a run where each process makes one vertex
   * per round holds one vertex per slot.
   */
  ghost predicate KeyUnique(arena: seq<Vertex>)
  {
    forall a, b :: 0 <= a < |arena| && 0 <= b < |arena| && a != b && SameKey(arena[a], arena[b]) ==> arena[a].edges == []
  }

  // Mark matrices (`visited`, `ordered`): one row per stored round, one flag per slot.

  ghost predicate SameShape(a: seq<seq<bool>>, b: seq<seq<bool>>)
  {
    |a| == |b| && forall i :: 0 <= i < |a| ==> |a[i]| == |b[i]|
  }

  /** The slot of vertex `x` is in the matrix, rows counted from round `offset`. */
  ghost predicate Fits(arena: seq<Vertex>, marks: seq<seq<bool>>, offset: nat, x: VertexRef)
    requires x < |arena|
  {
    offset <= arena[x].round < offset + |marks| && arena[x].source < |marks[arena[x].round - offset]|
  }

  /** Every vertex a search from `v` can reach (not going below `lo`) has a slot. */
  ghost predicate ReachFits(arena: seq<Vertex>, marks: seq<seq<bool>>, offset: nat, v: VertexRef, lo: nat)
  {
    forall x :: 0 <= x < |arena| && Reaches(arena, v, x, lo) ==> Fits(arena, marks, offset, x)
  }

  lemma SameShapeReachFits(arena: seq<Vertex>, a: seq<seq<bool>>, b: seq<seq<bool>>, offset: nat, v: VertexRef, lo: nat)
    requires ReachFits(arena, a, offset, v, lo) && SameShape(a, b)
    ensures ReachFits(arena, b, offset, v, lo)
  {
    forall x | 0 <= x < |arena| && Reaches(arena, v, x, lo)
      ensures Fits(arena, b, offset, x)
    {
      assert Fits(arena, a, offset, x);
    }
  }

  ghost predicate Marked(arena: seq<Vertex>, marks: seq<seq<bool>>, offset: nat, x: VertexRef)
    requires x < |arena| && Fits(arena, marks, offset, x)
  {
    marks[arena[x].round - offset][arena[x].source]
  }

  /** `marks` with one flag set. */
  function Mark(marks: seq<seq<bool>>, r: nat, s: nat): (m: seq<seq<bool>>)
    requires r < |marks| && s < |marks[r]|
    ensures SameShape(marks, m) && m[r][s]
    ensures forall i, j :: 0 <= i < |m| && 0 <= j < |m[i]| && (i != r || j != s) ==> m[i][j] == marks[i][j]
  {
    marks[r := marks[r][s := true]]
  }

  /** `n` copies of `x`: a freshly resized row. */
  function Repeat<T>(x: T, n: nat): (r: seq<T>)
    ensures |r| == n && forall i :: 0 <= i < n ==> r[i] == x
  {
    if n == 0 then [] else Repeat(x, n - 1) + [x]
  }

  /** A matrix of the same shape with every flag clear. */
  ghost predicate Cleared(a: seq<seq<bool>>, b: seq<seq<bool>>)
  {
    SameShape(a, b) && forall i, j :: 0 <= i < |b| && 0 <= j < |b[i]| ==> !b[i][j]
  }

  /** `reset_visited` / `ResetVisited`: every row is cleared and refilled with `false` to its old length. */
  method ClearRows(marks: seq<seq<bool>>) returns (cleared: seq<seq<bool>>)
    ensures Cleared(marks, cleared)
  {
    cleared := marks;
    var i := 0;
    while i < |cleared|
      invariant i <= |cleared| && SameShape(marks, cleared)
      invariant forall k, j :: 0 <= k < i && 0 <= j < |cleared[k]| ==> !cleared[k][j]
    {
      cleared := cleared[i := Repeat(false, |cleared[i]|)];
      i := i + 1;
    }
  }

  /** Marking one slot of a cleared matrix leaves that slot the only one set. */
  lemma MarkCleared(a: seq<seq<bool>>, b: seq<seq<bool>>, r: nat, s: nat)
    requires Cleared(a, b) && r < |b| && s < |b[r]|
    ensures SameShape(a, Mark(b, r, s))
    ensures forall i, j :: 0 <= i < |b| && 0 <= j < |b[i]| ==> (Mark(b, r, s)[i][j] <==> i == r && j == s)
  {
  }

  /** Every flag of `a` is set in `b` too. */
  ghost predicate Grows(a: seq<seq<bool>>, b: seq<seq<bool>>)
  {
    SameShape(a, b) && forall i, j :: 0 <= i < |a| && 0 <= j < |a[i]| && a[i][j] ==> b[i][j]
  }

  /** At most one vertex per allocation is ever seen. */
  lemma SeenBound(arena: seq<Vertex>, seen: set<VertexRef>)
    requires forall x :: x in seen ==> x < |arena|
    ensures |seen| <= |arena|
  {
    SubsetCard(seen, Upto(|arena|));
  }

  // The search of `path_exists` / `PathExists`.

  /** The first `n` edges of `x`, unless below round `lo`, have slots and are marked. */
  ghost predicate Covered(arena: seq<Vertex>, offset: nat, marks: seq<seq<bool>>, lo: nat, x: VertexRef, n: nat)
    requires WellFormed(arena) && x < |arena| && n <= |arena[x].edges|
  {
    forall k :: 0 <= k < n && arena[arena[x].edges[k]].round >= lo ==>
      Fits(arena, marks, offset, arena[x].edges[k]) && Marked(arena, marks, offset, arena[x].edges[k])
  }

  /** None of the first `n` edges of `x` is `u`. */
  ghost predicate Avoids(arena: seq<Vertex>, u: VertexRef, x: VertexRef, n: nat)
    requires x < |arena| && n <= |arena[x].edges|
  {
    forall k :: 0 <= k < n ==> arena[x].edges[k] != u
  }

  /** Each set flag belongs to a vertex seen so far, recorded in `owner`. */
  ghost predicate Owned(arena: seq<Vertex>, offset: nat, marks: seq<seq<bool>>,
                        owner: map<(nat, nat), VertexRef>, seen: set<VertexRef>)
  {
    forall r, s :: 0 <= r < |marks| && 0 <= s < |marks[r]| && marks[r][s] ==>
      (r, s) in owner && owner[(r, s)] in seen && owner[(r, s)] < |arena| &&
      arena[owner[(r, s)]].round - offset == r && arena[owner[(r, s)]].source == s
  }

  /** Everything seen is reachable from `v`, has a slot and is marked. */
  ghost predicate Reached(arena: seq<Vertex>, offset: nat, lo: nat, v: VertexRef, marks: seq<seq<bool>>, seen: set<VertexRef>)
  {
    forall x :: x in seen ==>
      x < |arena| && Reaches(arena, v, x, lo) && Fits(arena, marks, offset, x) && Marked(arena, marks, offset, x)
  }

  /** Every edge of a finished vertex is marked (unless below `lo`) and is not `u`. */
  ghost predicate Closed(arena: seq<Vertex>, offset: nat, lo: nat, u: VertexRef, marks: seq<seq<bool>>, done: set<VertexRef>)
    requires WellFormed(arena)
  {
    forall x :: x in done ==> x < |arena| && Covered(arena, offset, marks, lo, x, |arena[x].edges|) && Avoids(arena, u, x, |arena[x].edges|)
  }

  /**
   * The state of the search between steps: `seen` is what has been
   * reached (each reachable from `v`, marked, never `u`), `done` the
   * vertices whose edges were all looked at, `pending` the one being
   * looked at, `queue` the rest. Written as one equation so that each use
   * is checked as a whole.
   */
  ghost predicate Searching(arena: seq<Vertex>, offset: nat, lo: nat, v: VertexRef, u: VertexRef,
                            marks: seq<seq<bool>>, queue: seq<VertexRef>,
                            done: set<VertexRef>, pending: set<VertexRef>, seen: set<VertexRef>,
                            owner: map<(nat, nat), VertexRef>)
  {
    (WellFormed(arena) && ReachFits(arena, marks, offset, v, lo) && v < |arena| && u < |arena| && arena[u].round >= lo &&
     done <= seen && pending <= seen && (forall x :: x in queue ==> x in seen) &&
     (forall x :: x in seen ==> x in done || x in pending || x in queue) && v in seen && u !in seen &&
     Reached(arena, offset, lo, v, marks, seen) &&
     Owned(arena, offset, marks, owner, seen) &&
     Closed(arena, offset, lo, u, marks, done)) == true
  }

  lemma MarkKeepsReached(arena: seq<Vertex>, offset: nat, lo: nat, v: VertexRef, marks: seq<seq<bool>>, seen: set<VertexRef>,
                         e: VertexRef, r: nat, s: nat)
    requires Reached(arena, offset, lo, v, marks, seen)
    requires e < |arena| && Reaches(arena, v, e, lo) && Fits(arena, marks, offset, e)
    requires r == arena[e].round - offset && s == arena[e].source
    ensures Reached(arena, offset, lo, v, Mark(marks, r, s), seen + {e})
  {
    forall x | x in seen
      ensures Fits(arena, Mark(marks, r, s), offset, x)
    {
      assert Fits(arena, marks, offset, x);
    }
  }

  lemma MarkKeepsOwned(arena: seq<Vertex>, offset: nat, marks: seq<seq<bool>>, owner: map<(nat, nat), VertexRef>,
                       seen: set<VertexRef>, e: VertexRef, r: nat, s: nat)
    requires Owned(arena, offset, marks, owner, seen) && e < |arena|
    requires r == arena[e].round - offset && s == arena[e].source && r < |marks| && s < |marks[r]|
    ensures Owned(arena, offset, Mark(marks, r, s), owner[(r, s) := e], seen + {e})
  {
  }

  lemma MarkKeepsCovered(arena: seq<Vertex>, offset: nat, lo: nat, marks: seq<seq<bool>>, x: VertexRef, n: nat, r: nat, s: nat)
    requires WellFormed(arena) && x < |arena| && n <= |arena[x].edges| && r < |marks| && s < |marks[r]|
    requires Covered(arena, offset, marks, lo, x, n)
    ensures Covered(arena, offset, Mark(marks, r, s), lo, x, n)
  {
    forall k | 0 <= k < n && arena[arena[x].edges[k]].round >= lo
      ensures Fits(arena, Mark(marks, r, s), offset, arena[x].edges[k])
    {
      assert Fits(arena, marks, offset, arena[x].edges[k]);
    }
  }

  lemma MarkKeepsClosed(arena: seq<Vertex>, offset: nat, lo: nat, u: VertexRef, marks: seq<seq<bool>>, done: set<VertexRef>, r: nat, s: nat)
    requires WellFormed(arena) && r < |marks| && s < |marks[r]|
    requires Closed(arena, offset, lo, u, marks, done)
    ensures Closed(arena, offset, lo, u, Mark(marks, r, s), done)
  {
    forall x | x in done
      ensures Covered(arena, offset, Mark(marks, r, s), lo, x, |arena[x].edges|)
    {
      MarkKeepsCovered(arena, offset, lo, marks, x, |arena[x].edges|, r, s);
    }
  }

  /** Looking at edge `j` of `x`: once its target is marked (or below `lo`) and not `u`, the first `j + 1` edges are covered. */
  lemma CoveredExtend(arena: seq<Vertex>, offset: nat, lo: nat, u: VertexRef, marks: seq<seq<bool>>, x: VertexRef, j: nat)
    requires WellFormed(arena) && x < |arena| && j < |arena[x].edges|
    requires Covered(arena, offset, marks, lo, x, j) && Avoids(arena, u, x, j)
    requires arena[x].edges[j] != u
    requires arena[arena[x].edges[j]].round >= lo ==>
      Fits(arena, marks, offset, arena[x].edges[j]) && Marked(arena, marks, offset, arena[x].edges[j])
    ensures Covered(arena, offset, marks, lo, x, j + 1) && Avoids(arena, u, x, j + 1)
  {
  }

  lemma MarkKeepsCoveredPrefix(arena: seq<Vertex>, offset: nat, lo: nat, u: VertexRef, marks: seq<seq<bool>>, x: VertexRef, j: nat, r: nat, s: nat)
    requires WellFormed(arena) && x < |arena| && j < |arena[x].edges|
    requires Covered(arena, offset, marks, lo, x, j) && Avoids(arena, u, x, j) && arena[x].edges[j] != u
    requires Fits(arena, marks, offset, arena[x].edges[j])
    requires r == arena[arena[x].edges[j]].round - offset && s == arena[arena[x].edges[j]].source
    ensures Covered(arena, offset, Mark(marks, r, s), lo, x, j + 1) && Avoids(arena, u, x, j + 1)
  {
    MarkKeepsCovered(arena, offset, lo, marks, x, j, r, s);
    assert Fits(arena, Mark(marks, r, s), offset, arena[x].edges[j]);
    CoveredExtend(arena, offset, lo, u, Mark(marks, r, s), x, j);
  }

  lemma UnmarkedUnseen(arena: seq<Vertex>, offset: nat, lo: nat, v: VertexRef, marks: seq<seq<bool>>, seen: set<VertexRef>, e: VertexRef)
    requires Reached(arena, offset, lo, v, marks, seen)
    requires e < |arena| && Fits(arena, marks, offset, e) && !Marked(arena, marks, offset, e)
    ensures e !in seen && |seen + {e}| == |seen| + 1
  {
  }

  /** An edge target (not below `lo`) of the vertex being looked at is reachable and has a slot. */
  lemma EdgeReach(arena: seq<Vertex>, offset: nat, lo: nat, v: VertexRef, u: VertexRef,
                  marks: seq<seq<bool>>, queue: seq<VertexRef>, done: set<VertexRef>, seen: set<VertexRef>,
                  owner: map<(nat, nat), VertexRef>, curr: VertexRef, j: nat)
    requires Searching(arena, offset, lo, v, u, marks, queue, done, {curr}, seen, owner)
    requires j < |arena[curr].edges| && arena[arena[curr].edges[j]].round >= lo
    ensures arena[curr].edges[j] < |arena| && Reaches(arena, v, arena[curr].edges[j], lo)
    ensures Fits(arena, marks, offset, arena[curr].edges[j])
  {
    ReachesStep(arena, v, curr, arena[curr].edges[j], lo);
  }

  /** The search starts with `v` seen, queued and marked alone. */
  lemma StartStep(arena: seq<Vertex>, marks: seq<seq<bool>>, offset: nat, lo: nat, v: VertexRef, u: VertexRef, r: nat, s: nat)
    requires WellFormed(arena) && v < |arena| && u < |arena| && v != u && arena[u].round >= lo
    requires ReachFits(arena, marks, offset, v, lo) && Fits(arena, marks, offset, v)
    requires r == arena[v].round - offset && s == arena[v].source
    requires forall i, j :: 0 <= i < |marks| && 0 <= j < |marks[i]| ==> (marks[i][j] <==> i == r && j == s)
    ensures Searching(arena, offset, lo, v, u, marks, [v], {}, {}, {v}, map[(r, s) := v])
  {
    ReachesSelf(arena, v, lo);
  }

  /** Taking the head of the queue makes it the vertex being looked at. */
  lemma PopStep(arena: seq<Vertex>, offset: nat, lo: nat, v: VertexRef, u: VertexRef,
                marks: seq<seq<bool>>, queue: seq<VertexRef>, done: set<VertexRef>, seen: set<VertexRef>,
                owner: map<(nat, nat), VertexRef>)
    requires Searching(arena, offset, lo, v, u, marks, queue, done, {}, seen, owner) && queue != []
    ensures Searching(arena, offset, lo, v, u, marks, queue[1..], done, {queue[0]}, seen, owner)
  {
    assert forall x :: x in queue ==> x == queue[0] || x in queue[1..];
  }

  /** Once every edge of `curr` is covered, it is finished. */
  lemma FinishStep(arena: seq<Vertex>, offset: nat, lo: nat, v: VertexRef, u: VertexRef,
                   marks: seq<seq<bool>>, queue: seq<VertexRef>, done: set<VertexRef>, seen: set<VertexRef>,
                   owner: map<(nat, nat), VertexRef>, curr: VertexRef)
    requires Searching(arena, offset, lo, v, u, marks, queue, done, {curr}, seen, owner)
    requires Covered(arena, offset, marks, lo, curr, |arena[curr].edges|) && Avoids(arena, u, curr, |arena[curr].edges|)
    ensures Searching(arena, offset, lo, v, u, marks, queue, done + {curr}, {}, seen, owner)
  {
    assert Closed(arena, offset, lo, u, marks, done + {curr});
    assert forall x :: x in seen ==> x in done + {curr} || x in queue;
  }

  /** What is seen is allocated, so the search sees at most `|arena|` vertices. */
  lemma SeenFits(arena: seq<Vertex>, offset: nat, lo: nat, v: VertexRef, u: VertexRef,
                 marks: seq<seq<bool>>, queue: seq<VertexRef>, done: set<VertexRef>, seen: set<VertexRef>,
                 owner: map<(nat, nat), VertexRef>)
    requires Searching(arena, offset, lo, v, u, marks, queue, done, {}, seen, owner)
    ensures |seen| <= |arena|
  {
    SeenBound(arena, seen);
  }

  /** With the queue empty, everything seen is finished: the facts `NoEscape` needs. */
  lemma EmptyQueueStep(arena: seq<Vertex>, offset: nat, lo: nat, v: VertexRef, u: VertexRef,
                       marks: seq<seq<bool>>, done: set<VertexRef>, seen: set<VertexRef>,
                       owner: map<(nat, nat), VertexRef>)
    requires Searching(arena, offset, lo, v, u, marks, [], done, {}, seen, owner)
    ensures WellFormed(arena) && Closed(arena, offset, lo, u, marks, done)
    ensures Owned(arena, offset, marks, owner, done) && v in done && v != u
  {
    assert seen == done;
  }

  /** Marking and queueing an unmarked edge target of the vertex being looked at keeps the search state. */
  lemma EnqueueStep(arena: seq<Vertex>, offset: nat, lo: nat, v: VertexRef, u: VertexRef,
                    marks: seq<seq<bool>>, queue: seq<VertexRef>, done: set<VertexRef>, seen: set<VertexRef>,
                    owner: map<(nat, nat), VertexRef>, curr: VertexRef, j: nat, e: VertexRef, r: nat, s: nat)
    requires Searching(arena, offset, lo, v, u, marks, queue, done, {curr}, seen, owner)
    requires j < |arena[curr].edges| && e == arena[curr].edges[j] && e != u && arena[e].round >= lo
    requires r == arena[e].round - offset && s == arena[e].source && r < |marks| && s < |marks[r]| && !marks[r][s]
    ensures Searching(arena, offset, lo, v, u, Mark(marks, r, s), queue + [e], done, {curr}, seen + {e}, owner[(r, s) := e])
  {
    EdgeReach(arena, offset, lo, v, u, marks, queue, done, seen, owner, curr, j);
    MarkKeepsReached(arena, offset, lo, v, marks, seen, e, r, s);
    MarkKeepsOwned(arena, offset, marks, owner, seen, e, r, s);
    MarkKeepsClosed(arena, offset, lo, u, marks, done, r, s);
    SameShapeReachFits(arena, marks, Mark(marks, r, s), offset, v, lo);
  }

  /**
   * Look at edge `j` of `curr`: an edge below round `lo` is skipped
   * (reached depth), `u` ends the search, and an unmarked vertex is marked
   * and queued.
   */
  method Visit(arena: seq<Vertex>, offset: nat, lo: nat, v: VertexRef, u: VertexRef,
               marks: seq<seq<bool>>, queue: seq<VertexRef>, ghost done: set<VertexRef>, ghost seen: set<VertexRef>,
               ghost owner: map<(nat, nat), VertexRef>, curr: VertexRef, j: nat)
    returns (found: bool, marks': seq<seq<bool>>, queue': seq<VertexRef>,
             ghost seen': set<VertexRef>, ghost owner': map<(nat, nat), VertexRef>)
    requires Searching(arena, offset, lo, v, u, marks, queue, done, {curr}, seen, owner)
    requires j < |arena[curr].edges| && Covered(arena, offset, marks, lo, curr, j) && Avoids(arena, u, curr, j)
    ensures SameShape(marks, marks')
    ensures found ==> Reaches(arena, v, u, lo)
    ensures !found ==> Searching(arena, offset, lo, v, u, marks', queue', done, {curr}, seen', owner')
    ensures !found ==> Covered(arena, offset, marks', lo, curr, j + 1) && Avoids(arena, u, curr, j + 1)
    ensures seen <= seen' && (seen' == seen ==> queue' == queue)
    ensures seen' != seen ==> |seen| < |seen'|
  {
    found, marks', queue', seen', owner' := false, marks, queue, seen, owner;
    var e := arena[curr].edges[j];
    if arena[e].round < lo {
      CoveredExtend(arena, offset, lo, u, marks, curr, j);
      return;
    }
    EdgeReach(arena, offset, lo, v, u, marks, queue, done, seen, owner, curr, j);
    if e == u {
      found := true;
      return;
    }
    var r: nat, s: nat := arena[e].round - offset, arena[e].source;
    if marks[r][s] {
      assert Marked(arena, marks, offset, e);
      CoveredExtend(arena, offset, lo, u, marks, curr, j);
    } else {
      UnmarkedUnseen(arena, offset, lo, v, marks, seen, e);
      MarkKeepsCoveredPrefix(arena, offset, lo, u, marks, curr, j, r, s);
      EnqueueStep(arena, offset, lo, v, u, marks, queue, done, seen, owner, curr, j, e, r, s);
      marks' := Mark(marks, r, s);
      queue' := queue + [e];
      seen' := seen + {e};
      owner' := owner[(r, s) := e];
    }
  }

  /** One step of the search: look at every strong edge of `curr`, in order. */
  method Expand(arena: seq<Vertex>, offset: nat, lo: nat, v: VertexRef, u: VertexRef,
                marks: seq<seq<bool>>, queue: seq<VertexRef>, ghost done: set<VertexRef>, ghost seen: set<VertexRef>,
                ghost owner: map<(nat, nat), VertexRef>, curr: VertexRef)
    returns (found: bool, marks': seq<seq<bool>>, queue': seq<VertexRef>,
             ghost seen': set<VertexRef>, ghost owner': map<(nat, nat), VertexRef>)
    requires Searching(arena, offset, lo, v, u, marks, queue, done, {curr}, seen, owner)
    ensures SameShape(marks, marks')
    ensures found ==> Reaches(arena, v, u, lo)
    ensures !found ==> Searching(arena, offset, lo, v, u, marks', queue', done + {curr}, {}, seen', owner')
    ensures seen <= seen' && (seen' == seen ==> queue' == queue)
    ensures seen' != seen ==> |seen| < |seen'|
  {
    found, marks', queue', seen', owner' := false, marks, queue, seen, owner;
    var j := 0;
    while j < |arena[curr].edges|
      invariant j <= |arena[curr].edges| && SameShape(marks, marks')
      invariant Searching(arena, offset, lo, v, u, marks', queue', done, {curr}, seen', owner')
      invariant Covered(arena, offset, marks', lo, curr, j) && Avoids(arena, u, curr, j)
      invariant seen <= seen' && (seen' == seen ==> queue' == queue)
      invariant seen' != seen ==> |seen| < |seen'|
    {
      found, marks', queue', seen', owner' := Visit(arena, offset, lo, v, u, marks', queue', done, seen', owner', curr, j);
      if found {
        return;
      }
      j := j + 1;
    }
    FinishStep(arena, offset, lo, v, u, marks', queue', done, seen', owner', curr);
  }

  /**
   * The search from `v` (already marked alone) for `u`: true exactly when
   * a path reaches `u` without going below round `lo`.
   */
  method Explore(arena: seq<Vertex>, marks0: seq<seq<bool>>, offset: nat, lo: nat, v: VertexRef, u: VertexRef)
    returns (found: bool, marks: seq<seq<bool>>)
    requires WellFormed(arena) && v < |arena| && u < |arena| && v != u && arena[u].round >= lo
    requires ReachFits(arena, marks0, offset, v, lo)
    requires forall r, s :: 0 <= r < |marks0| && 0 <= s < |marks0[r]| ==>
      (marks0[r][s] <==> r + offset == arena[v].round && s == arena[v].source)
    ensures SameShape(marks0, marks)
    ensures found ==> Reaches(arena, v, u, lo)
    ensures KeyUnique(arena) && Reaches(arena, v, u, lo) ==> found
  {
    marks := marks0;
    var queue := [v];
    ghost var done: set<VertexRef> := {};
    ghost var seen := {v};
    ReachesSelf(arena, v, lo);
    assert Fits(arena, marks, offset, v);
    ghost var r: nat, s: nat := arena[v].round - offset, arena[v].source;
    ghost var owner: map<(nat, nat), VertexRef> := map[(r, s) := v];
    StartStep(arena, marks, offset, lo, v, u, r, s);
    found := false;
    while queue != []
      invariant SameShape(marks0, marks)
      invariant Searching(arena, offset, lo, v, u, marks, queue, done, {}, seen, owner)
      invariant |seen| <= |arena|
      decreases |arena| - |seen|, |queue|
    {
      var curr := queue[0];
      PopStep(arena, offset, lo, v, u, marks, queue, done, seen, owner);
      queue := queue[1..];
      found, marks, queue, seen, owner := Expand(arena, offset, lo, v, u, marks, queue, done, seen, owner, curr);
      if found {
        return;
      }
      done := done + {curr};
      SeenFits(arena, offset, lo, v, u, marks, queue, done, seen, owner);
    }
    EmptyQueueStep(arena, offset, lo, v, u, marks, done, seen, owner);
    if KeyUnique(arena) {
      NoEscape(arena, offset, lo, v, u, marks, done, owner);
    }
  }

  /**
   * When no flag can be shared by two vertices with edges, an edge target
   * (not below `lo`) of a finished vertex that has edges itself is finished.
   */
  lemma DoneStep(arena: seq<Vertex>, offset: nat, lo: nat, u: VertexRef, marks: seq<seq<bool>>, done: set<VertexRef>,
                 owner: map<(nat, nat), VertexRef>, x: VertexRef, e: VertexRef)
    requires WellFormed(arena) && Closed(arena, offset, lo, u, marks, done)
    requires Owned(arena, offset, marks, owner, done) && KeyUnique(arena)
    requires x in done && e in arena[x].edges && arena[e].round >= lo && arena[e].edges != []
    ensures e in done
  {
    var k :| 0 <= k < |arena[x].edges| && arena[x].edges[k] == e;
    assert Covered(arena, offset, marks, lo, x, |arena[x].edges|);
    assert Fits(arena, marks, offset, e) && Marked(arena, marks, offset, e);
    var o := owner[(arena[e].round - offset, arena[e].source)];
    assert SameKey(arena[o], arena[e]);
  }

  lemma {:induction false} PathPrefixDone(arena: seq<Vertex>, offset: nat, lo: nat, v: VertexRef, u: VertexRef,
                                          marks: seq<seq<bool>>, done: set<VertexRef>,
                                          owner: map<(nat, nat), VertexRef>, p: seq<VertexRef>, i: nat)
    requires WellFormed(arena) && Closed(arena, offset, lo, u, marks, done)
    requires Owned(arena, offset, marks, owner, done) && KeyUnique(arena) && v in done
    requires IsPath(arena, p, lo) && p[0] == v && i < |p| - 1
    ensures p[i] in done
  {
    if i > 0 {
      PathPrefixDone(arena, offset, lo, v, u, marks, done, owner, p, i - 1);
      assert Step(arena, p, i - 1, lo) && Step(arena, p, i, lo);
      DoneStep(arena, offset, lo, u, marks, done, owner, p[i - 1], p[i]);
    }
  }

  /** A finished search that never met `u` saw everything reachable: `u` is not. */
  lemma NoEscape(arena: seq<Vertex>, offset: nat, lo: nat, v: VertexRef, u: VertexRef,
                 marks: seq<seq<bool>>, done: set<VertexRef>, owner: map<(nat, nat), VertexRef>)
    requires WellFormed(arena) && Closed(arena, offset, lo, u, marks, done)
    requires Owned(arena, offset, marks, owner, done) && KeyUnique(arena) && v in done && v != u
    ensures !Reaches(arena, v, u, lo)
  {
    forall p | IsPath(arena, p, lo) && p[0] == v
      ensures p[|p| - 1] != u
    {
      if |p| > 1 {
        PathPrefixDone(arena, offset, lo, v, u, marks, done, owner, p, |p| - 2);
        var x := p[|p| - 2];
        assert Step(arena, p, |p| - 2, lo);
        var k :| 0 <= k < |arena[x].edges| && arena[x].edges[k] == p[|p| - 1];
        assert Avoids(arena, u, x, |arena[x].edges|);
      }
    }
  }

  // The search of `order_from`: everything reachable from `v` through
  // vertices not yet ordered gets ordered. `v` itself is not marked.

  /** Each flag set since `before` belongs to a vertex this search marked, recorded in `owner`. */
  ghost predicate OwnedSince(arena: seq<Vertex>, offset: nat, before: seq<seq<bool>>, marks: seq<seq<bool>>,
                             owner: map<(nat, nat), VertexRef>, got: set<VertexRef>)
    requires SameShape(before, marks)
  {
    forall r, s :: 0 <= r < |marks| && 0 <= s < |marks[r]| && marks[r][s] && !before[r][s] ==>
      (r, s) in owner && owner[(r, s)] in got && owner[(r, s)] < |arena| &&
      arena[owner[(r, s)]].round - offset == r && arena[owner[(r, s)]].source == s
  }

  /** Every edge target of each vertex in `done` has a slot and is marked. */
  ghost predicate AllCovered(arena: seq<Vertex>, offset: nat, marks: seq<seq<bool>>, done: set<VertexRef>)
    requires WellFormed(arena)
  {
    forall x :: x in done ==> x < |arena| && Covered(arena, offset, marks, 0, x, |arena[x].edges|)
  }

  /**
   * The state of the ordering search between steps: `got` is what this
   * search marked (each reachable from `v`), `done` the vertices whose
   * edges were all looked at, `pending` the one being looked at, `queue`
   * the rest; `before` is the matrix the search started from.
   * Written as one equation so that each use is checked as a whole.
   */
  ghost predicate Ordering(arena: seq<Vertex>, offset: nat, v: VertexRef, before: seq<seq<bool>>,
                           marks: seq<seq<bool>>, queue: seq<VertexRef>,
                           done: set<VertexRef>, pending: set<VertexRef>, got: set<VertexRef>,
                           owner: map<(nat, nat), VertexRef>)
  {
    (WellFormed(arena) && ReachFits(arena, marks, offset, v, 0) && v < |arena| && Grows(before, marks) &&
     done <= got + {v} && pending <= got + {v} && (forall x :: x in queue ==> x in got + {v}) &&
     (forall x :: x in got + {v} ==> x in done || x in pending || x in queue) &&
     Reached(arena, offset, 0, v, marks, got) &&
     OwnedSince(arena, offset, before, marks, owner, got) &&
     AllCovered(arena, offset, marks, done)) == true
  }

  lemma OrderStartStep(arena: seq<Vertex>, marks: seq<seq<bool>>, offset: nat, v: VertexRef)
    requires WellFormed(arena) && v < |arena| && ReachFits(arena, marks, offset, v, 0)
    ensures Ordering(arena, offset, v, marks, marks, [v], {}, {}, {}, map[])
  {
  }

  lemma OrderPopStep(arena: seq<Vertex>, offset: nat, v: VertexRef, before: seq<seq<bool>>,
                     marks: seq<seq<bool>>, queue: seq<VertexRef>, done: set<VertexRef>, got: set<VertexRef>,
                     owner: map<(nat, nat), VertexRef>)
    requires Ordering(arena, offset, v, before, marks, queue, done, {}, got, owner) && queue != []
    ensures Ordering(arena, offset, v, before, marks, queue[1..], done, {queue[0]}, got, owner)
  {
    assert forall x :: x in queue ==> x == queue[0] || x in queue[1..];
  }

  lemma OrderFinishStep(arena: seq<Vertex>, offset: nat, v: VertexRef, before: seq<seq<bool>>,
                        marks: seq<seq<bool>>, queue: seq<VertexRef>, done: set<VertexRef>, got: set<VertexRef>,
                        owner: map<(nat, nat), VertexRef>, curr: VertexRef)
    requires Ordering(arena, offset, v, before, marks, queue, done, {curr}, got, owner)
    requires Covered(arena, offset, marks, 0, curr, |arena[curr].edges|)
    ensures Ordering(arena, offset, v, before, marks, queue, done + {curr}, {}, got, owner)
  {
    assert AllCovered(arena, offset, marks, done + {curr});
    assert forall x :: x in got + {v} ==> x in done + {curr} || x in queue;
  }

  lemma OrderSeenFits(arena: seq<Vertex>, offset: nat, v: VertexRef, before: seq<seq<bool>>,
                      marks: seq<seq<bool>>, queue: seq<VertexRef>, done: set<VertexRef>, got: set<VertexRef>,
                      owner: map<(nat, nat), VertexRef>)
    requires Ordering(arena, offset, v, before, marks, queue, done, {}, got, owner)
    ensures |got| <= |arena|
  {
    SeenBound(arena, got);
  }

  /** An edge target of the vertex being looked at is reachable from `v` and has a slot. */
  lemma OrderEdgeReach(arena: seq<Vertex>, offset: nat, v: VertexRef, before: seq<seq<bool>>,
                       marks: seq<seq<bool>>, queue: seq<VertexRef>, done: set<VertexRef>, got: set<VertexRef>,
                       owner: map<(nat, nat), VertexRef>, curr: VertexRef, j: nat)
    requires Ordering(arena, offset, v, before, marks, queue, done, {curr}, got, owner)
    requires j < |arena[curr].edges|
    ensures arena[curr].edges[j] < |arena| && Reaches(arena, v, arena[curr].edges[j], 0)
    ensures Fits(arena, marks, offset, arena[curr].edges[j])
  {
    if curr == v {
      ReachesSelf(arena, v, 0);
    }
    ReachesStep(arena, v, curr, arena[curr].edges[j], 0);
  }

  lemma MarkKeepsGrows(before: seq<seq<bool>>, marks: seq<seq<bool>>, r: nat, s: nat)
    requires Grows(before, marks) && r < |marks| && s < |marks[r]|
    ensures Grows(before, Mark(marks, r, s))
  {
  }

  lemma MarkKeepsOwnedSince(arena: seq<Vertex>, offset: nat, before: seq<seq<bool>>, marks: seq<seq<bool>>,
                            owner: map<(nat, nat), VertexRef>, got: set<VertexRef>, e: VertexRef, r: nat, s: nat)
    requires Grows(before, marks) && OwnedSince(arena, offset, before, marks, owner, got) && e < |arena|
    requires r == arena[e].round - offset && s == arena[e].source && r < |marks| && s < |marks[r]|
    ensures SameShape(before, Mark(marks, r, s))
    ensures OwnedSince(arena, offset, before, Mark(marks, r, s), owner[(r, s) := e], got + {e})
  {
  }

  lemma MarkKeepsAllCovered(arena: seq<Vertex>, offset: nat, marks: seq<seq<bool>>, done: set<VertexRef>, r: nat, s: nat)
    requires WellFormed(arena) && r < |marks| && s < |marks[r]|
    requires AllCovered(arena, offset, marks, done)
    ensures AllCovered(arena, offset, Mark(marks, r, s), done)
  {
    forall x | x in done
      ensures Covered(arena, offset, Mark(marks, r, s), 0, x, |arena[x].edges|)
    {
      MarkKeepsCovered(arena, offset, 0, marks, x, |arena[x].edges|, r, s);
    }
  }

  /** Once edge `j` of `x` is marked, the first `j + 1` edges are. */
  lemma CoveredStep(arena: seq<Vertex>, offset: nat, marks: seq<seq<bool>>, x: VertexRef, j: nat)
    requires WellFormed(arena) && x < |arena| && j < |arena[x].edges|
    requires Covered(arena, offset, marks, 0, x, j)
    requires Fits(arena, marks, offset, arena[x].edges[j]) && Marked(arena, marks, offset, arena[x].edges[j])
    ensures Covered(arena, offset, marks, 0, x, j + 1)
  {
  }

  lemma MarkKeepsCoveredStep(arena: seq<Vertex>, offset: nat, marks: seq<seq<bool>>, x: VertexRef, j: nat, r: nat, s: nat)
    requires WellFormed(arena) && x < |arena| && j < |arena[x].edges|
    requires Covered(arena, offset, marks, 0, x, j) && Fits(arena, marks, offset, arena[x].edges[j])
    requires r == arena[arena[x].edges[j]].round - offset && s == arena[arena[x].edges[j]].source
    ensures Covered(arena, offset, Mark(marks, r, s), 0, x, j + 1)
  {
    MarkKeepsCovered(arena, offset, 0, marks, x, j, r, s);
    assert Fits(arena, Mark(marks, r, s), offset, arena[x].edges[j]);
    CoveredStep(arena, offset, Mark(marks, r, s), x, j);
  }

  /** Marking and queueing an unmarked edge target of the vertex being looked at keeps the ordering state. */
  lemma OrderEnqueueStep(arena: seq<Vertex>, offset: nat, v: VertexRef, before: seq<seq<bool>>,
                         marks: seq<seq<bool>>, queue: seq<VertexRef>, done: set<VertexRef>, got: set<VertexRef>,
                         owner: map<(nat, nat), VertexRef>, curr: VertexRef, j: nat, e: VertexRef, r: nat, s: nat)
    requires Ordering(arena, offset, v, before, marks, queue, done, {curr}, got, owner)
    requires j < |arena[curr].edges| && e == arena[curr].edges[j]
    requires r == arena[e].round - offset && s == arena[e].source && r < |marks| && s < |marks[r]| && !marks[r][s]
    ensures Ordering(arena, offset, v, before, Mark(marks, r, s), queue + [e], done, {curr}, got + {e}, owner[(r, s) := e])
    ensures e !in got && |got + {e}| == |got| + 1
  {
    OrderEdgeReach(arena, offset, v, before, marks, queue, done, got, owner, curr, j);
    MarkKeepsReached(arena, offset, 0, v, marks, got, e, r, s);
    MarkKeepsGrows(before, marks, r, s);
    MarkKeepsOwnedSince(arena, offset, before, marks, owner, got, e, r, s);
    MarkKeepsAllCovered(arena, offset, marks, done, r, s);
    SameShapeReachFits(arena, marks, Mark(marks, r, s), offset, v, 0);
    UnmarkedUnseen(arena, offset, 0, v, marks, got, e);
  }

  /** Look at edge `j` of `curr`: an unmarked target is marked and queued. */
  method OrderVisit(arena: seq<Vertex>, offset: nat, v: VertexRef, ghost before: seq<seq<bool>>,
                    marks: seq<seq<bool>>, queue: seq<VertexRef>, ghost done: set<VertexRef>, ghost got: set<VertexRef>,
                    ghost owner: map<(nat, nat), VertexRef>, curr: VertexRef, j: nat)
    returns (marks': seq<seq<bool>>, queue': seq<VertexRef>, ghost got': set<VertexRef>, ghost owner': map<(nat, nat), VertexRef>)
    requires Ordering(arena, offset, v, before, marks, queue, done, {curr}, got, owner)
    requires j < |arena[curr].edges| && Covered(arena, offset, marks, 0, curr, j)
    ensures Ordering(arena, offset, v, before, marks', queue', done, {curr}, got', owner')
    ensures Covered(arena, offset, marks', 0, curr, j + 1)
    ensures got <= got' && (got' == got ==> queue' == queue)
    ensures got' != got ==> |got| < |got'|
  {
    marks', queue', got', owner' := marks, queue, got, owner;
    var e := arena[curr].edges[j];
    OrderEdgeReach(arena, offset, v, before, marks, queue, done, got, owner, curr, j);
    var r: nat, s: nat := arena[e].round - offset, arena[e].source;
    if marks[r][s] {
      assert Marked(arena, marks, offset, e);
      CoveredStep(arena, offset, marks, curr, j);
    } else {
      MarkKeepsCoveredStep(arena, offset, marks, curr, j, r, s);
      OrderEnqueueStep(arena, offset, v, before, marks, queue, done, got, owner, curr, j, e, r, s);
      marks' := Mark(marks, r, s);
      queue' := queue + [e];
      got' := got + {e};
      owner' := owner[(r, s) := e];
    }
  }

  /** One step of the ordering search: look at every strong edge of `curr`, in order. */
  method OrderExpand(arena: seq<Vertex>, offset: nat, v: VertexRef, ghost before: seq<seq<bool>>,
                     marks: seq<seq<bool>>, queue: seq<VertexRef>, ghost done: set<VertexRef>, ghost got: set<VertexRef>,
                     ghost owner: map<(nat, nat), VertexRef>, curr: VertexRef)
    returns (marks': seq<seq<bool>>, queue': seq<VertexRef>, ghost got': set<VertexRef>, ghost owner': map<(nat, nat), VertexRef>)
    requires Ordering(arena, offset, v, before, marks, queue, done, {curr}, got, owner)
    ensures Ordering(arena, offset, v, before, marks', queue', done + {curr}, {}, got', owner')
    ensures got <= got' && (got' == got ==> queue' == queue)
    ensures got' != got ==> |got| < |got'|
  {
    marks', queue', got', owner' := marks, queue, got, owner;
    var j := 0;
    while j < |arena[curr].edges|
      invariant j <= |arena[curr].edges|
      invariant Ordering(arena, offset, v, before, marks', queue', done, {curr}, got', owner')
      invariant Covered(arena, offset, marks', 0, curr, j)
      invariant got <= got' && (got' == got ==> queue' == queue)
      invariant got' != got ==> |got| < |got'|
    {
      marks', queue', got', owner' := OrderVisit(arena, offset, v, before, marks', queue', done, got', owner', curr, j);
      j := j + 1;
    }
    OrderFinishStep(arena, offset, v, before, marks', queue', done, got', owner', curr);
  }

  /** The newly set flags of `marks` are slots of vertices reachable from `v`. */
  ghost predicate NewlyReachable(arena: seq<Vertex>, offset: nat, v: VertexRef, before: seq<seq<bool>>, marks: seq<seq<bool>>)
    requires SameShape(before, marks)
  {
    forall r, s :: 0 <= r < |marks| && 0 <= s < |marks[r]| && marks[r][s] && !before[r][s] ==>
      exists x :: 0 <= x < |arena| && Reaches(arena, v, x, 0) && arena[x].round - offset == r && arena[x].source == s
  }

  /** `v` and every vertex whose flag is newly set have all their edge targets marked. */
  ghost predicate NewlyClosed(arena: seq<Vertex>, offset: nat, v: VertexRef, before: seq<seq<bool>>, marks: seq<seq<bool>>)
    requires WellFormed(arena) && v < |arena| && SameShape(before, marks)
  {
    Covered(arena, offset, marks, 0, v, |arena[v].edges|) &&
    forall x :: (0 <= x < |arena| && Fits(arena, marks, offset, x) && Marked(arena, marks, offset, x) &&
                 !before[arena[x].round - offset][arena[x].source]) ==>
      Covered(arena, offset, marks, 0, x, |arena[x].edges|)
  }

  /** A finished ordering search: what is newly marked is reachable, and (one vertex per slot) closed under edges. */
  lemma OrderDoneStep(arena: seq<Vertex>, offset: nat, v: VertexRef, before: seq<seq<bool>>,
                      marks: seq<seq<bool>>, done: set<VertexRef>, got: set<VertexRef>, owner: map<(nat, nat), VertexRef>)
    requires Ordering(arena, offset, v, before, marks, [], done, {}, got, owner)
    ensures Grows(before, marks) && ReachFits(arena, marks, offset, v, 0)
    ensures NewlyReachable(arena, offset, v, before, marks)
    ensures KeyUnique(arena) ==> NewlyClosed(arena, offset, v, before, marks)
  {
    assert got + {v} == done;
    forall r, s | 0 <= r < |marks| && 0 <= s < |marks[r]| && marks[r][s] && !before[r][s]
      ensures exists x :: 0 <= x < |arena| && Reaches(arena, v, x, 0) && arena[x].round - offset == r && arena[x].source == s
    {
      var o := owner[(r, s)];
      assert o in got;
    }
    if KeyUnique(arena) {
      forall x | 0 <= x < |arena| && Fits(arena, marks, offset, x) && Marked(arena, marks, offset, x) &&
        !before[arena[x].round - offset][arena[x].source]
        ensures Covered(arena, offset, marks, 0, x, |arena[x].edges|)
      {
        var o := owner[(arena[x].round - offset, arena[x].source)];
        assert SameKey(arena[o], arena[x]);
        if o != x {
          assert arena[x].edges == [];
        }
      }
    }
  }

  /**
   * The search of `order_from`: breadth first from `v`, each unmarked
   * edge target is marked and queued; a marked one is not looked into.
   */
  method Order(arena: seq<Vertex>, marks0: seq<seq<bool>>, offset: nat, v: VertexRef) returns (marks: seq<seq<bool>>)
    requires WellFormed(arena) && v < |arena| && ReachFits(arena, marks0, offset, v, 0)
    ensures Grows(marks0, marks) && ReachFits(arena, marks, offset, v, 0)
    ensures NewlyReachable(arena, offset, v, marks0, marks)
    ensures KeyUnique(arena) ==> NewlyClosed(arena, offset, v, marks0, marks)
  {
    marks := marks0;
    var queue := [v];
    ghost var done: set<VertexRef> := {};
    ghost var got: set<VertexRef> := {};
    ghost var owner: map<(nat, nat), VertexRef> := map[];
    OrderStartStep(arena, marks, offset, v);
    while queue != []
      invariant Ordering(arena, offset, v, marks0, marks, queue, done, {}, got, owner)
      invariant |got| <= |arena|
      decreases |arena| - |got|, |queue|
    {
      var curr := queue[0];
      OrderPopStep(arena, offset, v, marks0, marks, queue, done, got, owner);
      queue := queue[1..];
      marks, queue, got, owner := OrderExpand(arena, offset, v, marks0, marks, queue, done, got, owner, curr);
      done := done + {curr};
      OrderSeenFits(arena, offset, v, marks0, marks, queue, done, got, owner);
    }
    OrderDoneStep(arena, offset, v, marks0, marks, done, got, owner);
  }
}
