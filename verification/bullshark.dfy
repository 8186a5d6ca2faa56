/**
 * Bullshark (partially synchronous DAG consensus) over the round-based
 * DAG store, in the three variants of the repository: the systems one,
 * the older protocols one, and Sparse Bullshark, whose vertices point to a
 * random sample of the previous round. One class holds the process state;
 * `variant` selects where the three differ (commit threshold, timers, how
 * a new vertex picks its parents, how a parent's link to an anchor is
 * recognised).
 *
 * What reliable broadcast delivers is handed to `DeliverGenesis` or
 * `DeliverVertex`, an expired timer to `OnTimer`; what the process
 * reliably broadcasts is appended to `outbox`. Anchors are ordered
 * by `order_from`; `orderLog` records, in order, the anchors it was called
 * on.
 */
module Bullshark {
  import opened Wrappers
  import opened Decimal
  import opened Message
  import opened BcbCommon
  import opened Dag
  import opened DagConsensus
  import RoundDag
  import ProtocolDag
  import Tso

  /** The three implementations; `Sparse(d)` samples `d` parents. */
  datatype Variant = Systems | Protocols | Sparse(d: nat)

  /**
   * `direct_commit_threshold`: f + 1 votes (systems, protocols) or 2f + 1
   * (sparse). Either is more than the f processes that may be faulty, so
   * some correct process voted.
   */
  function CommitThreshold(variant: Variant, n: nat): (t: nat)
    requires n >= 1
    ensures AdversaryThreshold(n) < t <= QuorumSize(n)
    ensures variant.Sparse? ==> t == QuorumSize(n)
  {
    if variant.Sparse? then QuorumSize(n) else AdversaryThreshold(n) + 1
  }

  /** `start_timer`: 10000 jiffies (systems), 200 (sparse); the protocols variant has no timer. */
  function TimerDelay(variant: Variant): (d: Option<nat>)
    ensures d.Some? <==> !variant.Protocols?
  {
    match variant
    case Systems => Some(10000)
    case Protocols => None
    case Sparse(_) => Some(200)
  }

  /**
   * How a parent's link to the anchor is recognised: by pointer
   * (`same_vertex`) in the systems variant, by `contains`, that is by
   * (round, source), in the other two.
   */
  predicate ByKey(variant: Variant)
  {
    !variant.Systems?
  }

  // Sparse Bullshark's choice of parents

  /** The row with only the slots drawn, the own slot and the leader's. */
  function Mask(row: Round, chosen: set<nat>, own: nat, leader: nat): (m: Round)
    ensures |m| == |row| && forall s :: 0 <= s < |row| ==> m[s] == if s in chosen || s == own || s == leader then row[s] else None
  {
    seq(|row|, s requires 0 <= s < |row| => if s in chosen || s == own || s == leader then row[s] else None)
  }

  /** The slot `s` as a set when it is occupied, else nothing. */
  function IfOccupied(row: Round, s: nat): (k: set<nat>)
    ensures k <= Occupied(row) && |k| <= 1
    ensures (s < |row| && row[s].Some?) <==> s in k
  {
    if s < |row| && row[s].Some? then {s} else {}
  }

  /**
   * `SampleCandidates`: all vertices of the row when there are at most
   * `d`; otherwise the `d` occupied slots the random generator `chosen`,
   * plus the own slot and the leader's, in slot order (a `BTreeSet` of one
   * round's vertices orders them by source).
   */
  function SampleCandidates(row: Round, d: nat, chosen: set<nat>, own: nat, leader: nat): seq<VertexRef>
  {
    if |Flatten(row)| <= d then Flatten(row) else Flatten(Mask(row, chosen, own, leader))
  }

  /** A sample holds only vertices of the row, and always the own vertex and the leader's when they are stored. */
  lemma SampleCandidatesMembers(row: Round, d: nat, chosen: set<nat>, own: nat, leader: nat)
    ensures forall e :: e in SampleCandidates(row, d, chosen, own, leader) ==> e in Flatten(row)
    ensures own < |row| && row[own].Some? ==> row[own].value in SampleCandidates(row, d, chosen, own, leader)
    ensures leader < |row| && row[leader].Some? ==> row[leader].value in SampleCandidates(row, d, chosen, own, leader)
  {
    FlattenMembers(row);
    if |Flatten(row)| > d {
      var m := Mask(row, chosen, own, leader);
      FlattenMembers(m);
      assert own < |row| && row[own].Some? ==> m[own] == row[own];
      assert leader < |row| && row[leader].Some? ==> m[leader] == row[leader];
    }
  }

  /** Masking keeps exactly the occupied slots among those drawn, the own one and the leader's. */
  lemma MaskOccupied(row: Round, chosen: set<nat>, own: nat, leader: nat)
    requires chosen <= Occupied(row)
    ensures Occupied(Mask(row, chosen, own, leader)) == chosen + IfOccupied(row, own) + IfOccupied(row, leader)
  {
    var m := Mask(row, chosen, own, leader);
    forall s | s in chosen
      ensures s in Occupied(m)
    {
      assert s < |row| && m[s] == row[s];
    }
  }

  /**
   * With more than `d` candidates and `d` occupied slots drawn, a sample
   * has between `d` and `d + 2` parents; otherwise it is every candidate.
   */
  lemma SampleCandidatesSize(row: Round, d: nat, chosen: set<nat>, own: nat, leader: nat)
    requires |Flatten(row)| > d ==> chosen <= Occupied(row) && |chosen| == d
    ensures |Flatten(row)| <= d ==> SampleCandidates(row, d, chosen, own, leader) == Flatten(row)
    ensures |Flatten(row)| > d ==> d <= |SampleCandidates(row, d, chosen, own, leader)| <= d + 2
  {
    if |Flatten(row)| > d {
      var a, b := IfOccupied(row, own), IfOccupied(row, leader);
      var keep := chosen + a + b;
      MaskOccupied(row, chosen, own, leader);
      FlattenCount(Mask(row, chosen, own, leader));
      Counting.SubsetCard(chosen, keep);
      assert |chosen + a| <= |chosen| + |a|;
      assert |keep| <= |chosen + a| + |b|;
    }
  }

  /** The random generator draws `d` distinct occupied slots whenever a row has more than `d`. */
  ghost predicate SamplerOk(variant: Variant, sampler: (nat, Round) -> set<nat>)
  {
    variant.Sparse? ==>
      forall k, row :: |Occupied(row)| > variant.d ==> sampler(k, row) <= Occupied(row) && |sampler(k, row)| == variant.d
  }

  // The store after a vertex is added, and after an allocation

  /** What the consensus needs of the store: rows of `n + 1` slots, each holding only its own vertex. */
  ghost predicate Store(arena: seq<Vertex>, matrix: seq<Round>, n: nat)
  {
    Rows(matrix, n + 1) && InSlots(arena, matrix)
  }

  lemma StoreAfterAdd(arena: seq<Vertex>, m0: seq<Round>, m1: seq<Round>, n: nat, x: VertexRef)
    requires Store(arena, m0, n) && x < |arena| && arena[x].source <= n && arena[x].round <= |m0|
    requires arena[x].round < |m1| && arena[x].source < |m1[arena[x].round]| && m1[arena[x].round][arena[x].source] == Some(x)
    requires |m1| == if arena[x].round < |m0| then |m0| else arena[x].round + 1
    requires forall r :: 0 <= r < |m1| ==> |m1[r]| == if r < |m0| then |m0[r]| else n + 1
    requires forall r, s :: 0 <= r < |m0| && 0 <= s < |m0[r]| && (r != arena[x].round || s != arena[x].source) ==>
      s < |m1[r]| && m1[r][s] == m0[r][s]
    requires forall r, s :: |m0| <= r < |m1| && 0 <= s < |m1[r]| && s != arena[x].source ==> m1[r][s] == None
    ensures Store(arena, m1, n)
  {
    forall r, s | 0 <= r < |m1| && 0 <= s < |m1[r]| && m1[r][s].Some?
      ensures m1[r][s].value < |arena| && arena[m1[r][s].value].round == r && arena[m1[r][s].value].source == s
    {
      if r == arena[x].round && s == arena[x].source {
        assert m1[r][s] == Some(x);
      } else if r < |m0| {
        assert |m1[r]| == |m0[r]|;
        assert m1[r][s] == m0[r][s];
      }
    }
  }

  lemma ArenaGrows(a0: seq<Vertex>, v: Vertex, matrix: seq<Round>, buffer: seq<VertexRef>, n: nat)
    requires World(a0, n) && InSlots(a0, matrix) && SortedBuffer(a0, buffer)
    requires 1 <= v.source <= n && v.round <= MAX_ROUND
    requires forall k :: 0 <= k < |v.edges| ==> v.edges[k] < |a0| && a0[v.edges[k]].round < v.round
    ensures World(a0 + [v], n) && InSlots(a0 + [v], matrix) && SortedBuffer(a0 + [v], buffer)
    ensures forall i :: 0 <= i < |buffer| ==> (a0 + [v])[buffer[i]] == a0[buffer[i]]
  {
    var a1 := a0 + [v];
    assert forall x :: 0 <= x < |a0| ==> a1[x] == a0[x];
  }

  /** Everything reachable from a vertex of a stored round fits both mark matrices. */
  lemma SearchFits(arena: seq<Vertex>, matrix: seq<Round>, marks: seq<seq<bool>>, n: nat, v: VertexRef, lo: nat)
    requires World(arena, n) && Rows(matrix, n + 1) && v < |arena| && arena[v].round < |matrix|
    requires |marks| == |matrix| && forall i :: 0 <= i < |matrix| ==> |marks[i]| == |matrix[i]|
    ensures ReachFits(arena, marks, 0, v, lo)
  {
    DescendingReachFits(arena, marks, v, lo, n + 1);
  }

  /**
   * The anchors committed by one walk, newest first: the committed anchor,
   * then anchors of lower rounds above `lo`, each reached from the one
   * before; every one is its round's leader vertex in the store.
   */
  ghost predicate Chain(arena: seq<Vertex>, matrix: seq<Round>, n: nat, chain: seq<VertexRef>, lo: nat)
  {
    n >= 1 && |chain| >= 1 &&
    (forall i :: 0 <= i < |chain| ==> chain[i] < |arena| && IsAnchor(arena, matrix, n, chain[i])) &&
    (forall i :: 1 <= i < |chain| ==> lo < arena[chain[i]].round && Reaches(arena, chain[i - 1], chain[i], arena[chain[i]].round)) &&
    (forall i, j :: 0 <= i < j < |chain| ==> arena[chain[j]].round < arena[chain[i]].round)
  }

  /** `x` is the vertex in the leader's slot of its round. */
  ghost predicate IsAnchor(arena: seq<Vertex>, matrix: seq<Round>, n: nat, x: VertexRef)
    requires n >= 1 && x < |arena|
  {
    arena[x].round < |matrix| && LeaderId(arena[x].round, n) < |matrix[arena[x].round]| &&
    matrix[arena[x].round][LeaderId(arena[x].round, n)] == Some(x)
  }

  /** Anchors two rounds apart share the parity of their rounds. */
  lemma EvenBelow(r: nat)
    requires r % 2 == 0 && r >= 2
    ensures (r - 2) % 2 == 0
  {
  }

  /** `get_anchor`: the vertex in the leader's slot of round `r`, if any. */
  function AnchorSlot(matrix: seq<Round>, n: nat, r: nat): Option<VertexRef>
    requires n >= 1 && r < |matrix| && |matrix[r]| == n + 1
  {
    matrix[r][LeaderId(r, n)]
  }

  /**
   * The commit rule of `try_ordering` / `TryOrdering`: `x` is of an even
   * round from 2, the anchor two rounds below exists, and enough of `x`'s
   * parents link to it.
   */
  ghost predicate CommitsAt(arena: seq<Vertex>, matrix: seq<Round>, n: nat, variant: Variant, x: VertexRef)
    requires n >= 1 && Rows(matrix, n + 1) && x < |arena| && arena[x].round < |matrix|
  {
    var r := arena[x].round;
    r % 2 == 0 && r >= 2 &&
    var a := AnchorSlot(matrix, n, r - 2);
    a.Some? && a.value < |arena| && (forall i :: 0 <= i < |arena[x].edges| ==> arena[x].edges[i] < |arena|) &&
    Votes(arena, arena[x].edges, a.value, ByKey(variant)) >= CommitThreshold(variant, n)
  }

  /** An earlier anchor reached from the newest one extends a chain. */
  lemma ChainExtend(arena: seq<Vertex>, matrix: seq<Round>, n: nat, chain: seq<VertexRef>, lo: nat, p: VertexRef)
    requires Chain(arena, matrix, n, chain, lo) && p < |arena| && IsAnchor(arena, matrix, n, p)
    requires lo < arena[p].round < arena[chain[|chain| - 1]].round
    requires Reaches(arena, chain[|chain| - 1], p, arena[p].round)
    ensures Chain(arena, matrix, n, chain + [p], lo)
  {
    var c := chain + [p];
    assert forall i :: 0 <= i < |chain| ==> c[i] == chain[i];
    forall i | 0 <= i < |c|
      ensures c[i] < |arena| && IsAnchor(arena, matrix, n, c[i])
    {
    }
    forall i | 1 <= i < |c|
      ensures lo < arena[c[i]].round && Reaches(arena, c[i - 1], c[i], arena[c[i]].round)
    {
    }
    forall i, j | 0 <= i < j < |c|
      ensures arena[c[j]].round < arena[c[i]].round
    {
      if j < |chain| {
        assert c[i] == chain[i] && c[j] == chain[j];
      } else if i < |chain| - 1 {
        assert arena[chain[|chain| - 1]].round < arena[chain[i]].round;
      }
    }
  }

  /** Popping a whole chain orders the oldest anchor first. */
  lemma ChainOldestFirst(arena: seq<Vertex>, matrix: seq<Round>, n: nat, chain: seq<VertexRef>, lo: nat)
    requires Chain(arena, matrix, n, chain, lo)
    ensures forall i, j :: 0 <= i < j < |chain| ==> arena[Reverse(chain)[i]].round < arena[Reverse(chain)[j]].round
    ensures Reverse(chain)[|chain| - 1] == chain[0]
  {
    var r := Reverse(chain);
    forall i, j | 0 <= i < j < |chain|
      ensures arena[r[i]].round < arena[r[j]].round
    {
      assert r[i] == chain[|chain| - 1 - i] && r[j] == chain[|chain| - 1 - j];
    }
  }

  /**
   * The store grew: no row is lost, occupied slots stay occupied, and only
   * the own process's slots and the slot `key` may hold something new.
   */
  ghost predicate Grew(m0: seq<Round>, m1: seq<Round>, own: nat, key: (nat, nat))
  {
    |m0| <= |m1| && forall r :: 0 <= r < |m0| ==> GrewRow(m0[r], m1[r], own, if r == key.0 then key.1 else -1)
  }

  /** One row of `Grew`: `key` is the other slot that may change, or -1 for none. */
  ghost predicate GrewRow(row0: Round, row1: Round, own: nat, key: int)
  {
    |row0| <= |row1| &&
    forall s :: 0 <= s < |row0| ==> (row0[s].Some? ==> row1[s].Some?) && (s != own && s != key ==> row1[s] == row0[s])
  }

  lemma GrewTrans(m0: seq<Round>, m1: seq<Round>, m2: seq<Round>, own: nat, key: (nat, nat), ownKey: (nat, nat))
    requires Grew(m0, m1, own, key) && Grew(m1, m2, own, ownKey) && ownKey.1 == own
    ensures Grew(m0, m2, own, key)
  {
    forall r | 0 <= r < |m0|
      ensures GrewRow(m0[r], m2[r], own, if r == key.0 then key.1 else -1)
    {
      assert GrewRow(m0[r], m1[r], own, if r == key.0 then key.1 else -1);
      assert GrewRow(m1[r], m2[r], own, if r == ownKey.0 then ownKey.1 else -1);
    }
  }

  /**
   * The two tests of `try_add_to_dag` as written, `None` where the source
   * panics. The protocols crate's highest allocated round is `len - 1` in
   * `usize`, which underflows on an empty store. The systems crate
   * saturates it to 0, so on an empty store a vertex of round 1 passes the
   * round test, and `all` then looks up round 0 for its first strong edge.
   */
  function ReadyAsWritten(arena: seq<Vertex>, matrix: seq<Round>, n: nat, variant: Variant, x: VertexRef): (r: Option<bool>)
    requires Store(arena, matrix, n) && World(arena, n) && x < |arena| && arena[x].round >= 1
    ensures r.None? <==> matrix == [] && (!variant.Systems? || (arena[x].round == 1 && arena[x].edges != []))
  {
    var v := arena[x];
    if !variant.Systems? && matrix == [] then None
    else if v.round - 1 > (if matrix == [] then 0 else |matrix| - 1) then Some(false)
    else if matrix == [] then (if v.edges == [] then Some(true) else None)
    else Some(forall k :: 0 <= k < |v.edges| ==>
      matrix[arena[v.edges[k]].round][arena[v.edges[k]].source] == Some(v.edges[k]))
  }

  /**
   * A vertex of round 1 that passes the validity check of four processes,
   * delivered before any genesis vertex: as written every variant panics
   * on it.
   */
  lemma ReadyAsWrittenPanicsEarly()
    ensures var arena := [Vertex(0, 1, []), Vertex(0, 2, []), Vertex(0, 3, []), Vertex(1, 1, [0, 1, 2])];
            World(arena, 4) && Store(arena, [], 4) && !BadVertex(arena[3], 1, 4) &&
            ReadyAsWritten(arena, [], 4, Systems, 3).None? && ReadyAsWritten(arena, [], 4, Protocols, 3).None? &&
            ReadyAsWritten(arena, [], 4, Sparse(2), 3).None?
  {
  }

  /**
   * The own vertex of round `r`, whose strong edges are vertices of row
   * `r - 1`, keeps the run well formed once allocated, and each of its
   * edges is the vertex stored in its slot.
   */
  lemma OwnVertexFits(a0: seq<Vertex>, matrix: seq<Round>, buffer: seq<VertexRef>, n: nat, v: Vertex)
    requires Store(a0, matrix, n) && World(a0, n) && SortedBuffer(a0, buffer)
    requires 1 <= v.round <= |matrix| && v.round <= MAX_ROUND && 1 <= v.source <= n
    requires forall e :: e in v.edges ==> e in Flatten(matrix[v.round - 1])
    ensures World(a0 + [v], n) && InSlots(a0 + [v], matrix) && SortedBuffer(a0 + [v], buffer)
    ensures forall i :: 0 <= i < |buffer| ==> (a0 + [v])[buffer[i]] == a0[buffer[i]]
    ensures forall k :: 0 <= k < |v.edges| ==>
      v.edges[k] < |a0| && (a0 + [v])[v.edges[k]].round == v.round - 1 && (a0 + [v])[v.edges[k]].source < |matrix[v.round - 1]| &&
      matrix[v.round - 1][(a0 + [v])[v.edges[k]].source] == Some(v.edges[k])
  {
    var a1 := a0 + [v];
    forall k | 0 <= k < |v.edges|
      ensures v.edges[k] < |a0| && a0[v.edges[k]].round == v.round - 1 && a1[v.edges[k]] == a0[v.edges[k]]
      ensures a0[v.edges[k]].source < |matrix[v.round - 1]| && matrix[v.round - 1][a0[v.edges[k]].source] == Some(v.edges[k])
    {
      assert v.edges[k] in v.edges;
      FlattenInSlots(a0, matrix, v.round - 1, v.edges[k]);
    }
    ArenaGrows(a0, v, matrix, buffer, n);
  }

  /** A vertex listed in a row of the store sits in its own slot of that row. */
  lemma FlattenInSlots(arena: seq<Vertex>, matrix: seq<Round>, r: nat, e: VertexRef)
    requires InSlots(arena, matrix) && r < |matrix| && e in Flatten(matrix[r])
    ensures e < |arena| && arena[e].round == r && arena[e].source < |matrix[r]| && matrix[r][arena[e].source] == Some(e)
  {
    FlattenMembers(matrix[r]);
    var s :| 0 <= s < |matrix[r]| && matrix[r][s] == Some(e);
  }

  /** A row whose occupied slots stay occupied holds no fewer vertices. */
  lemma QuorumPersists(row0: Round, row1: Round)
    requires KeptRow(row0, row1)
    ensures |Flatten(row0)| <= |Flatten(row1)|
  {
    FlattenCount(row0);
    FlattenCount(row1);
    Counting.SubsetCard(Occupied(row0), Occupied(row1));
  }

  /**
   * Where the walk of `order_anchors` starts below an anchor of round
   * `r`: two rounds down, or round 0 (`saturating_sub`).
   */
  function WalkStart(r: nat): (w: nat)
    ensures w <= r && (r % 2 == 0 ==> w % 2 == 0)
    ensures r >= 2 ==> w + 2 == r
  {
    if r >= 2 then r - 2 else 0
  }

  /**
   * What the walk of `order_anchors` stacks below `top`, newest first,
   * for the rounds `r`, `r - 2`, ... above `lo`: the anchor of each such
   * round that the last one stacked (at first `top`) reaches.
   */
  ghost function Walk(arena: seq<Vertex>, matrix: seq<Round>, n: nat, top: VertexRef, r: nat, lo: nat): seq<VertexRef>
    requires n >= 1 && Rows(matrix, n + 1) && r < |matrix|
    decreases r
  {
    if r <= lo then []
    else
      var p := AnchorSlot(matrix, n, r);
      if p.Some? && p.value < |arena| && Reaches(arena, top, p.value, r) then [p.value] + Walk(arena, matrix, n, p.value, WalkStart(r), lo)
      else Walk(arena, matrix, n, top, WalkStart(r), lo)
  }

  /**
   * Where the walk of `order_anchors` from anchor `a` stands at round `r`:
   * `stack` is a chain from `a` whose newest entry is `anchor`, and, when
   * no two allocations share a slot, what is still to come is the rest of
   * the whole walk.
   */
  ghost predicate Walked(arena: seq<Vertex>, matrix: seq<Round>, n: nat, lo: nat, a: VertexRef, stack: seq<VertexRef>, anchor: VertexRef, r: nat)
  {
    (n >= 1 && Store(arena, matrix, n) && a < |arena| && r % 2 == 0 &&
     Chain(arena, matrix, n, stack, lo) && stack[0] == a && anchor == stack[|stack| - 1] &&
     (r < arena[anchor].round || r == 0) && arena[a].round < |matrix| &&
     (KeyUnique(arena) ==> stack + Walk(arena, matrix, n, anchor, r, lo) == [a] + Walk(arena, matrix, n, a, WalkStart(arena[a].round), lo))) == true
  }

  /**
   * `chain` is what the walk of `order_anchors` from anchor `a` stacks
   * above `lo`: a chain from `a`, and, when no two allocations share a
   * slot, exactly the greedy walk.
   */
  ghost predicate WalkedFrom(arena: seq<Vertex>, matrix: seq<Round>, n: nat, lo: nat, a: VertexRef, chain: seq<VertexRef>)
  {
    (n >= 1 && Rows(matrix, n + 1) && a < |arena| && arena[a].round < |matrix| &&
     Chain(arena, matrix, n, chain, lo) && chain[0] == a &&
     (KeyUnique(arena) ==> chain == [a] + Walk(arena, matrix, n, a, WalkStart(arena[a].round), lo))) == true
  }

  /** The walk starts from anchor `a` alone, two rounds below it. */
  lemma WalkedStart(arena: seq<Vertex>, matrix: seq<Round>, n: nat, lo: nat, a: VertexRef)
    requires n >= 1 && Store(arena, matrix, n) && a < |arena| && IsAnchor(arena, matrix, n, a) && arena[a].round % 2 == 0
    ensures Walked(arena, matrix, n, lo, a, [a], a, WalkStart(arena[a].round))
  {
  }

  /** `Walk` at a round above `lo` whose anchor is reached: that anchor, then the walk below it. */
  lemma WalkFound(arena: seq<Vertex>, matrix: seq<Round>, n: nat, top: VertexRef, r: nat, lo: nat, p: VertexRef)
    requires n >= 1 && Rows(matrix, n + 1) && lo < r < |matrix| && r >= 2
    requires AnchorSlot(matrix, n, r) == Some(p) && p < |arena| && Reaches(arena, top, p, r)
    ensures Walk(arena, matrix, n, top, r, lo) == [p] + Walk(arena, matrix, n, p, r - 2, lo)
  {
  }

  /** `Walk` at a round above `lo` whose anchor is missing or not reached: the walk below it. */
  lemma WalkMissed(arena: seq<Vertex>, matrix: seq<Round>, n: nat, top: VertexRef, r: nat, lo: nat)
    requires n >= 1 && Rows(matrix, n + 1) && lo < r < |matrix| && r >= 2
    requires AnchorSlot(matrix, n, r).Some? && AnchorSlot(matrix, n, r).value < |arena| ==>
      !Reaches(arena, top, AnchorSlot(matrix, n, r).value, r)
    ensures Walk(arena, matrix, n, top, r, lo) == Walk(arena, matrix, n, top, r - 2, lo)
  {
  }

  /**
   * One step of the walk at round `r` above `lo`: stacking the anchor
   * found, or nothing, keeps the walk where it should be two rounds down.
   */
  lemma WalkedNext(arena: seq<Vertex>, matrix: seq<Round>, n: nat, lo: nat, a: VertexRef, stack: seq<VertexRef>, anchor: VertexRef, r: nat, prev: Option<VertexRef>)
    requires Walked(arena, matrix, n, lo, a, stack, anchor, r) && lo < r
    requires prev.Some? ==> prev == AnchorSlot(matrix, n, r) && Reaches(arena, anchor, prev.value, r)
    requires AnchorSlot(matrix, n, r).Some? && KeyUnique(arena) && Reaches(arena, anchor, AnchorSlot(matrix, n, r).value, r) ==> prev.Some?
    ensures r >= 2
    ensures Walked(arena, matrix, n, lo, a, if prev.Some? then stack + [prev.value] else stack, if prev.Some? then prev.value else anchor, r - 2)
  {
    hide Walk;
    var goal := [a] + Walk(arena, matrix, n, a, WalkStart(arena[a].round), lo);
    assert KeyUnique(arena) ==> stack + Walk(arena, matrix, n, anchor, r, lo) == goal;
    if prev.Some? {
      var p := prev.value;
      assert p < |arena| && arena[p].round == r;
      ChainExtend(arena, matrix, n, stack, lo, p);
      if KeyUnique(arena) {
        WalkFound(arena, matrix, n, anchor, r, lo, p);
        assert (stack + [p]) + Walk(arena, matrix, n, p, r - 2, lo) == stack + ([p] + Walk(arena, matrix, n, p, r - 2, lo));
      }
    } else if KeyUnique(arena) {
      WalkMissed(arena, matrix, n, anchor, r, lo);
    }
  }

  /** Once at or below `lo`, the stack is the whole walk. */
  lemma WalkedDone(arena: seq<Vertex>, matrix: seq<Round>, n: nat, lo: nat, a: VertexRef, stack: seq<VertexRef>, anchor: VertexRef, r: nat)
    requires Walked(arena, matrix, n, lo, a, stack, anchor, r) && r <= lo
    ensures WalkedFrom(arena, matrix, n, lo, a, stack)
  {
    if KeyUnique(arena) {
      assert Walk(arena, matrix, n, anchor, r, lo) == [];
      assert stack + [] == stack;
    }
  }

  /**
   * The walk start of `OrderAnchors` in protocols/dag-based/src/bullshark.rs
   * as written: a plain `usize` subtraction, `None` where it underflows
   * (a panic in a debug build).
   */
  function WalkStartAsWritten(r: nat): (w: Option<nat>)
    ensures w.Some? <==> r >= 2
  {
    if r >= 2 then Some(r - 2) else None
  }

  /**
   * Above round 1 the subtraction as written agrees with `WalkStart`. The
   * leader as written names slot 0 of round 0, which no process fills, so
   * it never reaches round 0; but with the leader `r % n + 1` the genesis
   * vertex of process 1 is the round-0 anchor, a round-2 vertex passes the
   * even-round guard of `TryOrdering` and may commit it, and the walk
   * below that anchor underflows.
   */
  lemma WalkStartAsWrittenUnderflows(matrix: seq<Round>, n: nat, g: VertexRef)
    requires n >= 1 && Rows(matrix, n + 1) && |matrix| >= 1 && matrix[0][1] == Some(g)
    ensures forall r: nat :: r >= 2 ==> WalkStartAsWritten(r) == Some(WalkStart(r))
    ensures LeaderIdAsWritten(0, n) == 0 && AnchorSlot(matrix, n, 0) == Some(g)
    ensures var v := 2;
      !(v % 2 == 1 && v != 0) && AnchorSlot(matrix, n, v - 2) == Some(g) &&
      WalkStartAsWritten(v - 2).None? && WalkStart(v - 2) == 0
  {
    assert LeaderId(0, n) == 1;
  }

  /** A row kept what it had: it is no shorter and its occupied slots stay occupied. */
  ghost predicate KeptRow(row0: Round, row1: Round)
  {
    |row0| <= |row1| && forall s :: 0 <= s < |row0| && row0[s].Some? ==> row1[s].Some?
  }

  /** The store kept what it had: no row is lost and every row kept what it had. */
  ghost predicate Kept(m0: seq<Round>, m1: seq<Round>)
  {
    |m0| <= |m1| && forall r :: 0 <= r < |m0| ==> KeptRow(m0[r], m1[r])
  }

  lemma GrewKept(m0: seq<Round>, m1: seq<Round>, own: nat, key: (nat, nat))
    requires Grew(m0, m1, own, key)
    ensures Kept(m0, m1)
  {
    forall r | 0 <= r < |m0|
      ensures KeptRow(m0[r], m1[r])
    {
      assert GrewRow(m0[r], m1[r], own, if r == key.0 then key.1 else -1);
    }
  }

  lemma KeptTrans(m0: seq<Round>, m1: seq<Round>, m2: seq<Round>)
    requires Kept(m0, m1) && Kept(m1, m2)
    ensures Kept(m0, m2)
  {
    forall r | 0 <= r < |m0|
      ensures KeptRow(m0[r], m2[r])
    {
      assert KeptRow(m0[r], m1[r]) && KeptRow(m1[r], m2[r]);
    }
  }

  // The steady-leader wait of odd rounds

  /**
   * How many vertices of a row link to the anchor `a` of the round below:
   * the count the odd-round wait of `on_message` compares with a quorum.
   */
  function SteadyLinks(arena: seq<Vertex>, row: Round, a: VertexRef, byKey: bool): (c: nat)
    requires a < |arena| && forall s :: 0 <= s < |row| && row[s].Some? ==> row[s].value < |arena|
    ensures c <= |Flatten(row)|
    ensures c > 0 <==> exists s :: 0 <= s < |row| && row[s].Some? && Links(arena, row[s].value, a, byKey)
  {
    FlattenMembers(row);
    var voters := Flatten(row);
    assert forall i :: 0 <= i < |voters| ==> voters[i] in voters;
    var c := Votes(arena, voters, a, byKey);
    assert c > 0 ==> exists s :: 0 <= s < |row| && row[s].Some? && Links(arena, row[s].value, a, byKey) by {
      if c > 0 {
        var i :| 0 <= i < |voters| && Links(arena, voters[i], a, byKey);
        assert voters[i] in voters;
      }
    }
    assert (exists s :: 0 <= s < |row| && row[s].Some? && Links(arena, row[s].value, a, byKey)) ==> c > 0 by {
      if s :| 0 <= s < |row| && row[s].Some? && Links(arena, row[s].value, a, byKey) {
        assert row[s].value in voters;
        var i :| 0 <= i < |voters| && voters[i] == row[s].value;
      }
    }
    c
  }

  /**
   * The count as written: a `map` to booleans followed by `count`, which
   * counts every vertex of the row whether it links to the anchor or not.
   */
  function SteadyLinksAsWritten(row: Round): (c: nat)
    ensures c == |Occupied(row)|
  {
    FlattenCount(row);
    |Flatten(row)|
  }

  /**
   * The count as written never falls below the intended one, and with four
   * processes it reaches the quorum in round 1 although no vertex of that
   * round links to the anchor of round 0.
   */
  lemma SteadyLinksAsWrittenOvercounts()
    ensures forall arena: seq<Vertex>, row: Round, a: VertexRef, byKey: bool ::
      a < |arena| && (forall s :: 0 <= s < |row| && row[s].Some? ==> row[s].value < |arena|) ==>
      SteadyLinks(arena, row, a, byKey) <= SteadyLinksAsWritten(row)
    ensures var arena := [Vertex(0, 1, []), Vertex(0, 2, []), Vertex(0, 3, []), Vertex(0, 4, []),
                          Vertex(1, 1, [1, 2, 3]), Vertex(1, 2, [1, 2, 3]), Vertex(1, 3, [1, 2, 3])];
            var row1 := [None, Some(4), Some(5), Some(6), None];
            var anchor := 0;
            LeaderId(0, 4) == 1 && arena[anchor].source == 1 &&
            (forall x :: 4 <= x < 7 ==> !BadVertex(arena[x], arena[x].source, 4)) &&
            SteadyLinksAsWritten(row1) >= QuorumSize(4) &&
            SteadyLinks(arena, row1, anchor, false) == 0 && SteadyLinks(arena, row1, anchor, true) == 0
  {
    forall arena: seq<Vertex>, row: Round, a: VertexRef, byKey: bool |
      a < |arena| && (forall s :: 0 <= s < |row| && row[s].Some? ==> row[s].value < |arena|)
      ensures SteadyLinks(arena, row, a, byKey) <= SteadyLinksAsWritten(row)
    {
      FlattenCount(row);
    }
    var arena := [Vertex(0, 1, []), Vertex(0, 2, []), Vertex(0, 3, []), Vertex(0, 4, []),
                  Vertex(1, 1, [1, 2, 3]), Vertex(1, 2, [1, 2, 3]), Vertex(1, 3, [1, 2, 3])];
    var row1: Round := [None, Some(4), Some(5), Some(6), None];
    assert Occupied(row1) == {1, 2, 3};
    forall s | 0 <= s < |row1| && row1[s].Some?
      ensures !Links(arena, row1[s].value, 0, false) && !Links(arena, row1[s].value, 0, true)
    {
      var e := arena[row1[s].value].edges;
      assert e == [1, 2, 3];
      assert forall k :: 0 <= k < |e| ==> !SameKey(arena[e[k]], arena[0]);
    }
  }

  class Bullshark {
    const variant: Variant
    const dag: RoundDag.RoundBasedDag
    const arena: Arena
    const tso: Tso.Tso
    /** The seeded generator of Sparse Bullshark: the slots drawn at the `k`-th draw from a row. */
    const sampler: (nat, Round) -> set<nat>
    var selfId: ProcessId
    var procNum: nat
    var round: nat
    /** Received vertices whose parents are not all stored yet. */
    var buffer: seq<VertexRef>
    var lastOrderedRound: nat
    var stack: seq<VertexRef>
    var wait: bool
    var currentTimer: nat
    /** Timers asked of the simulator: id and delay. */
    var timers: seq<(nat, nat)>
    /** Vertices handed to reliable broadcast. */
    var outbox: seq<Announce>
    /** How many draws the generator has made. */
    var draws: nat
    /** The anchors handed to `order_from`, in order. */
    ghost var orderLog: seq<VertexRef>

    /**
     * A started process over a store with one row of `procNum + 1` slots
     * per round from 0, each slot holding only its own vertex, in a run
     * whose strong edges go down.
     */
    ghost predicate StoreOk()
      reads this`selfId, this`procNum, dag, arena
    {
      (1 <= selfId <= procNum &&
       dag.Valid() && dag.procNum == procNum && dag.gcOffset == 0 &&
       Store(arena.vertices, dag.matrix, procNum) && World(arena.vertices, procNum)) == true
    }

    /** The buffer is sorted and holds vertices above round 0. */
    ghost predicate BufferOk()
      reads this`buffer, arena
    {
      SortedBuffer(arena.vertices, buffer) && forall i :: 0 <= i < |buffer| ==> arena.vertices[buffer[i]].round >= 1
    }

    /** What holds between handlers and inside them. */
    ghost predicate Stable()
      reads this`selfId, this`procNum, this`buffer, dag, arena
    {
      StoreOk() && BufferOk()
    }

    /** The current round is stored (round 0 before the first genesis vertex). */
    ghost predicate RoundStored()
      reads this`round, dag
    {
      (dag.matrix == [] ==> round == 0) && (dag.matrix != [] ==> round < |dag.matrix|)
    }

    ghost predicate Valid()
      reads this`selfId, this`procNum, this`buffer, this`round, this`stack, dag, arena
    {
      Stable() && RoundStored() && stack == []
    }

    /** `Default` / `New`: no process yet, waiting, nothing stored. */
    constructor (variant: Variant, arena: Arena, tso: Tso.Tso, sampler: (nat, Round) -> set<nat>)
      ensures this.variant == variant && this.arena == arena && this.tso == tso && this.sampler == sampler
      ensures fresh(dag) && dag.Valid() && dag.matrix == [] && dag.gcOffset == 0
      ensures selfId == 0 && procNum == 0 && round == 0 && buffer == [] && lastOrderedRound == 0 && stack == []
      ensures wait && currentTimer == 0 && timers == [] && outbox == [] && draws == 0 && orderLog == []
    {
      this.variant := variant;
      this.arena := arena;
      this.tso := tso;
      this.sampler := sampler;
      dag := new RoundDag.RoundBasedDag();
      selfId, procNum, round, buffer, lastOrderedRound, stack := 0, 0, 0, [], 0, [];
      wait, currentTimer, timers, outbox, draws := true, 0, [], [], 0;
      orderLog := [];
    }

    /**
     * `start` / `Bootstrap`: learn the own id and the number of processes,
     * size the rounds, and reliably broadcast a fresh genesis vertex.
     */
    method Start(id: ProcessId, n: nat)
      requires 1 <= id <= n && World(arena.vertices, n)
      requires dag.Valid() && dag.matrix == [] && dag.gcOffset == 0
      requires round == 0 && buffer == [] && stack == []
      modifies this`selfId, this`procNum, this`outbox, dag, arena
      ensures Valid() && selfId == id && procNum == n && dag.matrix == []
      ensures arena.vertices == old(arena.vertices) + [Vertex(0, id, [])]
      ensures outbox == old(outbox) + [GenesisOf(|old(arena.vertices)|)]
    {
      selfId := id;
      procNum := n;
      dag.SetRoundSize(n);
      ArenaGrows(arena.vertices, Vertex(0, id, []), dag.matrix, buffer, n);
      var g := arena.Alloc(Vertex(0, id, []));
      outbox := outbox + [GenesisOf(g)];
    }

    /** `get_anchor`: the vertex in the leader's slot of a stored round, if any. */
    function Anchor(r: nat): (a: Option<VertexRef>)
      reads this`selfId, this`procNum, dag, arena
      requires StoreOk() && r < |dag.matrix|
      ensures a.Some? ==> a.value < |arena.vertices| && arena.vertices[a.value].round == r
      ensures a.Some? ==> IsAnchor(arena.vertices, dag.matrix, procNum, a.value)
    {
      AnchorSlot(dag.matrix, procNum, r)
    }

    /** `quorum_reached_for_round`: a stored round holds a quorum of vertices. */
    predicate QuorumReached(r: nat)
      reads this`procNum, dag`matrix, dag`gcOffset
      requires procNum >= 1 && dag.gcOffset == 0 && r < |dag.matrix|
    {
      |Flatten(dag.matrix[r])| >= QuorumSize(procNum)
    }

    /**
     * The test of `try_add_to_dag`: the round below `x` is allocated and
     * every strong edge is the very vertex stored in its slot. The source
     * compares with the highest allocated round instead, which on an empty
     * store is no round at all (`ReadyAsWritten`).
     */
    predicate Ready(x: VertexRef)
      reads this`selfId, this`procNum, dag, arena
      requires StoreOk() && x < |arena.vertices| && arena.vertices[x].round >= 1
    {
      var v := arena.vertices[x];
      v.round - 1 < dag.AllocatedRounds() &&
      (forall k :: 0 <= k < |v.edges| ==>
         dag.Row(arena.vertices[v.edges[k]].round)[arena.vertices[v.edges[k]].source] == Some(v.edges[k]))
    }

    /**
     * `Ready` is the test of `try_add_to_dag` on every non-empty store. On
     * an empty one it leaves every vertex for the buffer, where the source
     * buffers a vertex of round 2 or more and panics on the others.
     */
    lemma ReadyCorrectsAsWritten(x: VertexRef)
      requires StoreOk() && x < |arena.vertices| && arena.vertices[x].round >= 1
      ensures dag.matrix != [] ==> ReadyAsWritten(arena.vertices, dag.matrix, procNum, variant, x) == Some(Ready(x))
      ensures dag.matrix == [] ==> !Ready(x)
    {
      if dag.matrix != [] {
        var v := arena.vertices[x];
        if v.round - 1 < dag.AllocatedRounds() {
          forall k | 0 <= k < |v.edges|
            ensures dag.Row(arena.vertices[v.edges[k]].round) == dag.matrix[arena.vertices[v.edges[k]].round]
          {
          }
        }
      }
    }

    /**
     * `create_vertex` / `CreateVertex`: the strong edges of the own vertex
     * of round `r`, every vertex of round `r - 1`, or a sample of them in
     * Sparse Bullshark.
     */
    function Parents(r: nat): (edges: seq<VertexRef>)
      reads this`selfId, this`procNum, this`draws, dag
      requires procNum >= 1 && dag.gcOffset == 0 && 1 <= r <= |dag.matrix|
    {
      var row := dag.Row(r - 1);
      if variant.Sparse? then SampleCandidates(row, variant.d, sampler(draws, row), selfId, LeaderId(r - 1, procNum))
      else Flatten(row)
    }

    /**
     * The own vertex of round `r` points only to vertices of round `r - 1`,
     * and always to the own vertex and the leader's of that round when
     * they are stored.
     */
    lemma ParentsInRound(r: nat)
      requires procNum >= 1 && dag.gcOffset == 0 && 1 <= r <= |dag.matrix|
      ensures forall e :: e in Parents(r) ==> e in Flatten(dag.Row(r - 1))
      ensures selfId < |dag.Row(r - 1)| && dag.Row(r - 1)[selfId].Some? ==> dag.Row(r - 1)[selfId].value in Parents(r)
      ensures var l := LeaderId(r - 1, procNum);
        l < |dag.Row(r - 1)| && dag.Row(r - 1)[l].Some? ==> dag.Row(r - 1)[l].value in Parents(r)
    {
      var row := dag.Row(r - 1);
      FlattenMembers(row);
      if variant.Sparse? {
        SampleCandidatesMembers(row, variant.d, sampler(draws, row), selfId, LeaderId(r - 1, procNum));
      }
    }

    /**
     * With a generator that draws as `SamplerOk` says, the own vertex of
     * round `r` in Sparse Bullshark has between `d` and `d + 2` parents
     * when round `r - 1` holds more than `d` vertices, and all of them
     * otherwise; the other variants take every vertex of the round below.
     */
    lemma ParentsSize(r: nat)
      requires SamplerOk(variant, sampler) && procNum >= 1 && dag.gcOffset == 0 && 1 <= r <= |dag.matrix|
      ensures !variant.Sparse? || |Flatten(dag.Row(r - 1))| <= variant.d ==> Parents(r) == Flatten(dag.Row(r - 1))
      ensures variant.Sparse? && |Flatten(dag.Row(r - 1))| > variant.d ==> variant.d <= |Parents(r)| <= variant.d + 2
    {
      var row := dag.Row(r - 1);
      if variant.Sparse? {
        FlattenCount(row);
        SampleCandidatesSize(row, variant.d, sampler(draws, row), selfId, LeaderId(r - 1, procNum));
      }
    }

    /** `start_timer`: a fresh timer id from the global counter, and waiting again. */
    method StartTimer()
      requires TimerDelay(variant).Some?
      modifies this`currentTimer, this`timers, this`wait, tso
      ensures currentTimer == old(tso.counter) && tso.counter == old(tso.counter) + 1
      ensures timers == old(timers) + [(currentTimer, TimerDelay(variant).value)] && wait
    {
      currentTimer := tso.GlobalUniqueId();
      timers := timers + [(currentTimer, TimerDelay(variant).value)];
      wait := true;
    }

    /** `add_vertex` on a genesis vertex or a ready one, keeping the store's shape. */
    method AddToStore(x: VertexRef)
      requires StoreOk() && x < |arena.vertices|
      requires arena.vertices[x].round >= 1 ==> dag.matrix != [] && Ready(x)
      modifies dag
      ensures StoreOk() && Grew(old(dag.matrix), dag.matrix, selfId, (arena.vertices[x].round, arena.vertices[x].source))
      ensures arena.vertices[x].round < |dag.matrix| && dag.matrix[arena.vertices[x].round][arena.vertices[x].source] == Some(x)
      ensures old(dag.ordered) <= dag.ordered
    {
      ghost var m0 := dag.matrix;
      dag.AddVertex(arena.vertices[x], x);
      StoreAfterAdd(arena.vertices, m0, dag.matrix, procNum, x);
    }

    /** How many draws making the own vertex of round `r` takes: one when Sparse Bullshark samples. */
    function DrawsFor(r: nat): (k: nat)
      reads dag
      requires dag.gcOffset == 0 && 1 <= r <= |dag.matrix|
      ensures k <= 1 && (k == 1 <==> variant.Sparse? && |Flatten(dag.Row(r - 1))| > variant.d)
    {
      if variant.Sparse? && |Flatten(dag.Row(r - 1))| > variant.d then 1 else 0
    }

    /**
     * `try_add_to_dag` / `TryAddToDAG`: store `x` when its parents are
     * stored; then jump to its round when that round has a quorum and is
     * ahead, drop `x` from the buffer, and try to commit when `x` is its
     * round's leader vertex.
     */
    method TryAddToDag(x: VertexRef) returns (added: bool, ghost chain: seq<VertexRef>)
      requires Stable() && stack == [] && RoundStored()
      requires x < |arena.vertices| && arena.vertices[x].round >= 1
      modifies this`round, this`currentTimer, this`timers, this`wait, this`draws, this`outbox, this`buffer,
        this`stack, this`orderLog, this`lastOrderedRound, dag, arena, tso
      ensures Stable() && stack == [] && RoundStored() && old(arena.vertices) <= arena.vertices
      ensures added == old(Ready(x))
      ensures !added ==> unchanged(this, dag, arena, tso)
      ensures Grew(old(dag.matrix), dag.matrix, selfId, (arena.vertices[x].round, arena.vertices[x].source))
      ensures added ==>
        arena.vertices[x].round < |dag.matrix| && arena.vertices[x].source < |dag.matrix[arena.vertices[x].round]| &&
        dag.matrix[arena.vertices[x].round][arena.vertices[x].source].Some?
      ensures added && (round == old(round) || arena.vertices[x].source != selfId) ==>
        dag.matrix[arena.vertices[x].round][arena.vertices[x].source] == Some(x)
      ensures added ==> !HasKey(arena.vertices, buffer, x)
      ensures forall y :: y in buffer ==> y in old(buffer)
      ensures round == old(round) || (added && old(round) < round == arena.vertices[x].round && QuorumReached(round))
      ensures added && old(round) < arena.vertices[x].round && QuorumReached(arena.vertices[x].round) ==>
        round == arena.vertices[x].round
      ensures round == old(round) ==>
        arena.vertices == old(arena.vertices) && outbox == old(outbox) && draws == old(draws) &&
        timers == old(timers) && wait == old(wait) && currentTimer == old(currentTimer) && tso.counter == old(tso.counter)
      ensures added && round == old(round) ==> buffer == BufRemove(arena.vertices, old(buffer), x)
      ensures added && round == old(round) && Commits(dag.matrix, x) ==>
        WalkedFrom(arena.vertices, dag.matrix, procNum, old(lastOrderedRound), AnchorSlot(dag.matrix, procNum, arena.vertices[x].round - 2).value, chain) &&
        orderLog == old(orderLog) + Reverse(chain) && lastOrderedRound == arena.vertices[x].round - 2
      ensures added && round == old(round) && !Commits(dag.matrix, x) ==>
        orderLog == old(orderLog) && lastOrderedRound == old(lastOrderedRound)
      ensures old(orderLog) <= orderLog
    {
      // The commit test and the walk are taken whole from `Settle`.
      hide Walk, WalkedFrom, Commits, CommitsAt, BufRemove;
      if !Ready(x) {
        return false, [];
      }
      added := true;
      ghost var v := arena.vertices[x];
      AddAndJump(x, v);
      assert arena.vertices[x] == v;
      ghost var a1, m1, r1, b1, lo1, log1 := arena.vertices, dag.matrix, round, buffer, lastOrderedRound, orderLog;
      ghost var q := QuorumReached(arena.vertices[x].round);
      ghost var c := Commits(m1, x);
      chain := Settle(x);
      assert arena.vertices == a1 && dag.matrix == m1 && round == r1 && q == QuorumReached(arena.vertices[x].round);
      assert c == Commits(dag.matrix, x);
    }

    /** The first half of `try_add_to_dag` on a ready vertex `x`, whose vertex is `v`: store it, then jump to its round on a quorum. */
    method AddAndJump(x: VertexRef, ghost v: Vertex)
      requires Stable() && stack == [] && dag.matrix != [] && round < |dag.matrix|
      requires x < |arena.vertices| && arena.vertices[x] == v && v.round >= 1 && Ready(x)
      modifies this`round, this`currentTimer, this`timers, this`wait, this`draws, this`outbox, this`buffer,
        this`stack, this`orderLog, this`lastOrderedRound, dag, arena, tso
      ensures Stable() && stack == [] && round < |dag.matrix| && old(arena.vertices) <= arena.vertices
      ensures Grew(old(dag.matrix), dag.matrix, selfId, (v.round, v.source))
      ensures v.round < |dag.matrix| && v.source < |dag.matrix[v.round]| && dag.matrix[v.round][v.source].Some?
      ensures (round == old(round) || v.source != selfId) ==> dag.matrix[v.round][v.source] == Some(x)
      ensures forall y :: y in buffer ==> y in old(buffer)
      ensures round == old(round) || (old(round) < round == v.round && QuorumReached(round))
      ensures old(round) < v.round && QuorumReached(v.round) ==> round == v.round
      ensures round == old(round) ==>
        arena.vertices == old(arena.vertices) && outbox == old(outbox) && draws == old(draws) && buffer == old(buffer) &&
        timers == old(timers) && wait == old(wait) && currentTimer == old(currentTimer) && tso.counter == old(tso.counter) &&
        orderLog == old(orderLog) && lastOrderedRound == old(lastOrderedRound)
      ensures old(orderLog) <= orderLog
    {
      ghost var m0 := dag.matrix;
      AddToStore(x);
      ghost var m1 := dag.matrix;
      assert m1[v.round][v.source] == Some(x);
      Jump(arena.vertices[x].round);
      GrewTrans(m0, m1, dag.matrix, selfId, (v.round, v.source), (v.round, selfId));
    }

    /** The jump of `try_add_to_dag`: move to round `r` when it is ahead and holds a quorum. */
    method Jump(r: nat)
      requires Stable() && stack == [] && round < |dag.matrix| && 1 <= r < |dag.matrix| && r <= MAX_ROUND
      modifies this`round, this`currentTimer, this`timers, this`wait, this`draws, this`outbox, this`buffer,
        this`stack, this`orderLog, this`lastOrderedRound, dag, arena, tso
      ensures Stable() && stack == [] && round < |dag.matrix| && old(arena.vertices) <= arena.vertices
      ensures Grew(old(dag.matrix), dag.matrix, selfId, (r, selfId))
      ensures forall y :: y in buffer ==> y in old(buffer)
      ensures round == old(round) || (old(round) < round == r && QuorumReached(r))
      ensures old(round) < r && old(QuorumReached(r)) ==> round == r
      ensures round == old(round) ==> unchanged(this, dag, arena, tso)
      ensures old(orderLog) <= orderLog
    {
      if QuorumReached(r) && r > round {
        JumpTo(r);
      }
    }

    /** The jump itself: round `r` is ahead and holds a quorum, which it keeps. */
    method JumpTo(r: nat)
      requires Stable() && stack == [] && round < r < |dag.matrix| && r <= MAX_ROUND && QuorumReached(r)
      modifies this`round, this`currentTimer, this`timers, this`wait, this`draws, this`outbox, this`buffer,
        this`stack, this`orderLog, this`lastOrderedRound, dag, arena, tso
      ensures Stable() && stack == [] && round == r < |dag.matrix| && QuorumReached(r) && old(arena.vertices) <= arena.vertices
      ensures Grew(old(dag.matrix), dag.matrix, selfId, (r, selfId))
      ensures forall y :: y in buffer ==> y in old(buffer)
      ensures old(orderLog) <= orderLog
    {
      ghost var row := dag.matrix[r];
      AdvanceTo(r);
      QuorumPersists(row, dag.matrix[r]);
    }

    /**
     * The second half of `try_add_to_dag`: drop the vertex from the buffer,
     * and, when it sits in its round's leader slot, try to commit with it.
     */
    method Settle(x: VertexRef) returns (ghost chain: seq<VertexRef>)
      requires Stable() && stack == [] && x < |arena.vertices| && 1 <= arena.vertices[x].round < |dag.matrix|
      modifies this`buffer, this`stack, this`orderLog, this`lastOrderedRound, dag
      ensures Stable() && stack == [] && dag.matrix == old(dag.matrix)
      ensures buffer == BufRemove(arena.vertices, old(buffer), x)
      ensures !HasKey(arena.vertices, buffer, x) && forall y :: y in buffer ==> y in old(buffer)
      ensures Commits(old(dag.matrix), x) ==>
        WalkedFrom(arena.vertices, dag.matrix, procNum, old(lastOrderedRound), AnchorSlot(old(dag.matrix), procNum, arena.vertices[x].round - 2).value, chain) &&
        orderLog == old(orderLog) + Reverse(chain) && lastOrderedRound == arena.vertices[x].round - 2 &&
        Grows(old(dag.ordered), dag.ordered)
      ensures !Commits(old(dag.matrix), x) ==>
        orderLog == old(orderLog) && lastOrderedRound == old(lastOrderedRound) && dag.ordered == old(dag.ordered)
      ensures old(orderLog) <= orderLog
    {
      // The commit test and the walk are taken whole from `TryOrdering`.
      hide Walk, WalkedFrom, CommitsAt;
      var v := arena.vertices[x];
      ghost var b0 := buffer;
      buffer := BufRemove(arena.vertices, buffer, x);
      assert forall i :: 0 <= i < |buffer| ==> buffer[i] in b0;
      chain := [];
      if v.source == LeaderId(v.round, procNum) {
        chain := TryOrdering(x);
      }
    }

    /**
     * Storing `x` in the store `matrix` commits: it sits in its round's
     * leader slot and its parents vote for the anchor two rounds below.
     */
    ghost predicate Commits(matrix: seq<Round>, x: VertexRef)
      reads this`procNum, arena
      requires procNum >= 1 && Rows(matrix, procNum + 1) && x < |arena.vertices| && arena.vertices[x].round < |matrix|
    {
      arena.vertices[x].source == LeaderId(arena.vertices[x].round, procNum) &&
      CommitsAt(arena.vertices, matrix, procNum, variant, x)
    }

    /**
     * The step shared by `try_advance_round` and `try_add_to_dag`: move to
     * round `r`, restart the timer, and broadcast the own vertex of `r`.
     */
    method AdvanceTo(r: nat)
      requires Stable() && stack == [] && round < r <= |dag.matrix| && 1 <= r <= MAX_ROUND
      modifies this`round, this`currentTimer, this`timers, this`wait, this`draws, this`outbox, this`buffer,
        this`stack, this`orderLog, this`lastOrderedRound, dag, arena, tso
      ensures Stable() && stack == [] && round == r < |dag.matrix|
      ensures arena.vertices == old(arena.vertices) + [Vertex(r, selfId, old(Parents(r)))]
      ensures outbox == old(outbox) + [VertexOf(|old(arena.vertices)|)]
      ensures Grew(old(dag.matrix), dag.matrix, selfId, (r, selfId)) && dag.matrix[r][selfId] == Some(|old(arena.vertices)|)
      ensures forall y :: y in buffer ==> y in old(buffer)
      ensures draws == old(draws) + old(DrawsFor(r))
      ensures TimerDelay(variant).Some? ==>
        wait && currentTimer == old(tso.counter) && tso.counter == old(tso.counter) + 1 &&
        timers == old(timers) + [(currentTimer, TimerDelay(variant).value)]
      ensures TimerDelay(variant).None? ==>
        wait == old(wait) && currentTimer == old(currentTimer) && tso.counter == old(tso.counter) && timers == old(timers)
      ensures old(orderLog) <= orderLog
    {
      hide Walk, WalkedFrom, Commits, CommitsAt, BufRemove;
      round := r;
      if TimerDelay(variant).Some? {
        StartTimer();
      }
      BroadcastVertex(r);
    }

    /**
     * `broadcast_vertex` / `BroadcastVertex`: make the own vertex of the
     * current round `r`, store it, and hand it to reliable broadcast.
     */
    method BroadcastVertex(r: nat)
      requires Stable() && stack == [] && round == r && 1 <= r <= |dag.matrix| && r <= MAX_ROUND
      modifies this`draws, this`outbox, this`buffer, this`stack, this`orderLog, this`lastOrderedRound, dag, arena
      ensures Stable() && stack == [] && r < |dag.matrix|
      ensures arena.vertices == old(arena.vertices) + [Vertex(r, selfId, old(Parents(r)))]
      ensures outbox == old(outbox) + [VertexOf(|old(arena.vertices)|)]
      ensures Grew(old(dag.matrix), dag.matrix, selfId, (r, selfId)) && dag.matrix[r][selfId] == Some(|old(arena.vertices)|)
      ensures forall y :: y in buffer ==> y in old(buffer)
      ensures draws == old(draws) + old(DrawsFor(r))
      ensures old(orderLog) <= orderLog
    {
      // `try_add_to_dag` on the own vertex: its parents are stored and its
      // round is the current one, so it is stored and settled with no jump.
      hide Walk, WalkedFrom, Commits, CommitsAt, BufRemove;
      var own := StoreOwn(r);
      var _ := Settle(own);
      outbox := outbox + [VertexOf(own)];
    }

    /** The own vertex of round `r`, allocated and stored in its slot. */
    method StoreOwn(r: nat) returns (own: VertexRef)
      requires Stable() && 1 <= r <= |dag.matrix| && r <= MAX_ROUND
      modifies this`draws, dag, arena
      ensures Stable() && own == |old(arena.vertices)| && arena.vertices == old(arena.vertices) + [Vertex(r, selfId, old(Parents(r)))]
      ensures draws == old(draws) + old(DrawsFor(r))
      ensures Grew(old(dag.matrix), dag.matrix, selfId, (r, selfId)) && r < |dag.matrix| && dag.matrix[r][selfId] == Some(own)
    {
      own := AllocOwn(r);
      AddToStore(own);
    }

    /** The allocation of the own vertex of round `r`, whose parents are all stored. */
    method AllocOwn(r: nat) returns (own: VertexRef)
      requires Stable() && 1 <= r <= |dag.matrix| && r <= MAX_ROUND
      modifies this`draws, arena
      ensures Stable() && own == |old(arena.vertices)| && arena.vertices == old(arena.vertices) + [Vertex(r, selfId, old(Parents(r)))]
      ensures draws == old(draws) + old(DrawsFor(r))
      ensures Ready(own)
    {
      var edges := Parents(r);
      ParentsInRound(r);
      draws := draws + DrawsFor(r);
      OwnVertexFits(arena.vertices, dag.matrix, buffer, procNum, Vertex(r, selfId, edges));
      own := arena.Alloc(Vertex(r, selfId, edges));
    }

    /**
     * `try_advance_round` / `TryAdvanceRound`: with a quorum in the
     * current round, move to the next one, restart the timer and broadcast
     * the own vertex of the new round. A round beyond `MAX_ROUND` would
     * take the store past `usize::MAX` rows and is not entered.
     */
    method TryAdvanceRound()
      requires Valid() && dag.matrix != []
      modifies this`round, this`currentTimer, this`timers, this`wait, this`draws, this`outbox, this`buffer,
        this`stack, this`orderLog, this`lastOrderedRound, dag, arena, tso
      ensures Valid() && Kept(old(dag.matrix), dag.matrix) && old(orderLog) <= orderLog
      ensures round == old(round) + 1 <==> old(QuorumReached(round)) && old(round) < MAX_ROUND
      ensures round == old(round) + 1 ==>
        QuorumReached(old(round)) &&
        arena.vertices == old(arena.vertices) + [Vertex(round, selfId, old(Parents(round + 1)))] &&
        outbox == old(outbox) + [VertexOf(|old(arena.vertices)|)] &&
        dag.matrix[round][selfId] == Some(|old(arena.vertices)|)
      ensures round == old(round) + 1 && TimerDelay(variant).Some? ==>
        wait && currentTimer == old(tso.counter) && timers == old(timers) + [(currentTimer, TimerDelay(variant).value)]
      ensures round != old(round) + 1 ==> unchanged(this, dag, arena, tso)
    {
      if QuorumReached(round) && round < MAX_ROUND {
        NextRound();
      }
    }

    /** The advance of `try_advance_round`, once the current round holds a quorum. */
    method NextRound()
      requires Valid() && dag.matrix != [] && QuorumReached(round) && round < MAX_ROUND
      modifies this`round, this`currentTimer, this`timers, this`wait, this`draws, this`outbox, this`buffer,
        this`stack, this`orderLog, this`lastOrderedRound, dag, arena, tso
      ensures Valid() && Kept(old(dag.matrix), dag.matrix) && old(orderLog) <= orderLog
      ensures round == old(round) + 1 && QuorumReached(old(round))
      ensures arena.vertices == old(arena.vertices) + [Vertex(round, selfId, old(Parents(round + 1)))]
      ensures outbox == old(outbox) + [VertexOf(|old(arena.vertices)|)]
      ensures dag.matrix[round][selfId] == Some(|old(arena.vertices)|)
      ensures TimerDelay(variant).Some? ==>
        wait && currentTimer == old(tso.counter) && timers == old(timers) + [(currentTimer, TimerDelay(variant).value)]
    {
      ghost var m0, r0 := dag.matrix, round;
      assert |Flatten(m0[r0])| >= QuorumSize(procNum);
      AdvanceTo(round + 1);
      GrewKept(m0, dag.matrix, selfId, (round, selfId));
      QuorumPersists(m0[r0], dag.matrix[r0]);
      assert dag.Row(r0) == dag.matrix[r0];
    }

    /**
     * `try_ordering` / `TryOrdering`: when `x` commits the anchor two
     * rounds below, order that anchor and the earlier anchors it reaches.
     */
    method TryOrdering(x: VertexRef) returns (ghost chain: seq<VertexRef>)
      requires StoreOk() && stack == [] && x < |arena.vertices| && 1 <= arena.vertices[x].round < |dag.matrix|
      modifies this`stack, this`orderLog, this`lastOrderedRound, dag
      ensures StoreOk() && stack == [] && dag.matrix == old(dag.matrix)
      ensures CommitsAt(arena.vertices, old(dag.matrix), procNum, variant, x) ==>
        WalkedFrom(arena.vertices, dag.matrix, procNum, old(lastOrderedRound), AnchorSlot(old(dag.matrix), procNum, arena.vertices[x].round - 2).value, chain) &&
        orderLog == old(orderLog) + Reverse(chain) && lastOrderedRound == arena.vertices[x].round - 2 &&
        Grows(old(dag.ordered), dag.ordered)
      ensures !CommitsAt(arena.vertices, old(dag.matrix), procNum, variant, x) ==> unchanged(this, dag)
    {
      hide Walk, WalkedFrom;
      // Leaders are on even rounds; the protocols variant's guard differs only at round 0.
      var r := arena.vertices[x].round;
      if r % 2 == 1 || r == 0 {
        return [];
      }
      var anchor := Anchor(r - 2);
      if anchor.None? {
        return [];
      }
      var votes := Votes(arena.vertices, arena.vertices[x].edges, anchor.value, ByKey(variant));
      if votes >= CommitThreshold(variant, procNum) {
        ghost var lo := lastOrderedRound;
        assert anchor.value == AnchorSlot(old(dag.matrix), procNum, r - 2).value;
        EvenBelow(r);
        chain := OrderAnchors(anchor.value);
        assert WalkedFrom(arena.vertices, dag.matrix, procNum, lo, anchor.value, chain);
      } else {
        chain := [];
      }
    }

    /**
     * `order_anchors` / `OrderAnchors`: walk down from anchor `a` two
     * rounds at a time while above the last ordered round, stacking every
     * earlier anchor reachable from the last one stacked; then order the
     * stack, oldest first.
     */
    method OrderAnchors(a: VertexRef) returns (ghost chain: seq<VertexRef>)
      requires StoreOk() && stack == [] && a < |arena.vertices| && IsAnchor(arena.vertices, dag.matrix, procNum, a)
      requires arena.vertices[a].round % 2 == 0
      modifies this`stack, this`orderLog, this`lastOrderedRound, dag
      ensures StoreOk() && stack == [] && dag.matrix == old(dag.matrix)
      ensures WalkedFrom(arena.vertices, dag.matrix, procNum, old(lastOrderedRound), a, chain)
      ensures orderLog == old(orderLog) + Reverse(chain) && lastOrderedRound == arena.vertices[a].round
      ensures Grows(old(dag.ordered), dag.ordered)
    {
      hide Walk;
      CollectAnchors(a);
      lastOrderedRound := arena.vertices[a].round;
      chain := stack;
      OrderHistory();
    }

    /**
     * The walk of `order_anchors`: from anchor `a`, two rounds at a time
     * while above the last ordered round, stack every earlier anchor
     * reachable from the last one stacked.
     */
    method CollectAnchors(a: VertexRef)
      requires StoreOk() && stack == [] && a < |arena.vertices| && IsAnchor(arena.vertices, dag.matrix, procNum, a)
      requires arena.vertices[a].round % 2 == 0
      modifies this`stack, dag
      ensures StoreOk() && dag.matrix == old(dag.matrix) && dag.ordered == old(dag.ordered)
      ensures WalkedFrom(arena.vertices, dag.matrix, procNum, lastOrderedRound, a, stack)
    {
      // The walk is followed through `Walked`; its definition is not needed here.
      hide Walk;
      ghost var A, m, n, lo := arena.vertices, dag.matrix, procNum, lastOrderedRound;
      // The stack is built locally and stored once the walk is done.
      var anchor := a;
      var pushed := [anchor];
      var r: nat := WalkStart(arena.vertices[a].round);
      WalkedStart(A, m, n, lo, a);
      while r > lastOrderedRound
        invariant StoreOk() && dag.matrix == m && dag.ordered == old(dag.ordered)
        invariant Walked(A, m, n, lo, a, pushed, anchor, r)
        decreases r
      {
        pushed, anchor := WalkStep(A, m, n, lo, a, pushed, anchor, r);
        r := r - 2;
      }
      WalkedDone(A, m, n, lo, a, pushed, anchor, r);
      assert A == arena.vertices && m == dag.matrix && n == procNum && lo == lastOrderedRound;
      stack := pushed;
    }

    /**
     * One round of the walk of `order_anchors`: stack the anchor of round
     * `r` when the last one stacked reaches it.
     */
    method WalkStep(ghost A: seq<Vertex>, ghost m: seq<Round>, ghost n: nat, ghost lo: nat, ghost a: VertexRef, pushed: seq<VertexRef>, anchor: VertexRef, r: nat)
      returns (pushed': seq<VertexRef>, anchor': VertexRef)
      requires StoreOk() && A == arena.vertices && m == dag.matrix && n == procNum && lo < r
      requires Walked(A, m, n, lo, a, pushed, anchor, r)
      modifies dag
      ensures StoreOk() && dag.matrix == m && dag.ordered == old(dag.ordered) && r >= 2
      ensures Walked(A, m, n, lo, a, pushed', anchor', r - 2)
    {
      var prev := ReachedAnchor(anchor, r);
      WalkedNext(A, m, n, lo, a, pushed, anchor, r, prev);
      pushed', anchor' := pushed, anchor;
      if prev.Some? {
        pushed' := pushed + [prev.value];
        anchor' := prev.value;
      }
    }

    /**
     * One step of the walk of `order_anchors`: the anchor of round `r`,
     * when it exists and `path_exists` finds it from `anchor`.
     */
    method ReachedAnchor(anchor: VertexRef, r: nat) returns (p: Option<VertexRef>)
      requires StoreOk() && anchor < |arena.vertices| && r < arena.vertices[anchor].round < |dag.matrix|
      modifies dag
      ensures StoreOk() && dag.matrix == old(dag.matrix) && dag.ordered == old(dag.ordered)
      ensures p.Some? ==> p == Anchor(r) && Reaches(arena.vertices, anchor, p.value, r)
      ensures Anchor(r).Some? && KeyUnique(arena.vertices) && Reaches(arena.vertices, anchor, Anchor(r).value, r) ==> p.Some?
    {
      p := Anchor(r);
      if p.Some? {
        SearchFits(arena.vertices, dag.matrix, dag.visited, procNum, anchor, r);
        DescendingWellFormed(arena.vertices);
        var found := dag.PathExists(arena.vertices, anchor, p.value);
        if !found {
          p := None;
        }
      }
    }

    /** `order_history` / `OrderHistory`: pop every stacked anchor and order what it reaches. */
    method OrderHistory()
      requires StoreOk()
      requires forall i :: 0 <= i < |stack| ==> stack[i] < |arena.vertices| && arena.vertices[stack[i]].round < |dag.matrix|
      modifies this`stack, this`orderLog, dag
      ensures StoreOk() && stack == [] && orderLog == old(orderLog) + Reverse(old(stack))
      ensures Grows(old(dag.ordered), dag.ordered) && dag.matrix == old(dag.matrix)
    {
      while stack != []
        invariant StoreOk() && stack == old(stack)[..|stack|]
        invariant orderLog == old(orderLog) + Reverse(old(stack)[|stack|..])
        invariant Grows(old(dag.ordered), dag.ordered) && dag.matrix == old(dag.matrix)
        decreases |stack|
      {
        var k := |stack| - 1;
        var anchor := stack[k];
        assert old(stack)[k..] == [anchor] + old(stack)[k + 1..];
        stack := stack[..k];
        SearchFits(arena.vertices, dag.matrix, dag.ordered, procNum, anchor, 0);
        DescendingWellFormed(arena.vertices);
        dag.OrderFrom(arena.vertices, anchor);
        orderLog := orderLog + [anchor];
      }
    }

    // Handlers

    /**
     * `on_message` on a genesis vertex `x`: store it in its slot of round
     * 0 (allocating round 0 on the first one), then try to advance.
     */
    method DeliverGenesis(x: VertexRef)
      requires Valid() && x < |arena.vertices| && arena.vertices[x].round == 0
      modifies this`round, this`currentTimer, this`timers, this`wait, this`draws, this`outbox, this`buffer,
        this`stack, this`orderLog, this`lastOrderedRound, dag, arena, tso
      ensures Valid() && dag.matrix != [] && Kept(old(dag.matrix), dag.matrix) && old(orderLog) <= orderLog
      ensures old(arena.vertices) <= arena.vertices
      ensures arena.vertices[x].source < |dag.matrix[0]| && dag.matrix[0][arena.vertices[x].source].Some?
      ensures old(round) <= round <= old(round) + 1
    {
      StoreGenesis(x);
      ghost var m1 := dag.matrix;
      TryAdvanceRound();
      assert KeptRow(m1[0], dag.matrix[0]);
      KeptTrans(old(dag.matrix), m1, dag.matrix);
    }

    /** The store step of a genesis delivery. */
    method StoreGenesis(x: VertexRef)
      requires Valid() && x < |arena.vertices| && arena.vertices[x].round == 0
      modifies dag
      ensures Valid() && dag.matrix != [] && Kept(old(dag.matrix), dag.matrix)
      ensures arena.vertices[x].source < |dag.matrix[0]| && dag.matrix[0][arena.vertices[x].source] == Some(x)
    {
      ghost var m0 := dag.matrix;
      AddToStore(x);
      GrewKept(m0, dag.matrix, selfId, (0, arena.vertices[x].source));
    }

    /**
     * `on_message` on a vertex `x` that reliable broadcast delivered from
     * `from`: drop it when it is bad; otherwise drain the buffer, store or
     * buffer `x`, and apply the round-advance rule. `stored` says whether
     * `x` was stored.
     */
    method DeliverVertex(from: ProcessId, x: VertexRef) returns (stored: bool)
      requires Valid() && x < |arena.vertices|
      modifies this`round, this`currentTimer, this`timers, this`wait, this`draws, this`outbox, this`buffer,
        this`stack, this`orderLog, this`lastOrderedRound, dag, arena, tso
      ensures Valid() && Kept(old(dag.matrix), dag.matrix) && old(orderLog) <= orderLog
      ensures old(round) <= round && old(arena.vertices) <= arena.vertices
      ensures BadVertex(old(arena.vertices)[x], from, procNum) ==> !stored && unchanged(this, dag, arena, tso)
      ensures old(dag.matrix) == [] && !BadVertex(old(arena.vertices)[x], from, procNum) ==>
        !stored && buffer == BufInsert(arena.vertices, old(buffer), x) && unchanged(dag, arena, tso) &&
        round == old(round) && outbox == old(outbox) && timers == old(timers) && orderLog == old(orderLog)
      ensures stored ==>
        arena.vertices[x].round < |dag.matrix| && arena.vertices[x].source < |dag.matrix[arena.vertices[x].round]| &&
        dag.matrix[arena.vertices[x].round][arena.vertices[x].source].Some?
    {
      if BadVertex(arena.vertices[x], from, procNum) {
        return false;
      }
      ghost var v := arena.vertices[x];
      assert v.edges[0] in v.edges && arena.vertices[v.edges[0]].round < v.round;
      var vr := arena.vertices[x].round;
      stored := Receive(x);
      ghost var m1 := dag.matrix;
      Steady(vr);
      if stored {
        assert KeptRow(m1[v.round], dag.matrix[v.round]);
      }
      KeptTrans(old(dag.matrix), m1, dag.matrix);
    }

    /**
     * The store-or-buffer step of `on_message`: drain the buffer, then
     * store `x`, or buffer it when its parents are not all stored.
     */
    method Receive(x: VertexRef) returns (stored: bool)
      requires Valid() && x < |arena.vertices| && arena.vertices[x].round >= 1
      modifies this`round, this`currentTimer, this`timers, this`wait, this`draws, this`outbox, this`buffer,
        this`stack, this`orderLog, this`lastOrderedRound, dag, arena, tso
      ensures Valid() && Kept(old(dag.matrix), dag.matrix) && old(orderLog) <= orderLog
      ensures old(round) <= round && old(arena.vertices) <= arena.vertices
      ensures stored ==>
        arena.vertices[x].round < |dag.matrix| && dag.matrix[arena.vertices[x].round][arena.vertices[x].source].Some?
      ensures !stored ==> HasKey(arena.vertices, buffer, x)
      ensures forall y :: y in buffer ==> y in old(buffer) || y == x
      ensures old(dag.matrix) == [] ==>
        !stored && buffer == BufInsert(arena.vertices, old(buffer), x) && unchanged(dag, arena, tso) &&
        round == old(round) && outbox == old(outbox) && timers == old(timers) && orderLog == old(orderLog)
    {
      Drain();
      ghost var m1 := dag.matrix;
      stored := StoreOrStash(x);
      KeptTrans(old(dag.matrix), m1, dag.matrix);
    }

    /** After the drain: store `x`, or buffer it when its parents are not all stored. */
    method StoreOrStash(x: VertexRef) returns (stored: bool)
      requires Valid() && x < |arena.vertices| && arena.vertices[x].round >= 1
      modifies this`round, this`currentTimer, this`timers, this`wait, this`draws, this`outbox, this`buffer,
        this`stack, this`orderLog, this`lastOrderedRound, dag, arena, tso
      ensures Valid() && Kept(old(dag.matrix), dag.matrix) && old(orderLog) <= orderLog
      ensures old(round) <= round && old(arena.vertices) <= arena.vertices
      ensures stored ==>
        arena.vertices[x].round < |dag.matrix| && dag.matrix[arena.vertices[x].round][arena.vertices[x].source].Some?
      ensures !stored ==> HasKey(arena.vertices, buffer, x)
      ensures forall y :: y in buffer ==> y in old(buffer) || y == x
      ensures old(dag.matrix) == [] ==>
        !stored && buffer == BufInsert(arena.vertices, old(buffer), x) && unchanged(dag, arena, tso) &&
        round == old(round) && outbox == old(outbox) && timers == old(timers) && orderLog == old(orderLog)
    {
      ghost var v := arena.vertices[x];
      ghost var chain;
      stored, chain := TryAddToDag(x);
      GrewKept(old(dag.matrix), dag.matrix, selfId, (v.round, v.source));
      if !stored {
        Stash(x);
      }
    }

    /** `buffer.insert`: keep `x` for later, in key order. */
    method Stash(x: VertexRef)
      requires Valid() && x < |arena.vertices| && arena.vertices[x].round >= 1
      modifies this`buffer
      ensures Valid() && HasKey(arena.vertices, buffer, x) && buffer == BufInsert(arena.vertices, old(buffer), x)
      ensures forall y :: y in buffer ==> y in old(buffer) || y == x
    {
      ghost var b0 := buffer;
      buffer := BufInsert(arena.vertices, buffer, x);
      forall i | 0 <= i < |buffer|
        ensures arena.vertices[buffer[i]].round >= 1
      {
        assert buffer[i] in buffer;
        if buffer[i] != x {
          assert buffer[i] in b0;
        }
      }
      if !HasKey(arena.vertices, b0, x) {
        assert x in buffer;
        var i :| 0 <= i < |buffer| && buffer[i] == x;
        assert SameKey(arena.vertices[buffer[i]], arena.vertices[x]);
      }
    }

    /**
     * The drain of `on_message`: try to store every vertex the buffer held
     * on entry, in buffer order (the systems variant sorts them by round,
     * which keeps the buffer's (round, source) order).
     */
    method Drain()
      requires Valid()
      modifies this`round, this`currentTimer, this`timers, this`wait, this`draws, this`outbox, this`buffer,
        this`stack, this`orderLog, this`lastOrderedRound, dag, arena, tso
      ensures Valid() && Kept(old(dag.matrix), dag.matrix) && old(orderLog) <= orderLog
      ensures old(round) <= round && old(arena.vertices) <= arena.vertices
      ensures forall y :: y in buffer ==> y in old(buffer)
      ensures old(dag.matrix) == [] ==> unchanged(this, dag, arena, tso)
    {
      var pending := buffer;
      var i := 0;
      while i < |pending|
        invariant i <= |pending|
        invariant Valid() && Kept(old(dag.matrix), dag.matrix) && old(orderLog) <= orderLog
        invariant old(round) <= round && old(arena.vertices) <= arena.vertices
        invariant forall y :: y in buffer ==> y in old(buffer)
        invariant old(dag.matrix) == [] ==> unchanged(this, dag, arena, tso)
        invariant forall j :: 0 <= j < |pending| ==> pending[j] < |old(arena.vertices)| && old(arena.vertices)[pending[j]].round >= 1
      {
        ghost var a1, m1, b1 := arena.vertices, dag.matrix, buffer;
        assert pending[i] < |a1| && a1[pending[i]] == old(arena.vertices)[pending[i]];
        ghost var v := a1[pending[i]];
        var _, _ := TryAddToDag(pending[i]);
        GrewKept(m1, dag.matrix, selfId, (v.round, v.source));
        KeptTrans(old(dag.matrix), m1, dag.matrix);
        i := i + 1;
      }
    }

    /**
     * The round-advance rule of `on_message` after a vertex of round `vr`:
     * the protocols variant always tries; the other two only when `vr` is
     * the current round, and then at once after a timeout, else on an even
     * round once its anchor is stored, and on an odd round once a quorum
     * of its vertices link to the anchor of the round below.
     */
    predicate Proceeds(vr: nat)
      reads this`selfId, this`procNum, this`round, this`wait, dag, arena
      requires StoreOk() && round < |dag.matrix|
    {
      variant.Protocols? ||
      (vr == round &&
       (!wait ||
        if round % 2 == 0 then Anchor(round).Some?
        else
          Anchor(round - 1).Some? &&
          SteadyLinks(arena.vertices, dag.Row(round), Anchor(round - 1).value, ByKey(variant)) >= QuorumSize(procNum)))
    }

    /** Apply the round-advance rule after a vertex of round `vr`. */
    method Steady(vr: nat)
      requires Valid()
      modifies this`round, this`currentTimer, this`timers, this`wait, this`draws, this`outbox, this`buffer,
        this`stack, this`orderLog, this`lastOrderedRound, dag, arena, tso
      ensures Valid() && Kept(old(dag.matrix), dag.matrix) && old(orderLog) <= orderLog && old(arena.vertices) <= arena.vertices
      ensures round == old(round) + 1 <==>
        old(dag.matrix != [] && Proceeds(vr) && QuorumReached(round)) && old(round) < MAX_ROUND
      ensures round != old(round) + 1 ==> unchanged(this, dag, arena, tso)
    {
      // Before round 0 is stored there is no quorum to look for.
      if dag.matrix != [] && Proceeds(vr) {
        TryAdvanceRound();
      }
    }

    /**
     * `on_timer`: the current timer stops the wait and tries to advance;
     * any other timer is stale and ignored.
     */
    method OnTimer(id: nat)
      requires Valid() && dag.matrix != [] && TimerDelay(variant).Some?
      modifies this`round, this`currentTimer, this`timers, this`wait, this`draws, this`outbox, this`buffer,
        this`stack, this`orderLog, this`lastOrderedRound, dag, arena, tso
      ensures Valid() && Kept(old(dag.matrix), dag.matrix) && old(orderLog) <= orderLog
      ensures id != old(currentTimer) ==> unchanged(this, dag, arena, tso)
      ensures id == old(currentTimer) ==>
        (round == old(round) + 1 <==> old(QuorumReached(round)) && old(round) < MAX_ROUND) &&
        (round == old(round) ==> !wait) && (round == old(round) + 1 ==> wait && currentTimer == old(tso.counter))
    {
      if id == currentTimer {
        wait := false;
        TryAdvanceRound();
      }
    }
  }
}
