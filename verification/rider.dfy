/**
 * DAG-Rider (asynchronous DAG consensus in waves of four rounds) over the
 * round-based DAG store of the systems protocols. Delivered vertices wait
 * in a buffer; a periodic timer runs `construct`, which moves every
 * buffered vertex whose parents are stored into the store, then tries to
 * advance the round. Reaching the last round of a wave with a quorum
 * decides that wave when a quorum of its last round reaches the leader of
 * its first round, and the leaders of the undecided waves below that the
 * decided leader reaches are ordered first.
 *
 * What the process reliably broadcasts is appended to `outbox`, the
 * timers it asks for to `timers`; `orderLog` records, in order, the
 * leaders handed to `order_from`.
 */
module Rider {
  import opened Wrappers
  import opened Message
  import opened BcbCommon
  import opened Dag
  import opened DagConsensus
  import opened Bullshark
  import RoundDag

  /** `CONSTRUCTING_ROUTINE_INTERVAL`, in jiffies. */
  const CONSTRUCTING_ROUTINE_INTERVAL: nat := 500

  // Waves

  /** `round(w, k)`: the `k`-th round of wave `w`; waves count from 1. */
  function WaveRound(w: nat, k: nat): nat
    requires w >= 1
  {
    4 * (w - 1) + k
  }

  /** The wave of a round from 1, and its place in that wave. */
  function WaveOf(r: nat): (wk: (nat, nat))
    requires r >= 1
    ensures wk.0 >= 1 && 1 <= wk.1 <= 4
  {
    ((r - 1) / 4 + 1, (r - 1) % 4 + 1)
  }

  /**
   * Waves tile the rounds from 1: `WaveOf` undoes `WaveRound` on the four
   * rounds of a wave, and every round from 1 is one of them. In
   * particular the last round of wave `w` is `4 * w`, the round that
   * `try_advance_round` hands to `wave_ready` as `round / 4`.
   */
  lemma WaveRoundInverse(w: nat, k: nat, r: nat)
    ensures w >= 1 && 1 <= k <= 4 ==> WaveRound(w, k) >= 1 && WaveOf(WaveRound(w, k)) == (w, k)
    ensures r >= 1 ==> WaveRound(WaveOf(r).0, WaveOf(r).1) == r
    ensures w >= 1 ==> WaveRound(w, 4) == 4 * w && WaveRound(w, 1) % 4 == 1
  {
    if w >= 1 && 1 <= k <= 4 {
      var q, m := w - 1, k - 1;
      assert WaveRound(w, k) - 1 == 4 * q + m;
      DivModUnique(4 * q + m, q, m);
    }
    if r >= 1 {
      var q, m := (r - 1) / 4, (r - 1) % 4;
      assert r - 1 == 4 * q + m;
      assert WaveOf(r) == (q + 1, m + 1);
    }
    if w >= 1 {
      DivModUnique(4 * (w - 1) + 1, w - 1, 1);
    }
  }

  /** The first round of a wave is 1 modulo 4. */
  lemma FirstRoundOfWave(w: nat)
    requires w >= 1
    ensures WaveRound(w, 1) % 4 == 1
  {
    DivModUnique(WaveRound(w, 1), w - 1, 1);
  }

  /** A round from 4 that is a multiple of 4 is the last round of wave `r / 4`. */
  lemma LastRoundOfWave(r: nat)
    requires r % 4 == 0 && r != 0
    ensures r / 4 >= 1 && WaveRound(r / 4, 4) == r
  {
  }

  lemma DivModUnique(a: nat, q: nat, m: nat)
    requires m < 4 && a == 4 * q + m
    ensures a / 4 == q && a % 4 == m
  {
  }

  // The buffer step of `construct`

  /**
   * The filter of `construct`: `x` is not beyond the current round and
   * every strong edge is the very vertex stored in its slot.
   */
  predicate Addable(arena: seq<Vertex>, matrix: seq<Round>, round: nat, x: VertexRef)
    requires x < |arena|
  {
    arena[x].round <= round &&
    forall k :: 0 <= k < |arena[x].edges| ==>
      arena[x].edges[k] < |arena| && arena[arena[x].edges[k]].round < |matrix| &&
      arena[arena[x].edges[k]].source < |matrix[arena[arena[x].edges[k]].round]| &&
      matrix[arena[arena[x].edges[k]].round][arena[arena[x].edges[k]].source] == Some(arena[x].edges[k])
  }

  /** `ready_to_be_added`: the addable vertices of the buffer, in buffer order. */
  function ReadyOf(arena: seq<Vertex>, matrix: seq<Round>, round: nat, buf: seq<VertexRef>): (ready: seq<VertexRef>)
    requires forall i :: 0 <= i < |buf| ==> buf[i] < |arena|
    ensures |ready| <= |buf| && forall i :: 0 <= i < |ready| ==> ready[i] < |arena|
  {
    if buf == [] then []
    else
      assert forall i :: 0 <= i < |buf| - 1 ==> buf[1..][i] == buf[i + 1];
      (if Addable(arena, matrix, round, buf[0]) then [buf[0]] else []) + ReadyOf(arena, matrix, round, buf[1..])
  }

  /** `retain`: the vertices of the buffer with no ready vertex of their key. */
  function Retained(arena: seq<Vertex>, buf: seq<VertexRef>, ready: seq<VertexRef>): seq<VertexRef>
    requires forall i :: 0 <= i < |buf| ==> buf[i] < |arena|
    requires forall i :: 0 <= i < |ready| ==> ready[i] < |arena|
  {
    if buf == [] then []
    else
      assert forall i :: 0 <= i < |buf| - 1 ==> buf[1..][i] == buf[i + 1];
      (if HasKey(arena, ready, buf[0]) then [] else [buf[0]]) + Retained(arena, buf[1..], ready)
  }

  /** The ready vertices are exactly the addable ones of the buffer, in the buffer's order. */
  lemma {:induction false} ReadyOfMembers(arena: seq<Vertex>, matrix: seq<Round>, round: nat, buf: seq<VertexRef>)
    requires SortedBuffer(arena, buf)
    ensures forall y :: y in ReadyOf(arena, matrix, round, buf) <==> y in buf && Addable(arena, matrix, round, y)
    ensures SortedBuffer(arena, ReadyOf(arena, matrix, round, buf))
    decreases |buf|
  {
    if buf != [] {
      var tail := buf[1..];
      assert forall i :: 0 <= i < |tail| ==> tail[i] == buf[i + 1];
      ReadyOfMembers(arena, matrix, round, tail);
      var rest := ReadyOf(arena, matrix, round, tail);
      forall i | 0 <= i < |rest|
        ensures VertexLess(arena[buf[0]], arena[rest[i]])
      {
        assert rest[i] in rest;
        var j :| 0 <= j < |tail| && tail[j] == rest[i];
        assert buf[j + 1] == rest[i];
      }
    }
  }

  /**
   * `retain` after the filter keeps exactly the vertices of a sorted
   * buffer that are not addable, in order: the keys of a sorted buffer
   * are distinct, so no other vertex shares a ready vertex's key.
   */
  lemma RetainedMembers(arena: seq<Vertex>, matrix: seq<Round>, round: nat, buf: seq<VertexRef>)
    requires SortedBuffer(arena, buf)
    ensures forall y :: y in buf ==> (HasKey(arena, ReadyOf(arena, matrix, round, buf), y) <==> Addable(arena, matrix, round, y))
    ensures forall y :: y in Retained(arena, buf, ReadyOf(arena, matrix, round, buf)) <==> y in buf && !Addable(arena, matrix, round, y)
    ensures SortedBuffer(arena, Retained(arena, buf, ReadyOf(arena, matrix, round, buf)))
  {
    var ready := ReadyOf(arena, matrix, round, buf);
    ReadyOfMembers(arena, matrix, round, buf);
    forall y | y in buf
      ensures HasKey(arena, ready, y) <==> Addable(arena, matrix, round, y)
    {
      if Addable(arena, matrix, round, y) {
        assert y in ready;
        var i :| 0 <= i < |ready| && ready[i] == y;
        assert SameKey(arena[ready[i]], arena[y]);
      }
      if HasKey(arena, ready, y) {
        var i :| 0 <= i < |ready| && SameKey(arena[ready[i]], arena[y]);
        assert ready[i] in ready;
        var a :| 0 <= a < |buf| && buf[a] == ready[i];
        var b :| 0 <= b < |buf| && buf[b] == y;
      }
    }
    RetainedFilter(arena, matrix, round, buf, ready);
  }

  lemma {:induction false} RetainedFilter(arena: seq<Vertex>, matrix: seq<Round>, round: nat, buf: seq<VertexRef>, ready: seq<VertexRef>)
    requires SortedBuffer(arena, buf) && forall i :: 0 <= i < |ready| ==> ready[i] < |arena|
    requires forall y :: y in buf ==> (HasKey(arena, ready, y) <==> Addable(arena, matrix, round, y))
    ensures forall y :: y in Retained(arena, buf, ready) <==> y in buf && !Addable(arena, matrix, round, y)
    ensures SortedBuffer(arena, Retained(arena, buf, ready))
    decreases |buf|
  {
    if buf != [] {
      var tail := buf[1..];
      assert forall i :: 0 <= i < |tail| ==> tail[i] == buf[i + 1];
      assert forall y :: y in tail ==> y in buf;
      RetainedFilter(arena, matrix, round, tail, ready);
      var rest := Retained(arena, tail, ready);
      forall i | 0 <= i < |rest|
        ensures VertexLess(arena[buf[0]], arena[rest[i]])
      {
        assert rest[i] in rest;
        var j :| 0 <= j < |tail| && tail[j] == rest[i];
        assert buf[j + 1] == rest[i];
      }
    }
  }

  /**
   * `construct` moves the buffer: what it adds and what it keeps are the
   * buffer, each vertex once.
   */
  lemma {:induction false} ReadyAndRetainedSplit(arena: seq<Vertex>, matrix: seq<Round>, round: nat, buf: seq<VertexRef>, ready: seq<VertexRef>)
    requires (forall i :: 0 <= i < |buf| ==> buf[i] < |arena|) && forall i :: 0 <= i < |ready| ==> ready[i] < |arena|
    requires forall i :: 0 <= i < |buf| ==> (HasKey(arena, ready, buf[i]) <==> Addable(arena, matrix, round, buf[i]))
    ensures multiset(ReadyOf(arena, matrix, round, buf)) + multiset(Retained(arena, buf, ready)) == multiset(buf)
    decreases |buf|
  {
    if buf != [] {
      var h, tail := buf[0], buf[1..];
      assert forall i :: 0 <= i < |tail| ==> tail[i] == buf[i + 1];
      ReadyAndRetainedSplit(arena, matrix, round, tail, ready);
      var rt, kt := ReadyOf(arena, matrix, round, tail), Retained(arena, tail, ready);
      var r, k := ReadyOf(arena, matrix, round, buf), Retained(arena, buf, ready);
      assert buf == [h] + tail;
      SplitStep(h, tail, r, k, rt, kt, Addable(arena, matrix, round, h));
    }
  }

  /** Sending the head of a list to one side of a split of its tail splits the whole list. */
  lemma SplitStep<T>(h: T, tail: seq<T>, r: seq<T>, k: seq<T>, rt: seq<T>, kt: seq<T>, toReady: bool)
    requires multiset(rt) + multiset(kt) == multiset(tail)
    requires toReady ==> r == [h] + rt && k == kt
    requires !toReady ==> r == rt && k == [h] + kt
    ensures multiset(r) + multiset(k) == multiset([h] + tail)
  {
    assert multiset([h] + tail) == multiset{h} + multiset(tail);
    if toReady {
      assert multiset(r) == multiset{h} + multiset(rt);
    } else {
      assert multiset(k) == multiset{h} + multiset(kt);
    }
  }

  // The store step of `construct`

  /** One `add_vertex` into an allocated round: the slot of `x`'s key now holds `x`. */
  function Place(arena: seq<Vertex>, matrix: seq<Round>, x: VertexRef): seq<Round>
    requires x < |arena|
  {
    var r, s := arena[x].round, arena[x].source;
    if r < |matrix| && s < |matrix[r]| then matrix[r := matrix[r][s := Some(x)]] else matrix
  }

  /** `add_vertex` of each vertex of `xs` in turn. */
  function Placed(arena: seq<Vertex>, matrix: seq<Round>, xs: seq<VertexRef>): seq<Round>
    requires forall i :: 0 <= i < |xs| ==> xs[i] < |arena|
    decreases |xs|
  {
    if xs == [] then matrix else Place(arena, Placed(arena, matrix, xs[..|xs| - 1]), xs[|xs| - 1])
  }

  /** Slot `(r, s)` is the key of a vertex of `xs`. */
  predicate KeyIn(arena: seq<Vertex>, xs: seq<VertexRef>, r: nat, s: nat)
    requires forall i :: 0 <= i < |xs| ==> xs[i] < |arena|
  {
    exists i :: 0 <= i < |xs| && arena[xs[i]].round == r && arena[xs[i]].source == s
  }

  /**
   * Adding vertices of distinct keys whose slots exist keeps the shape of
   * the store, puts every one of them in its slot, and leaves every other
   * slot as it was.
   */
  lemma {:induction false} PlacedStores(arena: seq<Vertex>, matrix: seq<Round>, xs: seq<VertexRef>)
    requires SortedBuffer(arena, xs)
    requires forall i :: 0 <= i < |xs| ==> arena[xs[i]].round < |matrix| && arena[xs[i]].source < |matrix[arena[xs[i]].round]|
    ensures |Placed(arena, matrix, xs)| == |matrix|
    ensures forall r :: 0 <= r < |matrix| ==> |Placed(arena, matrix, xs)[r]| == |matrix[r]|
    ensures forall i :: 0 <= i < |xs| ==> Placed(arena, matrix, xs)[arena[xs[i]].round][arena[xs[i]].source] == Some(xs[i])
    ensures forall r, s :: 0 <= r < |matrix| && 0 <= s < |matrix[r]| && !KeyIn(arena, xs, r, s) ==>
      Placed(arena, matrix, xs)[r][s] == matrix[r][s]
    decreases |xs|
  {
    if xs != [] {
      var init := xs[..|xs| - 1];
      var x := xs[|xs| - 1];
      assert forall i :: 0 <= i < |init| ==> init[i] == xs[i];
      PlacedStores(arena, matrix, init);
      var m := Placed(arena, matrix, init);
      forall i | 0 <= i < |xs|
        ensures Placed(arena, matrix, xs)[arena[xs[i]].round][arena[xs[i]].source] == Some(xs[i])
      {
        if i < |xs| - 1 {
          assert VertexLess(arena[xs[i]], arena[x]);
        }
      }
      forall r, s | 0 <= r < |matrix| && 0 <= s < |matrix[r]| && !KeyIn(arena, xs, r, s)
        ensures Placed(arena, matrix, xs)[r][s] == matrix[r][s]
      {
        assert !KeyIn(arena, init, r, s) by {
          forall i | 0 <= i < |init|
            ensures !(arena[init[i]].round == r && arena[init[i]].source == s)
          {
            assert init[i] == xs[i];
          }
        }
        assert !(arena[x].round == r && arena[x].source == s) by {
          assert xs[|xs| - 1] == x;
        }
      }
    }
  }

  // A process

  /** How many vertices of `vs` reach `u` without going below `u`'s round. */
  ghost function ReachCount(arena: seq<Vertex>, vs: seq<VertexRef>, u: VertexRef): (c: nat)
    requires u < |arena|
    ensures c <= |vs|
  {
    if vs == [] then 0
    else ReachCount(arena, vs[..|vs| - 1], u) + if Reaches(arena, vs[|vs| - 1], u, arena[u].round) then 1 else 0
  }

  lemma ReachCountStep(arena: seq<Vertex>, vs: seq<VertexRef>, i: nat, u: VertexRef)
    requires i < |vs| && u < |arena|
    ensures ReachCount(arena, vs[..i + 1], u) ==
      ReachCount(arena, vs[..i], u) + if Reaches(arena, vs[i], u, arena[u].round) then 1 else 0
  {
    assert vs[..i + 1][..i] == vs[..i];
  }

  /** Vertices placed in rounds up to `r0` stay placed when the arena grows and those rounds are kept. */
  lemma StillPlaced(a0: seq<Vertex>, a1: seq<Vertex>, m1: seq<Round>, m2: seq<Round>, ready: seq<VertexRef>, r0: nat)
    requires a0 <= a1 && r0 < |m2| && forall r :: 0 <= r <= r0 ==> r < |m1| && m2[r] == m1[r]
    requires forall i :: 0 <= i < |ready| ==>
      ready[i] < |a0| && a0[ready[i]].round <= r0 && a0[ready[i]].round < |m1| && a0[ready[i]].source < |m1[a0[ready[i]].round]| &&
      m1[a0[ready[i]].round][a0[ready[i]].source] == Some(ready[i])
    ensures forall i :: 0 <= i < |ready| ==>
      ready[i] < |a1| && a1[ready[i]].round < |m2| && m2[a1[ready[i]].round][a1[ready[i]].source] == Some(ready[i])
  {
    forall i | 0 <= i < |ready|
      ensures ready[i] < |a1| && a1[ready[i]].round < |m2| && m2[a1[ready[i]].round][a1[ready[i]].source] == Some(ready[i])
    {
      assert a1[ready[i]] == a0[ready[i]];
      assert m2[a0[ready[i]].round] == m1[a0[ready[i]].round];
    }
  }

  /** The leader slot of wave `v` never holds a vertex of a later round. */
  lemma LeaderNotAbove(arena: seq<Vertex>, matrix: seq<Round>, n: nat, v: nat, x: VertexRef)
    requires n >= 1 && v >= 1 && Store(arena, matrix, n) && x < |arena| && WaveRound(v, 1) < arena[x].round < |matrix|
    ensures var l := LeaderSlot(matrix, n, v); l.Some? ==> l.value != x
  {
  }

  /** Pushing an anchor of wave round `r`, reached from the top of the stack, keeps the chain of wave rounds. */
  lemma StackPush(arena: seq<Vertex>, matrix: seq<Round>, n: nat, stack: seq<VertexRef>, lo: nat, x: VertexRef)
    requires Chain(arena, matrix, n, stack, lo) && x < |arena| && IsAnchor(arena, matrix, n, x)
    requires lo < arena[x].round < arena[stack[|stack| - 1]].round && arena[x].round % 4 == 1
    requires Reaches(arena, stack[|stack| - 1], x, arena[x].round)
    requires forall i :: 0 <= i < |stack| ==> arena[stack[i]].round % 4 == 1
    ensures Chain(arena, matrix, n, stack + [x], lo)
    ensures forall i :: 0 <= i < |stack + [x]| ==> arena[(stack + [x])[i]].round % 4 == 1
  {
    ChainExtend(arena, matrix, n, stack, lo, x);
    var s := stack + [x];
    assert forall i :: 0 <= i < |stack| ==> s[i] == stack[i];
  }

  lemma VoteStep(arena: seq<Vertex>, vs: seq<VertexRef>, i: nat, u: VertexRef, c: nat, found: bool, ku: bool)
    requires i < |vs| && u < |arena|
    requires c <= ReachCount(arena, vs[..i], u) && (ku ==> c == ReachCount(arena, vs[..i], u))
    requires found ==> Reaches(arena, vs[i], u, arena[u].round)
    requires ku && Reaches(arena, vs[i], u, arena[u].round) ==> found
    ensures c + (if found then 1 else 0) <= ReachCount(arena, vs[..i + 1], u)
    ensures ku ==> c + (if found then 1 else 0) == ReachCount(arena, vs[..i + 1], u)
  {
    ReachCountStep(arena, vs, i, u);
  }

  /** `get_wave_vertex_leader`: the vertex in the leader's slot of the first round of wave `w`, if any. */
  function LeaderSlot(matrix: seq<Round>, n: nat, w: nat): Option<VertexRef>
    requires n >= 1 && w >= 1 && WaveRound(w, 1) < |matrix| && |matrix[WaveRound(w, 1)]| == n + 1
  {
    matrix[WaveRound(w, 1)][LeaderId(WaveRound(w, 1), n)]
  }

  /**
   * The decision rule of `wave_ready`: the wave leader is stored and a
   * quorum of the vertices of the wave's last round reach it.
   */
  ghost predicate WaveCommits(arena: seq<Vertex>, matrix: seq<Round>, n: nat, w: nat)
    requires n >= 1 && w >= 1 && WaveRound(w, 4) < |matrix| && |matrix[WaveRound(w, 1)]| == n + 1
  {
    var l := LeaderSlot(matrix, n, w);
    l.Some? && l.value < |arena| && ReachCount(arena, Flatten(matrix[WaveRound(w, 4)]), l.value) >= QuorumSize(n)
  }

  /**
   * What the walk of `wave_ready` stacks below `top`, newest first, for
   * the waves `v`, `v - 1`, ... above the decided wave `d`: the leader of
   * each such wave that the last one stacked (at first `top`) reaches.
   */
  ghost function LeaderWalk(arena: seq<Vertex>, matrix: seq<Round>, n: nat, top: VertexRef, v: nat, d: nat): seq<VertexRef>
    requires n >= 1 && Rows(matrix, n + 1) && (v >= 1 ==> WaveRound(v, 1) < |matrix|)
    decreases v
  {
    if v <= d then []
    else
      var l := LeaderSlot(matrix, n, v);
      if l.Some? && l.value < |arena| && Reaches(arena, top, l.value, WaveRound(v, 1)) then [l.value] + LeaderWalk(arena, matrix, n, l.value, v - 1, d)
      else LeaderWalk(arena, matrix, n, top, v - 1, d)
  }

  /**
   * Where the walk of `wave_ready` from leader `a` of wave `w` stands at
   * wave `v`: `stack` is a chain of wave leaders from `a`, and, when no
   * two allocations share a slot, what is still to come is the rest of
   * the whole walk.
   */
  ghost predicate LeadersWalked(arena: seq<Vertex>, matrix: seq<Round>, n: nat, d: nat, w: nat, a: VertexRef, stack: seq<VertexRef>, v: nat)
  {
    (n >= 1 && Store(arena, matrix, n) && w >= 1 && v < w && WaveRound(w, 1) < |matrix| &&
     Chain(arena, matrix, n, stack, 4 * d) && stack[0] == a &&
     (forall i :: 0 <= i < |stack| ==> arena[stack[i]].round % 4 == 1) &&
     WaveRound(v + 1, 1) <= arena[stack[|stack| - 1]].round &&
     (KeyUnique(arena) ==> stack + LeaderWalk(arena, matrix, n, stack[|stack| - 1], v, d) == [a] + LeaderWalk(arena, matrix, n, a, w - 1, d))) == true
  }

  /** `LeaderWalk` at a wave above `d` whose leader is reached: that leader, then the walk below it. */
  lemma LeaderWalkFound(arena: seq<Vertex>, matrix: seq<Round>, n: nat, top: VertexRef, v: nat, d: nat, p: VertexRef)
    requires n >= 1 && Rows(matrix, n + 1) && d < v && WaveRound(v, 1) < |matrix|
    requires LeaderSlot(matrix, n, v) == Some(p) && p < |arena| && Reaches(arena, top, p, WaveRound(v, 1))
    ensures LeaderWalk(arena, matrix, n, top, v, d) == [p] + LeaderWalk(arena, matrix, n, p, v - 1, d)
  {
  }

  /** `LeaderWalk` at a wave above `d` whose leader is missing or not reached: the walk below it. */
  lemma LeaderWalkMissed(arena: seq<Vertex>, matrix: seq<Round>, n: nat, top: VertexRef, v: nat, d: nat)
    requires n >= 1 && Rows(matrix, n + 1) && d < v && WaveRound(v, 1) < |matrix|
    requires LeaderSlot(matrix, n, v).Some? && LeaderSlot(matrix, n, v).value < |arena| ==>
      !Reaches(arena, top, LeaderSlot(matrix, n, v).value, WaveRound(v, 1))
    ensures LeaderWalk(arena, matrix, n, top, v, d) == LeaderWalk(arena, matrix, n, top, v - 1, d)
  {
  }

  /** The walk starts from the leader `a` of wave `w` alone, at the wave below. */
  lemma LeadersWalkedStart(arena: seq<Vertex>, matrix: seq<Round>, n: nat, d: nat, w: nat, a: VertexRef)
    requires n >= 1 && Store(arena, matrix, n) && w >= 1 && d < w && WaveRound(w, 1) < |matrix|
    requires LeaderSlot(matrix, n, w) == Some(a)
    ensures LeadersWalked(arena, matrix, n, d, w, a, [a], w - 1)
  {
    FirstRoundOfWave(w);
  }

  /** Mid-walk, the stack is a chain of wave leaders whose newest entry lies above wave `v`. */
  lemma LeadersWalkedFacts(arena: seq<Vertex>, matrix: seq<Round>, n: nat, d: nat, w: nat, a: VertexRef, stack: seq<VertexRef>, v: nat)
    requires LeadersWalked(arena, matrix, n, d, w, a, stack, v)
    ensures |stack| >= 1 && Chain(arena, matrix, n, stack, 4 * d) && v < w
    ensures WaveRound(v + 1, 1) <= arena[stack[|stack| - 1]].round
    ensures forall i :: 0 <= i < |stack| ==> arena[stack[i]].round % 4 == 1
  {
  }

  /**
   * One wave of the walk above the decided wave `d`: stacking the leader
   * found, or nothing, keeps the walk where it should be one wave down.
   */
  lemma LeadersWalkedNext(arena: seq<Vertex>, matrix: seq<Round>, n: nat, d: nat, w: nat, a: VertexRef, stack: seq<VertexRef>, stack': seq<VertexRef>, v: nat)
    requires LeadersWalked(arena, matrix, n, d, w, a, stack, v) && d < v
    requires var l := LeaderSlot(matrix, n, v);
      stack' == stack || (l.Some? && stack' == stack + [l.value] && Reaches(arena, stack[|stack| - 1], l.value, WaveRound(v, 1)))
    requires var l := LeaderSlot(matrix, n, v);
      KeyUnique(arena) && l.Some? && Reaches(arena, stack[|stack| - 1], l.value, WaveRound(v, 1)) ==> stack' == stack + [l.value]
    ensures LeadersWalked(arena, matrix, n, d, w, a, stack', v - 1)
  {
    hide LeaderWalk;
    var top := stack[|stack| - 1];
    var goal := [a] + LeaderWalk(arena, matrix, n, a, w - 1, d);
    assert KeyUnique(arena) ==> stack + LeaderWalk(arena, matrix, n, top, v, d) == goal;
    var l := LeaderSlot(matrix, n, v);
    if stack' != stack {
      var p := l.value;
      assert p < |arena| && arena[p].round == WaveRound(v, 1);
      FirstRoundOfWave(v);
      StackPush(arena, matrix, n, stack, 4 * d, p);
      if KeyUnique(arena) {
        LeaderWalkFound(arena, matrix, n, top, v, d, p);
        assert stack' + LeaderWalk(arena, matrix, n, p, v - 1, d) == stack + ([p] + LeaderWalk(arena, matrix, n, p, v - 1, d));
      }
    } else {
      LeaderNotAbove(arena, matrix, n, v, top);
      if KeyUnique(arena) {
        LeaderWalkMissed(arena, matrix, n, top, v, d);
      }
    }
  }

  /** Once at the decided wave, the stack is the whole walk. */
  lemma LeadersWalkedDone(arena: seq<Vertex>, matrix: seq<Round>, n: nat, d: nat, w: nat, a: VertexRef, stack: seq<VertexRef>, v: nat)
    requires LeadersWalked(arena, matrix, n, d, w, a, stack, v) && v <= d
    ensures Chain(arena, matrix, n, stack, 4 * d) && stack[0] == a
    ensures forall i :: 0 <= i < |stack| ==> arena[stack[i]].round % 4 == 1
    ensures KeyUnique(arena) ==> stack == [a] + LeaderWalk(arena, matrix, n, a, w - 1, d)
  {
    if KeyUnique(arena) {
      assert LeaderWalk(arena, matrix, n, stack[|stack| - 1], v, d) == [];
      assert stack + [] == stack;
    }
  }

  class DagRider {
    const dag: RoundDag.RoundBasedDag
    const arena: Arena
    var selfId: ProcessId
    var procNum: nat
    var round: nat
    /** Delivered vertices not yet added to the store. */
    var buffer: seq<VertexRef>
    var decidedWave: nat
    var leadersStack: seq<VertexRef>
    /** Vertices handed to reliable broadcast. */
    var outbox: seq<Announce>
    /** Delays of the timers asked of the simulator. */
    var timers: seq<nat>
    /** The leaders handed to `order_from`, in order. */
    ghost var orderLog: seq<VertexRef>

    /**
     * A started process over a store with one row of `procNum + 1` slots
     * per round from 0, each slot holding only its own vertex, in a run
     * whose strong edges go down.
     */
    ghost predicate StoreOk()
      reads this`selfId, this`procNum, dag, arena
    {
      (1 <= selfId <= procNum &&
       dag.Valid() && dag.procNum == procNum && dag.gcOffset == 0 &&
       Store(arena.vertices, dag.matrix, procNum) && World(arena.vertices, procNum)) == true
    }

    /** The buffer is sorted and holds vertices above round 0. */
    ghost predicate BufferOk()
      reads this`buffer, arena
    {
      SortedBuffer(arena.vertices, buffer) && forall i :: 0 <= i < |buffer| ==> arena.vertices[buffer[i]].round >= 1
    }

    /**
     * What holds between handlers: the current round is stored, and the
     * last decided wave ended below it.
     */
    ghost predicate Valid()
      reads this`selfId, this`procNum, this`buffer, this`round, this`decidedWave, this`leadersStack, dag, arena
    {
      StoreOk() && BufferOk() && round < |dag.matrix| && leadersStack == [] &&
      (decidedWave == 0 || 4 * decidedWave < round)
    }

    /** `Default`: no process yet, nothing stored. */
    constructor (arena: Arena)
      ensures this.arena == arena && fresh(dag) && dag.Valid() && dag.matrix == [] && dag.gcOffset == 0
      ensures selfId == 0 && procNum == 0 && round == 0 && buffer == [] && decidedWave == 0 && leadersStack == []
      ensures outbox == [] && timers == [] && orderLog == []
    {
      this.arena := arena;
      dag := new RoundDag.RoundBasedDag();
      selfId, procNum, round, buffer, decidedWave, leadersStack := 0, 0, 0, [], 0, [];
      outbox, timers := [], [];
      orderLog := [];
    }

    /**
     * `start`: learn the own id and the number of processes, size the
     * rounds, schedule `construct`, store a fresh genesis vertex and
     * reliably broadcast it.
     */
    method Start(id: ProcessId, n: nat)
      requires 1 <= id <= n && World(arena.vertices, n)
      requires dag.Valid() && dag.matrix == [] && dag.gcOffset == 0
      requires round == 0 && buffer == [] && decidedWave == 0 && leadersStack == []
      modifies this`selfId, this`procNum, this`timers, this`outbox, dag, arena
      ensures Valid() && selfId == id && procNum == n
      ensures arena.vertices == old(arena.vertices) + [Vertex(0, id, [])]
      ensures |dag.matrix| == 1 && |dag.matrix[0]| == n + 1 &&
        forall s :: 0 <= s <= n ==> dag.matrix[0][s] == if s == id then Some(|old(arena.vertices)|) else None
      ensures outbox == old(outbox) + [GenesisOf(|old(arena.vertices)|)]
      ensures timers == old(timers) + [CONSTRUCTING_ROUTINE_INTERVAL]
    {
      selfId := id;
      procNum := n;
      dag.SetRoundSize(n);
      timers := timers + [CONSTRUCTING_ROUTINE_INTERVAL];
      ArenaGrows(arena.vertices, Vertex(0, id, []), dag.matrix, buffer, n);
      var g := arena.Alloc(Vertex(0, id, []));
      AddToStore(g);
      outbox := outbox + [GenesisOf(g)];
    }

    /** `add_vertex` of `x` into an allocated round or the next one, keeping the store's shape. */
    method AddToStore(x: VertexRef)
      requires StoreOk() && x < |arena.vertices| && arena.vertices[x].round <= |dag.matrix|
      modifies dag
      ensures StoreOk() && |dag.matrix| == if arena.vertices[x].round < |old(dag.matrix)| then |old(dag.matrix)| else arena.vertices[x].round + 1
      ensures dag.matrix[arena.vertices[x].round][arena.vertices[x].source] == Some(x)
      ensures arena.vertices[x].round < |old(dag.matrix)| ==> dag.matrix == Place(arena.vertices, old(dag.matrix), x)
      ensures forall r :: 0 <= r < |old(dag.matrix)| && r != arena.vertices[x].round ==> dag.matrix[r] == old(dag.matrix)[r]
      ensures arena.vertices[x].round < |old(dag.matrix)| ==> dag.ordered == old(dag.ordered)
      ensures arena.vertices[x].round == |old(dag.matrix)| ==>
        forall s :: 0 <= s < |dag.matrix[arena.vertices[x].round]| && s != arena.vertices[x].source ==>
          dag.matrix[arena.vertices[x].round][s] == None
    {
      ghost var m0 := dag.matrix;
      dag.AddVertex(arena.vertices[x], x);
      StoreAfterAdd(arena.vertices, m0, dag.matrix, procNum, x);
    }

    /** `on_message` on a genesis vertex `x`: store it in its slot of round 0. */
    method DeliverGenesis(x: VertexRef)
      requires Valid() && x < |arena.vertices| && arena.vertices[x].round == 0
      modifies dag
      ensures Valid() && dag.matrix == Place(arena.vertices, old(dag.matrix), x)
      ensures dag.matrix[0][arena.vertices[x].source] == Some(x)
    {
      AddToStore(x);
    }

    /**
     * `on_message` on a vertex `x` that reliable broadcast delivered from
     * `from`: drop it when it is bad, otherwise buffer it.
     */
    method DeliverVertex(from: ProcessId, x: VertexRef)
      requires Valid() && x < |arena.vertices|
      modifies this`buffer
      ensures Valid()
      ensures BadVertex(arena.vertices[x], from, procNum) ==> buffer == old(buffer)
      ensures !BadVertex(arena.vertices[x], from, procNum) ==>
        HasKey(arena.vertices, buffer, x) &&
        (forall y :: y in old(buffer) ==> y in buffer) && (forall y :: y in buffer ==> y in old(buffer) || y == x)
    {
      if BadVertex(arena.vertices[x], from, procNum) {
        return;
      }
      ghost var v := arena.vertices[x];
      assert v.edges[0] in v.edges && arena.vertices[v.edges[0]].round < v.round;
      ghost var b0 := buffer;
      buffer := BufInsert(arena.vertices, buffer, x);
      forall i | 0 <= i < |buffer|
        ensures arena.vertices[buffer[i]].round >= 1
      {
        assert buffer[i] in buffer;
        if buffer[i] != x {
          assert buffer[i] in b0;
        }
      }
      if !HasKey(arena.vertices, b0, x) {
        assert x in buffer;
        var i :| 0 <= i < |buffer| && buffer[i] == x;
        assert SameKey(arena.vertices[buffer[i]], arena.vertices[x]);
      }
    }

    /** `on_timer`: run `construct`. */
    method OnTimer()
      requires Valid()
      modifies this`round, this`buffer, this`decidedWave, this`leadersStack, this`outbox, this`timers, this`orderLog, dag, arena
      ensures Valid() && old(arena.vertices) <= arena.vertices && old(orderLog) <= orderLog
      ensures var ready := ReadyOf(old(arena.vertices), old(dag.matrix), old(round), old(buffer));
        buffer == Retained(old(arena.vertices), old(buffer), ready) &&
        forall i :: 0 <= i < |ready| ==>
          ready[i] < |arena.vertices| && arena.vertices[ready[i]].round < |dag.matrix| &&
          dag.matrix[arena.vertices[ready[i]].round][arena.vertices[ready[i]].source] == Some(ready[i])
      ensures timers == old(timers) + [CONSTRUCTING_ROUTINE_INTERVAL]
    {
      ghost var ready := Construct();
    }

    /**
     * `construct`: add the ready vertices of the buffer, try to advance
     * the round, and schedule the next run.
     */
    method Construct() returns (ghost ready: seq<VertexRef>)
      requires Valid()
      modifies this`round, this`buffer, this`decidedWave, this`leadersStack, this`outbox, this`timers, this`orderLog, dag, arena
      ensures Valid() && old(arena.vertices) <= arena.vertices && old(orderLog) <= orderLog
      ensures ready == ReadyOf(old(arena.vertices), old(dag.matrix), old(round), old(buffer))
      ensures buffer == Retained(old(arena.vertices), old(buffer), ready)
      ensures forall i :: 0 <= i < |ready| ==>
        ready[i] < |arena.vertices| && arena.vertices[ready[i]].round < |dag.matrix| &&
        dag.matrix[arena.vertices[ready[i]].round][arena.vertices[ready[i]].source] == Some(ready[i])
      ensures timers == old(timers) + [CONSTRUCTING_ROUTINE_INTERVAL]
    {
      ghost var a0, r0 := arena.vertices, round;
      ready := AddReady();
      ghost var m1 := dag.matrix;
      TryAdvanceRound();
      StillPlaced(a0, arena.vertices, m1, dag.matrix, ready, r0);
      timers := timers + [CONSTRUCTING_ROUTINE_INTERVAL];
    }

    /**
     * The first half of `construct`: collect the ready vertices, keep the
     * others in the buffer, and add the ready ones to the store in order.
     */
    method AddReady() returns (ghost ready: seq<VertexRef>)
      requires Valid()
      modifies this`buffer, dag
      ensures Valid() && ready == ReadyOf(arena.vertices, old(dag.matrix), round, old(buffer))
      ensures buffer == Retained(arena.vertices, old(buffer), ready)
      ensures dag.matrix == Placed(arena.vertices, old(dag.matrix), ready)
      ensures forall i :: 0 <= i < |ready| ==>
        ready[i] < |arena.vertices| && arena.vertices[ready[i]].round <= round &&
        arena.vertices[ready[i]].source < |dag.matrix[arena.vertices[ready[i]].round]| &&
        dag.matrix[arena.vertices[ready[i]].round][arena.vertices[ready[i]].source] == Some(ready[i])
      ensures dag.ordered == old(dag.ordered)
    {
      var toAdd := ReadyOf(arena.vertices, dag.matrix, round, buffer);
      ready := toAdd;
      ghost var m0 := dag.matrix;
      ReadyOfMembers(arena.vertices, dag.matrix, round, buffer);
      forall i | 0 <= i < |toAdd|
        ensures arena.vertices[toAdd[i]].round <= round && arena.vertices[toAdd[i]].source < |m0[arena.vertices[toAdd[i]].round]|
      {
        assert toAdd[i] in toAdd;
      }
      Retain(toAdd);
      AddAll(toAdd);
      PlacedStores(arena.vertices, m0, toAdd);
    }

    /** `retain`: keep in the buffer what `ready`, the filter's result, does not hold. */
    method Retain(ready: seq<VertexRef>)
      requires Valid() && ready == ReadyOf(arena.vertices, dag.matrix, round, buffer)
      modifies this`buffer
      ensures Valid() && buffer == Retained(arena.vertices, old(buffer), ready)
    {
      ghost var b0 := buffer;
      RetainedMembers(arena.vertices, dag.matrix, round, buffer);
      buffer := Retained(arena.vertices, buffer, ready);
      forall i | 0 <= i < |buffer|
        ensures arena.vertices[buffer[i]].round >= 1
      {
        assert buffer[i] in buffer;
        assert buffer[i] in b0;
      }
    }

    /** The `for_each` of `construct`: `add_vertex` of each ready vertex in turn. */
    method AddAll(ready: seq<VertexRef>)
      requires Valid() && forall i :: 0 <= i < |ready| ==> ready[i] < |arena.vertices| && arena.vertices[ready[i]].round <= round
      modifies dag
      ensures Valid() && dag.matrix == Placed(arena.vertices, old(dag.matrix), ready) && dag.ordered == old(dag.ordered)
    {
      ghost var A, m0 := arena.vertices, dag.matrix;
      var i := 0;
      while i < |ready|
        invariant i <= |ready| && Valid()
        invariant dag.matrix == Placed(A, m0, ready[..i]) && |dag.matrix| == |m0| && dag.ordered == old(dag.ordered)
      {
        assert ready[..i + 1][..i] == ready[..i];
        AddToStore(ready[i]);
        i := i + 1;
      }
      assert ready[..i] == ready;
    }

    /** `quorum_reached_for_round`: a stored round holds a quorum of vertices. */
    predicate QuorumReached(r: nat)
      reads this`procNum, dag
      requires procNum >= 1 && dag.gcOffset == 0 && r < |dag.matrix|
    {
      |Flatten(dag.Row(r))| >= QuorumSize(procNum)
    }

    /**
     * `try_advance_round`: on a quorum in the current round, move to the
     * next round and broadcast the own vertex of that round, first
     * deciding the wave that the current round ends.
     */
    method TryAdvanceRound()
      requires Valid()
      modifies this`round, this`decidedWave, this`leadersStack, this`outbox, this`orderLog, dag, arena
      ensures Valid() && old(arena.vertices) <= arena.vertices && old(orderLog) <= orderLog && old(round) <= round
      ensures forall r :: 0 <= r <= old(round) ==> dag.matrix[r] == old(dag.matrix)[r]
      ensures round == old(round) + 1 <==> old(QuorumReached(round)) && old(round) < MAX_ROUND
      ensures round == old(round) + 1 ==>
        arena.vertices == old(arena.vertices) + [Vertex(round, selfId, Flatten(old(dag.matrix)[round - 1]))] &&
        outbox == old(outbox) + [VertexOf(|old(arena.vertices)|)] &&
        dag.matrix[round][selfId] == Some(|old(arena.vertices)|)
      ensures round != old(round) + 1 ==> unchanged(this, dag, arena)
    {
      if QuorumReached(round) && round < MAX_ROUND {
        Advance();
      }
    }

    /** The advancing branch of `try_advance_round`. */
    method Advance()
      requires Valid() && QuorumReached(round) && round < MAX_ROUND
      modifies this`round, this`decidedWave, this`leadersStack, this`outbox, this`orderLog, dag, arena
      ensures Valid() && round == old(round) + 1 && old(orderLog) <= orderLog
      ensures forall r :: 0 <= r <= old(round) ==> dag.matrix[r] == old(dag.matrix)[r]
      ensures arena.vertices == old(arena.vertices) + [Vertex(round, selfId, Flatten(old(dag.matrix)[round - 1]))]
      ensures outbox == old(outbox) + [VertexOf(|old(arena.vertices)|)]
      ensures dag.matrix[round][selfId] == Some(|old(arena.vertices)|)
      ensures decidedWave == old(decidedWave) || (old(round) % 4 == 0 && old(round) != 0 && decidedWave == old(round) / 4)
    {
      ghost var m0, a0 := dag.matrix, arena.vertices;
      DecideWave();
      assert dag.matrix == m0 && arena.vertices == a0;
      ghost var log1, dw := orderLog, decidedWave;
      round := round + 1;
      BroadcastVertex();
      assert orderLog == log1 && decidedWave == dw;
    }

    /** The wave step of `try_advance_round`: a current round that ends a wave decides it. */
    method DecideWave()
      requires Valid()
      modifies this`decidedWave, this`leadersStack, this`orderLog, dag
      ensures StoreOk() && BufferOk() && round < |dag.matrix| && leadersStack == []
      ensures dag.matrix == old(dag.matrix) && old(orderLog) <= orderLog && 4 * decidedWave <= round
      ensures round % 4 == 0 && round != 0 && decidedWave == round / 4 ==> WaveCommits(arena.vertices, dag.matrix, procNum, round / 4)
      ensures round % 4 == 0 && round != 0 && KeyUnique(arena.vertices) && WaveCommits(arena.vertices, dag.matrix, procNum, round / 4) ==>
        decidedWave == round / 4
      ensures decidedWave == old(decidedWave) || (round % 4 == 0 && round != 0 && decidedWave == round / 4)
    {
      if round % 4 == 0 && round != 0 {
        LastRoundOfWave(round);
        var _ := WaveReady(round / 4);
      }
    }

    /** The own vertex of the new round: made, stored and reliably broadcast. */
    method BroadcastVertex()
      requires StoreOk() && BufferOk() && leadersStack == [] && 1 <= round <= |dag.matrix| && round <= MAX_ROUND
      requires decidedWave == 0 || 4 * decidedWave < round
      modifies this`outbox, dag, arena
      ensures Valid() && round < |dag.matrix|
      ensures forall r :: 0 <= r < round ==> dag.matrix[r] == old(dag.matrix)[r]
      ensures arena.vertices == old(arena.vertices) + [Vertex(round, selfId, Flatten(old(dag.matrix)[round - 1]))]
      ensures outbox == old(outbox) + [VertexOf(|old(arena.vertices)|)]
      ensures dag.matrix[round][selfId] == Some(|old(arena.vertices)|)
    {
      var x := NewOwnVertex();
      AddToStore(x);
      outbox := outbox + [VertexOf(x)];
    }

    /** The own vertex of the current round, with a strong edge to every vertex of the round before. */
    method NewOwnVertex() returns (x: VertexRef)
      requires StoreOk() && BufferOk() && 1 <= round <= |dag.matrix| && round <= MAX_ROUND
      modifies arena
      ensures StoreOk() && BufferOk()
      ensures x == |old(arena.vertices)| && arena.vertices == old(arena.vertices) + [Vertex(round, selfId, Flatten(dag.matrix[round - 1]))]
    {
      var v := Vertex(round, selfId, Flatten(dag.matrix[round - 1]));
      FlattenMembers(dag.matrix[round - 1]);
      OwnVertexFits(arena.vertices, dag.matrix, buffer, procNum, v);
      x := arena.Alloc(v);
    }

    // Waves

    /** `get_wave_vertex_leader`: the vertex in the leader's slot of the first round of wave `w`. */
    function WaveLeader(w: nat): (l: Option<VertexRef>)
      reads this`selfId, this`procNum, dag, arena
      requires StoreOk() && w >= 1 && WaveRound(w, 1) < |dag.matrix|
      ensures l.Some? ==> l.value < |arena.vertices| && arena.vertices[l.value].round == WaveRound(w, 1)
      ensures l.Some? ==> IsAnchor(arena.vertices, dag.matrix, procNum, l.value)
    {
      LeaderSlot(dag.matrix, procNum, w)
    }

    /**
     * `wave_ready`: decide wave `w` when it commits, stacking its leader
     * and every leader of an undecided wave below that the last stacked
     * leader reaches, then order the stack, oldest first. A leader is
     * found by `path_exists`, which is exact when every key names one
     * vertex and otherwise may miss a path.
     */
    method WaveReady(w: nat) returns (ghost chain: seq<VertexRef>)
      requires StoreOk() && leadersStack == [] && w >= 1 && WaveRound(w, 4) < |dag.matrix| && decidedWave < w
      modifies this`leadersStack, this`decidedWave, this`orderLog, dag
      ensures StoreOk() && leadersStack == [] && dag.matrix == old(dag.matrix)
      ensures decidedWave == w || decidedWave == old(decidedWave)
      ensures decidedWave == w ==> WaveCommits(arena.vertices, dag.matrix, procNum, w)
      ensures KeyUnique(arena.vertices) && WaveCommits(arena.vertices, dag.matrix, procNum, w) ==> decidedWave == w
      ensures decidedWave == w ==>
        Chain(arena.vertices, dag.matrix, procNum, chain, 4 * old(decidedWave)) && LeaderSlot(dag.matrix, procNum, w) == Some(chain[0]) &&
        (forall i :: 0 <= i < |chain| ==> arena.vertices[chain[i]].round % 4 == 1) &&
        orderLog == old(orderLog) + Reverse(chain) && Grows(old(dag.ordered), dag.ordered)
      ensures decidedWave == w && KeyUnique(arena.vertices) ==>
        chain == [chain[0]] + LeaderWalk(arena.vertices, dag.matrix, procNum, chain[0], w - 1, old(decidedWave))
      ensures decidedWave != w ==> orderLog == old(orderLog) && dag.ordered == old(dag.ordered)
    {
      hide LeaderWalk;
      var leader := CommittedLeader(w);
      if leader.None? {
        return [];
      }
      chain := CollectLeaders(w, leader.value);
      decidedWave := w;
      ghost var log0, ord0 := orderLog, dag.ordered;
      OrderVertices();
      assert orderLog == log0 + Reverse(chain) && Grows(ord0, dag.ordered);
    }

    /** The decision of `wave_ready`: the leader of wave `w` when it is stored and a quorum of `path_exists` searches find it. */
    method CommittedLeader(w: nat) returns (leader: Option<VertexRef>)
      requires StoreOk() && w >= 1 && WaveRound(w, 4) < |dag.matrix|
      modifies dag
      ensures StoreOk() && dag.matrix == old(dag.matrix) && dag.ordered == old(dag.ordered)
      ensures leader.Some? ==> leader == LeaderSlot(dag.matrix, procNum, w) && WaveCommits(arena.vertices, dag.matrix, procNum, w)
      ensures KeyUnique(arena.vertices) && WaveCommits(arena.vertices, dag.matrix, procNum, w) ==> leader.Some?
    {
      leader := WaveLeader(w);
      if leader.None? {
        return;
      }
      var votes := PathVotes(WaveRound(w, 4), leader.value);
      if votes < QuorumSize(procNum) {
        leader := None;
      }
    }

    /**
     * The count of `wave_ready`: how many vertices of round `r` the search
     * `path_exists` finds a path from to `u`.
     */
    method PathVotes(r: nat, u: VertexRef) returns (c: nat)
      requires StoreOk() && r < |dag.matrix| && u < |arena.vertices|
      modifies dag
      ensures StoreOk() && dag.matrix == old(dag.matrix) && dag.ordered == old(dag.ordered)
      ensures c <= ReachCount(arena.vertices, Flatten(dag.matrix[r]), u)
      ensures KeyUnique(arena.vertices) ==> c == ReachCount(arena.vertices, Flatten(dag.matrix[r]), u)
    {
      var vs := Flatten(dag.matrix[r]);
      ghost var A, m, ku := arena.vertices, dag.matrix, KeyUnique(arena.vertices);
      c := 0;
      var i := 0;
      while i < |vs|
        invariant i <= |vs| && StoreOk() && dag.matrix == m && dag.ordered == old(dag.ordered)
        invariant c <= ReachCount(A, vs[..i], u) && (ku ==> c == ReachCount(A, vs[..i], u))
      {
        assert vs[i] in vs;
        var found := Search(r, vs[i], u);
        VoteStep(A, vs, i, u, c, found, ku);
        if found {
          c := c + 1;
        }
        i := i + 1;
      }
      assert vs[..i] == vs;
      assert arena.vertices == A;
    }

    /** One `path_exists` search from `v`, a vertex of round `r`, to `u`. */
    method Search(r: nat, v: VertexRef, u: VertexRef) returns (found: bool)
      requires StoreOk() && r < |dag.matrix| && v in Flatten(dag.matrix[r]) && u < |arena.vertices|
      modifies dag
      ensures StoreOk() && dag.matrix == old(dag.matrix) && dag.ordered == old(dag.ordered)
      ensures found ==> Reaches(arena.vertices, v, u, arena.vertices[u].round)
      ensures KeyUnique(arena.vertices) && Reaches(arena.vertices, v, u, arena.vertices[u].round) ==> found
    {
      FlattenInSlots(arena.vertices, dag.matrix, r, v);
      SearchFits(arena.vertices, dag.matrix, dag.visited, procNum, v, arena.vertices[u].round);
      DescendingWellFormed(arena.vertices);
      found := dag.PathExists(arena.vertices, v, u);
    }

    /**
     * The walk of `wave_ready`: from leader `a` of wave `w`, through the
     * undecided waves below it, newest first, stack every wave leader
     * that the last one stacked reaches.
     */
    method CollectLeaders(w: nat, a: VertexRef) returns (ghost chain: seq<VertexRef>)
      requires StoreOk() && leadersStack == [] && w >= 1 && WaveRound(w, 1) < |dag.matrix| && decidedWave < w
      requires WaveLeader(w) == Some(a)
      modifies this`leadersStack, dag
      ensures StoreOk() && dag.matrix == old(dag.matrix) && dag.ordered == old(dag.ordered)
      ensures chain == leadersStack && Chain(arena.vertices, dag.matrix, procNum, chain, 4 * decidedWave) && chain[0] == a
      ensures forall i :: 0 <= i < |chain| ==> arena.vertices[chain[i]].round % 4 == 1
      ensures KeyUnique(arena.vertices) ==> chain == [a] + LeaderWalk(arena.vertices, dag.matrix, procNum, a, w - 1, decidedWave)
    {
      // The walk is followed through `LeadersWalked`; its definition is not needed here.
      hide LeaderWalk, LeadersWalked;
      ghost var A, m, n, d := arena.vertices, dag.matrix, procNum, decidedWave;
      // The stack is built locally and stored once the walk is done.
      var pushed := [a];
      var v: nat := w - 1;
      LeadersWalkedStart(A, m, n, d, w, a);
      while v > decidedWave
        invariant StoreOk() && dag.matrix == m && dag.ordered == old(dag.ordered)
        invariant LeadersWalked(A, m, n, d, w, a, pushed, v)
        decreases v
      {
        pushed := WalkWave(A, m, n, d, w, a, pushed, v);
        v := v - 1;
      }
      LeadersWalkedDone(A, m, n, d, w, a, pushed, v);
      leadersStack := pushed;
      chain := leadersStack;
    }

    /** `StackLeader` inside the walk from leader `a` of wave `w`: the walk moves one wave down. */
    method WalkWave(ghost A: seq<Vertex>, ghost m: seq<Round>, ghost n: nat, ghost d: nat, ghost w: nat, ghost a: VertexRef, stack: seq<VertexRef>, v: nat)
      returns (stack': seq<VertexRef>)
      requires StoreOk() && A == arena.vertices && m == dag.matrix && n == procNum && d < v
      requires LeadersWalked(A, m, n, d, w, a, stack, v)
      modifies dag
      ensures StoreOk() && dag.matrix == m && dag.ordered == old(dag.ordered)
      ensures LeadersWalked(A, m, n, d, w, a, stack', v - 1)
    {
      LeadersWalkedFacts(A, m, n, d, w, a, stack, v);
      stack' := StackLeader(v, 4 * d, stack);
      LeadersWalkedNext(A, m, n, d, w, a, stack, stack', v);
    }

    /**
     * One wave of the walk of `wave_ready`: stack the leader of wave `v`
     * when it exists and `path_exists` finds it from the last one stacked.
     */
    method StackLeader(v: nat, ghost lo: nat, stack: seq<VertexRef>) returns (stack': seq<VertexRef>)
      requires StoreOk() && v >= 1 && lo < WaveRound(v, 1) && |stack| >= 1
      requires Chain(arena.vertices, dag.matrix, procNum, stack, lo)
      requires WaveRound(v + 1, 1) <= arena.vertices[stack[|stack| - 1]].round
      requires forall i :: 0 <= i < |stack| ==> arena.vertices[stack[i]].round % 4 == 1
      modifies dag
      ensures StoreOk() && dag.matrix == old(dag.matrix) && dag.ordered == old(dag.ordered)
      ensures Chain(arena.vertices, dag.matrix, procNum, stack', lo)
      ensures WaveRound(v, 1) <= arena.vertices[stack'[|stack'| - 1]].round
      ensures forall i :: 0 <= i < |stack'| ==> arena.vertices[stack'[i]].round % 4 == 1
      ensures var l := LeaderSlot(dag.matrix, procNum, v);
        stack' == stack || (l.Some? && stack' == stack + [l.value] && Reaches(arena.vertices, stack[|stack| - 1], l.value, WaveRound(v, 1)))
      ensures var l := LeaderSlot(dag.matrix, procNum, v);
        KeyUnique(arena.vertices) && l.Some? && Reaches(arena.vertices, stack[|stack| - 1], l.value, WaveRound(v, 1)) ==> stack' == stack + [l.value]
    {
      ghost var A, m := arena.vertices, dag.matrix;
      var leader := stack[|stack| - 1];
      var prev := ReachedLeader(leader, v);
      if prev.Some? {
        FirstRoundOfWave(v);
        StackPush(A, m, procNum, stack, lo, prev.value);
        stack' := stack + [prev.value];
      } else {
        LeaderNotAbove(A, m, procNum, v, leader);
        stack' := stack;
      }
    }

    /** One step of the walk of `wave_ready`: the leader of wave `v`, when it exists and `path_exists` finds it from `leader`. */
    method ReachedLeader(leader: VertexRef, v: nat) returns (p: Option<VertexRef>)
      requires StoreOk() && v >= 1 && leader < |arena.vertices| && WaveRound(v, 1) < arena.vertices[leader].round < |dag.matrix|
      modifies dag
      ensures StoreOk() && dag.matrix == old(dag.matrix) && dag.ordered == old(dag.ordered)
      ensures p.Some? ==> p == LeaderSlot(dag.matrix, procNum, v) && Reaches(arena.vertices, leader, p.value, WaveRound(v, 1))
      ensures p.Some? ==>
        p.value < |arena.vertices| && arena.vertices[p.value].round == WaveRound(v, 1) &&
        IsAnchor(arena.vertices, dag.matrix, procNum, p.value)
      ensures var l := LeaderSlot(dag.matrix, procNum, v);
        l.Some? && KeyUnique(arena.vertices) && Reaches(arena.vertices, leader, l.value, WaveRound(v, 1)) ==> p.Some?
    {
      p := WaveLeader(v);
      if p.Some? {
        SearchFits(arena.vertices, dag.matrix, dag.visited, procNum, leader, WaveRound(v, 1));
        DescendingWellFormed(arena.vertices);
        var found := dag.PathExists(arena.vertices, leader, p.value);
        if !found {
          p := None;
        }
      }
    }

    /** `order_vertices`: pop every stacked leader and order what it reaches. */
    method OrderVertices()
      requires StoreOk()
      requires forall i :: 0 <= i < |leadersStack| ==>
        leadersStack[i] < |arena.vertices| && arena.vertices[leadersStack[i]].round < |dag.matrix|
      modifies this`leadersStack, this`orderLog, dag
      ensures StoreOk() && leadersStack == [] && orderLog == old(orderLog) + Reverse(old(leadersStack))
      ensures Grows(old(dag.ordered), dag.ordered) && dag.matrix == old(dag.matrix)
    {
      while leadersStack != []
        invariant StoreOk() && leadersStack == old(leadersStack)[..|leadersStack|]
        invariant orderLog == old(orderLog) + Reverse(old(leadersStack)[|leadersStack|..])
        invariant Grows(old(dag.ordered), dag.ordered) && dag.matrix == old(dag.matrix)
        decreases |leadersStack|
      {
        var k := |leadersStack| - 1;
        var leader := leadersStack[k];
        assert old(leadersStack)[k..] == [leader] + old(leadersStack)[k + 1..];
        leadersStack := leadersStack[..k];
        SearchFits(arena.vertices, dag.matrix, dag.ordered, procNum, leader, 0);
        DescendingWellFormed(arena.vertices);
        dag.OrderFrom(arena.vertices, leader);
        orderLog := orderLog + [leader];
      }
    }
  }
}
