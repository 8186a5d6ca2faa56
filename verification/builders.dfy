/**
 * The simulation builders: processes are numbered 1, 2, ... in the order
 * they are added, grouped into named pools, and the builder hands the pool
 * listing, the process table and the settings to the simulation.
 *
 * A process handle is opaque here (type `H`), as is a latency distribution
 * (type `D`).
 */
module Builders {
  import opened Wrappers
  import opened Jiffy
  import opened Message
  import opened Bandwidth
  import opened Network
  import Clock
  import Tso

  /** A pool: its processes, in the order they were added. */
  type Pool<H> = seq<(ProcessId, H)>

  /** The ids of a pool, in order. */
  function Ids<H>(pool: Pool<H>): (ids: seq<ProcessId>)
    ensures |ids| == |pool| && forall i :: 0 <= i < |pool| ==> ids[i] == pool[i].0
  {
    seq(|pool|, i requires 0 <= i < |pool| => pool[i].0)
  }

  /** The pool of that name, or an empty one (`entry(..).or_default()`). */
  function PoolOf<H>(pools: map<string, Pool<H>>, name: string): Pool<H>
  {
    if name in pools then pools[name] else []
  }

  /** `size` processes numbered on from `first`, every one with the handle `h`. */
  function Numbered<H>(first: nat, size: nat, h: H): (p: Pool<H>)
    ensures |p| == size && forall i :: 0 <= i < size ==> p[i] == (first + i, h)
  {
    seq(size, i requires 0 <= i < size => (first + i, h))
  }

  /** Every id in the pools is at least 1 and below `next`. */
  predicate IdsBelow<H>(pools: map<string, Pool<H>>, next: nat) {
    forall n, i :: n in pools && 0 <= i < |pools[n]| ==> 1 <= pools[n][i].0 < next
  }

  /** Every id handed out so far (1 up to `next`) is in the global pool. */
  predicate AllocatedInGlobal<H>(pools: map<string, Pool<H>>, next: nat) {
    forall id :: 1 <= id < next ==> InGlobal(pools, id)
  }

  predicate InGlobal<H>(pools: map<string, Pool<H>>, id: ProcessId) {
    GLOBAL_POOL in pools && id in Ids(pools[GLOBAL_POOL])
  }

  /**
   * Each process has one handle, listed with its id in every pool it is in
   * (`add_pool` puts the same handle in the pool and in the global pool).
   */
  ghost predicate HandlesFrom<H>(pools: map<string, Pool<H>>, handleOf: map<ProcessId, H>) {
    forall n, i :: n in pools && 0 <= i < |pools[n]| ==> pools[n][i].0 in handleOf && handleOf[pools[n][i].0] == pools[n][i].1
  }

  /** Some pool lists `id`. */
  predicate InSomePool<H>(pools: map<string, Pool<H>>, id: ProcessId) {
    exists n, i :: n in pools && 0 <= i < |pools[n]| && pools[n][i].0 == id
  }

  /** `(id, h)` appended to the pool `name`, which is created when missing. */
  function AddTo<H>(pools: map<string, Pool<H>>, name: string, id: ProcessId, h: H): (r: map<string, Pool<H>>)
    ensures r.Keys == pools.Keys + {name}
    ensures r[name] == PoolOf(pools, name) + [(id, h)]
    ensures forall n :: n in pools && n != name ==> r[n] == pools[n]
  {
    pools[name := PoolOf(pools, name) + [(id, h)]]
  }

  /** Each of `size` processes numbered on from `first` listed twice in a row. */
  function Twice<H>(first: nat, size: nat, h: H): (p: Pool<H>)
    ensures |p| == 2 * size
  {
    if size == 0 then [] else Twice(first, size - 1, h) + [(first + size - 1, h), (first + size - 1, h)]
  }

  /** Entries `2j` and `2j + 1` of `Twice` are both process `first + j`. */
  lemma {:induction false} TwiceEntries<H>(first: nat, size: nat, h: H)
    ensures forall i :: 0 <= i < 2 * size ==> Twice(first, size, h)[i] == (first + i / 2, h)
  {
    if size > 0 {
      TwiceEntries(first, size - 1, h);
      var p := Twice(first, size, h);
      forall i | 0 <= i < 2 * size
        ensures p[i] == (first + i / 2, h)
      {
        if i < 2 * (size - 1) {
          assert p[i] == Twice(first, size - 1, h)[i];
        } else {
          assert i / 2 == size - 1;
        }
      }
    }
  }

  /**
   * The pools after `dscale`'s `add_pool(name, size)` from id `first`: the
   * ids `first`, ..., `first + size - 1` are appended in order to the pool
   * `name` and to the global pool (twice to the global pool when `name` is
   * the global pool's own name); nothing else changes, and with `size` 0 no
   * pool is created.
   */
  function AddedPool<H>(pools: map<string, Pool<H>>, name: string, first: nat, size: nat, h: H): map<string, Pool<H>>
  {
    if size == 0 then pools
    else if name == GLOBAL_POOL then pools[GLOBAL_POOL := PoolOf(pools, GLOBAL_POOL) + Twice(first, size, h)]
    else pools[name := PoolOf(pools, name) + Numbered(first, size, h)][GLOBAL_POOL := PoolOf(pools, GLOBAL_POOL) + Numbered(first, size, h)]
  }

  /** One more process of `add_pool`: it joins the pool `name` and then the global pool. */
  lemma AddedPoolStep<H>(pools: map<string, Pool<H>>, name: string, first: nat, k: nat, h: H)
    ensures AddedPool(pools, name, first, k + 1, h) ==
      AddTo(AddTo(AddedPool(pools, name, first, k, h), name, first + k, h), GLOBAL_POOL, first + k, h)
  {
    assert Numbered(first, k + 1, h) == Numbered(first, k, h) + [(first + k, h)];
    if name == GLOBAL_POOL {
      AddedGlobalStep(pools, name, first, k, h);
    } else if k == 0 {
      AddedFirstStep(pools, name, first, k, h);
    } else {
      AddedNamedStep(pools, name, first, k, h);
    }
  }

  lemma AddedGlobalStep<H>(pools: map<string, Pool<H>>, name: string, first: nat, k: nat, h: H)
    requires name == GLOBAL_POOL && Numbered(first, k + 1, h) == Numbered(first, k, h) + [(first + k, h)]
    ensures AddedPool(pools, name, first, k + 1, h) ==
      AddTo(AddTo(AddedPool(pools, name, first, k, h), name, first + k, h), GLOBAL_POOL, first + k, h)
  {
    var id := first + k;
    var before: map<string, Pool<H>> := AddedPool(pools, name, first, k, h);
    var after: map<string, Pool<H>> := AddTo(AddTo(before, name, id, h), GLOBAL_POOL, id, h);
    assert PoolOf(before, GLOBAL_POOL) + [(id, h)] + [(id, h)] == PoolOf(before, GLOBAL_POOL) + [(id, h), (id, h)];
    assert after == before[GLOBAL_POOL := PoolOf(before, GLOBAL_POOL) + [(id, h), (id, h)]];
    if k == 0 {
      assert Twice(first, k + 1, h) == [(id, h), (id, h)];
    } else {
      assert PoolOf(pools, GLOBAL_POOL) + Twice(first, k, h) + [(id, h), (id, h)] == PoolOf(pools, GLOBAL_POOL) + Twice(first, k + 1, h);
    }
  }

  lemma AddedFirstStep<H>(pools: map<string, Pool<H>>, name: string, first: nat, k: nat, h: H)
    requires name != GLOBAL_POOL && k == 0
    ensures AddedPool(pools, name, first, k + 1, h) ==
      AddTo(AddTo(AddedPool(pools, name, first, k, h), name, first + k, h), GLOBAL_POOL, first + k, h)
  {
    var id := first + k;
    var after: map<string, Pool<H>> := AddTo(AddTo(AddedPool(pools, name, first, k, h), name, id, h), GLOBAL_POOL, id, h);
    assert Numbered(first, 1, h) == [(id, h)];
    assert PoolOf(AddTo(pools, name, id, h), GLOBAL_POOL) == PoolOf(pools, GLOBAL_POOL);
    assert after == pools[name := PoolOf(pools, name) + [(id, h)]][GLOBAL_POOL := PoolOf(pools, GLOBAL_POOL) + [(id, h)]];
  }

  lemma AddedNamedStep<H>(pools: map<string, Pool<H>>, name: string, first: nat, k: nat, h: H)
    requires name != GLOBAL_POOL && k > 0 && Numbered(first, k + 1, h) == Numbered(first, k, h) + [(first + k, h)]
    ensures AddedPool(pools, name, first, k + 1, h) ==
      AddTo(AddTo(AddedPool(pools, name, first, k, h), name, first + k, h), GLOBAL_POOL, first + k, h)
  {
    var id := first + k;
    var before: map<string, Pool<H>> := AddedPool(pools, name, first, k, h);
    var after: map<string, Pool<H>> := AddTo(AddTo(before, name, id, h), GLOBAL_POOL, id, h);
    var pn, pg := PoolOf(pools, name), PoolOf(pools, GLOBAL_POOL);
    assert before == pools[name := pn + Numbered(first, k, h)][GLOBAL_POOL := pg + Numbered(first, k, h)];
    assert PoolOf(AddTo(before, name, id, h), GLOBAL_POOL) == pg + Numbered(first, k, h);
    assert pn + Numbered(first, k, h) + [(id, h)] == pn + Numbered(first, k + 1, h);
    assert pg + Numbered(first, k, h) + [(id, h)] == pg + Numbered(first, k + 1, h);
    assert after == pools[name := pn + Numbered(first, k + 1, h)][GLOBAL_POOL := pg + Numbered(first, k + 1, h)];
  }

  /** Adding the fresh id `next` to a pool and to the global pool keeps the pools well formed. */
  lemma AddFreshKeepsInvariant<H>(pools: map<string, Pool<H>>, handleOf: map<ProcessId, H>, name: string, next: nat, h: H)
    requires next >= 1 && IdsBelow(pools, next) && AllocatedInGlobal(pools, next) && HandlesFrom(pools, handleOf)
    ensures var r := AddTo(AddTo(pools, name, next, h), GLOBAL_POOL, next, h);
      IdsBelow(r, next + 1) && AllocatedInGlobal(r, next + 1) && HandlesFrom(r, handleOf[next := h])
  {
    var p1: map<string, Pool<H>> := AddTo(pools, name, next, h);
    var r: map<string, Pool<H>> := AddTo(p1, GLOBAL_POOL, next, h);
    var handles := handleOf[next := h];
    assert IdsBelow(p1, next + 1) && HandlesFrom(p1, handles) by {
      forall n, i | n in p1 && 0 <= i < |p1[n]|
        ensures 1 <= p1[n][i].0 < next + 1 && p1[n][i].0 in handles && handles[p1[n][i].0] == p1[n][i].1
      {
        if n == name && i == |p1[n]| - 1 {
        } else {
          assert p1[n][i] == pools[n][i];
        }
      }
    }
    forall n, i | n in r && 0 <= i < |r[n]|
      ensures 1 <= r[n][i].0 < next + 1 && r[n][i].0 in handles && handles[r[n][i].0] == r[n][i].1
    {
      if n == GLOBAL_POOL && i == |r[n]| - 1 {
      } else {
        assert r[n][i] == p1[n][i];
      }
    }
    var g: Pool<H> := r[GLOBAL_POOL];
    assert Ids(g)[|g| - 1] == next;
    forall id | 1 <= id < next + 1 ensures InGlobal(r, id) {
      if id < next {
        assert InGlobal(pools, id);
        var j :| 0 <= j < |pools[GLOBAL_POOL]| && Ids(pools[GLOBAL_POOL])[j] == id;
        assert g[j] == pools[GLOBAL_POOL][j];
        assert Ids(g)[j] == id;
      }
    }
  }

  /**
   * The partition `build` (and `matrix`'s `Simulation::New`) makes of the
   * pools: each pool name to its ids in order, and each id to its handle.
   * The pools are visited in `order`, the hash map's iteration order; since
   * a process has one handle, the result does not depend on it.
   */
  method Partition<H>(pools: map<string, Pool<H>>, order: seq<string>, ghost handleOf: map<ProcessId, H>)
    returns (listing: map<string, seq<ProcessId>>, procs: map<ProcessId, H>)
    requires forall n :: n in pools <==> n in order
    requires HandlesFrom(pools, handleOf)
    ensures listing == map n | n in pools :: Ids(pools[n])
    ensures forall n, i :: n in pools && 0 <= i < |pools[n]| ==> pools[n][i].0 in procs
    ensures forall id :: id in procs ==> InSomePool(pools, id) && id in handleOf && procs[id] == handleOf[id]
  {
    // `Ids` is used through its contract only.
    hide Ids;
    listing := map[];
    procs := map[];
    for k := 0 to |order|
      invariant listing == map n | n in order[..k] :: Ids(pools[n])
      invariant forall j, i :: 0 <= j < k && 0 <= i < |pools[order[j]]| ==> pools[order[j]][i].0 in procs
      invariant forall id :: id in procs ==> InSomePool(pools, id) && id in handleOf && procs[id] == handleOf[id]
    {
      var name := order[k];
      var pool := pools[name];
      var ids: seq<ProcessId> := [];
      for i := 0 to |pool|
        invariant ids == Ids(pool[..i])
        invariant forall j, i' :: 0 <= j < k && 0 <= i' < |pools[order[j]]| ==> pools[order[j]][i'].0 in procs
        invariant forall i' :: 0 <= i' < i ==> pool[i'].0 in procs
        invariant forall id :: id in procs ==> InSomePool(pools, id) && id in handleOf && procs[id] == handleOf[id]
      {
        var (id, h) := pool[i];
        ids := ids + [id];
        assert pool[..i + 1] == pool[..i] + [pool[i]];
        assert pools[name][i].0 == id;
        procs := procs[id := h];
      }
      assert pool[..|pool|] == pool;
      assert order[..k + 1] == order[..k] + [name];
      listing := listing[name := ids];
    }
    assert order[..|order|] == order;
    forall n, i | n in pools && 0 <= i < |pools[n]| ensures pools[n][i].0 in procs {
      var j :| 0 <= j < |order| && order[j] == n;
    }
  }

  /** What `build` hands to the simulation. */
  datatype Setup<H, D> = Setup(seed: nat, timeBudget: Jiffies, bandwidth: BandwidthDescription,
                               latencyTopology: map<(ProcessId, ProcessId), D>,
                               poolListing: map<string, seq<ProcessId>>, procs: map<ProcessId, H>)

  /** A latency description names one pool (both ends) or two. */
  datatype LatencyDescription<D> = WithinPool(name: string, distr: D) | BetweenPools(from: string, to: string, distr: D)

  function FromPool<D>(d: LatencyDescription<D>): string {
    if d.WithinPool? then d.name else d.from
  }

  function ToPool<D>(d: LatencyDescription<D>): string {
    if d.WithinPool? then d.name else d.to
  }

  /** Each pair (x, y) with x from `from` and y from `to`, and each pair (y, x) too. */
  function BothWays(from: seq<ProcessId>, to: seq<ProcessId>): (keys: set<(ProcessId, ProcessId)>)
    ensures forall x, y :: (x, y) in keys <==> (y, x) in keys
  {
    (set x, y | x in from && y in to :: (x, y)) + (set x, y | x in from && y in to :: (y, x))
  }

  /** Every description's pools exist. */
  predicate Resolvable<H, D>(pools: map<string, Pool<H>>, ds: seq<LatencyDescription<D>>) {
    forall i :: 0 <= i < |ds| ==> FromPool(ds[i]) in pools && ToPool(ds[i]) in pools
  }

  /** The pairs a description covers: both ways between its two pools. */
  function PairsOf<H, D>(pools: map<string, Pool<H>>, d: LatencyDescription<D>): set<(ProcessId, ProcessId)>
    requires FromPool(d) in pools && ToPool(d) in pools
  {
    BothWays(Ids(pools[FromPool(d)]), Ids(pools[ToPool(d)]))
  }

  /** `topo` with every key of `keys` set to `d`. */
  function Overlay<D>(topo: map<(ProcessId, ProcessId), D>, keys: set<(ProcessId, ProcessId)>, d: D)
    : (r: map<(ProcessId, ProcessId), D>)
    ensures r.Keys == topo.Keys + keys
    ensures forall k :: k in r ==> r[k] == if k in keys then d else topo[k]
  {
    map k | k in topo.Keys + keys :: if k in keys then d else topo[k]
  }

  /**
   * The latency topology after the descriptions `ds`, in order: each sets
   * the distribution of every pair it covers, over what was there.
   */
  function Described<H, D>(topo: map<(ProcessId, ProcessId), D>, pools: map<string, Pool<H>>, ds: seq<LatencyDescription<D>>)
    : map<(ProcessId, ProcessId), D>
    requires Resolvable(pools, ds)
  {
    if ds == [] then topo
    else
      assert Resolvable(pools, ds[..|ds| - 1]);
      Overlay(Described(topo, pools, ds[..|ds| - 1]), PairsOf(pools, ds[|ds| - 1]), ds[|ds| - 1].distr)
  }

  /**
   * A pair that the description `ds[j]` covers and no later description
   * does ends up with `ds[j]`'s distribution.
   */
  lemma {:induction false} DescribedLastWins<H, D>(topo: map<(ProcessId, ProcessId), D>, pools: map<string, Pool<H>>,
                                                  ds: seq<LatencyDescription<D>>, j: nat, key: (ProcessId, ProcessId))
    requires Resolvable(pools, ds)
    requires j < |ds| && key in PairsOf(pools, ds[j])
    requires forall l :: j < l < |ds| ==> key !in PairsOf(pools, ds[l])
    ensures key in Described(topo, pools, ds) && Described(topo, pools, ds)[key] == ds[j].distr
  {
    if j < |ds| - 1 {
      var init := ds[..|ds| - 1];
      assert Resolvable(pools, init);
      assert key !in PairsOf(pools, ds[|ds| - 1]);
      DescribedLastWins(topo, pools, init, j, key);
    }
  }

  /** A pair that no description covers keeps what it had. */
  lemma {:induction false} DescribedUntouched<H, D>(topo: map<(ProcessId, ProcessId), D>, pools: map<string, Pool<H>>,
                                                   ds: seq<LatencyDescription<D>>, key: (ProcessId, ProcessId))
    requires Resolvable(pools, ds)
    requires forall l :: 0 <= l < |ds| ==> key !in PairsOf(pools, ds[l])
    ensures key in Described(topo, pools, ds) <==> key in topo
    ensures key in topo ==> Described(topo, pools, ds)[key] == topo[key]
  {
    if ds != [] {
      var init := ds[..|ds| - 1];
      assert Resolvable(pools, init);
      assert key !in PairsOf(pools, ds[|ds| - 1]);
      DescribedUntouched(topo, pools, init, key);
    }
  }

  /**
   * Every description covers its pairs both ways, so from a symmetric
   * topology the descriptions keep it symmetric.
   */
  lemma {:induction false} DescribedSymmetric<H, D>(topo: map<(ProcessId, ProcessId), D>, pools: map<string, Pool<H>>,
                                                    ds: seq<LatencyDescription<D>>, x: ProcessId, y: ProcessId)
    requires Resolvable(pools, ds)
    requires forall a, b :: (a, b) in topo ==> (b, a) in topo && topo[(b, a)] == topo[(a, b)]
    ensures (x, y) in Described(topo, pools, ds) ==>
      (y, x) in Described(topo, pools, ds) && Described(topo, pools, ds)[(y, x)] == Described(topo, pools, ds)[(x, y)]
  {
    if ds != [] {
      assert Resolvable(pools, ds[..|ds| - 1]);
      DescribedSymmetric(topo, pools, ds[..|ds| - 1], x, y);
      DescribedSymmetric(topo, pools, ds[..|ds| - 1], y, x);
    }
  }

  /** `dscale`'s `SimulationBuilder`. */
  class DscaleBuilder<H, D> {
    var seed: nat
    var timeBudget: Jiffies
    /** The id the next process gets. */
    var procId: nat
    var pools: map<string, Pool<H>>
    var latencyTopology: map<(ProcessId, ProcessId), D>
    var bandwidth: BandwidthDescription
    /** The one handle made for each process. */
    ghost var handleOf: map<ProcessId, H>

    ghost predicate Valid()
      reads this
    {
      procId >= 1 && IdsBelow(pools, procId) && AllocatedInGlobal(pools, procId) && HandlesFrom(pools, handleOf)
    }

    /** `default`: seed 69, a budget of 1,000,000 jiffies, ids from 1, unbounded bandwidth, nothing added. */
    constructor ()
      ensures Valid()
      ensures seed == 69 && timeBudget == Jiffies(1_000_000) && procId == 1
      ensures pools == map[] && latencyTopology == map[] && bandwidth == Unbounded
    {
      seed := 69;
      timeBudget := Jiffies(1_000_000);
      procId := 1;
      pools := map[];
      latencyTopology := map[];
      bandwidth := Unbounded;
      handleOf := map[];
    }

    /** `add_to_pool`: the entry joins the pool of that name, created when missing. */
    method AddToPool(name: string, id: ProcessId, h: H)
      modifies this
      ensures pools == AddTo(old(pools), name, id, h)
      ensures seed == old(seed) && timeBudget == old(timeBudget) && procId == old(procId) && handleOf == old(handleOf)
      ensures latencyTopology == old(latencyTopology) && bandwidth == old(bandwidth)
    {
      pools := pools[name := PoolOf(pools, name) + [(id, h)]];
    }

    /**
     * `add_pool`: `size` new processes, numbered on from the next id, each
     * joining the pool `name` and the global pool; `h` is the pool's default
     * process.
     */
    method AddPool(name: string, size: nat, h: H)
      requires Valid()
      modifies this
      ensures Valid()
      ensures procId == old(procId) + size
      ensures pools == AddedPool(old(pools), name, old(procId), size, h)
      ensures seed == old(seed) && timeBudget == old(timeBudget)
      ensures latencyTopology == old(latencyTopology) && bandwidth == old(bandwidth)
    {
      ghost var pools0, first := pools, procId;
      for k := 0 to size
        invariant Valid() && procId == first + k
        invariant pools == AddedPool(pools0, name, first, k, h)
        invariant seed == old(seed) && timeBudget == old(timeBudget)
        invariant latencyTopology == old(latencyTopology) && bandwidth == old(bandwidth)
      {
        AddedPoolStep(pools0, name, first, k, h);
        AddProcess(name, h);
      }
    }

    /** One process of `add_pool`: the next id, with handle `h`, joins the pool `name` and the global pool. */
    method AddProcess(name: string, h: H)
      requires Valid()
      modifies this
      ensures Valid() && procId == old(procId) + 1
      ensures pools == AddTo(AddTo(old(pools), name, old(procId), h), GLOBAL_POOL, old(procId), h)
      ensures seed == old(seed) && timeBudget == old(timeBudget)
      ensures latencyTopology == old(latencyTopology) && bandwidth == old(bandwidth)
    {
      var id := procId;
      AddFreshKeepsInvariant(pools, handleOf, name, id, h);
      procId := procId + 1;
      handleOf := handleOf[id := h];
      AddToPool(name, id, h);
      AddToPool(GLOBAL_POOL, id, h);
    }

    method SetSeed(seed: nat)
      modifies this
      ensures this.seed == seed && timeBudget == old(timeBudget) && procId == old(procId) && handleOf == old(handleOf)
      ensures pools == old(pools) && latencyTopology == old(latencyTopology) && bandwidth == old(bandwidth)
    {
      this.seed := seed;
    }

    method SetTimeBudget(timeBudget: Jiffies)
      modifies this
      ensures this.timeBudget == timeBudget && seed == old(seed) && procId == old(procId) && handleOf == old(handleOf)
      ensures pools == old(pools) && latencyTopology == old(latencyTopology) && bandwidth == old(bandwidth)
    {
      this.timeBudget := timeBudget;
    }

    method SetNicBandwidth(bandwidth: BandwidthDescription)
      modifies this
      ensures this.bandwidth == bandwidth && seed == old(seed) && timeBudget == old(timeBudget) && handleOf == old(handleOf)
      ensures procId == old(procId) && pools == old(pools) && latencyTopology == old(latencyTopology)
    {
      this.bandwidth := bandwidth;
    }

    /**
     * `latency_topology`: each description in turn sets the distribution of
     * every pair between its pools, both ways. A pool that does not exist is
     * an error ("No pool found"), raised before that description changes
     * anything.
     */
    method LatencyTopology(ds: seq<LatencyDescription<D>>) returns (r: Result<(), string>)
      modifies this
      ensures r.Ok? <==> Resolvable(pools, ds)
      ensures r.Ok? ==> latencyTopology == Described(old(latencyTopology), pools, ds)
      ensures seed == old(seed) && timeBudget == old(timeBudget) && procId == old(procId) && handleOf == old(handleOf)
      ensures pools == old(pools) && bandwidth == old(bandwidth)
    {
      // Each step is one unfolding of `Described`; what an overlay holds is not needed.
      hide Overlay, PairsOf;
      for k := 0 to |ds|
        invariant Resolvable(pools, ds[..k])
        invariant latencyTopology == Described(old(latencyTopology), pools, ds[..k])
        invariant seed == old(seed) && timeBudget == old(timeBudget) && procId == old(procId) && handleOf == old(handleOf)
        invariant pools == old(pools) && bandwidth == old(bandwidth)
      {
        var d := ds[k];
        if FromPool(d) !in pools || ToPool(d) !in pools {
          return Err("No pool found");
        }
        assert ds[..k + 1][..k] == ds[..k];
        latencyTopology := Overlay(latencyTopology, PairsOf(pools, d), d.distr);
      }
      assert ds[..|ds|] == ds;
      r := Ok(());
    }

    /**
     * `build`: the pools partitioned into the pool listing and the process
     * table, visited in the hash map's `order`, with the settings. The
     * table holds exactly the processes added, each with its handle.
     */
    method Build(order: seq<string>) returns (s: Setup<H, D>)
      requires Valid()
      requires forall n :: n in pools <==> n in order
      ensures s.seed == seed && s.timeBudget == timeBudget && s.bandwidth == bandwidth
      ensures s.latencyTopology == latencyTopology
      ensures s.poolListing == map n | n in pools :: Ids(pools[n])
      ensures forall id :: id in s.procs <==> 1 <= id < procId
      ensures forall id :: id in s.procs ==> id in handleOf && s.procs[id] == handleOf[id]
      ensures forall id :: id in s.procs ==> GLOBAL_POOL in s.poolListing && id in s.poolListing[GLOBAL_POOL]
    {
      var listing, procs := Partition(pools, order, handleOf);
      forall id | id in procs ensures 1 <= id < procId && GLOBAL_POOL in listing && id in listing[GLOBAL_POOL] {
        assert InGlobal(pools, id);
        var n, i :| n in pools && 0 <= i < |pools[n]| && pools[n][i].0 == id;
      }
      forall id | 1 <= id < procId ensures id in procs {
        assert InGlobal(pools, id);
        var j :| 0 <= j < |pools[GLOBAL_POOL]| && Ids(pools[GLOBAL_POOL])[j] == id;
      }
      s := Setup(seed, timeBudget, bandwidth, latencyTopology, listing, procs);
    }
  }

  /** The pools of `order`, one after the other: the entries in the order `Simulation::New` visits them. */
  function Flatten<H>(pools: map<string, Pool<H>>, order: seq<string>): (r: Pool<H>)
    requires forall k :: 0 <= k < |order| ==> order[k] in pools
  {
    if order == [] then []
    else Flatten(pools, order[..|order| - 1]) + pools[order[|order| - 1]]
  }

  /** An entry is visited exactly when some pool of `order` holds it. */
  lemma {:induction false} FlattenHolds<H>(pools: map<string, Pool<H>>, order: seq<string>, e: (ProcessId, H))
    requires forall k :: 0 <= k < |order| ==> order[k] in pools
    ensures e in Flatten(pools, order) <==> exists k :: 0 <= k < |order| && e in pools[order[k]]
  {
    if order != [] {
      var init := order[..|order| - 1];
      FlattenHolds(pools, init, e);
      if e in Flatten(pools, order) {
        if e !in pools[order[|order| - 1]] {
          var k :| 0 <= k < |init| && e in pools[init[k]];
          assert init[k] == order[k];
        }
      } else {
        forall k | 0 <= k < |order| ensures e !in pools[order[k]] {
          if k < |init| {
            assert init[k] == order[k];
          }
        }
      }
    }
  }

  /**
   * `matrix`'s partition in `Simulation::New`: each pool name to its ids in
   * order, and the entries of all pools, pool by pool in the hash map's
   * `order`.
   */
  method PartitionList<H>(pools: map<string, Pool<H>>, order: seq<string>)
    returns (listing: map<string, seq<ProcessId>>, procs: Pool<H>)
    requires forall n :: n in pools <==> n in order
    ensures listing == map n | n in pools :: Ids(pools[n])
    ensures procs == Flatten(pools, order)
  {
    listing := map[];
    procs := [];
    for k := 0 to |order|
      invariant listing == map n | n in order[..k] :: Ids(pools[n])
      invariant procs == Flatten(pools, order[..k])
    {
      var name := order[k];
      var pool := pools[name];
      var ids: seq<ProcessId> := [];
      ghost var before := procs;
      for i := 0 to |pool|
        invariant ids == Ids(pool[..i])
        invariant procs == before + pool[..i]
      {
        ids := ids + [pool[i].0];
        procs := procs + [pool[i]];
        assert pool[..i + 1] == pool[..i] + [pool[i]];
      }
      assert pool[..|pool|] == pool;
      assert order[..k + 1] == order[..k] + [name];
      assert order[..k + 1][..k] == order[..k];
      listing := listing[name := ids];
    }
    assert order[..|order|] == order;
  }

  /** `matrix`'s `SimulationBuilder`. */
  class MatrixBuilder<H> {
    var seed: nat
    var timeBudget: Jiffies
    var maxLatency: Jiffies
    /** The id the next process gets. */
    var procId: nat
    var pools: map<string, Pool<H>>
    var bandwidth: BandwidthDescription

    /** Every id handed out is in exactly the pools' range 1 up to `procId`, and listed somewhere. */
    ghost predicate Valid()
      reads this
    {
      procId >= 1 && IdsBelow(pools, procId) && forall id :: 1 <= id < procId ==> InSomePool(pools, id)
    }

    /** `NewDefault`: seed 69, a budget of 1,000,000 jiffies, latency up to 10, ids from 1, unbounded bandwidth. */
    constructor NewDefault()
      ensures Valid()
      ensures seed == 69 && timeBudget == Jiffies(1_000_000) && maxLatency == Jiffies(10)
      ensures procId == 1 && pools == map[] && bandwidth == Unbounded
    {
      seed := 69;
      timeBudget := Jiffies(1_000_000);
      maxLatency := Jiffies(10);
      procId := 1;
      pools := map[];
      bandwidth := Unbounded;
    }

    /**
     * `AddPool`: the pool `name` (created even for `size` 0) gains `size`
     * processes made by the factory, numbered on from the next id; unlike
     * `dscale`, nothing joins a global pool.
     */
    method AddPool(name: string, size: nat, h: H)
      requires Valid()
      modifies this
      ensures Valid()
      ensures procId == old(procId) + size
      ensures pools == old(pools)[name := PoolOf(old(pools), name) + Numbered(old(procId), size, h)]
      ensures seed == old(seed) && timeBudget == old(timeBudget) && maxLatency == old(maxLatency) && bandwidth == old(bandwidth)
    {
      var pool := PoolOf(pools, name);
      ghost var pool0, first := pool, procId;
      for k := 0 to size
        invariant procId == first + k
        invariant pool == pool0 + Numbered(first, k, h)
        invariant pools == old(pools) && seed == old(seed) && timeBudget == old(timeBudget)
        invariant maxLatency == old(maxLatency) && bandwidth == old(bandwidth)
      {
        var id := procId;
        procId := procId + 1;
        assert Numbered(first, k + 1, h) == Numbered(first, k, h) + [(id, h)];
        pool := pool + [(id, h)];
      }
      pools := pools[name := pool];
      forall n, i | n in pools && 0 <= i < |pools[n]| ensures 1 <= pools[n][i].0 < procId {
        if n == name && i >= |pool0| {
          assert pools[n][i] == Numbered(first, size, h)[i - |pool0|];
        } else if n == name {
          assert pools[n][i] == pool0[i] == old(pools)[n][i];
        } else {
          assert pools[n][i] == old(pools)[n][i];
        }
      }
      forall id | 1 <= id < procId ensures InSomePool(pools, id) {
        if id < first {
          assert InSomePool(old(pools), id);
          var n, i :| n in old(pools) && 0 <= i < |old(pools)[n]| && old(pools)[n][i].0 == id;
          if n == name {
            assert pools[n][i] == pool0[i];
            assert InSomePool(pools, id) by { assert pools[n][i].0 == id; }
          } else {
            assert pools[n][i] == old(pools)[n][i];
          }
        } else {
          assert pools[name][|pool0| + (id - first)] == Numbered(first, size, h)[id - first];
        }
      }
    }

    method SetSeed(seed: nat)
      modifies this
      ensures this.seed == seed && timeBudget == old(timeBudget) && maxLatency == old(maxLatency)
      ensures procId == old(procId) && pools == old(pools) && bandwidth == old(bandwidth)
    {
      this.seed := seed;
    }

    method SetTimeBudget(timeBudget: Jiffies)
      modifies this
      ensures this.timeBudget == timeBudget && seed == old(seed) && maxLatency == old(maxLatency)
      ensures procId == old(procId) && pools == old(pools) && bandwidth == old(bandwidth)
    {
      this.timeBudget := timeBudget;
    }

    method SetMaxLatency(maxLatency: Jiffies)
      modifies this
      ensures this.maxLatency == maxLatency && seed == old(seed) && timeBudget == old(timeBudget)
      ensures procId == old(procId) && pools == old(pools) && bandwidth == old(bandwidth)
    {
      this.maxLatency := maxLatency;
    }

    method SetNicBandwidth(bandwidth: BandwidthDescription)
      modifies this
      ensures this.bandwidth == bandwidth && seed == old(seed) && timeBudget == old(timeBudget)
      ensures maxLatency == old(maxLatency) && procId == old(procId) && pools == old(pools)
    {
      this.bandwidth := bandwidth;
    }

    /**
     * `Build`: resets the unique-id counter and the clock (they outlive a
     * simulation), then partitions the pools in the hash map's `order`;
     * every process added is among the entries.
     */
    method Build(tso: Tso.Tso, clock: Clock.Clock, order: seq<string>)
      returns (listing: map<string, seq<ProcessId>>, procs: Pool<H>)
      requires Valid()
      requires forall n :: n in pools <==> n in order
      modifies tso, clock
      ensures tso.counter == 0 && clock.now == Jiffies(0)
      ensures listing == map n | n in pools :: Ids(pools[n])
      ensures procs == Flatten(pools, order)
      ensures forall i :: 0 <= i < |procs| ==> 1 <= procs[i].0 < procId
      ensures forall id :: 1 <= id < procId ==> id in Ids(procs)
    {
      tso.Drop();
      clock.Drop();
      listing, procs := PartitionList(pools, order);
      forall i | 0 <= i < |procs| ensures 1 <= procs[i].0 < procId {
        FlattenHolds(pools, order, procs[i]);
        var k :| 0 <= k < |order| && procs[i] in pools[order[k]];
        var j :| 0 <= j < |pools[order[k]]| && pools[order[k]][j] == procs[i];
      }
      forall id | 1 <= id < procId ensures id in Ids(procs) {
        assert InSomePool(pools, id);
        var n, j :| n in pools && 0 <= j < |pools[n]| && pools[n][j].0 == id;
        var k :| 0 <= k < |order| && order[k] == n;
        FlattenHolds(pools, order, pools[n][j]);
        var i :| 0 <= i < |procs| && procs[i] == pools[n][j];
        assert Ids(procs)[i] == id;
      }
    }
  }

  /**
   * `simulator`'s `SimulationBuilder`: one kind of process, `processCount`
   * instances, all made by the factory (here the value `h` it makes).
   */
  datatype SimulatorBuilder<H> = SimulatorBuilder(seed: nat, maxSteps: Jiffies, maxLatency: Jiffies,
                                                  processCount: nat, h: H, bandwidth: BandwidthDescription)
  {
    /** `NewFromFactory`: seed 69, 1,000,000 steps, latency up to 10, 5 processes, unbounded bandwidth. */
    static function NewFromFactory(h: H): (b: SimulatorBuilder<H>)
      ensures b.seed == 69 && b.maxSteps == Jiffies(1_000_000) && b.maxLatency == Jiffies(10)
      ensures b.processCount == 5 && b.h == h && b.bandwidth == Unbounded
    {
      SimulatorBuilder(69, Jiffies(1_000_000), Jiffies(10), 5, h, Unbounded)
    }

    /**
     * `Build`: the processes are numbered 1 to `processCount`, in order,
     * each made by the factory.
     */
    function Build(): (procs: Pool<H>)
      ensures |procs| == processCount
      ensures forall i :: 0 <= i < |procs| ==> procs[i] == (i + 1, h)
    {
      Numbered(1, processCount, h)
    }

    /** The ids built are exactly 1 to `processCount`. */
    lemma BuildIdsExact(id: ProcessId)
      ensures id in Ids(Build()) <==> 1 <= id <= processCount
    {
      if 1 <= id <= processCount {
        assert Ids(Build())[id - 1] == id;
      }
    }
  }
}
