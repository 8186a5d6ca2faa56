/**
 * The simulation-wide store of named values of arbitrary type. The source
 * keeps `Box<dyn Any>` values and downcasts on access; here every stored
 * value carries the name of its type, and an access names the type it
 * expects.
 */
module AnyKv {
  import opened Wrappers

  datatype Boxed<V> = Boxed(ty: string, value: V)

  datatype KvError =
    | NoKey          // `dscale`: "No key"
    | WrongTypeCast  // `dscale`: "Wrong type cast"
    | NoKeyFound     // `matrix`: one message for both failures

  /** A typed read of a map of boxed values, with the `dscale` errors. */
  function Lookup<V>(m: map<string, Boxed<V>>, key: string, ty: string): (r: Result<V, KvError>)
    ensures r.Ok? <==> key in m && m[key].ty == ty
    ensures r.Ok? ==> r.value == m[key].value
    ensures r == Err(NoKey) <==> key !in m
  {
    if key !in m then Err(NoKey)
    else if m[key].ty != ty then Err(WrongTypeCast)
    else Ok(m[key].value)
  }

  /** A write is read back by the same key and type, and leaves every other key as it was. */
  lemma LookupAfterStore<V>(m: map<string, Boxed<V>>, key: string, ty: string, v: V, other: string, oty: string)
    ensures Lookup(m[key := Boxed(ty, v)], key, ty) == Ok(v)
    ensures other != key ==> Lookup(m[key := Boxed(ty, v)], other, oty) == Lookup(m, other, oty)
  {
  }

  class Store<V> {
    var entries: map<string, Boxed<V>>

    constructor ()
      ensures entries == map[]
    {
      entries := map[];
    }

    /** `Set::<T>`: inserts or overwrites one key. */
    method Set(key: string, ty: string, value: V)
      modifies this
      ensures entries == old(entries)[key := Boxed(ty, value)]
    {
      entries := entries[key := Boxed(ty, value)];
    }

    /** `dscale` `Get::<T>`: a missing key or a stored value of another type aborts. */
    method Get(key: string, ty: string) returns (r: Result<V, KvError>)
      ensures r.Ok? <==> key in entries && entries[key].ty == ty
      ensures r.Ok? ==> r.value == entries[key].value
      ensures r.Err? ==> r.error == (if key in entries then WrongTypeCast else NoKey)
    {
      if key !in entries {
        return Err(NoKey);
      }
      if entries[key].ty != ty {
        return Err(WrongTypeCast);
      }
      return Ok(entries[key].value);
    }

    /** `matrix` `Get::<T>`: the same, with a single error for both failures. */
    method GetFound(key: string, ty: string) returns (r: Result<V, KvError>)
      ensures r.Ok? <==> key in entries && entries[key].ty == ty
      ensures r.Ok? ==> r.value == entries[key].value
      ensures r.Err? ==> r.error == NoKeyFound
    {
      if key in entries && entries[key].ty == ty {
        return Ok(entries[key].value);
      }
      return Err(NoKeyFound);
    }

    /** `dscale` `Modify::<T>`: updates one value in place; aborts on a missing key or wrong type. */
    method Modify(key: string, ty: string, f: V -> V) returns (r: Result<(), KvError>)
      modifies this
      ensures r.Ok? <==> key in old(entries) && old(entries)[key].ty == ty
      ensures r.Ok? ==> entries == old(entries)[key := Boxed(ty, f(old(entries)[key].value))]
      ensures r.Err? ==> entries == old(entries)
    {
      if key !in entries {
        return Err(NoKey);
      }
      if entries[key].ty != ty {
        return Err(WrongTypeCast);
      }
      entries := entries[key := Boxed(ty, f(entries[key].value))];
      return Ok(());
    }

    /** `matrix` `Modify::<T>`: the same update, and silently nothing on a missing key or wrong type. */
    method ModifyIfPresent(key: string, ty: string, f: V -> V)
      modifies this
      ensures if key in old(entries) && old(entries)[key].ty == ty
              then entries == old(entries)[key := Boxed(ty, f(old(entries)[key].value))]
              else entries == old(entries)
    {
      if key in entries && entries[key].ty == ty {
        entries := entries[key := Boxed(ty, f(entries[key].value))];
      }
    }

    /** `Drop`: empties the store. */
    method Drop()
      modifies this
      ensures entries == map[]
    {
      entries := map[];
    }
  }
}

/** Run-wide settings kept in the any-kv store: the process count and per-process seeds. */
module Configuration {
  import opened Wrappers
  import opened AnyKv
  import Decimal

  const USIZE: string := "usize"
  const U64: string := "u64"
  const PROC_NUM_KEY: string := "proc_num"

  /** The key `seeds/{id}` under which a process's seed is kept. */
  function SeedKey(id: nat): (k: string)
    ensures k != PROC_NUM_KEY
    ensures |k| > 6 && k[..6] == "seeds/"
  {
    var k := "seeds/" + Decimal.NatToString(id);
    assert k[0] == 's' != PROC_NUM_KEY[0];
    k
  }

  /** Every process has its own seed key. */
  lemma SeedKeyInjective(a: nat, b: nat)
    requires SeedKey(a) == SeedKey(b)
    ensures a == b
  {
    assert Decimal.NatToString(a) == SeedKey(a)[6..];
    Decimal.NatToStringInjective(a, b);
  }

  /**
   * Seeding process `id` changes nothing another process or the process
   * count reads, and process `id` reads back `base_seed + id`.
   */
  lemma {:induction false} SeedsAreIndependent(m: map<string, Boxed<nat>>, id: nat, base: nat, other: nat)
    ensures Lookup(m[SeedKey(id) := Boxed(U64, base + id)], SeedKey(id), U64) == Ok(base + id)
    ensures other != id ==>
      Lookup(m[SeedKey(id) := Boxed(U64, base + id)], SeedKey(other), U64) == Lookup(m, SeedKey(other), U64)
    ensures Lookup(m[SeedKey(id) := Boxed(U64, base + id)], PROC_NUM_KEY, USIZE) == Lookup(m, PROC_NUM_KEY, USIZE)
  {
    if other != id && SeedKey(other) == SeedKey(id) {
      SeedKeyInjective(other, id);
    }
  }

  /** `SetupGlobalConfiguration`: records the process count. */
  method SetupGlobalConfiguration(store: Store<nat>, procNum: nat)
    modifies store
    ensures store.entries == old(store.entries)[PROC_NUM_KEY := Boxed(USIZE, procNum)]
  {
    store.Set(PROC_NUM_KEY, USIZE, procNum);
  }

  /** `SetupLocalConfiguration`: process `id` gets the seed `base_seed + id`. */
  method SetupLocalConfiguration(store: Store<nat>, id: nat, baseSeed: nat)
    modifies store
    ensures store.entries == old(store.entries)[SeedKey(id) := Boxed(U64, baseSeed + id)]
  {
    store.Set(SeedKey(id), U64, baseSeed + id);
  }

  /** `Seed`: the seed of the process currently executing (`rank`). */
  method Seed(store: Store<nat>, rank: nat) returns (r: Result<nat, KvError>)
    ensures r == Lookup(store.entries, SeedKey(rank), U64)
  {
    r := store.Get(SeedKey(rank), U64);
  }

  /** `ProcessNumber`: the recorded process count. */
  method ProcessNumber(store: Store<nat>) returns (r: Result<nat, KvError>)
    ensures r == Lookup(store.entries, PROC_NUM_KEY, USIZE)
  {
    r := store.Get(PROC_NUM_KEY, USIZE);
  }
}
