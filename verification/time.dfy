/** Simulated time: the `Jiffies` tick count and its operators. */
module Jiffy {
  import opened Wrappers
  import Decimal

  /** A point or span of simulated time. The derived default is zero ticks. */
  datatype Jiffies = Jiffies(ticks: nat)

  datatype TimeError = Underflow

  /** The derived ordering compares the tick counts. */
  predicate Le(a: Jiffies, b: Jiffies) {
    a.ticks <= b.ticks
  }

  predicate Lt(a: Jiffies, b: Jiffies) {
    a.ticks < b.ticks
  }

  function Add(a: Jiffies, b: Jiffies): (r: Jiffies)
    ensures Le(a, r) && Le(b, r)
    ensures Sub(r, b) == Ok(a)
  {
    Jiffies(a.ticks + b.ticks)
  }

  /** Subtraction of a later time underflows `usize`, which a debug build reports as a panic. */
  function Sub(a: Jiffies, b: Jiffies): (r: Result<Jiffies, TimeError>)
    ensures r.Ok? <==> Le(b, a)
    ensures r.Ok? ==> Le(r.value, a) && r.value.ticks + b.ticks == a.ticks
  {
    if b.ticks <= a.ticks then Ok(Jiffies(a.ticks - b.ticks)) else Err(Underflow)
  }

  /** `+=` with a raw tick count; `+=` with a `Jiffies` is `Add`. */
  function AddTicks(a: Jiffies, n: nat): (r: Jiffies)
    ensures r == Add(a, Jiffies(n))
  {
    Jiffies(a.ticks + n)
  }

  /** `usize * Jiffies`, a plain number (for example bytes per tick times ticks). */
  function Mul(k: nat, j: Jiffies): (r: nat)
    ensures r == 0 <==> k == 0 || j.ticks == 0
    ensures k > 0 ==> r >= j.ticks
  {
    k * j.ticks
  }

  /** The `Display` form, `Jiffies(n)`. */
  function Display(j: Jiffies): (s: string)
    ensures |s| > 9 && s[..8] == "Jiffies(" && s[|s| - 1] == ')'
    ensures s[8..|s| - 1] == DebugForm(j)
  {
    "Jiffies(" + Decimal.NatToString(j.ticks) + ")"
  }

  /** The `Debug` form, the bare number. */
  function DebugForm(j: Jiffies): (s: string)
    ensures Decimal.AllDigits(s)
  {
    Decimal.NatToString(j.ticks)
  }

  /** Both printed forms tell distinct times apart. */
  lemma PrintedFormsInjective(a: Jiffies, b: Jiffies)
    requires Display(a) == Display(b) || DebugForm(a) == DebugForm(b)
    ensures a == b
  {
    if Display(a) == Display(b) {
      assert DebugForm(a) == Display(a)[8..|Display(a)| - 1];
    }
    Decimal.NatToStringInjective(a.ticks, b.ticks);
  }
}

/** The global simulation clock (`dscale` and `matrix` hold identical copies). */
module Clock {
  import opened Jiffy

  class Clock {
    var now: Jiffies

    /** The clock starts at zero. */
    constructor ()
      ensures now == Jiffies(0)
    {
      now := Jiffies(0);
    }

    /** `drop_clock` / `Drop`: back to the default value. */
    method Drop()
      modifies this
      ensures now == Jiffies(0)
    {
      now := Jiffies(0);
    }

    /** Time never runs backwards; the source checks this with a debug assertion. */
    method FastForward(future: Jiffies)
      requires Le(now, future)
      modifies this
      ensures now == future && Le(old(now), now)
    {
      now := future;
    }

    function Now(): Jiffies
      reads this
    {
      now
    }
  }
}

/** The timestamp oracle: a counter that hands out unique ids. */
module Tso {
  class Tso {
    var counter: nat

    constructor ()
      ensures counter == 0
    {
      counter := 0;
    }

    /** `global_unique_id`: returns the current value and bumps the counter. */
    method GlobalUniqueId() returns (id: nat)
      modifies this
      ensures id == old(counter) && counter == old(counter) + 1
    {
      id := counter;
      counter := counter + 1;
    }

    method Drop()
      modifies this
      ensures counter == 0
    {
      counter := 0;
    }
  }

  /** The ids that `k` successive `GlobalUniqueId` calls return from counter `c`. */
  function Issued(c: nat, k: nat): (ids: seq<nat>)
    ensures |ids| == k
    decreases k
  {
    if k == 0 then [] else [c] + Issued(c + 1, k - 1)
  }

  /** Successive ids are strictly increasing and never below the starting counter, so never repeat. */
  lemma {:induction false} IssuedIncreasing(c: nat, k: nat, i: nat, j: nat)
    requires i < j < k
    ensures c <= Issued(c, k)[i] < Issued(c, k)[j] < c + k
    decreases k
  {
    if i > 0 {
      IssuedIncreasing(c + 1, k - 1, i - 1, j - 1);
    } else {
      IssuedBounds(c + 1, k - 1, j - 1);
    }
  }

  lemma {:induction false} IssuedBounds(c: nat, k: nat, i: nat)
    requires i < k
    ensures Issued(c, k)[i] == c + i
    decreases k
  {
    if i > 0 {
      IssuedBounds(c + 1, k - 1, i - 1);
    }
  }
}
