/**
 The record counters of a sample pool (include/table_statistics.h): one counter per core
 and a central one, exact for small tables and refreshed now and then for large ones.

 Inserts and deletes are taken as atomic steps; the counters are unbounded integers.
 */
module RecordCounters {
  import opened Arithmetic

  const INT_RANGE: nat := 0x1_0000_0000

  datatype Counters = Counters(shards: seq<nat>, central: int)

  function Sum(s: seq<int>): int
  {
    if s == [] then 0 else Sum(s[..|s| - 1]) + s[|s| - 1]
  }

  /** `RunOnAllCcShards`. */
  predicate Small(c: Counters, capacity: nat)
  {
    c.central <= capacity
  }

  predicate NeedAccumulate(records: nat, cores: nat, capacity: nat)
    requires cores > 0
  {
    records <= capacity || records % cores == 0
  }

  /** The central counter after one core's counter has moved by `delta` to `shards[i]`. */
  function Central(c: Counters, shards: seq<nat>, i: nat, delta: int, capacity: nat): int
    requires i < |shards|
  {
    if Small(c, capacity) then (if delta > 0 || c.central > 0 then c.central + delta else c.central)
    else if NeedAccumulate(shards[i], |shards|, capacity) then Sum(shards)
    else c.central
  }

  datatype Event = Insert(i: nat) | Delete(i: nat)

  function Next(c: Counters, e: Event, capacity: nat): Counters
  {
    match e
    case Insert(i) =>
      if i >= |c.shards| then c
      else
        var shards := c.shards[i := c.shards[i] + 1];
        Counters(shards, Central(c, shards, i, 1, capacity))
    case Delete(i) =>
      if i >= |c.shards| || c.shards[i] == 0 then c
      else
        var shards := c.shards[i := c.shards[i] - 1];
        Counters(shards, Central(c, shards, i, -1, capacity))
  }

  function Run(c: Counters, es: seq<Event>, capacity: nat): Counters
  {
    if es == [] then c else Next(Run(c, es[..|es| - 1], capacity), es[|es| - 1], capacity)
  }

  /** The conversion of a quotient to a 32-bit int. */
  function ToInt(x: nat): int
  {
    var low := x % INT_RANGE;
    if low < INT_RANGE / 2 then low else low - INT_RANGE
  }

  class ShardCounters {
    const capacity: nat
    var shards: seq<int>
    var central: int

    constructor (cores: nat, capacity: nat)
      ensures this.capacity == capacity && |shards| == cores && central == 0
    {
      this.capacity := capacity;
      shards, central := seq(cores, _ => 0), 0;
    }

    /** Spreads a count over the cores; the quotient passes through a 32-bit int. */
    method SetRecords(records: nat)
      requires |shards| > 0
      modifies this
      ensures |shards| == old(|shards|) && central == records
      ensures forall i :: 0 <= i < |shards| ==>
                shards[i] == ToInt(records / |shards|) + if i < records % |shards| then 1 else 0
    {
      var n := ToInt(records / |shards|);
      var m := records % |shards|;
      var i := 0;
      while i < |shards|
        invariant 0 <= i <= |shards| && |shards| == old(|shards|)
        invariant forall j :: 0 <= j < i ==> shards[j] == n + if j < m then 1 else 0
      {
        shards := shards[i := n];
        if i < m {
          shards := shards[i := shards[i] + 1];
        }
        i := i + 1;
      }
      central := records;
    }

    method AccumulateRecords() returns (records: int)
      ensures records == Sum(shards)
    {
      records := 0;
      var i := 0;
      while i < |shards|
        invariant 0 <= i <= |shards| && records == Sum(shards[..i])
      {
        assert shards[..i + 1][..i] == shards[..i];
        records := records + shards[i];
        i := i + 1;
      }
      assert shards[..i] == shards;
    }

    ghost predicate Valid()
      reads this
    {
      forall i :: 0 <= i < |shards| ==> shards[i] >= 0
    }

    ghost function View(): Counters
      requires Valid()
      reads this
    {
      Counters(shards, central)
    }

    method OnInsert(i: nat)
      requires Valid() && i < |shards|
      modifies this
      ensures Valid() && View() == Next(old(View()), Insert(i), capacity)
    {
      var onAll := central <= capacity;
      shards := shards[i := shards[i] + 1];
      if onAll {
        central := central + 1;
      } else if shards[i] <= capacity || shards[i] % |shards| == 0 {
        central := AccumulateRecords();
      }
    }

    method OnDelete(i: nat)
      requires Valid() && i < |shards|
      modifies this
      ensures Valid() && View() == Next(old(View()), Delete(i), capacity)
    {
      var onAll := central <= capacity;
      if shards[i] > 0 {
        shards := shards[i := shards[i] - 1];
        if onAll {
          if central > 0 {
            central := central - 1;
          }
        } else if shards[i] <= capacity || shards[i] % |shards| == 0 {
          central := AccumulateRecords();
        }
      }
    }
  }

  // ---------------------------------------------------------------------------
  // Sums
  // ---------------------------------------------------------------------------

  lemma {:induction false} SumUpdate(s: seq<int>, i: nat, x: int)
    requires i < |s|
    ensures Sum(s[i := x]) == Sum(s) - s[i] + x
  {
    var n := |s| - 1;
    if i == n {
      assert s[i := x][..n] == s[..n];
    } else {
      SumUpdate(s[..n], i, x);
      assert s[i := x][..n] == s[..n][i := x];
    }
  }

  lemma {:induction false} SumBounds(s: seq<nat>, i: nat)
    requires i < |s|
    ensures s[i] <= Sum(s)
  {
    SumNonNegative(s[..|s| - 1]);
    if i < |s| - 1 { SumBounds(s[..|s| - 1], i); }
  }

  lemma {:induction false} SumNonNegative(s: seq<nat>)
    ensures 0 <= Sum(s)
  {
    if s != [] { SumNonNegative(s[..|s| - 1]); }
  }

  lemma {:induction false} SumSpread(s: seq<int>, n: int, m: nat, k: nat)
    requires k <= |s| && forall i :: 0 <= i < |s| ==> s[i] == n + if i < m then 1 else 0
    ensures Sum(s[..k]) == k * n + if k < m then k else m
  {
    if k > 0 {
      SumSpread(s, n, m, k - 1);
      assert s[..k][..k - 1] == s[..k - 1];
    }
  }

  /** `SetRecords` leaves the cores summing to the count exactly when the quotient fits a 32-bit int. */
  lemma {:induction false} SpreadIsExact(shards: seq<int>, records: nat)
    requires |shards| > 0
    requires forall i :: 0 <= i < |shards| ==>
               shards[i] == ToInt(records / |shards|) + if i < records % |shards| then 1 else 0
    ensures Sum(shards) == records <==> records / |shards| < INT_RANGE / 2
    ensures Sum(shards) == records ==> forall i :: 0 <= i < |shards| ==> shards[i] >= 0
  {
    var cores, q := |shards|, records / |shards|;
    SumSpread(shards, ToInt(q), records % cores, cores);
    assert shards[..cores] == shards;
    assert records == cores * q + records % cores;
    SameMultiple(cores, ToInt(q), q);
    ToIntExact(q);
  }

  lemma {:induction false} ToIntExact(q: nat)
    ensures ToInt(q) == q <==> q < INT_RANGE / 2
  {
  }

  // ---------------------------------------------------------------------------
  // Drift
  // ---------------------------------------------------------------------------

  /** Between its value when the sum was last taken and now, a core's counter met no multiple of `n`. */
  ghost predicate NoMultiple(n: nat, from: nat, to: nat)
    requires n > 0
  {
    forall x :: (from < x <= to || to <= x < from) ==> x % n != 0
  }

  /** `base` is what the cores held when the central counter was last equal to their sum. */
  ghost predicate Since(c: Counters, base: seq<nat>)
  {
    && |base| == |c.shards| > 0 && c.central == Sum(base)
    && (forall i :: 0 <= i < |base| ==> NoMultiple(|base|, base[i], c.shards[i]))
  }

  ghost predicate Inv(c: Counters, capacity: nat)
  {
    && |c.shards| > 0
    && (Small(c, capacity) ==> c.central == Sum(c.shards))
    && (Small(c, capacity) <==> Sum(c.shards) <= capacity)
  }

  lemma {:induction false} NoMultipleFrom(n: nat, from: nat, to: nat, next: nat)
    requires n > 0 && NoMultiple(n, from, to) && (next == to + 1 || to == next + 1) && next % n != 0
    ensures NoMultiple(n, from, next)
  {
  }

  lemma {:induction false} NoMultipleIsShort(n: nat, from: nat, to: nat)
    requires n > 0 && NoMultiple(n, from, to)
    ensures from - n < to < from + n
  {
    if to >= from + n {
      var x := from + n - from % n;
      assert from == n * (from / n) + from % n;
      RemainderIs(n, from / n + 1, 0);
    } else if from >= to + n {
      var x := from - 1 - (from - 1) % n;
      assert from - 1 == n * ((from - 1) / n) + (from - 1) % n;
      RemainderIs(n, (from - 1) / n, 0);
    }
  }

  lemma {:induction false} SumDrift(n: nat, base: seq<nat>, s: seq<nat>)
    requires n > 0 && |base| == |s| && forall i :: 0 <= i < |base| ==> NoMultiple(n, base[i], s[i])
    ensures -|s| * (n - 1) <= Sum(s) - Sum(base) <= |s| * (n - 1)
  {
    if s != [] {
      var k := |s| - 1;
      SumDrift(n, base[..k], s[..k]);
      NoMultipleIsShort(n, base[k], s[k]);
      assert |s| * (n - 1) == k * (n - 1) + (n - 1);
    }
  }

  /** One core's counter moves by one: how the invariants follow, whichever direction. */
  lemma {:induction false} MoveKeeps(
    c: Counters, i: nat, delta: int, capacity: nat, base: seq<nat>)
    returns (base': seq<nat>)
    requires Inv(c, capacity) && Since(c, base) && i < |c.shards|
    requires delta == 1 || (delta == -1 && c.shards[i] > 0)
    ensures var shards := c.shards[i := c.shards[i] + delta];
            var c' := Counters(shards, Central(c, shards, i, delta, capacity));
            Inv(c', capacity) && Since(c', base')
  {
    var shards := c.shards[i := c.shards[i] + delta];
    var central := Central(c, shards, i, delta, capacity);
    SumUpdate(c.shards, i, c.shards[i] + delta);
    SumBounds(shards, i);
    SumBounds(c.shards, i);
    if central == Sum(shards) {
      base' := shards;
    } else {
      base' := base;
      NoMultipleFrom(|base|, base[i], c.shards[i], shards[i]);
    }
  }

  lemma {:induction false} NextKeeps(c: Counters, e: Event, capacity: nat, base: seq<nat>) returns (base': seq<nat>)
    requires Inv(c, capacity) && Since(c, base)
    ensures Inv(Next(c, e, capacity), capacity) && Since(Next(c, e, capacity), base')
  {
    if e.i < |c.shards| && (e.Insert? || c.shards[e.i] > 0) {
      base' := MoveKeeps(c, e.i, if e.Insert? then 1 else -1, capacity, base);
    } else {
      base' := base;
    }
  }

  lemma {:induction false} RunKeeps(c: Counters, es: seq<Event>, capacity: nat) returns (base: seq<nat>)
    requires |c.shards| > 0 && c.central == Sum(c.shards)
    ensures Inv(Run(c, es, capacity), capacity) && Since(Run(c, es, capacity), base)
    ensures |Run(c, es, capacity).shards| == |c.shards|
  {
    if es == [] {
      base := c.shards;
    } else {
      base := RunKeeps(c, es[..|es| - 1], capacity);
      base := NextKeeps(Run(c, es[..|es| - 1], capacity), es[|es| - 1], capacity, base);
    }
  }

  /**
   From an exact start, in every run of inserts and deletes on N cores the central count
   is the sum of the cores' counters whenever it is at most the capacity, it is at most
   the capacity just when that sum is, and it is never further off than N * (N - 1).
   */
  lemma {:induction false} DriftIsBounded(c: Counters, es: seq<Event>, capacity: nat)
    requires |c.shards| > 0 && c.central == Sum(c.shards)
    ensures var r := Run(c, es, capacity); var n := |c.shards|;
            && (r.central <= capacity ==> r.central == Sum(r.shards))
            && (r.central <= capacity <==> Sum(r.shards) <= capacity)
            && -n * (n - 1) <= r.central - Sum(r.shards) <= n * (n - 1)
  {
    var base := RunKeeps(c, es, capacity);
    SumDrift(|c.shards|, base, Run(c, es, capacity).shards);
  }

  // ---------------------------------------------------------------------------
  // The bound is reached
  // ---------------------------------------------------------------------------

  /** Inserts that take core `i` from a multiple of the core count to just below the next. */
  lemma {:induction false} Climb(
    c: Counters, es: seq<Event>, i: nat, q: nat, j: nat, capacity: nat)
    returns (es': seq<Event>)
    requires var r := Run(c, es, capacity);
             i < |r.shards| && j < |r.shards| && r.shards[i] == |r.shards| * q && capacity < q && capacity < r.central
    ensures var r := Run(c, es, capacity);
            Run(c, es', capacity) == Counters(r.shards[i := |r.shards| * q + j], r.central)
    decreases j
  {
    var r := Run(c, es, capacity);
    if j == 0 {
      es' := es;
      assert r.shards[i := r.shards[i]] == r.shards;
    } else {
      var n := |r.shards|;
      es' := Climb(c, es, i, q, j - 1, capacity);
      var s := Run(c, es', capacity);
      es' := es' + [Insert(i)];
      assert es'[..|es'| - 1] + [Insert(i)] == es';
      RemainderIs(n, q, j);
      assert n * q >= q;
      assert Run(c, es', capacity) == Next(s, Insert(i), capacity);
      assert s.shards[i := n * q + j] == r.shards[i := n * q + j];
    }
  }

  lemma {:induction false} ClimbAll(c: Counters, q: nat, k: nat, capacity: nat) returns (es: seq<Event>)
    requires k <= |c.shards| && capacity < q && capacity < c.central
    requires forall i :: 0 <= i < |c.shards| ==> c.shards[i] == |c.shards| * q
    ensures var r := Run(c, es, capacity);
            && |r.shards| == |c.shards| && r.central == c.central
            && Sum(r.shards) == Sum(c.shards) + k * (|c.shards| - 1)
            && forall i :: k <= i < |c.shards| ==> r.shards[i] == c.shards[i]
  {
    if k == 0 {
      es := [];
    } else {
      var n := |c.shards|;
      es := ClimbAll(c, q, k - 1, capacity);
      var r := Run(c, es, capacity);
      es := Climb(c, es, k - 1, q, n - 1, capacity);
      SumUpdate(r.shards, k - 1, n * q + (n - 1));
      assert k * (n - 1) == (k - 1) * (n - 1) + (n - 1);
    }
  }

  /** The drift bound is the best possible: some run is off by exactly N * (N - 1). */
  lemma {:induction false} DriftIsReached(n: nat, capacity: nat) returns (c: Counters, es: seq<Event>)
    requires n > 0
    ensures |c.shards| == n && c.central == Sum(c.shards)
    ensures Sum(Run(c, es, capacity).shards) - Run(c, es, capacity).central == n * (n - 1)
  {
    var q := capacity + 1;
    var shards := seq(n, _ => n * q);
    c := Counters(shards, Sum(shards));
    SumBounds(shards, 0);
    assert n * q >= q;
    es := ClimbAll(c, q, n, capacity);
  }
}
