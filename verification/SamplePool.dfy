/**
 A table's sample pool: the record counters and the sample that `OnInsert` and `OnDelete`
 (include/table_statistics.h) update together. Small tables are sampled on every core,
 large ones on the leader core only.
 */
module SamplePool {
  import C = RecordCounters
  import R = RandomPairing

  datatype State = State(counters: C.Counters, sample: R.Pool, leader: nat)

  datatype Event =
    | OnInsert(i: nat, key: int, draw: nat)
    | OnDelete(i: nat, key: int, draw: nat)

  /** Both operations count first and sample afterwards, with the count just updated. */
  function Next(s: State, e: Event): State
  {
    var sampled := s.counters.central <= s.sample.capacity || s.leader == e.i;
    match e
    case OnInsert(i, key, draw) =>
      if i >= |s.counters.shards| then s
      else
        var counters := C.Next(s.counters, C.Insert(i), s.sample.capacity);
        s.(counters := counters,
           sample := if sampled then R.Inserted(s.sample, key, Size(counters.central), draw) else s.sample)
    case OnDelete(i, key, draw) =>
      if i >= |s.counters.shards| || s.counters.shards[i] == 0 then s
      else
        var counters := C.Next(s.counters, C.Delete(i), s.sample.capacity);
        s.(counters := counters,
           sample := if sampled then R.Deleted(s.sample, key, Size(counters.central), draw) else s.sample)
  }

  /** The count as the unsigned dataset size. */
  function Size(count: int): nat
  {
    if count >= 0 then count else count % R.UINT64
  }

  class TableSamplePool {
    const counters: C.ShardCounters
    const sample: R.Sample
    const leader: nat

    ghost predicate Valid()
      reads this, counters, sample
    {
      counters.Valid() && counters.capacity == sample.capacity && R.Sound(sample.View())
    }

    ghost function View(): State
      requires Valid()
      reads this, counters, sample
    {
      State(counters.View(), sample.View(), leader)
    }

    /** An empty table on so many cores. */
    constructor (cores: nat, capacity: nat, leader: nat)
      requires cores > 0
      ensures Valid() && fresh(counters) && fresh(sample) && Inv(View())
      ensures View() == State(C.Counters(seq(cores, _ => 0), 0), R.Pool([], 0, 0, capacity), leader)
    {
      counters := new C.ShardCounters(cores, capacity);
      sample := new R.Sample.Empty(capacity);
      this.leader := leader;
      new;
      counters.SetRecords(0);
      assert counters.shards == seq(cores, _ => 0);
      EmptyIsSound(cores, capacity, leader);
    }

    /** Counts, then samples: on every core for a small table, on the leader alone for a large one. */
    method OnInsert(i: nat, key: int, draw: nat)
      requires Valid() && i < |counters.shards|
      modifies counters, sample
      ensures Valid() && View() == Next(old(View()), Event.OnInsert(i, key, draw))
    {
      var sampled := counters.central <= counters.capacity || leader == i;
      counters.OnInsert(i);
      if sampled {
        sample.InsertSound(key, Size(counters.central), draw);
      }
    }

    /** A core whose counter is at 0 ignores the deletion. */
    method OnDelete(i: nat, key: int, draw: nat)
      requires Valid() && i < |counters.shards|
      modifies counters, sample
      ensures counters.Valid() && counters.capacity == sample.capacity
      ensures counters.View() == Next(old(View()), Event.OnDelete(i, key, draw)).counters
      ensures sample.View() == Next(old(View()), Event.OnDelete(i, key, draw)).sample
      ensures old(sample.c1 + sample.c2) + 1 < R.UINT32 ==> Valid()
    {
      var sampled := counters.central <= counters.capacity || leader == i;
      if counters.shards[i] > 0 {
        counters.OnDelete(i);
        if sampled {
          if sample.c1 + sample.c2 + 1 < R.UINT32 {
            R.DeleteKeeps(sample.View(), key, Size(counters.central), draw);
          }
          var _ := sample.Delete(key, Size(counters.central), draw);
        }
      }
    }
  }

  function Run(s: State, es: seq<Event>): State
  {
    if es == [] then s else Next(Run(s, es[..|es| - 1]), es[|es| - 1])
  }

  function Deletes(es: seq<Event>): nat
  {
    if es == [] then 0 else Deletes(es[..|es| - 1]) + if es[|es| - 1].OnDelete? then 1 else 0
  }

  ghost predicate Inv(s: State)
  {
    && C.Inv(s.counters, s.sample.capacity)
    && R.Sound(s.sample)
    && |s.sample.keys| <= s.counters.central
  }

  /** An empty table is a sound start. */
  lemma {:induction false} EmptyIsSound(cores: nat, capacity: nat, leader: nat)
    requires cores > 0
    ensures Inv(State(C.Counters(seq(cores, _ => 0), 0), R.Pool([], 0, 0, capacity), leader))
  {
    var shards: seq<nat> := seq(cores, _ => 0);
    C.SumSpread(shards, 0, 0, cores);
    assert shards[..cores] == shards;
  }

  lemma {:induction false} CountersAfter(c: C.Counters, e: C.Event, capacity: nat)
    requires C.Inv(c, capacity) && e.i < |c.shards|
    requires e.Insert? || c.shards[e.i] > 0
    ensures C.Inv(C.Next(c, e, capacity), capacity)
    ensures var central := C.Next(c, e, capacity).central;
            && (c.central <= capacity ==> central == c.central + if e.Insert? then 1 else -1)
            && (c.central > capacity ==> central >= capacity)
            && central >= 0
  {
    var delta: int := if e.Insert? then 1 else -1;
    var shards := c.shards[e.i := c.shards[e.i] + delta];
    C.SumUpdate(c.shards, e.i, c.shards[e.i] + delta);
    C.SumBounds(shards, e.i);
    C.SumBounds(c.shards, e.i);
  }

  lemma {:induction false} InsertedSize(p: R.Pool, key: int, dataset: nat, draw: nat)
    requires R.Sound(p)
    ensures |R.Inserted(p, key, dataset, draw).keys| <= |p.keys| + 1
  {
    R.AddedKeys(p.keys, key);
    if R.Debt(p) == 0 && |p.keys| >= p.capacity {
      var random := R.Draw(draw, if dataset == 0 then R.UINT64 else dataset);
      if random < p.capacity { R.ReplacedKeys(p.keys, random, key); }
    }
  }

  lemma {:induction false} DeletedSize(p: R.Pool, key: int, dataset: nat, draw: nat)
    requires R.Sound(p) && |p.keys| <= dataset + 1
    ensures |R.Deleted(p, key, dataset, draw).keys| <= dataset
    ensures |R.Deleted(p, key, dataset, draw).keys| <= |p.keys|
  {
  }

  lemma {:induction false} OnInsertKeeps(s: State, i: nat, key: int, draw: nat)
    requires Inv(s) && i < |s.counters.shards|
    ensures var s' := Next(s, OnInsert(i, key, draw));
            && Inv(s') && s'.sample.capacity == s.sample.capacity
            && s'.sample.c1 + s'.sample.c2 <= s.sample.c1 + s.sample.c2
  {
    var central := C.Next(s.counters, C.Insert(i), s.sample.capacity).central;
    CountersAfter(s.counters, C.Insert(i), s.sample.capacity);
    R.InsertKeeps(s.sample, key, Size(central), draw);
    InsertedSize(s.sample, key, Size(central), draw);
  }

  lemma {:induction false} OnDeleteKeeps(s: State, i: nat, key: int, draw: nat)
    requires Inv(s) && i < |s.counters.shards| && s.counters.shards[i] > 0
    requires s.sample.c1 + s.sample.c2 + 1 < R.UINT32
    ensures var s' := Next(s, OnDelete(i, key, draw));
            && Inv(s') && s'.sample.capacity == s.sample.capacity
            && s'.sample.c1 + s'.sample.c2 <= s.sample.c1 + s.sample.c2 + 1
  {
    var central := C.Next(s.counters, C.Delete(i), s.sample.capacity).central;
    CountersAfter(s.counters, C.Delete(i), s.sample.capacity);
    R.DeleteKeeps(s.sample, key, Size(central), draw);
    DeletedSize(s.sample, key, Size(central), draw);
  }

  /**
   From a pool whose count is exact and covers its sample, in every run with fewer
   deletions than 32 bits count and whatever is drawn, the sample is never larger than
   the record count; it stays sorted and within the capacity.
   */
  lemma {:induction false} SampleNeverOutgrowsRecords(s: State, es: seq<Event>)
    requires Inv(s) && s.sample.c1 + s.sample.c2 + Deletes(es) < R.UINT32
    ensures Inv(Run(s, es)) && |Run(s, es).sample.keys| <= Run(s, es).counters.central
    ensures Run(s, es).sample.capacity == s.sample.capacity
    ensures Run(s, es).sample.c1 + Run(s, es).sample.c2 <= s.sample.c1 + s.sample.c2 + Deletes(es)
  {
    if es != [] {
      var e := es[|es| - 1];
      var r := Run(s, es[..|es| - 1]);
      SampleNeverOutgrowsRecords(s, es[..|es| - 1]);
      if e.i < |r.counters.shards| {
        match e
        case OnInsert(i, key, draw) => OnInsertKeeps(r, i, key, draw);
        case OnDelete(i, key, draw) => if r.counters.shards[i] > 0 { OnDeleteKeeps(r, i, key, draw); }
      }
    }
  }
}
