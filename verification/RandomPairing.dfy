/**
 The sample with deletion compensation, `RandomPairing` (include/random_pairing.h).

 Keys are integers under their usual order. A random draw is a parameter; one outside the
 range the code draws from stands for 0, so exactly the draws in range occur.
 */
module RandomPairing {
  import opened KeyOrder

  const UINT32: nat := 0x1_0000_0000
  const UINT64: nat := 0x1_0000_0000_0000_0000

  function Draw(draw: nat, range: nat): (random: nat)
    ensures range > 0 ==> random < range
  {
    if draw < range then draw else 0
  }

  /** The low 32 bits of a sum of two 32-bit numbers. */
  function Low32(n: nat): nat
  {
    if n < UINT32 then n else n - UINT32
  }

  function Added(keys: seq<int>, key: int): seq<int>
  {
    var lb := LowerBound(keys, key, 0);
    if lb < |keys| && keys[lb] == key then keys else keys[..lb] + [key] + keys[lb..]
  }

  function Removed(keys: seq<int>, i: nat): (r: seq<int>)
    requires i < |keys|
    ensures |r| == |keys| - 1
  {
    keys[..i] + keys[i + 1..]
  }

  function Replaced(keys: seq<int>, i: nat, key: int): seq<int>
    requires i < |keys|
  {
    if key in keys then keys else Added(Removed(keys, i), key)
  }

  /** `c1` counts deletions from the sample and `c2` the others, both 32 bits wide. */
  datatype Pool = Pool(keys: seq<int>, c1: nat, c2: nat, capacity: nat)

  /** The 32-bit sum the code tests and draws from. */
  function Debt(p: Pool): nat
  {
    Low32(p.c1 + p.c2)
  }

  function Inserted(p: Pool, key: int, dataset: nat, draw: nat): Pool
  {
    if Debt(p) == 0 then
      if |p.keys| < p.capacity then p.(keys := Added(p.keys, key))
      else
        var random := Draw(draw, if dataset == 0 then UINT64 else dataset);
        if random < p.capacity then p.(keys := Replaced(p.keys, random, key)) else p
    else
      var random := Draw(draw, Debt(p));
      if random < p.c1 then p.(c1 := p.c1 - 1, keys := Added(p.keys, key))
      else p.(c2 := Low32(p.c2 + UINT32 - 1))
  }

  function Deleted(p: Pool, key: int, dataset: nat, draw: nat): Pool
  {
    var lb := LowerBound(p.keys, key, 0);
    if lb < |p.keys| && p.keys[lb] == key then p.(c1 := Low32(p.c1 + 1), keys := Removed(p.keys, lb))
    else if p.keys == [] then p
    else if dataset >= |p.keys| then p.(c2 := Low32(p.c2 + 1))
    else p.(keys := Removed(p.keys, Draw(draw, dataset + 1)))
  }

  // ---------------------------------------------------------------------------
  // Sorted keys
  // ---------------------------------------------------------------------------

  ghost function Keys(keys: seq<int>): set<int>
  {
    set k | k in keys
  }

  ghost function Put(rest: seq<int>, i: nat, key: int): seq<int>
    requires i <= |rest|
  {
    rest[..i] + [key] + rest[i..]
  }

  lemma {:induction false} PutSorted(rest: seq<int>, i: nat, key: int)
    requires Increasing(rest) && i <= |rest|
    requires (i > 0 ==> rest[i - 1] < key) && (i < |rest| ==> key < rest[i])
    ensures Increasing(Put(rest, i, key))
  {
    var keys := Put(rest, i, key);
    assert forall j :: 0 <= j < i ==> keys[j] == rest[j] <= rest[i - 1];
    assert forall j :: i < j < |keys| ==> keys[j] == rest[j - 1] >= rest[i];
  }

  lemma {:induction false} SwapPut(rest: seq<int>, i: nat, key: int)
    requires 0 < i <= |rest|
    ensures Put(rest, i, key)[i] == key && Put(rest, i, key)[i - 1] == rest[i - 1]
    ensures Put(rest, i, key)[i := rest[i - 1]][i - 1 := key] == Put(rest, i - 1, key)
  {
  }

  /** To the left of where the key went the old keys are still in order. */
  lemma {:induction false} LeftOf(rest: seq<int>, right: nat, key: int, i: nat)
    requires Increasing(rest) && i <= right <= |rest|
    ensures i < right && i > 0 ==> Put(rest, right, key)[i - 1] < Put(rest, right, key)[i]
  {
  }

  lemma {:induction false} PutKeys(rest: seq<int>, i: nat, key: int)
    requires i <= |rest|
    ensures Keys(Put(rest, i, key)) == Keys(rest) + {key}
  {
    assert rest == rest[..i] + rest[i..];
  }

  lemma {:induction false} FoundKey(keys: seq<int>, key: int)
    requires Increasing(keys)
    ensures var lb := LowerBound(keys, key, 0); key in keys <==> lb < |keys| && keys[lb] == key
  {
    if key in keys {
      var i :| 0 <= i < |keys| && keys[i] == key;
    }
  }

  lemma {:induction false} AddedKeys(keys: seq<int>, key: int)
    requires Increasing(keys)
    ensures Increasing(Added(keys, key)) && Keys(Added(keys, key)) == Keys(keys) + {key}
    ensures |Added(keys, key)| == |keys| + if key in keys then 0 else 1
  {
    FoundKey(keys, key);
    var lb := LowerBound(keys, key, 0);
    if key !in keys {
      PutSorted(keys, lb, key);
      PutKeys(keys, lb, key);
    }
  }

  lemma {:induction false} RemovedKeys(keys: seq<int>, i: nat)
    requires Increasing(keys) && i < |keys|
    ensures Increasing(Removed(keys, i)) && Keys(Removed(keys, i)) == Keys(keys) - {keys[i]}
  {
    assert keys == keys[..i] + [keys[i]] + keys[i + 1..];
  }

  /** Replacing swaps exactly one old key for the new one, or does nothing if it is there. */
  lemma {:induction false} ReplacedKeys(keys: seq<int>, i: nat, key: int)
    requires Increasing(keys) && i < |keys|
    ensures Increasing(Replaced(keys, i, key)) && |Replaced(keys, i, key)| == |keys|
    ensures Keys(Replaced(keys, i, key)) == if key in keys then Keys(keys) else Keys(keys) - {keys[i]} + {key}
  {
    RemovedKeys(keys, i);
    AddedKeys(Removed(keys, i), key);
    assert key in Removed(keys, i) <==> key in Keys(Removed(keys, i));
    assert key in keys <==> key in Keys(keys);
  }

  class Sample {
    const capacity: nat
    var keys: seq<int>
    var c1: nat
    var c2: nat

    constructor Empty(capacity: nat)
      ensures View() == Pool([], 0, 0, capacity)
    {
      this.capacity := capacity;
      keys, c1, c2 := [], 0, 0;
    }

    /** Samples a given list of keys; it may be longer than the capacity. */
    constructor From(given: seq<int>, capacity: nat, draws: seq<nat>)
      requires |draws| == |given|
      ensures View() == Sampled(given, draws, |given|, capacity) && Sound(View())
    {
      this.capacity := capacity;
      keys, c1, c2 := [], 0, 0;
      new;
      InsertAll(given, draws);
    }

    method InsertAll(given: seq<int>, draws: seq<nat>)
      requires View() == Pool([], 0, 0, capacity) && |draws| == |given|
      modifies this
      ensures Took(View(), given, draws, |given|, capacity)
    {
      var i := 0;
      NoneTaken(given, draws, capacity);
      while i < |given|
        invariant 0 <= i <= |given|
        invariant Took(View(), given, draws, i, capacity)
      {
        InsertNext(given, draws, i);
        i := i + 1;
      }
    }

    method InsertNext(given: seq<int>, draws: seq<nat>, i: nat)
      requires i < |given| == |draws| && Took(View(), given, draws, i, capacity)
      modifies this
      ensures Took(View(), given, draws, i + 1, capacity)
    {
      InsertSound(given[i], i + 1, draws[i]);
    }

    function View(): Pool
      reads this
    {
      Pool(keys, c1, c2, capacity)
    }

    method ClearCounter()
      modifies this`c1, this`c2
      ensures View() == old(View()).(c1 := 0, c2 := 0)
    {
      c1, c2 := 0, 0;
    }

    method Clear()
      modifies this
      ensures View() == Pool([], 0, 0, capacity)
    {
      ClearCounter();
      keys := [];
    }

    /** Overwrites one key in place and swaps the new one towards its position. */
    method Replace(random: nat, key: int)
      requires Increasing(keys) && random < |keys|
      modifies this`keys
      ensures keys == Replaced(old(keys), random, key)
    {
      FoundKey(keys, key);
      var lb := LowerBound(keys, key, 0);
      if lb < |keys| && keys[lb] == key {
        return;
      }
      ghost var rest := Removed(keys, random);
      RemovedKeys(keys, random);
      assert key !in rest;
      keys := keys[random := key];
      assert keys == Put(rest, random, key);
      var right := SwapRight(random, key, rest);
      SwapLeft(random, key, rest, right);
    }

    method SwapRight(random: nat, key: int, ghost rest: seq<int>) returns (ghost right: nat)
      requires random <= |rest| && keys == Put(rest, random, key)
      modifies this`keys
      ensures random <= right <= |rest| && keys == Put(rest, right, key)
      ensures right > random ==> rest[right - 1] < key
      ensures right < |rest| ==> key <= rest[right]
    {
      var i := random;
      while i < |keys| - 1 && keys[i + 1] < keys[i]
        invariant random <= i <= |rest| && keys == Put(rest, i, key)
        invariant i > random ==> rest[i - 1] < key
      {
        keys := keys[i := keys[i + 1]][i + 1 := keys[i]];
        i := i + 1;
        assert keys == Put(rest, i, key);
      }
      right := i;
    }

    /** Walks left from where the new key was written; if it went right, there is nothing to do. */
    method SwapLeft(random: nat, key: int, ghost rest: seq<int>, ghost right: nat)
      requires Increasing(rest) && key !in rest
      requires random <= right <= |rest| && keys == Put(rest, right, key)
      requires right > random ==> rest[right - 1] < key
      requires right < |rest| ==> key <= rest[right]
      modifies this`keys
      ensures keys == Added(rest, key)
    {
      ghost var at: nat := right;
      var i := random;
      LeftOf(rest, right, key, random);
      while i > 0 && keys[i] < keys[i - 1]
        invariant 0 <= i <= random && at <= |rest| && keys == Put(rest, at, key)
        invariant if right > random then i == random && at == right else at == i
        invariant at < |rest| ==> key <= rest[at]
      {
        assert at == i;
        SwapPut(rest, i, key);
        keys := keys[i := keys[i - 1]][i - 1 := keys[i]];
        i, at := i - 1, i - 1;
        assert key < rest[at];
      }
      PutIsAdded(rest, at, key);
    }

    method InsertKey(key: int)
      modifies this`keys
      ensures keys == Added(old(keys), key)
    {
      var lb := LowerBound(keys, key, 0);
      if lb < |keys| {
        if key < keys[lb] {
          keys := keys[..lb] + [key] + keys[lb..];
        }
      } else {
        keys := keys + [key];
      }
    }

    /** `asserted` says whether the assertions on the size and the counters hold. */
    method Insert(key: int, dataset: nat, draw: nat) returns (asserted: bool)
      requires Representable(View())
      modifies this
      ensures View() == Inserted(old(View()), key, dataset, draw)
      ensures asserted <==> InsertAsserts(old(View()), draw)
      ensures Sound(old(View())) ==> asserted
    {
      asserted := true;
      var debt := Low32(c1 + c2);
      if debt <= 0 {
        if |keys| < capacity {
          InsertKey(key);
        } else {
          var random := Draw(draw, if dataset == 0 then UINT64 else dataset);
          if random < capacity {
            Replace(random, key);
          }
        }
      } else {
        var random := Draw(draw, debt);
        if random < c1 {
          asserted := |keys| < capacity;
          c1 := c1 - 1;
          InsertKey(key);
        } else {
          asserted := c2 > 0;
          c2 := Low32(c2 + UINT32 - 1);
        }
      }
    }

    method InsertSound(key: int, dataset: nat, draw: nat)
      requires Sound(View())
      modifies this
      ensures Sound(View()) && View() == Inserted(old(View()), key, dataset, draw)
    {
      InsertKeeps(View(), key, dataset, draw);
      var _ := Insert(key, dataset, draw);
    }

    /** `asserted` says whether the assertion on the size holds. */
    method Delete(key: int, dataset: nat, draw: nat) returns (asserted: bool)
      requires Representable(View())
      modifies this
      ensures View() == Deleted(old(View()), key, dataset, draw)
      ensures asserted <==> (key in old(keys) ==> old(|keys|) <= capacity)
      ensures Sound(old(View())) ==> asserted
    {
      asserted := true;
      FoundKey(keys, key);
      var lb := LowerBound(keys, key, 0);
      if lb < |keys| && keys[lb] == key {
        c1 := Low32(c1 + 1);
        keys := Removed(keys, lb);
        asserted := |keys| < capacity;
      } else if keys != [] {
        if dataset >= |keys| {
          c2 := Low32(c2 + 1);
        } else {
          keys := Removed(keys, Draw(draw, dataset + 1));
        }
      }
    }
  }

  /** Sorted keys, and counters of 32 bits. */
  ghost predicate Representable(p: Pool)
  {
    Increasing(p.keys) && p.c1 < UINT32 && p.c2 < UINT32
  }

  /** What an insertion asserts: room in the sample for a key it makes up for, or another deletion to forget. */
  predicate InsertAsserts(p: Pool, draw: nat)
  {
    Debt(p) == 0 || if Draw(draw, Debt(p)) < p.c1 then |p.keys| < p.capacity else p.c2 > 0
  }

  /** What the code's assertions need: sorted keys, and the deletion debt fits beside the sample. */
  ghost predicate Sound(p: Pool)
  {
    Increasing(p.keys) && |p.keys| + p.c1 <= p.capacity && p.c1 + p.c2 < UINT32
  }

  lemma {:induction false} NoWrap(p: Pool)
    requires Sound(p)
    ensures Debt(p) == p.c1 + p.c2
    ensures p.c2 > 0 ==> Low32(p.c2 + UINT32 - 1) == p.c2 - 1
  {
  }

  lemma {:induction false} PutIsAdded(rest: seq<int>, i: nat, key: int)
    requires Increasing(rest) && i <= |rest| && key !in rest
    requires (i > 0 ==> rest[i - 1] <= key) && (i < |rest| ==> key <= rest[i])
    ensures Put(rest, i, key) == Added(rest, key)
  {
    assert i > 0 ==> rest[i - 1] in rest;
    assert i < |rest| ==> rest[i] in rest;
    assert LowerBound(rest, key, 0) == i;
  }

  // ---------------------------------------------------------------------------
  // Every run
  // ---------------------------------------------------------------------------

  datatype Event =
    | Insert(key: int, dataset: nat, draw: nat)
    | Delete(key: int, dataset: nat, draw: nat)

  function Next(p: Pool, e: Event): Pool
  {
    match e
    case Insert(key, dataset, draw) => Inserted(p, key, dataset, draw)
    case Delete(key, dataset, draw) => Deleted(p, key, dataset, draw)
  }

  function Run(p: Pool, es: seq<Event>): Pool
  {
    if es == [] then p else Next(Run(p, es[..|es| - 1]), es[|es| - 1])
  }

  /** Inserting the first `n` given keys into an empty sample, each as the last of so many. */
  function Sampled(given: seq<int>, draws: seq<nat>, n: nat, capacity: nat): Pool
    requires n <= |given| == |draws|
  {
    if n == 0 then Pool([], 0, 0, capacity)
    else Inserted(Sampled(given, draws, n - 1, capacity), given[n - 1], n, draws[n - 1])
  }

  ghost predicate Took(p: Pool, given: seq<int>, draws: seq<nat>, n: nat, capacity: nat)
    requires n <= |given| == |draws|
  {
    p == Sampled(given, draws, n, capacity) && Sound(p)
  }

  lemma {:induction false} NoneTaken(given: seq<int>, draws: seq<nat>, capacity: nat)
    requires |given| == |draws|
    ensures Took(Pool([], 0, 0, capacity), given, draws, 0, capacity)
  {
  }

  function Deletes(es: seq<Event>): nat
  {
    if es == [] then 0 else Deletes(es[..|es| - 1]) + if es[|es| - 1].Delete? then 1 else 0
  }

  lemma {:induction false} InsertKeeps(p: Pool, key: int, dataset: nat, draw: nat)
    requires Sound(p)
    ensures var q := Inserted(p, key, dataset, draw);
            Sound(q) && q.capacity == p.capacity && q.c1 + q.c2 <= p.c1 + p.c2
  {
    NoWrap(p);
    AddedKeys(p.keys, key);
    if Debt(p) == 0 {
      if |p.keys| >= p.capacity {
        var random := Draw(draw, if dataset == 0 then UINT64 else dataset);
        if random < p.capacity { ReplacedKeys(p.keys, random, key); }
      }
    } else {
      var random := Draw(draw, Debt(p));
      assert random < p.c1 + p.c2;
    }
  }

  lemma {:induction false} DeleteKeeps(p: Pool, key: int, dataset: nat, draw: nat)
    requires Sound(p) && p.c1 + p.c2 + 1 < UINT32
    ensures var q := Deleted(p, key, dataset, draw);
            Sound(q) && q.capacity == p.capacity && q.c1 + q.c2 <= p.c1 + p.c2 + 1
  {
    var lb := LowerBound(p.keys, key, 0);
    if lb < |p.keys| && p.keys[lb] == key { RemovedKeys(p.keys, lb); }
    if p.keys != [] && dataset < |p.keys| { RemovedKeys(p.keys, Draw(draw, dataset + 1)); }
  }

  /**
   In every run with fewer deletions than 32 bits count, whatever is drawn: the sample is
   strictly sorted, and with the deletions still owed to it never exceeds the capacity.
   */
  lemma {:induction false} SampleStaysSound(p: Pool, es: seq<Event>)
    requires Sound(p) && p.c1 + p.c2 + Deletes(es) < UINT32
    ensures Sound(Run(p, es)) && Run(p, es).capacity == p.capacity
    ensures Run(p, es).c1 + Run(p, es).c2 <= p.c1 + p.c2 + Deletes(es)
  {
    if es != [] {
      var e := es[|es| - 1];
      var q := Run(p, es[..|es| - 1]);
      SampleStaysSound(p, es[..|es| - 1]);
      match e
      case Insert(key, dataset, draw) => InsertKeeps(q, key, dataset, draw);
      case Delete(key, dataset, draw) => DeleteKeeps(q, key, dataset, draw);
    }
  }

  // ---------------------------------------------------------------------------
  // The 32-bit counters wrap
  // ---------------------------------------------------------------------------

  lemma {:induction false} Then(p: Pool, es: seq<Event>, e: Event)
    ensures Run(p, es + [e]) == Next(Run(p, es), e)
    ensures Deletes(es + [e]) == Deletes(es) + if e.Delete? then 1 else 0
  {
    assert (es + [e])[..|es|] == es;
  }

  function Upto(n: nat): (s: seq<int>)
    ensures |s| == n && forall i :: 0 <= i < n ==> s[i] == i
  {
    seq(n, i => i)
  }

  lemma {:induction false} Fill(capacity: nat, n: nat) returns (es: seq<Event>)
    requires n <= capacity
    ensures Run(Pool([], 0, 0, capacity), es) == Pool(Upto(n), 0, 0, capacity) && Deletes(es) == 0
  {
    if n == 0 {
      es := [];
    } else {
      var before := Fill(capacity, n - 1);
      Then(Pool([], 0, 0, capacity), before, Insert(n - 1, 0, 0));
      es := before + [Insert(n - 1, 0, 0)];
      var keys := Upto(n - 1);
      var lb := LowerBound(keys, n - 1, 0);
      assert lb == n - 1;
      assert keys[..lb] + [n - 1] + keys[lb..] == Upto(n);
    }
  }

  /** A pool with keys, all of them to be found, that has been told of no deletion elsewhere. */
  ghost predicate Quiet(p: Pool)
  {
    p.c2 == 0 && p.keys != [] && forall i :: 0 <= i < |p.keys| ==> p.keys[i] >= 0
  }

  lemma {:induction false} DeletedElsewhere(p: Pool, n: nat)
    requires Quiet(p) && n + 1 < UINT32
    ensures Next(p.(c2 := n), Delete(-1, |p.keys|, 0)) == p.(c2 := n + 1)
  {
    assert LowerBound(p.keys, -1, 0) == 0;
  }

  lemma {:induction false} DeleteElsewhere(p: Pool, es: seq<Event>, n: nat) returns (es': seq<Event>)
    requires n < UINT32 && Quiet(Run(p, es))
    ensures Run(p, es') == Run(p, es).(c2 := n) && Deletes(es') == Deletes(es) + n
  {
    if n == 0 {
      es' := es;
    } else {
      var q := Run(p, es);
      var before := DeleteElsewhere(p, es, n - 1);
      DeletedElsewhere(q, n - 1);
      Then(p, before, Delete(-1, |q.keys|, 0));
      es' := before + [Delete(-1, |q.keys|, 0)];
    }
  }

  /** A run with 2^32 deletions after which sample and debt together exceed the capacity. */
  lemma {:induction false} WrapBreaksBound(capacity: nat) returns (es: seq<Event>)
    requires capacity >= 1
    ensures Deletes(es) == UINT32
    ensures |Run(Pool([], 0, 0, capacity), es).keys| + Run(Pool([], 0, 0, capacity), es).c1 > capacity
  {
    var p := Pool([], 0, 0, capacity);
    es := Fill(capacity, capacity);
    es := DeleteElsewhere(p, es, UINT32 - 1);
    Then(p, es, Delete(0, 0, 0));
    es := es + [Delete(0, 0, 0)];
    var q := Run(p, es);
    assert LowerBound(Upto(capacity), 0, 0) == 0;
    assert q == Pool(Removed(Upto(capacity), 0), 1, UINT32 - 1, capacity);
    assert LowerBound(q.keys, -1, 0) == 0;
    Then(p, es, Insert(-1, 0, 0));
    es := es + [Insert(-1, 0, 0)];
  }

  ghost predicate AlwaysFits(capacity: nat, deletions: nat)
  {
    forall es :: Deletes(es) <= deletions ==>
      var q := Run(Pool([], 0, 0, capacity), es); |q.keys| + q.c1 <= capacity
  }

  /** The bound holds in all runs of up to so many deletions exactly if 32 bits can count them. */
  lemma {:induction false} BoundExactlyBelowWrap(capacity: nat, deletions: nat)
    requires capacity >= 1
    ensures AlwaysFits(capacity, deletions) <==> deletions < UINT32
  {
    if deletions < UINT32 {
      forall es | Deletes(es) <= deletions
        ensures var q := Run(Pool([], 0, 0, capacity), es); |q.keys| + q.c1 <= capacity
      {
        SampleStaysSound(Pool([], 0, 0, capacity), es);
      }
    } else {
      var es := WrapBreaksBound(capacity);
    }
  }
}
