/**
 The equal-depth histogram of an index, `DistributionSteps` (include/distribution_steps.h).

 Keys are integers under their usual order and doubles are reals. Where a key lies inside
 an interval (`PosInInterval`) is a parameter with values in [0, 1], monotone in the key.
 */
module DistributionSteps {
  import opened Arithmetic
  import opened KeyOrder

  datatype Bound = NegativeInfinity | At(key: int) | PositiveInfinity

  type Position = (int, Bound, Bound) -> real

  predicate Within(key: int, lo: Bound, hi: Bound)
  {
    (lo.At? ==> lo.key < key) && (hi.At? ==> key <= hi.key)
  }

  ghost predicate Lawful(pos: Position)
  {
    && (forall key, lo, hi :: Within(key, lo, hi) ==> 0.0 <= pos(key, lo, hi) <= 1.0)
    && (forall key, key', lo, hi :: Within(key, lo, hi) && Within(key', lo, hi) && key <= key' ==>
          pos(key, lo, hi) <= pos(key', lo, hi))
  }

  /** The keys at positions 0, `len`, 2 * `len` and so on. */
  function Picked(keys: seq<int>, len: nat, n: nat): (steps: seq<int>)
    requires n * len <= |keys| && len > 0
    ensures |steps| == n
  {
    if n == 0 then []
    else
      assert n * len == (n - 1) * len + len;
      Picked(keys, len, n - 1) + [keys[(n - 1) * len]]
  }

  lemma {:induction false} PickedAt(keys: seq<int>, len: nat, n: nat, i: nat)
    requires n * len <= |keys| && len > 0 && i < n
    ensures i * len < |keys| && Picked(keys, len, n)[i] == keys[i * len]
  {
    assert n * len == (n - 1) * len + len;
    if i < n - 1 { PickedAt(keys, len, n - 1, i); }
  }

  lemma {:induction false} PickedIncreasing(keys: seq<int>, len: nat, n: nat)
    requires Increasing(keys) && n * len <= |keys| && len > 0
    ensures Increasing(Picked(keys, len, n))
    ensures forall i :: 0 <= i < n ==> Picked(keys, len, n)[i] in keys
  {
    var steps := Picked(keys, len, n);
    forall i | 0 <= i < n ensures steps[i] in keys {
      PickedAt(keys, len, n, i);
    }
    forall i, j | 0 <= i < j < n ensures steps[i] < steps[j] {
      PickedAt(keys, len, n, i);
      PickedAt(keys, len, n, j);
      Farther(i, j, len);
    }
  }

  /** How far apart the picked keys are: the last one is still within the set. */
  function StepLength(size: nat, mostSteps: nat): (len: nat)
    requires size > mostSteps > 0
    ensures len > 0 && mostSteps * len <= size
  {
    size / mostSteps
  }

  method PickEvery(keys: seq<int>, len: nat, n: nat) returns (steps: seq<int>)
    requires len > 0 && n * len <= |keys|
    ensures steps == Picked(keys, len, n)
  {
    steps := [];
    var iter, i := 0, 0;
    while i < n
      invariant 0 <= i <= n && iter == i * len <= |keys|
      invariant steps == Picked(keys, len, i)
    {
      Farther(i, n, len);
      steps := steps + [keys[iter]];
      iter := iter + len;
      i := i + 1;
    }
  }

  /** Picks every so-many-th key of a large set, or all of a small one; the code takes at most 128. */
  method Build(keys: seq<int>, mostSteps: nat) returns (steps: seq<int>)
    requires Increasing(keys) && mostSteps > 0
    ensures Increasing(steps)
    ensures |steps| == if |keys| > mostSteps then mostSteps else |keys|
    ensures forall i :: 0 <= i < |steps| ==> steps[i] in keys
    ensures steps == if |keys| > mostSteps then Picked(keys, StepLength(|keys|, mostSteps), mostSteps) else keys
  {
    if |keys| > mostSteps {
      var stepLength := StepLength(|keys|, mostSteps);
      steps := PickEvery(keys, stepLength, mostSteps);
      PickedIncreasing(keys, stepLength, mostSteps);
    } else {
      steps := [];
      var i := 0;
      while i < |keys|
        invariant 0 <= i <= |keys| && steps == keys[..i]
      {
        steps := steps + [keys[i]];
        i := i + 1;
      }
    }
  }

  function Before(steps: seq<int>, i: nat): Bound
    requires i <= |steps|
  {
    if i == 0 then NegativeInfinity else At(steps[i - 1])
  }

  function After(steps: seq<int>, i: nat): Bound
    requires i <= |steps|
  {
    if i == |steps| then PositiveInfinity else At(steps[i])
  }

  /** The share of the table below a key: whole buckets plus the position inside the last. */
  function Below(pos: Position, steps: seq<int>, key: int): real
    requires steps != []
  {
    var it := LowerBound(steps, key, 0);
    if it == |steps| then
      (|steps| as real + pos(key, At(steps[|steps| - 1]), PositiveInfinity)) / (|steps| as real + 1.0)
    else if it == 0 then
      pos(key, NegativeInfinity, At(steps[0])) / (|steps| as real + 1.0)
    else
      (it as real + pos(key, At(steps[it - 1]), At(steps[it]))) / (|steps| as real + 1.0)
  }

  function Selectivity(pos: Position, steps: seq<int>, min: int, max: int): real
    requires steps != []
  {
    if max <= min then 0.0 else Below(pos, steps, max) - Below(pos, steps, min)
  }

  /** The rank of a key among the buckets. */
  function Rank(pos: Position, steps: seq<int>, key: int): real
  {
    var it := LowerBound(steps, key, 0);
    it as real + pos(key, Before(steps, it), After(steps, it))
  }

  lemma {:induction false} BelowIsRank(pos: Position, steps: seq<int>, key: int)
    requires steps != []
    ensures Below(pos, steps, key) == Rank(pos, steps, key) / (|steps| as real + 1.0)
  {
  }

  lemma {:induction false} RankInBucket(pos: Position, steps: seq<int>, key: int)
    requires Lawful(pos)
    ensures var it := LowerBound(steps, key, 0);
            && Within(key, Before(steps, it), After(steps, it))
            && it as real <= Rank(pos, steps, key) <= it as real + 1.0
  {
  }

  lemma {:induction false} RankGrows(pos: Position, steps: seq<int>, key: int, key': int)
    requires Lawful(pos) && Increasing(steps) && key <= key'
    ensures Rank(pos, steps, key) <= Rank(pos, steps, key')
  {
    var it, it' := LowerBound(steps, key, 0), LowerBound(steps, key', 0);
    RankInBucket(pos, steps, key);
    RankInBucket(pos, steps, key');
    assert it <= it';
    if it < it' { assert it as real + 1.0 <= it' as real; }
  }

  lemma {:induction false} Shares(x: real, y: real, n: real)
    requires n > 0.0 && 0.0 <= x <= y <= n
    ensures 0.0 <= x / n <= y / n <= 1.0
  {
  }

  /** The share below a key is in [0, 1] and never falls as the key grows. */
  lemma {:induction false} BelowGrows(pos: Position, steps: seq<int>, key: int, key': int)
    requires Lawful(pos) && Increasing(steps) && steps != [] && key <= key'
    ensures 0.0 <= Below(pos, steps, key) <= Below(pos, steps, key') <= 1.0
  {
    RankGrows(pos, steps, key, key');
    RankInRange(pos, steps, key);
    RankInRange(pos, steps, key');
    Shares(Rank(pos, steps, key), Rank(pos, steps, key'), |steps| as real + 1.0);
    BelowIsRank(pos, steps, key);
    BelowIsRank(pos, steps, key');
  }

  lemma {:induction false} RankInRange(pos: Position, steps: seq<int>, key: int)
    requires Lawful(pos)
    ensures 0.0 <= Rank(pos, steps, key) <= |steps| as real + 1.0
  {
    RankInBucket(pos, steps, key);
    assert LowerBound(steps, key, 0) as real <= |steps| as real;
  }

  /**
   Every range takes a share in [0, 1], none if it is empty, and adjacent ranges add up.
   */
  lemma {:induction false} SelectivityAddsUp(pos: Position, steps: seq<int>, a: int, b: int, c: int)
    requires Lawful(pos) && Increasing(steps) && steps != []
    ensures 0.0 <= Selectivity(pos, steps, a, c) <= 1.0
    ensures c <= a ==> Selectivity(pos, steps, a, c) == 0.0
    ensures a <= b <= c ==>
              Selectivity(pos, steps, a, c) == Selectivity(pos, steps, a, b) + Selectivity(pos, steps, b, c)
  {
    if a < c { BelowGrows(pos, steps, a, c); }
  }
}
