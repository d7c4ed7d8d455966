/**
 Records per key prefix from a sorted sample: `IndexDistribution::CalRecordsPerKey`
 (include/table_statistics.h).

 A key is its sequence of column values; `CompareKeys` reports the first column in which
 two keys differ. Doubles are reals and the counters are unbounded.
 */
module PrefixCounts {

  type Key = seq<int>

  /** The first column in which two keys differ, or their common length. */
  function FirstDiff(a: Key, b: Key): (d: nat)
    requires |a| == |b|
    ensures d <= |a| && a[..d] == b[..d]
    ensures d < |a| ==> a[d] != b[d]
  {
    if a == [] || a[0] != b[0] then 0 else 1 + FirstDiff(a[1..], b[1..])
  }

  predicate Less(a: Key, b: Key)
    requires |a| == |b|
  {
    var d := FirstDiff(a, b);
    d < |a| && a[d] < b[d]
  }

  /** The keys of a set ordered by column, all with the same number of columns. */
  predicate SortedKeys(keys: seq<Key>, parts: nat)
  {
    && (forall i :: 0 <= i < |keys| ==> |keys[i]| == parts)
    && (forall i, j :: 0 <= i < j < |keys| ==> Less(keys[i], keys[j]))
  }

  ghost function Prefixes(keys: seq<Key>, len: nat): set<Key>
    requires forall i :: 0 <= i < |keys| ==> len <= |keys[i]|
  {
    set i | 0 <= i < |keys| :: keys[i][..len]
  }

  // ---------------------------------------------------------------------------
  // Neighbours suffice
  // ---------------------------------------------------------------------------

  /** How many keys among the first `n` differ from their predecessor within `len` columns. */
  function Changes(keys: seq<Key>, len: nat, n: nat): nat
    requires n <= |keys| && forall i :: 0 <= i < |keys| ==> |keys[i]| == |keys[0]|
  {
    if n == 0 then 0
    else Changes(keys, len, n - 1) + if n == 1 || FirstDiff(keys[n - 2], keys[n - 1]) < len then 1 else 0
  }

  lemma {:induction false} PrefixBeyondDiff(a: Key, b: Key, len: nat)
    requires len <= |a| == |b|
    ensures a[..len] == b[..len] <==> len <= FirstDiff(a, b)
  {
    var d := FirstDiff(a, b);
    if len <= d {
      assert a[..len] == a[..d][..len] && b[..len] == b[..d][..len];
    } else {
      assert a[..len][d] != b[..len][d];
    }
  }

  lemma {:induction false} DiffAt(a: Key, b: Key, d: nat)
    requires d < |a| == |b| && a[..d] == b[..d] && a[d] != b[d]
    ensures FirstDiff(a, b) == d
  {
    PrefixBeyondDiff(a, b, d);
    PrefixBeyondDiff(a, b, d + 1);
    assert a[..d + 1][d] != b[..d + 1][d];
  }

  /** Along an ordered chain the outer keys differ first where one of the steps first does. */
  lemma {:induction false} DiffOfChain(a: Key, b: Key, c: Key)
    requires |a| == |b| == |c| && Less(a, b) && Less(b, c)
    ensures FirstDiff(a, c) <= FirstDiff(a, b)
  {
    var d, e := FirstDiff(a, b), FirstDiff(b, c);
    var m := if d < e then d else e;
    assert a[..m] == a[..d][..m] && b[..m] == b[..d][..m] && b[..m] == b[..e][..m] && c[..m] == c[..e][..m];
    assert e < d ==> a[e] == a[..d][e] && b[e] == b[..d][e];
    assert d < e ==> b[d] == b[..e][d] && c[d] == c[..e][d];
    DiffAt(a, c, m);
  }

  /** A key between two that share a prefix shares it too. */
  lemma {:induction false} Between(a: Key, b: Key, c: Key, len: nat)
    requires len <= |a| == |b| == |c| && Less(a, b) && Less(b, c) && a[..len] == c[..len]
    ensures b[..len] == a[..len]
  {
    DiffOfChain(a, b, c);
    PrefixBeyondDiff(a, c, len);
    PrefixBeyondDiff(a, b, len);
  }

  lemma {:induction false} NewPrefix(keys: seq<Key>, parts: nat, len: nat, n: nat)
    requires SortedKeys(keys, parts) && len <= parts && 0 < n < |keys|
    ensures keys[n][..len] in Prefixes(keys[..n], len) <==> len <= FirstDiff(keys[n - 1], keys[n])
  {
    PrefixBeyondDiff(keys[n - 1], keys[n], len);
    if keys[n - 1][..len] == keys[n][..len] {
      assert keys[..n][n - 1][..len] == keys[n][..len];
    }
    if keys[n][..len] in Prefixes(keys[..n], len) {
      var i :| 0 <= i < n && keys[..n][i][..len] == keys[n][..len];
      if i < n - 1 { Between(keys[i], keys[n - 1], keys[n], len); }
    }
  }

  lemma {:induction false} NoPrefixes(len: nat)
    ensures Prefixes([], len) == {}
  {
  }

  lemma {:induction false} OneMorePrefix(keys: seq<Key>, parts: nat, len: nat, n: nat)
    requires SortedKeys(keys, parts) && len <= parts && 0 < n <= |keys|
    ensures |Prefixes(keys[..n], len)|
         == |Prefixes(keys[..n - 1], len)| + if n == 1 || FirstDiff(keys[n - 2], keys[n - 1]) < len then 1 else 0
  {
    AddPrefix(keys, len, n);
    CountWith(Prefixes(keys[..n - 1], len), keys[n - 1][..len]);
    if n == 1 {
      NoPrefixes(len);
    } else {
      NewPrefix(keys, parts, len, n - 1);
    }
  }

  /** Comparing neighbours only counts exactly the distinct prefixes. */
  lemma {:induction false} ChangesAreDistinctPrefixes(keys: seq<Key>, parts: nat, len: nat, n: nat)
    requires SortedKeys(keys, parts) && len <= parts && n <= |keys|
    ensures Changes(keys, len, n) == |Prefixes(keys[..n], len)|
  {
    if n == 0 {
      NoPrefixes(len);
    } else {
      ChangesAreDistinctPrefixes(keys, parts, len, n - 1);
      OneMorePrefix(keys, parts, len, n);
    }
  }

  lemma {:induction false} CountWith(prefixes: set<Key>, p: Key)
    ensures |prefixes + {p}| == |prefixes| + if p in prefixes then 0 else 1
  {
    if p in prefixes { assert prefixes + {p} == prefixes; }
  }

  lemma {:induction false} AddPrefix(keys: seq<Key>, len: nat, n: nat)
    requires 0 < n <= |keys| && forall i :: 0 <= i < |keys| ==> len <= |keys[i]|
    ensures Prefixes(keys[..n], len) == Prefixes(keys[..n - 1], len) + {keys[n - 1][..len]}
  {
    var all, before := Prefixes(keys[..n], len), Prefixes(keys[..n - 1], len);
    assert keys[..n][n - 1][..len] in all;
    forall i | 0 <= i < n ensures keys[..n][i][..len] in before + {keys[n - 1][..len]} {
      if i < n - 1 { assert keys[..n - 1][i][..len] in before; }
    }
    var rest := keys[..n - 1];
    forall i | 0 <= i < |rest| ensures rest[i][..len] in all {
      assert keys[..n][i][..len] in all;
    }
  }

  lemma {:induction false} ChangesGrow(keys: seq<Key>, a: nat, b: nat, n: nat)
    requires n <= |keys| && a <= b && forall i :: 0 <= i < |keys| ==> |keys[i]| == |keys[0]|
    ensures Changes(keys, a, n) <= Changes(keys, b, n) <= n
    ensures n > 0 ==> 1 <= Changes(keys, a, n)
  {
    if n > 0 { ChangesGrow(keys, a, b, n - 1); }
  }

  /** The whole keys of a set are all distinct. */
  lemma {:induction false} WholeKeysDiffer(keys: seq<Key>, parts: nat, n: nat)
    requires SortedKeys(keys, parts) && n <= |keys|
    ensures Changes(keys, parts, n) == n
  {
    if n > 0 { WholeKeysDiffer(keys, parts, n - 1); }
  }

  // ---------------------------------------------------------------------------
  // Scaling up
  // ---------------------------------------------------------------------------

  /** The distinct values expected among `records` when `sample` keys show `distinct`. */
  function Scaled(records: nat, distinct: nat, sample: nat): int
  {
    if sample <= 1 then 1
    else (((records - 1) * (distinct - 1)) as real / (sample - 1) as real + 1.0).Floor
  }

  lemma {:induction false} Quotient(x: int, y: int, d: int)
    requires d > 0 && x <= y
    ensures x as real / d as real <= y as real / d as real
  {
  }

  lemma {:induction false} ExactQuotient(x: int, d: int)
    requires d > 0
    ensures (x * d) as real / d as real == x as real
  {
    assert (x * d) as real == x as real * d as real;
  }

  lemma {:induction false} ScaledGrows(records: nat, a: nat, b: nat, sample: nat)
    requires 1 <= records && a <= b
    ensures Scaled(records, a, sample) <= Scaled(records, b, sample)
  {
    if sample > 1 {
      assert (records - 1) * (b - a) >= 0;
      Quotient((records - 1) * (a - 1), (records - 1) * (b - 1), sample - 1);
    }
  }

  /** One value stays one, all different stays all different, and the rest lies between. */
  lemma {:induction false} ScaledRange(records: nat, distinct: nat, sample: nat)
    requires 1 <= distinct <= sample <= records
    ensures 1 <= Scaled(records, distinct, sample) <= records
    ensures distinct == 1 ==> Scaled(records, distinct, sample) == 1
    ensures distinct == sample > 1 ==> Scaled(records, distinct, sample) == records
  {
    if sample > 1 {
      ExactQuotient(records - 1, sample - 1);
      ExactQuotient(0, sample - 1);
      assert Scaled(records, sample, sample) == records;
      assert Scaled(records, 1, sample) == 1;
      ScaledGrows(records, 1, distinct, sample);
      ScaledGrows(records, distinct, sample, sample);
    }
  }

  lemma {:induction false} RatioAtLeastOne(records: nat, distinct: nat)
    requires 1 <= distinct <= records
    ensures records as real / distinct as real >= 1.0
  {
  }

  lemma {:induction false} RatioFalls(records: nat, a: nat, b: nat)
    requires 1 <= a <= b
    ensures records as real / b as real <= records as real / a as real
  {
    var x, y := records as real / a as real, records as real / b as real;
    assert x * a as real == records as real == y * b as real;
  }

  /** What a count over a sample can be; the sample is no larger than the table. */
  predicate Plausible(records: nat, distinct: nat, sample: nat)
  {
    sample <= records && (sample <= 1 || 1 <= distinct <= sample)
  }

  function PerKey(records: nat, distinct: nat, sample: nat): (r: real)
    requires Plausible(records, distinct, sample)
    ensures r >= 1.0
  {
    if records == 0 then 1.0
    else
      if sample > 1 then
        ScaledRange(records, distinct, sample);
        RatioAtLeastOne(records, Scaled(records, distinct, sample));
        records as real / Scaled(records, distinct, sample) as real
      else records as real / 1.0
  }

  lemma {:induction false} PerKeyFalls(records: nat, a: nat, b: nat, sample: nat)
    requires Plausible(records, a, sample) && Plausible(records, b, sample) && a <= b
    ensures PerKey(records, b, sample) <= PerKey(records, a, sample)
  {
    if sample > 1 {
      ScaledRange(records, a, sample);
      ScaledGrows(records, a, b, sample);
      RatioFalls(records, Scaled(records, a, sample), Scaled(records, b, sample));
    }
  }

  lemma {:induction false} PerKeyOfWhole(records: nat, sample: nat)
    requires 1 < sample <= records
    ensures PerKey(records, sample, sample) == 1.0
  {
    ScaledRange(records, sample, sample);
    RatioOfSame(records as real);
  }

  lemma {:induction false} RatioOfSame(x: real)
    requires x > 0.0
    ensures x / x == 1.0
  {
  }

  function Max(a: nat, b: nat): nat
  {
    if a < b then b else a
  }

  method CountFrom(counts: seq<nat>, diff: nat) returns (after: seq<nat>)
    ensures |after| == |counts|
    ensures forall j :: 0 <= j < |counts| ==> after[j] == counts[j] + if diff <= j then 1 else 0
  {
    after := counts;
    var i := diff;
    while i < |after|
      invariant diff <= i && |after| == |counts|
      invariant forall j :: 0 <= j < |counts| ==> after[j] == counts[j] + if diff <= j < i then 1 else 0
    {
      after := after[i := after[i] + 1];
      i := i + 1;
    }
  }

  /** Counts, per prefix length, the keys that differ from the one before them: the distinct prefixes. */
  method CountPrefixes(keys: seq<Key>, parts: nat) returns (counts: seq<nat>)
    requires SortedKeys(keys, parts)
    ensures |counts| == parts
    ensures forall i :: 0 <= i < parts ==> counts[i] == |Prefixes(keys, i + 1)|
  {
    counts := seq(parts, _ => 0);
    var n := 0;
    while n < |keys|
      invariant 0 <= n <= |keys| && |counts| == parts
      invariant Counted(keys, counts, n)
    {
      var diff := if n == 0 then 0 else FirstDiff(keys[n - 1], keys[n]);
      var after := CountFrom(counts, diff);
      CountedOneMore(keys, counts, n, diff, after);
      counts := after;
      n := n + 1;
    }
    CountedAll(keys, counts);
  }

  ghost predicate Counted(keys: seq<Key>, counts: seq<nat>, n: nat)
    requires n <= |keys| && forall i :: 0 <= i < |keys| ==> |keys[i]| == |keys[0]|
  {
    forall i :: 0 <= i < |counts| ==> counts[i] == Changes(keys, i + 1, n)
  }

  lemma {:induction false} CountedOneMore(keys: seq<Key>, counts: seq<nat>, n: nat, diff: nat, after: seq<nat>)
    requires n < |keys| && forall i :: 0 <= i < |keys| ==> |keys[i]| == |keys[0]|
    requires Counted(keys, counts, n) && |after| == |counts|
    requires diff == if n == 0 then 0 else FirstDiff(keys[n - 1], keys[n])
    requires forall j :: 0 <= j < |counts| ==> after[j] == counts[j] + if diff <= j then 1 else 0
    ensures Counted(keys, after, n + 1)
  {
    forall i | 0 <= i < |after| ensures after[i] == Changes(keys, i + 1, n + 1) {
      assert counts[i] == Changes(keys, i + 1, n);
    }
  }

  lemma {:induction false} CountedAll(keys: seq<Key>, counts: seq<nat>)
    requires SortedKeys(keys, |counts|) && Counted(keys, counts, |keys|)
    ensures forall i :: 0 <= i < |counts| ==> counts[i] == |Prefixes(keys, i + 1)|
  {
    assert keys[..|keys|] == keys;
    forall i | 0 <= i < |counts| ensures counts[i] == |Prefixes(keys, i + 1)| {
      ChangesAreDistinctPrefixes(keys, |counts|, i + 1, |keys|);
    }
  }

  /** Longer prefixes are no fewer, none are fewer than one or more than the keys, and whole keys are all distinct. */
  lemma {:induction false} DistinctPrefixes(keys: seq<Key>, parts: nat, a: nat, b: nat)
    requires SortedKeys(keys, parts) && a <= b <= parts
    ensures |Prefixes(keys, a)| <= |Prefixes(keys, b)| <= |keys|
    ensures keys != [] ==> 1 <= |Prefixes(keys, a)|
    ensures |Prefixes(keys, parts)| == |keys|
  {
    assert keys[..|keys|] == keys;
    ChangesAreDistinctPrefixes(keys, parts, a, |keys|);
    ChangesAreDistinctPrefixes(keys, parts, b, |keys|);
    ChangesAreDistinctPrefixes(keys, parts, parts, |keys|);
    ChangesGrow(keys, a, b, |keys|);
    WholeKeysDiffer(keys, parts, |keys|);
  }

  /** The estimate for the prefix of `len` columns. */
  ghost function Estimate(total: nat, keys: seq<Key>, parts: nat, len: nat): real
    requires SortedKeys(keys, parts) && len <= parts
  {
    DistinctPrefixes(keys, parts, len, len);
    PerKey(Max(total, |keys|), |Prefixes(keys, len)|, |keys|)
  }

  method CalRecordsPerKey(total: nat, keys: seq<Key>, parts: nat) returns (perKey: seq<real>)
    requires SortedKeys(keys, parts)
    ensures |perKey| == parts
    ensures forall i :: 0 <= i < parts ==> perKey[i] == Estimate(total, keys, parts, i + 1)
  {
    var records := Max(total, |keys|);
    var counts := CountPrefixes(keys, parts);
    perKey := [];
    var i := 0;
    while i < parts
      invariant 0 <= i <= parts && |perKey| == i
      invariant forall j :: 0 <= j < i ==> perKey[j] == Estimate(total, keys, parts, j + 1)
    {
      DistinctPrefixes(keys, parts, i + 1, i + 1);
      perKey := perKey + [PerKey(records, counts[i], |keys|)];
      i := i + 1;
    }
  }

  /**
   Records per key prefix is at least one, falls as the prefix grows, and is exactly one
   for the whole key as soon as the sample has two keys.
   */
  lemma {:induction false} EstimatesFall(total: nat, keys: seq<Key>, parts: nat, a: nat, b: nat)
    requires SortedKeys(keys, parts) && a <= b <= parts
    ensures 1.0 <= Estimate(total, keys, parts, b) <= Estimate(total, keys, parts, a)
    ensures |keys| > 1 ==> Estimate(total, keys, parts, parts) == 1.0
  {
    var records := Max(total, |keys|);
    DistinctPrefixes(keys, parts, a, b);
    DistinctPrefixes(keys, parts, b, b);
    PerKeyFalls(records, |Prefixes(keys, a)|, |Prefixes(keys, b)|, |keys|);
    if |keys| > 1 { PerKeyOfWhole(records, |keys|); }
  }
}
