/**
 `MergeSortedVectors` (include/util.h): merging any number of sorted vectors through a
 priority queue that holds the next element of each, optionally dropping repetitions.
 */
module MergeSorted {

  type Compare<!T> = (T, T) -> bool

  /** `greater` orders elements up to equivalence. */
  ghost predicate WeakOrder<T(!new)>(greater: Compare<T>)
  {
    && (forall a, b :: greater(a, b) ==> !greater(b, a))
    && (forall a, b, c :: !greater(a, b) && !greater(b, c) ==> !greater(a, c))
  }

  predicate Sorted<T>(greater: Compare<T>, s: seq<T>)
  {
    forall i, j :: 0 <= i < j < |s| ==> !greater(s[i], s[j])
  }

  predicate Strict<T>(greater: Compare<T>, s: seq<T>)
  {
    forall i, j :: 0 <= i < j < |s| ==> greater(s[j], s[i])
  }

  predicate Equivalent<T>(greater: Compare<T>, a: T, b: T)
  {
    !greater(a, b) && !greater(b, a)
  }

  /** All elements of all vectors. */
  ghost function AllOf<T>(vecs: seq<seq<T>>): multiset<T>
  {
    if vecs == [] then multiset{} else AllOf(vecs[..|vecs| - 1]) + multiset(vecs[|vecs| - 1])
  }

  function Total<T>(vecs: seq<seq<T>>): nat
  {
    if vecs == [] then 0 else Total(vecs[..|vecs| - 1]) + |vecs[|vecs| - 1]|
  }

  lemma {:induction false} AllOfSize<T>(vecs: seq<seq<T>>)
    ensures |AllOf(vecs)| == Total(vecs)
  {
    if vecs != [] { AllOfSize(vecs[..|vecs| - 1]); }
  }

  lemma {:induction false} FirstOf<T>(s: seq<T>)
    requires s != []
    ensures multiset(s) == multiset(s[1..]) + multiset{s[0]}
  {
    assert s == [s[0]] + s[1..];
  }

  lemma {:induction false} TakeFirst<T>(vecs: seq<seq<T>>, g: nat)
    requires g < |vecs| && vecs[g] != []
    ensures AllOf(vecs) == AllOf(vecs[g := vecs[g][1..]]) + multiset{vecs[g][0]}
  {
    var n := |vecs| - 1;
    var after := vecs[g := vecs[g][1..]];
    if g == n {
      FirstOf(vecs[g]);
      assert after[..n] == vecs[..n];
    } else {
      TakeFirst(vecs[..n], g);
      assert after[..n] == vecs[..n][g := vecs[g][1..]];
    }
  }

  lemma {:induction false} OneLess<T>(vecs: seq<seq<T>>, g: nat)
    requires g < |vecs| && vecs[g] != []
    ensures Total(vecs) == Total(vecs[g := vecs[g][1..]]) + 1
  {
    var n := |vecs| - 1;
    var after := vecs[g := vecs[g][1..]];
    if g == n {
      assert after[..n] == vecs[..n];
    } else {
      OneLess(vecs[..n], g);
      assert after[..n] == vecs[..n][g := vecs[g][1..]];
    }
  }

  /** With `dedup`, only an element that differs from the last output is added. */
  function Append<T>(greater: Compare<T>, dedup: bool, output: seq<T>, x: T): seq<T>
  {
    if !dedup || output == [] || greater(output[|output| - 1], x) || greater(x, output[|output| - 1])
    then output + [x] else output
  }

  /** Keeps the first of each run of equivalent elements. */
  function Dedup<T>(greater: Compare<T>, s: seq<T>): seq<T>
  {
    if s == [] then [] else Append(greater, true, Dedup(greater, s[..|s| - 1]), s[|s| - 1])
  }

  lemma {:induction false} LastIsLargest<T(!new)>(greater: Compare<T>, init: seq<T>, before: seq<T>, x: T)
    requires WeakOrder(greater) && Sorted(greater, init + [x]) && Strict(greater, before) && before != [] && init != []
    requires Equivalent(greater, before[|before| - 1], init[|init| - 1])
    ensures !greater(before[|before| - 1], x)
    ensures greater(x, before[|before| - 1]) ==> forall i :: 0 <= i < |before| ==> greater(x, before[i])
  {
    assert !greater((init + [x])[|init| - 1], (init + [x])[|init|]);
  }

  lemma {:induction false} AppendStrict<T(!new)>(greater: Compare<T>, before: seq<T>, x: T)
    requires WeakOrder(greater) && Strict(greater, before)
    requires before != [] ==> !greater(before[|before| - 1], x)
    requires before != [] && greater(x, before[|before| - 1]) ==>
               forall i :: 0 <= i < |before| ==> greater(x, before[i])
    ensures var out := Append(greater, true, before, x);
            Strict(greater, out) && out != [] && Equivalent(greater, out[|out| - 1], x)
  {
  }

  lemma {:induction false} DedupIsStrict<T(!new)>(greater: Compare<T>, s: seq<T>)
    requires WeakOrder(greater) && Sorted(greater, s)
    ensures Strict(greater, Dedup(greater, s))
    ensures var out := Dedup(greater, s);
            s != [] ==> out != [] && Equivalent(greater, out[|out| - 1], s[|s| - 1])
  {
    if s != [] {
      var init, x := s[..|s| - 1], s[|s| - 1];
      assert init + [x] == s;
      DedupIsStrict(greater, init);
      var before := Dedup(greater, init);
      if before != [] { LastIsLargest(greater, init, before, x); }
      AppendStrict(greater, before, x);
    }
  }

  ghost predicate Represents<T>(greater: Compare<T>, out: seq<T>, x: T)
  {
    exists i :: 0 <= i < |out| && Equivalent(greater, out[i], x)
  }

  /** Every element keeps a representative, which is one of the elements. */
  lemma {:induction false} DedupRepresents<T(!new)>(greater: Compare<T>, s: seq<T>, j: nat)
    requires WeakOrder(greater) && Sorted(greater, s) && j < |s|
    ensures Represents(greater, Dedup(greater, s), s[j])
  {
    var init, out := s[..|s| - 1], Dedup(greater, s);
    if j < |init| {
      DedupRepresents(greater, init, j);
      var before := Dedup(greater, init);
      var i :| 0 <= i < |before| && Equivalent(greater, before[i], init[j]);
      assert out[i] == before[i];
    } else {
      DedupIsStrict(greater, s);
      assert Equivalent(greater, out[|out| - 1], s[j]);
    }
  }

  lemma {:induction false} DedupElements<T(!new)>(greater: Compare<T>, s: seq<T>)
    ensures forall x :: x in Dedup(greater, s) ==> x in s
  {
    if s != [] { DedupElements(greater, s[..|s| - 1]); }
  }

  // ---------------------------------------------------------------------------
  // The queue
  // ---------------------------------------------------------------------------

  /** The queue, by vector: it holds the first remaining element of every vector that has one. */
  ghost predicate Heads<T(!new)>(rest: seq<seq<T>>, queue: map<nat, T>)
  {
    && (forall g: nat :: g in queue <==> g < |rest| && rest[g] != [])
    && (forall g :: g in queue ==> queue[g] == rest[g][0])
  }

  /** A top of the priority queue: nothing queued is smaller. */
  predicate IsTop<T>(greater: Compare<T>, queue: map<nat, T>, g: nat)
  {
    g in queue && forall h :: h in queue ==> !greater(queue[g], queue[h])
  }

  lemma {:induction false} TopExists<T(!new)>(greater: Compare<T>, queue: map<nat, T>) returns (g: nat)
    requires WeakOrder(greater) && queue != map[]
    ensures IsTop(greater, queue, g)
    decreases |queue|
  {
    var first :| first in queue;
    var others := queue - {first};
    if others == map[] {
      g := first;
      assert forall h :: h in queue ==> h == first || h in others;
    } else {
      assert queue.Keys == others.Keys + {first};
      g := TopExists(greater, others);
      if greater(queue[g], queue[first]) { g := first; }
    }
  }

  /** Nothing that remains is smaller than `x`. */
  ghost predicate BelowRest<T(!new)>(greater: Compare<T>, x: T, rest: seq<seq<T>>)
  {
    forall g, i :: 0 <= g < |rest| && 0 <= i < |rest[g]| ==> !greater(x, rest[g][i])
  }

  ghost predicate AllSorted<T(!new)>(greater: Compare<T>, rest: seq<seq<T>>)
  {
    forall g :: 0 <= g < |rest| ==> Sorted(greater, rest[g])
  }

  lemma {:induction false} TopIsLeast<T(!new)>(greater: Compare<T>, rest: seq<seq<T>>, queue: map<nat, T>, top: nat)
    requires WeakOrder(greater) && AllSorted(greater, rest) && Heads(rest, queue) && IsTop(greater, queue, top)
    ensures BelowRest(greater, queue[top], rest)
  {
    forall g, i | 0 <= g < |rest| && 0 <= i < |rest[g]| ensures !greater(queue[top], rest[g][i]) {
      assert g in queue && !greater(queue[top], rest[g][0]);
      if i > 0 { assert !greater(rest[g][0], rest[g][i]); }
    }
  }

  /** What has been taken so far, in order, against what remains. */
  ghost predicate Merging<T(!new)>(greater: Compare<T>, vecs: seq<seq<T>>, merged: seq<T>, rest: seq<seq<T>>)
  {
    && |rest| == |vecs| && AllSorted(greater, rest)
    && Sorted(greater, merged)
    && (forall i :: 0 <= i < |merged| ==> BelowRest(greater, merged[i], rest))
    && multiset(merged) + AllOf(rest) == AllOf(vecs)
  }

  lemma {:induction false} TakeTop<T(!new)>(
    greater: Compare<T>, vecs: seq<seq<T>>, merged: seq<T>, rest: seq<seq<T>>, g: nat)
    requires Merging(greater, vecs, merged, rest)
    requires g < |rest| && rest[g] != [] && BelowRest(greater, rest[g][0], rest)
    ensures Merging(greater, vecs, merged + [rest[g][0]], rest[g := rest[g][1..]])
  {
    var x, rest' := rest[g][0], rest[g := rest[g][1..]];
    TakeFirst(rest, g);
    assert forall i :: 0 <= i < |merged| ==> !greater(merged[i], rest[g][0]);
    assert Sorted(greater, rest[g][1..]);
    forall y | BelowRest(greater, y, rest) ensures BelowRest(greater, y, rest') {
    }
    assert multiset(merged + [x]) == multiset(merged) + multiset{x};
  }

  lemma {:induction false} NothingRemains<T(!new)>(rest: seq<seq<T>>)
    requires forall g :: 0 <= g < |rest| ==> rest[g] == []
    ensures AllOf(rest) == multiset{}
  {
    if rest != [] { NothingRemains(rest[..|rest| - 1]); }
  }

  /** Where each vector's position stands: one past the element that is queued. */
  ghost predicate Positions<T(!new)>(vecs: seq<seq<T>>, rest: seq<seq<T>>, idxs: seq<nat>)
  {
    && |idxs| == |rest| == |vecs|
    && (forall g :: 0 <= g < |rest| && rest[g] != [] ==> 1 <= idxs[g] <= |vecs[g]| && rest[g] == vecs[g][idxs[g] - 1..])
  }

  /** A sorted sequence of all elements, each as often as it occurs. */
  ghost predicate IsMerge<T(!new)>(greater: Compare<T>, vecs: seq<seq<T>>, output: seq<T>)
  {
    Sorted(greater, output) && multiset(output) == AllOf(vecs) && |output| == Total(vecs)
  }

  /** A strictly increasing sequence of elements in which every element has exactly one representative. */
  ghost predicate IsDedupMerge<T(!new)>(greater: Compare<T>, vecs: seq<seq<T>>, output: seq<T>)
  {
    && Strict(greater, output)
    && (forall x :: x in output ==> x in AllOf(vecs))
    && (forall x :: x in AllOf(vecs) ==> Represents(greater, output, x))
    && (forall x, i, j :: 0 <= i < j < |output| && Equivalent(greater, output[i], x) ==>
          !Equivalent(greater, output[j], x))
  }

  method MergeSortedVectors<T(!new)>(vecs: seq<seq<T>>, greater: Compare<T>, dedup: bool) returns (output: seq<T>)
    requires WeakOrder(greater) && AllSorted(greater, vecs)
    ensures if dedup then IsDedupMerge(greater, vecs, output) else IsMerge(greater, vecs, output)
  {
    var queue: map<nat, T>, idxs: seq<nat> := FillQueue(vecs);
    ghost var rest, merged: seq<T> := vecs, [];
    output := [];
    MergeStarts(greater, vecs);
    while queue != map[]
      invariant Queued(vecs, rest, queue, idxs)
      invariant Merging(greater, vecs, merged, rest)
      invariant output == Output(greater, dedup, merged)
      decreases Total(rest)
    {
      output, queue, idxs, merged, rest := TakeNext(vecs, greater, dedup, output, queue, idxs, merged, rest);
    }
    MergeEnds(greater, vecs, merged, rest, queue);
    MergeIsRight(vecs, greater, merged);
  }

  ghost predicate Queued<T(!new)>(vecs: seq<seq<T>>, rest: seq<seq<T>>, queue: map<nat, T>, idxs: seq<nat>)
  {
    Heads(rest, queue) && Positions(vecs, rest, idxs)
  }

  ghost function Output<T>(greater: Compare<T>, dedup: bool, merged: seq<T>): seq<T>
  {
    if dedup then Dedup(greater, merged) else merged
  }

  /** One turn of the merging loop. */
  method TakeNext<T(!new)>(vecs: seq<seq<T>>, greater: Compare<T>, dedup: bool,
                           output: seq<T>, queue: map<nat, T>, idxs: seq<nat>, ghost merged: seq<T>,
                           ghost rest: seq<seq<T>>)
    returns (output': seq<T>, queue': map<nat, T>, idxs': seq<nat>, ghost merged': seq<T>, ghost rest': seq<seq<T>>)
    requires WeakOrder(greater) && queue != map[]
    requires Queued(vecs, rest, queue, idxs) && Merging(greater, vecs, merged, rest)
    requires output == Output(greater, dedup, merged)
    ensures Queued(vecs, rest', queue', idxs') && Merging(greater, vecs, merged', rest')
    ensures output' == Output(greater, dedup, merged') && Total(rest') < Total(rest)
  {
    ghost var least := TopExists(greater, queue);
    var grp: nat :| grp in queue && IsTop(greater, queue, grp);
    TopTaken(greater, vecs, merged, rest, queue, grp);
    DedupMore(greater, merged, queue[grp]);
    output' := Append(greater, dedup, output, queue[grp]);
    queue', idxs' := Pop(vecs, queue, idxs, grp, rest);
    merged', rest' := merged + [queue[grp]], rest[grp := rest[grp][1..]];
  }

  lemma {:induction false} MergeStarts<T(!new)>(greater: Compare<T>, vecs: seq<seq<T>>)
    requires AllSorted(greater, vecs)
    ensures Merging(greater, vecs, [], vecs)
  {
  }

  lemma {:induction false} MergeEnds<T(!new)>(
    greater: Compare<T>, vecs: seq<seq<T>>, merged: seq<T>, rest: seq<seq<T>>, queue: map<nat, T>)
    requires Merging(greater, vecs, merged, rest) && Heads(rest, queue) && queue == map[]
    ensures multiset(merged) == AllOf(vecs)
  {
    assert forall g: nat :: g < |rest| ==> g !in queue;
    NothingRemains(rest);
  }

  lemma {:induction false} TopTaken<T(!new)>(
    greater: Compare<T>, vecs: seq<seq<T>>, merged: seq<T>, rest: seq<seq<T>>, queue: map<nat, T>, g: nat)
    requires WeakOrder(greater) && Merging(greater, vecs, merged, rest) && Heads(rest, queue)
             && IsTop(greater, queue, g)
    ensures Merging(greater, vecs, merged + [queue[g]], rest[g := rest[g][1..]])
    ensures Total(rest[g := rest[g][1..]]) < Total(rest)
  {
    TopIsLeast(greater, rest, queue, g);
    TakeTop(greater, vecs, merged, rest, g);
    OneLess(rest, g);
  }

  lemma {:induction false} DedupMore<T>(greater: Compare<T>, s: seq<T>, x: T)
    ensures Dedup(greater, s + [x]) == Append(greater, true, Dedup(greater, s), x)
  {
    assert (s + [x])[..|s|] == s;
  }

  /** Removes a vector's entry and queues that vector's next element, if it has one. */
  method Pop<T(!new)>(vecs: seq<seq<T>>, queue: map<nat, T>, idxs: seq<nat>, grp: nat, ghost rest: seq<seq<T>>)
    returns (queue': map<nat, T>, idxs': seq<nat>)
    requires Heads(rest, queue) && Positions(vecs, rest, idxs) && grp in queue
    ensures var rest' := rest[grp := rest[grp][1..]];
            Heads(rest', queue') && Positions(vecs, rest', idxs')
  {
    ghost var tail := rest[grp][1..];
    assert tail == vecs[grp][idxs[grp]..];
    queue', idxs' := queue - {grp}, idxs;
    if idxs[grp] < |vecs[grp]| {
      assert tail[0] == vecs[grp][idxs[grp]];
      queue' := queue'[grp := vecs[grp][idxs[grp]]];
      idxs' := idxs'[grp := idxs'[grp] + 1];
    }
  }

  method FillQueue<T(!new)>(vecs: seq<seq<T>>) returns (queue: map<nat, T>, idxs: seq<nat>)
    ensures Heads(vecs, queue) && Positions(vecs, vecs, idxs)
  {
    queue, idxs := map[], [];
    var i := 0;
    while i < |vecs|
      invariant 0 <= i <= |vecs| && |idxs| == i
      invariant forall g :: 0 <= g < i ==> idxs[g] == 1
      invariant Heads(vecs[..i], queue)
    {
      idxs := idxs + [1];
      if vecs[i] != [] {
        queue := queue[i := vecs[i][0]];
      }
      i := i + 1;
    }
    assert vecs[..i] == vecs;
  }

  /** The sequence of all elements taken is a merge, and without its repetitions a deduplicated one. */
  lemma {:induction false} MergeIsRight<T(!new)>(vecs: seq<seq<T>>, greater: Compare<T>, merged: seq<T>)
    requires WeakOrder(greater) && Sorted(greater, merged) && multiset(merged) == AllOf(vecs)
    ensures IsMerge(greater, vecs, merged) && IsDedupMerge(greater, vecs, Dedup(greater, merged))
  {
    AllOfSize(vecs);
    assert |multiset(merged)| == |merged|;
    DedupIsStrict(greater, merged);
    DedupElements(greater, merged);
    forall x | x in AllOf(vecs) ensures Represents(greater, Dedup(greater, merged), x) {
      assert x in multiset(merged);
      var j :| 0 <= j < |merged| && merged[j] == x;
      DedupRepresents(greater, merged, j);
    }
  }
}
