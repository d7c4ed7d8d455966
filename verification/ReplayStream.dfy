/**
 Replaying a log into one entry while its records arrive out of order and the entry's own
 record may still be on its way from the data store: `TryCommitBufferedCommands` and
 `EmplaceAndCommitBufferedTxnCommand` (include/cc/cc_entry.h) as the replay request drives
 them (include/cc/object_cc_map.h).
 */
module ReplayStream {
  import opened ReplayBuffer
  import opened CommandLog

  /** `known` is a payload status other than Unknown. */
  datatype Entry<O, C> = Entry(version: nat, known: bool, payload: O, buffer: seq<TxnCmd<C>>)

  /** Applies buffered transactions while the front one fits the current version. */
  function Commit<O, C>(sem: Semantics<O, C>, e: Entry<O, C>): Entry<O, C>
    decreases |e.buffer|
  {
    if e.buffer == [] || (!e.buffer[0].ignorePrevious && e.buffer[0].objVersion != e.version) then e
    else Commit(sem, Applied(sem, e))
  }

  function Applied<O, C>(sem: Semantics<O, C>, e: Entry<O, C>): Entry<O, C>
    requires e.buffer != []
  {
    e.(version := e.buffer[0].newVersion, payload := ApplyTxn(sem, e.payload, e.buffer[0]), buffer := e.buffer[1..])
  }

  function Deliver<O, C>(sem: Semantics<O, C>, e: Entry<O, C>, t: TxnCmd<C>): Entry<O, C>
  {
    if t.newVersion <= e.version then e
    else if t.ignorePrevious || e.known then Commit(sem, e.(known := true, buffer := Emplace(e.buffer, t)))
    else e.(buffer := Emplace(e.buffer, t))
  }

  function DropBelow<C>(list: seq<TxnCmd<C>>, version: nat): seq<TxnCmd<C>>
  {
    if list == [] || list[0].objVersion >= version then list else DropBelow(list[1..], version)
  }

  /** The record arrives from the data store; an entry overwritten meanwhile ignores it. */
  function Fetched<O, C>(sem: Semantics<O, C>, e: Entry<O, C>, version: nat, payload: O): Entry<O, C>
  {
    if e.known then e else Commit(sem, Entry(version, true, payload, DropBelow(e.buffer, version)))
  }

  /** The assertions `TryCommitBufferedCommands` makes about a transaction that ignores its predecessors. */
  predicate AssertsHold<C>(version: nat, list: seq<TxnCmd<C>>)
  {
    && (forall i :: 0 < i < |list| ==> !list[i].ignorePrevious)
    && (list != [] && list[0].ignorePrevious ==> list[0].objVersion >= version || list[0].objVersion == 1)
  }

  class CcEntry<O, C(!new)> {
    const sem: Semantics<O, C>
    var version: nat
    var known: bool
    var payload: O
    var list: seq<TxnCmd<C>>

    constructor (sem: Semantics<O, C>)
      ensures this.sem == sem && View() == Entry(1, false, sem.absent, [])
    {
      this.sem, version, known, payload, list := sem, 1, false, sem.absent, [];
    }

    function View(): Entry<O, C>
      reads this
    {
      Entry(version, known, payload, list)
    }

    method TryCommitBufferedCommands()
      requires AssertsHold(version, list)
      modifies this`version, this`payload, this`list
      ensures View() == Commit(sem, old(View()))
    {
      var it := 0;
      var cur := version;
      while it < |list|
        invariant 0 <= it <= |list|
        invariant list == old(list)
        invariant Commit(sem, Entry(cur, known, payload, list[it..])) == Commit(sem, old(View()))
      {
        if list[it].ignorePrevious {
          assert it == 0;
          cur := list[it].objVersion;
        }
        if list[it].objVersion != cur {
          break;
        }
        payload := ApplyTxn(sem, payload, list[it]);
        cur := list[it].newVersion;
        assert list[it..][1..] == list[it + 1..];
        it := it + 1;
      }
      list := list[it..];
      version := cur;
    }

    method EmplaceAndCommit(t: TxnCmd<C>)
      requires t.newVersion > version
      requires AssertsHold(version, Emplace(list, t))
      modifies this
      ensures View() == Deliver(sem, old(View()), t)
    {
      list := Emplace(list, t);
      if t.ignorePrevious || known {
        known := true;
        TryCommitBufferedCommands();
      }
    }

    /** The record comes back from the data store: obsolete transactions go, the rest is tried. */
    method BackFill(versionTs: nat, rec: O)
      requires !known ==> AssertsHold(versionTs, DropBelow(list, versionTs))
      modifies this
      ensures View() == Fetched(sem, old(View()), versionTs, rec)
    {
      if !known {
        version, payload, known := versionTs, rec, true;
        while list != [] && list[0].objVersion < versionTs
          invariant DropBelow(list, versionTs) == DropBelow(old(list), versionTs)
          invariant version == versionTs && payload == rec && known
          decreases |list|
        {
          list := list[1..];
        }
        TryCommitBufferedCommands();
      }
    }
  }

  // ---------------------------------------------------------------------------
  // The chain of versions a log describes
  // ---------------------------------------------------------------------------

  function V<C>(base: nat, log: seq<TxnCmd<C>>, i: nat): nat
    requires i <= |log|
  {
    if i == 0 then base else log[i - 1].newVersion
  }

  ghost predicate Links<C(!new)>(base: nat, log: seq<TxnCmd<C>>)
  {
    && InOrder(log) && 1 <= base
    && (forall i :: 0 <= i < |log| ==> base < log[i].newVersion)
    && (forall i :: 0 <= i < |log| ==> LinkAt(base, log, i))
  }

  /** A record names the version it applies to; one for a deleted object may name version 1. */
  predicate LinkAt<C>(base: nat, log: seq<TxnCmd<C>>, i: nat)
    requires i < |log|
  {
    log[i].objVersion == V(base, log, i) || (log[i].ignorePrevious && log[i].objVersion == 1)
  }

  /** `objs[i]` is the object at version `V(i)`, and each record leads from one to the next. */
  ghost predicate Chain<O(!new), C(!new)>(sem: Semantics<O, C>, base: nat, log: seq<TxnCmd<C>>, objs: seq<O>)
  {
    && Links(base, log) && |objs| == |log| + 1
    && (forall i, o {:trigger ApplyTxn(sem, o, log[i])} :: 0 <= i < |log| && (log[i].ignorePrevious || o == objs[i])
          ==> ApplyTxn(sem, o, log[i]) == objs[i + 1])
  }

  lemma {:induction false} VersionsGrow<C(!new)>(base: nat, log: seq<TxnCmd<C>>, i: nat, j: nat)
    requires Links(base, log) && i < j <= |log|
    ensures V(base, log, i) < V(base, log, j)
  {
  }

  // ---------------------------------------------------------------------------
  // What is buffered
  // ---------------------------------------------------------------------------

  /** The delivered records at positions `lo` to `hi`, in commit order. */
  ghost function Select<C(!new)>(log: seq<TxnCmd<C>>, lo: nat, hi: nat, delivered: set<nat>): (list: seq<TxnCmd<C>>)
    requires lo <= hi <= |log|
    decreases hi - lo
  {
    if lo == hi then []
    else (if lo in delivered then [log[lo]] else []) + Select(log, lo + 1, hi, delivered)
  }

  lemma {:induction false} SelectSplit<C(!new)>(log: seq<TxnCmd<C>>, lo: nat, mid: nat, hi: nat, delivered: set<nat>)
    requires lo <= mid <= hi <= |log|
    ensures Select(log, lo, hi, delivered) == Select(log, lo, mid, delivered) + Select(log, mid, hi, delivered)
    decreases mid - lo
  {
    if lo < mid { SelectSplit(log, lo + 1, mid, hi, delivered); }
  }

  lemma {:induction false} SelectSame<C(!new)>(log: seq<TxnCmd<C>>, lo: nat, hi: nat, d: set<nat>, d': set<nat>)
    requires lo <= hi <= |log| && forall i :: lo <= i < hi ==> (i in d <==> i in d')
    ensures Select(log, lo, hi, d) == Select(log, lo, hi, d')
    decreases hi - lo
  {
    if lo < hi { SelectSame(log, lo + 1, hi, d, d'); }
  }

  /** Every selected record is one of the log's, from its own range. */
  lemma {:induction false} SelectBounds<C(!new)>(
    log: seq<TxnCmd<C>>, lo: nat, hi: nat, delivered: set<nat>, p: nat)
    returns (i: nat)
    requires lo <= hi <= |log| && p < |Select(log, lo, hi, delivered)|
    ensures lo <= i < hi && i in delivered && Select(log, lo, hi, delivered)[p] == log[i]
    decreases hi - lo
  {
    if lo in delivered && p == 0 {
      i := lo;
    } else {
      i := SelectBounds(log, lo + 1, hi, delivered, if lo in delivered then p - 1 else p);
    }
  }

  lemma {:induction false} SelectInOrder<C(!new)>(log: seq<TxnCmd<C>>, lo: nat, hi: nat, delivered: set<nat>)
    requires InOrder(log) && lo <= hi <= |log|
    ensures InOrder(Select(log, lo, hi, delivered))
    decreases hi - lo
  {
    if lo < hi {
      SelectInOrder(log, lo + 1, hi, delivered);
      var rest := Select(log, lo + 1, hi, delivered);
      forall p | 0 <= p < |rest| ensures log[lo].newVersion < rest[p].newVersion {
        var i := SelectBounds(log, lo + 1, hi, delivered, p);
      }
    }
  }

  /** The buffered record a newly delivered one goes before is the next later one. */
  lemma {:induction false} SelectLowerBound<C(!new)>(log: seq<TxnCmd<C>>, lo: nat, i: nat, delivered: set<nat>)
    requires InOrder(log) && lo <= i < |log|
    ensures LowerBound(Select(log, lo, |log|, delivered), log[i].newVersion) == |Select(log, lo, i, delivered)|
  {
    var below, list := Select(log, lo, i, delivered), Select(log, lo, |log|, delivered);
    SelectSplit(log, lo, i, |log|, delivered);
    SelectInOrder(log, lo, |log|, delivered);
    if below != [] { var j := SelectBounds(log, lo, i, delivered, |below| - 1); }
    if |below| < |list| { var j := SelectBounds(log, i, |log|, delivered, 0); }
    LowerBoundIs(list, log[i].newVersion, |below|);
  }

  lemma {:induction false} SelectAround<C(!new)>(log: seq<TxnCmd<C>>, lo: nat, i: nat, delivered: set<nat>)
    requires lo <= i < |log|
    ensures Select(log, lo, |log|, delivered)
         == Select(log, lo, i, delivered) + (if i in delivered then [log[i]] else [])
          + Select(log, i + 1, |log|, delivered)
  {
    SelectSplit(log, lo, i, |log|, delivered);
  }

  /** Emplacing a record delivers it; one that ignores its predecessors forgets them. */
  lemma {:induction false} EmplaceSelected<C(!new)>(log: seq<TxnCmd<C>>, lo: nat, i: nat, delivered: set<nat>)
    requires InOrder(log) && lo <= i < |log| && (log[i].ignorePrevious ==> i !in delivered)
    ensures Emplace(Select(log, lo, |log|, delivered), log[i])
         == if log[i].ignorePrevious then [log[i]] + Select(log, i + 1, |log|, delivered)
            else Select(log, lo, |log|, delivered + {i})
  {
    var below, list := Select(log, lo, i, delivered), Select(log, lo, |log|, delivered);
    var above := Select(log, i + 1, |log|, delivered);
    SelectLowerBound(log, lo, i, delivered);
    SelectAround(log, lo, i, delivered);
    SelectAround(log, lo, i, delivered + {i});
    SelectSame(log, lo, i, delivered, delivered + {i});
    SelectSame(log, i + 1, |log|, delivered, delivered + {i});
    if i !in delivered {
      if above != [] { var j := SelectBounds(log, i + 1, |log|, delivered, 0); }
      assert list[|below|..] == above;
    }
  }

  ghost predicate NoneWaits<C(!new)>(log: seq<TxnCmd<C>>, lo: nat, delivered: set<nat>)
  {
    forall i :: lo <= i < |log| && i in delivered ==> !log[i].ignorePrevious
  }

  /** Every waiting record from position `m` on is for a version not below `V(m)`. */
  lemma {:induction false} FrontIsLater<C(!new)>(base: nat, log: seq<TxnCmd<C>>, m: nat, delivered: set<nat>)
    requires Links(base, log) && m <= |log| && NoneWaits(log, m, delivered)
    ensures var list := Select(log, m, |log|, delivered);
            list != [] ==>
              && !list[0].ignorePrevious && list[0].objVersion >= V(base, log, m)
              && (m !in delivered ==> list[0].objVersion > V(base, log, m))
  {
    if Select(log, m, |log|, delivered) != [] {
      var i := SelectBounds(log, m, |log|, delivered, 0);
      assert LinkAt(base, log, i);
      if m < i { VersionsGrow(base, log, m, i); }
    }
  }

  lemma {:induction false} DropFront<C(!new)>(t: TxnCmd<C>, rest: seq<TxnCmd<C>>, version: nat)
    requires t.objVersion < version
    ensures DropBelow([t] + rest, version) == DropBelow(rest, version)
  {
    assert ([t] + rest)[1..] == rest;
  }

  lemma {:induction false} DropSelected<C(!new)>(base: nat, log: seq<TxnCmd<C>>, lo: nat, m: nat, delivered: set<nat>)
    requires Links(base, log) && lo <= m <= |log| && NoneWaits(log, lo, delivered)
    ensures DropBelow(Select(log, lo, |log|, delivered), V(base, log, m)) == Select(log, m, |log|, delivered)
    decreases m - lo
  {
    if lo == m {
      FrontIsLater(base, log, m, delivered);
    } else {
      VersionsGrow(base, log, lo, m);
      DropSelected(base, log, lo + 1, m, delivered);
      if lo in delivered {
        assert LinkAt(base, log, lo);
        DropFront(log[lo], Select(log, lo + 1, |log|, delivered), V(base, log, m));
      } else {
        assert Select(log, lo, |log|, delivered) == Select(log, lo + 1, |log|, delivered);
      }
    }
  }

  // ---------------------------------------------------------------------------
  // One step
  // ---------------------------------------------------------------------------

  /** The entry stands at position `k` of the chain and holds exactly the later records. */
  ghost predicate At<O, C(!new)>(
    base: nat, log: seq<TxnCmd<C>>, objs: seq<O>, e: Entry<O, C>, k: nat, delivered: set<nat>)
    requires |objs| == |log| + 1
  {
    && e.known && k <= |log|
    && e.version == V(base, log, k) && e.payload == objs[k]
    && e.buffer == Select(log, k, |log|, delivered) && NoneWaits(log, k, delivered)
  }

  lemma {:induction false} CommitAdvances<O(!new), C(!new)>(
    sem: Semantics<O, C>, base: nat, log: seq<TxnCmd<C>>, objs: seq<O>, e: Entry<O, C>, k: nat, delivered: set<nat>)
    returns (k': nat)
    requires Chain(sem, base, log, objs) && At(base, log, objs, e, k, delivered)
    ensures k <= k' <= |log| && At(base, log, objs, Commit(sem, e), k', delivered)
    ensures k' < |log| ==> k' !in delivered
    decreases |log| - k
  {
    if k < |log| && k in delivered {
      assert LinkAt(base, log, k);
      assert e.buffer[0] == log[k] && e.buffer[1..] == Select(log, k + 1, |log|, delivered);
      assert ApplyTxn(sem, e.payload, log[k]) == objs[k + 1];
      k' := CommitAdvances(sem, base, log, objs, Applied(sem, e), k + 1, delivered);
    } else {
      k' := k;
      FrontIsLater(base, log, k, delivered);
    }
  }

  /** Before its record is fetched, an entry only collects. */
  ghost predicate Collecting<O, C(!new)>(log: seq<TxnCmd<C>>, e: Entry<O, C>, delivered: set<nat>)
  {
    && !e.known && e.version == 1
    && e.buffer == Select(log, 0, |log|, delivered) && NoneWaits(log, 0, delivered)
  }

  lemma {:induction false} SelectWaits<C(!new)>(log: seq<TxnCmd<C>>, lo: nat, delivered: set<nat>)
    requires lo <= |log| && NoneWaits(log, lo, delivered)
    ensures forall p :: 0 <= p < |Select(log, lo, |log|, delivered)| ==>
            !Select(log, lo, |log|, delivered)[p].ignorePrevious
  {
    var list := Select(log, lo, |log|, delivered);
    forall p | 0 <= p < |list| ensures !list[p].ignorePrevious {
      var i := SelectBounds(log, lo, |log|, delivered, p);
    }
  }

  /** A record that ignores its predecessors takes the entry to its own version, wherever it was. */
  lemma {:induction false} IgnoringJumps<O(!new), C(!new)>(
    sem: Semantics<O, C>, base: nat, log: seq<TxnCmd<C>>, objs: seq<O>, e: Entry<O, C>, lo: nat, i: nat,
    delivered: set<nat>)
    returns (k: nat)
    requires Chain(sem, base, log, objs) && lo <= i < |log| && log[i].ignorePrevious && NoneWaits(log, lo, delivered)
    requires e.buffer == Select(log, lo, |log|, delivered) && e.version < log[i].newVersion
    ensures i < k <= |log| && At(base, log, objs, Deliver(sem, e, log[i]), k, delivered + {i})
    ensures k < |log| ==> k !in delivered + {i}
  {
    EmplaceSelected(log, lo, i, delivered);
    SelectSame(log, i + 1, |log|, delivered, delivered + {i});
    var e1 := e.(known := true, buffer := [log[i]] + Select(log, i + 1, |log|, delivered));
    assert e1.buffer[1..] == Select(log, i + 1, |log|, delivered);
    assert Deliver(sem, e, log[i]) == Commit(sem, e1) == Commit(sem, Applied(sem, e1));
    k := CommitAdvances(sem, base, log, objs, Applied(sem, e1), i + 1, delivered + {i});
  }

  lemma {:induction false} StaleIsRefused<O(!new), C(!new)>(
    sem: Semantics<O, C>, base: nat, log: seq<TxnCmd<C>>, objs: seq<O>, e: Entry<O, C>, k: nat, i: nat,
    delivered: set<nat>)
    requires Links(base, log) && |objs| == |log| + 1 && At(base, log, objs, e, k, delivered) && i < k
    ensures Deliver(sem, e, log[i]) == e && At(base, log, objs, e, k, delivered + {i})
  {
    if i + 1 < k { VersionsGrow(base, log, i + 1, k); }
    SelectSame(log, k, |log|, delivered, delivered + {i});
  }

  lemma {:induction false} DependentJoins<O(!new), C(!new)>(
    sem: Semantics<O, C>, base: nat, log: seq<TxnCmd<C>>, objs: seq<O>, e: Entry<O, C>, k: nat, i: nat,
    delivered: set<nat>)
    returns (k': nat)
    requires Chain(sem, base, log, objs) && At(base, log, objs, e, k, delivered)
    requires k <= i < |log| && !log[i].ignorePrevious
    ensures k <= k' <= |log| && At(base, log, objs, Deliver(sem, e, log[i]), k', delivered + {i})
    ensures k' < |log| ==> k' !in delivered + {i}
  {
    VersionsGrow(base, log, k, i + 1);
    EmplaceSelected(log, k, i, delivered);
    var e1 := e.(buffer := Select(log, k, |log|, delivered + {i}));
    assert Deliver(sem, e, log[i]) == Commit(sem, e1);
    k' := CommitAdvances(sem, base, log, objs, e1, k, delivered + {i});
  }

  // ---------------------------------------------------------------------------
  // Whole runs
  // ---------------------------------------------------------------------------

  datatype Event =
    | Arrive(i: nat)         // the log record of the i-th transaction, perhaps not for the first time
    | Loaded(m: nat)         // the data store's record, which some m transactions have reached

  ghost function Next<O, C(!new)>(
    sem: Semantics<O, C>, base: nat, log: seq<TxnCmd<C>>, objs: seq<O>, e: Entry<O, C>, ev: Event): Entry<O, C>
    requires |objs| == |log| + 1
  {
    match ev
    case Arrive(i) => if i < |log| then Deliver(sem, e, log[i]) else e
    case Loaded(m) => if m <= |log| then Fetched(sem, e, V(base, log, m), objs[m]) else e
  }

  ghost function Run<O, C(!new)>(
    sem: Semantics<O, C>, base: nat, log: seq<TxnCmd<C>>, objs: seq<O>, evs: seq<Event>): Entry<O, C>
    requires |objs| == |log| + 1
  {
    if evs == [] then Entry(1, false, sem.absent, [])
    else Next(sem, base, log, objs, Run(sem, base, log, objs, evs[..|evs| - 1]), evs[|evs| - 1])
  }

  ghost function Arrived(n: nat, evs: seq<Event>): set<nat>
  {
    if evs == [] then {}
    else match evs[|evs| - 1]
      case Arrive(i) => if i < n then Arrived(n, evs[..|evs| - 1]) + {i} else Arrived(n, evs[..|evs| - 1])
      case Loaded(_) => Arrived(n, evs[..|evs| - 1])
  }

  /** Where a run has come to: still collecting, or at a position whose record has not arrived. */
  ghost predicate Consistent<O, C(!new)>(
    base: nat, log: seq<TxnCmd<C>>, objs: seq<O>, e: Entry<O, C>, k: nat, delivered: set<nat>)
    requires |objs| == |log| + 1
  {
    if e.known then At(base, log, objs, e, k, delivered) && (k < |log| ==> k !in delivered)
    else k == 0 && Collecting(log, e, delivered)
  }

  lemma {:induction false} StepKeeps<O(!new), C(!new)>(
    sem: Semantics<O, C>, base: nat, log: seq<TxnCmd<C>>, objs: seq<O>, e: Entry<O, C>, k: nat, i: nat,
    delivered: set<nat>)
    returns (k': nat)
    requires Chain(sem, base, log, objs) && Consistent(base, log, objs, e, k, delivered) && i < |log|
    ensures k <= k' && Consistent(base, log, objs, Deliver(sem, e, log[i]), k', delivered + {i})
  {
    if e.known && i < k {
      StaleIsRefused(sem, base, log, objs, e, k, i, delivered);
      k' := k;
    } else if log[i].ignorePrevious {
      if e.known { VersionsGrow(base, log, k, i + 1); }
      k' := IgnoringJumps(sem, base, log, objs, e, k, i, delivered);
    } else if e.known {
      k' := DependentJoins(sem, base, log, objs, e, k, i, delivered);
    } else {
      EmplaceSelected(log, 0, i, delivered);
      k' := 0;
    }
  }

  lemma {:induction false} FetchKeeps<O(!new), C(!new)>(
    sem: Semantics<O, C>, base: nat, log: seq<TxnCmd<C>>, objs: seq<O>, e: Entry<O, C>, k: nat, m: nat,
    delivered: set<nat>)
    returns (k': nat)
    requires Chain(sem, base, log, objs) && Consistent(base, log, objs, e, k, delivered) && m <= |log|
    ensures k <= k' && Consistent(base, log, objs, Fetched(sem, e, V(base, log, m), objs[m]), k', delivered)
  {
    if e.known {
      k' := k;
    } else {
      DropSelected(base, log, 0, m, delivered);
      k' := CommitAdvances(sem, base, log, objs,
                           Entry(V(base, log, m), true, objs[m], Select(log, m, |log|, delivered)), m, delivered);
    }
  }

  lemma {:induction false} RunIsConsistent<O(!new), C(!new)>(
    sem: Semantics<O, C>, base: nat, log: seq<TxnCmd<C>>, objs: seq<O>, evs: seq<Event>)
    returns (k: nat)
    requires Chain(sem, base, log, objs)
    ensures Consistent(base, log, objs, Run(sem, base, log, objs, evs), k, Arrived(|log|, evs))
  {
    if evs == [] {
      k := 0;
      NothingSelected(log, 0);
    } else {
      var ev := evs[|evs| - 1];
      var e, d := Run(sem, base, log, objs, evs[..|evs| - 1]), Arrived(|log|, evs[..|evs| - 1]);
      k := RunIsConsistent(sem, base, log, objs, evs[..|evs| - 1]);
      match ev
      case Arrive(i) => if i < |log| { k := StepKeeps(sem, base, log, objs, e, k, i, d); }
      case Loaded(m) => if m <= |log| { k := FetchKeeps(sem, base, log, objs, e, k, m, d); }
    }
  }

  lemma {:induction false} NothingSelected<C(!new)>(log: seq<TxnCmd<C>>, lo: nat)
    requires lo <= |log|
    ensures Select(log, lo, |log|, {}) == []
    decreases |log| - lo
  {
    if lo < |log| { NothingSelected(log, lo + 1); }
  }

  /**
   Whatever the order of arrivals, repetitions and the fetch, a known entry holds the
   object of the history at its version, and it is at the end, with nothing buffered,
   unless the very record that leads on from that version has not arrived.
   */
  lemma {:induction false} ReplayIsExact<O(!new), C(!new)>(
    sem: Semantics<O, C>, base: nat, log: seq<TxnCmd<C>>, objs: seq<O>, evs: seq<Event>)
    returns (k: nat)
    requires Chain(sem, base, log, objs) && Run(sem, base, log, objs, evs).known
    ensures k <= |log|
    ensures var e := Run(sem, base, log, objs, evs);
            e.version == V(base, log, k) && e.payload == objs[k] && (k == |log| ==> e.buffer == [])
    ensures k < |log| ==> k !in Arrived(|log|, evs)
  {
    k := RunIsConsistent(sem, base, log, objs, evs);
  }

  /** No arrival or fetch ever takes a known entry back to an earlier version. */
  lemma {:induction false} VersionNeverFalls<O(!new), C(!new)>(
    sem: Semantics<O, C>, base: nat, log: seq<TxnCmd<C>>, objs: seq<O>, evs: seq<Event>, ev: Event)
    requires Chain(sem, base, log, objs)
    ensures var e := Run(sem, base, log, objs, evs); var e' := Next(sem, base, log, objs, e, ev);
            e.known ==> e'.known && e.version <= e'.version
  {
    var e, d := Run(sem, base, log, objs, evs), Arrived(|log|, evs);
    if e.known && ev.Arrive? && ev.i < |log| {
      var k := RunIsConsistent(sem, base, log, objs, evs);
      var k' := StepKeeps(sem, base, log, objs, e, k, ev.i, d);
      if k < k' { VersionsGrow(base, log, k, k'); }
      StaysKnown(sem, e, log[ev.i]);
    }
  }

  lemma {:induction false} CommitKeepsKnown<O, C>(sem: Semantics<O, C>, e: Entry<O, C>)
    ensures Commit(sem, e).known == e.known
    decreases |e.buffer|
  {
    if e.buffer != [] && (e.buffer[0].ignorePrevious || e.buffer[0].objVersion == e.version) {
      CommitKeepsKnown(sem, Applied(sem, e));
    }
  }

  lemma {:induction false} StaysKnown<O, C>(sem: Semantics<O, C>, e: Entry<O, C>, t: TxnCmd<C>)
    requires e.known
    ensures Deliver(sem, e, t).known
  {
    CommitKeepsKnown(sem, e.(known := true, buffer := Emplace(e.buffer, t)));
  }

  /** Once its record has been fetched, an entry is known for good. */
  lemma {:induction false} KnownOnceLoaded<O(!new), C(!new)>(
    sem: Semantics<O, C>, base: nat, log: seq<TxnCmd<C>>, objs: seq<O>, evs: seq<Event>, p: nat)
    requires Chain(sem, base, log, objs)
    requires p < |evs| && evs[p].Loaded? && evs[p].m <= |log|
    ensures Run(sem, base, log, objs, evs).known
  {
    var init, ev := evs[..|evs| - 1], evs[|evs| - 1];
    if p < |evs| - 1 {
      KnownOnceLoaded(sem, base, log, objs, init, p);
      VersionNeverFalls(sem, base, log, objs, init, ev);
    } else {
      var e := Run(sem, base, log, objs, init);
      CommitKeepsKnown(sem, Entry(V(base, log, ev.m), true, objs[ev.m], DropBelow(e.buffer, V(base, log, ev.m))));
    }
  }

  lemma {:induction false} AssertsHoldHere<O, C(!new)>(
    base: nat, log: seq<TxnCmd<C>>, e: Entry<O, C>, k: nat, i: nat, delivered: set<nat>)
    requires Links(base, log) && k <= i < |log| && NoneWaits(log, k, delivered)
    requires e.buffer == Select(log, k, |log|, delivered) && e.version <= V(base, log, k)
    ensures AssertsHold(e.version, Emplace(e.buffer, log[i]))
  {
    EmplaceSelected(log, k, i, delivered);
    if log[i].ignorePrevious {
      SelectWaits(log, i + 1, delivered);
      assert LinkAt(base, log, i);
      if k < i { VersionsGrow(base, log, k, i); }
    } else {
      SelectWaits(log, k, delivered + {i});
    }
  }

  /** In every run, what a commit is called on satisfies the code's assertions. */
  lemma {:induction false} AssertsNeverFail<O(!new), C(!new)>(
    sem: Semantics<O, C>, base: nat, log: seq<TxnCmd<C>>, objs: seq<O>, evs: seq<Event>, i: nat)
    requires Chain(sem, base, log, objs) && i < |log|
    requires log[i].newVersion > Run(sem, base, log, objs, evs).version
    ensures AssertsHold(Run(sem, base, log, objs, evs).version, Emplace(Run(sem, base, log, objs, evs).buffer, log[i]))
  {
    var e, d := Run(sem, base, log, objs, evs), Arrived(|log|, evs);
    var k := RunIsConsistent(sem, base, log, objs, evs);
    AssertsHoldHere(base, log, e, k, i, d);
  }

  lemma {:induction false} FetchAssertsHold<O(!new), C(!new)>(
    sem: Semantics<O, C>, base: nat, log: seq<TxnCmd<C>>, objs: seq<O>, evs: seq<Event>, m: nat)
    requires Chain(sem, base, log, objs) && m <= |log|
    requires !Run(sem, base, log, objs, evs).known
    ensures AssertsHold(V(base, log, m), DropBelow(Run(sem, base, log, objs, evs).buffer, V(base, log, m)))
  {
    var d := Arrived(|log|, evs);
    var k := RunIsConsistent(sem, base, log, objs, evs);
    DropSelected(base, log, 0, m, d);
    SelectWaits(log, m, d);
  }

  // ---------------------------------------------------------------------------
  // From a history of transactions
  // ---------------------------------------------------------------------------

  ghost function Objects<O, C>(sem: Semantics<O, C>, o: O, txns: seq<Txn<C>>): (objs: seq<O>)
    ensures |objs| == |txns| + 1
    ensures forall i :: 0 <= i < |objs| ==> objs[i] == Object(sem, o, txns, i)
  {
    seq(|txns| + 1, (i: nat) requires i <= |txns| => Object(sem, o, txns, i))
  }

  lemma {:induction false} LogIsChain<O(!new), C(!new)>(sem: Semantics<O, C>, o: O, base: nat, txns: seq<Txn<C>>)
    requires Lawful(sem) && History(base, txns) && 1 <= base
    ensures Chain(sem, base, Log(sem, o, base, txns), Objects(sem, o, txns))
  {
    var log, objs := Log(sem, o, base, txns), Objects(sem, o, txns);
    LogIsOrdered(sem, o, base, txns);
    forall i | 0 <= i < |log| ensures LinkAt(base, log, i) {
      assert V(base, log, i) == Version(base, txns, i);
    }
    forall i, from | 0 <= i < |log| && (log[i].ignorePrevious || from == objs[i])
      ensures ApplyTxn(sem, from, log[i]) == objs[i + 1]
    {
      RecordSteps(sem, o, base, txns, i, from);
    }
  }

  /** With every record of the log arrived, a known entry is at the end of the chain. */
  lemma {:induction false} WholeLogArrived<O(!new), C(!new)>(
    sem: Semantics<O, C>, base: nat, log: seq<TxnCmd<C>>, objs: seq<O>, evs: seq<Event>)
    requires Chain(sem, base, log, objs) && Run(sem, base, log, objs, evs).known
    requires forall i :: 0 <= i < |log| ==> i in Arrived(|log|, evs)
    ensures Run(sem, base, log, objs, evs) == Entry(V(base, log, |log|), true, objs[|log|], [])
  {
    var k := ReplayIsExact(sem, base, log, objs, evs);
  }

  /**
   End to end: compacted by the command set, delivered in any order with repetitions
   around the fetch, the log rebuilds the very object the transactions left.
   */
  lemma {:induction false} RecoveryRebuildsObject<O(!new), C(!new)>(
    sem: Semantics<O, C>, o: O, base: nat, txns: seq<Txn<C>>, evs: seq<Event>)
    requires Lawful(sem) && History(base, txns) && 1 <= base
    requires forall i :: 0 <= i < |txns| ==> i in Arrived(|txns|, evs)
    ensures var e := Run(sem, base, Log(sem, o, base, txns), Objects(sem, o, txns), evs);
            e.known ==> e == Entry(Version(base, txns, |txns|), true, Object(sem, o, txns, |txns|), [])
  {
    var log, objs := Log(sem, o, base, txns), Objects(sem, o, txns);
    LogIsChain(sem, o, base, txns);
    if Run(sem, base, log, objs, evs).known { WholeLogArrived(sem, base, log, objs, evs); }
  }
}
