/**
 Replay of logged commands: `TxnCmd` and `BufferedTxnCmdList::EmplaceTxnCmd`
 (include/tx_command.h), with the way a buffered transaction is applied
 (include/cc/cc_entry.h).
 */
module ReplayBuffer {

  /**
   What commands do: `apply` commits one command on an object (creating it first when it
   is absent), `overwrites` is `IsOverwrite`.
   */
  datatype Semantics<!O, !C> = Semantics(apply: (O, C) -> O, absent: O, overwrites: C -> bool)

  /** The meaning of `IsOverwrite`: the outcome does not depend on the object before. */
  ghost predicate Lawful<O(!new), C(!new)>(sem: Semantics<O, C>)
  {
    forall o, c :: sem.overwrites(c) ==> sem.apply(o, c) == sem.apply(sem.absent, c)
  }

  function ApplyAll<O, C>(sem: Semantics<O, C>, o: O, cmds: seq<C>): O
  {
    if cmds == [] then o else sem.apply(ApplyAll(sem, o, cmds[..|cmds| - 1]), cmds[|cmds| - 1])
  }

  datatype TxnCmd<C> = TxnCmd(objVersion: nat, newVersion: nat, ignorePrevious: bool, cmds: seq<C>)

  /** The payload is dropped first only if the transaction's own first command would not do so. */
  function ApplyTxn<O, C>(sem: Semantics<O, C>, o: O, t: TxnCmd<C>): O
  {
    if t.ignorePrevious && t.cmds != [] && !sem.overwrites(t.cmds[0])
    then ApplyAll(sem, sem.absent, t.cmds)
    else ApplyAll(sem, o, t.cmds)
  }

  function Replay<O, C>(sem: Semantics<O, C>, o: O, list: seq<TxnCmd<C>>): O
  {
    if list == [] then o else ApplyTxn(sem, Replay(sem, o, list[..|list| - 1]), list[|list| - 1])
  }

  /** Only transactions with a command are logged. */
  ghost predicate Logged<C(!new)>(list: seq<TxnCmd<C>>)
  {
    forall i :: 0 <= i < |list| ==> (list[i].ignorePrevious ==> list[i].cmds != [])
  }

  predicate InOrder<C>(list: seq<TxnCmd<C>>)
  {
    forall i, j :: 0 <= i < j < |list| ==> list[i].newVersion < list[j].newVersion
  }

  /** The first position whose commit timestamp is not below `version`. */
  function LowerBound<C>(list: seq<TxnCmd<C>>, version: nat): (lb: nat)
    ensures lb <= |list|
    ensures forall i :: 0 <= i < lb ==> list[i].newVersion < version
    ensures lb < |list| ==> list[lb].newVersion >= version
  {
    LowerBoundFrom(list, version, 0)
  }

  function LowerBoundFrom<C>(list: seq<TxnCmd<C>>, version: nat, from: nat): (lb: nat)
    requires from <= |list|
    ensures from <= lb <= |list|
    ensures forall i :: from <= i < lb ==> list[i].newVersion < version
    ensures lb < |list| ==> list[lb].newVersion >= version
    decreases |list| - from
  {
    if from == |list| || list[from].newVersion >= version then from else LowerBoundFrom(list, version, from + 1)
  }

  predicate Holds<C>(list: seq<TxnCmd<C>>, version: nat)
  {
    var lb := LowerBound(list, version);
    lb < |list| && list[lb].newVersion == version
  }

  /** What `EmplaceTxnCmd` leaves in the buffer. */
  function Emplace<C>(list: seq<TxnCmd<C>>, t: TxnCmd<C>): seq<TxnCmd<C>>
  {
    var lb := LowerBound(list, t.newVersion);
    if Holds(list, t.newVersion) then list
    else if t.ignorePrevious then [t] + list[lb..]
    else list[..lb] + [t] + list[lb..]
  }

  /**
   The transaction's timestamp is there; nothing but the transaction is new; and only earlier
   ones have gone, to a transaction that ignores them.
   */
  ghost predicate GainsOnly<C(!new)>(before: seq<TxnCmd<C>>, after: seq<TxnCmd<C>>, t: TxnCmd<C>)
  {
    && (exists u :: u in after && u.newVersion == t.newVersion)
    && (forall u :: u in after ==> u == t || u in before)
    && (forall u :: u in before && u !in after ==> t.ignorePrevious && u.newVersion < t.newVersion)
  }

  class BufferedTxnCmdList<C(!new)> {
    var list: seq<TxnCmd<C>>

    constructor ()
      ensures list == []
    {
      list := [];
    }

    /** A second transaction with the same commit timestamp must be on the same object version. */
    method EmplaceTxnCmd(t: TxnCmd<C>)
      requires InOrder(list)
      requires forall u :: u in list && u.newVersion == t.newVersion ==> u.objVersion == t.objVersion
      modifies this
      ensures list == Emplace(old(list), t) && InOrder(list)
      ensures GainsOnly(old(list), list, t)
    {
      EmplaceElements(list, t);
      EmplaceInOrder(list, t);
      Splice(t);
    }

    method Splice(t: TxnCmd<C>)
      modifies this
      ensures list == Emplace(old(list), t)
    {
      var lb := LowerBound(list, t.newVersion);
      if lb < |list| && list[lb].newVersion == t.newVersion {
        return;
      }
      if t.ignorePrevious {
        list := list[lb..];
        lb := 0;
        assert list[..lb] + [t] + list[lb..] == [t] + list;
      }
      list := list[..lb] + [t] + list[lb..];
    }
  }

  // ---------------------------------------------------------------------------
  // The reference: plain insertion, and what survives of it
  // ---------------------------------------------------------------------------

  /** Keeping everything: what a buffer without the erasing branch would hold. */
  function Insert<C>(list: seq<TxnCmd<C>>, t: TxnCmd<C>): seq<TxnCmd<C>>
  {
    var lb := LowerBound(list, t.newVersion);
    if Holds(list, t.newVersion) then list else list[..lb] + [t] + list[lb..]
  }

  function Buffered<C>(feed: seq<TxnCmd<C>>): seq<TxnCmd<C>>
  {
    if feed == [] then [] else Emplace(Buffered(feed[..|feed| - 1]), feed[|feed| - 1])
  }

  function Ordered<C>(feed: seq<TxnCmd<C>>): seq<TxnCmd<C>>
  {
    if feed == [] then [] else Insert(Ordered(feed[..|feed| - 1]), feed[|feed| - 1])
  }

  /** `s` is where the last transaction that ignores its predecessors stands, or the start. */
  ghost predicate IsStart<C(!new)>(list: seq<TxnCmd<C>>, s: nat)
  {
    && s <= |list|
    && (forall i :: s < i < |list| ==> !list[i].ignorePrevious)
    && (if s < |list| && list[s].ignorePrevious then true
        else s == 0 && forall i :: 0 <= i < |list| ==> !list[i].ignorePrevious)
  }

  /** How one more transaction changes the deciding part, whoever keeps the rest. */
  ghost function LiveAfter<C(!new)>(live: seq<TxnCmd<C>>, t: TxnCmd<C>): seq<TxnCmd<C>>
  {
    var lb := LowerBound(live, t.newVersion);
    if Holds(live, t.newVersion) then live
    else if lb == 0 && live != [] && live[0].ignorePrevious then live
    else if t.ignorePrevious then [t] + live[lb..]
    else live[..lb] + [t] + live[lb..]
  }

  lemma {:induction false} LowerBoundIs<C>(list: seq<TxnCmd<C>>, version: nat, lb: nat)
    requires InOrder(list)
    requires lb <= |list| && (lb > 0 ==> list[lb - 1].newVersion < version)
    requires lb < |list| ==> list[lb].newVersion >= version
    ensures LowerBound(list, version) == lb
  {
  }

  lemma {:induction false} SplicedInOrder<C>(before: seq<TxnCmd<C>>, t: TxnCmd<C>, after: seq<TxnCmd<C>>)
    requires InOrder(before) && InOrder(after)
    requires forall i :: 0 <= i < |before| ==> before[i].newVersion < t.newVersion
    requires forall i :: 0 <= i < |after| ==> t.newVersion < after[i].newVersion
    ensures InOrder(before + [t] + after)
  {
  }

  /** What is kept before and after the place of a new transaction. */
  lemma {:induction false} AroundLowerBound<C>(list: seq<TxnCmd<C>>, version: nat)
    requires InOrder(list) && !Holds(list, version)
    ensures var before, after := list[..LowerBound(list, version)], list[LowerBound(list, version)..];
            && InOrder(before) && InOrder(after)
            && (forall i :: 0 <= i < |before| ==> before[i].newVersion < version)
            && (forall i :: 0 <= i < |after| ==> version < after[i].newVersion)
  {
    var lb := LowerBound(list, version);
    forall i | 0 <= i < |list| - lb ensures version < list[lb..][i].newVersion {
      assert list[lb..][i] == list[lb + i] && (i > 0 ==> list[lb].newVersion < list[lb + i].newVersion);
    }
  }

  lemma {:induction false} InsertInOrder<C>(list: seq<TxnCmd<C>>, t: TxnCmd<C>)
    requires InOrder(list)
    ensures InOrder(Insert(list, t))
  {
    if !Holds(list, t.newVersion) {
      var lb := LowerBound(list, t.newVersion);
      AroundLowerBound(list, t.newVersion);
      SplicedInOrder(list[..lb], t, list[lb..]);
    }
  }

  lemma {:induction false} EmplaceInOrder<C>(list: seq<TxnCmd<C>>, t: TxnCmd<C>)
    requires InOrder(list)
    ensures InOrder(Emplace(list, t))
  {
    if t.ignorePrevious && !Holds(list, t.newVersion) {
      var after := list[LowerBound(list, t.newVersion)..];
      AroundLowerBound(list, t.newVersion);
      SplicedInOrder([], t, after);
      assert [] + [t] + after == [t] + after;
    } else {
      InsertInOrder(list, t);
    }
  }

  lemma {:induction false} LiveLowerBound<C(!new)>(list: seq<TxnCmd<C>>, s: nat, version: nat)
    requires InOrder(list) && s <= |list|
    ensures var lb := LowerBound(list, version);
            LowerBound(list[s..], version) == if lb <= s then 0 else lb - s
  {
    var lb := LowerBound(list, version);
    LowerBoundIs(list[s..], version, if lb <= s then 0 else lb - s);
  }

  /** Old news: the new transaction lands before the last one that ignores its predecessors. */
  lemma {:induction false} SplicedBelow<C(!new)>(
    list: seq<TxnCmd<C>>, s: nat, lb: nat, t: TxnCmd<C>, before: seq<TxnCmd<C>>)
    requires IsStart(list, s) && lb <= s < |list| && list[s].ignorePrevious
    ensures var s' := |before| + 1 + s - lb;
            IsStart(before + [t] + list[lb..], s') && (before + [t] + list[lb..])[s'..] == list[s..]
  {
    var after, s' := before + [t] + list[lb..], |before| + 1 + s - lb;
    assert after[s'..] == list[s..];
    assert forall i :: s' < i < |after| ==> after[i] == list[s..][i - s'];
  }

  lemma {:induction false} SplicedIgnoring<C(!new)>(
    list: seq<TxnCmd<C>>, s: nat, lb: nat, t: TxnCmd<C>, before: seq<TxnCmd<C>>)
    requires IsStart(list, s) && t.ignorePrevious && lb <= |list|
    requires lb <= s < |list| ==> !list[s].ignorePrevious
    ensures IsStart(before + [t] + list[lb..], |before|)
    ensures (before + [t] + list[lb..])[|before|..] == [t] + list[lb..]
  {
    var after := before + [t] + list[lb..];
    assert forall i :: |before| < i < |after| ==> after[i] == list[lb..][i - |before| - 1];
  }

  lemma {:induction false} SplicedAbove<C(!new)>(list: seq<TxnCmd<C>>, s: nat, lb: nat, t: TxnCmd<C>)
    requires IsStart(list, s) && !t.ignorePrevious && lb <= |list|
    requires lb <= s < |list| ==> !list[s].ignorePrevious
    ensures s <= lb && IsStart(list[..lb] + [t] + list[lb..], s)
    ensures (list[..lb] + [t] + list[lb..])[s..] == list[s..lb] + [t] + list[lb..]
  {
  }

  lemma {:induction false} LiveAfterBelow<C(!new)>(list: seq<TxnCmd<C>>, s: nat, t: TxnCmd<C>)
    requires InOrder(list) && LowerBound(list, t.newVersion) <= s < |list| && list[s].ignorePrevious
    ensures LiveAfter(list[s..], t) == list[s..]
  {
    LiveLowerBound(list, s, t.newVersion);
  }

  lemma {:induction false} LiveAfterAbove<C(!new)>(list: seq<TxnCmd<C>>, s: nat, lb: nat, t: TxnCmd<C>)
    requires InOrder(list) && !Holds(list, t.newVersion) && lb == LowerBound(list, t.newVersion) && s <= lb
    requires s == lb < |list| ==> !list[s].ignorePrevious
    ensures LiveAfter(list[s..], t) == if t.ignorePrevious then [t] + list[lb..] else list[s..lb] + [t] + list[lb..]
  {
    LiveLowerBound(list, s, t.newVersion);
    assert list[s..][lb - s..] == list[lb..] && list[s..][..lb - s] == list[s..lb];
  }

  lemma {:induction false} StepLive<C(!new)>(
    list: seq<TxnCmd<C>>, s: nat, t: TxnCmd<C>, before: seq<TxnCmd<C>>)
    returns (s': nat)
    requires InOrder(list) && !Holds(list, t.newVersion) && IsStart(list, s)
    requires t.ignorePrevious || before == list[..LowerBound(list, t.newVersion)]
    ensures var after := before + [t] + list[LowerBound(list, t.newVersion)..];
            IsStart(after, s') && after[s'..] == LiveAfter(list[s..], t)
  {
    var lb := LowerBound(list, t.newVersion);
    if lb <= s && s < |list| && list[s].ignorePrevious {
      LiveAfterBelow(list, s, t);
      SplicedBelow(list, s, lb, t, before);
      s' := |before| + 1 + s - lb;
    } else {
      LiveAfterAbove(list, s, lb, t);
      if t.ignorePrevious {
        SplicedIgnoring(list, s, lb, t, before);
        s' := |before|;
      } else {
        SplicedAbove(list, s, lb, t);
        s' := s;
      }
    }
  }

  lemma {:induction false} HeldAlready<C(!new)>(list: seq<TxnCmd<C>>, s: nat, t: TxnCmd<C>)
    requires InOrder(list) && Holds(list, t.newVersion) && IsStart(list, s)
    ensures LiveAfter(list[s..], t) == list[s..]
  {
    LiveLowerBound(list, s, t.newVersion);
  }

  lemma {:induction false} EmplaceLive<C(!new)>(list: seq<TxnCmd<C>>, s: nat, t: TxnCmd<C>) returns (s': nat)
    requires InOrder(list) && IsStart(list, s)
    ensures IsStart(Emplace(list, t), s') && Emplace(list, t)[s'..] == LiveAfter(list[s..], t)
  {
    var lb := LowerBound(list, t.newVersion);
    if Holds(list, t.newVersion) {
      HeldAlready(list, s, t);
      s' := s;
    } else if t.ignorePrevious {
      assert [t] + list[lb..] == [] + [t] + list[lb..];
      s' := StepLive(list, s, t, []);
    } else {
      s' := StepLive(list, s, t, list[..lb]);
    }
  }

  lemma {:induction false} InsertLive<C(!new)>(list: seq<TxnCmd<C>>, s: nat, t: TxnCmd<C>) returns (s': nat)
    requires InOrder(list) && IsStart(list, s)
    ensures IsStart(Insert(list, t), s') && Insert(list, t)[s'..] == LiveAfter(list[s..], t)
  {
    if Holds(list, t.newVersion) {
      HeldAlready(list, s, t);
      s' := s;
    } else {
      s' := StepLive(list, s, t, list[..LowerBound(list, t.newVersion)]);
    }
  }

  /** The buffer and the plain sorted list agree from their last ignoring transaction on. */
  lemma {:induction false} SameLive<C(!new)>(feed: seq<TxnCmd<C>>) returns (b: nat, a: nat)
    ensures InOrder(Buffered(feed)) && InOrder(Ordered(feed))
    ensures IsStart(Buffered(feed), b) && IsStart(Ordered(feed), a)
    ensures Buffered(feed)[b..] == Ordered(feed)[a..]
  {
    if feed == [] {
      b, a := 0, 0;
    } else {
      var t := feed[|feed| - 1];
      var buffered, ordered := Buffered(feed[..|feed| - 1]), Ordered(feed[..|feed| - 1]);
      b, a := SameLive(feed[..|feed| - 1]);
      EmplaceInOrder(buffered, t);
      InsertInOrder(ordered, t);
      b := EmplaceLive(buffered, b, t);
      a := InsertLive(ordered, a, t);
    }
  }

  // ---------------------------------------------------------------------------
  // Replay
  // ---------------------------------------------------------------------------

  lemma {:induction false} ApplyAllFromOverwrite<O(!new), C(!new)>(sem: Semantics<O, C>, o: O, cmds: seq<C>)
    requires Lawful(sem) && cmds != [] && sem.overwrites(cmds[0])
    ensures ApplyAll(sem, o, cmds) == ApplyAll(sem, sem.absent, cmds)
  {
    if |cmds| == 1 {
      assert ApplyAll(sem, o, cmds[..0]) == o && ApplyAll(sem, sem.absent, cmds[..0]) == sem.absent;
    } else {
      ApplyAllFromOverwrite(sem, o, cmds[..|cmds| - 1]);
    }
  }

  /** A logged transaction that ignores its predecessors replays alike from every object. */
  lemma {:induction false} IgnoringStartsAfresh<O(!new), C(!new)>(sem: Semantics<O, C>, o: O, t: TxnCmd<C>)
    requires Lawful(sem) && t.ignorePrevious && t.cmds != []
    ensures ApplyTxn(sem, o, t) == ApplyAll(sem, sem.absent, t.cmds)
  {
    if sem.overwrites(t.cmds[0]) { ApplyAllFromOverwrite(sem, o, t.cmds); }
  }

  lemma {:induction false} ReplaySplit<O, C>(sem: Semantics<O, C>, o: O, a: seq<TxnCmd<C>>, b: seq<TxnCmd<C>>)
    ensures Replay(sem, o, a + b) == Replay(sem, Replay(sem, o, a), b)
  {
    if b == [] {
      assert a + b == a;
    } else {
      ReplaySplit(sem, o, a, b[..|b| - 1]);
      assert (a + b)[..|a + b| - 1] == a + b[..|b| - 1];
    }
  }

  lemma {:induction false} LiveDecides<O(!new), C(!new)>(sem: Semantics<O, C>, o: O, list: seq<TxnCmd<C>>, s: nat)
    requires Lawful(sem) && Logged(list) && IsStart(list, s)
    ensures Replay(sem, o, list) == Replay(sem, o, list[s..])
  {
    if s < |list| && list[s].ignorePrevious {
      var first, rest := [list[s]], list[s + 1..];
      assert list == list[..s] + (first + rest) && list[s..] == first + rest;
      ReplaySplit(sem, o, list[..s], first + rest);
      ReplaySplit(sem, o, first, rest);
      ReplaySplit(sem, Replay(sem, o, list[..s]), first, rest);
      StartsAfresh(sem, o, list[s]);
      StartsAfresh(sem, Replay(sem, o, list[..s]), list[s]);
    } else {
      assert list[s..] == list;
    }
  }

  lemma {:induction false} StartsAfresh<O(!new), C(!new)>(sem: Semantics<O, C>, o: O, t: TxnCmd<C>)
    requires Lawful(sem) && t.ignorePrevious && t.cmds != []
    ensures Replay(sem, o, [t]) == ApplyAll(sem, sem.absent, t.cmds)
  {
    assert Replay(sem, o, [t]) == ApplyTxn(sem, Replay(sem, o, [t][..0]), t);
    assert Replay(sem, o, [t][..0]) == o;
    IgnoringStartsAfresh(sem, o, t);
  }

  /** Redeliveries are copies: equal commit timestamps mean the same transaction. */
  ghost predicate Coherent<C(!new)>(feed: seq<TxnCmd<C>>)
  {
    forall t, u :: t in feed && u in feed && t.newVersion == u.newVersion ==> t == u
  }

  lemma {:induction false} InsertElements<C(!new)>(list: seq<TxnCmd<C>>, t: TxnCmd<C>)
    ensures forall u :: u in Insert(list, t) ==> u == t || u in list
    ensures forall u :: u in list ==> u in Insert(list, t)
    ensures t in Insert(list, t) || exists u :: u in list && u.newVersion == t.newVersion
  {
    var lb := LowerBound(list, t.newVersion);
    assert forall u :: u in list ==> u in list[..lb] || u in list[lb..];
  }

  lemma {:induction false} EmplaceElements<C(!new)>(list: seq<TxnCmd<C>>, t: TxnCmd<C>)
    ensures GainsOnly(list, Emplace(list, t), t)
  {
    var lb := LowerBound(list, t.newVersion);
    assert forall u :: u in list ==> u in list[..lb] || u in list[lb..];
    if Holds(list, t.newVersion) {
      assert list[lb] in Emplace(list, t);
    } else {
      assert t in Emplace(list, t);
    }
  }

  lemma {:induction false} OrderedElements<C(!new)>(feed: seq<TxnCmd<C>>)
    requires Coherent(feed)
    ensures forall t :: t in Ordered(feed) <==> t in feed
    ensures forall t :: t in Buffered(feed) ==> t in feed
  {
    if feed != [] {
      var init, t := feed[..|feed| - 1], feed[|feed| - 1];
      assert forall u :: u in feed <==> u in init || u == t;
      OrderedElements(init);
      InsertElements(Ordered(init), t);
      EmplaceElements(Buffered(init), t);
    }
  }

  lemma {:induction false} SortedListIsUnique<C(!new)>(a: seq<TxnCmd<C>>, b: seq<TxnCmd<C>>)
    requires InOrder(a) && InOrder(b)
    requires forall t :: t in a <==> t in b
    ensures a == b
  {
    assert b != [] ==> b[0] in a;
    if a != [] {
      assert a[0] in b && a[0] == b[0];
      forall t ensures t in a[1..] <==> t in b[1..] {
        assert t in a[1..] ==> t in a && t != a[0];
        assert t in b[1..] ==> t in b && t != b[0];
      }
      SortedListIsUnique(a[1..], b[1..]);
    }
  }

  lemma {:induction false} LoggedPart<C(!new)>(feed: seq<TxnCmd<C>>, part: seq<TxnCmd<C>>)
    requires Logged(feed) && forall t :: t in part ==> t in feed
    ensures Logged(part)
  {
    assert forall i :: 0 <= i < |part| ==> part[i] in feed;
  }

  /**
   Feeding logged transactions in any order, with any repetitions, keeps the buffer
   strictly sorted, and replaying it from any object gives what replaying all of them in
   commit order gives.
   */
  lemma {:induction false} ReplayConverges<O(!new), C(!new)>(
    sem: Semantics<O, C>, o: O, feed: seq<TxnCmd<C>>, all: seq<TxnCmd<C>>)
    requires Lawful(sem) && Coherent(feed) && Logged(feed)
    requires InOrder(all) && forall t :: t in all <==> t in feed
    ensures InOrder(Buffered(feed))
    ensures Replay(sem, o, Buffered(feed)) == Replay(sem, o, all)
  {
    var b, a := SameLive(feed);
    OrderedElements(feed);
    SortedListIsUnique(all, Ordered(feed));
    LoggedPart(feed, all);
    LoggedPart(feed, Buffered(feed));
    LiveDecides(sem, o, Buffered(feed), b);
    LiveDecides(sem, o, all, a);
  }
}
