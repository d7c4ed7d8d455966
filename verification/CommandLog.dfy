/**
 Compaction of a transaction's commands on one object before they are logged:
 `CmdSetEntry::AddCommand` (include/read_write_entry.h), and what it means together with
 the replay buffer.
 */
module CommandLog {
  import opened ReplayBuffer

  /** The part of a command-set entry that is written to the log. */
  datatype Retained<C> = Retained(cmds: seq<C>, ignorePrevious: bool)

  /** The entry as created: `appliedOnDeleted` tells whether the object was deleted then. */
  function Fresh<C>(appliedOnDeleted: bool): Retained<C>
  {
    Retained([], appliedOnDeleted)
  }

  function Add<C>(overwrites: C -> bool, r: Retained<C>, c: C): Retained<C>
  {
    if overwrites(c) then Retained([c], true) else Retained(r.cmds + [c], r.ignorePrevious)
  }

  function Compact<C>(overwrites: C -> bool, appliedOnDeleted: bool, all: seq<C>): (r: Retained<C>)
    ensures r.cmds == [] <==> all == []
    ensures !r.ignorePrevious ==> r.cmds == all
  {
    if all == [] then Fresh(appliedOnDeleted)
    else Add(overwrites, Compact(overwrites, appliedOnDeleted, all[..|all| - 1]), all[|all| - 1])
  }

  /** Where the retained commands start from. */
  function Base<O, C>(sem: Semantics<O, C>, prior: O, r: Retained<C>): O
  {
    if r.ignorePrevious then sem.absent else prior
  }

  lemma {:induction false} RetainedIsEnough<O(!new), C(!new)>(
    sem: Semantics<O, C>, prior: O, onDeleted: bool, all: seq<C>)
    requires Lawful(sem) && (onDeleted ==> prior == sem.absent)
    ensures var r := Compact(sem.overwrites, onDeleted, all);
            ApplyAll(sem, Base(sem, prior, r), r.cmds) == ApplyAll(sem, prior, all)
  {
    if all != [] {
      var init, c := all[..|all| - 1], all[|all| - 1];
      var r := Compact(sem.overwrites, onDeleted, init);
      RetainedIsEnough(sem, prior, onDeleted, init);
      if sem.overwrites(c) {
        assert ApplyAll(sem, sem.absent, [c]) == sem.apply(ApplyAll(sem, sem.absent, [c][..0]), c);
      } else {
        assert (r.cmds + [c])[..|r.cmds|] == r.cmds;
      }
    }
  }

  /** The log record of a transaction that ran `all` on an object. */
  function LogRecord<C>(
    overwrites: C -> bool, objVersion: nat, newVersion: nat, onDeleted: bool, all: seq<C>): TxnCmd<C>
  {
    var r := Compact(overwrites, onDeleted, all);
    TxnCmd(objVersion, newVersion, r.ignorePrevious, r.cmds)
  }

  /**
   Compaction keeps the meaning: replaying the log record, from any object at all when it
   ignores the previous version and else from the prior one, gives what all the commands
   gave.
   */
  lemma {:induction false} CompactionPreserves<O(!new), C(!new)>(
    sem: Semantics<O, C>, prior: O, onDeleted: bool, all: seq<C>, objVersion: nat, newVersion: nat, o: O)
    requires Lawful(sem) && all != [] && (onDeleted ==> prior == sem.absent)
    requires var t := LogRecord(sem.overwrites, objVersion, newVersion, onDeleted, all); t.ignorePrevious || o == prior
    ensures var t := LogRecord(sem.overwrites, objVersion, newVersion, onDeleted, all);
            ApplyTxn(sem, o, t) == ApplyAll(sem, prior, all)
  {
    var t := LogRecord(sem.overwrites, objVersion, newVersion, onDeleted, all);
    RetainedIsEnough(sem, prior, onDeleted, all);
    if t.ignorePrevious { IgnoringStartsAfresh(sem, o, t); }
  }

  // ---------------------------------------------------------------------------
  // A history of transactions on one object
  // ---------------------------------------------------------------------------

  /** One committed transaction: its commit timestamp and the commands it ran. */
  datatype Txn<C> = Txn(commitTs: nat, all: seq<C>)

  /** Commit timestamps grow, and a transaction that ran no command is not logged. */
  predicate History<C>(base: nat, txns: seq<Txn<C>>)
  {
    && (forall i :: 0 <= i < |txns| ==> base < txns[i].commitTs && txns[i].all != [])
    && (forall i, j :: 0 <= i < j < |txns| ==> txns[i].commitTs < txns[j].commitTs)
  }

  function Object<O, C>(sem: Semantics<O, C>, o: O, txns: seq<Txn<C>>, i: nat): O
    requires i <= |txns|
  {
    if i == 0 then o else ApplyAll(sem, Object(sem, o, txns, i - 1), txns[i - 1].all)
  }

  function Version<C>(base: nat, txns: seq<Txn<C>>, i: nat): nat
    requires i <= |txns|
  {
    if i == 0 then base else txns[i - 1].commitTs
  }

  /** The log record of the i-th transaction: an absent object is the deleted status. */
  ghost function Record<O, C>(sem: Semantics<O, C>, o: O, base: nat, txns: seq<Txn<C>>, i: nat): TxnCmd<C>
    requires i < |txns|
  {
    LogRecord(sem.overwrites, Version(base, txns, i), txns[i].commitTs, Object(sem, o, txns, i) == sem.absent,
              txns[i].all)
  }

  ghost function Log<O, C>(sem: Semantics<O, C>, o: O, base: nat, txns: seq<Txn<C>>): (log: seq<TxnCmd<C>>)
    ensures |log| == |txns|
    ensures forall i :: 0 <= i < |log| ==> log[i] == Record(sem, o, base, txns, i)
  {
    seq(|txns|, (i: nat) requires i < |txns| => Record(sem, o, base, txns, i))
  }

  /** Replaying one record on the object it was logged for gives the next object. */
  lemma {:induction false} RecordSteps<O(!new), C(!new)>(
    sem: Semantics<O, C>, o: O, base: nat, txns: seq<Txn<C>>, i: nat, from: O)
    requires Lawful(sem) && History(base, txns) && i < |txns|
    requires Record(sem, o, base, txns, i).ignorePrevious || from == Object(sem, o, txns, i)
    ensures ApplyTxn(sem, from, Record(sem, o, base, txns, i)) == Object(sem, o, txns, i + 1)
  {
    var prior := Object(sem, o, txns, i);
    CompactionPreserves(sem, prior, prior == sem.absent, txns[i].all, Version(base, txns, i), txns[i].commitTs, from);
  }

  lemma {:induction false} ReplayOfLog<O(!new), C(!new)>(
    sem: Semantics<O, C>, o: O, base: nat, txns: seq<Txn<C>>, n: nat)
    requires Lawful(sem) && History(base, txns) && n <= |txns|
    ensures Replay(sem, o, Log(sem, o, base, txns)[..n]) == Object(sem, o, txns, n)
  {
    if n > 0 {
      var log := Log(sem, o, base, txns);
      ReplayOfLog(sem, o, base, txns, n - 1);
      var list := log[..n];
      assert list[..n - 1] == log[..n - 1] && list[n - 1] == Record(sem, o, base, txns, n - 1);
      assert Replay(sem, o, list) == ApplyTxn(sem, Replay(sem, o, list[..n - 1]), list[n - 1]);
      RecordSteps(sem, o, base, txns, n - 1, Object(sem, o, txns, n - 1));
    }
  }

  lemma {:induction false} LogIsOrdered<O(!new), C(!new)>(sem: Semantics<O, C>, o: O, base: nat, txns: seq<Txn<C>>)
    requires History(base, txns)
    ensures InOrder(Log(sem, o, base, txns)) && Logged(Log(sem, o, base, txns))
  {
  }

  /**
   Compaction and buffering together: however the compacted log records of a history
   arrive, and however often, the buffer replays to the object the history left.
   */
  lemma {:induction false} LogRestoresObject<O(!new), C(!new)>(
    sem: Semantics<O, C>, o: O, base: nat, txns: seq<Txn<C>>, feed: seq<TxnCmd<C>>)
    requires Lawful(sem) && History(base, txns)
    requires forall t :: t in feed <==> t in Log(sem, o, base, txns)
    ensures InOrder(Buffered(feed))
    ensures Replay(sem, o, Buffered(feed)) == Object(sem, o, txns, |txns|)
  {
    var log := Log(sem, o, base, txns);
    LogIsOrdered(sem, o, base, txns);
    FeedOfLog(log, feed);
    ReplayConverges(sem, o, feed, log);
    ReplayOfLog(sem, o, base, txns, |txns|);
    assert log[..|txns|] == log;
  }

  lemma {:induction false} FeedOfLog<C(!new)>(log: seq<TxnCmd<C>>, feed: seq<TxnCmd<C>>)
    requires InOrder(log) && Logged(log) && forall t :: t in feed ==> t in log
    ensures Coherent(feed) && Logged(feed)
  {
    LoggedPart(log, feed);
    forall t, u | t in feed && u in feed && t.newVersion == u.newVersion ensures t == u {
      assert t in log && u in log;
      var i :| 0 <= i < |log| && log[i] == t;
      var j :| 0 <= j < |log| && log[j] == u;
      assert i == j;
    }
  }
}
