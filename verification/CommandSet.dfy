/**
 The commands a transaction has run, per object: `CommandSet` (include/command_set.h)
 over `CmdSetEntry` (include/read_write_entry.h).
 */
module CommandSet {
  import opened Options
  import opened CommandLog

  const NO_SHARD: nat := 0xFFFF_FFFF

  datatype CmdSetEntry<C> = CmdSetEntry(
    objectVersion: nat, lastValiTs: nat, modified: bool, key: string, log: Retained<C>, forward: Option<nat>)

  /** What happened to one object: its status at the first command, all commands since, and where they go on to. */
  datatype Ran<C> = Ran(onDeleted: bool, all: seq<C>, shards: seq<nat>)

  function RanAlso<C>(r: Ran<C>, cmd: Option<C>, shard: nat): Ran<C>
  {
    if cmd.None? then r
    else Ran(r.onDeleted, r.all + [cmd.value], if shard == NO_SHARD then r.shards else r.shards + [shard])
  }

  /** An entry against everything the transaction ran on its object. */
  ghost predicate Faithful<C(!new)>(overwrites: C -> bool, skipWal: bool, e: CmdSetEntry<C>, r: Ran<C>)
  {
    && (e.modified <==> r.all != [])
    && e.log == Compact(overwrites, r.onDeleted, if skipWal then [] else r.all)
    && e.forward == (if r.shards == [] then None else Some(r.shards[0]))
  }

  lemma {:induction false} CompactMore<C(!new)>(overwrites: C -> bool, onDeleted: bool, all: seq<C>, c: C)
    ensures Compact(overwrites, onDeleted, all + [c]) == Add(overwrites, Compact(overwrites, onDeleted, all), c)
  {
    assert (all + [c])[..|all|] == all;
  }

  ghost predicate Has<T, A, C>(cmdSet: map<T, map<A, CmdSetEntry<C>>>, k: (T, A))
  {
    k.0 in cmdSet && k.1 in cmdSet[k.0]
  }

  ghost predicate Matches<T(!new), A(!new), C(!new)>(
    overwrites: C -> bool, skipWal: bool, cmdSet: map<T, map<A, CmdSetEntry<C>>>, ran: map<(T, A), Ran<C>>)
  {
    && (forall k :: k in ran <==> Has(cmdSet, k))
    && (forall k :: k in ran ==> Faithful(overwrites, skipWal, cmdSet[k.0][k.1], ran[k]))
  }

  ghost function Forwarded<T(!new), A(!new), C(!new)>(ran: map<(T, A), Ran<C>>): set<(T, A)>
  {
    set k | k in ran && ran[k].shards != []
  }

  lemma {:induction false} PutKeepsMatch<T(!new), A(!new), C(!new)>(
    overwrites: C -> bool, skipWal: bool, cmdSet: map<T, map<A, CmdSetEntry<C>>>, ran: map<(T, A), Ran<C>>,
    k: (T, A), e: CmdSetEntry<C>, r: Ran<C>)
    requires Matches(overwrites, skipWal, cmdSet, ran) && Faithful(overwrites, skipWal, e, r)
    ensures Matches(overwrites, skipWal, PutIn(cmdSet, k, e), ran[k := r])
  {
    var after := PutIn(cmdSet, k, e);
    forall j ensures Has(after, j) <==> j == k || Has(cmdSet, j) {
    }
  }

  function Since<K, C>(ran: map<K, Ran<C>>, k: K, deleted: bool): Ran<C>
  {
    if k in ran then ran[k] else Ran(deleted, [], [])
  }

  ghost function NewKeys<T, A, C>(ran: map<(T, A), Ran<C>>, k: (T, A)): nat
  {
    if k in ran then 0 else 1
  }

  ghost function NewForwards<T, A, C>(ran: map<(T, A), Ran<C>>, k: (T, A), r: Ran<C>): nat
  {
    if r.shards == [] || (k in ran && ran[k].shards != []) then 0 else 1
  }

  lemma {:induction false} PutCountsKeys<T(!new), A(!new), C(!new)>(ran: map<(T, A), Ran<C>>, k: (T, A), r: Ran<C>)
    ensures |ran[k := r]| == |ran| + NewKeys(ran, k)
  {
    var ran' := ran[k := r];
    assert ran'.Keys == ran.Keys + {k} && |ran'.Keys| == |ran'| && |ran.Keys| == |ran|;
  }

  lemma {:induction false} PutForwards<T(!new), A(!new), C(!new)>(ran: map<(T, A), Ran<C>>, k: (T, A), r: Ran<C>)
    requires k in ran && ran[k].shards != [] ==> r.shards != []
    ensures Forwarded(ran[k := r]) == Forwarded(ran) + if r.shards == [] then {} else {k}
    ensures k in Forwarded(ran) <==> k in ran && ran[k].shards != []
  {
  }

  lemma {:induction false} PutCountsForwards<T(!new), A(!new), C(!new)>(ran: map<(T, A), Ran<C>>, k: (T, A), r: Ran<C>)
    requires k in ran && ran[k].shards != [] ==> r.shards != []
    ensures |Forwarded(ran[k := r])| == |Forwarded(ran)| + NewForwards(ran, k, r)
  {
    PutForwards(ran, k, r);
    CountAdded(Forwarded(ran), k);
  }

  lemma {:induction false} CountAdded<K>(all: set<K>, k: K)
    ensures |all + {k}| == |all| + if k in all then 0 else 1
    ensures all + {} == all
  {
    if k in all { assert all + {k} == all; }
  }

  /** What one more command adds to the number of objects to be forwarded. */
  lemma {:induction false} ForwardsAdded<T(!new), A(!new), C(!new)>(
    ran: map<(T, A), Ran<C>>, k: (T, A), deleted: bool, cmd: Option<C>, shard: nat)
    ensures var r := Since(ran, k, deleted); var r' := RanAlso(r, cmd, shard);
            && (k in ran && ran[k].shards != [] ==> r'.shards != [])
            && NewForwards(ran, k, r') == if r.shards == [] && r'.shards != [] then 1 else 0
  {
  }

  /** The counters are exact and every entry is what its object's commands make it. */
  ghost predicate Tracks<T(!new), A(!new), C(!new)>(
    overwrites: C -> bool, skipWal: bool, cmdSet: map<T, map<A, CmdSetEntry<C>>>, ran: map<(T, A), Ran<C>>,
    withWriteLock: nat, needForward: nat)
  {
    && Matches(overwrites, skipWal, cmdSet, ran)
    && withWriteLock == |ran|
    && needForward == |Forwarded(ran)|
  }

  function PutIn<T, A, C>(cmdSet: map<T, map<A, CmdSetEntry<C>>>, k: (T, A), e: CmdSetEntry<C>)
    : map<T, map<A, CmdSetEntry<C>>>
  {
    cmdSet[k.0 := (if k.0 in cmdSet then cmdSet[k.0] else map[])[k.1 := e]]
  }

  lemma {:induction false} PutKeepsTrack<T(!new), A(!new), C(!new)>(
    overwrites: C -> bool, skipWal: bool, cmdSet: map<T, map<A, CmdSetEntry<C>>>, ran: map<(T, A), Ran<C>>,
    k: (T, A), e: CmdSetEntry<C>, r: Ran<C>)
    requires Matches(overwrites, skipWal, cmdSet, ran) && Faithful(overwrites, skipWal, e, r)
    requires k in ran && ran[k].shards != [] ==> r.shards != []
    ensures Tracks(overwrites, skipWal, PutIn(cmdSet, k, e), ran[k := r],
                   |ran| + NewKeys(ran, k), |Forwarded(ran)| + NewForwards(ran, k, r))
  {
    PutCountsKeys(ran, k, r);
    PutCountsForwards(ran, k, r);
    PutKeepsMatch(overwrites, skipWal, cmdSet, ran, k, e, r);
  }

  class CommandSet<T(==, !new), A(==, !new), C(!new)> {
    const overwrites: C -> bool
    const skipWal: bool
    var cmdSet: map<T, map<A, CmdSetEntry<C>>>
    var withWriteLock: nat
    var needForward: nat
    ghost var ran: map<(T, A), Ran<C>>

    ghost predicate Valid()
      reads this
    {
      Tracks(overwrites, skipWal, cmdSet, ran, withWriteLock, needForward)
    }

    constructor (overwrites: C -> bool, skipWal: bool)
      ensures Valid() && ran == map[]
      ensures this.overwrites == overwrites && this.skipWal == skipWal
    {
      this.overwrites, this.skipWal := overwrites, skipWal;
      cmdSet, withWriteLock, needForward, ran := map[], 0, 0, map[];
    }

    method Reset()
      modifies this
      ensures Valid() && ran == map[]
    {
      cmdSet, withWriteLock, needForward, ran := map[], 0, 0, map[];
    }

    /** `CmdSetEntry` after a successful command, and whether it is newly to be forwarded. */
    method AddCommand(e: CmdSetEntry<C>, ghost r: Ran<C>, c: C, shard: nat) returns (e': CmdSetEntry<C>, forwards: bool)
      requires Faithful(overwrites, skipWal, e, r)
      ensures Faithful(overwrites, skipWal, e', RanAlso(r, Some(c), shard))
      ensures e'.objectVersion == e.objectVersion && e'.key == e.key && e'.lastValiTs == e.lastValiTs
      ensures forwards <==> r.shards == [] && RanAlso(r, Some(c), shard).shards != []
    {
      e' := e.(modified := true);
      if !skipWal {
        e' := e'.(log := Add(overwrites, e'.log, c));
        CompactMore(overwrites, r.onDeleted, r.all, c);
      }
      forwards := shard != NO_SHARD && e'.forward.None?;
      if forwards {
        e' := e'.(forward := Some(shard));
      }
    }

    method Execute(e: CmdSetEntry<C>, ghost r: Ran<C>, cmd: Option<C>, shard: nat)
      returns (e': CmdSetEntry<C>, forwards: bool)
      requires Faithful(overwrites, skipWal, e, r)
      ensures Faithful(overwrites, skipWal, e', RanAlso(r, cmd, shard))
      ensures e'.objectVersion == e.objectVersion && e'.key == e.key && e'.lastValiTs == e.lastValiTs
      ensures forwards <==> r.shards == [] && RanAlso(r, cmd, shard).shards != []
    {
      e', forwards := e, false;
      if cmd.Some? {
        e', forwards := AddCommand(e, r, cmd.value, shard);
      }
    }

    /**
     `cmd` is None when the command failed and only the write lock is recorded. The
     object's version must not go back.
     */
    method AddObjectCommand(table: T, addr: A, deleted: bool, version: nat, lastValiTs: nat,
                            key: string, cmd: Option<C>, shard: nat)
      requires Valid()
      requires Has(cmdSet, (table, addr)) ==> cmdSet[table][addr].objectVersion <= version
      modifies this
      ensures Valid()
      ensures var k := (table, addr); ran == old(ran)[k := RanAlso(Since(old(ran), k, deleted), cmd, shard)]
      ensures Has(cmdSet, (table, addr)) && cmdSet[table][addr].objectVersion == version
      ensures (table, addr) !in old(ran) ==>
                cmdSet[table][addr].key == key && cmdSet[table][addr].lastValiTs == lastValiTs
    {
      ghost var k := (table, addr);
      ghost var r := Since(ran, k, deleted);
      var entry, isNew := FindOrCreate(table, addr, deleted, version, lastValiTs, key);
      if isNew {
        withWriteLock := withWriteLock + 1;
      }
      entry := entry.(objectVersion := version);
      var forwards;
      entry, forwards := Execute(entry, r, cmd, shard);
      if forwards {
        needForward := needForward + 1;
      }
      ghost var r' := RanAlso(r, cmd, shard);
      ForwardsAdded(ran, k, deleted, cmd, shard);
      Put(table, addr, entry, r', old(withWriteLock), old(needForward));
    }

    /** Writes an entry back; the counters already include what it adds. */
    method Put(table: T, addr: A, entry: CmdSetEntry<C>, ghost r: Ran<C>, ghost locked: nat, ghost forwarded: nat)
      requires Tracks(overwrites, skipWal, cmdSet, ran, locked, forwarded) && Faithful(overwrites, skipWal, entry, r)
      requires (table, addr) in ran && ran[(table, addr)].shards != [] ==> r.shards != []
      requires withWriteLock == locked + NewKeys(ran, (table, addr))
      requires needForward == forwarded + NewForwards(ran, (table, addr), r)
      modifies this`cmdSet, this`ran
      ensures Valid() && ran == old(ran)[(table, addr) := r]
      ensures Has(cmdSet, (table, addr)) && cmdSet[table][addr] == entry
    {
      PutKeepsTrack(overwrites, skipWal, cmdSet, ran, (table, addr), entry, r);
      cmdSet := PutIn(cmdSet, (table, addr), entry);
      ran := ran[(table, addr) := r];
    }

    method FindOrCreate(table: T, addr: A, deleted: bool, version: nat, lastValiTs: nat, key: string)
      returns (entry: CmdSetEntry<C>, isNew: bool)
      requires Valid()
      ensures Faithful(overwrites, skipWal, entry, Since(ran, (table, addr), deleted))
      ensures isNew <==> (table, addr) !in ran
      ensures if isNew then entry.key == key && entry.lastValiTs == lastValiTs
              else Has(cmdSet, (table, addr)) && entry == cmdSet[table][addr]
    {
      isNew := !(table in cmdSet && addr in cmdSet[table]);
      assert isNew <==> !Has(cmdSet, (table, addr));
      entry := if isNew then CmdSetEntry(version, lastValiTs, false, key, CommandLog.Fresh(deleted), None)
               else cmdSet[table][addr];
    }

    /** Whether any command succeeded. */
    method ObjectModified() returns (modified: bool)
      requires Valid()
      ensures modified <==> exists k :: k in ran && ran[k].all != []
    {
      var tables := cmdSet.Keys;
      while tables != {}
        invariant tables <= cmdSet.Keys
        invariant forall k :: Has(cmdSet, k) && k.0 !in tables ==> !cmdSet[k.0][k.1].modified
      {
        var table :| table in tables;
        var addrs := cmdSet[table].Keys;
        while addrs != {}
          invariant addrs <= cmdSet[table].Keys
          invariant forall a :: a in cmdSet[table] && a !in addrs ==> !cmdSet[table][a].modified
        {
          var addr :| addr in addrs;
          if cmdSet[table][addr].modified {
            assert Has(cmdSet, (table, addr)) && (table, addr) in ran;
            return true;
          }
          addrs := addrs - {addr};
        }
        tables := tables - {table};
      }
      return false;
    }
  }
}
