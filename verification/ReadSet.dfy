/**
 The read half of a transaction's `ReadWriteSet` (include/read_write_set.h): the entries
 it has read, by table and entry address, and the counter of those that are data.

 `size_t` is an unbounded integer; the per-entry read count is 16 bits wide.
 */
module ReadSet {
  import opened Options

  const UINT16: nat := 0x1_0000

  datatype TableType = Primary | Secondary | UniqueSecondary | Catalog | RangePartition | RangeBucket | ClusterConfig

  datatype Table = Table(name: string, kind: TableType)

  predicate IsMeta(t: Table)
  {
    t.kind == RangeBucket || t.kind == Catalog || t.kind == RangePartition || t.kind == ClusterConfig
  }

  datatype ReadEntry = ReadEntry(versionTs: nat, readCnt: nat)

  type Reads<!A(==)> = map<(Table, A), ReadEntry>

  /** Refuses a version newer than the one read before: the read would not be repeatable. */
  predicate Repeatable<A>(rset: Reads<A>, k: (Table, A), readTs: nat)
  {
    !(k in rset && 0 < rset[k].versionTs < readTs)
  }

  function AfterRead<A>(rset: Reads<A>, k: (Table, A), readTs: nat): Reads<A>
  {
    if !Repeatable(rset, k, readTs) then rset
    else if k !in rset then rset[k := ReadEntry(readTs, 1)]
    else rset[k := ReadEntry(if readTs > 0 then readTs else rset[k].versionTs, (rset[k].readCnt + 1) % UINT16)]
  }

  /** The 16-bit count after one read is given back; without assertions 0 becomes 65535. */
  function OneLess(readCnt: nat): nat
  {
    (readCnt + UINT16 - 1) % UINT16
  }

  /** The entry goes when its count comes to zero. */
  function AfterRemove<A>(rset: Reads<A>, k: (Table, A)): Reads<A>
  {
    if k !in rset then rset
    else if OneLess(rset[k].readCnt) == 0 then rset - {k}
    else rset[k := rset[k].(readCnt := OneLess(rset[k].readCnt))]
  }

  function AfterUpdate<A>(rset: Reads<A>, k: (Table, A), versionTs: nat): Reads<A>
  {
    if k in rset then rset[k := rset[k].(versionTs := versionTs)] else rset
  }

  /** The entries the data counter is about. */
  ghost function DataKeys<A(!new)>(rset: Reads<A>): set<(Table, A)>
  {
    set k | k in rset && !IsMeta(k.0)
  }

  ghost function TableKeys<A(!new)>(rset: Reads<A>, t: Table): set<(Table, A)>
  {
    set k | k in rset && k.0 == t
  }

  lemma {:induction false} PutData<A(!new)>(rset: Reads<A>, k: (Table, A), e: ReadEntry)
    ensures DataKeys(rset[k := e]) == DataKeys(rset) + if IsMeta(k.0) then {} else {k}
    ensures k in DataKeys(rset) <==> k in rset && !IsMeta(k.0)
  {
  }

  lemma {:induction false} KeepData<A(!new)>(rset: Reads<A>, k: (Table, A), e: ReadEntry)
    requires k in rset
    ensures DataKeys(rset[k := e]) == DataKeys(rset)
  {
  }

  lemma {:induction false} DropData<A(!new)>(rset: Reads<A>, gone: set<(Table, A)>)
    ensures DataKeys(rset - gone) == DataKeys(rset) - gone
  {
  }

  lemma {:induction false} CountDrop<T>(all: set<T>, gone: set<T>)
    requires gone <= all
    ensures |all - gone| == |all| - |gone|
  {
    assert all == (all - gone) + gone;
  }

  class ReadSet<A(==, !new)> {
    const catalog: Table
    const rangePartitioned: bool
    var rset: Reads<A>
    var dataCnt: int

    ghost predicate Valid()
      reads this
    {
      IsMeta(catalog) && dataCnt == |DataKeys(rset)|
    }

    constructor (catalog: Table, rangePartitioned: bool)
      requires catalog.kind == Catalog
      ensures Valid() && rset == map[] && this.catalog == catalog && this.rangePartitioned == rangePartitioned
    {
      this.catalog, this.rangePartitioned := catalog, rangePartitioned;
      rset, dataCnt := map[], 0;
    }

    method AddRead(table: Table, addr: A, readTs: nat) returns (ok: bool)
      requires Valid()
      modifies this
      ensures Valid() && (ok <==> Repeatable(old(rset), (table, addr), readTs))
      ensures rset == AfterRead(old(rset), (table, addr), readTs)
    {
      var k := (table, addr);
      if k in rset {
        var e := rset[k];
        if e.versionTs < readTs && e.versionTs != 0 {
          return false;
        }
        if readTs > 0 {
          e := e.(versionTs := readTs);
        }
        e := e.(readCnt := (e.readCnt + 1) % UINT16);
        KeepData(rset, k, e);
        rset := rset[k := e];
      } else {
        PutData(rset, k, ReadEntry(readTs, 1));
        rset := rset[k := ReadEntry(readTs, 1)];
        if !IsMeta(table) {
          dataCnt := dataCnt + 1;
        }
      }
      return true;
    }

    /** Some table that holds an entry: the code takes the first of an unordered map. */
    method Holder(addr: A) returns (table: Option<Table>)
      ensures match table
              case None => forall t :: (t, addr) !in rset
              case Some(t) => (t, addr) in rset
    {
      var holders := set k | k in rset && k.1 == addr;
      if holders == {} {
        assert forall t :: (t, addr) in rset ==> (t, addr) in holders;
        return None;
      }
      var k :| k in holders;
      assert k == (k.0, addr);
      return Some(k.0);
    }

    /** Updates the timestamp in whichever table holds the entry. */
    method UpdateRead(addr: A, versionTs: nat)
      requires Valid()
      modifies this`rset
      ensures Valid()
      ensures (forall t :: (t, addr) !in old(rset)) ==> rset == old(rset)
      ensures (exists t :: (t, addr) in old(rset)) ==>
                exists t :: (t, addr) in old(rset) && rset == AfterUpdate(old(rset), (t, addr), versionTs)
    {
      var holder := Holder(addr);
      if holder.Some? {
        var k := (holder.value, addr);
        KeepData(rset, k, rset[k].(versionTs := versionTs));
        rset := rset[k := rset[k].(versionTs := versionTs)];
      }
    }

    method Erase(k: (Table, A))
      requires Valid() && k in rset
      modifies this
      ensures Valid() && rset == old(rset) - {k}
    {
      DropData(rset, {k});
      if !IsMeta(k.0) {
        assert k in DataKeys(rset);
        CountDrop(DataKeys(rset), {k});
        dataCnt := dataCnt - 1;
      } else {
        assert DataKeys(rset) - {k} == DataKeys(rset);
      }
      rset := rset - {k};
    }

    /** Removes the entry from the table that holds it and returns its version, or 0. */
    method DedupReadAnywhere(addr: A) returns (readTs: nat)
      requires Valid()
      modifies this
      ensures Valid()
      ensures (forall t :: (t, addr) !in old(rset)) ==> rset == old(rset) && readTs == 0
      ensures (exists t :: (t, addr) in old(rset)) ==>
                exists t :: && (t, addr) in old(rset) && rset == old(rset) - {(t, addr)}
                            && readTs == old(rset)[(t, addr)].versionTs
    {
      readTs := 0;
      var holder := Holder(addr);
      if holder.Some? {
        var k := (holder.value, addr);
        readTs := rset[k].versionTs;
        Erase(k);
      }
    }

    method DedupRead(table: Table, addr: A) returns (readTs: nat)
      requires Valid()
      modifies this
      ensures Valid() && rset == old(rset) - {(table, addr)}
      ensures readTs == if (table, addr) in old(rset) then old(rset)[(table, addr)].versionTs else 0
    {
      readTs := 0;
      if (table, addr) in rset {
        readTs := rset[(table, addr)].versionTs;
        Erase((table, addr));
      }
    }

    /** Gives back one read; `asserted` says whether the assertion on the count holds. */
    method RemoveReadEntry(table: Table, addr: A) returns (readCnt: nat, asserted: bool)
      requires Valid() && !IsMeta(table)
      modifies this
      ensures Valid() && rset == AfterRemove(old(rset), (table, addr))
      ensures var k := (table, addr);
              && readCnt == (if k in old(rset) then OneLess(old(rset)[k].readCnt) else 0)
              && (asserted <==> (k in old(rset) ==> old(rset)[k].readCnt > 0))
    {
      var k := (table, addr);
      if k !in rset {
        return 0, true;
      }
      asserted := rset[k].readCnt > 0;
      readCnt := OneLess(rset[k].readCnt);
      if readCnt == 0 {
        Erase(k);
      } else {
        KeepData(rset, k, rset[k].(readCnt := readCnt));
        rset := rset[k := rset[k].(readCnt := readCnt)];
      }
    }

    /** Drops all data entries, table by table; the counter must come out at zero. */
    method ClearReadSet()
      requires Valid()
      modifies this
      ensures Valid() && dataCnt == 0
      ensures rset == old(rset) - old(DataKeys(rset))
    {
      var tables := set k | k in rset :: k.0;
      while tables != {}
        invariant Valid()
        invariant forall k :: k in rset && !IsMeta(k.0) ==> k.0 in tables
        invariant rset == old(rset) - (old(DataKeys(rset)) - DataKeys(rset)) && DataKeys(rset) <= old(DataKeys(rset))
        decreases |tables|
      {
        var table :| table in tables;
        if !IsMeta(table) {
          var gone := set k | k in rset && k.0 == table;
          DropData(rset, gone);
          assert gone <= DataKeys(rset);
          CountDrop(DataKeys(rset), gone);
          dataCnt := dataCnt - |gone|;
          rset := rset - gone;
        }
        tables := tables - {table};
      }
      assert DataKeys(rset) == {};
      assert dataCnt == 0;
    }

    /**
     Drops a table's entries and, with range partitions, those of its range table. The
     counter stays right exactly if the table is not a meta table, or is the catalog, or
     had no entries.
     */
    method ClearTable(table: Table)
      requires Valid()
      modifies this
      ensures rset == old(rset) - old(TableKeys(rset, table))
                      - (if rangePartitioned then old(TableKeys(rset, Table(table.name, RangePartition))) else {})
      ensures Valid() <==> !IsMeta(table) || table == catalog || old(TableKeys(rset, table)) == {}
    {
      var gone := set k | k in rset && k.0 == table;
      ClearedCount(rset, table);
      if gone != {} {
        if table != catalog {
          dataCnt := dataCnt - |gone|;
        }
        rset := rset - gone;
      }
      if rangePartitioned {
        var range := Table(table.name, RangePartition);
        var also := set k | k in rset && k.0 == range;
        ClearedCount(rset, range);
        rset := rset - also;
      }
    }
  }

  lemma {:induction false} ClearedCount<A(!new)>(rset: Reads<A>, table: Table)
    ensures |DataKeys(rset - TableKeys(rset, table))|
         == |DataKeys(rset)| - if IsMeta(table) then 0 else |TableKeys(rset, table)|
    ensures TableKeys(rset, table) == {} ==> rset - TableKeys(rset, table) == rset
  {
    var data, gone := DataKeys(rset), TableKeys(rset, table);
    DropData(rset, gone);
    if IsMeta(table) {
      assert data - gone == data;
    } else {
      CountDrop(data, gone);
    }
  }
}
