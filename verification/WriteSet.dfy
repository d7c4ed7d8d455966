/**
 The write half of a transaction's `ReadWriteSet` (include/read_write_set.h): one entry
 per key into which successive writes collapse, the entry counter and the byte counter.

 `size_t` is an unbounded integer.
 */
module WriteSet {
  import opened Options

  const MAX_BYTES: nat := 62 * 1024 * 1024

  datatype Op = Insert | Update | Delete

  /** A write as issued: a deletion carries no record. */
  datatype Write<R> = Write(op: Op, rec: Option<R>)

  datatype Entry<R> = Entry(op: Op, rec: Option<R>)

  datatype Code = NoError | BytesExceeded | DuplicateKey

  // ---------------------------------------------------------------------------
  // Collapsing writes to one key
  // ---------------------------------------------------------------------------

  /** The combinations `ApplyToWSetEntry` does not rule out by assertion. */
  predicate Permitted(before: Op, op: Op)
  {
    !(before == Update && op == Insert) && !(before == Delete && op == Update)
  }

  /** The entry after one more write, or None for a duplicate key. */
  function Collapse<R>(e: Entry<R>, w: Write<R>, checkUnique: bool): Option<Entry<R>>
    requires Permitted(e.op, w.op)
  {
    match e.op
    case Insert =>
      (match w.op
       case Insert => if checkUnique then None else Some(Entry(Insert, w.rec))
       case Update => Some(Entry(Insert, w.rec))
       case Delete => Some(Entry(Delete, None)))
    case Update =>
      (match w.op
       case Update => Some(Entry(Update, w.rec))
       case Delete => Some(Entry(Delete, None)))
    case Delete =>
      (match w.op
       case Insert => Some(Entry(Update, w.rec))
       case Delete => Some(Entry(Delete, None)))
  }

  /** A row, or its absence. */
  type Row<R> = Option<R>

  /** What a write does to the row. */
  function Effect<R>(w: Write<R>): Row<R>
  {
    if w.op == Delete then None else w.rec
  }

  function RowAfter<R>(base: Row<R>, ws: seq<Write<R>>): Row<R>
  {
    if ws == [] then base else Effect(ws[|ws| - 1])
  }

  /** Rows are inserted where there are none and updated or deleted where there are. */
  predicate Legal<R>(base: Row<R>, ws: seq<Write<R>>)
  {
    ws != [] ==>
      && Legal(base, ws[..|ws| - 1])
      && (ws[|ws| - 1].op == Insert <==> RowAfter(base, ws[..|ws| - 1]).None?)
      && (ws[|ws| - 1].op != Delete ==> ws[|ws| - 1].rec.Some?)
  }

  predicate Deletes<R>(ws: seq<Write<R>>)
  {
    exists i :: 0 <= i < |ws| && ws[i].op == Delete
  }

  /** The entry a transaction's writes to a key collapse into; the first creates it. */
  function CollapseAll<R>(ws: seq<Write<R>>, checkUnique: bool): Option<Entry<R>>
  {
    if ws == [] then None
    else
      var w := ws[|ws| - 1];
      if |ws| == 1 then Some(Entry(w.op, w.rec))
      else
        match CollapseAll(ws[..|ws| - 1], checkUnique)
        case None => None
        case Some(e) => if Permitted(e.op, w.op) then Collapse(e, w, checkUnique) else None
  }

  /** The operation that installs the final row over the base row. */
  function Needed<R>(base: Row<R>, row: Row<R>): Op
  {
    if row.None? then Delete else if base.None? then Insert else Update
  }

  /**
   Legal writes are never refused nor ruled out, and leave an entry whose row is the one
   all the writes leave. Its operation is the one the base row calls for except exactly
   when a row that was not there was inserted, deleted and inserted again.
   */
  lemma {:induction false} CollapseKeepsRow<R>(base: Row<R>, ws: seq<Write<R>>, checkUnique: bool)
    requires Legal(base, ws) && ws != []
    ensures CollapseAll(ws, checkUnique).Some?
    ensures var e := CollapseAll(ws, checkUnique).value;
            && Effect(Write(e.op, e.rec)) == RowAfter(base, ws)
            && (e.op == Delete <==> RowAfter(base, ws).None?)
            && (e.op == Needed(base, RowAfter(base, ws)) <==> base.Some? || !Deletes(ws) || RowAfter(base, ws).None?)
            && (e.op == Insert ==> base.None? && !Deletes(ws))
  {
    var init, w := ws[..|ws| - 1], ws[|ws| - 1];
    assert Deletes(ws) <==> Deletes(init) || w.op == Delete by {
      assert forall i :: 0 <= i < |init| ==> init[i] == ws[i];
    }
    if |ws| == 1 {
      assert !Deletes(init) && RowAfter(base, init) == base;
    } else {
      CollapseKeepsRow(base, init, checkUnique);
    }
  }

  /** The exception: the entry would update a row that is not there. */
  lemma {:induction false} InsertDeleteInsert<R>(first: R, second: R, checkUnique: bool)
    ensures var ws := [Write(Insert, Some(first)), Write(Delete, None), Write(Insert, Some(second))];
            && Legal(None, ws) && Needed(None, RowAfter(None, ws)) == Insert
            && CollapseAll(ws, checkUnique) == Some(Entry(Update, Some(second)))
  {
    var ws := [Write(Insert, Some(first)), Write(Delete, None), Write(Insert, Some(second))];
    var two, one := ws[..2], ws[..1];
    assert two[..|two| - 1] == one && one[..|one| - 1] == [];
    assert RowAfter<R>(None, one[..|one| - 1]) == None;
    assert Legal(None, one) && Legal(None, two);
    assert CollapseAll(one, checkUnique) == Some(Entry(Insert, Some(first)));
    assert CollapseAll(two, checkUnique) == Some(Entry(Delete, None));
  }

  /** The operation an entry has after the writes to its key. */
  function OpOf<R>(ws: seq<Write<R>>): Op
    requires ws != []
  {
    if ws[|ws| - 1].op == Delete then Delete else if ws[0].op == Insert && !Deletes(ws) then Insert else Update
  }

  /** Whether an entry still holds a record after the writes to its key. */
  predicate HoldsRecord<R>(ws: seq<Write<R>>)
    requires ws != []
  {
    var last := ws[|ws| - 1];
    last.rec.Some? && (last.op != Delete || |ws| == 1)
  }

  /** A duplicate key: an unbroken insertion is inserted again, and uniqueness is to be checked. */
  predicate Refused<R>(ws: seq<Write<R>>, w: Write<R>, checkUnique: bool)
  {
    checkUnique && w.op == Insert && ws != [] && OpOf(ws) == Insert
  }

  /** The entry accepted writes leave, without going through them. */
  function EntryOf<R>(ws: seq<Write<R>>): Entry<R>
    requires ws != []
  {
    Entry(OpOf(ws), if HoldsRecord(ws) then ws[|ws| - 1].rec else None)
  }

  lemma {:induction false} OneMoreWrite<R>(ws: seq<Write<R>>, w: Write<R>, checkUnique: bool)
    requires ws != [] && Permitted(OpOf(ws), w.op)
    ensures Collapse(EntryOf(ws), w, checkUnique)
         == if Refused(ws, w, checkUnique) then None else Some(EntryOf(ws + [w]))
  {
    var all := ws + [w];
    assert all[0] == ws[0] && all[|all| - 1] == w;
    assert Deletes(all) <==> Deletes(ws) || w.op == Delete by {
      assert forall i :: 0 <= i < |ws| ==> ws[i] == all[i];
    }
    if ws[|ws| - 1].op == Delete {
      assert Deletes(ws);
    }
  }

  /** Whatever writes are accepted collapse into that entry. */
  lemma {:induction false} CollapsedEntry<R>(ws: seq<Write<R>>, checkUnique: bool)
    requires CollapseAll(ws, checkUnique).Some?
    ensures ws != [] && CollapseAll(ws, checkUnique) == Some(EntryOf(ws))
  {
    if |ws| > 1 {
      var init, w := ws[..|ws| - 1], ws[|ws| - 1];
      CollapsedEntry(init, checkUnique);
      OneMoreWrite(init, w, checkUnique);
      assert init + [w] == ws;
    } else {
      assert ws != [] && (Deletes(ws) <==> ws[0].op == Delete);
    }
  }

  // ---------------------------------------------------------------------------
  // Bytes held
  // ---------------------------------------------------------------------------

  datatype Lengths<!K, !R> = Lengths(keyLen: K -> nat, recLen: R -> nat)

  type Writes<!T(==), !K(==), R> = map<(T, K), Entry<R>>

  function RecBytes<K, R>(len: Lengths<K, R>, rec: Option<R>): nat
  {
    if rec.Some? then len.recLen(rec.value) else 0
  }

  function Bytes<T, K, R>(len: Lengths<K, R>, k: (T, K), e: Entry<R>): nat
  {
    len.keyLen(k.1) + RecBytes(len, e.rec)
  }

  ghost function Any<T, K, R>(m: Writes<T, K, R>): (k: (T, K))
    requires m != map[]
    ensures k in m
  {
    var k :| k in m; k
  }

  /** The bytes of all keys and records in the write set. */
  ghost function Held<T, K, R>(len: Lengths<K, R>, m: Writes<T, K, R>): nat
    decreases |m|
  {
    if m == map[] then 0 else var k := Any(m); Bytes(len, k, m[k]) + Held(len, Without(m, k))
  }

  ghost function Without<T, K, R>(m: Writes<T, K, R>, k: (T, K)): (r: Writes<T, K, R>)
    requires k in m
    ensures |r| == |m| - 1 && r.Keys == m.Keys - {k}
  {
    assert m.Keys == (m - {k}).Keys + {k};
    m - {k}
  }

  lemma {:induction false} HeldRemove<T(!new), K(!new), R(!new)>(len: Lengths<K, R>, m: Writes<T, K, R>, k: (T, K))
    requires k in m
    ensures Held(len, m) == Bytes(len, k, m[k]) + Held(len, Without(m, k))
    decreases |m|
  {
    var c := Any(m);
    if c != k {
      HeldRemove(len, Without(m, c), k);
      HeldRemove(len, Without(m, k), c);
      assert Without(Without(m, c), k) == Without(Without(m, k), c);
    }
  }

  lemma {:induction false} HeldPut<T(!new), K(!new), R(!new)>(
    len: Lengths<K, R>, m: Writes<T, K, R>, k: (T, K), e: Entry<R>)
    ensures Held(len, m[k := e]) == Held(len, m) + Bytes(len, k, e) - if k in m then Bytes(len, k, m[k]) else 0
    ensures |m[k := e]| == |m| + if k in m then 0 else 1
  {
    HeldRemove(len, m[k := e], k);
    if k in m {
      HeldRemove(len, m, k);
      assert Without(m[k := e], k) == Without(m, k);
    } else {
      assert Without(m[k := e], k) == m;
    }
  }

  /** The entry a key has after a write, or None for a duplicate key. */
  function Written<T, K, R>(m: Writes<T, K, R>, k: (T, K), w: Write<R>, checkUnique: bool): Option<Entry<R>>
    requires k in m ==> Permitted(m[k].op, w.op)
  {
    if k in m then Collapse(m[k], w, checkUnique) else Some(Entry(w.op, w.rec))
  }

  /** A collapsed entry holds no more than the last write brought. */
  lemma {:induction false} CollapsedBytes<K, R>(len: Lengths<K, R>, e: Entry<R>, w: Write<R>, checkUnique: bool)
    requires Permitted(e.op, w.op) && Collapse(e, w, checkUnique).Some?
    ensures RecBytes(len, Collapse(e, w, checkUnique).value.rec) <= RecBytes(len, w.rec)
  {
  }

  // ---------------------------------------------------------------------------
  // What each call does
  // ---------------------------------------------------------------------------

  datatype State<!T(==), !K(==), R> = State(wset: Writes<T, K, R>, cnt: int, bytes: int)

  function Brought<K, R>(len: Lengths<K, R>, key: K, w: Write<R>): nat
  {
    len.keyLen(key) + RecBytes(len, w.rec)
  }

  /** The write set after a write that fits and is not ruled out by assertion. */
  function Stored<T, K, R>(s: State<T, K, R>, k: (T, K), w: Write<R>, checkUnique: bool, bytes: int): State<T, K, R>
    requires k in s.wset ==> Permitted(s.wset[k].op, w.op)
  {
    match Written(s.wset, k, w, checkUnique)
    case None => s.(bytes := bytes)
    case Some(e) => State(s.wset[k := e], s.cnt + (if k in s.wset then 0 else 1), bytes)
  }

  function OtherTables<T, K, R>(m: Writes<T, K, R>, table: T): Writes<T, K, R>
  {
    map k | k in m && k.0 != table :: m[k]
  }

  /** None stands for a failing assertion. */
  function AddStep<T, K, R>(s: State<T, K, R>, k: (T, K), w: Write<R>, checkUnique: bool, bytes: int)
    : Option<State<T, K, R>>
  {
    if bytes > MAX_BYTES then Some(s.(bytes := bytes))
    else if k in s.wset && !Permitted(s.wset[k].op, w.op) then None
    else Some(Stored(s, k, w, checkUnique, bytes))
  }

  /** None stands for reading the record of an entry that has none, which the code does without looking. */
  function RevertStep<T, K, R>(len: Lengths<K, R>, s: State<T, K, R>, k: (T, K)): Option<State<T, K, R>>
  {
    if k !in s.wset || s.wset[k].rec.None? then None
    else Some(State(s.wset - {k}, s.cnt - 1, s.bytes - Bytes(len, k, s.wset[k])))
  }

  ghost function ClearStep<T, K, R>(len: Lengths<K, R>, s: State<T, K, R>, table: T): State<T, K, R>
  {
    var rest := OtherTables(s.wset, table);
    State(rest, s.cnt - (|s.wset| - |rest|), s.bytes - (Held(len, s.wset) - Held(len, rest)))
  }

  /** The entry counter is exact, and the byte counter never below what is held. */
  ghost predicate Sound<T, K, R>(len: Lengths<K, R>, s: State<T, K, R>)
  {
    s.cnt == |s.wset| && Held(len, s.wset) <= s.bytes && Held(len, s.wset) <= MAX_BYTES
  }

  class WriteSet<T(==, !new), K(==, !new), R(!new)> {
    const len: Lengths<K, R>
    var wset: Writes<T, K, R>
    var wsetCnt: int
    var bytesCnt: int

    function View(): State<T, K, R>
      reads this
    {
      State(wset, wsetCnt, bytesCnt)
    }

    ghost predicate Valid()
      reads this
    {
      Sound(len, View())
    }

    constructor (len: Lengths<K, R>)
      ensures Valid() && this.len == len && View() == State(map[], 0, 0)
    {
      this.len := len;
      wset, wsetCnt, bytesCnt := map[], 0, 0;
    }

    /** The bytes of a write count even if it is refused or replaces an earlier record. */
    method AddWrite(table: T, key: K, w: Write<R>, checkUnique: bool) returns (code: Code)
      requires Valid()
      requires bytesCnt + Brought(len, key, w) <= MAX_BYTES && (table, key) in wset ==>
                 Permitted(wset[(table, key)].op, w.op)
      modifies this
      ensures Valid() && Some(View()) == AddStep(old(View()), (table, key), w, checkUnique, bytesCnt)
      ensures bytesCnt == old(bytesCnt) + Brought(len, key, w)
      ensures code == BytesExceeded <==> bytesCnt > MAX_BYTES
      ensures code == DuplicateKey <==> bytesCnt <= MAX_BYTES && Written(old(wset), (table, key), w, checkUnique).None?
      ensures code != NoError ==> wset == old(wset)
    {
      var k := (table, key);
      bytesCnt := bytesCnt + len.keyLen(key) + RecBytes(len, w.rec);
      if bytesCnt > MAX_BYTES {
        return BytesExceeded;
      }
      if k !in wset {
        Install(k, Entry(w.op, w.rec));
        wsetCnt := wsetCnt + 1;
        return NoError;
      }
      var e := Collapse(wset[k], w, checkUnique);
      if e.None? {
        return DuplicateKey;
      }
      CollapsedBytes(len, wset[k], w, checkUnique);
      Install(k, e.value);
      return NoError;
    }

    method Install(k: (T, K), e: Entry<R>)
      modifies this`wset
      ensures wset == old(wset)[k := e] && |wset| == old(|wset|) + if k in old(wset) then 0 else 1
      ensures Held(len, wset) <= old(Held(len, wset)) + Bytes(len, k, e)
    {
      HeldPut(len, wset, k, e);
      wset := wset[k := e];
    }

    /** The write must be there; `ok` says whether it holds the record whose bytes are asked for. */
    method DeleteWrite(table: T, key: K) returns (ok: bool)
      requires Valid() && (table, key) in wset
      modifies this
      ensures Valid() && (ok <==> old(wset)[(table, key)].rec.Some?)
      ensures RevertStep(len, old(View()), (table, key)) == if ok then Some(View()) else None
    {
      var rec := wset[(table, key)].rec;
      if rec.None? {
        return false;
      }
      HeldRemove(len, wset, (table, key));
      bytesCnt := bytesCnt - (len.keyLen(key) + len.recLen(rec.value));
      assert Without(wset, (table, key)) == wset - {(table, key)};
      wset := wset - {(table, key)};
      wsetCnt := wsetCnt - 1;
      return true;
    }

    method ClearWriteSet()
      modifies this
      ensures Valid() && View() == State(map[], 0, 0)
    {
      wset, wsetCnt, bytesCnt := map[], 0, 0;
    }

    /** Drops an entry and its bytes; the entry counter is the caller's. */
    method DropEntry(k: (T, K))
      requires k in wset
      modifies this`wset, this`bytesCnt
      ensures wset == old(wset) - {k} && |wset| == old(|wset|) - 1
      ensures bytesCnt - Held(len, wset) == old(bytesCnt - Held(len, wset)) && Held(len, wset) <= old(Held(len, wset))
    {
      HeldRemove(len, wset, k);
      bytesCnt := bytesCnt - Bytes(len, k, wset[k]);
      assert Without(wset, k) == wset - {k};
      wset := wset - {k};
    }

    /** Drops a table's writes; the slack of the byte counter over what is held stays. */
    method ClearTable(table: T)
      requires Valid()
      modifies this
      ensures Valid() && View() == ClearStep(len, old(View()), table)
      ensures bytesCnt - Held(len, wset) == old(bytesCnt - Held(len, wset))
    {
      var keys := set k | k in wset && k.0 == table;
      wsetCnt := wsetCnt - |keys|;
      DropEntries(table, keys);
    }

    /** Drops a table's entries one after the other; the entry counter is the caller's. */
    method DropEntries(table: T, all: set<(T, K)>)
      requires all == set k | k in wset && k.0 == table
      modifies this`wset, this`bytesCnt
      ensures wset == OtherTables(old(wset), table) && |wset| == old(|wset|) - |all|
      ensures bytesCnt - Held(len, wset) == old(bytesCnt - Held(len, wset)) && Held(len, wset) <= old(Held(len, wset))
    {
      var keys := all;
      while keys != {}
        invariant forall k :: k in keys ==> k in wset && k.0 == table
        invariant forall k :: k in wset <==> k in old(wset) && (k.0 != table || k in keys)
        invariant forall k :: k in wset ==> wset[k] == old(wset)[k]
        invariant |wset| - |keys| == old(|wset|) - |all|
        invariant bytesCnt - Held(len, wset) == old(bytesCnt - Held(len, wset))
        invariant Held(len, wset) <= old(Held(len, wset))
        decreases |keys|
      {
        var k :| k in keys;
        DropEntry(k);
        keys := keys - {k};
      }
    }
  }

}
