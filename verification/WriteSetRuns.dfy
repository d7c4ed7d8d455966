/**
 Every run of calls on the write set of a transaction: its counters, and which calls are
 defined, in terms of the writes accepted before.
 */
module WriteSetRuns {
  import opened Options
  import opened WriteSet

  datatype Event<T, K, R> =
    | Add(table: T, key: K, w: Write<R>, checkUnique: bool)
    | Revert(table: T, key: K)               // DeleteWrite
    | Clear(table: T)
    | ClearAll

  /**
   One call. None stands for a failing assertion, and for reading the record of an entry
   that has none, which `DeleteWrite` does without looking.
   */
  ghost function Next<T, K, R>(len: Lengths<K, R>, s: State<T, K, R>, e: Event<T, K, R>): Option<State<T, K, R>>
  {
    match e
    case Add(table, key, w, checkUnique) => AddStep(s, (table, key), w, checkUnique, s.bytes + Brought(len, key, w))
    case Revert(table, key) => RevertStep(len, s, (table, key))
    case Clear(table) => Some(ClearStep(len, s, table))
    case ClearAll => Some(State(map[], 0, 0))
  }

  ghost function Run<T, K, R>(len: Lengths<K, R>, es: seq<Event<T, K, R>>): Option<State<T, K, R>>
  {
    if es == [] then Some(State(map[], 0, 0))
    else
      match Run(len, es[..|es| - 1])
      case None => None
      case Some(s) => Next(len, s, es[|es| - 1])
  }

  // ---------------------------------------------------------------------------
  // Every run keeps the counters
  // ---------------------------------------------------------------------------

  lemma {:induction false} HeldPart<T(!new), K(!new), R(!new)>(
    len: Lengths<K, R>, part: Writes<T, K, R>, m: Writes<T, K, R>)
    requires part.Keys <= m.Keys && forall k :: k in part ==> part[k] == m[k]
    ensures Held(len, part) <= Held(len, m)
    decreases |part|
  {
    if part != map[] {
      var k := Any(part);
      HeldRemove(len, m, k);
      HeldPart(len, Without(part, k), Without(m, k));
    }
  }

  lemma {:induction false} StoredKeepsSound<T(!new), K(!new), R(!new)>(
    len: Lengths<K, R>, s: State<T, K, R>, k: (T, K), w: Write<R>, checkUnique: bool)
    requires Sound(len, s) && (k in s.wset ==> Permitted(s.wset[k].op, w.op))
    requires s.bytes + Brought(len, k.1, w) <= MAX_BYTES
    ensures Sound(len, Stored(s, k, w, checkUnique, s.bytes + Brought(len, k.1, w)))
  {
    var e := Written(s.wset, k, w, checkUnique);
    if e.Some? {
      HeldPut(len, s.wset, k, e.value);
      if k in s.wset { CollapsedBytes(len, s.wset[k], w, checkUnique); }
    }
  }

  /** What a call leaves, if it is defined. */
  ghost predicate SoundIfDefined<T, K, R>(len: Lengths<K, R>, s: Option<State<T, K, R>>)
  {
    s.Some? ==> Sound(len, s.value)
  }

  lemma {:induction false} AddKeepsSound<T(!new), K(!new), R(!new)>(
    len: Lengths<K, R>, s: State<T, K, R>, k: (T, K), w: Write<R>, checkUnique: bool)
    requires Sound(len, s)
    ensures SoundIfDefined(len, AddStep(s, k, w, checkUnique, s.bytes + Brought(len, k.1, w)))
  {
    if s.bytes + Brought(len, k.1, w) <= MAX_BYTES && (k in s.wset ==> Permitted(s.wset[k].op, w.op)) {
      StoredKeepsSound(len, s, k, w, checkUnique);
    }
  }

  lemma {:induction false} RevertKeepsSound<T(!new), K(!new), R(!new)>(
    len: Lengths<K, R>, s: State<T, K, R>, k: (T, K))
    requires Sound(len, s)
    ensures SoundIfDefined(len, RevertStep(len, s, k))
  {
    if k in s.wset {
      HeldRemove(len, s.wset, k);
      assert Without(s.wset, k) == s.wset - {k};
    }
  }

  lemma {:induction false} ClearKeepsSound<T(!new), K(!new), R(!new)>(
    len: Lengths<K, R>, s: State<T, K, R>, table: T)
    requires Sound(len, s)
    ensures Sound(len, ClearStep(len, s, table))
  {
    HeldPart(len, OtherTables(s.wset, table), s.wset);
  }

  lemma {:induction false} NextKeepsSound<T(!new), K(!new), R(!new)>(
    len: Lengths<K, R>, s: State<T, K, R>, e: Event<T, K, R>)
    requires Sound(len, s)
    ensures SoundIfDefined(len, Next(len, s, e))
  {
    match e
    case Add(table, key, w, checkUnique) => AddKeepsSound(len, s, (table, key), w, checkUnique);
    case Revert(table, key) => RevertKeepsSound(len, s, (table, key));
    case Clear(table) => ClearKeepsSound(len, s, table);
    case ClearAll => NothingHeld<T, K, R>(len);
  }

  lemma {:induction false} NothingHeld<T(!new), K(!new), R(!new)>(len: Lengths<K, R>)
    ensures Sound<T, K, R>(len, State(map[], 0, 0))
  {
  }

  // ---------------------------------------------------------------------------
  // The log of accepted writes
  // ---------------------------------------------------------------------------

  type Accepted<!T(==), !K(==), R> = map<(T, K), seq<Write<R>>>

  /** The writes accepted for each key since its entry was made, and the byte counter. */
  datatype Log<!T(==), !K(==), R> = Log(writes: Accepted<T, K, R>, bytes: int)

  ghost predicate NoneEmpty<T, K, R>(writes: Accepted<T, K, R>)
  {
    forall k :: k in writes ==> writes[k] != []
  }

  function WritesTo<T, K, R>(h: Log<T, K, R>, k: (T, K)): seq<Write<R>>
  {
    if k in h.writes then h.writes[k] else []
  }

  ghost function Entries<T, K, R>(writes: Accepted<T, K, R>): Writes<T, K, R>
    requires NoneEmpty(writes)
  {
    map k | k in writes :: EntryOf(writes[k])
  }

  /** The write set that holds the log's writes, collapsed. */
  ghost function Collapsed<T, K, R>(h: Log<T, K, R>): State<T, K, R>
    requires NoneEmpty(h.writes)
  {
    State(Entries(h.writes), |h.writes|, h.bytes)
  }

  function Elsewhere<T, K, R>(writes: Accepted<T, K, R>, table: T): Accepted<T, K, R>
  {
    map k | k in writes && k.0 != table :: writes[k]
  }

  function LogAdd<T, K, R>(h: Log<T, K, R>, k: (T, K), w: Write<R>, checkUnique: bool, bytes: int): Log<T, K, R>
  {
    var ws := WritesTo(h, k);
    if bytes > MAX_BYTES || Refused(ws, w, checkUnique) then h.(bytes := bytes)
    else Log(h.writes[k := ws + [w]], bytes)
  }

  ghost function LogRevert<T, K, R>(len: Lengths<K, R>, h: Log<T, K, R>, k: (T, K)): Log<T, K, R>
    requires NoneEmpty(h.writes)
  {
    if k in h.writes then Log(h.writes - {k}, h.bytes - Bytes(len, k, EntryOf(h.writes[k]))) else h
  }

  ghost function LogClear<T, K, R>(len: Lengths<K, R>, h: Log<T, K, R>, table: T): Log<T, K, R>
    requires NoneEmpty(h.writes)
  {
    var rest := Elsewhere(h.writes, table);
    Log(rest, h.bytes - (Held(len, Entries(h.writes)) - Held(len, Entries(rest))))
  }

  /** What a call does to the log. */
  ghost function LogNext<T, K, R>(len: Lengths<K, R>, h: Log<T, K, R>, e: Event<T, K, R>): (h': Log<T, K, R>)
    requires NoneEmpty(h.writes)
    ensures NoneEmpty(h'.writes)
  {
    match e
    case Add(table, key, w, checkUnique) => LogAdd(h, (table, key), w, checkUnique, h.bytes + Brought(len, key, w))
    case Revert(table, key) => LogRevert(len, h, (table, key))
    case Clear(table) => LogClear(len, h, table)
    case ClearAll => Log(map[], 0)
  }

  ghost function LogRun<T, K, R>(len: Lengths<K, R>, es: seq<Event<T, K, R>>): (h: Log<T, K, R>)
    ensures NoneEmpty(h.writes)
  {
    if es == [] then Log(map[], 0) else LogNext(len, LogRun(len, es[..|es| - 1]), es[|es| - 1])
  }

  ghost predicate AddDefined<T, K, R>(h: Log<T, K, R>, k: (T, K), w: Write<R>, bytes: int)
  {
    bytes > MAX_BYTES || WritesTo(h, k) == [] || Permitted(OpOf(WritesTo(h, k)), w.op)
  }

  ghost predicate RevertDefined<T, K, R>(h: Log<T, K, R>, k: (T, K))
    requires NoneEmpty(h.writes)
  {
    k in h.writes && HoldsRecord(h.writes[k])
  }

  /** The condition on a call, in terms of the writes accepted so far. */
  ghost predicate Defined<T, K, R>(len: Lengths<K, R>, h: Log<T, K, R>, e: Event<T, K, R>)
    requires NoneEmpty(h.writes)
  {
    match e
    case Add(table, key, w, _) => AddDefined(h, (table, key), w, h.bytes + Brought(len, key, w))
    case Revert(table, key) => RevertDefined(h, (table, key))
    case Clear(_) => true
    case ClearAll => true
  }

  ghost predicate AllDefined<T, K, R>(len: Lengths<K, R>, es: seq<Event<T, K, R>>)
  {
    es != [] ==> AllDefined(len, es[..|es| - 1]) && Defined(len, LogRun(len, es[..|es| - 1]), es[|es| - 1])
  }

  // ---------------------------------------------------------------------------
  // Entries are accepted writes, collapsed
  // ---------------------------------------------------------------------------

  lemma {:induction false} EntriesPut<T(!new), K(!new), R(!new)>(
    writes: Accepted<T, K, R>, k: (T, K), ws: seq<Write<R>>)
    requires NoneEmpty(writes) && ws != []
    ensures Entries(writes[k := ws]) == Entries(writes)[k := EntryOf(ws)]
    ensures |writes[k := ws]| == |writes| + if k in writes then 0 else 1
  {
    assert writes[k := ws].Keys == writes.Keys + {k};
  }

  lemma {:induction false} EntriesDrop<T(!new), K(!new), R(!new)>(writes: Accepted<T, K, R>, k: (T, K))
    requires NoneEmpty(writes) && k in writes
    ensures Entries(writes - {k}) == Entries(writes) - {k} && |writes - {k}| == |writes| - 1
  {
    assert writes.Keys == (writes - {k}).Keys + {k};
  }

  lemma {:induction false} EntriesElsewhere<T(!new), K(!new), R(!new)>(writes: Accepted<T, K, R>, table: T)
    requires NoneEmpty(writes)
    ensures Entries(Elsewhere(writes, table)) == OtherTables(Entries(writes), table)
  {
  }

  lemma {:induction false} SameSize<T(!new), K(!new), R(!new)>(writes: Accepted<T, K, R>)
    requires NoneEmpty(writes)
    ensures |Entries(writes)| == |writes|
  {
    assert Entries(writes).Keys == writes.Keys;
  }

  lemma {:induction false} FirstWrite<R>(w: Write<R>)
    ensures EntryOf([w]) == Entry(w.op, w.rec)
  {
    assert Deletes([w]) <==> [w][0].op == Delete;
  }

  lemma {:induction false} AddMatches<T(!new), K(!new), R(!new)>(
    h: Log<T, K, R>, k: (T, K), w: Write<R>, checkUnique: bool, bytes: int)
    requires NoneEmpty(h.writes)
    ensures AddStep(Collapsed(h), k, w, checkUnique, bytes)
         == if AddDefined(h, k, w, bytes) then Some(Collapsed(LogAdd(h, k, w, checkUnique, bytes))) else None
  {
    if bytes <= MAX_BYTES && AddDefined(h, k, w, bytes) {
      var ws := WritesTo(h, k);
      EntriesPut(h.writes, k, ws + [w]);
      if ws != [] {
        OneMoreWrite(ws, w, checkUnique);
      } else {
        FirstWrite(w);
        assert ws + [w] == [w];
      }
    }
  }

  lemma {:induction false} RevertMatches<T(!new), K(!new), R(!new)>(len: Lengths<K, R>, h: Log<T, K, R>, k: (T, K))
    requires NoneEmpty(h.writes)
    ensures RevertStep(len, Collapsed(h), k)
         == if RevertDefined(h, k) then Some(Collapsed(LogRevert(len, h, k))) else None
  {
    if k in h.writes { EntriesDrop(h.writes, k); }
  }

  lemma {:induction false} ClearMatches<T(!new), K(!new), R(!new)>(len: Lengths<K, R>, h: Log<T, K, R>, table: T)
    requires NoneEmpty(h.writes)
    ensures ClearStep(len, Collapsed(h), table) == Collapsed(LogClear(len, h, table))
  {
    EntriesElsewhere(h.writes, table);
    SameSize(h.writes);
    SameSize(Elsewhere(h.writes, table));
  }

  lemma {:induction false} NextMatches<T(!new), K(!new), R(!new)>(
    len: Lengths<K, R>, h: Log<T, K, R>, e: Event<T, K, R>)
    requires NoneEmpty(h.writes)
    ensures Next(len, Collapsed(h), e) == if Defined(len, h, e) then Some(Collapsed(LogNext(len, h, e))) else None
  {
    match e
    case Add(table, key, w, checkUnique) =>
      AddMatches(h, (table, key), w, checkUnique, h.bytes + Brought(len, key, w));
    case Revert(table, key) => RevertMatches(len, h, (table, key));
    case Clear(table) => ClearMatches(len, h, table);
    case ClearAll => assert Entries<T, K, R>(map[]) == map[];
  }

  /**
   In every run of calls, whatever they are: no assertion fails and no missing record is read
   exactly if every call met its condition on the writes accepted before it, and then the
   entries are those writes collapsed, the entry counter is exact, the byte counter is never
   below the bytes held and these never exceed the limit.
   */
  lemma {:induction false} RunsCollapseWrites<T(!new), K(!new), R(!new)>(len: Lengths<K, R>, es: seq<Event<T, K, R>>)
    ensures Run(len, es) == if AllDefined(len, es) then Some(Collapsed(LogRun(len, es))) else None
    ensures AllDefined(len, es) ==> Sound(len, Collapsed(LogRun(len, es)))
  {
    if es == [] {
      assert Entries<T, K, R>(map[]) == map[];
    } else {
      RunsCollapseWrites(len, es[..|es| - 1]);
      RunContinues(len, es[..|es| - 1], es[|es| - 1]);
      assert es[..|es| - 1] + [es[|es| - 1]] == es;
    }
  }

  lemma {:induction false} RunContinues<T(!new), K(!new), R(!new)>(
    len: Lengths<K, R>, es: seq<Event<T, K, R>>, e: Event<T, K, R>)
    requires Run(len, es) == if AllDefined(len, es) then Some(Collapsed(LogRun(len, es))) else None
    requires AllDefined(len, es) ==> Sound(len, Collapsed(LogRun(len, es)))
    ensures var es' := es + [e];
            && Run(len, es') == (if AllDefined(len, es') then Some(Collapsed(LogRun(len, es'))) else None)
            && (AllDefined(len, es') ==> Sound(len, Collapsed(LogRun(len, es'))))
  {
    assert (es + [e])[..|es|] == es;
    var h := LogRun(len, es);
    NextMatches(len, h, e);
    if AllDefined(len, es) { NextKeepsSound(len, Collapsed(h), e); }
  }

  // ---------------------------------------------------------------------------
  // Reverting writes
  // ---------------------------------------------------------------------------

  /** Writes as a transaction over the base rows issues them: legal, and deletions without a record. */
  ghost predicate LegalWrites<R>(base: Row<R>, ws: seq<Write<R>>)
  {
    Legal(base, ws) && forall i :: 0 <= i < |ws| && ws[i].op == Delete ==> ws[i].rec.None?
  }

  ghost predicate LegalCall<T, K, R>(base: ((T, K)) -> Row<R>, h: Log<T, K, R>, e: Event<T, K, R>)
  {
    match e
    case Add(table, key, w, _) => LegalWrites(base((table, key)), WritesTo(h, (table, key)) + [w])
    case Revert(table, key) => (table, key) in h.writes
    case Clear(_) => true
    case ClearAll => true
  }

  ghost predicate LegalCalls<T, K, R>(len: Lengths<K, R>, base: ((T, K)) -> Row<R>, es: seq<Event<T, K, R>>)
  {
    es != [] ==> LegalCalls(len, base, es[..|es| - 1]) && LegalCall(base, LogRun(len, es[..|es| - 1]), es[|es| - 1])
  }

  /** A call that reverts a key whose last accepted write was a deletion. */
  ghost predicate RevertsDeletion<T, K, R>(h: Log<T, K, R>, e: Event<T, K, R>)
    requires NoneEmpty(h.writes)
  {
    e.Revert? && (e.table, e.key) in h.writes &&
    var ws := h.writes[(e.table, e.key)]; ws[|ws| - 1].op == Delete
  }

  ghost predicate NoDeletionReverted<T, K, R>(len: Lengths<K, R>, es: seq<Event<T, K, R>>)
  {
    es != [] ==>
      NoDeletionReverted(len, es[..|es| - 1]) && !RevertsDeletion(LogRun(len, es[..|es| - 1]), es[|es| - 1])
  }

  ghost predicate LegalLog<T(!new), K(!new), R>(base: ((T, K)) -> Row<R>, h: Log<T, K, R>)
  {
    forall k :: k in h.writes ==> LegalWrites(base(k), h.writes[k])
  }

  lemma {:induction false} LegalWritesSplit<R>(base: Row<R>, ws: seq<Write<R>>, w: Write<R>)
    requires LegalWrites(base, ws + [w])
    ensures LegalWrites(base, ws)
    ensures w.op != Delete ==> w.rec.Some?
    ensures ws != [] ==> Permitted(OpOf(ws), w.op)
    ensures w.op == Insert <==> RowAfter(base, ws).None?
  {
    assert (ws + [w])[..|ws + [w]| - 1] == ws;
    forall i | 0 <= i < |ws| && ws[i].op == Delete ensures ws[i].rec.None? {
      assert (ws + [w])[i] == ws[i];
    }
  }

  lemma {:induction false} LegalRecord<R>(base: Row<R>, ws: seq<Write<R>>)
    requires LegalWrites(base, ws) && ws != []
    ensures HoldsRecord(ws) <==> ws[|ws| - 1].op != Delete
  {
  }

  lemma {:induction false} LegalLogNext<T(!new), K(!new), R(!new)>(
    len: Lengths<K, R>, base: ((T, K)) -> Row<R>, h: Log<T, K, R>, e: Event<T, K, R>)
    requires NoneEmpty(h.writes) && LegalLog(base, h) && LegalCall(base, h, e)
    ensures LegalLog(base, LogNext(len, h, e))
    ensures Defined(len, h, e) <==> !RevertsDeletion(h, e)
  {
    match e
    case Add(table, key, w, _) => LegalWritesSplit(base((table, key)), WritesTo(h, (table, key)), w);
    case Revert(table, key) => LegalRecord(base((table, key)), h.writes[(table, key)]);
    case _ =>
  }

  lemma {:induction false} LegalRun<T(!new), K(!new), R(!new)>(
    len: Lengths<K, R>, base: ((T, K)) -> Row<R>, es: seq<Event<T, K, R>>)
    requires LegalCalls(len, base, es)
    ensures LegalLog(base, LogRun(len, es)) && (AllDefined(len, es) <==> NoDeletionReverted(len, es))
  {
    if es != [] {
      LegalRun(len, base, es[..|es| - 1]);
      LegalLogNext(len, base, LogRun(len, es[..|es| - 1]), es[|es| - 1]);
    }
  }

  /**
   In every run of legal calls, which revert only keys that have a write: nothing undefined
   happens exactly if no key is reverted whose last accepted write was a deletion.
   */
  lemma {:induction false} RevertDefinedExactly<T(!new), K(!new), R(!new)>(
    len: Lengths<K, R>, base: ((T, K)) -> Row<R>, es: seq<Event<T, K, R>>)
    requires LegalCalls(len, base, es)
    ensures Run(len, es).Some? <==> NoDeletionReverted(len, es)
  {
    RunsCollapseWrites(len, es);
    LegalRun(len, base, es);
  }

  /** Deleting a row and reverting that reads a record that is not there. */
  lemma {:induction false} RevertOfDeletionFails<T(!new), K(!new), R(!new)>(
    len: Lengths<K, R>, base: ((T, K)) -> Row<R>, table: T, key: K) returns (es: seq<Event<T, K, R>>)
    requires base((table, key)).Some? && len.keyLen(key) <= MAX_BYTES
    ensures LegalCalls(len, base, es) && Run(len, es) == None
    ensures es == [Add(table, key, Write(Delete, None), false), Revert(table, key)]
  {
    var w := Write(Delete, None);
    var add: Event<T, K, R> := Add(table, key, w, false);
    es := [add, Revert(table, key)];
    assert es[..1] == [add] && [add][..0] == [];
    assert LogRun(len, [add][..0]) == Log(map[], 0);
    var h := LogRun(len, [add]);
    assert h == LogNext(len, LogRun(len, [add][..0]), add);
    assert h.writes[(table, key)] == [w];
    assert [w][..|[w]| - 1] == [] && RowAfter(base((table, key)), [w][..|[w]| - 1]).Some?;
    assert LegalWrites(base((table, key)), [] + [w]) by { assert [] + [w] == [w]; }
    assert LegalCalls(len, base, [add]);
    RevertDefinedExactly(len, base, es);
  }
}
