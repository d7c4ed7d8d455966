/**
 Every run of calls on the read set of a transaction: the 16-bit count of an entry against
 the reads of it that have not been given back.
 */
module ReadSetRuns {
  import opened ReadSet

  /** `Forget` stands for the calls that drop entries: `DedupRead` and `ClearReadSet`. */
  datatype Event<!A(==)> =
    | Read(k: (Table, A), readTs: nat)
    | Remove(k: (Table, A))
    | Update(k: (Table, A), versionTs: nat)
    | Forget(gone: set<(Table, A)>)

  type Counts<!A(==)> = map<(Table, A), nat>

  /** `open` counts for each entry the reads that were added to it and not given back. */
  datatype State<!A(==)> = State(rset: Reads<A>, open: Counts<A>)

  function CountAfter<A>(s: State<A>, e: Event<A>): Counts<A>
  {
    match e
    case Read(k, readTs) =>
      if !Repeatable(s.rset, k, readTs) then s.open
      else s.open[k := (if k in s.open then s.open[k] else 0) + 1]
    case Remove(k) =>
      if k !in AfterRemove(s.rset, k) then s.open - {k}
      else if k in s.open && s.open[k] > 0 then s.open[k := s.open[k] - 1] else s.open
    case Update(_, _) => s.open
    case Forget(gone) => s.open - gone
  }

  function Next<A>(s: State<A>, e: Event<A>): State<A>
  {
    var rset := match e
                case Read(k, readTs) => AfterRead(s.rset, k, readTs)
                case Remove(k) => AfterRemove(s.rset, k)
                case Update(k, versionTs) => AfterUpdate(s.rset, k, versionTs)
                case Forget(gone) => s.rset - gone;
    State(rset, CountAfter(s, e))
  }

  function Start<A(==)>(): State<A>
  {
    State(map[], map[])
  }

  function Run<A>(s: State<A>, es: seq<Event<A>>): State<A>
    decreases |es|
  {
    if es == [] then s else Run(Next(s, es[0]), es[1..])
  }

  // ---------------------------------------------------------------------------
  // The count is the number of reads, modulo 2^16
  // ---------------------------------------------------------------------------

  predicate Counted(readCnt: nat, n: nat)
  {
    n >= 1 && readCnt == n % UINT16
  }

  ghost predicate Inv<A>(s: State<A>)
  {
    s.rset.Keys == s.open.Keys && forall k :: k in s.rset ==> Counted(s.rset[k].readCnt, s.open[k])
  }

  lemma {:induction false} OneMoreCounted(readCnt: nat, n: nat)
    requires Counted(readCnt, n)
    ensures Counted((readCnt + 1) % UINT16, n + 1)
  {
  }

  lemma {:induction false} OneLessCounted(readCnt: nat, n: nat)
    requires Counted(readCnt, n)
    ensures OneLess(readCnt) == (n - 1) % UINT16
  {
  }

  lemma {:induction false} NextKeeps<A(!new)>(s: State<A>, e: Event<A>)
    requires Inv(s)
    ensures Inv(Next(s, e))
  {
    match e
    case Read(k, readTs) => if k in s.rset { OneMoreCounted(s.rset[k].readCnt, s.open[k]); }
    case Remove(k) => if k in s.rset { OneLessCounted(s.rset[k].readCnt, s.open[k]); }
    case Update(k, versionTs) => assert k in s.rset ==> Next(s, e).rset.Keys == s.rset.Keys;
    case Forget(gone) =>
  }

  /** In every run each entry's count is the number of its reads not given back, modulo 2^16. */
  lemma {:induction false} CountsModulo<A(!new)>(s: State<A>, es: seq<Event<A>>)
    requires Inv(s)
    ensures Inv(Run(s, es))
    decreases |es|
  {
    if es != [] {
      NextKeeps(s, es[0]);
      CountsModulo(Next(s, es[0]), es[1..]);
    }
  }

  // ---------------------------------------------------------------------------
  // Giving reads back
  // ---------------------------------------------------------------------------

  /** The assertion holds, and the entry goes exactly with its last read. */
  ghost predicate Right<A>(s: State<A>, e: Event<A>)
  {
    e.Remove? && e.k in s.rset && e.k in s.open ==>
      s.rset[e.k].readCnt > 0 && (e.k !in Next(s, e).rset <==> s.open[e.k] == 1)
  }

  /** One removal: it goes wrong at exactly the multiples of 2^16 and one above them. */
  lemma {:induction false} RightExactly<A(!new)>(s: State<A>, k: (Table, A))
    requires Inv(s) && k in s.rset
    ensures Right(s, Remove(k)) <==> s.open[k] % UINT16 != 0 && (s.open[k] % UINT16 == 1 ==> s.open[k] == 1)
  {
    assert Counted(s.rset[k].readCnt, s.open[k]);
    OneLessCounted(s.rset[k].readCnt, s.open[k]);
  }

  ghost predicate AllRight<A>(s: State<A>, es: seq<Event<A>>)
    decreases |es|
  {
    es != [] ==> Right(s, es[0]) && AllRight(Next(s, es[0]), es[1..])
  }

  ghost predicate AtMost<A>(s: State<A>, n: nat)
  {
    forall k :: k in s.open ==> s.open[k] <= n
  }

  ghost predicate NeverMore<A>(s: State<A>, es: seq<Event<A>>, n: nat)
    decreases |es|
  {
    AtMost(s, n) && (es != [] ==> NeverMore(Next(s, es[0]), es[1..], n))
  }

  lemma {:induction false} BelowWrapIsRight<A(!new)>(s: State<A>, es: seq<Event<A>>, n: nat)
    requires Inv(s) && NeverMore(s, es, n) && n < UINT16
    ensures AllRight(s, es)
    decreases |es|
  {
    if es != [] {
      var e := es[0];
      if e.Remove? && e.k in s.rset { RightExactly(s, e.k); }
      NextKeeps(s, e);
      BelowWrapIsRight(Next(s, e), es[1..], n);
    }
  }

  function Repeat<A>(e: Event<A>, n: nat): seq<Event<A>>
  {
    if n == 0 then [] else [e] + Repeat(e, n - 1)
  }

  /** Giving all its reads back one by one is right throughout exactly if they are fewer than 2^16. */
  lemma {:induction false} GivenBackExactly<A(!new)>(s: State<A>, k: (Table, A))
    requires Inv(s) && k in s.rset
    ensures AllRight(s, Repeat(Remove(k), s.open[k])) <==> s.open[k] < UINT16
    decreases s.open[k]
  {
    var n := s.open[k];
    assert Counted(s.rset[k].readCnt, n);
    var s' := Next(s, Remove(k));
    var es := Repeat(Remove(k), n);
    assert es[0] == Remove(k) && es[1..] == Repeat(Remove(k), n - 1);
    RightExactly(s, k);
    NextKeeps(s, Remove(k));
    if Right(s, Remove(k)) && n > 1 {
      assert k in s'.rset && s'.open[k] == n - 1;
      GivenBackExactly(s', k);
    }
  }

  function OpenReads<A>(s: State<A>, k: (Table, A)): nat
  {
    if k in s.open then s.open[k] else 0
  }

  /** Reading an entry over and over again, with any number of other entries open. */
  lemma {:induction false} ReadMany<A(!new)>(s: State<A>, k: (Table, A), m: nat, es: seq<Event<A>>)
    requires Inv(s)
    ensures var s' := Run(s, Repeat(Read(k, 0), m));
            && Inv(s') && OpenReads(s', k) == OpenReads(s, k) + m
            && Run(s, Repeat(Read(k, 0), m) + es) == Run(s', es)
            && (AllRight(s, Repeat(Read(k, 0), m) + es) <==> AllRight(s', es))
    decreases m
  {
    var all := Repeat(Read(k, 0), m) + es;
    if m == 0 {
      assert all == es;
    } else {
      assert all[0] == Read(k, 0) && all[1..] == Repeat(Read(k, 0), m - 1) + es;
      assert Repeat(Read(k, 0), m)[1..] == Repeat(Read(k, 0), m - 1);
      NextKeeps(s, Read(k, 0));
      ReadMany(Next(s, Read(k, 0)), k, m - 1, es);
    }
  }

  lemma {:induction false} StaysBelow<A(!new)>(s: State<A>, k: (Table, A), m: nat, n: nat)
    requires Inv(s) && AtMost(s, n) && OpenReads(s, k) + m <= n
    ensures NeverMore(s, Repeat(Read(k, 0), m) + [Remove(k)], n)
    decreases m
  {
    var all := Repeat(Read(k, 0), m) + [Remove(k)];
    NextKeeps(s, all[0]);
    if m == 0 {
      assert all == [Remove(k)] && all[1..] == [];
      assert AtMost(Next(s, Remove(k)), n);
    } else {
      assert all[0] == Read(k, 0) && all[1..] == Repeat(Read(k, 0), m - 1) + [Remove(k)];
      StaysBelow(Next(s, Read(k, 0)), k, m - 1, n);
    }
  }

  /** After 65536 reads of an entry, giving one back fails the assertion. */
  lemma {:induction false} AssertionFails<A(!new)>(k: (Table, A))
    ensures var s := Run(Start(), Repeat(Read(k, 0), UINT16));
            k in s.rset && s.rset[k].readCnt == 0 && OpenReads(s, k) == UINT16
  {
    ReadMany(Start(), k, UINT16, []);
    var s := Run(Start(), Repeat(Read(k, 0), UINT16));
    assert k in s.rset;
    assert Counted(s.rset[k].readCnt, s.open[k]);
  }

  /** After one more, giving one back drops the entry with 65536 reads still open. */
  lemma {:induction false} DroppedEarly<A(!new)>(k: (Table, A))
    ensures var s := Run(Start(), Repeat(Read(k, 0), UINT16 + 1));
            k in s.rset && OpenReads(s, k) == UINT16 + 1 && k !in Next(s, Remove(k)).rset
  {
    ReadMany(Start(), k, UINT16 + 1, []);
    var s := Run(Start(), Repeat(Read(k, 0), UINT16 + 1));
    assert k in s.rset;
    assert Counted(s.rset[k].readCnt, s.open[k]);
  }

  /**
   In all runs with at most `n` reads of any entry open at a time the assertion holds and
   entries go exactly with their last read, if and only if `n` is below 2^16.
   */
  lemma {:induction false} RightExactlyBelowWrap<A(!new)>(n: nat, k: (Table, A))
    ensures (forall es :: NeverMore<A>(Start(), es, n) ==> AllRight<A>(Start(), es)) <==> n < UINT16
  {
    if n < UINT16 {
      forall es | NeverMore<A>(Start(), es, n) ensures AllRight<A>(Start(), es) {
        BelowWrapIsRight(Start(), es, n);
      }
    } else {
      var es := Repeat(Read(k, 0), UINT16) + [Remove(k)];
      StaysBelow(Start(), k, UINT16, n);
      ReadMany(Start(), k, UINT16, [Remove(k)]);
      AssertionFails(k);
      assert !Right(Run(Start(), Repeat(Read(k, 0), UINT16)), Remove(k));
      assert !AllRight(Start(), es);
    }
  }
}
