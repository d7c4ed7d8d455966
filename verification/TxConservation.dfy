/**
 Where the transactions of a `TxProcessor` are (include/tx_service.h), in every
 interleaving of any number of threads in `NewTx` with the processor's rounds.

 Every event is one operation on a shared variable.  The processor may forward the
 transactions it owns in any order, which covers the order of `RunOneRound`; the queues
 shared between threads are bags, since a concurrent queue hands out elements of
 different producers in any order.
 */
module TxConservation {
  import opened Options
  import R = TxRound

  const WRAP: nat := 0x1_0000            // active_tx_cnt_ and new_tx_cnt_ have 16 bits
  const BULK: nat := 100

  type Tx = R.Tx

  /** A thread in `NewTx`, by the last thing it has done. */
  datatype Creator =
    | Outside
    | Holding(tx: Tx)                    // has a recycled or a new transaction
    | Counted(tx: Tx)                    // has incremented active_tx_cnt_
    | NewCounted(tx: Tx)                 // has incremented new_tx_cnt_

  datatype Processor =
    | Steady
    | Drained(k: nat)                    // dequeued k new transactions, new_tx_cnt_ not yet reduced
    | Freed                              // freed a finished transaction, active_tx_cnt_ not yet reduced

  datatype State = State(arrived: multiset<Tx>, idle: multiset<Tx>, onFly: multiset<Tx>, free: multiset<Tx>,
                         creators: seq<Creator>, proc: Processor,
                         activeCnt: nat, newCnt: nat, made: nat)

  datatype Event =
    | Create(i: nat, recycled: Option<Tx>)       // a step of thread i
    | Drain(batch: multiset<Tx>)                 // try_dequeue_bulk into idle_txs_
    | Forward(tx: Tx, fromIdle: bool, answer: R.Answer)
    | Reduce                                     // the pending fetch_sub

  function Init(threads: nat): State
  {
    State(multiset{}, multiset{}, multiset{}, multiset{}, seq(threads, _ => Outside), Steady, 0, 0, 0)
  }

  function Plus(c: nat, k: nat): nat
  {
    (c + k) % WRAP
  }

  function Minus(c: nat, k: nat): nat
    requires k <= WRAP
  {
    (c + WRAP - k) % WRAP
  }

  /** One step of `NewTx`: try_dequeue, two increments, enqueue. */
  function CreateStep(s: State, i: nat, recycled: Option<Tx>): State
    requires i < |s.creators|
  {
    match s.creators[i]
    case Outside =>
      if recycled.None? then s.(creators := s.creators[i := Holding(s.made)], made := s.made + 1)
      else if recycled.value in s.free
      then s.(creators := s.creators[i := Holding(recycled.value)], free := s.free - multiset{recycled.value})
      else s
    case Holding(tx) => s.(creators := s.creators[i := Counted(tx)], activeCnt := Plus(s.activeCnt, 1))
    case Counted(tx) => s.(creators := s.creators[i := NewCounted(tx)], newCnt := Plus(s.newCnt, 1))
    case NewCounted(tx) => s.(creators := s.creators[i := Outside], arrived := s.arrived + multiset{tx})
  }

  function DrainStep(s: State, batch: multiset<Tx>): State
  {
    if s.proc.Steady? && batch <= s.arrived && |batch| <= s.newCnt && |batch| <= BULK
    then s.(arrived := s.arrived - batch, idle := s.idle + batch, proc := Drained(|batch|)) else s
  }

  function ForwardStep(s: State, tx: Tx, fromIdle: bool, answer: R.Answer): State
  {
    if s.proc.Steady? && tx in (if fromIdle then s.idle else s.onFly) then
      var s' := if fromIdle then s.(idle := s.idle - multiset{tx}) else s.(onFly := s.onFly - multiset{tx});
      match answer
      case Finished => s'.(free := s'.free + multiset{tx}, proc := Freed)
      case Idle => s'.(idle := s'.idle + multiset{tx})
      case Busy => s'.(onFly := s'.onFly + multiset{tx})
    else s
  }

  function ReduceStep(s: State): State
  {
    match s.proc
    case Steady => s
    case Drained(k) => if k <= WRAP then s.(proc := Steady, newCnt := Minus(s.newCnt, k)) else s
    case Freed => s.(proc := Steady, activeCnt := Minus(s.activeCnt, 1))
  }

  function Next(s: State, e: Event): State
  {
    match e
    case Create(i, recycled) => if i < |s.creators| then CreateStep(s, i, recycled) else s
    case Drain(batch) => DrainStep(s, batch)
    case Forward(tx, fromIdle, answer) => ForwardStep(s, tx, fromIdle, answer)
    case Reduce => ReduceStep(s)
  }

  function Run(s: State, es: seq<Event>): State
  {
    if es == [] then s else Next(Run(s, es[..|es| - 1]), es[|es| - 1])
  }

  // ---------------------------------------------------------------------------
  // The invariant
  // ---------------------------------------------------------------------------

  ghost function Holds(c: Creator, tx: Tx): nat
  {
    if !c.Outside? && c.tx == tx then 1 else 0
  }

  /** How many of the threads in `NewTx` have the transaction in their hands. */
  ghost function Held(cs: seq<Creator>, tx: Tx): nat
  {
    if cs == [] then 0 else Holds(cs[0], tx) + Held(cs[1..], tx)
  }

  ghost function Weight(c: Creator, counted: bool): nat
  {
    if c.NewCounted? || (counted && c.Counted?) then 1 else 0
  }

  /** How many threads have incremented active_tx_cnt_ (`counted`) or new_tx_cnt_ for the transaction they hold. */
  ghost function InFlight(cs: seq<Creator>, counted: bool): nat
  {
    if cs == [] then 0 else Weight(cs[0], counted) + InFlight(cs[1..], counted)
  }

  lemma {:induction false} HeldUpdate(cs: seq<Creator>, i: nat, c: Creator, tx: Tx)
    requires i < |cs|
    ensures Held(cs[i := c], tx) + Holds(cs[i], tx) == Held(cs, tx) + Holds(c, tx)
  {
    if i == 0 {
      assert cs[i := c][1..] == cs[1..];
    } else {
      assert cs[i := c][1..] == cs[1..][i - 1 := c];
      HeldUpdate(cs[1..], i - 1, c, tx);
    }
  }

  lemma {:induction false} InFlightUpdate(cs: seq<Creator>, i: nat, c: Creator, counted: bool)
    requires i < |cs|
    ensures InFlight(cs[i := c], counted) + Weight(cs[i], counted) == InFlight(cs, counted) + Weight(c, counted)
  {
    if i == 0 {
      assert cs[i := c][1..] == cs[1..];
    } else {
      assert cs[i := c][1..] == cs[1..][i - 1 := c];
      InFlightUpdate(cs[1..], i - 1, c, counted);
    }
  }

  /** In how many places a transaction is. */
  ghost function Places(s: State, tx: Tx): nat
  {
    s.arrived[tx] + s.idle[tx] + s.onFly[tx] + s.free[tx] + Held(s.creators, tx)
  }

  /** Every transaction ever made is in one place, and no other is anywhere. */
  ghost predicate OnePlaceEach(s: State)
  {
    forall tx: Tx :: Places(s, tx) == if tx < s.made then 1 else 0
  }

  /** The transactions the system is working on, in whatever queue or hands. */
  ghost function Active(s: State): nat
  {
    |s.arrived| + |s.idle| + |s.onFly| + InFlight(s.creators, true) + (if s.proc.Freed? then 1 else 0)
  }

  ghost function Arriving(s: State): nat
  {
    |s.arrived| + InFlight(s.creators, false) + (if s.proc.Drained? then s.proc.k else 0)
  }

  ghost predicate CountersRight(s: State)
  {
    && s.activeCnt == Active(s) % WRAP
    && s.newCnt == Arriving(s) % WRAP
    && (s.proc.Drained? ==> s.proc.k <= BULK)
  }

  lemma {:induction false} PlusWraps(n: nat, k: nat)
    ensures Plus(n % WRAP, k) == (n + k) % WRAP
  {
    assert (n % WRAP + k - (n + k)) % WRAP == 0;
  }

  lemma {:induction false} MinusWraps(n: nat, k: nat)
    requires k <= n && k <= WRAP
    ensures Minus(n % WRAP, k) == (n - k) % WRAP
  {
    assert n == n / WRAP * WRAP + n % WRAP;
    assert (n % WRAP + WRAP - k - (n - k)) % WRAP == 0;
  }

  /** A thread's step moves its own transaction only. */
  lemma {:induction false} CreatorMoves(s: State, i: nat, c: Creator, tx: Tx)
    requires i < |s.creators|
    ensures var s' := s.(creators := s.creators[i := c]);
            Places(s', tx) + Holds(s.creators[i], tx) == Places(s, tx) + Holds(c, tx)
  {
    HeldUpdate(s.creators, i, c, tx);
  }

  lemma {:induction false} TakesPlace(s: State, i: nat, recycled: Option<Tx>, tx: Tx)
    requires OnePlaceEach(s) && i < |s.creators| && s.creators[i].Outside?
    ensures var s' := CreateStep(s, i, recycled); Places(s', tx) == if tx < s'.made then 1 else 0
  {
    assert Places(s, tx) == if tx < s.made then 1 else 0;
    CreatorMoves(s, i, Holding(if recycled.None? then s.made else recycled.value), tx);
  }

  lemma {:induction false} MovesPlace(s: State, i: nat, recycled: Option<Tx>, tx: Tx)
    requires OnePlaceEach(s) && i < |s.creators| && !s.creators[i].Outside?
    ensures var s' := CreateStep(s, i, recycled); Places(s', tx) == if tx < s'.made then 1 else 0
  {
    assert Places(s, tx) == if tx < s.made then 1 else 0;
    CreatorMoves(s, i, CreateStep(s, i, recycled).creators[i], tx);
  }

  lemma {:induction false} CreatePlace(s: State, i: nat, recycled: Option<Tx>, tx: Tx)
    requires OnePlaceEach(s) && i < |s.creators|
    ensures var s' := CreateStep(s, i, recycled); Places(s', tx) == if tx < s'.made then 1 else 0
  {
    if s.creators[i].Outside? { TakesPlace(s, i, recycled, tx); } else { MovesPlace(s, i, recycled, tx); }
  }

  lemma {:induction false} CreateKeepsPlaces(s: State, i: nat, recycled: Option<Tx>)
    requires OnePlaceEach(s) && i < |s.creators|
    ensures OnePlaceEach(CreateStep(s, i, recycled))
  {
    forall tx: Tx ensures var s' := CreateStep(s, i, recycled); Places(s', tx) == if tx < s'.made then 1 else 0 {
      CreatePlace(s, i, recycled, tx);
    }
  }

  lemma {:induction false} CreateCounts(s: State, i: nat, recycled: Option<Tx>)
    requires i < |s.creators|
    ensures var s' := CreateStep(s, i, recycled);
            && Active(s') == Active(s) + (if s.creators[i].Holding? then 1 else 0)
            && Arriving(s') == Arriving(s) + (if s.creators[i].Counted? then 1 else 0)
  {
    var s' := CreateStep(s, i, recycled);
    if s'.creators != s.creators {
      InFlightUpdate(s.creators, i, s'.creators[i], true);
      InFlightUpdate(s.creators, i, s'.creators[i], false);
    }
  }

  lemma {:induction false} CreateKeepsCounters(s: State, i: nat, recycled: Option<Tx>)
    requires CountersRight(s) && i < |s.creators|
    ensures CountersRight(CreateStep(s, i, recycled))
  {
    CreateCounts(s, i, recycled);
    PlusWraps(Active(s), 1);
    PlusWraps(Arriving(s), 1);
  }

  lemma {:induction false} ForwardKeepsPlaces(s: State, tx: Tx, fromIdle: bool, answer: R.Answer)
    requires OnePlaceEach(s)
    ensures OnePlaceEach(ForwardStep(s, tx, fromIdle, answer))
  {
    var s' := ForwardStep(s, tx, fromIdle, answer);
    forall x: Tx ensures Places(s', x) == if x < s'.made then 1 else 0 {
      assert Places(s, x) == if x < s.made then 1 else 0;
    }
  }

  lemma {:induction false} ForwardKeepsCounters(s: State, tx: Tx, fromIdle: bool, answer: R.Answer)
    requires CountersRight(s)
    ensures CountersRight(ForwardStep(s, tx, fromIdle, answer))
  {
    var s' := ForwardStep(s, tx, fromIdle, answer);
    assert Active(s') == Active(s) && Arriving(s') == Arriving(s);
  }

  lemma {:induction false} DrainKeeps(s: State, batch: multiset<Tx>)
    requires OnePlaceEach(s) && CountersRight(s)
    ensures OnePlaceEach(DrainStep(s, batch)) && CountersRight(DrainStep(s, batch))
  {
    var s' := DrainStep(s, batch);
    if batch <= s.arrived {
      assert s.arrived == (s.arrived - batch) + batch;
    }
    forall x: Tx ensures Places(s', x) == if x < s'.made then 1 else 0 {
      assert Places(s, x) == if x < s.made then 1 else 0;
    }
  }

  lemma {:induction false} ReduceKeeps(s: State)
    requires OnePlaceEach(s) && CountersRight(s)
    ensures OnePlaceEach(ReduceStep(s)) && CountersRight(ReduceStep(s))
  {
    if s.proc.Freed? {
      MinusWraps(Active(s), 1);
    } else if s.proc.Drained? {
      MinusWraps(Arriving(s), s.proc.k);
    }
    forall x: Tx ensures Places(ReduceStep(s), x) == if x < s.made then 1 else 0 {
      assert Places(s, x) == if x < s.made then 1 else 0;
    }
  }

  lemma {:induction false} RunKeeps(threads: nat, es: seq<Event>)
    ensures OnePlaceEach(Run(Init(threads), es)) && CountersRight(Run(Init(threads), es))
  {
    if es == [] {
      forall tx: Tx ensures Places(Init(threads), tx) == 0 {
        NobodyHolds(threads, tx);
      }
      NobodyHolds(threads, 0);
    } else {
      var s := Run(Init(threads), es[..|es| - 1]);
      RunKeeps(threads, es[..|es| - 1]);
      match es[|es| - 1]
      case Create(i, recycled) =>
        if i < |s.creators| {
          CreateKeepsPlaces(s, i, recycled);
          CreateKeepsCounters(s, i, recycled);
        }
      case Drain(batch) => DrainKeeps(s, batch);
      case Forward(tx, fromIdle, answer) =>
        ForwardKeepsPlaces(s, tx, fromIdle, answer);
        ForwardKeepsCounters(s, tx, fromIdle, answer);
      case Reduce => ReduceKeeps(s);
    }
  }

  lemma {:induction false} NobodyHolds(threads: nat, tx: Tx)
    ensures Held(seq(threads, _ => Outside), tx) == 0
    ensures InFlight(seq(threads, _ => Outside), true) == 0 == InFlight(seq(threads, _ => Outside), false)
  {
    if threads > 0 {
      NobodyHolds(threads - 1, tx);
      assert seq(threads, _ => Outside)[1..] == seq(threads - 1, _ => Outside);
    }
  }

  // ---------------------------------------------------------------------------
  // Conservation
  // ---------------------------------------------------------------------------

  /**
   In every run each transaction ever made is in exactly one place: the new, idle, on-fly
   or free queue or the hands of one thread in `NewTx`; no other transaction is anywhere;
   and the 16-bit counters hold the true counts modulo 2^16.
   */
  lemma {:induction false} TransactionsAreConserved(threads: nat, es: seq<Event>, tx: Tx)
    ensures var s := Run(Init(threads), es);
            && s.arrived[tx] + s.idle[tx] + s.onFly[tx] + s.free[tx] + Held(s.creators, tx)
            == (if tx < s.made then 1 else 0)
            && s.activeCnt == Active(s) % WRAP && s.newCnt == Arriving(s) % WRAP
  {
    RunKeeps(threads, es);
    assert Places(Run(Init(threads), es), tx) == if tx < Run(Init(threads), es).made then 1 else 0;
  }

  /** Nothing new, idle, on-fly or about to arrive, and no reduction outstanding. */
  ghost predicate Quiet(s: State)
  {
    s.arrived == s.idle == s.onFly == multiset{} && !s.proc.Freed? && InFlight(s.creators, true) == 0
  }

  lemma {:induction false} ZeroMeansQuiet(s: State)
    requires CountersRight(s)
    ensures Active(s) < WRAP ==> AnswersRight(s)
  {
    assert Active(s) == 0 <==> Quiet(s);
  }

  /**
   `AllTxFinished` reads the active count.  It reads 0 exactly when the number of active
   transactions is a multiple of 2^16; so as long as fewer than 2^16 are active it answers
   true exactly when every transaction is free or not yet counted by the thread holding it.
   */
  lemma {:induction false} AllFinishedIsRight(threads: nat, es: seq<Event>)
    ensures var s := Run(Init(threads), es);
            && (s.activeCnt == 0 <==> Active(s) % WRAP == 0)
            && (Active(s) < WRAP ==> AnswersRight(s))
  {
    RunKeeps(threads, es);
    ZeroMeansQuiet(Run(Init(threads), es));
  }

  ghost predicate AnswersRight(s: State)
  {
    s.activeCnt == 0 <==> Quiet(s)
  }

  lemma {:induction false} Extend(s: State, es: seq<Event>, e: Event) returns (es': seq<Event>)
    ensures Run(s, es') == Next(Run(s, es), e)
  {
    es' := es + [e];
    assert es'[..|es'| - 1] == es;
  }

  /** One thread, between its calls, has created so many transactions that nobody has taken in. */
  ghost predicate OnlyArrived(s: State, n: nat)
  {
    && s.creators == [Outside] && s.proc == Steady
    && |s.arrived| == n && s.idle == s.onFly == multiset{}
  }

  lemma {:induction false} OneMoreArrives(s: State, n: nat)
    requires OnlyArrived(s, n)
    ensures var e := Create(0, None); OnlyArrived(Next(Next(Next(Next(s, e), e), e), e), n + 1)
  {
    var e := Create(0, None);
    var s1 := Next(s, e);
    assert s1 == s.(creators := [Holding(s.made)], made := s.made + 1);
    var s2 := Next(s1, e);
    assert s2 == s1.(creators := [Counted(s.made)], activeCnt := Plus(s.activeCnt, 1));
    var s3 := Next(s2, e);
    assert s3 == s2.(creators := [NewCounted(s.made)], newCnt := Plus(s.newCnt, 1));
    assert Next(s3, e) == s3.(creators := [Outside], arrived := s.arrived + multiset{s.made});
  }

  lemma {:induction false} OneMore(es: seq<Event>, n: nat) returns (es': seq<Event>)
    requires OnlyArrived(Run(Init(1), es), n)
    ensures OnlyArrived(Run(Init(1), es'), n + 1)
  {
    OneMoreArrives(Run(Init(1), es), n);
    es' := Extend(Init(1), es, Create(0, None));
    es' := Extend(Init(1), es', Create(0, None));
    es' := Extend(Init(1), es', Create(0, None));
    es' := Extend(Init(1), es', Create(0, None));
  }

  lemma {:induction false} CreateMany(n: nat) returns (es: seq<Event>)
    ensures OnlyArrived(Run(Init(1), es), n)
  {
    if n == 0 {
      es := [];
    } else {
      es := CreateMany(n - 1);
      es := OneMore(es, n - 1);
    }
  }

  lemma {:induction false} ArrivedAreActive(s: State, n: nat)
    requires OnlyArrived(s, n)
    ensures Active(s) == n && (n > 0 ==> !Quiet(s))
  {
    assert s.creators[1..] == [] && InFlight(s.creators[1..], true) == 0;
  }

  /** With a multiple of 65536 transactions waiting to be taken in, the answer is that all have finished. */
  lemma {:induction false} FinishedTooEarly(n: nat) returns (es: seq<Event>)
    requires n > 0 && n % WRAP == 0
    ensures var s := Run(Init(1), es); s.activeCnt == 0 && Active(s) == n && !Quiet(s)
  {
    es := CreateMany(n);
    AllFinishedIsRight(1, es);
    ArrivedAreActive(Run(Init(1), es), n);
  }

  /** The answer is right in all runs with at most so many active transactions exactly if that is below 2^16. */
  lemma {:induction false} FinishedExactlyBelowWrap(n: nat)
    ensures (forall threads, es :: Active(Run(Init(threads), es)) <= n ==> AnswersRight(Run(Init(threads), es)))
            <==> n < WRAP
  {
    if n < WRAP {
      forall threads, es | Active(Run(Init(threads), es)) <= n ensures AnswersRight(Run(Init(threads), es)) {
        AllFinishedIsRight(threads, es);
      }
    } else {
      var es := FinishedTooEarly(WRAP);
      assert !AnswersRight(Run(Init(1), es));
    }
  }

  // ---------------------------------------------------------------------------
  // A round of the processor is a run of this machine
  // ---------------------------------------------------------------------------

  lemma {:induction false} RunConcat(s: State, a: seq<Event>, b: seq<Event>)
    ensures Run(s, a + b) == Run(Run(s, a), b)
  {
    if b == [] {
      assert a + b == a;
    } else {
      assert (a + b)[..|a + b| - 1] == a + b[..|b| - 1];
      RunConcat(s, a, b[..|b| - 1]);
    }
  }

  lemma {:induction false} RunOne(s: State, e: Event)
    ensures Run(s, [e]) == Next(s, e)
  {
    assert [e][..0] == [];
    assert Run(s, [e][..0]) == s;
  }

  /** The machine's idle and on-fly bags hold what the processor's queues hold. */
  ghost predicate Mirrors(s: State, q: R.Queues)
  {
    s.proc.Steady? && s.idle == multiset(q.idle) && s.onFly == multiset(q.onFly)
  }

  /** What the processor freed has gone to the shared free bag, and nothing else of it changed. */
  ghost predicate FreedInto(s: State, s': State, q: R.Queues, q': R.Queues)
  {
    && q.freed <= q'.freed && s'.free == s.free + multiset(q'.freed[|q.freed|..])
    && s'.creators == s.creators && s'.arrived == s.arrived && s'.made == s.made
  }

  lemma {:induction false} ForwardMoves(s: State, q: R.Queues, fromIdle: bool, a: R.Answer)
    requires Mirrors(s, q) && R.Source(q, fromIdle) != []
    ensures var s1 := ForwardStep(s, R.Source(q, fromIdle)[0], fromIdle, a);
            var q1 := R.ForwardFirst(q, fromIdle, a);
            && s1.idle == multiset(q1.idle) && s1.onFly == multiset(q1.onFly)
            && FreedInto(s, s1, q, q1)
            && s1.proc == if a == R.Finished then Freed else Steady
  {
    var src := R.Source(q, fromIdle);
    assert src == [src[0]] + src[1..];
    assert multiset(src) - multiset{src[0]} == multiset(src[1..]);
    var q1 := R.ForwardFirst(q, fromIdle, a);
    assert q1.freed[|q.freed|..] == if a == R.Finished then [src[0]] else [];
  }

  lemma {:induction false} FinishIsARun(s: State, q: R.Queues, fromIdle: bool)
    requires Mirrors(s, q) && R.Source(q, fromIdle) != []
    ensures var e := Forward(R.Source(q, fromIdle)[0], fromIdle, R.Finished);
            Leads(s, [e] + [Reduce], q, R.ForwardFirst(q, fromIdle, R.Finished))
  {
    var e := Forward(R.Source(q, fromIdle)[0], fromIdle, R.Finished);
    var s1 := Next(s, e);
    ForwardMoves(s, q, fromIdle, R.Finished);
    RunOne(s, e);
    RunOne(s1, Reduce);
    RunConcat(s, [e], [Reduce]);
    assert ReduceStep(s1) == s1.(proc := Steady, activeCnt := Minus(s1.activeCnt, 1));
  }

  lemma {:induction false} ForwardIsARun(s: State, q: R.Queues, fromIdle: bool, a: R.Answer) returns (es: seq<Event>)
    requires Mirrors(s, q) && R.Source(q, fromIdle) != []
    ensures Leads(s, es, q, R.ForwardFirst(q, fromIdle, a))
  {
    var e := Forward(R.Source(q, fromIdle)[0], fromIdle, a);
    if a == R.Finished {
      es := [e] + [Reduce];
      FinishIsARun(s, q, fromIdle);
    } else {
      es := [e];
      ForwardMoves(s, q, fromIdle, a);
      RunOne(s, e);
    }
  }

  lemma {:induction false} FreedIntoTransitive(s: State, s1: State, s2: State, q: R.Queues, q1: R.Queues, q2: R.Queues)
    requires FreedInto(s, s1, q, q1) && FreedInto(s1, s2, q1, q2)
    ensures FreedInto(s, s2, q, q2)
  {
    assert q2.freed[|q.freed|..] == q1.freed[|q.freed|..] + q2.freed[|q1.freed|..];
  }

  lemma {:induction false} NothingFreed(s: State, q: R.Queues)
    ensures FreedInto(s, s, q, q)
  {
    assert q.freed[|q.freed|..] == [];
  }

  /** Some run of the machine takes `s` to a state that mirrors `q'`. */
  ghost predicate Reaches(s: State, q: R.Queues, q': R.Queues)
  {
    exists es :: Leads(s, es, q, q')
  }

  ghost predicate Leads(s: State, es: seq<Event>, q: R.Queues, q': R.Queues)
  {
    Mirrors(Run(s, es), q') && FreedInto(s, Run(s, es), q, q')
  }

  lemma {:induction false} ReachesSame(s: State, q: R.Queues)
    requires Mirrors(s, q)
    ensures Reaches(s, q, q)
  {
    NothingFreed(s, q);
    assert Leads(s, [], q, q);
  }

  lemma {:induction false} ReachesOn(s: State, es: seq<Event>, q: R.Queues, q1: R.Queues, q2: R.Queues)
    requires Leads(s, es, q, q1) && Reaches(Run(s, es), q1, q2)
    ensures Reaches(s, q, q2)
  {
    var s1 := Run(s, es);
    var more :| Leads(s1, more, q1, q2);
    RunConcat(s, es, more);
    FreedIntoTransitive(s, s1, Run(s1, more), q, q1, q2);
    assert Leads(s, es + more, q, q2);
  }

  /** From every state that mirrors the queues, the step is a run. */
  ghost predicate IsARun(step: R.Queues -> R.Queues)
  {
    forall s, q {:trigger Reaches(s, q, step(q))} :: Mirrors(s, q) ==> Reaches(s, q, step(q))
  }

  lemma {:induction false} IterateIsARun(step: R.Queues -> R.Queues, s: State, q: R.Queues, n: nat)
    requires IsARun(step) && Mirrors(s, q)
    ensures Reaches(s, q, R.Iterate(step, q, n))
  {
    if n == 0 {
      ReachesSame(s, q);
    } else {
      IterateIsARun(step, s, q, n - 1);
      StepIsARun(step, s, q, R.Iterate(step, q, n - 1));
    }
  }

  lemma {:induction false} StepIsARun(step: R.Queues -> R.Queues, s: State, q: R.Queues, q1: R.Queues)
    requires IsARun(step) && Reaches(s, q, q1)
    ensures Reaches(s, q, step(q1))
  {
    var es :| Leads(s, es, q, q1);
    assert Reaches(Run(s, es), q1, step(q1));
    ReachesOn(s, es, q, q1, step(q1));
  }

  lemma {:induction false} ForwarderIsARun(fromIdle: bool, answer: nat -> R.Answer)
    ensures IsARun(R.Forwarder(fromIdle, answer))
  {
    forall s, q | Mirrors(s, q) ensures Reaches(s, q, R.Forwarder(fromIdle, answer)(q)) {
      if R.Source(q, fromIdle) == [] {
        ReachesSame(s, q);
      } else {
        var es := ForwardIsARun(s, q, fromIdle, answer(|q.calls|));
        assert Leads(s, es, q, R.Forwarder(fromIdle, answer)(q));
      }
    }
  }

  lemma {:induction false} FlyPassIsARun(answer: nat -> R.Answer)
    ensures IsARun(R.FlyPass(answer))
  {
    ForwarderIsARun(false, answer);
    forall s, q | Mirrors(s, q) ensures Reaches(s, q, R.FlyPass(answer)(q)) {
      IterateIsARun(R.Forwarder(false, answer), s, q, |q.onFly|);
    }
  }

  lemma {:induction false} PassesAreARun(s: State, q: R.Queues, loops: nat, answer: nat -> R.Answer)
    requires Mirrors(s, q)
    ensures Reaches(s, q, R.Round(q, [], loops, answer))
  {
    assert q.(idle := q.idle + []) == q;
    var q1 := R.Pass(q, true, answer);
    ForwarderIsARun(true, answer);
    IterateIsARun(R.Forwarder(true, answer), s, q, |q.idle|);
    var es :| Leads(s, es, q, q1);
    FlyPassIsARun(answer);
    IterateIsARun(R.FlyPass(answer), Run(s, es), q1, loops);
    ReachesOn(s, es, q, q1, R.Iterate(R.FlyPass(answer), q1, loops));
  }

  ghost function TakenIn(s: State, batch: multiset<Tx>): State
    requires |batch| <= BULK
  {
    s.(arrived := s.arrived - batch, idle := s.idle + batch, newCnt := Minus(s.newCnt, |batch|))
  }

  /** The batch moves from the arrivals to the idle queue, and the new count is reduced. */
  lemma {:induction false} DrainIsARun(s: State, batch: multiset<Tx>)
    requires s.proc.Steady? && batch <= s.arrived && |batch| <= s.newCnt && |batch| <= BULK
    ensures Run(s, [Drain(batch)] + [Reduce]) == TakenIn(s, batch)
  {
    var s1 := Next(s, Drain(batch));
    assert s1.proc == Drained(|batch|);
    RunOne(s, Drain(batch));
    RunOne(s1, Reduce);
    RunConcat(s, [Drain(batch)], [Reduce]);
    assert ReduceStep(s1) == s1.(proc := Steady, newCnt := Minus(s.newCnt, |batch|));
  }

  /**
   What `RunOneRound` does to the idle, on-fly and free queues with any batch it may dequeue
   is a run of this machine, in which the arrivals lose exactly the batch; so conservation
   holds through every round.
   */
  lemma {:induction false} RoundIsARun(
    s: State, q: R.Queues, batch: seq<Tx>, loops: nat, answer: nat -> R.Answer) returns (es: seq<Event>)
    requires Mirrors(s, q)
    requires multiset(batch) <= s.arrived && |batch| <= s.newCnt && |batch| <= BULK
    ensures Mirrors(Run(s, es), R.Round(q, batch, loops, answer))
    ensures FreedInto(s.(arrived := s.arrived - multiset(batch)), Run(s, es), q, R.Round(q, batch, loops, answer))
  {
    var drain := [Drain(multiset(batch))] + [Reduce];
    assert |multiset(batch)| == |batch|;
    DrainIsARun(s, multiset(batch));
    var q0 := q.(idle := q.idle + batch);
    PassesAreARun(Run(s, drain), q0, loops, answer);
    assert q0.(idle := q0.idle + []) == q0;
    var more :| Leads(Run(s, drain), more, q0, R.Round(q0, [], loops, answer));
    RunConcat(s, drain, more);
    es := drain + more;
  }
}
