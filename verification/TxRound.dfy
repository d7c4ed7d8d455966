/**
 `TxProcessor::RunOneRound` (include/tx_service.h): one round over the idle and the
 on-fly queue.  What a transaction's `Forward` answers is arbitrary: the `k`-th call of
 the round gets `answer(k)`.
 */
module TxRound {
  import CQ = CircularQueue

  type Tx = nat

  datatype Answer = Finished | Idle | Busy

  /** The queues of the processor as plain sequences, the transactions freed so far, and the
      calls of `Forward` made so far. */
  datatype Queues = Queues(idle: seq<Tx>, onFly: seq<Tx>, freed: seq<Tx>, calls: seq<Tx>)

  function Source(q: Queues, fromIdle: bool): seq<Tx>
  {
    if fromIdle then q.idle else q.onFly
  }

  /** The first transaction of a queue is taken out, forwarded, and put where it belongs. */
  function ForwardFirst(q: Queues, fromIdle: bool, a: Answer): Queues
    requires Source(q, fromIdle) != []
  {
    var tx := Source(q, fromIdle)[0];
    var q' := (if fromIdle then q.(idle := q.idle[1..]) else q.(onFly := q.onFly[1..])).(calls := q.calls + [tx]);
    match a
    case Finished => q'.(freed := q'.freed + [tx])
    case Idle => q'.(idle := q'.idle + [tx])
    case Busy => q'.(onFly := q'.onFly + [tx])
  }

  function ForwardNext(q: Queues, fromIdle: bool, answer: nat -> Answer): Queues
  {
    if Source(q, fromIdle) == [] then q else ForwardFirst(q, fromIdle, answer(|q.calls|))
  }

  function Iterate<S>(step: S -> S, s: S, n: nat): S
  {
    if n == 0 then s else step(Iterate(step, s, n - 1))
  }

  /** One iteration of the loop over a queue. */
  function Forwarder(fromIdle: bool, answer: nat -> Answer): Queues -> Queues
  {
    q => ForwardNext(q, fromIdle, answer)
  }

  /** The loop over a queue, as long as it is at the start. */
  function Pass(q: Queues, fromIdle: bool, answer: nat -> Answer): Queues
  {
    Iterate(Forwarder(fromIdle, answer), q, |Source(q, fromIdle)|)
  }

  function FlyPass(answer: nat -> Answer): Queues -> Queues
  {
    q => Pass(q, false, answer)
  }

  /** A whole round after `batch` has been taken from the new transactions. */
  function Round(q: Queues, batch: seq<Tx>, loops: nat, answer: nat -> Answer): Queues
  {
    Iterate(FlyPass(answer), Pass(q.(idle := q.idle + batch), true, answer), loops)
  }

  // ---------------------------------------------------------------------------
  // A round conserves transactions
  // ---------------------------------------------------------------------------

  lemma {:induction false} IterateKeeps<S(!new)>(step: S -> S, measure: S -> int, s: S, n: nat)
    requires forall x :: measure(step(x)) == measure(x)
    ensures measure(Iterate(step, s, n)) == measure(s)
  {
    if n > 0 { IterateKeeps(step, measure, s, n - 1); }
  }

  /** How often a transaction is in the processor's queues. */
  ghost function Owned(q: Queues, tx: Tx): int
  {
    multiset(q.idle)[tx] + multiset(q.onFly)[tx] + multiset(q.freed)[tx]
  }

  ghost function OwnedBy(tx: Tx): Queues -> int
  {
    q => Owned(q, tx)
  }

  lemma {:induction false} FirstCounts(s: seq<Tx>, tx: Tx)
    requires s != []
    ensures multiset(s)[tx] == multiset(s[1..])[tx] + if tx == s[0] then 1 else 0
  {
    assert s == [s[0]] + s[1..];
  }

  lemma {:induction false} LastCounts(s: seq<Tx>, x: Tx, tx: Tx)
    ensures multiset(s + [x])[tx] == multiset(s)[tx] + if tx == x then 1 else 0
  {
  }

  lemma {:induction false} IdleFirstConserves(q: Queues, a: Answer, tx: Tx)
    requires q.idle != []
    ensures Owned(ForwardFirst(q, true, a), tx) == Owned(q, tx)
  {
    FirstCounts(q.idle, tx);
    LastCounts(q.freed, q.idle[0], tx);
    LastCounts(q.idle[1..], q.idle[0], tx);
    LastCounts(q.onFly, q.idle[0], tx);
  }

  lemma {:induction false} FlyFirstConserves(q: Queues, a: Answer, tx: Tx)
    requires q.onFly != []
    ensures Owned(ForwardFirst(q, false, a), tx) == Owned(q, tx)
  {
    FirstCounts(q.onFly, tx);
    LastCounts(q.freed, q.onFly[0], tx);
    LastCounts(q.idle, q.onFly[0], tx);
    LastCounts(q.onFly[1..], q.onFly[0], tx);
  }

  lemma {:induction false} ForwardFirstConserves(q: Queues, fromIdle: bool, a: Answer, tx: Tx)
    requires Source(q, fromIdle) != []
    ensures Owned(ForwardFirst(q, fromIdle, a), tx) == Owned(q, tx)
  {
    if fromIdle { IdleFirstConserves(q, a, tx); } else { FlyFirstConserves(q, a, tx); }
  }

  lemma {:induction false} PassConserves(q: Queues, fromIdle: bool, answer: nat -> Answer, tx: Tx)
    ensures Owned(Pass(q, fromIdle, answer), tx) == Owned(q, tx)
  {
    var step, measure := Forwarder(fromIdle, answer), OwnedBy(tx);
    forall x ensures measure(step(x)) == measure(x) {
      if Source(x, fromIdle) != [] { ForwardFirstConserves(x, fromIdle, answer(|x.calls|), tx); }
    }
    IterateKeeps(step, measure, q, |Source(q, fromIdle)|);
  }

  lemma {:induction false} FlyPassesConserve(q: Queues, loops: nat, answer: nat -> Answer, tx: Tx)
    ensures Owned(Iterate(FlyPass(answer), q, loops), tx) == Owned(q, tx)
  {
    var step, measure := FlyPass(answer), OwnedBy(tx);
    forall x ensures measure(step(x)) == measure(x) {
      PassConserves(x, false, answer, tx);
    }
    IterateKeeps(step, measure, q, loops);
  }

  lemma {:induction false} RoundConserves(q: Queues, batch: seq<Tx>, loops: nat, answer: nat -> Answer, tx: Tx)
    ensures Owned(Round(q, batch, loops, answer), tx) == Owned(q, tx) + multiset(batch)[tx]
  {
    var q1 := q.(idle := q.idle + batch);
    PassConserves(q1, true, answer, tx);
    FlyPassesConserve(Pass(q1, true, answer), loops, answer, tx);
    assert multiset(q.idle + batch) == multiset(q.idle) + multiset(batch);
  }

  // ---------------------------------------------------------------------------
  // A round forwards everyone
  // ---------------------------------------------------------------------------

  /** After `n` iterations: what is left is in its old order at the front, and `n` have been called. */
  ghost predicate Forwarded(q: Queues, r: Queues, fromIdle: bool, n: nat)
    requires n <= |Source(q, fromIdle)|
  {
    && r.calls == q.calls + Source(q, fromIdle)[..n]
    && |Source(q, fromIdle)| - n <= |Source(r, fromIdle)|
    && Source(r, fromIdle)[..|Source(q, fromIdle)| - n] == Source(q, fromIdle)[n..]
    && (fromIdle ==> |q.onFly| <= |r.onFly| && r.onFly[..|q.onFly|] == q.onFly)
  }

  lemma {:induction false} RestOfQueue(src: seq<Tx>, now: seq<Tx>, n: nat, now': seq<Tx>)
    requires n < |src| && |src| - n <= |now| && now[..|src| - n] == src[n..] && now[1..] <= now'
    ensures now[0] == src[n] && |src| - n - 1 <= |now'| && now'[..|src| - n - 1] == src[n + 1..]
  {
    var m := |src| - n;
    assert now[0] == now[..m][0];
    forall k | 0 <= k < m - 1 ensures now'[k] == src[n + 1..][k] {
      assert now'[k] == now[1..][k] == now[k + 1] == now[..m][k + 1] == src[n..][k + 1];
    }
  }

  lemma {:induction false} ForwardedOnce(q: Queues, r: Queues, fromIdle: bool, n: nat, a: Answer)
    requires n < |Source(q, fromIdle)| && Forwarded(q, r, fromIdle, n)
    ensures Source(r, fromIdle) != [] && Forwarded(q, ForwardFirst(r, fromIdle, a), fromIdle, n + 1)
  {
    var src, now, r' := Source(q, fromIdle), Source(r, fromIdle), ForwardFirst(r, fromIdle, a);
    assert now[1..] <= Source(r', fromIdle) && (fromIdle ==> r.onFly <= r'.onFly);
    RestOfQueue(src, now, n, Source(r', fromIdle));
    assert src[..n + 1] == src[..n] + [src[n]];
    assert r'.calls == r.calls + [now[0]];
  }

  lemma {:induction false} PassForwards(q: Queues, fromIdle: bool, answer: nat -> Answer, n: nat)
    requires n <= |Source(q, fromIdle)|
    ensures Forwarded(q, Iterate(Forwarder(fromIdle, answer), q, n), fromIdle, n)
  {
    if n > 0 {
      var r := Iterate(Forwarder(fromIdle, answer), q, n - 1);
      PassForwards(q, fromIdle, answer, n - 1);
      ForwardedOnce(q, r, fromIdle, n - 1, answer(|r.calls|));
    }
  }

  lemma {:induction false} NextForwarded(q: Queues, fromIdle: bool, answer: nat -> Answer, n: nat)
    requires n < |Source(q, fromIdle)|
    ensures var r := Iterate(Forwarder(fromIdle, answer), q, n);
            Source(r, fromIdle) != []
            && Iterate(Forwarder(fromIdle, answer), q, n + 1) == ForwardFirst(r, fromIdle, answer(|r.calls|))
  {
    PassForwards(q, fromIdle, answer, n);
  }

  /** A pass calls `Forward` on exactly the transactions of the queue, in order, whatever they answer. */
  lemma {:induction false} PassCalls(q: Queues, fromIdle: bool, answer: nat -> Answer)
    ensures Pass(q, fromIdle, answer).calls == q.calls + Source(q, fromIdle)
    ensures fromIdle ==> q.onFly <= Pass(q, fromIdle, answer).onFly
  {
    var src, r := Source(q, fromIdle), Pass(q, fromIdle, answer);
    PassForwards(q, fromIdle, answer, |src|);
    assert src[..|src|] == src;
    assert fromIdle ==> q.onFly <= r.onFly[..|q.onFly|] <= r.onFly;
  }

  /** Going through the on-fly queue at all forwards what is in it first. */
  lemma {:induction false} FlyPassesCall(q: Queues, loops: nat, answer: nat -> Answer)
    requires loops >= 1
    ensures q.calls + q.onFly <= Iterate(FlyPass(answer), q, loops).calls
  {
    var before := Iterate(FlyPass(answer), q, loops - 1);
    PassCalls(before, false, answer);
    assert Iterate(FlyPass(answer), q, loops).calls == before.calls + before.onFly;
    if loops > 1 { FlyPassesCall(q, loops - 1, answer); }
  }

  lemma {:induction false} CalledSince(before: seq<Tx>, middle: seq<Tx>, fly: seq<Tx>, more: seq<Tx>, calls: seq<Tx>)
    requires fly <= more && before + middle + more <= calls
    ensures before + middle <= calls
    ensures forall tx :: tx in fly ==> tx in calls[|before|..]
  {
    forall tx | tx in fly ensures tx in calls[|before|..] {
      var k :| 0 <= k < |fly| && fly[k] == tx;
      assert calls[|before|..][|middle| + k] == (before + middle + more)[|before| + |middle| + k];
    }
  }

  /**
   Every round, whatever `Forward` answers, keeps all transactions (they end up idle, on
   fly or freed), first forwards the idle and the newly arrived ones in order, and forwards
   every transaction that was on fly at its start.
   */
  lemma {:induction false} RoundIsFair(q: Queues, batch: seq<Tx>, loops: nat, answer: nat -> Answer)
    requires loops >= 1
    ensures var r := Round(q, batch, loops, answer);
            && (forall tx :: Owned(r, tx) == Owned(q, tx) + multiset(batch)[tx])
            && q.calls + (q.idle + batch) <= r.calls
            && (forall tx :: tx in q.onFly ==> tx in r.calls[|q.calls|..])
  {
    var q1 := q.(idle := q.idle + batch);
    var q2 := Pass(q1, true, answer);
    var r := Iterate(FlyPass(answer), q2, loops);
    PassCalls(q1, true, answer);
    FlyPassesCall(q2, loops, answer);
    CalledSince(q.calls, q.idle + batch, q.onFly, q2.onFly, r.calls);
    forall tx ensures Owned(r, tx) == Owned(q, tx) + multiset(batch)[tx] {
      RoundConserves(q, batch, loops, answer, tx);
    }
  }

  // ---------------------------------------------------------------------------
  // The round on the circular queues
  // ---------------------------------------------------------------------------

  class TxProcessor {
    const idle: CQ.CircularQueue<Tx>
    const onFly: CQ.CircularQueue<Tx>
    var freed: seq<Tx>
    var calls: seq<Tx>

    ghost predicate Valid()
      reads this, idle, onFly
    {
      && idle.Valid() && onFly.Valid() && idle != onFly && idle.vec != onFly.vec
      && idle.capacity >= 2 && onFly.capacity >= 2
    }

    ghost function View(): Queues
      requires Valid()
      reads this, idle, onFly, idle.vec, onFly.vec
    {
      Queues(idle.Contents(), onFly.Contents(), freed, calls)
    }

    constructor ()
      ensures Valid() && View() == Queues([], [], [], [])
    {
      idle := new CQ.CircularQueue(100);
      onFly := new CQ.CircularQueue(100);
      freed, calls := [], [];
    }

    /** One iteration of either loop: peek, dequeue, forward, put away. */
    method ForwardOne(fromIdle: bool, a: Answer)
      requires Valid() && Source(View(), fromIdle) != []
      modifies this, idle, onFly, idle.vec, onFly.vec
      ensures Valid() && View() == ForwardFirst(old(View()), fromIdle, a)
      ensures (idle.vec == old(idle.vec) || fresh(idle.vec)) && (onFly.vec == old(onFly.vec) || fresh(onFly.vec))
    {
      var tx;
      if fromIdle {
        tx := idle.Peek();
        idle.Dequeue();
      } else {
        tx := onFly.Peek();
        onFly.Dequeue();
      }
      calls := calls + [tx];
      match a
      case Finished => freed := freed + [tx];
      case Idle => var _ := idle.EnqueueMoved(tx);
      case Busy => var _ := onFly.EnqueueMoved(tx);
    }

    /** One iteration of a loop that started from `start` and has made `done`. */
    method ForwardOnce(fromIdle: bool, answer: nat -> Answer, ghost start: Queues, ghost done: nat)
      requires done < |Source(start, fromIdle)|
      requires Valid() && View() == Iterate(Forwarder(fromIdle, answer), start, done)
      modifies this, idle, onFly, idle.vec, onFly.vec
      ensures Valid() && View() == Iterate(Forwarder(fromIdle, answer), start, done + 1)
      ensures (idle.vec == old(idle.vec) || fresh(idle.vec)) && (onFly.vec == old(onFly.vec) || fresh(onFly.vec))
    {
      NextForwarded(start, fromIdle, answer, done);
      ForwardOne(fromIdle, answer(|calls|));
    }

    method ForwardSome(fromIdle: bool, answer: nat -> Answer, size: nat)
      requires Valid() && size <= |Source(View(), fromIdle)|
      modifies this, idle, onFly, idle.vec, onFly.vec
      ensures Valid() && View() == Iterate(Forwarder(fromIdle, answer), old(View()), size)
      ensures (idle.vec == old(idle.vec) || fresh(idle.vec)) && (onFly.vec == old(onFly.vec) || fresh(onFly.vec))
    {
      ghost var start := View();
      var idx := 0;
      while idx < size
        invariant Valid() && 0 <= idx <= size
        invariant (idle.vec == old(idle.vec) || fresh(idle.vec)) && (onFly.vec == old(onFly.vec) || fresh(onFly.vec))
        invariant View() == Iterate(Forwarder(fromIdle, answer), start, idx)
      {
        ForwardOnce(fromIdle, answer, start, idx);
        idx := idx + 1;
      }
    }

    /** A loop over one of the queues, as long as it is when the loop starts. */
    method ForwardAll(fromIdle: bool, answer: nat -> Answer)
      requires Valid()
      modifies this, idle, onFly, idle.vec, onFly.vec
      ensures Valid() && View() == Pass(old(View()), fromIdle, answer)
      ensures (idle.vec == old(idle.vec) || fresh(idle.vec)) && (onFly.vec == old(onFly.vec) || fresh(onFly.vec))
    {
      var size := if fromIdle then idle.cnt else onFly.cnt;
      ForwardSome(fromIdle, answer, size);
    }

    /** The new transactions taken in this round join the idle queue. */
    method TakeIn(batch: seq<Tx>)
      requires Valid()
      modifies this, idle, idle.vec
      ensures Valid() && View() == old(View()).(idle := old(View()).idle + batch)
      ensures idle.vec == old(idle.vec) || fresh(idle.vec)
    {
      var k := 0;
      while k < |batch|
        invariant Valid() && 0 <= k <= |batch|
        invariant (idle.vec == old(idle.vec) || fresh(idle.vec)) && onFly.vec == old(onFly.vec)
        invariant View() == old(View()).(idle := old(View()).idle + batch[..k])
      {
        var _ := idle.EnqueueMoved(batch[k]);
        k := k + 1;
      }
      assert batch[..|batch|] == batch;
    }

    /** One of the passes over the on-fly queue. */
    method FlyOnce(answer: nat -> Answer, ghost start: Queues, ghost done: nat)
      requires Valid() && View() == Iterate(FlyPass(answer), start, done)
      modifies this, idle, onFly, idle.vec, onFly.vec
      ensures Valid() && View() == Iterate(FlyPass(answer), start, done + 1)
      ensures (idle.vec == old(idle.vec) || fresh(idle.vec)) && (onFly.vec == old(onFly.vec) || fresh(onFly.vec))
    {
      ForwardAll(false, answer);
    }

    method FlyLoops(loops: nat, answer: nat -> Answer)
      requires Valid()
      modifies this, idle, onFly, idle.vec, onFly.vec
      ensures Valid() && View() == Iterate(FlyPass(answer), old(View()), loops)
    {
      ghost var start := View();
      var loop := 0;
      while loop < loops
        invariant Valid() && 0 <= loop <= loops
        invariant (idle.vec == old(idle.vec) || fresh(idle.vec)) && (onFly.vec == old(onFly.vec) || fresh(onFly.vec))
        invariant View() == Iterate(FlyPass(answer), start, loop)
      {
        FlyOnce(answer, start, loop);
        loop := loop + 1;
      }
    }

    /** The round: arrivals, the idle queue, then `loops` times the on-fly queue. */
    method RunOneRound(batch: seq<Tx>, loops: nat, answer: nat -> Answer)
      requires Valid() && |batch| <= 100
      modifies this, idle, onFly, idle.vec, onFly.vec
      ensures Valid() && View() == Round(old(View()), batch, loops, answer)
    {
      TakeIn(batch);
      ForwardAll(true, answer);
      FlyLoops(loops, answer);
    }
  }
}
