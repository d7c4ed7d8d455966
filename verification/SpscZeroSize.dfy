/**
 A queue built with size 0 starts from a block of one cell, which can hold nothing.
 Once the producer comes back to that block an element is lost and the consumer's
 assertion fails; with any other size this never happens.
 */
module SpscZeroSize {
  import opened SpscQueue
  import opened SpscInvariant
  import opened SpscTheorems

  /** What the code and its assertions promise of a state. */
  ghost predicate NothingWrong<T>(s: State<T>)
  {
    && !s.p.PAssertFailed? && !s.c.CAssertFailed?
    && s.h.deq <= s.h.enq
    && (s.c.CIdle? && s.c.last.FoundEmpty? ==> s.h.sawEmpty)
  }

  /** The shared variables and program counters of a state, and how many elements are in the queue. */
  ghost predicate Shows<T>(s: State<T>, blocks: seq<Block<T>>, frontBlock: nat, tailBlock: nat, largest: nat,
                           p: Producer<T>, c: Consumer<T>, resident: int)
  {
    && s.cfg.maxBlock >= 2 && Resident(s) == resident
    && s.blocks == blocks && s.frontBlock == frontBlock && s.tailBlock == tailBlock && s.largest == largest
    && s.p == p && s.c == c
  }

  /** The events of the run below: a call goes to its end, and dequeues begin with elements there. */
  ghost predicate Enabled<T>(s: State<T>, e: Event<T>)
  {
    match e
    case BeginEnqueue(_, _) => s.p.PIdle?
    case Produce(_, _) => !s.p.PIdle?
    case BeginDequeue(peek) => s.c.CIdle? && !peek && Resident(s) >= 1
    case Consume => !s.c.CIdle?
  }

  /** The set contains the state and everything that follows it through such events. */
  ghost predicate Covers<T(!new)>(reached: State<T> -> bool, s: State<T>)
  {
    && reached(s)
    && forall s', e {:trigger reached(Next(s', e))} :: reached(s') && Enabled(s', e) ==> reached(Next(s', e))
  }

  lemma {:induction false} Produced<T(!new)>(reached: State<T> -> bool, s: State<T>, v: T) returns (s': State<T>)
    requires Covers(reached, s) && !s.p.PIdle?
    ensures Covers(reached, s') && s' == Observe(ProducerStep(s, true, v))
  {
    s' := Next(s, Produce(true, v));
    assert reached(Next(s, Produce(true, v)));
  }

  lemma {:induction false} Consumed<T(!new)>(reached: State<T> -> bool, s: State<T>) returns (s': State<T>)
    requires Covers(reached, s) && !s.c.CIdle?
    ensures Covers(reached, s') && s' == Observe(ConsumerStep(s))
  {
    s' := Next(s, Consume);
    assert reached(Next(s, Consume));
  }

  // ---------------------------------------------------------------------------
  // The producer's and the consumer's ways on to the next block
  // ---------------------------------------------------------------------------

  /** A producer that finds the tail block full goes on to look at the block after it. */
  lemma {:induction false} SeesFull<T(!new)>(
    reached: State<T> -> bool, s: State<T>, v: T, bs: seq<Block<T>>, f: nat, t: nat, l: nat,
    r: EnqueueResult, c: Consumer<T>, n: int)
    returns (s': State<T>)
    requires Covers(reached, s) && t < |bs| && Shows(s, bs, f, t, l, PIdle(r), c, n)
    requires Wrap(bs[t].tail + 1, bs[t].size) == bs[t].localFront == bs[t].front
    ensures Covers(reached, s') && Shows(s', bs, f, t, l, PLoadFrontBlock(v, true, t, bs[t].next), c, n)
  {
    s' := Next(s, BeginEnqueue(v, true));
    assert reached(Next(s, BeginEnqueue(v, true)));
    assert Shows(s', bs, f, t, l, PLoadTailBlock(v, true), c, n);
    s' := Produced(reached, s', v);
    assert Shows(s', bs, f, t, l, PLoadLocalFront(v, true, t), c, n);
    s' := Produced(reached, s', v);
    assert Shows(s', bs, f, t, l, PLoadTail(v, true, t, bs[t].front), c, n);
    s' := StillFull(reached, s', v, bs, f, t, l, c, n);
  }

  lemma {:induction false} StillFull<T(!new)>(
    reached: State<T> -> bool, s: State<T>, v: T, bs: seq<Block<T>>, f: nat, t: nat, l: nat, c: Consumer<T>, n: int)
    returns (s': State<T>)
    requires Covers(reached, s) && t < |bs| && Shows(s, bs, f, t, l, PLoadTail(v, true, t, bs[t].front), c, n)
    requires Wrap(bs[t].tail + 1, bs[t].size) == bs[t].localFront == bs[t].front
    ensures Covers(reached, s') && Shows(s', bs, f, t, l, PLoadFrontBlock(v, true, t, bs[t].next), c, n)
  {
    s' := Produced(reached, s, v);
    assert Shows(s', bs, f, t, l, PLoadFront(v, true, t, bs[t].tail), c, n);
    s' := Produced(reached, s', v);
    assert bs[t := bs[t].(localFront := bs[t].front)] == bs;
    assert Shows(s', bs, f, t, l, PLoadNext(v, true, t), c, n);
    s' := Produced(reached, s', v);
  }

  /** A consumer that finds the front block empty goes on to the block after it. */
  lemma {:induction false} SeesEmpty<T(!new)>(
    reached: State<T> -> bool, s: State<T>, bs: seq<Block<T>>, f: nat, t: nat, l: nat,
    p: Producer<T>, r: DequeueResult<T>, n: int)
    returns (s': State<T>)
    requires Covers(reached, s) && f < |bs| && f != t && bs[f].next < |bs| && n >= 1
             && Shows(s, bs, f, t, l, p, CIdle(r), n)
    requires bs[f].front == bs[f].localTail == bs[f].tail
    ensures Covers(reached, s') && Shows(s', bs, f, t, l, p, CLoadNextTail(false, bs[f].next, bs[bs[f].next].front), n)
  {
    s' := Next(s, BeginDequeue(false));
    assert reached(Next(s, BeginDequeue(false)));
    assert Shows(s', bs, f, t, l, p, CLoadFrontBlock(false), n);
    s' := Consumed(reached, s');
    assert Shows(s', bs, f, t, l, p, CLoadLocalTail(false, f), n);
    s' := Consumed(reached, s');
    assert Shows(s', bs, f, t, l, p, CLoadFront(false, f, bs[f].tail), n);
    s' := StillEmpty(reached, s', bs, f, t, l, p, n);
    s' := MovesOn(reached, s', bs, f, t, l, p, n);
  }

  lemma {:induction false} StillEmpty<T(!new)>(
    reached: State<T> -> bool, s: State<T>, bs: seq<Block<T>>, f: nat, t: nat, l: nat, p: Producer<T>, n: int)
    returns (s': State<T>)
    requires Covers(reached, s) && f < |bs| && f != t && Shows(s, bs, f, t, l, p, CLoadFront(false, f, bs[f].tail), n)
    requires bs[f].front == bs[f].localTail == bs[f].tail
    ensures Covers(reached, s') && Shows(s', bs, f, t, l, p, CReloadFrontBlock(false), n)
  {
    s' := Consumed(reached, s);
    assert Shows(s', bs, f, t, l, p, CLoadTail(false, f, bs[f].front), n);
    s' := Consumed(reached, s');
    assert bs[f := bs[f].(localTail := bs[f].tail)] == bs;
    assert Shows(s', bs, f, t, l, p, CLoadTailBlock(false, f), n);
    s' := Consumed(reached, s');
  }

  lemma {:induction false} MovesOn<T(!new)>(
    reached: State<T> -> bool, s: State<T>, bs: seq<Block<T>>, f: nat, t: nat, l: nat, p: Producer<T>, n: int)
    returns (s': State<T>)
    requires Covers(reached, s) && f < |bs| && bs[f].next < |bs|
             && Shows(s, bs, f, t, l, p, CReloadFrontBlock(false), n)
    requires bs[f].front == bs[f].localTail == bs[f].tail
    ensures Covers(reached, s') && Shows(s', bs, f, t, l, p, CLoadNextTail(false, bs[f].next, bs[bs[f].next].front), n)
  {
    s' := Consumed(reached, s);
    assert Shows(s', bs, f, t, l, p, CReloadTail(false, f), n);
    s' := Consumed(reached, s');
    assert bs[f := bs[f].(localTail := bs[f].tail)] == bs;
    assert Shows(s', bs, f, t, l, p, CReloadFront(false, f, bs[f].tail), n);
    s' := Consumed(reached, s');
    assert Shows(s', bs, f, t, l, p, CLoadNext(false, f), n);
    s' := FollowsLink(reached, s', bs, f, t, l, p, n);
  }

  lemma {:induction false} FollowsLink<T(!new)>(
    reached: State<T> -> bool, s: State<T>, bs: seq<Block<T>>, f: nat, t: nat, l: nat, p: Producer<T>, n: int)
    returns (s': State<T>)
    requires Covers(reached, s) && f < |bs| && bs[f].next < |bs| && Shows(s, bs, f, t, l, p, CLoadNext(false, f), n)
    ensures Covers(reached, s') && Shows(s', bs, f, t, l, p, CLoadNextTail(false, bs[f].next, bs[bs[f].next].front), n)
  {
    s' := Consumed(reached, s);
    assert Shows(s', bs, f, t, l, p, CLoadNextFront(false, bs[f].next), n);
    s' := Consumed(reached, s');
  }

  // ---------------------------------------------------------------------------
  // The run
  // ---------------------------------------------------------------------------

  /** The two blocks after the first enqueue: one cell and two cells. */
  ghost function Two<T>(v: T, front: nat, localTail: nat): seq<Block<T>>
  {
    [Block(1, [v], 0, 0, 0, 0, 1), Block(2, [v, v], front, 1, localTail, 0, 0)]
  }

  lemma {:induction false} FirstEnqueue<T(!new)>(reached: State<T> -> bool, s: State<T>, v: T) returns (s': State<T>)
    requires Covers(reached, s)
    requires Shows(s, [Block(1, [v], 0, 0, 0, 0, 0)], 0, 0, 1, PIdle(EnqueueNotCalled), CIdle(DequeueNotCalled), 0)
    ensures Covers(reached, s') && Shows(s', Two(v, 0, 1), 0, 1, 2, PIdle(Stored), CIdle(DequeueNotCalled), 1)
  {
    var bs := [Block(1, [v], 0, 0, 0, 0, 0)];
    s' := SeesFull(reached, s, v, bs, 0, 0, 1, EnqueueNotCalled, CIdle(DequeueNotCalled), 0);
    s' := Produced(reached, s', v);
    assert Shows(s', bs, 0, 0, 1, PAllocate(v, 0), CIdle(DequeueNotCalled), 0);
    s' := Produced(reached, s', v);
    assert MakeBlock(2, v, 0).data == [v, v] == [v, v][0 := v];
    s' := LinkIn(reached, s', v);
  }

  lemma {:induction false} LinkIn<T(!new)>(reached: State<T> -> bool, s: State<T>, v: T) returns (s': State<T>)
    requires Covers(reached, s)
    requires Shows(s, [Block(1, [v], 0, 0, 0, 0, 0)], 0, 0, 2,
                   PLinkNext(v, 0, Block(2, [v, v], 0, 1, 1, 0, 0)), CIdle(DequeueNotCalled), 0)
    ensures Covers(reached, s') && Shows(s', Two(v, 0, 1), 0, 1, 2, PIdle(Stored), CIdle(DequeueNotCalled), 1)
  {
    var bs := [Block(1, [v], 0, 0, 0, 0, 0)];
    s' := Produced(reached, s, v);
    assert Shows(s', bs, 0, 0, 2, PStoreNext(v, 0, Block(2, [v, v], 0, 1, 1, 0, 0)), CIdle(DequeueNotCalled), 0);
    s' := Produced(reached, s', v);
    assert Shows(s', Two(v, 0, 1), 0, 0, 2, PStoreTailBlock(v, 1), CIdle(DequeueNotCalled), 0);
    s' := Produced(reached, s', v);
  }

  /** The consumer reaches the second block. */
  lemma {:induction false} ReachesSecond<T(!new)>(reached: State<T> -> bool, s: State<T>, v: T) returns (s': State<T>)
    requires Covers(reached, s) && Shows(s, Two(v, 0, 1), 0, 1, 2, PIdle(Stored), CIdle(DequeueNotCalled), 1)
    ensures Covers(reached, s') && Shows(s', Two(v, 0, 1), 1, 1, 2, PIdle(Stored), CTake(false, 1, 0), 1)
  {
    s' := SeesEmpty(reached, s, Two(v, 0, 1), 0, 1, 2, PIdle(Stored), DequeueNotCalled, 1);
    s' := Consumed(reached, s');
    assert Shows(s', Two(v, 0, 1), 0, 1, 2, PIdle(Stored), CStoreFrontBlock(1, 0), 1);
    s' := Consumed(reached, s');
  }

  /** Before it has taken the element there the producer finds that block full and moves on to the one-cell block. */
  lemma {:induction false} SecondEnqueue<T(!new)>(reached: State<T> -> bool, s: State<T>, v: T) returns (s': State<T>)
    requires Covers(reached, s) && Shows(s, Two(v, 0, 1), 1, 1, 2, PIdle(Stored), CTake(false, 1, 0), 1)
    ensures Covers(reached, s') && Shows(s', Two(v, 0, 1), 1, 1, 2, PReloadNext(v, 1), CTake(false, 1, 0), 1)
  {
    s' := SeesFull(reached, s, v, Two(v, 0, 1), 1, 1, 2, Stored, CTake(false, 1, 0), 1);
    s' := Produced(reached, s', v);
  }

  lemma {:induction false} OneCellLooksFree<T(!new)>(
    reached: State<T> -> bool, s: State<T>, v: T)
    returns (s': State<T>)
    requires Covers(reached, s) && Shows(s, Two(v, 0, 1), 1, 1, 2, PReloadNext(v, 1), CTake(false, 1, 0), 1)
    ensures Covers(reached, s') && Shows(s', Two(v, 0, 1), 1, 1, 2, PConstructNext(v, 0, 0), CTake(false, 1, 0), 1)
  {
    s' := Produced(reached, s, v);
    assert Shows(s', Two(v, 0, 1), 1, 1, 2, PLoadNextFront(v, 0), CTake(false, 1, 0), 1);
    s' := Produced(reached, s', v);
    assert Shows(s', Two(v, 0, 1), 1, 1, 2, PLoadNextTail(v, 0, 0), CTake(false, 1, 0), 1);
    s' := Produced(reached, s', v);
  }

  /** Storing into the only cell leaves the block empty. */
  lemma {:induction false} ElementLost<T(!new)>(reached: State<T> -> bool, s: State<T>, v: T) returns (s': State<T>)
    requires Covers(reached, s) && Shows(s, Two(v, 0, 1), 1, 1, 2, PConstructNext(v, 0, 0), CTake(false, 1, 0), 1)
    ensures Covers(reached, s') && Shows(s', Two(v, 0, 1), 1, 0, 2, PIdle(Stored), CTake(false, 1, 0), 2)
  {
    assert [v][0 := v] == [v];
    s' := Produced(reached, s, v);
    assert Shows(s', Two(v, 0, 1), 1, 1, 2, PStoreNextTail(v, 0, 0), CTake(false, 1, 0), 1);
    s' := Produced(reached, s', v);
    assert Shows(s', Two(v, 0, 1), 1, 1, 2, PStoreTailBlock(v, 0), CTake(false, 1, 0), 1);
    s' := Produced(reached, s', v);
  }

  lemma {:induction false} AssertionFails<T(!new)>(reached: State<T> -> bool, s: State<T>, v: T) returns (s': State<T>)
    requires Covers(reached, s) && Shows(s, Two(v, 0, 1), 1, 0, 2, PIdle(Stored), CTake(false, 1, 0), 2)
    ensures Covers(reached, s') && s'.c.CAssertFailed?
  {
    s' := Consumed(reached, s);
    assert Shows(s', Two(v, 0, 1), 1, 0, 2, PIdle(Stored), CStoreFront(1, 0, v), 2);
    s' := Consumed(reached, s');
    assert Shows(s', Two(v, 1, 1), 1, 0, 2, PIdle(Stored), CIdle(Got(v)), 1);
    s' := SeesEmpty(reached, s', Two(v, 1, 1), 1, 0, 2, PIdle(Stored), Got(v), 1);
    s' := Consumed(reached, s');
  }

  lemma {:induction false} BadStateCovered<T(!new)>(reached: State<T> -> bool, s: State<T>, v: T) returns (s': State<T>)
    requires Covers(reached, s)
    requires Shows(s, [Block(1, [v], 0, 0, 0, 0, 0)], 0, 0, 1, PIdle(EnqueueNotCalled), CIdle(DequeueNotCalled), 0)
    ensures Covers(reached, s') && s'.c.CAssertFailed?
  {
    s' := FirstEnqueue(reached, s, v);
    s' := ReachesSecond(reached, s', v);
    s' := SecondEnqueue(reached, s', v);
    s' := OneCellLooksFree(reached, s', v);
    s' := ElementLost(reached, s', v);
    s' := AssertionFails(reached, s', v);
  }

  ghost function ReachedFrom<T(!new)>(s0: State<T>): State<T> -> bool
  {
    s => exists es :: Run(s0, es) == s
  }

  lemma {:induction false} ReachedIsClosed<T(!new)>(s0: State<T>)
    ensures Covers(ReachedFrom(s0), s0)
  {
    assert Run(s0, []) == s0;
    forall s, e | ReachedFrom(s0)(s) ensures ReachedFrom(s0)(Next(s, e)) {
      var es :| Run(s0, es) == s;
      assert (es + [e])[..|es|] == es;
      assert Run(s0, es + [e]) == Next(s, e);
    }
  }

  /** With size 0 there is a run in which the consumer's assertion fails. */
  lemma {:induction false} ZeroSizeFails<T(!new)>(cfg: Config, v: T) returns (es: seq<Event<T>>)
    requires ValidConfig(cfg) && cfg.reserve == 0
    ensures Run(Init(cfg, v), es).c.CAssertFailed?
  {
    var s0 := Init(cfg, v);
    assert MakeBlock(1, v, 0).data == [v];
    InitialBlockAt(1, 1, v);
    ReachedIsClosed(s0);
    var s := BadStateCovered(ReachedFrom(s0), s0, v);
    es :| Run(s0, es) == s;
  }

  /** The queue keeps its promises in every run exactly when it is built with a size of at least 1. */
  lemma {:induction false} FifoExactlyWhenSized<T(!new)>(cfg: Config, junk: T)
    requires ValidConfig(cfg)
    ensures (forall es :: NothingWrong(Run(Init(cfg, junk), es))) <==> cfg.reserve >= 1
  {
    if cfg.reserve >= 1 {
      forall es ensures NothingWrong(Run(Init(cfg, junk), es)) {
        QueueIsFifo(cfg, junk, es);
      }
    } else {
      var es := ZeroSizeFails(cfg, junk);
    }
  }
}
