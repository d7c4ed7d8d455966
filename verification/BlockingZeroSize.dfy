/**
 A blocking queue built with size 0: the run in which the queue inside it fails is also a
 run of queue and semaphore together, since every dequeue in it finds a signal to wait for.
 */
module BlockingZeroSize {
  import opened BlockingQueue
  import Q = SpscQueue
  import S = Semaphore
  import Z = SpscZeroSize
  import SpscTheorems

  ghost predicate Reach<T(!new)>(s0: State<T>, s: State<T>)
  {
    exists es :: Run(s0, es) == s
  }

  lemma {:induction false} Extend<T(!new)>(s0: State<T>, s: State<T>, e: Event<T>)
    requires Reach(s0, s)
    ensures Reach(s0, Next(s, e))
  {
    var es :| Run(s0, es) == s;
    assert (es + [e])[..|es|] == es;
    assert Run(s0, es + [e]) == Next(s, e);
  }

  /** An assertion fails in the consumer: in the queue, or because its dequeue found nothing. */
  ghost predicate ConsumerFails<T>(s: State<T>)
  {
    s.c.CAssertFailed? || s.q.c.CAssertFailed?
  }

  ghost predicate Fails<T(!new)>(s0: State<T>)
  {
    exists es :: ConsumerFails(Run(s0, es))
  }

  lemma {:induction false} BadFails<T(!new)>(s0: State<T>, s: State<T>)
    requires Reach(s0, s) && ConsumerFails(s)
    ensures Fails(s0)
  {
    var es :| Run(s0, es) == s;
    assert ConsumerFails(Run(s0, es));
  }

  /** No wait or signal is under way, and the semaphore counts the elements not yet being dequeued. */
  ghost predicate Linked<T>(s: State<T>)
  {
    && s.q.blocks != []
    && s.sem.w.WIdle? && s.sem.g.SIdle? && s.sem.tokens == 0
    && s.sem.count == Q.Resident(s.q) - (if s.c.CDequeuing? then 1 else 0) && s.sem.count >= 0
    && (if s.q.p.PIdle? then s.p.PReady? else s.p.PEnqueuing?)
    && (if s.q.c.CIdle? then s.c.CReady? else s.c.CDequeuing? && Taking(s.q.c))
  }

  /** Some run ends between waits and signals with the queue in this state, or some run fails. */
  ghost predicate Mirrored<T(!new)>(s0: State<T>, q: Q.State<T>)
  {
    Fails(s0) || exists s :: Reach(s0, s) && Linked(s) && s.q == q
  }

  lemma {:induction false} Mirror<T(!new)>(s0: State<T>, s: State<T>)
    requires Reach(s0, s) && (Linked(s) || ConsumerFails(s))
    ensures Mirrored(s0, s.q)
  {
    if ConsumerFails(s) { BadFails(s0, s); }
  }

  // ---------------------------------------------------------------------------
  // Every event of the queue is a run of the whole
  // ---------------------------------------------------------------------------

  lemma {:induction false} ProducerKeepsBlocks<T>(q: Q.State<T>, allocOk: bool, junk: T)
    requires q.blocks != []
    ensures Q.ProducerStep(q, allocOk, junk).blocks != []
  {
  }

  lemma {:induction false} ConsumerKeepsBlocks<T>(q: Q.State<T>)
    requires q.blocks != []
    ensures Q.ConsumerStep(q).blocks != []
  {
  }

  lemma {:induction false} EnqueueBegins<T(!new)>(s0: State<T>, s: State<T>, v: T, alloc: bool)
    requires Reach(s0, s) && Linked(s) && s.q.p.PIdle?
    ensures Mirrored(s0, Q.Next(s.q, Q.BeginEnqueue(v, alloc)))
  {
    var e := CallEnqueue(v, alloc);
    Extend(s0, s, e);
    assert Linked(Next(s, e));
    Mirror(s0, Next(s, e));
  }

  lemma {:induction false} Produces<T(!new)>(s0: State<T>, s: State<T>, allocOk: bool, junk: T)
    requires Reach(s0, s) && Linked(s) && !s.q.p.PIdle?
    ensures Mirrored(s0, Q.Next(s.q, Q.Produce(allocOk, junk)))
  {
    var e := StepProducer(allocOk, junk);
    var s1 := Next(s, e);
    Extend(s0, s, e);
    ProduceCounts(s.q, allocOk, junk);
    ProducerKeepsBlocks(s.q, allocOk, junk);
    if s1.p.PSignalling? {
      assert s1.sem == s.sem.(g := S.SAdd(1));
      Extend(s0, s1, e);
      assert Linked(Next(s1, e));
      Mirror(s0, Next(s1, e));
    } else {
      assert Linked(s1);
      Mirror(s0, s1);
    }
  }

  /** With an element there, a wait finds the count positive and takes it. */
  lemma {:induction false} DequeueBegins<T(!new)>(s0: State<T>, s: State<T>)
    requires Reach(s0, s) && Linked(s) && s.q.c.CIdle? && Q.Resident(s.q) >= 1
    ensures Mirrored(s0, Q.Next(s.q, Q.BeginDequeue(false)))
  {
    var s1 := Next(s, CallDequeue(Waiting));
    Extend(s0, s, CallDequeue(Waiting));
    assert s1 == s.(sem := s.sem.(w := S.WTryLoad(S.Blocking)), c := CWaiting(Waiting));
    var s2 := Next(s1, StepConsumer(false));
    Extend(s0, s1, StepConsumer(false));
    assert s2 == s1.(sem := s1.sem.(w := S.WTake));
    var s3 := Next(s2, StepConsumer(false));
    Extend(s0, s2, StepConsumer(false));
    assert s3.q == Q.Next(s.q, Q.BeginDequeue(false)) && s3.c == CDequeuing;
    assert s3.sem.count == s.sem.count - 1;
    Mirror(s0, s3);
  }

  lemma {:induction false} Consumes<T(!new)>(s0: State<T>, s: State<T>)
    requires Reach(s0, s) && Linked(s) && !s.q.c.CIdle?
    ensures Mirrored(s0, Q.Next(s.q, Q.Consume))
  {
    var s1 := Next(s, StepConsumer(false));
    Extend(s0, s, StepConsumer(false));
    TakeCounts(s.q);
    ConsumerKeepsBlocks(s.q);
    Mirror(s0, s1);
  }

  lemma {:induction false} EventMirrored<T(!new)>(s0: State<T>, q: Q.State<T>, e: Q.Event<T>)
    requires Mirrored(s0, q) && Z.Enabled(q, e)
    ensures Mirrored(s0, Q.Next(q, e))
  {
    if !Fails(s0) {
      var s :| Reach(s0, s) && Linked(s) && s.q == q;
      match e
      case BeginEnqueue(v, alloc) => EnqueueBegins(s0, s, v, alloc);
      case Produce(allocOk, junk) => Produces(s0, s, allocOk, junk);
      case BeginDequeue(_) => DequeueBegins(s0, s);
      case Consume => Consumes(s0, s);
    }
  }

  // ---------------------------------------------------------------------------
  // Size 0
  // ---------------------------------------------------------------------------

  lemma {:induction false} MirroredCovers<T(!new)>(s0: State<T>)
    requires Linked(s0)
    ensures Z.Covers(q => Mirrored(s0, q), s0.q)
  {
    assert Run(s0, []) == s0;
    Mirror(s0, s0);
    forall q, e | Mirrored(s0, q) && Z.Enabled(q, e) ensures Mirrored(s0, Q.Next(q, e)) {
      EventMirrored(s0, q, e);
    }
  }

  /** With size 0 there is a run in which an assertion of the consumer fails. */
  lemma {:induction false} ZeroSizeFails<T(!new)>(cfg: Q.Config, v: T) returns (es: seq<Event<T>>)
    requires Q.ValidConfig(cfg) && cfg.reserve == 0
    ensures ConsumerFails(Run(Init(cfg, v), es))
  {
    var s0 := Init(cfg, v);
    assert Q.MakeBlock(1, v, 0).data == [v];
    SpscTheorems.InitialBlockAt(1, 1, v);
    MirroredCovers(s0);
    var q := Z.BadStateCovered(q => Mirrored(s0, q), s0.q, v);
    assert Mirrored(s0, q) && q.c.CAssertFailed?;
    es :| ConsumerFails(Run(s0, es));
  }

  /** The blocking queue keeps its promises in every run exactly when it is built with a size of at least 1. */
  lemma {:induction false} DequeueSucceedsExactlyWhenSized<T(!new)>(cfg: Q.Config, junk: T)
    requires Q.ValidConfig(cfg)
    ensures (forall es :: Promised(Run(Init(cfg, junk), es))) <==> cfg.reserve >= 1
  {
    if cfg.reserve >= 1 {
      forall es ensures Promised(Run(Init(cfg, junk), es)) {
        InnerDequeueSucceeds(cfg, junk, es);
      }
    } else {
      var es := ZeroSizeFails(cfg, junk);
      assert !Promised(Run(Init(cfg, junk), es));
      assert exists bad :: !Promised(Run(Init(cfg, junk), bad));
    }
  }
}
