/**
 `BlockingReaderWriterQueue`: the queue and the semaphore run together, at the
 granularity of their own steps.
 */
module BlockingQueue {
  import Q = SpscQueue
  import I = SpscInvariant
  import S = Semaphore
  import SpscSteps
  import SpscTheorems

  /** `Waiting` and `Timed` are `wait_dequeue` and `wait_dequeue_timed`; `Trying` is `try_dequeue` or `pop`. */
  datatype Kind = Trying | Timed | Waiting

  datatype ProducerPhase = PReady(ok: bool) | PEnqueuing | PSignalling

  datatype ConsumerPhase =
    | CReady(ok: bool)
    | CWaiting(kind: Kind)
    | CDequeuing
    | CPeeking
    | CAssertFailed

  datatype State<T> = State(q: Q.State<T>, sem: S.State, p: ProducerPhase, c: ConsumerPhase)

  datatype Event<T> =
    | CallEnqueue(v: T, alloc: bool)
    | StepProducer(allocOk: bool, junk: T)
    | CallDequeue(kind: Kind)
    | CallPeek
    | StepConsumer(giveUp: bool)

  function Init<T>(cfg: Q.Config, junk: T): State<T>
    requires Q.ValidConfig(cfg)
  {
    State(Q.Init(cfg, junk), S.Init(0), PReady(false), CReady(false))
  }

  function ModeOf(kind: Kind): S.Mode
  {
    if kind == Trying then S.TryOnly else S.Blocking
  }

  /** One step inside `inner.enqueue`; a success is followed by `sema->signal()`. */
  function EnqueueStep<T>(s: State<T>, allocOk: bool, junk: T): State<T>
  {
    var q := Q.Next(s.q, Q.Produce(allocOk, junk));
    if !q.p.PIdle? then s.(q := q)
    else if q.p.last == Q.Stored then s.(q := q, sem := S.Next(s.sem, S.BeginSignal(1)), p := PSignalling)
    else s.(q := q, p := PReady(false))
  }

  function SignalStep<T>(s: State<T>): State<T>
  {
    var sem := S.Next(s.sem, S.Signal);
    s.(sem := sem, p := if sem.g.SIdle? then PReady(true) else PSignalling)
  }

  /** One step inside `sema->wait()`; `wait_dequeue` waits again until it succeeds. */
  function WaitStep<T>(s: State<T>, kind: Kind, giveUp: bool): State<T>
  {
    var sem := S.Next(s.sem, S.Wait(giveUp));
    if !sem.w.WIdle? then s.(sem := sem)
    else if sem.w.last then s.(sem := sem, q := Q.Next(s.q, Q.BeginDequeue(false)), c := CDequeuing)
    else if kind == Waiting then s.(sem := S.Next(sem, S.BeginWait(ModeOf(kind))))
    else s.(sem := sem, c := CReady(false))
  }

  /** One step inside `inner.try_dequeue`, which must succeed. */
  function DequeueStep<T>(s: State<T>): State<T>
  {
    var q := Q.Next(s.q, Q.Consume);
    if !q.c.CIdle? then s.(q := q)
    else s.(q := q, c := if q.c.last.Got? then CReady(true) else CAssertFailed)
  }

  function PeekStep<T>(s: State<T>): State<T>
  {
    var q := Q.Next(s.q, Q.Consume);
    s.(q := q, c := if q.c.CIdle? then CReady(q.c.last.Saw?) else CPeeking)
  }

  function Next<T>(s: State<T>, e: Event<T>): State<T>
  {
    match e
    case CallEnqueue(v, alloc) =>
      if s.p.PReady? then s.(q := Q.Next(s.q, Q.BeginEnqueue(v, alloc)), p := PEnqueuing) else s
    case StepProducer(allocOk, junk) =>
      (match s.p
       case PReady(_) => s
       case PEnqueuing => EnqueueStep(s, allocOk, junk)
       case PSignalling => SignalStep(s))
    case CallDequeue(kind) =>
      if s.c.CReady? then s.(sem := S.Next(s.sem, S.BeginWait(ModeOf(kind))), c := CWaiting(kind)) else s
    case CallPeek =>
      if s.c.CReady? then s.(q := Q.Next(s.q, Q.BeginDequeue(true)), c := CPeeking) else s
    case StepConsumer(giveUp) =>
      (match s.c
       case CReady(_) => s
       case CWaiting(kind) => WaitStep(s, kind, giveUp)
       case CDequeuing => DequeueStep(s)
       case CPeeking => PeekStep(s)
       case CAssertFailed => s)
  }

  function Run<T>(s: State<T>, es: seq<Event<T>>): State<T>
    decreases |es|
  {
    if es == [] then s else Next(Run(s, es[..|es| - 1]), es[|es| - 1])
  }

  // ---------------------------------------------------------------------------
  // The invariant: permits and elements are counted together
  // ---------------------------------------------------------------------------

  /** The consumer is inside a call that is not a peek. */
  predicate Taking<T>(c: Q.Consumer<T>)
  {
    match c
    case CIdle(_) => false
    case CPeekNext(_, _) => false
    case CStoreFrontBlock(_, _) => true
    case CStoreFront(_, _, _) => true
    case CAssertFailed => false
    case _ => !c.peek
  }

  /** The consumer is inside a peek. */
  predicate Peeking<T>(c: Q.Consumer<T>)
  {
    match c
    case CIdle(_) => false
    case CPeekNext(_, _) => true
    case CStoreFrontBlock(_, _) => false
    case CStoreFront(_, _, _) => false
    case CAssertFailed => false
    case _ => c.peek
  }

  ghost predicate Phases<T>(s: State<T>)
  {
    && (s.p.PReady? ==> s.q.p.PIdle? && s.sem.g.SIdle?)
    && (s.p.PEnqueuing? ==> !s.q.p.PIdle? && s.sem.g.SIdle?)
    && (s.p.PSignalling? ==> s.q.p.PIdle? && (s.sem.g == S.SAdd(1) || s.sem.g.SPost?))
    && (s.c.CReady? ==> s.q.c.CIdle? && s.sem.w.WIdle?)
    && (s.c.CWaiting? ==> s.q.c.CIdle? && !s.sem.w.WIdle?)
    && (s.c.CDequeuing? ==> Taking(s.q.c) && s.sem.w.WIdle? && !s.q.h.sawEmpty)
    && (s.c.CPeeking? ==> Peeking(s.q.c) && s.sem.w.WIdle?)
    && !s.c.CAssertFailed?
  }

  /** Every element enqueued has been signalled or is about to be; every wait that succeeded
      has taken its element or is about to. */
  ghost predicate Counted<T>(s: State<T>)
  {
    && |s.q.h.enq| == s.sem.signals + (if s.sem.g.SAdd? then 1 else 0)
    && s.sem.waits == |s.q.h.deq| + (if s.c.CDequeuing? then 1 else 0)
  }

  ghost predicate Links<T>(s: State<T>)
  {
    S.Inv(s.sem) && Phases(s) && Counted(s)
  }

  /** What the queue itself guarantees and the composition relies on. */
  ghost predicate QueueFacts<T>(q: Q.State<T>)
  {
    && q.blocks != [] && !q.p.PAssertFailed? && !q.c.CAssertFailed?
    && (q.c.CIdle? && q.c.last.FoundEmpty? ==> q.h.sawEmpty)
    && (Q.Resident(q) == 0 ==> q.h.sawEmpty)
  }

  lemma {:induction false} QueueGives<T>(q: Q.State<T>)
    requires I.Inv(q)
    ensures QueueFacts(q)
  {
  }

  lemma {:induction false} ElementThere<T>(s: State<T>)
    requires S.Inv(s.sem) && Counted(s)
    ensures Q.Resident(s.q) >= if s.c.CDequeuing? then 1 else 0
  {
  }

  // ---------------------------------------------------------------------------
  // What one step of the queue adds to the histories
  // ---------------------------------------------------------------------------

  /** On the way to the end of the tail block, rather than past it. */
  predicate InTailBlock<T>(p: Q.Producer<T>)
  {
    p.PIdle? || p.PLoadTailBlock? || p.PLoadLocalFront? || p.PLoadTail? || p.PLoadFront? || p.PConstruct?
    || p.PStoreTail?
    || p.PLoadNext? || p.PLoadFrontBlock?
  }

  /** What a step of the producer leaves alone, and that it enqueues when it reports success. */
  ghost predicate Produces<T>(q: Q.State<T>, q': Q.State<T>)
  {
    && q'.c == q.c && q'.h.deq == q.h.deq && q'.h.sawEmpty == q.h.sawEmpty
    && |q'.h.enq| == |q.h.enq| + (if q'.p == Q.PIdle(Q.Stored) then 1 else 0)
  }

  lemma {:induction false} TailBlockCounts<T>(q: Q.State<T>, allocOk: bool, junk: T)
    requires q.blocks != [] && !q.p.PIdle? && InTailBlock(q.p)
    ensures Produces(q, Q.ProducerStep(q, allocOk, junk))
  {
  }

  lemma {:induction false} NextBlockCounts<T>(q: Q.State<T>, allocOk: bool, junk: T)
    requires q.blocks != [] && !InTailBlock(q.p)
    ensures Produces(q, Q.ProducerStep(q, allocOk, junk))
  {
  }

  lemma {:induction false} ProduceCounts<T>(q: Q.State<T>, allocOk: bool, junk: T)
    requires q.blocks != [] && !q.p.PIdle?
    ensures var q' := Q.Next(q, Q.Produce(allocOk, junk));
            && q'.c == q.c && q'.h.deq == q.h.deq
            && |q'.h.enq| == |q.h.enq| + (if q'.p == Q.PIdle(Q.Stored) then 1 else 0)
            && q'.h.sawEmpty == (q.h.sawEmpty || Q.Resident(q') == 0)
  {
    if InTailBlock(q.p) { TailBlockCounts(q, allocOk, junk); } else { NextBlockCounts(q, allocOk, junk); }
    assert Q.Next(q, Q.Produce(allocOk, junk)) == Q.Observe(Q.ProducerStep(q, allocOk, junk));
  }

  lemma {:induction false} TakeCounts<T>(q: Q.State<T>)
    requires q.blocks != [] && Taking(q.c)
    ensures var q' := Q.Next(q, Q.Consume);
            && q'.p == q.p && q'.h.enq == q.h.enq
            && (Taking(q'.c) || (q'.c.CIdle? && (q'.c.last.Got? || q'.c.last.FoundEmpty?)) || q'.c.CAssertFailed?)
            && |q'.h.deq| == |q.h.deq| + (if q'.c.CIdle? && q'.c.last.Got? then 1 else 0)
            && q'.h.sawEmpty == (q.h.sawEmpty || Q.Resident(q') == 0)
  {
  }

  lemma {:induction false} PeekCounts<T>(q: Q.State<T>)
    requires q.blocks != [] && Peeking(q.c)
    ensures var q' := Q.Next(q, Q.Consume);
            && q'.p == q.p && q'.h.enq == q.h.enq && q'.h.deq == q.h.deq
            && (Peeking(q'.c) || q'.c.CIdle? || q'.c.CAssertFailed?)
  {
  }

  lemma {:induction false} WaitCounts(sem: S.State, giveUp: bool)
    requires !sem.w.WIdle?
    ensures var sem' := S.Next(sem, S.Wait(giveUp));
            && sem'.g == sem.g && sem'.signals == sem.signals
            && sem'.waits == sem.waits + (if sem'.w == S.WIdle(true) then 1 else 0)
  {
  }

  // ---------------------------------------------------------------------------
  // Every step keeps the links between the queue and the semaphore
  // ---------------------------------------------------------------------------

  lemma {:induction false} EnqueueStepKeeps<T>(s: State<T>, allocOk: bool, junk: T)
    requires Links(s) && QueueFacts(s.q) && s.p.PEnqueuing?
    requires QueueFacts(Q.Next(s.q, Q.Produce(allocOk, junk)))
    ensures Links(EnqueueStep(s, allocOk, junk))
  {
    ProduceCounts(s.q, allocOk, junk);
    S.NextKeeps(s.sem, S.BeginSignal(1));
    ElementThere(s);
  }

  lemma {:induction false} SignalStepKeeps<T>(s: State<T>)
    requires Links(s) && s.p.PSignalling?
    ensures Links(SignalStep(s))
  {
    S.NextKeeps(s.sem, S.Signal);
  }

  lemma {:induction false} WaitStepKeeps<T>(s: State<T>, kind: Kind, giveUp: bool)
    requires Links(s) && s.c == CWaiting(kind)
    ensures Links(WaitStep(s, kind, giveUp))
  {
    var sem := S.Next(s.sem, S.Wait(giveUp));
    S.NextKeeps(s.sem, S.Wait(giveUp));
    WaitCounts(s.sem, giveUp);
    S.NextKeeps(sem, S.BeginWait(ModeOf(kind)));
  }

  lemma {:induction false} DequeueStepKeeps<T>(s: State<T>)
    requires Links(s) && QueueFacts(s.q) && s.c.CDequeuing?
    requires QueueFacts(Q.Next(s.q, Q.Consume))
    ensures Links(DequeueStep(s))
  {
    TakeCounts(s.q);
    ElementThere(s);
  }

  lemma {:induction false} PeekStepKeeps<T>(s: State<T>)
    requires Links(s) && QueueFacts(s.q) && s.c.CPeeking?
    requires QueueFacts(Q.Next(s.q, Q.Consume))
    ensures Links(PeekStep(s))
  {
    PeekCounts(s.q);
  }

  lemma {:induction false} CallsKeep<T>(s: State<T>, e: Event<T>)
    requires Links(s) && QueueFacts(s.q) && (e.CallEnqueue? || e.CallDequeue? || e.CallPeek?)
    ensures Links(Next(s, e))
  {
    ElementThere(s);
  }

  /** A step of the whole is at most one step of the queue. */
  lemma {:induction false} QueueSteps<T>(s: State<T>, e: Event<T>) returns (f: Q.Event<T>)
    ensures Next(s, e).q == s.q || Next(s, e).q == Q.Next(s.q, f)
    ensures e.StepProducer? && s.p.PEnqueuing? ==> f == Q.Produce(e.allocOk, e.junk)
    ensures e.StepConsumer? && (s.c.CDequeuing? || s.c.CPeeking?) ==> f == Q.Consume
  {
    match e
    case CallEnqueue(v, alloc) => f := Q.BeginEnqueue(v, alloc);
    case StepProducer(allocOk, junk) => f := Q.Produce(allocOk, junk);
    case CallDequeue(_) => f := Q.Consume;
    case CallPeek => f := Q.BeginDequeue(true);
    case StepConsumer(_) => f := if s.c.CWaiting? then Q.BeginDequeue(false) else Q.Consume;
  }

  lemma {:induction false} NextKeepsLinks<T>(s: State<T>, e: Event<T>, f: Q.Event<T>)
    requires Links(s) && QueueFacts(s.q) && QueueFacts(Q.Next(s.q, f))
    requires e.StepProducer? && s.p.PEnqueuing? ==> f == Q.Produce(e.allocOk, e.junk)
    requires e.StepConsumer? && (s.c.CDequeuing? || s.c.CPeeking?) ==> f == Q.Consume
    ensures Links(Next(s, e))
  {
    match e
    case StepProducer(allocOk, junk) =>
      if s.p.PEnqueuing? {
        EnqueueStepKeeps(s, allocOk, junk);
      } else if s.p.PSignalling? {
        SignalStepKeeps(s);
      }
    case StepConsumer(giveUp) =>
      if s.c.CWaiting? {
        WaitStepKeeps(s, s.c.kind, giveUp);
      } else if s.c.CDequeuing? {
        DequeueStepKeeps(s);
      } else if s.c.CPeeking? {
        PeekStepKeeps(s);
      }
    case _ => CallsKeep(s, e);
  }

  lemma {:induction false} NextKeeps<T>(s: State<T>, e: Event<T>)
    requires I.Inv(s.q) && Links(s)
    ensures I.Inv(Next(s, e).q) && Links(Next(s, e))
  {
    var f := QueueSteps(s, e);
    SpscSteps.NextKeeps(s.q, f);
    QueueGives(s.q);
    QueueGives(Q.Next(s.q, f));
    NextKeepsLinks(s, e, f);
  }

  lemma {:induction false} RunKeeps<T>(cfg: Q.Config, junk: T, es: seq<Event<T>>)
    requires Q.ValidConfig(cfg) && cfg.reserve >= 1
    ensures I.Inv(Run(Init(cfg, junk), es).q) && Links(Run(Init(cfg, junk), es))
  {
    if es == [] {
      SpscTheorems.InitInv(cfg, junk);
    } else {
      RunKeeps(cfg, junk, es[..|es| - 1]);
      NextKeeps(Run(Init(cfg, junk), es[..|es| - 1]), es[|es| - 1]);
    }
  }

  lemma {:induction false} LinksGive<T>(s: State<T>)
    requires Links(s) && QueueFacts(s.q)
    ensures !s.c.CAssertFailed? && !s.q.c.CAssertFailed? && !s.q.p.PAssertFailed?
    ensures s.c.CDequeuing? ==> Q.Resident(s.q) >= 1
    ensures |s.q.h.deq| <= s.sem.waits <= s.sem.signals <= |s.q.h.enq|
    ensures s.p.PReady? && s.c.CReady? ==> s.sem.count == Q.Resident(s.q) && s.sem.tokens == 0
  {
    ElementThere(s);
  }

  /**
   The dequeue that follows a successful wait succeeds, so neither of the assertions that it
   does fails; no more elements are taken than were signalled, and when both threads are
   between calls the semaphore counts the resident elements exactly.
   */
  ghost predicate Promised<T>(s: State<T>)
  {
    && !s.c.CAssertFailed? && !s.q.c.CAssertFailed? && !s.q.p.PAssertFailed?
    && (s.c.CDequeuing? ==> Q.Resident(s.q) >= 1)
    && |s.q.h.deq| <= s.sem.waits <= s.sem.signals <= |s.q.h.enq|
    && (s.p.PReady? && s.c.CReady? ==> s.sem.count == Q.Resident(s.q) && s.sem.tokens == 0)
  }

  /** In every interleaving of one producer and one consumer, with any mix of blocking, timed and polling calls. */
  lemma {:induction false} InnerDequeueSucceeds<T>(cfg: Q.Config, junk: T, es: seq<Event<T>>)
    requires Q.ValidConfig(cfg) && cfg.reserve >= 1
    ensures Promised(Run(Init(cfg, junk), es))
  {
    RunKeeps(cfg, junk, es);
    QueueGives(Run(Init(cfg, junk), es).q);
    LinksGive(Run(Init(cfg, junk), es));
  }
}
