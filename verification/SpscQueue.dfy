/**
 The lock-free single-producer/single-consumer queue of include/readerwriterqueue.h
 as a two-process machine.

 Every event is one load or one store of a variable of the queue, so a list of events
 is an arbitrary interleaving of one producer and one consumer.  Loads and stores are
 taken to be sequentially consistent; the fences of the original are erased.
 */
module SpscQueue {

  // ---------------------------------------------------------------------------
  // Blocks
  // ---------------------------------------------------------------------------

  /** A ring buffer.  `next` is the number of the block it links to. */
  datatype Block<T> = Block(size: nat, data: seq<T>, front: nat, tail: nat,
                            localTail: nat, localFront: nat, next: nat)

  /** `i & sizeMask` for an index that is at most one past the end; sizes are powers of two. */
  function Wrap(i: nat, size: nat): nat
  {
    if i < size then i else i - size
  }

  /** The number of steps from index `a` forward to index `b`. */
  function Dist(a: nat, b: nat, size: nat): int
  {
    if a <= b then b - a else b + size - a
  }

  predicate IsPow2(n: nat)
  {
    n == 1 || (n > 1 && n % 2 == 0 && IsPow2(n / 2))
  }

  /** The least `p * 2^k` that is at least `x`. */
  function DoubleUpTo(x: nat, p: nat): (r: nat)
    requires p >= 1 && IsPow2(p)
    ensures x <= r && IsPow2(r)
    ensures r == p || r < 2 * x
    decreases x - p
  {
    if x <= p then p else DoubleUpTo(x, 2 * p)
  }

  /** `ceilToPow2`: the least power of two that is at least `x`. */
  function CeilToPow2(x: nat): (r: nat)
    ensures x <= r && IsPow2(r)
    ensures r == 1 || r < 2 * x
  {
    DoubleUpTo(x, 1)
  }

  /** `make_block`: raw memory holds arbitrary bits, here `junk`. */
  function MakeBlock<T>(size: nat, junk: T, next: nat): Block<T>
  {
    Block(size, seq(size, _ => junk), 0, 0, 0, 0, next)
  }

  // ---------------------------------------------------------------------------
  // Program counters; the arguments are the live local variables
  // ---------------------------------------------------------------------------

  datatype EnqueueResult = EnqueueNotCalled | Stored | RefusedNoRoom | RefusedNoMemory

  datatype Producer<T> =
    | PIdle(last: EnqueueResult)
    | PLoadTailBlock(v: T, alloc: bool)
    | PLoadLocalFront(v: T, alloc: bool, tb: nat)
    | PLoadTail(v: T, alloc: bool, tb: nat, bf: nat)
    | PLoadFront(v: T, alloc: bool, tb: nat, bt: nat)
    | PConstruct(v: T, tb: nat, bt: nat)
    | PStoreTail(v: T, tb: nat, bt: nat)
    | PLoadNext(v: T, alloc: bool, tb: nat)
    | PLoadFrontBlock(v: T, alloc: bool, tb: nat, nx: nat)
    | PReloadNext(v: T, tb: nat)
    | PLoadNextFront(v: T, nb: nat)
    | PLoadNextTail(v: T, nb: nat, nf: nat)
    | PConstructNext(v: T, nb: nat, nt: nat)
    | PStoreNextTail(v: T, nb: nat, nt: nat)
    | PStoreTailBlock(v: T, nb: nat)
    | PAllocate(v: T, tb: nat)
    | PLinkNext(v: T, tb: nat, blk: Block<T>)
    | PStoreNext(v: T, tb: nat, blk: Block<T>)
    | PAssertFailed

  /** `peek` tells a call of `peek` from a call of `try_dequeue` (`pop` is `try_dequeue`
      with its result dropped). */
  datatype DequeueResult<T> = DequeueNotCalled | Got(v: T) | Saw(v: T) | FoundEmpty

  datatype Consumer<T> =
    | CIdle(last: DequeueResult<T>)
    | CLoadFrontBlock(peek: bool)
    | CLoadLocalTail(peek: bool, fb: nat)
    | CLoadFront(peek: bool, fb: nat, bt: nat)
    | CLoadTail(peek: bool, fb: nat, bf: nat)
    | CLoadTailBlock(peek: bool, fb: nat)
    | CReloadFrontBlock(peek: bool)
    | CReloadTail(peek: bool, fb: nat)
    | CReloadFront(peek: bool, fb: nat, bt: nat)
    | CLoadNext(peek: bool, fb: nat)
    | CLoadNextFront(peek: bool, nb: nat)
    | CLoadNextTail(peek: bool, nb: nat, nf: nat)
    | CPeekNext(nb: nat, nf: nat)
    | CStoreFrontBlock(nb: nat, nf: nat)
    | CTake(peek: bool, fb: nat, bf: nat)
    | CStoreFront(fb: nat, bf: nat, v: T)
    | CAssertFailed

  /**
   What an observer notes down; nothing here is read by the queue.
   `enq` and `deq` are the values enqueued and dequeued so far; `ring` is the cycle of
   blocks starting at the front block and `t` the place of the tail block on it; `peak`
   is the largest number of resident elements since the last enqueue call began, and
   `sawEmpty` whether the queue was empty at some moment since the last dequeue call began.
   */
  datatype History<T> = History(enq: seq<T>, deq: seq<T>, ring: seq<nat>, t: nat,
                                peak: nat, sawEmpty: bool)

  datatype Config = Config(reserve: nat, maxBlock: nat)

  datatype State<T> = State(cfg: Config, blocks: seq<Block<T>>, frontBlock: nat, tailBlock: nat,
                            largest: nat, p: Producer<T>, c: Consumer<T>, h: History<T>)

  // ---------------------------------------------------------------------------
  // Construction
  // ---------------------------------------------------------------------------

  /** The template argument MAX_BLOCK_SIZE must be a power of two and at least 2. */
  predicate ValidConfig(cfg: Config)
  {
    cfg.maxBlock >= 2 && IsPow2(cfg.maxBlock)
  }

  predicate ManyBlocks(cfg: Config)
  {
    CeilToPow2(cfg.reserve + 1) > cfg.maxBlock * 2
  }

  /** The number of blocks the constructor makes. */
  function InitialCount(cfg: Config): nat
    requires ValidConfig(cfg)
  {
    if ManyBlocks(cfg) then (cfg.reserve + cfg.maxBlock * 2 - 3) / (cfg.maxBlock - 1) else 1
  }

  /** The size of each block the constructor makes. */
  function InitialSize(cfg: Config): nat
    requires ValidConfig(cfg)
  {
    if ManyBlocks(cfg) then cfg.maxBlock else CeilToPow2(cfg.reserve + 1)
  }

  function InitialBlocks<T>(count: nat, size: nat, junk: T): seq<Block<T>>
  {
    seq(count, (i: nat) => MakeBlock(size, junk, if i + 1 == count then 0 else i + 1))
  }

  function Init<T>(cfg: Config, junk: T): State<T>
    requires ValidConfig(cfg)
  {
    var n := InitialCount(cfg);
    State(cfg, InitialBlocks(n, InitialSize(cfg), junk), 0, 0, InitialSize(cfg),
          PIdle(EnqueueNotCalled), CIdle(DequeueNotCalled),
          History([], [], seq(n, i => i), 0, 0, true))
  }

  // ---------------------------------------------------------------------------
  // Events
  // ---------------------------------------------------------------------------

  /** `allocOk` says whether `malloc` succeeds and `junk` is what is found in its memory. */
  datatype Event<T> =
    | BeginEnqueue(v: T, alloc: bool)
    | Produce(allocOk: bool, junk: T)
    | BeginDequeue(peek: bool)
    | Consume

  function Resident<T>(s: State<T>): int
  {
    |s.h.enq| - |s.h.deq|
  }

  /** Lets the observer look at a new state. */
  function Observe<T>(s: State<T>): State<T>
  {
    var r := Resident(s);
    s.(h := s.h.(peak := if r > s.h.peak then r else s.h.peak,
                 sawEmpty := s.h.sawEmpty || r == 0))
  }

  function Next<T>(s: State<T>, e: Event<T>): State<T>
  {
    match e
    case BeginEnqueue(v, alloc) =>
      if s.p.PIdle? then Observe(s.(p := PLoadTailBlock(v, alloc), h := s.h.(peak := 0))) else s
    case Produce(allocOk, junk) => Observe(ProducerStep(s, allocOk, junk))
    case BeginDequeue(peek) =>
      if s.c.CIdle? then Observe(s.(c := CLoadFrontBlock(peek), h := s.h.(sawEmpty := false))) else s
    case Consume => Observe(ConsumerStep(s))
  }

  function Run<T>(s: State<T>, es: seq<Event<T>>): State<T>
    decreases |es|
  {
    if es == [] then s else Next(Run(s, es[..|es| - 1]), es[|es| - 1])
  }

  function SetBlock<T>(s: State<T>, i: nat, b: Block<T>): State<T>
  {
    if i < |s.blocks| then s.(blocks := s.blocks[i := b]) else s
  }

  /** Block `i`; every number the machine follows names a block. */
  function At<T>(s: State<T>, i: nat): Block<T>
    requires |s.blocks| > 0
  {
    if i < |s.blocks| then s.blocks[i] else s.blocks[0]
  }

  function SetCell<T>(b: Block<T>, i: nat, v: T): Block<T>
  {
    if i < |b.data| then b.(data := b.data[i := v]) else b
  }

  // ---------------------------------------------------------------------------
  // inner_enqueue
  // ---------------------------------------------------------------------------

  function CompareTail<T>(s: State<T>, v: T, alloc: bool, tb: nat, bf: nat): State<T>
    requires |s.blocks| > 0
  {
    var bt := At(s, tb).tail;
    s.(p := if Wrap(bt + 1, At(s, tb).size) != bf then PConstruct(v, tb, bt) else PLoadFront(v, alloc, tb, bt))
  }

  function RefreshFront<T>(s: State<T>, v: T, alloc: bool, tb: nat, bt: nat): State<T>
    requires |s.blocks| > 0
  {
    var b := At(s, tb).(localFront := At(s, tb).front);
    SetBlock(s, tb, b).(p := if Wrap(bt + 1, b.size) != b.localFront then PConstruct(v, tb, bt)
                             else PLoadNext(v, alloc, tb))
  }

  function Construct<T>(s: State<T>, v: T, tb: nat, bt: nat): State<T>
    requires |s.blocks| > 0
  {
    SetBlock(s, tb, SetCell(At(s, tb), bt, v)).(p := PStoreTail(v, tb, bt))
  }

  function StoreTail<T>(s: State<T>, v: T, tb: nat, bt: nat): State<T>
    requires |s.blocks| > 0
  {
    SetBlock(s, tb, At(s, tb).(tail := Wrap(bt + 1, At(s, tb).size)))
      .(p := PIdle(Stored), h := s.h.(enq := s.h.enq + [v]))
  }

  function CompareFrontBlock<T>(s: State<T>, v: T, alloc: bool, tb: nat, nx: nat): State<T>
  {
    s.(p := if nx != s.frontBlock then PReloadNext(v, tb)
            else if alloc then PAllocate(v, tb) else PIdle(RefusedNoRoom))
  }

  function RefreshNextFront<T>(s: State<T>, v: T, nb: nat): State<T>
    requires |s.blocks| > 0
  {
    var b := At(s, nb).(localFront := At(s, nb).front);
    SetBlock(s, nb, b).(p := PLoadNextTail(v, nb, b.front))
  }

  /** The next block must be empty. */
  function CheckNextTail<T>(s: State<T>, v: T, nb: nat, nf: nat): State<T>
    requires |s.blocks| > 0
  {
    if nf != At(s, nb).tail then s.(p := PAssertFailed)
    else SetBlock(s, nb, At(s, nb).(localFront := nf)).(p := PConstructNext(v, nb, At(s, nb).tail))
  }

  function ConstructNext<T>(s: State<T>, v: T, nb: nat, nt: nat): State<T>
    requires |s.blocks| > 0
  {
    SetBlock(s, nb, SetCell(At(s, nb), nt, v)).(p := PStoreNextTail(v, nb, nt))
  }

  function StoreNextTail<T>(s: State<T>, v: T, nb: nat, nt: nat): State<T>
    requires |s.blocks| > 0
  {
    SetBlock(s, nb, At(s, nb).(tail := Wrap(nt + 1, At(s, nb).size))).(p := PStoreTailBlock(v, nb))
  }

  function StoreTailBlock<T>(s: State<T>, v: T, nb: nat): State<T>
  {
    s.(tailBlock := nb, p := PIdle(Stored), h := s.h.(enq := s.h.enq + [v], t := s.h.t + 1))
  }

  /** A new block, filled with the element before any other thread can see it. */
  function Allocate<T>(s: State<T>, v: T, tb: nat, allocOk: bool, junk: T): State<T>
  {
    if !allocOk then s.(p := PIdle(RefusedNoMemory)) else
    var size := if s.largest >= s.cfg.maxBlock then s.largest else s.largest * 2;
    var b := SetCell(MakeBlock(size, junk, 0), 0, v).(tail := 1, localTail := 1);
    s.(largest := size, p := PLinkNext(v, tb, b))
  }

  function StoreNext<T>(s: State<T>, v: T, tb: nat, blk: Block<T>): State<T>
    requires |s.blocks| > 0
  {
    var id := |s.blocks|;
    var s' := SetBlock(s, tb, At(s, tb).(next := id));
    var k := if s.h.t < |s.h.ring| then s.h.t + 1 else |s.h.ring|;
    s'.(blocks := s'.blocks + [blk], p := PStoreTailBlock(v, id),
        h := s.h.(ring := s.h.ring[..k] + [id] + s.h.ring[k..]))
  }

  /** One step of `inner_enqueue`. */
  function ProducerStep<T>(s: State<T>, allocOk: bool, junk: T): State<T>
  {
    if s.blocks == [] then s else
    match s.p
    case PIdle(_) => s
    case PLoadTailBlock(v, alloc) => s.(p := PLoadLocalFront(v, alloc, s.tailBlock))
    case PLoadLocalFront(v, alloc, tb) => s.(p := PLoadTail(v, alloc, tb, At(s, tb).localFront))
    case PLoadTail(v, alloc, tb, bf) => CompareTail(s, v, alloc, tb, bf)
    case PLoadFront(v, alloc, tb, bt) => RefreshFront(s, v, alloc, tb, bt)
    case PConstruct(v, tb, bt) => Construct(s, v, tb, bt)
    case PStoreTail(v, tb, bt) => StoreTail(s, v, tb, bt)
    case PLoadNext(v, alloc, tb) => s.(p := PLoadFrontBlock(v, alloc, tb, At(s, tb).next))
    case PLoadFrontBlock(v, alloc, tb, nx) => CompareFrontBlock(s, v, alloc, tb, nx)
    case PReloadNext(v, tb) => s.(p := PLoadNextFront(v, At(s, tb).next))
    case PLoadNextFront(v, nb) => RefreshNextFront(s, v, nb)
    case PLoadNextTail(v, nb, nf) => CheckNextTail(s, v, nb, nf)
    case PConstructNext(v, nb, nt) => ConstructNext(s, v, nb, nt)
    case PStoreNextTail(v, nb, nt) => StoreNextTail(s, v, nb, nt)
    case PStoreTailBlock(v, nb) => StoreTailBlock(s, v, nb)
    case PAllocate(v, tb) => Allocate(s, v, tb, allocOk, junk)
    case PLinkNext(v, tb, blk) => s.(p := PStoreNext(v, tb, blk.(next := At(s, tb).next)))
    case PStoreNext(v, tb, blk) => StoreNext(s, v, tb, blk)
    case PAssertFailed => s
  }

  // ---------------------------------------------------------------------------
  // try_dequeue, pop and peek
  // ---------------------------------------------------------------------------

  function CompareFront<T>(s: State<T>, peek: bool, fb: nat, bt: nat): State<T>
    requires |s.blocks| > 0
  {
    var bf := At(s, fb).front;
    s.(c := if bf != bt then CTake(peek, fb, bf) else CLoadTail(peek, fb, bf))
  }

  function RefreshTail<T>(s: State<T>, peek: bool, fb: nat, bf: nat): State<T>
    requires |s.blocks| > 0
  {
    var b := At(s, fb).(localTail := At(s, fb).tail);
    SetBlock(s, fb, b).(c := if bf != b.localTail then CTake(peek, fb, bf) else CLoadTailBlock(peek, fb))
  }

  function CompareTailBlock<T>(s: State<T>, peek: bool, fb: nat): State<T>
  {
    s.(c := if fb != s.tailBlock then CReloadFrontBlock(peek) else CIdle(FoundEmpty))
  }

  function RefreshTailAgain<T>(s: State<T>, peek: bool, fb: nat): State<T>
    requires |s.blocks| > 0
  {
    var b := At(s, fb).(localTail := At(s, fb).tail);
    SetBlock(s, fb, b).(c := CReloadFront(peek, fb, b.localTail))
  }

  function CompareFrontAgain<T>(s: State<T>, peek: bool, fb: nat, bt: nat): State<T>
    requires |s.blocks| > 0
  {
    var bf := At(s, fb).front;
    s.(c := if bf != bt then CTake(peek, fb, bf) else CLoadNext(peek, fb))
  }

  /** The next block must not be empty. */
  function CheckNextFilled<T>(s: State<T>, peek: bool, nb: nat, nf: nat): State<T>
    requires |s.blocks| > 0
  {
    if nf == At(s, nb).tail then s.(c := CAssertFailed)
    else if peek then s.(c := CPeekNext(nb, nf))
    else SetBlock(s, nb, At(s, nb).(localTail := At(s, nb).tail)).(c := CStoreFrontBlock(nb, nf))
  }

  function StoreFrontBlock<T>(s: State<T>, nb: nat, nf: nat): State<T>
  {
    s.(frontBlock := nb, c := CTake(false, nb, nf),
       h := if |s.h.ring| > 0 && s.h.t > 0
            then s.h.(ring := s.h.ring[1..] + [s.h.ring[0]], t := s.h.t - 1) else s.h)
  }

  function Take<T>(s: State<T>, peek: bool, fb: nat, bf: nat): State<T>
    requires |s.blocks| > 0
  {
    if bf >= |At(s, fb).data| then s.(c := CAssertFailed)
    else if peek then s.(c := CIdle(Saw(At(s, fb).data[bf])))
    else s.(c := CStoreFront(fb, bf, At(s, fb).data[bf]))
  }

  function StoreFront<T>(s: State<T>, fb: nat, bf: nat, v: T): State<T>
    requires |s.blocks| > 0
  {
    SetBlock(s, fb, At(s, fb).(front := Wrap(bf + 1, At(s, fb).size)))
      .(c := CIdle(Got(v)), h := s.h.(deq := s.h.deq + [v]))
  }

  /** One step of `try_dequeue`, `pop` or `peek`. */
  function ConsumerStep<T>(s: State<T>): State<T>
  {
    if s.blocks == [] then s else
    match s.c
    case CIdle(_) => s
    case CLoadFrontBlock(peek) => s.(c := CLoadLocalTail(peek, s.frontBlock))
    case CLoadLocalTail(peek, fb) => s.(c := CLoadFront(peek, fb, At(s, fb).localTail))
    case CLoadFront(peek, fb, bt) => CompareFront(s, peek, fb, bt)
    case CLoadTail(peek, fb, bf) => RefreshTail(s, peek, fb, bf)
    case CLoadTailBlock(peek, fb) => CompareTailBlock(s, peek, fb)
    case CReloadFrontBlock(peek) => s.(c := CReloadTail(peek, s.frontBlock))
    case CReloadTail(peek, fb) => RefreshTailAgain(s, peek, fb)
    case CReloadFront(peek, fb, bt) => CompareFrontAgain(s, peek, fb, bt)
    case CLoadNext(peek, fb) => s.(c := CLoadNextFront(peek, At(s, fb).next))
    case CLoadNextFront(peek, nb) => s.(c := CLoadNextTail(peek, nb, At(s, nb).front))
    case CLoadNextTail(peek, nb, nf) => CheckNextFilled(s, peek, nb, nf)
    case CPeekNext(nb, nf) => Take(s, true, nb, nf)
    case CStoreFrontBlock(nb, nf) => StoreFrontBlock(s, nb, nf)
    case CTake(peek, fb, bf) => Take(s, peek, fb, bf)
    case CStoreFront(fb, bf, v) => StoreFront(s, fb, bf, v)
    case CAssertFailed => s
  }
}
