/** What every interleaving of one producer and one consumer guarantees. */
module SpscTheorems {
  import opened SpscQueue
  import opened SpscInvariant
  import opened SpscSteps

  // ---------------------------------------------------------------------------
  // The initial state
  // ---------------------------------------------------------------------------

  lemma {:induction false} BlockCountArithmetic(cfg: Config)
    requires ValidConfig(cfg)
    ensures InitialCount(cfg) >= 1
    ensures ManyBlocks(cfg) ==> (InitialCount(cfg) - 1) * (InitialSize(cfg) - 1) >= cfg.reserve
  {
    if ManyBlocks(cfg) {
      var d := cfg.maxBlock - 1;
      var q := InitialCount(cfg);
      assert cfg.reserve + 2 * d - 1 == q * d + (cfg.reserve + 2 * d - 1) % d;
      assert q * d >= cfg.reserve + d;
      assert (q - 1) * d == q * d - d;
    }
  }

  lemma {:induction false} InitialBlockAt<T>(n: nat, size: nat, junk: T)
    ensures |InitialBlocks(n, size, junk)| == n
    ensures forall i :: 0 <= i < n ==>
              InitialBlocks(n, size, junk)[i] == MakeBlock(size, junk, After(i, n))
  {
  }

  lemma {:induction false} InitialRing<T>(n: nat, size: nat, junk: T)
    requires n >= 1 && size >= 2 && IsPow2(size)
    ensures Shape(InitialBlocks(n, size, junk), seq(n, i => i), 0, 0, 0)
    ensures Arc(InitialBlocks(n, size, junk), seq(n, i => i), 0, false)
  {
    var blocks := InitialBlocks(n, size, junk);
    var ring: seq<nat> := seq(n, i => i);
    InitialBlockAt(n, size, junk);
    forall i | 0 <= i < n ensures LinkAt(blocks, ring, i) {
    }
  }

  lemma {:induction false} InitInv<T>(cfg: Config, junk: T)
    requires ValidConfig(cfg) && cfg.reserve >= 1
    ensures Inv(Init(cfg, junk))
  {
    var s := Init(cfg, junk);
    BlockCountArithmetic(cfg);
    InitialRing(InitialCount(cfg), InitialSize(cfg), junk);
    FlattenOne(s.blocks, 0);
    InitialBlockAt(InitialCount(cfg), InitialSize(cfg), junk);
    assert s.h.ring[..1] == [0];
  }

  lemma {:induction false} RunKeeps<T>(s: State<T>, es: seq<Event<T>>)
    requires Inv(s)
    ensures Inv(Run(s, es))
  {
    if es != [] {
      RunKeeps(s, es[..|es| - 1]);
      NextKeeps(Run(s, es[..|es| - 1]), es[|es| - 1]);
    }
  }

  /** Steps do not lead out of the set. */
  ghost predicate Closed<T(!new)>(keeps: State<T> -> bool)
  {
    forall s, e {:trigger keeps(Next(s, e))} :: keeps(s) ==> keeps(Next(s, e))
  }

  /** What single steps keep, whole runs keep. */
  lemma {:induction false} RunStays<T(!new)>(keeps: State<T> -> bool, s: State<T>, es: seq<Event<T>>)
    requires Closed(keeps) && keeps(s)
    ensures keeps(Run(s, es))
  {
    if es != [] {
      RunStays(keeps, s, es[..|es| - 1]);
      assert keeps(Next(Run(s, es[..|es| - 1]), es[|es| - 1]));
    }
  }

  // ---------------------------------------------------------------------------
  // First in, first out
  // ---------------------------------------------------------------------------

  /** The blocks on the way from the front block to the tail block. */
  ghost function Path<T>(s: State<T>): seq<nat>
    requires Inv(s)
  {
    s.h.ring[..s.h.t + 1]
  }

  /** The values dequeued followed by what the blocks from front to tail hold are the values enqueued. */
  ghost predicate InOrder<T>(s: State<T>)
    requires Inv(s)
  {
    && Path(s)[0] == s.frontBlock && Path(s)[|Path(s)| - 1] == s.tailBlock
    && (forall i :: 0 <= i < |Path(s)| - 1 ==> s.blocks[Path(s)[i]].next == Path(s)[i + 1])
    && s.h.enq == s.h.deq + Flatten(s.blocks, Path(s))
  }

  /**
   Neither of the assertions in the code fails; a dequeue returns the oldest element; a peek
   shows it; and a dequeue that finds nothing did so at a moment of the call when the queue
   was empty.
   */
  ghost predicate AnswersRight<T>(s: State<T>)
  {
    && !s.p.PAssertFailed? && !s.c.CAssertFailed?
    && (s.c.CIdle? && s.c.last.Got? ==> s.h.deq != [] && s.c.last.v == s.h.deq[|s.h.deq| - 1])
    && (s.c.CIdle? && s.c.last.Saw? ==> |s.h.deq| < |s.h.enq| && s.c.last.v == s.h.enq[|s.h.deq|])
    && (s.c.CIdle? && s.c.last.FoundEmpty? ==> s.h.sawEmpty)
  }

  lemma {:induction false} InvInOrder<T>(s: State<T>)
    requires Inv(s)
    ensures InOrder(s)
  {
    PathIsLinked(s.blocks, s.h.ring, s.h.t);
    assert forall i :: 0 <= i < |Path(s)| ==> Path(s)[i] == s.h.ring[i];
  }

  lemma {:induction false} PathIsLinked<T>(blocks: seq<Block<T>>, ring: seq<nat>, t: nat)
    requires Permutes(ring, |blocks|) && Linked(blocks, ring) && t < |ring|
    ensures forall i :: 0 <= i < t ==> blocks[ring[i]].next == ring[i + 1]
  {
    forall i | 0 <= i < t ensures blocks[ring[i]].next == ring[i + 1] {
      assert LinkAt(blocks, ring, i);
    }
  }

  lemma {:induction false} InvAnswersRight<T>(s: State<T>)
    requires Inv(s)
    ensures AnswersRight(s)
  {
  }

  /** Every run of one producer and one consumer is first in, first out. */
  lemma {:induction false} QueueIsFifo<T>(cfg: Config, junk: T, es: seq<Event<T>>)
    requires ValidConfig(cfg) && cfg.reserve >= 1
    ensures Inv(Run(Init(cfg, junk), es))
    ensures InOrder(Run(Init(cfg, junk), es)) && AnswersRight(Run(Init(cfg, junk), es))
  {
    InitInv(cfg, junk);
    RunKeeps(Init(cfg, junk), es);
    InvInOrder(Run(Init(cfg, junk), es));
    InvAnswersRight(Run(Init(cfg, junk), es));
  }

  // ---------------------------------------------------------------------------
  // Reservation
  // ---------------------------------------------------------------------------

  ghost predicate SizesAtLeast<T>(blocks: seq<Block<T>>, m: nat)
  {
    forall i :: 0 <= i < |blocks| ==> blocks[i].size >= m
  }

  /** At least `n` blocks, of at least `m` cells each. */
  ghost predicate Capacious<T>(s: State<T>, n: nat, m: nat)
  {
    && SizesAtLeast(s.blocks, m) && |s.blocks| >= n && s.largest >= m
    && (s.p.PLinkNext? ==> s.p.blk.size >= m)
    && (s.p.PStoreNext? ==> s.p.blk.size >= m)
  }

  lemma {:induction false} ProducerKeepsSizes<T>(s: State<T>, allocOk: bool, junk: T, n: nat, m: nat)
    requires Capacious(s, n, m)
    ensures SizesAtLeast(ProducerStep(s, allocOk, junk).blocks, m) && |ProducerStep(s, allocOk, junk).blocks| >= n
  {
  }

  lemma {:induction false} AllocatesLarge<T>(s: State<T>, v: T, tb: nat, allocOk: bool, junk: T, m: nat)
    requires s.largest >= m
    ensures var s' := Allocate(s, v, tb, allocOk, junk);
            s'.largest >= m && !s'.p.PStoreNext? && (s'.p.PLinkNext? ==> s'.p.blk.size >= m)
  {
  }

  lemma {:induction false} ProducerBuildsLarge<T>(s: State<T>, allocOk: bool, junk: T, n: nat, m: nat)
    requires Capacious(s, n, m) && !s.p.PAllocate?
    ensures var s' := ProducerStep(s, allocOk, junk);
            s' == s || (s'.largest >= m && !s'.p.PLinkNext? && (s'.p.PStoreNext? ==> s'.p.blk.size >= m))
  {
  }

  lemma {:induction false} ProducerKeepsCapacity<T>(s: State<T>, allocOk: bool, junk: T, n: nat, m: nat)
    requires Capacious(s, n, m)
    ensures Capacious(ProducerStep(s, allocOk, junk), n, m)
  {
    ProducerKeepsSizes(s, allocOk, junk, n, m);
    if s.p.PAllocate? {
      AllocatesLarge(s, s.p.v, s.p.tb, allocOk, junk, m);
    } else {
      ProducerBuildsLarge(s, allocOk, junk, n, m);
    }
  }

  lemma {:induction false} ConsumerKeepsCapacity<T>(s: State<T>, n: nat, m: nat)
    requires Capacious(s, n, m)
    ensures Capacious(ConsumerStep(s), n, m)
  {
  }

  ghost predicate Reserved<T>(s: State<T>)
  {
    && ValidConfig(s.cfg)
    && Capacious(s, InitialCount(s.cfg), InitialSize(s.cfg))
    && (s.p == PIdle(RefusedNoRoom) ==> s.h.peak >= s.cfg.reserve)
  }

  ghost predicate AllFull<T>(blocks: seq<Block<T>>, ids: seq<nat>)
    requires Ids(ids, |blocks|)
  {
    forall i :: 0 <= i < |ids| ==> Full(blocks[ids[i]])
  }

  lemma {:induction false} FullHolds<T>(b: Block<T>, m: nat)
    requires BlockOk(b) && Full(b) && b.size >= m >= 1
    ensures |Contents(b)| >= m - 1
  {
  }

  lemma {:induction false} FullBlocksHold<T>(blocks: seq<Block<T>>, ids: seq<nat>, m: nat)
    requires AllOk(blocks) && Ids(ids, |blocks|) && SizesAtLeast(blocks, m) && m >= 1 && AllFull(blocks, ids)
    ensures |Flatten(blocks, ids)| >= Multiple(|ids|, m - 1)
  {
    if ids != [] {
      var first, rest := ids[0], ids[1..];
      assert Ids(rest, |blocks|) && AllFull(blocks, rest);
      FullHolds(blocks[first], m);
      FullBlocksHold(blocks, rest, m);
      assert Flatten(blocks, ids) == Contents(blocks[first]) + Flatten(blocks, rest);
    }
  }

  /** `k` times `c`, added up. */
  function Multiple(k: nat, c: nat): nat
  {
    if k == 0 then 0 else Multiple(k - 1, c) + c
  }

  lemma {:induction false} MultipleIsProduct(k: nat, c: nat)
    ensures Multiple(k, c) == k * c
  {
    if k > 0 {
      MultipleIsProduct(k - 1, c);
      assert (k - 1) * c + c == k * c;
    }
  }

  /** With the tail block last on the ring, all blocks but the front one are full. */
  lemma {:induction false} AllButFrontFull<T>(
    blocks: seq<Block<T>>, ring: seq<nat>, enq: seq<T>, deq: seq<T>, m: nat)
    requires AllOk(blocks) && Permutes(ring, |blocks|) && ring != [] && SizesAtLeast(blocks, m) && m >= 1
    requires Fifo(blocks, ring, |ring| - 1, enq, deq)
    requires forall i :: 0 < i < |ring| ==> Full(blocks[ring[i]])
    ensures |enq| - |deq| >= (|ring| - 1) * (m - 1)
  {
    var rest := ring[1..];
    assert ring[..|ring|] == ring == [ring[0]] + rest;
    FullBlocksHold(blocks, rest, m);
    assert Flatten(blocks, ring) == Contents(blocks[ring[0]]) + Flatten(blocks, rest);
    MultipleIsProduct(|rest|, m - 1);
  }

  lemma {:induction false} RefusedFacts<T>(s: State<T>)
    requires CoreOf(s) && PInv(s.p, PV(s)) && s.p.PLoadFrontBlock? && s.p.nx == s.frontBlock
    ensures s.h.t + 1 == |s.h.ring| && s.h.peak >= s.blocks[s.tailBlock].size - 1
    ensures forall i :: 0 < i < |s.h.ring| ==> Full(s.blocks[s.h.ring[i]])
  {
    assert LinkAt(s.blocks, s.h.ring, s.h.t);
  }

  lemma {:induction false} ReservationCovered(cfg: Config, n: nat, peak: nat)
    requires ValidConfig(cfg) && n >= InitialCount(cfg)
    requires peak >= InitialSize(cfg) - 1 && peak >= (n - 1) * (InitialSize(cfg) - 1)
    ensures peak >= cfg.reserve
  {
    BlockCountArithmetic(cfg);
    if ManyBlocks(cfg) {
      MulMono(InitialCount(cfg) - 1, n - 1, InitialSize(cfg) - 1);
    }
  }

  /** No block is free and the tail block was full: the queue holds what was reserved. */
  lemma {:induction false} RefusedMeansFull<T>(s: State<T>)
    requires Inv(s) && Reserved(s) && s.p.PLoadFrontBlock? && s.p.nx == s.frontBlock
    ensures s.h.peak >= s.cfg.reserve
  {
    RefusedFacts(s);
    AllButFrontFull(s.blocks, s.h.ring, s.h.enq, s.h.deq, InitialSize(s.cfg));
    ReservationCovered(s.cfg, |s.h.ring|, s.h.peak);
  }

  lemma {:induction false} MulMono(a: int, b: int, k: nat)
    requires a <= b
    ensures a * k <= b * k
  {
  }

  lemma {:induction false} OnlyRefusalRefuses<T>(s: State<T>, allocOk: bool, junk: T)
    requires ProducerStep(s, allocOk, junk).p == PIdle(RefusedNoRoom)
    ensures s.p == PIdle(RefusedNoRoom) || (s.p.PLoadFrontBlock? && s.p.nx == s.frontBlock)
    ensures ProducerStep(s, allocOk, junk).h == s.h
  {
  }

  lemma {:induction false} RefusalsKept<T>(s: State<T>, allocOk: bool, junk: T)
    requires Inv(s) && Reserved(s)
    ensures var s' := ProducerStep(s, allocOk, junk); s'.p == PIdle(RefusedNoRoom) ==> s'.h.peak >= s.cfg.reserve
  {
    if ProducerStep(s, allocOk, junk).p == PIdle(RefusedNoRoom) {
      OnlyRefusalRefuses(s, allocOk, junk);
      if s.p.PLoadFrontBlock? {
        RefusedMeansFull(s);
      }
    }
  }

  lemma {:induction false} ProducerKeepsReserved<T>(s: State<T>, allocOk: bool, junk: T)
    requires Inv(s) && Reserved(s)
    ensures Reserved(Observe(ProducerStep(s, allocOk, junk)))
  {
    ProducerKeepsConfig(s, allocOk, junk);
    ProducerKeepsCapacity(s, allocOk, junk, InitialCount(s.cfg), InitialSize(s.cfg));
    RefusalsKept(s, allocOk, junk);
  }

  lemma {:induction false} ConsumerKeepsReserved<T>(s: State<T>)
    requires Reserved(s)
    ensures Reserved(Observe(ConsumerStep(s)))
  {
    assert ConsumerStep(s).cfg == s.cfg && ConsumerStep(s).p == s.p && ConsumerStep(s).h.peak == s.h.peak;
    ConsumerKeepsCapacity(s, InitialCount(s.cfg), InitialSize(s.cfg));
  }

  ghost function Keeping<T>(cfg: Config): State<T> -> bool
  {
    s => Inv(s) && Reserved(s) && s.cfg == cfg
  }

  lemma {:induction false} ReservedNext<T>(s: State<T>, e: Event<T>)
    requires Inv(s) && Reserved(s)
    ensures Reserved(Next(s, e)) && Next(s, e).cfg == s.cfg
  {
    match e
    case Produce(allocOk, junk) =>
      ProducerKeepsReserved(s, allocOk, junk);
      ProducerKeepsConfig(s, allocOk, junk);
    case Consume =>
      ConsumerKeepsReserved(s);
      ConsumerKeepsConfig(s);
    case BeginEnqueue(_, _) =>
    case BeginDequeue(_) =>
  }

  lemma {:induction false} ProducerKeepsConfig<T>(s: State<T>, allocOk: bool, junk: T)
    ensures ProducerStep(s, allocOk, junk).cfg == s.cfg
  {
  }

  lemma {:induction false} ConsumerKeepsConfig<T>(s: State<T>)
    ensures ConsumerStep(s).cfg == s.cfg
  {
  }

  lemma {:induction false} KeepingIsClosed<T(!new)>(cfg: Config)
    ensures Closed(Keeping<T>(cfg))
  {
    forall s: State<T>, e: Event<T> | Keeping<T>(cfg)(s) ensures Keeping<T>(cfg)(Next(s, e)) {
      NextKeeps(s, e);
      ReservedNext(s, e);
    }
  }

  /**
   A queue built with `size` keeps its reservation: in every run, an enqueue that may not
   allocate is refused only if at least `size` elements were resident at a moment of the call.
   */
  lemma {:induction false} ReservationIsKept<T(!new)>(cfg: Config, junk: T, es: seq<Event<T>>)
    requires ValidConfig(cfg)
    ensures var s := Run(Init(cfg, junk), es);
            s.p == PIdle(RefusedNoRoom) ==> s.h.peak >= cfg.reserve
  {
    if cfg.reserve >= 1 {
      BlockCountArithmetic(cfg);
      InitInv(cfg, junk);
      InitialBlockAt(InitialCount(cfg), InitialSize(cfg), junk);
      KeepingIsClosed<T>(cfg);
      RunStays(Keeping(cfg), Init(cfg, junk), es);
    }
  }
}
