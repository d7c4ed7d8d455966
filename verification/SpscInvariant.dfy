/** The inductive invariant of the single-producer/single-consumer queue. */
module SpscInvariant {
  import opened SpscQueue

  // ---------------------------------------------------------------------------
  // One block
  // ---------------------------------------------------------------------------

  ghost predicate InRange<T>(b: Block<T>)
  {
    && b.size >= 2 && IsPow2(b.size) && |b.data| == b.size
    && b.front < b.size && b.tail < b.size && b.localTail < b.size && b.localFront < b.size
  }

  function Len<T>(b: Block<T>): int
  {
    Dist(b.front, b.tail, b.size)
  }

  /** The shadow copies are past values: `localTail` has not passed `tail` and
      `front` has not fallen behind `localFront`. */
  ghost predicate BlockOk<T>(b: Block<T>)
  {
    && InRange(b)
    && Dist(b.front, b.localTail, b.size) <= Len(b)
    && Dist(b.localFront, b.front, b.size) <= Dist(b.localFront, b.tail, b.size)
  }

  predicate Full<T>(b: Block<T>)
  {
    Len(b) == b.size - 1
  }

  ghost function Contents<T>(b: Block<T>): (r: seq<T>)
    requires InRange(b)
    ensures |r| == Len(b)
    ensures forall j :: 0 <= j < |r| ==> r[j] == b.data[Wrap(b.front + j, b.size)]
  {
    seq(Len(b), (j: nat) requires j < Len(b) => b.data[Wrap(b.front + j, b.size)])
  }

  lemma {:induction false} PushTail<T>(b: Block<T>)
    requires InRange(b) && Len(b) < b.size - 1
    ensures InRange(b.(tail := Wrap(b.tail + 1, b.size)))
    ensures Len(b.(tail := Wrap(b.tail + 1, b.size))) == Len(b) + 1
    ensures Contents(b.(tail := Wrap(b.tail + 1, b.size))) == Contents(b) + [b.data[b.tail]]
  {
    var c := Contents(b.(tail := Wrap(b.tail + 1, b.size)));
    assert forall j :: 0 <= j < |c| ==> c[j] == (Contents(b) + [b.data[b.tail]])[j];
  }

  lemma {:induction false} PopFront<T>(b: Block<T>)
    requires InRange(b) && Len(b) > 0
    ensures InRange(b.(front := Wrap(b.front + 1, b.size)))
    ensures Len(b.(front := Wrap(b.front + 1, b.size))) == Len(b) - 1
    ensures Contents(b) == [b.data[b.front]] + Contents(b.(front := Wrap(b.front + 1, b.size)))
  {
    var c := [b.data[b.front]] + Contents(b.(front := Wrap(b.front + 1, b.size)));
    assert forall j :: 0 <= j < |c| ==> c[j] == Contents(b)[j];
  }

  lemma {:induction false} WriteSpareCell<T>(b: Block<T>, v: T)
    requires InRange(b)
    ensures InRange(b.(data := b.data[b.tail := v]))
    ensures Contents(b.(data := b.data[b.tail := v])) == Contents(b)
  {
    var c := Contents(b.(data := b.data[b.tail := v]));
    assert forall j :: 0 <= j < |c| ==> c[j] == Contents(b)[j];
  }

  // ---------------------------------------------------------------------------
  // The ring
  // ---------------------------------------------------------------------------

  ghost predicate AllOk<T>(blocks: seq<Block<T>>)
  {
    forall i :: 0 <= i < |blocks| ==> BlockOk(blocks[i])
  }

  ghost predicate Permutes(ring: seq<nat>, n: nat)
  {
    && |ring| == n
    && (forall i :: 0 <= i < n ==> ring[i] < n)
    && (forall i, j :: 0 <= i < j < n ==> ring[i] != ring[j])
  }

  function After(i: nat, n: nat): nat
  {
    if i + 1 == n then 0 else i + 1
  }

  ghost predicate LinkAt<T>(blocks: seq<Block<T>>, ring: seq<nat>, i: nat)
    requires Permutes(ring, |blocks|) && i < |ring|
  {
    blocks[ring[i]].next == ring[After(i, |ring|)]
  }

  ghost predicate Linked<T>(blocks: seq<Block<T>>, ring: seq<nat>)
    requires Permutes(ring, |blocks|)
  {
    forall i :: 0 <= i < |ring| ==> LinkAt(blocks, ring, i)
  }

  ghost predicate Shape<T>(blocks: seq<Block<T>>, ring: seq<nat>, t: nat, fb: nat, tb: nat)
  {
    && AllOk(blocks)
    && Permutes(ring, |blocks|) && Linked(blocks, ring)
    && t < |ring| && ring[0] == fb && ring[t] == tb
  }

  /** Blocks strictly between front and tail are full, those after the front up to the tail
      are not empty, and those past the tail are empty; `pending` exempts the one the
      producer has just filled. */
  ghost predicate Arc<T>(blocks: seq<Block<T>>, ring: seq<nat>, t: nat, pending: bool)
    requires Permutes(ring, |blocks|) && t < |ring|
  {
    && (forall i :: 0 < i < t ==> Full(blocks[ring[i]]))
    && (forall i :: 0 < i <= t ==> Len(blocks[ring[i]]) != 0)
    && (forall i :: t < i < |ring| && !(pending && i == t + 1) ==> Len(blocks[ring[i]]) == 0)
  }

  ghost predicate Ids(ids: seq<nat>, n: nat)
  {
    forall i :: 0 <= i < |ids| ==> ids[i] < n
  }

  /** The contents of the named blocks, one block after the other. */
  ghost function Flatten<T>(blocks: seq<Block<T>>, ids: seq<nat>): seq<T>
    requires AllOk(blocks) && Ids(ids, |blocks|)
  {
    if ids == [] then [] else Contents(blocks[ids[0]]) + Flatten(blocks, ids[1..])
  }

  lemma {:induction false} FlattenConcat<T>(blocks: seq<Block<T>>, a: seq<nat>, b: seq<nat>)
    requires AllOk(blocks) && Ids(a, |blocks|) && Ids(b, |blocks|)
    ensures Flatten(blocks, a + b) == Flatten(blocks, a) + Flatten(blocks, b)
  {
    if a == [] {
      assert a + b == b;
    } else {
      assert (a + b)[1..] == a[1..] + b;
      FlattenConcat(blocks, a[1..], b);
    }
  }

  lemma {:induction false} FlattenSame<T>(blocks: seq<Block<T>>, blocks': seq<Block<T>>, ids: seq<nat>)
    requires AllOk(blocks) && AllOk(blocks') && Ids(ids, |blocks|) && Ids(ids, |blocks'|)
    requires forall i :: 0 <= i < |ids| ==> Contents(blocks[ids[i]]) == Contents(blocks'[ids[i]])
    ensures Flatten(blocks, ids) == Flatten(blocks', ids)
  {
    if ids != [] {
      FlattenSame(blocks, blocks', ids[1..]);
    }
  }

  lemma {:induction false} FlattenOne<T>(blocks: seq<Block<T>>, id: nat)
    requires AllOk(blocks) && id < |blocks|
    ensures Flatten(blocks, [id]) == Contents(blocks[id])
  {
    assert [id][1..] == [];
    assert Flatten(blocks, [id]) == Contents(blocks[id]) + Flatten(blocks, []);
  }

  lemma {:induction false} FlattenSnoc<T>(blocks: seq<Block<T>>, ids: seq<nat>, id: nat)
    requires AllOk(blocks) && Ids(ids, |blocks|) && id < |blocks|
    ensures Flatten(blocks, ids + [id]) == Flatten(blocks, ids) + Contents(blocks[id])
  {
    FlattenConcat(blocks, ids, [id]);
    FlattenOne(blocks, id);
  }

  ghost predicate Fifo<T>(blocks: seq<Block<T>>, ring: seq<nat>, t: nat, enq: seq<T>, deq: seq<T>)
    requires AllOk(blocks) && Permutes(ring, |blocks|) && t < |ring|
  {
    enq == deq + Flatten(blocks, ring[..t + 1])
  }

  // ---------------------------------------------------------------------------
  // What each side knows at each program point
  // ---------------------------------------------------------------------------

  /** The part of the state that the producer's knowledge is about: its tail block, whether
      the front is behind it, and the block after it if that is not the front block. */
  datatype PView<T> = PView(tb: nat, tail: Block<T>, behind: bool,
                            hasNext: bool, nb: nat, next: Block<T>, peak: nat)

  ghost function ProducerView<T>(blocks: seq<Block<T>>, ring: seq<nat>, t: nat, peak: nat): PView<T>
    requires Permutes(ring, |blocks|) && t < |ring|
  {
    var nb := ring[After(t, |ring|)];
    PView(ring[t], blocks[ring[t]], t > 0, t + 1 < |ring|, nb, blocks[nb], peak)
  }

  /** What the producer knows once it has found the tail block full. */
  ghost predicate SeenFull<T>(w: PView<T>)
  {
    (w.behind ==> Full(w.tail)) && w.peak >= w.tail.size - 1
  }

  ghost predicate FreshBlock<T>(b: Block<T>, v: T)
  {
    BlockOk(b) && b.front == 0 && b.tail == 1 && b.data[0] == v
  }

  ghost predicate PInv<T>(p: Producer<T>, w: PView<T>)
  {
    match p
    case PIdle(_) => true
    case PLoadTailBlock(_, _) => true
    case PLoadLocalFront(_, _, tb) => tb == w.tb
    case PLoadTail(_, _, tb, bf) => tb == w.tb && bf == w.tail.localFront
    case PLoadFront(_, _, tb, bt) => tb == w.tb && bt == w.tail.tail
    case PConstruct(_, tb, bt) =>
      tb == w.tb && bt == w.tail.tail && Wrap(bt + 1, w.tail.size) != w.tail.localFront
    case PStoreTail(v, tb, bt) =>
      tb == w.tb && bt == w.tail.tail && Wrap(bt + 1, w.tail.size) != w.tail.localFront
      && bt < |w.tail.data| && w.tail.data[bt] == v
    case PLoadNext(_, _, tb) => tb == w.tb && SeenFull(w)
    case PLoadFrontBlock(_, _, tb, nx) => tb == w.tb && SeenFull(w) && nx == w.tail.next
    case PReloadNext(_, tb) => tb == w.tb && SeenFull(w) && w.hasNext
    case PLoadNextFront(_, nb) => SeenFull(w) && w.hasNext && nb == w.nb
    case PLoadNextTail(_, nb, nf) =>
      SeenFull(w) && w.hasNext && nb == w.nb && nf == w.next.front == w.next.localFront
    case PConstructNext(_, nb, nt) =>
      SeenFull(w) && w.hasNext && nb == w.nb && nt == w.next.tail == w.next.localFront
    case PStoreNextTail(v, nb, nt) =>
      SeenFull(w) && w.hasNext && nb == w.nb && nt == w.next.tail == w.next.localFront
      && nt < |w.next.data| && w.next.data[nt] == v
    case PStoreTailBlock(v, nb) =>
      SeenFull(w) && w.hasNext && nb == w.nb && InRange(w.next) && Contents(w.next) == [v]
    case PAllocate(_, tb) => tb == w.tb && SeenFull(w)
    case PLinkNext(v, tb, blk) => tb == w.tb && SeenFull(w) && FreshBlock(blk, v)
    case PStoreNext(v, tb, blk) =>
      tb == w.tb && SeenFull(w) && FreshBlock(blk, v) && blk.next == w.tail.next
    case PAssertFailed => false
  }

  /** The part of the state that the consumer's knowledge is about: its front block, whether
      the tail is ahead of it, and the block after it. */
  datatype CView<T> = CView(fb: nat, front: Block<T>, ahead: bool, nb: nat, next: Block<T>,
                            enq: seq<T>, deq: seq<T>, sawEmpty: bool)

  ghost function ConsumerView<T>(blocks: seq<Block<T>>, ring: seq<nat>, t: nat,
                                 enq: seq<T>, deq: seq<T>, sawEmpty: bool): CView<T>
    requires Permutes(ring, |blocks|) && t < |ring|
  {
    var nb := ring[After(0, |ring|)];
    CView(ring[0], blocks[ring[0]], t > 0, nb, blocks[nb], enq, deq, sawEmpty)
  }

  /** The consumer is about to move on to a block that holds something. */
  ghost predicate MovingOn<T>(w: CView<T>, nb: nat)
  {
    w.ahead && Len(w.front) == 0 && nb == w.nb
  }

  ghost predicate ResultOk<T>(r: DequeueResult<T>, w: CView<T>)
  {
    match r
    case DequeueNotCalled => true
    case Got(v) => w.deq != [] && w.deq[|w.deq| - 1] == v
    case Saw(v) => |w.deq| < |w.enq| && w.enq[|w.deq|] == v
    case FoundEmpty => w.sawEmpty
  }

  ghost predicate CInv<T>(c: Consumer<T>, w: CView<T>)
  {
    match c
    case CIdle(r) => ResultOk(r, w)
    case CLoadFrontBlock(_) => true
    case CLoadLocalTail(_, fb) => fb == w.fb
    case CLoadFront(_, fb, bt) => fb == w.fb && bt == w.front.localTail
    case CLoadTail(_, fb, bf) => fb == w.fb && bf == w.front.front
    case CLoadTailBlock(_, fb) => fb == w.fb && (w.ahead || w.sawEmpty)
    case CReloadFrontBlock(_) => w.ahead
    case CReloadTail(_, fb) => fb == w.fb && w.ahead
    case CReloadFront(_, fb, bt) => fb == w.fb && w.ahead && bt == w.front.tail == w.front.localTail
    case CLoadNext(_, fb) => fb == w.fb && w.ahead && Len(w.front) == 0
    case CLoadNextFront(_, nb) => MovingOn(w, nb)
    case CLoadNextTail(_, nb, nf) => MovingOn(w, nb) && nf == w.next.front
    case CPeekNext(nb, nf) => MovingOn(w, nb) && nf == w.next.front
    case CStoreFrontBlock(nb, nf) => MovingOn(w, nb) && nf == w.next.front && nf != w.next.localTail
    case CTake(_, fb, bf) => fb == w.fb && bf == w.front.front && Len(w.front) > 0 && bf != w.front.localTail
    case CStoreFront(fb, bf, v) =>
      fb == w.fb && bf == w.front.front && Len(w.front) > 0 && bf != w.front.localTail
      && bf < |w.front.data| && w.front.data[bf] == v
    case CAssertFailed => false
  }

  // ---------------------------------------------------------------------------
  // The invariant
  // ---------------------------------------------------------------------------

  ghost predicate Core<T>(blocks: seq<Block<T>>, ring: seq<nat>, t: nat, fb: nat, tb: nat,
                          pending: bool, enq: seq<T>, deq: seq<T>)
  {
    && Shape(blocks, ring, t, fb, tb)
    && Arc(blocks, ring, t, pending)
    && Fifo(blocks, ring, t, enq, deq)
  }

  ghost predicate CoreOf<T>(s: State<T>)
  {
    Core(s.blocks, s.h.ring, s.h.t, s.frontBlock, s.tailBlock, s.p.PStoreTailBlock?, s.h.enq, s.h.deq)
  }

  ghost predicate SizesOk<T>(s: State<T>)
  {
    s.largest >= 1 && IsPow2(s.largest) && s.cfg.maxBlock >= 2
  }

  ghost function PV<T>(s: State<T>): PView<T>
    requires CoreOf(s)
  {
    ProducerView(s.blocks, s.h.ring, s.h.t, s.h.peak)
  }

  ghost function CV<T>(s: State<T>): CView<T>
    requires CoreOf(s)
  {
    ConsumerView(s.blocks, s.h.ring, s.h.t, s.h.enq, s.h.deq, s.h.sawEmpty)
  }

  ghost predicate Inv<T>(s: State<T>)
  {
    && CoreOf(s)
    && SizesOk(s)
    && PInv(s.p, PV(s)) && CInv(s.c, CV(s))
    && s.h.peak >= Resident(s) && (Resident(s) == 0 ==> s.h.sawEmpty)
  }

  // ---------------------------------------------------------------------------
  // What one side knows survives the steps of the other
  // ---------------------------------------------------------------------------

  /** Nothing the producer relies on is changed by the consumer. */
  ghost predicate PStable<T>(w: PView<T>, w': PView<T>)
  {
    && w'.tb == w.tb && w'.tail.size == w.tail.size && w'.tail.tail == w.tail.tail
    && w'.tail.localFront == w.tail.localFront && w'.tail.data == w.tail.data && w'.tail.next == w.tail.next
    && (w'.behind ==> w.behind && Len(w'.tail) == Len(w.tail))
    && (w.hasNext ==> w'.hasNext && w'.nb == w.nb && SameForProducer(w.next, w'.next))
    && w'.peak >= w.peak
  }

  /** The consumer may only have refreshed its shadow copy. */
  ghost predicate SameForProducer<T>(b: Block<T>, b': Block<T>)
  {
    b'.localTail < b'.size && b' == b.(localTail := b'.localTail)
  }

  lemma {:induction false} ProducerUndisturbed<T>(p: Producer<T>, w: PView<T>, w': PView<T>)
    requires PInv(p, w) && PStable(w, w')
    ensures PInv(p, w')
  {
    if p.PStoreTailBlock? {
      assert Contents(w'.next) == Contents(w.next);
    }
  }

  /** Nothing the consumer relies on is changed by the producer. */
  ghost predicate CStable<T>(w: CView<T>, w': CView<T>)
  {
    && w'.fb == w.fb && w'.front.size == w.front.size && w'.front.front == w.front.front
    && w'.front.localTail == w.front.localTail && Len(w'.front) >= Len(w.front)
    && |w'.front.data| == |w.front.data|
    && (Len(w.front) > 0 && w.front.front < |w.front.data|
        ==> w'.front.data[w.front.front] == w.front.data[w.front.front])
    && (w.ahead ==> w'.ahead && Len(w'.front) == Len(w.front) && w'.front.tail == w.front.tail
                    && w'.nb == w.nb && w'.next.front == w.next.front && w'.next.localTail == w.next.localTail)
    && w'.deq == w.deq && |w.enq| <= |w'.enq| && w'.enq[..|w.enq|] == w.enq
    && (w.sawEmpty ==> w'.sawEmpty)
  }

  lemma {:induction false} ConsumerUndisturbed<T>(c: Consumer<T>, w: CView<T>, w': CView<T>)
    requires CInv(c, w) && CStable(w, w')
    ensures CInv(c, w')
  {
  }

  lemma {:induction false} ObserveKeeps<T>(s: State<T>)
    requires CoreOf(s) && SizesOk(s) && PInv(s.p, PV(s)) && CInv(s.c, CV(s))
    ensures Inv(Observe(s))
  {
    ProducerUndisturbed(s.p, PV(s), PV(Observe(s)));
    ConsumerUndisturbed(s.c, CV(s), CV(Observe(s)));
  }

  /** A step of the producer. */
  lemma {:induction false} ProducerTo<T>(s: State<T>, s': State<T>)
    requires Inv(s) && s'.c == s.c
    requires CoreOf(s') && SizesOk(s') && PInv(s'.p, PV(s')) && CStable(CV(s), CV(s'))
    ensures Inv(Observe(s'))
  {
    ConsumerUndisturbed(s.c, CV(s), CV(s'));
    ObserveKeeps(s');
  }

  ghost function ProducerDone<T>(
    s: State<T>, blocks: seq<Block<T>>, ring: seq<nat>, enq: seq<T>, p: Producer<T>): State<T>
  {
    s.(blocks := blocks, p := p, h := s.h.(ring := ring, enq := enq))
  }

  /** A step of the producer, by what it makes of the blocks, of their order on the ring and of the queue. */
  lemma {:induction false} ProducerPuts<T>(
    s: State<T>, blocks: seq<Block<T>>, ring: seq<nat>, enq: seq<T>, p: Producer<T>)
    requires Inv(s)
    requires Core(blocks, ring, s.h.t, s.frontBlock, s.tailBlock, p.PStoreTailBlock?, enq, s.h.deq)
    requires PInv(p, ProducerView(blocks, ring, s.h.t, s.h.peak))
    requires CStable(ConsumerView(s.blocks, s.h.ring, s.h.t, s.h.enq, s.h.deq, s.h.sawEmpty),
                     ConsumerView(blocks, ring, s.h.t, enq, s.h.deq, s.h.sawEmpty))
    ensures Inv(Observe(ProducerDone(s, blocks, ring, enq, p)))
  {
    ProducerTo(s, ProducerDone(s, blocks, ring, enq, p));
  }

  /** A step of the consumer. */
  lemma {:induction false} ConsumerTo<T>(s: State<T>, s': State<T>)
    requires Inv(s) && s'.p == s.p
    requires CoreOf(s') && SizesOk(s') && CInv(s'.c, CV(s')) && PStable(PV(s), PV(s'))
    ensures Inv(Observe(s'))
  {
    ProducerUndisturbed(s.p, PV(s), PV(s'));
    ObserveKeeps(s');
  }

  ghost function ConsumerDone<T>(s: State<T>, blocks: seq<Block<T>>, ring: seq<nat>, t: nat, fb: nat, deq: seq<T>,
                                 c: Consumer<T>): State<T>
  {
    s.(blocks := blocks, frontBlock := fb, c := c, h := s.h.(ring := ring, t := t, deq := deq))
  }

  /** A step of the consumer, by what it makes of the blocks, of the ring and of the queue. */
  lemma {:induction false} ConsumerPuts<T>(
    s: State<T>, blocks: seq<Block<T>>, ring: seq<nat>, t: nat, fb: nat, deq: seq<T>, c: Consumer<T>)
    requires Inv(s)
    requires Core(blocks, ring, t, fb, s.tailBlock, s.p.PStoreTailBlock?, s.h.enq, deq)
    requires CInv(c, ConsumerView(blocks, ring, t, s.h.enq, deq, s.h.sawEmpty))
    requires PStable(ProducerView(s.blocks, s.h.ring, s.h.t, s.h.peak), ProducerView(blocks, ring, t, s.h.peak))
    ensures Inv(Observe(ConsumerDone(s, blocks, ring, t, fb, deq, c)))
  {
    ConsumerTo(s, ConsumerDone(s, blocks, ring, t, fb, deq, c));
  }

  // ---------------------------------------------------------------------------
  // Lemmas on the arc
  // ---------------------------------------------------------------------------

  /** One block of the ring changed, but not its link. */
  lemma {:induction false} ShapeAfterUpdate<T>(
    blocks: seq<Block<T>>, ring: seq<nat>, t: nat, fb: nat, tb: nat, k: nat, b: Block<T>)
    requires Shape(blocks, ring, t, fb, tb) && k < |blocks|
    requires BlockOk(b) && b.next == blocks[k].next
    ensures Shape(blocks[k := b], ring, t, fb, tb)
  {
    var blocks' := blocks[k := b];
    forall i | 0 <= i < |ring| ensures LinkAt(blocks', ring, i) {
      assert LinkAt(blocks, ring, i);
    }
  }

  /** A change that keeps what a block holds keeps the arc and the order of the elements. */
  lemma {:induction false} KeepsContents<T>(blocks: seq<Block<T>>, ring: seq<nat>, t: nat, pending: bool,
                         enq: seq<T>, deq: seq<T>, k: nat, b: Block<T>)
    requires AllOk(blocks) && Permutes(ring, |blocks|) && t < |ring| && k < |blocks|
    requires Arc(blocks, ring, t, pending) && Fifo(blocks, ring, t, enq, deq)
    requires BlockOk(b) && b.size == blocks[k].size && Contents(b) == Contents(blocks[k])
    ensures Arc(blocks[k := b], ring, t, pending) && AllOk(blocks[k := b])
    ensures Fifo(blocks[k := b], ring, t, enq, deq)
  {
    assert Len(b) == |Contents(b)| == Len(blocks[k]);
    FlattenSame(blocks, blocks[k := b], ring[..t + 1]);
  }

  lemma {:induction false} ResidentCountsTail<T>(s: State<T>)
    requires Shape(s.blocks, s.h.ring, s.h.t, s.frontBlock, s.tailBlock)
    requires Fifo(s.blocks, s.h.ring, s.h.t, s.h.enq, s.h.deq)
    ensures Resident(s) >= Len(s.blocks[s.tailBlock])
  {
    assert s.h.ring[..s.h.t + 1] == s.h.ring[..s.h.t] + [s.tailBlock];
    FlattenSnoc(s.blocks, s.h.ring[..s.h.t], s.tailBlock);
  }

  /** An element appended to the tail block is appended to the queue. */
  lemma {:induction false} PushKeepsFifo<T>(
    blocks: seq<Block<T>>, ring: seq<nat>, t: nat, enq: seq<T>, deq: seq<T>, b: Block<T>, v: T)
    requires AllOk(blocks) && Permutes(ring, |blocks|) && t < |ring| && Fifo(blocks, ring, t, enq, deq)
    requires BlockOk(b) && Contents(b) == Contents(blocks[ring[t]]) + [v]
    ensures AllOk(blocks[ring[t] := b]) && Fifo(blocks[ring[t] := b], ring, t, enq + [v], deq)
  {
    var blocks' := blocks[ring[t] := b];
    assert ring[..t + 1] == ring[..t] + [ring[t]];
    FlattenSnoc(blocks, ring[..t], ring[t]);
    FlattenSnoc(blocks', ring[..t], ring[t]);
    FlattenSame(blocks, blocks', ring[..t]);
  }

  /** What happens to a block off the arc is not seen in the queue. */
  lemma {:induction false} OffArcKeepsFifo<T>(
    blocks: seq<Block<T>>, ring: seq<nat>, t: nat, enq: seq<T>, deq: seq<T>, j: nat, b: Block<T>)
    requires AllOk(blocks) && Permutes(ring, |blocks|) && t < j < |ring| && Fifo(blocks, ring, t, enq, deq)
    requires BlockOk(b)
    ensures AllOk(blocks[ring[j] := b]) && Fifo(blocks[ring[j] := b], ring, t, enq, deq)
  {
    FlattenSame(blocks, blocks[ring[j] := b], ring[..t + 1]);
  }

  /** An element taken from the front block is taken from the queue. */
  lemma {:induction false} PopKeepsFifo<T>(
    blocks: seq<Block<T>>, ring: seq<nat>, t: nat, enq: seq<T>, deq: seq<T>, b: Block<T>, v: T)
    requires AllOk(blocks) && Permutes(ring, |blocks|) && t < |ring| && Fifo(blocks, ring, t, enq, deq)
    requires BlockOk(b) && Contents(blocks[ring[0]]) == [v] + Contents(b)
    ensures AllOk(blocks[ring[0] := b]) && Fifo(blocks[ring[0] := b], ring, t, enq, deq + [v])
  {
    var blocks' := blocks[ring[0] := b];
    var ids := ring[..t + 1];
    FlattenSame(blocks, blocks', ids[1..]);
    var rest := Flatten(blocks', ids[1..]);
    assert Flatten(blocks, ids) == Contents(blocks[ring[0]]) + rest;
    assert Flatten(blocks', ids) == Contents(b) + rest;
    assert Flatten(blocks, ids) == [v] + Flatten(blocks', ids);
  }

  /** The tail moves on to the next block of the ring. */
  lemma {:induction false} ExtendArcKeepsFifo<T>(
    blocks: seq<Block<T>>, ring: seq<nat>, t: nat, enq: seq<T>, deq: seq<T>, v: T)
    requires AllOk(blocks) && Permutes(ring, |blocks|) && t + 1 < |ring| && Fifo(blocks, ring, t, enq, deq)
    requires Contents(blocks[ring[t + 1]]) == [v]
    ensures Fifo(blocks, ring, t + 1, enq + [v], deq)
  {
    assert ring[..t + 2] == ring[..t + 1] + [ring[t + 1]];
    FlattenSnoc(blocks, ring[..t + 1], ring[t + 1]);
  }

  function Rotated(ring: seq<nat>): seq<nat>
    requires ring != []
  {
    ring[1..] + [ring[0]]
  }

  /** The front moves on from an empty block. */
  lemma {:induction false} ShrinkArcKeepsFifo<T>(
    blocks: seq<Block<T>>, ring: seq<nat>, t: nat, enq: seq<T>, deq: seq<T>)
    requires AllOk(blocks) && Permutes(ring, |blocks|) && 0 < t < |ring| && Fifo(blocks, ring, t, enq, deq)
    requires Len(blocks[ring[0]]) == 0
    ensures Permutes(Rotated(ring), |blocks|) && Fifo(blocks, Rotated(ring), t - 1, enq, deq)
  {
    assert Rotated(ring)[..t] == ring[..t + 1][1..];
  }

  lemma {:induction false} RotatedShape<T>(blocks: seq<Block<T>>, ring: seq<nat>, t: nat, fb: nat, tb: nat)
    requires Shape(blocks, ring, t, fb, tb) && t > 0
    ensures Shape(blocks, Rotated(ring), t - 1, ring[1], tb)
  {
    var r := Rotated(ring);
    forall i | 0 <= i < |r| ensures LinkAt(blocks, r, i) {
      assert LinkAt(blocks, ring, After(i, |r|));
    }
  }

  lemma {:induction false} RotatedArc<T>(blocks: seq<Block<T>>, ring: seq<nat>, t: nat, pending: bool)
    requires Permutes(ring, |blocks|) && 0 < t < |ring| && Arc(blocks, ring, t, pending)
    requires pending ==> t + 1 < |ring|
    requires Len(blocks[ring[0]]) == 0
    ensures Permutes(Rotated(ring), |blocks|) && Arc(blocks, Rotated(ring), t - 1, pending)
  {
    var r := Rotated(ring);
    assert forall i :: 0 <= i < |r| - 1 ==> r[i] == ring[i + 1];
  }

  function Inserted(ring: seq<nat>, t: nat, id: nat): seq<nat>
    requires t < |ring|
  {
    ring[..t + 1] + [id] + ring[t + 1..]
  }

  function LinkedIn<T>(blocks: seq<Block<T>>, tb: nat, blk: Block<T>): seq<Block<T>>
    requires tb < |blocks|
  {
    blocks[tb := blocks[tb].(next := |blocks|)] + [blk]
  }

  lemma {:induction false} InsertedAt(ring: seq<nat>, t: nat, id: nat, i: nat)
    requires t < |ring| && i <= |ring|
    ensures Inserted(ring, t, id)[i] == if i <= t then ring[i] else if i == t + 1 then id else ring[i - 1]
  {
  }

  lemma {:induction false} InsertedPermutes(ring: seq<nat>, t: nat, n: nat)
    requires Permutes(ring, n) && t < n
    ensures Permutes(Inserted(ring, t, n), n + 1)
  {
    var r := Inserted(ring, t, n);
    forall i | 0 <= i < n + 1 ensures r[i] < n + 1 {
      InsertedAt(ring, t, n, i);
    }
    forall i, j | 0 <= i < j < n + 1 ensures r[i] != r[j] {
      InsertedAt(ring, t, n, i);
      InsertedAt(ring, t, n, j);
    }
  }

  /** A new block linked in after the tail block. */
  lemma {:induction false} InsertedShape<T>(
    blocks: seq<Block<T>>, ring: seq<nat>, t: nat, fb: nat, tb: nat, blk: Block<T>)
    requires Shape(blocks, ring, t, fb, tb)
    requires BlockOk(blk) && blk.next == blocks[tb].next
    ensures Shape(LinkedIn(blocks, tb, blk), Inserted(ring, t, |blocks|), t, fb, tb)
  {
    var n := |blocks|;
    var bs := LinkedIn(blocks, tb, blk);
    var r := Inserted(ring, t, n);
    InsertedPermutes(ring, t, n);
    forall i | 0 <= i < |r| ensures LinkAt(bs, r, i) {
      assert LinkAt(blocks, ring, if i <= t then i else i - 1);
      InsertedAt(ring, t, n, i);
      InsertedAt(ring, t, n, After(i, n + 1));
    }
  }

  lemma {:induction false} InsertedArc<T>(blocks: seq<Block<T>>, ring: seq<nat>, t: nat, tb: nat, blk: Block<T>)
    requires Permutes(ring, |blocks|) && t < |ring| && ring[t] == tb && Arc(blocks, ring, t, false)
    requires Permutes(Inserted(ring, t, |blocks|), |blocks| + 1)
    ensures Arc(LinkedIn(blocks, tb, blk), Inserted(ring, t, |blocks|), t, true)
  {
    var r := Inserted(ring, t, |blocks|);
    assert forall i :: 0 <= i <= t ==> r[i] == ring[i];
    assert forall i :: t + 1 < i < |r| ==> r[i] == ring[i - 1];
  }

  lemma {:induction false} InsertedFifo<T>(
    blocks: seq<Block<T>>, ring: seq<nat>, t: nat, tb: nat, blk: Block<T>, enq: seq<T>, deq: seq<T>)
    requires AllOk(blocks) && Permutes(ring, |blocks|) && t < |ring| && ring[t] == tb
    requires Fifo(blocks, ring, t, enq, deq) && AllOk(LinkedIn(blocks, tb, blk))
    requires Permutes(Inserted(ring, t, |blocks|), |blocks| + 1)
    ensures Fifo(LinkedIn(blocks, tb, blk), Inserted(ring, t, |blocks|), t, enq, deq)
  {
    var bs := LinkedIn(blocks, tb, blk);
    assert Inserted(ring, t, |blocks|)[..t + 1] == ring[..t + 1];
    forall i | 0 <= i < t + 1 ensures Contents(blocks[ring[i]]) == Contents(bs[ring[i]]) {
      assert bs[ring[i]] == blocks[ring[i]].(next := bs[ring[i]].next);
    }
    FlattenSame(blocks, bs, ring[..t + 1]);
  }
}
