/** Every step of the producer and of the consumer keeps the invariant of the queue. */
module SpscSteps {
  import opened SpscQueue
  import opened SpscInvariant

  // ---------------------------------------------------------------------------
  // Producer
  // ---------------------------------------------------------------------------

  /** A step that only moves the producer's program counter. */
  lemma {:induction false} ProducerMoves<T>(s: State<T>, p': Producer<T>)
    requires Inv(s) && PInv(p', PV(s)) && !s.p.PStoreTailBlock? && !p'.PStoreTailBlock?
    ensures Inv(Observe(s.(p := p')))
  {
    ObserveKeeps(s.(p := p'));
  }

  lemma {:induction false} BeginEnqueueKeeps<T>(s: State<T>, v: T, alloc: bool)
    requires Inv(s)
    ensures Inv(Next(s, BeginEnqueue(v, alloc)))
  {
    if s.p.PIdle? {
      ObserveKeeps(s.(p := PLoadTailBlock(v, alloc), h := s.h.(peak := 0)));
    }
  }

  lemma {:induction false} CompareTailKeeps<T>(s: State<T>, v: T, alloc: bool, tb: nat, bf: nat)
    requires Inv(s) && s.p == PLoadTail(v, alloc, tb, bf)
    ensures Inv(Observe(CompareTail(s, v, alloc, tb, bf)))
  {
    ProducerMoves(s, CompareTail(s, v, alloc, tb, bf).p);
  }

  lemma {:induction false} CompareFrontBlockKeeps<T>(s: State<T>, v: T, alloc: bool, tb: nat, nx: nat)
    requires Inv(s) && s.p == PLoadFrontBlock(v, alloc, tb, nx)
    ensures Inv(Observe(CompareFrontBlock(s, v, alloc, tb, nx)))
  {
    assert LinkAt(s.blocks, s.h.ring, s.h.t);
    ProducerMoves(s, CompareFrontBlock(s, v, alloc, tb, nx).p);
  }

  /** Refreshing a shadow copy changes nothing that the block holds. */
  lemma {:induction false} RefreshLocalFront<T>(b: Block<T>)
    requires BlockOk(b)
    ensures SameBlock(b, b.(localFront := b.front))
  {
  }

  /** `b` is `a` with the same elements, link and indices; only spare cells and the
      producer's shadow copy may differ. */
  ghost predicate SameBlock<T>(a: Block<T>, b: Block<T>)
    requires BlockOk(a)
  {
    && BlockOk(b) && b.next == a.next && b.size == a.size
    && b.front == a.front && b.tail == a.tail && b.localTail == a.localTail
    && Contents(b) == Contents(a)
  }

  lemma {:induction false} SpareCellSame<T>(b: Block<T>, v: T)
    requires BlockOk(b)
    ensures SameBlock(b, SetCell(b, b.tail, v)) && SetCell(b, b.tail, v).data[b.tail] == v
    ensures SetCell(b, b.tail, v).localFront == b.localFront
  {
    WriteSpareCell(b, v);
  }

  lemma {:induction false} RewriteUnseen<T>(
    blocks: seq<Block<T>>, ring: seq<nat>, t: nat, enq: seq<T>, deq: seq<T>, e: bool,
    k: nat, b: Block<T>)
    requires AllOk(blocks) && Permutes(ring, |blocks|) && t < |ring| && k < |blocks| && SameBlock(blocks[k], b)
    ensures CStable(ConsumerView(blocks, ring, t, enq, deq, e), ConsumerView(blocks[k := b], ring, t, enq, deq, e))
  {
    if Len(b) > 0 {
      assert b.data[b.front] == Contents(b)[0] == Contents(blocks[k])[0] == blocks[k].data[b.front];
    }
  }

  /** A step of the producer that keeps what block `k` holds. */
  lemma {:induction false} ProducerRewrites<T>(s: State<T>, k: nat, b: Block<T>, p': Producer<T>)
    requires Inv(s) && k < |s.blocks| && SameBlock(s.blocks[k], b)
    requires !s.p.PStoreTailBlock? && !p'.PStoreTailBlock?
    requires PInv(p', ProducerView(s.blocks[k := b], s.h.ring, s.h.t, s.h.peak))
    ensures Inv(Observe(s.(blocks := s.blocks[k := b], p := p')))
  {
    ShapeAfterUpdate(s.blocks, s.h.ring, s.h.t, s.frontBlock, s.tailBlock, k, b);
    KeepsContents(s.blocks, s.h.ring, s.h.t, false, s.h.enq, s.h.deq, k, b);
    RewriteUnseen(s.blocks, s.h.ring, s.h.t, s.h.enq, s.h.deq, s.h.sawEmpty, k, b);
    ProducerTo(s, s.(blocks := s.blocks[k := b], p := p'));
  }

  ghost function AfterRefresh<T>(b: Block<T>, v: T, alloc: bool, tb: nat, bt: nat): Producer<T>
  {
    if Wrap(bt + 1, b.size) != b.localFront then PConstruct(v, tb, bt) else PLoadNext(v, alloc, tb)
  }

  lemma {:induction false} RefreshFrontFacts<T>(s: State<T>, v: T, alloc: bool, tb: nat, bt: nat)
    requires Inv(s) && s.p == PLoadFront(v, alloc, tb, bt)
    ensures AllOk(s.blocks) && Permutes(s.h.ring, |s.blocks|) && s.h.t < |s.h.ring|
    ensures s.h.ring[s.h.t] == tb < |s.blocks| && s.blocks[tb].tail == bt && s.h.peak >= Len(s.blocks[tb])
  {
    ResidentCountsTail(s);
  }

  lemma {:induction false} RefreshFrontKnows<T>(blocks: seq<Block<T>>, ring: seq<nat>, t: nat, peak: nat,
                                                v: T, alloc: bool, tb: nat, bt: nat)
    requires AllOk(blocks) && Permutes(ring, |blocks|) && t < |ring|
    requires ring[t] == tb < |blocks| && blocks[tb].tail == bt && peak >= Len(blocks[tb])
    ensures var b := blocks[tb].(localFront := blocks[tb].front);
            && SameBlock(blocks[tb], b)
            && PInv(AfterRefresh(b, v, alloc, tb, bt), ProducerView(blocks[tb := b], ring, t, peak))
  {
    RefreshLocalFront(blocks[tb]);
  }

  lemma {:induction false} RefreshFrontKeeps<T>(s: State<T>, v: T, alloc: bool, tb: nat, bt: nat)
    requires Inv(s) && s.p == PLoadFront(v, alloc, tb, bt)
    ensures Inv(Observe(RefreshFront(s, v, alloc, tb, bt)))
  {
    RefreshFrontFacts(s, v, alloc, tb, bt);
    RefreshFrontKnows(s.blocks, s.h.ring, s.h.t, s.h.peak, v, alloc, tb, bt);
    var b := s.blocks[tb].(localFront := s.blocks[tb].front);
    assert RefreshFront(s, v, alloc, tb, bt) == s.(blocks := s.blocks[tb := b], p := AfterRefresh(b, v, alloc, tb, bt));
    ProducerRewrites(s, tb, b, AfterRefresh(b, v, alloc, tb, bt));
  }

  lemma {:induction false} ConstructFacts<T>(s: State<T>, v: T, tb: nat, bt: nat)
    requires Inv(s) && s.p == PConstruct(v, tb, bt)
    ensures AllOk(s.blocks) && Permutes(s.h.ring, |s.blocks|) && s.h.t < |s.h.ring|
    ensures s.h.ring[s.h.t] == tb < |s.blocks| && s.blocks[tb].tail == bt
    ensures Wrap(bt + 1, s.blocks[tb].size) != s.blocks[tb].localFront
    ensures Construct(s, v, tb, bt)
         == s.(blocks := s.blocks[tb := SetCell(s.blocks[tb], bt, v)], p := PStoreTail(v, tb, bt))
  {
  }

  lemma {:induction false} ConstructKnows<T>(
    blocks: seq<Block<T>>, ring: seq<nat>, t: nat, peak: nat, v: T, tb: nat, bt: nat)
    requires AllOk(blocks) && Permutes(ring, |blocks|) && t < |ring| && ring[t] == tb < |blocks|
             && blocks[tb].tail == bt
    requires Wrap(bt + 1, blocks[tb].size) != blocks[tb].localFront
    ensures var b := SetCell(blocks[tb], bt, v);
            SameBlock(blocks[tb], b) && PInv(PStoreTail(v, tb, bt), ProducerView(blocks[tb := b], ring, t, peak))
  {
    SpareCellSame(blocks[tb], v);
  }

  lemma {:induction false} ConstructKeeps<T>(s: State<T>, v: T, tb: nat, bt: nat)
    requires Inv(s) && s.p == PConstruct(v, tb, bt)
    ensures Inv(Observe(Construct(s, v, tb, bt)))
  {
    ConstructFacts(s, v, tb, bt);
    ConstructKnows(s.blocks, s.h.ring, s.h.t, s.h.peak, v, tb, bt);
    ProducerRewrites(s, tb, SetCell(s.blocks[tb], bt, v), PStoreTail(v, tb, bt));
  }

  lemma {:induction false} RefreshNextFrontKeeps<T>(s: State<T>, v: T, nb: nat)
    requires Inv(s) && s.p == PLoadNextFront(v, nb)
    ensures Inv(Observe(RefreshNextFront(s, v, nb)))
  {
    RefreshLocalFront(s.blocks[nb]);
    ProducerRewrites(s, nb, s.blocks[nb].(localFront := s.blocks[nb].front), RefreshNextFront(s, v, nb).p);
  }

  lemma {:induction false} CheckNextTailFacts<T>(s: State<T>, v: T, nb: nat, nf: nat)
    requires Inv(s) && s.p == PLoadNextTail(v, nb, nf)
    ensures nb < |s.blocks|
    ensures var b := s.blocks[nb].(localFront := s.blocks[nb].front);
            CheckNextTail(s, v, nb, nf) == s.(blocks := s.blocks[nb := b], p := PConstructNext(v, nb, b.tail))
  {
    assert s.h.ring[s.h.t + 1] == nb && Len(s.blocks[nb]) == 0;
  }

  lemma {:induction false} CheckNextTailKnows<T>(s: State<T>, v: T, nb: nat, nf: nat)
    requires Inv(s) && s.p == PLoadNextTail(v, nb, nf)
    ensures nb < |s.blocks|
    ensures var b := s.blocks[nb].(localFront := s.blocks[nb].front);
            && SameBlock(s.blocks[nb], b)
            && PInv(PConstructNext(v, nb, b.tail), ProducerView(s.blocks[nb := b], s.h.ring, s.h.t, s.h.peak))
  {
    assert s.h.ring[s.h.t + 1] == nb && Len(s.blocks[nb]) == 0;
    RefreshLocalFront(s.blocks[nb]);
  }

  lemma {:induction false} CheckNextTailKeeps<T>(s: State<T>, v: T, nb: nat, nf: nat)
    requires Inv(s) && s.p == PLoadNextTail(v, nb, nf)
    ensures Inv(Observe(CheckNextTail(s, v, nb, nf)))
  {
    CheckNextTailFacts(s, v, nb, nf);
    CheckNextTailKnows(s, v, nb, nf);
    var b := s.blocks[nb].(localFront := s.blocks[nb].front);
    ProducerRewrites(s, nb, b, PConstructNext(v, nb, b.tail));
  }

  lemma {:induction false} ConstructNextKnows<T>(s: State<T>, v: T, nb: nat, nt: nat)
    requires Inv(s) && s.p == PConstructNext(v, nb, nt)
    ensures nb < |s.blocks|
    ensures var b := SetCell(s.blocks[nb], nt, v);
            && SameBlock(s.blocks[nb], b)
            && PInv(PStoreNextTail(v, nb, nt), ProducerView(s.blocks[nb := b], s.h.ring, s.h.t, s.h.peak))
  {
    SpareCellSame(s.blocks[nb], v);
  }

  lemma {:induction false} ConstructNextKeeps<T>(s: State<T>, v: T, nb: nat, nt: nat)
    requires Inv(s) && s.p == PConstructNext(v, nb, nt)
    ensures Inv(Observe(ConstructNext(s, v, nb, nt)))
  {
    ConstructNextKnows(s, v, nb, nt);
    var b := SetCell(s.blocks[nb], nt, v);
    assert ConstructNext(s, v, nb, nt) == s.(blocks := s.blocks[nb := b], p := PStoreNextTail(v, nb, nt));
    ProducerRewrites(s, nb, b, PStoreNextTail(v, nb, nt));
  }

  /** Room for one more: the tail may advance without meeting the front. */
  lemma {:induction false} AdvanceTail<T>(b: Block<T>)
    requires BlockOk(b) && Wrap(b.tail + 1, b.size) != b.localFront
    ensures Len(b) < b.size - 1 && BlockOk(b.(tail := Wrap(b.tail + 1, b.size)))
  {
  }

  /** A block with one more element at its end. */
  ghost predicate Pushed<T>(b: Block<T>, b': Block<T>, v: T)
    requires BlockOk(b)
  {
    && BlockOk(b') && Contents(b') == Contents(b) + [v]
    && b' == b.(tail := Wrap(b.tail + 1, b.size)) && b'.tail < b.size
  }

  lemma {:induction false} PushOne<T>(b: Block<T>, v: T)
    requires BlockOk(b) && Wrap(b.tail + 1, b.size) != b.localFront && b.data[b.tail] == v
    ensures Pushed(b, b.(tail := Wrap(b.tail + 1, b.size)), v)
  {
    AdvanceTail(b);
    PushTail(b);
  }

  lemma {:induction false} StoreTailCore<T>(blocks: seq<Block<T>>, ring: seq<nat>, t: nat, fb: nat, tb: nat,
                         enq: seq<T>, deq: seq<T>, b': Block<T>, v: T)
    requires Core(blocks, ring, t, fb, tb, false, enq, deq) && Pushed(blocks[tb], b', v)
    ensures Core(blocks[tb := b'], ring, t, fb, tb, false, enq + [v], deq)
  {
    ShapeAfterUpdate(blocks, ring, t, fb, tb, tb, b');
    PushKeepsFifo(blocks, ring, t, enq, deq, b', v);
    assert Len(b') == |Contents(b')|;
  }

  lemma {:induction false} StoreTailStable<T>(blocks: seq<Block<T>>, ring: seq<nat>, t: nat, tb: nat,
                           enq: seq<T>, deq: seq<T>, e: bool, b': Block<T>, v: T)
    requires AllOk(blocks) && Permutes(ring, |blocks|) && t < |ring| && ring[t] == tb && Pushed(blocks[tb], b', v)
    ensures CStable(ConsumerView(blocks, ring, t, enq, deq, e),
                    ConsumerView(blocks[tb := b'], ring, t, enq + [v], deq, e))
  {
    assert Len(b') == |Contents(b')| && Len(blocks[tb]) == |Contents(blocks[tb])|;
  }

  lemma {:induction false} StoreTailAll<T>(blocks: seq<Block<T>>, ring: seq<nat>, t: nat, fb: nat, tb: nat,
                        enq: seq<T>, deq: seq<T>, e: bool, b': Block<T>, v: T)
    requires Core(blocks, ring, t, fb, tb, false, enq, deq)
    requires b' == blocks[tb].(tail := Wrap(blocks[tb].tail + 1, blocks[tb].size))
    requires Wrap(blocks[tb].tail + 1, blocks[tb].size) != blocks[tb].localFront
    requires blocks[tb].data[blocks[tb].tail] == v
    ensures Core(blocks[tb := b'], ring, t, fb, tb, false, enq + [v], deq)
    ensures CStable(ConsumerView(blocks, ring, t, enq, deq, e),
                    ConsumerView(blocks[tb := b'], ring, t, enq + [v], deq, e))
  {
    PushOne(blocks[tb], v);
    StoreTailCore(blocks, ring, t, fb, tb, enq, deq, b', v);
    StoreTailStable(blocks, ring, t, tb, enq, deq, e, b', v);
  }

  lemma {:induction false} StoreTailFacts<T>(s: State<T>, v: T, tb: nat, bt: nat)
    requires CoreOf(s) && s.p == PStoreTail(v, tb, bt) && PInv(s.p, PV(s))
    ensures tb == s.tailBlock < |s.blocks| && s.blocks[tb].tail == bt
    ensures Wrap(bt + 1, s.blocks[tb].size) != s.blocks[tb].localFront
    ensures bt < |s.blocks[tb].data| && s.blocks[tb].data[bt] == v
  {
  }

  lemma {:induction false} StoreTailPuts<T>(s: State<T>, v: T, tb: nat, bt: nat)
    requires CoreOf(s) && s.p == PStoreTail(v, tb, bt) && PInv(s.p, PV(s))
    ensures tb < |s.blocks|
    ensures var blocks := s.blocks[tb := s.blocks[tb].(tail := Wrap(bt + 1, s.blocks[tb].size))];
            && Core(blocks, s.h.ring, s.h.t, s.frontBlock, s.tailBlock, false, s.h.enq + [v], s.h.deq)
            && CStable(CV(s), ConsumerView(blocks, s.h.ring, s.h.t, s.h.enq + [v], s.h.deq, s.h.sawEmpty))
  {
    StoreTailFacts(s, v, tb, bt);
    var b' := s.blocks[tb].(tail := Wrap(bt + 1, s.blocks[tb].size));
    StoreTailAll(s.blocks, s.h.ring, s.h.t, s.frontBlock, s.tailBlock, s.h.enq, s.h.deq, s.h.sawEmpty, b', v);
  }

  lemma {:induction false} StoreTailIs<T>(s: State<T>, v: T, tb: nat, bt: nat)
    requires tb < |s.blocks|
    ensures var blocks := s.blocks[tb := s.blocks[tb].(tail := Wrap(bt + 1, s.blocks[tb].size))];
            StoreTail(s, v, tb, bt) == ProducerDone(s, blocks, s.h.ring, s.h.enq + [v], PIdle(Stored))
  {
  }

  lemma {:induction false} StoreTailKeeps<T>(s: State<T>, v: T, tb: nat, bt: nat)
    requires Inv(s) && s.p == PStoreTail(v, tb, bt)
    ensures Inv(Observe(StoreTail(s, v, tb, bt)))
  {
    StoreTailPuts(s, v, tb, bt);
    var blocks := s.blocks[tb := s.blocks[tb].(tail := Wrap(bt + 1, s.blocks[tb].size))];
    StoreTailIs(s, v, tb, bt);
    ProducerPuts(s, blocks, s.h.ring, s.h.enq + [v], PIdle(Stored));
  }

  lemma {:induction false} StoreNextTailCore<T>(blocks: seq<Block<T>>, ring: seq<nat>, t: nat, fb: nat, tb: nat,
                             enq: seq<T>, deq: seq<T>, nb: nat, b': Block<T>)
    requires Core(blocks, ring, t, fb, tb, false, enq, deq)
    requires t + 1 < |ring| && ring[t + 1] == nb && BlockOk(b') && b'.next == blocks[nb].next
    ensures Core(blocks[nb := b'], ring, t, fb, tb, true, enq, deq)
  {
    ShapeAfterUpdate(blocks, ring, t, fb, tb, nb, b');
    OffArcKeepsFifo(blocks, ring, t, enq, deq, t + 1, b');
  }

  /** The consumer sees nothing of the block past the tail. */
  lemma {:induction false} StoreNextTailStable<T>(blocks: seq<Block<T>>, ring: seq<nat>, t: nat,
                               enq: seq<T>, deq: seq<T>, e: bool, nb: nat, b': Block<T>)
    requires AllOk(blocks) && Permutes(ring, |blocks|) && t + 1 < |ring| && ring[t + 1] == nb
    ensures CStable(ConsumerView(blocks, ring, t, enq, deq, e), ConsumerView(blocks[nb := b'], ring, t, enq, deq, e))
  {
    assert ring[0] != nb && (t > 0 ==> ring[1] != nb);
  }

  lemma {:induction false} FirstPushed<T>(b: Block<T>, v: T)
    requires BlockOk(b) && Len(b) == 0 && b.tail == b.localFront && b.data[b.tail] == v
    ensures var b' := b.(tail := Wrap(b.tail + 1, b.size)); BlockOk(b') && Contents(b') == [v]
  {
    PushOne(b, v);
    assert Contents(b) == [];
  }

  lemma {:induction false} StoreNextTailAll<T>(blocks: seq<Block<T>>, ring: seq<nat>, t: nat, fb: nat, tb: nat,
                            enq: seq<T>, deq: seq<T>, e: bool, nb: nat, b': Block<T>, v: T)
    requires Core(blocks, ring, t, fb, tb, false, enq, deq)
    requires t + 1 < |ring| && ring[t + 1] == nb
    requires b' == blocks[nb].(tail := Wrap(blocks[nb].tail + 1, blocks[nb].size))
    requires blocks[nb].tail == blocks[nb].localFront && blocks[nb].data[blocks[nb].tail] == v
    ensures Core(blocks[nb := b'], ring, t, fb, tb, true, enq, deq)
    ensures CStable(ConsumerView(blocks, ring, t, enq, deq, e), ConsumerView(blocks[nb := b'], ring, t, enq, deq, e))
    ensures BlockOk(b') && Contents(b') == [v]
  {
    FirstPushed(blocks[nb], v);
    StoreNextTailCore(blocks, ring, t, fb, tb, enq, deq, nb, b');
    StoreNextTailStable(blocks, ring, t, enq, deq, e, nb, b');
  }

  lemma {:induction false} StoreNextTailFacts<T>(s: State<T>, v: T, nb: nat, nt: nat)
    requires CoreOf(s) && s.p == PStoreNextTail(v, nb, nt) && PInv(s.p, PV(s))
    ensures s.h.t + 1 < |s.h.ring| && s.h.ring[s.h.t + 1] == nb < |s.blocks|
    ensures s.blocks[nb].tail == nt == s.blocks[nb].localFront
    ensures nt < |s.blocks[nb].data| && s.blocks[nb].data[nt] == v
  {
  }

  lemma {:induction false} StoreNextTailKnows<T>(
    blocks: seq<Block<T>>, ring: seq<nat>, t: nat, peak: nat, v: T, nb: nat, nt: nat, b': Block<T>)
    requires Permutes(ring, |blocks|) && t < |ring| && nb < |blocks|
    requires PInv(PStoreNextTail(v, nb, nt), ProducerView(blocks, ring, t, peak))
    requires BlockOk(b') && Contents(b') == [v]
    ensures PInv(PStoreTailBlock(v, nb), ProducerView(blocks[nb := b'], ring, t, peak))
  {
    assert ring[t] != ring[t + 1] == nb;
  }

  /** What the store makes of the blocks, for the queue, for the producer and for the consumer. */
  lemma {:induction false} StoreNextTailPuts<T>(s: State<T>, v: T, nb: nat, nt: nat)
    requires CoreOf(s) && s.p == PStoreNextTail(v, nb, nt) && PInv(s.p, PV(s))
    ensures nb < |s.blocks|
    ensures var blocks := s.blocks[nb := s.blocks[nb].(tail := Wrap(nt + 1, s.blocks[nb].size))];
            && Core(blocks, s.h.ring, s.h.t, s.frontBlock, s.tailBlock, true, s.h.enq, s.h.deq)
            && PInv(PStoreTailBlock(v, nb), ProducerView(blocks, s.h.ring, s.h.t, s.h.peak))
            && CStable(CV(s), ConsumerView(blocks, s.h.ring, s.h.t, s.h.enq, s.h.deq, s.h.sawEmpty))
  {
    StoreNextTailFacts(s, v, nb, nt);
    var b' := s.blocks[nb].(tail := Wrap(nt + 1, s.blocks[nb].size));
    StoreNextTailAll(s.blocks, s.h.ring, s.h.t, s.frontBlock, s.tailBlock, s.h.enq, s.h.deq, s.h.sawEmpty,
                     nb, b', v);
    StoreNextTailKnows(s.blocks, s.h.ring, s.h.t, s.h.peak, v, nb, nt, b');
  }

  lemma {:induction false} StoreNextTailKeeps<T>(s: State<T>, v: T, nb: nat, nt: nat)
    requires Inv(s) && s.p == PStoreNextTail(v, nb, nt)
    ensures Inv(Observe(StoreNextTail(s, v, nb, nt)))
  {
    StoreNextTailPuts(s, v, nb, nt);
    var blocks := s.blocks[nb := s.blocks[nb].(tail := Wrap(nt + 1, s.blocks[nb].size))];
    assert StoreNextTail(s, v, nb, nt) == ProducerDone(s, blocks, s.h.ring, s.h.enq, PStoreTailBlock(v, nb));
    ProducerPuts(s, blocks, s.h.ring, s.h.enq, PStoreTailBlock(v, nb));
  }

  lemma {:induction false} StoreTailBlockCore<T>(blocks: seq<Block<T>>, ring: seq<nat>, t: nat, fb: nat, tb: nat,
                              enq: seq<T>, deq: seq<T>, e: bool, v: T)
    requires Core(blocks, ring, t, fb, tb, true, enq, deq)
    requires t + 1 < |ring| && Contents(blocks[ring[t + 1]]) == [v]
    requires t > 0 ==> Full(blocks[tb])
    ensures Core(blocks, ring, t + 1, fb, ring[t + 1], false, enq + [v], deq)
    ensures CStable(ConsumerView(blocks, ring, t, enq, deq, e), ConsumerView(blocks, ring, t + 1, enq + [v], deq, e))
  {
    ExtendArcKeepsFifo(blocks, ring, t, enq, deq, v);
  }

  lemma {:induction false} StoreTailBlockKeeps<T>(s: State<T>, v: T, nb: nat)
    requires Inv(s) && s.p == PStoreTailBlock(v, nb)
    ensures Inv(Observe(StoreTailBlock(s, v, nb)))
  {
    StoreTailBlockCore(s.blocks, s.h.ring, s.h.t, s.frontBlock, s.tailBlock, s.h.enq, s.h.deq, s.h.sawEmpty, v);
    ProducerTo(s, StoreTailBlock(s, v, nb));
  }

  lemma {:induction false} FreshIsFresh<T>(size: nat, v: T, junk: T)
    requires size >= 2 && IsPow2(size)
    ensures FreshBlock(SetCell(MakeBlock(size, junk, 0), 0, v).(tail := 1, localTail := 1), v)
  {
  }

  lemma {:induction false} AllocatedKeeps<T>(s: State<T>, v: T, tb: nat, size: nat, blk: Block<T>)
    requires Inv(s) && s.p == PAllocate(v, tb) && FreshBlock(blk, v)
    requires size == if s.largest >= s.cfg.maxBlock then s.largest else s.largest * 2
    ensures Inv(Observe(s.(largest := size, p := PLinkNext(v, tb, blk))))
  {
    ProducerTo(s, s.(largest := size, p := PLinkNext(v, tb, blk)));
  }

  lemma {:induction false} AllocateKeeps<T>(s: State<T>, v: T, tb: nat, allocOk: bool, junk: T)
    requires Inv(s) && s.p == PAllocate(v, tb)
    ensures Inv(Observe(Allocate(s, v, tb, allocOk, junk)))
  {
    if allocOk {
      var size := if s.largest >= s.cfg.maxBlock then s.largest else s.largest * 2;
      FreshIsFresh(size, v, junk);
      AllocatedKeeps(s, v, tb, size, SetCell(MakeBlock(size, junk, 0), 0, v).(tail := 1, localTail := 1));
    } else {
      ProducerMoves(s, PIdle(RefusedNoMemory));
    }
  }

  lemma {:induction false} StoreNextCore<T>(blocks: seq<Block<T>>, ring: seq<nat>, t: nat, fb: nat, tb: nat,
                         enq: seq<T>, deq: seq<T>, e: bool, blk: Block<T>)
    requires Core(blocks, ring, t, fb, tb, false, enq, deq)
    requires BlockOk(blk) && blk.next == blocks[tb].next
    ensures Core(LinkedIn(blocks, tb, blk), Inserted(ring, t, |blocks|), t, fb, tb, true, enq, deq)
    ensures CStable(ConsumerView(blocks, ring, t, enq, deq, e),
                    ConsumerView(LinkedIn(blocks, tb, blk), Inserted(ring, t, |blocks|), t, enq, deq, e))
    ensures Inserted(ring, t, |blocks|)[t + 1] == |blocks|
  {
    InsertedShape(blocks, ring, t, fb, tb, blk);
    InsertedArc(blocks, ring, t, tb, blk);
    InsertedFifo(blocks, ring, t, tb, blk, enq, deq);
    InsertedAt(ring, t, |blocks|, t + 1);
    InsertedAt(ring, t, |blocks|, 1);
  }

  lemma {:induction false} StoreNextFacts<T>(s: State<T>, v: T, tb: nat, blk: Block<T>)
    requires CoreOf(s) && s.p == PStoreNext(v, tb, blk) && PInv(s.p, PV(s))
    ensures tb == s.tailBlock == s.h.ring[s.h.t] < |s.blocks| && s.h.t < |s.h.ring|
    ensures BlockOk(blk) && Contents(blk) == [v] && blk.next == s.blocks[tb].next
    ensures StoreNext(s, v, tb, blk)
         == ProducerDone(s, LinkedIn(s.blocks, tb, blk), Inserted(s.h.ring, s.h.t, |s.blocks|), s.h.enq,
                         PStoreTailBlock(v, |s.blocks|))
  {
    assert |Contents(blk)| == 1;
  }

  lemma {:induction false} StoreNextKnows<T>(
    blocks: seq<Block<T>>, ring: seq<nat>, t: nat, peak: nat, v: T, tb: nat, blk: Block<T>)
    requires Permutes(ring, |blocks|) && t < |ring| && ring[t] == tb < |blocks|
    requires SeenFull(ProducerView(blocks, ring, t, peak)) && BlockOk(blk) && Contents(blk) == [v]
    requires Permutes(Inserted(ring, t, |blocks|), |blocks| + 1)
    ensures PInv(PStoreTailBlock(v, |blocks|),
                 ProducerView(LinkedIn(blocks, tb, blk), Inserted(ring, t, |blocks|), t, peak))
  {
    InsertedAt(ring, t, |blocks|, t);
    InsertedAt(ring, t, |blocks|, t + 1);
    assert LinkedIn(blocks, tb, blk)[tb] == blocks[tb].(next := |blocks|);
  }

  lemma {:induction false} StoreNextPuts<T>(s: State<T>, v: T, tb: nat, blk: Block<T>)
    requires CoreOf(s) && s.p == PStoreNext(v, tb, blk) && PInv(s.p, PV(s))
    ensures tb < |s.blocks|
    ensures var blocks, ring := LinkedIn(s.blocks, tb, blk), Inserted(s.h.ring, s.h.t, |s.blocks|);
            && Core(blocks, ring, s.h.t, s.frontBlock, s.tailBlock, true, s.h.enq, s.h.deq)
            && PInv(PStoreTailBlock(v, |s.blocks|), ProducerView(blocks, ring, s.h.t, s.h.peak))
            && CStable(CV(s), ConsumerView(blocks, ring, s.h.t, s.h.enq, s.h.deq, s.h.sawEmpty))
            && StoreNext(s, v, tb, blk) == ProducerDone(s, blocks, ring, s.h.enq, PStoreTailBlock(v, |s.blocks|))
  {
    StoreNextFacts(s, v, tb, blk);
    StoreNextCore(s.blocks, s.h.ring, s.h.t, s.frontBlock, s.tailBlock, s.h.enq, s.h.deq, s.h.sawEmpty, blk);
    StoreNextKnows(s.blocks, s.h.ring, s.h.t, s.h.peak, v, tb, blk);
  }

  lemma {:induction false} StoreNextKeeps<T>(s: State<T>, v: T, tb: nat, blk: Block<T>)
    requires Inv(s) && s.p == PStoreNext(v, tb, blk)
    ensures Inv(Observe(StoreNext(s, v, tb, blk)))
  {
    StoreNextPuts(s, v, tb, blk);
    ProducerPuts(s, LinkedIn(s.blocks, tb, blk), Inserted(s.h.ring, s.h.t, |s.blocks|), s.h.enq,
                 PStoreTailBlock(v, |s.blocks|));
  }

  ghost predicate OwnLoading<T>(p: Producer<T>)
  {
    p.PIdle? || p.PLoadTailBlock? || p.PLoadLocalFront? || p.PLoadNext? || p.PReloadNext? || p.PLinkNext?
  }

  /** Where a load of a variable that only the producer writes leads. */
  ghost function OwnLoad<T>(s: State<T>): Producer<T>
    requires s.blocks != [] && OwnLoading(s.p)
  {
    match s.p
    case PIdle(_) => s.p
    case PLoadTailBlock(v, alloc) => PLoadLocalFront(v, alloc, s.tailBlock)
    case PLoadLocalFront(v, alloc, tb) => PLoadTail(v, alloc, tb, At(s, tb).localFront)
    case PLoadNext(v, alloc, tb) => PLoadFrontBlock(v, alloc, tb, At(s, tb).next)
    case PReloadNext(v, tb) => PLoadNextFront(v, At(s, tb).next)
    case PLinkNext(v, tb, blk) => PStoreNext(v, tb, blk.(next := At(s, tb).next))
  }

  lemma {:induction false} OwnLoads<T>(s: State<T>, allocOk: bool, junk: T)
    requires s.blocks != [] && OwnLoading(s.p)
    ensures ProducerStep(s, allocOk, junk) == s.(p := OwnLoad(s)) && !OwnLoad(s).PStoreTailBlock?
  {
  }

  lemma {:induction false} OwnIndexKnows<T>(s: State<T>)
    requires CoreOf(s) && PInv(s.p, PV(s)) && (s.p.PIdle? || s.p.PLoadTailBlock? || s.p.PLoadLocalFront?)
    ensures PInv(OwnLoad(s), PV(s))
  {
  }

  lemma {:induction false} OwnLinkKnows<T>(s: State<T>)
    requires CoreOf(s) && PInv(s.p, PV(s)) && (s.p.PLoadNext? || s.p.PReloadNext? || s.p.PLinkNext?)
    ensures PInv(OwnLoad(s), PV(s))
  {
    assert LinkAt(s.blocks, s.h.ring, s.h.t);
  }

  lemma {:induction false} ProducerOwnLoadKeeps<T>(s: State<T>, allocOk: bool, junk: T)
    requires Inv(s) && OwnLoading(s.p)
    ensures Inv(Observe(ProducerStep(s, allocOk, junk)))
  {
    OwnLoads(s, allocOk, junk);
    if s.p.PIdle? || s.p.PLoadTailBlock? || s.p.PLoadLocalFront? { OwnIndexKnows(s); } else { OwnLinkKnows(s); }
    ProducerMoves(s, OwnLoad(s));
  }

  lemma {:induction false} TailBlockSteps<T>(s: State<T>, allocOk: bool, junk: T)
    requires s.blocks != []
    ensures s.p.PLoadFront? ==> ProducerStep(s, allocOk, junk) == RefreshFront(s, s.p.v, s.p.alloc, s.p.tb, s.p.bt)
    ensures s.p.PConstruct? ==> ProducerStep(s, allocOk, junk) == Construct(s, s.p.v, s.p.tb, s.p.bt)
    ensures s.p.PStoreTail? ==> ProducerStep(s, allocOk, junk) == StoreTail(s, s.p.v, s.p.tb, s.p.bt)
  {
  }

  lemma {:induction false} TailBlockStepKeeps<T>(s: State<T>, allocOk: bool, junk: T)
    requires Inv(s) && (s.p.PLoadFront? || s.p.PConstruct? || s.p.PStoreTail?)
    ensures Inv(Observe(ProducerStep(s, allocOk, junk)))
  {
    TailBlockSteps(s, allocOk, junk);
    match s.p
    case PLoadFront(v, alloc, tb, bt) => RefreshFrontKeeps(s, v, alloc, tb, bt);
    case PConstruct(v, tb, bt) => ConstructKeeps(s, v, tb, bt);
    case PStoreTail(v, tb, bt) => StoreTailKeeps(s, v, tb, bt);
  }

  lemma {:induction false} ProducerCompares<T>(s: State<T>, allocOk: bool, junk: T)
    requires s.blocks != []
    ensures s.p.PLoadTail? ==> ProducerStep(s, allocOk, junk) == CompareTail(s, s.p.v, s.p.alloc, s.p.tb, s.p.bf)
    ensures s.p.PLoadFrontBlock? ==>
              ProducerStep(s, allocOk, junk) == CompareFrontBlock(s, s.p.v, s.p.alloc, s.p.tb, s.p.nx)
  {
  }

  lemma {:induction false} ProducerCompareKeeps<T>(s: State<T>, allocOk: bool, junk: T)
    requires Inv(s) && (s.p.PLoadTail? || s.p.PLoadFrontBlock?)
    ensures Inv(Observe(ProducerStep(s, allocOk, junk)))
  {
    ProducerCompares(s, allocOk, junk);
    match s.p
    case PLoadTail(v, alloc, tb, bf) => CompareTailKeeps(s, v, alloc, tb, bf);
    case PLoadFrontBlock(v, alloc, tb, nx) => CompareFrontBlockKeeps(s, v, alloc, tb, nx);
  }

  lemma {:induction false} NextBlockLooks<T>(s: State<T>, allocOk: bool, junk: T)
    requires s.blocks != []
    ensures s.p.PLoadNextFront? ==> ProducerStep(s, allocOk, junk) == RefreshNextFront(s, s.p.v, s.p.nb)
    ensures s.p.PLoadNextTail? ==> ProducerStep(s, allocOk, junk) == CheckNextTail(s, s.p.v, s.p.nb, s.p.nf)
  {
  }

  lemma {:induction false} NextBlockLookKeeps<T>(s: State<T>, allocOk: bool, junk: T)
    requires Inv(s) && (s.p.PLoadNextFront? || s.p.PLoadNextTail?)
    ensures Inv(Observe(ProducerStep(s, allocOk, junk)))
  {
    NextBlockLooks(s, allocOk, junk);
    match s.p
    case PLoadNextFront(v, nb) => RefreshNextFrontKeeps(s, v, nb);
    case PLoadNextTail(v, nb, nf) => CheckNextTailKeeps(s, v, nb, nf);
  }

  lemma {:induction false} NextBlockStores<T>(s: State<T>, allocOk: bool, junk: T)
    requires s.blocks != []
    ensures s.p.PConstructNext? ==> ProducerStep(s, allocOk, junk) == ConstructNext(s, s.p.v, s.p.nb, s.p.nt)
    ensures s.p.PStoreNextTail? ==> ProducerStep(s, allocOk, junk) == StoreNextTail(s, s.p.v, s.p.nb, s.p.nt)
    ensures s.p.PStoreTailBlock? ==> ProducerStep(s, allocOk, junk) == StoreTailBlock(s, s.p.v, s.p.nb)
  {
  }

  lemma {:induction false} NextBlockStoreKeeps<T>(s: State<T>, allocOk: bool, junk: T)
    requires Inv(s) && (s.p.PConstructNext? || s.p.PStoreNextTail? || s.p.PStoreTailBlock?)
    ensures Inv(Observe(ProducerStep(s, allocOk, junk)))
  {
    NextBlockStores(s, allocOk, junk);
    match s.p
    case PConstructNext(v, nb, nt) => ConstructNextKeeps(s, v, nb, nt);
    case PStoreNextTail(v, nb, nt) => StoreNextTailKeeps(s, v, nb, nt);
    case PStoreTailBlock(v, nb) => StoreTailBlockKeeps(s, v, nb);
  }

  lemma {:induction false} NewBlockSteps<T>(s: State<T>, allocOk: bool, junk: T)
    requires s.blocks != []
    ensures s.p.PAllocate? ==> ProducerStep(s, allocOk, junk) == Allocate(s, s.p.v, s.p.tb, allocOk, junk)
    ensures s.p.PStoreNext? ==> ProducerStep(s, allocOk, junk) == StoreNext(s, s.p.v, s.p.tb, s.p.blk)
  {
  }

  lemma {:induction false} NewBlockStepKeeps<T>(s: State<T>, allocOk: bool, junk: T)
    requires Inv(s) && (s.p.PAllocate? || s.p.PStoreNext?)
    ensures Inv(Observe(ProducerStep(s, allocOk, junk)))
  {
    NewBlockSteps(s, allocOk, junk);
    match s.p
    case PAllocate(v, tb) => AllocateKeeps(s, v, tb, allocOk, junk);
    case PStoreNext(v, tb, blk) => StoreNextKeeps(s, v, tb, blk);
  }

  lemma {:induction false} ProducerKeeps<T>(s: State<T>, allocOk: bool, junk: T)
    requires Inv(s)
    ensures Inv(Observe(ProducerStep(s, allocOk, junk)))
  {
    if s.p.PLoadFront? || s.p.PConstruct? || s.p.PStoreTail? {
      TailBlockStepKeeps(s, allocOk, junk);
    } else if s.p.PLoadTail? || s.p.PLoadFrontBlock? {
      ProducerCompareKeeps(s, allocOk, junk);
    } else if s.p.PAllocate? || s.p.PStoreNext? {
      NewBlockStepKeeps(s, allocOk, junk);
    } else if s.p.PLoadNextFront? || s.p.PLoadNextTail? {
      NextBlockLookKeeps(s, allocOk, junk);
    } else if s.p.PConstructNext? || s.p.PStoreNextTail? || s.p.PStoreTailBlock? {
      NextBlockStoreKeeps(s, allocOk, junk);
    } else {
      ProducerOwnLoadKeeps(s, allocOk, junk);
    }
  }

  // ---------------------------------------------------------------------------
  // Consumer
  // ---------------------------------------------------------------------------

  /** A step that only moves the consumer's program counter. */
  lemma {:induction false} ConsumerMoves<T>(s: State<T>, c': Consumer<T>)
    requires Inv(s) && CInv(c', CV(s))
    ensures Inv(Observe(s.(c := c')))
  {
    ObserveKeeps(s.(c := c'));
  }

  lemma {:induction false} BeginDequeueKeeps<T>(s: State<T>, peek: bool)
    requires Inv(s)
    ensures Inv(Next(s, BeginDequeue(peek)))
  {
    if s.c.CIdle? {
      ObserveKeeps(s.(c := CLoadFrontBlock(peek), h := s.h.(sawEmpty := false)));
    }
  }

  lemma {:induction false} RefreshPuts<T>(s: State<T>, k: nat)
    requires CoreOf(s) && k < |s.blocks|
    ensures var blocks := s.blocks[k := s.blocks[k].(localTail := s.blocks[k].tail)];
            && Core(blocks, s.h.ring, s.h.t, s.frontBlock, s.tailBlock, s.p.PStoreTailBlock?, s.h.enq, s.h.deq)
            && PStable(PV(s), ProducerView(blocks, s.h.ring, s.h.t, s.h.peak))
  {
    var b := s.blocks[k].(localTail := s.blocks[k].tail);
    assert Contents(b) == Contents(s.blocks[k]);
    ShapeAfterUpdate(s.blocks, s.h.ring, s.h.t, s.frontBlock, s.tailBlock, k, b);
    KeepsContents(s.blocks, s.h.ring, s.h.t, s.p.PStoreTailBlock?, s.h.enq, s.h.deq, k, b);
  }

  /** `localTail` is refreshed from `tail`. */
  lemma {:induction false} ConsumerRefreshes<T>(s: State<T>, k: nat, c': Consumer<T>)
    requires Inv(s) && k < |s.blocks|
    requires CInv(c', ConsumerView(s.blocks[k := s.blocks[k].(localTail := s.blocks[k].tail)], s.h.ring, s.h.t,
                                   s.h.enq, s.h.deq, s.h.sawEmpty))
    ensures Inv(Observe(s.(blocks := s.blocks[k := s.blocks[k].(localTail := s.blocks[k].tail)], c := c')))
  {
    RefreshPuts(s, k);
    ConsumerTo(s, s.(blocks := s.blocks[k := s.blocks[k].(localTail := s.blocks[k].tail)], c := c'));
  }

  lemma {:induction false} FrontEmptyAlone<T>(blocks: seq<Block<T>>, ring: seq<nat>, enq: seq<T>, deq: seq<T>)
    requires AllOk(blocks) && Permutes(ring, |blocks|) && ring != [] && Fifo(blocks, ring, 0, enq, deq)
    requires Len(blocks[ring[0]]) == 0
    ensures enq == deq
  {
    assert ring[..1] == [ring[0]];
    FlattenOne(blocks, ring[0]);
  }

  lemma {:induction false} RefreshTailKeeps<T>(s: State<T>, peek: bool, fb: nat, bf: nat)
    requires Inv(s) && s.c == CLoadTail(peek, fb, bf)
    ensures Inv(Observe(RefreshTail(s, peek, fb, bf)))
  {
    if s.h.t == 0 && Len(s.blocks[fb]) == 0 {
      FrontEmptyAlone(s.blocks, s.h.ring, s.h.enq, s.h.deq);
    }
    ConsumerRefreshes(s, fb, RefreshTail(s, peek, fb, bf).c);
  }

  lemma {:induction false} RefreshTailAgainKeeps<T>(s: State<T>, peek: bool, fb: nat)
    requires Inv(s) && s.c == CReloadTail(peek, fb)
    ensures Inv(Observe(RefreshTailAgain(s, peek, fb)))
  {
    ConsumerRefreshes(s, fb, RefreshTailAgain(s, peek, fb).c);
  }

  lemma {:induction false} CheckNextFilledFacts<T>(s: State<T>, peek: bool, nb: nat, nf: nat)
    requires CoreOf(s) && s.c == CLoadNextTail(peek, nb, nf) && CInv(s.c, CV(s))
    ensures nb < |s.blocks|
    ensures var blocks := s.blocks[nb := s.blocks[nb].(localTail := s.blocks[nb].tail)];
            && CheckNextFilled(s, peek, nb, nf)
            == (if peek then s.(c := CPeekNext(nb, nf)) else s.(blocks := blocks, c := CStoreFrontBlock(nb, nf)))
            && CInv(CPeekNext(nb, nf), CV(s))
            && CInv(CStoreFrontBlock(nb, nf),
                    ConsumerView(blocks, s.h.ring, s.h.t, s.h.enq, s.h.deq, s.h.sawEmpty))
  {
    assert s.h.ring[1] == nb && Len(s.blocks[nb]) != 0;
  }

  lemma {:induction false} CheckNextFilledKeeps<T>(s: State<T>, peek: bool, nb: nat, nf: nat)
    requires Inv(s) && s.c == CLoadNextTail(peek, nb, nf)
    ensures Inv(Observe(CheckNextFilled(s, peek, nb, nf)))
  {
    CheckNextFilledFacts(s, peek, nb, nf);
    if peek {
      ConsumerMoves(s, CPeekNext(nb, nf));
    } else {
      ConsumerRefreshes(s, nb, CStoreFrontBlock(nb, nf));
    }
  }

  lemma {:induction false} CompareFrontKeeps<T>(s: State<T>, peek: bool, fb: nat, bt: nat)
    requires Inv(s) && s.c == CLoadFront(peek, fb, bt)
    ensures Inv(Observe(CompareFront(s, peek, fb, bt)))
  {
    ConsumerMoves(s, CompareFront(s, peek, fb, bt).c);
  }

  lemma {:induction false} CompareFrontAgainKeeps<T>(s: State<T>, peek: bool, fb: nat, bt: nat)
    requires Inv(s) && s.c == CReloadFront(peek, fb, bt)
    ensures Inv(Observe(CompareFrontAgain(s, peek, fb, bt)))
  {
    ConsumerMoves(s, CompareFrontAgain(s, peek, fb, bt).c);
  }

  lemma {:induction false} CompareTailBlockKeeps<T>(s: State<T>, peek: bool, fb: nat)
    requires Inv(s) && s.c == CLoadTailBlock(peek, fb)
    ensures Inv(Observe(CompareTailBlock(s, peek, fb)))
  {
    ConsumerMoves(s, CompareTailBlock(s, peek, fb).c);
  }

  lemma {:induction false} StoreFrontBlockCore<T>(
    blocks: seq<Block<T>>, ring: seq<nat>, t: nat, fb: nat, tb: nat, pending: bool,
    enq: seq<T>, deq: seq<T>, peak: nat)
    requires Core(blocks, ring, t, fb, tb, pending, enq, deq) && t > 0 && Len(blocks[fb]) == 0
    requires pending ==> t + 1 < |ring|
    ensures Core(blocks, Rotated(ring), t - 1, ring[1], tb, pending, enq, deq)
    ensures PStable(ProducerView(blocks, ring, t, peak), ProducerView(blocks, Rotated(ring), t - 1, peak))
  {
    RotatedShape(blocks, ring, t, fb, tb);
    RotatedArc(blocks, ring, t, pending);
    ShrinkArcKeepsFifo(blocks, ring, t, enq, deq);
    assert t + 1 < |ring| ==> Rotated(ring)[t] == ring[t + 1];
  }

  lemma {:induction false} StoreFrontBlockFacts<T>(s: State<T>, nb: nat, nf: nat)
    requires CoreOf(s) && s.c == CStoreFrontBlock(nb, nf) && CInv(s.c, CV(s))
    ensures 0 < s.h.t < |s.h.ring| && s.h.ring[1] == nb < |s.blocks| && Len(s.blocks[s.frontBlock]) == 0
    ensures nf == s.blocks[nb].front != s.blocks[nb].localTail && Len(s.blocks[nb]) != 0
    ensures StoreFrontBlock(s, nb, nf)
         == ConsumerDone(s, s.blocks, Rotated(s.h.ring), s.h.t - 1, nb, s.h.deq, CTake(false, nb, nf))
  {
    assert s.h.ring[1] == nb && Len(s.blocks[nb]) != 0;
  }

  lemma {:induction false} StoreFrontBlockKnows<T>(
    blocks: seq<Block<T>>, ring: seq<nat>, t: nat, enq: seq<T>, deq: seq<T>, e: bool, nb: nat, nf: nat)
    requires Permutes(ring, |blocks|) && 0 < t < |ring| && ring[1] == nb < |blocks|
    requires nf == blocks[nb].front != blocks[nb].localTail && Len(blocks[nb]) != 0 && BlockOk(blocks[nb])
    requires Permutes(Rotated(ring), |blocks|)
    ensures CInv(CTake(false, nb, nf), ConsumerView(blocks, Rotated(ring), t - 1, enq, deq, e))
  {
    assert Rotated(ring)[0] == nb;
  }

  lemma {:induction false} StoreFrontBlockKeeps<T>(s: State<T>, nb: nat, nf: nat)
    requires Inv(s) && s.c == CStoreFrontBlock(nb, nf)
    ensures Inv(Observe(StoreFrontBlock(s, nb, nf)))
  {
    StoreFrontBlockFacts(s, nb, nf);
    StoreFrontBlockCore(s.blocks, s.h.ring, s.h.t, s.frontBlock, s.tailBlock, s.p.PStoreTailBlock?,
                        s.h.enq, s.h.deq, s.h.peak);
    StoreFrontBlockKnows(s.blocks, s.h.ring, s.h.t, s.h.enq, s.h.deq, s.h.sawEmpty, nb, nf);
    ConsumerPuts(s, s.blocks, Rotated(s.h.ring), s.h.t - 1, nb, s.h.deq, CTake(false, nb, nf));
  }

  /** The element at the front of the front block is the one to be dequeued next. */
  lemma {:induction false} HeadOfFront<T>(blocks: seq<Block<T>>, ring: seq<nat>, t: nat, enq: seq<T>, deq: seq<T>)
    requires AllOk(blocks) && Permutes(ring, |blocks|) && t < |ring| && Fifo(blocks, ring, t, enq, deq)
    requires Len(blocks[ring[0]]) > 0
    ensures |deq| < |enq| && enq[|deq|] == blocks[ring[0]].data[blocks[ring[0]].front]
  {
    var b := blocks[ring[0]];
    assert Contents(b)[0] == b.data[b.front];
  }

  lemma {:induction false} HeadOfNext<T>(blocks: seq<Block<T>>, ring: seq<nat>, t: nat, enq: seq<T>, deq: seq<T>)
    requires AllOk(blocks) && Permutes(ring, |blocks|) && 0 < t < |ring| && Fifo(blocks, ring, t, enq, deq)
    requires Len(blocks[ring[0]]) == 0 && Len(blocks[ring[1]]) > 0
    ensures |deq| < |enq| && enq[|deq|] == blocks[ring[1]].data[blocks[ring[1]].front]
  {
    var b := blocks[ring[1]];
    assert ring[..t + 1][1..] == ring[1..t + 1] && ring[1..t + 1][0] == ring[1];
    assert Flatten(blocks, ring[..t + 1]) == Flatten(blocks, ring[1..t + 1]);
    assert Contents(b)[0] == b.data[b.front];
  }

  lemma {:induction false} TakeKeeps<T>(s: State<T>, peek: bool, fb: nat, bf: nat)
    requires Inv(s) && s.c == CTake(peek, fb, bf)
    ensures Inv(Observe(Take(s, peek, fb, bf)))
  {
    HeadOfFront(s.blocks, s.h.ring, s.h.t, s.h.enq, s.h.deq);
    ConsumerMoves(s, Take(s, peek, fb, bf).c);
  }

  lemma {:induction false} PeekNextKeeps<T>(s: State<T>, nb: nat, nf: nat)
    requires Inv(s) && s.c == CPeekNext(nb, nf)
    ensures Inv(Observe(Take(s, true, nb, nf)))
  {
    assert s.h.ring[1] == nb && Len(s.blocks[nb]) != 0;
    HeadOfNext(s.blocks, s.h.ring, s.h.t, s.h.enq, s.h.deq);
    ConsumerMoves(s, Take(s, true, nb, nf).c);
  }

  lemma {:induction false} AdvanceFront<T>(b: Block<T>)
    requires BlockOk(b) && b.front != b.localTail
    ensures Len(b) > 0 && BlockOk(b.(front := Wrap(b.front + 1, b.size)))
  {
  }

  /** A block with its first element taken off. */
  ghost predicate Popped<T>(b: Block<T>, b': Block<T>, v: T)
    requires BlockOk(b)
  {
    && BlockOk(b') && Contents(b) == [v] + Contents(b')
    && b' == b.(front := Wrap(b.front + 1, b.size))
  }

  lemma {:induction false} PopOne<T>(b: Block<T>, v: T)
    requires BlockOk(b) && b.front != b.localTail && b.data[b.front] == v
    ensures Popped(b, b.(front := Wrap(b.front + 1, b.size)), v)
  {
    AdvanceFront(b);
    PopFront(b);
  }

  lemma {:induction false} StoreFrontCore<T>(
    blocks: seq<Block<T>>, ring: seq<nat>, t: nat, fb: nat, tb: nat, pending: bool,
    enq: seq<T>, deq: seq<T>, b': Block<T>, v: T)
    requires Core(blocks, ring, t, fb, tb, pending, enq, deq) && Popped(blocks[fb], b', v)
    ensures Core(blocks[fb := b'], ring, t, fb, tb, pending, enq, deq + [v])
  {
    ShapeAfterUpdate(blocks, ring, t, fb, tb, fb, b');
    PopKeepsFifo(blocks, ring, t, enq, deq, b', v);
  }

  lemma {:induction false} StoreFrontStable<T>(
    blocks: seq<Block<T>>, ring: seq<nat>, t: nat, fb: nat, peak: nat, b': Block<T>, v: T)
    requires AllOk(blocks) && Permutes(ring, |blocks|) && t < |ring| && ring[0] == fb && Popped(blocks[fb], b', v)
    ensures PStable(ProducerView(blocks, ring, t, peak), ProducerView(blocks[fb := b'], ring, t, peak))
  {
    assert t > 0 ==> ring[t] != fb;
    assert t + 1 < |ring| ==> ring[t + 1] != fb;
  }

  lemma {:induction false} StoreFrontAll<T>(
    blocks: seq<Block<T>>, ring: seq<nat>, t: nat, fb: nat, tb: nat, pending: bool,
    enq: seq<T>, deq: seq<T>, peak: nat, b': Block<T>, v: T)
    requires Core(blocks, ring, t, fb, tb, pending, enq, deq)
    requires b' == blocks[fb].(front := Wrap(blocks[fb].front + 1, blocks[fb].size))
    requires blocks[fb].front != blocks[fb].localTail && blocks[fb].data[blocks[fb].front] == v
    ensures Core(blocks[fb := b'], ring, t, fb, tb, pending, enq, deq + [v])
    ensures PStable(ProducerView(blocks, ring, t, peak), ProducerView(blocks[fb := b'], ring, t, peak))
  {
    PopOne(blocks[fb], v);
    StoreFrontCore(blocks, ring, t, fb, tb, pending, enq, deq, b', v);
    StoreFrontStable(blocks, ring, t, fb, peak, b', v);
  }

  lemma {:induction false} StoreFrontFacts<T>(s: State<T>, fb: nat, bf: nat, v: T)
    requires CoreOf(s) && s.c == CStoreFront(fb, bf, v) && CInv(s.c, CV(s))
    ensures fb == s.frontBlock < |s.blocks| && bf == s.blocks[fb].front != s.blocks[fb].localTail
    ensures bf < |s.blocks[fb].data| && s.blocks[fb].data[bf] == v
  {
  }

  lemma {:induction false} StoreFrontPuts<T>(s: State<T>, fb: nat, bf: nat, v: T)
    requires CoreOf(s) && s.c == CStoreFront(fb, bf, v) && CInv(s.c, CV(s))
    ensures fb == s.frontBlock < |s.blocks|
    ensures var blocks := s.blocks[fb := s.blocks[fb].(front := Wrap(bf + 1, s.blocks[fb].size))];
            && Core(blocks, s.h.ring, s.h.t, fb, s.tailBlock, s.p.PStoreTailBlock?, s.h.enq, s.h.deq + [v])
            && PStable(PV(s), ProducerView(blocks, s.h.ring, s.h.t, s.h.peak))
  {
    StoreFrontFacts(s, fb, bf, v);
    var b' := s.blocks[fb].(front := Wrap(bf + 1, s.blocks[fb].size));
    StoreFrontAll(s.blocks, s.h.ring, s.h.t, fb, s.tailBlock, s.p.PStoreTailBlock?, s.h.enq, s.h.deq, s.h.peak, b', v);
  }

  lemma {:induction false} StoreFrontIs<T>(s: State<T>, fb: nat, bf: nat, v: T)
    requires fb == s.frontBlock < |s.blocks|
    ensures var blocks := s.blocks[fb := s.blocks[fb].(front := Wrap(bf + 1, s.blocks[fb].size))];
            StoreFront(s, fb, bf, v) == ConsumerDone(s, blocks, s.h.ring, s.h.t, fb, s.h.deq + [v], CIdle(Got(v)))
  {
  }

  lemma {:induction false} StoreFrontKeeps<T>(s: State<T>, fb: nat, bf: nat, v: T)
    requires Inv(s) && s.c == CStoreFront(fb, bf, v)
    ensures Inv(Observe(StoreFront(s, fb, bf, v)))
  {
    StoreFrontPuts(s, fb, bf, v);
    var blocks := s.blocks[fb := s.blocks[fb].(front := Wrap(bf + 1, s.blocks[fb].size))];
    StoreFrontIs(s, fb, bf, v);
    ConsumerPuts(s, blocks, s.h.ring, s.h.t, fb, s.h.deq + [v], CIdle(Got(v)));
  }

  ghost predicate PlainLoading<T>(c: Consumer<T>)
  {
    c.CIdle? || c.CLoadFrontBlock? || c.CLoadLocalTail? || c.CReloadFrontBlock? || c.CLoadNext? || c.CLoadNextFront?
  }

  /** Where a load of a variable that only the consumer writes, or of `next`, leads. */
  ghost function PlainLoad<T>(s: State<T>): Consumer<T>
    requires s.blocks != [] && PlainLoading(s.c)
  {
    match s.c
    case CIdle(_) => s.c
    case CLoadFrontBlock(peek) => CLoadLocalTail(peek, s.frontBlock)
    case CLoadLocalTail(peek, fb) => CLoadFront(peek, fb, At(s, fb).localTail)
    case CReloadFrontBlock(peek) => CReloadTail(peek, s.frontBlock)
    case CLoadNext(peek, fb) => CLoadNextFront(peek, At(s, fb).next)
    case CLoadNextFront(peek, nb) => CLoadNextTail(peek, nb, At(s, nb).front)
  }

  lemma {:induction false} PlainLoads<T>(s: State<T>)
    requires s.blocks != [] && PlainLoading(s.c)
    ensures ConsumerStep(s) == s.(c := PlainLoad(s))
  {
  }

  lemma {:induction false} PlainLoadKnows<T>(s: State<T>)
    requires CoreOf(s) && CInv(s.c, CV(s)) && PlainLoading(s.c)
    ensures CInv(PlainLoad(s), CV(s))
  {
    assert LinkAt(s.blocks, s.h.ring, 0);
  }

  lemma {:induction false} ConsumerLoadKeeps<T>(s: State<T>)
    requires Inv(s) && PlainLoading(s.c)
    ensures Inv(Observe(ConsumerStep(s)))
  {
    PlainLoads(s);
    PlainLoadKnows(s);
    ConsumerMoves(s, PlainLoad(s));
  }

  lemma {:induction false} ConsumerCompares<T>(s: State<T>)
    requires s.blocks != []
    ensures s.c.CLoadFront? ==> ConsumerStep(s) == CompareFront(s, s.c.peek, s.c.fb, s.c.bt)
    ensures s.c.CLoadTail? ==> ConsumerStep(s) == RefreshTail(s, s.c.peek, s.c.fb, s.c.bf)
    ensures s.c.CLoadTailBlock? ==> ConsumerStep(s) == CompareTailBlock(s, s.c.peek, s.c.fb)
    ensures s.c.CReloadTail? ==> ConsumerStep(s) == RefreshTailAgain(s, s.c.peek, s.c.fb)
    ensures s.c.CReloadFront? ==> ConsumerStep(s) == CompareFrontAgain(s, s.c.peek, s.c.fb, s.c.bt)
  {
  }

  lemma {:induction false} ConsumerCompareKeeps<T>(s: State<T>)
    requires Inv(s)
    requires s.c.CLoadFront? || s.c.CLoadTail? || s.c.CLoadTailBlock? || s.c.CReloadTail? || s.c.CReloadFront?
    ensures Inv(Observe(ConsumerStep(s)))
  {
    ConsumerCompares(s);
    match s.c
    case CLoadFront(peek, fb, bt) => CompareFrontKeeps(s, peek, fb, bt);
    case CLoadTail(peek, fb, bf) => RefreshTailKeeps(s, peek, fb, bf);
    case CLoadTailBlock(peek, fb) => CompareTailBlockKeeps(s, peek, fb);
    case CReloadTail(peek, fb) => RefreshTailAgainKeeps(s, peek, fb);
    case CReloadFront(peek, fb, bt) => CompareFrontAgainKeeps(s, peek, fb, bt);
  }

  lemma {:induction false} ConsumerMovesOn<T>(s: State<T>)
    requires s.blocks != []
    ensures s.c.CLoadNextTail? ==> ConsumerStep(s) == CheckNextFilled(s, s.c.peek, s.c.nb, s.c.nf)
    ensures s.c.CPeekNext? ==> ConsumerStep(s) == Take(s, true, s.c.nb, s.c.nf)
    ensures s.c.CStoreFrontBlock? ==> ConsumerStep(s) == StoreFrontBlock(s, s.c.nb, s.c.nf)
  {
  }

  lemma {:induction false} ConsumerNextKeeps<T>(s: State<T>)
    requires Inv(s) && (s.c.CLoadNextTail? || s.c.CPeekNext? || s.c.CStoreFrontBlock?)
    ensures Inv(Observe(ConsumerStep(s)))
  {
    ConsumerMovesOn(s);
    match s.c
    case CLoadNextTail(peek, nb, nf) => CheckNextFilledKeeps(s, peek, nb, nf);
    case CPeekNext(nb, nf) => PeekNextKeeps(s, nb, nf);
    case CStoreFrontBlock(nb, nf) => StoreFrontBlockKeeps(s, nb, nf);
  }

  lemma {:induction false} ConsumerTakes<T>(s: State<T>)
    requires s.blocks != []
    ensures s.c.CTake? ==> ConsumerStep(s) == Take(s, s.c.peek, s.c.fb, s.c.bf)
    ensures s.c.CStoreFront? ==> ConsumerStep(s) == StoreFront(s, s.c.fb, s.c.bf, s.c.v)
  {
  }

  lemma {:induction false} ConsumerTakeKeeps<T>(s: State<T>)
    requires Inv(s) && (s.c.CTake? || s.c.CStoreFront?)
    ensures Inv(Observe(ConsumerStep(s)))
  {
    ConsumerTakes(s);
    match s.c
    case CTake(peek, fb, bf) => TakeKeeps(s, peek, fb, bf);
    case CStoreFront(fb, bf, v) => StoreFrontKeeps(s, fb, bf, v);
  }

  lemma {:induction false} ConsumerKeeps<T>(s: State<T>)
    requires Inv(s)
    ensures Inv(Observe(ConsumerStep(s)))
  {
    if s.c.CLoadFront? || s.c.CLoadTail? || s.c.CLoadTailBlock? || s.c.CReloadTail? || s.c.CReloadFront? {
      ConsumerCompareKeeps(s);
    } else if s.c.CLoadNextTail? || s.c.CPeekNext? || s.c.CStoreFrontBlock? {
      ConsumerNextKeeps(s);
    } else if s.c.CTake? || s.c.CStoreFront? {
      ConsumerTakeKeeps(s);
    } else {
      ConsumerLoadKeeps(s);
    }
  }

  lemma {:induction false} NextKeeps<T>(s: State<T>, e: Event<T>)
    requires Inv(s)
    ensures Inv(Next(s, e))
  {
    match e
    case BeginEnqueue(v, alloc) => BeginEnqueueKeeps(s, v, alloc);
    case Produce(allocOk, junk) => ProducerKeeps(s, allocOk, junk);
    case BeginDequeue(peek) => BeginDequeueKeeps(s, peek);
    case Consume => ConsumerKeeps(s);
  }
}
