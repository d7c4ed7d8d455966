/** How the queue is built: the loop that links the blocks. */
module SpscConstruction {
  import opened SpscQueue

  /**
   The constructor: a single block, or a cycle of blocks of the largest size linked one by
   one, each new block closing the cycle back to the first.
   */
  method Construct<T>(cfg: Config, junk: T) returns (s: State<T>)
    requires ValidConfig(cfg)
    ensures s == Init(cfg, junk)
  {
    var largest := CeilToPow2(cfg.reserve + 1);
    var blocks: seq<Block<T>> := [];
    if largest > cfg.maxBlock * 2 {
      var count := (cfg.reserve + cfg.maxBlock * 2 - 3) / (cfg.maxBlock - 1);
      largest := cfg.maxBlock;
      var i := 0;
      while i != count
        invariant 0 <= i <= count && |blocks| == i
        invariant forall k :: 0 <= k < i ==> blocks[k] == MakeBlock(largest, junk, if k + 1 == i then 0 else k + 1)
      {
        if i > 0 {
          blocks := blocks[i - 1 := blocks[i - 1].(next := i)];
        }
        blocks := blocks + [MakeBlock(largest, junk, 0)];
        i := i + 1;
      }
    } else {
      blocks := [MakeBlock(largest, junk, 0)];
    }
    assert blocks == InitialBlocks(InitialCount(cfg), InitialSize(cfg), junk);
    s := State(cfg, blocks, 0, 0, largest, PIdle(EnqueueNotCalled), CIdle(DequeueNotCalled),
               History([], [], seq(|blocks|, i => i), 0, 0, true));
  }
}
