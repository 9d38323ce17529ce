/** What unvalidated inserts and late bodies are still held to, and all they change (src/chain/blockchain.ts). */
module SeedRules {
  import opened Genesis
  import opened Transactions
  import opened Ledger
  import opened Consensus
  import opened BlockTree
  import opened TreeLaws
  import opened TreeRuns
  import opened SeedLaws
  import opened ForkAgreement

  /** An unknown header whose parent is stored one below. */
  predicate Hangs(env: Env, c: Chain, h: Header) {
    env.hash(h) !in c.blocks && h.prevHash in c.blocks && h.height == HeightOf(c, h.prevHash) + 1
  }

  function WorkOf(c: Chain, h: Header): nat
    requires h.prevHash in c.blocks
  {
    c.blocks[h.prevHash].work + BlockWork(h.difficulty)
  }

  /**
   * A historical seed stores the block exactly if it hangs off the tree; with a state it takes the tip whatever
   * its work, without one only with strictly more. Nothing is pruned.
   */
  lemma HistoricalSeed(env: Env, c: Chain, block: Block, state: Option<State>)
    requires c.tip in c.blocks
    ensures var c1, k := SeedHistorical(env, c, block, state), env.hash(block.header);
      && (!Hangs(env, c, block.header) ==> c1 == c)
      && (Hangs(env, c, block.header) ==>
            && Grows(c, c1, k, block, state) && c1.blocks[k].state == state && c1.blocks[k].hasBody
            && c1.blocks[k].work == WorkOf(c, block.header)
            && c1.tip == (if state.Some? || WorkOf(c, block.header) > c.blocks[c.tip].work then k else c.tip)
            && c1.bodyless == c.bodyless && c1.pruneFloor == c.pruneFloor)
  {
    hide BlockWork, InheritAnchor;
  }

  /** A header seed stores a block without a body, lists it for backfill, and takes the tip only with a state. */
  lemma HeaderSeed(env: Env, c: Chain, header: Header, state: Option<State>)
    ensures var c1, k := SeedBodyless(env, c, header, state), env.hash(header);
      && (!Hangs(env, c, header) ==> c1 == c)
      && (Hangs(env, c, header) ==>
            && Grows(c, c1, k, Block(header, []), state) && c1.blocks[k].state == state && !c1.blocks[k].hasBody
            && c1.blocks[k].work == WorkOf(c, header)
            && c1.tip == (if state.Some? then k else c.tip)
            && c1.bodyless == c.bodyless[header.height := k] && c1.pruneFloor == c.pruneFloor)
  {
    hide BlockWork, InheritAnchor;
  }

  /**
   * A body is attached exactly to a stored block that lacks one, if it is small enough and has the transaction
   * root of its header; it fills that entry, leaves the backfill table, and changes nothing else.
   */
  lemma BodyAttached(env: Env, c: Chain, block: Block)
    ensures var c1, k := AttachBody(env, c, block), env.hash(block.header);
      if k in c.blocks && !c.blocks[k].hasBody && env.size(block) <= 262_144 && env.txRoot(block.transactions) == block.header.txRoot then
        && c1.blocks.Keys == c.blocks.Keys && (forall j :: j in c.blocks && j != k ==> c1.blocks[j] == c.blocks[j])
        && c1.blocks[k] == c.blocks[k].(block := block, hasBody := true)
        && c1.bodyless == c.bodyless - {block.header.height}
        && c1.tip == c.tip && c1.byHeight == c.byHeight && c1.pruneFloor == c.pruneFloor && c1.bodylessLow == c.bodylessLow
      else c1 == c
  {
  }

  // ---- Bodies over whole runs ----

  predicate Committed(env: Env, e: ChainBlock) {
    e.hasBody ==> env.txRoot(e.block.transactions) == e.block.header.txRoot
  }

  ghost predicate AllCommitted(env: Env, c: Chain) {
    forall k :: k in c.blocks && k != env.hash(GENESIS_HEADER) ==> Committed(env, c.blocks[k])
  }

  lemma GoodCommits(env: Env, c: Chain, block: Block, opts: Options, now: int)
    requires CheckBlock(env, c, block, opts, now).Good?
    ensures block.header.prevHash in c.blocks && env.txRoot(block.transactions) == block.header.txRoot
  {
    hide CheckAgainstTree, ApplyBlock;
  }

  lemma AcceptCommitted(env: Env, c: Chain, block: Block, state: State)
    requires AllCommitted(env, c) && c.tip in c.blocks && block.header.prevHash in c.blocks
    requires env.txRoot(block.transactions) == block.header.txRoot
    ensures AllCommitted(env, Accept(env, c, block, state))
  {
    EntryFields(env, c, block, state);
    var e := Entry(env, c, block, Some(state), true);
    hide Entry;
    var c1 := Store(c, e).(tip := e.hash);
    assert AllCommitted(env, c1);
    PruneKeepsBodies(c1, e.block.header.height - env.depth);
    hide PruneTo;
  }

  lemma ApplyCommitted(env: Env, c: Chain, op: Op)
    requires AllCommitted(env, c) && c.tip in c.blocks
    requires op.SeedBlock? ==> env.txRoot(op.block.transactions) == op.block.header.txRoot
    ensures AllCommitted(env, Apply(env, c, op))
  {
    hide CheckBlock, Accept, BlockWork, InheritAnchor;
    if op.Add? {
      var r := CheckBlock(env, c, op.block, op.opts, op.now);
      if r.Good? {
        GoodCommits(env, c, op.block, op.opts, op.now);
        AcceptCommitted(env, c, op.block, r.state);
      }
    } else if op.SeedBlock? {
      HistoricalSeed(env, c, op.block, op.state);
    }
  }

  /**
   * In any run of the four operations, every body in the tree has the transaction root its header commits to,
   * as long as the historical seeds do, which are the one way in without that check.
   */
  lemma {:induction false} BodiesCommit(env: Env, ops: seq<Op>)
    requires forall n :: 0 <= n < |ops| && ops[n].SeedBlock? ==> env.txRoot(ops[n].block.transactions) == ops[n].block.header.txRoot
    ensures AllCommitted(env, RunOps(env, ops))
    decreases |ops|
  {
    if ops != [] {
      hide AllCommitted, Apply;
      BodiesCommit(env, ops[..|ops| - 1]);
      RunCursorOk(env, ops[..|ops| - 1]);
      ApplyCommitted(env, RunOps(env, ops[..|ops| - 1]), ops[|ops| - 1]);
    }
  }
}
