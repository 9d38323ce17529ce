/** The block tree as a value: every operation of the chain object as a function (src/chain/blockchain.ts). */
module BlockTree {
  import opened Genesis
  import opened Transactions
  import opened Ledger
  import opened Consensus
  import opened HeaderChain

  /** Hash functions, proof of work and structural checks, and the state retention depth. */
  datatype Env = Env(
    hash: Header -> Bytes,
    oracle: Oracle,
    txRoot: seq<Transaction> -> Bytes,
    stateRoot: State -> Bytes,
    powOk: Header -> bool,
    structureOk: Transaction -> bool,
    size: Block -> nat,
    depth: nat)

  datatype ChainBlock = ChainBlock(
    block: Block,
    hash: Bytes,
    work: nat,
    state: Option<State>,
    hasBody: bool,
    anchor: Option<Header>)

  datatype Chain = Chain(
    blocks: map<Bytes, ChainBlock>,
    tip: Bytes,
    byHeight: map<nat, seq<Bytes>>,
    pruneFloor: nat,
    bodyless: map<nat, Bytes>,
    bodylessLow: nat)

  const GENESIS := Block(GENESIS_HEADER, [])

  function Init(env: Env): (c: Chain)
    ensures c.tip in c.blocks
  {
    var g := env.hash(GENESIS_HEADER);
    Chain(map[g := ChainBlock(GENESIS, g, BlockWork(GENESIS_DIFFICULTY_COMPACT), Some(EMPTY_STATE), true, None)],
          g, map[0 := [g]], 0, map[], 0)
  }

  function HeightOf(c: Chain, k: Bytes): nat
    requires k in c.blocks
  {
    c.blocks[k].block.header.height
  }

  function ParentOf(c: Chain, k: Bytes): Bytes
    requires k in c.blocks
  {
    c.blocks[k].block.header.prevHash
  }

  /** The anchor a child of a block retargets against: the block itself at the anchor height. */
  function InheritAnchor(parentAnchor: Option<Header>, header: Header): Option<Header> {
    if header.height == SANDGLASS2_ANCHOR_HEIGHT then Some(header) else parentAnchor
  }

  /** Up to `n` headers ending at `from`, oldest first. */
  function RecentHeaders(c: Chain, n: nat, from: Bytes): seq<Header>
    decreases n
  {
    if n == 0 || from !in c.blocks then []
    else
      var h := c.blocks[from].block.header;
      if h.height == 0 then [h] else RecentHeaders(c, n - 1, h.prevHash) + [h]
  }

  // ---- Pruning ----

  /** Forget the states at the prune floor and move the floor up. */
  function PruneStep(c: Chain): Chain {
    var f := c.pruneFloor;
    if f in c.byHeight then
      c.(blocks := ForgetStates(c.blocks, c.byHeight[f]), byHeight := c.byHeight - {f}, pruneFloor := f + 1)
    else
      c.(pruneFloor := f + 1)
  }

  function ForgetStates(blocks: map<Bytes, ChainBlock>, hashes: seq<Bytes>): map<Bytes, ChainBlock> {
    map k | k in blocks :: if k in hashes then blocks[k].(state := None) else blocks[k]
  }

  function PruneTo(c: Chain, boundary: int): Chain
    decreases boundary - c.pruneFloor
  {
    if c.pruneFloor >= boundary then c else PruneTo(PruneStep(c), boundary)
  }

  // ---- Insertion ----

  function IndexHeight(byHeight: map<nat, seq<Bytes>>, height: nat, k: Bytes): map<nat, seq<Bytes>> {
    byHeight[height := (if height in byHeight then byHeight[height] else []) + [k]]
  }

  function Entry(env: Env, c: Chain, block: Block, state: Option<State>, hasBody: bool): ChainBlock
    requires block.header.prevHash in c.blocks
  {
    var parent := c.blocks[block.header.prevHash];
    ChainBlock(block, env.hash(block.header), parent.work + BlockWork(block.header.difficulty), state, hasBody,
               InheritAnchor(parent.anchor, block.header))
  }

  function Store(c: Chain, e: ChainBlock): Chain {
    c.(blocks := c.blocks[e.hash := e], byHeight := IndexHeight(c.byHeight, e.block.header.height, e.hash))
  }

  datatype Options = Options(skipPow: bool, skipTxSig: bool, skipStateRoot: bool)

  datatype AddError =
    | UnknownParent | HeightMismatch | TooLarge | BadHeader(why: HeaderVerdict)
    | PowInvalid | TxRootMismatch | ParentStateUnavailable | BadTxStructure | ApplyFailed | StateRootMismatch

  datatype Check = Known | Bad(error: AddError) | Good(state: State)

  function ChildContext(c: Chain, header: Header): Context {
    var mtp := MedianTimePast(RecentHeaders(c, MTP_WINDOW, header.prevHash));
    Context(ScriptsActive(mtp), header.height, mtp)
  }

  /** The header rules against the tree: the walked lookback and the parent's cached anchor. */
  function CheckAgainstTree(c: Chain, h: Header, now: int): HeaderVerdict
    requires h.prevHash in c.blocks
  {
    var expected := NextDifficulty(h.height, RecentHeaders(c, RETARGET_LOOKBACK, h.prevHash), Some(h.timestamp), c.blocks[h.prevHash].anchor);
    var mtp := MedianTimePast(RecentHeaders(c, MTP_WINDOW, h.prevHash));
    if expected.None? then MissingAnchor
    else if h.difficulty != expected.value then BadDifficulty
    else if h.timestamp > now + MAX_FUTURE_TIME_S then TooFarInFuture
    else if mtp > 0 && h.timestamp <= mtp then NotAboveMtp
    else HeaderOk
  }

  /** The checks of `addBlockInternal`, in order; on success the state after the block. */
  function CheckBlock(env: Env, c: Chain, block: Block, opts: Options, now: int): Check {
    var h := block.header;
    if env.hash(h) in c.blocks then Known
    else if h.prevHash !in c.blocks then Bad(UnknownParent)
    else if h.height != HeightOf(c, h.prevHash) + 1 then Bad(HeightMismatch)
    else if env.size(block) > MAX_BLOCK_BYTES then Bad(TooLarge)
    else
      var verdict := CheckAgainstTree(c, h, now);
      if !verdict.HeaderOk? then Bad(BadHeader(verdict))
      else if !opts.skipPow && !env.powOk(h) then Bad(PowInvalid)
      else CheckBody(env, c, block, opts)
  }

  /** The part of the checks that needs the transactions and the parent's state. */
  function CheckBody(env: Env, c: Chain, block: Block, opts: Options): Check
    requires block.header.prevHash in c.blocks
  {
    var h, parent := block.header, c.blocks[block.header.prevHash];
    if env.txRoot(block.transactions) != h.txRoot then Bad(TxRootMismatch)
    else if parent.state.None? then Bad(ParentStateUnavailable)
    else if !opts.skipTxSig && exists i :: 0 <= i < |block.transactions| && !env.structureOk(block.transactions[i]) then
      Bad(BadTxStructure)
    else
      var s := ApplyBlock(env.oracle, parent.state.value, h.miner, block.transactions, ChildContext(c, h));
      if s.None? then Bad(ApplyFailed)
      else if !opts.skipStateRoot && env.stateRoot(s.value) != h.stateRoot then Bad(StateRootMismatch)
      else Good(s.value)
  }

  /** Store a checked block; a heavier branch takes the tip and old states are pruned behind it. */
  function Accept(env: Env, c: Chain, block: Block, state: State): Chain
    requires block.header.prevHash in c.blocks && c.tip in c.blocks
  {
    var e := Entry(env, c, block, Some(state), true);
    var c1 := Store(c, e);
    if e.work > c1.blocks[c.tip].work then PruneTo(c1.(tip := e.hash), e.block.header.height - env.depth)
    else c1
  }

  function AddBlock(env: Env, c: Chain, block: Block, opts: Options, now: int): Chain
    requires c.tip in c.blocks
  {
    var r := CheckBlock(env, c, block, opts, now);
    if r.Good? then Accept(env, c, block, r.state) else c
  }

  // ---- Seeding without validation ----

  function SeedError(env: Env, c: Chain, header: Header): Option<AddError> {
    if env.hash(header) in c.blocks then None
    else if header.prevHash !in c.blocks then Some(UnknownParent)
    else if header.height != HeightOf(c, header.prevHash) + 1 then Some(HeightMismatch)
    else None
  }

  /** `seedHistoricalBlock`: a state forces the tip, a stateless block takes it on work alone. */
  function SeedHistorical(env: Env, c: Chain, block: Block, state: Option<State>): Chain
    requires c.tip in c.blocks
  {
    if env.hash(block.header) in c.blocks || SeedError(env, c, block.header).Some? then c
    else
      var e := Entry(env, c, block, state, true);
      var c1 := Store(c, e);
      if state.Some? || e.work > c1.blocks[c.tip].work then c1.(tip := e.hash) else c1
  }

  /** `seedBodyless`: a header-only entry; only the anchor, which has a state, takes the tip. */
  function SeedBodyless(env: Env, c: Chain, header: Header, state: Option<State>): Chain {
    if env.hash(header) in c.blocks || SeedError(env, c, header).Some? then c
    else
      var e := Entry(env, c, Block(header, []), state, false);
      var c1 := Store(c, e);
      var low := if c.bodylessLow == 0 || header.height < c.bodylessLow then header.height else c.bodylessLow;
      c1.(bodyless := c.bodyless[header.height := e.hash], bodylessLow := low, tip := if state.Some? then e.hash else c.tip)
  }

  datatype AttachError = UnknownBlock | BodyTooLarge | BodyRootMismatch

  function AttachCheck(env: Env, c: Chain, block: Block): Option<AttachError> {
    var k := env.hash(block.header);
    if k !in c.blocks then Some(UnknownBlock)
    else if c.blocks[k].hasBody then None
    else if env.size(block) > MAX_BLOCK_BYTES then Some(BodyTooLarge)
    else if env.txRoot(block.transactions) != block.header.txRoot then Some(BodyRootMismatch)
    else None
  }

  function AttachBody(env: Env, c: Chain, block: Block): Chain {
    var k := env.hash(block.header);
    if AttachCheck(env, c, block).Some? || k !in c.blocks || c.blocks[k].hasBody then c
    else c.(blocks := c.blocks[k := c.blocks[k].(block := block, hasBody := true)],
            bodyless := c.bodyless - {block.header.height})
  }
}
