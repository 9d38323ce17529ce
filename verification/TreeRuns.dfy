/** Safety over whole runs of `addBlock`, from genesis, in any order and on any forks. */
module TreeRuns {
  import opened Genesis
  import opened Transactions
  import opened Ledger
  import opened Conservation
  import opened Supply
  import opened Consensus
  import opened HeaderChain
  import opened BlockTree
  import opened TreeLaws

  // ---- Pruning ----

  /** Exactly the states from the old floor up to the boundary are gone; nothing else changed. */
  ghost predicate Pruned(c: Chain, c': Chain, boundary: int) {
    && c'.blocks.Keys == c.blocks.Keys
    && c'.tip == c.tip && c'.bodyless == c.bodyless && c'.bodylessLow == c.bodylessLow
    && c'.pruneFloor == (if boundary > c.pruneFloor then boundary else c.pruneFloor)
    && forall k :: k in c.blocks ==>
         c'.blocks[k] == if c.pruneFloor <= HeightOf(c, k) < boundary then c.blocks[k].(state := None) else c.blocks[k]
  }

  lemma PruneStepExact(c: Chain)
    requires Indexed(c)
    ensures Pruned(c, PruneStep(c), c.pruneFloor + 1) && Indexed(PruneStep(c))
  {
    var f, c' := c.pruneFloor, PruneStep(c);
    forall k | k in c.blocks
      ensures c'.blocks[k] == if HeightOf(c, k) == f then c.blocks[k].(state := None) else c.blocks[k]
    {
      if f in c.byHeight && k in c.byHeight[f] {
        var i :| 0 <= i < |c.byHeight[f]| && c.byHeight[f][i] == k;
        assert HeightOf(c, c.byHeight[f][i]) == f;
      }
    }
  }

  lemma PrunedTrans(a: Chain, b: Chain, c: Chain, m: int, n: int)
    requires Pruned(a, b, m) && Pruned(b, c, n) && a.pruneFloor <= m <= n
    ensures Pruned(a, c, n)
  {
    forall k | k in a.blocks
      ensures c.blocks[k] == if a.pruneFloor <= HeightOf(a, k) < n then a.blocks[k].(state := None) else a.blocks[k]
    {
      assert HeightOf(b, k) == HeightOf(a, k);
    }
  }

  lemma {:induction false} PruneExact(c: Chain, boundary: int)
    requires Indexed(c)
    ensures Pruned(c, PruneTo(c, boundary), boundary) && Indexed(PruneTo(c, boundary))
    decreases boundary - c.pruneFloor
  {
    if c.pruneFloor < boundary {
      PruneStepExact(c);
      hide Indexed, PruneStep;
      PruneExact(PruneStep(c), boundary);
      PrunedTrans(c, PruneStep(c), PruneTo(c, boundary), c.pruneFloor + 1, boundary);
    }
  }

  /** Forgetting states keeps the links. */
  lemma SameLinks(env: Env, c: Chain, c': Chain)
    requires Linked(env, c) && c'.blocks.Keys == c.blocks.Keys && c'.tip in c.blocks
    requires forall k :: k in c.blocks ==> c'.blocks[k].(state := None) == c.blocks[k].(state := None)
    ensures Linked(env, c')
  {
    hide BlockWork, InheritAnchor;
    forall k | k in c'.blocks
      ensures EntryOk(env, c', k)
    {
      assert EntryOk(env, c, k);
      assert SameButState(c.blocks[k], c'.blocks[k]);
      var p := c.blocks[k].block.header.prevHash;
      if p in c.blocks {
        assert SameButState(c.blocks[p], c'.blocks[p]);
      }
    }
  }

  ghost predicate SameButState(a: ChainBlock, b: ChainBlock) {
    a.block == b.block && a.hash == b.hash && a.work == b.work && a.hasBody == b.hasBody && a.anchor == b.anchor
  }

  lemma {:induction false} PruneLinked(env: Env, c: Chain, boundary: int)
    requires Linked(env, c)
    ensures Linked(env, PruneTo(c, boundary))
    decreases boundary - c.pruneFloor
  {
    hide Linked;
    if c.pruneFloor < boundary {
      assert c.tip in c.blocks by { TipStored(env, c); }
      SameLinks(env, c, PruneStep(c));
      hide PruneStep;
      PruneLinked(env, PruneStep(c), boundary);
    }
  }

  lemma TipStored(env: Env, c: Chain)
    requires Linked(env, c)
    ensures c.tip in c.blocks
  {
  }

  lemma AcceptLinked(env: Env, c: Chain, block: Block, state: State)
    requires Linked(env, c) && block.header.prevHash in c.blocks
    requires Insertable(env, c, Entry(env, c, block, Some(state), true))
    ensures Linked(env, Accept(env, c, block, state))
  {
    var e := Entry(env, c, block, Some(state), true);
    InsertLinked(env, c, e);
    TipStored(env, c);
    hide Linked, Entry, Insertable;
    SameLinks(env, Store(c, e), Store(c, e).(tip := e.hash));
    PruneLinked(env, Store(c, e).(tip := e.hash), e.block.header.height - env.depth);
  }

  // ---- The invariant ----

  /** The ledger's view of a path: every block but genesis, each under its parent's median-time-past. */
  ghost function LedgerBlocks(path: seq<Block>): (bs: seq<LedgerBlock>)
    requires path != []
    ensures |bs| == |path| - 1
  {
    seq(|path| - 1, i requires 0 <= i < |path| - 1 =>
      LedgerBlock(path[i + 1].header.miner, path[i + 1].transactions, MedianTimePast(Headers(path[..i + 1]))))
  }

  /** The state a full replay from genesis reaches at the end of a path. */
  ghost function StateOnPath(env: Env, path: seq<Block>): Option<State>
    requires path != []
  {
    Replay(env.oracle, LedgerBlocks(path))
  }

  lemma StateOnSnoc(env: Env, path: seq<Block>, b: Block)
    requires path != [] && StateOnPath(env, path).Some?
    ensures var mtp := MedianTimePast(Headers(path));
      StateOnPath(env, path + [b])
      == ApplyBlock(env.oracle, StateOnPath(env, path).value, b.header.miner, b.transactions, Context(ScriptsActive(mtp), |path|, mtp))
  {
    hide MedianTimePast, ApplyBlock;
    var bs, bs' := LedgerBlocks(path), LedgerBlocks(path + [b]);
    assert (path + [b])[..|path|] == path;
    assert bs'[..|bs|] == bs by {
      forall i | 0 <= i < |bs|
        ensures bs'[i] == bs[i]
      {
        assert (path + [b])[..i + 1] == path[..i + 1];
      }
    }
  }

  ghost predicate Heaviest(c: Chain) {
    c.tip in c.blocks && forall k :: k in c.blocks ==> c.blocks[k].work <= c.blocks[c.tip].work
  }

  ghost predicate StatesAboveFloor(c: Chain) {
    && c.tip in c.blocks && c.pruneFloor <= HeightOf(c, c.tip)
    && forall k :: k in c.blocks ==> (c.blocks[k].state.Some? <==> HeightOf(c, k) >= c.pruneFloor)
  }

  ghost predicate BranchesValid(env: Env, c: Chain)
    requires Linked(env, c)
  {
    forall k :: k in c.blocks ==> ValidBranch(Branch(env, c, k))
  }

  ghost predicate StatesReplayed(env: Env, c: Chain)
    requires Linked(env, c)
  {
    forall k :: k in c.blocks && c.blocks[k].state.Some? ==> StateOnPath(env, Path(env, c, k)) == c.blocks[k].state
  }

  /** The part of the invariant that does not speak of the tip. */
  ghost predicate Kept(env: Env, c: Chain) {
    Linked(env, c) && Indexed(c) && BranchesValid(env, c) && StatesReplayed(env, c)
  }

  ghost predicate Inv(env: Env, c: Chain) {
    Kept(env, c) && Heaviest(c) && StatesAboveFloor(c)
  }

  lemma InitInv(env: Env)
    ensures Inv(env, Init(env))
  {
    var c, g := Init(env), env.hash(GENESIS_HEADER);
    hide BlockWork, Extends;
    assert EntryOk(env, c, g);
    assert LedgerBlocks([GENESIS]) == [];
    assert Path(env, c, g) == [GENESIS];
  }

  /** The new entry passes everything the invariant asks of it. */
  lemma GoodIsInsertable(env: Env, c: Chain, block: Block, opts: Options, now: int)
    requires Linked(env, c) && CheckBlock(env, c, block, opts, now).Good?
    ensures Insertable(env, c, Entry(env, c, block, Some(CheckBlock(env, c, block, opts, now).state), true))
    ensures Extends(Branch(env, c, block.header.prevHash), block.header)
    ensures var p := c.blocks[block.header.prevHash];
      var mtp := MedianTimePast(Branch(env, c, block.header.prevHash));
      && p.state.Some?
      && ApplyBlock(env.oracle, p.state.value, block.header.miner, block.transactions, Context(ScriptsActive(mtp), block.header.height, mtp))
         == Some(CheckBlock(env, c, block, opts, now).state)
  {
    hide ApplyBlock, MedianTimePast, Branch, CheckAgainstTree, RecentHeaders;
    TreeCheckIsBranchCheck(env, c, block.header, now);
    RecentIsLast(env, c, MTP_WINDOW, block.header.prevHash);
    MtpWindow(Branch(env, c, block.header.prevHash), MTP_WINDOW);
    hide CheckHeader;
  }

  /** Storing a block whose header extends its parent's branch keeps every branch valid. */
  lemma StoreBranches(env: Env, c: Chain, e: ChainBlock)
    requires Linked(env, c) && Insertable(env, c, e) && BranchesValid(env, c)
    requires Extends(Branch(env, c, e.block.header.prevHash), e.block.header)
    ensures Linked(env, Store(c, e)) && BranchesValid(env, Store(c, e))
    ensures Branch(env, Store(c, e), e.hash) == Branch(env, c, e.block.header.prevHash) + [e.block.header]
    ensures Path(env, Store(c, e), e.hash) == Path(env, c, e.block.header.prevHash) + [e.block]
  {
    hide Linked, ValidBranch, Extends, BlockWork, InheritAnchor, Path, Branch;
    var c1, p := Store(c, e), e.block.header.prevHash;
    InsertLinked(env, c, e);
    assert e.hash !in c.blocks && p in c.blocks;
    assert forall j :: j in c.blocks ==> c1.blocks[j] == c.blocks[j];
    assert c1.blocks[e.hash] == e && e.block.header.height == HeightOf(c, p) + 1;
    hide Insertable, Store;
    BranchSnoc(env, c1, e.hash);
    BranchStable(env, c, c1, p);
    ValidSnoc(Branch(env, c, p), e.block.header);
    forall k | k in c1.blocks
      ensures ValidBranch(Branch(env, c1, k))
    {
      if k != e.hash {
        BranchStable(env, c, c1, k);
      }
    }
  }

  lemma StoreStates(env: Env, c: Chain, e: ChainBlock)
    requires Linked(env, c) && Linked(env, Store(c, e)) && e.hash !in c.blocks && StatesReplayed(env, c)
    requires e.state.Some? ==> StateOnPath(env, Path(env, Store(c, e), e.hash)) == e.state
    ensures StatesReplayed(env, Store(c, e))
  {
    var c1 := Store(c, e);
    hide Linked, StateOnPath;
    forall k | k in c1.blocks && c1.blocks[k].state.Some?
      ensures StateOnPath(env, Path(env, c1, k)) == c1.blocks[k].state
    {
      if k != e.hash {
        BranchStable(env, c, c1, k);
      }
    }
  }

  /** Moving the tip and forgetting states leaves branches and remaining states as they are. */
  lemma ForgetKeeps(env: Env, c: Chain, c': Chain)
    requires Linked(env, c) && BranchesValid(env, c) && StatesReplayed(env, c)
    requires c'.blocks.Keys == c.blocks.Keys && c'.tip in c.blocks
    requires forall k :: k in c.blocks ==> c'.blocks[k] == c.blocks[k] || c'.blocks[k] == c.blocks[k].(state := None)
    ensures Linked(env, c') && BranchesValid(env, c') && StatesReplayed(env, c')
  {
    hide Linked, ValidBranch, StateOnPath, Path, Branch;
    SameLinks(env, c, c');
    assert forall j :: j in c.blocks ==> c'.blocks[j].block == c.blocks[j].block;
    forall k | k in c'.blocks
      ensures Path(env, c', k) == Path(env, c, k) && Branch(env, c', k) == Branch(env, c, k)
    {
      BranchStable(env, c, c', k);
    }
  }

  /** Storing a checked block keeps everything that does not speak of the tip. */
  lemma StoreKeeps(env: Env, c: Chain, block: Block, opts: Options, now: int)
    requires Inv(env, c) && CheckBlock(env, c, block, opts, now).Good?
    ensures var e := Entry(env, c, block, Some(CheckBlock(env, c, block, opts, now).state), true);
      && e.hash !in c.blocks && HeightOf(c, block.header.prevHash) >= c.pruneFloor
      && e.block.header.height == HeightOf(c, block.header.prevHash) + 1
      && Kept(env, Store(c, e))
  {
    var state := CheckBlock(env, c, block, opts, now).state;
    var e := Entry(env, c, block, Some(state), true);
    GoodIsInsertable(env, c, block, opts, now);
    hide CheckBlock, ApplyBlock, BlockWork, Extends, StateOnPath, InheritAnchor;
    StoreBranches(env, c, e);
    InsertIndexed(env, c, e);
    StoredState(env, c, block, state);
    hide Path, Branch;
    StoreStates(env, c, e);
  }

  lemma StoredTip(c: Chain, e: ChainBlock, t: Bytes)
    requires Heaviest(c) && StatesAboveFloor(c) && e.hash !in c.blocks && e.state.Some? && e.block.header.height > c.pruneFloor
    requires if e.work > c.blocks[c.tip].work then t == e.hash else t == c.tip
    ensures var c1 := Store(c, e).(tip := t); Heaviest(c1) && StatesAboveFloor(c1)
  {
    var c1 := Store(c, e).(tip := t);
    assert c1.blocks == c.blocks[e.hash := e] && c1.pruneFloor == c.pruneFloor;
    hide Store;
    forall k | k in c1.blocks
      ensures c1.blocks[k].work <= c1.blocks[t].work
      ensures c1.blocks[k].state.Some? <==> HeightOf(c1, k) >= c1.pruneFloor
    {
      if k != e.hash {
        assert c1.blocks[k] == c.blocks[k];
      }
    }
  }

  lemma PrunedTip(c: Chain, c': Chain, boundary: int)
    requires Heaviest(c) && StatesAboveFloor(c) && Pruned(c, c', boundary) && boundary <= HeightOf(c, c.tip)
    ensures Heaviest(c') && StatesAboveFloor(c')
  {
    forall k | k in c'.blocks
      ensures c'.blocks[k].work == c.blocks[k].work && HeightOf(c', k) == HeightOf(c, k)
      ensures c'.blocks[k].state.Some? <==> HeightOf(c', k) >= c'.pruneFloor
    {
    }
    hide Pruned;
  }

  /** The tip rule: a strictly heavier block takes over, and pruning stays behind it. */
  lemma TipAndFloor(env: Env, c: Chain, e: ChainBlock)
    requires Heaviest(c) && StatesAboveFloor(c) && e.hash !in c.blocks && e.state.Some?
    requires e.block.header.height > c.pruneFloor && Indexed(Store(c, e))
    ensures var c1 := Store(c, e);
      var c' := if e.work > c1.blocks[c.tip].work then PruneTo(c1.(tip := e.hash), e.block.header.height - env.depth) else c1;
      Heaviest(c') && StatesAboveFloor(c')
  {
    var c1 := Store(c, e);
    if e.work > c1.blocks[c.tip].work {
      StoredTip(c, e, e.hash);
      IndexedIgnoresTip(c1, e.hash);
      hide Indexed, PruneTo, Heaviest, StatesAboveFloor, Pruned;
      PruneExact(c1.(tip := e.hash), e.block.header.height - env.depth);
      PrunedTip(c1.(tip := e.hash), PruneTo(c1.(tip := e.hash), e.block.header.height - env.depth), e.block.header.height - env.depth);
    } else {
      StoredTip(c, e, c.tip);
    }
  }

  /** Taking the tip and pruning behind it keeps the links, branches and states of a stored tree. */
  lemma RetipKeeps(env: Env, c: Chain, t: Bytes, boundary: int)
    requires Kept(env, c) && t in c.blocks
    ensures Kept(env, PruneTo(c.(tip := t), boundary))
  {
    IndexedIgnoresTip(c, t);
    hide Linked, BranchesValid, StatesReplayed, Indexed;
    PruneExact(c.(tip := t), boundary);
    hide PruneTo;
    ForgetKeeps(env, c, PruneTo(c.(tip := t), boundary));
  }

  lemma EntryFields(env: Env, c: Chain, block: Block, state: State)
    requires block.header.prevHash in c.blocks
    ensures var e := Entry(env, c, block, Some(state), true);
      e.block == block && e.state == Some(state) && e.hash == env.hash(block.header)
  {
  }

  lemma AcceptFromStored(env: Env, c: Chain, block: Block, state: State)
    requires block.header.prevHash in c.blocks && c.tip in c.blocks && Heaviest(c) && StatesAboveFloor(c)
    requires block.header.height > c.pruneFloor && env.hash(block.header) !in c.blocks
    requires Kept(env, Store(c, Entry(env, c, block, Some(state), true)))
    ensures Inv(env, Accept(env, c, block, state))
  {
    hide Linked, Indexed, BranchesValid, StatesReplayed, Heaviest, StatesAboveFloor, Entry, PruneTo, BlockWork, InheritAnchor;
    EntryFields(env, c, block, state);
    var e := Entry(env, c, block, Some(state), true);
    TipAndFloor(env, c, e);
    RetipKeeps(env, Store(c, e), e.hash, block.header.height - env.depth);
    hide Kept;
  }

  lemma AcceptInv(env: Env, c: Chain, block: Block, opts: Options, now: int)
    requires Inv(env, c) && CheckBlock(env, c, block, opts, now).Good?
    ensures Inv(env, Accept(env, c, block, CheckBlock(env, c, block, opts, now).state))
  {
    StoreKeeps(env, c, block, opts, now);
    hide CheckBlock, Kept, Accept;
    AcceptFromStored(env, c, block, CheckBlock(env, c, block, opts, now).state);
  }

  lemma IndexedIgnoresTip(c: Chain, t: Bytes)
    requires Indexed(c)
    ensures Indexed(c.(tip := t))
  {
    var c' := c.(tip := t);
    assert forall k :: k in c.blocks ==> HeightOf(c', k) == HeightOf(c, k);
  }

  lemma StoredState(env: Env, c: Chain, block: Block, state: State)
    requires Linked(env, c) && StatesReplayed(env, c) && block.header.prevHash in c.blocks
    requires block.header.height == HeightOf(c, block.header.prevHash) + 1
    requires var p := c.blocks[block.header.prevHash];
      var mtp := MedianTimePast(Branch(env, c, block.header.prevHash));
      && p.state.Some?
      && ApplyBlock(env.oracle, p.state.value, block.header.miner, block.transactions, Context(ScriptsActive(mtp), block.header.height, mtp))
         == Some(state)
    ensures StateOnPath(env, Path(env, c, block.header.prevHash) + [block]) == Some(state)
  {
    hide ApplyBlock, MedianTimePast, Linked;
    StateOnSnoc(env, Path(env, c, block.header.prevHash), block);
    hide StateOnPath, Path;
  }

  // ---- Runs ----

  /** One call of `addBlock` or a sibling: the block, which checks it skips, and the clock. */
  datatype Call = Call(block: Block, opts: Options, now: int)

  function Run(env: Env, calls: seq<Call>): (c: Chain)
    ensures c.tip in c.blocks
    decreases |calls|
  {
    if calls == [] then Init(env)
    else
      var last := calls[|calls| - 1];
      var c := Run(env, calls[..|calls| - 1]);
      AddKeepsTip(env, c, last.block, last.opts, last.now);
      AddBlock(env, c, last.block, last.opts, last.now)
  }

  lemma {:induction false} PruneKeepsKeys(c: Chain, boundary: int)
    ensures PruneTo(c, boundary).blocks.Keys == c.blocks.Keys && PruneTo(c, boundary).tip == c.tip
    decreases boundary - c.pruneFloor
  {
    if c.pruneFloor < boundary {
      PruneKeepsKeys(PruneStep(c), boundary);
    }
  }

  lemma AcceptKeepsTip(env: Env, c: Chain, block: Block, state: State)
    requires c.tip in c.blocks && block.header.prevHash in c.blocks
    ensures var c' := Accept(env, c, block, state); c'.tip in c'.blocks
  {
    var e := Entry(env, c, block, Some(state), true);
    hide Entry;
    PruneKeepsKeys(Store(c, e).(tip := e.hash), e.block.header.height - env.depth);
  }

  lemma AddKeepsTip(env: Env, c: Chain, block: Block, opts: Options, now: int)
    requires c.tip in c.blocks
    ensures var c' := AddBlock(env, c, block, opts, now); c'.tip in c'.blocks
  {
    var r := CheckBlock(env, c, block, opts, now);
    if r.Good? {
      AcceptKeepsTip(env, c, block, r.state);
    }
    hide Accept, CheckBody, CheckAgainstTree;
  }

  /** The invariant holds after every run. */
  lemma {:induction false} RunInv(env: Env, calls: seq<Call>)
    ensures Inv(env, Run(env, calls))
    decreases |calls|
  {
    hide Inv, CheckBlock, Accept;
    if calls == [] {
      InitInv(env);
    } else {
      var last := calls[|calls| - 1];
      var c := Run(env, calls[..|calls| - 1]);
      RunInv(env, calls[..|calls| - 1]);
      if CheckBlock(env, c, last.block, last.opts, last.now).Good? {
        AcceptInv(env, c, last.block, last.opts, last.now);
      }
    }
  }

  // ---- What the invariant means ----

  /**
   * After any run: every block but genesis hangs off a stored parent one height below, with strictly
   * more work; no block outweighs the tip; and a block's state is in memory exactly from the prune
   * floor up, the tip's always.
   */
  lemma TreeIsSound(env: Env, calls: seq<Call>, k: Bytes)
    requires k in Run(env, calls).blocks
    ensures var c := Run(env, calls);
      var e := c.blocks[k];
      && (k != env.hash(GENESIS_HEADER) ==>
            && e.block.header.prevHash in c.blocks
            && var p := c.blocks[e.block.header.prevHash];
            && e.block.header.height == p.block.header.height + 1
            && e.work == p.work + BlockWork(e.block.header.difficulty) > p.work)
      && e.work <= c.blocks[c.tip].work
      && (e.state.Some? <==> e.block.header.height >= c.pruneFloor)
      && c.blocks[c.tip].state.Some?
  {
    var c := Run(env, calls);
    RunInv(env, calls);
    assert EntryOk(env, c, k);
    assert ValidBranch(Branch(env, c, k));
    DifficultyScheduled(Branch(env, c, k), HeightOf(c, k));
    hide Run, BlockWork, ValidBranch, Branch, StatesReplayed, Indexed;
  }

  /** After any run, every cached anchor is the branch's header at the anchor height, if it is that high. */
  lemma AnchorsAreOnBranch(env: Env, calls: seq<Call>, k: Bytes)
    requires k in Run(env, calls).blocks
    ensures Linked(env, Run(env, calls))
    ensures var c := Run(env, calls);
      var b := Branch(env, c, k);
      c.blocks[k].anchor == if HeightOf(c, k) < SANDGLASS2_ANCHOR_HEIGHT then None else Some(b[SANDGLASS2_ANCHOR_HEIGHT])
  {
    RunInv(env, calls);
    AnchorIsWalkedBack(env, Run(env, calls), k);
    hide Run;
  }

  lemma MtpAlongEdge(env: Env, c: Chain, k: Bytes)
    requires Linked(env, c) && k in c.blocks && HeightOf(c, k) > 0 && ValidBranch(Branch(env, c, k))
    ensures ParentOf(c, k) in c.blocks
    ensures MedianTimePast(Branch(env, c, ParentOf(c, k))) <= MedianTimePast(Branch(env, c, k))
  {
    BranchSnoc(env, c, k);
    hide MedianTimePast, Linked, ValidBranch;
    var b, n := Branch(env, c, k), HeightOf(c, k);
    MtpMonotone(b, n, n + 1);
    assert b[..n] == Branch(env, c, ParentOf(c, k)) && b[..n + 1] == b;
  }

  /** After any run, median-time-past has not decreased from any block to a child of it. */
  lemma MtpNeverDecreases(env: Env, calls: seq<Call>, k: Bytes)
    requires k in Run(env, calls).blocks && k != env.hash(GENESIS_HEADER)
    ensures Linked(env, Run(env, calls)) && ParentOf(Run(env, calls), k) in Run(env, calls).blocks
    ensures var c := Run(env, calls);
      MedianTimePast(Branch(env, c, ParentOf(c, k))) <= MedianTimePast(Branch(env, c, k))
  {
    var c := Run(env, calls);
    RunInv(env, calls);
    hide Run, MedianTimePast, StatesReplayed, Indexed, Heaviest, StatesAboveFloor, ValidBranch, Branch;
    assert EntryOk(env, c, k);
    MtpAlongEdge(env, c, k);
  }

  /** After any run, the money in any materialised state is what the coinbases up to its height issued. */
  lemma MoneyAtEveryBlock(env: Env, calls: seq<Call>, k: Bytes)
    requires k in Run(env, calls).blocks && Run(env, calls).blocks[k].state.Some?
    ensures var e := Run(env, calls).blocks[k];
      Total(e.state.value) == Issued(e.block.header.height) <= MAX_MONEY
  {
    var c := Run(env, calls);
    RunInv(env, calls);
    hide Run, Replay, Total, Issued, Indexed, BranchesValid;
    var path := Path(env, c, k);
    MoneyIsConserved(env.oracle, LedgerBlocks(path));
    assert StateOnPath(env, path) == c.blocks[k].state;
  }

  // ---- Non-negative amounts ----

  ghost predicate Pays(txs: seq<Transaction>) {
    forall j :: 0 <= j < |txs| ==> NonNegative(txs[j])
  }

  /** Structural checks reject negative amounts, and blocks that skip them hold none. */
  ghost predicate CallPays(env: Env, call: Call) {
    if call.opts.skipTxSig then Pays(call.block.transactions)
    else forall j :: 0 <= j < |call.block.transactions| && env.structureOk(call.block.transactions[j]) ==> NonNegative(call.block.transactions[j])
  }

  ghost predicate Paying(c: Chain) {
    forall k :: k in c.blocks ==> Pays(c.blocks[k].block.transactions)
  }

  lemma GoodPays(env: Env, c: Chain, call: Call)
    requires CallPays(env, call) && CheckBlock(env, c, call.block, call.opts, call.now).Good?
    ensures Pays(call.block.transactions) && call.block.header.prevHash in c.blocks
  {
    hide ApplyBlock, CheckAgainstTree, NonNegative;
  }

  lemma AcceptPaying(env: Env, c: Chain, block: Block, state: State)
    requires Paying(c) && Pays(block.transactions) && block.header.prevHash in c.blocks && c.tip in c.blocks && Indexed(c)
    requires env.hash(block.header) !in c.blocks
    ensures Paying(Accept(env, c, block, state))
  {
    hide Entry, Pays, PruneTo, Indexed;
    EntryFields(env, c, block, state);
    var e := Entry(env, c, block, Some(state), true);
    InsertIndexed(env, c, e);
    var c1 := Store(c, e);
    assert c1.blocks == c.blocks[e.hash := e];
    hide Store;
    if e.work > c1.blocks[c.tip].work {
      IndexedIgnoresTip(c1, e.hash);
      PruneExact(c1.(tip := e.hash), e.block.header.height - env.depth);
      assert forall k :: k in c1.blocks ==> PruneTo(c1.(tip := e.hash), e.block.header.height - env.depth).blocks[k].block == c1.blocks[k].block;
    }
  }

  lemma NewHash(env: Env, c: Chain, block: Block, opts: Options, now: int)
    requires CheckBlock(env, c, block, opts, now).Good?
    ensures env.hash(block.header) !in c.blocks
  {
  }

  lemma {:induction false} RunPaying(env: Env, calls: seq<Call>)
    requires forall n :: 0 <= n < |calls| ==> CallPays(env, calls[n])
    ensures Paying(Run(env, calls))
    decreases |calls|
  {
    hide CallPays, CheckBlock, Accept, Inv, Pays;
    if calls == [] {
      assert Pays([]) by { NothingPays(); }
    } else {
      var last, c := calls[|calls| - 1], Run(env, calls[..|calls| - 1]);
      RunPaying(env, calls[..|calls| - 1]);
      RunInv(env, calls[..|calls| - 1]);
      InvIndexed(env, c);
      hide Paying;
      if CheckBlock(env, c, last.block, last.opts, last.now).Good? {
        GoodPays(env, c, last);
        NewHash(env, c, last.block, last.opts, last.now);
        AcceptPaying(env, c, last.block, CheckBlock(env, c, last.block, last.opts, last.now).state);
      }
    }
  }

  lemma NothingPays()
    ensures Pays([])
  {
  }

  lemma InvIndexed(env: Env, c: Chain)
    requires Inv(env, c)
    ensures Indexed(c) && Linked(env, c) && c.tip in c.blocks
  {
    hide Indexed, BranchesValid, StatesReplayed, Heaviest, StatesAboveFloor;
  }

  lemma {:induction false} PathPaying(env: Env, c: Chain, k: Bytes, i: nat)
    requires Linked(env, c) && Paying(c) && k in c.blocks && i <= HeightOf(c, k)
    ensures Pays(Path(env, c, k)[i].transactions)
    decreases HeightOf(c, k)
  {
    hide Pays;
    if i < HeightOf(c, k) {
      BranchSnoc(env, c, k);
      hide Linked, Branch;
      PathPaying(env, c, ParentOf(c, k), i);
    } else {
      hide Linked;
    }
  }

  /** After any run, every balance and lock of every state in memory is non-negative and fits its 64-bit field. */
  lemma BalancesFitInRuns(env: Env, calls: seq<Call>, k: Bytes)
    requires forall n :: 0 <= n < |calls| ==> CallPays(env, calls[n])
    requires k in Run(env, calls).blocks && Run(env, calls).blocks[k].state.Some?
    ensures var s := Run(env, calls).blocks[k].state.value;
      && (forall a :: a in s.accounts ==> 0 <= s.accounts[a].balance <= MAX_MONEY < 0x1_0000_0000_0000_0000)
      && (forall id :: id in s.locks ==> 0 <= s.locks[id].amount <= MAX_MONEY)
  {
    hide CallPays, Indexed, BranchesValid, Heaviest, StatesAboveFloor, Paying, Pays;
    RunPaying(env, calls);
    RunInv(env, calls);
    var c := Run(env, calls);
    hide Run;
    StateFits(env, c, k);
  }

  lemma PathBlocksPay(path: seq<Block>)
    requires path != [] && forall i :: 0 <= i < |path| ==> Pays(path[i].transactions)
    ensures AllNonNegative(LedgerBlocks(path))
  {
    hide NonNegative;
    var blocks := LedgerBlocks(path);
    forall i, j | 0 <= i < |blocks| && 0 <= j < |blocks[i].txs|
      ensures NonNegative(blocks[i].txs[j])
    {
      assert blocks[i].txs == path[i + 1].transactions;
      assert Pays(path[i + 1].transactions);
    }
  }

  lemma StateFits(env: Env, c: Chain, k: Bytes)
    requires Linked(env, c) && StatesReplayed(env, c) && Paying(c) && k in c.blocks && c.blocks[k].state.Some?
    ensures var s := c.blocks[k].state.value;
      && (forall a :: a in s.accounts ==> 0 <= s.accounts[a].balance <= MAX_MONEY < 0x1_0000_0000_0000_0000)
      && (forall id :: id in s.locks ==> 0 <= s.locks[id].amount <= MAX_MONEY)
  {
    hide Linked, Path, Paying, Replay, LedgerBlocks;
    var path := Path(env, c, k);
    forall i | 0 <= i < |path|
      ensures Pays(path[i].transactions)
    {
      PathPaying(env, c, k, i);
    }
    PathBlocksPay(path);
    BalancesNeverTruncate(env.oracle, LedgerBlocks(path), c.blocks[k].state.value);
  }
}
