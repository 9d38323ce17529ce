/** Which blocks a node stores: one rule for each error, stated over the block's branch and its replay (src/chain/blockchain.ts). */
module Admission {
  import opened Genesis
  import opened Transactions
  import opened Ledger
  import opened Consensus
  import opened HeaderChain
  import opened BlockTree
  import opened TreeLaws
  import opened TreeRuns
  import opened ForkAgreement

  // ---- The rules ----

  /** The difficulty a child of a branch must carry, from the whole branch and its own anchor header. */
  function Required(branch: seq<Header>, h: Header): Option<int> {
    NextDifficulty(h.height, branch, Some(h.timestamp), AnchorOf(branch))
  }

  predicate MeetsHeader(branch: seq<Header>, h: Header, now: int, why: HeaderVerdict) {
    match why
    case MissingAnchor => Required(branch, h).Some?
    case BadDifficulty => Required(branch, h).Some? ==> Required(branch, h).value == h.difficulty
    case TooFarInFuture => h.timestamp <= now + 600
    case NotAboveMtp => MedianTimePast(branch) > 0 ==> h.timestamp > MedianTimePast(branch)
    case BadHeight => true
    case HeaderOk => true
  }

  /** The state the block leads to from its parent's; `None` if that is not in memory or a transaction fails. */
  ghost function Next(env: Env, c: Chain, block: Block): Option<State>
    requires Linked(env, c)
  {
    var p := block.header.prevHash;
    if p !in c.blocks || c.blocks[p].state.None? then None
    else
      var mtp := MedianTimePast(Branch(env, c, p));
      ApplyBlock(env.oracle, c.blocks[p].state.value, block.header.miner, block.transactions,
                 Context(ScriptsActive(mtp), block.header.height, mtp))
  }

  /** The rule whose violation an error reports. */
  ghost predicate Meets(env: Env, c: Chain, block: Block, opts: Options, now: int, e: AddError)
    requires Linked(env, c)
  {
    var h, p := block.header, block.header.prevHash;
    match e
    case UnknownParent => p in c.blocks
    case HeightMismatch => p in c.blocks ==> h.height == HeightOf(c, p) + 1
    case TooLarge => env.size(block) <= 262_144
    case BadHeader(why) => p in c.blocks ==> MeetsHeader(Branch(env, c, p), h, now, why)
    case PowInvalid => opts.skipPow || env.powOk(h)
    case TxRootMismatch => env.txRoot(block.transactions) == h.txRoot
    case ParentStateUnavailable => p in c.blocks ==> c.blocks[p].state.Some?
    case BadTxStructure => opts.skipTxSig || forall i :: 0 <= i < |block.transactions| ==> env.structureOk(block.transactions[i])
    case ApplyFailed => p in c.blocks && c.blocks[p].state.Some? ==> Next(env, c, block).Some?
    case StateRootMismatch =>
      opts.skipStateRoot || (Next(env, c, block).Some? ==> env.stateRoot(Next(env, c, block).value) == h.stateRoot)
  }

  ghost predicate MeetsAll(env: Env, c: Chain, block: Block, opts: Options, now: int)
    requires Linked(env, c)
  {
    forall e: AddError :: Meets(env, c, block, opts, now, e)
  }

  /** The order in which the errors are reported. */
  function Rank(e: AddError): nat {
    match e
    case UnknownParent => 0
    case HeightMismatch => 1
    case TooLarge => 2
    case BadHeader(why) =>
      (match why case MissingAnchor => 3 case BadDifficulty => 4 case TooFarInFuture => 5 case _ => 6)
    case PowInvalid => 7
    case TxRootMismatch => 8
    case ParentStateUnavailable => 9
    case BadTxStructure => 10
    case ApplyFailed => 11
    case StateRootMismatch => 12
  }

  // ---- The checks are the rules ----

  /** Windows and cached anchors decide as the whole branch does. */
  lemma WindowsDecide(env: Env, c: Chain, h: Header)
    requires Linked(env, c) && h.prevHash in c.blocks
    ensures var branch := Branch(env, c, h.prevHash);
      && MedianTimePast(RecentHeaders(c, MTP_WINDOW, h.prevHash)) == MedianTimePast(branch)
      && NextDifficulty(h.height, RecentHeaders(c, RETARGET_LOOKBACK, h.prevHash), Some(h.timestamp), c.blocks[h.prevHash].anchor)
         == Required(branch, h)
  {
    hide Linked, Branch, MedianTimePast, NextDifficulty, RecentHeaders;
    RecentIsLast(env, c, RETARGET_LOOKBACK, h.prevHash);
    RecentIsLast(env, c, MTP_WINDOW, h.prevHash);
    AnchorIsWalkedBack(env, c, h.prevHash);
    NextDifficultyWindow(h.height, Branch(env, c, h.prevHash), RETARGET_LOOKBACK, Some(h.timestamp), c.blocks[h.prevHash].anchor);
    MtpWindow(Branch(env, c, h.prevHash), MTP_WINDOW);
  }

  lemma HeaderRules(env: Env, c: Chain, h: Header, now: int)
    requires Linked(env, c) && h.prevHash in c.blocks
    ensures var branch, v := Branch(env, c, h.prevHash), CheckAgainstTree(c, h, now);
      && (v.HeaderOk? <==> forall why :: MeetsHeader(branch, h, now, why))
      && (!v.HeaderOk? ==> !MeetsHeader(branch, h, now, v) && v != BadHeight
                           && forall why :: Rank(BadHeader(why)) < Rank(BadHeader(v)) ==> MeetsHeader(branch, h, now, why))
  {
    hide Linked, Branch, MedianTimePast, NextDifficulty, RecentHeaders, Required;
    WindowsDecide(env, c, h);
    var v := CheckAgainstTree(c, h, now);
    assert MeetsHeader(Branch(env, c, h.prevHash), h, now, v) <==> v.HeaderOk?;
  }

  lemma BodyRules(env: Env, c: Chain, block: Block, opts: Options, now: int)
    requires Linked(env, c) && block.header.prevHash in c.blocks
    ensures var v := CheckBody(env, c, block, opts);
      && (v.Good? ==> Next(env, c, block) == Some(v.state)
                      && forall e: AddError :: Rank(e) > 7 ==> Meets(env, c, block, opts, now, e))
      && (v.Bad? ==> Rank(v.error) > 7 && !Meets(env, c, block, opts, now, v.error)
                     && forall e: AddError :: 7 < Rank(e) < Rank(v.error) ==> Meets(env, c, block, opts, now, e))
      && !v.Known?
  {
    hide Linked, Branch, MedianTimePast, NextDifficulty, RecentHeaders, Required, ApplyBlock, MeetsHeader;
    WindowsDecide(env, c, block.header);
  }

  /** A block is refused for the first rule it breaks, and for nothing else. */
  lemma RefusedFor(env: Env, c: Chain, block: Block, opts: Options, now: int)
    requires Linked(env, c)
    ensures var v := CheckBlock(env, c, block, opts, now);
      && (v.Known? <==> env.hash(block.header) in c.blocks)
      && (v.Good? ==> Next(env, c, block) == Some(v.state) && MeetsAll(env, c, block, opts, now))
      && (v.Bad? ==> !Meets(env, c, block, opts, now, v.error)
                     && forall e: AddError :: Rank(e) < Rank(v.error) ==> Meets(env, c, block, opts, now, e))
  {
    hide Linked, Branch, CheckAgainstTree, CheckBody, Next, MeetsHeader;
    if block.header.prevHash in c.blocks {
      HeaderRules(env, c, block.header, now);
      BodyRules(env, c, block, opts, now);
    }
  }

  // ---- What a call does ----

  /** The stored tree after a block that was let in. */
  ghost predicate Admitted(env: Env, c: Chain, c1: Chain, block: Block, state: State)
    requires c.tip in c.blocks && block.header.prevHash in c.blocks
  {
    var k, work := env.hash(block.header), c.blocks[block.header.prevHash].work + BlockWork(block.header.difficulty);
    && Grows(c, c1, k, block, Some(state)) && c1.blocks[k].work == work && c1.blocks[k].hasBody
    && c1.tip == (if work > c.blocks[c.tip].work then k else c.tip)
    && c1.pruneFloor == (if c1.tip == k && block.header.height - env.depth > c.pruneFloor then block.header.height - env.depth else c.pruneFloor)
  }

  lemma AcceptAdmits(env: Env, c: Chain, block: Block, state: State)
    requires Indexed(c) && c.tip in c.blocks && block.header.prevHash in c.blocks && env.hash(block.header) !in c.blocks
    ensures Admitted(env, c, Accept(env, c, block, state), block, state)
  {
    hide Indexed, PruneTo, Grows, BlockWork, InheritAnchor;
    AcceptGrows(env, c, block, state);
    var e := Entry(env, c, block, Some(state), true);
    InsertIndexed(env, c, e);
    IndexedIgnoresTip(Store(c, e), e.hash);
    PruneExact(Store(c, e).(tip := e.hash), e.block.header.height - env.depth);
  }

  /**
   * An unknown block is stored exactly when it meets every rule. Then it carries the state its transactions
   * lead to, and takes the tip exactly when it has strictly more work,
   * and then only states deeper than the retention depth are dropped. Any other call changes nothing.
   */
  lemma StoredIff(env: Env, c: Chain, block: Block, opts: Options, now: int)
    requires Linked(env, c) && Indexed(c) && c.tip in c.blocks && env.hash(block.header) !in c.blocks
    ensures var c1 := AddBlock(env, c, block, opts, now);
      && (env.hash(block.header) in c1.blocks <==> MeetsAll(env, c, block, opts, now))
      && (MeetsAll(env, c, block, opts, now) ==>
            Next(env, c, block).Some? && block.header.prevHash in c.blocks && Admitted(env, c, c1, block, Next(env, c, block).value))
      && (!MeetsAll(env, c, block, opts, now) ==> c1 == c)
  {
    hide Linked, Indexed, CheckBlock, Accept, Next, Meets, Grows, BlockWork;
    RefusedFor(env, c, block, opts, now);
    var v := CheckBlock(env, c, block, opts, now);
    if v.Good? {
      ParentIsStored(env, c, block, opts, now);
      AcceptAdmits(env, c, block, v.state);
      AdmittedHash(env, c, AddBlock(env, c, block, opts, now), block, v.state);
    }
  }

  lemma ParentIsStored(env: Env, c: Chain, block: Block, opts: Options, now: int)
    requires Linked(env, c) && MeetsAll(env, c, block, opts, now)
    ensures block.header.prevHash in c.blocks
  {
    hide Linked, Next, MeetsHeader;
    assert Meets(env, c, block, opts, now, UnknownParent);
  }

  lemma AdmittedHash(env: Env, c: Chain, c1: Chain, block: Block, state: State)
    requires c.tip in c.blocks && block.header.prevHash in c.blocks && Admitted(env, c, c1, block, state)
    ensures env.hash(block.header) in c1.blocks
  {
  }

  // ---- Every stored block ----

  /** What held when the block was let in, read off the tree as it is now. */
  ghost predicate Earned(env: Env, c: Chain, k: Bytes, call: Call)
    requires Linked(env, c) && k in c.blocks
  {
    var b, p := call.block, call.block.header.prevHash;
    && b == c.blocks[k].block && p in c.blocks && b.header.height == HeightOf(c, p) + 1
    && (forall why :: MeetsHeader(Branch(env, c, p), b.header, call.now, why))
    && env.size(b) <= 262_144 && env.txRoot(b.transactions) == b.header.txRoot
    && (call.opts.skipPow || env.powOk(b.header))
    && (call.opts.skipTxSig || forall i :: 0 <= i < |b.transactions| ==> env.structureOk(b.transactions[i]))
    && var s := StateOnPath(env, Path(env, c, k));
       s.Some? && (call.opts.skipStateRoot || env.stateRoot(s.value) == b.header.stateRoot)
  }

  ghost predicate SomeEarned(env: Env, c: Chain, k: Bytes, calls: seq<Call>)
    requires Linked(env, c) && k in c.blocks
  {
    exists n :: 0 <= n < |calls| && Earned(env, c, k, calls[n])
  }

  lemma EarnedStays(env: Env, c: Chain, c1: Chain, k: Bytes, call: Call)
    requires Linked(env, c) && Linked(env, c1) && k in c.blocks && Earned(env, c, k, call)
    requires forall j :: j in c.blocks ==> j in c1.blocks && c1.blocks[j].block == c.blocks[j].block
    ensures k in c1.blocks && Earned(env, c1, k, call)
  {
    hide Linked, Branch, Path, StateOnPath, MeetsHeader;
    BranchStable(env, c, c1, k);
    BranchStable(env, c, c1, call.block.header.prevHash);
  }

  /** The block just let in has earned its place. */
  lemma NewEarned(env: Env, c: Chain, call: Call)
    requires Inv(env, c) && c.tip in c.blocks && MeetsAll(env, c, call.block, call.opts, call.now)
    requires env.hash(call.block.header) !in c.blocks
    ensures var c1, k := AddBlock(env, c, call.block, call.opts, call.now), env.hash(call.block.header);
      Linked(env, c1) && k in c1.blocks && Earned(env, c1, k, call)
  {
    hide Inv, Meets, Admitted, AddBlock;
    InvIndexed(env, c);
    hide Linked, Indexed;
    StoredIff(env, c, call.block, call.opts, call.now);
    StepInv(env, c, call);
    InvIndexed(env, AddBlock(env, c, call.block, call.opts, call.now));
    NewMeets(env, c, AddBlock(env, c, call.block, call.opts, call.now), call);
  }

  lemma StepInv(env: Env, c: Chain, call: Call)
    requires Inv(env, c) && c.tip in c.blocks
    ensures Inv(env, AddBlock(env, c, call.block, call.opts, call.now))
  {
    hide Inv, CheckBlock, Accept;
    if CheckBlock(env, c, call.block, call.opts, call.now).Good? {
      AcceptInv(env, c, call.block, call.opts, call.now);
    }
  }

  lemma NewMeets(env: Env, c: Chain, c1: Chain, call: Call)
    requires Inv(env, c) && Linked(env, c) && Linked(env, c1) && c.tip in c.blocks && MeetsAll(env, c, call.block, call.opts, call.now)
    requires Next(env, c, call.block).Some? && call.block.header.prevHash in c.blocks
    requires Admitted(env, c, c1, call.block, Next(env, c, call.block).value)
    ensures env.hash(call.block.header) in c1.blocks && Earned(env, c1, env.hash(call.block.header), call)
  {
    hide Inv, MeetsAll, Meets, Indexed, BlockWork, StateOnPath, Branch, MeetsHeader, Linked, Path, Next, Grows;
    var block, p, k := call.block, call.block.header.prevHash, env.hash(call.block.header);
    RulesHold(env, c, call);
    GrowsKeeps(c, c1, k, block, Some(Next(env, c, block).value));
    NextIsReplayed(env, c, block);
    hide Admitted;
    NewPath(env, c, c1, p, k, block);
  }

  lemma GrowsKeeps(c: Chain, c1: Chain, k: Bytes, block: Block, state: Option<State>)
    requires Grows(c, c1, k, block, state)
    ensures k in c1.blocks && c1.blocks[k].block == block
    ensures forall j :: j in c.blocks ==> j in c1.blocks && c1.blocks[j].block == c.blocks[j].block
  {
  }

  lemma NewPath(env: Env, c: Chain, c1: Chain, p: Bytes, k: Bytes, block: Block)
    requires Linked(env, c) && Linked(env, c1) && p in c.blocks && k in c1.blocks && c1.blocks[k].block == block
    requires block.header.prevHash == p && block.header.height == HeightOf(c, p) + 1
    requires forall j :: j in c.blocks ==> j in c1.blocks && c1.blocks[j].block == c.blocks[j].block
    ensures p in c1.blocks && HeightOf(c1, p) == HeightOf(c, p)
    ensures Path(env, c1, k) == Path(env, c, p) + [block] && Branch(env, c1, p) == Branch(env, c, p)
  {
    hide Linked, Path, Branch;
    BranchStable(env, c, c1, p);
    BranchSnoc(env, c1, k);
  }

  lemma NextIsReplayed(env: Env, c: Chain, block: Block)
    requires Inv(env, c) && Linked(env, c) && Next(env, c, block).Some? && block.header.prevHash in c.blocks
    requires block.header.height == HeightOf(c, block.header.prevHash) + 1
    ensures StateOnPath(env, Path(env, c, block.header.prevHash) + [block]) == Next(env, c, block)
  {
    hide Linked, Indexed, Heaviest, BranchesValid, StatesAboveFloor, StateOnPath, Path, Branch, ApplyBlock, MedianTimePast;
    StoredState(env, c, block, Next(env, c, block).value);
  }

  lemma RulesHold(env: Env, c: Chain, call: Call)
    requires Linked(env, c) && MeetsAll(env, c, call.block, call.opts, call.now)
    requires call.block.header.prevHash in c.blocks && Next(env, c, call.block).Some?
    ensures var b, p := call.block, call.block.header.prevHash;
      && b.header.height == HeightOf(c, p) + 1
      && (forall why :: MeetsHeader(Branch(env, c, p), b.header, call.now, why))
      && env.size(b) <= 262_144 && env.txRoot(b.transactions) == b.header.txRoot
      && (call.opts.skipPow || env.powOk(b.header))
      && (call.opts.skipTxSig || forall i :: 0 <= i < |b.transactions| ==> env.structureOk(b.transactions[i]))
      && (call.opts.skipStateRoot || env.stateRoot(Next(env, c, b).value) == b.header.stateRoot)
  {
    hide Linked, Next, MeetsHeader, Branch;
    var b, o, now := call.block, call.opts, call.now;
    assert Meets(env, c, b, o, now, HeightMismatch) && Meets(env, c, b, o, now, TooLarge) && Meets(env, c, b, o, now, PowInvalid);
    assert Meets(env, c, b, o, now, TxRootMismatch) && Meets(env, c, b, o, now, BadTxStructure) && Meets(env, c, b, o, now, StateRootMismatch);
    forall why
      ensures MeetsHeader(Branch(env, c, b.header.prevHash), b.header, now, why)
    {
      assert Meets(env, c, b, o, now, BadHeader(why));
    }
  }

  /**
   * After any run, every stored block above genesis was submitted by some call, and as that call's options
   * demand it met the header rules of its branch, the size limit, proof of work, the transaction root, the
   * structural checks and the state root of its replay.
   */
  lemma {:induction false} EveryBlockEarned(env: Env, calls: seq<Call>, k: Bytes)
    requires k in Run(env, calls).blocks && k != env.hash(GENESIS_HEADER)
    ensures Linked(env, Run(env, calls)) && SomeEarned(env, Run(env, calls), k, calls)
    decreases |calls|
  {
    hide Inv, AddBlock, Earned, MeetsAll;
    RunInv(env, calls);
    InvIndexed(env, Run(env, calls));
    hide Linked, Indexed;
    if calls != [] {
      var last, front := calls[|calls| - 1], calls[..|calls| - 1];
      var c := Run(env, front);
      RunInv(env, front);
      InvIndexed(env, c);
      if k in c.blocks {
        EveryBlockEarned(env, front, k);
        var n :| 0 <= n < |front| && Earned(env, c, k, front[n]);
        OnlyAdds(env, c, last);
        EarnedStays(env, c, Run(env, calls), k, front[n]);
        assert calls[n] == front[n];
      } else {
        OnlyNew(env, c, last, k);
        NewEarned(env, c, last);
        assert Earned(env, Run(env, calls), k, calls[|calls| - 1]);
      }
    }
  }

  lemma OnlyAdds(env: Env, c: Chain, call: Call)
    requires Linked(env, c) && Indexed(c) && c.tip in c.blocks
    ensures var c1 := AddBlock(env, c, call.block, call.opts, call.now);
      forall j :: j in c.blocks ==> j in c1.blocks && c1.blocks[j].block == c.blocks[j].block
  {
    hide Linked, Indexed, Accept, MeetsAll, BlockWork;
    if env.hash(call.block.header) !in c.blocks {
      hide AddBlock;
      StoredIff(env, c, call.block, call.opts, call.now);
    } else {
      RefusedFor(env, c, call.block, call.opts, call.now);
      hide CheckBlock;
    }
  }

  lemma OnlyNew(env: Env, c: Chain, call: Call, k: Bytes)
    requires Linked(env, c) && Indexed(c) && c.tip in c.blocks && k !in c.blocks
    requires k in AddBlock(env, c, call.block, call.opts, call.now).blocks
    ensures k == env.hash(call.block.header) && MeetsAll(env, c, call.block, call.opts, call.now)
  {
    hide Linked, Indexed, Accept, MeetsAll, BlockWork, CheckBlock;
    RefusedFor(env, c, call.block, call.opts, call.now);
    if env.hash(call.block.header) !in c.blocks {
      StoredIff(env, c, call.block, call.opts, call.now);
    }
  }
}
