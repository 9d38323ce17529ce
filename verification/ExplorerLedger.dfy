/** What a rebuilt index says about an address: its history, and its balance in the ledger. */
module ExplorerLedger {
  import opened Genesis
  import opened Transactions
  import opened Ledger
  import opened Balances
  import opened Conservation
  import opened Consensus
  import opened BlockTree
  import opened TreeLaws
  import opened TreeRuns
  import opened Explorer
  import opened ExplorerRuns

  // ---- The history of an address ----

  /** Every effect along a branch, oldest block first. */
  function Span(line: seq<Shown>): seq<Effect> {
    if line == [] then []
    else Span(line[1..]) + if line[0].block.header.height == 0 || !line[0].hasBody then [] else Effects(line[0])
  }

  lemma {:induction false} BuildIsSpan(line: seq<Shown>, txHash: Transaction -> Bytes)
    ensures Build(line, txHash).byAddress == DoAll(map[], Span(line))
  {
    hide Effects, DoAll;
    if line == [] {
      DoNothing();
    } else {
      BuildIsSpan(line[1..], txHash);
      DoAllAppend(map[], Span(line[1..]), Effects(line[0]));
      assert Span(line[1..]) + [] == Span(line[1..]);
    }
  }

  lemma DoNothing()
    ensures DoAll(map[], []) == map[]
  {
  }

  /** An address's entry is the sum and the list of what the branch did to it, in order; no entry if nothing. */
  lemma EntryIsHistory(line: seq<Shown>, txHash: Transaction -> Bytes, a: Bytes)
    ensures var f := Mine(Span(line), a);
      At(Build(line, txHash).byAddress, a) == if f == [] then None else Some(AddressStats(SumOf(f), Refs(f)))
  {
    BuildIsSpan(line, txHash);
    DoAllAt(map[], Span(line), a);
    var f := Mine(Span(line), a);
    PlusZero(SumOf(f));
    assert [] + Refs(f) == Refs(f);
    hide Build, Span, DoAll, Mine, SumOf, Refs, Plus;
  }

  lemma {:induction false} MineAppend(x: seq<Effect>, y: seq<Effect>, a: Bytes)
    ensures Mine(x + y, a) == Mine(x, a) + Mine(y, a)
  {
    if x == [] {
      assert x + y == y;
    } else {
      assert (x + y)[1..] == x[1..] + y;
      MineAppend(x[1..], y, a);
    }
  }

  lemma {:induction false} SumAppend(x: seq<Effect>, y: seq<Effect>)
    ensures SumOf(x + y) == Plus(SumOf(x), SumOf(y))
  {
    if x == [] {
      assert x + y == y;
    } else {
      assert (x + y)[1..] == x[1..] + y;
      SumAppend(x[1..], y);
    }
  }

  // ---- Totals against balances ----

  /** What the totals of an address amount to. */
  function Net(d: Delta): int {
    d.received + d.minedRewards - d.sent - d.feesPaid
  }

  function NetOf(es: seq<Effect>, a: Bytes): int {
    Net(SumOf(Mine(es, a)))
  }

  lemma NetAppend(x: seq<Effect>, y: seq<Effect>, a: Bytes)
    ensures NetOf(x + y, a) == NetOf(x, a) + NetOf(y, a)
  {
    MineAppend(x, y, a);
    SumAppend(Mine(x, a), Mine(y, a));
    hide Mine, SumOf;
  }

  /**
   * Where the totals part from the ledger: a lock counts as received by an address the ledger does not pay,
   * a redeem counts the fee as received, and charges an address the ledger does not debit.
   */
  function Drift(tx: Transaction, a: Bytes): int {
    match tx.kind
    case Transfer => 0
    case Lock => if tx.to == a then tx.amount else 0
    case Redeem => (if tx.to == a then tx.fee else 0) - (if tx.from == a then tx.amount + tx.fee else 0)
  }

  function DriftOf(txs: seq<Transaction>, a: Bytes): int {
    if txs == [] then 0 else DriftOf(txs[..|txs| - 1], a) + Drift(txs[|txs| - 1], a)
  }

  /** The drift of a whole branch. */
  function LineDrift(line: seq<Shown>, a: Bytes): int {
    if line == [] then 0
    else LineDrift(line[1..], a) + if line[0].block.header.height == 0 then 0 else DriftOf(line[0].block.transactions, a)
  }

  lemma NetOfOne(e: Effect, a: Bytes)
    ensures NetOf([e], a) == if e.addr == a then Net(e.delta) else 0
  {
    assert [e][1..] == [] && Mine([], a) == [] && SumOf([]) == ZERO;
    assert Mine([e], a) == if e.addr == a then [e] else [];
    PlusZero(e.delta);
    assert SumOf([e]) == Plus(e.delta, SumOf([e][1..]));
  }

  lemma NetOfTwo(e: Effect, f: Effect, a: Bytes)
    ensures NetOf([e, f], a) == NetOf([e], a) + NetOf([f], a)
  {
    hide NetOf;
    NetAppend([e], [f], a);
    assert [e] + [f] == [e, f];
  }

  lemma NetOfTx(b: Shown, i: nat, a: Bytes)
    requires i < |b.block.transactions|
    ensures var tx := b.block.transactions[i];
      NetOf(TxEffects(b, i), a) == if tx.from == tx.to then (if a == tx.from then -tx.fee else 0)
                                   else (if a == tx.from then -tx.amount - tx.fee else 0) + if a == tx.to then tx.amount else 0
  {
    hide NetOf;
    var es := TxEffects(b, i);
    NetOfOne(es[0], a);
    if |es| == 2 {
      NetOfOne(es[1], a);
      NetOfTwo(es[0], es[1], a);
      assert es == [es[0], es[1]];
    } else {
      assert es == [es[0]];
    }
  }

  lemma TxNet(o: Oracle, s: State, created: set<Bytes>, b: Shown, i: nat, ctx: Context, a: Bytes)
    requires i < |b.block.transactions|
    ensures var tx := b.block.transactions[i];
      var r := ApplyTx(o, s, created, tx, ctx);
      r.Applied? ==>
        NetOf(TxEffects(b, i), a) == GetAccount(r.state, a).balance - GetAccount(s, a).balance + Drift(tx, a)
  {
    hide NetOf, TxEffects, ApplyTx, GetAccount;
    NetOfTx(b, i, a);
    TxPays(o, s, created, b.block.transactions[i], ctx, a);
  }

  // ---- Blocks and branches ----

  /** The first `n` transactions of a block, without its coinbase. */
  lemma {:induction false} TxsNet(o: Oracle, s: State, b: Shown, n: nat, ctx: Context, a: Bytes)
    requires n <= |b.block.transactions|
    ensures var r := ApplyTxs(o, s, {}, b.block.transactions[..n], ctx);
      r.Applied? ==>
        NetOf(EffectsTo(b, n), a) - NetOf([MinedEffect(b)], a) - DriftOf(b.block.transactions[..n], a)
        == GetAccount(r.state, a).balance - GetAccount(s, a).balance
  {
    hide NetOf, ApplyTx, GetAccount, Drift, MinedEffect;
    var txs := b.block.transactions;
    if n > 0 {
      var front := txs[..n - 1];
      assert txs[..n] == front + [txs[n - 1]] && txs[..n][..n - 1] == front;
      TxsNet(o, s, b, n - 1, ctx, a);
      ApplyTxsAppend(o, s, {}, front, [txs[n - 1]], ctx);
      var r := ApplyTxs(o, s, {}, front, ctx);
      if r.Applied? {
        ApplyTxsOne(o, r.state, r.created, txs[n - 1], ctx);
        TxNet(o, r.state, r.created, b, n - 1, ctx, a);
      }
      NetAppend(EffectsTo(b, n - 1), TxEffects(b, n - 1), a);
      hide TxEffects, ApplyTxs;
    } else {
      hide DebitError;
    }
  }

  lemma BlockNet(o: Oracle, s: State, b: Shown, ctx: Context, a: Bytes)
    requires ctx.height == b.block.header.height
    ensures var s' := ApplyBlock(o, s, b.block.header.miner, b.block.transactions, ctx);
      s'.Some? ==>
        NetOf(Effects(b), a) == GetAccount(s'.value, a).balance - GetAccount(s, a).balance + DriftOf(b.block.transactions, a)
  {
    hide NetOf, ApplyTxs, GetAccount, Credit, DriftOf, EffectsTo, BlockReward, SumFees;
    var txs, h := b.block.transactions, b.block.header;
    assert txs[..|txs|] == txs;
    TxsNet(o, s, b, |txs|, ctx, a);
    NetOfOne(MinedEffect(b), a);
    var r := ApplyTxs(o, s, {}, txs, ctx);
    if r.Applied? {
      CreditBalance(r.state, h.miner, BlockReward(h.height) + SumFees(txs), a);
    }
  }

  ghost predicate AllBodies(line: seq<Shown>) {
    forall i :: 0 <= i < |line| ==> line[i].hasBody
  }

  lemma SpanStep(line: seq<Shown>, a: Bytes)
    requires line != [] && line[0].hasBody && line[0].block.header.height > 0
    ensures NetOf(Span(line), a) == NetOf(Span(line[1..]), a) + NetOf(Effects(line[0]), a)
  {
    hide NetOf, Effects;
    NetAppend(Span(line[1..]), Effects(line[0]), a);
  }

  /** One step of the replay along the tree. */
  lemma PathState(env: Env, c: Chain, k: Bytes)
    requires Linked(env, c) && k in c.blocks && HeightOf(c, k) > 0 && StateOnPath(env, Path(env, c, k)).Some?
    ensures ParentOf(c, k) in c.blocks
    ensures var s := StateOnPath(env, Path(env, c, ParentOf(c, k)));
      var mtp := MedianTimePast(Branch(env, c, ParentOf(c, k)));
      var b := c.blocks[k].block;
      s.Some? && StateOnPath(env, Path(env, c, k))
        == ApplyBlock(env.oracle, s.value, b.header.miner, b.transactions, Context(ScriptsActive(mtp), HeightOf(c, k), mtp))
  {
    BranchSnoc(env, c, k);
    hide Linked, Path, ApplyBlock, MedianTimePast;
    var path := Path(env, c, ParentOf(c, k));
    ReplayedFront(env, path, c.blocks[k].block);
    StateOnSnoc(env, path, c.blocks[k].block);
    assert |Path(env, c, k)| == |path| + 1;
  }

  lemma ReplayedFront(env: Env, path: seq<Block>, b: Block)
    requires path != [] && StateOnPath(env, path + [b]).Some?
    ensures StateOnPath(env, path).Some?
  {
    hide ApplyBlock, MedianTimePast;
    var bs, bs' := LedgerBlocks(path), LedgerBlocks(path + [b]);
    assert bs'[..|bs|] == bs by {
      forall i | 0 <= i < |bs|
        ensures bs'[i] == bs[i]
      {
        assert (path + [b])[..i + 1] == path[..i + 1];
      }
    }
  }

  /** Along any replayable branch with all its bodies, the totals of an address are its balance plus the drift. */
  lemma {:induction false} TotalsAreBalances(env: Env, c: Chain, k: Bytes, a: Bytes)
    requires Linked(env, c) && k in c.blocks && StateOnPath(env, Path(env, c, k)).Some?
    requires AllBodies(Line(env, c, k))
    ensures NetOf(Span(Line(env, c, k)), a)
         == GetAccount(StateOnPath(env, Path(env, c, k)).value, a).balance + LineDrift(Line(env, c, k), a)
    decreases HeightOf(c, k)
  {
    var line := Line(env, c, k);
    if HeightOf(c, k) == 0 {
      GenesisTotals(env, c, k, a);
    } else {
      LineStep(env, c, k);
      PathState(env, c, k);
      var p, b := ParentOf(c, k), line[0];
      var mtp := MedianTimePast(Branch(env, c, p));
      hide Linked, Line, Path, Branch, StateOnPath, ApplyBlock, GetAccount, NetOf, Effects, Span, DriftOf, MedianTimePast;
      assert AllBodies(line[1..]) && b.hasBody;
      TotalsAreBalances(env, c, p, a);
      SpanStep(line, a);
      BlockNet(env.oracle, StateOnPath(env, Path(env, c, p)).value, b, Context(ScriptsActive(mtp), HeightOf(c, k), mtp), a);
    }
  }

  lemma GenesisTotals(env: Env, c: Chain, k: Bytes, a: Bytes)
    requires Linked(env, c) && k in c.blocks && HeightOf(c, k) == 0 && StateOnPath(env, Path(env, c, k)).Some?
    ensures NetOf(Span(Line(env, c, k)), a) == 0 == LineDrift(Line(env, c, k), a)
    ensures GetAccount(StateOnPath(env, Path(env, c, k)).value, a).balance == 0
  {
    var line := Line(env, c, k);
    NoHistory(line, a);
    var path := Path(env, c, k);
    hide Linked, ApplyBlock, Effects, Line, Path, Span, NetOf, LineDrift;
    assert LedgerBlocks(path) == [];
    assert GetAccount(EMPTY_STATE, a).balance == 0;
  }

  lemma NoHistory(line: seq<Shown>, a: Bytes)
    requires |line| == 1 && line[0].block.header.height == 0
    ensures NetOf(Span(line), a) == 0 == LineDrift(line, a)
  {
    hide Effects, DriftOf, NetOf;
    var rest := line[1..];
    assert rest == [];
    assert Span(rest) == [] && LineDrift(rest, a) == 0;
    assert Span(line) == [];
    NetOfNothing(a);
  }

  lemma NetOfNothing(a: Bytes)
    ensures NetOf([], a) == 0
  {
    assert Mine([], a) == [];
    assert SumOf([]) == ZERO;
  }

  /**
   * After any run of validated blocks, for any block whose state is in memory, what the rebuilt index totals
   * for an address is its balance plus the drift of the branch; with transfers only they are equal.
   */
  lemma IndexAgreesWithLedger(env: Env, calls: seq<Call>, k: Bytes, a: Bytes, txHash: Transaction -> Bytes)
    requires k in Run(env, calls).blocks && Run(env, calls).blocks[k].state.Some?
    requires Linked(env, Run(env, calls)) && AllBodies(Line(env, Run(env, calls), k))
    ensures var c := Run(env, calls);
      var line := Line(env, c, k);
      var s := c.blocks[k].state.value;
      Net(Base(At(Build(line, txHash).byAddress, a)).totals) == GetAccount(s, a).balance + LineDrift(line, a)
  {
    hide *;
    ReplayedAt(env, calls, k);
    TotalsAreBalances(env, Run(env, calls), k, a);
    TotalsOfBuild(Line(env, Run(env, calls), k), txHash, a);
  }

  lemma ReplayedAt(env: Env, calls: seq<Call>, k: Bytes)
    requires Linked(env, Run(env, calls)) && k in Run(env, calls).blocks && Run(env, calls).blocks[k].state.Some?
    ensures StateOnPath(env, Path(env, Run(env, calls), k)) == Run(env, calls).blocks[k].state
  {
    RunInv(env, calls);
    hide Run, Linked, Path, StateOnPath, Indexed, BranchesValid;
  }

  lemma TotalsOfBuild(line: seq<Shown>, txHash: Transaction -> Bytes, a: Bytes)
    ensures Net(Base(At(Build(line, txHash).byAddress, a)).totals) == NetOf(Span(line), a)
  {
    EntryIsHistory(line, txHash, a);
    assert SumOf([]) == ZERO;
    hide Build, Span, Mine, SumOf, Refs;
  }

  /** The drift is zero on a branch of transfers. */
  lemma {:induction false} TransfersDoNotDrift(line: seq<Shown>, a: Bytes)
    requires forall i, j :: 0 <= i < |line| && 0 <= j < |line[i].block.transactions| ==> line[i].block.transactions[j].kind.Transfer?
    ensures LineDrift(line, a) == 0
  {
    if line != [] {
      TransfersDoNotDrift(line[1..], a);
      NoDrift(line[0].block.transactions, a);
    }
  }

  lemma {:induction false} NoDrift(txs: seq<Transaction>, a: Bytes)
    requires forall j :: 0 <= j < |txs| ==> txs[j].kind.Transfer?
    ensures DriftOf(txs, a) == 0
  {
    if txs != [] {
      NoDrift(txs[..|txs| - 1], a);
    }
  }

  // ---- A branch that drifts ----

  function Miner(): (m: Bytes)
    ensures |m| == 32 && m[0] == 1
  {
    seq(32, _ => 1)
  }

  function MinedAt(height: nat): Header {
    Header(height, Zeros(32), Zeros(32), Zeros(32), 0, 0, 0, Miner())
  }

  /** The miner of block 1 locks one unit in block 2, once scripts are active. */
  function LockOne(): Transaction {
    Transaction(Lock, Miner(), Zeros(32), 1, 0, 0, Zeros(64), Zeros(32), [], [], [])
  }

  function DriftBlocks(): seq<LedgerBlock> {
    [LedgerBlock(Miner(), [], 0), LedgerBlock(Miner(), [LockOne()], FORK1_ACTIVATION_TIME)]
  }

  function DriftLine(a: Bytes, b: Bytes, c: Bytes): seq<Shown> {
    [Shown(Block(MinedAt(2), [LockOne()]), c, true), Shown(Block(MinedAt(1), []), b, true), Shown(GENESIS, a, true)]
  }

  lemma FirstCoinbase(o: Oracle)
    ensures Replay(o, DriftBlocks()[..1]) == Some(State(map[Miner() := Account(INITIAL_REWARD, 0)], map[]))
  {
    assert DriftBlocks()[..1] == [LedgerBlock(Miner(), [], 0)];
    assert [LedgerBlock(Miner(), [], 0)][..0] == [];
    assert BlockReward(1) == INITIAL_REWARD;
    hide BlockReward;
  }

  lemma LockApplies(o: Oracle)
    ensures ApplyBlock(o, State(map[Miner() := Account(INITIAL_REWARD, 0)], map[]), Miner(), [LockOne()], ContextOf(DriftBlocks()[1], 2)).Some?
  {
    var s, ctx := State(map[Miner() := Account(INITIAL_REWARD, 0)], map[]), ContextOf(DriftBlocks()[1], 2);
    assert ApplyTx(o, s, {}, LockOne(), ctx).Applied?;
    hide ApplyTx;
    ApplyTxsOne(o, s, {}, LockOne(), ctx);
  }

  /**
   * On a chain the ledger accepts, one lock is enough: the index credits the lock's unused `to` address with
   * an amount that is not in its balance.
   */
  lemma LockDrifts(o: Oracle, a: Bytes, b: Bytes, c: Bytes, txHash: Transaction -> Bytes)
    ensures var s := Replay(o, DriftBlocks());
      && s.Some?
      && Net(Base(At(Build(DriftLine(a, b, c), txHash).byAddress, Zeros(32))).totals) == GetAccount(s.value, Zeros(32)).balance + 1
  {
    var line, z := DriftLine(a, b, c), Zeros(32);
    var s1 := State(map[Miner() := Account(INITIAL_REWARD, 0)], map[]);
    FirstCoinbase(o);
    LockApplies(o);
    assert DriftBlocks()[..|DriftBlocks()| - 1] == DriftBlocks()[..1];
    var s := Replay(o, DriftBlocks());
    assert s == ApplyBlock(o, s1, Miner(), [LockOne()], ContextOf(DriftBlocks()[1], 2));
    hide Replay, Build;
    TotalsOfBuild(line, txHash, z);
    assert line[1..][1..] == [line[2]];
    hide Span, NetOf, ApplyBlock, At;
    SpanStep(line, z);
    SpanStep(line[1..], z);
    NoHistory([line[2]], z);
    DriftOfBlocks(o, s1, line, z);
  }

  lemma DriftOfBlocks(o: Oracle, s1: State, line: seq<Shown>, z: Bytes)
    requires |line| == 3 && line[0].block == Block(MinedAt(2), [LockOne()]) && line[1].block == Block(MinedAt(1), [])
    requires s1 == State(map[Miner() := Account(INITIAL_REWARD, 0)], map[]) && z == Zeros(32)
    requires ApplyBlock(o, s1, Miner(), [LockOne()], ContextOf(DriftBlocks()[1], 2)).Some?
    ensures var s := ApplyBlock(o, s1, Miner(), [LockOne()], ContextOf(DriftBlocks()[1], 2)).value;
      NetOf(Effects(line[0]), z) + NetOf(Effects(line[1]), z) == GetAccount(s, z).balance + 1
  {
    assert Miner()[0] != z[0];
    BlockNet(o, EMPTY_STATE, line[1], Context(false, 1, 0), z);
    BlockNet(o, s1, line[0], ContextOf(DriftBlocks()[1], 2), z);
    assert BlockReward(1) == INITIAL_REWARD;
    assert [LockOne()][..0] == [];
    assert DriftOf([], z) == 0 && DriftOf([LockOne()], z) == 1;
    hide NetOf, Effects, BlockReward;
  }
}
