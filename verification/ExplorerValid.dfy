/** On validated chains no transaction repeats on a branch, so the explorer theorems need no such assumption. */
module ExplorerValid {
  import opened Genesis
  import opened Transactions
  import opened Ledger
  import opened Conservation
  import opened Consensus
  import opened HeaderChain
  import opened OnceOnly
  import opened BlockTree
  import opened TreeLaws
  import opened TreeRuns
  import opened SeedLaws
  import opened Explorer
  import opened ExplorerLaws
  import ER = ExplorerRuns

  // ---- Transactions of different blocks of a chain differ ----

  lemma {:induction false} EventsPrefix(blocks: seq<LedgerBlock>, m: nat)
    requires m <= |blocks|
    ensures |Events(blocks[..m])| <= |Events(blocks)| && Events(blocks[..m]) == Events(blocks)[..|Events(blocks[..m])|]
    decreases |blocks|
  {
    if m == |blocks| {
      assert blocks[..m] == blocks;
    } else {
      var front := blocks[..|blocks| - 1];
      EventsPrefix(front, m);
      assert front[..m] == blocks[..m];
    }
  }

  lemma EventIndex(blocks: seq<LedgerBlock>, i: nat, p: nat)
    requires i < |blocks| && p < |blocks[i].txs|
    ensures var n := |Events(blocks[..i])| + p;
      n < |Events(blocks[..i + 1])| <= |Events(blocks)| && Events(blocks)[n].tx == blocks[i].txs[p]
  {
    EventsPrefix(blocks, i + 1);
    assert blocks[..i + 1][..i] == blocks[..i] && blocks[..i + 1][i] == blocks[i];
    assert Events(blocks[..i + 1]) == Events(blocks[..i]) + BlockEvents(blocks[i].txs, i + 1);
    assert Events(blocks[..i + 1])[|Events(blocks[..i])| + p] == Event(i + 1, blocks[i].txs[p]);
  }

  lemma TxsDiffer(o: Oracle, blocks: seq<LedgerBlock>, s: State, i: nat, p: nat, j: nat, q: nat)
    requires Replay(o, blocks) == Some(s) && LockIdsCommit(o, Events(blocks))
    requires i < j < |blocks| && p < |blocks[i].txs| && q < |blocks[j].txs|
    ensures blocks[i].txs[p] != blocks[j].txs[q]
  {
    hide Replay, Events, LockIdsCommit, Creates;
    EventIndex(blocks, i, p);
    EventIndex(blocks, j, q);
    EventsPrefix(blocks[..j], i + 1);
    assert blocks[..j][..i + 1] == blocks[..i + 1];
    NothingTakesEffectTwice(o, blocks, s);
    var h, m, n := Events(blocks), |Events(blocks[..i])| + p, |Events(blocks[..j])| + q;
    assert m < n && !SameSlot(h[m].tx, h[n].tx);
    assert Redeems(h[m], h[m].tx.lockId) ==> !Redeems(h[n], h[m].tx.lockId);
  }

  lemma {:induction false} EventsIn(blocks: seq<LedgerBlock>, all: iset<Transaction>)
    requires forall i, p :: 0 <= i < |blocks| && 0 <= p < |blocks[i].txs| ==> blocks[i].txs[p] in all
    ensures forall n :: 0 <= n < |Events(blocks)| ==> Events(blocks)[n].tx in all
    decreases |blocks|
  {
    if blocks != [] {
      var front := blocks[..|blocks| - 1];
      assert forall i :: 0 <= i < |front| ==> front[i] == blocks[i];
      EventsIn(front, all);
    }
  }

  // ---- The transactions of a tree ----

  ghost function TxsIn(c: Chain): iset<Transaction> {
    iset k, p | k in c.blocks && 0 <= p < |c.blocks[k].block.transactions| :: c.blocks[k].block.transactions[p]
  }

  /** The hash keeps these transactions apart. */
  ghost predicate Separates(txHash: Transaction -> Bytes, all: iset<Transaction>) {
    forall s, t :: s in all && t in all && txHash(s) == txHash(t) ==> s == t
  }

  lemma {:induction false} PathIn(env: Env, c: Chain, k: Bytes, i: nat, p: nat)
    requires Linked(env, c) && k in c.blocks && i <= HeightOf(c, k) && p < |Path(env, c, k)[i].transactions|
    ensures Path(env, c, k)[i].transactions[p] in TxsIn(c)
    decreases HeightOf(c, k)
  {
    if i < HeightOf(c, k) {
      BranchSnoc(env, c, k);
      hide Linked, Branch, TxsIn;
      PathIn(env, c, ParentOf(c, k), i, p);
    } else {
      hide Linked;
    }
  }

  lemma PathLocksCommit(env: Env, c: Chain, k: Bytes)
    requires Linked(env, c) && k in c.blocks && Separates(env.oracle.txHash, TxsIn(c))
    ensures LockIdsCommit(env.oracle, Events(LedgerBlocks(Path(env, c, k))))
  {
    var path := Path(env, c, k);
    var blocks := LedgerBlocks(path);
    forall i, p | 0 <= i < |blocks| && 0 <= p < |blocks[i].txs|
      ensures blocks[i].txs[p] in TxsIn(c)
    {
      assert blocks[i].txs == path[i + 1].transactions;
      PathIn(env, c, k, i + 1, p);
    }
    hide Linked, Path, TxsIn;
    EventsIn(blocks, TxsIn(c));
    hide Events;
  }

  /** Every branch of the tree replays from genesis. */
  ghost predicate AllReplay(env: Env, c: Chain)
    requires Linked(env, c)
  {
    forall k :: k in c.blocks ==> StateOnPath(env, Path(env, c, k)).Some?
  }

  lemma {:induction false} LineIsPath(env: Env, c: Chain, k: Bytes, i: nat)
    requires Linked(env, c) && k in c.blocks && i <= HeightOf(c, k)
    ensures ER.Line(env, c, k)[i].block == Path(env, c, k)[HeightOf(c, k) - i]
    decreases i
  {
    if i > 0 {
      ER.LineStep(env, c, k);
      BranchSnoc(env, c, k);
      hide Linked, Branch;
      LineIsPath(env, c, ParentOf(c, k), i - 1);
      assert ER.Line(env, c, k)[i] == ER.Line(env, c, k)[1..][i - 1];
    } else {
      hide Linked;
    }
  }

  lemma PathTxsApart(env: Env, path: seq<Block>, all: iset<Transaction>, i: nat, p: nat, j: nat, q: nat)
    requires path != [] && path[0] == GENESIS && StateOnPath(env, path).Some? && Separates(env.oracle.txHash, all)
    requires LockIdsCommit(env.oracle, Events(LedgerBlocks(path)))
    requires i < j < |path| && p < |path[i].transactions| && q < |path[j].transactions|
    requires path[i].transactions[p] in all && path[j].transactions[q] in all
    ensures env.oracle.txHash(path[i].transactions[p]) != env.oracle.txHash(path[j].transactions[q])
  {
    hide LockIdsCommit, Replay, Events;
    var blocks := LedgerBlocks(path);
    assert i > 0;
    assert blocks[i - 1].txs == path[i].transactions && blocks[j - 1].txs == path[j].transactions;
    TxsDiffer(env.oracle, blocks, StateOnPath(env, path).value, i - 1, p, j - 1, q);
  }

  lemma BlocksApart(env: Env, path: seq<Block>, all: iset<Transaction>, i: nat, j: nat, x: Bytes)
    requires path != [] && path[0] == GENESIS && StateOnPath(env, path).Some? && Separates(env.oracle.txHash, all)
    requires LockIdsCommit(env.oracle, Events(LedgerBlocks(path))) && i < j < |path|
    requires forall n, p :: 0 <= n < |path| && 0 <= p < |path[n].transactions| ==> path[n].transactions[p] in all
    requires exists p :: 0 <= p < |path[j].transactions| && env.oracle.txHash(path[j].transactions[p]) == x
    ensures forall q :: 0 <= q < |path[i].transactions| ==> env.oracle.txHash(path[i].transactions[q]) != x
  {
    hide LockIdsCommit, Replay, Events, StateOnPath, Separates;
    var p :| 0 <= p < |path[j].transactions| && env.oracle.txHash(path[j].transactions[p]) == x;
    forall q | 0 <= q < |path[i].transactions|
      ensures env.oracle.txHash(path[i].transactions[q]) != x
    {
      PathTxsApart(env, path, all, i, q, j, p);
    }
  }

  lemma PathAllIn(env: Env, c: Chain, k: Bytes)
    requires Linked(env, c) && k in c.blocks
    ensures var path := Path(env, c, k);
      forall n, p :: 0 <= n < |path| && 0 <= p < |path[n].transactions| ==> path[n].transactions[p] in TxsIn(c)
  {
    var path := Path(env, c, k);
    hide Linked, Path, TxsIn;
    forall n, p | 0 <= n < |path| && 0 <= p < |path[n].transactions|
      ensures path[n].transactions[p] in TxsIn(c)
    {
      PathIn(env, c, k, n, p);
    }
  }

  /** On a branch that replays, no transaction hash is in two blocks. */
  lemma BranchApart(env: Env, c: Chain, k: Bytes)
    requires Linked(env, c) && k in c.blocks && StateOnPath(env, Path(env, c, k)).Some? && Separates(env.oracle.txHash, TxsIn(c))
    ensures TxsApart(ER.Line(env, c, k), env.oracle.txHash)
  {
    hide Linked, ER.Line, Path, LockIdsCommit, Separates, TxsIn, Replay, StateOnPath, Events, LedgerBlocks, TxsApart;
    var line, path, h := ER.Line(env, c, k), Path(env, c, k), HeightOf(c, k);
    PathLocksCommit(env, c, k);
    PathAllIn(env, c, k);
    forall i | 0 <= i <= h
      ensures line[i].block == path[h - i]
    {
      LineIsPath(env, c, k, i);
    }
    LineApart(env, line, path, TxsIn(c));
  }

  lemma LineApart(env: Env, line: seq<Shown>, path: seq<Block>, all: iset<Transaction>)
    requires path != [] && path[0] == GENESIS && StateOnPath(env, path).Some? && Separates(env.oracle.txHash, all)
    requires LockIdsCommit(env.oracle, Events(LedgerBlocks(path))) && |line| == |path|
    requires forall n, p :: 0 <= n < |path| && 0 <= p < |path[n].transactions| ==> path[n].transactions[p] in all
    requires forall i :: 0 <= i < |line| ==> line[i].block == path[|path| - 1 - i]
    ensures TxsApart(line, env.oracle.txHash)
  {
    hide LockIdsCommit, Replay, Events, StateOnPath, Separates;
    forall i, j, x | 0 <= i < j < |line| && Carries(line[i], env.oracle.txHash, x)
      ensures !Carries(line[j], env.oracle.txHash, x)
    {
      BlocksApart(env, path, all, |path| - 1 - j, |path| - 1 - i, x);
    }
  }

  /** No transaction repeats on any branch of a tree whose branches replay. */
  lemma ValidatedNoRepeats(env: Env, c: Chain)
    requires Linked(env, c) && AllReplay(env, c) && Separates(env.oracle.txHash, TxsIn(c))
    ensures ER.NoRepeats(env, c, env.oracle.txHash)
  {
    forall k | k in c.blocks
      ensures TxsApart(ER.Line(env, c, k), env.oracle.txHash)
    {
      assert StateOnPath(env, Path(env, c, k)).Some?;
      hide Linked, Path, StateOnPath, ER.Line, TxsApart, Separates, TxsIn;
      BranchApart(env, c, k);
    }
  }

  // ---- Runs of validated blocks ----

  lemma InitReplays(env: Env)
    ensures Linked(env, Init(env)) && AllReplay(env, Init(env))
  {
    InitInv(env);
    var c, g := Init(env), env.hash(GENESIS_HEADER);
    hide BlockWork, BranchesValid, Indexed, Heaviest, StatesAboveFloor, ApplyBlock;
    assert Path(env, c, g) == [GENESIS];
    assert LedgerBlocks([GENESIS]) == [];
  }

  lemma StoreReplays(env: Env, c: Chain, e: ChainBlock)
    requires Linked(env, c) && Linked(env, Store(c, e)) && e.hash !in c.blocks && AllReplay(env, c)
    requires StateOnPath(env, Path(env, Store(c, e), e.hash)).Some?
    ensures AllReplay(env, Store(c, e))
  {
    var c1 := Store(c, e);
    hide Linked, StateOnPath;
    forall k | k in c1.blocks
      ensures StateOnPath(env, Path(env, c1, k)).Some?
    {
      if k != e.hash {
        BranchStable(env, c, c1, k);
      }
    }
  }

  lemma SameBlocksReplay(env: Env, c: Chain, c': Chain)
    requires Linked(env, c) && Linked(env, c') && AllReplay(env, c) && c'.blocks.Keys == c.blocks.Keys
    requires forall k :: k in c.blocks ==> c'.blocks[k].block == c.blocks[k].block
    ensures AllReplay(env, c')
  {
    hide Linked, StateOnPath;
    forall k | k in c'.blocks
      ensures StateOnPath(env, Path(env, c', k)).Some?
    {
      BranchStable(env, c, c', k);
    }
  }

  lemma StoredReplays(env: Env, c: Chain, block: Block, opts: Options, now: int)
    requires TreeRuns.Inv(env, c) && AllReplay(env, c) && CheckBlock(env, c, block, opts, now).Good?
    ensures block.header.prevHash in c.blocks
    ensures var e := Entry(env, c, block, Some(CheckBlock(env, c, block, opts, now).state), true);
      Linked(env, Store(c, e)) && AllReplay(env, Store(c, e))
  {
    var state := CheckBlock(env, c, block, opts, now).state;
    GoodPrevStored(env, c, block, opts, now);
    var e := Entry(env, c, block, Some(state), true);
    GoodIsInsertable(env, c, block, opts, now);
    hide CheckBlock, ApplyBlock, BlockWork, Extends, StateOnPath, InheritAnchor, AllReplay;
    StoreBranches(env, c, e);
    StoredState(env, c, block, state);
    hide Path, Branch;
    StoreReplays(env, c, e);
  }

  lemma PrunedReplays(env: Env, c: Chain, t: Bytes, boundary: int)
    requires Linked(env, c) && Indexed(c) && t in c.blocks && AllReplay(env, c)
    ensures var c' := PruneTo(c.(tip := t), boundary); Linked(env, c') && AllReplay(env, c')
  {
    hide AllReplay, Linked, Indexed, PruneTo;
    IndexedIgnoresTip(c, t);
    RetipLinked(env, c, c.(tip := t));
    PruneExact(c.(tip := t), boundary);
    PruneLinked(env, c.(tip := t), boundary);
    SameBlocksReplay(env, c, PruneTo(c.(tip := t), boundary));
  }

  lemma AcceptReplays(env: Env, c: Chain, block: Block, state: State)
    requires block.header.prevHash in c.blocks && c.tip in c.blocks && Indexed(c) && env.hash(block.header) !in c.blocks
    requires var e := Entry(env, c, block, Some(state), true); Linked(env, Store(c, e)) && AllReplay(env, Store(c, e))
    ensures var c' := Accept(env, c, block, state); Linked(env, c') && AllReplay(env, c')
  {
    hide Linked, Indexed, AllReplay, Entry, PruneTo;
    EntryFields(env, c, block, state);
    var e := Entry(env, c, block, Some(state), true);
    InsertIndexed(env, c, e);
    if e.work > Store(c, e).blocks[c.tip].work {
      PrunedReplays(env, Store(c, e), e.hash, block.header.height - env.depth);
    }
  }

  lemma AddReplays(env: Env, c: Chain, block: Block, opts: Options, now: int)
    requires TreeRuns.Inv(env, c) && Linked(env, c) && AllReplay(env, c) && c.tip in c.blocks
    ensures var c' := AddBlock(env, c, block, opts, now); Linked(env, c') && AllReplay(env, c')
  {
    hide TreeRuns.Inv, CheckBlock, Linked, Indexed, AllReplay, Entry, Accept;
    var r := CheckBlock(env, c, block, opts, now);
    if r.Good? {
      InvIndexed(env, c);
      NewHash(env, c, block, opts, now);
      StoredReplays(env, c, block, opts, now);
      AcceptReplays(env, c, block, r.state);
    }
  }

  ghost predicate AllAdds(ops: seq<Op>) {
    forall n :: 0 <= n < |ops| ==> ops[n].Add?
  }

  ghost predicate Validated(env: Env, c: Chain) {
    TreeRuns.Inv(env, c) && Linked(env, c) && AllReplay(env, c) && c.tip in c.blocks
  }

  lemma ApplyValidated(env: Env, c: Chain, op: Op)
    requires Validated(env, c) && op.Add?
    ensures Validated(env, Apply(env, c, op))
  {
    hide TreeRuns.Inv, CheckBlock, Accept, Linked, AllReplay;
    AddKeepsTip(env, c, op.block, op.opts, op.now);
    AddReplays(env, c, op.block, op.opts, op.now);
    if CheckBlock(env, c, op.block, op.opts, op.now).Good? {
      AcceptInv(env, c, op.block, op.opts, op.now);
    }
  }

  lemma {:induction false} AddsValidated(env: Env, ops: seq<Op>)
    requires AllAdds(ops)
    ensures Validated(env, RunOps(env, ops))
    decreases |ops|
  {
    if ops == [] {
      InitInv(env);
      InitReplays(env);
      hide TreeRuns.Inv, AllReplay;
    } else {
      hide Validated, Apply;
      AddsValidated(env, ops[..|ops| - 1]);
      ApplyValidated(env, RunOps(env, ops[..|ops| - 1]), ops[|ops| - 1]);
    }
  }

  /** Trees only grow under validated blocks, and so do their transactions. */
  lemma {:induction false} TxsGrow(env: Env, ops: seq<Op>, n: nat)
    requires AllAdds(ops) && n <= |ops|
    ensures TxsIn(RunOps(env, ops[..n])) <= TxsIn(RunOps(env, ops))
    decreases |ops|
  {
    if n == |ops| {
      assert ops[..n] == ops;
    } else {
      var front := ops[..|ops| - 1];
      TxsGrow(env, front, n);
      assert front[..n] == ops[..n];
      AddsValidated(env, front);
      hide TreeRuns.Inv, AllReplay, Linked, Apply, TxsIn;
      ER.OpGrows(env, RunOps(env, front), ops[|ops| - 1]);
      GrowsTxs(RunOps(env, front), RunOps(env, ops));
    }
  }

  lemma GrowsTxs(c: Chain, c': Chain)
    requires ER.Grows(c, c')
    ensures TxsIn(c) <= TxsIn(c')
  {
    forall t | t in TxsIn(c)
      ensures t in TxsIn(c')
    {
      var k, p :| k in c.blocks && 0 <= p < |c.blocks[k].block.transactions| && c.blocks[k].block.transactions[p] == t;
      assert View(c'.blocks[k]) == View(c.blocks[k]);
      assert c'.blocks[k].block.transactions[p] == t;
    }
  }

  // ---- The explorer on validated blocks ----

  /** Only validated blocks, each tip move reported as it happened. */
  ghost predicate Relayed(env: Env, events: seq<ER.Event>) {
    && AllAdds(ER.OpsOf(events))
    && forall n :: 0 <= n < |events| ==>
         ER.Reported(env, RunOps(env, ER.OpsOf(events[..n])), RunOps(env, ER.OpsOf(events[..n + 1])), events[n])
  }

  lemma OpsPrefix(events: seq<ER.Event>, n: nat)
    requires n <= |events|
    ensures ER.OpsOf(events[..n]) == ER.OpsOf(events)[..n]
  {
  }

  lemma PrefixAdds(ops: seq<Op>, n: nat)
    requires AllAdds(ops) && n <= |ops|
    ensures AllAdds(ops[..n])
  {
  }

  lemma FewerSeparate(txHash: Transaction -> Bytes, some: iset<Transaction>, all: iset<Transaction>)
    requires some <= all && Separates(txHash, all)
    ensures Separates(txHash, some)
  {
  }

  lemma StepRelayed(env: Env, events: seq<ER.Event>, n: nat)
    requires Relayed(env, events) && n < |events|
    requires Separates(env.oracle.txHash, TxsIn(RunOps(env, ER.OpsOf(events))))
    ensures ER.StepFaithful(env, events, env.oracle.txHash, n)
  {
    hide ER.Reported, RunOps, TxsIn, ER.OpsOf, ER.NoRepeats, Separates, TreeRuns.Inv, Linked, AllReplay;
    var ops := ER.OpsOf(events);
    OpsPrefix(events, n + 1);
    PrefixAdds(ops, n + 1);
    AddsValidated(env, ops[..n + 1]);
    TxsGrow(env, ops, n + 1);
    FewerSeparate(env.oracle.txHash, TxsIn(RunOps(env, ops[..n + 1])), TxsIn(RunOps(env, ops)));
    ValidatedNoRepeats(env, RunOps(env, ops[..n + 1]));
  }

  lemma RelayedFaithful(env: Env, events: seq<ER.Event>)
    requires Relayed(env, events) && Separates(env.oracle.txHash, TxsIn(RunOps(env, ER.OpsOf(events))))
    ensures ER.Faithful(env, events, env.oracle.txHash)
  {
    forall n | 0 <= n < |events|
      ensures ER.StepFaithful(env, events, env.oracle.txHash, n)
    {
      StepRelayed(env, events, n);
    }
    hide ER.StepFaithful, RunOps, BodyFits, ER.Reported;
  }

  /**
   * Read once, then follow validated blocks through any reorgs: the index is always the rebuild for the
   * chain's tip. All it takes is that the transactions at hand hash apart.
   */
  lemma ValidatedIndexInStep(env: Env, events: seq<ER.Event>)
    requires Relayed(env, events) && Separates(env.oracle.txHash, TxsIn(RunOps(env, ER.OpsOf(events))))
    requires events != [] && events[0].refresh
    ensures BodiesFit(env, ER.OpsOf(events)) && Linked(env, RunOps(env, ER.OpsOf(events)))
    ensures ER.InStep(env, RunOps(env, ER.OpsOf(events)), ER.Watch(env, events, env.oracle.txHash), env.oracle.txHash)
  {
    RelayedFaithful(env, events);
    forall n | 0 <= n < |events|
      ensures events[n].op.Add?
    {
      assert ER.OpsOf(events)[n] == events[n].op;
    }
    hide ER.Faithful, ER.Reported, RunOps, Separates;
    ER.NeverRebuiltAgain(env, events, env.oracle.txHash);
  }
}
