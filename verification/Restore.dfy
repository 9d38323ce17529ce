/** Restoring a chain from storage: replaying everything, or seeding a prefix and replaying the tail (src/node.ts). */
module Restore {
  import opened Genesis
  import opened Transactions
  import opened Ledger
  import opened Consensus
  import opened HeaderChain
  import opened BlockTree
  import opened TreeLaws
  import opened TreeRuns
  import BlockWire

  /** `addValidatedBlock`: proof of work, signatures and state roots were checked when the block was stored. */
  const STORED := Options(true, true, true)

  /** A block as persisted. */
  datatype Row = Row(height: nat, hash: Bytes, encoded: Bytes)

  datatype Restored = Restored(chain: Chain) | Failed

  /** Replay every row that decodes; a rejected or undecodable row is skipped. */
  function FullReplay(env: Env, c: Chain, rows: seq<Row>, now: int): Chain
    requires c.tip in c.blocks
    decreases |rows|
  {
    if rows == [] then c
    else
      var block := BlockWire.DecodeBlock(rows[0].encoded);
      if rows[0].height == 0 || block.None? then FullReplay(env, c, rows[1..], now)
      else
        AddKeepsTip(env, c, block.value, STORED, now);
        FullReplay(env, AddBlock(env, c, block.value, STORED, now), rows[1..], now)
  }

  /** A persisted state with the block it belongs to. */
  datatype Snapshot = Snapshot(height: nat, hash: Bytes, state: State)

  /** One row of a snapshot restore, with whether the anchor has been seeded so far. */
  function SnapshotStep(env: Env, c: Chain, row: Row, snap: Snapshot, now: int): Restored
    requires c.tip in c.blocks
  {
    var decoded := BlockWire.DecodeBlock(row.encoded);
    if decoded.None? then Failed
    else
      var block := decoded.value;
      if row.height < snap.height then SeedOrFail(env, c, block, None)
      else if row.height == snap.height then
        if env.hash(block.header) != snap.hash then SeedOrFail(env, c, block, None)
        else if env.stateRoot(snap.state) != block.header.stateRoot then Failed
        else SeedOrFail(env, c, block, Some(snap.state))
      else TailOrFail(env, c, block, now)
  }

  function SeedOrFail(env: Env, c: Chain, block: Block, state: Option<State>): Restored
    requires c.tip in c.blocks
  {
    if SeedError(env, c, block.header).Some? then Failed else Restored(SeedHistorical(env, c, block, state))
  }

  function TailOrFail(env: Env, c: Chain, block: Block, now: int): Restored
    requires c.tip in c.blocks
  {
    if CheckBlock(env, c, block, STORED, now).Bad? then Failed else Restored(AddBlock(env, c, block, STORED, now))
  }

  lemma StepKeepsTip(env: Env, c: Chain, block: Block, state: Option<State>, now: int)
    requires c.tip in c.blocks
    ensures SeedOrFail(env, c, block, state).Restored? ==>
      var c' := SeedOrFail(env, c, block, state).chain; c'.tip in c'.blocks
    ensures TailOrFail(env, c, block, now).Restored? ==>
      var c' := TailOrFail(env, c, block, now).chain; c'.tip in c'.blocks
  {
    AddKeepsTip(env, c, block, STORED, now);
    hide AddBlock, CheckBlock, Entry;
  }

  /** Whether a row is the one that seeds the anchor. */
  predicate IsAnchorRow(env: Env, row: Row, snap: Snapshot) {
    var block := BlockWire.DecodeBlock(row.encoded);
    row.height == snap.height && block.Some? && env.hash(block.value.header) == snap.hash
  }

  /** All rows in order; fails if the anchor never turns up. */
  function ReplayWithSnapshot(env: Env, c: Chain, rows: seq<Row>, snap: Snapshot, seeded: bool, now: int): Restored
    requires c.tip in c.blocks
    decreases |rows|
  {
    if rows == [] then if seeded then Restored(c) else Failed
    else if rows[0].height == 0 then ReplayWithSnapshot(env, c, rows[1..], snap, seeded, now)
    else
      var r := SnapshotStep(env, c, rows[0], snap, now);
      if r.Failed? then Failed
      else
        SnapshotStepKeepsTip(env, c, rows[0], snap, now);
        ReplayWithSnapshot(env, r.chain, rows[1..], snap, seeded || IsAnchorRow(env, rows[0], snap), now)
  }

  lemma SnapshotStepKeepsTip(env: Env, c: Chain, row: Row, snap: Snapshot, now: int)
    requires c.tip in c.blocks
    ensures var r := SnapshotStep(env, c, row, snap, now); r.Restored? ==> r.chain.tip in r.chain.blocks
  {
    var block := BlockWire.DecodeBlock(row.encoded);
    if block.Some? {
      StepKeepsTip(env, c, block.value, None, now);
      StepKeepsTip(env, c, block.value, Some(snap.state), now);
    }
    hide SeedOrFail, TailOrFail;
  }

  // ---- Linear chains ----

  function HashAt(env: Env, bs: seq<Block>, i: nat): Bytes
    requires i < |bs|
  {
    env.hash(bs[i].header)
  }

  ghost predicate NoCollisions(env: Env, bs: seq<Block>) {
    forall i, j :: 0 <= i < j < |bs| ==> HashAt(env, bs, i) != HashAt(env, bs, j)
  }

  /** Block `i` passes every check of a stored block, as a child of the one before it. */
  ghost predicate ChildOk(env: Env, bs: seq<Block>, i: nat, now: int)
    requires 1 <= i < |bs|
  {
    && bs[i].header.prevHash == HashAt(env, bs, i - 1)
    && CheckHeader(Headers(bs[..i]), bs[i].header, now) == HeaderOk
    && env.size(bs[i]) <= MAX_BLOCK_BYTES
    && env.txRoot(bs[i].transactions) == bs[i].header.txRoot
    && StateOnPath(env, bs[..i + 1]).Some?
  }

  /** A chain without forks, valid from genesis, whose headers hash apart. */
  ghost predicate LinearChain(env: Env, bs: seq<Block>, now: int) {
    && bs != [] && bs[0] == GENESIS
    && NoCollisions(env, bs)
    && forall i {:trigger ChildOk(env, bs, i, now)} :: 1 <= i < |bs| ==> ChildOk(env, bs, i, now)
  }

  /** The tree holds exactly the first `n + 1` headers of the chain. */
  ghost predicate Holds(env: Env, c: Chain, bs: seq<Block>, n: nat) {
    n < |bs| && Linked(env, c) && Indexed(c) && Lists(env, c.blocks, bs, n)
  }

  ghost predicate Lists(env: Env, blocks: map<Bytes, ChainBlock>, bs: seq<Block>, n: nat)
    requires n < |bs|
  {
    && (forall j :: 0 <= j <= n ==> HashAt(env, bs, j) in blocks && blocks[HashAt(env, bs, j)].block.header == bs[j].header)
    && (forall k :: k in blocks ==> exists j :: 0 <= j <= n && k == HashAt(env, bs, j))
  }

  lemma HeldHeader(env: Env, c: Chain, bs: seq<Block>, n: nat, j: nat)
    requires Holds(env, c, bs, n) && j <= n
    ensures Linked(env, c) && HashAt(env, bs, j) in c.blocks && c.blocks[HashAt(env, bs, j)].block.header == bs[j].header
  {
  }

  lemma HeadersSnoc(bs: seq<Block>, j: nat)
    requires j < |bs|
    ensures Headers(bs[..j + 1]) == Headers(bs[..j]) + [bs[j].header]
  {
  }

  lemma ChildFacts(env: Env, bs: seq<Block>, now: int, j: nat)
    requires LinearChain(env, bs, now) && 1 <= j < |bs|
    ensures ChildOk(env, bs, j, now) && bs[j].header.prevHash == HashAt(env, bs, j - 1)
    ensures bs[j].header.height == bs[j - 1].header.height + 1
  {
    hide StateOnPath, NoCollisions, MedianTimePast, NextDifficulty;
    assert ChildOk(env, bs, j, now);
  }

  lemma ChildExtends(env: Env, bs: seq<Block>, now: int, j: nat)
    requires 1 <= j < |bs| && ChildOk(env, bs, j, now)
    ensures Extends(Headers(bs[..j]), bs[j].header) && StateOnPath(env, bs[..j + 1]).Some?
  {
    hide StateOnPath, MedianTimePast, NextDifficulty, CheckHeader;
  }

  lemma {:induction false} LinearIsValid(env: Env, bs: seq<Block>, now: int, n: nat)
    requires LinearChain(env, bs, now) && 1 <= n <= |bs|
    ensures ValidBranch(Headers(bs[..n])) && StateOnPath(env, bs[..n]).Some?
  {
    if n == 1 {
      hide ChildOk, NoCollisions, MedianTimePast;
      assert Headers(bs[..1]) == [GENESIS_HEADER];
      assert LedgerBlocks(bs[..1]) == [];
    } else {
      hide ChildOk, NoCollisions, StateOnPath, ValidBranch, Extends, LinearChain;
      LinearIsValid(env, bs, now, n - 1);
      ChildFacts(env, bs, now, n - 1);
      ChildExtends(env, bs, now, n - 1);
      HeadersSnoc(bs, n - 1);
      ValidSnoc(Headers(bs[..n - 1]), bs[n - 1].header);
    }
  }

  lemma {:induction false} LinearHeights(env: Env, bs: seq<Block>, now: int, j: nat)
    requires LinearChain(env, bs, now) && j < |bs|
    ensures bs[j].header.height == j
  {
    hide ChildOk, NoCollisions;
    if j > 0 {
      LinearHeights(env, bs, now, j - 1);
      ChildFacts(env, bs, now, j);
    }
  }

  lemma {:induction false} HeldBranch(env: Env, c: Chain, bs: seq<Block>, now: int, n: nat, j: nat)
    requires LinearChain(env, bs, now) && Holds(env, c, bs, n) && j <= n < |bs|
    ensures Linked(env, c) && HashAt(env, bs, j) in c.blocks
    ensures Branch(env, c, HashAt(env, bs, j)) == Headers(bs[..j + 1]) && HeightOf(c, HashAt(env, bs, j)) == j
  {
    hide LinearChain, Holds;
    HeldHeader(env, c, bs, n, j);
    LinearHeights(env, bs, now, j);
    HeadersSnoc(bs, j);
    hide Linked;
    var k := HashAt(env, bs, j);
    if j == 0 {
      assert Branch(env, c, k) == [bs[0].header];
      hide Branch;
    } else {
      hide Branch;
      BranchSnoc(env, c, k);
      ChildFacts(env, bs, now, j);
      HeldBranch(env, c, bs, now, n, j - 1);
    }
  }

  lemma DistinctFromGenesis(env: Env, bs: seq<Block>, now: int, j: nat)
    requires LinearChain(env, bs, now) && 1 <= j < |bs|
    ensures HashAt(env, bs, j) != env.hash(GENESIS_HEADER)
  {
    hide CheckHeader, StateOnPath;
    assert HashAt(env, bs, 0) == env.hash(GENESIS_HEADER);
  }

  lemma FreshHash(env: Env, c: Chain, bs: seq<Block>, now: int, n: nat)
    requires LinearChain(env, bs, now) && Holds(env, c, bs, n) && n + 1 < |bs|
    ensures HashAt(env, bs, n + 1) !in c.blocks
  {
    hide CheckHeader, StateOnPath, Linked, Indexed;
  }

  /** A new entry for the next header, whatever its body and state, extends what the tree holds. */
  lemma HoldsNext(env: Env, c: Chain, bs: seq<Block>, n: nat, e: ChainBlock)
    requires Holds(env, c, bs, n) && n + 1 < |bs|
    requires e.block.header == bs[n + 1].header && Insertable(env, c, e)
    ensures Holds(env, Store(c, e), bs, n + 1)
  {
    hide Linked, Indexed, Lists, BlockWork, InheritAnchor;
    assert e.hash == HashAt(env, bs, n + 1) && e.hash !in c.blocks;
    hide Insertable;
    InsertLinked(env, c, e);
    InsertIndexed(env, c, e);
    ListsNext(env, c.blocks, bs, n, e);
  }

  lemma ListsNext(env: Env, blocks: map<Bytes, ChainBlock>, bs: seq<Block>, n: nat, e: ChainBlock)
    requires n + 1 < |bs| && Lists(env, blocks, bs, n)
    requires e.block.header == bs[n + 1].header && e.hash == HashAt(env, bs, n + 1) && e.hash !in blocks
    ensures Lists(env, blocks[e.hash := e], bs, n + 1)
  {
    var blocks' := blocks[e.hash := e];
    forall k | k in blocks'
      ensures exists j :: 0 <= j <= n + 1 && k == HashAt(env, bs, j)
    {
      if k == e.hash {
        assert k == HashAt(env, bs, n + 1);
      } else {
        var j :| 0 <= j <= n && k == HashAt(env, bs, j);
      }
    }
    forall j | 0 <= j <= n + 1
      ensures HashAt(env, bs, j) in blocks' && blocks'[HashAt(env, bs, j)].block.header == bs[j].header
    {
      if j <= n {
        assert HashAt(env, bs, j) in blocks;
      }
    }
  }

  /** What any way of adding the next block starts from. */
  lemma NextIsInsertable(env: Env, c: Chain, bs: seq<Block>, now: int, n: nat, block: Block, state: Option<State>, hasBody: bool)
    requires LinearChain(env, bs, now) && Holds(env, c, bs, n) && n + 1 < |bs| && block.header == bs[n + 1].header
    ensures c.tip in c.blocks && block.header.prevHash == HashAt(env, bs, n) && HashAt(env, bs, n) in c.blocks
    ensures env.hash(block.header) == HashAt(env, bs, n + 1) && HashAt(env, bs, n + 1) !in c.blocks
    ensures HeightOf(c, HashAt(env, bs, n)) == n && block.header.height == n + 1
    ensures Linked(env, c) && Branch(env, c, HashAt(env, bs, n)) == Headers(bs[..n + 1])
    ensures SeedError(env, c, block.header) == None
    ensures Insertable(env, c, Entry(env, c, block, state, hasBody))
  {
    hide LinearChain, Lists, ChildOk, Branch, BlockWork, InheritAnchor, Indexed;
    FreshHash(env, c, bs, now, n);
    HeldBranch(env, c, bs, now, n, n);
    ChildFacts(env, bs, now, n + 1);
    LinearHeights(env, bs, now, n + 1);
  }

  /** Pruning does not disturb which headers are held. */
  lemma HoldsPruned(env: Env, c: Chain, bs: seq<Block>, n: nat, boundary: int)
    requires Holds(env, c, bs, n)
    ensures Holds(env, PruneTo(c, boundary), bs, n)
  {
    hide Linked, Indexed, PruneTo, Lists;
    PruneExact(c, boundary);
    PruneLinked(env, c, boundary);
    var c' := PruneTo(c, boundary);
    assert forall k :: k in c.blocks ==> c'.blocks[k].block == c.blocks[k].block;
    hide Pruned;
    ListsLikewise(env, c.blocks, c'.blocks, bs, n);
  }

  lemma ListsLikewise(env: Env, blocks: map<Bytes, ChainBlock>, blocks': map<Bytes, ChainBlock>, bs: seq<Block>, n: nat)
    requires n < |bs| && Lists(env, blocks, bs, n) && blocks'.Keys == blocks.Keys
    requires forall k :: k in blocks ==> blocks'[k].block == blocks[k].block
    ensures Lists(env, blocks', bs, n)
  {
  }

  lemma HoldsRetipped(env: Env, c: Chain, bs: seq<Block>, n: nat, t: Bytes)
    requires Holds(env, c, bs, n) && t in c.blocks
    ensures Holds(env, c.(tip := t), bs, n)
  {
    IndexedIgnoresTip(c, t);
    SameLinks(env, c, c.(tip := t));
    hide Linked, Indexed;
  }

  /** The tree holds the chain up to `n`, with its tip there and the replayed state in memory. */
  ghost predicate AtTip(env: Env, c: Chain, bs: seq<Block>, n: nat) {
    && Holds(env, c, bs, n)
    && c.tip == HashAt(env, bs, n) && c.tip in c.blocks
    && c.blocks[c.tip].state.Some? && c.blocks[c.tip].state == StateOnPath(env, bs[..n + 1])
  }

  /** The body checks pass, and the resulting state is the next one of a full replay. */
  lemma TailBody(env: Env, c: Chain, bs: seq<Block>, n: nat)
    requires n + 1 < |bs| && bs[n + 1].header.prevHash in c.blocks && bs[n + 1].header.height == n + 1
    requires env.txRoot(bs[n + 1].transactions) == bs[n + 1].header.txRoot
    requires StateOnPath(env, bs[..n + 1]).Some? && StateOnPath(env, bs[..n + 2]).Some?
    requires c.blocks[bs[n + 1].header.prevHash].state == StateOnPath(env, bs[..n + 1])
    requires MedianTimePast(RecentHeaders(c, MTP_WINDOW, bs[n + 1].header.prevHash)) == MedianTimePast(Headers(bs[..n + 1]))
    ensures CheckBody(env, c, bs[n + 1], STORED) == Good(StateOnPath(env, bs[..n + 2]).value)
  {
    hide ApplyBlock, MedianTimePast, RecentHeaders;
    StateOnSnoc(env, bs[..n + 1], bs[n + 1]);
    hide StateOnPath;
    assert bs[..n + 2] == bs[..n + 1] + [bs[n + 1]];
  }

  lemma ChildParts(env: Env, bs: seq<Block>, now: int, j: nat)
    requires LinearChain(env, bs, now) && 1 <= j < |bs|
    ensures CheckHeader(Headers(bs[..j]), bs[j].header, now) == HeaderOk
    ensures env.size(bs[j]) <= MAX_BLOCK_BYTES && env.txRoot(bs[j].transactions) == bs[j].header.txRoot
    ensures StateOnPath(env, bs[..j + 1]).Some?
  {
    hide CheckHeader, StateOnPath, NoCollisions;
    assert ChildOk(env, bs, j, now);
  }

  /** Every check passes, and the resulting state is the next one of a full replay. */
  lemma TailCheck(env: Env, c: Chain, bs: seq<Block>, now: int, n: nat)
    requires LinearChain(env, bs, now) && AtTip(env, c, bs, n) && n + 1 < |bs|
    ensures StateOnPath(env, bs[..n + 2]).Some?
    ensures CheckBlock(env, c, bs[n + 1], STORED, now) == Good(StateOnPath(env, bs[..n + 2]).value)
  {
    hide LinearChain, Holds, StateOnPath, MedianTimePast, CheckHeader, CheckAgainstTree, RecentHeaders, Branch, Insertable, CheckBody;
    var b := bs[n + 1];
    NextIsInsertable(env, c, bs, now, n, b, None, true);
    ChildParts(env, bs, now, n + 1);
    hide Linked;
    TreeCheckIsBranchCheck(env, c, b.header, now);
    RecentIsLast(env, c, MTP_WINDOW, b.header.prevHash);
    MtpWindow(Headers(bs[..n + 1]), MTP_WINDOW);
    TailBody(env, c, bs, n);
  }

  lemma TailStep(env: Env, c: Chain, bs: seq<Block>, now: int, n: nat)
    requires LinearChain(env, bs, now) && AtTip(env, c, bs, n) && n + 1 < |bs|
    ensures CheckBlock(env, c, bs[n + 1], STORED, now).Good?
    ensures AtTip(env, AddBlock(env, c, bs[n + 1], STORED, now), bs, n + 1)
  {
    TailCheck(env, c, bs, now, n);
    var state := StateOnPath(env, bs[..n + 2]).value;
    NextIsInsertable(env, c, bs, now, n, bs[n + 1], Some(state), true);
    NextAddsWork(env, bs, now, n + 1);
    hide CheckBlock, StateOnPath, LinearChain;
    TailAccept(env, c, bs, n, state);
  }

  lemma NextAddsWork(env: Env, bs: seq<Block>, now: int, n: nat)
    requires LinearChain(env, bs, now) && n < |bs|
    ensures BlockWork(bs[n].header.difficulty) > 0
  {
    LinearIsValid(env, bs, now, n + 1);
    DifficultyScheduled(Headers(bs[..n + 1]), n);
    hide LinearChain, ValidBranch, BlockWork, StateOnPath;
  }

  lemma TailAccept(env: Env, c: Chain, bs: seq<Block>, n: nat, state: State)
    requires Holds(env, c, bs, n) && n + 1 < |bs| && c.tip == HashAt(env, bs, n) && c.tip in c.blocks
    requires bs[n + 1].header.prevHash == c.tip && bs[n + 1].header.height == n + 1 && BlockWork(bs[n + 1].header.difficulty) > 0
    requires Insertable(env, c, Entry(env, c, bs[n + 1], Some(state), true))
    ensures var c' := Accept(env, c, bs[n + 1], state);
      Holds(env, c', bs, n + 1) && c'.tip == HashAt(env, bs, n + 1) && c'.tip in c'.blocks && c'.blocks[c'.tip].state == Some(state)
  {
    hide Entry, BlockWork, Linked, Indexed, Insertable, Holds, Headers, PruneTo;
    var e := Entry(env, c, bs[n + 1], Some(state), true);
    EntryFields(env, c, bs[n + 1], state);
    EntryWork(env, c, bs[n + 1], Some(state), true);
    HoldsNext(env, c, bs, n, e);
    FreshFromInsertable(env, c, e);
    TailRetip(env, Store(c, e), bs, n + 1, e, n + 1 - env.depth);
  }

  lemma EntryWork(env: Env, c: Chain, block: Block, state: Option<State>, hasBody: bool)
    requires block.header.prevHash in c.blocks
    ensures Entry(env, c, block, state, hasBody).work == c.blocks[block.header.prevHash].work + BlockWork(block.header.difficulty)
  {
    hide BlockWork;
  }

  lemma FreshFromInsertable(env: Env, c: Chain, e: ChainBlock)
    requires Insertable(env, c, e)
    ensures e.hash !in c.blocks
  {
  }

  lemma TailRetip(env: Env, c: Chain, bs: seq<Block>, n: nat, e: ChainBlock, boundary: int)
    requires Holds(env, c, bs, n) && e.hash == HashAt(env, bs, n) && e.hash in c.blocks && c.blocks[e.hash] == e
    requires e.block.header.height >= boundary
    ensures var c' := PruneTo(c.(tip := e.hash), boundary);
      Holds(env, c', bs, n) && c'.tip == e.hash && e.hash in c'.blocks && c'.blocks[e.hash] == e
  {
    HoldsRetipped(env, c, bs, n, e.hash);
    var c2 := c.(tip := e.hash);
    hide Linked;
    HoldsPruned(env, c2, bs, n, boundary);
    assert Indexed(c2);
    PruneExact(c2, boundary);
    hide Holds, PruneTo, Indexed;
  }

  // ---- Full replay ----

  /** The row a linear chain stores for block `i`. */
  function RowOf(env: Env, bs: seq<Block>, i: nat): Row
    requires i < |bs|
  {
    Row(i, HashAt(env, bs, i), BlockWire.EncodeBlock(bs[i]))
  }

  /** Rows `i..j` of a linear chain, ascending. */
  function RowsOf(env: Env, bs: seq<Block>, i: nat, j: nat): (rows: seq<Row>)
    requires i <= j <= |bs|
    ensures |rows| == j - i
  {
    seq(j - i, n requires 0 <= n < j - i => RowOf(env, bs, i + n))
  }

  lemma RowsUncons(env: Env, bs: seq<Block>, i: nat, j: nat)
    requires i < j <= |bs|
    ensures RowsOf(env, bs, i, j)[0] == RowOf(env, bs, i) && RowsOf(env, bs, i, j)[1..] == RowsOf(env, bs, i + 1, j)
  {
    hide RowOf;
  }

  ghost predicate Storable(bs: seq<Block>) {
    forall i {:trigger bs[i]} :: 0 <= i < |bs| ==> BlockWire.NormalBlock(bs[i])
  }

  lemma RowDecodes(env: Env, bs: seq<Block>, i: nat)
    requires i < |bs| && Storable(bs)
    ensures BlockWire.DecodeBlock(RowOf(env, bs, i).encoded) == Some(bs[i])
  {
    BlockWire.DecodeOfEncodeBlock(bs[i]);
  }

  lemma InitAtTip(env: Env, bs: seq<Block>, now: int)
    requires LinearChain(env, bs, now)
    ensures AtTip(env, Init(env), bs, 0)
  {
    var c := Init(env);
    InitInv(env);
    assert LedgerBlocks(bs[..1]) == [];
    assert HashAt(env, bs, 0) == env.hash(GENESIS_HEADER);
    hide LinearChain, Linked, Indexed, BranchesValid, StatesReplayed, Heaviest, StatesAboveFloor, BlockWork;
  }

  lemma AtTipStored(env: Env, c: Chain, bs: seq<Block>, n: nat)
    requires AtTip(env, c, bs, n)
    ensures c.tip in c.blocks && n < |bs|
  {
    hide Linked, Indexed, Lists, StateOnPath;
  }

  lemma {:induction false} ReplayRows(env: Env, c: Chain, bs: seq<Block>, now: int, n: nat)
    requires LinearChain(env, bs, now) && Storable(bs) && AtTip(env, c, bs, n)
    ensures AtTip(env, FullReplay(env, c, RowsOf(env, bs, n + 1, |bs|), now), bs, |bs| - 1)
    decreases |bs| - n
  {
    hide LinearChain, Storable, BlockWire.DecodeBlock, RowOf, CheckBlock, AddBlock, Holds, StateOnPath;
    if n + 1 == |bs| {
      assert RowsOf(env, bs, n + 1, |bs|) == [];
      hide RowsOf;
    } else {
      hide RowsOf, AtTip;
      AtTipStored(env, c, bs, n);
      RowsUncons(env, bs, n + 1, |bs|);
      RowDecodes(env, bs, n + 1);
      RowHeight(env, bs, n + 1);
      TailStep(env, c, bs, now, n);
      AtTipStored(env, AddBlock(env, c, bs[n + 1], STORED, now), bs, n + 1);
      ReplayRows(env, AddBlock(env, c, bs[n + 1], STORED, now), bs, now, n + 1);
    }
  }

  lemma RowHeight(env: Env, bs: seq<Block>, i: nat)
    requires i < |bs|
    ensures RowOf(env, bs, i).height == i && RowOf(env, bs, i).hash == HashAt(env, bs, i)
  {
  }

  // ---- Snapshot restore ----

  /** Seeding the next header, with or without a body or a state, keeps what is held. */
  lemma SeedStep(env: Env, c: Chain, bs: seq<Block>, now: int, n: nat, state: Option<State>)
    requires LinearChain(env, bs, now) && Holds(env, c, bs, n) && n + 1 < |bs|
    ensures c.tip in c.blocks && SeedError(env, c, bs[n + 1].header) == None
    ensures var c1 := SeedHistorical(env, c, bs[n + 1], state);
      Holds(env, c1, bs, n + 1) && (state.Some? ==> Anchored(env, c1, bs, n + 1, state))
    ensures var c2 := SeedBodyless(env, c, bs[n + 1].header, state);
      Holds(env, c2, bs, n + 1) && (state.Some? ==> Anchored(env, c2, bs, n + 1, state))
  {
    hide LinearChain, Holds, Linked, Indexed, Insertable, Branch, Headers, Entry, BlockWork;
    var b := bs[n + 1];
    NextIsInsertable(env, c, bs, now, n, b, state, true);
    NextIsInsertable(env, c, bs, now, n, Block(b.header, []), state, false);
    EntryBlock(env, c, b, state, true);
    EntryBlock(env, c, Block(b.header, []), state, false);
    var e1, e2 := Entry(env, c, b, state, true), Entry(env, c, Block(b.header, []), state, false);
    HoldsNext(env, c, bs, n, e1);
    HoldsNext(env, c, bs, n, e2);
    HoldsRetipped(env, Store(c, e1), bs, n + 1, e1.hash);
    HoldsRetipped(env, Store(c, e2), bs, n + 1, e2.hash);
    HoldsIgnoresBodyless(env, Store(c, e2), SeedBodyless(env, c, b.header, state), bs, n + 1);
  }

  lemma EntryBlock(env: Env, c: Chain, block: Block, state: Option<State>, hasBody: bool)
    requires block.header.prevHash in c.blocks
    ensures var e := Entry(env, c, block, state, hasBody);
      e.block == block && e.state == state && e.hash == env.hash(block.header)
  {
  }

  /** The entry at `n` carries the given state and is the tip. */
  ghost predicate Anchored(env: Env, c: Chain, bs: seq<Block>, n: nat, state: Option<State>)
    requires n < |bs|
  {
    c.tip == HashAt(env, bs, n) && c.tip in c.blocks && c.blocks[c.tip].state == state
  }

  lemma HoldsIgnoresBodyless(env: Env, c: Chain, c': Chain, bs: seq<Block>, n: nat)
    requires Holds(env, c, bs, n)
    requires c'.blocks == c.blocks && c'.byHeight == c.byHeight && c'.pruneFloor == c.pruneFloor && c'.tip in c.blocks
    ensures Holds(env, c', bs, n)
  {
    SameLinks(env, c, c');
    hide Linked;
  }

  /** A state is the one after block `k`, and the block commits to it. */
  ghost predicate IsStateAfter(env: Env, state: State, bs: seq<Block>, k: nat) {
    && 1 <= k < |bs|
    && StateOnPath(env, bs[..k + 1]) == Some(state)
    && env.stateRoot(state) == bs[k].header.stateRoot
  }

  /** The state after block `k`, persisted with the block's height and hash. */
  ghost predicate IsSnapshotOf(env: Env, snap: Snapshot, bs: seq<Block>, k: nat) {
    IsStateAfter(env, snap.state, bs, k) && snap.height == k && snap.hash == HashAt(env, bs, k)
  }

  /** Where a restore stands after row `n`: headers held below the anchor, the replayed tip from it on. */
  ghost predicate Progress(env: Env, c: Chain, bs: seq<Block>, n: nat, k: nat) {
    Holds(env, c, bs, n) && (n >= k ==> AtTip(env, c, bs, n))
  }

  lemma StepOnDecoded(env: Env, c: Chain, row: Row, block: Block, snap: Snapshot, now: int)
    requires c.tip in c.blocks && BlockWire.DecodeBlock(row.encoded) == Some(block)
    ensures row.height < snap.height ==> SnapshotStep(env, c, row, snap, now) == SeedOrFail(env, c, block, None)
    ensures row.height == snap.height && env.hash(block.header) == snap.hash && env.stateRoot(snap.state) == block.header.stateRoot ==>
      SnapshotStep(env, c, row, snap, now) == SeedOrFail(env, c, block, Some(snap.state))
    ensures row.height > snap.height ==> SnapshotStep(env, c, row, snap, now) == TailOrFail(env, c, block, now)
    ensures IsAnchorRow(env, row, snap) == (row.height == snap.height && env.hash(block.header) == snap.hash)
  {
    hide BlockWire.DecodeBlock, SeedOrFail, TailOrFail;
  }

  lemma SeedProgress(env: Env, c: Chain, bs: seq<Block>, now: int, n: nat, state: Option<State>)
    requires LinearChain(env, bs, now) && Holds(env, c, bs, n) && n + 1 < |bs|
    requires state.Some? ==> StateOnPath(env, bs[..n + 2]) == state
    ensures c.tip in c.blocks
    ensures var r := SeedOrFail(env, c, bs[n + 1], state);
      r.Restored? && Holds(env, r.chain, bs, n + 1) && (state.Some? ==> AtTip(env, r.chain, bs, n + 1))
  {
    hide LinearChain, Holds, StateOnPath, SeedHistorical, SeedError;
    SeedStep(env, c, bs, now, n, state);
  }

  lemma TailProgress(env: Env, c: Chain, bs: seq<Block>, now: int, n: nat)
    requires LinearChain(env, bs, now) && AtTip(env, c, bs, n) && n + 1 < |bs|
    ensures var r := TailOrFail(env, c, bs[n + 1], now);
      r.Restored? && AtTip(env, r.chain, bs, n + 1) && Holds(env, r.chain, bs, n + 1)
  {
    hide LinearChain, Holds, StateOnPath, AddBlock, CheckBlock;
    TailStep(env, c, bs, now, n);
  }

  lemma SnapshotRow(env: Env, c: Chain, bs: seq<Block>, now: int, snap: Snapshot, k: nat, n: nat)
    requires LinearChain(env, bs, now) && Storable(bs) && IsSnapshotOf(env, snap, bs, k)
    requires Progress(env, c, bs, n, k) && n + 1 < |bs|
    ensures c.tip in c.blocks
    ensures var r := SnapshotStep(env, c, RowOf(env, bs, n + 1), snap, now);
      r.Restored? && Progress(env, r.chain, bs, n + 1, k)
    ensures IsAnchorRow(env, RowOf(env, bs, n + 1), snap) == (n + 1 == k)
  {
    hide BlockWire.DecodeBlock, RowOf, Holds, AtTip, StateOnPath, SnapshotStep, SeedOrFail, TailOrFail, IsAnchorRow, LinearChain, Storable;
    RowDecodes(env, bs, n + 1);
    RowHeight(env, bs, n + 1);
    SeedProgress(env, c, bs, now, n, if n + 1 == k then Some(snap.state) else None);
    StepOnDecoded(env, c, RowOf(env, bs, n + 1), bs[n + 1], snap, now);
    if n >= k {
      TailProgress(env, c, bs, now, n);
    }
  }

  lemma ReplayUncons(env: Env, c: Chain, rows: seq<Row>, snap: Snapshot, seeded: bool, now: int)
    requires c.tip in c.blocks && rows != [] && rows[0].height > 0
    requires SnapshotStep(env, c, rows[0], snap, now).Restored?
    ensures var c' := SnapshotStep(env, c, rows[0], snap, now).chain;
      && c'.tip in c'.blocks
      && ReplayWithSnapshot(env, c, rows, snap, seeded, now)
      == ReplayWithSnapshot(env, c', rows[1..], snap, seeded || IsAnchorRow(env, rows[0], snap), now)
  {
    SnapshotStepKeepsTip(env, c, rows[0], snap, now);
    hide SnapshotStep, IsAnchorRow;
  }

  lemma {:induction false} SnapshotRows(env: Env, c: Chain, bs: seq<Block>, now: int, snap: Snapshot, k: nat, n: nat)
    requires LinearChain(env, bs, now) && Storable(bs) && IsSnapshotOf(env, snap, bs, k)
    requires Progress(env, c, bs, n, k) && c.tip in c.blocks && n < |bs|
    ensures var r := ReplayWithSnapshot(env, c, RowsOf(env, bs, n + 1, |bs|), snap, n >= k, now);
      r.Restored? && AtTip(env, r.chain, bs, |bs| - 1)
    decreases |bs| - n
  {
    hide LinearChain, Storable, RowOf, SnapshotStep, IsAnchorRow, Holds, AtTip, RowsOf, ReplayWithSnapshot, Progress, IsSnapshotOf;
    if n + 1 == |bs| {
      SnapshotDone(env, c, bs, now, snap, k, n);
    } else {
      RowsUncons(env, bs, n + 1, |bs|);
      RowHeight(env, bs, n + 1);
      SnapshotRow(env, c, bs, now, snap, k, n);
      ReplayUncons(env, c, RowsOf(env, bs, n + 1, |bs|), snap, n >= k, now);
      var c1 := SnapshotStep(env, c, RowOf(env, bs, n + 1), snap, now).chain;
      SnapshotRows(env, c1, bs, now, snap, k, n + 1);
    }
  }

  lemma SnapshotDone(env: Env, c: Chain, bs: seq<Block>, now: int, snap: Snapshot, k: nat, n: nat)
    requires IsSnapshotOf(env, snap, bs, k) && Progress(env, c, bs, n, k) && c.tip in c.blocks && n + 1 == |bs|
    ensures var r := ReplayWithSnapshot(env, c, RowsOf(env, bs, n + 1, |bs|), snap, n >= k, now);
      r.Restored? && AtTip(env, r.chain, bs, n)
  {
    hide Holds, StateOnPath, SnapshotStep;
    assert RowsOf(env, bs, n + 1, |bs|) == [];
  }

  // ---- Agreement ----

  /** Cumulative work of a linear chain. */
  function WorkTo(bs: seq<Block>, n: nat): nat
    requires n < |bs|
  {
    if n == 0 then BlockWork(GENESIS_DIFFICULTY_COMPACT) else WorkTo(bs, n - 1) + BlockWork(bs[n].header.difficulty)
  }

  lemma EntryWorkIs(env: Env, c: Chain, k: Bytes)
    requires Linked(env, c) && k in c.blocks
    ensures k == env.hash(GENESIS_HEADER) ==> c.blocks[k].work == BlockWork(GENESIS_DIFFICULTY_COMPACT)
    ensures k != env.hash(GENESIS_HEADER) ==>
      ParentOf(c, k) in c.blocks && c.blocks[k].work == c.blocks[ParentOf(c, k)].work + BlockWork(c.blocks[k].block.header.difficulty)
  {
    hide BlockWork, InheritAnchor;
    assert EntryOk(env, c, k);
  }

  lemma {:induction false} HeldWork(env: Env, c: Chain, bs: seq<Block>, now: int, n: nat, j: nat)
    requires LinearChain(env, bs, now) && Holds(env, c, bs, n) && j <= n < |bs|
    ensures HashAt(env, bs, j) in c.blocks && c.blocks[HashAt(env, bs, j)].work == WorkTo(bs, j)
  {
    hide LinearChain, Holds, BlockWork, Linked;
    HeldHeader(env, c, bs, n, j);
    if j == 0 {
      StartsWithGenesis(env, bs, now);
    } else {
      ChildFacts(env, bs, now, j);
      DistinctFromGenesis(env, bs, now, j);
      HeldWork(env, c, bs, now, n, j - 1);
    }
    EntryWorkIs(env, c, HashAt(env, bs, j));
  }

  lemma StartsWithGenesis(env: Env, bs: seq<Block>, now: int)
    requires LinearChain(env, bs, now)
    ensures HashAt(env, bs, 0) == env.hash(GENESIS_HEADER)
  {
    hide ChildOk, NoCollisions;
  }

  /** What the rest of the node reads off a chain: tip hash, cumulative work, tip state, fork-#3 anchor. */
  ghost predicate SameTip(a: Chain, b: Chain) {
    && a.tip == b.tip && a.tip in a.blocks && b.tip in b.blocks
    && var x, y := a.blocks[a.tip], b.blocks[b.tip];
    && x.block.header == y.block.header && x.work == y.work && x.state == y.state && x.anchor == y.anchor
  }

  /** A restore succeeded, ended on the expected tip, and left the same tip a full replay does, with its state. */
  ghost predicate Agrees(full: Chain, r: Restored, tip: Bytes) {
    full.tip == tip && r.Restored? && SameTip(full, r.chain) && r.chain.blocks[r.chain.tip].state.Some?
  }

  lemma AtTipAgrees(env: Env, a: Chain, b: Chain, bs: seq<Block>, now: int, n: nat)
    requires LinearChain(env, bs, now) && AtTip(env, a, bs, n) && AtTip(env, b, bs, n)
    ensures Agrees(a, Restored(b), HashAt(env, bs, n))
  {
    hide LinearChain, StateOnPath;
    HeldHeader(env, a, bs, n, n);
    HeldHeader(env, b, bs, n, n);
    HeldWork(env, a, bs, now, n, n);
    HeldWork(env, b, bs, now, n, n);
    HeldBranch(env, a, bs, now, n, n);
    HeldBranch(env, b, bs, now, n, n);
    AnchorIsWalkedBack(env, a, a.tip);
    AnchorIsWalkedBack(env, b, b.tip);
    hide Holds, Linked, Branch;
  }

  lemma FullReplayEnds(env: Env, bs: seq<Block>, now: int)
    requires LinearChain(env, bs, now) && Storable(bs)
    ensures AtTip(env, FullReplay(env, Init(env), RowsOf(env, bs, 1, |bs|), now), bs, |bs| - 1)
  {
    hide LinearChain, Storable, Init, RowOf, AtTip, RowsOf, FullReplay;
    InitAtTip(env, bs, now);
    ReplayRows(env, Init(env), bs, now, 0);
  }

  lemma SnapshotEnds(env: Env, bs: seq<Block>, now: int, snap: Snapshot, k: nat)
    requires LinearChain(env, bs, now) && Storable(bs) && IsSnapshotOf(env, snap, bs, k)
    ensures var r := ReplayWithSnapshot(env, Init(env), RowsOf(env, bs, 1, |bs|), snap, false, now);
      r.Restored? && AtTip(env, r.chain, bs, |bs| - 1)
  {
    hide LinearChain, Storable, RowOf, Holds, RowsOf, AtTip, Init;
    InitProgress(env, bs, now, k);
    SnapshotRows(env, Init(env), bs, now, snap, k, 0);
  }

  lemma InitProgress(env: Env, bs: seq<Block>, now: int, k: nat)
    requires LinearChain(env, bs, now) && k >= 1
    ensures Progress(env, Init(env), bs, 0, k) && Init(env).tip in Init(env).blocks
  {
    InitAtTip(env, bs, now);
    hide LinearChain, Holds;
  }

  /** Seeding a prefix without state, the anchor with its state, and replaying the tail: same tip as a full replay. */
  lemma SnapshotRestoreAgrees(env: Env, bs: seq<Block>, now: int, snap: Snapshot, k: nat)
    requires LinearChain(env, bs, now) && Storable(bs) && IsSnapshotOf(env, snap, bs, k)
    ensures var rows := RowsOf(env, bs, 1, |bs|);
      var full := FullReplay(env, Init(env), rows, now);
      var r := ReplayWithSnapshot(env, Init(env), rows, snap, false, now);
      Agrees(full, r, HashAt(env, bs, |bs| - 1))
  {
    hide LinearChain, Storable, IsSnapshotOf, FullReplay, ReplayWithSnapshot, RowsOf, AtTip, Init, SameTip, Agrees;
    FullReplayEnds(env, bs, now);
    SnapshotEnds(env, bs, now, snap, k);
    var rows := RowsOf(env, bs, 1, |bs|);
    var full, r := FullReplay(env, Init(env), rows, now), ReplayWithSnapshot(env, Init(env), rows, snap, false, now);
    AtTipAgrees(env, full, r.chain, bs, now, |bs| - 1);
  }
}
