/** Stored rows with forks: when the canonical branch is strictly heaviest, every way of restoring them agrees. */
module ForkAgreement {
  import opened Genesis
  import opened Transactions
  import opened Ledger
  import opened Consensus
  import opened HeaderChain
  import opened BlockTree
  import opened TreeLaws
  import opened TreeRuns
  import opened SeedLaws
  import opened Restore
  import opened ForkRestore
  import BlockWire

  // ---- Rows that hold a canonical chain and any forks ----

  /** A row that decodes sits at its block's height, and a row under a canonical hash holds that block. */
  ghost predicate Honest(env: Env, bs: seq<Block>, row: Row) {
    var b := BlockWire.DecodeBlock(row.encoded);
    row.height > 0 && b.Some? ==>
      && b.value.header.height == row.height
      && forall i :: 0 <= i < |bs| && env.hash(b.value.header) == HashAt(env, bs, i) ==> b.value == bs[i]
  }

  ghost predicate AllHonest(env: Env, bs: seq<Block>, rows: seq<Row>) {
    forall i :: 0 <= i < |rows| ==> Honest(env, bs, rows[i])
  }

  ghost predicate ByHeight(rows: seq<Row>) {
    forall i, j :: 0 <= i < j < |rows| ==> rows[i].height <= rows[j].height
  }

  ghost predicate HoldsBlock(rows: seq<Row>, b: Block) {
    exists r :: 0 <= r < |rows| && rows[r].height > 0 && BlockWire.DecodeBlock(rows[r].encoded) == Some(b)
  }

  /** Every other block, stored or genesis, has strictly less work than the last canonical one. */
  ghost predicate StrictlyHeaviest(env: Env, rows: seq<Row>, w: Bytes -> nat, top: Bytes) {
    && (env.hash(GENESIS_HEADER) != top ==> w(env.hash(GENESIS_HEADER)) < w(top))
    && forall i :: 0 <= i < |rows| && rows[i].height > 0 && KeyOf(env, rows[i]) != top ==> w(KeyOf(env, rows[i])) < w(top)
  }

  // ---- Canonical blocks in a tree ----

  /** What the tree stores under canonical hashes is the canonical chain. */
  ghost predicate Fits(env: Env, c: Chain, bs: seq<Block>) {
    forall i :: 0 <= i < |bs| && HashAt(env, bs, i) in c.blocks ==> c.blocks[HashAt(env, bs, i)].block == bs[i]
  }

  lemma ParentInTree(env: Env, c: Chain, bs: seq<Block>, now: int, i: nat)
    requires LinearChain(env, bs, now) && Linked(env, c) && Fits(env, c, bs) && 1 <= i < |bs| && HashAt(env, bs, i) in c.blocks
    ensures HashAt(env, bs, i - 1) in c.blocks && ParentOf(c, HashAt(env, bs, i)) == HashAt(env, bs, i - 1)
    ensures HeightOf(c, HashAt(env, bs, i)) > 0
  {
    ChildFacts(env, bs, now, i);
    DistinctFromGenesis(env, bs, now, i);
    LinearHeights(env, bs, now, i);
    hide LinearChain, ChildOk;
    assert EntryOk(env, c, HashAt(env, bs, i));
  }

  /** The path to a stored canonical block is the canonical chain up to it. */
  lemma {:induction false} CanonicalPath(env: Env, c: Chain, bs: seq<Block>, now: int, i: nat)
    requires LinearChain(env, bs, now) && Linked(env, c) && Fits(env, c, bs) && i < |bs| && HashAt(env, bs, i) in c.blocks
    ensures Path(env, c, HashAt(env, bs, i)) == bs[..i + 1] && Branch(env, c, HashAt(env, bs, i)) == Headers(bs[..i + 1])
  {
    hide LinearChain, Linked, Path, Headers;
    LinearHeights(env, bs, now, i);
    var k := HashAt(env, bs, i);
    assert c.blocks[k].block == bs[i];
    if i == 0 {
      assert |Path(env, c, k)| == 1;
      assert Path(env, c, k) == [bs[0]] == bs[..1];
    } else {
      ParentInTree(env, c, bs, now, i);
      CanonicalPath(env, c, bs, now, i - 1);
      BranchSnoc(env, c, k);
      assert bs[..i + 1] == bs[..i] + [bs[i]];
    }
  }

  lemma StoredFits(env: Env, c: Chain, c1: Chain, bs: seq<Block>, row: Row, block: Block)
    requires Fits(env, c, bs) && Honest(env, bs, row) && row.height > 0 && BlockWire.DecodeBlock(row.encoded) == Some(block)
    requires c1.blocks.Keys == c.blocks.Keys + {KeyOf(env, row)}
    requires forall k :: k in c.blocks ==> c1.blocks[k].block == c.blocks[k].block
    requires KeyOf(env, row) in c.blocks || c1.blocks[KeyOf(env, row)].block == block
    ensures Fits(env, c1, bs)
  {
    hide BlockWire.DecodeBlock;
  }

  // ---- Full replay ----

  /** Everything stays at or below a height, and the prune floor strictly below it. */
  ghost predicate Below(env: Env, c: Chain, h: nat) {
    && (forall k :: k in c.blocks ==> HeightOf(c, k) <= h)
    && (c.pruneFloor == 0 || c.pruneFloor <= h - env.depth)
  }

  lemma StoredBelow(env: Env, c: Chain, e: ChainBlock, h: nat)
    requires Below(env, c, h) && e.hash !in c.blocks && e.block.header.height <= h
    ensures var c1 := Store(c, e);
      && c1.blocks == c.blocks[e.hash := e] && c1.tip == c.tip && Below(env, c1, h)
      && forall j :: j in c.blocks ==> c1.blocks[j].block == c.blocks[j].block
  {
  }

  lemma PrunedBelow(env: Env, c: Chain, boundary: int, h: nat)
    requires Indexed(c) && Below(env, c, h) && boundary <= h - env.depth
    ensures var c1 := PruneTo(c, boundary);
      && c1.blocks.Keys == c.blocks.Keys && Below(env, c1, h)
      && forall j :: j in c.blocks ==> c1.blocks[j].block == c.blocks[j].block
  {
    PruneExact(c, boundary);
    hide Indexed, PruneTo;
  }

  lemma AcceptedTree(env: Env, c: Chain, block: Block, state: State, h: nat)
    requires Indexed(c) && block.header.prevHash in c.blocks && c.tip in c.blocks
    requires env.hash(block.header) !in c.blocks && Below(env, c, h) && block.header.height <= h
    ensures var c1, k := Accept(env, c, block, state), env.hash(block.header);
      && c1.blocks.Keys == c.blocks.Keys + {k} && c1.blocks[k].block == block
      && (forall j :: j in c.blocks ==> c1.blocks[j].block == c.blocks[j].block)
      && Below(env, c1, h)
  {
    hide Entry, PruneTo, Indexed, Below, Store;
    EntryFields(env, c, block, state);
    var e := Entry(env, c, block, Some(state), true);
    InsertIndexed(env, c, e);
    StoredBelow(env, c, e, h);
    var c1 := Store(c, e);
    if e.work > c1.blocks[c.tip].work {
      IndexedIgnoresTip(c1, e.hash);
      RetippedBelow(env, c1, e.hash, h);
      PrunedBelow(env, c1.(tip := e.hash), e.block.header.height - env.depth, h);
    }
  }

  lemma RetippedBelow(env: Env, c: Chain, t: Bytes, h: nat)
    requires Below(env, c, h)
    ensures Below(env, c.(tip := t), h)
  {
    assert forall k :: k in c.blocks ==> HeightOf(c.(tip := t), k) == HeightOf(c, k);
  }

  lemma GoodIsFresh(env: Env, c: Chain, block: Block, now: int)
    requires CheckBlock(env, c, block, STORED, now).Good?
    ensures block.header.prevHash in c.blocks && env.hash(block.header) !in c.blocks
  {
  }

  /** One call of the full replay. */
  lemma AddedTree(env: Env, c: Chain, bs: seq<Block>, row: Row, block: Block, now: int, h: nat)
    requires Inv(env, c) && Fits(env, c, bs) && Below(env, c, h) && Honest(env, bs, row) && c.tip in c.blocks
    requires row.height > 0 && BlockWire.DecodeBlock(row.encoded) == Some(block) && block.header.height <= h
    ensures var c1 := AddBlock(env, c, block, STORED, now);
      && Inv(env, c1) && Fits(env, c1, bs) && Below(env, c1, h)
      && c.blocks.Keys <= c1.blocks.Keys <= c.blocks.Keys + {KeyOf(env, row)}
      && (CheckBlock(env, c, block, STORED, now).Good? ==> KeyOf(env, row) in c1.blocks)
  {
    AddInv(env, c, block, now);
    assert Linked(env, c) && Indexed(c);
    hide Inv, CheckBlock, Accept, Below, BlockWire.DecodeBlock, Linked, Indexed, Insertable, Fits, Honest;
    var r := CheckBlock(env, c, block, STORED, now);
    if r.Good? {
      GoodIsFresh(env, c, block, now);
      AcceptedTree(env, c, block, r.state, h);
      StoredFits(env, c, Accept(env, c, block, r.state), bs, row, block);
    }
  }

  /** Its header passes against the tree, and the windows there are those of the canonical branch. */
  lemma CanonicalHeader(env: Env, c: Chain, bs: seq<Block>, now: int, i: nat)
    requires LinearChain(env, bs, now) && Linked(env, c) && Fits(env, c, bs) && 1 <= i < |bs| && HashAt(env, bs, i - 1) in c.blocks
    ensures bs[i].header.prevHash == HashAt(env, bs, i - 1) && bs[i].header.height == i == HeightOf(c, HashAt(env, bs, i - 1)) + 1
    ensures CheckAgainstTree(c, bs[i].header, now) == HeaderOk
    ensures MedianTimePast(RecentHeaders(c, MTP_WINDOW, bs[i].header.prevHash)) == MedianTimePast(Headers(bs[..i]))
  {
    hide LinearChain, Linked, MedianTimePast, CheckHeader, CheckAgainstTree, RecentHeaders, Branch, Path, ChildOk, StateOnPath;
    var p, b := HashAt(env, bs, i - 1), bs[i];
    assert c.blocks[p].block == bs[i - 1];
    CanonicalPath(env, c, bs, now, i - 1);
    hide Fits;
    ChildFacts(env, bs, now, i);
    ChildParts(env, bs, now, i);
    LinearHeights(env, bs, now, i);
    TreeCheckIsBranchCheck(env, c, b.header, now);
    RecentIsLast(env, c, MTP_WINDOW, b.header.prevHash);
    MtpWindow(Headers(bs[..i]), MTP_WINDOW);
  }

  lemma CanonicalBody(env: Env, c: Chain, bs: seq<Block>, i: nat)
    requires 1 <= i < |bs| && bs[i].header.prevHash in c.blocks && bs[i].header.height == i
    requires env.txRoot(bs[i].transactions) == bs[i].header.txRoot
    requires StateOnPath(env, bs[..i]).Some? && StateOnPath(env, bs[..i + 1]).Some?
    requires c.blocks[bs[i].header.prevHash].state == StateOnPath(env, bs[..i])
    requires MedianTimePast(RecentHeaders(c, MTP_WINDOW, bs[i].header.prevHash)) == MedianTimePast(Headers(bs[..i]))
    ensures CheckBody(env, c, bs[i], STORED) == Good(StateOnPath(env, bs[..i + 1]).value)
  {
    hide StateOnPath, MedianTimePast, RecentHeaders, CheckBody, Headers;
    TailBody(env, c, bs, i - 1);
  }

  lemma InvLinked(env: Env, c: Chain)
    requires Inv(env, c)
    ensures Linked(env, c) && Indexed(c)
  {
    hide Linked, Indexed, BranchesValid, StatesReplayed, Heaviest, StatesAboveFloor;
  }

  /** The next canonical block passes every check on a tree that has its parent and the parent's state. */
  lemma CanonicalPasses(env: Env, c: Chain, bs: seq<Block>, now: int, i: nat)
    requires LinearChain(env, bs, now) && Inv(env, c) && Fits(env, c, bs) && 1 <= i < |bs|
    requires HashAt(env, bs, i - 1) in c.blocks && HashAt(env, bs, i) !in c.blocks && i - 1 >= c.pruneFloor
    ensures CheckBlock(env, c, bs[i], STORED, now).Good?
  {
    hide Inv, LinearChain, Linked, StateOnPath, MedianTimePast, CheckHeader, CheckAgainstTree, RecentHeaders, CheckBody,
      CheckBlock, Fits, ValidBranch, Headers;
    ParentState(env, c, bs, now, i - 1);
    InvLinked(env, c);
    CanonicalHeader(env, c, bs, now, i);
    ChildParts(env, bs, now, i);
    LinearIsValid(env, bs, now, i);
    CanonicalBody(env, c, bs, i);
    PassesAll(env, c, bs[i], now, StateOnPath(env, bs[..i + 1]).value);
  }

  lemma PassesAll(env: Env, c: Chain, b: Block, now: int, s: State)
    requires env.hash(b.header) !in c.blocks && b.header.prevHash in c.blocks
    requires b.header.height == HeightOf(c, b.header.prevHash) + 1 && env.size(b) <= MAX_BLOCK_BYTES
    requires CheckAgainstTree(c, b.header, now) == HeaderOk && CheckBody(env, c, b, STORED) == Good(s)
    ensures CheckBlock(env, c, b, STORED, now).Good?
  {
    hide CheckAgainstTree, CheckBody;
  }

  lemma ParentState(env: Env, c: Chain, bs: seq<Block>, now: int, i: nat)
    requires LinearChain(env, bs, now) && Inv(env, c) && Fits(env, c, bs) && i < |bs|
    requires HashAt(env, bs, i) in c.blocks && i >= c.pruneFloor
    ensures c.blocks[HashAt(env, bs, i)].state == StateOnPath(env, bs[..i + 1]) && c.blocks[HashAt(env, bs, i)].block == bs[i]
    ensures HeightOf(c, HashAt(env, bs, i)) == i
  {
    CanonicalPath(env, c, bs, now, i);
    LinearHeights(env, bs, now, i);
    hide LinearChain, Linked, Indexed, BranchesValid, Heaviest, StateOnPath, Path;
    assert c.blocks[HashAt(env, bs, i)].state.Some?;
  }

  /** Every canonical block is in the tree or still to come. */
  ghost predicate Pending(env: Env, c: Chain, bs: seq<Block>, rows: seq<Row>) {
    forall i :: 0 <= i < |bs| ==> HashAt(env, bs, i) in c.blocks || HoldsBlock(rows, bs[i])
  }

  ghost predicate NotBelow(rows: seq<Row>, h: nat) {
    forall i :: 0 <= i < |rows| && rows[i].height > 0 ==> rows[i].height >= h
  }

  /** What the full replay keeps from row to row; `h` is the greatest height so far. */
  ghost predicate FullInv(env: Env, c: Chain, bs: seq<Block>, h: nat, w: Bytes -> nat) {
    Inv(env, c) && Fits(env, c, bs) && Below(env, c, h) && Weighed(env, c, w) && c.tip in c.blocks
  }

  ghost predicate RowsOk(env: Env, bs: seq<Block>, rows: seq<Row>, w: Bytes -> nat) {
    AllHonest(env, bs, rows) && ByHeight(rows) && Keyed(env, rows) && Weighs(env, rows, w)
  }

  lemma RestOk(env: Env, bs: seq<Block>, rows: seq<Row>, w: Bytes -> nat)
    requires RowsOk(env, bs, rows, w) && rows != []
    ensures RowsOk(env, bs, rows[1..], w) && Honest(env, bs, rows[0]) && WeighsRow(env, rows[0], w)
    ensures NotBelow(rows[1..], rows[0].height) && Keyed(env, rows)
  {
    RestRows(env, rows, w);
    hide Honest, Keyed, Weighs, WeighsRow;
  }

  lemma BelowMore(env: Env, c: Chain, h: nat, h': nat)
    requires Below(env, c, h) && h <= h'
    ensures Below(env, c, h')
  {
  }

  lemma AddWeighed(env: Env, c: Chain, w: Bytes -> nat, row: Row, block: Block, now: int)
    requires Weighed(env, c, w) && c.tip in c.blocks && WeighsRow(env, row, w) && BlockWire.DecodeBlock(row.encoded) == Some(block)
    ensures Weighed(env, AddBlock(env, c, block, STORED, now), w)
  {
    WeighedLinked(env, c, w);
    hide Weighed, WeighsRow, BlockWire.DecodeBlock, CheckBlock, Accept, Linked, Insertable;
    var r := CheckBlock(env, c, block, STORED, now);
    if r.Good? {
      GoodPrevStored(env, c, block, STORED, now);
      GoodIsInsertable(env, c, block, STORED, now);
      AcceptHead(env, c, w, row, block, r.state);
    }
  }

  lemma WeighedLinked(env: Env, c: Chain, w: Bytes -> nat)
    requires Weighed(env, c, w)
    ensures Linked(env, c) && Indexed(c)
  {
    hide Linked, Indexed;
  }

  /** When its row comes up, a canonical block's parent is already in the tree. */
  lemma ParentFirst(env: Env, c: Chain, bs: seq<Block>, rows: seq<Row>, now: int, i: nat)
    requires LinearChain(env, bs, now) && Pending(env, c, bs, rows) && AllHonest(env, bs, rows) && ByHeight(rows)
    requires 1 <= i < |bs| && rows != [] && rows[0].height == i
    ensures HashAt(env, bs, i - 1) in c.blocks
  {
    LinearHeights(env, bs, now, i - 1);
    hide LinearChain, BlockWire.DecodeBlock;
    forall r | 0 <= r < |rows| && rows[r].height > 0
      ensures BlockWire.DecodeBlock(rows[r].encoded) != Some(bs[i - 1])
    {
      assert Honest(env, bs, rows[r]);
    }
  }

  lemma CanonicalIndex(env: Env, bs: seq<Block>, now: int, row: Row, i: nat)
    requires LinearChain(env, bs, now) && Honest(env, bs, row) && row.height > 0 && i < |bs|
    requires BlockWire.DecodeBlock(row.encoded) == Some(bs[i])
    ensures row.height == i && KeyOf(env, row) == HashAt(env, bs, i)
  {
    LinearHeights(env, bs, now, i);
    hide LinearChain, BlockWire.DecodeBlock;
  }

  /** One decodable row of the full replay. */
  lemma FullStep(env: Env, c: Chain, bs: seq<Block>, rows: seq<Row>, now: int, h: nat, w: Bytes -> nat, block: Block)
    requires LinearChain(env, bs, now) && env.depth >= 1 && FullInv(env, c, bs, h, w) && RowsOk(env, bs, rows, w)
    requires rows != [] && rows[0].height > 0 && BlockWire.DecodeBlock(rows[0].encoded) == Some(block)
    requires NotBelow(rows, h) && Pending(env, c, bs, rows) && KeyOf(env, rows[0]) !in c.blocks
    ensures var c1 := AddBlock(env, c, block, STORED, now);
      && FullInv(env, c1, bs, rows[0].height, w)
      && c.blocks.Keys <= c1.blocks.Keys <= c.blocks.Keys + {KeyOf(env, rows[0])}
      && forall i :: 0 <= i < |bs| && block == bs[i] ==> HashAt(env, bs, i) in c1.blocks
  {
    RestOk(env, bs, rows, w);
    RowHeightIs(env, bs, rows[0], block);
    assert rows[0].height >= h;
    BelowMore(env, c, h, rows[0].height);
    FloorBelow(env, c, h, rows[0].height);
    hide BlockWire.DecodeBlock, AddBlock, CheckBlock, LinearChain, Inv, Fits, Below, Weighed, Weighs, WeighsRow, Honest, Keyed, Pending, KeyOf;
    AddedTree(env, c, bs, rows[0], block, now, rows[0].height);
    AddWeighed(env, c, w, rows[0], block, now);
    AddKeepsTip(env, c, block, STORED, now);
    forall i | 0 <= i < |bs| && block == bs[i]
      ensures HashAt(env, bs, i) in AddBlock(env, c, block, STORED, now).blocks
    {
      CanonicalIndex(env, bs, now, rows[0], i);
      ParentFirst(env, c, bs, rows, now, i);
      CanonicalPasses(env, c, bs, now, i);
    }
  }

  lemma RowHeightIs(env: Env, bs: seq<Block>, row: Row, block: Block)
    requires Honest(env, bs, row) && row.height > 0 && BlockWire.DecodeBlock(row.encoded) == Some(block)
    ensures block.header.height == row.height
  {
    hide BlockWire.DecodeBlock;
  }

  lemma FloorBelow(env: Env, c: Chain, h: nat, h': nat)
    requires Below(env, c, h) && env.depth >= 1 && 1 <= h' && h <= h'
    ensures c.pruneFloor <= h' - 1
  {
  }

  lemma PendingRest(env: Env, c: Chain, c1: Chain, bs: seq<Block>, rows: seq<Row>)
    requires Pending(env, c, bs, rows) && rows != [] && c.blocks.Keys <= c1.blocks.Keys
    requires rows[0].height > 0 && BlockWire.DecodeBlock(rows[0].encoded).Some? ==>
      forall i :: 0 <= i < |bs| && BlockWire.DecodeBlock(rows[0].encoded).value == bs[i] ==> HashAt(env, bs, i) in c1.blocks
    ensures Pending(env, c1, bs, rows[1..])
  {
    hide BlockWire.DecodeBlock;
    forall i | 0 <= i < |bs|
      ensures HashAt(env, bs, i) in c1.blocks || HoldsBlock(rows[1..], bs[i])
    {
      if HashAt(env, bs, i) !in c.blocks {
        var r :| 0 <= r < |rows| && rows[r].height > 0 && BlockWire.DecodeBlock(rows[r].encoded) == Some(bs[i]);
        assert r > 0 ==> rows[1..][r - 1] == rows[r];
      }
    }
  }

  lemma UnseenRest(env: Env, c: Chain, c1: Chain, rows: seq<Row>)
    requires rows != [] && Keyed(env, rows) && Unseen(env, c, rows)
    requires c1.blocks.Keys <= c.blocks.Keys + (if rows[0].height > 0 then {KeyOf(env, rows[0])} else {})
    ensures Unseen(env, c1, rows[1..])
  {
    hide KeyOf;
    var rest := rows[1..];
    forall i | 0 <= i < |rest| && rest[i].height > 0
      ensures KeyOf(env, rest[i]) !in c1.blocks
    {
      assert rest[i] == rows[i + 1];
      assert KeyOf(env, rows[i + 1]) !in c.blocks;
    }
  }

  /** The blocks a replay may add. */
  ghost predicate OnlyFrom(env: Env, c: Chain, c': Chain, rows: seq<Row>) {
    forall k :: k in c'.blocks ==> k in c.blocks || exists i :: 0 <= i < |rows| && rows[i].height > 0 && KeyOf(env, rows[i]) == k
  }

  lemma OnlyFromRest(env: Env, c: Chain, c1: Chain, c': Chain, rows: seq<Row>)
    requires rows != [] && OnlyFrom(env, c1, c', rows[1..])
    requires c1.blocks.Keys <= c.blocks.Keys + (if rows[0].height > 0 then {KeyOf(env, rows[0])} else {})
    ensures OnlyFrom(env, c, c', rows)
  {
    hide KeyOf;
    forall k | k in c'.blocks && k !in c.blocks
      ensures exists i :: 0 <= i < |rows| && rows[i].height > 0 && KeyOf(env, rows[i]) == k
    {
      if k in c1.blocks {
        assert KeyOf(env, rows[0]) == k;
      } else {
        var i :| 0 <= i < |rows[1..]| && rows[1..][i].height > 0 && KeyOf(env, rows[1..][i]) == k;
        assert rows[i + 1] == rows[1..][i];
      }
    }
  }

  /** A full replay of rows by height collects the whole canonical chain, whatever forks are stored with it. */
  lemma {:induction false} FullCollects(env: Env, c: Chain, bs: seq<Block>, rows: seq<Row>, now: int, h: nat, w: Bytes -> nat) returns (h': nat)
    requires LinearChain(env, bs, now) && env.depth >= 1 && FullInv(env, c, bs, h, w) && RowsOk(env, bs, rows, w)
    requires NotBelow(rows, h) && Pending(env, c, bs, rows) && Unseen(env, c, rows) && c.tip in c.blocks
    ensures var c' := FullReplay(env, c, rows, now);
      && FullInv(env, c', bs, h', w) && Pending(env, c', bs, []) && OnlyFrom(env, c, c', rows) && c.blocks.Keys <= c'.blocks.Keys
    decreases |rows|, 1
  {
    if rows == [] {
      h' := h;
    } else {
      RestOk(env, bs, rows, w);
      hide BlockWire.DecodeBlock, AddBlock, LinearChain, FullInv, RowsOk, NotBelow, Pending, Unseen, KeyOf, OnlyFrom;
      var decoded := BlockWire.DecodeBlock(rows[0].encoded);
      var c1: Chain;
      if rows[0].height == 0 || decoded.None? {
        c1 := c;
        LaterRows(rows, h);
        h' := FullNext(env, c, c1, bs, rows, now, h, w);
      } else {
        FirstUnseen(env, c, rows);
        FullStep(env, c, bs, rows, now, h, w, decoded.value);
        AddKeepsTip(env, c, decoded.value, STORED, now);
        c1 := AddBlock(env, c, decoded.value, STORED, now);
        h' := FullNext(env, c, c1, bs, rows, now, rows[0].height, w);
      }
    }
  }

  lemma LaterRows(rows: seq<Row>, h: nat)
    requires NotBelow(rows, h) && rows != []
    ensures NotBelow(rows[1..], h)
  {
  }

  lemma FullNext(env: Env, c: Chain, c1: Chain, bs: seq<Block>, rows: seq<Row>, now: int, h: nat, w: Bytes -> nat) returns (h': nat)
    requires rows != [] && LinearChain(env, bs, now) && env.depth >= 1 && FullInv(env, c1, bs, h, w) && RowsOk(env, bs, rows, w)
    requires NotBelow(rows[1..], h) && Pending(env, c, bs, rows) && Unseen(env, c, rows) && c1.tip in c1.blocks
    requires c.blocks.Keys <= c1.blocks.Keys <= c.blocks.Keys + (if rows[0].height > 0 then {KeyOf(env, rows[0])} else {})
    requires rows[0].height > 0 && BlockWire.DecodeBlock(rows[0].encoded).Some? ==>
      forall i :: 0 <= i < |bs| && BlockWire.DecodeBlock(rows[0].encoded).value == bs[i] ==> HashAt(env, bs, i) in c1.blocks
    ensures var c' := FullReplay(env, c1, rows[1..], now);
      && FullInv(env, c', bs, h', w) && Pending(env, c', bs, []) && OnlyFrom(env, c, c', rows) && c.blocks.Keys <= c'.blocks.Keys
    decreases |rows|, 0
  {
    hide BlockWire.DecodeBlock, LinearChain, FullInv, RowsOk, NotBelow, Pending, Unseen, KeyOf, OnlyFrom, Keyed, FullReplay;
    RestOk(env, bs, rows, w);
    PendingRest(env, c, c1, bs, rows);
    UnseenRest(env, c, c1, rows);
    h' := FullCollects(env, c1, bs, rows[1..], now, h, w);
    OnlyFromRest(env, c, c1, FullReplay(env, c1, rows[1..], now), rows);
  }

  // ---- Where the full replay ends ----

  lemma HeaviestIsTop(env: Env, c: Chain, bs: seq<Block>, rows: seq<Row>, h: nat, w: Bytes -> nat, top: Bytes)
    requires FullInv(env, c, bs, h, w) && OnlyFrom(env, Init(env), c, rows) && StrictlyHeaviest(env, rows, w, top) && top in c.blocks
    ensures c.tip == top
  {
    assert Heaviest(c);
    assert Init(env).blocks.Keys == {env.hash(GENESIS_HEADER)};
    hide Inv, Fits, Below, Linked, Indexed, KeyOf, Init;
  }

  /** The full replay ends on the last canonical block, with its replayed state. */
  lemma FullEnds(env: Env, bs: seq<Block>, rows: seq<Row>, now: int, w: Bytes -> nat)
    requires LinearChain(env, bs, now) && env.depth >= 1 && RowsOk(env, bs, rows, w)
    requires forall i :: 1 <= i < |bs| ==> HoldsBlock(rows, bs[i])
    requires StrictlyHeaviest(env, rows, w, HashAt(env, bs, |bs| - 1))
    ensures EndsOn(env, FullReplay(env, Init(env), rows, now), bs, w)
  {
    hide LinearChain, RowsOk, HoldsBlock, FullInv, StrictlyHeaviest, OnlyFrom, Init, EndsOn, HashAt;
    StartsNonEmpty(env, bs, now);
    FullStarts(env, bs, rows, now, w);
    var h := FullCollects(env, Init(env), bs, rows, now, 0, w);
    TopCollected(env, FullReplay(env, Init(env), rows, now), bs, now);
    hide FullReplay, Pending;
    HeaviestIsTop(env, FullReplay(env, Init(env), rows, now), bs, rows, h, w, HashAt(env, bs, |bs| - 1));
    FullEndsOn(env, FullReplay(env, Init(env), rows, now), bs, now, h, w);
  }

  lemma TopCollected(env: Env, c: Chain, bs: seq<Block>, now: int)
    requires LinearChain(env, bs, now) && Pending(env, c, bs, [])
    ensures HashAt(env, bs, |bs| - 1) in c.blocks
  {
    hide ChildOk, NoCollisions, BlockWire.DecodeBlock;
    assert HashAt(env, bs, |bs| - 1) in c.blocks || HoldsBlock([], bs[|bs| - 1]);
  }

  /** The tip is the last canonical block, with its work, its state and its branch. */
  ghost predicate EndsOn(env: Env, c: Chain, bs: seq<Block>, w: Bytes -> nat) {
    && bs != [] && Weighed(env, c, w) && Fits(env, c, bs)
    && c.tip == HashAt(env, bs, |bs| - 1) && c.tip in c.blocks
    && c.blocks[c.tip].state.Some? && c.blocks[c.tip].state == StateOnPath(env, bs)
  }

  lemma FullEndsOn(env: Env, c: Chain, bs: seq<Block>, now: int, h: nat, w: Bytes -> nat)
    requires LinearChain(env, bs, now) && FullInv(env, c, bs, h, w) && c.tip == HashAt(env, bs, |bs| - 1)
    ensures EndsOn(env, c, bs, w)
  {
    FloorAtTip(env, c);
    StartsNonEmpty(env, bs, now);
    assert Inv(env, c) && Fits(env, c, bs);
    hide LinearChain, Inv, Weighed, Below, StateOnPath, Fits;
    TipHeight(env, c, bs, now);
    ParentState(env, c, bs, now, |bs| - 1);
    assert bs[..|bs| - 1 + 1] == bs;
  }

  lemma StartsNonEmpty(env: Env, bs: seq<Block>, now: int)
    requires LinearChain(env, bs, now)
    ensures bs != [] && bs[0] == GENESIS
  {
    hide ChildOk, NoCollisions;
  }

  lemma FloorAtTip(env: Env, c: Chain)
    requires Inv(env, c)
    ensures c.tip in c.blocks && c.pruneFloor <= HeightOf(c, c.tip) && c.blocks[c.tip].state.Some?
  {
    hide Kept, Heaviest;
  }

  lemma TipHeight(env: Env, c: Chain, bs: seq<Block>, now: int)
    requires LinearChain(env, bs, now) && Fits(env, c, bs) && bs != [] && c.tip == HashAt(env, bs, |bs| - 1) && c.tip in c.blocks
    ensures HeightOf(c, c.tip) == |bs| - 1
  {
    LinearHeights(env, bs, now, |bs| - 1);
    hide LinearChain;
  }

  lemma FullStarts(env: Env, bs: seq<Block>, rows: seq<Row>, now: int, w: Bytes -> nat)
    requires LinearChain(env, bs, now) && RowsOk(env, bs, rows, w)
    requires forall i :: 1 <= i < |bs| ==> HoldsBlock(rows, bs[i])
    ensures FullInv(env, Init(env), bs, 0, w) && NotBelow(rows, 0) && Pending(env, Init(env), bs, rows) && Unseen(env, Init(env), rows)
  {
    InitInv(env);
    InitWeighed(env, rows, w);
    StartsNonEmpty(env, bs, now);
    InitFits(env, bs, now);
    assert HashAt(env, bs, 0) in Init(env).blocks;
    hide LinearChain, Inv, Weighed, Weighs, Keyed, AllHonest, HoldsBlock, KeyOf, Fits;
  }

  lemma InitFits(env: Env, bs: seq<Block>, now: int)
    requires LinearChain(env, bs, now)
    ensures Fits(env, Init(env), bs)
  {
    hide ChildOk, BlockWork;
    forall i | 0 <= i < |bs| && HashAt(env, bs, i) in Init(env).blocks
      ensures i == 0
    {
      assert HashAt(env, bs, i) == HashAt(env, bs, 0);
    }
  }

  // ---- Snapshot restore ----

  /** From the anchor's height on, a canonical block with a state has the replayed one. */
  ghost predicate TrueStates(env: Env, c: Chain, bs: seq<Block>, k: nat) {
    forall i :: k <= i < |bs| && HashAt(env, bs, i) in c.blocks && c.blocks[HashAt(env, bs, i)].state.Some? ==>
      c.blocks[HashAt(env, bs, i)].state == StateOnPath(env, bs[..i + 1])
  }

  /** One entry is added; other blocks stay, and their states stay or are pruned. */
  ghost predicate Grows(c: Chain, c1: Chain, k: Bytes, block: Block, state: Option<State>) {
    && k !in c.blocks && c1.blocks.Keys == c.blocks.Keys + {k} && c1.blocks[k].block == block
    && c1.pruneFloor >= c.pruneFloor
    && (c1.blocks[k].state == state || (c1.blocks[k].state.None? && block.header.height < c1.pruneFloor))
    && forall j :: j in c.blocks ==>
         && c1.blocks[j].block == c.blocks[j].block
         && (c1.blocks[j].state == c.blocks[j].state || (c1.blocks[j].state.None? && HeightOf(c, j) < c1.pruneFloor))
  }

  lemma StoredGrows(c: Chain, e: ChainBlock)
    requires e.hash !in c.blocks
    ensures Grows(c, Store(c, e), e.hash, e.block, e.state)
  {
    var c1 := Store(c, e);
    assert c1.blocks == c.blocks[e.hash := e] && c1.pruneFloor == c.pruneFloor;
    hide Store;
  }

  lemma PrunedGrows(c: Chain, c1: Chain, c2: Chain, boundary: int, k: Bytes, block: Block, state: Option<State>)
    requires Grows(c, c1, k, block, state) && Pruned(c1, c2, boundary)
    ensures Grows(c, c2, k, block, state)
  {
  }

  lemma AcceptGrows(env: Env, c: Chain, block: Block, state: State)
    requires Indexed(c) && block.header.prevHash in c.blocks && c.tip in c.blocks && env.hash(block.header) !in c.blocks
    ensures Grows(c, Accept(env, c, block, state), env.hash(block.header), block, Some(state))
  {
    hide Entry, PruneTo, Indexed, Grows, Pruned;
    EntryFields(env, c, block, state);
    var e := Entry(env, c, block, Some(state), true);
    InsertIndexed(env, c, e);
    StoredGrows(c, e);
    var c1 := Store(c, e);
    if e.work > c1.blocks[c.tip].work {
      IndexedIgnoresTip(c1, e.hash);
      PruneExact(c1.(tip := e.hash), e.block.header.height - env.depth);
      GrowsIgnoresTip(c, c1, e.hash, e.hash, e.block, e.state);
      PrunedGrows(c, c1.(tip := e.hash), Accept(env, c, block, state), e.block.header.height - env.depth, e.hash, e.block, e.state);
    }
  }

  lemma GrowsIgnoresTip(c: Chain, c1: Chain, t: Bytes, k: Bytes, block: Block, state: Option<State>)
    requires Grows(c, c1, k, block, state)
    ensures Grows(c, c1.(tip := t), k, block, state)
  {
  }

  lemma SeedGrows(env: Env, c: Chain, block: Block, state: Option<State>)
    requires env.hash(block.header) !in c.blocks && SeedError(env, c, block.header).None? && c.tip in c.blocks
    ensures Grows(c, SeedHistorical(env, c, block, state), env.hash(block.header), block, state)
    ensures SeedHistorical(env, c, block, state).pruneFloor == c.pruneFloor
  {
    hide BlockWork, InheritAnchor;
  }

  lemma GrowsKeepTrue(env: Env, c: Chain, c1: Chain, bs: seq<Block>, k: nat, row: Row, block: Block, state: Option<State>)
    requires TrueStates(env, c, bs, k) && Fits(env, c, bs) && Honest(env, bs, row) && row.height > 0
    requires BlockWire.DecodeBlock(row.encoded) == Some(block) && Grows(c, c1, KeyOf(env, row), block, state)
    requires forall i :: k <= i < |bs| && KeyOf(env, row) == HashAt(env, bs, i) && state.Some? ==> state == StateOnPath(env, bs[..i + 1])
    ensures TrueStates(env, c1, bs, k) && Fits(env, c1, bs)
  {
    StoredFits(env, c, c1, bs, row, block);
    hide BlockWire.DecodeBlock, StateOnPath, KeyOf, Honest, Fits;
  }

  /** An accepted canonical block above the anchor carries the replayed state. */
  lemma TailStateTrue(env: Env, c: Chain, bs: seq<Block>, now: int, k: nat, i: nat)
    requires LinearChain(env, bs, now) && Linked(env, c) && Fits(env, c, bs) && TrueStates(env, c, bs, k)
    requires k < i < |bs| && CheckBlock(env, c, bs[i], STORED, now).Good?
    ensures StateOnPath(env, bs[..i + 1]) == Some(CheckBlock(env, c, bs[i], STORED, now).state)
  {
    hide LinearChain, Linked, Fits, CheckBlock, StateOnPath, ApplyBlock, MedianTimePast, Path, Insertable, Extends, ChildOk;
    GoodPrevStored(env, c, bs[i], STORED, now);
    GoodIsInsertable(env, c, bs[i], STORED, now);
    ChildFacts(env, bs, now, i);
    LinearHeights(env, bs, now, i);
    CanonicalPath(env, c, bs, now, i - 1);
    assert c.blocks[HashAt(env, bs, i - 1)].state == StateOnPath(env, bs[..i]);
    hide Branch;
    StateOnSnoc(env, bs[..i], bs[i]);
    assert bs[..i] + [bs[i]] == bs[..i + 1];
  }

  ghost predicate SnapInv(env: Env, c: Chain, bs: seq<Block>, k: nat, w: Bytes -> nat) {
    Weighed(env, c, w) && Fits(env, c, bs) && TrueStates(env, c, bs, k) && c.tip in c.blocks
  }

  lemma TailStepTrue(env: Env, c: Chain, bs: seq<Block>, now: int, k: nat, w: Bytes -> nat, row: Row, block: Block)
    requires LinearChain(env, bs, now) && SnapInv(env, c, bs, k, w) && Honest(env, bs, row) && row.height > k
    requires BlockWire.DecodeBlock(row.encoded) == Some(block) && KeyOf(env, row) !in c.blocks
    requires TailOrFail(env, c, block, now).Restored?
    ensures var c1 := TailOrFail(env, c, block, now).chain; TrueStates(env, c1, bs, k) && Fits(env, c1, bs)
  {
    WeighedLinked(env, c, w);
    NotKnown(env, c, block, now);
    RowHeightIs(env, bs, row, block);
    KeyIs(env, row, block);
    hide BlockWire.DecodeBlock, LinearChain, Weighed, CheckBlock, Accept, Linked, Indexed, Fits, TrueStates, Honest, StateOnPath, KeyOf;
    var r := CheckBlock(env, c, block, STORED, now);
    GoodPrevStored(env, c, block, STORED, now);
    AcceptGrows(env, c, block, r.state);
    forall i | k <= i < |bs| && KeyOf(env, row) == HashAt(env, bs, i)
      ensures Some(r.state) == StateOnPath(env, bs[..i + 1])
    {
      HonestIs(env, bs, row, block, i);
      CanonicalIndex(env, bs, now, row, i);
      TailStateTrue(env, c, bs, now, k, i);
    }
    GrowsKeepTrue(env, c, Accept(env, c, block, r.state), bs, k, row, block, Some(r.state));
  }

  lemma KeyIs(env: Env, row: Row, block: Block)
    requires BlockWire.DecodeBlock(row.encoded) == Some(block)
    ensures KeyOf(env, row) == env.hash(block.header)
  {
    hide BlockWire.DecodeBlock;
  }

  lemma HonestIs(env: Env, bs: seq<Block>, row: Row, block: Block, i: nat)
    requires Honest(env, bs, row) && row.height > 0 && BlockWire.DecodeBlock(row.encoded) == Some(block)
    requires i < |bs| && KeyOf(env, row) == HashAt(env, bs, i)
    ensures block == bs[i]
  {
    hide BlockWire.DecodeBlock;
  }

  lemma SeedStepTrue(env: Env, c: Chain, bs: seq<Block>, now: int, snap: Snapshot, k: nat, w: Bytes -> nat, row: Row, block: Block)
    requires LinearChain(env, bs, now) && SnapInv(env, c, bs, k, w) && Honest(env, bs, row) && row.height > 0
    requires IsSnapshotOf(env, snap, bs, k)
    requires BlockWire.DecodeBlock(row.encoded) == Some(block) && KeyOf(env, row) !in c.blocks
    requires SeedOrFail(env, c, block, if IsAnchorRow(env, row, snap) then Some(snap.state) else None).Restored?
    ensures var c1 := SeedOrFail(env, c, block, if IsAnchorRow(env, row, snap) then Some(snap.state) else None).chain;
      TrueStates(env, c1, bs, k) && Fits(env, c1, bs)
  {
    KeyIs(env, row, block);
    var state := if IsAnchorRow(env, row, snap) then Some(snap.state) else None;
    assert state.Some? ==> KeyOf(env, row) == HashAt(env, bs, k) by { hide BlockWire.DecodeBlock; }
    hide BlockWire.DecodeBlock, Weighed, Fits, TrueStates, Honest, StateOnPath, KeyOf, SeedHistorical, SeedError, IsAnchorRow;
    SeedGrows(env, c, block, state);
    forall i | k <= i < |bs| && KeyOf(env, row) == HashAt(env, bs, i) && state.Some?
      ensures state == StateOnPath(env, bs[..i + 1])
    {
      SameHash(env, bs, now, i, k);
    }
    hide LinearChain;
    GrowsKeepTrue(env, c, SeedHistorical(env, c, block, state), bs, k, row, block, state);
  }

  lemma SameHash(env: Env, bs: seq<Block>, now: int, i: nat, j: nat)
    requires LinearChain(env, bs, now) && i < |bs| && j < |bs| && HashAt(env, bs, i) == HashAt(env, bs, j)
    ensures i == j
  {
    hide ChildOk;
    assert NoCollisions(env, bs);
  }

  lemma SnapStepTrue(env: Env, c: Chain, bs: seq<Block>, now: int, snap: Snapshot, k: nat, w: Bytes -> nat, row: Row)
    requires LinearChain(env, bs, now) && SnapInv(env, c, bs, k, w) && Honest(env, bs, row) && row.height > 0 && WeighsRow(env, row, w)
    requires IsSnapshotOf(env, snap, bs, k) && KeyOf(env, row) !in c.blocks && SnapshotStep(env, c, row, snap, now).Restored?
    ensures var c1 := SnapshotStep(env, c, row, snap, now).chain;
      SnapInv(env, c1, bs, k, w) && c1.blocks.Keys == c.blocks.Keys + {KeyOf(env, row)}
  {
    assert snap.height == k && c.tip in c.blocks && Weighed(env, c, w);
    hide LinearChain, BlockWire.DecodeBlock, Weighed, Fits, TrueStates, Honest, WeighsRow, KeyOf, SnapshotStep, TailOrFail, SeedOrFail,
      IsAnchorRow, IsSnapshotOf;
    StepHead(env, c, w, row, snap, now);
    StepKind(env, c, row, snap, now);
    var block := BlockWire.DecodeBlock(row.encoded).value;
    if row.height > snap.height {
      TailStepTrue(env, c, bs, now, k, w, row, block);
    } else {
      SeedStepTrue(env, c, bs, now, snap, k, w, row, block);
    }
  }

  lemma {:induction false} SnapTrue(env: Env, c: Chain, bs: seq<Block>, rows: seq<Row>, snap: Snapshot, seeded: bool, now: int, k: nat, w: Bytes -> nat)
    requires LinearChain(env, bs, now) && SnapInv(env, c, bs, k, w) && RowsOk(env, bs, rows, w) && Unseen(env, c, rows)
    requires IsSnapshotOf(env, snap, bs, k) && c.tip in c.blocks && ReplayWithSnapshot(env, c, rows, snap, seeded, now).Restored?
    ensures SnapInv(env, ReplayWithSnapshot(env, c, rows, snap, seeded, now).chain, bs, k, w)
    decreases |rows|
  {
    if rows != [] {
      hide LinearChain, SnapInv, RowsOk, Unseen, IsSnapshotOf, SnapshotStep, IsAnchorRow, KeyOf, Keyed, Honest, WeighsRow, NotBelow;
      RestOk(env, bs, rows, w);
      var c1 := c;
      var seeded' := seeded;
      if rows[0].height > 0 {
        FirstUnseen(env, c, rows);
        SnapStepTrue(env, c, bs, now, snap, k, w, rows[0]);
        SnapshotStepKeepsTip(env, c, rows[0], snap, now);
        c1, seeded' := SnapshotStep(env, c, rows[0], snap, now).chain, seeded || IsAnchorRow(env, rows[0], snap);
      }
      UnseenRest(env, c, c1, rows);
      SnapTrue(env, c1, bs, rows[1..], snap, seeded', now, k, w);
    }
  }

  /** The row of the last canonical block comes from the anchor's row on, and carries a state. */
  lemma AnchorBefore(env: Env, bs: seq<Block>, rows: seq<Row>, w: Bytes -> nat, snap: Snapshot, k: nat, a: nat, t: nat)
    requires RowsOk(env, bs, rows, w) && IsSnapshotOf(env, snap, bs, k) && k < |bs|
    requires a < |rows| && rows[a].height > 0 && IsAnchorRow(env, rows[a], snap)
    requires t < |rows| && rows[t].height == |bs| - 1 > 0 && KeyOf(env, rows[t]) == HashAt(env, bs, |bs| - 1)
    ensures a <= t && Stateful(env, rows[t], snap)
  {
    hide RowsOk, IsSnapshotOf, IsAnchorRow, KeyOf, Keyed, Honest, ByHeight;
    RowHonest(env, bs, rows, w, t);
    AnchorFacts(env, bs, rows[a], snap, k);
    if |bs| - 1 == k {
      SameKey(env, rows, a, t);
    } else {
      OrderedRows(rows, t, a);
    }
  }

  lemma CanonicalRow(env: Env, bs: seq<Block>, rows: seq<Row>, now: int, w: Bytes -> nat, i: nat) returns (t: nat)
    requires LinearChain(env, bs, now) && RowsOk(env, bs, rows, w) && i < |bs| && HoldsBlock(rows, bs[i])
    ensures t < |rows| && rows[t].height == i > 0 && KeyOf(env, rows[t]) == HashAt(env, bs, i)
  {
    hide LinearChain, RowsOk, BlockWire.DecodeBlock, Honest, Keyed, ByHeight, KeyOf;
    t :| 0 <= t < |rows| && rows[t].height > 0 && BlockWire.DecodeBlock(rows[t].encoded) == Some(bs[i]);
    RowHonest(env, bs, rows, w, t);
    CanonicalIndex(env, bs, now, rows[t], i);
  }

  /** The row of the last canonical block is the first of the heaviest from the anchor on. */
  lemma TopRow(env: Env, bs: seq<Block>, rows: seq<Row>, now: int, w: Bytes -> nat, snap: Snapshot, k: nat, a: nat) returns (t: nat)
    requires LinearChain(env, bs, now) && RowsOk(env, bs, rows, w) && IsSnapshotOf(env, snap, bs, k) && k < |bs|
    requires HoldsBlock(rows, bs[|bs| - 1]) && StrictlyHeaviest(env, rows, w, HashAt(env, bs, |bs| - 1))
    requires a < |rows| && rows[a].height > 0 && IsAnchorRow(env, rows[a], snap)
    ensures FirstHeaviest(env, rows, w, a, t) && KeyOf(env, rows[t]) == HashAt(env, bs, |bs| - 1) && Stateful(env, rows[t], snap)
  {
    hide LinearChain, RowsOk, IsSnapshotOf, HoldsBlock, IsAnchorRow, KeyOf, Keyed, Honest, ByHeight, Stateful, FirstHeaviest, StrictlyHeaviest;
    t := CanonicalRow(env, bs, rows, now, w, |bs| - 1);
    RowHonest(env, bs, rows, w, t);
    AnchorBefore(env, bs, rows, w, snap, k, a, t);
    DistinctFromGenesis(env, bs, now, |bs| - 1);
    AboveGenesis(env, rows, w, HashAt(env, bs, |bs| - 1));
    TopWeighs(env, rows, w, a, t);
  }

  lemma AboveGenesis(env: Env, rows: seq<Row>, w: Bytes -> nat, top: Bytes)
    requires StrictlyHeaviest(env, rows, w, top) && top != env.hash(GENESIS_HEADER)
    ensures w(env.hash(GENESIS_HEADER)) < w(top)
  {
    hide KeyOf;
  }

  lemma RowHonest(env: Env, bs: seq<Block>, rows: seq<Row>, w: Bytes -> nat, i: nat)
    requires RowsOk(env, bs, rows, w) && i < |rows|
    ensures Honest(env, bs, rows[i]) && Keyed(env, rows) && ByHeight(rows)
  {
    hide Honest, Keyed, Weighs;
  }

  lemma AnchorFacts(env: Env, bs: seq<Block>, row: Row, snap: Snapshot, k: nat)
    requires IsSnapshotOf(env, snap, bs, k) && IsAnchorRow(env, row, snap)
    ensures k < |bs| && KeyOf(env, row) == HashAt(env, bs, k) && row.height == k == snap.height
  {
    hide BlockWire.DecodeBlock, StateOnPath;
  }

  lemma SameKey(env: Env, rows: seq<Row>, i: nat, j: nat)
    requires Keyed(env, rows) && i < |rows| && j < |rows| && rows[i].height > 0 && rows[j].height > 0
    requires KeyOf(env, rows[i]) == KeyOf(env, rows[j])
    ensures i == j
  {
    hide KeyOf;
  }

  lemma OrderedRows(rows: seq<Row>, i: nat, j: nat)
    requires ByHeight(rows) && i < |rows| && j < |rows|
    ensures rows[j].height < rows[i].height ==> j < i
  {
  }

  lemma TopWeighs(env: Env, rows: seq<Row>, w: Bytes -> nat, a: nat, t: nat)
    requires Keyed(env, rows) && a <= t < |rows| && rows[t].height > 0 && StrictlyHeaviest(env, rows, w, KeyOf(env, rows[t]))
    requires w(env.hash(GENESIS_HEADER)) < w(KeyOf(env, rows[t]))
    ensures FirstHeaviest(env, rows, w, a, t)
  {
    var top := KeyOf(env, rows[t]);
    forall i | 0 <= i < |rows| && i != t
      ensures Weight(env, rows[i], w) < Weight(env, rows[t], w)
    {
      if rows[i].height > 0 {
        assert KeyOf(env, rows[i]) != top;
      }
    }
    hide KeyOf, Weight;
  }

  /** A successful snapshot restore ends there as well. */
  lemma SnapshotEndsOn(env: Env, bs: seq<Block>, rows: seq<Row>, snap: Snapshot, k: nat, now: int, w: Bytes -> nat)
    requires LinearChain(env, bs, now) && RowsOk(env, bs, rows, w) && IsSnapshotOf(env, snap, bs, k)
    requires bs != [] && HoldsBlock(rows, bs[|bs| - 1]) && StrictlyHeaviest(env, rows, w, HashAt(env, bs, |bs| - 1))
    requires ReplayWithSnapshot(env, Init(env), rows, snap, false, now).Restored?
    ensures EndsOn(env, ReplayWithSnapshot(env, Init(env), rows, snap, false, now).chain, bs, w)
  {
    hide LinearChain, RowsOk, IsSnapshotOf, HoldsBlock, StrictlyHeaviest, ReplayWithSnapshot, Init, Keyed, Weighs, KeyOf, IsAnchorRow,
      FirstHeaviest, Stateful, SnapInv, Unseen, Weighed, EndsOn;
    SnapStarts(env, bs, rows, snap, k, now, w);
    SnapTrue(env, Init(env), bs, rows, snap, false, now, k, w);
    RestoreHasAnchor(env, rows, snap, now, w);
    var a :| 0 <= a < |rows| && rows[a].height > 0 && IsAnchorRow(env, rows[a], snap);
    var t := TopRow(env, bs, rows, now, w, snap, k, a);
    var j := RestoredFrom(env, rows, snap, now, w, a);
    FirstIsUnique(env, rows, w, a, j, t);
    SnapEndsOn(env, ReplayWithSnapshot(env, Init(env), rows, snap, false, now).chain, bs, now, snap, k, w);
  }

  lemma SnapStarts(env: Env, bs: seq<Block>, rows: seq<Row>, snap: Snapshot, k: nat, now: int, w: Bytes -> nat)
    requires LinearChain(env, bs, now) && RowsOk(env, bs, rows, w) && IsSnapshotOf(env, snap, bs, k)
    ensures SnapInv(env, Init(env), bs, k, w) && Unseen(env, Init(env), rows) && Keyed(env, rows) && Weighs(env, rows, w)
    ensures k < |bs| && Init(env).tip in Init(env).blocks
  {
    hide Weighed, KeyOf, StateOnPath, Unseen;
    InitWeighed(env, rows, w);
    InitFits(env, bs, now);
    forall i | k <= i < |bs|
      ensures HashAt(env, bs, i) !in Init(env).blocks
    {
      DistinctFromGenesis(env, bs, now, i);
    }
    hide LinearChain, Keyed, Weighs, AllHonest;
  }

  lemma SnapEndsOn(env: Env, c: Chain, bs: seq<Block>, now: int, snap: Snapshot, k: nat, w: Bytes -> nat)
    requires SnapInv(env, c, bs, k, w) && IsSnapshotOf(env, snap, bs, k) && bs != []
    requires c.tip == HashAt(env, bs, |bs| - 1) && c.tip in c.blocks && c.blocks[c.tip].state.Some?
    ensures EndsOn(env, c, bs, w)
  {
    hide Weighed, Fits, StateOnPath;
    assert bs[..|bs| - 1 + 1] == bs;
  }

  // ---- Agreement ----

  lemma EndsAgree(env: Env, a: Chain, b: Chain, bs: seq<Block>, now: int, w: Bytes -> nat)
    requires LinearChain(env, bs, now) && EndsOn(env, a, bs, w) && EndsOn(env, b, bs, w)
    ensures Agrees(a, Restored(b), HashAt(env, bs, |bs| - 1))
  {
    hide LinearChain, StateOnPath;
    assert Linked(env, a) && Linked(env, b);
    CanonicalPath(env, a, bs, now, |bs| - 1);
    CanonicalPath(env, b, bs, now, |bs| - 1);
    AnchorIsWalkedBack(env, a, a.tip);
    AnchorIsWalkedBack(env, b, b.tip);
    hide Linked, Indexed, Branch, Path;
  }

  /**
   * Rows by height holding a valid chain and any forks, valid or not: if every other stored block has
   * strictly less work than the chain's last, a snapshot restore that succeeds ends on the same tip, work,
   * state and fork-#3 anchor as a full replay.
   */
  lemma ForkedRestoreAgrees(env: Env, bs: seq<Block>, rows: seq<Row>, snap: Snapshot, k: nat, now: int, w: Bytes -> nat)
    requires LinearChain(env, bs, now) && env.depth >= 1 && RowsOk(env, bs, rows, w) && IsSnapshotOf(env, snap, bs, k)
    requires forall i :: 1 <= i < |bs| ==> HoldsBlock(rows, bs[i])
    requires bs != [] && StrictlyHeaviest(env, rows, w, HashAt(env, bs, |bs| - 1))
    requires ReplayWithSnapshot(env, Init(env), rows, snap, false, now).Restored?
    ensures Agrees(FullReplay(env, Init(env), rows, now), ReplayWithSnapshot(env, Init(env), rows, snap, false, now),
                   HashAt(env, bs, |bs| - 1))
  {
    assert 1 <= k < |bs|;
    hide LinearChain, RowsOk, IsSnapshotOf, HoldsBlock, StrictlyHeaviest, ReplayWithSnapshot, FullReplay, Init, EndsOn, Agrees;
    FullEnds(env, bs, rows, now, w);
    SnapshotEndsOn(env, bs, rows, snap, k, now, w);
    EndsAgree(env, FullReplay(env, Init(env), rows, now), ReplayWithSnapshot(env, Init(env), rows, snap, false, now).chain, bs, now, w);
  }
}
