/** Which stored rows, forks included, a snapshot restore gets through: read off the rows and a full replay of them. */
module ForkSuccess {
  import opened Genesis
  import opened Transactions
  import opened Ledger
  import opened Consensus
  import opened HeaderChain
  import opened BlockTree
  import opened TreeLaws
  import opened TreeRuns
  import opened SeedLaws
  import opened Restore
  import opened ForkRestore
  import opened ForkAgreement
  import BlockWire

  // ---- The condition ----

  /** The parent is genesis or stored, one below. */
  ghost predicate Rooted(env: Env, rows: seq<Row>, header: Header) {
    || (header.prevHash == env.hash(GENESIS_HEADER) && header.height == 1)
    || exists j :: 0 <= j < |rows| && 0 < rows[j].height == header.height - 1 && KeyOf(env, rows[j]) == header.prevHash
  }

  /**
   * A row a snapshot restore gets past. Up to the anchor a parent is enough; above it the block must be one a
   * full replay accepts, and the lowest ones must be children of the anchor, the only parent with a state.
   */
  ghost predicate Restorable(env: Env, rows: seq<Row>, row: Row, snap: Snapshot, full: Chain) {
    var b := BlockWire.DecodeBlock(row.encoded);
    && b.Some?
    && if row.height <= snap.height then Rooted(env, rows, b.value.header)
       else KeyOf(env, row) in full.blocks && (row.height == snap.height + 1 ==> b.value.header.prevHash == snap.hash)
  }

  // ---- The two trees, side by side ----

  /** The tree holds genesis and the first `n` rows. */
  ghost predicate Filled(env: Env, c: Chain, rows: seq<Row>, n: nat)
    requires n <= |rows|
  {
    && (forall k :: k in c.blocks ==> k == env.hash(GENESIS_HEADER) || exists j :: 0 <= j < n && rows[j].height > 0 && KeyOf(env, rows[j]) == k)
    && (forall j :: 0 <= j < n && rows[j].height > 0 ==> KeyOf(env, rows[j]) in c.blocks && HeightOf(c, KeyOf(env, rows[j])) == rows[j].height)
  }

  ghost predicate Within(f: Chain, r: Chain) {
    forall k :: k in f.blocks ==> k in r.blocks && r.blocks[k].block == f.blocks[k].block
  }

  /** Blocks from the anchor up are in both trees. Nothing else at the anchor's height has a state in `r`. */
  ghost predicate TailIn(f: Chain, r: Chain, snap: Snapshot) {
    forall k :: k in r.blocks ==>
      && (HeightOf(r, k) > snap.height || k == snap.hash ==> k in f.blocks)
      && (HeightOf(r, k) == snap.height && k != snap.hash ==> r.blocks[k].state.None?)
  }

  /** The anchor and everything above it has the replayed state in `r`, unless it was pruned. */
  ghost predicate TailStates(env: Env, f: Chain, r: Chain, snap: Snapshot)
    requires Linked(env, f)
  {
    forall k :: k in r.blocks && k in f.blocks && (HeightOf(r, k) > snap.height || k == snap.hash) && HeightOf(r, k) >= r.pruneFloor ==>
      r.blocks[k].state == StateOnPath(env, Path(env, f, k))
  }

  /** After `n` rows: `f` by the full replay, `r` by the restore, nothing above height `h`. */
  ghost predicate Abreast(env: Env, f: Chain, r: Chain, rows: seq<Row>, n: nat, snap: Snapshot, h: nat)
    requires n <= |rows|
  {
    && Linked(env, f) && Linked(env, r) && Indexed(r) && r.tip in r.blocks && Below(env, r, h)
    && Filled(env, r, rows, n) && Within(f, r) && TailIn(f, r, snap) && TailStates(env, f, r, snap)
  }

  // ---- One row at or below the anchor ----

  /** A parent among the rows is one already in the tree. */
  lemma RootedIff(env: Env, r: Chain, rows: seq<Row>, n: nat, header: Header)
    requires n < |rows| && ByHeight(rows) && Linked(env, r) && Filled(env, r, rows, n) && 0 < header.height == rows[n].height
    ensures Rooted(env, rows, header) <==> header.prevHash in r.blocks && header.height == HeightOf(r, header.prevHash) + 1
  {
    hide KeyOf;
    var p, g := header.prevHash, env.hash(GENESIS_HEADER);
    assert EntryOk(env, r, g);
    hide Linked;
    if p in r.blocks && header.height == HeightOf(r, p) + 1 && p != g {
      var j :| 0 <= j < n && rows[j].height > 0 && KeyOf(env, rows[j]) == p;
      assert 0 < rows[j].height == header.height - 1;
    }
    if j :| 0 <= j < |rows| && 0 < rows[j].height == header.height - 1 && KeyOf(env, rows[j]) == p {
      assert j < n;
    }
  }

  lemma AnchorRowIs(env: Env, bs: seq<Block>, row: Row, block: Block, snap: Snapshot, k: nat, now: int)
    requires LinearChain(env, bs, now) && IsSnapshotOf(env, snap, bs, k) && Honest(env, bs, row) && row.height > 0
    requires BlockWire.DecodeBlock(row.encoded) == Some(block)
    ensures KeyOf(env, row) == env.hash(block.header) && block.header.height == row.height
    ensures k < |bs| && snap.hash == HashAt(env, bs, k) && snap.height == k
    ensures IsAnchorRow(env, row, snap) <==> KeyOf(env, row) == snap.hash
    ensures KeyOf(env, row) == snap.hash ==> block == bs[k] && env.stateRoot(snap.state) == block.header.stateRoot && row.height == k
  {
    LinearHeights(env, bs, now, k);
    hide LinearChain, StateOnPath, BlockWire.DecodeBlock;
  }

  lemma SeededRow(env: Env, r: Chain, row: Row, block: Block, snap: Snapshot, now: int)
    requires r.tip in r.blocks && row.height <= snap.height && BlockWire.DecodeBlock(row.encoded) == Some(block)
    requires IsAnchorRow(env, row, snap) ==> env.stateRoot(snap.state) == block.header.stateRoot
    ensures SnapshotStep(env, r, row, snap, now)
            == SeedOrFail(env, r, block, if IsAnchorRow(env, row, snap) then Some(snap.state) else None)
  {
    hide BlockWire.DecodeBlock, SeedOrFail;
  }

  // ---- One row above the anchor ----

  /** With the same branch and parent state, the same block is checked alike in both trees. */
  lemma SameCheck(env: Env, f: Chain, r: Chain, block: Block, now: int)
    requires Linked(env, f) && Linked(env, r) && Within(f, r) && block.header.prevHash in f.blocks
    requires env.hash(block.header) !in r.blocks
    requires f.blocks[block.header.prevHash].state == r.blocks[block.header.prevHash].state
    ensures CheckBlock(env, f, block, STORED, now) == CheckBlock(env, r, block, STORED, now)
  {
    hide Linked, CheckAgainstTree, RecentHeaders, MedianTimePast, Branch, ApplyBlock, CheckHeader;
    var p := block.header.prevHash;
    BranchStable(env, f, r, p);
    RecentIsLast(env, f, MTP_WINDOW, p);
    RecentIsLast(env, r, MTP_WINDOW, p);
    if block.header.height == HeightOf(f, p) + 1 {
      TreeCheckIsBranchCheck(env, f, block.header, now);
      TreeCheckIsBranchCheck(env, r, block.header, now);
    }
  }

  lemma GoodSits(env: Env, c: Chain, block: Block, now: int)
    requires CheckBlock(env, c, block, STORED, now).Good?
    ensures var p := block.header.prevHash;
      p in c.blocks && block.header.height == HeightOf(c, p) + 1 && c.blocks[p].state.Some?
  {
    hide CheckAgainstTree, ApplyBlock;
  }

  lemma StateInMemory(env: Env, f: Chain, p: Bytes)
    requires Inv(env, f) && p in f.blocks && HeightOf(f, p) >= f.pruneFloor
    ensures Linked(env, f) && f.blocks[p].state.Some? && f.blocks[p].state == StateOnPath(env, Path(env, f, p))
  {
    hide Linked, Indexed, BranchesValid, Heaviest, StateOnPath, Path;
  }

  /** Above the anchor the restore accepts what the full replay accepts, if its parent is not a sibling of the anchor. */
  lemma TailIff(env: Env, f: Chain, r: Chain, rows: seq<Row>, n: nat, snap: Snapshot, h: nat, block: Block, now: int)
    requires n <= |rows| && Abreast(env, f, r, rows, n, snap, h) && Inv(env, f) && Below(env, f, h) && env.depth >= 1
    requires block.header.height > snap.height && block.header.height >= h && env.hash(block.header) !in r.blocks
    ensures CheckBlock(env, r, block, STORED, now).Good? <==>
      && CheckBlock(env, f, block, STORED, now).Good?
      && (block.header.height == snap.height + 1 ==> block.header.prevHash == snap.hash)
    ensures CheckBlock(env, r, block, STORED, now).Good? ==>
      CheckBlock(env, f, block, STORED, now) == CheckBlock(env, r, block, STORED, now)
  {
    hide Inv, Linked, Indexed, CheckBlock, StateOnPath, Path, Filled;
    var p := block.header.prevHash;
    FloorBelow(env, f, h, block.header.height);
    FloorBelow(env, r, h, block.header.height);
    hide Below;
    if CheckBlock(env, r, block, STORED, now).Good? {
      GoodSits(env, r, block, now);
      assert p in f.blocks && HeightOf(f, p) == HeightOf(r, p);
      StateInMemory(env, f, p);
      SameCheck(env, f, r, block, now);
    } else if CheckBlock(env, f, block, STORED, now).Good? && (block.header.height == snap.height + 1 ==> p == snap.hash) {
      GoodSits(env, f, block, now);
      assert p in r.blocks && HeightOf(f, p) == HeightOf(r, p);
      StateInMemory(env, f, p);
      SameCheck(env, f, r, block, now);
    }
  }

  // ---- Both trees after one more row ----

  /** The other tree took the block as well, or stayed as it was. */
  ghost predicate Follows(f: Chain, f1: Chain, k: Bytes, block: Block) {
    && f.blocks.Keys <= f1.blocks.Keys <= f.blocks.Keys + {k}
    && (k in f1.blocks ==> f1.blocks[k].block == block)
    && forall j :: j in f.blocks ==> f1.blocks[j].block == f.blocks[j].block
  }

  lemma FilledNext(env: Env, r: Chain, r1: Chain, rows: seq<Row>, n: nat, block: Block, state: Option<State>)
    requires n < |rows| && Filled(env, r, rows, n) && Grows(r, r1, KeyOf(env, rows[n]), block, state)
    requires 0 < rows[n].height == block.header.height
    ensures Filled(env, r1, rows, n + 1)
  {
    hide KeyOf;
    forall k | k in r1.blocks
      ensures k == env.hash(GENESIS_HEADER) || exists j :: 0 <= j < n + 1 && rows[j].height > 0 && KeyOf(env, rows[j]) == k
    {
      if k in r.blocks && k != env.hash(GENESIS_HEADER) {
        var j :| 0 <= j < n && rows[j].height > 0 && KeyOf(env, rows[j]) == k;
      } else if k !in r.blocks {
        assert KeyOf(env, rows[n]) == k;
      }
    }
  }

  lemma TailStatesNext(env: Env, f: Chain, f1: Chain, r: Chain, r1: Chain, snap: Snapshot, k: Bytes, block: Block, state: Option<State>)
    requires Linked(env, f) && Linked(env, f1) && TailStates(env, f, r, snap) && TailIn(f, r, snap)
    requires Grows(r, r1, k, block, state) && Follows(f, f1, k, block)
    requires block.header.height > snap.height || k == snap.hash ==> k in f1.blocks && state == StateOnPath(env, Path(env, f1, k))
    ensures TailStates(env, f1, r1, snap)
  {
    hide Linked, StateOnPath, Path;
    forall j | j in r1.blocks && j in f1.blocks && (HeightOf(r1, j) > snap.height || j == snap.hash) && HeightOf(r1, j) >= r1.pruneFloor
      ensures r1.blocks[j].state == StateOnPath(env, Path(env, f1, j))
    {
      if j != k {
        assert j in r.blocks && HeightOf(r1, j) == HeightOf(r, j);
        BranchStable(env, f, f1, j);
      }
    }
  }

  lemma TailInNext(f: Chain, f1: Chain, r: Chain, r1: Chain, snap: Snapshot, k: Bytes, block: Block, state: Option<State>)
    requires Within(f, r) && TailIn(f, r, snap) && Grows(r, r1, k, block, state) && Follows(f, f1, k, block)
    requires block.header.height > snap.height || k == snap.hash ==> k in f1.blocks
    requires block.header.height == snap.height && k != snap.hash ==> state.None?
    ensures Within(f1, r1) && TailIn(f1, r1, snap)
  {
  }

  lemma AbreastNext(env: Env, f: Chain, f1: Chain, r: Chain, r1: Chain, rows: seq<Row>, n: nat, snap: Snapshot, h: nat, h1: nat,
                    block: Block, state: Option<State>)
    requires n < |rows| && Abreast(env, f, r, rows, n, snap, h) && 0 < rows[n].height == block.header.height
    requires Linked(env, f1) && Linked(env, r1) && Indexed(r1) && r1.tip in r1.blocks && Below(env, r1, h1)
    requires var k := KeyOf(env, rows[n]);
      && Grows(r, r1, k, block, state) && Follows(f, f1, k, block)
      && (block.header.height > snap.height || k == snap.hash ==> k in f1.blocks && state == StateOnPath(env, Path(env, f1, k)))
      && (block.header.height == snap.height && k != snap.hash ==> state.None?)
    ensures Abreast(env, f1, r1, rows, n + 1, snap, h1)
  {
    hide Linked, Indexed, StateOnPath, Path, Filled, TailStates, TailIn, Within, KeyOf, Below, Grows, Follows;
    FilledNext(env, r, r1, rows, n, block, state);
    TailStatesNext(env, f, f1, r, r1, snap, KeyOf(env, rows[n]), block, state);
    TailInNext(f, f1, r, r1, snap, KeyOf(env, rows[n]), block, state);
  }

  lemma FullFollows(env: Env, f: Chain, block: Block, now: int)
    requires Indexed(f) && f.tip in f.blocks && env.hash(block.header) !in f.blocks
    ensures var f1, r := AddBlock(env, f, block, STORED, now), CheckBlock(env, f, block, STORED, now);
      && Follows(f, f1, env.hash(block.header), block)
      && (r.Good? ==> block.header.prevHash in f.blocks && f1 == Accept(env, f, block, r.state) && env.hash(block.header) in f1.blocks)
      && (!r.Good? ==> env.hash(block.header) !in f1.blocks)
  {
    hide CheckBlock, Accept, Indexed;
    var r := CheckBlock(env, f, block, STORED, now);
    if r.Good? {
      GoodPrevStored(env, f, block, STORED, now);
      AcceptGrows(env, f, block, r.state);
    }
  }

  /** Where the two replays stand after `n` rows. */
  ghost predicate Stand(env: Env, bs: seq<Block>, f: Chain, r: Chain, rows: seq<Row>, n: nat, snap: Snapshot, h: nat, w: Bytes -> nat) {
    && n <= |rows| && FullInv(env, f, bs, h, w) && Weighed(env, r, w) && Abreast(env, f, r, rows, n, snap, h)
    && RowsOk(env, bs, rows[n..], w) && NotBelow(rows[n..], h) && Pending(env, f, bs, rows[n..]) && Unseen(env, r, rows[n..])
  }

  lemma UnseenWithin(env: Env, f: Chain, r: Chain, rows: seq<Row>)
    requires Within(f, r) && Unseen(env, r, rows)
    ensures Unseen(env, f, rows)
  {
    hide KeyOf;
  }

  /** Where they stand after a row both have gone past, whichever way. */
  lemma StandNext(env: Env, bs: seq<Block>, f: Chain, r: Chain, f1: Chain, r1: Chain, rows: seq<Row>, n: nat, snap: Snapshot, h: nat, h1: nat, w: Bytes -> nat)
    requires n < |rows| && Stand(env, bs, f, r, rows, n, snap, h, w)
    requires FullInv(env, f1, bs, h1, w) && Weighed(env, r1, w) && Abreast(env, f1, r1, rows, n + 1, snap, h1)
    requires f.blocks.Keys <= f1.blocks.Keys && NotBelow(rows[n + 1..], h1)
    requires r1.blocks.Keys <= r.blocks.Keys + (if rows[n].height > 0 then {KeyOf(env, rows[n])} else {})
    requires rows[n].height > 0 && BlockWire.DecodeBlock(rows[n].encoded).Some? ==>
      forall i :: 0 <= i < |bs| && BlockWire.DecodeBlock(rows[n].encoded).value == bs[i] ==> HashAt(env, bs, i) in f1.blocks
    ensures Stand(env, bs, f1, r1, rows, n + 1, snap, h1, w)
  {
    hide FullInv, Weighed, Abreast, RowsOk, NotBelow, Pending, Unseen, KeyOf, Keyed, Honest, WeighsRow, BlockWire.DecodeBlock;
    var rest := rows[n..];
    assert rest[0] == rows[n] && rest[1..] == rows[n + 1..];
    RestOk(env, bs, rest, w);
    PendingRest(env, f, f1, bs, rest);
    UnseenRest(env, r, r1, rest);
  }

  /** What is used of a standing point at a decodable row. */
  lemma StandFacts(env: Env, bs: seq<Block>, f: Chain, r: Chain, rows: seq<Row>, n: nat, snap: Snapshot, h: nat, w: Bytes -> nat)
    requires n < |rows| && Stand(env, bs, f, r, rows, n, snap, h, w) && rows[n].height > 0
    ensures Honest(env, bs, rows[n]) && WeighsRow(env, rows[n], w) && rows[n].height >= h && Keyed(env, rows[n..])
    ensures NotBelow(rows[n + 1..], rows[n].height)
    ensures KeyOf(env, rows[n]) !in r.blocks && KeyOf(env, rows[n]) !in f.blocks
    ensures Inv(env, f) && Fits(env, f, bs) && Below(env, f, h) && f.tip in f.blocks && r.tip in r.blocks
  {
    hide Weighed, Weighs, Linked, Indexed, Filled, TailIn, TailStates, Below, Inv, Fits, RowsOk, Pending, KeyOf, Keyed, Honest, WeighsRow;
    var rest := rows[n..];
    assert rest[0] == rows[n] && rest[1..] == rows[n + 1..];
    RestOk(env, bs, rest, w);
    assert Within(f, r);
    FirstUnseen(env, r, rest);
  }

  /** The full replay's side of a decodable row. */
  lemma FullRow(env: Env, bs: seq<Block>, f: Chain, r: Chain, rows: seq<Row>, n: nat, snap: Snapshot, h: nat, w: Bytes -> nat, block: Block, now: int)
    requires LinearChain(env, bs, now) && env.depth >= 1 && n < |rows| && Stand(env, bs, f, r, rows, n, snap, h, w)
    requires rows[n].height > 0 && BlockWire.DecodeBlock(rows[n].encoded) == Some(block) && f.tip in f.blocks
    ensures var f1, k := AddBlock(env, f, block, STORED, now), KeyOf(env, rows[n]);
      && FullInv(env, f1, bs, rows[n].height, w) && k == env.hash(block.header) && block.header.height == rows[n].height
      && Follows(f, f1, k, block) && f.blocks.Keys <= f1.blocks.Keys && (k in f1.blocks <==> CheckBlock(env, f, block, STORED, now).Good?)
      && forall i :: 0 <= i < |bs| && block == bs[i] ==> HashAt(env, bs, i) in f1.blocks
  {
    hide LinearChain, FullInv, Abreast, Weighed, Keyed, Honest, WeighsRow, KeyOf, BlockWire.DecodeBlock, AddBlock, CheckBlock, Inv, Fits, Below, Follows, RowsOk,
      Pending;
    StandFacts(env, bs, f, r, rows, n, snap, h, w);
    KeyIs(env, rows[n], block);
    RowHeightIs(env, bs, rows[n], block);
    InvLinked(env, f);
    UnseenWithin(env, f, r, rows[n..]) by { AbreastWithin(env, f, r, rows, n, snap, h); }
    assert rows[n..][0] == rows[n];
    FullStep(env, f, bs, rows[n..], now, h, w, block);
    FullFollows(env, f, block, now);
  }

  lemma AbreastWithin(env: Env, f: Chain, r: Chain, rows: seq<Row>, n: nat, snap: Snapshot, h: nat)
    requires n <= |rows| && Abreast(env, f, r, rows, n, snap, h)
    ensures Within(f, r) && Linked(env, f) && Linked(env, r) && Indexed(r) && Below(env, r, h) && Filled(env, r, rows, n)
  {
    hide Within, Linked, Indexed, Below, Filled, TailIn, TailStates;
  }

  lemma GrowsBelow(env: Env, c: Chain, c1: Chain, k: Bytes, block: Block, state: Option<State>, h: nat)
    requires Below(env, c, h) && Grows(c, c1, k, block, state) && c1.pruneFloor == c.pruneFloor && block.header.height <= h
    ensures Below(env, c1, h)
  {
  }

  lemma FullInvLinked(env: Env, f: Chain, bs: seq<Block>, h: nat, w: Bytes -> nat)
    requires FullInv(env, f, bs, h, w)
    ensures Linked(env, f) && Indexed(f) && Inv(env, f) && Fits(env, f, bs) && Below(env, f, h) && f.tip in f.blocks
  {
    InvLinked(env, f);
    hide Inv, Fits, Below, Weighed;
  }

  /** A canonical block in the tree has the path, and so the replayed state, of the canonical chain. */
  lemma AnchorState(env: Env, bs: seq<Block>, f: Chain, now: int, snap: Snapshot, k: nat)
    requires LinearChain(env, bs, now) && Linked(env, f) && Fits(env, f, bs) && IsSnapshotOf(env, snap, bs, k) && snap.hash in f.blocks
    ensures StateOnPath(env, Path(env, f, snap.hash)) == Some(snap.state)
  {
    assert k < |bs| && snap.hash == HashAt(env, bs, k);
    hide LinearChain, Linked, Fits, Path;
    CanonicalPath(env, f, bs, now, k);
  }

  lemma StandParts(env: Env, bs: seq<Block>, f: Chain, r: Chain, rows: seq<Row>, n: nat, snap: Snapshot, h: nat, w: Bytes -> nat)
    requires Stand(env, bs, f, r, rows, n, snap, h, w)
    ensures FullInv(env, f, bs, h, w) && Weighed(env, r, w) && n <= |rows| && Abreast(env, f, r, rows, n, snap, h)
  {
    hide FullInv, Weighed, Abreast, RowsOk, NotBelow, Pending, Unseen;
  }

  lemma SeedMoves(env: Env, bs: seq<Block>, f: Chain, f1: Chain, r: Chain, r1: Chain, rows: seq<Row>, n: nat, snap: Snapshot, k: nat, h: nat,
                  w: Bytes -> nat, block: Block, state: Option<State>, now: int)
    requires LinearChain(env, bs, now) && IsSnapshotOf(env, snap, bs, k)
    requires n < |rows| && Abreast(env, f, r, rows, n, snap, h) && FullInv(env, f1, bs, rows[n].height, w) && Weighed(env, r1, w)
    requires 0 < rows[n].height == block.header.height <= snap.height && h <= rows[n].height && r1.tip in r1.blocks
    requires Grows(r, r1, KeyOf(env, rows[n]), block, state) && r1.pruneFloor == r.pruneFloor && Follows(f, f1, KeyOf(env, rows[n]), block)
    requires state == if KeyOf(env, rows[n]) == snap.hash then Some(snap.state) else None
    requires KeyOf(env, rows[n]) == snap.hash ==> snap.hash in f1.blocks
    ensures Abreast(env, f1, r1, rows, n + 1, snap, rows[n].height)
  {
    hide LinearChain, IsSnapshotOf, FullInv, Abreast, Weighed, KeyOf, Follows, Grows, Below, Linked, Indexed, Filled, Inv, Fits, StateOnPath, Path;
    AbreastWithin(env, f, r, rows, n, snap, h);
    FullInvLinked(env, f1, bs, rows[n].height, w);
    WeighedLinked(env, r1, w);
    BelowMore(env, r, h, rows[n].height);
    GrowsBelow(env, r, r1, KeyOf(env, rows[n]), block, state, rows[n].height);
    if KeyOf(env, rows[n]) == snap.hash {
      AnchorState(env, bs, f1, now, snap, k);
    }
    AbreastNext(env, f, f1, r, r1, rows, n, snap, h, rows[n].height, block, state);
  }

  /** A row at or below the anchor: it is restored exactly if its parent is among the rows, and both sides move on. */
  lemma SeedRow(env: Env, bs: seq<Block>, f: Chain, r: Chain, rows: seq<Row>, n: nat, snap: Snapshot, k: nat, h: nat, w: Bytes -> nat, block: Block, now: int)
    requires LinearChain(env, bs, now) && env.depth >= 1 && IsSnapshotOf(env, snap, bs, k) && ByHeight(rows)
    requires n < |rows| && Stand(env, bs, f, r, rows, n, snap, h, w) && f.tip in f.blocks && r.tip in r.blocks
    requires 0 < rows[n].height <= snap.height && BlockWire.DecodeBlock(rows[n].encoded) == Some(block)
    ensures var step := SnapshotStep(env, r, rows[n], snap, now);
      && (step.Restored? <==> Rooted(env, rows, block.header))
      && (step.Restored? ==> Stand(env, bs, AddBlock(env, f, block, STORED, now), step.chain, rows, n + 1, snap, rows[n].height, w))
  {
    hide LinearChain, IsSnapshotOf, FullInv, Abreast, Weighed, Keyed, Honest, WeighsRow, KeyOf, BlockWire.DecodeBlock, AddBlock, CheckBlock, Follows, RowsOk,
      SnapshotStep, SeedHistorical, Rooted, Below, Linked, Indexed, Filled, IsAnchorRow, Inv, Fits, ByHeight, Stand;
    StandFacts(env, bs, f, r, rows, n, snap, h, w);
    StandParts(env, bs, f, r, rows, n, snap, h, w);
    AnchorRowIs(env, bs, rows[n], block, snap, k, now);
    SeededRow(env, r, rows[n], block, snap, now);
    RootedIff(env, r, rows, n, block.header) by { AbreastWithin(env, f, r, rows, n, snap, h); }
    if SnapshotStep(env, r, rows[n], snap, now).Restored? {
      SeedStands(env, bs, f, r, rows, n, snap, k, h, w, block, now);
    }
  }

  lemma SeedStands(env: Env, bs: seq<Block>, f: Chain, r: Chain, rows: seq<Row>, n: nat, snap: Snapshot, k: nat, h: nat, w: Bytes -> nat, block: Block, now: int)
    requires LinearChain(env, bs, now) && env.depth >= 1 && IsSnapshotOf(env, snap, bs, k)
    requires n < |rows| && Stand(env, bs, f, r, rows, n, snap, h, w) && f.tip in f.blocks && r.tip in r.blocks
    requires 0 < rows[n].height <= snap.height && BlockWire.DecodeBlock(rows[n].encoded) == Some(block)
    requires SnapshotStep(env, r, rows[n], snap, now).Restored?
    ensures Stand(env, bs, AddBlock(env, f, block, STORED, now), SnapshotStep(env, r, rows[n], snap, now).chain, rows, n + 1, snap, rows[n].height, w)
  {
    hide LinearChain, IsSnapshotOf, FullInv, Abreast, Weighed, Keyed, Honest, WeighsRow, KeyOf, BlockWire.DecodeBlock, AddBlock, CheckBlock, Follows, RowsOk,
      SnapshotStep, SeedHistorical, SeedError, Below, IsAnchorRow, Inv, Fits, Stand, Grows;
    StandFacts(env, bs, f, r, rows, n, snap, h, w);
    StandParts(env, bs, f, r, rows, n, snap, h, w);
    AnchorRowIs(env, bs, rows[n], block, snap, k, now);
    SeededRow(env, r, rows[n], block, snap, now);
    FullRow(env, bs, f, r, rows, n, snap, h, w, block, now);
    var state := if IsAnchorRow(env, rows[n], snap) then Some(snap.state) else None;
    var f1, r1 := AddBlock(env, f, block, STORED, now), SeedHistorical(env, r, block, state);
    assert SnapshotStep(env, r, rows[n], snap, now).chain == r1 && SeedError(env, r, block.header).None?;
    StepHead(env, r, w, rows[n], snap, now);
    SeedGrows(env, r, block, state);
    SeedMoves(env, bs, f, f1, r, r1, rows, n, snap, k, h, w, block, state, now);
    StandNext(env, bs, f, r, f1, r1, rows, n, snap, h, rows[n].height, w);
  }

  /** A row above the anchor: restored exactly if the full replay accepts it and its parent has a state here. */
  lemma TailRow(env: Env, bs: seq<Block>, f: Chain, r: Chain, rows: seq<Row>, n: nat, snap: Snapshot, k: nat, h: nat, w: Bytes -> nat, block: Block, now: int)
    requires LinearChain(env, bs, now) && env.depth >= 1 && IsSnapshotOf(env, snap, bs, k)
    requires n < |rows| && Stand(env, bs, f, r, rows, n, snap, h, w) && f.tip in f.blocks && r.tip in r.blocks
    requires rows[n].height > snap.height && BlockWire.DecodeBlock(rows[n].encoded) == Some(block)
    ensures var step := SnapshotStep(env, r, rows[n], snap, now);
      && (step.Restored? <==>
            && CheckBlock(env, f, block, STORED, now).Good?
            && (rows[n].height == snap.height + 1 ==> block.header.prevHash == snap.hash))
      && (step.Restored? ==> Stand(env, bs, AddBlock(env, f, block, STORED, now), step.chain, rows, n + 1, snap, rows[n].height, w))
  {
    hide LinearChain, IsSnapshotOf, FullInv, Abreast, Weighed, Keyed, Honest, WeighsRow, KeyOf, BlockWire.DecodeBlock, AddBlock, CheckBlock, RowsOk,
      SnapshotStep, Below, Inv, Fits, Stand;
    StandFacts(env, bs, f, r, rows, n, snap, h, w);
    StandParts(env, bs, f, r, rows, n, snap, h, w);
    RowHeightIs(env, bs, rows[n], block);
    KeyIs(env, rows[n], block);
    TailIff(env, f, r, rows, n, snap, h, block, now);
    StepOnDecoded(env, r, rows[n], block, snap, now);
    NotKnown(env, r, block, now);
    if TailOrFail(env, r, block, now).Restored? {
      TailStands(env, bs, f, r, rows, n, snap, k, h, w, block, now);
    }
  }

  lemma TailStands(env: Env, bs: seq<Block>, f: Chain, r: Chain, rows: seq<Row>, n: nat, snap: Snapshot, k: nat, h: nat, w: Bytes -> nat, block: Block, now: int)
    requires LinearChain(env, bs, now) && env.depth >= 1 && IsSnapshotOf(env, snap, bs, k)
    requires n < |rows| && Stand(env, bs, f, r, rows, n, snap, h, w) && f.tip in f.blocks && r.tip in r.blocks
    requires rows[n].height > snap.height && BlockWire.DecodeBlock(rows[n].encoded) == Some(block)
    requires SnapshotStep(env, r, rows[n], snap, now) == TailOrFail(env, r, block, now) == Restored(AddBlock(env, r, block, STORED, now))
    requires CheckBlock(env, r, block, STORED, now).Good? && CheckBlock(env, f, block, STORED, now) == CheckBlock(env, r, block, STORED, now)
    ensures Stand(env, bs, AddBlock(env, f, block, STORED, now), AddBlock(env, r, block, STORED, now), rows, n + 1, snap, rows[n].height, w)
  {
    hide LinearChain, IsSnapshotOf, FullInv, Abreast, Weighed, Keyed, Honest, WeighsRow, KeyOf, BlockWire.DecodeBlock, AddBlock, CheckBlock, RowsOk,
      SnapshotStep, TailOrFail, Below, Inv, Fits, Stand, Follows;
    StandFacts(env, bs, f, r, rows, n, snap, h, w);
    StandParts(env, bs, f, r, rows, n, snap, h, w);
    FullRow(env, bs, f, r, rows, n, snap, h, w, block, now);
    StepHead(env, r, w, rows[n], snap, now);
    var f1, r1 := AddBlock(env, f, block, STORED, now), AddBlock(env, r, block, STORED, now);
    TailMoves(env, bs, f, r, rows, n, snap, h, w, block, now);
    StandNext(env, bs, f, r, f1, r1, rows, n, snap, h, rows[n].height, w);
  }

  lemma TailMoves(env: Env, bs: seq<Block>, f: Chain, r: Chain, rows: seq<Row>, n: nat, snap: Snapshot, h: nat, w: Bytes -> nat, block: Block, now: int)
    requires n < |rows| && Abreast(env, f, r, rows, n, snap, h) && f.tip in f.blocks && r.tip in r.blocks
    requires FullInv(env, f, bs, h, w)
    requires rows[n].height == block.header.height > snap.height && h <= rows[n].height && env.depth >= 1
    requires KeyOf(env, rows[n]) == env.hash(block.header) && env.hash(block.header) !in r.blocks && env.hash(block.header) !in f.blocks
    requires CheckBlock(env, r, block, STORED, now).Good? && CheckBlock(env, f, block, STORED, now) == CheckBlock(env, r, block, STORED, now)
    requires var f1, r1 := AddBlock(env, f, block, STORED, now), AddBlock(env, r, block, STORED, now);
      FullInv(env, f1, bs, rows[n].height, w) && Weighed(env, r1, w) && r1.tip in r1.blocks
    ensures Abreast(env, AddBlock(env, f, block, STORED, now), AddBlock(env, r, block, STORED, now), rows, n + 1, snap, rows[n].height)
  {
    hide FullInv, Abreast, Weighed, KeyOf, CheckBlock, Below, Linked, Indexed, Inv, Fits, Accept, Follows, Grows, StateOnPath, Path;
    GoodPrevStored(env, f, block, STORED, now);
    GoodPrevStored(env, r, block, STORED, now);
    var state := CheckBlock(env, f, block, STORED, now).state;
    var f1, r1 := Accept(env, f, block, state), Accept(env, r, block, state);
    AbreastWithin(env, f, r, rows, n, snap, h);
    FullInvLinked(env, f, bs, h, w);
    FullInvLinked(env, f1, bs, rows[n].height, w);
    WeighedLinked(env, r1, w);
    FullFollows(env, f, block, now);
    AcceptedState(env, f, block, state, rows[n].height);
    AcceptGrows(env, r, block, state);
    BelowMore(env, r, h, rows[n].height);
    AcceptedTree(env, r, block, state, rows[n].height);
    AbreastNext(env, f, f1, r, r1, rows, n, snap, h, rows[n].height, block, Some(state));
  }

  /** The state an accepted block got is the replayed one. */
  lemma AcceptedState(env: Env, f: Chain, block: Block, state: State, h: nat)
    requires Indexed(f) && block.header.prevHash in f.blocks && f.tip in f.blocks && env.hash(block.header) !in f.blocks
    requires var f1 := Accept(env, f, block, state); Inv(env, f1) && Below(env, f1, h)
    requires env.depth >= 1 && 0 < h == block.header.height
    ensures var f1, k := Accept(env, f, block, state), env.hash(block.header);
      Linked(env, f1) && k in f1.blocks && StateOnPath(env, Path(env, f1, k)) == Some(state)
  {
    hide Inv, Indexed, Accept, StateOnPath, Path;
    AcceptGrows(env, f, block, state);
    var f1 := Accept(env, f, block, state);
    FloorBelow(env, f1, h, h);
    hide Below;
    StateInMemory(env, f1, env.hash(block.header));
  }

  // ---- All rows ----

  /** Whether a full replay accepts a row is settled when the row comes up. */
  lemma AcceptedNow(env: Env, bs: seq<Block>, f1: Chain, rows: seq<Row>, n: nat, now: int, h: nat, w: Bytes -> nat)
    requires LinearChain(env, bs, now) && env.depth >= 1 && n < |rows| && FullInv(env, f1, bs, h, w) && f1.tip in f1.blocks
    requires RowsOk(env, bs, rows[n + 1..], w) && NotBelow(rows[n + 1..], h) && Pending(env, f1, bs, rows[n + 1..])
    requires Unseen(env, f1, rows[n + 1..]) && Keyed(env, rows[n..]) && rows[n].height > 0
    ensures KeyOf(env, rows[n]) in FullReplay(env, f1, rows[n + 1..], now).blocks <==> KeyOf(env, rows[n]) in f1.blocks
  {
    hide LinearChain, FullInv, RowsOk, NotBelow, Pending, Unseen, KeyOf, FullReplay;
    var h' := FullCollects(env, f1, bs, rows[n + 1..], now, h, w);
    var rest := rows[n + 1..];
    forall i | 0 <= i < |rest| && rest[i].height > 0
      ensures KeyOf(env, rest[i]) != KeyOf(env, rows[n])
    {
      assert rows[n..][0] == rows[n] && rows[n..][i + 1] == rest[i];
    }
  }

  /** One row that is not skipped: what decides it, and where both sides stand after it. */
  lemma NextRow(env: Env, bs: seq<Block>, f: Chain, r: Chain, rows: seq<Row>, n: nat, snap: Snapshot, k: nat, h: nat, w: Bytes -> nat, now: int)
    requires LinearChain(env, bs, now) && env.depth >= 1 && IsSnapshotOf(env, snap, bs, k) && ByHeight(rows)
    requires n < |rows| && Stand(env, bs, f, r, rows, n, snap, h, w) && f.tip in f.blocks && r.tip in r.blocks && rows[n].height > 0
    ensures SnapshotStep(env, r, rows[n], snap, now).Restored? <==> Restorable(env, rows, rows[n], snap, FullReplay(env, f, rows[n..], now))
    ensures SnapshotStep(env, r, rows[n], snap, now).Restored? ==>
      && BlockWire.DecodeBlock(rows[n].encoded).Some?
      && var f1 := AddBlock(env, f, BlockWire.DecodeBlock(rows[n].encoded).value, STORED, now);
         var r1 := SnapshotStep(env, r, rows[n], snap, now).chain;
         && f1.tip in f1.blocks && r1.tip in r1.blocks
         && FullReplay(env, f, rows[n..], now) == FullReplay(env, f1, rows[n + 1..], now)
         && Stand(env, bs, f1, r1, rows, n + 1, snap, rows[n].height, w)
  {
    hide LinearChain, IsSnapshotOf, BlockWire.DecodeBlock, AddBlock, CheckBlock, SnapshotStep, ByHeight, Stand, Rooted, KeyOf;
    var b := BlockWire.DecodeBlock(rows[n].encoded);
    if b.None? {
      UndecodedFails(env, r, rows[n], snap, now);
    } else {
      AddKeepsTip(env, f, b.value, STORED, now);
      SnapshotStepKeepsTip(env, r, rows[n], snap, now);
      ReplayStep(env, f, rows, n, b.value, now);
      hide FullReplay;
      if rows[n].height <= snap.height {
        SeedRow(env, bs, f, r, rows, n, snap, k, h, w, b.value, now);
      } else {
        TailRow(env, bs, f, r, rows, n, snap, k, h, w, b.value, now);
        AcceptedLater(env, bs, f, r, rows, n, snap, h, w, b.value, now);
      }
    }
  }

  lemma UndecodedFails(env: Env, r: Chain, row: Row, snap: Snapshot, now: int)
    requires r.tip in r.blocks && BlockWire.DecodeBlock(row.encoded).None?
    ensures SnapshotStep(env, r, row, snap, now).Failed?
  {
    hide BlockWire.DecodeBlock;
  }

  lemma ReplayStep(env: Env, f: Chain, rows: seq<Row>, n: nat, block: Block, now: int)
    requires n < |rows| && rows[n].height > 0 && BlockWire.DecodeBlock(rows[n].encoded) == Some(block) && f.tip in f.blocks
    ensures var f1 := AddBlock(env, f, block, STORED, now);
      f1.tip in f1.blocks && FullReplay(env, f, rows[n..], now) == FullReplay(env, f1, rows[n + 1..], now)
  {
    AddKeepsTip(env, f, block, STORED, now);
    assert rows[n..][1..] == rows[n + 1..];
    hide BlockWire.DecodeBlock, AddBlock;
  }

  lemma AcceptedLater(env: Env, bs: seq<Block>, f: Chain, r: Chain, rows: seq<Row>, n: nat, snap: Snapshot, h: nat, w: Bytes -> nat, block: Block, now: int)
    requires LinearChain(env, bs, now) && env.depth >= 1 && n < |rows| && Stand(env, bs, f, r, rows, n, snap, h, w) && f.tip in f.blocks
    requires rows[n].height > 0 && BlockWire.DecodeBlock(rows[n].encoded) == Some(block)
    ensures var f1 := AddBlock(env, f, block, STORED, now);
      f1.tip in f1.blocks && (KeyOf(env, rows[n]) in FullReplay(env, f1, rows[n + 1..], now).blocks <==> CheckBlock(env, f, block, STORED, now).Good?)
  {
    hide LinearChain, BlockWire.DecodeBlock, AddBlock, CheckBlock, KeyOf, FullReplay, FullInv, Follows, Keyed, Honest, WeighsRow, Inv, Fits, Below, Unseen, RowsOk,
      NotBelow, Pending, Abreast, Weighed;
    StandFacts(env, bs, f, r, rows, n, snap, h, w);
    FullRow(env, bs, f, r, rows, n, snap, h, w, block, now);
    var f1 := AddBlock(env, f, block, STORED, now);
    FullInvLinked(env, f1, bs, rows[n].height, w);
    AbreastWithin(env, f, r, rows, n, snap, h);
    hide Stand;
    FullRest(env, bs, f, f1, r, rows, n, snap, h, w, block);
    AcceptedNow(env, bs, f1, rows, n, now, rows[n].height, w);
  }

  /** What the full replay's side still has to come. */
  lemma FullRest(env: Env, bs: seq<Block>, f: Chain, f1: Chain, r: Chain, rows: seq<Row>, n: nat, snap: Snapshot, h: nat, w: Bytes -> nat, block: Block)
    requires n < |rows| && Stand(env, bs, f, r, rows, n, snap, h, w) && Within(f, r)
    requires rows[n].height > 0 && BlockWire.DecodeBlock(rows[n].encoded) == Some(block)
    requires f.blocks.Keys <= f1.blocks.Keys && Follows(f, f1, KeyOf(env, rows[n]), block)
    requires forall i :: 0 <= i < |bs| && block == bs[i] ==> HashAt(env, bs, i) in f1.blocks
    ensures RowsOk(env, bs, rows[n + 1..], w) && Pending(env, f1, bs, rows[n + 1..]) && Unseen(env, f1, rows[n + 1..])
  {
    hide FullInv, Weighed, Abreast, RowsOk, NotBelow, Pending, Unseen, KeyOf, Keyed, Honest, WeighsRow, BlockWire.DecodeBlock;
    var rest := rows[n..];
    assert rest[0] == rows[n] && rest[1..] == rows[n + 1..];
    RestOk(env, bs, rest, w);
    PendingRest(env, f, f1, bs, rest);
    UnseenWithin(env, f, r, rest);
    UnseenRest(env, f, f1, rest);
  }

  ghost predicate AllRestorable(env: Env, rows: seq<Row>, n: nat, snap: Snapshot, full: Chain) {
    forall i :: n <= i < |rows| && rows[i].height > 0 ==> Restorable(env, rows, rows[i], snap, full)
  }

  lemma AllRestorableNext(env: Env, rows: seq<Row>, n: nat, snap: Snapshot, full: Chain)
    requires n < |rows|
    ensures AllRestorable(env, rows, n, snap, full)
            <==> (rows[n].height > 0 ==> Restorable(env, rows, rows[n], snap, full)) && AllRestorable(env, rows, n + 1, snap, full)
  {
    hide Restorable;
  }

  /** Row by row: the restore gets through exactly the restorable rows. */
  lemma {:induction false} LockStep(env: Env, bs: seq<Block>, f: Chain, r: Chain, rows: seq<Row>, n: nat, snap: Snapshot, seeded: bool,
                                    k: nat, h: nat, w: Bytes -> nat, now: int)
    requires LinearChain(env, bs, now) && env.depth >= 1 && IsSnapshotOf(env, snap, bs, k) && ByHeight(rows)
    requires n <= |rows| && Stand(env, bs, f, r, rows, n, snap, h, w) && f.tip in f.blocks && r.tip in r.blocks
    requires snap.hash in r.blocks ==> seeded
    ensures ReplayWithSnapshot(env, r, rows[n..], snap, seeded, now).Restored? <==> AllRestorable(env, rows, n, snap, FullReplay(env, f, rows[n..], now))
    decreases |rows| - n
  {
    hide LinearChain, IsSnapshotOf, ByHeight, Stand, BlockWire.DecodeBlock, AddBlock, SnapshotStep, Restorable, KeyOf, AllRestorable, IsAnchorRow;
    if n == |rows| {
      NoRowsLeft(env, bs, f, r, rows, snap, k, h, w);
      hide FullReplay;
    } else {
      AllRestorableNext(env, rows, n, snap, FullReplay(env, f, rows[n..], now));
      assert rows[n..][0] == rows[n] && rows[n..][1..] == rows[n + 1..];
      if rows[n].height == 0 {
        SkipRow(env, bs, f, r, rows, n, snap, h, w);
        LockStep(env, bs, f, r, rows, n + 1, snap, seeded, k, h, w, now);
      } else {
        NextRow(env, bs, f, r, rows, n, snap, k, h, w, now);
        hide FullReplay;
        if SnapshotStep(env, r, rows[n], snap, now).Restored? {
          var f1 := AddBlock(env, f, BlockWire.DecodeBlock(rows[n].encoded).value, STORED, now);
          var r1 := SnapshotStep(env, r, rows[n], snap, now).chain;
          StaysSeeded(env, bs, f, r, r1, rows, n, snap, k, h, w, now);
          LockStep(env, bs, f1, r1, rows, n + 1, snap, seeded || IsAnchorRow(env, rows[n], snap), k, rows[n].height, w, now);
        }
      }
    }
  }

  lemma NoRowsLeft(env: Env, bs: seq<Block>, f: Chain, r: Chain, rows: seq<Row>, snap: Snapshot, k: nat, h: nat, w: Bytes -> nat)
    requires Stand(env, bs, f, r, rows, |rows|, snap, h, w) && IsSnapshotOf(env, snap, bs, k)
    ensures snap.hash in r.blocks && rows[|rows|..] == [] && forall full: Chain :: AllRestorable(env, rows, |rows|, snap, full)
  {
    hide FullInv, Weighed, RowsOk, Unseen, NotBelow, Linked, Indexed, Below, Filled, TailIn, TailStates, StateOnPath, Restorable;
    assert Within(f, r);
    hide Within;
    PendingDone(env, f, bs, k);
  }

  lemma PendingDone(env: Env, c: Chain, bs: seq<Block>, i: nat)
    requires Pending(env, c, bs, []) && i < |bs|
    ensures HashAt(env, bs, i) in c.blocks
  {
  }

  lemma SkipRow(env: Env, bs: seq<Block>, f: Chain, r: Chain, rows: seq<Row>, n: nat, snap: Snapshot, h: nat, w: Bytes -> nat)
    requires n < |rows| && Stand(env, bs, f, r, rows, n, snap, h, w) && rows[n].height == 0
    ensures Stand(env, bs, f, r, rows, n + 1, snap, h, w)
  {
    StandParts(env, bs, f, r, rows, n, snap, h, w);
    SkipAbreast(env, f, r, rows, n, snap, h);
    hide FullInv, Weighed, Abreast, RowsOk, Pending, Unseen;
    LaterRows(rows[n..], h);
    assert rows[n..][1..] == rows[n + 1..];
    hide Stand, NotBelow;
    StandNext(env, bs, f, r, f, r, rows, n, snap, h, h, w);
  }

  lemma SkipAbreast(env: Env, f: Chain, r: Chain, rows: seq<Row>, n: nat, snap: Snapshot, h: nat)
    requires n < |rows| && Abreast(env, f, r, rows, n, snap, h) && rows[n].height == 0
    ensures Abreast(env, f, r, rows, n + 1, snap, h)
  {
    hide Linked, Indexed, Below, Within, TailIn, TailStates, KeyOf;
    assert Filled(env, r, rows, n + 1);
  }

  lemma StaysSeeded(env: Env, bs: seq<Block>, f: Chain, r: Chain, r1: Chain, rows: seq<Row>, n: nat, snap: Snapshot, k: nat, h: nat, w: Bytes -> nat, now: int)
    requires LinearChain(env, bs, now) && IsSnapshotOf(env, snap, bs, k) && n < |rows| && rows[n].height > 0
    requires Stand(env, bs, f, r, rows, n, snap, h, w) && r.tip in r.blocks
    requires SnapshotStep(env, r, rows[n], snap, now) == Restored(r1)
    ensures snap.hash in r1.blocks ==> snap.hash in r.blocks || IsAnchorRow(env, rows[n], snap)
  {
    hide LinearChain, IsSnapshotOf, SnapshotStep, Stand, IsAnchorRow, KeyOf, BlockWire.DecodeBlock, Honest, WeighsRow, Weighed, Keyed, NotBelow, FullInv, Abreast,
      Inv, Fits, Below;
    StandFacts(env, bs, f, r, rows, n, snap, h, w);
    StandParts(env, bs, f, r, rows, n, snap, h, w);
    StepKind(env, r, rows[n], snap, now);
    StepHead(env, r, w, rows[n], snap, now);
    AnchorRowIs(env, bs, rows[n], BlockWire.DecodeBlock(rows[n].encoded).value, snap, k, now);
  }

  lemma StandStarts(env: Env, bs: seq<Block>, rows: seq<Row>, snap: Snapshot, k: nat, w: Bytes -> nat, now: int)
    requires LinearChain(env, bs, now) && RowsOk(env, bs, rows, w) && IsSnapshotOf(env, snap, bs, k)
    requires forall i :: 1 <= i < |bs| ==> HoldsBlock(rows, bs[i])
    ensures var c := Init(env); c.tip in c.blocks && snap.hash !in c.blocks && Stand(env, bs, c, c, rows, 0, snap, 0, w)
  {
    var c := Init(env);
    assert rows[0..] == rows;
    FullStarts(env, bs, rows, now, w);
    AnchorNotGenesis(env, bs, snap, k, now);
    InitAbreast(env, rows, snap);
    assert FullInv(env, c, bs, 0, w) && Weighed(env, c, w);
    hide Inv, Fits, Weighed, Below, Abreast, RowsOk, NotBelow, Pending, Unseen, Init, LinearChain, IsSnapshotOf, HoldsBlock;
  }

  lemma AnchorNotGenesis(env: Env, bs: seq<Block>, snap: Snapshot, k: nat, now: int)
    requires LinearChain(env, bs, now) && IsSnapshotOf(env, snap, bs, k)
    ensures snap.hash != env.hash(GENESIS_HEADER) && snap.height > 0
  {
    DistinctFromGenesis(env, bs, now, k);
    hide LinearChain, StateOnPath;
  }

  lemma InitAbreast(env: Env, rows: seq<Row>, snap: Snapshot)
    requires snap.hash != env.hash(GENESIS_HEADER) && snap.height > 0
    ensures Abreast(env, Init(env), Init(env), rows, 0, snap, 0) && snap.hash !in Init(env).blocks
  {
    InitInv(env);
    InvLinked(env, Init(env));
    hide Linked, Indexed, Inv, BlockWork, StateOnPath, Path;
  }

  /**
   * When a snapshot restore of stored rows succeeds, forks and rejected blocks included: every row decodes, every
   * block up to the anchor has its parent among the rows, and every block above the anchor is one a full replay
   * accepts, none of them a child of another block at the anchor's height.
   */
  lemma ForkedRestoreSucceedsIff(env: Env, bs: seq<Block>, rows: seq<Row>, snap: Snapshot, k: nat, now: int, w: Bytes -> nat)
    requires LinearChain(env, bs, now) && env.depth >= 1 && RowsOk(env, bs, rows, w) && IsSnapshotOf(env, snap, bs, k)
    requires forall i :: 1 <= i < |bs| ==> HoldsBlock(rows, bs[i])
    ensures ReplayWithSnapshot(env, Init(env), rows, snap, false, now).Restored? <==>
      forall i :: 0 <= i < |rows| && rows[i].height > 0 ==>
        Restorable(env, rows, rows[i], snap, FullReplay(env, Init(env), rows, now))
  {
    StandStarts(env, bs, rows, snap, k, w, now);
    assert rows[0..] == rows && ByHeight(rows);
    hide LinearChain, RowsOk, IsSnapshotOf, HoldsBlock, Init, Stand, ReplayWithSnapshot, FullReplay, Restorable, ByHeight;
    LockStep(env, bs, Init(env), Init(env), rows, 0, snap, false, k, 0, w, now);
  }

  // ---- Rows that a full replay accepts ----

  /** Stored as the node stores it: the full replay accepts the row's block. */
  ghost predicate Accepted(env: Env, row: Row, full: Chain) {
    BlockWire.DecodeBlock(row.encoded).Some? && KeyOf(env, row) in full.blocks
  }

  /** Not just above the anchor, or a child of it. */
  ghost predicate OnAnchor(row: Row, snap: Snapshot) {
    var b := BlockWire.DecodeBlock(row.encoded);
    b.Some? && row.height == snap.height + 1 ==> b.value.header.prevHash == snap.hash
  }

  ghost predicate AllAccepted(env: Env, rows: seq<Row>, n: nat, snap: Snapshot, full: Chain) {
    forall i :: n <= i < |rows| && rows[i].height > 0 ==> Accepted(env, rows[i], full) && OnAnchor(rows[i], snap)
  }

  /** An accepted block's parent is among the rows, so the row is restorable. */
  lemma AcceptedIsRestorable(env: Env, bs: seq<Block>, f: Chain, r: Chain, rows: seq<Row>, n: nat, snap: Snapshot, h: nat, w: Bytes -> nat, now: int)
    requires LinearChain(env, bs, now) && env.depth >= 1 && ByHeight(rows) && f.tip in f.blocks
    requires n < |rows| && Stand(env, bs, f, r, rows, n, snap, h, w) && rows[n].height > 0
    requires Accepted(env, rows[n], FullReplay(env, f, rows[n..], now)) && OnAnchor(rows[n], snap)
    ensures Restorable(env, rows, rows[n], snap, FullReplay(env, f, rows[n..], now))
  {
    hide LinearChain, ByHeight, Stand, BlockWire.DecodeBlock, CheckBlock, KeyOf, FullReplay, AddBlock, Rooted, Abreast, FullInv, Honest, WeighsRow, Keyed,
      NotBelow, Inv, Fits, Below, Filled, Linked, Indexed, Weighed;
    var b := BlockWire.DecodeBlock(rows[n].encoded).value;
    StandFacts(env, bs, f, r, rows, n, snap, h, w);
    StandParts(env, bs, f, r, rows, n, snap, h, w);
    RowHeightIs(env, bs, rows[n], b);
    ReplayStep(env, f, rows, n, b, now);
    AcceptedLater(env, bs, f, r, rows, n, snap, h, w, b, now);
    GoodSits(env, f, b, now);
    AbreastWithin(env, f, r, rows, n, snap, h);
    assert b.header.prevHash in r.blocks;
    RootedIff(env, r, rows, n, b.header);
  }

  lemma AllAcceptedNext(env: Env, rows: seq<Row>, n: nat, snap: Snapshot, full: Chain)
    requires n < |rows| && AllAccepted(env, rows, n, snap, full)
    ensures AllAccepted(env, rows, n + 1, snap, full)
    ensures rows[n].height > 0 ==> Accepted(env, rows[n], full) && OnAnchor(rows[n], snap)
  {
    hide Accepted, OnAnchor;
  }

  lemma {:induction false} AcceptedRows(env: Env, bs: seq<Block>, f: Chain, r: Chain, rows: seq<Row>, n: nat, snap: Snapshot,
                                        k: nat, h: nat, w: Bytes -> nat, now: int)
    requires LinearChain(env, bs, now) && env.depth >= 1 && IsSnapshotOf(env, snap, bs, k) && ByHeight(rows)
    requires n <= |rows| && Stand(env, bs, f, r, rows, n, snap, h, w) && f.tip in f.blocks && r.tip in r.blocks
    requires AllAccepted(env, rows, n, snap, FullReplay(env, f, rows[n..], now))
    ensures AllRestorable(env, rows, n, snap, FullReplay(env, f, rows[n..], now))
    decreases |rows| - n
  {
    hide LinearChain, IsSnapshotOf, ByHeight, Stand, BlockWire.DecodeBlock, AddBlock, SnapshotStep, Restorable, KeyOf, AllRestorable, AllAccepted;
    if n == |rows| {
      NoRowsLeft(env, bs, f, r, rows, snap, k, h, w);
      hide FullReplay;
    } else {
      var full := FullReplay(env, f, rows[n..], now);
      AllRestorableNext(env, rows, n, snap, full);
      AllAcceptedNext(env, rows, n, snap, full);
      if rows[n].height == 0 {
        assert rows[n..][0] == rows[n] && rows[n..][1..] == rows[n + 1..];
        SkipRow(env, bs, f, r, rows, n, snap, h, w);
        AcceptedRows(env, bs, f, r, rows, n + 1, snap, k, h, w, now);
      } else {
        hide FullReplay;
        AcceptedIsRestorable(env, bs, f, r, rows, n, snap, h, w, now);
        NextRow(env, bs, f, r, rows, n, snap, k, h, w, now);
        var f1 := AddBlock(env, f, BlockWire.DecodeBlock(rows[n].encoded).value, STORED, now);
        AcceptedRows(env, bs, f1, SnapshotStep(env, r, rows[n], snap, now).chain, rows, n + 1, snap, k, rows[n].height, w, now);
      }
    }
  }

  /**
   * Of rows that a full replay accepts one and all, the restore fails exactly when one of them is a child of
   * another block at the anchor's height.
   */
  lemma StoredRestoreSucceedsIff(env: Env, bs: seq<Block>, rows: seq<Row>, snap: Snapshot, k: nat, now: int, w: Bytes -> nat)
    requires LinearChain(env, bs, now) && env.depth >= 1 && RowsOk(env, bs, rows, w) && IsSnapshotOf(env, snap, bs, k)
    requires forall i :: 1 <= i < |bs| ==> HoldsBlock(rows, bs[i])
    requires forall i :: 0 <= i < |rows| && rows[i].height > 0 ==> Accepted(env, rows[i], FullReplay(env, Init(env), rows, now))
    ensures ReplayWithSnapshot(env, Init(env), rows, snap, false, now).Restored? <==>
      forall i :: 0 <= i < |rows| && rows[i].height > 0 ==> OnAnchor(rows[i], snap)
  {
    hide LinearChain, RowsOk, IsSnapshotOf, HoldsBlock, Init, ReplayWithSnapshot, FullReplay, Accepted, OnAnchor, Restorable;
    ForkedRestoreSucceedsIff(env, bs, rows, snap, k, now, w);
    var full := FullReplay(env, Init(env), rows, now);
    if forall i :: 0 <= i < |rows| && rows[i].height > 0 ==> OnAnchor(rows[i], snap) {
      AcceptedAll(env, bs, rows, snap, k, now, w);
    } else {
      var i :| 0 <= i < |rows| && rows[i].height > 0 && !OnAnchor(rows[i], snap);
      StrayFails(env, rows, rows[i], snap, full);
    }
  }

  lemma AcceptedAll(env: Env, bs: seq<Block>, rows: seq<Row>, snap: Snapshot, k: nat, now: int, w: Bytes -> nat)
    requires LinearChain(env, bs, now) && env.depth >= 1 && RowsOk(env, bs, rows, w) && IsSnapshotOf(env, snap, bs, k)
    requires forall i :: 1 <= i < |bs| ==> HoldsBlock(rows, bs[i])
    requires forall i :: 0 <= i < |rows| && rows[i].height > 0 ==>
      Accepted(env, rows[i], FullReplay(env, Init(env), rows, now)) && OnAnchor(rows[i], snap)
    ensures forall i :: 0 <= i < |rows| && rows[i].height > 0 ==> Restorable(env, rows, rows[i], snap, FullReplay(env, Init(env), rows, now))
  {
    StandStarts(env, bs, rows, snap, k, w, now);
    assert rows[0..] == rows && ByHeight(rows);
    hide LinearChain, RowsOk, IsSnapshotOf, HoldsBlock, Init, Stand, FullReplay, ByHeight, Accepted, OnAnchor, Restorable;
    AcceptedRows(env, bs, Init(env), Init(env), rows, 0, snap, k, 0, w, now);
  }

  lemma StrayFails(env: Env, rows: seq<Row>, row: Row, snap: Snapshot, full: Chain)
    requires !OnAnchor(row, snap)
    ensures !Restorable(env, rows, row, snap, full)
  {
    hide BlockWire.DecodeBlock, Rooted;
  }
}
