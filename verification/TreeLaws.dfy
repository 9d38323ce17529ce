/** What every reachable block tree satisfies, and what its cached fields stand for. */
module TreeLaws {
  import opened Genesis
  import opened Transactions
  import opened Consensus
  import opened HeaderChain
  import opened BlockTree

  // ---- Structure kept by every operation ----

  /** An entry sits one above its parent, with work and anchor derived from the parent's. */
  ghost predicate EntryOk(env: Env, c: Chain, k: Bytes)
    requires k in c.blocks
  {
    var e := c.blocks[k];
    && e.hash == k == env.hash(e.block.header)
    && (k == env.hash(GENESIS_HEADER) ==>
          e.block == GENESIS && e.work == BlockWork(GENESIS_DIFFICULTY_COMPACT) && e.anchor == None)
    && (k != env.hash(GENESIS_HEADER) ==>
          && e.block.header.prevHash in c.blocks
          && var p := c.blocks[e.block.header.prevHash];
          && e.block.header.height == p.block.header.height + 1
          && e.work == p.work + BlockWork(e.block.header.difficulty)
          && e.anchor == InheritAnchor(p.anchor, e.block.header))
  }

  ghost predicate Linked(env: Env, c: Chain) {
    && env.hash(GENESIS_HEADER) in c.blocks
    && c.tip in c.blocks
    && forall k {:trigger EntryOk(env, c, k)} :: k in c.blocks ==> EntryOk(env, c, k)
  }

  /** The height index lists only blocks of that height, and all of them from the prune floor up. */
  ghost predicate Indexed(c: Chain) {
    && (forall h, i :: h in c.byHeight && 0 <= i < |c.byHeight[h]| ==>
          c.byHeight[h][i] in c.blocks && HeightOf(c, c.byHeight[h][i]) == h)
    && (forall k :: k in c.blocks && HeightOf(c, k) >= c.pruneFloor ==>
          HeightOf(c, k) in c.byHeight && k in c.byHeight[HeightOf(c, k)])
  }

  /** The blocks from genesis to `k`. */
  ghost function Path(env: Env, c: Chain, k: Bytes): (path: seq<Block>)
    requires Linked(env, c) && k in c.blocks
    ensures |path| == HeightOf(c, k) + 1 && path[|path| - 1] == c.blocks[k].block && path[0] == GENESIS
    decreases HeightOf(c, k)
  {
    assert EntryOk(env, c, k);
    if HeightOf(c, k) == 0 then [c.blocks[k].block]
    else
      assert k != env.hash(GENESIS_HEADER);
      Path(env, c, ParentOf(c, k)) + [c.blocks[k].block]
  }

  ghost function Headers(path: seq<Block>): (hs: seq<Header>)
    ensures |hs| == |path|
  {
    seq(|path|, i requires 0 <= i < |path| => path[i].header)
  }

  ghost function Branch(env: Env, c: Chain, k: Bytes): (hs: seq<Header>)
    requires Linked(env, c) && k in c.blocks
    ensures |hs| == HeightOf(c, k) + 1 && hs[0] == GENESIS_HEADER && hs[|hs| - 1] == c.blocks[k].block.header
  {
    Headers(Path(env, c, k))
  }

  lemma BranchSnoc(env: Env, c: Chain, k: Bytes)
    requires Linked(env, c) && k in c.blocks && HeightOf(c, k) > 0
    ensures k != env.hash(GENESIS_HEADER) && ParentOf(c, k) in c.blocks
    ensures Path(env, c, k) == Path(env, c, ParentOf(c, k)) + [c.blocks[k].block]
    ensures Branch(env, c, k) == Branch(env, c, ParentOf(c, k)) + [c.blocks[k].block.header]
  {
    assert EntryOk(env, c, k);
  }

  lemma RecentStep(c: Chain, n: nat, k: Bytes)
    requires n > 0 && k in c.blocks && HeightOf(c, k) > 0
    ensures RecentHeaders(c, n, k) == RecentHeaders(c, n - 1, ParentOf(c, k)) + [c.blocks[k].block.header]
  {
  }

  /** The bounded walk back collects the end of the branch. */
  lemma {:induction false} RecentIsLast(env: Env, c: Chain, n: nat, k: Bytes)
    requires Linked(env, c) && k in c.blocks
    ensures RecentHeaders(c, n, k) == Last(Branch(env, c, k), n)
    decreases n
  {
    hide Linked;
    if n == 0 {
      hide Branch;
    } else if HeightOf(c, k) == 0 {
      assert Branch(env, c, k) == [c.blocks[k].block.header];
      hide Branch;
    } else {
      RecentStep(c, n, k);
      BranchSnoc(env, c, k);
      hide Branch, RecentHeaders, Last;
      RecentIsLast(env, c, n - 1, ParentOf(c, k));
      LastSnoc(Branch(env, c, ParentOf(c, k)), c.blocks[k].block.header, n);
    }
  }

  lemma LastSnoc<T>(s: seq<T>, x: T, n: nat)
    requires n > 0
    ensures Last(s + [x], n) == Last(s, n - 1) + [x]
  {
  }

  /** The cached fork-#3 anchor is the block met by walking back to the anchor height, or nothing below it. */
  lemma {:induction false} AnchorIsWalkedBack(env: Env, c: Chain, k: Bytes)
    requires Linked(env, c) && k in c.blocks
    ensures c.blocks[k].anchor == AnchorOf(Branch(env, c, k))
    decreases HeightOf(c, k)
  {
    assert EntryOk(env, c, k);
    if HeightOf(c, k) > 0 {
      BranchSnoc(env, c, k);
      AnchorIsWalkedBack(env, c, ParentOf(c, k));
    }
  }

  /** Checking a header against the tree is checking it against its branch. */
  lemma TreeCheckIsBranchCheck(env: Env, c: Chain, h: Header, now: int)
    requires Linked(env, c) && h.prevHash in c.blocks && h.height == HeightOf(c, h.prevHash) + 1
    ensures CheckAgainstTree(c, h, now) == CheckHeader(Branch(env, c, h.prevHash), h, now)
  {
    RecentIsLast(env, c, RETARGET_LOOKBACK, h.prevHash);
    RecentIsLast(env, c, MTP_WINDOW, h.prevHash);
    AnchorIsWalkedBack(env, c, h.prevHash);
    hide NextDifficulty, MedianTimePast, Linked, Branch, RecentHeaders;
  }

  // ---- Insertion ----

  ghost predicate Insertable(env: Env, c: Chain, e: ChainBlock) {
    && e.hash == env.hash(e.block.header) && e.hash !in c.blocks
    && e.block.header.prevHash in c.blocks
    && var p := c.blocks[e.block.header.prevHash];
    && e.block.header.height == p.block.header.height + 1
    && e.work == p.work + BlockWork(e.block.header.difficulty)
    && e.anchor == InheritAnchor(p.anchor, e.block.header)
  }

  lemma InsertLinked(env: Env, c: Chain, e: ChainBlock)
    requires Linked(env, c) && Insertable(env, c, e)
    ensures Linked(env, Store(c, e))
  {
    var c1 := Store(c, e);
    hide BlockWork;
    forall k | k in c1.blocks
      ensures EntryOk(env, c1, k)
    {
      if k != e.hash {
        assert EntryOk(env, c, k);
      }
    }
  }

  lemma InsertIndexed(env: Env, c: Chain, e: ChainBlock)
    requires Indexed(c) && e.hash !in c.blocks
    ensures Indexed(Store(c, e))
  {
    var c1 := Store(c, e);
    var h := e.block.header.height;
    forall g, i | g in c1.byHeight && 0 <= i < |c1.byHeight[g]|
      ensures c1.byHeight[g][i] in c1.blocks && HeightOf(c1, c1.byHeight[g][i]) == g
    {
      if g != h || i < |c1.byHeight[h]| - 1 {
        assert c1.byHeight[g][i] == c.byHeight[g][i];
      }
    }
    forall k | k in c1.blocks && HeightOf(c1, k) >= c1.pruneFloor
      ensures HeightOf(c1, k) in c1.byHeight && k in c1.byHeight[HeightOf(c1, k)]
    {
      if k == e.hash {
        assert c1.byHeight[h][|c1.byHeight[h]| - 1] == k;
      } else {
        assert HeightOf(c, k) in c.byHeight && k in c.byHeight[HeightOf(c, k)];
      }
    }
  }

  /** Two trees that agree on a block's header and all below it agree on its path's headers. */
  lemma {:induction false} BranchStable(env: Env, c: Chain, c': Chain, k: Bytes)
    requires Linked(env, c) && Linked(env, c') && k in c.blocks
    requires forall j :: j in c.blocks ==> j in c'.blocks && c'.blocks[j].block == c.blocks[j].block
    ensures Path(env, c', k) == Path(env, c, k) && Branch(env, c', k) == Branch(env, c, k)
    decreases HeightOf(c, k)
  {
    if HeightOf(c, k) > 0 {
      BranchSnoc(env, c, k);
      BranchSnoc(env, c', k);
      hide Linked;
      BranchStable(env, c, c', ParentOf(c, k));
    }
  }
}
