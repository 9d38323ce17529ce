/** The mutable chain object: its maps, its loops, and each operation proved equal to its specification. */
module Blockchain {
  import opened Genesis
  import opened Transactions
  import opened Ledger
  import opened Consensus
  import opened HeaderChain
  import opened BlockTree
  import opened TreeLaws
  import opened TreeRuns
  import opened SeedLaws

  /** How the canonical chain changed: newest block first in both lists. */
  datatype ReorgDelta = ReorgDelta(
    confirmed: seq<Transaction>,
    restored: seq<Transaction>,
    connected: seq<ChainBlock>,
    disconnected: seq<ChainBlock>)

  function Reverse<T>(s: seq<T>): seq<T> {
    if s == [] then [] else Reverse(s[1..]) + [s[0]]
  }

  lemma {:induction false} ReverseSnoc<T>(s: seq<T>, x: T)
    ensures Reverse(s + [x]) == [x] + Reverse(s)
  {
    if s != [] {
      ReverseSnoc(s[1..], x);
      assert (s + [x])[1..] == s[1..] + [x];
    }
  }

  /** A block and its ancestors, newest first. */
  ghost function Ancestry(env: Env, c: Chain, k: Bytes): (line: seq<ChainBlock>)
    requires Linked(env, c) && k in c.blocks
    ensures line != [] && line[0] == c.blocks[k]
    decreases HeightOf(c, k)
  {
    assert EntryOk(env, c, k);
    if HeightOf(c, k) == 0 then [c.blocks[k]]
    else [c.blocks[k]] + Ancestry(env, c, ParentOf(c, k))
  }

  function TxsOf(blocks: seq<ChainBlock>): seq<Transaction> {
    if blocks == [] then [] else blocks[0].block.transactions + TxsOf(blocks[1..])
  }

  /** The two branches split exactly: what was walked over, then a shared rest, with nothing in both lists. */
  ghost predicate Splits(oldLine: seq<ChainBlock>, newLine: seq<ChainBlock>, d: ReorgDelta) {
    && |d.disconnected| < |oldLine| && |d.connected| < |newLine|
    && oldLine[..|d.disconnected|] == d.disconnected
    && newLine[..|d.connected|] == d.connected
    && oldLine[|d.disconnected|..] == newLine[|d.connected|..]
    && (forall i, j :: 0 <= i < |d.disconnected| && 0 <= j < |d.connected| ==> d.disconnected[i].hash != d.connected[j].hash)
    && d.restored == TxsOf(d.disconnected)
    && d.confirmed == TxsOf(d.connected)
  }

  lemma AcceptKeepsBlocks(env: Env, c: Chain, block: Block, state: State)
    requires block.header.prevHash in c.blocks && c.tip in c.blocks
    ensures c.tip in Accept(env, c, block, state).blocks
  {
    var e := Entry(env, c, block, Some(state), true);
    hide Entry;
    PruneKeepsKeys(Store(c, e).(tip := e.hash), e.block.header.height - env.depth);
  }

  class Blockchain {
    const env: Env
    var blocks: map<Bytes, ChainBlock>
    var tipHash: Bytes
    var byHeight: map<nat, seq<Bytes>>
    var pruneFloor: nat
    var bodylessByHeight: map<nat, Bytes>
    var bodylessLow: nat

    ghost function Value(): Chain
      reads this
    {
      Chain(blocks, tipHash, byHeight, pruneFloor, bodylessByHeight, bodylessLow)
    }

    constructor (env: Env)
      ensures this.env == env && Value() == Init(env)
    {
      this.env := env;
      var g := env.hash(GENESIS_HEADER);
      blocks := map[g := ChainBlock(GENESIS, g, BlockWork(GENESIS_DIFFICULTY_COMPACT), Some(EMPTY_STATE), true, None)];
      byHeight := map[0 := [g]];
      tipHash, pruneFloor, bodylessByHeight, bodylessLow := g, 0, map[], 0;
    }

    /** Back to genesis only. */
    method Reset()
      modifies this
      ensures Value() == Init(env)
    {
      pruneFloor, bodylessByHeight, bodylessLow := 0, map[], 0;
      var g := env.hash(GENESIS_HEADER);
      blocks := map[g := ChainBlock(GENESIS, g, BlockWork(GENESIS_DIFFICULTY_COMPACT), Some(EMPTY_STATE), true, None)];
      byHeight, tipHash := map[0 := [g]], g;
    }

    /** Walk back from a block, newest first, then reverse. */
    method GetRecentHeaders(n: nat, from: Bytes) returns (headers: seq<Header>)
      ensures headers == RecentHeaders(Value(), n, from)
    {
      var out: seq<Header> := [];
      var cursor := from;
      while |out| < n && cursor in blocks
        invariant |out| <= n
        invariant RecentHeaders(Value(), n, from) == RecentHeaders(Value(), n - |out|, cursor) + Reverse(out)
        decreases n - |out|
      {
        var h := blocks[cursor].block.header;
        ReverseSnoc(out, h);
        out := out + [h];
        if h.height == 0 {
          break;
        }
        cursor := h.prevHash;
      }
      headers := Reverse(out);
    }

    method ForgetStatesAt(hashes: seq<Bytes>)
      modifies this`blocks
      ensures blocks == ForgetStates(old(blocks), hashes)
    {
      var i := 0;
      while i < |hashes|
        invariant 0 <= i <= |hashes|
        invariant blocks == ForgetStates(old(blocks), hashes[..i])
      {
        var k := hashes[i];
        assert hashes[..i + 1] == hashes[..i] + [k];
        if k in blocks {
          blocks := blocks[k := blocks[k].(state := None)];
        }
        i := i + 1;
      }
      assert hashes[..|hashes|] == hashes;
    }

    /** Forget the states more than the retention depth below the tip. */
    method PruneStates()
      requires tipHash in blocks
      modifies this
      ensures Value() == PruneTo(old(Value()), old(HeightOf(Value(), tipHash)) - env.depth)
    {
      var boundary := blocks[tipHash].block.header.height - env.depth;
      while pruneFloor < boundary
        invariant PruneTo(Value(), boundary) == PruneTo(old(Value()), boundary)
        decreases boundary - pruneFloor
      {
        ghost var before := Value();
        if pruneFloor in byHeight {
          ForgetStatesAt(byHeight[pruneFloor]);
          byHeight := byHeight - {pruneFloor};
        }
        pruneFloor := pruneFloor + 1;
        assert Value() == PruneStep(before);
      }
    }

    method IndexBlock(height: nat, k: Bytes)
      modifies this`byHeight
      ensures byHeight == IndexHeight(old(byHeight), height, k)
    {
      byHeight := byHeight[height := (if height in byHeight then byHeight[height] else []) + [k]];
    }

    /** Put an entry derived from its parent into the tree. */
    method StoreBlock(block: Block, state: Option<State>, hasBody: bool) returns (work: nat)
      requires block.header.prevHash in blocks
      modifies this
      ensures Value() == Store(old(Value()), Entry(env, old(Value()), block, state, hasBody))
      ensures work == Entry(env, old(Value()), block, state, hasBody).work
    {
      var h, k := block.header, env.hash(block.header);
      var parent := blocks[h.prevHash];
      work := parent.work + BlockWork(h.difficulty);
      blocks := blocks[k := ChainBlock(block, k, work, state, hasBody, InheritAnchor(parent.anchor, h))];
      IndexBlock(h.height, k);
    }

    /** Store a checked block, move the tip if it is heavier, prune behind it. */
    method AcceptBlock(block: Block, state: State)
      requires block.header.prevHash in blocks && tipHash in blocks
      modifies this
      ensures Value() == Accept(env, old(Value()), block, state)
    {
      var work := StoreBlock(block, Some(state), true);
      if work > blocks[tipHash].work {
        tipHash := env.hash(block.header);
        PruneStates();
      }
    }

    /** Full validation, storage, fork choice and pruning. The delta is what tip listeners receive. */
    method AddBlockInternal(block: Block, opts: Options, now: int) returns (r: Check, delta: Option<ReorgDelta>)
      requires Linked(env, Value())
      modifies this
      ensures r == CheckBlock(env, old(Value()), block, opts, now)
      ensures Value() == AddBlock(env, old(Value()), block, opts, now)
      ensures delta.Some? <==> tipHash != old(tipHash)
      ensures delta.Some? ==>
        && Linked(env, Value()) && old(tipHash) in blocks
        && Splits(Ancestry(env, Value(), old(tipHash)), Ancestry(env, Value(), tipHash), delta.value)
    {
      hide Linked, Splits, Ancestry;
      ghost var c := Value();
      TipStored(env, c);
      delta := None;
      r := CheckFields(block, opts, now);
      if r.Good? {
        GoodIsInsertable(env, c, block, opts, now);
        AcceptLinked(env, c, block, r.state);
        AcceptKeepsBlocks(env, c, block, r.state);
        assert block.header.prevHash in c.blocks;
        hide CheckBlock, Insertable, Accept;
        var prevTip := tipHash;
        AcceptBlock(block, r.state);
        TipStored(env, Value());
        if tipHash != prevTip {
          var d := FindReorgDelta(prevTip, tipHash);
          delta := Some(d);
        }
      }
    }

    /** The checks in their order, reading the fields. */
    method CheckFields(block: Block, opts: Options, now: int) returns (r: Check)
      ensures r == CheckBlock(env, Value(), block, opts, now)
    {
      hide NextDifficulty, MedianTimePast, ApplyTxs;
      var h := block.header;
      if env.hash(h) in blocks {
        return Known;
      }
      if h.prevHash !in blocks {
        return Bad(UnknownParent);
      }
      var parent := blocks[h.prevHash];
      if h.height != parent.block.header.height + 1 {
        return Bad(HeightMismatch);
      }
      if env.size(block) > MAX_BLOCK_BYTES {
        return Bad(TooLarge);
      }
      var lookback := GetRecentHeaders(RETARGET_LOOKBACK, h.prevHash);
      var expected := NextDifficulty(h.height, lookback, Some(h.timestamp), parent.anchor);
      if expected.None? {
        return Bad(BadHeader(MissingAnchor));
      }
      if h.difficulty != expected.value {
        return Bad(BadHeader(BadDifficulty));
      }
      if h.timestamp > now + MAX_FUTURE_TIME_S {
        return Bad(BadHeader(TooFarInFuture));
      }
      var window := GetRecentHeaders(MTP_WINDOW, h.prevHash);
      var mtp := MedianTimePast(window);
      if mtp > 0 && h.timestamp <= mtp {
        return Bad(BadHeader(NotAboveMtp));
      }
      if !opts.skipPow && !env.powOk(h) {
        return Bad(PowInvalid);
      }
      if env.txRoot(block.transactions) != h.txRoot {
        return Bad(TxRootMismatch);
      }
      if parent.state.None? {
        return Bad(ParentStateUnavailable);
      }
      var newState := new LedgerState(parent.state.value);
      if !opts.skipTxSig {
        for i := 0 to |block.transactions|
          invariant forall j :: 0 <= j < i ==> env.structureOk(block.transactions[j])
          invariant newState.Value() == parent.state.value && fresh(newState)
        {
          if !env.structureOk(block.transactions[i]) {
            return Bad(BadTxStructure);
          }
        }
      }
      var err := newState.ApplyBlockTxs(env.oracle, h.miner, block.transactions, Context(ScriptsActive(mtp), h.height, mtp));
      if err.Some? {
        return Bad(ApplyFailed);
      }
      var state := State(newState.accounts, newState.locks);
      if !opts.skipStateRoot && env.stateRoot(state) != h.stateRoot {
        return Bad(StateRootMismatch);
      }
      return Good(state);
    }

    /** Walk both tips back to their common ancestor. */
    method FindReorgDelta(oldTip: Bytes, newTip: Bytes) returns (d: ReorgDelta)
      requires Linked(env, Value()) && oldTip in blocks && newTip in blocks
      ensures Splits(Ancestry(env, Value(), oldTip), Ancestry(env, Value(), newTip), d)
    {
      hide Linked, Splits, Ancestry, Walked, Apart;
      ghost var c := Value();
      ghost var oldLine, newLine := Ancestry(env, c, oldTip), Ancestry(env, c, newTip);
      var oldBlocks: seq<ChainBlock>, newBlocks: seq<ChainBlock> := [], [];
      var a, b := oldTip, newTip;
      WalkStart(c, a);
      WalkStart(c, b);
      while a in blocks && b in blocks && blocks[a].block.header.height > blocks[b].block.header.height
        invariant a in blocks
        invariant oldBlocks != [] ==> HeightOf(c, a) >= HeightOf(c, b)
        invariant Walked(oldLine, oldBlocks, c, a)
        decreases HeightOf(c, a)
      {
        WalkStep(oldLine, oldBlocks, c, a);
        oldBlocks := oldBlocks + [blocks[a]];
        a := blocks[a].block.header.prevHash;
      }
      while a in blocks && b in blocks && blocks[b].block.header.height > blocks[a].block.header.height
        invariant b in blocks
        invariant Walked(newLine, newBlocks, c, b)
        invariant HeightOf(c, b) >= HeightOf(c, a) && (oldBlocks != [] ==> HeightOf(c, b) == HeightOf(c, a))
        invariant newBlocks == [] || oldBlocks == []
        decreases HeightOf(c, b)
      {
        WalkStep(newLine, newBlocks, c, b);
        newBlocks := newBlocks + [blocks[b]];
        b := blocks[b].block.header.prevHash;
      }
      ApartEmpty(oldBlocks, newBlocks);
      while a in blocks && b in blocks && a != b
        invariant a in blocks && b in blocks && HeightOf(c, a) == HeightOf(c, b)
        invariant Walked(oldLine, oldBlocks, c, a) && Walked(newLine, newBlocks, c, b)
        invariant Apart(oldBlocks, newBlocks)
        decreases HeightOf(c, a)
      {
        SameHeightApart(c, a, b);
        ApartStep(oldLine, oldBlocks, newLine, newBlocks, c, a, b);
        WalkStep(oldLine, oldBlocks, c, a);
        WalkStep(newLine, newBlocks, c, b);
        oldBlocks := oldBlocks + [blocks[a]];
        newBlocks := newBlocks + [blocks[b]];
        a := blocks[a].block.header.prevHash;
        b := blocks[b].block.header.prevHash;
      }
      var restored := CollectTxs(oldBlocks);
      var confirmed := CollectTxs(newBlocks);
      d := ReorgDelta(confirmed, restored, newBlocks, oldBlocks);
      WalksMeet(oldLine, newLine, c, a, d);
    }

    /** `line` is the blocks walked over, then the ancestry of the cursor; all walked blocks lie above it. */
    ghost predicate Walked(line: seq<ChainBlock>, walked: seq<ChainBlock>, c: Chain, cursor: Bytes) {
      && Linked(env, c) && cursor in c.blocks
      && line == walked + Ancestry(env, c, cursor)
      && forall i :: 0 <= i < |walked| ==> walked[i].block.header.height > HeightOf(c, cursor)
                                           && walked[i].hash in c.blocks && walked[i] == c.blocks[walked[i].hash]
    }

    ghost predicate Apart(xs: seq<ChainBlock>, ys: seq<ChainBlock>) {
      forall i, j :: 0 <= i < |xs| && 0 <= j < |ys| ==> xs[i].hash != ys[j].hash
    }

    lemma WalkStart(c: Chain, k: Bytes)
      requires Linked(env, c) && k in c.blocks
      ensures Walked(Ancestry(env, c, k), [], c, k)
    {
    }

    lemma ApartEmpty(xs: seq<ChainBlock>, ys: seq<ChainBlock>)
      requires xs == [] || ys == []
      ensures Apart(xs, ys)
    {
    }

    /** Two blocks of one height that differ both have parents. */
    lemma SameHeightApart(c: Chain, a: Bytes, b: Bytes)
      requires Linked(env, c) && a in c.blocks && b in c.blocks && a != b && HeightOf(c, a) == HeightOf(c, b)
      ensures HeightOf(c, a) > 0
    {
      assert EntryOk(env, c, a) && EntryOk(env, c, b);
    }

    lemma ApartStep(oldLine: seq<ChainBlock>, xs: seq<ChainBlock>, newLine: seq<ChainBlock>, ys: seq<ChainBlock>,
                    c: Chain, a: Bytes, b: Bytes)
      requires Walked(oldLine, xs, c, a) && Walked(newLine, ys, c, b) && Apart(xs, ys)
      requires a != b && HeightOf(c, a) == HeightOf(c, b)
      ensures Apart(xs + [c.blocks[a]], ys + [c.blocks[b]])
    {
      assert EntryOk(env, c, a) && EntryOk(env, c, b);
      hide Linked, Ancestry;
    }

    lemma WalksMeet(oldLine: seq<ChainBlock>, newLine: seq<ChainBlock>, c: Chain, k: Bytes, d: ReorgDelta)
      requires Walked(oldLine, d.disconnected, c, k) && Walked(newLine, d.connected, c, k) && Apart(d.disconnected, d.connected)
      requires d.restored == TxsOf(d.disconnected) && d.confirmed == TxsOf(d.connected)
      ensures Splits(oldLine, newLine, d)
    {
      hide Linked, TxsOf;
    }

    lemma WalkStep(line: seq<ChainBlock>, walked: seq<ChainBlock>, c: Chain, cursor: Bytes)
      requires Walked(line, walked, c, cursor)
      requires HeightOf(c, cursor) > 0 || cursor != env.hash(GENESIS_HEADER)
      ensures ParentOf(c, cursor) in c.blocks
      ensures HeightOf(c, cursor) == HeightOf(c, ParentOf(c, cursor)) + 1
      ensures Walked(line, walked + [c.blocks[cursor]], c, ParentOf(c, cursor))
    {
      assert EntryOk(env, c, cursor);
      assert walked + [c.blocks[cursor]] + Ancestry(env, c, ParentOf(c, cursor))
          == walked + ([c.blocks[cursor]] + Ancestry(env, c, ParentOf(c, cursor)));
    }

    method CollectTxs(bs: seq<ChainBlock>) returns (txs: seq<Transaction>)
      ensures txs == TxsOf(bs)
    {
      txs := [];
      for i := 0 to |bs|
        invariant TxsOf(bs) == txs + TxsOf(bs[i..])
      {
        assert bs[i..][1..] == bs[i + 1..];
        txs := txs + bs[i].block.transactions;
      }
    }

    // ---- Seeding and bodies ----

    /** Insert a stored block unvalidated; with a state it becomes the tip, without one only on work. */
    method SeedHistoricalBlock(block: Block, state: Option<State>) returns (err: Option<AddError>)
      requires tipHash in blocks
      modifies this
      ensures err == SeedError(env, old(Value()), block.header)
      ensures Value() == SeedHistorical(env, old(Value()), block, state)
    {
      var h, k := block.header, env.hash(block.header);
      if k in blocks {
        return None;
      }
      if h.prevHash !in blocks {
        return Some(UnknownParent);
      }
      if h.height != blocks[h.prevHash].block.header.height + 1 {
        return Some(HeightMismatch);
      }
      var work := StoreBlock(block, state, true);
      if state.Some? {
        tipHash := k;
      } else if work > blocks[tipHash].work {
        tipHash := k;
      }
      err := None;
    }

    /** Insert a header without its body; with a state it is the anchor and becomes the tip. */
    method SeedBodylessHeader(header: Header, state: Option<State>) returns (err: Option<AddError>)
      modifies this
      ensures err == SeedError(env, old(Value()), header)
      ensures Value() == SeedBodyless(env, old(Value()), header, state)
    {
      var k := env.hash(header);
      if k in blocks {
        return None;
      }
      if header.prevHash !in blocks {
        return Some(UnknownParent);
      }
      if header.height != blocks[header.prevHash].block.header.height + 1 {
        return Some(HeightMismatch);
      }
      var work := StoreBlock(Block(header, []), state, false);
      bodylessByHeight := bodylessByHeight[header.height := k];
      if bodylessLow == 0 || header.height < bodylessLow {
        bodylessLow := header.height;
      }
      if state.Some? {
        tipHash := k;
      }
      err := None;
    }

    /** Bind a body to a stored header by its transaction root. */
    method AttachTransactions(block: Block) returns (err: Option<AttachError>)
      modifies this
      ensures err == AttachCheck(env, old(Value()), block)
      ensures Value() == AttachBody(env, old(Value()), block)
    {
      var k := env.hash(block.header);
      if k !in blocks {
        return Some(UnknownBlock);
      }
      if blocks[k].hasBody {
        return None;
      }
      if env.size(block) > MAX_BLOCK_BYTES {
        return Some(BodyTooLarge);
      }
      if env.txRoot(block.transactions) != block.header.txRoot {
        return Some(BodyRootMismatch);
      }
      blocks := blocks[k := blocks[k].(block := block, hasBody := true)];
      bodylessByHeight := bodylessByHeight - {block.header.height};
      err := None;
    }

    /** The least height whose body is missing, or 0; the cursor only ever skips heights that have theirs. */
    method LowestBodylessHeight() returns (h: nat)
      requires CursorOk(Value())
      modifies this`bodylessLow
      ensures CursorOk(Value())
      ensures if bodylessByHeight == map[] then h == 0
              else h in bodylessByHeight && forall g :: g in bodylessByHeight ==> h <= g
    {
      if |bodylessByHeight| == 0 {
        bodylessLow := 0;
        return 0;
      }
      ghost var some :| some in bodylessByHeight;
      while bodylessLow !in bodylessByHeight
        invariant bodylessLow <= some
        invariant CursorOk(Value())
        decreases some - bodylessLow
      {
        bodylessLow := bodylessLow + 1;
      }
      h := bodylessLow;
    }

    /** The canonical chain, tip first. */
    method IterateCanonical() returns (line: seq<ChainBlock>)
      requires Linked(env, Value())
      ensures line == Ancestry(env, Value(), tipHash)
    {
      ghost var c := Value();
      line := [];
      var cursor := tipHash;
      while true
        invariant cursor in blocks
        invariant Ancestry(env, c, tipHash) == line + Ancestry(env, c, cursor)
        decreases HeightOf(c, cursor)
      {
        assert EntryOk(env, c, cursor);
        ghost var before := line;
        line := line + [blocks[cursor]];
        if blocks[cursor].block.header.height == 0 {
          break;
        }
        assert before + ([blocks[cursor]] + Ancestry(env, c, ParentOf(c, cursor))) == line + Ancestry(env, c, ParentOf(c, cursor));
        cursor := blocks[cursor].block.header.prevHash;
      }
    }
  }
}
