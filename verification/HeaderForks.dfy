/** Restoring from a header blob never loses the tip's state, whatever forks are stored above the anchor. */
module HeaderForks {
  import opened Genesis
  import opened Transactions
  import opened Ledger
  import opened Consensus
  import opened BlockTree
  import opened TreeLaws
  import opened TreeRuns
  import opened SeedLaws
  import opened Restore
  import opened HeaderRestore
  import opened ForkRestore
  import BlockWire
  import Wire

  /** The hash of the `i`-th header of the blob; nothing if it does not decode. */
  function KeyAt(env: Env, hc: HeaderMeta, i: nat): Bytes {
    var h := BlockWire.DecodeHeader(hc.bytes, i * Wire.HEADER_LEN);
    if h.Some? then env.hash(h.value) else []
  }

  /** The headers of the blob and genesis hash apart. */
  ghost predicate BlobApart(env: Env, hc: HeaderMeta) {
    && (forall i :: 0 <= i < hc.height ==> KeyAt(env, hc, i) != env.hash(GENESIS_HEADER))
    && (forall i, j :: 0 <= i < j < hc.height ==> KeyAt(env, hc, i) != KeyAt(env, hc, j))
  }

  /** Rows are stored under the hash of the block in them. */
  ghost predicate RowsTrue(env: Env, rows: seq<Row>) {
    forall i :: 0 <= i < |rows| && BlockWire.DecodeBlock(rows[i].encoded).Some? ==> KeyOf(env, rows[i]) == rows[i].hash
  }

  ghost predicate Live(env: Env, c: Chain) {
    Linked(env, c) && Indexed(c) && c.tip in c.blocks && c.blocks[c.tip].state.Some?
  }

  lemma SeededBlock(env: Env, c: Chain, block: Block, state: Option<State>)
    requires Linked(env, c) && Indexed(c) && env.hash(block.header) !in c.blocks && SeedError(env, c, block.header).None?
    ensures var c1 := SeedHistorical(env, c, block, state);
      && c.tip in c.blocks && Linked(env, c1) && Indexed(c1) && c1.blocks.Keys == c.blocks.Keys + {env.hash(block.header)}
      && (state.Some? ==> Live(env, c1))
  {
    TipStored(env, c);
    SeedHistoricalLinked(env, c, block, state);
    var e := Entry(env, c, block, state, true);
    InsertIndexed(env, c, e);
    hide Linked, Indexed, BlockWork, InheritAnchor;
    IndexedIgnoresTip(Store(c, e), e.hash);
  }

  lemma SeededHeader(env: Env, c: Chain, header: Header, state: Option<State>)
    requires Linked(env, c) && Indexed(c) && env.hash(header) !in c.blocks && SeedError(env, c, header).None?
    ensures var c1 := SeedBodyless(env, c, header, state);
      && Linked(env, c1) && Indexed(c1) && c1.blocks.Keys == c.blocks.Keys + {env.hash(header)}
      && (state.Some? ==> Live(env, c1))
  {
    TipStored(env, c);
    SeedBodylessLinked(env, c, header, state);
    var e := Entry(env, c, Block(header, []), state, false);
    InsertIndexed(env, c, e);
    hide Linked, BlockWork, InheritAnchor;
    IndexedLikewise(Store(c, e), SeedBodyless(env, c, header, state));
    hide Indexed;
  }

  lemma IndexedLikewise(c: Chain, c': Chain)
    requires Indexed(c) && c'.blocks == c.blocks && c'.byHeight == c.byHeight && c'.pruneFloor == c.pruneFloor
    ensures Indexed(c')
  {
    assert forall k :: k in c.blocks ==> HeightOf(c', k) == HeightOf(c, k);
  }

  /** One header of the blob, or the stored block under its hash. */
  lemma StepLive(env: Env, c: Chain, rows: seq<Row>, hc: HeaderMeta, state: State, i: nat)
    requires Linked(env, c) && Indexed(c) && c.tip in c.blocks && RowsTrue(env, rows)
    requires KeyAt(env, hc, i) !in c.blocks && HeaderStep(env, c, rows, hc, state, i).Restored?
    ensures var c1 := HeaderStep(env, c, rows, hc, state, i).chain;
      && Linked(env, c1) && Indexed(c1) && c1.tip in c1.blocks && c1.blocks.Keys == c.blocks.Keys + {KeyAt(env, hc, i)}
      && (i + 1 == hc.height ==> Live(env, c1))
  {
    HeaderStepKeepsTip(env, c, rows, hc, state, i);
    HeaderStepIs(env, c, rows, hc, state, i);
    var h := BlockWire.DecodeHeader(hc.bytes, i * Wire.HEADER_LEN).value;
    hide BlockWire.DecodeHeader, BlockWire.DecodeBlock, Linked, Indexed, SeedHistorical, SeedBodyless, SeedError, HeaderStep, Live, FindRow, RowsTrue;
    var row, st := FindRow(rows, env.hash(h)), if i + 1 == hc.height then Some(state) else None;
    if row.None? {
      SeededHeader(env, c, h, st);
    } else {
      FoundTrue(env, rows, env.hash(h));
      SeededBlock(env, c, BlockWire.DecodeBlock(row.value.encoded).value, st);
    }
  }

  lemma FoundTrue(env: Env, rows: seq<Row>, k: Bytes)
    requires RowsTrue(env, rows) && FindRow(rows, k).Some? && BlockWire.DecodeBlock(FindRow(rows, k).value.encoded).Some?
    ensures env.hash(BlockWire.DecodeBlock(FindRow(rows, k).value.encoded).value.header) == k
  {
    hide BlockWire.DecodeBlock, FindRow;
    FoundIsStored(rows, k);
  }

  lemma HeaderStepIs(env: Env, c: Chain, rows: seq<Row>, hc: HeaderMeta, state: State, i: nat)
    requires c.tip in c.blocks && HeaderStep(env, c, rows, hc, state, i).Restored?
    ensures BlockWire.DecodeHeader(hc.bytes, i * Wire.HEADER_LEN).Some?
    ensures var h := BlockWire.DecodeHeader(hc.bytes, i * Wire.HEADER_LEN).value;
      HeaderStep(env, c, rows, hc, state, i)
      == SeedEither(env, c, h, FindRow(rows, env.hash(h)), if i + 1 == hc.height then Some(state) else None)
  {
    hide BlockWire.DecodeHeader, SeedEither, FindRow;
  }

  lemma {:induction false} PrefixLive(env: Env, c: Chain, rows: seq<Row>, hc: HeaderMeta, state: State, i: nat)
    requires Linked(env, c) && Indexed(c) && c.tip in c.blocks && RowsTrue(env, rows) && BlobApart(env, hc) && i <= hc.height
    requires forall j :: i <= j < hc.height ==> KeyAt(env, hc, j) !in c.blocks
    requires i == hc.height ==> Live(env, c)
    requires SeedPrefix(env, c, rows, hc, state, i).Restored?
    ensures Live(env, SeedPrefix(env, c, rows, hc, state, i).chain)
    decreases hc.height - i
  {
    hide Linked, Indexed, RowsTrue, HeaderStep, KeyAt, Live;
    if i < hc.height {
      HeaderStepKeepsTip(env, c, rows, hc, state, i);
      StepLive(env, c, rows, hc, state, i);
      PrefixLive(env, HeaderStep(env, c, rows, hc, state, i).chain, rows, hc, state, i + 1);
    }
  }

  lemma TailLive(env: Env, c: Chain, block: Block, now: int)
    requires Live(env, c) && TailOrFail(env, c, block, now).Restored?
    ensures Live(env, TailOrFail(env, c, block, now).chain)
  {
    hide Linked, Indexed, CheckBlock, Accept, Insertable;
    var r := CheckBlock(env, c, block, STORED, now);
    if r.Good? {
      GoodPrevStored(env, c, block, STORED, now);
      GoodIsInsertable(env, c, block, STORED, now);
      AcceptLive(env, c, block, r.state);
    }
  }

  lemma IsFresh(env: Env, c: Chain, e: ChainBlock)
    requires Insertable(env, c, e)
    ensures e.hash !in c.blocks
  {
    hide BlockWork, InheritAnchor;
  }

  lemma AcceptLive(env: Env, c: Chain, block: Block, state: State)
    requires Live(env, c) && block.header.prevHash in c.blocks && Insertable(env, c, Entry(env, c, block, Some(state), true))
    ensures Live(env, Accept(env, c, block, state))
  {
    LiveParts(env, c);
    hide Linked, Indexed, Entry, PruneTo, Insertable;
    AcceptLinked(env, c, block, state);
    EntryFields(env, c, block, state);
    var e := Entry(env, c, block, Some(state), true);
    IsFresh(env, c, e);
    InsertIndexed(env, c, e);
    assert Store(c, e).blocks == c.blocks[e.hash := e];
    hide Store;
    if e.work > c.blocks[c.tip].work {
      IndexedIgnoresTip(Store(c, e), e.hash);
      PruneExact(Store(c, e).(tip := e.hash), e.block.header.height - env.depth);
    }
  }

  lemma LiveParts(env: Env, c: Chain)
    requires Live(env, c)
    ensures Linked(env, c) && Indexed(c) && c.tip in c.blocks && c.blocks[c.tip].state.Some?
  {
    hide Linked, Indexed;
  }

  lemma {:induction false} RestLive(env: Env, c: Chain, rows: seq<Row>, height: nat, now: int)
    requires Live(env, c) && c.tip in c.blocks && ReplayTail(env, c, rows, height, now).Restored?
    ensures Live(env, ReplayTail(env, c, rows, height, now).chain)
    decreases |rows|
  {
    hide Live, TailOrFail, BlockWire.DecodeBlock;
    if rows != [] {
      if rows[0].height <= height {
        RestLive(env, c, rows[1..], height, now);
      } else {
        var block := BlockWire.DecodeBlock(rows[0].encoded).value;
        StepKeepsTip(env, c, block, None, now);
        TailLive(env, c, block, now);
        RestLive(env, TailOrFail(env, c, block, now).chain, rows[1..], height, now);
      }
    }
  }

  /** Whatever is stored above the anchor, a restore from a header blob that succeeds ends on a tip with its state. */
  lemma HeaderRestoreIsLive(env: Env, rows: seq<Row>, hc: HeaderMeta, state: State, now: int)
    requires RowsTrue(env, rows) && BlobApart(env, hc)
    requires ReplayWithHeaderChain(env, Init(env), rows, hc, state, now).Restored?
    ensures var c := ReplayWithHeaderChain(env, Init(env), rows, hc, state, now).chain;
      c.tip in c.blocks && c.blocks[c.tip].state.Some?
  {
    InitInv(env);
    assert Live(env, Init(env)) && Init(env).blocks.Keys == {env.hash(GENESIS_HEADER)};
    hide Inv, Init, SeedPrefix, ReplayTail, RowsTrue, KeyAt, Linked, Indexed;
    PrefixLive(env, Init(env), rows, hc, state, 0);
    RestLive(env, SeedPrefix(env, Init(env), rows, hc, state, 0).chain, rows, hc.height, now);
  }
}
