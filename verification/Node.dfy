/** Restoring the chain object at start-up: the three replay loops (src/node.ts, src/net/fastSync.ts). */
module Node {
  import opened Genesis
  import opened Transactions
  import opened Ledger
  import opened BlockTree
  import opened TreeLaws
  import opened TreeRuns
  import opened SeedLaws
  import opened Restore
  import opened HeaderRestore
  import opened Blockchain
  import Wire
  import BlockWire

  /** The slow path: every stored row through full checks, errors and undecodable rows skipped. */
  method ReplayAll(chain: Blockchain, rows: seq<Row>, now: int)
    requires Linked(chain.env, chain.Value())
    modifies chain
    ensures Linked(chain.env, chain.Value())
    ensures chain.Value() == FullReplay(chain.env, old(chain.Value()), rows, now)
  {
    hide Linked, AddBlock, CheckBlock, Splits, BlockWire.DecodeBlock;
    TipStored(chain.env, chain.Value());
    for i := 0 to |rows|
      invariant Linked(chain.env, chain.Value()) && chain.tipHash in chain.blocks
      invariant FullReplay(chain.env, chain.Value(), rows[i..], now) == FullReplay(chain.env, old(chain.Value()), rows, now)
    {
      assert rows[i..][1..] == rows[i + 1..];
      if rows[i].height != 0 {
        var block := BlockWire.DecodeBlockLoop(rows[i].encoded);
        if block.Some? {
          AddLinked(chain.env, chain.Value(), block.value, STORED, now);
          var r, _ := chain.AddBlockInternal(block.value, STORED, now);
          TipStored(chain.env, chain.Value());
        }
      }
    }
  }

  /** Seed the prefix, seed the anchor with its state, replay the tail; `false` stands for a thrown error. */
  method RestoreFromSnapshot(chain: Blockchain, rows: seq<Row>, snap: Snapshot, now: int) returns (ok: bool)
    requires Linked(chain.env, chain.Value())
    modifies chain
    ensures var r := ReplayWithSnapshot(chain.env, old(chain.Value()), rows, snap, false, now);
      ok == r.Restored? && (ok ==> chain.Value() == r.chain)
  {
    hide Linked, SnapshotStep, IsAnchorRow;
    TipStored(chain.env, chain.Value());
    var anchorSeeded := false;
    for i := 0 to |rows|
      invariant Linked(chain.env, chain.Value()) && chain.tipHash in chain.blocks
      invariant ReplayWithSnapshot(chain.env, chain.Value(), rows[i..], snap, anchorSeeded, now)
             == ReplayWithSnapshot(chain.env, old(chain.Value()), rows, snap, false, now)
    {
      assert rows[i..][1..] == rows[i + 1..];
      if rows[i].height != 0 {
        SnapshotStepKeepsTip(chain.env, chain.Value(), rows[i], snap, now);
        var stepOk := RestoreRow(chain, rows[i], snap, now);
        if !stepOk {
          return false;
        }
        TipStored(chain.env, chain.Value());
        var isAnchor := IsAnchorRow(chain.env, rows[i], snap);
        anchorSeeded := anchorSeeded || isAnchor;
      }
    }
    ok := anchorSeeded;
  }

  method RestoreRow(chain: Blockchain, row: Row, snap: Snapshot, now: int) returns (ok: bool)
    requires Linked(chain.env, chain.Value()) && chain.tipHash in chain.blocks
    modifies chain
    ensures var r := SnapshotStep(chain.env, old(chain.Value()), row, snap, now);
      ok == r.Restored? && (ok ==> chain.Value() == r.chain && Linked(chain.env, chain.Value()))
  {
    hide Linked, AddBlock, CheckBlock, SeedHistorical, SeedError, Splits, BlockWire.DecodeBlock;
    var decoded := BlockWire.DecodeBlockLoop(row.encoded);
    if decoded.None? {
      return false;
    }
    var block := decoded.value;
    if row.height < snap.height {
      ok := Seed(chain, block, None);
    } else if row.height == snap.height {
      if chain.env.hash(block.header) == snap.hash {
        if chain.env.stateRoot(snap.state) != block.header.stateRoot {
          return false;
        }
        ok := Seed(chain, block, Some(snap.state));
      } else {
        ok := Seed(chain, block, None);
      }
    } else {
      ok := Tail(chain, block, now);
    }
  }

  method Seed(chain: Blockchain, block: Block, state: Option<State>) returns (ok: bool)
    requires Linked(chain.env, chain.Value()) && chain.tipHash in chain.blocks
    modifies chain
    ensures Linked(chain.env, chain.Value())
    ensures var r := SeedOrFail(chain.env, old(chain.Value()), block, state);
      ok == r.Restored? && (ok ==> chain.Value() == r.chain)
  {
    hide Linked;
    SeedHistoricalLinked(chain.env, chain.Value(), block, state);
    hide SeedHistorical, SeedError;
    var err := chain.SeedHistoricalBlock(block, state);
    ok := err.None?;
  }

  method Tail(chain: Blockchain, block: Block, now: int) returns (ok: bool)
    requires Linked(chain.env, chain.Value()) && chain.tipHash in chain.blocks
    modifies chain
    ensures Linked(chain.env, chain.Value())
    ensures var r := TailOrFail(chain.env, old(chain.Value()), block, now);
      ok == r.Restored? && (ok ==> chain.Value() == r.chain)
  {
    hide Linked, AddBlock, CheckBlock, Splits;
    AddLinked(chain.env, chain.Value(), block, STORED, now);
    var r, _ := chain.AddBlockInternal(block, STORED, now);
    ok := !r.Bad?;
  }

  /** `byHash`: later rows overwrite earlier ones. */
  method IndexRows(rows: seq<Row>) returns (byHash: map<Bytes, Row>)
    ensures forall k :: FindRow(rows, k) == if k in byHash then Some(byHash[k]) else None
  {
    byHash := map[];
    for i := 0 to |rows|
      invariant forall k :: FindRow(rows[..i], k) == if k in byHash then Some(byHash[k]) else None
    {
      assert rows[..i + 1][..i] == rows[..i] && rows[..i + 1][i] == rows[i];
      byHash := byHash[rows[i].hash := rows[i]];
    }
    assert rows[..|rows|] == rows;
  }

  /** Rebuild a fast-synced chain: the header blob with stored blocks preferred, the anchor state, the stored tail. */
  method RestoreFromHeaders(chain: Blockchain, rows: seq<Row>, hc: HeaderMeta, state: State, now: int) returns (ok: bool)
    requires Linked(chain.env, chain.Value())
    modifies chain
    ensures var r := ReplayWithHeaderChain(chain.env, old(chain.Value()), rows, hc, state, now);
      ok == r.Restored? && (ok ==> chain.Value() == r.chain)
  {
    hide Linked, HeaderStep, TailOrFail, BlockWire.DecodeBlock, FindRow;
    TipStored(chain.env, chain.Value());
    if |hc.bytes| != hc.height * Wire.HEADER_LEN {
      return false;
    }
    var byHash := IndexRows(rows);
    ghost var start := chain.Value();
    var i := 0;
    while i < hc.height
      invariant i <= hc.height
      invariant Linked(chain.env, chain.Value()) && chain.tipHash in chain.blocks
      invariant SeedPrefix(chain.env, chain.Value(), rows, hc, state, i) == SeedPrefix(chain.env, start, rows, hc, state, 0)
    {
      HeaderStepKeepsTip(chain.env, chain.Value(), rows, hc, state, i);
      var stepOk := RestoreHeader(chain, rows, byHash, hc, state, i);
      if !stepOk {
        return false;
      }
      TipStored(chain.env, chain.Value());
      i := i + 1;
    }
    ghost var seeded := chain.Value();
    for j := 0 to |rows|
      invariant Linked(chain.env, chain.Value()) && chain.tipHash in chain.blocks
      invariant ReplayTail(chain.env, chain.Value(), rows[j..], hc.height, now) == ReplayTail(chain.env, seeded, rows, hc.height, now)
    {
      assert rows[j..][1..] == rows[j + 1..];
      if rows[j].height > hc.height {
        var block := BlockWire.DecodeBlockLoop(rows[j].encoded);
        if block.None? {
          return false;
        }
        StepKeepsTip(chain.env, chain.Value(), block.value, None, now);
        var tailOk := Tail(chain, block.value, now);
        if !tailOk {
          return false;
        }
        TipStored(chain.env, chain.Value());
      }
    }
    ok := true;
  }

  method RestoreHeader(chain: Blockchain, ghost rows: seq<Row>, byHash: map<Bytes, Row>, hc: HeaderMeta, state: State, i: nat)
    returns (ok: bool)
    requires Linked(chain.env, chain.Value()) && chain.tipHash in chain.blocks
    requires forall k :: FindRow(rows, k) == if k in byHash then Some(byHash[k]) else None
    modifies chain
    ensures var r := HeaderStep(chain.env, old(chain.Value()), rows, hc, state, i);
      ok == r.Restored? && (ok ==> chain.Value() == r.chain && Linked(chain.env, chain.Value()))
  {
    hide Linked, SeedBodyless, SeedError, SeedOrFail, BlockWire.DecodeBlock, BlockWire.DecodeHeader, FindRow;
    var decoded := BlockWire.DecodeHeader(hc.bytes, i * Wire.HEADER_LEN);
    if decoded.None? {
      return false;
    }
    var h := decoded.value;
    if h.height != i + 1 {
      return false;
    }
    var isAnchor := h.height == hc.height;
    if isAnchor {
      if chain.env.hash(h) != hc.hash {
        return false;
      }
      if chain.env.stateRoot(state) != h.stateRoot {
        return false;
      }
    }
    var st := if isAnchor then Some(state) else None;
    var k := chain.env.hash(h);
    if k in byHash {
      var block := BlockWire.DecodeBlockLoop(byHash[k].encoded);
      if block.None? {
        return false;
      }
      ok := Seed(chain, block.value, st);
    } else {
      SeedBodylessLinked(chain.env, chain.Value(), h, st);
      var err := chain.SeedBodylessHeader(h, st);
      ok := err.None?;
    }
  }
}
