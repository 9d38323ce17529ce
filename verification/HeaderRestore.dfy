/** Restoring a fast-synced chain: a header blob for the prefix, stored blocks where there are any, then the tail. */
module HeaderRestore {
  import opened Genesis
  import opened Transactions
  import opened Ledger
  import opened BlockTree
  import opened TreeRuns
  import opened Restore
  import Wire
  import BlockWire

  /** The persisted header chain: the anchor it ends at, and the encoded headers of heights 1..height. */
  datatype HeaderMeta = HeaderMeta(height: nat, hash: Bytes, bytes: Bytes)

  /** `byHash.get`: the last stored row with a hash. */
  function FindRow(rows: seq<Row>, k: Bytes): Option<Row> {
    if rows == [] then None
    else if rows[|rows| - 1].hash == k then Some(rows[|rows| - 1])
    else FindRow(rows[..|rows| - 1], k)
  }

  function SeedHeaderOrFail(env: Env, c: Chain, header: Header, state: Option<State>): Restored {
    if SeedError(env, c, header).Some? then Failed else Restored(SeedBodyless(env, c, header, state))
  }

  /** One header of the blob, with the stored block preferred. */
  function HeaderStep(env: Env, c: Chain, rows: seq<Row>, hc: HeaderMeta, state: State, i: nat): Restored
    requires c.tip in c.blocks
  {
    var decoded := BlockWire.DecodeHeader(hc.bytes, i * Wire.HEADER_LEN);
    if decoded.None? || decoded.value.height != i + 1 then Failed
    else
      var h := decoded.value;
      var isAnchor := h.height == hc.height;
      if isAnchor && (env.hash(h) != hc.hash || env.stateRoot(state) != h.stateRoot) then Failed
      else SeedEither(env, c, h, FindRow(rows, env.hash(h)), if isAnchor then Some(state) else None)
  }

  function SeedEither(env: Env, c: Chain, h: Header, row: Option<Row>, state: Option<State>): Restored
    requires c.tip in c.blocks
  {
    if row.None? then SeedHeaderOrFail(env, c, h, state)
    else
      var block := BlockWire.DecodeBlock(row.value.encoded);
      if block.None? then Failed else SeedOrFail(env, c, block.value, state)
  }

  lemma HeaderStepKeepsTip(env: Env, c: Chain, rows: seq<Row>, hc: HeaderMeta, state: State, i: nat)
    requires c.tip in c.blocks
    ensures var r := HeaderStep(env, c, rows, hc, state, i); r.Restored? ==> r.chain.tip in r.chain.blocks
  {
    hide BlockWire.DecodeHeader, BlockWire.DecodeBlock, Entry, FindRow;
  }

  function SeedPrefix(env: Env, c: Chain, rows: seq<Row>, hc: HeaderMeta, state: State, i: nat): (r: Restored)
    requires c.tip in c.blocks
    ensures r.Restored? ==> r.chain.tip in r.chain.blocks
    decreases hc.height - i
  {
    if i >= hc.height then Restored(c)
    else
      HeaderStepKeepsTip(env, c, rows, hc, state, i);
      var r := HeaderStep(env, c, rows, hc, state, i);
      if r.Failed? then Failed else SeedPrefix(env, r.chain, rows, hc, state, i + 1)
  }

  /** Rows above the anchor replayed with full checks; rows at or below it are skipped. */
  function ReplayTail(env: Env, c: Chain, rows: seq<Row>, height: nat, now: int): Restored
    requires c.tip in c.blocks
    decreases |rows|
  {
    if rows == [] then Restored(c)
    else if rows[0].height <= height then ReplayTail(env, c, rows[1..], height, now)
    else
      var block := BlockWire.DecodeBlock(rows[0].encoded);
      if block.None? then Failed
      else
        var r := TailOrFail(env, c, block.value, now);
        StepKeepsTip(env, c, block.value, None, now);
        if r.Failed? then Failed else ReplayTail(env, r.chain, rows[1..], height, now)
  }

  function ReplayWithHeaderChain(env: Env, c: Chain, rows: seq<Row>, hc: HeaderMeta, state: State, now: int): Restored
    requires c.tip in c.blocks
  {
    if |hc.bytes| != hc.height * Wire.HEADER_LEN then Failed
    else
      var r := SeedPrefix(env, c, rows, hc, state, 0);
      if r.Failed? then Failed else ReplayTail(env, r.chain, rows, hc.height, now)
  }

  // ---- Linear chains ----

  /** The encoded headers `i + 1..k`. */
  function Blob(bs: seq<Block>, i: nat, k: nat): Bytes
    requires k < |bs|
    decreases k - i
  {
    if i >= k then [] else BlockWire.EncodeHeader(bs[i + 1].header) + Blob(bs, i + 1, k)
  }

  lemma {:induction false} BlobHeader(buf: Bytes, off: nat, bs: seq<Block>, i: nat, k: nat, j: nat)
    requires k < |bs| && Storable(bs) && i <= j < k && Wire.Has(buf, off, Blob(bs, i, k))
    ensures Wire.Has(buf, off + (j - i) * Wire.HEADER_LEN, BlockWire.EncodeHeader(bs[j + 1].header))
    decreases k - i
  {
    hide Wire.Has, BlockWire.EncodeHeader, BlockWire.NormalTxs, BlockWire.NormalHeader;
    var first := BlockWire.EncodeHeader(bs[i + 1].header);
    Wire.HasSplit(buf, off, first, Blob(bs, i + 1, k));
    assert BlockWire.NormalBlock(bs[i + 1]);
    BlockWire.DecodeHeaderOfEncode(buf, off, bs[i + 1].header);
    if i < j {
      BlobHeader(buf, off + Wire.HEADER_LEN, bs, i + 1, k, j);
    }
  }

  lemma {:induction false} BlobLength(bs: seq<Block>, i: nat, k: nat)
    requires k < |bs| && Storable(bs) && i <= k
    ensures |Blob(bs, i, k)| == (k - i) * Wire.HEADER_LEN
    decreases k - i
  {
    hide BlockWire.EncodeHeader, BlockWire.NormalTxs, BlockWire.NormalHeader;
    if i < k {
      var first := BlockWire.EncodeHeader(bs[i + 1].header);
      BlockWire.HasAll(first);
      assert BlockWire.NormalBlock(bs[i + 1]);
      BlockWire.DecodeHeaderOfEncode(first, 0, bs[i + 1].header);
      BlobLength(bs, i + 1, k);
    }
  }

  lemma BlobDecodes(bs: seq<Block>, k: nat, i: nat)
    requires k < |bs| && Storable(bs) && i < k
    ensures BlockWire.DecodeHeader(Blob(bs, 0, k), i * Wire.HEADER_LEN) == Some(bs[i + 1].header)
  {
    hide Wire.Has, BlockWire.EncodeHeader, BlockWire.DecodeHeader, BlockWire.NormalTxs, BlockWire.NormalHeader;
    var buf := Blob(bs, 0, k);
    BlockWire.HasAll(buf);
    BlobHeader(buf, 0, bs, 0, k, i);
    assert BlockWire.NormalBlock(bs[i + 1]);
    BlockWire.DecodeHeaderOfEncode(buf, i * Wire.HEADER_LEN, bs[i + 1].header);
  }

  /** What fast sync persists for an anchor at height `k`. */
  function MetaOf(env: Env, bs: seq<Block>, k: nat): HeaderMeta
    requires k < |bs|
  {
    HeaderMeta(k, HashAt(env, bs, k), Blob(bs, 0, k))
  }

  /** Stored rows that agree with the chain: any of its prefix blocks, and all blocks above `k` in order. */
  ghost predicate RowsAgree(env: Env, bs: seq<Block>, rows: seq<Row>, k: nat)
    requires k < |bs|
  {
    && (forall r, i :: 0 <= r < |rows| && 1 <= i <= k && rows[r].hash == HashAt(env, bs, i) ==> rows[r] == RowOf(env, bs, i))
    && Above(rows, k) == RowsOf(env, bs, k + 1, |bs|)
  }

  function Above(rows: seq<Row>, k: nat): seq<Row> {
    if rows == [] then []
    else if rows[0].height <= k then Above(rows[1..], k)
    else [rows[0]] + Above(rows[1..], k)
  }

  lemma {:induction false} FoundIsStored(rows: seq<Row>, k: Bytes)
    ensures var r := FindRow(rows, k);
      r.Some? ==> r.value.hash == k && exists i :: 0 <= i < |rows| && rows[i] == r.value
  {
    if rows != [] && rows[|rows| - 1].hash != k {
      FoundIsStored(rows[..|rows| - 1], k);
    }
  }

  /** With or without a stored block, the next header of the chain is seeded. */
  lemma SeedEitherProgress(env: Env, c: Chain, bs: seq<Block>, now: int, n: nat, row: Option<Row>, state: Option<State>)
    requires LinearChain(env, bs, now) && Holds(env, c, bs, n) && n + 1 < |bs|
    requires row.Some? ==> BlockWire.DecodeBlock(row.value.encoded) == Some(bs[n + 1])
    requires state.Some? ==> StateOnPath(env, bs[..n + 2]) == state
    ensures c.tip in c.blocks
    ensures var r := SeedEither(env, c, bs[n + 1].header, row, state);
      r.Restored? && Holds(env, r.chain, bs, n + 1) && (state.Some? ==> AtTip(env, r.chain, bs, n + 1))
  {
    hide LinearChain, Holds, StateOnPath, SeedHistorical, SeedBodyless, SeedError, BlockWire.DecodeBlock;
    SeedStep(env, c, bs, now, n, state);
  }

  lemma StoredRowDecodes(env: Env, bs: seq<Block>, rows: seq<Row>, k: nat, i: nat)
    requires Storable(bs) && k < |bs| && RowsAgree(env, bs, rows, k) && 1 <= i <= k
    ensures var row := FindRow(rows, HashAt(env, bs, i));
      row.Some? ==> BlockWire.DecodeBlock(row.value.encoded) == Some(bs[i])
  {
    hide Storable, RowOf, FindRow, BlockWire.DecodeBlock;
    FoundIsStored(rows, HashAt(env, bs, i));
    RowDecodes(env, bs, i);
  }

  lemma HeaderStepSeeds(env: Env, c: Chain, rows: seq<Row>, hc: HeaderMeta, state: State, i: nat, h: Header)
    requires c.tip in c.blocks && BlockWire.DecodeHeader(hc.bytes, i * Wire.HEADER_LEN) == Some(h) && h.height == i + 1
    requires h.height == hc.height ==> env.hash(h) == hc.hash && env.stateRoot(state) == h.stateRoot
    ensures HeaderStep(env, c, rows, hc, state, i)
         == SeedEither(env, c, h, FindRow(rows, env.hash(h)), if h.height == hc.height then Some(state) else None)
  {
    hide BlockWire.DecodeHeader, SeedEither, FindRow;
  }

  lemma PrefixStep(env: Env, c: Chain, bs: seq<Block>, now: int, rows: seq<Row>, k: nat, state: State, i: nat)
    requires LinearChain(env, bs, now) && Storable(bs) && IsStateAfter(env, state, bs, k) && k < |bs|
    requires RowsAgree(env, bs, rows, k) && Holds(env, c, bs, i) && i < k
    ensures c.tip in c.blocks
    ensures var r := HeaderStep(env, c, rows, MetaOf(env, bs, k), state, i);
      r.Restored? && Progress(env, r.chain, bs, i + 1, k)
  {
    hide LinearChain, Storable, Holds, AtTip, StateOnPath, Blob, BlockWire.DecodeHeader, BlockWire.DecodeBlock, FindRow,
      SeedEither, RowsAgree, HeaderStep;
    BlobDecodes(bs, k, i);
    LinearHeights(env, bs, now, i + 1);
    StoredRowDecodes(env, bs, rows, k, i + 1);
    SeedEitherProgress(env, c, bs, now, i, FindRow(rows, HashAt(env, bs, i + 1)), if i + 1 == k then Some(state) else None);
    HeaderStepSeeds(env, c, rows, MetaOf(env, bs, k), state, i, bs[i + 1].header);
  }

  lemma {:induction false} PrefixSeeds(env: Env, c: Chain, bs: seq<Block>, now: int, rows: seq<Row>, k: nat, state: State, i: nat)
    requires LinearChain(env, bs, now) && Storable(bs) && IsStateAfter(env, state, bs, k) && k < |bs|
    requires RowsAgree(env, bs, rows, k) && Progress(env, c, bs, i, k) && i <= k && c.tip in c.blocks
    ensures var r := SeedPrefix(env, c, rows, MetaOf(env, bs, k), state, i);
      r.Restored? && AtTip(env, r.chain, bs, k)
    decreases k - i
  {
    hide LinearChain, Storable, IsStateAfter, RowsAgree, Holds, AtTip, HeaderStep, Blob;
    assert MetaOf(env, bs, k).height == k;
    if i < k {
      var hc := MetaOf(env, bs, k);
      PrefixStep(env, c, bs, now, rows, k, state, i);
      HeaderStepKeepsTip(env, c, rows, hc, state, i);
      hide Progress;
      PrefixSeeds(env, HeaderStep(env, c, rows, hc, state, i).chain, bs, now, rows, k, state, i + 1);
    }
  }

  lemma {:induction false} TailRows(env: Env, c: Chain, bs: seq<Block>, now: int, rows: seq<Row>, k: nat, n: nat)
    requires LinearChain(env, bs, now) && Storable(bs) && AtTip(env, c, bs, n) && c.tip in c.blocks && k <= n < |bs|
    requires Above(rows, k) == RowsOf(env, bs, n + 1, |bs|)
    ensures var r := ReplayTail(env, c, rows, k, now);
      r.Restored? && AtTip(env, r.chain, bs, |bs| - 1)
    decreases |rows|
  {
    hide LinearChain, Storable, AtTip, RowOf, TailOrFail, BlockWire.DecodeBlock;
    if rows != [] {
      if rows[0].height <= k {
        TailRows(env, c, bs, now, rows[1..], k, n);
      } else {
        RowsUncons(env, bs, n + 1, |bs|);
        RowDecodes(env, bs, n + 1);
        assert rows[0] == Above(rows, k)[0] && Above(rows[1..], k) == Above(rows, k)[1..];
        hide RowsOf, Above;
        TailProgress(env, c, bs, now, n);
        StepKeepsTip(env, c, bs[n + 1], None, now);
        TailRows(env, TailOrFail(env, c, bs[n + 1], now).chain, bs, now, rows[1..], k, n + 1);
      }
    }
  }

  lemma HeaderRestoreEnds(env: Env, bs: seq<Block>, now: int, rows: seq<Row>, k: nat, state: State)
    requires LinearChain(env, bs, now) && Storable(bs) && IsStateAfter(env, state, bs, k) && k < |bs|
    requires RowsAgree(env, bs, rows, k)
    ensures var r := ReplayWithHeaderChain(env, Init(env), rows, MetaOf(env, bs, k), state, now);
      r.Restored? && AtTip(env, r.chain, bs, |bs| - 1)
  {
    hide LinearChain, Storable, StateOnPath, Holds, AtTip, Blob, Init, Progress, SeedPrefix, ReplayTail;
    BlobLength(bs, 0, k);
    InitProgress(env, bs, now, k);
    PrefixSeeds(env, Init(env), bs, now, rows, k, state, 0);
    var r := SeedPrefix(env, Init(env), rows, MetaOf(env, bs, k), state, 0);
    TailRows(env, r.chain, bs, now, rows, k, k);
  }

  /** A header blob with any stored prefix blocks, the anchor's state and the stored tail: same tip as a full replay. */
  lemma HeaderRestoreAgrees(env: Env, bs: seq<Block>, now: int, rows: seq<Row>, k: nat, state: State)
    requires LinearChain(env, bs, now) && Storable(bs) && IsStateAfter(env, state, bs, k) && k < |bs|
    requires RowsAgree(env, bs, rows, k)
    ensures var full := FullReplay(env, Init(env), RowsOf(env, bs, 1, |bs|), now);
      var r := ReplayWithHeaderChain(env, Init(env), rows, MetaOf(env, bs, k), state, now);
      Agrees(full, r, HashAt(env, bs, |bs| - 1))
  {
    hide LinearChain, Storable, IsStateAfter, FullReplay, ReplayWithHeaderChain, RowsOf, AtTip, RowsAgree, MetaOf, Init, SameTip;
    FullReplayEnds(env, bs, now);
    HeaderRestoreEnds(env, bs, now, rows, k, state);
    var full := FullReplay(env, Init(env), RowsOf(env, bs, 1, |bs|), now);
    var r := ReplayWithHeaderChain(env, Init(env), rows, MetaOf(env, bs, k), state, now);
    AtTipAgrees(env, full, r.chain, bs, now, |bs| - 1);
  }
}
