/** What a start-up restore has checked when it succeeds (src/node.ts). */
module RestoreChecks {
  import opened Genesis
  import opened Ledger
  import opened Transactions
  import opened BlockTree
  import opened TreeRuns
  import opened Restore
  import opened HeaderRestore
  import Wire
  import BlockWire

  // ---- From a snapshot ----

  /** The anchor's header commits to the snapshot's state. */
  ghost predicate Commits(env: Env, row: Row, snap: Snapshot) {
    var b := BlockWire.DecodeBlock(row.encoded);
    b.Some? && env.stateRoot(snap.state) == b.value.header.stateRoot
  }

  lemma StepCommits(env: Env, c: Chain, row: Row, snap: Snapshot, now: int)
    requires c.tip in c.blocks && SnapshotStep(env, c, row, snap, now).Restored?
    ensures BlockWire.DecodeBlock(row.encoded).Some?
    ensures IsAnchorRow(env, row, snap) ==> Commits(env, row, snap)
  {
    hide BlockWire.DecodeBlock, SeedOrFail, TailOrFail;
  }

  /**
   * A snapshot restore that succeeds has decoded every row above genesis, has met its anchor, and the anchor's
   * header commits to the state the snapshot holds.
   */
  lemma {:induction false} SnapshotIsChecked(env: Env, c: Chain, rows: seq<Row>, snap: Snapshot, seeded: bool, now: int)
    requires c.tip in c.blocks && ReplayWithSnapshot(env, c, rows, snap, seeded, now).Restored?
    ensures forall i :: 0 <= i < |rows| && rows[i].height > 0 ==> BlockWire.DecodeBlock(rows[i].encoded).Some?
    ensures forall i :: 0 <= i < |rows| && rows[i].height > 0 && IsAnchorRow(env, rows[i], snap) ==> Commits(env, rows[i], snap)
    ensures seeded || exists i :: 0 <= i < |rows| && rows[i].height > 0 && IsAnchorRow(env, rows[i], snap)
    decreases |rows|
  {
    hide BlockWire.DecodeBlock, SnapshotStep, IsAnchorRow, Commits;
    if rows != [] {
      var rest := rows[1..];
      assert forall i :: 0 < i < |rows| ==> rows[i] == rest[i - 1];
      if rows[0].height == 0 {
        SnapshotIsChecked(env, c, rest, snap, seeded, now);
        Found(env, rows, rest, snap);
      } else {
        StepCommits(env, c, rows[0], snap, now);
        SnapshotStepKeepsTip(env, c, rows[0], snap, now);
        SnapshotIsChecked(env, SnapshotStep(env, c, rows[0], snap, now).chain, rest, snap, seeded || IsAnchorRow(env, rows[0], snap), now);
        Found(env, rows, rest, snap);
      }
    }
  }

  lemma Found(env: Env, rows: seq<Row>, rest: seq<Row>, snap: Snapshot)
    requires rows != [] && rest == rows[1..]
    ensures (exists i :: 0 <= i < |rest| && rest[i].height > 0 && IsAnchorRow(env, rest[i], snap)) ==>
      exists i :: 0 <= i < |rows| && rows[i].height > 0 && IsAnchorRow(env, rows[i], snap)
  {
    hide IsAnchorRow;
    if i :| 0 <= i < |rest| && rest[i].height > 0 && IsAnchorRow(env, rest[i], snap) {
      assert rows[i + 1] == rest[i];
    }
  }

  // ---- From a header blob ----

  /** The stored block for a hash is the last row under it. */
  lemma {:induction false} LastRowWins(rows: seq<Row>, k: Bytes)
    ensures FindRow(rows, k).None? <==> forall i :: 0 <= i < |rows| ==> rows[i].hash != k
    ensures FindRow(rows, k).Some? ==>
      exists i :: 0 <= i < |rows| && rows[i] == FindRow(rows, k).value && rows[i].hash == k
                  && forall j :: i < j < |rows| ==> rows[j].hash != k
  {
    if rows != [] && rows[|rows| - 1].hash != k {
      var front := rows[..|rows| - 1];
      LastRowWins(front, k);
      assert forall i :: 0 <= i < |front| ==> front[i] == rows[i];
      if FindRow(front, k).Some? {
        var i :| 0 <= i < |front| && front[i] == FindRow(front, k).value && front[i].hash == k
                 && forall j :: i < j < |front| ==> front[j].hash != k;
        assert rows[i] == front[i];
      }
    }
  }

  /** Header `i` of the blob is for height `i + 1`; the last is the anchor and commits to the state. */
  ghost predicate BlobHeaderOk(env: Env, hc: HeaderMeta, state: State, i: nat) {
    var h := BlockWire.DecodeHeader(hc.bytes, i * 148);
    && h.Some? && h.value.height == i + 1
    && (i + 1 == hc.height ==> env.hash(h.value) == hc.hash && env.stateRoot(state) == h.value.stateRoot)
  }

  lemma HeaderStepChecks(env: Env, c: Chain, rows: seq<Row>, hc: HeaderMeta, state: State, i: nat)
    requires c.tip in c.blocks && HeaderStep(env, c, rows, hc, state, i).Restored?
    ensures BlobHeaderOk(env, hc, state, i)
  {
    hide BlockWire.DecodeHeader, SeedEither, FindRow;
  }

  lemma {:induction false} PrefixChecks(env: Env, c: Chain, rows: seq<Row>, hc: HeaderMeta, state: State, i: nat)
    requires c.tip in c.blocks && SeedPrefix(env, c, rows, hc, state, i).Restored?
    ensures forall j :: i <= j < hc.height ==> BlobHeaderOk(env, hc, state, j)
    decreases hc.height - i
  {
    hide HeaderStep, BlobHeaderOk;
    if i < hc.height {
      HeaderStepChecks(env, c, rows, hc, state, i);
      HeaderStepKeepsTip(env, c, rows, hc, state, i);
      PrefixChecks(env, HeaderStep(env, c, rows, hc, state, i).chain, rows, hc, state, i + 1);
    }
  }

  lemma AcceptStores(env: Env, c: Chain, block: Block, state: State)
    requires c.tip in c.blocks && block.header.prevHash in c.blocks
    ensures env.hash(block.header) in Accept(env, c, block, state).blocks && c.blocks.Keys <= Accept(env, c, block, state).blocks.Keys
  {
    var e := Entry(env, c, block, Some(state), true);
    EntryFields(env, c, block, state);
    hide Entry, PruneTo;
    PruneKeepsKeys(Store(c, e).(tip := e.hash), e.block.header.height - env.depth);
  }

  lemma CheckedIsStored(env: Env, c: Chain, block: Block, now: int)
    ensures var r := CheckBlock(env, c, block, STORED, now);
      (r.Known? ==> env.hash(block.header) in c.blocks) && (r.Good? ==> block.header.prevHash in c.blocks)
  {
    hide CheckAgainstTree, ApplyBlock;
  }

  /** A tail row that did not fail is stored, and what was stored stays. */
  lemma TailStores(env: Env, c: Chain, block: Block, now: int)
    requires c.tip in c.blocks && TailOrFail(env, c, block, now).Restored?
    ensures var c1 := TailOrFail(env, c, block, now).chain;
      c1.tip in c1.blocks && env.hash(block.header) in c1.blocks && c.blocks.Keys <= c1.blocks.Keys
  {
    hide CheckBlock, Accept;
    StepKeepsTip(env, c, block, None, now);
    CheckedIsStored(env, c, block, now);
    var r := CheckBlock(env, c, block, STORED, now);
    if r.Good? {
      AcceptStores(env, c, block, r.state);
    }
  }

  ghost predicate StoredIn(env: Env, c: Chain, row: Row) {
    var b := BlockWire.DecodeBlock(row.encoded);
    b.Some? && env.hash(b.value.header) in c.blocks
  }

  lemma {:induction false} TailIsStored(env: Env, c: Chain, rows: seq<Row>, height: nat, now: int)
    requires c.tip in c.blocks && ReplayTail(env, c, rows, height, now).Restored?
    ensures c.blocks.Keys <= ReplayTail(env, c, rows, height, now).chain.blocks.Keys
    ensures forall i :: 0 <= i < |rows| && rows[i].height > height ==> StoredIn(env, ReplayTail(env, c, rows, height, now).chain, rows[i])
    decreases |rows|
  {
    hide BlockWire.DecodeBlock, TailOrFail;
    if rows != [] {
      assert forall i :: 0 < i < |rows| ==> rows[i] == rows[1..][i - 1];
      if rows[0].height <= height {
        TailIsStored(env, c, rows[1..], height, now);
      } else {
        var block := BlockWire.DecodeBlock(rows[0].encoded).value;
        TailStores(env, c, block, now);
        TailIsStored(env, TailOrFail(env, c, block, now).chain, rows[1..], height, now);
      }
    }
  }

  /**
   * A restore from a header blob that succeeds has a blob of exactly the anchor's height in headers, numbered
   * from 1, ending at the anchor, which commits to the state; and every row above it is in the chain.
   */
  lemma HeaderBlobIsChecked(env: Env, rows: seq<Row>, hc: HeaderMeta, state: State, now: int)
    requires ReplayWithHeaderChain(env, Init(env), rows, hc, state, now).Restored?
    ensures |hc.bytes| == 148 * hc.height
    ensures forall i :: 0 <= i < hc.height ==> BlobHeaderOk(env, hc, state, i)
    ensures var c := ReplayWithHeaderChain(env, Init(env), rows, hc, state, now).chain;
      forall i :: 0 <= i < |rows| && rows[i].height > hc.height ==> StoredIn(env, c, rows[i])
  {
    hide Init, SeedPrefix, ReplayTail, BlobHeaderOk, StoredIn;
    PrefixChecks(env, Init(env), rows, hc, state, 0);
    TailIsStored(env, SeedPrefix(env, Init(env), rows, hc, state, 0).chain, rows, hc.height, now);
  }
}
