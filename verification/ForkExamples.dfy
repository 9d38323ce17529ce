/** Stored rows with a fork, accepted by a full replay one and all, on which a snapshot restore loses its tip state. */
module ForkExamples {
  import opened Binary
  import opened Genesis
  import opened Asert
  import opened Transactions
  import opened Ledger
  import opened Consensus
  import opened HeaderChain
  import opened BlockTree
  import opened TreeLaws
  import opened TreeRuns
  import opened Restore
  import opened ForkRestore
  import opened ForkAgreement
  import opened ForkSuccess
  import BlockWire

  // ---- Two blocks without transactions ----

  const MINER := Zeros(32)

  function StateAt(height: nat): State {
    if height == 0 then EMPTY_STATE else Credit(StateAt(height - 1), MINER, BlockReward(height))
  }

  function Empty(env: Env, height: nat, parent: Bytes, timestamp: nat, difficulty: int): Block {
    Block(Header(height, parent, env.txRoot([]), env.stateRoot(StateAt(height)), timestamp, difficulty, 0, MINER), [])
  }

  /** A first block `t` seconds after genesis. */
  function First(env: Env, t: nat): Block {
    Empty(env, 1, env.hash(GENESIS_HEADER), GENESIS_TIMESTAMP + t, GENESIS_DIFFICULTY_COMPACT)
  }

  /** The difficulty on top of such a block. */
  function NextAfter(t: nat): int {
    Compact(AsertTarget(1, GENESIS_TIMESTAMP + t, 0, GENESIS_TIMESTAMP, FLOOR_TARGET))
  }

  function Second(env: Env, t: nat): Block {
    Empty(env, 2, env.hash(First(env, t).header), GENESIS_TIMESTAMP + 300, NextAfter(t))
  }

  function TwoBlocks(env: Env, t: nat): seq<Block> {
    [GENESIS, First(env, t), Second(env, t)]
  }

  /** Hashes and roots of 32 bytes, and room for the two blocks. */
  ghost predicate Ordinary(env: Env, t: nat) {
    && env.depth >= 1
    && |env.hash(GENESIS_HEADER)| == |env.hash(First(env, t).header)| == |env.txRoot([])| == 32
    && |env.stateRoot(StateAt(1))| == |env.stateRoot(StateAt(2))| == 32
    && env.size(First(env, t)) <= MAX_BLOCK_BYTES && env.size(Second(env, t)) <= MAX_BLOCK_BYTES
    && env.hash(GENESIS_HEADER) != env.hash(First(env, t).header)
    && env.hash(Second(env, t).header) !in {env.hash(GENESIS_HEADER), env.hash(First(env, t).header)}
  }

  // ---- They are a valid chain ----

  lemma FloorCompact()
    ensures Compact(FLOOR_TARGET) == GENESIS_DIFFICULTY_COMPACT && CompactToTarget(GENESIS_DIFFICULTY_COMPACT) == FLOOR_TARGET
  {
    FloorIsGenesisTarget();
    GenesisScheduled();
    hide Compact, CompactToTarget;
  }

  lemma FirstHeader(env: Env, t: nat, now: int)
    requires 1 <= t <= 300 && now >= GENESIS_TIMESTAMP
    ensures CheckHeader([GENESIS_HEADER], First(env, t).header, now) == HeaderOk
  {
    hide Compact, CompactToTarget, MedianTimePast, AsertTarget;
    var g := [GENESIS_HEADER];
    FloorCompact();
    AsertZeroDrift(0, GENESIS_TIMESTAMP, 0, GENESIS_TIMESTAMP, FLOOR_TARGET);
    MtpOfGenesis();
    assert Last(g, RETARGET_LOOKBACK) == g && Last(g, MTP_WINDOW) == g;
  }

  lemma MtpOfTwo(t: nat, h: Header)
    requires h.timestamp == GENESIS_TIMESTAMP + t
    ensures MedianTimePast([GENESIS_HEADER, h]) == GENESIS_TIMESTAMP + t
  {
    var w := Timestamps(Last([GENESIS_HEADER, h], MTP_WINDOW));
    assert w == [GENESIS_TIMESTAMP, GENESIS_TIMESTAMP + t];
    SortSorts(w, 0);
    assert Sort(w[1..]) == w[1..];
    assert Sort(w) == w;
  }

  lemma SecondHeader(env: Env, t: nat, now: int)
    requires 1 <= t < 300 && now >= GENESIS_TIMESTAMP
    ensures CheckHeader([GENESIS_HEADER, First(env, t).header], Second(env, t).header, now) == HeaderOk
  {
    hide Compact, CompactToTarget, MedianTimePast, AsertTarget;
    var hs := [GENESIS_HEADER, First(env, t).header];
    MtpOfTwo(t, First(env, t).header);
    assert Last(hs, RETARGET_LOOKBACK) == hs && Last(hs, MTP_WINDOW) == hs;
  }

  lemma {:induction false} StateAfter(env: Env, path: seq<Block>, b: Block)
    requires path != [] && StateOnPath(env, path) == Some(StateAt(|path| - 1)) && b.transactions == [] && b.header.miner == MINER
    ensures StateOnPath(env, path + [b]) == Some(StateAt(|path|))
  {
    StateOnSnoc(env, path, b);
    hide MedianTimePast, StateOnPath, Credit;
  }

  lemma GenesisState(env: Env)
    ensures StateOnPath(env, [GENESIS]) == Some(StateAt(0))
  {
    assert LedgerBlocks([GENESIS]) == [];
  }

  lemma TwoStates(env: Env, t: nat)
    ensures var bs := TwoBlocks(env, t);
      && StateOnPath(env, bs[..2]) == Some(StateAt(1)) && StateOnPath(env, bs[..3]) == Some(StateAt(2))
  {
    hide StateOnPath, StateAt, NextAfter;
    var bs := TwoBlocks(env, t);
    GenesisState(env);
    assert [GENESIS] == bs[..1];
    StateAfter(env, bs[..1], bs[1]);
    assert bs[..1] + [bs[1]] == bs[..2];
    StateAfter(env, bs[..2], bs[2]);
    assert bs[..2] + [bs[2]] == bs[..3];
  }

  lemma TwoIsLinear(env: Env, t: nat, now: int)
    requires 1 <= t < 300 && now >= GENESIS_TIMESTAMP && Ordinary(env, t)
    ensures LinearChain(env, TwoBlocks(env, t), now)
  {
    hide CheckHeader, StateOnPath, StateAt, NextAfter;
    var bs := TwoBlocks(env, t);
    FirstHeader(env, t, now);
    SecondHeader(env, t, now);
    TwoStates(env, t);
    assert Headers(bs[..1]) == [GENESIS_HEADER] && Headers(bs[..2]) == [GENESIS_HEADER, bs[1].header];
    assert ChildOk(env, bs, 1, now) && ChildOk(env, bs, 2, now);
  }

  // ---- A block ahead of schedule makes the next one harder ----

  lemma FactorOfEarly()
    ensures Factor(49262) <= 111000
  {
    hide Times;
    TimesIsProduct(49262, 49262);
    TimesIsProduct(49262 * 49262, 49262);
  }

  const EARLY_BOUND: nat := FLOOR_TARGET / 131072 * 111000

  lemma EarlyScaled()
    ensures Scaled(FLOOR_TARGET, -16274) <= EARLY_BOUND
  {
    hide Scaled, Factor, Times, Shift;
    FactorOfEarly();
    ScaledSplit(FLOOR_TARGET, -16274);
    TimesMonotone(FLOOR_TARGET, Factor(49262), FLOOR_TARGET, 111000);
    TimesIsProduct(FLOOR_TARGET, 111000);
    ShiftHalves(Times(FLOOR_TARGET, Factor(49262)));
    EarlyBounds(Times(FLOOR_TARGET, Factor(49262)));
  }

  lemma EarlyBounds(x: nat)
    requires x <= FLOOR_TARGET * 111000
    ensures x / 2 / 65536 <= EARLY_BOUND
  {
  }

  lemma ShiftHalves(x: nat)
    ensures Shift(x, -1) == x / 2
  {
    assert Shift(x / 2, 0) == x / 2;
  }

  lemma EarlyTarget()
    ensures 1 <= AsertTarget(1, GENESIS_TIMESTAMP + 1, 0, GENESIS_TIMESTAMP, FLOOR_TARGET) <= EARLY_BOUND
  {
    hide Scaled;
    EarlyScaled();
    assert Exponent(-149) == -16274;
  }

  lemma WorkIs(difficulty: int)
    requires CompactToTarget(difficulty) > 0
    ensures BlockWork(difficulty) == TWO_256 / (CompactToTarget(difficulty) + 1)
  {
    hide CompactToTarget;
  }

  lemma NextAfterTargets()
    ensures CompactToTarget(NextAfter(150)) == FLOOR_TARGET && 0 < CompactToTarget(NextAfter(1)) <= EARLY_BOUND
  {
    hide Compact, CompactToTarget, AsertTarget;
    FloorCompact();
    AsertZeroDrift(1, GENESIS_TIMESTAMP + 150, 0, GENESIS_TIMESTAMP, FLOOR_TARGET);
    EarlyTarget();
    CompactRoundsDown(AsertTarget(1, GENESIS_TIMESTAMP + 1, 0, GENESIS_TIMESTAMP, FLOOR_TARGET));
  }

  lemma EarlyWork(target: nat)
    requires target <= EARLY_BOUND
    ensures TWO_256 / (target + 1) >= 128
  {
    assert (target + 1) * 128 <= TWO_256;
    BlockWire.QuotientAtLeast(TWO_256, target + 1, 128);
  }

  lemma FloorWork()
    ensures TWO_256 / (FLOOR_TARGET + 1) == 127
  {
  }

  lemma EarlyIsHeavier()
    ensures BlockWork(NextAfter(150)) < BlockWork(NextAfter(1))
  {
    hide CompactToTarget, NextAfter, BlockWork;
    NextAfterTargets();
    WorkIs(NextAfter(150));
    WorkIs(NextAfter(1));
    EarlyWork(CompactToTarget(NextAfter(1)));
    FloorWork();
  }

  // ---- The stored fork ----

  /** In the order they are read: two first blocks, and one on top of each. */
  function BlockNo(env: Env, i: nat): Block {
    if i == 0 then First(env, 150) else if i == 1 then First(env, 1) else if i == 2 then Second(env, 150) else Second(env, 1)
  }

  function KeyNo(env: Env, i: nat): Bytes {
    env.hash(BlockNo(env, i).header)
  }

  function ForkRows(env: Env): (rows: seq<Row>)
    ensures |rows| == 4
  {
    seq(4, i requires 0 <= i < 4 => Row(BlockNo(env, i).header.height, KeyNo(env, i), BlockWire.EncodeBlock(BlockNo(env, i))))
  }

  /** The four blocks and genesis hash apart. */
  ghost predicate Apart(env: Env) {
    && (forall i :: 0 <= i < 4 ==> KeyNo(env, i) != env.hash(GENESIS_HEADER))
    && forall i, j :: 0 <= i < j < 4 ==> KeyNo(env, i) != KeyNo(env, j)
  }

  lemma NextAfterFits(t: nat)
    ensures 0 <= NextAfter(t) < 0x1_0000_0000
  {
    var target := AsertTarget(1, GENESIS_TIMESTAMP + t, 0, GENESIS_TIMESTAMP, FLOOR_TARGET);
    assert Compact(0) == 0;
    hide Compact, CompactToTarget, AsertTarget;
    FloorCompact();
    CompactMonotone(target, FLOOR_TARGET);
    CompactMonotone(0, target);
  }

  lemma BlockDecodes(env: Env, i: nat)
    requires Ordinary(env, 1) && Ordinary(env, 150) && i < 4
    ensures BlockWire.DecodeBlock(ForkRows(env)[i].encoded) == Some(BlockNo(env, i)) && KeyOf(env, ForkRows(env)[i]) == KeyNo(env, i)
  {
    hide BlockWire.NormalBlock, BlockWire.EncodeBlock, BlockWire.DecodeBlock, Ordinary, NextAfter;
    BlockIsNormal(env, i);
    BlockWire.DecodeOfEncodeBlock(BlockNo(env, i));
  }

  lemma BlockIsNormal(env: Env, i: nat)
    requires Ordinary(env, 1) && Ordinary(env, 150) && i < 4
    ensures BlockWire.NormalBlock(BlockNo(env, i))
  {
    hide BlockWire.ToDouble, NextAfter, StateAt;
    BlockWire.ToDoubleExact(BlockNo(env, i).header.timestamp);
    NextAfterFits(1);
    NextAfterFits(150);
  }

  /** Work up to each of the five blocks. */
  function ForkWork(env: Env, k: Bytes): nat {
    var base := BlockWork(GENESIS_DIFFICULTY_COMPACT);
    if k == KeyNo(env, 3) then 2 * base + BlockWork(NextAfter(1))
    else if k == KeyNo(env, 2) then 2 * base + BlockWork(NextAfter(150))
    else if k == KeyNo(env, 0) || k == KeyNo(env, 1) then 2 * base
    else base
  }

  function Works(env: Env): Bytes -> nat {
    k => ForkWork(env, k)
  }

  /** Hashes, roots and sizes in range for all four blocks, and no collision among them. */
  ghost predicate StoresFork(env: Env) {
    Ordinary(env, 1) && Ordinary(env, 150) && Apart(env)
  }

  lemma RowFacts(env: Env)
    requires StoresFork(env)
    ensures forall i :: 0 <= i < 4 ==>
      && BlockWire.DecodeBlock(ForkRows(env)[i].encoded) == Some(BlockNo(env, i)) && KeyOf(env, ForkRows(env)[i]) == KeyNo(env, i)
      && ForkRows(env)[i].height == BlockNo(env, i).header.height == if i < 2 then 1 else 2
  {
    hide BlockWire.DecodeBlock, BlockWire.EncodeBlock, KeyOf;
    forall i | 0 <= i < 4
      ensures BlockWire.DecodeBlock(ForkRows(env)[i].encoded) == Some(BlockNo(env, i)) && KeyOf(env, ForkRows(env)[i]) == KeyNo(env, i)
    {
      BlockDecodes(env, i);
    }
  }

  lemma WorkAt(env: Env)
    requires Apart(env)
    ensures var base, w := BlockWork(GENESIS_DIFFICULTY_COMPACT), Works(env);
      && w(env.hash(GENESIS_HEADER)) == base && w(KeyNo(env, 0)) == w(KeyNo(env, 1)) == 2 * base
      && w(KeyNo(env, 2)) == 2 * base + BlockWork(NextAfter(150)) && w(KeyNo(env, 3)) == 2 * base + BlockWork(NextAfter(1))
  {
    hide BlockWork, NextAfter, KeyNo;
  }

  lemma RowWeighs(env: Env, i: nat)
    requires StoresFork(env) && i < 4
    ensures WeighsRow(env, ForkRows(env)[i], Works(env))
  {
    hide BlockWire.DecodeBlock, BlockWire.EncodeBlock, BlockWork, NextAfter, KeyOf, Works, KeyNo, BlockNo, ForkRows, Ordinary, Apart;
    RowFacts(env);
    WorkAt(env);
    BuiltOn(env, i);
  }

  lemma BuiltOn(env: Env, i: nat)
    requires i < 4
    ensures var h := BlockNo(env, i).header;
      && KeyNo(env, i) == env.hash(h)
      && h.prevHash == (if i < 2 then env.hash(GENESIS_HEADER) else KeyNo(env, i - 2))
      && h.difficulty == (if i < 2 then GENESIS_DIFFICULTY_COMPACT else if i == 2 then NextAfter(150) else NextAfter(1))
  {
    hide NextAfter;
  }

  lemma ForkWeighs(env: Env)
    requires StoresFork(env)
    ensures Weighs(env, ForkRows(env), Works(env)) && Keyed(env, ForkRows(env)) && ByHeight(ForkRows(env))
  {
    hide BlockWire.DecodeBlock, BlockWire.EncodeBlock, BlockWork, NextAfter, KeyOf, Ordinary, KeyNo, BlockNo, ForkRows, WeighsRow, Works;
    var rows := ForkRows(env);
    RowFacts(env);
    WorkAt(env);
    forall i | 0 <= i < 4
      ensures WeighsRow(env, rows[i], Works(env))
    {
      RowWeighs(env, i);
    }
  }

  /** Which of the four blocks a chain of two consists of. */
  lemma TwoAre(env: Env, t: nat)
    requires StoresFork(env) && t in {1, 150}
    ensures var bs, i := TwoBlocks(env, t), if t == 150 then 0 else 1;
      && |bs| == 3 && bs[0] == GENESIS && bs[1] == BlockNo(env, i) && bs[2] == BlockNo(env, i + 2)
      && HashAt(env, bs, 0) == env.hash(GENESIS_HEADER) && HashAt(env, bs, 1) == KeyNo(env, i) && HashAt(env, bs, 2) == KeyNo(env, i + 2)
  {
    hide First, Second, StoresFork;
  }

  /** The rows hold the chain of two blocks that starts `t` seconds after genesis. */
  lemma HoldsTwo(env: Env, t: nat)
    requires StoresFork(env) && t in {1, 150}
    ensures AllHonest(env, TwoBlocks(env, t), ForkRows(env))
    ensures forall i :: 1 <= i < 3 ==> HoldsBlock(ForkRows(env), TwoBlocks(env, t)[i])
  {
    hide BlockWire.DecodeBlock, BlockWire.EncodeBlock, KeyOf, Ordinary, ForkRows, TwoBlocks, BlockNo, KeyNo, HashAt;
    var rows, bs := ForkRows(env), TwoBlocks(env, t);
    RowFacts(env);
    TwoAre(env, t);
    forall r | 0 <= r < 4
      ensures Honest(env, bs, rows[r])
    {
      BuiltOn(env, r);
      assert KeyNo(env, r) == env.hash(BlockNo(env, r).header);
    }
    var first := if t == 150 then 0 else 1;
    assert BlockWire.DecodeBlock(rows[first].encoded) == Some(bs[1]);
    assert BlockWire.DecodeBlock(rows[first + 2].encoded) == Some(bs[2]);
  }

  lemma EarlyIsHeaviest(env: Env)
    requires StoresFork(env)
    ensures StrictlyHeaviest(env, ForkRows(env), Works(env), KeyNo(env, 3))
    ensures FirstHeaviest(env, ForkRows(env), Works(env), 2, 3)
  {
    hide BlockWire.DecodeBlock, BlockWire.EncodeBlock, BlockWork, NextAfter, KeyOf, Ordinary, KeyNo, BlockNo, ForkRows, Works;
    RowFacts(env);
    EarlyIsHeavier();
    GenesisWork();
    WorkAt(env);
  }

  lemma GenesisWork()
    ensures BlockWork(GENESIS_DIFFICULTY_COMPACT) > 0 && BlockWork(NextAfter(1)) > 0
  {
    FloorCompact();
    WorkPositive(GENESIS_DIFFICULTY_COMPACT);
    EarlyIsHeavier();
    hide BlockWork, NextAfter;
  }

  /** A full replay of the rows accepts each of them and ends on the early branch, with its state. */
  lemma FullKeepsFork(env: Env, now: int)
    requires StoresFork(env) && now >= GENESIS_TIMESTAMP
    ensures var full := FullReplay(env, Init(env), ForkRows(env), now);
      && (forall i :: 0 <= i < 4 ==> KeyNo(env, i) in full.blocks)
      && full.tip == KeyNo(env, 3) && full.blocks[full.tip].state.Some?
  {
    hide BlockWire.DecodeBlock, LinearChain, RowsOk, HoldsBlock, StrictlyHeaviest, FullReplay, Init, AllHonest, Weighs, Keyed, ByHeight, EndsOn;
    Collected(env, 150, now);
    Collected(env, 1, now);
    EarlyIsHeaviest(env);
    EarlyEnds(env, now);
  }

  lemma ForkOk(env: Env, t: nat, now: int)
    requires StoresFork(env) && now >= GENESIS_TIMESTAMP && t in {1, 150}
    ensures LinearChain(env, TwoBlocks(env, t), now) && RowsOk(env, TwoBlocks(env, t), ForkRows(env), Works(env))
    ensures forall i :: 1 <= i < 3 ==> HoldsBlock(ForkRows(env), TwoBlocks(env, t)[i])
  {
    hide LinearChain, AllHonest, Weighs, Keyed, ByHeight, HoldsBlock, Ordinary, Apart;
    TwoIsLinear(env, t, now);
    ForkWeighs(env);
    HoldsTwo(env, t);
  }

  lemma Collected(env: Env, t: nat, now: int)
    requires StoresFork(env) && now >= GENESIS_TIMESTAMP && t in {1, 150}
    ensures var full := FullReplay(env, Init(env), ForkRows(env), now);
      env.hash(First(env, t).header) in full.blocks && env.hash(Second(env, t).header) in full.blocks
  {
    hide LinearChain, RowsOk, HoldsBlock, FullReplay, Init, FullInv, NotBelow, Pending, Unseen, First, Second, ForkRows, Works, OnlyFrom, Apart;
    var bs := TwoBlocks(env, t);
    assert env.depth >= 1;
    ForkOk(env, t, now);
    FullStarts(env, bs, ForkRows(env), now, Works(env));
    var h := FullCollects(env, Init(env), bs, ForkRows(env), now, 0, Works(env));
    PendingDone(env, FullReplay(env, Init(env), ForkRows(env), now), bs, 1);
    PendingDone(env, FullReplay(env, Init(env), ForkRows(env), now), bs, 2);
  }

  lemma EarlyEnds(env: Env, now: int)
    requires StoresFork(env) && now >= GENESIS_TIMESTAMP
    ensures var full := FullReplay(env, Init(env), ForkRows(env), now);
      full.tip == KeyNo(env, 3) && full.tip in full.blocks && full.blocks[full.tip].state.Some?
  {
    hide LinearChain, RowsOk, HoldsBlock, FullReplay, Init, First, Second, ForkRows, Works, StrictlyHeaviest, Apart, Weighed, Fits, StateOnPath;
    var bs := TwoBlocks(env, 1);
    assert env.depth >= 1;
    ForkOk(env, 1, now);
    EarlyIsHeaviest(env);
    FullEnds(env, bs, ForkRows(env), now, Works(env));
  }

  /** The state after the late branch's second block, persisted as the snapshot. */
  function ForkSnapshot(env: Env): Snapshot {
    Snapshot(2, KeyNo(env, 2), StateAt(2))
  }

  lemma SnapshotIs(env: Env)
    ensures IsSnapshotOf(env, ForkSnapshot(env), TwoBlocks(env, 150), 2)
  {
    TwoStates(env, 150);
    hide StateOnPath, StateAt, NextAfter;
  }

  /** The restore gets through, and ends on the early branch without a state. */
  lemma RestoreLosesState(env: Env, now: int)
    requires StoresFork(env) && now >= GENESIS_TIMESTAMP
    ensures var r := ReplayWithSnapshot(env, Init(env), ForkRows(env), ForkSnapshot(env), false, now);
      r.Restored? && r.chain.tip in r.chain.blocks && r.chain.tip == KeyNo(env, 3) && r.chain.blocks[r.chain.tip].state.None?
  {
    hide LinearChain, RowsOk, HoldsBlock, FullReplay, Init, First, Second, Works, StrictlyHeaviest, Ordinary, Weighs, Keyed, FirstHeaviest, KeyOf,
      BlockWire.DecodeBlock, BlockWire.EncodeBlock, ReplayWithSnapshot, StateOnPath;
    var rows, snap, bs := ForkRows(env), ForkSnapshot(env), TwoBlocks(env, 150);
    Restores(env, now);
    RowFacts(env);
    ForkWeighs(env);
    EarlyIsHeaviest(env);
    ForkedRestoreTip(env, rows, snap, now, Works(env), 2, 3);
    assert Overtakes(env, rows, snap, Works(env), 2, 3);
  }

  lemma Restores(env: Env, now: int)
    requires StoresFork(env) && now >= GENESIS_TIMESTAMP
    ensures ReplayWithSnapshot(env, Init(env), ForkRows(env), ForkSnapshot(env), false, now).Restored?
  {
    hide LinearChain, RowsOk, HoldsBlock, FullReplay, Init, First, Second, Works, Apart, KeyOf,
      BlockWire.DecodeBlock, BlockWire.EncodeBlock, ReplayWithSnapshot, StateOnPath;
    var rows, snap, bs := ForkRows(env), ForkSnapshot(env), TwoBlocks(env, 150);
    assert env.depth >= 1;
    ForkOk(env, 150, now);
    SnapshotIs(env);
    RowFacts(env);
    FullKeepsFork(env, now);
    hide StateAt, IsSnapshotOf, Ordinary;
    StoredRestoreSucceedsIff(env, bs, rows, snap, 2, now, Works(env));
  }

  /**
   * Four stored blocks, valid from genesis and accepted by a full replay, which ends on the branch that started
   * early, with its state. A restore from the true state of the other branch succeeds and ends on the same
   * block, without a state.
   */
  lemma ForkLosesState(env: Env, now: int)
    requires StoresFork(env) && now >= GENESIS_TIMESTAMP
    ensures var full := FullReplay(env, Init(env), ForkRows(env), now);
      && (forall i :: 0 <= i < 4 ==> KeyNo(env, i) in full.blocks)
      && full.tip == KeyNo(env, 3) && full.blocks[full.tip].state.Some?
    ensures IsSnapshotOf(env, ForkSnapshot(env), TwoBlocks(env, 150), 2)
    ensures var r := ReplayWithSnapshot(env, Init(env), ForkRows(env), ForkSnapshot(env), false, now);
      r.Restored? && r.chain.tip in r.chain.blocks && r.chain.tip == KeyNo(env, 3) && r.chain.blocks[r.chain.tip].state.None?
  {
    hide StateOnPath, StateAt, FullReplay, ReplayWithSnapshot, Init, StoresFork, ForkRows, KeyNo, IsSnapshotOf;
    FullKeepsFork(env, now);
    RestoreLosesState(env, now);
    SnapshotIs(env);
  }
}
