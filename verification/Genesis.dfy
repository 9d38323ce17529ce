/** Consensus constants, header layout and the coinbase schedule (src/chain/genesis.ts, src/chain/block.ts). */
module Genesis {
  type Byte = b: int | 0 <= b < 256
  type Bytes = seq<Byte>

  datatype Option<+T> = None | Some(value: T)

  /** A block header. Times are unix seconds; `difficulty` is a compact target. */
  datatype Header = Header(
    height: nat,
    prevHash: Bytes,
    txRoot: Bytes,
    stateRoot: Bytes,
    timestamp: nat,
    difficulty: int,
    nonce: nat,
    miner: Bytes)

  const CHAIN_ID := 0xc01d_feed
  const COIN := 100_000_000
  const INITIAL_REWARD := 50 * COIN
  const HALVING_INTERVAL := 210_000
  const MAX_MONEY := 21_000_000 * COIN
  const TARGET_BLOCK_TIME_S := 150
  const DIFFICULTY_WINDOW := 50
  const MTP_WINDOW := 11
  const RETARGET_LOOKBACK := DIFFICULTY_WINDOW + MTP_WINDOW - 1
  const HALFLIFE_S := 600
  const EMERGENCY_DROP_MULT := 6
  const MAX_FUTURE_TIME_S := 600
  const MAX_BLOCK_BYTES := 256 * 1024
  const MAX_SCRIPT_BYTES := 10_000
  const MAX_WITNESS_ITEMS := 100
  const MAX_PUSH_BYTES := 520
  const GENESIS_DIFFICULTY_COMPACT := 0x2002_0000
  const GENESIS_TIMESTAMP := 1779700000
  const FORK1_ACTIVATION_TIME := 1783267200
  const SANDGLASS_FORK_HEIGHT := 33_550
  const SANDGLASS_ANCHOR_TIMESTAMP := 1784721600
  const SANDGLASS_ANCHOR_CLAMP_BLOCKS := 2000
  const SANDGLASS_ANCHOR_ATTEMPTS := 5_000_000
  const SANDGLASS2_ANCHOR_HEIGHT := 35_550

  function Zeros(n: nat): (z: Bytes)
    ensures |z| == n
  {
    seq(n, _ => 0)
  }

  const GENESIS_HEADER := Header(0, Zeros(32), Zeros(32), Zeros(32),
    GENESIS_TIMESTAMP, GENESIS_DIFFICULTY_COMPACT, 0, Zeros(32))

  /** `n >> k` on a non-negative integer. */
  function Halve(n: nat, k: nat): nat {
    if k == 0 then n else Halve(n, k - 1) / 2
  }

  /** Coinbase reward of the block at a height. */
  function BlockReward(height: nat): nat {
    var halvings := height / HALVING_INTERVAL;
    if halvings >= 64 then 0 else Halve(INITIAL_REWARD, halvings)
  }

  /** Scripts are active once median-time-past reaches the activation time (src/chain/fork.ts). */
  predicate ScriptsActive(mtp: int) {
    mtp >= FORK1_ACTIVATION_TIME
  }
}
