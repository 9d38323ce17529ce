/** The seeding step of fast sync: bare headers below the anchor, the anchor with its state (src/net/fastSync.ts). */
module FastSyncSeed {
  import opened Genesis
  import opened Transactions
  import opened Ledger
  import opened BlockTree
  import opened TreeLaws
  import opened TreeRuns
  import opened Restore
  import opened HeaderRestore
  import opened Blockchain

  /** Seed the headers from the `i`-th on; only the last comes with the state. */
  function SeedHeaders(env: Env, c: Chain, headers: seq<Header>, state: State, i: nat): Restored
    requires i <= |headers|
    decreases |headers| - i
  {
    if i == |headers| then Restored(c)
    else
      var r := SeedHeaderOrFail(env, c, headers[i], if i == |headers| - 1 then Some(state) else None);
      if r.Failed? then Failed else SeedHeaders(env, r.chain, headers, state, i + 1)
  }

  /** Seed a verified prefix ending at the anchor; any rejection resets the chain to genesis. */
  method SeedVerified(chain: Blockchain, headers: seq<Header>, state: State) returns (ok: bool)
    requires Linked(chain.env, chain.Value()) && headers != []
    modifies chain
    ensures var r := SeedHeaders(chain.env, old(chain.Value()), headers, state, 0);
      ok == r.Restored? && chain.Value() == if r.Restored? then r.chain else Init(chain.env)
  {
    hide Linked, SeedBodyless, SeedError;
    var anchorIdx := |headers| - 1;
    var i := 0;
    while i < anchorIdx
      invariant 0 <= i <= anchorIdx
      invariant SeedHeaders(chain.env, chain.Value(), headers, state, i) == SeedHeaders(chain.env, old(chain.Value()), headers, state, 0)
    {
      var err := chain.SeedBodylessHeader(headers[i], None);
      if err.Some? {
        chain.Reset();
        return false;
      }
      i := i + 1;
    }
    var err := chain.SeedBodylessHeader(headers[anchorIdx], Some(state));
    if err.Some? {
      chain.Reset();
      return false;
    }
    ok := true;
  }

  function HeadersTo(bs: seq<Block>, k: nat): (hs: seq<Header>)
    requires k < |bs|
    ensures |hs| == k
  {
    seq(k, i requires 0 <= i < k => bs[i + 1].header)
  }

  lemma SeedHeaderProgress(env: Env, c: Chain, bs: seq<Block>, now: int, n: nat, state: Option<State>)
    requires LinearChain(env, bs, now) && Holds(env, c, bs, n) && n + 1 < |bs|
    requires state.Some? ==> StateOnPath(env, bs[..n + 2]) == state
    ensures var r := SeedHeaderOrFail(env, c, bs[n + 1].header, state);
      r.Restored? && Holds(env, r.chain, bs, n + 1) && (state.Some? ==> AtTip(env, r.chain, bs, n + 1))
  {
    hide LinearChain, Holds, StateOnPath, SeedHistorical, SeedBodyless, SeedError;
    SeedStep(env, c, bs, now, n, state);
  }

  lemma {:induction false} SeedsUpTo(env: Env, c: Chain, bs: seq<Block>, now: int, k: nat, state: State, i: nat)
    requires LinearChain(env, bs, now) && IsStateAfter(env, state, bs, k) && Holds(env, c, bs, i) && i < k < |bs|
    ensures var r := SeedHeaders(env, c, HeadersTo(bs, k), state, i);
      r.Restored? && AtTip(env, r.chain, bs, k)
    decreases k - i
  {
    hide LinearChain, Holds, AtTip, StateOnPath, SeedHeaderOrFail;
    SeedHeaderProgress(env, c, bs, now, i, if i == k - 1 then Some(state) else None);
    if i < k - 1 {
      hide IsStateAfter;
      var r := SeedHeaderOrFail(env, c, bs[i + 1].header, None);
      SeedsUpTo(env, r.chain, bs, now, k, state, i + 1);
    }
  }

  lemma SeededEnds(env: Env, bs: seq<Block>, now: int, k: nat, state: State)
    requires LinearChain(env, bs, now) && IsStateAfter(env, state, bs, k)
    ensures k < |bs|
    ensures var r := SeedHeaders(env, Init(env), HeadersTo(bs, k), state, 0);
      r.Restored? && AtTip(env, r.chain, bs, k) && r.chain.tip in r.chain.blocks
  {
    assert 1 <= k < |bs|;
    hide LinearChain, IsStateAfter, Holds, Init, SeedHeaders;
    InitProgress(env, bs, now, k);
    SeedsUpTo(env, Init(env), bs, now, k, state, 0);
  }

  lemma TailAgrees(env: Env, c: Chain, bs: seq<Block>, now: int, k: nat)
    requires LinearChain(env, bs, now) && Storable(bs) && k < |bs| && AtTip(env, c, bs, k) && c.tip in c.blocks
    ensures var full := FullReplay(env, Init(env), RowsOf(env, bs, 1, |bs|), now);
      Agrees(full, Restored(FullReplay(env, c, RowsOf(env, bs, k + 1, |bs|), now)), HashAt(env, bs, |bs| - 1))
  {
    hide LinearChain, Storable, FullReplay, RowsOf, AtTip, Init, SameTip, Agrees;
    FullReplayEnds(env, bs, now);
    ReplayRows(env, c, bs, now, k);
    AtTipAgrees(env, FullReplay(env, Init(env), RowsOf(env, bs, 1, |bs|), now),
                FullReplay(env, c, RowsOf(env, bs, k + 1, |bs|), now), bs, now, |bs| - 1);
  }

  /**
   * Fast sync to the anchor, then the tail as full blocks: the same tip as a full replay of everything,
   * whatever the bodies below the anchor were.
   */
  lemma FastSyncAgrees(env: Env, bs: seq<Block>, now: int, k: nat, state: State)
    requires LinearChain(env, bs, now) && Storable(bs) && IsStateAfter(env, state, bs, k)
    ensures k < |bs|
    ensures var r := SeedHeaders(env, Init(env), HeadersTo(bs, k), state, 0);
      && r.Restored? && r.chain.tip in r.chain.blocks
      && var full := FullReplay(env, Init(env), RowsOf(env, bs, 1, |bs|), now);
         Agrees(full, Restored(FullReplay(env, r.chain, RowsOf(env, bs, k + 1, |bs|), now)), HashAt(env, bs, |bs| - 1))
  {
    hide *;
    SeededEnds(env, bs, now, k, state);
    TailAgrees(env, SeedHeaders(env, Init(env), HeadersTo(bs, k), state, 0).chain, bs, now, k);
  }
}
