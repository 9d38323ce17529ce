/** Coins issued by height: the closed form over halving eras (src/ui/explorerShared.ts). */
module Supply {
  import opened Genesis

  /** What the coinbases of heights 1..h pay out. Genesis credits nobody. */
  function Issued(h: nat): nat {
    if h == 0 then 0 else Issued(h - 1) + BlockReward(h)
  }

  lemma {:induction false} HalveExhausts(n: nat, k: nat, k': nat)
    requires Halve(n, k) == 0 && k <= k'
    ensures Halve(n, k') == 0
  {
    if k < k' {
      HalveExhausts(n, k, k' - 1);
    }
  }

  lemma HalveEleven()
    ensures Halve(INITIAL_REWARD, 11) == 2441406 && Halve(2441406, 11) == 1192 && Halve(1192, 11) == 0
  {
    assert Halve(5_000_000_000, 11) == 2441406;
    assert Halve(2441406, 11) == 1192;
    assert Halve(1192, 11) == 0;
  }

  /** 2^33 exceeds the initial reward, so the subsidy is gone well before the 64th halving. */
  lemma RewardOfEra(era: nat, height: nat)
    requires height / HALVING_INTERVAL == era
    ensures BlockReward(height) == Halve(INITIAL_REWARD, era)
  {
    if era >= 64 {
      hide Halve;
      HalveEleven();
      HalveCompose(INITIAL_REWARD, 11, 11);
      HalveCompose(INITIAL_REWARD, 22, 11);
      HalveExhausts(INITIAL_REWARD, 33, era);
    }
  }

  lemma {:induction false} HalveCompose(n: nat, a: nat, b: nat)
    ensures Halve(Halve(n, a), b) == Halve(n, a + b)
  {
    if b > 0 {
      HalveCompose(n, a, b - 1);
    }
  }

  /** Within one era every block pays the same. */
  lemma {:induction false} IssuedAcross(era: nat, lo: nat, hi: nat)
    requires era * HALVING_INTERVAL <= lo + 1 && lo <= hi < (era + 1) * HALVING_INTERVAL
    ensures Issued(hi) == Issued(lo) + (hi - lo) * Halve(INITIAL_REWARD, era)
    decreases hi
  {
    hide BlockReward, Halve;
    if lo < hi {
      var r := Halve(INITIAL_REWARD, era);
      assert (hi - lo) * r == (hi - 1 - lo) * r + r;
      IssuedAcross(era, lo, hi - 1);
      RewardOfEra(era, hi);
    }
  }

  lemma {:induction false} IssuedExhausted(era: nat, lo: nat, hi: nat)
    requires Halve(INITIAL_REWARD, era) == 0 && era * HALVING_INTERVAL <= lo + 1 && lo <= hi
    ensures Issued(hi) == Issued(lo)
    decreases hi
  {
    hide BlockReward, Halve;
    if lo < hi {
      IssuedExhausted(era, lo, hi - 1);
      RewardOfEra(hi / HALVING_INTERVAL, hi);
      HalveExhausts(INITIAL_REWARD, era, hi / HALVING_INTERVAL);
    }
  }

  /** The explorer's closed form: one multiplication per era instead of a walk over the chain. */
  method CirculatingSupply(height: nat) returns (supply: nat)
    ensures supply == Issued(height)
  {
    hide BlockReward, Halve;
    supply := 0;
    var era := 0;
    while true
      invariant era > 0 ==> (era - 1) * HALVING_INTERVAL <= height
      invariant supply == Issued(IndexedUpTo(era, height))
      decreases height + HALVING_INTERVAL - era * HALVING_INTERVAL
    {
      var eraStart := era * HALVING_INTERVAL;
      var reward := Halve(INITIAL_REWARD, era);
      if eraStart > height {
        break;
      }
      if reward == 0 {
        IssuedExhausted(era, IndexedUpTo(era, height), height);
        break;
      }
      var from := if eraStart > 1 then eraStart else 1;
      var last := (era + 1) * HALVING_INTERVAL - 1;
      var to := if height < last then height else last;
      if from <= to {
        IssuedAcross(era, from - 1, to);
        supply := supply + (to - from + 1) * reward;
      }
      era := era + 1;
    }
  }

  /** The last height the first `era` eras cover, up to `height`. */
  ghost function IndexedUpTo(era: nat, height: nat): nat {
    if era == 0 then 0
    else if era * HALVING_INTERVAL - 1 < height then era * HALVING_INTERVAL - 1
    else height
  }

  // ---- The cap ----

  lemma RewardAt(era: nat, k: nat)
    requires k < HALVING_INTERVAL
    ensures BlockReward(era * HALVING_INTERVAL + k) == Halve(INITIAL_REWARD, era)
  {
    hide BlockReward, Halve;
    RewardOfEra(era, era * HALVING_INTERVAL + k);
  }

  /** `k` coinbases of the same reward. */
  ghost function Blocks(k: nat, reward: nat): nat {
    if k == 0 then 0 else Blocks(k - 1, reward) + reward
  }

  lemma {:induction false} BlocksTotal(k: nat, reward: nat)
    ensures Blocks(k, reward) == k * reward
  {
    if k > 0 {
      BlocksTotal(k - 1, reward);
      assert k * reward == (k - 1) * reward + reward;
    }
  }

  lemma HalveNext(n: nat, k: nat)
    requires k > 0
    ensures 2 * Halve(n, k) <= Halve(n, k - 1)
  {
  }

  /** All later eras together are worth at most one more of the current one. */
  lemma {:induction false} IssuedCap(era: nat, k: nat)
    requires k < HALVING_INTERVAL
    ensures var reward := Halve(INITIAL_REWARD, era);
      Issued(era * HALVING_INTERVAL + k) + 2 * HALVING_INTERVAL * reward <= MAX_MONEY + Blocks(k + 1, reward)
    decreases era, k
  {
    var h, reward := era * HALVING_INTERVAL + k, Halve(INITIAL_REWARD, era);
    if h == 0 {
      assert Blocks(1, reward) == reward;
    } else {
      hide Halve, BlockReward;
      assert Blocks(k + 1, reward) == Blocks(k, reward) + reward;
      RewardAt(era, k);
      assert Issued(h) == Issued(h - 1) + reward;
      hide Issued;
      if k > 0 {
        hide Blocks;
        IssuedCap(era, k - 1);
      } else {
        assert Blocks(0, reward) == 0;
        hide Blocks;
        IssuedCap(era - 1, HALVING_INTERVAL - 1);
        BlocksTotal(HALVING_INTERVAL, Halve(INITIAL_REWARD, era - 1));
        HalveNext(INITIAL_REWARD, era);
      }
    }
  }

  /** No height ever issues more than MAX_MONEY. */
  lemma IssuedAtMostMaxMoney(h: nat)
    ensures Issued(h) <= MAX_MONEY
  {
    hide Halve, Issued, Blocks;
    var era, k := h / HALVING_INTERVAL, h % HALVING_INTERVAL;
    assert h == era * HALVING_INTERVAL + k;
    IssuedCap(era, k);
    var reward := Halve(INITIAL_REWARD, era);
    BlocksMonotone(k + 1, HALVING_INTERVAL, reward);
    BlocksTotal(HALVING_INTERVAL, reward);
  }

  lemma {:induction false} BlocksMonotone(k: nat, k': nat, reward: nat)
    requires k <= k'
    ensures Blocks(k, reward) <= Blocks(k', reward)
  {
    if k < k' {
      BlocksMonotone(k, k' - 1, reward);
    }
  }
}
