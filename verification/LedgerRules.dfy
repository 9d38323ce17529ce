/** Which transactions the ledger takes, one rule for each error, and everything one does to the state (src/chain/state.ts). */
module LedgerRules {
  import opened Genesis
  import opened Transactions
  import opened Ledger
  import opened Balances
  import opened OnceOnly

  /** The rule whose violation an error reports. */
  predicate Keeps(o: Oracle, s: State, created: set<Bytes>, tx: Transaction, ctx: Context, e: TxError) {
    var live, sender := tx.lockId in s.locks, GetAccount(s, tx.from);
    match e
    case ScriptsInactive => tx.kind.Transfer? || ctx.scriptsActive
    case InsufficientBalance => tx.kind.Redeem? || tx.amount + tx.fee <= sender.balance
    case BadNonce => tx.kind.Redeem? || sender.nonce == tx.nonce
    case LockExists => tx.kind.Lock? ==> o.txHash(tx) !in s.locks
    case UnknownLock => tx.kind.Redeem? ==> live
    case LockTooYoung => tx.kind.Redeem? ==> tx.lockId !in created
    case ScriptMismatch => tx.kind.Redeem? && live ==> s.locks[tx.lockId].scriptHash == o.scriptHash(tx.redeemScript)
    case AmountMismatch => tx.kind.Redeem? && live ==> s.locks[tx.lockId].amount == tx.amount
    case FeeTooHigh => tx.kind.Redeem? && live ==> tx.fee <= s.locks[tx.lockId].amount
    case ScriptFailed => tx.kind.Redeem? ==> o.authorizes(tx, ctx.height, ctx.mtp)
  }

  function Rank(e: TxError): nat {
    match e
    case ScriptsInactive => 0
    case InsufficientBalance => 1
    case BadNonce => 2
    case LockExists => 3
    case UnknownLock => 4
    case LockTooYoung => 5
    case ScriptMismatch => 6
    case AmountMismatch => 7
    case FeeTooHigh => 8
    case ScriptFailed => 9
  }

  /** A transaction applies exactly when it keeps every rule, and is rejected for the first one it breaks. */
  lemma AppliesIff(o: Oracle, s: State, created: set<Bytes>, tx: Transaction, ctx: Context)
    ensures var r := ApplyTx(o, s, created, tx, ctx);
      && (r.Applied? <==> forall e: TxError :: Keeps(o, s, created, tx, ctx, e))
      && (r.Rejected? ==> !Keeps(o, s, created, tx, ctx, r.error)
                          && forall e: TxError :: Rank(e) < Rank(r.error) ==> Keeps(o, s, created, tx, ctx, e))
  {
    hide Debit, Credit, GetAccount;
    var r := ApplyTx(o, s, created, tx, ctx);
    if r.Rejected? {
      assert !Keeps(o, s, created, tx, ctx, r.error);
    }
  }

  // ---- The whole effect ----

  /** An applied transaction moves these balances, this nonce and this lock, and nothing else. */
  lemma AppliedEffect(o: Oracle, s: State, created: set<Bytes>, tx: Transaction, ctx: Context, a: Bytes)
    requires ApplyTx(o, s, created, tx, ctx).Applied?
    ensures var r := ApplyTx(o, s, created, tx, ctx);
      var before, after := GetAccount(s, a), GetAccount(r.state, a);
      && after.balance == before.balance + (if tx.kind.Redeem? then (if a == tx.to then tx.amount - tx.fee else 0)
           else (if a == tx.from then -(tx.amount + tx.fee) else 0) + (if tx.kind.Transfer? && a == tx.to then tx.amount else 0))
      && after.nonce == before.nonce + (if !tx.kind.Redeem? && a == tx.from then 1 else 0)
      && r.state.locks == (match tx.kind
           case Transfer => s.locks
           case Lock => s.locks[o.txHash(tx) := LockEntry(tx.amount, tx.scriptHash, ctx.height)]
           case Redeem => s.locks - {tx.lockId})
      && r.created == created + (if tx.kind.Lock? then {o.txHash(tx)} else {})
  {
    hide ApplyTx, GetAccount;
    TxPays(o, s, created, tx, ctx, a);
    TxNonces(o, s, created, tx, ctx, a);
    TxLocks(o, s, created, tx, ctx);
  }

  // ---- Blocks ----

  function FeeSum(txs: seq<Transaction>): int {
    if txs == [] then 0 else FeeSum(txs[..|txs| - 1]) + txs[|txs| - 1].fee
  }

  lemma {:induction false} SumFeesAppend(xs: seq<Transaction>, ys: seq<Transaction>)
    ensures SumFees(xs + ys) == SumFees(xs) + SumFees(ys)
  {
    if xs == [] {
      assert xs + ys == ys;
    } else {
      assert (xs + ys)[1..] == xs[1..] + ys;
      SumFeesAppend(xs[1..], ys);
    }
  }

  lemma {:induction false} FeesAreSummed(txs: seq<Transaction>)
    ensures FeeSum(txs) == SumFees(txs)
  {
    if txs != [] {
      var front, last := txs[..|txs| - 1], txs[|txs| - 1];
      assert txs == front + [last] && [last][1..] == [];
      FeesAreSummed(front);
      SumFeesAppend(front, [last]);
    }
  }

  /**
   * A block leaves the state its transactions lead to, with reward and fees added to the miner and nothing
   * else; it fails exactly when some transaction is rejected where its predecessors leave off.
   */
  lemma BlockEffect(o: Oracle, s: State, miner: Bytes, txs: seq<Transaction>, ctx: Context, a: Bytes)
    ensures var r, b := ApplyTxs(o, s, {}, txs, ctx), ApplyBlock(o, s, miner, txs, ctx);
      && (b.Some? <==> r.Applied?)
      && (b.Some? ==>
            && b.value.locks == r.state.locks
            && GetAccount(b.value, a).nonce == GetAccount(r.state, a).nonce
            && GetAccount(b.value, a).balance
               == GetAccount(r.state, a).balance + if a == miner then BlockReward(ctx.height) + FeeSum(txs) else 0)
  {
    hide ApplyTxs, Credit, GetAccount, BlockReward;
    FeesAreSummed(txs);
    var r := ApplyTxs(o, s, {}, txs, ctx);
    if r.Applied? {
      CreditBalance(r.state, miner, BlockReward(ctx.height) + SumFees(txs), a);
      CreditKeepsNonces(r.state, miner, BlockReward(ctx.height) + SumFees(txs), a);
    }
  }

  /** Where a list of transactions stops: at the first one rejected by the state those before it leave. */
  lemma {:induction false} ListStops(o: Oracle, s: State, created: set<Bytes>, txs: seq<Transaction>, ctx: Context) returns (n: nat)
    ensures n <= |txs| && (n == |txs| <==> ApplyTxs(o, s, created, txs, ctx).Applied?)
    ensures forall i :: 0 <= i <= n ==> ApplyTxs(o, s, created, txs[..i], ctx).Applied?
    ensures n < |txs| ==>
      var r := ApplyTxs(o, s, created, txs[..n], ctx);
      ApplyTx(o, r.state, r.created, txs[n], ctx) == ApplyTxs(o, s, created, txs, ctx)
    decreases |txs|
  {
    hide ApplyTx;
    if txs == [] {
      n := 0;
    } else {
      var first := ApplyTx(o, s, created, txs[0], ctx);
      if first.Rejected? {
        n := 0;
      } else {
        n := ListStops(o, first.state, first.created, txs[1..], ctx);
        forall i | 1 <= i <= n + 1
          ensures ApplyTxs(o, s, created, txs[..i], ctx) == ApplyTxs(o, first.state, first.created, txs[1..][..i - 1], ctx)
        {
          assert txs[..i][1..] == txs[1..][..i - 1];
        }
        n := n + 1;
      }
    }
  }

  // ---- Rewards ----

  /** The reward halves, rounding down, every 210,000 blocks from fifty coins. */
  lemma RewardHalves(height: nat)
    requires height / 210_000 < 64
    ensures height < 210_000 ==> BlockReward(height) == 50 * 100_000_000
    ensures height >= 210_000 ==> BlockReward(height) == BlockReward(height - 210_000) / 2
  {
    assert height >= 210_000 ==> (height - 210_000) / 210_000 == height / 210_000 - 1;
  }

  lemma NoRewardLate(height: nat)
    requires height / 210_000 >= 64
    ensures BlockReward(height) == 0
  {
  }
}
