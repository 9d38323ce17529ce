/** Money is only ever created by the coinbase: every replayed chain holds exactly what was issued. */
module Conservation {
  import opened Genesis
  import opened Transactions
  import opened Ledger
  import opened Supply

  /** The sum of a finite table of integers. */
  ghost function Sum(m: map<Bytes, int>): int {
    if m == map[] then 0
    else
      var k :| k in m;
      m[k] + Sum(m - {k})
  }

  /** Any key may be split off first. */
  lemma {:induction false} SumRemove(m: map<Bytes, int>, k: Bytes)
    requires k in m
    ensures Sum(m) == m[k] + Sum(m - {k})
    decreases |m|
  {
    var j :| j in m && Sum(m) == m[j] + Sum(m - {j});
    if j != k {
      SumRemove(m - {j}, k);
      SumRemove(m - {k}, j);
      assert m - {j} - {k} == m - {k} - {j};
    }
  }

  lemma SumUpdate(m: map<Bytes, int>, k: Bytes, v: int)
    ensures Sum(m[k := v]) == Sum(m) - (if k in m then m[k] else 0) + v
  {
    SumRemove(m[k := v], k);
    assert m[k := v] - {k} == m - {k};
    if k in m {
      SumRemove(m, k);
    } else {
      assert m - {k} == m;
    }
  }

  lemma {:induction false} SumAtLeastPart(m: map<Bytes, int>, k: Bytes)
    requires k in m && forall j :: j in m ==> m[j] >= 0
    ensures 0 <= m[k] <= Sum(m)
  {
    SumRemove(m, k);
    SumNonNegative(m - {k});
  }

  lemma {:induction false} SumNonNegative(m: map<Bytes, int>)
    requires forall j :: j in m ==> m[j] >= 0
    ensures Sum(m) >= 0
    decreases |m|
  {
    if m != map[] {
      var k :| k in m;
      SumRemove(m, k);
      SumNonNegative(m - {k});
    }
  }

  ghost function Balances(s: State): map<Bytes, int> {
    map a | a in s.accounts :: s.accounts[a].balance
  }

  ghost function Amounts(s: State): map<Bytes, int> {
    map id | id in s.locks :: s.locks[id].amount
  }

  /** All money in a state: spendable plus locked. */
  ghost function Total(s: State): int {
    Sum(Balances(s)) + Sum(Amounts(s))
  }

  lemma CreditTotal(s: State, to: Bytes, amount: int)
    ensures Total(Credit(s, to, amount)) == Total(s) + amount
  {
    var b := GetAccount(s, to).balance;
    SumUpdate(Balances(s), to, b + amount);
    assert Balances(Credit(s, to, amount)) == Balances(s)[to := b + amount];
    assert Amounts(Credit(s, to, amount)) == Amounts(s);
  }

  lemma DebitTotal(s: State, from: Bytes, total: int)
    ensures Total(Debit(s, from, total)) == Total(s) - total
  {
    var sender := GetAccount(s, from);
    SumUpdate(Balances(s), from, sender.balance - total);
    assert Amounts(Debit(s, from, total)) == Amounts(s);
    if sender.balance - total == 0 && sender.nonce + 1 == 0 {
      SumRemove(Balances(s)[from := 0], from);
      assert Balances(Debit(s, from, total)) == Balances(s)[from := 0] - {from};
    } else {
      assert Balances(Debit(s, from, total)) == Balances(s)[from := sender.balance - total];
    }
  }

  lemma AddLockTotal(s: State, id: Bytes, entry: LockEntry)
    requires id !in s.locks
    ensures Total(s.(locks := s.locks[id := entry])) == Total(s) + entry.amount
  {
    SumUpdate(Amounts(s), id, entry.amount);
    var s' := s.(locks := s.locks[id := entry]);
    assert Balances(s') == Balances(s);
    assert Amounts(s') == Amounts(s)[id := entry.amount];
  }

  lemma RemoveLockTotal(s: State, id: Bytes)
    requires id in s.locks
    ensures Total(s.(locks := s.locks - {id})) == Total(s) - s.locks[id].amount
  {
    SumRemove(Amounts(s), id);
    var s' := s.(locks := s.locks - {id});
    assert Balances(s') == Balances(s);
    assert Amounts(s') == Amounts(s) - {id};
  }

  /** A transaction of any kind destroys exactly its fee. */
  lemma TxTotal(o: Oracle, s: State, created: set<Bytes>, tx: Transaction, ctx: Context)
    ensures var r := ApplyTx(o, s, created, tx, ctx);
      r.Applied? ==> Total(r.state) == Total(s) - tx.fee
  {
    hide Total, Debit, Credit;
    var r := ApplyTx(o, s, created, tx, ctx);
    if r.Applied? {
      match tx.kind
      case Transfer =>
        DebitTotal(s, tx.from, tx.amount + tx.fee);
        CreditTotal(Debit(s, tx.from, tx.amount + tx.fee), tx.to, tx.amount);
      case Lock =>
        var d := Debit(s, tx.from, tx.amount + tx.fee);
        DebitTotal(s, tx.from, tx.amount + tx.fee);
        assert d.locks == s.locks by { DebitKeepsLocks(s, tx.from, tx.amount + tx.fee); }
        AddLockTotal(d, o.txHash(tx), LockEntry(tx.amount, tx.scriptHash, ctx.height));
      case Redeem =>
        RemoveLockTotal(s, tx.lockId);
        CreditTotal(s.(locks := s.locks - {tx.lockId}), tx.to, s.locks[tx.lockId].amount - tx.fee);
    }
  }

  lemma DebitKeepsLocks(s: State, from: Bytes, total: int)
    ensures Debit(s, from, total).locks == s.locks
  {
  }

  lemma {:induction false} TxsTotal(o: Oracle, s: State, created: set<Bytes>, txs: seq<Transaction>, ctx: Context)
    ensures var r := ApplyTxs(o, s, created, txs, ctx);
      r.Applied? ==> Total(r.state) == Total(s) - SumFees(txs)
    decreases |txs|
  {
    hide Total, ApplyTx;
    if txs != [] {
      var first := ApplyTx(o, s, created, txs[0], ctx);
      TxTotal(o, s, created, txs[0], ctx);
      if first.Applied? {
        TxsTotal(o, first.state, first.created, txs[1..], ctx);
      }
    }
  }

  /** A block adds exactly its reward: fees move to the miner, nothing else changes the total. */
  lemma BlockTotal(o: Oracle, s: State, miner: Bytes, txs: seq<Transaction>, ctx: Context)
    ensures var r := ApplyBlock(o, s, miner, txs, ctx);
      r.Some? ==> Total(r.value) == Total(s) + BlockReward(ctx.height)
  {
    hide Total, ApplyTxs, Credit, BlockReward;
    TxsTotal(o, s, {}, txs, ctx);
    var r := ApplyTxs(o, s, {}, txs, ctx);
    if r.Applied? {
      CreditTotal(r.state, miner, BlockReward(ctx.height) + SumFees(txs));
    }
  }

  // ---- Whole chains ----

  /** What the ledger needs of a block; its height is its position. */
  datatype LedgerBlock = LedgerBlock(miner: Bytes, txs: seq<Transaction>, mtp: int)

  function ContextOf(b: LedgerBlock, height: nat): Context {
    Context(ScriptsActive(b.mtp), height, b.mtp)
  }

  /** The state after the blocks at heights 1, 2, ...; `None` if one of them does not apply. */
  function Replay(o: Oracle, blocks: seq<LedgerBlock>): Option<State>
    decreases |blocks|
  {
    if blocks == [] then Some(EMPTY_STATE)
    else
      var b := blocks[|blocks| - 1];
      var before := Replay(o, blocks[..|blocks| - 1]);
      if before.None? then None else ApplyBlock(o, before.value, b.miner, b.txs, ContextOf(b, |blocks|))
  }

  /** On every chain from genesis, money held equals money issued, and never exceeds the cap. */
  lemma {:induction false} MoneyIsConserved(o: Oracle, blocks: seq<LedgerBlock>)
    ensures var s := Replay(o, blocks);
      s.Some? ==> Total(s.value) == Issued(|blocks|) <= MAX_MONEY
    decreases |blocks|
  {
    hide Total, ApplyBlock;
    IssuedAtMostMaxMoney(|blocks|);
    if blocks == [] {
      EmptyTotal();
    } else {
      var b := blocks[|blocks| - 1];
      var before := Replay(o, blocks[..|blocks| - 1]);
      MoneyIsConserved(o, blocks[..|blocks| - 1]);
      if before.Some? {
        BlockTotal(o, before.value, b.miner, b.txs, ContextOf(b, |blocks|));
        hide BlockReward;
      }
    }
  }

  lemma EmptyTotal()
    ensures Total(EMPTY_STATE) == 0
  {
    assert Balances(EMPTY_STATE) == map[] && Amounts(EMPTY_STATE) == map[];
  }

  // ---- No negative balances, no truncation ----

  ghost predicate Solvent(s: State) {
    && (forall a :: a in s.accounts ==> s.accounts[a].balance >= 0)
    && (forall id :: id in s.locks ==> s.locks[id].amount >= 0)
  }

  lemma TxSolvent(o: Oracle, s: State, created: set<Bytes>, tx: Transaction, ctx: Context)
    requires Solvent(s) && NonNegative(tx)
    ensures var r := ApplyTx(o, s, created, tx, ctx); r.Applied? ==> Solvent(r.state)
  {
  }

  lemma {:induction false} TxsSolvent(o: Oracle, s: State, created: set<Bytes>, txs: seq<Transaction>, ctx: Context)
    requires Solvent(s) && forall i :: 0 <= i < |txs| ==> NonNegative(txs[i])
    ensures var r := ApplyTxs(o, s, created, txs, ctx); r.Applied? ==> Solvent(r.state)
    ensures SumFees(txs) >= 0
    decreases |txs|
  {
    hide Solvent, ApplyTx;
    if txs != [] {
      var first := ApplyTx(o, s, created, txs[0], ctx);
      TxSolvent(o, s, created, txs[0], ctx);
      if first.Applied? {
        TxsSolvent(o, first.state, first.created, txs[1..], ctx);
      } else {
        TxsSolvent(o, s, created, txs[1..], ctx);
      }
    }
  }

  ghost predicate AllNonNegative(blocks: seq<LedgerBlock>) {
    forall i, j :: 0 <= i < |blocks| && 0 <= j < |blocks[i].txs| ==> NonNegative(blocks[i].txs[j])
  }

  lemma {:induction false} ReplaySolvent(o: Oracle, blocks: seq<LedgerBlock>)
    requires AllNonNegative(blocks)
    ensures var s := Replay(o, blocks); s.Some? ==> Solvent(s.value)
    decreases |blocks|
  {
    hide ApplyTxs, BlockReward;
    if blocks != [] {
      var b := blocks[|blocks| - 1];
      var before := Replay(o, blocks[..|blocks| - 1]);
      ReplaySolvent(o, blocks[..|blocks| - 1]);
      if before.Some? {
        TxsSolvent(o, before.value, {}, b.txs, ContextOf(b, |blocks|));
      }
    }
  }

  /** Every balance and every lock fits the 64-bit field the state root commits it to. */
  lemma BalancesNeverTruncate(o: Oracle, blocks: seq<LedgerBlock>, s: State)
    requires AllNonNegative(blocks) && Replay(o, blocks) == Some(s)
    ensures forall a :: a in s.accounts ==> 0 <= s.accounts[a].balance <= MAX_MONEY < 0x1_0000_0000_0000_0000
    ensures forall id :: id in s.locks ==> 0 <= s.locks[id].amount <= MAX_MONEY
  {
    hide Replay;
    ReplaySolvent(o, blocks);
    MoneyIsConserved(o, blocks);
    SumNonNegative(Balances(s));
    SumNonNegative(Amounts(s));
    forall a | a in s.accounts
      ensures 0 <= s.accounts[a].balance <= MAX_MONEY
    {
      SumAtLeastPart(Balances(s), a);
    }
    forall id | id in s.locks
      ensures 0 <= s.locks[id].amount <= MAX_MONEY
    {
      SumAtLeastPart(Amounts(s), id);
    }
  }
}
