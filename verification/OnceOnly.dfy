/** No transaction takes effect twice on a branch: nonces order spends, and locks are one-shot. */
module OnceOnly {
  import opened Genesis
  import opened Transactions
  import opened Ledger
  import opened Conservation

  /** A transaction that took effect, and the height of its block. */
  datatype Event = Event(height: nat, tx: Transaction)

  type History = seq<Event>

  ghost predicate Creates(o: Oracle, e: Event, id: Bytes) {
    e.tx.kind.Lock? && o.txHash(e.tx) == id
  }

  ghost predicate Redeems(e: Event, id: Bytes) {
    e.tx.kind.Redeem? && e.tx.lockId == id
  }

  /** Sender and nonce are consumed together. */
  ghost predicate SameSlot(a: Transaction, b: Transaction) {
    a.DebitsAccount() && b.DebitsAccount() && a.from == b.from && a.nonce == b.nonce
  }

  /** The collision-freeness needed of `txHash`: on the locks of one history it commits to sender and nonce. */
  ghost predicate LockIdsCommit(o: Oracle, h: History) {
    forall i, j :: 0 <= i < |h| && 0 <= j < |h| && h[i].tx.kind.Lock? && h[j].tx.kind.Lock?
                   && o.txHash(h[i].tx) == o.txHash(h[j].tx)
                   ==> SameSlot(h[i].tx, h[j].tx)
  }

  // ---- What holds after every applied transaction ----

  ghost predicate NoncesSpent(s: State, h: History) {
    forall i :: 0 <= i < |h| && h[i].tx.DebitsAccount() ==> h[i].tx.nonce < GetAccount(s, h[i].tx.from).nonce
  }

  ghost predicate SlotsDistinct(h: History) {
    forall i, j :: 0 <= i < j < |h| ==> !SameSlot(h[i].tx, h[j].tx)
  }

  /** A live lock was created by an event of the history, and if in the current block then it is in `created`. */
  ghost predicate LiveLocksCreated(o: Oracle, s: State, h: History, height: nat, created: set<Bytes>) {
    forall id :: id in s.locks ==>
      && s.locks[id].createdHeight <= height
      && (s.locks[id].createdHeight == height ==> id in created)
      && exists i :: 0 <= i < |h| && Creates(o, h[i], id) && h[i].height == s.locks[id].createdHeight
  }

  /** A redeemed lock is gone, and was created at a strictly lower height. */
  ghost predicate RedeemedOnce(o: Oracle, s: State, h: History) {
    forall j :: 0 <= j < |h| && h[j].tx.kind.Redeem? ==>
      && h[j].tx.lockId !in s.locks
      && exists i :: 0 <= i < j && Creates(o, h[i], h[j].tx.lockId) && h[i].height < h[j].height
  }

  ghost predicate RedeemsDistinct(h: History) {
    forall i, j :: 0 <= i < j < |h| && h[i].tx.kind.Redeem? && h[j].tx.kind.Redeem? ==> h[i].tx.lockId != h[j].tx.lockId
  }

  ghost predicate Inv(o: Oracle, s: State, h: History, height: nat, created: set<Bytes>) {
    && NoncesSpent(s, h)
    && SlotsDistinct(h)
    && LiveLocksCreated(o, s, h, height, created)
    && RedeemedOnce(o, s, h)
    && RedeemsDistinct(h)
  }

  lemma CreditKeepsNonces(s: State, to: Bytes, amount: int, a: Bytes)
    ensures GetAccount(Credit(s, to, amount), a).nonce == GetAccount(s, a).nonce
    ensures Credit(s, to, amount).locks == s.locks
  {
  }

  lemma DebitNonces(s: State, from: Bytes, total: int, a: Bytes)
    ensures GetAccount(Debit(s, from, total), a).nonce == GetAccount(s, a).nonce + (if a == from then 1 else 0)
    ensures Debit(s, from, total).locks == s.locks
  {
  }

  /** A debiting transaction carries its sender's nonce and advances it; no other nonce moves. */
  lemma TxNonces(o: Oracle, s: State, created: set<Bytes>, tx: Transaction, ctx: Context, a: Bytes)
    ensures var r := ApplyTx(o, s, created, tx, ctx);
      r.Applied? ==>
        && (tx.DebitsAccount() ==> tx.nonce == GetAccount(s, tx.from).nonce)
        && GetAccount(r.state, a).nonce == GetAccount(s, a).nonce + (if tx.DebitsAccount() && a == tx.from then 1 else 0)
  {
    var total := tx.amount + tx.fee;
    DebitNonces(s, tx.from, total, a);
    CreditKeepsNonces(Debit(s, tx.from, total), tx.to, tx.amount, a);
    if tx.kind.Redeem? && tx.lockId in s.locks {
      CreditKeepsNonces(s.(locks := s.locks - {tx.lockId}), tx.to, s.locks[tx.lockId].amount - tx.fee, a);
    }
    hide Debit, Credit;
  }

  /** What a transaction does to the lock table. */
  lemma TxLocks(o: Oracle, s: State, created: set<Bytes>, tx: Transaction, ctx: Context)
    ensures var r := ApplyTx(o, s, created, tx, ctx);
      r.Applied? ==>
        && (tx.kind.Transfer? ==> r.state.locks == s.locks && r.created == created)
        && (tx.kind.Lock? ==> var id := o.txHash(tx);
              && id !in s.locks
              && r.state.locks == s.locks[id := LockEntry(tx.amount, tx.scriptHash, ctx.height)]
              && r.created == created + {id})
        && (tx.kind.Redeem? ==>
              && tx.lockId in s.locks && tx.lockId !in created
              && r.state.locks == s.locks - {tx.lockId} && r.created == created)
  {
    var total := tx.amount + tx.fee;
    DebitNonces(s, tx.from, total, tx.from);
    CreditKeepsNonces(Debit(s, tx.from, total), tx.to, tx.amount, tx.from);
    if tx.lockId in s.locks {
      CreditKeepsNonces(s.(locks := s.locks - {tx.lockId}), tx.to, s.locks[tx.lockId].amount - tx.fee, tx.from);
    }
    hide Debit, Credit;
  }

  lemma SlotStep(o: Oracle, s: State, h: History, created: set<Bytes>, tx: Transaction, ctx: Context)
    requires NoncesSpent(s, h) && SlotsDistinct(h)
    requires ApplyTx(o, s, created, tx, ctx).Applied?
    ensures var r, h' := ApplyTx(o, s, created, tx, ctx), h + [Event(ctx.height, tx)];
      NoncesSpent(r.state, h') && SlotsDistinct(h')
  {
    var r, h' := ApplyTx(o, s, created, tx, ctx), h + [Event(ctx.height, tx)];
    TxNonces(o, s, created, tx, ctx, tx.from);
    forall i | 0 <= i < |h'| && h'[i].tx.DebitsAccount()
      ensures h'[i].tx.nonce < GetAccount(r.state, h'[i].tx.from).nonce
    {
      TxNonces(o, s, created, tx, ctx, h'[i].tx.from);
      hide ApplyTx;
    }
    hide ApplyTx;
  }

  lemma LiveStep(o: Oracle, s: State, h: History, created: set<Bytes>, tx: Transaction, ctx: Context)
    requires LiveLocksCreated(o, s, h, ctx.height, created)
    requires ApplyTx(o, s, created, tx, ctx).Applied?
    ensures var r, h' := ApplyTx(o, s, created, tx, ctx), h + [Event(ctx.height, tx)];
      LiveLocksCreated(o, r.state, h', ctx.height, r.created)
  {
    TxLocks(o, s, created, tx, ctx);
    hide ApplyTx;
    var r, h' := ApplyTx(o, s, created, tx, ctx), h + [Event(ctx.height, tx)];
    forall id | id in r.state.locks
      ensures exists i :: 0 <= i < |h'| && Creates(o, h'[i], id) && h'[i].height == r.state.locks[id].createdHeight
    {
      if tx.kind.Lock? && id == o.txHash(tx) {
        assert Creates(o, h'[|h|], id);
      } else {
        var i :| 0 <= i < |h| && Creates(o, h[i], id) && h[i].height == s.locks[id].createdHeight;
        assert h'[i] == h[i];
      }
    }
  }

  lemma RedeemStep(o: Oracle, s: State, h: History, created: set<Bytes>, tx: Transaction, ctx: Context)
    requires Inv(o, s, h, ctx.height, created)
    requires ApplyTx(o, s, created, tx, ctx).Applied?
    requires LockIdsCommit(o, h + [Event(ctx.height, tx)])
    ensures var r, h' := ApplyTx(o, s, created, tx, ctx), h + [Event(ctx.height, tx)];
      RedeemedOnce(o, r.state, h') && RedeemsDistinct(h')
  {
    TxLocks(o, s, created, tx, ctx);
    TxNonces(o, s, created, tx, ctx, tx.from);
    hide ApplyTx;
    var r, h' := ApplyTx(o, s, created, tx, ctx), h + [Event(ctx.height, tx)];
    forall j | 0 <= j < |h'| && h'[j].tx.kind.Redeem?
      ensures h'[j].tx.lockId !in r.state.locks
      ensures exists i :: 0 <= i < j && Creates(o, h'[i], h'[j].tx.lockId) && h'[i].height < h'[j].height
    {
      var id := h'[j].tx.lockId;
      if j == |h| {
        var i :| 0 <= i < |h| && Creates(o, h[i], id) && h[i].height == s.locks[id].createdHeight;
        assert h'[i] == h[i];
      } else {
        assert h'[j] == h[j];
        var i :| 0 <= i < j && Creates(o, h[i], id) && h[i].height < h[j].height;
        assert h'[i] == h[i];
        // A lock with this id again would have to reuse a spent nonce.
        assert h'[|h|].tx == tx;
        assert !(tx.kind.Lock? && o.txHash(tx) == id);
      }
    }
  }

  lemma {:induction false} TxsStep(o: Oracle, s: State, h: History, created: set<Bytes>, txs: seq<Transaction>, ctx: Context)
    requires Inv(o, s, h, ctx.height, created)
    requires ApplyTxs(o, s, created, txs, ctx).Applied?
    requires LockIdsCommit(o, h + BlockEvents(txs, ctx.height))
    ensures var r := ApplyTxs(o, s, created, txs, ctx);
      Inv(o, r.state, h + BlockEvents(txs, ctx.height), ctx.height, r.created)
    decreases |txs|
  {
    var all := h + BlockEvents(txs, ctx.height);
    if txs == [] {
      assert all == h;
    } else {
      var r := ApplyTx(o, s, created, txs[0], ctx);
      var h' := h + [Event(ctx.height, txs[0])];
      assert h' + BlockEvents(txs[1..], ctx.height) == all;
      assert LockIdsCommit(o, h') by {
        assert h' == all[..|h| + 1];
        hide SameSlot;
      }
      hide ApplyTx, NoncesSpent, SlotsDistinct, LiveLocksCreated, RedeemedOnce, RedeemsDistinct, LockIdsCommit;
      SlotStep(o, s, h, created, txs[0], ctx);
      LiveStep(o, s, h, created, txs[0], ctx);
      RedeemStep(o, s, h, created, txs[0], ctx);
      TxsStep(o, r.state, h', r.created, txs[1..], ctx);
    }
  }

  // ---- Whole chains ----

  function BlockEvents(txs: seq<Transaction>, height: nat): (h: History)
    ensures |h| == |txs|
  {
    seq(|txs|, i requires 0 <= i < |txs| => Event(height, txs[i]))
  }

  /** Everything that took effect on a chain, in order. */
  function Events(blocks: seq<LedgerBlock>): History
    decreases |blocks|
  {
    if blocks == [] then []
    else Events(blocks[..|blocks| - 1]) + BlockEvents(blocks[|blocks| - 1].txs, |blocks|)
  }

  lemma CoinbaseStep(o: Oracle, s: State, h: History, height: nat, created: set<Bytes>, miner: Bytes, amount: int)
    requires Inv(o, s, h, height, created)
    ensures Inv(o, Credit(s, miner, amount), h, height, created)
  {
    forall a
      ensures GetAccount(Credit(s, miner, amount), a).nonce == GetAccount(s, a).nonce
    {
      CreditKeepsNonces(s, miner, amount, a);
    }
    CreditKeepsNonces(s, miner, amount, miner);
    hide Credit;
  }

  lemma NextBlock(o: Oracle, s: State, h: History, height: nat, created: set<Bytes>)
    requires Inv(o, s, h, height, created)
    ensures Inv(o, s, h, height + 1, {})
  {
  }

  lemma CommitPrefix(o: Oracle, h: History, more: History)
    requires LockIdsCommit(o, h + more)
    ensures LockIdsCommit(o, h)
  {
    hide SameSlot;
    var all := h + more;
    assert forall i :: 0 <= i < |h| ==> all[i] == h[i];
  }

  lemma {:induction false} ReplayInv(o: Oracle, blocks: seq<LedgerBlock>, s: State) returns (created: set<Bytes>)
    requires Replay(o, blocks) == Some(s) && LockIdsCommit(o, Events(blocks))
    ensures Inv(o, s, Events(blocks), |blocks|, created)
    decreases |blocks|
  {
    if blocks == [] {
      created := {};
    } else {
      hide Inv, LockIdsCommit, BlockReward, ApplyTxs, SumFees;
      var n := |blocks| - 1;
      var b, before := blocks[n], Replay(o, blocks[..n]);
      var ctx := ContextOf(b, n + 1);
      var h := Events(blocks[..n]);
      CommitPrefix(o, h, BlockEvents(b.txs, n + 1));
      created := ReplayInv(o, blocks[..n], before.value);
      NextBlock(o, before.value, h, n, created);
      var r := ApplyTxs(o, before.value, {}, b.txs, ctx);
      TxsStep(o, before.value, h, {}, b.txs, ctx);
      created := r.created;
      CoinbaseStep(o, r.state, Events(blocks), n + 1, created, b.miner, BlockReward(n + 1) + SumFees(b.txs));
    }
  }

  /**
   * On any chain: no (sender, nonce) pair takes effect twice; each lock id is created at most once and
   * redeemed at most once; and every redeem spends a lock created strictly below it.
   */
  lemma NothingTakesEffectTwice(o: Oracle, blocks: seq<LedgerBlock>, s: State)
    requires Replay(o, blocks) == Some(s) && LockIdsCommit(o, Events(blocks))
    ensures var h := Events(blocks);
      && (forall i, j :: 0 <= i < j < |h| ==> !SameSlot(h[i].tx, h[j].tx))
      && (forall i, j, id :: 0 <= i < j < |h| && Creates(o, h[i], id) ==> !Creates(o, h[j], id))
      && (forall i, j, id :: 0 <= i < j < |h| && Redeems(h[i], id) ==> !Redeems(h[j], id))
      && (forall j, id :: 0 <= j < |h| && Redeems(h[j], id) ==>
            exists i :: 0 <= i < j && Creates(o, h[i], id) && h[i].height < h[j].height)
  {
    hide Replay;
    var created := ReplayInv(o, blocks, s);
    hide LiveLocksCreated, NoncesSpent;
  }

  // ---- Nonces never fall ----

  lemma {:induction false} TxsNonces(o: Oracle, s: State, created: set<Bytes>, txs: seq<Transaction>, ctx: Context, a: Bytes)
    ensures var r := ApplyTxs(o, s, created, txs, ctx);
      r.Applied? ==> GetAccount(r.state, a).nonce >= GetAccount(s, a).nonce
    decreases |txs|
  {
    hide ApplyTx;
    if txs != [] {
      var r := ApplyTx(o, s, created, txs[0], ctx);
      TxNonces(o, s, created, txs[0], ctx, a);
      if r.Applied? {
        TxsNonces(o, r.state, r.created, txs[1..], ctx, a);
      }
    }
  }

  lemma {:induction false} NoncesNeverFall(o: Oracle, blocks: seq<LedgerBlock>, n: nat, a: Bytes)
    requires n <= |blocks| && Replay(o, blocks).Some?
    ensures Replay(o, blocks[..n]).Some?
    ensures GetAccount(Replay(o, blocks[..n]).value, a).nonce <= GetAccount(Replay(o, blocks).value, a).nonce
    decreases |blocks|
  {
    hide BlockReward, ApplyTxs;
    if n == |blocks| {
      assert blocks[..n] == blocks;
    } else {
      var b, last := blocks[|blocks| - 1], blocks[..|blocks| - 1];
      NoncesNeverFall(o, last, n, a);
      assert last[..n] == blocks[..n];
      var ctx := ContextOf(b, |blocks|);
      TxsNonces(o, Replay(o, last).value, {}, b.txs, ctx, a);
      var r := ApplyTxs(o, Replay(o, last).value, {}, b.txs, ctx);
      CreditKeepsNonces(r.state, b.miner, BlockReward(|blocks|) + SumFees(b.txs), a);
      hide Credit;
    }
  }
}
