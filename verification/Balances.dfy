/** What one transaction does to one balance, and lists of transactions in sequence (src/chain/state.ts). */
module Balances {
  import opened Genesis
  import opened Transactions
  import opened Ledger

  lemma CreditBalance(s: State, to: Bytes, x: int, a: Bytes)
    ensures GetAccount(Credit(s, to, x), a).balance == GetAccount(s, a).balance + if a == to then x else 0
  {
  }

  lemma DebitBalance(s: State, from: Bytes, x: int, a: Bytes)
    ensures GetAccount(Debit(s, from, x), a).balance == GetAccount(s, a).balance - if a == from then x else 0
  {
  }

  /** What a transaction does to the balance of an address. */
  function Paid(tx: Transaction, a: Bytes): int {
    match tx.kind
    case Transfer => (if a == tx.to then tx.amount else 0) - if a == tx.from then tx.amount + tx.fee else 0
    case Lock => if a == tx.from then -tx.amount - tx.fee else 0
    case Redeem => if a == tx.to then tx.amount - tx.fee else 0
  }

  lemma TxPays(o: Oracle, s: State, created: set<Bytes>, tx: Transaction, ctx: Context, a: Bytes)
    ensures var r := ApplyTx(o, s, created, tx, ctx);
      r.Applied? ==> GetAccount(r.state, a).balance - GetAccount(s, a).balance == Paid(tx, a)
  {
    hide Debit, Credit, GetAccount;
    match tx.kind {
      case Transfer =>
        DebitBalance(s, tx.from, tx.amount + tx.fee, a);
        CreditBalance(Debit(s, tx.from, tx.amount + tx.fee), tx.to, tx.amount, a);
      case Lock =>
        var d := Debit(s, tx.from, tx.amount + tx.fee);
        DebitBalance(s, tx.from, tx.amount + tx.fee, a);
        LocksApart(d, d.locks[o.txHash(tx) := LockEntry(tx.amount, tx.scriptHash, ctx.height)], a);
      case Redeem =>
        if tx.lockId in s.locks {
          LocksApart(s, s.locks - {tx.lockId}, a);
          CreditBalance(s.(locks := s.locks - {tx.lockId}), tx.to, s.locks[tx.lockId].amount - tx.fee, a);
        }
    }
  }

  lemma LocksApart(s: State, locks: map<Bytes, LockEntry>, a: Bytes)
    ensures GetAccount(s.(locks := locks), a) == GetAccount(s, a)
  {
  }

  lemma {:induction false} ApplyTxsAppend(o: Oracle, s: State, created: set<Bytes>, xs: seq<Transaction>, ys: seq<Transaction>, ctx: Context)
    ensures var r := ApplyTxs(o, s, created, xs, ctx);
      ApplyTxs(o, s, created, xs + ys, ctx) == if r.Rejected? then r else ApplyTxs(o, r.state, r.created, ys, ctx)
    decreases |xs|
  {
    hide ApplyTx;
    if xs == [] {
      assert xs + ys == ys;
    } else {
      assert (xs + ys)[1..] == xs[1..] + ys;
      var r := ApplyTx(o, s, created, xs[0], ctx);
      if r.Applied? {
        ApplyTxsAppend(o, r.state, r.created, xs[1..], ys, ctx);
      }
    }
  }

  lemma ApplyTxsOne(o: Oracle, s: State, created: set<Bytes>, tx: Transaction, ctx: Context)
    ensures ApplyTxs(o, s, created, [tx], ctx) == ApplyTx(o, s, created, tx, ctx)
  {
    hide ApplyTx;
    var r := ApplyTx(o, s, created, tx, ctx);
    assert [tx][1..] == [];
    assert r.Applied? ==> ApplyTxs(o, r.state, r.created, [], ctx) == r;
  }
}
