/** Account and lock state, and what a transaction and a block do to it (src/chain/state.ts). */
module Ledger {
  import opened Genesis
  import opened Transactions

  datatype Account = Account(balance: int, nonce: int)
  datatype LockEntry = LockEntry(amount: int, scriptHash: Bytes, createdHeight: nat)
  datatype State = State(accounts: map<Bytes, Account>, locks: map<Bytes, LockEntry>)

  const EMPTY_STATE := State(map[], map[])

  /** The block a transaction is applied in. */
  datatype Context = Context(scriptsActive: bool, height: nat, mtp: int)

  /** Hashes and script evaluation, as the ledger sees them. */
  datatype Oracle = Oracle(
    txHash: Transaction -> Bytes,
    scriptHash: Bytes -> Bytes,
    authorizes: (Transaction, nat, int) -> bool)

  datatype TxError =
    | ScriptsInactive | InsufficientBalance | BadNonce | LockExists
    | UnknownLock | LockTooYoung | ScriptMismatch | AmountMismatch | FeeTooHigh | ScriptFailed

  /** The state after a step together with the locks created so far in the block, or the reason it failed. */
  datatype Outcome = Applied(state: State, created: set<Bytes>) | Rejected(error: TxError)

  function GetAccount(s: State, address: Bytes): Account {
    if address in s.accounts then s.accounts[address] else Account(0, 0)
  }

  /** Take `total` from a sender and advance its nonce, dropping an account that became empty. */
  function Debit(s: State, from: Bytes, total: int): State {
    var sender := GetAccount(s, from);
    var debited := Account(sender.balance - total, sender.nonce + 1);
    if debited.balance == 0 && debited.nonce == 0 then s.(accounts := s.accounts - {from})
    else s.(accounts := s.accounts[from := debited])
  }

  function Credit(s: State, to: Bytes, amount: int): State {
    var recipient := GetAccount(s, to);
    s.(accounts := s.accounts[to := recipient.(balance := recipient.balance + amount)])
  }

  function DebitError(s: State, tx: Transaction): Option<TxError> {
    var sender := GetAccount(s, tx.from);
    if sender.balance < tx.amount + tx.fee then Some(InsufficientBalance)
    else if tx.nonce != sender.nonce then Some(BadNonce)
    else None
  }

  function RedeemError(o: Oracle, s: State, created: set<Bytes>, tx: Transaction, ctx: Context): Option<TxError> {
    if tx.lockId !in s.locks then Some(UnknownLock)
    else
      var lock := s.locks[tx.lockId];
      if tx.lockId in created then Some(LockTooYoung)
      else if o.scriptHash(tx.redeemScript) != lock.scriptHash then Some(ScriptMismatch)
      else if tx.amount != lock.amount then Some(AmountMismatch)
      else if tx.fee > lock.amount then Some(FeeTooHigh)
      else if !o.authorizes(tx, ctx.height, ctx.mtp) then Some(ScriptFailed)
      else None
  }

  /** One transaction. */
  function ApplyTx(o: Oracle, s: State, created: set<Bytes>, tx: Transaction, ctx: Context): Outcome {
    match tx.kind
    case Transfer =>
      var err := DebitError(s, tx);
      if err.Some? then Rejected(err.value)
      else Applied(Credit(Debit(s, tx.from, tx.amount + tx.fee), tx.to, tx.amount), created)
    case Lock =>
      if !ctx.scriptsActive then Rejected(ScriptsInactive) else
      var err := DebitError(s, tx);
      var id := o.txHash(tx);
      if err.Some? then Rejected(err.value)
      else if id in s.locks then Rejected(LockExists)
      else
        var d := Debit(s, tx.from, tx.amount + tx.fee);
        Applied(d.(locks := d.locks[id := LockEntry(tx.amount, tx.scriptHash, ctx.height)]), created + {id})
    case Redeem =>
      if !ctx.scriptsActive then Rejected(ScriptsInactive) else
      var err := RedeemError(o, s, created, tx, ctx);
      if err.Some? then Rejected(err.value)
      else
        var payout := s.locks[tx.lockId].amount - tx.fee;
        var r := s.(locks := s.locks - {tx.lockId});
        Applied(if payout > 0 then Credit(r, tx.to, payout) else r, created)
  }

  /** A list of transactions, stopping at the first that fails. */
  function ApplyTxs(o: Oracle, s: State, created: set<Bytes>, txs: seq<Transaction>, ctx: Context): Outcome
    decreases |txs|
  {
    if txs == [] then Applied(s, created)
    else
      var first := ApplyTx(o, s, created, txs[0], ctx);
      if first.Rejected? then first else ApplyTxs(o, first.state, first.created, txs[1..], ctx)
  }

  function SumFees(txs: seq<Transaction>): int {
    if txs == [] then 0 else txs[0].fee + SumFees(txs[1..])
  }

  /** A whole block: its transactions, then reward and fees to the miner. `None` when a transaction fails. */
  function ApplyBlock(o: Oracle, s: State, miner: Bytes, txs: seq<Transaction>, ctx: Context): Option<State> {
    var r := ApplyTxs(o, s, {}, txs, ctx);
    if r.Rejected? then None
    else Some(Credit(r.state, miner, BlockReward(ctx.height) + SumFees(txs)))
  }

  // ---- The mutable state of the program ----

  /** The maps `applyTx` and `applyBlockTxs` update in place. */
  class LedgerState {
    var accounts: map<Bytes, Account>
    var locks: map<Bytes, LockEntry>

    ghost function Value(): State
      reads this
    {
      State(accounts, locks)
    }

    /** `cloneState`: the tables of `s` under a fresh object. */
    constructor (s: State)
      ensures Value() == s
    {
      accounts, locks := s.accounts, s.locks;
    }

    method GetBalance(address: Bytes) returns (a: Account)
      ensures a == GetAccount(Value(), address)
    {
      a := if address in accounts then accounts[address] else Account(0, 0);
    }

    /** Debit the sender of a transfer or lock; nothing changes on an error. */
    method Charge(tx: Transaction) returns (err: Option<TxError>)
      modifies this`accounts
      ensures err == DebitError(old(Value()), tx)
      ensures Value() == if err.Some? then old(Value()) else Debit(old(Value()), tx.from, tx.amount + tx.fee)
    {
      var sender := GetBalance(tx.from);
      var total := tx.amount + tx.fee;
      if sender.balance < total {
        return Some(InsufficientBalance);
      }
      if tx.nonce != sender.nonce {
        return Some(BadNonce);
      }
      sender := Account(sender.balance - total, sender.nonce + 1);
      if sender.balance == 0 && sender.nonce == 0 {
        accounts := accounts - {tx.from};
      } else {
        accounts := accounts[tx.from := sender];
      }
      return None;
    }

    method Pay(to: Bytes, amount: int)
      modifies this`accounts
      ensures Value() == Credit(old(Value()), to, amount)
    {
      var recipient := GetBalance(to);
      accounts := accounts[to := recipient.(balance := recipient.balance + amount)];
    }

    method ApplyTransfer(tx: Transaction) returns (err: Option<TxError>)
      modifies this`accounts
      ensures err == DebitError(old(Value()), tx)
      ensures Value() == if err.Some? then old(Value())
                         else Credit(Debit(old(Value()), tx.from, tx.amount + tx.fee), tx.to, tx.amount)
    {
      err := Charge(tx);
      if err.None? {
        Pay(tx.to, tx.amount);
      }
    }

    /** Apply one transaction in place. An error leaves the state untouched. */
    method Apply(o: Oracle, created: set<Bytes>, tx: Transaction, ctx: Context)
      returns (err: Option<TxError>, created': set<Bytes>)
      modifies this
      ensures var r := ApplyTx(o, old(Value()), created, tx, ctx);
        if r.Applied? then err.None? && Value() == r.state && created' == r.created
        else err == Some(r.error) && Value() == old(Value()) && created' == created
    {
      created' := created;
      match tx.kind {
        case Transfer =>
          err := ApplyTransfer(tx);
        case Lock =>
          if !ctx.scriptsActive {
            return Some(ScriptsInactive), created;
          }
          var sender := GetBalance(tx.from);
          if sender.balance < tx.amount + tx.fee {
            return Some(InsufficientBalance), created;
          }
          if tx.nonce != sender.nonce {
            return Some(BadNonce), created;
          }
          var id := o.txHash(tx);
          if id in locks {
            return Some(LockExists), created;
          }
          err := Charge(tx);
          locks := locks[id := LockEntry(tx.amount, tx.scriptHash, ctx.height)];
          created' := created + {id};
        case Redeem =>
          if !ctx.scriptsActive {
            return Some(ScriptsInactive), created;
          }
          if tx.lockId !in locks {
            return Some(UnknownLock), created;
          }
          var lock := locks[tx.lockId];
          if tx.lockId in created {
            return Some(LockTooYoung), created;
          }
          if o.scriptHash(tx.redeemScript) != lock.scriptHash {
            return Some(ScriptMismatch), created;
          }
          if tx.amount != lock.amount {
            return Some(AmountMismatch), created;
          }
          if tx.fee > lock.amount {
            return Some(FeeTooHigh), created;
          }
          if !o.authorizes(tx, ctx.height, ctx.mtp) {
            return Some(ScriptFailed), created;
          }
          locks := locks - {tx.lockId};
          var payout := lock.amount - tx.fee;
          if payout > 0 {
            Pay(tx.to, payout);
          }
          err := None;
      }
    }

    /** `applyBlockTxs`: every transaction in order, then the coinbase. A failure leaves a partial state. */
    method ApplyBlockTxs(o: Oracle, miner: Bytes, txs: seq<Transaction>, ctx: Context) returns (err: Option<TxError>)
      modifies this
      ensures var r := ApplyTxs(o, old(Value()), {}, txs, ctx);
        err == if r.Applied? then None else Some(r.error)
      ensures err.None? ==> Some(Value()) == ApplyBlock(o, old(Value()), miner, txs, ctx)
    {
      var created: set<Bytes> := {};
      var totalFees := 0;
      var i := 0;
      while i < |txs|
        invariant 0 <= i <= |txs|
        invariant ApplyTxs(o, Value(), created, txs[i..], ctx) == ApplyTxs(o, old(Value()), {}, txs, ctx)
        invariant totalFees + SumFees(txs[i..]) == SumFees(txs)
      {
        assert txs[i..][1..] == txs[i + 1..];
        err, created := Apply(o, created, txs[i], ctx);
        if err.Some? {
          return err;
        }
        totalFees := totalFees + txs[i].fee;
        i := i + 1;
      }
      Pay(miner, BlockReward(ctx.height) + totalFees);
      err := None;
    }
  }
}
