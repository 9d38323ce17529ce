/** The transaction record shared by the ledger, the mempool and the wire codec (src/chain/transaction.ts). */
module Transactions {
  import opened Genesis

  datatype Kind = Transfer | Lock | Redeem

  /**
   * One record for all three kinds. Fields a kind does not use hold what the decoder puts there
   * (zeros or nothing); an absent optional field is the empty sequence.
   */
  datatype Transaction = Transaction(
    kind: Kind,
    from: Bytes,
    to: Bytes,
    amount: int,
    fee: int,
    nonce: int,
    signature: Bytes,
    scriptHash: Bytes,
    lockId: Bytes,
    redeemScript: Bytes,
    witnessItems: seq<Bytes>)
  {
    /** Transfers and locks debit `from` and consume its nonce; redeems do neither. */
    predicate DebitsAccount() {
      !kind.Redeem?
    }
  }

  /** Amounts a decoder or the structural checks can let through. */
  predicate NonNegative(tx: Transaction) {
    tx.amount >= 0 && tx.fee >= 0
  }

  datatype Block = Block(header: Header, transactions: seq<Transaction>)
}
