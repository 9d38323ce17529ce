/** Where each field sits in an encoded header, transaction or block, and what its bytes mean (src/chain/block.ts, src/chain/transaction.ts). */
module WireLayout {
  import opened Genesis
  import opened Transactions
  import opened Wire
  import opened BlockWire

  // ---- Numbers ----

  /** The number a big-endian byte string stands for. */
  function Value(bytes: Bytes): nat {
    if bytes == [] then 0 else 256 * Value(bytes[..|bytes| - 1]) + bytes[|bytes| - 1]
  }

  /** Bytes `at` to `at + width` hold the number. */
  predicate Number(buf: Bytes, at: nat, width: nat, n: int) {
    at + width <= |buf| && Value(buf[at..at + width]) == n
  }

  predicate Field(buf: Bytes, at: nat, piece: Bytes) {
    at + |piece| <= |buf| && buf[at..at + |piece|] == piece
  }

  lemma {:induction false} BigEndianValue(n: nat, k: nat)
    requires n < Pow256(k)
    ensures Value(BigEndian(n, k)) == n
  {
    if k > 0 {
      BigEndianValue(n / 256, k - 1);
      assert BigEndian(n, k)[..k - 1] == BigEndian(n / 256, k - 1);
    }
  }

  lemma HasNumber(buf: Bytes, at: nat, n: nat, k: nat)
    requires Has(buf, at, BigEndian(n, k)) && n < Pow256(k)
    ensures Number(buf, at, k, n)
  {
    BigEndianValue(n, k);
  }

  lemma HasSelf(buf: Bytes)
    ensures Has(buf, 0, buf)
  {
  }

  lemma Widths()
    ensures Pow256(1) == 0x100 && Pow256(2) == 0x1_0000 && Pow256(4) == 0x1_0000_0000 && Pow256(8) == 0x1_0000_0000_0000_0000
  {
    assert Pow256(3) == 0x100_0000 && Pow256(6) == 0x1_0000_0000_0000;
  }

  // ---- Headers ----

  /** The 148 bytes of a header. */
  lemma HeaderLayout(h: Header)
    requires SizedHeader(h)
    ensures var e := EncodeHeader(h);
      && |e| == 148
      && Number(e, 0, 4, h.height) && Field(e, 4, h.prevHash) && Field(e, 36, h.txRoot) && Field(e, 68, h.stateRoot)
      && Number(e, 100, 8, h.timestamp) && Number(e, 108, 4, h.difficulty) && Number(e, 112, 4, h.nonce) && Field(e, 116, h.miner)
  {
    hide BigEndian, Has, Value, Pow256;
    Widths();
    var e := EncodeHeader(h);
    HasSelf(e);
    var a, b, c, d := BigEndian(h.height, 4), BigEndian(h.timestamp, 8), BigEndian(h.difficulty, 4), BigEndian(h.nonce, 4);
    HasSplit(e, 0, a, h.prevHash + (h.txRoot + (h.stateRoot + (b + (c + (d + h.miner))))));
    HasSplit(e, 4, h.prevHash, h.txRoot + (h.stateRoot + (b + (c + (d + h.miner)))));
    HasSplit(e, 36, h.txRoot, h.stateRoot + (b + (c + (d + h.miner))));
    HasSplit(e, 68, h.stateRoot, b + (c + (d + h.miner)));
    HasSplit(e, 100, b, c + (d + h.miner));
    HasSplit(e, 108, c, d + h.miner);
    HasSplit(e, 112, d, h.miner);
    HeaderParts(e, h);
  }

  lemma HeaderParts(e: Bytes, h: Header)
    requires SizedHeader(h)
    requires Has(e, 0, BigEndian(h.height, 4)) && Has(e, 4, h.prevHash) && Has(e, 36, h.txRoot) && Has(e, 68, h.stateRoot)
    requires Has(e, 100, BigEndian(h.timestamp, 8)) && Has(e, 108, BigEndian(h.difficulty, 4)) && Has(e, 112, BigEndian(h.nonce, 4)) && Has(e, 116, h.miner)
    ensures Number(e, 0, 4, h.height) && Field(e, 4, h.prevHash) && Field(e, 36, h.txRoot) && Field(e, 68, h.stateRoot)
    ensures Number(e, 100, 8, h.timestamp) && Number(e, 108, 4, h.difficulty) && Number(e, 112, 4, h.nonce) && Field(e, 116, h.miner)
  {
    hide BigEndian, Value, Number, Pow256;
    Widths();
    hide Has;
    HasNumber(e, 0, h.height, 4);
    HasNumber(e, 100, h.timestamp, 8);
    HasNumber(e, 108, h.difficulty, 4);
    HasNumber(e, 112, h.nonce, 4);
    HasFields(e, h);
  }

  lemma HasFields(e: Bytes, h: Header)
    requires Has(e, 4, h.prevHash) && Has(e, 36, h.txRoot) && Has(e, 68, h.stateRoot) && Has(e, 116, h.miner)
    ensures Field(e, 4, h.prevHash) && Field(e, 36, h.txRoot) && Field(e, 68, h.stateRoot) && Field(e, 116, h.miner)
  {
  }

  // ---- Transactions ----

  /** The 152 bytes of a transfer. */
  lemma TransferLayout(tx: Transaction)
    requires Normal(tx) && tx.kind.Transfer?
    ensures var e := EncodeTx(tx);
      && |e| == 152 && Number(e, 0, 4, 0xc01d_feed) && Field(e, 4, tx.from) && Field(e, 36, tx.to)
      && Number(e, 68, 8, tx.amount) && Number(e, 76, 8, tx.fee) && Number(e, 84, 4, tx.nonce) && Field(e, 88, tx.signature)
  {
    hide BigEndian, Has, Value, Pow256, Number, Field;
    Widths();
    var e := EncodeTx(tx);
    var a, b, c, d := BigEndian(CHAIN_ID, 4), BigEndian(tx.amount, 8), BigEndian(tx.fee, 8), BigEndian(tx.nonce, 4);
    HasSelf(e);
    HasSplit(e, 0, TxPreimage(tx), tx.signature);
    HasSplit(e, 0, a, tx.from + (tx.to + (b + (c + d))));
    HasSplit(e, 4, tx.from, tx.to + (b + (c + d)));
    HasSplit(e, 36, tx.to, b + (c + d));
    HasSplit(e, 68, b, c + d);
    HasSplit(e, 76, c, d);
    HasNumber(e, 0, CHAIN_ID, 4);
    HasNumber(e, 68, tx.amount, 8);
    HasNumber(e, 76, tx.fee, 8);
    HasNumber(e, 84, tx.nonce, 4);
    HasField(e, 4, tx.from);
    HasField(e, 36, tx.to);
    HasField(e, 88, tx.signature);
  }

  lemma HasField(buf: Bytes, at: nat, piece: Bytes)
    requires Has(buf, at, piece)
    ensures Field(buf, at, piece)
  {
  }

  /** The 156 bytes of a lock. */
  lemma LockLayout(tx: Transaction)
    requires Normal(tx) && tx.kind.Lock?
    ensures var e := EncodeTx(tx);
      && |e| == 156 && Number(e, 0, 4, 0x4c4f_434b) && Number(e, 4, 4, 0xc01d_feed) && Field(e, 8, tx.from)
      && Number(e, 40, 8, tx.amount) && Number(e, 48, 8, tx.fee) && Number(e, 56, 4, tx.nonce)
      && Field(e, 60, tx.scriptHash) && Field(e, 92, tx.signature)
  {
    hide BigEndian, Has, Value, Pow256, Number, Field;
    Widths();
    var e := EncodeTx(tx);
    var t, a, b, c, d := BigEndian(LOCK_TAG, 4), BigEndian(CHAIN_ID, 4), BigEndian(tx.amount, 8), BigEndian(tx.fee, 8), BigEndian(tx.nonce, 4);
    var h := tx.scriptHash;
    HasSelf(e);
    HasSplit(e, 0, LockPreimage(tx), tx.signature);
    HasSplit(e, 0, t, a + (tx.from + (b + (c + (d + h)))));
    HasSplit(e, 4, a, tx.from + (b + (c + (d + h))));
    HasSplit(e, 8, tx.from, b + (c + (d + h)));
    HasSplit(e, 40, b, c + (d + h));
    HasSplit(e, 48, c, d + h);
    HasSplit(e, 56, d, h);
    HasNumber(e, 0, LOCK_TAG, 4);
    HasNumber(e, 4, CHAIN_ID, 4);
    HasNumber(e, 40, tx.amount, 8);
    HasNumber(e, 48, tx.fee, 8);
    HasNumber(e, 56, tx.nonce, 4);
    HasField(e, 8, tx.from);
    HasField(e, 60, h);
    HasField(e, 92, tx.signature);
  }

  /** Each item under its two-byte length, one after another. */
  ghost predicate ItemsAt(buf: Bytes, at: nat, items: seq<Bytes>)
    decreases |items|
  {
    items == [] || (Number(buf, at, 2, |items[0]|) && Field(buf, at + 2, items[0]) && ItemsAt(buf, at + 2 + |items[0]|, items[1..]))
  }

  lemma {:induction false} HasItems(buf: Bytes, at: nat, items: seq<Bytes>)
    requires Has(buf, at, EncodeItems(items)) && SmallItems(items)
    ensures ItemsAt(buf, at, items)
    decreases |items|
  {
    hide BigEndian, Has, Value, Pow256, Number, Field;
    if items != [] {
      Widths();
      HasSplit(buf, at, BigEndian(|items[0]|, 2), items[0] + EncodeItems(items[1..]));
      HasSplit(buf, at + 2, items[0], EncodeItems(items[1..]));
      HasNumber(buf, at, |items[0]|, 2);
      HasField(buf, at + 2, items[0]);
      HasItems(buf, at + 2 + |items[0]|, items[1..]);
    }
  }

  /** A redeem: 86 bytes, the script, the number of witness items, the items. */
  lemma RedeemLayout(tx: Transaction)
    requires Normal(tx) && tx.kind.Redeem?
    ensures var e, n := EncodeTx(tx), |tx.redeemScript|;
      && Number(e, 0, 4, 0x5244_4d31) && Field(e, 4, tx.lockId) && Field(e, 36, tx.to)
      && Number(e, 68, 8, tx.amount) && Number(e, 76, 8, tx.fee) && Number(e, 84, 2, n) && Field(e, 86, tx.redeemScript)
      && Field(e, 86 + n, [|tx.witnessItems|]) && ItemsAt(e, 87 + n, tx.witnessItems)
  {
    hide BigEndian, Has, Value, Pow256, Number, Field, EncodeItems, ItemsAt;
    Widths();
    var e, n := EncodeTx(tx), |tx.redeemScript|;
    var count := [|tx.witnessItems| % 256];
    HasSelf(e);
    HasSplit(e, 0, RedeemHead(tx), tx.redeemScript + (count + EncodeItems(tx.witnessItems)));
    RedeemHeadLayout(e, tx);
    HasSplit(e, 86, tx.redeemScript, count + EncodeItems(tx.witnessItems));
    HasSplit(e, 86 + n, count, EncodeItems(tx.witnessItems));
    HasField(e, 86, tx.redeemScript);
    HasField(e, 86 + n, count);
    HasItems(e, 87 + n, tx.witnessItems);
  }

  lemma RedeemHeadLayout(e: Bytes, tx: Transaction)
    requires Normal(tx) && tx.kind.Redeem? && Has(e, 0, RedeemHead(tx))
    ensures |RedeemHead(tx)| == 86 && Number(e, 0, 4, 0x5244_4d31) && Field(e, 4, tx.lockId) && Field(e, 36, tx.to)
    ensures Number(e, 68, 8, tx.amount) && Number(e, 76, 8, tx.fee) && Number(e, 84, 2, |tx.redeemScript|)
  {
    hide BigEndian, Has, Value, Pow256, Number, Field;
    Widths();
    var t, b, c, d := BigEndian(REDEEM_TAG, 4), BigEndian(tx.amount, 8), BigEndian(tx.fee, 8), BigEndian(|tx.redeemScript|, 2);
    HasSplit(e, 0, t, tx.lockId + (tx.to + (b + (c + d))));
    HasSplit(e, 4, tx.lockId, tx.to + (b + (c + d)));
    HasSplit(e, 36, tx.to, b + (c + d));
    HasSplit(e, 68, b, c + d);
    HasSplit(e, 76, c, d);
    HasNumber(e, 0, REDEEM_TAG, 4);
    HasNumber(e, 68, tx.amount, 8);
    HasNumber(e, 76, tx.fee, 8);
    HasNumber(e, 84, |tx.redeemScript|, 2);
    HasField(e, 4, tx.lockId);
    HasField(e, 36, tx.to);
  }

  // ---- Blocks ----

  /** Where transaction `i` of a block starts. */
  function TxOffset(txs: seq<Transaction>, i: nat): (n: nat)
    requires i <= |txs|
    ensures n >= 152
  {
    if i == 0 then 152 else TxOffset(txs, i - 1) + |EncodeTx(txs[i - 1])|
  }

  lemma {:induction false} OffsetShift(txs: seq<Transaction>, i: nat)
    requires 0 < i <= |txs|
    ensures TxOffset(txs, i) == TxOffset(txs[1..], i - 1) + |EncodeTx(txs[0])|
  {
    hide EncodeTx;
    if i > 1 {
      OffsetShift(txs, i - 1);
    }
  }

  lemma {:induction false} HasTx(buf: Bytes, at: nat, txs: seq<Transaction>, i: nat)
    requires Has(buf, at, EncodeTxs(txs)) && i < |txs|
    ensures Has(buf, at + TxOffset(txs, i) - 152, EncodeTx(txs[i]))
    ensures at + TxOffset(txs, |txs|) - 152 == at + |EncodeTxs(txs)|
    decreases |txs|
  {
    hide EncodeTx, Has;
    HasSplit(buf, at, EncodeTx(txs[0]), EncodeTxs(txs[1..]));
    OffsetShift(txs, |txs|);
    if i > 0 {
      OffsetShift(txs, i);
      HasTx(buf, at + |EncodeTx(txs[0])|, txs[1..], i - 1);
    } else if |txs| > 1 {
      HasTx(buf, at + |EncodeTx(txs[0])|, txs[1..], 0);
    }
  }

  /** A block: its header, the number of transactions, each transaction where the one before it ends, nothing more. */
  lemma BlockLayout(b: Block, i: nat)
    requires SizedHeader(b.header) && i < |b.transactions| < 0x1_0000_0000
    ensures var e := EncodeBlock(b);
      && Field(e, 0, EncodeHeader(b.header)) && Number(e, 148, 4, |b.transactions|)
      && Field(e, TxOffset(b.transactions, i), EncodeTx(b.transactions[i]))
      && |e| == TxOffset(b.transactions, |b.transactions|)
  {
    hide BigEndian, Has, Value, Pow256, Number, Field, EncodeTx, EncodeTxs, EncodeHeader, TxOffset;
    Widths();
    var e, n := EncodeBlock(b), BigEndian(|b.transactions|, 4);
    HeaderLayout(b.header);
    HasSelf(e);
    HasSplit(e, 0, EncodeHeader(b.header), n + EncodeTxs(b.transactions));
    HasSplit(e, 148, n, EncodeTxs(b.transactions));
    HasTx(e, 152, b.transactions, i);
    HasNumber(e, 148, |b.transactions|, 4);
    HasField(e, 0, EncodeHeader(b.header));
    HasField(e, TxOffset(b.transactions, i), EncodeTx(b.transactions[i]));
  }
}
