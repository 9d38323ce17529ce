/** The wire format of transactions and blocks (src/chain/transaction.ts, src/chain/block.ts, src/util/binary.ts). */
module Wire {
  import opened Genesis
  import opened Transactions

  const LOCK_TAG := 0x4c4f_434b
  const REDEEM_TAG := 0x5244_4d31
  const TX_ENCODED_LEN := 152
  const HEADER_LEN := 148

  // ---- Integers and slices ----

  function Pow256(k: nat): (p: nat)
    ensures p > 0
  {
    if k == 0 then 1 else 256 * Pow256(k - 1)
  }

  /** The low `k` bytes of `n`, big-endian. */
  function BigEndian(n: int, k: nat): (b: Bytes)
    ensures |b| == k
    decreases k
  {
    if k == 0 then [] else BigEndian(n / 256, k - 1) + [n % 256]
  }

  /** A byte of the buffer; reading past the end gives 0, as the bit operators make of `undefined`. */
  function ByteAt(buf: Bytes, i: nat): Byte {
    if i < |buf| then buf[i] else 0
  }

  function ReadBigEndian(buf: Bytes, off: nat, k: nat): (n: nat) {
    if k == 0 then 0 else 256 * ReadBigEndian(buf, off, k - 1) + ByteAt(buf, off + k - 1)
  }

  /** `buf.slice(p, p + n)`, which stops at the end of the buffer. */
  function Slice(buf: Bytes, p: nat, n: nat): Bytes {
    if p >= |buf| then [] else if p + n <= |buf| then buf[p..p + n] else buf[p..]
  }

  lemma BigEndianStep(n: int, k: nat)
    ensures BigEndian(n, k) == if k == 0 then [] else BigEndian(n / 256, k - 1) + [n % 256]
  {
  }

  /** `u64be` as written: fill eight bytes from the right; a negative number gives its two's complement. */
  method U64be(n: int) returns (b: Bytes)
    ensures b == BigEndian(n, 8)
  {
    hide BigEndian;
    b := [];
    var rest: int := n;
    var i := 7;
    while i >= 0
      invariant -1 <= i <= 7
      invariant BigEndian(n, 8) == BigEndian(rest, i + 1) + b
    {
      BigEndianStep(rest, i + 1);
      assert BigEndian(rest / 256, i) + [rest % 256] + b == BigEndian(rest / 256, i) + ([rest % 256] + b);
      b := [rest % 256] + b;
      rest := rest / 256;
      i := i - 1;
    }
    BigEndianStep(rest, 0);
  }

  /** `readU64be` as written, inside the buffer. */
  method ReadU64be(buf: Bytes, off: nat) returns (n: nat)
    requires off + 8 <= |buf|
    ensures n == ReadBigEndian(buf, off, 8)
  {
    n := 0;
    for i := 0 to 8
      invariant n == ReadBigEndian(buf, off, i)
    {
      n := n * 256 + buf[off + i];
    }
  }

  lemma {:induction false} ReadOfWrite(buf: Bytes, off: nat, n: nat, k: nat)
    requires Has(buf, off, BigEndian(n, k)) && n < Pow256(k)
    ensures ReadBigEndian(buf, off, k) == n
  {
    if k > 0 {
      var front := BigEndian(n / 256, k - 1);
      HasSplit(buf, off, front, [n % 256]);
      ReadOfWrite(buf, off, n / 256, k - 1);
    }
  }

  lemma {:induction false} WriteOfRead(buf: Bytes, off: nat, k: nat)
    requires off + k <= |buf|
    ensures BigEndian(ReadBigEndian(buf, off, k), k) == buf[off..off + k]
    ensures ReadBigEndian(buf, off, k) < Pow256(k)
  {
    if k > 0 {
      WriteOfRead(buf, off, k - 1);
      assert buf[off..off + k] == buf[off..off + k - 1] + [buf[off + k - 1]];
    }
  }

  // ---- Pieces inside a buffer ----

  ghost predicate Has(buf: Bytes, off: nat, piece: Bytes) {
    off + |piece| <= |buf| && buf[off..off + |piece|] == piece
  }

  lemma HasSplit(buf: Bytes, off: nat, a: Bytes, b: Bytes)
    requires Has(buf, off, a + b)
    ensures Has(buf, off, a) && Has(buf, off + |a|, b)
  {
    var piece := buf[off..off + |a + b|];
    assert buf[off..off + |a|] == piece[..|a|] == (a + b)[..|a|] == a;
    assert buf[off + |a|..off + |a| + |b|] == piece[|a|..] == (a + b)[|a|..] == b;
  }

  lemma Glue(buf: Bytes, i: nat, j: nat, k: nat)
    requires i <= j <= k <= |buf|
    ensures buf[i..j] + buf[j..k] == buf[i..k]
  {
  }

  // ---- Transactions ----

  /** A decoded value and the cursor after it; `Malformed` is any thrown decoding error. */
  datatype Decoded<T> = Decoded(value: T, next: nat) | Malformed

  function OrZero32(b: Bytes): Bytes {
    if b == [] then Zeros(32) else b
  }

  /** What the sender of a transfer signs. */
  function TxPreimage(tx: Transaction): Bytes {
    BigEndian(CHAIN_ID, 4) + (tx.from + (tx.to + (BigEndian(tx.amount, 8) + (BigEndian(tx.fee, 8) + BigEndian(tx.nonce, 4)))))
  }

  function EncodeTransfer(tx: Transaction): Bytes {
    TxPreimage(tx) + tx.signature
  }

  function DecodeTransfer(buf: Bytes, off: nat): Decoded<Transaction> {
    if |buf| < off + TX_ENCODED_LEN || ReadBigEndian(buf, off, 4) != CHAIN_ID then Malformed
    else
      Decoded(
        Transaction(Transfer, Slice(buf, off + 4, 32), Slice(buf, off + 36, 32),
                    ReadBigEndian(buf, off + 68, 8), ReadBigEndian(buf, off + 76, 8), ReadBigEndian(buf, off + 84, 4),
                    Slice(buf, off + 88, 64), [], [], [], []),
        off + 152)
  }

  /** What the creator of a lock signs. */
  function LockPreimage(tx: Transaction): Bytes {
    BigEndian(LOCK_TAG, 4) + (BigEndian(CHAIN_ID, 4) + (tx.from + (BigEndian(tx.amount, 8)
      + (BigEndian(tx.fee, 8) + (BigEndian(tx.nonce, 4) + OrZero32(tx.scriptHash))))))
  }

  function EncodeLock(tx: Transaction): Bytes {
    LockPreimage(tx) + tx.signature
  }

  /** No length check of its own: only the 64-bit reads fail past the end. */
  function DecodeLock(buf: Bytes, off: nat): Decoded<Transaction> {
    if ReadBigEndian(buf, off + 4, 4) != CHAIN_ID || |buf| < off + 56 then Malformed
    else
      Decoded(
        Transaction(Lock, Slice(buf, off + 8, 32), Zeros(32),
                    ReadBigEndian(buf, off + 40, 8), ReadBigEndian(buf, off + 48, 8), ReadBigEndian(buf, off + 56, 4),
                    Slice(buf, off + 92, 64), Slice(buf, off + 60, 32), [], [], []),
        off + 156)
  }

  function EncodeItems(items: seq<Bytes>): Bytes {
    if items == [] then [] else BigEndian(|items[0]|, 2) + (items[0] + EncodeItems(items[1..]))
  }

  function RedeemHead(tx: Transaction): Bytes {
    BigEndian(REDEEM_TAG, 4) + (OrZero32(tx.lockId) + (tx.to + (BigEndian(tx.amount, 8) + (BigEndian(tx.fee, 8)
      + BigEndian(|tx.redeemScript|, 2)))))
  }

  function EncodeRedeem(tx: Transaction): Bytes {
    RedeemHead(tx) + (tx.redeemScript + ([|tx.witnessItems| % 256] + EncodeItems(tx.witnessItems)))
  }

  function DecodeItems(buf: Bytes, p: nat, count: nat): Decoded<seq<Bytes>>
    decreases count
  {
    if count == 0 then Decoded([], p)
    else
      var len := ReadBigEndian(buf, p, 2);
      if len > MAX_PUSH_BYTES then Malformed
      else
        var more := DecodeItems(buf, p + 2 + len, count - 1);
        if more.Malformed? then Malformed
        else Decoded([Slice(buf, p + 2, len)] + more.value, more.next)
  }

  function DecodeRedeem(buf: Bytes, off: nat): Decoded<Transaction> {
    if |buf| < off + 84 then Malformed
    else
      var scriptLen := ReadBigEndian(buf, off + 84, 2);
      var at := off + 86 + scriptLen;
      if scriptLen > MAX_SCRIPT_BYTES || ByteAt(buf, at) > MAX_WITNESS_ITEMS then Malformed
      else
        var items := DecodeItems(buf, at + 1, ByteAt(buf, at));
        if items.Malformed? then Malformed
        else
          Decoded(
            Transaction(Redeem, Zeros(32), Slice(buf, off + 36, 32),
                        ReadBigEndian(buf, off + 68, 8), ReadBigEndian(buf, off + 76, 8), 0, [], [],
                        Slice(buf, off + 4, 32), Slice(buf, off + 86, scriptLen), items.value),
            items.next)
  }

  /** `encodeRedeem` as written: the fixed part, then one length-prefixed witness item after another. */
  method EncodeRedeemLoop(tx: Transaction) returns (buf: Bytes)
    ensures buf == EncodeRedeem(tx)
  {
    hide BigEndian;
    var items := tx.witnessItems;
    buf := RedeemHead(tx) + (tx.redeemScript + [|items| % 256]);
    ghost var head := buf;
    for i := 0 to |items|
      invariant head + EncodeItems(items) == buf + EncodeItems(items[i..])
    {
      assert items[i..][1..] == items[i + 1..];
      buf := buf + (BigEndian(|items[i]|, 2) + items[i]);
    }
    assert head + EncodeItems(items) == EncodeRedeem(tx);
  }

  /** `decodeRedeem` as written: a cursor moving over the fields and the items. */
  method DecodeRedeemLoop(buf: Bytes, off: nat) returns (r: Decoded<Transaction>)
    ensures r == DecodeRedeem(buf, off)
  {
    hide ReadBigEndian, Slice;
    if |buf| < off + 84 {
      return Malformed;
    }
    var p: nat := off + 4;
    var lockId := Slice(buf, p, 32);
    p := p + 32;
    var to := Slice(buf, p, 32);
    p := p + 32;
    var amount := ReadBigEndian(buf, p, 8);
    p := p + 8;
    var fee := ReadBigEndian(buf, p, 8);
    p := p + 8;
    var scriptLen: nat := ReadBigEndian(buf, p, 2);
    p := p + 2;
    if scriptLen > MAX_SCRIPT_BYTES {
      return Malformed;
    }
    var redeemScript := Slice(buf, p, scriptLen);
    p := p + scriptLen;
    var witnessCount: nat := ByteAt(buf, p);
    p := p + 1;
    if witnessCount > MAX_WITNESS_ITEMS {
      return Malformed;
    }
    ghost var start := p;
    var items: seq<Bytes> := [];
    PrependNothing(DecodeItems(buf, p, witnessCount));
    for i := 0 to witnessCount
      invariant DecodeItems(buf, start, witnessCount) == Prepend(items, DecodeItems(buf, p, witnessCount - i))
    {
      var len := ReadBigEndian(buf, p, 2);
      p := p + 2;
      if len > MAX_PUSH_BYTES {
        return Malformed;
      }
      ghost var rest := DecodeItems(buf, p + len, witnessCount - i - 1);
      assert rest.Decoded? ==> items + ([Slice(buf, p, len)] + rest.value) == items + [Slice(buf, p, len)] + rest.value;
      items := items + [Slice(buf, p, len)];
      p := p + len;
    }
    assert items + [] == items;
    r := Decoded(Transaction(Redeem, Zeros(32), to, amount, fee, 0, [], [], lockId, redeemScript, items), p);
  }

  lemma PrependNothing(d: Decoded<seq<Bytes>>)
    ensures Prepend([], d) == d
  {
    assert d.Decoded? ==> [] + d.value == d.value;
  }

  function Prepend(items: seq<Bytes>, d: Decoded<seq<Bytes>>): Decoded<seq<Bytes>> {
    if d.Malformed? then Malformed else Decoded(items + d.value, d.next)
  }

  function EncodeTx(tx: Transaction): Bytes {
    match tx.kind
    case Transfer => EncodeTransfer(tx)
    case Lock => EncodeLock(tx)
    case Redeem => EncodeRedeem(tx)
  }

  function DecodeTx(buf: Bytes, off: nat): Decoded<Transaction> {
    if |buf| < off + 4 then Malformed
    else
      var tag := ReadBigEndian(buf, off, 4);
      if tag == CHAIN_ID then DecodeTransfer(buf, off)
      else if tag == LOCK_TAG then DecodeLock(buf, off)
      else if tag == REDEEM_TAG then DecodeRedeem(buf, off)
      else Malformed
  }

  /** In range for its wire fields, with unused fields as the decoder fills them. */
  predicate Normal(tx: Transaction) {
    && 0 <= tx.amount < 0x1_0000_0000_0000_0000
    && 0 <= tx.fee < 0x1_0000_0000_0000_0000
    && |tx.from| == 32 && |tx.to| == 32
    && match tx.kind
       case Transfer =>
         && 0 <= tx.nonce < 0x1_0000_0000 && |tx.signature| == 64
         && tx.scriptHash == [] && tx.lockId == [] && tx.redeemScript == [] && tx.witnessItems == []
       case Lock =>
         && 0 <= tx.nonce < 0x1_0000_0000 && |tx.signature| == 64 && tx.to == Zeros(32)
         && |tx.scriptHash| == 32 && tx.lockId == [] && tx.redeemScript == [] && tx.witnessItems == []
       case Redeem =>
         && tx.nonce == 0 && tx.signature == [] && tx.from == Zeros(32)
         && tx.scriptHash == [] && |tx.lockId| == 32
         && |tx.redeemScript| <= MAX_SCRIPT_BYTES && |tx.witnessItems| <= MAX_WITNESS_ITEMS
         && SmallItems(tx.witnessItems)
  }

  predicate SmallItems(items: seq<Bytes>) {
    forall i :: 0 <= i < |items| ==> |items[i]| <= MAX_PUSH_BYTES
  }

  // ---- Decoding what was encoded ----

  lemma HasSlice(buf: Bytes, off: nat, piece: Bytes)
    requires Has(buf, off, piece)
    ensures Slice(buf, off, |piece|) == piece
  {
  }

  lemma WidthValues()
    ensures Pow256(2) == 0x1_0000 && Pow256(4) == 0x1_0000_0000 && Pow256(8) == 0x1_0000_0000_0000_0000
  {
  }

  lemma DecodeTransferOfEncode(buf: Bytes, off: nat, tx: Transaction)
    requires tx.kind.Transfer? && Normal(tx) && Has(buf, off, EncodeTransfer(tx))
    ensures DecodeTransfer(buf, off) == Decoded(tx, off + |EncodeTransfer(tx)|)
    ensures ReadBigEndian(buf, off, 4) == CHAIN_ID
  {
    WidthValues();
    hide BigEndian, ReadBigEndian, Slice, Has, Pow256;
    var nonce := BigEndian(tx.nonce, 4);
    var fee := BigEndian(tx.fee, 8) + nonce;
    var amount := BigEndian(tx.amount, 8) + fee;
    var to := tx.to + amount;
    var from := tx.from + to;
    HasSplit(buf, off, TxPreimage(tx), tx.signature);
    HasSplit(buf, off, BigEndian(CHAIN_ID, 4), from);
    HasSplit(buf, off + 4, tx.from, to);
    HasSplit(buf, off + 36, tx.to, amount);
    HasSplit(buf, off + 68, BigEndian(tx.amount, 8), fee);
    HasSplit(buf, off + 76, BigEndian(tx.fee, 8), nonce);
    ReadOfWrite(buf, off, CHAIN_ID, 4);
    HasSlice(buf, off + 4, tx.from);
    HasSlice(buf, off + 36, tx.to);
    ReadOfWrite(buf, off + 68, tx.amount, 8);
    ReadOfWrite(buf, off + 76, tx.fee, 8);
    ReadOfWrite(buf, off + 84, tx.nonce, 4);
    HasSlice(buf, off + 88, tx.signature);
    HasFits(buf, off, EncodeTransfer(tx));
  }

  lemma HasFits(buf: Bytes, off: nat, piece: Bytes)
    requires Has(buf, off, piece)
    ensures off + |piece| <= |buf|
  {
  }

  lemma DecodeLockOfEncode(buf: Bytes, off: nat, tx: Transaction)
    requires tx.kind.Lock? && Normal(tx) && Has(buf, off, EncodeLock(tx))
    ensures DecodeLock(buf, off) == Decoded(tx, off + |EncodeLock(tx)|)
    ensures ReadBigEndian(buf, off, 4) == LOCK_TAG
  {
    WidthValues();
    hide BigEndian, ReadBigEndian, Slice, Has, Pow256;
    var nonce := BigEndian(tx.nonce, 4) + tx.scriptHash;
    var fee := BigEndian(tx.fee, 8) + nonce;
    var amount := BigEndian(tx.amount, 8) + fee;
    var from := tx.from + amount;
    HasSplit(buf, off, LockPreimage(tx), tx.signature);
    HasSplit(buf, off, BigEndian(LOCK_TAG, 4), BigEndian(CHAIN_ID, 4) + from);
    HasSplit(buf, off + 4, BigEndian(CHAIN_ID, 4), from);
    HasSplit(buf, off + 8, tx.from, amount);
    HasSplit(buf, off + 40, BigEndian(tx.amount, 8), fee);
    HasSplit(buf, off + 48, BigEndian(tx.fee, 8), nonce);
    HasSplit(buf, off + 56, BigEndian(tx.nonce, 4), tx.scriptHash);
    ReadOfWrite(buf, off, LOCK_TAG, 4);
    ReadOfWrite(buf, off + 4, CHAIN_ID, 4);
    HasSlice(buf, off + 8, tx.from);
    ReadOfWrite(buf, off + 40, tx.amount, 8);
    ReadOfWrite(buf, off + 48, tx.fee, 8);
    ReadOfWrite(buf, off + 56, tx.nonce, 4);
    HasSlice(buf, off + 60, tx.scriptHash);
    HasSlice(buf, off + 92, tx.signature);
    HasFits(buf, off, EncodeLock(tx));
  }

  lemma {:induction false} DecodeItemsOfEncode(buf: Bytes, p: nat, items: seq<Bytes>)
    requires Has(buf, p, EncodeItems(items))
    requires SmallItems(items)
    ensures DecodeItems(buf, p, |items|) == Decoded(items, p + |EncodeItems(items)|)
    decreases |items|
  {
    if items != [] {
      var item, rest := items[0], items[1..];
      var len := |item|;
      assert len <= MAX_PUSH_BYTES && SmallItems(rest);
      assert items == [item] + rest;
      hide BigEndian, ReadBigEndian, Slice, Has, SmallItems;
      assert EncodeItems(items) == BigEndian(len, 2) + (item + EncodeItems(rest));
      hide EncodeItems;
      ItemOfEncode(buf, p, item, EncodeItems(rest));
      DecodeItemsOfEncode(buf, p + 2 + len, rest);
    }
  }

  lemma ItemOfEncode(buf: Bytes, p: nat, item: Bytes, more: Bytes)
    requires |item| <= MAX_PUSH_BYTES
    requires Has(buf, p, BigEndian(|item|, 2) + (item + more))
    ensures ReadBigEndian(buf, p, 2) == |item| && Slice(buf, p + 2, |item|) == item && Has(buf, p + 2 + |item|, more)
  {
    WidthValues();
    hide BigEndian, ReadBigEndian, Slice, Has, Pow256;
    HasSplit(buf, p, BigEndian(|item|, 2), item + more);
    HasSplit(buf, p + 2, item, more);
    ReadOfWrite(buf, p, |item|, 2);
    HasSlice(buf, p + 2, item);
  }

  lemma RedeemHeadOfEncode(buf: Bytes, off: nat, tx: Transaction)
    requires tx.kind.Redeem? && Normal(tx) && Has(buf, off, RedeemHead(tx))
    ensures |RedeemHead(tx)| == 86
    ensures ReadBigEndian(buf, off, 4) == REDEEM_TAG && Slice(buf, off + 4, 32) == tx.lockId && Slice(buf, off + 36, 32) == tx.to
    ensures ReadBigEndian(buf, off + 68, 8) == tx.amount && ReadBigEndian(buf, off + 76, 8) == tx.fee
    ensures ReadBigEndian(buf, off + 84, 2) == |tx.redeemScript|
  {
    WidthValues();
    hide BigEndian, ReadBigEndian, Slice, Has, Pow256;
    var len := BigEndian(|tx.redeemScript|, 2);
    var fee := BigEndian(tx.fee, 8) + len;
    var amount := BigEndian(tx.amount, 8) + fee;
    var to := tx.to + amount;
    HasSplit(buf, off, BigEndian(REDEEM_TAG, 4), tx.lockId + to);
    HasSplit(buf, off + 4, tx.lockId, to);
    HasSplit(buf, off + 36, tx.to, amount);
    HasSplit(buf, off + 68, BigEndian(tx.amount, 8), fee);
    HasSplit(buf, off + 76, BigEndian(tx.fee, 8), len);
    ReadOfWrite(buf, off, REDEEM_TAG, 4);
    HasSlice(buf, off + 4, tx.lockId);
    HasSlice(buf, off + 36, tx.to);
    ReadOfWrite(buf, off + 68, tx.amount, 8);
    ReadOfWrite(buf, off + 76, tx.fee, 8);
    ReadOfWrite(buf, off + 84, |tx.redeemScript|, 2);
  }

  lemma HasByte(buf: Bytes, at: nat, b: Byte)
    requires Has(buf, at, [b])
    ensures ByteAt(buf, at) == b
  {
    assert buf[at..at + 1][0] == buf[at];
  }

  lemma DecodeRedeemOfEncode(buf: Bytes, off: nat, tx: Transaction)
    requires tx.kind.Redeem? && Normal(tx) && Has(buf, off, EncodeRedeem(tx))
    ensures DecodeRedeem(buf, off) == Decoded(tx, off + |EncodeRedeem(tx)|)
    ensures ReadBigEndian(buf, off, 4) == REDEEM_TAG
  {
    hide BigEndian, ReadBigEndian, Slice, RedeemHead, EncodeItems, DecodeItems, Has, SmallItems;
    var count := |tx.witnessItems|;
    var tail := [count % 256] + EncodeItems(tx.witnessItems);
    var at := off + 86 + |tx.redeemScript|;
    HasSplit(buf, off, RedeemHead(tx), tx.redeemScript + tail);
    RedeemHeadOfEncode(buf, off, tx);
    HasSplit(buf, off + 86, tx.redeemScript, tail);
    HasSlice(buf, off + 86, tx.redeemScript);
    HasSplit(buf, at, [count % 256], EncodeItems(tx.witnessItems));
    HasByte(buf, at, count % 256);
    DecodeItemsOfEncode(buf, at + 1, tx.witnessItems);
    HasFits(buf, off, EncodeRedeem(tx));
  }

  /** Decoding reads back every normal transaction, wherever it sits, and stops right after it. */
  lemma DecodeOfEncodeTx(buf: Bytes, off: nat, tx: Transaction)
    requires Normal(tx) && Has(buf, off, EncodeTx(tx))
    ensures DecodeTx(buf, off) == Decoded(tx, off + |EncodeTx(tx)|)
  {
    hide BigEndian, ReadBigEndian, Slice, Normal, EncodeTransfer, EncodeLock, EncodeRedeem, DecodeTransfer, DecodeLock, DecodeRedeem;
    match tx.kind {
      case Transfer => DecodeTransferOfEncode(buf, off, tx);
      case Lock => DecodeLockOfEncode(buf, off, tx);
      case Redeem => DecodeRedeemOfEncode(buf, off, tx);
    }
    EncodedAtLeastFour(tx);
  }

  lemma EncodedAtLeastFour(tx: Transaction)
    ensures |EncodeTx(tx)| >= 4
  {
    hide BigEndian;
  }

  // ---- Encoding what was decoded ----

  /** The cursor only moves forward. */
  lemma {:induction false} ItemsAdvance(buf: Bytes, p: nat, count: nat)
    ensures var d := DecodeItems(buf, p, count); d.Decoded? ==> d.next >= p + 2 * count && |d.value| == count
    decreases count
  {
    if count > 0 {
      var len := ReadBigEndian(buf, p, 2);
      ItemsAdvance(buf, p + 2 + len, count - 1);
      hide ReadBigEndian;
    }
  }

  lemma ItemOfDecode(buf: Bytes, p: nat, next: nat)
    requires var len := ReadBigEndian(buf, p, 2); p + 2 + len <= next <= |buf|
    ensures var len := ReadBigEndian(buf, p, 2);
      BigEndian(len, 2) + (Slice(buf, p + 2, len) + buf[p + 2 + len..next]) == buf[p..next]
  {
    WriteOfRead(buf, p, 2);
    hide BigEndian, ReadBigEndian;
    var len := ReadBigEndian(buf, p, 2);
    Glue(buf, p + 2, p + 2 + len, next);
    Glue(buf, p, p + 2, next);
  }

  lemma {:induction false} EncodeItemsOfDecode(buf: Bytes, p: nat, count: nat)
    requires var d := DecodeItems(buf, p, count); d.Decoded? && d.next <= |buf|
    ensures var d := DecodeItems(buf, p, count);
      d.next >= p && EncodeItems(d.value) == buf[p..d.next] && SmallItems(d.value)
    decreases count
  {
    hide BigEndian, ReadBigEndian;
    if count > 0 {
      var len := ReadBigEndian(buf, p, 2);
      var more := DecodeItems(buf, p + 2 + len, count - 1);
      ItemsAdvance(buf, p + 2 + len, count - 1);
      EncodeItemsOfDecode(buf, p + 2 + len, count - 1);
      ItemOfDecode(buf, p, more.next);
      var d := DecodeItems(buf, p, count);
      assert d.value[0] == Slice(buf, p + 2, len) && d.value[1..] == more.value;
    }
  }

  lemma EncodeTransferOfDecode(buf: Bytes, off: nat)
    requires DecodeTransfer(buf, off).Decoded?
    ensures var d := DecodeTransfer(buf, off);
      d.next <= |buf| && Normal(d.value) && EncodeTransfer(d.value) == buf[off..d.next]
  {
    WidthValues();
    WriteOfRead(buf, off, 4);
    WriteOfRead(buf, off + 68, 8);
    WriteOfRead(buf, off + 76, 8);
    WriteOfRead(buf, off + 84, 4);
    hide BigEndian, ReadBigEndian, Pow256;
    Glue(buf, off + 76, off + 84, off + 88);
    Glue(buf, off + 68, off + 76, off + 88);
    Glue(buf, off + 36, off + 68, off + 88);
    Glue(buf, off + 4, off + 36, off + 88);
    Glue(buf, off, off + 4, off + 88);
    Glue(buf, off, off + 88, off + 152);
  }

  lemma EncodeLockOfDecode(buf: Bytes, off: nat)
    requires DecodeLock(buf, off).Decoded? && DecodeLock(buf, off).next <= |buf|
    requires ReadBigEndian(buf, off, 4) == LOCK_TAG
    ensures var d := DecodeLock(buf, off);
      Normal(d.value) && EncodeLock(d.value) == buf[off..d.next]
  {
    WidthValues();
    WriteOfRead(buf, off, 4);
    WriteOfRead(buf, off + 4, 4);
    WriteOfRead(buf, off + 40, 8);
    WriteOfRead(buf, off + 48, 8);
    WriteOfRead(buf, off + 56, 4);
    hide BigEndian, ReadBigEndian, Pow256;
    Glue(buf, off + 56, off + 60, off + 92);
    Glue(buf, off + 48, off + 56, off + 92);
    Glue(buf, off + 40, off + 48, off + 92);
    Glue(buf, off + 8, off + 40, off + 92);
    Glue(buf, off + 4, off + 8, off + 92);
    Glue(buf, off, off + 4, off + 92);
    Glue(buf, off, off + 92, off + 156);
  }

  lemma RedeemHeadOfDecode(buf: Bytes, off: nat, tx: Transaction)
    requires off + 86 <= |buf| && ReadBigEndian(buf, off, 4) == REDEEM_TAG
    requires tx.lockId == buf[off + 4..off + 36] && tx.to == buf[off + 36..off + 68]
    requires tx.amount == ReadBigEndian(buf, off + 68, 8) && tx.fee == ReadBigEndian(buf, off + 76, 8)
    requires |tx.redeemScript| == ReadBigEndian(buf, off + 84, 2)
    ensures RedeemHead(tx) == buf[off..off + 86]
    ensures 0 <= tx.amount < 0x1_0000_0000_0000_0000 && 0 <= tx.fee < 0x1_0000_0000_0000_0000
  {
    WidthValues();
    WriteOfRead(buf, off, 4);
    WriteOfRead(buf, off + 68, 8);
    WriteOfRead(buf, off + 76, 8);
    WriteOfRead(buf, off + 84, 2);
    hide BigEndian, ReadBigEndian, Pow256;
    Glue(buf, off + 76, off + 84, off + 86);
    Glue(buf, off + 68, off + 76, off + 86);
    Glue(buf, off + 36, off + 68, off + 86);
    Glue(buf, off + 4, off + 36, off + 86);
    Glue(buf, off, off + 4, off + 86);
  }

  /** What a decoded redeem holds, and where its witness items end. */
  lemma RedeemFields(buf: Bytes, off: nat)
    requires DecodeRedeem(buf, off).Decoded? && DecodeRedeem(buf, off).next <= |buf|
    ensures var d := DecodeRedeem(buf, off);
      var scriptLen := ReadBigEndian(buf, off + 84, 2);
      var at := off + 86 + scriptLen;
      && at < d.next && scriptLen <= MAX_SCRIPT_BYTES && ByteAt(buf, at) <= MAX_WITNESS_ITEMS
      && DecodeItems(buf, at + 1, ByteAt(buf, at)) == Decoded(d.value.witnessItems, d.next)
      && d.value == Transaction(Redeem, Zeros(32), buf[off + 36..off + 68], ReadBigEndian(buf, off + 68, 8),
                                ReadBigEndian(buf, off + 76, 8), 0, [], [], buf[off + 4..off + 36],
                                buf[off + 86..at], d.value.witnessItems)
  {
    hide ReadBigEndian;
    var at := off + 86 + ReadBigEndian(buf, off + 84, 2);
    ItemsAdvance(buf, at + 1, ByteAt(buf, at));
    hide DecodeItems;
  }

  lemma EncodeRedeemOfDecode(buf: Bytes, off: nat)
    requires DecodeRedeem(buf, off).Decoded? && DecodeRedeem(buf, off).next <= |buf|
    requires ReadBigEndian(buf, off, 4) == REDEEM_TAG
    ensures var d := DecodeRedeem(buf, off);
      d.next >= off && Normal(d.value) && EncodeRedeem(d.value) == buf[off..d.next]
  {
    hide BigEndian, ReadBigEndian, EncodeItems, SmallItems, DecodeRedeem, DecodeItems, RedeemHead;
    RedeemFields(buf, off);
    var tx, next := DecodeRedeem(buf, off).value, DecodeRedeem(buf, off).next;
    var at := off + 86 + ReadBigEndian(buf, off + 84, 2);
    var count := ByteAt(buf, at);
    ItemsAdvance(buf, at + 1, count);
    EncodeItemsOfDecode(buf, at + 1, count);
    RedeemHeadOfDecode(buf, off, tx);
    assert [count % 256] == buf[at..at + 1];
    Glue(buf, at, at + 1, next);
    Glue(buf, off + 86, at, next);
    Glue(buf, off, off + 86, next);
  }

  /** A transaction takes at least its tag, so a cursor past the end stays past the end. */
  lemma TxAdvances(buf: Bytes, off: nat)
    ensures var d := DecodeTx(buf, off); d.Decoded? ==> d.next >= off + 4
  {
    hide ReadBigEndian, Slice, DecodeItems;
    if DecodeRedeem(buf, off).Decoded? {
      var at := off + 86 + ReadBigEndian(buf, off + 84, 2);
      ItemsAdvance(buf, at + 1, ByteAt(buf, at));
    }
  }

  /** Re-encoding a decoded transaction that lies within the buffer gives back its bytes. */
  lemma EncodeOfDecodeTx(buf: Bytes, off: nat)
    requires DecodeTx(buf, off).Decoded? && DecodeTx(buf, off).next <= |buf|
    ensures var d := DecodeTx(buf, off);
      d.next >= off && Normal(d.value) && EncodeTx(d.value) == buf[off..d.next]
  {
    hide ReadBigEndian, Slice, Normal, EncodeTransfer, EncodeLock, EncodeRedeem;
    var tag := ReadBigEndian(buf, off, 4);
    TxAdvances(buf, off);
    if tag == CHAIN_ID {
      EncodeTransferOfDecode(buf, off);
    } else if tag == LOCK_TAG {
      EncodeLockOfDecode(buf, off);
    } else {
      EncodeRedeemOfDecode(buf, off);
    }
    hide DecodeRedeem;
  }
}
