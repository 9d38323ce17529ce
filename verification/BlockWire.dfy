/** Block encoding and the strict block parser (src/chain/block.ts). */
module BlockWire {
  import opened Genesis
  import opened Transactions
  import opened Wire

  // ---- 64-bit times as JavaScript numbers ----

  /** The gap between neighbouring doubles at `n`. */
  function Ulp(n: nat): (u: nat)
    ensures u > 0 && (n > 0 ==> u <= n)
  {
    if n < 0x20_0000_0000_0000 then 1 else 2 * Ulp(n / 2)
  }

  /** `Number(n)` for a BigInt: nearest double, ties to an even mantissa. */
  function ToDouble(n: nat): nat {
    var u := Ulp(n);
    var q, r := n / u, n % u;
    if 2 * r > u || (2 * r == u && q % 2 == 1) then (q + 1) * u else q * u
  }

  lemma ToDoubleExact(n: nat)
    requires n < 0x20_0000_0000_0000
    ensures ToDouble(n) == n
  {
  }

  lemma {:induction false} UlpFits(n: nat)
    requires n >= 0x20_0000_0000_0000
    ensures Ulp(n) >= 2 && Ulp(n) * 0x10_0000_0000_0000 <= n
  {
    if n / 2 >= 0x20_0000_0000_0000 {
      UlpFits(n / 2);
    }
  }

  /** Rounding never brings a number below 2^53. */
  lemma ToDoubleBelow(n: nat)
    requires ToDouble(n) < 0x20_0000_0000_0000
    ensures n < 0x20_0000_0000_0000
  {
    if n >= 0x20_0000_0000_0000 {
      var u := Ulp(n);
      UlpFits(n);
      hide Ulp;
      DivModLaw(n, u);
      QuotientAtLeast(n, u, 0x10_0000_0000_0000);
      ProductAtLeast(n / u, u);
    }
  }

  lemma QuotientBelow(n: nat, u: nat, k: nat)
    requires u > 0 && n / u < k
    ensures n < u * k
  {
    DivModLaw(n, u);
    assert (n / u + 1) * u <= k * u;
  }

  lemma QuotientAtLeast(n: nat, u: nat, k: nat)
    requires u > 0 && u * k <= n
    ensures n / u >= k
  {
    if n / u < k {
      QuotientBelow(n, u, k);
    }
  }

  lemma ProductAtLeast(q: nat, u: nat)
    requires q >= 0x10_0000_0000_0000 && u >= 2
    ensures q * u >= 0x20_0000_0000_0000
  {
    assert q * u >= q * 2;
  }

  /** Rounding moves a number by less than itself. */
  lemma ToDoubleNear(n: nat)
    ensures 0 <= ToDouble(n) <= 2 * n
  {
    var u := Ulp(n);
    DivModLaw(n, u);
  }

  lemma DivModLaw(n: nat, u: nat)
    requires u > 0
    ensures n == n / u * u + n % u && (n / u + 1) * u == n / u * u + u
  {
  }

  // ---- Headers ----

  function EncodeHeader(h: Header): Bytes {
    BigEndian(h.height, 4) + (h.prevHash + (h.txRoot + (h.stateRoot + (BigEndian(h.timestamp, 8)
      + (BigEndian(h.difficulty, 4) + (BigEndian(h.nonce, 4) + h.miner))))))
  }

  function DecodeHeader(buf: Bytes, off: nat): Option<Header> {
    if |buf| < off + HEADER_LEN then None
    else Some(Header(
      ReadBigEndian(buf, off, 4), Slice(buf, off + 4, 32), Slice(buf, off + 36, 32), Slice(buf, off + 68, 32),
      ToDouble(ReadBigEndian(buf, off + 100, 8)), ReadBigEndian(buf, off + 108, 4), ReadBigEndian(buf, off + 112, 4),
      Slice(buf, off + 116, 32)))
  }

  /** In range for its wire fields. */
  predicate SizedHeader(h: Header) {
    && h.height < 0x1_0000_0000 && 0 <= h.difficulty < 0x1_0000_0000 && h.nonce < 0x1_0000_0000
    && h.timestamp < 0x1_0000_0000_0000_0000
    && |h.prevHash| == 32 && |h.txRoot| == 32 && |h.stateRoot| == 32 && |h.miner| == 32
  }

  /** With a time that is a double besides (any integer below 2^53 is). */
  predicate NormalHeader(h: Header) {
    SizedHeader(h) && ToDouble(h.timestamp) == h.timestamp
  }

  /** The header as JavaScript reads it back. */
  function Rounded(h: Header): Header {
    h.(timestamp := ToDouble(h.timestamp))
  }

  lemma DecodeHeaderOfEncode(buf: Bytes, off: nat, h: Header)
    requires NormalHeader(h) && Has(buf, off, EncodeHeader(h))
    ensures |EncodeHeader(h)| == HEADER_LEN && DecodeHeader(buf, off) == Some(h)
  {
    hide Has, EncodeHeader, DecodeHeader, ToDouble;
    DecodeHeaderRounds(buf, off, h);
  }

  /** Any header in range decodes to itself with its time rounded. */
  lemma DecodeHeaderRounds(buf: Bytes, off: nat, h: Header)
    requires SizedHeader(h) && Has(buf, off, EncodeHeader(h))
    ensures |EncodeHeader(h)| == HEADER_LEN && DecodeHeader(buf, off) == Some(Rounded(h))
    ensures ReadBigEndian(buf, off + 100, 8) == h.timestamp
  {
    WidthValues();
    hide BigEndian, ReadBigEndian, Slice, Has, Pow256, ToDouble;
    var nonce := BigEndian(h.nonce, 4) + h.miner;
    var difficulty := BigEndian(h.difficulty, 4) + nonce;
    var time := BigEndian(h.timestamp, 8) + difficulty;
    var stateRoot := h.stateRoot + time;
    var txRoot := h.txRoot + stateRoot;
    HasSplit(buf, off, BigEndian(h.height, 4), h.prevHash + txRoot);
    HasSplit(buf, off + 4, h.prevHash, txRoot);
    HasSplit(buf, off + 36, h.txRoot, stateRoot);
    HasSplit(buf, off + 68, h.stateRoot, time);
    HasSplit(buf, off + 100, BigEndian(h.timestamp, 8), difficulty);
    HasSplit(buf, off + 108, BigEndian(h.difficulty, 4), nonce);
    HasSplit(buf, off + 112, BigEndian(h.nonce, 4), h.miner);
    HeaderFields(buf, off, h);
    HasFits(buf, off, EncodeHeader(h));
  }

  lemma HeaderFields(buf: Bytes, off: nat, h: Header)
    requires SizedHeader(h)
    requires Has(buf, off, BigEndian(h.height, 4)) && Has(buf, off + 4, h.prevHash) && Has(buf, off + 36, h.txRoot)
    requires Has(buf, off + 68, h.stateRoot) && Has(buf, off + 100, BigEndian(h.timestamp, 8))
    requires Has(buf, off + 108, BigEndian(h.difficulty, 4)) && Has(buf, off + 112, BigEndian(h.nonce, 4))
    requires Has(buf, off + 116, h.miner)
    ensures DecodeHeader(buf, off) == Some(Rounded(h)) && ReadBigEndian(buf, off + 100, 8) == h.timestamp
  {
    WidthValues();
    HasFits(buf, off + 116, h.miner);
    hide BigEndian, ReadBigEndian, Slice, Has, Pow256, ToDouble;
    ReadOfWrite(buf, off, h.height, 4);
    HasSlice(buf, off + 4, h.prevHash);
    HasSlice(buf, off + 36, h.txRoot);
    HasSlice(buf, off + 68, h.stateRoot);
    ReadOfWrite(buf, off + 100, h.timestamp, 8);
    ReadOfWrite(buf, off + 108, h.difficulty, 4);
    ReadOfWrite(buf, off + 112, h.nonce, 4);
    HasSlice(buf, off + 116, h.miner);
  }

  lemma HeaderFront(buf: Bytes, off: nat)
    requires off + HEADER_LEN <= |buf|
    ensures BigEndian(ReadBigEndian(buf, off, 4), 4) + (Slice(buf, off + 4, 32) + (Slice(buf, off + 36, 32) + Slice(buf, off + 68, 32)))
         == buf[off..off + 100]
  {
    WriteOfRead(buf, off, 4);
    hide BigEndian, ReadBigEndian;
    Glue(buf, off + 36, off + 68, off + 100);
    Glue(buf, off + 4, off + 36, off + 100);
    Glue(buf, off, off + 4, off + 100);
  }

  lemma HeaderBack(buf: Bytes, off: nat)
    requires off + HEADER_LEN <= |buf|
    ensures BigEndian(ReadBigEndian(buf, off + 108, 4), 4) + (BigEndian(ReadBigEndian(buf, off + 112, 4), 4) + Slice(buf, off + 116, 32))
         == buf[off + 108..off + 148]
  {
    WriteOfRead(buf, off + 108, 4);
    WriteOfRead(buf, off + 112, 4);
    hide BigEndian, ReadBigEndian;
    Glue(buf, off + 112, off + 116, off + 148);
    Glue(buf, off + 108, off + 112, off + 148);
  }

  lemma Regroup(a: Bytes, b: Bytes, c: Bytes, d: Bytes, t: Bytes, rest: Bytes)
    ensures a + (b + (c + (d + (t + rest)))) == (a + (b + (c + d))) + (t + rest)
  {
  }

  /** Only the time field can come back different: re-encoding restores every other byte. */
  lemma EncodeHeaderOfDecode(buf: Bytes, off: nat)
    requires off + HEADER_LEN <= |buf|
    ensures var h := DecodeHeader(buf, off).value;
      EncodeHeader(h) == buf[off..off + 100] + (BigEndian(h.timestamp, 8) + buf[off + 108..off + 148])
  {
    HeaderFront(buf, off);
    HeaderBack(buf, off);
    hide BigEndian, ReadBigEndian, ToDouble, Slice;
    var h := DecodeHeader(buf, off).value;
    Regroup(BigEndian(h.height, 4), h.prevHash, h.txRoot, h.stateRoot, BigEndian(h.timestamp, 8),
            BigEndian(h.difficulty, 4) + (BigEndian(h.nonce, 4) + h.miner));
  }

  // ---- Blocks ----

  function EncodeTxs(txs: seq<Transaction>): Bytes {
    if txs == [] then [] else EncodeTx(txs[0]) + EncodeTxs(txs[1..])
  }

  function EncodeBlock(b: Block): Bytes {
    EncodeHeader(b.header) + (BigEndian(|b.transactions|, 4) + EncodeTxs(b.transactions))
  }

  function DecodeTxs(buf: Bytes, p: nat, count: nat): Decoded<seq<Transaction>>
    decreases count
  {
    if count == 0 then Decoded([], p)
    else
      var first := DecodeTx(buf, p);
      if first.Malformed? then Malformed
      else
        var more := DecodeTxs(buf, first.next, count - 1);
        if more.Malformed? then Malformed else Decoded([first.value] + more.value, more.next)
  }

  /** Header, count, transactions, and nothing after them. */
  function DecodeBlock(buf: Bytes): Option<Block> {
    var header := DecodeHeader(buf, 0);
    if header.None? then None
    else
      var txs := DecodeTxs(buf, HEADER_LEN + 4, ReadBigEndian(buf, HEADER_LEN, 4));
      if txs.Malformed? || txs.next != |buf| then None
      else Some(Block(header.value, txs.value))
  }

  function TxBytes(txs: seq<Transaction>): nat {
    if txs == [] then 0 else |EncodeTx(txs[0])| + TxBytes(txs[1..])
  }

  function BlockSize(b: Block): nat {
    HEADER_LEN + 4 + TxBytes(b.transactions)
  }

  predicate NormalTxs(txs: seq<Transaction>) {
    forall i :: 0 <= i < |txs| ==> Normal(txs[i])
  }

  predicate NormalBlock(b: Block) {
    NormalHeader(b.header) && |b.transactions| < 0x1_0000_0000 && NormalTxs(b.transactions)
  }

  // ---- The loops as written ----

  method EncodeBlockLoop(b: Block) returns (buf: Bytes)
    ensures buf == EncodeBlock(b)
  {
    hide EncodeTx, EncodeHeader, BigEndian;
    buf := EncodeHeader(b.header) + BigEndian(|b.transactions|, 4);
    var i := 0;
    while i < |b.transactions|
      invariant 0 <= i <= |b.transactions|
      invariant EncodeBlock(b) == buf + EncodeTxs(b.transactions[i..])
    {
      assert b.transactions[i..][1..] == b.transactions[i + 1..];
      buf := buf + EncodeTx(b.transactions[i]);
      i := i + 1;
    }
  }

  method DecodeBlockLoop(buf: Bytes) returns (r: Option<Block>)
    ensures r == DecodeBlock(buf)
  {
    hide DecodeTx, DecodeHeader, ReadBigEndian;
    var header := DecodeHeader(buf, 0);
    if header.None? {
      return None;
    }
    var p: nat := HEADER_LEN + 4;
    var txCount := ReadBigEndian(buf, HEADER_LEN, 4);
    var txs: seq<Transaction> := [];
    ghost var all := DecodeTxs(buf, p, txCount);
    for i := 0 to txCount
      invariant var rest := DecodeTxs(buf, p, txCount - i);
        && all.Malformed? == rest.Malformed?
        && (rest.Decoded? ==> all.value == txs + rest.value && all.next == rest.next)
    {
      var d := DecodeTx(buf, p);
      if d.Malformed? {
        return None;
      }
      txs := txs + [d.value];
      p := d.next;
    }
    assert all.Decoded? && all.value == txs && all.next == p;
    if p != |buf| {
      return None;
    }
    r := Some(Block(header.value, txs));
  }

  method BlockSizeLoop(b: Block) returns (size: nat)
    ensures size == BlockSize(b)
  {
    hide EncodeTx;
    var txBytes := 0;
    for i := 0 to |b.transactions|
      invariant txBytes + TxBytes(b.transactions[i..]) == TxBytes(b.transactions)
    {
      assert b.transactions[i..][1..] == b.transactions[i + 1..];
      txBytes := txBytes + |EncodeTx(b.transactions[i])|;
    }
    size := HEADER_LEN + 4 + txBytes;
  }

  // ---- Round trips ----

  lemma {:induction false} DecodeTxsOfEncode(buf: Bytes, p: nat, txs: seq<Transaction>)
    requires NormalTxs(txs) && Has(buf, p, EncodeTxs(txs))
    ensures DecodeTxs(buf, p, |txs|) == Decoded(txs, p + |EncodeTxs(txs)|)
    decreases |txs|
  {
    hide Normal, EncodeTx, DecodeTx, Has;
    if txs != [] {
      assert Normal(txs[0]) && NormalTxs(txs[1..]);
      hide NormalTxs;
      HasSplit(buf, p, EncodeTx(txs[0]), EncodeTxs(txs[1..]));
      DecodeOfEncodeTx(buf, p, txs[0]);
      DecodeTxsOfEncode(buf, p + |EncodeTx(txs[0])|, txs[1..]);
      assert txs == [txs[0]] + txs[1..];
    }
  }

  /** Any block in range decodes to itself with its time rounded. */
  lemma DecodeBlockRounds(b: Block)
    requires SizedHeader(b.header) && |b.transactions| < 0x1_0000_0000 && NormalTxs(b.transactions)
    ensures DecodeBlock(EncodeBlock(b)) == Some(b.(header := Rounded(b.header)))
    ensures ReadBigEndian(EncodeBlock(b), 100, 8) == b.header.timestamp
  {
    hide SizedHeader, NormalTxs, BigEndian, ReadBigEndian, DecodeHeader, EncodeHeader, DecodeTxs, EncodeTxs, Has, Pow256, Rounded;
    var buf := EncodeBlock(b);
    var count := BigEndian(|b.transactions|, 4);
    HasAll(buf);
    HasSplit(buf, 0, EncodeHeader(b.header), count + EncodeTxs(b.transactions));
    DecodeHeaderRounds(buf, 0, b.header);
    HasSplit(buf, HEADER_LEN, count, EncodeTxs(b.transactions));
    assert |b.transactions| < Pow256(4) by { WidthValues(); }
    ReadOfWrite(buf, HEADER_LEN, |b.transactions|, 4);
    DecodeTxsOfEncode(buf, HEADER_LEN + 4, b.transactions);
  }

  /** Every normal block decodes back to itself. */
  lemma DecodeOfEncodeBlock(b: Block)
    requires NormalBlock(b)
    ensures DecodeBlock(EncodeBlock(b)) == Some(b)
  {
    hide NormalTxs, DecodeBlock, EncodeBlock, ToDouble;
    DecodeBlockRounds(b);
  }

  lemma HasAll(buf: Bytes)
    ensures Has(buf, 0, buf)
  {
  }

  /** A parse that ends exactly at the end of the buffer never read past it. */
  lemma {:induction false} EncodeTxsOfDecode(buf: Bytes, p: nat, count: nat)
    requires DecodeTxs(buf, p, count).Decoded? && DecodeTxs(buf, p, count).next == |buf|
    ensures var d := DecodeTxs(buf, p, count);
      p <= |buf| && |d.value| == count && NormalTxs(d.value) && EncodeTxs(d.value) == buf[p..]
    decreases count
  {
    hide DecodeTx, EncodeTx, Normal;
    if count > 0 {
      var first := DecodeTx(buf, p);
      TxAdvances(buf, p);
      EncodeTxsOfDecode(buf, first.next, count - 1);
      EncodeOfDecodeTx(buf, p);
      Glue(buf, p, first.next, |buf|);
      var d := DecodeTxs(buf, p, count);
      assert d.value[1..] == DecodeTxs(buf, first.next, count - 1).value;
    }
  }

  lemma {:induction false} SameBytes(n: nat, m: nat, k: nat) returns (q: int)
    requires BigEndian(n, k) == BigEndian(m, k)
    ensures n - m == q * Pow256(k)
    decreases k
  {
    if k == 0 {
      q := n - m;
    } else {
      var a, b := BigEndian(n / 256, k - 1), BigEndian(m / 256, k - 1);
      assert BigEndian(n, k)[k - 1] == n % 256 && BigEndian(m, k)[k - 1] == m % 256;
      assert BigEndian(n, k)[..k - 1] == a && BigEndian(m, k)[..k - 1] == b;
      q := SameBytes(n / 256, m / 256, k - 1);
      assert 256 * (q * Pow256(k - 1)) == q * (256 * Pow256(k - 1));
    }
  }

  lemma TimeRoundTrips(raw: nat)
    requires raw < 0x1_0000_0000_0000_0000
    ensures BigEndian(ToDouble(raw), 8) == BigEndian(raw, 8) <==> ToDouble(raw) == raw
  {
    ToDoubleNear(raw);
    hide ToDouble, BigEndian;
    var t := ToDouble(raw);
    if BigEndian(t, 8) == BigEndian(raw, 8) && t != raw {
      var q := SameBytes(t, raw, 8);
      WidthValues();
      hide Pow256;
    }
  }

  /**
   * Whatever `decodeBlock` accepts re-encodes to the very same bytes, exactly when its 64-bit time
   * is a JavaScript number; and then the decoded block is normal.
   */
  lemma EncodeOfDecodeBlock(buf: Bytes)
    requires DecodeBlock(buf).Some?
    ensures var raw := ReadBigEndian(buf, 100, 8);
      && (EncodeBlock(DecodeBlock(buf).value) == buf <==> ToDouble(raw) == raw)
      && (ToDouble(raw) == raw ==> NormalBlock(DecodeBlock(buf).value))
  {
    hide BigEndian, ReadBigEndian, DecodeTxs, EncodeTxs, Pow256, ToDouble, NormalTxs, EncodeHeader;
    var b := DecodeBlock(buf).value;
    var h, raw, count := b.header, ReadBigEndian(buf, 100, 8), ReadBigEndian(buf, HEADER_LEN, 4);
    EncodeTxsOfDecode(buf, HEADER_LEN + 4, count);
    EncodeHeaderOfDecode(buf, 0);
    WriteOfRead(buf, HEADER_LEN, 4);
    WriteOfRead(buf, 100, 8);
    WidthValues();
    TimeRoundTrips(raw);
    var tail := buf[148..152] + buf[152..];
    assert EncodeBlock(b) == buf[..100] + (BigEndian(h.timestamp, 8) + buf[108..148]) + tail;
    BlockLayout(buf, BigEndian(h.timestamp, 8));
    if ToDouble(raw) == raw {
      HeaderIsNormal(buf);
    }
  }

  /** A buffer accepted with a time below 2^53 re-encodes to itself. */
  lemma EarlyBlockReencodes(buf: Bytes)
    requires DecodeBlock(buf).Some? && DecodeBlock(buf).value.header.timestamp < 0x20_0000_0000_0000
    ensures EncodeBlock(DecodeBlock(buf).value) == buf
  {
    hide DecodeTxs, EncodeBlock, ReadBigEndian, ToDouble, BigEndian;
    var raw := ReadBigEndian(buf, 100, 8);
    assert DecodeBlock(buf).value.header.timestamp == ToDouble(raw);
    hide DecodeBlock;
    EncodeOfDecodeBlock(buf);
    ToDoubleBelow(raw);
    ToDoubleExact(raw);
  }

  /** The first integer that is not a double. */
  const ODD_TIME: nat := 0x20_0000_0000_0001

  /** A block stamped 2^53 + 1 is accepted, and re-encodes to other bytes. */
  lemma OddTimeReencodesDifferently()
    ensures var buf := EncodeBlock(Block(GENESIS_HEADER.(timestamp := ODD_TIME), []));
      DecodeBlock(buf).Some? && EncodeBlock(DecodeBlock(buf).value) != buf
  {
    var b := Block(GENESIS_HEADER.(timestamp := ODD_TIME), []);
    assert Ulp(0x10_0000_0000_0000) == 1;
    assert ToDouble(ODD_TIME) == 0x20_0000_0000_0000;
    hide ToDouble, EncodeBlock, DecodeBlock, ReadBigEndian;
    DecodeBlockRounds(b);
    EncodeOfDecodeBlock(EncodeBlock(b));
  }

  lemma HeaderIsNormal(buf: Bytes)
    requires HEADER_LEN <= |buf|
    requires var raw := ReadBigEndian(buf, 100, 8); ToDouble(raw) == raw
    ensures NormalHeader(DecodeHeader(buf, 0).value)
  {
    WidthValues();
    WriteOfRead(buf, 0, 4);
    WriteOfRead(buf, 100, 8);
    WriteOfRead(buf, 108, 4);
    WriteOfRead(buf, 112, 4);
    hide BigEndian, ReadBigEndian, Pow256, ToDouble;
  }

  lemma BlockLayout(buf: Bytes, time: Bytes)
    requires |buf| >= 152 && |time| == 8
    ensures buf[..100] + (time + buf[108..148]) + (buf[148..152] + buf[152..]) == buf <==> time == buf[100..108]
  {
    var whole := buf[..100] + (time + buf[108..148]) + (buf[148..152] + buf[152..]);
    assert whole[100..108] == time;
  }

  /** The size cap is applied to the encoded length. */
  lemma {:induction false} TxBytesIsLength(txs: seq<Transaction>)
    ensures TxBytes(txs) == |EncodeTxs(txs)|
  {
    hide EncodeTx;
    if txs != [] {
      TxBytesIsLength(txs[1..]);
    }
  }

  lemma BlockSizeIsLength(b: Block)
    requires NormalHeader(b.header)
    ensures BlockSize(b) == |EncodeBlock(b)|
  {
    TxBytesIsLength(b.transactions);
    hide BigEndian, EncodeTxs;
  }
}
