/** The ledger with the real hashing and script evaluation plugged in (src/chain/state.ts, src/chain/transaction.ts). */
module ScriptedLedger {
  import opened Genesis
  import opened Transactions
  import opened Ledger
  import opened OnceOnly
  import Wire
  import Script
  import ScriptLaws
  import Htlc

  function SighashPreimage(tx: Transaction): Bytes {
    Wire.BigEndian(Wire.REDEEM_TAG, 4) + (Wire.BigEndian(CHAIN_ID, 4) + (Wire.OrZero32(tx.lockId) + (tx.to
      + (Wire.BigEndian(tx.amount, 8) + (Wire.BigEndian(tx.fee, 8) + tx.redeemScript)))))
  }

  /** What the signatures in a redeem's witness sign. */
  function RedeemSighash(c: Script.Crypto, tx: Transaction): Bytes {
    c.sha256(SighashPreimage(tx))
  }

  predicate Authorizes(c: Script.Crypto, tx: Transaction, height: nat, mtp: int) {
    Script.Eval(c, Script.ScriptContext(RedeemSighash(c, tx), height, mtp), tx.redeemScript, tx.witnessItems)
  }

  /** The hashes and the evaluator the ledger is run with. */
  function StandardOracle(c: Script.Crypto): Oracle {
    Oracle(tx => c.sha256(Wire.EncodeTx(tx)), c.sha256, (tx, height: nat, mtp) => Authorizes(c, tx, height, mtp))
  }

  // ---- Lock ids ----

  /** The hash keeps the encodings of these locks apart. */
  ghost predicate LocksHashApart(c: Script.Crypto, h: History) {
    forall i, j :: 0 <= i < |h| && 0 <= j < |h| && h[i].tx.kind.Lock? && h[j].tx.kind.Lock?
                   && c.sha256(Wire.EncodeTx(h[i].tx)) == c.sha256(Wire.EncodeTx(h[j].tx))
                   ==> Wire.EncodeTx(h[i].tx) == Wire.EncodeTx(h[j].tx)
  }

  lemma EncodingCommits(a: Transaction, b: Transaction)
    requires Wire.Normal(a) && Wire.Normal(b) && Wire.EncodeTx(a) == Wire.EncodeTx(b)
    ensures a == b
  {
    hide Wire.EncodeTx, Wire.DecodeTx, Wire.Normal;
    var buf := Wire.EncodeTx(a);
    Wire.DecodeOfEncodeTx(buf, 0, a);
    Wire.DecodeOfEncodeTx(buf, 0, b);
  }

  /** Lock ids commit to sender and nonce because the wire format does. */
  lemma LockIdsCommitByEncoding(c: Script.Crypto, h: History)
    requires LocksHashApart(c, h)
    requires forall i :: 0 <= i < |h| && h[i].tx.kind.Lock? ==> Wire.Normal(h[i].tx)
    ensures LockIdsCommit(StandardOracle(c), h)
  {
    hide Wire.EncodeTx, Wire.Normal;
    forall i, j | 0 <= i < |h| && 0 <= j < |h| && h[i].tx.kind.Lock? && h[j].tx.kind.Lock?
                  && StandardOracle(c).txHash(h[i].tx) == StandardOracle(c).txHash(h[j].tx)
      ensures SameSlot(h[i].tx, h[j].tx)
    {
      EncodingCommits(h[i].tx, h[j].tx);
    }
  }

  // ---- Signatures of redeems ----

  lemma SplitEqual(a: Bytes, b: Bytes, x: Bytes, y: Bytes)
    requires |a| == |x| && a + b == x + y
    ensures a == x && b == y
  {
    assert a == (a + b)[..|a|] && b == (a + b)[|a|..];
    assert x == (x + y)[..|x|] && y == (x + y)[|x|..];
  }

  lemma {:induction false} BigEndianCommits(m: nat, n: nat, k: nat)
    requires m < Wire.Pow256(k) && n < Wire.Pow256(k) && Wire.BigEndian(m, k) == Wire.BigEndian(n, k)
    ensures m == n
  {
    if k > 0 {
      SplitEqual(Wire.BigEndian(m / 256, k - 1), [m % 256], Wire.BigEndian(n / 256, k - 1), [n % 256]);
      BigEndianCommits(m / 256, n / 256, k - 1);
    }
  }

  /** A signature on a redeem fixes the lock, the destination, the amount, the fee and the script. */
  lemma SighashCommits(c: Script.Crypto, a: Transaction, b: Transaction)
    requires a.kind.Redeem? && b.kind.Redeem? && Wire.Normal(a) && Wire.Normal(b)
    requires RedeemSighash(c, a) == RedeemSighash(c, b) ==> SighashPreimage(a) == SighashPreimage(b)
    ensures RedeemSighash(c, a) == RedeemSighash(c, b) <==>
      a.lockId == b.lockId && a.to == b.to && a.amount == b.amount && a.fee == b.fee && a.redeemScript == b.redeemScript
  {
    if RedeemSighash(c, a) == RedeemSighash(c, b) {
      PreimageCommits(a, b);
    }
  }

  lemma PreimageCommits(a: Transaction, b: Transaction)
    requires a.kind.Redeem? && b.kind.Redeem? && Wire.Normal(a) && Wire.Normal(b)
    requires SighashPreimage(a) == SighashPreimage(b)
    ensures a.lockId == b.lockId && a.to == b.to && a.amount == b.amount && a.fee == b.fee && a.redeemScript == b.redeemScript
  {
    Wire.WidthValues();
    hide Wire.Pow256, Wire.BigEndian;
    var t, d := Wire.BigEndian(Wire.REDEEM_TAG, 4), Wire.BigEndian(CHAIN_ID, 4);
    var (fa, fb) := (Wire.BigEndian(a.fee, 8), Wire.BigEndian(b.fee, 8));
    var (va, vb) := (Wire.BigEndian(a.amount, 8), Wire.BigEndian(b.amount, 8));
    var ra1, rb1 := fa + a.redeemScript, fb + b.redeemScript;
    var ra2, rb2 := va + ra1, vb + rb1;
    var ra3, rb3 := a.to + ra2, b.to + rb2;
    var ra4, rb4 := a.lockId + ra3, b.lockId + rb3;
    SplitEqual(t, d + ra4, t, d + rb4);
    SplitEqual(d, ra4, d, rb4);
    SplitEqual(a.lockId, ra3, b.lockId, rb3);
    SplitEqual(a.to, ra2, b.to, rb2);
    SplitEqual(va, ra1, vb, rb1);
    SplitEqual(fa, a.redeemScript, fb, b.redeemScript);
    BigEndianCommits(a.amount, b.amount, 8);
    BigEndianCommits(a.fee, b.fee, 8);
  }

  // ---- Redeems against the ledger ----

  /** A redeem that can be mined stays minable in every later block, as long as its lock is untouched. */
  lemma RedeemStaysValid(c: Script.Crypto, s: State, s': State, created: set<Bytes>, tx: Transaction, now: Context, later: Context)
    requires tx.kind.Redeem? && ApplyTx(StandardOracle(c), s, created, tx, now).Applied?
    requires now.height <= later.height && now.mtp <= later.mtp && later.scriptsActive
    requires tx.lockId in s'.locks && s'.locks[tx.lockId] == s.locks[tx.lockId]
    ensures ApplyTx(StandardOracle(c), s', {}, tx, later).Applied?
  {
    hide Script.Eval, Credit;
    var a := Script.ScriptContext(RedeemSighash(c, tx), now.height, now.mtp);
    var b := Script.ScriptContext(RedeemSighash(c, tx), later.height, later.mtp);
    assert StandardOracle(c).authorizes(tx, now.height, now.mtp);
    ScriptLaws.SpendStaysValid(c, a, b, tx.redeemScript, tx.witnessItems);
    assert StandardOracle(c).authorizes(tx, later.height, later.mtp);
  }

  /**
   * A lock under the hash of an HTLC script is spent by exactly the redeems that reveal that script, name the
   * locked amount, pay no more than it in fees, and carry a claim or, once the locktime is reached, a refund.
   */
  lemma HtlcLockSpentIff(c: Script.Crypto, s: State, created: set<Bytes>, tx: Transaction, ctx: Context,
                         hash: Bytes, recipient: Bytes, locktime: int, sender: Bytes)
    requires |hash| <= MAX_PUSH_BYTES && |recipient| <= MAX_PUSH_BYTES && |sender| <= MAX_PUSH_BYTES
    requires -Htlc.SAFE_INTEGER < locktime < Htlc.SAFE_INTEGER
    requires tx.kind.Redeem? && tx.lockId in s.locks
    requires var script := Htlc.HtlcScript(hash, recipient, locktime, sender);
      && s.locks[tx.lockId].scriptHash == c.sha256(script)
      && (c.sha256(tx.redeemScript) == c.sha256(script) ==> tx.redeemScript == script)
    ensures var lock, w := s.locks[tx.lockId], tx.witnessItems;
      var sctx := Script.ScriptContext(RedeemSighash(c, tx), ctx.height, ctx.mtp);
      ApplyTx(StandardOracle(c), s, created, tx, ctx).Applied? <==>
        && ctx.scriptsActive && tx.lockId !in created
        && tx.redeemScript == Htlc.HtlcScript(hash, recipient, locktime, sender)
        && tx.amount == lock.amount && tx.fee <= lock.amount
        && Script.WithinLimits([], w)
        && (Htlc.IsClaim(c, sctx, hash, recipient, w) || Htlc.IsRefund(c, sctx, locktime, sender, w))
  {
    hide Script.Eval, Credit, Htlc.HtlcScript, Htlc.IsClaim, Htlc.IsRefund, Script.WithinLimits, RedeemSighash;
    var sctx := Script.ScriptContext(RedeemSighash(c, tx), ctx.height, ctx.mtp);
    Htlc.HtlcSpendableIff(c, sctx, hash, recipient, locktime, sender, tx.witnessItems);
    assert StandardOracle(c).authorizes(tx, ctx.height, ctx.mtp) == Script.Eval(c, sctx, tx.redeemScript, tx.witnessItems);
  }
}
