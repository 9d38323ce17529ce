/** Redeem-script templates and what the interpreter makes of them (src/chain/scriptBuild.ts). */
module Htlc {
  import opened Genesis
  import opened ScriptNum
  import opened Script

  /** The smallest push opcode for a length, with its length bytes. */
  function PushHeader(len: nat): (h: Bytes)
    requires len <= 0xffff
    ensures 1 <= |h| <= 3
  {
    if len <= 0x4b then [len]
    else if len <= 0xff then [OP_PUSHDATA1, len]
    else [OP_PUSHDATA2, len % 256, len / 256]
  }

  function PushData(data: Bytes): Bytes
    requires |data| <= 0xffff
  {
    PushHeader(|data|) + data
  }

  const OP_SHA256: Byte := 0xa8
  const OP_EQUALVERIFY: Byte := 0x88
  const OP_CHECKSIG: Byte := 0xac
  const OP_CLTV: Byte := 0xb1
  const OP_DROP: Byte := 0x75

  /** Hash-locked payment: the witness is a signature under a preimage. */
  function HashlockSigScript(hash: Bytes, pubkey: Bytes): Bytes
    requires |hash| <= MAX_PUSH_BYTES && |pubkey| <= MAX_PUSH_BYTES
  {
    [OP_SHA256] + PushData(hash) + [OP_EQUALVERIFY] + PushData(pubkey) + [OP_CHECKSIG]
  }

  /** The largest integers a JavaScript number counts exactly. */
  const SAFE_INTEGER := 0x20_0000_0000_0000

  lemma SafeEncoding(n: int)
    requires -SAFE_INTEGER < n < SAFE_INTEGER
    ensures |EncodeNum(n)| <= 7
  {
    if n != 0 {
      assert Limit(7) == 0x80_0000_0000_0000;
      EncodedMagnitude(if n < 0 then -n else n, n < 0, 7);
    }
  }

  /** The refund branch: a lock time, then the sender's signature. */
  function RefundScript(locktime: int, sender: Bytes): Bytes
    requires -SAFE_INTEGER < locktime < SAFE_INTEGER && |sender| <= MAX_PUSH_BYTES
  {
    SafeEncoding(locktime);
    PushData(EncodeNum(locktime)) + [OP_CLTV, OP_DROP] + PushData(sender) + [OP_CHECKSIG]
  }

  /** Atomic swap: claim with the secret, or refund after the lock time. */
  function HtlcScript(hash: Bytes, recipient: Bytes, locktime: int, sender: Bytes): Bytes
    requires |hash| <= MAX_PUSH_BYTES && |recipient| <= MAX_PUSH_BYTES && |sender| <= MAX_PUSH_BYTES
    requires -SAFE_INTEGER < locktime < SAFE_INTEGER
  {
    [OP_IF] + HashlockSigScript(hash, recipient) + [OP_ELSE] + RefundScript(locktime, sender) + [OP_ENDIF]
  }

  // ---- Runs over concatenated script pieces ----

  /** An opcode, then the rest of a script. */
  function Op(op: Byte, rest: Bytes): Bytes {
    [op] + rest
  }

  /** A push, then the rest of a script. */
  function Data(data: Bytes, rest: Bytes): Bytes
    requires |data| <= MAX_PUSH_BYTES
  {
    PushData(data) + rest
  }

  /** The interpreter's length reader inverts the push header. */
  lemma PushLengthReads(len: nat, more: Bytes)
    requires len <= MAX_PUSH_BYTES
    ensures var h := PushHeader(len);
      IsPush(h[0]) && PushLength(h[0], h[1..] + more) == Some((len, |h| - 1))
  {
  }

  lemma PushStepReads(data: Bytes, rest: Bytes, m: Machine)
    requires |data| <= MAX_PUSH_BYTES && |m.stack| + 1 + |m.alt| <= MAX_STACK_SIZE
    ensures var h := PushHeader(|data|);
      IsPush(h[0]) && PushStep(h[0], h[1..] + (data + rest), m)
      == Next(rest, if Executing(m.cond) then m.(stack := m.stack + [data]) else m)
  {
    PushLengthReads(|data|, data + rest);
    hide PushLength, PushHeader;
    var h := PushHeader(|data|);
    var tail, at := h[1..] + (data + rest), |h| - 1;
    assert tail[at..at + |data|] == data && tail[at + |data|..] == rest;
  }

  /** Taken, a push adds its data; skipped, it changes nothing. */
  lemma RunPush(c: Crypto, ctx: ScriptContext, data: Bytes, rest: Bytes, m: Machine)
    requires |data| <= MAX_PUSH_BYTES && |m.stack| + 1 + |m.alt| <= MAX_STACK_SIZE
    ensures Run(c, ctx, Data(data, rest), m)
         == Run(c, ctx, rest, if Executing(m.cond) then m.(stack := m.stack + [data]) else m)
  {
    PushStepReads(data, rest, m);
    hide PushStep, PushHeader, Exec;
    var script := Data(data, rest);
    assert script[1..] == PushHeader(|data|)[1..] + (data + rest);
    hide PushData, Data;
    assert Step(c, ctx, script, m) == PushStep(script[0], script[1..], m);
  }

  /** Neither a push, nor flow control, nor a no-op. */
  predicate Ordinary(op: Byte) {
    !IsPush(op) && op != OP_IF && op != OP_ELSE && op != OP_ENDIF && !IsReservedNop(op)
  }

  lemma RunOp(c: Crypto, ctx: ScriptContext, op: Byte, rest: Bytes, m: Machine)
    requires Ordinary(op) && m.ops < MAX_OPS
    ensures Executing(m.cond) ==>
      var r := Exec(c, ctx, op, m.stack, m.alt);
      Run(c, ctx, Op(op, rest), m) == (r.Ok? && Run(c, ctx, rest, Machine(r.stack, r.alt, m.cond, m.ops + 1)))
    ensures !Executing(m.cond) ==> Run(c, ctx, Op(op, rest), m) == Run(c, ctx, rest, m)
  {
    hide Exec, PushStep;
    assert Op(op, rest)[1..] == rest;
  }

  lemma RunIf(c: Crypto, ctx: ScriptContext, rest: Bytes, m: Machine)
    requires m.cond == []
    ensures Run(c, ctx, Op(OP_IF, rest), m) ==
      (m.stack != [] && Run(c, ctx, rest, m.(cond := [Truthy(m.stack[|m.stack| - 1])], stack := m.stack[..|m.stack| - 1])))
  {
    hide Exec, PushStep, Truthy;
    assert Op(OP_IF, rest)[1..] == rest;
    if m.stack != [] {
      assert m.cond + [Truthy(m.stack[|m.stack| - 1])] == [Truthy(m.stack[|m.stack| - 1])];
    }
  }

  lemma RunElse(c: Crypto, ctx: ScriptContext, rest: Bytes, m: Machine)
    requires |m.cond| == 1
    ensures Run(c, ctx, Op(OP_ELSE, rest), m) == Run(c, ctx, rest, m.(cond := [!m.cond[0]]))
  {
    hide Exec, PushStep;
    assert Op(OP_ELSE, rest)[1..] == rest;
    assert m.cond[..0] + [!m.cond[0]] == [!m.cond[0]];
  }

  lemma RunEndIf(c: Crypto, ctx: ScriptContext, m: Machine)
    requires |m.cond| == 1
    ensures Run(c, ctx, [OP_ENDIF], m) == Accepts(m.(cond := []))
  {
    hide Exec, PushStep, Accepts;
    assert [OP_ENDIF][1..] == [];
    assert m.cond[..0] == [];
    assert Run(c, ctx, [], m.(cond := [])) == Accepts(m.(cond := []));
  }

  ghost predicate Roomy(m: Machine) {
    |m.stack| <= MAX_WITNESS_ITEMS && |m.alt| == 0 && m.ops <= 100
  }

  lemma ClaimLayout(hash: Bytes, key: Bytes, rest: Bytes)
    requires |hash| <= MAX_PUSH_BYTES && |key| <= MAX_PUSH_BYTES
    ensures HashlockSigScript(hash, key) + rest
         == Op(OP_SHA256, Data(hash, Op(OP_EQUALVERIFY, Data(key, Op(OP_CHECKSIG, rest)))))
  {
    hide PushData;
  }

  lemma RefundLayout(locktime: int, key: Bytes, rest: Bytes)
    requires -SAFE_INTEGER < locktime < SAFE_INTEGER && |key| <= MAX_PUSH_BYTES
    ensures |EncodeNum(locktime)| <= 7
    ensures RefundScript(locktime, key) + rest
         == Data(EncodeNum(locktime), Op(OP_CLTV, Op(OP_DROP, Data(key, Op(OP_CHECKSIG, rest)))))
  {
    SafeEncoding(locktime);
    hide PushData, EncodeNum;
  }

  /** A key and its check: the signature on top becomes a truth value. */
  lemma RunKeySign(c: Crypto, ctx: ScriptContext, key: Bytes, rest: Bytes, m: Machine)
    requires |key| <= MAX_PUSH_BYTES && Executing(m.cond)
    requires |m.stack| <= MAX_WITNESS_ITEMS && |m.alt| == 0 && m.ops < MAX_OPS
    ensures var n := |m.stack|;
      Run(c, ctx, Data(key, Op(OP_CHECKSIG, rest)), m) == (
        && n >= 1
        && Run(c, ctx, rest, m.(stack := m.stack[..n - 1] + [BoolItem(SigValid(c, ctx.sighash, m.stack[n - 1], key))], ops := m.ops + 1)))
  {
    hide Run, PushData, Data, Op, SigValid;
    var n := |m.stack|;
    RunPush(c, ctx, key, Op(OP_CHECKSIG, rest), m);
    var m1 := m.(stack := m.stack + [key]);
    RunOp(c, ctx, OP_CHECKSIG, rest, m1);
    if n >= 1 {
      assert m1.stack[..n - 1] == m.stack[..n - 1];
    }
  }

  /** Hashing the top item and comparing: only a preimage gets past. */
  lemma RunHashCheck(c: Crypto, ctx: ScriptContext, hash: Bytes, rest: Bytes, m: Machine)
    requires |hash| <= MAX_PUSH_BYTES && Roomy(m) && Executing(m.cond)
    ensures var n := |m.stack|;
      Run(c, ctx, Op(OP_SHA256, Data(hash, Op(OP_EQUALVERIFY, rest))), m) == (
        && n >= 1 && c.sha256(m.stack[n - 1]) == hash
        && Run(c, ctx, rest, m.(stack := m.stack[..n - 1], ops := m.ops + 2)))
  {
    hide Run, PushData, Data, Op;
    var n := |m.stack|;
    RunOp(c, ctx, OP_SHA256, Data(hash, Op(OP_EQUALVERIFY, rest)), m);
    if n >= 1 {
      var m1 := m.(stack := m.stack[..n - 1] + [c.sha256(m.stack[n - 1])], ops := m.ops + 1);
      RunPush(c, ctx, hash, Op(OP_EQUALVERIFY, rest), m1);
      var m2 := m1.(stack := m1.stack + [hash]);
      RunOp(c, ctx, OP_EQUALVERIFY, rest, m2);
      assert m2.stack[..n - 1] == m.stack[..n - 1];
    }
  }

  /** The claim branch, taken: a preimage of the hash on top, a signature below it. */
  lemma RunClaim(c: Crypto, ctx: ScriptContext, hash: Bytes, key: Bytes, rest: Bytes, m: Machine)
    requires |hash| <= MAX_PUSH_BYTES && |key| <= MAX_PUSH_BYTES && Roomy(m) && Executing(m.cond)
    ensures var n := |m.stack|;
      Run(c, ctx, HashlockSigScript(hash, key) + rest, m) == (
        && n >= 2 && c.sha256(m.stack[n - 1]) == hash
        && Run(c, ctx, rest, m.(stack := m.stack[..n - 2] + [BoolItem(SigValid(c, ctx.sighash, m.stack[n - 2], key))], ops := m.ops + 3)))
  {
    hide Run, PushData, Data, Op, SigValid, HashlockSigScript;
    var n := |m.stack|;
    var keyPart := Data(key, Op(OP_CHECKSIG, rest));
    ClaimLayout(hash, key, rest);
    RunHashCheck(c, ctx, hash, keyPart, m);
    if n >= 1 {
      RunKeySign(c, ctx, key, rest, m.(stack := m.stack[..n - 1], ops := m.ops + 2));
      if n >= 2 {
        assert m.stack[..n - 1][..n - 2] == m.stack[..n - 2];
      }
    }
  }

  lemma SkipClaim(c: Crypto, ctx: ScriptContext, hash: Bytes, key: Bytes, rest: Bytes, m: Machine)
    requires |hash| <= MAX_PUSH_BYTES && |key| <= MAX_PUSH_BYTES && Roomy(m) && !Executing(m.cond)
    ensures Run(c, ctx, HashlockSigScript(hash, key) + rest, m) == Run(c, ctx, rest, m)
  {
    ClaimLayout(hash, key, rest);
    hide Run, PushData, Data, Op, HashlockSigScript;
    var sign := Op(OP_CHECKSIG, rest);
    var check := Op(OP_EQUALVERIFY, Data(key, sign));
    RunOp(c, ctx, OP_SHA256, Data(hash, check), m);
    RunPush(c, ctx, hash, check, m);
    RunOp(c, ctx, OP_EQUALVERIFY, Data(key, sign), m);
    RunPush(c, ctx, key, sign, m);
    RunOp(c, ctx, OP_CHECKSIG, rest, m);
  }

  /** Five bytes of operand hold lock times below 2^39, on the clock the threshold chooses. */
  predicate Reached(ctx: ScriptContext, locktime: int) {
    && 0 <= locktime < 0x80_0000_0000
    && (if locktime < LOCKTIME_THRESHOLD then ctx.height else ctx.mtp) >= locktime
  }

  lemma CltvReached(ctx: ScriptContext, locktime: int, below: Stack, alt: Stack)
    ensures Cltv(ctx, below + [EncodeNum(locktime)], alt)
         == if Reached(ctx, locktime) then Ok(below + [EncodeNum(locktime)], alt) else Err
  {
    DecodeOfEncode(locktime, 5);
    assert Limit(5) == 0x80_0000_0000;
    hide DecodeNum, EncodeNum;
  }

  lemma RunCltv(c: Crypto, ctx: ScriptContext, locktime: int, rest: Bytes, m: Machine)
    requires Roomy(m) && Executing(m.cond)
    ensures var m1 := m.(stack := m.stack + [EncodeNum(locktime)]);
      Run(c, ctx, Op(OP_CLTV, rest), m1) == (Reached(ctx, locktime) && Run(c, ctx, rest, m1.(ops := m.ops + 1)))
  {
    CltvReached(ctx, locktime, m.stack, m.alt);
    hide Run, EncodeNum, Cltv, Reached;
    RunOp(c, ctx, OP_CLTV, rest, m.(stack := m.stack + [EncodeNum(locktime)]));
  }

  /** The refund branch, taken: the lock time reached, a signature on top. */
  lemma RunRefund(c: Crypto, ctx: ScriptContext, locktime: int, key: Bytes, rest: Bytes, m: Machine)
    requires -SAFE_INTEGER < locktime < SAFE_INTEGER && |key| <= MAX_PUSH_BYTES && Roomy(m) && Executing(m.cond)
    ensures var n := |m.stack|;
      Run(c, ctx, RefundScript(locktime, key) + rest, m) == (
        && Reached(ctx, locktime) && n >= 1
        && Run(c, ctx, rest, m.(stack := m.stack[..n - 1] + [BoolItem(SigValid(c, ctx.sighash, m.stack[n - 1], key))], ops := m.ops + 3)))
  {
    RefundLayout(locktime, key, rest);
    hide Run, PushData, Data, Op, SigValid, EncodeNum, Reached, RefundScript;
    var l := EncodeNum(locktime);
    var dropSign := Op(OP_DROP, Data(key, Op(OP_CHECKSIG, rest)));
    RunPush(c, ctx, l, Op(OP_CLTV, dropSign), m);
    RunCltv(c, ctx, locktime, dropSign, m);
    RunDropSign(c, ctx, l, key, rest, m.(ops := m.ops + 1));
  }

  lemma RunDropSign(c: Crypto, ctx: ScriptContext, top: Bytes, key: Bytes, rest: Bytes, m: Machine)
    requires |key| <= MAX_PUSH_BYTES && Executing(m.cond)
    requires |m.stack| <= MAX_WITNESS_ITEMS && |m.alt| == 0 && m.ops + 2 <= MAX_OPS
    ensures var n := |m.stack|;
      Run(c, ctx, Op(OP_DROP, Data(key, Op(OP_CHECKSIG, rest))), m.(stack := m.stack + [top])) == (
        && n >= 1
        && Run(c, ctx, rest, m.(stack := m.stack[..n - 1] + [BoolItem(SigValid(c, ctx.sighash, m.stack[n - 1], key))], ops := m.ops + 2)))
  {
    hide Run, PushData, Data, Op, SigValid;
    RunDrop(c, ctx, top, Data(key, Op(OP_CHECKSIG, rest)), m);
    RunKeySign(c, ctx, key, rest, m.(ops := m.ops + 1));
  }

  lemma RunDrop(c: Crypto, ctx: ScriptContext, top: Bytes, rest: Bytes, m: Machine)
    requires Executing(m.cond) && m.ops < MAX_OPS
    ensures Run(c, ctx, Op(OP_DROP, rest), m.(stack := m.stack + [top])) == Run(c, ctx, rest, m.(ops := m.ops + 1))
  {
    hide Run;
    var m1 := m.(stack := m.stack + [top]);
    RunOp(c, ctx, OP_DROP, rest, m1);
    assert m1.stack[..|m.stack|] == m.stack;
  }

  lemma SkipRefund(c: Crypto, ctx: ScriptContext, locktime: int, key: Bytes, rest: Bytes, m: Machine)
    requires -SAFE_INTEGER < locktime < SAFE_INTEGER && |key| <= MAX_PUSH_BYTES && Roomy(m) && !Executing(m.cond)
    ensures Run(c, ctx, RefundScript(locktime, key) + rest, m) == Run(c, ctx, rest, m)
  {
    RefundLayout(locktime, key, rest);
    hide Run, PushData, Data, Op, EncodeNum, RefundScript;
    var sign := Op(OP_CHECKSIG, rest);
    var drop := Op(OP_DROP, Data(key, sign));
    RunPush(c, ctx, EncodeNum(locktime), Op(OP_CLTV, drop), m);
    RunOp(c, ctx, OP_CLTV, drop, m);
    RunOp(c, ctx, OP_DROP, Data(key, sign), m);
    RunPush(c, ctx, key, sign, m);
    RunOp(c, ctx, OP_CHECKSIG, rest, m);
  }

  // ---- The theorems ----

  /** Top to bottom: a true item, a preimage of the hash, the recipient's signature. */
  predicate IsClaim(c: Crypto, ctx: ScriptContext, hash: Bytes, recipient: Bytes, w: seq<Bytes>) {
    var n := |w|;
    n >= 3 && Truthy(w[n - 1]) && c.sha256(w[n - 2]) == hash && SigValid(c, ctx.sighash, w[n - 3], recipient)
  }

  /** Top to bottom: a false item, the sender's signature; and the lock time reached. */
  predicate IsRefund(c: Crypto, ctx: ScriptContext, locktime: int, sender: Bytes, w: seq<Bytes>) {
    var n := |w|;
    n >= 2 && !Truthy(w[n - 1]) && Reached(ctx, locktime) && SigValid(c, ctx.sighash, w[n - 2], sender)
  }

  lemma AcceptsTopBool(stack: Stack, b: bool, ops: nat)
    ensures Accepts(Machine(stack + [BoolItem(b)], [], [], ops)) == b
  {
  }

  lemma HtlcSize(hash: Bytes, recipient: Bytes, locktime: int, sender: Bytes)
    requires |hash| <= MAX_PUSH_BYTES && |recipient| <= MAX_PUSH_BYTES && |sender| <= MAX_PUSH_BYTES
    requires -SAFE_INTEGER < locktime < SAFE_INTEGER
    ensures |HtlcScript(hash, recipient, locktime, sender)| <= MAX_SCRIPT_BYTES
  {
    SafeEncoding(locktime);
    hide EncodeNum;
  }

  lemma ClaimPath(c: Crypto, ctx: ScriptContext, hash: Bytes, recipient: Bytes, locktime: int, sender: Bytes, m: Machine)
    requires |hash| <= MAX_PUSH_BYTES && |recipient| <= MAX_PUSH_BYTES && |sender| <= MAX_PUSH_BYTES
    requires -SAFE_INTEGER < locktime < SAFE_INTEGER
    requires |m.stack| < MAX_WITNESS_ITEMS && m == Machine(m.stack, [], [true], 0)
    ensures var n := |m.stack|;
      Run(c, ctx, HashlockSigScript(hash, recipient) + Op(OP_ELSE, RefundScript(locktime, sender) + [OP_ENDIF]), m)
      == (n >= 2 && c.sha256(m.stack[n - 1]) == hash && SigValid(c, ctx.sighash, m.stack[n - 2], recipient))
  {
    hide Run, SigValid, Accepts, HashlockSigScript, RefundScript;
    var n := |m.stack|;
    var afterElse := RefundScript(locktime, sender) + [OP_ENDIF];
    RunClaim(c, ctx, hash, recipient, Op(OP_ELSE, afterElse), m);
    if n >= 2 {
      var valid := SigValid(c, ctx.sighash, m.stack[n - 2], recipient);
      var m2 := m.(stack := m.stack[..n - 2] + [BoolItem(valid)], ops := 3);
      RunElse(c, ctx, afterElse, m2);
      var m3 := m2.(cond := [false]);
      assert !m3.cond[0];
      SkipRefund(c, ctx, locktime, sender, [OP_ENDIF], m3);
      RunEndIf(c, ctx, m3);
      AcceptsTopBool(m.stack[..n - 2], valid, 3);
    }
  }

  lemma RefundPath(c: Crypto, ctx: ScriptContext, hash: Bytes, recipient: Bytes, locktime: int, sender: Bytes, m: Machine)
    requires |hash| <= MAX_PUSH_BYTES && |recipient| <= MAX_PUSH_BYTES && |sender| <= MAX_PUSH_BYTES
    requires -SAFE_INTEGER < locktime < SAFE_INTEGER
    requires |m.stack| < MAX_WITNESS_ITEMS && m == Machine(m.stack, [], [false], 0)
    ensures var n := |m.stack|;
      Run(c, ctx, HashlockSigScript(hash, recipient) + Op(OP_ELSE, RefundScript(locktime, sender) + [OP_ENDIF]), m)
      == (Reached(ctx, locktime) && n >= 1 && SigValid(c, ctx.sighash, m.stack[n - 1], sender))
  {
    hide Run, SigValid, Accepts, HashlockSigScript, RefundScript, Reached;
    var n := |m.stack|;
    var afterElse := RefundScript(locktime, sender) + [OP_ENDIF];
    assert !m.cond[0];
    SkipClaim(c, ctx, hash, recipient, Op(OP_ELSE, afterElse), m);
    RunElse(c, ctx, afterElse, m);
    var m2 := m.(cond := [true]);
    RunRefund(c, ctx, locktime, sender, [OP_ENDIF], m2);
    if n >= 1 {
      var valid := SigValid(c, ctx.sighash, m.stack[n - 1], sender);
      var m3 := m2.(stack := m.stack[..n - 1] + [BoolItem(valid)], ops := 3);
      RunEndIf(c, ctx, m3);
      AcceptsTopBool(m.stack[..n - 1], valid, 3);
    }
  }

  lemma HtlcRuns(c: Crypto, ctx: ScriptContext, hash: Bytes, recipient: Bytes, locktime: int, sender: Bytes, w: seq<Bytes>)
    requires |hash| <= MAX_PUSH_BYTES && |recipient| <= MAX_PUSH_BYTES && |sender| <= MAX_PUSH_BYTES
    requires -SAFE_INTEGER < locktime < SAFE_INTEGER && |w| <= MAX_WITNESS_ITEMS
    ensures Run(c, ctx, HtlcScript(hash, recipient, locktime, sender), Machine(w, [], [], 0))
        == (IsClaim(c, ctx, hash, recipient, w) || IsRefund(c, ctx, locktime, sender, w))
  {
    hide Run, Truthy, SigValid, Reached, Accepts, HashlockSigScript, RefundScript;
    var n := |w|;
    var branches := HashlockSigScript(hash, recipient) + Op(OP_ELSE, RefundScript(locktime, sender) + [OP_ENDIF]);
    assert HtlcScript(hash, recipient, locktime, sender) == Op(OP_IF, branches);
    hide HtlcScript;
    RunIf(c, ctx, branches, Machine(w, [], [], 0));
    if n >= 1 {
      var m := Machine(w[..n - 1], [], [Truthy(w[n - 1])], 0);
      if Truthy(w[n - 1]) {
        ClaimPath(c, ctx, hash, recipient, locktime, sender, m);
      } else {
        RefundPath(c, ctx, hash, recipient, locktime, sender, m);
      }
    }
  }

  /** For every witness: the swap pays out on a claim or a refund, and on nothing else. */
  lemma HtlcSpendableIff(c: Crypto, ctx: ScriptContext, hash: Bytes, recipient: Bytes, locktime: int, sender: Bytes, w: seq<Bytes>)
    requires |hash| <= MAX_PUSH_BYTES && |recipient| <= MAX_PUSH_BYTES && |sender| <= MAX_PUSH_BYTES
    requires -SAFE_INTEGER < locktime < SAFE_INTEGER
    ensures Eval(c, ctx, HtlcScript(hash, recipient, locktime, sender), w) <==>
      && WithinLimits([], w)
      && (IsClaim(c, ctx, hash, recipient, w) || IsRefund(c, ctx, locktime, sender, w))
  {
    HtlcSize(hash, recipient, locktime, sender);
    hide Run, IsClaim, IsRefund, HtlcScript;
    if |w| <= MAX_WITNESS_ITEMS {
      HtlcRuns(c, ctx, hash, recipient, locktime, sender, w);
    }
  }
}
