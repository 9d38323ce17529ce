/** Laws of every script: later clocks keep success, resources stay bounded, multisig is order-exact. */
module ScriptLaws {
  import opened Genesis
  import opened ScriptNum
  import opened Script

  // ---- Later clocks ----

  ghost predicate NotLater(a: ScriptContext, b: ScriptContext) {
    a.sighash == b.sighash && a.height <= b.height && a.mtp <= b.mtp
  }

  /** An opcode that ran on the earlier clock does exactly the same on the later one. */
  lemma ExecLockstep(c: Crypto, a: ScriptContext, b: ScriptContext, op: Byte, stack: Stack, alt: Stack)
    requires NotLater(a, b)
    requires Exec(c, a, op, stack, alt).Ok?
    ensures Exec(c, b, op, stack, alt) == Exec(c, a, op, stack, alt)
  {
    hide StackOp, NumOp, HashOp, Multisig, DecodeNum;
  }

  lemma StepLockstep(c: Crypto, a: ScriptContext, b: ScriptContext, rest: Bytes, m: Machine)
    requires NotLater(a, b) && rest != []
    requires Step(c, a, rest, m).Next?
    ensures Step(c, b, rest, m) == Step(c, a, rest, m)
  {
    if Exec(c, a, rest[0], m.stack, m.alt).Ok? {
      ExecLockstep(c, a, b, rest[0], m.stack, m.alt);
    }
    hide Exec, PushStep;
  }

  lemma {:induction false} RunLockstep(c: Crypto, a: ScriptContext, b: ScriptContext, rest: Bytes, m: Machine)
    requires NotLater(a, b)
    requires Run(c, a, rest, m)
    ensures Run(c, b, rest, m)
    decreases |rest|
  {
    hide Step;
    if rest != [] {
      StepLockstep(c, a, b, rest, m);
      var r := Step(c, a, rest, m);
      RunLockstep(c, a, b, r.rest, r.m);
    }
  }

  /** A spend valid in one block stays valid, same signature hash, in every later one. */
  lemma SpendStaysValid(c: Crypto, a: ScriptContext, b: ScriptContext, script: Bytes, witnessItems: seq<Bytes>)
    requires NotLater(a, b)
    requires Eval(c, a, script, witnessItems)
    ensures Eval(c, b, script, witnessItems)
  {
    hide Run;
    RunLockstep(c, a, b, script, Machine(witnessItems, [], [], 0));
  }

  // ---- Bounded resources ----

  ghost predicate SmallItems(s: Stack) {
    forall i :: 0 <= i < |s| ==> |s[i]| <= MAX_PUSH_BYTES
  }

  /** Both stacks together, every item on them, and the opcode budget stay within the limits. */
  ghost predicate Bounded(m: Machine) {
    && |m.stack| + |m.alt| <= MAX_STACK_SIZE
    && SmallItems(m.stack) && SmallItems(m.alt)
    && m.ops <= MAX_OPS
  }

  ghost predicate SmallDigests(c: Crypto) {
    forall b :: |c.sha256(b)| <= MAX_PUSH_BYTES && |c.ripemd160(b)| <= MAX_PUSH_BYTES
  }

  ghost predicate BoundedResult(r: StackResult) {
    r.Ok? ==> |r.stack| + |r.alt| <= MAX_STACK_SIZE && SmallItems(r.stack) && SmallItems(r.alt)
  }

  lemma StackOp2Bounded(op: Byte, stack: Stack, alt: Stack)
    requires |stack| + |alt| <= MAX_STACK_SIZE && SmallItems(stack) && SmallItems(alt)
    ensures BoundedResult(StackOp2(op, stack, alt))
  {
    hide DecodeNum;
    if stack != [] {
      SmallNumber(|stack[|stack| - 1]|);
    }
    hide EncodeNum;
  }

  lemma StackOpBounded(op: Byte, stack: Stack, alt: Stack)
    requires |stack| + |alt| <= MAX_STACK_SIZE && SmallItems(stack) && SmallItems(alt)
    ensures BoundedResult(StackOp(op, stack, alt))
  {
    StackOp2Bounded(op, stack, alt);
    hide StackOp2, Truthy;
    SmallNumber(|stack|);
    SmallNumber(op - 0x50);
    hide EncodeNum;
  }

  lemma SmallNumber(n: int)
    requires -0x1_0000_0000 < n < 0x1_0000_0000
    ensures |EncodeNum(n)| <= 5
  {
    if n != 0 {
      var a := if n < 0 then -n else n;
      assert Limit(5) == 0x80_0000_0000;
      EncodedMagnitude(a, n < 0, 5);
    }
  }

  lemma DecodedSmall(item: Bytes)
    requires DecodeNum(item, MAX_NUM_BYTES).Some?
    ensures -0x8000_0000 < DecodeNum(item, MAX_NUM_BYTES).value < 0x8000_0000
  {
    var v := DecodeNum(item, MAX_NUM_BYTES).value;
    EncodeOfDecode(item, MAX_NUM_BYTES);
    DecodeOfEncode(v, MAX_NUM_BYTES);
    assert Limit(4) == 0x8000_0000;
  }

  lemma NumOpBounded(op: Byte, stack: Stack, alt: Stack)
    requires |stack| + |alt| <= MAX_STACK_SIZE && SmallItems(stack) && SmallItems(alt)
    ensures BoundedResult(NumOp(op, stack, alt))
  {
    var n := |stack|;
    if NumOp(op, stack, alt).Ok? {
      if IsUnary(op) {
        DecodedSmall(stack[n - 1]);
        SmallNumber(UnaryOp(op, DecodeNum(stack[n - 1], MAX_NUM_BYTES).value));
        hide UnaryOp;
      } else if IsBinary(op) {
        DecodedSmall(stack[n - 1]);
        DecodedSmall(stack[n - 2]);
        SmallNumber(BinaryOp(op, DecodeNum(stack[n - 2], MAX_NUM_BYTES).value, DecodeNum(stack[n - 1], MAX_NUM_BYTES).value));
        hide BinaryOp;
      }
    }
    hide DecodeNum, EncodeNum;
  }

  lemma HashOpBounded(c: Crypto, op: Byte, stack: Stack, alt: Stack)
    requires SmallDigests(c)
    requires |stack| + |alt| <= MAX_STACK_SIZE && SmallItems(stack) && SmallItems(alt)
    ensures BoundedResult(HashOp(c, op, stack, alt))
  {
  }

  lemma MultisigBounded(c: Crypto, msg: Bytes, stack: Stack, alt: Stack)
    requires |stack| + |alt| <= MAX_STACK_SIZE && SmallItems(stack) && SmallItems(alt)
    ensures BoundedResult(Multisig(c, msg, stack, alt))
  {
    hide DecodeNum, Greedy;
  }

  lemma SigOpBounded(c: Crypto, ctx: ScriptContext, op: Byte, stack: Stack, alt: Stack)
    requires |stack| + |alt| <= MAX_STACK_SIZE && SmallItems(stack) && SmallItems(alt)
    ensures BoundedResult(SigOp(c, ctx, op, stack, alt))
  {
    MultisigBounded(c, ctx.sighash, stack, alt);
    hide Multisig;
  }

  lemma ExecBounded(c: Crypto, ctx: ScriptContext, op: Byte, stack: Stack, alt: Stack)
    requires SmallDigests(c)
    requires |stack| + |alt| <= MAX_STACK_SIZE && SmallItems(stack) && SmallItems(alt)
    ensures BoundedResult(Exec(c, ctx, op, stack, alt))
  {
    StackOpBounded(op, stack, alt);
    NumOpBounded(op, stack, alt);
    HashOpBounded(c, op, stack, alt);
    SigOpBounded(c, ctx, op, stack, alt);
    hide StackOp, NumOp, HashOp, SigOp, DecodeNum, SmallDigests;
  }

  lemma StepBounded(c: Crypto, ctx: ScriptContext, rest: Bytes, m: Machine)
    requires SmallDigests(c) && Bounded(m) && rest != []
    ensures var r := Step(c, ctx, rest, m); r.Next? ==> Bounded(r.m)
  {
    ExecBounded(c, ctx, rest[0], m.stack, m.alt);
    hide Exec, Truthy;
  }

  /** Every machine state an evaluation passes through, including one it then aborts in. */
  ghost function Trace(c: Crypto, ctx: ScriptContext, rest: Bytes, m: Machine): seq<Machine>
    decreases |rest|
  {
    if rest == [] then [m]
    else
      var r := Step(c, ctx, rest, m);
      if r.Fail? then [m] else [m] + Trace(c, ctx, r.rest, r.m)
  }

  lemma {:induction false} TraceBounded(c: Crypto, ctx: ScriptContext, rest: Bytes, m: Machine)
    requires SmallDigests(c) && Bounded(m)
    ensures forall i :: 0 <= i < |Trace(c, ctx, rest, m)| ==> Bounded(Trace(c, ctx, rest, m)[i])
    ensures |Trace(c, ctx, rest, m)| <= |rest| + 1
    decreases |rest|
  {
    hide Step, Bounded;
    if rest != [] {
      StepBounded(c, ctx, rest, m);
      var r := Step(c, ctx, rest, m);
      if r.Next? {
        TraceBounded(c, ctx, r.rest, r.m);
      }
    }
  }

  /** Whatever the script and witness: at most one step a byte, and no limit is ever exceeded on the way. */
  lemma EvaluationStaysBounded(c: Crypto, ctx: ScriptContext, script: Bytes, witnessItems: seq<Bytes>)
    requires SmallDigests(c) && WithinLimits(script, witnessItems)
    ensures var t := Trace(c, ctx, script, Machine(witnessItems, [], [], 0));
      |t| <= |script| + 1 && forall i :: 0 <= i < |t| ==> Bounded(t[i])
  {
    TraceBounded(c, ctx, script, Machine(witnessItems, [], [], 0));
  }

  // ---- Multisig ----

  /** A choice of a key for every signature: strictly increasing, and each signature verifies. */
  ghost predicate Assigns(c: Crypto, msg: Bytes, sigs: seq<Bytes>, keys: seq<Bytes>, f: seq<nat>) {
    && |f| == |sigs|
    && (forall i :: 0 <= i < |f| ==> f[i] < |keys| && SigValid(c, msg, sigs[i], keys[f[i]]))
    && forall i, j :: 0 <= i < j < |f| ==> f[i] < f[j]
  }

  function Later(g: seq<nat>): (f: seq<nat>)
    ensures |f| == |g| && forall i :: 0 <= i < |g| ==> f[i] == g[i] + 1
  {
    seq(|g|, i requires 0 <= i < |g| => g[i] + 1)
  }

  /** An assignment into the keys after the first is one into all of them. */
  lemma AssignsLater(c: Crypto, msg: Bytes, sigs: seq<Bytes>, keys: seq<Bytes>, g: seq<nat>)
    requires keys != [] && Assigns(c, msg, sigs, keys[1..], g)
    ensures Assigns(c, msg, sigs, keys, Later(g))
  {
    hide SigValid;
    forall i | 0 <= i < |g|
      ensures Later(g)[i] < |keys| && SigValid(c, msg, sigs[i], keys[Later(g)[i]])
    {
      assert keys[1..][g[i]] == keys[g[i] + 1];
    }
  }

  lemma AssignsFirst(c: Crypto, msg: Bytes, sigs: seq<Bytes>, keys: seq<Bytes>, g: seq<nat>)
    requires sigs != [] && keys != [] && SigValid(c, msg, sigs[0], keys[0]) && Assigns(c, msg, sigs[1..], keys[1..], g)
    ensures Assigns(c, msg, sigs, keys, [0] + Later(g))
  {
    hide SigValid;
    var f := [0] + Later(g);
    forall i | 0 <= i < |f|
      ensures f[i] < |keys| && SigValid(c, msg, sigs[i], keys[f[i]])
    {
      if i > 0 {
        assert sigs[1..][i - 1] == sigs[i] && keys[1..][g[i - 1]] == keys[f[i]];
      }
    }
  }

  ghost predicate Assignable(c: Crypto, msg: Bytes, sigs: seq<Bytes>, keys: seq<Bytes>) {
    exists f :: Assigns(c, msg, sigs, keys, f)
  }

  lemma {:induction false} GreedyFinds(c: Crypto, msg: Bytes, sigs: seq<Bytes>, keys: seq<Bytes>) returns (f: seq<nat>)
    requires Greedy(c, msg, sigs, keys)
    ensures Assigns(c, msg, sigs, keys, f)
    decreases |keys|
  {
    if sigs == [] {
      f := [];
    } else {
      hide SigValid, Assigns;
      if SigValid(c, msg, sigs[0], keys[0]) {
        var g := GreedyFinds(c, msg, sigs[1..], keys[1..]);
        AssignsFirst(c, msg, sigs, keys, g);
        f := [0] + Later(g);
      } else {
        var g := GreedyFinds(c, msg, sigs, keys[1..]);
        AssignsLater(c, msg, sigs, keys, g);
        f := Later(g);
      }
    }
  }

  /** Taking the first key that fits never costs a match. */
  lemma {:induction false} GreedyComplete(c: Crypto, msg: Bytes, sigs: seq<Bytes>, keys: seq<Bytes>, f: seq<nat>)
    requires Assigns(c, msg, sigs, keys, f)
    ensures Greedy(c, msg, sigs, keys)
    decreases |keys|
  {
    hide SigValid;
    if sigs != [] {
      if SigValid(c, msg, sigs[0], keys[0]) {
        var g := seq(|f| - 1, i requires 0 <= i < |f| - 1 => f[i + 1] - 1);
        GreedyComplete(c, msg, sigs[1..], keys[1..], g);
      } else {
        var g := seq(|f|, i requires 0 <= i < |f| => f[i] - 1);
        GreedyComplete(c, msg, sigs, keys[1..], g);
      }
    }
  }

  /**
   * Once the counts check out, OP_CHECKMULTISIG consumes exactly n + m + 2 items and pushes true
   * exactly when the signatures can be assigned to distinct keys in key order.
   */
  lemma MultisigExact(c: Crypto, msg: Bytes, stack: Stack, alt: Stack)
    requires Multisig(c, msg, stack, alt).Ok?
    ensures var size := |stack|;
      var n := DecodeNum(stack[size - 1], 4).value;
      var m := DecodeNum(stack[size - 2 - n], 4).value;
      var base := size - n - m - 2;
      && 1 <= m <= n <= MAX_MULTISIG_KEYS && base >= 0
      && var sigs, keys := stack[base..base + m], stack[base + m + 1..size - 1];
      && Multisig(c, msg, stack, alt) == Ok(stack[..base] + [BoolItem(Assignable(c, msg, sigs, keys))], alt)
  {
    hide DecodeNum, Greedy, Assignable;
    var size := |stack|;
    var n := DecodeNum(stack[size - 1], 4).value;
    var m := DecodeNum(stack[size - 2 - n], 4).value;
    var base := size - n - m - 2;
    GreedyIsAssignable(c, msg, stack[base..base + m], stack[base + m + 1..size - 1]);
  }

  lemma GreedyIsAssignable(c: Crypto, msg: Bytes, sigs: seq<Bytes>, keys: seq<Bytes>)
    ensures Greedy(c, msg, sigs, keys) <==> Assignable(c, msg, sigs, keys)
  {
    hide Greedy, Assigns;
    if Greedy(c, msg, sigs, keys) {
      var f := GreedyFinds(c, msg, sigs, keys);
    }
    if f :| Assigns(c, msg, sigs, keys, f) {
      GreedyComplete(c, msg, sigs, keys, f);
    }
  }
}
