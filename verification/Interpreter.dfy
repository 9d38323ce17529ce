/** `evalScript` and `opCheckMultisig` as loops over mutable stacks, proved equal to their specifications. */
module Interpreter {
  import opened Genesis
  import opened ScriptNum
  import opened Script

  /** The nesting test scans the whole condition stack. */
  method IsExecuting(cond: seq<bool>) returns (b: bool)
    ensures b == Executing(cond)
  {
    for i := 0 to |cond|
      invariant forall k :: 0 <= k < i ==> cond[k]
    {
      if !cond[i] {
        return false;
      }
    }
    b := true;
  }

  /** Pop `count` items; they come out in stack order. */
  method PopItems(stack0: Stack, count: nat) returns (items: seq<Bytes>, stack: Stack)
    requires count <= |stack0|
    ensures stack == stack0[..|stack0| - count] && items == stack0[|stack0| - count..]
  {
    items, stack := [], stack0;
    for i := 0 to count
      invariant stack == stack0[..|stack0| - i] && items == stack0[|stack0| - i..]
    {
      items := [stack[|stack| - 1]] + items;
      stack := stack[..|stack| - 1];
    }
  }

  /** Pop counts, keys and signatures, then match signatures to keys left to right. */
  method OpCheckMultisig(c: Crypto, msg: Bytes, stack0: Stack) returns (ok: bool, stack: Stack)
    ensures var r := Multisig(c, msg, stack0, []);
      ok == r.Ok? && (ok ==> stack == r.stack)
  {
    hide DecodeNum, Greedy;
    stack := stack0;
    if |stack| < 1 {
      return false, stack;
    }
    var n := DecodeNumber(stack[|stack| - 1], 4);
    stack := stack[..|stack| - 1];
    if n.None? || n.value < 1 || n.value > MAX_MULTISIG_KEYS || |stack| < n.value + 1 {
      return false, stack;
    }
    var keys, below := PopItems(stack, n.value);
    ghost var keysAt := |stack0| - 1 - n.value;
    assert keys == stack0[keysAt..|stack0| - 1];
    assert below == stack0[..keysAt];
    var m := DecodeNumber(below[|below| - 1], 4);
    stack := below[..|below| - 1];
    if m.None? || m.value < 1 || m.value > n.value || |stack| < m.value {
      return false, stack;
    }
    var sigs;
    sigs, stack := PopItems(stack, m.value);
    ghost var sigsAt := keysAt - 1 - m.value;
    assert sigs == stack0[sigsAt..keysAt - 1];
    assert stack == stack0[..sigsAt];
    var all := MatchInOrder(c, msg, sigs, keys);
    ok, stack := true, stack + [BoolItem(all)];
  }

  /** The two nested loops of the scan. */
  method MatchInOrder(c: Crypto, msg: Bytes, sigs: seq<Bytes>, keys: seq<Bytes>) returns (all: bool)
    ensures all == Greedy(c, msg, sigs, keys)
  {
    var keyIdx := 0;
    for i := 0 to |sigs|
      invariant 0 <= keyIdx <= |keys|
      invariant Greedy(c, msg, sigs, keys) == Greedy(c, msg, sigs[i..], keys[keyIdx..])
    {
      var matched := false;
      while keyIdx < |keys|
        invariant 0 <= keyIdx <= |keys|
        invariant !matched
        invariant Greedy(c, msg, sigs, keys) == Greedy(c, msg, sigs[i..], keys[keyIdx..])
      {
        var key := keys[keyIdx];
        assert keys[keyIdx..][1..] == keys[keyIdx + 1..];
        assert sigs[i..][1..] == sigs[i + 1..];
        keyIdx := keyIdx + 1;
        if SigValid(c, msg, sigs[i], key) {
          matched := true;
          break;
        }
      }
      if !matched {
        return false;
      }
    }
    all := true;
  }

  lemma MultisigIgnoresAlt(c: Crypto, msg: Bytes, stack: Stack, alt: Stack)
    ensures var r, r' := Multisig(c, msg, stack, alt), Multisig(c, msg, stack, []);
      r.Ok? == r'.Ok? && (r.Ok? ==> r.stack == r'.stack && r.alt == alt)
  {
    hide DecodeNum, Greedy;
  }

  /** One opcode's effect on the two stacks. */
  method RunOpcode(c: Crypto, ctx: ScriptContext, op: Byte, stack: Stack, alt: Stack) returns (ok: bool, stack': Stack, alt': Stack)
    ensures var r := Exec(c, ctx, op, stack, alt);
      ok == r.Ok? && (ok ==> stack' == r.stack && alt' == r.alt)
  {
    hide StackOp, NumOp, HashOp, Cltv, Multisig;
    if op == 0xae {
      MultisigIgnoresAlt(c, ctx.sighash, stack, alt);
      ok, stack' := OpCheckMultisig(c, ctx.sighash, stack);
      alt' := alt;
    } else {
      var r := Exec(c, ctx, op, stack, alt);
      if r.Err? {
        return false, stack, alt;
      }
      ok, stack', alt' := true, r.stack, r.alt;
    }
  }

  /** The item limit, checked while the stack is seeded. */
  method WitnessFits(witnessItems: seq<Bytes>) returns (ok: bool)
    ensures ok <==> forall k :: 0 <= k < |witnessItems| ==> |witnessItems[k]| <= MAX_PUSH_BYTES
  {
    for i := 0 to |witnessItems|
      invariant forall k :: 0 <= k < i ==> |witnessItems[k]| <= MAX_PUSH_BYTES
    {
      if |witnessItems[i]| > MAX_PUSH_BYTES {
        return false;
      }
    }
    ok := true;
  }

  /** The interpreter: a program counter, two stacks, a condition stack and an opcode budget. */
  method EvalScript(c: Crypto, ctx: ScriptContext, script: Bytes, witnessItems: seq<Bytes>) returns (ok: bool)
    ensures ok == Eval(c, ctx, script, witnessItems)
  {
    hide Exec, Push, Truthy;
    if |script| > MAX_SCRIPT_BYTES || |witnessItems| > MAX_WITNESS_ITEMS {
      return false;
    }
    var small := WitnessFits(witnessItems);
    if !small {
      return false;
    }
    var stack: Stack, alt: Stack, cond: seq<bool>, opCount := witnessItems, [], [], 0;
    var pc := 0;
    ghost var expected := Run(c, ctx, script, Machine(witnessItems, [], [], 0));
    assert script[0..] == script;
    while pc < |script|
      invariant 0 <= pc <= |script|
      invariant Run(c, ctx, script[pc..], Machine(stack, alt, cond, opCount)) == expected
      decreases |script| - pc
    {
      ghost var rest, before := script[pc..], Machine(stack, alt, cond, opCount);
      var op := script[pc];
      assert rest[0] == op && rest[1..] == script[pc + 1..];
      pc := pc + 1;
      var exec := IsExecuting(cond);
      if IsPush(op) {
        var ok', pc', stack' := PushOpcode(op, script, pc, exec, stack, alt, before);
        if !ok' {
          return false;
        }
        pc, stack := pc', stack';
      } else if op == OP_IF {
        var v := false;
        if exec {
          if |stack| < 1 {
            return false;
          }
          v := IsTruthy(stack[|stack| - 1]);
          stack := stack[..|stack| - 1];
        }
        cond := cond + [v];
      } else if op == OP_ELSE {
        if |cond| == 0 {
          return false;
        }
        cond := cond[..|cond| - 1] + [!cond[|cond| - 1]];
      } else if op == OP_ENDIF {
        if |cond| == 0 {
          return false;
        }
        cond := cond[..|cond| - 1];
      } else if exec {
        opCount := opCount + 1;
        if opCount > MAX_OPS {
          return false;
        }
        if !IsReservedNop(op) {
          var ok', stack', alt' := RunOpcode(c, ctx, op, stack, alt);
          if !ok' {
            return false;
          }
          stack, alt := stack', alt';
        }
      }
      assert Step(c, ctx, rest, before) == Next(script[pc..], Machine(stack, alt, cond, opCount));
    }
    assert script[pc..] == [];
    if |cond| != 0 || |stack| == 0 {
      return false;
    }
    ok := IsTruthy(stack[|stack| - 1]);
  }

  /** Read a push at `pc`, which points just past its opcode. */
  method PushOpcode(op: Byte, script: Bytes, pc: nat, exec: bool, stack: Stack, alt: Stack, ghost m: Machine)
    returns (ok: bool, pc': nat, stack': Stack)
    requires IsPush(op) && pc <= |script|
    requires m.stack == stack && m.alt == alt && exec == Executing(m.cond)
    ensures var r := PushStep(op, script[pc..], m);
      ok == r.Next? && (ok ==> pc <= pc' <= |script| && r == Next(script[pc'..], m.(stack := stack')))
  {
    hide Push, Executing, PushLength;
    pc', stack' := pc, stack;
    var known, len, at := PushHeaderAt(op, script, pc);
    if !known || len > MAX_PUSH_BYTES || pc + at + len > |script| {
      return false, pc, stack;
    }
    var data := script[pc + at..pc + at + len];
    assert script[pc..][at..at + len] == data;
    assert script[pc..][at + len..] == script[pc + at + len..];
    pc' := pc + at + len;
    if exec {
      var p := Push(stack, alt, data);
      if p.Err? {
        return false, pc, stack;
      }
      stack' := p.stack;
      PushKeepsAlt(stack, alt, data);
    }
    ok := true;
  }

  /** The length bytes after a push opcode, if they are there. */
  method PushHeaderAt(op: Byte, script: Bytes, pc: nat) returns (known: bool, len: nat, at: nat)
    requires IsPush(op) && pc <= |script|
    ensures PushLength(op, script[pc..]) == if known then Some((len, at)) else None
  {
    known, len, at := true, op, 0;
    if op == OP_PUSHDATA1 {
      if pc >= |script| {
        return false, 0, 0;
      }
      len, at := script[pc], 1;
    } else if op == OP_PUSHDATA2 {
      if pc + 1 >= |script| {
        return false, 0, 0;
      }
      var low: int, high: int := script[pc], script[pc + 1];
      len, at := low + 256 * high, 2;
    }
  }

  lemma PushKeepsAlt(stack: Stack, alt: Stack, item: Bytes)
    ensures Push(stack, alt, item).Ok? ==> Push(stack, alt, item).alt == alt
  {
  }
}
