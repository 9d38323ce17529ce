/** What each opcode does to a running script: items by position, numbers by value (src/chain/script.ts). */
module Opcodes {
  import opened Genesis
  import opened ScriptNum
  import opened Script
  import opened Htlc
  import opened ScriptLaws

  /** The opcode turns the two stacks into these and the script goes on, whatever follows. */
  ghost predicate Leads(c: Crypto, ctx: ScriptContext, op: Byte, stack: Stack, alt: Stack, stack': Stack, alt': Stack) {
    forall rest: Bytes, cond: seq<bool>, ops: nat :: Executing(cond) && ops < 201 ==>
      Run(c, ctx, Op(op, rest), Machine(stack, alt, cond, ops)) == Run(c, ctx, rest, Machine(stack', alt', cond, ops + 1))
  }

  /** The opcode fails the script. */
  ghost predicate Aborts(c: Crypto, ctx: ScriptContext, op: Byte, stack: Stack, alt: Stack) {
    forall rest: Bytes, cond: seq<bool>, ops: nat :: Executing(cond) && ops < 201 ==> !Run(c, ctx, Op(op, rest), Machine(stack, alt, cond, ops))
  }

  lemma ExecDecides(c: Crypto, ctx: ScriptContext, op: Byte, stack: Stack, alt: Stack)
    requires Ordinary(op)
    ensures var r := Exec(c, ctx, op, stack, alt);
      if r.Ok? then Leads(c, ctx, op, stack, alt, r.stack, r.alt) else Aborts(c, ctx, op, stack, alt)
  {
    hide Exec, Run, Executing;
    forall rest: Bytes, cond: seq<bool>, ops: nat | Executing(cond) && ops < 201
      ensures var r := Exec(c, ctx, op, stack, alt);
        Run(c, ctx, Op(op, rest), Machine(stack, alt, cond, ops))
        == (r.Ok? && Run(c, ctx, rest, Machine(r.stack, r.alt, cond, ops + 1)))
    {
      RunOp(c, ctx, op, rest, Machine(stack, alt, cond, ops));
    }
  }

  // ---- Stack opcodes ----

  /** Dropping and reordering, for every stack below the items. */
  lemma StackMoves(c: Crypto, ctx: ScriptContext, s: Stack, alt: Stack, x: Bytes, y: Bytes, z: Bytes)
    ensures Leads(c, ctx, 0x75, s + [x], alt, s, alt) // OP_DROP
    ensures Leads(c, ctx, 0x77, s + [x, y], alt, s + [y], alt) // OP_NIP
    ensures Leads(c, ctx, 0x7b, s + [x, y, z], alt, s + [y, z, x], alt) // OP_ROT
    ensures Leads(c, ctx, 0x7c, s + [x, y], alt, s + [y, x], alt) // OP_SWAP
    ensures Leads(c, ctx, 0x6b, s + [x], alt, s, alt + [x]) // OP_TOALTSTACK
    ensures Leads(c, ctx, 0x6c, s, alt + [x], s + [x], alt) // OP_FROMALTSTACK
  {
    hide Leads, Aborts;
    ExecDecides(c, ctx, 0x75, s + [x], alt);
    ExecDecides(c, ctx, 0x77, s + [x, y], alt);
    ExecDecides(c, ctx, 0x7b, s + [x, y, z], alt);
    ExecDecides(c, ctx, 0x7c, s + [x, y], alt);
    ExecDecides(c, ctx, 0x6b, s + [x], alt);
    ExecDecides(c, ctx, 0x6c, s, alt + [x]);
    Below(s, x, y, z);
    Below(alt, x, y, z);
  }

  lemma Below(s: Stack, x: Bytes, y: Bytes, z: Bytes)
    ensures (s + [x])[..|s|] == s && (s + [x, y])[..|s|] == s && (s + [x, y, z])[..|s|] == s
  {
  }

  /** Leads there if the two stacks then hold at most 1000 items, and fails otherwise. */
  ghost predicate Adds(c: Crypto, ctx: ScriptContext, op: Byte, stack: Stack, alt: Stack, stack': Stack) {
    if |stack'| + |alt| <= 1000 then Leads(c, ctx, op, stack, alt, stack', alt) else Aborts(c, ctx, op, stack, alt)
  }

  /** Copying, and pushing what is known about the stack. */
  lemma StackCopies(c: Crypto, ctx: ScriptContext, s: Stack, alt: Stack, x: Bytes, y: Bytes)
    ensures Adds(c, ctx, 0x76, s + [x], alt, s + [x, x]) // OP_DUP
    ensures Adds(c, ctx, 0x78, s + [x, y], alt, s + [x, y, x]) // OP_OVER
    ensures Adds(c, ctx, 0x7d, s + [x, y], alt, s + [y, x, y]) // OP_TUCK
    ensures Adds(c, ctx, 0x6e, s + [x, y], alt, s + [x, y, x, y]) // OP_2DUP
    ensures if Truthy(x) then Adds(c, ctx, 0x73, s + [x], alt, s + [x, x]) else Leads(c, ctx, 0x73, s + [x], alt, s + [x], alt) // OP_IFDUP
    ensures Adds(c, ctx, 0x74, s, alt, s + [EncodeNum(|s|)]) // OP_DEPTH
    ensures Adds(c, ctx, 0x82, s + [x], alt, s + [x, EncodeNum(|x|)]) // OP_SIZE
  {
    hide Adds, Leads, Truthy, Copied, EncodeNum;
    CopiedOne(s, x);
    CopiedTwo(s, x, y);
    IfDup(c, ctx, s, alt, x);
    Copies(c, ctx, 0x76, s + [x], alt);
    Copies(c, ctx, 0x78, s + [x, y], alt);
    Copies(c, ctx, 0x7d, s + [x, y], alt);
    Copies(c, ctx, 0x6e, s + [x, y], alt);
    Copies(c, ctx, 0x74, s, alt);
    Copies(c, ctx, 0x82, s + [x], alt);
  }

  lemma CopiedOne(s: Stack, x: Bytes)
    ensures Copied(0x76, s + [x]) == s + [x, x] && Copied(0x74, s) == s + [EncodeNum(|s|)]
    ensures Copied(0x82, s + [x]) == s + [x, EncodeNum(|x|)]
  {
    hide EncodeNum;
  }

  lemma CopiedTwo(s: Stack, x: Bytes, y: Bytes)
    ensures Copied(0x78, s + [x, y]) == s + [x, y, x] && Copied(0x7d, s + [x, y]) == s + [y, x, y]
    ensures Copied(0x6e, s + [x, y]) == s + [x, y, x, y]
  {
    hide EncodeNum;
    assert (s + [x, y])[..|s|] == s;
  }

  /** The stack a copying opcode leaves. */
  function Copied(op: Byte, stack: Stack): Stack
    requires op in {0x6e, 0x74, 0x76, 0x78, 0x7d, 0x82}
    requires |stack| >= if op == 0x74 then 0 else if op in {0x6e, 0x78, 0x7d} then 2 else 1
  {
    var n := |stack|;
    if op == 0x76 then stack + [stack[n - 1]]
    else if op == 0x78 then stack + [stack[n - 2]]
    else if op == 0x7d then stack[..n - 2] + [stack[n - 1], stack[n - 2], stack[n - 1]]
    else if op == 0x6e then stack + [stack[n - 2], stack[n - 1]]
    else if op == 0x74 then stack + [EncodeNum(n)]
    else stack + [EncodeNum(|stack[n - 1]|)]
  }

  lemma Copies(c: Crypto, ctx: ScriptContext, op: Byte, stack: Stack, alt: Stack)
    requires op in {0x6e, 0x74, 0x76, 0x78, 0x7d, 0x82}
    requires |stack| >= if op == 0x74 then 0 else if op in {0x6e, 0x78, 0x7d} then 2 else 1
    ensures Adds(c, ctx, op, stack, alt, Copied(op, stack))
  {
    hide Leads, Aborts, EncodeNum;
    ExecDecides(c, ctx, op, stack, alt);
  }

  lemma IfDup(c: Crypto, ctx: ScriptContext, s: Stack, alt: Stack, x: Bytes)
    ensures if Truthy(x) then Adds(c, ctx, 0x73, s + [x], alt, s + [x, x]) else Leads(c, ctx, 0x73, s + [x], alt, s + [x], alt)
  {
    hide Leads, Aborts, Truthy;
    ExecDecides(c, ctx, 0x73, s + [x], alt);
    assert (s + [x]) + [x] == s + [x, x];
  }

  /** OP_1 to OP_16 push their number. */
  lemma SmallNumbers(c: Crypto, ctx: ScriptContext, op: Byte, s: Stack, alt: Stack)
    requires 0x51 <= op <= 0x60
    ensures Adds(c, ctx, op, s, alt, s + [[op - 0x50]])
  {
    hide Leads, Aborts;
    ExecDecides(c, ctx, op, s, alt);
    assert EncodeNum(op - 0x50) == [op - 0x50];
  }

  /** OP_PICK copies and OP_ROLL moves the item `k` below the operand; there must be one. */
  lemma PickAndRoll(c: Crypto, ctx: ScriptContext, s: Stack, items: Stack, alt: Stack)
    requires 0 < |items| && |s| + |items| <= 1000
    ensures Adds(c, ctx, 0x79, s + items + [EncodeNum(|items| - 1)], alt, s + items + [items[0]])
    ensures Leads(c, ctx, 0x7a, s + items + [EncodeNum(|items| - 1)], alt, s + items[1..] + [items[0]], alt)
  {
    hide Leads, Aborts, EncodeNum, DecodeNum, PickRoll;
    var stack := s + items + [EncodeNum(|items| - 1)];
    ExecDecides(c, ctx, 0x79, stack, alt);
    ExecDecides(c, ctx, 0x7a, stack, alt);
    DecodeOfEncode(|items| - 1, 4);
    PickRollAt(s, items, alt, stack[|stack| - 1]);
    assert s + items + [EncodeNum(|items| - 1)] == stack;
  }

  lemma PickRollAt(s: Stack, items: Stack, alt: Stack, top: Bytes)
    requires 0 < |items| && DecodeNum(top, 4) == Some(|items| - 1)
    ensures PickRoll(true, s + items + [top], alt) == Ok(s + items[1..] + [items[0]], alt)
    ensures PickRoll(false, s + items + [top], alt)
            == if |s| + |items| + 1 + |alt| <= 1000 then Ok(s + items + [items[0]], alt) else Err
  {
    hide DecodeNum;
    var stack, rest := s + items + [top], s + items;
    assert stack[..|stack| - 1] == rest;
    assert rest[..|s|] + rest[|s| + 1..] == s + items[1..] && rest[|s|] == items[0];
  }

  /** Without such an item the script fails. */
  lemma PickAndRollFail(c: Crypto, ctx: ScriptContext, s: Stack, alt: Stack, top: Bytes)
    requires var k := DecodeNum(top, 4); k.None? || k.value < 0 || k.value >= |s|
    ensures Aborts(c, ctx, 0x79, s + [top], alt) && Aborts(c, ctx, 0x7a, s + [top], alt)
  {
    hide Leads, Aborts, DecodeNum;
    ExecDecides(c, ctx, 0x79, s + [top], alt);
    ExecDecides(c, ctx, 0x7a, s + [top], alt);
  }

  // ---- Tests, hashes, signatures ----

  /** OP_VERIFY, OP_EQUAL, OP_EQUALVERIFY. */
  lemma Tests(c: Crypto, ctx: ScriptContext, s: Stack, alt: Stack, x: Bytes, y: Bytes)
    ensures if Truthy(x) then Leads(c, ctx, 0x69, s + [x], alt, s, alt) else Aborts(c, ctx, 0x69, s + [x], alt)
    ensures Leads(c, ctx, 0x87, s + [x, y], alt, s + [if x == y then [1] else []], alt)
    ensures if x == y then Leads(c, ctx, 0x88, s + [x, y], alt, s, alt) else Aborts(c, ctx, 0x88, s + [x, y], alt)
  {
    hide Leads, Aborts, Truthy;
    ExecDecides(c, ctx, 0x69, s + [x], alt);
    ExecDecides(c, ctx, 0x87, s + [x, y], alt);
    ExecDecides(c, ctx, 0x88, s + [x, y], alt);
    Below(s, x, y, y);
  }

  lemma Hashes(c: Crypto, ctx: ScriptContext, s: Stack, alt: Stack, x: Bytes)
    ensures Leads(c, ctx, 0xa6, s + [x], alt, s + [c.ripemd160(x)], alt)
    ensures Leads(c, ctx, 0xa8, s + [x], alt, s + [c.sha256(x)], alt)
    ensures Leads(c, ctx, 0xa9, s + [x], alt, s + [c.ripemd160(c.sha256(x))], alt)
    ensures Leads(c, ctx, 0xaa, s + [x], alt, s + [c.sha256(c.sha256(x))], alt)
  {
    hide Leads, Aborts;
    ExecDecides(c, ctx, 0xa6, s + [x], alt);
    ExecDecides(c, ctx, 0xa8, s + [x], alt);
    ExecDecides(c, ctx, 0xa9, s + [x], alt);
    ExecDecides(c, ctx, 0xaa, s + [x], alt);
    Below(s, x, x, x);
  }

  /** A signature of 64 bytes under a key of 32, over the spend's hash. */
  lemma Signatures(c: Crypto, ctx: ScriptContext, s: Stack, alt: Stack, sig: Bytes, key: Bytes)
    ensures var ok := |key| == 32 && |sig| == 64 && c.verify(sig, ctx.sighash, key);
      && Leads(c, ctx, 0xac, s + [sig, key], alt, s + [if ok then [1] else []], alt) // OP_CHECKSIG
      && if ok then Leads(c, ctx, 0xad, s + [sig, key], alt, s, alt) else Aborts(c, ctx, 0xad, s + [sig, key], alt) // OP_CHECKSIGVERIFY
  {
    hide Leads, Aborts;
    ExecDecides(c, ctx, 0xac, s + [sig, key], alt);
    ExecDecides(c, ctx, 0xad, s + [sig, key], alt);
    Below(s, sig, key, key);
  }

  // ---- Failing opcodes ----

  /** How many items an opcode needs, where the script language has such an opcode. */
  function Needs(op: Byte): Option<nat> {
    if 0x51 <= op <= 0x60 || op == 0x74 || op == 0x6c then Some(0)
    else if op in {0x69, 0x6b, 0x73, 0x75, 0x76, 0x79, 0x7a, 0x82, 0x8b, 0x8c, 0x8f, 0x90, 0x91, 0x92, 0xa6, 0xa8, 0xa9, 0xaa, 0xae, 0xb1} then Some(1)
    else if op in {0x6e, 0x77, 0x78, 0x7c, 0x7d, 0x87, 0x88, 0x93, 0x94, 0xac, 0xad} || 0x9a <= op <= 0xa4 then Some(2)
    else if op in {0x7b, 0xa5} then Some(3)
    else None
  }

  /** Too few items, or an opcode the language does not have, and the script fails. */
  lemma FailsWithout(c: Crypto, ctx: ScriptContext, op: Byte, stack: Stack, alt: Stack)
    requires Ordinary(op)
    requires Needs(op).None? || |stack| < Needs(op).value || (op == 0x6c && alt == [])
    ensures Aborts(c, ctx, op, stack, alt)
  {
    hide Leads, Aborts, DecodeNum, EncodeNum, Truthy, PickRoll, Push;
    ExecDecides(c, ctx, op, stack, alt);
  }

  /** The reserved no-ops only cost budget; past the budget any opcode fails. */
  lemma NopsAndBudget(c: Crypto, ctx: ScriptContext, op: Byte, rest: Bytes, m: Machine)
    requires Executing(m.cond) && (Ordinary(op) || IsReservedNop(op))
    ensures m.ops < 201 && op in {0x61, 0xb0, 0xb2, 0xb3, 0xb4, 0xb5, 0xb6, 0xb7, 0xb8, 0xb9} ==>
      Run(c, ctx, Op(op, rest), m) == Run(c, ctx, rest, m.(ops := m.ops + 1))
    ensures m.ops >= 201 ==> !Run(c, ctx, Op(op, rest), m)
  {
    hide Exec, PushStep;
    assert Op(op, rest)[1..] == rest;
  }

  // ---- Flow control ----

  /** OP_IF takes a condition off the stack where the script runs, `false` where it is skipped. */
  lemma IfOpens(c: Crypto, ctx: ScriptContext, rest: Bytes, m: Machine)
    ensures Executing(m.cond) && m.stack != [] ==>
      Run(c, ctx, Op(0x63, rest), m)
      == Run(c, ctx, rest, m.(cond := m.cond + [Truthy(m.stack[|m.stack| - 1])], stack := m.stack[..|m.stack| - 1]))
    ensures Executing(m.cond) && m.stack == [] ==> !Run(c, ctx, Op(0x63, rest), m)
    ensures !Executing(m.cond) ==> Run(c, ctx, Op(0x63, rest), m) == Run(c, ctx, rest, m.(cond := m.cond + [false]))
  {
    hide Exec, PushStep, Truthy, Executing;
    assert Op(0x63, rest)[1..] == rest;
  }

  /** OP_ELSE turns the innermost condition over, OP_ENDIF closes it; there must be one. */
  lemma ElseAndEndIf(c: Crypto, ctx: ScriptContext, rest: Bytes, m: Machine, b: bool)
    ensures Run(c, ctx, Op(0x67, rest), m.(cond := m.cond + [b])) == Run(c, ctx, rest, m.(cond := m.cond + [!b]))
    ensures Run(c, ctx, Op(0x68, rest), m.(cond := m.cond + [b])) == Run(c, ctx, rest, m)
    ensures m.cond == [] ==> !Run(c, ctx, Op(0x67, rest), m) && !Run(c, ctx, Op(0x68, rest), m)
  {
    hide Exec, PushStep, Truthy, Executing;
    var open := m.(cond := m.cond + [b]);
    assert Op(0x67, rest)[1..] == rest && Op(0x68, rest)[1..] == rest;
    assert open.cond[..|m.cond|] == m.cond;
    assert Step(c, ctx, Op(0x67, rest), open) == Next(rest, m.(cond := m.cond + [!b]));
    assert Step(c, ctx, Op(0x68, rest), open) == Next(rest, m);
    hide Step;
    OneStep(c, ctx, Op(0x67, rest), open);
    OneStep(c, ctx, Op(0x68, rest), open);
    NothingOpen(c, ctx, rest, m);
  }

  lemma OneStep(c: Crypto, ctx: ScriptContext, script: Bytes, m: Machine)
    requires script != []
    ensures var r := Step(c, ctx, script, m); Run(c, ctx, script, m) == (r.Next? && Run(c, ctx, r.rest, r.m))
  {
    hide Step;
  }

  lemma NothingOpen(c: Crypto, ctx: ScriptContext, rest: Bytes, m: Machine)
    ensures m.cond == [] ==> !Run(c, ctx, Op(0x67, rest), m) && !Run(c, ctx, Op(0x68, rest), m)
  {
    hide Exec, PushStep, Truthy, Executing;
  }

  /** Skipped code costs nothing and does nothing; `Executing` means that every open condition holds. */
  lemma Skipped(c: Crypto, ctx: ScriptContext, op: Byte, rest: Bytes, m: Machine)
    requires !Executing(m.cond) && (Ordinary(op) || IsReservedNop(op))
    ensures Run(c, ctx, Op(op, rest), m) == Run(c, ctx, rest, m)
    ensures exists i :: 0 <= i < |m.cond| && !m.cond[i]
  {
    hide Exec, PushStep;
    assert Op(op, rest)[1..] == rest;
  }

  /**
   * An evaluation succeeds exactly if script and witness are within their limits and the script runs on the
   * witness to its end, where every condition is closed and a true item is on top.
   */
  lemma EvaluationIsRun(c: Crypto, ctx: ScriptContext, script: Bytes, items: seq<Bytes>, m: Machine)
    ensures Eval(c, ctx, script, items) <==>
      && |script| <= 10_000 && |items| <= 100 && (forall i :: 0 <= i < |items| ==> |items[i]| <= 520)
      && Run(c, ctx, script, Machine(items, [], [], 0))
    ensures Run(c, ctx, [], m) <==> m.cond == [] && m.stack != [] && Truthy(m.stack[|m.stack| - 1])
  {
    hide Step, Truthy;
  }

  // ---- Multisig and lock time ----

  /** Bottom to top: the signatures, how many, the keys, how many. All are consumed, one truth value is left. */
  lemma Multisigs(c: Crypto, ctx: ScriptContext, s: Stack, alt: Stack, sigs: seq<Bytes>, keys: seq<Bytes>)
    requires 1 <= |sigs| <= |keys| <= 20
    ensures Leads(c, ctx, 0xae, s + sigs + [EncodeNum(|sigs|)] + keys + [EncodeNum(|keys|)], alt,
                  s + [if Assignable(c, ctx.sighash, sigs, keys) then [1] else []], alt)
  {
    hide Leads, Aborts, Assignable, DecodeNum, EncodeNum, Multisig;
    var stack := s + sigs + [EncodeNum(|sigs|)] + keys + [EncodeNum(|keys|)];
    ExecDecides(c, ctx, 0xae, stack, alt);
    MultisigAt(c, ctx.sighash, s, alt, sigs, keys);
  }

  lemma SmallNumber20(n: nat)
    requires n <= 20
    ensures DecodeNum(EncodeNum(n), 4) == Some(n)
  {
    hide DecodeNum, EncodeNum;
    DecodeOfEncode(n, 4);
    assert Limit(4) == 0x8000_0000;
  }

  lemma MultisigAt(c: Crypto, msg: Bytes, s: Stack, alt: Stack, sigs: seq<Bytes>, keys: seq<Bytes>)
    requires 1 <= |sigs| <= |keys| <= 20
    ensures Multisig(c, msg, s + sigs + [EncodeNum(|sigs|)] + keys + [EncodeNum(|keys|)], alt)
         == Ok(s + [if Assignable(c, msg, sigs, keys) then [1] else []], alt)
  {
    hide DecodeNum, EncodeNum, Greedy, Assignable;
    SmallNumber20(|sigs|);
    SmallNumber20(|keys|);
    GreedyIsAssignable(c, msg, sigs, keys);
    var em, en := EncodeNum(|sigs|), EncodeNum(|keys|);
    var stack := s + sigs + [em] + keys + [en];
    var size, base := |stack|, |s|;
    assert stack[size - 1] == en && stack[base + |sigs|] == em;
    assert stack[..base] == s && stack[base..base + |sigs|] == sigs && stack[base + |sigs| + 1..size - 1] == keys;
  }

  /** Anything but counts 1 <= m <= n <= 20 with enough items below fails the script. */
  lemma MultisigFails(c: Crypto, ctx: ScriptContext, stack: Stack, alt: Stack)
    requires stack != []
    requires var size, n := |stack|, DecodeNum(stack[|stack| - 1], 4);
      || n.None? || n.value < 1 || n.value > 20 || size < n.value + 2
      || (var m := DecodeNum(stack[size - 2 - n.value], 4);
          m.None? || m.value < 1 || m.value > n.value || size < n.value + m.value + 2)
    ensures Aborts(c, ctx, 0xae, stack, alt)
  {
    hide Leads, Aborts, DecodeNum, Greedy;
    ExecDecides(c, ctx, 0xae, stack, alt);
  }

  /** OP_CHECKLOCKTIMEVERIFY: heights below 500,000,000, times from there on; the operand stays. */
  lemma LockTimes(c: Crypto, ctx: ScriptContext, s: Stack, alt: Stack, x: Bytes)
    ensures var req := DecodeNum(x, 5);
      if req.Some? && 0 <= req.value <= (if req.value < 500_000_000 then ctx.height else ctx.mtp)
      then Leads(c, ctx, 0xb1, s + [x], alt, s + [x], alt) else Aborts(c, ctx, 0xb1, s + [x], alt)
  {
    hide Leads, Aborts, DecodeNum;
    ExecDecides(c, ctx, 0xb1, s + [x], alt);
  }

  // ---- Pushes ----

  /** How the three forms of a push give the length of their data. */
  predicate PushesLength(head: Bytes, len: nat) {
    || (|head| == 1 && head[0] == len <= 75)
    || (|head| == 2 && head[0] == 0x4c && head[1] == len)
    || (|head| == 3 && head[0] == 0x4d && var low: int, high: int := head[1], head[2]; low + 256 * high == len)
  }

  /** A push adds its data if it is complete, at most 520 bytes, and the stacks have room; skipped, it does nothing. */
  lemma Pushes(c: Crypto, ctx: ScriptContext, head: Bytes, data: Bytes, rest: Bytes, m: Machine)
    requires PushesLength(head, |data|)
    ensures Run(c, ctx, head + data + rest, m) <==>
      && |data| <= 520 && (Executing(m.cond) ==> |m.stack| + |m.alt| < 1000)
      && Run(c, ctx, rest, if Executing(m.cond) then m.(stack := m.stack + [data]) else m)
  {
    hide Step, PushesLength, PushLength, PushStep, Executing, IsPush;
    var script := head + data + rest;
    assert script == head + (data + rest);
    LengthRead(head, |data|, data + rest, script);
    var tail := script[1..];
    assert tail == head[1..] + (data + rest);
    DataRead(head[1..], data, rest, tail);
    PushTaken(script[0], tail, |head| - 1, data, rest, m);
    StepIsPush(c, ctx, script, m);
    OneStep(c, ctx, script, m);
  }

  lemma StepIsPush(c: Crypto, ctx: ScriptContext, script: Bytes, m: Machine)
    requires script != [] && IsPush(script[0])
    ensures Step(c, ctx, script, m) == PushStep(script[0], script[1..], m)
  {
    hide PushStep, Exec;
  }

  lemma PushTaken(op: Byte, tail: Bytes, at: nat, data: Bytes, rest: Bytes, m: Machine)
    requires IsPush(op) && PushLength(op, tail) == Some((|data|, at))
    requires at + |data| <= |tail| && tail[at..at + |data|] == data && tail[at + |data|..] == rest
    ensures PushStep(op, tail, m)
            == if |data| <= 520 && (Executing(m.cond) ==> |m.stack| + |m.alt| < 1000)
               then Next(rest, if Executing(m.cond) then m.(stack := m.stack + [data]) else m) else Fail
  {
    hide PushLength, Executing;
  }

  lemma DataRead(front: Bytes, data: Bytes, rest: Bytes, tail: Bytes)
    requires tail == front + (data + rest)
    ensures |front| + |data| <= |tail| && tail[|front|..|front| + |data|] == data && tail[|front| + |data|..] == rest
  {
  }

  lemma LengthRead(head: Bytes, len: nat, more: Bytes, script: Bytes)
    requires PushesLength(head, len) && script == head + more
    ensures |head| > 0 && IsPush(script[0]) && PushLength(script[0], script[1..]) == Some((len, |head| - 1))
  {
  }

  /** Data cut off by the end of the script fails it, wherever it is. */
  lemma TruncatedPush(c: Crypto, ctx: ScriptContext, head: Bytes, data: Bytes, len: nat, m: Machine)
    requires PushesLength(head, len) && |data| < len
    ensures !Run(c, ctx, head + data, m)
  {
    hide Exec, Executing, Push;
    var script := head + data;
    LengthRead(head, len, data, script);
    hide PushLength;
    assert Step(c, ctx, script, m) == PushStep(script[0], script[1..], m);
  }
}
