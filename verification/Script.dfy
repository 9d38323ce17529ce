/** The spend-condition stack machine (src/chain/script.ts). */
module Script {
  import opened Genesis
  import opened ScriptNum

  /** Hash functions and signature verification: `verify(signature, message, publicKey)`. */
  datatype Crypto = Crypto(
    sha256: Bytes -> Bytes,
    ripemd160: Bytes -> Bytes,
    verify: (Bytes, Bytes, Bytes) -> bool)

  datatype ScriptContext = ScriptContext(sighash: Bytes, height: int, mtp: int)

  const MAX_STACK_SIZE := 1000
  const MAX_OPS := 201
  const MAX_MULTISIG_KEYS := 20
  const MAX_NUM_BYTES := 4
  const LOCKTIME_THRESHOLD := 500_000_000

  const ONE: Bytes := [1]
  const ZERO: Bytes := []

  function BoolItem(b: bool): Bytes {
    if b then ONE else ZERO
  }

  // ---- Opcodes, one group at a time. `Err` is any of the aborting errors. ----

  type Stack = seq<Bytes>

  datatype StackResult = Ok(stack: Stack, alt: Stack) | Err

  function Push(stack: Stack, alt: Stack, item: Bytes): StackResult {
    if |stack| + 1 + |alt| > MAX_STACK_SIZE then Err else Ok(stack + [item], alt)
  }

  /** OP_1..OP_16, OP_VERIFY and the stack manipulation opcodes. */
  function StackOp(op: Byte, stack: Stack, alt: Stack): StackResult {
    var n := |stack|;
    if 0x51 <= op <= 0x60 then Push(stack, alt, EncodeNum(op - 0x50))
    else if op == 0x69 then // OP_VERIFY
      if n < 1 || !Truthy(stack[n - 1]) then Err else Ok(stack[..n - 1], alt)
    else if op == 0x6b then // OP_TOALTSTACK
      if n < 1 then Err else Ok(stack[..n - 1], alt + [stack[n - 1]])
    else if op == 0x6c then // OP_FROMALTSTACK
      if |alt| < 1 then Err else Ok(stack + [alt[|alt| - 1]], alt[..|alt| - 1])
    else if op == 0x6e then // OP_2DUP
      if n < 2 || n + 2 + |alt| > MAX_STACK_SIZE then Err else Ok(stack + [stack[n - 2], stack[n - 1]], alt)
    else if op == 0x73 then // OP_IFDUP
      if n < 1 then Err else if Truthy(stack[n - 1]) then Push(stack, alt, stack[n - 1]) else Ok(stack, alt)
    else if op == 0x74 then // OP_DEPTH
      Push(stack, alt, EncodeNum(n))
    else if op == 0x75 then // OP_DROP
      if n < 1 then Err else Ok(stack[..n - 1], alt)
    else if op == 0x76 then // OP_DUP
      if n < 1 then Err else Push(stack, alt, stack[n - 1])
    else StackOp2(op, stack, alt)
  }

  /** The rest of the stack group, with the two comparison opcodes. */
  function StackOp2(op: Byte, stack: Stack, alt: Stack): StackResult {
    var n := |stack|;
    if op == 0x77 then // OP_NIP
      if n < 2 then Err else Ok(stack[..n - 2] + [stack[n - 1]], alt)
    else if op == 0x78 then // OP_OVER
      if n < 2 then Err else Push(stack, alt, stack[n - 2])
    else if op == 0x79 || op == 0x7a then // OP_PICK, OP_ROLL
      if n < 1 then Err else PickRoll(op == 0x7a, stack, alt)
    else if op == 0x7b then // OP_ROT
      if n < 3 then Err else Ok(stack[..n - 3] + [stack[n - 2], stack[n - 1], stack[n - 3]], alt)
    else if op == 0x7c then // OP_SWAP
      if n < 2 then Err else Ok(stack[..n - 2] + [stack[n - 1], stack[n - 2]], alt)
    else if op == 0x7d then // OP_TUCK
      if n < 2 || n + 1 + |alt| > MAX_STACK_SIZE then Err
      else Ok(stack[..n - 2] + [stack[n - 1], stack[n - 2], stack[n - 1]], alt)
    else if op == 0x82 then // OP_SIZE
      if n < 1 then Err else Push(stack, alt, EncodeNum(|stack[n - 1]|))
    else if op == 0x87 then // OP_EQUAL
      if n < 2 then Err else Ok(stack[..n - 2] + [BoolItem(stack[n - 1] == stack[n - 2])], alt)
    else if op == 0x88 then // OP_EQUALVERIFY
      if n < 2 || stack[n - 1] != stack[n - 2] then Err else Ok(stack[..n - 2], alt)
    else Err
  }

  /** The operand counts from the top after it has been popped. */
  function PickRoll(roll: bool, stack: Stack, alt: Stack): StackResult
    requires stack != []
  {
    var rest := stack[..|stack| - 1];
    var k := DecodeNum(stack[|stack| - 1], MAX_NUM_BYTES);
    if k.None? || k.value < 0 || k.value >= |rest| then Err
    else
      var i := |rest| - 1 - k.value;
      if roll then Ok(rest[..i] + rest[i + 1..] + [rest[i]], alt) else Push(rest, alt, rest[i])
  }

  function AsNumber(b: bool): int {
    if b then 1 else 0
  }

  function UnaryOp(op: Byte, a: int): int {
    if op == 0x8b then a + 1
    else if op == 0x8c then a - 1
    else if op == 0x8f then -a
    else if op == 0x90 then if a < 0 then -a else a
    else if op == 0x91 then AsNumber(a == 0)
    else AsNumber(a != 0)
  }

  function BinaryOp(op: Byte, a: int, b: int): int {
    if op == 0x93 then a + b
    else if op == 0x94 then a - b
    else if op == 0x9a then AsNumber(a != 0 && b != 0)
    else if op == 0x9b then AsNumber(a != 0 || b != 0)
    else if op == 0x9e then AsNumber(a != b)
    else if op == 0x9f then AsNumber(a < b)
    else if op == 0xa0 then AsNumber(a > b)
    else if op == 0xa1 then AsNumber(a <= b)
    else if op == 0xa2 then AsNumber(a >= b)
    else if op == 0xa3 then if a < b then a else b
    else if op == 0xa4 then if a > b then a else b
    else AsNumber(a == b)
  }

  predicate IsUnary(op: Byte) {
    op in {0x8b, 0x8c, 0x8f, 0x90, 0x91, 0x92}
  }

  predicate IsBinary(op: Byte) {
    op in {0x93, 0x94, 0x9a, 0x9b, 0x9c, 0x9d, 0x9e, 0x9f, 0xa0, 0xa1, 0xa2, 0xa3, 0xa4}
  }

  /** Arithmetic on operands of at most four bytes. */
  function NumOp(op: Byte, stack: Stack, alt: Stack): StackResult {
    var n := |stack|;
    if IsUnary(op) then
      if n < 1 then Err else
      var a := DecodeNum(stack[n - 1], MAX_NUM_BYTES);
      if a.None? then Err else Ok(stack[..n - 1] + [EncodeNum(UnaryOp(op, a.value))], alt)
    else if IsBinary(op) then
      if n < 2 then Err else
      var b, a := DecodeNum(stack[n - 1], MAX_NUM_BYTES), DecodeNum(stack[n - 2], MAX_NUM_BYTES);
      if a.None? || b.None? then Err else
      var r := BinaryOp(op, a.value, b.value);
      if op == 0x9d then if r == 0 then Err else Ok(stack[..n - 2], alt) // OP_NUMEQUALVERIFY
      else Ok(stack[..n - 2] + [EncodeNum(r)], alt)
    else if op == 0xa5 then // OP_WITHIN
      if n < 3 then Err else
      var max, min, x := DecodeNum(stack[n - 1], MAX_NUM_BYTES), DecodeNum(stack[n - 2], MAX_NUM_BYTES), DecodeNum(stack[n - 3], MAX_NUM_BYTES);
      if max.None? || min.None? || x.None? then Err
      else Ok(stack[..n - 3] + [BoolItem(min.value <= x.value < max.value)], alt)
    else Err
  }

  function HashOp(c: Crypto, op: Byte, stack: Stack, alt: Stack): StackResult {
    var n := |stack|;
    if n < 1 then Err
    else
      var top, rest := stack[n - 1], stack[..n - 1];
      if op == 0xa6 then Ok(rest + [c.ripemd160(top)], alt)
      else if op == 0xa8 then Ok(rest + [c.sha256(top)], alt)
      else if op == 0xa9 then Ok(rest + [c.ripemd160(c.sha256(top))], alt)
      else Ok(rest + [c.sha256(c.sha256(top))], alt)
  }

  predicate SigValid(c: Crypto, msg: Bytes, sig: Bytes, key: Bytes) {
    |key| == 32 && |sig| == 64 && c.verify(sig, msg, key)
  }

  function SigOp(c: Crypto, ctx: ScriptContext, op: Byte, stack: Stack, alt: Stack): StackResult {
    var n := |stack|;
    if op == 0xae then Multisig(c, ctx.sighash, stack, alt)
    else if n < 2 then Err
    else
      var valid := SigValid(c, ctx.sighash, stack[n - 2], stack[n - 1]);
      if op == 0xac then Ok(stack[..n - 2] + [BoolItem(valid)], alt)
      else if valid then Ok(stack[..n - 2], alt) else Err
  }

  /** The greedy scan: each signature takes the first remaining key it verifies under. */
  predicate Greedy(c: Crypto, msg: Bytes, sigs: seq<Bytes>, keys: seq<Bytes>)
    decreases |keys|, |sigs|
  {
    if sigs == [] then true
    else if keys == [] then false
    else Greedy(c, msg, if SigValid(c, msg, sigs[0], keys[0]) then sigs[1..] else sigs, keys[1..])
  }

  /** Stack layout, bottom to top: sig_1..sig_m, m, pub_1..pub_n, n. */
  function Multisig(c: Crypto, msg: Bytes, stack: Stack, alt: Stack): StackResult {
    var size := |stack|;
    if size < 1 then Err else
    var n := DecodeNum(stack[size - 1], 4);
    if n.None? || n.value < 1 || n.value > MAX_MULTISIG_KEYS || size - 1 < n.value + 1 then Err else
    var keysAt := size - 1 - n.value;
    var m := DecodeNum(stack[keysAt - 1], 4);
    if m.None? || m.value < 1 || m.value > n.value || keysAt - 1 < m.value then Err else
    var sigsAt := keysAt - 1 - m.value;
    Ok(stack[..sigsAt] + [BoolItem(Greedy(c, msg, stack[sigsAt..keysAt - 1], stack[keysAt..size - 1]))], alt)
  }

  /** OP_CHECKLOCKTIMEVERIFY: the operand stays on the stack; its size picks the clock. */
  function Cltv(ctx: ScriptContext, stack: Stack, alt: Stack): StackResult {
    if stack == [] then Err else
    var req := DecodeNum(stack[|stack| - 1], 5);
    if req.None? || req.value < 0 then Err
    else if (if req.value < LOCKTIME_THRESHOLD then ctx.height else ctx.mtp) < req.value then Err
    else Ok(stack, alt)
  }

  /** Every opcode that is neither a push, nor flow control, nor a reserved no-op. */
  function Exec(c: Crypto, ctx: ScriptContext, op: Byte, stack: Stack, alt: Stack): StackResult {
    if op < 0x8b then StackOp(op, stack, alt)
    else if op < 0xa6 then NumOp(op, stack, alt)
    else if op in {0xa6, 0xa8, 0xa9, 0xaa} then HashOp(c, op, stack, alt)
    else if op in {0xac, 0xad, 0xae} then SigOp(c, ctx, op, stack, alt)
    else if op == 0xb1 then Cltv(ctx, stack, alt)
    else Err
  }

  // ---- The interpreter loop ----

  const OP_PUSHDATA1: Byte := 0x4c
  const OP_PUSHDATA2: Byte := 0x4d
  const OP_IF: Byte := 0x63
  const OP_ELSE: Byte := 0x67
  const OP_ENDIF: Byte := 0x68

  datatype Machine = Machine(stack: Stack, alt: Stack, cond: seq<bool>, ops: nat)

  datatype StepResult = Next(rest: Bytes, m: Machine) | Fail

  predicate IsPush(op: Byte) {
    op <= 0x4d
  }

  predicate IsReservedNop(op: Byte) {
    op == 0x61 || op == 0xb0 || 0xb2 <= op <= 0xb9
  }

  predicate Executing(cond: seq<bool>) {
    forall i :: 0 <= i < |cond| ==> cond[i]
  }

  /** Length of a push and where its data starts in the bytes after the opcode; `None` if truncated. */
  function PushLength(op: Byte, tail: Bytes): Option<(nat, nat)>
    requires IsPush(op)
  {
    if op == OP_PUSHDATA1 then
      if |tail| < 1 then None else Some((tail[0], 1))
    else if op == OP_PUSHDATA2 then
      if |tail| < 2 then None else
      var low: int, high: int := tail[0], tail[1];
      Some((low + 256 * high, 2))
    else Some((op, 0))
  }

  function PushStep(op: Byte, tail: Bytes, m: Machine): (r: StepResult)
    requires IsPush(op)
    ensures r.Next? ==> |r.rest| <= |tail|
  {
    var h := PushLength(op, tail);
    if h.None? then Fail else
    var (len, at) := h.value;
    if len > MAX_PUSH_BYTES || at + len > |tail| then Fail
    else if !Executing(m.cond) then Next(tail[at + len..], m)
    else
      var p := Push(m.stack, m.alt, tail[at..at + len]);
      if p.Err? then Fail else Next(tail[at + len..], m.(stack := p.stack))
  }

  /** One opcode of the remaining script. */
  function Step(c: Crypto, ctx: ScriptContext, rest: Bytes, m: Machine): (r: StepResult)
    requires rest != []
    ensures r.Next? ==> |r.rest| < |rest|
  {
    var op, tail, n := rest[0], rest[1..], |m.cond|;
    if IsPush(op) then PushStep(op, tail, m)
    else if op == OP_IF then
      if !Executing(m.cond) then Next(tail, m.(cond := m.cond + [false]))
      else if m.stack == [] then Fail
      else
        var top := |m.stack| - 1;
        Next(tail, m.(cond := m.cond + [Truthy(m.stack[top])], stack := m.stack[..top]))
    else if op == OP_ELSE then
      if n == 0 then Fail else Next(tail, m.(cond := m.cond[..n - 1] + [!m.cond[n - 1]]))
    else if op == OP_ENDIF then
      if n == 0 then Fail else Next(tail, m.(cond := m.cond[..n - 1]))
    else if !Executing(m.cond) then Next(tail, m)
    else if m.ops + 1 > MAX_OPS then Fail
    else if IsReservedNop(op) then Next(tail, m.(ops := m.ops + 1))
    else
      var r := Exec(c, ctx, op, m.stack, m.alt);
      if r.Err? then Fail else Next(tail, Machine(r.stack, r.alt, m.cond, m.ops + 1))
  }

  /** Success is balanced conditionals and a true item on top. */
  predicate Accepts(m: Machine) {
    m.cond == [] && m.stack != [] && Truthy(m.stack[|m.stack| - 1])
  }

  predicate Run(c: Crypto, ctx: ScriptContext, rest: Bytes, m: Machine)
    decreases |rest|
  {
    if rest == [] then Accepts(m)
    else
      var r := Step(c, ctx, rest, m);
      r.Next? && Run(c, ctx, r.rest, r.m)
  }

  predicate WithinLimits(script: Bytes, witnessItems: seq<Bytes>) {
    && |script| <= MAX_SCRIPT_BYTES
    && |witnessItems| <= MAX_WITNESS_ITEMS
    && forall i :: 0 <= i < |witnessItems| ==> |witnessItems[i]| <= MAX_PUSH_BYTES
  }

  /** The specification of `evalScript`. */
  predicate Eval(c: Crypto, ctx: ScriptContext, script: Bytes, witnessItems: seq<Bytes>) {
    WithinLimits(script, witnessItems) && Run(c, ctx, script, Machine(witnessItems, [], [], 0))
  }
}
