/** What the arithmetic opcodes compute, as scripts that ask for a number (src/chain/script.ts). */
module Arithmetic {
  import opened Genesis
  import opened ScriptNum
  import opened Script
  import opened Htlc
  import opened Opcodes

  /** An operand of at most four bytes. */
  predicate InRange(n: int) {
    -0x8000_0000 < n < 0x8000_0000
  }

  lemma NumberSize(n: int)
    requires InRange(n)
    ensures |EncodeNum(n)| <= 4 && DecodeNum(EncodeNum(n), 4) == Some(n)
  {
    hide DecodeNum, Minimal, Magnitude, Negative, EncodeMagnitude;
    assert Limit(4) == 0x8000_0000;
    DecodeOfEncode(n, 4);
    if n != 0 {
      EncodedMagnitude(if n < 0 then -n else n, n < 0, 4);
    }
  }

  lemma Decoded(n: int)
    ensures DecodeNum(EncodeNum(n), 4) == if InRange(n) then Some(n) else None
  {
    hide DecodeNum, EncodeNum;
    assert Limit(4) == 0x8000_0000;
    DecodeOfEncode(n, 4);
  }

  // ---- Scripts that compute and compare ----

  function Push(n: int, rest: Bytes): Bytes
    requires InRange(n)
  {
    NumberSize(n);
    Data(EncodeNum(n), rest)
  }

  /** Compare what is on top with `c`. */
  function Is(c: int): Bytes
    requires InRange(c)
  {
    Push(c, Op(0x9c, []))
  }

  lemma RunNumber(c: Crypto, ctx: ScriptContext, n: int, rest: Bytes, m: Machine)
    requires InRange(n) && |m.stack| <= 100 && m.alt == [] && m.cond == []
    ensures Run(c, ctx, Push(n, rest), m) == Run(c, ctx, rest, m.(stack := m.stack + [EncodeNum(n)]))
    ensures |Push(n, rest)| <= |rest| + 7
  {
    hide Run, EncodeNum;
    NumberSize(n);
    RunPush(c, ctx, EncodeNum(n), rest, m);
  }

  lemma NumEquals(c: Crypto, ctx: ScriptContext, x: int, y: int, m: Machine)
    requires m == Machine([EncodeNum(x), EncodeNum(y)], [], [], m.ops) && m.ops < 201 && InRange(y)
    ensures Run(c, ctx, Op(0x9c, []), m) <==> x == y
  {
    Decoded(x);
    Decoded(y);
    assert EncodeNum(1) == [1] && EncodeNum(0) == [] && Truthy([1]) && !Truthy([]);
    hide Run, DecodeNum, EncodeNum, Truthy, InRange;
    RunOp(c, ctx, 0x9c, [], m);
    var r := Exec(c, ctx, 0x9c, m.stack, m.alt);
    assert InRange(x) ==> r == Ok([EncodeNum(AsNumber(x == y))], []);
    assert m.stack[..0] == [];
    hide Exec;
    if r.Ok? {
      RunNothing(c, ctx, Machine(r.stack, r.alt, m.cond, m.ops + 1));
    }
  }

  lemma RunNothing(c: Crypto, ctx: ScriptContext, m: Machine)
    ensures Run(c, ctx, [], m) == Accepts(m)
  {
  }

  /** Push `a`, run an opcode, ask whether the result is `n`. */
  function Ask1(a: int, op: Byte, n: int): Bytes
    requires InRange(a) && InRange(n)
  {
    Push(a, Op(op, Is(n)))
  }

  /** Push `a` and `b`, run an opcode, ask whether the result is `n`. */
  function Ask2(a: int, b: int, op: Byte, n: int): Bytes
    requires InRange(a) && InRange(b) && InRange(n)
  {
    Push(a, Push(b, Op(op, Is(n))))
  }

  const START := Machine([], [], [], 0)

  lemma EvalIsRun(c: Crypto, ctx: ScriptContext, script: Bytes)
    requires |script| <= 10_000
    ensures Eval(c, ctx, script, []) == Run(c, ctx, script, START)
  {
    hide Run;
  }

  /** An opcode that leaves the one number `v` makes the comparison succeed for `v` only. */
  lemma Answers(c: Crypto, ctx: ScriptContext, op: Byte, stack: Stack, v: int, n: int)
    requires Ordinary(op) && InRange(n) && |stack| <= 99 && Exec(c, ctx, op, stack, []) == Ok([EncodeNum(v)], [])
    ensures Run(c, ctx, Op(op, Is(n)), Machine(stack, [], [], 0)) <==> n == v
  {
    hide Run, Exec, EncodeNum, Push;
    RunOp(c, ctx, op, Is(n), Machine(stack, [], [], 0));
    var m := Machine([EncodeNum(v)], [], [], 1);
    RunNumber(c, ctx, n, Op(0x9c, []), m);
    assert m.stack + [EncodeNum(n)] == [EncodeNum(v), EncodeNum(n)];
    NumEquals(c, ctx, v, n, m.(stack := [EncodeNum(v), EncodeNum(n)]));
  }

  lemma Ask1Runs(c: Crypto, ctx: ScriptContext, a: int, op: Byte, n: int, v: int)
    requires Ordinary(op) && InRange(a) && InRange(n) && Exec(c, ctx, op, [EncodeNum(a)], []) == Ok([EncodeNum(v)], [])
    ensures Eval(c, ctx, Ask1(a, op, n), []) <==> n == v
  {
    hide Run, Exec, EncodeNum, Push, Eval;
    Answers(c, ctx, op, [EncodeNum(a)], v, n);
    RunNumber(c, ctx, n, Op(0x9c, []), START);
    RunNumber(c, ctx, a, Op(op, Is(n)), START);
    assert START.stack + [EncodeNum(a)] == [EncodeNum(a)];
    EvalIsRun(c, ctx, Ask1(a, op, n));
  }

  lemma Ask2Runs(c: Crypto, ctx: ScriptContext, a: int, b: int, op: Byte, n: int, v: int)
    requires Ordinary(op) && InRange(a) && InRange(b) && InRange(n)
    requires Exec(c, ctx, op, [EncodeNum(a), EncodeNum(b)], []) == Ok([EncodeNum(v)], [])
    ensures Eval(c, ctx, Ask2(a, b, op, n), []) <==> n == v
  {
    hide Run, Exec, EncodeNum, Push, Eval;
    Answers(c, ctx, op, [EncodeNum(a), EncodeNum(b)], v, n);
    RunNumber(c, ctx, n, Op(0x9c, []), START);
    RunNumber(c, ctx, a, Push(b, Op(op, Is(n))), START);
    assert START.stack + [EncodeNum(a)] == [EncodeNum(a)];
    RunNumber(c, ctx, b, Op(op, Is(n)), START.(stack := [EncodeNum(a)]));
    assert [EncodeNum(a)] + [EncodeNum(b)] == [EncodeNum(a), EncodeNum(b)];
    EvalIsRun(c, ctx, Ask2(a, b, op, n));
  }

  // ---- One operand ----

  lemma UnaryExec(c: Crypto, ctx: ScriptContext, op: Byte, a: int)
    requires op in {0x8b, 0x8c, 0x8f, 0x90, 0x91, 0x92} && InRange(a)
    ensures Ordinary(op) && Exec(c, ctx, op, [EncodeNum(a)], []) == Ok([EncodeNum(UnaryOp(op, a))], [])
  {
    hide DecodeNum, EncodeNum, InRange, UnaryOp;
    Decoded(a);
    assert [EncodeNum(a)][..0] == [];
  }

  /** OP_1ADD, OP_1SUB, OP_NEGATE, OP_ABS, OP_NOT, OP_0NOTEQUAL. */
  lemma Unary(c: Crypto, ctx: ScriptContext, a: int, n: int)
    requires InRange(a) && InRange(n)
    ensures Eval(c, ctx, Ask1(a, 0x8b, n), []) <==> n == a + 1
    ensures Eval(c, ctx, Ask1(a, 0x8c, n), []) <==> n == a - 1
    ensures Eval(c, ctx, Ask1(a, 0x8f, n), []) <==> n == -a
    ensures Eval(c, ctx, Ask1(a, 0x90, n), []) <==> n == if a < 0 then -a else a
    ensures Eval(c, ctx, Ask1(a, 0x91, n), []) <==> n == if a == 0 then 1 else 0
    ensures Eval(c, ctx, Ask1(a, 0x92, n), []) <==> n == if a == 0 then 0 else 1
  {
    hide Exec, EncodeNum, Eval, Ask1;
    UnaryAsk(c, ctx, 0x8b, a, n);
    UnaryAsk(c, ctx, 0x8c, a, n);
    UnaryAsk(c, ctx, 0x8f, a, n);
    UnaryAsk(c, ctx, 0x90, a, n);
    UnaryAsk(c, ctx, 0x91, a, n);
    UnaryAsk(c, ctx, 0x92, a, n);
  }

  lemma UnaryAsk(c: Crypto, ctx: ScriptContext, op: Byte, a: int, n: int)
    requires op in {0x8b, 0x8c, 0x8f, 0x90, 0x91, 0x92} && InRange(a) && InRange(n)
    ensures Eval(c, ctx, Ask1(a, op, n), []) <==> n == UnaryOp(op, a)
  {
    hide Exec, EncodeNum, Eval, Ask1, UnaryOp;
    UnaryExec(c, ctx, op, a);
    Ask1Runs(c, ctx, a, op, n, UnaryOp(op, a));
  }

  // ---- Two operands ----

  lemma BinaryExec(c: Crypto, ctx: ScriptContext, op: Byte, a: int, b: int)
    requires IsBinary(op) && op != 0x9d && InRange(a) && InRange(b)
    ensures Ordinary(op) && Exec(c, ctx, op, [EncodeNum(a), EncodeNum(b)], []) == Ok([EncodeNum(BinaryOp(op, a, b))], [])
  {
    hide DecodeNum, EncodeNum, InRange, BinaryOp;
    Decoded(a);
    Decoded(b);
    assert [EncodeNum(a), EncodeNum(b)][..0] == [];
  }

  lemma BinaryAsk(c: Crypto, ctx: ScriptContext, op: Byte, a: int, b: int, n: int)
    requires IsBinary(op) && op != 0x9d && InRange(a) && InRange(b) && InRange(n)
    ensures Eval(c, ctx, Ask2(a, b, op, n), []) <==> n == BinaryOp(op, a, b)
  {
    hide Exec, EncodeNum, Eval, Ask2, BinaryOp;
    BinaryExec(c, ctx, op, a, b);
    Ask2Runs(c, ctx, a, b, op, n, BinaryOp(op, a, b));
  }

  /** OP_ADD, OP_SUB, OP_MIN, OP_MAX. */
  lemma Sums(c: Crypto, ctx: ScriptContext, a: int, b: int, n: int)
    requires InRange(a) && InRange(b) && InRange(n)
    ensures Eval(c, ctx, Ask2(a, b, 0x93, n), []) <==> n == a + b
    ensures Eval(c, ctx, Ask2(a, b, 0x94, n), []) <==> n == a - b
    ensures Eval(c, ctx, Ask2(a, b, 0xa3, n), []) <==> n == if a < b then a else b
    ensures Eval(c, ctx, Ask2(a, b, 0xa4, n), []) <==> n == if a < b then b else a
  {
    hide Eval, Ask2;
    BinaryAsk(c, ctx, 0x93, a, b, n);
    BinaryAsk(c, ctx, 0x94, a, b, n);
    BinaryAsk(c, ctx, 0xa3, a, b, n);
    BinaryAsk(c, ctx, 0xa4, a, b, n);
  }

  function Bit(b: bool): int {
    if b then 1 else 0
  }

  /** OP_BOOLAND, OP_BOOLOR, OP_NUMEQUAL, OP_NUMNOTEQUAL and the four orders. */
  lemma Comparisons(c: Crypto, ctx: ScriptContext, a: int, b: int, n: int)
    requires InRange(a) && InRange(b) && InRange(n)
    ensures Eval(c, ctx, Ask2(a, b, 0x9a, n), []) <==> n == Bit(a != 0 && b != 0)
    ensures Eval(c, ctx, Ask2(a, b, 0x9b, n), []) <==> n == Bit(a != 0 || b != 0)
    ensures Eval(c, ctx, Ask2(a, b, 0x9c, n), []) <==> n == Bit(a == b)
    ensures Eval(c, ctx, Ask2(a, b, 0x9e, n), []) <==> n == Bit(a != b)
    ensures Eval(c, ctx, Ask2(a, b, 0x9f, n), []) <==> n == Bit(a < b)
    ensures Eval(c, ctx, Ask2(a, b, 0xa0, n), []) <==> n == Bit(a > b)
    ensures Eval(c, ctx, Ask2(a, b, 0xa1, n), []) <==> n == Bit(a <= b)
    ensures Eval(c, ctx, Ask2(a, b, 0xa2, n), []) <==> n == Bit(a >= b)
  {
    hide Eval, Ask2;
    BinaryAsk(c, ctx, 0x9a, a, b, n);
    BinaryAsk(c, ctx, 0x9b, a, b, n);
    BinaryAsk(c, ctx, 0x9c, a, b, n);
    BinaryAsk(c, ctx, 0x9e, a, b, n);
    BinaryAsk(c, ctx, 0x9f, a, b, n);
    BinaryAsk(c, ctx, 0xa0, a, b, n);
    BinaryAsk(c, ctx, 0xa1, a, b, n);
    BinaryAsk(c, ctx, 0xa2, a, b, n);
  }

  /** OP_NUMEQUALVERIFY goes on, without its operands, exactly if they are equal. */
  lemma NumEqualVerify(c: Crypto, ctx: ScriptContext, s: Stack, alt: Stack, a: int, b: int)
    requires InRange(a) && InRange(b)
    ensures if a == b then Leads(c, ctx, 0x9d, s + [EncodeNum(a), EncodeNum(b)], alt, s, alt)
            else Aborts(c, ctx, 0x9d, s + [EncodeNum(a), EncodeNum(b)], alt)
  {
    hide DecodeNum, EncodeNum, InRange, Leads, Aborts;
    Decoded(a);
    Decoded(b);
    ExecDecides(c, ctx, 0x9d, s + [EncodeNum(a), EncodeNum(b)], alt);
    Below(s, EncodeNum(a), EncodeNum(b), []);
  }

  /** OP_WITHIN is true from `min` up to, not including, `max`. */
  lemma Within(c: Crypto, ctx: ScriptContext, s: Stack, alt: Stack, x: int, min: int, max: int)
    requires InRange(x) && InRange(min) && InRange(max)
    ensures Leads(c, ctx, 0xa5, s + [EncodeNum(x), EncodeNum(min), EncodeNum(max)], alt, s + [if min <= x < max then [1] else []], alt)
  {
    hide DecodeNum, EncodeNum, InRange, Leads, Aborts;
    Decoded(x);
    Decoded(min);
    Decoded(max);
    ExecDecides(c, ctx, 0xa5, s + [EncodeNum(x), EncodeNum(min), EncodeNum(max)], alt);
    Below(s, EncodeNum(x), EncodeNum(min), EncodeNum(max));
  }

  // ---- Operands without a value ----

  predicate IsNumber(item: Bytes) {
    DecodeNum(item, 4).Some?
  }

  /** Over-long and non-minimal operands fail the script. */
  lemma BadOperands(c: Crypto, ctx: ScriptContext, op: Byte, s: Stack, alt: Stack, x: Bytes, y: Bytes, z: Bytes)
    ensures IsUnary(op) && !IsNumber(x) ==> Aborts(c, ctx, op, s + [x], alt)
    ensures IsBinary(op) && !(IsNumber(x) && IsNumber(y)) ==> Aborts(c, ctx, op, s + [x, y], alt)
    ensures !(IsNumber(x) && IsNumber(y) && IsNumber(z)) ==> Aborts(c, ctx, 0xa5, s + [x, y, z], alt)
  {
    hide DecodeNum, EncodeNum, Leads, Aborts;
    if IsUnary(op) && !IsNumber(x) {
      ExecDecides(c, ctx, op, s + [x], alt);
    }
    if IsBinary(op) && !(IsNumber(x) && IsNumber(y)) {
      ExecDecides(c, ctx, op, s + [x, y], alt);
    }
    ExecDecides(c, ctx, 0xa5, s + [x, y, z], alt);
  }
}
