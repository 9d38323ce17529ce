/** Compact difficulty encoding and the arithmetic helpers it needs (src/util/binary.ts). */
module Binary {

  const TWO_256: nat := 0x1_0000_0000_0000_0000_0000_0000_0000_0000_0000_0000_0000_0000_0000_0000_0000_0000

  /** The target a compact difficulty stands for: an exponent byte over a 24-bit mantissa. */
  function CompactToTarget(compact: int): nat {
    var exp := compact / 0x100_0000 % 256;
    var mant := compact % 0x100_0000;
    if exp <= 3 then ShiftRight(mant, 3 - exp) else ShiftLeft(mant, exp - 3)
  }

  /** `((exp & 0xff) << 24) | mant` on signed 32-bit integers. */
  function Pack(exp: nat, mant: nat): int {
    var e := exp % 256;
    (if e < 128 then e else e - 256) * 0x100_0000 + mant
  }

  /** `mant << 8e` */
  function ShiftLeft(mant: nat, e: nat): (r: nat) {
    if e == 0 then mant else 256 * ShiftLeft(mant, e - 1)
  }

  /** `mant >> 8e` */
  function ShiftRight(mant: nat, e: nat): nat {
    if e == 0 then mant else ShiftRight(mant / 256, e - 1)
  }

  /**
   * A target in scientific notation, base 256, with a mantissa below 2^23:
   * the least exponent whose truncated quotient fits.
   */
  datatype Scientific = Scientific(exp: nat, mant: nat)

  function Normalize(t: nat): (n: Scientific) {
    if t < 0x80_0000 then Scientific(0, t)
    else var n := Normalize(t / 256); Scientific(n.exp + 1, n.mant)
  }

  /** The specification of `targetToCompact`. */
  function Compact(target: int): int {
    if target <= 0 then 0
    else
      var n := Normalize(target);
      Pack(n.exp + 3, n.mant)
  }

  /** `targetToCompact` as written: shift bytes out, then once more if the sign bit is set. */
  method TargetToCompact(target: int) returns (c: int)
    ensures c == Compact(target)
  {
    if target <= 0 {
      return 0;
    }
    var exp, t := 0, target;
    while t > 0xff_ffff
      invariant t > 0
      invariant Normalize(target) == Scientific(exp + Normalize(t).exp, Normalize(t).mant)
    {
      t := t / 256;
      exp := exp + 1;
    }
    var mant := t;
    exp := exp + 3;
    if mant >= 0x80_0000 {
      assert Normalize(mant / 256) == Scientific(0, mant / 256);
      mant := mant / 256;
      exp := exp + 1;
    }
    c := Pack(exp, mant % 0x100_0000);
  }

  /** What the normal form denotes: the mantissa brackets `t`, and is full unless the exponent is 0. */
  lemma {:induction false} NormalizeBrackets(t: nat)
    ensures var n := Normalize(t);
      && n.mant < 0x80_0000
      && ShiftLeft(n.mant, n.exp) <= t < ShiftLeft(n.mant, n.exp) + ShiftLeft(1, n.exp)
      && (n.exp > 0 ==> n.mant >= 0x8000)
  {
    if t >= 0x80_0000 {
      NormalizeBrackets(t / 256);
    }
  }

  lemma {:induction false} NormalizeExact(exp: nat, mant: nat)
    requires mant < 0x80_0000
    requires exp > 0 ==> mant >= 0x8000
    ensures Normalize(ShiftLeft(mant, exp)) == Scientific(exp, mant)
  {
    if exp > 0 {
      ShiftLeftGrows(mant, 0, exp - 1);
      NormalizeExact(exp - 1, mant);
    }
  }

  lemma {:induction false} ShiftLeftGrows(m: nat, e: nat, e': nat)
    requires e <= e'
    ensures ShiftLeft(m, e) <= ShiftLeft(m, e')
  {
    if e < e' {
      ShiftLeftGrows(m, e, e' - 1);
    }
  }

  lemma {:induction false} ShiftLeftCompose(m: nat, a: nat, b: nat)
    ensures ShiftLeft(ShiftLeft(m, a), b) == ShiftLeft(m, a + b)
  {
    if b > 0 {
      ShiftLeftCompose(m, a, b - 1);
    }
  }

  lemma TwoTo256()
    ensures ShiftLeft(1, 32) == TWO_256
  {
    assert ShiftLeft(1, 12) == 0x1000000000000000000000000;
    assert ShiftLeft(0x1000000000000000000000000, 12) == 0x1000000000000000000000000000000000000000000000000;
    assert ShiftLeft(0x1000000000000000000000000000000000000000000000000, 8) == TWO_256;
    ShiftLeftCompose(0x1000000000000000000000000, 12, 8);
    ShiftLeftCompose(1, 12, 20);
  }

  /** `k` mantissa units outweigh what is below them. */
  lemma {:induction false} ShiftLeftScales(m: nat, k: nat, e: nat)
    ensures k <= m ==> ShiftLeft(k, e) <= ShiftLeft(m, e)
    ensures ShiftLeft(m, e) == m * ShiftLeft(1, e)
  {
    if e > 0 {
      ShiftLeftScales(m, k, e - 1);
    }
  }

  lemma {:induction false} NormalizeMonotone(t: nat, t': nat)
    requires t <= t'
    ensures var n, n' := Normalize(t), Normalize(t');
      n.exp < n'.exp || (n.exp == n'.exp && n.mant <= n'.mant)
    decreases t'
  {
    if t' >= 0x80_0000 && t >= 0x80_0000 {
      NormalizeMonotone(t / 256, t' / 256);
    }
  }

  lemma {:induction false} NormalizeBound(t: nat, k: nat)
    requires t < ShiftLeft(1, k)
    ensures Normalize(t).exp <= k
    decreases k
  {
    if t >= 0x80_0000 {
      NormalizeBound(t / 256, k - 1);
    }
  }

  /** A 256-bit target, the range proof of work is measured in. */
  ghost predicate Is256Bit(t: int) {
    0 <= t < TWO_256
  }

  lemma CompactFields(exp: nat, mant: nat)
    requires 3 <= exp < 128 && mant < 0x100_0000
    ensures Pack(exp, mant) == exp * 0x100_0000 + mant
    ensures CompactToTarget(Pack(exp, mant)) == ShiftLeft(mant, exp - 3)
  {
    var u := exp * 0x100_0000 + mant;
    assert u / 0x100_0000 == exp && u % 0x100_0000 == mant;
  }

  /** The 32-bit layout of a compact: exponent byte, then the mantissa. */
  lemma CompactLayout(t: int)
    requires Is256Bit(t)
    ensures t > 0 ==> Compact(t) == (Normalize(t).exp + 3) * 0x100_0000 + Normalize(t).mant
    ensures CompactToTarget(Compact(t)) == ShiftLeft(Normalize(t).mant, Normalize(t).exp)
  {
    if t == 0 {
      assert CompactToTarget(0) == 0;
    } else {
      hide Pack, CompactToTarget;
      var n := Normalize(t);
      assert n.exp <= 32 by {
        TwoTo256();
        NormalizeBound(t, 32);
      }
      assert n.mant < 0x80_0000 by {
        NormalizeBrackets(t);
      }
      CompactFields(n.exp + 3, n.mant);
    }
  }

  /** Encoding rounds down, by less than one part in 2^15, and never to zero. */
  lemma CompactRoundsDown(t: int)
    requires Is256Bit(t) && t > 0
    ensures var r := CompactToTarget(Compact(t));
      0 < r <= t && (t - r) * 0x8000 < t
  {
    CompactLayout(t);
    NormalizeBrackets(t);
    var n := Normalize(t);
    ShiftLeftGrows(n.mant, 0, n.exp);
    ShiftLeftScales(n.mant, 0x8000, n.exp);
    ShiftLeftScales(0x8000, 0, n.exp);
  }

  /** Encoding preserves the order of targets, both as numbers on the wire and after decoding. */
  lemma CompactMonotone(t: int, t': int)
    requires Is256Bit(t) && Is256Bit(t') && t <= t'
    ensures Compact(t) <= Compact(t')
    ensures CompactToTarget(Compact(t)) <= CompactToTarget(Compact(t'))
  {
    CompactLayout(t);
    CompactLayout(t');
    NormalizeMonotone(t, t');
    NormalizeBrackets(t);
    NormalizeBrackets(t');
    var n, n' := Normalize(t), Normalize(t');
    if n.exp == n'.exp {
      ShiftLeftScales(n'.mant, n.mant, n.exp);
    } else {
      // One more byte of exponent outweighs any mantissa of the smaller target.
      ShiftLeftScales(0x80_0000, n.mant, n.exp);
      assert ShiftLeft(0x80_0000, n.exp) == ShiftLeft(0x8000, n.exp + 1) by {
        ShiftLeftScales(0x80_0000, 0, n.exp);
        ShiftLeftScales(0x8000, 0, n.exp);
      }
      ShiftLeftGrows(0x8000, n.exp + 1, n'.exp);
      ShiftLeftScales(n'.mant, 0x8000, n'.exp);
    }
  }

  /** A compact is canonical when it is the encoding of its own target. */
  predicate Canonical(compact: int) {
    Compact(CompactToTarget(compact)) == compact
  }

  /** Every encoding of a 256-bit target is canonical: one rounding loses all there is to lose. */
  lemma CompactIdempotent(t: int)
    requires Is256Bit(t)
    ensures Canonical(Compact(t))
  {
    if t == 0 {
      assert CompactToTarget(0) == 0;
    } else {
      hide Pack, CompactToTarget;
      CompactLayout(t);
      NormalizeBrackets(t);
      var n := Normalize(t);
      NormalizeExact(n.exp, n.mant);
      ShiftLeftGrows(n.mant, 0, n.exp);
    }
  }
}
