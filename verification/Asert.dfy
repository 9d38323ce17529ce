/** The ASERT target formula in exact integer arithmetic (src/chain/consensus.ts). */
module Asert {
  import opened Binary
  import opened Genesis

  /** 2^249, the easiest target: what the genesis difficulty stands for. */
  const FLOOR_TARGET: nat := 0x2_0000_0000_0000_0000_0000_0000_0000_0000_0000_0000_0000_0000_0000_0000_0000_00

  lemma FloorIsGenesisTarget()
    ensures CompactToTarget(GENESIS_DIFFICULTY_COMPACT) == FLOOR_TARGET == ShiftLeft(0x2_0000, 29)
  {
    assert ShiftLeft(0x2_0000, 10) == 0x2000000000000000000000000;
    assert ShiftLeft(0x2000000000000000000000000, 10) == 0x200000000000000000000000000000000000000000000;
    assert ShiftLeft(0x200000000000000000000000000000000000000000000, 9) == FLOOR_TARGET;
    ShiftLeftCompose(0x2000000000000000000000000, 10, 9);
    ShiftLeftCompose(0x2_0000, 10, 19);
    assert CompactToTarget(0x2002_0000) == ShiftLeft(0x2_0000, 29) by {
      hide ShiftLeft;
    }
  }

  /** JavaScript BigInt division and remainder: both truncate toward zero. */
  function TruncDiv(a: int, b: int): int
    requires b > 0
  {
    if a >= 0 then a / b else -(-a / b)
  }

  function TruncMod(a: int, b: int): (r: int)
    requires b > 0
    ensures -b < r < b && (a >= 0 ==> r >= 0)
  {
    a - TruncDiv(a, b) * b
  }

  /** `x << s`, or `x >> -s` for a negative `s`, one bit at a time. */
  function Shift(x: nat, s: int): nat
    decreases if s < 0 then -s else s
  {
    if s == 0 then x
    else if s > 0 then Shift(2 * x, s - 1)
    else Shift(x / 2, s + 1)
  }

  /** The cubic in 2^(frac/65536), before the fixed-point shift. */
  function Cubic(frac: nat): nat {
    195766423245049 * frac + 971821376 * Square(frac) + 5127 * Cube(frac) + 0x8000_0000_0000
  }

  /** The product of two unknowns, as repeated addition; `TimesIsProduct` is its meaning. */
  function Times(a: nat, b: nat): nat {
    if b == 0 then 0 else Times(a, b - 1) + a
  }

  function Square(n: nat): nat {
    Times(n, n)
  }

  function Cube(n: nat): nat {
    Times(Square(n), n)
  }

  /** 2^(frac/65536) as 16-bit fixed point. */
  function Factor(frac: nat): nat {
    65536 + Cubic(frac) / 0x1_0000_0000_0000
  }

  /** How far the chain is behind its schedule, as a 16-bit fixed-point count of half-lives. */
  function Exponent(drift: int): int {
    TruncDiv(drift * 65536, HALFLIFE_S)
  }

  /** `anchorTarget * 2^(exponent/65536)` before the clamp. */
  function Scaled(anchorTarget: nat, exponent: int): nat {
    var shifts := exponent / 65536;
    var frac := TruncMod(TruncMod(exponent, 65536) + 65536, 65536);
    // A remainder is below its modulus, so the carry branch of the code never fires.
    var shifts, frac := if frac >= 65536 then shifts + 1 else shifts, if frac >= 65536 then frac - 65536 else frac;
    Shift(Times(anchorTarget, Factor(frac)), shifts) / 65536
  }

  function Clamp(target: int): (r: nat)
    ensures 1 <= r <= FLOOR_TARGET
  {
    var t := if target <= 0 then 1 else target;
    if t > FLOOR_TARGET then FLOOR_TARGET else t
  }

  function Drift(parentHeight: int, parentTime: int, anchorHeight: int, anchorTime: int): int {
    (parentTime - anchorTime) - (parentHeight - anchorHeight) * TARGET_BLOCK_TIME_S
  }

  function AsertTarget(parentHeight: int, parentTime: int, anchorHeight: int, anchorTime: int, anchorTarget: nat): nat {
    Clamp(Scaled(anchorTarget, Exponent(Drift(parentHeight, parentTime, anchorHeight, anchorTime))))
  }

  /** `asertTarget` as written, reassigning the shift count, the fraction and the target. */
  method ComputeAsertTarget(parentHeight: int, parentTime: int, anchorHeight: int, anchorTime: int, anchorTarget: nat)
    returns (target: int)
    ensures target == AsertTarget(parentHeight, parentTime, anchorHeight, anchorTime, anchorTarget)
    ensures 1 <= target <= FLOOR_TARGET
  {
    hide Shift, Factor, TruncDiv, Times;
    var heightDiff, timeDiff := parentHeight - anchorHeight, parentTime - anchorTime;
    var exponent := TruncDiv((timeDiff - heightDiff * TARGET_BLOCK_TIME_S) * 65536, HALFLIFE_S);
    var shifts := exponent / 65536;
    var frac := TruncMod(TruncMod(exponent, 65536) + 65536, 65536);
    if frac >= 65536 {
      frac := frac - 65536;
      shifts := shifts + 1;
    }
    TimesIsProduct(anchorTarget, Factor(frac));
    target := Shift(anchorTarget * Factor(frac), shifts);
    target := target / 65536;
    if target <= 0 {
      target := 1;
    }
    if target > FLOOR_TARGET {
      target := FLOOR_TARGET;
    }
  }

  lemma {:induction false} ShiftMonotone(x: nat, y: nat, s: int)
    requires x <= y
    ensures Shift(x, s) <= Shift(y, s)
    decreases if s < 0 then -s else s
  {
    if s > 0 {
      ShiftMonotone(2 * x, 2 * y, s - 1);
    } else if s < 0 {
      ShiftMonotone(x / 2, y / 2, s + 1);
    }
  }

  lemma {:induction false} ShiftGrows(x: nat, s: int, s': int)
    requires s <= s'
    ensures Shift(x, s) <= Shift(x, s')
    decreases s' - s
  {
    if s < s' {
      ShiftMonotone(x, 2 * x, s);
      assert Shift(2 * x, s) == Shift(x, s + 1);
      ShiftGrows(x, s + 1, s');
    }
  }

  lemma {:induction false} TimesIsProduct(a: nat, b: nat)
    ensures Times(a, b) == a * b
  {
    if b > 0 {
      TimesIsProduct(a, b - 1);
      assert a * (b - 1) + a == a * b;
    }
  }

  lemma {:induction false} TimesMonotone(a: nat, b: nat, c: nat, d: nat)
    requires a <= c && b <= d
    ensures Times(a, b) <= Times(c, d)
    decreases d
  {
    if b < d {
      TimesMonotone(a, b, c, d - 1);
    } else if d > 0 {
      TimesMonotone(a, b - 1, c, d - 1);
    }
  }

  lemma PowersMonotone(f: nat, g: nat)
    requires f <= g
    ensures Square(f) <= Square(g) && Cube(f) <= Cube(g)
  {
    hide Times;
    TimesMonotone(f, f, g, g);
    TimesMonotone(Square(f), f, Square(g), g);
  }

  lemma CubicMonotone(f: nat, g: nat)
    requires f <= g
    ensures Cubic(f) <= Cubic(g)
  {
    PowersMonotone(f, g);
    hide Square, Cube;
  }

  lemma CubicEnds()
    ensures Cubic(0) == 0x8000_0000_0000 && Cubic(65535) < 0x1_0000_0000_0000 * 65537
  {
    hide Times;
    TimesIsProduct(0, 0);
    TimesIsProduct(65535, 65535);
    TimesIsProduct(65535 * 65535, 65535);
  }

  /** The approximation rises on [0, 65536) and stays below the next octave's first value. */
  lemma FactorMonotone(f: nat, g: nat)
    requires f <= g < 65536
    ensures Factor(0) == 65536 <= Factor(f) <= Factor(g) <= 2 * Factor(0)
  {
    hide Cubic;
    CubicEnds();
    CubicMonotone(f, g);
    CubicMonotone(0, f);
    CubicMonotone(g, 65535);
  }

  /** The two truncating remainders amount to a floor split of the exponent. */
  lemma ScaledSplit(a: nat, e: int)
    ensures Scaled(a, e) == Shift(Times(a, Factor(e % 65536)), e / 65536) / 65536
  {
    hide Times, Factor, Shift;
    assert TruncMod(TruncMod(e, 65536) + 65536, 65536) == e % 65536;
  }

  /** No step down anywhere, including where the fraction wraps from 65535 to 0. */
  lemma ScaledMonotone(a: nat, e: int, e': int)
    requires e <= e'
    ensures Scaled(a, e) <= Scaled(a, e')
  {
    hide Scaled, Factor, Times;
    ScaledSplit(a, e);
    ScaledSplit(a, e');
    var s, s' := e / 65536, e' / 65536;
    var f, f' := Factor(e % 65536), Factor(e' % 65536);
    if s == s' {
      FactorMonotone(e % 65536, e' % 65536);
      TimesMonotone(a, f, a, f');
      ShiftMonotone(Times(a, f), Times(a, f'), s);
    } else {
      FactorMonotone(e % 65536, e % 65536);
      FactorMonotone(e' % 65536, e' % 65536);
      TimesMonotone(a, f, a, 131072);
      TimesIsProduct(a, 131072);
      TimesMonotone(a, 65536, a, f');
      TimesIsProduct(a, 65536);
      ShiftMonotone(Times(a, f), 2 * (a * 65536), s);
      assert Shift(2 * (a * 65536), s) <= Shift(a * 65536, s + 1) by { ShiftUp(a * 65536, s); }
      hide Shift;
      ShiftGrows(a * 65536, s + 1, s');
      ShiftMonotone(a * 65536, Times(a, f'), s');
    }
  }

  lemma ShiftUp(x: nat, s: int)
    ensures Shift(2 * x, s) <= Shift(x, s + 1)
  {
  }

  lemma ExponentMonotone(d: int, d': int)
    requires d <= d'
    ensures Exponent(d) <= Exponent(d')
  {
  }

  /**
   * The next target never rises when the parent is earlier or higher:
   * later blocks ease difficulty, extra blocks tighten it.
   */
  lemma AsertMonotone(h: int, t: int, h': int, t': int, ah: int, at: int, a: nat)
    requires t <= t' && h >= h'
    ensures AsertTarget(h, t, ah, at, a) <= AsertTarget(h', t', ah, at, a)
  {
    var d, d' := Drift(h, t, ah, at), Drift(h', t', ah, at);
    ExponentMonotone(d, d');
    ScaledMonotone(a, Exponent(d), Exponent(d'));
  }

  /** On schedule, the anchor's target is a fixed point. */
  lemma AsertZeroDrift(h: int, t: int, ah: int, at: int, a: nat)
    requires 1 <= a <= FLOOR_TARGET
    requires Drift(h, t, ah, at) == 0
    ensures AsertTarget(h, t, ah, at, a) == a
  {
    hide Scaled, Factor, Times;
    ScaledSplit(a, 0);
    FactorMonotone(0, 0);
    TimesIsProduct(a, Factor(0));
    assert Exponent(0) == 0;
  }

  lemma {:induction false} ShiftDoubles(x: nat, s: int)
    ensures 2 * Shift(x, s) <= Shift(x, s + 1) <= 2 * Shift(x, s) + (if s < 0 then 1 else 0)
    decreases if s < 0 then -s else s
  {
    if s > 0 {
      ShiftDoubles(2 * x, s - 1);
    } else if s < -1 {
      ShiftDoubles(x / 2, s + 1);
    }
  }

  lemma ExponentShift(d: int)
    ensures d >= 0 || d <= -HALFLIFE_S ==> Exponent(d + HALFLIFE_S) == Exponent(d) + 65536
    ensures Exponent(d) + 65535 <= Exponent(d + HALFLIFE_S) <= Exponent(d) + 65536
  {
  }

  lemma OctaveDoubles(a: nat, e: int)
    ensures 2 * Scaled(a, e) <= Scaled(a, e + 65536) <= 2 * Scaled(a, e) + 1
  {
    hide Scaled, Factor, Times;
    ScaledSplit(a, e);
    ScaledSplit(a, e + 65536);
    assert (e + 65536) / 65536 == e / 65536 + 1 && (e + 65536) % 65536 == e % 65536;
    ShiftDoubles(Times(a, Factor(e % 65536)), e / 65536);
  }

  /**
   * One half-life of extra drift doubles the unclamped target, up to the last unit. Where truncation toward
   * zero loses a step, between half a life early and on time, it is one step of the exponent.
   */
  lemma HalfLifeDoubles(a: nat, d: int)
    ensures var r, r' := Scaled(a, Exponent(d)), Scaled(a, Exponent(d + HALFLIFE_S));
      && 2 * Scaled(a, Exponent(d) - 1) <= r' <= 2 * r + 1
      && (d >= 0 || d <= -HALFLIFE_S ==> 2 * r <= r')
  {
    hide Scaled;
    var e := Exponent(d);
    ExponentShift(d);
    hide Exponent;
    OctaveDoubles(a, e);
    OctaveDoubles(a, e - 1);
    var e' := Exponent(d + HALFLIFE_S);
    ScaledMonotone(a, e - 1 + 65536, e');
    ScaledMonotone(a, e', e + 65536);
  }
}
