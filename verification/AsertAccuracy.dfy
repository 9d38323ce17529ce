/** How close the fixed-point target formula comes to the power of two it stands for (src/chain/consensus.ts). */
module AsertAccuracy {
  import opened Binary
  import opened Genesis
  import opened Asert

  // ---- The factor as a polynomial ----

  /** The cubic with its rounding constant, in 48-bit fixed point. */
  function Poly(f: int): int {
    65536 * 0x1_0000_0000_0000 + 0x8000_0000_0000 + 195766423245049 * f + 971821376 * (f * f) + 5127 * (f * f * f)
  }

  lemma FactorIsPoly(f: nat)
    ensures Factor(f) * 0x1_0000_0000_0000 <= Poly(f) < (Factor(f) + 1) * 0x1_0000_0000_0000
  {
    hide Times;
    TimesIsProduct(f, f);
    TimesIsProduct(f * f, f);
  }

  lemma PolyAt(f: int, v: int)
    requires v * 0x1_0000_0000_0000 <= Poly(f) < (v + 1) * 0x1_0000_0000_0000 && f >= 0
    ensures Factor(f) == v
  {
    FactorIsPoly(f);
    hide Factor, Poly;
  }

  // ---- 2^x times 2^(1-x) ----

  /** Sum and product of the two arguments determine the product of the two values. */
  function Product(t: int): int {
    var k, a, b, c, s := 65536 * 0x1_0000_0000_0000 + 0x8000_0000_0000, 195766423245049, 971821376, 5127, 65536;
    k * k + k * (a * s + b * (s * s - 2 * t) + c * (s * s * s - 3 * s * t))
    + a * a * t + a * b * s * t + a * c * (s * s * t - 2 * (t * t)) + b * b * (t * t) + b * c * s * (t * t) + c * c * (t * t * t)
  }

  lemma PowerSums(f: int, g: int)
    requires f + g == 65536
    ensures var t := f * g;
      && f * f + g * g == 65536 * 65536 - 2 * t
      && f * f * f + g * g * g == 65536 * 65536 * 65536 - 3 * 65536 * t
      && f * (g * g) + (f * f) * g == 65536 * t
      && f * (g * g * g) + (f * f * f) * g == 65536 * 65536 * t - 2 * (t * t)
      && (f * f) * (g * g) == t * t
      && (f * f) * (g * g * g) + (f * f * f) * (g * g) == 65536 * (t * t)
      && (f * f * f) * (g * g * g) == t * t * t
  {
    var t := f * g;
    assert (f + g) * (f + g) == f * f + 2 * t + g * g;
    assert f * (g * g) + (f * f) * g == t * (f + g);
    assert (f + g) * (f * f + g * g) == f * f * f + g * g * g + (f * (g * g) + (f * f) * g);
    assert f * (g * g * g) + (f * f * f) * g == t * (f * f + g * g);
    assert (f * f) * (g * g * g) + (f * f * f) * (g * g) == (t * t) * (f + g);
  }

  lemma Sixteen(k: int, x: int, x2: int, x3: int, y: int, y2: int, y3: int)
    ensures (k + x + x2 + x3) * (k + y + y2 + y3)
         == k * k + k * ((x + y) + (x2 + y2) + (x3 + y3)) + x * y + (x * y2 + x2 * y) + (x * y3 + x3 * y) + x2 * y2 + (x2 * y3 + x3 * y2) + x3 * y3
  {
    var t := k + y + y2 + y3;
    assert (k + x + x2 + x3) * t == k * t + x * t + x2 * t + x3 * t;
    assert x * t == x * k + x * y + x * y2 + x * y3;
    assert x2 * t == x2 * k + x2 * y + x2 * y2 + x2 * y3;
    assert x3 * t == x3 * k + x3 * y + x3 * y2 + x3 * y3;
  }

  lemma Pair(p: int, q: int, x: int, y: int, u: int, v: int)
    ensures (p * x) * (q * v) + (q * y) * (p * u) == p * q * (x * v + y * u)
  {
    assert (p * x) * (q * v) == p * q * (x * v);
    assert (q * y) * (p * u) == p * q * (y * u);
  }

  lemma Square2(p: int, x: int, y: int)
    ensures (p * x) * (p * y) == p * p * (x * y)
  {
  }

  lemma Spread(k: int, a: int, b: int, c: int, f: int, f2: int, f3: int, g: int, g2: int, g3: int)
    ensures (k + a * f + b * f2 + c * f3) * (k + a * g + b * g2 + c * g3)
         == k * k + k * (a * (f + g) + b * (f2 + g2) + c * (f3 + g3))
            + a * a * (f * g) + a * b * (f * g2 + f2 * g) + a * c * (f * g3 + f3 * g)
            + b * b * (f2 * g2) + b * c * (f2 * g3 + f3 * g2) + c * c * (f3 * g3)
  {
    Sixteen(k, a * f, b * f2, c * f3, a * g, b * g2, c * g3);
    Square2(a, f, g);
    Square2(b, f2, g2);
    Square2(c, f3, g3);
    Pair(a, b, f, f2, g, g2);
    Pair(a, c, f, f3, g, g3);
    Pair(b, c, f2, f3, g2, g3);
    assert a * f + a * g == a * (f + g) && b * f2 + b * g2 == b * (f2 + g2) && c * f3 + c * g3 == c * (f3 + g3);
  }

  lemma PolyProduct(f: int, g: int)
    requires f + g == 65536
    ensures Poly(f) * Poly(g) == Product(f * g)
  {
    PowerSums(f, g);
    Spread(65536 * 0x1_0000_0000_0000 + 0x8000_0000_0000, 195766423245049, 971821376, 5127, f, f * f, f * f * f, g, g * g, g * g * g);
  }

  /** A downward parabola stays below its vertex. */
  lemma Vertex(a: int, b: int, t: int)
    ensures 4 * b * (a * t - b * (t * t)) <= a * a
  {
    var d := a - 2 * b * t;
    assert d * d == a * a - 4 * b * (a * t - b * (t * t));
  }

  const UNIT := 0x1_0000_0000_0000
  const TWO_33 := 0x2_0000_0000

  /** The product in powers of the two arguments' product, the powers given as numbers of their own. */
  lemma {:induction false} ProductCoefficients(t: int, q: int, r: int)
    requires q == t * t && r == q * t
    ensures Product(t) == 680573766976346612220058129420259426304 + 654767120176159835388088881 * t
                          - 736417149332931998 * q + 26286129 * r
  {
  }

  lemma {:induction false} TimesAtMost(a: int, b: int, c: int)
    requires 0 <= a && 0 <= b <= c
    ensures 0 <= a * b <= a * c
  {
  }

  lemma {:induction false} Powers(t: int, q: int, r: int)
    requires 0 <= t <= 0x4000_0000 && q == t * t && r == q * t
    ensures 0 <= q <= 0x4000_0000 * t && 0 <= r <= 0x4000_0000 * q
  {
    TimesAtMost(t, t, 0x4000_0000);
    TimesAtMost(q, t, 0x4000_0000);
  }

  lemma {:induction false} LinearBounds(t: int, q: int, r: int, p: int)
    requires 0 <= t <= 0x4000_0000 && 0 <= q <= 0x4000_0000 * t && 0 <= r <= 0x4000_0000 * q
    requires 4 * 708192633234572702 * (654767120176159835388088881 * t - 708192633234572702 * q)
             <= 654767120176159835388088881 * 654767120176159835388088881
    requires p == 680573766976346612220058129420259426304 + 654767120176159835388088881 * t - 736417149332931998 * q + 26286129 * r
    ensures 4230 * (p - TWO_33 * UNIT * UNIT) <= TWO_33 * UNIT * UNIT
    ensures 4800 * (TWO_33 * UNIT * UNIT - p) <= TWO_33 * UNIT * UNIT
  {
  }

  lemma {:induction false} VertexAt(t: int, q: int)
    requires q == t * t
    ensures 4 * 708192633234572702 * (654767120176159835388088881 * t - 708192633234572702 * q)
            <= 654767120176159835388088881 * 654767120176159835388088881
  {
    Vertex(654767120176159835388088881, 708192633234572702, t);
  }

  // ---- The factor ----

  /** A value and its floor in 48-bit fixed point: the product of two floors is little less than that of the values. */
  lemma {:induction false} FloorProduct(x: int, y: int, v: int, u: int)
    requires 65536 <= v <= 131072 && 65536 <= u <= 131072
    requires v * UNIT <= x < (v + 1) * UNIT && u * UNIT <= y < (u + 1) * UNIT
    ensures (v * u) * (UNIT * UNIT) <= x * y < (v * u + v + u + 1) * (UNIT * UNIT)
  {
    var m := UNIT;
    assert (v * m) * (u * m) == (v * u) * (m * m);
    assert ((v + 1) * m) * ((u + 1) * m) == (v * u + v + u + 1) * (m * m);
    Ordered(v * m, x, (v + 1) * m, u * m, y, (u + 1) * m);
  }

  lemma {:induction false} Ordered(x0: int, x: int, x1: int, y0: int, y: int, y1: int)
    requires 0 < x0 <= x < x1 && 0 < y0 <= y < y1
    ensures x0 * y0 <= x * y < x1 * y1
  {
    assert x0 * y0 <= x * y0 <= x * y;
    assert x * y <= x * y1 < x1 * y1;
  }

  lemma {:induction false} ArgumentProduct(f: int, g: int)
    requires 0 < f && 0 < g && f + g == 65536
    ensures 0 <= f * g <= 0x4000_0000
  {
    var d := f - g;
    assert d * d == (f + g) * (f + g) - 4 * (f * g);
  }

  lemma {:induction false} Divided(p: int, v: int, u: int, whole: int)
    requires 65536 <= v <= 131072 && 65536 <= u <= 131072
    requires p * (UNIT * UNIT) <= whole < (p + v + u + 1) * (UNIT * UNIT)
    requires 4230 * (whole - TWO_33 * UNIT * UNIT) <= TWO_33 * UNIT * UNIT
    requires 4800 * (TWO_33 * UNIT * UNIT - whole) <= TWO_33 * UNIT * UNIT
    ensures 4096 * (p - TWO_33) <= TWO_33 && 4096 * (TWO_33 - p) <= TWO_33
  {
  }

  /**
   * The fixed-point 2^x times 2^(1-x) is 2 to within one part in 4096, at every one of the 65,535 fractions
   * between 0 and 1.
   */
  lemma {:induction false} FactorAccurate(f: nat)
    requires 0 < f < 65536
    ensures var p := Factor(f) * Factor(65536 - f);
      -TWO_33 <= 4096 * (p - TWO_33) <= TWO_33
  {
    hide Factor, Poly, Product;
    var g := 65536 - f;
    FactorIsPoly(f);
    FactorIsPoly(g);
    FactorMonotone(f, f);
    FactorMonotone(g, g);
    PolyProduct(f, g);
    ArgumentProduct(f, g);
    var t := f * g;
    ProductCoefficients(t, t * t, (t * t) * t);
    Powers(t, t * t, (t * t) * t);
    VertexAt(t, t * t);
    LinearBounds(t, t * t, (t * t) * t, Product(t));
    FloorProduct(Poly(f), Poly(g), Factor(f), Factor(g));
    Divided(Factor(f) * Factor(g), Factor(f), Factor(g), Product(f * g));
  }

  // ---- Sixteen points ----

  /** 2^(k/16) in 16-bit fixed point, as the formula has it. */
  const SIXTEENTHS: seq<nat> := [65536, 68444, 71475, 74637, 77938, 81384, 84984, 88745, 92674, 96779, 101068, 105547, 110225, 115109, 120207, 125525]

  lemma FactorAtSixteenths(k: nat)
    requires k < 16
    ensures Factor(4096 * k) == SIXTEENTHS[k]
  {
    hide Factor;
    PolyAt(4096 * k, SIXTEENTHS[k]);
  }

  function Sixteenth(v: nat): nat {
    var v2 := v * v;
    var v4 := v2 * v2;
    var v8 := v4 * v4;
    v8 * v8
  }

  /** 2^0 to 2^15. */
  const POWERS: seq<nat> := [1, 2, 4, 8, 16, 32, 64, 128, 256, 512, 1024, 2048, 4096, 8192, 16384, 32768]

  /** The sixteenth power of `v` is `p` in this fixed point, to within one part in 500. */
  predicate IsRoot(v: nat, p: nat) {
    var r, q := Sixteenth(v), p * TWO_256;
    -q <= 500 * (r - q) <= q
  }

  lemma LowerRoots()
    ensures IsRoot(65536, 1) && IsRoot(68444, 2) && IsRoot(71475, 4) && IsRoot(74637, 8)
    ensures IsRoot(77938, 16) && IsRoot(81384, 32) && IsRoot(84984, 64) && IsRoot(88745, 128)
  {
  }

  lemma UpperRoots()
    ensures IsRoot(92674, 256) && IsRoot(96779, 512) && IsRoot(101068, 1024) && IsRoot(105547, 2048)
    ensures IsRoot(110225, 4096) && IsRoot(115109, 8192) && IsRoot(120207, 16384) && IsRoot(125525, 32768)
  {
  }

  /** The formula at every sixteenth of an octave is the root of two it stands for. */
  lemma SixteenthsAreRoots(k: nat)
    requires k < 16
    ensures IsRoot(Factor(4096 * k), POWERS[k])
  {
    hide Factor, IsRoot;
    FactorAtSixteenths(k);
    LowerRoots();
    UpperRoots();
  }

  /**
   * No better than one part in 10,000, though: at fourteen sixteenths the factor, even cut by that much, is
   * above the root it stands for.
   */
  lemma FactorOffAtSevenEighths()
    ensures Sixteenth(Factor(57344) * 9999) > 16384 * Sixteenth(65536 * 10000)
  {
    hide Factor, Sixteenth;
    FactorAtSixteenths(14);
    AboveRoot();
  }

  lemma AboveRoot()
    ensures Sixteenth(120207 * 9999) > 16384 * Sixteenth(65536 * 10000)
  {
  }

  // ---- The target ----

  lemma EighthScaled(a: nat, j: nat)
    requires j < 8
    ensures Scaled(a, 8192 * j) == a * SIXTEENTHS[2 * j] / 65536
    ensures Scaled(a, 8192 * j - 65536) == a * SIXTEENTHS[2 * j] / 2 / 65536
  {
    hide Scaled, Factor, Times;
    FactorAtSixteenths(2 * j);
    ScaledSplit(a, 8192 * j);
    ScaledSplit(a, 8192 * j - 65536);
    TimesIsProduct(a, SIXTEENTHS[2 * j]);
    var x := a * SIXTEENTHS[2 * j];
    assert Shift(x, 0) == x && Shift(x, -1) == Shift(x / 2, 0) == x / 2;
  }

  /**
   * Eighths of a half-life behind or ahead of schedule: the target is the anchor's times the root of two,
   * halved on the early side, kept between 1 and the floor.
   */
  lemma TargetAtEighths(h: int, t: int, ah: int, at: int, a: nat, j: nat, early: bool)
    requires j < 8 && (t - at) - 150 * (h - ah) == 75 * j - (if early then 600 else 0)
    ensures var x := if early then a * SIXTEENTHS[2 * j] / 2 / 65536 else a * SIXTEENTHS[2 * j] / 65536;
      AsertTarget(h, t, ah, at, a) == if x < 1 then 1 else if x > FLOOR_TARGET then FLOOR_TARGET else x
  {
    hide Scaled;
    EighthScaled(a, j);
    assert Exponent(75 * j) == 8192 * j && Exponent(75 * j - 600) == 8192 * j - 65536;
  }
}
