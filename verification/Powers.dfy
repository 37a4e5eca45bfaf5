/**
 Powers, and how close powers of two and of ten come to each other.
 */
module Powers {
  function Pow(b: nat, e: nat): (p: nat)
    ensures b > 0 ==> p > 0
  {
    if e == 0 then 1 else b * Pow(b, e - 1)
  }

  lemma {:induction false} MulMono(a: nat, b: nat, c: nat, d: nat)
    requires a <= b && c <= d
    ensures a * c <= b * d
    ensures a < b && 0 < c ==> a * c < b * d
  {
    assert b * d - a * c == (b - a) * c + b * (d - c);
  }

  lemma {:induction false} MulAssoc(a: nat, b: nat, c: nat)
    ensures a * (b * c) == (a * b) * c
  {
  }

  lemma {:induction false} PowAdd(b: nat, m: nat, n: nat)
    ensures Pow(b, m + n) == Pow(b, m) * Pow(b, n)
  {
    var q := Pow(b, n);
    if m > 0 {
      var p := Pow(b, m - 1);
      PowAdd(b, m - 1, n);
      MulAssoc(b, p, q);
      assert Pow(b, m) == b * p;
      assert Pow(b, m + n) == b * Pow(b, m - 1 + n);
    }
  }

  lemma {:induction false} PowTimes(b: nat, m: nat, n: nat)
    ensures Pow(b, m * n) == Pow(Pow(b, m), n)
  {
    if n > 0 {
      PowTimes(b, m, n - 1);
      PowAdd(b, m, m * (n - 1));
      assert m * n == m + m * (n - 1);
    }
  }

  /** Powers grow with the base. */
  lemma {:induction false} PowBase(a: nat, b: nat, e: nat)
    requires 0 < a <= b
    ensures Pow(a, e) <= Pow(b, e)
    ensures a < b && e > 0 ==> Pow(a, e) < Pow(b, e)
  {
    if e > 0 {
      PowBase(a, b, e - 1);
      MulMono(a, b, Pow(a, e - 1), Pow(b, e - 1));
    }
  }

  /** And with the exponent. */
  lemma {:induction false} PowExponent(b: nat, m: nat, n: nat)
    requires b > 1 && m < n
    ensures Pow(b, m) < Pow(b, n)
  {
    MulMono(1, b, Pow(b, n - 1), Pow(b, n - 1));
    if m < n - 1 { PowExponent(b, m, n - 1); }
  }

  // ------------------------------------------------------------------ approximations

  /** Stands for mantissa * 10^tens, beside 2^exp. */
  datatype Approx = Approx(exp: nat, mantissa: nat, tens: nat)

  function Value(a: Approx): nat {
    a.mantissa * Pow(10, a.tens)
  }

  /** One doubling of the exponent, one more when odd, dropping so many digits of the mantissa. */
  datatype Doubling = Doubling(odd: bool, drop: nat, scale: nat)

  function Doubled(a: Approx, d: Doubling, up: bool): Approx
    requires d.scale > 0
  {
    var m := a.mantissa * a.mantissa * (if d.odd then 2 else 1);
    Approx(2 * a.exp + (if d.odd then 1 else 0), m / d.scale + (if up then 1 else 0), 2 * a.tens + d.drop)
  }

  /** Whether a stands above, or below, the power of two beside it. */
  predicate Bounds(a: Approx, up: bool) {
    if up then Pow(2, a.exp) <= Value(a) else Value(a) <= Pow(2, a.exp)
  }

  lemma {:induction false} Rounded(m: nat, scale: nat, rest: nat)
    requires scale > 0
    ensures (m / scale) * (scale * rest) <= m * rest <= (m / scale + 1) * (scale * rest)
  {
    var q := m / scale;
    MulMono(q * scale, m, rest, rest);
    MulMono(m, (q + 1) * scale, rest, rest);
    assert q * (scale * rest) == q * scale * rest;
    assert (q + 1) * (scale * rest) == (q + 1) * scale * rest;
  }

  lemma {:induction false} SquaredProduct(m: nat, t: nat, f: nat)
    ensures (m * t) * (m * t) * f == (m * m * f) * (t * t)
  {
    assert (m * t) * (m * t) == (m * m) * (t * t);
    var x, y := m * m, t * t;
    assert x * y * f == x * f * y;
  }

  /** Doubling keeps a bound a bound. */
  lemma {:induction false} DoubledBounds(a: Approx, d: Doubling, up: bool)
    requires Bounds(a, up) && d.scale == Pow(10, d.drop)
    ensures Bounds(Doubled(a, d, up), up)
  {
    var p, v, t := Pow(2, a.exp), Value(a), Pow(10, a.tens);
    var f := if d.odd then 2 else 1;
    var m := a.mantissa * a.mantissa * f;
    var r := Doubled(a, d, up);
    PowAdd(2, a.exp, a.exp);
    assert Pow(2, r.exp) == p * p * f;
    PowAdd(10, a.tens, a.tens);
    PowAdd(10, 2 * a.tens, d.drop);
    assert Pow(10, r.tens) == (t * t) * d.scale == d.scale * (t * t);
    SquaredProduct(a.mantissa, t, f);
    Rounded(m, d.scale, t * t);
    if up {
      MulMono(p, v, p, v);
      MulMono(p * p, v * v, f, f);
    } else {
      MulMono(v, p, v, p);
      MulMono(v * v, p * p, f, f);
    }
  }

  predicate Scaled(ds: seq<Doubling>) {
    forall i :: 0 <= i < |ds| ==> ds[i].scale == Pow(10, ds[i].drop)
  }

  /** A start, doubled along the first n of a list. */
  function Chain(start: Approx, ds: seq<Doubling>, n: nat, up: bool): Approx
    requires n <= |ds| && forall i :: 0 <= i < |ds| ==> ds[i].scale > 0
  {
    if n == 0 then start else Doubled(Chain(start, ds, n - 1, up), ds[n - 1], up)
  }

  lemma {:induction false} ChainBounds(start: Approx, ds: seq<Doubling>, n: nat, up: bool)
    requires Bounds(start, up) && n <= |ds| && Scaled(ds)
    ensures Bounds(Chain(start, ds, n, up), up)
  {
    if n > 0 {
      ChainBounds(start, ds, n - 1, up);
      DoubledBounds(Chain(start, ds, n - 1, up), ds[n - 1], up);
    }
  }

  /** A bound raised to a power, once its mantissa is rounded to a power of ten. */
  lemma {:induction false} RaisedAbove(a: Approx, digits: nat, n: nat)
    requires Bounds(a, true) && a.mantissa <= Pow(10, digits)
    ensures Pow(2, a.exp * n) <= Pow(10, (a.tens + digits) * n)
  {
    PowAdd(10, digits, a.tens);
    PowTimes(2, a.exp, n);
    PowTimes(10, a.tens + digits, n);
    MulMono(a.mantissa, Pow(10, digits), Pow(10, a.tens), Pow(10, a.tens));
    PowBase(Pow(2, a.exp), Pow(10, a.tens + digits), n);
  }

  lemma {:induction false} RaisedBelow(a: Approx, digits: nat, n: nat)
    requires Bounds(a, false) && a.mantissa >= Pow(10, digits)
    ensures Pow(10, (a.tens + digits) * n) <= Pow(2, a.exp * n)
  {
    PowAdd(10, digits, a.tens);
    PowTimes(2, a.exp, n);
    PowTimes(10, a.tens + digits, n);
    MulMono(Pow(10, digits), a.mantissa, Pow(10, a.tens), Pow(10, a.tens));
    PowBase(Pow(10, a.tens + digits), Pow(2, a.exp), n);
  }

  // ------------------------------------------------------------------ 2^100000 below 10^30103

  const UPPER_START: Approx := Approx(24, 16_777_216, 0)
  const UPPER_STEPS: seq<Doubling> :=
    [Doubling(false, 1, 10), Doubling(true, 14, 100_000_000_000_000), Doubling(true, 13, 10_000_000_000_000),
     Doubling(false, 14, 100_000_000_000_000), Doubling(true, 14, 100_000_000_000_000), Doubling(false, 13, 10_000_000_000_000),
     Doubling(true, 13, 10_000_000_000_000), Doubling(false, 14, 100_000_000_000_000), Doubling(false, 13, 10_000_000_000_000),
     Doubling(false, 14, 100_000_000_000_000), Doubling(false, 14, 100_000_000_000_000), Doubling(false, 13, 10_000_000_000_000)]

  const LOWER_START: Approx := Approx(34, 17_179_869_184, 0)
  const LOWER_STEPS: seq<Doubling> :=
    [Doubling(true, 7, 10_000_000), Doubling(false, 14, 100_000_000_000_000), Doubling(false, 14, 100_000_000_000_000),
     Doubling(false, 13, 10_000_000_000_000), Doubling(true, 13, 10_000_000_000_000), Doubling(true, 14, 100_000_000_000_000),
     Doubling(true, 14, 100_000_000_000_000), Doubling(true, 14, 100_000_000_000_000), Doubling(false, 13, 10_000_000_000_000),
     Doubling(false, 13, 10_000_000_000_000), Doubling(true, 15, 1_000_000_000_000_000)]

  lemma {:induction false} UpperValue()
    ensures Chain(UPPER_START, UPPER_STEPS, 12, true) == Approx(100000, 99_900_209_311_255, 30089)
  {
    assert Chain(UPPER_START, UPPER_STEPS, 1, true) == Approx(48, 28_147_497_671_066, 1);
    assert Chain(UPPER_START, UPPER_STEPS, 2, true) == Approx(97, 15_845_632_502_854, 16);
    assert Chain(UPPER_START, UPPER_STEPS, 3, true) == Approx(195, 50_216_813_883_101, 45);
    assert Chain(UPPER_START, UPPER_STEPS, 4, true) == Approx(390, 25_217_283_965_701, 104);
    assert Chain(UPPER_START, UPPER_STEPS, 5, true) == Approx(781, 12_718_228_212_137, 222);
    assert Chain(UPPER_START, UPPER_STEPS, 6, true) == Approx(1562, 16_175_332_885_600, 457);
    assert Chain(UPPER_START, UPPER_STEPS, 7, true) == Approx(3125, 52_328_278_791_995, 927);
    assert Chain(UPPER_START, UPPER_STEPS, 8, true) == Approx(6250, 27_382_487_613_328, 1868);
    assert Chain(UPPER_START, UPPER_STEPS, 9, true) == Approx(12500, 74_980_062_789_407, 3749);
    assert Chain(UPPER_START, UPPER_STEPS, 10, true) == Approx(25000, 56_220_098_159_035, 7512);
    assert Chain(UPPER_START, UPPER_STEPS, 11, true) == Approx(50000, 31_606_994_370_116, 15038);
    assert Chain(UPPER_START, UPPER_STEPS, 12, true) == Approx(100000, 99_900_209_311_255, 30089);
  }

  lemma {:induction false} LowerValue()
    ensures Chain(LOWER_START, LOWER_STEPS, 11, false) == Approx(70777, 10_000_071_601_163, 21293)
  {
    assert Chain(LOWER_START, LOWER_STEPS, 1, false) == Approx(69, 59_029_581_035_870, 7);
    assert Chain(LOWER_START, LOWER_STEPS, 2, false) == Approx(138, 34_844_914_372_703, 28);
    assert Chain(LOWER_START, LOWER_STEPS, 3, false) == Approx(276, 12_141_680_576_410, 70);
    assert Chain(LOWER_START, LOWER_STEPS, 4, false) == Approx(552, 14_742_040_721_957, 153);
    assert Chain(LOWER_START, LOWER_STEPS, 5, false) == Approx(1105, 43_465_552_929_567, 319);
    assert Chain(LOWER_START, LOWER_STEPS, 6, false) == Approx(2211, 37_785_085_829_459, 652);
    assert Chain(LOWER_START, LOWER_STEPS, 7, false) == Approx(4423, 28_554_254_222_791, 1318);
    assert Chain(LOWER_START, LOWER_STEPS, 8, false) == Approx(8847, 16_306_908_684_395, 2650);
    assert Chain(LOWER_START, LOWER_STEPS, 9, false) == Approx(17694, 26_591_527_084_119, 5313);
    assert Chain(LOWER_START, LOWER_STEPS, 10, false) == Approx(35388, 70_710_931_266_543, 10639);
    assert Chain(LOWER_START, LOWER_STEPS, 11, false) == Approx(70777, 10_000_071_601_163, 21293);
  }

  lemma {:induction false} AboveRaised(start: Approx, ds: seq<Doubling>, digits: nat, n: nat)
    requires Bounds(start, true) && Scaled(ds)
    requires Chain(start, ds, |ds|, true).mantissa <= Pow(10, digits)
    ensures var a := Chain(start, ds, |ds|, true); Pow(2, a.exp * n) <= Pow(10, (a.tens + digits) * n)
  {
    ChainBounds(start, ds, |ds|, true);
    RaisedAbove(Chain(start, ds, |ds|, true), digits, n);
  }

  lemma {:induction false} BelowRaised(start: Approx, ds: seq<Doubling>, digits: nat, n: nat)
    requires Bounds(start, false) && Scaled(ds)
    requires Chain(start, ds, |ds|, false).mantissa >= Pow(10, digits)
    ensures var a := Chain(start, ds, |ds|, false); Pow(10, (a.tens + digits) * n) <= Pow(2, a.exp * n)
  {
    ChainBounds(start, ds, |ds|, false);
    RaisedBelow(Chain(start, ds, |ds|, false), digits, n);
  }

  lemma {:induction false} SmallPowers()
    ensures Pow(2, 24) == 16_777_216 && Pow(2, 34) == 17_179_869_184
    ensures Pow(10, 0) == 1 && Pow(10, 1) == 10 && Pow(10, 7) == 10_000_000
    ensures Pow(10, 13) == 10_000_000_000_000
    ensures Pow(10, 14) == 100_000_000_000_000
    ensures Pow(10, 15) == 1_000_000_000_000_000
  {
    PowAdd(2, 12, 12);
    PowAdd(2, 24, 10);
    PowAdd(10, 7, 6);
    PowAdd(10, 13, 1);
    PowAdd(10, 14, 1);
  }

  lemma {:induction false} ScaledTables()
    ensures Scaled(UPPER_STEPS) && Scaled(LOWER_STEPS)
    ensures Bounds(UPPER_START, true) && Bounds(LOWER_START, false)
  {
    SmallPowers();
  }

  /** 2^100000 is at most 10^30103, and so with every power of the two. */
  lemma {:induction false} TwosBelowTens(n: nat)
    ensures Pow(2, 100000 * n) <= Pow(10, 30103 * n)
  {
    ScaledTables();
    SmallPowers();
    UpperValue();
    AboveRaised(UPPER_START, UPPER_STEPS, 14, n);
  }

  /** 10^21306 is at most 2^70777, and so with every power of the two. */
  lemma {:induction false} TensBelowTwos(n: nat)
    ensures Pow(10, 21306 * n) <= Pow(2, 70777 * n)
  {
    ScaledTables();
    SmallPowers();
    LowerValue();
    BelowRaised(LOWER_START, LOWER_STEPS, 13, n);
  }
}
