/**
 The decimal length of an integer, estimated from its bit length without converting it.
 */
module Digits {
  import opened Powers
  import opened Utf8

  function BitLength(v: nat): nat {
    if v == 0 then 0 else 1 + BitLength(v / 2)
  }

  /** How many digits the integer's decimal form has. */
  function DecimalLength(v: nat): (n: nat)
    ensures n >= 1
  {
    if v < 10 then 1 else 1 + DecimalLength(v / 10)
  }

  function Abs(v: int): nat {
    if v < 0 then -v else v
  }

  const LOG_NUM := 30103
  const LOG_DEN := 100000

  /** The estimate every integer measurement uses. */
  function Estimate(v: int): nat {
    BitLength(Abs(v)) * LOG_NUM / LOG_DEN + 1
  }

  /** The length of the rendered integer, sign included, and its estimate. */
  function RenderedLength(v: int): nat {
    DecimalLength(Abs(v)) + if v < 0 then 1 else 0
  }

  function RenderedEstimate(v: int): nat {
    Estimate(v) + if v < 0 then 1 else 0
  }

  /** The decimal digits themselves, as code points. */
  function DecimalText(v: nat): (t: Text)
    ensures |t| == DecimalLength(v)
  {
    if v < 10 then [0x30 + v] else DecimalText(v / 10) + [0x30 + v % 10]
  }

  /** str() of an integer. */
  function IntText(v: int): (t: Text)
    ensures |t| == RenderedLength(v)
  {
    if v < 0 then [0x2D] + DecimalText(-v) else DecimalText(v)
  }

  /** The number some decimal digits stand for. */
  function Reading(t: Text): int {
    if t == [] then 0 else Reading(t[..|t| - 1]) * 10 + (t[|t| - 1] as int - 0x30)
  }

  /** The digits written read back as the number, with no leading zero. */
  lemma {:induction false} DecimalReadsBack(v: nat)
    ensures Reading(DecimalText(v)) == v
    ensures forall i :: 0 <= i < |DecimalText(v)| ==> 0x30 <= DecimalText(v)[i] <= 0x39
    ensures v > 0 ==> DecimalText(v)[0] != 0x30
  {
    var t := DecimalText(v);
    if v < 10 {
      assert t[..0] == [];
    } else {
      DecimalReadsBack(v / 10);
      assert t[..|t| - 1] == DecimalText(v / 10);
    }
  }

  lemma {:induction false} BitLengthBounds(v: nat)
    ensures v < Pow(2, BitLength(v))
    ensures v > 0 ==> BitLength(v) > 0 && Pow(2, BitLength(v) - 1) <= v
  {
    if v > 0 { BitLengthBounds(v / 2); }
  }

  lemma {:induction false} DecimalLengthBounds(v: nat)
    ensures v < Pow(10, DecimalLength(v))
    ensures v > 0 ==> Pow(10, DecimalLength(v) - 1) <= v
  {
    if v >= 10 { DecimalLengthBounds(v / 10); }
  }

  /** Comparing powers of ten compares their exponents. */
  lemma {:induction false} TensOrder(m: nat, n: nat)
    ensures Pow(10, m) < Pow(10, n) <==> m < n
  {
    if m < n { PowExponent(10, m, n); }
    if n < m { PowExponent(10, n, m); }
  }

  /** 10^m <= 2^b puts m within the estimate of b bits. */
  lemma {:induction false} TensWithinBits(m: nat, b: nat)
    requires Pow(10, m) < Pow(2, b)
    ensures m <= b * LOG_NUM / LOG_DEN
  {
    PowBase(Pow(10, m), Pow(2, b), LOG_DEN);
    PowTimes(10, m, LOG_DEN);
    PowTimes(2, b, LOG_DEN);
    TwosBelowTens(b);
    TensOrder(m * LOG_DEN, b * LOG_NUM);
  }

  /** 2^b < 10^n puts b within the bits n digits can take. */
  lemma {:induction false} BitsWithinTens(b: nat, n: nat)
    requires Pow(2, b) < Pow(10, n)
    ensures b * 21306 < n * 70777
  {
    PowBase(Pow(2, b), Pow(10, n), 70777);
    PowTimes(2, b, 70777);
    PowTimes(10, n, 70777);
    TensBelowTwos(b);
    TensOrder(b * 21306, n * 70777);
  }

  /** The estimate is never below the true decimal length. */
  lemma {:induction false} EstimateIsEnough(v: int)
    ensures DecimalLength(Abs(v)) <= Estimate(v)
    ensures RenderedLength(v) <= RenderedEstimate(v)
  {
    var a := Abs(v);
    if a > 0 {
      BitLengthBounds(a);
      DecimalLengthBounds(a);
      TensWithinBits(DecimalLength(a) - 1, BitLength(a));
    }
  }

  /** And it overcounts by at most one up to 48 million digits. */
  lemma {:induction false} EstimateIsClose(v: int)
    requires DecimalLength(Abs(v)) <= 48_000_000
    ensures Estimate(v) <= DecimalLength(Abs(v)) + 1
    ensures RenderedEstimate(v) <= RenderedLength(v) + 1
  {
    var a := Abs(v);
    if a > 0 {
      BitLengthBounds(a);
      DecimalLengthBounds(a);
      BitsWithinTens(BitLength(a) - 1, DecimalLength(a));
    }
  }

  /** So an integer the ceiling lets pass renders within it. */
  lemma {:induction false} PassedByTheCeiling(v: int, ceiling: nat)
    requires RenderedEstimate(v) <= ceiling
    ensures RenderedLength(v) <= ceiling
  {
    EstimateIsEnough(v);
  }

  /** The check made before an integer key is rendered refuses only keys that would not have fitted:
      `charged` bytes are spent of a budget no larger than 48 million. */
  lemma {:induction false} KeyCheckRefusesNothingThatFits(v: int, charged: nat, budget: nat)
    requires budget <= 48_000_000
    requires charged + RenderedLength(v) <= budget
    ensures charged + RenderedEstimate(v) - 1 <= budget
  {
    EstimateIsClose(v);
  }
}
