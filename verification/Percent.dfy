/**
 Percent-encoding (section 2.1 of RFC 3986) of a text's UTF-8 bytes with nothing but the unreserved
 characters left as they are, and its decoding, which accepts any text.
 */
module Percent {
  import opened Utf8

  const PERCENT: Code := 0x25

  /** Letters, digits, and _ . - ~ */
  predicate Unreserved(b: int) {
    || 0x30 <= b <= 0x39 || 0x41 <= b <= 0x5A || 0x61 <= b <= 0x7A
    || b == 0x5F || b == 0x2E || b == 0x2D || b == 0x7E
  }

  function HexDigit(d: int): Code
    requires 0 <= d < 16
  {
    if d < 10 then 0x30 + d else 0x37 + d
  }

  function QuoteByte(b: Byte): Text {
    if Unreserved(b) then [b] else [PERCENT, HexDigit(b / 16), HexDigit(b % 16)]
  }

  function QuoteBytes(bs: seq<Byte>): Text {
    if bs == [] then [] else QuoteByte(bs[0]) + QuoteBytes(bs[1..])
  }

  /** quote(t, safe="") of a text that encodes strictly. */
  function Quote(t: Text): Text {
    QuoteBytes(Encode(t))
  }

  /** The value of a hexadecimal digit of either case, -1 for anything else. */
  function HexValue(c: Code): int {
    if 0x30 <= c <= 0x39 then c - 0x30
    else if 0x41 <= c <= 0x46 then c - 0x37
    else if 0x61 <= c <= 0x66 then c - 0x57
    else -1
  }

  predicate Ascii(t: Text) {
    forall i :: 0 <= i < |t| ==> t[i] < 0x80
  }

  /** The bytes of an ASCII run: a percent sign and two hexadecimal digits are one byte, and a
      percent sign before anything else stands for itself. */
  function UnquoteBytes(run: Text): seq<Byte>
    requires Ascii(run)
  {
    if run == [] then []
    else if run[0] == PERCENT && |run| >= 3 && HexValue(run[1]) >= 0 && HexValue(run[2]) >= 0 then
      [HexValue(run[1]) * 16 + HexValue(run[2])] + UnquoteBytes(run[3..])
    else [run[0]] + UnquoteBytes(run[1..])
  }

  function AsciiRun(t: Text): (n: nat)
    ensures n <= |t| && Ascii(t[..n])
    ensures t != [] && t[0] < 0x80 ==> n > 0
    ensures Ascii(t) ==> n == |t|
  {
    if t == [] || t[0] >= 0x80 then 0 else 1 + AsciiRun(t[1..])
  }

  /** unquote(t): each ASCII run is decoded with replacement, everything else stays. */
  function Unquote(t: Text): Text
    decreases |t|
  {
    if t == [] then []
    else if t[0] >= 0x80 then [t[0]] + Unquote(t[1..])
    else
      var n := AsciiRun(t);
      Decode(UnquoteBytes(t[..n]), [REPLACEMENT]) + Unquote(t[n..])
  }

  /** What quoting can leave in a text: unreserved characters and percent signs. */
  predicate Plain(c: Code) {
    Unreserved(c) || c == PERCENT
  }

  predicate AllPlain(t: Text) {
    forall i :: 0 <= i < |t| ==> Plain(t[i])
  }

  lemma {:induction false} QuotePlain(bs: seq<Byte>)
    ensures AllPlain(QuoteBytes(bs)) && |QuoteBytes(bs)| >= |bs|
  {
    if bs != [] { QuotePlain(bs[1..]); }
  }

  lemma {:induction false} HexRoundTrip(b: Byte)
    ensures HexValue(HexDigit(b / 16)) == b / 16 && HexValue(HexDigit(b % 16)) == b % 16
  {
  }

  lemma {:induction false} UnquoteOne(b: Byte, rest: Text)
    requires Ascii(rest)
    ensures Ascii(QuoteByte(b) + rest)
    ensures UnquoteBytes(QuoteByte(b) + rest) == [b] + UnquoteBytes(rest)
  {
    HexRoundTrip(b);
    var t := QuoteByte(b) + rest;
    if Unreserved(b) { assert t[1..] == rest; } else { assert t[3..] == rest; }
  }

  lemma {:induction false} UnquoteQuoted(bs: seq<Byte>)
    ensures Ascii(QuoteBytes(bs)) && UnquoteBytes(QuoteBytes(bs)) == bs
  {
    if bs != [] {
      UnquoteQuoted(bs[1..]);
      UnquoteOne(bs[0], QuoteBytes(bs[1..]));
    }
  }

  /** Quoting then unquoting any text that encodes strictly gives it back. */
  lemma {:induction false} QuoteRoundTrip(t: Text)
    requires Scalar(t)
    ensures Unquote(Quote(t)) == t
  {
    var q := Quote(t);
    UnquoteQuoted(Encode(t));
    RoundTrip(t, [REPLACEMENT]);
    if q != [] {
      assert AsciiRun(q) == |q|;
      assert q[..|q|] == q && q[|q|..] == [];
    } else {
      QuotePlain(Encode(t));
    }
  }
}
