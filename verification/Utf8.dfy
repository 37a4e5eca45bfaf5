/**
 UTF-8 (section 3 of RFC 3629) over Python's strings, which are sequences of code points and may
 hold lone surrogates, and the decoder with its two error handlers: `ignore` and `replace`.
 */
module Utf8 {
  type Code = c: int | 0 <= c < 0x11_0000
  type Byte = b: int | 0 <= b < 0x100
  type Text = seq<Code>

  predicate Surrogate(c: Code) {
    0xD800 <= c <= 0xDFFF
  }

  /** A text that encodes strictly. */
  predicate Scalar(t: Text) {
    forall i :: 0 <= i < |t| ==> !Surrogate(t[i])
  }

  const REPLACEMENT: Code := 0xFFFD

  function Width(c: Code): (n: nat)
    ensures 1 <= n <= 4
  {
    if c < 0x80 then 1 else if c < 0x800 then 2 else if c < 0x1_0000 then 3 else 4
  }

  function EncodeOne(c: Code): (bs: seq<Byte>)
    ensures |bs| == Width(c)
  {
    if c < 0x80 then [c]
    else if c < 0x800 then [0xC0 + c / 64, 0x80 + c % 64]
    else if c < 0x1_0000 then [0xE0 + c / 4096, 0x80 + c / 64 % 64, 0x80 + c % 64]
    else [0xF0 + c / 262144, 0x80 + c / 4096 % 64, 0x80 + c / 64 % 64, 0x80 + c % 64]
  }

  function Encode(t: Text): seq<Byte> {
    if t == [] then [] else EncodeOne(t[0]) + Encode(t[1..])
  }

  function Size(t: Text): nat {
    if t == [] then 0 else Width(t[0]) + Size(t[1..])
  }

  lemma {:induction false} EncodeSize(t: Text)
    ensures |Encode(t)| == Size(t) >= |t|
  {
    if t != [] { EncodeSize(t[1..]); }
  }

  lemma {:induction false} SizeConcat(a: Text, b: Text)
    ensures Size(a + b) == Size(a) + Size(b)
  {
    if a == [] {
      assert a + b == b;
    } else {
      SizeConcat(a[1..], b);
      assert (a + b)[1..] == a[1..] + b;
    }
  }

  lemma {:induction false} EncodeCons(c: Code, t: Text)
    ensures Encode([c] + t) == EncodeOne(c) + Encode(t)
  {
    assert ([c] + t)[1..] == t;
  }

  // ------------------------------------------------------------------ the decoder

  /** What stands at the front of some bytes: a character of so many bytes, or a stretch of so many
      that starts no character, as long as it could still have been one. */
  datatype Front = Char(code: Code, len: nat) | Bad(len: nat)

  predicate Continuation(b: Byte) {
    0x80 <= b < 0xC0
  }

  /** The second byte's range, which shuts out overlong forms, surrogates and anything past the
      last code point. */
  predicate SecondFits(lead: Byte, b: Byte) {
    && Continuation(b)
    && (lead == 0xE0 ==> b >= 0xA0)
    && (lead == 0xED ==> b < 0xA0)
    && (lead == 0xF0 ==> b >= 0x90)
    && (lead == 0xF4 ==> b < 0x90)
  }

  function FrontOf(bs: seq<Byte>): (f: Front)
    requires bs != []
    ensures 1 <= f.len <= |bs|
  {
    var b := bs[0];
    if b < 0x80 then Char(b, 1)
    else if 0xC2 <= b < 0xE0 then
      if |bs| < 2 || !Continuation(bs[1]) then Bad(1)
      else Char(SixMore(b as int - 0xC0, bs[1]), 2)
    else if 0xE0 <= b < 0xF0 then
      if |bs| < 2 || !SecondFits(b, bs[1]) then Bad(1)
      else if |bs| < 3 || !Continuation(bs[2]) then Bad(2)
      else Char(SixMore(SixMore(b as int - 0xE0, bs[1]), bs[2]), 3)
    else if 0xF0 <= b < 0xF5 then
      if |bs| < 2 || !SecondFits(b, bs[1]) then Bad(1)
      else if |bs| < 3 || !Continuation(bs[2]) then Bad(2)
      else if |bs| < 4 || !Continuation(bs[3]) then Bad(3)
      else Char(SixMore(SixMore(SixMore(b as int - 0xF0, bs[1]), bs[2]), bs[3]), 4)
    else Bad(1)
  }

  /** Six more bits. */
  function SixMore(high: int, b: int): int {
    high * 64 + (b - 0x80)
  }

  /** bytes.decode("utf-8", errors="ignore") is Decode(bs, []), errors="replace" is
      Decode(bs, [REPLACEMENT]). */
  function Decode(bs: seq<Byte>, forBad: Text): Text
    decreases |bs|
  {
    if bs == [] then []
    else
      var f := FrontOf(bs);
      (if f.Char? then [f.code] else forBad) + Decode(bs[f.len..], forBad)
  }

  /** Neither handler leaves anything that does not encode strictly. */
  lemma {:induction false} DecodeScalar(bs: seq<Byte>, forBad: Text)
    requires Scalar(forBad)
    ensures Scalar(Decode(bs, forBad))
    decreases |bs|
  {
    if bs != [] { DecodeScalar(bs[FrontOf(bs).len..], forBad); }
  }

  lemma {:induction false} FrontOfTwo(c: Code, bs: seq<Byte>)
    requires Width(c) == 2 && |bs| >= 2 && bs[..2] == EncodeOne(c)
    ensures FrontOf(bs) == Char(c, 2)
  {
    assert bs[0] == bs[..2][0] && bs[1] == bs[..2][1];
  }

  lemma {:induction false} FrontOfThree(c: Code, bs: seq<Byte>)
    requires Width(c) == 3 && !Surrogate(c) && |bs| >= 3 && bs[..3] == EncodeOne(c)
    ensures FrontOf(bs) == Char(c, 3)
  {
    assert bs[0] == bs[..3][0] && bs[1] == bs[..3][1] && bs[2] == bs[..3][2];
    assert c / 64 == SixMore(c / 4096, bs[1]);
    assert c == SixMore(c / 64, bs[2]);
  }

  lemma {:induction false} FrontOfFour(c: Code, bs: seq<Byte>)
    requires Width(c) == 4 && |bs| >= 4 && bs[..4] == EncodeOne(c)
    ensures FrontOf(bs) == Char(c, 4)
  {
    assert bs[0] == bs[..4][0] && bs[1] == bs[..4][1] && bs[2] == bs[..4][2] && bs[3] == bs[..4][3];
    assert c / 4096 == SixMore(c / 262144, bs[1]);
    assert c / 64 == SixMore(c / 4096, bs[2]);
    assert c == SixMore(c / 64, bs[3]);
  }

  /** A character's bytes read back as that character, whatever follows. */
  lemma {:induction false} FrontOfEncoded(c: Code, rest: seq<Byte>)
    requires !Surrogate(c)
    ensures FrontOf(EncodeOne(c) + rest) == Char(c, Width(c))
  {
    var bs := EncodeOne(c) + rest;
    assert bs[..Width(c)] == EncodeOne(c);
    if Width(c) == 2 {
      FrontOfTwo(c, bs);
    } else if Width(c) == 3 {
      FrontOfThree(c, bs);
    } else if Width(c) == 4 {
      FrontOfFour(c, bs);
    }
  }

  /** A character cut short reads as one bad stretch, all of it. */
  lemma {:induction false} FrontOfCut(c: Code, n: nat)
    requires !Surrogate(c) && 0 < n < Width(c)
    ensures FrontOf(EncodeOne(c)[..n]) == Bad(n)
  {
  }

  lemma {:induction false} DecodeCons(c: Code, t: Text, rest: seq<Byte>, forBad: Text, d: Text)
    requires !Surrogate(c) && Decode(Encode(t) + rest, forBad) == d
    ensures Decode(Encode([c] + t) + rest, forBad) == [c] + d
  {
    EncodeCons(c, t);
    Regroup(EncodeOne(c), Encode(t), rest);
    DecodeFirst(c, Encode(t) + rest, forBad);
  }

  lemma {:induction false} DecodeEncoded(t: Text, rest: seq<Byte>, forBad: Text)
    requires Scalar(t)
    ensures Decode(Encode(t) + rest, forBad) == t + Decode(rest, forBad)
  {
    if t == [] {
      assert Encode(t) + rest == rest;
    } else {
      var d := Decode(rest, forBad);
      DecodeEncoded(t[1..], rest, forBad);
      DecodeCons(t[0], t[1..], rest, forBad, t[1..] + d);
      assert [t[0]] + t[1..] == t;
      Regroup([t[0]], t[1..], d);
    }
  }

  lemma {:induction false} DecodeFirst(c: Code, rest: seq<Byte>, forBad: Text)
    requires !Surrogate(c)
    ensures Decode(EncodeOne(c) + rest, forBad) == [c] + Decode(rest, forBad)
  {
    FrontOfEncoded(c, rest);
    assert (EncodeOne(c) + rest)[Width(c)..] == rest;
  }

  lemma {:induction false} Regroup<T>(a: seq<T>, b: seq<T>, c: seq<T>)
    ensures (a + b) + c == a + (b + c)
  {
  }

  /** Decoding undoes encoding, with either handler. */
  lemma {:induction false} RoundTrip(t: Text, forBad: Text)
    requires Scalar(t)
    ensures Decode(Encode(t), forBad) == t
  {
    DecodeEncoded(t, [], forBad);
    assert Encode(t) + [] == Encode(t);
  }

  // ------------------------------------------------------------------ bytes cut at either end

  /** How many characters of t, from the front, encode into `budget` bytes. */
  function Fit(t: Text, budget: nat): (k: nat)
    ensures k <= |t|
  {
    if t == [] || Width(t[0]) > budget then 0 else 1 + Fit(t[1..], budget - Width(t[0]))
  }

  /** It is the most that do. */
  lemma {:induction false} FitIsMost(t: Text, budget: nat)
    ensures Size(t[..Fit(t, budget)]) <= budget
    ensures Fit(t, budget) < |t| ==> Size(t[..Fit(t, budget) + 1]) > budget
  {
    if t != [] && Width(t[0]) <= budget {
      var k := Fit(t[1..], budget - Width(t[0]));
      FitIsMost(t[1..], budget - Width(t[0]));
      assert t[..k + 1][1..] == t[1..][..k];
      if k + 1 < |t| { assert t[..k + 2][1..] == t[1..][..k + 1]; }
    } else if t != [] {
      assert t[..1][1..] == [];
    }
  }

  function FirstBytes(t: Text, budget: nat): seq<Byte>
    requires budget <= |Encode(t)|
  {
    Encode(t)[..budget]
  }

  /** The first bytes of a text, past its first character or within it. */
  lemma {:induction false} FirstBytesOf(t: Text, budget: nat)
    requires t != [] && budget <= |Encode(t)|
    ensures budget >= Width(t[0]) ==>
              && budget - Width(t[0]) <= |Encode(t[1..])|
              && FirstBytes(t, budget) == EncodeOne(t[0]) + FirstBytes(t[1..], budget - Width(t[0]))
    ensures budget < Width(t[0]) ==> FirstBytes(t, budget) == EncodeOne(t[0])[..budget]
  {
    FirstOf(EncodeOne(t[0]), Encode(t[1..]), budget);
  }

  /** The first n elements of two sequences joined. */
  lemma {:induction false} FirstOf<T>(a: seq<T>, b: seq<T>, n: nat)
    requires n <= |a| + |b|
    ensures (a + b)[..n] == if n >= |a| then a + b[..n - |a|] else a[..n]
  {
  }

  lemma {:induction false} FitFirst(t: Text, budget: nat)
    requires t != [] && Width(t[0]) <= budget
    ensures t[..Fit(t, budget)] == [t[0]] + t[1..][..Fit(t[1..], budget - Width(t[0]))]
  {
  }

  /** The first bytes of a text are its whole characters that fit, and a cut character or nothing. */
  lemma {:induction false} PrefixShape(t: Text, budget: nat) returns (c: Code, n: nat)
    requires Scalar(t) && budget <= |Encode(t)|
    ensures !Surrogate(c) && n < Width(c)
    ensures FirstBytes(t, budget) == Encode(t[..Fit(t, budget)]) + EncodeOne(c)[..n]
  {
    c, n := 0, 0;
    if t != [] {
      FirstBytesOf(t, budget);
      if Width(t[0]) <= budget {
        var rest, left := t[1..], budget - Width(t[0]);
        c, n := PrefixShape(rest, left);
        FitFirst(t, budget);
        EncodeCons(t[0], rest[..Fit(rest, left)]);
        Regroup(EncodeOne(t[0]), Encode(rest[..Fit(rest, left)]), EncodeOne(c)[..n]);
      } else {
        c, n := t[0], budget;
      }
    }
  }

  lemma {:induction false} DecodeCut(c: Code, n: nat)
    requires !Surrogate(c) && n < Width(c)
    ensures Decode(EncodeOne(c)[..n], []) == []
  {
    if n > 0 {
      FrontOfCut(c, n);
      assert EncodeOne(c)[..n][n..] == [];
    }
  }

  /** The first `budget` bytes of a text decode to the characters that fit in them. */
  lemma {:induction false} DecodePrefix(t: Text, budget: nat)
    requires Scalar(t) && budget <= |Encode(t)|
    ensures Decode(FirstBytes(t, budget), []) == t[..Fit(t, budget)]
  {
    var c, n := PrefixShape(t, budget);
    DecodeEncoded(t[..Fit(t, budget)], EncodeOne(c)[..n], []);
    DecodeCut(c, n);
  }

  /** How many characters of t, from the end, encode into `budget` bytes: t from which on. */
  function FitFrom(t: Text, budget: nat): (k: nat)
    ensures k <= |t|
  {
    if Size(t) <= budget then 0 else 1 + FitFrom(t[1..], budget)
  }

  lemma {:induction false} FitFromIsMost(t: Text, budget: nat)
    ensures Size(t[FitFrom(t, budget)..]) <= budget
    ensures FitFrom(t, budget) > 0 ==> Size(t[FitFrom(t, budget) - 1..]) > budget
  {
    if Size(t) > budget {
      var k := FitFrom(t[1..], budget);
      FitFromIsMost(t[1..], budget);
      assert t[1..][k..] == t[k + 1..];
      if k > 0 { assert t[1..][k - 1..] == t[k..]; } else { assert t[0..] == t; }
    } else {
      assert t[0..] == t;
    }
  }

  /** Stray continuation bytes at the front are ignored. */
  lemma {:induction false} DecodeSkips(stray: seq<Byte>, rest: seq<Byte>)
    requires forall i :: 0 <= i < |stray| ==> Continuation(stray[i])
    ensures Decode(stray + rest, []) == Decode(rest, [])
  {
    if stray == [] {
      assert stray + rest == rest;
    } else {
      assert (stray + rest)[1..] == stray[1..] + rest;
      assert FrontOf(stray + rest) == Bad(1);
      DecodeSkips(stray[1..], rest);
    }
  }

  lemma {:induction false} EncodedTail(c: Code, i: nat)
    requires 0 < i < Width(c)
    ensures Continuation(EncodeOne(c)[i])
  {
  }

  /** The last n elements of two sequences joined. */
  lemma {:induction false} LastOf<T>(a: seq<T>, b: seq<T>, n: nat)
    requires n <= |a| + |b|
    ensures (a + b)[|a + b| - n..] == if n > |b| then a[|a| + |b| - n..] + b else b[|b| - n..]
  {
  }

  function LastBytes(t: Text, budget: nat): seq<Byte>
    requires budget <= |Encode(t)|
  {
    Encode(t)[|Encode(t)| - budget..]
  }

  /** The last bytes of a text, when its first character is cut or dropped. */
  lemma {:induction false} LastBytesOf(t: Text, budget: nat)
    requires budget < |Encode(t)|
    ensures t != []
    ensures |Encode(t[1..])| >= budget ==> LastBytes(t, budget) == LastBytes(t[1..], budget)
    ensures |Encode(t[1..])| < budget ==>
              && 0 < |Encode(t)| - budget < Width(t[0])
              && LastBytes(t, budget) == EncodeOne(t[0])[|Encode(t)| - budget..] + Encode(t[1..])
  {
    LastOf(EncodeOne(t[0]), Encode(t[1..]), budget);
  }

  lemma {:induction false} FitFromFirst(t: Text, budget: nat)
    ensures Size(t) <= budget ==> t[FitFrom(t, budget)..] == t
    ensures Size(t) > budget ==> t != [] && t[FitFrom(t, budget)..] == t[1..][FitFrom(t[1..], budget)..]
  {
  }

  /** The last bytes of a text are stray continuation bytes, and its whole characters that fit. */
  lemma {:induction false} SuffixShape(t: Text, budget: nat) returns (stray: seq<Byte>)
    requires budget <= |Encode(t)|
    ensures forall i :: 0 <= i < |stray| ==> Continuation(stray[i])
    ensures LastBytes(t, budget) == stray + Encode(t[FitFrom(t, budget)..])
  {
    stray := [];
    FitFromFirst(t, budget);
    EncodeSize(t);
    if |Encode(t)| > budget {
      LastBytesOf(t, budget);
      EncodeSize(t[1..]);
      if |Encode(t[1..])| < budget {
        FitFromFirst(t[1..], budget);
        var cut := |Encode(t)| - budget;
        stray := EncodeOne(t[0])[cut..];
        forall i | 0 <= i < |stray| ensures Continuation(stray[i]) { EncodedTail(t[0], cut + i); }
      } else {
        stray := SuffixShape(t[1..], budget);
      }
    }
  }

  /** The last `budget` bytes of a text decode to the characters that fit in them. */
  lemma {:induction false} DecodeSuffix(t: Text, budget: nat)
    requires Scalar(t) && budget <= |Encode(t)|
    ensures Decode(LastBytes(t, budget), []) == t[FitFrom(t, budget)..]
  {
    var stray := SuffixShape(t, budget);
    var kept := t[FitFrom(t, budget)..];
    DecodeSkips(stray, Encode(kept));
    RoundTrip(kept, []);
  }
}
