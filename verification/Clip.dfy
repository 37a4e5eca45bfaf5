/**
 Clipping a string to a ceiling of UTF-8 bytes, keeping its head or its tail, while reading no more
 characters than the ceiling plus one.
 */
module Clip {
  import opened Utf8

  /** The truncation marker, "…[truncated]": twelve characters, fourteen bytes. */
  const MARKER: Text := [0x2026, 0x5B, 0x74, 0x72, 0x75, 0x6E, 0x63, 0x61, 0x74, 0x65, 0x64, 0x5D]
  const MARKER_BYTES: nat := 14

  lemma {:induction false} MarkerSize()
    ensures Size(MARKER) == MARKER_BYTES && Scalar(MARKER)
  {
    var ascii := MARKER[1..];
    AsciiSize(ascii);
    assert Size(MARKER) == Width(0x2026) + Size(ascii);
  }

  lemma {:induction false} AsciiSize(t: Text)
    requires forall i :: 0 <= i < |t| ==> t[i] < 0x80
    ensures Size(t) == |t|
  {
    if t != [] { AsciiSize(t[1..]); }
  }

  // ------------------------------------------------------------------ lone surrogates

  function CleanCode(c: Code): Code {
    if Surrogate(c) then REPLACEMENT else c
  }

  /** Each lone surrogate replaced, one for one. */
  function Clean(t: Text): (r: Text)
    ensures |r| == |t| && Scalar(r)
    ensures Scalar(t) <==> r == t
  {
    seq(|t|, i requires 0 <= i < |t| => CleanCode(t[i]))
  }

  datatype Measured = Measured(text: Text, raw: seq<Byte>, replaced: bool)

  /** A strict encode, or failing that the encode of the cleaned text. */
  function Measure(value: Text): Measured {
    if Scalar(value) then Measured(value, Encode(value), false)
    else Measured(Clean(value), Encode(Clean(value)), true)
  }

  // ------------------------------------------------------------------ the two clips

  datatype Clipped = Clipped(text: Text, altered: bool, size: nat)

  /** The clip of what was measured. */
  function HeadFrom(m: Measured, maxBytes: nat): Clipped {
    if |m.raw| <= maxBytes then Clipped(m.text, m.replaced, |m.raw|)
    else if maxBytes <= MARKER_BYTES then Clipped(MARKER, true, MARKER_BYTES)
    else
      var head := Decode(m.raw[..maxBytes - MARKER_BYTES], []);
      Clipped(head + MARKER, true, |Encode(head)| + MARKER_BYTES)
  }

  function HeadOf(value: Text, maxBytes: nat): Clipped {
    HeadFrom(Measure(value), maxBytes)
  }

  /** _clip(): reads at most maxBytes + 1 characters. */
  function ClipHead(value: Text, maxBytes: nat): Clipped {
    HeadOf(if |value| > maxBytes then value[..maxBytes + 1] else value, maxBytes)
  }

  datatype Tail = Tail(text: Text, altered: bool)

  function TailFrom(m: Measured, maxBytes: nat): Tail {
    if |m.raw| <= maxBytes then Tail(m.text, m.replaced)
    else if maxBytes <= MARKER_BYTES then Tail(MARKER, true)
    else Tail(MARKER + Decode(m.raw[|m.raw| - (maxBytes - MARKER_BYTES)..], []), true)
  }

  function TailOf(value: Text, maxBytes: nat): Tail {
    TailFrom(Measure(value), maxBytes)
  }

  /** truncate_tail(): reads at most the last maxBytes + 1 characters. */
  function ClipTail(value: Text, maxBytes: nat): Tail {
    TailOf(if |value| > maxBytes then value[|value| - maxBytes - 1..] else value, maxBytes)
  }

  // ------------------------------------------------------------------ what a clip is

  /** A strict encode that fails gives way to the cleaned text; either way that is what is measured. */
  lemma {:induction false} MeasureIsClean(value: Text)
    ensures Measure(value) == Measured(Clean(value), Encode(Clean(value)), !Scalar(value))
  {
  }

  /** The head kept is the longest run of whole characters that leaves room for the marker. */
  function HeadSpec(clean: Text, replaced: bool, maxBytes: nat): Clipped {
    if Size(clean) <= maxBytes then Clipped(clean, replaced, Size(clean))
    else if maxBytes <= MARKER_BYTES then Clipped(MARKER, true, MARKER_BYTES)
    else
      var kept := clean[..Fit(clean, maxBytes - MARKER_BYTES)];
      Clipped(kept + MARKER, true, Size(kept) + MARKER_BYTES)
  }

  /** The tail kept is the longest run of whole characters that leaves room for the marker. */
  function TailSpec(clean: Text, replaced: bool, maxBytes: nat): Tail {
    if Size(clean) <= maxBytes then Tail(clean, replaced)
    else if maxBytes <= MARKER_BYTES then Tail(MARKER, true)
    else Tail(MARKER + clean[FitFrom(clean, maxBytes - MARKER_BYTES)..], true)
  }

  lemma {:induction false} HeadFromMeaning(clean: Text, replaced: bool, maxBytes: nat)
    requires Scalar(clean)
    ensures HeadFrom(Measured(clean, Encode(clean), replaced), maxBytes) == HeadSpec(clean, replaced, maxBytes)
  {
    EncodeSize(clean);
    if Size(clean) > maxBytes > MARKER_BYTES {
      DecodePrefix(clean, maxBytes - MARKER_BYTES);
      EncodeSize(clean[..Fit(clean, maxBytes - MARKER_BYTES)]);
    }
  }

  lemma {:induction false} TailFromMeaning(clean: Text, replaced: bool, maxBytes: nat)
    requires Scalar(clean)
    ensures TailFrom(Measured(clean, Encode(clean), replaced), maxBytes) == TailSpec(clean, replaced, maxBytes)
  {
    EncodeSize(clean);
    if Size(clean) > maxBytes > MARKER_BYTES { DecodeSuffix(clean, maxBytes - MARKER_BYTES); }
  }

  /** Clipping bytes and decoding what is left is clipping characters. */
  lemma {:induction false} HeadMeaning(value: Text, maxBytes: nat)
    ensures HeadOf(value, maxBytes) == HeadSpec(Clean(value), !Scalar(value), maxBytes)
  {
    MeasureIsClean(value);
    HeadFromMeaning(Clean(value), !Scalar(value), maxBytes);
  }

  lemma {:induction false} TailMeaning(value: Text, maxBytes: nat)
    ensures TailOf(value, maxBytes) == TailSpec(Clean(value), !Scalar(value), maxBytes)
  {
    MeasureIsClean(value);
    TailFromMeaning(Clean(value), !Scalar(value), maxBytes);
  }

  // ------------------------------------------------------------------ reading less is enough

  /** A text's first n characters hold every one of its characters that fits in fewer bytes. */
  lemma {:induction false} FitOfPrefix(t: Text, n: nat, budget: nat)
    requires n <= |t| && budget < n
    ensures Fit(t[..n], budget) == Fit(t, budget) <= budget
  {
    if budget > 0 && Width(t[0]) <= budget {
      assert t[..n][1..] == t[1..][..n - 1];
      FitOfPrefix(t[1..], n - 1, budget - Width(t[0]));
    }
  }

  /** And so do its last n. */
  lemma {:induction false} FitOfSuffix(t: Text, n: nat, budget: nat)
    requires n <= |t| && budget < n
    ensures FitFrom(t, budget) == |t| - n + FitFrom(t[|t| - n..], budget)
  {
    EncodeSize(t);
    if n == |t| {
      assert t[0..] == t;
    } else {
      FitOfSuffix(t[1..], n, budget);
      assert t[1..][|t| - 1 - n..] == t[|t| - n..];
    }
  }

  lemma {:induction false} SizeOfPart(t: Text, i: nat, j: nat)
    requires i <= j <= |t|
    ensures j - i <= Size(t[i..j]) <= Size(t)
  {
    assert t == t[..i] + t[i..j] + t[j..];
    SizeConcat(t[..i] + t[i..j], t[j..]);
    SizeConcat(t[..i], t[i..j]);
    EncodeSize(t[i..j]);
  }

  lemma {:induction false} HeadSpecOfPrefix(clean: Text, maxBytes: nat, r1: bool, r2: bool)
    requires |clean| > maxBytes
    ensures HeadSpec(clean[..maxBytes + 1], r1, maxBytes) == HeadSpec(clean, r2, maxBytes)
  {
    var part := clean[..maxBytes + 1];
    SizeOfPart(clean, 0, maxBytes + 1);
    if maxBytes > MARKER_BYTES {
      var budget := maxBytes - MARKER_BYTES;
      FitOfPrefix(clean, maxBytes + 1, budget);
      assert part[..Fit(clean, budget)] == clean[..Fit(clean, budget)];
    }
  }

  lemma {:induction false} TailSpecOfSuffix(clean: Text, maxBytes: nat, r1: bool, r2: bool)
    requires |clean| > maxBytes
    ensures TailSpec(clean[|clean| - maxBytes - 1..], r1, maxBytes) == TailSpec(clean, r2, maxBytes)
  {
    var from := |clean| - maxBytes - 1;
    var part := clean[from..];
    SizeOfPart(clean, from, |clean|);
    assert clean[from..|clean|] == part;
    if maxBytes > MARKER_BYTES {
      var k := FitFrom(part, maxBytes - MARKER_BYTES);
      FitOfSuffix(clean, maxBytes + 1, maxBytes - MARKER_BYTES);
      assert part[k..] == clean[from + k..];
    }
  }

  /** Reading only the first maxBytes + 1 characters gives the text, the flag and the size that
      reading the whole string gives. */
  lemma {:induction false} HeadReadsEnough(value: Text, maxBytes: nat)
    ensures ClipHead(value, maxBytes) == HeadOf(value, maxBytes)
            == HeadSpec(Clean(value), !Scalar(value), maxBytes)
  {
    HeadMeaning(value, maxBytes);
    if |value| > maxBytes {
      var part := value[..maxBytes + 1];
      HeadMeaning(part, maxBytes);
      assert Clean(part) == Clean(value)[..maxBytes + 1];
      HeadSpecOfPrefix(Clean(value), maxBytes, !Scalar(part), !Scalar(value));
    }
  }

  lemma {:induction false} TailOfSuffix(value: Text, from: nat, maxBytes: nat)
    requires from + maxBytes + 1 == |value|
    ensures TailOf(value[from..], maxBytes) == TailSpec(Clean(value), !Scalar(value), maxBytes)
  {
    TailMeaning(value[from..], maxBytes);
    assert Clean(value[from..]) == Clean(value)[from..];
    TailSpecOfSuffix(Clean(value), maxBytes, !Scalar(value[from..]), !Scalar(value));
  }

  /** The same from the other end. */
  lemma {:induction false} TailReadsEnough(value: Text, maxBytes: nat)
    ensures ClipTail(value, maxBytes) == TailOf(value, maxBytes)
            == TailSpec(Clean(value), !Scalar(value), maxBytes)
  {
    TailMeaning(value, maxBytes);
    if |value| > maxBytes { TailOfSuffix(value, |value| - maxBytes - 1, maxBytes); }
  }

  // ------------------------------------------------------------------ the promises

  /** A clip kept whole characters from the head, and one more would not have fitted. */
  ghost predicate KeptMostOfHead(clean: Text, text: Text, maxBytes: nat) {
    exists k :: 0 <= k < |clean| && text == clean[..k] + MARKER
                && Size(clean[..k]) + MARKER_BYTES <= maxBytes < Size(clean[..k + 1]) + MARKER_BYTES
  }

  ghost predicate KeptMostOfTail(clean: Text, text: Text, maxBytes: nat) {
    exists k :: 0 < k <= |clean| && text == MARKER + clean[k..]
                && Size(clean[k..]) + MARKER_BYTES <= maxBytes < Size(clean[k - 1..]) + MARKER_BYTES
  }

  lemma {:induction false} HeadSpecKeepsMost(clean: Text, replaced: bool, maxBytes: nat)
    requires Size(clean) > maxBytes > MARKER_BYTES
    ensures KeptMostOfHead(clean, HeadSpec(clean, replaced, maxBytes).text, maxBytes)
  {
    var k := Fit(clean, maxBytes - MARKER_BYTES);
    FitIsMost(clean, maxBytes - MARKER_BYTES);
    assert clean[..|clean|] == clean;
    assert k < |clean|;
  }

  lemma {:induction false} TailSpecKeepsMost(clean: Text, replaced: bool, maxBytes: nat)
    requires Size(clean) > maxBytes > MARKER_BYTES
    ensures KeptMostOfTail(clean, TailSpec(clean, replaced, maxBytes).text, maxBytes)
  {
    var k := FitFrom(clean, maxBytes - MARKER_BYTES);
    FitFromIsMost(clean, maxBytes - MARKER_BYTES);
    assert clean[0..] == clean;
    assert k > 0;
  }

  lemma {:induction false} JoinedSize(a: Text, b: Text)
    requires Scalar(a) && Scalar(b)
    ensures Scalar(a + b) && Size(a + b) == Size(a) + Size(b)
  {
    SizeConcat(a, b);
  }

  /** What is kept and the marker, in either order, fill the ceiling and no more. */
  lemma {:induction false} KeptThenMarker(kept: Text, maxBytes: nat)
    requires Scalar(kept) && Size(kept) <= maxBytes - MARKER_BYTES
    ensures Scalar(kept + MARKER) && Size(kept + MARKER) == Size(kept) + MARKER_BYTES <= maxBytes
  {
    MarkerSize();
    JoinedSize(kept, MARKER);
  }

  lemma {:induction false} MarkerThenKept(kept: Text, maxBytes: nat)
    requires Scalar(kept) && Size(kept) <= maxBytes - MARKER_BYTES
    ensures Scalar(MARKER + kept) && Size(MARKER + kept) == Size(kept) + MARKER_BYTES <= maxBytes
  {
    MarkerSize();
    JoinedSize(MARKER, kept);
  }

  lemma {:induction false} HeadSpecSize(clean: Text, replaced: bool, maxBytes: nat)
    requires Scalar(clean)
    ensures var c := HeadSpec(clean, replaced, maxBytes);
            && Scalar(c.text) && c.size == Size(c.text)
            && (c.size <= maxBytes <==> maxBytes >= MARKER_BYTES || Size(clean) <= maxBytes)
  {
    if Size(clean) > maxBytes {
      if maxBytes > MARKER_BYTES {
        FitIsMost(clean, maxBytes - MARKER_BYTES);
        KeptThenMarker(clean[..Fit(clean, maxBytes - MARKER_BYTES)], maxBytes);
      } else {
        MarkerSize();
      }
    }
  }

  lemma {:induction false} TailSpecSize(clean: Text, replaced: bool, maxBytes: nat)
    requires Scalar(clean)
    ensures var c := TailSpec(clean, replaced, maxBytes);
            && Scalar(c.text)
            && (Size(c.text) <= maxBytes <==> maxBytes >= MARKER_BYTES || Size(clean) <= maxBytes)
  {
    if Size(clean) > maxBytes {
      if maxBytes > MARKER_BYTES {
        FitFromIsMost(clean, maxBytes - MARKER_BYTES);
        MarkerThenKept(clean[FitFrom(clean, maxBytes - MARKER_BYTES)..], maxBytes);
      } else {
        MarkerSize();
      }
    }
  }

  /** The clipped string encodes strictly, its size is what is charged, and it is within the ceiling
      exactly when the ceiling is no smaller than the marker or nothing had to be cut. The flag is
      up exactly when a surrogate was replaced or something was cut, and then as much was kept as
      fits; otherwise the string is the caller's own. */
  lemma {:induction false} HeadIsACeiling(value: Text, maxBytes: nat)
    ensures var c, clean := ClipHead(value, maxBytes), Clean(value);
            && Scalar(c.text) && c.size == Size(c.text) == |Encode(c.text)|
            && (c.size <= maxBytes <==> maxBytes >= MARKER_BYTES || Size(clean) <= maxBytes)
            && (c.altered <==> !Scalar(value) || Size(clean) > maxBytes)
            && (!c.altered ==> c.text == value)
            && (Size(clean) <= maxBytes ==> c.text == clean)
            && (Size(clean) > maxBytes > MARKER_BYTES ==> KeptMostOfHead(clean, c.text, maxBytes))
  {
    var clean := Clean(value);
    HeadReadsEnough(value, maxBytes);
    HeadSpecSize(clean, !Scalar(value), maxBytes);
    EncodeSize(ClipHead(value, maxBytes).text);
    if Size(clean) > maxBytes > MARKER_BYTES { HeadSpecKeepsMost(clean, !Scalar(value), maxBytes); }
  }

  lemma {:induction false} TailIsACeiling(value: Text, maxBytes: nat)
    ensures var c, clean := ClipTail(value, maxBytes), Clean(value);
            && Scalar(c.text)
            && (Size(c.text) <= maxBytes <==> maxBytes >= MARKER_BYTES || Size(clean) <= maxBytes)
            && (c.altered <==> !Scalar(value) || Size(clean) > maxBytes)
            && (!c.altered ==> c.text == value)
            && (Size(clean) <= maxBytes ==> c.text == clean)
            && (Size(clean) > maxBytes > MARKER_BYTES ==> KeptMostOfTail(clean, c.text, maxBytes))
  {
    var clean := Clean(value);
    TailReadsEnough(value, maxBytes);
    TailSpecSize(clean, !Scalar(value), maxBytes);
    if Size(clean) > maxBytes > MARKER_BYTES { TailSpecKeepsMost(clean, !Scalar(value), maxBytes); }
  }

  /** Clipping twice is clipping once: what a clip returns fits, and is left alone. */
  lemma {:induction false} ClipIsIdempotent(value: Text, maxBytes: nat)
    requires maxBytes >= MARKER_BYTES
    ensures var once := ClipHead(value, maxBytes);
            ClipHead(once.text, maxBytes) == Clipped(once.text, false, once.size)
  {
    var once := ClipHead(value, maxBytes);
    HeadIsACeiling(value, maxBytes);
    HeadReadsEnough(once.text, maxBytes);
  }
}
