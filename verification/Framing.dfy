/**
 Texts joined by commas and taken apart again: the framing of a baggage header, apart from what
 its members mean.
 */
module Framing {
  import opened Utf8
  import opened Percent

  const COMMA: Code := 0x2C
  const SEMICOLON: Code := 0x3B
  const EQUALS: Code := 0x3D

  /** What str.strip() removes. */
  predicate Space(c: Code) {
    || 0x09 <= c <= 0x0D || 0x1C <= c <= 0x20 || c == 0x85 || c == 0xA0 || c == 0x1680
    || 0x2000 <= c <= 0x200A || c == 0x2028 || c == 0x2029 || c == 0x202F || c == 0x205F || c == 0x3000
  }

  function Strip(t: Text): Text
    decreases |t|
  {
    if t != [] && Space(t[0]) then Strip(t[1..])
    else if t != [] && Space(t[|t| - 1]) then Strip(t[..|t| - 1])
    else t
  }

  /** The place of the first sep, or the length. */
  function Find(t: Text, sep: Code): (i: nat)
    ensures i <= |t| && (i < |t| ==> t[i] == sep)
    ensures forall j :: 0 <= j < i ==> t[j] != sep
  {
    if t == [] || t[0] == sep then 0 else 1 + Find(t[1..], sep)
  }

  function Split(t: Text, sep: Code): (parts: seq<Text>)
    ensures parts != []
    decreases |t|
  {
    var i := Find(t, sep);
    if i == |t| then [t] else [t[..i]] + Split(t[i + 1..], sep)
  }

  function Join(lines: seq<Text>): Text {
    if lines == [] then [] else if |lines| == 1 then lines[0] else lines[0] + [COMMA] + Join(lines[1..])
  }

  lemma {:induction false} JoinGrows(lines: seq<Text>, line: Text)
    ensures Join(lines + [line]) == Join(lines) + (if lines == [] then [] else [COMMA]) + line
  {
    if lines != [] {
      assert (lines + [line])[1..] == lines[1..] + [line];
      JoinGrows(lines[1..], line);
      JoinFirst(lines[0], lines[1..] + [line]);
      if |lines| > 1 { JoinFirst(lines[0], lines[1..]); assert [lines[0]] + lines[1..] == lines; }
      assert [lines[0]] + (lines[1..] + [line]) == lines + [line];
    }
  }

  lemma {:induction false} JoinFirst(first: Text, rest: seq<Text>)
    requires rest != []
    ensures Join([first] + rest) == first + [COMMA] + Join(rest)
  {
    assert ([first] + rest)[1..] == rest;
  }

  /** Nothing in it frames anything. */
  predicate Inert(t: Text) {
    t != [] && Ascii(t) && forall j :: 0 <= j < |t| ==> t[j] != COMMA && t[j] != SEMICOLON && !Space(t[j])
  }

  predicate AllInert(lines: seq<Text>) {
    forall i :: 0 <= i < |lines| ==> Inert(lines[i])
  }

  lemma {:induction false} FindAt(t: Text, sep: Code, i: nat)
    requires i <= |t| && (i < |t| ==> t[i] == sep) && forall j :: 0 <= j < i ==> t[j] != sep
    ensures Find(t, sep) == i
  {
  }

  /** Quoted texts on either side of an equals sign. */
  lemma {:induction false} PairIsInert(key: Text, value: Text)
    requires AllPlain(key) && AllPlain(value)
    ensures var line := key + [EQUALS] + value;
            && Inert(line) && Strip(line) == line && Find(line, EQUALS) == |key| && Find(line, SEMICOLON) == |line|
            && line[..|key|] == key && line[|key| + 1..] == value && line[..|line|] == line
  {
    var line := key + [EQUALS] + value;
    forall j | 0 <= j < |line| ensures Plain(line[j]) || line[j] == EQUALS {
    }
    FindAt(line, EQUALS, |key|);
    FindAt(line, SEMICOLON, |line|);
  }

  /** A comma in front splits off a part that holds none. */
  lemma {:induction false} SplitCons(first: Text, rest: Text)
    requires Inert(first)
    ensures Split(first + [COMMA] + rest, COMMA) == [first] + Split(rest, COMMA)
  {
    var t := first + [COMMA] + rest;
    FindAt(t, COMMA, |first|);
    assert t[..|first|] == first && t[|first| + 1..] == rest;
  }

  /** What was joined is what is split. */
  lemma {:induction false} SplitJoin(lines: seq<Text>)
    requires lines != [] && AllInert(lines)
    ensures Split(Join(lines), COMMA) == lines
  {
    if |lines| == 1 {
      FindAt(lines[0], COMMA, |lines[0]|);
    } else {
      SplitCons(lines[0], Join(lines[1..]));
      SplitJoin(lines[1..]);
    }
  }

  lemma {:induction false} JoinIsText(lines: seq<Text>)
    requires lines != [] && AllInert(lines)
    ensures var t := Join(lines); t != [] && Ascii(t) && !Space(t[0]) && !Space(t[|t| - 1])
  {
    if |lines| > 1 {
      JoinIsText(lines[1..]);
      AsciiJoined(lines[0], Join(lines[1..]));
    }
  }

  lemma {:induction false} AsciiJoined(a: Text, b: Text)
    requires Inert(a) && Ascii(b) && b != [] && !Space(b[|b| - 1])
    ensures var t := a + [COMMA] + b; Ascii(t) && !Space(t[0]) && !Space(t[|t| - 1])
  {
  }
}
