/**
 The baggage header (section 3 of W3C Baggage): formatting a coerced mapping of strings under the
 size cap, and parsing a header that may come from anywhere.
 */
module Baggage {
  import opened Utf8
  import opened Percent
  import opened Framing

  const MAX_BYTES: nat := 8192
  datatype Member = Member(key: Text, value: Text)

  predicate Distinct(ms: seq<Member>) {
    forall i, j :: 0 <= i < j < |ms| ==> ms[i].key != ms[j].key
  }

  /** The entries of a coerced mapping of strings, in order: no key twice, and every text encodes. */
  predicate Coerced(ms: seq<Member>) {
    Distinct(ms) && forall i :: 0 <= i < |ms| ==> Scalar(ms[i].key) && Scalar(ms[i].value)
  }

  // ------------------------------------------------------------------ formatting

  /** A member with an empty key is never written: the parser would refuse the whole header. */
  predicate Usable(m: Member) {
    m.key != []
  }

  /** key=value, both percent-encoded. */
  function Line(m: Member): Text {
    Quote(m.key) + [EQUALS] + Quote(m.value)
  }

  function Lines(ms: seq<Member>): (r: seq<Text>)
    ensures |r| == |ms|
  {
    seq(|ms|, i requires 0 <= i < |ms| => Line(ms[i]))
  }

  function Header(ms: seq<Member>): Text {
    Join(Lines(ms))
  }

  function UsableOf(ms: seq<Member>): seq<Member> {
    if ms == [] then []
    else UsableOf(ms[..|ms| - 1]) + if Usable(ms[|ms| - 1]) then [ms[|ms| - 1]] else []
  }

  /** How many of the members, from the front, fit in a header. */
  ghost predicate FitsMost(ms: seq<Member>, k: nat) {
    && k <= |ms| && |Header(ms[..k])| <= MAX_BYTES
    && (k < |ms| ==> |Header(ms[..k + 1])| > MAX_BYTES)
  }

  lemma {:induction false} LinesGrow(ms: seq<Member>, m: Member)
    ensures Lines(ms + [m]) == Lines(ms) + [Line(m)]
  {
    forall i | 0 <= i < |ms| ensures Lines(ms + [m])[i] == Lines(ms)[i] {
    }
  }

  lemma {:induction false} HeaderGrows(ms: seq<Member>, m: Member)
    ensures Header(ms + [m]) == Header(ms) + (if ms == [] then [] else [COMMA]) + Line(m)
  {
    LinesGrow(ms, m);
    JoinGrows(Lines(ms), Line(m));
  }

  /** format_baggage_header(): what is kept is the longest prefix of the usable members whose header
      is within the cap, and everything else is counted as dropped. */
  method FormatHeader(ms: seq<Member>) returns (header: Text, dropped: nat, ghost kept: nat)
    ensures FitsMost(UsableOf(ms), kept)
    ensures header == Header(UsableOf(ms)[..kept]) && |header| <= MAX_BYTES
    ensures dropped == |ms| - kept
  {
    header, dropped := [], 0;
    var count, ended := 0, false;
    ghost var usable: seq<Member> := [];
    for i := 0 to |ms|
      invariant usable == UsableOf(ms[..i]) && count <= |usable|
      invariant header == Header(usable[..count]) && dropped == i - count
      invariant !ended ==> count == |usable| && |header| <= MAX_BYTES
      invariant ended ==> FitsMost(usable, count) && count < |usable|
    {
      assert ms[..i + 1][..i] == ms[..i];
      if !Usable(ms[i]) {
        dropped := dropped + 1;
      } else {
        var line := Line(ms[i]);
        ghost var before := usable;
        usable := usable + [ms[i]];
        MoreUsable(before, ms[i], count);
        if ended {
          dropped := dropped + 1;
        } else {
          var grown := |header| + |line| + (if count > 0 then 1 else 0);
          if grown > MAX_BYTES {
            ended, dropped := true, dropped + 1;
          } else {
            header := header + (if count > 0 then [COMMA] else []) + line;
            count := count + 1;
          }
        }
      }
    }
    assert ms[..|ms|] == ms;
    kept := count;
  }

  /** One more usable member: what was kept stands, and the header grows by the member's line. */
  lemma {:induction false} MoreUsable(usable: seq<Member>, m: Member, count: nat)
    requires count <= |usable|
    ensures (usable + [m])[..count] == usable[..count]
    ensures count < |usable| ==> (usable + [m])[..count + 1] == usable[..count + 1]
    ensures count == |usable| ==>
              && (usable + [m])[..count + 1] == usable + [m] && usable[..count] == usable
              && Header(usable + [m]) == Header(usable) + (if count > 0 then [COMMA] else []) + Line(m)
  {
    HeaderGrows(usable, m);
  }

  // ------------------------------------------------------------------ parsing

  /** The length of the header in UTF-8, a lone surrogate counting as the one byte of a "?". */
  function EncodedLength(t: Text): nat {
    if t == [] then 0 else (if Surrogate(t[0]) then 1 else Width(t[0])) + EncodedLength(t[1..])
  }

  /** parsed[key] = value: a key already there keeps its place. */
  function Put(ms: seq<Member>, m: Member): seq<Member> {
    if ms == [] then [m] else if ms[0].key == m.key then [m] + ms[1..] else [ms[0]] + Put(ms[1..], m)
  }

  /** What one part of the header says. */
  datatype Part = Blank | Malformed | Says(member: Member)

  function ReadPart(part: Text): Part {
    var entry := Strip(part[..Find(part, SEMICOLON)]);
    var i := Find(entry, EQUALS);
    if entry == [] then Blank
    else if i == |entry| then Malformed
    else
      var key := Unquote(Strip(entry[..i]));
      if key == [] then Malformed else Says(Member(key, Unquote(Strip(entry[i + 1..]))))
  }

  /** A mapping, or None. */
  datatype Parsed = Nothing | Mapping(members: seq<Member>)

  function PartsOf(parts: seq<Text>): (r: seq<Part>)
    ensures |r| == |parts|
  {
    seq(|parts|, i requires 0 <= i < |parts| => ReadPart(parts[i]))
  }

  /** One malformed part spoils the whole header. */
  function Gather(parts: seq<Part>, sofar: seq<Member>): Parsed {
    if parts == [] then if sofar == [] then Nothing else Mapping(sofar)
    else match parts[0]
         case Blank => Gather(parts[1..], sofar)
         case Malformed => Nothing
         case Says(m) => Gather(parts[1..], Put(sofar, m))
  }

  function Parse(header: Text): Parsed {
    if Strip(header) == [] || EncodedLength(header) > MAX_BYTES then Nothing
    else Gather(PartsOf(Split(header, COMMA)), [])
  }

  /** parse_baggage_header() */
  method ParseHeader(header: Text) returns (r: Parsed)
    ensures r == Parse(header)
  {
    if Strip(header) == [] || EncodedLength(header) > MAX_BYTES { return Nothing; }
    var parts := Split(header, COMMA);
    ghost var all := PartsOf(parts);
    var parsed: seq<Member> := [];
    assert all[0..] == all;
    for i := 0 to |parts|
      invariant Gather(all[i..], parsed) == Gather(all, [])
    {
      assert all[i..][1..] == all[i + 1..];
      match ReadPart(parts[i])
      case Blank =>
      case Malformed => return Nothing;
      case Says(m) => parsed := Put(parsed, m);
    }
    r := if parsed == [] then Nothing else Mapping(parsed);
  }

  // ------------------------------------------------------------------ the round trip

  lemma {:induction false} QuotedReadsBack(t: Text)
    requires Scalar(t)
    ensures AllPlain(Quote(t)) && Unquote(Quote(t)) == t
  {
    QuotePlain(Encode(t));
    QuoteRoundTrip(t);
  }

  lemma {:induction false} PlainStrips(t: Text)
    requires AllPlain(t)
    ensures Strip(t) == t
  {
  }

  /** A part made of two quoted texts says what they quote. */
  lemma {:induction false} PairReads(key: Text, value: Text)
    requires AllPlain(key) && AllPlain(value) && Unquote(key) != []
    ensures Inert(key + [EQUALS] + value)
    ensures ReadPart(key + [EQUALS] + value) == Says(Member(Unquote(key), Unquote(value)))
  {
    PairIsInert(key, value);
    PlainStrips(key);
    PlainStrips(value);
  }

  /** A line frames nothing, and reads back as the member it was written for. */
  lemma {:induction false} LineRoundTrip(m: Member)
    requires Usable(m) && Scalar(m.key) && Scalar(m.value)
    ensures Inert(Line(m)) && ReadPart(Line(m)) == Says(m)
  {
    QuotedReadsBack(m.key);
    QuotedReadsBack(m.value);
    PairReads(Quote(m.key), Quote(m.value));
  }

  predicate AllUsable(ms: seq<Member>) {
    forall i :: 0 <= i < |ms| ==> Usable(ms[i])
  }

  lemma {:induction false} LinesInert(ms: seq<Member>)
    requires Coerced(ms) && AllUsable(ms)
    ensures AllInert(Lines(ms))
  {
    forall i | 0 <= i < |ms| ensures Inert(Lines(ms)[i]) { LineRoundTrip(ms[i]); }
  }

  lemma {:induction false} AsciiLength(t: Text)
    requires Ascii(t)
    ensures EncodedLength(t) == |t|
  {
    if t != [] { AsciiLength(t[1..]); }
  }

  lemma {:induction false} PutNew(ms: seq<Member>, m: Member)
    requires forall i :: 0 <= i < |ms| ==> ms[i].key != m.key
    ensures Put(ms, m) == ms + [m]
  {
    if ms != [] { PutNew(ms[1..], m); }
  }

  /** The parts from the k-th on, with those before it already gathered. */
  lemma {:induction false} PartsGathered(ms: seq<Member>, parts: seq<Part>, k: nat)
    requires k <= |ms| == |parts| && Distinct(ms) && ms != []
    requires forall i :: 0 <= i < |ms| ==> parts[i] == Says(ms[i])
    ensures Gather(parts[k..], ms[..k]) == Mapping(ms)
    decreases |ms| - k
  {
    if k == |ms| {
      assert ms[..k] == ms;
    } else {
      PutNew(ms[..k], ms[k]);
      assert ms[..k + 1] == ms[..k] + [ms[k]];
      assert parts[k..][0] == parts[k] && parts[k..][1..] == parts[k + 1..];
      PartsGathered(ms, parts, k + 1);
    }
  }

  lemma {:induction false} ParseJoined(ms: seq<Member>, lines: seq<Text>)
    requires |ms| == |lines| && Distinct(ms) && ms != [] && AllInert(lines) && |Join(lines)| <= MAX_BYTES
    requires forall i :: 0 <= i < |ms| ==> ReadPart(lines[i]) == Says(ms[i])
    ensures Parse(Join(lines)) == Mapping(ms)
  {
    JoinIsText(lines);
    AsciiLength(Join(lines));
    SplitJoin(lines);
    var parts := PartsOf(lines);
    PartsGathered(ms, parts, 0);
    assert parts[0..] == parts && ms[..0] == [];
  }

  /** The header of any usable members under the cap parses to exactly those members, in order;
      the empty header to nothing. */
  lemma {:induction false} HeaderRoundTrip(ms: seq<Member>)
    requires Coerced(ms) && AllUsable(ms) && |Header(ms)| <= MAX_BYTES
    ensures Parse(Header(ms)) == if ms == [] then Nothing else Mapping(ms)
  {
    if ms != [] {
      LinesInert(ms);
      forall i | 0 <= i < |ms| ensures ReadPart(Lines(ms)[i]) == Says(ms[i]) { LineRoundTrip(ms[i]); }
      ParseJoined(ms, Lines(ms));
    }
  }

  lemma {:induction false} UsableCoerced(ms: seq<Member>)
    requires Coerced(ms)
    ensures AllUsable(UsableOf(ms)) && Coerced(UsableOf(ms))
    ensures forall i :: 0 <= i < |UsableOf(ms)| ==> UsableOf(ms)[i] in ms
  {
    if ms != [] { UsableCoerced(ms[..|ms| - 1]); }
  }

  /** Formatting any mapping of strings and parsing the header gives back exactly the members kept:
      the usable ones, in order, as far as they fit; or nothing when none is kept. */
  method SendAndReceive(ms: seq<Member>) returns (header: Text, r: Parsed, ghost kept: nat)
    requires Coerced(ms)
    ensures |header| <= MAX_BYTES && FitsMost(UsableOf(ms), kept)
    ensures r == if kept == 0 then Nothing else Mapping(UsableOf(ms)[..kept])
  {
    var dropped;
    header, dropped, kept := FormatHeader(ms);
    UsableCoerced(ms);
    HeaderRoundTrip(UsableOf(ms)[..kept]);
    r := ParseHeader(header);
  }
}
