/**
 The OTLP request document: records grouped by their resource, the JSON text built around them,
 and the arithmetic that prices that text before it is built.
 */
module Otel {
  import opened Utf8
  import opened Framing

  /** One of the three resource stamps of an event. */
  datatype Stamp = Absent | Stamp(text: Text)

  datatype Key = Key(service: Stamp, version: Stamp, env: Stamp)

  /** A rendered record, already JSON, and the resource it belongs to. */
  datatype Record = Record(key: Key, text: Text)

  datatype Group = Group(key: Key, items: seq<Text>)

  /** The fixed parts of the document, and the JSON of a resource, of the scope and of the schema
      URL. */
  datatype Envelope = Envelope(head: Text, open: Text, afterResource: Text, afterScope: Text, afterRecords: Text,
                               afterUrl: Text, close: Text, tail: Text, resource: Key -> Text, scope: Text, url: Text)

  // ------------------------------------------------------------------ grouping

  /** groups.setdefault(key, []).append(text) */
  function Add(groups: seq<Group>, r: Record): seq<Group> {
    if groups == [] then [Group(r.key, [r.text])]
    else if groups[0].key == r.key then [Group(r.key, groups[0].items + [r.text])] + groups[1..]
    else [groups[0]] + Add(groups[1..], r)
  }

  /** The texts of the records under one key, in order. */
  function Under(rs: seq<Record>, key: Key): seq<Text> {
    if rs == [] then []
    else Under(rs[..|rs| - 1], key) + if rs[|rs| - 1].key == key then [rs[|rs| - 1].text] else []
  }

  /** The keys, each once, in the order they first appear. */
  function FirstSeen(rs: seq<Record>): seq<Key> {
    if rs == [] then []
    else
      var before := FirstSeen(rs[..|rs| - 1]);
      if rs[|rs| - 1].key in before then before else before + [rs[|rs| - 1].key]
  }

  function KeysOf(groups: seq<Group>): (keys: seq<Key>)
    ensures |keys| == |groups|
  {
    seq(|groups|, i requires 0 <= i < |groups| => groups[i].key)
  }

  /** The groups are the records parted by key: no key twice, first-seen order, and within each
      group every record of that key, in order. */
  ghost predicate Parts(groups: seq<Group>, rs: seq<Record>) {
    && KeysOf(groups) == FirstSeen(rs)
    && (forall i, j :: 0 <= i < j < |groups| ==> groups[i].key != groups[j].key)
    && (forall i :: 0 <= i < |groups| ==> groups[i].items == Under(rs, groups[i].key) && groups[i].items != [])
  }

  lemma {:induction false} AddFinds(groups: seq<Group>, r: Record, i: nat)
    requires i < |groups| && groups[i].key == r.key && forall j :: 0 <= j < i ==> groups[j].key != r.key
    ensures Add(groups, r) == groups[i := Group(r.key, groups[i].items + [r.text])]
  {
    if i > 0 { AddFinds(groups[1..], r, i - 1); }
  }

  lemma {:induction false} AddAppends(groups: seq<Group>, r: Record)
    requires forall j :: 0 <= j < |groups| ==> groups[j].key != r.key
    ensures Add(groups, r) == groups + [Group(r.key, [r.text])]
  {
    if groups != [] { AddAppends(groups[1..], r); }
  }

  lemma {:induction false} UnderUnseen(rs: seq<Record>, key: Key)
    requires key !in FirstSeen(rs)
    ensures Under(rs, key) == []
  {
    if rs != [] { UnderUnseen(rs[..|rs| - 1], key); }
  }

  lemma {:induction false} AddParts(groups: seq<Group>, rs: seq<Record>, r: Record)
    requires Parts(groups, rs)
    ensures Parts(Add(groups, r), rs + [r])
  {
    var more := rs + [r];
    assert more[..|rs|] == rs;
    forall key ensures Under(more, key) == Under(rs, key) + if r.key == key then [r.text] else [] {
    }
    if r.key in KeysOf(groups) {
      var i :| 0 <= i < |groups| && KeysOf(groups)[i] == r.key;
      AddFinds(groups, r, i);
      assert KeysOf(Add(groups, r)) == KeysOf(groups);
    } else {
      forall j | 0 <= j < |groups| ensures groups[j].key != r.key { assert KeysOf(groups)[j] != r.key; }
      AddAppends(groups, r);
      UnderUnseen(rs, r.key);
      assert KeysOf(Add(groups, r)) == KeysOf(groups) + [r.key];
    }
  }

  // ------------------------------------------------------------------ the document

  /** What stands before and after a group's records. */
  function Before(e: Envelope, key: Key): Text {
    e.open + e.resource(key) + e.afterResource + e.scope + e.afterScope
  }

  function After(e: Envelope): Text {
    e.afterRecords + e.url + e.afterUrl + e.url + e.close
  }

  function GroupText(e: Envelope, g: Group): Text {
    Before(e, g.key) + Join(g.items) + After(e)
  }

  function GroupTexts(e: Envelope, groups: seq<Group>): (texts: seq<Text>)
    ensures |texts| == |groups|
  {
    if groups == [] then [] else [GroupText(e, groups[0])] + GroupTexts(e, groups[1..])
  }

  function Document(e: Envelope, groups: seq<Group>): Text {
    e.head + Join(GroupTexts(e, groups)) + e.tail
  }

  /** The grouping, record by record. */
  function GroupsOf(rs: seq<Record>): seq<Group> {
    if rs == [] then [] else Add(GroupsOf(rs[..|rs| - 1]), rs[|rs| - 1])
  }

  lemma {:induction false} GroupsParts(rs: seq<Record>)
    ensures Parts(GroupsOf(rs), rs)
  {
    if rs != [] {
      GroupsParts(rs[..|rs| - 1]);
      AddParts(GroupsOf(rs[..|rs| - 1]), rs[..|rs| - 1], rs[|rs| - 1]);
      assert rs[..|rs| - 1] + [rs[|rs| - 1]] == rs;
    }
  }

  /** request_body(): the document over the records parted by key; it weighs exactly the empty
      document, each group's framing, the records and the commas, and never more than its price. */
  method RequestBody(e: Envelope, rs: seq<Record>) returns (body: Text)
    ensures body == Document(e, GroupsOf(rs)) && Parts(GroupsOf(rs), rs)
    ensures Size(body) == EmptySize(e) + FramingOf(e, FirstSeen(rs)) + TextSize(rs) + Commas(rs)
    ensures Size(body) <= EmptySize(e) + Priced(e, rs)
  {
    var groups: seq<Group> := [];
    for i := 0 to |rs|
      invariant groups == GroupsOf(rs[..i])
    {
      assert rs[..i + 1][..i] == rs[..i];
      groups := Add(groups, rs[i]);
    }
    assert rs[..|rs|] == rs;
    body := Document(e, groups);
    GroupsParts(rs);
    BodySize(e, rs);
    PriceIsEnough(e, rs);
  }

  // ------------------------------------------------------------------ what it weighs

  function EmptySize(e: Envelope): nat {
    Size(Document(e, []))
  }

  /** framing(): a document holding one empty record, less the empty document. */
  function FramingSize(e: Envelope, key: Key): int {
    Size(Document(e, [Group(key, [[]])])) - EmptySize(e)
  }

  function FramingOf(e: Envelope, keys: seq<Key>): int {
    if keys == [] then 0 else FramingOf(e, keys[..|keys| - 1]) + FramingSize(e, keys[|keys| - 1])
  }

  function TextSize(rs: seq<Record>): nat {
    if rs == [] then 0 else TextSize(rs[..|rs| - 1]) + Size(rs[|rs| - 1].text)
  }

  /** One comma less than there are records: within the groups and between them, taken together. */
  function Commas(rs: seq<Record>): nat {
    if rs == [] then 0 else |rs| - 1
  }

  /** What a batch is priced at: for each record, its group's framing, its own bytes and a comma. */
  function Priced(e: Envelope, rs: seq<Record>): int {
    if rs == [] then 0
    else Priced(e, rs[..|rs| - 1]) + FramingSize(e, rs[|rs| - 1].key) + Size(rs[|rs| - 1].text) + 1
  }

  function Sizes(texts: seq<Text>): nat {
    if texts == [] then 0 else Size(texts[0]) + Sizes(texts[1..])
  }

  function Between(n: nat): nat {
    if n == 0 then 0 else n - 1
  }

  lemma {:induction false} JoinSize(texts: seq<Text>)
    ensures Size(Join(texts)) == Sizes(texts) + Between(|texts|)
  {
    if |texts| == 1 {
      assert texts[1..] == [];
    } else if |texts| > 1 {
      JoinSize(texts[1..]);
      SizeConcat(texts[0] + [COMMA], Join(texts[1..]));
      SizeConcat(texts[0], [COMMA]);
      assert [COMMA][1..] == [];
    }
  }

  lemma {:induction false} SizesGrow(texts: seq<Text>, t: Text)
    ensures Sizes(texts + [t]) == Sizes(texts) + Size(t)
  {
    if texts == [] {
      assert texts + [t] == [t] && [t][1..] == [];
    } else {
      assert (texts + [t])[1..] == texts[1..] + [t];
      SizesGrow(texts[1..], t);
    }
  }

  lemma {:induction false} GroupSize(e: Envelope, g: Group)
    ensures Size(GroupText(e, g)) == Size(Before(e, g.key)) + Size(After(e)) + Sizes(g.items) + Between(|g.items|)
  {
    SizeConcat(Before(e, g.key) + Join(g.items), After(e));
    SizeConcat(Before(e, g.key), Join(g.items));
    JoinSize(g.items);
  }

  lemma {:induction false} DocumentSize(e: Envelope, groups: seq<Group>)
    ensures Size(Document(e, groups)) == EmptySize(e) + Sizes(GroupTexts(e, groups)) + Between(|groups|)
  {
    var texts := GroupTexts(e, groups);
    SizeConcat(e.head + Join(texts), e.tail);
    SizeConcat(e.head, Join(texts));
    SizeConcat(e.head + Join([]), e.tail);
    SizeConcat(e.head, Join([]));
    JoinSize(texts);
  }

  /** framing() is what stands around a group's records. */
  lemma {:induction false} FramingMeaning(e: Envelope, key: Key)
    ensures FramingSize(e, key) == Size(Before(e, key)) + Size(After(e))
  {
    var one := Group(key, [[]]);
    DocumentSize(e, [one]);
    GroupSize(e, one);
    assert [one][1..] == [] && one.items[1..] == [];
    assert GroupTexts(e, [one]) == [GroupText(e, one)];
    assert Sizes(GroupTexts(e, [one])) == Size(GroupText(e, one)) by {
      assert [GroupText(e, one)][1..] == [];
    }
  }

  // ------------------------------------------------------------------ conservation

  /** What one more record adds to the groups' texts: its bytes, and a comma or a framing. */
  lemma {:induction false} AddWeighs(e: Envelope, groups: seq<Group>, r: Record)
    requires forall i :: 0 <= i < |groups| ==> groups[i].items != []
    ensures var known := r.key in KeysOf(groups);
            && Sizes(GroupTexts(e, Add(groups, r))) ==
               Sizes(GroupTexts(e, groups)) + Size(r.text) + (if known then 1 else FramingSize(e, r.key))
            && |Add(groups, r)| == |groups| + (if known then 0 else 1)
  {
    if groups == [] {
      AddToNone(e, r);
    } else if groups[0].key == r.key {
      var g := groups[0];
      var more := Group(r.key, g.items + [r.text]);
      assert KeysOf(groups)[0] == r.key;
      assert Add(groups, r)[1..] == groups[1..];
      GroupSize(e, g);
      GroupSize(e, more);
      SizesGrow(g.items, r.text);
    } else {
      AddWeighs(e, groups[1..], r);
      KeysTail(groups, r.key);
      assert Add(groups, r)[1..] == Add(groups[1..], r);
    }
  }

  lemma {:induction false} KeysTail(groups: seq<Group>, key: Key)
    requires groups != [] && groups[0].key != key
    ensures key in KeysOf(groups) <==> key in KeysOf(groups[1..])
  {
    assert KeysOf(groups) == [groups[0].key] + KeysOf(groups[1..]);
  }

  lemma {:induction false} AddToNone(e: Envelope, r: Record)
    ensures Sizes(GroupTexts(e, Add([], r))) == Size(r.text) + FramingSize(e, r.key)
  {
    var g := Group(r.key, [r.text]);
    GroupSize(e, g);
    FramingMeaning(e, r.key);
    assert g.items[1..] == [] && [g][1..] == [];
    assert GroupTexts(e, [g]) == [GroupText(e, g)] && [GroupText(e, g)][1..] == [];
  }

  /** The document weighs exactly the empty document, one framing for each resource, the records
      and the commas between them. */
  lemma {:induction false} BodySize(e: Envelope, rs: seq<Record>)
    ensures Size(Document(e, GroupsOf(rs))) == EmptySize(e) + FramingOf(e, FirstSeen(rs)) + TextSize(rs) + Commas(rs)
  {
    DocumentSize(e, GroupsOf(rs));
    GroupsWeigh(e, rs);
  }

  lemma {:induction false} FramingGrows(e: Envelope, rs: seq<Record>)
    requires rs != []
    ensures var n, before := |rs| - 1, FirstSeen(rs[..|rs| - 1]);
            && FramingOf(e, FirstSeen(rs)) ==
               FramingOf(e, before) + (if rs[n].key in before then 0 else FramingSize(e, rs[n].key))
            && |FirstSeen(rs)| == |before| + (if rs[n].key in before then 0 else 1)
  {
    var n, before := |rs| - 1, FirstSeen(rs[..|rs| - 1]);
    assert (before + [rs[n].key])[..|before|] == before;
  }

  lemma {:induction false} GroupsGrow(e: Envelope, rs: seq<Record>)
    requires rs != []
    ensures var n, before := |rs| - 1, GroupsOf(rs[..|rs| - 1]);
            var known := rs[n].key in FirstSeen(rs[..n]);
            && Sizes(GroupTexts(e, GroupsOf(rs))) ==
               Sizes(GroupTexts(e, before)) + Size(rs[n].text) + (if known then 1 else FramingSize(e, rs[n].key))
            && |GroupsOf(rs)| == |before| + (if known then 0 else 1)
  {
    var n := |rs| - 1;
    GroupsParts(rs[..n]);
    AddWeighs(e, GroupsOf(rs[..n]), rs[n]);
  }

  lemma {:induction false} GroupsWeigh(e: Envelope, rs: seq<Record>)
    ensures Sizes(GroupTexts(e, GroupsOf(rs))) + Between(|GroupsOf(rs)|) ==
            FramingOf(e, FirstSeen(rs)) + TextSize(rs) + Commas(rs)
    ensures |GroupsOf(rs)| == |FirstSeen(rs)| && (rs != [] ==> |GroupsOf(rs)| > 0)
  {
    if rs != [] {
      GroupsWeigh(e, rs[..|rs| - 1]);
      FramingGrows(e, rs);
      GroupsGrow(e, rs);
    }
  }

  lemma {:induction false} FramingIsNatural(e: Envelope, key: Key)
    ensures FramingSize(e, key) >= 0
  {
    FramingMeaning(e, key);
  }

  /** Pricing every record with a framing and a comma of its own is never too little. */
  lemma {:induction false} PriceIsEnough(e: Envelope, rs: seq<Record>)
    ensures Size(Document(e, GroupsOf(rs))) <= EmptySize(e) + Priced(e, rs)
  {
    BodySize(e, rs);
    FramesPriced(e, rs);
  }

  lemma {:induction false} FramesPriced(e: Envelope, rs: seq<Record>)
    ensures FramingOf(e, FirstSeen(rs)) + TextSize(rs) + |rs| <= Priced(e, rs)
  {
    if rs != [] {
      var n := |rs| - 1;
      FramesPriced(e, rs[..n]);
      FramingIsNatural(e, rs[n].key);
      var before := FirstSeen(rs[..n]);
      assert (before + [rs[n].key])[..|before|] == before;
    }
  }
}
