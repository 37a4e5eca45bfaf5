/**
 The rendering a value would have with no limit at all, and the proof that a pass which marked
 nothing returned exactly that: an event without the truncated mark is whole.
 */
module CoercionWhole {
  import opened Utf8
  import opened CoercionModel
  import opened CoercionTheorems
  import Clip
  import Digits

  // ------------------------------------------------------------------ the unlimited rendering

  datatype Rendering = Is(out: Out) | Raises

  /** How many containers are still to be entered below these ancestors. */
  function Fresh(h: Heap, parents: seq<Id>): nat {
    |h.Keys - set x | x in parents|
  }

  lemma {:induction false} FreshShrinks(h: Heap, parents: seq<Id>, id: Id)
    requires id in h && id !in parents
    ensures Fresh(h, parents + [id]) < Fresh(h, parents)
  {
    var was := h.Keys - set x | x in parents;
    assert h.Keys - (set x | x in parents + [id]) == was - {id};
  }

  function Placeholder(c: Config, name: Text): Text {
    c.words.value + name + c.words.close
  }

  /** The text of a leaf, nothing cut; [] where printing raises. */
  function PrintedText(cell: Cell): Text {
    if cell.str.Prints? then cell.str.text else []
  }

  function WholeLeaf(c: Config, cell: Cell): Out
    requires !IsContainer(cell.kind)
  {
    match cell.kind
    case Null => ONull
    case Flag(b) => OFlag(b)
    case Whole(v) => OWhole(v)
    case Real(_, repr) => OReal(repr)
    case Str(text) => OText(text)
    case Raw(bytes) => OText(Decode(bytes, [REPLACEMENT]))
    case Rendered => OText(if cell.str.Prints? then cell.str.text else Placeholder(c, cell.name))
    case Opaque => OText(Placeholder(c, cell.name))
  }

  function WholeLeafKey(cell: Cell): Text {
    match cell.kind
    case Str(text) => text
    case Whole(v) => Digits.IntText(v)
    case Real(_, repr) => repr
    case _ => PrintedText(cell)
  }

  function WholeValue(c: Config, h: Heap, id: Id, parents: seq<Id>): Out
    decreases Fresh(h, parents), 2, 0
  {
    if !IsContainer(At(h, id).kind) then WholeLeaf(c, At(h, id))
    else
      var r := WholeContainer(c, h, id, parents);
      if r.Is? then r.out else OText(Placeholder(c, At(h, id).name))
  }

  function WholeContainer(c: Config, h: Heap, id: Id, parents: seq<Id>): Rendering
    requires IsContainer(At(h, id).kind)
    decreases Fresh(h, parents), 1, 0
  {
    var kind := At(h, id).kind;
    if id in parents then Is(OText(c.words.circular))
    else
      FreshShrinks(h, parents, id);
      if kind.Mapping? then WholeFields(c, h, kind.entries, kind.raises, parents + [id], [])
      else WholeItems(c, h, kind.items, kind.raises, parents + [id], [])
  }

  function WholeFields(c: Config, h: Heap, entries: seq<Entry>, raises: bool, parents: seq<Id>, out: seq<Field>): Rendering
    decreases Fresh(h, parents), 3, |entries|
  {
    if entries == [] then if raises then Raises else Is(OMap(out))
    else
      WholeFields(c, h, entries[1..], raises, parents,
                  Put(out, WholeKey(c, h, entries[0].key, parents), WholeValue(c, h, entries[0].value, parents)))
  }

  function WholeItems(c: Config, h: Heap, items: seq<Id>, raises: bool, parents: seq<Id>, out: seq<Out>): Rendering
    decreases Fresh(h, parents), 3, |items|
  {
    if items == [] then if raises then Raises else Is(OList(out))
    else WholeItems(c, h, items[1..], raises, parents, out + [WholeValue(c, h, items[0], parents)])
  }

  function WholeKey(c: Config, h: Heap, id: Id, parents: seq<Id>): Text
    decreases Fresh(h, parents), 2, 0
  {
    var cell := At(h, id);
    if IsContainer(cell.kind) && cell.kind.builtin then
      var r := WholeContainer(c, h, id, parents);
      if r.Is? then c.dumps(r.out) else []
    else WholeLeafKey(cell)
  }

  // ------------------------------------------------------------------ unmarked leaves

  /** What was not altered is the text itself. */
  lemma {:induction false} UnclippedIsWhole(t: Text, maxBytes: nat)
    requires !Clip.ClipHead(t, maxBytes).altered
    ensures Clip.ClipHead(t, maxBytes).text == t
  {
    Clip.HeadIsACeiling(t, maxBytes);
  }

  lemma {:induction false} FrontWidth(bs: seq<Byte>)
    requires bs != [] && FrontOf(bs).Char?
    ensures Width(FrontOf(bs).code) == FrontOf(bs).len && !Surrogate(FrontOf(bs).code)
  {
  }

  lemma {:induction false} DecodesSize(bs: seq<Byte>, forBad: Text)
    requires Decodes(bs)
    ensures Size(Decode(bs, forBad)) == |bs| && Scalar(Decode(bs, forBad))
    decreases |bs|
  {
    if bs != [] {
      var f := FrontOf(bs);
      FrontWidth(bs);
      DecodesSize(bs[f.len..], forBad);
      assert Decode(bs, forBad)[1..] == Decode(bs[f.len..], forBad);
    }
  }

  /** Bytes that decode, one more than the ceiling, are a text that is clipped. */
  lemma {:induction false} TooLongIsClipped(head: seq<Byte>, maxBytes: nat)
    requires Decodes(head) && |head| == maxBytes + 1
    ensures Clip.ClipHead(Decode(head, [REPLACEMENT]), maxBytes).altered
  {
    var text := Decode(head, [REPLACEMENT]);
    DecodesSize(head, [REPLACEMENT]);
    Clip.HeadIsACeiling(text, maxBytes);
    assert Clip.Clean(text) == text;
  }

  lemma {:induction false} AlteredIsMarked(c: Config, p: Pass, t: Text)
    ensures p.truncated || Clip.ClipHead(t, c.maxValueBytes).altered ==> SayText(c, p, t).pass.truncated
  {
  }

  /** More bytes than the ceiling never go unmarked. */
  lemma {:induction false} LongBytesAreMarked(c: Config, p: Pass, bytes: seq<Byte>)
    requires !SayRaw(c, p, bytes).pass.truncated
    ensures |bytes| <= c.maxValueBytes
  {
    if |bytes| > c.maxValueBytes {
      var head := bytes[..c.maxValueBytes + 1];
      if Decodes(head) { TooLongIsClipped(head, c.maxValueBytes); }
      AlteredIsMarked(c, Cut(p, !Decodes(head)), Decode(head, [REPLACEMENT]));
    }
  }

  lemma {:induction false} SaidIsWhole(c: Config, p: Pass, t: Text)
    ensures !SayText(c, p, t).pass.truncated ==> SayText(c, p, t).text == t
    ensures !SayProduced(c, p, t).pass.truncated ==> SayProduced(c, p, t).text == t
  {
    if !Clip.ClipHead(t, c.maxValueBytes).altered { UnclippedIsWhole(t, c.maxValueBytes); }
  }

  lemma {:induction false} RawIsWhole(c: Config, p: Pass, bytes: seq<Byte>)
    requires !SayRaw(c, p, bytes).pass.truncated
    ensures SayRaw(c, p, bytes).text == Decode(bytes, [REPLACEMENT])
  {
    LongBytesAreMarked(c, p, bytes);
    SaidIsWhole(c, Cut(p, !Decodes(bytes)), Decode(bytes, [REPLACEMENT]));
  }

  /** A leaf that marked nothing is whole; one that raised prints its placeholder. */
  lemma {:induction false} LeafIsWhole(c: Config, p: Pass, cell: Cell)
    requires !IsContainer(cell.kind) && !Leaf(c, p, cell).pass.truncated
    ensures Leaf(c, p, cell).Got? ==> Leaf(c, p, cell).out == WholeLeaf(c, cell)
    ensures Leaf(c, p, cell).Threw? ==> WholeLeaf(c, cell) == OText(Placeholder(c, cell.name))
  {
    match cell.kind
    case Str(text) => SaidIsWhole(c, p, text);
    case Raw(bytes) => RawIsWhole(c, p, bytes);
    case Rendered => if cell.str.Prints? { SaidIsWhole(c, p, cell.str.text); }
    case Opaque => SaidIsWhole(c, p, Placeholder(c, cell.name));
    case _ =>
  }

  lemma {:induction false} PrintedKeyIsWhole(c: Config, p: Pass, cell: Cell)
    requires !PrintedKey(c, p, cell).pass.truncated
    ensures PrintedKey(c, p, cell).text == PrintedText(cell)
  {
    if cell.str.Prints? { SaidIsWhole(c, p, cell.str.text); }
  }

  lemma {:induction false} IntKeyIsWhole(c: Config, p: Pass, cell: Cell)
    requires cell.kind.Whole? && !LeafKey(c, p, cell).pass.truncated
    ensures LeafKey(c, p, cell).text == Digits.IntText(cell.kind.v)
  {
    SaidIsWhole(c, p, Digits.IntText(cell.kind.v));
  }

  lemma {:induction false} LeafKeyIsWhole(c: Config, p: Pass, cell: Cell)
    requires !LeafKey(c, p, cell).pass.truncated
    ensures LeafKey(c, p, cell).text == WholeLeafKey(cell)
  {
    match cell.kind
    case Str(text) => SaidIsWhole(c, p, text);
    case Whole(v) => IntKeyIsWhole(c, p, cell);
    case Real(finite, repr) => SaidIsWhole(c, p, repr);
    case _ => PrintedKeyIsWhole(c, p, cell);
  }

  // ------------------------------------------------------------------ the walk

  lemma {:induction false} ValueIsWhole(c: Config, h: Heap, id: Id, depth: int, parents: seq<Id>, p: Pass)
    requires Sound(c, p) && !Value(c, h, id, depth, parents, p).pass.truncated
    ensures Value(c, h, id, depth, parents, p).out == WholeValue(c, h, id, parents)
    decreases Left(c, depth), 3, 0
  {
    var got := Dispatch(c, h, id, depth, parents, Visit(p, id));
    if got.Threw? { SaidIsWhole(c, got.pass, Placeholder(c, At(h, id).name)); ThrewMarks(c, got.pass, At(h, id).name); }
    DispatchIsWhole(c, h, id, depth, parents, Visit(p, id));
  }

  /** A placeholder said after a raise hides no mark made before it. */
  lemma {:induction false} ThrewMarks(c: Config, p: Pass, name: Text)
    ensures p.truncated ==> SayPlaceholder(c, p, name).pass.truncated
    ensures KeyThrew(c, p, name).pass.truncated
  {
  }

  lemma {:induction false} DispatchIsWhole(c: Config, h: Heap, id: Id, depth: int, parents: seq<Id>, p: Pass)
    requires Sound(c, p) && !Dispatch(c, h, id, depth, parents, p).pass.truncated
    ensures var got := Dispatch(c, h, id, depth, parents, p);
            WholeValue(c, h, id, parents) == if got.Got? then got.out else OText(Placeholder(c, At(h, id).name))
    decreases Left(c, depth), 2, 0
  {
    if IsContainer(At(h, id).kind) {
      ContainerIsWhole(c, h, id, depth, parents, p);
    } else {
      LeafIsWhole(c, p, At(h, id));
    }
  }

  /** What the unlimited rendering of a container is, seen from the walk's result. */
  predicate Agrees(got: Got, r: Rendering) {
    if got.Got? then r == Is(got.out) else r == Raises
  }

  lemma {:induction false} ContainerIsWhole(c: Config, h: Heap, id: Id, depth: int, parents: seq<Id>, p: Pass)
    requires Sound(c, p) && depth < c.maxDepth && IsContainer(At(h, id).kind)
    requires !Container(c, h, id, depth, parents, p).pass.truncated
    ensures Agrees(Container(c, h, id, depth, parents, p), WholeContainer(c, h, id, parents))
    decreases Left(c, depth), 1, 0
  {
    if id !in parents {
      match At(h, id).kind
      case Mapping(entries, raises, _) => FieldsAreWhole(c, h, entries, raises, depth, parents + [id], [], p);
      case Members(items, raises, _) => ItemsAreWhole(c, h, items, raises, depth, parents + [id], [], p);
      case _ =>
    }
  }

  /** An entry that marked nothing had a key and a value that marked nothing. */
  lemma {:induction false} EntryRuns(c: Config, h: Heap, e: Entry, depth: int, parents: seq<Id>, p: Pass)
    returns (key: Said, item: Valued)
    requires Sound(c, p) && depth < c.maxDepth && !OneEntry(c, h, e, depth, parents, p).pass.truncated
    ensures key == Key(c, h, e.key, depth + 1, parents, p) && !key.pass.truncated && Sound(c, key.pass)
    ensures item == Value(c, h, e.value, depth + 1, parents, key.pass) && !item.pass.truncated
    ensures OneEntry(c, h, e, depth, parents, p) == Pair(key.text, item.out, item.pass)
  {
    KeyBounded(c, h, e.key, depth + 1, parents, p);
    key := Key(c, h, e.key, depth + 1, parents, p);
    item := Value(c, h, e.value, depth + 1, parents, key.pass);
    if key.pass.stopped.Running? { ValueBounded(c, h, e.value, depth + 1, parents, key.pass); }
  }

  lemma {:induction false} EntryIsWhole(c: Config, h: Heap, e: Entry, depth: int, parents: seq<Id>, p: Pass)
    requires Sound(c, p) && depth < c.maxDepth && !OneEntry(c, h, e, depth, parents, p).pass.truncated
    ensures var r := OneEntry(c, h, e, depth, parents, p);
            r.name == WholeKey(c, h, e.key, parents) && r.value == WholeValue(c, h, e.value, parents)
    decreases Left(c, depth), 0, 0
  {
    var key, item := EntryRuns(c, h, e, depth, parents, p);
    KeyIsWhole(c, h, e.key, depth + 1, parents, p);
    ValueIsWhole(c, h, e.value, depth + 1, parents, key.pass);
  }

  lemma {:induction false} FieldsAreWhole(c: Config, h: Heap, entries: seq<Entry>, raises: bool, depth: int,
                                          parents: seq<Id>, out: seq<Field>, p: Pass)
    requires Sound(c, p) && depth < c.maxDepth
    requires !Fields(c, h, entries, raises, depth, parents, out, p).pass.truncated
    ensures Agrees(Fields(c, h, entries, raises, depth, parents, out, p), WholeFields(c, h, entries, raises, parents, out))
    decreases Left(c, depth), 0, |entries|
  {
    if entries != [] {
      var r := OneEntry(c, h, entries[0], depth, parents, p);
      OneEntryBounded(c, h, entries[0], depth, parents, p);
      if r.pass.stopped.Running? {
        FieldsMark(c, h, entries[1..], raises, depth, parents, Put(out, r.name, r.value), r.pass);
        EntryIsWhole(c, h, entries[0], depth, parents, p);
        FieldsAreWhole(c, h, entries[1..], raises, depth, parents, Put(out, r.name, r.value), r.pass);
      }
    }
  }

  /** A mark made stays. */
  lemma {:induction false} FieldsMark(c: Config, h: Heap, entries: seq<Entry>, raises: bool, depth: int,
                                      parents: seq<Id>, out: seq<Field>, p: Pass)
    requires depth < c.maxDepth
    ensures p.truncated ==> Fields(c, h, entries, raises, depth, parents, out, p).pass.truncated
    decreases |entries|
  {
    if entries != [] && |out| < c.maxKeys {
      OneEntryBounded(c, h, entries[0], depth, parents, p);
      var r := OneEntry(c, h, entries[0], depth, parents, p);
      if r.pass.stopped.Running? {
        FieldsMark(c, h, entries[1..], raises, depth, parents, Put(out, r.name, r.value), r.pass);
      }
    }
  }

  lemma {:induction false} ItemsMark(c: Config, h: Heap, items: seq<Id>, raises: bool, depth: int,
                                     parents: seq<Id>, out: seq<Out>, p: Pass)
    requires depth < c.maxDepth
    ensures p.truncated ==> Items(c, h, items, raises, depth, parents, out, p).pass.truncated
    decreases |items|
  {
    if items != [] && |out| < c.maxKeys {
      ValueBounded(c, h, items[0], depth + 1, parents, p);
      var r := Value(c, h, items[0], depth + 1, parents, p);
      if r.pass.stopped.Running? {
        ItemsMark(c, h, items[1..], raises, depth, parents, out + [r.out], r.pass);
      }
    }
  }

  lemma {:induction false} ItemsAreWhole(c: Config, h: Heap, items: seq<Id>, raises: bool, depth: int,
                                         parents: seq<Id>, out: seq<Out>, p: Pass)
    requires Sound(c, p) && depth < c.maxDepth
    requires !Items(c, h, items, raises, depth, parents, out, p).pass.truncated
    ensures Agrees(Items(c, h, items, raises, depth, parents, out, p), WholeItems(c, h, items, raises, parents, out))
    decreases Left(c, depth), 0, |items|
  {
    if items != [] {
      ValueBounded(c, h, items[0], depth + 1, parents, p);
      var r := Value(c, h, items[0], depth + 1, parents, p);
      if r.pass.stopped.Running? {
        ItemsMark(c, h, items[1..], raises, depth, parents, out + [r.out], r.pass);
        ValueIsWhole(c, h, items[0], depth + 1, parents, p);
        ItemsAreWhole(c, h, items[1..], raises, depth, parents, out + [r.out], r.pass);
      }
    }
  }

  lemma {:induction false} KeyIsWhole(c: Config, h: Heap, id: Id, depth: int, parents: seq<Id>, p: Pass)
    requires Sound(c, p) && !Key(c, h, id, depth, parents, p).pass.truncated
    ensures Key(c, h, id, depth, parents, p).text == WholeKey(c, h, id, parents)
    decreases Left(c, depth), 3, 0
  {
    var cell := At(h, id);
    if !(IsContainer(cell.kind) && cell.kind.builtin) {
      LeafKeyIsWhole(c, p, cell);
    } else if depth < c.maxDepth {
      var got := Container(c, h, id, depth, parents, Visit(p, id));
      ContainerBounded(c, h, id, depth, parents, Visit(p, id));
      ThrewMarks(c, got.pass, cell.name);
      if got.Got? && got.pass.stopped.Running? {
        ContainerIsWhole(c, h, id, depth, parents, Visit(p, id));
        if !Clip.ClipHead(c.dumps(got.out), c.maxValueBytes).altered {
          UnclippedIsWhole(c.dumps(got.out), c.maxValueBytes);
        }
      }
    }
  }

  /** A value coerced without the truncated mark is the whole value: nothing was cut, left out or
      replaced, whatever limits were in force. */
  lemma {:induction false} UnmarkedIsWhole(c: Config, h: Heap, id: Id)
    requires !Value(c, h, id, 0, [], START).pass.truncated
    ensures Value(c, h, id, 0, [], START).out == WholeValue(c, h, id, [])
  {
    ValueIsWhole(c, h, id, 0, [], START);
  }

  /** And so are the fields sanitize_fields() returns unmarked. */
  lemma {:induction false} UnmarkedFieldsAreWhole(c: Config, h: Heap, id: Id)
    requires At(h, id).kind.Mapping? && !Sanitize(c, h, id).truncated
    ensures WholeContainer(c, h, id, []) == Is(OMap(Sanitize(c, h, id).fields))
  {
    ContainerIsWhole(c, h, id, -1, [], START);
  }
}
