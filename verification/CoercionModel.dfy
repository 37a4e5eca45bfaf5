/**
 Coercion of an object graph into a bounded JSON value, as functions that pass the state of the
 pass along: the walk over mappings, sequences and keys, with its node, byte, depth and key limits
 and its early stop.

 The graph is a heap of cells named by their identity, so cycles and sharing are real. Exceptions
 raised by an object's own iteration or printing are results of their own.
 */
module CoercionModel {
  import opened Utf8
  import Clip
  import Digits

  // ------------------------------------------------------------------ the input

  type Id = nat

  /** What str() of an object does. */
  datatype Printed = Prints(text: Text) | PrintRaises

  datatype Entry = Entry(key: Id, value: Id)

  /** `raises`: iterating raises once the listed items have been given. `builtin`: a dict, list,
      tuple, set or frozenset, rather than another container. */
  datatype Kind =
    | Null
    | Flag(flag: bool)
    | Whole(v: int)
    | Real(finite: bool, repr: Text)
    | Str(text: Text)
    | Raw(bytes: seq<Byte>)
    | Mapping(entries: seq<Entry>, raises: bool, builtin: bool)
    | Members(items: seq<Id>, raises: bool, builtin: bool)
    | Rendered    // written as its str()
    | Opaque      // anything else

  datatype Cell = Cell(kind: Kind, name: Text, str: Printed)

  type Heap = map<Id, Cell>

  function At(h: Heap, id: Id): Cell {
    if id in h then h[id] else Cell(Null, [], PrintRaises)
  }

  // ------------------------------------------------------------------ the output

  datatype Field = Field(name: Text, value: Out)

  datatype Out =
    | ONull
    | OFlag(flag: bool)
    | OWhole(v: int)
    | OReal(repr: Text)
    | OText(text: Text)
    | OMap(fields: seq<Field>)
    | OList(items: seq<Out>)

  /** out[name] = value: a name already there keeps its place. */
  function Put(fields: seq<Field>, name: Text, value: Out): (r: seq<Field>)
    ensures |fields| <= |r| <= |fields| + 1
    ensures forall i :: 0 <= i < |r| ==> r[i].value == value || (i < |fields| && r[i] == fields[i])
  {
    if fields == [] then [Field(name, value)]
    else if fields[0].name == name then [Field(name, value)] + fields[1..]
    else [fields[0]] + Put(fields[1..], name, value)
  }

  predicate Distinct(fields: seq<Field>) {
    forall i, j :: 0 <= i < j < |fields| ==> fields[i].name != fields[j].name
  }

  /** A JSON tree in which every container holds at most `keys` entries, no name twice, and
      containers nest at most `depth` deep. */
  predicate Within(o: Out, keys: nat, depth: int) {
    match o
    case OMap(fields) =>
      depth > 0 && |fields| <= keys && Distinct(fields)
      && forall i :: 0 <= i < |fields| ==> Within(fields[i].value, keys, depth - 1)
    case OList(items) =>
      depth > 0 && |items| <= keys && forall i :: 0 <= i < |items| ==> Within(items[i], keys, depth - 1)
    case _ => true
  }

  // ------------------------------------------------------------------ the pass

  /** The fixed texts the pass writes. */
  datatype Words = Words(circular: Text, depthLimit: Text, nodeLimit: Text, sizeLimit: Text,
                         value: Text, key: Text, int_: Text, digits: Text, float: Text, close: Text)

  /** `dumps` is json.dumps of a coerced value. */
  datatype Config = Config(maxDepth: nat, maxKeys: nat, maxValueBytes: nat, intCeiling: nat,
                           maxNodes: nat, maxBytes: nat, words: Words, dumps: Out -> Text)

  datatype Stop = Running | AtNodes | AtBytes

  /** The counters and flags of one pass. `trail` lists the values visited, in walk order. */
  datatype Pass = Pass(nodes: nat, charged: nat, stopped: Stop, truncated: bool, trail: seq<Id>)

  const START: Pass := Pass(0, 0, Running, false, [])

  function Visit(p: Pass, id: Id): Pass {
    p.(nodes := p.nodes + 1, trail := p.trail + [id])
  }

  function Halt(p: Pass, at: Stop): Pass {
    p.(stopped := at, truncated := true)
  }

  function Cut(p: Pass, altered: bool): Pass {
    p.(truncated := p.truncated || altered)
  }

  function StopText(c: Config, at: Stop): Text {
    if at.AtNodes? then c.words.nodeLimit else c.words.sizeLimit
  }

  /** The budgets hold, every visit was paid for, and a stop is marked. */
  predicate Sound(c: Config, p: Pass) {
    && p.nodes <= c.maxNodes && p.charged <= c.maxBytes && |p.trail| == p.nodes
    && (!p.stopped.Running? ==> p.truncated)
  }

  /** What any part of a pass does to it. */
  predicate Onward(c: Config, p: Pass, q: Pass) {
    && (Sound(c, p) ==> Sound(c, q))
    && p.trail <= q.trail && p.nodes <= q.nodes && p.charged <= q.charged
    && (p.truncated ==> q.truncated)
  }

  /** A text, and the pass after writing it. */
  datatype Said = Said(text: Text, pass: Pass)

  datatype Got = Got(out: Out, pass: Pass) | Threw(pass: Pass)

  const MAX_NODES: nat := 131_072
  const MAX_BYTES: nat := 16 * 1024 * 1024

  /** The two budgets of an ordinary pass. */
  function Budgeted(c: Config): Config {
    c.(maxNodes := MAX_NODES, maxBytes := MAX_BYTES)
  }

  // ------------------------------------------------------------------ leaves

  function Charge(c: Config, p: Pass, text: Text, size: nat, altered: bool): (r: Said)
    ensures Onward(c, p, r.pass) && r.pass.trail == p.trail
  {
    if p.charged + size > c.maxBytes then Said(c.words.sizeLimit, Halt(p, AtBytes))
    else Said(text, Cut(p, altered).(charged := p.charged + size))
  }

  /** text(): a string of the caller's, clipped, charged by its size. */
  function SayText(c: Config, p: Pass, t: Text): Said {
    var clipped := Clip.ClipHead(t, c.maxValueBytes);
    Charge(c, p, clipped.text, clipped.size, clipped.altered)
  }

  /** produced(): a string made on the way, charged by its whole length as well. */
  function SayProduced(c: Config, p: Pass, t: Text): Said {
    var clipped := Clip.ClipHead(t, c.maxValueBytes);
    Charge(c, p, clipped.text, if |t| > clipped.size then |t| else clipped.size, clipped.altered)
  }

  function IntPlaceholder(c: Config, v: int): Text {
    c.words.int_ + Digits.DecimalText(Digits.Estimate(v)) + c.words.digits
  }

  /** integer(): charged by the estimate, replaced when past the ceiling. */
  function SayInteger(c: Config, p: Pass, v: int): Got {
    var rendered := Digits.RenderedEstimate(v);
    if rendered > c.intCeiling then Got(OText(IntPlaceholder(c, v)), Cut(p, true))
    else if p.charged + rendered > c.maxBytes then Got(OText(c.words.sizeLimit), Halt(p, AtBytes))
    else Got(OWhole(v), p.(charged := p.charged + rendered))
  }

  function RealText(c: Config, finite: bool, repr: Text): Text {
    if finite then repr else c.words.float + repr + c.words.close
  }

  predicate Decodes(bs: seq<Byte>)
    decreases |bs|
  {
    bs == [] || (FrontOf(bs).Char? && Decodes(bs[FrontOf(bs).len..]))
  }

  /** Bytes: no more than the ceiling plus one are read, and decoded with replacement. */
  function SayRaw(c: Config, p: Pass, bytes: seq<Byte>): Said {
    var head := if |bytes| > c.maxValueBytes then bytes[..c.maxValueBytes + 1] else bytes;
    SayText(c, Cut(p, !Decodes(head)), Decode(head, [REPLACEMENT]))
  }

  function SayPlaceholder(c: Config, p: Pass, name: Text): Said {
    SayProduced(c, p, c.words.value + name + c.words.close)
  }

  /** A value that is not a container. */
  function Leaf(c: Config, p: Pass, cell: Cell): Got
    requires !cell.kind.Mapping? && !cell.kind.Members?
  {
    match cell.kind
    case Null => Got(ONull, p)
    case Flag(b) => Got(OFlag(b), p)
    case Whole(v) => SayInteger(c, p, v)
    case Real(finite, repr) =>
      if finite then Got(OReal(repr), p) else Got(OText(RealText(c, finite, repr)), Cut(p, true))
    case Str(text) => Spoken(SayText(c, p, text))
    case Raw(bytes) => Spoken(SayRaw(c, p, bytes))
    case Rendered => if cell.str.Prints? then Spoken(SayProduced(c, p, cell.str.text)) else Threw(p)
    case Opaque => Spoken(SayPlaceholder(c, p, cell.name))
  }

  function Spoken(s: Said): Got {
    Got(OText(s.text), s.pass)
  }

  /** A key's own exception is absorbed by name. */
  function KeyThrew(c: Config, p: Pass, name: Text): Said {
    SayProduced(c, Cut(p, true), c.words.key + name + c.words.close)
  }

  /** A key that is not a builtin container. */
  function LeafKey(c: Config, p: Pass, cell: Cell): Said {
    match cell.kind
    case Str(text) => SayText(c, p, text)
    case Whole(v) =>
      var rendered := Digits.RenderedEstimate(v);
      if rendered > c.intCeiling then SayProduced(c, Cut(p, true), IntPlaceholder(c, v))
      else if p.charged + rendered - 1 > c.maxBytes then Said(c.words.sizeLimit, Halt(p, AtBytes))
      else SayProduced(c, p, Digits.IntText(v))
    case Real(finite, repr) => SayProduced(c, Cut(p, !finite), RealText(c, finite, repr))
    case Raw(bytes) =>
      if p.charged + 4 * |bytes| + 3 > c.maxBytes then Said(c.words.sizeLimit, Halt(p, AtBytes))
      else PrintedKey(c, p, cell)
    case _ => PrintedKey(c, p, cell)
  }

  function PrintedKey(c: Config, p: Pass, cell: Cell): Said {
    if cell.str.Prints? then SayProduced(c, p, cell.str.text) else KeyThrew(c, p, cell.name)
  }

  // ------------------------------------------------------------------ the walk

  /** How much deeper the walk may go. */
  function Left(c: Config, depth: int): nat {
    if depth < c.maxDepth then c.maxDepth - depth else 0
  }

  /** value(): one node of the structure, first spending one of the node budget. */
  function Value(c: Config, h: Heap, id: Id, depth: int, parents: seq<Id>, p: Pass): Valued
    decreases Left(c, depth), 3, 0
  {
    if p.nodes >= c.maxNodes then Valued(OText(c.words.nodeLimit), Halt(p, AtNodes))
    else
      var got := Dispatch(c, h, id, depth, parents, Visit(p, id));
      if got.Got? then Valued(got.out, got.pass)
      else
        var said := SayPlaceholder(c, got.pass, At(h, id).name);
        Valued(OText(said.text), said.pass)
  }

  /** What value() comes to, which never raises. */
  datatype Valued = Valued(out: Out, pass: Pass)

  function Dispatch(c: Config, h: Heap, id: Id, depth: int, parents: seq<Id>, p: Pass): Got
    decreases Left(c, depth), 2, 0
  {
    if depth >= c.maxDepth then Got(OText(c.words.depthLimit), Cut(p, true))
    else if IsContainer(At(h, id).kind) then Container(c, h, id, depth, parents, p)
    else Leaf(c, p, At(h, id))
  }

  predicate IsContainer(k: Kind) {
    k.Mapping? || k.Members?
  }

  /** mapping() and members(): an ancestor is not entered again. */
  function Container(c: Config, h: Heap, id: Id, depth: int, parents: seq<Id>, p: Pass): Got
    requires depth < c.maxDepth && IsContainer(At(h, id).kind)
    decreases Left(c, depth), 1, 0
  {
    var kind := At(h, id).kind;
    if id in parents then Got(OText(c.words.circular), p)
    else if kind.Mapping? then Fields(c, h, kind.entries, kind.raises, depth, parents + [id], [], p)
    else Items(c, h, kind.items, kind.raises, depth, parents + [id], [], p)
  }

  function Fields(c: Config, h: Heap, entries: seq<Entry>, raises: bool, depth: int, parents: seq<Id>,
                  out: seq<Field>, p: Pass): Got
    requires depth < c.maxDepth
    decreases Left(c, depth), 0, |entries|
  {
    if entries == [] then if raises then Threw(p) else Got(OMap(out), p)
    else if |out| >= c.maxKeys then Got(OMap(out), Cut(p, true))
    else
      var r := OneEntry(c, h, entries[0], depth, parents, p);
      var fields := Put(out, r.name, r.value);
      if !r.pass.stopped.Running? then Got(OMap(fields), r.pass)
      else Fields(c, h, entries[1..], raises, depth, parents, fields, r.pass)
  }

  datatype Pair = Pair(name: Text, value: Out, pass: Pass)

  /** One entry: its key, then its value unless the key stopped the pass. */
  function OneEntry(c: Config, h: Heap, e: Entry, depth: int, parents: seq<Id>, p: Pass): Pair
    requires depth < c.maxDepth
    decreases Left(c, depth), 0, 0
  {
    var key := Key(c, h, e.key, depth + 1, parents, p);
    if !key.pass.stopped.Running? then
      var word := StopText(c, key.pass.stopped);
      Pair(word, OText(word), key.pass)
    else
      var item := Value(c, h, e.value, depth + 1, parents, key.pass);
      Pair(key.text, item.out, item.pass)
  }

  lemma {:induction false} EntryOf(c: Config, h: Heap, e: Entry, depth: int, parents: seq<Id>, p: Pass, key: Said, item: Valued)
    requires depth < c.maxDepth && key == Key(c, h, e.key, depth + 1, parents, p) && key.pass.stopped.Running?
    requires item == Value(c, h, e.value, depth + 1, parents, key.pass)
    ensures OneEntry(c, h, e, depth, parents, p) == Pair(key.text, item.out, item.pass)
  {
  }

  lemma {:induction false} EntryStopped(c: Config, h: Heap, e: Entry, depth: int, parents: seq<Id>, p: Pass, key: Said)
    requires depth < c.maxDepth && key == Key(c, h, e.key, depth + 1, parents, p) && !key.pass.stopped.Running?
    ensures var word := StopText(c, key.pass.stopped); OneEntry(c, h, e, depth, parents, p) == Pair(word, OText(word), key.pass)
  {
  }

  function Items(c: Config, h: Heap, items: seq<Id>, raises: bool, depth: int, parents: seq<Id>,
                 out: seq<Out>, p: Pass): Got
    requires depth < c.maxDepth
    decreases Left(c, depth), 0, |items|
  {
    if items == [] then if raises then Threw(p) else Got(OList(out), p)
    else if |out| >= c.maxKeys then Got(OList(out), Cut(p, true))
    else
      var item := Value(c, h, items[0], depth + 1, parents, p);
      if !item.pass.stopped.Running? then Got(OList(out + [item.out]), item.pass)
      else Items(c, h, items[1..], raises, depth, parents, out + [item.out], item.pass)
  }

  /** key(): a builtin container is coerced and dumped, spending a node; anything else is text. */
  function Key(c: Config, h: Heap, id: Id, depth: int, parents: seq<Id>, p: Pass): Said
    decreases Left(c, depth), 3, 0
  {
    var cell := At(h, id);
    if !(IsContainer(cell.kind) && cell.kind.builtin) then LeafKey(c, p, cell)
    else if p.nodes >= c.maxNodes then Said(c.words.nodeLimit, Halt(p, AtNodes))
    else
      var got := if depth >= c.maxDepth then Got(OText(c.words.depthLimit), Cut(Visit(p, id), true))
                 else Container(c, h, id, depth, parents, Visit(p, id));
      if got.Threw? then KeyThrew(c, got.pass, cell.name)
      else if !got.pass.stopped.Running? then Said(StopText(c, got.pass.stopped), got.pass)
      else
        var clipped := Clip.ClipHead(c.dumps(got.out), c.maxValueBytes);
        Said(clipped.text, Cut(got.pass, clipped.altered))
  }

  /** sanitize_fields(): the fields and whether anything was cut; nothing at all, marked, when the
      mapping itself raises or is no mapping. */
  datatype Sanitized = Sanitized(fields: seq<Field>, truncated: bool)

  function SanitizedOf(got: Got): Sanitized {
    if got.Got? && got.out.OMap? then Sanitized(got.out.fields, got.pass.truncated) else Sanitized([], true)
  }

  function Sanitize(c: Config, h: Heap, id: Id): Sanitized {
    if !At(h, id).kind.Mapping? then Sanitized([], true)
    else SanitizedOf(Container(c, h, id, -1, [], START))
  }
}
