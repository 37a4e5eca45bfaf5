/**
 What a coercion pass promises of any object graph: its budgets and ceilings hold, and the budgets
 do nothing but cut the walk short.
 */
module CoercionTheorems {
  import opened Utf8
  import opened CoercionModel
  import Digits

  // ------------------------------------------------------------------ budgets and ceilings

  lemma {:induction false} SaidKept(c: Config, p: Pass, t: Text)
    ensures Onward(c, p, SayText(c, p, t).pass) && SayText(c, p, t).pass.trail == p.trail
    ensures Onward(c, p, SayProduced(c, p, t).pass) && SayProduced(c, p, t).pass.trail == p.trail
  {
  }

  lemma {:induction false} RawKept(c: Config, p: Pass, bytes: seq<Byte>)
    ensures Onward(c, p, SayRaw(c, p, bytes).pass) && SayRaw(c, p, bytes).pass.trail == p.trail
  {
    var head := if |bytes| > c.maxValueBytes then bytes[..c.maxValueBytes + 1] else bytes;
    SaidKept(c, Cut(p, !Decodes(head)), Decode(head, [REPLACEMENT]));
  }

  lemma {:induction false} LeafKept(c: Config, p: Pass, cell: Cell)
    requires !IsContainer(cell.kind)
    ensures Onward(c, p, Leaf(c, p, cell).pass) && Leaf(c, p, cell).pass.trail == p.trail
    ensures Leaf(c, p, cell).Got? ==> !IsNested(Leaf(c, p, cell).out)
  {
    match cell.kind
    case Str(text) => SaidKept(c, p, text);
    case Raw(bytes) => RawKept(c, p, bytes);
    case Rendered => RenderedKept(c, p, cell);
    case Opaque => SaidKept(c, p, c.words.value + cell.name + c.words.close);
    case _ =>
  }

  lemma {:induction false} RenderedKept(c: Config, p: Pass, cell: Cell)
    requires cell.kind.Rendered?
    ensures Onward(c, p, Leaf(c, p, cell).pass) && Leaf(c, p, cell).pass.trail == p.trail
  {
    if cell.str.Prints? { SaidKept(c, p, cell.str.text); }
  }

  predicate IsNested(o: Out) {
    o.OMap? || o.OList?
  }

  lemma {:induction false} LeafKeyKept(c: Config, p: Pass, cell: Cell)
    ensures Onward(c, p, LeafKey(c, p, cell).pass) && LeafKey(c, p, cell).pass.trail == p.trail
  {
  }

  lemma {:induction false} ValueBounded(c: Config, h: Heap, id: Id, depth: int, parents: seq<Id>, p: Pass)
    ensures var r := Value(c, h, id, depth, parents, p);
            Onward(c, p, r.pass) && Within(r.out, c.maxKeys, c.maxDepth - depth)
    decreases Left(c, depth), 3, 0
  {
    if p.nodes < c.maxNodes { DispatchBounded(c, h, id, depth, parents, Visit(p, id)); }
  }

  lemma {:induction false} DispatchBounded(c: Config, h: Heap, id: Id, depth: int, parents: seq<Id>, p: Pass)
    ensures var r := Dispatch(c, h, id, depth, parents, p);
            Onward(c, p, r.pass) && (r.Got? ==> Within(r.out, c.maxKeys, c.maxDepth - depth))
    decreases Left(c, depth), 2, 0
  {
    if depth < c.maxDepth {
      if IsContainer(At(h, id).kind) {
        ContainerBounded(c, h, id, depth, parents, p);
      } else {
        LeafKept(c, p, At(h, id));
      }
    }
  }

  lemma {:induction false} ContainerBounded(c: Config, h: Heap, id: Id, depth: int, parents: seq<Id>, p: Pass)
    requires depth < c.maxDepth && IsContainer(At(h, id).kind)
    ensures var r := Container(c, h, id, depth, parents, p);
            Onward(c, p, r.pass) && (r.Got? ==> Within(r.out, c.maxKeys, c.maxDepth - depth))
    decreases Left(c, depth), 1, 0
  {
    match At(h, id).kind
    case Mapping(entries, raises, _) => FieldsBounded(c, h, entries, raises, depth, parents + [id], [], p);
    case Members(items, raises, _) => ItemsBounded(c, h, items, raises, depth, parents + [id], [], p);
    case _ =>
  }

  predicate FieldsWithin(out: seq<Field>, keys: nat, depth: int) {
    |out| <= keys && Distinct(out) && forall i :: 0 <= i < |out| ==> Within(out[i].value, keys, depth)
  }

  lemma {:induction false} PutWithin(out: seq<Field>, name: Text, value: Out, keys: nat, depth: int)
    requires FieldsWithin(out, keys, depth) && |out| < keys && Within(value, keys, depth)
    ensures FieldsWithin(Put(out, name, value), keys, depth)
  {
    PutDistinct(out, name, value);
  }

  function Names(out: seq<Field>): set<Text> {
    if out == [] then {} else {out[0].name} + Names(out[1..])
  }

  lemma {:induction false} NamesHold(out: seq<Field>, i: nat)
    requires i < |out|
    ensures out[i].name in Names(out)
  {
    if i > 0 { NamesHold(out[1..], i - 1); }
  }

  lemma {:induction false} DistinctCons(f: Field, rest: seq<Field>)
    requires Distinct(rest) && f.name !in Names(rest)
    ensures Distinct([f] + rest)
  {
    forall i | 0 <= i < |rest| ensures rest[i].name != f.name { NamesHold(rest, i); }
  }

  lemma {:induction false} DistinctHead(out: seq<Field>)
    requires Distinct(out) && out != []
    ensures Distinct(out[1..]) && out[0].name !in Names(out[1..])
  {
    NotNamed(out[1..], out[0].name);
  }

  lemma {:induction false} NotNamed(out: seq<Field>, name: Text)
    requires forall i :: 0 <= i < |out| ==> out[i].name != name
    ensures name !in Names(out)
  {
    if out != [] { NotNamed(out[1..], name); }
  }

  lemma {:induction false} PutDistinct(out: seq<Field>, name: Text, value: Out)
    requires Distinct(out)
    ensures Distinct(Put(out, name, value)) && Names(Put(out, name, value)) == Names(out) + {name}
  {
    if out != [] {
      DistinctHead(out);
      if out[0].name == name {
        DistinctCons(Field(name, value), out[1..]);
        assert ([Field(name, value)] + out[1..])[1..] == out[1..];
      } else {
        var rest := Put(out[1..], name, value);
        PutDistinct(out[1..], name, value);
        DistinctCons(out[0], rest);
        assert ([out[0]] + rest)[1..] == rest;
      }
    }
  }

  /** out[name] = value: a name already there keeps its place and takes the new value, a new one comes
      last, and no other entry changes. */
  lemma {:induction false} PutIsAssignment(out: seq<Field>, name: Text, value: Out)
    requires Distinct(out)
    ensures name !in Names(out) ==> Put(out, name, value) == out + [Field(name, value)]
    ensures name in Names(out) ==>
              && |Put(out, name, value)| == |out|
              && forall i :: 0 <= i < |out| ==>
                   Put(out, name, value)[i] == if out[i].name == name then Field(name, value) else out[i]
  {
    if out != [] {
      DistinctHead(out);
      if out[0].name == name {
        forall i | 1 <= i < |out| ensures out[i].name != name { NamesHold(out[1..], i - 1); }
      } else {
        PutIsAssignment(out[1..], name, value);
      }
    }
  }

  lemma {:induction false} OneEntryBounded(c: Config, h: Heap, e: Entry, depth: int, parents: seq<Id>, p: Pass)
    requires depth < c.maxDepth
    ensures var r := OneEntry(c, h, e, depth, parents, p);
            Onward(c, p, r.pass) && Within(r.value, c.maxKeys, c.maxDepth - depth - 1)
    decreases Left(c, depth), 0, 0
  {
    KeyBounded(c, h, e.key, depth + 1, parents, p);
    var key := Key(c, h, e.key, depth + 1, parents, p);
    if key.pass.stopped.Running? {
      ValueBounded(c, h, e.value, depth + 1, parents, key.pass);
      OnwardTrans(c, p, key.pass, Value(c, h, e.value, depth + 1, parents, key.pass).pass);
    }
  }

  lemma {:induction false} OnwardTrans(c: Config, p: Pass, q: Pass, r: Pass)
    requires Onward(c, p, q) && Onward(c, q, r)
    ensures Onward(c, p, r)
  {
  }

  lemma {:induction false} FieldsBounded(c: Config, h: Heap, entries: seq<Entry>, raises: bool, depth: int,
                                         parents: seq<Id>, out: seq<Field>, p: Pass)
    requires depth < c.maxDepth && FieldsWithin(out, c.maxKeys, c.maxDepth - depth - 1)
    ensures var r := Fields(c, h, entries, raises, depth, parents, out, p);
            Onward(c, p, r.pass) && (r.Got? ==> Within(r.out, c.maxKeys, c.maxDepth - depth))
    decreases Left(c, depth), 0, |entries|
  {
    if entries != [] && |out| < c.maxKeys {
      OneEntryBounded(c, h, entries[0], depth, parents, p);
      var r := OneEntry(c, h, entries[0], depth, parents, p);
      PutWithin(out, r.name, r.value, c.maxKeys, c.maxDepth - depth - 1);
      if r.pass.stopped.Running? {
        FieldsBounded(c, h, entries[1..], raises, depth, parents, Put(out, r.name, r.value), r.pass);
      }
    }
  }

  lemma {:induction false} ItemsBounded(c: Config, h: Heap, items: seq<Id>, raises: bool, depth: int,
                                        parents: seq<Id>, out: seq<Out>, p: Pass)
    requires depth < c.maxDepth && |out| <= c.maxKeys
    requires forall i :: 0 <= i < |out| ==> Within(out[i], c.maxKeys, c.maxDepth - depth - 1)
    ensures var r := Items(c, h, items, raises, depth, parents, out, p);
            Onward(c, p, r.pass) && (r.Got? ==> Within(r.out, c.maxKeys, c.maxDepth - depth))
    decreases Left(c, depth), 0, |items|
  {
    if items != [] && |out| < c.maxKeys {
      ValueBounded(c, h, items[0], depth + 1, parents, p);
      var item := Value(c, h, items[0], depth + 1, parents, p);
      if item.pass.stopped.Running? {
        ItemsBounded(c, h, items[1..], raises, depth, parents, out + [item.out], item.pass);
      }
    }
  }

  lemma {:induction false} KeyBounded(c: Config, h: Heap, id: Id, depth: int, parents: seq<Id>, p: Pass)
    ensures Onward(c, p, Key(c, h, id, depth, parents, p).pass)
    decreases Left(c, depth), 3, 0
  {
    var cell := At(h, id);
    if !(IsContainer(cell.kind) && cell.kind.builtin) {
      LeafKeyKept(c, p, cell);
    } else if p.nodes < c.maxNodes && depth < c.maxDepth {
      ContainerBounded(c, h, id, depth, parents, Visit(p, id));
    }
  }

  // ------------------------------------------------------------------ a budget only cuts

  /** d is c with at least its budgets. */
  ghost predicate Wider(c: Config, d: Config) {
    c.maxNodes <= d.maxNodes && c.maxBytes <= d.maxBytes && d == c.(maxNodes := d.maxNodes, maxBytes := d.maxBytes)
  }

  /** A stopped pass visited only what the wider pass visited first. */
  predicate CutShort(p: Pass, q: Pass) {
    !p.stopped.Running? && p.trail <= q.trail
  }

  lemma {:induction false} SayCut(c: Config, d: Config, p: Pass, t: Text)
    requires Wider(c, d) && p.stopped.Running?
    ensures var r, w := SayText(c, p, t), SayText(d, p, t); r == w || CutShort(r.pass, w.pass)
    ensures var r, w := SayProduced(c, p, t), SayProduced(d, p, t); r == w || CutShort(r.pass, w.pass)
  {
  }

  lemma {:induction false} RawCut(c: Config, d: Config, p: Pass, bytes: seq<Byte>)
    requires Wider(c, d) && p.stopped.Running?
    ensures var r, w := SayRaw(c, p, bytes), SayRaw(d, p, bytes); r == w || CutShort(r.pass, w.pass)
  {
    var head := if |bytes| > c.maxValueBytes then bytes[..c.maxValueBytes + 1] else bytes;
    SayCut(c, d, Cut(p, !Decodes(head)), Decode(head, [REPLACEMENT]));
  }

  lemma {:induction false} LeafCut(c: Config, d: Config, p: Pass, cell: Cell)
    requires Wider(c, d) && p.stopped.Running? && !IsContainer(cell.kind)
    ensures GotCut(Leaf(c, p, cell), Leaf(d, p, cell))
  {
    match cell.kind
    case Str(text) => SayCut(c, d, p, text);
    case Raw(bytes) => RawCut(c, d, p, bytes);
    case Rendered => if cell.str.Prints? { SayCut(c, d, p, cell.str.text); }
    case Opaque => PlaceholderCut(c, d, p, cell.name);
    case _ =>
  }

  lemma {:induction false} PrintedKeyCut(c: Config, d: Config, p: Pass, cell: Cell)
    requires Wider(c, d) && p.stopped.Running?
    ensures var r, w := PrintedKey(c, p, cell), PrintedKey(d, p, cell); r == w || CutShort(r.pass, w.pass)
  {
    if cell.str.Prints? { SayCut(c, d, p, cell.str.text); } else { PlaceholderCut(c, d, p, cell.name); }
  }

  lemma {:induction false} LeafKeyCut(c: Config, d: Config, p: Pass, cell: Cell)
    requires Wider(c, d) && p.stopped.Running?
    ensures var r, w := LeafKey(c, p, cell), LeafKey(d, p, cell); r == w || CutShort(r.pass, w.pass)
  {
    LeafKeyKept(d, p, cell);
    match cell.kind
    case Str(text) => SayCut(c, d, p, text);
    case Whole(v) =>
      if Digits.RenderedEstimate(v) > c.intCeiling {
        SayCut(c, d, Cut(p, true), IntPlaceholder(c, v));
      } else {
        SayCut(c, d, p, Digits.IntText(v));
      }
    case Real(finite, repr) => SayCut(c, d, Cut(p, !finite), RealText(c, finite, repr));
    case _ => PrintedKeyCut(c, d, p, cell);
  }

  lemma {:induction false} ValueCut(c: Config, d: Config, h: Heap, id: Id, depth: int, parents: seq<Id>, p: Pass)
    requires Wider(c, d) && p.stopped.Running?
    ensures var r, w := Value(c, h, id, depth, parents, p), Value(d, h, id, depth, parents, p);
            r == w || CutShort(r.pass, w.pass)
    decreases Left(c, depth), 3, 0
  {
    ValueBounded(d, h, id, depth, parents, p);
    if p.nodes < c.maxNodes {
      DispatchCut(c, d, h, id, depth, parents, Visit(p, id));
      var got := Dispatch(c, h, id, depth, parents, Visit(p, id));
      if got.Threw? { PlaceholderCut(c, d, got.pass, At(h, id).name); }
    }
  }

  lemma {:induction false} PlaceholderCut(c: Config, d: Config, p: Pass, name: Text)
    requires Wider(c, d) && p.stopped.Running?
    ensures var r, w := SayPlaceholder(c, p, name), SayPlaceholder(d, p, name); r == w || CutShort(r.pass, w.pass)
    ensures var r, w := KeyThrew(c, p, name), KeyThrew(d, p, name); r == w || CutShort(r.pass, w.pass)
  {
  }

  /** What holds of a part that may throw: it throws only while running. */
  predicate GotCut(r: Got, w: Got) {
    (r == w && (r.Threw? ==> r.pass.stopped.Running?)) || (r.Got? && CutShort(r.pass, w.pass))
  }

  lemma {:induction false} DispatchCut(c: Config, d: Config, h: Heap, id: Id, depth: int, parents: seq<Id>, p: Pass)
    requires Wider(c, d) && p.stopped.Running?
    ensures GotCut(Dispatch(c, h, id, depth, parents, p), Dispatch(d, h, id, depth, parents, p))
    decreases Left(c, depth), 2, 0
  {
    if depth < c.maxDepth {
      if IsContainer(At(h, id).kind) {
        ContainerCut(c, d, h, id, depth, parents, p);
      } else {
        LeafCut(c, d, p, At(h, id));
      }
    }
  }

  lemma {:induction false} ContainerCut(c: Config, d: Config, h: Heap, id: Id, depth: int, parents: seq<Id>, p: Pass)
    requires Wider(c, d) && p.stopped.Running? && depth < c.maxDepth && IsContainer(At(h, id).kind)
    ensures GotCut(Container(c, h, id, depth, parents, p), Container(d, h, id, depth, parents, p))
    decreases Left(c, depth), 1, 0
  {
    match At(h, id).kind
    case Mapping(entries, raises, _) => FieldsCut(c, d, h, entries, raises, depth, parents + [id], [], p);
    case Members(items, raises, _) => ItemsCut(c, d, h, items, raises, depth, parents + [id], [], p);
    case _ =>
  }

  lemma {:induction false} FieldsOnward(c: Config, h: Heap, entries: seq<Entry>, raises: bool, depth: int,
                                        parents: seq<Id>, out: seq<Field>, p: Pass)
    requires depth < c.maxDepth
    ensures p.trail <= Fields(c, h, entries, raises, depth, parents, out, p).pass.trail
    decreases |entries|
  {
    if entries != [] && |out| < c.maxKeys {
      OneEntryBounded(c, h, entries[0], depth, parents, p);
      var r := OneEntry(c, h, entries[0], depth, parents, p);
      if r.pass.stopped.Running? {
        FieldsOnward(c, h, entries[1..], raises, depth, parents, Put(out, r.name, r.value), r.pass);
      }
    }
  }

  lemma {:induction false} ItemsOnward(c: Config, h: Heap, items: seq<Id>, raises: bool, depth: int,
                                       parents: seq<Id>, out: seq<Out>, p: Pass)
    requires depth < c.maxDepth
    ensures p.trail <= Items(c, h, items, raises, depth, parents, out, p).pass.trail
    decreases |items|
  {
    if items != [] && |out| < c.maxKeys {
      ValueBounded(c, h, items[0], depth + 1, parents, p);
      var item := Value(c, h, items[0], depth + 1, parents, p);
      if item.pass.stopped.Running? {
        ItemsOnward(c, h, items[1..], raises, depth, parents, out + [item.out], item.pass);
      }
    }
  }

  lemma {:induction false} OneEntryCut(c: Config, d: Config, h: Heap, e: Entry, depth: int, parents: seq<Id>, p: Pass)
    requires Wider(c, d) && p.stopped.Running? && depth < c.maxDepth
    ensures var r, w := OneEntry(c, h, e, depth, parents, p), OneEntry(d, h, e, depth, parents, p);
            r == w || CutShort(r.pass, w.pass)
    decreases Left(c, depth), 0, 0
  {
    KeyCut(c, d, h, e.key, depth + 1, parents, p);
    var key, wide := Key(c, h, e.key, depth + 1, parents, p), Key(d, h, e.key, depth + 1, parents, p);
    if key.pass.stopped.Running? {
      ValueCut(c, d, h, e.value, depth + 1, parents, key.pass);
    } else if wide.pass.stopped.Running? {
      ValueBounded(d, h, e.value, depth + 1, parents, wide.pass);
    }
  }

  lemma {:induction false} FieldsCut(c: Config, d: Config, h: Heap, entries: seq<Entry>, raises: bool, depth: int,
                                     parents: seq<Id>, out: seq<Field>, p: Pass)
    requires Wider(c, d) && p.stopped.Running? && depth < c.maxDepth
    ensures GotCut(Fields(c, h, entries, raises, depth, parents, out, p),
                   Fields(d, h, entries, raises, depth, parents, out, p))
    decreases Left(c, depth), 0, |entries|
  {
    if entries != [] && |out| < c.maxKeys {
      OneEntryCut(c, d, h, entries[0], depth, parents, p);
      var r, w := OneEntry(c, h, entries[0], depth, parents, p), OneEntry(d, h, entries[0], depth, parents, p);
      if r.pass.stopped.Running? {
        FieldsCut(c, d, h, entries[1..], raises, depth, parents, Put(out, r.name, r.value), r.pass);
      } else if w.pass.stopped.Running? {
        FieldsOnward(d, h, entries[1..], raises, depth, parents, Put(out, w.name, w.value), w.pass);
      }
    }
  }

  lemma {:induction false} ItemsCut(c: Config, d: Config, h: Heap, items: seq<Id>, raises: bool, depth: int,
                                    parents: seq<Id>, out: seq<Out>, p: Pass)
    requires Wider(c, d) && p.stopped.Running? && depth < c.maxDepth
    ensures GotCut(Items(c, h, items, raises, depth, parents, out, p),
                   Items(d, h, items, raises, depth, parents, out, p))
    decreases Left(c, depth), 0, |items|
  {
    if items != [] && |out| < c.maxKeys {
      ValueCut(c, d, h, items[0], depth + 1, parents, p);
      var item := Value(c, h, items[0], depth + 1, parents, p);
      if item.pass.stopped.Running? {
        ItemsCut(c, d, h, items[1..], raises, depth, parents, out + [item.out], item.pass);
      } else {
        var w := Value(d, h, items[0], depth + 1, parents, p);
        if w.pass.stopped.Running? {
          ItemsOnward(d, h, items[1..], raises, depth, parents, out + [w.out], w.pass);
        }
      }
    }
  }

  lemma {:induction false} KeyCut(c: Config, d: Config, h: Heap, id: Id, depth: int, parents: seq<Id>, p: Pass)
    requires Wider(c, d) && p.stopped.Running?
    ensures var r, w := Key(c, h, id, depth, parents, p), Key(d, h, id, depth, parents, p);
            r == w || CutShort(r.pass, w.pass)
    decreases Left(c, depth), 3, 0
  {
    var cell := At(h, id);
    KeyBounded(d, h, id, depth, parents, p);
    if !(IsContainer(cell.kind) && cell.kind.builtin) {
      LeafKeyCut(c, d, p, cell);
    } else if p.nodes < c.maxNodes && depth < c.maxDepth {
      ContainerCut(c, d, h, id, depth, parents, Visit(p, id));
      var got, wide := Container(c, h, id, depth, parents, Visit(p, id)), Container(d, h, id, depth, parents, Visit(p, id));
      if got.Threw? { PlaceholderCut(c, d, got.pass, cell.name); }
      if wide.Threw? { ThrewKept(d, wide.pass, cell.name); }
    }
  }

  lemma {:induction false} ThrewKept(c: Config, p: Pass, name: Text)
    ensures p.trail <= KeyThrew(c, p, name).pass.trail && p.trail <= SayPlaceholder(c, p, name).pass.trail
  {
  }

  // ------------------------------------------------------------------ the whole pass

  /** Whatever the graph, cyclic or exponentially shared: a pass that starts fresh visits no more
      values than the node budget, charges no more bytes than the byte budget, and returns a value
      whose containers hold at most maxKeys entries and nest at most maxDepth deep; a stop shows. */
  lemma {:induction false} PassIsBounded(c: Config, h: Heap, id: Id)
    ensures var r := Value(c, h, id, 0, [], START);
            && |r.pass.trail| == r.pass.nodes <= c.maxNodes && r.pass.charged <= c.maxBytes
            && Within(r.out, c.maxKeys, c.maxDepth)
            && (!r.pass.stopped.Running? ==> r.pass.truncated)
  {
    ValueBounded(c, h, id, 0, [], START);
  }

  /** The budgets do nothing but cut: a pass that was not stopped gives exactly what any wider
      budget gives, and one that was stopped visited only the first values the wider pass visits,
      so nothing later in walk order is visited after the stop. */
  lemma {:induction false} BudgetsOnlyCut(c: Config, d: Config, h: Heap, id: Id)
    requires Wider(c, d)
    ensures var r, w := Value(c, h, id, 0, [], START), Value(d, h, id, 0, [], START);
            && (r.pass.stopped.Running? ==> r == w)
            && r.pass.trail <= w.pass.trail
  {
    ValueCut(c, d, h, id, 0, [], START);
  }

  /** The same of sanitize_fields(), whose mapping sits one level above its values. */
  lemma {:induction false} SanitizedIsBounded(c: Config, h: Heap, id: Id)
    requires At(h, id).kind.Mapping?
    ensures var got := Container(c, h, id, -1, [], START);
            && |got.pass.trail| == got.pass.nodes <= c.maxNodes && got.pass.charged <= c.maxBytes
            && (!got.pass.stopped.Running? ==> Sanitize(c, h, id).truncated)
            && Within(OMap(Sanitize(c, h, id).fields), c.maxKeys, c.maxDepth + 1)
  {
    ContainerBounded(c, h, id, -1, [], START);
  }

  lemma {:induction false} SanitizedIsOnlyCut(c: Config, d: Config, h: Heap, id: Id)
    requires Wider(c, d) && At(h, id).kind.Mapping?
    ensures var got, wide := Container(c, h, id, -1, [], START), Container(d, h, id, -1, [], START);
            && (got.pass.stopped.Running? ==> Sanitize(c, h, id) == Sanitize(d, h, id))
            && got.pass.trail <= wide.pass.trail
  {
    ContainerCut(c, d, h, id, -1, [], START);
  }
}
