/**
 The coercion pass as it runs: an object whose counters, flag and ancestor stack change while it
 recurses, proved to do what CoercionModel says and to leave the ancestor stack as it found it on
 every exit, a raised exception included.
 */
module Coercer {
  import opened Utf8
  import M = CoercionModel
  import T = CoercionTheorems
  import W = CoercionWhole
  import Clip
  import Digits

  class Coercer {
    const c: M.Config
    const h: M.Heap
    var nodes: nat
    var charged: nat
    var stopped: M.Stop
    var truncated: bool
    var parents: seq<M.Id>
    ghost var trail: seq<M.Id>

    constructor (c: M.Config, h: M.Heap)
      ensures this.c == c && this.h == h && Pass() == M.START && parents == []
    {
      this.c, this.h := c, h;
      nodes, charged, stopped, truncated, parents, trail := 0, 0, M.Running, false, [], [];
    }

    /** Where the pass stands. */
    ghost function Pass(): M.Pass
      reads this
    {
      M.Pass(nodes, charged, stopped, truncated, trail)
    }

    method Halt(at: M.Stop)
      modifies this`stopped, this`truncated
      ensures Pass() == M.Halt(old(Pass()), at)
    {
      stopped, truncated := at, true;
    }

    /** text() */
    method Text(t: Text) returns (r: Text)
      modifies this
      ensures parents == old(parents) && M.Said(r, Pass()) == M.SayText(c, old(Pass()), t)
    {
      var clipped := Clip.ClipHead(t, c.maxValueBytes);
      if charged + clipped.size > c.maxBytes {
        Halt(M.AtBytes);
        return c.words.sizeLimit;
      }
      charged := charged + clipped.size;
      if clipped.altered { truncated := true; }
      r := clipped.text;
    }

    /** produced() */
    method Produced(t: Text) returns (r: Text)
      modifies this
      ensures parents == old(parents) && M.Said(r, Pass()) == M.SayProduced(c, old(Pass()), t)
    {
      var clipped := Clip.ClipHead(t, c.maxValueBytes);
      var size := if |t| > clipped.size then |t| else clipped.size;
      if charged + size > c.maxBytes {
        Halt(M.AtBytes);
        return c.words.sizeLimit;
      }
      charged := charged + size;
      if clipped.altered { truncated := true; }
      r := clipped.text;
    }

    /** integer() */
    method Integer(v: int) returns (r: M.Out)
      modifies this
      ensures parents == old(parents) && M.Got(r, Pass()) == M.SayInteger(c, old(Pass()), v)
    {
      var rendered := Digits.RenderedEstimate(v);
      if rendered > c.intCeiling {
        truncated := true;
        return M.OText(M.IntPlaceholder(c, v));
      }
      if charged + rendered > c.maxBytes {
        Halt(M.AtBytes);
        return M.OText(c.words.sizeLimit);
      }
      charged := charged + rendered;
      r := M.OWhole(v);
    }

    /** value(): absorbs whatever the dispatch raised. */
    method Value(id: M.Id, depth: int) returns (r: M.Out)
      modifies this
      ensures parents == old(parents)
      ensures M.Valued(r, Pass()) == M.Value(c, h, id, depth, old(parents), old(Pass()))
      decreases M.Left(c, depth), 3, 0
    {
      if nodes >= c.maxNodes {
        Halt(M.AtNodes);
        return M.OText(c.words.nodeLimit);
      }
      nodes, trail := nodes + 1, trail + [id];
      var raised: bool;
      raised, r := Dispatch(id, depth);
      if raised {
        var t := Produced(c.words.value + M.At(h, id).name + c.words.close);
        r := M.OText(t);
      }
    }

    /** What a method that raised or returned came to. */
    static ghost function Came(raised: bool, r: M.Out, p: M.Pass): M.Got {
      if raised then M.Threw(p) else M.Got(r, p)
    }

    method Dispatch(id: M.Id, depth: int) returns (raised: bool, r: M.Out)
      modifies this
      ensures parents == old(parents)
      ensures Came(raised, r, Pass()) == M.Dispatch(c, h, id, depth, old(parents), old(Pass()))
      decreases M.Left(c, depth), 2, 0
    {
      if depth >= c.maxDepth {
        truncated := true;
        return false, M.OText(c.words.depthLimit);
      }
      var cell := M.At(h, id);
      match cell.kind
      case Mapping(_, _, _) => raised, r := Mapping(id, depth);
      case Members(_, _, _) => raised, r := Members(id, depth);
      case _ => raised, r := Leaf(cell);
    }

    /** A bytes value: only its head is read. */
    method Bytes(bytes: seq<Byte>) returns (r: Text)
      modifies this
      ensures parents == old(parents) && M.Said(r, Pass()) == M.SayRaw(c, old(Pass()), bytes)
    {
      var head := if |bytes| > c.maxValueBytes then bytes[..c.maxValueBytes + 1] else bytes;
      if !M.Decodes(head) { truncated := true; }
      r := Text(Decode(head, [REPLACEMENT]));
    }

    method Leaf(cell: M.Cell) returns (raised: bool, r: M.Out)
      requires !M.IsContainer(cell.kind)
      modifies this
      ensures parents == old(parents)
      ensures Came(raised, r, Pass()) == M.Leaf(c, old(Pass()), cell)
    {
      raised, r := false, M.ONull;
      match cell.kind
      case Null =>
      case Flag(b) => r := M.OFlag(b);
      case Whole(v) => r := Integer(v);
      case Real(finite, repr) =>
        if finite {
          r := M.OReal(repr);
        } else {
          truncated := true;
          r := M.OText(M.RealText(c, finite, repr));
        }
      case Str(text) =>
        var t := Text(text);
        r := M.OText(t);
      case Raw(bytes) =>
        var t := Bytes(bytes);
        r := M.OText(t);
      case Rendered =>
        if cell.str.Prints? {
          var t := Produced(cell.str.text);
          r := M.OText(t);
        } else {
          raised := true;
        }
      case Opaque =>
        var t := Produced(c.words.value + cell.name + c.words.close);
        r := M.OText(t);
    }

    /** mapping(): the ancestor is pushed, and popped however the loop ends. */
    method Mapping(id: M.Id, depth: int) returns (raised: bool, r: M.Out)
      requires depth < c.maxDepth && M.At(h, id).kind.Mapping?
      modifies this
      ensures parents == old(parents)
      ensures Came(raised, r, Pass()) == M.Container(c, h, id, depth, old(parents), old(Pass()))
      decreases M.Left(c, depth), 1, 0
    {
      if id in parents { return false, M.OText(c.words.circular); }
      var kind := M.At(h, id).kind;
      ghost var all := M.Container(c, h, id, depth, parents, Pass());
      parents := parents + [id];
      var out: seq<M.Field> := [];
      var i := 0;
      raised := false;
      assert kind.entries[0..] == kind.entries;
      while true
        invariant 0 <= i <= |kind.entries| && !raised && parents == old(parents) + [id]
        invariant M.Fields(c, h, kind.entries[i..], kind.raises, depth, parents, out, Pass()) == all
        decreases |kind.entries| - i
      {
        if i == |kind.entries| {
          raised := kind.raises;
          break;
        }
        if |out| >= c.maxKeys {
          truncated := true;
          break;
        }
        assert kind.entries[i..][1..] == kind.entries[i + 1..];
        var name, item := OneEntry(kind.entries[i], depth);
        out := M.Put(out, name, item);
        if !stopped.Running? { break; }
        i := i + 1;
      }
      r := M.OMap(out);
      assert Came(raised, r, Pass()) == all;
      parents := parents[..|parents| - 1];
    }

    /** One turn of the loop of mapping(): the name and the value to put under it. */
    method OneEntry(e: M.Entry, depth: int) returns (name: Text, item: M.Out)
      requires depth < c.maxDepth
      modifies this
      ensures parents == old(parents)
      ensures M.Pair(name, item, Pass()) == M.OneEntry(c, h, e, depth, old(parents), old(Pass()))
      decreases M.Left(c, depth), 0, 0
    {
      ghost var p := Pass();
      name := Key(e.key, depth + 1);
      ghost var key := M.Said(name, Pass());
      if stopped.Running? {
        item := Value(e.value, depth + 1);
        M.EntryOf(c, h, e, depth, parents, p, key, M.Valued(item, Pass()));
      } else {
        name := M.StopText(c, stopped);
        item := M.OText(name);
        M.EntryStopped(c, h, e, depth, parents, p, key);
      }
    }

    /** members() */
    method Members(id: M.Id, depth: int) returns (raised: bool, r: M.Out)
      requires depth < c.maxDepth && M.At(h, id).kind.Members?
      modifies this
      ensures parents == old(parents)
      ensures Came(raised, r, Pass()) == M.Container(c, h, id, depth, old(parents), old(Pass()))
      decreases M.Left(c, depth), 1, 0
    {
      if id in parents { return false, M.OText(c.words.circular); }
      var kind := M.At(h, id).kind;
      ghost var all := M.Container(c, h, id, depth, parents, Pass());
      parents := parents + [id];
      var out: seq<M.Out> := [];
      var i := 0;
      raised := false;
      assert kind.items[0..] == kind.items;
      while true
        invariant 0 <= i <= |kind.items| && !raised && parents == old(parents) + [id]
        invariant M.Items(c, h, kind.items[i..], kind.raises, depth, parents, out, Pass()) == all
        decreases |kind.items| - i
      {
        if i == |kind.items| {
          raised := kind.raises;
          break;
        }
        if |out| >= c.maxKeys {
          truncated := true;
          break;
        }
        var item := Value(kind.items[i], depth + 1);
        out := out + [item];
        if !stopped.Running? { break; }
        assert kind.items[i..][1..] == kind.items[i + 1..];
        i := i + 1;
      }
      r := M.OList(out);
      assert Came(raised, r, Pass()) == all;
      parents := parents[..|parents| - 1];
    }

    /** key(): absorbs whatever the rendering raised. */
    method Key(id: M.Id, depth: int) returns (r: Text)
      modifies this
      ensures parents == old(parents)
      ensures M.Said(r, Pass()) == M.Key(c, h, id, depth, old(parents), old(Pass()))
      decreases M.Left(c, depth), 3, 0
    {
      var cell := M.At(h, id);
      if M.IsContainer(cell.kind) && cell.kind.builtin {
        r := ContainerKey(id, depth);
      } else {
        r := LeafKey(cell);
      }
    }

    /** _container_key(): the container is coerced as a value would be, then dumped. */
    method ContainerKey(id: M.Id, depth: int) returns (r: Text)
      requires M.IsContainer(M.At(h, id).kind) && M.At(h, id).kind.builtin
      modifies this
      ensures parents == old(parents)
      ensures M.Said(r, Pass()) == M.Key(c, h, id, depth, old(parents), old(Pass()))
      decreases M.Left(c, depth), 2, 0
    {
      var cell := M.At(h, id);
      if nodes >= c.maxNodes {
        Halt(M.AtNodes);
        return c.words.nodeLimit;
      }
      nodes, trail := nodes + 1, trail + [id];
      var raised, coerced := false, M.ONull;
      if depth >= c.maxDepth {
        truncated := true;
        coerced := M.OText(c.words.depthLimit);
      } else if cell.kind.Mapping? {
        raised, coerced := Mapping(id, depth);
      } else {
        raised, coerced := Members(id, depth);
      }
      if raised {
        truncated := true;
        r := Produced(c.words.key + cell.name + c.words.close);
        return;
      }
      if !stopped.Running? { return M.StopText(c, stopped); }
      var clipped := Clip.ClipHead(c.dumps(coerced), c.maxValueBytes);
      if clipped.altered { truncated := true; }
      r := clipped.text;
    }

    method LeafKey(cell: M.Cell) returns (r: Text)
      modifies this
      ensures parents == old(parents)
      ensures M.Said(r, Pass()) == M.LeafKey(c, old(Pass()), cell)
    {
      match cell.kind
      case Str(text) => r := Text(text);
      case Whole(v) =>
        var rendered := Digits.RenderedEstimate(v);
        if rendered > c.intCeiling {
          truncated := true;
          r := Produced(M.IntPlaceholder(c, v));
        } else if charged + rendered - 1 > c.maxBytes {
          Halt(M.AtBytes);
          r := c.words.sizeLimit;
        } else {
          r := Produced(Digits.IntText(v));
        }
      case Real(finite, repr) =>
        if !finite { truncated := true; }
        r := Produced(M.RealText(c, finite, repr));
      case Raw(bytes) =>
        if charged + 4 * |bytes| + 3 > c.maxBytes {
          Halt(M.AtBytes);
          r := c.words.sizeLimit;
        } else {
          r := PrintedKey(cell);
        }
      case _ => r := PrintedKey(cell);
    }

    method PrintedKey(cell: M.Cell) returns (r: Text)
      modifies this
      ensures parents == old(parents)
      ensures M.Said(r, Pass()) == M.PrintedKey(c, old(Pass()), cell)
    {
      if cell.str.Prints? {
        r := Produced(cell.str.text);
      } else {
        truncated := true;
        r := Produced(c.words.key + cell.name + c.words.close);
      }
    }
  }

  /** sanitize_fields(): a fresh budgeted pass over the fields, absorbing what their iteration
      raises. */
  method SanitizeFields(cfg: M.Config, h: M.Heap, id: M.Id) returns (r: M.Sanitized)
    ensures r == M.Sanitize(M.Budgeted(cfg), h, id)
    ensures M.Within(M.OMap(r.fields), cfg.maxKeys, cfg.maxDepth + 1)
    ensures M.At(h, id).kind.Mapping? && !r.truncated ==>
              W.WholeContainer(M.Budgeted(cfg), h, id, []) == W.Is(M.OMap(r.fields))
  {
    if !M.At(h, id).kind.Mapping? { return M.Sanitized([], true); }
    var c := M.Budgeted(cfg);
    T.SanitizedIsBounded(c, h, id);
    if !M.Sanitize(c, h, id).truncated { W.UnmarkedFieldsAreWhole(c, h, id); }
    var coercer := new Coercer(c, h);
    var raised, out := coercer.Mapping(id, -1);
    if raised || !out.OMap? { return M.Sanitized([], true); }
    r := M.Sanitized(out.fields, coercer.truncated);
  }
}
