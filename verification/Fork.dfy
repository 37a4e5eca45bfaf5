/**
 The repair of a forked child: a worklist over everything the package can reach, which replaces each
 lock and event attribute it finds by one of the child's own.
 */
module Fork {
  type ObjId = nat
  type PrimId = nat
  type Name = nat

  datatype Primitive = Event(isSet: bool) | Lock(held: bool) | ReentrantLock(held: bool)

  datatype Val = Prim(prim: PrimId) | Ref(obj: ObjId) | Other

  datatype Attr = Attr(name: Name, val: Val)

  datatype Kind = Module(inPackage: bool) | Class | Instance

  /** `members`: what it holds as a container. `skip`: the names it opts out. `refuses`: the names
      it will not let be rebound. `hook`: whether it offers to take its transport over. */
  datatype Obj = Obj(kind: Kind, owned: bool, container: bool, members: seq<Val>, attrs: seq<Attr>,
                     skip: set<Name>, refuses: set<Name>, hook: bool)

  /** The process as the child finds it; no primitive is named `next` or above yet. */
  datatype Graph = Graph(objs: map<ObjId, Obj>, prims: map<PrimId, Primitive>, next: PrimId, roots: seq<ObjId>)

  predicate KnownVal(g: Graph, v: Val) {
    match v
    case Prim(p) => p in g.prims
    case Ref(o) => o in g.objs
    case Other => true
  }

  /** Nothing refers to anything that is not there. */
  predicate Closed(g: Graph) {
    && (forall p :: p in g.prims ==> p < g.next)
    && (forall i :: 0 <= i < |g.roots| ==> g.roots[i] in g.objs)
    && (forall x :: x in g.objs ==> forall i :: 0 <= i < |g.objs[x].members| ==> KnownVal(g, g.objs[x].members[i]))
    && (forall x :: x in g.objs ==> forall i :: 0 <= i < |g.objs[x].attrs| ==> KnownVal(g, g.objs[x].attrs[i].val))
  }

  predicate Traversable(o: Obj) {
    match o.kind
    case Module(inPackage) => inPackage
    case _ => o.container || o.owned
  }

  /** Whether the holder's own attributes are read: a module, a class, or an instance it owns. */
  predicate Namespaced(o: Obj) {
    !o.kind.Instance? || o.owned
  }

  predicate Followed(g: Graph, v: Val) {
    v.Ref? && v.obj in g.objs && Traversable(g.objs[v.obj])
  }

  // ------------------------------------------------------------------ what is reachable

  predicate MemberEdge(g: Graph, x: ObjId, y: ObjId)
    requires x in g.objs
  {
    g.objs[x].container && Ref(y) in g.objs[x].members && Followed(g, Ref(y))
  }

  predicate AttrEdge(g: Graph, x: ObjId, y: ObjId)
    requires x in g.objs
  {
    && Namespaced(g.objs[x]) && Followed(g, Ref(y))
    && exists i :: 0 <= i < |g.objs[x].attrs| && g.objs[x].attrs[i].name !in g.objs[x].skip && g.objs[x].attrs[i].val == Ref(y)
  }

  predicate Edge(g: Graph, x: ObjId, y: ObjId) {
    x in g.objs && (MemberEdge(g, x, y) || AttrEdge(g, x, y))
  }

  /** A way from a root over edges that are not opted out. */
  ghost predicate IsPath(g: Graph, path: seq<ObjId>) {
    && path != [] && path[0] in g.roots
    && forall i :: 0 <= i < |path| - 1 ==> Edge(g, path[i], path[i + 1])
  }

  ghost predicate Reachable(g: Graph, x: ObjId) {
    exists path :: IsPath(g, path) && path[|path| - 1] == x
  }

  lemma {:induction false} RootReachable(g: Graph, i: nat)
    requires i < |g.roots|
    ensures Reachable(g, g.roots[i])
  {
    assert IsPath(g, [g.roots[i]]);
  }

  lemma {:induction false} EdgeReachable(g: Graph, x: ObjId, y: ObjId)
    requires Reachable(g, x) && Edge(g, x, y)
    ensures Reachable(g, y)
  {
    var path :| IsPath(g, path) && path[|path| - 1] == x;
    var longer := path + [y];
    forall i | 0 <= i < |longer| - 1 ensures Edge(g, longer[i], longer[i + 1]) {
      if i < |path| - 1 { assert Edge(g, path[i], path[i + 1]); }
    }
    assert IsPath(g, longer);
  }

  /** A set that holds the roots and follows every edge holds everything reachable. */
  lemma {:induction false} ClosureHolds(g: Graph, seen: set<ObjId>, path: seq<ObjId>, n: nat)
    requires forall i :: 0 <= i < |g.roots| ==> g.roots[i] in seen
    requires forall x, y :: x in seen && Edge(g, x, y) ==> y in seen
    requires IsPath(g, path) && n < |path|
    ensures path[n] in seen
  {
    if n > 0 {
      ClosureHolds(g, seen, path, n - 1);
      assert Edge(g, path[n - 1], path[n]);
    }
  }

  // ------------------------------------------------------------------ what is replaced

  /** Whether attribute i of a holder is a primitive the repair replaces. */
  predicate Replaced(o: Obj, i: nat)
    requires i < |o.attrs|
  {
    Namespaced(o) && o.attrs[i].val.Prim? && o.attrs[i].name !in o.skip && o.attrs[i].name !in o.refuses
  }

  /** A primitive of the child's own: an event set or clear as before, a lock of the same kind that
      nobody holds. */
  function FreshOf(p: Primitive): Primitive {
    match p
    case Event(isSet) => Event(isSet)
    case Lock(_) => Lock(false)
    case ReentrantLock(_) => ReentrantLock(false)
  }

  /** Replacements minted once each: new, distinct, and equivalent. */
  predicate MemoFits(g: Graph, prims: map<PrimId, Primitive>, memo: map<PrimId, PrimId>) {
    && (forall p :: p in memo ==>
          p in g.prims && memo[p] !in g.prims && memo[p] in prims && prims[memo[p]] == FreshOf(g.prims[p]))
    && (forall p, q :: p in memo && q in memo && memo[p] == memo[q] ==> p == q)
    && (forall p :: p in g.prims ==> p in prims && prims[p] == g.prims[p])
  }

  /** Attribute i after the repair. */
  function NewVal(o: Obj, memo: map<PrimId, PrimId>, i: nat): Val
    requires i < |o.attrs|
  {
    if Replaced(o, i) && o.attrs[i].val.prim in memo then Prim(memo[o.attrs[i].val.prim]) else o.attrs[i].val
  }

  /** The first n attributes of a holder repaired, and the rest as they were. */
  function NewAttrs(o: Obj, memo: map<PrimId, PrimId>, n: nat): (r: seq<Attr>)
    ensures |r| == |o.attrs|
  {
    seq(|o.attrs|, i requires 0 <= i < |o.attrs| => if i < n then Attr(o.attrs[i].name, NewVal(o, memo, i)) else o.attrs[i])
  }

  predicate Minted(o: Obj, memo: map<PrimId, PrimId>, n: nat) {
    forall i :: 0 <= i < |o.attrs| && i < n && Replaced(o, i) ==> o.attrs[i].val.prim in memo
  }

  ghost predicate Extends(memo: map<PrimId, PrimId>, more: map<PrimId, PrimId>) {
    forall p :: p in memo ==> p in more && more[p] == memo[p]
  }

  /** Replacements minted later change nothing already repaired. */
  lemma {:induction false} NewAttrsStable(o: Obj, memo: map<PrimId, PrimId>, more: map<PrimId, PrimId>, n: nat)
    requires Minted(o, memo, n) && Extends(memo, more)
    ensures Minted(o, more, n) && NewAttrs(o, more, n) == NewAttrs(o, memo, n)
  {
    assert |NewAttrs(o, more, n)| == |NewAttrs(o, memo, n)|;
    forall i | 0 <= i < |o.attrs| ensures NewAttrs(o, more, n)[i] == NewAttrs(o, memo, n)[i] {
    }
  }

  class Repair {
    const g: Graph
    var attrs: map<ObjId, seq<Attr>>
    var prims: map<PrimId, Primitive>
    var next: PrimId
    var memo: map<PrimId, PrimId>
    var seen: set<ObjId>
    var stack: seq<ObjId>
    var hooks: seq<ObjId>

    constructor (g: Graph)
      requires Closed(g)
      ensures this.g == g && WalkInv()
    {
      this.g := g;
      attrs := map x | x in g.objs :: g.objs[x].attrs;
      prims, next, memo, seen, stack, hooks := g.prims, g.next, map[], {}, g.roots, [];
      new;
      forall x | x in stack ensures Reachable(g, x) {
        var i :| 0 <= i < |stack| && stack[i] == x;
        RootReachable(g, i);
      }
    }

    ghost predicate Memoed()
      reads this
    {
      MemoFits(g, prims, memo) && forall p :: p in prims ==> p < next
    }

    /** _fresh_primitive(): minted at most once. */
    method FreshPrimitive(p: PrimId) returns (q: PrimId)
      requires Memoed() && p in g.prims
      modifies this`prims, this`memo, this`next
      ensures Memoed() && p in memo && memo[p] == q && Extends(old(memo), memo)
    {
      if p in memo { return memo[p]; }
      q := next;
      prims, memo, next := prims[q := FreshOf(g.prims[p])], memo[p := q], next + 1;
    }

    /** A container's members, those that can be walked. */
    method PushMembers(x: ObjId) returns (ghost pushed: seq<ObjId>)
      requires x in g.objs
      modifies this`stack
      ensures stack == old(stack) + pushed
      ensures forall y :: y in pushed <==> MemberEdge(g, x, y)
    {
      var o := g.objs[x];
      pushed := [];
      if !o.container { return; }
      for i := 0 to |o.members|
        invariant stack == old(stack) + pushed
        invariant forall y :: y in pushed ==> MemberEdge(g, x, y)
        invariant forall j :: 0 <= j < i && Followed(g, o.members[j]) ==> o.members[j].obj in pushed
      {
        var val := o.members[i];
        if Followed(g, val) {
          assert val == Ref(val.obj);
          stack, pushed := stack + [val.obj], pushed + [val.obj];
        }
      }
      forall y | MemberEdge(g, x, y) ensures y in pushed {
        var j :| 0 <= j < |o.members| && o.members[j] == Ref(y);
        assert Followed(g, o.members[j]);
      }
    }

    /** One attribute of an entered holder: a primitive is replaced, anything else that can be
        walked is pushed. */
    method RepairAttr(x: ObjId, i: nat) returns (ghost pushed: seq<ObjId>)
      requires Closed(g) && Memoed() && x in g.objs && x in attrs && Namespaced(g.objs[x]) && i < |g.objs[x].attrs|
      requires attrs[x] == NewAttrs(g.objs[x], memo, i) && Minted(g.objs[x], memo, i)
      modifies this`attrs, this`prims, this`memo, this`next, this`stack
      ensures Memoed() && Extends(old(memo), memo)
      ensures attrs == old(attrs)[x := NewAttrs(g.objs[x], memo, i + 1)] && Minted(g.objs[x], memo, i + 1)
      ensures stack == old(stack) + pushed
      ensures var a := g.objs[x].attrs[i];
              pushed == if a.name !in g.objs[x].skip && Followed(g, a.val) then [a.val.obj] else []
    {
      var o := g.objs[x];
      var name, val := o.attrs[i].name, o.attrs[i].val;
      pushed := [];
      if name !in o.skip {
        assert KnownVal(g, o.attrs[i].val);
        if val.Prim? {
          ghost var before := memo;
          var q := FreshPrimitive(val.prim);
          NewAttrsStable(o, before, memo, i);
          if name !in o.refuses { attrs := attrs[x := attrs[x][i := Attr(name, Prim(q))]]; }
        } else if Followed(g, val) {
          stack, pushed := stack + [val.obj], [val.obj];
        }
      }
      assert attrs[x] == NewAttrs(o, memo, i + 1);
    }

    method RepairAttrs(x: ObjId) returns (ghost pushed: seq<ObjId>)
      requires Closed(g) && Memoed() && x in g.objs && x in attrs && attrs[x] == g.objs[x].attrs && Namespaced(g.objs[x])
      modifies this`attrs, this`prims, this`memo, this`next, this`stack
      ensures Memoed() && Extends(old(memo), memo)
      ensures attrs == old(attrs)[x := NewAttrs(g.objs[x], memo, |g.objs[x].attrs|)]
      ensures Minted(g.objs[x], memo, |g.objs[x].attrs|)
      ensures stack == old(stack) + pushed
      ensures forall y :: y in pushed <==> AttrEdge(g, x, y)
    {
      var o := g.objs[x];
      pushed := [];
      assert NewAttrs(o, memo, 0) == o.attrs;
      for i := 0 to |o.attrs|
        invariant Memoed() && Extends(old(memo), memo) && Minted(o, memo, i)
        invariant attrs == old(attrs)[x := NewAttrs(o, memo, i)]
        invariant stack == old(stack) + pushed
        invariant forall y :: y in pushed <==> AttrEdgeBefore(g, o, i, y)
      {
        ghost var more := RepairAttr(x, i);
        AttrEdgeNext(g, o, i);
        pushed := pushed + more;
      }
    }

    /** Where the walk stands between two turns. */
    ghost predicate WalkInv()
      reads this
    {
      && Closed(g) && Memoed() && Walked(g, attrs, memo, seen)
      && Known(g, seen, stack) && Covered(g, seen, stack) && Hooked(g, seen, hooks)
    }

    /** Enter a holder for the first time. */
    method Enter(x: ObjId) returns (ghost pushed: seq<ObjId>)
      requires Closed(g) && Memoed() && Walked(g, attrs, memo, seen) && Hooked(g, seen, hooks)
      requires x in g.objs && x !in seen
      modifies this
      ensures Memoed() && Walked(g, attrs, memo, seen) && Hooked(g, seen, hooks)
      ensures seen == old(seen) + {x} && stack == old(stack) + pushed
      ensures forall y :: y in pushed <==> Edge(g, x, y)
    {
      var o := g.objs[x];
      assert HolderFits(g, attrs, memo, seen, x);
      ghost var attrs0, memo0, seen0 := attrs, memo, seen;
      seen := seen + {x};
      pushed := PushMembers(x);
      if OffersHook(o) { hooks := hooks + [x]; }
      if Namespaced(o) {
        ghost var more := RepairAttrs(x);
        pushed := pushed + more;
      } else {
        assert NewAttrs(o, memo, |o.attrs|) == o.attrs;
        assert attrs == attrs[x := o.attrs];
      }
      WalkedOn(g, attrs0, memo0, seen0, x, attrs, memo);
    }

    /** Take the top of the stack, and enter it unless it was entered before. */
    method EnterTop()
      requires WalkInv() && stack != []
      modifies this
      ensures WalkInv()
      ensures old(seen) <= seen && (seen == old(seen) ==> |stack| < |old(stack)|)
    {
      var last := |stack| - 1;
      var x := stack[last];
      ghost var rest, seen0 := stack[..last], seen;
      assert stack == rest + [x];
      stack := stack[..last];
      if x in seen {
        Passed(g, seen, rest, x);
      } else {
        ghost var pushed := Enter(x);
        Entered(g, seen0, rest, x, pushed);
      }
    }

    /** _reinit_primitives(): terminates on any graph, enters exactly what is reachable, replaces
        every primitive attribute of it and touches nothing else. */
    method ReinitPrimitives()
      requires WalkInv()
      modifies this
      ensures WalkInv() && stack == []
      ensures forall x :: x in seen <==> Reachable(g, x)
    {
      while stack != []
        invariant WalkInv()
        decreases |g.objs.Keys - seen|, |stack|
      {
        ghost var before := seen;
        EnterTop();
        if seen != before { Shrinks(g.objs.Keys, before, seen); }
      }
      forall x | Reachable(g, x) ensures x in seen { AllEntered(g, seen, x); }
    }
  }

  // ------------------------------------------------------------------ the walk's invariant

  /** An entered holder is repaired, any other is as it was. */
  predicate HolderFits(g: Graph, attrs: map<ObjId, seq<Attr>>, memo: map<PrimId, PrimId>, seen: set<ObjId>, x: ObjId) {
    x in g.objs ==>
      && x in attrs
      && if x in seen then
           attrs[x] == NewAttrs(g.objs[x], memo, |g.objs[x].attrs|) && Minted(g.objs[x], memo, |g.objs[x].attrs|)
         else attrs[x] == g.objs[x].attrs
  }

  ghost predicate Walked(g: Graph, attrs: map<ObjId, seq<Attr>>, memo: map<PrimId, PrimId>, seen: set<ObjId>) {
    && seen <= g.objs.Keys
    && forall x {:trigger HolderFits(g, attrs, memo, seen, x)} :: HolderFits(g, attrs, memo, seen, x)
  }

  /** Only what is reachable is entered or waits. */
  ghost predicate Known(g: Graph, seen: set<ObjId>, stack: seq<ObjId>) {
    forall x :: x in seen || x in stack ==> x in g.objs && Reachable(g, x)
  }

  /** Every way on from what is entered is entered or waiting. */
  ghost predicate Covered(g: Graph, seen: set<ObjId>, stack: seq<ObjId>) {
    && (forall i :: 0 <= i < |g.roots| ==> g.roots[i] in seen || g.roots[i] in stack)
    && (forall x, y :: x in seen && Edge(g, x, y) ==> y in seen || y in stack)
  }

  /** The holders that offer the hook, each once. */
  ghost predicate Hooked(g: Graph, seen: set<ObjId>, hooks: seq<ObjId>) {
    && (forall y :: y in hooks <==> y in seen && y in g.objs && OffersHook(g.objs[y]))
    && (forall i, j :: 0 <= i < j < |hooks| ==> hooks[i] != hooks[j])
  }

  lemma {:induction false} WalkedOn(g: Graph, attrs: map<ObjId, seq<Attr>>, memo: map<PrimId, PrimId>, seen: set<ObjId>,
                                    x: ObjId, attrs': map<ObjId, seq<Attr>>, memo': map<PrimId, PrimId>)
    requires Walked(g, attrs, memo, seen) && x in g.objs && x !in seen && Extends(memo, memo')
    requires attrs' == attrs[x := NewAttrs(g.objs[x], memo', |g.objs[x].attrs|)]
    requires Minted(g.objs[x], memo', |g.objs[x].attrs|)
    ensures Walked(g, attrs', memo', seen + {x})
  {
    forall y: ObjId ensures HolderFits(g, attrs', memo', seen + {x}, y) {
      assert HolderFits(g, attrs, memo, seen, y);
      if y in g.objs && y in seen { NewAttrsStable(g.objs[y], memo, memo', |g.objs[y].attrs|); }
    }
  }

  lemma {:induction false} Passed(g: Graph, seen: set<ObjId>, rest: seq<ObjId>, x: ObjId)
    requires Known(g, seen, rest + [x]) && Covered(g, seen, rest + [x]) && x in seen
    ensures Known(g, seen, rest) && Covered(g, seen, rest)
  {
    assert forall y :: y in rest + [x] <==> y in rest || y == x;
  }

  lemma {:induction false} Entered(g: Graph, seen: set<ObjId>, rest: seq<ObjId>, x: ObjId, pushed: seq<ObjId>)
    requires Known(g, seen, rest + [x]) && Covered(g, seen, rest + [x])
    requires forall y :: y in pushed <==> Edge(g, x, y)
    ensures Known(g, seen + {x}, rest + pushed) && Covered(g, seen + {x}, rest + pushed)
  {
    assert forall y :: y in rest + [x] <==> y in rest || y == x;
    assert Reachable(g, x);
    forall y | y in pushed ensures y in g.objs && Reachable(g, y) { EdgeReachable(g, x, y); }
  }

  lemma {:induction false} AllEntered(g: Graph, seen: set<ObjId>, x: ObjId)
    requires Covered(g, seen, []) && Reachable(g, x)
    ensures x in seen
  {
    var path :| IsPath(g, path) && path[|path| - 1] == x;
    ClosureHolds(g, seen, path, |path| - 1);
  }

  predicate OffersHook(o: Obj) {
    o.kind.Instance? && o.owned && o.hook
  }

  lemma {:induction false} Shrinks(all: set<ObjId>, before: set<ObjId>, after: set<ObjId>)
    requires before < after <= all
    ensures |all - after| < |all - before|
  {
    var x :| x in after && x !in before;
    SubsetSize(all - after, all - before, x);
  }

  lemma {:induction false} SubsetSize(a: set<ObjId>, b: set<ObjId>, x: ObjId)
    requires a <= b && x in b && x !in a
    ensures |a| < |b|
    decreases |a|
  {
    if a == {} {
      assert |b| > 0;
    } else {
      var y :| y in a;
      SubsetSize(a - {y}, b - {y}, x);
    }
  }

  /** An attribute edge out of one of a holder's first n attributes. */
  predicate AttrEdgeBefore(g: Graph, o: Obj, n: nat, y: ObjId) {
    && Namespaced(o) && Followed(g, Ref(y))
    && exists i :: 0 <= i < |o.attrs| && i < n && o.attrs[i].name !in o.skip && o.attrs[i].val == Ref(y)
  }

  lemma {:induction false} AttrEdgeNext(g: Graph, o: Obj, n: nat)
    requires n < |o.attrs| && Namespaced(o)
    ensures forall y :: AttrEdgeBefore(g, o, n + 1, y) <==>
              AttrEdgeBefore(g, o, n, y) || (o.attrs[n].name !in o.skip && o.attrs[n].val == Ref(y) && Followed(g, Ref(y)))
  {
  }

  // ------------------------------------------------------------------ what the child gets

  /** Attribute i of x, after the repair. */
  ghost predicate AttrRepaired(g: Graph, attrs: map<ObjId, seq<Attr>>, prims: map<PrimId, Primitive>, x: ObjId, i: nat) {
    x in g.objs && i < |g.objs[x].attrs| ==>
      var o := g.objs[x];
      && x in attrs && |attrs[x]| == |o.attrs| && attrs[x][i].name == o.attrs[i].name
      && if Reachable(g, x) && Replaced(o, i) then
           && attrs[x][i].val.Prim? && o.attrs[i].val.prim in g.prims
           && var q := attrs[x][i].val.prim;
              q !in g.prims && q in prims && prims[q] == FreshOf(g.prims[o.attrs[i].val.prim])
         else attrs[x][i].val == o.attrs[i].val
  }

  /** Two primitive attributes share after the repair exactly when they shared before it, unless
      they shared and only one of them was replaced. */
  ghost predicate SharingKept(g: Graph, attrs: map<ObjId, seq<Attr>>, x: ObjId, i: nat, y: ObjId, j: nat) {
    (x in g.objs && i < |g.objs[x].attrs| && x in attrs && i < |attrs[x]| && g.objs[x].attrs[i].val.Prim?
     && y in g.objs && j < |g.objs[y].attrs| && y in attrs && j < |attrs[y]| && g.objs[y].attrs[j].val.Prim?)
    ==>
      var shared, share := g.objs[x].attrs[i].val == g.objs[y].attrs[j].val, attrs[x][i].val == attrs[y][j].val;
      var first := Reachable(g, x) && Replaced(g.objs[x], i);
      var second := Reachable(g, y) && Replaced(g.objs[y], j);
      (share <==> shared) <==> (!shared || first == second)
  }

  lemma {:induction false} AttrAfter(g: Graph, attrs: map<ObjId, seq<Attr>>, prims: map<PrimId, Primitive>,
                                     memo: map<PrimId, PrimId>, seen: set<ObjId>, x: ObjId, i: nat)
    requires Closed(g) && MemoFits(g, prims, memo) && Walked(g, attrs, memo, seen)
    requires forall z :: z in seen <==> Reachable(g, z)
    ensures AttrRepaired(g, attrs, prims, x, i)
  {
    assert HolderFits(g, attrs, memo, seen, x);
    if x in g.objs && i < |g.objs[x].attrs| { assert KnownVal(g, g.objs[x].attrs[i].val); }
  }

  lemma {:induction false} SharingAfter(g: Graph, attrs: map<ObjId, seq<Attr>>, prims: map<PrimId, Primitive>,
                                        memo: map<PrimId, PrimId>, seen: set<ObjId>, x: ObjId, i: nat, y: ObjId, j: nat)
    requires Closed(g) && MemoFits(g, prims, memo) && Walked(g, attrs, memo, seen)
    requires forall z :: z in seen <==> Reachable(g, z)
    ensures SharingKept(g, attrs, x, i, y, j)
  {
    assert HolderFits(g, attrs, memo, seen, x) && HolderFits(g, attrs, memo, seen, y);
    if x in g.objs && i < |g.objs[x].attrs| { assert KnownVal(g, g.objs[x].attrs[i].val); }
    if y in g.objs && j < |g.objs[y].attrs| { assert KnownVal(g, g.objs[y].attrs[j].val); }
  }

  /** On any graph, cyclic or not, the repair ends; every lock or event attribute of a reachable
      module, class or owned instance that is not opted out and not refused is one of the child's
      own, equivalent to the old; attributes share as before; and nothing else changes. */
  method RepairChild(g: Graph) returns (attrs: map<ObjId, seq<Attr>>, prims: map<PrimId, Primitive>, hooks: seq<ObjId>)
    requires Closed(g)
    ensures forall x, i {:trigger AttrRepaired(g, attrs, prims, x, i)} :: AttrRepaired(g, attrs, prims, x, i)
    ensures forall x, i, y, j {:trigger SharingKept(g, attrs, x, i, y, j)} :: SharingKept(g, attrs, x, i, y, j)
    ensures forall p :: p in g.prims ==> p in prims && prims[p] == g.prims[p]
    ensures forall x :: x in hooks <==> Reachable(g, x) && x in g.objs && OffersHook(g.objs[x])
    ensures forall i, j :: 0 <= i < j < |hooks| ==> hooks[i] != hooks[j]
  {
    var repair := new Repair(g);
    repair.ReinitPrimitives();
    attrs, prims, hooks := repair.attrs, repair.prims, repair.hooks;
    forall x: ObjId, i: nat ensures AttrRepaired(g, attrs, prims, x, i) {
      AttrAfter(g, attrs, prims, repair.memo, repair.seen, x, i);
    }
    forall x: ObjId, i: nat, y: ObjId, j: nat ensures SharingKept(g, attrs, x, i, y, j) {
      SharingAfter(g, attrs, prims, repair.memo, repair.seen, x, i, y, j);
    }
  }
}
