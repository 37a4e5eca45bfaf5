/**
 Greedy chunking of a batch into requests bounded by a count and by a total of bytes.
 */
module Chunk {
  datatype Limits = Limits(maxCount: int, maxBytes: int)

  function Sum<T>(items: seq<T>, size: T -> nat): nat {
    if items == [] then 0 else size(items[0]) + Sum(items[1..], size)
  }

  function Concat<T>(groups: seq<seq<T>>): seq<T> {
    if groups == [] then [] else groups[0] + Concat(groups[1..])
  }

  predicate Fits<T>(l: Limits, size: T -> nat, group: seq<T>) {
    |group| <= l.maxCount && Sum(group, size) <= l.maxBytes
  }

  predicate AllFit<T>(l: Limits, size: T -> nat, groups: seq<seq<T>>) {
    forall i :: 0 <= i < |groups| ==> Fits(l, size, groups[i])
  }

  /** Whether every item would fit a request of its own. */
  predicate EachFitsAlone<T>(l: Limits, size: T -> nat, items: seq<T>) {
    l.maxCount >= 1 && forall i :: 0 <= i < |items| ==> size(items[i]) <= l.maxBytes
  }

  // ------------------------------------------------------------------ the greedy split

  /** How many more items join a group of `count` items and `bytes` bytes. */
  function More<T>(l: Limits, size: T -> nat, items: seq<T>, count: nat, bytes: nat): (n: nat)
    ensures n <= |items|
  {
    if items == [] || count >= l.maxCount || bytes + size(items[0]) > l.maxBytes then 0
    else 1 + More(l, size, items[1..], count + 1, bytes + size(items[0]))
  }

  /** The first group's length: at least one item, whatever its size. */
  function First<T>(l: Limits, size: T -> nat, items: seq<T>): (n: nat)
    requires items != []
    ensures 1 <= n <= |items|
  {
    1 + More(l, size, items[1..], 1, size(items[0]))
  }

  function Greedy<T>(l: Limits, size: T -> nat, items: seq<T>): seq<seq<T>>
    decreases |items|
  {
    if items == [] then [] else
      var n := First(l, size, items);
      [items[..n]] + Greedy(l, size, items[n..])
  }

  lemma {:induction false} SumConcat<T>(a: seq<T>, b: seq<T>, size: T -> nat)
    ensures Sum(a + b, size) == Sum(a, size) + Sum(b, size)
  {
    if a == [] {
      assert a + b == b;
    } else {
      assert (a + b)[1..] == a[1..] + b;
      SumConcat(a[1..], b, size);
    }
  }

  lemma {:induction false} SumOne<T>(x: T, size: T -> nat)
    ensures Sum([x], size) == size(x)
  {
    assert [x][1..] == [];
  }

  /** A group grown from one within the limits stays within them, and is cut only where one more
      item would break one. */
  lemma {:induction false} MoreIsMost<T>(l: Limits, size: T -> nat, group: seq<T>, rest: seq<T>)
    requires group != []
    ensures var n := More(l, size, rest, |group|, Sum(group, size));
            && (Fits(l, size, group) ==> Fits(l, size, group + rest[..n]))
            && (n > 0 ==> Fits(l, size, group + rest[..n]))
            && (forall m :: n < m <= |rest| ==> !Fits(l, size, group + rest[..m]))
    decreases |rest|
  {
    var n := More(l, size, rest, |group|, Sum(group, size));
    assert group + rest[..0] == group;
    if n == 0 {
      forall m | 0 < m <= |rest| ensures !Fits(l, size, group + rest[..m]) {
        SumConcat(group, rest[..m], size);
        assert rest[..m][0] == rest[0];
      }
    } else {
      var grown := group + [rest[0]];
      SumConcat(group, [rest[0]], size);
      SumOne(rest[0], size);
      MoreIsMost(l, size, grown, rest[1..]);
      forall m | 0 < m <= |rest| ensures grown + rest[1..][..m - 1] == group + rest[..m] {
      }
      assert grown + rest[1..][..n - 1] == group + rest[..n];
      if n == 1 { assert grown + rest[1..][..0] == grown; }
    }
  }

  /** The first group is the longest run from the front that fits, or a single item. */
  lemma {:induction false} FirstIsMost<T>(l: Limits, size: T -> nat, items: seq<T>)
    requires items != []
    ensures var n := First(l, size, items);
            && (n > 1 || EachFitsAlone(l, size, items) ==> Fits(l, size, items[..n]))
            && (forall m :: n < m <= |items| ==> !Fits(l, size, items[..m]))
  {
    var n := First(l, size, items);
    SumOne(items[0], size);
    MoreIsMost(l, size, [items[0]], items[1..]);
    forall m | 1 <= m <= |items| ensures [items[0]] + items[1..][..m - 1] == items[..m] {
    }
  }

  // ------------------------------------------------------------------ what the split promises

  lemma {:induction false} GreedyCovers<T>(l: Limits, size: T -> nat, items: seq<T>)
    ensures Concat(Greedy(l, size, items)) == items
    decreases |items|
  {
    if items != [] {
      var n := First(l, size, items);
      var rest := Greedy(l, size, items[n..]);
      GreedyCovers(l, size, items[n..]);
      assert ([items[..n]] + rest)[1..] == rest;
      assert items[..n] + items[n..] == items;
    }
  }

  lemma {:induction false} GreedyFits<T>(l: Limits, size: T -> nat, items: seq<T>)
    ensures forall i :: 0 <= i < |Greedy(l, size, items)| ==> Greedy(l, size, items)[i] != []
    ensures EachFitsAlone(l, size, items) ==> AllFit(l, size, Greedy(l, size, items))
    decreases |items|
  {
    if items != [] {
      var n := First(l, size, items);
      FirstIsMost(l, size, items);
      GreedyFits(l, size, items[n..]);
      assert EachFitsAlone(l, size, items) ==> EachFitsAlone(l, size, items[n..]);
    }
  }

  lemma {:induction false} PartFits<T>(l: Limits, size: T -> nat, group: seq<T>, k: nat)
    requires Fits(l, size, group) && k <= |group|
    ensures Fits(l, size, group[k..])
  {
    assert group == group[..k] + group[k..];
    SumConcat(group[..k], group[k..], size);
  }

  /** Begun later, within the first group, the first group reaches at least as far. */
  lemma {:induction false} LaterReachesAsFar<T>(l: Limits, size: T -> nat, items: seq<T>, k: nat)
    requires 0 < k < |items| && k < First(l, size, items)
    ensures k + First(l, size, items[k..]) >= First(l, size, items)
  {
    var n, later := First(l, size, items), items[k..];
    FirstIsMost(l, size, items);
    FirstIsMost(l, size, later);
    PartFits(l, size, items[..n], k);
    assert items[..n][k..] == later[..n - k];
  }

  lemma {:induction false} GreedyCounts<T>(l: Limits, size: T -> nat, items: seq<T>, k: nat)
    requires k < |items|
    ensures var n := First(l, size, items[k..]);
            k + n <= |items| && |Greedy(l, size, items[k..])| == 1 + |Greedy(l, size, items[k + n..])|
  {
    var n := First(l, size, items[k..]);
    assert items[k..][n..] == items[k + n..];
  }

  /** Fewer items from the same end never take more groups. */
  lemma {:induction false} SuffixTakesNoMore<T>(l: Limits, size: T -> nat, items: seq<T>, k: nat)
    requires k <= |items|
    ensures |Greedy(l, size, items[k..])| <= |Greedy(l, size, items)|
    decreases |items|, 1
  {
    assert items[0..] == items;
    if 0 < k < |items| {
      var n := First(l, size, items);
      GreedyCounts(l, size, items, 0);
      if k < n {
        LaterReachesAsFar(l, size, items, k);
        GreedyCounts(l, size, items, k);
        SuffixAfter(l, size, items, n, k + First(l, size, items[k..]));
      } else {
        SuffixAfter(l, size, items, n, k);
      }
    }
  }

  lemma {:induction false} SuffixAfter<T>(l: Limits, size: T -> nat, items: seq<T>, n: nat, k: nat)
    requires 0 < n <= k <= |items|
    ensures |Greedy(l, size, items[k..])| <= |Greedy(l, size, items[n..])|
    decreases |items| - n, 2
  {
    SuffixTakesNoMore(l, size, items[n..], k - n);
    assert items[n..][k - n..] == items[k..];
  }

  /** No split of the same items into contiguous groups within both limits has fewer groups. */
  lemma {:induction false} GreedyIsFewest<T>(l: Limits, size: T -> nat, groups: seq<seq<T>>)
    requires AllFit(l, size, groups)
    ensures |Greedy(l, size, Concat(groups))| <= |groups|
  {
    if groups != [] {
      var g, rest := groups[0], Concat(groups[1..]);
      var items := g + rest;
      GreedyIsFewest(l, size, groups[1..]);
      assert items[|g|..] == rest && items[..|g|] == g;
      if items != [] {
        var n := First(l, size, items);
        FirstIsMost(l, size, items);
        assert n >= |g|;
        SuffixTakesNoMore(l, size, rest, n - |g|);
        assert rest[n - |g|..] == items[n..];
      }
    }
  }

  /** chunk_items() */
  method ChunkItems<T>(items: seq<T>, l: Limits, size: T -> nat) returns (groups: seq<seq<T>>)
    ensures groups == Greedy(l, size, items)
    ensures Concat(groups) == items && forall i :: 0 <= i < |groups| ==> groups[i] != []
    ensures EachFitsAlone(l, size, items) ==> AllFit(l, size, groups)
    ensures forall others :: AllFit(l, size, others) && Concat(others) == items ==> |groups| <= |others|
  {
    groups := [];
    var current: seq<T>, bytes := [], 0;
    for i := 0 to |items|
      invariant current == [] ==> i == 0
      invariant bytes == Sum(current, size)
      invariant Greedy(l, size, items) == groups + Ahead(l, size, current, items[i..])
    {
      var n := size(items[i]);
      assert items[i..][1..] == items[i + 1..];
      if current != [] && (|current| >= l.maxCount || bytes + n > l.maxBytes) {
        AheadCloses(l, size, current, items[i..]);
        groups, current, bytes := groups + [current], [], 0;
      }
      AheadGrows(l, size, current, items[i..]);
      SumConcat(current, [items[i]], size);
      SumOne(items[i], size);
      current, bytes := current + [items[i]], bytes + n;
    }
    if current != [] {
      AheadCloses(l, size, current, []);
      groups := groups + [current];
    }
    GreedyCovers(l, size, items);
    GreedyFits(l, size, items);
    forall others | AllFit(l, size, others) && Concat(others) == items ensures |groups| <= |others| {
      GreedyIsFewest(l, size, others);
    }
  }

  /** The groups still to come, with `current` open and `rest` unread. */
  function Ahead<T>(l: Limits, size: T -> nat, current: seq<T>, rest: seq<T>): seq<seq<T>> {
    if current == [] then Greedy(l, size, rest)
    else
      var n := More(l, size, rest, |current|, Sum(current, size));
      [current + rest[..n]] + Greedy(l, size, rest[n..])
  }

  lemma {:induction false} AheadCloses<T>(l: Limits, size: T -> nat, current: seq<T>, rest: seq<T>)
    requires current != []
    requires rest == [] || |current| >= l.maxCount || Sum(current, size) + size(rest[0]) > l.maxBytes
    ensures Ahead(l, size, current, rest) == [current] + Ahead(l, size, [], rest)
  {
    assert current + rest[..0] == current && rest[0..] == rest;
  }

  lemma {:induction false} AheadGrows<T>(l: Limits, size: T -> nat, current: seq<T>, rest: seq<T>)
    requires rest != []
    requires current == [] || (|current| < l.maxCount && Sum(current, size) + size(rest[0]) <= l.maxBytes)
    ensures Ahead(l, size, current, rest) == Ahead(l, size, current + [rest[0]], rest[1..])
  {
    var grown := current + [rest[0]];
    SumConcat(current, [rest[0]], size);
    SumOne(rest[0], size);
    var n := More(l, size, rest[1..], |grown|, Sum(grown, size));
    assert grown + rest[1..][..n] == current + rest[..n + 1];
    assert rest[1..][n..] == rest[n + 1..];
    if current == [] {
      assert grown == [rest[0]] && current + rest[..n + 1] == rest[..n + 1];
    }
  }
}
