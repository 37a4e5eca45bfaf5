/**
 One call's pending drops, committed to the sink's counters only if the call returns normally, and
 the encode step that decides them event by event.
 */
module Deferral {
  type Event = nat
  type Counter = nat

  const UNENCODABLE: Counter := 0

  /** A line on stderr, naming how many events it speaks of. */
  datatype Line = Lost(count: nat)

  type Counts = map<Counter, nat>

  function Get(counts: Counts, c: Counter): nat {
    if c in counts then counts[c] else 0
  }

  /** counts[c] = counts.get(c, 0) + n, for n other than zero */
  function Plus(counts: Counts, c: Counter, n: nat): (r: Counts)
    ensures Get(r, c) == Get(counts, c) + n
    ensures forall d :: d != c ==> Get(r, d) == Get(counts, d)
  {
    if n == 0 then counts else counts[c := Get(counts, c) + n]
  }

  // ------------------------------------------------------------------ one attempt, from outside

  /** A drop the transport decides while sending. */
  datatype Drop = Drop(counter: Counter, n: nat)

  /** What one emit does: which events its encode function takes, what its transport drops, whether
      it raises once all that is decided. */
  datatype Attempt = Attempt(encodes: Event -> bool, drops: seq<Drop>, raises: bool)

  function Encodable(batch: seq<Event>, a: Attempt): seq<Event> {
    if batch == [] then []
    else Encodable(batch[..|batch| - 1], a) + if a.encodes(batch[|batch| - 1]) then [batch[|batch| - 1]] else []
  }

  function Dropped(drops: seq<Drop>, c: Counter): nat {
    if drops == [] then 0
    else Dropped(drops[..|drops| - 1], c) + if drops[|drops| - 1].counter == c then drops[|drops| - 1].n else 0
  }

  /** Every drop one attempt decides, under one counter. */
  function DropsOf(batch: seq<Event>, a: Attempt, c: Counter): int {
    Dropped(a.drops, c) + if c == UNENCODABLE then |batch| - |Encodable(batch, a)| else 0
  }

  // ------------------------------------------------------------------ the sink and its ledger

  class Sink {
    var counters: Counts
    var lines: seq<Line>

    constructor ()
      ensures counters == map[] && lines == []
    {
      counters, lines := map[], [];
    }

    /** emit(), from the outside: a raising call counts and announces nothing. */
    method Emit(batch: seq<Event>, a: Attempt) returns (raised: bool)
      modifies this
      ensures raised == a.raises
      ensures raised ==> counters == old(counters) && lines == old(lines)
      ensures !raised ==>
                && (forall c :: Get(counters, c) == Get(old(counters), c) + DropsOf(batch, a, c))
                && lines == old(lines) + (if |Encodable(batch, a)| < |batch| then [Lost(|batch| - |Encodable(batch, a)|)] else [])
    {
      var pending := new Ledger(this);
      var encoded := pending.EncodeEvents(batch, a);
      for i := 0 to |a.drops|
        invariant pending.owner == this && counters == old(counters) && lines == old(lines)
        invariant pending.lines == if |encoded| < |batch| then [Lost(|batch| - |encoded|)] else []
        invariant forall c :: Get(pending.counts, c) ==
                    Dropped(a.drops[..i], c) + if c == UNENCODABLE then |batch| - |encoded| else 0
      {
        assert a.drops[..i + 1][..i] == a.drops[..i];
        pending.Count(a.drops[i].counter, a.drops[i].n);
      }
      assert a.drops[..|a.drops|] == a.drops;
      raised := a.raises;
      pending.Exit(raised);
    }
  }

  /** A Deferral. */
  class Ledger {
    const owner: Sink
    var counts: Counts
    var lines: seq<Line>

    constructor (owner: Sink)
      ensures this.owner == owner && counts == map[] && lines == []
    {
      this.owner := owner;
      counts, lines := map[], [];
    }

    method Count(c: Counter, n: nat)
      modifies this`counts
      ensures counts == Plus(old(counts), c, n)
    {
      if n != 0 { counts := counts[c := Get(counts, c) + n]; }
    }

    method Announce(line: Line)
      modifies this`lines
      ensures lines == old(lines) + [line]
    {
      lines := lines + [line];
    }

    /** encode_events(): every event under its own guard, in order; the failures are counted and
        announced together, on this ledger alone. */
    method EncodeEvents(batch: seq<Event>, a: Attempt) returns (encoded: seq<Event>)
      modifies this
      ensures encoded == Encodable(batch, a) && |encoded| <= |batch|
      ensures counts == Plus(old(counts), UNENCODABLE, |batch| - |encoded|)
      ensures lines == old(lines) + (if |encoded| < |batch| then [Lost(|batch| - |encoded|)] else [])
    {
      encoded := [];
      var failures := 0;
      for i := 0 to |batch|
        invariant encoded == Encodable(batch[..i], a) && failures == i - |encoded|
        invariant counts == old(counts) && lines == old(lines)
      {
        assert batch[..i + 1][..i] == batch[..i];
        if a.encodes(batch[i]) { encoded := encoded + [batch[i]]; } else { failures := failures + 1; }
      }
      assert batch[..|batch|] == batch;
      if failures > 0 {
        Count(UNENCODABLE, failures);
        Announce(Lost(failures));
      }
    }

    /** __exit__(): a raise discards the ledger; otherwise the counts are committed, then the lines
        are written. */
    method Exit(raised: bool)
      modifies owner
      ensures raised ==> owner.counters == old(owner.counters) && owner.lines == old(owner.lines)
      ensures !raised ==>
                && (forall c :: Get(owner.counters, c) == Get(old(owner.counters), c) + Get(counts, c))
                && owner.lines == old(owner.lines) + lines
    {
      if raised { return; }
      var left := counts.Keys;
      while left != {}
        invariant left <= counts.Keys && owner.lines == old(owner.lines)
        invariant forall c :: Get(owner.counters, c) ==
                    Get(old(owner.counters), c) + if c in counts && c !in left then counts[c] else 0
        decreases |left|
      {
        var c :| c in left;
        owner.counters := owner.counters[c := Get(owner.counters, c) + counts[c]];
        left := left - {c};
      }
      owner.lines := owner.lines + lines;
    }
  }
}
