/**
 Spans in one context: opening, logging, adopting a remote trace, sweeping the open spans on an
 in-span flush, and closing; and the one trace id all of a span's events go out under.
 */
module Spans {
  type TraceId = nat
  type SpanId = nat

  datatype Parent = NoParent | Under(span: SpanId)

  /** What an event carries of its identity. `uid` is its log id. */
  datatype Event = Event(uid: nat, span: SpanId, trace: TraceId, parent: Parent)

  datatype Span = Span(trace: TraceId, parent: Parent, events: seq<Event>, closed: bool, swept: bool)

  datatype Adopted = Nothing | Adopted(trace: TraceId, parent: Parent)

  type Spans = map<SpanId, Span>

  // ------------------------------------------------------------------ the invariant

  function Uids(es: seq<Event>): (r: seq<nat>)
    ensures |r| == |es|
  {
    seq(|es|, i requires 0 <= i < |es| => es[i].uid)
  }

  /** The buffer holds only the span's own events, all under its present trace id. */
  predicate BufferFits(spans: Spans, made: seq<SpanId>, s: SpanId) {
    s in spans ==>
      forall i :: 0 <= i < |spans[s].events| ==>
        var e := spans[s].events[i];
        e.span == s && e.trace == spans[s].trace && e.uid < |made| && made[e.uid] == s
  }

  /** An event that went out is under its span's trace id, and that span is no longer open for
      adoption: it was swept, or it is off the stack. */
  predicate SubmittedFits(spans: Spans, stack: seq<SpanId>, made: seq<SpanId>, e: Event) {
    && e.span in spans && e.trace == spans[e.span].trace && e.uid < |made| && made[e.uid] == e.span
    && (spans[e.span].swept || e.span !in stack)
  }

  /** The event made as number u is in one place, once: submitted, or in its span's buffer. */
  ghost predicate OnceFits(spans: Spans, submitted: seq<Event>, made: seq<SpanId>, u: nat) {
    u < |made| ==>
      made[u] in spans && multiset(Uids(submitted))[u] + multiset(Uids(spans[made[u]].events))[u] == 1
  }

  ghost predicate Inv(spans: Spans, stack: seq<SpanId>, submitted: seq<Event>, made: seq<SpanId>) {
    && (forall s {:trigger BufferFits(spans, made, s)} :: BufferFits(spans, made, s))
    && (forall i :: 0 <= i < |submitted| ==> SubmittedFits(spans, stack, made, submitted[i]))
    && (forall u {:trigger OnceFits(spans, submitted, made, u)} :: OnceFits(spans, submitted, made, u))
    && (forall i :: 0 <= i < |stack| ==> stack[i] in spans && !spans[stack[i]].closed)
    && (forall i, j :: 0 <= i < j < |stack| ==> stack[i] != stack[j])
  }

  /** The events counted as lost are those still buffered in spans off the stack. */
  ghost predicate LostFits(spans: Spans, stack: seq<SpanId>, lost: seq<Event>, made: seq<SpanId>, u: nat) {
    u < |made| && made[u] in spans ==>
      multiset(Uids(lost))[u] == if made[u] in stack then 0 else multiset(Uids(spans[made[u]].events))[u]
  }

  ghost predicate LossInv(spans: Spans, stack: seq<SpanId>, lost: seq<Event>, made: seq<SpanId>) {
    && (forall u {:trigger LostFits(spans, stack, lost, made, u)} :: LostFits(spans, stack, lost, made, u))
    && (forall i :: 0 <= i < |lost| ==> lost[i].uid < |made|)
  }

  /** Once swept, a span keeps its trace id and its parent. */
  predicate Frozen(before: Spans, after: Spans, s: SpanId) {
    s in before && before[s].swept ==>
      s in after && after[s].swept && after[s].trace == before[s].trace && after[s].parent == before[s].parent
  }

  ghost predicate SweptFrozen(before: Spans, after: Spans) {
    forall s {:trigger Frozen(before, after, s)} :: Frozen(before, after, s)
  }

  // ------------------------------------------------------------------ steps on values

  lemma {:induction false} UidsConcat(a: seq<Event>, b: seq<Event>)
    ensures Uids(a + b) == Uids(a) + Uids(b)
  {
  }

  /** One more event in a span's buffer. */
  lemma {:induction false} InvAppend(spans: Spans, stack: seq<SpanId>, submitted: seq<Event>, made: seq<SpanId>, s: SpanId, e: Event)
    requires Inv(spans, stack, submitted, made) && s in spans
    requires e == Event(|made|, s, spans[s].trace, e.parent)
    ensures Inv(spans[s := spans[s].(events := spans[s].events + [e])], stack, submitted, made + [s])
  {
    var spans' := spans[s := spans[s].(events := spans[s].events + [e])];
    var made' := made + [s];
    forall t: SpanId ensures BufferFits(spans', made', t) { assert BufferFits(spans, made, t); }
    forall i | 0 <= i < |submitted| ensures SubmittedFits(spans', stack, made', submitted[i]) {
      assert SubmittedFits(spans, stack, made, submitted[i]);
    }
    forall u: nat ensures OnceFits(spans', submitted, made', u) {
      OnceAppended(spans, stack, submitted, made, s, e, u);
    }
  }

  lemma {:induction false} OnceAppended(spans: Spans, stack: seq<SpanId>, submitted: seq<Event>, made: seq<SpanId>, s: SpanId, e: Event, u: nat)
    requires Inv(spans, stack, submitted, made) && s in spans
    requires e == Event(|made|, s, spans[s].trace, e.parent)
    ensures OnceFits(spans[s := spans[s].(events := spans[s].events + [e])], submitted, made + [s], u)
  {
    assert OnceFits(spans, submitted, made, u) && BufferFits(spans, made, s);
    UidsConcat(spans[s].events, [e]);
    assert Uids([e]) == [e.uid];
    if u == |made| {
      forall i | 0 <= i < |submitted| ensures Uids(submitted)[i] != u {
        assert SubmittedFits(spans, stack, made, submitted[i]);
      }
      assert u !in Uids(submitted) && u !in Uids(spans[s].events);
    }
  }

  /** A new span, with its start event. */
  lemma {:induction false} InvOpen(spans: Spans, stack: seq<SpanId>, submitted: seq<Event>, made: seq<SpanId>, s: SpanId, span: Span)
    requires Inv(spans, stack, submitted, made) && s !in spans && s !in stack
    requires span.events == [] && !span.closed
    ensures Inv(spans[s := span], stack, submitted, made)
    ensures Inv(spans[s := span], stack + [s], submitted, made)
  {
    var spans' := spans[s := span];
    forall t: SpanId ensures BufferFits(spans', made, t) { assert BufferFits(spans, made, t); }
    forall i | 0 <= i < |submitted|
      ensures SubmittedFits(spans', stack, made, submitted[i]) && SubmittedFits(spans', stack + [s], made, submitted[i])
    {
      assert SubmittedFits(spans, stack, made, submitted[i]);
    }
    forall u: nat ensures OnceFits(spans', submitted, made, u) { assert OnceFits(spans, submitted, made, u); }
  }

  /** A span's buffer goes out whole, and the span is swept or comes off the stack. */
  lemma {:induction false} InvDetach(spans: Spans, stack: seq<SpanId>, submitted: seq<Event>, made: seq<SpanId>, s: SpanId, span: Span, stack': seq<SpanId>)
    requires Inv(spans, stack, submitted, made) && s in spans
    requires span == Span(spans[s].trace, spans[s].parent, [], span.closed, span.swept)
    requires (spans[s].swept ==> span.swept) && (span.swept || s !in stack')
    requires stack' == stack || (stack != [] && stack[|stack| - 1] == s && stack' == stack[..|stack| - 1])
    requires span.closed ==> s !in stack'
    ensures Inv(spans[s := span], stack', submitted + spans[s].events, made)
  {
    var spans', submitted' := spans[s := span], submitted + spans[s].events;
    assert BufferFits(spans, made, s);
    forall t: SpanId ensures BufferFits(spans', made, t) { assert BufferFits(spans, made, t); }
    forall i | 0 <= i < |submitted'| ensures SubmittedFits(spans', stack', made, submitted'[i]) {
      if i < |submitted| { assert SubmittedFits(spans, stack, made, submitted[i]); }
    }
    forall u: nat ensures OnceFits(spans', submitted', made, u) {
      assert OnceFits(spans, submitted, made, u);
      UidsConcat(submitted, spans[s].events);
      if u < |made| && made[u] != s { NotElsewhere(spans, made, s, u); }
    }
  }

  lemma {:induction false} NotElsewhere(spans: Spans, made: seq<SpanId>, s: SpanId, u: nat)
    requires BufferFits(spans, made, s) && s in spans && u < |made| && made[u] != s
    ensures multiset(Uids(spans[s].events))[u] == 0
  {
    assert u !in Uids(spans[s].events);
  }

  // ------------------------------------------------------------------ adopting

  function Restamped(es: seq<Event>, s: SpanId, trace: TraceId, parent: Parent): (r: seq<Event>)
    ensures |r| == |es| && Uids(r) == Uids(es)
  {
    seq(|es|, i requires 0 <= i < |es| => Event(es[i].uid, es[i].span, trace, if es[i].span == s then parent else es[i].parent))
  }

  /** The span under a remote parent, with everything it has buffered. */
  function Reparented(span: Span, s: SpanId, remote: Adopted): Span
    requires remote.Adopted?
  {
    span.(trace := remote.trace, parent := remote.parent, events := Restamped(span.events, s, remote.trace, remote.parent))
  }

  /** Re-parenting an open root none of whose events has gone out. */
  lemma {:induction false} InvReparent(spans: Spans, stack: seq<SpanId>, submitted: seq<Event>, made: seq<SpanId>, s: SpanId, trace: TraceId, parent: Parent)
    requires Inv(spans, stack, submitted, made) && s in spans && s in stack && !spans[s].swept
    ensures Inv(spans[s := Reparented(spans[s], s, Adopted(trace, parent))], stack, submitted, made)
  {
    var spans' := spans[s := Reparented(spans[s], s, Adopted(trace, parent))];
    forall t: SpanId ensures BufferFits(spans', made, t) { assert BufferFits(spans, made, t); }
    forall i | 0 <= i < |submitted| ensures SubmittedFits(spans', stack, made, submitted[i]) {
      assert SubmittedFits(spans, stack, made, submitted[i]);
    }
    forall u: nat ensures OnceFits(spans', submitted, made, u) { assert OnceFits(spans, submitted, made, u); }
  }

  /** Flags other than identity. */
  lemma {:induction false} InvFlags(spans: Spans, stack: seq<SpanId>, submitted: seq<Event>, made: seq<SpanId>, s: SpanId, swept: bool, closed: bool, stack': seq<SpanId>)
    requires Inv(spans, stack, submitted, made) && s in spans
    requires spans[s].swept ==> swept
    requires stack' == stack || (stack != [] && stack[|stack| - 1] == s && stack' == stack[..|stack| - 1])
    requires closed ==> s !in stack'
    ensures Inv(spans[s := spans[s].(swept := swept, closed := closed)], stack', submitted, made)
  {
    var spans' := spans[s := spans[s].(swept := swept, closed := closed)];
    forall t: SpanId ensures BufferFits(spans', made, t) { assert BufferFits(spans, made, t); }
    forall i | 0 <= i < |submitted| ensures SubmittedFits(spans', stack', made, submitted[i]) {
      assert SubmittedFits(spans, stack, made, submitted[i]);
    }
    forall u: nat ensures OnceFits(spans', submitted, made, u) { assert OnceFits(spans, submitted, made, u); }
  }

  // ------------------------------------------------------------------ what is lost

  /** Whatever changes only spans on the stack, or empties a buffer, loses nothing. */
  lemma {:induction false} LossKept(spans: Spans, stack: seq<SpanId>, lost: seq<Event>, made: seq<SpanId>,
                                    spans': Spans, stack': seq<SpanId>, made': seq<SpanId>)
    requires LossInv(spans, stack, lost, made)
    requires made <= made' && (forall s :: s in spans ==> s in spans')
    requires forall u :: 0 <= u < |made| ==> made[u] in spans
    requires forall u :: |made| <= u < |made'| ==> made'[u] in stack'
    requires forall s :: s in spans && s in stack ==> s in stack' || spans'[s].events == []
    requires forall s :: s in spans && s !in stack ==> s !in stack' && spans'[s].events == spans[s].events
    ensures LossInv(spans', stack', lost, made')
  {
    forall u: nat ensures LostFits(spans', stack', lost, made', u) {
      if u < |made| {
        assert LostFits(spans, stack, lost, made, u);
      } else {
        NotPast(lost, |made|, u);
      }
    }
  }

  lemma {:induction false} NotPast(es: seq<Event>, n: nat, u: nat)
    requires u >= n && forall i :: 0 <= i < |es| ==> es[i].uid < n
    ensures multiset(Uids(es))[u] == 0
  {
    assert u !in Uids(es);
  }

  /** A span that comes off the stack with a buffer loses that buffer. */
  lemma {:induction false} LossAdded(spans: Spans, stack: seq<SpanId>, submitted: seq<Event>, lost: seq<Event>, made: seq<SpanId>,
                                     s: SpanId, span: Span, rest: seq<SpanId>)
    requires Inv(spans, stack, submitted, made) && LossInv(spans, stack, lost, made)
    requires stack == rest + [s] && s in spans && span.events == spans[s].events
    ensures LossInv(spans[s := span], rest, lost + spans[s].events, made)
  {
    var spans', lost' := spans[s := span], lost + spans[s].events;
    assert BufferFits(spans, made, s);
    UidsConcat(lost, spans[s].events);
    forall i | 0 <= i < |rest| ensures rest[i] != s { assert stack[i] != stack[|rest|]; }
    forall u: nat ensures LostFits(spans', rest, lost', made, u) {
      assert LostFits(spans, stack, lost, made, u) && OnceFits(spans, submitted, made, u);
      if u < |made| && made[u] != s { NotElsewhere(spans, made, s, u); }
    }
    forall i | 0 <= i < |lost'| ensures lost'[i].uid < |made| {
      if i >= |lost| { assert lost'[i] == spans[s].events[i - |lost|]; }
    }
  }

  /** Every event made is in exactly one place, once: submitted, in the buffer of an open span, or
      lost. */
  ghost predicate OnePlace(spans: Spans, stack: seq<SpanId>, submitted: seq<Event>, lost: seq<Event>, made: seq<SpanId>, u: nat) {
    u < |made| ==>
      && made[u] in spans
      && multiset(Uids(submitted))[u] + multiset(Uids(lost))[u]
         + (if made[u] in stack then multiset(Uids(spans[made[u]].events))[u] else 0) == 1
  }

  lemma {:induction false} EventsAreConserved(spans: Spans, stack: seq<SpanId>, submitted: seq<Event>, lost: seq<Event>, made: seq<SpanId>, u: nat)
    requires Inv(spans, stack, submitted, made) && LossInv(spans, stack, lost, made)
    ensures OnePlace(spans, stack, submitted, lost, made, u)
  {
    assert OnceFits(spans, submitted, made, u) && LostFits(spans, stack, lost, made, u);
  }

  function UpTo(n: nat): (r: seq<nat>)
    ensures |r| == n && forall i :: 0 <= i < n ==> r[i] == i
  {
    seq(n, i requires 0 <= i < n => i)
  }

  lemma {:induction false} UpToOnce(n: nat, u: nat)
    ensures multiset(UpTo(n))[u] == if u < n then 1 else 0
  {
    if n > 0 {
      UpToOnce(n - 1, u);
      assert UpTo(n) == UpTo(n - 1) + [n - 1];
    }
  }

  /** With every span closed and nothing lost, what was submitted is what was made. */
  lemma {:induction false} AllSubmitted(spans: Spans, submitted: seq<Event>, made: seq<SpanId>)
    requires Inv(spans, [], submitted, made) && LossInv(spans, [], [], made)
    ensures multiset(Uids(submitted)) == multiset(UpTo(|made|))
  {
    forall u: nat ensures multiset(Uids(submitted))[u] == multiset(UpTo(|made|))[u] {
      UpToOnce(|made|, u);
      EventsAreConserved(spans, [], submitted, [], made, u);
      if u >= |made| {
        forall i | 0 <= i < |submitted| ensures submitted[i].uid < |made| {
          assert SubmittedFits(spans, [], made, submitted[i]);
        }
        NotPast(submitted, |made|, u);
      }
    }
  }

  // ------------------------------------------------------------------ sweeping

  /** The buffers of the first n spans of a stack, in order. */
  function Buffers(spans: Spans, stack: seq<SpanId>, n: nat): seq<Event>
    requires n <= |stack|
  {
    if n == 0 then [] else Buffers(spans, stack, n - 1) + if stack[n - 1] in spans then spans[stack[n - 1]].events else []
  }

  /** How many of them hold anything. */
  function Holding(spans: Spans, stack: seq<SpanId>, n: nat): nat
    requires n <= |stack|
  {
    if n == 0 then 0
    else Holding(spans, stack, n - 1) + if stack[n - 1] in spans && spans[stack[n - 1]].events != [] then 1 else 0
  }

  predicate SweptAt(spans: Spans, stack: seq<SpanId>, n: nat, after: Spans, s: SpanId) {
    s in spans && n <= |stack| ==>
      s in after && after[s] == if s in stack[..n] then spans[s].(swept := true, events := []) else spans[s]
  }

  /** The first n spans of a stack swept: marked, their buffers empty, and no other touched. */
  ghost predicate SweptTo(spans: Spans, stack: seq<SpanId>, n: nat, after: Spans) {
    forall s {:trigger SweptAt(spans, stack, n, after, s)} :: SweptAt(spans, stack, n, after, s)
  }

  lemma {:induction false} SweptNone(spans: Spans, stack: seq<SpanId>)
    ensures SweptTo(spans, stack, 0, spans)
  {
  }

  lemma {:induction false} SweptSame(spans: Spans, stack: seq<SpanId>, n: nat, after: Spans)
    requires n < |stack| && SweptTo(spans, stack, n, after) && stack[n] in spans
    requires forall i, j :: 0 <= i < j < |stack| ==> stack[i] != stack[j]
    ensures stack[n] in after && after[stack[n]] == spans[stack[n]]
  {
    assert SweptAt(spans, stack, n, after, stack[n]);
  }

  lemma {:induction false} SweptNext(spans: Spans, stack: seq<SpanId>, n: nat, after: Spans)
    requires n < |stack| && SweptTo(spans, stack, n, after) && stack[n] in spans
    ensures SweptTo(spans, stack, n + 1, after[stack[n] := spans[stack[n]].(swept := true, events := [])])
  {
    var next := after[stack[n] := spans[stack[n]].(swept := true, events := [])];
    assert stack[..n + 1] == stack[..n] + [stack[n]];
    var m := n + 1;
    forall s: SpanId ensures SweptAt(spans, stack, m, next, s) { assert SweptAt(spans, stack, n, after, s); }
  }

  lemma {:induction false} SweptToFrozen(spans: Spans, stack: seq<SpanId>, n: nat, after: Spans)
    requires n <= |stack| && SweptTo(spans, stack, n, after)
    ensures SweptFrozen(spans, after)
  {
    forall s: SpanId ensures Frozen(spans, after, s) { assert SweptAt(spans, stack, n, after, s); }
  }

  lemma {:induction false} StackFits(spans: Spans, stack: seq<SpanId>, submitted: seq<Event>, made: seq<SpanId>)
    requires Inv(spans, stack, submitted, made)
    ensures forall i :: 0 <= i < |stack| ==> stack[i] in spans
    ensures forall i, j :: 0 <= i < j < |stack| ==> stack[i] != stack[j]
  {
  }
}
