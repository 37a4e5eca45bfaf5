/**
 The tracing operations of one context as they run: a stack of open spans, the adopted remote
 context, the worker's inbox and the count of events lost inside spans.
 */
module Tracer {
  import opened Spans

  /** How closing a span goes: well, or raising while its end event is built, while the baggage is
      filled in, or while the worker is asked for. */
  datatype Closing = Closes | EndRaises | BackfillRaises | WorkerRaises

  datatype Op =
    | Open(fails: bool)
    | Log(builds: bool)
    | ContinueTrace(remote: Adopted)
    | Sweep(reach: nat)        // the worker can be had for this many spans, then asking for it raises
    | Close(closing: Closing)

  /** One event more for a span: numbered next, under the span's present identity. */
  function Buffered(span: Span, s: SpanId, uid: nat): Span {
    span.(events := span.events + [Event(uid, s, span.trace, span.parent)])
  }

  // ------------------------------------------------------------------ which events the operations make

  /** The calls under way, traced or not, the open spans among them, and the next span's id. */
  datatype Shape = Shape(frames: seq<bool>, stack: seq<SpanId>, next: SpanId)

  function Top(stack: seq<SpanId>): SpanId
    requires stack != []
  {
    stack[|stack| - 1]
  }

  function Popped<T>(xs: seq<T>): seq<T> {
    if xs == [] then [] else xs[..|xs| - 1]
  }

  /** Whether the next close ends a traced call. */
  predicate TopTraced(frames: seq<bool>, stack: seq<SpanId>) {
    frames != [] && frames[|frames| - 1] && stack != []
  }

  function ShapeAfter(sh: Shape, op: Op): Shape {
    match op
    case Open(fails) =>
      if fails then sh.(frames := sh.frames + [false])
      else Shape(sh.frames + [true], sh.stack + [sh.next], sh.next + 1)
    case Close(_) =>
      Shape(Popped(sh.frames), if TopTraced(sh.frames, sh.stack) then Popped(sh.stack) else sh.stack, sh.next)
    case _ => sh
  }

  /** The span an operation makes an event for: a start event, a log, or an end event. */
  function MadeBy(sh: Shape, op: Op): seq<SpanId> {
    match op
    case Open(fails) => if fails then [] else [sh.next]
    case Log(builds) => if builds && sh.stack != [] then [Top(sh.stack)] else []
    case Close(closing) => if TopTraced(sh.frames, sh.stack) && !closing.EndRaises? then [Top(sh.stack)] else []
    case _ => []
  }

  /** Whether the operation is a log in a span that could not be built. */
  function UnbuiltBy(sh: Shape, op: Op): nat {
    if op.Log? && !op.builds && sh.stack != [] then 1 else 0
  }

  /** The span whose close the operation is, if that close raises. */
  function CutBy(sh: Shape, op: Op): set<SpanId> {
    if op.Close? && !op.closing.Closes? && TopTraced(sh.frames, sh.stack) then {Top(sh.stack)} else {}
  }

  function ShapeOf(ops: seq<Op>): Shape {
    if ops == [] then Shape([], [], 0) else ShapeAfter(ShapeOf(ops[..|ops| - 1]), ops[|ops| - 1])
  }

  /** Every event the operations make, by the span it is made for, in order. */
  function AllMade(ops: seq<Op>): seq<SpanId> {
    if ops == [] then [] else AllMade(ops[..|ops| - 1]) + MadeBy(ShapeOf(ops[..|ops| - 1]), ops[|ops| - 1])
  }

  function AllUnbuilt(ops: seq<Op>): nat {
    if ops == [] then 0 else AllUnbuilt(ops[..|ops| - 1]) + UnbuiltBy(ShapeOf(ops[..|ops| - 1]), ops[|ops| - 1])
  }

  /** Every span whose own close raised. */
  function AllCut(ops: seq<Op>): set<SpanId> {
    if ops == [] then {} else AllCut(ops[..|ops| - 1]) + CutBy(ShapeOf(ops[..|ops| - 1]), ops[|ops| - 1])
  }

  predicate SpansIn(es: seq<Event>, spans: set<SpanId>) {
    forall i :: 0 <= i < |es| ==> es[i].span in spans
  }

  function Traced(frames: seq<bool>): nat {
    if frames == [] then 0 else Traced(frames[..|frames| - 1]) + if frames[|frames| - 1] then 1 else 0
  }

  // ------------------------------------------------------------------ the operations

  class Tracer {
    var spans: Spans
    var stack: seq<SpanId>
    var frames: seq<bool>
    var adopted: Adopted
    var submitted: seq<Event>
    var inSpanLost: nat
    var nextTrace: TraceId
    var nextSpan: SpanId
    var nextUid: nat
    ghost var made: seq<SpanId>
    ghost var unbuilt: nat
    ghost var lost: seq<Event>

    constructor ()
      ensures Valid() && submitted == [] && lost == [] && made == [] && unbuilt == 0 && ShapeNow() == ShapeOf([])
    {
      spans, stack, frames, adopted, submitted, inSpanLost := map[], [], [], Nothing, [], 0;
      nextTrace, nextSpan, nextUid := 0, 0, 0;
      made, unbuilt, lost := [], 0, [];
    }

    ghost predicate Valid()
      reads this
    {
      && Inv(spans, stack, submitted, made) && LossInv(spans, stack, lost, made) && nextUid == |made|
      && (forall s :: s in spans ==> s < nextSpan)
      && |stack| == Traced(frames)
      && inSpanLost == unbuilt + |lost|
    }

    ghost function ShapeNow(): Shape
      reads this
    {
      Shape(frames, stack, nextSpan)
    }

    /** _begin(): the trace of the enclosing span, else the adopted one, else a new one. A failure
        leaves the call untraced. */
    method OpenSpan(fails: bool)
      requires Valid()
      modifies this
      ensures Valid() && submitted == old(submitted) && lost == old(lost) && unbuilt == old(unbuilt) && SweptFrozen(old(spans), spans)
      ensures ShapeNow() == ShapeAfter(old(ShapeNow()), Open(fails))
      ensures made == old(made) + MadeBy(old(ShapeNow()), Open(fails))
      ensures fails ==> spans == old(spans)
      ensures !fails ==>
                && Top(stack) in spans && |spans[Top(stack)].events| == 1
                && var s := spans[Top(stack)];
                   && (old(stack) != [] ==>
                         var p := Top(old(stack));
                         p in old(spans) && s.trace == old(spans)[p].trace && s.parent == Under(p))
                   && (old(stack) == [] && adopted.Adopted? ==> s.trace == adopted.trace && s.parent == adopted.parent)
                   && (old(stack) == [] && adopted.Nothing? ==> s.trace == old(nextTrace) && s.parent == NoParent)
    {
      if fails {
        frames := frames + [false];
        return;
      }
      var trace, parent := nextTrace, NoParent;
      if stack != [] {
        var p := stack[|stack| - 1];
        trace, parent := spans[p].trace, Under(p);
      } else if adopted.Adopted? {
        trace, parent := adopted.trace, adopted.parent;
      } else {
        nextTrace := nextTrace + 1;
      }
      OpenAs(Span(trace, parent, [], false, false));
    }

    /** The span on the stack, with its start event. */
    method OpenAs(span: Span)
      requires Valid() && span.events == [] && !span.closed
      modifies this`spans, this`stack, this`frames, this`nextSpan, this`nextUid, this`made
      ensures Valid() && ShapeNow() == ShapeAfter(old(ShapeNow()), Open(false)) && made == old(made) + [old(nextSpan)]
      ensures old(nextSpan) !in old(spans)
      ensures spans == old(spans)[old(nextSpan) := Buffered(span, old(nextSpan), old(nextUid))]
    {
      PushSpan(span);
      Append(nextSpan - 1);
    }

    method PushSpan(span: Span)
      requires Valid() && span.events == [] && !span.closed
      modifies this`spans, this`stack, this`frames, this`nextSpan
      ensures Valid() && ShapeNow() == ShapeAfter(old(ShapeNow()), Open(false))
      ensures spans == old(spans)[old(nextSpan) := span] && old(nextSpan) !in old(spans)
    {
      var s := nextSpan;
      InvOpen(spans, stack, submitted, made, s, span);
      forall u | 0 <= u < |made| ensures made[u] in spans { assert OnceFits(spans, submitted, made, u); }
      LossKept(spans, stack, lost, made, spans[s := span], stack + [s], made);
      spans, stack, frames, nextSpan := spans[s := span], stack + [s], frames + [true], s + 1;
    }

    /** One event built for an open span and appended to its buffer. */
    method Append(s: SpanId)
      requires Valid() && s in spans && s in stack
      modifies this`spans, this`nextUid, this`made
      ensures Valid() && made == old(made) + [s]
      ensures spans == old(spans)[s := Buffered(old(spans)[s], s, old(nextUid))]
    {
      var span := Buffered(spans[s], s, nextUid);
      InvAppend(spans, stack, submitted, made, s, Event(nextUid, s, spans[s].trace, spans[s].parent));
      forall u | 0 <= u < |made| ensures made[u] in spans { assert OnceFits(spans, submitted, made, u); }
      LossKept(spans, stack, lost, made, spans[s := span], stack, made + [s]);
      spans, nextUid, made := spans[s := span], nextUid + 1, made + [s];
    }

    /** A log call: buffered in the current span under its present trace id; outside any span it is
        none of this. */
    method LogEvent(builds: bool)
      requires Valid()
      modifies this
      ensures Valid() && submitted == old(submitted) && lost == old(lost) && ShapeNow() == old(ShapeNow())
      ensures made == old(made) + MadeBy(old(ShapeNow()), Log(builds)) && SweptFrozen(old(spans), spans)
      ensures stack != [] && builds ==>
                && Top(stack) in old(spans)
                && spans == old(spans)[Top(stack) := Buffered(old(spans)[Top(stack)], Top(stack), old(nextUid))]
      ensures stack == [] || !builds ==> spans == old(spans)
      ensures inSpanLost == old(inSpanLost) + (if stack != [] && !builds then 1 else 0)
      ensures unbuilt == old(unbuilt) + UnbuiltBy(old(ShapeNow()), Log(builds))
    {
      if stack == [] { return; }
      if builds {
        Append(stack[|stack| - 1]);
      } else {
        inSpanLost, unbuilt := inSpanLost + 1, unbuilt + 1;
      }
    }

    /** continue_trace(): refused on a swept root; otherwise the context is adopted, and an open root
        is re-parented with everything it has buffered. */
    method Continue(remote: Adopted) returns (ok: bool)
      requires Valid()
      modifies this`spans, this`adopted
      ensures Valid() && SweptFrozen(old(spans), spans)
      ensures stack != [] ==> Top(stack) in old(spans)
      ensures var root := stack != [] && old(spans)[Top(stack)].parent.NoParent?;
              && ok == (remote.Adopted? && !(root && old(spans)[Top(stack)].swept))
              && adopted == (if ok then remote else old(adopted))
              && (!(ok && root) ==> spans == old(spans))
              && (ok && root ==> spans == old(spans)[Top(stack) := Reparented(old(spans)[Top(stack)], Top(stack), remote)])
    {
      ok := remote.Adopted?;
      if ok && stack != [] {
        var s := stack[|stack| - 1];
        ok := !(spans[s].parent.NoParent? && spans[s].swept);
      }
      if !ok { return; }
      adopted := remote;
      if stack != [] {
        var s := stack[|stack| - 1];
        if spans[s].parent.NoParent? {
          InvReparent(spans, stack, submitted, made, s, remote.trace, remote.parent);
          forall u | 0 <= u < |made| ensures made[u] in spans { assert OnceFits(spans, submitted, made, u); }
          LossKept(spans, stack, lost, made, spans[s := Reparented(spans[s], s, remote)], stack, made);
          spans := spans[s := Reparented(spans[s], s, remote)];
        }
      }
    }

    /** _sweep_open_spans(): each open span in turn is marked swept and its buffer submitted; when the
        worker cannot be had, the sweep ends there and nothing of that span or a later one is touched. */
    method SweepSpans(reach: nat) returns (ghost done: nat)
      requires Valid()
      modifies this`spans, this`submitted
      ensures Valid() && SweptFrozen(old(spans), spans) && done <= |stack| && SweptTo(old(spans), stack, done, spans)
      ensures submitted == old(submitted) + Buffers(old(spans), stack, done)
      ensures done < |stack| ==>
                Holding(old(spans), stack, done) == reach && stack[done] in old(spans) && old(spans)[stack[done]].events != []
    {
      ghost var before, sent := spans, submitted;
      var open, left: nat := stack, reach;
      StackFits(before, open, sent, made);
      SweptNone(before, open);
      done := 0;
      for i := 0 to |open|
        invariant Valid() && stack == open && done == i && SweptTo(before, open, i, spans)
        invariant submitted == sent + Buffers(before, open, i) && left + Holding(before, open, i) == reach
      {
        SweptSame(before, open, i, spans);
        SweptNext(before, open, i, spans);
        var held := spans[open[i]].events != [];
        var stop := SweepTurn(open[i], left);
        if stop { break; }
        if held { left := left - 1; }
        done := i + 1;
      }
      SweptToFrozen(before, open, done, spans);
    }

    /** One turn of the sweep; it stops where the worker is needed and cannot be had. */
    method SweepTurn(s: SpanId, left: nat) returns (stop: bool)
      requires Valid() && s in spans && s in stack
      modifies this`spans, this`submitted
      ensures Valid() && stop == (old(spans)[s].events != [] && left == 0)
      ensures stop ==> spans == old(spans) && submitted == old(submitted)
      ensures !stop ==>
                && submitted == old(submitted) + old(spans)[s].events
                && spans == old(spans)[s := old(spans)[s].(swept := true, events := [])]
    {
      stop := spans[s].events != [] && left == 0;
      if !stop { SweepOne(s); }
    }

    method SweepOne(s: SpanId)
      requires Valid() && s in spans && s in stack
      modifies this`spans, this`submitted
      ensures Valid() && SweptFrozen(old(spans), spans)
      ensures submitted == old(submitted) + old(spans)[s].events
      ensures spans == old(spans)[s := old(spans)[s].(swept := true, events := [])]
    {
      var span := spans[s].(swept := true, events := []);
      var buffered := spans[s].events;
      InvDetach(spans, stack, submitted, made, s, span, stack);
      forall u | 0 <= u < |made| ensures made[u] in spans { assert OnceFits(spans, submitted, made, u); }
      LossKept(spans, stack, lost, made, spans[s := span], stack, made);
      spans, submitted := spans[s := span], submitted + buffered;
    }

    /** _end(): the span's end event and its buffer go out; whatever raises on the way costs the
        events still in the buffer, which are counted; the span comes off the stack either way, and
        when it was a root the adopted context is dropped. */
    method CloseSpan(closing: Closing)
      requires Valid()
      modifies this
      ensures Valid() && SweptFrozen(old(spans), spans) && ShapeNow() == ShapeAfter(old(ShapeNow()), Close(closing))
      ensures made == old(made) + MadeBy(old(ShapeNow()), Close(closing))
      ensures adopted == (if old(frames) != [] && stack == [] then Nothing else old(adopted)) && unbuilt == old(unbuilt)
      ensures !TopTraced(old(frames), old(stack)) ==>
                submitted == old(submitted) && lost == old(lost) && spans == old(spans) && inSpanLost == old(inSpanLost)
      ensures TopTraced(old(frames), old(stack)) ==>
                var s := Top(old(stack));
                && s in old(spans) && s in spans
                && var events := (if closing.EndRaises? then old(spans)[s] else Buffered(old(spans)[s], s, old(nextUid))).events;
                   && submitted == old(submitted) + (if closing.Closes? then events else [])
                   && lost == old(lost) + (if closing.Closes? then [] else events)
                   && (!closing.Closes? ==> SpansIn(events, {s}))
                   && inSpanLost == old(inSpanLost) + (if closing.Closes? then 0 else |events|)
    {
      if frames == [] { return; }
      if frames[|frames| - 1] {
        EndSpan(closing);
      } else {
        frames := frames[..|frames| - 1];
      }
      if stack == [] { adopted := Nothing; }
    }

    method EndSpan(closing: Closing)
      requires Valid() && frames != [] && frames[|frames| - 1]
      modifies this`spans, this`stack, this`frames, this`submitted, this`nextUid, this`made, this`lost, this`inSpanLost
      ensures Valid() && SweptFrozen(old(spans), spans) && ShapeNow() == ShapeAfter(old(ShapeNow()), Close(closing))
      ensures old(stack) != [] && made == old(made) + MadeBy(old(ShapeNow()), Close(closing))
      ensures var s := Top(old(stack));
              && s in old(spans) && s in spans
              && var events := (if closing.EndRaises? then old(spans)[s] else Buffered(old(spans)[s], s, old(nextUid))).events;
                 && submitted == old(submitted) + (if closing.Closes? then events else [])
                 && lost == old(lost) + (if closing.Closes? then [] else events)
                 && (!closing.Closes? ==> SpansIn(events, {s}))
                 && inSpanLost == old(inSpanLost) + (if closing.Closes? then 0 else |events|)
    {
      var s := stack[|stack| - 1];
      if !closing.EndRaises? { Append(s); }
      if closing.Closes? { SubmitTop(); } else { LoseTop(closing.WorkerRaises?); }
    }

    /** _flush(), and the span comes off the stack. */
    method SubmitTop()
      requires Valid() && frames != [] && frames[|frames| - 1] && stack != []
      modifies this`spans, this`stack, this`frames, this`submitted
      ensures Valid() && SweptFrozen(old(spans), spans)
      ensures stack == Popped(old(stack)) && frames == Popped(old(frames)) && Top(old(stack)) in old(spans)
      ensures submitted == old(submitted) + old(spans)[Top(old(stack))].events
      ensures spans == old(spans)[Top(old(stack)) := old(spans)[Top(old(stack))].(closed := true, events := [])]
    {
      var s, rest := stack[|stack| - 1], stack[..|stack| - 1];
      var span := spans[s].(closed := true, events := []);
      var events := spans[s].events;
      InvDetach(spans, stack, submitted, made, s, span, rest);
      forall u | 0 <= u < |made| ensures made[u] in spans { assert OnceFits(spans, submitted, made, u); }
      assert stack == rest + [s];
      LossKept(spans, stack, lost, made, spans[s := span], rest, made);
      spans, stack, frames := spans[s := span], rest, frames[..|frames| - 1];
      submitted := submitted + events;
    }

    /** What closing raised on costs the buffer, and the span comes off the stack. */
    method LoseTop(closed: bool)
      requires Valid() && frames != [] && frames[|frames| - 1] && stack != []
      modifies this`spans, this`stack, this`frames, this`lost, this`inSpanLost
      ensures Valid() && SweptFrozen(old(spans), spans)
      ensures stack == Popped(old(stack)) && frames == Popped(old(frames)) && Top(old(stack)) in old(spans)
      ensures lost == old(lost) + old(spans)[Top(old(stack))].events
      ensures SpansIn(old(spans)[Top(old(stack))].events, {Top(old(stack))})
      ensures inSpanLost == old(inSpanLost) + |old(spans)[Top(old(stack))].events|
      ensures spans == old(spans)[Top(old(stack)) := old(spans)[Top(old(stack))].(closed := closed)]
    {
      var s, rest := stack[|stack| - 1], stack[..|stack| - 1];
      var span := spans[s].(closed := closed);
      assert stack == rest + [s];
      assert BufferFits(spans, made, s);
      LossAdded(spans, stack, submitted, lost, made, s, span, rest);
      InvFlags(spans, stack, submitted, made, s, spans[s].swept, closed, rest);
      inSpanLost, lost := inSpanLost + |spans[s].events|, lost + spans[s].events;
      spans, stack, frames := spans[s := span], rest, frames[..|frames| - 1];
    }

    method Step(op: Op)
      requires Valid()
      modifies this
      ensures Valid() && SweptFrozen(old(spans), spans) && old(submitted) <= submitted && old(lost) <= lost
      ensures ShapeNow() == ShapeAfter(old(ShapeNow()), op) && made == old(made) + MadeBy(old(ShapeNow()), op)
      ensures !(op.Close? && !op.closing.Closes?) ==> lost == old(lost)
      ensures unbuilt == old(unbuilt) + UnbuiltBy(old(ShapeNow()), op)
      ensures SpansIn(lost[|old(lost)|..], CutBy(old(ShapeNow()), op))
    {
      match op
      case Open(fails) => OpenSpan(fails);
      case Log(builds) => LogEvent(builds);
      case ContinueTrace(remote) => var ok := Continue(remote);
      case Sweep(reach) => ghost var done := SweepSpans(reach);
      case Close(closing) => CloseSpan(closing);
    }
  }

  /** Whether no close in the list raises. */
  predicate AllClose(ops: seq<Op>) {
    forall i :: 0 <= i < |ops| && ops[i].Close? ==> ops[i].closing.Closes?
  }

  /** Over any sequence of operations in one context: all events submitted for a span carry one trace
      id; exactly the events the operations built were made, and each is in exactly one place, once:
      submitted, in the buffer of an open span, or lost to its own span's close, which raised. When no close raised
      and every span is closed, what was submitted is exactly what was made. */
  method Run(ops: seq<Op>)
    returns (submitted: seq<Event>, spans: Spans, inSpanLost: nat,
             ghost stack: seq<SpanId>, ghost lost: seq<Event>, ghost made: seq<SpanId>)
    ensures made == AllMade(ops) && stack == ShapeOf(ops).stack
    ensures forall u {:trigger OnePlace(spans, stack, submitted, lost, made, u)} :: OnePlace(spans, stack, submitted, lost, made, u)
    ensures forall i :: 0 <= i < |submitted| ==> submitted[i].uid < |made| && made[submitted[i].uid] == submitted[i].span
    ensures forall i, j :: 0 <= i < |submitted| && 0 <= j < |submitted| && submitted[i].span == submitted[j].span ==>
              submitted[i].trace == submitted[j].trace
    ensures inSpanLost == |lost| + AllUnbuilt(ops) && SpansIn(lost, AllCut(ops)) && (AllClose(ops) ==> lost == [])
    ensures AllClose(ops) && stack == [] ==> multiset(Uids(submitted)) == multiset(UpTo(|made|))
  {
    var t := new Tracer();
    for i := 0 to |ops|
      invariant t.Valid() && t.ShapeNow() == ShapeOf(ops[..i]) && t.made == AllMade(ops[..i])
      invariant t.unbuilt == AllUnbuilt(ops[..i]) && (AllClose(ops[..i]) ==> t.lost == [])
      invariant SpansIn(t.lost, AllCut(ops[..i]))
    {
      OneMore(ops, i);
      ghost var lost := t.lost;
      t.Step(ops[i]);
      LostMore(lost, t.lost, AllCut(ops[..i]), CutBy(ShapeOf(ops[..i]), ops[i]));
    }
    assert ops[..|ops|] == ops;
    submitted, spans, inSpanLost := t.submitted, t.spans, t.inSpanLost;
    stack, lost, made := t.stack, t.lost, t.made;
    Conclude(spans, stack, submitted, lost, made);
  }

  lemma {:induction false} LostMore(lost: seq<Event>, more: seq<Event>, cut: set<SpanId>, last: set<SpanId>)
    requires lost <= more && SpansIn(lost, cut) && SpansIn(more[|lost|..], last)
    ensures SpansIn(more, cut + last)
  {
    forall i | 0 <= i < |more| ensures more[i].span in cut + last {
      if i < |lost| { assert more[i] == lost[i]; } else { assert more[i] == more[|lost|..][i - |lost|]; }
    }
  }

  /** The lists of operations up to i, and up to the next. */
  lemma {:induction false} OneMore(ops: seq<Op>, i: nat)
    requires i < |ops|
    ensures ShapeOf(ops[..i + 1]) == ShapeAfter(ShapeOf(ops[..i]), ops[i])
    ensures AllMade(ops[..i + 1]) == AllMade(ops[..i]) + MadeBy(ShapeOf(ops[..i]), ops[i])
    ensures AllUnbuilt(ops[..i + 1]) == AllUnbuilt(ops[..i]) + UnbuiltBy(ShapeOf(ops[..i]), ops[i])
    ensures AllCut(ops[..i + 1]) == AllCut(ops[..i]) + CutBy(ShapeOf(ops[..i]), ops[i])
    ensures AllClose(ops[..i + 1]) ==> AllClose(ops[..i]) && (ops[i].Close? ==> ops[i].closing.Closes?)
  {
    assert ops[..i + 1][..i] == ops[..i] && ops[..i + 1][i] == ops[i];
  }

  lemma {:induction false} Conclude(spans: Spans, stack: seq<SpanId>, submitted: seq<Event>, lost: seq<Event>, made: seq<SpanId>)
    requires Inv(spans, stack, submitted, made) && LossInv(spans, stack, lost, made)
    ensures forall u {:trigger OnePlace(spans, stack, submitted, lost, made, u)} :: OnePlace(spans, stack, submitted, lost, made, u)
    ensures forall i :: 0 <= i < |submitted| ==> submitted[i].uid < |made| && made[submitted[i].uid] == submitted[i].span
    ensures forall i, j :: 0 <= i < |submitted| && 0 <= j < |submitted| && submitted[i].span == submitted[j].span ==>
              submitted[i].trace == submitted[j].trace
    ensures lost == [] && stack == [] ==> multiset(Uids(submitted)) == multiset(UpTo(|made|))
  {
    forall u: nat ensures OnePlace(spans, stack, submitted, lost, made, u) {
      EventsAreConserved(spans, stack, submitted, lost, made, u);
    }
    SubmittedOneTrace(spans, stack, submitted, made);
    if lost == [] && stack == [] { AllSubmitted(spans, submitted, made); }
  }

  lemma {:induction false} SubmittedOneTrace(spans: Spans, stack: seq<SpanId>, submitted: seq<Event>, made: seq<SpanId>)
    requires Inv(spans, stack, submitted, made)
    ensures forall i :: 0 <= i < |submitted| ==> submitted[i].uid < |made| && made[submitted[i].uid] == submitted[i].span
    ensures forall i, j :: 0 <= i < |submitted| && 0 <= j < |submitted| && submitted[i].span == submitted[j].span ==>
              submitted[i].trace == submitted[j].trace
  {
    forall i | 0 <= i < |submitted|
      ensures submitted[i].uid < |made| && made[submitted[i].uid] == submitted[i].span
      ensures submitted[i].span in spans && submitted[i].trace == spans[submitted[i].span].trace
    {
      assert SubmittedFits(spans, stack, made, submitted[i]);
    }
  }
}
