/**
 The worker's own fields, as its critical sections and its single-thread loops change them. What the
 threads make of these sections together is WorkerModel's; each section here is proved to be the
 function WorkerModel takes as one step, and each loop to do what its thread relies on.
 */
module WorkerObject {
  import opened M = WorkerModel
  import opened D = WorkerDelivery

  /** The markers among some items, in order. */
  function MarkersOf(items: seq<Item>): seq<FlushId> {
    if items == [] then []
    else MarkersOf(items[..|items| - 1]) + if items[|items| - 1].Marker? then [items[|items| - 1].flush] else []
  }

  function Without(xs: seq<FlushId>, m: FlushId): (r: seq<FlushId>)
    ensures forall x :: x in r <==> x in xs && x != m
  {
    if xs == [] then []
    else Without(xs[..|xs| - 1], m) + if xs[|xs| - 1] != m then [xs[|xs| - 1]] else []
  }

  /** A flush marker: the failures it was stamped with, its verdict, and whether it is answered. */
  datatype Mark = Mark(seen: nat, delivered: bool, event: bool)

  datatype Verdict = Declined | Fenced | Unfenced

  class Worker {
    const capacity: nat
    var queue: seq<Item>
    var marks: map<FlushId, Mark>
    var taken: seq<FlushId>
    var pending: seq<SubId>
    var gate: Gate
    var settled: bool
    var dropped: nat
    var afterShutdown: nat
    var failedBatches: nat
    var incompleteSwaps: nat
    var sink: Sink
    var held: seq<Sink>

    constructor (capacity: nat, sink: Sink)
      ensures queue == [] && pending == [] && taken == [] && marks == map[]
      ensures gate == Gate(false, Never, false, false) && this.sink == sink && held == [sink]
      ensures this.capacity == capacity && !settled
    {
      this.capacity, this.sink := capacity, sink;
      queue, marks, taken, pending, gate, settled := [], map[], [], [], Gate(false, Never, false, false), false;
      dropped, afterShutdown, failedBatches, incompleteSwaps, held := 0, 0, 0, 0, [sink];
    }

    /** claim_stop(): the once-only gate, and its one takeover. */
    method ClaimStop(onDrain: bool, deadline: Deadline) returns (won: bool)
      modifies this`gate
      ensures won == ClaimWins(old(gate), onDrain) && gate == ClaimGate(old(gate), onDrain, deadline)
    {
      if gate.stopped {
        if !gate.joinOwed || onDrain { return false; }
        gate := gate.(joinOwed := false, joinTakenOver := true, exitDeadline := deadline);
        return true;
      }
      gate := gate.(stopped := true, exitDeadline := deadline, joinOwed := onDrain);
      won := true;
    }

    /** put_nowait() */
    method PutNowait(item: Item) returns (ok: bool)
      modifies this`queue
      ensures ok == !IsFull(Limits(capacity, 0, 0), Queue(old(queue), 0))
      ensures queue == if ok then old(queue) + [item] else old(queue)
    {
      ok := !(capacity > 0 && |queue| >= capacity);
      if ok { queue := queue + [item]; }
    }

    /** submit(): dropped and counted, or queued; and counted once as coming after shutdown() when
        either read of the retirement count, before the put or after it, saw one. */
    method Submit(x: SubId, retiredBefore: bool, retiredAfter: bool) returns (ok: bool)
      modifies this
      ensures ok == !IsFull(Limits(capacity, 0, 0), Queue(old(queue), 0))
      ensures queue == if ok then old(queue) + [Submission(x)] else old(queue)
      ensures dropped == old(dropped) + (if ok then 0 else 1)
      ensures afterShutdown == old(afterShutdown) + (if retiredBefore || (ok && retiredAfter) then 1 else 0)
      ensures gate == old(gate) && held == old(held) && sink == old(sink) && taken == old(taken)
    {
      if retiredBefore { afterShutdown := afterShutdown + 1; }
      ok := PutNowait(Submission(x));
      if !ok {
        dropped := dropped + 1;
        return;
      }
      if !retiredBefore && retiredAfter { afterShutdown := afterShutdown + 1; }
    }

    /** _take_marker(): registered, and answered at once when the drain was given up. */
    method TakeMarker(m: FlushId)
      requires m in marks
      modifies this`taken, this`marks
      ensures taken == old(taken) + [m]
      ensures marks == if settled then old(marks)[m := old(marks)[m].(event := true)] else old(marks)
    {
      taken := taken + [m];
      if settled { marks := marks[m := marks[m].(event := true)]; }
    }

    method ReleaseMarker(m: FlushId)
      modifies this`taken
      ensures forall x :: x in taken <==> x in old(taken) && x != m
    {
      taken := Without(taken, m);
    }

    /** Every marker in the queue is one that was stamped. */
    predicate Stamped()
      reads this
    {
      forall i :: 0 <= i < |queue| && queue[i].Marker? ==> queue[i].flush in marks
    }

    /** The collecting loop of _final_drain(): the queue is emptied into the pending batch and the
        markers, both in put order, and every marker is registered. */
    method CollectFinal() returns (markers: seq<FlushId>)
      requires Stamped()
      modifies this`queue, this`pending, this`taken, this`marks
      ensures queue == [] && pending == old(pending) + SubsOf(old(queue)) && markers == MarkersOf(old(queue))
      ensures taken == old(taken) + markers
      ensures marks.Keys == old(marks).Keys && forall m :: m in marks ==>
                marks[m] == old(marks)[m].(event := old(marks)[m].event || (settled && m in markers))
    {
      ghost var i := 0;
      ghost var all := queue;
      markers := [];
      while queue != []
        invariant 0 <= i <= |all| && queue == all[i..]
        invariant pending == old(pending) + SubsOf(all[..i]) && markers == MarkersOf(all[..i])
        invariant taken == old(taken) + markers && marks.Keys == old(marks).Keys
        invariant forall m :: m in marks ==>
                    marks[m] == old(marks)[m].(event := old(marks)[m].event || (settled && m in markers))
        decreases |queue|
      {
        var item := queue[0];
        assert item == all[i] && all[..i + 1][..i] == all[..i];
        SubsOfTake(all, i);
        queue := queue[1..];
        if item.Marker? {
          markers := markers + [item.flush];
          TakeMarker(item.flush);
        } else if item.Submission? {
          pending := pending + [item.sub];
        }
        i := i + 1;
      }
      assert all[..i] == all;
    }

    /** The rest of _final_drain(): the batch is emitted or abandoned, then every marker is judged by
        the failures since its stamp, answered and let go of. */
    method SettleFinal(markers: seq<FlushId>, abandoned: bool)
      requires forall i :: 0 <= i < |markers| ==> markers[i] in marks
      modifies this`pending, this`failedBatches, this`marks, this`taken
      ensures failedBatches == old(failedBatches) + (if old(pending) != [] && abandoned then 1 else 0) && pending == []
      ensures marks.Keys == old(marks).Keys
      ensures forall m :: m in marks && m in markers ==>
                marks[m] == Mark(old(marks)[m].seen, failedBatches == old(marks)[m].seen, true)
      ensures forall m :: m in marks && m !in markers ==> marks[m] == old(marks)[m]
      ensures forall m :: m in taken <==> m in old(taken) && m !in markers
    {
      if pending != [] {
        if abandoned { failedBatches := failedBatches + 1; }
        pending := [];
      }
      var failures := failedBatches;
      for i := 0 to |markers|
        invariant pending == [] && failedBatches == failures
        invariant marks.Keys == old(marks).Keys && taken == old(taken)
        invariant forall m :: m in marks ==>
                    marks[m] == if m in markers[..i] then old(marks)[m].(delivered := failures == old(marks)[m].seen)
                                else old(marks)[m]
      {
        var m := markers[i];
        assert markers[..i + 1] == markers[..i] + [m];
        marks := marks[m := marks[m].(delivered := failedBatches == marks[m].seen)];
      }
      ghost var judged := marks;
      assert markers[..|markers|] == markers;
      for i := 0 to |markers|
        invariant pending == [] && failedBatches == failures
        invariant marks.Keys == judged.Keys
        invariant forall m :: m in marks ==>
                    marks[m] == if m in markers[..i] then judged[m].(event := true) else judged[m]
        invariant forall m :: m in taken <==> m in old(taken) && m !in markers[..i]
      {
        var m := markers[i];
        assert markers[..i + 1] == markers[..i] + [m];
        marks := marks[m := marks[m].(event := true)];
        ReleaseMarker(m);
      }
    }

    /** _release_waiters(): everyone whose marker is taken or queued is answered; nobody is judged. */
    method ReleaseWaiters()
      requires Stamped() && forall i :: 0 <= i < |taken| ==> taken[i] in marks
      modifies this`marks
      ensures marks.Keys == old(marks).Keys
      ensures forall m :: m in marks ==>
                marks[m] == old(marks)[m].(event := old(marks)[m].event || m in taken || Marker(m) in queue)
    {
      for i := 0 to |taken|
        invariant marks.Keys == old(marks).Keys
        invariant forall m :: m in marks ==> marks[m] == old(marks)[m].(event := old(marks)[m].event || m in taken[..i])
      {
        assert taken[..i + 1] == taken[..i] + [taken[i]];
        marks := marks[taken[i] := marks[taken[i]].(event := true)];
      }
      ghost var swept := marks;
      assert taken[..|taken|] == taken;
      for i := 0 to |queue|
        invariant marks.Keys == old(marks).Keys
        invariant forall m :: m in marks ==> marks[m] == swept[m].(event := swept[m].event || Marker(m) in queue[..i])
      {
        assert queue[..i + 1] == queue[..i] + [queue[i]];
        if queue[i].Marker? { marks := marks[queue[i].flush := marks[queue[i].flush].(event := true)]; }
      }
      assert queue[..|queue|] == queue;
    }

    predicate Holding()
      reads this
    {
      sink in held
    }

    /** retarget(): what the two flushes and the two reads of the retirement count came to decides it.
        The old sink is let go of only behind a confirmed fence. */
    method Retarget(x: Sink, retiredFirst: bool, drained: bool, retiredThen: bool, fenced: bool)
      returns (verdict: Verdict, previous: Sink)
      requires Holding()
      modifies this`sink, this`held, this`incompleteSwaps
      ensures Holding() && previous == (if !retiredFirst && old(sink) == x then x else old(sink))
      ensures verdict == if retiredFirst then Declined else if old(sink) == x then Fenced
                         else if retiredThen then Declined else if drained && fenced then Fenced else Unfenced
      ensures sink == if verdict.Declined? then old(sink) else x
      ensures forall y :: y in held <==>
                (y in old(held) || (y == x && !verdict.Declined?)) && !(verdict.Fenced? && y == old(sink) && y != x)
      ensures incompleteSwaps == old(incompleteSwaps) + (if verdict.Unfenced? then 1 else 0)
    {
      if retiredFirst { return Declined, sink; }
      if sink == x { return Fenced, x; }
      if retiredThen { return Declined, sink; }
      var was := sink;
      sink := x;
      held := Without(held, x) + [x];
      if !(drained && fenced) {
        incompleteSwaps := incompleteSwaps + 1;
        return Unfenced, was;
      }
      held := Without(held, was);
      return Fenced, was;
    }
  }
}
