/**
 The worker's retry loop around a sink that defers its drops: attempts, the wait between them, and
 the retry declined when it was predicted to end after the recorded exit deadline.
 */
module Retry {
  import opened Deferral
  import W = WorkerModel
  import Gate = WorkerGate
  import WT = WorkerTheorems

  /** The margin the join is left before the deadline, in seconds. */
  const MARGIN: real := 0.1

  /** One turn of the loop as the outside world plays it: the sink the worker delivers to by then, the
      attempt, the clock read before and after it, and the clock and the exit deadline read when its
      retry is decided. */
  datatype Turn = Turn(sink: Sink, attempt: Attempt, started: real, ended: real, decided: real, deadline: W.Deadline)

  /** The clock never runs backwards. */
  predicate Ordered(turns: seq<Turn>) {
    && (forall i :: 0 <= i < |turns| ==> turns[i].started <= turns[i].ended <= turns[i].decided)
    && (forall i, j :: 0 <= i < j < |turns| ==> turns[i].decided <= turns[j].started)
  }

  function Max(a: real, b: real): real {
    if a > b then a else b
  }

  /** The longest of the first n attempts. */
  function Longest(turns: seq<Turn>, n: nat): (r: real)
    requires n <= |turns|
    ensures r >= 0.0
  {
    if n == 0 then 0.0 else Max(Longest(turns, n - 1), turns[n - 1].ended - turns[n - 1].started)
  }

  lemma {:induction false} LongestHolds(turns: seq<Turn>, n: nat, i: nat)
    requires i < n <= |turns|
    ensures turns[i].ended - turns[i].started <= Longest(turns, n)
  {
    if i < n - 1 { LongestHolds(turns, n - 1, i); }
  }

  /** Whether the retry after turn i is declined. */
  predicate Declines(turns: seq<Turn>, i: nat)
    requires i < |turns|
  {
    turns[i].deadline.By? && turns[i].decided + Longest(turns, i + 1) + MARGIN > turns[i].deadline.instant
  }

  /** How many attempts are made: up to the first that returns, whose retry is declined, or that is
      the last allowed. */
  ghost predicate Made(turns: seq<Turn>, retries: nat, n: nat) {
    && 1 <= n <= retries + 1 <= |turns|
    && (forall i :: 0 <= i < n - 1 ==> turns[i].attempt.raises && !Declines(turns, i))
    && (!turns[n - 1].attempt.raises || n == retries + 1 || Declines(turns, n - 1))
  }

  function Flatten(lists: seq<seq<Event>>): seq<Event> {
    if lists == [] then [] else lists[0] + Flatten(lists[1..])
  }

  function Sinks(turns: seq<Turn>): (r: set<Sink>)
    ensures forall i :: 0 <= i < |turns| ==> turns[i].sink in r
  {
    set i | 0 <= i < |turns| :: turns[i].sink
  }

  class Worker {
    const maxRetries: int
    var failedBatches: nat
    var inFlight: nat

    constructor (maxRetries: int)
      ensures this.maxRetries == maxRetries && failedBatches == 0 && inFlight == 0
    {
      this.maxRetries := maxRetries;
      failedBatches, inFlight := 0, 0;
    }

    function Retries(): nat {
      if maxRetries > 0 then maxRetries else 0
    }

    /** _emit(): the drops of the one attempt that returned are counted, by the sink it was made to, or
        none; the batch is counted as failed exactly when no attempt returned; and no retry is made
        whose prediction ends less than the margin before the deadline. */
    method Emit(lists: seq<seq<Event>>, turns: seq<Turn>) returns (attempts: nat)
      requires Ordered(turns) && |turns| >= Retries() + 1
      modifies this, Sinks(turns)
      ensures inFlight == 0
      ensures Flatten(lists) == [] ==>
                attempts == 0 && failedBatches == old(failedBatches) && forall k :: k in Sinks(turns) ==>
                     k.counters == old(k.counters) && k.lines == old(k.lines)
      ensures Flatten(lists) != [] ==>
                && Made(turns, Retries(), attempts)
                && var last := turns[attempts - 1];
                   && failedBatches == old(failedBatches) + (if last.attempt.raises then 1 else 0)
                   && (forall k :: k in Sinks(turns) && (last.attempt.raises || k != last.sink) ==>
                         k.counters == old(k.counters) && k.lines == old(k.lines))
                   && (!last.attempt.raises ==>
                         forall c :: Get(last.sink.counters, c) ==
                           Get(old(last.sink.counters), c) + DropsOf(Flatten(lists), last.attempt, c))
    {
      var batch := Flatten(lists);
      inFlight, attempts := 0, 0;
      if batch == [] { return; }
      inFlight := |batch|;
      var failed;
      attempts, failed := TryAll(batch, turns);
      if failed { failedBatches := failedBatches + 1; }
      inFlight := 0;
    }

    /** The attempts of one batch: until one returns, the last allowed fails, or a retry is declined. */
    method TryAll(batch: seq<Event>, turns: seq<Turn>) returns (attempts: nat, failed: bool)
      requires Ordered(turns) && |turns| >= Retries() + 1
      modifies Sinks(turns)
      ensures Made(turns, Retries(), attempts) && failed == turns[attempts - 1].attempt.raises
      ensures forall k :: k in Sinks(turns) && (failed || k != turns[attempts - 1].sink) ==>
                k.counters == old(k.counters) && k.lines == old(k.lines)
      ensures !failed ==>
                var last := turns[attempts - 1];
                forall c :: Get(last.sink.counters, c) == Get(old(last.sink.counters), c) + DropsOf(batch, last.attempt, c)
    {
      var retries, longest := Retries(), 0.0;
      attempts, failed := 0, true;
      while true
        invariant failed && attempts <= retries && longest == Longest(turns, attempts)
        invariant forall i :: 0 <= i < attempts ==> turns[i].attempt.raises && !Declines(turns, i)
        invariant forall k :: k in Sinks(turns) ==> k.counters == old(k.counters) && k.lines == old(k.lines)
        decreases retries - attempts
      {
        var turn := turns[attempts];
        failed := turn.sink.Emit(batch, turn.attempt);
        attempts := attempts + 1;
        if !failed { return; }
        longest := Max(longest, turn.ended - turn.started);
        if attempts > retries { return; }
        if turn.deadline.By? && turn.decided + longest + MARGIN > turn.deadline.instant { return; }
      }
    }
  }

  /** A retry that was made, if it takes no longer than the longest attempt before it, ends at least
      the margin before the deadline it was decided against, less what passed between the decision and
      its start. */
  lemma {:induction false} RetryEndsBeforeItsDeadline(turns: seq<Turn>, retries: nat, n: nat, k: nat)
    requires Ordered(turns) && Made(turns, retries, n) && 0 < k < n
    requires turns[k - 1].deadline.By?
    requires turns[k].ended - turns[k].started <= Longest(turns, k)
    ensures turns[k].ended + MARGIN <= turns[k - 1].deadline.instant + (turns[k].started - turns[k - 1].decided)
  {
    assert !Declines(turns, k - 1);
  }

  /** And the deadline it is decided against is the joiner's own: where the loop reads the recorded
      deadline in a reachable state of the worker in which a caller joins, such a retry ends at least
      the margin before that caller's deadline, less what passed between the decision and its start. */
  lemma {:induction false} RetryEndsBeforeTheJoin(s: W.State, c: W.StopId, turns: seq<Turn>, retries: nat, n: nat, k: nat)
    requires WT.Reachable(s) && c in s.stops.calls && Gate.Joiner(s.stops.calls[c]) && s.stops.calls[c].deadline.By?
    requires Ordered(turns) && Made(turns, retries, n) && 0 < k < n && turns[k - 1].deadline == s.gate.exitDeadline
    requires turns[k].ended - turns[k].started <= Longest(turns, k)
    ensures turns[k].ended + MARGIN <= s.stops.calls[c].deadline.instant + (turns[k].started - turns[k - 1].decided)
  {
    WT.OneJoinerWithItsDeadline(s, c, c);
    RetryEndsBeforeItsDeadline(turns, retries, n, k);
  }
}
