/**
 The worker's promises, over every run: any number of submit(), flush() and stop() callers, swaps
 taken one at a time, and a sink that returns, raises or dies as it likes.
 */
module WorkerTheorems {
  import opened WorkerModel
  import opened WorkerInvariants
  import opened WorkerDelivery
  import opened WorkerCounts
  import opened WorkerWaiters
  import opened WorkerGate
  import opened WorkerTarget
  import A = WorkerView

  ghost predicate Inv(s: State) {
    && LogInv(s) && HandInv(s) && SettleInv(s) && SoundInv(s)
    && CountInv(s) && RetireInv(s) && StrandInv(s)
    && WaitInv(s) && GateInv(s) && TargetInv(s)
  }

  lemma {:induction false} InitQueue(s: State)
    requires Init(s)
    ensures LogInv(s) && HandInv(s) && SettleInv(s)
  {
    assert Hand(s.w.at) == [];
    forall f: FlushId ensures TakenIsHand(s, f) && LetGoAnswered(s, f) {}
    assert s.q.log[..s.q.head] == [];
    assert SubsOf([]) == [] && Ids([]) == [];
  }

  lemma {:induction false} InitCounts(s: State)
    requires Init(s)
    ensures SoundInv(s) && CountInv(s) && RetireInv(s) && StrandInv(s)
  {
    assert Unjudged(s.w.at) == [];
    forall f: FlushId ensures VerdictSound(s, f) {}
  }

  lemma {:induction false} InitCallers(s: State)
    requires Init(s)
    ensures WaitInv(s) && GateInv(s) && TargetInv(s)
  {
  }

  lemma {:induction false} InitInv(s: State)
    requires Init(s)
    ensures Inv(s)
  {
    InitQueue(s);
    InitCounts(s);
    InitCallers(s);
  }

  lemma {:induction false} InvSubmit(s: State, x: SubId, e: nat, s': State)
    requires Inv(s) && SubmitStep(s, x, e) == To(s')
    ensures Inv(s')
  {
    SubmitFrame(s, x, e, s');
    LogSubmit(s, x, e, s');
    HandKept(s, s');
    SettleKept(s, s');
    NoVerdictKept(s, s');
    SoundKept(s, s');
    CountSubmit(s, x, e, s');
    RetireKept(s, s');
    StrandSubmit(s, x, e, s');
    WaitKept(s, s');
    GateKept(s, s');
    TargetKept(s, s');
  }

  lemma {:induction false} InvFlush(s: State, f: FlushId, b: bool, e: bool, s': State)
    requires Inv(s) && FlushStep(s, f, b, e) == To(s')
    ensures Inv(s')
  {
    FlushFrame(s, f, b, e, s');
    EvolveFlush(s, f, b, e, s');
    LogFlush(s, f, b, e, s');
    HandKept(s, s');
    SettleKept(s, s');
    SoundFlush(s, f, b, e, s');
    CountKept(s, s');
    RetireKept(s, s');
    StrandKept(s, s');
    WaitFlush(s, f, b, e, s');
    GateKept(s, s');
    TargetKept(s, s');
  }

  lemma {:induction false} InvStop(s: State, c: StopId, e: StopChoice, s': State)
    requires Inv(s) && StopStep(s, c, e) == To(s')
    ensures Inv(s')
  {
    StopFrame(s, c, e, s');
    StopWithdrawsNothing(s, c, e, s');
    EvolveStop(s, c, e, s');
    assert StopRetired(s, c);
    StopSignals(s, c, e, s');
    LogStop(s, c, e, s');
    HandKept(s, s');
    SettleKept(s, s');
    SoundStop(s, c, e, s');
    CountKept(s, s');
    RetireStop(s, c, e, s');
    StrandKept(s, s');
    WaitStop(s, c, e, s');
    GateStop(s, c, e, s');
    TargetKept(s, s');
  }

  lemma {:induction false} InvSwap(s: State, x: Sink, f: FlushId, s': State)
    requires Inv(s) && SwapStep(s, x, f) == To(s')
    ensures Inv(s')
  {
    EvolveSwap(s, x, f, s');
    SwapFrame(s, x, f, s');
    LogSwap(s, x, f, s');
    HandKept(s, s');
    SettleKept(s, s');
    SoundSwap(s, x, f, s');
    CountKept(s, s');
    RetireKept(s, s');
    StrandKept(s, s');
    WaitKept(s, s');
    GateKept(s, s');
    TargetSwap(s, x, f, s');
  }

  lemma {:induction false} SwapFrame(s: State, x: Sink, f: FlushId, s': State)
    requires SwapStep(s, x, f) == To(s')
    ensures s' == s.(flushes := s'.flushes, target := s'.target)
    ensures s'.flushes == s.flushes || (f !in s.flushes && s'.flushes == s.flushes[f := FRESH_FLUSH])
  {
  }

  lemma {:induction false} InvLoop(s: State, c: DrainChoice, s': State)
    requires Inv(s) && LoopStep(s, c) == To(s')
    ensures Inv(s')
  {
    LoopFrame(s, c, s');
    LogLoop(s, c, s');
    HandLoop(s, c, s');
    SettleLoop(s, c, s');
    SoundLoop(s, c, s');
    CountKept(s, s');
    RetireLoop(s, c, s');
    StrandLoop(s, c, s');
    WaitLoop(s, c, s');
    GateKept(s, s');
    TargetLoop(s, c, s');
  }

  lemma {:induction false} LoopFrame(s: State, c: DrainChoice, s': State)
    requires LoopStep(s, c) == To(s')
    ensures s' == s.(flushes := s'.flushes, w := s'.w, q := s'.q) && s'.q.log == s.q.log
  {
  }

  lemma {:induction false} InvEmit(s: State, c: DrainChoice, s': State)
    requires Inv(s) && EmitStep(s, c) == To(s')
    ensures Inv(s')
  {
    LeavingEmit(s, c, s');
    LogEmit(s, c, s');
    HandEmit(s, c, s');
    SettleEmit(s, c, s');
    SoundEmit(s, c, s');
    CountKept(s, s');
    RetireLeaves(s, s');
    StrandKept(s, s');
    WaitEmit(s, c, s');
    EmitFrame(s, c, s');
    GateKept(s, s');
    TargetEmit(s, c, s');
  }

  lemma {:induction false} EmitFrame(s: State, c: DrainChoice, s': State)
    requires EmitStep(s, c) == To(s')
    ensures s' == s.(w := s'.w, target := s'.target)
  {
  }

  lemma {:induction false} InvAnswer(s: State, s': State)
    requires Inv(s) && AnswerStep(s) == To(s')
    ensures Inv(s')
  {
    LeavingAnswer(s, s');
    LogAnswer(s, s');
    HandAnswer(s, s');
    SettleAnswer(s, s');
    SoundAnswer(s, s');
    CountKept(s, s');
    RetireLeaves(s, s');
    StrandKept(s, s');
    WaitAnswer(s, s');
    AnswerFrame(s, s');
    GateKept(s, s');
    TargetAnswer(s, s');
  }

  lemma {:induction false} AnswerFrame(s: State, s': State)
    requires AnswerStep(s) == To(s')
    ensures s' == s.(flushes := s'.flushes, w := s'.w)
  {
  }

  lemma {:induction false} InvExit(s: State, c: DrainChoice, s': State)
    requires Inv(s) && ExitStep(s, c) == To(s')
    ensures Inv(s')
  {
    LeavingExit(s, c, s');
    LogExit(s, c, s');
    HandExit(s, c, s');
    SettleExit(s, c, s');
    SoundExit(s, c, s');
    CountKept(s, s');
    RetireLeaves(s, s');
    StrandKept(s, s');
    WaitExit(s, c, s');
    ExitFrame(s, c, s');
    GateKept(s, s');
    TargetExit(s, c, s');
  }

  lemma {:induction false} ExitFrame(s: State, c: DrainChoice, s': State)
    requires ExitStep(s, c) == To(s')
    ensures s' == s.(flushes := s'.flushes, w := s'.w, ev := s'.ev)
  {
  }

  /** No step of any thread breaks the invariant. */
  lemma {:induction false} InvStep(s: State, step: Step, s': State)
    requires Inv(s) && Apply(s, step) == To(s')
    ensures Inv(s')
  {
    match step
    case BySubmit(x, e) => InvSubmit(s, x, e, s');
    case ByFlush(f, b, e) => InvFlush(s, f, b, e, s');
    case ByStop(c, e) => InvStop(s, c, e, s');
    case BySwap(x, f) => InvSwap(s, x, f, s');
    case ByDrain(c) =>
      match PhaseOf(s.w.at)
      case Looping => InvLoop(s, c, s');
      case Emitting => InvEmit(s, c, s');
      case Marking => InvAnswer(s, s');
      case Exiting => InvExit(s, c, s');
  }

  lemma {:induction false} FollowsInv(run: seq<State>, steps: seq<Step>, n: nat)
    requires IsRun(run, steps) && 0 < n < |run| && Inv(run[n - 1])
    ensures Inv(run[n])
  {
    assert Follows(run, steps, n - 1);
    InvStep(run[n - 1], steps[n - 1], run[n]);
  }

  /** The invariant at one moment of a run. */
  ghost predicate InvAt(run: seq<State>, n: nat) {
    n < |run| ==> Inv(run[n])
  }

  lemma {:induction false} InvFrom(run: seq<State>, steps: seq<Step>, n: nat)
    requires IsRun(run, steps)
    ensures InvAt(run, n)
  {
    if n == 0 {
      InitInv(run[0]);
    } else {
      InvFrom(run, steps, n - 1);
      InvNext(run, steps, n);
    }
  }

  lemma {:induction false} InvNext(run: seq<State>, steps: seq<Step>, n: nat)
    requires IsRun(run, steps) && n > 0 && InvAt(run, n - 1)
    ensures InvAt(run, n)
  {
    if n < |run| { FollowsInv(run, steps, n); }
  }

  /** Every state of every run satisfies the invariant. */
  lemma {:induction false} RunInv(run: seq<State>, steps: seq<Step>, n: nat)
    requires IsRun(run, steps) && n < |run|
    ensures Inv(run[n])
  {
    InvFrom(run, steps, n);
  }

  /** A state some run ends in. */
  ghost predicate Reachable(s: State) {
    exists run: seq<State>, steps: seq<Step> :: IsRun(run, steps) && run[|steps|] == s
  }

  lemma {:induction false} ReachableInv(s: State)
    requires Reachable(s)
    ensures Inv(s)
  {
    var run: seq<State>, steps: seq<Step> :| IsRun(run, steps) && run[|steps|] == s;
    RunInv(run, steps, |steps|);
  }

  // ------------------------------------------------------------------ no caller is stranded

  /** Once the drain thread is gone, no flush() caller waits on an answer that is not there. */
  lemma {:induction false} NobodyWaitsOnADeadDrain(s: State, f: FlushId)
    requires Reachable(s) && s.w.at.Dead?
    requires f in s.flushes && s.flushes[f].pc.Waiting?
    ensures s.flushes[f].event
  {
    ReachableInv(s);
    assert ExitCovers(s, f) && LetGoAnswered(s, f) && TakenIsHand(s, f);
  }

  /** Once an expired stop() has swept, a drain that has not finished owes a waiting caller an
      answer only while it holds that caller's marker and has not begun to emit for it; a drain
      wedged inside the sink owes nobody. */
  lemma {:induction false} NobodyWaitsOnAnAbandonedDrain(s: State, c: StopId, f: FlushId)
    requires Reachable(s) && !s.ev.finished
    requires c in s.stops.calls && s.stops.calls[c].pc.StopDone? && s.stops.calls[c].pc.expired
    requires f in s.flushes && s.flushes[f].pc.Waiting?
    ensures s.flushes[f].event || AnsweredNext(s.w.at, f)
    ensures s.w.at.Inside? ==> s.flushes[f].event
  {
    ReachableInv(s);
    assert StopCovers(s, c, f);
  }

  /** And what the drain holds, it answers in its next two steps, whatever they are. */
  lemma {:induction false} HeldMarkerIsAnswered(s: State, f: FlushId, c1: DrainChoice, c2: DrainChoice)
    requires Reachable(s) && s.ev.settled && AnsweredNext(s.w.at, f) && f in s.flushes
    ensures DrainStep(s, c1).To?
    ensures var s1 := DrainStep(s, c1).s;
            s1.flushes[f].event || (DrainStep(s1, c2).To? && DrainStep(s1, c2).s.flushes[f].event)
  {
  }

  /** A caller that has put its marker and reads on after the drain was given up comes to wait
      only if the drain finished in between, and then the exit sweep answers it. */
  lemma {:induction false} LateCallerDoesNotWait(s: State, f: FlushId, e: bool)
    requires Reachable(s) && s.ev.settled && f in s.flushes
    requires var pc := s.flushes[f].pc; pc.Read1? || pc.Read2? || pc.Read3? || pc.Read4? || pc.Read5?
    ensures var pc := FlushMoved(s, s.flushes[f], e).pc; !pc.Waiting? && (pc.Read6? ==> s.ev.finished)
  {
  }

  // ------------------------------------------------------------------ flush() is sound

  /** Where a settled submission stands in the history. */
  lemma {:induction false} PutBeforeIsSettled(s: State, x: SubId, n: nat)
    requires LogInv(s) && n <= |s.q.log|
    requires x in s.subs.calls && IsQueued(s.subs.calls[x].pc) && s.subs.calls[x].at < n
    ensures x in SubsOf(s.q.log[..n])
  {
    SubsOfTake(s.q.log, n - 1);
    assert SubPlaced(s, x);
    if s.subs.calls[x].at < n - 1 { PutBeforeIsSettled(s, x, n - 1); }
  }

  /** flush() returning ok means: every submission put ahead of the marker was in a batch whose
      emit returned (or that held no event), or was in a batch abandoned before the marker was
      stamped; and between the stamp and the verdict no batch was abandoned at all. */
  lemma {:induction false} FlushIsSound(s: State, f: FlushId)
    requires Reachable(s) && f in s.flushes && s.flushes[f].pc.Succeeded?
    ensures forall x :: x in s.subs.calls && IsQueued(s.subs.calls[x].pc) && s.subs.calls[x].at < s.flushes[f].at ==>
              exists k :: 0 <= k < s.flushes[f].judgedAt <= |s.w.history| && s.w.history[k].sub == x
                          && (s.w.history[k].fate.Abandoned? ==> s.w.history[k].fate.batch < s.flushes[f].seen)
    ensures forall k :: 0 <= k < s.flushes[f].judgedAt <= |s.w.history| && s.w.history[k].fate.Abandoned? ==>
              s.w.history[k].fate.batch < s.flushes[f].seen
  {
    ReachableInv(s);
    assert VerdictSound(s, f);
    var before := SubsOf(s.q.log[..s.flushes[f].at]);
    SubsOfPrefix(s.q.log, s.flushes[f].at, s.q.head);
    forall x | x in s.subs.calls && IsQueued(s.subs.calls[x].pc) && s.subs.calls[x].at < s.flushes[f].at
      ensures exists k :: 0 <= k < s.flushes[f].judgedAt <= |s.w.history| && s.w.history[k].sub == x
                          && (s.w.history[k].fate.Abandoned? ==> s.w.history[k].fate.batch < s.flushes[f].seen)
    {
      PutBeforeIsSettled(s, x, s.flushes[f].at);
      var k :| 0 <= k < |before| && before[k] == x;
      assert SubsOf(s.q.log[..s.q.head])[k] == x;
      assert Ids(s.w.history)[k] == x;
    }
  }

  // ------------------------------------------------------------------ conservation

  function OneIf(b: bool): nat { if b then 1 else 0 }

  /** A slot of the put order holds a submission exactly where that submission says it is. */
  lemma {:induction false} SlotHoldsSub(s: State, x: SubId, n: nat)
    requires LogInv(s) && n < |s.q.log|
    ensures s.q.log[n] == Submission(x) <==>
            x in s.subs.calls && IsQueued(s.subs.calls[x].pc) && s.subs.calls[x].at == n
  {
    assert SlotOwned(s, n) && SubPlaced(s, x);
  }

  lemma {:induction false} SubsOfCount(s: State, x: SubId, n: nat)
    requires LogInv(s) && n <= |s.q.log|
    ensures multiset(SubsOf(s.q.log[..n]))[x] ==
            OneIf(x in s.subs.calls && IsQueued(s.subs.calls[x].pc) && s.subs.calls[x].at < n)
  {
    if n > 0 {
      SubsOfCount(s, x, n - 1);
      SubsOfTake(s.q.log, n - 1);
      SlotHoldsSub(s, x, n - 1);
    }
  }

  /** At every moment a submission is in exactly one place, once: still in its call, dropped,
      queued, in the drain's hand, or settled. */
  lemma {:induction false} SubmissionsAreConserved(s: State, x: SubId)
    requires Reachable(s) && x in s.subs.calls
    ensures var pc := s.subs.calls[x].pc;
            OneIf(pc.Entered? || pc.CountingFirst? || pc.Putting?)
            + OneIf(pc.Overflowing? || pc.DroppedOut?)
            + OneIf(IsQueued(pc) && s.subs.calls[x].at >= s.q.head)
            + multiset(s.w.pending)[x]
            + multiset(Ids(s.w.history))[x] == 1
  {
    ReachableInv(s);
    SubsOfCount(s, x, s.q.head);
    assert multiset(Ids(s.w.history) + s.w.pending) == multiset(Ids(s.w.history)) + multiset(s.w.pending);
  }

  /** The counters mean what they say: dropped counts each dropped call once, and failed_batches is
      the number of batches abandoned, each of which lost something. */
  lemma {:induction false} CountersAreExact(s: State, x: SubId, b: nat)
    requires Reachable(s)
    ensures multiset(s.subs.dropped)[x] == OneIf(x in s.subs.calls && s.subs.calls[x].pc.DroppedOut?)
    ensures b < s.w.failed <==> BatchListed(s.w.history, b)
  {
    ReachableInv(s);
    assert CountedOnce(s, x);
    if b < s.w.failed { assert BatchListed(s.w.history, b); }
  }

  /** Submissions are settled in the order they were put. */
  lemma {:induction false} DeliveryKeepsPutOrder(s: State)
    requires Reachable(s)
    ensures s.q.head <= |s.q.log| && Ids(s.w.history) <= SubsOf(s.q.log)
  {
    ReachableInv(s);
    SubsOfPrefix(s.q.log, s.q.head, |s.q.log|);
    assert s.q.log[..|s.q.log|] == s.q.log;
  }

  /** After a clean exit of a drain that only shutdown() stopped, every submission left in the
      queue by a submit() that returned was counted in submitted_after_shutdown, exactly once. */
  lemma {:induction false} LeftBehindIsCountedOnce(s: State, x: SubId)
    requires Reachable(s) && s.w.at == Dead(false) && !s.ev.directStop
    requires x in s.subs.calls && s.subs.calls[x].pc.Returned? && s.subs.calls[x].at >= s.q.head
    ensures multiset(s.subs.afterShutdown)[x] == 1
  {
    ReachableInv(s);
    assert NotStranded(s, x) && CountedOnce(s, x);
  }

  // ------------------------------------------------------------------ the stop gate

  /** At most one caller ever joins, it is off the drain thread, and the deadline the drain
      declines against is its own. */
  lemma {:induction false} OneJoinerWithItsDeadline(s: State, c: StopId, d: StopId)
    requires Reachable(s) && c in s.stops.calls && d in s.stops.calls
    requires Joiner(s.stops.calls[c])
    ensures s.gate.exitDeadline == s.stops.calls[c].deadline && !s.gate.joinOwed
    ensures Joiner(s.stops.calls[d]) ==> d == c
    ensures s.stops.calls[d].pc.Joining? ==> d == c
  {
    ReachableInv(s);
    assert GateFits(s, c) && GateFits(s, d) && PairFits(s, c, d);
  }

  /** The drain thread never joins itself. */
  lemma {:induction false} DrainNeverJoinsItself(s: State, c: StopId)
    requires Reachable(s) && c in s.stops.calls && s.stops.calls[c].onDrain
    ensures !s.stops.calls[c].pc.Joining?
  {
    ReachableInv(s);
    assert GateFits(s, c);
  }

  /** At most one sentinel is ever queued. */
  lemma {:induction false} OneSentinelEver(s: State, i: nat, j: nat)
    requires Reachable(s) && i < j < |s.q.log|
    ensures !(s.q.log[i] == Sentinel && s.q.log[j] == Sentinel)
  {
    ReachableInv(s);
  }

  /** Whether the step is a call taking the owed join over. */
  predicate TakesOver(s: State, step: Step) {
    && step.ByStop? && step.c in s.stops.calls && s.stops.calls[step.c].pc.Claiming?
    && s.gate.stopped && ClaimWins(s.gate, s.stops.calls[step.c].onDrain)
  }

  /** A join taken over is no longer owed. */
  predicate GateSane(g: Gate) {
    g.joinTakenOver ==> g.stopped && !g.joinOwed
  }

  lemma {:induction false} TakeoverStays(s: State, step: Step, s': State)
    requires GateSane(s.gate) && Apply(s, step) == To(s')
    ensures s.gate.joinTakenOver ==> s'.gate.joinTakenOver && !TakesOver(s, step)
    ensures TakesOver(s, step) ==> s'.gate.joinTakenOver
    ensures GateSane(s'.gate)
  {
    match step
    case ByStop(c, e) =>
    case BySubmit(x, e) => SubmitFrame(s, x, e, s');
    case ByFlush(f, b, e) => FlushFrame(s, f, b, e, s');
    case BySwap(x, f) => SwapFrame(s, x, f, s');
    case ByDrain(c) =>
      match PhaseOf(s.w.at)
      case Looping => LoopFrame(s, c, s');
      case Emitting => EmitFrame(s, c, s');
      case Marking => AnswerFrame(s, s');
      case Exiting => ExitFrame(s, c, s');
  }

  /** What step j does to the gate, in any run. */
  lemma {:induction false} TakeoverAt(run: seq<State>, steps: seq<Step>, j: nat)
    requires IsRun(run, steps) && j < |steps|
    ensures run[j].gate.joinTakenOver ==> run[j + 1].gate.joinTakenOver && !TakesOver(run[j], steps[j])
    ensures TakesOver(run[j], steps[j]) ==> run[j + 1].gate.joinTakenOver
    ensures GateSane(run[j + 1].gate)
  {
    if j > 0 { TakeoverAt(run, steps, j - 1); }
    assert Follows(run, steps, j);
    TakeoverStays(run[j], steps[j], run[j + 1]);
  }

  /** The owed join is taken over at most once in any run. */
  lemma {:induction false} TakenOverAtMostOnce(run: seq<State>, steps: seq<Step>, i: nat, j: nat)
    requires IsRun(run, steps) && i < j < |steps|
    requires TakesOver(run[i], steps[i])
    ensures run[j].gate.joinTakenOver && !TakesOver(run[j], steps[j])
  {
    TakeoverAt(run, steps, j);
    TakeoverAt(run, steps, j - 1);
    if i < j - 1 { TakenOverAtMostOnce(run, steps, i, j - 1); }
  }

  // ------------------------------------------------------------------ the retarget fence

  /** In every state of every run, the sink the drain thread is inside is one the worker says it may be
      inside, or a retarget is between its two assignments and it is that retarget's sink. So outside
      that window may_be_inside() never denies it, and a fenced retarget drops a sink only after the
      thread has passed it. */
  lemma {:induction false} InsideIsHeldOrPointedAt(s: State)
    requires Reachable(s)
    ensures A.Honest(View(s), PointedAt(s))
    ensures s.target.inside.In? ==>
              Alive(s) && (A.MayBeInside(View(s), s.target.inside.sink) || s.target.inside.sink in PointedAt(s))
    ensures s.target.inside.In? && !s.target.swap.SwapPointed? ==> A.MayBeInside(View(s), s.target.inside.sink)
  {
    ReachableInv(s);
  }

  /** Every step of the protocol is one of the small worker's labelled moves, made by the thread the
      label says: the moves LifecycleModel steps by. */
  lemma {:induction false} ProtocolRefinesView(s: State, step: Step, s': State) returns (m: A.Move)
    requires Reachable(s) && Apply(s, step) == To(s')
    ensures ViewMoves(s, m, s') && MoveOf(s, step, m)
  {
    ReachableInv(s);
    m := A.Stay;
    match step
    case BySubmit(x, e) => SubmitFrame(s, x, e, s'); ViewKept(s, s');
    case ByFlush(f, b, e) => FlushFrame(s, f, b, e, s'); ViewKept(s, s');
    case ByStop(c, e) => StopFrame(s, c, e, s'); ViewKept(s, s');
    case BySwap(x, f) => m := SwapMove(s); ViewSwap(s, x, f, s');
    case ByDrain(c) =>
      match PhaseOf(s.w.at)
      case Looping => LoopFrame(s, c, s'); LoopStaysAlive(s, c, s'); ViewKept(s, s');
      case Emitting => m := EmitMove(s); ViewEmit(s, c, s');
      case Marking => AnswerFrame(s, s'); AnswerStaysAlive(s, s'); ViewKept(s, s');
      case Exiting => m := ExitMove(s); ViewExit(s, c, s');
  }

  /** A swap that is about to assign checked the retirement count first and found it unmoved, as the
      owner's model of the swap does. */
  lemma {:induction false} CommittedWasUnretired(run: seq<State>, steps: seq<Step>, n: nat)
    requires IsRun(run, steps) && n < |run| && run[n].target.swap.SwapCommitted?
    ensures exists k :: 0 <= k < n && steps[k].BySwap? && !run[k].ev.retired
                        && run[k].target.swap == SwapAssign(run[n].target.swap.sink, run[n].target.swap.drained)
                        && run[k].target.sink != run[n].target.swap.sink
  {
    assert n > 0 && Follows(run, steps, n - 1);
    var s, step, s' := run[n - 1], steps[n - 1], run[n];
    TargetMoves(s, step, s');
    if s.target.swap.SwapCommitted? { CommittedWasUnretired(run, steps, n - 1); }
  }

  /** Only a swap's own step moves the swap, and it commits only from an unretired check. */
  lemma {:induction false} TargetMoves(s: State, step: Step, s': State)
    requires Apply(s, step) == To(s')
    ensures !step.BySwap? ==> s'.target.swap == s.target.swap
    ensures step.BySwap? && s'.target.swap.SwapCommitted? ==>
              && s.target.swap == SwapAssign(s'.target.swap.sink, s'.target.swap.drained)
              && !s.ev.retired && s.target.sink != s'.target.swap.sink
  {
    match step
    case BySubmit(x, e) => SubmitFrame(s, x, e, s');
    case ByFlush(f, b, e) => FlushFrame(s, f, b, e, s');
    case ByStop(c, e) => StopFrame(s, c, e, s');
    case BySwap(x, f) =>
    case ByDrain(c) =>
      match PhaseOf(s.w.at)
      case Looping => LoopFrame(s, c, s');
      case Emitting =>
      case Marking => AnswerFrame(s, s');
      case Exiting => ExitFrame(s, c, s');
  }

  lemma {:induction false} LoopStaysAlive(s: State, c: DrainChoice, s': State)
    requires LoopStep(s, c) == To(s')
    ensures Alive(s) && Alive(s')
  {
  }

  lemma {:induction false} AnswerStaysAlive(s: State, s': State)
    requires AnswerStep(s) == To(s')
    ensures Alive(s) && Alive(s')
  {
  }
}
