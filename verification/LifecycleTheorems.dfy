/**
 The lifecycle owner's promises, over every run of arms, builds, shutdown() calls, closes and
 swaps taken one at a time.
 */
module LifecycleTheorems {
  import opened LifecycleModel
  import opened LifecycleInvariants
  import opened LifecycleRetirement
  import V = WorkerView

  /** A close in a closer's hand belongs to a call that has not let go of it. */
  predicate HandFits(s: State, t: TaskId) {
    t in s.books.tasks && s.books.tasks[t].progress.InHand? ==>
      var c := s.books.tasks[t].progress.call;
      && c in s.calls
      && (s.calls[c].pc.Checking? || s.calls[c].pc.Closing? || s.calls[c].pc.PuttingBack?)
  }

  ghost predicate HandsInv(s: State) {
    forall t {:trigger HandFits(s, t)} :: HandFits(s, t)
  }

  lemma {:induction false} HandsCall(s: State, c: CallId, choice: CallChoice, s': State)
    requires HandsInv(s) && CallStep(s, c, choice) == To(s')
    ensures HandsInv(s')
  {
    forall t: TaskId ensures HandFits(s', t) { assert HandFits(s, t); }
  }

  lemma {:induction false} HandsSwap(s: State, choice: SwapChoice, s': State)
    requires HandsInv(s) && SwapStep(s, choice) == To(s')
    ensures HandsInv(s')
  {
    forall t: TaskId ensures HandFits(s', t) { assert HandFits(s, t); }
  }

  lemma {:induction false} HandsStep(s: State, step: Step, s': State)
    requires HandsInv(s) && Apply(s, step) == To(s')
    ensures HandsInv(s')
  {
    match step
    case ByCall(c, choice) => HandsCall(s, c, choice, s');
    case BySwap(choice) => HandsSwap(s, choice, s');
    case _ => forall t: TaskId ensures HandFits(s', t) { assert HandFits(s, t); }
  }

  ghost predicate Inv(s: State) {
    ClosesInv(s) && RetirementInv(s) && HandsInv(s)
  }

  lemma {:induction false} InvStep(s: State, step: Step, s': State)
    requires Inv(s) && Apply(s, step) == To(s')
    ensures Inv(s')
  {
    RetirementStep(s, step, s');
    HandsStep(s, step, s');
    match step
    case ByOrphan(x) => ClosesOrphan(s, x, s');
    case ByBuild(x) => ClosesBuild(s, x, s');
    case ByDrain(move) => ClosesDrain(s, move, s');
    case ByTask(t, move) => ClosesTask(s, t, move, s');
    case ByCall(c, choice) => ClosesCall(s, c, choice, s');
    case BySwap(choice) => ClosesSwap(s, choice, s');
  }

  lemma {:induction false} RunInv(run: seq<State>, steps: seq<Step>, n: nat)
    requires IsRun(run, steps) && n < |run|
    ensures Inv(run[n])
  {
    if n > 0 {
      RunInv(run, steps, n - 1);
      assert Follows(run, steps, n - 1);
      InvStep(run[n - 1], steps[n - 1], run[n]);
    } else {
      assert ColdCalls(run[0].calls) == {};
    }
  }

  // ------------------------------------------------------------------ owed closes

  /** At most one close of a given sink is in flight at any instant. */
  lemma {:induction false} OneCloseInFlight(run: seq<State>, steps: seq<Step>, n: nat, t: TaskId, u: TaskId)
    requires IsRun(run, steps) && n < |run|
    requires t in run[n].books.tasks && u in run[n].books.tasks
    requires run[n].books.tasks[t].sink == run[n].books.tasks[u].sink
    ensures t == u
  {
    RunInv(run, steps, n);
    assert TaskListed(run[n].books, t) && TaskListed(run[n].books, u);
  }

  /** Whether the step starts a close of x, refuses one, or announces that x is left open. */
  predicate Answers(s: State, step: Step, x: Sink) {
    match step
    case ByTask(t, move) => !move.EndClose? && t in s.books.tasks && s.books.tasks[t].sink == x && s.books.tasks[t].progress.Ready?
    case ByCall(c, choice) =>
      && choice.HandOff? && !choice.outcome.Started? && choice.t in s.books.tasks
      && s.books.tasks[choice.t].sink == x && s.books.tasks[choice.t].progress.InHand? && s.books.tasks[choice.t].progress.detach
    case BySwap(choice) => choice.Release? && !choice.outcome.Started? && SwapReleases(s, choice.x, x)
    case _ => false
  }

  /** Whether the swap, offered y, releases x. */
  predicate SwapReleases(s: State, y: Sink, x: Sink) {
    match s.swap
    case Superseding(sink, todo) => y == x && x in todo && !Stays(s, sink, x)
    case Ending(sink, verdict, prev) => verdict.Fenced? && prev == x && x != sink && !Held(s, x)
    case _ => false
  }

  lemma {:induction false} PendingCall(s: State, c: CallId, choice: CallChoice, s': State, x: Sink)
    requires Inv(s) && CallStep(s, c, choice) == To(s') && Pending(s.books, x) && !Answers(s, ByCall(c, choice), x)
    ensures Pending(s'.books, x)
  {
    if s'.books != s.books {
      match s.calls[c].pc
      case Checking(_, _, _) =>
        assert CallFits(s, c);
        TakePends(s.books, choice.x, InHand(c, LeftUnfenced(s.owner.worker, choice.x)), x);
      case Closing(_) =>
        ProgressPends(s.books, choice.t, Ready, x);
        if x != s.books.tasks[choice.t].sink { FinishPends(s.books, choice.t, x); }
      case PuttingBack(_) =>
        if x != s.books.tasks[choice.t].sink { FinishPends(s.books, choice.t, x); }
      case _ =>
    }
  }

  lemma {:induction false} PendingSwap(s: State, choice: SwapChoice, s': State, x: Sink)
    requires Inv(s) && SwapStep(s, choice) == To(s') && Pending(s.books, x) && !Answers(s, BySwap(choice), x)
    ensures Pending(s'.books, x)
  {
    match s.swap
    case Superseding(sink, todo) =>
      if choice.Release? && choice.x in todo && !Stays(s, sink, choice.x) {
        ReleasePends(s.books, choice.x, choice.outcome, x);
      }
    case Ending(sink, verdict, prev) =>
      if verdict.Fenced? && prev != sink && !Held(s, prev) && choice.Release? {
        ArmKeepsBooks(s.books, sink);
        ReleasePends(Arm(s.books, sink), prev, choice.outcome, x);
      }
    case _ =>
  }

  /** A sink waiting for its close stays so until a close of it starts or is answered for. */
  lemma {:induction false} PendingStep(s: State, step: Step, s': State, x: Sink)
    requires Inv(s) && Apply(s, step) == To(s') && Pending(s.books, x) && !Answers(s, step, x)
    ensures Pending(s'.books, x)
  {
    match step
    case ByOrphan(y) =>
    case ByBuild(y) =>
    case ByDrain(move) =>
    case ByTask(t, move) =>
      if move.StartClose? { ProgressPends(s.books, t, Running, x); } else { FinishPends(s.books, t, x); }
    case ByCall(c, choice) => PendingCall(s, c, choice, s', x);
    case BySwap(choice) => PendingSwap(s, choice, s', x);
  }

  /** Whatever is owed at one moment of a run is, at any later moment, still owed or about to be
      closed, or was answered for in between: no arming is lost. */
  lemma {:induction false} NoArmingIsLost(run: seq<State>, steps: seq<Step>, i: nat, j: nat, x: Sink)
    requires IsRun(run, steps) && i <= j < |run| && x in run[i].books.owed
    ensures Pending(run[j].books, x) || exists k :: i <= k < j && Answers(run[k], steps[k], x)
  {
    if i < j {
      NoArmingIsLost(run, steps, i, j - 1, x);
      RunInv(run, steps, j - 1);
      assert Follows(run, steps, j - 1);
      if Pending(run[j - 1].books, x) && !Answers(run[j - 1], steps[j - 1], x) {
        PendingStep(run[j - 1], steps[j - 1], run[j], x);
      }
    }
  }

  /** Whether the step arms x: an orphan emit, a build, or a swap that ends without a raise. */
  predicate Arms(s: State, step: Step, x: Sink) {
    match step
    case ByOrphan(y) => x == y
    case ByBuild(y) => x == y
    case BySwap(choice) =>
      || (s.swap.Ending? && s.swap.sink == x)
      || (s.swap.Superseding? && s.swap.todo == {} && s.swap.sink == x && !Live(s.owner))
    case _ => false
  }

  /** So from every arming on, in every run, x is owed or about to be closed until it is answered for. */
  lemma {:induction false} EveryArmingIsAnswered(run: seq<State>, steps: seq<Step>, i: nat, j: nat, x: Sink)
    requires IsRun(run, steps) && i < j < |run| && Arms(run[i], steps[i], x)
    ensures x in run[i + 1].books.owed
    ensures Pending(run[j].books, x) || exists k :: i < k < j && Answers(run[k], steps[k], x)
  {
    assert Follows(run, steps, i);
    ArmedNow(run[i], steps[i], run[i + 1], x);
    NoArmingIsLost(run, steps, i + 1, j, x);
  }

  lemma {:induction false} ArmedNow(s: State, step: Step, s': State, x: Sink)
    requires Apply(s, step) == To(s') && Arms(s, step, x)
    ensures x in s'.books.owed
  {
    if step.BySwap? && s.swap.Ending? {
      var armed := Arm(s.books, x);
      assert x in armed.owed;
    }
  }

  // ------------------------------------------------------------------ no close under the drain

  /** The step takes x out of the owed record and registers its close. */
  predicate Takes(s: State, step: Step, x: Sink) {
    x !in s.books.registry && Apply(s, step).To? && x in Apply(s, step).s.books.registry
  }

  predicate DrainInside(s: State, x: Sink) {
    s.owner.worker.Built? && s.owner.worker.view.inside == V.In(x)
  }

  /** A swap never releases a sink the drain thread is inside. */
  lemma {:induction false} SwapSparesTheDrain(run: seq<State>, steps: seq<Step>, n: nat, x: Sink)
    requires IsRun(run, steps) && n < |steps| && steps[n].BySwap? && Takes(run[n], steps[n], x)
    ensures !DrainInside(run[n], x)
  {
    RunInv(run, steps, n);
    var s := run[n];
    if s.swap.Superseding? && steps[n].swap.Release? && !Stays(s, s.swap.sink, steps[n].swap.x) {
      ReleaseKeepsBooks(s.books, steps[n].swap.x, steps[n].swap.outcome);
    }
    if s.swap.Ending? && !Held(s, s.swap.prev) && steps[n].swap.Release? {
      ArmKeepsBooks(s.books, s.swap.sink);
      ReleaseKeepsBooks(Arm(s.books, s.swap.sink), s.swap.prev, steps[n].swap.outcome);
    }
  }

  /** A closer whose take began with no owed sink exposed never takes one the drain is inside. */
  lemma {:induction false} CloserSparesTheDrain(run: seq<State>, steps: seq<Step>, n: nat, x: Sink)
    requires IsRun(run, steps) && n < |steps| && steps[n].ByCall? && Takes(run[n], steps[n], x)
    requires steps[n].c in run[n].calls && run[n].calls[steps[n].c].clear
    ensures !DrainInside(run[n], x)
  {
    RunInv(run, steps, n);
    assert CallFits(run[n], steps[n].c);
  }

  /** So a shutdown() that had a worker to stop, or stopped a late one, never closes a sink under
      the drain, whatever swaps run beside it. */
  lemma {:induction false} StoppedWorkerIsSpared(run: seq<State>, steps: seq<Step>, n: nat, x: Sink)
    requires IsRun(run, steps) && n < |steps| && steps[n].ByCall? && Takes(run[n], steps[n], x)
    requires var c := steps[n].c; c in run[n].calls && (run[n].calls[c].hadWorker || TookLate(run[n].calls[c]))
    ensures !DrainInside(run[n], x)
  {
    RunInv(run, steps, n);
    assert CallKnowsAt(run[n], steps[n].c) && CallFits(run[n], steps[n].c);
  }

  // ------------------------------------------------------------------ when the take is too early

  lemma {:induction false} ExecuteThen(s: State, first: seq<Step>, then_: seq<Step>)
    requires Execute(s, first).To?
    ensures Execute(s, first + then_) == Execute(Execute(s, first).s, then_)
    decreases |first|
  {
    if first == [] {
      assert first + then_ == then_;
    } else {
      assert (first + then_)[1..] == first[1..] + then_;
      ExecuteThen(Apply(s, first[0]).s, first[1..], then_);
    }
  }

  /** From here some steps lead to a take, by call c, of the sink the drain is inside. */
  ghost predicate CanTakeUnderDrain(s: State, c: CallId, y: Sink) {
    exists steps: seq<Step> :: TakesUnderDrain(s, steps, c, y)
  }

  ghost predicate TakesUnderDrain(s: State, steps: seq<Step>, c: CallId, y: Sink) {
    && Execute(s, steps).To?
    && DrainInside(Execute(s, steps).s, y)
    && Takes(Execute(s, steps).s, ByCall(c, Check(y)), y)
  }

  lemma {:induction false} CanTakeAfter(s: State, first: Step, c: CallId, y: Sink)
    requires Apply(s, first).To? && CanTakeUnderDrain(Apply(s, first).s, c, y)
    ensures CanTakeUnderDrain(s, c, y)
  {
    var rest: seq<Step> :| TakesUnderDrain(Apply(s, first).s, rest, c, y);
    var steps := [first] + rest;
    assert steps[1..] == rest;
    assert TakesUnderDrain(s, steps, c, y);
  }

  /** The closer has let y pass and the drain has since gone into it. */
  predicate Doomed(s: State, c: CallId, y: Sink) {
    && c in s.calls && s.calls[c].pc.Checking? && y in s.calls[c].pc.passed && y !in s.calls[c].pc.todo
    && y !in s.books.registry && DrainInside(s, y)
  }

  lemma {:induction false} DoomedTakes(s: State, c: CallId, y: Sink)
    requires Doomed(s, c, y)
    ensures CanTakeUnderDrain(s, c, y)
    decreases |s.calls[c].pc.todo|
  {
    if s.calls[c].pc.todo == {} {
      assert TakesUnderDrain(s, [], c, y);
    } else {
      var x :| x in s.calls[c].pc.todo;
      var s' := Apply(s, ByCall(c, Check(x))).s;
      assert s'.calls[c].pc.todo == s.calls[c].pc.todo - {x};
      DoomedTakes(s', c, y);
      CanTakeAfter(s, ByCall(c, Check(x)), c, y);
    }
  }

  /** A closer about to begin its take, with y owed and exposed. */
  predicate Hazard(s: State, c: CallId, y: Sink) {
    s.lock.Free? && c in s.calls && s.calls[c].pc.Taking? && y in s.books.owed && Exposed(s, y)
  }

  /** The closer has let y pass, and the worker is pointed at it. */
  predicate LetPass(s: State, c: CallId, y: Sink) {
    && c in s.calls && s.calls[c].pc.Checking? && y in s.calls[c].pc.passed && y !in s.calls[c].pc.todo
    && y !in s.books.registry && s.owner.worker.Built? && s.owner.worker.view.alive && s.owner.worker.view.sink == y
  }

  lemma {:induction false} PassedTakes(s: State, c: CallId, y: Sink)
    requires LetPass(s, c, y)
    ensures CanTakeUnderDrain(s, c, y)
    decreases if s.owner.worker.view.inside == V.In(y) then 0 else if s.owner.worker.view.inside.Outside? then 1 else 2
  {
    var inside := s.owner.worker.view.inside;
    if inside == V.In(y) {
      DoomedTakes(s, c, y);
    } else {
      var move := if inside.Outside? then V.Enter else V.Leave;
      PassedTakes(Apply(s, ByDrain(move)).s, c, y);
      CanTakeAfter(s, ByDrain(move), c, y);
    }
  }

  /** Pointed at y and not holding it yet: the take lets y pass, and the drain goes in. */
  lemma {:induction false} HazardPointed(s: State, c: CallId, y: Sink)
    requires Inv(s) && Hazard(s, c, y) && s.swap.Pointed? && y !in s.books.registry
    ensures CanTakeUnderDrain(s, c, y)
  {
    var s1 := Apply(s, ByCall(c, Go(false))).s;
    var s2 := Apply(s1, ByCall(c, Check(y))).s;
    PassedTakes(s2, c, y);
    CanTakeAfter(s1, ByCall(c, Check(y)), c, y);
    CanTakeAfter(s, ByCall(c, Go(false)), c, y);
  }

  lemma {:induction false} HazardCommitted(s: State, c: CallId, y: Sink)
    requires Inv(s) && Hazard(s, c, y) && PastCheck(s.swap) && y !in s.books.registry
    ensures CanTakeUnderDrain(s, c, y)
  {
    if s.swap.Pointed? {
      HazardPointed(s, c, y);
    } else {
      var s' := Apply(s, BySwap(Proceed)).s;
      InvStep(s, BySwap(Proceed), s');
      HazardPointed(s', c, y);
      CanTakeAfter(s, BySwap(Proceed), c, y);
    }
  }

  lemma {:induction false} HazardUnregistered(s: State, c: CallId, y: Sink)
    requires Inv(s) && Hazard(s, c, y) && y !in s.books.registry
    ensures CanTakeUnderDrain(s, c, y)
  {
    if PastCheck(s.swap) {
      HazardCommitted(s, c, y);
    } else {
      var s' := Apply(s, BySwap(Proceed)).s;
      InvStep(s, BySwap(Proceed), s');
      HazardCommitted(s', c, y);
      CanTakeAfter(s, BySwap(Proceed), c, y);
    }
  }

  /** A close of y already running ends first. */
  lemma {:induction false} HazardTask(s: State, c: CallId, y: Sink, t: TaskId)
    requires Inv(s) && Hazard(s, c, y) && t in s.books.tasks && s.books.tasks[t].sink == y
    ensures CanTakeUnderDrain(s, c, y)
    decreases match s.books.tasks[t].progress case InHand(_, _) => 2 case Ready => 1 case Running => 0
  {
    assert TaskListed(s.books, t) && HandFits(s, t);
    FinishKeepsBooks(s.books, t);
    match s.books.tasks[t].progress
    case Running =>
      var s' := Apply(s, ByTask(t, EndClose)).s;
      InvStep(s, ByTask(t, EndClose), s');
      HazardUnregistered(s', c, y);
      CanTakeAfter(s, ByTask(t, EndClose), c, y);
    case Ready =>
      var s' := Apply(s, ByTask(t, StartClose)).s;
      InvStep(s, ByTask(t, StartClose), s');
      HazardTask(s', c, y, t);
      CanTakeAfter(s, ByTask(t, StartClose), c, y);
    case InHand(d, _) =>
      assert CallFits(s, d);
      if s.calls[d].pc.Closing? {
        var step := ByCall(d, HandOff(t, Started));
        InvStep(s, step, Apply(s, step).s);
        HazardTask(Apply(s, step).s, c, y, t);
        CanTakeAfter(s, step, c, y);
      } else {
        var step := ByCall(d, PutBack(t));
        InvStep(s, step, Apply(s, step).s);
        HazardUnregistered(Apply(s, step).s, c, y);
        CanTakeAfter(s, step, c, y);
      }
  }

  /** And an exposed owed sink is the whole of the danger: wherever a take can begin with one,
      some steps lead to a close of the sink the drain is inside. */
  lemma {:induction false} ExposedSinkCanBeTaken(run: seq<State>, steps: seq<Step>, n: nat, c: CallId, y: Sink)
    requires IsRun(run, steps) && n < |run| && Hazard(run[n], c, y)
    ensures CanTakeUnderDrain(run[n], c, y)
  {
    RunInv(run, steps, n);
    var b := run[n].books;
    assert EntryBacked(b, y);
    if y in b.registry { HazardTask(run[n], c, y, b.registry[y]); } else { HazardUnregistered(run[n], c, y); }
  }

  /** It does arise: an orphan sink 1 is owed, a shutdown() enters with no worker, a worker on
      sink 0 is built beside it, and configure() begins to swap sink 1 in. */
  lemma {:induction false} ExposureArises(s: State)
    requires Init(s)
    ensures exists steps: seq<Step> :: Execute(s, steps).To? && Hazard(Execute(s, steps).s, 7, 1)
  {
    var a := [ByOrphan(1), ByCall(7, Go(false)), ByCall(7, Go(false)), ByBuild(0)];
    var b := [BySwap(Begin(1)), BySwap(Release(0, Started)), BySwap(Release(1, Started)), BySwap(Proceed)];
    var s1 := Apply(s, a[0]).s;
    var s2 := Apply(s1, a[1]).s;
    var s3 := Apply(s2, a[2]).s;
    var s4 := Apply(s3, a[3]).s;
    assert Execute(s, a) == To(s4) by {
      assert a[1..][1..][1..][1..] == [];
    }
    var s5 := Apply(s4, b[0]).s;
    var s6 := Apply(s5, b[1]).s;
    var s7 := Apply(s6, b[2]).s;
    var s8 := Apply(s7, b[3]).s;
    assert Execute(s4, b) == To(s8) by {
      assert b[1..][1..][1..][1..] == [];
    }
    ExecuteThen(s, a, b);
    assert Hazard(s8, 7, 1);
  }

  const AT_START: Call := Call(Entering, false, Untaken, false, false, false)

  /** A late worker on sink 0, built with two no-worker calls under way. */
  const LATE_ON_ZERO: Owner := Owner(Built(V.Worker(true, 0, {0}, V.Outside), 2, true, false), 2, 2, true)

  const TWO_CALLS: State :=
    State(Books({0}, map[], map[], 0), LATE_ON_ZERO,
          map[7 := AT_START.(pc := Taking(ColdPass)), 8 := AT_START.(pc := Taking(ColdPass))], Free, NoSwap)

  /** The first call's pass is over, and sink 1 has become owed since. */
  const FIRST_PASS_OVER: State :=
    State(Books({0, 1}, map[], map[], 0), LATE_ON_ZERO,
          map[7 := AT_START.(pc := ColdExit(false), clear := true), 8 := AT_START.(pc := Taking(ColdPass))], Free, NoSwap)

  const SWAP_COMMITTED: State := FIRST_PASS_OVER.(swap := Committed(1))

  lemma {:induction false} TwoCallsArise(s: State)
    requires Init(s)
    ensures exists steps: seq<Step> :: Execute(s, steps) == To(TWO_CALLS)
  {
    var a := [ByCall(7, Go(false)), ByCall(7, Go(false)), ByCall(8, Go(false)), ByCall(8, Go(false)), ByBuild(0)];
    var s1 := Apply(s, a[0]).s;
    var s2 := Apply(s1, a[1]).s;
    var s3 := Apply(s2, a[2]).s;
    var s4 := Apply(s3, a[3]).s;
    var s5 := Apply(s4, a[4]).s;
    assert s5.books == TWO_CALLS.books && s5.calls == TWO_CALLS.calls;
    assert a[1..][1..][1..][1..][1..] == [];
    assert Execute(s, a) == To(TWO_CALLS);
  }

  lemma {:induction false} FirstPassEnds()
    ensures exists steps: seq<Step> :: Execute(TWO_CALLS, steps) == To(FIRST_PASS_OVER)
  {
    var b := [ByCall(7, Go(false)), ByCall(7, Check(0)), ByCall(7, Go(false)), ByCall(7, Go(false)), ByOrphan(1)];
    var s1 := Apply(TWO_CALLS, b[0]).s;
    var s2 := Apply(s1, b[1]).s;
    assert s2.calls[7].pc == Checking(ColdPass, {}, {});
    var s3 := Apply(s2, b[2]).s;
    var s4 := Apply(s3, b[3]).s;
    var s5 := Apply(s4, b[4]).s;
    assert s5.books == FIRST_PASS_OVER.books && s5.calls == FIRST_PASS_OVER.calls;
    assert b[1..][1..][1..][1..][1..] == [];
    assert Execute(TWO_CALLS, b) == To(FIRST_PASS_OVER);
  }

  lemma {:induction false} SwapCommits()
    ensures exists steps: seq<Step> :: Execute(FIRST_PASS_OVER, steps) == To(SWAP_COMMITTED)
  {
    var a := [BySwap(Begin(1)), BySwap(Release(0, Started)), BySwap(Release(1, Started)), BySwap(Proceed), BySwap(Proceed)];
    var s1 := Apply(FIRST_PASS_OVER, a[0]).s;
    var s2 := Apply(s1, a[1]).s;
    var s3 := Apply(s2, a[2]).s;
    assert s2.swap.todo == {1} && s3.swap.todo == {};
    assert s3.books == FIRST_PASS_OVER.books && s3.calls == FIRST_PASS_OVER.calls && s3.owner == LATE_ON_ZERO;
    var s4 := Apply(s3, a[3]).s;
    assert a[1..][1..][1..][1..][1..] == [];
    assert Execute(FIRST_PASS_OVER, a) == To(SWAP_COMMITTED);
  }

  /** The first call takes the late worker and moves the count, the swap past its check. */
  lemma {:induction false} CountMovesPastTheCheck()
    ensures exists steps: seq<Step> ::
              && Execute(SWAP_COMMITTED, steps).To?
              && Hazard(Execute(SWAP_COMMITTED, steps).s, 8, 1) && !Live(Execute(SWAP_COMMITTED, steps).s.owner)
  {
    var b := [ByCall(7, Go(false)), ByCall(7, Go(false))];
    var s1 := Apply(SWAP_COMMITTED, b[0]).s;
    var s2 := Apply(s1, b[1]).s;
    assert b[1..][1..] == [];
    assert Execute(SWAP_COMMITTED, b) == To(s2);
    assert Hazard(s2, 8, 1);
  }

  /** And it arises with the worker already retired: the count moves between retarget()'s check of it
      and its assignment, so a second no-worker call begins its take with sink 1 exposed. */
  lemma {:induction false} RetiredExposureArises(s: State)
    requires Init(s)
    ensures exists steps: seq<Step> ::
              && Execute(s, steps).To?
              && Hazard(Execute(s, steps).s, 8, 1) && !Live(Execute(s, steps).s.owner)
  {
    TwoCallsArise(s);
    var a: seq<Step> :| Execute(s, a) == To(TWO_CALLS);
    FirstPassEnds();
    var b: seq<Step> :| Execute(TWO_CALLS, b) == To(FIRST_PASS_OVER);
    ExecuteThen(s, a, b);
    SwappedExposure(s, a + b);
  }

  lemma {:induction false} SwappedExposure(s: State, steps: seq<Step>)
    requires Execute(s, steps) == To(FIRST_PASS_OVER)
    ensures exists more: seq<Step> ::
              && Execute(s, more).To?
              && Hazard(Execute(s, more).s, 8, 1) && !Live(Execute(s, more).s.owner)
  {
    SwapCommits();
    var c: seq<Step> :| Execute(FIRST_PASS_OVER, c) == To(SWAP_COMMITTED);
    ExecuteThen(s, steps, c);
    CountMovesPastTheCheck();
    var d: seq<Step> :| Execute(SWAP_COMMITTED, d).To? && Hazard(Execute(SWAP_COMMITTED, d).s, 8, 1)
                        && !Live(Execute(SWAP_COMMITTED, d).s.owner);
    ExecuteThen(s, steps + c, d);
  }

  // ------------------------------------------------------------------ retirement

  /** When no no-worker shutdown() is running, no late worker is left registered; and a worker built
      while one was running has been taken by one of them, and by no other. */
  lemma {:induction false} NoLateWorkerIsLeft(run: seq<State>, steps: seq<Step>, n: nat)
    requires IsRun(run, steps) && n < |run| && run[n].owner.depth == 0
    ensures ColdCalls(run[n].calls) == {}
    ensures !run[n].owner.late
    ensures run[n].owner.worker.Built? && run[n].owner.worker.builtLate ==>
              exists c :: c in run[n].calls && TookLate(run[n].calls[c])
                          && forall d :: d in run[n].calls && TookLate(run[n].calls[d]) ==> d == c
  {
    RunInv(run, steps, n);
    var s := run[n];
    if s.owner.worker.Built? && s.owner.worker.builtLate {
      var c :| c in s.calls && TookLate(s.calls[c]);
      forall d | d in s.calls && TookLate(s.calls[d]) ensures d == c { assert OneTaker(s, d, c); }
    }
  }

  /** A finished call that took the late worker moved the count past its epoch and had it stopped if
      and only if it was not interrupted in its no-worker pass; interrupted there, it did neither. */
  lemma {:induction false} TakerRetiresUnlessCut(run: seq<State>, steps: seq<Step>, n: nat, c: CallId)
    requires IsRun(run, steps) && n < |run|
    requires c in run[n].calls && TookLate(run[n].calls[c]) && run[n].calls[c].pc.Finished?
    ensures run[n].calls[c].duty.AskedStop? <==> !run[n].calls[c].cut
    ensures !run[n].calls[c].cut ==> Retired(run[n].owner) && run[n].owner.worker.stopAsked
    ensures run[n].calls[c].cut ==> run[n].calls[c].duty.TookIt?
  {
    RunInv(run, steps, n);
    assert CallKnowsAt(run[n], c);
  }

  /** Some call moved the count on the late worker's account. */
  ghost predicate MovedByTaker(s: State) {
    exists c :: c in s.calls && DidMove(s.calls[c])
  }

  /** Whether the step moves the retirement count. */
  predicate MovesCount(s: State, step: Step) {
    step.ByCall? && step.c in s.calls && (s.calls[step.c].pc.Entering? || s.calls[step.c].pc.RetiringLate?)
  }

  /** What a step does to the count and to a worker that is there. */
  lemma {:induction false} CountMoves(s: State, step: Step, s': State)
    requires Apply(s, step) == To(s') && s.owner.worker.Built?
    ensures s'.owner.retirements == s.owner.retirements + (if MovesCount(s, step) then 1 else 0)
    ensures s'.owner.worker.Built? && s'.owner.worker.epoch == s.owner.worker.epoch
    ensures s'.owner.worker.builtLate == s.owner.worker.builtLate
  {
    if step.ByCall? && step.c in s.calls && !IsSection(s.calls[step.c].pc) { CloserFrame(s, step.c, step.call, s'); }
  }

  predicate DidMove(call: Call) {
    call.duty.MovedCount? || call.duty.AskedStop?
  }

  /** A call that moved the count for the late worker stays one, and the section that does it is one. */
  lemma {:induction false} DutyStays(s: State, step: Step, s': State, d: CallId)
    requires Inv(s) && Apply(s, step) == To(s') && d in s.calls
    ensures d in s'.calls && (DidMove(s.calls[d]) ==> DidMove(s'.calls[d]))
    ensures step.ByCall? && step.c == d && s.calls[d].pc.RetiringLate? ==> DidMove(s'.calls[d])
  {
    assert CallKnowsAt(s, d);
    if step.ByCall? && step.c in s.calls && !IsSection(s.calls[step.c].pc) { CloserFrame(s, step.c, step.call, s'); }
  }

  lemma {:induction false} MovedStep(s: State, step: Step, s': State)
    requires Inv(s) && Apply(s, step) == To(s') && !BeginsShutdown(s, step) && s.owner.worker.Built?
    requires Retired(s.owner) ==> MovedByTaker(s)
    ensures s'.owner.worker.Built? && (Retired(s'.owner) ==> MovedByTaker(s'))
  {
    CountMoves(s, step, s');
    if Retired(s.owner) {
      var d :| d in s.calls && DidMove(s.calls[d]);
      DutyStays(s, step, s', d);
      assert DidMove(s'.calls[d]);
    } else if MovesCount(s, step) {
      DutyStays(s, step, s', step.c);
      assert DidMove(s'.calls[step.c]);
    }
  }

  /** Between a build and the next shutdown() to begin, only the taker moves the count. */
  lemma {:induction false} RetiredByTakerOnly(run: seq<State>, steps: seq<Step>, i: nat, j: nat)
    requires IsRun(run, steps) && i < j < |run| && steps[i].ByBuild?
    requires forall k :: i < k < j ==> !BeginsShutdown(run[k], steps[k])
    ensures run[j].owner.worker.Built? && (Retired(run[j].owner) ==> MovedByTaker(run[j]))
  {
    assert Follows(run, steps, j - 1);
    if i < j - 1 {
      RetiredByTakerOnly(run, steps, i, j - 1);
      RunInv(run, steps, j - 1);
      MovedStep(run[j - 1], steps[j - 1], run[j]);
    }
  }

  /** So a late worker whose taker was interrupted in its no-worker pass is left live, unstopped and
      registered with nobody, until another shutdown() begins. */
  lemma {:induction false} CutTakerLeavesItLive(run: seq<State>, steps: seq<Step>, i: nat, j: nat, c: CallId)
    requires IsRun(run, steps) && i < j < |run| && steps[i].ByBuild?
    requires forall k :: i < k < j ==> !BeginsShutdown(run[k], steps[k])
    requires c in run[j].calls && TookLate(run[j].calls[c]) && run[j].calls[c].cut
    ensures Live(run[j].owner) && !run[j].owner.late && !run[j].owner.worker.stopAsked
  {
    RetiredByTakerOnly(run, steps, i, j);
    RunInv(run, steps, j);
    CutTakerMovedNothing(run[j], c);
    assert CallKnowsAt(run[j], c);
  }

  lemma {:induction false} CutTakerMovedNothing(s: State, c: CallId)
    requires Inv(s) && c in s.calls && TookLate(s.calls[c]) && s.calls[c].cut
    ensures !MovedByTaker(s)
  {
    assert CallKnowsAt(s, c);
    forall d | d in s.calls && TookLate(s.calls[d]) ensures d == c { assert OneTaker(s, d, c); }
  }

  const INTO_COLD_PASS: seq<Step> := [ByCall(7, Go(false)), ByCall(7, Go(false)), ByBuild(0), ByCall(7, Go(false))]

  const OUT_BY_INTERRUPT: seq<Step> :=
    [ByCall(7, Check(0)), ByCall(7, Go(false)), ByCall(7, Interrupt), ByCall(7, Go(false)), ByCall(7, Go(false))]

  const BUILT_LATE: Owner := Owner(Built(V.Worker(true, 0, {0}, V.Outside), 1, true, false), 1, 1, true)

  const COLD_PASS_BEGUN: State :=
    State(Books({0}, map[], map[], 0), BUILT_LATE,
          map[7 := AT_START.(pc := Checking(ColdPass, {0}, {}), clear := true)], HeldByCall(7), NoSwap)

  lemma {:induction false} ColdPassArises(s: State)
    requires Init(s)
    ensures Execute(s, INTO_COLD_PASS) == To(COLD_PASS_BEGUN)
  {
    var a := INTO_COLD_PASS;
    var s1 := Apply(s, a[0]).s;
    var s2 := Apply(s1, a[1]).s;
    var s3 := Apply(s2, a[2]).s;
    assert s3.books == COLD_PASS_BEGUN.books && s3.owner == BUILT_LATE && s3.lock == Free && s3.swap == NoSwap;
    assert s3.calls[7] == AT_START.(pc := Taking(ColdPass));
    var s4 := Apply(s3, a[3]).s;
    assert s4.calls == COLD_PASS_BEGUN.calls;
    assert a[1..][1..][1..][1..] == [];
  }

  lemma {:induction false} InterruptEndsIt()
    ensures var next := Execute(COLD_PASS_BEGUN, OUT_BY_INTERRUPT);
            && next.To? && next.s.owner == BUILT_LATE.(depth := 0, late := false)
            && next.s.calls == map[7 := AT_START.(pc := Finished(true), duty := TookIt, cut := true, clear := true)]
  {
    var b := OUT_BY_INTERRUPT;
    var s1 := Apply(COLD_PASS_BEGUN, b[0]).s;
    assert s1.calls[7].pc == Checking(ColdPass, {}, {});
    var s2 := Apply(s1, b[1]).s;
    var s3 := Apply(s2, b[2]).s;
    var s4 := Apply(s3, b[3]).s;
    assert b[1..][1..][1..][1..][1..] == [];
  }

  /** That does arise. */
  lemma {:induction false} InterruptedTakerArises(s: State)
    requires Init(s)
    ensures exists steps: seq<Step> ::
              && Execute(s, steps).To?
              && var s' := Execute(s, steps).s;
                 s'.owner.depth == 0 && Live(s'.owner) && s'.owner.worker.builtLate && !s'.owner.worker.stopAsked
                 && s'.calls.Keys == {7} && s'.calls[7].pc.Finished?
  {
    ColdPassArises(s);
    InterruptEndsIt();
    ExecuteThen(s, INTO_COLD_PASS, OUT_BY_INTERRUPT);
  }

  /** The first section of a shutdown(). */
  predicate BeginsShutdown(s: State, step: Step) {
    step.ByCall? && step.c in s.calls && s.calls[step.c].pc.Entering?
  }

  lemma {:induction false} LiveStep(s: State, step: Step, s': State)
    requires Inv(s) && Apply(s, step) == To(s') && !BeginsShutdown(s, step)
    requires Live(s.owner) && !s.owner.worker.builtLate
    ensures Live(s'.owner) && !s'.owner.worker.builtLate
  {
    CountMoves(s, step, s');
    if step.ByCall? && step.c in s.calls { assert CallKnowsAt(s, step.c); }
  }

  /** A worker built while no no-worker shutdown() runs reads live until the next shutdown()
      begins. */
  lemma {:induction false} LiveUntilTheNextShutdown(run: seq<State>, steps: seq<Step>, i: nat, j: nat)
    requires IsRun(run, steps) && i < j < |run| && steps[i].ByBuild? && run[i].owner.depth == 0
    requires forall k :: i < k < j ==> !BeginsShutdown(run[k], steps[k])
    ensures Live(run[j].owner) && !run[j].owner.worker.builtLate
  {
    assert Follows(run, steps, j - 1);
    if i < j - 1 {
      LiveUntilTheNextShutdown(run, steps, i, j - 1);
      RunInv(run, steps, j - 1);
      LiveStep(run[j - 1], steps[j - 1], run[j]);
    }
  }
}
