/**
 The drain thread is never stuck: in every reachable state it has a step of its own, or the stop
 call its sink is making on it has one. And nobody waits on a drain that is over without somebody
 left to answer.
 */
module WorkerProgress {
  import opened WorkerModel
  import opened WorkerInvariants
  import opened WorkerGate
  import opened WorkerWaiters
  import opened WorkerTheorems

  /** A call on the drain thread runs inside emit, and has not returned. */
  predicate NestedFits(s: State) {
    s.stops.nested.OnDrain? ==>
      && s.w.at.Inside? && s.stops.nested.id in s.stops.calls
      && s.stops.calls[s.stops.nested.id].onDrain && !s.stops.calls[s.stops.nested.id].pc.StopDone?
  }

  lemma {:induction false} NestedStep(s: State, step: Step, s': State)
    requires NestedFits(s) && Apply(s, step) == To(s')
    ensures NestedFits(s')
  {
    match step
    case ByStop(c, e) => StopFrame(s, c, e, s');
    case BySubmit(x, e) => SubmitFrame(s, x, e, s');
    case ByFlush(f, b, e) => FlushFrame(s, f, b, e, s');
    case BySwap(x, f) => SwapFrame(s, x, f, s');
    case ByDrain(c) =>
      match PhaseOf(s.w.at)
      case Looping => LoopFrame(s, c, s');
      case Emitting => EmitFrame(s, c, s');
      case Marking => AnswerFrame(s, s');
      case Exiting => ExitFrame(s, c, s');
  }

  lemma {:induction false} RunNested(run: seq<State>, steps: seq<Step>, n: nat)
    requires IsRun(run, steps) && n < |run|
    ensures NestedFits(run[n])
  {
    if n > 0 {
      RunNested(run, steps, n - 1);
      assert Follows(run, steps, n - 1);
      NestedStep(run[n - 1], steps[n - 1], run[n]);
    }
  }

  /** What lets the drain move on from here. */
  ghost predicate Enabled(s: State) {
    exists c :: DrainStep(s, c).To?
  }

  lemma {:induction false} ExitEnabled(s: State)
    requires s.w.at.Sweeping?
    ensures Enabled(s)
  {
    var sweep := s.w.at.sweep;
    if (sweep.SettingTaken? || sweep.SettingQueue?) && sweep.todo != {} {
      var f :| f in sweep.todo;
      assert DrainStep(s, Pick(f)).To?;
    } else {
      assert DrainStep(s, Go).To?;
    }
  }

  lemma {:induction false} MarkingEnabled(s: State)
    requires HandInv(s) && PhaseOf(s.w.at).Marking?
    ensures DrainStep(s, Go).To?
  {
    var why, i := s.w.at.why, s.w.at.i;
    if s.w.at.Judging? || s.w.at.Writing? {
      assert Hand(s.w.at)[i] == Marks(why)[i];
      assert TakenOut(s, Hand(s.w.at)[i]);
    }
  }

  /** In every reachable state a live drain thread can take a step, or is inside emit in a stop
      call of its own, which can. */
  lemma {:induction false} DrainIsNeverStuck(run: seq<State>, steps: seq<Step>, n: nat)
    requires IsRun(run, steps) && n < |run| && Alive(run[n])
    ensures run[n].stops.nested.NoCall? ==> Enabled(run[n])
    ensures run[n].stops.nested.OnDrain? ==>
              run[n].w.at.Inside? && StopStep(run[n], run[n].stops.nested.id, Proceed).To?
  {
    RunNested(run, steps, n);
    RunInv(run, steps, n);
    NeverStuckHere(run[n]);
  }

  lemma {:induction false} NeverStuckHere(s: State)
    requires Alive(s) && Inv(s) && NestedFits(s)
    ensures s.stops.nested.NoCall? ==> Enabled(s)
    ensures s.stops.nested.OnDrain? ==> s.w.at.Inside? && StopStep(s, s.stops.nested.id, Proceed).To?
  {
    if s.stops.nested.OnDrain? {
      var c := s.stops.nested.id;
      assert GateFits(s, c);
      assert StopStep(s, c, Proceed).To?;
    } else {
      match PhaseOf(s.w.at)
      case Looping => LoopEnabled(s);
      case Emitting => EmitEnabled(s);
      case Marking => MarkingEnabled(s);
      case Exiting =>
        if s.w.at.Sweeping? { ExitEnabled(s); } else { assert DrainStep(s, Go).To?; }
    }
  }

  lemma {:induction false} LoopEnabled(s: State)
    requires PhaseOf(s.w.at).Looping?
    ensures Enabled(s)
  {
    assert DrainStep(s, Go).To? || DrainStep(s, Idle).To?;
  }

  lemma {:induction false} EmitEnabled(s: State)
    requires PhaseOf(s.w.at).Emitting? && s.stops.nested.NoCall?
    ensures Enabled(s)
  {
    assert DrainStep(s, Go).To? || DrainStep(s, EmitReturns).To?;
  }

  // ------------------------------------------------------------------ whoever waits is answered

  /** An expired stop call gave the drain up. */
  ghost predicate GivenUpBy(s: State, c: StopId) {
    c in s.stops.calls && Expired(s.stops.calls[c].pc)
  }

  /** The drain is settled by its own exit or by an expired stop call. */
  ghost predicate SettledBySomeone(s: State) {
    s.ev.settled && !s.ev.finished ==> exists c :: GivenUpBy(s, c)
  }

  lemma {:induction false} SettledStop(s: State, c: StopId, e: StopChoice, s': State)
    requires SettledBySomeone(s) && StopStep(s, c, e) == To(s')
    ensures SettledBySomeone(s')
  {
    StopFrame(s, c, e, s');
    if s'.ev.settled && !s'.ev.finished {
      if s.ev.settled {
        var d :| GivenUpBy(s, d);
        assert GivenUpBy(s', d);
      } else {
        assert GivenUpBy(s', c);
      }
    }
  }

  lemma {:induction false} SettledKept(s: State, s': State)
    requires SettledBySomeone(s) && s'.stops.calls == s.stops.calls
    requires s'.ev.finished || s'.ev == s.ev
    ensures SettledBySomeone(s')
  {
    if s'.ev.settled && !s'.ev.finished {
      var d :| GivenUpBy(s, d);
      assert GivenUpBy(s', d);
    }
  }

  lemma {:induction false} SettledStep(s: State, step: Step, s': State)
    requires SettledBySomeone(s) && EventsFit(s) && Apply(s, step) == To(s')
    ensures SettledBySomeone(s')
  {
    match step
    case ByStop(c, e) => SettledStop(s, c, e, s');
    case BySubmit(x, e) => SubmitFrame(s, x, e, s'); SettledKept(s, s');
    case ByFlush(f, b, e) => FlushFrame(s, f, b, e, s'); SettledKept(s, s');
    case BySwap(x, f) => SwapFrame(s, x, f, s'); SettledKept(s, s');
    case ByDrain(c) =>
      match PhaseOf(s.w.at)
      case Looping => LoopFrame(s, c, s'); SettledKept(s, s');
      case Emitting => EmitFrame(s, c, s'); SettledKept(s, s');
      case Marking => AnswerFrame(s, s'); SettledKept(s, s');
      case Exiting => ExitFrame(s, c, s'); SettledKept(s, s');
  }

  lemma {:induction false} RunSettled(run: seq<State>, steps: seq<Step>, n: nat)
    requires IsRun(run, steps) && n < |run|
    ensures SettledBySomeone(run[n])
  {
    if n > 0 {
      RunSettled(run, steps, n - 1);
      assert Follows(run, steps, n - 1);
      EventsAt(run, steps, n - 1);
      SettledStep(run[n - 1], steps[n - 1], run[n]);
    }
  }

  lemma {:induction false} EventsAt(run: seq<State>, steps: seq<Step>, n: nat)
    requires IsRun(run, steps) && n < |run|
    ensures EventsFit(run[n])
  {
    RunInv(run, steps, n);
  }

  /** The drain's own exit has yet to sweep the queue f's marker is in. */
  predicate ExitWillAnswer(s: State, f: FlushId) {
    match s.w.at
    case Settling(_) => true
    case Recording => true
    case Sweeping(_, sweep) =>
      (match sweep
       case SettingQueue(todo) => f in todo
       case SweepDone => false
       case _ => true)
    case _ => false
  }

  /** An expired stop call has yet to answer f, or has handed it to the drain's next step. */
  ghost predicate SweepWillAnswer(s: State, c: StopId, f: FlushId) {
    GivenUpBy(s, c) && f in s.flushes && SweepCovers(s, SweepOf(s.stops.calls[c].pc), f)
  }

  lemma {:induction false} WaiterHere(s: State, f: FlushId)
    requires Inv(s) && SettledBySomeone(s) && s.ev.settled
    requires f in s.flushes && s.flushes[f].pc.Waiting? && !s.flushes[f].event
    ensures ExitWillAnswer(s, f) || exists c :: SweepWillAnswer(s, c, f)
  {
    if s.ev.finished {
      assert ExitCovers(s, f) && LetGoAnswered(s, f) && TakenIsHand(s, f);
    } else {
      var c :| GivenUpBy(s, c);
      assert StopCovers(s, c, f);
      assert SweepWillAnswer(s, c, f);
    }
  }

  /** No flush() caller is stranded: in every interleaving, once the drain has finished or was given
      up, a caller still waiting has its answer, or the drain's exit is about to sweep it, or the stop
      call that gave the drain up is, or the drain holds its marker and answers it in its next steps. */
  lemma {:induction false} EveryWaiterHasAnAnswerer(run: seq<State>, steps: seq<Step>, n: nat, f: FlushId)
    requires IsRun(run, steps) && n < |run| && run[n].ev.settled
    requires f in run[n].flushes && run[n].flushes[f].pc.Waiting? && !run[n].flushes[f].event
    ensures ExitWillAnswer(run[n], f) || exists c :: SweepWillAnswer(run[n], c, f)
  {
    RunInv(run, steps, n);
    RunSettled(run, steps, n);
    WaiterHere(run[n], f);
  }

  // ------------------------------------------------------------------ sweeps end

  function Stage(sweep: Sweep): nat {
    match sweep
    case BeforeTaken => 4
    case SettingTaken(_) => 3
    case BeforeQueue => 2
    case SettingQueue(_) => 1
    case SweepDone => 0
  }

  function Unanswered(sweep: Sweep): nat {
    match sweep
    case SettingTaken(todo) => |todo|
    case SettingQueue(todo) => |todo|
    case _ => 0
  }

  /** Each step of a sweep, the drain's own or a stop call's, moves it to a later stage or leaves one
      waiter fewer to answer, so it ends; and the waiter it picks is answered by that step. */
  lemma {:induction false} SweepAdvances(s: State, sweep: Sweep, pick: FlushId)
    requires SweepMoves(sweep, pick)
    ensures var next := SweepNext(s, sweep, pick);
            Stage(next) < Stage(sweep) || (Stage(next) == Stage(sweep) && Unanswered(next) < Unanswered(sweep))
    ensures (sweep.SettingTaken? || sweep.SettingQueue?) && sweep.todo != {} && pick in s.flushes ==>
              SweepSets(s, sweep, pick)[pick].event
  {
    if (sweep.SettingTaken? || sweep.SettingQueue?) && sweep.todo != {} {
      assert sweep.todo == (sweep.todo - {pick}) + {pick};
    }
  }
}
