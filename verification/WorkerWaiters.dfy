/**
 No flush() caller is stranded: which waiter each of the two sweeps still has to answer, wherever
 its marker is, in every interleaving of the put, the take, the sweeps and the caller's reads.
 */
module WorkerWaiters {
  import opened WorkerModel
  import opened WorkerInvariants

  /** The drain sets finished, then settled, on its way out, and nothing else sets finished. */
  ghost predicate EventsFit(s: State) {
    && (s.ev.finished <==> s.w.at.Settling? || s.w.at.Recording? || s.w.at.Sweeping? || s.w.at.Dead?)
    && (s.w.at.Recording? || s.w.at.Sweeping? || s.w.at.Dead? ==> s.ev.settled)
  }

  /** The caller read _drain_finished as clear after its put, and may now come to wait. */
  predicate PastRead3(pc: FlushPc) {
    pc.Read4? || pc.Read5? || pc.Read6? || pc.Waiting?
  }

  /** Once the exit sweep has snapshot the queue, every such caller whose marker is still queued
      is in the snapshot or answered. */
  ghost predicate ExitCovers(s: State, f: FlushId) {
    (f in s.flushes && PastRead3(s.flushes[f].pc) && !s.flushes[f].event && s.flushes[f].at >= s.q.head)
    ==> match s.w.at
        case Sweeping(_, sweep) =>
          (match sweep
           case SettingQueue(todo) => f in todo
           case SweepDone => false
           case _ => true)
        case Dead(_) => false
        case _ => true
  }

  /** A caller that is about to wait, or waits, unanswered, on a drain that has not finished. */
  predicate OnTheHook(s: State, f: FlushId) {
    && f in s.flushes && (s.flushes[f].pc.Read6? || s.flushes[f].pc.Waiting?)
    && !s.flushes[f].event && !s.ev.finished
  }

  /** The drain holds the marker and will answer it before it emits anything. */
  predicate AnsweredNext(d: Drain, f: FlushId) {
    match d
    case HasMarker(m, _) => m == f
    case Registered(m, sawSettled, _) => m == f && sawSettled
    case _ => false
  }

  /** What an expired stop()'s sweep still owes such a caller. */
  predicate SweepCovers(s: State, sweep: Sweep, f: FlushId)
    requires f in s.flushes
  {
    || AnsweredNext(s.w.at, f)
    || match sweep
       case BeforeTaken => true
       case SettingTaken(todo) => f in todo || s.flushes[f].at >= s.q.head
       case BeforeQueue => s.flushes[f].at >= s.q.head
       case SettingQueue(todo) => f in todo
       case SweepDone => false
  }

  /** The sweep an expired stop has reached. */
  predicate Expired(pc: StopPc) {
    (pc.Releasing? || pc.StopDone?) && pc.expired
  }

  function SweepOf(pc: StopPc): Sweep
    requires Expired(pc)
  {
    if pc.Releasing? then pc.sweep else SweepDone
  }

  ghost predicate StopCovers(s: State, c: StopId, f: FlushId) {
    c in s.stops.calls && Expired(s.stops.calls[c].pc) ==>
      && s.ev.settled
      && (OnTheHook(s, f) ==> SweepCovers(s, SweepOf(s.stops.calls[c].pc), f))
  }

  ghost predicate WaitInv(s: State) {
    && EventsFit(s)
    && (forall f {:trigger ExitCovers(s, f)} :: ExitCovers(s, f))
    && (forall c, f {:trigger StopCovers(s, c, f)} :: StopCovers(s, c, f))
  }

  // ------------------------------------------------------------------ the drain's steps

  lemma {:induction false} WaitLoop(s: State, c: DrainChoice, s': State)
    requires LogInv(s) && HandInv(s) && WaitInv(s) && LoopStep(s, c) == To(s')
    ensures WaitInv(s')
  {
    forall f: FlushId ensures ExitCovers(s', f) { assert ExitCovers(s, f); }
    forall d: StopId, f: FlushId ensures StopCovers(s', d, f) {
      assert StopCovers(s, d, f);
      if s.q.head < |s.q.log| && f in s.flushes { assert FlushPlaced(s, f); assert SlotOwned(s, s.q.head); }
    }
  }

  /** A drain step that answers nobody's marker but its own and takes nothing out. */
  lemma {:induction false} WaitDrain(s: State, s': State)
    requires WaitInv(s) && EventsFit(s') && s'.q == s.q && s'.stops == s.stops
    requires AllEvolve(s, s') && SamePcs(s.flushes, s'.flushes)
    requires s.ev.settled ==> s'.ev.settled
    requires !s'.ev.finished ==> !s.w.at.HasMarker? && !s.w.at.Registered?
    requires s.ev.finished ==> s'.ev.finished
    requires forall f {:trigger ExitCovers(s', f)} :: ExitCovers(s', f)
    ensures WaitInv(s')
  {
    forall d: StopId, f: FlushId ensures StopCovers(s', d, f) {
      assert StopCovers(s, d, f) && Evolves(s, s', f) && SamePc(s.flushes, s'.flushes, f);
    }
  }

  predicate SamePc(a: map<FlushId, Flush>, b: map<FlushId, Flush>, f: FlushId) {
    (f in a <==> f in b) && (f in a ==> a[f].pc == b[f].pc && a[f].at == b[f].at)
  }

  ghost predicate SamePcs(a: map<FlushId, Flush>, b: map<FlushId, Flush>) {
    forall f {:trigger SamePc(a, b, f)} :: SamePc(a, b, f)
  }

  lemma {:induction false} WaitEmit(s: State, c: DrainChoice, s': State)
    requires WaitInv(s) && EmitStep(s, c) == To(s')
    ensures WaitInv(s')
  {
    forall f: FlushId ensures ExitCovers(s', f) { assert ExitCovers(s, f); }
    WaitDrain(s, s');
  }

  lemma {:induction false} WaitAnswer(s: State, s': State)
    requires WaitInv(s) && AnswerStep(s) == To(s')
    ensures WaitInv(s')
  {
    forall f: FlushId ensures ExitCovers(s', f) { assert ExitCovers(s, f); }
    WaitDrain(s, s');
  }

  lemma {:induction false} WaitExit(s: State, c: DrainChoice, s': State)
    requires WaitInv(s) && ExitStep(s, c) == To(s')
    ensures WaitInv(s')
  {
    forall f: FlushId ensures ExitCovers(s', f) { assert ExitCovers(s, f); }
    WaitDrain(s, s');
  }

  // ------------------------------------------------------------------ the callers' steps

  /** A caller comes to wait only on a read that found the drain unfinished, and unsettled. */
  lemma {:induction false} FlushWaits(s: State, g: FlushId, b: bool, e: bool, s': State)
    requires EventsFit(s) && FlushStep(s, g, b, e) == To(s')
    ensures s'.flushes[g].event ==> g in s.flushes && s.flushes[g].event
    ensures PastRead3(s'.flushes[g].pc) ==>
              g in s.flushes && s'.flushes[g].at == s.flushes[g].at && s'.flushes[g].event == s.flushes[g].event
              && (PastRead3(s.flushes[g].pc) || !s.ev.finished)
    ensures OnTheHook(s', g) ==> OnTheHook(s, g) || !s.ev.settled
  {
    FlushFrame(s, g, b, e, s');
    if g in s.flushes { FlushComesToWait(s, s.flushes[g], e); }
  }

  lemma {:induction false} FlushComesToWait(s: State, fl: Flush, e: bool)
    requires EventsFit(s)
    ensures var moved := FlushMoved(s, fl, e);
      && moved.event == fl.event
      && (PastRead3(moved.pc) ==> moved.at == fl.at && (PastRead3(fl.pc) || !s.ev.finished))
      && ((moved.pc.Read6? || moved.pc.Waiting?) && !s.ev.finished ==>
            fl.pc.Read6? || fl.pc.Waiting? || !s.ev.settled)
  {
  }

  lemma {:induction false} WaitFlush(s: State, g: FlushId, b: bool, e: bool, s': State)
    requires WaitInv(s) && FlushStep(s, g, b, e) == To(s')
    ensures WaitInv(s')
  {
    FlushFrame(s, g, b, e, s');
    FlushWaits(s, g, b, e, s');
    forall f: FlushId ensures ExitCovers(s', f) { assert ExitCovers(s, f); }
    forall d: StopId, f: FlushId ensures StopCovers(s', d, f) { assert StopCovers(s, d, f); }
  }

  lemma {:induction false} WaitStop(s: State, c: StopId, e: StopChoice, s': State)
    requires HandInv(s) && WaitInv(s) && StopStep(s, c, e) == To(s')
    ensures WaitInv(s')
  {
    StopFrame(s, c, e, s');
    StopWithdrawsNothing(s, c, e, s');
    forall f: FlushId ensures ExitCovers(s', f) { assert ExitCovers(s, f); }
    forall d: StopId, f: FlushId ensures StopCovers(s', d, f) {
      assert StopCovers(s, d, f);
      if d == c { StopSweeps(s, c, e, s', f); }
    }
  }

  /** A stop's own sweep hands each waiter on from one snapshot to the next. */
  lemma {:induction false} StopSweeps(s: State, c: StopId, e: StopChoice, s': State, f: FlushId)
    requires HandInv(s) && StopCovers(s, c, f) && StopStep(s, c, e) == To(s')
    ensures StopCovers(s', c, f)
  {
    assert LetGoAnswered(s, f);
  }

  lemma {:induction false} WaitKept(s: State, s': State)
    requires WaitInv(s) && s'.w == s.w && s'.ev == s.ev && s'.stops == s.stops && s'.q.head == s.q.head
    requires s'.flushes == s.flushes || exists g: FlushId :: g !in s.flushes && s'.flushes == s.flushes[g := FRESH_FLUSH]
    ensures WaitInv(s')
  {
    forall f: FlushId ensures ExitCovers(s', f) { assert ExitCovers(s, f); }
    forall d: StopId, f: FlushId ensures StopCovers(s', d, f) { assert StopCovers(s, d, f); }
  }
}
