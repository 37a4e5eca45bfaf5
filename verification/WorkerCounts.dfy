/**
 The two submission counters, and the promise of submitted_after_shutdown: behind a drain that a
 shutdown() ended cleanly, every submission left in the queue was counted, once.
 */
module WorkerCounts {
  import opened WorkerModel
  import opened WorkerInvariants

  /** Whether a call has moved submitted_after_shutdown. */
  predicate Counted(sub: Sub) {
    sub.sawRetired && !sub.pc.CountingFirst? && !sub.pc.CountingLate?
  }

  /** What a call has seen of the shutdown fits where it is. */
  predicate SawFits(sub: Sub, retired: bool) {
    && (sub.sawRetired ==> retired)
    && (sub.pc.Entered? || sub.pc.Rechecking? ==> !sub.sawRetired)
    && (sub.pc.CountingFirst? || sub.pc.CountingLate? ==> sub.sawRetired)
  }

  /** Each counter counted a call exactly when the call's own progress says it did, and once. */
  ghost predicate CountedOnce(s: State, x: SubId) {
    if x in s.subs.calls then
      var sub := s.subs.calls[x];
      && multiset(s.subs.afterShutdown)[x] == (if Counted(sub) then 1 else 0)
      && multiset(s.subs.dropped)[x] == (if sub.pc.DroppedOut? then 1 else 0)
      && SawFits(sub, s.ev.retired)
    else
      multiset(s.subs.afterShutdown)[x] == 0 && multiset(s.subs.dropped)[x] == 0
  }

  ghost predicate CountInv(s: State) {
    forall x {:trigger CountedOnce(s, x)} :: CountedOnce(s, x)
  }

  lemma {:induction false} CountSelf(s: State, x: SubId, e: nat, s': State)
    requires CountedOnce(s, x) && SubmitStep(s, x, e) == To(s')
    ensures CountedOnce(s', x)
  {
  }

  lemma {:induction false} CountSubmit(s: State, x: SubId, e: nat, s': State)
    requires CountInv(s) && SubmitStep(s, x, e) == To(s')
    ensures CountInv(s')
  {
    SubmitFrame(s, x, e, s');
    assert CountedOnce(s, x);
    CountSelf(s, x, e, s');
    forall y: SubId ensures CountedOnce(s', y) {
      if y != x { assert CountedOnce(s, y); }
    }
  }

  lemma {:induction false} CountKept(s: State, s': State)
    requires CountInv(s) && s'.subs == s.subs && (s.ev.retired ==> s'.ev.retired)
    ensures CountInv(s')
  {
    forall y: SubId ensures CountedOnce(s', y) { assert CountedOnce(s, y); }
  }

  // ------------------------------------------------------------------ shutdown before the exit

  /** Whether the drain left its main loop to exit, rather than by a crash. */
  predicate Leaving(d: Drain) {
    match d
    case AtFinalGet(_) => true
    case HasMarker(_, loop) => loop.FinalLoop?
    case Registered(_, _, loop) => loop.FinalLoop?
    case _ => PastLastRead(d)
  }

  /** Whether the exit drain has read the queue for the last time. */
  predicate PastLastRead(d: Drain) {
    match d
    case EmitStart(why) => why.OnExit?
    case Attempting(why, _) => why.OnExit?
    case Inside(why, _) => why.OnExit?
    case Backoff(why, _) => why.OnExit?
    case Abandoning(why) => why.OnExit?
    case Judging(why, _) => why.OnExit?
    case Writing(why, _, _) => why.OnExit?
    case Answering(why, _, _) => why.OnExit?
    case LettingGo(why, _, _) => why.OnExit?
    case Finishing(crashed) => !crashed
    case Settling(crashed) => !crashed
    case Sweeping(crashed, _) => !crashed
    case Dead(crashed) => !crashed
    case _ => false
  }

  ghost predicate StopRetired(s: State, c: StopId) {
    c in s.stops.calls ==>
      var st := s.stops.calls[c];
      && (st.viaShutdown && !st.pc.Retiring? ==> s.ev.retired)
      && (!s.ev.directStop && !st.pc.Retiring? && !st.pc.Claiming? ==> st.viaShutdown)
  }

  /** While every stop came through shutdown(), nothing that ends the drain precedes the move of
      the retirement count. */
  ghost predicate RetireInv(s: State) {
    && (forall c {:trigger StopRetired(s, c)} :: StopRetired(s, c))
    && (!s.ev.directStop && s.ev.stop ==> s.ev.retired)
    && (!s.ev.directStop && Leaving(s.w.at) ==> s.ev.retired)
    && (forall i :: 0 <= i < |s.q.log| && s.q.log[i].Sentinel? && !s.ev.directStop ==> s.ev.retired)
  }

  lemma {:induction false} RetireKept(s: State, s': State)
    requires RetireInv(s) && s'.stops == s.stops && s'.ev == s.ev && s'.w.at == s.w.at
    requires s'.q.log == s.q.log || exists x :: s'.q.log == s.q.log + [x] && !x.Sentinel?
    ensures RetireInv(s')
  {
    forall c: StopId ensures StopRetired(s', c) { assert StopRetired(s, c); }
  }

  lemma {:induction false} RetireStop(s: State, c: StopId, e: StopChoice, s': State)
    requires RetireInv(s) && StopStep(s, c, e) == To(s')
    ensures RetireInv(s')
  {
    assert StopRetired(s, c);
    StopFrame(s, c, e, s');
    StopRetires(s, c, e, s');
    forall d: StopId ensures StopRetired(s', d) {
      if d != c { assert StopRetired(s, d); }
    }
    StopSignals(s, c, e, s');
  }

  lemma {:induction false} StopRetires(s: State, c: StopId, e: StopChoice, s': State)
    requires StopRetired(s, c) && StopStep(s, c, e) == To(s')
    ensures StopRetired(s', c)
  {
  }

  /** A stop that came through shutdown() raises no signal before the count has moved. */
  lemma {:induction false} StopSignals(s: State, c: StopId, e: StopChoice, s': State)
    requires StopRetired(s, c) && StopStep(s, c, e) == To(s')
    ensures s'.w == s.w && (s.ev.retired ==> s'.ev.retired) && (s.ev.directStop ==> s'.ev.directStop)
    ensures s'.ev.stop && !s.ev.stop && !s'.ev.directStop ==> s'.ev.retired
    ensures s'.q.log == s.q.log || (s'.q.log == s.q.log + [Sentinel] && (!s'.ev.directStop ==> s'.ev.retired))
  {
  }

  lemma {:induction false} RetireLoop(s: State, c: DrainChoice, s': State)
    requires RetireInv(s) && LoopStep(s, c) == To(s')
    ensures RetireInv(s')
  {
    forall d: StopId ensures StopRetired(s', d) { assert StopRetired(s, d); }
  }

  /** Past the loop, the drain only moves along the same exit, or crashes out of it. */
  ghost predicate StaysLeaving(s: State, s': State) {
    && (Leaving(s'.w.at) ==> PastLastRead(s.w.at))
    && (PastLastRead(s'.w.at) ==> PastLastRead(s.w.at))
    && s'.q == s.q && s'.subs == s.subs && s'.stops == s.stops
    && s'.ev == s.ev.(finished := s'.ev.finished, settled := s'.ev.settled)
  }

  lemma {:induction false} LeavingEmit(s: State, c: DrainChoice, s': State)
    requires EmitStep(s, c) == To(s')
    ensures StaysLeaving(s, s')
  {
  }

  lemma {:induction false} LeavingAnswer(s: State, s': State)
    requires AnswerStep(s) == To(s')
    ensures StaysLeaving(s, s')
  {
  }

  lemma {:induction false} LeavingExit(s: State, c: DrainChoice, s': State)
    requires ExitStep(s, c) == To(s')
    ensures StaysLeaving(s, s')
  {
  }

  lemma {:induction false} RetireLeaves(s: State, s': State)
    requires RetireInv(s) && StaysLeaving(s, s')
    ensures RetireInv(s')
  {
    forall d: StopId ensures StopRetired(s', d) { assert StopRetired(s, d); }
  }

  // ------------------------------------------------------------------ nothing stranded uncounted

  ghost predicate NotStranded(s: State, x: SubId) {
    (x in s.subs.calls && s.subs.calls[x].pc.Returned? && !s.subs.calls[x].sawRetired
     && !s.ev.directStop && PastLastRead(s.w.at))
    ==> s.subs.calls[x].at < s.q.head
  }

  ghost predicate StrandInv(s: State) {
    forall x {:trigger NotStranded(s, x)} :: NotStranded(s, x)
  }

  lemma {:induction false} StrandSubmit(s: State, x: SubId, e: nat, s': State)
    requires CountInv(s) && RetireInv(s) && StrandInv(s) && SubmitStep(s, x, e) == To(s')
    ensures StrandInv(s')
  {
    assert CountedOnce(s, x);
    forall y: SubId ensures NotStranded(s', y) { assert NotStranded(s, y); }
  }

  lemma {:induction false} StrandLoop(s: State, c: DrainChoice, s': State)
    requires LogInv(s) && StrandInv(s) && LoopStep(s, c) == To(s')
    ensures StrandInv(s')
  {
    forall y: SubId ensures NotStranded(s', y) { assert NotStranded(s, y); assert SubPlaced(s, y); }
  }

  lemma {:induction false} StrandKept(s: State, s': State)
    requires StrandInv(s) && s'.subs == s.subs && s'.q.head == s.q.head
    requires PastLastRead(s'.w.at) ==> PastLastRead(s.w.at)
    requires s.ev.directStop ==> s'.ev.directStop
    ensures StrandInv(s')
  {
    forall y: SubId ensures NotStranded(s', y) { assert NotStranded(s, y); }
  }
}
