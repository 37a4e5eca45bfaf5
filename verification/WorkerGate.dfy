/**
 The once-only stop gate: who joins, whose deadline stands, and how often the sentinel is put.
 */
module WorkerGate {
  import opened WorkerModel
  import opened WorkerInvariants

  /** Whether the call won the gate, or took an owed join over. */
  predicate Won(pc: StopPc) {
    match pc
    case Retiring => false
    case Claiming => false
    case Losing => false
    case Signalling(won) => won
    case StopDone(won, _) => won
    case _ => true
  }

  /** A winner off the drain thread, which is the one that joins. */
  predicate Joiner(st: Stop) {
    Won(st.pc) && !st.onDrain
  }

  /** A winner on the drain thread, which owes the join. */
  predicate Debtor(st: Stop) {
    Won(st.pc) && st.onDrain
  }

  /** Whether the winner may still put the sentinel. */
  predicate MayPut(st: Stop, g: Gate) {
    match st.pc
    case Signalling(won) => won && (st.onDrain || !g.joinTakenOver)
    case ReadingTakeover => st.onDrain || !g.joinTakenOver
    case ReadingFinished(took) => !took
    case PuttingSentinel => true
    case _ => false
  }

  predicate HasSentinel(log: seq<Item>) {
    Sentinel in log
  }

  /** What one call's progress says about the gate. */
  ghost predicate GateFits(s: State, c: StopId) {
    c in s.stops.calls ==>
      var st := s.stops.calls[c];
      && (Won(st.pc) ==> s.gate.stopped)
      && (Joiner(st) ==> s.gate.exitDeadline == st.deadline && !s.gate.joinOwed)
      && (MayPut(st, s.gate) ==> !HasSentinel(s.q.log))
      && (Joiner(st) && s.gate.joinTakenOver ==> !MayPut(st, s.gate))
      && (st.onDrain ==> !st.pc.Joining? && !st.pc.CheckingJoin? && !st.pc.Expiring? && !st.pc.MarkingSettled?
                         && !st.pc.Releasing? && !(st.pc.StopDone? && st.pc.expired))
      && (st.pc.StopDone? && st.pc.expired ==> st.pc.won)
  }

  /** What two calls' progress say about each other: one joiner, one debtor, and a joiner beside
      a debtor has taken its join over. */
  ghost predicate PairFits(s: State, c: StopId, d: StopId) {
    c in s.stops.calls && d in s.stops.calls && c != d ==>
      var a, b := s.stops.calls[c], s.stops.calls[d];
      && !(Joiner(a) && Joiner(b))
      && !(Debtor(a) && Debtor(b))
      && (Joiner(a) && Debtor(b) ==> s.gate.joinTakenOver)
  }

  /** The sentinels in the put order are at most one. */
  ghost predicate OneSentinel(log: seq<Item>) {
    forall i, j :: 0 <= i < j < |log| ==> !(log[i].Sentinel? && log[j].Sentinel?)
  }

  ghost predicate GateInv(s: State) {
    && (s.gate.joinOwed ==> s.gate.stopped && !s.gate.joinTakenOver)
    && (s.gate.joinTakenOver ==> s.gate.stopped)
    && (HasSentinel(s.q.log) ==> s.gate.stopped)
    && OneSentinel(s.q.log)
    && (forall c {:trigger GateFits(s, c)} :: GateFits(s, c))
    && (forall c, d {:trigger PairFits(s, c, d)} :: PairFits(s, c, d))
  }

  lemma {:induction false} GateKept(s: State, s': State)
    requires GateInv(s) && s'.gate == s.gate && s'.stops.calls == s.stops.calls
    requires s'.q.log == s.q.log || exists x: Item :: !x.Sentinel? && s'.q.log == s.q.log + [x]
    ensures GateInv(s')
  {
    forall c: StopId ensures GateFits(s', c) { assert GateFits(s, c); }
    forall c: StopId, d: StopId ensures PairFits(s', c, d) { assert PairFits(s, c, d); }
  }

  /** The step of call c as the gate sees it: the claim, and everything else. */
  lemma {:induction false} GateClaims(s: State, c: StopId, e: StopChoice, s': State)
    requires GateInv(s) && c in s.stops.calls && s.stops.calls[c].pc.Claiming? && StopStep(s, c, e) == To(s')
    ensures GateFits(s', c)
  {
  }

  lemma {:induction false} GateMoves(s: State, c: StopId, e: StopChoice, s': State)
    requires GateFits(s, c) && StopStep(s, c, e) == To(s')
    requires c in s.stops.calls ==> !s.stops.calls[c].pc.Claiming?
    ensures GateFits(s', c)
  {
  }

  /** Any other call sees the gate change only when c wins it, and then it has not won. */
  lemma {:induction false} GateOther(s: State, c: StopId, e: StopChoice, s': State, d: StopId)
    requires GateInv(s) && StopStep(s, c, e) == To(s') && d != c
    ensures GateFits(s', d)
  {
    StopFrame(s, c, e, s');
    assert GateFits(s, c) && GateFits(s, d) && PairFits(s, c, d) && PairFits(s, d, c);
  }

  lemma {:induction false} GatePair(s: State, c: StopId, e: StopChoice, s': State, d: StopId)
    requires GateInv(s) && StopStep(s, c, e) == To(s') && d != c
    ensures PairFits(s', c, d) && PairFits(s', d, c)
  {
    StopFrame(s, c, e, s');
    assert GateFits(s, c) && GateFits(s, d) && PairFits(s, c, d) && PairFits(s, d, c);
  }

  lemma {:induction false} GateStop(s: State, c: StopId, e: StopChoice, s': State)
    requires GateInv(s) && StopStep(s, c, e) == To(s')
    ensures GateInv(s')
  {
    assert GateFits(s, c);
    StopFrame(s, c, e, s');
    if c in s.stops.calls && s.stops.calls[c].pc.Claiming? { GateClaims(s, c, e, s'); } else { GateMoves(s, c, e, s'); }
    forall d: StopId ensures GateFits(s', d) { if d != c { GateOther(s, c, e, s', d); } }
    forall d1: StopId, d2: StopId ensures PairFits(s', d1, d2) {
      if d1 != d2 {
        if d1 == c { GatePair(s, c, e, s', d2); }
        else if d2 == c { GatePair(s, c, e, s', d1); }
        else {
          assert PairFits(s, d1, d2);
          assert s.gate.joinTakenOver ==> s'.gate.joinTakenOver;
        }
      }
    }
  }
}
