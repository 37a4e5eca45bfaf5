/**
 What every step of the worker protocol keeps. Each section states one invariant and proves
 that no step of any thread breaks it; WorkerTheorems draws the run-level conclusions.
 */
module WorkerInvariants {
  import opened WorkerModel

  // ------------------------------------------------------------------ the put order

  ghost predicate SubPlaced(s: State, x: SubId) {
    x in s.subs.calls && IsQueued(s.subs.calls[x].pc) ==>
      s.subs.calls[x].at < |s.q.log| && s.q.log[s.subs.calls[x].at] == Submission(x)
  }

  ghost predicate FlushPlaced(s: State, f: FlushId) {
    f in s.flushes && WasPut(s.flushes[f].pc) ==>
      s.flushes[f].at < |s.q.log| && s.q.log[s.flushes[f].at] == Marker(f)
  }

  ghost predicate SlotOwned(s: State, i: nat) {
    i < |s.q.log| ==>
      match s.q.log[i]
      case Submission(x) => x in s.subs.calls && IsQueued(s.subs.calls[x].pc) && s.subs.calls[x].at == i
      case Marker(f) => f in s.flushes && WasPut(s.flushes[f].pc) && s.flushes[f].at == i
      case Sentinel => true
  }

  /** The put order and the callers agree on who was put, and where; so nothing is put twice. */
  ghost predicate LogInv(s: State) {
    && s.q.head <= |s.q.log|
    && (forall x {:trigger SubPlaced(s, x)} :: SubPlaced(s, x))
    && (forall f {:trigger FlushPlaced(s, f)} :: FlushPlaced(s, f))
    && (forall i {:trigger SlotOwned(s, i)} :: SlotOwned(s, i))
  }

  /** A step that changes no caller's place in the put order keeps it. */
  lemma {:induction false} LogKept(s: State, s': State)
    requires LogInv(s)
    requires s'.q.log == s.q.log && s'.q.head <= |s.q.log| && s'.subs.calls == s.subs.calls
    requires SamePlaces(s.flushes, s'.flushes)
    ensures LogInv(s')
  {
    forall x: SubId ensures SubPlaced(s', x) { assert SubPlaced(s, x); }
    forall f: FlushId ensures FlushPlaced(s', f) { assert FlushPlaced(s, f); assert SamePlace(s.flushes, s'.flushes, f); }
    forall i: nat ensures SlotOwned(s', i) {
      assert SlotOwned(s, i);
      if i < |s.q.log| && s.q.log[i].Marker? { assert SamePlace(s.flushes, s'.flushes, s.q.log[i].flush); }
    }
  }

  /** A call keeps its place: it is known and put after exactly when it was before. */
  predicate SamePlace(a: map<FlushId, Flush>, b: map<FlushId, Flush>, f: FlushId) {
    && (f in a ==> f in b && WasPut(a[f].pc) == WasPut(b[f].pc) && a[f].at == b[f].at)
    && (f in b && f !in a ==> !WasPut(b[f].pc))
  }

  ghost predicate SamePlaces(a: map<FlushId, Flush>, b: map<FlushId, Flush>) {
    forall f {:trigger SamePlace(a, b, f)} :: SamePlace(a, b, f)
  }

  lemma {:induction false} LogSubmit(s: State, x: SubId, e: nat, s': State)
    requires LogInv(s) && SubmitStep(s, x, e) == To(s')
    ensures LogInv(s')
  {
    forall i: nat ensures SlotOwned(s', i) { assert SlotOwned(s, i); }
    forall y: SubId ensures SubPlaced(s', y) { assert SubPlaced(s, y); }
    forall f: FlushId ensures FlushPlaced(s', f) { assert FlushPlaced(s, f); }
  }

  lemma {:induction false} LogFlush(s: State, g: FlushId, b: bool, e: bool, s': State)
    requires LogInv(s) && FlushStep(s, g, b, e) == To(s')
    ensures LogInv(s')
  {
    forall i: nat ensures SlotOwned(s', i) { assert SlotOwned(s, i); }
    forall y: SubId ensures SubPlaced(s', y) { assert SubPlaced(s, y); }
    forall f: FlushId ensures FlushPlaced(s', f) { assert FlushPlaced(s, f); }
  }

  lemma {:induction false} LogLoop(s: State, c: DrainChoice, s': State)
    requires LogInv(s) && LoopStep(s, c) == To(s')
    ensures LogInv(s')
  {
    LogKept(s, s');
  }

  lemma {:induction false} LogEmit(s: State, c: DrainChoice, s': State)
    requires LogInv(s) && EmitStep(s, c) == To(s')
    ensures LogInv(s')
  {
    LogKept(s, s');
  }

  lemma {:induction false} LogAnswer(s: State, s': State)
    requires LogInv(s) && AnswerStep(s) == To(s')
    ensures LogInv(s')
  {
    LogKept(s, s');
  }

  lemma {:induction false} LogExit(s: State, c: DrainChoice, s': State)
    requires LogInv(s) && ExitStep(s, c) == To(s')
    ensures LogInv(s')
  {
    LogKept(s, s');
  }

  lemma {:induction false} LogStop(s: State, c: StopId, e: StopChoice, s': State)
    requires LogInv(s) && StopStep(s, c, e) == To(s')
    ensures LogInv(s')
  {
    if s'.q == s.q {
      LogKept(s, s');
    } else {
      forall x: SubId ensures SubPlaced(s', x) { assert SubPlaced(s, x); }
      forall f: FlushId ensures FlushPlaced(s', f) { assert FlushPlaced(s, f); }
      forall i: nat ensures SlotOwned(s', i) { assert SlotOwned(s, i); }
    }
  }

  lemma {:induction false} LogSwap(s: State, x: Sink, g: FlushId, s': State)
    requires LogInv(s) && SwapStep(s, x, g) == To(s')
    ensures LogInv(s')
  {
    LogKept(s, s');
  }

  // ------------------------------------------------------------------ the markers in hand

  /** The markers the drain has taken out and not yet let go of, in the order it took them. */
  function Hand(d: Drain): seq<FlushId> {
    match d
    case HasMarker(m, loop) => if loop.MainLoop? then [m] else loop.markers + [m]
    case Registered(m, _, loop) => if loop.MainLoop? then [m] else loop.markers + [m]
    case AtFinalGet(ms) => ms
    case EmitStart(why) => Marks(why)
    case Attempting(why, _) => Marks(why)
    case Inside(why, _) => Marks(why)
    case Backoff(why, _) => Marks(why)
    case Abandoning(why) => Marks(why)
    case Judging(why, _) => Marks(why)
    case Writing(why, _, _) => Marks(why)
    case Answering(why, i, _) => if i <= |Marks(why)| then Marks(why)[i..] else []
    case LettingGo(why, i, _) => if i <= |Marks(why)| then Marks(why)[i..] else []
    case _ => []
  }

  predicate MarkIndexed(d: Drain) {
    match d
    case Judging(why, i) => i < |Marks(why)|
    case Writing(why, i, _) => i < |Marks(why)|
    case Answering(why, i, _) => i < |Marks(why)|
    case LettingGo(why, i, _) => i < |Marks(why)|
    case _ => true
  }

  /** Whether f's marker was taken out of the queue. */
  predicate TakenOut(s: State, f: FlushId) {
    f in s.flushes && WasPut(s.flushes[f].pc) && s.flushes[f].at < s.q.head
  }

  /** Whether f's marker is the one in hand that is not registered yet. */
  predicate Unregistered(d: Drain, f: FlushId) {
    d.HasMarker? && d.m == f
  }

  ghost predicate Increasing(s: State, hand: seq<FlushId>) {
    && (forall i :: 0 <= i < |hand| ==> TakenOut(s, hand[i]))
    && (forall i, j :: 0 <= i < j < |hand| ==> s.flushes[hand[i]].at < s.flushes[hand[j]].at)
  }

  ghost predicate LetGoAnswered(s: State, f: FlushId) {
    TakenOut(s, f) && f !in s.w.taken && !Unregistered(s.w.at, f) ==> s.flushes[f].event
  }

  ghost predicate TakenIsHand(s: State, f: FlushId) {
    f in s.w.taken <==> f in Hand(s.w.at) && !Unregistered(s.w.at, f)
  }

  /** The taken record is exactly the registered markers in hand, and a marker the drain has
      let go of has been answered. */
  ghost predicate HandInv(s: State) {
    && MarkIndexed(s.w.at)
    && Increasing(s, Hand(s.w.at))
    && (forall f {:trigger TakenIsHand(s, f)} :: TakenIsHand(s, f))
    && (forall f {:trigger LetGoAnswered(s, f)} :: LetGoAnswered(s, f))
    && (s.w.at.LettingGo? ==> s.flushes[Marks(s.w.at.why)[s.w.at.i]].event)
  }

  /** What a step of any other thread does to a flush call: a marker put stays put where it was,
      an answer is never withdrawn, and a marker newly put is past everything taken out. */
  ghost predicate Evolves(s: State, s': State, f: FlushId) {
    && (f in s.flushes ==> f in s'.flushes && (s.flushes[f].event ==> s'.flushes[f].event))
    && (f in s.flushes && WasPut(s.flushes[f].pc) ==>
          && WasPut(s'.flushes[f].pc) && s'.flushes[f].at == s.flushes[f].at
          && s'.flushes[f].seen == s.flushes[f].seen)
    && (f in s'.flushes && WasPut(s'.flushes[f].pc) && !(f in s.flushes && WasPut(s.flushes[f].pc)) ==>
          s'.flushes[f].at >= s.q.head)
  }

  ghost predicate AllEvolve(s: State, s': State) {
    forall f {:trigger Evolves(s, s', f)} :: Evolves(s, s', f)
  }

  lemma {:induction false} HandKept(s: State, s': State)
    requires HandInv(s) && s'.w.at == s.w.at && s'.w.taken == s.w.taken && s'.q.head == s.q.head
    requires AllEvolve(s, s')
    ensures HandInv(s')
  {
    var hand := Hand(s.w.at);
    forall i | 0 <= i < |hand|
      ensures TakenOut(s', hand[i]) && s'.flushes[hand[i]].at == s.flushes[hand[i]].at
      ensures s.flushes[hand[i]].event ==> s'.flushes[hand[i]].event
    {
      assert TakenOut(s, hand[i]) && Evolves(s, s', hand[i]);
    }
    forall f: FlushId ensures TakenIsHand(s', f) { assert TakenIsHand(s, f); }
    forall f: FlushId ensures LetGoAnswered(s', f) { assert LetGoAnswered(s, f); assert Evolves(s, s', f); }
    if s.w.at.LettingGo? { assert hand[0] == Marks(s.w.at.why)[s.w.at.i]; }
  }

  /** A move of the drain that takes nothing out and lets go of nothing keeps the record. */
  lemma {:induction false} HandMoved(s: State, s': State)
    requires HandInv(s) && Hand(s'.w.at) == Hand(s.w.at) && s'.w.taken == s.w.taken && s'.q.head == s.q.head
    requires AllEvolve(s, s') && MarkIndexed(s'.w.at) && !s.w.at.HasMarker? && !s'.w.at.HasMarker?
    requires s'.w.at.LettingGo? ==>
               var m := Marks(s'.w.at.why)[s'.w.at.i]; m in s'.flushes && s'.flushes[m].event
    ensures HandInv(s')
  {
    var hand := Hand(s.w.at);
    forall i | 0 <= i < |hand|
      ensures TakenOut(s', hand[i]) && s'.flushes[hand[i]].at == s.flushes[hand[i]].at
    {
      assert TakenOut(s, hand[i]) && Evolves(s, s', hand[i]);
    }
    forall f: FlushId ensures TakenIsHand(s', f) { assert TakenIsHand(s, f); }
    forall f: FlushId ensures LetGoAnswered(s', f) { assert LetGoAnswered(s, f); assert Evolves(s, s', f); }
  }

  /** The drain takes the head of the queue out. */
  lemma {:induction false} HandTakes(s: State, c: DrainChoice, s': State)
    requires LogInv(s) && HandInv(s) && LoopStep(s, c) == To(s')
    requires s.w.at.AtGet? || s.w.at.AtFinalGet?
    ensures HandInv(s')
  {
    assert SlotOwned(s, s.q.head);
    forall f: FlushId ensures TakenIsHand(s', f) { assert TakenIsHand(s, f); }
    forall f: FlushId ensures LetGoAnswered(s', f) {
      assert LetGoAnswered(s, f); assert FlushPlaced(s, f); assert TakenIsHand(s, f);
    }
  }

  lemma {:induction false} HandLoop(s: State, c: DrainChoice, s': State)
    requires LogInv(s) && HandInv(s) && LoopStep(s, c) == To(s')
    ensures HandInv(s')
  {
    match s.w.at
    case AtTop => HandMoved(s, s');
    case Deciding => HandMoved(s, s');
    case HasMarker(m, loop) =>
      forall f: FlushId ensures TakenIsHand(s', f) { assert TakenIsHand(s, f); }
      forall f: FlushId ensures LetGoAnswered(s', f) { assert LetGoAnswered(s, f); }
    case Registered(m, sawSettled, loop) =>
      forall f: FlushId ensures TakenIsHand(s', f) { assert TakenIsHand(s, f); }
      forall f: FlushId ensures LetGoAnswered(s', f) { assert LetGoAnswered(s, f); }
    case _ => HandTakes(s, c, s');
  }

  lemma {:induction false} HandEmit(s: State, c: DrainChoice, s': State)
    requires HandInv(s) && EmitStep(s, c) == To(s')
    ensures HandInv(s')
  {
    assert Marks(s.w.at.why)[0..] == Marks(s.w.at.why);
    HandMoved(s, s');
  }

  lemma {:induction false} HandAnswer(s: State, s': State)
    requires HandInv(s) && AnswerStep(s) == To(s')
    ensures HandInv(s')
  {
    if s.w.at.LettingGo? {
      HandLetsGo(s, s');
    } else {
      EvolveAnswer(s, s');
      HandInHand(s, s');
      HandMoved(s, s');
    }
  }

  /** Judging and answering a marker leave it in hand. */
  lemma {:induction false} HandInHand(s: State, s': State)
    requires HandInv(s) && AnswerStep(s) == To(s') && !s.w.at.LettingGo?
    ensures Hand(s'.w.at) == Hand(s.w.at) && s'.w.taken == s.w.taken && s'.q == s.q && MarkIndexed(s'.w.at)
    ensures s'.w.at.LettingGo? ==>
              var m := Marks(s'.w.at.why)[s'.w.at.i]; m in s'.flushes && s'.flushes[m].event
  {
    var marks, i := Marks(s.w.at.why), s.w.at.i;
    assert marks[0..] == marks;
    if s.w.at.Answering? {
      assert Hand(s.w.at)[0] == marks[i];
      assert TakenOut(s, Hand(s.w.at)[0]);
    }
  }

  lemma {:induction false} EvolveAnswer(s: State, s': State)
    requires AnswerStep(s) == To(s')
    ensures AllEvolve(s, s')
  {
  }

  /** Letting go of a marker takes the first one out of the hand. */
  lemma {:induction false} LetGoFirst(s: State, s': State)
    requires HandInv(s) && s.w.at.LettingGo? && AnswerStep(s) == To(s')
    ensures Hand(s.w.at) == [Marks(s.w.at.why)[s.w.at.i]] + Hand(s'.w.at)
    ensures MarkIndexed(s'.w.at) && !s'.w.at.HasMarker? && !s'.w.at.LettingGo?
    ensures s'.flushes == s.flushes && s'.q == s.q && s'.w.taken == s.w.taken - {Marks(s.w.at.why)[s.w.at.i]}
  {
    var marks, i := Marks(s.w.at.why), s.w.at.i;
    assert marks[i..] == [marks[i]] + marks[i + 1..];
  }

  /** The marker let go of leaves the record, and is answered. */
  lemma {:induction false} LetGoRecord(s: State, s': State, f: FlushId)
    requires HandInv(s) && s.w.at.LettingGo? && AnswerStep(s) == To(s')
    ensures TakenIsHand(s', f) && LetGoAnswered(s', f)
  {
    LetGoFirst(s, s');
    var m, hand := Marks(s.w.at.why)[s.w.at.i], Hand(s.w.at);
    assert hand[0] == m && hand[1..] == Hand(s'.w.at);
    assert TakenIsHand(s, f) && LetGoAnswered(s, f);
    FirstIsLast(s, hand, f);
  }

  lemma {:induction false} HandLetsGo(s: State, s': State)
    requires HandInv(s) && s.w.at.LettingGo? && AnswerStep(s) == To(s')
    ensures HandInv(s')
  {
    LetGoFirst(s, s');
    assert Hand(s'.w.at) == Hand(s.w.at)[1..];
    IncreasingRest(s, s', Hand(s.w.at));
    forall f: FlushId ensures TakenIsHand(s', f) && LetGoAnswered(s', f) { LetGoRecord(s, s', f); }
  }

  lemma {:induction false} IncreasingRest(s: State, s': State, hand: seq<FlushId>)
    requires Increasing(s, hand) && hand != [] && s'.flushes == s.flushes && s'.q == s.q
    ensures Increasing(s', hand[1..])
  {
    var rest := hand[1..];
    forall i | 0 <= i < |rest| ensures TakenOut(s', rest[i]) { assert TakenOut(s, hand[i + 1]); }
    forall i, j | 0 <= i < j < |rest| ensures s'.flushes[rest[i]].at < s'.flushes[rest[j]].at {
      assert rest[i] == hand[i + 1] && rest[j] == hand[j + 1];
    }
  }

  /** The first marker in hand is in it once. */
  lemma {:induction false} FirstIsLast(s: State, hand: seq<FlushId>, f: FlushId)
    requires Increasing(s, hand) && hand != []
    ensures f in hand[1..] <==> f in hand && f != hand[0]
  {
    if f in hand[1..] {
      var k :| 0 <= k < |hand[1..]| && hand[1..][k] == f;
      assert s.flushes[hand[0]].at < s.flushes[hand[k + 1]].at;
    }
  }

  lemma {:induction false} HandExit(s: State, c: DrainChoice, s': State)
    requires HandInv(s) && ExitStep(s, c) == To(s')
    ensures HandInv(s')
  {
    forall f: FlushId ensures TakenIsHand(s', f) { assert TakenIsHand(s, f); }
    forall f: FlushId ensures LetGoAnswered(s', f) { assert LetGoAnswered(s, f); }
  }

  lemma {:induction false} EvolveFlush(s: State, g: FlushId, b: bool, e: bool, s': State)
    requires LogInv(s) && FlushStep(s, g, b, e) == To(s')
    ensures AllEvolve(s, s') && s'.w == s.w && s'.q.head == s.q.head
  {
  }

  lemma {:induction false} EvolveStop(s: State, c: StopId, e: StopChoice, s': State)
    requires LogInv(s) && StopStep(s, c, e) == To(s')
    ensures AllEvolve(s, s') && s'.w == s.w && s'.q.head == s.q.head
  {
  }

  lemma {:induction false} EvolveSwap(s: State, x: Sink, g: FlushId, s': State)
    requires LogInv(s) && SwapStep(s, x, g) == To(s')
    ensures AllEvolve(s, s') && s'.w == s.w && s'.q == s.q
  {
  }

  // ------------------------------------------------------------------ frames

  /** A stop() step moves its own call and no other, and never the drain. */
  lemma {:induction false} StopFrame(s: State, c: StopId, e: StopChoice, s': State)
    requires StopStep(s, c, e) == To(s')
    ensures c in s'.stops.calls && s'.stops.calls == s.stops.calls[c := s'.stops.calls[c]]
    ensures s'.w == s.w && s'.subs == s.subs && s'.target == s.target && s'.limits == s.limits
  {
    StopMovesCall(s, c, e, s');
  }

  lemma {:induction false} StopMovesCall(s: State, c: StopId, e: StopChoice, s': State)
    requires StopStep(s, c, e) == To(s')
    ensures c in s'.stops.calls
    ensures forall d :: d in s'.stops.calls <==> d == c || d in s.stops.calls
    ensures forall d :: d in s.stops.calls && d != c ==> s'.stops.calls[d] == s.stops.calls[d]
  {
  }

  /** A stop() step takes nothing out of the queue and withdraws no event. */
  lemma {:induction false} StopWithdrawsNothing(s: State, c: StopId, e: StopChoice, s': State)
    requires StopStep(s, c, e) == To(s')
    ensures s'.q.head == s.q.head && s'.ev.finished == s.ev.finished
    ensures s.ev.settled ==> s'.ev.settled
  {
  }

  /** A submit() step moves its own call and no other. */
  lemma {:induction false} SubmitFrame(s: State, x: SubId, e: nat, s': State)
    requires SubmitStep(s, x, e) == To(s')
    ensures x in s'.subs.calls && s'.subs.calls == s.subs.calls[x := s'.subs.calls[x]]
    ensures s' == s.(subs := s'.subs, q := s'.q) && s'.q.head == s.q.head
    ensures s'.q.log == s.q.log || s'.q.log == s.q.log + [Submission(x)]
    ensures s'.subs.afterShutdown == s.subs.afterShutdown || s'.subs.afterShutdown == s.subs.afterShutdown + [x]
    ensures s'.subs.dropped == s.subs.dropped || s'.subs.dropped == s.subs.dropped + [x]
  {
  }

  /** A flush() step moves its own call and no other. */
  lemma {:induction false} FlushFrame(s: State, f: FlushId, b: bool, e: bool, s': State)
    requires FlushStep(s, f, b, e) == To(s')
    ensures f in s'.flushes && s'.flushes == s.flushes[f := s'.flushes[f]]
    ensures s' == s.(flushes := s'.flushes, q := s'.q) && s'.q.head == s.q.head
    ensures s'.q.log == s.q.log || s'.q.log == s.q.log + [Marker(f)]
  {
  }
}
