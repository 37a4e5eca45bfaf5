/**
 The sink the drain thread is inside is one the worker holds, or the one a retarget has just pointed
 it at, across any run of swaps taken one at a time; and the small worker the lifecycle owner reasons about is an abstraction of this one.
 */
module WorkerTarget {
  import opened WorkerModel
  import opened WorkerInvariants
  import opened WorkerDelivery
  import A = WorkerView

  /** The swap's fence: once its second marker was taken out, the thread can only be inside the
      new sink. */
  ghost predicate SwapFits(s: State) {
    var t := s.target;
    match t.swap
    case SwapCommitted(x, _) => t.sink != x
    case SwapPointed(x, prev, _) => t.sink == x && prev != x && prev in t.held
    case SwapFencing(x, prev, f) =>
      && t.sink == x && prev != x && f in s.flushes
      && (TakenOut(s, f) ==> t.inside == Outside || t.inside == In(x))
    case SwapDropOld(x, prev) =>
      && t.sink == x && prev != x && (t.inside == Outside || t.inside == In(x))
    case _ => true
  }

  /** The sink a retarget has assigned without listing it as held yet. */
  function PointedAt(s: State): set<Sink> {
    if s.target.swap.SwapPointed? then {s.target.swap.sink} else {}
  }

  ghost predicate TargetInv(s: State) {
    && s.target.sink in s.target.held + PointedAt(s)
    && (s.target.inside.In? ==> s.target.inside.sink in s.target.held + PointedAt(s))
    && (s.target.inside.In? <==> s.w.at.Inside?)
    && SwapFits(s)
  }

  lemma {:induction false} TargetKept(s: State, s': State)
    requires LogInv(s) && TargetInv(s) && s'.target == s.target && s'.w.at == s.w.at && s'.q.head == s.q.head
    requires AllEvolve(s, s')
    ensures TargetInv(s')
  {
    if s.target.swap.SwapFencing? { assert Evolves(s, s', s.target.swap.flush); }
  }

  lemma {:induction false} TargetLoop(s: State, c: DrainChoice, s': State)
    requires LogInv(s) && TargetInv(s) && LoopStep(s, c) == To(s')
    ensures TargetInv(s')
  {
    EvolveLoop(s, c, s');
    if s.target.swap.SwapFencing? { assert Evolves(s, s', s.target.swap.flush); }
  }

  lemma {:induction false} TargetEmit(s: State, c: DrainChoice, s': State)
    requires TargetInv(s) && EmitStep(s, c) == To(s')
    ensures TargetInv(s')
  {
  }

  lemma {:induction false} TargetAnswer(s: State, s': State)
    requires TargetInv(s) && AnswerStep(s) == To(s')
    ensures TargetInv(s')
  {
  }

  lemma {:induction false} TargetExit(s: State, c: DrainChoice, s': State)
    requires TargetInv(s) && ExitStep(s, c) == To(s')
    ensures TargetInv(s')
  {
  }

  lemma {:induction false} TargetSwap(s: State, x: Sink, g: FlushId, s': State)
    requires SoundInv(s) && TargetInv(s) && SwapStep(s, x, g) == To(s')
    ensures TargetInv(s')
  {
    if s.target.swap.SwapFencing? { assert VerdictSound(s, s.target.swap.flush); }
  }

  // ------------------------------------------------------------------ the abstraction

  /** What the lifecycle owner can tell about this worker. */
  function View(s: State): A.Worker {
    A.Worker(Alive(s), s.target.sink, s.target.held,
             if s.target.inside.In? then A.In(s.target.inside.sink) else A.Outside)
  }

  /** View(s') is View(s) after the move. */
  predicate ViewMoves(s: State, m: A.Move, s': State) {
    A.Can(View(s), m) && View(s') == A.Moved(View(s), m)
  }

  /** What each move of the view comes from: the thread's own moves from the drain, the two assignments
      from a swap that passed its check, and letting go from a swap whose fence was confirmed. */
  predicate MoveOf(s: State, step: Step, m: A.Move) {
    match m
    case Stay => true
    case Point(x) => step.BySwap? && s.target.swap.SwapCommitted? && s.target.swap.sink == x
    case Hold(x) => step.BySwap? && s.target.swap.SwapPointed? && s.target.swap.sink == x
    case LetGo(x) => step.BySwap? && s.target.swap.SwapDropOld? && s.target.swap.prev == x
    case _ => step.ByDrain?
  }

  function EmitMove(s: State): A.Move {
    if s.w.at.Attempting? then A.Enter else if s.w.at.Inside? then A.Leave else A.Stay
  }

  lemma {:induction false} ViewEmit(s: State, c: DrainChoice, s': State)
    requires TargetInv(s) && EmitStep(s, c) == To(s')
    ensures ViewMoves(s, EmitMove(s), s')
  {
  }

  function SwapMove(s: State): A.Move {
    match s.target.swap
    case SwapCommitted(x, _) => A.Point(x)
    case SwapPointed(x, _, _) => A.Hold(x)
    case SwapDropOld(_, prev) => A.LetGo(prev)
    case _ => A.Stay
  }

  lemma {:induction false} ViewSwap(s: State, x: Sink, g: FlushId, s': State)
    requires TargetInv(s) && SwapStep(s, x, g) == To(s')
    ensures ViewMoves(s, SwapMove(s), s')
  {
  }

  function ExitMove(s: State): A.Move {
    if s.w.at.Sweeping? && s.w.at.sweep.SweepDone? then A.Die else A.Stay
  }

  lemma {:induction false} ViewExit(s: State, c: DrainChoice, s': State)
    requires TargetInv(s) && ExitStep(s, c) == To(s')
    ensures ViewMoves(s, ExitMove(s), s')
  {
  }

  lemma {:induction false} ViewKept(s: State, s': State)
    requires s'.target == s.target && (Alive(s) <==> Alive(s'))
    ensures ViewMoves(s, A.Stay, s')
  {
  }
}
