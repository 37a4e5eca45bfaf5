/**
 The worker as the lifecycle owner sees it: whether its thread is alive, the sink it delivers to,
 the sinks it says its thread may be inside, and the sink that thread is inside.

 WorkerTheorems proves that the whole protocol moves it by these moves alone, and LifecycleModel
 moves it by nothing else.
 */
module WorkerView {
  type Sink = nat

  datatype Place = Outside | In(sink: Sink)

  datatype Worker = Worker(alive: bool, sink: Sink, held: set<Sink>, inside: Place)

  /** The worker's half of held(): may its thread still be inside x? */
  predicate MayBeInside(w: Worker, x: Sink) {
    w.alive && x in w.held
  }

  /** Whether x was swapped out without a confirmed fence. */
  predicate HoldsUnfenced(w: Worker, x: Sink) {
    x != w.sink && x in w.held
  }

  /** The thread is inside nothing the worker would deny holding, nor a sink it has just been pointed
      at: a retarget assigns the sink first and the held sinks after it, and neither reader waits. */
  predicate Honest(w: Worker, pointed: set<Sink>) {
    && w.sink in w.held + pointed
    && (w.inside.In? ==> w.alive && w.inside.sink in w.held + pointed)
  }

  datatype Move =
    | Stay
    | Enter               // the drain thread goes into the sink
    | Leave
    | Die
    | Point(sink: Sink)   // a retarget's first assignment
    | Hold(sink: Sink)    // and its second
    | LetGo(sink: Sink)

  predicate ByDrain(m: Move) {
    m.Enter? || m.Leave? || m.Die?
  }

  /** The guard on LetGo is the fence: a sink is let go of only when it is not the one delivered to
      and the thread is not in it. */
  predicate Can(w: Worker, m: Move) {
    match m
    case Stay => true
    case Enter => w.alive && w.inside.Outside?
    case Leave => w.inside.In?
    case Die => w.alive && w.inside.Outside?
    case Point(_) => true
    case Hold(_) => true
    case LetGo(x) => x != w.sink && w.inside != In(x)
  }

  function Moved(w: Worker, m: Move): Worker {
    match m
    case Stay => w
    case Enter => w.(inside := In(w.sink))
    case Leave => w.(inside := Outside)
    case Die => w.(alive := false)
    case Point(x) => w.(sink := x)
    case Hold(x) => w.(held := w.held + {x})
    case LetGo(x) => w.(held := w.held - {x})
  }

  /** The sinks pointed at and not yet held, after a move. */
  function PointedAfter(pointed: set<Sink>, m: Move): set<Sink> {
    match m
    case Point(x) => pointed + {x}
    case Hold(x) => pointed - {x}
    case _ => pointed
  }

  /** The fence is what keeps the worker honest, but for the sink between the two assignments. */
  lemma MovesHonest(w: Worker, pointed: set<Sink>, m: Move)
    requires Honest(w, pointed) && Can(w, m)
    ensures Honest(Moved(w, m), PointedAfter(pointed, m))
  {
  }
}
