/**
 The lifecycle owner as a transition system: one owed-close record, one registry of closes in
 flight, the retirement count with its late-worker depth, and sink swaps.

 Every section under the owner's lock is one step, except the closer's take, whose reads of the
 worker's held sinks are steps of their own: retarget() runs without the owner's lock, so it can
 land between them. The worker is the small one of WorkerView.
 */
module LifecycleModel {
  import V = WorkerView

  type Sink = nat
  type CallId = nat   // one shutdown() call
  type TaskId = nat   // one close the owner decided, and the registration made for it

  // ------------------------------------------------------------------ closes

  datatype Progress =
    | InHand(call: CallId, detach: bool) // taken by a closer, not handed off yet
    | Ready                              // handed to the thread that will perform it
    | Running                            // inside close()

  datatype Task = Task(sink: Sink, reg: TaskId, progress: Progress)

  /** `registry` names the close in flight for each sink; `tasks` are the closes themselves. */
  datatype Books = Books(owed: set<Sink>, registry: map<Sink, TaskId>, tasks: map<TaskId, Task>, next: TaskId)

  /** What a detached release can come to at once. */
  datatype Outcome = Started | Refused | LeftOpen

  // ------------------------------------------------------------------ the worker and the count

  datatype Hosted = NoWorker | Built(view: V.Worker, epoch: nat, builtLate: bool, stopAsked: bool)

  datatype Owner = Owner(worker: Hosted, retirements: nat, depth: nat, late: bool)

  // ------------------------------------------------------------------ shutdown() and swaps

  datatype Pass = WorkerPass | ColdPass | SecondPass

  datatype CallPc =
    | Entering
    | StoppingWorker
    | Taking(pass: Pass)
    | Checking(pass: Pass, todo: set<Sink>, passed: set<Sink>)  // holds the owner's lock
    | Closing(pass: Pass)
    | PuttingBack(pass: Pass)                                   // interrupted before a hand-off
    | ColdExit(interrupted: bool)
    | RetiringLate
    | StoppingLate
    | Finished(interrupted: bool)

  /** How far a call has come with the late worker. */
  datatype Duty = Untaken | TookIt | MovedCount | AskedStop

  /** `hadWorker`: there was a worker when this call entered. `duty`: what it did with the late
      worker, if it took it out of the record. `cut`: it was interrupted in its no-worker pass.
      `clear`: when it last began a take, no owed sink was exposed. */
  datatype Call = Call(pc: CallPc, hadWorker: bool, duty: Duty, cut: bool, waited: bool, clear: bool)

  predicate TookLate(call: Call) {
    !call.duty.Untaken?
  }

  datatype Lock = Free | HeldByCall(call: CallId) | HeldBySwap

  datatype Verdict = Declined | Fenced | Unfenced

  datatype Swap =
    | NoSwap
    | Superseding(sink: Sink, todo: set<Sink>) // holds the owner's lock
    | Retargeting(sink: Sink)                  // inside retarget(), before its second check of the count
    | Committed(sink: Sink)                    // the check passed; holds the worker's lock
    | Pointed(sink: Sink, prev: Sink)          // the sink assigned, the held sinks not yet; holds it still
    | Reassigned(sink: Sink, prev: Sink)       // both assigned, before the fence
    | Ending(sink: Sink, verdict: Verdict, prev: Sink)

  datatype State = State(books: Books, owner: Owner, calls: map<CallId, Call>, lock: Lock, swap: Swap)

  predicate Init(s: State) {
    && s.books == Books({}, map[], map[], 0)
    && s.owner == Owner(NoWorker, 0, 0, false)
    && s.calls == map[] && s.lock == Free && s.swap == NoSwap
  }

  datatype Next = Blocked | To(s: State)

  /** A worker is live while the count has not moved past its epoch. */
  predicate Live(o: Owner) {
    o.worker.Built? && o.retirements <= o.worker.epoch
  }

  /** held(): may anything still be inside x? */
  predicate Held(s: State, x: Sink) {
    || (s.owner.worker.Built? && V.MayBeInside(s.owner.worker.view, x))
    || x in s.books.registry
  }

  // ------------------------------------------------------------------ the books

  function Arm(b: Books, x: Sink): Books {
    b.(owed := b.owed + {x})
  }

  /** Take x out of the owed record and register its close, in one section. */
  function Take(b: Books, x: Sink, progress: Progress): Books {
    var reg := if x in b.registry then b.registry[x] else b.next;
    Books(b.owed - {x}, b.registry[x := reg], b.tasks[b.next := Task(x, reg, progress)], b.next + 1)
  }

  /** _finish_closing(): the entry goes only if it is still this task's. */
  function Finish(b: Books, t: TaskId): Books {
    if t !in b.tasks then b
    else
      var x := b.tasks[t].sink;
      b.(registry := if x in b.registry && b.registry[x] == b.tasks[t].reg then b.registry - {x} else b.registry,
         tasks := b.tasks - {t})
  }

  /** A release the owner decided under its lock, with the outcome it came to. */
  function ReleaseDetached(b: Books, x: Sink, outcome: Outcome): Books {
    var b1 := Take(b, x, Ready);
    if outcome.Started? then b1 else Finish(b1, b.next)
  }

  // ------------------------------------------------------------------ orphan emits and builds

  function ArmStep(s: State, x: Sink): Next {
    if !s.lock.Free? then Blocked
    else To(s.(books := Arm(s.books, x)))
  }

  /** _get_worker(): built once, armed, and registered as late while a shutdown() is running. */
  function BuildStep(s: State, x: Sink): Next {
    if !s.lock.Free? || s.owner.worker.Built? then Blocked
    else
      To(s.(books := Arm(s.books, x),
            owner := s.owner.(worker := Built(V.Worker(true, x, {x}, V.Outside), s.owner.retirements,
                                              s.owner.depth > 0, false),
                              late := s.owner.late || s.owner.depth > 0)))
  }

  /** A step of the drain thread. */
  function DrainStep(s: State, move: V.Move): Next {
    if s.owner.worker.Built? && V.ByDrain(move) && V.Can(s.owner.worker.view, move) then
      To(WithView(s, V.Moved(s.owner.worker.view, move)))
    else Blocked
  }

  function WithView(s: State, w: V.Worker): State
    requires s.owner.worker.Built?
  {
    s.(owner := s.owner.(worker := s.owner.worker.(view := w)))
  }

  // ------------------------------------------------------------------ a close's own steps

  /** The thread performing the close: it starts, is refused, or ends. */
  datatype TaskMove = StartClose | RefuseClose | EndClose

  function TaskStep(s: State, t: TaskId, move: TaskMove): Next {
    if t !in s.books.tasks then Blocked
    else
      var task := s.books.tasks[t];
      if move.StartClose? && task.progress.Ready? then
        To(s.(books := s.books.(tasks := s.books.tasks[t := task.(progress := Running)])))
      else if move.RefuseClose? && task.progress.Ready? then
        To(s.(books := Finish(s.books, t)))
      else if move.EndClose? && task.progress.Running? then
        To(s.(books := Finish(s.books, t)))
      else Blocked
  }

  // ------------------------------------------------------------------ shutdown() steps

  function AfterPass(pass: Pass, waited: bool): CallPc {
    match pass
    case ColdPass => ColdExit(false)
    case WorkerPass => if waited then Taking(SecondPass) else Finished(false)
    case SecondPass => Finished(false)
  }

  function AskedToStop(w: Hosted): Hosted {
    if w.Built? then w.(stopAsked := true) else w
  }

  /** A retarget under way is about to point the live drain thread at x, which the worker does not
      hold yet. retarget() runs without the owner's lock, so taking that lock does not stop it; and
      once it has checked the count, moving the count does not stop it either. */
  predicate Exposed(s: State, x: Sink) {
    && ((s.swap == Retargeting(x) && Live(s.owner)) || (PastCheck(s.swap) && s.swap.sink == x))
    && s.owner.worker.Built? && s.owner.worker.view.alive && x !in s.owner.worker.view.held
  }

  /** Whether a retarget has passed its check of the count and still holds the worker's lock. */
  predicate PastCheck(swap: Swap) {
    swap.Committed? || swap.Pointed?
  }

  /** Whether no owed sink is exposed. */
  predicate Clear(s: State) {
    (s.swap.Retargeting? || PastCheck(s.swap)) && s.swap.sink in s.books.owed ==> !Exposed(s, s.swap.sink)
  }

  /** The sink a retarget has pointed the worker at without listing it as held. */
  function PointedAt(swap: Swap): set<Sink> {
    if swap.Pointed? then {swap.sink} else {}
  }

  predicate Mine(task: Task, c: CallId) {
    task.progress.InHand? && task.progress.call == c
  }

  predicate NoneMine(b: Books, c: CallId) {
    forall t :: t in b.tasks ==> !Mine(b.tasks[t], c)
  }

  datatype CallChoice =
    | Go(waited: bool)
    | Check(x: Sink)
    | HandOff(t: TaskId, outcome: Outcome)
    | PutBack(t: TaskId)
    | Interrupt

  /** The sections of shutdown() other than the closer's: the count, the depth, the late worker. */
  function OwnerSection(o: Owner, pc: CallPc): Owner {
    match pc
    case Entering =>
      if o.worker.Built? then o.(retirements := o.retirements + 1)
      else o.(retirements := o.retirements + 1, depth := o.depth + 1)
    case StoppingWorker => o.(worker := AskedToStop(o.worker))
    case ColdExit(_) => o.(late := false, depth := if o.depth > 0 then o.depth - 1 else 0)
    case RetiringLate => o.(retirements := o.retirements + 1)
    case StoppingLate => o.(worker := AskedToStop(o.worker))
    case _ => o
  }

  function CallAfterSection(o: Owner, call: Call): Call {
    match call.pc
    case Entering =>
      call.(hadWorker := o.worker.Built?, pc := if o.worker.Built? then StoppingWorker else Taking(ColdPass))
    case StoppingWorker => call.(pc := Taking(WorkerPass))
    case ColdExit(interrupted) =>
      call.(duty := if o.late then TookIt else call.duty,
            cut := interrupted,
            pc := if interrupted then Finished(true)
                  else if o.late then RetiringLate
                  else if call.waited then Taking(SecondPass)
                  else Finished(false))
    case RetiringLate => call.(duty := MovedCount, pc := StoppingLate)
    case StoppingLate => call.(duty := AskedStop, pc := Taking(SecondPass))
    case _ => call
  }

  predicate NeedsLock(pc: CallPc) {
    pc.Entering? || pc.ColdExit? || pc.RetiringLate?
  }

  /** The sections that go through claim_stop(), which takes the worker's own lock. */
  predicate ClaimsStop(o: Owner, pc: CallPc) {
    (pc.Entering? && o.worker.Built?) || pc.StoppingLate?
  }

  predicate IsSection(pc: CallPc) {
    pc.Entering? || pc.StoppingWorker? || pc.ColdExit? || pc.RetiringLate? || pc.StoppingLate?
  }

  /** Whether another thread holds a lock the section needs. */
  predicate SectionWaits(s: State, pc: CallPc) {
    (NeedsLock(pc) && !s.lock.Free?) || (ClaimsStop(s.owner, pc) && PastCheck(s.swap))
  }

  function CallStep(s: State, c: CallId, choice: CallChoice): Next {
    if c !in s.calls then
      To(s.(calls := s.calls[c := Call(Entering, false, Untaken, false, false, false)]))
    else if IsSection(s.calls[c].pc) then
      if SectionWaits(s, s.calls[c].pc) then Blocked
      else
        To(s.(calls := s.calls[c := CallAfterSection(s.owner, s.calls[c])],
              owner := OwnerSection(s.owner, s.calls[c].pc)))
    else CloserStep(s, c, s.calls[c], choice)
  }

  /** _close_owed(): the take, sink by sink under the lock, then the hand-offs. */
  function CloserStep(s: State, c: CallId, call: Call, choice: CallChoice): Next {
    match call.pc
    case Taking(pass) =>
      if !s.lock.Free? then Blocked
      else
        To(s.(calls := s.calls[c := call.(pc := Checking(pass, s.books.owed, {}), clear := Clear(s))],
              lock := HeldByCall(c)))
    case Checking(pass, todo, passed) => TakeStep(s, c, call, choice)
    case Closing(pass) => HandOffStep(s, c, call, choice)
    case PuttingBack(pass) =>
      if !s.lock.Free? then Blocked
      else if choice.PutBack? && choice.t in s.books.tasks && Mine(s.books.tasks[choice.t], c) then
        To(s.(books := Arm(Finish(s.books, choice.t), s.books.tasks[choice.t].sink)))
      else if NoneMine(s.books, c) then
        To(s.(calls := s.calls[c := call.(pc := if pass.ColdPass? then ColdExit(true) else Finished(true))]))
      else Blocked
    case _ => Blocked
  }

  /** Under the lock: each owed sink is asked about, then each that passed is taken. */
  function TakeStep(s: State, c: CallId, call: Call, choice: CallChoice): Next
    requires call.pc.Checking?
  {
    var pass, todo, passed := call.pc.pass, call.pc.todo, call.pc.passed;
    if choice.Check? && choice.x in todo then
      To(s.(calls := s.calls[c := call.(pc := Checking(pass, todo - {choice.x},
                                                       if Held(s, choice.x) then passed else passed + {choice.x}))]))
    else if todo == {} && choice.Check? && choice.x in passed then
      To(s.(books := Take(s.books, choice.x, InHand(c, LeftUnfenced(s.owner.worker, choice.x))),
            calls := s.calls[c := call.(pc := Checking(pass, {}, passed - {choice.x}))]))
    else if todo == {} && passed == {} then
      To(s.(calls := s.calls[c := call.(pc := Closing(pass))], lock := Free))
    else Blocked
  }

  predicate LeftUnfenced(w: Hosted, x: Sink) {
    w.Built? && V.HoldsUnfenced(w.view, x)
  }

  /** With the lock released: a detached close may be refused or fail to start; any other runs on
      a thread, or inline when no thread starts. */
  function HandOffStep(s: State, c: CallId, call: Call, choice: CallChoice): Next
    requires call.pc.Closing?
  {
    match choice
    case Go(waited) =>
      if NoneMine(s.books, c) then
        To(s.(calls := s.calls[c := call.(waited := waited, pc := AfterPass(call.pc.pass, waited))]))
      else Blocked
    case HandOff(t, outcome) =>
      if t in s.books.tasks && Mine(s.books.tasks[t], c) then
        if outcome.Started? || !s.books.tasks[t].progress.detach then
          To(s.(books := s.books.(tasks := s.books.tasks[t := s.books.tasks[t].(progress := Ready)])))
        else
          To(s.(books := Finish(s.books, t)))
      else Blocked
    case Interrupt => To(s.(calls := s.calls[c := call.(pc := PuttingBack(call.pc.pass))]))
    case _ => Blocked
  }

  // ------------------------------------------------------------------ _swap_sink() steps

  datatype SwapChoice =
    | Begin(sink: Sink)
    | Release(x: Sink, outcome: Outcome)
    | Proceed
    | GiveUp        // retarget() raised, or its fence was not confirmed in time

  /** The sink the live worker delivers to is never superseded by the sweep of stale sinks. */
  predicate Stays(s: State, sink: Sink, x: Sink) {
    x == sink || (Live(s.owner) && x == s.owner.worker.view.sink) || Held(s, x)
  }

  function SwapStep(s: State, choice: SwapChoice): Next {
    match s.swap
    case NoSwap =>
      if !choice.Begin? || !s.lock.Free? || (!Live(s.owner) && s.books.owed == {}) then Blocked
      else To(s.(swap := Superseding(choice.sink, s.books.owed), lock := HeldBySwap))
    case Superseding(sink, todo) =>
      if choice.Release? && choice.x in todo then
        if Stays(s, sink, choice.x) then
          To(s.(swap := Superseding(sink, todo - {choice.x})))
        else
          To(s.(swap := Superseding(sink, todo - {choice.x}),
                books := ReleaseDetached(s.books, choice.x, choice.outcome)))
      else if todo != {} then Blocked
      else if Live(s.owner) then To(s.(swap := Retargeting(sink), lock := Free))
      else To(s.(swap := NoSwap, lock := Free, books := Arm(s.books, sink)))
    case Retargeting(sink) =>
      if choice.GiveUp? || !s.owner.worker.Built? then To(s.(swap := NoSwap))
      else if !Live(s.owner) then To(s.(swap := Ending(sink, Declined, s.owner.worker.view.sink)))
      else if s.owner.worker.view.sink == sink then To(s.(swap := Ending(sink, Fenced, sink)))
      else To(s.(swap := Committed(sink)))
    case Committed(sink) =>
      if !s.owner.worker.Built? then Blocked
      else
        To(WithView(s, V.Moved(s.owner.worker.view, V.Point(sink)))
           .(swap := Pointed(sink, s.owner.worker.view.sink)))
    case Pointed(sink, prev) =>
      if !s.owner.worker.Built? then Blocked
      else To(WithView(s, V.Moved(s.owner.worker.view, V.Hold(sink))).(swap := Reassigned(sink, prev)))
    case Reassigned(sink, prev) =>
      if choice.GiveUp? || !s.owner.worker.Built? then To(s.(swap := Ending(sink, Unfenced, prev)))
      else if !V.Can(s.owner.worker.view, V.LetGo(prev)) then Blocked
      else
        To(WithView(s, V.Moved(s.owner.worker.view, V.LetGo(prev))).(swap := Ending(sink, Fenced, prev)))
    case Ending(sink, verdict, prev) =>
      if !s.lock.Free? then Blocked
      else if verdict.Fenced? && prev != sink && !Held(s, prev) && choice.Release? then
        To(s.(swap := NoSwap,
              books := ReleaseDetached(Arm(s.books, sink), prev, choice.outcome)))
      else if verdict.Fenced? && prev != sink && !Held(s, prev) then Blocked
      else To(s.(swap := NoSwap, books := Arm(s.books, sink)))
  }

  // ------------------------------------------------------------------ runs

  datatype Step =
    | ByOrphan(x: Sink)
    | ByBuild(x: Sink)
    | ByDrain(drain: V.Move)
    | ByTask(t: TaskId, task: TaskMove)
    | ByCall(c: CallId, call: CallChoice)
    | BySwap(swap: SwapChoice)

  function Apply(s: State, step: Step): Next {
    match step
    case ByOrphan(x) => ArmStep(s, x)
    case ByBuild(x) => BuildStep(s, x)
    case ByDrain(move) => DrainStep(s, move)
    case ByTask(t, move) => TaskStep(s, t, move)
    case ByCall(c, choice) => CallStep(s, c, choice)
    case BySwap(choice) => SwapStep(s, choice)
  }

  /** Steps taken one after the other, if each can be. */
  function Execute(s: State, steps: seq<Step>): Next
    decreases |steps|
  {
    if steps == [] then To(s)
    else
      var next := Apply(s, steps[0]);
      if next.Blocked? then Blocked else Execute(next.s, steps[1..])
  }

  predicate Follows(run: seq<State>, steps: seq<Step>, i: nat)
    requires i < |steps| < |run|
  {
    Apply(run[i], steps[i]) == To(run[i + 1])
  }

  ghost predicate IsRun(run: seq<State>, steps: seq<Step>) {
    && |run| == |steps| + 1
    && Init(run[0])
    && forall i {:trigger Follows(run, steps, i)} :: 0 <= i < |steps| ==> Follows(run, steps, i)
  }
}
