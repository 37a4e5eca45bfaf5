/**
 The worker's drain, flush, stop and retarget protocol as a transition system.

 Application threads calling submit(), flush() and stop(), the one drain thread, and the
 configure() thread that retargets the worker share a bounded FIFO queue, three set-once
 events, a list of taken markers and the stop gate. Every critical section, every queue
 operation, every Event.set and every unlocked read is one step here, so an interleaving of
 the threads is a sequence of steps and nothing else. Two places differ. What a flush() reads
 after its marker could not be put is one step, Full: it decides only the reason returned, or
 whether to try the put again. And one section of retarget() is three steps: its check of the
 retirement count, its assignment of the sink and its assignment of the held sinks, because the
 count moves, the drain reads the sink and may_be_inside() reads the held ones without the lock.
 */
module WorkerModel {
  type SubId = nat     // one submit() call
  type FlushId = nat   // one flush() call, and the marker it stamps
  type StopId = nat    // one stop() call
  type Sink = nat

  datatype Item = Submission(sub: SubId) | Marker(flush: FlushId) | Sentinel

  /** How the drain disposed of a submission it took out of the queue. */
  datatype Fate =
    | Delivered              // in a batch whose emit returned
    | NothingToEmit          // in a batch holding no event at all, which is never emitted
    | Abandoned(batch: nat)  // in the batch that moved failed_batches from `batch` to `batch + 1`

  datatype Settlement = Settlement(sub: SubId, fate: Fate)

  // ------------------------------------------------------------------ submit()

  datatype SubPc =
    | Entered       // before the first read of the retirement count
    | CountingFirst // the first read saw a shutdown; about to count it
    | Putting       // before put_nowait
    | Overflowing   // the queue was full; about to count the drop
    | DroppedOut    // returned, dropped
    | Rechecking    // queued; about to read the retirement count again
    | CountingLate  // the second read saw a shutdown; about to count it
    | Returned

  /** `at` is the position the submission took in the put order, once it is queued. */
  datatype Sub = Sub(events: nat, pc: SubPc, sawRetired: bool, at: nat)

  // ------------------------------------------------------------------ flush()

  datatype Reason = TimedOut | Retired | ThreadDied | QueueFull | GaveUp

  datatype FlushPc =
    | Checking                  // reads the retirement count
    | CheckingAlive             // reads is_alive()
    | Stamping                  // creates the marker under the lock
    | Enqueuing                 // one bounded put of the marker
    | Full                      // that put raised queue.Full
    | Read1                     // _given_up(): reads _drain_settled
    | Read2                     //              reads _drain_finished
    | Read3(gaveUp: bool)       // _settled(): reads _drain_finished
    | Read4(gaveUp: bool)       //             reads _drain_settled
    | Read5(gaveUp: bool)       //             reads _drain_finished again
    | Read6(gaveUp: bool)       //             reads is_alive()
    | Verdict(gaveUp: bool)     // reads marker.event
    | VerdictAnswered           // reads marker.delivered
    | Waiting                   // marker.event.wait()
    | Woken                     // reads marker.delivered
    | Succeeded
    | Failed(reason: Reason, wasPut: bool)

  /** A flush() call and its marker. `at` is the marker's place in the put order, `judgedAt`
      how many submissions had been settled when the drain judged it. */
  datatype Flush = Flush(bounded: bool, pc: FlushPc, seen: nat, delivered: bool, event: bool,
                         at: nat, judgedAt: nat)

  const FRESH_FLUSH := Flush(true, Checking, 0, false, false, 0, 0)

  /** Whether a flush call's marker has reached the queue. */
  predicate WasPut(pc: FlushPc) {
    match pc
    case Checking => false
    case CheckingAlive => false
    case Stamping => false
    case Enqueuing => false
    case Full => false
    case Failed(_, wasPut) => wasPut
    case _ => true
  }

  // ------------------------------------------------------------------ the sweep of waiters

  datatype Sweep =
    | BeforeTaken
    | SettingTaken(todo: set<FlushId>)
    | BeforeQueue
    | SettingQueue(todo: set<FlushId>)
    | SweepDone

  // ------------------------------------------------------------------ stop()

  datatype Deadline = Never | By(instant: real)

  datatype StopPc =
    | Retiring                   // shutdown(): moves the retirement count
    | Claiming                   // claim_stop()
    | Signalling(won: bool)      // shutdown(): sets the process stop event, if it is this worker's
    | Losing                     // a losing caller: returns, or waits for the drain to settle
    | ReadingTakeover            // reads _join_taken_over
    | ReadingFinished(took: bool)
    | PuttingSentinel
    | SettingStop
    | Joining
    | CheckingJoin               // reads is_alive() after the join
    | Expiring                   // records ShutdownTimeout under the lock
    | MarkingSettled             // _drain_settled.set() on behalf of a live drain
    | Releasing(sweep: Sweep, expired: bool)
    | StopDone(won: bool, expired: bool)

  datatype Stop = Stop(onDrain: bool, viaShutdown: bool, deadline: Deadline, pc: StopPc)

  /** The once-only gate claim_stop() decides under the lock. */
  datatype Gate = Gate(stopped: bool, exitDeadline: Deadline, joinOwed: bool, joinTakenOver: bool)

  // ------------------------------------------------------------------ the drain thread

  /** Why a batch is being emitted, and so which markers wait on its outcome. */
  datatype Why = OnTrigger | OnFlush(marker: FlushId) | OnExit(markers: seq<FlushId>)

  function Marks(why: Why): seq<FlushId> {
    match why
    case OnTrigger => []
    case OnFlush(m) => [m]
    case OnExit(ms) => ms
  }

  datatype Loop = MainLoop | FinalLoop(markers: seq<FlushId>)

  datatype Drain =
    | AtTop
    | AtGet
    | HasMarker(m: FlushId, loop: Loop)                        // dequeued, not yet registered
    | Registered(m: FlushId, sawSettled: bool, loop: Loop)     // about to act on the settled read
    | Deciding
    | AtFinalGet(markers: seq<FlushId>)
    | EmitStart(why: Why)
    | Attempting(why: Why, tries: nat)
    | Inside(why: Why, tries: nat)                             // the thread is inside sink.emit
    | Backoff(why: Why, tries: nat)
    | Abandoning(why: Why)
    | Judging(why: Why, i: nat)
    | Writing(why: Why, i: nat, verdict: bool)
    | Answering(why: Why, i: nat, crashed: bool)
    | LettingGo(why: Why, i: nat, crashed: bool)               // _release_marker
    | Finishing(crashed: bool)                                 // _drain_finished.set()
    | Settling(crashed: bool)                                  // _drain_settled.set()
    | Recording                                                // _terminal_failure
    | Sweeping(crashed: bool, sweep: Sweep)
    | Dead(crashed: bool)

  // ------------------------------------------------------------------ retarget()

  datatype Swap =
    | NoSwap
    | SwapCheck(sink: Sink)
    | SwapDraining(sink: Sink, flush: FlushId)
    | SwapAssign(sink: Sink, drained: bool)     // about to check the retirement count again
    | SwapCommitted(sink: Sink, drained: bool)  // the check passed; about to assign the sink
    | SwapPointed(sink: Sink, prev: Sink, drained: bool) // the sink assigned; about to assign the held sinks
    | SwapFencing(sink: Sink, prev: Sink, flush: FlushId)
    | SwapDropOld(sink: Sink, prev: Sink)

  datatype Place = Outside | In(sink: Sink)

  // ------------------------------------------------------------------ the whole state

  datatype Limits = Limits(capacity: nat, batchSize: nat, retries: nat)

  /** `log` is every item ever put, in put order, and `head` how many were taken out: the queue
      holds what lies past `head`. */
  datatype Queue = Queue(log: seq<Item>, head: nat)

  /** `dropped` and `afterShutdown` list the calls each counter counted, so that a counter is
      the length of its list. */
  datatype Submits = Submits(calls: map<SubId, Sub>, dropped: seq<SubId>, afterShutdown: seq<SubId>)

  /** `pending` is the batch in hand; `history` the settled submissions, in settling order. */
  datatype Work = Work(at: Drain, pending: seq<SubId>, history: seq<Settlement>, failed: nat,
                       taken: set<FlushId>)

  datatype Events = Events(finished: bool, settled: bool, stop: bool, retired: bool, directStop: bool)

  datatype Call = NoCall | OnDrain(id: StopId)

  datatype Stops = Stops(calls: map<StopId, Stop>, nested: Call)

  datatype Target = Target(sink: Sink, held: set<Sink>, inside: Place, swap: Swap, incomplete: nat)

  datatype State = State(limits: Limits, q: Queue, subs: Submits, flushes: map<FlushId, Flush>,
                         w: Work, ev: Events, gate: Gate, stops: Stops, target: Target)

  predicate Init(s: State) {
    && s.q == Queue([], 0)
    && s.subs == Submits(map[], [], [])
    && s.flushes == map[]
    && s.w == Work(AtTop, [], [], 0, {})
    && s.ev == Events(false, false, false, false, false)
    && s.gate == Gate(false, Never, false, false)
    && s.stops == Stops(map[], NoCall)
    && s.target == Target(s.target.sink, {s.target.sink}, Outside, NoSwap, 0)
  }

  datatype Next = Blocked | To(s: State)

  predicate IsFull(limits: Limits, q: Queue) {
    limits.capacity > 0 && |q.log| - q.head >= limits.capacity
  }

  predicate Alive(s: State) {
    !s.w.at.Dead?
  }

  // ------------------------------------------------------------------ submit() steps

  predicate IsQueued(pc: SubPc) {
    pc.Rechecking? || pc.CountingLate? || pc.Returned?
  }

  function WithSub(s: State, x: SubId, sub: Sub): State {
    s.(subs := s.subs.(calls := s.subs.calls[x := sub]))
  }

  function WithCount(s: State, x: SubId, sub: Sub): State {
    s.(subs := s.subs.(calls := s.subs.calls[x := sub], afterShutdown := s.subs.afterShutdown + [x]))
  }

  function SubmitStep(s: State, x: SubId, events: nat): Next {
    if x !in s.subs.calls then
      To(WithSub(s, x, Sub(events, Entered, false, 0)))
    else
      var sub := s.subs.calls[x];
      match sub.pc
      case Entered =>
        To(WithSub(s, x, sub.(pc := if s.ev.retired then CountingFirst else Putting, sawRetired := s.ev.retired)))
      case CountingFirst => To(WithCount(s, x, sub.(pc := Putting)))
      case Putting =>
        if IsFull(s.limits, s.q) then
          To(WithSub(s, x, sub.(pc := Overflowing)))
        else
          To(WithSub(s, x, sub.(pc := if sub.sawRetired then Returned else Rechecking, at := |s.q.log|))
             .(q := s.q.(log := s.q.log + [Submission(x)])))
      case Overflowing =>
        To(s.(subs := s.subs.(calls := s.subs.calls[x := sub.(pc := DroppedOut)],
                              dropped := s.subs.dropped + [x])))
      case Rechecking =>
        To(WithSub(s, x, sub.(pc := if s.ev.retired then CountingLate else Returned, sawRetired := s.ev.retired)))
      case CountingLate => To(WithCount(s, x, sub.(pc := Returned)))
      case DroppedOut => Blocked
      case Returned => Blocked
  }

  // ------------------------------------------------------------------ flush() steps

  /** Where flush call `fl` goes next by a step that only reads. `expired` says whether the
      caller's own deadline has passed; an unbounded call has none. */
  function FlushRead(s: State, fl: Flush, expired: bool): FlushPc {
    match fl.pc
    case Checking => if s.ev.retired then Failed(Retired, false) else CheckingAlive
    case CheckingAlive => if Alive(s) then Stamping else Failed(ThreadDied, false)
    case Full =>
      if s.ev.settled && !s.ev.finished then Failed(GaveUp, false)
      else if s.ev.finished || !Alive(s) then Failed(ThreadDied, false)
      else if fl.bounded && expired then Failed(QueueFull, false)
      else Enqueuing
    case Read1 => if s.ev.settled then Read2 else Read3(false)
    case Read2 => Read3(!s.ev.finished)
    case Read3(g) => if s.ev.finished then Verdict(g) else Read4(g)
    case Read4(g) => if s.ev.settled then Read5(g) else Read6(g)
    case Read5(g) => if s.ev.finished then Read6(g) else Verdict(g)
    case Read6(g) => if Alive(s) then Waiting else Verdict(g)
    case Verdict(g) => if fl.event then VerdictAnswered else Failed(if g then GaveUp else ThreadDied, true)
    case VerdictAnswered => if fl.delivered then Succeeded else Failed(GaveUp, true)
    case Woken => if fl.delivered then Succeeded else Failed(GaveUp, true)
    case Waiting => if fl.event then Woken else if fl.bounded && expired then Failed(TimedOut, true) else Waiting
    case other => other
  }

  /** The call and its marker after the next step of the call. */
  function FlushMoved(s: State, fl: Flush, expired: bool): Flush {
    if fl.pc.Stamping? then fl.(pc := Enqueuing, seen := s.w.failed)
    else if fl.pc.Enqueuing? then
      if IsFull(s.limits, s.q) then fl.(pc := Full) else fl.(pc := Read1, at := |s.q.log|)
    else fl.(pc := FlushRead(s, fl, expired))
  }

  function FlushStep(s: State, f: FlushId, bounded: bool, expired: bool): Next {
    if f !in s.flushes then
      To(s.(flushes := s.flushes[f := FRESH_FLUSH.(bounded := bounded)]))
    else
      var fl := s.flushes[f];
      var moved := FlushMoved(s, fl, expired);
      if moved.pc == fl.pc then Blocked
      else
        To(s.(flushes := s.flushes[f := moved],
              q := if fl.pc.Enqueuing? && !IsFull(s.limits, s.q) then s.q.(log := s.q.log + [Marker(f)]) else s.q))
  }

  // ------------------------------------------------------------------ _release_waiters()

  function QueuedMarkers(s: State): set<FlushId> {
    set f | f in s.flushes && WasPut(s.flushes[f].pc) && s.flushes[f].at >= s.q.head
  }

  /** marker.event.set(), a no-op on anything that is not a known marker. */
  function SetEvent(flushes: map<FlushId, Flush>, f: FlushId): map<FlushId, Flush> {
    if f in flushes then flushes[f := flushes[f].(event := true)] else flushes
  }

  predicate SweepMoves(sweep: Sweep, pick: FlushId) {
    match sweep
    case SettingTaken(todo) => todo == {} || pick in todo
    case SettingQueue(todo) => todo == {} || pick in todo
    case SweepDone => false
    case _ => true
  }

  /** One step of a sweep, which sets the events of its two snapshots one at a time. */
  function SweepNext(s: State, sweep: Sweep, pick: FlushId): Sweep {
    match sweep
    case BeforeTaken => SettingTaken(s.w.taken)
    case SettingTaken(todo) => if todo == {} then BeforeQueue else SettingTaken(todo - {pick})
    case BeforeQueue => SettingQueue(QueuedMarkers(s))
    case SettingQueue(todo) => if todo == {} then SweepDone else SettingQueue(todo - {pick})
    case SweepDone => SweepDone
  }

  function SweepSets(s: State, sweep: Sweep, pick: FlushId): map<FlushId, Flush> {
    match sweep
    case SettingTaken(todo) => if todo == {} then s.flushes else SetEvent(s.flushes, pick)
    case SettingQueue(todo) => if todo == {} then s.flushes else SetEvent(s.flushes, pick)
    case _ => s.flushes
  }

  // ------------------------------------------------------------------ drain steps

  datatype DrainChoice =
    | Go               // the only way forward from this point
    | Idle             // get() timed out, or a trigger did not fire
    | EmitReturns | EmitRaises | EmitDies   // what sink.emit did; EmitDies is a BaseException
    | Decline          // the retry was predicted to end after the exit deadline
    | Pick(f: FlushId) // the waiter a sweep answers next

  function SettleAll(pending: seq<SubId>, fate: Fate): seq<Settlement> {
    seq(|pending|, i requires 0 <= i < |pending| => Settlement(pending[i], fate))
  }

  /** The whole batch in hand meets one fate. */
  function Settle(w: Work, fate: Fate): Work {
    w.(history := w.history + SettleAll(w.pending, fate), pending := [])
  }

  /** Whether the batch in hand flattens to no event at all. */
  predicate NoEvents(s: State) {
    forall x :: x in s.w.pending && x in s.subs.calls ==> s.subs.calls[x].events == 0
  }

  function Took(s: State, at: Drain): State {
    s.(q := s.q.(head := s.q.head + 1), w := s.w.(at := at))
  }

  function TookSubmission(s: State, x: SubId, at: Drain): State {
    s.(q := s.q.(head := s.q.head + 1), w := s.w.(at := at, pending := s.w.pending + [x]))
  }

  /** The loop of _drain() and the collecting loop of _final_drain(), up to an emit. */
  function LoopStep(s: State, c: DrainChoice): Next {
    match s.w.at
    case AtTop => To(s.(w := s.w.(at := if s.ev.stop then AtFinalGet([]) else AtGet)))
    case AtGet =>
      if |s.q.log| <= s.q.head then
        if c.Idle? then To(s.(w := s.w.(at := Deciding))) else Blocked
      else (match s.q.log[s.q.head]
            case Marker(f) => To(Took(s, HasMarker(f, MainLoop)))
            case Sentinel => To(Took(s, AtFinalGet([])))
            case Submission(x) => To(TookSubmission(s, x, Deciding)))
    case Deciding =>
      if c.Idle? then
        if |s.w.pending| < s.limits.batchSize then To(s.(w := s.w.(at := AtTop))) else Blocked
      else To(s.(w := s.w.(at := EmitStart(OnTrigger))))
    case AtFinalGet(ms) =>
      if |s.q.log| <= s.q.head then To(s.(w := s.w.(at := EmitStart(OnExit(ms)))))
      else (match s.q.log[s.q.head]
            case Marker(f) => To(Took(s, HasMarker(f, FinalLoop(ms))))
            case Sentinel => To(Took(s, AtFinalGet(ms)))
            case Submission(x) => To(TookSubmission(s, x, AtFinalGet(ms))))
    case HasMarker(m, loop) =>
      To(s.(w := s.w.(taken := s.w.taken + {m}, at := Registered(m, s.ev.settled, loop))))
    case Registered(m, sawSettled, loop) =>
      To(s.(flushes := if sawSettled then SetEvent(s.flushes, m) else s.flushes,
            w := s.w.(at := if loop.MainLoop? then EmitStart(OnFlush(m)) else AtFinalGet(loop.markers + [m]))))
    case _ => Blocked
  }

  function AfterMarks(why: Why): Drain {
    if why.OnExit? then Finishing(false) else AtTop
  }

  function AfterEmit(why: Why): Drain {
    if Marks(why) == [] then AfterMarks(why) else Judging(why, 0)
  }

  function AfterCrash(why: Why): Drain {
    if Marks(why) == [] then Finishing(true) else Answering(why, 0, true)
  }

  /** _emit_pending() and _emit(): attempts, back-off, and a batch abandoned or declined. */
  function EmitStep(s: State, c: DrainChoice): Next {
    match s.w.at
    case EmitStart(why) =>
      if NoEvents(s) then To(s.(w := Settle(s.w, NothingToEmit).(at := AfterEmit(why))))
      else To(s.(w := s.w.(at := Attempting(why, 0))))
    case Attempting(why, tries) =>
      To(s.(w := s.w.(at := Inside(why, tries)), target := s.target.(inside := In(s.target.sink))))
    case Inside(why, tries) =>
      if s.stops.nested.OnDrain? then Blocked
      else if c.EmitReturns? then
        To(s.(w := Settle(s.w, Delivered).(at := AfterEmit(why)), target := s.target.(inside := Outside)))
      else if c.EmitRaises? then
        To(s.(w := s.w.(at := if tries >= s.limits.retries then Abandoning(why) else Backoff(why, tries + 1)),
              target := s.target.(inside := Outside)))
      else if c.EmitDies? then
        To(s.(w := s.w.(at := AfterCrash(why)), target := s.target.(inside := Outside)))
      else Blocked
    case Backoff(why, tries) =>
      if c.Decline? then
        if s.gate.exitDeadline.By? then To(s.(w := s.w.(at := Abandoning(why)))) else Blocked
      else To(s.(w := s.w.(at := Attempting(why, tries))))
    case Abandoning(why) =>
      To(s.(w := Settle(s.w, Abandoned(s.w.failed)).(failed := s.w.failed + 1, at := AfterEmit(why))))
    case _ => Blocked
  }

  function NextMark(why: Why, i: nat, crashed: bool): Drain {
    if i + 1 < |Marks(why)| then Answering(why, i + 1, crashed)
    else if crashed then Finishing(true)
    else AfterMarks(why)
  }

  /** Judging, answering and letting go of the markers a batch was emitted for. */
  function AnswerStep(s: State): Next {
    match s.w.at
    case Judging(why, i) =>
      if i < |Marks(why)| && Marks(why)[i] in s.flushes then
        To(s.(w := s.w.(at := Writing(why, i, s.w.failed == s.flushes[Marks(why)[i]].seen))))
      else Blocked
    case Writing(why, i, verdict) =>
      if i < |Marks(why)| && Marks(why)[i] in s.flushes then
        var m := Marks(why)[i];
        To(s.(flushes := s.flushes[m := s.flushes[m].(delivered := verdict, judgedAt := |s.w.history|)],
              w := s.w.(at := if i + 1 < |Marks(why)| then Judging(why, i + 1) else Answering(why, 0, false))))
      else Blocked
    case Answering(why, i, crashed) =>
      if i < |Marks(why)| then
        To(s.(flushes := SetEvent(s.flushes, Marks(why)[i]), w := s.w.(at := LettingGo(why, i, crashed))))
      else Blocked
    case LettingGo(why, i, crashed) =>
      if i < |Marks(why)| then
        To(s.(w := s.w.(taken := s.w.taken - {Marks(why)[i]}, at := NextMark(why, i, crashed))))
      else Blocked
    case _ => Blocked
  }

  /** The exit of _run(): finished, then settled, then the record, then the sweep. */
  function ExitStep(s: State, c: DrainChoice): Next {
    match s.w.at
    case Finishing(crashed) => To(s.(ev := s.ev.(finished := true), w := s.w.(at := Settling(crashed))))
    case Settling(crashed) =>
      To(s.(ev := s.ev.(settled := true),
            w := s.w.(at := if crashed then Recording else Sweeping(false, BeforeTaken))))
    case Recording => To(s.(w := s.w.(at := Sweeping(true, BeforeTaken))))
    case Sweeping(crashed, sweep) =>
      var pick := if c.Pick? then c.f else 0;
      if sweep.SweepDone? then To(s.(w := s.w.(at := Dead(crashed))))
      else if SweepMoves(sweep, pick) then
        To(s.(flushes := SweepSets(s, sweep, pick), w := s.w.(at := Sweeping(crashed, SweepNext(s, sweep, pick)))))
      else Blocked
    case _ => Blocked
  }

  datatype Phase = Looping | Emitting | Marking | Exiting

  function PhaseOf(d: Drain): Phase {
    match d
    case EmitStart(_) => Emitting
    case Attempting(_, _) => Emitting
    case Inside(_, _) => Emitting
    case Backoff(_, _) => Emitting
    case Abandoning(_) => Emitting
    case Judging(_, _) => Marking
    case Writing(_, _, _) => Marking
    case Answering(_, _, _) => Marking
    case LettingGo(_, _, _) => Marking
    case Finishing(_) => Exiting
    case Settling(_) => Exiting
    case Recording => Exiting
    case Sweeping(_, _) => Exiting
    case Dead(_) => Exiting
    case _ => Looping
  }

  function DrainStep(s: State, c: DrainChoice): Next {
    match PhaseOf(s.w.at)
    case Looping => LoopStep(s, c)
    case Emitting => EmitStep(s, c)
    case Marking => AnswerStep(s)
    case Exiting => ExitStep(s, c)
  }

  // ------------------------------------------------------------------ stop() steps

  /** The decision of claim_stop(): who wins, and the gate, the recorded deadline and the owed
      join it leaves behind. */
  predicate ClaimWins(g: Gate, onDrain: bool) {
    !g.stopped || (g.joinOwed && !onDrain)
  }

  function ClaimGate(g: Gate, onDrain: bool, deadline: Deadline): Gate {
    if !ClaimWins(g, onDrain) then g
    else if g.stopped then Gate(true, deadline, false, true)
    else Gate(true, deadline, onDrain, g.joinTakenOver)
  }

  datatype StopChoice =
    | Begin(onDrain: bool, viaShutdown: bool, deadline: Deadline)
    | Proceed
    | Alternative        // a join or a wait timed out, or the signal set is not this worker's
    | Answer(f: FlushId)

  function BeginStop(s: State, c: StopId, choice: StopChoice): Next {
    if !choice.Begin? || (choice.onDrain && !(s.w.at.Inside? && s.stops.nested.NoCall?)) then Blocked
    else
      To(s.(stops := Stops(s.stops.calls[c := Stop(choice.onDrain, choice.viaShutdown, choice.deadline,
                                                   if choice.viaShutdown then Retiring else Claiming)],
                           if choice.onDrain then OnDrain(c) else s.stops.nested)))
  }

  /** Where the call goes next; its own point again when it cannot go on. */
  function StopPcNext(s: State, st: Stop, choice: StopChoice): StopPc {
    match st.pc
    case Retiring => Claiming
    case Claiming =>
      var won := ClaimWins(s.gate, st.onDrain);
      if st.viaShutdown then Signalling(won) else if won then ReadingTakeover else Losing
    case Signalling(won) => if won then ReadingTakeover else Losing
    case Losing => if st.onDrain || s.ev.settled || choice.Alternative? then StopDone(false, false) else Losing
    case ReadingTakeover => ReadingFinished(s.gate.joinTakenOver && !st.onDrain)
    case ReadingFinished(took) => if s.ev.finished || took then SettingStop else PuttingSentinel
    case PuttingSentinel => SettingStop
    case SettingStop => if st.onDrain then StopDone(true, false) else Joining
    case Joining => if !Alive(s) || (st.deadline.By? && choice.Alternative?) then CheckingJoin else Joining
    case CheckingJoin => if Alive(s) then Expiring else Releasing(BeforeTaken, false)
    case Expiring => MarkingSettled
    case MarkingSettled => Releasing(BeforeTaken, true)
    case Releasing(sweep, expired) =>
      if sweep.SweepDone? then StopDone(true, expired)
      else if SweepMoves(sweep, PickOf(choice)) then Releasing(SweepNext(s, sweep, PickOf(choice)), expired)
      else st.pc
    case StopDone(_, _) => st.pc
  }

  function PickOf(choice: StopChoice): FlushId {
    if choice.Answer? then choice.f else 0
  }

  function StopEvents(ev: Events, st: Stop, choice: StopChoice): Events {
    match st.pc
    case Retiring => ev.(retired := true)
    case Claiming => ev.(directStop := ev.directStop || !st.viaShutdown)
    case Signalling(_) => ev.(stop := ev.stop || !choice.Alternative?)
    case SettingStop => ev.(stop := true)
    case MarkingSettled => ev.(settled := true)
    case _ => ev
  }

  /** One step of stop call c. */
  function StopStep(s: State, c: StopId, choice: StopChoice): Next {
    if c !in s.stops.calls then BeginStop(s, c, choice)
    else
      var st := s.stops.calls[c];
      var pc := StopPcNext(s, st, choice);
      if pc == st.pc then Blocked
      else
        To(State(s.limits,
                 if st.pc.PuttingSentinel? && !IsFull(s.limits, s.q) then s.q.(log := s.q.log + [Sentinel]) else s.q,
                 s.subs,
                 if st.pc.Releasing? then SweepSets(s, st.pc.sweep, PickOf(choice)) else s.flushes,
                 s.w,
                 StopEvents(s.ev, st, choice),
                 if st.pc.Claiming? then ClaimGate(s.gate, st.onDrain, st.deadline) else s.gate,
                 Stops(s.stops.calls[c := st.(pc := pc)],
                       if pc.StopDone? && st.onDrain then NoCall else s.stops.nested),
                 s.target))
  }

  // ------------------------------------------------------------------ retarget() steps

  /** One step of the configure() thread's retarget. Swaps are taken one at a time, as
      configure() documents; `flush` names the flush call the swap makes. */
  function SwapStep(s: State, target: Sink, flush: FlushId): Next {
    var t := s.target;
    match t.swap
    case NoSwap => To(s.(target := t.(swap := SwapCheck(target))))
    case SwapCheck(x) =>
      if s.ev.retired || t.sink == x then To(s.(target := t.(swap := NoSwap)))
      else if flush in s.flushes then Blocked
      else To(s.(flushes := s.flushes[flush := FRESH_FLUSH], target := t.(swap := SwapDraining(x, flush))))
    case SwapDraining(x, f) =>
      if f in s.flushes && s.flushes[f].pc.Succeeded? then To(s.(target := t.(swap := SwapAssign(x, true))))
      else if f in s.flushes && s.flushes[f].pc.Failed? then To(s.(target := t.(swap := SwapAssign(x, false))))
      else Blocked
    case SwapAssign(x, drained) =>
      if s.ev.retired || t.sink == x then To(s.(target := t.(swap := NoSwap)))
      else To(s.(target := t.(swap := SwapCommitted(x, drained))))
    case SwapCommitted(x, drained) =>
      To(s.(target := t.(sink := x, swap := SwapPointed(x, t.sink, drained))))
    case SwapPointed(x, prev, drained) =>
      if !drained then
        To(s.(target := Target(t.sink, t.held + {x}, t.inside, NoSwap, t.incomplete + 1)))
      else if flush in s.flushes then Blocked
      else
        To(s.(flushes := s.flushes[flush := FRESH_FLUSH],
              target := Target(t.sink, t.held + {x}, t.inside, SwapFencing(x, prev, flush), t.incomplete)))
    case SwapFencing(x, prev, f) =>
      if f in s.flushes && s.flushes[f].pc.Succeeded? then To(s.(target := t.(swap := SwapDropOld(x, prev))))
      else if f in s.flushes && s.flushes[f].pc.Failed? then
        To(s.(target := t.(swap := NoSwap, incomplete := t.incomplete + 1)))
      else Blocked
    case SwapDropOld(x, prev) =>
      To(s.(target := t.(held := t.held - {prev}, swap := NoSwap)))
  }

  // ------------------------------------------------------------------ runs

  datatype Step =
    | BySubmit(x: SubId, events: nat)
    | ByFlush(f: FlushId, bounded: bool, expired: bool)
    | ByDrain(drain: DrainChoice)
    | ByStop(c: StopId, stop: StopChoice)
    | BySwap(target: Sink, flush: FlushId)

  function Apply(s: State, step: Step): Next {
    match step
    case BySubmit(x, events) => SubmitStep(s, x, events)
    case ByFlush(f, bounded, expired) => FlushStep(s, f, bounded, expired)
    case ByDrain(c) => DrainStep(s, c)
    case ByStop(c, choice) => StopStep(s, c, choice)
    case BySwap(x, f) => SwapStep(s, x, f)
  }

  predicate Follows(run: seq<State>, steps: seq<Step>, i: nat)
    requires i < |steps| < |run|
  {
    Apply(run[i], steps[i]) == To(run[i + 1])
  }

  /** A run: any interleaving of the threads, starting from a freshly built worker. */
  ghost predicate IsRun(run: seq<State>, steps: seq<Step>) {
    && |run| == |steps| + 1
    && Init(run[0])
    && forall i {:trigger Follows(run, steps, i)} :: 0 <= i < |steps| ==> Follows(run, steps, i)
  }
}
