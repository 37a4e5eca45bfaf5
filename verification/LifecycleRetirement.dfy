/**
 The retirement count, the depth of no-worker shutdown() calls and the late worker: what every
 step of every thread keeps about them.
 */
module LifecycleRetirement {
  import opened LifecycleModel
  import V = WorkerView

  /** Whether a call is between the first and the last section of a shutdown() with no worker. */
  predicate ColdPc(pc: CallPc) {
    match pc
    case Taking(pass) => pass.ColdPass?
    case Checking(pass, _, _) => pass.ColdPass?
    case Closing(pass) => pass.ColdPass?
    case PuttingBack(pass) => pass.ColdPass?
    case ColdExit(_) => true
    case _ => false
  }

  function ColdCalls(calls: map<CallId, Call>): set<CallId> {
    set c | c in calls && ColdPc(calls[c].pc)
  }

  predicate Retired(o: Owner) {
    o.worker.Built? && o.retirements > o.worker.epoch
  }

  /** What a call's place says about the late worker, and about a swap past its check of the count. */
  predicate CallKnows(o: Owner, swap: Swap, call: Call) {
    && (TookLate(call) ==> o.worker.Built? && o.worker.builtLate && !o.late)
    && DutyFits(call)
    && (call.duty.MovedCount? ==> Retired(o))
    && (call.duty.AskedStop? ==> Retired(o) && o.worker.stopAsked && !PastCheck(swap))
    && (call.hadWorker ==> Retired(o) && !PastCheck(swap))
    && (call.pc.StoppingWorker? ==> call.hadWorker)
    && (call.pc.Checking? && (call.hadWorker || call.duty.AskedStop?) ==> call.clear)
    && (ColdPc(call.pc) ==> !call.hadWorker)
  }

  /** A call does its duty by the late worker step by step, unless it was interrupted before it. */
  predicate DutyFits(call: Call) {
    && (ColdPc(call.pc) || call.pc.Entering? || call.hadWorker ==> call.duty.Untaken? && !call.cut)
    && (call.cut ==> call.pc == Finished(true) && (call.duty.Untaken? || call.duty.TookIt?))
    && (call.duty.TookIt? ==> call.pc.RetiringLate? || call.cut)
    && (call.pc.RetiringLate? ==> call.duty.TookIt?)
    && (call.duty.MovedCount? <==> call.pc.StoppingLate?)
    && (call.duty.AskedStop? ==> AfterStop(call.pc))
  }

  /** The second pass and what follows it. */
  predicate AfterStop(pc: CallPc) {
    match pc
    case Taking(pass) => pass.SecondPass?
    case Checking(pass, _, _) => pass.SecondPass?
    case Closing(pass) => pass.SecondPass?
    case PuttingBack(pass) => pass.SecondPass?
    case Finished(_) => true
    case _ => false
  }

  predicate CallKnowsAt(s: State, c: CallId) {
    c in s.calls ==> CallKnows(s.owner, s.swap, s.calls[c])
  }

  /** At most one call ever takes the late worker. */
  predicate OneTaker(s: State, c: CallId, d: CallId) {
    c in s.calls && d in s.calls && TookLate(s.calls[c]) && TookLate(s.calls[d]) ==> c == d
  }

  ghost predicate Taken(s: State) {
    exists c :: c in s.calls && TookLate(s.calls[c])
  }

  /** The late worker is registered only while a no-worker shutdown() runs, and a worker built
      then is either still registered or was taken. */
  ghost predicate LateFits(s: State) {
    && s.owner.depth == |ColdCalls(s.calls)|
    && (s.owner.late ==> s.owner.depth > 0 && s.owner.worker.Built? && s.owner.worker.builtLate)
    && (s.owner.worker.Built? ==> s.owner.worker.epoch <= s.owner.retirements)
    && (s.owner.worker.Built? && s.owner.worker.builtLate ==> s.owner.late || Taken(s))
    && (s.owner.worker.Built? && s.owner.worker.stopAsked ==> Retired(s.owner))
  }

  ghost predicate RetirementInv(s: State) {
    && LateFits(s)
    && (forall c {:trigger CallKnowsAt(s, c)} :: CallKnowsAt(s, c))
    && (forall c, d {:trigger OneTaker(s, c, d)} :: OneTaker(s, c, d))
  }

  /** Steps that leave the calls, the count and the late worker alone. */
  lemma {:induction false} RetirementKept(s: State, s': State)
    requires RetirementInv(s)
    requires s'.calls == s.calls
    requires s'.owner == s.owner || (s.owner.worker.Built? && s'.owner.worker.Built?
                                        && s'.owner == s.owner.(worker := s.owner.worker.(view := s'.owner.worker.view)))
    requires PastCheck(s'.swap) ==> PastCheck(s.swap) || Live(s.owner)
    ensures RetirementInv(s')
  {
    forall c: CallId ensures CallKnowsAt(s', c) { assert CallKnowsAt(s, c); }
    forall c: CallId, d: CallId ensures OneTaker(s', c, d) { assert OneTaker(s, c, d); }
  }

  lemma {:induction false} RetirementBuild(s: State, x: Sink, s': State)
    requires RetirementInv(s) && BuildStep(s, x) == To(s')
    ensures RetirementInv(s')
  {
    forall c: CallId ensures CallKnowsAt(s', c) { assert CallKnowsAt(s, c); }
    forall c: CallId, d: CallId ensures OneTaker(s', c, d) { assert OneTaker(s, c, d); }
  }

  /** How the set of running no-worker calls follows one call's move. */
  lemma {:induction false} ColdCallsMoved(calls: map<CallId, Call>, c: CallId, call: Call)
    ensures var was := c in calls && ColdPc(calls[c].pc);
            |ColdCalls(calls[c := call])| == |ColdCalls(calls)| + (if ColdPc(call.pc) then 1 else 0) - (if was then 1 else 0)
  {
    var rest := ColdCalls(calls) - {c};
    assert ColdCalls(calls) == if c in calls && ColdPc(calls[c].pc) then rest + {c} else rest;
    assert ColdCalls(calls[c := call]) == if ColdPc(call.pc) then rest + {c} else rest;
  }

  /** A call moving on without touching the owner's own fields. */
  lemma {:induction false} RetirementMoved(s: State, c: CallId, s': State)
    requires RetirementInv(s) && c in s'.calls && s'.calls == s.calls[c := s'.calls[c]] && s'.owner == s.owner
    requires s'.swap == s.swap && s'.calls[c].duty == (if c in s.calls then s.calls[c].duty else Untaken)
    requires ColdPc(s'.calls[c].pc) == (c in s.calls && ColdPc(s.calls[c].pc))
    requires CallKnowsAt(s, c) ==> CallKnows(s'.owner, s'.swap, s'.calls[c])
    ensures RetirementInv(s')
  {
    ColdCallsMoved(s.calls, c, s'.calls[c]);
    assert CallKnowsAt(s, c);
    forall d: CallId ensures CallKnowsAt(s', d) { assert CallKnowsAt(s, d); }
    forall d: CallId, e: CallId ensures OneTaker(s', d, e) { assert OneTaker(s, d, e); }
    if Taken(s) {
      var d :| d in s.calls && TookLate(s.calls[d]);
      assert d in s'.calls && TookLate(s'.calls[d]);
    }
  }

  /** One section of a call, seen from the owner's fields and the calls alone. */
  predicate SectionMoves(s: State, c: CallId, s': State) {
    && c in s.calls && IsSection(s.calls[c].pc)
    && s'.owner == OwnerSection(s.owner, s.calls[c].pc)
    && s'.calls == s.calls[c := CallAfterSection(s.owner, s.calls[c])]
    && s'.swap == s.swap && (ClaimsStop(s.owner, s.calls[c].pc) ==> !PastCheck(s.swap))
  }

  lemma {:induction false} SectionKnows(s: State, c: CallId, s': State, d: CallId)
    requires SectionMoves(s, c, s') && RetirementInv(s)
    ensures CallKnowsAt(s', d)
  {
    assert CallKnowsAt(s, c) && CallKnowsAt(s, d);
  }

  lemma {:induction false} SectionTakers(s: State, c: CallId, s': State, d: CallId, e: CallId)
    requires SectionMoves(s, c, s') && RetirementInv(s)
    ensures OneTaker(s', d, e)
  {
    assert OneTaker(s, d, e) && CallKnowsAt(s, d) && CallKnowsAt(s, e) && CallKnowsAt(s, c);
  }

  lemma {:induction false} SectionLate(s: State, c: CallId, s': State)
    requires SectionMoves(s, c, s') && RetirementInv(s)
    ensures LateFits(s')
  {
    ColdCallsMoved(s.calls, c, s'.calls[c]);
    if s.calls[c].pc.ColdExit? { assert c in ColdCalls(s.calls); }
    if s.calls[c].pc.ColdExit? && s.owner.late {
      assert TookLate(s'.calls[c]);
    } else if Taken(s) {
      var d :| d in s.calls && TookLate(s.calls[d]);
      assert CallKnowsAt(s, c) && TookLate(s'.calls[d]);
    }
  }

  lemma {:induction false} RetirementSection(s: State, c: CallId, s': State)
    requires RetirementInv(s) && SectionMoves(s, c, s')
    ensures RetirementInv(s')
  {
    SectionLate(s, c, s');
    forall d: CallId ensures CallKnowsAt(s', d) { SectionKnows(s, c, s', d); }
    forall d: CallId, e: CallId ensures OneTaker(s', d, e) { SectionTakers(s, c, s', d, e); }
  }

  /** What one step of a closer leaves alone, and where its call goes. */
  ghost predicate CloserMoves(s: State, c: CallId, s': State) {
    && c in s.calls && c in s'.calls
    && s'.owner == s.owner && s'.calls == s.calls[c := s'.calls[c]] && s'.swap == s.swap
    && var was, now := s.calls[c], s'.calls[c];
       && now.duty == was.duty && now.cut == was.cut && now.hadWorker == was.hadWorker
       && (now.pc.Checking? ==> now.clear == if was.pc.Taking? then Clear(s) else was.clear)
       && PassOnward(was.pc, now.pc)
  }

  lemma {:induction false} TakeFrame(s: State, c: CallId, choice: CallChoice, s': State)
    requires c in s.calls && s.calls[c].pc.Checking? && TakeStep(s, c, s.calls[c], choice) == To(s')
    ensures CloserMoves(s, c, s')
  {
  }

  lemma {:induction false} HandOffFrame(s: State, c: CallId, choice: CallChoice, s': State)
    requires c in s.calls && s.calls[c].pc.Closing? && HandOffStep(s, c, s.calls[c], choice) == To(s')
    ensures CloserMoves(s, c, s')
  {
  }

  /** The closer's steps move the call within its pass, or on to what follows the pass. */
  lemma {:induction false} CloserFrame(s: State, c: CallId, choice: CallChoice, s': State)
    requires c in s.calls && CloserStep(s, c, s.calls[c], choice) == To(s')
    ensures CloserMoves(s, c, s')
  {
    match s.calls[c].pc
    case Taking(pass) =>
    case Checking(pass, todo, passed) => TakeFrame(s, c, choice, s');
    case Closing(pass) => HandOffFrame(s, c, choice, s');
    case PuttingBack(pass) =>
    case _ =>
  }

  predicate InPass(pc: CallPc) {
    pc.Taking? || pc.Checking? || pc.Closing? || pc.PuttingBack?
  }

  /** Within the same pass, or on from it. */
  predicate PassOnward(was: CallPc, now: CallPc) {
    && InPass(was)
    && (InPass(now) ==> now.pass == was.pass || (was.pass.WorkerPass? && now.pass.SecondPass? && now.Taking?))
    && (!InPass(now) ==> if was.pass.ColdPass? then now.ColdExit? else now.Finished?)
    && (now.Checking? ==> was.Taking? || was.Checking?)
  }

  lemma {:induction false} CloserKnows(s: State, c: CallId, choice: CallChoice, s': State)
    requires c in s.calls && CloserStep(s, c, s.calls[c], choice) == To(s') && CallKnows(s.owner, s.swap, s.calls[c])
    ensures CallKnows(s.owner, s.swap, s'.calls[c])
    ensures ColdPc(s'.calls[c].pc) == ColdPc(s.calls[c].pc)
  {
    CloserFrame(s, c, choice, s');
  }

  lemma {:induction false} RetirementCall(s: State, c: CallId, choice: CallChoice, s': State)
    requires RetirementInv(s) && CallStep(s, c, choice) == To(s')
    ensures RetirementInv(s')
  {
    if c in s.calls && IsSection(s.calls[c].pc) {
      RetirementSection(s, c, s');
    } else if c !in s.calls {
      RetirementMoved(s, c, s');
    } else {
      CloserFrame(s, c, choice, s');
      assert CallKnowsAt(s, c);
      CloserKnows(s, c, choice, s');
      RetirementMoved(s, c, s');
    }
  }

  lemma {:induction false} RetirementStep(s: State, step: Step, s': State)
    requires RetirementInv(s) && Apply(s, step) == To(s')
    ensures RetirementInv(s')
  {
    match step
    case ByOrphan(x) => RetirementKept(s, s');
    case ByBuild(x) => RetirementBuild(s, x, s');
    case ByDrain(move) => RetirementKept(s, s');
    case ByTask(t, move) => RetirementKept(s, s');
    case ByCall(c, choice) => RetirementCall(s, c, choice, s');
    case BySwap(choice) => RetirementKept(s, s');
  }
}
