/**
 The window between a retarget's two assignments, in which the drain thread can be inside a sink that
 may_be_inside() denies: it opens wherever the thread is about to attempt, and it does arise.
 */
module WorkerWindow {
  import opened WorkerModel
  import opened WorkerTarget
  import opened WorkerTheorems
  import A = WorkerView

  /** The drain thread is inside a sink the worker says it cannot be inside. */
  predicate Denied(s: State) {
    s.target.inside.In? && !A.MayBeInside(View(s), s.target.inside.sink)
  }

  /** It happens exactly between a retarget's two assignments, with the thread already inside the sink
      just assigned and that sink not held before. */
  lemma {:induction false} DeniedExactlyInTheWindow(s: State)
    requires Reachable(s)
    ensures Denied(s) <==>
            s.target.swap.SwapPointed? && s.target.inside == In(s.target.swap.sink) && s.target.swap.sink !in s.target.held
  {
    InsideIsHeldOrPointedAt(s);
  }

  /** From s some steps lead to s'. */
  ghost predicate Leads(s: State, s': State) {
    exists run: seq<State>, steps: seq<Step> :: IsPath(run, steps) && run[0] == s && run[|steps|] == s'
  }

  ghost predicate IsPath(run: seq<State>, steps: seq<Step>) {
    && |run| == |steps| + 1
    && forall i {:trigger Follows(run, steps, i)} :: 0 <= i < |steps| ==> Follows(run, steps, i)
  }

  lemma {:induction false} LeadsSelf(s: State)
    ensures Leads(s, s)
  {
    var run: seq<State>, steps: seq<Step> := [s], [];
    assert IsPath(run, steps) && run[0] == s && run[|steps|] == s;
  }

  lemma {:induction false} LeadsOn(s: State, m: State, step: Step, s': State)
    requires Leads(s, m) && Apply(m, step) == To(s')
    ensures Leads(s, s')
  {
    var run: seq<State>, steps: seq<Step> :| IsPath(run, steps) && run[0] == s && run[|steps|] == m;
    var run', steps' := run + [s'], steps + [step];
    forall i | 0 <= i < |steps'| ensures Follows(run', steps', i) {
      if i < |steps| { assert Follows(run, steps, i); }
    }
    assert IsPath(run', steps') && run'[0] == s && run'[|steps'|] == s';
  }

  lemma {:induction false} LeadsReaches(s: State, s': State)
    requires Init(s) && Leads(s, s')
    ensures Reachable(s')
  {
    var run: seq<State>, steps: seq<Step> :| IsPath(run, steps) && run[0] == s && run[|steps|] == s';
    assert IsRun(run, steps);
  }

  // ------------------------------------------------------------------ wherever the thread attempts

  /** Whatever else is going on: with a retarget past its check, to a sink the worker does not hold, and
      the drain thread about to attempt, one assignment and one step of the thread open the window. */
  lemma {:induction false} WindowOpens(s: State, x: Sink, f: FlushId)
    requires s.target.swap.SwapCommitted? && s.target.swap.sink !in s.target.held && s.w.at.Attempting?
    ensures var pointed := SwapStep(s, x, f);
            && pointed.To?
            && var inside := DrainStep(pointed.s, Go);
               inside.To? && Denied(inside.s) && inside.s.target.inside == In(s.target.swap.sink)
  {
  }

  // ------------------------------------------------------------------ it does arise

  function WithFlush(s: State, f: FlushId, fl: Flush): State {
    s.(flushes := s.flushes[f := fl])
  }

  /** A flush call's step that only reads. */
  lemma {:induction false} FlushGoes(from: State, s: State, f: FlushId, fl: Flush, pc: FlushPc, expired: bool)
    requires Leads(from, WithFlush(s, f, fl)) && !fl.pc.Stamping? && !fl.pc.Enqueuing?
    requires FlushRead(s, fl, expired) == pc && pc != fl.pc
    ensures Leads(from, WithFlush(s, f, fl.(pc := pc)))
  {
    var m := WithFlush(s, f, fl);
    assert m.flushes[f := fl.(pc := pc)] == s.flushes[f := fl.(pc := pc)];
    assert FlushRead(m, fl, expired) == pc;
    assert Apply(m, ByFlush(f, true, expired)) == To(WithFlush(s, f, fl.(pc := pc)));
    LeadsOn(from, m, ByFlush(f, true, expired), WithFlush(s, f, fl.(pc := pc)));
  }

  /** Nothing has been asked to stop, and the queue is empty. */
  predicate Quiet(s: State) {
    !s.ev.retired && !s.ev.finished && !s.ev.settled && Alive(s) && s.q.head == |s.q.log|
  }

  lemma {:induction false} FlushStamps(from: State, s: State, f: FlushId)
    requires Leads(from, WithFlush(s, f, FRESH_FLUSH)) && Quiet(s)
    ensures Leads(from, WithFlush(s, f, FRESH_FLUSH.(pc := Enqueuing, seen := s.w.failed)))
  {
    var fl := FRESH_FLUSH;
    FlushGoes(from, s, f, fl, CheckingAlive, false);
    fl := fl.(pc := CheckingAlive);
    FlushGoes(from, s, f, fl, Stamping, false);
    fl := fl.(pc := Stamping);
    var m, next := WithFlush(s, f, fl), WithFlush(s, f, fl.(pc := Enqueuing, seen := s.w.failed));
    assert m.flushes[f := next.flushes[f]] == next.flushes;
    LeadsOn(from, m, ByFlush(f, true, false), next);
  }

  function Queued(s: State, f: FlushId): State {
    s.(q := s.q.(log := s.q.log + [Marker(f)]))
  }

  lemma {:induction false} FlushPuts(from: State, s: State, f: FlushId, fl: Flush)
    requires Leads(from, WithFlush(s, f, fl)) && Quiet(s) && fl.pc.Enqueuing?
    ensures Leads(from, WithFlush(Queued(s, f), f, fl.(pc := Read1, at := |s.q.log|)))
  {
    var m, next := WithFlush(s, f, fl), WithFlush(Queued(s, f), f, fl.(pc := Read1, at := |s.q.log|));
    assert m.flushes[f := next.flushes[f]] == next.flushes;
    assert Apply(m, ByFlush(f, true, false)) == To(next);
    LeadsOn(from, m, ByFlush(f, true, false), next);
  }

  /** A flush() whose marker nobody takes out in time. */
  lemma {:induction false} FlushTimesOut(from: State, s: State, f: FlushId, fl: Flush)
    requires Leads(from, WithFlush(s, f, fl)) && fl.pc.Read1? && fl.bounded && !fl.event
    requires !s.ev.finished && !s.ev.settled && Alive(s)
    ensures Leads(from, WithFlush(s, f, fl.(pc := Failed(TimedOut, true))))
  {
    var next := fl;
    FlushGoes(from, s, f, next, Read3(false), false);
    next := fl.(pc := Read3(false));
    FlushGoes(from, s, f, next, Read4(false), false);
    next := fl.(pc := Read4(false));
    FlushGoes(from, s, f, next, Read6(false), false);
    next := fl.(pc := Read6(false));
    FlushGoes(from, s, f, next, Waiting, false);
    next := fl.(pc := Waiting);
    FlushGoes(from, s, f, next, Failed(TimedOut, true), true);
  }

  /** One submission of one event, taken out and about to be attempted. */
  lemma {:induction false} AttemptArises(s: State) returns (a: State)
    requires Init(s)
    ensures Leads(s, a) && Quiet(a) && a.w.at == Attempting(OnTrigger, 0)
    ensures a.target == s.target && a.flushes == map[]
  {
    LeadsSelf(s);
    var steps := [BySubmit(1, 1), BySubmit(1, 1), BySubmit(1, 1), ByDrain(Go), ByDrain(Go)];
    var s1 := Apply(s, steps[0]).s;
    LeadsOn(s, s, steps[0], s1);
    var s2 := Apply(s1, steps[1]).s;
    LeadsOn(s, s1, steps[1], s2);
    var s3 := Apply(s2, steps[2]).s;
    LeadsOn(s, s2, steps[2], s3);
    var s4 := Apply(s3, steps[3]).s;
    LeadsOn(s, s3, steps[3], s4);
    var s5 := Apply(s4, steps[4]).s;
    LeadsOn(s, s4, steps[4], s5);
    a := BatchAttempted(s, s5);
  }

  lemma {:induction false} BatchAttempted(from: State, s: State) returns (a: State)
    requires Leads(from, s) && Quiet(s) && s.w.at.Deciding? && s.w.pending == [1]
    requires 1 in s.subs.calls && s.subs.calls[1].events == 1
    ensures Leads(from, a) && a == s.(w := s.w.(at := Attempting(OnTrigger, 0)))
  {
    var m := s.(w := s.w.(at := EmitStart(OnTrigger)));
    LeadsOn(from, s, ByDrain(Go), m);
    a := s.(w := s.w.(at := Attempting(OnTrigger, 0)));
    assert 1 in m.w.pending;
    LeadsOn(from, m, ByDrain(Go), a);
  }

  /** A swap whose drain was not confirmed in time comes to its two assignments. */
  lemma {:induction false} CommitArises(from: State, a: State, x: Sink) returns (c: State)
    requires Leads(from, a) && Quiet(a) && a.flushes == map[] && a.target.swap.NoSwap? && x != a.target.sink
    ensures Leads(from, c) && c.w == a.w && c.target == a.target.(swap := SwapCommitted(x, false))
  {
    var s1 := a.(target := a.target.(swap := SwapCheck(x)));
    LeadsOn(from, a, BySwap(x, 7), s1);
    var s := a.(target := a.target.(swap := SwapDraining(x, 7)));
    LeadsOn(from, s1, BySwap(x, 7), WithFlush(s, 7, FRESH_FLUSH));
    FlushStamps(from, s, 7);
    var fl := FRESH_FLUSH.(pc := Enqueuing, seen := s.w.failed);
    FlushPuts(from, s, 7, fl);
    fl := fl.(pc := Read1, at := |s.q.log|);
    FlushTimesOut(from, Queued(s, 7), 7, fl);
    var m := WithFlush(Queued(s, 7), 7, fl.(pc := Failed(TimedOut, true)));
    var m1 := m.(target := a.target.(swap := SwapAssign(x, false)));
    LeadsOn(from, m, BySwap(x, 7), m1);
    c := m.(target := a.target.(swap := SwapCommitted(x, false)));
    LeadsOn(from, m1, BySwap(x, 7), c);
  }

  /** From every fresh worker some run reaches the window. */
  lemma {:induction false} WindowArises(s: State)
    requires Init(s)
    ensures exists d :: Reachable(d) && Denied(d)
  {
    var x := s.target.sink + 1;
    var a := AttemptArises(s);
    var c := CommitArises(s, a, x);
    WindowOpens(c, x, 0);
    var p := SwapStep(c, x, 0).s;
    LeadsOn(s, c, BySwap(x, 0), p);
    var d := DrainStep(p, Go).s;
    LeadsOn(s, p, ByDrain(Go), d);
    LeadsReaches(s, d);
  }
}
