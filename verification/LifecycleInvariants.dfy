/**
 What every step of the lifecycle keeps: the registry is exactly the closes in flight, no arming is
 forgotten, the lock's holder is where it should be, and the count and the late worker agree.
 */
module LifecycleInvariants {
  import opened LifecycleModel
  import V = WorkerView

  // ------------------------------------------------------------------ the registry

  predicate TaskListed(b: Books, t: TaskId) {
    t in b.tasks ==>
      && t < b.next && b.tasks[t].reg == t
      && b.tasks[t].sink in b.registry && b.registry[b.tasks[t].sink] == t
  }

  predicate EntryBacked(b: Books, x: Sink) {
    x in b.registry ==> b.registry[x] in b.tasks && b.tasks[b.registry[x]].sink == x
  }

  /** The registry names one task for each sink with a close in flight, and every task is named. */
  ghost predicate BooksInv(b: Books) {
    && (forall t {:trigger TaskListed(b, t)} :: TaskListed(b, t))
    && (forall x {:trigger EntryBacked(b, x)} :: EntryBacked(b, x))
  }

  lemma {:induction false} TakeKeepsBooks(b: Books, x: Sink, p: Progress)
    requires BooksInv(b) && x !in b.registry
    ensures BooksInv(Take(b, x, p))
  {
    var b' := Take(b, x, p);
    assert TaskListed(b, b.next);
    forall t: TaskId ensures TaskListed(b', t) { assert TaskListed(b, t); }
    forall y: Sink ensures EntryBacked(b', y) { assert EntryBacked(b, y); }
  }

  lemma {:induction false} FinishKeepsBooks(b: Books, t: TaskId)
    requires BooksInv(b)
    ensures BooksInv(Finish(b, t))
    ensures t in b.tasks ==> Finish(b, t).registry == b.registry - {b.tasks[t].sink}
  {
    var b' := Finish(b, t);
    assert TaskListed(b, t);
    forall u: TaskId ensures TaskListed(b', u) { assert TaskListed(b, u); }
    forall y: Sink ensures EntryBacked(b', y) { assert EntryBacked(b, y); }
  }

  lemma {:induction false} ProgressKeepsBooks(b: Books, t: TaskId, p: Progress)
    requires BooksInv(b) && t in b.tasks
    ensures BooksInv(b.(tasks := b.tasks[t := b.tasks[t].(progress := p)]))
  {
    var b' := b.(tasks := b.tasks[t := b.tasks[t].(progress := p)]);
    forall u: TaskId ensures TaskListed(b', u) { assert TaskListed(b, u); }
    forall y: Sink ensures EntryBacked(b', y) { assert EntryBacked(b, y); }
  }

  lemma {:induction false} ArmKeepsBooks(b: Books, x: Sink)
    requires BooksInv(b)
    ensures BooksInv(Arm(b, x))
  {
    forall u: TaskId ensures TaskListed(Arm(b, x), u) { assert TaskListed(b, u); }
    forall y: Sink ensures EntryBacked(Arm(b, x), y) { assert EntryBacked(b, y); }
  }

  lemma {:induction false} ReleaseKeepsBooks(b: Books, x: Sink, o: Outcome)
    requires BooksInv(b) && x !in b.registry
    ensures BooksInv(ReleaseDetached(b, x, o))
    ensures ReleaseDetached(b, x, o).owed == b.owed - {x}
    ensures o.Started? ==> ReleaseDetached(b, x, o).tasks == b.tasks[b.next := Task(x, b.next, Ready)]
                           && ReleaseDetached(b, x, o).registry == b.registry[x := b.next]
    ensures !o.Started? ==> ReleaseDetached(b, x, o).tasks == b.tasks && ReleaseDetached(b, x, o).registry == b.registry
  {
    TakeKeepsBooks(b, x, Ready);
    FinishKeepsBooks(Take(b, x, Ready), b.next);
    assert TaskListed(b, b.next);
    assert b.tasks[b.next := Task(x, b.next, Ready)] - {b.next} == b.tasks;
    assert b.registry[x := b.next] - {x} == b.registry;
  }

  // ------------------------------------------------------------------ no arming is forgotten

  /** A close of x has been decided and has not started yet. */
  predicate CloseComing(b: Books, x: Sink) {
    x in b.registry && b.registry[x] in b.tasks && !b.tasks[b.registry[x]].progress.Running?
  }

  /** x is still owed a close, or is about to get one. */
  predicate Pending(b: Books, x: Sink) {
    x in b.owed || CloseComing(b, x)
  }

  lemma {:induction false} TakePends(b: Books, x: Sink, p: Progress, y: Sink)
    requires BooksInv(b) && x !in b.registry && !p.Running? && Pending(b, y)
    ensures Pending(Take(b, x, p), y)
  {
    assert TaskListed(b, b.next) && EntryBacked(b, y);
  }

  /** A close's own progress matters to its own sink alone. */
  lemma {:induction false} ProgressPends(b: Books, t: TaskId, p: Progress, y: Sink)
    requires BooksInv(b) && t in b.tasks && Pending(b, y) && (y != b.tasks[t].sink || !p.Running?)
    ensures Pending(b.(tasks := b.tasks[t := b.tasks[t].(progress := p)]), y)
  {
    assert TaskListed(b, t) && EntryBacked(b, y);
  }

  /** The end of a close that had started leaves every later arming owed. */
  lemma {:induction false} FinishPends(b: Books, t: TaskId, y: Sink)
    requires BooksInv(b) && t in b.tasks && Pending(b, y) && (y != b.tasks[t].sink || b.tasks[t].progress.Running?)
    ensures Pending(Finish(b, t), y)
  {
    FinishKeepsBooks(b, t);
    assert TaskListed(b, t) && EntryBacked(b, y);
  }

  lemma {:induction false} ReleasePends(b: Books, x: Sink, o: Outcome, y: Sink)
    requires BooksInv(b) && x !in b.registry && Pending(b, y) && (y != x || o.Started?)
    ensures Pending(ReleaseDetached(b, x, o), y)
  {
    ReleaseKeepsBooks(b, x, o);
    assert TaskListed(b, b.next) && EntryBacked(b, y);
  }

  // ------------------------------------------------------------------ the lock and the take

  /** What a closer holding the lock has established about the sinks it let pass. */
  ghost predicate CallFits(s: State, c: CallId) {
    c in s.calls && s.calls[c].pc.Checking? ==>
      && s.lock == HeldByCall(c)
      && (forall x :: x in s.calls[c].pc.passed ==> x !in s.books.registry)
      && (s.calls[c].clear ==> StaysClear(s, s.calls[c].pc.todo, s.calls[c].pc.passed))
  }

  predicate StaysClear(s: State, todo: set<Sink>, passed: set<Sink>) {
    && ((s.swap.Retargeting? || PastCheck(s.swap)) && s.swap.sink in todo + passed ==> !Exposed(s, s.swap.sink))
    && (s.owner.worker.Built? ==> forall x :: x in passed ==> !V.MayBeInside(s.owner.worker.view, x))
  }

  ghost predicate LockInv(s: State) {
    && (forall c {:trigger CallFits(s, c)} :: CallFits(s, c))
    && (s.swap.Superseding? ==> s.lock.HeldBySwap?)
  }

  /** The worker is honest, and a swap in progress knows where it stands. */
  predicate ViewInv(s: State) {
    && (s.owner.worker.Built? ==> V.Honest(s.owner.worker.view, PointedAt(s.swap)))
    && (s.swap.Retargeting? ==> s.owner.worker.Built?)
    && (s.swap.Committed? ==> s.owner.worker.Built? && s.owner.worker.view.sink != s.swap.sink)
    && (s.swap.Pointed? ==>
          s.owner.worker.Built? && s.owner.worker.view.sink == s.swap.sink && s.swap.prev != s.swap.sink)
    && (s.swap.Reassigned? ==>
          s.owner.worker.Built? && s.owner.worker.view.sink == s.swap.sink && s.swap.prev != s.swap.sink)
  }

  // ------------------------------------------------------------------ each kind of step

  ghost predicate ClosesInv(s: State) {
    BooksInv(s.books) && LockInv(s) && ViewInv(s)
  }

  lemma {:induction false} ClosesOrphan(s: State, x: Sink, s': State)
    requires ClosesInv(s) && ArmStep(s, x) == To(s')
    ensures ClosesInv(s')
  {
    ArmKeepsBooks(s.books, x);
    forall c: CallId ensures CallFits(s', c) { assert CallFits(s, c); }
  }

  lemma {:induction false} ClosesBuild(s: State, x: Sink, s': State)
    requires ClosesInv(s) && BuildStep(s, x) == To(s')
    ensures ClosesInv(s')
  {
    ArmKeepsBooks(s.books, x);
    forall c: CallId ensures CallFits(s', c) { assert CallFits(s, c); }
  }

  lemma {:induction false} ClosesDrain(s: State, move: V.Move, s': State)
    requires ClosesInv(s) && DrainStep(s, move) == To(s')
    ensures ClosesInv(s')
  {
    forall c: CallId ensures CallFits(s', c) { assert CallFits(s, c); }
  }

  lemma {:induction false} ClosesTask(s: State, t: TaskId, move: TaskMove, s': State)
    requires ClosesInv(s) && TaskStep(s, t, move) == To(s')
    ensures ClosesInv(s')
  {
    if move.StartClose? {
      ProgressKeepsBooks(s.books, t, Running);
    } else {
      FinishKeepsBooks(s.books, t);
    }
    forall c: CallId ensures CallFits(s', c) { assert CallFits(s, c); }
  }

  lemma {:induction false} ClosesSection(s: State, c: CallId, choice: CallChoice, s': State)
    requires ClosesInv(s) && CallStep(s, c, choice) == To(s')
    requires c !in s.calls || IsSection(s.calls[c].pc)
    ensures ClosesInv(s')
  {
    forall d: CallId ensures CallFits(s', d) { assert CallFits(s, d); }
  }

  lemma {:induction false} ClosesTake(s: State, c: CallId, choice: CallChoice, s': State)
    requires ClosesInv(s) && c in s.calls && s.calls[c].pc.Checking? && TakeStep(s, c, s.calls[c], choice) == To(s')
    ensures ClosesInv(s')
  {
    assert CallFits(s, c);
    if s'.books != s.books {
      TakeKeepsBooks(s.books, choice.x, InHand(c, LeftUnfenced(s.owner.worker, choice.x)));
    }
    forall d: CallId ensures CallFits(s', d) { assert CallFits(s, d); }
  }

  lemma {:induction false} ClosesHandOff(s: State, c: CallId, choice: CallChoice, s': State)
    requires ClosesInv(s) && c in s.calls && s.calls[c].pc.Closing? && HandOffStep(s, c, s.calls[c], choice) == To(s')
    ensures ClosesInv(s')
  {
    if choice.HandOff? {
      ProgressKeepsBooks(s.books, choice.t, Ready);
      FinishKeepsBooks(s.books, choice.t);
    }
    forall d: CallId ensures CallFits(s', d) { assert CallFits(s, d); }
  }

  lemma {:induction false} ClosesPutBack(s: State, c: CallId, choice: CallChoice, s': State)
    requires ClosesInv(s) && c in s.calls && s.calls[c].pc.PuttingBack? && CloserStep(s, c, s.calls[c], choice) == To(s')
    ensures ClosesInv(s')
  {
    if s'.books != s.books {
      FinishKeepsBooks(s.books, choice.t);
      ArmKeepsBooks(Finish(s.books, choice.t), s.books.tasks[choice.t].sink);
    }
    forall d: CallId ensures CallFits(s', d) { assert CallFits(s, d); }
  }

  lemma {:induction false} ClosesCall(s: State, c: CallId, choice: CallChoice, s': State)
    requires ClosesInv(s) && CallStep(s, c, choice) == To(s')
    ensures ClosesInv(s')
  {
    if c !in s.calls || IsSection(s.calls[c].pc) {
      ClosesSection(s, c, choice, s');
    } else {
      match s.calls[c].pc
      case Checking(_, _, _) => ClosesTake(s, c, choice, s');
      case Closing(_) => ClosesHandOff(s, c, choice, s');
      case PuttingBack(_) => ClosesPutBack(s, c, choice, s');
      case Taking(_) => forall d: CallId ensures CallFits(s', d) { assert CallFits(s, d); }
      case _ =>
    }
  }

  lemma {:induction false} ClosesSwap(s: State, choice: SwapChoice, s': State)
    requires ClosesInv(s) && SwapStep(s, choice) == To(s')
    ensures ClosesInv(s')
  {
    match s.swap
    case Superseding(sink, todo) =>
      if choice.Release? && choice.x in todo && !Stays(s, sink, choice.x) {
        ReleaseKeepsBooks(s.books, choice.x, choice.outcome);
      } else {
        ArmKeepsBooks(s.books, sink);
      }
      forall d: CallId ensures CallFits(s', d) { assert CallFits(s, d); }
    case Ending(sink, verdict, prev) =>
      ArmKeepsBooks(s.books, sink);
      if !Held(s, prev) && choice.Release? {
        ReleaseKeepsBooks(Arm(s.books, sink), prev, choice.outcome);
      }
      forall d: CallId ensures CallFits(s', d) { assert CallFits(s, d); }
    case _ =>
      forall d: CallId ensures CallFits(s', d) { assert CallFits(s, d); }
  }
}
