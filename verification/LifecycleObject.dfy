/**
 The lifecycle owner's own fields, as its critical sections change them: each is proved to be the
 function LifecycleModel takes as one step, and the closer's take to be all of its steps at once.
 */
module LifecycleObject {
  import opened LifecycleModel
  import V = WorkerView

  /** The sinks of a list that nothing may still be inside, in order. */
  function Unheld(xs: seq<Sink>, w: Hosted, registry: map<Sink, TaskId>): (r: seq<Sink>)
    ensures forall x :: x in r <==> x in xs && x !in registry && !(w.Built? && V.MayBeInside(w.view, x))
  {
    if xs == [] then []
    else Unheld(xs[..|xs| - 1], w, registry)
         + if xs[|xs| - 1] in registry || (w.Built? && V.MayBeInside(w.view, xs[|xs| - 1])) then [] else [xs[|xs| - 1]]
  }

  function Removed(xs: seq<Sink>, ys: seq<Sink>): (r: seq<Sink>)
    ensures forall x :: x in r <==> x in xs && x !in ys
  {
    if xs == [] then [] else Removed(xs[..|xs| - 1], ys) + if xs[|xs| - 1] in ys then [] else [xs[|xs| - 1]]
  }

  predicate NoRepeats(xs: seq<Sink>) {
    forall i, j :: 0 <= i < j < |xs| ==> xs[i] != xs[j]
  }

  lemma {:induction false} UnheldNoRepeats(xs: seq<Sink>, w: Hosted, registry: map<Sink, TaskId>)
    requires NoRepeats(xs)
    ensures NoRepeats(Unheld(xs, w, registry))
  {
    if xs != [] { UnheldNoRepeats(xs[..|xs| - 1], w, registry); }
  }

  lemma {:induction false} RemovedNoRepeats(xs: seq<Sink>, ys: seq<Sink>)
    requires NoRepeats(xs)
    ensures NoRepeats(Removed(xs, ys))
  {
    if xs != [] { RemovedNoRepeats(xs[..|xs| - 1], ys); }
  }

  /** Taking several sinks, one after the other. */
  function TakeAll(b: Books, xs: seq<Sink>, c: CallId, w: Hosted): Books {
    if xs == [] then b
    else
      var last := xs[|xs| - 1];
      Take(TakeAll(b, xs[..|xs| - 1], c, w), last, InHand(c, LeftUnfenced(w, last)))
  }

  lemma {:induction false} TakeAllOwed(b: Books, xs: seq<Sink>, c: CallId, w: Hosted)
    ensures TakeAll(b, xs, c, w).owed == b.owed - set x | x in xs
    ensures forall x :: x in TakeAll(b, xs, c, w).registry <==> x in b.registry || x in xs
  {
    if xs != [] {
      TakeAllOwed(b, xs[..|xs| - 1], c, w);
      assert forall x :: x in xs <==> x in xs[..|xs| - 1] || x == xs[|xs| - 1];
    }
  }

  class Lifecycle {
    var owed: seq<Sink>
    var registry: map<Sink, TaskId>
    var tasks: map<TaskId, Task>
    var next: TaskId
    var worker: Hosted
    var retirements: nat
    var shutdownRunning: nat
    var lateWorker: bool

    constructor ()
      ensures Valid() && AsBooks() == Books({}, map[], map[], 0) && AsOwner() == Owner(NoWorker, 0, 0, false)
    {
      owed, registry, tasks, next := [], map[], map[], 0;
      worker, retirements, shutdownRunning, lateWorker := NoWorker, 0, 0, false;
    }

    ghost predicate Valid()
      reads this
    {
      NoRepeats(owed)
    }

    ghost function AsBooks(): Books
      reads this
    {
      Books((set x | x in owed), registry, tasks, next)
    }

    ghost function AsOwner(): Owner
      reads this
    {
      Owner(worker, retirements, shutdownRunning, lateWorker)
    }

    /** Arming, which is idempotent while the sink is owed. */
    method ArmSink(x: Sink)
      requires Valid()
      modifies this`owed
      ensures Valid() && AsBooks() == Arm(old(AsBooks()), x)
    {
      if x in owed {
        assert (set y | y in owed) + {x} == set y | y in owed;
        return;
      }
      owed := owed + [x];
    }

    /** _finish_closing(): the entry goes only if it is still this close's own. */
    method FinishClosing(t: TaskId)
      requires Valid() && t in tasks
      modifies this`registry, this`tasks
      ensures Valid() && AsBooks() == Finish(old(AsBooks()), t)
    {
      var x := tasks[t].sink;
      if x in registry && registry[x] == tasks[t].reg { registry := registry - {x}; }
      tasks := tasks - {t};
    }

    /** _register_closing() for each sink taken, by call c. */
    method Register(taken: seq<Sink>, c: CallId)
      modifies this`registry, this`tasks, this`next
      ensures var b := TakeAll(old(AsBooks()), taken, c, worker);
              registry == b.registry && tasks == b.tasks && next == b.next
    {
      ghost var b := AsBooks();
      for i := 0 to |taken|
        invariant var r := TakeAll(b, taken[..i], c, worker); registry == r.registry && tasks == r.tasks && next == r.next
      {
        var x := taken[i];
        assert taken[..i + 1][..i] == taken[..i];
        var reg := if x in registry then registry[x] else next;
        registry, tasks := registry[x := reg], tasks[next := Task(x, reg, InHand(c, LeftUnfenced(worker, x)))];
        next := next + 1;
      }
      assert taken[..|taken|] == taken;
    }

    /** The take of _close_owed(): every owed sink that nothing may be inside leaves the record and is
        registered, in one section; the rest stays owed. */
    method TakeOwed(c: CallId) returns (taken: seq<Sink>)
      requires Valid()
      modifies this`owed, this`registry, this`tasks, this`next
      ensures Valid() && NoRepeats(taken)
      ensures forall x :: x in taken <==>
                x in old(owed) && x !in old(registry) && !(worker.Built? && V.MayBeInside(worker.view, x))
      ensures AsBooks() == TakeAll(old(AsBooks()), taken, c, worker)
    {
      ghost var b := AsBooks();
      taken := Unheld(owed, worker, registry);
      UnheldNoRepeats(owed, worker, registry);
      RemovedNoRepeats(owed, taken);
      Register(taken, c);
      owed := Removed(owed, taken);
      TakeAllOwed(b, taken, c, worker);
      assert (set x | x in owed) == b.owed - set x | x in taken;
    }

    /** The first section of shutdown(): the count moves, and with no worker the depth rises. */
    method EnterShutdown() returns (had: bool)
      modifies this`retirements, this`shutdownRunning
      ensures had == old(worker).Built? && AsOwner() == OwnerSection(old(AsOwner()), Entering)
    {
      retirements := retirements + 1;
      had := worker.Built?;
      if !had { shutdownRunning := shutdownRunning + 1; }
    }

    /** The last section of a no-worker shutdown(): the late worker is taken and the depth lowered, in
        one section. */
    method LeaveCold(interrupted: bool) returns (took: bool)
      requires shutdownRunning > 0
      modifies this`lateWorker, this`shutdownRunning
      ensures took == old(lateWorker) && AsOwner() == OwnerSection(old(AsOwner()), ColdExit(interrupted))
    {
      took := lateWorker;
      lateWorker := false;
      shutdownRunning := shutdownRunning - 1;
    }

    /** _get_worker(): built once, armed, and registered as late while a no-worker shutdown() runs. */
    method GetWorker(x: Sink)
      requires Valid()
      modifies this
      ensures Valid() && registry == old(registry) && tasks == old(tasks) && retirements == old(retirements)
      ensures old(worker).Built? ==> AsOwner() == old(AsOwner()) && AsBooks() == old(AsBooks())
      ensures old(worker).NoWorker? ==>
                && AsBooks() == Arm(old(AsBooks()), x) && Live(AsOwner())
                && worker == Built(V.Worker(true, x, {x}, V.Outside), retirements, shutdownRunning > 0, false)
                && lateWorker == (old(lateWorker) || shutdownRunning > 0) && shutdownRunning == old(shutdownRunning)
    {
      if worker.Built? { return; }
      worker := Built(V.Worker(true, x, {x}, V.Outside), retirements, shutdownRunning > 0, false);
      if shutdownRunning > 0 { lateWorker := true; }
      ArmSink(x);
    }
  }
}
