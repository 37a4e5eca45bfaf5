/**
 What becomes of a submission: conservation, the numbering of abandoned batches, and the
 soundness of the verdict a flush marker is given.
 */
module WorkerDelivery {
  import opened WorkerModel
  import opened WorkerInvariants

  // ------------------------------------------------------------------ conservation

  /** The submissions among some queue items, in order. */
  function SubsOf(items: seq<Item>): seq<SubId> {
    if items == [] then []
    else
      var last := items[|items| - 1];
      SubsOf(items[..|items| - 1]) + (if last.Submission? then [last.sub] else [])
  }

  lemma {:induction false} SubsOfTake(log: seq<Item>, n: nat)
    requires n < |log|
    ensures SubsOf(log[..n + 1]) == SubsOf(log[..n]) + (if log[n].Submission? then [log[n].sub] else [])
  {
    assert log[..n + 1][..n] == log[..n];
  }

  /** What was put earlier is a prefix of what was put up to a later point. */
  lemma {:induction false} SubsOfPrefix(log: seq<Item>, m: nat, n: nat)
    requires m <= n <= |log|
    ensures SubsOf(log[..m]) <= SubsOf(log[..n])
  {
    if m < n {
      SubsOfPrefix(log, m, n - 1);
      SubsOfTake(log, n - 1);
    }
  }

  function Ids(history: seq<Settlement>): seq<SubId> {
    seq(|history|, i requires 0 <= i < |history| => history[i].sub)
  }

  /** Where the drain is past its last emit without a crash, it holds no batch; where it is
      emitting, it holds one. */
  predicate PendingFits(w: Work) {
    match w.at
    case Attempting(_, _) => w.pending != []
    case Inside(_, _) => w.pending != []
    case Backoff(_, _) => w.pending != []
    case Abandoning(_) => w.pending != []
    case Judging(_, _) => w.pending == []
    case Writing(_, _, _) => w.pending == []
    case Answering(_, _, crashed) => crashed || w.pending == []
    case LettingGo(_, _, crashed) => crashed || w.pending == []
    case Finishing(crashed) => crashed || w.pending == []
    case Settling(crashed) => crashed || w.pending == []
    case Sweeping(crashed, _) => crashed || w.pending == []
    case Dead(crashed) => crashed || w.pending == []
    case _ => true
  }

  ghost predicate BatchListed(history: seq<Settlement>, b: nat) {
    exists k :: 0 <= k < |history| && history[k].fate == Abandoned(b)
  }

  /** The abandoned batches are numbered in the order they were abandoned, from 0, with none
      missing and none beyond the counter. */
  ghost predicate Numbered(history: seq<Settlement>, failed: nat) {
    && (forall k :: 0 <= k < |history| && history[k].fate.Abandoned? ==> history[k].fate.batch < failed)
    && (forall i, j :: 0 <= i < j < |history| && history[i].fate.Abandoned? && history[j].fate.Abandoned? ==>
          history[i].fate.batch <= history[j].fate.batch)
    && (forall b: nat :: b < failed ==> BatchListed(history, b))
  }

  /** Everything taken out of the queue is settled or in hand, once each and in put order. */
  ghost predicate SettleInv(s: State) {
    && s.q.head <= |s.q.log|
    && SubsOf(s.q.log[..s.q.head]) == Ids(s.w.history) + s.w.pending
    && PendingFits(s.w)
    && Numbered(s.w.history, s.w.failed)
  }

  lemma {:induction false} SettleKept(s: State, s': State)
    requires SettleInv(s) && s'.w == s.w && s'.q.head == s.q.head && s.q.log <= s'.q.log
    ensures SettleInv(s')
  {
    assert s'.q.log[..s.q.head] == s.q.log[..s.q.head];
  }

  lemma {:induction false} SettleLoop(s: State, c: DrainChoice, s': State)
    requires SettleInv(s) && LoopStep(s, c) == To(s')
    ensures SettleInv(s')
  {
    LoopTakes(s, c, s');
    if s'.q.head > s.q.head { SubsOfTake(s.q.log, s.q.head); }
  }

  /** What the loop does to the queue and the batch in hand: nothing, or the next item is taken. */
  lemma {:induction false} LoopTakes(s: State, c: DrainChoice, s': State)
    requires LoopStep(s, c) == To(s')
    ensures s'.w.history == s.w.history && s'.w.failed == s.w.failed && s'.q.log == s.q.log && PendingFits(s'.w)
    ensures s'.q.head == s.q.head ==> s'.w.pending == s.w.pending
    ensures s'.q.head != s.q.head ==>
              && s.q.head < |s.q.log| && s'.q.head == s.q.head + 1
              && s'.w.pending == s.w.pending + (if s.q.log[s.q.head].Submission? then [s.q.log[s.q.head].sub] else [])
  {
  }

  lemma {:induction false} SettleBatch(w: Work, fate: Fate)
    ensures Ids(Settle(w, fate).history) == Ids(w.history) + w.pending
  {
  }

  lemma {:induction false} NumberedSettled(w: Work, fate: Fate)
    requires Numbered(w.history, w.failed)
    requires fate.Abandoned? ==> fate.batch == w.failed && w.pending != []
    ensures Numbered(Settle(w, fate).history, if fate.Abandoned? then w.failed + 1 else w.failed)
  {
    var h := Settle(w, fate).history;
    forall b: nat | b < (if fate.Abandoned? then w.failed + 1 else w.failed)
      ensures BatchListed(h, b)
    {
      if b < w.failed {
        assert BatchListed(w.history, b);
        var k :| 0 <= k < |w.history| && w.history[k].fate == Abandoned(b);
        assert h[k].fate == Abandoned(b);
      } else {
        assert h[|w.history|].fate == Abandoned(b);
      }
    }
  }

  lemma {:induction false} SettledAs(s: State, fate: Fate, s': State)
    requires SettleInv(s) && s'.q == s.q
    requires fate.Abandoned? ==> fate.batch == s.w.failed && s.w.pending != []
    requires s'.w == Settle(s.w, fate).(at := s'.w.at, failed := if fate.Abandoned? then s.w.failed + 1 else s.w.failed)
    requires PendingFits(s'.w)
    ensures SettleInv(s')
  {
    SettleBatch(s.w, fate);
    NumberedSettled(s.w, fate);
  }

  lemma {:induction false} SettleEmit(s: State, c: DrainChoice, s': State)
    requires SettleInv(s) && EmitStep(s, c) == To(s')
    ensures SettleInv(s')
  {
    match s.w.at
    case EmitStart(why) =>
      if NoEvents(s) { SettledAs(s, NothingToEmit, s'); }
    case Inside(why, _) =>
      if c.EmitReturns? { SettledAs(s, Delivered, s'); }
    case Abandoning(why) =>
      SettledAs(s, Abandoned(s.w.failed), s');
    case _ =>
  }

  lemma {:induction false} SettleAnswer(s: State, s': State)
    requires SettleInv(s) && AnswerStep(s) == To(s')
    ensures SettleInv(s')
  {
  }

  lemma {:induction false} SettleExit(s: State, c: DrainChoice, s': State)
    requires SettleInv(s) && ExitStep(s, c) == To(s')
    ensures SettleInv(s')
  {
  }

  // ------------------------------------------------------------------ the verdict of a flush

  /** What a marker judged delivered stands for: everything put ahead of it had been settled by
      then, and no batch had been abandoned since it was stamped. */
  ghost predicate Sound(s: State, f: FlushId) {
    && TakenOut(s, f)
    && s.flushes[f].at <= |s.q.log|
    && s.flushes[f].judgedAt <= |s.w.history|
    && |SubsOf(s.q.log[..s.flushes[f].at])| <= s.flushes[f].judgedAt
    && forall k :: 0 <= k < s.flushes[f].judgedAt && s.w.history[k].fate.Abandoned? ==>
         s.w.history[k].fate.batch < s.flushes[f].seen
  }

  ghost predicate VerdictSound(s: State, f: FlushId) {
    f in s.flushes ==>
      && (s.flushes[f].delivered ==> Sound(s, f))
      && (s.flushes[f].pc.Succeeded? ==> s.flushes[f].delivered)
  }

  /** The markers in hand that have no verdict yet. */
  function Unjudged(d: Drain): seq<FlushId> {
    match d
    case Judging(why, i) => if i <= |Marks(why)| then Marks(why)[i..] else []
    case Writing(why, i, _) => if i <= |Marks(why)| then Marks(why)[i..] else []
    case Answering(_, _, _) => []
    case LettingGo(_, _, _) => []
    case _ => Hand(d)
  }

  ghost predicate NoVerdictYet(s: State) {
    var u := Unjudged(s.w.at);
    forall k :: 0 <= k < |u| && u[k] in s.flushes ==> !s.flushes[u[k]].delivered
  }

  ghost predicate SoundInv(s: State) {
    && (forall f {:trigger VerdictSound(s, f)} :: VerdictSound(s, f))
    && NoVerdictYet(s)
    && (s.w.at.Writing? && s.w.at.i < |Marks(s.w.at.why)| && Marks(s.w.at.why)[s.w.at.i] in s.flushes ==>
          (s.w.at.verdict ==> s.w.failed == s.flushes[Marks(s.w.at.why)[s.w.at.i]].seen))
  }

  /** A verdict stays sound as the queue and the history only grow. */
  lemma {:induction false} SoundGrows(s: State, s': State, f: FlushId)
    requires LogInv(s) && Sound(s, f) && f in s'.flushes && Evolves(s, s', f)
    requires s'.flushes[f].judgedAt == s.flushes[f].judgedAt
    requires s.q.log <= s'.q.log && s.q.head <= s'.q.head && s.w.history <= s'.w.history
    ensures Sound(s', f)
  {
    var at := s.flushes[f].at;
    assert s'.q.log[..at] == s.q.log[..at];
    forall k | 0 <= k < s.flushes[f].judgedAt ensures s'.w.history[k] == s.w.history[k] {}
  }

  /** A step that leaves the calls' own verdicts alone keeps them sound. */
  lemma {:induction false} SoundKept(s: State, s': State)
    requires LogInv(s) && HandInv(s) && SoundInv(s) && AllEvolve(s, s') && SameVerdicts(s.flushes, s'.flushes)
    requires s.q.log <= s'.q.log && s.q.head <= s'.q.head && s.w.history <= s'.w.history
    requires s'.w.at.Writing? ==> s'.w == s.w
    requires NoVerdictYet(s')
    ensures SoundInv(s')
  {
    forall f: FlushId ensures VerdictSound(s', f) {
      assert VerdictSound(s, f) && SameVerdict(s.flushes, s'.flushes, f);
      if f in s.flushes && s.flushes[f].delivered { assert Evolves(s, s', f); SoundGrows(s, s', f); }
    }
    if s'.w.at.Writing? {
      var m := Marks(s.w.at.why)[s.w.at.i];
      assert TakenOut(s, Hand(s.w.at)[s.w.at.i]);
      assert Evolves(s, s', m) && SameVerdict(s.flushes, s'.flushes, m);
    }
  }

  /** The unjudged markers stay unjudged while the hand they are in does not change. */
  lemma {:induction false} NoVerdictKept(s: State, s': State)
    requires SoundInv(s) && SameVerdicts(s.flushes, s'.flushes)
    requires forall k :: 0 <= k < |Unjudged(s'.w.at)| ==> Unjudged(s'.w.at)[k] in Unjudged(s.w.at)
    ensures NoVerdictYet(s')
  {
    var u, u' := Unjudged(s.w.at), Unjudged(s'.w.at);
    forall k | 0 <= k < |u'| && u'[k] in s'.flushes
      ensures !s'.flushes[u'[k]].delivered
    {
      assert SameVerdict(s.flushes, s'.flushes, u'[k]);
      var j :| 0 <= j < |u| && u[j] == u'[k];
    }
  }

  predicate SameVerdict(a: map<FlushId, Flush>, b: map<FlushId, Flush>, f: FlushId) {
    && (f in a ==> f in b && b[f].delivered == a[f].delivered && b[f].judgedAt == a[f].judgedAt)
    && (f in b ==> (if f in a then b[f].pc.Succeeded? ==> a[f].pc.Succeeded? || b[f].delivered
                    else !b[f].delivered && !b[f].pc.Succeeded?))
  }

  ghost predicate SameVerdicts(a: map<FlushId, Flush>, b: map<FlushId, Flush>) {
    forall f {:trigger SameVerdict(a, b, f)} :: SameVerdict(a, b, f)
  }

  lemma {:induction false} FlushVerdicts(s: State, g: FlushId, b: bool, e: bool, s': State)
    requires FlushStep(s, g, b, e) == To(s')
    ensures SameVerdicts(s.flushes, s'.flushes) && s.q.log <= s'.q.log
  {
  }

  lemma {:induction false} SoundFlush(s: State, g: FlushId, b: bool, e: bool, s': State)
    requires LogInv(s) && HandInv(s) && SoundInv(s) && FlushStep(s, g, b, e) == To(s')
    ensures SoundInv(s')
  {
    EvolveFlush(s, g, b, e, s');
    FlushVerdicts(s, g, b, e, s');
    NoVerdictKept(s, s');
    SoundKept(s, s');
  }

  lemma {:induction false} SoundStop(s: State, c: StopId, e: StopChoice, s': State)
    requires LogInv(s) && HandInv(s) && SoundInv(s) && StopStep(s, c, e) == To(s')
    ensures SoundInv(s')
  {
    EvolveStop(s, c, e, s');
    assert s.q.log <= s'.q.log;
    NoVerdictKept(s, s');
    SoundKept(s, s');
  }

  lemma {:induction false} SoundSwap(s: State, x: Sink, g: FlushId, s': State)
    requires LogInv(s) && HandInv(s) && SoundInv(s) && SwapStep(s, x, g) == To(s')
    ensures SoundInv(s')
  {
    EvolveSwap(s, x, g, s');
    NoVerdictKept(s, s');
    SoundKept(s, s');
  }

  lemma {:induction false} EvolveLoop(s: State, c: DrainChoice, s': State)
    requires LogInv(s) && LoopStep(s, c) == To(s')
    ensures AllEvolve(s, s') && s'.q.log == s.q.log && s.q.head <= s'.q.head && s.w.history == s'.w.history
    ensures SameVerdicts(s.flushes, s'.flushes)
  {
  }

  lemma {:induction false} SoundLoop(s: State, c: DrainChoice, s': State)
    requires LogInv(s) && HandInv(s) && SoundInv(s) && LoopStep(s, c) == To(s')
    ensures SoundInv(s')
  {
    EvolveLoop(s, c, s');
    if s'.w.at.HasMarker? { NoVerdictTaken(s, c, s'); } else { NoVerdictKept(s, s'); }
    SoundKept(s, s');
  }

  /** A marker just taken out has no verdict: a verdict is given only to one taken out before. */
  lemma {:induction false} NoVerdictTaken(s: State, c: DrainChoice, s': State)
    requires LogInv(s) && SoundInv(s) && LoopStep(s, c) == To(s') && s'.w.at.HasMarker?
    ensures NoVerdictYet(s')
  {
    var u, u' := Unjudged(s.w.at), Unjudged(s'.w.at);
    assert SlotOwned(s, s.q.head) && VerdictSound(s, s'.w.at.m);
    assert u' == u + [s'.w.at.m];
    forall k | 0 <= k < |u'| && u'[k] in s'.flushes ensures !s'.flushes[u'[k]].delivered {
      if k < |u| { assert u'[k] == u[k]; }
    }
  }

  lemma {:induction false} SoundEmit(s: State, c: DrainChoice, s': State)
    requires LogInv(s) && HandInv(s) && SoundInv(s) && EmitStep(s, c) == To(s')
    ensures SoundInv(s')
  {
    assert s'.flushes == s.flushes && s'.q == s.q && s.w.history <= s'.w.history;
    assert Marks(s.w.at.why)[0..] == Marks(s.w.at.why);
    NoVerdictKept(s, s');
    SoundKept(s, s');
  }

  lemma {:induction false} SoundExit(s: State, c: DrainChoice, s': State)
    requires LogInv(s) && HandInv(s) && SoundInv(s) && ExitStep(s, c) == To(s')
    ensures SoundInv(s')
  {
    NoVerdictKept(s, s');
    SoundKept(s, s');
  }

  lemma {:induction false} SoundAnswer(s: State, s': State)
    requires LogInv(s) && HandInv(s) && SettleInv(s) && SoundInv(s) && AnswerStep(s) == To(s')
    ensures SoundInv(s')
  {
    if s.w.at.Writing? {
      SoundWrites(s, s');
    } else if s.w.at.Judging? {
      SoundJudges(s, s');
    } else {
      NoVerdictKept(s, s');
      SoundKept(s, s');
    }
  }

  lemma {:induction false} SoundJudges(s: State, s': State)
    requires LogInv(s) && SoundInv(s) && s.w.at.Judging? && AnswerStep(s) == To(s')
    ensures SoundInv(s')
  {
    assert Unjudged(s'.w.at) == Unjudged(s.w.at);
    forall f: FlushId ensures SameVerdict(s.flushes, s'.flushes, f) {}
    NoVerdictKept(s, s');
    forall f: FlushId ensures VerdictSound(s', f) {
      assert VerdictSound(s, f);
      if f in s.flushes && s.flushes[f].delivered { assert Evolves(s, s', f); SoundGrows(s, s', f); }
    }
  }

  /** The drain writes a verdict only with no batch in hand, so everything put ahead of the
      marker has been settled. */
  lemma {:induction false} VerdictWritten(s: State, s': State, m: FlushId)
    requires LogInv(s) && HandInv(s) && SettleInv(s) && SoundInv(s)
    requires s.w.at.Writing? && AnswerStep(s) == To(s') && m == Marks(s.w.at.why)[s.w.at.i]
    ensures VerdictSound(s', m)
  {
    assert TakenOut(s, Hand(s.w.at)[s.w.at.i]);
    assert FlushPlaced(s, m);
    assert |Ids(s.w.history)| == |s.w.history|;
    SubsOfPrefix(s.q.log, s.flushes[m].at, s.q.head);
    assert Unjudged(s.w.at)[0] == m;
    assert VerdictSound(s, m);
  }

  lemma {:induction false} SoundWrites(s: State, s': State)
    requires LogInv(s) && HandInv(s) && SettleInv(s) && SoundInv(s)
    requires s.w.at.Writing? && AnswerStep(s) == To(s')
    ensures SoundInv(s')
  {
    var m := Marks(s.w.at.why)[s.w.at.i];
    VerdictWritten(s, s', m);
    forall f: FlushId ensures VerdictSound(s', f) {
      assert VerdictSound(s, f);
      if f in s.flushes && f != m && s.flushes[f].delivered {
        assert Evolves(s, s', f);
        SoundGrows(s, s', f);
      }
    }
    NoVerdictWritten(s, s');
  }

  /** The markers after the one a verdict is written to have none yet. */
  lemma {:induction false} NoVerdictWritten(s: State, s': State)
    requires HandInv(s) && SoundInv(s) && s.w.at.Writing? && AnswerStep(s) == To(s')
    ensures NoVerdictYet(s')
  {
    var hand, i := Hand(s.w.at), s.w.at.i;
    var u' := Unjudged(s'.w.at);
    forall k | 0 <= k < |u'| && u'[k] in s'.flushes
      ensures !s'.flushes[u'[k]].delivered
    {
      assert u'[k] == hand[i + 1 + k] == Unjudged(s.w.at)[k + 1];
      assert s.flushes[hand[i]].at < s.flushes[hand[i + 1 + k]].at;
    }
  }
}
