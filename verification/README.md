# Verified models of log-foundry's delivery core

log-foundry delivers log events from a process to a sink. Application threads hand batches of events
to one drain thread over a bounded queue; `flush()` waits for a marker to come through that queue;
`shutdown()` and `stop()` end the drain within a deadline; `configure(sink=...)` swaps the sink
under it; and a lifecycle owner decides which sinks are still owed a close. What the library promises
about all this holds only because of the order of its steps, so the two protocols are modelled as
transition systems and their promises proved of every run. Around them stand the parts that bound and
encode what is delivered, each modelled in the form its code has: pure functions as functions, objects
that change as classes with loops, proved against functions whose properties are then proved.

| files | what they model |
|---|---|
| `WorkerModel` and the other `Worker*` files | submit, flush, stop, retarget and the drain thread, interleaved at every lock section, queue operation, event set and unlocked read; `WorkerObject` holds the sections and loops as they run |
| `LifecycleModel` and the other `Lifecycle*` files | owed closes, the in-flight registry, the retirement count, late workers and swaps, over the small worker of `WorkerView`, which the worker protocol is proved to refine |
| `Retry`, `Deferral` | the retry loop under an exit deadline, composed with a sink that defers its drops |
| `CoercionModel`, `CoercionTheorems`, `CoercionWhole`, `Coercer` | bounded coercion of an object graph |
| `Utf8`, `Clip` | UTF-8 (section 3 of RFC 3629) and ceiling-bounded clipping |
| `Powers`, `Digits` | the decimal length estimated from the bit length |
| `Percent`, `Framing`, `Baggage` | percent-encoding (section 2.1 of RFC 3986) and the baggage header (section 3 of W3C Baggage) |
| `Fork` | the repair of locks and events in a forked child |
| `Otel` | the OTLP request document and its pricing |
| `Spans`, `Tracer` | span identity across adoption, sweeps and closes |
| `Chunk` | greedy chunking |

`dafny verify dfyconfig.toml` checks everything.

## Findings

Three of the promises the code's own documentation makes hold with an exception, stated here exactly.

- `may_be_inside()` can deny a sink the drain thread is inside. `retarget()` assigns the worker's sink and then its
  held sinks under the worker's lock, but the drain reads the one and `may_be_inside()` the other without it, so
  between the two the thread can enter a sink not listed yet. `DeniedExactlyInTheWindow` proves of every
  reachable state that this happens exactly there, `WindowOpens` that any attempt at that moment gets there, and
  `WindowArises` that some run does.
- A closer could take a sink while the drain thread is inside it. `_close_owed` reads `held()` for each
  owed sink and takes those that passed under the owner's lock, but `retarget()` assigns the worker's sink
  without that lock, so an assignment can land between the read and the take. This needs a `shutdown()` that
  found no worker, a worker built beside it, and a `configure(sink=...)` retargeting that worker to a sink
  that is already owed and that it does not hold. The worker need not still be live: `retarget()` checks the
  retirement count under the worker's lock, and a second `shutdown()` moves the count without it, so the
  assignment can follow the move (`RetiredExposureArises`). The window above is part of it: until the held sinks are
  assigned too, the read lets the new sink pass. The condition a take must begin under is
  `LifecycleModel.Clear`; `CloserSparesTheDrain` proves it enough for every run and `ExposedSinkCanBeTaken`
  proves it needed in every reachable state. A `shutdown()` that had a worker to stop, or has asked a late one to
  stop, is never exposed (`StoppedWorkerIsSpared`).
- A late worker can be left live. When a `BaseException` leaves `_close_owed` in the no-worker branch, the
  `finally` takes the late worker out of the record but the code that retires and stops it is skipped.
  `TakerRetiresUnlessCut` proves of every run that the taker retires and stops it if and only if it was not
  interrupted in that pass, and `CutTakerLeavesItLive` that it otherwise stays live until another `shutdown()`
  begins.

One more is a matter of wording: a circular reference or an unserializable value is replaced by a placeholder
without the `truncated` mark, so the rendering an unmarked event is proved equal to holds those placeholders.

## Model

| member | source | states |
|---|---|---|
| `WorkerTheorems.InvStep` | src/log_foundry/worker.py:648-1817 | no step of any thread (a submit, flush, stop, swap or drain step, each lock section, queue operation, event set and unlocked read being one) breaks the protocol invariant |
| `WorkerTheorems.RunInv` | src/log_foundry/worker.py:648-1817 | every state of every interleaving satisfies the invariant |
| `WorkerTheorems.NobodyWaitsOnADeadDrain` | src/log_foundry/worker.py:1433-1442 | once the drain thread is gone every waiting flush() caller has its answer, wherever its marker was |
| `WorkerTheorems.NobodyWaitsOnAnAbandonedDrain` | src/log_foundry/worker.py:1342-1360 | once an expired stop() has swept, a drain that has not finished owes a waiting caller an answer only for the one marker it holds and has not begun to emit for; inside the sink it owes nobody |
| `WorkerProgress.EveryWaiterHasAnAnswerer` | src/log_foundry/worker.py:891-910 | in every interleaving, once the drain has finished or was given up, a caller still waiting unanswered is about to be answered by the drain's exit sweep, by the sweep of the stop() that gave it up, or by the drain step that holds its marker |
| `WorkerProgress.SweepAdvances` | src/log_foundry/worker.py:1546-1556 | every step of a sweep answers the waiter it picks and leaves less to do, so a sweep ends |
| `WorkerTheorems.HeldMarkerIsAnswered` | src/log_foundry/worker.py:1462-1466 | that marker is answered by the next two drain steps, whatever they are |
| `WorkerTheorems.LateCallerDoesNotWait` | src/log_foundry/worker.py:897-906 | a caller whose re-check runs after the drain was given up does not come to wait, unless the drain finished in between |
| `WorkerTheorems.FlushIsSound` | src/log_foundry/worker.py:884-910 | ok means: everything put ahead of the marker was in a batch whose emit returned, or abandoned before the stamp; and nothing was abandoned between the stamp and the verdict, on the main and the final path |
| `WorkerTheorems.SubmissionsAreConserved` | src/log_foundry/worker.py:648-661 | at every moment a submission is in exactly one place once: in its call, dropped, queued, in hand, or settled |
| `WorkerTheorems.CountersAreExact` | src/log_foundry/worker.py:1781-1817 | dropped counts each dropped call once, and failed_batches is exactly the number of batches abandoned, each of which lost something |
| `WorkerTheorems.DeliveryKeepsPutOrder` | src/log_foundry/worker.py:1624-1648 | submissions are settled in the order they were put |
| `WorkerTheorems.LeftBehindIsCountedOnce` | src/log_foundry/worker.py:648-661 | after a clean exit of a drain that only shutdown() stopped, each submission left in the queue by a returned submit() was counted in submitted_after_shutdown exactly once |
| `WorkerTheorems.OneJoinerWithItsDeadline` | src/log_foundry/worker.py:1230-1242 | of any number of stop callers at most one joins, and the recorded exit deadline is its own |
| `WorkerTheorems.DrainNeverJoinsItself` | src/log_foundry/worker.py:1321-1341 | a stop() made on the drain thread never joins |
| `WorkerTheorems.OneSentinelEver` | src/log_foundry/worker.py:1332-1337 | at most one sentinel is ever queued |
| `WorkerTheorems.TakenOverAtMostOnce` | src/log_foundry/worker.py:1230-1242 | the owed join is taken over at most once in any run |
| `WorkerTheorems.InsideIsHeldOrPointedAt` | src/log_foundry/worker.py:1039-1061 | the sink a live drain thread is inside is among the held ones, or a retarget is between its two assignments and it is that retarget's sink; so outside that window may_be_inside() never denies it, and a fenced retarget drops a sink only after the thread has passed it |
| `WorkerWindow.DeniedExactlyInTheWindow` | src/log_foundry/worker.py:1052-1053 | over every reachable state, may_be_inside() denies the sink the thread is inside if and only if a retarget has assigned that sink, has not listed it as held, and it was not held before |
| `WorkerWindow.WindowOpens` | src/log_foundry/worker.py:1052-1053 | from any state with such a retarget past its check and the thread about to attempt, one assignment and one step of the thread get there |
| `WorkerWindow.WindowArises` | src/log_foundry/worker.py:1088-1090 | from every fresh worker some run gets there |
| `WorkerTheorems.ProtocolRefinesView` | src/log_foundry/worker.py:1039-1090 | every step of the protocol is one labelled move of the small worker that the lifecycle model steps by, made by the thread the label says |
| `WorkerTheorems.CommittedWasUnretired` | src/log_foundry/worker.py:1046-1053 | a swap about to assign the sink checked the retirement count after its drain and found it unmoved |
| `WorkerView.MovesHonest` | src/log_foundry/worker.py:1088-1090 | the moves of that small worker keep what may_be_inside() answers truthful, but for the sink between a retarget's two assignments |
| `WorkerProgress.DrainIsNeverStuck` | src/log_foundry/worker.py:1396-1442 | in every reachable state a live drain thread has a step of its own, or is inside emit in a stop() call that has one: no interleaving deadlocks it |
| `WorkerObject.Worker.ClaimStop` | src/log_foundry/worker.py:1230-1242 | the section decides exactly by the gate function the protocol proofs are about |
| `WorkerObject.Worker.Submit` | src/log_foundry/worker.py:648-661 | dropped and counted exactly when the queue is full, else queued; counted once as after shutdown() when either read saw one |
| `WorkerObject.Worker.TakeMarker` | src/log_foundry/worker.py:1462-1466 | registers the marker, and answers it at once when the drain was given up |
| `WorkerObject.Worker.ReleaseMarker` | src/log_foundry/worker.py:1490-1491 | lets go of that marker and no other |
| `WorkerObject.Worker.CollectFinal` | src/log_foundry/worker.py:1708-1719 | empties the queue into the pending batch and the markers, both in put order, and registers every marker |
| `WorkerObject.Worker.SettleFinal` | src/log_foundry/worker.py:1720-1727 | judges every marker by the failures since its stamp, after the emit, then answers it and lets it go |
| `WorkerObject.Worker.ReleaseWaiters` | src/log_foundry/worker.py:1546-1556 | answers everyone whose marker is taken or queued, and judges nobody |
| `WorkerObject.Worker.Retarget` | src/log_foundry/worker.py:1039-1061 | verdict, sink, held sinks and incomplete-swap count for every outcome of the two flushes and the two reads of the count |
| `Retry.Worker.Emit` | src/log_foundry/worker.py:1781-1817 | a batch raises the drop counters of the sink whose attempt returned by the drops of that attempt, and no other; it is counted as failed exactly when none returned; attempts stop exactly where one returns, the last allowed fails, or a retry is declined; each attempt goes to the sink the worker then delivers to |
| `Retry.LongestHolds` | src/log_foundry/worker.py:1794-1794 | the longest attempt so far is no shorter than any attempt so far |
| `Retry.RetryEndsBeforeItsDeadline` | src/log_foundry/worker.py:1804-1815 | a retry that is made, if no longer than the longest attempt so far, ends at least the join margin before the deadline it was decided against, less the time between the decision and its start |
| `Retry.RetryEndsBeforeTheJoin` | src/log_foundry/worker.py:1804-1815 | and that deadline is the joining caller's own, in every reachable state of the stop gate |
| `LifecycleTheorems.InvStep` | src/log_foundry/_lifecycle.py:1722-2018 | no step of an orphan emit, a build, a shutdown(), a close, the drain or a swap breaks the owner's invariant |
| `LifecycleTheorems.RunInv` | src/log_foundry/_lifecycle.py:1722-2018 | every state of every run satisfies it |
| `LifecycleTheorems.OneCloseInFlight` | src/log_foundry/_lifecycle.py:481-514 | at most one lifecycle-decided close of a given sink is in flight at any instant |
| `LifecycleTheorems.EveryArmingIsAnswered` | src/log_foundry/_lifecycle.py:1452-1459 | from every arming by an orphan emit, a build or a swap on, the sink is owed or about to be closed until a close of it starts, is refused or is announced as left open |
| `LifecycleTheorems.NoArmingIsLost` | src/log_foundry/_lifecycle.py:1723-1779 | whatever is owed at one moment is at any later moment still owed or about to be closed, or a close of it started, was refused or was announced as left open in between |
| `LifecycleTheorems.PendingStep` | src/log_foundry/_lifecycle.py:1135-1148 | the same of every single step: take, hand-off, failed thread start, interrupted close, re-arm, swap |
| `LifecycleTheorems.SwapSparesTheDrain` | src/log_foundry/_lifecycle.py:1978-2018 | a swap never releases a sink the drain thread is inside |
| `LifecycleTheorems.StoppedWorkerIsSpared` | src/log_foundry/_lifecycle.py:1866-1894 | a shutdown() that had a worker to stop, or stopped a late one, never takes a sink the drain thread is inside, whatever swaps run beside it |
| `LifecycleTheorems.CloserSparesTheDrain` | src/log_foundry/_lifecycle.py:1723-1740 | any take that begins with no owed sink exposed to a retarget under way, before its check of the count, past it or between its two assignments, never takes a sink the drain thread is inside |
| `LifecycleTheorems.ExposedSinkCanBeTaken` | src/log_foundry/_lifecycle.py:1723-1740 | and the condition is exact: from any reachable state where a take can begin with an exposed owed sink, some steps lead to taking the sink the drain thread is inside |
| `LifecycleTheorems.ExposureArises` | src/log_foundry/_lifecycle.py:1866-1883 | a concrete run reaches such a state: a no-worker shutdown(), a worker built beside it, a swap to an owed orphan sink |
| `LifecycleTheorems.RetiredExposureArises` | src/log_foundry/worker.py:1046-1053 | another reaches one with the worker already retired: a second no-worker shutdown() moves the count between the check retarget() makes of it and its assignment |
| `LifecycleTheorems.NoLateWorkerIsLeft` | src/log_foundry/_lifecycle.py:1868-1894 | at depth zero no late worker is registered, and a worker built during a no-worker shutdown() was taken by exactly one such call |
| `LifecycleTheorems.TakerRetiresUnlessCut` | src/log_foundry/_lifecycle.py:1881-1891 | over every run, a finished call that took the late worker moved the count past its epoch and asked it to stop if and only if it was not interrupted in its no-worker pass; interrupted there it did neither |
| `LifecycleTheorems.CutTakerLeavesItLive` | src/log_foundry/_lifecycle.py:1881-1891 | over every run, a late worker whose taker was interrupted in that pass is live, unstopped and registered with nobody until another shutdown() begins |
| `LifecycleTheorems.InterruptedTakerArises` | src/log_foundry/_lifecycle.py:1881-1891 | a concrete run of that |
| `LifecycleTheorems.LiveUntilTheNextShutdown` | src/log_foundry/_lifecycle.py:236-237 | a worker built at depth zero reads live until the next shutdown() begins |
| `LifecycleRetirement.RetirementStep` | src/log_foundry/_lifecycle.py:1866-1894 | every step keeps the depth equal to the number of no-worker calls under way and the count, the epoch and the late worker in agreement |
| `LifecycleObject.Lifecycle.TakeOwed` | src/log_foundry/_lifecycle.py:1723-1728 | takes exactly the owed sinks nothing may be inside, each once, and registers each in the same section; the rest stays owed |
| `LifecycleObject.Lifecycle.ArmSink` | src/log_foundry/_lifecycle.py:1452-1459 | arming is idempotent while the sink is owed |
| `LifecycleObject.Lifecycle.FinishClosing` | src/log_foundry/_lifecycle.py:509-514 | the entry goes only while it is still this close's own |
| `LifecycleObject.Lifecycle.EnterShutdown` | src/log_foundry/_lifecycle.py:1868-1875 | the count and the worker read are one section; without a worker the depth rises |
| `LifecycleObject.Lifecycle.LeaveCold` | src/log_foundry/_lifecycle.py:1884-1887 | the late worker is taken and the depth lowered in one section |
| `LifecycleObject.Lifecycle.GetWorker` | src/log_foundry/_lifecycle.py:1381-1396 | built once, live, armed, and registered as late exactly while a no-worker shutdown() runs |
| `CoercionTheorems.PassIsBounded` | src/log_foundry/sanitize.py:557-564 | any graph, cyclic or exponentially shared: visits within the node budget, bytes charged within the byte budget, containers within max_keys with no name twice, nesting within max_depth; a stop shows in the flag |
| `CoercionTheorems.BudgetsOnlyCut` | src/log_foundry/sanitize.py:810-863 | a pass that was not stopped equals the pass under any larger budgets; a stopped one visited a prefix of that pass's visits, so nothing later in walk order |
| `CoercionTheorems.SanitizedIsBounded` | src/log_foundry/sanitize.py:1400-1407 | the bounds for sanitize_fields(), whose mapping sits one level above its values |
| `CoercionTheorems.SanitizedIsOnlyCut` | src/log_foundry/sanitize.py:1400-1407 | the cut property for sanitize_fields() |
| `CoercionTheorems.PutIsAssignment` | src/log_foundry/sanitize.py:817-827 | an entry written under a name already there keeps its place, a new one comes last, and no other entry changes |
| `CoercionWhole.UnmarkedIsWhole` | src/log_foundry/sanitize.py:557-686 | a value coerced without the truncated mark is the rendering defined with no limits at all |
| `CoercionWhole.UnmarkedFieldsAreWhole` | src/log_foundry/sanitize.py:1400-1407 | and so are the fields sanitize_fields() returns unmarked |
| `CoercionWhole.LongBytesAreMarked` | src/log_foundry/sanitize.py:740-745 | reading only the head of a bytes value never hides that it was longer |
| `Coercer.SanitizeFields` | src/log_foundry/sanitize.py:1375-1407 | a fresh pass does what the model says, stays within the ceilings, and is whole when unmarked; a raising mapping gives no fields, marked |
| `Coercer.Coercer.Value` | src/log_foundry/sanitize.py:557-564 | one node, with whatever its dispatch raised absorbed; the ancestor stack is restored |
| `Coercer.Coercer.Mapping` | src/log_foundry/sanitize.py:810-830 | the loop over the entries, ended by max_keys, a stop or a raise; the ancestor stack is restored on every exit |
| `Coercer.Coercer.Members` | src/log_foundry/sanitize.py:848-863 | the same for sequences and sets |
| `Coercer.Coercer.Key` | src/log_foundry/sanitize.py:904-908 | a key's text, with whatever rendering it raised absorbed |
| `Coercer.Coercer.ContainerKey` | src/log_foundry/sanitize.py:1044-1063 | a builtin-container key spends a node and is coerced as a value of its depth would be |
| `Coercer.Coercer.LeafKey` | src/log_foundry/sanitize.py:978-997 | any other key, with the checks made before an integer or bytes key is rendered |
| `Coercer.Coercer.Integer` | src/log_foundry/sanitize.py:1164-1174 | charged by the estimate, replaced past the ceiling |
| `Coercer.Coercer.Text` | src/log_foundry/sanitize.py:1231-1239 | clipped and charged by its size, or the pass stops |
| `Coercer.Coercer.Produced` | src/log_foundry/sanitize.py:1264-1273 | clipped and charged by its whole length too, or the pass stops |
| `Clip.HeadReadsEnough` | src/log_foundry/sanitize.py:392-402 | reading max_bytes + 1 characters gives the text, flag and size of clipping the whole string |
| `Clip.TailReadsEnough` | src/log_foundry/sanitize.py:432-441 | the same from the end |
| `Clip.HeadIsACeiling` | src/log_foundry/sanitize.py:392-402 | the result encodes strictly, weighs what is charged, is within the ceiling exactly when the ceiling is at least the 14-byte marker or nothing had to be cut, keeps whole characters and as many as fit; the flag is up exactly when something changed |
| `Clip.TailIsACeiling` | src/log_foundry/sanitize.py:432-441 | the same for the tail |
| `Clip.ClipIsIdempotent` | src/log_foundry/sanitize.py:392-402 | clipping a clipped string changes nothing |
| `Utf8.RoundTrip` | src/log_foundry/sanitize.py:325-330 | decoding undoes strict encoding under either error handler |
| `Utf8.DecodeScalar` | src/log_foundry/sanitize.py:775-779 | neither error handler leaves anything that does not encode strictly |
| `Utf8.DecodePrefix` | src/log_foundry/sanitize.py:401-402 | bytes cut anywhere and decoded with ignore give the characters that fit |
| `Utf8.DecodeSuffix` | src/log_foundry/sanitize.py:441-441 | the same for the last bytes |
| `Digits.DecimalReadsBack` | src/log_foundry/sanitize.py:990-990 | the decimal digits an integer key is written in read back as the integer, with no leading zero |
| `Digits.EstimateIsEnough` | src/log_foundry/sanitize.py:1131-1136 | the estimate from the bit length is never below the decimal length, for every integer |
| `Digits.EstimateIsClose` | src/log_foundry/sanitize.py:1131-1136 | it overcounts by at most one up to 48 million digits |
| `Digits.PassedByTheCeiling` | src/log_foundry/sanitize.py:1164-1174 | an integer the ceiling lets pass renders within it |
| `Digits.KeyCheckRefusesNothingThatFits` | src/log_foundry/sanitize.py:985-990 | the check made before an integer key is rendered refuses only keys that would not have fitted |
| `Powers.TwosBelowTens` | src/log_foundry/sanitize.py:1131-1131 | 2^100000 is at most 10^30103, and so with every power of the two |
| `Powers.TensBelowTwos` | src/log_foundry/sanitize.py:1131-1131 | 10^21306 is at most 2^70777, and so with every power of the two |
| `Baggage.SendAndReceive` | src/log_foundry/context.py:420-442 | formatting any coerced mapping of strings and parsing the header gives back exactly the kept members, in order, or None when none is kept |
| `Baggage.FormatHeader` | src/log_foundry/context.py:420-442 | kept is the longest prefix, in order, of the members with a non-empty key whose header is within 8192 bytes; the rest is counted as dropped |
| `Baggage.ParseHeader` | src/log_foundry/context.py:542-558 | the loop over the members of any header computes the parse |
| `Baggage.HeaderRoundTrip` | src/log_foundry/context.py:542-558 | a header within the cap parses to exactly the members it was written for |
| `Baggage.LineRoundTrip` | src/log_foundry/context.py:469-483 | a rendered member frames nothing and reads back as itself, whatever separators, spaces or non-ASCII it holds |
| `Percent.QuoteRoundTrip` | src/log_foundry/context.py:469-483 | unquoting undoes quoting |
| `Fork.RepairChild` | src/log_foundry/_fork.py:470-500 | on any graph the repair ends; every lock or event attribute of a reachable module, class or owned instance that is not opted out and not refused is a new equivalent one, the rest is untouched; two attributes share afterwards exactly when they shared before, unless they shared and only one was replaced; the hook holders are collected once each |
| `Fork.Repair.ReinitPrimitives` | src/log_foundry/_fork.py:479-500 | the worklist enters exactly what is reachable over edges that are not opted out |
| `Fork.Repair.FreshPrimitive` | src/log_foundry/_fork.py:346-360 | a replacement is minted at most once for each primitive, with an event's set state kept |
| `Fork.Repair.RepairAttrs` | src/log_foundry/_fork.py:491-499 | every attribute of one entered holder, in turn |
| `Fork.SharingAfter` | src/log_foundry/_fork.py:346-360 | the sharing property for any two primitive attributes |
| `Otel.RequestBody` | src/log_foundry/_otel.py:789-842 | the records are parted by resource, first-seen order, order kept within each; the document weighs exactly the empty document, the framings, the records and the commas, and never more than the sum of framing, record and one over the records |
| `Otel.GroupsParts` | src/log_foundry/_otel.py:830-832 | grouping is a stable partition of the records |
| `Otel.BodySize` | src/log_foundry/_otel.py:789-842 | the exact weight |
| `Otel.PriceIsEnough` | src/log_foundry/_otel.py:864-865 | the price is an upper bound |
| `Otel.FramingMeaning` | src/log_foundry/_otel.py:864-865 | framing() is exactly what stands around a group's records |
| `Tracer.Run` | src/log_foundry/decorator.py:55-707 | over any sequence of open, log, continue_trace, sweep and close in one context: all events submitted for a span carry one trace id; exactly the events the operations build are made, and each is in exactly one place once: submitted, in the buffer of an open span, or lost to a close that raised, and counted; with no such close and every span closed, what was submitted is what was made |
| `Tracer.Tracer.OpenSpan` | src/log_foundry/decorator.py:72-89 | the enclosing span's trace, else the adopted one, else a new one; its start event is buffered |
| `Tracer.Tracer.LogEvent` | src/log_foundry/api.py:119-128 | one more event in the buffer of the current span, under its present identity, or counted as lost when it cannot be built |
| `Tracer.Tracer.Continue` | src/log_foundry/decorator.py:195-205 | refused on a swept root, which can no longer be re-parented; otherwise adopted, and an open root is re-parented with all it has buffered |
| `Tracer.Tracer.SweepSpans` | src/log_foundry/decorator.py:439-448 | the buffers of the open spans go out in order and each span is marked swept; it ends early exactly where a span holds events and the worker cannot be had, with that span and every later one untouched |
| `Tracer.Tracer.CloseSpan` | src/log_foundry/decorator.py:666-707 | the buffer and the end event go out, or what is buffered is lost and counted; the span comes off the stack, and the adopted context is dropped when it was a root |
| `Deferral.Sink.Emit` | src/log_foundry/sinks/_deferral.py:158-166 | a raising call counts and announces nothing; a returning one counts each of its drops once |
| `Deferral.Ledger.Exit` | src/log_foundry/sinks/_deferral.py:158-166 | counts are committed, then lines written, only on a clean exit |
| `Deferral.Ledger.Count` | src/log_foundry/sinks/_deferral.py:99-100 | adds to one pending counter |
| `Deferral.Ledger.EncodeEvents` | src/log_foundry/sinks/_encode.py:82-96 | the encodable events in order, the failures counted together on the ledger and announced once |
| `Chunk.ChunkItems` | src/log_foundry/sinks/_chunk.py:90-101 | non-empty groups whose concatenation is the input, within both limits when each item fits alone, and no contiguous split within both limits has fewer groups |
| `Chunk.GreedyIsFewest` | src/log_foundry/sinks/_chunk.py:90-101 | the greedy split is a fewest one |

## Left out

- Two `configure()` calls at once: swaps are taken one at a time, as `configure()` documents.
- Closes that wrapper sinks forward to the sinks they wrap, and ownership stamping: whether a close is refused is an outcome the environment picks.
- Real sinks, sockets and drivers: a sink's emit returns, raises or dies and takes some time; a close starts, is refused, and ends.
- Diagnostics, console echo, health snapshots and throttles: they do not affect what is delivered.
- A `BaseException` raised asynchronously at an arbitrary line: one out of `sink.emit` or out of `_close_owed` is modelled, others are not.
- The fork handlers of the worker and of the lifecycle owner, and `reacquire_after_fork`: the repair walk is modelled, what the handlers rebuild is not.
- The reads a `flush()` makes after its marker could not be put are one step of the worker protocol: they decide only the reason returned, or another try.
- A raise out of `retarget()` after it assigned the sink: `_swap_sink` would then leave the new sink delivered to and not armed. A raise before the assignment is modelled.
- The reads `held()` makes about one sink (the thread, the held sinks, the registry) are one step of the lifecycle model: whoever asks holds the owner's lock, which a registration and the start of a swap need.
- The clock in the protocols: a wait may time out at any moment, and a retry may be declined whenever a deadline is recorded; `Retry` does the arithmetic.
- The append-versus-close race on one span shared between contexts: `Tracer` is one context; logs outside any span go straight to the sink and are not part of it. A span that was opened but could not be pushed is not modelled either, nor is baggage itself.
- Baggage values other than strings, and the placeholder sent for a value that cannot be encoded: the header is modelled over coerced strings, which always encode. `Baggage.ParseHeader` takes any text.
- `memoryview` values and `Enum` members in coercion: each reduces to one of the kinds modelled. `json.dumps` and an object's own `str()` are parameters.
- WorkerProgress.DrainIsNeverStuck: a sink whose `emit` calls `flush()` on the drain thread waits for itself in the code; flush() calls on the drain thread are not in the model, stop() calls are.
- Coercer.Coercer.Value: a `RecursionError` of the interpreter is not modelled; the depth ceiling bounds the recursion.
- Fork.RepairChild: attributes reachable only through descriptors or a reading that raises are not in the graph.
- `_Walker` and `_user_attributes` of the OTLP sink: a second walk with the budgets of the coercer; it would add members like those of `CoercionTheorems`.
- `repair_nul`, `repair_bson`, `chunk_list`, `traceparent` and timestamp conversions, argument validation: single-branch or structural code beside what is modelled.
