/** A cancellation while the exporter closes, exactly: from which states a nil return can leave events
undone. */
module ExportClose {
  import opened Options
  import opened SequenceTracker
  import opened ExportPool

  ghost predicate IsRunFrom(s: State, trace: seq<State>) {
    && trace != [] && trace[0] == s
    && forall i :: 0 < i < |trace| ==> CanStep(trace[i - 1], trace[i])
  }

  /** The token writer has failed, or a worker's failure is on its way to it. */
  ghost predicate Failing(s: State) {
    || s.writer == Ended(true)
    || (exists i :: 0 <= i < |s.results| && s.results[i].failed)
    || (exists w :: 0 <= w < |s.workers| && s.workers[w].Reporting? && s.workers[w].result.failed)
  }

  /** An event is in the dispatch channel, or a worker has received one and not yet checked the context. */
  ghost predicate Waiting(s: State) {
    s.dispatch != [] || exists w :: 0 <= w < |s.workers| && s.workers[w].Taken?
  }

  // From such states every nil return is drained.

  lemma StepKeepsFailing(s: State, step: Step)
    requires Enabled(s, step) && Failing(s)
    ensures Failing(Next(s, step))
  {
    if i :| 0 <= i < |s.results| && s.results[i].failed {
      FailedResultStays(s, step, i);
    } else if w :| 0 <= w < |s.workers| && s.workers[w].Reporting? && s.workers[w].result.failed {
      FailedWorkerStays(s, step, w);
    } else {
      FailedWriterStays(s, step);
    }
  }

  lemma FailedResultStays(s: State, step: Step, i: nat)
    requires Enabled(s, step) && i < |s.results| && s.results[i].failed
    ensures Failing(Next(s, step))
  {
    var s' := Next(s, step);
    if step.Collect? {
      if i > 0 { assert s'.results[i - 1].failed; }
    } else {
      assert s'.results[i].failed;
    }
  }

  lemma FailedWorkerStays(s: State, step: Step, w: nat)
    requires Enabled(s, step) && w < |s.workers| && s.workers[w].Reporting? && s.workers[w].result.failed
    ensures Failing(Next(s, step))
  {
    var s' := Next(s, step);
    if step == Report(w) {
      assert s'.results[|s.results|].failed;
    } else {
      assert s'.workers[w] == s.workers[w];
    }
  }

  lemma FailedWriterStays(s: State, step: Step)
    requires Enabled(s, step) && s.writer == Ended(true)
    ensures Next(s, step).writer == Ended(true)
  {
  }

  lemma FailingNeverReturnsNil(s: State)
    requires Inv(s) && Failing(s)
    ensures !ReturnedNil(s)
  {
  }

  /** What collecting a result leaves alone. */
  lemma CollectLeaves(s: State)
    requires Enabled(s, Collect)
    ensures var s' := Next(s, Collect);
      s'.consumer == s.consumer && s'.dispatch == s.dispatch && s'.workers == s.workers && s'.dropped == s.dropped
  {
    if !s.results[0].failed {
      CollectIsSuccessStep(s);
      SuccessLeaves(s, Next(s, Collect));
    }
  }

  lemma SuccessLeaves(s: State, s': State)
    requires SuccessStep(s, s')
    ensures s'.consumer == s.consumer && s'.dispatch == s.dispatch && s'.workers == s.workers && s'.dropped == s.dropped
  {
  }

  lemma StepKeepsSettled(s: State, step: Step)
    requires Enabled(s, step) && s.consumer.Finished? && s.dropped == {} && !Waiting(s)
    ensures Next(s, step).dropped == {} && !Waiting(Next(s, step))
  {
    if step.Collect? {
      CollectLeaves(s);
    } else {
      forall w | 0 <= w < |Next(s, step).workers| ensures !Next(s, step).workers[w].Taken? {
        assert !s.workers[w].Taken?;
      }
    }
  }

  /** Nothing waits, or a failure is under way. */
  ghost predicate Safe(s: State) {
    s.consumer == Finished(false) && (Failing(s) || (s.dropped == {} && !Waiting(s)))
  }

  lemma CanStepKeepsSafe(s: State, s': State)
    requires Inv(s) && Safe(s) && CanStep(s, s')
    ensures Inv(s') && Safe(s')
  {
    var step :| Enabled(s, step) && s' == Next(s, step);
    StepKeepsInv(s, step);
    ConsumerStays(s, step);
    if Failing(s) { StepKeepsFailing(s, step); } else { StepKeepsSettled(s, step); }
  }

  lemma ConsumerStays(s: State, step: Step)
    requires Enabled(s, step) && s.consumer.Finished?
    ensures Next(s, step).consumer == s.consumer
  {
    if step.Collect? { CollectLeaves(s); }
  }

  lemma {:induction false} RunKeepsSafe(s: State, trace: seq<State>, i: nat)
    requires Inv(s) && Safe(s) && IsRunFrom(s, trace) && i < |trace|
    ensures Inv(trace[i]) && Safe(trace[i])
  {
    if i > 0 {
      RunKeepsSafe(s, trace, i - 1);
      CanStepKeepsSafe(trace[i - 1], trace[i]);
    }
  }

  lemma SafeReturnIsDrained(s: State)
    requires Inv(s) && Safe(s) && ReturnedNil(s)
    ensures Drained(s)
  {
    if Failing(s) { FailingNeverReturnsNil(s); }
    DrainedIffNoneDropped(s);
  }

  // From any other state a schedule returns nil with an event dropped.

  function WorkerWeight(w: Worker): nat {
    match w
    case Exited(_) => 0
    case Idle => 1
    case Reporting(_) => 4
    case Busy(_) => 5
    case Taken(_) => 6
  }

  function Weight(ws: seq<Worker>): nat {
    if ws == [] then 0 else Weight(ws[..|ws| - 1]) + WorkerWeight(ws[|ws| - 1])
  }

  lemma {:induction false} WeightUpdate(ws: seq<Worker>, i: nat, x: Worker)
    requires i < |ws|
    ensures Weight(ws[i := x]) + WorkerWeight(ws[i]) == Weight(ws) + WorkerWeight(x)
  {
    var last := |ws| - 1;
    if i < last {
      assert ws[i := x][..last] == ws[..last][i := x];
      WeightUpdate(ws[..last], i, x);
    } else {
      assert ws[i := x][..last] == ws[..last];
    }
  }

  /** How far the run is from its end. */
  function Measure(s: State): nat {
    6 * |s.dispatch| + 2 * |s.results| + Weight(s.workers)
    + (if s.dispatchClosed then 0 else 1) + (if s.resultsClosed then 0 else 1)
    + match s.writer case Ended(_) => 0 case Collecting => 1 case Marking(_, _) => 2
  }

  /** Cancelled while closing, nothing failing, and an event waits or was dropped. */
  ghost predicate Losing(s: State) {
    s.consumer == Finished(false) && s.cancelled && !Failing(s) && (s.dropped != {} || Waiting(s))
  }

  /** The steps of the schedule: no worker fails, and none begins on an item. */
  predicate IsScheduled(s: State, step: Step) {
    match step
    case CloseDispatch => !s.dispatchClosed
    case CloseResults => !s.resultsClosed
    case Take(_) => true
    case DropItem(_) => true
    case Succeed(_) => true
    case Report(_) => true
    case Exit(_) => true
    case Collect => true
    case MarkOk => true
    case WriterEnds => true
    case _ => false
  }

  lemma PickStep(s: State) returns (step: Step)
    requires Inv(s) && Losing(s) && !ReturnedNil(s)
    ensures Enabled(s, step) && IsScheduled(s, step)
  {
    if s.writer.Marking? {
      step := MarkOk;
    } else if !s.dispatchClosed {
      step := CloseDispatch;
    } else if s.results != [] {
      step := Collect;
    } else if w :| 0 <= w < |s.workers| && !s.workers[w].Exited? {
      step := match s.workers[w]
        case Taken(_) => DropItem(w)
        case Busy(_) => Succeed(w)
        case Reporting(_) => Report(w)
        case _ => if s.dispatch != [] then Take(w) else Exit(w);
    } else {
      step := if s.resultsClosed then WriterEnds else CloseResults;
    }
  }

  lemma StepGoesDown(s: State, step: Step)
    requires Enabled(s, step) && IsScheduled(s, step)
    requires step.Collect? ==> !s.results[0].failed
    ensures Measure(Next(s, step)) < Measure(s)
  {
    match step {
      case Take(w) => ItemGoesDown(s, step, w);
      case DropItem(w) => ItemGoesDown(s, step, w);
      case Succeed(w) => ResultGoesDown(s, step, w);
      case Report(w) => ResultGoesDown(s, step, w);
      case Exit(w) => ResultGoesDown(s, step, w);
      case _ => RestGoesDown(s, step);
    }
  }

  lemma ItemGoesDown(s: State, step: Step, w: nat)
    requires Enabled(s, step) && (step == Take(w) || step == DropItem(w))
    ensures Measure(Next(s, step)) < Measure(s)
  {
    WeightUpdate(s.workers, w, Next(s, step).workers[w]);
  }

  lemma ResultGoesDown(s: State, step: Step, w: nat)
    requires Enabled(s, step) && (step == Succeed(w) || step == Report(w) || step == Exit(w))
    ensures Measure(Next(s, step)) < Measure(s)
  {
    WeightUpdate(s.workers, w, Next(s, step).workers[w]);
  }

  lemma RestGoesDown(s: State, step: Step)
    requires Enabled(s, step) && IsScheduled(s, step) && (step.Collect? ==> !s.results[0].failed)
    requires step.CloseDispatch? || step.CloseResults? || step.Collect? || step.MarkOk? || step.WriterEnds?
    ensures Measure(Next(s, step)) < Measure(s)
  {
  }

  lemma StepKeepsLosing(s: State, step: Step)
    requires Losing(s) && Enabled(s, step) && IsScheduled(s, step)
    ensures Losing(Next(s, step))
  {
    ConsumerStays(s, step);
    NothingFails(s, step);
    StillLosing(s, step);
  }

  lemma NothingFails(s: State, step: Step)
    requires !Failing(s) && Enabled(s, step) && IsScheduled(s, step)
    ensures !Failing(Next(s, step))
  {
    var s' := Next(s, step);
    forall i | 0 <= i < |s'.results| ensures !s'.results[i].failed {
      if step.Collect? { assert s'.results[i] == s.results[i + 1]; }
    }
    forall w | 0 <= w < |s'.workers| && s'.workers[w].Reporting? ensures !s'.workers[w].result.failed {
      assert s'.workers[w] == s.workers[w] || step == Succeed(w);
    }
  }

  lemma StillLosing(s: State, step: Step)
    requires s.cancelled && (s.dropped != {} || Waiting(s)) && Enabled(s, step) && IsScheduled(s, step)
    ensures var s' := Next(s, step); s'.cancelled && (s'.dropped != {} || Waiting(s'))
  {
    var s' := Next(s, step);
    if step.Take? { assert s'.workers[step.w].Taken?; }
    if v :| 0 <= v < |s.workers| && s.workers[v].Taken? {
      assert s'.workers[v] == s.workers[v] || step == DropItem(v);
    }
  }

  lemma NilReturnDropped(s: State)
    requires Inv(s) && Losing(s) && ReturnedNil(s)
    ensures !Drained(s)
  {
    assert WorkerOk(s, 0) && s.workers[0].Exited?;
    DrainedIffNoneDropped(s);
  }

  lemma LosingStep(s: State) returns (s': State)
    requires Inv(s) && Losing(s) && !ReturnedNil(s)
    ensures CanStep(s, s') && Inv(s') && Losing(s') && Measure(s') < Measure(s)
  {
    var step := PickStep(s);
    s' := Do(s, step);
    StepKeepsInv(s, step);
    StepGoesDown(s, step);
    StepKeepsLosing(s, step);
  }

  lemma Prepended(s: State, s': State, rest: seq<State>)
    requires CanStep(s, s') && IsRunFrom(s', rest)
    ensures IsRunFrom(s, [s] + rest)
  {
    var trace := [s] + rest;
    forall i | 0 < i < |trace| ensures CanStep(trace[i - 1], trace[i]) {
      if i > 1 { assert trace[i - 1] == rest[i - 2] && trace[i] == rest[i - 1]; }
    }
  }

  lemma {:induction false} LosingReturnsNil(s: State) returns (trace: seq<State>)
    requires Inv(s) && Losing(s)
    ensures IsRunFrom(s, trace)
    ensures ReturnedNil(trace[|trace| - 1]) && !Drained(trace[|trace| - 1])
    decreases Measure(s)
  {
    if ReturnedNil(s) {
      NilReturnDropped(s);
      trace := [s];
    } else {
      var s' := LosingStep(s);
      trace := LosingReturnsNil(s');
      Prepended(s, s', trace);
      trace := [s] + trace;
    }
  }

  /** With the source closed without error and the context cancelled: every continuation that returns
  nil is drained if and only if a failure is already under way (and none returns nil), or nothing was
  dropped so far and no event waits to be begun. */
  lemma CancelledCloseIff(s: State)
    requires Inv(s) && s.consumer == Finished(false) && s.cancelled
    ensures (forall trace :: IsRunFrom(s, trace) && ReturnedNil(trace[|trace| - 1]) ==> Drained(trace[|trace| - 1]))
       <==> Failing(s) || (s.dropped == {} && !Waiting(s))
  {
    if Failing(s) || (s.dropped == {} && !Waiting(s)) {
      forall trace | IsRunFrom(s, trace) && ReturnedNil(trace[|trace| - 1]) ensures Drained(trace[|trace| - 1]) {
        RunKeepsSafe(s, trace, |trace| - 1);
        SafeReturnIsDrained(trace[|trace| - 1]);
      }
    } else {
      var trace := LosingReturnsNil(s);
      assert IsRunFrom(s, trace) && !Drained(trace[|trace| - 1]);
    }
  }

  // A failure stops the workers.

  ghost predicate FailureCancels(s: State) {
    s.writer == Ended(true) ==> s.cancelled
  }

  lemma StepFailureCancels(s: State, step: Step)
    requires Enabled(s, step) && FailureCancels(s)
    ensures FailureCancels(Next(s, step))
  {
  }

  lemma CanStepFailureCancels(s: State, s': State)
    requires CanStep(s, s') && FailureCancels(s)
    ensures FailureCancels(s') && (s.writer == Ended(true) ==> s'.writer == Ended(true))
  {
    var step :| Enabled(s, step) && s' == Next(s, step);
    StepFailureCancels(s, step);
    if s.writer == Ended(true) { FailedWriterStays(s, step); }
  }

  lemma {:induction false} RunFailureCancels(trace: seq<State>, numWorkers: nat, i: nat, j: nat)
    requires IsRun(trace, numWorkers) && i <= j < |trace|
    ensures FailureCancels(trace[j]) && (trace[i].writer == Ended(true) ==> trace[j].writer == Ended(true))
  {
    if j > 0 {
      RunFailureCancels(trace, numWorkers, if i < j then i else j - 1, j - 1);
      CanStepFailureCancels(trace[j - 1], trace[j]);
    }
  }

  /** Once a fatal result was collected or a mark has failed, no worker begins another item. */
  lemma NothingBegunAfterFailure(trace: seq<State>, numWorkers: nat, i: nat, j: nat, w: nat)
    requires IsRun(trace, numWorkers) && i <= j < |trace| && trace[i].writer == Ended(true)
    ensures !Enabled(trace[j], Begin(w))
  {
    RunFailureCancels(trace, numWorkers, i, j);
  }

  lemma CollectFailsIff(s: State)
    requires s.results != [] && s.writer.Collecting?
    ensures Collected(s).writer == Ended(true) <==> s.results[0].failed
  {
  }

  /** The writer fails exactly by collecting a failed result or by a failed mark. */
  lemma WriterFailsIff(s: State, step: Step)
    requires Enabled(s, step) && s.writer != Ended(true)
    ensures Next(s, step).writer == Ended(true) <==> step.MarkFails? || (step.Collect? && s.results[0].failed)
  {
    if step.Collect? {
      CollectFailsIff(s);
    } else if !step.MarkOk? && !step.MarkFails? && !step.WriterEnds? {
      assert Next(s, step).writer == s.writer;
    }
  }

  // The channels hold at most two items for each worker.

  ghost predicate ChannelsBounded(s: State, numWorkers: nat) {
    |s.workers| == numWorkers && |s.dispatch| <= 2 * numWorkers && |s.results| <= 2 * numWorkers
  }

  lemma CollectKeepsChannels(s: State, numWorkers: nat)
    requires s.results != [] && ChannelsBounded(s, numWorkers)
    ensures ChannelsBounded(Collected(s), numWorkers)
  {
    assert Collected(s).workers == s.workers && Collected(s).dispatch == s.dispatch;
    assert Collected(s).results == s.results[1..];
  }

  lemma StepKeepsChannels(s: State, step: Step, numWorkers: nat)
    requires Enabled(s, step) && ChannelsBounded(s, numWorkers)
    ensures ChannelsBounded(Next(s, step), numWorkers)
  {
    var s' := Next(s, step);
    if step.Collect? {
      CollectKeepsChannels(s, numWorkers);
    } else {
      assert |s'.workers| == |s.workers|;
      assert |s'.results| == if step.Report? then |s.results| + 1 else |s.results|;
      assert |s'.dispatch| <= |s.dispatch| || step.Dispatch?;
    }
  }

  lemma CanStepKeepsChannels(s: State, s': State, numWorkers: nat)
    requires CanStep(s, s') && ChannelsBounded(s, numWorkers)
    ensures ChannelsBounded(s', numWorkers)
  {
    var step :| Enabled(s, step) && s' == Next(s, step);
    StepKeepsChannels(s, step, numWorkers);
  }

  lemma {:induction false} RunKeepsChannels(trace: seq<State>, numWorkers: nat, i: nat)
    requires IsRun(trace, numWorkers) && i < |trace|
    ensures ChannelsBounded(trace[i], numWorkers)
  {
    if i > 0 {
      RunKeepsChannels(trace, numWorkers, i - 1);
      CanStepKeepsChannels(trace[i - 1], trace[i], numWorkers);
    }
  }
}
