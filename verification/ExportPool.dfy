/** The exporter's worker pool as interleaved steps of a consumer, N workers and a token
writer, with failures and cancellation at any point. Everything is stated of every reachable
state, so a crash at any moment is covered: what was marked is all that survives it. */
module ExportPool {
  import opened Options
  import opened SequenceTracker

  datatype Item = Item(seqNo: nat, token: Token)

  datatype Result = Result(seqNo: nat, token: Token, failed: bool)

  datatype Consumer = Consuming | Holding(item: Item) | Finished(failed: bool)

  /** Taken: received from the channel, the context not yet checked. */
  datatype Worker = Idle | Taken(item: Item) | Busy(item: Item) | Reporting(result: Result) | Exited(dropped: bool)

  datatype Writer = Collecting | Marking(seqNo: nat, token: string) | Ended(failed: bool)

  /** Where an event is, for the record. */
  datatype Stage = Held | Queued | AtWorker(w: nat) | InResults | Buffered | Advanced | Dropped | Abandoned | Fatal

  /** handled: published or deliberately skipped. marks, stored: what the source was told.
  dropped: left undone by a worker that found the context cancelled. */
  datatype State = State(
    received: nat, tokens: map<nat, Token>, stage: map<nat, Stage>, handled: set<nat>,
    consumer: Consumer, dispatch: seq<Item>, dispatchClosed: bool,
    workers: seq<Worker>, results: seq<Result>, resultsClosed: bool,
    writer: Writer, tracker: Tracker, marks: seq<nat>, stored: Token,
    cancelled: bool, dropped: set<nat>)

  function Start(numWorkers: nat): State {
    State(0, map[], map[], {}, Consuming, [], false, seq(numWorkers, i => Idle), [], false,
          Collecting, NEW_TRACKER, [], None, false, {})
  }

  datatype Step =
    | Receive(token: Token)      // an event arrives and gets the next number
    | Dispatch                   // it is put on the dispatch channel
    | ConsumerCancelled          // the consumer sees the cancelled context
    | SourceClosed               // the event channel is closed
    | CloseDispatch
    | Take(w: nat)               // a worker receives an item
    | Begin(w: nat)              // and finds the context live
    | DropItem(w: nat)           // or cancelled: it returns, and the item with it
    | Succeed(w: nat)            // published, or deliberately skipped
    | Fail(w: nat)               // fatal publish failure
    | Report(w: nat)
    | Exit(w: nat)               // the dispatch channel is drained and closed
    | CloseResults
    | Collect                    // the writer takes a result
    | MarkOk
    | MarkFails(persisted: bool)
    | WriterEnds
    | Cancel                     // the caller's context is cancelled

  predicate At(s: State, w: nat) {
    w < |s.workers|
  }

  predicate Enabled(s: State, step: Step) {
    var capacity := 2 * |s.workers|;
    match step
    case Receive(_) => s.consumer.Consuming?
    case Dispatch => s.consumer.Holding? && |s.dispatch| < capacity
    case ConsumerCancelled => s.cancelled && !s.consumer.Finished?
    case SourceClosed => s.consumer.Consuming?
    case CloseDispatch => s.consumer.Finished?
    case Take(w) => At(s, w) && s.workers[w].Idle? && s.dispatch != []
    case Begin(w) => At(s, w) && s.workers[w].Taken? && !s.cancelled
    case DropItem(w) => At(s, w) && s.workers[w].Taken? && s.cancelled
    case Succeed(w) => At(s, w) && s.workers[w].Busy?
    case Fail(w) => At(s, w) && s.workers[w].Busy?
    case Report(w) => At(s, w) && s.workers[w].Reporting? && |s.results| < capacity
    case Exit(w) => At(s, w) && s.workers[w].Idle? && s.dispatch == [] && s.dispatchClosed
    case CloseResults => forall w :: 0 <= w < |s.workers| ==> s.workers[w].Exited?
    case Collect => s.writer.Collecting? && s.results != []
    case MarkOk => s.writer.Marking?
    case MarkFails(_) => s.writer.Marking?
    case WriterEnds => s.writer.Collecting? && s.results == [] && s.resultsClosed
    case Cancel => true
  }

  function Moved(s: State, k: nat, to: Stage): State {
    s.(stage := s.stage[k := to])
  }

  function Collected(s: State): State
    requires s.results != []
  {
    var r := s.results[0];
    var rest := s.(results := s.results[1..]);
    if r.failed then Moved(rest, r.seqNo, Fatal).(writer := Ended(true), cancelled := true)
    else
      var t := AfterMark(s.tracker, r.seqNo, r.token);
      var token := MarkToken(s.tracker, r.seqNo, r.token);
      var next := rest.(tracker := t, stage := Advance(s.stage, r.seqNo, t.nextSeq));
      if token.None? then next else next.(writer := Marking(t.nextSeq - 1, token.value))
  }

  /** The completed event joins the buffer, and buffered events below nextSeq are passed. */
  function Advance(stage: map<nat, Stage>, k: nat, nextSeq: nat): map<nat, Stage> {
    map j | j in stage ::
      if j == k || stage[j].Buffered? then (if j < nextSeq then Advanced else Buffered) else stage[j]
  }

  function Next(s: State, step: Step): State
    requires Enabled(s, step)
  {
    match step
    case Receive(token) =>
      var k := s.received + 1;
      Moved(s, k, Held).(received := k, tokens := s.tokens[k := token], consumer := Holding(Item(k, token)))
    case Dispatch =>
      Moved(s, s.consumer.item.seqNo, Queued).(dispatch := s.dispatch + [s.consumer.item], consumer := Consuming)
    case ConsumerCancelled =>
      if s.consumer.Holding?
      then Moved(s, s.consumer.item.seqNo, Abandoned).(consumer := Finished(true))
      else s.(consumer := Finished(true))
    case SourceClosed => s.(consumer := Finished(false))
    case CloseDispatch => s.(dispatchClosed := true)
    case Take(w) =>
      Moved(s, s.dispatch[0].seqNo, AtWorker(w))
      .(dispatch := s.dispatch[1..], workers := s.workers[w := Taken(s.dispatch[0])])
    case Begin(w) => s.(workers := s.workers[w := Busy(s.workers[w].item)])
    case DropItem(w) =>
      Moved(s, s.workers[w].item.seqNo, Dropped)
      .(workers := s.workers[w := Exited(true)], dropped := s.dropped + {s.workers[w].item.seqNo})
    case Succeed(w) =>
      var item := s.workers[w].item;
      s.(handled := s.handled + {item.seqNo},
         workers := s.workers[w := Reporting(Result(item.seqNo, item.token, false))])
    case Fail(w) =>
      var item := s.workers[w].item;
      s.(workers := s.workers[w := Reporting(Result(item.seqNo, item.token, true))])
    case Report(w) =>
      Moved(s, s.workers[w].result.seqNo, InResults)
      .(results := s.results + [s.workers[w].result], workers := s.workers[w := Idle])
    case Exit(w) => s.(workers := s.workers[w := Exited(false)])
    case CloseResults => s.(resultsClosed := true)
    case Collect => Collected(s)
    case MarkOk => s.(marks := s.marks + [s.writer.seqNo], stored := Some(s.writer.token), writer := Collecting)
    case MarkFails(persisted) =>
      var stopped := s.(writer := Ended(true), cancelled := true);
      if persisted then stopped.(marks := s.marks + [s.writer.seqNo], stored := Some(s.writer.token)) else stopped
    case WriterEnds => s.(writer := Ended(false))
    case Cancel => s.(cancelled := true)
  }

  function HeldBy(w: Worker): Option<nat> {
    match w
    case Taken(item) => Some(item.seqNo)
    case Busy(item) => Some(item.seqNo)
    case Reporting(r) => Some(r.seqNo)
    case _ => None
  }

  ghost predicate Carries(s: State, k: nat, token: Token) {
    k in s.tokens && s.tokens[k] == token
  }

  function Queue(items: seq<Item>): set<nat> {
    set i | 0 <= i < |items| :: items[i].seqNo
  }

  function Answered(results: seq<Result>): set<nat> {
    set i | 0 <= i < |results| :: results[i].seqNo
  }

  // The invariant, by part.

  predicate Unhandled(g: Stage) {
    g.Held? || g.Queued? || g.Dropped? || g.Abandoned? || g.Fatal?
  }

  predicate In(s: State, k: nat, g: Stage) {
    k in s.stage && s.stage[k] == g
  }

  ghost predicate NumbersOk(s: State) {
    && (forall k :: k in s.stage <==> 1 <= k <= s.received)
    && (forall k :: k in s.tokens <==> 1 <= k <= s.received)
    && (forall k :: k in s.handled ==> k in s.stage && !Unhandled(s.stage[k]))
    && (forall k :: k in s.dropped <==> In(s, k, Dropped))
  }

  ghost predicate ConsumerOk(s: State) {
    && (s.consumer.Holding? ==>
          In(s, s.consumer.item.seqNo, Held) && Carries(s, s.consumer.item.seqNo, s.consumer.item.token))
    && (forall k :: In(s, k, Held) ==> s.consumer.Holding? && s.consumer.item.seqNo == k)
    && (forall k :: In(s, k, Abandoned) ==> s.consumer == Finished(true))
    && (s.dispatchClosed ==> s.consumer.Finished?)
  }

  ghost predicate DispatchOk(s: State) {
    && (forall i :: 0 <= i < |s.dispatch| ==>
          In(s, s.dispatch[i].seqNo, Queued) && Carries(s, s.dispatch[i].seqNo, s.dispatch[i].token))
    && (forall i, j :: 0 <= i < j < |s.dispatch| ==> s.dispatch[i].seqNo != s.dispatch[j].seqNo)
    && (forall k :: In(s, k, Queued) ==> k in Queue(s.dispatch))
  }

  ghost predicate WorkerOk(s: State, w: nat)
    requires w < |s.workers|
  {
    match s.workers[w]
    case Taken(item) => In(s, item.seqNo, AtWorker(w)) && Carries(s, item.seqNo, item.token) && item.seqNo !in s.handled
    case Busy(item) => In(s, item.seqNo, AtWorker(w)) && Carries(s, item.seqNo, item.token) && item.seqNo !in s.handled
    case Reporting(r) =>
      In(s, r.seqNo, AtWorker(w)) && Carries(s, r.seqNo, r.token) && (r.failed <==> r.seqNo !in s.handled)
    case Idle => true
    case Exited(dropped) => if dropped then s.dropped != {} else s.dispatch == [] && s.dispatchClosed
  }

  ghost predicate WorkersOk(s: State) {
    && |s.workers| > 0
    && (forall w :: 0 <= w < |s.workers| ==> WorkerOk(s, w))
    && (forall k :: k in s.stage && s.stage[k].AtWorker? ==>
          s.stage[k].w < |s.workers| && HeldBy(s.workers[s.stage[k].w]) == Some(k))
    && (s.resultsClosed ==> forall w :: 0 <= w < |s.workers| ==> s.workers[w].Exited?)
  }

  ghost predicate ResultOk(s: State, r: Result) {
    In(s, r.seqNo, InResults) && Carries(s, r.seqNo, r.token) && (r.failed <==> r.seqNo !in s.handled)
  }

  ghost predicate ResultsOk(s: State) {
    && (forall i :: 0 <= i < |s.results| ==> ResultOk(s, s.results[i]))
    && (forall i, j :: 0 <= i < j < |s.results| ==> s.results[i].seqNo != s.results[j].seqNo)
    && (forall k :: In(s, k, InResults) ==> k in Answered(s.results))
  }

  ghost predicate TrackerOk(s: State) {
    && 1 <= s.tracker.nextSeq <= s.received + 1
    && s.tracker.nextSeq !in s.tracker.completed
    && (forall k :: k in s.tracker.completed <==> In(s, k, Buffered))
    && (forall k :: k in s.tracker.completed ==>
          k > s.tracker.nextSeq && k in s.handled && Carries(s, k, s.tracker.completed[k]))
    && (forall k: nat :: In(s, k, Advanced) <==> 1 <= k < s.tracker.nextSeq)
    && (forall k :: 1 <= k < s.tracker.nextSeq ==> k in s.handled)
  }

  ghost predicate MarksOk(s: State) {
    && (forall i, j :: 0 <= i < j < |s.marks| ==> s.marks[i] < s.marks[j])
    && (forall i :: 0 <= i < |s.marks| ==> 1 <= s.marks[i] < s.tracker.nextSeq)
    && (s.marks == [] ==> s.stored == None)
    && (s.marks != [] ==> Carries(s, s.marks[|s.marks| - 1], s.stored))
  }

  ghost predicate WriterOk(s: State) {
    var passed := s.tracker.nextSeq - 1;
    && (s.writer.Marking? ==>
          && s.writer.seqNo == passed >= 1 && Carries(s, passed, Some(s.writer.token))
          && forall i :: 0 <= i < |s.marks| ==> s.marks[i] < passed)
    && ((s.writer.Collecting? || s.writer == Ended(false)) && passed in s.tokens && s.tokens[passed].Some? ==>
          s.marks != [] && s.marks[|s.marks| - 1] == passed)
    && (s.writer == Ended(false) ==> s.results == [] && s.resultsClosed)
    && (forall k :: In(s, k, Fatal) ==> s.writer == Ended(true))
  }

  ghost predicate Inv(s: State) {
    && NumbersOk(s) && ConsumerOk(s) && DispatchOk(s) && WorkersOk(s)
    && ResultsOk(s) && TrackerOk(s) && MarksOk(s) && WriterOk(s)
  }

  lemma StartOk(numWorkers: nat)
    requires numWorkers > 0
    ensures Inv(Start(numWorkers))
  {
  }

  // Frames: a part of the invariant survives a step that moves event k between stages the part
  // does not speak of and leaves its fields alone.

  /** At most event k changes stage. */
  ghost predicate Moves(s: State, s': State, k: nat, to: Stage) {
    s'.stage == s.stage || s'.stage == s.stage[k := to]
  }

  ghost predicate Clear(s: State, k: nat, to: Stage, g: Stage) {
    to != g && !In(s, k, g)
  }

  ghost predicate Grows(s: State, s': State) {
    && (forall k :: k in s.tokens ==> k in s'.tokens && s'.tokens[k] == s.tokens[k])
    && s.handled <= s'.handled && s.dropped <= s'.dropped && s.received <= s'.received
  }

  lemma NumbersFrame(s: State, s': State, k: nat, to: Stage)
    requires NumbersOk(s) && Moves(s, s', k, to) && k in s.stage
    requires s'.tokens == s.tokens && s'.received == s.received && s'.handled == s.handled
    requires if s'.stage == s.stage then s'.dropped == s.dropped
             else s'.dropped == (if to == Dropped then s.dropped + {k} else s.dropped)
    requires s.stage[k] != Dropped && (Unhandled(to) ==> k !in s.handled)
    ensures NumbersOk(s')
  {
  }

  lemma ConsumerFrame(s: State, s': State, k: nat, to: Stage)
    requires ConsumerOk(s) && Grows(s, s') && Moves(s, s', k, to) && Clear(s, k, to, Held) && Clear(s, k, to, Abandoned)
    requires s'.consumer == s.consumer && s'.dispatchClosed == s.dispatchClosed
    ensures ConsumerOk(s')
  {
    forall j ensures In(s', j, Held) <==> In(s, j, Held) {}
    forall j ensures In(s', j, Abandoned) <==> In(s, j, Abandoned) {}
  }

  lemma DispatchFrame(s: State, s': State, k: nat, to: Stage)
    requires DispatchOk(s) && Grows(s, s') && Moves(s, s', k, to) && Clear(s, k, to, Queued)
    requires s'.dispatch == s.dispatch
    ensures DispatchOk(s')
  {
  }

  lemma WorkerFrame(s: State, s': State, w: nat, k: nat, to: Stage)
    requires w < |s.workers| && w < |s'.workers| && s'.workers[w] == s.workers[w]
    requires WorkerOk(s, w) && Grows(s, s') && Moves(s, s', k, to) && Clear(s, k, to, AtWorker(w))
    requires forall j :: j in s'.handled && j !in s.handled ==> !In(s, j, AtWorker(w))
    requires s.dispatch == [] && s.dispatchClosed ==> s'.dispatch == [] && s'.dispatchClosed
    ensures WorkerOk(s', w)
  {
  }

  lemma WorkersFrame(s: State, s': State, k: nat, to: Stage)
    requires WorkersOk(s) && Grows(s, s') && Moves(s, s', k, to) && s'.workers == s.workers && s'.handled == s.handled
    requires !to.AtWorker? && (k in s.stage ==> !s.stage[k].AtWorker?)
    requires s.dispatch == [] && s.dispatchClosed ==> s'.dispatch == [] && s'.dispatchClosed
    requires s'.resultsClosed == s.resultsClosed
    ensures WorkersOk(s')
  {
    forall w | 0 <= w < |s'.workers| ensures WorkerOk(s', w) { WorkerFrame(s, s', w, k, to); }
  }

  /** One worker changes what it holds: event k or nothing, before and after. */
  lemma OneWorker(s: State, s': State, w: nat, k: nat, to: Stage)
    requires WorkersOk(s) && Grows(s, s') && w < |s.workers| && !s.workers[w].Exited? && k in s.stage
    requires |s'.workers| == |s.workers| && s'.workers == s.workers[w := s'.workers[w]]
    requires Moves(s, s', k, to) && WorkerOk(s', w)
    requires s'.handled == s.handled || s'.handled == s.handled + {k}
    requires s.stage[k].AtWorker? ==> s.stage[k] == AtWorker(w)
    requires s'.stage[k].AtWorker? ==> s'.stage[k] == AtWorker(w)
    requires HeldBy(s.workers[w]) == if s.stage[k].AtWorker? then Some(k) else None
    requires HeldBy(s'.workers[w]) == if s'.stage[k].AtWorker? then Some(k) else None
    requires s.dispatch == [] && s.dispatchClosed ==> s'.dispatch == [] && s'.dispatchClosed
    requires s'.resultsClosed == s.resultsClosed
    ensures WorkersOk(s')
  {
    forall v | 0 <= v < |s'.workers| ensures WorkerOk(s', v) {
      if v != w {
        if s'.stage == s.stage { assert Moves(s, s', k, s.stage[k]); }
        assert WorkerOk(s, v) && s'.workers[v] == s.workers[v];
        WorkerFrame(s, s', v, k, s'.stage[k]);
      }
    }
  }

  lemma ResultsFrame(s: State, s': State, k: nat, to: Stage)
    requires ResultsOk(s) && Grows(s, s') && Moves(s, s', k, to) && Clear(s, k, to, InResults)
    requires s'.results == s.results
    requires s'.handled == s.handled || s'.handled == s.handled + {k}
    ensures ResultsOk(s')
  {
  }

  lemma TrackerFrame(s: State, s': State, k: nat, to: Stage)
    requires TrackerOk(s) && Grows(s, s') && Moves(s, s', k, to)
    requires Clear(s, k, to, Buffered) && Clear(s, k, to, Advanced)
    requires s'.tracker == s.tracker
    ensures TrackerOk(s')
  {
    forall j ensures In(s', j, Buffered) <==> In(s, j, Buffered) {}
    forall j ensures In(s', j, Advanced) <==> In(s, j, Advanced) {}
  }

  lemma WriterFrame(s: State, s': State, k: nat, to: Stage)
    requires MarksOk(s) && WriterOk(s) && TrackerOk(s) && NumbersOk(s) && NumbersOk(s')
    requires Grows(s, s') && Moves(s, s', k, to) && Clear(s, k, to, Fatal)
    requires s'.writer == s.writer && s'.tracker == s.tracker && s'.marks == s.marks && s'.stored == s.stored
    requires s.writer == Ended(false) ==> s'.results == s.results && s'.resultsClosed
    ensures MarksOk(s') && WriterOk(s')
  {
    forall j ensures In(s', j, Fatal) <==> In(s, j, Fatal) {}
    var passed := s.tracker.nextSeq - 1;
    assert passed in s'.tokens ==> passed in s.tokens;
  }

  /** The consumer's, the tracker's and the writer's parts together. */
  lemma EndsFrame(s: State, s': State, k: nat, to: Stage)
    requires Inv(s) && NumbersOk(s') && Grows(s, s') && s'.stage == s.stage[k := to]
    requires to.AtWorker? || to.InResults?
    requires k in s.stage && (s.stage[k].Queued? || s.stage[k].AtWorker?)
    requires s'.consumer == s.consumer && s'.dispatchClosed == s.dispatchClosed && s'.tracker == s.tracker
    requires s'.writer == s.writer && s'.marks == s.marks && s'.stored == s.stored
    requires s.writer == Ended(false) ==> s'.results == s.results && s'.resultsClosed == s.resultsClosed
    requires s'.tokens == s.tokens
    ensures ConsumerOk(s') && TrackerOk(s') && MarksOk(s') && WriterOk(s')
  {
    ConsumerFrame(s, s', k, to);
    TrackerFrame(s, s', k, to);
    WriterFrame(s, s', k, to);
  }

  // The steps.

  lemma ReceiveStep(s: State, token: Token)
    requires Inv(s) && Enabled(s, Receive(token))
    ensures Inv(Next(s, Receive(token)))
  {
    var s', k := Next(s, Receive(token)), s.received + 1;
    assert k !in s.stage && Moves(s, s', k, Held);
    NumbersGrow(s, s', k, token);
    ConsumerReceives(s, s', k, token);
    DispatchFrame(s, s', k, Held);
    WorkersFrame(s, s', k, Held);
    ResultsFrame(s, s', k, Held);
    TrackerFrame(s, s', k, Held);
    WriterFrame(s, s', k, Held);
  }

  lemma NumbersGrow(s: State, s': State, k: nat, token: Token)
    requires NumbersOk(s) && k == s.received + 1 == s'.received
    requires s'.stage == s.stage[k := Held] && s'.tokens == s.tokens[k := token]
    requires s'.handled == s.handled && s'.dropped == s.dropped
    ensures NumbersOk(s')
  {
    forall j ensures j in s'.dropped <==> In(s', j, Dropped) { assert In(s, j, Dropped) <==> j in s.dropped; }
  }

  lemma ConsumerReceives(s: State, s': State, k: nat, token: Token)
    requires ConsumerOk(s) && s.consumer.Consuming? && s'.consumer == Holding(Item(k, token))
    requires s'.stage == s.stage[k := Held] && s'.tokens == s.tokens[k := token]
    requires s'.dispatchClosed == s.dispatchClosed
    ensures ConsumerOk(s')
  {
    forall j | In(s', j, Held) ensures j == k { assert !In(s, j, Held); }
    forall j | In(s', j, Abandoned) ensures false { assert In(s, j, Abandoned); }
  }

  lemma DispatchStep(s: State)
    requires Inv(s) && Enabled(s, Dispatch)
    ensures Inv(Next(s, Dispatch))
  {
    var s', k := Next(s, Dispatch), s.consumer.item.seqNo;
    assert In(s, k, Held) && Moves(s, s', k, Queued);
    NumbersFrame(s, s', k, Queued);
    assert ConsumerOk(s') by {
      forall j | In(s', j, Held) ensures false { assert In(s, j, Held) && j != k; }
      forall j | In(s', j, Abandoned) ensures false { assert In(s, j, Abandoned); }
    }
    DispatchGrows(s, s');
    WorkersFrame(s, s', k, Queued);
    ResultsFrame(s, s', k, Queued);
    TrackerFrame(s, s', k, Queued);
    WriterFrame(s, s', k, Queued);
  }

  lemma DispatchGrows(s: State, s': State)
    requires DispatchOk(s) && s.consumer.Holding? && In(s, s.consumer.item.seqNo, Held)
    requires Carries(s, s.consumer.item.seqNo, s.consumer.item.token)
    requires s'.dispatch == s.dispatch + [s.consumer.item] && s'.tokens == s.tokens
    requires s'.stage == s.stage[s.consumer.item.seqNo := Queued]
    ensures DispatchOk(s')
  {
    assert Queue(s'.dispatch) == Queue(s.dispatch) + {s.consumer.item.seqNo} by {
      assert s'.dispatch[|s.dispatch|] == s.consumer.item;
      assert forall i :: 0 <= i < |s.dispatch| ==> s'.dispatch[i] == s.dispatch[i];
    }
    forall k | In(s', k, Queued) ensures k in Queue(s'.dispatch) {
      assert k == s.consumer.item.seqNo || In(s, k, Queued);
    }
  }

  lemma StayNumbers(s: State, s': State)
    requires NumbersOk(s) && s'.stage == s.stage && s'.tokens == s.tokens
    requires s'.received == s.received && s'.dropped == s.dropped
    requires forall k :: k in s'.handled ==> k in s.stage && !Unhandled(s.stage[k])
    ensures NumbersOk(s')
  {
  }

  lemma ConsumerEnds(s: State, step: Step)
    requires Inv(s) && Enabled(s, step)
    requires step.ConsumerCancelled? || step.SourceClosed? || step.CloseDispatch?
    ensures Inv(Next(s, step))
  {
    var s' := Next(s, step);
    var k := if s.consumer.Holding? then s.consumer.item.seqNo else 0;
    assert s'.stage == if s.consumer.Holding? then s.stage[k := Abandoned] else s.stage;
    ConsumerStops(s, s', k);
  }

  lemma ConsumerStops(s: State, s': State, k: nat)
    requires Inv(s) && s'.consumer.Finished? && (s.consumer.Finished? ==> s'.consumer == s.consumer)
    requires s' == s.(stage := s'.stage, consumer := s'.consumer, dispatchClosed := s'.dispatchClosed)
    requires s.dispatchClosed ==> s'.dispatchClosed
    requires if s.consumer.Holding?
             then k == s.consumer.item.seqNo && s'.stage == s.stage[k := Abandoned] && s'.consumer == Finished(true)
             else k == 0 && s'.stage == s.stage
    ensures Inv(s')
  {
    assert Moves(s, s', k, Abandoned) && (k in s.stage ==> In(s, k, Held));
    if k in s.stage { NumbersFrame(s, s', k, Abandoned); } else { StayNumbers(s, s'); }
    assert ConsumerOk(s') by {
      forall j | In(s', j, Held) ensures false { assert In(s, j, Held); }
      forall j | In(s', j, Abandoned) ensures s'.consumer == Finished(true) { assert In(s, j, Abandoned) || j == k; }
    }
    DispatchFrame(s, s', k, Abandoned);
    WorkersFrame(s, s', k, Abandoned);
    ResultsFrame(s, s', k, Abandoned);
    TrackerFrame(s, s', k, Abandoned);
    WriterFrame(s, s', k, Abandoned);
  }

  lemma TakeStep(s: State, w: nat)
    requires Inv(s) && Enabled(s, Take(w))
    ensures Inv(Next(s, Take(w)))
  {
    var s', k := Next(s, Take(w)), s.dispatch[0].seqNo;
    assert In(s, k, Queued) && Moves(s, s', k, AtWorker(w));
    NumbersFrame(s, s', k, AtWorker(w));
    EndsFrame(s, s', k, AtWorker(w));
    DispatchShrinks(s, s', k, w);
    OneWorker(s, s', w, k, AtWorker(w));
    ResultsFrame(s, s', k, AtWorker(w));
  }

  lemma DispatchShrinks(s: State, s': State, k: nat, w: nat)
    requires DispatchOk(s) && s.dispatch != [] && k == s.dispatch[0].seqNo
    requires s'.dispatch == s.dispatch[1..] && s'.tokens == s.tokens && s'.stage == s.stage[k := AtWorker(w)]
    ensures DispatchOk(s')
  {
    forall i | 0 <= i < |s'.dispatch|
      ensures In(s', s'.dispatch[i].seqNo, Queued) && Carries(s', s'.dispatch[i].seqNo, s'.dispatch[i].token)
    {
      assert s'.dispatch[i] == s.dispatch[i + 1] && In(s, s.dispatch[i + 1].seqNo, Queued);
    }
    forall j | In(s', j, Queued) ensures j in Queue(s'.dispatch) {
      assert In(s, j, Queued) && j in Queue(s.dispatch);
      var i :| 0 <= i < |s.dispatch| && s.dispatch[i].seqNo == j;
      assert s'.dispatch[i - 1].seqNo == j;
    }
  }

  lemma WorkerOnly(s: State, s': State, w: nat)
    requires Inv(s) && w < |s.workers| && HeldBy(s.workers[w]).Some?
    requires s' == s.(workers := s'.workers, handled := s'.handled)
    requires s'.handled == s.handled || s'.handled == s.handled + {HeldBy(s.workers[w]).value}
    requires |s'.workers| == |s.workers| && s'.workers == s.workers[w := s'.workers[w]]
    requires HeldBy(s'.workers[w]) == HeldBy(s.workers[w]) && WorkerOk(s', w)
    ensures Inv(s')
  {
    var k := HeldBy(s.workers[w]).value;
    assert WorkerOk(s, w) && In(s, k, AtWorker(w));
    StayNumbers(s, s');
    ConsumerFrame(s, s', k, AtWorker(w));
    DispatchFrame(s, s', k, AtWorker(w));
    OneWorker(s, s', w, k, AtWorker(w));
    ResultsFrame(s, s', k, AtWorker(w));
    TrackerFrame(s, s', k, AtWorker(w));
    WriterFrame(s, s', k, AtWorker(w));
  }

  lemma WorkStep(s: State, step: Step)
    requires Inv(s) && Enabled(s, step) && (step.Begin? || step.Succeed? || step.Fail?)
    ensures Inv(Next(s, step))
  {
    assert WorkerOk(s, step.w);
    WorkerOnly(s, Next(s, step), step.w);
  }

  lemma QuietStep(s: State, step: Step)
    requires Inv(s) && Enabled(s, step) && (step.Exit? || step.CloseResults? || step.Cancel?)
    ensures Inv(Next(s, step))
  {
    assert 0 !in s.stage;
    QuietWorkers(s, step);
    WorkersAlone(s, Next(s, step));
  }

  /** A step that changes only which workers have exited, or closes or cancels. */
  lemma WorkersAlone(s: State, s': State)
    requires Inv(s) && WorkersOk(s') && (s.resultsClosed ==> s'.resultsClosed)
    requires s' == s.(workers := s'.workers, resultsClosed := s'.resultsClosed, cancelled := s'.cancelled)
    ensures Inv(s')
  {
    StayNumbers(s, s');
    assert 0 !in s.stage;
    ConsumerFrame(s, s', 0, Dropped);
    DispatchFrame(s, s', 0, Dropped);
    ResultsFrame(s, s', 0, Dropped);
    TrackerFrame(s, s', 0, Dropped);
    WriterFrame(s, s', 0, Dropped);
  }

  lemma QuietWorkers(s: State, step: Step)
    requires WorkersOk(s) && 0 !in s.stage && Enabled(s, step) && (step.Exit? || step.CloseResults? || step.Cancel?)
    ensures WorkersOk(Next(s, step))
  {
    var s' := Next(s, step);
    forall v | 0 <= v < |s'.workers| ensures WorkerOk(s', v) {
      assert WorkerOk(s, v);
      if s'.workers[v] == s.workers[v] { WorkerFrame(s, s', v, 0, Dropped); }
    }
  }

  lemma DropStep(s: State, w: nat)
    requires Inv(s) && Enabled(s, DropItem(w))
    ensures Inv(Next(s, DropItem(w)))
  {
    var s', k := Next(s, DropItem(w)), s.workers[w].item.seqNo;
    assert WorkerOk(s, w) && In(s, k, AtWorker(w));
    assert Moves(s, s', k, Dropped) && k in s'.dropped;
    NumbersFrame(s, s', k, Dropped);
    ConsumerFrame(s, s', k, Dropped);
    DispatchFrame(s, s', k, Dropped);
    OneWorker(s, s', w, k, Dropped);
    ResultsFrame(s, s', k, Dropped);
    TrackerFrame(s, s', k, Dropped);
    WriterFrame(s, s', k, Dropped);
  }

  lemma ReportStep(s: State, w: nat)
    requires Inv(s) && Enabled(s, Report(w))
    ensures Inv(Next(s, Report(w)))
  {
    var s', r := Next(s, Report(w)), s.workers[w].result;
    assert WorkerOk(s, w) && In(s, r.seqNo, AtWorker(w));
    var k := r.seqNo;
    assert Moves(s, s', k, InResults);
    NumbersFrame(s, s', k, InResults);
    EndsFrame(s, s', k, InResults);
    DispatchFrame(s, s', k, InResults);
    OneWorker(s, s', w, k, InResults);
    ResultsGrow(s, s', r);
  }

  lemma ResultsGrow(s: State, s': State, r: Result)
    requires ResultsOk(s) && r.seqNo in s.stage && s.stage[r.seqNo].AtWorker? && Carries(s, r.seqNo, r.token)
    requires r.failed <==> r.seqNo !in s.handled
    requires s'.results == s.results + [r] && s'.stage == s.stage[r.seqNo := InResults]
    requires s'.tokens == s.tokens && s'.handled == s.handled
    ensures ResultsOk(s')
  {
    forall i | 0 <= i < |s'.results| ensures ResultOk(s', s'.results[i]) {
      if i < |s.results| { assert ResultOk(s, s.results[i]) && s'.results[i] == s.results[i]; }
    }
    forall k | In(s', k, InResults) ensures k in Answered(s'.results) {
      if k == r.seqNo {
        assert s'.results[|s.results|].seqNo == k;
      } else {
        assert In(s, k, InResults);
        var i :| 0 <= i < |s.results| && s.results[i].seqNo == k;
        assert s'.results[i].seqNo == k;
      }
    }
    forall i, j | 0 <= i < j < |s'.results| ensures s'.results[i].seqNo != s'.results[j].seqNo {
      assert ResultOk(s, s.results[i]);
    }
  }

  lemma ResultsShrink(s: State, s': State)
    requires ResultsOk(s) && s.results != [] && s'.results == s.results[1..]
    requires s'.tokens == s.tokens && s'.handled == s.handled
    requires forall k :: In(s', k, InResults) <==> In(s, k, InResults) && k != s.results[0].seqNo
    ensures ResultsOk(s')
  {
  }

  lemma CollectFailure(s: State)
    requires Inv(s) && Enabled(s, Collect) && s.results[0].failed
    ensures Inv(Next(s, Collect))
  {
    var k := s.results[0].seqNo;
    var s' := s.(results := s.results[1..], stage := s.stage[k := Fatal], writer := Ended(true), cancelled := true);
    assert s' == Next(s, Collect);
    assert ResultOk(s, s.results[0]) && Moves(s, s', k, Fatal);
    NumbersFrame(s, s', k, Fatal);
    ConsumerFrame(s, s', k, Fatal);
    DispatchFrame(s, s', k, Fatal);
    WorkersFrame(s, s', k, Fatal);
    FailureResults(s, s', k);
    TrackerFrame(s, s', k, Fatal);
    FailureWriter(s, s');
  }

  lemma FailureWriter(s: State, s': State)
    requires MarksOk(s) && s'.marks == s.marks && s'.tracker == s.tracker
    requires s'.stored == s.stored && s'.tokens == s.tokens
    requires s'.writer == Ended(true)
    ensures MarksOk(s') && WriterOk(s')
  {
  }

  lemma FailureResults(s: State, s': State, k: nat)
    requires ResultsOk(s) && s.results != [] && k == s.results[0].seqNo && s'.stage == s.stage[k := Fatal]
    requires s'.results == s.results[1..] && s'.tokens == s.tokens && s'.handled == s.handled
    ensures ResultsOk(s')
  {
    forall j ensures In(s', j, InResults) <==> In(s, j, InResults) && j != k {}
    ResultsShrink(s, s');
  }

  ghost predicate BufferCarries(s: State, c: map<nat, Token>) {
    forall k :: k in c ==> k in s.stage && Carries(s, k, c[k])
  }

  /** With the result joined, the buffer holds handled events from nextSeq on, each with its token. */
  lemma BufferOfResult(s: State)
    requires NumbersOk(s) && TrackerOk(s) && s.results != [] && !s.results[0].failed && ResultOk(s, s.results[0])
    ensures var c := s.tracker.completed[s.results[0].seqNo := s.results[0].token];
      BufferCarries(s, c) && forall k :: k in c ==> k in s.handled && k >= s.tracker.nextSeq
  {
    var r := s.results[0];
    assert !In(s, r.seqNo, Advanced) && r.seqNo >= s.tracker.nextSeq;
    forall k | k in s.tracker.completed ensures In(s, k, Buffered) {}
  }

  lemma StagesOfResult(s: State, s': State, c: map<nat, Token>, g: nat)
    requires TrackerOk(s) && s.results != [] && In(s, s.results[0].seqNo, InResults) && BufferCarries(s, c)
    requires c == s.tracker.completed[s.results[0].seqNo := s.results[0].token] && g == Gap(c, s.tracker.nextSeq)
    requires forall k :: k in c ==> k >= s.tracker.nextSeq
    requires s'.stage == Advance(s.stage, s.results[0].seqNo, g)
    ensures forall k: nat :: In(s', k, Buffered) <==> k in c && k >= g
    ensures forall k: nat :: In(s', k, Advanced) <==> 1 <= k < g
  {
    forall k: nat ensures (In(s', k, Buffered) <==> k in c && k >= g) && (In(s', k, Advanced) <==> 1 <= k < g) {
      assert In(s, k, Buffered) <==> k in s.tracker.completed;
      assert In(s, k, Advanced) <==> 1 <= k < s.tracker.nextSeq;
    }
  }

  /** The tracker after a successful result: it passes exactly the events that are handled
  without a gap. */
  lemma CollectTracker(s: State, s': State)
    requires NumbersOk(s) && TrackerOk(s) && s.results != [] && !s.results[0].failed && ResultOk(s, s.results[0])
    requires s'.tracker == AfterMark(s.tracker, s.results[0].seqNo, s.results[0].token)
    requires s'.stage == Advance(s.stage, s.results[0].seqNo, s'.tracker.nextSeq)
    requires s'.tokens == s.tokens && s'.handled == s.handled && s'.received == s.received
    ensures TrackerOk(s')
    ensures BufferCarries(s, s.tracker.completed[s.results[0].seqNo := s.results[0].token])
  {
    BufferOfResult(s);
    var r := s.results[0];
    var c, next := s.tracker.completed[r.seqNo := r.token], s.tracker.nextSeq;
    StagesOfResult(s, s', c, Gap(c, next));
    assert s.received + 1 !in c;
  }

  /** What a successful Collect changes. */
  ghost predicate SuccessStep(s: State, s': State) {
    && s.results != []
    && var r := s.results[0];
       var token := MarkToken(s.tracker, r.seqNo, r.token);
       && s'.tracker == AfterMark(s.tracker, r.seqNo, r.token)
       && s' == s.(results := s.results[1..], tracker := s'.tracker,
                   stage := Advance(s.stage, r.seqNo, s'.tracker.nextSeq),
                   writer := if token.None? then Collecting else Marking(s'.tracker.nextSeq - 1, token.value))
  }

  lemma CollectIsSuccessStep(s: State)
    requires Enabled(s, Collect) && !s.results[0].failed
    ensures SuccessStep(s, Next(s, Collect))
  {
  }

  lemma CollectSuccess(s: State)
    requires Inv(s) && Enabled(s, Collect) && !s.results[0].failed
    ensures Inv(Next(s, Collect))
  {
    var s' := Next(s, Collect);
    CollectIsSuccessStep(s);
    assert ResultOk(s, s.results[0]);
    SuccessKeepsInv(s, s');
  }

  lemma SuccessKeepsInv(s: State, s': State)
    requires Inv(s) && SuccessStep(s, s') && s.writer == Collecting && !s.results[0].failed && ResultOk(s, s.results[0])
    ensures Inv(s')
  {
    CollectTracker(s, s');
    CollectStages(s, s');
    CollectNumbers(s, s');
    CollectConsumer(s, s');
    CollectWorkers(s, s');
    ResultsShrink(s, s');
    CollectMarks(s, s');
    CollectWriter(s, s');
  }

  /** Every stage but the collected ones is as it was. */
  ghost predicate OthersStay(s: State, s': State) {
    && s'.stage.Keys == s.stage.Keys
    && forall k, g :: g != InResults && g != Buffered && g != Advanced ==> (In(s', k, g) <==> In(s, k, g))
  }

  lemma CollectStages(s: State, s': State)
    requires s.results != [] && In(s, s.results[0].seqNo, InResults)
    requires s'.stage == Advance(s.stage, s.results[0].seqNo, s'.tracker.nextSeq)
    ensures OthersStay(s, s')
    ensures forall k :: In(s', k, InResults) <==> In(s, k, InResults) && k != s.results[0].seqNo
  {
  }

  lemma CollectNumbers(s: State, s': State)
    requires NumbersOk(s) && OthersStay(s, s')
    requires s'.tokens == s.tokens && s'.handled == s.handled && s'.received == s.received && s'.dropped == s.dropped
    ensures NumbersOk(s')
  {
    forall k | k in s'.handled ensures k in s'.stage && !Unhandled(s'.stage[k]) {
      assert In(s', k, s'.stage[k]);
    }
  }

  lemma CollectConsumer(s: State, s': State)
    requires ConsumerOk(s) && DispatchOk(s) && OthersStay(s, s')
    requires s'.consumer == s.consumer && s'.dispatchClosed == s.dispatchClosed
    requires s'.dispatch == s.dispatch && s'.tokens == s.tokens
    ensures ConsumerOk(s') && DispatchOk(s')
  {
  }

  lemma CollectWorkers(s: State, s': State)
    requires WorkersOk(s) && OthersStay(s, s')
    requires s'.workers == s.workers && s'.tokens == s.tokens && s'.handled == s.handled
    requires s'.dropped == s.dropped && s'.dispatch == s.dispatch && s'.dispatchClosed == s.dispatchClosed
    requires s'.resultsClosed == s.resultsClosed
    ensures WorkersOk(s')
  {
    forall w | 0 <= w < |s'.workers| ensures WorkerOk(s', w) { assert WorkerOk(s, w); }
    forall k | k in s'.stage && s'.stage[k].AtWorker?
      ensures s'.stage[k].w < |s'.workers| && HeldBy(s'.workers[s'.stage[k].w]) == Some(k)
    {
      assert In(s', k, s'.stage[k]) && In(s, k, s'.stage[k]);
    }
  }

  lemma CollectMarks(s: State, s': State)
    requires MarksOk(s) && s'.marks == s.marks && s'.stored == s.stored && s'.tokens == s.tokens
    requires s.tracker.nextSeq <= s'.tracker.nextSeq
    ensures MarksOk(s')
  {
  }

  lemma CollectWriter(s: State, s': State)
    requires s.writer == Collecting && WriterOk(s) && MarksOk(s) && OthersStay(s, s')
    requires s'.marks == s.marks && s'.tokens == s.tokens
    requires s.results != [] && s.tracker.nextSeq >= 1
    requires var r := s.results[0];
      && s'.tracker == AfterMark(s.tracker, r.seqNo, r.token)
      && var token := MarkToken(s.tracker, r.seqNo, r.token);
         s'.writer == if token.None? then Collecting else Marking(s'.tracker.nextSeq - 1, token.value)
    requires BufferCarries(s, s.tracker.completed[s.results[0].seqNo := s.results[0].token])
    ensures WriterOk(s')
  {
    var r := s.results[0];
    var c, next := s.tracker.completed[r.seqNo := r.token], s.tracker.nextSeq;
    var g := Gap(c, next);
    assert s'.tracker.nextSeq == g;
    if g > next { assert g - 1 in c && Carries(s, g - 1, c[g - 1]); }
  }

  lemma WriterStep(s: State, step: Step)
    requires Inv(s) && Enabled(s, step) && (step.MarkOk? || step.MarkFails? || step.WriterEnds?)
    ensures Inv(Next(s, step))
  {
    WriterMarks(s, step);
    WriterAlone(s, Next(s, step));
  }

  /** A step that changes only what the writer told the source leaves the others' parts alone. */
  lemma WriterAlone(s: State, s': State)
    requires Inv(s) && MarksOk(s') && WriterOk(s')
    requires s' == s.(marks := s'.marks, stored := s'.stored, writer := s'.writer, cancelled := s'.cancelled)
    ensures Inv(s')
  {
    StayNumbers(s, s');
    assert 0 !in s.stage;
    ConsumerFrame(s, s', 0, Dropped);
    DispatchFrame(s, s', 0, Dropped);
    WorkersFrame(s, s', 0, Dropped);
    ResultsFrame(s, s', 0, Dropped);
    TrackerFrame(s, s', 0, Dropped);
  }

  lemma WriterMarks(s: State, step: Step)
    requires MarksOk(s) && WriterOk(s) && Enabled(s, step) && (step.MarkOk? || step.MarkFails? || step.WriterEnds?)
    ensures MarksOk(Next(s, step)) && WriterOk(Next(s, step))
  {
    match step {
      case MarkOk =>
        Marked(s, s.(marks := s.marks + [s.writer.seqNo], stored := Some(s.writer.token), writer := Collecting));
      case MarkFails(persisted) =>
        if persisted {
          Marked(s, s.(marks := s.marks + [s.writer.seqNo], stored := Some(s.writer.token),
                       writer := Ended(true), cancelled := true));
        } else {
          FailureWriter(s, s.(writer := Ended(true), cancelled := true));
        }
      case WriterEnds => WriterQuits(s, s.(writer := Ended(false)));
    }
  }

  lemma Marked(s: State, s': State)
    requires MarksOk(s) && WriterOk(s) && s.writer.Marking? && s'.marks == s.marks + [s.writer.seqNo]
    requires s'.stored == Some(s.writer.token) && s'.tracker == s.tracker
    requires s'.tokens == s.tokens && s'.stage == s.stage
    requires s'.writer == Collecting || s'.writer == Ended(true)
    ensures MarksOk(s') && WriterOk(s')
  {
    var n := |s.marks|;
    assert s'.marks[n] == s.writer.seqNo && forall i :: 0 <= i < n ==> s'.marks[i] == s.marks[i];
    forall j ensures In(s', j, Fatal) <==> In(s, j, Fatal) {}
  }

  lemma WriterQuits(s: State, s': State)
    requires MarksOk(s) && WriterOk(s) && s.writer.Collecting? && s.results == [] && s.resultsClosed
    requires s' == s.(writer := Ended(false))
    ensures MarksOk(s') && WriterOk(s')
  {
    forall j ensures In(s', j, Fatal) <==> In(s, j, Fatal) {}
  }

  lemma StepKeepsInv(s: State, step: Step)
    requires Inv(s) && Enabled(s, step)
    ensures Inv(Next(s, step))
  {
    match step {
      case Receive(token) => ReceiveStep(s, token);
      case Dispatch => DispatchStep(s);
      case ConsumerCancelled => ConsumerEnds(s, step);
      case SourceClosed => ConsumerEnds(s, step);
      case CloseDispatch => ConsumerEnds(s, step);
      case Take(w) => TakeStep(s, w);
      case Begin(_) => WorkStep(s, step);
      case DropItem(w) => DropStep(s, w);
      case Succeed(_) => WorkStep(s, step);
      case Fail(_) => WorkStep(s, step);
      case Report(w) => ReportStep(s, w);
      case Exit(_) => QuietStep(s, step);
      case CloseResults => QuietStep(s, step);
      case Collect => if s.results[0].failed { CollectFailure(s); } else { CollectSuccess(s); }
      case MarkOk => WriterStep(s, step);
      case MarkFails(_) => WriterStep(s, step);
      case WriterEnds => WriterStep(s, step);
      case Cancel => QuietStep(s, step);
    }
  }

  // Runs.

  ghost predicate CanStep(s: State, s': State) {
    exists step :: Enabled(s, step) && s' == Next(s, step)
  }

  ghost predicate IsRun(trace: seq<State>, numWorkers: nat) {
    && trace != [] && trace[0] == Start(numWorkers)
    && forall i :: 0 < i < |trace| ==> CanStep(trace[i - 1], trace[i])
  }

  lemma {:induction false} RunKeepsInv(trace: seq<State>, numWorkers: nat, i: nat)
    requires IsRun(trace, numWorkers) && numWorkers > 0 && i < |trace|
    ensures Inv(trace[i])
  {
    if i == 0 {
      StartOk(numWorkers);
    } else {
      RunKeepsInv(trace, numWorkers, i - 1);
      CanStepKeepsInv(trace[i - 1], trace[i]);
    }
  }

  lemma CanStepKeepsInv(s: State, s': State)
    requires Inv(s) && CanStep(s, s')
    ensures Inv(s')
  {
    var step :| Enabled(s, step) && s' == Next(s, step);
    StepKeepsInv(s, step);
  }

  /** Marked numbers strictly increase, the stored token belongs to the last of them, and every
  event up to a marked one was published or deliberately skipped. */
  ghost predicate TokenSafe(s: State) {
    && (forall a, b :: 0 <= a < b < |s.marks| ==> s.marks[a] < s.marks[b])
    && (forall m, k :: m in s.marks && 1 <= k <= m ==> k in s.handled)
    && (s.marks == [] ==> s.stored == None)
    && (s.marks != [] ==> Carries(s, s.marks[|s.marks| - 1], s.stored))
  }

  lemma InvIsSafe(s: State)
    requires TrackerOk(s) && MarksOk(s)
    ensures TokenSafe(s)
  {
  }

  /** In every state of every run the resume token is safe. */
  lemma TokenNeverPassesUnhandled(trace: seq<State>, numWorkers: nat, i: nat)
    requires IsRun(trace, numWorkers) && numWorkers > 0 && i < |trace|
    ensures TokenSafe(trace[i])
  {
    RunKeepsInv(trace, numWorkers, i);
    InvIsSafe(trace[i]);
  }

  /** streamEventsConcurrent has returned nil. */
  predicate ReturnedNil(s: State) {
    s.consumer == Finished(false) && s.writer == Ended(false)
  }

  /** Everything received was handled, nothing waits in the tracker, and the last event's token,
  unless it is nil, is the one stored. */
  ghost predicate Drained(s: State) {
    && s.tracker == Tracker(map[], s.received + 1)
    && (forall k :: 1 <= k <= s.received ==> k in s.handled)
    && (s.received in s.tokens && s.tokens[s.received].Some? ==>
          s.marks != [] && s.marks[|s.marks| - 1] == s.received && s.stored == s.tokens[s.received])
  }

  lemma NothingInFlight(s: State)
    requires Inv(s) && ReturnedNil(s) && s.dropped == {}
    ensures forall k :: k in s.stage ==> In(s, k, Buffered) || In(s, k, Advanced)
  {
    assert WorkerOk(s, 0) && s.workers[0].Exited?;
    assert s.dispatch == [] && s.results == [];
    forall k | k in s.stage ensures In(s, k, Buffered) || In(s, k, Advanced) {
      var g := s.stage[k];
      assert In(s, k, g);
      assert k in s.dropped <==> In(s, k, Dropped);
    }
  }

  /** A run that returns nil has drained everything if and only if no worker dropped an item on
  finding the context cancelled. */
  lemma CleanCloseDrains(trace: seq<State>, numWorkers: nat, i: nat)
    requires IsRun(trace, numWorkers) && numWorkers > 0 && i < |trace| && ReturnedNil(trace[i])
    ensures Drained(trace[i]) <==> trace[i].dropped == {}
  {
    RunKeepsInv(trace, numWorkers, i);
    DrainedIffNoneDropped(trace[i]);
  }

  ghost predicate DropsCancelled(s: State) {
    s.dropped != {} ==> s.cancelled
  }

  lemma StepDropsCancelled(s: State, step: Step)
    requires Enabled(s, step) && DropsCancelled(s)
    ensures DropsCancelled(Next(s, step))
  {
    var s' := Next(s, step);
    if step.DropItem? {
      assert s'.cancelled == s.cancelled;
    } else {
      assert s'.dropped == s.dropped;
    }
  }

  lemma CanStepDropsCancelled(s: State, s': State)
    requires DropsCancelled(s) && CanStep(s, s')
    ensures DropsCancelled(s')
  {
    var step :| Enabled(s, step) && s' == Next(s, step);
    StepDropsCancelled(s, step);
  }

  /** Items are dropped only after a cancellation, and a cancellation is final. */
  lemma {:induction false} DropsNeedCancellation(trace: seq<State>, numWorkers: nat, i: nat)
    requires IsRun(trace, numWorkers) && i < |trace|
    ensures DropsCancelled(trace[i])
  {
    if i > 0 {
      DropsNeedCancellation(trace, numWorkers, i - 1);
      CanStepDropsCancelled(trace[i - 1], trace[i]);
    }
  }

  /** So a caller that does not cancel before the exporter returns nil has everything drained. */
  lemma UncancelledCloseDrains(trace: seq<State>, numWorkers: nat, i: nat)
    requires IsRun(trace, numWorkers) && numWorkers > 0 && i < |trace| && ReturnedNil(trace[i])
    requires !trace[i].cancelled
    ensures Drained(trace[i])
  {
    DropsNeedCancellation(trace, numWorkers, i);
    CleanCloseDrains(trace, numWorkers, i);
  }

  lemma DrainedIffNoneDropped(s: State)
    requires Inv(s) && ReturnedNil(s)
    ensures Drained(s) <==> s.dropped == {}
  {
    if s.dropped == {} {
      NothingInFlight(s);
      AllPassed(s);
    } else {
      var k :| k in s.dropped;
      assert In(s, k, Dropped);
    }
  }

  lemma AllPassed(s: State)
    requires NumbersOk(s) && TrackerOk(s) && MarksOk(s) && WriterOk(s) && s.writer == Ended(false)
    requires forall k :: k in s.stage ==> In(s, k, Buffered) || In(s, k, Advanced)
    ensures Drained(s)
  {
  }

  /** One event in a worker's hands, the source closed, the context still live. */
  ghost predicate LastItemTaken(s: State) {
    && s.workers == [Taken(Item(1, Some("t")))] && s.received == 1 && s.tracker == NEW_TRACKER
    && s.consumer == Finished(false) && s.dispatch == [] && s.results == [] && s.writer == Collecting
  }

  lemma ReachLastItem() returns (trace: seq<State>)
    ensures IsRun(trace, 1) && LastItemTaken(trace[|trace| - 1])
  {
    var s0 := Start(1);
    var s1 := Do(s0, Receive(Some("t")));
    var s2 := Do(s1, Dispatch);
    var s3 := Do(s2, SourceClosed);
    var s4 := Do(s3, CloseDispatch);
    assert s4.workers == [Idle] && s4.dispatch == [Item(1, Some("t"))];
    var s5 := Do(s4, Take(0));
    trace := [s0, s1, s2, s3, s4, s5];
  }

  lemma Extend(trace: seq<State>, numWorkers: nat, step: Step) returns (longer: seq<State>)
    requires IsRun(trace, numWorkers) && Enabled(trace[|trace| - 1], step)
    ensures IsRun(longer, numWorkers) && longer[|longer| - 1] == Next(trace[|trace| - 1], step)
  {
    var s' := Do(trace[|trace| - 1], step);
    longer := trace + [s'];
    forall i | 0 < i < |longer| ensures CanStep(longer[i - 1], longer[i]) {
      if i < |trace| { assert longer[i - 1] == trace[i - 1] && longer[i] == trace[i]; }
    }
  }

  /** The exception happens: the caller's context is cancelled after the consumer saw the
  channel close, the worker drops the item it holds, and the run still returns nil. */
  lemma CancelledCloseLosesProgress() returns (trace: seq<State>)
    ensures IsRun(trace, 1) && ReturnedNil(trace[|trace| - 1]) && !Drained(trace[|trace| - 1])
  {
    trace := ReachLastItem();
    trace := Extend(trace, 1, Cancel);
    trace := Extend(trace, 1, DropItem(0));
    assert trace[|trace| - 1].workers == [Exited(true)];
    trace := Extend(trace, 1, CloseResults);
    trace := Extend(trace, 1, WriterEnds);
  }

  lemma Do(s: State, step: Step) returns (s': State)
    requires Enabled(s, step)
    ensures s' == Next(s, step) && CanStep(s, s')
  {
    s' := Next(s, step);
  }
}
