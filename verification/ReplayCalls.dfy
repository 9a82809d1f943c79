/** What an attempt and a call of the replay come to, in terms of the history and of what the processor
answers. */
module ReplayCalls {
  import opened Orders
  import opened HealthEvents
  import opened Coverage
  import opened ColdStart
  import opened ReplayConvergence

  /** Record i is the last to speak about some effect. */
  ghost predicate SpeaksOfSomething(h: seq<Record>, i: nat)
    requires i < |h|
  {
    exists y :: SpeaksLast(h, i, y)
  }

  /** A record is superseded exactly when there is nothing about which it speaks last, or when it would
  clear something without knowing what was recorded after it. */
  lemma SupersededIff(w: Window, store: seq<Record>, h: seq<Record>, i: nat)
    requires IsHistory(w, store, h) && BlanksSettled(w, store)
    requires i < |h| && Selected(w, h[i]) && h[i].body.Readable?
    ensures Resolved(w, store, h[i]).Superseded?
       <==> !SpeaksOfSomething(h, i) || (h[i].body.event.healthy && !ReadableAfter(h, i))
  {
    var r := h[i];
    LaterUnreadable(w, store, h, i);
    if !(r.body.event.healthy && !ReadableAfter(h, i)) {
      if Resolved(w, store, r).Superseded? {
        forall y ensures !SpeaksLast(h, i, y) { DecidesIffSpeaksLast(w, store, h, i, y); }
      } else {
        var x := RemainingAllows(r.body.event, ReadableEvents(NewerRecords(w, store, r)));
        DecidesIffSpeaksLast(w, store, h, i, ScopedEffect(r.scope, x));
        assert SpeaksLast(h, i, ScopedEffect(r.scope, x));
      }
    }
  }

  /** One attempt, on the history and the processor's answer alone, for a readable record of a readable
  check: who is handed over, what ends the replay, what is counted as failed, and what is stored as
  decided. */
  lemma AttemptMeans(w: Window, store: seq<Record>, h: seq<Record>, outcome: Record -> Outcome, i: nat)
    requires IsHistory(w, store, h) && BlanksSettled(w, store)
    requires i < |h| && Selected(w, h[i]) && h[i].body.Readable? && ReadableAfter(h, i)
    ensures var o, speaks := outcome(h[i]), SpeaksOfSomething(h, i);
      && (Hands(w, store, outcome, h[i]) <==> o != Cancelled && speaks)
      && (Stops(w, store, outcome, h[i]) <==> o == Cancelled || (o == Interrupted && speaks))
      && (Fails(w, store, outcome, h[i]) <==> o == Failed && speaks)
      && (Completes(w, store, outcome, h[i]) <==> o != Cancelled && (!speaks || o == Skipped || o == Invalid))
  {
    SupersededIff(w, store, h, i);
  }

  /** A document that cannot be parsed is stored as invalid without being handed over; one without an
  event is handed over as it is. */
  lemma UnreadableAttempt(w: Window, store: seq<Record>, outcome: Record -> Outcome, r: Record)
    requires !r.body.Readable? && outcome(r) != Cancelled
    ensures r.body == Malformed ==> Completes(w, store, outcome, r) && !Hands(w, store, outcome, r)
    ensures r.body == Malformed ==> !Breaks(w, store, outcome, r)
    ensures r.body == Absent ==> Hands(w, store, outcome, r)
    ensures r.body == Absent ==> (Completes(w, store, outcome, r) <==> outcome(r) == Skipped || outcome(r) == Invalid)
    ensures r.body == Absent ==> (Breaks(w, store, outcome, r) <==> outcome(r) == Failed || outcome(r) == Interrupted)
  {
  }

  /** No record is both stored as decided and reported as an error: what fails stays pending. */
  lemma CompletedNeverBreaks(w: Window, store: seq<Record>, outcome: Record -> Outcome, r: Record)
    ensures !(Completes(w, store, outcome, r) && Breaks(w, store, outcome, r))
    ensures outcome(r) == Processed && !Resolved(w, store, r).Superseded? && r.body != Malformed ==>
      !Completes(w, store, outcome, r) && !Breaks(w, store, outcome, r)
  {
  }

  /** What a batch that is not given up stores as decided: exactly the records its attempts decided. */
  lemma CompletedExactly(p: Progress, w: Window, store: seq<Record>, outcome: Record -> Outcome,
                         rs: seq<Record>, r: Record)
    ensures p.completed <= After(p, w, store, outcome, rs).completed
    ensures r in After(p, w, store, outcome, rs).completed[|p.completed|..]
       <==> r in rs && Completes(w, store, outcome, r)
  {
    FilterMember(Completing(w, store, outcome), rs, r);
  }

  /** A record without a time cannot be placed in the history and is replayed in full. */
  lemma UntimedIsReplayedWhole(s: set<ScopedEffect>, w: Window, store: seq<Record>, outcome: Record -> Outcome,
                               r: Record, y: ScopedEffect)
    requires r.createdAt == 0 && outcome(r) == Processed
    ensures y in Recovered(s, w, store, outcome, r) <==> if RecordTouches(r, y) then IsFault(r) else y in s
  {
    ApplyRecordMember(s, r, y);
  }

  // Calls.

  /** When the processor accepts what is selected and its decisions can be stored, nothing fails and
  nothing is given up. */
  lemma AcceptedSucceeds(w: Window, store: seq<Record>, outcome: Record -> Outcome, persists: seq<Record> -> bool)
    requires forall r :: r in store && Selected(w, r) ==> outcome(r) == Processed
    requires forall rs :: persists(rs)
    ensures !AnyFails(w, store, outcome, PhaseRecords(w, store, false) + PhaseRecords(w, store, true))
    ensures !AnyFails(w, store, outcome, PhaseRecords(w, store, false))
    ensures !ScanGivenUp(w, store, outcome, persists, false) && !ScanGivenUp(w, store, outcome, persists, true)
  {
    forall r | r in PhaseRecords(w, store, false) + PhaseRecords(w, store, true) ensures outcome(r) == Processed {
      PhaseMember(w, store, false, r);
      PhaseMember(w, store, true, r);
    }
    forall healthy: bool, b: nat ensures !BatchGivenUp(w, store, outcome, persists, healthy, b) {
      forall r | r in Batch(w, store, healthy, b) ensures outcome(r) == Processed {
        BatchMember(w, store, healthy, b, r);
      }
    }
  }

  lemma BatchMember(w: Window, store: seq<Record>, healthy: bool, b: nat, r: Record)
    requires r in Batch(w, store, healthy, b)
    ensures r in store && Selected(w, r)
  {
    var lo, hi := BatchBound(w, store, b), BatchBound(w, store, b + 1);
    FilterMember(OfKind(healthy), Found(w, store)[lo..hi], r);
    FilterMember(SelectedBy(w), store, r);
  }

  lemma InSomeBatch(w: Window, store: seq<Record>, r: Record) returns (b: nat)
    requires r in store && Selected(w, r)
    ensures 1000 * b < |Found(w, store)| && r in Batch(w, store, IsHealthy(r), b)
  {
    FilterMember(SelectedBy(w), store, r);
    var i :| 0 <= i < |Found(w, store)| && Found(w, store)[i] == r;
    b := i / 1000;
    var lo, hi := BatchBound(w, store, b), BatchBound(w, store, b + 1);
    assert Found(w, store)[lo..hi][i - lo] == r;
    FilterMember(OfKind(IsHealthy(r)), Found(w, store)[lo..hi], r);
  }

  /** Success leaves nothing behind: every selected record was either processed or stored as decided. */
  lemma SuccessSettlesAll(p: Progress, q: Progress, w: Window, store: seq<Record>, outcome: Record -> Outcome,
                          persists: seq<Record> -> bool, r: Record)
    requires Handled(p, q, true, w, store, outcome, persists) && r in store && Selected(w, r)
    ensures p.completed <= q.completed && p.handed <= q.handed
    ensures || r in q.completed[|p.completed|..]
            || (r in q.handed[|p.handed|..] && outcome(r) == Processed)
  {
    var faults, recoveries := PhaseRecords(w, store, false), PhaseRecords(w, store, true);
    assert !AnyFails(w, store, outcome, faults) by {
      assert forall x :: x in faults ==> x in faults + recoveries;
    }
    AfterConcat(p, w, store, outcome, faults, recoveries);
    PhaseMember(w, store, IsHealthy(r), r);
    assert r in faults + recoveries;
    FilterMember(Completing(w, store, outcome), faults + recoveries, r);
    FilterMember(Handing(w, store, outcome), faults + recoveries, r);
    var b := InSomeBatch(w, store, r);
    assert !BatchGivenUp(w, store, outcome, persists, IsHealthy(r), b);
  }

  ghost predicate Unstorable(w: Window, store: seq<Record>, outcome: Record -> Outcome,
                             persists: seq<Record> -> bool, rs: seq<Record>) {
    rs != [] && !persists(rs) && forall r :: r in rs ==> r in store && Selected(w, r) && Completes(w, store, outcome, r)
  }

  lemma GivenUpHasCause(w: Window, store: seq<Record>, outcome: Record -> Outcome, persists: seq<Record> -> bool,
                        healthy: bool, b: nat)
    requires BatchGivenUp(w, store, outcome, persists, healthy, b)
    ensures || (exists r :: r in store && Selected(w, r) && Breaks(w, store, outcome, r))
            || (exists rs :: Unstorable(w, store, outcome, persists, rs))
  {
    var rs := Batch(w, store, healthy, b);
    if r :| r in rs && Stops(w, store, outcome, r) {
      BatchMember(w, store, healthy, b, r);
    } else {
      var decided := Filter(Completing(w, store, outcome), rs);
      forall r | r in decided ensures r in store && Selected(w, r) && Completes(w, store, outcome, r) {
        FilterMember(Completing(w, store, outcome), rs, r);
        BatchMember(w, store, healthy, b, r);
      }
      assert Unstorable(w, store, outcome, persists, decided);
    }
  }

  /** An error has a cause: an attempt that failed or was cancelled, or decisions that could not be
  stored. */
  lemma FailureHasCause(p: Progress, q: Progress, w: Window, store: seq<Record>, outcome: Record -> Outcome,
                        persists: seq<Record> -> bool)
    requires Handled(p, q, false, w, store, outcome, persists)
    ensures || (exists r :: r in store && Selected(w, r) && Breaks(w, store, outcome, r))
            || (exists rs :: Unstorable(w, store, outcome, persists, rs))
  {
    var faults, recoveries := PhaseRecords(w, store, false), PhaseRecords(w, store, true);
    if AnyFails(w, store, outcome, faults + recoveries) {
      var r :| r in faults + recoveries && Fails(w, store, outcome, r);
      PhaseMember(w, store, false, r);
      PhaseMember(w, store, true, r);
    } else {
      var healthy := !ScanGivenUp(w, store, outcome, persists, false);
      var b: nat :| BatchGivenUp(w, store, outcome, persists, healthy, b);
      GivenUpHasCause(w, store, outcome, persists, healthy, b);
    }
  }

  /** The replay as it is called: for a readable history whose unseen part the processor accepts and
  whose decisions can be stored, it succeeds and leaves the effects of the whole history. */
  method ReplayHistory(recovery: Recovery, ghost base: set<ScopedEffect>, w: Window, store: seq<Record>,
                       ghost h: seq<Record>, outcome: Record -> Outcome, persists: seq<Record> -> bool)
    returns (ok: bool)
    requires recovery.Valid() && recovery.failures == 0
    requires IsHistory(w, store, h) && BlanksSettled(w, store) && AllReadable(h)
    requires AgreesElsewhere(base, recovery.effects, h, PhaseRecords(w, store, false) + PhaseRecords(w, store, true))
    requires forall r :: r in store && Selected(w, r) ==> outcome(r) == Processed
    requires forall rs :: persists(rs)
    modifies recovery
    ensures ok && recovery.effects == Applied(base, h)
  {
    ghost var p := recovery.View();
    AcceptedSucceeds(w, store, outcome, persists);
    ok := recovery.Handle(w, store, outcome, persists);
    HandleReachesHistory(base, p, w, store, h, outcome);
  }

  /** Two starts in a row: the first may fail or be cut short anywhere; the second finds what the first is
  done with no longer pending, and ends where the whole history would have. */
  method ReplayTwice(first: Recovery, ghost base: set<ScopedEffect>, w: Window, store: seq<Record>,
                     ghost h: seq<Record>, outcome: Record -> Outcome, persists: seq<Record> -> bool,
                     written: Record -> bool, again: Record -> Outcome, stores: seq<Record> -> bool)
    returns (second: Recovery, ok: bool)
    requires first.Valid() && first.failures == 0
    requires IsHistory(w, store, h) && BlanksSettled(w, store) && AllReadable(h)
    requires AgreesElsewhere(base, first.effects, h, PhaseRecords(w, store, false) + PhaseRecords(w, store, true))
    requires forall r :: r in store && Selected(w, r) ==> outcome(r) != Skipped && outcome(r) != Invalid
    requires (forall r :: again(r) == Processed) && (forall rs :: stores(rs))
    modifies first
    ensures ok && second.effects == Applied(base, h)
  {
    ghost var p := first.View();
    var firstHanded, firstCompleted := |first.handed|, |first.completed|;
    var answered := first.Handle(w, store, outcome, persists);
    ghost var q := first.View();
    HandledIsPart(p, q, answered, w, store, outcome, persists);
    ghost var faults, recoveries := HandledEffects(p, q, w, store, outcome);
    var done := Elems(first.completed[firstCompleted..])
      + set r | r in first.handed[firstHanded..] && outcome(r) == Processed && written(r);
    assert done == DoneWith(p, q, outcome, written);
    second := new Recovery(first.effects);
    var left := Settled(store, done);
    AcceptedSucceeds(w, left, again, stores);
    ghost var p' := second.View();
    ok := second.Handle(w, left, again, stores);
    SecondHandleReachesHistory(base, p, q, w, store, h, outcome, written, p', again);
  }
}
