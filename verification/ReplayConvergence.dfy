/** Whole-replay theorems: replaying the selected faults and then the selected recoveries,
each limited to its residual effects, brings the effect set to where applying the complete
history in (createdAt, id) order would have brought it. */
module ReplayConvergence {
  import opened Orders
  import opened HealthEvents
  import opened Coverage
  import opened ColdStart

  predicate RecordTouches(r: Record, y: ScopedEffect) {
    r.body.Readable? && r.scope == y.scope && Touches(r.body.event, y.effect)
  }

  /** Earlier, or at the same time and with the smaller id. */
  predicate Older(a: Record, b: Record) {
    a.createdAt < b.createdAt || (a.createdAt == b.createdAt && StringLess(a.id, b.id))
  }

  /** h lists what the recovery can see of the store, oldest first: everything that is to be processed
  and not younger than the upper bound. */
  ghost predicate IsHistory(w: Window, store: seq<Record>, h: seq<Record>) {
    && (forall i, j :: 0 <= i < j < |h| ==> Older(h[i], h[j]))
    && (forall r :: r in h <==> r in store && r.processable && (w.until == 0 || r.createdAt <= w.until))
    && (forall r :: r in h ==> r.createdAt != 0)
  }

  /** A record counts as seen before the position was lost: it is no longer pending, or not younger than
  the lower bound. */
  predicate SeenBefore(w: Window, r: Record) {
    !r.pending || (w.after != 0 && r.createdAt <= w.after)
  }

  function SeenBeforeBy(w: Window): Record -> bool { r => SeenBefore(w, r) }

  lemma SelectedIffUnseen(w: Window, store: seq<Record>, h: seq<Record>, r: Record)
    requires IsHistory(w, store, h) && r in h
    ensures Selected(w, r) <==> !SeenBefore(w, r)
  {
  }

  /** r is the last record of h that touches y. */
  ghost predicate SpeaksLast(h: seq<Record>, i: nat, y: ScopedEffect)
    requires i < |h|
  {
    RecordTouches(h[i], y) && forall j :: i < j < |h| ==> !RecordTouches(h[j], y)
  }

  /** Recovering r decides whether y is in the set. */
  ghost predicate Decides(w: Window, store: seq<Record>, r: Record, y: ScopedEffect) {
    && r.scope == y.scope
    && Resolved(w, store, r).Restricted?
    && Allows(Resolved(w, store, r).tracker, y.effect)
  }

  ghost predicate BlanksSettled(w: Window, store: seq<Record>) {
    forall r :: r in store && Selected(w, r) && r.body.Readable? ==>
      BlankConflictsSettled(r.body.event, ReadableEvents(NewerRecords(w, store, r)))
  }

  lemma {:induction false} ReadableEventsMember(rs: seq<Record>, e: HealthEvent)
    ensures e in ReadableEvents(rs) <==> exists r :: r in rs && r.body == Readable(e)
  {
    if rs != [] {
      var front, last := rs[..|rs| - 1], rs[|rs| - 1];
      assert rs == front + [last];
      ReadableEventsMember(front, e);
    }
  }

  lemma OlderIsOrder(a: Record, b: Record)
    ensures EventAfter(b, a.createdAt, a.id) <==> Older(a, b)
    ensures Older(a, b) ==> !Older(b, a)
  {
    StringLessIsStrictTotal();
    assert !StringLess(a.id, a.id);
  }

  lemma NewerIsLater(w: Window, store: seq<Record>, h: seq<Record>, i: nat, n: Record)
    requires IsHistory(w, store, h) && i < |h|
    ensures n in NewerRecords(w, store, h[i])
       <==> exists j :: i < j < |h| && h[j] == n && n.scope == h[i].scope
  {
    FilterMember(NewerThan(w, h[i]), store, n);
    OlderIsOrder(h[i], n);
    OlderIsOrder(n, h[i]);
    if n in NewerRecords(w, store, h[i]) {
      var j :| 0 <= j < |h| && h[j] == n;
      assert j != i && !(j < i);
    }
  }

  /** No later record of the same check is unreadable. */
  ghost predicate ReadableAfter(h: seq<Record>, i: nat)
    requires i < |h|
  {
    forall j :: i < j < |h| && h[j].scope == h[i].scope ==> h[j].body.Readable?
  }

  /** The tracker lets a record decide exactly the effects on which it speaks last; a healthy one only if
  it knows what was recorded after it. */
  lemma DecidesIffSpeaksLast(w: Window, store: seq<Record>, h: seq<Record>, i: nat, y: ScopedEffect)
    requires IsHistory(w, store, h) && BlanksSettled(w, store)
    requires i < |h| && Selected(w, h[i]) && h[i].body.Readable?
    ensures Decides(w, store, h[i], y)
       <==> SpeaksLast(h, i, y) && (h[i].body.event.healthy ==> ReadableAfter(h, i))
  {
    var r, newer := h[i], NewerRecords(w, store, h[i]);
    var events := ReadableEvents(newer);
    var t := Folded(NewTracker(r.body.event), events);
    TrackerIsLastWriterWins(r.body.event, events);
    assert Allows(t, y.effect) <==> LastWriterWins(r.body.event, events, y.effect);
    if r.scope == y.scope {
      LaterTouchers(w, store, h, i, y);
      LaterUnreadable(w, store, h, i);
    }
  }

  lemma LaterUnreadable(w: Window, store: seq<Record>, h: seq<Record>, i: nat)
    requires IsHistory(w, store, h) && i < |h|
    ensures (exists n :: n in NewerRecords(w, store, h[i]) && Unreadable(n)) <==> !ReadableAfter(h, i)
  {
    if n :| n in NewerRecords(w, store, h[i]) && Unreadable(n) { NewerIsLater(w, store, h, i, n); }
    if j :| i < j < |h| && h[j].scope == h[i].scope && Unreadable(h[j]) { NewerIsLater(w, store, h, i, h[j]); }
  }

  lemma LaterTouchers(w: Window, store: seq<Record>, h: seq<Record>, i: nat, y: ScopedEffect)
    requires IsHistory(w, store, h) && i < |h| && h[i].scope == y.scope
    ensures (exists e :: e in ReadableEvents(NewerRecords(w, store, h[i])) && Touches(e, y.effect))
       <==> exists j :: i < j < |h| && RecordTouches(h[j], y)
  {
    var newer := NewerRecords(w, store, h[i]);
    if e :| e in ReadableEvents(newer) && Touches(e, y.effect) {
      ReadableEventsMember(newer, e);
      var n :| n in newer && n.body == Readable(e);
      NewerIsLater(w, store, h, i, n);
    }
    if j :| i < j < |h| && RecordTouches(h[j], y) {
      NewerIsLater(w, store, h, i, h[j]);
      ReadableEventsMember(newer, h[j].body.event);
    }
  }

  lemma ApplyRecordMember(s: set<ScopedEffect>, r: Record, y: ScopedEffect)
    ensures y in ApplyRecord(s, r) <==> if RecordTouches(r, y) then IsFault(r) else y in s
  {
  }

  /** In the complete history, the last record touching y decides. */
  lemma {:induction false} LastRecordDecides(s: set<ScopedEffect>, h: seq<Record>, y: ScopedEffect)
    ensures forall i :: 0 <= i < |h| && SpeaksLast(h, i, y) ==> (y in Applied(s, h) <==> IsFault(h[i]))
    ensures (forall i :: 0 <= i < |h| ==> !SpeaksLast(h, i, y)) ==> (y in Applied(s, h) <==> y in s)
  {
    if h != [] {
      var front, last := h[..|h| - 1], h[|h| - 1];
      LastRecordDecides(s, front, y);
      ApplyRecordMember(Applied(s, front), last, y);
      if RecordTouches(last, y) {
        assert SpeaksLast(h, |h| - 1, y);
      } else {
        assert forall i :: 0 <= i < |front| ==> (SpeaksLast(h, i, y) <==> SpeaksLast(front, i, y));
      }
    }
  }

  /** Records that were applied before the position was lost keep their word on y when no
  unapplied record speaks after them. */
  lemma {:induction false} AppliedPartAgrees(s: set<ScopedEffect>, w: Window, h: seq<Record>, y: ScopedEffect)
    requires forall i :: 0 <= i < |h| && SpeaksLast(h, i, y) ==> SeenBefore(w, h[i])
    ensures y in Applied(s, Filter(SeenBeforeBy(w), h)) <==> y in Applied(s, h)
  {
    if h != [] {
      var keep := SeenBeforeBy(w);
      var front, last := h[..|h| - 1], h[|h| - 1];
      ApplyRecordMember(Applied(s, front), last, y);
      var rest := Filter(keep, h);
      if keep(last) {
        assert rest[..|rest| - 1] == Filter(keep, front);
        ApplyRecordMember(Applied(s, Filter(keep, front)), last, y);
      }
      if RecordTouches(last, y) {
        assert SpeaksLast(h, |h| - 1, y);
      } else {
        assert forall i :: 0 <= i < |front| ==> (SpeaksLast(h, i, y) <==> SpeaksLast(front, i, y));
        assert forall i :: 0 <= i < |front| ==> front[i] == h[i];
        AppliedPartAgrees(s, w, front, y);
        assert !keep(last) ==> rest == Filter(keep, front);
      }
    }
  }

  /** An attempt that is processed decides exactly what its record decides; any other changes nothing. */
  ghost predicate Effective(w: Window, store: seq<Record>, outcome: Record -> Outcome, r: Record, y: ScopedEffect) {
    outcome(r) == Processed && Decides(w, store, r, y)
  }

  lemma RecoveredMember(s: set<ScopedEffect>, w: Window, store: seq<Record>, outcome: Record -> Outcome,
                        r: Record, y: ScopedEffect)
    requires r.createdAt != 0
    ensures IsFault(r) ==> (y in Recovered(s, w, store, outcome, r) <==> y in s || Effective(w, store, outcome, r, y))
    ensures IsHealthy(r) ==>
      (y in Recovered(s, w, store, outcome, r) <==> y in s && !Effective(w, store, outcome, r, y))
  {
    if r.body.Readable? && IsFault(r) && Decides(w, store, r, y) {
      FoldedAllows(r.body.event, ReadableEvents(NewerRecords(w, store, r)), y.effect);
      FaultTouchesWhatItNames(r.body.event, y.effect);
      assert y == ScopedEffect(y.scope, y.effect);
    }
  }

  lemma {:induction false} FaultPhaseMember(s: set<ScopedEffect>, w: Window, store: seq<Record>,
                         outcome: Record -> Outcome, rs: seq<Record>, y: ScopedEffect)
    requires forall r :: r in rs ==> IsFault(r) && r.createdAt != 0
    ensures y in RecoveredAll(s, w, store, outcome, rs)
       <==> y in s || exists r :: r in rs && Effective(w, store, outcome, r, y)
  {
    if rs != [] {
      var front, last := rs[..|rs| - 1], rs[|rs| - 1];
      assert rs == front + [last];
      FaultPhaseMember(s, w, store, outcome, front, y);
      RecoveredMember(RecoveredAll(s, w, store, outcome, front), w, store, outcome, last, y);
    }
  }

  lemma {:induction false} RecoveryPhaseMember(s: set<ScopedEffect>, w: Window, store: seq<Record>,
                            outcome: Record -> Outcome, rs: seq<Record>, y: ScopedEffect)
    requires forall r :: r in rs ==> IsHealthy(r) && r.createdAt != 0
    ensures y in RecoveredAll(s, w, store, outcome, rs)
       <==> y in s && !exists r :: r in rs && Effective(w, store, outcome, r, y)
  {
    if rs != [] {
      var front, last := rs[..|rs| - 1], rs[|rs| - 1];
      assert rs == front + [last];
      RecoveryPhaseMember(s, w, store, outcome, front, y);
      RecoveredMember(RecoveredAll(s, w, store, outcome, front), w, store, outcome, last, y);
    }
  }

  /** faults and recoveries are selected records of the history, in any order. */
  ghost predicate Lists(w: Window, h: seq<Record>, faults: seq<Record>, recoveries: seq<Record>) {
    && (forall r :: r in faults ==> r in h && Selected(w, r) && IsFault(r))
    && (forall r :: r in recoveries ==> r in h && Selected(w, r) && IsHealthy(r))
  }

  /** No record of rs is the last to speak about y. */
  ghost predicate SpokenElsewhere(h: seq<Record>, rs: seq<Record>, y: ScopedEffect) {
    forall i :: 0 <= i < |h| && SpeaksLast(h, i, y) ==> h[i] !in rs
  }

  /** start agrees with the whole history on every effect about which none of rs speaks last. */
  ghost predicate AgreesElsewhere(base: set<ScopedEffect>, start: set<ScopedEffect>, h: seq<Record>, rs: seq<Record>) {
    forall y :: SpokenElsewhere(h, rs, y) ==> (y in start <==> y in Applied(base, h))
  }

  ghost predicate ReadableScope(h: seq<Record>, y: ScopedEffect) {
    forall r :: r in h && r.scope == y.scope ==> r.body.Readable?
  }

  ghost predicate AllReadable(h: seq<Record>) {
    forall r :: r in h ==> r.body.Readable?
  }

  /** Of listed records, one that decides y is the last to speak about it, so it is the only one. */
  lemma DeciderSpeaksLast(w: Window, store: seq<Record>, h: seq<Record>, r: Record, y: ScopedEffect)
    requires IsHistory(w, store, h) && BlanksSettled(w, store) && r in h && Selected(w, r) && Decides(w, store, r, y)
    ensures exists i :: 0 <= i < |h| && h[i] == r && SpeaksLast(h, i, y)
  {
    var i :| 0 <= i < |h| && h[i] == r;
    DecidesIffSpeaksLast(w, store, h, i, y);
  }

  /** One effect at a time: nothing the complete history leaves in place is lost, and on a
  check whose records are all readable the replay agrees with the history exactly. */
  lemma ReplayMember(base: set<ScopedEffect>, start: set<ScopedEffect>, w: Window, store: seq<Record>, h: seq<Record>,
                     outcome: Record -> Outcome, faults: seq<Record>, recoveries: seq<Record>, y: ScopedEffect)
    requires IsHistory(w, store, h) && BlanksSettled(w, store) && Lists(w, h, faults, recoveries)
    requires forall r :: r in faults + recoveries ==> outcome(r) == Processed
    requires AgreesElsewhere(base, start, h, faults + recoveries)
    ensures var replayed := RecoveredAll(RecoveredAll(start, w, store, outcome, faults), w, store, outcome, recoveries);
      && (y in Applied(base, h) ==> y in replayed)
      && (ReadableScope(h, y) ==> (y in replayed <==> y in Applied(base, h)))
  {
    var middle := RecoveredAll(start, w, store, outcome, faults);
    FaultPhaseMember(start, w, store, outcome, faults, y);
    RecoveryPhaseMember(middle, w, store, outcome, recoveries, y);
    LastRecordDecides(base, h, y);
    forall r | r in faults + recoveries && Decides(w, store, r, y)
      ensures exists i :: 0 <= i < |h| && h[i] == r && SpeaksLast(h, i, y)
    {
      DeciderSpeaksLast(w, store, h, r, y);
    }
    if SpokenElsewhere(h, faults + recoveries, y) {
      assert forall r :: r in faults + recoveries ==> !Decides(w, store, r, y);
    } else {
      var i :| 0 <= i < |h| && SpeaksLast(h, i, y) && h[i] in faults + recoveries;
      DecidesIffSpeaksLast(w, store, h, i, y);
      assert forall j :: 0 <= j < |h| && SpeaksLast(h, j, y) ==> j == i;
      assert forall r :: r in faults + recoveries && Decides(w, store, r, y) ==> r == h[i];
    }
  }

  /** The convergence theorem. Let `start` agree with the complete history, applied in order to
  `base`, on every effect about which none of the replayed records speaks last. For a readable
  history the replay, each phase in any order, ends in the effect set of the complete history; with
  unreadable records it still loses no effect the complete history has; and after the fault phase no
  intermediate state lacks an effect of the final one. */
  lemma ReplayConverges(base: set<ScopedEffect>, start: set<ScopedEffect>, w: Window, store: seq<Record>,
                        h: seq<Record>, outcome: Record -> Outcome, faults: seq<Record>, recoveries: seq<Record>)
    requires IsHistory(w, store, h) && BlanksSettled(w, store) && Lists(w, h, faults, recoveries)
    requires forall r :: r in faults + recoveries ==> outcome(r) == Processed
    requires AgreesElsewhere(base, start, h, faults + recoveries)
    ensures var middle := RecoveredAll(start, w, store, outcome, faults);
      var replayed := RecoveredAll(middle, w, store, outcome, recoveries);
      && Applied(base, h) <= replayed
      && (AllReadable(h) ==> replayed == Applied(base, h))
      && (forall k :: 0 <= k <= |recoveries| ==>
            replayed <= RecoveredAll(middle, w, store, outcome, recoveries[..k]))
  {
    var middle := RecoveredAll(start, w, store, outcome, faults);
    var replayed := RecoveredAll(middle, w, store, outcome, recoveries);
    forall y
      ensures y in Applied(base, h) ==> y in replayed
      ensures AllReadable(h) ==> (y in replayed <==> y in Applied(base, h))
    {
      ReplayMember(base, start, w, store, h, outcome, faults, recoveries, y);
    }
    forall k, y | 0 <= k <= |recoveries| && y in replayed
      ensures y in RecoveredAll(middle, w, store, outcome, recoveries[..k])
    {
      RecoveryPhaseMember(middle, w, store, outcome, recoveries, y);
      RecoveryPhaseMember(middle, w, store, outcome, recoveries[..k], y);
    }
  }

  /** The state that has seen exactly the records up to the lower bound and those no longer pending is
  such a start. */
  lemma AppliedStartAgrees(base: set<ScopedEffect>, w: Window, store: seq<Record>, h: seq<Record>)
    requires IsHistory(w, store, h)
    ensures AgreesElsewhere(base, Applied(base, Filter(SeenBeforeBy(w), h)), h,
                            PhaseRecords(w, store, false) + PhaseRecords(w, store, true))
  {
    var rs := PhaseRecords(w, store, false) + PhaseRecords(w, store, true);
    forall r | r in h && !SeenBefore(w, r) ensures r in rs { HandleLists(w, store, h, r); }
    forall y | SpokenElsewhere(h, rs, y)
      ensures y in Applied(base, Filter(SeenBeforeBy(w), h)) <==> y in Applied(base, h)
    {
      AppliedPartAgrees(base, w, h, y);
    }
  }

  /** The two scans of `Handle` list exactly the unseen faults and recoveries of the history. */
  lemma HandleLists(w: Window, store: seq<Record>, h: seq<Record>, r: Record)
    requires IsHistory(w, store, h)
    ensures r in PhaseRecords(w, store, false) <==> r in h && !SeenBefore(w, r) && IsFault(r)
    ensures r in PhaseRecords(w, store, true) <==> r in h && !SeenBefore(w, r) && IsHealthy(r)
  {
    PhaseMember(w, store, false, r);
    PhaseMember(w, store, true, r);
  }

  lemma PhasesAreLists(w: Window, store: seq<Record>, h: seq<Record>)
    requires IsHistory(w, store, h)
    ensures Lists(w, h, PhaseRecords(w, store, false), PhaseRecords(w, store, true))
  {
    forall r ensures
        && (r in PhaseRecords(w, store, false) <==> r in h && Selected(w, r) && IsFault(r))
        && (r in PhaseRecords(w, store, true) <==> r in h && Selected(w, r) && IsHealthy(r))
    {
      PhaseMember(w, store, false, r);
      PhaseMember(w, store, true, r);
    }
  }

  /** What a successful `Handle` leaves behind, for a readable history whose pending part the
  processor accepts: the effect set of the whole history. p is the progress it starts from. */
  lemma HandleReachesHistory(base: set<ScopedEffect>, p: Progress, w: Window, store: seq<Record>, h: seq<Record>,
                             outcome: Record -> Outcome)
    requires IsHistory(w, store, h) && BlanksSettled(w, store) && AllReadable(h)
    requires AgreesElsewhere(base, p.effects, h, PhaseRecords(w, store, false) + PhaseRecords(w, store, true))
    requires forall r :: r in store && Selected(w, r) ==> outcome(r) == Processed
    ensures var faults, recoveries := PhaseRecords(w, store, false), PhaseRecords(w, store, true);
      After(After(p, w, store, outcome, faults), w, store, outcome, recoveries).effects == Applied(base, h)
  {
    PhasesAreLists(w, store, h);
    ReplayConverges(base, p.effects, w, store, h, outcome, PhaseRecords(w, store, false), PhaseRecords(w, store, true));
  }

  // Starting over.

  /** The records with the done ones no longer pending: processed, or stored as superseded. */
  function Settled(rs: seq<Record>, done: set<Record>): (settled: seq<Record>)
    ensures |settled| == |rs|
  {
    seq(|rs|, i requires 0 <= i < |rs| => if rs[i] in done then rs[i].(pending := false) else rs[i])
  }

  /** Whatever part of a replay was carried out, and whichever of its processed and superseded records
  are done with, the state reached agrees with the history on every effect about which none of the
  remaining records speaks last. */
  lemma PartAgrees(base: set<ScopedEffect>, start: set<ScopedEffect>, w: Window, store: seq<Record>, h: seq<Record>,
                   outcome: Record -> Outcome, faults: seq<Record>, recoveries: seq<Record>,
                   all: seq<Record>, done: set<Record>, rest: seq<Record>)
    requires IsHistory(w, store, h) && BlanksSettled(w, store) && AllReadable(h) && Lists(w, h, faults, recoveries)
    requires AgreesElsewhere(base, start, h, all) && forall r :: r in faults + recoveries ==> r in all
    requires forall r :: r in done ==>
               r in faults + recoveries && (outcome(r) == Processed || Resolved(w, store, r).Superseded?)
    requires forall r :: r in all ==> r in done || r in rest
    ensures var middle := RecoveredAll(start, w, store, outcome, faults);
      AgreesElsewhere(base, RecoveredAll(middle, w, store, outcome, recoveries), h, rest)
  {
    var middle := RecoveredAll(start, w, store, outcome, faults);
    forall y | SpokenElsewhere(h, rest, y)
      ensures y in RecoveredAll(middle, w, store, outcome, recoveries) <==> y in Applied(base, h)
    {
      FaultPhaseMember(start, w, store, outcome, faults, y);
      RecoveryPhaseMember(middle, w, store, outcome, recoveries, y);
      LastRecordDecides(base, h, y);
      forall r | r in faults + recoveries && Decides(w, store, r, y)
        ensures exists i :: 0 <= i < |h| && h[i] == r && SpeaksLast(h, i, y)
      {
        DeciderSpeaksLast(w, store, h, r, y);
      }
      if SpokenElsewhere(h, all, y) {
        assert forall r :: r in faults + recoveries ==> !Decides(w, store, r, y);
      } else {
        var i :| 0 <= i < |h| && SpeaksLast(h, i, y) && h[i] in all;
        DecidesIffSpeaksLast(w, store, h, i, y);
        assert h[i] in done && Effective(w, store, outcome, h[i], y);
        assert forall j :: 0 <= j < |h| && SpeaksLast(h, j, y) ==> j == i;
        assert forall r :: r in faults + recoveries && Decides(w, store, r, y) ==> r == h[i];
      }
    }
  }

  /** What a call of `Handle` did, whatever it answered: it replayed a first part of the faults and, only
  after all of them, a first part of the recoveries; what it handed over and what it stored as
  decided is among those, and decided there. */
  lemma HandledEffects(p: Progress, q: Progress, w: Window, store: seq<Record>, outcome: Record -> Outcome)
    returns (faults: seq<Record>, recoveries: seq<Record>)
    requires HandledPart(p, q, w, store, outcome)
    ensures faults <= PhaseRecords(w, store, false) && recoveries <= PhaseRecords(w, store, true)
    ensures recoveries != [] ==> faults == PhaseRecords(w, store, false)
    ensures q.effects == RecoveredAll(RecoveredAll(p.effects, w, store, outcome, faults), w, store, outcome, recoveries)
    ensures Adds(p.handed, q.handed, faults + recoveries, Handing(w, store, outcome))
    ensures Adds(p.completed, q.completed, faults + recoveries, Completing(w, store, outcome))
  {
    faults, recoveries := PhaseRecords(w, store, false), PhaseRecords(w, store, true);
    if Partly(p, q, w, store, outcome, faults) {
      var d: nat, k: nat :| UpTo(p, q, w, store, outcome, faults, d, k);
      FilterAdds(p.handed, Handing(w, store, outcome), faults, k, k);
      FilterAdds(p.completed, Completing(w, store, outcome), faults, d, k);
      faults, recoveries := faults[..k], [];
      assert faults + recoveries == faults;
    } else {
      var mid := After(p, w, store, outcome, faults);
      var d: nat, k: nat :| UpTo(mid, q, w, store, outcome, recoveries, d, k);
      assert faults[..|faults|] == faults;
      FilterAdds(p.handed, Handing(w, store, outcome), faults, |faults|, |faults|);
      FilterAdds(p.completed, Completing(w, store, outcome), faults, |faults|, |faults|);
      FilterAdds(mid.handed, Handing(w, store, outcome), recoveries, k, k);
      FilterAdds(mid.completed, Completing(w, store, outcome), recoveries, d, k);
      AddsThen(p.handed, mid.handed, q.handed, faults, recoveries[..k], Handing(w, store, outcome));
      AddsThen(p.completed, mid.completed, q.completed, faults, recoveries[..k], Completing(w, store, outcome));
      recoveries := recoveries[..k];
    }
  }

  /** b continues a with records of rs that satisfy f. */
  ghost predicate Adds(a: seq<Record>, b: seq<Record>, rs: seq<Record>, f: Record -> bool) {
    a <= b && forall r :: r in b[|a|..] ==> r in rs && f(r)
  }

  lemma FilterAdds(a: seq<Record>, f: Record -> bool, rs: seq<Record>, d: nat, k: nat)
    requires d <= k <= |rs|
    ensures Adds(a, a + Filter(f, rs[..d]), rs[..k], f)
  {
    forall r | r in Filter(f, rs[..d]) ensures r in rs[..k] && f(r) {
      FilterMember(f, rs[..d], r);
      var i :| 0 <= i < d && rs[i] == r;
      assert rs[..k][i] == r;
    }
  }

  lemma AddsThen(a: seq<Record>, b: seq<Record>, c: seq<Record>, rs: seq<Record>, more: seq<Record>, f: Record -> bool)
    requires Adds(a, b, rs, f) && Adds(b, c, more, f)
    ensures Adds(a, c, rs + more, f)
  {
    assert c[|a|..] == b[|a|..] + c[|b|..];
  }

  /** The records that are done with after a call of Handle from p to q: those it stored as decided, and
  of those it handed over and that were processed, the ones whose status was written. */
  function DoneWith(p: Progress, q: Progress, outcome: Record -> Outcome, written: Record -> bool): set<Record>
    requires p.completed <= q.completed && p.handed <= q.handed
  {
    Elems(q.completed[|p.completed|..])
    + set r | r in q.handed[|p.handed|..] && outcome(r) == Processed && written(r)
  }

  /** A second `Handle` after any first one reaches the history. The first went from p to q, with any
  outcomes but declines, and may have failed or been cut short anywhere; what it is done with is no
  longer pending; the processor now accepts what is left. */
  lemma SecondHandleReachesHistory(base: set<ScopedEffect>, p: Progress, q: Progress, w: Window, store: seq<Record>,
                                   h: seq<Record>, outcome: Record -> Outcome, written: Record -> bool,
                                   p': Progress, again: Record -> Outcome)
    requires IsHistory(w, store, h) && BlanksSettled(w, store) && AllReadable(h)
    requires AgreesElsewhere(base, p.effects, h, PhaseRecords(w, store, false) + PhaseRecords(w, store, true))
    requires HandledPart(p, q, w, store, outcome) && p.completed <= q.completed && p.handed <= q.handed
    requires forall r :: r in store && Selected(w, r) ==> outcome(r) != Skipped && outcome(r) != Invalid
    requires p'.effects == q.effects
    requires forall r :: r in Settled(store, DoneWith(p, q, outcome, written)) && Selected(w, r) ==>
               again(r) == Processed
    ensures var store' := Settled(store, DoneWith(p, q, outcome, written));
      var faults', recoveries' := PhaseRecords(w, store', false), PhaseRecords(w, store', true);
      After(After(p', w, store', again, faults'), w, store', again, recoveries').effects == Applied(base, h)
  {
    var done := DoneWith(p, q, outcome, written);
    var faults, recoveries := HandledEffects(p, q, w, store, outcome);
    DoneIsSettled(p, q, w, store, h, outcome, written, faults, recoveries);
    FirstHandleAgrees(base, p.effects, w, store, h, outcome, faults, recoveries, done);
    SettledHistory(w, store, h, done);
    SettledBlanks(w, store, done);
    SettledApplied(base, h, done);
    HandleReachesHistory(base, p', w, Settled(store, done), Settled(h, done), again);
  }

  lemma DoneIsSettled(p: Progress, q: Progress, w: Window, store: seq<Record>, h: seq<Record>,
                      outcome: Record -> Outcome, written: Record -> bool,
                      faults: seq<Record>, recoveries: seq<Record>)
    requires IsHistory(w, store, h) && AllReadable(h)
    requires faults <= PhaseRecords(w, store, false) && recoveries <= PhaseRecords(w, store, true)
    requires Adds(p.handed, q.handed, faults + recoveries, Handing(w, store, outcome))
    requires Adds(p.completed, q.completed, faults + recoveries, Completing(w, store, outcome))
    requires forall r :: r in store && Selected(w, r) ==> outcome(r) != Skipped && outcome(r) != Invalid
    ensures forall r :: r in DoneWith(p, q, outcome, written) ==>
              r in faults + recoveries && (outcome(r) == Processed || Resolved(w, store, r).Superseded?)
  {
    forall r | r in Elems(q.completed[|p.completed|..])
      ensures r in faults + recoveries && Resolved(w, store, r).Superseded?
    {
      assert Completing(w, store, outcome)(r);
      assert r in PhaseRecords(w, store, false) || r in PhaseRecords(w, store, true);
      HandleLists(w, store, h, r);
      SelectedIffUnseen(w, store, h, r);
    }
  }

  function Outside(done: set<Record>): Record -> bool { r => r !in done }

  lemma FirstHandleAgrees(base: set<ScopedEffect>, start: set<ScopedEffect>, w: Window, store: seq<Record>,
                          h: seq<Record>, outcome: Record -> Outcome, faults: seq<Record>, recoveries: seq<Record>,
                          done: set<Record>)
    requires IsHistory(w, store, h) && BlanksSettled(w, store) && AllReadable(h)
    requires AgreesElsewhere(base, start, h, PhaseRecords(w, store, false) + PhaseRecords(w, store, true))
    requires faults <= PhaseRecords(w, store, false) && recoveries <= PhaseRecords(w, store, true)
    requires forall r :: r in done ==>
               r in faults + recoveries && (outcome(r) == Processed || Resolved(w, store, r).Superseded?)
    ensures var s := RecoveredAll(RecoveredAll(start, w, store, outcome, faults), w, store, outcome, recoveries);
      var store' := Settled(store, done);
      AgreesElsewhere(base, s, Settled(h, done), PhaseRecords(w, store', false) + PhaseRecords(w, store', true))
  {
    var all := PhaseRecords(w, store, false) + PhaseRecords(w, store, true);
    var rest := Filter(Outside(done), all);
    PhasesAreLists(w, store, h);
    forall r ensures r in rest <==> r in all && r !in done { FilterMember(Outside(done), all, r); }
    assert forall r :: r in faults ==> r in PhaseRecords(w, store, false);
    assert forall r :: r in recoveries ==> r in PhaseRecords(w, store, true);
    PartAgrees(base, start, w, store, h, outcome, faults, recoveries, all, done, rest);
    var middle := RecoveredAll(start, w, store, outcome, faults);
    AgreesAfterSettling(base, RecoveredAll(middle, w, store, outcome, recoveries), w, store, h, done, rest);
  }

  lemma SettledMember(rs: seq<Record>, done: set<Record>, r: Record)
    ensures r in Settled(rs, done)
       <==> exists q :: q in rs && r == if q in done then q.(pending := false) else q
  {
    if q :| q in rs && r == if q in done then q.(pending := false) else q {
      var i :| 0 <= i < |rs| && rs[i] == q;
      assert Settled(rs, done)[i] == r;
    }
  }

  lemma SettledHistory(w: Window, store: seq<Record>, h: seq<Record>, done: set<Record>)
    requires IsHistory(w, store, h) && AllReadable(h)
    ensures IsHistory(w, Settled(store, done), Settled(h, done)) && AllReadable(Settled(h, done))
  {
    forall r ensures r in Settled(h, done) <==> r in Settled(store, done) && Visible(w, r) {
      SettledMember(h, done, r);
      SettledMember(store, done, r);
    }
    forall r | r in Settled(h, done) ensures r.createdAt != 0 && r.body.Readable? { SettledMember(h, done, r); }
  }

  lemma SettledBlanks(w: Window, store: seq<Record>, done: set<Record>)
    requires BlanksSettled(w, store)
    ensures BlanksSettled(w, Settled(store, done))
  {
    var store' := Settled(store, done);
    forall r | r in store' && Selected(w, r) && r.body.Readable?
      ensures BlankConflictsSettled(r.body.event, ReadableEvents(NewerRecords(w, store', r)))
    {
      SettledMember(store, done, r);
      assert r in store;
      forall e
        ensures e in ReadableEvents(NewerRecords(w, store', r)) <==> e in ReadableEvents(NewerRecords(w, store, r))
      {
        SettledNewer(w, store, done, r, e);
      }
    }
  }

  lemma SettledNewer(w: Window, store: seq<Record>, done: set<Record>, r: Record, e: HealthEvent)
    ensures e in ReadableEvents(NewerRecords(w, Settled(store, done), r))
       <==> e in ReadableEvents(NewerRecords(w, store, r))
  {
    var store' := Settled(store, done);
    ReadableEventsMember(NewerRecords(w, store, r), e);
    ReadableEventsMember(NewerRecords(w, store', r), e);
    if n :| n in NewerRecords(w, store, r) && n.body == Readable(e) {
      var n' := if n in done then n.(pending := false) else n;
      FilterMember(NewerThan(w, r), store, n);
      SettledMember(store, done, n');
      FilterMember(NewerThan(w, r), store', n');
    }
    if n' :| n' in NewerRecords(w, store', r) && n'.body == Readable(e) {
      FilterMember(NewerThan(w, r), store', n');
      SettledMember(store, done, n');
      var n :| n in store && n' == if n in done then n.(pending := false) else n;
      FilterMember(NewerThan(w, r), store, n);
    }
  }

  lemma {:induction false} SettledApplied(s: set<ScopedEffect>, h: seq<Record>, done: set<Record>)
    ensures Applied(s, Settled(h, done)) == Applied(s, h)
  {
    if h != [] {
      assert Settled(h, done)[..|h| - 1] == Settled(h[..|h| - 1], done);
      SettledApplied(s, h[..|h| - 1], done);
    }
  }

  lemma AgreesAfterSettling(base: set<ScopedEffect>, s: set<ScopedEffect>, w: Window, store: seq<Record>,
                            h: seq<Record>, done: set<Record>, rest: seq<Record>)
    requires IsHistory(w, store, h) && AllReadable(h) && AgreesElsewhere(base, s, h, rest)
    requires forall r :: r in rest ==> r in h && Selected(w, r) && r !in done
    ensures var store' := Settled(store, done);
      AgreesElsewhere(base, s, Settled(h, done), PhaseRecords(w, store', false) + PhaseRecords(w, store', true))
  {
    var store', h' := Settled(store, done), Settled(h, done);
    SettledHistory(w, store, h, done);
    SettledApplied(base, h, done);
    var all' := PhaseRecords(w, store', false) + PhaseRecords(w, store', true);
    forall y | SpokenElsewhere(h', all', y) ensures y in s <==> y in Applied(base, h') {
      forall i | 0 <= i < |h| && SpeaksLast(h, i, y) ensures h[i] !in rest {
        assert forall j :: 0 <= j < |h| ==> (RecordTouches(h'[j], y) <==> RecordTouches(h[j], y));
        assert SpeaksLast(h', i, y);
        HandleLists(w, store', h', h'[i]);
      }
    }
  }

  /** Histories without blank entities meet the blank-entity condition. */
  lemma NamedEntitiesSettleAll(w: Window, store: seq<Record>)
    requires forall r :: r in store && r.body.Readable? ==> NoBlankEntity(r.body.event)
    ensures BlanksSettled(w, store)
  {
    forall r | r in store && Selected(w, r) && r.body.Readable?
      ensures BlankConflictsSettled(r.body.event, ReadableEvents(NewerRecords(w, store, r)))
    {
      var newer := NewerRecords(w, store, r);
      forall e | e in ReadableEvents(newer) ensures NoBlankEntity(e) {
        ReadableEventsMember(newer, e);
        var n :| n in newer && n.body == Readable(e);
        FilterMember(NewerThan(w, r), store, n);
      }
      NamedEntitiesSettle(r.body.event, ReadableEvents(newer));
    }
  }

  lemma PhaseMember(w: Window, store: seq<Record>, healthy: bool, r: Record)
    ensures r in PhaseRecords(w, store, healthy) <==> r in store && Selected(w, r) && IsHealthy(r) == healthy
  {
    FilterMember(SelectedBy(w), store, r);
    FilterMember(OfKind(healthy), Filter(SelectedBy(w), store), r);
  }
}
