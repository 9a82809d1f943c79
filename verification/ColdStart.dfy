/** Cold-start recovery: which stored events are replayed, restricted to which effects, and
in which order; and what the node's effect set is afterwards. */
module ColdStart {
  import opened Orders
  import opened HealthEvents
  import opened Coverage

  /** The fields that make two events speak about the same check on the same node. */
  datatype Identity = Identity(agent: string, componentClass: string, checkName: string,
                               nodeName: string, version: nat)

  /** What parsing the stored document gave: an error, a document without an event, an event. */
  datatype Body = Malformed | Absent | Readable(event: HealthEvent)

  /** A stored record. `pending` is the unresolved-and-not-completed part of the recovery
  query, `processable` the processing-strategy part. Time 0 is the zero time. */
  datatype Record = Record(scope: Identity, createdAt: int, id: string, body: Body,
                           processable: bool, pending: bool)

  /** Bounds on createdAt: exclusive below, inclusive above; 0 leaves a side open. */
  datatype Window = Window(after: int, until: int)

  datatype ScopedEffect = ScopedEffect(scope: Identity, effect: Effect)

  /** How an attempt on an event goes: the context is found cancelled before anything is done, or is
  cancelled while the processor works on the event, or the processor answers. */
  datatype Outcome = Processed | Skipped | Invalid | Failed | Cancelled | Interrupted

  predicate IsHealthy(r: Record) {
    r.body.Readable? && r.body.event.healthy
  }

  predicate IsFault(r: Record) {
    !IsHealthy(r)
  }

  predicate Unreadable(r: Record) {
    !r.body.Readable?
  }

  predicate EventAfter(n: Record, createdAt: int, id: string) {
    if n.createdAt == createdAt then StringLess(id, n.id) else n.createdAt > createdAt
  }

  predicate Visible(w: Window, r: Record) {
    r.processable && (w.until == 0 || r.createdAt <= w.until)
  }

  /** coldStartQuery. */
  predicate Selected(w: Window, r: Record) {
    Visible(w, r) && r.pending && (w.after == 0 || r.createdAt > w.after)
  }

  predicate IsNewer(w: Window, r: Record, n: Record) {
    && n.scope == r.scope
    && n.createdAt >= r.createdAt
    && Visible(w, n)
    && EventAfter(n, r.createdAt, r.id)
  }

  function NewerThan(w: Window, r: Record): Record -> bool { n => IsNewer(w, r, n) }

  function SelectedBy(w: Window): Record -> bool { r => Selected(w, r) }

  function OfKind(healthy: bool): Record -> bool { r => IsHealthy(r) == healthy }

  function NewerRecords(w: Window, store: seq<Record>, r: Record): seq<Record> {
    Filter(NewerThan(w, r), store)
  }

  function ReadableEvents(rs: seq<Record>): seq<HealthEvent> {
    if rs == [] then []
    else ReadableEvents(rs[..|rs| - 1])
         + (if rs[|rs| - 1].body.Readable? then [rs[|rs| - 1].body.event] else [])
  }

  /** `resolve`'s three answers: (false, nil), (true, _) and (false, coverage). */
  datatype Resolution = Unrestricted | Superseded | Restricted(tracker: Tracker)

  /** What resolving means, with no reference to the order of the scan. */
  function Resolved(w: Window, store: seq<Record>, r: Record): Resolution {
    if r.createdAt == 0 || !r.body.Readable? then Unrestricted
    else
      var newer := NewerRecords(w, store, r);
      var tracker := Folded(NewTracker(r.body.event), ReadableEvents(newer));
      if r.body.event.healthy && (exists n :: n in newer && Unreadable(n)) then Superseded
      else if tracker.remaining == {} then Superseded
      else Restricted(tracker)
  }

  lemma NamedEffectsNonEmpty(e: HealthEvent)
    ensures NamedEffects(e) != {}
  {
    assert Effect(NormalizedEntities(e.entities)[0], NormalizedCodes(e.codes)[0]) in NamedEffects(e);
  }

  /** The tracker after the first k records of the store. */
  ghost function TrackerAt(w: Window, store: seq<Record>, r: Record, k: nat): Tracker
    requires k <= |store| && r.body.Readable?
  {
    Folded(NewTracker(r.body.event), ReadableEvents(NewerRecords(w, store[..k], r)))
  }

  ghost predicate ReadableUpTo(w: Window, store: seq<Record>, r: Record, k: nat)
    requires k <= |store|
  {
    forall i :: 0 <= i < k && IsNewer(w, r, store[i]) ==> !Unreadable(store[i])
  }

  /** One record of the scan. */
  function Scanned(w: Window, r: Record, t: Tracker, n: Record): Tracker {
    if IsNewer(w, r, n) && n.body.Readable? then Added(t, n.body.event) else t
  }

  /** The trackers the scan goes through, and what each of them settles. */
  lemma Trail(w: Window, store: seq<Record>, r: Record) returns (ts: seq<Tracker>)
    requires r.body.Readable? && r.createdAt != 0
    ensures |ts| == |store| + 1 && ts[0] == NewTracker(r.body.event)
    ensures forall i :: 0 <= i < |store| ==> ts[i + 1] == Scanned(w, r, ts[i], store[i])
    ensures forall i :: 0 <= i <= |store| && ts[i].remaining == {} ==> Resolved(w, store, r) == Superseded
    ensures ts[|store|].remaining != {} && (IsHealthy(r) ==> ReadableUpTo(w, store, r, |store|)) ==>
              Resolved(w, store, r) == Restricted(ts[|store|])
  {
    ts := seq(|store| + 1, k requires 0 <= k <= |store| => TrackerAt(w, store, r, k));
    forall i | 0 <= i < |store| ensures ts[i + 1] == Scanned(w, r, ts[i], store[i]) {
      TrackerStep(w, store, r, i);
    }
    forall i | 0 <= i <= |store| && ts[i].remaining == {} ensures Resolved(w, store, r) == Superseded {
      EmptySupersedes(w, store, r, i);
    }
    if ts[|store|].remaining != {} && (IsHealthy(r) ==> ReadableUpTo(w, store, r, |store|)) {
      ScanEnd(w, store, r);
    }
  }

  /** The scan of `resolve`: it stops at the first unreadable newer record of a healthy
  candidate and as soon as nothing remains, and still answers what `Resolved` says. */
  method Resolve(w: Window, store: seq<Record>, r: Record) returns (answer: Resolution)
    ensures answer == Resolved(w, store, r)
  {
    if r.createdAt == 0 || !r.body.Readable? {
      return Unrestricted;
    }
    ghost var ts := Trail(w, store, r);
    var coverage := new EventCoverage(r.body.event);
    NamedEffectsNonEmpty(r.body.event);
    var i := 0;
    while i < |store|
      invariant 0 <= i <= |store|
      invariant coverage.View() == ts[i] && coverage.remaining != {}
      invariant IsHealthy(r) ==> ReadableUpTo(w, store, r, i)
    {
      if IsNewer(w, r, store[i]) {
        if !store[i].body.Readable? {
          if r.body.event.healthy {
            UnreadableSupersedes(w, store, r, i);
            return Superseded;
          }
        } else {
          var resolved := coverage.Add(store[i].body.event);
          if resolved {
            assert ts[i + 1].remaining == {};
            return Superseded;
          }
        }
      }
      i := i + 1;
    }
    return Restricted(coverage.View());
  }

  lemma TrackerStep(w: Window, store: seq<Record>, r: Record, i: nat)
    requires i < |store| && r.body.Readable?
    ensures TrackerAt(w, store, r, i + 1)
         == if IsNewer(w, r, store[i]) && store[i].body.Readable?
            then Added(TrackerAt(w, store, r, i), store[i].body.event) else TrackerAt(w, store, r, i)
  {
    NewerStep(w, store, i, r);
    var before := ReadableEvents(NewerRecords(w, store[..i], r));
    if IsNewer(w, r, store[i]) && store[i].body.Readable? {
      var e := store[i].body.event;
      assert (before + [e])[..|before + [e]| - 1] == before;
    }
  }

  lemma UnreadableSupersedes(w: Window, store: seq<Record>, r: Record, i: nat)
    requires i < |store| && IsHealthy(r) && r.createdAt != 0 && IsNewer(w, r, store[i]) && Unreadable(store[i])
    ensures Resolved(w, store, r) == Superseded
  {
    FilterMember(NewerThan(w, r), store, store[i]);
  }

  lemma EmptySupersedes(w: Window, store: seq<Record>, r: Record, k: nat)
    requires k <= |store| && r.body.Readable? && r.createdAt != 0 && TrackerAt(w, store, r, k).remaining == {}
    ensures Resolved(w, store, r) == Superseded
  {
    NewerPrefix(w, store, k, r);
    RemainingOnlyShrinks(NewTracker(r.body.event), ReadableEvents(NewerRecords(w, store[..k], r)),
                         ReadableEvents(NewerRecords(w, store, r)));
  }

  lemma ScanEnd(w: Window, store: seq<Record>, r: Record)
    requires r.body.Readable? && r.createdAt != 0 && TrackerAt(w, store, r, |store|).remaining != {}
    requires IsHealthy(r) ==> ReadableUpTo(w, store, r, |store|)
    ensures Resolved(w, store, r) == Restricted(TrackerAt(w, store, r, |store|))
  {
    assert store[..|store|] == store;
    forall n | n in NewerRecords(w, store, r) ensures IsHealthy(r) ==> !Unreadable(n) {
      FilterMember(NewerThan(w, r), store, n);
    }
  }

  lemma NewerStep(w: Window, store: seq<Record>, i: nat, r: Record)
    requires i < |store|
    ensures var before, after := NewerRecords(w, store[..i], r), NewerRecords(w, store[..i + 1], r);
      && after == (if IsNewer(w, r, store[i]) then before + [store[i]] else before)
      && ReadableEvents(after)
      == (if IsNewer(w, r, store[i]) && store[i].body.Readable?
          then ReadableEvents(before) + [store[i].body.event] else ReadableEvents(before))
  {
    assert store[..i + 1][..i] == store[..i];
    var before, after := NewerRecords(w, store[..i], r), NewerRecords(w, store[..i + 1], r);
    assert after == before || after[..|after| - 1] == before;
  }

  lemma {:induction false} NewerPrefix(w: Window, store: seq<Record>, k: nat, r: Record)
    requires k <= |store|
    ensures NewerRecords(w, store[..k], r) <= NewerRecords(w, store, r)
    ensures ReadableEvents(NewerRecords(w, store[..k], r)) <= ReadableEvents(NewerRecords(w, store, r))
  {
    if k == |store| {
      assert store[..k] == store;
    } else {
      var front := store[..|store| - 1];
      assert front[..k] == store[..k];
      NewerPrefix(w, front, k, r);
      var all, before := NewerRecords(w, store, r), NewerRecords(w, front, r);
      assert all == before || all[..|all| - 1] == before;
    }
  }

  lemma {:induction false} RemainingOnlyShrinks(t: Tracker, ns: seq<HealthEvent>, more: seq<HealthEvent>)
    requires ns <= more
    ensures Folded(t, more).remaining <= Folded(t, ns).remaining
  {
    if ns == more {
    } else {
      assert more[..|more| - 1][..|ns|] == ns;
      RemainingOnlyShrinks(t, ns, more[..|more| - 1]);
    }
  }

  /** Applying an event in full: a fault adds what it names, a healthy event removes what it
  touches. This is also what an unrestricted replay does. */
  function ApplyRecord(s: set<ScopedEffect>, r: Record): set<ScopedEffect> {
    if !r.body.Readable? then s
    else if r.body.event.healthy then
      set y | y in s && !(y.scope == r.scope && Touches(r.body.event, y.effect))
    else s + set x | x in NamedEffects(r.body.event) :: ScopedEffect(r.scope, x)
  }

  /** Replaying an event under its coverage changes the allowed effects only. */
  function ApplyAllowed(s: set<ScopedEffect>, r: Record, t: Tracker): set<ScopedEffect>
    requires r.body.Readable?
  {
    if r.body.event.healthy then
      set y | y in s && !(y.scope == r.scope && Allows(t, y.effect))
    else s + set x | x in NamedEffects(r.body.event) && Allows(t, x) :: ScopedEffect(r.scope, x)
  }

  function Applied(s: set<ScopedEffect>, rs: seq<Record>): set<ScopedEffect> {
    if rs == [] then s else ApplyRecord(Applied(s, rs[..|rs| - 1]), rs[|rs| - 1])
  }

  function Recovered(s: set<ScopedEffect>, w: Window, store: seq<Record>,
                     outcome: Record -> Outcome, r: Record): set<ScopedEffect>
  {
    if outcome(r) != Processed then s
    else match Resolved(w, store, r)
      case Unrestricted => ApplyRecord(s, r)
      case Superseded => s
      case Restricted(t) => ApplyAllowed(s, r, t)
  }

  function RecoveredAll(s: set<ScopedEffect>, w: Window, store: seq<Record>,
                        outcome: Record -> Outcome, rs: seq<Record>): set<ScopedEffect>
  {
    if rs == [] then s
    else Recovered(RecoveredAll(s, w, store, outcome, rs[..|rs| - 1]), w, store, outcome, rs[|rs| - 1])
  }

  /** The processor is handed r. */
  predicate Hands(w: Window, store: seq<Record>, outcome: Record -> Outcome, r: Record) {
    outcome(r) != Cancelled && r.body != Malformed && !Resolved(w, store, r).Superseded?
  }

  /** The attempt on r reports that the context was cancelled, which ends the replay. */
  predicate Stops(w: Window, store: seq<Record>, outcome: Record -> Outcome, r: Record) {
    outcome(r) == Cancelled || (Hands(w, store, outcome, r) && outcome(r) == Interrupted)
  }

  /** The attempt on r reports another error, which is counted. */
  predicate Fails(w: Window, store: seq<Record>, outcome: Record -> Outcome, r: Record) {
    Hands(w, store, outcome, r) && outcome(r) == Failed
  }

  /** The attempt on r reports an error instead of a result. */
  predicate Breaks(w: Window, store: seq<Record>, outcome: Record -> Outcome, r: Record) {
    Stops(w, store, outcome, r) || Fails(w, store, outcome, r)
  }

  /** The attempt ends in a terminal decision that is to be stored with r: invalid, superseded or
  skipped. */
  predicate Completes(w: Window, store: seq<Record>, outcome: Record -> Outcome, r: Record) {
    && outcome(r) != Cancelled
    && (r.body == Malformed || Resolved(w, store, r).Superseded? || outcome(r) == Skipped || outcome(r) == Invalid)
  }

  function Failing(w: Window, store: seq<Record>, outcome: Record -> Outcome): Record -> bool {
    r => Fails(w, store, outcome, r)
  }

  function Handing(w: Window, store: seq<Record>, outcome: Record -> Outcome): Record -> bool {
    r => Hands(w, store, outcome, r)
  }

  function Completing(w: Window, store: seq<Record>, outcome: Record -> Outcome): Record -> bool {
    r => Completes(w, store, outcome, r)
  }

  /** The node state, the number of failed attempts, what the processor was handed and what was
  stored as terminally decided. */
  datatype Progress = Progress(effects: set<ScopedEffect>, failures: nat, handed: seq<Record>, completed: seq<Record>)

  /** The progress after attempting rs and storing all decisions. */
  function After(p: Progress, w: Window, store: seq<Record>, outcome: Record -> Outcome, rs: seq<Record>): Progress {
    Progress(RecoveredAll(p.effects, w, store, outcome, rs),
             p.failures + |Filter(Failing(w, store, outcome), rs)|,
             p.handed + Filter(Handing(w, store, outcome), rs),
             p.completed + Filter(Completing(w, store, outcome), rs))
  }

  /** q is p after attempting the first k of rs and storing the decisions on the first d. */
  ghost predicate UpTo(p: Progress, q: Progress, w: Window, store: seq<Record>, outcome: Record -> Outcome,
                       rs: seq<Record>, d: nat, k: nat) {
    && d <= k <= |rs|
    && q == After(p, w, store, outcome, rs[..k]).(completed := After(p, w, store, outcome, rs[..d]).completed)
  }

  /** q is p after attempting a first part of rs and storing the decisions on a first part of that. */
  ghost predicate Partly(p: Progress, q: Progress, w: Window, store: seq<Record>, outcome: Record -> Outcome,
                         rs: seq<Record>) {
    exists d: nat, k: nat :: UpTo(p, q, w, store, outcome, rs, d, k)
  }

  lemma AfterOne(p: Progress, w: Window, store: seq<Record>, outcome: Record -> Outcome, rs: seq<Record>, i: nat)
    requires i < |rs|
    ensures var q, r := After(p, w, store, outcome, rs[..i]), rs[i];
      After(p, w, store, outcome, rs[..i + 1])
      == Progress(Recovered(q.effects, w, store, outcome, r),
                  q.failures + (if Fails(w, store, outcome, r) then 1 else 0),
                  q.handed + (if Hands(w, store, outcome, r) then [r] else []),
                  q.completed + (if Completes(w, store, outcome, r) then [r] else []))
  {
    assert rs[..i + 1][..i] == rs[..i];
  }

  /** One attempt, no decision stored yet. */
  function Attempted(q: Progress, w: Window, store: seq<Record>, outcome: Record -> Outcome, r: Record): Progress {
    Progress(Recovered(q.effects, w, store, outcome, r),
             q.failures + (if Fails(w, store, outcome, r) then 1 else 0),
             q.handed + (if Hands(w, store, outcome, r) then [r] else []),
             q.completed)
  }

  lemma UpToOne(p: Progress, q: Progress, w: Window, store: seq<Record>, outcome: Record -> Outcome,
                rs: seq<Record>, i: nat)
    requires i < |rs| && UpTo(p, q, w, store, outcome, rs, 0, i)
    ensures UpTo(p, Attempted(q, w, store, outcome, rs[i]), w, store, outcome, rs, 0, i + 1)
    ensures Filter(Completing(w, store, outcome), rs[..i + 1])
         == Filter(Completing(w, store, outcome), rs[..i]) + if Completes(w, store, outcome, rs[i]) then [rs[i]] else []
  {
    AfterOne(p, w, store, outcome, rs, i);
    assert rs[..i + 1][..i] == rs[..i];
  }

  lemma AfterNone(p: Progress, w: Window, store: seq<Record>, outcome: Record -> Outcome, rs: seq<Record>)
    ensures After(p, w, store, outcome, rs[..0]) == p
  {
    assert p.handed + [] == p.handed && p.completed + [] == p.completed;
  }

  /** What is handed over in a first part of rs comes from rs. */
  lemma HandedAmong(p: Progress, q: Progress, w: Window, store: seq<Record>, outcome: Record -> Outcome,
                    rs: seq<Record>)
    requires Partly(p, q, w, store, outcome, rs)
    ensures p.handed <= q.handed && forall r :: r in q.handed[|p.handed|..] ==> r in rs
    ensures p.failures <= q.failures
  {
    var d: nat, k: nat :| UpTo(p, q, w, store, outcome, rs, d, k);
    forall r | r in Filter(Handing(w, store, outcome), rs[..k]) ensures r in rs {
      FilterMember(Handing(w, store, outcome), rs[..k], r);
    }
  }

  lemma AfterConcat(p: Progress, w: Window, store: seq<Record>, outcome: Record -> Outcome,
                    a: seq<Record>, b: seq<Record>)
    ensures After(p, w, store, outcome, a + b) == After(After(p, w, store, outcome, a), w, store, outcome, b)
  {
    RecoveredConcat(p.effects, w, store, outcome, a, b);
    FilterConcat(Failing(w, store, outcome), a, b);
    FilterConcat(Handing(w, store, outcome), a, b);
    FilterConcat(Completing(w, store, outcome), a, b);
  }

  /** A first part of b after all of a is a first part of the whole. */
  lemma PartlyConcat(p: Progress, q: Progress, w: Window, store: seq<Record>, outcome: Record -> Outcome,
                     a: seq<Record>, b: seq<Record>, rest: seq<Record>)
    requires Partly(After(p, w, store, outcome, a), q, w, store, outcome, b)
    ensures Partly(p, q, w, store, outcome, a + b + rest)
  {
    var d: nat, k: nat :| UpTo(After(p, w, store, outcome, a), q, w, store, outcome, b, d, k);
    var rs := a + b + rest;
    assert rs[..|a| + k] == a + b[..k] && rs[..|a| + d] == a + b[..d];
    AfterConcat(p, w, store, outcome, a, b[..k]);
    AfterConcat(p, w, store, outcome, a, b[..d]);
    assert UpTo(p, q, w, store, outcome, rs, |a| + d, |a| + k);
  }

  /** The batch is given up: the context was cancelled under one of its events, or its terminal
  decisions could not be stored. */
  ghost predicate GivenUp(w: Window, store: seq<Record>, outcome: Record -> Outcome,
                          persists: seq<Record> -> bool, rs: seq<Record>) {
    var decided := Filter(Completing(w, store, outcome), rs);
    (exists r :: r in rs && Stops(w, store, outcome, r)) || (decided != [] && !persists(decided))
  }

  /** Attempting rs ends after the first k: that one found the context cancelled, or they are all. */
  ghost predicate EndsAt(w: Window, store: seq<Record>, outcome: Record -> Outcome, rs: seq<Record>, k: nat) {
    && k <= |rs|
    && (k > 0 ==> NoneStops(w, store, outcome, rs[..k - 1]))
    && (k < |rs| ==> k > 0 && Stops(w, store, outcome, rs[k - 1]))
  }

  ghost predicate NoneStops(w: Window, store: seq<Record>, outcome: Record -> Outcome, rs: seq<Record>) {
    forall r :: r in rs ==> !Stops(w, store, outcome, r)
  }

  lemma NoneStopsOn(w: Window, store: seq<Record>, outcome: Record -> Outcome, rs: seq<Record>, i: nat)
    requires i < |rs| && NoneStops(w, store, outcome, rs[..i])
    ensures NoneStops(w, store, outcome, rs[..i + 1]) <==> !Stops(w, store, outcome, rs[i])
    ensures EndsAt(w, store, outcome, rs, i + 1) <==> Stops(w, store, outcome, rs[i]) || i + 1 == |rs|
  {
    assert rs[..i + 1] == rs[..i] + [rs[i]];
  }

  /** What a given-up batch has done: exactly the attempts up to its end, with nothing stored. */
  ghost predicate BatchEnds(p: Progress, q: Progress, w: Window, store: seq<Record>, outcome: Record -> Outcome,
                            rs: seq<Record>) {
    exists k: nat :: EndsAt(w, store, outcome, rs, k) && UpTo(p, q, w, store, outcome, rs, 0, k)
  }

  /** What the recovery query finds, and the b-th batch of it, one kind kept. */
  function Found(w: Window, store: seq<Record>): seq<Record> {
    Filter(SelectedBy(w), store)
  }

  function BatchBound(w: Window, store: seq<Record>, b: nat): (n: nat)
    ensures n <= |Found(w, store)|
  {
    if 1000 * b < |Found(w, store)| then 1000 * b else |Found(w, store)|
  }

  function Before(w: Window, store: seq<Record>, healthy: bool, b: nat): seq<Record> {
    Filter(OfKind(healthy), Found(w, store)[..BatchBound(w, store, b)])
  }

  function Batch(w: Window, store: seq<Record>, healthy: bool, b: nat): seq<Record> {
    Filter(OfKind(healthy), Found(w, store)[BatchBound(w, store, b)..BatchBound(w, store, b + 1)])
  }

  ghost predicate BatchGivenUp(w: Window, store: seq<Record>, outcome: Record -> Outcome,
                               persists: seq<Record> -> bool, healthy: bool, b: nat) {
    1000 * b < |Found(w, store)| && GivenUp(w, store, outcome, persists, Batch(w, store, healthy, b))
  }

  /** Some batch of the scan is given up. */
  ghost predicate ScanGivenUp(w: Window, store: seq<Record>, outcome: Record -> Outcome,
                              persists: seq<Record> -> bool, healthy: bool) {
    exists b: nat :: BatchGivenUp(w, store, outcome, persists, healthy, b)
  }

  /** What a scan that is given up has done: all batches before the first that is given up, and that one
  to its end. */
  ghost predicate ScanEnds(p: Progress, q: Progress, w: Window, store: seq<Record>, outcome: Record -> Outcome,
                           persists: seq<Record> -> bool, healthy: bool) {
    exists b: nat ::
      && BatchGivenUp(w, store, outcome, persists, healthy, b)
      && (forall c: nat :: c < b ==> !BatchGivenUp(w, store, outcome, persists, healthy, c))
      && BatchEnds(After(p, w, store, outcome, Before(w, store, healthy, b)), q, w, store, outcome,
                   Batch(w, store, healthy, b))
  }

  /** `recoveryProgress` together with the node state it works on and a record of what the
  processor was handed. */
  class Recovery {
    var effects: set<ScopedEffect>
    var firstErr: bool
    var failures: nat
    var handed: seq<Record>
    var completed: seq<Record>

    ghost predicate Valid()
      reads this
    {
      firstErr <==> failures > 0
    }

    ghost function View(): Progress
      reads this
    {
      Progress(effects, failures, handed, completed)
    }

    constructor (s: set<ScopedEffect>)
      ensures Valid() && View() == Progress(s, 0, [], [])
    {
      effects, firstErr, failures, handed, completed := s, false, 0, [], [];
    }

    method RecoverStoredEvent(w: Window, store: seq<Record>, outcome: Record -> Outcome, r: Record)
      returns (complete: bool, broke: bool)
      modifies this`effects, this`handed
      ensures broke <==> Breaks(w, store, outcome, r)
      ensures complete <==> Completes(w, store, outcome, r)
      ensures effects == Recovered(old(effects), w, store, outcome, r)
      ensures handed == old(handed) + if Hands(w, store, outcome, r) then [r] else []
    {
      complete, broke := false, false;
      if outcome(r) == Cancelled {
        return false, true;
      }
      if r.body == Malformed {
        return true, false;
      }
      var resolution := Resolve(w, store, r);
      if resolution.Superseded? {
        return true, false;
      }
      handed := handed + [r];
      if outcome(r) == Failed || outcome(r) == Interrupted {
        broke := true;
      } else if outcome(r) != Processed {
        complete := true;
      } else if resolution.Unrestricted? {
        effects := ApplyRecord(effects, r);
      } else {
        effects := ApplyAllowed(effects, r, resolution.tracker);
      }
    }

    /** recoverStoredEvent and recordFailure: an error is counted unless it is a cancellation. */
    method AttemptEvent(w: Window, store: seq<Record>, outcome: Record -> Outcome, r: Record)
      returns (complete: bool, stop: bool)
      requires Valid()
      modifies this`effects, this`handed, this`failures, this`firstErr
      ensures Valid() && View() == Attempted(old(View()), w, store, outcome, r)
      ensures complete <==> Completes(w, store, outcome, r)
      ensures stop <==> Stops(w, store, outcome, r)
    {
      var broke;
      complete, broke := RecoverStoredEvent(w, store, outcome, r);
      stop := broke && (outcome(r) == Cancelled || outcome(r) == Interrupted);
      if broke && !stop {
        failures := failures + 1;
        firstErr := true;
      }
    }

    /** The attempts of a batch, up to one that finds the context cancelled. */
    method AttemptEvents(w: Window, store: seq<Record>, outcome: Record -> Outcome, rs: seq<Record>)
      returns (completions: seq<Record>, stop: bool, ghost attempted: nat)
      requires Valid()
      modifies this`effects, this`handed, this`failures, this`firstErr
      ensures Valid()
      ensures UpTo(old(View()), View(), w, store, outcome, rs, 0, attempted) && (!stop ==> attempted == |rs|)
      ensures EndsAt(w, store, outcome, rs, attempted)
      ensures stop <==> exists r :: r in rs && Stops(w, store, outcome, r)
      ensures !stop ==> completions == Filter(Completing(w, store, outcome), rs)
    {
      completions, stop := [], false;
      ghost var start := View();
      AfterNone(start, w, store, outcome, rs);
      var i := 0;
      while i < |rs|
        invariant 0 <= i <= |rs| && Valid()
        invariant UpTo(start, View(), w, store, outcome, rs, 0, i)
        invariant completions == Filter(Completing(w, store, outcome), rs[..i])
        invariant NoneStops(w, store, outcome, rs[..i]) && (i == |rs| ==> EndsAt(w, store, outcome, rs, i))
      {
        NoneStopsOn(w, store, outcome, rs, i);
        UpToOne(start, View(), w, store, outcome, rs, i);
        var complete;
        complete, stop := AttemptEvent(w, store, outcome, rs[i]);
        if stop {
          assert rs[i] in rs;
          return completions, true, i + 1;
        }
        if complete {
          completions := completions + [rs[i]];
        }
        i := i + 1;
      }
      assert rs[..i] == rs;
      return completions, false, i;
    }

    method RecoverEvents(w: Window, store: seq<Record>, outcome: Record -> Outcome,
                         persists: seq<Record> -> bool, rs: seq<Record>) returns (stop: bool)
      requires Valid()
      modifies this
      ensures Valid()
      ensures stop <==> GivenUp(w, store, outcome, persists, rs)
      ensures !stop ==> View() == After(old(View()), w, store, outcome, rs)
      ensures stop ==> BatchEnds(old(View()), View(), w, store, outcome, rs)
    {
      ghost var start := View();
      AfterNone(start, w, store, outcome, rs);
      assert rs[..|rs|] == rs;
      var completions;
      ghost var attempted;
      completions, stop, attempted := AttemptEvents(w, store, outcome, rs);
      if stop || completions == [] {
        return;
      }
      if !persists(completions) {
        return true;
      }
      completed := completed + completions;
      return false;
    }

    /** recoverBatch: the events of one kind among those of a batch. */
    method RecoverBatch(w: Window, store: seq<Record>, outcome: Record -> Outcome,
                        persists: seq<Record> -> bool, events: seq<Record>, healthy: bool) returns (stop: bool)
      requires Valid()
      modifies this
      ensures Valid()
      ensures var rs := Filter(OfKind(healthy), events);
        && (stop <==> GivenUp(w, store, outcome, persists, rs))
        && (!stop ==> View() == After(old(View()), w, store, outcome, rs))
        && (stop ==> BatchEnds(old(View()), View(), w, store, outcome, rs))
    {
      var selected := [];
      for i := 0 to |events|
        invariant selected == Filter(OfKind(healthy), events[..i])
      {
        assert events[..i + 1][..i] == events[..i];
        if IsHealthy(events[i]) == healthy {
          selected := selected + [events[i]];
        }
      }
      assert events[..|events|] == events;
      stop := RecoverEvents(w, store, outcome, persists, selected);
    }

    /** One scan of the recovery query, batch by batch, keeping one kind of event. */
    method RecoverPhase(w: Window, store: seq<Record>, outcome: Record -> Outcome,
                        persists: seq<Record> -> bool, healthy: bool) returns (stop: bool)
      requires Valid()
      modifies this
      ensures Valid()
      ensures stop <==> ScanGivenUp(w, store, outcome, persists, healthy)
      ensures !stop ==> View() == After(old(View()), w, store, outcome, PhaseRecords(w, store, healthy))
      ensures stop ==> ScanEnds(old(View()), View(), w, store, outcome, persists, healthy)
    {
      var found := Filter(SelectedBy(w), store);
      ghost var start := View();
      AfterNone(start, w, store, outcome, found);
      var b := 0;
      while 1000 * b < |found|
        invariant Valid() && ScannedTo(start, View(), w, store, outcome, persists, healthy, b)
        decreases |found| - 1000 * b
      {
        var lo := 1000 * b;
        var hi := if lo + 1000 < |found| then lo + 1000 else |found|;
        ghost var before := View();
        stop := RecoverBatch(w, store, outcome, persists, found[lo..hi], healthy);
        if stop {
          ScanStopped(start, before, View(), w, store, outcome, persists, healthy, b);
          return;
        }
        ScannedOn(start, before, w, store, outcome, persists, healthy, b);
        b := b + 1;
      }
      ScanDone(start, View(), w, store, outcome, persists, healthy, b);
      return false;
    }

    /** `Handle`: all selected faults, then, if none of them failed, all selected recoveries. */
    method Handle(w: Window, store: seq<Record>, outcome: Record -> Outcome,
                  persists: seq<Record> -> bool) returns (ok: bool)
      requires Valid() && failures == 0
      modifies this
      ensures Handled(old(View()), View(), ok, w, store, outcome, persists)
    {
      var stop := RecoverPhase(w, store, outcome, persists, false);
      if stop {
        return false;
      }
      NoneFails(w, store, outcome, PhaseRecords(w, store, false));
      if !firstErr {
        stop := RecoverPhase(w, store, outcome, persists, true);
        if stop {
          return false;
        }
        NoneFails(w, store, outcome, PhaseRecords(w, store, true));
      }
      return !firstErr;
    }
  }

  ghost predicate AnyFails(w: Window, store: seq<Record>, outcome: Record -> Outcome, rs: seq<Record>) {
    exists r :: r in rs && Fails(w, store, outcome, r)
  }

  /** A call of Handle from p to q answering ok. It succeeds exactly when no attempt on a selected record
  fails and no batch of either scan is given up; and on each way out what it has done is said exactly. */
  ghost predicate Handled(p: Progress, q: Progress, ok: bool, w: Window, store: seq<Record>,
                          outcome: Record -> Outcome, persists: seq<Record> -> bool) {
    var faults, recoveries := PhaseRecords(w, store, false), PhaseRecords(w, store, true);
    var applied := After(p, w, store, outcome, faults);
    var givenUp, failed := ScanGivenUp(w, store, outcome, persists, false), AnyFails(w, store, outcome, faults);
    var givenUpLater := ScanGivenUp(w, store, outcome, persists, true);
    && (ok <==> !givenUp && !givenUpLater && !AnyFails(w, store, outcome, faults + recoveries))
    && (givenUp ==> ScanEnds(p, q, w, store, outcome, persists, false))
    && (!givenUp && failed ==> q == applied)
    && (!givenUp && !failed && givenUpLater ==> ScanEnds(applied, q, w, store, outcome, persists, true))
    && (!givenUp && !failed && !givenUpLater ==> q == After(applied, w, store, outcome, recoveries))
  }

  /** In short: a first part of the faults, or all of them without a failure and a first part of the
  recoveries. */
  ghost predicate HandledPart(p: Progress, q: Progress, w: Window, store: seq<Record>, outcome: Record -> Outcome) {
    var faults, recoveries := PhaseRecords(w, store, false), PhaseRecords(w, store, true);
    || Partly(p, q, w, store, outcome, faults)
    || (&& !AnyFails(w, store, outcome, faults)
        && Partly(After(p, w, store, outcome, faults), q, w, store, outcome, recoveries))
  }

  lemma HandledIsPart(p: Progress, q: Progress, ok: bool, w: Window, store: seq<Record>,
                      outcome: Record -> Outcome, persists: seq<Record> -> bool)
    requires Handled(p, q, ok, w, store, outcome, persists)
    ensures HandledPart(p, q, w, store, outcome)
    ensures var faults := PhaseRecords(w, store, false);
      ScanGivenUp(w, store, outcome, persists, false) || AnyFails(w, store, outcome, faults) ==>
        Partly(p, q, w, store, outcome, faults)
  {
    var faults, recoveries := PhaseRecords(w, store, false), PhaseRecords(w, store, true);
    var applied := After(p, w, store, outcome, faults);
    if ScanGivenUp(w, store, outcome, persists, false) {
      ScanEndsPartly(p, q, w, store, outcome, persists, false);
    } else if AnyFails(w, store, outcome, faults) {
      AllIsPartly(p, w, store, outcome, faults);
    } else if ScanGivenUp(w, store, outcome, persists, true) {
      ScanEndsPartly(applied, q, w, store, outcome, persists, true);
    } else {
      AllIsPartly(applied, w, store, outcome, recoveries);
    }
  }

  lemma AllIsPartly(p: Progress, w: Window, store: seq<Record>, outcome: Record -> Outcome, rs: seq<Record>)
    ensures Partly(p, After(p, w, store, outcome, rs), w, store, outcome, rs)
  {
    assert rs[..|rs|] == rs;
    assert UpTo(p, After(p, w, store, outcome, rs), w, store, outcome, rs, |rs|, |rs|);
  }

  lemma BatchEndsPartly(p: Progress, q: Progress, w: Window, store: seq<Record>, outcome: Record -> Outcome,
                        rs: seq<Record>)
    requires BatchEnds(p, q, w, store, outcome, rs)
    ensures Partly(p, q, w, store, outcome, rs)
  {
  }

  lemma ScanEndsPartly(p: Progress, q: Progress, w: Window, store: seq<Record>, outcome: Record -> Outcome,
                       persists: seq<Record> -> bool, healthy: bool)
    requires ScanEnds(p, q, w, store, outcome, persists, healthy)
    ensures Partly(p, q, w, store, outcome, PhaseRecords(w, store, healthy))
  {
    var b: nat :| BatchGivenUp(w, store, outcome, persists, healthy, b)
      && BatchEnds(After(p, w, store, outcome, Before(w, store, healthy, b)), q, w, store, outcome,
                   Batch(w, store, healthy, b));
    PartOfScan(p, q, w, store, outcome, healthy, b);
  }

  lemma PartOfScan(p: Progress, q: Progress, w: Window, store: seq<Record>, outcome: Record -> Outcome,
                   healthy: bool, b: nat)
    requires BatchEnds(After(p, w, store, outcome, Before(w, store, healthy, b)), q, w, store, outcome,
                       Batch(w, store, healthy, b))
    ensures Partly(p, q, w, store, outcome, PhaseRecords(w, store, healthy))
  {
    BatchStep(p, w, store, outcome, healthy, b);
    var done, batch := Before(w, store, healthy, b), Batch(w, store, healthy, b);
    BatchEndsPartly(After(p, w, store, outcome, done), q, w, store, outcome, batch);
    PartlyConcat(p, q, w, store, outcome, done, batch,
                 Filter(OfKind(healthy), Found(w, store)[BatchBound(w, store, b + 1)..]));
  }

  /** So no healthy event is handed over when a fault failed or the fault scan was given up. */
  lemma OnlyFaultsHanded(p: Progress, q: Progress, w: Window, store: seq<Record>, outcome: Record -> Outcome)
    requires Partly(p, q, w, store, outcome, PhaseRecords(w, store, false))
    ensures p.handed <= q.handed && forall r :: r in q.handed[|p.handed|..] ==> !IsHealthy(r)
  {
    HandedAmong(p, q, w, store, outcome, PhaseRecords(w, store, false));
    forall r | r in PhaseRecords(w, store, false) ensures !IsHealthy(r) {
      FilterMember(OfKind(false), Filter(SelectedBy(w), store), r);
    }
  }

  lemma NoneFails(w: Window, store: seq<Record>, outcome: Record -> Outcome, rs: seq<Record>)
    ensures |Filter(Failing(w, store, outcome), rs)| == 0 <==> forall r :: r in rs ==> !Fails(w, store, outcome, r)
  {
    forall r ensures r in Filter(Failing(w, store, outcome), rs) <==> r in rs && Fails(w, store, outcome, r) {
      FilterMember(Failing(w, store, outcome), rs, r);
    }
  }

  function PhaseRecords(w: Window, store: seq<Record>, healthy: bool): seq<Record> {
    Filter(OfKind(healthy), Filter(SelectedBy(w), store))
  }

  /** From p to q by the first b batches, none of them given up. */
  ghost predicate ScannedTo(p: Progress, q: Progress, w: Window, store: seq<Record>, outcome: Record -> Outcome,
                            persists: seq<Record> -> bool, healthy: bool, b: nat) {
    && q == After(p, w, store, outcome, Before(w, store, healthy, b))
    && forall c: nat :: c < b ==> !BatchGivenUp(w, store, outcome, persists, healthy, c)
  }

  lemma ScannedOn(p: Progress, q: Progress, w: Window, store: seq<Record>, outcome: Record -> Outcome,
                  persists: seq<Record> -> bool, healthy: bool, b: nat)
    requires ScannedTo(p, q, w, store, outcome, persists, healthy, b)
    requires !BatchGivenUp(w, store, outcome, persists, healthy, b)
    ensures ScannedTo(p, After(q, w, store, outcome, Batch(w, store, healthy, b)), w, store, outcome, persists,
                      healthy, b + 1)
  {
    BatchStep(p, w, store, outcome, healthy, b);
  }

  lemma ScanStopped(p: Progress, q: Progress, q': Progress, w: Window, store: seq<Record>, outcome: Record -> Outcome,
                    persists: seq<Record> -> bool, healthy: bool, b: nat)
    requires ScannedTo(p, q, w, store, outcome, persists, healthy, b)
    requires BatchGivenUp(w, store, outcome, persists, healthy, b)
    requires BatchEnds(q, q', w, store, outcome, Batch(w, store, healthy, b))
    ensures ScanGivenUp(w, store, outcome, persists, healthy) && ScanEnds(p, q', w, store, outcome, persists, healthy)
  {
  }

  lemma ScanDone(p: Progress, q: Progress, w: Window, store: seq<Record>, outcome: Record -> Outcome,
                 persists: seq<Record> -> bool, healthy: bool, b: nat)
    requires ScannedTo(p, q, w, store, outcome, persists, healthy, b) && 1000 * b >= |Found(w, store)|
    ensures !ScanGivenUp(w, store, outcome, persists, healthy)
    ensures q == After(p, w, store, outcome, PhaseRecords(w, store, healthy))
  {
    assert Found(w, store)[..|Found(w, store)|] == Found(w, store);
  }

  lemma BatchStep(p: Progress, w: Window, store: seq<Record>, outcome: Record -> Outcome, healthy: bool, b: nat)
    ensures var done, batch := Before(w, store, healthy, b), Batch(w, store, healthy, b);
      && Before(w, store, healthy, b + 1) == done + batch
      && PhaseRecords(w, store, healthy)
         == done + batch + Filter(OfKind(healthy), Found(w, store)[BatchBound(w, store, b + 1)..])
      && After(p, w, store, outcome, done + batch) == After(After(p, w, store, outcome, done), w, store, outcome, batch)
  {
    var found, kind := Found(w, store), OfKind(healthy);
    var lo, hi := BatchBound(w, store, b), BatchBound(w, store, b + 1);
    assert found[..hi] == found[..lo] + found[lo..hi] && found == found[..hi] + found[hi..];
    FilterConcat(kind, found[..lo], found[lo..hi]);
    FilterConcat(kind, found[..hi], found[hi..]);
    AfterConcat(p, w, store, outcome, Filter(kind, found[..lo]), Filter(kind, found[lo..hi]));
  }

  lemma {:induction false} FilterConcat<T>(p: T -> bool, a: seq<T>, b: seq<T>)
    ensures Filter(p, a + b) == Filter(p, a) + Filter(p, b)
  {
    if b == [] {
      assert a + b == a;
    } else {
      assert (a + b)[..|a + b| - 1] == a + b[..|b| - 1];
      FilterConcat(p, a, b[..|b| - 1]);
    }
  }

  lemma {:induction false} RecoveredConcat(s: set<ScopedEffect>, w: Window, store: seq<Record>,
                        outcome: Record -> Outcome, a: seq<Record>, b: seq<Record>)
    ensures RecoveredAll(s, w, store, outcome, a + b)
         == RecoveredAll(RecoveredAll(s, w, store, outcome, a), w, store, outcome, b)
  {
    if b == [] {
      assert a + b == a;
    } else {
      assert (a + b)[..|a + b| - 1] == a + b[..|b| - 1];
      RecoveredConcat(s, w, store, outcome, a, b[..|b| - 1]);
    }
  }
}
